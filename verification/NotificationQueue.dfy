/** Receipts of local notifications and the bounded backlog that retains unaccepted ones
    (src/eagle-monitor-engine.mjs, `#retainPendingNotification`, `#submitNotification`).
    A digest of a value is modelled by the value itself, so equal digests mean equal values. */
module NotificationQueue {
  import opened Prelude
  import P = MonitorPolicy

  datatype SessionId = SessionId(workflow: nat, binding: Option<string>, configuredAt: int)

  datatype UnavailableId = UnavailableId(session: SessionId, brokerEpoch: Option<int>, runtime: Option<nat>)

  datatype TerminalId = TerminalId(
    brokerEpoch: Option<int>, phase: P.Phase, failure: Option<P.FailureCode>, status: P.Status, updatedAt: Option<int>)

  datatype Identity = Identity(
    session: SessionId, brokerEpoch: Option<int>, unavailable: Option<UnavailableId>,
    terminal: Option<TerminalId>, semanticIncident: Option<nat>)

  datatype Key = ReportKey(identity: Identity, reason: P.Reason, state: P.MonitorState) | OverflowKey

  datatype Outcome = Pending | Dispatching | Failed | Accepted

  datatype Receipt = Receipt(
    key: Key, reason: P.Reason, state: P.MonitorState, outcome: Outcome,
    attemptedAt: Option<int>, retryAt: Option<int>, acceptedAt: Option<int>,
    nextRepeatAt: Option<int>, repeatCount: nat)

  function NewReport(key: Key, reason: P.Reason, state: P.MonitorState): Receipt {
    Receipt(key, reason, state, Pending, None, None, None, None, 0)
  }

  function OverflowSummary(): Receipt {
    NewReport(OverflowKey, P.NotificationBacklogOverflow, P.HumanRequiredOther)
  }

  predicate HasKey(backlog: seq<Receipt>, key: Key) {
    exists i :: 0 <= i < |backlog| && backlog[i].key == key
  }

  predicate HasOverflow(backlog: seq<Receipt>) {
    exists i :: 0 <= i < |backlog| && backlog[i].reason.NotificationBacklogOverflow?
  }

  /** `#retainPendingNotification`: an unaccepted receipt that leaves the current slot joins
      the backlog, or a single overflow summary stands for everything that did not fit. */
  function Retain(backlog: seq<Receipt>, current: Option<Receipt>): seq<Receipt> {
    if current.None? || current.value.outcome.Accepted? then backlog
    else if HasKey(backlog, current.value.key) then backlog
    else if |backlog| < P.NOTIFICATION_BACKLOG_LIMIT then backlog + [current.value]
    else if !HasOverflow(backlog) then backlog + [OverflowSummary()]
    else backlog
  }

  function WithoutKey(backlog: seq<Receipt>, key: Key): seq<Receipt> {
    if backlog == [] then []
    else if backlog[0].key == key then WithoutKey(backlog[1..], key)
    else [backlog[0]] + WithoutKey(backlog[1..], key)
  }

  /** The first entry with the key (`find`). */
  function Lookup(backlog: seq<Receipt>, key: Key): Option<Receipt> {
    if backlog == [] then None
    else if backlog[0].key == key then Some(backlog[0])
    else Lookup(backlog[1..], key)
  }

  function WithoutAccepted(backlog: seq<Receipt>): seq<Receipt> {
    if backlog == [] then []
    else if backlog[0].outcome.Accepted? then WithoutAccepted(backlog[1..])
    else [backlog[0]] + WithoutAccepted(backlog[1..])
  }

  /** A retained report may be submitted: it is not accepted and its retry time has come. */
  predicate Due(r: Receipt, nowMs: int) {
    !r.outcome.Accepted? && (r.retryAt.None? || nowMs >= r.retryAt.value)
  }

  /** The index of the first due entry, or the length of the backlog. */
  function FirstDue(backlog: seq<Receipt>, nowMs: int): (i: nat)
    ensures i <= |backlog|
    ensures i < |backlog| ==> Due(backlog[i], nowMs)
    ensures forall k :: 0 <= k < i ==> !Due(backlog[k], nowMs)
  {
    if backlog == [] || Due(backlog[0], nowMs) then 0 else 1 + FirstDue(backlog[1..], nowMs)
  }

  // ---- submission -----------------------------------------------------

  /** An accepted report is reopened once its repeat delay has elapsed. */
  predicate RepeatDue(r: Receipt, nowMs: int) {
    r.outcome.Accepted? && r.nextRepeatAt.Some? && nowMs >= r.nextRepeatAt.value
  }

  /** Whether `#submitNotification` dispatches the receipt at this time. */
  predicate Submits(r: Receipt, nowMs: int) {
    if r.outcome.Accepted? then RepeatDue(r, nowMs) && (r.retryAt.None? || nowMs >= r.retryAt.value)
    else r.retryAt.None? || nowMs >= r.retryAt.value
  }

  /** The receipt a submission that is not dispatched leaves behind. */
  function Reopened(r: Receipt, nowMs: int): Receipt {
    if RepeatDue(r, nowMs) then
      r.(outcome := Pending, repeatCount := r.repeatCount + 1, acceptedAt := None, nextRepeatAt := None)
    else r
  }

  /** The persisted intent: dispatching, with the next retry already scheduled. */
  function Dispatched(r: Receipt, nowMs: int, wallMs: int): Receipt {
    var attempt := if wallMs > nowMs then wallMs else nowMs;
    Reopened(r, nowMs).(outcome := Dispatching, attemptedAt := Some(attempt),
                        retryAt := Some(attempt + P.NOTIFICATION_RETRY_MS))
  }

  function RepeatDelay(repeatCount: nat): int {
    // doubling the first delay twice reaches the four-hour cap
    if repeatCount == 0 then P.NOTIFICATION_REPEAT_MS
    else if repeatCount == 1 then 2 * P.NOTIFICATION_REPEAT_MS
    else P.NOTIFICATION_REPEAT_MAX_MS
  }

  /** The receipt after the notifier has accepted or refused it. */
  function Resolved(r: Receipt, nowMs: int, accepted: bool): Receipt {
    if accepted then
      r.(outcome := Accepted, retryAt := None, acceptedAt := Some(nowMs),
         nextRepeatAt := Some(nowMs + RepeatDelay(r.repeatCount)))
    else r.(outcome := Failed)
  }

  // ---- the store's assertions -----------------------------------------

  /** `assertNotification`. */
  predicate ValidReceipt(r: Receipt) {
    && P.NotifyUser in P.Allowed(r.state)
    && (r.attemptedAt.Some? ==> r.attemptedAt.value >= 0)
    && (r.retryAt.Some? ==> r.retryAt.value >= 0)
    && (r.outcome.Pending? ==> r.attemptedAt.None? && r.retryAt.None?)
    && (r.outcome.Accepted? ==> r.attemptedAt.Some? && r.retryAt.None?)
    && (r.outcome.Dispatching? || r.outcome.Failed? ==>
          r.attemptedAt.Some? && r.retryAt.Some? && r.retryAt.value >= r.attemptedAt.value)
    && (r.acceptedAt.Some? ==> r.acceptedAt.value >= 0)
    && (r.nextRepeatAt.Some? ==> r.nextRepeatAt.value >= 0)
  }

  predicate DistinctKeys(backlog: seq<Receipt>) {
    forall i, j :: 0 <= i < j < |backlog| ==> backlog[i].key != backlog[j].key
  }

  /** The queue part of `assertState`, with the room the overflow summary takes. */
  predicate ValidQueue(notification: Option<Receipt>, backlog: seq<Receipt>) {
    && (notification.Some? ==> ValidReceipt(notification.value))
    && (forall i :: 0 <= i < |backlog| ==> ValidReceipt(backlog[i]))
    && |backlog| <= P.NOTIFICATION_BACKLOG_LIMIT + 1
    && (|backlog| > P.NOTIFICATION_BACKLOG_LIMIT ==> HasOverflow(backlog))
    && DistinctKeys(backlog)
    && (notification.Some? ==> !HasKey(backlog, notification.value.key))
  }

  /** Identities are faithful: only the overflow summary has the overflow key and reason. */
  predicate Faithful(r: Receipt) {
    r.key.OverflowKey? <==> r.reason.NotificationBacklogOverflow?
  }

  predicate FaithfulQueue(notification: Option<Receipt>, backlog: seq<Receipt>) {
    && (notification.Some? ==> Faithful(notification.value) && !notification.value.key.OverflowKey?)
    && forall i :: 0 <= i < |backlog| ==> Faithful(backlog[i])
  }

  // ---- facts about the list operations --------------------------------

  lemma {:induction false} LookupFinds(backlog: seq<Receipt>, key: Key)
    ensures Lookup(backlog, key).Some? <==> HasKey(backlog, key)
    ensures Lookup(backlog, key).Some? ==>
              Lookup(backlog, key).value.key == key && Lookup(backlog, key).value in backlog
  {
    if backlog == [] || backlog[0].key == key {
    } else {
      LookupFinds(backlog[1..], key);
      if HasKey(backlog, key) {
        var i :| 0 <= i < |backlog| && backlog[i].key == key;
        assert backlog[1..][i - 1].key == key;
      }
    }
  }

  lemma {:induction false} WithoutKeyMembers(backlog: seq<Receipt>, key: Key)
    ensures forall r :: r in WithoutKey(backlog, key) <==> r in backlog && r.key != key
    ensures |WithoutKey(backlog, key)| <= |backlog|
  {
    if backlog == [] {
    } else {
      WithoutKeyMembers(backlog[1..], key);
      assert backlog == [backlog[0]] + backlog[1..];
    }
  }

  lemma {:induction false} WithoutAbsentKey(backlog: seq<Receipt>, key: Key)
    requires !HasKey(backlog, key)
    ensures WithoutKey(backlog, key) == backlog
  {
    if backlog == [] {
    } else {
      assert backlog[0].key != key;
      assert forall i :: 0 <= i < |backlog[1..]| ==> backlog[1..][i].key == backlog[i + 1].key;
      WithoutAbsentKey(backlog[1..], key);
    }
  }

  lemma {:induction false} WithoutKeyKeeps(backlog: seq<Receipt>, key: Key)
    requires DistinctKeys(backlog)
    ensures !HasKey(WithoutKey(backlog, key), key) && DistinctKeys(WithoutKey(backlog, key))
    ensures HasKey(backlog, key) ==> |WithoutKey(backlog, key)| < |backlog|
  {
    WithoutKeyMembers(backlog, key);
    if backlog == [] {
    } else {
      var rest := backlog[1..];
      WithoutKeyKeeps(rest, key);
      WithoutKeyMembers(rest, key);
      var kept := WithoutKey(rest, key);
      forall j | 0 <= j < |kept| ensures kept[j].key != backlog[0].key {
        assert kept[j] in rest;
      }
    }
  }

  lemma {:induction false} WithoutAcceptedMembers(backlog: seq<Receipt>)
    ensures forall r :: r in WithoutAccepted(backlog) <==> r in backlog && !r.outcome.Accepted?
    ensures |WithoutAccepted(backlog)| <= |backlog|
    ensures |WithoutAccepted(backlog)| == |backlog| ==> WithoutAccepted(backlog) == backlog
  {
    if backlog == [] {
    } else {
      WithoutAcceptedMembers(backlog[1..]);
      assert backlog == [backlog[0]] + backlog[1..];
    }
  }

  lemma {:induction false} WithoutAcceptedDistinct(backlog: seq<Receipt>)
    requires DistinctKeys(backlog)
    ensures DistinctKeys(WithoutAccepted(backlog))
  {
    if backlog == [] {
    } else {
      var rest := backlog[1..];
      var kept := WithoutAccepted(rest);
      WithoutAcceptedDistinct(rest);
      WithoutAcceptedMembers(rest);
      assert forall j :: 0 <= j < |kept| ==> kept[j] in rest;
      assert forall k :: 0 <= k < |rest| ==> rest[k].key != backlog[0].key;
    }
  }

  // ---- what each queue operation keeps --------------------------------

  /** The invariant of the notification queue. */
  predicate GoodQueue(notification: Option<Receipt>, backlog: seq<Receipt>) {
    ValidQueue(notification, backlog) && FaithfulQueue(notification, backlog)
  }

  /** Membership, by value: every entry of the result obeys what every entry of the source did. */
  lemma MembersObey(from: seq<Receipt>, to: seq<Receipt>)
    requires forall r :: r in to ==> r in from
    requires forall i :: 0 <= i < |from| ==> ValidReceipt(from[i]) && Faithful(from[i])
    ensures forall i :: 0 <= i < |to| ==> ValidReceipt(to[i]) && Faithful(to[i])
  {
    hide ValidReceipt, Faithful;
    forall i | 0 <= i < |to| ensures ValidReceipt(to[i]) && Faithful(to[i]) {
      assert to[i] in from;
    }
  }

  /** Retaining keeps the queue and leaves the retained receipt, or a summary of what did
      not fit, in the backlog. */
  lemma RetainKeeps(notification: Option<Receipt>, backlog: seq<Receipt>)
    requires GoodQueue(notification, backlog)
    ensures var after := Retain(backlog, notification);
            && GoodQueue(None, after)
            && backlog <= after
            && (notification.Some? && !notification.value.outcome.Accepted? ==>
                  notification.value in after || HasOverflow(after))
  {
    var after := Retain(backlog, notification);
    if after != backlog && |backlog| >= P.NOTIFICATION_BACKLOG_LIMIT {
      assert ValidReceipt(OverflowSummary());
      assert after[|backlog|].reason.NotificationBacklogOverflow?;
      assert forall i :: 0 <= i < |backlog| ==> !backlog[i].reason.NotificationBacklogOverflow?;
    } else if after != backlog {
      assert after[|backlog|] == notification.value;
    }
  }
}
