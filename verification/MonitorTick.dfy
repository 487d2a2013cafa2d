/** What the phases of a tick may change and write (src/eagle-monitor-engine.mjs). */
module MonitorTick {
  import opened Prelude
  import P = MonitorPolicy
  import opened NotificationQueue
  import S = SemanticState
  import C = SemanticClassifier
  import opened MonitorEngine

  predicate Queued(s: EngineState) {
    GoodQueue(s.notification, s.backlog)
  }

  /** Two states that differ at most in their notifications and last action. */
  predicate SameCore(s: EngineState, t: EngineState) {
    && s.broker == t.broker && s.brokerStarts == t.brokerStarts && s.deadSinceAt == t.deadSinceAt
    && s.boundary == t.boundary && s.incidents == t.incidents && s.lastIncident == t.lastIncident
    && s.lastTick == t.lastTick && s.monitor == t.monitor && s.reconciliation == t.reconciliation
    && s.recoveryCount == t.recoveryCount && s.semantic == t.semantic && s.session == t.session
    && s.unavailability == t.unavailability && s.updatedAt == t.updatedAt && s.workflow == t.workflow
    && s.phase == t.phase
  }

  /** A step of the notification phases: a submission, or a write that differs from the
      state of the phase only in notifications and last action. */
  predicate NotifyStep(cfg: Config, s: EngineState, step: Step) {
    step.Submit? || (step.Persist? && SameCore(Stored(cfg, s), step.written) && Queued(step.written))
  }

  predicate Notified(cfg: Config, m: Memory, after: Memory) {
    && m.log <= after.log
    && SameCore(m.state, after.state)
    && Queued(after.state)
    && forall i :: |m.log| <= i < |after.log| ==> NotifyStep(cfg, m.state, after.log[i])
  }

  lemma NotifiedTransitive(cfg: Config, a: Memory, b: Memory, c: Memory)
    requires Notified(cfg, a, b) && Notified(cfg, b, c)
    ensures Notified(cfg, a, c)
  {
    hide Queued;
    forall i | |a.log| <= i < |c.log| ensures NotifyStep(cfg, a.state, c.log[i]) {
      if i < |b.log| { assert c.log[i] == b.log[i]; } else { assert NotifyStep(cfg, b.state, c.log[i]); }
    }
  }

  // ---- notification phases --------------------------------------------

  /** A receipt through a submission: the key, reason and state stay, the intent and the
      outcome are both acceptable to the store. */
  lemma SubmissionKeepsReceipt(r: Receipt, nowMs: int, wallMs: int, accepted: bool)
    requires ValidReceipt(r) && nowMs >= 0
    ensures !Submits(r, nowMs) ==> Reopened(r, nowMs) == r
    ensures Submits(r, nowMs) ==>
              var intent := Dispatched(r, nowMs, wallMs);
              var outcome := Resolved(intent, nowMs, accepted);
              && ValidReceipt(intent) && intent.key == r.key && intent.reason == r.reason
              && ValidReceipt(outcome) && outcome.key == r.key && outcome.reason == r.reason
  {
  }

  lemma ReplacedCurrent(s: EngineState, r: Receipt)
    requires Queued(s) && s.notification.Some?
    requires ValidReceipt(r) && r.key == s.notification.value.key && r.reason == s.notification.value.reason
    ensures Queued(s.(notification := Some(r)))
  {
    hide ValidReceipt, HasKey, HasOverflow, DistinctKeys;
  }

  lemma ReplacedLast(s: EngineState, r: Receipt)
    requires Queued(s) && |s.backlog| > 0
    requires var last := s.backlog[|s.backlog| - 1]; ValidReceipt(r) && r.key == last.key && r.reason == last.reason
    ensures Queued(s.(backlog := s.backlog[|s.backlog| - 1 := r]))
  {
    hide ValidReceipt;
    var before, after := s.backlog, s.backlog[|s.backlog| - 1 := r];
    forall i | 0 <= i < |after| ensures after[i].key == before[i].key && after[i].reason == before[i].reason {}
    if |before| > P.NOTIFICATION_BACKLOG_LIMIT {
      var i :| 0 <= i < |before| && before[i].reason.NotificationBacklogOverflow?;
      assert after[i].reason.NotificationBacklogOverflow?;
    }
  }

  lemma SetNotified(cfg: Config, m: Memory, after: Memory, s: EngineState)
    requires Notified(cfg, m, after) && SameCore(m.state, s) && Queued(s)
    ensures Notified(cfg, m, Memory(s, after.log))
  {
    hide Queued, NotifyStep;
  }

  lemma WriteNotified(cfg: Config, m: Memory, after: Memory)
    requires Notified(cfg, m, after)
    ensures Notified(cfg, m, Write(cfg, after))
  {
    hide GoodQueue;
    var log := after.log + [Persist(Stored(cfg, after.state))];
    forall i | |m.log| <= i < |log| ensures NotifyStep(cfg, m.state, log[i]) {
      if i < |after.log| { assert log[i] == after.log[i]; }
    }
  }

  lemma SubmitNotified(cfg: Config, m: Memory, after: Memory, key: Key, accepted: bool)
    requires Notified(cfg, m, after)
    ensures Notified(cfg, m, Emit(after, Submit(key, accepted)))
  {
    hide Queued, SameCore;
    var log := after.log + [Submit(key, accepted)];
    forall i | |m.log| <= i < |log| ensures NotifyStep(cfg, m.state, log[i]) {
      if i < |after.log| { assert log[i] == after.log[i]; }
    }
  }

  lemma TwoWrites(cfg: Config, m: Memory, first: EngineState, key: Key, accepted: bool, second: EngineState)
    requires Queued(m.state)
    requires SameCore(m.state, first) && Queued(first) && SameCore(m.state, second) && Queued(second)
    ensures var asked := Emit(Write(cfg, Memory(first, m.log)), Submit(key, accepted));
            Notified(cfg, m, Write(cfg, Memory(second, asked.log)))
  {
    hide Queued, SameCore, Notified;
    NotifiedRefl(cfg, m);
    SetNotified(cfg, m, m, first);
    var written := Write(cfg, Memory(first, m.log));
    WriteNotified(cfg, m, Memory(first, m.log));
    SubmitNotified(cfg, m, written, key, accepted);
    var asked := Emit(written, Submit(key, accepted));
    SetNotified(cfg, m, asked, second);
    WriteNotified(cfg, m, Memory(second, asked.log));
  }

  lemma SubmitCurrentKeeps(cfg: Config, m: Memory, nowMs: int, wallMs: int, accepted: bool)
    requires Queued(m.state) && m.state.notification.Some? && nowMs >= 0
    ensures Notified(cfg, m, SubmitCurrent(cfg, m, nowMs, wallMs, accepted))
  {
    hide ValidReceipt, Submits, Reopened, Dispatched, Resolved, HasKey, HasOverflow, DistinctKeys, Notified, Stored;
    var r := m.state.notification.value;
    SubmissionKeepsReceipt(r, nowMs, wallMs, accepted);
    if !Submits(r, nowMs) {
      assert SetCurrent(m, Reopened(r, nowMs)) == m;
      NotifiedRefl(cfg, m);
    } else {
      var intent := Dispatched(r, nowMs, wallMs);
      var outcome := Resolved(intent, nowMs, accepted);
      ReplacedCurrent(m.state, intent);
      ReplacedCurrent(m.state, outcome);
      TwoWrites(cfg, m, SetCurrent(m, intent).state, r.key, accepted, SetCurrent(m, outcome).state);
    }
  }

  lemma NotifiedRefl(cfg: Config, m: Memory)
    requires Queued(m.state)
    ensures Notified(cfg, m, m)
  {
    hide Queued;
  }

  lemma SubmitLastKeeps(cfg: Config, m: Memory, nowMs: int, wallMs: int, accepted: bool)
    requires Queued(m.state) && |m.state.backlog| > 0 && nowMs >= 0
    ensures Notified(cfg, m, SubmitLast(cfg, m, nowMs, wallMs, accepted))
  {
    hide ValidReceipt, Submits, Reopened, Dispatched, Resolved, HasKey, HasOverflow, DistinctKeys, Notified, Stored;
    var r := m.state.backlog[|m.state.backlog| - 1];
    SubmissionKeepsReceipt(r, nowMs, wallMs, accepted);
    if !Submits(r, nowMs) {
      assert SetLast(m, Reopened(r, nowMs)) == m;
      NotifiedRefl(cfg, m);
    } else {
      var intent := Dispatched(r, nowMs, wallMs);
      var outcome := Resolved(intent, nowMs, accepted);
      ReplacedLast(m.state, intent);
      ReplacedLast(m.state, outcome);
      var first, second := SetLast(m, intent).state, SetLast(m, outcome).state;
      assert first.backlog[|first.backlog| - 1 := outcome] == second.backlog;
      TwoWrites(cfg, m, first, r.key, accepted, second);
    }
  }

  /** A report that `#notify` may raise. */
  predicate Reportable(c: P.Classification) {
    P.NotifyUser in P.Allowed(c.state) && !c.reason.NotificationBacklogOverflow?
  }

  lemma PromotedQueue(notification: Option<Receipt>, backlog: seq<Receipt>, key: Key, c: P.Classification)
    requires GoodQueue(notification, backlog) && key.ReportKey? && Reportable(c)
    ensures var retained := Retain(backlog, notification);
            var known := Lookup(retained, key);
            var raised := if known.Some? then known.value else NewReport(key, c.reason, c.state);
            raised.key == key && GoodQueue(Some(raised), WithoutKey(retained, key))
  {
    hide ValidReceipt, HasOverflow, Retain, Lookup, WithoutKey;
    var retained := Retain(backlog, notification);
    RetainKeeps(notification, backlog);
    LookupFinds(retained, key);
    NewReportValid(key, c);
    var rest := WithoutKey(retained, key);
    WithoutKeyKeeps(retained, key);
    WithoutKeyMembers(retained, key);
    MembersObey(retained, rest);
    if |rest| > P.NOTIFICATION_BACKLOG_LIMIT { WithoutAbsentKey(retained, key); }
  }

  /** Raising a report keeps the queue: its key leaves the backlog when it takes the slot. */
  lemma PromotedKeeps(s: EngineState, key: Key, c: P.Classification)
    requires Queued(s) && key.ReportKey? && Reportable(c)
    ensures var after := Promoted(s, key, c);
            && Queued(after) && SameCore(s, after)
            && after.notification.Some? && after.notification.value.key == key
  {
    hide GoodQueue, Retain, Lookup, WithoutKey, Reportable;
    if !(s.notification.Some? && s.notification.value.key == key) {
      PromotedQueue(s.notification, s.backlog, key, c);
    }
  }

  lemma NewReportValid(key: Key, c: P.Classification)
    requires key.ReportKey? && Reportable(c)
    ensures ValidReceipt(NewReport(key, c.reason, c.state)) && Faithful(NewReport(key, c.reason, c.state))
  {
  }

  lemma NotifyKeeps(cfg: Config, m: Memory, c: P.Classification, identity: Identity,
                    nowMs: int, wallMs: int, accepted: bool)
    requires Queued(m.state) && Reportable(c) && nowMs >= 0
    ensures Notified(cfg, m, Notify(cfg, m, c, identity, nowMs, wallMs, accepted))
  {
    hide GoodQueue, Promoted, SubmitCurrent;
    var key := ReportKey(identity, c.reason, c.state);
    PromotedKeeps(m.state, key, c);
    var raised := Memory(Promoted(m.state, key, c), m.log);
    SubmitCurrentKeeps(cfg, raised, nowMs, wallMs, accepted);
    NotifiedTransitive(cfg, m, raised, SubmitCurrent(cfg, raised, nowMs, wallMs, accepted));
  }

  lemma ReportKeeps(cfg: Config, acted: Acted, a: Assessment, input: TickInput)
    requires Queued(acted.memory.state) && input.nowMs >= 0
    requires acted.report && acted.classification.humanRequired ==> Reportable(acted.classification)
    ensures Notified(cfg, acted.memory, Report(cfg, acted, a, input))
  {
    hide Notify, SubmitCurrent, ReportOutcome, ReportIdentity, ValidReceipt, HasKey, HasOverflow, DistinctKeys,
      Reportable;
    var m := acted.memory;
    if acted.report && acted.classification.humanRequired {
      NotifyKeeps(cfg, m, acted.classification, ReportIdentity(m.state, a, input, None),
                  input.nowMs, input.reportWallMs, input.reportAccepted);
    } else if m.state.notification.Some? && !m.state.notification.value.outcome.Accepted? {
      SubmitCurrentKeeps(cfg, m, input.nowMs, input.reportWallMs, input.reportAccepted);
    }
  }

  lemma ReportSemanticKeeps(cfg: Config, m: Memory, c: P.Classification, a: Assessment, semantic: S.State,
                            input: TickInput)
    requires Queued(m.state) && input.nowMs >= 0
    ensures Notified(cfg, m, ReportSemantic(cfg, m, c, a, semantic, input))
  {
    hide Notify, ReportIdentity, GoodQueue, SemanticKeys, Notified;
    NotifiedRefl(cfg, m);
    if ReportsSemantic(c, a, semantic) {
      NotifyKeeps(cfg, m, SemanticReport(c, semantic), ReportIdentity(m.state, a, input, semantic.incidentKey),
                  input.nowMs, input.semanticWallMs, input.semanticAccepted);
    }
  }

  /** The rotation is a permutation of the backlog. */
  lemma RotatedAt(b: seq<Receipt>, nowMs: int, k: nat)
    requires FirstDue(b, nowMs) < |b| && k < |b|
    ensures var i := FirstDue(b, nowMs);
            && |Rotated(b, nowMs)| == |b|
            && Rotated(b, nowMs)[if k < i then k else if k == i then |b| - 1 else k - 1] == b[k]
            && Rotated(b, nowMs)[k] == b[if k < i then k else if k == |b| - 1 then i else k + 1]
  {
    hide FirstDue, Due;
    MovedAt(b, FirstDue(b, nowMs), k);
  }

  lemma RotatedKeeps(s: EngineState, nowMs: int)
    requires Queued(s) && FirstDue(s.backlog, nowMs) < |s.backlog|
    ensures Queued(s.(backlog := Rotated(s.backlog, nowMs)))
    ensures |Rotated(s.backlog, nowMs)| == |s.backlog|
  {
    hide ValidReceipt, Faithful, FirstDue, Rotated;
    var i, b := FirstDue(s.backlog, nowMs), s.backlog;
    var r := Rotated(b, nowMs);
    RotatedAt(b, nowMs, i);
    forall k | 0 <= k < |b| ensures r[k] == b[if k < i then k else if k == |b| - 1 then i else k + 1] {
      RotatedAt(b, nowMs, k);
    }
    if |b| > P.NOTIFICATION_BACKLOG_LIMIT {
      var k :| 0 <= k < |b| && b[k].reason.NotificationBacklogOverflow?;
      RotatedAt(b, nowMs, k);
    }
  }

  lemma DroppedAcceptedKeeps(s: EngineState)
    requires Queued(s)
    ensures Queued(s.(backlog := WithoutAccepted(s.backlog)))
  {
    hide ValidReceipt;
    WithoutAcceptedMembers(s.backlog);
    WithoutAcceptedDistinct(s.backlog);
    MembersObey(s.backlog, WithoutAccepted(s.backlog));
  }

  lemma ReportQueuedKeeps(cfg: Config, m: Memory, input: TickInput)
    requires Queued(m.state) && input.nowMs >= 0
    ensures Notified(cfg, m, ReportQueued(cfg, m, input))
  {
    hide SubmitLast, Rotated, GoodQueue, WithoutAccepted;
    var now := input.nowMs;
    var submitted := m;
    NotifiedRefl(cfg, m);
    if FirstDue(m.state.backlog, now) < |m.state.backlog| {
      RotatedKeeps(m.state, now);
      var rotated := Memory(m.state.(backlog := Rotated(m.state.backlog, now)), m.log);
      submitted := SubmitLast(cfg, rotated, now, input.queuedWallMs, input.queuedAccepted);
      SubmitLastKeeps(cfg, rotated, now, input.queuedWallMs, input.queuedAccepted);
      NotifiedTransitive(cfg, m, rotated, submitted);
    }
    DroppedAcceptedKeeps(submitted.state);
  }

  // ---- the whole tick -------------------------------------------------

  /** What a tick writes before its last write: the state it started from, but for the queue,
      the action bookkeeping and, when it starts the broker, the recorded start. */
  predicate MidWrite(cfg: Config, a: Assessment, nowMs: int, w: EngineState) {
    && w.broker == a.state.broker && w.deadSinceAt == a.state.deadSinceAt && w.boundary == a.state.boundary
    && w.incidents == Tail(a.state.incidents, cfg.incidentLimit) && w.lastIncident == a.state.lastIncident
    && w.lastTick == a.state.lastTick && w.monitor == a.state.monitor && w.phase == a.state.phase
    && w.semantic == a.state.semantic
    && w.session == a.state.session && w.unavailability == a.state.unavailability
    && w.updatedAt == a.state.updatedAt && w.workflow == a.state.workflow
    && w.brokerStarts == (if a.action.StartBroker? then a.brokerStarts + [nowMs] else a.state.brokerStarts)
  }

  /** The classification a tick ends with: the assessed one, or the failure or the result of
      an action that was dispatched. */
  predicate Concludes(a: Assessment, c: P.Classification) {
    || c == a.classification
    || (&& c.state.HumanRequiredOther? && c.humanRequired
        && (c.reason.ActionFailed? || c.reason.TerminalReconciliationUnresolved?)
        && (a.action.StartBroker? || a.action.AttachExactWorkflow? || a.action.ReconcileExactWorkflow?))
  }

  /** What every completed tick writes last. */
  predicate FinalWrite(cfg: Config, a: Assessment, semantic: S.State, input: TickInput, w: EngineState) {
    && w.broker == Some(BrokerEvidence(input.broker.available, input.broker.epoch, input.broker.runtime))
    && w.brokerStarts == (if a.action.StartBroker? && input.session.safeMode then a.brokerStarts + [input.nowMs]
                          else a.brokerStarts)
    && w.deadSinceAt == a.deadSinceAt
    && w.boundary.Some? && Concludes(a, w.boundary.value) && w.monitor == w.boundary.value.state
    && w.semantic == Some(semantic) && w.phase == P.PhaseCode(input.broker.workflow)
    && w.session == a.state.session && w.unavailability == a.state.unavailability
    && w.updatedAt == input.nowMs && w.workflow == Some(input.session.workflow)
    && w.incidents == Tail(a.state.incidents + NewIncidents(a.state.lastIncident, a.state.incidents, w.boundary.value,
                                                           semantic, w.phase, input.nowMs), cfg.incidentLimit)
  }

  predicate MidStep(cfg: Config, a: Assessment, input: TickInput, log: seq<Step>, i: nat)
    requires i < |log|
  {
    && (log[i].Persist? ==>
          Queued(log[i].written) && input.session.safeMode && MidWrite(cfg, a, input.nowMs, log[i].written))
    && (log[i].StartBroker? ==>
          && i == 2 && log[1].Persist? && log[i].at == input.nowMs && input.session.safeMode && a.action.StartBroker?)
  }

  predicate MidLog(cfg: Config, a: Assessment, input: TickInput, log: seq<Step>) {
    forall i :: 0 <= i < |log| ==> MidStep(cfg, a, input, log, i)
  }

  lemma MidLogAppend(cfg: Config, a: Assessment, input: TickInput, log: seq<Step>, step: Step)
    requires MidLog(cfg, a, input, log)
    requires step.Persist? ==>
      Queued(step.written) && input.session.safeMode && MidWrite(cfg, a, input.nowMs, step.written)
    requires step.StartBroker? ==>
      |log| == 2 && log[1].Persist? && step.at == input.nowMs && input.session.safeMode && a.action.StartBroker?
    ensures MidLog(cfg, a, input, log + [step])
  {
    hide MidWrite, Queued;
    var longer := log + [step];
    forall i | 0 <= i < |longer| ensures MidStep(cfg, a, input, longer, i) {
      if i < |log| { assert MidStep(cfg, a, input, log, i) && longer[i] == log[i] && (i == 2 ==> longer[1] == log[1]); }
    }
  }

  lemma ActShape(cfg: Config, m: Memory, a: Assessment, input: TickInput)
    requires m.state == a.state
    ensures var acted := Act(cfg, m, a, input);
            && acted.memory.state.notification == m.state.notification
            && acted.memory.state.backlog == m.state.backlog
            && Concludes(a, acted.classification)
  {
    hide Tail, Stored;
  }

  /** `MidWrite` before the incidents are cut to the limit. */
  predicate MidState(a: Assessment, nowMs: int, s: EngineState) {
    && s.broker == a.state.broker && s.deadSinceAt == a.state.deadSinceAt && s.boundary == a.state.boundary
    && s.incidents == a.state.incidents && s.lastIncident == a.state.lastIncident
    && s.lastTick == a.state.lastTick && s.monitor == a.state.monitor && s.phase == a.state.phase
    && s.semantic == a.state.semantic
    && s.session == a.state.session && s.unavailability == a.state.unavailability
    && s.updatedAt == a.state.updatedAt && s.workflow == a.state.workflow
    && s.brokerStarts == (if a.action.StartBroker? then a.brokerStarts + [nowMs] else a.state.brokerStarts)
  }

  lemma StoredMid(cfg: Config, a: Assessment, nowMs: int, s: EngineState)
    ensures MidState(a, nowMs, s) ==> MidWrite(cfg, a, nowMs, Stored(cfg, s))
  {
    hide Tail;
  }

  lemma BookkeepingKeepsMid(a: Assessment, nowMs: int, m: Memory, outcome: ActionOutcome)
    ensures MidState(a, nowMs, m.state) ==> MidState(a, nowMs, SetAction(m, a.action, nowMs, outcome).state)
    ensures MidState(a, nowMs, m.state) ==> MidState(a, nowMs, Reconciled(m, a).state)
    ensures m.state == a.state ==> MidState(a, nowMs, Recorded(m, a, nowMs).state)
    ensures m.state == a.state && !a.action.StartBroker? ==> MidState(a, nowMs, m.state)
  {
  }

  lemma ActWrites(cfg: Config, m: Memory, a: Assessment, input: TickInput)
    requires m.state == a.state
    ensures MidWrite(cfg, a, input.nowMs, Stored(cfg, Act(cfg, m, a, input).memory.state))
  {
    hide Stored, MidWrite, MidState, SetAction, Reconciled, Recorded;
    var now := input.nowMs;
    forall n: Memory, outcome
      ensures MidState(a, now, n.state) ==> MidState(a, now, SetAction(n, a.action, now, outcome).state)
    {
      BookkeepingKeepsMid(a, now, n, outcome);
    }
    BookkeepingKeepsMid(a, now, m, Succeeded);
    BookkeepingKeepsMid(a, now, Emit(Write(cfg, Recorded(m, a, now)), ReconcileWorkflow), Succeeded);
    StoredMid(cfg, a, now, Act(cfg, m, a, input).memory.state);
  }

  lemma RecordedWrite(cfg: Config, m: Memory, a: Assessment, nowMs: int)
    requires m.state == a.state
    ensures var written := Stored(cfg, Recorded(m, a, nowMs).state);
            MidWrite(cfg, a, nowMs, written) && Queued(written) == Queued(a.state)
  {
    hide GoodQueue, Tail;
  }

  /** The effects of the action phase. */
  lemma ActEffects(cfg: Config, m: Memory, a: Assessment, input: TickInput)
    requires m.state == a.state
    ensures var record := m.log + [Persist(Stored(cfg, Recorded(m, a, input.nowMs).state))];
            Act(cfg, m, a, input).memory.log ==
            if a.action.StartBroker? && input.dispatchRecorded then record + [StartBroker(input.nowMs)]
            else if a.action.ReconcileExactWorkflow? && input.dispatchRecorded then record + [ReconcileWorkflow]
            else if a.action.AttachExactWorkflow? then m.log + [AttachWorkflow]
            else m.log
  {
    hide Tail, Stored;
  }

  lemma ActLog(cfg: Config, m: Memory, a: Assessment, input: TickInput)
    requires m.state == a.state && |m.log| == 1 && m.log[0].SetAwake? && input.session.safeMode && Queued(m.state)
    ensures var log := Act(cfg, m, a, input).memory.log; MidLog(cfg, a, input, log) && m.log <= log
  {
    hide Act, MidWrite, Queued, Stored, Recorded;
    ActEffects(cfg, m, a, input);
    var written := Persist(Stored(cfg, Recorded(m, a, input.nowMs).state));
    RecordedWrite(cfg, m, a, input.nowMs);
    MidLogAppend(cfg, a, input, m.log, AttachWorkflow);
    MidLogAppend(cfg, a, input, m.log, written);
    MidLogAppend(cfg, a, input, m.log + [written], ReconcileWorkflow);
    if a.action.StartBroker? { MidLogAppend(cfg, a, input, m.log + [written], StartBroker(input.nowMs)); }
  }

  /** Notification phases only append submissions and further writes of the same state. */
  lemma NotifiedShape(cfg: Config, a: Assessment, input: TickInput, m: Memory, after: Memory)
    requires Notified(cfg, m, after) && MidLog(cfg, a, input, m.log) && input.session.safeMode
    requires MidWrite(cfg, a, input.nowMs, Stored(cfg, m.state))
    ensures MidLog(cfg, a, input, after.log) && MidWrite(cfg, a, input.nowMs, Stored(cfg, after.state))
    ensures Queued(after.state) && m.log <= after.log
  {
    hide GoodQueue;
    forall i | 0 <= i < |after.log| ensures MidStep(cfg, a, input, after.log, i) {
      if i < |m.log| {
        assert after.log[i] == m.log[i] && MidStep(cfg, a, input, m.log, i);
      } else {
        assert NotifyStep(cfg, m.state, after.log[i]);
      }
    }
  }

  /** Every classification the monitor notifies about is one whose state allows it. */
  lemma ReportsAreAllowed(a: Assessment, c: P.Classification)
    requires a.classification == UnresolvedTerminal() || a.classification == P.Classify(a.observation)
    requires Concludes(a, c) && c.humanRequired
    ensures Reportable(c)
  {
    if c == a.classification && c != UnresolvedTerminal() {
      P.ChoicesAreAllowed(a.observation);
      NeverOverflow(a.observation);
    }
  }

  /** No action check of a tick throws, whether it classified its observation or found its terminal
      already reconciled: the chosen action, the report of a human boundary and the power action are
      in the allowlist of the state it acts in. */
  lemma ActionChecksPass(cfg: Config, disk: Option<EngineState>, input: TickInput)
    ensures var a := Assess(cfg, disk, input);
      var c := a.classification;
      && a.action in P.Allowed(c.state) && (c.humanRequired ==> P.NotifyUser in P.Allowed(c.state))
      && P.ReleaseIdleSleepAssertion in P.Allowed(c.state)
      && (P.ActiveWorkflow(c.state) ==> P.HoldIdleSleepAssertion in P.Allowed(c.state))
  {
    hide P.Classify, RecentStarts, DeadSince, UnavailableSince, TerminalOf, Loaded, ObservationOf;
    P.ChoicesAreAllowed(Assess(cfg, disk, input).observation);
  }

  lemma NeverOverflow(o: P.Observation)
    ensures !P.Classify(o).reason.NotificationBacklogOverflow?
  {
  }

  lemma SafePhasesShape(cfg: Config, m: Memory, a: Assessment, semantic: S.State, input: TickInput)
    requires m.state == a.state && |m.log| == 1 && m.log[0].SetAwake? && input.session.safeMode && Queued(m.state)
    requires a.classification == UnresolvedTerminal() || a.classification == P.Classify(a.observation)
    requires input.nowMs >= 0
    ensures var acted := SafePhases(cfg, m, a, semantic, input);
            && MidLog(cfg, a, input, acted.memory.log)
            && MidWrite(cfg, a, input.nowMs, Stored(cfg, acted.memory.state))
            && Queued(acted.memory.state)
            && Concludes(a, acted.classification)
            && m.log <= acted.memory.log
  {
    hide Act, Report, ReportSemantic, ReportQueued, MidLog, MidWrite, GoodQueue, Concludes, Notified, Stored,
      Reportable;
    ActShape(cfg, m, a, input);
    ActWrites(cfg, m, a, input);
    ActLog(cfg, m, a, input);
    var acted := Act(cfg, m, a, input);
    if acted.classification.humanRequired { ReportsAreAllowed(a, acted.classification); }
    ReportKeeps(cfg, acted, a, input);
    var reported := Report(cfg, acted, a, input);
    NotifiedShape(cfg, a, input, acted.memory, reported);
    ReportSemanticKeeps(cfg, reported, acted.classification, a, semantic, input);
    var stalled := ReportSemantic(cfg, reported, acted.classification, a, semantic, input);
    NotifiedShape(cfg, a, input, reported, stalled);
    ReportQueuedKeeps(cfg, stalled, input);
    NotifiedShape(cfg, a, input, stalled, ReportQueued(cfg, stalled, input));
  }

  predicate QueuedDisk(disk: Option<EngineState>) {
    disk.Some? ==> Queued(disk.value)
  }

  lemma LoadedQueue(cfg: Config, disk: Option<EngineState>, input: TickInput)
    requires QueuedDisk(disk)
    ensures Queued(Assess(cfg, disk, input).state)
  {
    hide ValidReceipt, HasKey, HasOverflow, P.Classify, P.Choose, ObservationOf, RecentStarts, DeadSince,
      UnavailableSince, TerminalOf;
  }

  function Semantic(cfg: Config, disk: Option<EngineState>, input: TickInput): Result<S.State, C.Rejection> {
    var a := Assess(cfg, disk, input);
    C.Classify(cfg.hashes, a.state.semantic, SemanticObservation(input, a))
  }

  function Phases(cfg: Config, a: Assessment, semantic: S.State, input: TickInput): Acted {
    var hold := input.session.keepAwakeOnAc && input.onAc && P.ActiveWorkflow(a.classification.state);
    var m := Emit(Memory(a.state, []), SetAwake(hold));
    if input.session.safeMode then SafePhases(cfg, m, a, semantic, input)
    else Acted(SetAction(m, a.action, input.nowMs, ShadowOnly), a.classification, false)
  }

  function Concluded(cfg: Config, a: Assessment, semantic: S.State, input: TickInput): EngineState {
    var acted := Phases(cfg, a, semantic, input);
    Stored(cfg, Finish(acted.memory.state, acted.classification, a, semantic, input))
  }

  lemma TickUnfolds(cfg: Config, disk: Option<EngineState>, input: TickInput)
    requires Tick(cfg, disk, input).Some?
    ensures Semantic(cfg, disk, input).Ok?
    ensures var a, semantic := Assess(cfg, disk, input), Semantic(cfg, disk, input).value;
            Steps(cfg, disk, input) ==
            Phases(cfg, a, semantic, input).memory.log + [Persist(Concluded(cfg, a, semantic, input))]
  {
    hide Assess, C.Classify, SafePhases, SemanticObservation, Finish, Stored;
  }

  lemma PhasesShape(cfg: Config, a: Assessment, semantic: S.State, input: TickInput)
    requires Queued(a.state) && input.nowMs >= 0
    requires a.classification == UnresolvedTerminal() || a.classification == P.Classify(a.observation)
    ensures var acted := Phases(cfg, a, semantic, input);
            && MidLog(cfg, a, input, acted.memory.log) && |acted.memory.log| > 0
            && Queued(acted.memory.state) && Concludes(a, acted.classification)
            && acted.memory.state.session == a.state.session
            && acted.memory.state.unavailability == a.state.unavailability
            && acted.memory.state.lastIncident == a.state.lastIncident
  {
    hide SafePhases, GoodQueue, MidWrite;
    var hold := input.session.keepAwakeOnAc && input.onAc && P.ActiveWorkflow(a.classification.state);
    var m := Emit(Memory(a.state, []), SetAwake(hold));
    if input.session.safeMode {
      SafePhasesShape(cfg, m, a, semantic, input);
      SessionKept(cfg, a, input, SafePhases(cfg, m, a, semantic, input).memory.state);
    }
  }

  /** The shape of every tick: writes of the starting state while it acts, at most one broker
      start, right after the write that records it, and one last write that concludes. */
  lemma TickShape(cfg: Config, disk: Option<EngineState>, input: TickInput)
    requires Tick(cfg, disk, input).Some? && QueuedDisk(disk) && input.nowMs >= 0
    ensures Semantic(cfg, disk, input).Ok?
    ensures var a, log := Assess(cfg, disk, input), Steps(cfg, disk, input);
            && |log| > 1 && log[|log| - 1].Persist?
            && MidLog(cfg, a, input, log[..|log| - 1])
            && Queued(log[|log| - 1].written)
            && FinalWrite(cfg, a, Semantic(cfg, disk, input).value, input, log[|log| - 1].written)
  {
    hide Assess, Semantic, Phases, GoodQueue, MidLog, Finish, FinalWrite, Stored, Tick, Steps;
    var a := Assess(cfg, disk, input);
    LoadedQueue(cfg, disk, input);
    AssessClassifies(cfg, disk, input);
    TickUnfolds(cfg, disk, input);
    var semantic := Semantic(cfg, disk, input).value;
    PhasesShape(cfg, a, semantic, input);
    var acted := Phases(cfg, a, semantic, input);
    var log := Steps(cfg, disk, input);
    assert log[..|log| - 1] == acted.memory.log;
    FinishWrites(cfg, a, semantic, input, acted.memory.state, acted.classification);
  }

  lemma SessionKept(cfg: Config, a: Assessment, input: TickInput, s: EngineState)
    requires MidWrite(cfg, a, input.nowMs, Stored(cfg, s))
    ensures s.session == a.state.session && s.unavailability == a.state.unavailability
    ensures s.lastIncident == a.state.lastIncident
  {
  }

  lemma FinishWrites(cfg: Config, a: Assessment, semantic: S.State, input: TickInput, s: EngineState,
                     c: P.Classification)
    requires Concludes(a, c) && s.session == a.state.session && s.unavailability == a.state.unavailability
    requires s.lastIncident == a.state.lastIncident
    ensures var w := Stored(cfg, Finish(s, c, a, semantic, input));
            FinalWrite(cfg, a, semantic, input, w) && w.notification == s.notification && w.backlog == s.backlog
  {
    hide NewIncidents;
  }

  lemma UnresolvedNeverStarts(o: P.Observation)
    ensures !P.Choose(UnresolvedTerminal(), o).StartBroker?
  {
  }

  lemma AssessClassifies(cfg: Config, disk: Option<EngineState>, input: TickInput)
    ensures var a := Assess(cfg, disk, input);
            a.classification == UnresolvedTerminal() || a.classification == P.Classify(a.observation)
  {
    hide P.Classify, P.Choose, ObservationOf, RecentStarts, DeadSince, UnavailableSince, TerminalOf, Loaded;
  }
}
