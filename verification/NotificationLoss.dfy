/** Two reports in one tick, the second of which can displace the first for good, and a run from an
    empty directory that loses a report (src/eagle-monitor-engine.mjs). */
module NotificationLoss {
  import opened Prelude
  import P = MonitorPolicy
  import opened NotificationQueue
  import S = SemanticState
  import C = SemanticClassifier
  import opened MonitorEngine
  import opened MonitorTick
  import opened MonitorRuns
  import opened NotificationFairness
  import opened NotificationConservation
  import StoreAcceptance

  // ---- two reports in one tick ----------------------------------------

  /** Some write has the report in the slot, announced and unaccepted. */
  predicate WrittenInSlot(log: seq<Step>, key: Key) {
    exists i :: 0 <= i < |log| && log[i].Persist? && Announced(log[i].written, key)
  }

  predicate Announced(s: EngineState, key: Key) {
    s.notification.Some? && s.notification.value.key == key && s.notification.value.outcome.Dispatching?
  }

  /** A report no receipt is kept of. */
  predicate Unseen(s: EngineState, key: Key) {
    !HasKey(s.backlog, key) && (s.notification.Some? ==> s.notification.value.key != key)
  }

  /** The new report is in the slot, written and refused, and what it displaced is retained. */
  predicate TookSlot(m: Memory, after: Memory, key: Key) {
    && Queued(after.state) && m.log <= after.log && WrittenInSlot(after.log, key)
    && (NobodyTold(m.log) ==> NobodyTold(after.log))
    && after.state.backlog == Retain(m.state.backlog, m.state.notification)
    && after.state.notification.Some? && after.state.notification.value.key == key
    && !after.state.notification.value.outcome.Accepted?
  }

  lemma RefusedNewSubmission(cfg: Config, m: Memory, nowMs: int, wallMs: int)
    requires m.state.notification.Some?
    requires m.state.notification.value.outcome.Pending? && m.state.notification.value.retryAt.None?
    ensures var key, after := m.state.notification.value.key, SubmitCurrent(cfg, m, nowMs, wallMs, false);
      && m.log <= after.log && WrittenInSlot(after.log, key) && (NobodyTold(m.log) ==> NobodyTold(after.log))
      && after.state.backlog == m.state.backlog
      && after.state.notification.Some? && after.state.notification.value.key == key
      && after.state.notification.value.outcome.Failed?
  {
    var key, after := m.state.notification.value.key, SubmitCurrent(cfg, m, nowMs, wallMs, false);
    assert after.log[|m.log|].Persist? && Announced(after.log[|m.log|].written, key);
  }

  lemma AbsentAfterRetaining(notification: Option<Receipt>, backlog: seq<Receipt>, key: Key)
    requires key.ReportKey? && !HasKey(backlog, key) && (notification.Some? ==> notification.value.key != key)
    ensures !HasKey(Retain(backlog, notification), key)
  {
  }

  lemma NewReportTakesSlot(cfg: Config, m: Memory, c: P.Classification, id: Identity, nowMs: int, wallMs: int)
    requires Queued(m.state) && nowMs >= 0 && Reportable(c) && Unseen(m.state, ReportKey(id, c.reason, c.state))
    ensures TookSlot(m, Notify(cfg, m, c, id, nowMs, wallMs, false), ReportKey(id, c.reason, c.state))
  {
    hide GoodQueue, Reportable, Stored, HasKey, Retain, SubmitCurrent, WrittenInSlot, NobodyTold;
    var key := ReportKey(id, c.reason, c.state);
    var retained := Retain(m.state.backlog, m.state.notification);
    AbsentAfterRetaining(m.state.notification, m.state.backlog, key);
    WithoutAbsentKey(retained, key);
    LookupFinds(retained, key);
    NotifyKeeps(cfg, m, c, id, nowMs, wallMs, false);
    RefusedNewSubmission(cfg, Memory(Promoted(m.state, key, c), m.log), nowMs, wallMs);
  }

  /** Whether the next displaced report is lost, before and after one has been retained. */
  lemma RetainedRoom(notification: Option<Receipt>, backlog: seq<Receipt>)
    requires GoodQueue(notification, backlog) && notification.Some? && !notification.value.outcome.Accepted?
    ensures var after := Retain(backlog, notification);
      (|after| < P.NOTIFICATION_BACKLOG_LIMIT || !HasKey(after, OverflowKey) || LiveSummary(after)) <==>
      (|backlog| + 1 < P.NOTIFICATION_BACKLOG_LIMIT || !HasKey(backlog, OverflowKey) || LiveSummary(backlog))
  {
    hide ValidReceipt;
    var after, r := Retain(backlog, notification), notification.value;
    assert HasOverflow(backlog) <==> HasKey(backlog, OverflowKey);
    if |backlog| < P.NOTIFICATION_BACKLOG_LIMIT {
      assert after == backlog + [r] && after[|backlog|] == r;
      assert forall i :: 0 <= i < |backlog| ==> after[i] == backlog[i];
    }
  }

  /** Two new reports in a row over an unaccepted one. */
  lemma SecondReportLosesFirstExactly(m: Memory, raised: Memory, after: Memory, key: Key, other: Key)
    requires Queued(m.state) && m.state.notification.Some? && !m.state.notification.value.outcome.Accepted?
    requires TookSlot(m, raised, key) && TookSlot(raised, after, other) && key != other
    ensures Known(after.state, key) <==>
            || |m.state.backlog| + 1 < P.NOTIFICATION_BACKLOG_LIMIT
            || !HasKey(m.state.backlog, OverflowKey) || LiveSummary(m.state.backlog)
  {
    hide GoodQueue, HasKey, Holds, LiveSummary, Retain, WrittenInSlot, NobodyTold;
    RetainLosesExactly(raised.state.notification, raised.state.backlog);
    RetainedRoom(m.state.notification, m.state.backlog);
  }

  /** The action phase of a safe-mode tick, and what it leaves to report. */
  function Acting(cfg: Config, a: Assessment, input: TickInput): Acted {
    var hold := input.session.keepAwakeOnAc && input.onAc && P.ActiveWorkflow(a.classification.state);
    Act(cfg, Emit(Memory(a.state, []), SetAwake(hold)), a, input)
  }

  function CurrentReport(cfg: Config, a: Assessment, input: TickInput): Key {
    var acted := Acting(cfg, a, input);
    ReportKey(ReportIdentity(acted.memory.state, a, input, None), acted.classification.reason,
              acted.classification.state)
  }

  function StallReport(cfg: Config, a: Assessment, semantic: S.State, input: TickInput): Key {
    var acted := Acting(cfg, a, input);
    var c := SemanticReport(acted.classification, semantic);
    ReportKey(ReportIdentity(acted.memory.state, a, input, semantic.incidentKey), c.reason, c.state)
  }

  /** A safe-mode tick with a report of the current incident and one of a stall, both new; nothing
      it submits is heard. */
  predicate RaisesTwo(cfg: Config, s: EngineState, input: TickInput) {
    && Tick(cfg, Some(s), input).Some? && input.session.safeMode
    && !input.reportAccepted && !input.semanticAccepted && !input.queuedAccepted
    && var a, semantic := Assess(cfg, Some(s), input), Semantic(cfg, Some(s), input).value;
       var acted := Acting(cfg, a, input);
       && acted.report && acted.classification.humanRequired && ReportsSemantic(acted.classification, a, semantic)
       && Unseen(s, CurrentReport(cfg, a, input)) && Unseen(s, StallReport(cfg, a, semantic, input))
  }

  lemma CurrentReportTakesSlot(cfg: Config, acted: Acted, a: Assessment, input: TickInput)
    requires Queued(acted.memory.state) && input.nowMs >= 0 && acted.report && acted.classification.humanRequired
    requires Reportable(acted.classification) && !input.reportAccepted
    requires var m, c := acted.memory, acted.classification;
      Unseen(m.state, ReportKey(ReportIdentity(m.state, a, input, None), c.reason, c.state))
    ensures var m, c, reported := acted.memory, acted.classification, Report(cfg, acted, a, input);
      && TookSlot(m, reported, ReportKey(ReportIdentity(m.state, a, input, None), c.reason, c.state))
      && reported.state.unavailability == m.state.unavailability
  {
    hide Notify, ReportOutcome, ReportIdentity, GoodQueue, Reportable, HasKey, Retain, WrittenInSlot, NobodyTold;
    var m, c := acted.memory, acted.classification;
    var id := ReportIdentity(m.state, a, input, None);
    NewReportTakesSlot(cfg, m, c, id, input.nowMs, input.reportWallMs);
    NotifyKeeps(cfg, m, c, id, input.nowMs, input.reportWallMs, false);
  }

  lemma StallReportTakesSlot(cfg: Config, m: Memory, c: P.Classification, a: Assessment, semantic: S.State,
                             input: TickInput)
    requires Queued(m.state) && input.nowMs >= 0 && !input.semanticAccepted
    requires ReportsSemantic(c, a, semantic)
    requires var d := SemanticReport(c, semantic);
      Unseen(m.state, ReportKey(ReportIdentity(m.state, a, input, semantic.incidentKey), d.reason, d.state))
    ensures var d, stalled := SemanticReport(c, semantic), ReportSemantic(cfg, m, c, a, semantic, input);
      TookSlot(m, stalled, ReportKey(ReportIdentity(m.state, a, input, semantic.incidentKey), d.reason, d.state))
  {
    hide Notify, ReportIdentity, GoodQueue, HasKey, Retain, WrittenInSlot, NobodyTold, SemanticKeys;
    var id := ReportIdentity(m.state, a, input, semantic.incidentKey);
    NewReportTakesSlot(cfg, m, SemanticReport(c, semantic), id, input.nowMs, input.semanticWallMs);
  }

  /** Refused reports of the queue keep what is known of a report. */
  lemma QueueKeepsKnown(cfg: Config, m: Memory, input: TickInput, key: Key)
    requires NobodyTold(m.log) && !input.queuedAccepted
    ensures var after := ReportQueued(cfg, m, input);
            NobodyTold(after.log) && (Known(after.state, key) <==> Known(m.state, key))
  {
    hide ReportQueued, NobodyTold, Holds;
    RefusedQueued(cfg, m, input, key);
    RefusedQueued(cfg, m, input, OverflowKey);
  }

  lemma SemanticIsNoCurrentReport(a: Assessment, c: P.Classification)
    requires a.classification == UnresolvedTerminal() || a.classification == P.Classify(a.observation)
    requires Concludes(a, c)
    ensures !c.reason.SemanticLooping? && !c.reason.SemanticStagnant?
  {
  }

  /** A tick that raises two new reports, both refused, over an unaccepted one loses the first of
      them, which it has itself written to disk, without a trace, exactly if the backlog had at most
      one place left and the overflow summary in it has already been accepted. */
  lemma {:induction false} TickLosesFirstExactly(cfg: Config, s: EngineState, input: TickInput)
    requires Queued(s) && ContinuesSession(s, input) && input.nowMs >= 0 && RaisesTwo(cfg, s, input)
    requires s.notification.Some? && !s.notification.value.outcome.Accepted?
    ensures var log, key := Steps(cfg, Some(s), input), CurrentReport(cfg, Assess(cfg, Some(s), input), input);
      var after := DiskAfter(Some(s), log);
      && WrittenInSlot(log, key) && NobodyTold(log) && after.Some?
      && (Known(after.value, key) <==>
          || |s.backlog| + 1 < P.NOTIFICATION_BACKLOG_LIMIT
          || !HasKey(s.backlog, OverflowKey) || LiveSummary(s.backlog))
  {
    hide Assess, Semantic, GoodQueue, Finish, Tick, Steps, Holds, LiveSummary, ContinuesSession, Stored, Act, Report,
      ReportSemantic, ReportQueued, ReportIdentity, HasKey, NobodyTold, WrittenInSlot, Retain, Reportable, Concludes;
    var disk := Some(s);
    var a := Assess(cfg, disk, input);
    SessionQueue(cfg, s, input);
    LoadedQueue(cfg, disk, input);
    AssessClassifies(cfg, disk, input);
    TickUnfolds(cfg, disk, input);
    var semantic := Semantic(cfg, disk, input).value;
    var key, other := CurrentReport(cfg, a, input), StallReport(cfg, a, semantic, input);
    var acted := Acting(cfg, a, input);
    ActingKeepsQueue(cfg, a, input);
    ReportsAreAllowed(a, acted.classification);
    SemanticIsNoCurrentReport(a, acted.classification);
    CurrentReportTakesSlot(cfg, acted, a, input);
    var reported := Report(cfg, acted, a, input);
    SameIdentity(acted.memory.state, reported.state, a, input, semantic.incidentKey);
    AbsentAfterRetaining(s.notification, s.backlog, other);
    StallReportTakesSlot(cfg, reported, acted.classification, a, semantic, input);
    var stalled := ReportSemantic(cfg, reported, acted.classification, a, semantic, input);
    SecondReportLosesFirstExactly(acted.memory, reported, stalled, key, other);
    QueueKeepsKnown(cfg, stalled, input, key);
    var queued := ReportQueued(cfg, stalled, input);
    var after := Phases(cfg, a, semantic, input);
    FinishQueue(cfg, a, semantic, input, after);
    var last := Persist(Concluded(cfg, a, semantic, input));
    assert Steps(cfg, disk, input) == queued.log + [last];
    QueueOnlyAppends(cfg, stalled, input);
    WrittenStays(reported.log, queued.log + [last], key);
    NobodyToldStays(queued.log, last);
  }

  lemma ActingKeepsQueue(cfg: Config, a: Assessment, input: TickInput)
    ensures var acted := Acting(cfg, a, input);
      && acted.memory.state.notification == a.state.notification && acted.memory.state.backlog == a.state.backlog
      && Concludes(a, acted.classification) && NobodyTold(acted.memory.log)
  {
    hide Act, Stored, Recorded, Concludes;
    var hold := input.session.keepAwakeOnAc && input.onAc && P.ActiveWorkflow(a.classification.state);
    var m := Emit(Memory(a.state, []), SetAwake(hold));
    ActShape(cfg, m, a, input);
    ActEffects(cfg, m, a, input);
  }

  lemma SameIdentity(s: EngineState, t: EngineState, a: Assessment, input: TickInput, semantic: Option<nat>)
    requires s.unavailability == t.unavailability
    ensures ReportIdentity(s, a, input, semantic) == ReportIdentity(t, a, input, semantic)
  {
  }

  lemma QueueOnlyAppends(cfg: Config, m: Memory, input: TickInput)
    ensures m.log <= ReportQueued(cfg, m, input).log
  {
    hide FirstDue, Rotated, Submits, Reopened, Dispatched, Resolved, WithoutAccepted, Stored;
  }

  lemma WrittenStays(log: seq<Step>, longer: seq<Step>, key: Key)
    requires log <= longer && WrittenInSlot(log, key)
    ensures WrittenInSlot(longer, key)
  {
    var i :| 0 <= i < |log| && log[i].Persist? && Announced(log[i].written, key);
    assert longer[i] == log[i];
  }

  lemma NobodyToldStays(log: seq<Step>, last: Step)
    requires NobodyTold(log) && last.Persist?
    ensures NobodyTold(log + [last])
  {
  }

  // ---- a run from the empty directory ---------------------------------

  /** The storage report of one broker epoch, once it has been refused. */
  function RefusedReport(session: SessionId, epoch: nat, startMs: nat): Receipt {
    Receipt(FailureKey(session, epoch), P.MonitorStorageUnavailable, P.DiskFull, Failed,
            Some(startMs + epoch), Some(startMs + epoch + P.NOTIFICATION_RETRY_MS), None, None, 0)
  }

  function RefusedReports(session: SessionId, n: nat, startMs: nat): (r: seq<Receipt>)
    ensures |r| == n && forall k :: 0 <= k < n ==> r[k] == RefusedReport(session, k, startMs)
  {
    if n == 0 then [] else RefusedReports(session, n - 1, startMs) + [RefusedReport(session, n - 1, startMs)]
  }

  /** A refused storage report for each of `n` broker epochs, one a millisecond, the last of them in
      the slot. */
  predicate Filled(notification: Option<Receipt>, backlog: seq<Receipt>, session: SessionId, n: nat, startMs: nat) {
    if n == 0 then notification.None? && backlog == []
    else
      && notification == Some(RefusedReport(session, n - 1, startMs))
      && backlog == RefusedReports(session, n - 1, startMs)
  }

  lemma NoneDue(session: SessionId, n: nat, startMs: nat, nowMs: int)
    requires nowMs < startMs + P.NOTIFICATION_RETRY_MS
    ensures FirstDue(RefusedReports(session, n, startMs), nowMs) == n
    ensures WithoutAccepted(RefusedReports(session, n, startMs)) == RefusedReports(session, n, startMs)
  {
    var all := RefusedReports(session, n, startMs);
    hide RefusedReports;
    WithoutAcceptedAll(all);
  }

  lemma {:induction false} WithoutAcceptedAll(backlog: seq<Receipt>)
    requires forall k :: 0 <= k < |backlog| ==> !backlog[k].outcome.Accepted?
    ensures WithoutAccepted(backlog) == backlog
  {
    if backlog != [] { WithoutAcceptedAll(backlog[1..]); }
  }

  lemma FillRetains(notification: Option<Receipt>, backlog: seq<Receipt>, session: SessionId, n: nat, startMs: nat)
    requires Filled(notification, backlog, session, n, startMs) && n <= P.NOTIFICATION_BACKLOG_LIMIT
    ensures Retain(backlog, notification) == RefusedReports(session, n, startMs)
    ensures !HasKey(RefusedReports(session, n, startMs), FailureKey(session, n))
    ensures notification.Some? ==> notification.value.key != FailureKey(session, n)
  {
  }

  lemma FillPromotes(s: EngineState, session: SessionId, n: nat, startMs: nat)
    requires Filled(s.notification, s.backlog, session, n, startMs) && n <= P.NOTIFICATION_BACKLOG_LIMIT
    ensures var t := Promoted(s, FailureKey(session, n), FailureClassification());
      && t.backlog == RefusedReports(session, n, startMs)
      && t.notification == Some(NewReport(FailureKey(session, n), P.MonitorStorageUnavailable, P.DiskFull))
  {
    hide Filled, Retain, HasKey, RefusedReports, FailureKey;
    var retained := Retain(s.backlog, s.notification);
    FillRetains(s.notification, s.backlog, session, n, startMs);
    WithoutAbsentKey(retained, FailureKey(session, n));
    LookupFinds(retained, FailureKey(session, n));
  }

  lemma RefusedOutcome(cfg: Config, m: Memory, session: SessionId, n: nat, startMs: nat)
    requires m.state.notification == Some(NewReport(FailureKey(session, n), P.MonitorStorageUnavailable, P.DiskFull))
    ensures var after := SubmitCurrent(cfg, m, startMs + n, startMs + n, false);
      && after.state.notification == Some(RefusedReport(session, n, startMs)) && after.state.backlog == m.state.backlog
      && after.log[..|m.log| + 1] == m.log + [Persist(Stored(cfg, SetCurrent(m, Dispatched(m.state.notification.value,
                                                                                startMs + n, startMs + n)).state))]
  {
  }

  /** The tick of a broker epoch that no report names yet. */
  predicate Fills(a: Assessment, input: TickInput, session: SessionId, n: nat, startMs: nat) {
    && input == StorageFailure(session, n, startMs + n, false)
    && Filled(a.state.notification, a.state.backlog, session, n, startMs)
    && a.classification == FailureClassification() && a.action.NotifyUser?
    && ReportIdentity(a.state, a, input, None) == FailureIdentity(session, n)
  }

  lemma FillPhases(cfg: Config, a: Assessment, semantic: S.State, input: TickInput, session: SessionId, n: nat,
                   startMs: nat)
    requires Fills(a, input, session, n, startMs) && n <= P.NOTIFICATION_BACKLOG_LIMIT
    ensures var s := Phases(cfg, a, semantic, input).memory.state;
            Filled(s.notification, s.backlog, session, n + 1, startMs)
  {
    hide SubmitCurrent, Promoted, RefusedReports, FirstDue, WithoutAccepted, ReportIdentity, FailureIdentity,
      ReportOutcome, P.ActiveWorkflow;
    var hold := input.session.keepAwakeOnAc && input.onAc && P.ActiveWorkflow(a.classification.state);
    var m := Emit(Memory(a.state, []), SetAwake(hold));
    FillPromotes(a.state, session, n, startMs);
    var promoted := Memory(Promoted(a.state, FailureKey(session, n), FailureClassification()), m.log);
    RefusedOutcome(cfg, promoted, session, n, startMs);
    NoneDue(session, n, startMs, startMs + n);
  }

  /** The state file after `n` such ticks from the empty directory. */
  predicate FilledDisk(cfg: Config, disk: Option<EngineState>, session: SessionId, n: nat, startMs: nat) {
    if n == 0 then disk.None?
    else
      && disk.Some? && Current(cfg, disk.value) && disk.value.session == Some(session)
      && disk.value.updatedAt == startMs + n - 1
      && Filled(disk.value.notification, disk.value.backlog, session, n, startMs)
  }

  lemma FirstFailure(cfg: Config, session: SessionId, startMs: nat)
    requires session.configuredAt <= startMs
    ensures var input := StorageFailure(session, 0, startMs, false);
            Fills(Assess(cfg, None, input), input, session, 0, startMs) && Tick(cfg, None, input).Some?
  {
    hide SafePhases, Finish, Stored, C.NextState;
  }

  lemma FillAssessed(cfg: Config, disk: Option<EngineState>, session: SessionId, n: nat, startMs: nat)
    requires FilledDisk(cfg, disk, session, n, startMs) && session.configuredAt <= startMs
    ensures var input := StorageFailure(session, n, startMs + n, false);
            Fills(Assess(cfg, disk, input), input, session, n, startMs) && Tick(cfg, disk, input).Some?
  {
    hide Tick, Assess, Filled, RefusedReports, FailureIdentity, ReportIdentity, StoreAcceptance.Accepts;
    if n == 0 {
      FirstFailure(cfg, session, startMs);
    } else {
      var s, input := disk.value, StorageFailure(session, n, startMs + n, false);
      assert ContinuesSession(s, input) && FailureInput(s, input, n, startMs + n);
      FailureAssessed(cfg, s, input, n, startMs + n);
      FailureTicks(cfg, s, input, n, startMs + n);
      SessionQueue(cfg, s, input);
    }
  }

  lemma FillStep(cfg: Config, disk: Option<EngineState>, session: SessionId, n: nat, startMs: nat)
    requires FilledDisk(cfg, disk, session, n, startMs) && session.configuredAt <= startMs
    requires n <= P.NOTIFICATION_BACKLOG_LIMIT
    ensures var input := StorageFailure(session, n, startMs + n, false);
            FilledDisk(cfg, After(cfg, disk, Event(input, |Steps(cfg, disk, input)|)), session, n + 1, startMs)
  {
    hide Tick, Steps, Assess, Semantic, Filled, Phases, Finish, Stored, ReportIdentity, StoreAcceptance.Accepts,
      GoodQueue, MidLog, P.Classify;
    var input := StorageFailure(session, n, startMs + n, false);
    var a := Assess(cfg, disk, input);
    FillAssessed(cfg, disk, session, n, startMs);
    StoreAcceptance.AcceptedQueue(cfg, disk);
    StoreAcceptance.TickWritesAccepted(cfg, disk, input);
    TickShape(cfg, disk, input);
    TickUnfolds(cfg, disk, input);
    var semantic := Semantic(cfg, disk, input).value;
    FillPhases(cfg, a, semantic, input, session, n, startMs);
    FinishQueue(cfg, a, semantic, input, Phases(cfg, a, semantic, input));
    AssessKeepsSession(cfg, disk, input);
  }

  lemma AssessKeepsSession(cfg: Config, disk: Option<EngineState>, input: TickInput)
    ensures Assess(cfg, disk, input).state.session == Some(SessionOf(input.session))
  {
    hide P.Classify, P.Choose, ObservationOf, RecentStarts, DeadSince, UnavailableSince, TerminalOf;
  }

  /** Ticks of one session, each later than the one before. */
  ghost predicate Orderly(es: seq<Event>, session: SessionId) {
    forall j :: 0 <= j < |es| ==>
      && SessionOf(es[j].input.session) == session && es[j].input.nowMs >= session.configuredAt
      && (j > 0 ==> es[j - 1].input.nowMs < es[j].input.nowMs)
  }

  lemma OrderlyAppend(es: seq<Event>, e: Event, session: SessionId)
    requires Orderly(es, session)
    requires SessionOf(e.input.session) == session && e.input.nowMs >= session.configuredAt
    requires es != [] ==> es[|es| - 1].input.nowMs < e.input.nowMs
    ensures Orderly(es + [e], session)
  {
    hide SessionOf;
  }

  /** From the empty directory: `n` refused storage reports, each of its own broker epoch. */
  lemma {:induction false} Fill(cfg: Config, session: SessionId, n: nat, startMs: nat) returns (es: seq<Event>)
    requires session.configuredAt <= startMs && n <= P.NOTIFICATION_BACKLOG_LIMIT + 1
    ensures FilledDisk(cfg, DiskOf(cfg, es), session, n, startMs)
    ensures Orderly(es, session) && |es| == n && (n > 0 ==> es[n - 1].input.nowMs == startMs + n - 1)
  {
    hide FilledDisk, After, Steps, Orderly;
    if n == 0 {
      es := [];
      EmptyDirectory(cfg, session, startMs);
      NoTicks(session);
    } else {
      var before := Fill(cfg, session, n - 1, startMs);
      var input := StorageFailure(session, n - 1, startMs + n - 1, false);
      FillStep(cfg, DiskOf(cfg, before), session, n - 1, startMs);
      var e := Event(input, |Steps(cfg, DiskOf(cfg, before), input)|);
      OrderlyAppend(before, e, session);
      es := before + [e];
      assert es[..|es| - 1] == before;
    }
  }

  lemma NoTicks(session: SessionId)
    ensures Orderly([], session)
  {
  }

  lemma EmptyDirectory(cfg: Config, session: SessionId, startMs: nat)
    ensures FilledDisk(cfg, DiskOf(cfg, []), session, 0, startMs)
  {
  }

  /** One more report than the backlog has room for: the summary joins the backlog with the write
      that announces the report. */
  lemma OverflowPromotes(s: EngineState, session: SessionId, startMs: nat)
    requires Filled(s.notification, s.backlog, session, P.NOTIFICATION_BACKLOG_LIMIT + 1, startMs)
    ensures var n := P.NOTIFICATION_BACKLOG_LIMIT;
      var t := Promoted(s, FailureKey(session, n + 1), FailureClassification());
      && t.backlog == RefusedReports(session, n, startMs) + [OverflowSummary()] && t.notification.Some?
      && t.notification.value == NewReport(FailureKey(session, n + 1), P.MonitorStorageUnavailable, P.DiskFull)
  {
    hide RefusedReports;
    var n := P.NOTIFICATION_BACKLOG_LIMIT;
    var key, retained := FailureKey(session, n + 1), Retain(s.backlog, s.notification);
    assert !HasKey(s.backlog, s.notification.value.key) && !HasOverflow(s.backlog);
    assert retained == RefusedReports(session, n, startMs) + [OverflowSummary()];
    assert !HasKey(retained, key);
    WithoutAbsentKey(retained, key);
    LookupFinds(retained, key);
  }

  lemma SummaryFirstDue(session: SessionId, n: nat, startMs: nat, nowMs: int)
    requires nowMs < startMs + P.NOTIFICATION_RETRY_MS
    ensures FirstDue(RefusedReports(session, n, startMs) + [OverflowSummary()], nowMs) == n
  {
    hide RefusedReports;
    var all := RefusedReports(session, n, startMs) + [OverflowSummary()];
    assert all[n] == OverflowSummary() && Due(all[n], nowMs);
    assert forall k :: 0 <= k < n ==> all[k] == RefusedReport(session, k, startMs);
  }

  /** The second effect of such a tick is that write. */
  lemma IntentIsSecond(cfg: Config, a: Assessment, semantic: S.State, input: TickInput, session: SessionId,
                       startMs: nat)
    requires Fills(a, input, session, P.NOTIFICATION_BACKLOG_LIMIT + 1, startMs)
    ensures var log := Phases(cfg, a, semantic, input).memory.log;
      && |log| > 2 && log[1].Persist?
      && log[1].written.backlog == RefusedReports(session, P.NOTIFICATION_BACKLOG_LIMIT, startMs) + [OverflowSummary()]
  {
    hide SubmitCurrent, Promoted, RefusedReports, ReportQueued, ReportIdentity, FailureIdentity, ReportOutcome,
      P.ActiveWorkflow, Filled, SubmitCurrent;
    var n := P.NOTIFICATION_BACKLOG_LIMIT + 1;
    var hold := input.session.keepAwakeOnAc && input.onAc && P.ActiveWorkflow(a.classification.state);
    var m := Emit(Memory(a.state, []), SetAwake(hold));
    OverflowPromotes(a.state, session, startMs);
    var promoted := Memory(Promoted(a.state, FailureKey(session, n), FailureClassification()), m.log);
    AnnouncedFirst(cfg, promoted, startMs + n);
    var acted := Act(cfg, m, a, input);
    var reported := Report(cfg, acted, a, input);
    QueueOnlyAppends(cfg, reported, input);
  }

  lemma AnnouncedFirst(cfg: Config, m: Memory, nowMs: int)
    requires m.state.notification.Some?
    requires m.state.notification.value.outcome.Pending? && m.state.notification.value.retryAt.None?
    ensures var log := SubmitCurrent(cfg, m, nowMs, nowMs, false).log;
      && |log| > |m.log| + 1 && log[|m.log|].Persist? && log[|m.log|].written.backlog == m.state.backlog
  {
  }

  /** Cut right after the write that announces the report, such a tick leaves a full backlog whose
      summary alone is due. */
  lemma OverflowCut(cfg: Config, s: EngineState, session: SessionId, startMs: nat)
    requires FilledDisk(cfg, Some(s), session, P.NOTIFICATION_BACKLOG_LIMIT + 1, startMs)
    requires session.configuredAt <= startMs
    ensures var n := P.NOTIFICATION_BACKLOG_LIMIT + 1;
      var after := After(cfg, Some(s), Event(StorageFailure(session, n, startMs + n, false), 2));
      && after.Some? && Current(cfg, after.value) && after.value.updatedAt == startMs + n - 1
      && after.value.session == Some(session)
      && after.value.backlog == RefusedReports(session, n - 1, startMs) + [OverflowSummary()]
  {
    hide Tick, Steps, Assess, Semantic, Filled, Finish, Stored, ReportIdentity, StoreAcceptance.Accepts, GoodQueue,
      Phases, FailureIdentity, RefusedReports, Concluded, StartsIn;
    var n, disk := P.NOTIFICATION_BACKLOG_LIMIT + 1, Some(s);
    var input := StorageFailure(session, n, startMs + n, false);
    var a := Assess(cfg, disk, input);
    FillAssessed(cfg, disk, session, n, startMs);
    SessionQueue(cfg, s, input);
    TickUnfolds(cfg, disk, input);
    var semantic := Semantic(cfg, disk, input).value;
    IntentIsSecond(cfg, a, semantic, input, session, startMs);
    assert Executed(cfg, disk, Event(input, 2)) == Steps(cfg, disk, input)[..2];
    CutStaysCurrent(cfg, s, input, n, startMs + n, 2);
    StoreAcceptance.AcceptedQueue(cfg, disk);
    EventShape(cfg, disk, Event(input, 2));
  }

  /** The storage report of one run from the empty directory is lost: seventeen refused reports, an
      eighteenth whose tick is cut right after it is announced, one whose tick has the summary heard
      and is cut before its last write, and one more tick. Two cuts and refused notifications, a
      few milliseconds apart, are all it takes, whatever the configuration and the session. */
  lemma RunLosesReport(cfg: Config, session: SessionId, startMs: nat)
    returns (es: seq<Event>, crashed: EngineState, second: TickInput, key: Key)
    requires session.configuredAt <= startMs
    ensures Orderly(es, session) && es != [] && DiskOf(cfg, es) == Some(crashed) && Current(cfg, crashed)
    ensures crashed.notification.Some? && crashed.notification.value.key == key
    ensures ContinuesSession(crashed, second) && second.nowMs > es[|es| - 1].input.nowMs
    ensures LostSilently(cfg, crashed, second, key)
  {
    hide FilledDisk, After, Steps, Current, LostSilently, RefusedReports, FirstDue, Executed, Orderly;
    var n := P.NOTIFICATION_BACKLOG_LIMIT + 1;
    var filled := Fill(cfg, session, n, startMs);
    FilledIsSome(cfg, DiskOf(cfg, filled), session, n, startMs);
    var s := DiskOf(cfg, filled).value;
    var announced := Event(StorageFailure(session, n, startMs + n, false), 2);
    OverflowCut(cfg, s, session, startMs);
    var cut := filled + [announced];
    assert cut[..|cut| - 1] == filled;
    var full := DiskOf(cfg, cut).value;
    SummaryFirstDue(session, n - 1, startMs, startMs + n + 1);
    var first: TickInput;
    first, second, crashed, key := CrashLosesReport(cfg, full, startMs + n + 1);
    assert SessionOf(announced.input.session) == SessionOf(first.session) == session;
    OrderlyAppend(filled, announced, session);
    var heard := Event(first, |Steps(cfg, Some(full), first)| - 1);
    OrderlyAppend(cut, heard, session);
    es := cut + [heard];
    assert es[..|es| - 1] == cut;
  }

  lemma FilledIsSome(cfg: Config, disk: Option<EngineState>, session: SessionId, n: nat, startMs: nat)
    requires FilledDisk(cfg, disk, session, n, startMs) && n > 0
    ensures disk.Some?
  {
  }
}
