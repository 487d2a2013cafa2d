/** No unaccepted report is lost silently, except by one crash the source does not survive
    (src/eagle-monitor-engine.mjs, `#retainPendingNotification`, `#notify`, `tick`). */
module NotificationConservation {
  import opened Prelude
  import P = MonitorPolicy
  import opened NotificationQueue
  import S = SemanticState
  import C = SemanticClassifier
  import opened MonitorEngine
  import opened MonitorTick
  import opened MonitorRuns
  import opened NotificationFairness
  import StoreAcceptance

  /** The report is retained and has not been accepted. */
  predicate Present(s: EngineState, key: Key) {
    || (s.notification.Some? && s.notification.value.key == key && !s.notification.value.outcome.Accepted?)
    || Holds(s.backlog, key)
  }

  predicate Holds(backlog: seq<Receipt>, key: Key) {
    exists i :: 0 <= i < |backlog| && backlog[i].key == key && !backlog[i].outcome.Accepted?
  }

  /** The report itself or an unaccepted summary of what did not fit is retained. */
  predicate Known(s: EngineState, key: Key) {
    Present(s, key) || Holds(s.backlog, OverflowKey)
  }

  /** No accepted overflow summary occupies the backlog. */
  predicate LiveSummary(backlog: seq<Receipt>) {
    forall i :: 0 <= i < |backlog| && backlog[i].key.OverflowKey? ==> !backlog[i].outcome.Accepted?
  }

  predicate Told(log: seq<Step>, key: Key) {
    Submit(key, true) in log
  }

  predicate Accounted(s: EngineState, log: seq<Step>, key: Key) {
    && (Known(s, key) || Told(log, key) || Told(log, OverflowKey))
    && (LiveSummary(s.backlog) || Told(log, OverflowKey))
  }

  predicate AccountedLog(log: seq<Step>, key: Key) {
    forall i :: 0 <= i < |log| && log[i].Persist? ==> Accounted(log[i].written, log[..i], key)
  }

  predicate Conserved(m: Memory, key: Key) {
    AccountedLog(m.log, key) && Accounted(m.state, m.log, key)
  }

  lemma AccountedStays(s: EngineState, log: seq<Step>, longer: seq<Step>, key: Key)
    requires log <= longer && Accounted(s, log, key)
    ensures Accounted(s, longer, key)
  {
    hide Known, LiveSummary;
    assert longer == log + longer[|log|..];
  }

  lemma AccountAppend(log: seq<Step>, step: Step, key: Key)
    requires AccountedLog(log, key) && (step.Persist? ==> Accounted(step.written, log, key))
    ensures AccountedLog(log + [step], key)
  {
    hide Accounted;
    var longer := log + [step];
    forall i | 0 <= i < |longer| && longer[i].Persist? ensures Accounted(longer[i].written, longer[..i], key) {
      if i < |log| {
        assert longer[i] == log[i] && longer[..i] == log[..i];
      } else {
        assert longer[..i] == log;
      }
    }
  }

  lemma StoredAccounted(cfg: Config, s: EngineState, log: seq<Step>, key: Key)
    ensures Accounted(Stored(cfg, s), log, key) == Accounted(s, log, key)
  {
    hide Holds, LiveSummary, Told, Tail;
  }

  /** The two writes of a submission. */
  lemma SubmissionAccounted(cfg: Config, m: Memory, first: EngineState, submitted: Key, accepted: bool,
                            second: EngineState, key: Key)
    requires AccountedLog(m.log, key) && Accounted(first, m.log, key)
    requires Known(second, key) || Told(m.log, key) || Told(m.log, OverflowKey) ||
             (accepted && (submitted == key || submitted == OverflowKey))
    requires LiveSummary(second.backlog) || Told(m.log, OverflowKey) || (accepted && submitted == OverflowKey)
    ensures var asked := Emit(Write(cfg, Memory(first, m.log)), Submit(submitted, accepted));
            Conserved(Write(cfg, Memory(second, asked.log)), key)
  {
    hide Known, LiveSummary, Stored;
    var a, b, c := Persist(Stored(cfg, first)), Submit(submitted, accepted), Persist(Stored(cfg, second));
    var asked := m.log + [a] + [b];
    StoredAccounted(cfg, first, m.log, key);
    AccountAppend(m.log, a, key);
    AccountAppend(m.log + [a], b, key);
    assert b in asked && forall step :: step in m.log ==> step in asked;
    assert Accounted(second, asked, key);
    StoredAccounted(cfg, second, asked, key);
    AccountAppend(asked, c, key);
    AccountedStays(second, asked, asked + [c], key);
  }

  // ---- the queue operations -------------------------------------------

  lemma ReplacedHolds(before: seq<Receipt>, i: nat, r: Receipt, key: Key)
    requires i < |before| && r.key == before[i].key
    ensures !r.outcome.Accepted? ==> Holds(before, key) ==> Holds(before[i := r], key)
    ensures Holds(before, key) && before[i].key != key ==> Holds(before[i := r], key)
    ensures LiveSummary(before) && (!r.outcome.Accepted? || !r.key.OverflowKey?) ==> LiveSummary(before[i := r])
  {
    var after := before[i := r];
    if Holds(before, key) {
      var k :| 0 <= k < |before| && before[k].key == key && !before[k].outcome.Accepted?;
      assert after[k].key == key;
    }
  }

  lemma {:induction false} WithoutKeyHolds(backlog: seq<Receipt>, removed: Key, key: Key)
    ensures Holds(backlog, key) && removed != key ==> Holds(WithoutKey(backlog, removed), key)
    ensures LiveSummary(backlog) ==> LiveSummary(WithoutKey(backlog, removed))
  {
    WithoutKeyMembers(backlog, removed);
    var kept := WithoutKey(backlog, removed);
    if Holds(backlog, key) && removed != key {
      var i :| 0 <= i < |backlog| && backlog[i].key == key && !backlog[i].outcome.Accepted?;
      assert backlog[i] in kept;
    }
    if LiveSummary(backlog) {
      forall i | 0 <= i < |kept| && kept[i].key.OverflowKey? ensures !kept[i].outcome.Accepted? {
        assert kept[i] in backlog;
      }
    }
  }

  lemma WithoutAcceptedHolds(backlog: seq<Receipt>, key: Key)
    ensures Holds(backlog, key) ==> Holds(WithoutAccepted(backlog), key)
    ensures LiveSummary(WithoutAccepted(backlog))
  {
    WithoutAcceptedMembers(backlog);
    var kept := WithoutAccepted(backlog);
    if Holds(backlog, key) {
      var i :| 0 <= i < |backlog| && backlog[i].key == key && !backlog[i].outcome.Accepted?;
      assert backlog[i] in kept;
    }
    forall i | 0 <= i < |kept| ensures !kept[i].outcome.Accepted? {
      assert kept[i] in kept;
    }
  }

  lemma RotatedHolds(backlog: seq<Receipt>, nowMs: int, key: Key)
    requires FirstDue(backlog, nowMs) < |backlog|
    ensures Holds(backlog, key) ==> Holds(Rotated(backlog, nowMs), key)
    ensures LiveSummary(backlog) ==> LiveSummary(Rotated(backlog, nowMs))
  {
    hide FirstDue, Rotated;
    var i, moved := FirstDue(backlog, nowMs), Rotated(backlog, nowMs);
    if Holds(backlog, key) {
      var k :| 0 <= k < |backlog| && backlog[k].key == key && !backlog[k].outcome.Accepted?;
      RotatedAt(backlog, nowMs, k);
    }
    if LiveSummary(backlog) {
      forall k | 0 <= k < |moved| && moved[k].key.OverflowKey? ensures !moved[k].outcome.Accepted? {
        RotatedAt(backlog, nowMs, k);
      }
    }
  }

  /** Exactly when retaining loses the receipt that leaves the slot: the backlog is full and the
      overflow summary that should stand for it has already been accepted. */
  lemma RetainLosesExactly(notification: Option<Receipt>, backlog: seq<Receipt>)
    requires GoodQueue(notification, backlog)
    requires notification.Some? && !notification.value.outcome.Accepted?
    ensures var after := Retain(backlog, notification);
            Holds(after, notification.value.key) || Holds(after, OverflowKey) <==>
            |backlog| < P.NOTIFICATION_BACKLOG_LIMIT || !HasKey(backlog, OverflowKey) || LiveSummary(backlog)
  {
    var after, r := Retain(backlog, notification), notification.value;
    if |backlog| < P.NOTIFICATION_BACKLOG_LIMIT {
      assert after[|backlog|] == r;
    } else if !HasOverflow(backlog) {
      assert after[|backlog|].key == OverflowKey;
      assert forall i :: 0 <= i < |backlog| ==> !backlog[i].reason.NotificationBacklogOverflow?;
    } else {
      var i :| 0 <= i < |backlog| && backlog[i].reason.NotificationBacklogOverflow?;
      assert backlog[i].key == OverflowKey;
    }
  }

  // ---- phases of a tick -----------------------------------------------

  lemma ReplacedCurrentKnown(s: EngineState, r: Receipt, key: Key)
    requires s.notification.Some? && r.key == s.notification.value.key
    ensures var t := s.(notification := Some(r));
            && (!r.outcome.Accepted? ==> Known(s, key) ==> Known(t, key))
            && (r.key != key ==> Known(s, key) ==> Known(t, key))
  {
    hide Holds;
  }

  lemma SubmissionOutcome(r: Receipt, nowMs: int, wallMs: int, accepted: bool)
    ensures var intent := Dispatched(r, nowMs, wallMs);
            var outcome := Resolved(intent, nowMs, accepted);
            && intent.key == r.key && !intent.outcome.Accepted?
            && outcome.key == r.key && (outcome.outcome.Accepted? <==> accepted)
  {
  }

  lemma SubmitCurrentConserves(cfg: Config, m: Memory, nowMs: int, wallMs: int, accepted: bool, key: Key)
    requires Queued(m.state) && m.state.notification.Some? && nowMs >= 0
    requires Conserved(m, key)
    ensures Conserved(SubmitCurrent(cfg, m, nowMs, wallMs, accepted), key)
  {
    hide AccountedLog, Known, LiveSummary, Told, Stored, Submits, Reopened, Dispatched, Resolved, ValidReceipt, HasKey,
      HasOverflow, DistinctKeys;
    var r := m.state.notification.value;
    SubmissionKeepsReceipt(r, nowMs, wallMs, accepted);
    if Submits(r, nowMs) {
      SubmissionOutcome(r, nowMs, wallMs, accepted);
      var intent := Dispatched(r, nowMs, wallMs);
      var outcome := Resolved(intent, nowMs, accepted);
      var first := SetCurrent(m, intent).state;
      var second := SetCurrent(m, outcome).state;
      ReplacedCurrentKnown(m.state, intent, key);
      ReplacedCurrentKnown(m.state, outcome, key);
      SubmissionAccounted(cfg, m, first, r.key, accepted, second, key);
    }
  }

  /** Raising a report keeps every other one known. */
  lemma PromotedKnown(s: EngineState, raised: Key, c: P.Classification, key: Key)
    requires Queued(s) && raised.ReportKey? && Known(s, key) && LiveSummary(s.backlog)
    ensures Known(Promoted(s, raised, c), key) && LiveSummary(Promoted(s, raised, c).backlog)
  {
    hide ValidReceipt, HasOverflow, WithoutKey, Lookup, LiveSummary, Holds;
    if !(s.notification.Some? && s.notification.value.key == raised) {
      var retained := Retain(s.backlog, s.notification);
      RetainKnown(s.notification, s.backlog, key);
      WithoutKeyHolds(retained, raised, key);
      WithoutKeyHolds(retained, raised, OverflowKey);
      if raised == key && Holds(retained, key) { LookupHolds(s.notification, s.backlog, key); }
    }
  }

  lemma LookupHolds(notification: Option<Receipt>, backlog: seq<Receipt>, key: Key)
    requires GoodQueue(notification, backlog) && Holds(Retain(backlog, notification), key)
    ensures var known := Lookup(Retain(backlog, notification), key);
            known.Some? && known.value.key == key && !known.value.outcome.Accepted?
  {
    hide ValidReceipt, HasOverflow;
    var retained := Retain(backlog, notification);
    RetainKeeps(notification, backlog);
    var i :| 0 <= i < |retained| && retained[i].key == key && !retained[i].outcome.Accepted?;
    LookupUnique(retained, retained[i]);
  }

  lemma RetainKnown(notification: Option<Receipt>, backlog: seq<Receipt>, key: Key)
    requires GoodQueue(notification, backlog) && LiveSummary(backlog)
    ensures var after := Retain(backlog, notification);
            && LiveSummary(after)
            && (Holds(backlog, key) ==> Holds(after, key))
            && (Holds(backlog, OverflowKey) ==> Holds(after, OverflowKey))
            && (notification.Some? && notification.value.key == key && !notification.value.outcome.Accepted? ==>
                  Holds(after, key) || Holds(after, OverflowKey))
  {
    hide ValidReceipt;
    var after := Retain(backlog, notification);
    RetainKeeps(notification, backlog);
    HoldsInLonger(backlog, after, key);
    HoldsInLonger(backlog, after, OverflowKey);
    if notification.Some? && !notification.value.outcome.Accepted? { RetainLosesExactly(notification, backlog); }
  }

  lemma HoldsInLonger(backlog: seq<Receipt>, longer: seq<Receipt>, key: Key)
    requires backlog <= longer
    ensures Holds(backlog, key) ==> Holds(longer, key)
  {
    if Holds(backlog, key) {
      var i :| 0 <= i < |backlog| && backlog[i].key == key && !backlog[i].outcome.Accepted?;
      assert longer[i].key == key;
    }
  }

  lemma NotifyConserves(cfg: Config, m: Memory, c: P.Classification, identity: Identity, nowMs: int, wallMs: int,
                        accepted: bool, key: Key)
    requires Queued(m.state) && nowMs >= 0 && Reportable(c)
    requires Conserved(m, key) && LiveSummary(m.state.backlog)
    ensures var after := Notify(cfg, m, c, identity, nowMs, wallMs, accepted);
            Conserved(after, key) && LiveSummary(after.state.backlog)
  {
    hide AccountedLog, Known, LiveSummary, Told, Promoted, SubmitCurrent, GoodQueue, Reportable;
    var raised := ReportKey(identity, c.reason, c.state);
    var promoted := Memory(Promoted(m.state, raised, c), m.log);
    PromotedKeeps(m.state, raised, c);
    if Known(m.state, key) { PromotedKnown(m.state, raised, c, key); }
    PromotedLive(m.state, raised, c);
    SubmitCurrentConserves(cfg, promoted, nowMs, wallMs, accepted, key);
    SubmitCurrentBacklog(cfg, promoted, nowMs, wallMs, accepted);
  }

  lemma PromotedLive(s: EngineState, raised: Key, c: P.Classification)
    requires Queued(s) && LiveSummary(s.backlog)
    ensures LiveSummary(Promoted(s, raised, c).backlog)
  {
    hide GoodQueue, WithoutKey, Retain, Lookup, LiveSummary, Holds;
    RetainKnown(s.notification, s.backlog, raised);
    WithoutKeyHolds(Retain(s.backlog, s.notification), raised, raised);
  }

  lemma SubmitCurrentBacklog(cfg: Config, m: Memory, nowMs: int, wallMs: int, accepted: bool)
    requires m.state.notification.Some?
    ensures SubmitCurrent(cfg, m, nowMs, wallMs, accepted).state.backlog == m.state.backlog
  {
    hide Submits, Reopened, Dispatched, Resolved, Stored;
  }

  lemma ReportConserves(cfg: Config, acted: Acted, a: Assessment, input: TickInput, key: Key)
    requires Queued(acted.memory.state) && input.nowMs >= 0
    requires acted.report && acted.classification.humanRequired ==> Reportable(acted.classification)
    requires Conserved(acted.memory, key) && LiveSummary(acted.memory.state.backlog)
    ensures var after := Report(cfg, acted, a, input); Conserved(after, key) && LiveSummary(after.state.backlog)
  {
    hide Notify, SubmitCurrent, ReportOutcome, ReportIdentity, GoodQueue, AccountedLog, Holds, Told, LiveSummary,
      Reportable;
    var m := acted.memory;
    if acted.report && acted.classification.humanRequired {
      NotifyConserves(cfg, m, acted.classification, ReportIdentity(m.state, a, input, None),
                      input.nowMs, input.reportWallMs, input.reportAccepted, key);
    } else if m.state.notification.Some? && !m.state.notification.value.outcome.Accepted? {
      SubmitCurrentConserves(cfg, m, input.nowMs, input.reportWallMs, input.reportAccepted, key);
      SubmitCurrentBacklog(cfg, m, input.nowMs, input.reportWallMs, input.reportAccepted);
    }
  }

  lemma ReportSemanticConserves(cfg: Config, m: Memory, c: P.Classification, a: Assessment, semantic: S.State,
                                input: TickInput, key: Key)
    requires Queued(m.state) && input.nowMs >= 0
    requires Conserved(m, key) && LiveSummary(m.state.backlog)
    ensures var after := ReportSemantic(cfg, m, c, a, semantic, input);
            Conserved(after, key) && LiveSummary(after.state.backlog)
  {
    hide Notify, ReportIdentity, GoodQueue, SemanticKeys, Conserved, LiveSummary;
    if ReportsSemantic(c, a, semantic) {
      NotifyConserves(cfg, m, SemanticReport(c, semantic), ReportIdentity(m.state, a, input, semantic.incidentKey),
                      input.nowMs, input.semanticWallMs, input.semanticAccepted, key);
    }
  }

  lemma SubmitLastConserves(cfg: Config, m: Memory, nowMs: int, wallMs: int, accepted: bool, key: Key)
    requires Queued(m.state) && |m.state.backlog| > 0 && nowMs >= 0
    requires Conserved(m, key)
    ensures Conserved(SubmitLast(cfg, m, nowMs, wallMs, accepted), key)
  {
    hide AccountedLog, LiveSummary, Told, Stored, Submits, Reopened, Dispatched, Resolved, ValidReceipt, HasKey,
      HasOverflow, DistinctKeys, Holds;
    var last := |m.state.backlog| - 1;
    var r := m.state.backlog[last];
    SubmissionKeepsReceipt(r, nowMs, wallMs, accepted);
    if Submits(r, nowMs) {
      SubmissionOutcome(r, nowMs, wallMs, accepted);
      var intent := Dispatched(r, nowMs, wallMs);
      var outcome := Resolved(intent, nowMs, accepted);
      var first, second := SetLast(m, intent).state, SetLast(m, outcome).state;
      ReplacedHolds(m.state.backlog, last, intent, key);
      ReplacedHolds(m.state.backlog, last, intent, OverflowKey);
      ReplacedHolds(m.state.backlog, last, outcome, key);
      ReplacedHolds(m.state.backlog, last, outcome, OverflowKey);
      assert first.backlog[|first.backlog| - 1 := outcome] == second.backlog;
      SubmissionAccounted(cfg, m, first, r.key, accepted, second, key);
    } else {
      assert m.state.backlog[last := r] == m.state.backlog;
    }
  }

  lemma ReportQueuedConserves(cfg: Config, m: Memory, input: TickInput, key: Key)
    requires Queued(m.state) && input.nowMs >= 0
    requires Conserved(m, key)
    ensures var after := ReportQueued(cfg, m, input); Conserved(after, key) && LiveSummary(after.state.backlog)
  {
    hide SubmitLast, Rotated, FirstDue, GoodQueue, WithoutAccepted, AccountedLog, LiveSummary, Told, Holds;
    var now := input.nowMs;
    var submitted := m;
    if FirstDue(m.state.backlog, now) < |m.state.backlog| {
      RotatedKeeps(m.state, now);
      RotatedHolds(m.state.backlog, now, key);
      RotatedHolds(m.state.backlog, now, OverflowKey);
      var rotated := Memory(m.state.(backlog := Rotated(m.state.backlog, now)), m.log);
      submitted := SubmitLast(cfg, rotated, now, input.queuedWallMs, input.queuedAccepted);
      SubmitLastConserves(cfg, rotated, now, input.queuedWallMs, input.queuedAccepted, key);
    }
    WithoutAcceptedHolds(submitted.state.backlog, key);
    WithoutAcceptedHolds(submitted.state.backlog, OverflowKey);
  }

  // ---- ticks and runs -------------------------------------------------

  lemma ActConserves(cfg: Config, m: Memory, a: Assessment, input: TickInput, key: Key)
    requires m.state == a.state && Conserved(m, key)
    ensures var after := Act(cfg, m, a, input).memory;
            Conserved(after, key) && after.state.backlog == m.state.backlog
  {
    hide Act, Holds, LiveSummary, AccountedLog, Told;
    var now, log := input.nowMs, Act(cfg, m, a, input).memory.log;
    ActEffects(cfg, m, a, input);
    ActShape(cfg, m, a, input);
    RecordedQueue(m, a, now);
    var written := Persist(Stored(cfg, Recorded(m, a, now).state));
    StoredAccounted(cfg, Recorded(m, a, now).state, m.log, key);
    AccountAppend(m.log, AttachWorkflow, key);
    AccountAppend(m.log, written, key);
    AccountAppend(m.log + [written], ReconcileWorkflow, key);
    AccountAppend(m.log + [written], StartBroker(now), key);
    AccountedStays(m.state, m.log, log, key);
  }

  lemma RecordedQueue(m: Memory, a: Assessment, nowMs: int)
    ensures var s := Recorded(m, a, nowMs).state; s.notification == m.state.notification && s.backlog == m.state.backlog
  {
  }

  lemma SafePhasesConserve(cfg: Config, m: Memory, a: Assessment, semantic: S.State, input: TickInput, key: Key)
    requires m.state == a.state && Queued(m.state) && input.nowMs >= 0
    requires a.classification == UnresolvedTerminal() || a.classification == P.Classify(a.observation)
    requires Conserved(m, key) && LiveSummary(m.state.backlog)
    ensures var after := SafePhases(cfg, m, a, semantic, input).memory;
            Conserved(after, key) && LiveSummary(after.state.backlog)
  {
    hide Act, Report, ReportSemantic, ReportQueued, GoodQueue, Reportable, Conserved, LiveSummary, Concludes;
    var acted := Act(cfg, m, a, input);
    ActConserves(cfg, m, a, input, key);
    QueuedPhases(cfg, m, a, semantic, input);
    ActShape(cfg, m, a, input);
    if acted.classification.humanRequired { ReportsAreAllowed(a, acted.classification); }
    ReportConserves(cfg, acted, a, input, key);
    var reported := Report(cfg, acted, a, input);
    ReportSemanticConserves(cfg, reported, acted.classification, a, semantic, input, key);
    ReportQueuedConserves(cfg, ReportSemantic(cfg, reported, acted.classification, a, semantic, input), input, key);
  }

  lemma OnlyWakes(m: Memory, key: Key)
    requires |m.log| == 1 && m.log[0].SetAwake? && Known(m.state, key) && LiveSummary(m.state.backlog)
    ensures Conserved(m, key)
  {
    hide Known, LiveSummary;
  }

  /** One whole tick, in either mode. */
  lemma TickConserves(cfg: Config, s: EngineState, input: TickInput, key: Key)
    requires Queued(s) && ContinuesSession(s, input) && input.nowMs >= 0
    requires Tick(cfg, Some(s), input).Some? && Known(s, key) && LiveSummary(s.backlog)
    ensures var log := Steps(cfg, Some(s), input);
            && log != [] && log[|log| - 1].Persist?
            && AccountedLog(log, key) && LiveSummary(log[|log| - 1].written.backlog)
  {
    hide Assess, Semantic, GoodQueue, Finish, Tick, Steps, SafePhases, Holds, LiveSummary, ContinuesSession, Stored,
      AccountedLog, Told, SetAction;
    var disk := Some(s);
    var a := Assess(cfg, disk, input);
    SessionQueue(cfg, s, input);
    LoadedQueue(cfg, disk, input);
    AssessClassifies(cfg, disk, input);
    TickUnfolds(cfg, disk, input);
    var semantic := Semantic(cfg, disk, input).value;
    var hold := input.session.keepAwakeOnAc && input.onAc && P.ActiveWorkflow(a.classification.state);
    var m := Emit(Memory(a.state, []), SetAwake(hold));
    OnlyWakes(m, key);
    if input.session.safeMode {
      SafePhasesConserve(cfg, m, a, semantic, input, key);
    } else {
      ShadowKeepsQueue(m, a, input);
    }
    var after := Phases(cfg, a, semantic, input);
    FinishQueue(cfg, a, semantic, input, after);
    AccountAppend(after.memory.log, Persist(Concluded(cfg, a, semantic, input)), key);
  }

  lemma ShadowKeepsQueue(m: Memory, a: Assessment, input: TickInput)
    ensures var after := SetAction(m, a.action, input.nowMs, ShadowOnly);
            after.log == m.log && after.state.backlog == m.state.backlog
            && after.state.notification == m.state.notification
  {
  }

  /** An event that is no crash between the acceptance of an overflow summary and the end of its
      tick. */
  predicate KeepsSummaries(cfg: Config, disk: Option<EngineState>, e: Event) {
    Completed(cfg, disk, e) || !Told(Executed(cfg, disk, e), OverflowKey)
  }

  lemma EventConserves(cfg: Config, s: EngineState, e: Event, key: Key)
    requires Queued(s) && ContinuesSession(s, e.input) && e.input.nowMs >= 0
    requires Known(s, key) && LiveSummary(s.backlog) && KeepsSummaries(cfg, Some(s), e)
    ensures var after, log := After(cfg, Some(s), e), Executed(cfg, Some(s), e);
            && after.Some? && LiveSummary(after.value.backlog)
            && (Known(after.value, key) || Told(log, key) || Told(log, OverflowKey))
  {
    hide Steps, Tick, GoodQueue, ContinuesSession, Known, LiveSummary, DiskAfter, AccountedLog;
    var disk, log := Some(s), Executed(cfg, Some(s), e);
    var last := LastWrite(disk, log);
    if Tick(cfg, disk, e.input).None? {
      NoTickNoSteps(cfg, disk, e.input);
    } else {
      var steps := Steps(cfg, disk, e.input);
      TickConserves(cfg, s, e.input, key);
      if Wrote(log) { WrittenAccounted(steps, log, last, key); }
    }
  }

  lemma WrittenAccounted(steps: seq<Step>, log: seq<Step>, i: nat, key: Key)
    requires AccountedLog(steps, key) && log <= steps && i < |log| && log[i].Persist?
    ensures Accounted(log[i].written, log, key)
  {
    hide Accounted;
    assert steps[..i] == log[..i];
    assert Accounted(steps[i].written, steps[..i], key);
    AccountedStays(log[i].written, log[..i], log, key);
  }

  predicate ToldAt(cfg: Config, es: seq<Event>, j: nat, key: Key)
    requires j < |es|
  {
    Told(EffectsAt(cfg, es, j), key)
  }

  /** The report was retained before event `j` and is not retained after it, but not silently: the
      user accepted it in the event, or accepted a summary of what did not fit, or an unaccepted
      summary is retained afterwards. */
  predicate LeavesToldAt(cfg: Config, es: seq<Event>, j: nat, key: Key)
    requires j < |es|
  {
    var before, after := DiskBefore(cfg, es, j), DiskBefore(cfg, es, j + 1);
    && before.Some? && Present(before.value, key) && after.Some? && !Present(after.value, key)
    && (ToldAt(cfg, es, j, key) || ToldAt(cfg, es, j, OverflowKey) || Holds(after.value.backlog, OverflowKey))
  }

  lemma PresentIsKnown(s: EngineState, key: Key)
    ensures Present(s, key) ==> Known(s, key)
    ensures Known(s, key) ==> Present(s, key) || Holds(s.backlog, OverflowKey)
  {
  }

  /** One event at a position of the run. */
  lemma ConservedAt(cfg: Config, es: seq<Event>, j: nat, key: Key)
    requires j < |es| && KeepsSummaries(cfg, DiskBefore(cfg, es, j), es[j])
    requires es[j].input.nowMs >= 0 && es[j].input.nowMs >= es[j].input.session.configuredAt
    requires var disk := DiskBefore(cfg, es, j);
             disk.Some? && Queued(disk.value) && ContinuesSession(disk.value, es[j].input)
    ensures var disk, next := DiskBefore(cfg, es, j), DiskBefore(cfg, es, j + 1);
            && next.Some? && Queued(next.value) && ContinuesSession(next.value, es[j].input)
            && (Present(disk.value, key) && LiveSummary(disk.value.backlog) ==>
                  && LiveSummary(next.value.backlog)
                  && (Present(next.value, key) || LeavesToldAt(cfg, es, j, key)))
  {
    hide After, Executed, GoodQueue, Known, Present, Holds, LiveSummary, ContinuesSession, DiskBefore, KeepsSummaries,
      Told;
    var disk := DiskBefore(cfg, es, j);
    NextDisk(cfg, es, j);
    ContinuingDisk(cfg, disk.value, es[j]);
    if Present(disk.value, key) && LiveSummary(disk.value.backlog) {
      PresentIsKnown(disk.value, key);
      EventConserves(cfg, disk.value, es[j], key);
      PresentIsKnown(DiskBefore(cfg, es, j + 1).value, key);
    }
  }

  /** Ticks of one session, none of them before its configuration. */
  ghost predicate SameSession(es: seq<Event>, i: nat, n: nat)
    requires i <= n <= |es|
  {
    forall j :: i <= j < n ==>
      && SessionOf(es[j].input.session) == SessionOf(es[i].input.session)
      && es[j].input.nowMs >= 0 && es[j].input.nowMs >= es[j].input.session.configuredAt
  }

  lemma {:induction false} ConservedRun(cfg: Config, es: seq<Event>, i: nat, n: nat, key: Key)
    requires i < n <= |es| && SameSession(es, i, n)
    requires forall j :: i <= j < n ==> KeepsSummaries(cfg, DiskBefore(cfg, es, j), es[j])
    requires var disk := DiskBefore(cfg, es, i);
             && disk.Some? && Queued(disk.value) && ContinuesSession(disk.value, es[i].input)
             && Present(disk.value, key) && LiveSummary(disk.value.backlog)
    ensures var disk := DiskBefore(cfg, es, n);
            && disk.Some? && Queued(disk.value) && ContinuesSession(disk.value, es[i].input)
            && ((Present(disk.value, key) && LiveSummary(disk.value.backlog))
                || exists j :: i <= j < n && LeavesToldAt(cfg, es, j, key))
    decreases n
  {
    hide GoodQueue, Present, LiveSummary, ContinuesSession, SessionOf, DiskBefore, KeepsSummaries, LeavesToldAt;
    var last := n - 1;
    if i < last { ConservedRun(cfg, es, i, last, key); }
    SameContinuation(DiskBefore(cfg, es, last).value, es[i].input, es[last].input);
    ConservedAt(cfg, es, last, key);
    SameContinuation(DiskBefore(cfg, es, n).value, es[last].input, es[i].input);
  }

  /** Conservation: within a session, with crashes anywhere but between the acceptance of an
      overflow summary and the end of its tick, an unaccepted report is still retained, or it left
      in an event that told the user of it, told the user of an overflow, or left an unaccepted
      summary of it behind, which is conserved in its turn. */
  lemma ReportsAreConserved(cfg: Config, es: seq<Event>, i: nat, n: nat, key: Key)
    requires i < n <= |es| && SameSession(es, i, n)
    requires forall j :: i <= j < n ==> KeepsSummaries(cfg, DiskBefore(cfg, es, j), es[j])
    requires var disk := DiskBefore(cfg, es, i);
             && disk.Some? && Queued(disk.value) && ContinuesSession(disk.value, es[i].input)
             && Present(disk.value, key) && LiveSummary(disk.value.backlog)
    ensures var disk := DiskBefore(cfg, es, n);
            disk.Some? && (Present(disk.value, key) || exists j :: i <= j < n && LeavesToldAt(cfg, es, j, key))
  {
    hide GoodQueue, Present, LiveSummary, ContinuesSession, DiskOf, KeepsSummaries, LeavesToldAt, DiskBefore;
    ConservedRun(cfg, es, i, n, key);
  }

  // ---- the crash that loses a report ----------------------------------

  /** A tick the store accepts to its end after which the report is gone and nobody was told,
      neither of it nor of an overflow. */
  predicate LostSilently(cfg: Config, s: EngineState, input: TickInput, key: Key) {
    && Present(s, key)
    && Tick(cfg, Some(s), input).Some?
    && var log := Steps(cfg, Some(s), input);
       log != [] && log[|log| - 1].Persist? && StoreAcceptance.Accepts(cfg, log[|log| - 1].written)
       && !Known(log[|log| - 1].written, key) && !Told(log, key) && !Told(log, OverflowKey)
  }

  /** A tick that finds its disk writable but short of space reports so, whatever the rest of its
      observations; the broker epoch only serves to give that report its identity. The report itself
      is refused; whether a retained one is heard is a parameter. */
  function StorageFailure(session: SessionId, epoch: int, nowMs: int, heard: bool): TickInput {
    TickInput(
      Session(true, session.workflow, session.binding, session.configuredAt, true, false, true),
      nowMs, 0, true, false, false, false, false,
      Broker(true, false, Some(epoch), None, None, S.Checkpoint(session.workflow, None, [], None, 0, 0)),
      false, false, false, false,
      nowMs, false, nowMs, false, nowMs, heard)
  }

  predicate NobodyTold(log: seq<Step>) {
    forall i :: 0 <= i < |log| && log[i].Submit? ==> !log[i].accepted
  }

  lemma RefusedCurrent(cfg: Config, m: Memory, nowMs: int, wallMs: int)
    requires m.state.notification.Some? && NobodyTold(m.log)
    ensures var after := SubmitCurrent(cfg, m, nowMs, wallMs, false);
            && NobodyTold(after.log) && after.state.backlog == m.state.backlog
            && after.state.notification.Some? && after.state.notification.value.key == m.state.notification.value.key
  {
    hide Submits, Stored;
  }

  lemma RefusedLast(cfg: Config, m: Memory, nowMs: int, wallMs: int, key: Key)
    requires |m.state.backlog| > 0 && NobodyTold(m.log)
    requires Due(m.state.backlog[|m.state.backlog| - 1], nowMs)
    ensures var after := SubmitLast(cfg, m, nowMs, wallMs, false);
            && NobodyTold(after.log) && (Holds(after.state.backlog, key) <==> Holds(m.state.backlog, key))
            && after.state.notification == m.state.notification
  {
    hide Stored;
    var last := |m.state.backlog| - 1;
    var r := m.state.backlog[last];
    var intent := Dispatched(r, nowMs, wallMs);
    SubmissionOutcome(r, nowMs, wallMs, false);
    assert Submits(r, nowMs);
    var after := SubmitLast(cfg, m, nowMs, wallMs, false).state.backlog;
    assert after == m.state.backlog[last := after[last]] && after[last := r] == m.state.backlog;
    ReplacedHolds(m.state.backlog, last, after[last], key);
    ReplacedHolds(after, last, r, key);
  }

  lemma {:induction false} GoneStaysGone(backlog: seq<Receipt>, removed: Key, nowMs: int, key: Key)
    requires !Holds(backlog, key)
    ensures !Holds(WithoutKey(backlog, removed), key)
    ensures !Holds(WithoutAccepted(backlog), key)
    ensures !Holds(Rotated(backlog, nowMs), key)
  {
    hide FirstDue, Rotated;
    WithoutKeyMembers(backlog, removed);
    WithoutAcceptedMembers(backlog);
    var a, b, c := WithoutKey(backlog, removed), WithoutAccepted(backlog), Rotated(backlog, nowMs);
    forall i | 0 <= i < |a| ensures !(a[i].key == key && !a[i].outcome.Accepted?) { assert a[i] in backlog; }
    forall i | 0 <= i < |b| ensures !(b[i].key == key && !b[i].outcome.Accepted?) { assert b[i] in backlog; }
    forall i | 0 <= i < |c| ensures !(c[i].key == key && !c[i].outcome.Accepted?) {
      if FirstDue(backlog, nowMs) < |backlog| { RotatedAt(backlog, nowMs, i); } else { UnmovedBacklog(backlog, nowMs); }
    }
  }

  lemma UnmovedBacklog(backlog: seq<Receipt>, nowMs: int)
    requires FirstDue(backlog, nowMs) == |backlog|
    ensures Rotated(backlog, nowMs) == backlog
  {
  }

  lemma RefusedQueued(cfg: Config, m: Memory, input: TickInput, key: Key)
    requires NobodyTold(m.log) && !input.queuedAccepted
    ensures var after := ReportQueued(cfg, m, input);
            && NobodyTold(after.log) && (Holds(after.state.backlog, key) <==> Holds(m.state.backlog, key))
            && after.state.notification == m.state.notification
  {
    hide SubmitLast, Rotated, FirstDue, WithoutAccepted, Holds, NobodyTold;
    var now, submitted := input.nowMs, m;
    if !Holds(m.state.backlog, key) { GoneStaysGone(m.state.backlog, key, now, key); }
    if FirstDue(m.state.backlog, now) < |m.state.backlog| {
      RotatedHolds(m.state.backlog, now, key);
      RotatedAt(m.state.backlog, now, FirstDue(m.state.backlog, now));
      var rotated := Memory(m.state.(backlog := Rotated(m.state.backlog, now)), m.log);
      RefusedLast(cfg, rotated, now, input.queuedWallMs, key);
      submitted := SubmitLast(cfg, rotated, now, input.queuedWallMs, false);
    }
    WithoutAcceptedHolds(submitted.state.backlog, key);
    if !Holds(submitted.state.backlog, key) { GoneStaysGone(submitted.state.backlog, key, now, key); }
  }

  /** With a full backlog whose summary is accepted, raising another report drops the one in the
      slot. */
  lemma RaisingDrops(s: EngineState, raised: Key, c: P.Classification, key: Key)
    requires Queued(s) && s.notification.Some? && s.notification.value.key != raised
    requires |s.backlog| >= P.NOTIFICATION_BACKLOG_LIMIT && !LiveSummary(s.backlog)
    requires key == s.notification.value.key || key == OverflowKey
    ensures !Holds(Promoted(s, raised, c).backlog, key)
    ensures Promoted(s, raised, c).notification.Some?
    ensures LookupKey(Promoted(s, raised, c), raised)
  {
    hide ValidReceipt;
    var i :| 0 <= i < |s.backlog| && s.backlog[i].key.OverflowKey? && s.backlog[i].outcome.Accepted?;
    assert Faithful(s.backlog[i]) && s.backlog[i].reason.NotificationBacklogOverflow?;
    assert HasOverflow(s.backlog);
    assert Retain(s.backlog, s.notification) == s.backlog;
    assert !Holds(s.backlog, key);
    GoneStaysGone(s.backlog, raised, 0, key);
    LookupFinds(s.backlog, raised);
  }

  predicate LookupKey(s: EngineState, key: Key) {
    s.notification.Some? && s.notification.value.key == key
  }

  function FailureClassification(): P.Classification {
    P.Classification(true, P.MonitorStorageUnavailable, P.DiskFull)
  }

  function FailureIdentity(session: SessionId, epoch: int): Identity {
    Identity(session, Some(epoch), None, None, None)
  }

  predicate FailureInput(s: EngineState, input: TickInput, epoch: int, nowMs: int) {
    && s.session.Some? && input == StorageFailure(s.session.value, epoch, nowMs, input.queuedAccepted)
    && nowMs > s.updatedAt && nowMs >= 0 && epoch >= 0
  }

  lemma FailureAssessed(cfg: Config, s: EngineState, input: TickInput, epoch: int, nowMs: int)
    requires ContinuesSession(s, input) && FailureInput(s, input, epoch, nowMs)
    ensures var a := Assess(cfg, Some(s), input);
            && a.classification == FailureClassification() && a.action.NotifyUser? && a.terminal.None?
            && a.state.unavailability.None? && a.state.semantic == s.semantic
            && ReportIdentity(a.state, a, input, None) == FailureIdentity(s.session.value, epoch)
  {
    hide RecentStarts;
  }

  lemma FailureTicks(cfg: Config, s: EngineState, input: TickInput, epoch: int, nowMs: int)
    requires StoreAcceptance.Accepts(cfg, s)
    requires ContinuesSession(s, input) && FailureInput(s, input, epoch, nowMs)
    ensures Tick(cfg, Some(s), input).Some?
  {
    hide Assess, SafePhases, Finish, Stored, S.ValidState, C.NextState, GoodQueue, StoreAcceptance.AcceptsTimers,
      StoreAcceptance.AcceptsIncidents, StoreAcceptance.GenuineBoundary;
    FailureAssessed(cfg, s, input, epoch, nowMs);
  }

  /** The store accepts every write of such a tick: it observes no workflow and no phase. */
  lemma FailureAccepted(cfg: Config, s: EngineState, input: TickInput, epoch: int, nowMs: int)
    requires StoreAcceptance.Accepts(cfg, s)
    requires ContinuesSession(s, input) && FailureInput(s, input, epoch, nowMs)
    ensures var log := Steps(cfg, Some(s), input);
      && log != [] && log[|log| - 1].Persist? && StoreAcceptance.Accepts(cfg, log[|log| - 1].written)
  {
    hide Tick, Steps, StoreAcceptance.Accepts, StoreAcceptance.NamesIncident;
    FailureTicks(cfg, s, input, epoch, nowMs);
    StoreAcceptance.TickWritesAccepted(cfg, Some(s), input);
  }

  lemma FailureLosesSlot(cfg: Config, s: EngineState, input: TickInput, epoch: int, nowMs: int, key: Key)
    requires Queued(s) && s.notification.Some? && |s.backlog| >= P.NOTIFICATION_BACKLOG_LIMIT && !LiveSummary(s.backlog)
    requires ContinuesSession(s, input) && FailureInput(s, input, epoch, nowMs) && !input.queuedAccepted
    requires key == s.notification.value.key || key == OverflowKey
    requires ReportKey(FailureIdentity(s.session.value, epoch), P.MonitorStorageUnavailable, P.DiskFull) !=
             s.notification.value.key
    requires Tick(cfg, Some(s), input).Some?
    ensures var log := Steps(cfg, Some(s), input);
            && log != [] && log[|log| - 1].Persist?
            && !Present(log[|log| - 1].written, key) && NobodyTold(log)
  {
    hide Assess, Semantic, GoodQueue, Finish, Tick, Steps, Holds, LiveSummary, ContinuesSession, Stored, Promoted,
      SubmitCurrent, ReportQueued, ReportIdentity, FailureIdentity, ReportOutcome;
    var disk := Some(s);
    var a := Assess(cfg, disk, input);
    FailureAssessed(cfg, s, input, epoch, nowMs);
    SessionQueue(cfg, s, input);
    TickUnfolds(cfg, disk, input);
    var semantic := Semantic(cfg, disk, input).value;
    var raised := ReportKey(FailureIdentity(s.session.value, epoch), P.MonitorStorageUnavailable, P.DiskFull);
    var hold := input.session.keepAwakeOnAc && input.onAc && P.ActiveWorkflow(a.classification.state);
    var m := Emit(Memory(a.state, []), SetAwake(hold));
    var promoted := Memory(Promoted(m.state, raised, FailureClassification()), m.log);
    RaisingDropsHere(s, a.state, raised, key);
    RefusedCurrent(cfg, promoted, nowMs, nowMs);
    var reported := Report(cfg, Act(cfg, m, a, input), a, input);
    RefusedQueued(cfg, reported, input, key);
    var after := Phases(cfg, a, semantic, input);
    FinishQueue(cfg, a, semantic, input, after);
  }

  lemma RaisingDropsHere(s: EngineState, t: EngineState, raised: Key, key: Key)
    requires Queued(s) && t.backlog == s.backlog && t.notification == s.notification
    requires s.notification.Some? && s.notification.value.key != raised
    requires |s.backlog| >= P.NOTIFICATION_BACKLOG_LIMIT && !LiveSummary(s.backlog)
    requires key == s.notification.value.key || key == OverflowKey
    ensures var after := Promoted(t, raised, FailureClassification());
            !Holds(after.backlog, key) && LookupKey(after, raised)
  {
    hide GoodQueue, LiveSummary, Holds, Promoted;
    RaisingDrops(t, raised, FailureClassification(), key);
  }

  /** A state file the store accepts, of a session it is still current for. */
  predicate Current(cfg: Config, s: EngineState) {
    && StoreAcceptance.Accepts(cfg, s)
    && s.session.Some? && s.updatedAt >= s.session.value.configuredAt
    && (s.workflow.Some? ==> s.workflow.value == s.session.value.workflow)
  }

  /** The exact condition for the report in the slot: some tick of the session loses it silently,
      while it is unaccepted, if and only if the backlog is full and the overflow summary in it has
      already been accepted. A completed tick never leaves such a state behind. */
  lemma LossExactly(cfg: Config, s: EngineState)
    requires Current(cfg, s)
    requires s.notification.Some? && !s.notification.value.outcome.Accepted?
    ensures (exists input: TickInput :: input.nowMs >= 0 && ContinuesSession(s, input)
                             && LostSilently(cfg, s, input, s.notification.value.key))
            <==> |s.backlog| >= P.NOTIFICATION_BACKLOG_LIMIT && !LiveSummary(s.backlog)
  {
    hide LostSilently, ContinuesSession, LiveSummary, StorageFailure, StoreAcceptance.Accepts;
    var key := s.notification.value.key;
    if |s.backlog| >= P.NOTIFICATION_BACKLOG_LIMIT && !LiveSummary(s.backlog) {
      SomethingLost(cfg, s, if s.updatedAt >= 0 then s.updatedAt + 1 else 0);
    } else {
      StoreAcceptance.AcceptedQueue(cfg, Some(s));
      forall input: TickInput | input.nowMs >= 0 && ContinuesSession(s, input)
        ensures !LostSilently(cfg, s, input, key)
      {
        if LiveSummary(s.backlog) { NothingLost(cfg, s, input, key); } else { RoomLosesNothing(cfg, s, input); }
      }
    }
  }

  // ---- a backlog with room --------------------------------------------

  /** The report was told, is held in the backlog, or is in the slot and would fit the backlog. */
  predicate HasPlace(m: Memory, key: Key) {
    Told(m.log, key) || Holds(m.state.backlog, key) || InSlotWithRoom(m.state, key)
  }

  predicate InSlotWithRoom(s: EngineState, key: Key) {
    && s.notification.Some? && s.notification.value.key == key && !s.notification.value.outcome.Accepted?
    && |s.backlog| < P.NOTIFICATION_BACKLOG_LIMIT
  }

  predicate Remains(m: Memory, key: Key) {
    Told(m.log, key) || Present(m.state, key)
  }

  lemma SubmitCurrentRemains(cfg: Config, m: Memory, nowMs: int, wallMs: int, accepted: bool, key: Key)
    requires m.state.notification.Some? && Remains(m, key)
    ensures var after := SubmitCurrent(cfg, m, nowMs, wallMs, accepted);
      && Remains(after, key) && after.state.backlog == m.state.backlog
      && (Told(m.log, key) ==> Told(after.log, key))
      && (InSlotWithRoom(m.state, key) ==> Told(after.log, key) || InSlotWithRoom(after.state, key))
  {
    hide Holds, Submits, Stored, Reopened, Dispatched, Resolved;
    var r := m.state.notification.value;
    var log := SubmitCurrent(cfg, m, nowMs, wallMs, accepted).log;
    if Submits(r, nowMs) {
      SubmissionOutcome(r, nowMs, wallMs, accepted);
      assert log[|m.log| + 1] == Submit(r.key, accepted);
    } else if !r.outcome.Accepted? {
      ReopenedKey(r, nowMs);
    }
    assert Told(m.log, key) ==> Told(log, key) by { assert forall step :: step in m.log ==> step in log; }
  }

  /** Another report that takes the slot finds room for the displaced one. */
  lemma PromotedHasPlace(s: EngineState, raised: Key, c: P.Classification, key: Key)
    requires Queued(s) && (Holds(s.backlog, key) || InSlotWithRoom(s, key))
    ensures var t := Promoted(s, raised, c);
      && Present(t, key)
      && (InSlotWithRoom(s, key) ==> Holds(t.backlog, key) || InSlotWithRoom(t, key))
  {
    hide ValidReceipt, HasOverflow, WithoutKey, Lookup, Holds;
    if !(s.notification.Some? && s.notification.value.key == raised) {
      var retained := Retain(s.backlog, s.notification);
      RetainKeeps(s.notification, s.backlog);
      HoldsInLonger(s.backlog, retained, key);
      if InSlotWithRoom(s, key) { HeldWithRoom(s.notification, s.backlog); }
      WithoutKeyHolds(retained, raised, key);
      if raised == key { LookupHolds(s.notification, s.backlog, key); }
    }
  }

  lemma HeldWithRoom(notification: Option<Receipt>, backlog: seq<Receipt>)
    requires notification.Some? && !notification.value.outcome.Accepted? && !HasKey(backlog, notification.value.key)
    requires |backlog| < P.NOTIFICATION_BACKLOG_LIMIT
    ensures Holds(Retain(backlog, notification), notification.value.key)
  {
    assert Retain(backlog, notification)[|backlog|] == notification.value;
  }

  lemma PromotedFillsSlot(s: EngineState, raised: Key, c: P.Classification)
    ensures Promoted(s, raised, c).notification.Some?
  {
  }

  lemma NotifyHasPlace(cfg: Config, m: Memory, c: P.Classification, identity: Identity, nowMs: int, wallMs: int,
                       accepted: bool, key: Key)
    requires Queued(m.state) && HasPlace(m, key)
    ensures var after := Notify(cfg, m, c, identity, nowMs, wallMs, accepted);
      Remains(after, key) && (Told(m.log, key) || InSlotWithRoom(m.state, key) ==> HasPlace(after, key))
  {
    hide GoodQueue, Promoted, SubmitCurrent, Holds, Told, InSlotWithRoom;
    var raised := ReportKey(identity, c.reason, c.state);
    var promoted := Memory(Promoted(m.state, raised, c), m.log);
    PromotedFillsSlot(m.state, raised, c);
    if !Told(m.log, key) { PromotedHasPlace(m.state, raised, c, key); }
    SubmitCurrentRemains(cfg, promoted, nowMs, wallMs, accepted, key);
  }

  lemma ReportHasPlace(cfg: Config, acted: Acted, a: Assessment, input: TickInput, key: Key)
    requires Queued(acted.memory.state) && InSlotWithRoom(acted.memory.state, key)
    ensures HasPlace(Report(cfg, acted, a, input), key)
  {
    hide Notify, SubmitCurrent, ReportOutcome, ReportIdentity, GoodQueue, Holds, Told;
    var m := acted.memory;
    if acted.report && acted.classification.humanRequired {
      NotifyHasPlace(cfg, m, acted.classification, ReportIdentity(m.state, a, input, None),
                     input.nowMs, input.reportWallMs, input.reportAccepted, key);
    } else {
      SubmitCurrentRemains(cfg, m, input.nowMs, input.reportWallMs, input.reportAccepted, key);
    }
  }

  lemma ReportSemanticRemains(cfg: Config, m: Memory, c: P.Classification, a: Assessment, semantic: S.State,
                              input: TickInput, key: Key)
    requires Queued(m.state) && HasPlace(m, key)
    ensures Remains(ReportSemantic(cfg, m, c, a, semantic, input), key)
  {
    hide Notify, ReportIdentity, GoodQueue, SemanticKeys, Holds, Told;
    if ReportsSemantic(c, a, semantic) {
      NotifyHasPlace(cfg, m, SemanticReport(c, semantic), ReportIdentity(m.state, a, input, semantic.incidentKey),
                     input.nowMs, input.semanticWallMs, input.semanticAccepted, key);
    }
  }

  lemma SubmitLastRemains(cfg: Config, m: Memory, nowMs: int, wallMs: int, accepted: bool, key: Key)
    requires |m.state.backlog| > 0 && Remains(m, key)
    ensures Remains(SubmitLast(cfg, m, nowMs, wallMs, accepted), key)
  {
    hide Stored, Submits, Reopened, Dispatched, Resolved, Holds;
    var last := |m.state.backlog| - 1;
    var r := m.state.backlog[last];
    var after := SubmitLast(cfg, m, nowMs, wallMs, accepted);
    if Submits(r, nowMs) {
      var outcome := Resolved(Dispatched(r, nowMs, wallMs), nowMs, accepted);
      SubmissionOutcome(r, nowMs, wallMs, accepted);
      ReplacedHolds(m.state.backlog, last, outcome, key);
      assert after.state.backlog == m.state.backlog[last := outcome];
      assert after.log[|m.log| + 1] == Submit(r.key, accepted);
    } else {
      ReopenedKey(r, nowMs);
      assert r == Reopened(r, nowMs) ==> after.state.backlog == m.state.backlog;
      ReplacedHolds(m.state.backlog, last, Reopened(r, nowMs), key);
    }
    assert Told(m.log, key) ==> Told(after.log, key) by { assert forall step :: step in m.log ==> step in after.log; }
  }

  lemma ReopenedKey(r: Receipt, nowMs: int)
    ensures Reopened(r, nowMs).key == r.key && (!r.outcome.Accepted? ==> Reopened(r, nowMs) == r)
    ensures Reopened(r, nowMs).outcome.Accepted? ==> Reopened(r, nowMs) == r
  {
  }

  lemma ReportQueuedRemains(cfg: Config, m: Memory, input: TickInput, key: Key)
    requires Remains(m, key)
    ensures Remains(ReportQueued(cfg, m, input), key)
  {
    hide SubmitLast, Rotated, FirstDue, WithoutAccepted, Told, Holds;
    var now, submitted := input.nowMs, m;
    if FirstDue(m.state.backlog, now) < |m.state.backlog| {
      RotatedHolds(m.state.backlog, now, key);
      var rotated := Memory(m.state.(backlog := Rotated(m.state.backlog, now)), m.log);
      submitted := SubmitLast(cfg, rotated, now, input.queuedWallMs, input.queuedAccepted);
      SubmitLastRemains(cfg, rotated, now, input.queuedWallMs, input.queuedAccepted, key);
    }
    WithoutAcceptedHolds(submitted.state.backlog, key);
  }

  lemma SafePhasesRemain(cfg: Config, m: Memory, a: Assessment, semantic: S.State, input: TickInput, key: Key)
    requires m.state == a.state && Queued(m.state) && input.nowMs >= 0 && InSlotWithRoom(m.state, key)
    requires a.classification == UnresolvedTerminal() || a.classification == P.Classify(a.observation)
    ensures Remains(SafePhases(cfg, m, a, semantic, input).memory, key)
  {
    hide Act, Report, ReportSemantic, ReportQueued, GoodQueue, HasPlace, Remains;
    var acted := Act(cfg, m, a, input);
    ActShape(cfg, m, a, input);
    QueuedPhases(cfg, m, a, semantic, input);
    ReportHasPlace(cfg, acted, a, input, key);
    var reported := Report(cfg, acted, a, input);
    ReportSemanticRemains(cfg, reported, acted.classification, a, semantic, input, key);
    ReportQueuedRemains(cfg, ReportSemantic(cfg, reported, acted.classification, a, semantic, input), input, key);
  }

  /** A backlog with room loses nothing that is in the slot, whatever summary it holds. */
  lemma RoomLosesNothing(cfg: Config, s: EngineState, input: TickInput)
    requires Queued(s) && ContinuesSession(s, input) && input.nowMs >= 0
    requires s.notification.Some? && InSlotWithRoom(s, s.notification.value.key)
    ensures !LostSilently(cfg, s, input, s.notification.value.key)
  {
    hide Assess, Semantic, GoodQueue, Finish, Tick, Steps, SafePhases, Holds, ContinuesSession, Stored, SetAction, Told,
      StoreAcceptance.Accepts;
    var disk, key := Some(s), s.notification.value.key;
    if Tick(cfg, disk, input).Some? {
      var a := Assess(cfg, disk, input);
      SessionQueue(cfg, s, input);
      LoadedQueue(cfg, disk, input);
      AssessClassifies(cfg, disk, input);
      TickUnfolds(cfg, disk, input);
      var semantic := Semantic(cfg, disk, input).value;
      var hold := input.session.keepAwakeOnAc && input.onAc && P.ActiveWorkflow(a.classification.state);
      var m := Emit(Memory(a.state, []), SetAwake(hold));
      if input.session.safeMode {
        SafePhasesRemain(cfg, m, a, semantic, input, key);
      } else {
        ShadowKeepsQueue(m, a, input);
      }
      var after := Phases(cfg, a, semantic, input);
      FinishQueue(cfg, a, semantic, input, after);
      var log := Steps(cfg, disk, input);
      assert Told(after.memory.log, key) ==> Told(log, key) by {
        ToldStays(after.memory.log, Persist(Concluded(cfg, a, semantic, input)), key);
      }
    }
  }

  lemma ToldStays(log: seq<Step>, step: Step, key: Key)
    ensures Told(log, key) ==> Told(log + [step], key)
  {
  }

  lemma NothingLost(cfg: Config, s: EngineState, input: TickInput, key: Key)
    requires Current(cfg, s) && LiveSummary(s.backlog) && input.nowMs >= 0 && ContinuesSession(s, input)
    ensures !LostSilently(cfg, s, input, key)
  {
    hide Steps, Tick, GoodQueue, Holds, ContinuesSession, LiveSummary, AccountedLog, StoreAcceptance.AcceptsTimers,
      StoreAcceptance.AcceptsIncidents, StoreAcceptance.AcceptsSemantic;
    if LostSilently(cfg, s, input, key) {
      TickConserves(cfg, s, input, key);
      var log := Steps(cfg, Some(s), input);
      WrittenAccounted(log, log, |log| - 1, key);
    }
  }

  lemma SomethingLost(cfg: Config, s: EngineState, nowMs: int)
    requires Current(cfg, s) && !LiveSummary(s.backlog) && nowMs > s.updatedAt && nowMs >= 0
    requires s.notification.Some? && !s.notification.value.outcome.Accepted?
    requires |s.backlog| >= P.NOTIFICATION_BACKLOG_LIMIT
    ensures exists input: TickInput :: input.nowMs == nowMs && ContinuesSession(s, input)
                            && LostSilently(cfg, s, input, s.notification.value.key)
  {
    hide Steps, Tick, LiveSummary, Holds, GoodQueue, StoreAcceptance.AcceptsTimers, StoreAcceptance.AcceptsIncidents,
      StoreAcceptance.AcceptsSemantic;
    var key := s.notification.value.key;
    var taken := ReportKey(FailureIdentity(s.session.value, 0), P.MonitorStorageUnavailable, P.DiskFull);
    var epoch := if key == taken then 1 else 0;
    var input := StorageFailure(s.session.value, epoch, nowMs, false);
    assert ContinuesSession(s, input);
    FailureTicks(cfg, s, input, epoch, nowMs);
    FailureAccepted(cfg, s, input, epoch, nowMs);
    FailureLosesSlot(cfg, s, input, epoch, nowMs, key);
    FailureLosesSlot(cfg, s, input, epoch, nowMs, OverflowKey);
    var log := Steps(cfg, Some(s), input);
    NobodyToldAny(log, key);
    NobodyToldAny(log, OverflowKey);
    assert LostSilently(cfg, s, input, key);
  }

  lemma NobodyToldAny(log: seq<Step>, key: Key)
    requires NobodyTold(log)
    ensures !Told(log, key)
  {
  }

  // ---- where that state comes from ------------------------------------

  predicate NoSummarySubmitted(log: seq<Step>) {
    forall i :: 0 <= i < |log| && log[i].Submit? ==> log[i].key != OverflowKey
  }

  lemma SlotIsNoSummary(cfg: Config, m: Memory, nowMs: int, wallMs: int, accepted: bool)
    requires Queued(m.state) && m.state.notification.Some? && NoSummarySubmitted(m.log)
    ensures NoSummarySubmitted(SubmitCurrent(cfg, m, nowMs, wallMs, accepted).log)
  {
    hide Submits, Stored, ValidQueue, Reopened, Dispatched, Resolved;
  }

  lemma NotifySubmitsNoSummary(cfg: Config, m: Memory, c: P.Classification, identity: Identity, nowMs: int, wallMs: int,
                               accepted: bool)
    requires Queued(m.state) && Reportable(c) && NoSummarySubmitted(m.log)
    ensures NoSummarySubmitted(Notify(cfg, m, c, identity, nowMs, wallMs, accepted).log)
  {
    hide GoodQueue, Promoted, SubmitCurrent, NoSummarySubmitted, Reportable;
    PromotedKeeps(m.state, ReportKey(identity, c.reason, c.state), c);
    SlotIsNoSummary(cfg, Memory(Promoted(m.state, ReportKey(identity, c.reason, c.state), c), m.log), nowMs, wallMs,
                    accepted);
  }

  /** Before the queue phase of a tick no summary is submitted. */
  lemma PhasesSubmitNoSummary(cfg: Config, m: Memory, a: Assessment, semantic: S.State, input: TickInput)
    requires m.state == a.state && |m.log| == 1 && m.log[0].SetAwake? && Queued(m.state) && input.nowMs >= 0
    requires a.classification == UnresolvedTerminal() || a.classification == P.Classify(a.observation)
    ensures var acted := Act(cfg, m, a, input);
            NoSummarySubmitted(
              ReportSemantic(cfg, Report(cfg, acted, a, input), acted.classification, a, semantic, input).log)
  {
    hide Act, Notify, SubmitCurrent, ReportOutcome, ReportIdentity, GoodQueue, SemanticKeys, Concludes, Stored;
    var acted := Act(cfg, m, a, input);
    ActEffects(cfg, m, a, input);
    ActShape(cfg, m, a, input);
    assert NoSummarySubmitted(acted.memory.log);
    QueuedPhases(cfg, m, a, semantic, input);
    if acted.classification.humanRequired { ReportsAreAllowed(a, acted.classification); }
    hide NoSummarySubmitted;
    var reported := Report(cfg, acted, a, input);
    if acted.report && acted.classification.humanRequired {
      NotifySubmitsNoSummary(cfg, acted.memory, acted.classification,
                             ReportIdentity(acted.memory.state, a, input, None), input.nowMs,
                             input.reportWallMs, input.reportAccepted);
    } else if acted.memory.state.notification.Some? && !acted.memory.state.notification.value.outcome.Accepted? {
      SlotIsNoSummary(cfg, acted.memory, input.nowMs, input.reportWallMs, input.reportAccepted);
    }
    if ReportsSemantic(acted.classification, a, semantic) {
      NotifySubmitsNoSummary(cfg, reported, SemanticReport(acted.classification, semantic),
                             ReportIdentity(reported.state, a, input, semantic.incidentKey),
                             input.nowMs, input.semanticWallMs, input.semanticAccepted);
    }
  }

  /** Accepting a summary in the queue phase ends with the write of that acceptance. */
  lemma AcceptedSummaryWritten(cfg: Config, m: Memory, input: TickInput)
    requires NoSummarySubmitted(m.log) && Told(ReportQueued(cfg, m, input).log, OverflowKey)
    ensures var log := ReportQueued(cfg, m, input).log;
            log != [] && log[|log| - 1].Persist? && !LiveSummary(log[|log| - 1].written.backlog)
  {
    hide FirstDue, Rotated, Submits, Reopened, Dispatched, Resolved, WithoutAccepted;
    var now := input.nowMs;
    assert !Told(m.log, OverflowKey);
    var rotated := Memory(m.state.(backlog := Rotated(m.state.backlog, now)), m.log);
    var last := |rotated.state.backlog| - 1;
    var r := rotated.state.backlog[last];
    SubmissionOutcome(r, now, input.queuedWallMs, input.queuedAccepted);
    var log := SubmitLast(cfg, rotated, now, input.queuedWallMs, input.queuedAccepted).log;
    assert Submit(r.key, input.queuedAccepted) in log && r.key == OverflowKey && input.queuedAccepted;
    assert log[|log| - 1].written.backlog[last].key == OverflowKey;
  }

  /** The crash: a tick that has an overflow summary accepted and is cut right before its last
      write leaves the accepted summary in the backlog. */
  lemma CrashKeepsAcceptedSummary(cfg: Config, s: EngineState, input: TickInput)
    requires Queued(s) && input.nowMs >= 0 && input.session.safeMode
    requires Tick(cfg, Some(s), input).Some? && Told(Steps(cfg, Some(s), input), OverflowKey)
    ensures var e := Event(input, |Steps(cfg, Some(s), input)| - 1);
            var after := After(cfg, Some(s), e);
            && !Completed(cfg, Some(s), e)
            && after.Some? && Queued(after.value) && !LiveSummary(after.value.backlog)
  {
    hide Assess, Semantic, GoodQueue, Finish, Tick, Steps, Holds, LiveSummary, Stored, Act, Report, ReportSemantic,
      ReportQueued, DiskAfter, StartsIn, NoSummarySubmitted;
    var disk := Some(s);
    var a := Assess(cfg, disk, input);
    LoadedQueue(cfg, disk, input);
    AssessClassifies(cfg, disk, input);
    TickUnfolds(cfg, disk, input);
    var semantic := Semantic(cfg, disk, input).value;
    var hold := input.session.keepAwakeOnAc && input.onAc && P.ActiveWorkflow(a.classification.state);
    var m := Emit(Memory(a.state, []), SetAwake(hold));
    PhasesSubmitNoSummary(cfg, m, a, semantic, input);
    var acted := Act(cfg, m, a, input);
    var stalled := ReportSemantic(cfg, Report(cfg, acted, a, input), acted.classification, a, semantic, input);
    var log := ReportQueued(cfg, stalled, input).log;
    var steps := Steps(cfg, disk, input);
    assert steps == log + [Persist(Concluded(cfg, a, semantic, input))];
    assert steps[..|steps| - 1] == log;
    AcceptedSummaryWritten(cfg, stalled, input);
    var e := Event(input, |steps| - 1);
    EventShape(cfg, disk, e);
    var i := LastWrite(disk, log);
  }

  // ---- a run that loses a report -------------------------------------------

  /** A broker epoch that no retained report names. */
  function EpochAbove(backlog: seq<Receipt>): nat {
    if backlog == [] then 0
    else
      var later, here := EpochAbove(backlog[1..]), EpochOf(backlog[0].key) + 1;
      if here > later then here else later
  }

  function EpochOf(key: Key): nat {
    if key.ReportKey? && key.identity.brokerEpoch.Some? && key.identity.brokerEpoch.value >= 0
    then key.identity.brokerEpoch.value else 0
  }

  function FailureKey(session: SessionId, epoch: int): Key {
    ReportKey(FailureIdentity(session, epoch), P.MonitorStorageUnavailable, P.DiskFull)
  }

  lemma {:induction false} EpochIsFresh(backlog: seq<Receipt>, session: SessionId, epoch: nat)
    requires epoch >= EpochAbove(backlog)
    ensures !HasKey(backlog, FailureKey(session, epoch))
  {
    if backlog != [] {
      EpochIsFresh(backlog[1..], session, epoch);
      assert forall i :: 0 < i < |backlog| ==> backlog[i] == backlog[1..][i - 1];
    }
  }

  /** A new report takes the slot of a full queue and leaves the backlog as it is. */
  lemma FullBacklogStays(s: EngineState, raised: Key, c: P.Classification)
    requires |s.backlog| >= P.NOTIFICATION_BACKLOG_LIMIT && HasOverflow(s.backlog) && !HasKey(s.backlog, raised)
    requires s.notification.Some? ==> s.notification.value.key != raised
    ensures var t := Promoted(s, raised, c);
      t.backlog == s.backlog && t.notification == Some(NewReport(raised, c.reason, c.state))
  {
    WithoutAbsentKey(s.backlog, raised);
    LookupFinds(s.backlog, raised);
  }

  /** A summary that is first due and heard is written down as accepted before the tick ends. */
  lemma HeardSummaryWritten(cfg: Config, m: Memory, input: TickInput)
    requires var i := FirstDue(m.state.backlog, input.nowMs);
      i < |m.state.backlog| && m.state.backlog[i].key.OverflowKey? && input.queuedAccepted
    ensures var log := ReportQueued(cfg, m, input).log;
      && log != [] && log[|log| - 1].Persist? && Told(log, OverflowKey)
      && var w := log[|log| - 1].written;
         w.notification == m.state.notification && |w.backlog| == |m.state.backlog| && !LiveSummary(w.backlog)
    ensures forall key: Key :: !key.OverflowKey? && !Told(m.log, key) ==> !Told(ReportQueued(cfg, m, input).log, key)
  {
    hide FirstDue, Rotated, WithoutAccepted, Reopened, Dispatched, Resolved;
    var now, last := input.nowMs, |m.state.backlog| - 1;
    RotatedAt(m.state.backlog, now, FirstDue(m.state.backlog, now));
    var rotated := Memory(m.state.(backlog := Rotated(m.state.backlog, now)), m.log);
    var r := rotated.state.backlog[last];
    assert Due(r, now) && Submits(r, now);
    SubmissionOutcome(r, now, input.queuedWallMs, true);
    var log := SubmitLast(cfg, rotated, now, input.queuedWallMs, true).log;
    assert log[|log| - 2] == Submit(r.key, true) && r.key == OverflowKey;
    assert log[|log| - 1].written.backlog[last].key == OverflowKey;
  }

  lemma RefusedNewReport(cfg: Config, m: Memory, nowMs: int)
    requires m.state.notification.Some? && m.state.notification.value.outcome.Pending?
             && m.state.notification.value.retryAt.None?
    ensures var after := SubmitCurrent(cfg, m, nowMs, nowMs, false);
      && after.state.backlog == m.state.backlog && after.state.notification.Some?
      && after.state.notification.value.key == m.state.notification.value.key
      && after.state.notification.value.outcome.Failed?
      && (NobodyTold(m.log) ==> NobodyTold(after.log))
  {
    hide Stored;
  }

  /** The first tick: its own report is refused and keeps the slot, the summary is heard, and the cut
      before the last write leaves both on disk. */
  lemma HeardAndCut(cfg: Config, s: EngineState, input: TickInput, epoch: int, nowMs: int)
    requires Current(cfg, s) && |s.backlog| >= P.NOTIFICATION_BACKLOG_LIMIT
    requires ContinuesSession(s, input) && FailureInput(s, input, epoch, nowMs) && input.queuedAccepted
    requires !HasKey(s.backlog, FailureKey(s.session.value, epoch))
    requires s.notification.Some? ==> s.notification.value.key != FailureKey(s.session.value, epoch)
    requires var i := FirstDue(s.backlog, nowMs); i < |s.backlog| && s.backlog[i].key.OverflowKey?
    ensures Steps(cfg, Some(s), input) != []
    ensures var cut := Event(input, |Steps(cfg, Some(s), input)| - 1);
      var log, after := Executed(cfg, Some(s), cut), After(cfg, Some(s), cut);
      && Told(log, OverflowKey) && !Told(log, FailureKey(s.session.value, epoch))
      && after.Some? && after.value.notification.Some?
      && after.value.notification.value.key == FailureKey(s.session.value, epoch)
      && !after.value.notification.value.outcome.Accepted?
      && |after.value.backlog| == |s.backlog| && !LiveSummary(after.value.backlog)
  {
    hide Assess, Semantic, GoodQueue, Finish, Tick, Steps, Holds, LiveSummary, ContinuesSession, Stored, Promoted,
      SubmitCurrent, ReportQueued, ReportIdentity, FailureIdentity, ReportOutcome, FirstDue, HasKey, HasOverflow, Told,
      StoreAcceptance.AcceptsTimers, StoreAcceptance.AcceptsIncidents, StoreAcceptance.AcceptsSemantic,
      StoreAcceptance.AcceptsIdentity;
    var disk := Some(s);
    var a := Assess(cfg, disk, input);
    FailureTicks(cfg, s, input, epoch, nowMs);
    FailureAssessed(cfg, s, input, epoch, nowMs);
    SessionQueue(cfg, s, input);
    TickUnfolds(cfg, disk, input);
    var semantic := Semantic(cfg, disk, input).value;
    var raised := FailureKey(s.session.value, epoch);
    var hold := input.session.keepAwakeOnAc && input.onAc && P.ActiveWorkflow(a.classification.state);
    var m := Emit(Memory(a.state, []), SetAwake(hold));
    SummaryIsOverflow(s, nowMs);
    FullBacklogStays(a.state, raised, FailureClassification());
    var promoted := Memory(Promoted(m.state, raised, FailureClassification()), m.log);
    RefusedNewReport(cfg, promoted, nowMs);
    NobodyToldAny(SubmitCurrent(cfg, promoted, nowMs, nowMs, false).log, raised);
    var reported := Report(cfg, Act(cfg, m, a, input), a, input);
    assert reported.state.backlog == s.backlog;
    HeardSummaryWritten(cfg, reported, input);
    var log := ReportQueued(cfg, reported, input).log;
    var steps := Steps(cfg, disk, input);
    assert steps == log + [Persist(Concluded(cfg, a, semantic, input))];
    assert steps[..|steps| - 1] == log;
  }

  lemma SummaryIsOverflow(s: EngineState, nowMs: int)
    requires Queued(s)
    requires var i := FirstDue(s.backlog, nowMs); i < |s.backlog| && s.backlog[i].key.OverflowKey?
    ensures HasOverflow(s.backlog)
  {
    hide ValidReceipt, FirstDue;
    var i := FirstDue(s.backlog, nowMs);
    assert Faithful(s.backlog[i]);
  }

  /** The state the cut tick leaves is one the store accepts and the session continues from. */
  lemma CutStaysCurrent(cfg: Config, s: EngineState, input: TickInput, epoch: int, nowMs: int, survived: nat)
    requires Current(cfg, s) && ContinuesSession(s, input) && FailureInput(s, input, epoch, nowMs)
    requires survived < |Steps(cfg, Some(s), input)|
    ensures var after := After(cfg, Some(s), Event(input, survived));
            && after.Some? && Current(cfg, after.value)
            && after.value.updatedAt == s.updatedAt && after.value.session == s.session
  {
    hide Assess, Tick, Steps, GoodQueue, DiskAfter, Executed, StoreAcceptance.Accepts, StoreAcceptance.WritesAccepted,
      Wrote;
    var disk, e := Some(s), Event(input, survived);
    StoreAcceptance.EventAccepted(cfg, disk, e);
    StoreAcceptance.AcceptedQueue(cfg, disk);
    EventShape(cfg, disk, e);
    SessionQueue(cfg, s, input);
  }

  /** A report is lost. From any current state whose backlog is full and whose unaccepted overflow
      summary is first due, a tick that reports a storage failure and has the summary heard, cut
      before its last write, and one more tick of the session, which the store accepts to its end,
      leave no trace of the storage report: it was unaccepted in the slot, neither tick told anyone
      of it, and no overflow was told by the tick that drops it. */
  lemma CrashLosesReport(cfg: Config, s: EngineState, nowMs: int)
    returns (first: TickInput, second: TickInput, crashed: EngineState, key: Key)
    requires Current(cfg, s) && |s.backlog| >= P.NOTIFICATION_BACKLOG_LIMIT && nowMs > s.updatedAt && nowMs >= 0
    requires var i := FirstDue(s.backlog, nowMs); i < |s.backlog| && s.backlog[i].key.OverflowKey?
    ensures ContinuesSession(s, first) && first.nowMs == nowMs && Steps(cfg, Some(s), first) != []
    ensures var cut := Event(first, |Steps(cfg, Some(s), first)| - 1);
            After(cfg, Some(s), cut) == Some(crashed) && !Told(Executed(cfg, Some(s), cut), key)
    ensures Current(cfg, crashed) && ContinuesSession(crashed, second) && second.nowMs == nowMs + 1
    ensures !Present(s, key) && crashed.notification.Some? && crashed.notification.value.key == key
    ensures LostSilently(cfg, crashed, second, key)
  {
    hide Tick, Steps, LiveSummary, Holds, FirstDue, HasKey, EpochAbove, StorageFailure, ContinuesSession, LostSilently,
      StoreAcceptance.Accepts, DiskAfter;
    var slot := if s.notification.Some? then [s.notification.value] else [];
    var e, f := EpochAbove(s.backlog), EpochAbove(slot);
    var epoch := if e > f then e else f;
    key := FailureKey(s.session.value, epoch);
    EpochIsFresh(s.backlog, s.session.value, epoch);
    EpochIsFresh(slot, s.session.value, epoch);
    AbsentIsNotPresent(s, slot, key);
    first := StorageFailure(s.session.value, epoch, nowMs, true);
    FailureContinues(s, epoch, nowMs);
    HeardAndCut(cfg, s, first, epoch, nowMs);
    CutStaysCurrent(cfg, s, first, epoch, nowMs, |Steps(cfg, Some(s), first)| - 1);
    var event := Event(first, |Steps(cfg, Some(s), first)| - 1);
    crashed := After(cfg, Some(s), event).value;
    SomethingLost(cfg, crashed, nowMs + 1);
    second :| second.nowMs == nowMs + 1 && ContinuesSession(crashed, second) && LostSilently(cfg, crashed, second, key);
  }

  lemma FailureContinues(s: EngineState, epoch: int, nowMs: int)
    requires s.session.Some? && s.updatedAt >= s.session.value.configuredAt
    requires s.workflow.Some? ==> s.workflow.value == s.session.value.workflow
    requires nowMs > s.updatedAt && nowMs >= 0 && epoch >= 0
    ensures var input := StorageFailure(s.session.value, epoch, nowMs, true);
      && ContinuesSession(s, input) && FailureInput(s, input, epoch, nowMs) && input.queuedAccepted
      && input.nowMs == nowMs
  {
  }

  lemma AbsentIsNotPresent(s: EngineState, slot: seq<Receipt>, key: Key)
    requires slot == if s.notification.Some? then [s.notification.value] else []
    requires !HasKey(s.backlog, key) && !HasKey(slot, key)
    ensures !Present(s, key) && (s.notification.Some? ==> s.notification.value.key != key)
  {
    assert s.notification.Some? ==> slot[0] == s.notification.value;
  }
}
