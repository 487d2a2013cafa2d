/** What a whole tick dispatches and reports, and that the monitor does act: confirmed death starts the
    broker, lasting unavailability and a workflow stalled before its Send are reported
    (src/eagle-monitor-engine.mjs, `tick`). */
module MonitorDispatch {
  import opened Prelude
  import P = MonitorPolicy
  import L = MonitorLadder
  import opened NotificationQueue
  import S = SemanticState
  import C = SemanticClassifier
  import SemanticOutcomes
  import opened MonitorEngine
  import opened MonitorTick
  import opened MonitorRuns
  import opened NotificationFairness
  import MonitorTimers
  import MonitorExactness
  import StartRate

  // ---- the action -----------------------------------------------------

  /** The action was dispatched and succeeded. */
  predicate ActionSucceeds(action: P.Action, input: TickInput) {
    match action
    case StartBroker => input.dispatchRecorded && input.startSucceeds
    case AttachExactWorkflow => input.attachSucceeds
    case ReconcileExactWorkflow => input.dispatchRecorded && input.reconciles
    case _ => true
  }

  /** What the action phase changes and concludes, for each action and each outcome. */
  lemma ActExactly(cfg: Config, m: Memory, a: Assessment, input: TickInput)
    requires m.state == a.state
    ensures var acted, now, works := Act(cfg, m, a, input), input.nowMs, ActionSucceeds(a.action, input);
      var s, t := m.state, acted.memory.state;
      var acts := a.action in {P.StartBroker, P.AttachExactWorkflow, P.ReconcileExactWorkflow};
      && t == s.(lastAction := t.lastAction, recoveryCount := t.recoveryCount, brokerStarts := t.brokerStarts,
                 reconciliation := t.reconciliation)
      && t.recoveryCount == s.recoveryCount + (if a.action in {P.StartBroker, P.ReconcileExactWorkflow} then 1 else 0)
      && t.brokerStarts == (if a.action == P.StartBroker then a.brokerStarts + [now] else s.brokerStarts)
      && t.reconciliation == (if a.action == P.ReconcileExactWorkflow && works then a.terminal else s.reconciliation)
      && (!acts ==> t.lastAction == s.lastAction)
      && (acts ==>
            t.lastAction == Some(LastAction(a.action, now,
              if !works then ActionFailure
              else if a.action == P.ReconcileExactWorkflow then TerminalObserved else Succeeded)))
      && (acted.report <==> !works || a.action in {P.NotifyUser, P.ReconcileExactWorkflow})
      && acted.classification ==
           (if !works then P.Classification(true, P.ActionFailed(a.action), P.HumanRequiredOther)
            else if a.action == P.ReconcileExactWorkflow
            then P.Classification(true, P.TerminalReconciliationUnresolved, P.HumanRequiredOther)
            else a.classification)
  {
    hide Stored;
  }

  predicate OnlyNotifies(log: seq<Step>, from: nat) {
    forall i :: from <= i < |log| ==> log[i].Submit? || log[i].Persist?
  }

  lemma NotifiedOnlyNotifies(cfg: Config, m: Memory, after: Memory)
    requires Notified(cfg, m, after)
    ensures m.log <= after.log && OnlyNotifies(after.log, |m.log|)
  {
    hide SameCore, Queued;
    forall i | |m.log| <= i < |after.log| ensures after.log[i].Submit? || after.log[i].Persist? {
      assert NotifyStep(cfg, m.state, after.log[i]);
    }
  }

  /** After its action a safe-mode tick only submits and writes. */
  lemma PhasesNotify(cfg: Config, m: Memory, a: Assessment, semantic: S.State, input: TickInput)
    requires m.state == a.state && Queued(m.state) && input.nowMs >= 0
    requires a.classification == UnresolvedTerminal() || a.classification == P.Classify(a.observation)
    ensures var acted, log := Act(cfg, m, a, input), SafePhases(cfg, m, a, semantic, input).memory.log;
            acted.memory.log <= log && OnlyNotifies(log, |acted.memory.log|)
  {
    hide Act, Report, ReportSemantic, ReportQueued, GoodQueue, Concludes, Notified, Stored, Reportable;
    var acted := Act(cfg, m, a, input);
    ActShape(cfg, m, a, input);
    if acted.classification.humanRequired { ReportsAreAllowed(a, acted.classification); }
    QueuedPhases(cfg, m, a, semantic, input);
    ReportKeeps(cfg, acted, a, input);
    var reported := Report(cfg, acted, a, input);
    ReportSemanticKeeps(cfg, reported, acted.classification, a, semantic, input);
    var stalled := ReportSemantic(cfg, reported, acted.classification, a, semantic, input);
    ReportQueuedKeeps(cfg, stalled, input);
    var queued := ReportQueued(cfg, stalled, input);
    NotifiedTransitive(cfg, acted.memory, reported, stalled);
    NotifiedTransitive(cfg, acted.memory, stalled, queued);
    NotifiedOnlyNotifies(cfg, acted.memory, queued);
  }

  /** Whether a tick holds the machine awake. */
  predicate HoldsAwake(a: Assessment, input: TickInput) {
    && input.session.keepAwakeOnAc && input.onAc
    && a.classification.state in {P.AmbiguousUnconfirmedDelivery, P.Healthy, P.SendConfirmedCapture,
                                  P.StalledBeforeSend, P.Startup}
  }

  /** Exactly what a tick that ran dispatches: the power action first, then in safe mode its action,
      once and only if the intent of one with process-level authority was written; a shadow tick
      dispatches and submits nothing. */
  lemma DispatchesExactly(cfg: Config, disk: Option<EngineState>, input: TickInput)
    requires Tick(cfg, disk, input).Some? && QueuedDisk(disk) && input.nowMs >= 0
    ensures var log, a, safe := Steps(cfg, disk, input), Assess(cfg, disk, input), input.session.safeMode;
      && |log| > 1 && log[0] == SetAwake(HoldsAwake(a, input))
      && (forall i :: 0 < i < |log| ==> !log[i].SetAwake?)
      && (StartBroker(input.nowMs) in log <==> safe && a.action == P.StartBroker && input.dispatchRecorded)
      && (forall i :: 0 <= i < |log| && log[i].StartBroker? ==> i == 2 && log[i].at == input.nowMs)
      && (ReconcileWorkflow in log <==> safe && a.action == P.ReconcileExactWorkflow && input.dispatchRecorded)
      && (forall i :: 0 <= i < |log| && log[i].ReconcileWorkflow? ==> i == 2)
      && (AttachWorkflow in log <==> safe && a.action == P.AttachExactWorkflow)
      && (forall i :: 0 <= i < |log| && log[i].AttachWorkflow? ==> i == 1)
      && (!safe ==> |log| == 2)
  {
    hide Assess, Semantic, GoodQueue, Finish, Tick, Steps, Stored, Act, SafePhases, Recorded;
    var a := Assess(cfg, disk, input);
    LoadedQueue(cfg, disk, input);
    AssessClassifies(cfg, disk, input);
    TickUnfolds(cfg, disk, input);
    var semantic := Semantic(cfg, disk, input).value;
    L.AllowedExactly(a.classification.state);
    var hold := input.session.keepAwakeOnAc && input.onAc && P.ActiveWorkflow(a.classification.state);
    var m := Emit(Memory(a.state, []), SetAwake(hold));
    if input.session.safeMode {
      ActEffects(cfg, m, a, input);
      PhasesNotify(cfg, m, a, semantic, input);
      TraceOfAct(cfg, m, a, input, SafePhases(cfg, m, a, semantic, input).memory.log,
                 Persist(Concluded(cfg, a, semantic, input)));
    }
  }

  /** The trace of a safe-mode tick, given its action phase. */
  lemma TraceOfAct(cfg: Config, m: Memory, a: Assessment, input: TickInput, log: seq<Step>, last: Step)
    requires |m.log| == 1 && m.log[0].SetAwake? && last.Persist?
    requires var w := Persist(Stored(cfg, Recorded(m, a, input.nowMs).state));
      Act(cfg, m, a, input).memory.log ==
      if a.action.StartBroker? && input.dispatchRecorded then m.log + [w] + [StartBroker(input.nowMs)]
      else if a.action.ReconcileExactWorkflow? && input.dispatchRecorded then m.log + [w] + [ReconcileWorkflow]
      else if a.action.AttachExactWorkflow? then m.log + [AttachWorkflow]
      else m.log
    requires Act(cfg, m, a, input).memory.log <= log && OnlyNotifies(log, |Act(cfg, m, a, input).memory.log|)
    ensures var all := log + [last];
      && |all| > 1 && all[0] == m.log[0]
      && (forall i :: 0 < i < |all| ==> !all[i].SetAwake?)
      && (StartBroker(input.nowMs) in all <==> a.action == P.StartBroker && input.dispatchRecorded)
      && (forall i :: 0 <= i < |all| && all[i].StartBroker? ==> i == 2 && all[i].at == input.nowMs)
      && (ReconcileWorkflow in all <==> a.action == P.ReconcileExactWorkflow && input.dispatchRecorded)
      && (forall i :: 0 <= i < |all| && all[i].ReconcileWorkflow? ==> i == 2)
      && (AttachWorkflow in all <==> a.action == P.AttachExactWorkflow)
      && (forall i :: 0 <= i < |all| && all[i].AttachWorkflow? ==> i == 1)
  {
    hide Act, Stored, Recorded;
    var acted, all := Act(cfg, m, a, input).memory.log, log + [last];
    assert forall i :: 0 <= i < |acted| ==> all[i] == acted[i];
    assert forall i :: |acted| <= i < |all| ==> all[i].Submit? || all[i].Persist?;
    if a.action.StartBroker? && input.dispatchRecorded { assert all[2] == StartBroker(input.nowMs); }
    if a.action.ReconcileExactWorkflow? && input.dispatchRecorded { assert all[2] == ReconcileWorkflow; }
    if a.action.AttachExactWorkflow? { assert all[1] == AttachWorkflow; }
  }

  // ---- reports --------------------------------------------------------

  /** The key under which a tick reports something it has concluded. */
  function IncidentKey(a: Assessment, input: TickInput, reason: P.Reason, state: P.MonitorState,
                       stall: Option<nat>): Key {
    var u := a.state.unavailability;
    ReportKey(
      Identity(SessionId(input.session.workflow, input.session.binding, input.session.configuredAt),
               if u.Some? && u.value.brokerEpoch.Some? then u.value.brokerEpoch else input.broker.epoch,
               if u.Some? then Some(u.value.identity) else None,
               a.terminal, stall),
      reason, state)
  }

  /** The receipt waits: it was accepted and is not yet to be repeated, or was tried and is not yet to
      be tried again. */
  predicate Waiting(r: Receipt, nowMs: int) {
    if r.outcome.Accepted? then r.nextRepeatAt.None? || nowMs < r.nextRepeatAt.value
    else r.retryAt.Some? && nowMs < r.retryAt.value
  }

  /** The report is in the slot, and this tick submitted it or its receipt waits. */
  predicate Reported(log: seq<Step>, s: EngineState, key: Key, nowMs: int, accepted: bool) {
    && s.notification.Some? && s.notification.value.key == key
    && (Submit(key, accepted) in log || Waiting(s.notification.value, nowMs))
  }

  predicate Forgotten(s: EngineState, key: Key) {
    && (s.notification.Some? ==> s.notification.value.key != key)
    && forall i :: 0 <= i < |s.backlog| ==> s.backlog[i].key != key
  }

  lemma SubmitCurrentReports(cfg: Config, m: Memory, nowMs: int, wallMs: int, accepted: bool)
    requires m.state.notification.Some? && ValidReceipt(m.state.notification.value)
    ensures var r, after := m.state.notification.value, SubmitCurrent(cfg, m, nowMs, wallMs, accepted);
      && Reported(after.log, after.state, r.key, nowMs, accepted)
      && m.log <= after.log && after.state.backlog == m.state.backlog
      && (r.outcome.Pending? ==> Submit(r.key, accepted) in after.log)
  {
    hide Stored;
    var r, after := m.state.notification.value, SubmitCurrent(cfg, m, nowMs, wallMs, accepted);
    if Submits(r, nowMs) { assert after.log[|m.log| + 1] == Submit(r.key, accepted); }
  }

  lemma NotifyReports(cfg: Config, m: Memory, c: P.Classification, id: Identity, nowMs: int, wallMs: int,
                      accepted: bool)
    requires Queued(m.state) && Reportable(c)
    ensures var key, after := ReportKey(id, c.reason, c.state), Notify(cfg, m, c, id, nowMs, wallMs, accepted);
      && Reported(after.log, after.state, key, nowMs, accepted) && m.log <= after.log
      && (Forgotten(m.state, key) ==> Submit(key, accepted) in after.log)
  {
    hide Promoted, SubmitCurrent, Retain, ValidReceipt, Reported;
    var key := ReportKey(id, c.reason, c.state);
    PromotedKeeps(m.state, key, c);
    var promoted := Memory(Promoted(m.state, key, c), m.log);
    if Forgotten(m.state, key) { NewReportPending(m.state, key, c); }
    SubmitCurrentReports(cfg, promoted, nowMs, wallMs, accepted);
  }

  lemma NewReportPending(s: EngineState, key: Key, c: P.Classification)
    requires Queued(s) && Forgotten(s, key) && key.ReportKey?
    ensures Promoted(s, key, c).notification == Some(NewReport(key, c.reason, c.state))
  {
    hide ValidReceipt, Retain;
    var retained := Retain(s.backlog, s.notification);
    MonitorExactness.RetainExactly(s.backlog, s.notification);
    LookupFinds(retained, key);
  }

  lemma ReportIdentityIs(a: Assessment, s: EngineState, input: TickInput, c: P.Classification, stall: Option<nat>)
    requires s.unavailability == a.state.unavailability
    ensures ReportKey(ReportIdentity(s, a, input, stall), c.reason, c.state) ==
            IncidentKey(a, input, c.reason, c.state, stall)
  {
  }

  lemma ReportReports(cfg: Config, acted: Acted, a: Assessment, input: TickInput)
    requires Queued(acted.memory.state) && acted.report && acted.classification.humanRequired
    requires Reportable(acted.classification) && acted.memory.state.unavailability == a.state.unavailability
    ensures var c, after := acted.classification, Report(cfg, acted, a, input);
      var key := IncidentKey(a, input, c.reason, c.state, None);
      && Reported(after.log, after.state, key, input.nowMs, input.reportAccepted)
      && (Forgotten(acted.memory.state, key) ==> Submit(key, input.reportAccepted) in after.log)
  {
    hide Notify, ReportOutcome, ReportIdentity, GoodQueue, Reportable, Forgotten;
    var m, c := acted.memory, acted.classification;
    ReportIdentityIs(a, m.state, input, c, None);
    NotifyReports(cfg, m, c, ReportIdentity(m.state, a, input, None), input.nowMs, input.reportWallMs,
                  input.reportAccepted);
  }

  lemma StallReports(cfg: Config, m: Memory, c: P.Classification, a: Assessment, semantic: S.State, input: TickInput)
    requires Queued(m.state) && m.state.unavailability == a.state.unavailability && ReportsSemantic(c, a, semantic)
    ensures var d, after := SemanticReport(c, semantic), ReportSemantic(cfg, m, c, a, semantic, input);
      var key := IncidentKey(a, input, d.reason, d.state, semantic.incidentKey);
      && Reported(after.log, after.state, key, input.nowMs, input.semanticAccepted)
      && (Forgotten(m.state, key) ==> Submit(key, input.semanticAccepted) in after.log)
  {
    hide Notify, ReportIdentity, GoodQueue, SemanticKeys, Forgotten;
    ReportIdentityIs(a, m.state, input, SemanticReport(c, semantic), semantic.incidentKey);
    NotifyReports(cfg, m, SemanticReport(c, semantic), ReportIdentity(m.state, a, input, semantic.incidentKey),
                  input.nowMs, input.semanticWallMs, input.semanticAccepted);
  }

  lemma QueueKeepsReported(cfg: Config, m: Memory, input: TickInput, key: Key, nowMs: int, accepted: bool)
    requires Reported(m.log, m.state, key, nowMs, accepted)
    ensures var after := ReportQueued(cfg, m, input);
      Reported(after.log, after.state, key, nowMs, accepted) && m.log <= after.log
  {
    hide FirstDue, Rotated, Submits, Reopened, Dispatched, Resolved, WithoutAccepted, Stored, Waiting;
  }

  /** A stall is reported once per incident key, while the workflow is read: healthy or after its
      Send. */
  predicate StallIsNew(state: P.MonitorState, semantic: S.State, incidents: seq<Incident>) {
    && state in {P.Healthy, P.SendConfirmedCapture} && semantic.classification in {S.Looping, S.Stagnant}
    && (semantic.incidentKey.Some? ==> !MonitorExactness.KnownIncident(incidents, semantic.incidentKey.value))
  }

  lemma StallIsNewExactly(c: P.Classification, a: Assessment, semantic: S.State)
    ensures ReportsSemantic(c, a, semantic) <==> StallIsNew(c.state, semantic, a.state.incidents)
    ensures var d := SemanticReport(c, semantic);
      d.humanRequired && d.state == c.state
      && d.reason == if semantic.classification == S.Looping then P.SemanticLooping else P.SemanticStagnant
  {
    if semantic.incidentKey.Some? { MonitorExactness.KnownKeys(a.state.incidents, semantic.incidentKey.value); }
  }

  lemma PhasesReport(cfg: Config, m: Memory, a: Assessment, semantic: S.State, input: TickInput)
    requires m.state == a.state && Queued(m.state) && input.nowMs >= 0
    requires a.classification == UnresolvedTerminal() || a.classification == P.Classify(a.observation)
    ensures var acted, after := Act(cfg, m, a, input), SafePhases(cfg, m, a, semantic, input).memory;
      var c := acted.classification;
      var d, stall := SemanticReport(c, semantic), ReportsSemantic(c, a, semantic);
      && (stall ==>
            Reported(after.log, after.state, IncidentKey(a, input, d.reason, d.state, semantic.incidentKey),
                     input.nowMs, input.semanticAccepted))
      && (!stall && acted.report && c.humanRequired ==>
            Reported(after.log, after.state, IncidentKey(a, input, c.reason, c.state, None),
                     input.nowMs, input.reportAccepted))
  {
    hide GoodQueue, Stored, Act, Report, ReportSemantic, ReportQueued, ReportsSemantic, Reported, IncidentKey,
      Reportable, Concludes;
    var acted := Act(cfg, m, a, input);
    var c := acted.classification;
    ActExactly(cfg, m, a, input);
    ActShape(cfg, m, a, input);
    QueuedPhases(cfg, m, a, semantic, input);
    if c.humanRequired { ReportsAreAllowed(a, c); }
    var reported := Report(cfg, acted, a, input);
    ReportKeeps(cfg, acted, a, input);
    var stalled := ReportSemantic(cfg, reported, c, a, semantic, input);
    if ReportsSemantic(c, a, semantic) {
      var d := SemanticReport(c, semantic);
      StallReports(cfg, reported, c, a, semantic, input);
      QueueKeepsReported(cfg, stalled, input, IncidentKey(a, input, d.reason, d.state, semantic.incidentKey),
                         input.nowMs, input.semanticAccepted);
    } else if acted.report && c.humanRequired {
      ReportReports(cfg, acted, a, input);
      NoStallLeavesReport(cfg, reported, c, a, semantic, input);
      QueueKeepsReported(cfg, stalled, input, IncidentKey(a, input, c.reason, c.state, None),
                         input.nowMs, input.reportAccepted);
    }
  }

  /** What the tick concludes after its action. */
  function ConcludedOf(a: Assessment, input: TickInput): P.Classification {
    if !ActionSucceeds(a.action, input) then P.Classification(true, P.ActionFailed(a.action), P.HumanRequiredOther)
    else if a.action == P.ReconcileExactWorkflow
    then P.Classification(true, P.TerminalReconciliationUnresolved, P.HumanRequiredOther)
    else a.classification
  }

  /** Exactly what a safe-mode tick reports: a stall that is new, and otherwise what it concludes, if
      that needs a human and its action was to notify, was a reconciliation or failed. The report is in
      the slot when the tick ends, and was submitted by it unless its receipt still waits. */
  lemma {:induction false} ReportsExactly(cfg: Config, disk: Option<EngineState>, input: TickInput)
    requires Tick(cfg, disk, input).Some? && QueuedDisk(disk) && input.nowMs >= 0 && input.session.safeMode
    ensures var log, a, semantic := Steps(cfg, disk, input), Assess(cfg, disk, input), Semantic(cfg, disk, input).value;
      var c, after := ConcludedOf(a, input), DiskAfter(disk, log);
      && after.Some?
      && (StallIsNew(c.state, semantic, a.state.incidents) ==>
            Reported(log, after.value,
                     IncidentKey(a, input,
                       if semantic.classification == S.Looping then P.SemanticLooping else P.SemanticStagnant,
                       c.state, semantic.incidentKey),
                     input.nowMs, input.semanticAccepted))
      && (!StallIsNew(c.state, semantic, a.state.incidents) && c.humanRequired
          && (!ActionSucceeds(a.action, input) || a.action in {P.NotifyUser, P.ReconcileExactWorkflow}) ==>
            Reported(log, after.value, IncidentKey(a, input, c.reason, c.state, None),
                     input.nowMs, input.reportAccepted))
  {
    hide Assess, Semantic, GoodQueue, Finish, Tick, Steps, Stored, Act, SafePhases, StallIsNew, ReportsSemantic,
      Reported, IncidentKey, ActionSucceeds;
    var a := Assess(cfg, disk, input);
    LoadedQueue(cfg, disk, input);
    AssessClassifies(cfg, disk, input);
    TickUnfolds(cfg, disk, input);
    var semantic := Semantic(cfg, disk, input).value;
    var hold := input.session.keepAwakeOnAc && input.onAc && P.ActiveWorkflow(a.classification.state);
    var m := Emit(Memory(a.state, []), SetAwake(hold));
    ActExactly(cfg, m, a, input);
    var c := Act(cfg, m, a, input).classification;
    StallIsNewExactly(c, a, semantic);
    PhasesReport(cfg, m, a, semantic, input);
    var after, last := Phases(cfg, a, semantic, input), Concluded(cfg, a, semantic, input);
    FinishQueue(cfg, a, semantic, input, after);
    assert Steps(cfg, disk, input) == after.memory.log + [Persist(last)];
    var d := SemanticReport(c, semantic);
    if ReportsSemantic(c, a, semantic) {
      FinalReported(after.memory, last, IncidentKey(a, input, d.reason, d.state, semantic.incidentKey), input.nowMs,
                    input.semanticAccepted);
    } else if Act(cfg, m, a, input).report && c.humanRequired {
      FinalReported(after.memory, last, IncidentKey(a, input, c.reason, c.state, None), input.nowMs,
                    input.reportAccepted);
    }
  }

  lemma NoStallLeavesReport(cfg: Config, m: Memory, c: P.Classification, a: Assessment, semantic: S.State,
                            input: TickInput)
    ensures !ReportsSemantic(c, a, semantic) ==> ReportSemantic(cfg, m, c, a, semantic, input) == m
  {
    hide ReportsSemantic, Notify;
  }

  lemma FinalReported(m: Memory, last: EngineState, key: Key, nowMs: int, accepted: bool)
    requires Reported(m.log, m.state, key, nowMs, accepted) && last.notification == m.state.notification
    ensures Reported(m.log + [Persist(last)], last, key, nowMs, accepted)
  {
    hide Waiting;
  }

  // ---- the slot without a report --------------------------------------

  lemma QueueKeepsSlot(cfg: Config, m: Memory, input: TickInput)
    ensures var after := ReportQueued(cfg, m, input);
      after.state.notification == m.state.notification && m.log <= after.log
  {
    hide FirstDue, Rotated, Submits, Reopened, Dispatched, Resolved, WithoutAccepted, Stored;
  }

  lemma PhasesKeepSlot(cfg: Config, m: Memory, a: Assessment, semantic: S.State, input: TickInput)
    requires m.state == a.state && Queued(m.state)
    requires var acted := Act(cfg, m, a, input);
      !ReportsSemantic(acted.classification, a, semantic) && !(acted.report && acted.classification.humanRequired)
    ensures var acted, after := Act(cfg, m, a, input), SafePhases(cfg, m, a, semantic, input).memory;
      var slot := m.state.notification;
      && (slot.Some? && slot.value.outcome != Accepted ==>
            Reported(after.log, after.state, slot.value.key, input.nowMs, input.reportAccepted))
      && (slot.None? || slot.value.outcome == Accepted ==>
            after.state.notification ==
              if acted.classification.state in {P.Healthy, P.Settled} then None else slot)
  {
    hide GoodQueue, Stored, Act, ReportQueued, ReportsSemantic, Notify, SubmitCurrent, ReportOutcome, Reported,
      ValidReceipt;
    var acted := Act(cfg, m, a, input);
    ActExactly(cfg, m, a, input);
    var reported := Report(cfg, acted, a, input);
    NoStallLeavesReport(cfg, reported, acted.classification, a, semantic, input);
    QueueKeepsSlot(cfg, reported, input);
    var slot := m.state.notification;
    if slot.Some? && slot.value.outcome != Accepted {
      SlotIsValid(m.state);
      SubmitCurrentReports(cfg, acted.memory, input.nowMs, input.reportWallMs, input.reportAccepted);
      QueueKeepsReported(cfg, reported, input, slot.value.key, input.nowMs, input.reportAccepted);
    }
  }

  lemma SlotIsValid(s: EngineState)
    requires Queued(s) && s.notification.Some?
    ensures ValidReceipt(s.notification.value)
  {
  }

  /** A safe-mode tick with nothing to report: it tries an unaccepted report of the slot again, and an
      accepted one leaves the slot once the workflow is healthy or settled. */
  lemma {:induction false} SlotExactly(cfg: Config, disk: Option<EngineState>, input: TickInput)
    requires Tick(cfg, disk, input).Some? && QueuedDisk(disk) && input.nowMs >= 0 && input.session.safeMode
    requires var a, semantic := Assess(cfg, disk, input), Semantic(cfg, disk, input).value;
      var c := ConcludedOf(a, input);
      && !StallIsNew(c.state, semantic, a.state.incidents)
      && !(c.humanRequired
           && (!ActionSucceeds(a.action, input) || a.action in {P.NotifyUser, P.ReconcileExactWorkflow}))
    ensures var log, a := Steps(cfg, disk, input), Assess(cfg, disk, input);
      var after := DiskAfter(disk, log);
      var slot, c := a.state.notification, ConcludedOf(a, input);
      && after.Some?
      && (slot.Some? && slot.value.outcome != Accepted ==>
            Reported(log, after.value, slot.value.key, input.nowMs, input.reportAccepted))
      && (slot.None? || slot.value.outcome == Accepted ==>
            after.value.notification == if c.state in {P.Healthy, P.Settled} then None else slot)
  {
    hide Assess, Semantic, GoodQueue, Finish, Tick, Steps, Stored, Act, SafePhases, StallIsNew, ReportsSemantic,
      Reported, ActionSucceeds;
    var a := Assess(cfg, disk, input);
    LoadedQueue(cfg, disk, input);
    TickUnfolds(cfg, disk, input);
    var semantic := Semantic(cfg, disk, input).value;
    var hold := input.session.keepAwakeOnAc && input.onAc && P.ActiveWorkflow(a.classification.state);
    var m := Emit(Memory(a.state, []), SetAwake(hold));
    ActExactly(cfg, m, a, input);
    StallIsNewExactly(Act(cfg, m, a, input).classification, a, semantic);
    PhasesKeepSlot(cfg, m, a, semantic, input);
    var after, last := Phases(cfg, a, semantic, input), Concluded(cfg, a, semantic, input);
    FinishQueue(cfg, a, semantic, input, after);
    assert Steps(cfg, disk, input) == after.memory.log + [Persist(last)];
    if a.state.notification.Some? && a.state.notification.value.outcome != Accepted {
      FinalReported(after.memory, last, a.state.notification.value.key, input.nowMs, input.reportAccepted);
    }
  }

  /** Exactly when a tick runs at all: in an active session, on a checkpoint of its workflow that the
      semantic classifier does not refuse. Otherwise it has no effect. */
  lemma TicksExactly(cfg: Config, disk: Option<EngineState>, input: TickInput)
    ensures var l, b := Loaded(disk, input), input.broker;
      Tick(cfg, disk, input).Some? <==>
      && input.session.active && b.checkpoint.workflow == input.session.workflow
      && S.ValidCheckpoint(b.checkpoint) && input.nowMs >= 0 && (b.epoch.Some? ==> b.epoch.value >= 0)
      && (l.semantic.Some? ==>
            && S.ValidState(cfg.hashes, l.semantic.value)
            && (l.semantic.value.workflow == b.checkpoint.workflow ==> l.semantic.value.observedAt <= input.nowMs))
    ensures Tick(cfg, disk, input).None? <==> Steps(cfg, disk, input) == []
  {
    hide Assess, SafePhases, Finish, Stored, C.Classify, S.ValidState, S.ValidCheckpoint, Loaded, SemanticObservation,
      SetAction;
    var a := Assess(cfg, disk, input);
    AssessedFields(cfg, disk, input);
    MonitorExactness.SemanticObservationExactly(cfg, disk, input);
    SemanticOutcomes.RefusesExactly(cfg.hashes, a.state.semantic, SemanticObservation(input, a));
  }

  // ---- what is left on disk -------------------------------------------

  /** Every field but the queue of what a tick that ran to its end leaves on disk. */
  lemma {:induction false} FinalExactly(cfg: Config, disk: Option<EngineState>, input: TickInput)
    requires Tick(cfg, disk, input).Some? && QueuedDisk(disk) && input.nowMs >= 0
    ensures var a, after, b := Assess(cfg, disk, input), DiskAfter(disk, Steps(cfg, disk, input)), input.broker;
      var semantic, safe, l := Semantic(cfg, disk, input).value, input.session.safeMode, Loaded(disk, input);
      var c := if safe then ConcludedOf(a, input) else a.classification;
      var works, calm := ActionSucceeds(a.action, input), c.state in {P.Healthy, P.Settled};
      && after.Some?
      && var w := after.value;
         && w.broker == Some(BrokerEvidence(b.available, b.epoch, b.runtime))
         && w.brokerStarts == a.brokerStarts + (if safe && a.action == P.StartBroker then [input.nowMs] else [])
         && w.deadSinceAt == a.deadSinceAt && w.unavailability == a.state.unavailability
         && w.boundary == Some(c) && w.monitor == c.state
         && w.lastIncident == (if calm then None else Some((c.state, c.reason)))
         && w.lastTick == Some(Clock(input.monotonicMs, input.nowMs)) && w.updatedAt == input.nowMs
         && w.session == Some(SessionOf(input.session)) && w.workflow == Some(input.session.workflow)
         && w.semantic == Some(semantic) && w.phase == P.PhaseCode(b.workflow)
         && w.recoveryCount == l.recoveryCount +
              (if safe && a.action in {P.StartBroker, P.ReconcileExactWorkflow} then 1 else 0)
         && w.reconciliation == (if safe && a.action == P.ReconcileExactWorkflow && works then a.terminal
                                 else a.state.reconciliation)
         && w.incidents ==
              LastOnes(l.incidents + NewIncidents(l.lastIncident, l.incidents, c, semantic, w.phase, input.nowMs),
                       cfg.incidentLimit)
  {
    hide Assess, Semantic, GoodQueue, Tick, Steps, Act, SafePhases, ActionSucceeds, NewIncidents, Report,
      ReportSemantic, ReportQueued, Concludes, MonitorExactness.OtherOwner;
    var a := Assess(cfg, disk, input);
    LoadedQueue(cfg, disk, input);
    AssessClassifies(cfg, disk, input);
    TickUnfolds(cfg, disk, input);
    AssessedFields(cfg, disk, input);
    var semantic := Semantic(cfg, disk, input).value;
    var hold := input.session.keepAwakeOnAc && input.onAc && P.ActiveWorkflow(a.classification.state);
    var m := Emit(Memory(a.state, []), SetAwake(hold));
    ActExactly(cfg, m, a, input);
    PhasesKeepCore(cfg, m, a, semantic, input);
    TailIs(a.state.incidents + NewIncidents(a.state.lastIncident, a.state.incidents,
             if input.session.safeMode then ConcludedOf(a, input) else a.classification,
             semantic, P.PhaseCode(input.broker.workflow), input.nowMs), cfg.incidentLimit);
  }

  function LastOnes(incidents: seq<Incident>, limit: nat): seq<Incident> {
    incidents[if |incidents| < limit then 0 else |incidents| - limit..]
  }

  lemma TailIs(incidents: seq<Incident>, limit: nat)
    ensures Tail(incidents, limit) == LastOnes(incidents, limit)
  {
  }

  lemma AssessedFields(cfg: Config, disk: Option<EngineState>, input: TickInput)
    ensures var a, l := Assess(cfg, disk, input).state, Loaded(disk, input);
      && a == l.(unavailability := a.unavailability, reconciliation := a.reconciliation)
      && l.session == Some(SessionOf(input.session))
  {
    hide P.Classify, P.Choose, ObservationOf, RecentStarts, DeadSince, UnavailableSince, TerminalOf;
  }

  lemma PhasesKeepCore(cfg: Config, m: Memory, a: Assessment, semantic: S.State, input: TickInput)
    requires m.state == a.state && Queued(m.state) && input.nowMs >= 0
    requires a.classification == UnresolvedTerminal() || a.classification == P.Classify(a.observation)
    ensures var acted := Act(cfg, m, a, input);
      SameCore(acted.memory.state, SafePhases(cfg, m, a, semantic, input).memory.state)
      && SafePhases(cfg, m, a, semantic, input).classification == acted.classification
  {
    hide Act, Report, ReportSemantic, ReportQueued, GoodQueue, Concludes, Stored, Reportable, SameCore;
    var acted := Act(cfg, m, a, input);
    ActShape(cfg, m, a, input);
    if acted.classification.humanRequired { ReportsAreAllowed(a, acted.classification); }
    QueuedPhases(cfg, m, a, semantic, input);
    ReportKeeps(cfg, acted, a, input);
    var reported := Report(cfg, acted, a, input);
    ReportSemanticKeeps(cfg, reported, acted.classification, a, semantic, input);
    var stalled := ReportSemantic(cfg, reported, acted.classification, a, semantic, input);
    ReportQueuedKeeps(cfg, stalled, input);
    NotifiedTransitive(cfg, acted.memory, reported, stalled);
    NotifiedTransitive(cfg, acted.memory, stalled, ReportQueued(cfg, stalled, input));
  }

  // ---- the last action ------------------------------------------------

  /** The receipt of a report before a tick: the one in the slot or in the backlog. */
  predicate HadReceipt(s: EngineState, key: Key, r: Receipt) {
    && r.key == key
    && (s.notification == Some(r)
        || (r in s.backlog && (s.notification.Some? ==> s.notification.value.key != key)))
  }

  /** What a report is recorded as: one that waits has been reported already or failed, any other is
      submitted, with the answer it gets. */
  function ReportedAs(r: Receipt, nowMs: int, accepted: bool): ActionOutcome {
    if !Waiting(r, nowMs) then (if accepted then Succeeded else ActionFailure)
    else if r.outcome == Accepted then AlreadyReported
    else ActionFailure
  }

  lemma OutcomeIs(m: Memory, acted: Acted, a: Assessment, input: TickInput)
    requires Queued(m.state) && Reportable(acted.classification) && m.state == a.state
    ensures var c, now, outcome := acted.classification, input.nowMs, ReportOutcome(m, acted, a, input);
      var key := IncidentKey(a, input, c.reason, c.state, None);
      && (forall r :: HadReceipt(m.state, key, r) ==> outcome == ReportedAs(r, now, input.reportAccepted))
      && (Forgotten(m.state, key) ==> outcome == if input.reportAccepted then Succeeded else ActionFailure)
  {
    hide Promoted, ReportIdentity, Retain, Reportable, ValidReceipt, HasKey, HasOverflow, IncidentKey, HadReceipt,
      Waiting, Submits, RepeatDue, Forgotten, Queued;
    var c := acted.classification;
    var key := IncidentKey(a, input, c.reason, c.state, None);
    ReportIdentityIs(a, m.state, input, c, None);
    PromotedKeeps(m.state, key, c);
    var r := Promoted(m.state, key, c).notification.value;
    SlotIsValid(Promoted(m.state, key, c));
    WaitsOrSubmits(r, input.nowMs);
    if Forgotten(m.state, key) { KeyIsReport(a, input, c); NewReportPending(m.state, key, c); }
    forall t | HadReceipt(m.state, key, t) ensures t == r { HadIsPromoted(m.state, key, c, t); }
  }

  lemma WaitsOrSubmits(r: Receipt, nowMs: int)
    requires ValidReceipt(r)
    ensures Submits(r, nowMs) <==> !Waiting(r, nowMs)
    ensures r.outcome.Accepted? && !RepeatDue(r, nowMs) <==> r.outcome.Accepted? && Waiting(r, nowMs)
    ensures r.outcome.Pending? ==> !Waiting(r, nowMs)
  {
  }

  lemma KeyIsReport(a: Assessment, input: TickInput, c: P.Classification)
    ensures IncidentKey(a, input, c.reason, c.state, None).ReportKey?
  {
  }

  lemma HadIsPromoted(s: EngineState, key: Key, c: P.Classification, t: Receipt)
    requires Queued(s) && HadReceipt(s, key, t)
    ensures Promoted(s, key, c).notification == Some(t)
  {
    hide Promoted, Retain, ValidReceipt, HasOverflow;
    MonitorExactness.PromotedExactly(s, key, c);
    MonitorExactness.RetainExactly(s.backlog, s.notification);
    if s.notification != Some(t) {
      var retained := Retain(s.backlog, s.notification);
      var i :| 0 <= i < |s.backlog| && s.backlog[i] == t;
      assert retained[i] == t;
      assert MonitorExactness.FirstOf(retained, key, i);
    }
  }

  lemma PhasesAction(cfg: Config, m: Memory, a: Assessment, semantic: S.State, input: TickInput)
    ensures var acted, after := Act(cfg, m, a, input), SafePhases(cfg, m, a, semantic, input).memory.state;
      after.lastAction ==
        if a.action.NotifyUser? && acted.report && acted.classification.humanRequired
        then Some(LastAction(a.action, input.nowMs, ReportOutcome(acted.memory, acted, a, input)))
        else acted.memory.state.lastAction
  {
    hide Act, ReportOutcome, ReportsSemantic, ReportIdentity, Promoted, SubmitCurrent, ReportQueued, ReportSemantic;
    var acted := Act(cfg, m, a, input);
    var c := acted.classification;
    var s := acted.memory.state;
    NotifyKeepsAction(cfg, acted.memory, c, ReportIdentity(s, a, input, None), input.nowMs, input.reportWallMs,
                      input.reportAccepted);
    SubmissionKeepsAction(cfg, acted.memory, input.nowMs, input.reportWallMs, input.reportAccepted);
    var reported := Report(cfg, acted, a, input);
    StallKeepsAction(cfg, reported, c, a, semantic, input);
    QueueKeepsAction(cfg, ReportSemantic(cfg, reported, c, a, semantic, input), input);
  }

  lemma SubmissionKeepsAction(cfg: Config, m: Memory, nowMs: int, wallMs: int, accepted: bool)
    ensures m.state.notification.Some? ==>
      SubmitCurrent(cfg, m, nowMs, wallMs, accepted).state.lastAction == m.state.lastAction
  {
    hide Submits, Dispatched, Resolved, Reopened, Stored;
  }

  lemma NotifyKeepsAction(cfg: Config, m: Memory, c: P.Classification, id: Identity, nowMs: int, wallMs: int,
                          accepted: bool)
    ensures Notify(cfg, m, c, id, nowMs, wallMs, accepted).state.lastAction == m.state.lastAction
  {
    hide SubmitCurrent, Retain, Lookup, WithoutKey;
    var promoted := Memory(Promoted(m.state, ReportKey(id, c.reason, c.state), c), m.log);
    SubmissionKeepsAction(cfg, promoted, nowMs, wallMs, accepted);
  }

  lemma StallKeepsAction(cfg: Config, m: Memory, c: P.Classification, a: Assessment, semantic: S.State,
                         input: TickInput)
    ensures ReportSemantic(cfg, m, c, a, semantic, input).state.lastAction == m.state.lastAction
  {
    hide Notify, ReportsSemantic, ReportIdentity;
    NotifyKeepsAction(cfg, m, SemanticReport(c, semantic), ReportIdentity(m.state, a, input, semantic.incidentKey),
                      input.nowMs, input.semanticWallMs, input.semanticAccepted);
  }

  lemma QueueKeepsAction(cfg: Config, m: Memory, input: TickInput)
    ensures ReportQueued(cfg, m, input).state.lastAction == m.state.lastAction
  {
    hide FirstDue, Rotated, Submits, Reopened, Dispatched, Resolved, WithoutAccepted, Stored;
  }

  /** The last action a completed tick leaves: what a shadow tick would have done, what became of the
      action of a safe-mode tick, or of the report it chose to submit; the one before if it only
      observed. */
  lemma {:induction false} LastActionExactly(cfg: Config, disk: Option<EngineState>, input: TickInput)
    requires Tick(cfg, disk, input).Some? && QueuedDisk(disk) && input.nowMs >= 0
    ensures var a, after := Assess(cfg, disk, input), DiskAfter(disk, Steps(cfg, disk, input));
      var safe, now, works := input.session.safeMode, input.nowMs, ActionSucceeds(a.action, input);
      var c, action := a.classification, a.action;
      var key := IncidentKey(a, input, c.reason, c.state, None);
      && after.Some?
      && var last := after.value.lastAction;
         && (!safe ==> last == Some(LastAction(action, now, ShadowOnly)))
         && (safe && action in {P.StartBroker, P.AttachExactWorkflow, P.ReconcileExactWorkflow} ==>
               last == Some(LastAction(action, now,
                 if !works then ActionFailure
                 else if action == P.ReconcileExactWorkflow then TerminalObserved else Succeeded)))
         && (safe && action == P.NotifyUser ==>
               && (forall r :: HadReceipt(a.state, key, r) ==>
                     last == Some(LastAction(action, now, ReportedAs(r, now, input.reportAccepted))))
               && (Forgotten(a.state, key) ==>
                     last == Some(LastAction(action, now,
                                             if input.reportAccepted then Succeeded else ActionFailure))))
         && (safe && action == P.Observe ==> last == Loaded(disk, input).lastAction)
  {
    hide Assess, Semantic, GoodQueue, Tick, Steps, Act, SafePhases, ActionSucceeds, NewIncidents, IncidentKey,
      Concludes, HadReceipt, Forgotten, Reportable, ReportOutcome, Tail, Loaded;
    var a := Assess(cfg, disk, input);
    LoadedQueue(cfg, disk, input);
    AssessClassifies(cfg, disk, input);
    TickUnfolds(cfg, disk, input);
    AssessedFields(cfg, disk, input);
    var semantic := Semantic(cfg, disk, input).value;
    var hold := input.session.keepAwakeOnAc && input.onAc && P.ActiveWorkflow(a.classification.state);
    var m := Emit(Memory(a.state, []), SetAwake(hold));
    ActExactly(cfg, m, a, input);
    PhasesAction(cfg, m, a, semantic, input);
    FinishKeepsAction(cfg, a, semantic, input);
    if a.action == P.NotifyUser {
      NotifyNeedsHuman(cfg, disk, input);
      ActShape(cfg, m, a, input);
      ReportsAreAllowed(a, a.classification);
      NotifyOnly(cfg, m, a, input);
      OutcomeIs(m, Act(cfg, m, a, input), a, input);
    }
  }

  lemma NotifyOnly(cfg: Config, m: Memory, a: Assessment, input: TickInput)
    ensures a.action == P.NotifyUser ==> Act(cfg, m, a, input) == Acted(m, a.classification, true)
    ensures a.action == P.Observe ==> Act(cfg, m, a, input) == Acted(m, a.classification, false)
  {
  }

  lemma NotifyNeedsHuman(cfg: Config, disk: Option<EngineState>, input: TickInput)
    ensures Assess(cfg, disk, input).action == P.NotifyUser ==>
              Assess(cfg, disk, input).classification.humanRequired
  {
    hide P.Classify, ObservationOf, RecentStarts, DeadSince, UnavailableSince, TerminalOf, Loaded;
  }

  lemma FinishKeepsAction(cfg: Config, a: Assessment, semantic: S.State, input: TickInput)
    ensures Concluded(cfg, a, semantic, input).lastAction == Phases(cfg, a, semantic, input).memory.state.lastAction
  {
    hide Phases, NewIncidents, Tail;
  }

  // ---- it does act ----------------------------------------------------

  /** Half an hour without progress before the Send is reported: a safe-mode tick of an undisturbed
      monitor that runs to its end submits the report, unless the report it already holds waits for
      its next try. */
  lemma {:induction false} EscalatedStallIsReported(cfg: Config, disk: Option<EngineState>, input: TickInput)
    requires Tick(cfg, disk, input).Some? && QueuedDisk(disk) && input.nowMs >= 0 && input.session.safeMode
    requires var o := Assess(cfg, disk, input).observation;
      && L.Watches(o) && L.Unsupervised(o.workflow.value) && L.NotYetSent(o.workflow.value)
      && L.Aged(o.workflow.value, input.nowMs, 1_800_000)
    ensures var log, a := Steps(cfg, disk, input), Assess(cfg, disk, input);
      var after := DiskAfter(disk, log);
      && after.Some? && a.action == P.NotifyUser
      && Reported(log, after.value, IncidentKey(a, input, P.PreSendStallEscalated, P.StalledBeforeSend, None),
                  input.nowMs, input.reportAccepted)
  {
    hide Assess, Semantic, GoodQueue, Finish, Tick, Steps, Stored, Reported, IncidentKey, P.Classify, P.Choose,
      L.Unsupervised, L.NotYetSent, L.Sent, DiskAfter, Loaded;
    var a := Assess(cfg, disk, input);
    NotTerminal(a.observation.workflow.value);
    MonitorExactness.TerminalExactly(cfg, disk, input);
    MonitorExactness.ObservationExactly(cfg, disk, input);
    StalledLongIsEscalated(a.observation);
    ReportsExactly(cfg, disk, input);
  }

  lemma NotTerminal(w: P.Workflow)
    requires L.Unsupervised(w)
    ensures w.status !in {P.Cancelled, P.Failed, P.HumanRequired, P.Succeeded}
  {
  }

  lemma StalledLongIsEscalated(o: P.Observation)
    requires L.Watches(o) && L.Unsupervised(o.workflow.value) && L.NotYetSent(o.workflow.value)
    requires L.Aged(o.workflow.value, o.nowMs, 1_800_000)
    ensures P.Classify(o) == P.Classification(true, P.PreSendStallEscalated, P.StalledBeforeSend)
    ensures P.Choose(P.Classify(o), o) == P.NotifyUser
  {
    hide P.Classify, P.Choose;
    L.WorkflowStatesExactly(o);
    L.HumanRequiredExactly(o);
    L.ReasonsExactly(o);
    L.ActionsExactly(o);
  }
}
