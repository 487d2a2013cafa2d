/** One supervision tick of the Eagle monitor (src/eagle-monitor-engine.mjs). A tick is a
    sequence of effects: writes of the state file, dispatched actions and submitted
    notifications. A crash, a lost lease or a failing write cuts that sequence short. */
module MonitorEngine {
  import opened Prelude
  import P = MonitorPolicy
  import opened NotificationQueue
  import S = SemanticState
  import C = SemanticClassifier

  datatype Config = Config(hashes: S.Hashes, runtime: nat, pollIntervalMs: int, incidentLimit: nat)

  datatype Session = Session(
    active: bool, workflow: nat, binding: Option<string>, configuredAt: int,
    safeMode: bool, keepAwakeOnAc: bool, policyMatches: bool)

  datatype Broker = Broker(
    available: bool, conclusivelyDead: bool, epoch: Option<int>, runtime: Option<nat>,
    workflow: Option<P.Workflow>, checkpoint: S.Checkpoint)

  /** Everything a tick learns from outside: the session, the clocks, the observations, and
      how each action and each of the three possible submissions turns out. */
  datatype TickInput = TickInput(
    session: Session, nowMs: int, monotonicMs: int,
    writable: bool, spaceAvailable: bool, sleepDetected: bool, wakeObserved: bool, onAc: bool,
    broker: Broker,
    dispatchRecorded: bool, startSucceeds: bool, attachSucceeds: bool, reconciles: bool,
    reportWallMs: int, reportAccepted: bool,
    semanticWallMs: int, semanticAccepted: bool,
    queuedWallMs: int, queuedAccepted: bool)

  datatype Unavailability = Unavailability(
    identity: UnavailableId, brokerEpoch: Option<int>, runtime: Option<nat>, firstObservedAt: int)

  datatype Incident =
    | OperationalIncident(reason: P.Reason, state: P.MonitorState, occurredAt: int)
    | SemanticIncident(key: nat, identity: S.Incident, semanticReason: S.Reason, state: P.MonitorState, occurredAt: int)

  datatype ActionOutcome = AlreadyReported | ActionDispatching | ActionFailure | ShadowOnly | Succeeded
    | TerminalObserved

  datatype LastAction = LastAction(action: P.Action, at: int, outcome: ActionOutcome)

  datatype Clock = Clock(monotonicMs: int, wallMs: int)

  datatype BrokerEvidence = BrokerEvidence(available: bool, epoch: Option<int>, runtime: Option<nat>)

  datatype EngineState = EngineState(
    broker: Option<BrokerEvidence>,
    brokerStarts: seq<int>,
    deadSinceAt: Option<int>,
    boundary: Option<P.Classification>,
    incidents: seq<Incident>,
    lastAction: Option<LastAction>,
    lastIncident: Option<(P.MonitorState, P.Reason)>,
    lastTick: Option<Clock>,
    monitor: P.MonitorState,
    notification: Option<Receipt>,
    backlog: seq<Receipt>,
    phase: Option<string>,
    reconciliation: Option<TerminalId>,
    recoveryCount: nat,
    semantic: Option<S.State>,
    session: Option<SessionId>,
    unavailability: Option<Unavailability>,
    updatedAt: int,
    workflow: Option<nat>)

  datatype Step =
    | SetAwake(hold: bool)
    | Persist(written: EngineState)
    | StartBroker(at: int)
    | AttachWorkflow
    | ReconcileWorkflow
    | Submit(key: Key, accepted: bool)

  /** The in-memory state of a running tick and the effects it has had so far. */
  datatype Memory = Memory(state: EngineState, log: seq<Step>)

  function DefaultState(nowMs: int): EngineState {
    EngineState(None, [], None, None, [], None, None, None, P.Startup, None, [], None, None, 0, None, None, None,
                nowMs, None)
  }

  function SessionOf(session: Session): SessionId {
    SessionId(session.workflow, session.binding, session.configuredAt)
  }

  /** The state a tick works on: the stored one, or a fresh one that keeps only the broker
      starts and the incidents when the workflow or the session is not the stored one's. */
  function Loaded(disk: Option<EngineState>, input: TickInput): EngineState {
    var now := input.nowMs;
    var stored := if disk.Some? then disk.value else DefaultState(now);
    var session := SessionOf(input.session);
    var first :=
      if stored.workflow.Some? && stored.workflow.value != input.session.workflow then
        DefaultState(now).(brokerStarts := stored.brokerStarts, incidents := stored.incidents)
      else stored;
    var second :=
      if (first.session.Some? && first.session.value != session) || first.updatedAt < input.session.configuredAt then
        DefaultState(now).(brokerStarts := first.brokerStarts, incidents := first.incidents)
      else first;
    second.(session := Some(session))
  }

  /** The broker starts inside the crash-loop window that ends now. */
  function RecentStarts(starts: seq<int>, nowMs: int): seq<int> {
    if starts == [] then []
    else if starts[0] >= nowMs - P.CRASH_LOOP_WINDOW_MS then [starts[0]] + RecentStarts(starts[1..], nowMs)
    else RecentStarts(starts[1..], nowMs)
  }

  function DeadSince(previous: Option<int>, broker: Broker, nowMs: int): Option<int> {
    if broker.available || !broker.conclusivelyDead then None
    else if previous.Some? then previous
    else Some(nowMs)
  }

  function OrElse<T>(a: Option<T>, b: Option<T>): Option<T> {
    if a.Some? then a else b
  }

  /** Unavailability without proof of death, timed from its first observation and restarted
      when a known owner changes. */
  function UnavailableSince(previous: Option<Unavailability>, broker: Broker, session: SessionId,
                            nowMs: int): Option<Unavailability>
  {
    if broker.available || broker.conclusivelyDead then None
    else
      var epoch := OrElse(broker.epoch, if previous.Some? then previous.value.brokerEpoch else None);
      var runtime := OrElse(broker.runtime, if previous.Some? then previous.value.runtime else None);
      var changedOwner :=
        && previous.Some?
        && (|| (previous.value.brokerEpoch.Some? && epoch != previous.value.brokerEpoch)
            || (previous.value.runtime.Some? && runtime != previous.value.runtime));
      Some(Unavailability(
        UnavailableId(session, epoch, runtime), epoch, runtime,
        if previous.None? || changedOwner then nowMs else previous.value.firstObservedAt))
  }

  function TerminalOf(broker: Broker): Option<TerminalId> {
    if broker.workflow.None? || !P.Terminal(broker.workflow.value.status) then None
    else
      var w := broker.workflow.value;
      Some(TerminalId(broker.epoch, w.phase, w.failure, w.status, w.updatedAt))
  }

  predicate DetectsWake(cfg: Config, previous: Option<Clock>, input: TickInput) {
    && previous.Some?
    && (input.nowMs - previous.value.wallMs) - (input.monotonicMs - previous.value.monotonicMs) > cfg.pollIntervalMs * 2
  }

  function UnresolvedTerminal(): P.Classification {
    P.Classification(true, P.TerminalReconciliationUnresolved, P.HumanRequiredOther)
  }

  /** What a tick concludes from its observations before it acts. */
  datatype Assessment = Assessment(
    state: EngineState, brokerStarts: seq<int>, deadSinceAt: Option<int>, terminal: Option<TerminalId>,
    observation: P.Observation, classification: P.Classification, action: P.Action)

  function ObservationOf(cfg: Config, loaded: EngineState, input: TickInput, crashLoop: bool,
                         deadSinceAt: Option<int>, unavailability: Option<Unavailability>): P.Observation
  {
    var broker := input.broker;
    P.Observation(
      input.writable, input.spaceAvailable,
      input.sleepDetected, input.wakeObserved || DetectsWake(cfg, loaded.lastTick, input),
      crashLoop, input.session.policyMatches,
      broker.runtime.None?, broker.runtime == Some(cfg.runtime),
      broker.available, broker.conclusivelyDead,
      deadSinceAt.Some? && input.nowMs - deadSinceAt.value >= P.DEAD_CONFIRMATION_MS,
      unavailability.Some? && input.nowMs - unavailability.value.firstObservedAt >= P.BROKER_UNAVAILABLE_ALERT_MS,
      broker.workflow, input.session.binding.Some?,
      input.session.binding.None? || (broker.workflow.Some? && broker.workflow.value.binding == input.session.binding),
      input.nowMs)
  }

  function Assess(cfg: Config, disk: Option<EngineState>, input: TickInput): Assessment {
    var loaded := Loaded(disk, input);
    var starts := RecentStarts(loaded.brokerStarts, input.nowMs);
    var dead := DeadSince(loaded.deadSinceAt, input.broker, input.nowMs);
    var unavailability := UnavailableSince(loaded.unavailability, input.broker, SessionOf(input.session), input.nowMs);
    var observation := ObservationOf(cfg, loaded, input, |starts| >= P.CRASH_LOOP_LIMIT, dead, unavailability);
    var terminal := TerminalOf(input.broker);
    var reconciled := loaded.reconciliation.Some? && loaded.reconciliation == terminal;
    var classification := if reconciled then UnresolvedTerminal() else P.Classify(observation);
    Assessment(
      loaded.(unavailability := unavailability,
              reconciliation := if reconciled then loaded.reconciliation else None),
      starts, dead, terminal, observation, classification, P.Choose(classification, observation))
  }

  /** What the semantic classifier is told about the operational state. */
  function SemanticObservation(input: TickInput, a: Assessment): S.Observation {
    var broker := input.broker;
    S.Observation(
      broker.epoch,
      broker.checkpoint,
      a.classification.state.HumanRequiredAuthChallenge?,
      input.nowMs,
      if broker.available then S.ProcessHealthy
      else if broker.conclusivelyDead then S.ProcessDead
      else S.ProcessUnknown,
      || (broker.workflow.Some? && broker.workflow.value.phase.CodexRecovering?)
      || (input.session.safeMode && (a.action.ReconcileExactWorkflow? || a.action.StartBroker?)),
      a.classification.state.Settled?,
      if !broker.available then S.TransportUnknown
      else if !a.observation.bindingMatches || DegradedDelivery(broker.workflow) then S.TransportDegraded
      else S.TransportHealthy)
  }

  predicate DegradedDelivery(workflow: Option<P.Workflow>) {
    && workflow.Some? && workflow.value.delivery.Some?
    && var d := workflow.value.delivery.value;
       d.ChildStopped? || d.ChildUnavailable? || d.NotConfirmed? || d.ReconcilingDelivery? || d.WorkflowStopped?
  }

  // ---- effects --------------------------------------------------------

  /** The store keeps the most recent incidents only. */
  function Stored(cfg: Config, state: EngineState): EngineState {
    state.(incidents := Tail(state.incidents, cfg.incidentLimit))
  }

  function Write(cfg: Config, m: Memory): Memory {
    Memory(m.state, m.log + [Persist(Stored(cfg, m.state))])
  }

  function Emit(m: Memory, step: Step): Memory {
    Memory(m.state, m.log + [step])
  }

  function SetCurrent(m: Memory, r: Receipt): Memory {
    Memory(m.state.(notification := Some(r)), m.log)
  }

  function SetLast(m: Memory, r: Receipt): Memory
    requires |m.state.backlog| > 0
  {
    Memory(m.state.(backlog := m.state.backlog[|m.state.backlog| - 1 := r]), m.log)
  }

  /** `#submitNotification` of the receipt in the current slot: the intent is written before
      the dispatch and the outcome after it. */
  function SubmitCurrent(cfg: Config, m: Memory, nowMs: int, wallMs: int, accepted: bool): Memory
    requires m.state.notification.Some?
  {
    var r := m.state.notification.value;
    if !Submits(r, nowMs) then SetCurrent(m, Reopened(r, nowMs))
    else
      var intent := Dispatched(r, nowMs, wallMs);
      var asked := Emit(Write(cfg, SetCurrent(m, intent)), Submit(r.key, accepted));
      Write(cfg, SetCurrent(asked, Resolved(intent, nowMs, accepted)))
  }

  /** The same for the receipt at the end of the backlog. */
  function SubmitLast(cfg: Config, m: Memory, nowMs: int, wallMs: int, accepted: bool): Memory
    requires |m.state.backlog| > 0
  {
    var r := m.state.backlog[|m.state.backlog| - 1];
    if !Submits(r, nowMs) then SetLast(m, Reopened(r, nowMs))
    else
      var intent := Dispatched(r, nowMs, wallMs);
      var asked := Emit(Write(cfg, SetLast(m, intent)), Submit(r.key, accepted));
      Write(cfg, SetLast(asked, Resolved(intent, nowMs, accepted)))
  }

  /** The report takes the current slot, keeping its receipt when it returns from the backlog. */
  function Promoted(state: EngineState, key: Key, c: P.Classification): EngineState {
    if state.notification.Some? && state.notification.value.key == key then state
    else
      var backlog := Retain(state.backlog, state.notification);
      var known := Lookup(backlog, key);
      state.(notification := Some(if known.Some? then known.value else NewReport(key, c.reason, c.state)),
             backlog := WithoutKey(backlog, key))
  }

  /** `#notify`. */
  function Notify(cfg: Config, m: Memory, c: P.Classification, identity: Identity,
                  nowMs: int, wallMs: int, accepted: bool): Memory
  {
    SubmitCurrent(cfg, Memory(Promoted(m.state, ReportKey(identity, c.reason, c.state), c), m.log), nowMs, wallMs,
                  accepted)
  }

  function SetAction(m: Memory, action: P.Action, nowMs: int, outcome: ActionOutcome): Memory {
    Memory(m.state.(lastAction := Some(LastAction(action, nowMs, outcome))), m.log)
  }

  /** How the action phase of a safe-mode tick ends. */
  datatype Acted = Acted(memory: Memory, classification: P.Classification, report: bool)

  function FailedAction(m: Memory, action: P.Action, nowMs: int): Acted {
    Acted(SetAction(m, action, nowMs, ActionFailure),
          P.Classification(true, P.ActionFailed(action), P.HumanRequiredOther), true)
  }

  /** The bookkeeping an action with process-level authority is written with before it is
      dispatched. */
  function Recorded(m: Memory, a: Assessment, nowMs: int): Memory {
    SetAction(
      Memory(m.state.(recoveryCount := m.state.recoveryCount + 1,
                      brokerStarts := if a.action.StartBroker? then a.brokerStarts + [nowMs] else m.state.brokerStarts),
             m.log),
      a.action, nowMs, ActionDispatching)
  }

  function Reconciled(m: Memory, a: Assessment): Memory {
    Memory(m.state.(reconciliation := a.terminal), m.log)
  }

  /** A broker start is written before it is dispatched. */
  function Act(cfg: Config, m: Memory, a: Assessment, input: TickInput): Acted {
    var now := input.nowMs;
    match a.action
    case StartBroker =>
      var recorded := Recorded(m, a, now);
      if !input.dispatchRecorded then FailedAction(recorded, a.action, now)
      else
        var started := Emit(Write(cfg, recorded), StartBroker(now));
        if input.startSucceeds then Acted(SetAction(started, a.action, now, Succeeded), a.classification, false)
        else FailedAction(started, a.action, now)
    case AttachExactWorkflow =>
      var attached := Emit(m, AttachWorkflow);
      if input.attachSucceeds then Acted(SetAction(attached, a.action, now, Succeeded), a.classification, false)
      else FailedAction(attached, a.action, now)
    case ReconcileExactWorkflow =>
      var recorded := Recorded(m, a, now);
      if !input.dispatchRecorded then FailedAction(recorded, a.action, now)
      else
        var asked := Emit(Write(cfg, recorded), ReconcileWorkflow);
        if input.reconciles then
          Acted(SetAction(Reconciled(asked, a), a.action, now, TerminalObserved), UnresolvedTerminal(), true)
        else FailedAction(asked, a.action, now)
    case NotifyUser => Acted(m, a.classification, true)
    case _ => Acted(m, a.classification, false)
  }

  function ReportIdentity(state: EngineState, a: Assessment, input: TickInput, semantic: Option<nat>): Identity {
    Identity(
      SessionOf(input.session),
      if state.unavailability.Some? then OrElse(state.unavailability.value.brokerEpoch, input.broker.epoch)
      else input.broker.epoch,
      if state.unavailability.Some? then Some(state.unavailability.value.identity) else None,
      a.terminal, semantic)
  }

  /** The report of the current incident, the retry of an unaccepted one, or the clearing of an
      accepted one after recovery. */
  function Report(cfg: Config, acted: Acted, a: Assessment, input: TickInput): Memory {
    var m := acted.memory;
    if acted.report && acted.classification.humanRequired then
      var reported := Notify(cfg, m, acted.classification, ReportIdentity(m.state, a, input, None),
                             input.nowMs, input.reportWallMs, input.reportAccepted);
      if a.action.NotifyUser? then
        SetAction(reported, a.action, input.nowMs, ReportOutcome(m, acted, a, input))
      else reported
    else if m.state.notification.Some? && !m.state.notification.value.outcome.Accepted? then
      SubmitCurrent(cfg, m, input.nowMs, input.reportWallMs, input.reportAccepted)
    else if Calm(acted.classification.state) then
      Memory(m.state.(notification := None), m.log)
    else m
  }

  /** What `#notify` returns for the current incident. */
  function ReportOutcome(m: Memory, acted: Acted, a: Assessment, input: TickInput): ActionOutcome {
    var c := acted.classification;
    var key := ReportKey(ReportIdentity(m.state, a, input, None), c.reason, c.state);
    var r := Promoted(m.state, key, c).notification.value;
    if Submits(r, input.nowMs) then (if input.reportAccepted then Succeeded else ActionFailure)
    else if r.outcome.Accepted? && !RepeatDue(r, input.nowMs) then AlreadyReported
    else ActionFailure
  }

  function SemanticKeys(incidents: seq<Incident>): set<nat> {
    set i | 0 <= i < |incidents| && incidents[i].SemanticIncident? :: incidents[i].key
  }

  predicate ReadingStates(state: P.MonitorState) {
    state.Healthy? || state.SendConfirmedCapture?
  }

  predicate ReportsSemantic(c: P.Classification, a: Assessment, semantic: S.State) {
    && ReadingStates(c.state)
    && (semantic.classification.Looping? || semantic.classification.Stagnant?)
    && !(semantic.incidentKey.Some? && semantic.incidentKey.value in SemanticKeys(a.state.incidents))
  }

  function SemanticReport(c: P.Classification, semantic: S.State): P.Classification {
    P.Classification(true, if semantic.classification.Looping? then P.SemanticLooping else P.SemanticStagnant, c.state)
  }

  /** A stall or loop seen while the workflow looks healthy is reported once per incident key. */
  function ReportSemantic(cfg: Config, m: Memory, c: P.Classification, a: Assessment, semantic: S.State,
                          input: TickInput): Memory
  {
    if ReportsSemantic(c, a, semantic) then
      Notify(cfg, m, SemanticReport(c, semantic), ReportIdentity(m.state, a, input, semantic.incidentKey),
             input.nowMs, input.semanticWallMs, input.semanticAccepted)
    else m
  }

  /** The queue rotation: the first due entry goes to the end. */
  function Rotated(backlog: seq<Receipt>, nowMs: int): (r: seq<Receipt>)
    ensures |r| == |backlog|
  {
    var i := FirstDue(backlog, nowMs);
    if i < |backlog| then MovedToEnd(backlog, i) else backlog
  }

  /** At most one retained report per tick, rotated to the end before it is submitted. */
  function ReportQueued(cfg: Config, m: Memory, input: TickInput): Memory {
    var now := input.nowMs;
    var submitted :=
      if FirstDue(m.state.backlog, now) < |m.state.backlog| then
        SubmitLast(cfg, Memory(m.state.(backlog := Rotated(m.state.backlog, now)), m.log),
                   now, input.queuedWallMs, input.queuedAccepted)
      else m;
    Memory(submitted.state.(backlog := WithoutAccepted(submitted.state.backlog)), submitted.log)
  }

  predicate Calm(state: P.MonitorState) {
    state.Healthy? || state.Settled?
  }

  /** The incidents a tick adds: one per change of classification, one per semantic key. A state the
      classifier wrote has a last fingerprint. */
  function NewIncidents(last: Option<(P.MonitorState, P.Reason)>, retained: seq<Incident>, c: P.Classification,
                        semantic: S.State, phase: Option<string>, nowMs: int): seq<Incident>
  {
    (if last != Some((c.state, c.reason)) && !Calm(c.state)
     then [OperationalIncident(c.reason, c.state, nowMs)] else []) +
    (if && ReadingStates(c.state)
        && (semantic.classification.Looping? || semantic.classification.Stagnant? || semantic.classification.Suspect?)
        && semantic.incidentKey.Some? && semantic.incidentKey.value !in SemanticKeys(retained)
        && |semantic.fingerprints| > 0
     then [SemanticIncident(semantic.incidentKey.value, S.IdentityOf(semantic, phase), semantic.reason, c.state, nowMs)]
     else [])
  }

  /** The incidents and the fields every completed tick writes. */
  function Finish(state: EngineState, c: P.Classification, a: Assessment, semantic: S.State,
                  input: TickInput): EngineState {
    var now, phase := input.nowMs, P.PhaseCode(input.broker.workflow);
    state.(
      broker := Some(BrokerEvidence(input.broker.available, input.broker.epoch, input.broker.runtime)),
      brokerStarts := if a.action.StartBroker? && input.session.safeMode then a.brokerStarts + [now]
                      else a.brokerStarts,
      deadSinceAt := a.deadSinceAt,
      boundary := Some(c),
      incidents := a.state.incidents + NewIncidents(state.lastIncident, a.state.incidents, c, semantic, phase, now),
      lastIncident := if Calm(c.state) then None else Some((c.state, c.reason)),
      lastTick := Some(Clock(input.monotonicMs, now)),
      monitor := c.state,
      phase := phase,
      semantic := Some(semantic),
      updatedAt := now,
      workflow := Some(input.session.workflow))
  }

  /** The effects of a safe-mode tick up to its last write. */
  function SafePhases(cfg: Config, m: Memory, a: Assessment, semantic: S.State, input: TickInput): Acted {
    var acted := Act(cfg, m, a, input);
    var reported := Report(cfg, acted, a, input);
    var semanticReported := ReportSemantic(cfg, reported, acted.classification, a, semantic, input);
    Acted(ReportQueued(cfg, semanticReported, input), acted.classification, acted.report)
  }

  /** A whole tick, or nothing when there is no active session, the checkpoint belongs to
      another workflow or the semantic observation is refused. */
  function Tick(cfg: Config, disk: Option<EngineState>, input: TickInput): Option<Memory> {
    if !input.session.active || input.broker.checkpoint.workflow != input.session.workflow then None
    else
      var a := Assess(cfg, disk, input);
      match C.Classify(cfg.hashes, a.state.semantic, SemanticObservation(input, a))
      case Err(_) => None
      case Ok(semantic) =>
        var hold := input.session.keepAwakeOnAc && input.onAc && P.ActiveWorkflow(a.classification.state);
        var m := Emit(Memory(a.state, []), SetAwake(hold));
        var acted :=
          if input.session.safeMode then SafePhases(cfg, m, a, semantic, input)
          else Acted(SetAction(m, a.action, input.nowMs, ShadowOnly), a.classification, false);
        Some(Write(cfg, Memory(Finish(acted.memory.state, acted.classification, a, semantic, input), acted.memory.log)))
  }

  /** The effects a tick goes through. */
  function Steps(cfg: Config, disk: Option<EngineState>, input: TickInput): seq<Step> {
    match Tick(cfg, disk, input)
    case None => []
    case Some(m) => m.log
  }

  /** The state file after a sequence of effects. */
  function DiskAfter(disk: Option<EngineState>, log: seq<Step>): Option<EngineState> {
    if log == [] then disk
    else if log[|log| - 1].Persist? then Some(log[|log| - 1].written)
    else DiskAfter(disk, log[..|log| - 1])
  }
}
