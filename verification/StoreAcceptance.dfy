/** The assertions the store makes on every state it reads or writes, and exactly which writes of
    the engine they refuse (src/eagle-monitor-store.mjs, `assertState`, `assertIncident`). */
module StoreAcceptance {
  import opened Prelude
  import P = MonitorPolicy
  import opened NotificationQueue
  import S = SemanticState
  import C = SemanticClassifier
  import SemanticRuns
  import LoopDetection
  import opened MonitorEngine
  import opened MonitorTick
  import opened MonitorRuns
  import StartRate

  predicate NonNegative(x: Option<int>) {
    x.Some? ==> x.value >= 0
  }

  predicate AcceptsTimers(s: EngineState) {
    && |s.brokerStarts| <= P.CRASH_LOOP_LIMIT
    && (forall i :: 0 <= i < |s.brokerStarts| ==> s.brokerStarts[i] >= 0)
    && NonNegative(s.deadSinceAt)
    && (s.unavailability.Some? ==>
          s.unavailability.value.firstObservedAt >= 0 && NonNegative(s.unavailability.value.brokerEpoch))
    && (s.broker.Some? ==> NonNegative(s.broker.value.epoch))
  }

  predicate DistinctSemanticKeys(incidents: seq<Incident>) {
    forall i, j :: 0 <= i < j < |incidents| && incidents[i].SemanticIncident? && incidents[j].SemanticIncident? ==>
      incidents[i].key != incidents[j].key
  }

  /** The reason a semantic incident must carry. */
  predicate ExpectedReason(identity: S.Incident, reason: S.Reason) {
    match identity.classification
    case Looping => identity.loopPattern.Some? && reason == S.LoopDetected(identity.loopPattern.value)
    case Stagnant => identity.loopPattern.None? && reason == S.UsefulProgressLeaseExpired
    case Suspect => identity.loopPattern.None? && reason == S.UsefulProgressUnconfirmed
    case _ => false
  }

  /** The derivation evidence of a semantic incident: its key is recomputed from its own fields. */
  predicate Derived(h: S.Hashes, x: Incident) {
    x.SemanticIncident? ==>
      && x.key == h.ofIncident(x.identity) && ExpectedReason(x.identity, x.semanticReason)
      && ReadingStates(x.state)
  }

  predicate AllDerived(h: S.Hashes, incidents: seq<Incident>) {
    forall i :: 0 <= i < |incidents| ==> Derived(h, incidents[i])
  }

  /** The identity of a semantic incident is derived from its key, so distinct identities mean
      distinct keys. */
  predicate AcceptsIncidents(cfg: Config, incidents: seq<Incident>) {
    |incidents| <= cfg.incidentLimit && DistinctSemanticKeys(incidents) && AllDerived(cfg.hashes, incidents)
  }

  predicate GenuineBoundary(s: EngineState) {
    && s.monitor.HumanRequiredAuthChallenge?
    && s.boundary.Some? && s.boundary.value.humanRequired
    && s.boundary.value.reason.FailureReported? && P.AuthChallenge(s.boundary.value.reason.code)
  }

  /** The semantic state is valid and belongs to the rest of the monitor state. */
  predicate AcceptsSemantic(cfg: Config, s: EngineState) {
    s.semantic.Some? ==>
      var semantic := s.semantic.value;
      && S.ValidState(cfg.hashes, semantic)
      && (s.workflow.Some? ==> semantic.workflow == s.workflow.value)
      && (s.broker.Some? ==> semantic.brokerEpoch == s.broker.value.epoch)
      && semantic.observedAt == s.updatedAt
      && (s.monitor.Settled? <==> semantic.classification.Settled?)
      && (GenuineBoundary(s) <==> semantic.classification.HumanRequired?)
  }

  /** The key of the semantic state is recomputed with the phase of the monitor's own state. */
  predicate AcceptsIdentity(cfg: Config, s: EngineState) {
    s.semantic.Some? && s.semantic.value.incidentKey.Some? ==>
      && |s.semantic.value.fingerprints| > 0
      && s.semantic.value.incidentKey.value == cfg.hashes.ofIncident(S.IdentityOf(s.semantic.value, s.phase))
  }

  /** `assertState`, with the faithfulness of the queue's identities. */
  predicate Accepts(cfg: Config, s: EngineState) {
    && Queued(s)
    && AcceptsTimers(s)
    && AcceptsIncidents(cfg, s.incidents)
    && AcceptsSemantic(cfg, s)
    && AcceptsIdentity(cfg, s)
  }

  predicate AcceptsDisk(cfg: Config, disk: Option<EngineState>) {
    disk.Some? ==> Accepts(cfg, disk.value)
  }

  /** A tick strictly later than the state on disk, with a well-formed broker epoch. */
  predicate LaterTick(disk: Option<EngineState>, input: TickInput) {
    && input.nowMs >= 0 && NonNegative(input.broker.epoch)
    && (disk.Some? ==> disk.value.updatedAt < input.nowMs)
  }

  lemma TailKeepsIncidents(incidents: seq<Incident>, limit: nat)
    requires DistinctSemanticKeys(incidents)
    ensures DistinctSemanticKeys(Tail(incidents, limit)) && |Tail(incidents, limit)| <= limit
  {
  }

  lemma TailKeepsDerived(h: S.Hashes, incidents: seq<Incident>, limit: nat)
    requires AllDerived(h, incidents)
    ensures AllDerived(h, Tail(incidents, limit))
  {
    hide Derived;
  }

  lemma NewIncidentsKeep(last: Option<(P.MonitorState, P.Reason)>, retained: seq<Incident>, c: P.Classification,
                         semantic: S.State, phase: Option<string>, nowMs: int)
    requires DistinctSemanticKeys(retained)
    ensures DistinctSemanticKeys(retained + NewIncidents(last, retained, c, semantic, phase, nowMs))
  {
    var added := NewIncidents(last, retained, c, semantic, phase, nowMs);
    var all := retained + added;
    forall i, j | 0 <= i < j < |all| && all[i].SemanticIncident? && all[j].SemanticIncident?
      ensures all[i].key != all[j].key
    {
      if i < |retained| <= j {
        assert all[j] == added[j - |retained|];
        assert retained[i].key in SemanticKeys(retained);
      }
    }
  }

  /** The incident of a valid semantic state is derived exactly as its key is. */
  lemma NewIncidentsDerived(cfg: Config, last: Option<(P.MonitorState, P.Reason)>, retained: seq<Incident>,
                            c: P.Classification, semantic: S.State, phase: Option<string>, nowMs: int)
    requires AllDerived(cfg.hashes, retained) && S.ValidReason(semantic)
    requires semantic.incidentKey.Some? ==>
      |semantic.fingerprints| > 0 && semantic.incidentKey.value == cfg.hashes.ofIncident(S.IdentityOf(semantic, phase))
    ensures AllDerived(cfg.hashes, retained + NewIncidents(last, retained, c, semantic, phase, nowMs))
  {
    var added := NewIncidents(last, retained, c, semantic, phase, nowMs);
    assert AllDerived(cfg.hashes, added);
  }

  /** What a tick takes over from the state file, or a fresh state, is acceptable. */
  lemma LoadedAccepted(cfg: Config, disk: Option<EngineState>, input: TickInput)
    requires AcceptsDisk(cfg, disk) && LaterTick(disk, input)
    ensures var l := Loaded(disk, input);
            && AcceptsTimers(l) && DistinctSemanticKeys(l.incidents) && AcceptsSemantic(cfg, l)
            && AllDerived(cfg.hashes, l.incidents) && AcceptsIdentity(cfg, l)
            && (disk.Some? ==> |l.incidents| <= cfg.incidentLimit)
            && (l.semantic.Some? ==> disk.Some? && l.semantic == disk.value.semantic)
            && |l.incidents| <= cfg.incidentLimit
  {
    hide S.ValidState, GoodQueue, S.IdentityOf, Derived;
  }

  lemma AssessedAccepted(cfg: Config, disk: Option<EngineState>, input: TickInput)
    requires AcceptsDisk(cfg, disk) && LaterTick(disk, input)
    ensures var a := Assess(cfg, disk, input);
            && AcceptsTimers(a.state) && AcceptsIncidents(cfg, a.state.incidents) && AcceptsSemantic(cfg, a.state)
            && AcceptsIdentity(cfg, a.state)
            && (a.state.semantic.Some? ==> disk.Some? && a.state.semantic == disk.value.semantic)
            && NonNegative(a.deadSinceAt)
            && |a.brokerStarts| <= P.CRASH_LOOP_LIMIT
            && (forall t :: t in a.brokerStarts ==> t >= 0)
  {
    hide S.ValidState, GoodQueue, P.Classify, P.Choose, TerminalOf, ObservationOf, RecentStarts, Loaded,
      DistinctSemanticKeys, AllDerived, S.IdentityOf;
    LoadedAccepted(cfg, disk, input);
    StartRate.RecentCounts(Loaded(disk, input).brokerStarts, input.nowMs, input.nowMs);
  }

  lemma MidAccepted(cfg: Config, disk: Option<EngineState>, input: TickInput, w: EngineState)
    requires AcceptsDisk(cfg, disk) && LaterTick(disk, input)
    requires MidWrite(cfg, Assess(cfg, disk, input), input.nowMs, w) && Queued(w)
    ensures Accepts(cfg, w)
  {
    hide S.ValidState, GoodQueue, Assess, DistinctSemanticKeys, AllDerived, S.IdentityOf;
    var a := Assess(cfg, disk, input);
    AssessedAccepted(cfg, disk, input);
    TailKeepsIncidents(a.state.incidents, cfg.incidentLimit);
    TailKeepsDerived(cfg.hashes, a.state.incidents, cfg.incidentLimit);
    if a.action.StartBroker? {
      StartRate.StartNeedsRoom(cfg, disk, input);
      assert forall i :: 0 <= i < |a.brokerStarts| ==> a.brokerStarts[i] in a.brokerStarts;
    }
  }

  /** A boundary or a settlement is observed, never acted on, so the tick concludes with it. */
  lemma BoundariesConclude(o: P.Observation)
    ensures var c := P.Classify(o);
            && (c.state.Settled? ==> P.Choose(c, o).Observe? && !c.humanRequired)
            && (c.state.HumanRequiredAuthChallenge? ==>
                  && P.Choose(c, o).NotifyUser? && c.humanRequired
                  && c.reason.FailureReported? && P.AuthChallenge(c.reason.code))
  {
  }

  lemma BoundariesDecide(o: S.Observation, newEvidence: bool, wait: Option<S.WaitLease>,
                         detectedLoop: Option<LoopDetection.LoopPattern>, progressActive: bool, suspectCount: int)
    ensures var v := C.Decide(o, newEvidence, wait, detectedLoop, progressActive, suspectCount);
            && (v.classification.Settled? <==> o.settled)
            && (v.classification.HumanRequired? <==> !o.settled && o.humanRequired)
  {
  }

  /** The semantic state a tick concludes with. */
  lemma SemanticStep(h: S.Hashes, previous: Option<S.State>, o: S.Observation)
    requires previous.Some? ==> S.ValidState(h, previous.value) && previous.value.observedAt < o.nowMs
    requires C.Classify(h, previous, o).Ok?
    ensures var s := C.Classify(h, previous, o).value;
            && S.ValidState(h, s) && s.observedAt == o.nowMs && s.workflow == o.checkpoint.workflow
            && s.brokerEpoch == o.brokerEpoch
            && (s.classification.Settled? <==> o.settled)
            && (s.classification.HumanRequired? <==> !o.settled && o.humanRequired)
  {
    hide S.ValidState, C.FingerprintsOf, C.NewlyAdmitted, C.WaitStepOf, C.Decide, C.DetectedLoop, C.ProgressActiveNow,
      C.IncidentOf, C.NextProgressLease, C.Unseen, S.NoveltyThousandths, S.ValidCheckpoint, C.Independent;
    SemanticRuns.LaterStepValid(h, previous, o);
    var fence := C.PriorFence(previous, o);
    BoundariesDecide(o, C.NewlyAdmitted(previous, o) != [], C.WaitStepOf(previous, o).lease,
                     C.DetectedLoop(h, previous, o), C.ProgressActiveNow(h, previous, o),
                     (if fence.Some? then fence.value.suspectCount else 0) +
                     (if C.Independent(h, previous, o) then 1 else 0));
  }

  /** The key the state of a later observation carries. */
  lemma SemanticKey(h: S.Hashes, previous: Option<S.State>, o: S.Observation)
    requires previous.Some? ==> previous.value.observedAt < o.nowMs
    requires C.Classify(h, previous, o).Ok?
    ensures var s := C.Classify(h, previous, o).value;
            && |s.fingerprints| > 0 && (s.incidentKey.Some? <==> S.IncidentRequired(s.classification))
            && (s.incidentKey.Some? ==> s.incidentKey.value == h.ofIncident(S.IdentityOf(s, o.checkpoint.phase)))
  {
    hide C.NextState, S.IdentityOf, S.ValidState, S.ValidCheckpoint;
    SemanticRuns.KeyOfIdentity(h, previous, o);
  }

  lemma FinalSemanticAccepted(cfg: Config, disk: Option<EngineState>, input: TickInput, w: EngineState)
    requires AcceptsDisk(cfg, disk) && LaterTick(disk, input)
             && input.broker.checkpoint.workflow == input.session.workflow
    requires Semantic(cfg, disk, input).Ok?
    requires FinalWrite(cfg, Assess(cfg, disk, input), Semantic(cfg, disk, input).value, input, w)
    ensures AcceptsSemantic(cfg, w)
  {
    hide S.ValidState, GoodQueue, Assess, AcceptsIncidents, AcceptsTimers, C.Classify, NewIncidents, P.Classify,
      P.Choose, P.AuthChallenge;
    var a := Assess(cfg, disk, input);
    AssessedAccepted(cfg, disk, input);
    SemanticStep(cfg.hashes, a.state.semantic, SemanticObservation(input, a));
    AssessClassifies(cfg, disk, input);
    BoundariesConclude(a.observation);
    ActionChosen(cfg, disk, input);
  }

  /** The phase the checkpoint was taken in is the phase of the workflow as it was observed. */
  predicate PhasesAgree(input: TickInput) {
    input.broker.checkpoint.phase == P.PhaseCode(input.broker.workflow)
  }

  /** Whether the semantic state a tick concludes with names an incident. */
  predicate NamesIncident(cfg: Config, disk: Option<EngineState>, input: TickInput) {
    Semantic(cfg, disk, input).Ok? && S.IncidentRequired(Semantic(cfg, disk, input).value.classification)
  }

  lemma FinalKey(cfg: Config, disk: Option<EngineState>, input: TickInput, w: EngineState)
    requires AcceptsDisk(cfg, disk) && LaterTick(disk, input) && Semantic(cfg, disk, input).Ok?
    requires FinalWrite(cfg, Assess(cfg, disk, input), Semantic(cfg, disk, input).value, input, w)
    ensures !NamesIncident(cfg, disk, input) || PhasesAgree(input) ==> AcceptsIdentity(cfg, w)
    ensures Collisionless(cfg) && NamesIncident(cfg, disk, input) && !PhasesAgree(input) ==> !AcceptsIdentity(cfg, w)
    ensures var s := Semantic(cfg, disk, input).value;
      && w.semantic == Some(s) && |s.fingerprints| > 0 && S.ValidReason(s)
      && (s.incidentKey.Some? <==> NamesIncident(cfg, disk, input))
  {
    hide S.ValidState, GoodQueue, Assess, AcceptsIncidents, AcceptsTimers, AcceptsSemantic, C.Classify, NewIncidents,
      S.IdentityOf, P.PhaseCode;
    var a := Assess(cfg, disk, input);
    AssessedAccepted(cfg, disk, input);
    if disk.Some? { PreviousIsValid(cfg, disk.value); }
    SemanticStep(cfg.hashes, a.state.semantic, SemanticObservation(input, a));
    SemanticKey(cfg.hashes, a.state.semantic, SemanticObservation(input, a));
    var s := Semantic(cfg, disk, input).value;
    ValidHasReason(cfg.hashes, s);
    SemanticRuns.IdentityNamesPhase(s, w.phase);
    SemanticRuns.IdentityNamesPhase(s, input.broker.checkpoint.phase);
  }

  ghost predicate Collisionless(cfg: Config) {
    forall a, b: S.Incident :: cfg.hashes.ofIncident(a) == cfg.hashes.ofIncident(b) ==> a == b
  }

  lemma PreviousIsValid(cfg: Config, s: EngineState)
    requires AcceptsSemantic(cfg, s)
    ensures s.semantic.Some? ==>
              S.ValidState(cfg.hashes, s.semantic.value) && s.semantic.value.observedAt == s.updatedAt
  {
    hide S.ValidState;
  }

  lemma ValidHasReason(h: S.Hashes, s: S.State)
    requires S.ValidState(h, s)
    ensures S.ValidReason(s)
  {
    hide S.ValidReason, S.ValidRelations, S.ValidHistories, S.ValidScalars;
  }

  lemma FinalAccepted(cfg: Config, disk: Option<EngineState>, input: TickInput, w: EngineState)
    requires AcceptsDisk(cfg, disk) && LaterTick(disk, input)
             && input.broker.checkpoint.workflow == input.session.workflow
    requires Semantic(cfg, disk, input).Ok?
    requires FinalWrite(cfg, Assess(cfg, disk, input), Semantic(cfg, disk, input).value, input, w) && Queued(w)
    requires !NamesIncident(cfg, disk, input) || PhasesAgree(input)
    ensures Accepts(cfg, w)
  {
    hide AcceptsSemantic, GoodQueue, Assess, DistinctSemanticKeys, AllDerived, Semantic, NewIncidents, NamesIncident,
      PhasesAgree, S.IdentityOf, P.PhaseCode, S.ValidReason;
    var a := Assess(cfg, disk, input);
    var semantic := Semantic(cfg, disk, input).value;
    FinalSemanticAccepted(cfg, disk, input, w);
    FinalKey(cfg, disk, input, w);
    AssessedAccepted(cfg, disk, input);
    var all := a.state.incidents +
      NewIncidents(a.state.lastIncident, a.state.incidents, w.boundary.value, semantic, w.phase, input.nowMs);
    NewIncidentsKeep(a.state.lastIncident, a.state.incidents, w.boundary.value, semantic, w.phase, input.nowMs);
    NewIncidentsDerived(cfg, a.state.lastIncident, a.state.incidents, w.boundary.value, semantic, w.phase, input.nowMs);
    TailKeepsIncidents(all, cfg.incidentLimit);
    TailKeepsDerived(cfg.hashes, all, cfg.incidentLimit);
    if a.action.StartBroker? { StartRate.StartNeedsRoom(cfg, disk, input); }
    assert forall i :: 0 <= i < |a.brokerStarts| ==> a.brokerStarts[i] in a.brokerStarts;
  }

  lemma ActionChosen(cfg: Config, disk: Option<EngineState>, input: TickInput)
    ensures var a := Assess(cfg, disk, input); a.action == P.Choose(a.classification, a.observation)
  {
    hide P.Classify, P.Choose, RecentStarts, DeadSince, UnavailableSince, TerminalOf, Loaded, ObservationOf;
  }

  /** Every state a tick writes mid-way passes the store's assertions, and the last one exactly if
      it names no incident or the phase of the checkpoint is the workflow's: the key the classifier
      derived holds the checkpoint's phase, the store recomputes it with the workflow's. */
  lemma TickWritesAccepted(cfg: Config, disk: Option<EngineState>, input: TickInput)
    requires AcceptsDisk(cfg, disk) && LaterTick(disk, input) && Tick(cfg, disk, input).Some?
    ensures var log := Steps(cfg, disk, input);
      && log != [] && log[|log| - 1].Persist?
      && (forall i :: 0 <= i < |log| - 1 && log[i].Persist? ==> Accepts(cfg, log[i].written))
      && (!NamesIncident(cfg, disk, input) || PhasesAgree(input) ==> Accepts(cfg, log[|log| - 1].written))
      && (Collisionless(cfg) && NamesIncident(cfg, disk, input) && !PhasesAgree(input) ==>
            !Accepts(cfg, log[|log| - 1].written))
  {
    hide Assess, Semantic, Tick, Steps, GoodQueue, MidWrite, FinalWrite, Accepts, NamesIncident, PhasesAgree,
      Collisionless;
    var log := Steps(cfg, disk, input);
    assert QueuedDisk(disk) by { AcceptedQueue(cfg, disk); }
    TickShape(cfg, disk, input);
    OwnCheckpoint(cfg, disk, input);
    var mid := log[..|log| - 1];
    forall i | 0 <= i < |log| - 1 && log[i].Persist? ensures Accepts(cfg, log[i].written) {
      assert mid[i] == log[i] && MidStep(cfg, Assess(cfg, disk, input), input, mid, i);
      MidAccepted(cfg, disk, input, log[i].written);
    }
    var w := log[|log| - 1].written;
    FinalKey(cfg, disk, input, w);
    if !NamesIncident(cfg, disk, input) || PhasesAgree(input) {
      FinalAccepted(cfg, disk, input, w);
    } else if Accepts(cfg, w) {
      AcceptedIdentity(cfg, w);
    }
  }

  /** A checkpoint taken while a prompt was staged, and the workflow as it was observed right after
      its Send was confirmed: two requests to the broker, one tick. */
  function MixedPhases(): TickInput {
    TickInput(
      Session(true, 0, None, 0, true, false, true), 1, 0, true, true, false, false, false,
      Broker(true, false, Some(1), None,
             Some(P.Workflow(P.Convergence, P.OtherStatus("running"), P.SendConfirmed, None, None, None, Some(1))),
             S.Checkpoint(0, Some("prompt_staged"), [], None, 0, 0)),
      true, true, true, true, 1, true, 1, true, 1, true)
  }

  /** The very first tick of a session can be refused: it suspects the workflow, and the phases it
      observed differ. */
  lemma MixedPhasesAreRefused(cfg: Config)
    requires Collisionless(cfg)
    ensures var log := Steps(cfg, None, MixedPhases());
      && LaterTick(None, MixedPhases()) && Tick(cfg, None, MixedPhases()).Some?
      && log != [] && log[|log| - 1].Persist? && !Accepts(cfg, log[|log| - 1].written)
  {
    hide Tick, Steps, Accepts, NamesIncident, PhasesAgree, Collisionless;
    MixedPhasesSuspect(cfg);
    TickWritesAccepted(cfg, None, MixedPhases());
  }

  lemma MixedPhasesSuspect(cfg: Config)
    ensures Tick(cfg, None, MixedPhases()).Some? && NamesIncident(cfg, None, MixedPhases())
            && !PhasesAgree(MixedPhases())
  {
    hide SafePhases, Finish, Stored, P.Choose, P.Classify, P.PhaseCode, PhasesAgree, C.Classify, Assess;
    var input := MixedPhases();
    var a := Assess(cfg, None, input);
    MixedPhasesDiffer();
    MixedPhasesCapture(cfg);
    MixedPhasesClassify(cfg.hashes, SemanticObservation(input, a));
  }

  lemma MixedPhasesDiffer()
    ensures !PhasesAgree(MixedPhases())
  {
    assert P.PhaseText(P.SendConfirmed)[0] == 's';
  }

  lemma MixedPhasesCapture(cfg: Config)
    ensures var a := Assess(cfg, None, MixedPhases());
      a.state.semantic.None? && a.classification.state.SendConfirmedCapture?
  {
    hide P.Choose, P.AgedAtLeast;
  }

  /** A first observation that brings no evidence and does not wait raises a suspicion. */
  lemma MixedPhasesClassify(h: S.Hashes, o: S.Observation)
    requires o.checkpoint == MixedPhases().broker.checkpoint && o.nowMs == 1 && o.brokerEpoch == Some(1)
    requires !o.settled && !o.humanRequired
    ensures C.Classify(h, None, o).Ok? && C.Classify(h, None, o).value.classification.Suspect?
  {
    hide C.FingerprintsOf, C.DetectedLoop, C.IncidentOf, S.NoveltyThousandths, C.Decide, S.Sort;
    assert C.Unseen([], []) == [] && C.NewlyAdmitted(None, o) == [];
    assert !C.ProgressActiveNow(h, None, o) && C.WaitStepOf(None, o).lease.None? && C.Independent(h, None, o);
    FirstSuspicion(o, C.DetectedLoop(h, None, o));
  }

  lemma FirstSuspicion(o: S.Observation, detectedLoop: Option<LoopDetection.LoopPattern>)
    requires !o.settled && !o.humanRequired
    ensures C.Decide(o, false, None, detectedLoop, false, 1).classification.Suspect?
  {
  }

  lemma AcceptedIdentity(cfg: Config, w: EngineState)
    requires Accepts(cfg, w)
    ensures AcceptsIdentity(cfg, w)
  {
    hide GoodQueue, AcceptsTimers, AcceptsIncidents, AcceptsSemantic, AcceptsIdentity;
  }

  lemma AcceptedQueue(cfg: Config, disk: Option<EngineState>)
    requires AcceptsDisk(cfg, disk)
    ensures QueuedDisk(disk)
  {
    hide GoodQueue, AcceptsTimers, AcceptsIncidents, AcceptsSemantic;
  }

  lemma OwnCheckpoint(cfg: Config, disk: Option<EngineState>, input: TickInput)
    requires Tick(cfg, disk, input).Some?
    ensures input.broker.checkpoint.workflow == input.session.workflow
  {
    hide Assess, C.Classify, SafePhases, SemanticObservation, Finish, Stored;
  }

  /** Every tick of the run is strictly later than the state file it starts from. */
  ghost predicate LaterTicks(cfg: Config, es: seq<Event>) {
    forall i :: 0 <= i < |es| ==> LaterTick(DiskBefore(cfg, es, i), es[i].input)
  }

  /** A tick that reaches its last write names no incident, or in the phase of its workflow. */
  predicate WritesFit(cfg: Config, disk: Option<EngineState>, e: Event) {
    Completed(cfg, disk, e) ==> !NamesIncident(cfg, disk, e.input) || PhasesAgree(e.input)
  }

  predicate WritesAccepted(cfg: Config, disk: Option<EngineState>, e: Event) {
    var log := Executed(cfg, disk, e);
    forall k :: 0 <= k < |log| && log[k].Persist? ==> Accepts(cfg, log[k].written)
  }

  lemma EventAccepted(cfg: Config, disk: Option<EngineState>, e: Event)
    requires AcceptsDisk(cfg, disk) && LaterTick(disk, e.input)
    ensures WritesFit(cfg, disk, e) ==> WritesAccepted(cfg, disk, e)
    ensures Collisionless(cfg) && WritesAccepted(cfg, disk, e) ==> WritesFit(cfg, disk, e)
    ensures WritesAccepted(cfg, disk, e) ==> AcceptsDisk(cfg, After(cfg, disk, e))
  {
    hide Accepts, Tick, Steps, LaterTick, DiskAfter, NamesIncident, PhasesAgree, Collisionless;
    var steps, log := Steps(cfg, disk, e.input), Executed(cfg, disk, e);
    if Tick(cfg, disk, e.input).None? {
      NoTickNoSteps(cfg, disk, e.input);
    } else {
      TickWritesAccepted(cfg, disk, e.input);
      assert forall k :: 0 <= k < |log| ==> log[k] == steps[k];
      if Completed(cfg, disk, e) {
        assert log == steps && log[|steps| - 1].Persist?;
      }
    }
    var i := LastWrite(disk, log);
  }

  ghost predicate AllFit(cfg: Config, es: seq<Event>) {
    forall i {:trigger WritesFit(cfg, DiskBefore(cfg, es, i), es[i])} ::
      0 <= i < |es| ==> WritesFit(cfg, DiskBefore(cfg, es, i), es[i])
  }

  ghost predicate AllAccepted(cfg: Config, es: seq<Event>) {
    forall i {:trigger WritesAccepted(cfg, DiskBefore(cfg, es, i), es[i])} ::
      0 <= i < |es| ==> WritesAccepted(cfg, DiskBefore(cfg, es, i), es[i])
  }

  lemma Prefixes(cfg: Config, es: seq<Event>)
    requires es != []
    ensures var init, last := es[..|es| - 1], |es| - 1;
      && (LaterTicks(cfg, es) <==> LaterTicks(cfg, init) && LaterTick(DiskBefore(cfg, es, last), es[last].input))
      && (AllFit(cfg, es) <==> AllFit(cfg, init) && WritesFit(cfg, DiskBefore(cfg, es, last), es[last]))
      && (AllAccepted(cfg, es) <==> AllAccepted(cfg, init) && WritesAccepted(cfg, DiskBefore(cfg, es, last), es[last]))
      && DiskBefore(cfg, es, last) == DiskOf(cfg, init)
      && DiskOf(cfg, es) == After(cfg, DiskBefore(cfg, es, last), es[last])
  {
    hide DiskBefore, DiskOf, After, LaterTick, WritesFit, WritesAccepted;
    var init, last := es[..|es| - 1], |es| - 1;
    DiskExtends(cfg, es);
    BeforeLast(cfg, es);
    forall i | 0 <= i < last ensures
      && es[i] == init[i] && DiskBefore(cfg, init, i) == DiskBefore(cfg, es, i)
      && (WritesFit(cfg, DiskBefore(cfg, es, i), es[i]) <==> WritesFit(cfg, DiskBefore(cfg, init, i), init[i]))
      && (WritesAccepted(cfg, DiskBefore(cfg, es, i), es[i]) <==>
          WritesAccepted(cfg, DiskBefore(cfg, init, i), init[i])) {
    }
  }

  lemma BeforeLast(cfg: Config, es: seq<Event>)
    requires es != []
    ensures DiskBefore(cfg, es, |es| - 1) == DiskOf(cfg, es[..|es| - 1])
  {
  }

  /** Over every run of strictly later ticks from an empty data directory, whatever is observed and
      wherever ticks are cut short, the store accepts every write of the engine if and only if each
      tick that reaches its last write names no incident or has its checkpoint in the phase of its
      workflow. */
  lemma {:induction false} EveryWriteIsAccepted(cfg: Config, es: seq<Event>)
    requires LaterTicks(cfg, es)
    ensures AllFit(cfg, es) ==> AllAccepted(cfg, es)
    ensures Collisionless(cfg) && AllAccepted(cfg, es) ==> AllFit(cfg, es)
    ensures AllAccepted(cfg, es) ==> AcceptsDisk(cfg, DiskOf(cfg, es))
    decreases |es|
  {
    hide Accepts, After, LaterTick, LaterTicks, AllFit, AllAccepted, WritesFit, WritesAccepted, DiskBefore,
      Collisionless;
    if es == [] {
      NothingHappened(cfg);
    } else {
      var last := |es| - 1;
      Prefixes(cfg, es);
      EveryWriteIsAccepted(cfg, es[..last]);
      if AllAccepted(cfg, es[..last]) {
        EventAccepted(cfg, DiskBefore(cfg, es, last), es[last]);
      }
    }
  }

  lemma NothingHappened(cfg: Config)
    ensures AllFit(cfg, []) && AllAccepted(cfg, []) && DiskOf(cfg, []) == None
  {
  }
}
