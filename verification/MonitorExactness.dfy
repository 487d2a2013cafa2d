/** What one tick of the monitor takes over, observes, dispatches, submits and records, stated over
    the state file and the observations it starts from, with every duration spelled out
    (src/eagle-monitor-engine.mjs). */
module MonitorExactness {
  import opened Prelude
  import P = MonitorPolicy
  import opened NotificationQueue
  import S = SemanticState
  import opened MonitorEngine
  import opened MonitorTick
  import opened MonitorRuns
  import StartRate

  // ---- what is taken over ---------------------------------------------

  /** The state file is of this workflow and session and not older than its configuration. */
  predicate OfSession(s: EngineState, input: TickInput) {
    && (s.workflow == None || s.workflow == Some(input.session.workflow))
    && (s.session == None ||
        s.session == Some(SessionId(input.session.workflow, input.session.binding, input.session.configuredAt)))
    && s.updatedAt >= input.session.configuredAt
  }

  /** A state file of the session is taken over whole; of any other only the broker starts and the
      incidents are. */
  lemma LoadedExactly(disk: Option<EngineState>, input: TickInput)
    ensures var l := Loaded(disk, input);
      && l.session == Some(SessionId(input.session.workflow, input.session.binding, input.session.configuredAt))
      && l.brokerStarts == (if disk.Some? then disk.value.brokerStarts else [])
      && l.incidents == (if disk.Some? then disk.value.incidents else [])
      && (disk.Some? && OfSession(disk.value, input) ==> l == disk.value.(session := l.session))
      && (disk.None? || !OfSession(disk.value, input) ==>
            && l.broker.None? && l.deadSinceAt.None? && l.boundary.None? && l.lastAction.None? && l.lastIncident.None?
            && l.lastTick.None? && l.monitor.Startup? && l.notification.None? && l.backlog == [] && l.phase.None?
            && l.reconciliation.None? && l.recoveryCount == 0 && l.semantic.None? && l.unavailability.None?
            && l.updatedAt == input.nowMs && l.workflow.None?)
  {
  }

  // ---- what is observed -----------------------------------------------

  /** Exactly the starts of the last ten minutes are recent, each as often as it was recorded. */
  lemma {:induction false} RecentStartsExactly(starts: seq<int>, nowMs: int, t: int)
    ensures multiset(RecentStarts(starts, nowMs))[t] == if t >= nowMs - 600_000 then multiset(starts)[t] else 0
    ensures |RecentStarts(starts, nowMs)| == StartRate.CountFrom(starts, nowMs - 600_000)
  {
    if starts != [] {
      RecentStartsExactly(starts[1..], nowMs, t);
      var recent := RecentStarts(starts[1..], nowMs);
      assert starts == [starts[0]] + starts[1..];
    }
  }

  /** The broker has an owner other than the one recorded as unavailable. */
  predicate OtherOwner(u: Unavailability, broker: Broker) {
    || (u.brokerEpoch.Some? && broker.epoch.Some? && broker.epoch != u.brokerEpoch)
    || (u.runtime.Some? && broker.runtime.Some? && broker.runtime != u.runtime)
  }

  /** The two timers of a tick: each is kept only by uninterrupted evidence, and it expires after a
      second of death and after five minutes of unavailability of one owner. */
  lemma TimersExactly(cfg: Config, disk: Option<EngineState>, input: TickInput)
    ensures var a, l, b := Assess(cfg, disk, input), Loaded(disk, input), input.broker;
      && a.deadSinceAt == (if b.available || !b.conclusivelyDead then None
                           else if l.deadSinceAt.Some? then l.deadSinceAt else Some(input.nowMs))
      && (a.observation.deadConfirmed <==>
          && !b.available && b.conclusivelyDead
          && l.deadSinceAt.Some? && input.nowMs - l.deadSinceAt.value >= 1_000)
      && (a.state.unavailability.Some? <==> !b.available && !b.conclusivelyDead)
      && (a.state.unavailability.Some? ==>
            var u := a.state.unavailability.value;
            && u.firstObservedAt == (if l.unavailability.Some? && !OtherOwner(l.unavailability.value, b)
                                     then l.unavailability.value.firstObservedAt else input.nowMs)
            && u.brokerEpoch == (if b.epoch.Some? || l.unavailability.None? then b.epoch
                                 else l.unavailability.value.brokerEpoch)
            && u.runtime == (if b.runtime.Some? || l.unavailability.None? then b.runtime
                             else l.unavailability.value.runtime))
      && (a.observation.unavailableExpired <==>
          && !b.available && !b.conclusivelyDead
          && l.unavailability.Some? && !OtherOwner(l.unavailability.value, b)
          && input.nowMs - l.unavailability.value.firstObservedAt >= 300_000)
  {
    hide P.Classify, P.Choose, RecentStarts, TerminalOf, Loaded;
  }

  /** Everything else the classification sees. */
  lemma ObservationExactly(cfg: Config, disk: Option<EngineState>, input: TickInput)
    ensures var a, l, b := Assess(cfg, disk, input), Loaded(disk, input), input.broker;
      var o := a.observation;
      && o.writable == input.writable && o.spaceAvailable == input.spaceAvailable
      && o.sleepDetected == input.sleepDetected && o.policyMatches == input.session.policyMatches
      && (o.wakeDetected <==>
          || input.wakeObserved
          || (l.lastTick.Some? && input.nowMs - l.lastTick.value.wallMs >
                                  input.monotonicMs - l.lastTick.value.monotonicMs + 2 * cfg.pollIntervalMs))
      && (o.crashLoop <==> StartRate.CountFrom(l.brokerStarts, input.nowMs - 600_000) >= 3)
      && (o.runtimeAbsent <==> b.runtime.None?) && (o.runtimeMatches <==> b.runtime == Some(cfg.runtime))
      && o.brokerAvailable == b.available && o.conclusivelyDead == b.conclusivelyDead && o.workflow == b.workflow
      && (o.bindingAvailable <==> input.session.binding.Some?)
      && (o.bindingMatches <==>
          input.session.binding.None? || (b.workflow.Some? && b.workflow.value.binding == input.session.binding))
      && o.nowMs == input.nowMs
  {
    hide P.Classify, P.Choose, RecentStarts, TerminalOf, Loaded;
    RecentStartsExactly(Loaded(disk, input).brokerStarts, input.nowMs, 0);
  }

  /** A terminal that was reconciled before is not classified again while it looks the same. */
  lemma TerminalExactly(cfg: Config, disk: Option<EngineState>, input: TickInput)
    ensures var a, l, b := Assess(cfg, disk, input), Loaded(disk, input), input.broker;
      && (a.terminal.Some? <==>
          b.workflow.Some? && b.workflow.value.status in {P.Cancelled, P.Failed, P.HumanRequired, P.Succeeded})
      && (a.terminal.Some? ==>
            var t, w := a.terminal.value, b.workflow.value;
            && t.brokerEpoch == b.epoch && t.phase == w.phase && t.failure == w.failure && t.status == w.status
            && t.updatedAt == w.updatedAt)
      && var known := l.reconciliation.Some? && l.reconciliation == a.terminal;
         && a.state.reconciliation == (if known then l.reconciliation else None)
         && a.classification == (if known
                                 then P.Classification(true, P.TerminalReconciliationUnresolved, P.HumanRequiredOther)
                                 else P.Classify(a.observation))
         && a.action == P.Choose(a.classification, a.observation)
  {
    hide P.Classify, P.Choose, RecentStarts, DeadSince, UnavailableSince, ObservationOf, Loaded;
  }

  /** What the semantic classifier is told. */
  lemma SemanticObservationExactly(cfg: Config, disk: Option<EngineState>, input: TickInput)
    ensures var a, b := Assess(cfg, disk, input), input.broker;
      var o := SemanticObservation(input, a);
      && o.brokerEpoch == b.epoch && o.checkpoint == b.checkpoint && o.nowMs == input.nowMs
      && (o.settled <==> a.classification.state == P.Settled)
      && (o.humanRequired <==> a.classification.state == P.HumanRequiredAuthChallenge)
      && (o.processHealth == S.ProcessHealthy <==> b.available)
      && (o.processHealth == S.ProcessDead <==> !b.available && b.conclusivelyDead)
      && (o.recoveryActive <==>
          || (b.workflow.Some? && b.workflow.value.phase == P.CodexRecovering)
          || (input.session.safeMode && a.action in {P.ReconcileExactWorkflow, P.StartBroker}))
      && (o.transportHealth == S.TransportUnknown <==> !b.available)
      && (o.transportHealth == S.TransportHealthy <==>
          && b.available
          && (input.session.binding.None? || (b.workflow.Some? && b.workflow.value.binding == input.session.binding))
          && !(b.workflow.Some? && b.workflow.value.delivery.Some?
               && b.workflow.value.delivery.value in
                    {P.ChildStopped, P.ChildUnavailable, P.NotConfirmed, P.ReconcilingDelivery, P.WorkflowStopped}))
  {
    ObservationExactly(cfg, disk, input);
    hide Assess;
  }

  // ---- submissions ----------------------------------------------------

  /** When a receipt is submitted. An accepted one is once its repeat time has come, any other once
      its retry time has. */
  lemma SubmitsExactly(r: Receipt, nowMs: int)
    requires r.outcome.Accepted? ==> r.retryAt.None?
    ensures Submits(r, nowMs) <==>
      if r.outcome.Accepted? then r.nextRepeatAt.Some? && r.nextRepeatAt.value <= nowMs
      else r.retryAt.None? || r.retryAt.value <= nowMs
  {
  }

  /** What a submission leaves: a receipt of the same report, tried now and to be retried five minutes
      later, or accepted now and to be repeated after one, two and then always four hours. */
  lemma SubmissionExactly(r: Receipt, nowMs: int, wallMs: int, accepted: bool)
    requires Submits(r, nowMs)
    ensures var intent := Dispatched(r, nowMs, wallMs);
      var outcome := Resolved(intent, nowMs, accepted);
      var repeats := r.repeatCount + if r.outcome.Accepted? then 1 else 0;
      var at := if wallMs > nowMs then wallMs else nowMs;
      && intent.key == r.key == outcome.key && intent.reason == r.reason == outcome.reason
      && intent.state == r.state == outcome.state
      && intent.outcome.Dispatching? && intent.attemptedAt == Some(at) && intent.retryAt == Some(at + 300_000)
      && intent.repeatCount == repeats == outcome.repeatCount && outcome.attemptedAt == Some(at)
      && (r.outcome.Accepted? ==> intent.acceptedAt.None? && intent.nextRepeatAt.None?)
      && (accepted ==>
            && outcome.outcome.Accepted? && outcome.retryAt.None? && outcome.acceptedAt == Some(nowMs)
            && outcome.nextRepeatAt ==
                 Some(nowMs + if repeats == 0 then 3_600_000 else if repeats == 1 then 7_200_000 else 14_400_000))
      && (!accepted ==> outcome == intent.(outcome := Failed))
  {
  }

  // ---- the queue ------------------------------------------------------

  /** What retaining does in every case. */
  lemma RetainExactly(backlog: seq<Receipt>, current: Option<Receipt>)
    ensures var after := Retain(backlog, current);
      var waits := current.Some? && current.value.outcome != Accepted
                   && forall i :: 0 <= i < |backlog| ==> backlog[i].key != current.value.key;
      && (!waits ==> after == backlog)
      && (waits && |backlog| < 16 ==> after == backlog + [current.value])
      && (waits && |backlog| >= 16 ==>
            if exists i :: 0 <= i < |backlog| && backlog[i].reason == P.NotificationBacklogOverflow
            then after == backlog
            else after == backlog + [Receipt(OverflowKey, P.NotificationBacklogOverflow, P.HumanRequiredOther, Pending,
                                             None, None, None, None, 0)])
  {
  }

  predicate FirstOf(backlog: seq<Receipt>, key: Key, i: nat)
    requires i < |backlog|
  {
    backlog[i].key == key && forall k :: 0 <= k < i ==> backlog[k].key != key
  }

  /** A report that takes the slot keeps its own receipt: the one in the slot, else the one in the
      backlog, else a new pending one. */
  lemma PromotedExactly(s: EngineState, key: Key, c: P.Classification)
    requires DistinctKeys(s.backlog)
    ensures var t := Promoted(s, key, c);
      var retained := Retain(s.backlog, s.notification);
      && t == s.(notification := t.notification, backlog := t.backlog) && t.notification.Some?
      && t.notification.value.key == key
      && (s.notification.Some? && s.notification.value.key == key ==> t == s)
      && (s.notification.None? || s.notification.value.key != key ==>
            && (forall r :: r in t.backlog <==> r in retained && r.key != key)
            && (forall i :: 0 <= i < |retained| && FirstOf(retained, key, i) ==> t.notification.value == retained[i])
            && ((forall i :: 0 <= i < |retained| ==> retained[i].key != key) ==>
                  t.notification.value == Receipt(key, c.reason, c.state, Pending, None, None, None, None, 0)))
  {
    hide DistinctKeys, Retain;
    if !(s.notification.Some? && s.notification.value.key == key) {
      var retained := Retain(s.backlog, s.notification);
      WithoutKeyMembers(retained, key);
      LookupFinds(retained, key);
      forall i | 0 <= i < |retained| && FirstOf(retained, key, i)
        ensures Lookup(retained, key) == Some(retained[i])
      {
        FirstIsFound(retained, key, i);
      }
    }
  }

  lemma {:induction false} FirstIsFound(backlog: seq<Receipt>, key: Key, i: nat)
    requires i < |backlog| && FirstOf(backlog, key, i)
    ensures Lookup(backlog, key) == Some(backlog[i])
  {
    if i > 0 {
      assert forall k :: 0 <= k < i - 1 ==> backlog[1..][k].key == backlog[k + 1].key;
      FirstIsFound(backlog[1..], key, i - 1);
    }
  }

  // ---- incidents ------------------------------------------------------

  predicate KnownIncident(incidents: seq<Incident>, key: nat) {
    exists i :: 0 <= i < |incidents| && incidents[i].SemanticIncident? && incidents[i].key == key
  }

  /** A tick adds an incident per change of a classification that is not calm, and one per new key of
      a suspected, stagnant or looping workflow it is reading, and nothing else. */
  lemma IncidentsExactly(last: Option<(P.MonitorState, P.Reason)>, retained: seq<Incident>, c: P.Classification,
                         semantic: S.State, phase: Option<string>, nowMs: int)
    ensures var added := NewIncidents(last, retained, c, semantic, phase, nowMs);
      var changed := c.state !in {P.Healthy, P.Settled} && last != Some((c.state, c.reason));
      var stalled :=
        && c.state in {P.Healthy, P.SendConfirmedCapture}
        && semantic.classification in {S.Looping, S.Stagnant, S.Suspect}
        && semantic.incidentKey.Some? && !KnownIncident(retained, semantic.incidentKey.value)
        && |semantic.fingerprints| > 0;
      && |added| == (if changed then 1 else 0) + (if stalled then 1 else 0)
      && (changed ==> added[0] == OperationalIncident(c.reason, c.state, nowMs))
      && (stalled ==>
            && added[|added| - 1].SemanticIncident? && added[|added| - 1].key == semantic.incidentKey.value
            && added[|added| - 1].identity == S.IdentityOf(semantic, phase)
            && added[|added| - 1].semanticReason == semantic.reason
            && added[|added| - 1].state == c.state && added[|added| - 1].occurredAt == nowMs)
  {
    if semantic.incidentKey.Some? {
      KnownKeys(retained, semantic.incidentKey.value);
    }
  }

  lemma KnownKeys(incidents: seq<Incident>, key: nat)
    ensures KnownIncident(incidents, key) <==> key in SemanticKeys(incidents)
  {
  }
}
