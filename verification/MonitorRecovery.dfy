/** The converse of the timers over whole runs: uninterrupted evidence is acted upon
    (src/eagle-monitor-engine.mjs, src/eagle-monitor-policy.mjs). */
module MonitorRecovery {
  import opened Prelude
  import P = MonitorPolicy
  import L = MonitorLadder
  import opened NotificationQueue
  import opened MonitorEngine
  import opened MonitorTick
  import opened MonitorRuns
  import opened NotificationFairness
  import MonitorTimers
  import MonitorExactness
  import MonitorDispatch

  /** Ticks of one session, none of them before its configuration. */
  ghost predicate OfOneSession(es: seq<Event>, i: nat, n: nat, session: SessionId)
    requires i <= n <= |es|
  {
    forall j :: i <= j < n ==>
      SessionOf(es[j].input.session) == session && es[j].input.nowMs >= 0 && es[j].input.nowMs >= session.configuredAt
  }

  ghost predicate SeeDeath(es: seq<Event>, i: nat, n: nat)
    requires i <= n <= |es|
  {
    forall j :: i <= j < n ==> MonitorTimers.SawDead(es[j].input)
  }

  /** Unavailable without proof of death, under the same owner as far as it is known. */
  ghost predicate SeeUnavailable(es: seq<Event>, i: nat, n: nat, epoch: Option<int>, runtime: Option<nat>)
    requires i <= n <= |es|
  {
    forall j :: i <= j < n ==>
      && MonitorTimers.SawUnavailable(es[j].input)
      && es[j].input.broker.epoch == epoch && es[j].input.broker.runtime == runtime
  }

  predicate DeadSinceBy(disk: Option<EngineState>, session: SessionId, atMs: int) {
    && disk.Some? && Queued(disk.value) && disk.value.session == Some(session)
    && disk.value.updatedAt >= session.configuredAt
    && (disk.value.workflow.Some? ==> disk.value.workflow.value == session.workflow)
    && disk.value.deadSinceAt.Some? && disk.value.deadSinceAt.value <= atMs
  }

  predicate UnavailableBy(disk: Option<EngineState>, session: SessionId, atMs: int, epoch: Option<int>,
                          runtime: Option<nat>) {
    && disk.Some? && Queued(disk.value) && disk.value.session == Some(session)
    && disk.value.updatedAt >= session.configuredAt
    && (disk.value.workflow.Some? ==> disk.value.workflow.value == session.workflow)
    && disk.value.unavailability.Some?
    && var u := disk.value.unavailability.value;
       && u.firstObservedAt <= atMs
       && (epoch.Some? && u.brokerEpoch.Some? ==> u.brokerEpoch == epoch)
       && (runtime.Some? && u.runtime.Some? ==> u.runtime == runtime)
  }

  /** No timer on disk lies in the future. */
  predicate NoFutureTimers(disk: Option<EngineState>, nowMs: int) {
    disk.Some? ==>
      && (disk.value.deadSinceAt.Some? ==> disk.value.deadSinceAt.value <= nowMs)
      && (disk.value.unavailability.Some? ==> disk.value.unavailability.value.firstObservedAt <= nowMs)
  }

  /** What a written state says of its session. */
  lemma WrittenSession(cfg: Config, disk: Option<EngineState>, e: Event)
    requires QueuedDisk(disk) && e.input.nowMs >= 0 && e.input.nowMs >= e.input.session.configuredAt
    requires Wrote(Executed(cfg, disk, e))
    ensures var after, session := After(cfg, disk, e), SessionOf(e.input.session);
      && after.Some? && Queued(after.value) && after.value.session == Some(session)
      && after.value.updatedAt >= session.configuredAt
      && (after.value.workflow.Some? ==> after.value.workflow.value == session.workflow)
  {
    hide Executed, After, StartsIn, GoodQueue, Assess, Completed, Semantic, Wrote;
    EventShape(cfg, disk, e);
    AssessedSession(cfg, disk, e.input);
  }

  lemma AssessedSession(cfg: Config, disk: Option<EngineState>, input: TickInput)
    requires input.nowMs >= input.session.configuredAt
    ensures var s := Assess(cfg, disk, input).state;
      && s.session == Some(SessionOf(input.session)) && s.updatedAt >= input.session.configuredAt
      && (s.workflow.Some? ==> s.workflow.value == input.session.workflow)
  {
    hide P.Classify, P.Choose, ObservationOf, RecentStarts, DeadSince, UnavailableSince, TerminalOf;
  }

  lemma {:induction false} DeathBegins(cfg: Config, disk: Option<EngineState>, e: Event)
    requires QueuedDisk(disk) && e.input.nowMs >= 0 && e.input.nowMs >= e.input.session.configuredAt
    requires Completed(cfg, disk, e) && MonitorTimers.SawDead(e.input) && NoFutureTimers(disk, e.input.nowMs)
    ensures DeadSinceBy(After(cfg, disk, e), SessionOf(e.input.session), e.input.nowMs)
  {
    hide Executed, After, StartsIn, GoodQueue, Assess, Completed, Semantic, Wrote, Loaded;
    EventShape(cfg, disk, e);
    WrittenSession(cfg, disk, e);
    MonitorExactness.TimersExactly(cfg, disk, e.input);
    MonitorExactness.LoadedExactly(disk, e.input);
  }

  lemma {:induction false} DeathKept(cfg: Config, disk: Option<EngineState>, e: Event, atMs: int)
    requires e.input.nowMs >= 0 && e.input.nowMs >= e.input.session.configuredAt && MonitorTimers.SawDead(e.input)
    requires DeadSinceBy(disk, SessionOf(e.input.session), atMs)
    ensures DeadSinceBy(After(cfg, disk, e), SessionOf(e.input.session), atMs)
  {
    hide Executed, After, StartsIn, GoodQueue, Assess, Completed, Semantic, Wrote, Loaded;
    EventShape(cfg, disk, e);
    if Wrote(Executed(cfg, disk, e)) { WrittenSession(cfg, disk, e); }
    MonitorExactness.TimersExactly(cfg, disk, e.input);
    MonitorExactness.LoadedExactly(disk, e.input);
    MonitorTimers.AssessedTimers(cfg, disk, e.input);
  }

  lemma {:induction false} DeathRun(cfg: Config, es: seq<Event>, i: nat, n: nat, session: SessionId)
    requires i < n <= |es| && OfOneSession(es, i, n, session) && SeeDeath(es, i, n)
    requires QueuedDisk(DiskBefore(cfg, es, i)) && NoFutureTimers(DiskBefore(cfg, es, i), es[i].input.nowMs)
    requires CompletedAt(cfg, es, i)
    ensures DeadSinceBy(DiskBefore(cfg, es, n), session, es[i].input.nowMs)
    decreases n
  {
    hide After, Completed, DiskOf, DeadSinceBy, MonitorTimers.SawDead, NoFutureTimers, QueuedDisk, DiskBefore;
    var last := n - 1;
    NextDisk(cfg, es, last);
    if i == last {
      DeathBegins(cfg, DiskBefore(cfg, es, i), es[i]);
    } else {
      DeathRun(cfg, es, i, last, session);
      DeathKept(cfg, DiskBefore(cfg, es, last), es[last], es[i].input.nowMs);
    }
  }

  /** Nothing that a dead broker last said is a terminal. */
  predicate NoTerminal(input: TickInput) {
    input.broker.workflow.Some? ==>
      input.broker.workflow.value.status !in {P.Cancelled, P.Failed, P.HumanRequired, P.Succeeded}
  }

  /** Confirmed death starts the broker: a second after a completed tick that saw it dead, if every
      tick since has seen the same, an undisturbed safe-mode tick that records its intent and runs to
      its end dispatches the start. */
  lemma {:induction false} ConfirmedDeathStartsBroker(cfg: Config, es: seq<Event>, i: nat, n: nat, session: SessionId)
    requires i < n < |es| && OfOneSession(es, i, n + 1, session) && SeeDeath(es, i, n + 1)
    requires QueuedDisk(DiskBefore(cfg, es, i)) && NoFutureTimers(DiskBefore(cfg, es, i), es[i].input.nowMs)
    requires CompletedAt(cfg, es, i) && CompletedAt(cfg, es, n)
    requires es[n].input.nowMs - es[i].input.nowMs >= 1_000
    requires es[n].input.session.safeMode && es[n].input.dispatchRecorded && NoTerminal(es[n].input)
    requires L.Undisturbed(Assess(cfg, DiskBefore(cfg, es, n), es[n].input).observation)
    ensures StartBroker(es[n].input.nowMs) in EffectsAt(cfg, es, n)
  {
    hide DiskOf, Assess, Steps, Tick, Loaded, P.Classify, P.Choose, DiskBefore, GoodQueue, MonitorDispatch.HoldsAwake;
    DeathRun(cfg, es, i, n, session);
    var disk, input := DiskBefore(cfg, es, n), es[n].input;
    MonitorExactness.TimersExactly(cfg, disk, input);
    MonitorExactness.LoadedExactly(disk, input);
    MonitorExactness.ObservationExactly(cfg, disk, input);
    MonitorExactness.TerminalExactly(cfg, disk, input);
    P.StartAuthorityExact(Assess(cfg, disk, input).observation);
    MonitorDispatch.DispatchesExactly(cfg, disk, input);
  }

  lemma {:induction false} UnavailabilityBegins(cfg: Config, disk: Option<EngineState>, e: Event)
    requires QueuedDisk(disk) && e.input.nowMs >= 0 && e.input.nowMs >= e.input.session.configuredAt
    requires Wrote(Executed(cfg, disk, e)) && MonitorTimers.SawUnavailable(e.input)
             && NoFutureTimers(disk, e.input.nowMs)
    ensures UnavailableBy(After(cfg, disk, e), SessionOf(e.input.session), e.input.nowMs, e.input.broker.epoch,
                          e.input.broker.runtime)
  {
    hide Executed, After, StartsIn, GoodQueue, Assess, Completed, Semantic, Wrote, Loaded;
    EventShape(cfg, disk, e);
    WrittenSession(cfg, disk, e);
    MonitorExactness.TimersExactly(cfg, disk, e.input);
    MonitorExactness.LoadedExactly(disk, e.input);
  }

  lemma {:induction false} UnavailabilityKept(cfg: Config, disk: Option<EngineState>, e: Event, atMs: int)
    requires e.input.nowMs >= 0 && e.input.nowMs >= e.input.session.configuredAt
             && MonitorTimers.SawUnavailable(e.input)
    requires UnavailableBy(disk, SessionOf(e.input.session), atMs, e.input.broker.epoch, e.input.broker.runtime)
    ensures UnavailableBy(After(cfg, disk, e), SessionOf(e.input.session), atMs, e.input.broker.epoch,
                          e.input.broker.runtime)
  {
    hide Executed, After, StartsIn, GoodQueue, Assess, Completed, Semantic, Wrote, Loaded;
    EventShape(cfg, disk, e);
    if Wrote(Executed(cfg, disk, e)) { WrittenSession(cfg, disk, e); }
    MonitorExactness.TimersExactly(cfg, disk, e.input);
    MonitorExactness.LoadedExactly(disk, e.input);
  }

  lemma {:induction false} UnavailableRun(cfg: Config, es: seq<Event>, i: nat, n: nat, session: SessionId,
                                          epoch: Option<int>, runtime: Option<nat>)
    requires i < n <= |es| && OfOneSession(es, i, n, session) && SeeUnavailable(es, i, n, epoch, runtime)
    requires QueuedDisk(DiskBefore(cfg, es, i)) && NoFutureTimers(DiskBefore(cfg, es, i), es[i].input.nowMs)
    requires MonitorTimers.WroteAt(cfg, es, i)
    ensures UnavailableBy(DiskBefore(cfg, es, n), session, es[i].input.nowMs, epoch, runtime)
    decreases n
  {
    hide After, Executed, DiskOf, UnavailableBy, MonitorTimers.SawUnavailable, NoFutureTimers, QueuedDisk, DiskBefore,
      Wrote;
    var last := n - 1;
    NextDisk(cfg, es, last);
    if i == last {
      UnavailabilityBegins(cfg, DiskBefore(cfg, es, i), es[i]);
    } else {
      UnavailableRun(cfg, es, i, last, session, epoch, runtime);
      UnavailabilityKept(cfg, DiskBefore(cfg, es, last), es[last], es[i].input.nowMs);
    }
  }

  /** Lasting unavailability is reported: five minutes after a tick that recorded it, if every tick
      since has seen the same owner unavailable and not proven dead, an undisturbed safe-mode tick that
      runs to its end submits the report, unless the report it already holds waits for its next
      try. */
  lemma {:induction false} LastingUnavailabilityIsReported(cfg: Config, es: seq<Event>, i: nat, n: nat,
                                                           session: SessionId, epoch: Option<int>, runtime: Option<nat>)
    requires i < n < |es| && OfOneSession(es, i, n + 1, session) && SeeUnavailable(es, i, n + 1, epoch, runtime)
    requires QueuedDisk(DiskBefore(cfg, es, i)) && NoFutureTimers(DiskBefore(cfg, es, i), es[i].input.nowMs)
    requires MonitorTimers.WroteAt(cfg, es, i) && CompletedAt(cfg, es, n)
    requires es[n].input.nowMs - es[i].input.nowMs >= 300_000
    requires es[n].input.session.safeMode && NoTerminal(es[n].input)
    requires L.Undisturbed(Assess(cfg, DiskBefore(cfg, es, n), es[n].input).observation)
    ensures var a, after := Assess(cfg, DiskBefore(cfg, es, n), es[n].input), DiskBefore(cfg, es, n + 1);
      && after.Some?
      && MonitorDispatch.Reported(EffectsAt(cfg, es, n), after.value,
           MonitorDispatch.IncidentKey(a, es[n].input, P.BrokerIpcUnavailable, P.HumanRequiredOther, None),
           es[n].input.nowMs, es[n].input.reportAccepted)
  {
    hide DiskOf, Assess, Steps, Tick, Loaded, P.Classify, P.Choose, DiskBefore, GoodQueue, MonitorDispatch.IncidentKey,
      MonitorDispatch.Reported, DiskAfter, Semantic;
    UnavailableRun(cfg, es, i, n, session, epoch, runtime);
    var disk, input := DiskBefore(cfg, es, n), es[n].input;
    MonitorExactness.TimersExactly(cfg, disk, input);
    MonitorExactness.LoadedExactly(disk, input);
    MonitorExactness.ObservationExactly(cfg, disk, input);
    MonitorExactness.TerminalExactly(cfg, disk, input);
    var o := Assess(cfg, disk, input).observation;
    L.UnwatchedStatesExactly(o);
    L.ReasonsExactly(o);
    L.HumanRequiredExactly(o);
    L.ActionsExactly(o);
    NextDisk(cfg, es, n);
    MonitorDispatch.ReportsExactly(cfg, disk, input);
  }
}
