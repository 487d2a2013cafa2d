/** The dead-broker and unavailability timers over whole runs: whatever they trigger is backed
    by uninterrupted evidence (src/eagle-monitor-engine.mjs, src/eagle-monitor-policy.mjs). */
module MonitorTimers {
  import opened Prelude
  import P = MonitorPolicy
  import opened NotificationQueue
  import opened MonitorEngine
  import opened MonitorTick
  import opened MonitorRuns

  predicate SawDead(input: TickInput) {
    !input.broker.available && input.broker.conclusivelyDead
  }

  predicate SawUnavailable(input: TickInput) {
    !input.broker.available && !input.broker.conclusivelyDead
  }

  predicate WroteAt(cfg: Config, es: seq<Event>, i: nat)
    requires i < |es|
  {
    Wrote(EffectsAt(cfg, es, i))
  }

  /** A tick of the session that saw the broker dead, if it ran to its end at all. */
  predicate DeadTick(cfg: Config, es: seq<Event>, session: SessionId, j: nat)
    requires j < |es|
  {
    CompletedAt(cfg, es, j) ==> SessionOf(es[j].input.session) == session && SawDead(es[j].input)
  }

  /** From a completed tick at the given time on, every completed tick belongs to the session
      and saw the broker dead. */
  ghost predicate DeadThroughout(cfg: Config, es: seq<Event>, since: int, session: SessionId, k: nat) {
    && k < |es| && es[k].input.nowMs == since && CompletedAt(cfg, es, k)
    && forall j :: k <= j < |es| ==> DeadTick(cfg, es, session, j)
  }

  /** A tick of the session that saw the broker unavailable without proof of death, and no
      other broker epoch or runtime than the recorded ones, if it wrote anything at all. */
  predicate UnavailableTick(cfg: Config, es: seq<Event>, u: Unavailability, session: SessionId, j: nat)
    requires j < |es|
  {
    WroteAt(cfg, es, j) ==>
      && SessionOf(es[j].input.session) == session && SawUnavailable(es[j].input)
      && (es[j].input.broker.epoch.Some? ==> es[j].input.broker.epoch == u.brokerEpoch)
      && (es[j].input.broker.runtime.Some? ==> es[j].input.broker.runtime == u.runtime)
  }

  ghost predicate UnavailableThroughout(cfg: Config, es: seq<Event>, u: Unavailability, session: SessionId, k: nat) {
    && k < |es| && es[k].input.nowMs == u.firstObservedAt && WroteAt(cfg, es, k)
    && forall j :: k <= j < |es| ==> UnavailableTick(cfg, es, u, session, j)
  }

  /** What the timers on disk stand for. */
  ghost predicate TimersBacked(cfg: Config, es: seq<Event>, disk: Option<EngineState>) {
    && (disk.Some? && disk.value.deadSinceAt.Some? ==>
          && disk.value.session.Some?
          && exists k :: DeadThroughout(cfg, es, disk.value.deadSinceAt.value, disk.value.session.value, k))
    && (disk.Some? && disk.value.unavailability.Some? ==>
          && disk.value.session.Some?
          && exists k :: UnavailableThroughout(cfg, es, disk.value.unavailability.value, disk.value.session.value, k))
  }

  /** What a tick takes over from the state file: its timers, if they belong to its session. */
  lemma LoadedTimers(cfg: Config, disk: Option<EngineState>, input: TickInput)
    ensures var l := Loaded(disk, input);
            && l.session == Some(SessionOf(input.session))
            && (l.deadSinceAt.Some? ==> disk.Some? && disk.value.deadSinceAt == l.deadSinceAt)
            && (l.unavailability.Some? ==> disk.Some? && disk.value.unavailability == l.unavailability)
            && (l.deadSinceAt.Some? || l.unavailability.Some? ==>
                  disk.value.session.Some? ==> disk.value.session == l.session)
  {
  }

  lemma AssessedTimers(cfg: Config, disk: Option<EngineState>, input: TickInput)
    ensures var a, l := Assess(cfg, disk, input), Loaded(disk, input);
            && a.deadSinceAt == DeadSince(l.deadSinceAt, input.broker, input.nowMs)
            && a.state.deadSinceAt == l.deadSinceAt
            && a.state.unavailability ==
                 UnavailableSince(l.unavailability, input.broker, SessionOf(input.session), input.nowMs)
            && a.state.session == l.session
            && a.observation.deadConfirmed ==
                 (a.deadSinceAt.Some? && input.nowMs - a.deadSinceAt.value >= P.DEAD_CONFIRMATION_MS)
            && a.observation.unavailableExpired ==
                 (a.state.unavailability.Some? &&
                  input.nowMs - a.state.unavailability.value.firstObservedAt >= P.BROKER_UNAVAILABLE_ALERT_MS)
            && a.observation.conclusivelyDead == input.broker.conclusivelyDead
            && a.observation.brokerAvailable == input.broker.available
  {
    hide P.Classify, P.Choose, RecentStarts, DeadSince, UnavailableSince, TerminalOf, Loaded;
  }

  /** A longer run does not change what happened at its earlier positions. */
  lemma EarlierEvents(cfg: Config, es: seq<Event>)
    requires es != []
    ensures var init := es[..|es| - 1];
            forall j :: 0 <= j < |init| ==>
              && init[j] == es[j]
              && CompletedAt(cfg, init, j) == CompletedAt(cfg, es, j)
              && WroteAt(cfg, init, j) == WroteAt(cfg, es, j)
  {
    hide Executed, Wrote, Completed, DiskOf, DiskBefore;
    DiskExtends(cfg, es);
    var init := es[..|es| - 1];
    forall j | 0 <= j < |init|
      ensures CompletedAt(cfg, init, j) == CompletedAt(cfg, es, j) && WroteAt(cfg, init, j) == WroteAt(cfg, es, j)
    {
      assert DiskBefore(cfg, init, j) == DiskBefore(cfg, es, j);
    }
  }

  lemma EarlierTick(cfg: Config, es: seq<Event>, u: Unavailability, v: Unavailability, session: SessionId, j: nat)
    requires es != [] && j < |es| - 1
    requires u.brokerEpoch.Some? ==> v.brokerEpoch == u.brokerEpoch
    requires u.runtime.Some? ==> v.runtime == u.runtime
    ensures var init := es[..|es| - 1];
            && (DeadTick(cfg, init, session, j) ==> DeadTick(cfg, es, session, j))
            && (UnavailableTick(cfg, init, u, session, j) ==> UnavailableTick(cfg, es, v, session, j))
  {
    hide DiskOf, DiskBefore, WroteAt, CompletedAt, SessionOf;
    EarlierEvents(cfg, es);
  }

  lemma DeadExtends(cfg: Config, es: seq<Event>, since: int, session: SessionId, k: nat)
    requires es != []
    requires DeadThroughout(cfg, es[..|es| - 1], since, session, k) && DeadTick(cfg, es, session, |es| - 1)
    ensures DeadThroughout(cfg, es, since, session, k)
  {
    hide DiskOf, DiskBefore, CompletedAt, WroteAt, DeadTick, UnavailableTick;
    EarlierEvents(cfg, es);
    var any := Unavailability(UnavailableId(session, None, None), None, None, 0);
    forall j | k <= j < |es| ensures DeadTick(cfg, es, session, j) {
      if j < |es| - 1 { EarlierTick(cfg, es, any, any, session, j); }
    }
  }

  lemma UnavailableExtends(cfg: Config, es: seq<Event>, u: Unavailability, v: Unavailability, session: SessionId,
                           k: nat)
    requires es != []
    requires UnavailableThroughout(cfg, es[..|es| - 1], u, session, k)
    requires UnavailableTick(cfg, es, v, session, |es| - 1)
    requires v.firstObservedAt == u.firstObservedAt
    requires u.brokerEpoch.Some? ==> v.brokerEpoch == u.brokerEpoch
    requires u.runtime.Some? ==> v.runtime == u.runtime
    ensures UnavailableThroughout(cfg, es, v, session, k)
  {
    hide DiskOf, DiskBefore, CompletedAt, WroteAt, DeadTick, UnavailableTick;
    EarlierEvents(cfg, es);
    forall j | k <= j < |es| ensures UnavailableTick(cfg, es, v, session, j) {
      if j < |es| - 1 { EarlierTick(cfg, es, u, v, session, j); }
    }
  }

  /** A tick that restarts or keeps the unavailability timer, and what it then knows. */
  lemma UnavailabilityStep(previous: Option<Unavailability>, broker: Broker, session: SessionId, nowMs: int)
    ensures var u := UnavailableSince(previous, broker, session, nowMs);
            u.Some? ==>
              && !broker.available && !broker.conclusivelyDead
              && (broker.epoch.Some? ==> broker.epoch == u.value.brokerEpoch)
              && (broker.runtime.Some? ==> broker.runtime == u.value.runtime)
              && (u.value.firstObservedAt == nowMs
                  || (&& previous.Some? && u.value.firstObservedAt == previous.value.firstObservedAt
                      && (previous.value.brokerEpoch.Some? ==> u.value.brokerEpoch == previous.value.brokerEpoch)
                      && (previous.value.runtime.Some? ==> u.value.runtime == previous.value.runtime)))
  {
  }

  /** How an event leaves the dead timer: taken over, or started now. Only completed ticks
      write it. */
  predicate DeadTimerStep(cfg: Config, disk: Option<EngineState>, e: Event, after: EngineState) {
    var session := Some(SessionOf(e.input.session));
    && after.session.Some?
    && (|| (&& Completed(cfg, disk, e) && SawDead(e.input)
            && after.deadSinceAt == Some(e.input.nowMs) && after.session == session)
        || (&& disk.Some? && disk.value.deadSinceAt == after.deadSinceAt
            && (disk.value.session.Some? ==> disk.value.session == after.session)
            && (Completed(cfg, disk, e) ==> SawDead(e.input) && after.session == session)))
  }

  lemma EventDeadTimer(cfg: Config, disk: Option<EngineState>, e: Event)
    requires QueuedDisk(disk) && e.input.nowMs >= 0
    requires disk.Some? && disk.value.deadSinceAt.Some? ==> disk.value.session.Some?
    ensures var after := After(cfg, disk, e);
            after.Some? && after.value.deadSinceAt.Some? ==> DeadTimerStep(cfg, disk, e, after.value)
  {
    hide Executed, After, StartsIn, GoodQueue, Assess, Completed, Semantic, Loaded, UnavailableSince, SessionOf;
    EventShape(cfg, disk, e);
    LoadedTimers(cfg, disk, e.input);
    AssessedTimers(cfg, disk, e.input);
  }

  /** The dead timer a run ends with. */
  lemma DeadTimerBacked(cfg: Config, es: seq<Event>)
    requires es != []
    requires var last := |es| - 1;
             && QueuedDisk(DiskBefore(cfg, es, last)) && es[last].input.nowMs >= 0
             && TimersBacked(cfg, es[..last], DiskBefore(cfg, es, last))
    ensures var after := DiskOf(cfg, es);
            after.Some? && after.value.deadSinceAt.Some? ==>
              && after.value.session.Some?
              && exists k :: DeadThroughout(cfg, es, after.value.deadSinceAt.value, after.value.session.value, k)
  {
    hide DiskOf, DiskBefore, Executed, After, GoodQueue, Completed, DeadThroughout, UnavailableThroughout, SessionOf;
    var last := |es| - 1;
    var disk, after := DiskBefore(cfg, es, last), DiskOf(cfg, es);
    DiskExtends(cfg, es);
    EventDeadTimer(cfg, disk, es[last]);
    if after.Some? && after.value.deadSinceAt.Some? {
      var since, session := after.value.deadSinceAt.value, after.value.session.value;
      if Completed(cfg, disk, es[last]) && since == es[last].input.nowMs {
        DeadStarts(cfg, es);
      } else {
        var k :| DeadThroughout(cfg, es[..last], since, session, k);
        DeadExtends(cfg, es, since, session, k);
      }
    }
  }

  lemma DeadStarts(cfg: Config, es: seq<Event>)
    requires es != []
    requires CompletedAt(cfg, es, |es| - 1) && SawDead(es[|es| - 1].input)
    ensures var input := es[|es| - 1].input;
            DeadThroughout(cfg, es, input.nowMs, SessionOf(input.session), |es| - 1)
  {
    hide CompletedAt;
  }

  lemma UnavailableStarts(cfg: Config, es: seq<Event>, u: Unavailability)
    requires es != []
    requires var input := es[|es| - 1].input;
             && WroteAt(cfg, es, |es| - 1) && SawUnavailable(input) && u.firstObservedAt == input.nowMs
             && (input.broker.epoch.Some? ==> input.broker.epoch == u.brokerEpoch)
             && (input.broker.runtime.Some? ==> input.broker.runtime == u.runtime)
    ensures UnavailableThroughout(cfg, es, u, SessionOf(es[|es| - 1].input.session), |es| - 1)
  {
    hide WroteAt;
  }

  /** How an event leaves the unavailability timer: untouched when nothing was written, and
      otherwise restarted or kept. Every write carries it. */
  predicate UnavailabilityTimerStep(cfg: Config, disk: Option<EngineState>, e: Event, after: EngineState)
    requires after.unavailability.Some?
  {
    var v, input := after.unavailability.value, e.input;
    && after.session.Some?
    && (!Wrote(Executed(cfg, disk, e)) ==> disk == Some(after))
    && (Wrote(Executed(cfg, disk, e)) ==>
          && after.session == Some(SessionOf(input.session)) && SawUnavailable(input)
          && (input.broker.epoch.Some? ==> input.broker.epoch == v.brokerEpoch)
          && (input.broker.runtime.Some? ==> input.broker.runtime == v.runtime)
          && (v.firstObservedAt == input.nowMs || (disk.Some? && Continues(disk.value, after))))
  }

  predicate Continues(before: EngineState, after: EngineState)
    requires after.unavailability.Some?
  {
    var v := after.unavailability.value;
    && before.unavailability.Some?
    && (before.session.Some? ==> before.session == after.session)
    && var u := before.unavailability.value;
       && v.firstObservedAt == u.firstObservedAt
       && (u.brokerEpoch.Some? ==> v.brokerEpoch == u.brokerEpoch)
       && (u.runtime.Some? ==> v.runtime == u.runtime)
  }

  lemma EventUnavailabilityTimer(cfg: Config, disk: Option<EngineState>, e: Event)
    requires QueuedDisk(disk) && e.input.nowMs >= 0
    requires disk.Some? && disk.value.unavailability.Some? ==> disk.value.session.Some?
    ensures var after := After(cfg, disk, e);
            after.Some? && after.value.unavailability.Some? ==> UnavailabilityTimerStep(cfg, disk, e, after.value)
  {
    hide Executed, After, StartsIn, GoodQueue, Assess, Completed, Semantic, Loaded, DeadSince, UnavailableSince,
      SessionOf, Wrote;
    EventShape(cfg, disk, e);
    LoadedTimers(cfg, disk, e.input);
    AssessedTimers(cfg, disk, e.input);
    UnavailabilityStep(Loaded(disk, e.input).unavailability, e.input.broker, SessionOf(e.input.session), e.input.nowMs);
  }

  /** The unavailability timer a run ends with. */
  lemma UnavailabilityTimerBacked(cfg: Config, es: seq<Event>)
    requires es != []
    requires var last := |es| - 1;
             && QueuedDisk(DiskBefore(cfg, es, last)) && es[last].input.nowMs >= 0
             && TimersBacked(cfg, es[..last], DiskBefore(cfg, es, last))
    ensures var after := DiskOf(cfg, es);
            after.Some? && after.value.unavailability.Some? ==>
              && after.value.session.Some?
              && exists k :: UnavailableThroughout(cfg, es, after.value.unavailability.value,
                                                   after.value.session.value, k)
  {
    hide DiskOf, DiskBefore, Executed, After, GoodQueue, DeadThroughout, UnavailableThroughout, SessionOf, Wrote;
    var last := |es| - 1;
    var disk, after := DiskBefore(cfg, es, last), DiskOf(cfg, es);
    DiskExtends(cfg, es);
    EventUnavailabilityTimer(cfg, disk, es[last]);
    if after.Some? && after.value.unavailability.Some? {
      var v, session := after.value.unavailability.value, after.value.session.value;
      if WroteAt(cfg, es, last) && v.firstObservedAt == es[last].input.nowMs {
        UnavailableStarts(cfg, es, v);
      } else {
        var u := disk.value.unavailability.value;
        var k :| UnavailableThroughout(cfg, es[..last], u, session, k);
        UnavailableExtends(cfg, es, u, v, session, k);
      }
    }
  }

  lemma {:induction false} TimersInvariant(cfg: Config, es: seq<Event>)
    requires forall i :: 0 <= i < |es| ==> es[i].input.nowMs >= 0
    ensures QueuedDisk(DiskOf(cfg, es)) && TimersBacked(cfg, es, DiskOf(cfg, es))
    decreases |es|
  {
    hide Executed, After, StartsIn, GoodQueue, Assess, Completed, Semantic, DeadThroughout, UnavailableThroughout;
    if es == [] {
    } else {
      var last := |es| - 1;
      TimersInvariant(cfg, es[..last]);
      DiskExtends(cfg, es);
      EventShape(cfg, DiskBefore(cfg, es, last), es[last]);
      DeadTimerBacked(cfg, es);
      UnavailabilityTimerBacked(cfg, es);
    }
  }

  /** A broker is started only on uninterrupted evidence of its death: some completed tick at
      least a second earlier, and every completed tick from then until this one, belongs to the
      same session and saw the broker conclusively dead. */
  lemma StartsRestOnUninterruptedDeath(cfg: Config, es: seq<Event>, i: nat)
    requires i < |es| && forall j :: 0 <= j < |es| ==> es[j].input.nowMs >= 0
    requires StartsIn(EffectsAt(cfg, es, i)) != []
    ensures SawDead(es[i].input)
    ensures exists k, since :: && DeadThroughout(cfg, es[..i], since, SessionOf(es[i].input.session), k)
                               && since <= es[i].input.nowMs - 1_000
  {
    hide DiskOf, Executed, After, StartsIn, GoodQueue, Assess, Completed, Semantic, DeadThroughout,
      UnavailableThroughout, Loaded, UnavailableSince, SessionOf, P.Classify, P.Choose;
    var disk, input := DiskBefore(cfg, es, i), es[i].input;
    TimersInvariant(cfg, es[..i]);
    EventShape(cfg, disk, es[i]);
    LoadedTimers(cfg, disk, input);
    AssessedTimers(cfg, disk, input);
    StartIsConfirmed(cfg, disk, input);
    var since := disk.value.deadSinceAt.value;
    var k :| DeadThroughout(cfg, es[..i], since, disk.value.session.value, k);
  }

  lemma StartIsConfirmed(cfg: Config, disk: Option<EngineState>, input: TickInput)
    requires Assess(cfg, disk, input).action.StartBroker?
    ensures var o := Assess(cfg, disk, input).observation; o.deadConfirmed && o.conclusivelyDead && !o.brokerAvailable
  {
    hide P.Classify, P.Choose, RecentStarts, DeadSince, UnavailableSince, TerminalOf, Loaded;
    var a := Assess(cfg, disk, input);
    AssessClassifies(cfg, disk, input);
    P.StartAuthorityExact(a.observation);
    UnresolvedNeverStarts(a.observation);
  }

  /** Unavailability is reported only on uninterrupted evidence: some tick at least five minutes
      earlier, and every tick from then until this one that reached the state file, belongs to
      the same session and saw the broker unavailable, not proven dead and never under another
      known epoch or runtime; nor does this one. */
  lemma UnavailabilityRestsOnUninterruptedEvidence(cfg: Config, es: seq<Event>, i: nat)
    requires i < |es| && forall j :: 0 <= j < |es| ==> es[j].input.nowMs >= 0
    requires Assess(cfg, DiskBefore(cfg, es, i), es[i].input).classification.reason == P.BrokerIpcUnavailable
    ensures SawUnavailable(es[i].input)
    ensures exists k, u ::
              && UnavailableThroughout(cfg, es[..i], u, SessionOf(es[i].input.session), k)
              && u.firstObservedAt <= es[i].input.nowMs - 5 * 60_000
              && SameOwner(u, es[i].input.broker)
  {
    hide DiskOf, Executed, After, StartsIn, GoodQueue, Assess, Completed, Semantic, DeadThroughout,
      UnavailableThroughout, Loaded, DeadSince, UnavailableSince, SessionOf, P.Classify, P.Choose;
    var disk, input := DiskBefore(cfg, es, i), es[i].input;
    TimersInvariant(cfg, es[..i]);
    LoadedTimers(cfg, disk, input);
    AssessedTimers(cfg, disk, input);
    AssessClassifies(cfg, disk, input);
    P.UnavailableReportExact(Assess(cfg, disk, input).observation);
    UnavailabilityStep(Loaded(disk, input).unavailability, input.broker, SessionOf(input.session), input.nowMs);
    var u := disk.value.unavailability.value;
    var k :| UnavailableThroughout(cfg, es[..i], u, disk.value.session.value, k);
    assert SameOwner(u, input.broker);
  }

  /** No evidence of another owner than the recorded one. */
  predicate SameOwner(u: Unavailability, broker: Broker) {
    && (u.brokerEpoch.Some? && broker.epoch.Some? ==> broker.epoch == u.brokerEpoch)
    && (u.runtime.Some? && broker.runtime.Some? ==> broker.runtime == u.runtime)
  }
}
