/** Whole runs of the monitor: any sequence of ticks, each cut short anywhere by a crash or a
    failing write, over one state file (src/eagle-monitor-engine.mjs). */
module MonitorRuns {
  import opened Prelude
  import opened NotificationQueue
  import opened MonitorEngine
  import opened MonitorTick

  /** One tick, of whose effects only the first `survived` happen. */
  datatype Event = Event(input: TickInput, survived: nat)

  function Executed(cfg: Config, disk: Option<EngineState>, e: Event): seq<Step> {
    var steps := Steps(cfg, disk, e.input);
    if e.survived >= |steps| then steps else steps[..e.survived]
  }

  predicate Completed(cfg: Config, disk: Option<EngineState>, e: Event) {
    Tick(cfg, disk, e.input).Some? && e.survived >= |Steps(cfg, disk, e.input)|
  }

  function After(cfg: Config, disk: Option<EngineState>, e: Event): Option<EngineState> {
    DiskAfter(disk, Executed(cfg, disk, e))
  }

  /** The state file after a run that starts without one. */
  function DiskOf(cfg: Config, es: seq<Event>): Option<EngineState> {
    if es == [] then None
    else After(cfg, DiskOf(cfg, es[..|es| - 1]), es[|es| - 1])
  }

  /** The state file the tick at a position starts from, the effects it has and whether it
      runs to its end. */
  function DiskBefore(cfg: Config, es: seq<Event>, i: nat): Option<EngineState>
    requires i <= |es|
  {
    DiskOf(cfg, es[..i])
  }

  function EffectsAt(cfg: Config, es: seq<Event>, i: nat): seq<Step>
    requires i < |es|
  {
    Executed(cfg, DiskBefore(cfg, es, i), es[i])
  }

  predicate CompletedAt(cfg: Config, es: seq<Event>, i: nat)
    requires i < |es|
  {
    Completed(cfg, DiskBefore(cfg, es, i), es[i])
  }

  predicate Wrote(log: seq<Step>) {
    exists i :: 0 <= i < |log| && log[i].Persist?
  }

  lemma DiskExtends(cfg: Config, es: seq<Event>)
    requires es != []
    ensures var last := |es| - 1;
            && DiskOf(cfg, es) == After(cfg, DiskBefore(cfg, es, last), es[last])
            && forall i :: 0 <= i <= last ==> DiskBefore(cfg, es[..last], i) == DiskBefore(cfg, es, i)
  {
    var last := |es| - 1;
    forall i | 0 <= i <= last ensures DiskBefore(cfg, es[..last], i) == DiskBefore(cfg, es, i) {
      assert es[..last][..i] == es[..i];
    }
  }

  // ---- one event ------------------------------------------------------

  lemma {:induction false} LastWrite(disk: Option<EngineState>, log: seq<Step>) returns (i: nat)
    ensures !Wrote(log) ==> DiskAfter(disk, log) == disk
    ensures Wrote(log) ==> i < |log| && log[i].Persist? && DiskAfter(disk, log) == Some(log[i].written)
    ensures Wrote(log) ==> forall j :: i < j < |log| ==> !log[j].Persist?
    ensures log != [] && log[|log| - 1].Persist? ==> i == |log| - 1
    decreases |log|
  {
    i := 0;
    if log == [] {
    } else if log[|log| - 1].Persist? {
      i := |log| - 1;
    } else {
      var init := log[..|log| - 1];
      i := LastWrite(disk, init);
      if Wrote(log) {
        var k :| 0 <= k < |log| && log[k].Persist?;
        assert init[k].Persist?;
      }
    }
  }

  function StartsIn(log: seq<Step>): seq<int> {
    if log == [] then []
    else StartsIn(log[..|log| - 1]) + (if log[|log| - 1].StartBroker? then [log[|log| - 1].at] else [])
  }

  lemma {:induction false} OnlyStart(log: seq<Step>)
    requires forall i :: 0 <= i < |log| && log[i].StartBroker? ==> i == 2
    ensures StartsIn(log) == if |log| > 2 && log[2].StartBroker? then [log[2].at] else []
  {
    if log == [] {
    } else {
      OnlyStart(log[..|log| - 1]);
    }
  }

  /** What one event can do to the state file and to the broker. */
  lemma EventShape(cfg: Config, disk: Option<EngineState>, e: Event)
    requires QueuedDisk(disk) && e.input.nowMs >= 0
    ensures var a, log, after := Assess(cfg, disk, e.input), Executed(cfg, disk, e), After(cfg, disk, e);
            && (!Wrote(log) ==> after == disk)
            && (Wrote(log) ==> Tick(cfg, disk, e.input).Some? && after.Some? && Queued(after.value))
            && (Wrote(log) && !Completed(cfg, disk, e) ==>
                  e.input.session.safeMode && MidWrite(cfg, a, e.input.nowMs, after.value))
            && (Completed(cfg, disk, e) ==>
                  && Wrote(log) && Semantic(cfg, disk, e.input).Ok?
                  && FinalWrite(cfg, a, Semantic(cfg, disk, e.input).value, e.input, after.value))
            && (StartsIn(log) != [] ==>
                  && StartsIn(log) == [e.input.nowMs] && Wrote(log)
                  && e.input.session.safeMode && a.action.StartBroker?)
  {
    hide Assess, Semantic, Tick, Steps, GoodQueue, MidWrite, FinalWrite, DiskAfter;
    var log := Executed(cfg, disk, e);
    if Tick(cfg, disk, e.input).None? {
      NoTickNoSteps(cfg, disk, e.input);
      var _ := LastWrite(disk, log);
    } else {
      TickShape(cfg, disk, e.input);
      var steps := Steps(cfg, disk, e.input);
      var a := Assess(cfg, disk, e.input);
      var mid := steps[..|steps| - 1];
      forall i | 0 <= i < |log| && i < |mid| ensures MidStep(cfg, a, e.input, mid, i) && log[i] == mid[i] {}
      OnlyStart(log);
      if |log| > 2 && log[2].StartBroker? { assert log[1] == mid[1] && log[2] == mid[2]; }
      var i := LastWrite(disk, log);
    }
  }

  lemma NoTickNoSteps(cfg: Config, disk: Option<EngineState>, input: TickInput)
    requires Tick(cfg, disk, input).None?
    ensures Steps(cfg, disk, input) == []
  {
    hide Tick;
  }
}
