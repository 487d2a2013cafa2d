/** The sliding-window limit on broker starts, over any run of the monitor
    (src/eagle-monitor-engine.mjs, src/eagle-monitor-policy.mjs). */
module StartRate {
  import opened Prelude
  import P = MonitorPolicy
  import opened NotificationQueue
  import opened MonitorEngine
  import opened MonitorTick
  import opened MonitorRuns

  /** The times of all broker starts dispatched during a run. */
  function StartTimes(cfg: Config, es: seq<Event>): seq<int> {
    if es == [] then []
    else StartTimes(cfg, es[..|es| - 1]) + StartsIn(EffectsAt(cfg, es, |es| - 1))
  }

  predicate ClockNeverFallsBack(es: seq<Event>) {
    && (forall i :: 0 <= i < |es| ==> es[i].input.nowMs >= 0)
    && forall i, j :: 0 <= i < j < |es| ==> es[i].input.nowMs <= es[j].input.nowMs
  }

  function CountFrom(times: seq<int>, x: int): nat {
    if times == [] then 0 else (if times[0] >= x then 1 else 0) + CountFrom(times[1..], x)
  }

  lemma {:induction false} CountOfAppend(a: seq<int>, b: seq<int>, x: int)
    ensures CountFrom(a + b, x) == CountFrom(a, x) + CountFrom(b, x)
  {
    if a == [] {
      assert a + b == b;
    } else {
      CountOfAppend(a[1..], b, x);
      assert (a + b)[1..] == a[1..] + b;
    }
  }

  lemma {:induction false} RecentCounts(times: seq<int>, nowMs: int, x: int)
    requires x >= nowMs - P.CRASH_LOOP_WINDOW_MS
    ensures CountFrom(RecentStarts(times, nowMs), x) == CountFrom(times, x)
    ensures |RecentStarts(times, nowMs)| == CountFrom(times, nowMs - P.CRASH_LOOP_WINDOW_MS)
    ensures |RecentStarts(times, nowMs)| <= |times|
    ensures forall t :: t in RecentStarts(times, nowMs) ==> t in times
  {
    if times == [] {
    } else {
      RecentCounts(times[1..], nowMs, x);
    }
  }

  /** In a sorted list, counting `n` from `x` on means that anything further back is before `x`. */
  lemma {:induction false} FewRecent(times: seq<int>, x: int, i: nat)
    requires forall j, k :: 0 <= j < k < |times| ==> times[j] <= times[k]
    requires i < |times| - CountFrom(times, x)
    ensures times[i] < x
  {
    if times[0] >= x {
      AllCounted(times, x);
    } else if i > 0 {
      FewRecent(times[1..], x, i - 1);
    }
  }

  lemma {:induction false} AllCounted(times: seq<int>, x: int)
    requires forall j :: 0 <= j < |times| ==> times[j] >= x
    ensures CountFrom(times, x) == |times|
  {
    if times != [] { AllCounted(times[1..], x); }
  }

  function RecordedStarts(disk: Option<EngineState>): seq<int> {
    if disk.Some? then disk.value.brokerStarts else []
  }

  /** No reset forgets a recorded start. */
  lemma ResetsKeepStarts(cfg: Config, disk: Option<EngineState>, input: TickInput)
    ensures Assess(cfg, disk, input).state.brokerStarts == RecordedStarts(disk)
    ensures Assess(cfg, disk, input).brokerStarts == RecentStarts(RecordedStarts(disk), input.nowMs)
  {
    hide P.Classify, P.Choose, ObservationOf, RecentStarts, DeadSince, UnavailableSince, TerminalOf, Tail;
  }

  lemma StartNeedsRoom(cfg: Config, disk: Option<EngineState>, input: TickInput)
    requires Assess(cfg, disk, input).action.StartBroker?
    ensures |Assess(cfg, disk, input).brokerStarts| < P.CRASH_LOOP_LIMIT
  {
    hide P.Classify, P.Choose, RecentStarts, DeadSince, UnavailableSince, TerminalOf, Loaded;
    var a := Assess(cfg, disk, input);
    AssessClassifies(cfg, disk, input);
    P.StartAuthorityExact(a.observation);
    UnresolvedNeverStarts(a.observation);
  }

  /** Every dispatched start inside the window that ends at `nowMs` is recorded on disk. */
  ghost predicate AllRecorded(starts: seq<int>, disk: Option<EngineState>, nowMs: int) {
    forall x :: x >= nowMs - P.CRASH_LOOP_WINDOW_MS ==> CountFrom(starts, x) <= CountFrom(RecordedStarts(disk), x)
  }

  predicate Spaced(starts: seq<int>) {
    forall i, j :: 0 <= i && i + P.CRASH_LOOP_LIMIT <= j < |starts| ==> starts[j] - starts[i] > P.CRASH_LOOP_WINDOW_MS
  }

  predicate SortedUpTo(starts: seq<int>, nowMs: int) {
    && (forall i, j :: 0 <= i < j < |starts| ==> starts[i] <= starts[j])
    && forall i :: 0 <= i < |starts| ==> starts[i] <= nowMs
  }

  /** The starts recorded after an event are those recorded before that are still inside the
      window, and the new one if there was a start. */
  lemma EventRecords(cfg: Config, disk: Option<EngineState>, e: Event, x: int)
    requires QueuedDisk(disk) && e.input.nowMs >= 0
    requires x >= e.input.nowMs - P.CRASH_LOOP_WINDOW_MS
    ensures CountFrom(RecordedStarts(After(cfg, disk, e)), x) >=
            CountFrom(RecordedStarts(disk), x) + CountFrom(StartsIn(Executed(cfg, disk, e)), x)
  {
    hide Assess, Executed, After, StartsIn, Semantic, Completed, RecentStarts, GoodQueue;
    var a, now := Assess(cfg, disk, e.input), e.input.nowMs;
    EventShape(cfg, disk, e);
    ResetsKeepStarts(cfg, disk, e.input);
    RecentCounts(RecordedStarts(disk), now, x);
    CountOfAppend(a.brokerStarts, [now], x);
  }

  lemma StartIsFar(starts: seq<int>, disk: Option<EngineState>, nowMs: int)
    requires SortedUpTo(starts, nowMs) && AllRecorded(starts, disk, nowMs)
    requires |RecentStarts(RecordedStarts(disk), nowMs)| < P.CRASH_LOOP_LIMIT
    requires Spaced(starts)
    ensures Spaced(starts + [nowMs]) && SortedUpTo(starts + [nowMs], nowMs)
  {
    var from := nowMs - P.CRASH_LOOP_WINDOW_MS;
    RecentCounts(RecordedStarts(disk), nowMs, from);
    forall i | 0 <= i && i + P.CRASH_LOOP_LIMIT <= |starts| ensures starts[i] < from {
      FewRecent(starts, from, i);
    }
  }

  lemma LaterBounds(starts: seq<int>, disk: Option<EngineState>, nowMs: int, laterMs: int)
    requires SortedUpTo(starts, nowMs) && AllRecorded(starts, disk, nowMs) && nowMs <= laterMs
    ensures SortedUpTo(starts, laterMs) && AllRecorded(starts, disk, laterMs)
  {
  }

  lemma EventInvariant(cfg: Config, disk: Option<EngineState>, e: Event, before: seq<int>)
    requires QueuedDisk(disk) && e.input.nowMs >= 0
    requires SortedUpTo(before, e.input.nowMs) && Spaced(before) && AllRecorded(before, disk, e.input.nowMs)
    ensures var after, starts := After(cfg, disk, e), before + StartsIn(Executed(cfg, disk, e));
            && QueuedDisk(after)
            && SortedUpTo(starts, e.input.nowMs) && Spaced(starts) && AllRecorded(starts, after, e.input.nowMs)
  {
    hide Executed, After, StartsIn, RecentStarts, GoodQueue, Assess, Completed, SortedUpTo, Spaced;
    var now, started := e.input.nowMs, StartsIn(Executed(cfg, disk, e));
    EventShape(cfg, disk, e);
    if started != [] {
      ResetsKeepStarts(cfg, disk, e.input);
      StartNeedsRoom(cfg, disk, e.input);
      StartIsFar(before, disk, now);
    } else {
      assert before + started == before;
    }
    forall x | x >= now - P.CRASH_LOOP_WINDOW_MS
      ensures CountFrom(before + started, x) <= CountFrom(RecordedStarts(After(cfg, disk, e)), x)
    {
      EventRecords(cfg, disk, e, x);
      CountOfAppend(before, started, x);
    }
  }

  lemma {:induction false} RunInvariant(cfg: Config, es: seq<Event>, nowMs: int)
    requires ClockNeverFallsBack(es)
    requires forall i :: 0 <= i < |es| ==> es[i].input.nowMs <= nowMs
    ensures QueuedDisk(DiskOf(cfg, es))
    ensures SortedUpTo(StartTimes(cfg, es), nowMs) && Spaced(StartTimes(cfg, es))
    ensures AllRecorded(StartTimes(cfg, es), DiskOf(cfg, es), nowMs)
    decreases |es|
  {
    if es == [] {
    } else {
      hide Executed, After, SortedUpTo, Spaced, AllRecorded, QueuedDisk;
      var init, e := es[..|es| - 1], es[|es| - 1];
      RunInvariant(cfg, init, e.input.nowMs);
      DiskExtends(cfg, es);
      EventInvariant(cfg, DiskOf(cfg, init), e, StartTimes(cfg, init));
      LaterBounds(StartTimes(cfg, es), DiskOf(cfg, es), e.input.nowMs, nowMs);
    }
  }

  /** Over every run, across crashes, daemon restarts, and changes of workflow and session, any
      four broker starts in a row span more than ten minutes; so every closed window of ten
      minutes holds at most three. */
  lemma StartsAreRateLimited(cfg: Config, es: seq<Event>, from: int)
    requires ClockNeverFallsBack(es)
    ensures var starts := StartTimes(cfg, es);
            && (forall i :: 0 <= i && i + 3 < |starts| ==> starts[i + 3] - starts[i] > 10 * 60 * 1000)
            && (forall i, j :: 0 <= i <= j < |starts| && from <= starts[i] && starts[j] <= from + 10 * 60 * 1000 ==>
                  j - i + 1 <= 3)
  {
    hide StartTimes;
    RunInvariant(cfg, es, if es == [] then 0 else es[|es| - 1].input.nowMs);
  }
}
