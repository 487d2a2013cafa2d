/** Conservation from the very write that first records a report, also when the tick that raised it
    displaces it again or is cut short (src/eagle-monitor-engine.mjs, `#submitNotification`,
    `#notify`, `tick`). */
module NotificationWrites {
  import opened Prelude
  import P = MonitorPolicy
  import opened NotificationQueue
  import S = SemanticState
  import opened MonitorEngine
  import opened MonitorTick
  import opened MonitorRuns
  import opened NotificationFairness
  import opened NotificationConservation

  /** Some write retains the report unaccepted. */
  predicate Written(log: seq<Step>, key: Key) {
    exists i :: 0 <= i < |log| && log[i].Persist? && Present(log[i].written, key)
  }

  predicate Remembered(s: EngineState, log: seq<Step>, key: Key) {
    Known(s, key) || Told(log, key) || Told(log, OverflowKey)
  }

  predicate Live(s: EngineState, log: seq<Step>) {
    LiveSummary(s.backlog) || Told(log, OverflowKey)
  }

  /** What has been written once is remembered by every later write. */
  predicate Carries(log: seq<Step>, key: Key) {
    forall j :: 0 <= j < |log| && log[j].Persist? ==> CarriedAt(log, j, key)
  }

  predicate CarriedAt(log: seq<Step>, j: nat, key: Key)
    requires j < |log| && log[j].Persist?
  {
    (Written(log[..j], key) ==> Remembered(log[j].written, log[..j], key)) && Live(log[j].written, log[..j])
  }

  predicate Carried(m: Memory, key: Key) {
    Carries(m.log, key) && (Written(m.log, key) ==> Remembered(m.state, m.log, key)) && Live(m.state, m.log)
  }

  lemma CarryAppend(log: seq<Step>, step: Step, key: Key)
    requires Carries(log, key)
    requires step.Persist? ==> (Written(log, key) ==> Remembered(step.written, log, key)) && Live(step.written, log)
    ensures Carries(log + [step], key)
    ensures Written(log + [step], key) <==> Written(log, key) || (step.Persist? && Present(step.written, key))
  {
    hide Written, Remembered, Live;
    var longer := log + [step];
    forall j | 0 <= j < |longer| && longer[j].Persist? ensures CarriedAt(longer, j, key) {
      if j < |log| {
        assert longer[j] == log[j] && longer[..j] == log[..j] && CarriedAt(log, j, key);
      } else {
        assert longer[..j] == log;
      }
    }
    WrittenAppend(log, step, key);
  }

  lemma WrittenAppend(log: seq<Step>, step: Step, key: Key)
    ensures Written(log + [step], key) <==> Written(log, key) || (step.Persist? && Present(step.written, key))
  {
    hide Present;
    var longer := log + [step];
    if Written(log, key) {
      var i :| 0 <= i < |log| && log[i].Persist? && Present(log[i].written, key);
      assert longer[i] == log[i];
    }
    if step.Persist? && Present(step.written, key) { assert longer[|log|] == step; }
    if Written(longer, key) {
      var i :| 0 <= i < |longer| && longer[i].Persist? && Present(longer[i].written, key);
      assert i < |log| ==> log[i] == longer[i];
    }
  }

  lemma StoredAlike(cfg: Config, s: EngineState, log: seq<Step>, key: Key)
    ensures Present(Stored(cfg, s), key) == Present(s, key)
            && Remembered(Stored(cfg, s), log, key) == Remembered(s, log, key)
    ensures Live(Stored(cfg, s), log) == Live(s, log)
  {
    hide Holds, LiveSummary, Told, Tail;
  }

  /** The two writes of a submission. */
  lemma SubmissionCarried(cfg: Config, m: Memory, first: EngineState, submitted: Key, accepted: bool,
                          second: EngineState, key: Key)
    requires Carries(m.log, key) && (Written(m.log, key) ==> Remembered(first, m.log, key)) && Live(first, m.log)
    requires Written(m.log, key) || Present(first, key) ==>
             || Known(second, key) || Told(m.log, key) || Told(m.log, OverflowKey)
             || (accepted && (submitted == key || submitted == OverflowKey))
    requires LiveSummary(second.backlog) || Told(m.log, OverflowKey) || (accepted && submitted == OverflowKey)
    ensures var asked := Emit(Write(cfg, Memory(first, m.log)), Submit(submitted, accepted));
            Carried(Write(cfg, Memory(second, asked.log)), key)
  {
    hide Known, LiveSummary, Stored, Present, Written, Carries;
    var a, b, c := Persist(Stored(cfg, first)), Submit(submitted, accepted), Persist(Stored(cfg, second));
    var asked := m.log + [a] + [b];
    StoredAlike(cfg, first, m.log, key);
    CarryAppend(m.log, a, key);
    CarryAppend(m.log + [a], b, key);
    assert b in asked && forall step :: step in m.log ==> step in asked;
    StoredAlike(cfg, second, asked, key);
    CarryAppend(asked, c, key);
    assert forall step :: step in asked ==> step in asked + [c];
    PresentIsKnown(second, key);
  }

  // ---- phases of a tick -----------------------------------------------

  lemma SubmitCurrentCarried(cfg: Config, m: Memory, nowMs: int, wallMs: int, accepted: bool, key: Key)
    requires m.state.notification.Some? && Carried(m, key)
    ensures Carried(SubmitCurrent(cfg, m, nowMs, wallMs, accepted), key)
  {
    hide Known, Carries, Written, LiveSummary, Told, Stored, Submits, Reopened, Dispatched, Resolved, Present;
    var r := m.state.notification.value;
    if Submits(r, nowMs) {
      SubmissionOutcome(r, nowMs, wallMs, accepted);
      var intent := Dispatched(r, nowMs, wallMs);
      var outcome := Resolved(intent, nowMs, accepted);
      var first, second := SetCurrent(m, intent).state, SetCurrent(m, outcome).state;
      ReplacedCurrentKnown(m.state, intent, key);
      ReplacedCurrentKnown(first, outcome, key);
      PresentIsKnown(first, key);
      assert SetCurrent(Memory(first, m.log), outcome).state == second;
      SubmissionCarried(cfg, m, first, r.key, accepted, second, key);
    } else {
      ReopenedKey(r, nowMs);
      ReplacedCurrentKnown(m.state, Reopened(r, nowMs), key);
      assert Reopened(r, nowMs) == r ==> SetCurrent(m, r).state == m.state;
    }
  }

  lemma NotifyCarried(cfg: Config, m: Memory, c: P.Classification, identity: Identity, nowMs: int, wallMs: int,
                      accepted: bool, key: Key)
    requires Queued(m.state) && nowMs >= 0 && Reportable(c) && Carried(m, key) && LiveSummary(m.state.backlog)
    ensures var after := Notify(cfg, m, c, identity, nowMs, wallMs, accepted);
            Carried(after, key) && LiveSummary(after.state.backlog)
  {
    hide Carries, Written, Known, LiveSummary, Told, Promoted, SubmitCurrent, GoodQueue, Reportable;
    var raised := ReportKey(identity, c.reason, c.state);
    var promoted := Memory(Promoted(m.state, raised, c), m.log);
    PromotedKeeps(m.state, raised, c);
    if Known(m.state, key) { PromotedKnown(m.state, raised, c, key); }
    PromotedLive(m.state, raised, c);
    SubmitCurrentCarried(cfg, promoted, nowMs, wallMs, accepted, key);
    SubmitCurrentBacklog(cfg, promoted, nowMs, wallMs, accepted);
  }

  lemma ReportCarried(cfg: Config, acted: Acted, a: Assessment, input: TickInput, key: Key)
    requires Queued(acted.memory.state) && input.nowMs >= 0
    requires acted.report && acted.classification.humanRequired ==> Reportable(acted.classification)
    requires Carried(acted.memory, key) && LiveSummary(acted.memory.state.backlog)
    ensures var after := Report(cfg, acted, a, input); Carried(after, key) && LiveSummary(after.state.backlog)
  {
    hide Notify, SubmitCurrent, ReportOutcome, ReportIdentity, GoodQueue, Carries, Written, Holds, Told, LiveSummary,
      Reportable;
    var m := acted.memory;
    if acted.report && acted.classification.humanRequired {
      NotifyCarried(cfg, m, acted.classification, ReportIdentity(m.state, a, input, None),
                    input.nowMs, input.reportWallMs, input.reportAccepted, key);
    } else if m.state.notification.Some? && !m.state.notification.value.outcome.Accepted? {
      SubmitCurrentCarried(cfg, m, input.nowMs, input.reportWallMs, input.reportAccepted, key);
      SubmitCurrentBacklog(cfg, m, input.nowMs, input.reportWallMs, input.reportAccepted);
    }
  }

  lemma ReportSemanticCarried(cfg: Config, m: Memory, c: P.Classification, a: Assessment, semantic: S.State,
                              input: TickInput, key: Key)
    requires Queued(m.state) && input.nowMs >= 0 && Carried(m, key) && LiveSummary(m.state.backlog)
    ensures var after := ReportSemantic(cfg, m, c, a, semantic, input);
            Carried(after, key) && LiveSummary(after.state.backlog)
  {
    hide Notify, ReportIdentity, GoodQueue, SemanticKeys, Carried, LiveSummary;
    if ReportsSemantic(c, a, semantic) {
      NotifyCarried(cfg, m, SemanticReport(c, semantic), ReportIdentity(m.state, a, input, semantic.incidentKey),
                    input.nowMs, input.semanticWallMs, input.semanticAccepted, key);
    }
  }

  lemma SubmitLastCarried(cfg: Config, m: Memory, nowMs: int, wallMs: int, accepted: bool, key: Key)
    requires |m.state.backlog| > 0 && Carried(m, key) && Due(m.state.backlog[|m.state.backlog| - 1], nowMs)
    ensures Carried(SubmitLast(cfg, m, nowMs, wallMs, accepted), key)
  {
    hide Carries, Written, LiveSummary, Told, Stored, Reopened, Dispatched, Resolved, Holds;
    var last := |m.state.backlog| - 1;
    var r := m.state.backlog[last];
    assert Submits(r, nowMs);
    SubmissionOutcome(r, nowMs, wallMs, accepted);
    var intent := Dispatched(r, nowMs, wallMs);
    var outcome := Resolved(intent, nowMs, accepted);
    var first, second := SetLast(m, intent).state, SetLast(m, outcome).state;
    ReplacedHolds(m.state.backlog, last, intent, key);
    ReplacedHolds(m.state.backlog, last, intent, OverflowKey);
    ReplacedHolds(first.backlog, last, outcome, key);
    ReplacedHolds(first.backlog, last, outcome, OverflowKey);
    assert first.backlog[last := outcome] == second.backlog;
    SubmissionCarried(cfg, m, first, r.key, accepted, second, key);
  }

  lemma ReportQueuedCarried(cfg: Config, m: Memory, input: TickInput, key: Key)
    requires Carried(m, key)
    ensures var after := ReportQueued(cfg, m, input); Carried(after, key) && LiveSummary(after.state.backlog)
  {
    hide SubmitLast, Rotated, FirstDue, WithoutAccepted, Carries, Written, LiveSummary, Told, Holds;
    var now := input.nowMs;
    var submitted := m;
    if FirstDue(m.state.backlog, now) < |m.state.backlog| {
      RotatedAt(m.state.backlog, now, FirstDue(m.state.backlog, now));
      RotatedHolds(m.state.backlog, now, key);
      RotatedHolds(m.state.backlog, now, OverflowKey);
      var rotated := Memory(m.state.(backlog := Rotated(m.state.backlog, now)), m.log);
      submitted := SubmitLast(cfg, rotated, now, input.queuedWallMs, input.queuedAccepted);
      SubmitLastCarried(cfg, rotated, now, input.queuedWallMs, input.queuedAccepted, key);
    }
    WithoutAcceptedHolds(submitted.state.backlog, key);
    WithoutAcceptedHolds(submitted.state.backlog, OverflowKey);
  }

  lemma SameQueue(s: EngineState, t: EngineState, key: Key)
    requires s.notification == t.notification && s.backlog == t.backlog
    ensures Present(s, key) == Present(t, key) && Known(s, key) == Known(t, key)
  {
    hide Holds;
  }

  /** A phase that writes its state once and leaves the queue alone. */
  lemma OneWriteCarried(log: seq<Step>, w: EngineState, rest: seq<Step>, s: EngineState, key: Key)
    requires forall j :: 0 <= j < |log| ==> !log[j].Persist?
    requires |rest| <= 1 && forall j :: 0 <= j < |rest| ==> !rest[j].Persist?
    requires w.notification == s.notification && w.backlog == s.backlog && LiveSummary(s.backlog)
    ensures Carried(Memory(s, log + rest), key) && Carried(Memory(s, log + [Persist(w)] + rest), key)
  {
    hide Known, Present, LiveSummary, Carries, Told;
    CarriesNothing(log, key);
    CarriesNothing(log + rest, key);
    assert !Written(log, key) && !Written(log + rest, key);
    hide Written;
    SameQueue(s, w, key);
    PresentIsKnown(s, key);
    var written := log + [Persist(w)];
    CarryAppend(log, Persist(w), key);
    if rest == [] {
      assert written + rest == written;
    } else {
      CarryAppend(written, rest[0], key);
      assert rest == [rest[0]];
    }
  }

  lemma ActCarried(cfg: Config, m: Memory, a: Assessment, input: TickInput, key: Key)
    requires m.state == a.state && |m.log| == 1 && m.log[0].SetAwake? && LiveSummary(m.state.backlog)
    ensures var after := Act(cfg, m, a, input).memory; Carried(after, key) && after.state.backlog == m.state.backlog
  {
    hide Act, LiveSummary, Carried, Recorded;
    var now, after := input.nowMs, Act(cfg, m, a, input).memory;
    ActEffects(cfg, m, a, input);
    ActShape(cfg, m, a, input);
    RecordedQueue(m, a, now);
    var w := Stored(cfg, Recorded(m, a, now).state);
    OneWriteCarried(m.log, w, [], after.state, key);
    assert m.log + [] == m.log;
    OneWriteCarried(m.log, w, [AttachWorkflow], after.state, key);
    OneWriteCarried(m.log, w, [ReconcileWorkflow], after.state, key);
    OneWriteCarried(m.log, w, [StartBroker(now)], after.state, key);
  }

  lemma CarriesNothing(log: seq<Step>, key: Key)
    requires forall j :: 0 <= j < |log| ==> !log[j].Persist?
    ensures Carries(log, key)
  {
  }

  lemma SafePhasesCarried(cfg: Config, m: Memory, a: Assessment, semantic: S.State, input: TickInput, key: Key)
    requires m.state == a.state && |m.log| == 1 && m.log[0].SetAwake? && Queued(m.state) && input.nowMs >= 0
    requires a.classification == UnresolvedTerminal() || a.classification == P.Classify(a.observation)
    requires LiveSummary(m.state.backlog)
    ensures var after := SafePhases(cfg, m, a, semantic, input).memory;
            Carried(after, key) && LiveSummary(after.state.backlog)
  {
    hide Act, Report, ReportSemantic, ReportQueued, GoodQueue, Reportable, Carried, LiveSummary, Concludes;
    var acted := Act(cfg, m, a, input);
    ActCarried(cfg, m, a, input, key);
    QueuedPhases(cfg, m, a, semantic, input);
    ActShape(cfg, m, a, input);
    if acted.classification.humanRequired { ReportsAreAllowed(a, acted.classification); }
    ReportCarried(cfg, acted, a, input, key);
    var reported := Report(cfg, acted, a, input);
    ReportSemanticCarried(cfg, reported, acted.classification, a, semantic, input, key);
    ReportQueuedCarried(cfg, ReportSemantic(cfg, reported, acted.classification, a, semantic, input), input, key);
  }

  lemma LoadedLive(cfg: Config, disk: Option<EngineState>, input: TickInput)
    requires disk.Some? ==> LiveSummary(disk.value.backlog)
    ensures LiveSummary(Assess(cfg, disk, input).state.backlog)
  {
    hide P.Classify, P.Choose, ObservationOf, RecentStarts, DeadSince, UnavailableSince, TerminalOf;
  }

  /** One whole tick, in either mode and whatever session the state file is of. */
  lemma TickCarries(cfg: Config, disk: Option<EngineState>, input: TickInput, key: Key)
    requires QueuedDisk(disk) && (disk.Some? ==> LiveSummary(disk.value.backlog)) && input.nowMs >= 0
    requires Tick(cfg, disk, input).Some?
    ensures var log := Steps(cfg, disk, input);
      Carries(log, key) && log != [] && log[|log| - 1].Persist? && LiveSummary(log[|log| - 1].written.backlog)
  {
    hide Assess, Semantic, GoodQueue, Finish, Tick, Steps, SafePhases, Holds, LiveSummary, Stored, Carries, Told,
      SetAction;
    var a := Assess(cfg, disk, input);
    LoadedQueue(cfg, disk, input);
    LoadedLive(cfg, disk, input);
    AssessClassifies(cfg, disk, input);
    TickUnfolds(cfg, disk, input);
    var semantic := Semantic(cfg, disk, input).value;
    var hold := input.session.keepAwakeOnAc && input.onAc && P.ActiveWorkflow(a.classification.state);
    var m := Emit(Memory(a.state, []), SetAwake(hold));
    if input.session.safeMode {
      SafePhasesCarried(cfg, m, a, semantic, input, key);
    } else {
      ShadowKeepsQueue(m, a, input);
      CarriesNothing(m.log, key);
    }
    var after := Phases(cfg, a, semantic, input);
    FinishQueue(cfg, a, semantic, input, after);
    CarryAppend(after.memory.log, Persist(Concluded(cfg, a, semantic, input)), key);
  }

  // ---- events and runs ------------------------------------------------

  /** A cut keeps what was carried. */
  lemma CarriedPrefix(steps: seq<Step>, log: seq<Step>, last: nat, key: Key)
    requires Carries(steps, key) && log <= steps && last < |log| && log[last].Persist?
    requires Written(log, key) && forall j :: last < j < |log| ==> !log[j].Persist?
    ensures Remembered(log[last].written, log, key)
  {
    hide Present, Remembered;
    assert log[last] == steps[last] && steps[..last] == log[..last];
    assert CarriedAt(steps, last, key);
    var i :| 0 <= i < |log| && log[i].Persist? && Present(log[i].written, key);
    if i == last {
      RememberedWhilePresent(log[last].written, log, key);
    } else {
      assert log[..last][i] == log[i];
      RememberedLonger(log[last].written, log[..last], log, key);
    }
  }

  lemma RememberedWhilePresent(s: EngineState, log: seq<Step>, key: Key)
    requires Present(s, key)
    ensures Remembered(s, log, key)
  {
  }

  lemma RememberedLonger(s: EngineState, log: seq<Step>, longer: seq<Step>, key: Key)
    requires log <= longer && Remembered(s, log, key)
    ensures Remembered(s, longer, key)
  {
    hide Known;
    assert forall step :: step in log ==> step in longer;
  }

  /** An event that writes the report anywhere leaves it, or a summary of it, on disk unless it told
      the user. */
  lemma EventCarries(cfg: Config, disk: Option<EngineState>, e: Event, key: Key)
    requires QueuedDisk(disk) && (disk.Some? ==> LiveSummary(disk.value.backlog)) && e.input.nowMs >= 0
    requires Written(Executed(cfg, disk, e), key)
    ensures var log, after := Executed(cfg, disk, e), After(cfg, disk, e);
      && Carries(log, key) && after.Some? && Remembered(after.value, log, key)
      && (KeepsSummaries(cfg, disk, e) ==> LiveSummary(after.value.backlog))
  {
    hide Steps, Tick, GoodQueue, Present, LiveSummary, DiskAfter, Carries, Remembered, Live;
    var log := Executed(cfg, disk, e);
    var last := LastWrite(disk, log);
    if Tick(cfg, disk, e.input).None? {
      NoTickNoSteps(cfg, disk, e.input);
      assert false;
    }
    var steps := Steps(cfg, disk, e.input);
    TickCarries(cfg, disk, e.input, key);
    CarriedPrefix(steps, log, last, key);
    PrefixCarries(steps, log, key);
    LiveAtWrite(log, last, key);
  }

  lemma LiveAtWrite(log: seq<Step>, i: nat, key: Key)
    requires Carries(log, key) && i < |log| && log[i].Persist?
    ensures LiveSummary(log[i].written.backlog) || Told(log, OverflowKey)
  {
    hide Remembered, LiveSummary;
    assert CarriedAt(log, i, key);
  }

  lemma PrefixCarries(steps: seq<Step>, log: seq<Step>, key: Key)
    requires Carries(steps, key) && log <= steps
    ensures Carries(log, key)
  {
    hide Written, Remembered, Live;
    forall j | 0 <= j < |log| && log[j].Persist? ensures CarriedAt(log, j, key) {
      assert log[j] == steps[j] && log[..j] == steps[..j] && CarriedAt(steps, j, key);
    }
  }

  lemma WrittenContinues(cfg: Config, disk: Option<EngineState>, e: Event)
    requires QueuedDisk(disk) && e.input.nowMs >= 0 && e.input.nowMs >= e.input.session.configuredAt
    requires Wrote(Executed(cfg, disk, e))
    ensures var after := After(cfg, disk, e);
            after.Some? && Queued(after.value) && ContinuesSession(after.value, e.input)
  {
    hide Executed, After, StartsIn, GoodQueue, Assess, Completed, Semantic, SessionOf, Wrote;
    EventShape(cfg, disk, e);
    LoadedContinues(cfg, disk, e.input);
  }

  lemma LoadedContinues(cfg: Config, disk: Option<EngineState>, input: TickInput)
    requires input.nowMs >= input.session.configuredAt
    ensures ContinuesSession(Assess(cfg, disk, input).state, input)
    ensures Assess(cfg, disk, input).state.session == Some(SessionOf(input.session))
  {
    hide P.Classify, P.Choose, ObservationOf, RecentStarts, DeadSince, UnavailableSince, TerminalOf;
  }

  /** The event told the user of the report or of an overflow, or left an unaccepted summary. */
  predicate AnsweredAt(cfg: Config, es: seq<Event>, j: nat, key: Key)
    requires j < |es|
  {
    var after := DiskBefore(cfg, es, j + 1);
    || ToldAt(cfg, es, j, key) || ToldAt(cfg, es, j, OverflowKey)
    || (after.Some? && Holds(after.value.backlog, OverflowKey))
  }

  /** Conservation at the granularity of writes: a report that any write of a tick retains
      unaccepted, be it the write that first records it and be it displaced or cut short in that
      very tick, is still retained any number of events of the session later, or that event or one
      in between told the user of it or of an overflow or left an unaccepted summary of it. */
  lemma WrittenReportsAreConserved(cfg: Config, es: seq<Event>, i: nat, n: nat, key: Key)
    requires i < n <= |es| && SameSession(es, i, n)
    requires forall j :: i <= j < n ==> KeepsSummaries(cfg, DiskBefore(cfg, es, j), es[j])
    requires var disk := DiskBefore(cfg, es, i);
             QueuedDisk(disk) && (disk.Some? ==> LiveSummary(disk.value.backlog))
    requires Written(EffectsAt(cfg, es, i), key)
    ensures var disk := DiskBefore(cfg, es, n);
      || (disk.Some? && Present(disk.value, key))
      || AnsweredAt(cfg, es, i, key)
      || exists j :: i < j < n && LeavesToldAt(cfg, es, j, key)
  {
    hide GoodQueue, Present, Known, LiveSummary, ContinuesSession, SessionOf, DiskOf, KeepsSummaries, LeavesToldAt,
      DiskBefore, Executed, After, Carries, Told, Holds;
    var disk := DiskBefore(cfg, es, i);
    EventCarries(cfg, disk, es[i], key);
    NextDisk(cfg, es, i);
    WrittenWrote(EffectsAt(cfg, es, i), key);
    WrittenContinues(cfg, disk, es[i]);
    var after := DiskBefore(cfg, es, i + 1).value;
    PresentIsKnown(after, key);
    if Present(after, key) && i + 1 < n {
      SameContinuation(after, es[i].input, es[i + 1].input);
      ReportsAreConserved(cfg, es, i + 1, n, key);
    }
  }

  lemma WrittenWrote(log: seq<Step>, key: Key)
    requires Written(log, key)
    ensures Wrote(log)
  {
    hide Present;
  }
}
