/** Every due report of the backlog is submitted within as many completed ticks as it has
    reports in front of it, and one more (src/eagle-monitor-engine.mjs). */
module NotificationFairness {
  import opened Prelude
  import P = MonitorPolicy
  import opened NotificationQueue
  import S = SemanticState
  import opened MonitorEngine
  import opened MonitorTick
  import opened MonitorRuns

  /** The report waits in the backlog, unchanged, at most at the given position. */
  predicate Waits(backlog: seq<Receipt>, r: Receipt, p: nat) {
    exists q :: 0 <= q <= p && q < |backlog| && backlog[q] == r
  }

  /** The write that announces a submission of the report. */
  predicate Intends(w: EngineState, key: Key, nowMs: int) {
    || (w.notification.Some? && Announces(w.notification.value, key, nowMs))
    || exists i :: 0 <= i < |w.backlog| && Announces(w.backlog[i], key, nowMs)
  }

  predicate Announces(r: Receipt, key: Key, nowMs: int) {
    r.key == key && r.outcome.Dispatching? && r.attemptedAt.Some? && r.attemptedAt.value >= nowMs
  }

  predicate IntentAt(log: seq<Step>, j: nat, key: Key, nowMs: int) {
    j < |log| && log[j].Persist? && Intends(log[j].written, key, nowMs)
  }

  /** The report is submitted, right after the write that announces it. */
  predicate Submitted(log: seq<Step>, key: Key, nowMs: int) {
    exists j :: 0 <= j && j + 1 < |log| && IntentAt(log, j, key, nowMs) && log[j + 1].Submit? && log[j + 1].key == key
  }

  /** Every write keeps the report's place, unless a submission has been announced by then. */
  predicate PlaceKept(log: seq<Step>, r: Receipt, p: nat, nowMs: int) {
    forall i :: 0 <= i < |log| && log[i].Persist? ==>
      Waits(log[i].written.backlog, r, p) || exists j :: 0 <= j <= i && IntentAt(log, j, r.key, nowMs)
  }

  predicate Fair(m: Memory, r: Receipt, p: nat, nowMs: int) {
    && PlaceKept(m.log, r, p, nowMs)
    && (Waits(m.state.backlog, r, p) || Submitted(m.log, r.key, nowMs))
  }

  // ---- positions ------------------------------------------------------

  lemma {:induction false} WithoutKeyPosition(backlog: seq<Receipt>, key: Key, r: Receipt, p: nat)
    requires Waits(backlog, r, p) && r.key != key
    ensures Waits(WithoutKey(backlog, key), r, p)
  {
    var q :| 0 <= q <= p && q < |backlog| && backlog[q] == r;
    var rest, kept := backlog[1..], WithoutKey(backlog, key);
    if q == 0 {
      assert kept[0] == r;
    } else {
      assert rest[q - 1] == r;
      WithoutKeyPosition(rest, key, r, q - 1);
      var i :| 0 <= i <= q - 1 && i < |WithoutKey(rest, key)| && WithoutKey(rest, key)[i] == r;
      assert kept[if backlog[0].key == key then i else i + 1] == r;
    }
  }

  lemma {:induction false} WithoutAcceptedPosition(backlog: seq<Receipt>, r: Receipt, p: nat)
    requires Waits(backlog, r, p) && !r.outcome.Accepted?
    ensures Waits(WithoutAccepted(backlog), r, p)
  {
    var q :| 0 <= q <= p && q < |backlog| && backlog[q] == r;
    var rest, kept := backlog[1..], WithoutAccepted(backlog);
    if q == 0 {
      assert kept[0] == r;
    } else {
      assert rest[q - 1] == r;
      WithoutAcceptedPosition(rest, r, q - 1);
      var i :| 0 <= i <= q - 1 && i < |WithoutAccepted(rest)| && WithoutAccepted(rest)[i] == r;
      assert kept[if backlog[0].outcome.Accepted? then i else i + 1] == r;
    }
  }

  lemma {:induction false} LookupUnique(backlog: seq<Receipt>, r: Receipt)
    requires DistinctKeys(backlog) && r in backlog
    ensures Lookup(backlog, r.key) == Some(r)
  {
    if backlog[0] == r {
    } else {
      var i :| 0 <= i < |backlog| && backlog[i] == r;
      assert backlog[1..][i - 1] == r;
      LookupUnique(backlog[1..], r);
    }
  }

  // ---- writes and submissions -----------------------------------------

  lemma SubmittedStays(log: seq<Step>, longer: seq<Step>, key: Key, nowMs: int)
    requires log <= longer && Submitted(log, key, nowMs)
    ensures Submitted(longer, key, nowMs)
  {
    hide Intends;
    var j :| 0 <= j && j + 1 < |log| && IntentAt(log, j, key, nowMs) && log[j + 1].Submit? && log[j + 1].key == key;
    assert IntentAt(longer, j, key, nowMs);
  }

  /** One more step keeps the place: it is no write, it keeps the report, it announces it, or
      the report has been submitted already. */
  lemma PlaceAppend(log: seq<Step>, step: Step, r: Receipt, p: nat, nowMs: int)
    requires PlaceKept(log, r, p, nowMs)
    requires step.Persist? ==>
      Waits(step.written.backlog, r, p) || Intends(step.written, r.key, nowMs) || Submitted(log, r.key, nowMs)
    ensures PlaceKept(log + [step], r, p, nowMs)
  {
    hide Intends, Waits;
    var longer := log + [step];
    forall j | IntentAt(log, j, r.key, nowMs) ensures IntentAt(longer, j, r.key, nowMs) {}
    forall i | 0 <= i < |longer| && longer[i].Persist?
      ensures Waits(longer[i].written.backlog, r, p) || exists j :: 0 <= j <= i && IntentAt(longer, j, r.key, nowMs)
    {
      if i < |log| {
        assert longer[i] == log[i];
        if !Waits(log[i].written.backlog, r, p) {
          var j :| 0 <= j <= i && IntentAt(log, j, r.key, nowMs);
          assert IntentAt(longer, j, r.key, nowMs);
        }
      } else if Submitted(log, r.key, nowMs) {
        var j :| 0 <= j && j + 1 < |log| && IntentAt(log, j, r.key, nowMs) && log[j + 1].Submit?
          && log[j + 1].key == r.key;
        assert IntentAt(longer, j, r.key, nowMs);
      } else if !Waits(step.written.backlog, r, p) {
        assert IntentAt(longer, |log|, r.key, nowMs);
      }
    }
  }

  /** The two writes of a submission that leaves the waiting report alone, or that follows the
      report's own submission. */
  lemma OtherSubmission(cfg: Config, m: Memory, first: EngineState, key: Key, accepted: bool, second: EngineState,
                        r: Receipt, p: nat, nowMs: int)
    requires PlaceKept(m.log, r, p, nowMs)
    requires Submitted(m.log, r.key, nowMs) || (Waits(first.backlog, r, p) && Waits(second.backlog, r, p))
    ensures var asked := Emit(Write(cfg, Memory(first, m.log)), Submit(key, accepted));
            Fair(Write(cfg, Memory(second, asked.log)), r, p, nowMs)
  {
    hide Waits, Submitted, PlaceKept;
    var a := Persist(Stored(cfg, first));
    var b := Submit(key, accepted);
    var c := Persist(Stored(cfg, second));
    assert a.written.backlog == first.backlog && c.written.backlog == second.backlog;
    PlaceAppend(m.log, a, r, p, nowMs);
    if Submitted(m.log, r.key, nowMs) {
      SubmittedStays(m.log, m.log + [a], r.key, nowMs);
      SubmittedStays(m.log, m.log + [a] + [b], r.key, nowMs);
      SubmittedStays(m.log, m.log + [a] + [b] + [c], r.key, nowMs);
    }
    PlaceAppend(m.log + [a], b, r, p, nowMs);
    PlaceAppend(m.log + [a] + [b], c, r, p, nowMs);
  }

  /** The two writes of the report's own submission. */
  lemma OwnSubmission(cfg: Config, m: Memory, first: EngineState, accepted: bool, second: EngineState,
                      r: Receipt, p: nat, nowMs: int)
    requires PlaceKept(m.log, r, p, nowMs) && Intends(Stored(cfg, first), r.key, nowMs)
    ensures var asked := Emit(Write(cfg, Memory(first, m.log)), Submit(r.key, accepted));
            Fair(Write(cfg, Memory(second, asked.log)), r, p, nowMs)
            && Submitted(Write(cfg, Memory(second, asked.log)).log, r.key, nowMs)
  {
    hide Waits, PlaceKept, Intends, Stored;
    var a := Persist(Stored(cfg, first));
    var b := Submit(r.key, accepted);
    var c := Persist(Stored(cfg, second));
    var asked := m.log + [a] + [b];
    PlaceAppend(m.log, a, r, p, nowMs);
    PlaceAppend(m.log + [a], b, r, p, nowMs);
    assert IntentAt(asked, |m.log|, r.key, nowMs) && asked[|m.log| + 1] == b;
    assert Submitted(asked, r.key, nowMs);
    PlaceAppend(asked, c, r, p, nowMs);
    SubmittedStays(asked, asked + [c], r.key, nowMs);
  }

  // ---- phases of a tick -----------------------------------------------

  lemma FairSubmitCurrent(cfg: Config, m: Memory, nowMs: int, wallMs: int, accepted: bool, r: Receipt, p: nat)
    requires Fair(m, r, p, nowMs) && m.state.notification.Some?
    ensures Fair(SubmitCurrent(cfg, m, nowMs, wallMs, accepted), r, p, nowMs)
  {
    hide Waits, Submitted, PlaceKept, Stored, Submits, Reopened, Dispatched, Resolved;
    var current := m.state.notification.value;
    if Submits(current, nowMs) {
      var intent := Dispatched(current, nowMs, wallMs);
      var first := SetCurrent(m, intent).state;
      var second := SetCurrent(m, Resolved(intent, nowMs, accepted)).state;
      OtherSubmission(cfg, m, first, current.key, accepted, second, r, p, nowMs);
    }
  }

  /** A due report in the current slot is announced and submitted. */
  lemma OwnSubmitCurrent(cfg: Config, m: Memory, nowMs: int, wallMs: int, accepted: bool, r: Receipt, p: nat)
    requires PlaceKept(m.log, r, p, nowMs) && m.state.notification == Some(r) && Due(r, nowMs)
    ensures Fair(SubmitCurrent(cfg, m, nowMs, wallMs, accepted), r, p, nowMs)
  {
    hide Waits, PlaceKept, Resolved;
    var intent := Dispatched(r, nowMs, wallMs);
    var first := SetCurrent(m, intent).state;
    assert Announces(Stored(cfg, first).notification.value, r.key, nowMs);
    OwnSubmission(cfg, m, first, accepted, SetCurrent(m, Resolved(intent, nowMs, accepted)).state, r, p, nowMs);
  }

  lemma FairNotify(cfg: Config, m: Memory, c: P.Classification, identity: Identity, nowMs: int, wallMs: int,
                   accepted: bool, r: Receipt, p: nat)
    requires Queued(m.state) && Fair(m, r, p, nowMs) && Due(r, nowMs)
    ensures Fair(Notify(cfg, m, c, identity, nowMs, wallMs, accepted), r, p, nowMs)
  {
    hide Submitted, PlaceKept, SubmitCurrent, ValidReceipt, HasOverflow, Lookup, WithoutKey, Due;
    var key := ReportKey(identity, c.reason, c.state);
    var raised := Memory(Promoted(m.state, key, c), m.log);
    if !(m.state.notification.Some? && m.state.notification.value.key == key) && Waits(m.state.backlog, r, p) {
      var retained := Retain(m.state.backlog, m.state.notification);
      RetainKeeps(m.state.notification, m.state.backlog);
      var q :| 0 <= q <= p && q < |m.state.backlog| && m.state.backlog[q] == r;
      assert retained[q] == r;
      if r.key == key {
        LookupUnique(retained, r);
        OwnSubmitCurrent(cfg, raised, nowMs, wallMs, accepted, r, p);
        return;
      }
      WithoutKeyPosition(retained, key, r, p);
    }
    FairSubmitCurrent(cfg, raised, nowMs, wallMs, accepted, r, p);
  }

  lemma FairReport(cfg: Config, acted: Acted, a: Assessment, input: TickInput, r: Receipt, p: nat)
    requires Queued(acted.memory.state) && Fair(acted.memory, r, p, input.nowMs) && Due(r, input.nowMs)
    ensures Fair(Report(cfg, acted, a, input), r, p, input.nowMs)
  {
    hide Notify, SubmitCurrent, ReportOutcome, ReportIdentity, GoodQueue, PlaceKept, Submitted, Waits, Due;
    var m := acted.memory;
    if acted.report && acted.classification.humanRequired {
      FairNotify(cfg, m, acted.classification, ReportIdentity(m.state, a, input, None),
                 input.nowMs, input.reportWallMs, input.reportAccepted, r, p);
    } else if m.state.notification.Some? && !m.state.notification.value.outcome.Accepted? {
      FairSubmitCurrent(cfg, m, input.nowMs, input.reportWallMs, input.reportAccepted, r, p);
    }
  }

  lemma FairReportSemantic(cfg: Config, m: Memory, c: P.Classification, a: Assessment, semantic: S.State,
                           input: TickInput, r: Receipt, p: nat)
    requires Queued(m.state) && Fair(m, r, p, input.nowMs) && Due(r, input.nowMs)
    ensures Fair(ReportSemantic(cfg, m, c, a, semantic, input), r, p, input.nowMs)
  {
    hide Notify, ReportIdentity, GoodQueue, Fair, Due, SemanticKeys;
    if ReportsSemantic(c, a, semantic) {
      FairNotify(cfg, m, SemanticReport(c, semantic), ReportIdentity(m.state, a, input, semantic.incidentKey),
                 input.nowMs, input.semanticWallMs, input.semanticAccepted, r, p);
    }
  }

  /** The report moves up by one when an earlier one is rotated. */
  lemma MovedUp(backlog: seq<Receipt>, nowMs: int, r: Receipt, q: nat)
    requires q < |backlog| && backlog[q] == r && FirstDue(backlog, nowMs) < q
    ensures |Rotated(backlog, nowMs)| == |backlog| && Rotated(backlog, nowMs)[q - 1] == r
  {
    hide FirstDue, Rotated;
    RotatedAt(backlog, nowMs, q);
  }

  lemma DueNotFirst(backlog: seq<Receipt>, nowMs: int, r: Receipt, q: nat)
    requires q < |backlog| && backlog[q] == r && Due(r, nowMs)
    ensures FirstDue(backlog, nowMs) <= q
  {
    hide Due, FirstDue;
  }

  lemma PassedOver(cfg: Config, m: Memory, input: TickInput, r: Receipt, p: nat, q: nat)
    requires PlaceKept(m.log, r, p, input.nowMs) && q <= p
    requires q < |m.state.backlog| && m.state.backlog[q] == r && FirstDue(m.state.backlog, input.nowMs) < q
    ensures var rotated := Memory(m.state.(backlog := Rotated(m.state.backlog, input.nowMs)), m.log);
            var after := SubmitLast(cfg, rotated, input.nowMs, input.queuedWallMs, input.queuedAccepted);
            PlaceKept(after.log, r, p, input.nowMs) && Waits(after.state.backlog, r, q - 1)
  {
    hide Submitted, PlaceKept, Stored, Submits, Reopened, Dispatched, Resolved, FirstDue, Rotated;
    var now := input.nowMs;
    MovedUp(m.state.backlog, now, r, q);
    var rotated := Memory(m.state.(backlog := Rotated(m.state.backlog, now)), m.log);
    var last := rotated.state.backlog[|rotated.state.backlog| - 1];
    if Submits(last, now) {
      var intent := Dispatched(last, now, input.queuedWallMs);
      var first := SetLast(rotated, intent).state;
      var second := SetLast(rotated, Resolved(intent, now, input.queuedAccepted)).state;
      assert first.backlog[q - 1] == r && second.backlog[q - 1] == r;
      assert first.backlog[|first.backlog| - 1 := Resolved(intent, now, input.queuedAccepted)] == second.backlog;
      OtherSubmission(cfg, rotated, first, last.key, input.queuedAccepted, second, r, p, now);
    } else {
      assert SetLast(rotated, Reopened(last, now)).state.backlog[q - 1] == r;
    }
  }

  lemma TakenOut(cfg: Config, m: Memory, input: TickInput, r: Receipt, p: nat)
    requires PlaceKept(m.log, r, p, input.nowMs) && Due(r, input.nowMs)
    requires var i := FirstDue(m.state.backlog, input.nowMs); i < |m.state.backlog| && m.state.backlog[i] == r
    ensures var rotated := Memory(m.state.(backlog := Rotated(m.state.backlog, input.nowMs)), m.log);
            var after := SubmitLast(cfg, rotated, input.nowMs, input.queuedWallMs, input.queuedAccepted);
            PlaceKept(after.log, r, p, input.nowMs) && Submitted(after.log, r.key, input.nowMs)
  {
    hide PlaceKept, Waits, FirstDue, Rotated, Resolved;
    var now := input.nowMs;
    RotatedAt(m.state.backlog, now, FirstDue(m.state.backlog, now));
    var rotated := Memory(m.state.(backlog := Rotated(m.state.backlog, now)), m.log);
    var last := |rotated.state.backlog| - 1;
    assert rotated.state.backlog[last] == r;
    var intent := Dispatched(r, now, input.queuedWallMs);
    var first := SetLast(rotated, intent).state;
    var second := SetLast(rotated, Resolved(intent, now, input.queuedAccepted)).state;
    assert Announces(Stored(cfg, first).backlog[last], r.key, now);
    assert first.backlog[|first.backlog| - 1 := Resolved(intent, now, input.queuedAccepted)] == second.backlog;
    OwnSubmission(cfg, rotated, first, input.queuedAccepted, second, r, p, now);
  }

  /** The queue phase submits the first due report, so a waiting one is submitted or moves up. */
  lemma FairReportQueued(cfg: Config, m: Memory, input: TickInput, r: Receipt, p: nat)
    requires Fair(m, r, p, input.nowMs) && Due(r, input.nowMs)
    ensures var after := ReportQueued(cfg, m, input);
            && PlaceKept(after.log, r, p, input.nowMs)
            && (Submitted(after.log, r.key, input.nowMs) || (p > 0 && Waits(after.state.backlog, r, p - 1)))
  {
    hide PlaceKept, Submitted, SubmitLast, Rotated, FirstDue, WithoutAccepted, Due;
    var now := input.nowMs;
    var first := FirstDue(m.state.backlog, now);
    var rotated := Memory(m.state.(backlog := Rotated(m.state.backlog, now)), m.log);
    if Submitted(m.log, r.key, now) {
      if first < |m.state.backlog| { SubmittedAlready(cfg, rotated, input, r, p); }
    } else {
      var q :| 0 <= q <= p && q < |m.state.backlog| && m.state.backlog[q] == r;
      DueNotFirst(m.state.backlog, now, r, q);
      if first == q {
        TakenOut(cfg, m, input, r, p);
      } else {
        PassedOver(cfg, m, input, r, p, q);
        var after := SubmitLast(cfg, rotated, now, input.queuedWallMs, input.queuedAccepted);
        DueIsUnaccepted(r, now);
        WithoutAcceptedPosition(after.state.backlog, r, q - 1);
      }
    }
  }

  lemma DueIsUnaccepted(r: Receipt, nowMs: int)
    requires Due(r, nowMs)
    ensures !r.outcome.Accepted?
  {
  }

  lemma SubmittedAlready(cfg: Config, m: Memory, input: TickInput, r: Receipt, p: nat)
    requires PlaceKept(m.log, r, p, input.nowMs) && Submitted(m.log, r.key, input.nowMs) && |m.state.backlog| > 0
    ensures var after := SubmitLast(cfg, m, input.nowMs, input.queuedWallMs, input.queuedAccepted);
            PlaceKept(after.log, r, p, input.nowMs) && Submitted(after.log, r.key, input.nowMs)
  {
    hide Waits, PlaceKept, Stored, Submits, Reopened, Dispatched, Resolved, Intends;
    var now := input.nowMs;
    var last := m.state.backlog[|m.state.backlog| - 1];
    if Submits(last, now) {
      var intent := Dispatched(last, now, input.queuedWallMs);
      var first := SetLast(m, intent).state;
      var second := SetLast(m, Resolved(intent, now, input.queuedAccepted)).state;
      assert first.backlog[|first.backlog| - 1 := Resolved(intent, now, input.queuedAccepted)] == second.backlog;
      OtherSubmission(cfg, m, first, last.key, input.queuedAccepted, second, r, p, now);
      var asked := Emit(Write(cfg, Memory(first, m.log)), Submit(last.key, input.queuedAccepted));
      SubmittedStays(m.log, Write(cfg, Memory(second, asked.log)).log, r.key, now);
    }
  }

  // ---- ticks and runs -------------------------------------------------

  lemma FairAct(cfg: Config, m: Memory, a: Assessment, input: TickInput, r: Receipt, p: nat)
    requires m.state == a.state && PlaceKept(m.log, r, p, input.nowMs) && Waits(m.state.backlog, r, p)
    ensures Fair(Act(cfg, m, a, input).memory, r, p, input.nowMs)
  {
    hide Act, Waits, PlaceKept, Submitted, Intends;
    var now := input.nowMs;
    ActEffects(cfg, m, a, input);
    ActShape(cfg, m, a, input);
    var written := Persist(Stored(cfg, Recorded(m, a, now).state));
    assert written.written.backlog == m.state.backlog;
    PlaceAppend(m.log, AttachWorkflow, r, p, now);
    PlaceAppend(m.log, written, r, p, now);
    PlaceAppend(m.log + [written], ReconcileWorkflow, r, p, now);
    PlaceAppend(m.log + [written], StartBroker(now), r, p, now);
  }

  lemma FairSafePhases(cfg: Config, m: Memory, a: Assessment, semantic: S.State, input: TickInput, r: Receipt, p: nat)
    requires m.state == a.state && |m.log| == 1 && m.log[0].SetAwake? && input.session.safeMode && Queued(m.state)
    requires a.classification == UnresolvedTerminal() || a.classification == P.Classify(a.observation)
    requires input.nowMs >= 0 && Waits(m.state.backlog, r, p) && Due(r, input.nowMs)
    ensures var after := SafePhases(cfg, m, a, semantic, input).memory;
            && PlaceKept(after.log, r, p, input.nowMs)
            && (Submitted(after.log, r.key, input.nowMs) || (p > 0 && Waits(after.state.backlog, r, p - 1)))
  {
    hide Act, Report, ReportSemantic, ReportQueued, GoodQueue, Concludes, Notified, Stored, Reportable, Fair, Due,
      Waits, Submitted, MidWrite, MidLog, MidState;
    var acted := Act(cfg, m, a, input);
    FairAct(cfg, m, a, input, r, p);
    QueuedPhases(cfg, m, a, semantic, input);
    FairReport(cfg, acted, a, input, r, p);
    var reported := Report(cfg, acted, a, input);
    FairReportSemantic(cfg, reported, acted.classification, a, semantic, input, r, p);
    var stalled := ReportSemantic(cfg, reported, acted.classification, a, semantic, input);
    FairReportQueued(cfg, stalled, input, r, p);
  }

  /** The queue keeps its invariant from phase to phase. */
  lemma QueuedPhases(cfg: Config, m: Memory, a: Assessment, semantic: S.State, input: TickInput)
    requires m.state == a.state && Queued(m.state) && input.nowMs >= 0
    requires a.classification == UnresolvedTerminal() || a.classification == P.Classify(a.observation)
    ensures var acted := Act(cfg, m, a, input);
            var reported := Report(cfg, acted, a, input);
            Queued(acted.memory.state) && Queued(reported.state)
            && Queued(ReportSemantic(cfg, reported, acted.classification, a, semantic, input).state)
  {
    hide Act, Report, ReportSemantic, ReportQueued, GoodQueue, Concludes, Stored, Reportable;
    var acted := Act(cfg, m, a, input);
    ActShape(cfg, m, a, input);
    if acted.classification.humanRequired { ReportsAreAllowed(a, acted.classification); }
    ReportKeeps(cfg, acted, a, input);
    ReportSemanticKeeps(cfg, Report(cfg, acted, a, input), acted.classification, a, semantic, input);
  }

  /** A tick that neither changes the workflow or session nor finds the stored state older than
      its configuration. */
  predicate ContinuesSession(s: EngineState, input: TickInput) {
    && (s.workflow.Some? ==> s.workflow.value == input.session.workflow)
    && (s.session.Some? ==> s.session.value == SessionOf(input.session))
    && s.updatedAt >= input.session.configuredAt
  }

  lemma SessionQueue(cfg: Config, s: EngineState, input: TickInput)
    requires ContinuesSession(s, input)
    ensures var a := Assess(cfg, Some(s), input).state;
            && a.backlog == s.backlog && a.notification == s.notification && a.updatedAt == s.updatedAt
            && a.workflow == s.workflow && a.session == Some(SessionOf(input.session))
  {
    hide P.Classify, P.Choose, ObservationOf, RecentStarts, DeadSince, UnavailableSince, TerminalOf;
  }

  /** One whole tick: a due report is submitted or has one report fewer in front of it. */
  lemma FairTick(cfg: Config, s: EngineState, input: TickInput, r: Receipt, p: nat)
    requires Queued(s) && ContinuesSession(s, input) && input.session.safeMode && input.nowMs >= 0
    requires Tick(cfg, Some(s), input).Some? && Waits(s.backlog, r, p) && Due(r, input.nowMs)
    ensures var log := Steps(cfg, Some(s), input);
            && log != [] && log[|log| - 1].Persist?
            && PlaceKept(log, r, p, input.nowMs)
            && (Submitted(log, r.key, input.nowMs) || (p > 0 && Waits(log[|log| - 1].written.backlog, r, p - 1)))
  {
    hide Assess, Semantic, GoodQueue, MidLog, Finish, Tick, Steps, SafePhases, Waits, PlaceKept, Submitted, Due,
      ContinuesSession, Concludes, FinalWrite, MidWrite, Stored;
    var disk := Some(s);
    var a := Assess(cfg, disk, input);
    SessionQueue(cfg, s, input);
    LoadedQueue(cfg, disk, input);
    AssessClassifies(cfg, disk, input);
    TickUnfolds(cfg, disk, input);
    var semantic := Semantic(cfg, disk, input).value;
    PhasesShape(cfg, a, semantic, input);
    var hold := input.session.keepAwakeOnAc && input.onAc && P.ActiveWorkflow(a.classification.state);
    var m := Emit(Memory(a.state, []), SetAwake(hold));
    assert PlaceKept(m.log, r, p, input.nowMs) by { NoWrites(m.log, r, p, input.nowMs); }
    FairSafePhases(cfg, m, a, semantic, input, r, p);
    var after := SafePhases(cfg, m, a, semantic, input);
    FinishQueue(cfg, a, semantic, input, after);
    var final := Persist(Concluded(cfg, a, semantic, input));
    if !Submitted(after.memory.log, r.key, input.nowMs) { Weaker(after.memory.state.backlog, r, p - 1, p); }
    PlaceAppend(after.memory.log, final, r, p, input.nowMs);
    if Submitted(after.memory.log, r.key, input.nowMs) {
      SubmittedStays(after.memory.log, after.memory.log + [final], r.key, input.nowMs);
    }
  }

  lemma NoWrites(log: seq<Step>, r: Receipt, p: nat, nowMs: int)
    requires forall i :: 0 <= i < |log| ==> !log[i].Persist?
    ensures PlaceKept(log, r, p, nowMs)
  {
  }

  lemma Weaker(backlog: seq<Receipt>, r: Receipt, p: nat, q: nat)
    requires Waits(backlog, r, p) && p <= q
    ensures Waits(backlog, r, q)
  {
  }

  lemma FinishQueue(cfg: Config, a: Assessment, semantic: S.State, input: TickInput, after: Acted)
    requires after == Phases(cfg, a, semantic, input)
    ensures Concluded(cfg, a, semantic, input).backlog == after.memory.state.backlog
    ensures Concluded(cfg, a, semantic, input).notification == after.memory.state.notification
  {
    hide Phases, NewIncidents, Tail;
  }

  /** What an event amounts to for a waiting report: a completed tick submits it; one cut short
      may have come no further than announcing the submission. */
  predicate Attempts(cfg: Config, disk: Option<EngineState>, e: Event, key: Key) {
    var log := Executed(cfg, disk, e);
    if Completed(cfg, disk, e) then Submitted(log, key, e.input.nowMs)
    else exists j :: 0 <= j < |log| && IntentAt(log, j, key, e.input.nowMs)
  }

  lemma ContinuingDisk(cfg: Config, s: EngineState, e: Event)
    requires Queued(s) && ContinuesSession(s, e.input) && e.input.nowMs >= 0
    requires e.input.nowMs >= e.input.session.configuredAt
    ensures var after := After(cfg, Some(s), e);
            after.Some? && Queued(after.value) && ContinuesSession(after.value, e.input)
  {
    hide Executed, After, StartsIn, GoodQueue, Assess, Completed, Semantic, SessionOf, Wrote;
    EventShape(cfg, Some(s), e);
    SessionQueue(cfg, s, e.input);
  }

  lemma PlaceKeptInPrefix(log: seq<Step>, n: nat, r: Receipt, p: nat, nowMs: int)
    requires PlaceKept(log, r, p, nowMs) && n <= |log|
    ensures PlaceKept(log[..n], r, p, nowMs)
  {
    hide Waits, Intends;
    forall i | 0 <= i < n && log[i].Persist?
      ensures Waits(log[i].written.backlog, r, p) || exists j :: 0 <= j <= i && IntentAt(log[..n], j, r.key, nowMs)
    {
      if !Waits(log[i].written.backlog, r, p) {
        var j :| 0 <= j <= i && IntentAt(log, j, r.key, nowMs);
        assert IntentAt(log[..n], j, r.key, nowMs);
      }
    }
  }

  lemma FairEvent(cfg: Config, s: EngineState, e: Event, r: Receipt, p: nat)
    requires Queued(s) && ContinuesSession(s, e.input) && e.input.session.safeMode && e.input.nowMs >= 0
    requires Waits(s.backlog, r, p) && Due(r, e.input.nowMs)
    ensures var disk, after := Some(s), After(cfg, Some(s), e);
            || Attempts(cfg, disk, e, r.key)
            || (after.Some? && if Completed(cfg, disk, e) then p > 0 && Waits(after.value.backlog, r, p - 1)
                               else Waits(after.value.backlog, r, p))
  {
    hide Steps, Tick, GoodQueue, ContinuesSession, Waits, PlaceKept, Submitted, Due, Intends, DiskAfter;
    var disk, log := Some(s), Executed(cfg, Some(s), e);
    var last := LastWrite(disk, log);
    if Tick(cfg, disk, e.input).None? {
      NoTickNoSteps(cfg, disk, e.input);
    } else {
      var steps := Steps(cfg, disk, e.input);
      FairTick(cfg, s, e.input, r, p);
      if !Completed(cfg, disk, e) {
        PlaceKeptInPrefix(steps, e.survived, r, p, e.input.nowMs);
        KeptOrAnnounced(log, last, r, p, e.input.nowMs);
      }
    }
  }

  lemma KeptOrAnnounced(log: seq<Step>, i: nat, r: Receipt, p: nat, nowMs: int)
    requires PlaceKept(log, r, p, nowMs)
    ensures i < |log| && log[i].Persist? ==>
              Waits(log[i].written.backlog, r, p) || exists j :: 0 <= j < |log| && IntentAt(log, j, r.key, nowMs)
  {
    hide Waits, Intends;
  }

  function CompletedTicks(cfg: Config, es: seq<Event>, i: nat, n: nat): nat
    requires i <= n <= |es|
  {
    if n == i then 0 else CompletedTicks(cfg, es, i, n - 1) + (if CompletedAt(cfg, es, n - 1) then 1 else 0)
  }

  /** Ticks of one session, none before the first of them or its configuration. */
  ghost predicate OneSession(es: seq<Event>, i: nat, n: nat)
    requires i <= n <= |es|
  {
    forall j :: i <= j < n ==>
      && SessionOf(es[j].input.session) == SessionOf(es[i].input.session)
      && es[j].input.nowMs >= es[i].input.nowMs && es[j].input.nowMs >= 0
      && es[j].input.nowMs >= es[j].input.session.configuredAt
  }

  ghost predicate InSafeMode(es: seq<Event>, i: nat, n: nat)
    requires i <= n <= |es|
  {
    forall j :: i <= j < n ==> es[j].input.session.safeMode
  }

  lemma DueLater(r: Receipt, nowMs: int, laterMs: int)
    requires Due(r, nowMs) && nowMs <= laterMs
    ensures Due(r, laterMs)
  {
  }

  lemma SameContinuation(s: EngineState, a: TickInput, b: TickInput)
    requires ContinuesSession(s, a) && SessionOf(a.session) == SessionOf(b.session)
    ensures ContinuesSession(s, b)
  {
  }

  predicate AttemptsAt(cfg: Config, es: seq<Event>, j: nat, key: Key)
    requires j < |es|
  {
    Attempts(cfg, DiskBefore(cfg, es, j), es[j], key)
  }

  lemma {:induction false} WaitingRun(cfg: Config, es: seq<Event>, i: nat, n: nat, r: Receipt, p: nat)
    requires i < n <= |es| && OneSession(es, i, n) && InSafeMode(es, i, n)
    requires var disk := DiskBefore(cfg, es, i);
             && disk.Some? && Queued(disk.value) && ContinuesSession(disk.value, es[i].input)
             && Waits(disk.value.backlog, r, p) && Due(r, es[i].input.nowMs)
    ensures var disk := DiskBefore(cfg, es, n);
            || (exists j :: i <= j < n && AttemptsAt(cfg, es, j, r.key))
            || (&& disk.Some? && Queued(disk.value) && ContinuesSession(disk.value, es[i].input)
                && CompletedTicks(cfg, es, i, n) <= p
                && Waits(disk.value.backlog, r, p - CompletedTicks(cfg, es, i, n)))
    decreases n
  {
    hide After, GoodQueue, Completed, Attempts, Waits, Due, ContinuesSession, SessionOf, DiskOf;
    var last := n - 1;
    if i < last {
      WaitingRun(cfg, es, i, last, r, p);
    }
    if forall j :: i <= j < last ==> !AttemptsAt(cfg, es, j, r.key) {
      var before := DiskBefore(cfg, es, last).value;
      var done := CompletedTicks(cfg, es, i, last);
      NextDisk(cfg, es, last);
      DueLater(r, es[i].input.nowMs, es[last].input.nowMs);
      SameContinuation(before, es[i].input, es[last].input);
      ContinuingDisk(cfg, before, es[last]);
      FairEvent(cfg, before, es[last], r, p - done);
      if !AttemptsAt(cfg, es, last, r.key) {
        SameContinuation(DiskBefore(cfg, es, n).value, es[last].input, es[i].input);
      }
    }
  }

  lemma NextDisk(cfg: Config, es: seq<Event>, i: nat)
    requires i < |es|
    ensures DiskBefore(cfg, es, i + 1) == After(cfg, DiskBefore(cfg, es, i), es[i])
  {
    hide After;
    var longer := es[..i + 1];
    assert longer[..|longer| - 1] == es[..i];
  }

  /** Fairness: once more ticks of the session have completed than there were reports in front of
      a due report, it has been submitted, or announced by a tick that was then cut short.
      Nothing that arrives in between can delay it. */
  lemma DueReportsAreSubmitted(cfg: Config, es: seq<Event>, i: nat, n: nat, r: Receipt, p: nat)
    requires i < n <= |es| && OneSession(es, i, n) && InSafeMode(es, i, n)
    requires var disk := DiskBefore(cfg, es, i);
             && disk.Some? && Queued(disk.value) && ContinuesSession(disk.value, es[i].input)
             && p < |disk.value.backlog| && disk.value.backlog[p] == r && Due(r, es[i].input.nowMs)
    requires CompletedTicks(cfg, es, i, n) > p
    ensures exists j :: i <= j < n && AttemptsAt(cfg, es, j, r.key)
    ensures p <= 16
  {
    hide GoodQueue, Completed, Attempts, Due, ContinuesSession, SessionOf, DiskOf;
    var disk := DiskBefore(cfg, es, i).value;
    assert Waits(disk.backlog, r, p);
    WaitingRun(cfg, es, i, n, r, p);
    AtMostSeventeen(disk);
  }

  lemma AtMostSeventeen(s: EngineState)
    requires Queued(s)
    ensures |s.backlog| <= 17
  {
  }
}
