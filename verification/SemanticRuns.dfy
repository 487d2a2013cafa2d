/** Properties of whole runs of the semantic classifier. */
module SemanticRuns {
  import opened Prelude
  import opened LoopDetection
  import opened SemanticState
  import opened SemanticClassifier
  import opened SemanticInvariant

  /** The states a sequence of observations produces, or the first refusal. */
  function Run(h: Hashes, previous: Option<State>, os: seq<Observation>): Result<seq<State>, Rejection>
    decreases |os|
  {
    if os == [] then Ok([])
    else
      match Classify(h, previous, os[0])
      case Err(e) => Err(e)
      case Ok(next) =>
        match Run(h, Some(next), os[1..])
        case Err(e) => Err(e)
        case Ok(later) => Ok([next] + later)
  }

  /** An observation any daemon may hand in: a valid checkpoint, a time and an epoch. */
  predicate WellTyped(o: Observation) {
    ValidCheckpoint(o.checkpoint) && o.nowMs >= 0 && (o.brokerEpoch.Some? ==> o.brokerEpoch.value >= 0)
  }

  ghost predicate StrictlyLater(previous: Option<State>, os: seq<Observation>) {
    && (previous.Some? && os != [] ==> previous.value.observedAt < os[0].nowMs)
    && forall i :: 0 < i < |os| ==> os[i - 1].nowMs < os[i].nowMs
  }

  lemma LaterStepValid(h: Hashes, previous: Option<State>, o: Observation)
    requires previous.Some? ==> ValidState(h, previous.value) && previous.value.observedAt < o.nowMs
    requires WellTyped(o)
    ensures Classify(h, previous, o) == Ok(NextState(h, previous, o))
    ensures ValidState(h, NextState(h, previous, o))
    ensures NextState(h, previous, o).observedAt == o.nowMs
  {
    hide ValidState, VerdictOf, FingerprintsOf, NewlyAdmitted, WaitStepOf;
    StepValidExactly(h, previous, o);
  }

  /** Safety and progress of every run: whatever the checkpoints, flags, epochs and workflows,
      with a strictly increasing clock no observation is refused and every state written
      passes the validator. */
  lemma {:induction false} RunStaysValid(h: Hashes, previous: Option<State>, os: seq<Observation>)
    requires previous.Some? ==> ValidState(h, previous.value)
    requires forall i :: 0 <= i < |os| ==> WellTyped(os[i])
    requires StrictlyLater(previous, os)
    ensures Run(h, previous, os).Ok?
    ensures var states := Run(h, previous, os).value;
            && |states| == |os|
            && forall i :: 0 <= i < |states| ==> ValidState(h, states[i]) && states[i].observedAt == os[i].nowMs
    decreases |os|
  {
    hide Classify, NextState, ValidState, WellTyped;
    if os == [] {
    } else {
      LaterStepValid(h, previous, os[0]);
      var next := NextState(h, previous, os[0]);
      assert StrictlyLater(Some(next), os[1..]);
      RunStaysValid(h, Some(next), os[1..]);
      var later := Run(h, Some(next), os[1..]).value;
      forall i | 0 <= i < |os|
        ensures ValidState(h, ([next] + later)[i]) && ([next] + later)[i].observedAt == os[i].nowMs
      {
        if i > 0 { assert os[i] == os[1..][i - 1] && ([next] + later)[i] == later[i - 1]; }
      }
    }
  }

  // ---- repeated instants ----------------------------------------------

  lemma {:induction false} AdmittingAgain(evidence: seq<Evidence>, seen: seq<Digest>)
    requires DistinctEvidence(evidence) && Distinct(seen) && |seen| <= MAX_EVIDENCE_IDENTITIES
    ensures Admitted(evidence, seen + Admitted(evidence, seen)) == []
  {
    AdmissionBounded(evidence, seen);
    var more := seen + Admitted(evidence, seen);
    if Admitted(evidence, seen) == Unseen(evidence, seen) {
      NothingLeftUnseen(evidence, seen, more);
    }
  }

  lemma {:induction false} NothingLeftUnseen(evidence: seq<Evidence>, seen: seq<Digest>, more: seq<Digest>)
    requires forall d :: d in seen || d in Unseen(evidence, seen) ==> d in more
    ensures Unseen(evidence, more) == []
  {
    if evidence == [] {
    } else {
      NothingLeftUnseen(evidence[1..], seen, more);
    }
  }

  lemma WaitingAgain(source: Option<WaitSource>, previous: Option<WaitLease>, history: seq<WaitEntry>, nowMs: int)
    requires source.Some? ==> ValidWaitSource(source.value)
    requires ValidWaitHistory(history)
    ensures var step := NextWait(source, previous, history, nowMs);
            NextWait(source, step.lease, step.history, nowMs).lease == step.lease
  {
    WaitStepValid(source, previous, history, nowMs);
  }

  /** On states the classifier wrote itself, with a collision-free checkpoint digest, the only
      unsound repeat drops a settlement or human-boundary flag at an unchanged instant: the
      repetition is refused exactly when the recorded state was settled or human-required,
      neither flag is raised any more and no recorded lease covers the instant. */
  lemma OnlyDroppedBoundariesAreUnsound(h: Hashes, earlier: Option<State>, first: Observation, o: Observation)
    requires forall c, d: Checkpoint :: h.ofCheckpoint(c) == h.ofCheckpoint(d) ==> c == d
    requires Admissible(h, earlier, first) && !UnsoundRepeat(h, earlier, first)
    requires Admissible(h, Some(NextState(h, earlier, first)), o)
    ensures var recorded := NextState(h, earlier, first);
            UnsoundRepeat(h, Some(recorded), o) <==>
            && !Independent(h, Some(recorded), o)
            && (recorded.classification.Settled? || recorded.classification.HumanRequired?)
            && !o.settled && !o.humanRequired
            && !IsWaitActive(recorded.waitLease, recorded.observedAt)
            && !ProgressLeaseActive(recorded)
  {
    hide FindLoop, NextWait, Admitted, Unseen, NoveltyThousandths, Sort, VerdictOf, FingerprintsOf, DetectedLoop,
      IncidentOf, UnsoundRepeat, ValidState, NextProgressLease, ValidRelations, ValidReason;
    var recorded := NextState(h, earlier, first);
    StepRelationsValid(h, earlier, first);
    UnraisedSuspicion(recorded);
    UnsoundRepeatSpelledOut(h, recorded, o);
    if !Independent(h, Some(recorded), o) {
      assert o.checkpoint == first.checkpoint && o.nowMs == first.nowMs;
      RepeatFindsTheSame(h, earlier, first, o);
    }
  }

  lemma UnsoundRepeatSpelledOut(h: Hashes, recorded: State, o: Observation)
    ensures UnsoundRepeat(h, Some(recorded), o) <==>
            && !Independent(h, Some(recorded), o)
            && (|| NewlyAdmitted(Some(recorded), o) != []
                || (&& !o.settled && !o.humanRequired
                    && !IsWaitActive(WaitStepOf(Some(recorded), o).lease, o.nowMs)
                    && !ProgressActiveNow(h, Some(recorded), o)
                    && recorded.suspectCount == 0))
  {
    hide NewlyAdmitted, WaitStepOf, ProgressActiveNow;
  }

  /** Among valid states without cover only the boundary classifications count no suspicion. */
  lemma UnraisedSuspicion(s: State)
    requires |s.fingerprints| > 0 && ValidRelations(s)
    ensures s.classification.Settled? || s.classification.HumanRequired? ==> s.suspectCount == 0
    ensures s.suspectCount == 0 && !IsWaitActive(s.waitLease, s.observedAt) && !ProgressLeaseActive(s) ==>
              s.classification.Settled? || s.classification.HumanRequired?
  {
    hide FindLoop, NoveltyThousandths;
  }

  lemma EmptyHistoryValid()
    ensures ValidWaitHistory([])
  {
  }

  lemma RepeatFindsTheSame(h: Hashes, earlier: Option<State>, first: Observation, o: Observation)
    requires Admissible(h, earlier, first) && !UnsoundRepeat(h, earlier, first)
    requires o.checkpoint == first.checkpoint && o.nowMs == first.nowMs
    ensures var recorded := NextState(h, earlier, first);
            && NewlyAdmitted(Some(recorded), o) == []
            && WaitStepOf(Some(recorded), o).lease == recorded.waitLease
            && (ProgressActiveNow(h, Some(recorded), o) <==> ProgressLeaseActive(recorded))
  {
    hide FindLoop, NextWait, Admitted, Unseen, NoveltyThousandths, Sort, VerdictOf, FingerprintsOf, DetectedLoop,
      IncidentOf, Admissible, UnsoundRepeat;
    var recorded := NextState(h, earlier, first);
    PriorFacts(h, earlier, first);
    AdmittingAgain(first.checkpoint.evidence, PriorSeen(earlier, first));
    RepeatWaitsTheSame(h, earlier, first, o);
    assert NewlyAdmitted(Some(recorded), o) == [];
  }

  lemma RepeatWaitsTheSame(h: Hashes, earlier: Option<State>, first: Observation, o: Observation)
    requires Admissible(h, earlier, first)
    requires o.checkpoint == first.checkpoint && o.nowMs == first.nowMs
    ensures WaitStepOf(Some(NextState(h, earlier, first)), o).lease == NextState(h, earlier, first).waitLease
  {
    hide FindLoop, NextWait, Admitted, Unseen, NoveltyThousandths, Sort, VerdictOf, FingerprintsOf, DetectedLoop,
      IncidentOf, NextProgressLease, ValidState, ValidWaitHistory;
    var prior := PriorWorkflow(earlier, first);
    PriorFacts(h, earlier, first);
    EmptyHistoryValid();
    WaitingAgain(first.checkpoint.expectedWait,
                 if prior.Some? then prior.value.waitLease else None,
                 if prior.Some? then prior.value.waitHistory else [],
                 first.nowMs);
  }

  /** A witness for every digest function and workflow: recording a settlement and repeating
      the same quiet checkpoint at the same instant without it writes a state the validator
      refuses. */
  lemma DroppedSettlementWitness(h: Hashes, workflow: Digest, fingerprint: Digest, nowMs: nat)
    ensures var quiet := Checkpoint(workflow, None, [], None, fingerprint, 0);
            var settled := Observation(None, quiet, false, nowMs, ProcessHealthy, false, true, TransportHealthy);
            var recorded := NextState(h, None, settled);
            && Classify(h, None, settled) == Ok(recorded) && ValidState(h, recorded)
            && Classify(h, Some(recorded), settled.(settled := false)).Ok?
            && !ValidState(h, NextState(h, Some(recorded), settled.(settled := false)))
  {
    hide ValidState, FindLoop, NoveltyThousandths, IncidentOf, Sort, FingerprintsOf, UnsoundRepeat;
    var quiet := Checkpoint(workflow, None, [], None, fingerprint, 0);
    var settled := Observation(None, quiet, false, nowMs, ProcessHealthy, false, true, TransportHealthy);
    LaterStepValid(h, None, settled);
    var recorded := NextState(h, None, settled);
    var repeat := settled.(settled := false);
    UnsoundRepeatSpelledOut(h, recorded, repeat);
    assert UnsoundRepeat(h, Some(recorded), repeat);
    StepValidExactly(h, Some(recorded), repeat);
  }

  // ---- one workflow, any epochs ---------------------------------------

  function Before(start: Option<State>, states: seq<State>, i: nat): Option<State>
    requires i <= |states|
  {
    if i == 0 then start else Some(states[i - 1])
  }

  predicate Follows(h: Hashes, start: Option<State>, os: seq<Observation>, states: seq<State>, i: nat)
    requires i < |os| == |states|
  {
    Classify(h, Before(start, states, i), os[i]) == Ok(states[i])
  }

  /** `states` are the results of classifying `os` one after the other from `start`. */
  ghost predicate Chain(h: Hashes, start: Option<State>, os: seq<Observation>, states: seq<State>) {
    && |os| == |states|
    && forall i {:trigger Follows(h, start, os, states, i)} :: 0 <= i < |os| ==> Follows(h, start, os, states, i)
  }

  /** What is executed is a chain: every theorem about chains below holds of the states that an
      executed run writes. */
  lemma {:induction false} RunIsChain(h: Hashes, start: Option<State>, os: seq<Observation>)
    requires Run(h, start, os).Ok?
    ensures Chain(h, start, os, Run(h, start, os).value)
    decreases |os|
  {
    hide Classify;
    if os == [] {
    } else {
      var next := Classify(h, start, os[0]).value;
      RunIsChain(h, Some(next), os[1..]);
      var states, later := Run(h, start, os).value, Run(h, Some(next), os[1..]).value;
      forall i | 0 <= i < |os| ensures Follows(h, start, os, states, i) {
        if i > 0 {
          assert Follows(h, Some(next), os[1..], later, i - 1);
          assert Before(start, states, i) == Before(Some(next), later, i - 1);
          assert os[i] == os[1..][i - 1];
        }
      }
    }
  }

  /** The run observes one workflow that the starting state, if any, did not describe. */
  ghost predicate ObservesOnly(start: Option<State>, os: seq<Observation>, workflow: Digest) {
    && (start.Some? ==> start.value.workflow != workflow)
    && forall i :: 0 <= i < |os| ==> os[i].checkpoint.workflow == workflow
  }

  lemma ChainStep(h: Hashes, start: Option<State>, os: seq<Observation>, states: seq<State>, i: nat)
    requires Chain(h, start, os, states) && i < |states|
    ensures |os| == |states|
    ensures Admissible(h, Before(start, states, i), os[i])
    ensures states[i] == NextState(h, Before(start, states, i), os[i])
  {
    assert Follows(h, start, os, states, i);
  }

  lemma StepKeeps(h: Hashes, previous: Option<State>, o: Observation)
    requires Admissible(h, previous, o)
    ensures var next := NextState(h, previous, o);
            && next.workflow == o.checkpoint.workflow
            && next.observedAt == o.nowMs
            && ValidWaitHistory(next.waitHistory)
            && (next.waitLease.Some? ==> ValidWaitLease(next.waitLease.value, next))
            && (PriorWorkflow(previous, o).Some? ==>
                  Retains(previous.value.waitHistory, next.waitHistory) && previous.value.seen <= next.seen)
            && (next.classification.ExpectedWait? ==> IsWaitActive(next.waitLease, o.nowMs))
  {
    hide ValidState, FingerprintsOf, DetectedLoop, NextWait, Admitted, IncidentOf, Sort, ValidWaitHistory,
      ValidWaitEntry;
    StepWaitValid(h, previous, o);
  }

  /** One link of a single-workflow chain. */
  lemma ChainKeeps(h: Hashes, start: Option<State>, os: seq<Observation>, states: seq<State>, workflow: Digest, i: nat)
    requires Chain(h, start, os, states) && ObservesOnly(start, os, workflow)
    requires i < |states|
    ensures states[i].workflow == workflow && states[i].observedAt == os[i].nowMs
    ensures ValidWaitHistory(states[i].waitHistory)
    ensures states[i].waitLease.Some? ==> ValidWaitLease(states[i].waitLease.value, states[i])
    ensures states[i].classification.ExpectedWait? ==> IsWaitActive(states[i].waitLease, os[i].nowMs)
    ensures PriorWorkflow(Before(start, states, i), os[i]) == if i == 0 then None else Some(states[i - 1])
    ensures i > 0 ==>
              Retains(states[i - 1].waitHistory, states[i].waitHistory) && states[i - 1].seen <= states[i].seen
  {
    hide NextState, Classify, ValidState, Admissible, ValidWaitHistory, ValidWaitLease, Retains;
    ChainStep(h, start, os, states, i);
    StepKeeps(h, Before(start, states, i), os[i]);
    if i > 0 {
      ChainStep(h, start, os, states, i - 1);
      StepKeeps(h, Before(start, states, i - 1), os[i - 1]);
    }
  }

  /** Along a run of one workflow nothing is forgotten: wait entries are pinned and evidence
      identities stay. */
  lemma {:induction false} NothingForgotten(h: Hashes, start: Option<State>, os: seq<Observation>, states: seq<State>,
                                            workflow: Digest, i: nat, j: nat)
    requires Chain(h, start, os, states) && ObservesOnly(start, os, workflow)
    requires i <= j < |states|
    ensures ValidWaitHistory(states[i].waitHistory) && ValidWaitHistory(states[j].waitHistory)
    ensures Retains(states[i].waitHistory, states[j].waitHistory)
    ensures states[i].seen <= states[j].seen
    decreases j - i
  {
    hide Chain, Classify, NextState;
    ChainKeeps(h, start, os, states, workflow, i);
    if i < j {
      NothingForgotten(h, start, os, states, workflow, i, j - 1);
      ChainKeeps(h, start, os, states, workflow, j);
      RetainsTransitive(states[i].waitHistory, states[j - 1].waitHistory, states[j].waitHistory);
    }
  }

  datatype Interval = Interval(from: int, until: int) {
    predicate Covers(t: int) {
      from <= t <= until
    }
  }

  /** The stretch of time a retained wait can ever cover. */
  function WaitIntervals(history: seq<WaitEntry>): (r: seq<Interval>)
    ensures |r| == |history|
  {
    seq(|history|, i requires 0 <= i < |history| =>
      Interval(history[i].startAt, history[i].deadlineAt + history[i].maxExtensionMs))
  }

  /** Expected waits cannot cover a workflow for ever: every instant classified as an expected
      wait, in any epoch, lies in one of at most 16 intervals of at most eight hours and one
      minute, which the last state still names. */
  lemma WaitCoverIsFinite(h: Hashes, start: Option<State>, os: seq<Observation>, states: seq<State>, workflow: Digest)
    requires Chain(h, start, os, states) && ObservesOnly(start, os, workflow)
    requires |states| > 0
    ensures var intervals := WaitIntervals(states[|states| - 1].waitHistory);
            && |intervals| <= MAX_EXPECTED_WAIT_HISTORY
            && (forall k :: 0 <= k < |intervals| ==>
                  intervals[k].until - intervals[k].from <= MAX_EXPECTED_WAIT_MS + EXPECTED_WAIT_EXTENSION_MS)
            && (forall i :: 0 <= i < |states| && states[i].classification.ExpectedWait? ==>
                  exists k :: 0 <= k < |intervals| && intervals[k].Covers(states[i].observedAt))
  {
    hide Chain, Classify, NextState;
    var last := |states| - 1;
    NothingForgotten(h, start, os, states, workflow, last, last);
    forall i | 0 <= i < |states| && states[i].classification.ExpectedWait?
      ensures var intervals := WaitIntervals(states[last].waitHistory);
              exists k :: 0 <= k < |intervals| && intervals[k].Covers(states[i].observedAt)
    {
      ExpectedWaitCovered(h, start, os, states, workflow, i);
    }
  }

  lemma ExpectedWaitCovered(h: Hashes, start: Option<State>, os: seq<Observation>, states: seq<State>,
                            workflow: Digest, i: nat)
    requires Chain(h, start, os, states) && ObservesOnly(start, os, workflow)
    requires i < |states| && states[i].classification.ExpectedWait?
    ensures var intervals := WaitIntervals(states[|states| - 1].waitHistory);
            exists k :: 0 <= k < |intervals| && intervals[k].Covers(states[i].observedAt)
  {
    hide Chain, Classify, NextState, ValidWaitHistory;
    var last := |states| - 1;
    ChainKeeps(h, start, os, states, workflow, i);
    NothingForgotten(h, start, os, states, workflow, i, last);
    var k := IndexOf(states[i].waitHistory, states[i].waitLease.value.entry.identity);
    assert EntryRetained(states[i].waitHistory[k], states[last].waitHistory[k]);
    assert WaitIntervals(states[last].waitHistory)[k].Covers(states[i].observedAt);
  }

  /** A wait identity is extended at most once: an entry whose extension is spent never changes
      again, in any epoch and whatever the checkpoints say about it. */
  lemma ExtensionSpentOnce(h: Hashes, start: Option<State>, os: seq<Observation>, states: seq<State>,
                           workflow: Digest, i: nat, j: nat, k: nat)
    requires Chain(h, start, os, states) && ObservesOnly(start, os, workflow)
    requires i <= j < |states| && k < |states[i].waitHistory|
    ensures k < |states[j].waitHistory|
    ensures states[j].waitHistory[k].identity == states[i].waitHistory[k].identity
    ensures states[j].waitHistory[k].startAt == states[i].waitHistory[k].startAt
    ensures states[j].waitHistory[k].deadlineAt == states[i].waitHistory[k].deadlineAt
    ensures states[i].waitHistory[k].extensionUsed == 1 ==> states[j].waitHistory[k] == states[i].waitHistory[k]
  {
    NothingForgotten(h, start, os, states, workflow, i, j);
    assert EntryRetained(states[i].waitHistory[k], states[j].waitHistory[k]);
  }

  // ---- progress -------------------------------------------------------

  predicate Renewed(s: State) {
    s.metrics.unseenEvidenceCount > 0
  }

  /** The instants at which a run renewed its useful-progress lease. */
  function Renewals(states: seq<State>): seq<int> {
    if states == [] then []
    else
      var last := states[|states| - 1];
      Renewals(states[..|states| - 1]) + (if Renewed(last) then [last.observedAt] else [])
  }

  lemma ChainPrefix(h: Hashes, start: Option<State>, os: seq<Observation>, states: seq<State>, n: nat)
    requires Chain(h, start, os, states) && n <= |os|
    ensures Chain(h, start, os[..n], states[..n])
  {
    forall i | 0 <= i < n ensures Follows(h, start, os[..n], states[..n], i) {
      assert Follows(h, start, os, states, i);
      assert Before(start, states[..n], i) == Before(start, states, i);
    }
  }

  /** Each renewal consumes an evidence identity, and a held lease starts at a renewal. */
  lemma {:induction false} RenewalsConsumeEvidence(h: Hashes, start: Option<State>, os: seq<Observation>,
                                                   states: seq<State>, workflow: Digest)
    requires Chain(h, start, os, states) && ObservesOnly(start, os, workflow)
    requires |states| > 0
    ensures var last := states[|states| - 1];
            && |Renewals(states)| <= |last.seen|
            && (last.progressLease.Some? ==>
                  && last.progressLease.value.renewedAt in Renewals(states)
                  && last.progressLease.value.expiresAt ==
                     last.progressLease.value.renewedAt + USEFUL_PROGRESS_LEASE_MS)
    decreases |states|
  {
    hide Classify, ValidState, Chain, NextState, Admissible;
    var n := |states| - 1;
    ChainKeeps(h, start, os, states, workflow, n);
    ChainStep(h, start, os, states, n);
    StepRenews(h, Before(start, states, n), os[n]);
    assert Renewals([]) == [];
    if n > 0 {
      ChainPrefix(h, start, os, states, n);
      RenewalsConsumeEvidence(h, start, os[..n], states[..n], workflow);
      assert states[..n][n - 1] == states[n - 1];
    } else {
      assert states[..n] == [];
    }
  }

  /** A step renews the lease exactly when it adds identities, and otherwise keeps it. */
  lemma StepRenews(h: Hashes, previous: Option<State>, o: Observation)
    ensures var next, prior := NextState(h, previous, o), PriorWorkflow(previous, o);
            && |next.seen| == (if prior.Some? then |prior.value.seen| else 0) + next.metrics.unseenEvidenceCount
            && (if Renewed(next) then
                  && next.progressLease.Some? && next.progressLease.value.renewedAt == next.observedAt
                  && next.progressLease.value.expiresAt == next.observedAt + USEFUL_PROGRESS_LEASE_MS
                else
                  next.progressLease == if prior.Some? then prior.value.progressLease else None)
  {
    hide VerdictOf, FingerprintsOf, WaitStepOf, DetectedLoop, Sort, Admitted, IncidentOf;
  }

  /** Useful progress cannot be stretched either: every instant classified as progressing, in
      any epoch, lies within 15 minutes of one of at most 512 renewals. */
  lemma ProgressCoverIsFinite(h: Hashes, start: Option<State>, os: seq<Observation>, states: seq<State>,
                              workflow: Digest)
    requires Chain(h, start, os, states) && ObservesOnly(start, os, workflow)
    ensures |Renewals(states)| <= MAX_EVIDENCE_IDENTITIES
    ensures forall i :: 0 <= i < |states| && states[i].classification.Progressing? ==>
              exists r ::
                r in Renewals(states) && Interval(r, r + USEFUL_PROGRESS_LEASE_MS).Covers(states[i].observedAt)
  {
    hide Classify, Chain, ValidState, NextState, Admissible;
    assert Renewals([]) == [];
    if |states| > 0 {
      RenewalsConsumeEvidence(h, start, os, states, workflow);
      ChainStep(h, start, os, states, |states| - 1);
      SeenBounded(h, Before(start, states, |states| - 1), os[|states| - 1]);
    }
    forall i | 0 <= i < |states| && states[i].classification.Progressing?
      ensures exists r ::
        r in Renewals(states) && Interval(r, r + USEFUL_PROGRESS_LEASE_MS).Covers(states[i].observedAt)
    {
      var r := ProgressingCovered(h, start, os, states, workflow, i);
    }
  }

  lemma ProgressingCovered(h: Hashes, start: Option<State>, os: seq<Observation>, states: seq<State>,
                           workflow: Digest, i: nat) returns (r: int)
    requires Chain(h, start, os, states) && ObservesOnly(start, os, workflow)
    requires i < |states| && states[i].classification.Progressing?
    ensures r in Renewals(states) && Interval(r, r + USEFUL_PROGRESS_LEASE_MS).Covers(states[i].observedAt)
  {
    hide Classify, Chain, ValidState, NextState, Admissible, Renewals, ObservesOnly, ProgressLeaseActive;
    ChainStep(h, start, os, states, i);
    ChainPrefix(h, start, os, states, i + 1);
    ObservesPrefix(start, os, workflow, i + 1);
    assert states[..i + 1][i] == states[i];
    RenewalsConsumeEvidence(h, start, os[..i + 1], states[..i + 1], workflow);
    RenewalsGrow(states, i + 1);
    ProgressingHoldsLease(h, Before(start, states, i), os[i]);
    r := states[i].progressLease.value.renewedAt;
  }

  lemma ObservesPrefix(start: Option<State>, os: seq<Observation>, workflow: Digest, n: nat)
    requires ObservesOnly(start, os, workflow) && n <= |os|
    ensures ObservesOnly(start, os[..n], workflow)
  {
  }

  lemma SeenBounded(h: Hashes, previous: Option<State>, o: Observation)
    requires Admissible(h, previous, o)
    ensures |NextState(h, previous, o).seen| <= MAX_EVIDENCE_IDENTITIES
  {
    hide ValidState, VerdictOf, FingerprintsOf, WaitStepOf, DetectedLoop, Sort, Admitted, IncidentOf;
    PriorFacts(h, previous, o);
    AdmissionBounded(o.checkpoint.evidence, PriorSeen(previous, o));
  }

  lemma ProgressingHoldsLease(h: Hashes, previous: Option<State>, o: Observation)
    requires Admissible(h, previous, o)
    requires NextState(h, previous, o).classification.Progressing?
    ensures ProgressLeaseActive(NextState(h, previous, o))
    ensures var s := NextState(h, previous, o);
            s.progressLease.Some? &&
            s.progressLease.value.renewedAt <= s.observedAt <= s.progressLease.value.expiresAt
  {
    hide Admissible, FingerprintsOf, WaitStepOf, DetectedLoop, Sort, Admitted, IncidentOf;
    PriorFacts(h, previous, o);
  }

  lemma {:induction false} RenewalsGrow(states: seq<State>, n: nat)
    requires n <= |states|
    ensures forall r :: r in Renewals(states[..n]) ==> r in Renewals(states)
    decreases |states|
  {
    if n == |states| {
      assert states[..n] == states;
    } else {
      RenewalsGrow(states[..|states| - 1], n);
      assert states[..|states| - 1][..n] == states[..n];
    }
  }

  /** No evidence identity renews the lease twice, in any epoch. */
  lemma EvidenceRenewsOnce(h: Hashes, start: Option<State>, os: seq<Observation>, states: seq<State>,
                           workflow: Digest, i: nat, j: nat)
    requires Chain(h, start, os, states) && ObservesOnly(start, os, workflow)
    requires i < j < |states| && Renewed(states[i]) && Renewed(states[j])
    ensures states[i].progressLease.Some? && states[j].progressLease.Some?
    ensures forall d :: d in states[i].progressLease.value.evidenceDigests ==>
                        d !in states[j].progressLease.value.evidenceDigests
  {
    hide Chain, Classify, NextState, Admissible;
    ChainStep(h, start, os, states, i);
    ChainStep(h, start, os, states, j);
    ChainKeeps(h, start, os, states, workflow, j);
    NothingForgotten(h, start, os, states, workflow, i, j - 1);
    RenewalUsesNewEvidence(h, Before(start, states, i), os[i]);
    RenewalUsesNewEvidence(h, Before(start, states, j), os[j]);
    assert PriorSeen(Before(start, states, j), os[j]) == states[j - 1].seen;
  }

  lemma RenewalUsesNewEvidence(h: Hashes, previous: Option<State>, o: Observation)
    requires Admissible(h, previous, o)
    requires Renewed(NextState(h, previous, o))
    ensures var next := NextState(h, previous, o);
            && next.progressLease.Some?
            && forall d :: d in next.progressLease.value.evidenceDigests ==>
                 d in next.seen && d !in PriorSeen(previous, o)
  {
    hide ValidState, VerdictOf, FingerprintsOf, WaitStepOf, DetectedLoop, Sort, Admitted, IncidentOf;
    PriorFacts(h, previous, o);
    AdmissionBounded(o.checkpoint.evidence, PriorSeen(previous, o));
    SortMembers(NewlyAdmitted(previous, o));
  }

  // ---- hysteresis and loops -------------------------------------------

  /** Neither boundary flag is raised. */
  predicate Unflagged(o: Observation) {
    !o.settled && !o.humanRequired
  }

  /** No new evidence, no active wait and no unexpired progress lease. */
  predicate OutsideCover(h: Hashes, previous: Option<State>, o: Observation) {
    && NewlyAdmitted(previous, o) == []
    && !WaitActiveNow(previous, o)
    && !ProgressActiveNow(h, previous, o)
  }

  /** Two consecutive observations outside the cover settle the matter: the first raises a
      suspicion at least, the second, later and in the same epoch, ends in a stall or a loop. */
  lemma TwoUncoveredObservationsDecide(h: Hashes, previous: Option<State>, first: Observation, second: Observation)
    requires Admissible(h, previous, first) && Independent(h, previous, first)
    requires Unflagged(first) && OutsideCover(h, previous, first)
    requires var middle := NextState(h, previous, first);
             && second.checkpoint.workflow == first.checkpoint.workflow && second.brokerEpoch == first.brokerEpoch
             && second.nowMs > first.nowMs
             && Unflagged(second) && OutsideCover(h, Some(middle), second)
    ensures var middle := NextState(h, previous, first);
            && (middle.classification.Suspect? || middle.classification.Stagnant? || middle.classification.Looping?)
            && var final := NextState(h, Some(middle), second);
               && final.suspectCount >= 2
               && final.classification ==
                  (if FindLoop(final.fingerprints).Some? then Looping else Stagnant)
  {
    hide Admissible, FindLoop, NoveltyThousandths, Sort, Unseen, Admitted, IndexOf, NextWait, FingerprintsOf,
      IncidentOf;
    PriorFacts(h, previous, first);
  }

  /** Observation `o`, made after `before`, stays in its workflow and epoch, is later, does not
      wait and brings no evidence. */
  predicate QuietAfter(before: State, o: Observation) {
    && o.checkpoint.workflow == before.workflow && o.brokerEpoch == before.brokerEpoch
    && before.observedAt < o.nowMs
    && NewlyAdmitted(Some(before), o) == []
    && !WaitActiveNow(Some(before), o)
  }

  ghost predicate Quiet(h: Hashes, start: State, os: seq<Observation>, states: seq<State>) {
    && Chain(h, Some(start), os, states)
    && forall i :: 0 <= i < |os| ==> QuietAfter(Before(Some(start), states, i).value, os[i])
  }

  function Fingerprints(os: seq<Observation>): (r: seq<Digest>)
    ensures |r| == |os|
  {
    seq(|os|, i requires 0 <= i < |os| => os[i].checkpoint.fingerprint)
  }

  lemma QuietStep(h: Hashes, before: State, o: Observation)
    requires QuietAfter(before, o)
    ensures var next := NextState(h, Some(before), o);
            && next.fingerprints == Tail(before.fingerprints + [o.checkpoint.fingerprint], MAX_FINGERPRINT_HISTORY)
            && next.metrics.loopPattern == FindLoop(next.fingerprints)
  {
    hide FindLoop, VerdictOf, IncidentOf, NoveltyThousandths, NewlyAdmitted, WaitActiveNow, WaitTransition,
      NextProgressLease, PriorSeen, Unseen;
    assert Independent(h, Some(before), o) && PriorFence(Some(before), o) == Some(before);
    assert FingerprintsOf(h, Some(before), o) ==
           Tail(before.fingerprints + [o.checkpoint.fingerprint], MAX_FINGERPRINT_HISTORY);
  }

  lemma QuietPrefix(h: Hashes, start: State, os: seq<Observation>, states: seq<State>, n: nat)
    requires Quiet(h, start, os, states) && n <= |os|
    ensures Quiet(h, start, os[..n], states[..n])
  {
    hide Classify, QuietAfter;
    ChainPrefix(h, Some(start), os, states, n);
    forall i | 0 <= i < n ensures QuietAfter(Before(Some(start), states[..n], i).value, os[..n][i]) {
      assert QuietAfter(Before(Some(start), states, i).value, os[i]);
    }
  }

  lemma QuietLink(h: Hashes, start: State, os: seq<Observation>, states: seq<State>, n: nat)
    requires Quiet(h, start, os, states) && n < |os|
    ensures |states| == |os|
    ensures var before := Before(Some(start), states, n).value;
            && states[n] == NextState(h, Some(before), os[n])
            && states[n].fingerprints ==
               Tail(before.fingerprints + [os[n].checkpoint.fingerprint], MAX_FINGERPRINT_HISTORY)
            && states[n].metrics.loopPattern == FindLoop(states[n].fingerprints)
  {
    hide Classify, NextState, QuietAfter, FindLoop, Admissible;
    ChainStep(h, Some(start), os, states, n);
    QuietStep(h, Before(Some(start), states, n).value, os[n]);
  }

  /** Quiet observations fill the window with their fingerprints, oldest dropped first. */
  lemma {:induction false} QuietFillsWindow(h: Hashes, start: State, os: seq<Observation>, states: seq<State>)
    requires Quiet(h, start, os, states) && |os| > 0
    ensures |states| == |os|
    ensures states[|os| - 1].fingerprints == Tail(start.fingerprints + Fingerprints(os), MAX_FINGERPRINT_HISTORY)
    decreases |os|
  {
    hide Quiet, FindLoop, NextState;
    var n := |os| - 1;
    QuietLink(h, start, os, states, n);
    assert Fingerprints(os) == Fingerprints(os[..n]) + [os[n].checkpoint.fingerprint];
    var earlier := start.fingerprints + Fingerprints(os[..n]);
    assert start.fingerprints + Fingerprints(os) == earlier + [os[n].checkpoint.fingerprint];
    if n == 0 {
      assert earlier == start.fingerprints;
    } else {
      QuietPrefix(h, start, os, states, n);
      QuietFillsWindow(h, start, os[..n], states[..n]);
      TailOfAppend(earlier, os[n].checkpoint.fingerprint, MAX_FINGERPRINT_HISTORY);
    }
  }

  /** Every observation but the first is quiet after the one before; the first, which may open
      the run or an epoch, bring evidence or wait, is recorded in the window. */
  ghost predicate QuietFromSecond(h: Hashes, start: Option<State>, os: seq<Observation>, states: seq<State>) {
    && Chain(h, start, os, states) && |os| > 0 && Independent(h, start, os[0])
    && forall i {:trigger os[i]} :: 1 <= i < |os| ==> QuietAfter(states[i - 1], os[i])
  }

  lemma QuietAfterFirst(h: Hashes, start: Option<State>, os: seq<Observation>, states: seq<State>)
    requires QuietFromSecond(h, start, os, states)
    ensures |states| == |os| > 0
    ensures Quiet(h, states[0], os[1..], states[1..])
    ensures var window := states[0].fingerprints;
            |window| > 0 && window[|window| - 1] == os[0].checkpoint.fingerprint
  {
    hide Classify, NextState, QuietAfter, Independent, FingerprintsOf;
    var first, later := states[0], states[1..];
    forall i | 0 <= i < |os[1..]| ensures Follows(h, Some(first), os[1..], later, i) {
      assert Follows(h, start, os, states, i + 1);
      assert Before(Some(first), later, i) == Before(start, states, i + 1);
    }
    forall i | 0 <= i < |os[1..]| ensures QuietAfter(Before(Some(first), later, i).value, os[1..][i]) {
      assert QuietAfter(states[i], os[i + 1]);
    }
    ChainStep(h, start, os, states, 0);
    WindowEndsHere(h, start, os[0]);
    WindowOfState(h, start, os[0]);
  }

  lemma WindowOfState(h: Hashes, previous: Option<State>, o: Observation)
    ensures NextState(h, previous, o).fingerprints == FingerprintsOf(h, previous, o)
  {
    hide FingerprintsOf, VerdictOf, DetectedLoop, NextProgressLease, WaitStepOf, Independent, NewlyAdmitted;
  }

  /** Completeness of loop reports despite the 12-entry window: six observations in a row, all but
      the first quiet, whose fingerprints repeat (the last three alike, or all six with period 2 or
      3), end in `looping` once the last two are unflagged and the progress lease has lapsed. */
  lemma SixQuietRepetitionsLoop(h: Hashes, start: Option<State>, os: seq<Observation>, states: seq<State>)
    requires |os| == 6 && QuietFromSecond(h, start, os, states)
    requires Unflagged(os[4]) && Unflagged(os[5])
    requires !ProgressActiveNow(h, Some(states[3]), os[4]) && !ProgressActiveNow(h, Some(states[4]), os[5])
    requires var f := Fingerprints(os);
             SuffixHasPeriod(f, 3, 1) || SuffixHasPeriod(f, 6, 2) || SuffixHasPeriod(f, 6, 3)
    ensures states[5].classification.Looping?
    ensures states[5].metrics.loopPattern == FindLoop(Fingerprints(os))
  {
    hide Classify, NextState, QuietAfter, FindLoop, Quiet, QuietFromSecond, NewlyAdmitted, ProgressActiveNow;
    QuietAfterFirst(h, start, os, states);
    var f, window := Fingerprints(os), states[0].fingerprints;
    QuietFillsWindow(h, states[0], os[1..], states[1..]);
    QuietLink(h, states[0], os[1..], states[1..], 4);
    var all := window + Fingerprints(os[1..]);
    assert all[|all| - 6..] == f;
    LoopOfSuffix(all, f);
    LoopDetectionExact(f);
    LastTwoDecide(h, states[0], os[1..], states[1..], 3);
  }

  /** Two quiet, unflagged observations without a progress lease decide wherever they occur. */
  lemma LastTwoDecide(h: Hashes, start: State, os: seq<Observation>, states: seq<State>, n: nat)
    requires Quiet(h, start, os, states) && n + 1 < |os|
    requires Unflagged(os[n]) && Unflagged(os[n + 1])
    requires !ProgressActiveNow(h, Before(Some(start), states, n), os[n])
    requires !ProgressActiveNow(h, Some(states[n]), os[n + 1])
    ensures states[n + 1].classification ==
            (if FindLoop(states[n + 1].fingerprints).Some? then Looping else Stagnant)
  {
    hide Classify, ValidState, NextState, Admissible, FindLoop;
    ChainStep(h, Some(start), os, states, n);
    ChainStep(h, Some(start), os, states, n + 1);
    var before := Before(Some(start), states, n).value;
    assert QuietAfter(before, os[n]) && QuietAfter(states[n], os[n + 1]);
    SameFence(h, before, os[n]);
    TwoUncoveredObservationsDecide(h, Some(before), os[n], os[n + 1]);
  }

  lemma SameFence(h: Hashes, before: State, o: Observation)
    requires QuietAfter(before, o)
    ensures Independent(h, Some(before), o)
    ensures var next := NextState(h, Some(before), o);
            next.workflow == o.checkpoint.workflow && next.brokerEpoch == o.brokerEpoch && next.observedAt == o.nowMs
  {
  }

  /** Soundness of loop reports: a state called looping shows a repetition in the window it
      persists, and never while a wait it merely keeps polling is active. */
  lemma LoopingIsGenuine(h: Hashes, previous: Option<State>, o: Observation)
    requires Admissible(h, previous, o) && !UnsoundRepeat(h, previous, o)
    requires NextState(h, previous, o).classification.Looping?
    ensures var f := NextState(h, previous, o).fingerprints;
            SuffixHasPeriod(f, 3, 1) || SuffixHasPeriod(f, 6, 2) || SuffixHasPeriod(f, 6, 3)
    ensures WaitActiveNow(previous, o) ==> WaitTransition(previous, o)
  {
    hide FindLoop, NewlyAdmitted, WaitStepOf, FingerprintsOf, Admissible, UnsoundRepeat;
    StepRelationsValid(h, previous, o);
    LoopDetectionExact(NextState(h, previous, o).fingerprints);
  }

  /** The store recomputes every incident key from the fields it persists, taking the step
      fingerprint from the end of the window and the phase from the monitor's own state
      (src/eagle-monitor-store.mjs, `assertState`). It finds the key the classifier wrote, if keys
      do not collide, exactly when that phase is the checkpoint's. */
  lemma StoreReproducesIncidentKey(h: Hashes, previous: Option<State>, o: Observation, phase: Option<string>)
    requires forall a, b: Incident :: h.ofIncident(a) == h.ofIncident(b) ==> a == b
    requires Independent(h, previous, o)
    ensures var s := NextState(h, previous, o);
            && |s.fingerprints| > 0
            && (s.incidentKey.Some? ==>
                  (s.incidentKey.value == h.ofIncident(IdentityOf(s, phase)) <==> phase == o.checkpoint.phase))
  {
    hide NextState, IdentityOf;
    var s := NextState(h, previous, o);
    KeyOfIdentity(h, previous, o);
    assert phase != o.checkpoint.phase ==> IdentityOf(s, phase) != IdentityOf(s, o.checkpoint.phase) by {
      IdentityNamesPhase(s, phase);
      IdentityNamesPhase(s, o.checkpoint.phase);
    }
  }

  lemma IdentityNamesPhase(s: State, phase: Option<string>)
    requires |s.fingerprints| > 0
    ensures IdentityOf(s, phase).phase == phase
  {
  }

  /** The key a step writes, for any digest. */
  lemma KeyOfIdentity(h: Hashes, previous: Option<State>, o: Observation)
    requires Independent(h, previous, o)
    ensures var s := NextState(h, previous, o);
            && |s.fingerprints| > 0
            && (s.incidentKey.Some? <==> IncidentRequired(s.classification))
            && (s.incidentKey.Some? ==> s.incidentKey.value == h.ofIncident(IdentityOf(s, o.checkpoint.phase)))
  {
    hide FingerprintsOf, VerdictOf, DetectedLoop, NextProgressLease, WaitStepOf, Independent, NewlyAdmitted, PriorSeen,
      PriorFence, Unseen, NoveltyThousandths, FindLoop;
    WindowEndsHere(h, previous, o);
    var s := NextState(h, previous, o);
    assert IncidentOf(h, previous, o) == IdentityOf(s, o.checkpoint.phase);
  }

  lemma LoopOfSuffix(all: seq<Digest>, f: seq<Digest>)
    requires |f| == 6 && |all| >= 6 && all[|all| - 6..] == f
    ensures FindLoop(Tail(all, MAX_FINGERPRINT_HISTORY)) == FindLoop(f)
  {
    var window := Tail(all, MAX_FINGERPRINT_HISTORY);
    assert Tail(window, 6) == f && Tail(f, 6) == f;
    assert Tail(window, 3) == Tail(f, 3);
  }
}
