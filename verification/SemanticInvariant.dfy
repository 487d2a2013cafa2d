/** The classifier only writes states its own validator accepts, exactly unless an
    observation repeats an instant in one particular way. */
module SemanticInvariant {
  import opened Prelude
  import opened LoopDetection
  import opened SemanticState
  import opened SemanticClassifier

  // ---- evidence -------------------------------------------------------

  ghost predicate Brings(evidence: seq<Evidence>, d: Digest) {
    exists i :: 0 <= i < |evidence| && evidence[i].digest == d
  }

  lemma {:induction false} UnseenIsNew(evidence: seq<Evidence>, seen: seq<Digest>)
    requires DistinctEvidence(evidence)
    ensures |Unseen(evidence, seen)| <= |evidence|
    ensures forall d :: d in Unseen(evidence, seen) ==> d !in seen && Brings(evidence, d)
    ensures Distinct(Unseen(evidence, seen))
  {
    if evidence == [] {
    } else {
      var rest := evidence[1..];
      UnseenIsNew(rest, seen);
      forall d | d in Unseen(rest, seen) ensures d != evidence[0].digest && Brings(evidence, d) {
        var i :| 0 <= i < |rest| && rest[i].digest == d;
        assert evidence[i + 1].digest == d;
      }
      assert Brings(evidence, evidence[0].digest);
    }
  }

  lemma AppendNew(seen: seq<Digest>, more: seq<Digest>)
    requires Distinct(seen) && Distinct(more)
    requires forall d :: d in more ==> d !in seen
    ensures Distinct(seen + more)
  {
    forall i, j | 0 <= i < j < |seen + more| ensures (seen + more)[i] != (seen + more)[j] {
      if i < |seen| && |seen| <= j {
        assert (seen + more)[j] in more;
      }
    }
  }

  /** Admission keeps the identity set duplicate-free and bounded, admits nothing twice, and
      leaves evidence out only when the set is full. */
  lemma AdmissionBounded(evidence: seq<Evidence>, seen: seq<Digest>)
    requires DistinctEvidence(evidence) && Distinct(seen) && |seen| <= MAX_EVIDENCE_IDENTITIES
    ensures var admitted := Admitted(evidence, seen);
            && Distinct(admitted) && Distinct(seen + admitted)
            && (forall d :: d in admitted ==> d !in seen)
            && |admitted| <= |evidence|
            && |seen + admitted| <= MAX_EVIDENCE_IDENTITIES
            && (|Unseen(evidence, seen)| > |admitted| ==> |seen + admitted| == MAX_EVIDENCE_IDENTITIES)
  {
    UnseenIsNew(evidence, seen);
    var admitted := Admitted(evidence, seen);
    assert forall i :: 0 <= i < |admitted| ==> admitted[i] == Unseen(evidence, seen)[i];
    AppendNew(seen, admitted);
  }

  // ---- waits ----------------------------------------------------------

  /** What may happen to a wait history: entries keep their position, identity, operation,
      start, deadline and extension allowance; the extension is spent at most once and then
      pins the effective deadline; new entries go to the end. */
  ghost predicate Retains(before: seq<WaitEntry>, after: seq<WaitEntry>) {
    && |before| <= |after|
    && forall i :: 0 <= i < |before| ==> EntryRetained(before[i], after[i])
  }

  ghost predicate EntryRetained(e: WaitEntry, f: WaitEntry) {
    && f == e.(effectiveDeadlineAt := f.effectiveDeadlineAt, extensionUsed := f.extensionUsed)
    && (e.extensionUsed == 1 ==> f == e)
    && (f.extensionUsed == e.extensionUsed ==> f == e)
  }

  lemma RetainsTransitive(a: seq<WaitEntry>, b: seq<WaitEntry>, c: seq<WaitEntry>)
    requires Retains(a, b) && Retains(b, c)
    requires forall i :: 0 <= i < |b| ==> b[i].extensionUsed == 0 || b[i].extensionUsed == 1
    requires forall i :: 0 <= i < |a| ==> a[i].extensionUsed == 0 || a[i].extensionUsed == 1
    requires forall i :: 0 <= i < |c| ==> c[i].extensionUsed == 0 || c[i].extensionUsed == 1
    ensures Retains(a, c)
  {
    forall i | 0 <= i < |a| ensures EntryRetained(a[i], c[i]) {
      assert EntryRetained(a[i], b[i]) && EntryRetained(b[i], c[i]);
    }
  }

  lemma IndexOfFound(history: seq<WaitEntry>, k: nat)
    requires k < |history| && DistinctIdentities(history)
    ensures IndexOf(history, history[k].identity) == k
  {
    assert forall m :: 0 <= m < k ==> history[m].identity != history[k].identity;
  }

  /** A wait step keeps a valid history valid and retained, and leases one of its entries. */
  lemma WaitStepValid(source: Option<WaitSource>, previous: Option<WaitLease>, history: seq<WaitEntry>, nowMs: int)
    requires source.Some? ==> ValidWaitSource(source.value)
    requires ValidWaitHistory(history)
    ensures var step := NextWait(source, previous, history, nowMs);
            && ValidWaitHistory(step.history)
            && Retains(history, step.history)
            && (step.lease.Some? ==>
                  && step.lease.value.observedAt == nowMs
                  && ValidWaitEntry(step.lease.value.entry)
                  && var i := IndexOf(step.history, step.lease.value.entry.identity);
                     i < |step.history| && step.history[i] == step.lease.value.entry)
  {
    hide ValidWaitEntry, Extended, ValidWaitSource;
    if || source.None?
       || (IndexOf(history, source.value.identity) == |history| && |history| >= MAX_EXPECTED_WAIT_HISTORY)
    {
      assert forall k :: 0 <= k < |history| ==> EntryRetained(history[k], history[k]);
    } else {
      var i := IndexOf(history, source.value.identity);
      var known := if i < |history| then history else history + [FreshEntry(source.value)];
      KnownIsValid(source.value, history);
      ExtendedValid(known[i], nowMs);
      ReplacedEntry(known, i, Extended(known[i], nowMs));
      assert forall k :: 0 <= k < |history| ==> history[k] == known[k];
    }
  }

  lemma ExtendedValid(entry: WaitEntry, nowMs: int)
    requires ValidWaitEntry(entry)
    ensures ValidWaitEntry(Extended(entry, nowMs)) && EntryRetained(entry, Extended(entry, nowMs))
  {
  }

  lemma ReplacedEntry(known: seq<WaitEntry>, i: nat, entry: WaitEntry)
    requires i < |known| && DistinctIdentities(known)
    requires forall k :: 0 <= k < |known| ==> ValidWaitEntry(known[k])
    requires ValidWaitEntry(entry) && EntryRetained(known[i], entry)
    ensures var after := known[i := entry];
            && DistinctIdentities(after)
            && (forall k :: 0 <= k < |after| ==> ValidWaitEntry(after[k]))
            && (forall k :: 0 <= k < |after| ==> EntryRetained(known[k], after[k]))
            && IndexOf(after, entry.identity) == i
  {
    hide ValidWaitEntry;
    var after := known[i := entry];
    IndexOfFound(after, i);
  }

  /** Looking a wait up, or appending it while there is room, keeps the history valid. */
  lemma KnownIsValid(source: WaitSource, history: seq<WaitEntry>)
    requires ValidWaitSource(source) && ValidWaitHistory(history)
    ensures var i := IndexOf(history, source.identity);
            var known := if i < |history| then history else history + [FreshEntry(source)];
            && DistinctIdentities(known)
            && (forall k :: 0 <= k < |known| ==> ValidWaitEntry(known[k]))
            && known[..|history|] == history
            && known[i].identity == source.identity
  {
  }

  // ---- fingerprints ---------------------------------------------------

  lemma {:induction false} QuotientBelow(x: nat, m: nat, bound: nat)
    requires m > 0 && x < m * bound
    ensures Quotient(x, m) < bound
    decreases x
  {
    if x >= m {
      assert m * (bound - 1) == m * bound - m;
      QuotientBelow(x - m, m, bound - 1);
    }
  }

  lemma NoveltyInRange(history: seq<Digest>)
    requires |history| > 0
    ensures 0 <= NoveltyThousandths(history) <= 1000
  {
    DistinctCountIsSetSize(history);
    QuotientBelow(2000 * DistinctCount(history) + |history|, 2 * |history|, 1001);
  }

  // ---- one step -------------------------------------------------------

  /** What every caller of a classification step provides. */
  predicate Admissible(h: Hashes, previous: Option<State>, o: Observation) {
    && ValidCheckpoint(o.checkpoint)
    && (previous.Some? ==> ValidState(h, previous.value))
    && o.nowMs >= 0 && (o.brokerEpoch.Some? ==> o.brokerEpoch.value >= 0)
    && (PriorWorkflow(previous, o).Some? ==> previous.value.observedAt <= o.nowMs)
  }

  /** An observation of an instant and a checkpoint digest already recorded, on which the
      classifier cannot build: it either brings evidence the recorded digest did not have,
      or it would confirm a suspicion nothing has raised yet. */
  predicate UnsoundRepeat(h: Hashes, previous: Option<State>, o: Observation) {
    && !Independent(h, previous, o)
    && (|| NewlyAdmitted(previous, o) != []
        || (&& !o.settled && !o.humanRequired
            && !WaitActiveNow(previous, o) && !ProgressActiveNow(h, previous, o)
            && PriorFence(previous, o).value.suspectCount == 0))
  }

  lemma StepHistoriesValid(h: Hashes, previous: Option<State>, o: Observation)
    requires Admissible(h, previous, o)
    requires Independent(h, previous, o) || NewlyAdmitted(previous, o) == []
    ensures var next := NextState(h, previous, o);
            ValidScalars(next) && ValidHistories(next) && ValidMetrics(next.metrics)
    ensures var next := NextState(h, previous, o);
            next.metrics.evidenceCapacityExhausted ==> |next.seen| >= MAX_EVIDENCE_IDENTITIES
  {
    hide ValidRelations, FindLoop, ValidReason, NextWait, Sort, Unseen, Admitted, Decide, IncidentOf, DetectedLoop,
      NextProgressLease, ProgressActiveNow, NoveltyThousandths, WaitStepOf, ValidState, Admissible;
    hide FingerprintsOf, PriorSeen, Independent;
    SeenStaysBounded(h, previous, o);
    PriorCounts(h, previous, o);
    WindowBounded(h, previous, o);
    NoveltyInRange(FingerprintsOf(h, previous, o));
    var fence := PriorFence(previous, o);
    DecideCounts(o, NewlyAdmitted(previous, o) != [], WaitStepOf(previous, o).lease, DetectedLoop(h, previous, o),
                 ProgressActiveNow(h, previous, o),
                 (if fence.Some? then fence.value.suspectCount else 0)
                 + (if Independent(h, previous, o) then 1 else 0));
  }

  lemma SeenStaysBounded(h: Hashes, previous: Option<State>, o: Observation)
    requires Admissible(h, previous, o)
    ensures var seen, admitted := PriorSeen(previous, o) + NewlyAdmitted(previous, o), NewlyAdmitted(previous, o);
            && Distinct(seen) && |seen| <= MAX_EVIDENCE_IDENTITIES
            && |admitted| <= |o.checkpoint.evidence|
            && (|Unseen(o.checkpoint.evidence, PriorSeen(previous, o))| > |admitted| ==>
                  |seen| >= MAX_EVIDENCE_IDENTITIES)
  {
    hide Admissible, Admitted, Unseen, PriorSeen;
    PriorFacts(h, previous, o);
    AdmissionBounded(o.checkpoint.evidence, PriorSeen(previous, o));
  }

  lemma WindowBounded(h: Hashes, previous: Option<State>, o: Observation)
    requires Admissible(h, previous, o)
    requires Independent(h, previous, o) || NewlyAdmitted(previous, o) == []
    ensures var fence := PriorFence(previous, o);
            && 1 <= |FingerprintsOf(h, previous, o)| <= MAX_FINGERPRINT_HISTORY
            && |FingerprintsOf(h, previous, o)| <=
               (if fence.Some? then fence.value.observationCount else 0)
               + (if Independent(h, previous, o) then 1 else 0)
  {
    hide Admissible, NewlyAdmitted, WaitActiveNow, WaitTransition, PriorFence;
    PriorCounts(h, previous, o);
    assert !Independent(h, previous, o) ==> PriorFence(previous, o).Some?;
  }

  lemma PriorCounts(h: Hashes, previous: Option<State>, o: Observation)
    requires Admissible(h, previous, o)
    ensures var fence := PriorFence(previous, o);
            fence.Some? ==>
              && 1 <= |fence.value.fingerprints| <= MAX_FINGERPRINT_HISTORY
              && |fence.value.fingerprints| <= fence.value.observationCount
              && 0 <= fence.value.suspectCount <= fence.value.observationCount
    ensures |o.checkpoint.evidence| <= MAX_CHECKPOINT_EVIDENCE
    ensures o.brokerEpoch.Some? ==> o.brokerEpoch.value >= 0
  {
    hide ValidRelations, ValidReason;
  }

  lemma DecideCounts(o: Observation, newEvidence: bool, wait: Option<WaitLease>, detectedLoop: Option<LoopPattern>,
                     progressActive: bool, suspectCount: nat)
    ensures var v := Decide(o, newEvidence, wait, detectedLoop, progressActive, suspectCount);
            && 0 <= v.suspectCount <= suspectCount
            && (v.classification.Suspect? ==>
                  && !o.settled && !o.humanRequired && !newEvidence && !progressActive
                  && !IsWaitActive(wait, o.nowMs))
  {
  }

  lemma StepProgressValid(h: Hashes, previous: Option<State>, o: Observation)
    requires Admissible(h, previous, o)
    ensures var next := NextState(h, previous, o);
            && (next.progressLease.Some? ==> ValidProgressLease(h, next.progressLease.value, next))
            && (NewlyAdmitted(previous, o) != [] ==>
                  |next.progressLease.value.evidenceDigests| == |NewlyAdmitted(previous, o)|)
  {
    hide ValidRelations, FindLoop, ValidReason, NextWait, VerdictOf, FingerprintsOf, WaitStepOf, DetectedLoop,
      IncidentOf, NoveltyThousandths, Sort, Admitted, Unseen;
    PriorProgress(h, previous, o);
    var seen, admitted := PriorSeen(previous, o), NewlyAdmitted(previous, o);
    if admitted != [] {
      FreshLeaseValid(h, previous, o);
    } else {
      assert seen + admitted == seen;
    }
  }

  lemma PriorProgress(h: Hashes, previous: Option<State>, o: Observation)
    requires Admissible(h, previous, o)
    ensures var prior := PriorWorkflow(previous, o);
            prior.Some? && prior.value.progressLease.Some? ==>
              ValidProgressLease(h, prior.value.progressLease.value, prior.value.(observedAt := o.nowMs))
  {
    hide ValidRelations, ValidReason, Sort;
  }

  lemma FreshLeaseValid(h: Hashes, previous: Option<State>, o: Observation)
    requires Admissible(h, previous, o) && NewlyAdmitted(previous, o) != []
    ensures var admitted := NewlyAdmitted(previous, o);
            && 1 <= |Sort(admitted)| == |admitted| <= MAX_CHECKPOINT_EVIDENCE
            && Distinct(Sort(admitted))
            && (forall d :: d in Sort(admitted) ==> d in PriorSeen(previous, o) + admitted)
            && Sort(Sort(admitted)) == Sort(admitted)
  {
    hide Admitted, PriorSeen, Sort, Admissible;
    var admitted := NewlyAdmitted(previous, o);
    PriorFacts(h, previous, o);
    PriorCounts(h, previous, o);
    AdmissionBounded(o.checkpoint.evidence, PriorSeen(previous, o));
    SortOrders(admitted);
    SortMembers(admitted);
  }

  lemma StepWaitValid(h: Hashes, previous: Option<State>, o: Observation)
    requires Admissible(h, previous, o)
    ensures var next := NextState(h, previous, o);
            && ValidWaitHistory(next.waitHistory)
            && (next.waitLease.Some? ==> ValidWaitLease(next.waitLease.value, next))
    ensures PriorWorkflow(previous, o).Some? ==>
              Retains(previous.value.waitHistory, NextState(h, previous, o).waitHistory)
  {
    hide ValidRelations, FindLoop, ValidReason, VerdictOf, FingerprintsOf, Unseen, Sort;
    var prior := PriorWorkflow(previous, o);
    WaitStepValid(o.checkpoint.expectedWait,
                  if prior.Some? then prior.value.waitLease else None,
                  if prior.Some? then prior.value.waitHistory else [],
                  o.nowMs);
  }

  /** The decision ladder and the validator's relations agree on any state whose fields carry
      the signals the ladder decided on. */
  lemma LadderMeetsRelations(s: State, o: Observation, newEvidence: bool, transition: bool, count: int)
    requires |s.fingerprints| > 0 && s.observedAt == o.nowMs
    requires s.dimensions.settled == o.settled && s.dimensions.humanBoundary == o.humanRequired
    requires Verdict(s.classification, s.reason, s.suspectCount) ==
             Decide(o, newEvidence, s.waitLease, s.metrics.loopPattern, ProgressLeaseActive(s), count)
    requires s.incidentKey.Some? <==> IncidentRequired(s.classification)
    requires s.metrics.loopPattern ==
             if newEvidence || (IsWaitActive(s.waitLease, o.nowMs) && !transition) then None
             else FindLoop(s.fingerprints)
    requires newEvidence ==>
               && s.metrics.unseenEvidenceCount >= 1 && |s.fingerprints| == 1
               && s.progressLease.Some? && s.progressLease.value.renewedAt == s.observedAt
               && s.progressLease.value.renewedAt <= s.progressLease.value.expiresAt
               && |s.progressLease.value.evidenceDigests| == s.metrics.unseenEvidenceCount
    requires !newEvidence ==> s.metrics.unseenEvidenceCount == 0
    requires s.classification.Suspect? ==> count >= 1
    requires s.metrics.noveltyScore == NoveltyThousandths(s.fingerprints)
    requires s.metrics.evidenceCapacityExhausted ==> |s.seen| >= MAX_EVIDENCE_IDENTITIES
    ensures ValidRelations(s) && ValidReason(s)
  {
    hide FindLoop, NoveltyThousandths;
  }

  /** What a step uses of a valid previous state and checkpoint. */
  lemma PriorFacts(h: Hashes, previous: Option<State>, o: Observation)
    requires Admissible(h, previous, o)
    ensures var prior := PriorWorkflow(previous, o);
            && (prior.Some? && prior.value.progressLease.Some? ==>
                  prior.value.progressLease.value.renewedAt <= o.nowMs)
            && (prior.Some? ==> ValidWaitHistory(prior.value.waitHistory))
    ensures var fence := PriorFence(previous, o);
            fence.Some? ==> |fence.value.fingerprints| > 0 && fence.value.suspectCount >= 0
    ensures Distinct(PriorSeen(previous, o)) && |PriorSeen(previous, o)| <= MAX_EVIDENCE_IDENTITIES
    ensures DistinctEvidence(o.checkpoint.evidence)
  {
    hide ValidRelations, ValidReason;
  }

  /** An independent observation leaves a non-empty window ending in its own fingerprint. */
  lemma WindowEndsHere(h: Hashes, previous: Option<State>, o: Observation)
    requires Independent(h, previous, o)
    ensures var f := FingerprintsOf(h, previous, o);
            |f| > 0 && f[|f| - 1] == o.checkpoint.fingerprint
    ensures NewlyAdmitted(previous, o) != [] ==> |FingerprintsOf(h, previous, o)| == 1
  {
    hide Independent, NewlyAdmitted, WaitActiveNow, WaitTransition;
  }

  lemma StepRelationsValid(h: Hashes, previous: Option<State>, o: Observation)
    requires Admissible(h, previous, o)
    requires !UnsoundRepeat(h, previous, o)
    ensures var next := NextState(h, previous, o);
            |next.fingerprints| > 0 && ValidRelations(next) && ValidReason(next)
  {
    hide Admissible, FindLoop, NoveltyThousandths, Sort, Unseen, Admitted, IndexOf, NextWait, FingerprintsOf,
      ValidRelations, ValidReason, ValidProgressLease, ValidHistories, Decide, ProgressActiveNow, ProgressLeaseActive,
      NextProgressLease, WaitTransition, PriorSeen;
    PriorCounts(h, previous, o);
    StepHistoriesValid(h, previous, o);
    StepLease(h, previous, o);
    if Independent(h, previous, o) { WindowEndsHere(h, previous, o); }
    WindowBounded(h, previous, o);
    var fence := PriorFence(previous, o);
    var count := (if fence.Some? then fence.value.suspectCount else 0) + (if Independent(h, previous, o) then 1 else 0);
    DecideCounts(o, NewlyAdmitted(previous, o) != [], WaitStepOf(previous, o).lease, DetectedLoop(h, previous, o),
                 ProgressActiveNow(h, previous, o), count);
    LadderMeetsRelations(
      NextState(h, previous, o), o, NewlyAdmitted(previous, o) != [], WaitTransition(previous, o), count);
  }

  /** The written lease is active exactly when the step took it for active. */
  lemma StepLease(h: Hashes, previous: Option<State>, o: Observation)
    requires Admissible(h, previous, o)
    ensures var next := NextState(h, previous, o);
            && (ProgressLeaseActive(next) <==> ProgressActiveNow(h, previous, o))
            && (NewlyAdmitted(previous, o) != [] ==>
                  && next.progressLease.Some?
                  && next.progressLease.value.renewedAt == o.nowMs
                  && next.progressLease.value.renewedAt <= next.progressLease.value.expiresAt
                  && |next.progressLease.value.evidenceDigests| == |NewlyAdmitted(previous, o)|)
  {
    hide Admissible, VerdictOf, IncidentOf, FingerprintsOf, DetectedLoop, WaitStepOf, NoveltyThousandths, Unseen,
      Admitted;
    PriorFacts(h, previous, o);
    SortOrders(NewlyAdmitted(previous, o));
  }

  /** The exact condition: the next state passes the whole validator unless the observation
      is an unsound repeat of a recorded instant. */
  lemma StepValidExactly(h: Hashes, previous: Option<State>, o: Observation)
    requires Admissible(h, previous, o)
    ensures Classify(h, previous, o) == Ok(NextState(h, previous, o))
    ensures ValidState(h, NextState(h, previous, o)) <==> !UnsoundRepeat(h, previous, o)
  {
    if !UnsoundRepeat(h, previous, o) {
      StepIsValid(h, previous, o);
    } else {
      UnsoundRepeatIsRefused(h, previous, o);
    }
  }

  lemma StepIsValid(h: Hashes, previous: Option<State>, o: Observation)
    requires Admissible(h, previous, o)
    requires !UnsoundRepeat(h, previous, o)
    ensures ValidState(h, NextState(h, previous, o))
  {
    StepHistoriesValid(h, previous, o);
    StepProgressValid(h, previous, o);
    StepWaitValid(h, previous, o);
    StepRelationsValid(h, previous, o);
    hide NextState, UnsoundRepeat;
  }

  lemma UnsoundRepeatIsRefused(h: Hashes, previous: Option<State>, o: Observation)
    requires UnsoundRepeat(h, previous, o)
    ensures !ValidState(h, NextState(h, previous, o))
  {
    hide FindLoop, NoveltyThousandths, Sort, Unseen, NextWait, IndexOf;
    var next := NextState(h, previous, o);
    if NewlyAdmitted(previous, o) != [] {
      assert next.fingerprints == [];
    } else {
      assert next.classification.Suspect? && next.suspectCount == 0;
    }
  }
}
