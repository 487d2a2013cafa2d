/** Exactly when the semantic classifier gives each of its answers, and every part of the state it
    writes, stated over the observation, the checkpoint's evidence and the previous state
    (src/eagle-monitor-semantic.mjs, `classifyEagleSemanticLiveness`). */
module SemanticOutcomes {
  import opened Prelude
  import opened LoopDetection
  import opened SemanticState
  import opened SemanticClassifier

  // ---- what counts as new evidence ------------------------------------

  /** The position of an identity in the evidence; nothing in it but the digest matters. */
  predicate Lists(evidence: seq<Evidence>, d: Digest) {
    exists i :: 0 <= i < |evidence| && evidence[i].digest == d
  }

  lemma {:induction false} UnseenExactly(evidence: seq<Evidence>, seen: seq<Digest>)
    requires DistinctEvidence(evidence)
    ensures forall d :: d in Unseen(evidence, seen) <==> Lists(evidence, d) && d !in seen
    ensures Distinct(Unseen(evidence, seen)) && |Unseen(evidence, seen)| <= |evidence|
  {
    if evidence != [] {
      var rest, e := evidence[1..], evidence[0];
      UnseenExactly(rest, seen);
      var later := Unseen(rest, seen);
      assert forall i :: 0 <= i < |rest| ==> rest[i] == evidence[i + 1];
      forall d ensures Lists(evidence, d) <==> d == e.digest || Lists(rest, d) {
        if Lists(rest, d) {
          var i :| 0 <= i < |rest| && rest[i].digest == d;
          assert evidence[i + 1].digest == d;
        }
        if d == e.digest { assert evidence[0].digest == d; }
      }
      assert !Lists(rest, e.digest);
    }
  }

  /** Unseen evidence keeps the order of the checkpoint. */
  lemma {:induction false} UnseenInOrder(evidence: seq<Evidence>, seen: seq<Digest>, i: nat, j: nat, a: nat, b: nat)
    requires DistinctEvidence(evidence) && i < |evidence| && j < |evidence|
    requires a < b < |Unseen(evidence, seen)|
    requires Unseen(evidence, seen)[a] == evidence[i].digest && Unseen(evidence, seen)[b] == evidence[j].digest
    ensures i < j
  {
    var rest, u := evidence[1..], Unseen(evidence, seen);
    assert forall k :: 0 <= k < |rest| ==> rest[k] == evidence[k + 1];
    UnseenExactly(evidence, seen);
    UnseenExactly(rest, seen);
    if evidence[0].digest in seen {
      assert i > 0 && j > 0;
      UnseenInOrder(rest, seen, i - 1, j - 1, a, b);
    } else if a == 0 {
      assert i == 0 && j != 0;
    } else {
      assert Unseen(rest, seen)[a - 1] == u[a] && Unseen(rest, seen)[b - 1] == u[b];
      assert u[a] != u[0] && u[b] != u[0];
      UnseenInOrder(rest, seen, i - 1, j - 1, a - 1, b - 1);
    }
  }

  /** Admission, exactly: every new identity of the checkpoint is admitted, whatever its kind and
      result, in checkpoint order, until 512 identities are known. */
  lemma AdmissionExactly(evidence: seq<Evidence>, seen: seq<Digest>, i: nat)
    requires DistinctEvidence(evidence) && i < |evidence| && |seen| <= 512
    ensures var admitted := Admitted(evidence, seen);
      && (evidence[i].digest in seen + admitted || |seen + admitted| == 512)
      && (forall d :: d in admitted ==> Lists(evidence, d) && d !in seen)
      && Distinct(admitted) && |seen + admitted| <= 512
      && (forall j, a, b :: 0 <= j < |evidence| && 0 <= a < b < |admitted| ==>
            admitted[a] == evidence[i].digest && admitted[b] == evidence[j].digest ==> i < j)
      && (evidence[i].digest !in seen && evidence[i].digest !in admitted ==>
            forall j :: i <= j < |evidence| ==> evidence[j].digest !in admitted)
  {
    var u, admitted := Unseen(evidence, seen), Admitted(evidence, seen);
    UnseenExactly(evidence, seen);
    assert Lists(evidence, evidence[i].digest);
    assert admitted == u[..|admitted|];
    forall j, a, b | 0 <= j < |evidence| && 0 <= a < b < |admitted| &&
                     admitted[a] == evidence[i].digest && admitted[b] == evidence[j].digest
      ensures i < j
    {
      UnseenInOrder(evidence, seen, i, j, a, b);
    }
    if evidence[i].digest !in seen && evidence[i].digest !in admitted {
      var b :| 0 <= b < |u| && u[b] == evidence[i].digest;
      forall j | i <= j < |evidence| ensures evidence[j].digest !in admitted {
        if evidence[j].digest in admitted {
          var a :| 0 <= a < |admitted| && admitted[a] == evidence[j].digest;
          UnseenInOrder(evidence, seen, j, i, a, b);
        }
      }
    }
  }

  lemma ListedAt(evidence: seq<Evidence>, d: Digest) returns (i: nat)
    requires Lists(evidence, d)
    ensures i < |evidence| && evidence[i].digest == d
  {
    i :| 0 <= i < |evidence| && evidence[i].digest == d;
  }

  lemma IsListed(evidence: seq<Evidence>, i: nat)
    requires i < |evidence|
    ensures Lists(evidence, evidence[i].digest)
  {
  }

  /** The identities known before: those of the previous state of the same workflow. */
  function Known(previous: Option<State>, o: Observation): seq<Digest> {
    if previous.Some? && previous.value.workflow == o.checkpoint.workflow then previous.value.seen else []
  }

  /** The checkpoint brings evidence that is not known and still fits. */
  predicate Novel(previous: Option<State>, o: Observation) {
    && |Known(previous, o)| < 512
    && exists i :: 0 <= i < |o.checkpoint.evidence| && o.checkpoint.evidence[i].digest !in Known(previous, o)
  }

  lemma NovelExactly(previous: Option<State>, o: Observation)
    requires DistinctEvidence(o.checkpoint.evidence)
    ensures Novel(previous, o) <==> NewlyAdmitted(previous, o) != []
  {
    hide Unseen, DistinctEvidence, Distinct, Lists;
    var evidence, seen := o.checkpoint.evidence, Known(previous, o);
    UnseenExactly(evidence, seen);
    if Unseen(evidence, seen) != [] {
      assert Unseen(evidence, seen)[0] in Unseen(evidence, seen);
      var i := ListedAt(evidence, Unseen(evidence, seen)[0]);
    }
    if Novel(previous, o) {
      var i :| 0 <= i < |evidence| && evidence[i].digest !in seen;
      IsListed(evidence, i);
    }
  }

  // ---- waits ----------------------------------------------------------

  /** The one extension of a wait is due: its deadline has passed, it may be extended and has not
      been, and the extension has not passed as well. */
  predicate ExtensionDue(e: WaitEntry, nowMs: int) {
    && e.extensionUsed == 0 && e.maxExtensionMs > 0 && nowMs > e.effectiveDeadlineAt
    && nowMs <= e.deadlineAt + e.maxExtensionMs && nowMs <= e.deadlineAt + 60_000
  }

  predicate Registered(history: seq<WaitEntry>, identity: Digest) {
    exists i :: 0 <= i < |history| && history[i].identity == identity
  }

  /** What a wait entry becomes: extended by its own limit, at most a minute, exactly when that is
      due, and otherwise what it was. */
  predicate EntryFollows(before: WaitEntry, after: WaitEntry, nowMs: int) {
    if ExtensionDue(before, nowMs) then
      && after.extensionUsed == 1
      && after.effectiveDeadlineAt ==
           before.deadlineAt + (if before.maxExtensionMs <= 60_000 then before.maxExtensionMs else 60_000)
      && after.(extensionUsed := 0, effectiveDeadlineAt := 0) == before.(extensionUsed := 0, effectiveDeadlineAt := 0)
    else after == before
  }

  /** The wait step in every case. */
  lemma WaitExactly(source: Option<WaitSource>, previous: Option<WaitLease>, history: seq<WaitEntry>, nowMs: int)
    ensures var step := NextWait(source, previous, history, nowMs);
      && (source.None? ==> step == WaitStep(history, None, false))
      && (source.Some? && Registered(history, source.value.identity) ==>
            exists i ::
              && 0 <= i < |history| && history[i].identity == source.value.identity
              && (forall k :: 0 <= k < i ==> history[k].identity != source.value.identity)
              && |step.history| == |history| && EntryFollows(history[i], step.history[i], nowMs)
              && (forall k :: 0 <= k < |history| && k != i ==> step.history[k] == history[k])
              && step.lease == Some(WaitLease(step.history[i], nowMs))
              && (step.restored <==> previous.None? || previous.value.entry.identity != source.value.identity))
      && (source.Some? && !Registered(history, source.value.identity) && |history| < 16 ==>
            var w := source.value;
            && |step.history| == |history| + 1 && step.history[..|history|] == history
            && EntryFollows(WaitEntry(w.identity, w.operation, w.startAt, w.deadlineAt, w.deadlineAt, 0,
                                      w.maxExtensionMs),
                            step.history[|history|], nowMs)
            && step.lease == Some(WaitLease(step.history[|history|], nowMs)) && !step.restored)
      && (source.Some? && !Registered(history, source.value.identity) && |history| >= 16 ==>
            step == WaitStep(history, None, false))
  {
    if source.Some? {
      var i, step := IndexOf(history, source.value.identity), NextWait(source, previous, history, nowMs);
      if i < |history| {
        EntryExtends(history[i], nowMs);
        assert EntryFollows(history[i], step.history[i], nowMs);
      } else if |history| < 16 {
        EntryExtends(FreshEntry(source.value), nowMs);
      }
    }
  }

  lemma EntryExtends(e: WaitEntry, nowMs: int)
    ensures EntryFollows(e, Extended(e, nowMs), nowMs)
  {
  }

  // ---- the state a step writes ----------------------------------------

  predicate SameWorkflow(previous: Option<State>, o: Observation) {
    previous.Some? && previous.value.workflow == o.checkpoint.workflow
  }

  /** Counters and the window go on only under the same broker epoch. */
  predicate SameEpoch(previous: Option<State>, o: Observation) {
    SameWorkflow(previous, o) && previous.value.brokerEpoch == o.brokerEpoch
  }

  /** The observation is not a repetition of the recorded instant and checkpoint. */
  predicate Fresh(h: Hashes, previous: Option<State>, o: Observation) {
    SameEpoch(previous, o) ==>
      h.ofCheckpoint(o.checkpoint) != previous.value.checkpointDigest || o.nowMs > previous.value.observedAt
  }

  /** Identities, evidence metrics, waits and counters. */
  lemma BookkeepingExactly(h: Hashes, previous: Option<State>, o: Observation)
    requires ValidCheckpoint(o.checkpoint) && |Known(previous, o)| <= 512
    ensures var next := NextState(h, previous, o);
      var admitted := Admitted(o.checkpoint.evidence, Known(previous, o));
      && next.seen == Known(previous, o) + admitted
      && next.metrics.qualifyingEvidenceCount == |o.checkpoint.evidence|
      && next.metrics.unseenEvidenceCount == |admitted|
      && (next.metrics.evidenceCapacityExhausted <==>
          exists i :: 0 <= i < |o.checkpoint.evidence| && o.checkpoint.evidence[i].digest !in next.seen)
      && next.workflow == o.checkpoint.workflow && next.brokerEpoch == o.brokerEpoch && next.observedAt == o.nowMs
      && next.checkpointDigest == h.ofCheckpoint(o.checkpoint)
      && next.dimensions == Dimensions(o.humanRequired, o.processHealth, o.recoveryActive, o.settled, o.transportHealth)
      && next.observationCount == (if SameEpoch(previous, o) then previous.value.observationCount else 0) +
                                  (if Fresh(h, previous, o) then 1 else 0)
      && var step := NextWait(o.checkpoint.expectedWait,
                              if SameWorkflow(previous, o) then previous.value.waitLease else None,
                              if SameWorkflow(previous, o) then previous.value.waitHistory else [], o.nowMs);
         next.waitHistory == step.history && next.waitLease == step.lease
  {
    hide Unseen, NextWait, Decide, FindLoop, NoveltyThousandths, IncidentOf, FingerprintsOf, VerdictOf, DetectedLoop;
    var evidence, seen := o.checkpoint.evidence, Known(previous, o);
    var next := NextState(h, previous, o);
    UnseenExactly(evidence, seen);
    var u, admitted := Unseen(evidence, seen), Admitted(evidence, seen);
    if |u| > |admitted| {
      assert u[|admitted|] in u && Lists(evidence, u[|admitted|]);
      assert u[|admitted|] !in admitted;
      var i :| 0 <= i < |evidence| && evidence[i].digest == u[|admitted|];
      assert evidence[i].digest !in next.seen;
    } else {
      forall i | 0 <= i < |evidence| ensures evidence[i].digest in next.seen {
        assert Lists(evidence, evidence[i].digest);
      }
    }
  }

  /** The progress lease: renewed for fifteen minutes by new evidence, and by nothing else. */
  lemma ProgressLeaseExactly(h: Hashes, previous: Option<State>, o: Observation)
    requires ValidCheckpoint(o.checkpoint)
    ensures var next := NextState(h, previous, o);
      var admitted := Admitted(o.checkpoint.evidence, Known(previous, o));
      if Novel(previous, o) then
        && next.progressLease.Some?
        && var lease := next.progressLease.value;
           && lease.renewedAt == o.nowMs && lease.expiresAt == o.nowMs + 900_000
           && Ascending(lease.evidenceDigests) && multiset(lease.evidenceDigests) == multiset(admitted)
           && lease.evidenceDigest == h.ofEvidence(lease.evidenceDigests)
      else next.progressLease == if SameWorkflow(previous, o) then previous.value.progressLease else None
  {
    hide Unseen, Admitted, NextWait, Decide, FindLoop, NoveltyThousandths, IncidentOf, Sort, FingerprintsOf, VerdictOf,
      DetectedLoop;
    NovelExactly(previous, o);
    SortOrders(NewlyAdmitted(previous, o));
  }

  /** The wait the next state leases covers its instant. */
  predicate Covered(s: State) {
    && s.waitLease.Some?
    && s.waitLease.value.entry.startAt <= s.observedAt && s.observedAt <= s.waitLease.value.entry.effectiveDeadlineAt
  }

  predicate InProgress(s: State) {
    s.progressLease.Some? && s.observedAt <= s.progressLease.value.expiresAt
  }

  /** The leased wait is not the one leased before, and either covers this instant in the place of
      another one or had been away. */
  predicate WaitReturns(previous: Option<State>, o: Observation, next: State) {
    && SameWorkflow(previous, o) && next.waitLease.Some?
    && var before, identity := previous.value.waitLease, next.waitLease.value.entry.identity;
       && (before.None? || before.value.entry.identity != identity)
       && (Registered(previous.value.waitHistory, identity) || (before.Some? && Covered(next)))
  }

  /** The window before this observation: new evidence and another epoch empty it. */
  function PriorWindow(previous: Option<State>, o: Observation): seq<Digest> {
    if SameEpoch(previous, o) && !Novel(previous, o) then previous.value.fingerprints else []
  }

  lemma WaitReturnsExactly(previous: Option<State>, o: Observation, next: State)
    requires next.waitLease == WaitStepOf(previous, o).lease && next.observedAt == o.nowMs
    ensures Covered(next) <==> WaitActiveNow(previous, o)
    ensures WaitReturns(previous, o, next) <==> WaitTransition(previous, o)
  {
    var prior := PriorWorkflow(previous, o);
    if prior.Some? && o.checkpoint.expectedWait.Some? {
      var i := IndexOf(prior.value.waitHistory, o.checkpoint.expectedWait.value.identity);
    }
  }

  /** The window of fingerprints and the loop it shows. */
  lemma WindowExactly(h: Hashes, previous: Option<State>, o: Observation)
    requires ValidCheckpoint(o.checkpoint)
    ensures var next, window := NextState(h, previous, o), PriorWindow(previous, o);
      var back, fp := WaitReturns(previous, o, next), o.checkpoint.fingerprint;
      && next.fingerprints ==
           (if !Fresh(h, previous, o)
               || (Covered(next) && !back && window != [] && window[|window| - 1] == fp) then window
            else (if |window| < 12 then window else window[|window| - 11..]) + [fp])
      && (Novel(previous, o) || (Covered(next) && !back) ==> next.metrics.loopPattern.None?)
      && (!Novel(previous, o) && (!Covered(next) || back) ==>
            && (next.metrics.loopPattern == Some(Repeated) <==> SuffixHasPeriod(next.fingerprints, 3, 1))
            && (next.metrics.loopPattern == Some(Alternating) <==>
                SuffixHasPeriod(next.fingerprints, 6, 2) && !SuffixHasPeriod(next.fingerprints, 3, 1))
            && (next.metrics.loopPattern == Some(ShortCycle) <==>
                SuffixHasPeriod(next.fingerprints, 6, 3) && !SuffixHasPeriod(next.fingerprints, 3, 1)))
  {
    hide NextState, FindLoop, SuffixHasPeriod, WaitReturns, WaitTransition, Novel, WaitActiveNow, Covered,
      FingerprintsOf, DetectedLoop, NewlyAdmitted, PriorWindow, Fresh;
    var next := NextState(h, previous, o);
    NovelExactly(previous, o);
    WindowFields(h, previous, o);
    WaitReturnsExactly(previous, o, next);
    WindowGrows(h, previous, o);
    LoopShown(h, previous, o);
    LoopDetectionExact(next.fingerprints);
  }

  lemma WindowFields(h: Hashes, previous: Option<State>, o: Observation)
    ensures var next := NextState(h, previous, o);
      && next.waitLease == WaitStepOf(previous, o).lease && next.observedAt == o.nowMs
      && next.fingerprints == FingerprintsOf(h, previous, o) && next.metrics.loopPattern == DetectedLoop(h, previous, o)
  {
    hide Unseen, Admitted, NextWait, Decide, FindLoop, NoveltyThousandths, IncidentOf, Sort, VerdictOf, FingerprintsOf,
      DetectedLoop, NewlyAdmitted;
  }

  lemma LoopShown(h: Hashes, previous: Option<State>, o: Observation)
    ensures DetectedLoop(h, previous, o) ==
            if NewlyAdmitted(previous, o) != [] then None
            else if WaitActiveNow(previous, o) && !WaitTransition(previous, o) then None
            else FindLoop(FingerprintsOf(h, previous, o))
  {
    hide FindLoop, FingerprintsOf, NewlyAdmitted, WaitActiveNow, WaitTransition;
  }

  lemma WindowGrows(h: Hashes, previous: Option<State>, o: Observation)
    requires Novel(previous, o) <==> NewlyAdmitted(previous, o) != []
    ensures var window, fp := PriorWindow(previous, o), o.checkpoint.fingerprint;
      var quiet := WaitActiveNow(previous, o) && !WaitTransition(previous, o);
      FingerprintsOf(h, previous, o) ==
        (if !Fresh(h, previous, o) || (quiet && window != [] && window[|window| - 1] == fp) then window
         else (if |window| < 12 then window else window[|window| - 11..]) + [fp])
  {
    hide NewlyAdmitted, WaitActiveNow, WaitTransition, Novel, NextFingerprints;
    var fence := PriorFence(previous, o);
    assert Independent(h, previous, o) <==> Fresh(h, previous, o);
    WindowStep(if fence.Some? then fence.value.fingerprints else [], o.checkpoint.fingerprint,
               NewlyAdmitted(previous, o) != [], Independent(h, previous, o), WaitActiveNow(previous, o),
               WaitTransition(previous, o));
  }

  lemma WindowStep(prior: seq<Digest>, fp: Digest, newEvidence: bool, independent: bool, active: bool, back: bool)
    ensures var window := if newEvidence then [] else prior;
      NextFingerprints(prior, fp, newEvidence, independent, active, back) ==
        (if !independent || (active && !back && window != [] && window[|window| - 1] == fp) then window
         else (if |window| < 12 then window else window[|window| - 11..]) + [fp])
  {
  }

  lemma {:induction false} QuotientIsExact(x: nat, m: nat)
    requires m > 0
    ensures m * Quotient(x, m) <= x < m * Quotient(x, m) + m
    decreases x
  {
    if x >= m {
      QuotientIsExact(x - m, m);
      assert m * (1 + Quotient(x - m, m)) == m + m * Quotient(x - m, m);
    }
  }

  /** The novelty of the window: the share of different fingerprints, in thousandths, rounded half
      up. */
  lemma NoveltyExactly(window: seq<Digest>)
    requires window != []
    ensures var n, different := |window|, |Elements(window)|;
            2 * n * NoveltyThousandths(window) <= 2000 * different + n < 2 * n * NoveltyThousandths(window) + 2 * n
  {
    DistinctCountIsSetSize(window);
    QuotientIsExact(2000 * DistinctCount(window) + |window|, 2 * |window|);
  }

  /** The observations in a row, this one included, that nothing has confirmed. */
  function Unconfirmed(h: Hashes, previous: Option<State>, o: Observation): int {
    (if SameEpoch(previous, o) then previous.value.suspectCount else 0) + (if Fresh(h, previous, o) then 1 else 0)
  }

  /** Nothing decides before waits, progress and loops do. */
  predicate Undecided(previous: Option<State>, o: Observation) {
    !o.settled && !o.humanRequired && !Novel(previous, o)
  }

  /** Exactly when each classification is given, and for which reason. */
  lemma ClassifiesExactly(h: Hashes, previous: Option<State>, o: Observation)
    requires ValidCheckpoint(o.checkpoint)
    ensures var next := NextState(h, previous, o);
      var c, loop, n, open := next.classification, next.metrics.loopPattern, Unconfirmed(h, previous, o),
        Undecided(previous, o);
      var idle := open && !Covered(next) && !InProgress(next);
      && (c == Settled <==> o.settled)
      && (c == HumanRequired <==> !o.settled && o.humanRequired)
      && (c == Progressing && next.reason == NewAttributableEvidence <==>
          !o.settled && !o.humanRequired && Novel(previous, o))
      && (c == ExpectedWait <==> open && Covered(next) && loop.None?)
      && (c == Progressing && next.reason == UsefulProgressLeaseActive <==> open && !Covered(next) && InProgress(next))
      && (c == Suspect <==> idle && n < 2)
      && (c == Looping <==> loop.Some? && ((open && Covered(next)) || (idle && n >= 2)))
      && (c == Stagnant <==> loop.None? && idle && n >= 2)
      && next.suspectCount == if idle then n else 0
  {
    hide Unseen, Admitted, NextWait, FindLoop, NoveltyThousandths, IncidentOf, Sort, FingerprintsOf, IndexOf, Novel,
      DetectedLoop, WaitStepOf, NextProgressLease;
    NovelExactly(previous, o);
  }

  lemma ReasonsExactly(h: Hashes, previous: Option<State>, o: Observation)
    requires ValidCheckpoint(o.checkpoint)
    ensures var next := NextState(h, previous, o);
      match next.classification
      case Settled => next.reason == VerifiedSettlementObserved
      case HumanRequired => next.reason == GenuineHumanBoundaryObserved
      case ExpectedWait =>
        next.waitLease.Some? &&
        next.reason == if next.waitLease.value.entry.extensionUsed == 1 then BoundedWaitExtension else NamedWaitActive
      case Progressing => next.reason in {NewAttributableEvidence, UsefulProgressLeaseActive}
      case Suspect => next.reason == UsefulProgressUnconfirmed
      case Looping => next.metrics.loopPattern.Some? && next.reason == LoopDetected(next.metrics.loopPattern.value)
      case Stagnant => next.reason == UsefulProgressLeaseExpired
  {
    hide Unseen, Admitted, NextWait, FindLoop, NoveltyThousandths, IncidentOf, Sort, FingerprintsOf, IndexOf,
      DetectedLoop, WaitStepOf, NextProgressLease;
  }

  /** Which states name an incident, and what its key is taken of. */
  lemma IncidentExactly(h: Hashes, previous: Option<State>, o: Observation)
    ensures var next := NextState(h, previous, o);
      && (next.incidentKey.Some? <==> next.classification in {HumanRequired, Looping, Stagnant, Suspect})
      && (next.incidentKey.Some? ==>
            next.incidentKey.value == h.ofIncident(Incident(
              o.brokerEpoch, next.classification,
              if next.progressLease.Some? then Some(next.progressLease.value.evidenceDigest) else None,
              if next.classification == Looping then next.metrics.loopPattern else None,
              o.checkpoint.phase, o.checkpoint.fingerprint, o.checkpoint.workflow)))
      && (next.fingerprints != [] ==> next.metrics.noveltyScore == NoveltyThousandths(next.fingerprints))
  {
    hide Unseen, Admitted, NextWait, FindLoop, NoveltyThousandths, Sort, FingerprintsOf, IndexOf, DetectedLoop,
      WaitStepOf, NextProgressLease, VerdictOf;
  }

  /** What can become of each kind of evidence, by its result. */
  predicate Fits(e: Evidence) {
    match e.result
    case Actionable => e.kind == ActionableReview
    case Added => e.kind == BlockerDelta
    case Removed => e.kind == BlockerDelta
    case Passed => e.kind in {CriterionDelta, RelevantTest}
    case Failed => e.kind in {CriterionDelta, RelevantTest, RequiredVerification}
    case Completed => e.kind == RequiredVerification
    case Verified => e.kind in {VerifiedArtifact, VerifiedSource}
  }

  /** Exactly the checkpoints that are read: at most 40 pieces of evidence, each with a digest of its
      own and a result of its kind, and a wait of at most eight hours that may be extended by at most a
      minute. */
  lemma CheckpointExactly(c: Checkpoint)
    ensures ValidCheckpoint(c) <==>
      && |c.evidence| <= 40
      && (forall i :: 0 <= i < |c.evidence| ==> Fits(c.evidence[i]))
      && (forall i, j :: 0 <= i < j < |c.evidence| ==> c.evidence[i].digest != c.evidence[j].digest)
      && (c.expectedWait.Some? ==>
            var w := c.expectedWait.value;
            && 0 <= w.maxExtensionMs <= 60_000 && w.startAt <= w.deadlineAt <= w.startAt + 28_800_000)
  {
    forall e: Evidence ensures Fits(e) <==> ResultAllowed(e.kind, e.result) {
    }
  }

  /** Exactly which inputs are refused. */
  lemma RefusesExactly(h: Hashes, previous: Option<State>, o: Observation)
    ensures Classify(h, previous, o).Ok? <==>
      && ValidCheckpoint(o.checkpoint) && (previous.Some? ==> ValidState(h, previous.value))
      && o.nowMs >= 0 && (o.brokerEpoch.Some? ==> o.brokerEpoch.value >= 0)
      && (SameWorkflow(previous, o) ==> previous.value.observedAt <= o.nowMs)
    ensures Classify(h, previous, o).Ok? ==> Classify(h, previous, o).value == NextState(h, previous, o)
  {
    hide NextState, ValidState;
  }
}
