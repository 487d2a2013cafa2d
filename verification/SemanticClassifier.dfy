/** One classification step of the semantic monitor
    (`classifyEagleSemanticLiveness`, src/eagle-monitor-semantic.mjs). The functions define
    the step; the methods below carry it out with the loops and in-place edits of the
    source and are proved to compute exactly that step. */
module SemanticClassifier {
  import opened Prelude
  import opened LoopDetection
  import opened SemanticState

  datatype Rejection = InvalidCheckpoint | CorruptState | InvalidObservation

  // ---- the pieces of a step -------------------------------------------

  /** The evidence not seen before, in checkpoint order. */
  function Unseen(evidence: seq<Evidence>, seen: seq<Digest>): seq<Digest> {
    if evidence == [] then []
    else if evidence[0].digest in seen then Unseen(evidence[1..], seen)
    else [evidence[0].digest] + Unseen(evidence[1..], seen)
  }

  /** The unseen evidence that still fits into the bounded identity set. */
  function Admitted(evidence: seq<Evidence>, seen: seq<Digest>): seq<Digest> {
    var unseen := Unseen(evidence, seen);
    var room := if |seen| >= MAX_EVIDENCE_IDENTITIES then 0 else MAX_EVIDENCE_IDENTITIES - |seen|;
    if |unseen| <= room then unseen else unseen[..room]
  }

  datatype WaitStep = WaitStep(history: seq<WaitEntry>, lease: Option<WaitLease>, restored: bool)

  function FreshEntry(source: WaitSource): WaitEntry {
    WaitEntry(source.identity, source.operation, source.startAt, source.deadlineAt,
              source.deadlineAt, 0, source.maxExtensionMs)
  }

  /** The single extension, granted once the effective deadline has passed. */
  function Extended(entry: WaitEntry, nowMs: int): WaitEntry {
    var extensionMs :=
      if entry.maxExtensionMs <= EXPECTED_WAIT_EXTENSION_MS then entry.maxExtensionMs
      else EXPECTED_WAIT_EXTENSION_MS;
    if && nowMs > entry.effectiveDeadlineAt && entry.extensionUsed == 0
       && extensionMs > 0 && nowMs <= entry.deadlineAt + extensionMs
    then entry.(effectiveDeadlineAt := entry.deadlineAt + extensionMs, extensionUsed := 1)
    else entry
  }

  /** `nextExpectedWait`. */
  function NextWait(source: Option<WaitSource>, previous: Option<WaitLease>,
                    history: seq<WaitEntry>, nowMs: int): WaitStep
  {
    if source.None? then WaitStep(history, None, false)
    else
      var i := IndexOf(history, source.value.identity);
      if i == |history| && |history| >= MAX_EXPECTED_WAIT_HISTORY then
        WaitStep(history, None, false)
      else
        var known := if i < |history| then history else history + [FreshEntry(source.value)];
        var entry := Extended(known[i], nowMs);
        var restored :=
          i < |history| && !(previous.Some? && previous.value.entry.identity == source.value.identity);
        WaitStep(known[i := entry], Some(WaitLease(entry, nowMs)), restored)
  }

  /** The fingerprint window after an observation. */
  function NextFingerprints(prior: seq<Digest>, fingerprint: Digest, newEvidence: bool, independent: bool,
                            waitActive: bool, meaningfulTransition: bool): seq<Digest>
  {
    var base := if newEvidence then [] else prior;
    if && independent
       && (!waitActive || meaningfulTransition || base == [] || base[|base| - 1] != fingerprint)
    then Tail(base + [fingerprint], MAX_FINGERPRINT_HISTORY)
    else base
  }

  datatype Verdict = Verdict(classification: Classification, reason: Reason, suspectCount: int)

  /** The decision ladder: boundaries, evidence, loops under a wait, waits, retained
      progress, and only then the hysteresis of unconfirmed observations. */
  function Decide(o: Observation, newEvidence: bool, wait: Option<WaitLease>, detectedLoop: Option<LoopPattern>,
                  progressActive: bool, suspectCount: int): Verdict
  {
    var waitActive := IsWaitActive(wait, o.nowMs);
    if o.settled then Verdict(Settled, VerifiedSettlementObserved, 0)
    else if o.humanRequired then Verdict(HumanRequired, GenuineHumanBoundaryObserved, 0)
    else if newEvidence then Verdict(Progressing, NewAttributableEvidence, 0)
    else if waitActive && detectedLoop.Some? then Verdict(Looping, LoopDetected(detectedLoop.value), 0)
    else if waitActive then
      Verdict(ExpectedWait,
              if wait.value.entry.extensionUsed == 1 then BoundedWaitExtension else NamedWaitActive, 0)
    else if progressActive then Verdict(Progressing, UsefulProgressLeaseActive, 0)
    else if suspectCount < 2 then Verdict(Suspect, UsefulProgressUnconfirmed, suspectCount)
    else if detectedLoop.Some? then Verdict(Looping, LoopDetected(detectedLoop.value), suspectCount)
    else Verdict(Stagnant, UsefulProgressLeaseExpired, suspectCount)
  }

  // ---- the step -------------------------------------------------------

  /** The previous state, kept only for the same workflow. */
  function PriorWorkflow(previous: Option<State>, o: Observation): Option<State> {
    if previous.Some? && previous.value.workflow == o.checkpoint.workflow then previous else None
  }

  /** The previous state, kept only for the same workflow and broker epoch. */
  function PriorFence(previous: Option<State>, o: Observation): Option<State> {
    var prior := PriorWorkflow(previous, o);
    if prior.Some? && prior.value.brokerEpoch == o.brokerEpoch then prior else None
  }

  predicate Independent(h: Hashes, previous: Option<State>, o: Observation) {
    var fence := PriorFence(previous, o);
    || fence.None?
    || h.ofCheckpoint(o.checkpoint) != fence.value.checkpointDigest
    || o.nowMs > fence.value.observedAt
  }

  function PriorSeen(previous: Option<State>, o: Observation): seq<Digest> {
    var prior := PriorWorkflow(previous, o);
    if prior.Some? then prior.value.seen else []
  }

  function NewlyAdmitted(previous: Option<State>, o: Observation): seq<Digest> {
    Admitted(o.checkpoint.evidence, PriorSeen(previous, o))
  }

  function NextProgressLease(h: Hashes, previous: Option<State>, o: Observation): Option<ProgressLease> {
    var admitted := NewlyAdmitted(previous, o);
    var prior := PriorWorkflow(previous, o);
    if admitted != [] then
      Some(ProgressLease(h.ofEvidence(Sort(admitted)), Sort(admitted),
                         o.nowMs + USEFUL_PROGRESS_LEASE_MS, o.nowMs))
    else if prior.Some? then prior.value.progressLease
    else None
  }

  function WaitStepOf(previous: Option<State>, o: Observation): WaitStep {
    var prior := PriorWorkflow(previous, o);
    NextWait(o.checkpoint.expectedWait,
             if prior.Some? then prior.value.waitLease else None,
             if prior.Some? then prior.value.waitHistory else [],
             o.nowMs)
  }

  predicate WaitActiveNow(previous: Option<State>, o: Observation) {
    IsWaitActive(WaitStepOf(previous, o).lease, o.nowMs)
  }

  /** An active wait that is not the one leased before, or one that had disappeared. */
  predicate WaitTransition(previous: Option<State>, o: Observation) {
    var prior := PriorWorkflow(previous, o);
    var wait := WaitStepOf(previous, o);
    var identityChanged :=
      && IsWaitActive(wait.lease, o.nowMs)
      && prior.Some? && prior.value.waitLease.Some?
      && prior.value.waitLease.value.entry.identity != wait.lease.value.entry.identity;
    identityChanged || wait.restored
  }

  predicate ProgressActiveNow(h: Hashes, previous: Option<State>, o: Observation) {
    var lease := NextProgressLease(h, previous, o);
    lease.Some? && o.nowMs <= lease.value.expiresAt
  }

  function FingerprintsOf(h: Hashes, previous: Option<State>, o: Observation): seq<Digest> {
    var fence := PriorFence(previous, o);
    NextFingerprints(if fence.Some? then fence.value.fingerprints else [],
                     o.checkpoint.fingerprint,
                     NewlyAdmitted(previous, o) != [],
                     Independent(h, previous, o),
                     WaitActiveNow(previous, o),
                     WaitTransition(previous, o))
  }

  function DetectedLoop(h: Hashes, previous: Option<State>, o: Observation): Option<LoopPattern> {
    if NewlyAdmitted(previous, o) != [] then None
    else if WaitActiveNow(previous, o) && !WaitTransition(previous, o) then None
    else FindLoop(FingerprintsOf(h, previous, o))
  }

  function VerdictOf(h: Hashes, previous: Option<State>, o: Observation): Verdict {
    var fence := PriorFence(previous, o);
    Decide(o,
           NewlyAdmitted(previous, o) != [],
           WaitStepOf(previous, o).lease,
           DetectedLoop(h, previous, o),
           ProgressActiveNow(h, previous, o),
           (if fence.Some? then fence.value.suspectCount else 0) +
           (if Independent(h, previous, o) then 1 else 0))
  }

  function IncidentOf(h: Hashes, previous: Option<State>, o: Observation): Incident {
    var verdict := VerdictOf(h, previous, o);
    var lease := NextProgressLease(h, previous, o);
    Incident(o.brokerEpoch, verdict.classification,
             if lease.Some? then Some(lease.value.evidenceDigest) else None,
             if verdict.classification.Looping? then DetectedLoop(h, previous, o) else None,
             o.checkpoint.phase, o.checkpoint.fingerprint, o.checkpoint.workflow)
  }

  /** The state a step writes. The novelty of an empty window, which the source computes as
      0/0 and its validator then refuses, is written here as a value outside the range. */
  function NextState(h: Hashes, previous: Option<State>, o: Observation): State {
    var fence := PriorFence(previous, o);
    var admitted := NewlyAdmitted(previous, o);
    var wait := WaitStepOf(previous, o);
    var fingerprints := FingerprintsOf(h, previous, o);
    var verdict := VerdictOf(h, previous, o);
    State(
      o.brokerEpoch,
      h.ofCheckpoint(o.checkpoint),
      verdict.classification,
      Dimensions(o.humanRequired, o.processHealth, o.recoveryActive, o.settled, o.transportHealth),
      wait.history,
      wait.lease,
      fingerprints,
      if IncidentRequired(verdict.classification) then Some(h.ofIncident(IncidentOf(h, previous, o))) else None,
      Metrics(
        |Unseen(o.checkpoint.evidence, PriorSeen(previous, o))| > |admitted|,
        DetectedLoop(h, previous, o),
        if fingerprints == [] then -1 else NoveltyThousandths(fingerprints),
        |o.checkpoint.evidence|,
        |admitted|),
      (if fence.Some? then fence.value.observationCount else 0) +
      (if Independent(h, previous, o) then 1 else 0),
      o.nowMs,
      verdict.reason,
      PriorSeen(previous, o) + admitted,
      verdict.suspectCount,
      NextProgressLease(h, previous, o),
      o.checkpoint.workflow)
  }

  /** `classifyEagleSemanticLiveness`: a refused input, or the next state. */
  function Classify(h: Hashes, previous: Option<State>, o: Observation): Result<State, Rejection> {
    if !ValidCheckpoint(o.checkpoint) then Err(InvalidCheckpoint)
    else if previous.Some? && !ValidState(h, previous.value) then Err(CorruptState)
    else if o.nowMs < 0 || (o.brokerEpoch.Some? && o.brokerEpoch.value < 0) then Err(InvalidObservation)
    else if PriorWorkflow(previous, o).Some? && o.nowMs < previous.value.observedAt then Err(InvalidObservation)
    else Ok(NextState(h, previous, o))
  }

  // ---- the step as the source carries it out --------------------------

  /** Splits the checkpoint evidence by one pass over it and appends what fits to `seen`. */
  method AdmitEvidence(evidence: seq<Evidence>, prior: seq<Digest>)
    returns (seen: seq<Digest>, admitted: seq<Digest>, unseenCount: nat)
    ensures admitted == Admitted(evidence, prior)
    ensures seen == prior + Admitted(evidence, prior)
    ensures unseenCount == |Unseen(evidence, prior)|
  {
    var unseen: seq<Digest> := [];
    for i := 0 to |evidence|
      invariant unseen + Unseen(evidence[i..], prior) == Unseen(evidence, prior)
    {
      assert evidence[i..][1..] == evidence[i + 1..];
      if evidence[i].digest !in prior {
        unseen := unseen + [evidence[i].digest];
      }
    }
    assert evidence[|evidence|..] == [];
    unseenCount := |unseen|;
    var room := if |prior| >= MAX_EVIDENCE_IDENTITIES then 0 else MAX_EVIDENCE_IDENTITIES - |prior|;
    admitted := if |unseen| <= room then unseen else unseen[..room];
    seen := prior;
    for i := 0 to |admitted|
      invariant seen == prior + admitted[..i]
    {
      seen := seen + [admitted[i]];
    }
    assert admitted[..|admitted|] == admitted;
  }

  /** Looks the wait up in a copy of the history and edits that copy in place. */
  method NextExpectedWait(source: Option<WaitSource>, previous: Option<WaitLease>,
                          priorHistory: seq<WaitEntry>, nowMs: int)
    returns (history: seq<WaitEntry>, lease: Option<WaitLease>, restored: bool)
    ensures WaitStep(history, lease, restored) == NextWait(source, previous, priorHistory, nowMs)
  {
    history := priorHistory;
    if source.None? {
      return history, None, false;
    }
    var index := 0;
    while index < |history| && history[index].identity != source.value.identity
      invariant 0 <= index <= |history|
      invariant forall k :: 0 <= k < index ==> history[k].identity != source.value.identity
    {
      index := index + 1;
    }
    assert index == IndexOf(priorHistory, source.value.identity);
    var found := index < |history|;
    restored := found && !(previous.Some? && previous.value.entry.identity == source.value.identity);
    if !found {
      if |history| >= MAX_EXPECTED_WAIT_HISTORY {
        return history, None, false;
      }
      history := history + [FreshEntry(source.value)];
    }
    var entry := history[index];
    if nowMs > entry.effectiveDeadlineAt && entry.extensionUsed == 0 {
      var extensionMs :=
        if entry.maxExtensionMs <= EXPECTED_WAIT_EXTENSION_MS then entry.maxExtensionMs
        else EXPECTED_WAIT_EXTENSION_MS;
      if extensionMs > 0 && nowMs <= entry.deadlineAt + extensionMs {
        entry := entry.(effectiveDeadlineAt := entry.deadlineAt + extensionMs, extensionUsed := 1);
        history := history[index := entry];
      }
    }
    lease := Some(WaitLease(entry, nowMs));
  }

  /** Clears the window on new evidence, then records the fingerprint of an independent
      observation unless an unchanged wait only repeats the last one. */
  method RecordFingerprint(prior: seq<Digest>, fingerprint: Digest, newEvidence: bool, independent: bool,
                           waitActive: bool, identityChanged: bool, restored: bool)
    returns (history: seq<Digest>)
    requires identityChanged ==> waitActive
    ensures history == NextFingerprints(prior, fingerprint, newEvidence, independent, waitActive,
                                        identityChanged || restored)
  {
    history := prior;
    if newEvidence { history := []; }
    if independent {
      var meaningful :=
        && waitActive
        && (identityChanged || restored || history == [] || history[|history| - 1] != fingerprint);
      if !waitActive || meaningful || |history| == 0 {
        history := Tail(history + [fingerprint], MAX_FINGERPRINT_HISTORY);
      }
    }
  }

  /** The if-else ladder of the source over mutable classification, reason and count. */
  method Judge(o: Observation, newEvidence: bool, wait: Option<WaitLease>, detectedLoop: Option<LoopPattern>,
               progressActive: bool, priorCount: int, independent: bool)
    returns (classification: Classification, reason: Reason, suspectCount: int)
    ensures Verdict(classification, reason, suspectCount) ==
            Decide(o, newEvidence, wait, detectedLoop, progressActive, priorCount + if independent then 1 else 0)
  {
    var waitActive := IsWaitActive(wait, o.nowMs);
    classification, reason, suspectCount := Stagnant, UsefulProgressLeaseExpired, 0;
    if o.settled {
      classification, reason := Settled, VerifiedSettlementObserved;
    } else if o.humanRequired {
      classification, reason := HumanRequired, GenuineHumanBoundaryObserved;
    } else if newEvidence {
      classification, reason := Progressing, NewAttributableEvidence;
    } else if waitActive && detectedLoop.Some? {
      classification, reason := Looping, LoopDetected(detectedLoop.value);
    } else if waitActive {
      classification := ExpectedWait;
      reason := if wait.value.entry.extensionUsed == 1 then BoundedWaitExtension else NamedWaitActive;
    } else if progressActive {
      classification, reason := Progressing, UsefulProgressLeaseActive;
    } else {
      suspectCount := priorCount + if independent then 1 else 0;
      if suspectCount < 2 {
        classification, reason := Suspect, UsefulProgressUnconfirmed;
      } else if detectedLoop.Some? {
        classification, reason := Looping, LoopDetected(detectedLoop.value);
      }
    }
  }

  /** Evidence and the progress lease: the lease is renewed by new evidence only. */
  method RenewProgress(h: Hashes, previous: Option<State>, o: Observation)
    returns (seen: seq<Digest>, admitted: seq<Digest>, unseenCount: nat, progress: Option<ProgressLease>)
    ensures admitted == NewlyAdmitted(previous, o)
    ensures seen == PriorSeen(previous, o) + admitted
    ensures unseenCount == |Unseen(o.checkpoint.evidence, PriorSeen(previous, o))|
    ensures progress == NextProgressLease(h, previous, o)
  {
    var prior := PriorWorkflow(previous, o);
    seen, admitted, unseenCount := AdmitEvidence(o.checkpoint.evidence, PriorSeen(previous, o));
    progress := if prior.Some? then prior.value.progressLease else None;
    if admitted != [] {
      var sorted := Sort(admitted);
      progress := Some(ProgressLease(h.ofEvidence(sorted), sorted, o.nowMs + USEFUL_PROGRESS_LEASE_MS, o.nowMs));
    }
  }

  /** The wait lease, the fingerprint window and the loop they show. */
  method ObserveWindow(h: Hashes, previous: Option<State>, o: Observation, newEvidence: bool, independent: bool)
    returns (waitHistory: seq<WaitEntry>, waitLease: Option<WaitLease>, fingerprints: seq<Digest>,
             detectedLoop: Option<LoopPattern>)
    requires newEvidence == (NewlyAdmitted(previous, o) != [])
    requires independent == Independent(h, previous, o)
    ensures waitHistory == WaitStepOf(previous, o).history && waitLease == WaitStepOf(previous, o).lease
    ensures fingerprints == FingerprintsOf(h, previous, o)
    ensures detectedLoop == DetectedLoop(h, previous, o)
  {
    hide FindLoop, IndexOf, Unseen, Admitted, NextWait, NextFingerprints;
    var prior, fence := PriorWorkflow(previous, o), PriorFence(previous, o);
    var priorLease := if prior.Some? then prior.value.waitLease else None;
    var restored;
    waitHistory, waitLease, restored := NextExpectedWait(
      o.checkpoint.expectedWait, priorLease, if prior.Some? then prior.value.waitHistory else [], o.nowMs);
    assert WaitStepOf(previous, o) == WaitStep(waitHistory, waitLease, restored);
    var waitActive := IsWaitActive(waitLease, o.nowMs);
    var identityChanged :=
      waitActive && priorLease.Some? && priorLease.value.entry.identity != waitLease.value.entry.identity;
    fingerprints := RecordFingerprint(
      if fence.Some? then fence.value.fingerprints else [], o.checkpoint.fingerprint,
      newEvidence, independent, waitActive, identityChanged, restored);
    assert (identityChanged || restored) == WaitTransition(previous, o);
    var fingerprintLoop := if newEvidence then None else FindLoop(fingerprints);
    detectedLoop := if waitActive && !identityChanged && !restored then None else fingerprintLoop;
  }

  /** The body of the classifier once its inputs have passed their checks. */
  method Advance(h: Hashes, previous: Option<State>, o: Observation) returns (next: State)
    ensures next == NextState(h, previous, o)
  {
    hide FindLoop, NoveltyThousandths, Sort, Unseen, Decide, WaitStepOf, FingerprintsOf, DetectedLoop;
    var fence := PriorFence(previous, o);
    var checkpointDigest := h.ofCheckpoint(o.checkpoint);
    var independent :=
      fence.None? || checkpointDigest != fence.value.checkpointDigest || o.nowMs > fence.value.observedAt;
    var seen, admitted, unseenCount, progress := RenewProgress(h, previous, o);
    var waitHistory, waitLease, fingerprints, detectedLoop :=
      ObserveWindow(h, previous, o, admitted != [], independent);
    var classification, reason, suspectCount := Judge(
      o, admitted != [], waitLease, detectedLoop, progress.Some? && o.nowMs <= progress.value.expiresAt,
      if fence.Some? then fence.value.suspectCount else 0, independent);
    assert Verdict(classification, reason, suspectCount) == VerdictOf(h, previous, o);
    var incidentKey := None;
    if IncidentRequired(classification) {
      incidentKey := Some(h.ofIncident(Incident(
        o.brokerEpoch, classification,
        if progress.Some? then Some(progress.value.evidenceDigest) else None,
        if classification.Looping? then detectedLoop else None,
        o.checkpoint.phase, o.checkpoint.fingerprint, o.checkpoint.workflow)));
    }
    next := State(
      o.brokerEpoch, checkpointDigest, classification,
      Dimensions(o.humanRequired, o.processHealth, o.recoveryActive, o.settled, o.transportHealth),
      waitHistory, waitLease, fingerprints, incidentKey,
      Metrics(unseenCount > |admitted|, detectedLoop,
              if |fingerprints| == 0 then -1 else NoveltyThousandths(fingerprints),
              |o.checkpoint.evidence|, |admitted|),
      (if fence.Some? then fence.value.observationCount else 0) + (if independent then 1 else 0),
      o.nowMs, reason, seen, suspectCount, progress, o.checkpoint.workflow);
  }

  method ClassifyLiveness(h: Hashes, previous: Option<State>, o: Observation)
    returns (r: Result<State, Rejection>)
    ensures r == Classify(h, previous, o)
  {
    if !ValidCheckpoint(o.checkpoint) { return Err(InvalidCheckpoint); }
    if previous.Some? && !ValidState(h, previous.value) { return Err(CorruptState); }
    if o.nowMs < 0 || (o.brokerEpoch.Some? && o.brokerEpoch.value < 0) { return Err(InvalidObservation); }
    if PriorWorkflow(previous, o).Some? && o.nowMs < previous.value.observedAt { return Err(InvalidObservation); }
    var next := Advance(h, previous, o);
    r := Ok(next);
  }
}
