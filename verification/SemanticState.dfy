/** The persisted semantic state of the Eagle monitor and its validator
    (src/eagle-monitor-semantic.mjs). Times are integer milliseconds. */
module SemanticState {
  import opened Prelude
  import opened LoopDetection

  // ---- policy ---------------------------------------------------------

  const MAX_CHECKPOINT_EVIDENCE: nat := 40
  const MAX_EVIDENCE_IDENTITIES: nat := 512
  const MAX_EXPECTED_WAIT_MS := 8 * 60 * 60_000
  const MAX_EXPECTED_WAIT_HISTORY: nat := 16
  const MAX_FINGERPRINT_HISTORY: nat := 12
  const EXPECTED_WAIT_EXTENSION_MS := 60_000
  const USEFUL_PROGRESS_LEASE_MS := 15 * 60_000

  // ---- observations ---------------------------------------------------

  datatype EvidenceKind =
    | ActionableReview | BlockerDelta | CriterionDelta | RelevantTest
    | RequiredVerification | VerifiedArtifact | VerifiedSource

  datatype EvidenceResult =
    | Actionable | Added | Completed | Failed | Passed | Removed | Verified

  datatype Evidence = Evidence(digest: Digest, kind: EvidenceKind, result: EvidenceResult)

  datatype WaitSource = WaitSource(
    identity: Digest, operation: string, startAt: int, deadlineAt: int, maxExtensionMs: int)

  /** The parts of a semantic checkpoint the classifier reads; `rest` stands for the
      fields that only reach the state through the checkpoint digest. */
  datatype Checkpoint = Checkpoint(
    workflow: Digest,
    phase: Option<string>,
    evidence: seq<Evidence>,
    expectedWait: Option<WaitSource>,
    fingerprint: Digest,
    rest: Digest)

  datatype ProcessHealth = ProcessDead | ProcessHealthy | ProcessUnknown
  datatype TransportHealth = TransportDegraded | TransportHealthy | TransportUnknown

  datatype Observation = Observation(
    brokerEpoch: Option<int>,
    checkpoint: Checkpoint,
    humanRequired: bool,
    nowMs: int,
    processHealth: ProcessHealth,
    recoveryActive: bool,
    settled: bool,
    transportHealth: TransportHealth)

  predicate ResultAllowed(kind: EvidenceKind, result: EvidenceResult) {
    match kind
    case ActionableReview => result == Actionable
    case BlockerDelta => result == Added || result == Removed
    case CriterionDelta => result == Failed || result == Passed
    case RelevantTest => result == Failed || result == Passed
    case RequiredVerification => result == Completed || result == Failed
    case VerifiedArtifact => result == Verified
    case VerifiedSource => result == Verified
  }

  predicate DistinctEvidence(evidence: seq<Evidence>) {
    forall i, j :: 0 <= i < j < |evidence| ==> evidence[i].digest != evidence[j].digest
  }

  predicate ValidWaitSource(wait: WaitSource) {
    && 0 <= wait.maxExtensionMs <= EXPECTED_WAIT_EXTENSION_MS
    && 0 <= wait.deadlineAt - wait.startAt <= MAX_EXPECTED_WAIT_MS
  }

  predicate ValidCheckpoint(c: Checkpoint) {
    && |c.evidence| <= MAX_CHECKPOINT_EVIDENCE
    && DistinctEvidence(c.evidence)
    && (forall i :: 0 <= i < |c.evidence| ==> ResultAllowed(c.evidence[i].kind, c.evidence[i].result))
    && (c.expectedWait.Some? ==> ValidWaitSource(c.expectedWait.value))
  }

  // ---- state ----------------------------------------------------------

  datatype Classification =
    | ExpectedWait | HumanRequired | Looping | Progressing | Settled | Stagnant | Suspect

  datatype Reason =
    | VerifiedSettlementObserved
    | GenuineHumanBoundaryObserved
    | NewAttributableEvidence
    | LoopDetected(pattern: LoopPattern)
    | BoundedWaitExtension
    | NamedWaitActive
    | UsefulProgressLeaseActive
    | UsefulProgressUnconfirmed
    | UsefulProgressLeaseExpired

  datatype WaitEntry = WaitEntry(
    identity: Digest, operation: string, startAt: int, deadlineAt: int,
    effectiveDeadlineAt: int, extensionUsed: int, maxExtensionMs: int)

  /** A wait lease repeats every field of its history entry and adds `observedAt`. */
  datatype WaitLease = WaitLease(entry: WaitEntry, observedAt: int)

  datatype ProgressLease = ProgressLease(
    evidenceDigest: Digest, evidenceDigests: seq<Digest>, expiresAt: int, renewedAt: int)

  datatype Dimensions = Dimensions(
    humanBoundary: bool, process: ProcessHealth, recoveryInFlight: bool,
    settled: bool, transport: TransportHealth)

  /** `noveltyScore` counts thousandths, as the source rounds to three decimals. */
  datatype Metrics = Metrics(
    evidenceCapacityExhausted: bool, loopPattern: Option<LoopPattern>, noveltyScore: int,
    qualifyingEvidenceCount: int, unseenEvidenceCount: int)

  datatype State = State(
    brokerEpoch: Option<int>,
    checkpointDigest: Digest,
    classification: Classification,
    dimensions: Dimensions,
    waitHistory: seq<WaitEntry>,
    waitLease: Option<WaitLease>,
    fingerprints: seq<Digest>,
    incidentKey: Option<Digest>,
    metrics: Metrics,
    observationCount: int,
    observedAt: int,
    reason: Reason,
    seen: seq<Digest>,
    suspectCount: int,
    progressLease: Option<ProgressLease>,
    workflow: Digest)

  datatype Incident = Incident(
    brokerEpoch: Option<int>, classification: Classification, evidenceWindow: Option<Digest>,
    loopPattern: Option<LoopPattern>, phase: Option<string>, stepFingerprint: Digest, workflow: Digest)

  /** The three digest functions in use. Every result below holds for any such functions;
      a result that needs a collision-free one says so. */
  datatype Hashes = Hashes(
    ofEvidence: seq<Digest> -> Digest,
    ofIncident: Incident -> Digest,
    ofCheckpoint: Checkpoint -> Digest)

  predicate IsWaitActive(lease: Option<WaitLease>, nowMs: int) {
    && lease.Some?
    && lease.value.entry.startAt <= nowMs <= lease.value.entry.effectiveDeadlineAt
  }

  /** Division of natural numbers, one subtraction at a time. */
  function Quotient(x: nat, m: nat): nat
    requires m > 0
    decreases x
  {
    if x < m then 0 else 1 + Quotient(x - m, m)
  }

  /** `new Set(history).size / history.length`, rounded half up to thousandths. With at most
      twelve entries no quotient lies half-way between two thousandths. */
  function NoveltyThousandths(history: seq<Digest>): int
    requires |history| > 0
  {
    Quotient(2000 * DistinctCount(history) + |history|, 2 * |history|)
  }

  // ---- sorting --------------------------------------------------------

  function Insert(x: Digest, s: seq<Digest>): seq<Digest> {
    if s == [] || x <= s[0] then [x] + s else [s[0]] + Insert(x, s[1..])
  }

  function Sort(s: seq<Digest>): seq<Digest> {
    if s == [] then [] else Insert(s[0], Sort(s[1..]))
  }

  ghost predicate Ascending(s: seq<Digest>) {
    forall i, j :: 0 <= i < j < |s| ==> s[i] <= s[j]
  }

  lemma {:induction false} InsertAdds(x: Digest, s: seq<Digest>)
    ensures multiset(Insert(x, s)) == multiset(s) + multiset{x}
    ensures |Insert(x, s)| == |s| + 1
  {
    if s == [] || x <= s[0] {
    } else {
      InsertAdds(x, s[1..]);
      assert s == [s[0]] + s[1..];
    }
  }

  lemma {:induction false} InsertKeepsOrder(x: Digest, s: seq<Digest>)
    requires Ascending(s)
    ensures Ascending(Insert(x, s))
  {
    if s == [] || x <= s[0] {
    } else {
      var t := Insert(x, s[1..]);
      InsertKeepsOrder(x, s[1..]);
      InsertAdds(x, s[1..]);
      forall j | 0 <= j < |t| ensures s[0] <= t[j] {
        assert t[j] in multiset(t);
        assert t[j] == x || t[j] in s[1..];
      }
    }
  }

  /** Sorting orders the sequence and keeps every element with its multiplicity. */
  lemma {:induction false} SortOrders(s: seq<Digest>)
    ensures Ascending(Sort(s))
    ensures multiset(Sort(s)) == multiset(s)
    ensures |Sort(s)| == |s|
  {
    if s == [] {
    } else {
      SortOrders(s[1..]);
      InsertKeepsOrder(s[0], Sort(s[1..]));
      InsertAdds(s[0], Sort(s[1..]));
      assert s == [s[0]] + s[1..];
    }
  }

  lemma {:induction false} SortOfAscending(s: seq<Digest>)
    requires Ascending(s)
    ensures Sort(s) == s
  {
    if s == [] {
    } else {
      SortOfAscending(s[1..]);
    }
  }

  lemma SortMembers(s: seq<Digest>)
    ensures forall x :: x in Sort(s) <==> x in s
    ensures Distinct(s) ==> Distinct(Sort(s))
    ensures Sort(Sort(s)) == Sort(s)
  {
    SortOrders(s);
    SortOfAscending(Sort(s));
    forall x ensures x in Sort(s) <==> x in s {
      assert x in Sort(s) <==> x in multiset(Sort(s));
      assert x in s <==> x in multiset(s);
    }
    DistinctCardinality(s);
    DistinctCardinality(Sort(s));
    assert Elements(s) == Elements(Sort(s));
  }

  // ---- validator ------------------------------------------------------

  predicate DistinctIdentities(history: seq<WaitEntry>) {
    forall i, j :: 0 <= i < j < |history| ==> history[i].identity != history[j].identity
  }

  /** `findIndex` by identity: the first match, or the length of the history. */
  function IndexOf(history: seq<WaitEntry>, identity: Digest): (i: nat)
    ensures i <= |history|
    ensures i < |history| ==> history[i].identity == identity
    ensures forall k :: 0 <= k < i ==> history[k].identity != identity
  {
    if history == [] || history[0].identity == identity then 0
    else 1 + IndexOf(history[1..], identity)
  }

  predicate ValidScalars(s: State) {
    && s.observationCount >= 1
    && 0 <= s.suspectCount <= s.observationCount
    && (s.brokerEpoch.Some? ==> s.brokerEpoch.value >= 0)
  }

  predicate ValidHistories(s: State) {
    && |s.seen| <= MAX_EVIDENCE_IDENTITIES
    && Distinct(s.seen)
    && 1 <= |s.fingerprints| <= MAX_FINGERPRINT_HISTORY
    && |s.fingerprints| <= s.observationCount
  }

  predicate ValidMetrics(m: Metrics) {
    && 0 <= m.noveltyScore <= 1000
    && 0 <= m.qualifyingEvidenceCount <= MAX_CHECKPOINT_EVIDENCE
    && 0 <= m.unseenEvidenceCount <= MAX_CHECKPOINT_EVIDENCE
    && m.unseenEvidenceCount <= m.qualifyingEvidenceCount
  }

  predicate ValidProgressLease(h: Hashes, lease: ProgressLease, s: State) {
    && 1 <= |lease.evidenceDigests| <= MAX_CHECKPOINT_EVIDENCE
    && Distinct(lease.evidenceDigests)
    && (forall d :: d in lease.evidenceDigests ==> d in s.seen)
    && lease.evidenceDigests == Sort(lease.evidenceDigests)
    && lease.evidenceDigest == h.ofEvidence(lease.evidenceDigests)
    && lease.expiresAt - lease.renewedAt == USEFUL_PROGRESS_LEASE_MS
    && lease.renewedAt <= s.observedAt
  }

  predicate ValidWaitEntry(e: WaitEntry) {
    var extensionMs := e.effectiveDeadlineAt - e.deadlineAt;
    && (e.extensionUsed == 0 || e.extensionUsed == 1)
    && 0 <= e.maxExtensionMs <= EXPECTED_WAIT_EXTENSION_MS
    && e.startAt <= e.deadlineAt
    && e.deadlineAt - e.startAt <= MAX_EXPECTED_WAIT_MS
    && 0 <= extensionMs <= e.maxExtensionMs
    && (e.extensionUsed == 0 ==> extensionMs == 0)
    && (e.extensionUsed == 1 ==> e.maxExtensionMs != 0 && extensionMs == e.maxExtensionMs)
  }

  predicate ValidWaitHistory(history: seq<WaitEntry>) {
    && |history| <= MAX_EXPECTED_WAIT_HISTORY
    && DistinctIdentities(history)
    && (forall i :: 0 <= i < |history| ==> ValidWaitEntry(history[i]))
  }

  /** The lease is observed with its state and equals the retained entry of its identity. */
  predicate ValidWaitLease(lease: WaitLease, s: State) {
    var i := IndexOf(s.waitHistory, lease.entry.identity);
    && ValidWaitEntry(lease.entry)
    && lease.observedAt == s.observedAt
    && i < |s.waitHistory|
    && s.waitHistory[i] == lease.entry
  }

  predicate IncidentRequired(c: Classification) {
    c.HumanRequired? || c.Looping? || c.Stagnant? || c.Suspect?
  }

  predicate ProgressLeaseActive(s: State) {
    && s.progressLease.Some?
    && s.progressLease.value.renewedAt <= s.observedAt <= s.progressLease.value.expiresAt
  }

  /** The relations between classification, leases, counters and history. */
  predicate ValidRelations(s: State)
    requires |s.fingerprints| > 0
  {
    var waitActive := IsWaitActive(s.waitLease, s.observedAt);
    var leaseActive := ProgressLeaseActive(s);
    var c := s.classification;
    var fingerprintLoop := FindLoop(s.fingerprints);
    var newlyAttributable := c.Progressing? && s.reason.NewAttributableEvidence?;
    var retainedProgress := c.Progressing? && s.reason.UsefulProgressLeaseActive?;
    && (c.Settled? <==> s.dimensions.settled)
    && (c.HumanRequired? ==> s.dimensions.humanBoundary)
    && (!c.HumanRequired? && !c.Settled? ==> !s.dimensions.humanBoundary)
    && (s.incidentKey.Some? <==> IncidentRequired(c))
    && (c.ExpectedWait? ==> waitActive)
    && (c.Progressing? ==> leaseActive)
    && (c.Stagnant? || c.Suspect? ==> !waitActive && !leaseActive)
    && (c.ExpectedWait? || c.HumanRequired? || c.Progressing? || c.Settled? ==> s.suspectCount == 0)
    && (c.Suspect? ==> s.suspectCount == 1)
    && (c.Stagnant? ==> s.suspectCount >= 2)
    && (c.Looping? ==>
          && s.metrics.loopPattern.Some?
          && s.metrics.loopPattern == fingerprintLoop
          && s.suspectCount != 1
          && (s.suspectCount == 0 ==> waitActive)
          && (s.suspectCount >= 2 ==> !waitActive && !leaseActive))
    && (c.Stagnant? ==> s.metrics.loopPattern.None?)
    && (c.Stagnant? ==> fingerprintLoop.None?)
    && (c.ExpectedWait? ==> s.metrics.loopPattern.None?)
    && (newlyAttributable ==>
          && s.metrics.unseenEvidenceCount >= 1
          && |s.fingerprints| == 1
          && s.metrics.loopPattern.None?
          && s.progressLease.Some?
          && s.progressLease.value.renewedAt == s.observedAt
          && |s.progressLease.value.evidenceDigests| == s.metrics.unseenEvidenceCount)
    && (retainedProgress ==>
          && s.metrics.unseenEvidenceCount == 0
          && s.metrics.loopPattern == fingerprintLoop)
    && (c.Suspect? ==> s.metrics.loopPattern == fingerprintLoop)
    && s.metrics.noveltyScore == NoveltyThousandths(s.fingerprints)
    && (s.metrics.evidenceCapacityExhausted ==> |s.seen| >= MAX_EVIDENCE_IDENTITIES)
  }

  /** What the key of the state's incident is derived from, with the phase stored beside it. */
  function IdentityOf(s: State, phase: Option<string>): Incident
    requires |s.fingerprints| > 0
  {
    Incident(s.brokerEpoch, s.classification,
             if s.progressLease.Some? then Some(s.progressLease.value.evidenceDigest) else None,
             if s.classification.Looping? then s.metrics.loopPattern else None,
             phase, s.fingerprints[|s.fingerprints| - 1], s.workflow)
  }

  predicate ValidReason(s: State) {
    match s.classification
    case ExpectedWait =>
      s.reason == if s.waitLease.Some? && s.waitLease.value.entry.extensionUsed == 1
                  then BoundedWaitExtension else NamedWaitActive
    case HumanRequired => s.reason == GenuineHumanBoundaryObserved
    case Looping => s.metrics.loopPattern.Some? && s.reason == LoopDetected(s.metrics.loopPattern.value)
    case Progressing => s.reason == NewAttributableEvidence || s.reason == UsefulProgressLeaseActive
    case Settled => s.reason == VerifiedSettlementObserved
    case Stagnant => s.reason == UsefulProgressLeaseExpired
    case Suspect => s.reason == UsefulProgressUnconfirmed
  }

  /** `validateEagleSemanticState`. */
  predicate ValidState(h: Hashes, s: State) {
    && ValidScalars(s)
    && ValidHistories(s)
    && ValidMetrics(s.metrics)
    && (s.progressLease.Some? ==> ValidProgressLease(h, s.progressLease.value, s))
    && ValidWaitHistory(s.waitHistory)
    && (s.waitLease.Some? ==> ValidWaitLease(s.waitLease.value, s))
    && ValidRelations(s)
    && ValidReason(s)
  }
}
