/** The classification of attachment evidence, the disposition built from it and the validator of
    dispositions (src/attachment-execution-receipt.mjs, `structuralAttachmentOutcome`,
    `classifyAttachmentExecutionObservations`, `buildAttachmentExecutionDisposition`,
    `assertValidAttachmentExecutionDisposition`). Opaque identities and digests are numbers;
    times are milliseconds. */
module Attachment {
  import opened Prelude

  type Id = nat
  type Digest = nat

  const MAX_ITEMS: nat := 64

  datatype Kind = GeneratedImage | NonImage | Unclassified

  datatype ProviderStatus = Complete | Failed | InProgress | UnknownStatus

  datatype Action = DownloadImage | EditImage | SaveImage | ShareImage | UnknownAction

  datatype Artifact = Artifact(
    id: Id, kind: Kind, dom: Option<Id>, file: Option<Id>, generation: Option<Id>, graph: Option<Id>,
    message: Option<Id>)

  datatype Node = Node(message: Id, parent: Option<Id>, exchange: Option<Id>, status: ProviderStatus, terminal: bool)

  datatype Association = Association(id: Id, control: Id, dom: Id, graph: Id)

  datatype Observation = Observation(
    sequence: int, observedAt: int,
    send: Digest, captureKey: Digest, locator: Digest, prompt: Id,
    response: Option<Id>, selectedBranch: Option<Id>, saveAssociation: Option<Id>,
    graphComplete: bool, graphTruncated: bool, cursorPresent: bool, generationTerminal: bool, hydrationPending: bool,
    surfaceComplete: bool, assetPointerPresent: bool,
    branchCount: Option<int>, totalCount: Option<int>, generatedCount: Option<int>, nonImageCount: Option<int>,
    unclassifiedCount: Option<int>, saveControlCount: Option<int>, downloadControlCount: Option<int>,
    reactPropCount: Option<int>,
    branches: seq<Id>, nodes: seq<Node>, artifacts: seq<Artifact>, associations: seq<Association>, actions: set<Action>,
    withinCanonicalBounds: bool)

  datatype Reason =
    | AmbiguousSaveAssociation | CaptureAttemptLimit | CaptureDeadlineExpired | IncoherentCounts | TruncatedGraph
    | UnclassifiedArtifact | UnsupportedEvidence | UnsupportedSaveAssociation
    | IncompleteGraph | GenerationActive | HydrationPending | UnstableEvidence
    | ExactlyOneSupported | MultipleResponseBranches | MultipleGeneratedImages | MultipleTotalArtifacts
    | ZeroGeneratedImages

  datatype Outcome = ExactlyOne | Multiple | Zero | Unknown

  datatype Classification = Classification(outcome: Outcome, reason: Reason)

  // ---- the observation schema -----------------------------------------

  predicate IsCount(n: Option<int>) {
    n.Some? ==> 0 <= n.value <= MAX_ITEMS
  }

  predicate ValidArtifact(a: Artifact) {
    if a.kind.GeneratedImage? then
      a.dom.Some? && a.file.Some? && a.generation.Some? && a.graph.Some? && a.message.Some?
    else a.dom.None? && a.file.None? && a.generation.None? && a.graph.None? && a.message.None?
  }

  predicate DistinctArtifacts(artifacts: seq<Artifact>) {
    forall i, j :: 0 <= i < j < |artifacts| ==> artifacts[i].id != artifacts[j].id
  }

  predicate DistinctAssociations(associations: seq<Association>) {
    forall i, j :: 0 <= i < j < |associations| ==>
      associations[i].id != associations[j].id && associations[i].control != associations[j].control
  }

  predicate DistinctNodes(nodes: seq<Node>) {
    forall i, j :: 0 <= i < j < |nodes| ==> nodes[i].message != nodes[j].message
  }

  /** `assertValidAttachmentGraphObservation`. */
  predicate ValidObservation(o: Observation) {
    && o.withinCanonicalBounds && o.sequence >= 1
    && IsCount(o.branchCount) && IsCount(o.totalCount) && IsCount(o.generatedCount) && IsCount(o.nonImageCount)
    && IsCount(o.unclassifiedCount) && IsCount(o.saveControlCount) && IsCount(o.downloadControlCount)
    && IsCount(o.reactPropCount)
    && |o.branches| <= MAX_ITEMS && Distinct(o.branches)
    && |o.nodes| <= MAX_ITEMS && DistinctNodes(o.nodes)
    && |o.artifacts| <= MAX_ITEMS && DistinctArtifacts(o.artifacts)
    && (forall i :: 0 <= i < |o.artifacts| ==> ValidArtifact(o.artifacts[i]))
    && |o.associations| <= MAX_ITEMS && DistinctAssociations(o.associations)
  }

  // ---- classification -------------------------------------------------

  function CountOf(artifacts: seq<Artifact>, kind: Kind): nat {
    if artifacts == [] then 0 else (if artifacts[0].kind == kind then 1 else 0) + CountOf(artifacts[1..], kind)
  }

  predicate AllCounted(o: Observation) {
    && o.branchCount.Some? && o.totalCount.Some? && o.generatedCount.Some? && o.nonImageCount.Some?
    && o.unclassifiedCount.Some? && o.saveControlCount.Some? && o.downloadControlCount.Some? && o.reactPropCount.Some?
  }

  predicate SettledNodes(nodes: seq<Node>) {
    forall i :: 0 <= i < |nodes| ==> nodes[i].status.Complete? && nodes[i].terminal
  }

  predicate HasNode(nodes: seq<Node>, message: Id) {
    exists i :: 0 <= i < |nodes| && nodes[i].message == message
  }

  /** The counts agree with each other and with what they count. */
  predicate Coherent(o: Observation)
    requires AllCounted(o)
  {
    && o.totalCount.value == o.generatedCount.value + o.nonImageCount.value + o.unclassifiedCount.value
    && |o.artifacts| == o.totalCount.value
    && CountOf(o.artifacts, GeneratedImage) == o.generatedCount.value
    && CountOf(o.artifacts, NonImage) == o.nonImageCount.value
    && CountOf(o.artifacts, Unclassified) == o.unclassifiedCount.value
    && |o.associations| == o.saveControlCount.value
    && |o.branches| == o.branchCount.value
    && (o.selectedBranch.Some? ==> o.selectedBranch.value in o.branches)
    && (o.response.Some? ==> HasNode(o.nodes, o.response.value))
  }

  /** `structuralAttachmentOutcome`: why an observation cannot be classified, if it cannot. */
  function StructuralReason(o: Observation): Option<Reason> {
    if !ValidObservation(o) then Some(UnsupportedEvidence)
    else if !o.graphComplete || o.cursorPresent then Some(IncompleteGraph)
    else if o.graphTruncated then Some(TruncatedGraph)
    else if !o.generationTerminal then Some(GenerationActive)
    else if o.hydrationPending then Some(HydrationPending)
    else if !o.surfaceComplete then Some(UnsupportedEvidence)
    else if !SettledNodes(o.nodes) || UnknownAction in o.actions then Some(UnsupportedEvidence)
    else if !AllCounted(o) then Some(UnsupportedEvidence)
    else if !Coherent(o) then Some(IncoherentCounts)
    else if o.unclassifiedCount.value > 0 then Some(UnclassifiedArtifact)
    else None
  }

  /** The observation without its sequence number and time; canonical bytes are equal exactly if
      these are. */
  function Projection(o: Observation): Observation {
    o.(sequence := 0, observedAt := 0)
  }

  predicate Stable(first: Observation, final: Observation) {
    && final.sequence == first.sequence + 1
    && 750 <= final.observedAt - first.observedAt <= 2_000
    && Projection(first) == Projection(final)
  }

  predicate AssociationMatches(o: Observation)
    requires |o.artifacts| > 0
  {
    && |o.associations| > 0
    && Some(o.associations[0].dom) == o.artifacts[0].dom
    && Some(o.associations[0].graph) == o.artifacts[0].graph
    && Some(o.associations[0].id) == o.saveAssociation
  }

  function ClassifySingle(o: Observation): Classification
    requires AllCounted(o) && |o.artifacts| > 0
  {
    var saves := o.saveControlCount.value;
    if o.response.None? || o.selectedBranch.None? then Classification(Unknown, UnsupportedEvidence)
    else if || saves > 1 || |o.associations| > 1
            || (o.saveAssociation.Some? && saves != 1)
            || (saves == 1 && SaveImage !in o.actions)
            || (saves == 0 && SaveImage in o.actions)
            || (saves == 1 && !AssociationMatches(o))
    then Classification(Unknown, AmbiguousSaveAssociation)
    else if saves != 1 || |o.associations| != 1 || o.saveAssociation.None? then
      Classification(Unknown, UnsupportedSaveAssociation)
    else Classification(ExactlyOne, ExactlyOneSupported)
  }

  /** `classifyAttachmentExecutionObservations`. */
  function Classify(first: Observation, final: Observation): Classification {
    if StructuralReason(first).Some? then Classification(Unknown, StructuralReason(first).value)
    else if StructuralReason(final).Some? then Classification(Unknown, StructuralReason(final).value)
    else if !Stable(first, final) then Classification(Unknown, UnstableEvidence)
    else
      var o := final;
      if o.branchCount.value > 1 then Classification(Multiple, MultipleResponseBranches)
      else if o.generatedCount.value > 1 then Classification(Multiple, MultipleGeneratedImages)
      else if o.generatedCount.value == 1 && o.totalCount.value > 1 then
        Classification(Multiple, MultipleTotalArtifacts)
      else if && o.branchCount.value == 1 && o.totalCount.value == 1 && o.generatedCount.value == 1
              && o.nonImageCount.value == 0
      then ClassifySingle(o)
      else if && o.generatedCount.value == 0
              && (o.saveControlCount.value != 0 || |o.associations| != 0 || o.saveAssociation.Some?)
      then Classification(Unknown, AmbiguousSaveAssociation)
      else if o.branchCount.value <= 1 && o.generatedCount.value == 0 then Classification(Zero, ZeroGeneratedImages)
      else Classification(Unknown, IncoherentCounts)
  }

  // ---- the disposition ------------------------------------------------

  datatype Send = Send(
    workflow: Id, digest: Digest, runtime: Digest, externalBinding: Option<Digest>, enrollment: Digest,
    authorization: Digest, keyId: Digest, qualified: bool)

  datatype JournalEntry = BrokerRestart | DriverRecovery | ObservationRecorded | OtherEntry

  /** A capture operation retains the observations its disposition is built from. */
  datatype Capture = Capture(
    workflow: Id, sendDigest: Digest, key: Digest, evidence: Digest, generation: int, journal: seq<JournalEntry>)

  const MAX_CANDIDATE_GENERATION := 32

  /** `buildAttachmentEvidenceCapture`: what the capture's own evidence refuses. */
  predicate Projectable(capture: Capture, c: Classification) {
    && 0 <= capture.generation <= MAX_CANDIDATE_GENERATION
    && (forall i :: 0 <= i < |capture.journal| ==> !capture.journal[i].OtherEntry?)
    && (c.outcome.Unknown? ==> TerminalReason(c.reason))
  }

  datatype Receipt = Receipt(
    branch: Option<Id>, response: Option<Id>, graph: Option<Id>, dom: Option<Id>, saveAssociation: Option<Id>,
    locator: Digest, graphDigest: Option<Observation>, captureKey: Digest, runtime: Digest,
    externalBinding: Option<Digest>, firstAt: Option<int>, finalAt: Option<int>, send: Digest, stableCount: nat)

  /** Digests of the stable graph are modelled by the projection they are taken of. */
  datatype Disposition = Disposition(
    outcome: Outcome, reason: Reason, evidence: Digest, captureKey: Digest, runtime: Digest,
    externalBinding: Option<Digest>, authorization: Digest, enrollment: Digest, keyId: Digest, send: Digest,
    branchCount: Option<int>, totalCount: Option<int>, generatedCount: Option<int>, nonImageCount: Option<int>,
    unclassifiedCount: Option<int>, saveControlCount: Option<int>, downloadControlCount: Option<int>,
    stableCount: nat, firstAt: Option<int>, finalAt: Option<int>, graphDigest: Option<Observation>,
    saveAssociation: Option<Id>, receipt: Option<Receipt>, terminalAt: int, qualified: bool)

  predicate TerminalReason(r: Reason) {
    || r.AmbiguousSaveAssociation? || r.CaptureAttemptLimit? || r.CaptureDeadlineExpired? || r.IncoherentCounts?
    || r.TruncatedGraph? || r.UnclassifiedArtifact? || r.UnsupportedEvidence? || r.UnsupportedSaveAssociation?
  }

  predicate ExhaustionReason(r: Reason) {
    r.CaptureAttemptLimit? || r.CaptureDeadlineExpired?
  }

  predicate CountMismatch(total: Option<int>, generated: Option<int>, nonImage: Option<int>,
                          unclassified: Option<int>) {
    && total.Some? && generated.Some? && nonImage.Some? && unclassified.Some?
    && total.value != generated.value + nonImage.value + unclassified.value
  }

  predicate ValidReceipt(r: Receipt, d: Disposition) {
    && r.branch.Some? && r.response.Some? && r.graph.Some? && r.dom.Some? && r.saveAssociation.Some?
    && r.graphDigest.Some?
    && r.captureKey == d.captureKey && r.runtime == d.runtime && r.externalBinding == d.externalBinding
    && r.firstAt == d.firstAt && r.finalAt == d.finalAt && r.saveAssociation == d.saveAssociation
    && r.graphDigest == d.graphDigest && r.send == d.send && r.stableCount == 2
  }

  predicate ValidRetained(d: Disposition) {
    if d.stableCount == 0 then d.firstAt.None? && d.finalAt.None? && d.graphDigest.None?
    else
      && d.firstAt.Some? && d.finalAt.Some? && d.graphDigest.Some?
      && d.firstAt.value <= d.finalAt.value <= d.terminalAt
  }

  predicate ValidOutcome(d: Disposition, mismatch: bool) {
    match d.outcome
    case ExactlyOne =>
      && d.reason.ExactlyOneSupported? && d.branchCount == Some(1) && d.totalCount == Some(1)
      && d.generatedCount == Some(1) && d.nonImageCount == Some(0) && d.unclassifiedCount == Some(0)
      && d.downloadControlCount.Some? && d.saveControlCount == Some(1) && d.stableCount == 2
      && d.saveAssociation.Some? && d.receipt.Some? && ValidReceipt(d.receipt.value, d)
    case Multiple =>
      && (match d.reason
          case MultipleResponseBranches => d.branchCount.Some? && d.branchCount.value > 1
          case MultipleGeneratedImages => d.generatedCount.Some? && d.generatedCount.value > 1
          case MultipleTotalArtifacts => d.generatedCount == Some(1) && d.totalCount.Some? && d.totalCount.value > 1
          case _ => false)
      && d.stableCount == 2
      && d.branchCount.Some? && d.totalCount.Some? && d.generatedCount.Some? && d.nonImageCount.Some?
      && d.unclassifiedCount.Some?
      && d.receipt.None? && d.saveAssociation.None?
    case Zero =>
      && d.reason.ZeroGeneratedImages? && d.stableCount == 2
      && d.branchCount.Some? && d.branchCount.value <= 1
      && d.totalCount.Some? && d.generatedCount == Some(0) && d.nonImageCount.Some? && d.unclassifiedCount == Some(0)
      && d.saveControlCount == Some(0) && d.receipt.None? && d.saveAssociation.None?
    case Unknown =>
      && d.receipt.None? && d.saveAssociation.None? && TerminalReason(d.reason)
      && (d.stableCount == 0 ==> ExhaustionReason(d.reason))
      && (d.reason.IncoherentCounts? ==> mismatch)
      && (d.reason.UnclassifiedArtifact? ==> d.unclassifiedCount != Some(0))
  }

  /** `assertValidAttachmentExecutionDisposition`. */
  predicate ValidDisposition(d: Disposition) {
    var mismatch := CountMismatch(d.totalCount, d.generatedCount, d.nonImageCount, d.unclassifiedCount);
    && d.qualified && (d.stableCount == 0 || d.stableCount == 2)
    && IsCount(d.branchCount) && IsCount(d.totalCount) && IsCount(d.generatedCount) && IsCount(d.nonImageCount)
    && IsCount(d.unclassifiedCount) && IsCount(d.saveControlCount) && IsCount(d.downloadControlCount)
    && ValidRetained(d)
    && (mismatch ==> d.outcome.Unknown? && d.reason.IncoherentCounts?)
    && ValidOutcome(d, mismatch)
  }

  function ReceiptOf(first: Observation, final: Observation, send: Send, capture: Capture): Receipt
    requires |final.artifacts| > 0
  {
    Receipt(final.selectedBranch, final.response, final.artifacts[0].graph, final.artifacts[0].dom,
            final.saveAssociation, final.locator, Some(Projection(final)), capture.key, send.runtime,
            send.externalBinding, Some(first.observedAt), Some(final.observedAt), send.digest, 2)
  }

  /** The disposition of a pair of retained observations. */
  function PairDisposition(c: Classification, first: Observation, final: Observation, send: Send, capture: Capture,
                           terminalAt: int): Disposition
    requires c.outcome.ExactlyOne? ==> |final.artifacts| > 0
  {
    Disposition(
      c.outcome, c.reason, capture.evidence, capture.key, send.runtime, send.externalBinding, send.authorization,
      send.enrollment, send.keyId, send.digest,
      final.branchCount, final.totalCount, final.generatedCount, final.nonImageCount, final.unclassifiedCount,
      final.saveControlCount, final.downloadControlCount,
      2, Some(first.observedAt), Some(final.observedAt), Some(Projection(final)),
      if c.outcome.ExactlyOne? then final.saveAssociation else None,
      if c.outcome.ExactlyOne? then Some(ReceiptOf(first, final, send, capture)) else None,
      terminalAt, send.qualified)
  }

  /** The disposition of a capture that retained no pair. */
  function EmptyDisposition(reason: Reason, send: Send, capture: Capture, terminalAt: int): Disposition {
    Disposition(
      Unknown, reason, capture.evidence, capture.key, send.runtime, send.externalBinding, send.authorization,
      send.enrollment, send.keyId, send.digest,
      None, None, None, None, None, None, None, 0, None, None, None, None, None, terminalAt, send.qualified)
  }

  /** The capture belongs to the confirmed Send, its key is derived from that Send alone, and so do
      all observations. `keyOf` is `attachmentCaptureOperationKeyDigest`. */
  predicate SameLineage(keyOf: Digest -> Digest, observations: seq<Observation>, send: Send, capture: Capture) {
    && capture.workflow == send.workflow && capture.sendDigest == send.digest && capture.key == keyOf(send.digest)
    && forall i :: 0 <= i < |observations| ==>
         observations[i].send == send.digest && observations[i].captureKey == capture.key
  }

  datatype Refusal = InvalidReason | ForeignLineage | NotAPair | InvalidEvidence | InvalidCapture | InvalidBuilt

  function Validated(capture: Capture, c: Classification, d: Disposition): Result<Disposition, Refusal> {
    if !Projectable(capture, c) then Err(InvalidCapture)
    else if ValidDisposition(d) then Ok(d)
    else Err(InvalidBuilt)
  }

  /** `buildAttachmentExecutionDisposition`. */
  function Build(keyOf: Digest -> Digest, observations: seq<Observation>, send: Send, capture: Capture,
                 forced: Option<Reason>, terminalAt: int): Result<Disposition, Refusal>
  {
    if forced.Some? && !ExhaustionReason(forced.value) then Err(InvalidReason)
    else if !SameLineage(keyOf, observations, send, capture) then Err(ForeignLineage)
    else if forced.None? && |observations| != 2 then Err(NotAPair)
    else if exists i :: 0 <= i < |observations| && !ValidObservation(observations[i]) then Err(InvalidEvidence)
    else if |observations| != 2 then
      Validated(capture, Classification(Unknown, forced.value),
                EmptyDisposition(forced.value, send, capture, terminalAt))
    else
      var first, final := observations[0], observations[1];
      if forced.Some? then
        var c := Classification(Unknown, forced.value);
        Validated(capture, c, PairDisposition(c, first, final, send, capture, terminalAt))
      else
        var c := Classify(first, final);
        ExactlyOneHasArtifactIf(first, final);
        Validated(capture, c, PairDisposition(c, first, final, send, capture, terminalAt))
  }

  lemma ExactlyOneHasArtifactIf(first: Observation, final: Observation)
    ensures Classify(first, final).outcome.ExactlyOne? ==> |final.artifacts| > 0
  {
  }

  // ---- agreement ------------------------------------------------------

  /** A receipt's evidence, exactly: both observations are structurally sound and stable, and the
      final one shows one branch, one artifact, one generated image, and one save control whose one
      association has the artifact's own graph and document identities. */
  lemma ExactlyOneExactly(first: Observation, final: Observation)
    ensures Classify(first, final).outcome.ExactlyOne? <==>
            && StructuralReason(first).None? && StructuralReason(final).None? && Stable(first, final)
            && |final.branches| == 1 && final.selectedBranch == Some(final.branches[0])
            && final.response.Some? && HasNode(final.nodes, final.response.value)
            && |final.artifacts| == 1 && final.artifacts[0].kind.GeneratedImage?
            && |final.associations| == 1
            && Some(final.associations[0].graph) == final.artifacts[0].graph
            && Some(final.associations[0].dom) == final.artifacts[0].dom
            && Some(final.associations[0].id) == final.saveAssociation
            && SaveImage in final.actions
  {
    hide ValidObservation, SettledNodes, HasNode;
    if StructuralReason(final).None? && |final.artifacts| == 1 {
      SingleKind(final.artifacts);
    }
  }

  lemma SingleKind(artifacts: seq<Artifact>)
    requires |artifacts| == 1
    ensures forall kind :: CountOf(artifacts, kind) == if artifacts[0].kind == kind then 1 else 0
  {
    assert artifacts[1..] == [];
  }

  predicate Mismatched(o: Observation) {
    CountMismatch(o.totalCount, o.generatedCount, o.nonImageCount, o.unclassifiedCount)
  }

  /** The unknown outcomes that the validator accepts as terminal. */
  predicate UnknownTerminates(reason: Reason, final: Observation) {
    && TerminalReason(reason)
    && (reason.IncoherentCounts? <==> Mismatched(final))
    && (reason.UnclassifiedArtifact? ==> final.unclassifiedCount != Some(0))
  }

  /** A classified pair other than an unknown one has the counts the validator asks for. */
  lemma KnownOutcomeCounts(first: Observation, final: Observation)
    requires !Classify(first, final).outcome.Unknown?
    ensures StructuralReason(final).None? && Stable(first, final) && !Mismatched(final)
    ensures var c := Classify(first, final);
            && (c.outcome.Multiple? ==>
                  match c.reason
                  case MultipleResponseBranches => final.branchCount.value > 1
                  case MultipleGeneratedImages => final.generatedCount.value > 1
                  case MultipleTotalArtifacts => final.generatedCount == Some(1) && final.totalCount.value > 1
                  case _ => false)
            && (c.outcome.Zero? ==>
                  && c.reason.ZeroGeneratedImages? && final.branchCount.value <= 1 && final.generatedCount == Some(0)
                  && final.unclassifiedCount == Some(0) && final.saveControlCount == Some(0))
  {
    hide ValidObservation, SettledNodes, HasNode, CountOf;
  }

  lemma ExactlyOneCounts(first: Observation, final: Observation)
    requires Classify(first, final) == Classification(ExactlyOne, Classify(first, final).reason)
    ensures Classify(first, final).reason.ExactlyOneSupported?
    ensures final.branchCount == Some(1) && final.totalCount == Some(1) && final.generatedCount == Some(1)
    ensures final.nonImageCount == Some(0) && final.unclassifiedCount == Some(0) && final.saveControlCount == Some(1)
    ensures final.downloadControlCount.Some? && final.saveAssociation.Some?
    ensures final.response.Some? && final.selectedBranch.Some? && |final.artifacts| > 0
    ensures final.artifacts[0].graph.Some? && final.artifacts[0].dom.Some?
  {
    hide ValidObservation, SettledNodes, HasNode, CountOf;
  }

  lemma CountsAreCounts(o: Observation)
    requires ValidObservation(o)
    ensures IsCount(o.branchCount) && IsCount(o.totalCount) && IsCount(o.generatedCount) && IsCount(o.nonImageCount)
    ensures IsCount(o.unclassifiedCount) && IsCount(o.saveControlCount) && IsCount(o.downloadControlCount)
  {
  }

  /** When the disposition of a classified pair is valid. */
  lemma PairValidExactly(first: Observation, final: Observation, send: Send, capture: Capture, terminalAt: int)
    requires ValidObservation(first) && ValidObservation(final)
    requires Classify(first, final).outcome.ExactlyOne? ==> |final.artifacts| > 0
    ensures var c := Classify(first, final);
            ValidDisposition(PairDisposition(c, first, final, send, capture, terminalAt)) <==>
            && send.qualified && first.observedAt <= final.observedAt <= terminalAt
            && (c.outcome.Unknown? ==> UnknownTerminates(c.reason, final))
  {
    hide ValidObservation, Classify, Projection;
    CountsAreCounts(final);
    if !Classify(first, final).outcome.Unknown? {
      KnownOutcomeCounts(first, final);
      if Classify(first, final).outcome.ExactlyOne? { ExactlyOneCounts(first, final); }
    }
  }

  /** Classifier, builder and validator agree. From two valid observations of its own Send the
      builder produces a disposition, and the validator accepts it, if and only if the runtime is
      qualified, the capture can be projected into evidence, the terminal time is not before the
      observations and the outcome is a known one or an unknown one that may be final. So every pair
      classified as exactly one, multiple or zero terminates. */
  lemma BuildsExactly(keyOf: Digest -> Digest, first: Observation, final: Observation, send: Send, capture: Capture,
                      terminalAt: int)
    requires ValidObservation(first) && ValidObservation(final) && SameLineage(keyOf, [first, final], send, capture)
    ensures var c := Classify(first, final);
            && (Build(keyOf, [first, final], send, capture, None, terminalAt).Ok? <==>
                && send.qualified && Projectable(capture, c) && first.observedAt <= final.observedAt <= terminalAt
                && (!c.outcome.Unknown? || UnknownTerminates(c.reason, final)))
            && (!c.outcome.Unknown? ==> first.observedAt < final.observedAt)
  {
    hide ValidObservation, Classify, ValidDisposition, PairDisposition;
    ExactlyOneHasArtifactIf(first, final);
    PairValidExactly(first, final, send, capture, terminalAt);
    if !Classify(first, final).outcome.Unknown? { KnownOutcomeCounts(first, final); }
    var observations := [first, final];
    assert observations[0] == first && observations[1] == final;
  }

  /** A capture that gives up, and can be projected into evidence, is always recorded when it
      retained no pair, and otherwise unless its pair is out of order or its artifact counts
      contradict each other. */
  lemma ExhaustionBuildsExactly(keyOf: Digest -> Digest, observations: seq<Observation>, send: Send, capture: Capture,
                                reason: Reason, terminalAt: int)
    requires ExhaustionReason(reason) && SameLineage(keyOf, observations, send, capture)
    requires forall i :: 0 <= i < |observations| ==> ValidObservation(observations[i])
    ensures Build(keyOf, observations, send, capture, Some(reason), terminalAt).Ok? <==>
            send.qualified && Projectable(capture, Classification(Unknown, reason)) &&
            (|observations| == 2 ==>
               && observations[0].observedAt <= observations[1].observedAt <= terminalAt
               && !Mismatched(observations[1]))
  {
    hide ValidObservation, Classify;
    if |observations| == 2 { CountsAreCounts(observations[1]); }
  }

  /** A built disposition carries a receipt if and only if the pair was classified as exactly one,
      and the receipt repeats the branch, the response and the identities of the one artifact and
      of its one association. */
  lemma ReceiptExactly(keyOf: Digest -> Digest, observations: seq<Observation>, send: Send, capture: Capture,
                       forced: Option<Reason>, terminalAt: int)
    requires Build(keyOf, observations, send, capture, forced, terminalAt).Ok?
    ensures var d := Build(keyOf, observations, send, capture, forced, terminalAt).value;
            && ValidDisposition(d)
            && (d.receipt.Some? <==>
                  forced.None? && |observations| == 2 && Classify(observations[0], observations[1]).outcome.ExactlyOne?)
            && (d.receipt.Some? ==>
                  var r, o := d.receipt.value, observations[1];
                  && |o.branches| == 1 && r.branch == Some(o.branches[0]) && r.response == o.response
                  && |o.artifacts| == 1 && r.graph == o.artifacts[0].graph && r.dom == o.artifacts[0].dom
                  && |o.associations| == 1 && r.graph == Some(o.associations[0].graph)
                  && r.dom == Some(o.associations[0].dom) && r.saveAssociation == Some(o.associations[0].id)
                  && r.send == send.digest && r.captureKey == capture.key && d.outcome.ExactlyOne?)
  {
    hide ValidObservation, Classify, ValidDisposition, StructuralReason, Stable, Projection;
    if |observations| == 2 && forced.None? {
      ExactlyOneExactly(observations[0], observations[1]);
    }
  }

  /** Not every incoherence may be final: the validator wants the totals to contradict each other,
      while the classifier also calls a pair incoherent whose lists do not match their counts. Such
      a pair never builds under its own classification, whatever the terminal time; since its totals
      agree, it may still be recorded by a capture that gives up (`ExhaustionBuildsExactly`). */
  lemma IncoherentListsNeverTerminate(keyOf: Digest -> Digest, send: Send, capture: Capture, terminalAt: int)
    requires capture.workflow == send.workflow && capture.sendDigest == send.digest && capture.key == keyOf(send.digest)
    requires 0 <= capture.generation <= MAX_CANDIDATE_GENERATION
    requires forall i :: 0 <= i < |capture.journal| ==> !capture.journal[i].OtherEntry?
    ensures var o := Observation(
              1, 0, send.digest, capture.key, 0, 0, None, None, None, true, false, false, true, false, true, false,
              Some(1), Some(0), Some(0), Some(0), Some(0), Some(0), Some(0), Some(0), [], [], [], [], {}, true);
            var later := o.(sequence := 2, observedAt := 1_000);
            && ValidObservation(o) && ValidObservation(later)
            && Classify(o, later) == Classification(Unknown, IncoherentCounts)
            && Build(keyOf, [o, later], send, capture, None, terminalAt) == Err(InvalidBuilt)
  {
    var o := Observation(
      1, 0, send.digest, capture.key, 0, 0, None, None, None, true, false, false, true, false, true, false,
      Some(1), Some(0), Some(0), Some(0), Some(0), Some(0), Some(0), Some(0), [], [], [], [], {}, true);
    var later := o.(sequence := 2, observedAt := 1_000);
    assert StructuralReason(o) == Some(IncoherentCounts);
    hide Classify;
    BuildsExactly(keyOf, o, later, send, capture, terminalAt);
  }
}
