/** What a disposition of attachment evidence holds and which dispositions are valid, field by field
    (src/attachment-execution-receipt.mjs, `buildAttachmentExecutionDisposition`,
    `assertValidAttachmentExecutionDisposition`). */
module AttachmentDispositions {
  import opened Prelude
  import opened Attachment

  // ---- what is built --------------------------------------------------

  /** Who sent, who captured and who may sign. */
  predicate OfSend(d: Disposition, send: Send, capture: Capture, terminalAt: int) {
    && d.evidence == capture.evidence && d.captureKey == capture.key && d.send == send.digest
    && d.runtime == send.runtime && d.qualified == send.qualified && d.externalBinding == send.externalBinding
    && d.authorization == send.authorization && d.enrollment == send.enrollment && d.keyId == send.keyId
    && d.terminalAt == terminalAt
  }

  /** The counts and times of the retained pair. */
  predicate OfPair(d: Disposition, first: Observation, final: Observation) {
    && d.stableCount == 2 && d.firstAt == Some(first.observedAt) && d.finalAt == Some(final.observedAt)
    && d.graphDigest == Some(final.(sequence := 0, observedAt := 0))
    && d.branchCount == final.branchCount && d.totalCount == final.totalCount
    && d.generatedCount == final.generatedCount && d.nonImageCount == final.nonImageCount
    && d.unclassifiedCount == final.unclassifiedCount && d.saveControlCount == final.saveControlCount
    && d.downloadControlCount == final.downloadControlCount
  }

  predicate OfNothing(d: Disposition) {
    && d.stableCount == 0 && d.firstAt == None && d.finalAt == None && d.graphDigest == None
    && d.branchCount == None && d.totalCount == None && d.generatedCount == None && d.nonImageCount == None
    && d.unclassifiedCount == None && d.saveControlCount == None && d.downloadControlCount == None
  }

  /** Every field of what the builder returns: the classification of the pair, or the reason a capture
      gave up for, and a receipt only with exactly one image. */
  lemma BuiltExactly(keyOf: Digest -> Digest, observations: seq<Observation>, send: Send, capture: Capture,
                     forced: Option<Reason>, terminalAt: int)
    requires Build(keyOf, observations, send, capture, forced, terminalAt).Ok?
    ensures var d := Build(keyOf, observations, send, capture, forced, terminalAt).value;
      && OfSend(d, send, capture, terminalAt)
      && (if |observations| == 2 then OfPair(d, observations[0], observations[1]) else OfNothing(d))
      && (forced.Some? ==> d.outcome == Unknown && d.reason == forced.value)
      && (forced.None? ==>
            && |observations| == 2
            && Classify(observations[0], observations[1]) == Classification(d.outcome, d.reason))
      && (d.outcome != ExactlyOne ==> d.receipt == None && d.saveAssociation == None)
      && (d.outcome == ExactlyOne ==>
            && |observations| == 2 && |observations[1].artifacts| > 0
            && d.saveAssociation == observations[1].saveAssociation
            && d.receipt.Some?
            && var r, o := d.receipt.value, observations[1];
               && r.branch == o.selectedBranch && r.response == o.response && r.graph == o.artifacts[0].graph
               && r.dom == o.artifacts[0].dom && r.saveAssociation == o.saveAssociation && r.locator == o.locator
               && r.graphDigest == d.graphDigest && r.captureKey == capture.key && r.runtime == send.runtime
               && r.externalBinding == send.externalBinding && r.firstAt == d.firstAt && r.finalAt == d.finalAt
               && r.send == send.digest && r.stableCount == 2)
  {
    hide ValidObservation, Classify, ValidDisposition;
    if |observations| == 2 { ExactlyOneHasArtifactIf(observations[0], observations[1]); }
  }

  /** The builder refuses, in this order: a reason that is not one of giving up, another lineage, less or
      more than a pair, unsupported evidence. */
  lemma RefusesExactly(keyOf: Digest -> Digest, observations: seq<Observation>, send: Send, capture: Capture,
                       forced: Option<Reason>, terminalAt: int)
    ensures var r := Build(keyOf, observations, send, capture, forced, terminalAt);
      var ours :=
        && capture.workflow == send.workflow && capture.sendDigest == send.digest
        && capture.key == keyOf(send.digest)
        && forall i :: 0 <= i < |observations| ==>
             observations[i].send == send.digest && observations[i].captureKey == keyOf(send.digest);
      && (r == Err(InvalidReason) <==> forced.Some? && forced.value !in {CaptureAttemptLimit, CaptureDeadlineExpired})
      && (r == Err(ForeignLineage) <==> r != Err(InvalidReason) && !ours)
      && (r == Err(NotAPair) <==> forced.None? && ours && |observations| != 2)
      && (r == Err(InvalidEvidence) <==>
            && r !in {Err(InvalidReason), Err(ForeignLineage), Err(NotAPair)}
            && exists i :: 0 <= i < |observations| && !ValidObservation(observations[i]))
  {
    hide ValidObservation, Classify, ValidDisposition, Projectable;
  }

  // ---- what is valid --------------------------------------------------

  function Counts(d: Disposition): set<Option<int>> {
    {d.branchCount, d.totalCount, d.generatedCount, d.nonImageCount, d.unclassifiedCount, d.saveControlCount,
     d.downloadControlCount}
  }

  predicate Bounded(d: Disposition) {
    forall n :: n in Counts(d) ==> n == None || 0 <= n.value <= 64
  }

  lemma BoundedExactly(d: Disposition)
    ensures Bounded(d) <==>
            && IsCount(d.branchCount) && IsCount(d.totalCount) && IsCount(d.generatedCount) && IsCount(d.nonImageCount)
            && IsCount(d.unclassifiedCount) && IsCount(d.saveControlCount) && IsCount(d.downloadControlCount)
  {
    var all := Counts(d);
    assert d.branchCount in all && d.totalCount in all && d.generatedCount in all && d.nonImageCount in all
           && d.unclassifiedCount in all && d.saveControlCount in all && d.downloadControlCount in all;
  }

  /** Nothing was retained, or a pair in order, not after the terminal time. */
  predicate Retained(d: Disposition) {
    || (d.stableCount == 0 && d.firstAt == None && d.finalAt == None && d.graphDigest == None)
    || (&& d.stableCount == 2 && d.graphDigest.Some? && d.firstAt.Some? && d.finalAt.Some?
        && d.firstAt.value <= d.finalAt.value && d.finalAt.value <= d.terminalAt)
  }

  /** The total is not the sum of its parts. */
  predicate Contradicts(d: Disposition) {
    && None !in {d.totalCount, d.generatedCount, d.nonImageCount, d.unclassifiedCount}
    && d.generatedCount.value + d.nonImageCount.value + d.unclassifiedCount.value != d.totalCount.value
  }

  predicate Empty(d: Disposition) {
    d.receipt == None && d.saveAssociation == None
  }

  /** The reasons for which an unknown outcome may be final. */
  predicate FinalReason(r: Reason) {
    r in {AmbiguousSaveAssociation, CaptureAttemptLimit, CaptureDeadlineExpired, IncoherentCounts, TruncatedGraph,
          UnclassifiedArtifact, UnsupportedEvidence, UnsupportedSaveAssociation}
  }

  predicate Receipted(d: Disposition) {
    && d.receipt.Some?
    && var r := d.receipt.value;
       && None !in {r.branch, r.response, r.graph, r.dom, r.saveAssociation} && r.graphDigest.Some?
       && r.captureKey == d.captureKey && r.runtime == d.runtime && r.externalBinding == d.externalBinding
       && r.firstAt == d.firstAt && r.finalAt == d.finalAt && r.saveAssociation == d.saveAssociation
       && r.graphDigest == d.graphDigest && r.send == d.send && r.stableCount == 2
  }

  /** Exactly the valid dispositions, outcome by outcome. */
  lemma ValidExactly(d: Disposition)
    ensures ValidDisposition(d) <==>
      && d.qualified && Bounded(d) && Retained(d)
      && (Contradicts(d) ==> d.outcome == Unknown && d.reason == IncoherentCounts)
      && match d.outcome
         case ExactlyOne =>
           && d.reason == ExactlyOneSupported && d.stableCount == 2 && Receipted(d)
           && [d.branchCount, d.totalCount, d.generatedCount, d.nonImageCount, d.unclassifiedCount,
               d.saveControlCount] ==
              [Some(1), Some(1), Some(1), Some(0), Some(0), Some(1)]
           && d.downloadControlCount != None && d.saveAssociation != None
         case Multiple =>
           && d.stableCount == 2 && Empty(d)
           && None !in {d.branchCount, d.totalCount, d.generatedCount, d.nonImageCount, d.unclassifiedCount}
           && (|| (d.reason == MultipleResponseBranches && d.branchCount.value > 1)
               || (d.reason == MultipleGeneratedImages && d.generatedCount.value > 1)
               || (d.reason == MultipleTotalArtifacts && d.generatedCount.value == 1 && d.totalCount.value > 1))
         case Zero =>
           && d.reason == ZeroGeneratedImages && d.stableCount == 2 && Empty(d)
           && None !in {d.branchCount, d.totalCount, d.nonImageCount} && d.branchCount.value <= 1
           && [d.generatedCount, d.unclassifiedCount, d.saveControlCount] == [Some(0), Some(0), Some(0)]
         case Unknown =>
           && Empty(d) && FinalReason(d.reason)
           && (d.stableCount == 0 ==> d.reason in {CaptureAttemptLimit, CaptureDeadlineExpired})
           && (d.reason == IncoherentCounts ==> Contradicts(d))
           && (d.reason == UnclassifiedArtifact ==> d.unclassifiedCount != Some(0))
  {
    hide Bounded, IsCount;
    BoundedExactly(d);
    OutcomeExactly(d);
  }

  lemma OutcomeExactly(d: Disposition)
    ensures Contradicts(d) <==> CountMismatch(d.totalCount, d.generatedCount, d.nonImageCount, d.unclassifiedCount)
    ensures d.stableCount in {0, 2} ==> (Retained(d) <==> ValidRetained(d))
    ensures Receipted(d) <==> d.receipt.Some? && ValidReceipt(d.receipt.value, d)
    ensures FinalReason(d.reason) <==> TerminalReason(d.reason)
  {
  }

  /** What the capture's own evidence refuses. */
  lemma ProjectableExactly(capture: Capture, c: Classification)
    ensures Projectable(capture, c) <==>
      && 0 <= capture.generation && capture.generation <= 32
      && (forall i :: 0 <= i < |capture.journal| ==>
            capture.journal[i] in {BrokerRestart, DriverRecovery, ObservationRecorded})
      && (c.outcome == Unknown ==> FinalReason(c.reason))
  {
  }
}
