/** When a pair of attachment observations is which outcome, stated over what was observed: the flags,
    the counts, the lists and the times (src/attachment-execution-receipt.mjs,
    `structuralAttachmentOutcome`, `classifyAttachmentExecutionObservations`). */
module AttachmentOutcomes {
  import opened Prelude
  import opened Attachment

  function Indices(artifacts: seq<Artifact>, kind: Kind): set<int> {
    set i | 0 <= i < |artifacts| && artifacts[i].kind == kind
  }

  function IndicesFrom(artifacts: seq<Artifact>, kind: Kind, from: nat): set<int> {
    set i | from <= i < |artifacts| && artifacts[i].kind == kind
  }

  lemma {:induction false} CountsFrom(artifacts: seq<Artifact>, kind: Kind, from: nat)
    requires from <= |artifacts|
    ensures CountOf(artifacts[from..], kind) == |IndicesFrom(artifacts, kind, from)|
    decreases |artifacts| - from
  {
    if from == |artifacts| {
      assert IndicesFrom(artifacts, kind, from) == {};
    } else {
      CountsFrom(artifacts, kind, from + 1);
      assert artifacts[from..][1..] == artifacts[from + 1..] && artifacts[from..][0] == artifacts[from];
      var later := IndicesFrom(artifacts, kind, from + 1);
      assert from !in later;
      assert IndicesFrom(artifacts, kind, from) == if artifacts[from].kind == kind then later + {from} else later;
    }
  }

  lemma CountsIndices(artifacts: seq<Artifact>, kind: Kind)
    ensures CountOf(artifacts, kind) == |Indices(artifacts, kind)|
  {
    hide CountOf;
    CountsFrom(artifacts, kind, 0);
    assert artifacts[0..] == artifacts && IndicesFrom(artifacts, kind, 0) == Indices(artifacts, kind);
  }

  predicate Within(n: Option<int>) {
    n == None || 0 <= n.value <= 64
  }

  function Counts(o: Observation): set<Option<int>> {
    {o.branchCount, o.totalCount, o.generatedCount, o.nonImageCount, o.unclassifiedCount,
     o.saveControlCount, o.downloadControlCount, o.reactPropCount}
  }

  lemma CountsWithin(o: Observation)
    ensures (forall n :: n in Counts(o) ==> Within(n)) <==>
            && IsCount(o.branchCount) && IsCount(o.totalCount) && IsCount(o.generatedCount) && IsCount(o.nonImageCount)
            && IsCount(o.unclassifiedCount) && IsCount(o.saveControlCount) && IsCount(o.downloadControlCount)
            && IsCount(o.reactPropCount)
    ensures None !in Counts(o) <==> AllCounted(o)
  {
    assert o.branchCount in Counts(o) && o.totalCount in Counts(o) && o.generatedCount in Counts(o)
           && o.nonImageCount in Counts(o) && o.unclassifiedCount in Counts(o) && o.saveControlCount in Counts(o)
           && o.downloadControlCount in Counts(o) && o.reactPropCount in Counts(o);
  }

  /** Unsupported or unbounded evidence is none at all. */
  predicate InBounds(o: Observation) {
    && o.withinCanonicalBounds && o.sequence >= 1
    && (forall n :: n in Counts(o) ==> Within(n))
    && |o.branches| <= 64 && |o.nodes| <= 64 && |o.artifacts| <= 64 && |o.associations| <= 64
    && (forall i, j :: 0 <= i < j < |o.branches| ==> o.branches[i] != o.branches[j])
    && (forall i, j :: 0 <= i < j < |o.nodes| ==> o.nodes[i].message != o.nodes[j].message)
    && (forall i, j :: 0 <= i < j < |o.artifacts| ==> o.artifacts[i].id != o.artifacts[j].id)
    && (forall i, j :: 0 <= i < j < |o.associations| ==>
          o.associations[i].id != o.associations[j].id && o.associations[i].control != o.associations[j].control)
    && (forall i :: 0 <= i < |o.artifacts| ==> Identified(o.artifacts[i]))
  }

  /** A generated image has all its identities and nothing else has any. */
  predicate Identified(a: Artifact) {
    {a.dom.Some?, a.file.Some?, a.generation.Some?, a.graph.Some?, a.message.Some?} == {a.kind == GeneratedImage}
  }

  lemma IdentitiesKnown(a: Artifact)
    ensures ValidArtifact(a) <==> Identified(a)
  {
    var known := {a.dom.Some?, a.file.Some?, a.generation.Some?, a.graph.Some?, a.message.Some?};
    assert a.dom.Some? in known && a.file.Some? in known && a.generation.Some? in known && a.graph.Some? in known
           && a.message.Some? in known;
  }

  lemma InBoundsExactly(o: Observation)
    ensures ValidObservation(o) <==> InBounds(o)
  {
    hide ValidArtifact, Identified, IsCount, Within, Counts;
    CountsWithin(o);
    forall i | 0 <= i < |o.artifacts| ensures ValidArtifact(o.artifacts[i]) <==> Identified(o.artifacts[i]) {
      IdentitiesKnown(o.artifacts[i]);
    }
  }

  /** The page had come to rest and showed everything. */
  predicate AtRest(o: Observation) {
    && o.graphComplete && !o.cursorPresent && !o.graphTruncated && o.generationTerminal && !o.hydrationPending
    && o.surfaceComplete && UnknownAction !in o.actions
    && forall i :: 0 <= i < |o.nodes| ==> o.nodes[i].status == Complete && o.nodes[i].terminal
  }

  predicate Counted(o: Observation) {
    None !in Counts(o)
  }

  /** Every count is that of what it counts, and what is named is there. */
  predicate Adds(o: Observation) {
    && o.totalCount == Some(|o.artifacts|)
    && o.generatedCount == Some(|Indices(o.artifacts, GeneratedImage)|)
    && o.nonImageCount == Some(|Indices(o.artifacts, NonImage)|)
    && o.unclassifiedCount == Some(|Indices(o.artifacts, Unclassified)|)
    && o.saveControlCount == Some(|o.associations|) && o.branchCount == Some(|o.branches|)
    && (o.selectedBranch.Some? ==> o.selectedBranch.value in o.branches)
    && (o.response.Some? ==> exists i :: 0 <= i < |o.nodes| && o.nodes[i].message == o.response.value)
  }

  lemma {:induction false} KindsAddUp(artifacts: seq<Artifact>)
    ensures CountOf(artifacts, GeneratedImage) + CountOf(artifacts, NonImage)
            + CountOf(artifacts, Unclassified) == |artifacts|
  {
    if artifacts != [] { KindsAddUp(artifacts[1..]); }
  }

  lemma AddsExactly(o: Observation)
    requires AllCounted(o)
    ensures Coherent(o) <==> Adds(o)
  {
    hide CountOf;
    CountsIndices(o.artifacts, GeneratedImage);
    CountsIndices(o.artifacts, NonImage);
    CountsIndices(o.artifacts, Unclassified);
    KindsAddUp(o.artifacts);
  }

  /** An observation that can be classified. */
  predicate Sound(o: Observation) {
    && InBounds(o) && AtRest(o) && Counted(o) && Adds(o)
    && forall i :: 0 <= i < |o.artifacts| ==> o.artifacts[i].kind != Unclassified
  }

  lemma NoneUnclassified(artifacts: seq<Artifact>)
    ensures |Indices(artifacts, Unclassified)| == 0 <==>
            forall i :: 0 <= i < |artifacts| ==> artifacts[i].kind != Unclassified
  {
    var found := Indices(artifacts, Unclassified);
    if |found| == 0 {
      forall i | 0 <= i < |artifacts| ensures artifacts[i].kind != Unclassified { assert i !in found; }
    } else {
      var i :| i in found;
    }
  }

  /** Exactly which reason stands against an observation: the first that applies. */
  lemma StructuralExactly(o: Observation)
    ensures StructuralReason(o) ==
      if !InBounds(o) then Some(UnsupportedEvidence)
      else if !o.graphComplete || o.cursorPresent then Some(IncompleteGraph)
      else if o.graphTruncated then Some(TruncatedGraph)
      else if !o.generationTerminal then Some(GenerationActive)
      else if o.hydrationPending then Some(HydrationPending)
      else if !AtRest(o) || !Counted(o) then Some(UnsupportedEvidence)
      else if !Adds(o) then Some(IncoherentCounts)
      else if !Sound(o) then Some(UnclassifiedArtifact)
      else None
    ensures StructuralReason(o).None? <==> Sound(o)
  {
    hide ValidObservation, InBounds, Coherent, Adds, HasNode;
    InBoundsExactly(o);
    CountsWithin(o);
    if AllCounted(o) {
      AddsExactly(o);
      NoneUnclassified(o.artifacts);
      UnclassifiedCount(o);
    }
  }

  lemma UnclassifiedCount(o: Observation)
    ensures Adds(o) ==> o.unclassifiedCount == Some(|Indices(o.artifacts, Unclassified)|)
  {
  }

  /** The second observation follows the first at once, within two seconds, and shows the same. */
  predicate Repeats(first: Observation, final: Observation) {
    && final.sequence - first.sequence == 1
    && final.observedAt >= first.observedAt + 750 && final.observedAt <= first.observedAt + 2_000
    && final == first.(sequence := final.sequence, observedAt := final.observedAt)
  }

  lemma RepeatsExactly(first: Observation, final: Observation)
    ensures Stable(first, final) <==> Repeats(first, final)
  {
    if Projection(first) == Projection(final) {
      assert final == Projection(final).(sequence := final.sequence, observedAt := final.observedAt);
      assert Projection(first).(sequence := final.sequence, observedAt := final.observedAt) ==
             first.(sequence := final.sequence, observedAt := final.observedAt);
    }
    if final == first.(sequence := final.sequence, observedAt := final.observedAt) {
      assert Projection(final) == first.(sequence := 0, observedAt := 0);
    }
  }

  /** Two sound observations that agree. */
  predicate SoundPair(first: Observation, final: Observation) {
    Sound(first) && Sound(final) && Repeats(first, final)
  }

  predicate Images(o: Observation, low: nat) {
    |Indices(o.artifacts, GeneratedImage)| >= low
  }

  /** The one image is the one that the one association saves. */
  predicate SavesImage(o: Observation) {
    && |o.associations| == 1 && SaveImage in o.actions && |o.artifacts| == 1
    && Some(o.associations[0].graph) == o.artifacts[0].graph && Some(o.associations[0].dom) == o.artifacts[0].dom
    && Some(o.associations[0].id) == o.saveAssociation
  }

  /** Exactly when a pair is exactly one, multiple or zero, and which kind of multiple. */
  lemma OutcomesExactly(first: Observation, final: Observation)
    ensures var c, o := Classify(first, final), final;
      && (c.outcome == ExactlyOne <==>
            && SoundPair(first, final) && |o.branches| == 1 && |o.artifacts| == 1 && Images(o, 1)
            && o.response.Some? && o.selectedBranch.Some? && SavesImage(o))
      && (c.outcome == Multiple <==>
            SoundPair(first, final) && (|o.branches| > 1 || Images(o, 2) || (Images(o, 1) && |o.artifacts| > 1)))
      && (c.outcome == Zero <==>
            && SoundPair(first, final) && |o.branches| <= 1 && !Images(o, 1)
            && |o.associations| == 0 && o.saveAssociation.None?)
      && (c.reason == MultipleResponseBranches <==> SoundPair(first, final) && |o.branches| > 1)
      && (c.reason == MultipleGeneratedImages <==> SoundPair(first, final) && |o.branches| <= 1 && Images(o, 2))
      && (c.reason == MultipleTotalArtifacts <==>
            SoundPair(first, final) && |o.branches| <= 1 && Images(o, 1) && !Images(o, 2) && |o.artifacts| > 1)
  {
    hide StructuralReason, InBounds, AtRest, Stable, Repeats, Indices;
    SoundPairExactly(first, final);
    if Sound(final) { SingleImage(final); }
  }

  /** And why a pair is unknown: the first observation's reason, then the second's, then that they
      differ, then what is wrong with the image's association. */
  lemma UnknownsExactly(first: Observation, final: Observation)
    requires Classify(first, final).outcome == Unknown
    ensures var c, o := Classify(first, final), final;
      var single := |o.branches| == 1 && |o.artifacts| == 1 && Images(o, 1);
      Some(c.reason) ==
        if !Sound(first) then StructuralReason(first)
        else if !Sound(final) then StructuralReason(final)
        else if !Repeats(first, final) then Some(UnstableEvidence)
        else if single && (o.response.None? || o.selectedBranch.None?) then Some(UnsupportedEvidence)
        else if single && |o.associations| == 0 && o.saveAssociation.None? && SaveImage !in o.actions
        then Some(UnsupportedSaveAssociation)
        else if single || !Images(o, 1) then Some(AmbiguousSaveAssociation)
        else Some(IncoherentCounts)
  {
    hide StructuralReason, InBounds, AtRest, Stable, Repeats, Indices, Counts;
    StructuralExactly(first);
    StructuralExactly(final);
    SoundPairExactly(first, final);
    RepeatsExactly(first, final);
    if Sound(final) { SingleImage(final); }
  }

  predicate IsStructural(r: Reason) {
    r in {UnsupportedEvidence, IncompleteGraph, TruncatedGraph, GenerationActive, HydrationPending, IncoherentCounts,
          UnclassifiedArtifact}
  }

  lemma SoundPairExactly(first: Observation, final: Observation)
    ensures SoundPair(first, final) <==>
            StructuralReason(first).None? && StructuralReason(final).None? && Stable(first, final)
    ensures Sound(final) ==> AllCounted(final)
    ensures StructuralReason(first).Some? ==> IsStructural(StructuralReason(first).value)
    ensures StructuralReason(final).Some? ==> IsStructural(StructuralReason(final).value)
  {
    hide InBounds, Adds, Repeats, Stable, AtRest, Projection;
    StructuralExactly(first);
    StructuralExactly(final);
    RepeatsExactly(first, final);
  }

  lemma SingleImage(o: Observation)
    requires Sound(o)
    ensures o.totalCount == Some(|o.artifacts|) && o.generatedCount == Some(|Indices(o.artifacts, GeneratedImage)|)
    ensures o.nonImageCount == Some(|o.artifacts| - |Indices(o.artifacts, GeneratedImage)|)
    ensures o.saveControlCount == Some(|o.associations|) && o.branchCount == Some(|o.branches|)
  {
    CountsIndices(o.artifacts, GeneratedImage);
    CountsIndices(o.artifacts, NonImage);
    CountsIndices(o.artifacts, Unclassified);
    KindsAddUp(o.artifacts);
    NoneUnclassified(o.artifacts);
  }
}
