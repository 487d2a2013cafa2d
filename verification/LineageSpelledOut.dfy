/** The checks on a workflow's conversations, each stated over the fields of the workflow: what an
    accepted history is, what a resume is allowed on, and every field of the state it leads to
    (src/conversation-continuation.mjs). */
module LineageSpelledOut {
  import opened Prelude
  import opened Lineage

  /** The turn and terminal markers of the first attempt of a cycle in one generation. */
  predicate MarkersOf(o: Outside, id: Id, cycle: int, generation: int, turn: Marker, terminal: Marker) {
    && turn == TurnMarker(o.token(id, cycle, generation), cycle, 1)
    && terminal == TerminalMarker(o.token(id, cycle, generation), 1)
  }

  /** Record `k` shows that its conversation was exhausted by the provider in this workflow, and that
      its successor, in the same Project, was resumed for it, in generation `k + 1`. */
  predicate Proves(o: Outside, w: Workflow, k: nat)
    requires k < |w.history|
  {
    var g := w.history[k];
    var s, r := g.source, g.receipt;
    && g.predecessor.revision > 0 && g.successor.revision > 0 && r.request.revision > 0
    && o.scope(g.predecessor.url) == Some(g.predecessor.scope) == o.scope(g.successor.url)
    && g.predecessor.scope == g.successor.scope
    && (exists cycle :: 0 < cycle <= w.cycle && MarkersOf(o, w.id, cycle, k, s.turnMarker, s.terminalMarker))
    && s.operation == Exchange(g.predecessor.key, s.turnMarker)
    && s.reason == ConversationExhausted && s.confirmedSend
    && s.terminal.Some? && s.terminal.value.kind == Exhausted && 2 <= s.terminal.value.stableObservations <= 100
    && r.sourceChild == s.child && s.terminal.value.observedAt <= r.resumedAt
    && r.requestDigest == o.requestDigest(r.request)
    && r.request.checkpointDigest == g.checkpointDigest && r.request.bindingKey == g.successor.key
    && r.request.revision == g.successor.revision && r.request.urlDigest == o.urlDigest(g.successor.url)
    && r.request.generation == k + 1 <= 32 && r.request.mode == VerifiedSuccessor
  }

  /** Between two generations: the conversation goes on where it was, and neither times nor cycles go
      back. */
  predicate GoesOn(g: Generation, next: Generation) {
    && next.predecessor.key == g.successor.key && next.predecessor.url == g.successor.url
    && next.predecessor.scope == g.successor.scope && next.predecessor.space == g.successor.space
    && next.predecessor.taskId == g.successor.taskId
    && next.predecessor.revision >= g.successor.revision
    && (next.predecessor.revision == g.successor.revision ==> next.predecessor.head == g.successor.head)
    && g.receipt.resumedAt <= next.receipt.resumedAt
    && g.source.turnMarker.TurnMarker? && next.source.turnMarker.TurnMarker?
    && g.source.turnMarker.cycle <= next.source.turnMarker.cycle
  }

  /** Nothing of the successor is anything of the binding. */
  predicate Apart(a: Binding, b: Binding) {
    a.key != b.key && a.url != b.url && a.space != b.space && a.taskId != b.taskId
  }

  /** The last resume belongs to the conversation the workflow is in. */
  predicate ResumedHere(o: Outside, w: Workflow) {
    var n := |w.history|;
    if w.resume.None? then n == 0
    else
      var r := w.resume.value;
      var key := if w.activeChat.Some? then w.activeChat.value.bindingKey else w.bindingKey;
      && r.request.revision > 0 && r.requestDigest == o.requestDigest(r.request)
      && r.request.bindingKey == key && r.request.generation == n && (n == 0 ==> r.resumedAt >= 0)
      && (n > 0 ==> r.resumedAt >= w.history[n - 1].receipt.resumedAt)
      && (r.request.mode == VerifiedSuccessor ==> n > 0 && r == w.history[n - 1].receipt)
      && (r.request.mode == SameBinding && n > 0 ==>
            && r.request.revision >= w.history[n - 1].successor.revision
            && r.request.urlDigest == o.urlDigest(w.history[n - 1].successor.url))
  }

  /** An accepted history of conversations. */
  predicate History(o: Outside, w: Workflow) {
    var h, n := w.history, |w.history|;
    && n <= 32 && (w.activeChat.Some? <==> n > 0) && (n > 0 ==> w.activeChat.value.generation == n)
    && (n > 0 ==> w.activeChat.value.bindingKey == h[n - 1].successor.key)
    && (n > 0 ==> h[0].predecessor.key == w.bindingKey && h[0].receipt.resumedAt >= 0)
    && (forall k :: 0 <= k < n ==> Proves(o, w, k))
    && (forall k :: 0 < k < n ==> GoesOn(h[k - 1], h[k]))
    && (forall k :: 0 <= k < n ==> Apart(h[0].predecessor, h[k].successor))
    && (forall i, k :: 0 <= i < k < n ==> Apart(h[i].successor, h[k].successor))
    && ResumedHere(o, w)
  }

  lemma ProvesExactly(o: Outside, w: Workflow, k: nat)
    requires k < |w.history| <= 32
    ensures RecordFits(o, w, k, w.history[k]) <==> Proves(o, w, k)
  {
    var s := w.history[k].source;
    if s.turnMarker.TurnMarker? {
      assert MarkersOf(o, w.id, s.turnMarker.cycle, k, s.turnMarker, s.terminalMarker) <==>
             s.turnMarker == TurnOf(o, w.id, s.turnMarker.cycle, k, 1) &&
             s.terminalMarker == TerminalOf(o, w.id, s.turnMarker.cycle, k, 1);
    }
  }

  lemma FollowsExactly(g: Generation, next: Generation)
    ensures Follows(g, next) <==> GoesOn(g, next)
  {
  }

  lemma FreshExactly(h: seq<Generation>)
    ensures Fresh(h, |h|) <==>
            && (forall k :: 0 <= k < |h| ==> Apart(h[0].predecessor, h[k].successor))
            && (forall i, k :: 0 <= i < k < |h| ==> Apart(h[i].successor, h[k].successor))
  {
    if Fresh(h, |h|) {
      forall k | 0 <= k < |h| ensures Apart(h[0].predecessor, h[k].successor) {
        assert !Clash(Chat(h, 0), h[k].successor);
      }
      forall i, k | 0 <= i < k < |h| ensures Apart(h[i].successor, h[k].successor) {
        assert !Clash(Chat(h, i + 1), h[k].successor);
      }
    }
  }

  lemma ResumedExactly(o: Outside, w: Workflow)
    requires |w.history| == GenerationOf(w) <= 32
    ensures ResumeFits(o, w) <==> ResumedHere(o, w)
  {
  }

  /** The validator's chain is exactly such a history. */
  lemma HistoryExactly(o: Outside, w: Workflow)
    ensures IsChain(o, w) <==> History(o, w)
  {
    hide RecordFits, Proves, Follows, GoesOn, Fresh, Apart, ResumeFits, ResumedHere;
    FreshExactly(w.history);
    if |w.history| <= 32 {
      forall k | 0 <= k < |w.history| ensures RecordFits(o, w, k, w.history[k]) <==> Proves(o, w, k) {
        ProvesExactly(o, w, k);
      }
    }
    forall k | 0 < k < |w.history|
      ensures Follows(w.history[k - 1], w.history[k]) <==> GoesOn(w.history[k - 1], w.history[k])
    {
      FollowsExactly(w.history[k - 1], w.history[k]);
    }
    if |w.history| == GenerationOf(w) <= 32 { ResumedExactly(o, w); }
  }

  /** A workflow that is running or paused for a continuation is accepted exactly with such a history,
      any other one without regard to it. */
  lemma AcceptedExactly(o: Outside, w: Workflow)
    ensures Accepted(o, w) <==>
      && w.convergence
      && (w.status == Running || (w.status == HumanRequired && w.phase == ContinuationPaused) ==> History(o, w))
  {
    hide IsChain, History;
    HistoryExactly(o, w);
  }

  // ---- resuming -------------------------------------------------------

  /** The checkpoint is whole and describes this workflow and this child. */
  predicate Describes(o: Outside, c: Checkpoint, w: Workflow, child: Child) {
    var key := if w.activeChat.Some? then w.activeChat.value.bindingKey else w.bindingKey;
    var generation := if w.activeChat.Some? then w.activeChat.value.generation else 0;
    && c.digest == o.checkpointDigest(c.(digest := 0))
    && c.workflow == w.id && c.originalKey == w.bindingKey && c.activeKey == key && c.binding.key == key
    && c.generation == generation && 0 <= generation <= 32 && c.cycle == w.cycle && c.cycle > 0
    && c.binding.revision > 0 && o.scope(c.binding.url) != None
    && w.evidence == Some(c.evidence) && o.wellFormed(c.evidence)
    && MarkersOf(o, w.id, w.cycle, generation, c.source.turnMarker, c.source.terminalMarker)
    && c.source.operation == Exchange(key, c.source.turnMarker)
    && (c.source.terminal.Some? ==> 2 <= c.source.terminal.value.stableObservations <= 100)
    && w.child == Some(c.source.child) && child.id == c.source.child && child.exchange && child.bindingKey == key
    && child.operation == c.source.operation && child.inputDigest == c.source.inputDigest
    && child.turnMarker == Some(c.source.turnMarker) && child.terminalMarker == Some(c.source.terminalMarker)
  }

  lemma CheckpointExactly(o: Outside, c: Checkpoint, w: Workflow, child: Child)
    ensures ValidCheckpoint(o, c, w, child) <==> Describes(o, c, w, child)
  {
  }

  /** A live binding read as evidence: bound, with a head, in a Project that agrees with a declared
      one. */
  predicate ReadsAs(o: Outside, b: LiveBinding, e: Binding) {
    && b.bound && b.revision > 0 && b.head == Some(e.head) && o.scope(b.url) == Some(e.scope)
    && (b.projectUrl.Some? ==> o.startScope(b.projectUrl.value) == Some(e.scope) && e.scope.Some?)
    && e.key == b.key && e.url == b.url && e.space == b.space && e.taskId == b.taskId && e.revision == b.revision
  }

  lemma EvidenceExactly(o: Outside, b: LiveBinding, e: Binding)
    ensures BindingEvidence(o, b) == Some(e) <==> ReadsAs(o, b, e)
  {
  }

  predicate NamesCancellation(r: Option<Reason>) {
    r.Some? && r.value.OtherReason? && r.value.mentionsCancelOrAbandon
  }

  /** The workflow waits for exactly this resume. */
  predicate Waits(o: Outside, w: Workflow, r: ResumeRequest) {
    && w.convergence && History(o, w) && w.status == HumanRequired && w.phase == ContinuationPaused
    && w.review.None? && !w.abandoned && !r.child.abandoned && !NamesCancellation(w.humanRequired)
    && w.checkpoint.Some?
    && var c := w.checkpoint.value;
       Describes(o, c, w, r.child) && c.digest == r.expectedCheckpoint && c.createdAt <= r.at
       && !NamesCancellation(Some(c.source.reason))
  }

  /** The move to another conversation is acknowledged, its source is exhausted, and it is another
      conversation of the same Project. */
  ghost predicate MayMove(o: Outside, c: Checkpoint, r: ResumeRequest, next: LiveBinding) {
    && ReadsAs(o, r.binding, c.binding)
    && (exists e :: ReadsAs(o, next, e) && e.scope == c.binding.scope)
    && r.acknowledged && c.generation < 32
    && c.source.reason == ConversationExhausted && c.source.confirmedSend
    && c.source.terminal.Some? && c.source.terminal.value.kind == Exhausted
    && r.child.status == AwaitsHuman && r.child.phase == ProviderPaused
    && r.child.humanRequired == Some(ConversationExhausted) && r.child.terminal == c.source.terminal
    && r.child.sentTo == Some(r.binding.url)
    && next.key != r.binding.key && next.url != r.binding.url && next.space != r.binding.space
    && next.taskId != r.binding.taskId
  }

  /** The paused exchange has been reconciled in its own conversation and its answer is stored. */
  ghost predicate MayStay(o: Outside, c: Checkpoint, r: ResumeRequest) {
    var b := r.binding;
    && (exists e :: ReadsAs(o, b, e))
    && b.key == c.activeKey && b.url == c.binding.url && b.space == c.binding.space && b.taskId == c.binding.taskId
    && r.child.status == Succeeded && r.child.phase == HeadCommitted && r.child.result.Some?
    && var a := r.child.result.value;
       && a.reconciled && !a.endedByProvider && a.url == b.url && a.responseDigest.Some?
       && a.storedDigest == a.responseDigest
       && b.head == Some(Head(a.fingerprint, a.lastContent, a.lastMessage))
  }

  lemma GuardsExactly(o: Outside, w: Workflow, r: ResumeRequest)
    ensures GuardsPass(o, w, r) <==>
      && Waits(o, w, r)
      && match r.successor case Some(next) => MayMove(o, w.checkpoint.value, r, next)
                           case None => MayStay(o, w.checkpoint.value, r)
  {
    hide History, Describes, ReadsAs, IsChain, ValidCheckpoint, BindingEvidence;
    AcceptedExactly(o, w);
    if w.checkpoint.Some? {
      var c := w.checkpoint.value;
      CheckpointExactly(o, c, w, r.child);
      EvidenceExactly(o, r.binding, c.binding);
      ReadsSomehow(o, r.binding);
      if r.successor.Some? {
        ReadsSomehow(o, r.successor.value);
        ScopeRead(o, r.successor.value, c.binding.scope);
      }
    }
  }

  lemma ReadsSomehow(o: Outside, b: LiveBinding)
    ensures BindingEvidence(o, b).Some? <==> exists e :: ReadsAs(o, b, e)
  {
    hide BindingEvidence, ReadsAs;
    if BindingEvidence(o, b).Some? { EvidenceExactly(o, b, BindingEvidence(o, b).value); }
    if e :| ReadsAs(o, b, e) { EvidenceExactly(o, b, e); }
  }

  lemma ScopeRead(o: Outside, b: LiveBinding, scope: Option<Scope>)
    ensures (BindingEvidence(o, b).Some? && BindingEvidence(o, b).value.scope == scope) <==>
            exists e :: ReadsAs(o, b, e) && e.scope == scope
  {
    hide BindingEvidence, ReadsAs;
    if BindingEvidence(o, b).Some? { EvidenceExactly(o, b, BindingEvidence(o, b).value); }
    if e :| ReadsAs(o, b, e) && e.scope == scope { EvidenceExactly(o, b, e); }
  }

  /** Every field of the state a resume leads to. */
  lemma ResumedStateExactly(o: Outside, w: Workflow, r: ResumeRequest)
    requires GuardsPass(o, w, r)
    ensures var n, c, moved := Resumed(o, w, r), w.checkpoint.value, r.successor.Some?;
      var b := if moved then r.successor.value else r.binding;
      var generation := c.generation + if moved then 1 else 0;
      && n.status == Running && n.phase == (if moved then CodexCaptured else ChatgptRunning) && n.updatedAt == r.at
      && n.humanRequired.None? && !n.error && n.checkpoint.None? && n.preparation.None?
      && n.child == (if moved then None else w.child)
      && n.activeChat == (if generation == 0 then w.activeChat else Some(ActiveChat(b.key, generation)))
      && n.resume.Some?
      && n.resume.value.sourceChild == r.child.id && n.resume.value.resumedAt == r.at
      && n.resume.value.request == Request(c.digest, b.key, b.revision, o.urlDigest(b.url), generation,
                                           if moved then VerifiedSuccessor else SameBinding)
      && n.resume.value.requestDigest == o.requestDigest(n.resume.value.request)
      && |n.history| == |w.history| + (if moved then 1 else 0) && w.history <= n.history
      && (moved ==>
            var g := n.history[|w.history|];
            && g.checkpointDigest == c.digest && g.source == c.source && g.predecessor == c.binding
            && ReadsAs(o, b, g.successor) && g.receipt == n.resume.value)
      && n == w.(phase := n.phase, status := n.status, updatedAt := n.updatedAt, activeChat := n.activeChat,
                 resume := n.resume, humanRequired := n.humanRequired, error := n.error, checkpoint := n.checkpoint,
                 preparation := n.preparation, history := n.history, child := n.child)
  {
    hide IsChain, ValidCheckpoint, AnswerReconciled;
    GenerationsCount(w, o, r);
  }

  lemma GenerationsCount(w: Workflow, o: Outside, r: ResumeRequest)
    requires GuardsPass(o, w, r)
    ensures w.checkpoint.value.generation >= 0
  {
    hide IsChain, AnswerReconciled, SuccessorVerified;
  }

  /** Past the guards: the clock, the conversation the chain ended with, and nothing used twice. */
  lemma ContinuesExactly(o: Outside, w: Workflow, r: ResumeRequest)
    requires GuardsPass(o, w, r)
    ensures var h, n, c := w.history, |w.history|, w.checkpoint.value;
      ContinuesChain(o, w, r) <==>
      && r.at >= (if n == 0 then 0 else h[n - 1].receipt.resumedAt)
      && (r.successor.Some? ==>
            var s := BindingEvidence(o, r.successor.value).value;
            && c.source.terminal.value.observedAt <= r.at
            && (n > 0 ==>
                  && c.binding == h[n - 1].successor.(revision := c.binding.revision, head := c.binding.head)
                  && c.binding.revision >= h[n - 1].successor.revision
                  && (c.binding.revision == h[n - 1].successor.revision ==> c.binding.head == h[n - 1].successor.head)
                  && Apart(h[0].predecessor, s) && forall k :: 0 <= k < n ==> Apart(h[k].successor, s)))
      && (r.successor.None? && n > 0 ==>
            && r.binding.revision >= h[n - 1].successor.revision
            && o.urlDigest(r.binding.url) == o.urlDigest(h[n - 1].successor.url))
  {
    hide IsChain, ValidCheckpoint, AnswerReconciled, BindingEvidence;
    var h, n := w.history, |w.history|;
    if r.successor.Some? && n > 0 {
      var s := BindingEvidence(o, r.successor.value).value;
      NothingTwice(h, s);
      BindingsAlike(h[n - 1].successor, w.checkpoint.value.binding);
    }
  }

  lemma BindingsAlike(last: Binding, next: Binding)
    ensures SameImmutableBinding(next, last) <==> next == last.(revision := next.revision, head := next.head)
  {
  }

  lemma NothingTwice(h: seq<Generation>, s: Binding)
    requires h != []
    ensures (forall k :: 0 <= k <= |h| ==> !Clash(Chat(h, k), s)) <==>
            Apart(h[0].predecessor, s) && forall k :: 0 <= k < |h| ==> Apart(h[k].successor, s)
  {
    if forall k :: 0 <= k <= |h| ==> !Clash(Chat(h, k), s) {
      assert !Clash(Chat(h, 0), s);
      forall k | 0 <= k < |h| ensures Apart(h[k].successor, s) { assert !Clash(Chat(h, k + 1), s); }
    }
  }

  // ---- promoting ------------------------------------------------------

  /** The successor's own review: prepared for this checkpoint, of this candidate, by its first or second
      attempt in the next generation, ended in the conversation and stored there. */
  predicate ReviewEnded(o: Outside, w: Workflow, c: Checkpoint, plan: Preparation, intent: SuccessorReview,
                        successor: LiveBinding, done: Child)
  {
    var attempt := if intent.attempt.None? then 1 else intent.attempt.value;
    var token := o.token(w.id, w.cycle, c.generation + 1);
    && attempt in {1, 2}
    && plan == Preparation(true, c.digest, successor.key, successor.space, successor.taskId, successor.target)
    && intent.bindingKey == successor.key && intent.candidateDigest == c.evidence.candidateDigest
    && intent.turnMarker == TurnMarker(token, w.cycle, attempt)
    && intent.terminalMarker == TerminalMarker(token, attempt)
    && done.exchange && done.successorParent == Some(w.id) && done.bindingKey == successor.key
    && done.operation == Exchange(successor.key, intent.turnMarker) && done.inputDigest == intent.promptDigest
    && done.turnMarker == Some(intent.turnMarker) && done.terminalMarker == Some(intent.terminalMarker)
    && done.status == Succeeded && done.phase == HeadCommitted && done.result.Some?
    && var a := done.result.value;
       && a.url == successor.url && !a.endedByProvider && a.responseDigest.Some?
       && successor.head == Some(Head(a.fingerprint, a.responseDigest.value, a.lastMessage))
       && (successor.lastExchange == Some(done.id) || (a.reconciled && successor.lastReconciled == Some(done.id)))
  }

  lemma ReviewExactly(o: Outside, w: Workflow, c: Checkpoint, plan: Preparation, intent: SuccessorReview,
                      successor: LiveBinding, done: Child)
    ensures ReviewedSuccessor(o, w, c, plan, intent, successor, done) <==>
            ReviewEnded(o, w, c, plan, intent, successor, done)
  {
  }

  /** When a successor is promoted, and what the promotion adds to the resume. */
  lemma PromotionExactly(o: Outside, w: Workflow, child: Child, binding: LiveBinding, successor: LiveBinding,
                         done: Child, at: int)
    ensures var ready := w.(status := HumanRequired, phase := ContinuationPaused, review := None);
      MayPromote(o, w, child, binding, successor, done, at) <==>
      && w.continuesOnExhaustion && !w.abandoned
      && (if w.activeChat.None? then 0 else w.activeChat.value.generation) < 32
      && ((w.status == Running && w.phase == SuccessorReviewing)
          || (w.status == HumanRequired && w.phase == ContinuationPaused && !NamesCancellation(w.humanRequired)))
      && w.checkpoint.Some? && w.preparation.Some? && w.review.Some?
      && ReviewEnded(o, w, w.checkpoint.value, w.preparation.value, w.review.value, successor, done)
      && MayResume(o, ready, ResumeRequest(child, binding, Some(successor), w.checkpoint.value.digest, true, at))
    ensures MayPromote(o, w, child, binding, successor, done, at) ==>
      var ready := w.(status := HumanRequired, phase := ContinuationPaused, review := None);
      var r := ResumeRequest(child, binding, Some(successor), w.checkpoint.value.digest, true, at);
      var n := Promoted(o, w, child, binding, successor, done, at);
      n == Resumed(o, ready, r).(phase := ChatgptRunning, child := Some(done.id),
                                 resumedCheckpoint := Some(w.checkpoint.value.digest))
  {
    hide MayResume, ReviewedSuccessor, ReviewEnded, Resumed;
    if w.checkpoint.Some? && w.preparation.Some? && w.review.Some? {
      ReviewExactly(o, w, w.checkpoint.value, w.preparation.value, w.review.value, successor, done);
    }
  }
}
