/** The chain of conversations a convergence workflow has moved through, its validator and the two
    operations that extend it (src/conversation-continuation.mjs,
    `validateConvergenceContinuationLineage`, `validateContinuationCheckpoint`,
    `buildConvergenceResume`, `buildSuccessorPromotion`). Identities, addresses and digests are
    numbers, times are milliseconds; digest functions and the reading of a Project from an address
    are parameters. */
module Lineage {
  import opened Prelude

  type Id = nat
  type Key = nat
  type Url = nat
  type Scope = nat
  type Digest = nat

  const MAX_CHAT_GENERATIONS: int := 32

  datatype Head = Head(fingerprint: Digest, content: Digest, message: Id)

  /** The evidence kept of a conversation: its immutable identity, its revision and its head. */
  datatype Binding = Binding(
    key: Key, url: Url, scope: Option<Scope>, space: Id, taskId: Id, revision: int, head: Head)

  /** The turn and terminal markers of a review; any other text is `OtherMarker`. */
  datatype Marker = TurnMarker(token: Digest, cycle: int, attempt: int) | TerminalMarker(token: Digest, attempt: int)
    | OtherMarker(text: Id)

  datatype OperationKey = Exchange(key: Key, marker: Marker) | OtherOperation(text: Id)

  datatype Reason = ConversationExhausted | OtherReason(code: Id, mentionsCancelOrAbandon: bool)

  datatype TerminalKind = Stopped | Exhausted | ProviderError | QuotaLimited

  datatype Terminal = Terminal(kind: TerminalKind, signal: Digest, stableObservations: int, observedAt: int)

  datatype Source = Source(
    child: Id, operation: OperationKey, inputDigest: Digest, turnMarker: Marker, terminalMarker: Marker,
    reason: Reason, terminal: Option<Terminal>, confirmedSend: bool)

  datatype Mode = SameBinding | VerifiedSuccessor

  datatype Request = Request(
    checkpointDigest: Digest, bindingKey: Key, revision: int, urlDigest: Digest, generation: int, mode: Mode)

  datatype Receipt = Receipt(sourceChild: Id, resumedAt: int, request: Request, requestDigest: Digest)

  /** One step from a conversation to its successor (`chatGenerations`). */
  datatype Generation = Generation(
    checkpointDigest: Digest, source: Source, predecessor: Binding, successor: Binding, receipt: Receipt)

  /** Contract, candidate, request, prior review and Codex thread, which resuming only compares. */
  datatype Evidence = Evidence(contract: Id, candidate: Id, candidateDigest: Digest, rest: Digest)

  datatype Checkpoint = Checkpoint(
    digest: Digest, workflow: Id, originalKey: Key, activeKey: Key, generation: int, cycle: int, createdAt: int,
    evidence: Evidence, binding: Binding, source: Source)

  datatype Status = Running | HumanRequired | OtherStatus

  datatype Phase = ChatgptRunning | CodexCaptured | ContinuationPaused | SuccessorPreparing | SuccessorReviewing
    | OtherPhase

  datatype ActiveChat = ActiveChat(bindingKey: Key, generation: int)

  datatype Preparation = Preparation(
    prepared: bool, checkpointDigest: Digest, bindingKey: Key, space: Id, taskId: Id, target: Id)

  datatype SuccessorReview = SuccessorReview(
    attempt: Option<int>, bindingKey: Key, turnMarker: Marker, terminalMarker: Marker,
    candidateDigest: Digest, promptDigest: Digest)

  datatype Workflow = Workflow(
    convergence: bool, id: Id, bindingKey: Key, status: Status, phase: Phase, cycle: int, child: Option<Id>,
    activeChat: Option<ActiveChat>, resume: Option<Receipt>, history: seq<Generation>,
    checkpoint: Option<Checkpoint>, preparation: Option<Preparation>, review: Option<SuccessorReview>,
    evidence: Option<Evidence>, humanRequired: Option<Reason>, error: bool, abandoned: bool,
    continuesOnExhaustion: bool, resumedCheckpoint: Option<Digest>, updatedAt: int)

  /** A binding as the store holds it. */
  datatype LiveBinding = LiveBinding(
    bound: bool, key: Key, url: Url, projectUrl: Option<Url>, revision: int, head: Option<Head>,
    space: Id, taskId: Id, target: Id, lastExchange: Option<Id>, lastReconciled: Option<Id>)

  datatype ExchangeResult = ExchangeResult(
    url: Url, fingerprint: Digest, lastContent: Digest, lastMessage: Id, responseDigest: Option<Digest>,
    storedDigest: Option<Digest>, reconciled: bool, endedByProvider: bool)

  datatype ChildStatus = Succeeded | AwaitsHuman | OtherChildStatus

  datatype ChildPhase = HeadCommitted | ProviderPaused | OtherChildPhase

  datatype Child = Child(
    id: Id, exchange: bool, bindingKey: Key, operation: OperationKey, inputDigest: Digest,
    turnMarker: Option<Marker>, terminalMarker: Option<Marker>, status: ChildStatus, phase: ChildPhase,
    abandoned: bool, humanRequired: Option<Reason>, terminal: Option<Terminal>, sentTo: Option<Url>,
    result: Option<ExchangeResult>, successorParent: Option<Id>)

  /** What the model does not compute: digests, the Project of a conversation address and of a
      starting address (`None` for an address the program refuses), and the checks of contract and
      candidate. */
  datatype Outside = Outside(
    token: (Id, int, int) -> Digest, urlDigest: Url -> Digest, requestDigest: Request -> Digest,
    checkpointDigest: Checkpoint -> Digest, scope: Url -> Option<Option<Scope>>,
    startScope: Url -> Option<Option<Scope>>, wellFormed: Evidence -> bool)

  // ---- identities -----------------------------------------------------

  function TurnOf(o: Outside, workflow: Id, cycle: int, generation: int, attempt: int): Marker {
    TurnMarker(o.token(workflow, cycle, generation), cycle, attempt)
  }

  function TerminalOf(o: Outside, workflow: Id, cycle: int, generation: int, attempt: int): Marker {
    TerminalMarker(o.token(workflow, cycle, generation), attempt)
  }

  function ActiveKey(w: Workflow): Key {
    if w.activeChat.Some? then w.activeChat.value.bindingKey else w.bindingKey
  }

  function GenerationOf(w: Workflow): int {
    if w.activeChat.Some? then w.activeChat.value.generation else 0
  }

  predicate SameImmutableBinding(a: Binding, b: Binding) {
    a.key == b.key && a.url == b.url && a.scope == b.scope && a.space == b.space && a.taskId == b.taskId
  }

  /** Two bindings share something that identifies a conversation or its task space. */
  predicate Clash(a: Binding, b: Binding) {
    a.key == b.key || a.url == b.url || a.space == b.space || a.taskId == b.taskId
  }

  predicate ValidReceipt(o: Outside, r: Receipt) {
    && 0 <= r.request.generation <= MAX_CHAT_GENERATIONS && r.request.revision >= 1
    && r.requestDigest == o.requestDigest(r.request)
  }

  predicate ValidTerminal(t: Option<Terminal>) {
    t.Some? ==> 2 <= t.value.stableObservations <= 100
  }

  // ---- the chain, stated globally ---------------------------------------

  /** The conversations of the chain: the first predecessor, then every successor. */
  function Chat(history: seq<Generation>, k: nat): Binding
    requires k <= |history| && |history| > 0
  {
    if k == 0 then history[0].predecessor else history[k - 1].successor
  }

  predicate CycleFits(s: Source, limit: int) {
    s.turnMarker.TurnMarker? && 1 <= s.turnMarker.cycle <= limit
  }

  /** A record proves on its own that generation `index` was exhausted and handed to its successor. */
  predicate RecordFits(o: Outside, w: Workflow, index: nat, g: Generation) {
    && g.predecessor.revision >= 1 && g.successor.revision >= 1
    && o.scope(g.predecessor.url) == Some(g.predecessor.scope) && o.scope(g.successor.url) == Some(g.successor.scope)
    && g.predecessor.scope == g.successor.scope
    && CycleFits(g.source, w.cycle)
    && g.source.turnMarker == TurnOf(o, w.id, g.source.turnMarker.cycle, index, 1)
    && g.source.terminalMarker == TerminalOf(o, w.id, g.source.turnMarker.cycle, index, 1)
    && g.source.operation == Exchange(g.predecessor.key, g.source.turnMarker)
    && g.source.reason.ConversationExhausted? && g.source.confirmedSend
    && g.source.terminal.Some? && g.source.terminal.value.kind.Exhausted? && ValidTerminal(g.source.terminal)
    && ValidReceipt(o, g.receipt)
    && g.receipt.request == Request(g.checkpointDigest, g.successor.key, g.successor.revision,
                                    o.urlDigest(g.successor.url), index + 1, VerifiedSuccessor)
    && g.receipt.sourceChild == g.source.child
    && g.source.terminal.value.observedAt <= g.receipt.resumedAt
  }

  /** `next` is the conversation `last`, at the same revision and head or a later revision. */
  predicate Continues(last: Binding, next: Binding) {
    && SameImmutableBinding(next, last) && next.revision >= last.revision
    && (next.revision == last.revision ==> next.head == last.head)
  }

  predicate Follows(g: Generation, next: Generation) {
    && Continues(g.successor, next.predecessor)
    && g.receipt.resumedAt <= next.receipt.resumedAt
    && g.source.turnMarker.TurnMarker? && next.source.turnMarker.TurnMarker?
    && g.source.turnMarker.cycle <= next.source.turnMarker.cycle
  }

  predicate ResumeFits(o: Outside, w: Workflow) {
    var h := w.history;
    match w.resume
    case None => GenerationOf(w) == 0
    case Some(latest) =>
      && ValidReceipt(o, latest)
      && latest.request.bindingKey == ActiveKey(w) && latest.request.generation == GenerationOf(w)
      && latest.resumedAt >= (if h == [] then 0 else h[|h| - 1].receipt.resumedAt)
      && (latest.request.mode.VerifiedSuccessor? ==> h != [] && latest == h[|h| - 1].receipt)
      && (latest.request.mode.SameBinding? && h != [] ==>
          && latest.request.revision >= h[|h| - 1].successor.revision
          && latest.request.urlDigest == o.urlDigest(h[|h| - 1].successor.url))
  }

  predicate Records(o: Outside, w: Workflow, n: nat)
    requires n <= |w.history|
  {
    forall k :: 0 <= k < n ==> RecordFits(o, w, k, w.history[k])
  }

  predicate Linked(h: seq<Generation>, n: nat)
    requires n <= |h|
  {
    forall k :: 0 < k < n ==> Follows(h[k - 1], h[k])
  }

  /** No successor among the first `n` repeats anything of an earlier conversation. */
  predicate Fresh(h: seq<Generation>, n: nat)
    requires n <= |h|
  {
    forall i, k :: 0 <= i <= k < n ==> !Clash(Chat(h, i), h[k].successor)
  }

  /** The first `n` records form a chain. */
  predicate ChainUpTo(o: Outside, w: Workflow, n: nat)
    requires n <= |w.history|
  {
    && Records(o, w, n) && Linked(w.history, n) && Fresh(w.history, n)
    && (n > 0 ==> w.history[0].predecessor.key == w.bindingKey && w.history[0].receipt.resumedAt >= 0)
  }

  predicate ValidActiveChat(w: Workflow) {
    w.activeChat.Some? ==> 1 <= w.activeChat.value.generation <= MAX_CHAT_GENERATIONS
  }

  /** The chain of conversations of a workflow, as a statement about all generations at once. */
  predicate IsChain(o: Outside, w: Workflow) {
    var h := w.history;
    && ValidActiveChat(w) && |h| == GenerationOf(w) && ChainUpTo(o, w, |h|)
    && (h != [] ==> h[|h| - 1].successor.key == ActiveKey(w))
    && ResumeFits(o, w)
  }

  predicate Checked(w: Workflow) {
    w.status.Running? || (w.status.HumanRequired? && w.phase.ContinuationPaused?)
  }

  predicate Accepted(o: Outside, w: Workflow) {
    w.convergence && (Checked(w) ==> IsChain(o, w))
  }

  // ---- the validator ----------------------------------------------------

  /** What one record must satisfy given what was seen before it. */
  predicate RecordAdmitted(
    o: Outside, w: Workflow, index: nat, g: Generation, preceding: Option<Binding>, precedingTime: int,
    precedingCycle: int, seen: seq<Binding>)
  {
    && RecordFits(o, w, index, g)
    && (if preceding.None? then g.predecessor.key == w.bindingKey else Continues(preceding.value, g.predecessor))
    && (forall i :: 0 <= i < |seen| ==> !Clash(seen[i], g.successor))
    && precedingTime <= g.receipt.resumedAt && precedingCycle <= g.source.turnMarker.cycle
  }

  /** The body of the loop over the history; `seen` already holds the first predecessor. */
  method CheckRecord(
    o: Outside, w: Workflow, index: nat, record: Generation, preceding: Option<Binding>, precedingTime: int,
    precedingCycle: int, seen: seq<Binding>)
    returns (ok: bool)
    ensures ok == RecordAdmitted(o, w, index, record, preceding, precedingTime, precedingCycle, seen)
  {
    var predecessor, successor, source, receipt := record.predecessor, record.successor, record.source, record.receipt;
    if predecessor.revision < 1 || successor.revision < 1 || !ValidTerminal(source.terminal)
       || !ValidReceipt(o, receipt)
    {
      return false;
    }
    if o.scope(predecessor.url) != Some(predecessor.scope) || o.scope(successor.url) != Some(successor.scope) {
      return false;
    }
    if preceding.None? {
      if predecessor.key != w.bindingKey {
        return false;
      }
    } else if || !SameImmutableBinding(predecessor, preceding.value)
              || predecessor.revision < preceding.value.revision
              || (predecessor.revision == preceding.value.revision && predecessor.head != preceding.value.head)
    {
      return false;
    }
    if predecessor.scope != successor.scope || exists i :: 0 <= i < |seen| && Clash(seen[i], successor) {
      return false;
    }
    if !source.turnMarker.TurnMarker? || source.turnMarker.cycle < 1 {
      return false;
    }
    var cycle := source.turnMarker.cycle;
    return && precedingCycle <= cycle <= w.cycle
           && source.operation == Exchange(predecessor.key, TurnOf(o, w.id, cycle, index, 1))
           && source.turnMarker == TurnOf(o, w.id, cycle, index, 1)
           && source.terminalMarker == TerminalOf(o, w.id, cycle, index, 1)
           && source.reason.ConversationExhausted? && source.confirmedSend
           && source.terminal.Some? && source.terminal.value.kind.Exhausted?
           && receipt.request.mode.VerifiedSuccessor? && receipt.request.generation == index + 1
           && receipt.request.checkpointDigest == record.checkpointDigest
           && receipt.sourceChild == source.child
           && receipt.request.bindingKey == successor.key && receipt.request.revision == successor.revision
           && receipt.request.urlDigest == o.urlDigest(successor.url)
           && precedingTime <= receipt.resumedAt
           && source.terminal.value.observedAt <= receipt.resumedAt;
  }

  /** What the loop remembers after `n` records. */
  predicate Remembers(
    h: seq<Generation>, n: nat, preceding: Option<Binding>, precedingTime: int, precedingCycle: int, seen: seq<Binding>)
    requires n <= |h|
  {
    if n == 0 then preceding.None? && precedingTime == 0 && precedingCycle == 0 && seen == []
    else
      && preceding == Some(h[n - 1].successor) && precedingTime == h[n - 1].receipt.resumedAt
      && h[n - 1].source.turnMarker.TurnMarker? && precedingCycle == h[n - 1].source.turnMarker.cycle
      && |seen| == n + 1 && forall i :: 0 <= i <= n ==> seen[i] == Chat(h, i)
  }

  /** One more record keeps the chain exactly when it is admitted. */
  lemma ChainGrowsExactly(
    o: Outside, w: Workflow, n: nat, preceding: Option<Binding>, precedingTime: int, precedingCycle: int,
    seen: seq<Binding>)
    requires n < |w.history| && ChainUpTo(o, w, n)
             && Remembers(w.history, n, preceding, precedingTime, precedingCycle, seen)
    ensures var h := w.history;
      var all := if n == 0 then [h[0].predecessor] else seen;
      ChainUpTo(o, w, n + 1) <==> RecordAdmitted(o, w, n, h[n], preceding, precedingTime, precedingCycle, all)
  {
    hide RecordFits, Continues, Clash;
    var h := w.history;
    var all := if n == 0 then [h[0].predecessor] else seen;
    assert forall i :: 0 <= i <= n ==> all[i] == Chat(h, i);
    assert Records(o, w, n + 1) <==> RecordFits(o, w, n, h[n]);
    assert n > 0 ==> (Linked(h, n + 1) <==> Follows(h[n - 1], h[n]));
    assert Fresh(h, n + 1) <==> forall i :: 0 <= i <= n ==> !Clash(all[i], h[n].successor) by {
      if Fresh(h, n + 1) {
        forall i | 0 <= i <= n ensures !Clash(all[i], h[n].successor) {
          assert !Clash(Chat(h, i), h[n].successor);
        }
      }
    }
    if RecordFits(o, w, n, h[n]) {
      RecordIsTyped(o, w, n, h[n]);
    }
  }

  lemma RecordIsTyped(o: Outside, w: Workflow, n: nat, g: Generation)
    requires RecordFits(o, w, n, g)
    ensures g.source.turnMarker.TurnMarker? && g.source.turnMarker.cycle >= 1
  {
  }

  lemma ShorterChain(o: Outside, w: Workflow, m: nat, n: nat)
    requires m <= n <= |w.history| && ChainUpTo(o, w, n)
    ensures ChainUpTo(o, w, m)
  {
    hide RecordFits, Follows, Clash;
  }

  /** The check of the last resume receipt against the end of the chain. */
  method CheckResume(o: Outside, w: Workflow, activeKey: Key, generation: int, preceding: Option<Binding>,
                     precedingTime: int)
    returns (ok: bool)
    requires activeKey == ActiveKey(w) && generation == GenerationOf(w) == |w.history|
    requires preceding == if w.history == [] then None else Some(w.history[|w.history| - 1].successor)
    requires precedingTime == if w.history == [] then 0 else w.history[|w.history| - 1].receipt.resumedAt
    ensures ok == ResumeFits(o, w)
  {
    if w.resume.None? {
      return generation == 0;
    }
    var latest := w.resume.value;
    if || !ValidReceipt(o, latest) || latest.request.bindingKey != activeKey
       || latest.request.generation != generation || latest.resumedAt < precedingTime
    {
      return false;
    }
    if latest.request.mode.VerifiedSuccessor? {
      return generation != 0 && latest == w.history[|w.history| - 1].receipt;
    }
    return preceding.None? || (latest.request.revision >= preceding.value.revision
                               && latest.request.urlDigest == o.urlDigest(preceding.value.url));
  }

  /** `validateConvergenceContinuationLineage`: one pass over the history that compares each record
      with the one before and each successor with everything seen accepts exactly the chains. */
  method ValidateConvergenceContinuationLineage(o: Outside, w: Workflow) returns (ok: bool)
    ensures ok == Accepted(o, w)
  {
    hide RecordAdmitted, RecordFits, Records, Linked, Fresh, ResumeFits;
    if !w.convergence {
      return false;
    }
    if !w.status.Running? && !(w.status.HumanRequired? && w.phase.ContinuationPaused?) {
      return true;
    }
    if w.activeChat.Some? && !(1 <= w.activeChat.value.generation <= MAX_CHAT_GENERATIONS) {
      return false;
    }
    var activeKey := ActiveKey(w);
    var generation := GenerationOf(w);
    var history := w.history;
    if |history| != generation {
      return false;
    }
    var preceding: Option<Binding> := None;
    var precedingTime, precedingCycle := 0, 0;
    var seen: seq<Binding> := [];
    var index := 0;
    EmptyChain(o, w);
    while index < |history|
      invariant 0 <= index <= |history|
      invariant ChainUpTo(o, w, index)
      invariant Remembers(history, index, preceding, precedingTime, precedingCycle, seen)
    {
      ChainGrowsExactly(o, w, index, preceding, precedingTime, precedingCycle, seen);
      if preceding.None? {
        seen := seen + [history[index].predecessor];
        assert index == 0 && seen == [history[0].predecessor];
      }
      var admitted := CheckRecord(o, w, index, history[index], preceding, precedingTime, precedingCycle, seen);
      if !admitted {
        if IsChain(o, w) {
          ShorterChain(o, w, index + 1, |history|);
        }
        return false;
      }
      NextRemembered(o, w, index, seen);
      preceding := Some(history[index].successor);
      precedingTime := history[index].receipt.resumedAt;
      precedingCycle := history[index].source.turnMarker.cycle;
      seen := seen + [history[index].successor];
      index := index + 1;
    }
    if preceding.Some? && preceding.value.key != activeKey {
      return false;
    }
    ok := CheckResume(o, w, activeKey, generation, preceding, precedingTime);
  }

  lemma EmptyChain(o: Outside, w: Workflow)
    ensures ChainUpTo(o, w, 0)
  {
  }

  lemma NextRemembered(o: Outside, w: Workflow, n: nat, seen: seq<Binding>)
    requires n < |w.history| && ChainUpTo(o, w, n + 1)
    requires |seen| == n + 1 && forall i :: 0 <= i <= n ==> seen[i] == Chat(w.history, i)
    ensures w.history[n].source.turnMarker.TurnMarker?
    ensures Remembers(w.history, n + 1, Some(w.history[n].successor), w.history[n].receipt.resumedAt,
                      w.history[n].source.turnMarker.cycle, seen + [w.history[n].successor])
  {
    hide Linked, Fresh;
    assert RecordFits(o, w, n, w.history[n]);
  }

  // ---- what an accepted chain guarantees ----------------------------------

  lemma {:induction false} OrderedBetween(o: Outside, w: Workflow, i: nat, j: nat)
    requires IsChain(o, w) && i <= j < |w.history|
    ensures w.history[i].receipt.resumedAt <= w.history[j].receipt.resumedAt
    ensures w.history[i].source.turnMarker.TurnMarker? && w.history[j].source.turnMarker.TurnMarker?
    ensures w.history[i].source.turnMarker.cycle <= w.history[j].source.turnMarker.cycle
    ensures w.history[i].successor.scope == w.history[j].predecessor.scope || i == j
    ensures w.history[i].successor.scope == w.history[j].successor.scope
    decreases j - i
  {
    assert RecordFits(o, w, i, w.history[i]) && RecordFits(o, w, j, w.history[j]);
    if i < j {
      OrderedBetween(o, w, i, j - 1);
      assert Follows(w.history[j - 1], w.history[j]);
    }
  }

  /** Local checks imply the global chain: in every accepted running or paused workflow any two
      conversations of different generations differ in key, address, space name and task identity;
      they share one Project; every exhausted conversation is the one its generation started with;
      times and cycles never go back; and the generation counts the history, at most 32. */
  lemma AcceptedLineageIsAChain(o: Outside, w: Workflow, i: nat, j: nat)
    requires Accepted(o, w) && Checked(w)
    requires i < j <= |w.history|
    ensures |w.history| == GenerationOf(w) <= MAX_CHAT_GENERATIONS
    ensures Chat(w.history, 0).key == w.bindingKey && Chat(w.history, |w.history|).key == ActiveKey(w)
    ensures Chat(w.history, i).key != Chat(w.history, j).key && Chat(w.history, i).url != Chat(w.history, j).url
    ensures Chat(w.history, i).space != Chat(w.history, j).space
            && Chat(w.history, i).taskId != Chat(w.history, j).taskId
    ensures Chat(w.history, i).scope == Chat(w.history, j).scope
    ensures SameImmutableBinding(w.history[i].predecessor, Chat(w.history, i))
    ensures w.history[i].receipt.resumedAt <= w.history[j - 1].receipt.resumedAt
    ensures w.history[i].source.turnMarker.TurnMarker? && w.history[j - 1].source.turnMarker.TurnMarker?
    ensures w.history[i].source.turnMarker.cycle <= w.history[j - 1].source.turnMarker.cycle <= w.cycle
  {
    var h := w.history;
    assert !Clash(Chat(h, i), h[j - 1].successor);
    OrderedBetween(o, w, i, j - 1);
    assert RecordFits(o, w, i, h[i]) && RecordFits(o, w, j - 1, h[j - 1]);
    if i > 0 {
      assert Follows(h[i - 1], h[i]);
    }
  }

  // ---- checkpoints ------------------------------------------------------

  /** `bindingEvidence`: the Project read from a conversation must agree with a declared one. */
  function BindingEvidence(o: Outside, b: LiveBinding): (r: Option<Binding>)
    ensures r.Some? ==> o.scope(r.value.url) == Some(r.value.scope) && r.value.key == b.key && r.value.revision >= 1
  {
    var scope := o.scope(b.url);
    if !b.bound || scope.None? || b.head.None? || b.revision < 1 then None
    else if b.projectUrl.Some? && (
      var declared := o.startScope(b.projectUrl.value);
      declared.None? || declared.value.None? || scope.value != declared.value) then None
    else Some(Binding(b.key, b.url, scope.value, b.space, b.taskId, b.revision, b.head.value))
  }

  /** `validateContinuationCheckpoint` with the workflow and child it must describe. */
  predicate ValidCheckpoint(o: Outside, c: Checkpoint, w: Workflow, child: Child) {
    && 0 <= c.generation <= MAX_CHAT_GENERATIONS && c.cycle >= 1 && c.binding.revision >= 1
    && ValidTerminal(c.source.terminal)
    && o.checkpointDigest(c.(digest := 0)) == c.digest
    && c.binding.key == c.activeKey && o.wellFormed(c.evidence) && o.scope(c.binding.url).Some?
    && c.source.turnMarker == TurnOf(o, c.workflow, c.cycle, c.generation, 1)
    && c.source.terminalMarker == TerminalOf(o, c.workflow, c.cycle, c.generation, 1)
    && c.source.operation == Exchange(c.activeKey, c.source.turnMarker)
    && w.id == c.workflow && w.bindingKey == c.originalKey && ActiveKey(w) == c.activeKey
    && GenerationOf(w) == c.generation && w.cycle == c.cycle && w.child == Some(c.source.child)
    && w.evidence == Some(c.evidence)
    && child.id == c.source.child && child.exchange && child.bindingKey == c.activeKey
    && child.operation == c.source.operation && child.inputDigest == c.source.inputDigest
    && child.turnMarker == Some(c.source.turnMarker) && child.terminalMarker == Some(c.source.terminalMarker)
  }

  predicate SuccessorAllowed(c: Checkpoint) {
    && c.source.reason.ConversationExhausted? && c.source.confirmedSend
    && c.source.terminal.Some? && c.source.terminal.value.kind.Exhausted?
  }

  predicate Cancelling(r: Option<Reason>) {
    r.Some? && r.value.OtherReason? && r.value.mentionsCancelOrAbandon
  }

  // ---- resuming -----------------------------------------------------------

  /** What a resume is asked for. */
  datatype ResumeRequest = ResumeRequest(
    child: Child, binding: LiveBinding, successor: Option<LiveBinding>, expectedCheckpoint: Digest,
    acknowledged: bool, at: int)

  /** The paused workflow, its checkpoint and its child allow a resume now. */
  predicate PausedForResume(o: Outside, w: Workflow, r: ResumeRequest) {
    && Accepted(o, w) && w.checkpoint.Some? && ValidCheckpoint(o, w.checkpoint.value, w, r.child)
    && w.status.HumanRequired? && w.review.None? && w.phase.ContinuationPaused? && !w.abandoned
    && w.checkpoint.value.digest == r.expectedCheckpoint
    && !Cancelling(w.humanRequired) && !Cancelling(Some(w.checkpoint.value.source.reason))
    && r.at >= w.checkpoint.value.createdAt && !r.child.abandoned
  }

  predicate SuccessorVerified(o: Outside, c: Checkpoint, r: ResumeRequest)
    requires r.successor.Some?
  {
    var b, s := r.binding, r.successor.value;
    && BindingEvidence(o, b) == Some(c.binding) && BindingEvidence(o, s).Some?
    && r.acknowledged && SuccessorAllowed(c)
    && r.child.status.AwaitsHuman? && r.child.phase.ProviderPaused?
    && r.child.humanRequired == Some(c.source.reason) && r.child.terminal == c.source.terminal
    && r.child.sentTo == Some(b.url) && c.generation < MAX_CHAT_GENERATIONS
    && s.key != b.key && s.url != b.url && s.space != b.space && s.taskId != b.taskId
    && BindingEvidence(o, s).value.scope == c.binding.scope
  }

  predicate AnswerReconciled(o: Outside, c: Checkpoint, r: ResumeRequest) {
    var b := r.binding;
    && BindingEvidence(o, b).Some?
    && b.key == c.activeKey && b.url == c.binding.url && b.space == c.binding.space && b.taskId == c.binding.taskId
    && r.child.status.Succeeded? && r.child.phase.HeadCommitted?
    && r.child.result.Some? && r.child.result.value.reconciled && !r.child.result.value.endedByProvider
    && r.child.result.value.responseDigest.Some? && r.child.result.value.url == b.url
    && b.head == Some(Head(r.child.result.value.fingerprint, r.child.result.value.lastContent,
                           r.child.result.value.lastMessage))
    && r.child.result.value.storedDigest == r.child.result.value.responseDigest
  }

  predicate GuardsPass(o: Outside, w: Workflow, r: ResumeRequest) {
    && PausedForResume(o, w, r)
    && if r.successor.Some? then SuccessorVerified(o, w.checkpoint.value, r)
       else AnswerReconciled(o, w.checkpoint.value, r)
  }

  function NextBinding(r: ResumeRequest): LiveBinding {
    if r.successor.Some? then r.successor.value else r.binding
  }

  /** The receipt a resume records. */
  function ReceiptOf(o: Outside, c: Checkpoint, r: ResumeRequest): Receipt {
    var next := NextBinding(r);
    var request := Request(c.digest, next.key, next.revision, o.urlDigest(next.url),
                           c.generation + (if r.successor.Some? then 1 else 0),
                           if r.successor.Some? then VerifiedSuccessor else SameBinding);
    Receipt(r.child.id, r.at, request, o.requestDigest(request))
  }

  function GenerationRecord(o: Outside, c: Checkpoint, r: ResumeRequest): Generation
    requires r.successor.Some? && BindingEvidence(o, r.successor.value).Some?
  {
    Generation(c.digest, c.source, c.binding, BindingEvidence(o, r.successor.value).value, ReceiptOf(o, c, r))
  }

  /** The state a resume leads to. */
  function Resumed(o: Outside, w: Workflow, r: ResumeRequest): Workflow
    requires GuardsPass(o, w, r)
  {
    var c := w.checkpoint.value;
    var receipt := ReceiptOf(o, c, r);
    var generation := receipt.request.generation;
    w.(phase := if r.successor.Some? then CodexCaptured else ChatgptRunning, status := Running, updatedAt := r.at,
       activeChat := if generation > 0 then Some(ActiveChat(NextBinding(r).key, generation)) else w.activeChat,
       resume := Some(receipt), humanRequired := None, error := false, checkpoint := None, preparation := None,
       history := w.history + (if r.successor.Some? then [GenerationRecord(o, c, r)] else []),
       child := if r.successor.Some? then None else w.child)
  }

  /** What the guards do not see and only the final validation of the new state adds: the clock has
      not gone back behind the last resume, the paused conversation is the one the chain ended with,
      and a successor repeats nothing of any earlier generation. */
  predicate ContinuesChain(o: Outside, w: Workflow, r: ResumeRequest)
    requires GuardsPass(o, w, r)
  {
    var h, c := w.history, w.checkpoint.value;
    && r.at >= (if h == [] then 0 else h[|h| - 1].receipt.resumedAt)
    && (if r.successor.Some? then
          && c.source.terminal.value.observedAt <= r.at
          && (h != [] ==> Continues(h[|h| - 1].successor, c.binding))
          && (forall k :: 0 <= k <= |h| && h != [] ==> !Clash(Chat(h, k), BindingEvidence(o, r.successor.value).value))
        else h != [] ==>
          && r.binding.revision >= h[|h| - 1].successor.revision
          && o.urlDigest(r.binding.url) == o.urlDigest(h[|h| - 1].successor.url))
  }

  predicate MayResume(o: Outside, w: Workflow, r: ResumeRequest) {
    GuardsPass(o, w, r) && ContinuesChain(o, w, r)
  }

  /** A resume in the same conversation is accepted exactly when the chain continues. */
  lemma SameBindingExactly(o: Outside, w: Workflow, r: ResumeRequest)
    requires GuardsPass(o, w, r) && r.successor.None?
    ensures Accepted(o, Resumed(o, w, r)) <==> ContinuesChain(o, w, r)
  {
    var n := Resumed(o, w, r);
    assert n.history == w.history;
    assert Records(o, n, |n.history|) by {
      forall k | 0 <= k < |n.history| ensures RecordFits(o, n, k, n.history[k]) {
        assert RecordFits(o, w, k, w.history[k]);
      }
    }
    assert BindingEvidence(o, r.binding).value.revision >= 1;
  }

  /** The new record on its own proves what every record must, but for the clock. */
  lemma NewRecordFits(o: Outside, w: Workflow, r: ResumeRequest)
    requires GuardsPass(o, w, r) && r.successor.Some?
    ensures var c := w.checkpoint.value;
      RecordFits(o, Resumed(o, w, r), |w.history|, GenerationRecord(o, c, r)) <==>
      c.source.terminal.value.observedAt <= r.at
  {
  }

  lemma SuccessorKeepsRecords(o: Outside, w: Workflow, r: ResumeRequest, k: nat)
    requires GuardsPass(o, w, r) && k < |w.history|
    ensures Resumed(o, w, r).history[k] == w.history[k]
    ensures RecordFits(o, Resumed(o, w, r), k, w.history[k])
  {
    assert RecordFits(o, w, k, w.history[k]);
  }

  lemma NewLinkExactly(o: Outside, w: Workflow, r: ResumeRequest)
    requires GuardsPass(o, w, r) && r.successor.Some?
    ensures var h, n := w.history, Resumed(o, w, r).history;
      Linked(n, |n|) <==> (h == [] || (Continues(h[|h| - 1].successor, w.checkpoint.value.binding)
                                       && r.at >= h[|h| - 1].receipt.resumedAt))
  {
    var h, n := w.history, Resumed(o, w, r).history;
    forall k | 0 < k < |h| ensures Follows(n[k - 1], n[k]) {
      assert Follows(h[k - 1], h[k]);
    }
    if h != [] {
      assert RecordFits(o, w, |h| - 1, h[|h| - 1]);
      assert n[|h| - 1] == h[|h| - 1];
      assert Linked(n, |n|) <==> Follows(n[|h| - 1], n[|h|]);
    }
  }

  lemma NewSuccessorIsFreshExactly(o: Outside, w: Workflow, r: ResumeRequest)
    requires GuardsPass(o, w, r) && r.successor.Some?
    ensures var h, n, s := w.history, Resumed(o, w, r).history, BindingEvidence(o, r.successor.value).value;
      Fresh(n, |n|) <==> (forall k :: 0 <= k <= |h| && h != [] ==> !Clash(Chat(h, k), s))
  {
    var h, n, s := w.history, Resumed(o, w, r).history, BindingEvidence(o, r.successor.value).value;
    assert n[|h|].successor == s;
    assert forall k :: 0 <= k <= |h| && h != [] ==> Chat(n, k) == Chat(h, k);
    assert Chat(n, |h|) == if h == [] then w.checkpoint.value.binding else Chat(h, |h|);
    assert h == [] ==> !Clash(w.checkpoint.value.binding, s);
    assert forall i, k :: 0 <= i <= k < |h| ==> !Clash(Chat(n, i), n[k].successor) by {
      forall i, k | 0 <= i <= k < |h| ensures !Clash(Chat(n, i), n[k].successor) {
        assert !Clash(Chat(h, i), h[k].successor);
      }
    }
    if Fresh(n, |n|) {
      forall k | 0 <= k <= |h| && h != [] ensures !Clash(Chat(h, k), s) {
        assert !Clash(Chat(n, k), n[|h|].successor);
      }
    }
  }

  lemma SuccessorExactly(o: Outside, w: Workflow, r: ResumeRequest)
    requires GuardsPass(o, w, r) && r.successor.Some?
    ensures Accepted(o, Resumed(o, w, r)) <==> ContinuesChain(o, w, r)
  {
    hide RecordFits, Follows, Clash, Continues, AnswerReconciled;
    var h, n := w.history, Resumed(o, w, r);
    NewRecordFits(o, w, r);
    NewLinkExactly(o, w, r);
    NewSuccessorIsFreshExactly(o, w, r);
    forall k | 0 <= k < |h| ensures RecordFits(o, n, k, n.history[k]) {
      SuccessorKeepsRecords(o, w, r, k);
    }
    assert n.history[|h|] == GenerationRecord(o, w.checkpoint.value, r);
    assert Records(o, n, |n.history|) <==> RecordFits(o, n, |h|, n.history[|h|]);
  }

  /** The guards of a resume do not by themselves keep the chain: the state they lead to is accepted
      exactly when, besides, it continues the chain. */
  lemma ResumeAcceptedExactly(o: Outside, w: Workflow, r: ResumeRequest)
    requires GuardsPass(o, w, r)
    ensures Accepted(o, Resumed(o, w, r)) <==> ContinuesChain(o, w, r)
  {
    if r.successor.Some? {
      SuccessorExactly(o, w, r);
    } else {
      SameBindingExactly(o, w, r);
    }
  }

  // ---- a return to the first conversation ---------------------------------

  /** Two different addresses in one Project. */
  predicate OneProject(o: Outside, first: Url, second: Url) {
    first != second && o.scope(first).Some? && o.scope(first) == o.scope(second)
  }

  function Conversation(o: Outside, n: nat, url: Url): Binding
    requires o.scope(url).Some?
  {
    Binding(n, url, o.scope(url).value, n, n, 1, Head(n, n, n))
  }

  function Live(n: nat, url: Url): LiveBinding {
    LiveBinding(true, n, url, None, 1, Some(Head(n, n, n)), n, n, n, None, None)
  }

  function ExhaustedIn(o: Outside, n: nat): Source {
    var turn := TurnOf(o, 0, 1, n - 1, 1);
    Source(9, Exchange(n, turn), 0, turn, TerminalOf(o, 0, 1, n - 1, 1),
           ConversationExhausted, Some(Terminal(Exhausted, 0, 2, 0)), true)
  }

  function FirstMove(o: Outside, first: Url, second: Url): Generation
    requires OneProject(o, first, second)
  {
    var request := Request(0, 2, 1, o.urlDigest(second), 1, VerifiedSuccessor);
    Generation(0, ExhaustedIn(o, 1), Conversation(o, 1, first), Conversation(o, 2, second),
               Receipt(9, 5, request, o.requestDigest(request)))
  }

  /** A workflow that moved from conversation 1 to conversation 2 and exhausted that one too. */
  function MovedOnce(o: Outside, first: Url, second: Url, e: Evidence): Workflow
    requires OneProject(o, first, second)
  {
    var move := FirstMove(o, first, second);
    var undigested := Checkpoint(0, 0, 1, 2, 1, 1, 6, e, Conversation(o, 2, second), ExhaustedIn(o, 2));
    Workflow(true, 0, 1, HumanRequired, ContinuationPaused, 1, Some(9), Some(ActiveChat(2, 1)), Some(move.receipt),
             [move], Some(undigested.(digest := o.checkpointDigest(undigested))),
             None, None, Some(e), None, false, false, false, None, 6)
  }

  /** A request to continue it in conversation 1 again. */
  function BackToFirst(o: Outside, first: Url, second: Url, expected: Digest): ResumeRequest {
    var source := ExhaustedIn(o, 2);
    var child := Child(9, true, 2, source.operation, 0, Some(source.turnMarker), Some(source.terminalMarker),
                       AwaitsHuman, ProviderPaused, false, Some(ConversationExhausted), source.terminal,
                       Some(second), None, None);
    ResumeRequest(child, Live(2, second), Some(Live(1, first)), expected, true, 7)
  }

  lemma MovedOnceIsAChain(o: Outside, first: Url, second: Url, e: Evidence)
    requires OneProject(o, first, second)
    ensures IsChain(o, MovedOnce(o, first, second, e))
  {
    var w := MovedOnce(o, first, second, e);
    assert RecordFits(o, w, 0, FirstMove(o, first, second));
    assert Records(o, w, 1);
  }

  /** Returning to the first conversation after one generation passes every guard of a resume: only
      the validation of the new state refuses it. So it is for every digest function and every two
      addresses in one Project. */
  lemma GuardsMissAnEarlierConversation(o: Outside, first: Url, second: Url, e: Evidence)
    requires OneProject(o, first, second) && o.wellFormed(e)
    ensures var w := MovedOnce(o, first, second, e);
            var r := BackToFirst(o, first, second, w.checkpoint.value.digest);
            && GuardsPass(o, w, r) && !ContinuesChain(o, w, r) && !Accepted(o, Resumed(o, w, r))
  {
    var w := MovedOnce(o, first, second, e);
    var r := BackToFirst(o, first, second, w.checkpoint.value.digest);
    MovedOnceIsAChain(o, first, second, e);
    BackToFirstPasses(o, first, second, e);
    assert Clash(Chat(w.history, 0), Conversation(o, 1, first));
    ResumeAcceptedExactly(o, w, r);
  }

  lemma BackToFirstPasses(o: Outside, first: Url, second: Url, e: Evidence)
    requires OneProject(o, first, second) && o.wellFormed(e)
    requires IsChain(o, MovedOnce(o, first, second, e))
    ensures var w := MovedOnce(o, first, second, e);
            GuardsPass(o, w, BackToFirst(o, first, second, w.checkpoint.value.digest))
  {
    hide IsChain;
    var w := MovedOnce(o, first, second, e);
    var c := w.checkpoint.value;
    assert c.(digest := 0).(digest := c.digest) == c;
    assert ValidCheckpoint(o, c, w, BackToFirst(o, first, second, c.digest).child);
  }

  /** `buildConvergenceResume`: guards, then the new state field by field, then its validation. */
  method BuildConvergenceResume(o: Outside, w: Workflow, r: ResumeRequest) returns (resumed: Option<Workflow>)
    ensures resumed.Some? <==> MayResume(o, w, r)
    ensures resumed.Some? ==> resumed.value == Resumed(o, w, r) && Accepted(o, resumed.value)
  {
    hide IsChain, ContinuesChain, AnswerReconciled, BindingEvidence, SuccessorAllowed, Cancelling, TurnOf, TerminalOf,
      ValidTerminal, ValidReceipt;
    var valid := ValidateConvergenceContinuationLineage(o, w);
    if !valid || w.checkpoint.None? || !ValidCheckpoint(o, w.checkpoint.value, w, r.child) {
      return None;
    }
    var checkpoint := w.checkpoint.value;
    if || !w.status.HumanRequired? || w.review.Some? || !w.phase.ContinuationPaused? || w.abandoned
       || checkpoint.digest != r.expectedCheckpoint
       || Cancelling(w.humanRequired) || Cancelling(Some(checkpoint.source.reason))
    {
      return None;
    }
    if r.at < checkpoint.createdAt || r.child.abandoned {
      return None;
    }
    var nextBinding, generation, phase, mode := r.binding, checkpoint.generation, ChatgptRunning, SameBinding;
    if r.successor.Some? {
      if !SuccessorVerified(o, checkpoint, r) {
        return None;
      }
      nextBinding := r.successor.value;
      generation := generation + 1;
      phase := CodexCaptured;
      mode := VerifiedSuccessor;
    } else if !AnswerReconciled(o, checkpoint, r) {
      return None;
    }
    assert GuardsPass(o, w, r);
    var request := Request(checkpoint.digest, nextBinding.key, nextBinding.revision, o.urlDigest(nextBinding.url),
                           generation, mode);
    var receipt := Receipt(r.child.id, r.at, request, o.requestDigest(request));
    var next := w.(phase := phase, status := Running, updatedAt := r.at, resume := Some(receipt));
    if generation > 0 {
      next := next.(activeChat := Some(ActiveChat(nextBinding.key, generation)));
    }
    next := next.(humanRequired := None, error := false, checkpoint := None, preparation := None);
    if r.successor.Some? {
      var history := w.history;
      GenerationCounts(o, w);
      if |history| >= MAX_CHAT_GENERATIONS {
        return None;
      }
      var successor := BindingEvidence(o, r.successor.value).value;
      var record := Generation(checkpoint.digest, checkpoint.source, checkpoint.binding, successor, receipt);
      next := next.(history := history + [record], child := None);
    }
    assert next == Resumed(o, w, r);
    ResumeAcceptedExactly(o, w, r);
    var accepted := ValidateConvergenceContinuationLineage(o, next);
    return if accepted then Some(next) else None;
  }

  /** Every resume uses up its checkpoint and lengthens the chain by at most one conversation, and
      the generation stays the length of the history, at most 32. */
  lemma ResumeExtendsByAtMostOne(o: Outside, w: Workflow, r: ResumeRequest)
    requires MayResume(o, w, r)
    ensures var n := Resumed(o, w, r);
      && n.checkpoint.None? && w.history <= n.history
      && |n.history| == |w.history| + (if r.successor.Some? then 1 else 0)
      && |n.history| == GenerationOf(n) <= MAX_CHAT_GENERATIONS
      && ActiveKey(n) == NextBinding(r).key
      && !(exists r2 :: MayResume(o, n, r2))
  {
    ResumeAcceptedExactly(o, w, r);
  }

  // ---- promoting a reviewed successor --------------------------------------

  predicate AutomaticSuccessorEnabled(w: Workflow) {
    w.continuesOnExhaustion && GenerationOf(w) < MAX_CHAT_GENERATIONS && !w.abandoned
  }

  /** `ready` in `buildSuccessorPromotion`: the workflow as if it had paused again. */
  function ReadyToResume(w: Workflow): Workflow {
    w.(status := HumanRequired, phase := ContinuationPaused, review := None)
  }

  function PromotionRequest(w: Workflow, child: Child, binding: LiveBinding, successor: LiveBinding,
                            at: int): ResumeRequest
    requires w.checkpoint.Some?
  {
    ResumeRequest(child, binding, Some(successor), w.checkpoint.value.digest, true, at)
  }

  /** The successor's own review ended in the conversation that is being promoted. */
  predicate ReviewedSuccessor(o: Outside, w: Workflow, c: Checkpoint, plan: Preparation, intent: SuccessorReview,
                              successor: LiveBinding, done: Child)
  {
    var attempt := if intent.attempt.Some? then intent.attempt.value else 1;
    var turn := TurnOf(o, w.id, w.cycle, c.generation + 1, attempt);
    var terminal := TerminalOf(o, w.id, w.cycle, c.generation + 1, attempt);
    && 1 <= attempt <= 2
    && plan.prepared && plan.checkpointDigest == c.digest && plan.bindingKey == successor.key
    && plan.space == successor.space && plan.taskId == successor.taskId && plan.target == successor.target
    && intent.bindingKey == plan.bindingKey && intent.turnMarker == turn && intent.terminalMarker == terminal
    && intent.candidateDigest == c.evidence.candidateDigest
    && done.exchange && done.successorParent == Some(w.id) && done.bindingKey == plan.bindingKey
    && done.operation == Exchange(plan.bindingKey, turn) && done.inputDigest == intent.promptDigest
    && done.turnMarker == Some(turn) && done.terminalMarker == Some(terminal)
    && done.status.Succeeded? && done.phase.HeadCommitted? && done.result.Some?
    && done.result.value.url == successor.url && !done.result.value.endedByProvider
    && done.result.value.responseDigest.Some?
    && successor.head == Some(Head(done.result.value.fingerprint, done.result.value.responseDigest.value,
                                   done.result.value.lastMessage))
    && (successor.lastExchange == Some(done.id)
        || (done.result.value.reconciled && successor.lastReconciled == Some(done.id)))
  }

  predicate MayPromote(o: Outside, w: Workflow, child: Child, binding: LiveBinding, successor: LiveBinding,
                       done: Child, at: int) {
    && AutomaticSuccessorEnabled(w)
    && ((w.status.Running? && w.phase.SuccessorReviewing?)
        || (w.status.HumanRequired? && w.phase.ContinuationPaused? && !Cancelling(w.humanRequired)))
    && w.checkpoint.Some? && w.preparation.Some? && w.review.Some?
    && ReviewedSuccessor(o, w, w.checkpoint.value, w.preparation.value, w.review.value, successor, done)
    && MayResume(o, ReadyToResume(w), PromotionRequest(w, child, binding, successor, at))
  }

  function Promoted(o: Outside, w: Workflow, child: Child, binding: LiveBinding, successor: LiveBinding, done: Child,
                    at: int): Workflow
    requires MayPromote(o, w, child, binding, successor, done, at)
  {
    Resumed(o, ReadyToResume(w), PromotionRequest(w, child, binding, successor, at))
      .(phase := ChatgptRunning, child := Some(done.id), resumedCheckpoint := Some(w.checkpoint.value.digest))
  }

  /** `buildSuccessorPromotion`: a successor whose review finished becomes the next generation, with
      the review kept as the workflow's child; the chain stays accepted and grows by exactly one. */
  method BuildSuccessorPromotion(o: Outside, w: Workflow, child: Child, binding: LiveBinding, successor: LiveBinding,
                                 done: Child, at: int)
    returns (promoted: Option<Workflow>)
    ensures promoted.Some? <==> MayPromote(o, w, child, binding, successor, done, at)
    ensures promoted.Some? ==>
      && promoted.value == Promoted(o, w, child, binding, successor, done, at) && Accepted(o, promoted.value)
      && |promoted.value.history| == |w.history| + 1 == GenerationOf(promoted.value)
      && promoted.value.review.None? && promoted.value.checkpoint.None? && promoted.value.child == Some(done.id)
  {
    hide ContinuesChain, AnswerReconciled, ReviewedSuccessor, ChainUpTo, ResumeFits;
    var running := AutomaticSuccessorEnabled(w) && w.status.Running? && w.phase.SuccessorReviewing?;
    var paused := AutomaticSuccessorEnabled(w) && w.status.HumanRequired? && w.phase.ContinuationPaused?
      && !Cancelling(w.humanRequired);
    if !running && !paused {
      return None;
    }
    if w.checkpoint.None? || w.preparation.None? || w.review.None? {
      return None;
    }
    if !ValidCheckpoint(o, w.checkpoint.value, w, child)
       || BindingEvidence(o, binding) != Some(w.checkpoint.value.binding)
    {
      return None;
    }
    if !ReviewedSuccessor(o, w, w.checkpoint.value, w.preparation.value, w.review.value, successor, done) {
      return None;
    }
    var ready := w.(status := HumanRequired, phase := ContinuationPaused);
    ready := ready.(review := None);
    var resumed := BuildConvergenceResume(o, ready, PromotionRequest(w, child, binding, successor, at));
    if resumed.None? {
      return None;
    }
    ResumeExtendsByAtMostOne(o, ready, PromotionRequest(w, child, binding, successor, at));
    var next := resumed.value.(phase := ChatgptRunning, child := Some(done.id),
                               resumedCheckpoint := Some(w.checkpoint.value.digest));
    PhaseDoesNotMatter(o, resumed.value, next);
    return Some(next);
  }

  /** The chain of a running workflow depends on neither its phase nor its child. */
  lemma PhaseDoesNotMatter(o: Outside, w: Workflow, n: Workflow)
    requires LineageKept(w, n)
    requires IsChain(o, w)
    ensures IsChain(o, n)
  {
    forall k | 0 <= k < |n.history| ensures RecordFits(o, n, k, n.history[k]) {
      assert RecordFits(o, w, k, w.history[k]);
    }
  }

  // ---- whole runs -----------------------------------------------------------

  /** Any other write to a workflow: it keeps the lineage fields and never lowers the cycle. */
  predicate LineageKept(w: Workflow, n: Workflow) {
    && n.id == w.id && n.bindingKey == w.bindingKey && n.activeChat == w.activeChat && n.resume == w.resume
    && n.history == w.history && n.convergence == w.convergence && n.cycle >= w.cycle
  }

  datatype Action =
    | Work(next: Workflow)
    | Resume(request: ResumeRequest)
    | Promote(child: Child, binding: LiveBinding, successor: LiveBinding, done: Child, at: int)

  /** One write; a refused request leaves the workflow as it is. */
  function Apply(o: Outside, w: Workflow, a: Action): Workflow {
    match a
    case Work(n) => if LineageKept(w, n) then n else w
    case Resume(r) => if MayResume(o, w, r) then Resumed(o, w, r) else w
    case Promote(child, b, s, done, at) =>
      if MayPromote(o, w, child, b, s, done, at) then Promoted(o, w, child, b, s, done, at) else w
  }

  function After(o: Outside, w: Workflow, actions: seq<Action>): Workflow
    decreases |actions|
  {
    if actions == [] then w else After(o, Apply(o, w, actions[0]), actions[1..])
  }

  /** Whether an action moves the workflow to another conversation. */
  predicate MovesOn(o: Outside, w: Workflow, a: Action) {
    match a
    case Work(n) => false
    case Resume(r) => r.successor.Some? && MayResume(o, w, r)
    case Promote(child, b, s, done, at) => MayPromote(o, w, child, b, s, done, at)
  }

  function Moves(o: Outside, w: Workflow, actions: seq<Action>): nat
    decreases |actions|
  {
    if actions == [] then 0
    else (if MovesOn(o, w, actions[0]) then 1 else 0) + Moves(o, Apply(o, w, actions[0]), actions[1..])
  }

  lemma StepKeepsChain(o: Outside, w: Workflow, a: Action)
    requires w.convergence && IsChain(o, w)
    ensures var n := Apply(o, w, a);
      && n.convergence && IsChain(o, n) && w.history <= n.history && n.cycle >= w.cycle
      && |n.history| == |w.history| + (if MovesOn(o, w, a) then 1 else 0)
  {
    hide IsChain, ContinuesChain, ValidCheckpoint, SuccessorVerified, AnswerReconciled, ReviewedSuccessor;
    match a
    case Work(n) =>
      if LineageKept(w, n) {
        PhaseDoesNotMatter(o, w, n);
      }
    case Resume(r) =>
      if MayResume(o, w, r) {
        ResumeAcceptedExactly(o, w, r);
      }
    case Promote(child, b, s, done, at) =>
      if MayPromote(o, w, child, b, s, done, at) {
        var request := PromotionRequest(w, child, b, s, at);
        assert MayResume(o, ReadyToResume(w), request);
        ResumeAcceptedExactly(o, ReadyToResume(w), request);
        PhaseDoesNotMatter(o, Resumed(o, ReadyToResume(w), request), Promoted(o, w, child, b, s, done, at));
      }
  }

  /** Over every run of resumes, promotions and other writes, granted or refused, the chain stays a
      chain, its history is only ever appended to, and the generation has grown by exactly the number
      of moves to another conversation, never past 32. */
  lemma {:induction false} RunsKeepTheChain(o: Outside, w: Workflow, actions: seq<Action>)
    requires w.convergence && IsChain(o, w)
    ensures var n := After(o, w, actions);
      && IsChain(o, n) && w.history <= n.history
      && GenerationOf(n) == GenerationOf(w) + Moves(o, w, actions) <= MAX_CHAT_GENERATIONS
    decreases |actions|
  {
    hide IsChain, Apply, MovesOn;
    if actions != [] {
      StepKeepsChain(o, w, actions[0]);
      GenerationCounts(o, Apply(o, w, actions[0]));
      RunsKeepTheChain(o, Apply(o, w, actions[0]), actions[1..]);
    }
    GenerationCounts(o, w);
    GenerationCounts(o, After(o, w, actions));
  }

  lemma GenerationCounts(o: Outside, w: Workflow)
    requires IsChain(o, w)
    ensures |w.history| == GenerationOf(w) <= MAX_CHAT_GENERATIONS
  {
  }
}
