/** The broker lease and the fencing of browser children (src/broker-lease.mjs,
    src/ego-adapter.mjs) as interleaved steps over a shared directory. Every read and every
    write of a shared file, every liveness check and every hand-over is a step of its own;
    processes may crash between any two of them. */
module BrokerLease {
  import opened Prelude

  const MAX_ATTEMPTS: nat := 4

  /** The claim in `broker.lock`. A child's pid is also the id of its process group, and it is
      recorded and checked as both; a group with a live member counts as live. */
  datatype Owner = Owner(id: nat, pid: nat, epoch: nat, active: bool, children: set<nat>)

  /** The one browser operation of a broker's lane. */
  datatype Operation =
    | NoOperation
    | Spawned(child: nat)
    | Adding(child: nat)
    | Registered(child: nat)
    | HandedOver(child: nat)
    | Removing(child: nat)

  /** Where a broker process is in `acquireBrokerLease` and in the life of its lease. */
  datatype Phase =
    | Idle(attempt: nat)
    | Read(attempt: nat, seen: Owner)
    | Clear(attempt: nat, seen: Owner)
    | Claiming(attempt: nat)
    | Linked(id: nat)
    | EpochRead(id: nat, previous: nat)
    | EpochWritten(id: nat, epoch: nat)
    | Activated(id: nat, epoch: nat)
    | Active(id: nat, epoch: nat, ledger: set<nat>, operation: Operation)
    | Releasing(id: nat, epoch: nat)
    | Aborting(id: nat)
    | Unlinking(id: nat)
    | Finished

  /** The shared files, the live processes and what has happened so far. */
  datatype World = World(
    lock: Option<Owner>,
    epoch: nat,
    brokers: map<nat, Phase>,
    children: set<nat>,
    handed: map<nat, nat>,
    pids: set<nat>,
    ids: set<nat>,
    activated: seq<nat>)

  datatype Action =
    | Start(pid: nat)
    | Inspect(pid: nat)
    | CheckLive(pid: nat)
    | Retire(pid: nat)
    | Link(pid: nat, id: nat)
    | ReadEpoch(pid: nat)
    | WriteEpoch(pid: nat)
    | Activate(pid: nat)
    | Settle(pid: nat)
    | Abort(pid: nat)
    | CheckOwn(pid: nat)
    | UnlinkOwn(pid: nat)
    | Spawn(pid: nat, child: nat)
    | RegisterRead(pid: nat)
    | RegisterWrite(pid: nat)
    | HandOver(pid: nat)
    | GiveUp(pid: nat)
    | UnregisterRead(pid: nat)
    | UnregisterWrite(pid: nat)
    | ReleaseCheck(pid: nat)
    | ReleaseUnlink(pid: nat)
    | ChildDies(child: nat)
    | Crash(pid: nat)

  function Initial(): World {
    World(None, 0, map[], {}, map[], {}, {}, [])
  }

  /** `liveOwnerProcesses`: whether any process the claim records is alive. */
  predicate RecordsLife(w: World, o: Owner) {
    o.pid in w.brokers || exists c :: c in o.children && c in w.children
  }

  /** The claim in the lock is the one this broker wrote. */
  predicate Owns(w: World, pid: nat, id: nat, epoch: nat) {
    w.lock.Some? && w.lock.value.id == id && w.lock.value.epoch == epoch && w.lock.value.pid == pid
  }

  function Goto(w: World, pid: nat, phase: Phase): World {
    w.(brokers := w.brokers[pid := phase])
  }

  predicate ActiveAt(w: World, pid: nat) {
    pid in w.brokers && w.brokers[pid].Active?
  }

  /** Whether an action can be taken now. */
  predicate Enabled(w: World, a: Action) {
    match a
    case Start(p) => p !in w.pids
    case Inspect(p) => p in w.brokers && w.brokers[p].Idle?
    case CheckLive(p) => p in w.brokers && w.brokers[p].Read?
    case Retire(p) => p in w.brokers && w.brokers[p].Clear?
    case Link(p, id) => p in w.brokers && w.brokers[p].Claiming? && id !in w.ids
    case ReadEpoch(p) => p in w.brokers && w.brokers[p].Linked?
    case WriteEpoch(p) => p in w.brokers && w.brokers[p].EpochRead?
    case Activate(p) => p in w.brokers && w.brokers[p].EpochWritten?
    case Settle(p) => p in w.brokers && w.brokers[p].Activated?
    case Abort(p) =>
      && p in w.brokers
      && var b := w.brokers[p]; b.Linked? || b.EpochRead? || b.EpochWritten? || b.Activated?
    case CheckOwn(p) => p in w.brokers && w.brokers[p].Aborting?
    case UnlinkOwn(p) => p in w.brokers && w.brokers[p].Unlinking?
    case Spawn(p, c) => ActiveAt(w, p) && w.brokers[p].operation.NoOperation? && c !in w.pids
    case RegisterRead(p) => ActiveAt(w, p) && w.brokers[p].operation.Spawned?
    case RegisterWrite(p) => ActiveAt(w, p) && w.brokers[p].operation.Adding?
    case HandOver(p) => ActiveAt(w, p) && w.brokers[p].operation.Registered?
    case GiveUp(p) => ActiveAt(w, p)
    case UnregisterRead(p) =>
      && ActiveAt(w, p)
      && var o := w.brokers[p].operation; (o.Registered? || o.HandedOver?) && o.child !in w.children
    case UnregisterWrite(p) => ActiveAt(w, p) && w.brokers[p].operation.Removing?
    case ReleaseCheck(p) => ActiveAt(w, p) && w.brokers[p].operation.NoOperation?
    case ReleaseUnlink(p) => p in w.brokers && w.brokers[p].Releasing?
    case ChildDies(c) => c in w.children
    case Crash(p) => p in w.brokers
  }

  /** A claim written anew by its owner with the current ledger (`writeAtomic` replaces whatever
      is in the lock). */
  function Rewritten(pid: nat, b: Phase): Option<Owner>
    requires b.Active?
  {
    Some(Owner(b.id, pid, b.epoch, true, b.ledger))
  }

  function Step(w: World, a: Action): World
    requires Enabled(w, a)
  {
    match a
    case Start(p) => Goto(w.(pids := w.pids + {p}), p, Idle(0))
    case Inspect(p) =>
      var k := w.brokers[p].attempt;
      if k >= MAX_ATTEMPTS then Goto(w, p, Finished)
      else if w.lock.None? then Goto(w, p, Claiming(k))
      else Goto(w, p, Read(k, w.lock.value))
    case CheckLive(p) =>
      var b := w.brokers[p];
      if RecordsLife(w, b.seen) then Goto(w, p, Finished) else Goto(w, p, Clear(b.attempt, b.seen))
    case Retire(p) =>
      var k := w.brokers[p].attempt;
      if w.lock.None? then Goto(w, p, Idle(k + 1)) else Goto(w.(lock := None), p, Claiming(k))
    case Link(p, id) =>
      if w.lock.Some? then Goto(w, p, Idle(w.brokers[p].attempt + 1))
      else Goto(w.(lock := Some(Owner(id, p, 0, false, {})), ids := w.ids + {id}), p, Linked(id))
    case ReadEpoch(p) => Goto(w, p, EpochRead(w.brokers[p].id, w.epoch))
    case WriteEpoch(p) =>
      var next := w.brokers[p].previous + 1;
      Goto(w.(epoch := next), p, EpochWritten(w.brokers[p].id, next))
    case Activate(p) =>
      var b := w.brokers[p];
      Goto(w.(lock := Some(Owner(b.id, p, b.epoch, true, {})), activated := w.activated + [b.epoch]),
           p, Activated(b.id, b.epoch))
    case Settle(p) => Goto(w, p, Active(w.brokers[p].id, w.brokers[p].epoch, {}, NoOperation))
    case Abort(p) => Goto(w, p, Aborting(w.brokers[p].id))
    case CheckOwn(p) =>
      var id := w.brokers[p].id;
      Goto(w, p, if w.lock.Some? && w.lock.value.id == id then Unlinking(id) else Finished)
    case UnlinkOwn(p) => Goto(w.(lock := None), p, Finished)
    case Spawn(p, c) =>
      Goto(w.(pids := w.pids + {c}, children := w.children + {c}), p, w.brokers[p].(operation := Spawned(c)))
    case RegisterRead(p) =>
      var b := w.brokers[p];
      Goto(w, p,
           if Owns(w, p, b.id, b.epoch)
           then b.(ledger := b.ledger + {b.operation.child}, operation := Adding(b.operation.child))
           else b.(operation := NoOperation))
    case RegisterWrite(p) =>
      var b := w.brokers[p];
      Goto(w.(lock := Rewritten(p, b)), p, b.(operation := Registered(b.operation.child)))
    case HandOver(p) =>
      var b := w.brokers[p];
      Goto(w.(handed := w.handed[b.operation.child := b.id]), p, b.(operation := HandedOver(b.operation.child)))
    case GiveUp(p) => Goto(w, p, w.brokers[p].(operation := NoOperation))
    case UnregisterRead(p) =>
      var b := w.brokers[p];
      Goto(w, p,
           if Owns(w, p, b.id, b.epoch)
           then b.(ledger := b.ledger - {b.operation.child}, operation := Removing(b.operation.child))
           else b.(operation := NoOperation))
    case UnregisterWrite(p) =>
      var b := w.brokers[p];
      Goto(w.(lock := Rewritten(p, b)), p, b.(operation := NoOperation))
    case ReleaseCheck(p) =>
      var b := w.brokers[p];
      if && w.lock.Some? && w.lock.value.id == b.id && w.lock.value.epoch == b.epoch
         && forall c :: c in w.lock.value.children ==> c !in w.children
      then Goto(w, p, Releasing(b.id, b.epoch))
      else w
    case ReleaseUnlink(p) => Goto(w.(lock := None), p, Finished)
    case ChildDies(c) => w.(children := w.children - {c})
    case Crash(p) => w.(brokers := w.brokers - {p})
  }

  /** The worlds a list of actions goes through, if each was possible. */
  ghost predicate Run(w: World, actions: seq<Action>, worlds: seq<World>) {
    && |worlds| == |actions| + 1 && worlds[0] == w
    && forall i :: 0 <= i < |actions| ==> Enabled(worlds[i], actions[i]) && worlds[i + 1] == Step(worlds[i], actions[i])
  }

  // ---- what must hold -------------------------------------------------

  /** All live children that were handed a driver belong to one broker generation. */
  ghost predicate OneGeneration(w: World) {
    forall c, d :: c in w.handed && d in w.handed && c in w.children && d in w.children ==> w.handed[c] == w.handed[d]
  }

  predicate Increasing(s: seq<nat>) {
    forall i, j :: 0 <= i < j < |s| ==> s[i] < s[j]
  }

  /** The phases in which a broker relies on its claim being in the lock. */
  predicate Holding(b: Phase) {
    || b.Linked? || b.EpochRead? || b.EpochWritten? || b.Activated? || b.Active? || b.Releasing?
    || b.Aborting? || b.Unlinking?
  }

  /** Nothing that a claim names relies on it: its broker is gone or has given the claim up, and
      none of its children is alive with a driver. */
  predicate Abandoned(w: World, o: Owner) {
    && !(o.pid in w.brokers && Holding(w.brokers[o.pid]))
    && forall c :: c in o.children && c in w.children ==> c !in w.handed
  }

  /** A rename that takes a claim away takes an abandoned one: the liveness check still holds of
      the claim that is in the lock at the rename. The file system does not give the broker this
      guarantee. */
  predicate TakesAbandoned(w: World, a: Action) {
    a.Retire? && w.lock.Some? ==> Abandoned(w, w.lock.value)
  }

  /** The claim a broker inspected is still the very same when it renames it away. */
  predicate RenamesWhatItRead(w: World, a: Action) {
    a.Retire? && w.lock.Some? && a.pid in w.brokers && w.brokers[a.pid].Clear? ==>
      w.lock.value == w.brokers[a.pid].seen
  }

  /** Every rename of a run takes an abandoned claim away. */
  ghost predicate Undisturbed(actions: seq<Action>, worlds: seq<World>)
    requires |worlds| == |actions| + 1
  {
    forall i :: 0 <= i < |actions| ==> TakesAbandoned(worlds[i], actions[i])
  }

  predicate HoldsClaim(w: World, pid: nat)
    requires pid in w.brokers && Holding(w.brokers[pid])
  {
    && w.lock.Some? && w.lock.value.pid == pid && w.lock.value.id == w.brokers[pid].id
    && (w.brokers[pid].Active? || w.brokers[pid].Releasing? || w.brokers[pid].Activated? ==>
          w.lock.value.epoch == w.brokers[pid].epoch)
  }

  /** Every broker that relies on its claim has it in the lock. */
  ghost predicate Mutex(w: World) {
    forall p :: p in w.brokers && Holding(w.brokers[p]) ==> HoldsClaim(w, p)
  }

  ghost predicate AtMostOneHolder(w: World) {
    forall p, q ::
      p in w.brokers && q in w.brokers && Holding(w.brokers[p]) && Holding(w.brokers[q]) ==> p == q
  }

  /** Every live child that was handed a driver is recorded in the claim of its generation. */
  ghost predicate Fenced(w: World) {
    forall c :: c in w.handed && c in w.children ==>
      w.lock.Some? && w.lock.value.id == w.handed[c] && c in w.lock.value.children
  }

  /** What an operation of the lane has already made sure of. */
  predicate OperationSound(w: World, b: Phase, pid: nat)
    requires b.Active?
  {
    match b.operation
    case Registered(c) => w.lock.Some? && c in w.lock.value.children && c in b.ledger
    case HandedOver(c) => w.lock.Some? && c in w.lock.value.children && c in b.ledger
    case Adding(c) => c in b.ledger && c !in w.handed
    case Spawned(c) => c !in w.handed
    case Removing(c) => c !in w.children
    case NoOperation => true
  }

  /** The ledger of an active broker covers its claim's live handed children. */
  predicate LedgerSound(w: World, pid: nat)
    requires ActiveAt(w, pid)
  {
    var b := w.brokers[pid];
    && OperationSound(w, b, pid)
    && (w.lock.Some? ==> forall c :: c in w.lock.value.children && c in w.children && c in w.handed ==> c in b.ledger)
  }

  /** Death is permanent: what a broker has found dead stays dead. */
  predicate CheckSound(w: World, p: nat)
    requires p in w.brokers
  {
    var b := w.brokers[p];
    && (b.Read? || b.Clear? ==> SeenIsPast(w, b.seen))
    && (b.Clear? ==> !RecordsLife(w, b.seen))
  }

  ghost predicate ChecksSound(w: World) {
    forall p :: p in w.brokers ==> CheckSound(w, p)
  }

  /** Everything a claim records was a process once, so it can only die, not be born. */
  predicate SeenIsPast(w: World, o: Owner) {
    o.pid in w.pids && forall c :: c in o.children ==> c in w.pids
  }

  /** Every process there is or was is among the pids. */
  ghost predicate ProcessesKnown(w: World) {
    && (forall p :: p in w.brokers ==> p in w.pids)
    && (forall c :: c in w.children ==> c in w.pids)
    && (forall c :: c in w.handed ==> c in w.pids)
  }

  predicate LaneKnown(w: World, p: nat)
    requires ActiveAt(w, p)
  {
    && (forall c :: c in w.brokers[p].ledger ==> c in w.pids)
    && (!w.brokers[p].operation.NoOperation? ==> w.brokers[p].operation.child in w.pids)
  }

  /** So is every process a claim or a ledger names. */
  ghost predicate RecordsKnown(w: World) {
    && (w.lock.Some? ==> SeenIsPast(w, w.lock.value))
    && (forall p :: ActiveAt(w, p) ==> LaneKnown(w, p))
  }

  ghost predicate PidsSound(w: World) {
    ProcessesKnown(w) && RecordsKnown(w)
  }

  ghost predicate ActivatedBelow(w: World, bound: int) {
    forall i :: 0 <= i < |w.activated| ==> w.activated[i] < bound
  }

  /** Where a broker is with the epoch file, which only the holder of the claim writes. */
  ghost predicate EpochSound(w: World, p: nat)
    requires p in w.brokers
  {
    && (w.brokers[p].EpochRead? ==> w.brokers[p].previous == w.epoch)
    && (w.brokers[p].EpochWritten? ==> w.brokers[p].epoch == w.epoch && ActivatedBelow(w, w.epoch))
  }

  ghost predicate EpochsSound(w: World) {
    && Increasing(w.activated) && ActivatedBelow(w, w.epoch + 1)
    && forall p :: p in w.brokers ==> EpochSound(w, p)
  }

  ghost predicate Quiet(w: World) {
    forall c :: c in w.handed ==> c !in w.children
  }

  /** Only an active broker has live children with a driver. */
  ghost predicate QuietUnlessActive(w: World) {
    forall p :: p in w.brokers && Holding(w.brokers[p]) && !w.brokers[p].Active? ==> Quiet(w)
  }

  ghost predicate LedgersSound(w: World) {
    forall p :: ActiveAt(w, p) ==> LedgerSound(w, p)
  }

  ghost predicate Sound(w: World) {
    && Mutex(w) && Fenced(w) && ChecksSound(w) && PidsSound(w) && EpochsSound(w)
    && QuietUnlessActive(w) && LedgersSound(w)
  }

  lemma InitiallySound()
    ensures Sound(Initial())
  {
  }

  /** A process that appears is a new one. */
  lemma OnlyNewPidsAppear(w: World, a: Action)
    requires Enabled(w, a)
    ensures var next := Step(w, a);
            && w.pids <= next.pids
            && (forall p :: p in next.brokers ==> p in w.brokers || (p !in w.pids && p in next.pids))
            && (forall c :: c in next.children ==> c in w.children || (c !in w.pids && c in next.pids))
  {
  }

  /** Only a hand-over adds a child with a driver, and only to the child of its operation. */
  lemma HandedGrows(w: World, a: Action)
    requires Enabled(w, a)
    ensures forall c :: c in Step(w, a).handed ==>
              c in w.handed || (a.HandOver? && c == w.brokers[a.pid].operation.child)
    ensures forall c :: c in w.handed && c in Step(w, a).handed ==>
              Step(w, a).handed[c] == w.handed[c] || (a.HandOver? && c == w.brokers[a.pid].operation.child)
  {
  }

  lemma ProcessesKept(w: World, a: Action)
    requires PidsSound(w) && Enabled(w, a)
    ensures ProcessesKnown(Step(w, a))
  {
    hide Step;
    OnlyNewPidsAppear(w, a);
    HandedGrows(w, a);
  }

  lemma OthersStay(w: World, a: Action, p: nat)
    requires Enabled(w, a) && (a.ChildDies? || a.pid != p)
    ensures p in Step(w, a).brokers <==> p in w.brokers
    ensures p in w.brokers ==> Step(w, a).brokers[p] == w.brokers[p]
  {
    hide RecordsLife;
  }

  /** A claim names its writer and its ledger. */
  lemma LockNamesThePast(w: World, a: Action)
    requires PidsSound(w) && Enabled(w, a)
    ensures Step(w, a).lock.Some? ==> SeenIsPast(Step(w, a), Step(w, a).lock.value)
  {
    hide RecordsLife;
  }

  lemma OwnLaneKnown(w: World, a: Action)
    requires PidsSound(w) && Enabled(w, a) && !a.ChildDies? && ActiveAt(Step(w, a), a.pid)
    ensures LaneKnown(Step(w, a), a.pid)
  {
    hide RecordsLife, ProcessesKnown, SeenIsPast;
    if ActiveAt(w, a.pid) { assert LaneKnown(w, a.pid); }
  }

  lemma RecordsKept(w: World, a: Action)
    requires PidsSound(w) && Enabled(w, a)
    ensures RecordsKnown(Step(w, a))
  {
    hide RecordsLife, Step, Enabled, ProcessesKnown;
    var next := Step(w, a);
    LockNamesThePast(w, a);
    OnlyNewPidsAppear(w, a);
    forall p | ActiveAt(next, p) ensures LaneKnown(next, p) {
      if !a.ChildDies? && a.pid == p {
        OwnLaneKnown(w, a);
      } else {
        OthersStay(w, a, p);
        assert LaneKnown(w, p);
      }
    }
  }

  /** Nothing that was a process once and is dead comes back. */
  lemma DeathIsPermanent(w: World, a: Action, o: Owner)
    requires Enabled(w, a) && SeenIsPast(w, o)
    ensures SeenIsPast(Step(w, a), o)
    ensures !RecordsLife(w, o) ==> !RecordsLife(Step(w, a), o)
  {
    hide Step, Enabled;
    OnlyNewPidsAppear(w, a);
  }

  lemma OwnCheckKept(w: World, a: Action)
    requires ChecksSound(w) && PidsSound(w) && Enabled(w, a) && !a.ChildDies? && a.pid in Step(w, a).brokers
    ensures CheckSound(Step(w, a), a.pid)
  {
    hide ProcessesKnown, LaneKnown;
    if a.pid in w.brokers { assert CheckSound(w, a.pid); }
  }

  lemma ChecksKept(w: World, a: Action)
    requires Sound(w) && Enabled(w, a)
    ensures ChecksSound(Step(w, a))
  {
    hide Fenced, EpochsSound, QuietUnlessActive, LedgersSound, Mutex, RecordsLife, SeenIsPast, PidsSound, Step, Enabled;
    var next := Step(w, a);
    forall p | p in next.brokers ensures CheckSound(next, p) {
      if !a.ChildDies? && a.pid == p {
        OwnCheckKept(w, a);
      } else {
        OthersStay(w, a, p);
        assert CheckSound(w, p);
        if w.brokers[p].Read? || w.brokers[p].Clear? { DeathIsPermanent(w, a, w.brokers[p].seen); }
      }
    }
  }

  /** An abandoned claim protects nobody. */
  lemma RetiresTheDead(w: World, a: Action)
    requires Mutex(w) && Fenced(w) && a.Retire? && w.lock.Some? && TakesAbandoned(w, a)
    ensures Quiet(w)
    ensures forall p :: p in w.brokers ==> !Holding(w.brokers[p])
  {
    assert forall p :: p in w.brokers && Holding(w.brokers[p]) ==> HoldsClaim(w, p);
  }

  /** A step of another process leaves a holder's claim alone: were it a holder too, it would
      be the same one, and a rename only removes claims of the dead. */
  lemma OthersKeepClaim(w: World, a: Action, p: nat)
    requires Mutex(w) && Enabled(w, a) && p in w.brokers && Holding(w.brokers[p])
    requires a.ChildDies? || a.pid != p
    requires !(a.Retire? && w.lock.Some?)
    ensures Step(w, a).lock == w.lock
    ensures a.Crash? || (p in Step(w, a).brokers && Step(w, a).brokers[p] == w.brokers[p])
  {
    hide RecordsLife;
    OneHolder(w);
  }

  lemma OneHolder(w: World)
    requires Mutex(w)
    ensures AtMostOneHolder(w)
    ensures forall p :: p in w.brokers && Holding(w.brokers[p]) ==> w.lock.Some?
  {
    forall p, q | p in w.brokers && q in w.brokers && Holding(w.brokers[p]) && Holding(w.brokers[q]) ensures p == q {
      assert HoldsClaim(w, p) && HoldsClaim(w, q);
    }
    forall p | p in w.brokers && Holding(w.brokers[p]) ensures w.lock.Some? { assert HoldsClaim(w, p); }
  }

  lemma OwnKeepsClaim(w: World, a: Action)
    requires Mutex(w) && Enabled(w, a) && !a.ChildDies? && a.pid in Step(w, a).brokers
    requires Holding(Step(w, a).brokers[a.pid])
    ensures HoldsClaim(Step(w, a), a.pid)
  {
    hide RecordsLife;
    if a.pid in w.brokers && Holding(w.brokers[a.pid]) { assert HoldsClaim(w, a.pid); }
  }

  lemma MutexKept(w: World, a: Action)
    requires Sound(w) && Enabled(w, a) && TakesAbandoned(w, a)
    ensures Mutex(Step(w, a))
  {
    hide Fenced, EpochsSound, QuietUnlessActive, LedgersSound, PidsSound, ChecksSound, RecordsLife, Step, Enabled,
      Abandoned;
    if a.Retire? && w.lock.Some? { RetiresTheDead(w, a); }
    var next := Step(w, a);
    forall p | p in next.brokers && Holding(next.brokers[p]) ensures HoldsClaim(next, p) {
      if !a.ChildDies? && a.pid == p {
        OwnKeepsClaim(w, a);
      } else {
        OthersStay(w, a, p);
        OthersKeepClaim(w, a, p);
      }
    }
  }

  /** Only the holder of the claim moves the epoch file or activates. */
  lemma EpochEffect(w: World, a: Action)
    requires Enabled(w, a)
    ensures a.WriteEpoch? || Step(w, a).epoch == w.epoch
    ensures a.WriteEpoch? ==> Step(w, a).epoch == w.brokers[a.pid].previous + 1
    ensures Step(w, a).activated == if a.Activate? then w.activated + [w.brokers[a.pid].epoch] else w.activated
  {
  }

  lemma OwnEpochKept(w: World, a: Action)
    requires EpochsSound(w) && Enabled(w, a) && !a.ChildDies? && a.pid in Step(w, a).brokers
    ensures EpochSound(Step(w, a), a.pid)
  {
    hide RecordsLife, Increasing;
    if a.pid in w.brokers { assert EpochSound(w, a.pid); }
  }

  lemma EpochsKept(w: World, a: Action)
    requires Sound(w) && Enabled(w, a)
    ensures EpochsSound(Step(w, a))
  {
    hide Fenced, QuietUnlessActive, LedgersSound, PidsSound, ChecksSound, RecordsLife, Step;
    var next := Step(w, a);
    EpochEffect(w, a);
    if a.WriteEpoch? || a.Activate? { assert EpochSound(w, a.pid) && HoldsClaim(w, a.pid); }
    forall p | p in next.brokers ensures EpochSound(next, p) {
      if !a.ChildDies? && a.pid == p {
        OwnEpochKept(w, a);
      } else {
        OthersStay(w, a, p);
        assert EpochSound(w, p);
        if Holding(w.brokers[p]) { assert HoldsClaim(w, p); }
      }
    }
  }

  lemma FencedKept(w: World, a: Action)
    requires Sound(w) && Enabled(w, a) && TakesAbandoned(w, a)
    ensures Fenced(Step(w, a))
  {
    hide EpochsSound, ChecksSound, RecordsLife, SeenIsPast;
    if a.Retire? && w.lock.Some? { RetiresTheDead(w, a); }
  }

  lemma QuietKept(w: World, a: Action)
    requires Sound(w) && Enabled(w, a) && TakesAbandoned(w, a)
    ensures QuietUnlessActive(Step(w, a))
  {
    hide EpochsSound, ChecksSound, RecordsLife, SeenIsPast;
    if a.Retire? && w.lock.Some? { RetiresTheDead(w, a); }
  }

  /** Only its own broker changes what an active broker's ledger is compared with. */
  lemma OthersKeepLedger(w: World, a: Action, p: nat)
    requires Sound(w) && Enabled(w, a) && TakesAbandoned(w, a)
    requires ActiveAt(w, p) && ActiveAt(Step(w, a), p) && Step(w, a).brokers[p] == w.brokers[p]
    ensures LedgerSound(Step(w, a), p)
  {
    hide EpochsSound, ChecksSound, RecordsLife, SeenIsPast, QuietUnlessActive, Fenced;
    assert HoldsClaim(w, p) && LedgerSound(w, p);
    if a.Retire? && w.lock.Some? { RetiresTheDead(w, a); }
    if !a.ChildDies? && a.pid in w.brokers && Holding(w.brokers[a.pid]) { assert HoldsClaim(w, a.pid); }
  }

  lemma OwnKeepsLedger(w: World, a: Action, p: nat)
    requires Sound(w) && Enabled(w, a)
    requires !a.ChildDies? && a.pid == p && ActiveAt(Step(w, a), p)
    ensures LedgerSound(Step(w, a), p)
  {
    hide EpochsSound, ChecksSound, RecordsLife, SeenIsPast, Fenced;
    assert ActiveAt(w, p) ==> HoldsClaim(w, p) && LedgerSound(w, p);
  }

  lemma LedgersKept(w: World, a: Action)
    requires Sound(w) && Enabled(w, a) && TakesAbandoned(w, a)
    ensures LedgersSound(Step(w, a))
  {
    hide Mutex, Fenced, ChecksSound, PidsSound, EpochsSound, QuietUnlessActive, LedgerSound, RecordsLife;
    var next := Step(w, a);
    forall p | ActiveAt(next, p) ensures LedgerSound(next, p) {
      if !a.ChildDies? && a.pid == p {
        OwnKeepsLedger(w, a, p);
      } else {
        OthersKeepLedger(w, a, p);
      }
    }
  }

  lemma StepSound(w: World, a: Action)
    requires Sound(w) && Enabled(w, a) && TakesAbandoned(w, a)
    ensures Sound(Step(w, a))
  {
    hide Mutex, Fenced, ChecksSound, ProcessesKnown, RecordsKnown, EpochsSound, QuietUnlessActive, LedgersSound, Step,
      Enabled;
    ProcessesKept(w, a);
    RecordsKept(w, a);
    ChecksKept(w, a);
    MutexKept(w, a);
    EpochsKept(w, a);
    FencedKept(w, a);
    QuietKept(w, a);
    LedgersKept(w, a);
  }

  lemma {:induction false} RunSound(actions: seq<Action>, worlds: seq<World>, i: nat)
    requires Run(Initial(), actions, worlds) && i < |worlds|
    requires forall j :: 0 <= j < i ==> TakesAbandoned(worlds[j], actions[j])
    ensures Sound(worlds[i])
  {
    hide Sound, Step, Enabled, TakesAbandoned;
    if i == 0 {
      InitiallySound();
    } else {
      RunSound(actions, worlds, i - 1);
      StepSound(worlds[i - 1], actions[i - 1]);
    }
  }

  lemma RunLength(actions: seq<Action>, worlds: seq<World>)
    requires Run(Initial(), actions, worlds)
    ensures |worlds| == |actions| + 1
  {
  }

  /** Safety of the lease in every interleaving with crashes in which each rename takes an
      abandoned claim away: all live browser children that were handed a driver belong to one
      generation, the one in the lock; at most one broker holds the claim; and the epochs of
      activated generations strictly increase. */
  lemma ChildrenAreFenced(actions: seq<Action>, worlds: seq<World>, i: nat)
    requires Run(Initial(), actions, worlds) && Undisturbed(actions, worlds) && i < |worlds|
    ensures OneGeneration(worlds[i])
    ensures Fenced(worlds[i])
    ensures AtMostOneHolder(worlds[i])
    ensures Increasing(worlds[i].activated)
  {
    hide LedgersSound, QuietUnlessActive, PidsSound, ChecksSound, Step, Enabled, Run, TakesAbandoned;
    RunLength(actions, worlds);
    RunSound(actions, worlds, i);
    OneHolder(worlds[i]);
  }

  /** Exactly which renames are safe: mutual exclusion and the fence survive one if and only if the
      claim it takes away, as it is in the lock at that moment, is abandoned. */
  lemma RetireSafeExactly(w: World, p: nat)
    requires Sound(w) && Enabled(w, Retire(p))
    ensures Mutex(Step(w, Retire(p))) && Fenced(Step(w, Retire(p))) <==> TakesAbandoned(w, Retire(p))
  {
    hide ChecksSound, PidsSound, EpochsSound, QuietUnlessActive, LedgersSound;
    if TakesAbandoned(w, Retire(p)) {
      if w.lock.Some? { RetiresTheDead(w, Retire(p)); }
      NothingElseRetires(w, p);
    } else {
      BreaksFence(w, p);
    }
  }

  lemma NothingElseRetires(w: World, p: nat)
    requires Sound(w) && Enabled(w, Retire(p)) && TakesAbandoned(w, Retire(p))
    ensures Mutex(Step(w, Retire(p))) && Fenced(Step(w, Retire(p)))
  {
    hide Sound, Step, Mutex, Fenced;
    StepSound(w, Retire(p));
    SoundIsSafe(Step(w, Retire(p)));
  }

  lemma SoundIsSafe(w: World)
    requires Sound(w)
    ensures Mutex(w) && Fenced(w)
  {
  }

  lemma BreaksFence(w: World, p: nat)
    requires Enabled(w, Retire(p)) && !TakesAbandoned(w, Retire(p))
    ensures !(Mutex(Step(w, Retire(p))) && Fenced(Step(w, Retire(p))))
  {
    var o, next := w.lock.value, Step(w, Retire(p));
    if o.pid in w.brokers && Holding(w.brokers[o.pid]) {
      assert o.pid in next.brokers && Holding(next.brokers[o.pid]) && !HoldsClaim(next, o.pid);
    } else {
      var c :| c in o.children && c in w.children && c in w.handed;
      assert c in next.handed && c in next.children && next.lock.None?;
    }
  }

  /** And over whole runs: mutual exclusion and the fence hold in every world of a run if and only
      if each of its renames takes away a claim that is abandoned at that moment. */
  lemma FencedExactly(actions: seq<Action>, worlds: seq<World>)
    requires Run(Initial(), actions, worlds)
    ensures Undisturbed(actions, worlds) <==> forall i :: 0 <= i < |worlds| ==> Mutex(worlds[i]) && Fenced(worlds[i])
  {
    hide Sound, Step, Enabled, TakesAbandoned, Mutex, Fenced;
    if Undisturbed(actions, worlds) {
      forall i | 0 <= i < |worlds| ensures Mutex(worlds[i]) && Fenced(worlds[i]) {
        RunSound(actions, worlds, i);
        SoundIsSafe(worlds[i]);
      }
    } else {
      var j := FirstDisturbance(actions, worlds, |actions|);
      DisturbanceIsARetire(worlds[j], actions[j]);
      BreaksFence(worlds[j], actions[j].pid);
      assert worlds[j + 1] == Step(worlds[j], actions[j]) && !(Mutex(worlds[j + 1]) && Fenced(worlds[j + 1]));
    }
  }

  lemma DisturbanceIsARetire(w: World, a: Action)
    requires !TakesAbandoned(w, a)
    ensures a.Retire? && a == Retire(a.pid)
  {
  }

  lemma FirstDisturbance(actions: seq<Action>, worlds: seq<World>, n: nat) returns (j: nat)
    requires |worlds| == |actions| + 1 && n <= |actions|
    requires exists i :: 0 <= i < n && !TakesAbandoned(worlds[i], actions[i])
    ensures j < n && !TakesAbandoned(worlds[j], actions[j])
    ensures forall i :: 0 <= i < j ==> TakesAbandoned(worlds[i], actions[i])
  {
    j := 0;
    while TakesAbandoned(worlds[j], actions[j])
      invariant j < n && forall i :: 0 <= i < j ==> TakesAbandoned(worlds[i], actions[i])
      decreases n - j
    {
      j := j + 1;
    }
  }

  /** A broker that repeats its liveness check on the claim in the lock and finds nothing that the
      claim records alive, takes an abandoned claim away. */
  lemma RecheckSuffices(w: World, a: Action)
    requires w.lock.Some? ==> !RecordsLife(w, w.lock.value)
    ensures TakesAbandoned(w, a)
  {
  }

  /** So does a broker that renames the very claim it read and checked: what was dead then is dead. */
  lemma UnchangedClaimSuffices(w: World, a: Action)
    requires Sound(w) && Enabled(w, a) && RenamesWhatItRead(w, a)
    ensures TakesAbandoned(w, a)
  {
    hide Mutex, Fenced, EpochsSound, QuietUnlessActive, LedgersSound, PidsSound;
    if a.Retire? && w.lock.Some? {
      assert CheckSound(w, a.pid);
      RecheckSuffices(w, a);
    }
  }
}
