/** The broker's own code for its lease and its lane (src/broker-lease.mjs, `acquireBrokerLease`,
    `registerChild`, `unregisterChild`, `release`; src/ego-adapter.mjs, `#runExclusive`), run beside
    any other processes: whatever the others do between two of its operations, every execution is
    a run of the protocol, so what is proved of runs holds of the code. */
module BrokerLeaseProgram {
  import opened Prelude
  import opened BrokerLease

  predicate IsOther(a: Action, pid: nat) {
    a.ChildDies? || a.pid != pid
  }

  /** No other process changes where a broker is in its own code. */
  lemma OthersKeepPhase(w: World, a: Action, pid: nat)
    requires Enabled(w, a) && IsOther(a, pid) && pid in w.brokers
    ensures pid in Step(w, a).brokers && Step(w, a).brokers[pid] == w.brokers[pid]
  {
  }

  lemma RunGrows(w: World, actions: seq<Action>, worlds: seq<World>, a: Action)
    requires Run(w, actions, worlds) && Enabled(worlds[|actions|], a)
    ensures Run(w, actions + [a], worlds + [Step(worlds[|actions|], a)])
  {
    hide Enabled, Step;
    var as', ws := actions + [a], worlds + [Step(worlds[|actions|], a)];
    forall i | 0 <= i < |as'| ensures Enabled(ws[i], as'[i]) && ws[i + 1] == Step(ws[i], as'[i]) {
      if i < |actions| {
        assert as'[i] == actions[i] && ws[i] == worlds[i] && ws[i + 1] == worlds[i + 1];
      }
    }
  }

  /** From action `n` on, this action was taken in this world. */
  ghost predicate TookIn(actions: seq<Action>, worlds: seq<World>, n: nat, a: Action, w: World) {
    exists i :: n <= i < |actions| && i < |worlds| && actions[i] == a && worlds[i] == w
  }

  /** From action `n` on, this broker read the lock and found this in it. */
  ghost predicate ReadIn(actions: seq<Action>, worlds: seq<World>, n: nat, pid: nat, owner: Option<Owner>) {
    exists w :: TookIn(actions, worlds, n, Inspect(pid), w) && w.lock == owner
  }

  /** From action `n` on, this broker tried to link a claim, in this world. */
  ghost predicate TriedToLink(actions: seq<Action>, worlds: seq<World>, n: nat, pid: nat, w: World) {
    exists id :: TookIn(actions, worlds, n, Link(pid, id), w)
  }

  /** Any process the claim records is alive. */
  predicate Lives(w: World, owner: Owner) {
    owner.pid in w.brokers || exists c :: c in owner.children && c in w.children
  }

  /** From action `n` on, this broker read a claim and then, in one world, found a process of it alive. */
  ghost predicate FoundAlive(actions: seq<Action>, worlds: seq<World>, n: nat, pid: nat) {
    exists owner, w ::
      ReadIn(actions, worlds, n, pid, Some(owner)) && TookIn(actions, worlds, n, CheckLive(pid), w) && Lives(w, owner)
  }

  /** From action `n` on, this broker lost this attempt: another one had renamed the stale claim away
      before it, or had linked its own. */
  ghost predicate LostAttempt(actions: seq<Action>, worlds: seq<World>, n: nat, pid: nat, attempt: nat) {
    exists w: World ::
      && pid in w.brokers
      && (|| (&& TookIn(actions, worlds, n, Retire(pid), w) && w.lock.None?
              && w.brokers[pid].Clear? && w.brokers[pid].attempt == attempt)
          || (TriedToLink(actions, worlds, n, pid, w) && w.lock.Some? && w.brokers[pid] == Claiming(attempt)))
  }

  /** From action `n` on, this claim was in the lock. */
  ghost predicate InLockIn(worlds: seq<World>, n: nat, owner: Owner) {
    exists i :: n <= i < |worlds| && worlds[i].lock == Some(owner)
  }

  lemma TookLater(acts: seq<Action>, ws: seq<World>, bs: seq<Action>, vs: seq<World>, n: nat, m: nat, a: Action,
                  w: World)
    requires acts <= bs && ws <= vs && n <= m && TookIn(acts, ws, m, a, w)
    ensures TookIn(bs, vs, n, a, w)
  {
    var i :| m <= i < |acts| && i < |ws| && acts[i] == a && ws[i] == w;
    assert bs[i] == a && vs[i] == w;
  }

  lemma ReadLater(acts: seq<Action>, ws: seq<World>, bs: seq<Action>, vs: seq<World>, n: nat, m: nat, pid: nat,
                  owner: Option<Owner>)
    requires acts <= bs && ws <= vs && n <= m && ReadIn(acts, ws, m, pid, owner)
    ensures ReadIn(bs, vs, n, pid, owner)
  {
    hide TookIn;
    var w :| TookIn(acts, ws, m, Inspect(pid), w) && w.lock == owner;
    TookLater(acts, ws, bs, vs, n, m, Inspect(pid), w);
  }

  lemma LinkLater(acts: seq<Action>, ws: seq<World>, bs: seq<Action>, vs: seq<World>, n: nat, m: nat, pid: nat,
                  w: World)
    requires acts <= bs && ws <= vs && n <= m && TriedToLink(acts, ws, m, pid, w)
    ensures TriedToLink(bs, vs, n, pid, w)
  {
    hide TookIn;
    var id :| TookIn(acts, ws, m, Link(pid, id), w);
    TookLater(acts, ws, bs, vs, n, m, Link(pid, id), w);
  }

  lemma FoundLater(acts: seq<Action>, ws: seq<World>, bs: seq<Action>, vs: seq<World>, n: nat, m: nat, pid: nat)
    requires acts <= bs && ws <= vs && n <= m && FoundAlive(acts, ws, m, pid)
    ensures FoundAlive(bs, vs, n, pid)
  {
    hide TookIn, ReadIn, Lives;
    var owner, w :| ReadIn(acts, ws, m, pid, Some(owner)) && TookIn(acts, ws, m, CheckLive(pid), w) && Lives(w, owner);
    ReadLater(acts, ws, bs, vs, n, m, pid, Some(owner));
    TookLater(acts, ws, bs, vs, n, m, CheckLive(pid), w);
  }

  lemma LostLater(acts: seq<Action>, ws: seq<World>, bs: seq<Action>, vs: seq<World>, n: nat, m: nat, pid: nat,
                  attempt: nat)
    requires acts <= bs && ws <= vs && n <= m && LostAttempt(acts, ws, m, pid, attempt)
    ensures LostAttempt(bs, vs, n, pid, attempt)
  {
    hide TookIn, TriedToLink;
    var w: World :|
      && pid in w.brokers
      && (|| (&& TookIn(acts, ws, m, Retire(pid), w) && w.lock.None?
              && w.brokers[pid].Clear? && w.brokers[pid].attempt == attempt)
          || (TriedToLink(acts, ws, m, pid, w) && w.lock.Some? && w.brokers[pid] == Claiming(attempt)));
    if TriedToLink(acts, ws, m, pid, w) { LinkLater(acts, ws, bs, vs, n, m, pid, w); }
    if TookIn(acts, ws, m, Retire(pid), w) { TookLater(acts, ws, bs, vs, n, m, Retire(pid), w); }
  }

  /** The steps of a broker that has linked its claim. */
  lemma EpochSteps(w: World, pid: nat)
    requires pid in w.brokers
    ensures w.brokers[pid].Linked? ==>
      Enabled(w, ReadEpoch(pid)) && Step(w, ReadEpoch(pid)) == Goto(w, pid, EpochRead(w.brokers[pid].id, w.epoch))
    ensures w.brokers[pid].EpochRead? ==>
      var next := w.brokers[pid].previous + 1;
      && Enabled(w, WriteEpoch(pid))
      && Step(w, WriteEpoch(pid)) == Goto(w.(epoch := next), pid, EpochWritten(w.brokers[pid].id, next))
    ensures w.brokers[pid].EpochWritten? ==>
      var b, after := w.brokers[pid], Step(w, Activate(pid));
      && Enabled(w, Activate(pid)) && after.lock == Some(Owner(b.id, pid, b.epoch, true, {})) && after.epoch == w.epoch
      && after.brokers == w.brokers[pid := Activated(b.id, b.epoch)]
    ensures w.brokers[pid].Activated? ==>
      var b := w.brokers[pid];
      && Enabled(w, Settle(pid)) && Step(w, Settle(pid)) == Goto(w, pid, Active(b.id, b.epoch, {}, NoOperation))
  {
  }

  /** The data directory and the process table. `schedule` is what the other processes do before
      each operation, so it stands for every interleaving; `uuid` and `newPid` never repeat
      themselves. */
  class Directory {
    const schedule: nat -> seq<Action>
    const uuid: set<nat> -> nat
    const newPid: set<nat> -> nat
    var world: World
    var clock: nat
    ghost var actions: seq<Action>
    ghost var worlds: seq<World>

    ghost predicate Valid()
      reads this
    {
      && Run(Initial(), actions, worlds) && |worlds| == |actions| + 1 && worlds[|actions|] == world
      && (forall ids :: uuid(ids) !in ids) && forall pids :: newPid(pids) !in pids
    }

    /** Nobody else does anything. */
    ghost predicate Quiet() {
      forall k :: schedule(k) == []
    }

    /** What has happened has happened. */
    ghost predicate Kept(earlier: seq<Action>, through: seq<World>)
      reads this
    {
      earlier <= actions && through <= worlds
    }

    /** Since action `n` this action was taken, in this world. */
    ghost predicate Took(n: nat, a: Action, w: World)
      reads this
    {
      |worlds| == |actions| + 1 && TookIn(actions, worlds, n, a, w)
    }

    /** Where a broker is in its code. */
    ghost predicate At(pid: nat, phase: Phase)
      reads this
    {
      pid in world.brokers && world.brokers[pid] == phase
    }

    method Take(a: Action)
      requires Valid() && Enabled(world, a)
      modifies this`world, this`actions, this`worlds
      ensures Valid() && world == Step(old(world), a)
      ensures actions == old(actions) + [a] && worlds == old(worlds) + [world]
      ensures Took(|old(actions)|, a, old(world))
    {
      hide Step, Enabled, Run;
      RunGrows(Initial(), actions, worlds, a);
      RunLength(actions, worlds);
      ghost var n, before := |actions|, world;
      actions, worlds := actions + [a], worlds + [Step(world, a)];
      world := Step(world, a);
      assert actions[n] == a && worlds[n] == before;
    }

    /** Everything the other processes do before the next operation of `pid`. */
    method Others(pid: nat)
      requires Valid() && pid in world.brokers
      modifies this
      ensures Valid() && At(pid, old(world.brokers[pid])) && Kept(old(actions), old(worlds))
      ensures old(world.pids) <= world.pids
      ensures forall c :: c in old(world.pids) && c !in old(world.children) ==> c !in world.children
      ensures Quiet() ==> world == old(world)
    {
      var others := schedule(clock);
      clock := clock + 1;
      var i := 0;
      while i < |others|
        invariant 0 <= i <= |others|
        invariant Valid() && At(pid, old(world.brokers[pid])) && Kept(old(actions), old(worlds))
        invariant old(world.pids) <= world.pids
        invariant forall c :: c in old(world.pids) && c !in old(world.children) ==> c !in world.children
        invariant Quiet() ==> world == old(world)
      {
        Other(pid, others[i]);
        i := i + 1;
      }
    }

    method Other(pid: nat, a: Action)
      requires Valid() && pid in world.brokers
      modifies this`world, this`actions, this`worlds
      ensures Valid() && At(pid, old(world.brokers[pid])) && Kept(old(actions), old(worlds))
      ensures old(world.pids) <= world.pids
      ensures forall c :: c in old(world.pids) && c !in old(world.children) ==> c !in world.children
    {
      hide Step, Enabled, Run, Valid;
      if IsOther(a, pid) && Enabled(world, a) {
        OthersKeepPhase(world, a, pid);
        OnlyNewPidsAppear(world, a);
        Take(a);
      }
    }

    /** Reads the lock, as `inspectClaim` does. */
    method InspectClaim(pid: nat, ghost attempt: nat) returns (owner: Option<Owner>)
      requires Valid() && At(pid, Idle(attempt)) && attempt < MAX_ATTEMPTS
      modifies this
      ensures Valid() && Kept(old(actions), old(worlds))
      ensures At(pid, if owner.None? then Claiming(attempt) else Read(attempt, owner.value))
      ensures ReadIn(actions, worlds, |old(actions)|, pid, owner)
      ensures Quiet() ==> owner == old(world.lock) && SameFiles(old(world))
    {
      hide Run;
      Others(pid);
      owner := world.lock;
      Take(Inspect(pid));
    }

    /** The shared files and the processes are as they were. */
    ghost predicate SameFiles(w: World)
      reads this
    {
      && world.lock == w.lock && world.epoch == w.epoch && world.children == w.children
      && world.brokers.Keys == w.brokers.Keys
    }

    /** `liveOwnerProcesses`: a loop over every process the claim records, its broker first. */
    method AnyAlive(pid: nat, owner: Owner, ghost attempt: nat) returns (alive: bool, ghost at: World)
      requires Valid() && At(pid, Read(attempt, owner))
      modifies this
      ensures Valid() && Kept(old(actions), old(worlds))
      ensures Took(|old(actions)|, CheckLive(pid), at)
      ensures alive <==> owner.pid in at.brokers || exists c :: c in owner.children && c in at.children
      ensures At(pid, if alive then Finished else Clear(attempt, owner))
      ensures Quiet() ==> at == old(world) && SameFiles(old(world))
    {
      hide Run;
      Others(pid);
      at := world;
      alive := owner.pid in world.brokers;
      var rest := owner.children;
      while rest != {} && !alive
        invariant rest <= owner.children
        invariant alive ==> owner.pid in at.brokers || exists c :: c in owner.children && c in at.children
        invariant !alive ==>
                    owner.pid !in world.brokers && forall c :: c in owner.children - rest ==> c !in world.children
        decreases rest, !alive
      {
        var c :| c in rest;
        alive := c in world.children;
        rest := rest - {c};
      }
      assert alive == RecordsLife(world, owner);
      Take(CheckLive(pid));
    }

    /** `retireStaleClaim`: renames whatever is in the lock; `false` when nothing is. */
    method RetireStaleClaim(pid: nat, ghost attempt: nat, ghost seen: Owner) returns (retired: bool, ghost at: World)
      requires Valid() && At(pid, Clear(attempt, seen))
      modifies this
      ensures Valid() && Kept(old(actions), old(worlds))
      ensures At(pid, if retired then Claiming(attempt) else Idle(attempt + 1))
      ensures Took(|old(actions)|, Retire(pid), at) && retired == at.lock.Some? && world.lock.None?
      ensures pid in at.brokers && at.brokers[pid] == Clear(attempt, seen)
      ensures Quiet() ==> at == old(world) && world.epoch == old(world.epoch)
    {
      hide Run;
      Others(pid);
      at := world;
      retired := world.lock.Some?;
      Take(Retire(pid));
    }

    /** Links a fresh claim into the lock unless something is there. */
    method LinkClaim(pid: nat, ghost attempt: nat) returns (id: Option<nat>, ghost at: World)
      requires Valid() && At(pid, Claiming(attempt))
      modifies this
      ensures Valid() && Kept(old(actions), old(worlds))
      ensures At(pid, if id.Some? then Linked(id.value) else Idle(attempt + 1))
      ensures TriedToLink(actions, worlds, |old(actions)|, pid, at) && id.Some? == at.lock.None?
      ensures pid in at.brokers && at.brokers[pid] == Claiming(attempt)
      ensures Quiet() ==> at == old(world) && world.epoch == old(world.epoch)
    {
      hide Run;
      Others(pid);
      at := world;
      var brokerId := uuid(world.ids);
      id := if world.lock.None? then Some(brokerId) else None;
      Take(Link(pid, brokerId));
    }

    /** `nextEpoch`: one more than what the epoch file holds. */
    method NextEpoch(pid: nat, ghost id: nat) returns (epoch: nat, ghost at: World)
      requires Valid() && At(pid, Linked(id))
      modifies this
      ensures Valid() && Kept(old(actions), old(worlds)) && At(pid, EpochWritten(id, epoch))
      ensures Took(|old(actions)|, ReadEpoch(pid), at) && epoch == at.epoch + 1 && world.epoch == epoch
      ensures Quiet() ==> at == old(world)
    {
      hide Run, Step, Enabled;
      Others(pid);
      at := world;
      var previous := world.epoch;
      ghost var n := |actions|;
      EpochSteps(world, pid);
      Take(ReadEpoch(pid));
      assert At(pid, EpochRead(id, previous));
      Others(pid);
      epoch := previous + 1;
      EpochSteps(world, pid);
      Take(WriteEpoch(pid));
      assert actions[n] == ReadEpoch(pid) && worlds[n] == at;
    }

    /** The write that activates a claim. */
    method WriteActive(pid: nat, owner: Owner)
      requires Valid() && At(pid, EpochWritten(owner.id, owner.epoch))
               && owner == Owner(owner.id, pid, owner.epoch, true, {})
      modifies this
      ensures Valid() && Kept(old(actions), old(worlds)) && At(pid, Active(owner.id, owner.epoch, {}, NoOperation))
      ensures InLockIn(worlds, |old(actions)|, owner)
      ensures Quiet() ==> world.lock == Some(owner) && world.epoch == old(world.epoch)
    {
      hide Run, Step, Enabled;
      Others(pid);
      EpochSteps(world, pid);
      Take(Activate(pid));
      assert world.lock == Some(owner);
      ghost var n := |actions|;
      assert At(pid, Activated(owner.id, owner.epoch)) && worlds[n] == world;
      Others(pid);
      EpochSteps(world, pid);
      Take(Settle(pid));
      assert worlds[n].lock == Some(owner);
    }

    /** A process of the lane: spawned, but not yet given its input. */
    method SpawnDriver(pid: nat) returns (child: nat, ghost at: World)
      requires Valid() && ActiveAt(world, pid) && world.brokers[pid].operation.NoOperation?
      modifies this
      ensures Valid() && Kept(old(actions), old(worlds)) && child in world.pids
      ensures At(pid, old(world.brokers[pid]).(operation := Spawned(child)))
      ensures Took(|old(actions)|, Spawn(pid, child), at)
    {
      hide Run;
      Others(pid);
      at := world;
      child := newPid(world.pids);
      Take(Spawn(pid, child));
    }

    /** `readOwner` before a change of the ledger; the change itself is the lease's. */
    method ReadOwner(pid: nat, a: Action) returns (owner: Option<Owner>, ghost at: World)
      requires Valid() && Enabled(world, a)
      requires a == RegisterRead(pid) || (a == UnregisterRead(pid) && world.brokers[pid].operation.child in world.pids)
      modifies this
      ensures Valid() && Kept(old(actions), old(worlds)) && old(world.pids) <= world.pids
      ensures
        var b := old(world.brokers[pid]);
        var c := b.operation.child;
        At(pid, if owner.None? || owner.value.id != b.id || owner.value.epoch != b.epoch || owner.value.pid != pid
                then b.(operation := NoOperation)
                else if a.RegisterRead? then b.(ledger := b.ledger + {c}, operation := Adding(c))
                else b.(ledger := b.ledger - {c}, operation := Removing(c)))
      ensures Took(|old(actions)|, a, at) && owner == at.lock
    {
      hide Run;
      Others(pid);
      at := world;
      owner := world.lock;
      Take(a);
    }

    /** `writeAtomic` of a claim with a changed ledger. */
    method WriteOwner(pid: nat, owner: Owner)
      requires Valid() && ActiveAt(world, pid)
      requires world.brokers[pid].operation.Adding? || world.brokers[pid].operation.Removing?
      requires Some(owner) == Rewritten(pid, world.brokers[pid])
      modifies this
      ensures Valid() && Kept(old(actions), old(worlds)) && old(world.pids) <= world.pids
      ensures
        var b := old(world.brokers[pid]);
        At(pid, b.(operation := if b.operation.Adding? then Registered(b.operation.child) else NoOperation))
      ensures world.lock == Some(owner)
    {
      hide Run;
      Others(pid);
      if world.brokers[pid].operation.Adding? {
        Take(RegisterWrite(pid));
      } else {
        Take(UnregisterWrite(pid));
      }
    }

    /** Gives the registered child its input, which is the authority to drive the browser. */
    method GiveInput(pid: nat)
      requires Valid() && ActiveAt(world, pid) && world.brokers[pid].operation.Registered?
      modifies this
      ensures Valid() && old(actions) < actions && Kept(old(actions), old(worlds)) && old(world.pids) <= world.pids
      ensures actions[|actions| - 1] == HandOver(pid)
      ensures At(pid, old(world.brokers[pid]).(operation := HandedOver(old(world.brokers[pid]).operation.child)))
    {
      hide Run;
      Others(pid);
      Take(HandOver(pid));
    }

    /** Waits for a process group and says whether it outlived the wait. */
    method Outlives(pid: nat, child: nat) returns (alive: bool)
      requires Valid() && pid in world.brokers
      modifies this
      ensures Valid() && At(pid, old(world.brokers[pid])) && Kept(old(actions), old(worlds))
              && old(world.pids) <= world.pids
      ensures alive == (child in world.children)
    {
      hide Run;
      Others(pid);
      alive := child in world.children;
    }

    method LeaveLane(pid: nat)
      requires Valid() && ActiveAt(world, pid)
      modifies this
      ensures Valid() && Kept(old(actions), old(worlds)) && At(pid, old(world.brokers[pid]).(operation := NoOperation))
      ensures world.children == old(world.children)
    {
      hide Run;
      Take(GiveUp(pid));
    }

    /** One look at the claim before it is released. */
    method CheckRelease(pid: nat) returns (owner: Option<Owner>, alive: bool, ghost at: World)
      requires Valid() && ActiveAt(world, pid) && world.brokers[pid].operation.NoOperation?
      modifies this
      ensures Valid() && Kept(old(actions), old(worlds))
      ensures
        var b := old(world.brokers[pid]);
        At(pid, if owner.Some? && owner.value.id == b.id && owner.value.epoch == b.epoch && !alive
                then Releasing(b.id, b.epoch) else b)
      ensures Took(|old(actions)|, ReleaseCheck(pid), at) && owner == at.lock
      ensures owner.Some? ==> alive == exists c :: c in owner.value.children && c in at.children
    {
      hide Run;
      Others(pid);
      at := world;
      owner := world.lock;
      alive := owner.Some? && exists c :: c in owner.value.children && c in world.children;
      Take(ReleaseCheck(pid));
    }

    method Unlink(pid: nat)
      requires Valid() && pid in world.brokers && world.brokers[pid].Releasing?
      modifies this
      ensures Valid() && Kept(old(actions), old(worlds)) && At(pid, Finished) && world.lock.None?
    {
      hide Run;
      Others(pid);
      Take(ReleaseUnlink(pid));
    }
  }

  datatype Acquisition = Acquired(id: nat, epoch: nat) | AlreadyRunning | Contended

  /** The first half of an attempt: whether the lock is free to claim, or its owner is alive. */
  method ClearTheWay(dir: Directory, pid: nat, ghost attempt: nat) returns (clear: bool, alive: bool)
    requires dir.Valid() && dir.At(pid, Idle(attempt)) && attempt < MAX_ATTEMPTS
    modifies dir
    ensures dir.Valid() && dir.Kept(old(dir.actions), old(dir.worlds))
    ensures dir.At(pid, if alive then Finished else if clear then Claiming(attempt) else Idle(attempt + 1))
    ensures alive ==> FoundAlive(dir.actions, dir.worlds, |old(dir.actions)|, pid)
    ensures !alive && !clear ==> LostAttempt(dir.actions, dir.worlds, |old(dir.actions)|, pid, attempt)
    ensures dir.Quiet() ==>
              && (alive <==> old(dir.world.lock).Some? && Lives(old(dir.world), old(dir.world.lock).value))
              && (!alive ==> clear && dir.world.lock.None? && dir.world.epoch == old(dir.world.epoch))
  {
    hide Run, TookIn, ReadIn;
    var existing := dir.InspectClaim(pid, attempt);
    if existing.None? {
      return true, false;
    }
    ghost var n, acts, ws := |old(dir.actions)|, dir.actions, dir.worlds;
    ghost var at;
    alive, at := dir.AnyAlive(pid, existing.value, attempt);
    if alive {
      ReadLater(acts, ws, dir.actions, dir.worlds, n, n, pid, existing);
      TookLater(dir.actions, dir.worlds, dir.actions, dir.worlds, n, |acts|, CheckLive(pid), at);
      assert Lives(at, existing.value);
      return false, true;
    }
    acts := dir.actions;
    clear, at := dir.RetireStaleClaim(pid, attempt, existing.value);
    TookLater(dir.actions, dir.worlds, dir.actions, dir.worlds, n, |acts|, Retire(pid), at);
  }

  /** The second half: links a claim and activates the next epoch, unless something was linked first. */
  method Claim(dir: Directory, pid: nat, ghost attempt: nat) returns (r: Option<(nat, nat)>)
    requires dir.Valid() && dir.At(pid, Claiming(attempt))
    modifies dir
    ensures dir.Valid() && dir.Kept(old(dir.actions), old(dir.worlds))
    ensures dir.At(pid, if r.Some? then Active(r.value.0, r.value.1, {}, NoOperation) else Idle(attempt + 1))
    ensures r.None? ==> LostAttempt(dir.actions, dir.worlds, |old(dir.actions)|, pid, attempt)
    ensures r.Some? ==> InLockIn(dir.worlds, |old(dir.actions)|, Owner(r.value.0, pid, r.value.1, true, {}))
    ensures dir.Quiet() ==> (r.Some? <==> old(dir.world.lock).None?)
    ensures dir.Quiet() && r.Some? ==>
              && dir.world.lock == Some(Owner(r.value.0, pid, r.value.1, true, {}))
              && r.value.1 == old(dir.world.epoch) + 1 == dir.world.epoch
  {
    hide Run, TookIn, TriedToLink;
    ghost var at;
    var id;
    id, at := dir.LinkClaim(pid, attempt);
    if id.None? {
      return None;
    }
    var epoch;
    epoch, at := dir.NextEpoch(pid, id.value);
    dir.WriteActive(pid, Owner(id.value, pid, epoch, true, {}));
    return Some((id.value, epoch));
  }

  /** `acquireBrokerLease`: at most four attempts, each of which inspects the claim, retires it if
      everything it records is dead, links a claim of its own and activates the next epoch. It refuses
      only after it has found a process alive that the claim it read records, and is contended only
      after it has lost each of its attempts to another process. Left alone it acquires the lease
      exactly if the lock is empty or all that its claim records are dead. */
  method AcquireBrokerLease(dir: Directory, pid: nat) returns (r: Acquisition)
    requires dir.Valid() && dir.At(pid, Idle(0))
    modifies dir
    ensures dir.Valid() && dir.Kept(old(dir.actions), old(dir.worlds))
    ensures r.Acquired? ==> dir.At(pid, Active(r.id, r.epoch, {}, NoOperation))
    ensures r.Acquired? ==> InLockIn(dir.worlds, |old(dir.actions)|, Owner(r.id, pid, r.epoch, true, {}))
    ensures r.AlreadyRunning? ==> dir.At(pid, Finished)
    ensures r.AlreadyRunning? ==> FoundAlive(dir.actions, dir.worlds, |old(dir.actions)|, pid)
    ensures r.Contended? ==> dir.At(pid, Idle(MAX_ATTEMPTS))
    ensures r.Contended? ==>
              forall k :: 0 <= k < 4 ==> LostAttempt(dir.actions, dir.worlds, |old(dir.actions)|, pid, k)
    ensures dir.Quiet() ==>
              var lock := old(dir.world.lock);
              && (r.AlreadyRunning? <==> lock.Some? && Lives(old(dir.world), lock.value))
              && (r.Acquired? <==> lock.None? || !Lives(old(dir.world), lock.value))
              && (r.Acquired? ==>
                    && dir.world.lock == Some(Owner(r.id, pid, r.epoch, true, {}))
                    && r.epoch == old(dir.world.epoch) + 1 == dir.world.epoch)
  {
    hide Run, Step, Enabled, FoundAlive, LostAttempt, InLockIn, Lives;
    var attempt := 0;
    ghost var n := |dir.actions|;
    while attempt < MAX_ATTEMPTS
      invariant 0 <= attempt <= MAX_ATTEMPTS
      invariant dir.Valid() && dir.Kept(old(dir.actions), old(dir.worlds)) && dir.At(pid, Idle(attempt))
      invariant forall k :: 0 <= k < attempt ==> LostAttempt(dir.actions, dir.worlds, n, pid, k)
      invariant dir.Quiet() ==> attempt == 0 && dir.world == old(dir.world)
    {
      ghost var acts, ws := dir.actions, dir.worlds;
      var settled := Attempt(dir, pid, attempt);
      Later(acts, ws, dir.actions, dir.worlds, n, pid, attempt);
      if settled.Some? {
        return settled.value;
      }
      attempt := attempt + 1;
    }
    return Contended;
  }

  /** One attempt: refused, successful or lost. */
  method Attempt(dir: Directory, pid: nat, ghost attempt: nat) returns (r: Option<Acquisition>)
    requires dir.Valid() && dir.At(pid, Idle(attempt)) && attempt < MAX_ATTEMPTS
    modifies dir
    ensures dir.Valid() && dir.Kept(old(dir.actions), old(dir.worlds))
    ensures r.Some? ==> !r.value.Contended?
    ensures r.None? ==> dir.At(pid, Idle(attempt + 1))
    ensures r.None? ==> LostAttempt(dir.actions, dir.worlds, |old(dir.actions)|, pid, attempt)
    ensures r.Some? && r.value.AlreadyRunning? ==>
              dir.At(pid, Finished) && FoundAlive(dir.actions, dir.worlds, |old(dir.actions)|, pid)
    ensures r.Some? && r.value.Acquired? ==>
              && dir.At(pid, Active(r.value.id, r.value.epoch, {}, NoOperation))
              && InLockIn(dir.worlds, |old(dir.actions)|, Owner(r.value.id, pid, r.value.epoch, true, {}))
    ensures dir.Quiet() ==>
              var lock := old(dir.world.lock);
              && r.Some?
              && (r.value.AlreadyRunning? <==> lock.Some? && Lives(old(dir.world), lock.value))
              && (r.value.Acquired? ==>
                    && dir.world.lock == Some(Owner(r.value.id, pid, r.value.epoch, true, {}))
                    && r.value.epoch == old(dir.world.epoch) + 1 == dir.world.epoch)
  {
    hide Run, Step, Enabled, FoundAlive, LostAttempt, InLockIn, Lives;
    ghost var n := |dir.actions|;
    var clear, alive := ClearTheWay(dir, pid, attempt);
    if alive {
      return Some(AlreadyRunning);
    }
    if !clear {
      return None;
    }
    ghost var acts, ws := dir.actions, dir.worlds;
    var claim := Claim(dir, pid, attempt);
    Later(acts, ws, dir.actions, dir.worlds, n, pid, attempt);
    return if claim.Some? then Some(Acquired(claim.value.0, claim.value.1)) else None;
  }

  /** What the run showed before it was longer, it still shows. */
  lemma Later(acts: seq<Action>, ws: seq<World>, bs: seq<Action>, vs: seq<World>, n: nat, pid: nat, attempt: nat)
    requires acts <= bs && ws <= vs && n <= |acts|
    ensures FoundAlive(bs, vs, |acts|, pid) ==> FoundAlive(bs, vs, n, pid)
    ensures LostAttempt(bs, vs, |acts|, pid, attempt) ==> LostAttempt(bs, vs, n, pid, attempt)
    ensures forall k :: LostAttempt(acts, ws, n, pid, k) ==> LostAttempt(bs, vs, n, pid, k)
    ensures forall owner :: InLockIn(vs, |acts|, owner) ==> InLockIn(vs, n, owner)
  {
    hide FoundAlive, LostAttempt;
    if FoundAlive(bs, vs, |acts|, pid) { FoundLater(bs, vs, bs, vs, n, |acts|, pid); }
    if LostAttempt(bs, vs, |acts|, pid, attempt) { LostLater(bs, vs, bs, vs, n, |acts|, pid, attempt); }
    forall k: nat | LostAttempt(acts, ws, n, pid, k) ensures LostAttempt(bs, vs, n, pid, k) {
      LostLater(acts, ws, bs, vs, n, n, pid, k);
    }
  }

  datatype LaneResult = Answered | Refused | LeaseLost | ChildrenActive

  /** The lease an acquisition returns, with the ledger of browser children it keeps in memory. */
  class BrokerLeaseHandle {
    const dir: Directory
    const pid: nat
    const id: nat
    const epoch: nat
    var browserPids: set<nat>

    constructor (dir: Directory, pid: nat, id: nat, epoch: nat)
      requires dir.Valid() && dir.At(pid, Active(id, epoch, {}, NoOperation))
      ensures this.dir == dir && this.pid == pid && this.id == id && this.epoch == epoch
      ensures Holds(NoOperation) && browserPids == {}
    {
      this.dir, this.pid, this.id, this.epoch, browserPids := dir, pid, id, epoch, {};
    }

    /** The protocol is where this handle says it is. */
    ghost predicate Holds(operation: Operation)
      reads this, dir
    {
      dir.Valid() && dir.At(pid, Active(id, epoch, browserPids, operation))
    }

    /** This broker has given a child its input since action `n`. */
    ghost predicate HandedSince(n: nat)
      reads dir
    {
      exists i :: n <= i < |dir.actions| && dir.actions[i] == HandOver(pid)
    }

    /** Since action `n` this broker has found that the claim in the lock is not its own. */
    ghost predicate LostSince(n: nat)
      reads dir
    {
      LostIn(dir.actions, dir.worlds, n)
    }

    ghost predicate LostIn(actions: seq<Action>, worlds: seq<World>, n: nat) {
      exists w: World ::
        && (TookIn(actions, worlds, n, RegisterRead(pid), w) || TookIn(actions, worlds, n, UnregisterRead(pid), w))
        && !Owns(w, pid, id, epoch)
    }

    lemma LostLonger(acts: seq<Action>, ws: seq<World>, more: seq<Action>, later: seq<World>, n: nat, m: nat)
      requires acts <= more && ws <= later && n <= m
      ensures LostIn(acts, ws, m) ==> LostIn(more, later, n)
    {
      hide TookIn;
      if LostIn(acts, ws, m) {
        var w: World :|
          && (TookIn(acts, ws, m, RegisterRead(pid), w) || TookIn(acts, ws, m, UnregisterRead(pid), w))
          && !Owns(w, pid, id, epoch);
        if TookIn(acts, ws, m, RegisterRead(pid), w) {
          TookLater(acts, ws, more, later, n, m, RegisterRead(pid), w);
        } else {
          TookLater(acts, ws, more, later, n, m, UnregisterRead(pid), w);
        }
      }
    }

    /** A child this broker has spawned since action `n` is alive. */
    ghost predicate SpawnedAlive(n: nat)
      reads dir
    {
      exists c, w :: TookIn(dir.actions, dir.worlds, n, Spawn(pid, c), w) && c in dir.world.children
    }

    /** Since action `n` the claim in the lock recorded the child, and only then was the child given
        its input. */
    ghost predicate RecordedBeforeInput(n: nat, child: nat)
      reads dir
    {
      |dir.worlds| == |dir.actions| + 1 &&
      exists i, j :: n <= i <= j < |dir.actions| && Records(dir.worlds[i], child) && dir.actions[j] == HandOver(pid)
    }

    predicate Records(w: World, child: nat) {
      Owns(w, pid, id, epoch) && child in w.lock.value.children
    }

    predicate Mine(owner: Option<Owner>) {
      owner.Some? && owner.value.id == id && owner.value.epoch == epoch && owner.value.pid == pid
    }

    /** `registerChild`; `false` is `broker_lease_lost`. */
    method RegisterChild(child: nat) returns (ok: bool, ghost at: World)
      requires Holds(Spawned(child))
      modifies this, dir
      ensures Holds(if ok then Registered(child) else NoOperation)
      ensures browserPids == if ok then old(browserPids) + {child} else old(browserPids)
      ensures dir.Kept(old(dir.actions), old(dir.worlds)) && old(dir.world.pids) <= dir.world.pids
      ensures dir.Took(|old(dir.actions)|, RegisterRead(pid), at) && ok == Owns(at, pid, id, epoch)
      ensures ok ==> dir.world.lock == Some(Owner(id, pid, epoch, true, browserPids))
    {
      hide Run;
      var owner;
      owner, at := dir.ReadOwner(pid, RegisterRead(pid));
      if !Mine(owner) {
        return false, at;
      }
      browserPids := browserPids + {child};
      dir.WriteOwner(pid, Owner(id, pid, epoch, true, browserPids));
      return true, at;
    }

    /** `unregisterChild`, called once the child's whole process group is dead. */
    method UnregisterChild(child: nat) returns (ok: bool, ghost at: World)
      requires Holds(Registered(child)) || Holds(HandedOver(child))
      requires child in dir.world.pids && child !in dir.world.children
      modifies this, dir
      ensures Holds(NoOperation) && browserPids == if ok then old(browserPids) - {child} else old(browserPids)
      ensures dir.Kept(old(dir.actions), old(dir.worlds))
      ensures dir.Took(|old(dir.actions)|, UnregisterRead(pid), at) && ok == Owns(at, pid, id, epoch)
      ensures !ok ==> LostSince(|old(dir.actions)|)
      ensures ok ==> dir.world.lock == Some(Owner(id, pid, epoch, true, browserPids))
    {
      hide Run;
      var owner;
      owner, at := dir.ReadOwner(pid, UnregisterRead(pid));
      if !Mine(owner) {
        return false, at;
      }
      browserPids := browserPids - {child};
      dir.WriteOwner(pid, Owner(id, pid, epoch, true, browserPids));
      return true, at;
    }

    /** `#runExclusive`: spawn, register, hand the driver over unless the call settled meanwhile,
        wait for the process group to die, unregister. Run as often as one likes, after whatever
        acquisitions and beside whatever other processes, it keeps every live child that was
        handed a driver in one generation, if every rename took an abandoned claim away. */
    method RunExclusive(settledEarly: bool) returns (r: LaneResult)
      requires Holds(NoOperation)
      modifies this, dir
      ensures Holds(NoOperation) && dir.Kept(old(dir.actions), old(dir.worlds))
      ensures r.Answered? || r.Refused? ==> browserPids <= old(browserPids)
      ensures r.Answered? ==> !settledEarly && HandedSince(|old(dir.actions)|)
      ensures r.Refused? ==> settledEarly
      ensures r.LeaseLost? ==> LostSince(|old(dir.actions)|)
      ensures r.ChildrenActive? ==> SpawnedAlive(|old(dir.actions)|)
      ensures Undisturbed(dir.actions, dir.worlds) ==> OneGeneration(dir.world) && Fenced(dir.world)
    {
      hide Run, OneGeneration, Fenced, Undisturbed;
      r := RunChild(settledEarly);
      FencedNow(dir.actions, dir.worlds);
    }

    method RunChild(settledEarly: bool) returns (r: LaneResult)
      requires Holds(NoOperation)
      modifies this, dir
      ensures Holds(NoOperation) && dir.Kept(old(dir.actions), old(dir.worlds))
      ensures r.Answered? || r.Refused? ==> browserPids <= old(browserPids)
      ensures r.Answered? ==> !settledEarly && HandedSince(|old(dir.actions)|)
      ensures r.Refused? ==> settledEarly
      ensures r.LeaseLost? ==> LostSince(|old(dir.actions)|)
      ensures r.ChildrenActive? ==> SpawnedAlive(|old(dir.actions)|)
    {
      hide Run, TookIn, Step, Enabled, LostIn;
      var child, registered;
      ghost var at;
      child, registered, at := StartChild(settledEarly);
      ghost var acts, ws, n := dir.actions, dir.worlds, |old(dir.actions)|;
      var alive := dir.Outlives(pid, child);
      TookLater(acts, ws, dir.actions, dir.worlds, n, n, Spawn(pid, child), at);
      LostLonger(acts, ws, dir.actions, dir.worlds, n, n);
      if alive {
        acts, ws := dir.actions, dir.worlds;
        dir.LeaveLane(pid);
        TookLater(acts, ws, dir.actions, dir.worlds, n, n, Spawn(pid, child), at);
        return ChildrenActive;
      }
      if !registered {
        return LeaseLost;
      }
      acts := dir.actions;
      var unregistered;
      unregistered, at := UnregisterChild(child);
      LostLonger(dir.actions, dir.worlds, dir.actions, dir.worlds, n, |acts|);
      return if !unregistered then LeaseLost else if settledEarly then Refused else Answered;
    }

    /** A child is handed its input only after the claim on disk records it. */
    method StartChild(settledEarly: bool) returns (child: nat, registered: bool, ghost at: World)
      requires Holds(NoOperation)
      modifies this, dir
      ensures child in dir.world.pids && dir.Kept(old(dir.actions), old(dir.worlds))
      ensures Holds(if !registered then NoOperation else if settledEarly then Registered(child) else HandedOver(child))
      ensures browserPids == if registered then old(browserPids) + {child} else old(browserPids)
      ensures registered && !settledEarly ==> HandedSince(|old(dir.actions)|)
      ensures registered && !settledEarly ==> RecordedBeforeInput(|old(dir.actions)|, child)
      ensures TookIn(dir.actions, dir.worlds, |old(dir.actions)|, Spawn(pid, child), at)
      ensures !registered ==> LostSince(|old(dir.actions)|)
    {
      hide Run, TookIn;
      child, at := dir.SpawnDriver(pid);
      ghost var acts, ws, m := dir.actions, dir.worlds, |old(dir.actions)|;
      ghost var found;
      registered, found := RegisterChild(child);
      TookLater(dir.actions, dir.worlds, dir.actions, dir.worlds, m, |acts|, RegisterRead(pid), found);
      TookLater(acts, ws, dir.actions, dir.worlds, m, m, Spawn(pid, child), at);
      ghost var n := |dir.actions|;
      assert registered ==> Records(dir.worlds[n], child);
      if registered && !settledEarly {
        acts, ws := dir.actions, dir.worlds;
        dir.GiveInput(pid);
        TookLater(acts, ws, dir.actions, dir.worlds, m, m, Spawn(pid, child), at);
        assert Records(dir.worlds[n], child) && dir.actions[|dir.actions| - 1] == HandOver(pid);
      }
    }

    /** From action `n` on, this broker looked that often, one look after the other, and each time its
        own claim recorded a live child. */
    ghost predicate SawChildren(actions: seq<Action>, worlds: seq<World>, n: nat, looks: seq<nat>) {
      && (forall k :: 0 <= k < |looks| ==>
            && n <= looks[k] < |actions| && looks[k] < |worlds| && actions[looks[k]] == ReleaseCheck(pid)
            && ChildAlive(worlds[looks[k]]))
      && forall k :: 0 < k < |looks| ==> looks[k - 1] < looks[k]
    }

    predicate ChildAlive(w: World) {
      && w.lock.Some? && w.lock.value.id == id && w.lock.value.epoch == epoch
      && exists c :: c in w.lock.value.children && c in w.children
    }

    /** `release`: up to forty looks until no recorded child is alive. */
    method Release() returns (r: LaneResult, ghost at: World)
      requires Holds(NoOperation)
      modifies dir
      ensures dir.Valid() && dir.Kept(old(dir.actions), old(dir.worlds))
      ensures if r.Answered? then dir.At(pid, Finished) else Holds(NoOperation) || dir.At(pid, Releasing(id, epoch))
      ensures !r.Refused?
      ensures r.LeaseLost? ==>
        && dir.Took(|old(dir.actions)|, ReleaseCheck(pid), at)
        && !(at.lock.Some? && at.lock.value.id == id && at.lock.value.epoch == epoch)
      ensures r.ChildrenActive? ==>
        exists looks :: |looks| == 40 && SawChildren(dir.actions, dir.worlds, |old(dir.actions)|, looks)
      ensures r.Answered? ==>
        && dir.Took(|old(dir.actions)|, ReleaseCheck(pid), at) && dir.world.lock.None?
        && at.lock.Some? && at.lock.value.id == id && at.lock.value.epoch == epoch
        && forall c :: c in at.lock.value.children ==> c !in at.children
    {
      hide Run;
      var attempt := 0;
      at := dir.world;
      ghost var looks: seq<nat> := [];
      while attempt < 40
        invariant 0 <= attempt == |looks| <= 40
        invariant Holds(NoOperation) && dir.Kept(old(dir.actions), old(dir.worlds))
        invariant SawChildren(dir.actions, dir.worlds, |old(dir.actions)|, looks)
      {
        var owner, alive;
        ghost var acts, ws := dir.actions, dir.worlds;
        owner, alive, at := dir.CheckRelease(pid);
        TookLater(dir.actions, dir.worlds, dir.actions, dir.worlds, |old(dir.actions)|, |acts|, ReleaseCheck(pid), at);
        if owner.None? || owner.value.id != id || owner.value.epoch != epoch {
          return LeaseLost, at;
        }
        if !alive {
          dir.Unlink(pid);
          return Answered, at;
        }
        ghost var i :| |acts| <= i < |dir.actions| && dir.actions[i] == ReleaseCheck(pid) && dir.worlds[i] == at;
        looks := looks + [i];
        attempt := attempt + 1;
      }
      return ChildrenActive, at;
    }
  }

  lemma FencedNow(actions: seq<Action>, worlds: seq<World>)
    requires Run(Initial(), actions, worlds)
    ensures |worlds| == |actions| + 1
    ensures Undisturbed(actions, worlds) ==> OneGeneration(worlds[|actions|]) && Fenced(worlds[|actions|])
  {
    RunLength(actions, worlds);
    if Undisturbed(actions, worlds) {
      ChildrenAreFenced(actions, worlds, |actions|);
    }
  }
}
