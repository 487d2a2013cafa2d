/** The two interleavings in which the broker lease lets a second generation start beside live
    children of the first (src/broker-lease.mjs, `inspectClaim`, `liveOwnerProcesses`,
    `retireStaleClaim`). */
module BrokerLeaseRaces {
  import opened Prelude
  import opened BrokerLease

  predicate NoRetire(actions: seq<Action>) {
    forall i :: 0 <= i < |actions| ==> !actions[i].Retire?
  }

  /** A run from the beginning that ends in the given world. */
  ghost predicate Reaches(actions: seq<Action>, worlds: seq<World>, w: World) {
    Run(Initial(), actions, worlds) && worlds[|worlds| - 1] == w
  }

  /** A run and one more action. */
  lemma Then(actions: seq<Action>, worlds: seq<World>, w: World, a: Action)
    returns (longer: seq<Action>, all: seq<World>)
    requires Reaches(actions, worlds, w) && Enabled(w, a)
    ensures Reaches(longer, all, Step(w, a)) && longer == actions + [a]
    ensures NoRetire(actions) && !a.Retire? ==> NoRetire(longer)
    ensures RenamesRightAfterCheck(actions) && !a.Retire? ==> RenamesRightAfterCheck(longer)
  {
    hide Enabled, Step;
    longer, all := actions + [a], worlds + [Step(w, a)];
    forall i | 0 <= i < |longer| ensures Enabled(all[i], longer[i]) && all[i + 1] == Step(all[i], longer[i]) {
      if i < |actions| { assert longer[i] == actions[i] && all[i] == worlds[i] && all[i + 1] == worlds[i + 1]; }
    }
  }

  /** From the claiming phase with a free lock to an active generation. */
  lemma Activates(actions: seq<Action>, worlds: seq<World>, w: World, p: nat, id: nat)
    returns (longer: seq<Action>, all: seq<World>, next: World)
    requires Reaches(actions, worlds, w)
    requires w.lock.None? && p in w.brokers && w.brokers[p].Claiming? && id !in w.ids
    ensures Reaches(longer, all, next)
    ensures RenamesRightAfterCheck(actions) ==> RenamesRightAfterCheck(longer)
    ensures NoRetire(actions) ==> NoRetire(longer)
    ensures var epoch := w.epoch + 1;
            next == w.(lock := Some(Owner(id, p, epoch, true, {})), epoch := epoch,
                       brokers := w.brokers[p := Active(id, epoch, {}, NoOperation)],
                       ids := w.ids + {id}, activated := w.activated + [epoch])
  {
    hide Reaches, NoRetire, RenamesRightAfterCheck;
    longer, all := Then(actions, worlds, w, Link(p, id));
    next := Step(w, Link(p, id));
    longer, all := Then(longer, all, next, ReadEpoch(p));
    next := Step(next, ReadEpoch(p));
    longer, all := Then(longer, all, next, WriteEpoch(p));
    next := Step(next, WriteEpoch(p));
    longer, all := Then(longer, all, next, Activate(p));
    next := Step(next, Activate(p));
    longer, all := Then(longer, all, next, Settle(p));
    next := Step(next, Settle(p));
  }

  /** An idle active broker hands a driver to a new child. */
  lemma HandsOver(actions: seq<Action>, worlds: seq<World>, w: World, p: nat, c: nat)
    returns (longer: seq<Action>, all: seq<World>, next: World)
    requires Reaches(actions, worlds, w)
    requires ActiveAt(w, p) && w.brokers[p].operation.NoOperation? && Owns(w, p, w.brokers[p].id, w.brokers[p].epoch)
    requires c !in w.pids
    ensures Reaches(longer, all, next)
    ensures RenamesRightAfterCheck(actions) ==> RenamesRightAfterCheck(longer)
    ensures NoRetire(actions) ==> NoRetire(longer)
    ensures var b := w.brokers[p];
            var ledger := b.ledger + {c};
            next == w.(lock := Some(Owner(b.id, p, b.epoch, true, ledger)),
                       brokers := w.brokers[p := b.(ledger := ledger, operation := HandedOver(c))],
                       children := w.children + {c}, handed := w.handed[c := b.id], pids := w.pids + {c})
  {
    hide Reaches, NoRetire, RenamesRightAfterCheck;
    longer, all := Then(actions, worlds, w, Spawn(p, c));
    next := Step(w, Spawn(p, c));
    longer, all := Then(longer, all, next, RegisterRead(p));
    next := Step(next, RegisterRead(p));
    longer, all := Then(longer, all, next, RegisterWrite(p));
    next := Step(next, RegisterWrite(p));
    longer, all := Then(longer, all, next, HandOver(p));
    next := Step(next, HandOver(p));
  }

  /** Nothing at all happens between a liveness check and the rename that rests on it. */
  predicate RenamesRightAfterCheck(actions: seq<Action>) {
    forall i :: 0 <= i < |actions| && actions[i].Retire? ==> i > 0 && actions[i - 1] == CheckLive(actions[i].pid)
  }

  /** A broker has become the first active generation. */
  function FirstGeneration(): World {
    World(Some(Owner(10, 1, 1, true, {})), 1, map[1 := Active(10, 1, {}, NoOperation)], {}, map[], {1}, {10}, [1])
  }

  lemma FirstStarts() returns (actions: seq<Action>, worlds: seq<World>)
    ensures Reaches(actions, worlds, FirstGeneration()) && NoRetire(actions)
  {
    hide NoRetire, RenamesRightAfterCheck, Enabled, Step;
    actions, worlds := [], [Initial()];
    assert Reaches([], [Initial()], Initial()) && NoRetire([]) by { NothingYet(); }
    hide Reaches;
    assert Enabled(Initial(), Start(1)) by { FirstSteps(); }
    actions, worlds := Then(actions, worlds, Initial(), Start(1));
    var w := Initial().(pids := {1}, brokers := map[1 := Idle(0)]);
    assert Step(Initial(), Start(1)) == w && Enabled(w, Inspect(1)) by { FirstSteps(); }
    actions, worlds := Then(actions, worlds, w, Inspect(1));
    var v := w.(brokers := map[1 := Claiming(0)]);
    assert Step(w, Inspect(1)) == v by { FirstSteps(); }
    var next;
    actions, worlds, next := Activates(actions, worlds, v, 1, 10);
    assert next.brokers == map[1 := Active(10, 1, {}, NoOperation)];
    assert next == FirstGeneration();
  }

  lemma NothingYet()
    ensures Reaches([], [Initial()], Initial()) && NoRetire([])
  {
  }

  lemma FirstSteps()
    ensures Enabled(Initial(), Start(1))
    ensures var w := Initial().(pids := {1}, brokers := map[1 := Idle(0)]);
            && Step(Initial(), Start(1)) == w && Enabled(w, Inspect(1))
            && Step(w, Inspect(1)) == w.(brokers := map[1 := Claiming(0)])
  {
  }

  /** The second broker has read the first one's claim, which names no child yet. */
  function StaleRead(): World {
    FirstGeneration().(
      brokers := map[1 := Active(10, 1, {}, NoOperation), 2 := Read(0, Owner(10, 1, 1, true, {}))], pids := {1, 2})
  }

  lemma ReadsBeforeRegistration() returns (actions: seq<Action>, worlds: seq<World>)
    ensures Reaches(actions, worlds, StaleRead()) && NoRetire(actions)
  {
    hide Reaches, NoRetire, RenamesRightAfterCheck;
    actions, worlds := FirstStarts();
    var w := FirstGeneration();
    actions, worlds := Then(actions, worlds, w, Start(2));
    var v := Step(w, Start(2));
    actions, worlds := Then(actions, worlds, v, Inspect(2));
    assert Step(v, Inspect(2)).brokers == StaleRead().brokers;
    assert Step(v, Inspect(2)) == StaleRead();
  }

  /** The first generation is dead but for its child; its claim is gone. */
  function OrphanedChild(): World {
    World(None, 1, map[2 := Claiming(0)], {3}, map[3 := 10], {1, 2, 3}, {10}, [1])
  }

  lemma ChildEscapes() returns (actions: seq<Action>, worlds: seq<World>)
    ensures Reaches(actions, worlds, OrphanedChild()) && RenamesRightAfterCheck(actions)
  {
    hide Reaches;
    actions, worlds := ReadsBeforeRegistration();
    var w;
    actions, worlds, w := HandsOver(actions, worlds, StaleRead(), 1, 3);
    actions, worlds := Then(actions, worlds, w, Crash(1));
    var v := Step(w, Crash(1));
    actions, worlds := Then(actions, worlds, v, CheckLive(2));
    var u := Step(v, CheckLive(2));
    ghost var before := actions;
    actions, worlds := Then(actions, worlds, u, Retire(2));
    assert actions == before + [Retire(2)] && before[|before| - 1] == CheckLive(2);
    assert Step(u, Retire(2)).brokers == OrphanedChild().brokers;
    assert Step(u, Retire(2)) == OrphanedChild();
  }

  /** The stale read: a broker reads the claim of a live generation; that generation records a
      child in it, hands the child a driver and dies; the check finds the recorded broker dead
      and does not know of the child. Even with the rename following its check at once, a second
      generation hands a driver to a child of its own while the first child is still alive. */
  lemma StaleReadRace() returns (actions: seq<Action>, worlds: seq<World>, w: World)
    ensures Reaches(actions, worlds, w) && RenamesRightAfterCheck(actions)
    ensures !OneGeneration(w)
  {
    hide Reaches, NoRetire, RenamesRightAfterCheck, Step, Enabled;
    actions, worlds := ChildEscapes();
    actions, worlds, w := Activates(actions, worlds, OrphanedChild(), 2, 20);
    actions, worlds, w := HandsOver(actions, worlds, w, 2, 4);
    assert 3 in w.children && 4 in w.children && w.handed[3] == 10 && w.handed[4] == 20;
  }

  /** Two brokers have found the claim of the dead first generation stale. */
  function BothClear(): World {
    var seen := Owner(10, 1, 1, true, {});
    FirstGeneration().(brokers := map[2 := Clear(0, seen), 3 := Clear(0, seen)], pids := {1, 2, 3})
  }

  lemma BothCheck() returns (actions: seq<Action>, worlds: seq<World>)
    ensures Reaches(actions, worlds, BothClear())
  {
    hide Reaches, NoRetire, RenamesRightAfterCheck;
    actions, worlds := FirstStarts();
    var w := FirstGeneration();
    actions, worlds := Then(actions, worlds, w, Crash(1));
    w := Step(w, Crash(1));
    actions, worlds := Then(actions, worlds, w, Start(2));
    w := Step(w, Start(2));
    actions, worlds := Then(actions, worlds, w, Inspect(2));
    w := Step(w, Inspect(2));
    actions, worlds := Then(actions, worlds, w, CheckLive(2));
    w := Step(w, CheckLive(2));
    assert w == FirstGeneration().(brokers := map[2 := Clear(0, Owner(10, 1, 1, true, {}))], pids := {1, 2});
    actions, worlds := ThirdChecks(actions, worlds, w);
  }

  lemma ThirdChecks(actions: seq<Action>, worlds: seq<World>, w: World)
    returns (longer: seq<Action>, all: seq<World>)
    requires Reaches(actions, worlds, w)
    requires w == FirstGeneration().(brokers := map[2 := Clear(0, Owner(10, 1, 1, true, {}))], pids := {1, 2})
    ensures Reaches(longer, all, BothClear())
  {
    hide Reaches, NoRetire, RenamesRightAfterCheck;
    longer, all := Then(actions, worlds, w, Start(3));
    var v := Step(w, Start(3));
    longer, all := Then(longer, all, v, Inspect(3));
    v := Step(v, Inspect(3));
    longer, all := Then(longer, all, v, CheckLive(3));
    v := Step(v, CheckLive(3));
    assert v.brokers == BothClear().brokers;
    assert v == BothClear();
  }

  lemma Retires(w: World, p: nat)
    requires p in w.brokers && w.brokers[p].Clear? && w.lock.Some?
    ensures Enabled(w, Retire(p))
    ensures Step(w, Retire(p)) == w.(lock := None, brokers := w.brokers[p := Claiming(w.brokers[p].attempt)])
  {
  }

  /** The replaced claim: two brokers check the same dead claim; the first retires it, claims and
      hands a driver to a child; the second then renames the first one's claim away. */
  lemma ReplacedClaimRace() returns (actions: seq<Action>, worlds: seq<World>, w: World)
    ensures Reaches(actions, worlds, w)
    ensures !OneGeneration(w) && !AtMostOneHolder(w)
  {
    hide Reaches, NoRetire, RenamesRightAfterCheck, Step, Enabled;
    actions, worlds := BothCheck();
    Retires(BothClear(), 2);
    actions, worlds := Then(actions, worlds, BothClear(), Retire(2));
    actions, worlds, w := Activates(actions, worlds, Step(BothClear(), Retire(2)), 2, 20);
    actions, worlds, w := HandsOver(actions, worlds, w, 2, 4);
    Retires(w, 3);
    actions, worlds := Then(actions, worlds, w, Retire(3));
    actions, worlds, w := Activates(actions, worlds, Step(w, Retire(3)), 3, 30);
    actions, worlds, w := HandsOver(actions, worlds, w, 3, 5);
    assert 4 in w.children && 5 in w.children && w.handed[4] == 20 && w.handed[5] == 30;
    assert w.brokers[2].Active? && w.brokers[3].Active?;
  }
}
