/**
 * Several NPCs sharing the static `occupiedDestinations` ledger. Between
 * steps the ledger lists exactly the slots held by NPCs on their way to, or
 * waiting at, a destination, and each such slot is held by exactly one NPC.
 */
module ErrandWorld {
  import opened Wrappers
  import opened Lists
  import opened Destinations
  import opened Errand
  import opened ErrandTraces

  /** The NPC owns its slot: it is walking to it or waiting at it. */
  predicate Holding(a: Actor) {
    (a.state == MovingToRandomDestination || a.state == WaitingForSecondInteraction) && a.assignedSlot.Some?
  }

  /** 1 when `a` holds slot `x`, else 0. */
  function Holds(a: Actor, x: Slot): nat {
    if Holding(a) && a.assignedSlot.value == x then 1 else 0
  }

  /** How many NPCs hold slot `x`. */
  function Count(actors: seq<Actor>, x: Slot): nat
    decreases |actors|
  {
    if actors == [] then 0 else Holds(actors[0], x) + Count(actors[1..], x)
  }

  /** 1 when the ledger lists `x`, else 0. */
  function Listed(occupied: seq<Slot>, x: Slot): nat {
    if x in occupied then 1 else 0
  }

  /**
   * The ledger is duplicate-free, each listed slot is held by exactly one
   * NPC and no unlisted slot is held; every NPC is well formed.
   */
  ghost predicate Accounted(actors: seq<Actor>, occupied: seq<Slot>) {
    && NoDup(occupied)
    && (forall x :: Count(actors, x) == Listed(occupied, x))
    && (forall i :: 0 <= i < |actors| ==> WellFormed(actors[i]))
  }

  /**
   * The NPC still names a slot it no longer holds and the ledger lists that
   * slot (so another NPC holds it). The second interaction leaves
   * `assignedRandomDestination` set, which is how this arises.
   */
  predicate StaleClaim(a: Actor, occupied: seq<Slot>) {
    !Holding(a) && a.assignedSlot.Some? && a.assignedSlot.value in occupied
  }

  lemma {:induction false} CountConcat(xs: seq<Actor>, ys: seq<Actor>, x: Slot)
    ensures Count(xs + ys, x) == Count(xs, x) + Count(ys, x)
    decreases |xs|
  {
    if xs != [] {
      assert (xs + ys)[0] == xs[0];
      assert (xs + ys)[1..] == xs[1..] + ys;
      CountConcat(xs[1..], ys, x);
    } else {
      assert xs + ys == ys;
    }
  }

  lemma CountSplit(actors: seq<Actor>, i: nat, x: Slot)
    requires i < |actors|
    ensures Count(actors, x) == Count(actors[..i], x) + Holds(actors[i], x) + Count(actors[i + 1..], x)
  {
    assert actors == actors[..i] + ([actors[i]] + actors[i + 1..]);
    CountConcat(actors[..i], [actors[i]] + actors[i + 1..], x);
    CountConcat([actors[i]], actors[i + 1..], x);
    assert [actors[i]][1..] == [];
  }

  /** One NPC's step moves slots between the ledger and that NPC only. */
  ghost predicate Balanced(a: Actor, occupied: seq<Slot>, o: Outcome) {
    forall x :: Listed(o.occupied, x) + Holds(a, x) == Listed(occupied, x) + Holds(o.actor, x)
  }

  lemma InteractBalanced(s: Settings, a: Actor, occupied: seq<Slot>, roll: nat)
    requires WellFormed(a) && NoDup(occupied)
    requires Holding(a) ==> a.assignedSlot.value in occupied
    ensures Balanced(a, occupied, Interact(s, a, occupied, roll))
  {
    var o := Interact(s, a, occupied, roll);
    if a.state == WaitingForFirstInteraction {
      var pick := PickFree(s.destinations, occupied, roll);
      if pick.Some? {
        assert o.occupied == occupied + [pick.value];
        forall x ensures Listed(o.occupied, x) == Listed(occupied, x) + Holds(o.actor, x) {
          assert x in o.occupied <==> x in occupied || x == pick.value;
        }
      }
    } else if a.state == WaitingForSecondInteraction {
      RemoveFirstNoDup(occupied, a.assignedSlot.value);
    }
  }

  lemma SecondBalanced(a: Actor, occupied: seq<Slot>)
    requires WellFormed(a) && NoDup(occupied)
    requires Holding(a) ==> a.assignedSlot.value in occupied
    ensures Balanced(a, occupied, SecondStep(a, occupied))
  {
    if a.countdown.Some? && a.countdown.value <= 1 {
      RemoveFirstNoDup(occupied, a.assignedSlot.value);
    }
  }

  lemma FrameBalanced(s: Settings, a: Actor, occupied: seq<Slot>,
                      tKey: bool, arrived: bool, interact: bool, roll: nat)
    requires WellFormed(a) && NoDup(occupied)
    requires Holding(a) ==> a.assignedSlot.value in occupied
    ensures Balanced(a, occupied, UpdateStep(s, a, occupied, tKey, arrived, interact, roll))
  {
    var b := if tKey && a.state == NotSpawned then SpawnByKey(a) else a;
    assert Holding(b) == Holding(a) && b.assignedSlot == a.assignedSlot;
    if interact && s.hasPlayer && b.canInteract
      && (b.state == WaitingForFirstInteraction || b.state == WaitingForSecondInteraction)
    {
      InteractBalanced(s, b, occupied, roll);
    }
  }

  /** The effect of one NPC's step on the ledger, slot by slot. */
  lemma StepAccounting(s: Settings, a: Actor, occupied: seq<Slot>, e: Event)
    requires WellFormed(a) && NoDup(occupied)
    requires Holding(a) ==> a.assignedSlot.value in occupied
    ensures var o := Apply(s, a, occupied, e);
      WellFormed(o.actor) && NoDup(o.occupied) && Balanced(a, occupied, o)
  {
    match e
    case Second =>
      SecondBalanced(a, occupied);
      if a.countdown.Some? && a.countdown.value <= 1 {
        RemoveFirstNoDup(occupied, a.assignedSlot.value);
      }
    case Frame(tKey, arrived, interact, roll) =>
      StepsKeepWellFormed(s, a, occupied, tKey, arrived, interact, roll);
      StepsKeepLedgerDuplicateFree(s, a, occupied, tKey, arrived, interact, roll);
      FrameBalanced(s, a, occupied, tKey, arrived, interact, roll);
  }

  /** Any step of any one NPC keeps the ledger exact. */
  lemma StepKeepsAccounting(s: Settings, actors: seq<Actor>, occupied: seq<Slot>, i: nat, e: Event)
    requires Accounted(actors, occupied) && i < |actors|
    ensures var o := Apply(s, actors[i], occupied, e);
      Accounted(actors[i := o.actor], o.occupied)
  {
    var a := actors[i];
    var o := Apply(s, a, occupied, e);
    var after := actors[i := o.actor];
    assert after[..i] == actors[..i] && after[i + 1..] == actors[i + 1..];
    if Holding(a) {
      CountSplit(actors, i, a.assignedSlot.value);
    }
    StepAccounting(s, a, occupied, e);
    forall x ensures Count(after, x) == Listed(o.occupied, x) {
      CountSplit(actors, i, x);
      CountSplit(after, i, x);
    }
    forall j | 0 <= j < |after| ensures WellFormed(after[j]) {
      if j != i {
        assert after[j] == actors[j];
      }
    }
  }

  /** A freshly spawned NPC holds nothing, so adding it keeps the ledger exact. */
  lemma SpawnKeepsAccounting(actors: seq<Actor>, occupied: seq<Slot>)
    requires Accounted(actors, occupied)
    ensures Accounted(actors + [StartBehavior(Instantiated())], occupied)
  {
    var newcomer := StartBehavior(Instantiated());
    var after := actors + [newcomer];
    forall x ensures Count(after, x) == Listed(occupied, x) {
      CountConcat(actors, [newcomer], x);
      assert [newcomer][1..] == [];
    }
    forall j | 0 <= j < |after| ensures WellFormed(after[j]) {
      if j < |actors| {
        assert after[j] == actors[j];
      }
    }
  }

  /** A slot is never held by two NPCs at once. */
  lemma HeldSlotsAreExclusive(actors: seq<Actor>, occupied: seq<Slot>, i: nat, j: nat)
    requires Accounted(actors, occupied) && i < j < |actors|
    requires Holding(actors[i]) && Holding(actors[j])
    ensures actors[i].assignedSlot != actors[j].assignedSlot
  {
    var x := actors[i].assignedSlot.value;
    CountSplit(actors, j, x);
    CountSplit(actors[..j], i, x);
    assert actors[..j][i] == actors[i];
    assert Count(actors, x) == Listed(occupied, x);
    assert Holds(actors[j], x) == 0;
  }

  /** Every NPC walking to or waiting at a slot finds it listed in the ledger. */
  lemma HeldSlotIsOccupied(actors: seq<Actor>, occupied: seq<Slot>, i: nat)
    requires Accounted(actors, occupied) && i < |actors| && Holding(actors[i])
    ensures actors[i].assignedSlot.value in occupied
  {
    var x := actors[i].assignedSlot.value;
    CountSplit(actors, i, x);
    assert Count(actors, x) == Listed(occupied, x);
  }

  /**
   * `OnDestroy` keeps the ledger exact precisely when the destroyed NPC has no
   * stale claim; with one, it takes another NPC's slot off the ledger.
   */
  lemma DestroyAccounting(actors: seq<Actor>, occupied: seq<Slot>, i: nat)
    requires Accounted(actors, occupied) && i < |actors|
    ensures var o := DestroyStep(actors[i], occupied);
      Accounted(actors[..i] + actors[i + 1..], o.occupied) <==> !StaleClaim(actors[i], occupied)
  {
    var a := actors[i];
    var o := DestroyStep(a, occupied);
    var rest := actors[..i] + actors[i + 1..];
    forall j | 0 <= j < |rest| ensures WellFormed(rest[j]) {
      if j < i {
        assert rest[j] == actors[j];
      } else {
        assert rest[j] == actors[j + 1];
      }
    }
    if a.assignedSlot.Some? && a.assignedSlot.value in occupied {
      RemoveFirstNoDup(occupied, a.assignedSlot.value);
    }
    if StaleClaim(a, occupied) {
      var x := a.assignedSlot.value;
      CountSplit(actors, i, x);
      CountConcat(actors[..i], actors[i + 1..], x);
      assert Count(actors, x) == Listed(occupied, x);
      assert Count(rest, x) != Listed(o.occupied, x);
    } else {
      forall x ensures Count(rest, x) == Listed(o.occupied, x) {
        CountSplit(actors, i, x);
        CountConcat(actors[..i], actors[i + 1..], x);
      }
    }
  }

  /** Two customers and one destination slot, with a ten-second timeout. */
  const demoSettings := Settings(true, true, [Some(0)], true, 10)
  /** Customer A waits at slot 0 for the second interaction. */
  const customerA := Actor(WaitingForSecondInteraction, Some(Destination(0)), Some(0), true, Some(10), true, true)
  /** Customer B waits at the waiting point for the first interaction. */
  const customerB := Actor(WaitingForFirstInteraction, Some(WaitingPoint), None, true, None, true, true)
  /** The player presses E near the customer. */
  const press := Frame(false, false, true, 0)

  lemma DemoStartsAccounted()
    ensures Accounted([customerA, customerB], [0])
  {
    forall x ensures Count([customerA, customerB], x) == Listed([0], x) {
      assert [customerA, customerB][1..] == [customerB] && [customerB][1..] == [];
      assert Count([customerB], x) == Holds(customerB, x) + Count([], x) == 0;
      assert Count([customerA, customerB], x) == Holds(customerA, x) + Count([customerB], x);
      assert x in [0] <==> x == 0;
    }
  }

  /**
   * The stale claim is reachable with two NPCs: A is served at slot 0 and
   * leaves, B then claims slot 0, and destroying A would take slot 0 off the
   * ledger while B still holds it.
   */
  lemma StaleClaimIsReachable()
    ensures var served := Apply(demoSettings, customerA, [0], press);
      var claimed := Apply(demoSettings, customerB, served.occupied, press);
      && Accounted([served.actor, claimed.actor], claimed.occupied)
      && StaleClaim(served.actor, claimed.occupied)
      && !Accounted([claimed.actor], DestroyStep(served.actor, claimed.occupied).occupied)
  {
    var served := Apply(demoSettings, customerA, [0], press);
    assert served.occupied == [];
    DemoStartsAccounted();
    StepKeepsAccounting(demoSettings, [customerA, customerB], [0], 0, press);
    assert [customerA, customerB][0 := served.actor] == [served.actor, customerB];
    var claimed := Apply(demoSettings, customerB, [], press);
    assert FreeSlots([Some(0)], []) == [0];
    assert claimed.occupied == [0];
    StepKeepsAccounting(demoSettings, [served.actor, customerB], [], 1, press);
    assert [served.actor, customerB][1 := claimed.actor] == [served.actor, claimed.actor];
    DestroyAccounting([served.actor, claimed.actor], [0], 0);
    assert [served.actor, claimed.actor][..0] + [served.actor, claimed.actor][1..] == [claimed.actor];
  }
}
