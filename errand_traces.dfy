/**
 * Runs of one NPC: sequences of Update frames and timeout-coroutine
 * resumptions, with a count of AddAnxiety calls (penalties) and of arrivals
 * at the claimed slot (the only place the countdown is started).
 */
module ErrandTraces {
  import opened Wrappers
  import opened Lists
  import opened Destinations
  import opened Errand

  /** Between two observations an NPC sees an Update frame or one resumption of its timeout coroutine. */
  datatype Event = Frame(tKey: bool, arrived: bool, interact: bool, roll: nat) | Second

  /**
   * Unity calls `Update` only on an enabled component of an active GameObject;
   * coroutine resumptions need a running coroutine.
   */
  function Apply(s: Settings, a: Actor, occupied: seq<Slot>, e: Event): Outcome {
    match e
    case Frame(tKey, arrived, interact, roll) =>
      if a.active && a.enabled then UpdateStep(s, a, occupied, tKey, arrived, interact, roll) else Outcome(a, occupied, false)
    case Second => SecondStep(a, occupied)
  }

  /** The step brought the NPC to its claimed slot. */
  predicate ArrivesAtSlot(a: Actor, o: Outcome) {
    a.state == MovingToRandomDestination && o.actor.state == WaitingForSecondInteraction
  }

  /** Where a run ends, how many times it called AddAnxiety, and how many times it arrived at a slot. */
  datatype Trace = Trace(actor: Actor, occupied: seq<Slot>, penalties: nat, arrivals: nat)

  function Run(s: Settings, a: Actor, occupied: seq<Slot>, events: seq<Event>): Trace
    decreases |events|
  {
    if events == [] then Trace(a, occupied, 0, 0)
    else
      var o := Apply(s, a, occupied, events[0]);
      var t := Run(s, o.actor, o.occupied, events[1..]);
      Trace(t.actor, t.occupied,
            t.penalties + (if o.penalized then 1 else 0),
            t.arrivals + (if ArrivesAtSlot(a, o) then 1 else 0))
  }

  /** `n` resumptions of the timeout coroutine in a row. */
  function Seconds(n: nat): seq<Event> {
    if n == 0 then [] else [Second] + Seconds(n - 1)
  }

  /** 1 while a countdown runs. */
  function Pending(a: Actor): nat {
    if a.countdown.Some? then 1 else 0
  }

  /**
   * A penalty consumes a running countdown, and a countdown can only start on
   * arrival at the slot.
   */
  lemma StepPotential(s: Settings, a: Actor, occupied: seq<Slot>, e: Event)
    ensures var o := Apply(s, a, occupied, e);
      (if o.penalized then 1 else 0) + Pending(o.actor) <= Pending(a) + (if ArrivesAtSlot(a, o) then 1 else 0)
  {
  }

  /**
   * Over any run, the penalties (plus a countdown still running at the end)
   * never exceed the arrivals at a slot (plus a countdown running at the start).
   */
  lemma {:induction false} PenaltiesNeedArrivals(s: Settings, a: Actor, occupied: seq<Slot>, events: seq<Event>)
    ensures var t := Run(s, a, occupied, events);
      t.penalties + Pending(t.actor) <= t.arrivals + Pending(a)
    decreases |events|
  {
    if events != [] {
      var o := Apply(s, a, occupied, events[0]);
      StepPotential(s, a, occupied, events[0]);
      PenaltiesNeedArrivals(s, o.actor, o.occupied, events[1..]);
    }
  }

  /** Once the countdown is cancelled, no penalty follows until the NPC arrives at a slot again. */
  lemma CancelledCountdownNeverFires(s: Settings, a: Actor, occupied: seq<Slot>, events: seq<Event>)
    requires a.countdown.None?
    requires Run(s, a, occupied, events).arrivals == 0
    ensures Run(s, a, occupied, events).penalties == 0
  {
    PenaltiesNeedArrivals(s, a, occupied, events);
  }

  /** Before the last second, coroutine steps only count down: no penalty, nothing else changes. */
  lemma {:induction false} CountdownRunsDown(s: Settings, a: Actor, occupied: seq<Slot>, n: nat, k: nat)
    requires a.countdown == Some(n) && k < n
    ensures Run(s, a, occupied, Seconds(k)) == Trace(a.(countdown := Some(n - k)), occupied, 0, 0)
    decreases k
  {
    if k > 0 {
      var b := a.(countdown := Some(n - 1));
      assert Apply(s, a, occupied, Second) == Outcome(b, occupied, false);
      CountdownRunsDown(s, b, occupied, n - 1, k - 1);
      assert b.(countdown := Some(n - 1 - (k - 1))) == a.(countdown := Some(n - k));
    }
  }

  /** A countdown of `n` seconds expires on exactly the `n`-th resumption, with one penalty. */
  lemma {:induction false} TimeoutFiresAfterExactly(s: Settings, a: Actor, occupied: seq<Slot>, n: nat)
    requires a.countdown == Some(n) && n >= 1
    ensures var e := Expire(a, occupied);
      Run(s, a, occupied, Seconds(n)) == Trace(e.actor, e.occupied, 1, 0)
    decreases n
  {
    if n > 1 {
      var b := a.(countdown := Some(n - 1));
      assert Apply(s, a, occupied, Second) == Outcome(b, occupied, false);
      TimeoutFiresAfterExactly(s, b, occupied, n - 1);
      assert Expire(b, occupied) == Expire(a, occupied);
    } else {
      assert Seconds(1) == [Second];
    }
  }

  /** Running two event sequences one after the other adds up their counts. */
  lemma {:induction false} RunAppend(s: Settings, a: Actor, occupied: seq<Slot>, xs: seq<Event>, ys: seq<Event>)
    ensures var t := Run(s, a, occupied, xs);
      var u := Run(s, t.actor, t.occupied, ys);
      Run(s, a, occupied, xs + ys) == Trace(u.actor, u.occupied, t.penalties + u.penalties, t.arrivals + u.arrivals)
    decreases |xs|
  {
    if xs != [] {
      var o := Apply(s, a, occupied, xs[0]);
      assert (xs + ys)[0] == xs[0];
      assert (xs + ys)[1..] == xs[1..] + ys;
      RunAppend(s, o.actor, o.occupied, xs[1..], ys);
    } else {
      assert xs + ys == ys;
    }
  }

  /**
   * An unserved customer costs exactly one penalty: after the countdown of
   * `n` seconds expires, nothing more is added unless it reaches a slot again.
   */
  lemma ExactlyOnePenaltyOnTimeout(s: Settings, a: Actor, occupied: seq<Slot>, n: nat, rest: seq<Event>)
    requires a.countdown == Some(n) && n >= 1
    requires Run(s, a, occupied, Seconds(n) + rest).arrivals == 0
    ensures Run(s, a, occupied, Seconds(n) + rest).penalties == 1
  {
    RunAppend(s, a, occupied, Seconds(n), rest);
    TimeoutFiresAfterExactly(s, a, occupied, n);
    var e := Expire(a, occupied);
    CancelledCountdownNeverFires(s, e.actor, e.occupied, rest);
  }

  /** The number of coroutine resumptions among the events. */
  function SecondsIn(events: seq<Event>): nat {
    if events == [] then 0 else (if events[0].Second? then 1 else 0) + SecondsIn(events[1..])
  }

  /** No frame among the events has E pressed within reach. */
  predicate Quiet(events: seq<Event>) {
    forall i :: 0 <= i < |events| && events[i].Frame? ==> !events[i].interact
  }

  /**
   * While a customer waits at its slot, a frame without an interaction
   * changes nothing: neither the NPC (the T key only acts on NotSpawned) nor
   * the ledger.
   */
  lemma QuietFrameKeepsWaiting(s: Settings, a: Actor, occupied: seq<Slot>, tKey: bool, arrived: bool, roll: nat)
    requires a.state == WaitingForSecondInteraction
    ensures Apply(s, a, occupied, Frame(tKey, arrived, false, roll)) == Outcome(a, occupied, false)
  {
  }

  /**
   * With Update frames running between the resumptions, a countdown of `n`
   * seconds still expires on exactly its `n`-th resumption, with one penalty,
   * as long as no frame interacts.
   */
  lemma {:induction false} TimeoutFiresAmidFrames(s: Settings, a: Actor, occupied: seq<Slot>, ys: seq<Event>)
    requires a.state == WaitingForSecondInteraction && a.countdown == Some(SecondsIn(ys) + 1)
    requires Quiet(ys)
    ensures var e := Expire(a, occupied);
      Run(s, a, occupied, ys + [Second]) == Trace(e.actor, e.occupied, 1, 0)
    decreases |ys|
  {
    if ys == [] {
      assert [] + [Second] == [Second];
    } else {
      var xs := ys + [Second];
      assert xs[0] == ys[0] && xs[1..] == ys[1..] + [Second];
      assert Quiet(ys[1..]) by {
        forall i | 0 <= i < |ys[1..]| && ys[1..][i].Frame?
          ensures !ys[1..][i].interact
        {
          assert ys[1..][i] == ys[i + 1];
        }
      }
      match ys[0]
      case Frame(tKey, arrived, interact, roll) =>
        QuietFrameKeepsWaiting(s, a, occupied, tKey, arrived, roll);
        TimeoutFiresAmidFrames(s, a, occupied, ys[1..]);
      case Second =>
        var b := a.(countdown := Some(SecondsIn(ys[1..]) + 1));
        assert Apply(s, a, occupied, Second) == Outcome(b, occupied, false);
        TimeoutFiresAmidFrames(s, b, occupied, ys[1..]);
        assert Expire(b, occupied) == Expire(a, occupied);
    }
  }

  /**
   * An unserved customer costs exactly one penalty even with frames running
   * between the resumptions: frames that do not interact until the `n`-th
   * resumption, then anything that does not bring it to a slot again.
   */
  lemma ExactlyOnePenaltyAmidFrames(s: Settings, a: Actor, occupied: seq<Slot>, ys: seq<Event>, rest: seq<Event>)
    requires a.state == WaitingForSecondInteraction && a.countdown == Some(SecondsIn(ys) + 1)
    requires Quiet(ys)
    requires Run(s, a, occupied, ys + [Second] + rest).arrivals == 0
    ensures Run(s, a, occupied, ys + [Second] + rest).penalties == 1
  {
    RunAppend(s, a, occupied, ys + [Second], rest);
    TimeoutFiresAmidFrames(s, a, occupied, ys);
    var e := Expire(a, occupied);
    CancelledCountdownNeverFires(s, e.actor, e.occupied, rest);
  }

  /** A customer served in time is never penalized (until it reaches a slot on a later errand). */
  lemma ServedCustomerIsNeverPenalized(s: Settings, a: Actor, occupied: seq<Slot>,
                                       tKey: bool, arrived: bool, roll: nat, rest: seq<Event>)
    requires a.state == WaitingForSecondInteraction && a.canInteract && a.active && a.enabled && s.hasPlayer
    requires Run(s, a, occupied, [Frame(tKey, arrived, true, roll)] + rest).arrivals == 0
    ensures Run(s, a, occupied, [Frame(tKey, arrived, true, roll)] + rest).penalties == 0
  {
    var events := [Frame(tKey, arrived, true, roll)] + rest;
    assert events[0] == Frame(tKey, arrived, true, roll) && events[1..] == rest;
    var o := Apply(s, a, occupied, events[0]);
    assert o.actor.countdown.None? && !o.penalized;
    CancelledCountdownNeverFires(s, o.actor, o.occupied, rest);
  }

  /** An NPC waiting for its first interaction with `canInteract` cleared never changes again. */
  lemma {:induction false} FailedFirstInteractionIsPermanent(s: Settings, a: Actor, occupied: seq<Slot>, events: seq<Event>)
    requires a.state == WaitingForFirstInteraction && !a.canInteract && a.countdown.None?
    ensures Run(s, a, occupied, events) == Trace(a, occupied, 0, 0)
    decreases |events|
  {
    if events != [] {
      assert Apply(s, a, occupied, events[0]) == Outcome(a, occupied, false);
      FailedFirstInteractionIsPermanent(s, a, occupied, events[1..]);
    }
  }

  /**
   * An inactive or disabled NPC with no countdown never changes: in particular
   * the T key (handled inside `Update`) cannot bring back an NPC that `Despawn`
   * or `Start` deactivated, nor one that `Start` disabled.
   */
  lemma {:induction false} InactiveNpcNeverChanges(s: Settings, a: Actor, occupied: seq<Slot>, events: seq<Event>)
    requires !(a.active && a.enabled) && a.countdown.None?
    ensures Run(s, a, occupied, events) == Trace(a, occupied, 0, 0)
    decreases |events|
  {
    if events != [] {
      assert Apply(s, a, occupied, events[0]) == Outcome(a, occupied, false);
      InactiveNpcNeverChanges(s, a, occupied, events[1..]);
    }
  }

  /**
   * Pressing E at a waiting customer while every slot is taken strands it:
   * it stays waiting for its first interaction for good, and the ledger is untouched.
   */
  lemma NoFreeSlotStrandsCustomer(s: Settings, a: Actor, occupied: seq<Slot>, roll: nat, rest: seq<Event>)
    requires a.state == WaitingForFirstInteraction && a.canInteract && a.active && a.enabled && s.hasPlayer
    requires !HasFreeSlot(s.destinations, occupied)
    ensures var t := Run(s, a, occupied, [Frame(false, false, true, roll)] + rest);
      t.actor.state == WaitingForFirstInteraction && !t.actor.canInteract && t.occupied == occupied
  {
    var events := [Frame(false, false, true, roll)] + rest;
    assert events[0] == Frame(false, false, true, roll) && events[1..] == rest;
    var o := Apply(s, a, occupied, events[0]);
    assert o.actor == StopTimeout(a).(canInteract := false) && o.occupied == occupied;
    FailedFirstInteractionIsPermanent(s, o.actor, o.occupied, rest);
  }

  /** Arrive at the waiting point, get served once, walk to the slot: the opening of every errand. */
  function Opening(roll: nat): seq<Event> {
    [Frame(false, true, false, 0), Frame(false, false, true, roll), Frame(false, true, false, 0)]
  }

  /** The customer is at its claimed slot, waiting, with a fresh countdown. */
  lemma OpeningClaimsSlot(s: Settings, occupied: seq<Slot>, roll: nat)
    requires s.hasPlayer && s.hasWaitingPoint && HasFreeSlot(s.destinations, occupied)
    ensures var c := PickFree(s.destinations, occupied, roll).value;
      var t := Run(s, StartBehavior(Instantiated()), occupied, Opening(roll));
      && t.actor.state == WaitingForSecondInteraction
      && t.actor.assignedSlot == Some(c)
      && t.actor.canInteract
      && t.actor.active && t.actor.enabled
      && t.actor.countdown == (if s.timeout > 0 then Some(s.timeout) else None)
      && t.occupied == occupied + [c]
      && t.penalties == 0 && t.arrivals == 1
  {
    var c := PickFree(s.destinations, occupied, roll).value;
    var a0 := StartBehavior(Instantiated());
    var o1 := Apply(s, a0, occupied, Frame(false, true, false, 0));
    var o2 := Apply(s, o1.actor, o1.occupied, Frame(false, false, true, roll));
    var o3 := Apply(s, o2.actor, o2.occupied, Frame(false, true, false, 0));
    assert o2.occupied == occupied + [c];
    assert o2.actor.state == MovingToRandomDestination && o2.actor.assignedSlot == Some(c);
    assert o3.actor.state == WaitingForSecondInteraction;
    var es := Opening(roll);
    assert es[1..] == [Frame(false, false, true, roll), Frame(false, true, false, 0)];
    assert es[1..][1..] == [Frame(false, true, false, 0)];
    assert es[1..][1..][1..] == [];
    assert Run(s, o2.actor, o2.occupied, es[1..][1..]) == Trace(o3.actor, o3.occupied, 0, 1);
    assert Run(s, o1.actor, o1.occupied, es[1..]) == Trace(o3.actor, o3.occupied, 0, 1);
  }

  /**
   * The unserved errand on an empty ledger: after the countdown runs out the
   * customer walks home; one penalty, and the ledger is empty again.
   */
  lemma UnservedErrand(s: Settings, roll: nat)
    requires s.hasPlayer && s.hasWaitingPoint && s.hasSpawnPoint && s.timeout >= 1
    requires HasFreeSlot(s.destinations, [])
    ensures var t := Run(s, StartBehavior(Instantiated()), [], Opening(roll) + Seconds(s.timeout) + [Frame(false, true, false, 0)]);
      t.actor.state == NotSpawned && !t.actor.active && t.actor.countdown.None? && t.occupied == [] && t.penalties == 1
  {
    var a0 := StartBehavior(Instantiated());
    OpeningClaimsSlot(s, [], roll);
    var t1 := Run(s, a0, [], Opening(roll));
    var c := t1.actor.assignedSlot.value;
    TimeoutFiresAfterExactly(s, t1.actor, t1.occupied, s.timeout);
    var e := Expire(t1.actor, t1.occupied);
    assert t1.occupied == [c] && e.occupied == [];
    assert e.actor.active && e.actor.state == ReturningToSpawn;
    var home := [Frame(false, true, false, 0)];
    assert home[1..] == [];
    var back := Apply(s, e.actor, e.occupied, home[0]);
    assert back.actor.state == NotSpawned && back.occupied == [];
    assert Run(s, e.actor, e.occupied, home) == Trace(back.actor, back.occupied, 0, 0);
    RunAppend(s, a0, [], Opening(roll), Seconds(s.timeout));
    RunAppend(s, a0, [], Opening(roll) + Seconds(s.timeout), home);
  }

  /**
   * The served errand on an empty ledger: served at the slot before the
   * countdown runs out, the customer walks home; no penalty, ledger empty.
   */
  lemma ServedErrand(s: Settings, roll: nat)
    requires s.hasPlayer && s.hasWaitingPoint && s.hasSpawnPoint
    requires HasFreeSlot(s.destinations, [])
    ensures var t := Run(s, StartBehavior(Instantiated()), [], Opening(roll) + [Frame(false, false, true, 0), Frame(false, true, false, 0)]);
      t.actor.state == NotSpawned && !t.actor.active && t.occupied == [] && t.penalties == 0
  {
    var a0 := StartBehavior(Instantiated());
    OpeningClaimsSlot(s, [], roll);
    var t1 := Run(s, a0, [], Opening(roll));
    var c := t1.actor.assignedSlot.value;
    assert t1.occupied == [c];
    var tail := [Frame(false, false, true, 0), Frame(false, true, false, 0)];
    assert tail[1..] == [Frame(false, true, false, 0)] && tail[1..][1..] == [];
    var o := Apply(s, t1.actor, t1.occupied, tail[0]);
    assert o.occupied == RemoveFirst([c], c) == [];
    assert o.actor.active && o.actor.state == ReturningToSpawn;
    var back := Apply(s, o.actor, o.occupied, tail[1]);
    assert back.actor.state == NotSpawned;
    assert Run(s, o.actor, o.occupied, tail[1..]) == Trace(back.actor, back.occupied, 0, 0);
    RunAppend(s, a0, [], Opening(roll), tail);
  }
}
