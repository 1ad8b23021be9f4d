/**
 * The destination slots an NPC can be sent to after its first interaction,
 * and the ledger of slots currently taken (`NPC.occupiedDestinations`, a static
 * `List<Transform>` shared by every NPC).
 */
module Destinations {
  import opened Wrappers
  import opened Lists

  /** A destination Transform, identified by reference. */
  type Slot = nat

  /**
   * The candidates `GetRandomAvailableDestination` collects: the non-null
   * entries of `destinations` not in `occupied`, in array order (an entry
   * listed twice in the array is a candidate twice).
   */
  function FreeSlots(destinations: seq<Option<Slot>>, occupied: seq<Slot>): (r: seq<Slot>)
    ensures forall x :: x in r <==> Some(x) in destinations && x !in occupied
    ensures |r| <= |destinations|
  {
    if |destinations| == 0 then []
    else
      var last := destinations[|destinations| - 1];
      var front := destinations[..|destinations| - 1];
      assert destinations == front + [last];
      var rest := FreeSlots(front, occupied);
      if last.Some? && last.value !in occupied then rest + [last.value] else rest
  }

  /** Some destination is assigned and not occupied. */
  ghost predicate HasFreeSlot(destinations: seq<Option<Slot>>, occupied: seq<Slot>) {
    exists x :: Some(x) in destinations && x !in occupied
  }

  /**
   * `GetRandomAvailableDestination`, with `Random.Range(0, n)` replaced by a
   * draw `roll` supplied from outside and reduced modulo the candidate count.
   */
  function PickFree(destinations: seq<Option<Slot>>, occupied: seq<Slot>, roll: nat): (r: Option<Slot>)
    ensures r.None? <==> !HasFreeSlot(destinations, occupied)
    ensures r.Some? ==> Some(r.value) in destinations && r.value !in occupied
  {
    var candidates := FreeSlots(destinations, occupied);
    if |candidates| == 0 then
      None
    else
      assert candidates[0] in candidates;
      Some(candidates[roll % |candidates|])
  }

  /** Every free slot is the outcome of some draw: the choice ranges over all free candidates. */
  lemma EveryFreeSlotCanBePicked(destinations: seq<Option<Slot>>, occupied: seq<Slot>, x: Slot)
    requires Some(x) in destinations && x !in occupied
    ensures exists roll: nat :: PickFree(destinations, occupied, roll) == Some(x)
  {
    var candidates := FreeSlots(destinations, occupied);
    assert x in candidates;
    var k :| 0 <= k < |candidates| && candidates[k] == x;
    var roll: nat := k;
    assert roll % |candidates| == k;
    assert PickFree(destinations, occupied, roll) == Some(x);
  }

  /** The shared ledger: a slot is in `occupied` while some NPC has claimed it. */
  class DestinationPool {
    var occupied: seq<Slot>

    /** No slot is listed twice. */
    ghost predicate Valid()
      reads this
    {
      NoDup(occupied)
    }

    constructor ()
      ensures occupied == [] && Valid()
    {
      occupied := [];
    }

    predicate Contains(x: Slot)
      reads this
    {
      x in occupied
    }

    /** `occupiedDestinations.Add(x)`. */
    method Add(x: Slot)
      modifies this
      ensures occupied == old(occupied) + [x]
    {
      occupied := occupied + [x];
    }

    /** `occupiedDestinations.Remove(x)`, which reports whether `x` was there. */
    method Remove(x: Slot) returns (removed: bool)
      modifies this
      ensures removed == (x in old(occupied))
      ensures occupied == RemoveFirst(old(occupied), x)
    {
      removed := x in occupied;
      occupied := RemoveFirst(occupied, x);
    }
  }
}
