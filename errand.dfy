/**
 * One customer NPC's errand, as values: the fields `NPC.Update`, the
 * second-interaction timeout and `OnDestroy` change, and one function per
 * thing that changes them. Positions and movement are abstracted to an
 * "arrived" flag per frame, the E-press-within-reach test to an "interact"
 * flag, and `Random.Range` to a draw `roll`.
 */
module Errand {
  import opened Wrappers
  import opened Lists
  import opened Destinations

  datatype NpcState =
    | NotSpawned
    | MovingToWaitingPoint
    | WaitingForFirstInteraction
    | MovingToRandomDestination
    | WaitingForSecondInteraction
    | ReturningToSpawn
    | Despawned

  /** What `currentDestination` can refer to. */
  datatype Place = SpawnPoint | WaitingPoint | Destination(slot: Slot)

  /**
   * The mutable fields of an NPC: `currentState`, `currentDestination`,
   * `assignedRandomDestination`, `canInteract`, the running timeout coroutine
   * (`countdown == Some(r)` while it runs with `r` seconds left), whether
   * its GameObject is active and whether the NPC component itself is enabled
   * (Unity calls `Update` only when both hold).
   */
  datatype Actor = Actor(
    state: NpcState,
    currentDestination: Option<Place>,
    assignedSlot: Option<Slot>,
    canInteract: bool,
    countdown: Option<nat>,
    active: bool,
    enabled: bool)

  /**
   * What an NPC is configured with: whether its spawn and waiting points and
   * its player reference are assigned, its destination array (entries may be
   * null), and `secondInteractionTimeout` in whole seconds.
   */
  datatype Settings = Settings(
    hasSpawnPoint: bool,
    hasWaitingPoint: bool,
    destinations: seq<Option<Slot>>,
    hasPlayer: bool,
    timeout: nat)

  /**
   * The NPC and the shared ledger after a step, and whether a penalty fell due
   * (the step calls AddAnxiety when a BarManager exists).
   */
  datatype Outcome = Outcome(actor: Actor, occupied: seq<Slot>, penalized: bool)

  /** A freshly instantiated NPC: default field values, GameObject active, component enabled. */
  function Instantiated(): Actor {
    Actor(NotSpawned, None, None, false, None, true, true)
  }

  /** `StartNPCBehavior` (the position snap is not modelled). */
  function StartBehavior(a: Actor): Actor {
    a.(state := MovingToWaitingPoint, currentDestination := Some(WaitingPoint))
  }

  /** `SpawnNPC`, the T-key path: activates the GameObject, then starts like StartNPCBehavior. */
  function SpawnByKey(a: Actor): Actor {
    StartBehavior(a.(active := true))
  }

  /** `StopSecondInteractionTimeout`. */
  function StopTimeout(a: Actor): Actor {
    a.(countdown := None)
  }

  /** `StartSecondInteractionTimeout`: always cancels first; starts only for a positive timeout. */
  function StartTimeout(timeout: nat, a: Actor): Actor {
    var b := StopTimeout(a);
    if timeout > 0 then b.(countdown := Some(timeout)) else b
  }

  /** `Despawn`: stops the countdown and goes back to NotSpawned, inactive. */
  function Despawn(a: Actor): Actor {
    StopTimeout(a).(state := NotSpawned, active := false)
  }

  /** `OnInteract`. The second interaction does not look at any held coffee. */
  function Interact(s: Settings, a: Actor, occupied: seq<Slot>, roll: nat): Outcome {
    var b := StopTimeout(a.(canInteract := false));
    if b.state == WaitingForFirstInteraction then
      match PickFree(s.destinations, occupied, roll)
      case Some(c) =>
        Outcome(b.(assignedSlot := Some(c), state := MovingToRandomDestination,
                   currentDestination := Some(Destination(c))),
                occupied + [c], false)
      case None => Outcome(b, occupied, false)
    else if b.state == WaitingForSecondInteraction then
      var released := if b.assignedSlot.Some? then RemoveFirst(occupied, b.assignedSlot.value) else occupied;
      Outcome(b.(state := ReturningToSpawn, currentDestination := Some(SpawnPoint)), released, false)
    else
      Outcome(b, occupied, false)
  }

  /** `CheckForPlayerInteraction`: needs a player, `canInteract`, and the E press within reach. */
  function CheckInteraction(s: Settings, a: Actor, occupied: seq<Slot>, interact: bool, roll: nat): Outcome {
    if !s.hasPlayer || !a.canInteract || !interact then Outcome(a, occupied, false)
    else Interact(s, a, occupied, roll)
  }

  /**
   * One `Update` frame. `arrived` stands for HasReachedDestination after
   * this frame's move; a null target is never reached.
   */
  function UpdateStep(s: Settings, a: Actor, occupied: seq<Slot>,
                      tKey: bool, arrived: bool, interact: bool, roll: nat): Outcome
  {
    var a := if tKey && a.state == NotSpawned then SpawnByKey(a) else a;
    match a.state
    case MovingToWaitingPoint =>
      if arrived && s.hasWaitingPoint then
        Outcome(a.(state := WaitingForFirstInteraction, canInteract := true), occupied, false)
      else Outcome(a, occupied, false)
    case WaitingForFirstInteraction =>
      CheckInteraction(s, a, occupied, interact, roll)
    case MovingToRandomDestination =>
      if arrived && a.assignedSlot.Some? then
        Outcome(StartTimeout(s.timeout, a.(state := WaitingForSecondInteraction, canInteract := true)),
                occupied, false)
      else Outcome(a, occupied, false)
    case WaitingForSecondInteraction =>
      CheckInteraction(s, a, occupied, interact, roll)
    case ReturningToSpawn =>
      if arrived && s.hasSpawnPoint then
        Outcome(Despawn(a.(state := Despawned)), occupied, false)
      else Outcome(a, occupied, false)
    case NotSpawned => Outcome(a, occupied, false)
    case Despawned => Outcome(a, occupied, false)
  }

  /**
   * The end of the timeout coroutine: a penalty falls due (`penalized`; it is
   * applied only when `BarManager.Instance` exists, see `Npc.SecondElapsed`),
   * the slot is released and the NPC heads back to spawn.
   */
  function Expire(a: Actor, occupied: seq<Slot>): Outcome {
    var released :=
      if a.assignedSlot.Some? && a.assignedSlot.value in occupied then RemoveFirst(occupied, a.assignedSlot.value)
      else occupied;
    Outcome(a.(assignedSlot := None, state := ReturningToSpawn, currentDestination := Some(SpawnPoint),
               canInteract := false, countdown := None),
            released, true)
  }

  /**
   * One resumption of the timeout coroutine after `WaitForSeconds(min(1, remaining))`:
   * `remaining` drops by min(1, remaining); at zero the coroutine expires.
   * Nothing happens while no coroutine runs.
   */
  function SecondStep(a: Actor, occupied: seq<Slot>): Outcome {
    match a.countdown
    case None => Outcome(a, occupied, false)
    case Some(remaining) =>
      var left := remaining - (if remaining < 1 then remaining else 1);
      if left > 0 then Outcome(a.(countdown := Some(left)), occupied, false)
      else Expire(a, occupied)
  }

  /** `OnDestroy`: releases the assigned slot if the ledger still lists it, and stops the countdown. */
  function DestroyStep(a: Actor, occupied: seq<Slot>): Outcome {
    var released :=
      if a.assignedSlot.Some? && a.assignedSlot.value in occupied then RemoveFirst(occupied, a.assignedSlot.value)
      else occupied;
    Outcome(StopTimeout(a), released, false)
  }

  /**
   * What holds of every NPC between steps: Despawned is never observed, the
   * destination-bound states have a slot, and a countdown runs only while
   * waiting for the second interaction, with at least one second left.
   */
  predicate WellFormed(a: Actor) {
    && a.state != Despawned
    && (a.state == MovingToRandomDestination || a.state == WaitingForSecondInteraction ==> a.assignedSlot.Some?)
    && (a.countdown.Some? ==> a.state == WaitingForSecondInteraction && a.countdown.value >= 1)
  }

  // ---------------------------------------------------------------------------
  // Properties of single steps

  /** Both ways of spawning head for the waiting point. */
  lemma SpawnStartsErrand(a: Actor)
    ensures StartBehavior(a).state == MovingToWaitingPoint
    ensures StartBehavior(a).currentDestination == Some(WaitingPoint)
    ensures SpawnByKey(a).state == MovingToWaitingPoint && SpawnByKey(a).active
    ensures SpawnByKey(a).currentDestination == Some(WaitingPoint)
  {
  }

  /** An Update frame never calls AddAnxiety: only the timeout does. */
  lemma UpdateNeverPenalizes(s: Settings, a: Actor, occupied: seq<Slot>,
                             tKey: bool, arrived: bool, interact: bool, roll: nat)
    ensures !UpdateStep(s, a, occupied, tKey, arrived, interact, roll).penalized
  {
  }

  /**
   * Walking to the waiting point ends exactly on arrival, and arrival arms
   * the first interaction.
   */
  lemma WaitingPointReachedOnlyOnArrival(s: Settings, a: Actor, occupied: seq<Slot>,
                                         tKey: bool, arrived: bool, interact: bool, roll: nat)
    requires a.state == MovingToWaitingPoint
    ensures var o := UpdateStep(s, a, occupied, tKey, arrived, interact, roll);
      && (o.actor.state != MovingToWaitingPoint <==> arrived && s.hasWaitingPoint)
      && (o.actor.state != MovingToWaitingPoint ==>
            o.actor == a.(state := WaitingForFirstInteraction, canInteract := true))
      && (o.actor.state == MovingToWaitingPoint ==> o.actor == a)
      && o.occupied == occupied
  {
  }

  /**
   * Walking to the claimed slot ends exactly on arrival, and arrival arms the
   * second interaction and (re)starts the countdown when the timeout is positive.
   */
  lemma DestinationReachedOnlyOnArrival(s: Settings, a: Actor, occupied: seq<Slot>,
                                        tKey: bool, arrived: bool, interact: bool, roll: nat)
    requires a.state == MovingToRandomDestination && a.assignedSlot.Some?
    ensures var o := UpdateStep(s, a, occupied, tKey, arrived, interact, roll);
      && (o.actor.state != MovingToRandomDestination <==> arrived)
      && (arrived ==>
            && o.actor.state == WaitingForSecondInteraction
            && o.actor.canInteract
            && o.actor.assignedSlot == a.assignedSlot
            && o.actor.countdown == (if s.timeout > 0 then Some(s.timeout) else None))
      && o.occupied == occupied
  {
  }

  /** Starting the countdown discards any countdown already running. */
  lemma StartTimeoutRestarts(timeout: nat, a: Actor)
    ensures StartTimeout(timeout, a).countdown == if timeout > 0 then Some(timeout) else None
    ensures StartTimeout(timeout, a) == StartTimeout(timeout, StopTimeout(a))
  {
  }

  /**
   * A successful first interaction claims exactly one free slot: it is
   * appended to the ledger, which stays duplicate-free, and becomes the NPC's
   * assigned destination.
   */
  lemma FirstInteractionClaimsSlot(s: Settings, a: Actor, occupied: seq<Slot>, roll: nat)
    requires a.state == WaitingForFirstInteraction && a.canInteract && s.hasPlayer
    requires HasFreeSlot(s.destinations, occupied)
    requires NoDup(occupied)
    ensures var o := UpdateStep(s, a, occupied, false, false, true, roll);
      exists c ::
        && Some(c) in s.destinations && c !in occupied
        && o.occupied == occupied + [c]
        && NoDup(o.occupied)
        && o.actor.assignedSlot == Some(c)
        && o.actor.state == MovingToRandomDestination
        && o.actor.currentDestination == Some(Destination(c))
        && !o.actor.canInteract
  {
    var c := PickFree(s.destinations, occupied, roll).value;
    AppendFreshNoDup(occupied, c);
  }

  /**
   * A first interaction with every slot taken changes neither the state nor
   * the ledger, but still clears `canInteract`.
   */
  lemma FirstInteractionWithoutFreeSlot(s: Settings, a: Actor, occupied: seq<Slot>, roll: nat)
    requires a.state == WaitingForFirstInteraction && a.canInteract && s.hasPlayer
    requires !HasFreeSlot(s.destinations, occupied)
    ensures var o := UpdateStep(s, a, occupied, false, false, true, roll);
      && o.actor == StopTimeout(a).(canInteract := false)
      && o.occupied == occupied
  {
  }

  /**
   * The second interaction, with or without coffee, cancels the countdown,
   * takes the assigned slot off the ledger and sends the NPC home. It leaves
   * `assignedSlot` pointing at the released slot.
   */
  lemma SecondInteractionReleases(s: Settings, a: Actor, occupied: seq<Slot>, roll: nat, slot: Slot)
    requires a.state == WaitingForSecondInteraction && a.canInteract && s.hasPlayer
    requires a.assignedSlot == Some(slot)
    requires NoDup(occupied)
    ensures var o := UpdateStep(s, a, occupied, false, false, true, roll);
      && o.actor.state == ReturningToSpawn
      && o.actor.currentDestination == Some(SpawnPoint)
      && o.actor.countdown.None?
      && !o.actor.canInteract
      && o.actor.assignedSlot == Some(slot)
      && slot !in o.occupied
      && (forall y :: y in o.occupied <==> y in occupied && y != slot)
      && NoDup(o.occupied)
      && !o.penalized
  {
    RemoveFirstNoDup(occupied, slot);
  }

  /** Reaching the spawn point ends in NotSpawned: the Despawned state is overwritten at once. */
  lemma ReturnEndsNotSpawned(s: Settings, a: Actor, occupied: seq<Slot>,
                             tKey: bool, arrived: bool, interact: bool, roll: nat)
    requires a.state == ReturningToSpawn
    ensures var o := UpdateStep(s, a, occupied, tKey, arrived, interact, roll);
      && (arrived && s.hasSpawnPoint ==>
            o.actor.state == NotSpawned && !o.actor.active && o.actor.countdown.None?)
      && (!(arrived && s.hasSpawnPoint) ==> o.actor == a)
      && o.actor.state != Despawned
      && o.occupied == occupied
  {
  }

  /** Each resumption takes one second off; the last one expires the countdown. */
  lemma CountdownTicks(a: Actor, occupied: seq<Slot>, remaining: nat)
    requires a.countdown == Some(remaining)
    ensures remaining > 1 ==> SecondStep(a, occupied) == Outcome(a.(countdown := Some(remaining - 1)), occupied, false)
    ensures remaining <= 1 ==> SecondStep(a, occupied) == Expire(a, occupied)
  {
  }

  /**
   * Expiry calls AddAnxiety once, releases the slot, forgets it, and sends the
   * NPC home unable to interact, with no countdown left.
   */
  lemma ExpiryReleasesSlot(a: Actor, occupied: seq<Slot>, slot: Slot)
    requires a.countdown == Some(1) && a.assignedSlot == Some(slot)
    requires NoDup(occupied)
    ensures var o := SecondStep(a, occupied);
      && o.penalized
      && slot !in o.occupied
      && (forall y :: y in o.occupied <==> y in occupied && y != slot)
      && NoDup(o.occupied)
      && o.actor.assignedSlot.None?
      && o.actor.state == ReturningToSpawn
      && o.actor.currentDestination == Some(SpawnPoint)
      && !o.actor.canInteract
      && o.actor.countdown.None?
  {
    if slot in occupied {
      RemoveFirstNoDup(occupied, slot);
    }
  }

  /** With no countdown running, a coroutine step does nothing: a cancelled countdown never fires. */
  lemma NoCountdownNoPenalty(a: Actor, occupied: seq<Slot>)
    requires a.countdown.None?
    ensures SecondStep(a, occupied) == Outcome(a, occupied, false)
  {
  }

  /**
   * OnDestroy leaves no countdown that could still fire, and the ledger no
   * longer lists the NPC's assigned slot.
   */
  lemma DestroyCleansUp(a: Actor, occupied: seq<Slot>)
    requires NoDup(occupied)
    ensures var o := DestroyStep(a, occupied);
      && o.actor.countdown.None?
      && !SecondStep(o.actor, o.occupied).penalized
      && (a.assignedSlot.Some? ==> a.assignedSlot.value !in o.occupied)
      && NoDup(o.occupied)
      && !o.penalized
  {
    if a.assignedSlot.Some? && a.assignedSlot.value in occupied {
      RemoveFirstNoDup(occupied, a.assignedSlot.value);
    }
  }

  /** An interaction never lists a slot twice in the shared ledger. */
  lemma InteractKeepsLedgerDuplicateFree(s: Settings, a: Actor, occupied: seq<Slot>, roll: nat)
    requires NoDup(occupied)
    ensures NoDup(Interact(s, a, occupied, roll).occupied)
  {
    if a.state == WaitingForFirstInteraction {
      var pick := PickFree(s.destinations, occupied, roll);
      if pick.Some? {
        AppendFreshNoDup(occupied, pick.value);
      }
    } else if a.assignedSlot.Some? {
      RemoveFirstNoDup(occupied, a.assignedSlot.value);
    }
  }

  /** No frame ever lists a slot twice in the shared ledger. */
  lemma StepsKeepLedgerDuplicateFree(s: Settings, a: Actor, occupied: seq<Slot>,
                                     tKey: bool, arrived: bool, interact: bool, roll: nat)
    requires NoDup(occupied)
    ensures NoDup(UpdateStep(s, a, occupied, tKey, arrived, interact, roll).occupied)
  {
    var b := if tKey && a.state == NotSpawned then SpawnByKey(a) else a;
    if interact && s.hasPlayer && b.canInteract {
      InteractKeepsLedgerDuplicateFree(s, b, occupied, roll);
    }
  }

  /** A coroutine step never lists a slot twice in the shared ledger. */
  lemma SecondStepKeepsLedgerDuplicateFree(a: Actor, occupied: seq<Slot>)
    requires NoDup(occupied)
    ensures NoDup(SecondStep(a, occupied).occupied)
  {
    if a.assignedSlot.Some? && a.assignedSlot.value in occupied {
      RemoveFirstNoDup(occupied, a.assignedSlot.value);
    }
  }

  /** Frames and countdown steps keep an NPC well formed; in particular Despawned is never observed. */
  lemma StepsKeepWellFormed(s: Settings, a: Actor, occupied: seq<Slot>,
                            tKey: bool, arrived: bool, interact: bool, roll: nat)
    requires WellFormed(a)
    ensures WellFormed(UpdateStep(s, a, occupied, tKey, arrived, interact, roll).actor)
    ensures WellFormed(SecondStep(a, occupied).actor)
  {
  }
}
