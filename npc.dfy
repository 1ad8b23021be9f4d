/**
 * The `NPC` MonoBehaviour as a class whose fields are updated in place. Every
 * method is proved against the value-level model in `Errand`: after a call
 * the NPC's `View()` and the shared ledger are exactly what the corresponding
 * function computes from the state before the call.
 */
module NpcActor {
  import opened Wrappers
  import opened Lists
  import opened Destinations
  import opened Anxiety
  import opened Errand

  class Npc {
    // Position assignments and the player reference: whether each is set.
    var hasSpawnPoint: bool
    var hasWaitingPoint: bool
    var randomDestinations: seq<Option<Slot>>
    var hasPlayer: bool

    /** `secondInteractionTimeout`, in whole seconds. */
    const secondInteractionTimeout: nat
    const anxietyPenaltyOnTimeout: Int32

    /** The static `occupiedDestinations` list, shared by every NPC. */
    const occupiedDestinations: DestinationPool
    /** `BarManager.Instance`, which may be missing. */
    const barManager: BarManager?

    var currentState: NpcState
    var currentDestination: Option<Place>
    var assignedRandomDestination: Option<Slot>
    var canInteract: bool
    var isInitialized: bool
    /** The timeout coroutine: `Some(r)` while it runs with `r` seconds left. */
    var timeoutRemaining: Option<nat>
    /** `gameObject.activeSelf`. */
    var active: bool
    /** The component's `enabled` flag. */
    var enabled: bool

    ghost function View(): Actor
      reads this
    {
      Actor(currentState, currentDestination, assignedRandomDestination, canInteract, timeoutRemaining, active, enabled)
    }

    ghost function Config(): Settings
      reads this
    {
      Settings(hasSpawnPoint, hasWaitingPoint, randomDestinations, hasPlayer, secondInteractionTimeout)
    }

    /** `Instantiate` of the prefab with its inspector values; fields take their defaults. */
    constructor (hasSpawnPoint: bool, hasWaitingPoint: bool, randomDestinations: seq<Option<Slot>>, hasPlayer: bool,
                 secondInteractionTimeout: nat, anxietyPenaltyOnTimeout: Int32,
                 occupiedDestinations: DestinationPool, barManager: BarManager?)
      ensures View() == Instantiated()
      ensures Config() == Settings(hasSpawnPoint, hasWaitingPoint, randomDestinations, hasPlayer, secondInteractionTimeout)
      ensures this.anxietyPenaltyOnTimeout == anxietyPenaltyOnTimeout
      ensures this.occupiedDestinations == occupiedDestinations && this.barManager == barManager
      ensures !isInitialized
    {
      this.hasSpawnPoint := hasSpawnPoint;
      this.hasWaitingPoint := hasWaitingPoint;
      this.randomDestinations := randomDestinations;
      this.hasPlayer := hasPlayer;
      this.secondInteractionTimeout := secondInteractionTimeout;
      this.anxietyPenaltyOnTimeout := anxietyPenaltyOnTimeout;
      this.occupiedDestinations := occupiedDestinations;
      this.barManager := barManager;
      currentState := NotSpawned;
      currentDestination := None;
      assignedRandomDestination := None;
      canInteract := false;
      isInitialized := false;
      timeoutRemaining := None;
      active := true;
      enabled := true;
    }

    /** Stores the references, marks the NPC initialized and starts its errand at once. */
    method Initialize(spawn: bool, waiting: bool, destinations: seq<Option<Slot>>, player: bool)
      modifies this
      ensures Config() == Settings(spawn, waiting, destinations, player, secondInteractionTimeout)
      ensures View() == StartBehavior(old(View()))
      ensures isInitialized
    {
      hasSpawnPoint := spawn;
      hasWaitingPoint := waiting;
      randomDestinations := destinations;
      hasPlayer := player;
      isInitialized := true;
      StartNPCBehavior();
    }

    /**
     * Unity's `Start`: nothing for an initialized NPC; a manually placed one
     * with a reference missing disables itself, otherwise it waits inactive.
     */
    method Start()
      modifies this
      ensures Config() == old(Config()) && isInitialized == old(isInitialized)
      ensures old(isInitialized) ==> View() == old(View())
      ensures !old(isInitialized) && (!hasSpawnPoint || !hasWaitingPoint || |randomDestinations| == 0) ==>
        View() == old(View()).(enabled := false)
      ensures !old(isInitialized) && hasSpawnPoint && hasWaitingPoint && |randomDestinations| > 0 ==>
        View() == old(View()).(state := NotSpawned, active := false)
    {
      if isInitialized {
        return;
      }
      if !hasSpawnPoint || !hasWaitingPoint || |randomDestinations| == 0 {
        enabled := false;
        return;
      }
      currentState := NotSpawned;
      active := false;
    }

    method StartNPCBehavior()
      modifies this
      ensures View() == StartBehavior(old(View()))
      ensures Config() == old(Config()) && isInitialized == old(isInitialized)
    {
      currentState := MovingToWaitingPoint;
      currentDestination := Some(WaitingPoint);
    }

    /** The T-key spawn. */
    method SpawnNPC()
      modifies this
      ensures View() == SpawnByKey(old(View()))
      ensures Config() == old(Config()) && isInitialized == old(isInitialized)
    {
      active := true;
      currentState := MovingToWaitingPoint;
      currentDestination := Some(WaitingPoint);
    }

    /**
     * One frame. `tKey` and `interact` are this frame's key presses (E within
     * reach for `interact`), `arrived` whether the NPC is within reach of the
     * target it moves to, and `roll` the draw `Random.Range` would make.
     */
    method Update(tKey: bool, arrived: bool, interact: bool, roll: nat)
      modifies this, occupiedDestinations
      ensures var o := UpdateStep(old(Config()), old(View()), old(occupiedDestinations.occupied),
                                  tKey, arrived, interact, roll);
        View() == o.actor && occupiedDestinations.occupied == o.occupied
      ensures Config() == old(Config()) && isInitialized == old(isInitialized)
      ensures old(occupiedDestinations.Valid()) ==> occupiedDestinations.Valid()
    {
      if tKey && currentState == NotSpawned {
        SpawnNPC();
      }
      match currentState {
        case NotSpawned =>
        case MovingToWaitingPoint =>
          if arrived && hasWaitingPoint {
            currentState := WaitingForFirstInteraction;
            canInteract := true;
          }
        case WaitingForFirstInteraction =>
          CheckForPlayerInteraction(interact, roll);
        case MovingToRandomDestination =>
          if arrived && assignedRandomDestination.Some? {
            currentState := WaitingForSecondInteraction;
            canInteract := true;
            StartSecondInteractionTimeout();
          }
        case WaitingForSecondInteraction =>
          CheckForPlayerInteraction(interact, roll);
        case ReturningToSpawn =>
          if arrived && hasSpawnPoint {
            currentState := Despawned;
            Despawn();
          }
        case Despawned =>
      }
    }

    method CheckForPlayerInteraction(interact: bool, roll: nat)
      modifies this, occupiedDestinations
      ensures var o := CheckInteraction(old(Config()), old(View()), old(occupiedDestinations.occupied), interact, roll);
        View() == o.actor && occupiedDestinations.occupied == o.occupied
      ensures Config() == old(Config()) && isInitialized == old(isInitialized)
      ensures old(occupiedDestinations.Valid()) ==> occupiedDestinations.Valid()
    {
      if !hasPlayer || !canInteract {
        return;
      }
      if interact {
        OnInteract(roll);
      }
    }

    method OnInteract(roll: nat)
      modifies this, occupiedDestinations
      ensures var o := Interact(old(Config()), old(View()), old(occupiedDestinations.occupied), roll);
        View() == o.actor && occupiedDestinations.occupied == o.occupied
      ensures Config() == old(Config()) && isInitialized == old(isInitialized)
      ensures old(occupiedDestinations.Valid()) ==> occupiedDestinations.Valid()
    {
      ghost var occ0 := occupiedDestinations.occupied;
      if NoDup(occ0) {
        InteractKeepsLedgerDuplicateFree(Config(), View(), occ0, roll);
      }
      canInteract := false;
      StopSecondInteractionTimeout();
      if currentState == WaitingForFirstInteraction {
        var chosen := GetRandomAvailableDestination(roll);
        if chosen.Some? {
          assignedRandomDestination := chosen;
          occupiedDestinations.Add(chosen.value);
          currentState := MovingToRandomDestination;
          currentDestination := Some(Destination(chosen.value));
        }
      } else if currentState == WaitingForSecondInteraction {
        if assignedRandomDestination.Some? {
          var _ := occupiedDestinations.Remove(assignedRandomDestination.value);
        }
        currentState := ReturningToSpawn;
        currentDestination := Some(SpawnPoint);
      }
    }

    /** Cancels any running countdown, then starts one for a positive timeout. */
    method StartSecondInteractionTimeout()
      modifies this
      ensures View() == StartTimeout(secondInteractionTimeout, old(View()))
      ensures Config() == old(Config()) && isInitialized == old(isInitialized)
    {
      StopSecondInteractionTimeout();
      if secondInteractionTimeout > 0 {
        timeoutRemaining := Some(secondInteractionTimeout);
      }
    }

    method StopSecondInteractionTimeout()
      modifies this
      ensures View() == StopTimeout(old(View()))
      ensures Config() == old(Config()) && isInitialized == old(isInitialized)
    {
      if timeoutRemaining.Some? {
        timeoutRemaining := None;
      }
    }

    /**
     * One resumption of the timeout coroutine after its `WaitForSeconds`. On
     * expiry it calls `AddAnxiety` when a BarManager exists, releases the
     * slot and sends the NPC home.
     */
    method SecondElapsed()
      modifies this, occupiedDestinations, barManager
      ensures var o := SecondStep(old(View()), old(occupiedDestinations.occupied));
        && View() == o.actor && occupiedDestinations.occupied == o.occupied
        && (barManager != null ==>
              barManager.anxiety == if o.penalized
                then AfterAdd(old(barManager.anxiety), anxietyPenaltyOnTimeout, barManager.maxAnxiety)
                else old(barManager.anxiety))
      ensures Config() == old(Config()) && isInitialized == old(isInitialized)
      ensures old(occupiedDestinations.Valid()) ==> occupiedDestinations.Valid()
    {
      ghost var occ0 := occupiedDestinations.occupied;
      if NoDup(occ0) {
        SecondStepKeepsLedgerDuplicateFree(View(), occ0);
      }
      if timeoutRemaining.None? {
        return;
      }
      var remaining := timeoutRemaining.value;
      var wait := if remaining < 1 then remaining else 1;
      remaining := remaining - wait;
      if remaining > 0 {
        timeoutRemaining := Some(remaining);
        return;
      }
      if barManager != null {
        barManager.AddAnxiety(anxietyPenaltyOnTimeout);
      }
      if assignedRandomDestination.Some? && occupiedDestinations.Contains(assignedRandomDestination.value) {
        var _ := occupiedDestinations.Remove(assignedRandomDestination.value);
      }
      assignedRandomDestination := None;
      currentState := ReturningToSpawn;
      currentDestination := Some(SpawnPoint);
      canInteract := false;
      timeoutRemaining := None;
    }

    method Despawn()
      modifies this
      ensures View() == Errand.Despawn(old(View()))
      ensures Config() == old(Config()) && isInitialized == old(isInitialized)
    {
      StopSecondInteractionTimeout();
      currentState := NotSpawned;
      active := false;
    }

    method OnDestroy()
      modifies this, occupiedDestinations
      ensures var o := DestroyStep(old(View()), old(occupiedDestinations.occupied));
        View() == o.actor && occupiedDestinations.occupied == o.occupied
      ensures Config() == old(Config()) && isInitialized == old(isInitialized)
      ensures old(occupiedDestinations.Valid()) ==> occupiedDestinations.Valid()
    {
      ghost var occ0 := occupiedDestinations.occupied;
      if NoDup(occ0) {
        DestroyCleansUp(View(), occ0);
      }
      if assignedRandomDestination.Some? && occupiedDestinations.Contains(assignedRandomDestination.value) {
        var _ := occupiedDestinations.Remove(assignedRandomDestination.value);
      }
      StopSecondInteractionTimeout();
    }

    /**
     * Collects the non-null destinations the ledger does not list, in array
     * order, and picks the `roll`-th modulo their number; none when there is none.
     */
    method GetRandomAvailableDestination(roll: nat) returns (chosen: Option<Slot>)
      ensures chosen == PickFree(randomDestinations, occupiedDestinations.occupied, roll)
      ensures chosen.None? <==> !HasFreeSlot(randomDestinations, occupiedDestinations.occupied)
      ensures chosen.Some? ==> Some(chosen.value) in randomDestinations && !occupiedDestinations.Contains(chosen.value)
    {
      if |randomDestinations| == 0 {
        return None;
      }
      var candidates: seq<Slot> := [];
      var i := 0;
      while i < |randomDestinations|
        invariant 0 <= i <= |randomDestinations|
        invariant candidates == FreeSlots(randomDestinations[..i], occupiedDestinations.occupied)
      {
        var dest := randomDestinations[i];
        if dest.Some? && !occupiedDestinations.Contains(dest.value) {
          candidates := candidates + [dest.value];
        }
        assert randomDestinations[..i + 1][..i] == randomDestinations[..i];
        i := i + 1;
      }
      assert randomDestinations[..i] == randomDestinations;
      if |candidates| == 0 {
        return None;
      }
      chosen := Some(candidates[roll % |candidates|]);
    }
  }
}
