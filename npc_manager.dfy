/**
 * `NPCManager`: keeps a reference to at most one spawned NPC, instantiates
 * and initializes a new one on request, and destroys it on `DespawnNPC`.
 */
module NpcManagement {
  import opened Wrappers
  import opened Destinations
  import opened Anxiety
  import opened Errand
  import opened NpcActor

  class NpcManager {
    /** Whether `npcPrefab` is assigned, and whether it carries an `NPC` component. */
    var hasPrefab: bool
    var prefabHasNpc: bool
    var hasSpawnPoint: bool
    var hasWaitingPoint: bool
    var randomDestinations: seq<Option<Slot>>
    var hasPlayer: bool
    /** The prefab's own `secondInteractionTimeout` and `anxietyPenaltyOnTimeout`. */
    const prefabTimeout: nat
    const prefabPenalty: Int32
    const occupiedDestinations: DestinationPool
    const barManager: BarManager?

    var spawnedNPC: Npc?

    /** There is one static ledger, so the tracked NPC uses the manager's. */
    ghost predicate Valid()
      reads this, spawnedNPC
    {
      spawnedNPC != null ==> spawnedNPC.occupiedDestinations == occupiedDestinations
    }

    constructor (hasPrefab: bool, prefabHasNpc: bool, hasSpawnPoint: bool, hasWaitingPoint: bool,
                 randomDestinations: seq<Option<Slot>>, hasPlayer: bool, prefabTimeout: nat, prefabPenalty: Int32,
                 occupiedDestinations: DestinationPool, barManager: BarManager?)
      ensures this.hasPrefab == hasPrefab && this.prefabHasNpc == prefabHasNpc
      ensures this.hasSpawnPoint == hasSpawnPoint && this.hasWaitingPoint == hasWaitingPoint
      ensures this.randomDestinations == randomDestinations && this.hasPlayer == hasPlayer
      ensures this.prefabTimeout == prefabTimeout && this.prefabPenalty == prefabPenalty
      ensures this.occupiedDestinations == occupiedDestinations && this.barManager == barManager
      ensures spawnedNPC == null && Valid()
    {
      this.hasPrefab := hasPrefab;
      this.prefabHasNpc := prefabHasNpc;
      this.hasSpawnPoint := hasSpawnPoint;
      this.hasWaitingPoint := hasWaitingPoint;
      this.randomDestinations := randomDestinations;
      this.hasPlayer := hasPlayer;
      this.prefabTimeout := prefabTimeout;
      this.prefabPenalty := prefabPenalty;
      this.occupiedDestinations := occupiedDestinations;
      this.barManager := barManager;
      spawnedNPC := null;
    }

    /** Some reference is missing, so `SpawnNPC` only logs an error. */
    predicate Misconfigured()
      reads this
    {
      !hasPrefab || !hasSpawnPoint || !hasWaitingPoint || |randomDestinations| == 0
    }

    /** The tracked NPC's GameObject is still active. */
    predicate HasActiveNpc()
      reads this, spawnedNPC
    {
      spawnedNPC != null && spawnedNPC.active
    }

    /**
     * Spawns an NPC unless a reference is missing or the tracked one is still
     * active. The new NPC is initialized with the manager's references and is
     * walking to the waiting point; a prefab without an `NPC` component is
     * destroyed again, which leaves no NPC.
     */
    method SpawnNPC()
      requires Valid()
      modifies this
      ensures Valid()
      ensures Misconfigured() || old(HasActiveNpc()) ==> spawnedNPC == old(spawnedNPC)
      ensures !Misconfigured() && !old(HasActiveNpc()) && !prefabHasNpc ==> spawnedNPC == null
      ensures !Misconfigured() && !old(HasActiveNpc()) && prefabHasNpc ==>
        && spawnedNPC != null && fresh(spawnedNPC)
        && spawnedNPC.View() == StartBehavior(Instantiated())
        && spawnedNPC.Config() == Settings(hasSpawnPoint, hasWaitingPoint, randomDestinations, hasPlayer, prefabTimeout)
        && spawnedNPC.isInitialized && spawnedNPC.enabled
        && spawnedNPC.occupiedDestinations == occupiedDestinations
        && spawnedNPC.barManager == barManager
      ensures hasPrefab == old(hasPrefab) && prefabHasNpc == old(prefabHasNpc)
      ensures hasSpawnPoint == old(hasSpawnPoint) && hasWaitingPoint == old(hasWaitingPoint)
      ensures randomDestinations == old(randomDestinations) && hasPlayer == old(hasPlayer)
    {
      if !hasPrefab {
        return;
      }
      if !hasSpawnPoint || !hasWaitingPoint || |randomDestinations| == 0 {
        return;
      }
      if spawnedNPC != null && spawnedNPC.active {
        return;
      }
      if spawnedNPC != null && !spawnedNPC.active {
        spawnedNPC := null;
      }
      if prefabHasNpc {
        // A prefab cannot reference scene objects, so its own references start unset.
        var npc := new Npc(false, false, [], false, prefabTimeout, prefabPenalty, occupiedDestinations, barManager);
        npc.Initialize(hasSpawnPoint, hasWaitingPoint, randomDestinations, hasPlayer);
        spawnedNPC := npc;
      } else {
        spawnedNPC := null;
      }
    }

    /** Destroys the tracked NPC, which runs its `OnDestroy`, and forgets it. */
    method DespawnNPC()
      requires Valid()
      modifies this, spawnedNPC, occupiedDestinations
      ensures spawnedNPC == null && Valid()
      ensures old(spawnedNPC) == null ==> occupiedDestinations.occupied == old(occupiedDestinations.occupied)
      ensures old(spawnedNPC) != null ==>
        var o := DestroyStep(old(spawnedNPC.View()), old(occupiedDestinations.occupied));
        old(spawnedNPC).View() == o.actor && occupiedDestinations.occupied == o.occupied
    {
      if spawnedNPC != null {
        spawnedNPC.OnDestroy();
        spawnedNPC := null;
      }
    }

    /**
     * One frame: T spawns, then a reference to a deactivated NPC is dropped.
     * Afterwards the manager tracks an active NPC or none.
     */
    method Update(tKey: bool)
      requires Valid()
      modifies this
      ensures Valid()
      ensures spawnedNPC == null || spawnedNPC.active
      ensures old(HasActiveNpc()) ==> spawnedNPC == old(spawnedNPC)
      ensures !tKey && !old(HasActiveNpc()) ==> spawnedNPC == null
      ensures tKey && (Misconfigured() || !prefabHasNpc) && !old(HasActiveNpc()) ==> spawnedNPC == null
      ensures tKey && !Misconfigured() && !old(HasActiveNpc()) && prefabHasNpc ==>
        spawnedNPC != null && fresh(spawnedNPC) && spawnedNPC.View() == StartBehavior(Instantiated())
      ensures hasPrefab == old(hasPrefab) && prefabHasNpc == old(prefabHasNpc)
      ensures hasSpawnPoint == old(hasSpawnPoint) && hasWaitingPoint == old(hasWaitingPoint)
      ensures randomDestinations == old(randomDestinations) && hasPlayer == old(hasPlayer)
    {
      if tKey {
        SpawnNPC();
      }
      if spawnedNPC != null && !spawnedNPC.active {
        spawnedNPC := null;
      }
    }
  }
}
