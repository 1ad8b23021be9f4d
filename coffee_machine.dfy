/**
 * `CoffeeMachine`: E within reach starts the brewing coroutine unless the
 * player already holds a cup; the coroutine shakes the machine for
 * `brewTime` and then spawns a plain cup at the spawn point.
 */
module Machine {
  import opened Wrappers
  import opened CoffeeRules
  import opened CoffeeCounter
  import opened Brewing

  class CoffeeMachine {
    /** Whether `coffeeCupPrefab` and `cupSpawnPoint` are assigned. */
    var hasCupPrefab: bool
    var hasCupSpawnPoint: bool
    /** `brewTime`, in the unit of the frames' delta times. */
    const brewTime: nat
    /** Whether `player` is set, and the `coffeeHolder` reference. */
    var hasPlayer: bool
    var coffeeHolder: CoffeeHolder?

    var isBrewing: bool
    /** The coroutine's `elapsed`, meaningful while it runs. */
    var elapsed: nat
    /** `transform.position == originalPosition`: false while the shake offsets the machine. */
    var atOriginalPosition: bool

    constructor (hasCupPrefab: bool, hasCupSpawnPoint: bool, brewTime: nat, hasPlayer: bool, coffeeHolder: CoffeeHolder?)
      ensures this.hasCupPrefab == hasCupPrefab && this.hasCupSpawnPoint == hasCupSpawnPoint
      ensures this.brewTime == brewTime && this.hasPlayer == hasPlayer && this.coffeeHolder == coffeeHolder
      ensures !isBrewing && atOriginalPosition
    {
      this.hasCupPrefab := hasCupPrefab;
      this.hasCupSpawnPoint := hasCupSpawnPoint;
      this.brewTime := brewTime;
      this.hasPlayer := hasPlayer;
      this.coffeeHolder := coffeeHolder;
      isBrewing := false;
      elapsed := 0;
      atOriginalPosition := true;
    }

    /** E pressed within reach of an idle, fully wired machine while the hands are empty. */
    predicate WillBrew(pressed: bool)
      reads this, coffeeHolder
    {
      !isBrewing && hasPlayer && coffeeHolder != null && pressed && coffeeHolder.currentCoffee == null
    }

    /**
     * One frame lasting `dt`. When the machine starts brewing, the coroutine
     * runs to its first yield within this frame (which may already finish a
     * brew of length zero and spawn the cup).
     */
    method Update(pressed: bool, dt: nat) returns (cup: CoffeeCup?)
      modifies this
      ensures !old(WillBrew(pressed)) ==> unchanged(this) && cup == null
      ensures old(WillBrew(pressed)) ==> Shook(0, dt, cup)
    {
      cup := null;
      if isBrewing {
        return;
      }
      if !hasPlayer || coffeeHolder == null {
        return;
      }
      if pressed {
        var holding := coffeeHolder.IsHoldingCoffee();
        if !holding {
          cup := BrewCoffee(dt);
        }
      }
    }

    /**
     * After one pass of the shake loop from `before` with delta time `dt`:
     * either still brewing with the new elapsed time and the machine shaken
     * off its position, or finished, back in place, with a new plain cup
     * exactly when prefab and spawn point are assigned.
     */
    twostate predicate Shook(before: nat, dt: nat, new cup: CoffeeCup?)
      reads this, cup
    {
      && hasCupPrefab == old(hasCupPrefab) && hasCupSpawnPoint == old(hasCupSpawnPoint)
      && hasPlayer == old(hasPlayer) && coffeeHolder == old(coffeeHolder)
      && match ShakeStep(brewTime, before, dt)
         case Some(next) => isBrewing && elapsed == next && !atOriginalPosition && cup == null
         case None =>
           && !isBrewing
           && atOriginalPosition
           && (cup != null <==> hasCupPrefab && hasCupSpawnPoint)
           && (cup != null ==> fresh(cup) && cup.View() == Plain && !cup.isBeingHeld && !cup.destroyed)
    }

    /** Starts the coroutine: brewing, nothing counted yet, then the first pass of the loop. */
    method BrewCoffee(dt: nat) returns (cup: CoffeeCup?)
      modifies this
      ensures Shook(0, dt, cup)
    {
      isBrewing := true;
      elapsed := 0;
      cup := ContinueBrew(dt);
    }

    /** One resumption of the running coroutine in a frame lasting `dt`; nothing without one. */
    method ContinueBrew(dt: nat) returns (cup: CoffeeCup?)
      modifies this
      ensures !old(isBrewing) ==> unchanged(this) && cup == null
      ensures old(isBrewing) ==> Shook(old(elapsed), dt, cup)
    {
      cup := null;
      if !isBrewing {
        return;
      }
      if elapsed < brewTime {
        elapsed := elapsed + dt;
        atOriginalPosition := false;
        return;
      }
      atOriginalPosition := true;
      if hasCupPrefab && hasCupSpawnPoint {
        // A prefab cannot reference scene objects; the cup finds them itself.
        cup := new CoffeeCup(false, null);
      }
      isBrewing := false;
    }
  }
}
