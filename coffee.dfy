/**
 * `CoffeeCup` and `CoffeeHolder`, which refer to each other. The holder's
 * methods and a cup's pickup are proved against `CoffeeRules`: seen through
 * `View(cups)` for any set of cups in the scene, each call does exactly
 * what the value-level rule does.
 */
module CoffeeCounter {
  import opened Wrappers
  import opened CoffeeRules

  class CoffeeCup {
    /** Whether `player` is set, and the `coffeeHolder` reference. */
    var hasPlayer: bool
    var coffeeHolder: CoffeeHolder?
    var hasMilk: bool
    var hasSugar: bool
    var isBeingHeld: bool
    /** `Destroy(gameObject)` has been called on the cup. */
    var destroyed: bool

    /** A cup instantiated with the given references: plain, not held. */
    constructor (hasPlayer: bool, coffeeHolder: CoffeeHolder?)
      ensures this.hasPlayer == hasPlayer && this.coffeeHolder == coffeeHolder
      ensures View() == Plain && !isBeingHeld && !destroyed
    {
      this.hasPlayer := hasPlayer;
      this.coffeeHolder := coffeeHolder;
      hasMilk := false;
      hasSugar := false;
      isBeingHeld := false;
      destroyed := false;
    }

    function View(): Contents
      reads this
    {
      Contents(hasMilk, hasSugar)
    }

    /**
     * One frame of a live cup. A held cup does nothing; otherwise it fills
     * in a missing player (`playerFound`: an object tagged Player exists) and
     * a missing holder (`sceneHolder`: what `FindObjectOfType` returns), and
     * with both set and E `pressed` within reach it tries to be picked up.
     */
    method Update(playerFound: bool, sceneHolder: CoffeeHolder?, pressed: bool, ghost cups: set<CoffeeCup>)
      requires !destroyed && this in cups
      modifies this, coffeeHolder, sceneHolder
      ensures old(isBeingHeld) ==> unchanged(this)
      ensures !old(isBeingHeld) ==>
        && hasPlayer == (old(hasPlayer) || playerFound)
        && coffeeHolder == (if old(coffeeHolder) != null then old(coffeeHolder) else sceneHolder)
      ensures var holder := coffeeHolder;
        !old(isBeingHeld) && hasPlayer && holder != null && pressed ==>
          holder.View(cups) == CupPressed(old(holder.View(cups)), this)
      ensures var holder := coffeeHolder;
        !(!old(isBeingHeld) && hasPlayer && holder != null && pressed) ==>
          isBeingHeld == old(isBeingHeld) && (holder != null ==> unchanged(holder))
      ensures View() == old(View()) && !destroyed
    {
      if isBeingHeld {
        return;
      }
      if !hasPlayer && playerFound {
        hasPlayer := true;
      }
      if coffeeHolder == null {
        coffeeHolder := sceneHolder;
      }
      if !hasPlayer || coffeeHolder == null {
        return;
      }
      if pressed {
        TryPickup(cups);
      }
    }

    method TryPickup(ghost cups: set<CoffeeCup>)
      requires coffeeHolder != null && !destroyed && !isBeingHeld && this in cups
      modifies this, coffeeHolder
      ensures coffeeHolder == old(coffeeHolder) && hasPlayer == old(hasPlayer)
      ensures coffeeHolder.View(cups) == Pickup(old(coffeeHolder.View(cups)), this)
      ensures isBeingHeld == (old(coffeeHolder.currentCoffee) == null)
      ensures View() == old(View()) && !destroyed
    {
      var full := coffeeHolder.IsHoldingCoffee();
      if full {
        return;
      }
      coffeeHolder.PickupCoffee(this);
      isBeingHeld := true;
      assert coffeeHolder.HeldCups(cups) == old(coffeeHolder.HeldCups(cups)) + {this};
    }

    method AddMilk()
      modifies this
      ensures View() == AddIngredient(old(View()), Milk)
      ensures isBeingHeld == old(isBeingHeld) && destroyed == old(destroyed)
      ensures hasPlayer == old(hasPlayer) && coffeeHolder == old(coffeeHolder)
    {
      if !hasMilk {
        hasMilk := true;
      }
    }

    method AddSugar()
      modifies this
      ensures View() == AddIngredient(old(View()), Sugar)
      ensures isBeingHeld == old(isBeingHeld) && destroyed == old(destroyed)
      ensures hasPlayer == old(hasPlayer) && coffeeHolder == old(coffeeHolder)
    {
      if !hasSugar {
        hasSugar := true;
      }
    }

    method Drop()
      modifies this
      ensures !isBeingHeld
      ensures View() == old(View()) && destroyed == old(destroyed)
      ensures hasPlayer == old(hasPlayer) && coffeeHolder == old(coffeeHolder)
    {
      isBeingHeld := false;
    }
  }

  class CoffeeHolder {
    /** Whether `coffeeHoldPoint` is assigned. */
    var hasHoldPoint: bool
    var currentCoffee: CoffeeCup?

    constructor (hasHoldPoint: bool)
      ensures this.hasHoldPoint == hasHoldPoint && currentCoffee == null
    {
      this.hasHoldPoint := hasHoldPoint;
      currentCoffee := null;
    }

    /** The live cups among `cups` that are marked held. */
    ghost function HeldCups(cups: set<CoffeeCup>): set<CoffeeCup>
      reads cups
    {
      set c | c in cups && c.isBeingHeld && !c.destroyed
    }

    ghost function DestroyedCups(cups: set<CoffeeCup>): set<CoffeeCup>
      reads cups
    {
      set c | c in cups && c.destroyed
    }

    /** The holder and the cups of the scene, as `CoffeeRules` sees them. */
    ghost function View(cups: set<CoffeeCup>): Hands<CoffeeCup>
      reads this, cups
    {
      Hands(hasHoldPoint, if currentCoffee == null then None else Some(currentCoffee as CoffeeCup),
            HeldCups(cups), DestroyedCups(cups))
    }

    method IsHoldingCoffee() returns (holding: bool)
      ensures holding <==> currentCoffee != null
    {
      holding := currentCoffee != null;
    }

    method GetCurrentCoffee() returns (coffee: CoffeeCup?)
      ensures coffee == currentCoffee
    {
      coffee := currentCoffee;
    }

    /** Takes the cup unless already holding one or there is no hold point. */
    method PickupCoffee(coffee: CoffeeCup)
      modifies this
      ensures currentCoffee == if old(currentCoffee) == null && hasHoldPoint then coffee else old(currentCoffee)
      ensures hasHoldPoint == old(hasHoldPoint)
    {
      if currentCoffee != null {
        return;
      }
      if !hasHoldPoint {
        return;
      }
      currentCoffee := coffee;
    }

    method DropCoffee(ghost cups: set<CoffeeCup>)
      requires currentCoffee != null ==> currentCoffee in cups
      modifies this, currentCoffee
      ensures View(cups) == Drop(old(View(cups)))
      ensures old(currentCoffee) != null ==> old(currentCoffee).View() == old(currentCoffee.View())
    {
      if currentCoffee == null {
        return;
      }
      var cup := currentCoffee;
      cup.Drop();
      currentCoffee := null;
      assert HeldCups(cups) == old(HeldCups(cups)) - {cup};
    }

    method DestroyCoffee(ghost cups: set<CoffeeCup>)
      requires currentCoffee != null ==> currentCoffee in cups
      modifies this, currentCoffee
      ensures View(cups) == Trash(old(View(cups)))
    {
      if currentCoffee == null {
        return;
      }
      var cup := currentCoffee;
      cup.destroyed := true;
      currentCoffee := null;
      assert HeldCups(cups) == old(HeldCups(cups)) - {cup};
      assert DestroyedCups(cups) == old(DestroyedCups(cups)) + {cup};
    }
  }
}
