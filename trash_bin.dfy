/** `TrashBin`: throws away the cup in the player's hands. */
module Disposal {
  import opened CoffeeRules
  import opened CoffeeCounter

  class TrashBin {
    /** Whether `player` is set, and the `coffeeHolder` reference. */
    var hasPlayer: bool
    var coffeeHolder: CoffeeHolder?

    constructor (hasPlayer: bool, coffeeHolder: CoffeeHolder?)
      ensures this.hasPlayer == hasPlayer && this.coffeeHolder == coffeeHolder
    {
      this.hasPlayer := hasPlayer;
      this.coffeeHolder := coffeeHolder;
    }

    /**
     * One frame: with both references set and E `pressed` within reach, the
     * held cup (if any) is destroyed and the hands are empty.
     */
    method Update(pressed: bool, ghost cups: set<CoffeeCup>)
      requires coffeeHolder != null && coffeeHolder.currentCoffee != null ==> coffeeHolder.currentCoffee in cups
      modifies coffeeHolder, if coffeeHolder != null then {coffeeHolder.currentCoffee} else {}
      ensures hasPlayer && coffeeHolder != null && pressed ==>
        coffeeHolder.View(cups) == Trash(old(coffeeHolder.View(cups)))
      ensures !(hasPlayer && coffeeHolder != null && pressed) && coffeeHolder != null ==>
        unchanged(coffeeHolder) && (coffeeHolder.currentCoffee != null ==> unchanged(coffeeHolder.currentCoffee))
    {
      if !hasPlayer || coffeeHolder == null {
        return;
      }
      if pressed {
        TryThrowAway(cups);
      }
    }

    method TryThrowAway(ghost cups: set<CoffeeCup>)
      requires coffeeHolder != null
      requires coffeeHolder.currentCoffee != null ==> coffeeHolder.currentCoffee in cups
      modifies coffeeHolder, coffeeHolder.currentCoffee
      ensures coffeeHolder.View(cups) == Trash(old(coffeeHolder.View(cups)))
    {
      var holding := coffeeHolder.IsHoldingCoffee();
      if !holding {
        return;
      }
      coffeeHolder.DestroyCoffee(cups);
    }
  }
}
