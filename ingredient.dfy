/** `Ingredient`: a milk or sugar station that adds to the cup in the player's hands. */
module IngredientStation {
  import opened CoffeeRules
  import opened CoffeeCounter

  class Ingredient {
    const ingredientType: IngredientType
    /** Whether `player` is set, and the `coffeeHolder` reference. */
    var hasPlayer: bool
    var coffeeHolder: CoffeeHolder?

    constructor (ingredientType: IngredientType, hasPlayer: bool, coffeeHolder: CoffeeHolder?)
      ensures this.ingredientType == ingredientType
      ensures this.hasPlayer == hasPlayer && this.coffeeHolder == coffeeHolder
    {
      this.ingredientType := ingredientType;
      this.hasPlayer := hasPlayer;
      this.coffeeHolder := coffeeHolder;
    }

    /** The cup in the player's hands, if the station knows the holder. */
    function HeldCup(): CoffeeCup?
      reads this, coffeeHolder
    {
      if coffeeHolder != null then coffeeHolder.currentCoffee else null
    }

    /**
     * One frame: with both references set and E `pressed` within reach, the
     * station's ingredient goes into the held cup; nothing else changes.
     */
    method Update(pressed: bool)
      modifies HeldCup()
      ensures var cup := HeldCup();
        hasPlayer && coffeeHolder != null && pressed && cup != null ==>
          && cup.View() == AddIngredient(old(cup.View()), ingredientType)
          && cup.isBeingHeld == old(cup.isBeingHeld) && cup.destroyed == old(cup.destroyed)
      ensures var cup := HeldCup();
        !(hasPlayer && coffeeHolder != null && pressed) && cup != null ==> unchanged(cup)
    {
      if !hasPlayer || coffeeHolder == null {
        return;
      }
      if pressed {
        TryAddIngredient();
      }
    }

    method TryAddIngredient()
      requires coffeeHolder != null
      modifies HeldCup()
      ensures var cup := HeldCup();
        cup != null ==>
          && cup.View() == AddIngredient(old(cup.View()), ingredientType)
          && cup.isBeingHeld == old(cup.isBeingHeld) && cup.destroyed == old(cup.destroyed)
    {
      var holding := coffeeHolder.IsHoldingCoffee();
      if !holding {
        return;
      }
      var cup := coffeeHolder.GetCurrentCoffee();
      if cup == null {
        return;
      }
      match ingredientType {
        case Milk => cup.AddMilk();
        case Sugar => cup.AddSugar();
      }
    }
  }
}
