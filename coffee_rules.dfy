/**
 * The rules of the coffee counter as values: what a cup contains, and the
 * player's hands together with the cups whose `isBeingHeld` flag is set.
 * Cups are identified by any equality type `T` (the classes use the cup
 * objects themselves).
 */
module CoffeeRules {
  import opened Wrappers

  datatype IngredientType = Milk | Sugar

  /** `hasMilk` and `hasSugar` of a cup. */
  datatype Contents = Contents(milk: bool, sugar: bool)

  /** What a cup fresh from the machine contains. */
  const Plain := Contents(false, false)

  /** `AddMilk` / `AddSugar`: set the one flag; adding it again only logs. */
  function AddIngredient(c: Contents, kind: IngredientType): (r: Contents)
    ensures kind == Milk ==> r.milk && r.sugar == c.sugar
    ensures kind == Sugar ==> r.sugar && r.milk == c.milk
  {
    match kind
    case Milk => if !c.milk then c.(milk := true) else c
    case Sugar => if !c.sugar then c.(sugar := true) else c
  }

  /** Adding the same ingredient twice is the same as adding it once. */
  lemma AddIngredientIdempotent(c: Contents, kind: IngredientType)
    ensures AddIngredient(AddIngredient(c, kind), kind) == AddIngredient(c, kind)
  {
  }

  /** Milk and sugar can be added in either order. */
  lemma AddIngredientCommutes(c: Contents, k1: IngredientType, k2: IngredientType)
    ensures AddIngredient(AddIngredient(c, k1), k2) == AddIngredient(AddIngredient(c, k2), k1)
  {
  }

  /** Ingredients are never taken out again, and a flag set by nobody stays clear. */
  lemma AddIngredientOnlyAdds(c: Contents, kind: IngredientType)
    ensures var r := AddIngredient(c, kind);
      (c.milk ==> r.milk) && (c.sugar ==> r.sugar)
      && (r.milk <==> c.milk || kind == Milk) && (r.sugar <==> c.sugar || kind == Sugar)
  {
  }

  /** Every plain cup becomes milk-and-sugar coffee once both are added, in any order. */
  lemma BothIngredientsMakeFullCoffee(kinds: seq<IngredientType>)
    requires Milk in kinds && Sugar in kinds
    ensures AddAll(Plain, kinds) == Contents(true, true)
  {
    AddAllSetsExactly(Plain, kinds);
  }

  /** Adds the ingredients one after the other. */
  function AddAll(c: Contents, kinds: seq<IngredientType>): Contents
    decreases |kinds|
  {
    if kinds == [] then c else AddAll(AddIngredient(c, kinds[0]), kinds[1..])
  }

  lemma {:induction false} AddAllSetsExactly(c: Contents, kinds: seq<IngredientType>)
    ensures AddAll(c, kinds).milk <==> c.milk || Milk in kinds
    ensures AddAll(c, kinds).sugar <==> c.sugar || Sugar in kinds
    decreases |kinds|
  {
    if kinds != [] {
      AddAllSetsExactly(AddIngredient(c, kinds[0]), kinds[1..]);
      assert kinds == [kinds[0]] + kinds[1..];
      assert forall k :: k in kinds <==> k == kinds[0] || k in kinds[1..];
    }
  }

  /**
   * The player's `CoffeeHolder` (whether its hold point is assigned, and
   * `currentCoffee`), the live cups whose `isBeingHeld` flag is set, and the
   * cups thrown away.
   */
  datatype Hands<T> = Hands(holdPoint: bool, holding: Option<T>, held: set<T>, destroyed: set<T>)

  /**
   * `CoffeeCup.TryPickup`: nothing when the hands are full; otherwise
   * `PickupCoffee` takes the cup only if there is a hold point, but the cup
   * marks itself held either way.
   */
  function Pickup<T>(h: Hands<T>, cup: T): (r: Hands<T>)
    ensures h.holding.Some? ==> r == h
    ensures h.holding.None? ==> cup in r.held && (r.holding.Some? <==> h.holdPoint)
  {
    if h.holding.Some? then h
    else if h.holdPoint then h.(holding := Some(cup), held := h.held + {cup})
    else h.(held := h.held + {cup})
  }

  /**
   * A cup's `Update` with E pressed in reach: a cup already marked held does
   * nothing, any other tries to be picked up.
   */
  function CupPressed<T>(h: Hands<T>, cup: T): Hands<T> {
    if cup in h.held || cup in h.destroyed then h else Pickup(h, cup)
  }

  /** `CoffeeHolder.DropCoffee`: the held cup is let go and no longer marked held. */
  function Drop<T>(h: Hands<T>): (r: Hands<T>)
    ensures r.holding.None? && r.holdPoint == h.holdPoint
  {
    match h.holding
    case None => h
    case Some(cup) => h.(holding := None, held := h.held - {cup})
  }

  /** `CoffeeHolder.DestroyCoffee` (the trash bin): the held cup is destroyed. */
  function Trash<T>(h: Hands<T>): (r: Hands<T>)
    ensures r.holding.None? && r.holdPoint == h.holdPoint
  {
    match h.holding
    case None => h
    case Some(cup) => h.(holding := None, held := h.held - {cup}, destroyed := h.destroyed + {cup})
  }

  /** The cup in hand is marked held. */
  ghost predicate Consistent<T>(h: Hands<T>) {
    h.holding.Some? ==> h.holding.value in h.held
  }

  /** Exactly the cup in hand is marked held. */
  ghost predicate Exact<T>(h: Hands<T>) {
    h.held == if h.holding.Some? then {h.holding.value} else {}
  }

  lemma HandsStayConsistent<T>(h: Hands<T>, cup: T)
    requires Consistent(h)
    ensures Consistent(Pickup(h, cup)) && Consistent(CupPressed(h, cup))
    ensures Consistent(Drop(h)) && Consistent(Trash(h))
  {
  }

  /**
   * Picking up keeps "exactly the cup in hand is marked held" precisely when
   * the holder has a hold point or the hands were already full.
   */
  lemma PickupKeepsExactIff<T>(h: Hands<T>, cup: T)
    requires Exact(h) && cup !in h.held
    ensures Exact(Pickup(h, cup)) <==> h.holdPoint || h.holding.Some?
  {
    if h.holding.None? && !h.holdPoint {
      assert cup in Pickup(h, cup).held;
    }
  }

  lemma DropAndTrashKeepExact<T>(h: Hands<T>)
    requires Exact(h)
    ensures Exact(Drop(h)) && Exact(Trash(h))
  {
  }

  /**
   * Dropping leaves the cup in the world, free to be picked up again;
   * throwing it away destroys it, and pressing E at it does nothing more.
   */
  lemma DropFreesTrashDestroys<T>(h: Hands<T>)
    requires Exact(h) && h.holding.Some? && h.holding.value !in h.destroyed
    ensures var cup := h.holding.value;
      && cup !in Drop(h).held && cup !in Drop(h).destroyed
      && Trash(h).destroyed == h.destroyed + {cup}
      && CupPressed(Trash(h), cup) == Trash(h)
  {
  }

  /**
   * Without a hold point, pressing E at a cup leaves the hands empty but the
   * cup marked held, and from then on pressing E at it does nothing.
   */
  lemma CupStrandedWithoutHoldPoint<T>(h: Hands<T>, cup: T)
    requires !h.holdPoint && h.holding.None? && cup !in h.held && cup !in h.destroyed
    ensures var r := CupPressed(h, cup);
      r.holding.None? && cup in r.held && CupPressed(r, cup) == r
  {
  }

  /** Dropping the cup in hand and picking it up again restores the hands. */
  lemma DropThenPickup<T>(h: Hands<T>)
    requires Exact(h) && h.holdPoint && h.holding.Some? && h.holding.value !in h.destroyed
    ensures CupPressed(Drop(h), h.holding.value) == h
  {
    var cup := h.holding.value;
    assert h.held - {cup} + {cup} == h.held;
  }

  /** Picking up a cup with empty hands and dropping it again restores the hands. */
  lemma PickupThenDrop<T>(h: Hands<T>, cup: T)
    requires h.holdPoint && h.holding.None? && cup !in h.held && cup !in h.destroyed
    ensures Drop(CupPressed(h, cup)) == h
  {
    assert h.held + {cup} - {cup} == h.held;
  }
}
