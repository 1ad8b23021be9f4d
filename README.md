# Café errands and coffee counter, in Dafny

This project models the gameplay core of a small Unity café game. Customer
NPCs walk an errand:

1. They spawn and walk to a waiting point.
2. They wait for a first interaction (E pressed within reach).
3. They walk to a free destination slot.
4. They wait there for a second interaction, against a countdown that raises
   the bar's anxiety score if it runs out.
5. They walk back to spawn and despawn.

The destination slots are shared: every NPC records its claim in one static
ledger (`NPC.occupiedDestinations`). Around the errand sit the coffee counter
(a cup, the player's hands, milk and sugar stations, a trash bin and a
brewing machine) and the UI manager's objective list and dialogue box.

Layout:

- **Value-level model (pure modules).** The rules are stated as values and
  functions, and the properties are proved about them:
  - `Lists`: the parts of .NET `List<T>` the game relies on;
  - `Destinations`: free-slot choice;
  - `Anxiety`: C# `int` and `Mathf.Clamp`;
  - `Errand`: one NPC step by step;
  - `ErrandTraces`: runs of one NPC;
  - `ErrandWorld`: many NPCs sharing the ledger;
  - `CoffeeRules`: cup contents and the player's hands;
  - `Brewing`: the shake loop;
  - `Objectives`, `ObjectiveBoard` and `Dialogue`: the UI.
- **Imperative model (classes).** Each MonoBehaviour becomes a class with the
  same fields, updated in place:
  - `Destinations.DestinationPool`;
  - `Anxiety.BarManager`;
  - `NpcActor.Npc`;
  - `NpcManagement.NpcManager`;
  - `CoffeeCounter.CoffeeCup` and `CoffeeCounter.CoffeeHolder`;
  - `IngredientStation.Ingredient`;
  - `Disposal.TrashBin`;
  - `Machine.CoffeeMachine`;
  - `UserInterface.UIManager`.

  Each method's `ensures` ties the object's new state to the value-level
  function of its old state (`View() == UpdateStep(old(View()), ...)`). The
  lemmas about those functions therefore hold of the classes too.

Things the engine provides become inputs:

- **Per-frame facts.** A key press, "the player is within reach" and "the NPC
  has reached its target" are parameters of each frame.
- **`Random.Range`.** It becomes a draw `roll` supplied by the caller.
- **Coroutines.** Each coroutine becomes a state value. One method or
  function call is one resumption after a wait:
  - the NPC's timeout becomes `countdown`;
  - the dialogue typewriter becomes `Dialogue.Run`;
  - the objective fade-out becomes `pendingFadeOuts`;
  - the brewing loop becomes `isBrewing` and `elapsed`.
- **Scene references** (spawn point, player, prefab, panels) become booleans
  saying whether each is assigned.

Two behaviours of the code that the model keeps as written:

- **No coffee check on the second interaction.** The second interaction does
  not look at the held coffee: `Assets/Scripts/NPC.cs:223-235` sends the
  customer home on any E press. `Errand.Interact` does the same.
- **The slot stays named after the second interaction.** It leaves
  `assignedRandomDestination` set (`Assets/Scripts/NPC.cs:223-235`, compare
  `:287-288`). If another NPC then claims that slot, destroying the first NPC
  (`Assets/Scripts/NPC.cs:320-330`) takes the other NPC's slot off the ledger.
  `ErrandWorld.DestroyAccounting` characterises exactly when the ledger stays
  exact, and `ErrandWorld.StaleClaimIsReachable` shows the bad case happening
  with two customers.

## Model

| member | source | states |
|---|---|---|
| Lists.IndexOf | Assets/Scripts/NPC.cs:228 | the position `List.Remove` cuts at: the first occurrence of the element, with no earlier occurrence |
| Lists.RemoveFirst | Assets/Scripts/NPC.cs:228 | `List.Remove` drops exactly the first occurrence and keeps the order of the rest; an absent element changes nothing |
| Lists.RemoveFirstMultiset | Assets/Scripts/NPC.cs:228 | removing takes exactly one copy of the element out of the multiset, if there is one |
| Lists.AppendFreshNoDup | Assets/Scripts/NPC.cs:212 | `Add` of an unlisted slot keeps the ledger duplicate-free |
| Lists.RemoveFirstNoDup | Assets/Scripts/NPC.cs:228 | on a duplicate-free ledger, `Remove(x)` leaves exactly the other slots, x is gone and there are still no duplicates |
| Lists.NoDupCount | Assets/Scripts/NPC.cs:27 | in a duplicate-free ledger every slot occurs at most once |
| Destinations.FreeSlots | Assets/Scripts/NPC.cs:337-345 | the candidates are exactly the non-null destinations the ledger does not list, and there are no more of them than destinations |
| Destinations.PickFree | Assets/Scripts/NPC.cs:333-350 | no destination is chosen exactly when no assigned destination is free; a chosen one is assigned and not occupied |
| Destinations.EveryFreeSlotCanBePicked | Assets/Scripts/NPC.cs:349 | every free destination is the outcome of some draw |
| Destinations.DestinationPool.constructor | Assets/Scripts/NPC.cs:27 | the static ledger starts empty |
| Destinations.DestinationPool.Add | Assets/Scripts/NPC.cs:212 | the slot is appended to the ledger |
| Destinations.DestinationPool.Remove | Assets/Scripts/NPC.cs:228 | reports whether the slot was listed, and removes its first occurrence |
| Anxiety.Wrap32 | Assets/Scripts/BarManager.cs:47 | `anxiety += amount` wraps at 32 bits: an in-range sum is unchanged, any sum is congruent to its wrapped value modulo 2^32 |
| Anxiety.Clamp | Assets/Scripts/BarManager.cs:49 | `Mathf.Clamp` lands in [min, max] when min <= max, leaves in-range values alone, and otherwise returns the bound that was crossed; the lower bound is tested first, so a value below `min` gives `min` even when max < min |
| Anxiety.AddStaysInBounds | Assets/Scripts/BarManager.cs:44-60 | after any AddAnxiety the score lies in [0, maxAnxiety] |
| Anxiety.AddIsClampedSum | Assets/Scripts/BarManager.cs:44-60 | without overflow AddAnxiety yields 0, maxAnxiety or the exact sum, as the sum is below, above or inside the range |
| Anxiety.SubtractNeverBelowZero | Assets/Scripts/BarManager.cs:43-49 | a negative amount lowers an in-range score but never below zero |
| Anxiety.LargeAmountWrapsToZero | Assets/Scripts/BarManager.cs:47-49 | adding int.MaxValue to 1 wraps negative and is clamped to 0, not to the maximum |
| Anxiety.BarManager.constructor | Assets/Scripts/BarManager.cs:10-14 | the serialized score and maximum |
| Anxiety.BarManager.AddAnxiety | Assets/Scripts/BarManager.cs:44-60 | the new score is the wrapped sum clamped into [0, maxAnxiety], and lies in that range |
| Anxiety.BarManager.GetAnxiety | Assets/Scripts/BarManager.cs:62-65 | returns the score |
| Anxiety.BarManager.Update | Assets/Scripts/BarManager.cs:35-41 | K adds 5 through AddAnxiety; otherwise the score is unchanged |
| Errand.SpawnStartsErrand | Assets/Scripts/NPC.cs:78-83 | both StartNPCBehavior and the T-key SpawnNPC head for the waiting point; the T key also activates the NPC |
| Errand.UpdateNeverPenalizes | Assets/Scripts/NPC.cs:85-144 | no Update frame calls AddAnxiety |
| Errand.WaitingPointReachedOnlyOnArrival | Assets/Scripts/NPC.cs:99-107 | the walk to the waiting point ends exactly on arrival (with a waiting point), arming the first interaction and changing nothing else |
| Errand.DestinationReachedOnlyOnArrival | Assets/Scripts/NPC.cs:113-125 | the walk to the slot ends exactly on arrival, arming the second interaction and starting the countdown exactly when the timeout is positive |
| Errand.StartTimeoutRestarts | Assets/Scripts/NPC.cs:238-246 | starting the countdown cancels any running one first and starts only for a positive timeout |
| Errand.FirstInteractionClaimsSlot | Assets/Scripts/NPC.cs:197-222 | with a free slot, the first interaction appends one free slot to the ledger (still duplicate-free), assigns it, heads for it and clears canInteract |
| Errand.FirstInteractionWithoutFreeSlot | Assets/Scripts/NPC.cs:218-221 | with every slot taken, the state and ledger stay as they were but canInteract is cleared |
| Errand.SecondInteractionReleases | Assets/Scripts/NPC.cs:223-235 | the second interaction cancels the countdown, takes exactly the assigned slot off the ledger, sends the NPC home and leaves the slot assigned |
| Errand.ReturnEndsNotSpawned | Assets/Scripts/NPC.cs:131-138 | arriving at spawn ends in NotSpawned and inactive with no countdown, because Despawn overwrites Despawned; otherwise nothing changes |
| Errand.CountdownTicks | Assets/Scripts/NPC.cs:259-266 | each resumption takes one second off; the last one expires the countdown |
| Errand.ExpiryReleasesSlot | Assets/Scripts/NPC.cs:268-296 | expiry penalizes once, takes exactly the slot off the ledger, forgets it and sends the NPC home unable to interact |
| Errand.NoCountdownNoPenalty | Assets/Scripts/NPC.cs:248-255 | with the coroutine stopped, nothing fires |
| Errand.DestroyCleansUp | Assets/Scripts/NPC.cs:320-330 | OnDestroy stops the countdown, so nothing can fire later, and takes the NPC's slot off the ledger, which stays duplicate-free |
| Errand.InteractKeepsLedgerDuplicateFree | Assets/Scripts/NPC.cs:197-236 | an interaction never lists a slot twice |
| Errand.StepsKeepLedgerDuplicateFree | Assets/Scripts/NPC.cs:85-144 | an Update frame never lists a slot twice |
| Errand.SecondStepKeepsLedgerDuplicateFree | Assets/Scripts/NPC.cs:257-297 | a resumption of the timeout coroutine never lists a slot twice |
| Errand.StepsKeepWellFormed | Assets/Scripts/NPC.cs:85-144 | frames and countdown steps keep Despawned unobservable, keep a slot assigned on the way to and at the slot, and keep the countdown only while waiting there |
| ErrandTraces.StepPotential | Assets/Scripts/NPC.cs:113-125 | one step penalizes only by consuming a running countdown, and starts one only on arrival at the slot |
| ErrandTraces.PenaltiesNeedArrivals | Assets/Scripts/NPC.cs:257-297 | over any run, penalties never exceed arrivals at a slot plus a countdown running at the start |
| ErrandTraces.CancelledCountdownNeverFires | Assets/Scripts/NPC.cs:248-255 | after a cancellation no penalty follows until the NPC arrives at a slot again |
| ErrandTraces.CountdownRunsDown | Assets/Scripts/NPC.cs:259-266 | before the last second, resumptions only count down |
| ErrandTraces.TimeoutFiresAfterExactly | Assets/Scripts/NPC.cs:257-297 | a countdown of n seconds expires on exactly the n-th resumption, with exactly one penalty |
| ErrandTraces.RunAppend | Assets/Scripts/NPC.cs:85-144 | running two event sequences in a row adds up their penalties and arrivals |
| ErrandTraces.ExactlyOnePenaltyOnTimeout | Assets/Scripts/NPC.cs:268-275 | an unserved customer costs exactly one AddAnxiety call when the resumptions come back to back |
| ErrandTraces.QuietFrameKeepsWaiting | Assets/Scripts/NPC.cs:85-129 | while a customer waits at its slot, a frame without E changes neither the NPC nor the ledger, T key or not |
| ErrandTraces.TimeoutFiresAmidFrames | Assets/Scripts/NPC.cs:257-297 | with non-interacting frames between the resumptions, a countdown of n seconds still expires on exactly its n-th resumption, with one penalty |
| ErrandTraces.ExactlyOnePenaltyAmidFrames | Assets/Scripts/NPC.cs:268-275 | an unserved customer costs exactly one AddAnxiety call with frames running between the resumptions, until it reaches a slot again |
| ErrandTraces.ServedCustomerIsNeverPenalized | Assets/Scripts/NPC.cs:197-202 | a customer served before the timeout is never penalized on that errand |
| ErrandTraces.FailedFirstInteractionIsPermanent | Assets/Scripts/NPC.cs:168-199 | a first interaction that found no slot leaves canInteract false, and the NPC never changes again |
| ErrandTraces.InactiveNpcNeverChanges | Assets/Scripts/NPC.cs:60-91 | an inactive or disabled NPC never changes: the T-key respawn in Update cannot run on a deactivated GameObject or on a component `Start` disabled |
| ErrandTraces.NoFreeSlotStrandsCustomer | Assets/Scripts/NPC.cs:204-221 | pressing E while every slot is taken strands the customer at the waiting point for good, with the ledger untouched |
| ErrandTraces.OpeningClaimsSlot | Assets/Scripts/NPC.cs:85-129 | arrive, first interaction, walk: the customer is active at its claimed slot with a fresh countdown, one slot added, no penalty |
| ErrandTraces.UnservedErrand | Assets/Scripts/NPC.cs:257-297 | a whole unserved errand ends NotSpawned and inactive with one penalty and an empty ledger |
| ErrandTraces.ServedErrand | Assets/Scripts/NPC.cs:223-235 | a whole served errand ends NotSpawned and inactive with no penalty and an empty ledger |
| ErrandWorld.StepKeepsAccounting | Assets/Scripts/NPC.cs:27 | any step of any one NPC keeps the ledger exact: duplicate-free, each listed slot held by exactly one NPC, no unlisted slot held |
| ErrandWorld.StepAccounting | Assets/Scripts/NPC.cs:197-297 | one step moves a slot only between the ledger and the stepping NPC |
| ErrandWorld.InteractBalanced | Assets/Scripts/NPC.cs:197-236 | an interaction moves a slot only between the ledger and the NPC |
| ErrandWorld.SecondBalanced | Assets/Scripts/NPC.cs:257-297 | a timeout resumption moves a slot only between the ledger and the NPC |
| ErrandWorld.FrameBalanced | Assets/Scripts/NPC.cs:85-144 | an Update frame moves a slot only between the ledger and the NPC |
| ErrandWorld.SpawnKeepsAccounting | Assets/Scripts/NPCManager.cs:63-71 | adding a freshly spawned NPC keeps the ledger exact |
| ErrandWorld.HeldSlotsAreExclusive | Assets/Scripts/NPC.cs:333-350 | no slot is ever held by two NPCs at once |
| ErrandWorld.HeldSlotIsOccupied | Assets/Scripts/NPC.cs:212 | every NPC on its way to or waiting at a slot finds it listed |
| ErrandWorld.DestroyAccounting | Assets/Scripts/NPC.cs:320-330 | OnDestroy keeps the ledger exact if and only if the NPC has no stale claim on a slot another NPC holds |
| ErrandWorld.DemoStartsAccounted | Assets/Scripts/NPC.cs:27 | the two-customer scene starts with an exact ledger |
| ErrandWorld.StaleClaimIsReachable | Assets/Scripts/NPC.cs:223-235 | served A leaves slot 0 assigned, B claims slot 0, and destroying A would take B's slot off the ledger |
| NpcActor.Npc.constructor | Assets/Scripts/NPC.cs:41-45 | a fresh NPC: NotSpawned, no destination or slot, cannot interact, no countdown, not initialized, active and enabled |
| NpcActor.Npc.Initialize | Assets/Scripts/NPC.cs:48-58 | stores the references, marks the NPC initialized and starts its errand |
| NpcActor.Npc.Start | Assets/Scripts/NPC.cs:60-76 | nothing once initialized; a reference missing disables the component; otherwise NotSpawned and inactive |
| NpcActor.Npc.StartNPCBehavior | Assets/Scripts/NPC.cs:78-83 | heads for the waiting point |
| NpcActor.Npc.SpawnNPC | Assets/Scripts/NPC.cs:299-306 | activates the NPC and heads for the waiting point |
| NpcActor.Npc.Update | Assets/Scripts/NPC.cs:85-144 | the NPC and the shared ledger become exactly what `Errand.UpdateStep` computes; a duplicate-free ledger stays duplicate-free |
| NpcActor.Npc.CheckForPlayerInteraction | Assets/Scripts/NPC.cs:168-195 | interacts only with a player, canInteract and E within reach; a duplicate-free ledger stays duplicate-free |
| NpcActor.Npc.OnInteract | Assets/Scripts/NPC.cs:197-236 | the NPC and ledger become exactly what `Errand.Interact` computes; a duplicate-free ledger stays duplicate-free |
| NpcActor.Npc.StartSecondInteractionTimeout | Assets/Scripts/NPC.cs:238-246 | cancels, then starts a countdown of the configured seconds when positive |
| NpcActor.Npc.StopSecondInteractionTimeout | Assets/Scripts/NPC.cs:248-255 | no countdown runs afterwards |
| NpcActor.Npc.SecondElapsed | Assets/Scripts/NPC.cs:257-297 | the NPC and ledger follow `Errand.SecondStep`; on expiry the BarManager's score becomes AfterAdd of the penalty; a duplicate-free ledger stays duplicate-free |
| NpcActor.Npc.Despawn | Assets/Scripts/NPC.cs:308-318 | stops the countdown; NotSpawned and inactive |
| NpcActor.Npc.OnDestroy | Assets/Scripts/NPC.cs:320-330 | follows `Errand.DestroyStep` and keeps the ledger duplicate-free |
| NpcActor.Npc.GetRandomAvailableDestination | Assets/Scripts/NPC.cs:333-350 | the loop's pick equals `PickFree`: none exactly when no assigned destination is free, and otherwise an assigned one the ledger does not list |
| NpcManagement.NpcManager.constructor | Assets/Scripts/NPCManager.cs:8-19 | the inspector references; no NPC tracked |
| NpcManagement.NpcManager.SpawnNPC | Assets/Scripts/NPCManager.cs:36-77 | a missing reference or an active NPC leaves the tracked NPC alone; otherwise a fresh initialized NPC on the shared ledger, heading for the waiting point, or none when the prefab lacks the component |
| NpcManagement.NpcManager.DespawnNPC | Assets/Scripts/NPCManager.cs:79-86 | the tracked NPC runs OnDestroy (`Errand.DestroyStep`) and is forgotten |
| NpcManagement.NpcManager.Update | Assets/Scripts/NPCManager.cs:21-34 | after a frame the manager tracks an active NPC or none: an active NPC is kept whatever the key; without T, or with T when the scene or prefab is misconfigured, an inactive NPC is forgotten; otherwise T spawns a fresh NPC that has started its errand |
| CoffeeRules.AddIngredient | Assets/Scripts/CoffeeCup.cs:62-86 | adding milk or sugar sets that flag and leaves the other alone |
| CoffeeRules.AddIngredientIdempotent | Assets/Scripts/CoffeeCup.cs:62-86 | adding the same ingredient twice is the same as once |
| CoffeeRules.AddIngredientCommutes | Assets/Scripts/CoffeeCup.cs:62-86 | milk and sugar can be added in either order |
| CoffeeRules.AddIngredientOnlyAdds | Assets/Scripts/CoffeeCup.cs:62-86 | a flag is set afterwards exactly when it was set before or that ingredient was added |
| CoffeeRules.AddAllSetsExactly | Assets/Scripts/Ingredient.cs:46-55 | after any sequence of station presses, a flag is set exactly when it was set or its ingredient occurs |
| CoffeeRules.BothIngredientsMakeFullCoffee | Assets/Scripts/Ingredient.cs:46-55 | a plain cup with both ingredients added, in any order and any number of times, has milk and sugar |
| CoffeeRules.Pickup | Assets/Scripts/CoffeeCup.cs:49-60 | full hands change nothing; otherwise the cup is marked held, and it is in hand exactly when there is a hold point |
| CoffeeRules.Drop | Assets/Scripts/CoffeeHolder.cs:51-69 | the hands are empty afterwards |
| CoffeeRules.Trash | Assets/Scripts/CoffeeHolder.cs:71-79 | the hands are empty afterwards |
| CoffeeRules.HandsStayConsistent | Assets/Scripts/CoffeeHolder.cs:20-79 | the cup in hand is always marked held |
| CoffeeRules.PickupKeepsExactIff | Assets/Scripts/CoffeeCup.cs:57-58 | a pickup keeps "exactly the cup in hand is marked held" if and only if there is a hold point or the hands were full |
| CoffeeRules.DropAndTrashKeepExact | Assets/Scripts/CoffeeHolder.cs:51-79 | dropping and throwing away keep "exactly the cup in hand is marked held" |
| CoffeeRules.DropFreesTrashDestroys | Assets/Scripts/CoffeeHolder.cs:51-79 | a dropped cup is free and alive; a trashed cup is destroyed and ignores further presses |
| CoffeeRules.CupStrandedWithoutHoldPoint | Assets/Scripts/CoffeeHolder.cs:28-32 | without a hold point the cup marks itself held while the hands stay empty, and it can never be picked up again |
| CoffeeRules.DropThenPickup | Assets/Scripts/CoffeeCup.cs:22-60 | dropping the cup in hand and pressing E at it restores the hands |
| CoffeeRules.PickupThenDrop | Assets/Scripts/CoffeeHolder.cs:51-69 | picking a cup up and dropping it restores the hands |
| CoffeeCounter.CoffeeCup.constructor | Assets/Scripts/CoffeeCup.cs:13-16 | a new cup is plain and not held |
| CoffeeCounter.CoffeeCup.Update | Assets/Scripts/CoffeeCup.cs:22-47 | a held cup does nothing; otherwise missing references are filled in, and with both set and E pressed the hands follow `CupPressed` |
| CoffeeCounter.CoffeeCup.TryPickup | Assets/Scripts/CoffeeCup.cs:49-60 | the hands follow `Pickup`; the cup is marked held exactly when the hands were empty |
| CoffeeCounter.CoffeeCup.AddMilk | Assets/Scripts/CoffeeCup.cs:62-73 | contents follow `AddIngredient(Milk)` |
| CoffeeCounter.CoffeeCup.AddSugar | Assets/Scripts/CoffeeCup.cs:75-86 | contents follow `AddIngredient(Sugar)` |
| CoffeeCounter.CoffeeCup.Drop | Assets/Scripts/CoffeeCup.cs:88-92 | the cup is no longer held; contents unchanged |
| CoffeeCounter.CoffeeHolder.constructor | Assets/Scripts/CoffeeHolder.cs:6-8 | empty hands |
| CoffeeCounter.CoffeeHolder.IsHoldingCoffee | Assets/Scripts/CoffeeHolder.cs:10-13 | true exactly when a cup is in hand |
| CoffeeCounter.CoffeeHolder.GetCurrentCoffee | Assets/Scripts/CoffeeHolder.cs:15-18 | returns the cup in hand |
| CoffeeCounter.CoffeeHolder.PickupCoffee | Assets/Scripts/CoffeeHolder.cs:20-49 | takes the cup exactly when the hands are empty and there is a hold point |
| CoffeeCounter.CoffeeHolder.DropCoffee | Assets/Scripts/CoffeeHolder.cs:51-69 | the hands follow `Drop`; the cup keeps its contents |
| CoffeeCounter.CoffeeHolder.DestroyCoffee | Assets/Scripts/CoffeeHolder.cs:71-79 | the hands follow `Trash` |
| IngredientStation.Ingredient.constructor | Assets/Scripts/Ingredient.cs:6-14 | the station's ingredient and references |
| IngredientStation.Ingredient.Update | Assets/Scripts/Ingredient.cs:22-32 | with references set and E pressed, the held cup gets the station's ingredient; otherwise it is unchanged |
| IngredientStation.Ingredient.TryAddIngredient | Assets/Scripts/Ingredient.cs:34-56 | the held cup, if any, gets the station's ingredient and stays held |
| Disposal.TrashBin.constructor | Assets/Scripts/TrashBin.cs:9-11 | the bin's references |
| Disposal.TrashBin.Update | Assets/Scripts/TrashBin.cs:13-23 | with references set and E pressed the hands follow `Trash`; otherwise nothing changes |
| Disposal.TrashBin.TryThrowAway | Assets/Scripts/TrashBin.cs:25-35 | the hands follow `Trash` |
| Brewing.ShakeStep | Assets/Scripts/CoffeeMachine.cs:58-60 | the loop finishes exactly when elapsed has reached brewTime, and otherwise adds the frame time |
| Brewing.FramesShakingIsCeiling | Assets/Scripts/CoffeeMachine.cs:58-69 | the machine shakes for the least number of frames that reaches brewTime |
| Brewing.FinishWithinOneFrame | Assets/Scripts/CoffeeMachine.cs:58-69 | the brew finishes having counted at least brewTime and less than one frame more |
| Brewing.FiveSecondBrew | Assets/Scripts/CoffeeMachine.cs:11 | the default five-second brew at 16 ms frames shakes for 313 frames |
| Machine.CoffeeMachine.constructor | Assets/Scripts/CoffeeMachine.cs:21-27 | idle and at its original position |
| Machine.CoffeeMachine.Update | Assets/Scripts/CoffeeMachine.cs:29-48 | brews exactly when idle, wired, E pressed and the hands empty, and then runs the first pass of the loop; otherwise nothing changes |
| Machine.CoffeeMachine.BrewCoffee | Assets/Scripts/CoffeeMachine.cs:50-69 | brewing from zero elapsed, one pass of the loop |
| Machine.CoffeeMachine.ContinueBrew | Assets/Scripts/CoffeeMachine.cs:58-86 | one loop pass: shaking with the new elapsed time, or back in place, idle, and a fresh plain cup exactly when prefab and spawn point are assigned |
| Objectives.WithObjective | Assets/Scripts/UIManager.cs:67-75 | the objective is listed afterwards, and nothing else is added |
| Objectives.WithoutObjective | Assets/Scripts/UIManager.cs:80-84 | the list shrinks by one exactly when the objective was listed |
| Objectives.SetObjectiveKeepsDuplicateFree | Assets/Scripts/UIManager.cs:69-71 | the list never holds an objective twice |
| Objectives.SetObjectiveKeepsOrder | Assets/Scripts/UIManager.cs:69-71 | setting keeps the order of listed objectives, and a new one comes last |
| Objectives.ObjectiveDoneKeepsOrder | Assets/Scripts/UIManager.cs:82-84 | marking one done keeps the order of the others |
| Objectives.ObjectiveDoneRemoves | Assets/Scripts/UIManager.cs:82-84 | marking done removes the objective for good and leaves exactly the others, duplicate-free |
| Objectives.SetThenDone | Assets/Scripts/UIManager.cs:67-84 | setting a new objective and marking it done restores the list |
| Objectives.LinesAppend | Assets/Scripts/UIManager.cs:111-114 | the display text grows by one bullet line per objective |
| Objectives.DisplayRoundTrip | Assets/Scripts/UIManager.cs:106-117 | the display text reads back as exactly the list, in order, when no objective contains a newline |
| ObjectiveBoard.SetObjective | Assets/Scripts/UIManager.cs:67-75 | a listed objective changes nothing; a new one is appended and the panel is active exactly when it was or a panel exists |
| ObjectiveBoard.ObjectiveDone | Assets/Scripts/UIManager.cs:80-95 | the objective is removed; a fade-out starts exactly when the last one goes and a panel exists; the panel stays as it was |
| ObjectiveBoard.ClearAll | Assets/Scripts/UIManager.cs:100-104 | the list is empty, the text is untouched, and a fade-out starts whenever a panel exists |
| ObjectiveBoard.FadeOutEnds | Assets/Scripts/UIManager.cs:138-155 | the end of a running fade-out deactivates the panel |
| ObjectiveBoard.SetObjectiveKeepsShown | Assets/Scripts/UIManager.cs:67-75 | the text shows exactly the list whenever it is non-empty |
| ObjectiveBoard.ObjectiveDoneKeepsShown | Assets/Scripts/UIManager.cs:80-95 | marking done keeps the text showing exactly a non-empty list |
| ObjectiveBoard.ClearAndFadeKeepShown | Assets/Scripts/UIManager.cs:100-104 | clearing and fading keep the text invariant |
| ObjectiveBoard.LastObjectiveStaysOnText | Assets/Scripts/UIManager.cs:86-89 | marking the last objective done leaves the finished objective on the text |
| ObjectiveBoard.FadeOutHidesNewObjective | Assets/Scripts/UIManager.cs:138-155 | a fade-out still running when a new objective is set ends by hiding the panel with the objective listed |
| UserInterface.UIManager.constructor | Assets/Scripts/UIManager.cs:27-60 | both panels start inactive with an empty list and no dialogue running |
| UserInterface.UIManager.SetObjective | Assets/Scripts/UIManager.cs:67-75 | the board follows `ObjectiveBoard.SetObjective`; the dialogue is untouched |
| UserInterface.UIManager.ObjectiveDone | Assets/Scripts/UIManager.cs:80-95 | the board follows `ObjectiveBoard.ObjectiveDone` |
| UserInterface.UIManager.ClearAllObjectives | Assets/Scripts/UIManager.cs:100-104 | the board follows `ObjectiveBoard.ClearAll` |
| UserInterface.UIManager.UpdateObjectiveDisplay | Assets/Scripts/UIManager.cs:106-117 | the loop writes `Display` of the list when a text component exists |
| UserInterface.UIManager.FadeInObjective | Assets/Scripts/UIManager.cs:119-123 | the panel becomes active if it exists |
| UserInterface.UIManager.FadeOutObjective | Assets/Scripts/UIManager.cs:138-141 | a fade-out starts if the panel exists |
| UserInterface.UIManager.ObjectiveFadeOutEnded | Assets/Scripts/UIManager.cs:152-153 | the board follows `FadeOutEnds` |
| UserInterface.UIManager.ShowDialogue | Assets/Scripts/UIManager.cs:162-185 | the dialogue follows `Dialogue.Show` |
| UserInterface.UIManager.DialogueWaitEnded | Assets/Scripts/UIManager.cs:181-196 | the dialogue follows `Dialogue.Resume` |
| UserInterface.UIManager.HideDialogue | Assets/Scripts/UIManager.cs:202-216 | the dialogue follows `Dialogue.Hide`, including the failure |
| Dialogue.Show | Assets/Scripts/UIManager.cs:162-185 | the old coroutine is stopped; with both references the box is shown with the first letter typed, otherwise the new coroutine ends at once |
| Dialogue.Hide | Assets/Scripts/UIManager.cs:202-216 | the coroutine is stopped; the box is hidden when both references exist; the call fails exactly when a panel exists without its text component |
| Dialogue.ResumeKeepsTyped | Assets/Scripts/UIManager.cs:181-193 | the shown text is always the typed prefix of the line, and the whole line while lingering |
| Dialogue.TypingProgress | Assets/Scripts/UIManager.cs:181-185 | each resumption while typing reveals exactly one more letter |
| Dialogue.TypewriterShowsPrefix | Assets/Scripts/UIManager.cs:176-185 | after k-1 resumptions the box shows the first k letters |
| Dialogue.DialogueLingersThenHides | Assets/Scripts/UIManager.cs:181-196 | after one resumption per letter the whole line shows; one more hides the box and ends the coroutine |
| Dialogue.UnreadyDialogueShowsNothing | Assets/Scripts/UIManager.cs:173 | without the panel or text component a dialogue never changes the box |

## Left out

- Movement and arrival are not modelled. Positions, `MoveToDestination`, `HasReachedDestination`, rotation and the machine's shake offsets are floating point. Each frame's arrival and reach become booleans, and the shake is a flag saying the machine is off its position.
- Input is not modelled. `Keyboard.current` and distance tests become per-frame parameters.
- Randomness is not modelled. `Random.Range` becomes a draw `roll` supplied by the caller.
- Logging and editor code are not modelled: `Debug.Log`, the gizmos, and the `logChanges` flag.
- Singletons and engine lookups are left out. `Awake`'s singleton handling, `BarManager.Instance` and `UIManager.Instance` become references passed in. `FindGameObjectWithTag` and `FindObjectOfType` become parameters.
- `UIManager.SetAnxiety` is called by BarManager but is not part of the shown source. It only redraws the bar, so it is left out.
- NpcActor.Npc.SecondElapsed: `secondInteractionTimeout` is a whole number of seconds, not a float. Each resumption waits min(1, remaining) and takes that off, so a fractional remainder is not modelled.
- Brewing.ShakeStep: times are natural numbers in one unit, and a frame's delta time is a parameter.
- Fades are not modelled beyond their start and end. The alpha animation of the objective panel is left out, and so are the typewriter and display durations. A fade-in's only effect is to activate the panel. A fade-out's only effect is to deactivate the panel when it ends, which the scene signals.
- Null spawn points are not modelled. A null spawn point would throw in `StartNPCBehavior` and `SpawnNPC` (`Assets/Scripts/NPC.cs:80`, `:302`), which read its position. A null waiting point is only stored as the destination there. The manager never passes a null spawn point, and the position write is not modelled.
- Cross-object lifetime effects are left out:
  - Unity's "destroyed object compares equal to null": a destroyed cup is only flagged, and when the prefab has no NPC component the manager's reference is set to null at once, whereas `Assets/Scripts/NPCManager.cs:74-75` keeps the destroyed object until the end of the frame (it still compares non-null, and active, until the end of the frame, so a second `SpawnNPC` in that frame is refused at `Assets/Scripts/NPCManager.cs:51` where the model would spawn again);
  - the `Rigidbody` and `SetParent` effects of picking up and dropping;
  - deactivation of a whole hierarchy, since one NPC's `active` is its own `activeSelf`.
- UserInterface.UIManager.ShowDialogue: the coroutine handle is modelled as set exactly while the dialogue coroutine runs. When the panel or text component is missing, the coroutine ends before its first wait, and the handle `StartCoroutine` then returns is treated as cleared.
- UserInterface.UIManager.HideDialogue: the NullReferenceException is modelled as `completed == false`. The exception is not propagated to the caller.
- NpcManagement.NpcManager.DespawnNPC: the model runs the NPC's `OnDestroy` at once, inside the call. Unity's `Destroy` (`Assets/Scripts/NPCManager.cs:83`) runs it at the end of the frame, so until then the ledger still lists the NPC's slot, and the NPC can still run its own `Update` in that frame.
- Dialogue.Resume: the letters of a line are modelled as Unicode scalar values, one per resumption, while `foreach (char letter in text)` (`Assets/Scripts/UIManager.cs:181-185`) walks UTF-16 code units. A character outside the Basic Multilingual Plane, such as an emoji, takes two waits in the game, with half a surrogate pair shown in between. For such a line `Dialogue.TypingProgress`, `Dialogue.TypewriterShowsPrefix` and `Dialogue.DialogueLingersThenHides` count fewer resumptions than the game makes.
- LightingManager, PlayerMovement and ObjectProximity are not part of this model.
