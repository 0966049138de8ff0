# Space game backend: round engine and station handler

This project models the deterministic game logic of a space-game server. Players fly ships
between the sites of solar systems. Each site advances in rounds: the instructions players and
NPCs queued are sorted by kind, module effects are resolved, the dead are dropped, players move
out, and players warping in are admitted. A docked player also gives instructions at a
station: refitting, cargo moves, recycling and market orders.

The repository holds three generations of the round engine side by side. Each is its own
module here, over its own record shapes:

- the oldest engine, `src/math/*`:
  - `MathRound`: collects module effects per site index, applies them, cleans up, then moves
    players.
  - `MathInstructions`: the instruction sort.
  - `Effect`: status arithmetic.
  - `Qualities`: per-round ship qualities.
  - `ShipMax`: maximum status from layout and passives.
  - Record shapes: `LegacyTypes`.
- the middle engine, `src/round/mod.rs`:
  - `RoundMod`: resolves instructions one at a time, then runs finishup: passives, clamp to
    layout, drop the dead.
- the newest engine, `src/round/{instructions,entities,module,facility,warp_player}.rs`:
  - `RoundInstructions`, `RoundEntities`, `RoundModule`, `RoundFacility`, `RoundWarpPlayer`.
  - Record shapes: `SiteTypes`.
  - The NPC instruction generator `NpcInstructions` and the station handler `Station` use the
    newest records (`LatestTypes`).

Shared modules:

- `Common`: fixed-width integer types and saturating arithmetic.
- `Sorting`: the stable sort that `sort_by` performs.
- `Flatten`: tagging a queue with its owner, and one pass of a map's iterator.

Rust `&mut` parameters become values passed in and returned. A `HashMap` walked by a loop is
visited in an order the method chooses; a ghost out-parameter reports that order, and
contracts hold for every order.

Helpers the core calls but whose code is not part of this model are parameters: fields of
each module's `Typings` datatype. Examples are `apply_to_origin`, `apply_to_target`,
`min_layout`, `is_alive`, the storage operations and the derived instruction order. Every
property the proofs need of them is a named `requires` predicate:

- `TotalPreorder` for the derived orders.
- `RespectsPinned`: the kind order the unit tests fix.
- `StorageLaws`: `take_max`, `take_exact` and `saturating_add` act on one item only.
- `CollateralTotal`: any two collateral values compare.

## Model

| member | source | states |
|---|---|---|
| Effect.ApplyDamage | src/math/effect.rs:6-14 | armor absorbs up to the damage first; the rest comes off structure, floored at 0; capacitor never changes; damage within the armor leaves structure alone |
| Effect.DamageOnlyLowers | src/math/effect.rs:6-14 | a hit never raises armor or structure, and the total loss is at most the damage |
| Effect.DamageExamples | src/math/effect.rs:47-117 | the four damage tests: 42/42 hit for 10 gives 32/42, 0/42 gives 0/32, 3/42 gives 0/35, 0/2 gives 0/0 |
| Effect.ApplyToStatus | src/math/effect.rs:21-45 | a capacitor change stays within 0 and the maximum, exact when in range; an armor repair saturates and is capped at the maximum armor; damage is `apply_damage`; mining and warp disruption change nothing; every other field is copied |
| Qualities.SatAbsI16 | src/math/qualities.rs:23 | absolute value of an `i16`, with -32768 mapping to 32767 |
| Qualities.Add | src/math/qualities.rs:18-26 | a non-negative change adds, saturating at 65535; a negative one subtracts its saturated magnitude, stopping at 0 |
| Qualities.AddZero | src/math/qualities.rs:19-21 | adding 0 is the identity |
| Qualities.AddMostNegative | src/math/qualities.rs:22-24 | -32768 removes only 32767, so `add(32768, -32768)` is 1 |
| Qualities.ApplyRound | src/math/qualities.rs:4-16 | armor and structure never change; the capacitor changes by the recharge quality if present and is otherwise kept; the passive maxima are ignored |
| Qualities.RefillsCap | src/math/qualities.rs:28-66 | both tests: capacitor 10 with recharge 2 becomes 12, and passive qualities leave 10/10/10 as is |
| ShipMax.WithPassivesClosedForm | src/math/ship.rs:16-25 | the saturating passive bonuses, in slot order, add up to the base plus the total bonus capped once at 65535; structure is untouched |
| ShipMax.UnknownPassiveSkipped | src/math/ship.rs:17 | a passive the statics do not know changes nothing |
| ShipMax.CalcMax | src/math/ship.rs:4-28 | an error exactly when the layout is missing, naming it; otherwise structure is the layout's, and armor and capacitor are the layout's plus all known bonuses, capped at 65535 |
| ShipMax.WithoutModules | src/math/ship.rs:30-50 | with no passives the maximum is the layout's capacitor, armor and structure |
| ShipMax.OneArmorPassive | src/math/ship.rs:52-72 | one armor passive raises maximum armor by its bonus and nothing else |
| Sorting.SortBy | src/math/instructions.rs:17 | the stable sort is a permutation of its input |
| Sorting.SortBySorted | src/math/instructions.rs:17 | the stable sort's output is ordered by the comparison |
| Sorting.SortByKeepsSorted | src/math/instructions.rs:17 | input that is already ordered comes back unchanged |
| Sorting.InsertStableSorted | src/math/instructions.rs:17 | inserting behind all equals keeps a sorted sequence sorted |
| Flatten.TaggedCount | src/math/instructions.rs:13-15 | a tagged queue holds each (tag, instruction) pair as often as the queue holds the instruction, and no pair with another tag |
| Flatten.AppendTagged | src/math/instructions.rs:13-15 | the inner push loop appends the queue, tagged, in order |
| Flatten.ByInstructionPreorder | src/math/instructions.rs:17 | comparing pairs by instruction alone is a total preorder when the instruction order is |
| MathInstructions.FlattenQueuesCount | src/math/instructions.rs:11-16 | over one pass of the map, every (player, instruction) pair occurs as often as in that player's queue |
| MathInstructions.FlattenMap | src/math/instructions.rs:11-16 | the nested loops visit every key exactly once and push every queue, tagged |
| MathInstructions.SortedCounts | src/math/instructions.rs:11-17 | the sorted list still holds each pair as often as the queues do |
| MathInstructions.Sort | src/math/instructions.rs:8-19 | a permutation of all (player, instruction) pairs, as long as all queues together, ordered by instruction, for every iteration order |
| MathInstructions.PinnedOrder | src/math/instructions.rs:24-61 | untargeted module use precedes targeted module use, which precedes undocking, whoever issued them |
| RoundInstructions.PlayerPairsCount | src/round/instructions.rs:18-22 | player pairs hold exactly the filtered instructions of each player, tagged with that player |
| RoundInstructions.NpcPairsCount | src/round/instructions.rs:23-27 | NPC pairs hold every NPC instruction tagged with its site index, and nothing tagged as a player |
| RoundInstructions.CollectPlayers | src/round/instructions.rs:18-22 | the player loop visits every key once and pushes its filtered queue, tagged |
| RoundInstructions.AppendNpcs | src/round/instructions.rs:23-27 | the NPC loop appends every queue, tagged with its index, in order |
| RoundInstructions.FlatCounts | src/round/instructions.rs:17-27 | the unsorted list has the expected count of every pair and the expected length |
| RoundInstructions.Sort | src/round/instructions.rs:13-30 | filtered player instructions and all NPC instructions, each pair as often as in the input, as many as the input, ordered by instruction with the actor outside the key |
| RoundInstructions.PinnedOrder | src/round/instructions.rs:39-90 | untargeted module use precedes targeted module use, which precedes warping, whoever issued them |
| RoundInstructions.ExampleCounts | src/round/instructions.rs:39-90 | the test's two queues give exactly its three tagged instructions |
| RoundInstructions.ExampleOrder | src/round/instructions.rs:39-90 | those three pairs can be ordered in one way only |
| RoundInstructions.SortedExample | src/round/instructions.rs:39-90 | `player_sorted_works`: whatever the map order, the result is player 2's untargeted use, player 2's targeted use, then player 1's warp |
| RoundInstructions.Cleanup | src/round/instructions.rs:32-37 | every queue is emptied and the set of players is unchanged |
| RoundEntities.PlayerPos | src/round/entities.rs:4-8 | the smallest index holding the player; none exactly when the player is absent |
| RoundEntities.WithoutPlayer | src/round/entities.rs:10-14 | unchanged when the player is absent; otherwise one shorter, missing exactly one entity of the player |
| RoundEntities.RemovePlayer | src/round/entities.rs:10-14 | `remove_player` deletes exactly the player's index and keeps the order of the rest |
| RoundEntities.WithoutPlayerGone | src/round/entities.rs:10-14 | a player present at most once is absent afterwards |
| RoundEntities.WithoutPlayerKeepsOthers | src/round/entities.rs:10-14 | every other entity is kept |
| RoundEntities.WithoutPlayerKeepsShips | src/round/entities.rs:10-14 | every remaining player entity still has a ship |
| RoundEntities.NpcShip | src/round/entities.rs:16-25 | the borrow `get_mut_npc` hands out exposes the NPC's fitting, status and cargo, and nothing is lost in the round trip |
| RoundEntities.WithNpcShip | src/round/entities.rs:16-25 | a write through that borrow reads back as written, keeps the faction and every other index, and writing back what was read changes nothing |
| RoundEntities.GetPlayers | src/round/entities.rs:27-39 | exactly the (index, player) pairs of the player entities, in ascending index order |
| RoundModule.WithActorShip | src/round/module.rs:22-33 | writing the actor's ship back (player map or NPC entity) changes only the actor |
| RoundModule.OnlyActorChangedKeepsShips | src/round/module.rs:22-33 | changing only the actor keeps every player entity's ship |
| RoundModule.ApplyUntargeted | src/round/module.rs:15-48 | all or nothing: the status becomes `apply_to_origin`'s result when the slot exists and that is `Some`, and stays otherwise; nothing but the actor's status changes |
| RoundModule.ApplyTargetedToOrigin | src/round/module.rs:111-130 | the module is handed back exactly when the slot exists and the origin effects apply, with the status updated; otherwise the status is untouched |
| RoundModule.FirstMine | src/round/module.rs:148-154 | the strength of the first mining effect; none exactly when there is no mining effect |
| RoundModule.MinedOre | src/round/module.rs:155-159 | the ore mined is the least of strength, remaining ore and free cargo, and 0 without a mining effect |
| RoundModule.ApplyTargetedToTarget | src/round/module.rs:134-175 | a facility is unchanged and yields nothing; a lifeless thing takes the effects and loses exactly the mined ore, which is the loot; an NPC or player takes the effects and yields nothing |
| RoundModule.FireOrigin | src/round/module.rs:59-77 | the user's status becomes `apply_to_origin`'s value exactly when the module fires and is kept otherwise; the module is handed back exactly when it fires; nothing else changes |
| RoundModule.PayLoot | src/round/module.rs:96-107 | only the user's cargo changes, by `Cargo::add` of the loot; restoring the old cargo gives back the state before |
| RoundModule.ApplyTargeted | src/round/module.rs:50-108 | the user's status is `apply_to_origin`'s value when the module fires and unchanged otherwise, with the target effects on top only when the user targets itself; its fitting is kept and its cargo gains the loot; without a hit the log is unchanged, there is no loot and only the user changes; with a hit exactly one entry naming user, module and the target as it stood before the loot was paid is appended; a facility never changes; a lifeless thing takes the effects and loses exactly the loot's ore; another NPC or player's ship takes the effects; every other entity and every other player's ship is unchanged |
| RoundModule.SelfDestruct | src/round/module.rs:177-195 | the actor's status becomes dead; nothing else changes and nothing is logged |
| RoundFacility.Jump | src/round/facility.rs:15-45 | only from a stargate; a living ship leaves the site, warps to the target system towards the stargate back, and one jump entry is logged; a dead ship changes nothing; ships are only read |
| RoundFacility.Dock | src/round/facility.rs:47-74 | a living ship leaves the site, is docked at station 0, and one dock entry is logged; a dead ship changes nothing; ships are only read |
| RoundWarpPlayer.Out | src/round/warp_player.rs:15-42 | a living ship leaves the site, is in warp towards the target, and one warp-out entry is logged; a dead ship changes nothing |
| RoundWarpPlayer.InSite | src/round/warp_player.rs:44-68 | one player entity per arrival, in order, after the unchanged old list; each located in this site; one warp-in entry each, in order; nobody else's location changes |
| RoundMod.PlayerPos | src/round/mod.rs:250-254 | the smallest index holding the player; none exactly when absent |
| RoundMod.WithoutPlayer | src/round/mod.rs:256-264 | unchanged when the player is absent; otherwise exactly that index is deleted |
| RoundMod.WithoutPlayerGone | src/round/mod.rs:256-264 | a player present at most once is absent afterwards |
| RoundMod.WithoutPlayerKeepsShips | src/round/mod.rs:256-264 | every remaining player entity still has a ship |
| RoundMod.RemovePlayerFromEntities | src/round/mod.rs:256-264 | `Vec::remove` at the player's position, if any |
| RoundMod.ApplyUntargetedModule | src/round/mod.rs:120-137 | all or nothing on the user's status; the fitting never changes |
| RoundMod.ApplyTargetedModuleToOrigin | src/round/mod.rs:139-162 | details are handed back exactly when the slot exists and the origin effects apply, with the status updated; otherwise the ship is untouched |
| RoundMod.ApplyTargetedModuleToTarget | src/round/mod.rs:164-184 | a facility is unchanged; a lifeless thing, NPC or player's ship takes the target effects on its status only |
| RoundMod.FacilityJump | src/round/mod.rs:186-212 | the player leaves the site, alive or not, and warps to the parsed system towards its stargate |
| RoundMod.FacilityDock | src/round/mod.rs:214-230 | the player leaves the site, alive or not, and is docked at station 0 |
| RoundMod.WarpPlayerOut | src/round/mod.rs:232-248 | the player leaves the site, alive or not, and is in warp towards the named site, even this one |
| RoundMod.TargetedStep | src/round/mod.rs:54-62 | an index off the site changes nothing, not even the user's ship; if the module does not fire, no entity and no other ship changes; only the target index can change among the entities; a facility target is unchanged; locations are untouched |
| RoundMod.Step | src/round/mod.rs:46-92 | untargeted use is `apply_untargeted_module` on the user's ship; targeted use is `TargetedStep`; dock, jump and warp remove the player, keep the ships and set station 0, the stargate warp or the in-system warp; no location is lost; the fleet keeps its players and fittings |
| RoundMod.Steps | src/round/mod.rs:46-92 | the whole loop keeps the fleet's players and fittings, and every player entity keeps a ship |
| RoundMod.StepsLocateMovers | src/round/mod.rs:46-92 | every player who docked, jumped or warped has a location afterwards |
| RoundMod.StepsKeepStill | src/round/mod.rs:46-92 | a player who neither uses a facility nor warps keeps their location, or their lack of one, through every step |
| RoundMod.ResolveOne | src/round/mod.rs:46-92 | one pass of the loop equals `Step` |
| RoundMod.ResolveInstructions | src/round/mod.rs:46-92 | the loop over the sorted list equals `Steps` |
| RoundMod.FinishupOne | src/round/mod.rs:273-315 | facilities stay; lifeless things stay iff alive; NPCs and players stay iff alive after passives and the layout clamp; a player's settled status is written to the ship either way |
| RoundMod.Finishup | src/round/mod.rs:266-318 | the fleet keeps its players and fittings |
| RoundMod.FinishupKeepsOrder | src/round/mod.rs:266-318 | the survivors are a subsequence of the input, NPC statuses aside |
| RoundMod.FinishupKeepsFacilities | src/round/mod.rs:274-276 | every facility survives and the number of facilities is unchanged |
| RoundMod.FinishupSurvivorsAlive | src/round/mod.rs:277-312 | every surviving lifeless thing and NPC is alive, and every surviving player has a ship |
| RoundMod.FinishupWritesBack | src/round/mod.rs:299-313 | a player with one entity gets the settled status on the ship even when dropped; a player without an entity keeps the ship |
| RoundMod.FinishupEntities | src/round/mod.rs:266-318 | the loop equals `Finishup` |
| RoundMod.Arrivals | src/round/mod.rs:96-100 | one player entity per arriving player, in order |
| RoundMod.WarpIn | src/round/mod.rs:95-109 | arrivals are appended after the existing list and located here; nobody else's location changes |
| RoundMod.Advance | src/round/mod.rs:22-118 | the result is the finishup survivors of the resolved instructions, then the arrivals; the fleet keeps its players and fittings; survivors are alive; the locations are those the resolved instructions leave (docking at station 0, jumping and warping into their warps, everyone else where they were), then the arrivals located here; every queue is empty; movers have locations |
| MathRound.PlayerPos | src/math/round.rs:219-223 | the smallest index holding the player; none exactly when absent |
| MathRound.WithoutPlayer | src/math/round.rs:225-230 | unchanged when the player is absent; otherwise one shorter with the same facilities |
| MathRound.RemovePlayerFromEntities | src/math/round.rs:225-230 | `Vec::remove` at the player's position, if any |
| MathRound.GroupedAt | src/math/round.rs:47-88 | the effect map has an entry exactly for the indices something was aimed at, holding their effects in order |
| MathRound.PushAll | src/math/round.rs:58-60 | the inner push loop groups each effect under its index |
| MathRound.CollectUntargeted | src/math/round.rs:50-64 | an untargeted module's effects are pushed at the user's index, or nothing when the module is unknown |
| MathRound.CollectTargeted | src/math/round.rs:65-83 | origin effects at the user's index, then target effects at the target index, or nothing when the module is unknown |
| MathRound.CollectOne | src/math/round.rs:48-88 | one instruction's contribution; non-module instructions contribute nothing |
| MathRound.CollectEffects | src/math/round.rs:46-88 | the first loop yields, for each index, exactly the effects aimed at it, in order |
| MathRound.HitPlayersMiss | src/math/round.rs:91-107 | a player standing at no processed index keeps the ship |
| MathRound.HitPlayersOnce | src/math/round.rs:91-107 | a player standing at exactly one processed index gets that index's sorted effects applied once |
| MathRound.ApplyAt | src/math/round.rs:91-106 | one index: an NPC's status changes in place, a player's ship in the map, facilities and lifeless things not at all |
| MathRound.ApplyCollected | src/math/round.rs:90-107 | every index with effects is visited once; each entity becomes its hit form; facilities and lifeless things are immune; no ship is added, removed or refitted |
| MathRound.HitKeepsFacilitiesAndPlayers | src/math/round.rs:95 | applying effects keeps every facility and every player entity in place |
| MathRound.CleanupOne | src/math/round.rs:238-279 | facilities stay; lifeless things stay iff alive; an NPC stays, clamped, iff `min_layout` gives a living status; a player's ship is clamped, or zeroed when `min_layout` gives nothing |
| MathRound.Cleanup | src/math/round.rs:232-282 | no ship is added, removed or refitted |
| MathRound.CleanupKeepsOrder | src/math/round.rs:238-258 | the survivors are a subsequence of the input, NPC statuses aside |
| MathRound.CleanupKeepsFacilities | src/math/round.rs:240-242 | every facility survives, in order, and none is added |
| MathRound.CleanupSurvivorsAlive | src/math/round.rs:243-265 | every surviving lifeless thing and NPC is alive, and every surviving player has a ship |
| MathRound.CleanupEntities | src/math/round.rs:232-282 | the loop equals `Cleanup` |
| MathRound.MoveStep | src/math/round.rs:113-188 | a missing location defaults to station 0; undock adds the player only with a valid fitting; dock, jump and a warp elsewhere remove the player; a warp to this site or a module instruction changes no entity; facilities are kept |
| MathRound.Moves | src/math/round.rs:113-188 | facilities are kept and every player with an instruction has a location |
| MathRound.MovesKeepShips | src/math/round.rs:133-186 | every player entity after moving has a ship |
| MathRound.MoveOne | src/math/round.rs:113-188 | one pass of the movement loop equals `MoveStep` |
| MathRound.Movements | src/math/round.rs:113-188 | the movement loop equals `Moves` |
| MathRound.Arrivals | src/math/round.rs:192-200 | one player entity per arrival, in order, with that ship's layout |
| MathRound.WarpIn | src/math/round.rs:191-208 | arrivals are appended after the existing list and located here; nobody else's location changes |
| MathRound.ArrivalsClose | src/math/round.rs:191-208 | appended arrivals end the list and add no facility |
| MathRound.SortedFromQueues | src/math/round.rs:36 | every sorted pair comes from its player's queue, and every non-empty queue is represented |
| MathRound.Advance | src/math/round.rs:23-217 | the instructions are the stable sort of the queues in some map order; module effects are grouped by site index and hit the NPCs in place and the players' ships index by index; the ships and the surviving entities are `Cleanup` of that; the entities and locations are `Moves` of the survivors, then the arrivals, located here; every queue is empty; the facilities are untouched; every player with an instruction has a location; no ship is added, removed or refitted |
| NpcInstructions.GetPlayers | src/gameloop/site_round/npc_instructions.rs:35-47 | exactly the (index, player) pairs of the player entities, in ascending order |
| NpcInstructions.FirstPlayer | src/gameloop/site_round/npc_instructions.rs:18 | the first listed player is the player entity with the smallest index; none only without players |
| NpcInstructions.PirateOrders | src/gameloop/site_round/npc_instructions.rs:17-26 | no player, no orders; otherwise one targeted use per slot, in slot order, at the first player, indices cut to 8 bits |
| NpcInstructions.PirateIndices | src/gameloop/site_round/npc_instructions.rs:10-16 | exactly the pirate indices, ascending |
| NpcInstructions.AppendEntry | src/gameloop/site_round/npc_instructions.rs:27 | one more pirate entry extends the entry list |
| NpcInstructions.Generate | src/gameloop/site_round/npc_instructions.rs:8-33 | entry k is the k-th pirate with its attack orders; guards contribute nothing |
| NpcInstructions.GenerateListsPirates | src/gameloop/site_round/npc_instructions.rs:8-33 | every entry is a pirate, every pirate has an entry, and entries ascend by index |
| NpcInstructions.NoPlayersNoOrders | src/gameloop/site_round/npc_instructions.rs:18-27 | without players every pirate's order list is empty |
| NpcInstructions.OrdersAimAtFirstPlayer | src/gameloop/site_round/npc_instructions.rs:18-24 | on a site of at most 256 entities every order targets the player entity with the smallest index |
| Station.ShipModuleRemove | src/station/mod.rs:149-155 | an index inside the list removes that slot, keeps the others' order and stores one of the module; otherwise nothing changes |
| Station.RecycleItems | src/station/mod.rs:157-163 | what there is of the item, up to the amount, is taken and each yield is credited with saturation |
| Station.CreditedNothing | src/station/mod.rs:157-163 | zero recycled items credit nothing |
| Station.RecycleNothing | src/station/mod.rs:165-173 | recycling an item the storage lacks changes no amount |
| Station.RecycleOneForOne | src/station/mod.rs:175-184 | recycling all of an item that yields one mineral each leaves none of it and as many of the mineral |
| Station.ClampCollateral | src/station/mod.rs:137-142 | the current ship's collateral is at most the fitting's maximum and otherwise kept |
| Station.ModuleRemove | src/station/mod.rs:83-97 | the current ship, or the default one, loses the slot to storage and becomes current |
| Station.LoadCargo | src/station/mod.rs:98-107 | as much as storage holds, up to the request and the free cargo, moves into the cargo |
| Station.UnloadCargo | src/station/mod.rs:108-113 | as much as the cargo holds, up to the request, moves into storage; no ship, no change |
| Station.LoadConserves | src/station/mod.rs:98-107 | no more than the request and the free cargo move; what leaves storage enters the cargo, barring saturation |
| Station.UnloadConserves | src/station/mod.rs:108-113 | no more than requested moves; what leaves the cargo enters storage, barring saturation |
| Station.RepairShip | src/station/mod.rs:50-58 | the current ship, if any, gets the maximum collateral |
| Station.AddModule | src/station/mod.rs:71-82 | an error exactly when the refit is invalid; with the module stored it is taken and fitted at the end of its slot list; without it nothing changes |
| Station.TakeSold | src/station/mod.rs:125-132 | an error exactly when too few items are stored; otherwise exactly the amount leaves storage |
| Station.EnterSite | src/station/mod.rs:59-70 | the ship is appended to the station site's entities and the player is located there; a missing entity list fails and changes nothing |
| Station.PlaceBuy | src/station/mod.rs:114-124 | with enough paperclips they are paid and the order is journaled; otherwise an error and nothing changes |
| Station.DoInstruction | src/station/mod.rs:35-147 | an error exactly in the four failing cases, changing nothing; otherwise the instruction is performed: each arm's effect on the assets, written back clamped; only undock, buy and sell touch locations and entities, paperclips or the market |
| Station.DoInstructions | src/station/mod.rs:14-33 | a player not docked gets an error and nothing changes; otherwise the instructions are performed in order at the player's station, each on the state the previous one left; the run is an error exactly when an instruction fails, stops there and keeps the state it failed on; other stations' assets are untouched; a successful run leaves the collateral clamped |

## Left out

- Logging (`println!`, `eprintln!`) is not modelled; it has no effect on state.
- Persistence I/O is not modelled. The station handler's persisted records are one `Persist`
  value. A missing record reads as its default, and a failed entity read is the one error.
  The write errors of the YAML store are left out.
- The code of `src/round/effect.rs` (`apply_to_origin`, `apply_to_target`) is not part of
  this model. Neither is the typings crate: `min_layout`, `is_alive`, `Status::DEAD`,
  `Cargo::free`/`add`, the storage operations, `filter_possible`, the derived instruction
  `Ord`, `maximum_collateral`, `Fitting::is_valid`, `Ship::default`, `switch_ship`,
  `to_order`, `total_paperclips`, `SiteLogActor::from`, the static tables and
  `Info::generate_*`. All are parameters in `Typings`.
- `site_instructions::sort`, which `src/round/mod.rs` calls, is not part of this model;
  `RoundMod.Advance` takes it as a parameter.
- The stargate site-name parse is an abstract partial function. Where the source would panic
  on a bad name, the model requires that the name parses.
- `HashMap` iteration order is not modelled. Map loops take any order and report it; results
  are stated for every order.
- Panics on `expect` are left out. Each is a `requires` saying that the expected entry exists.
- The sort is modelled as a stable insertion sort, not the merge sort in `std`. Both produce
  the same sequence for a total preorder.
- The market is a journal of the orders placed. Matching orders is not part of the handler.
- Item and entity records keep only the fields the core reads.
- `MathRound.ApplyAt` and `MathRound.ApplyCollected`: `src/math/round.rs` calls a
  two-argument `apply_to_status(status, &effects)`, while `src/math/effect.rs` defines a
  three-argument one. The one called is not part of this model, so the effects' action on a
  status is the parameter `Typings.applyToStatus` and is not tied to `Effect.ApplyToStatus`.
- `NpcInstructions.OrdersAimAtFirstPlayer`: the target is stated only for sites of at most
  256 entities. Beyond that, the `as u8` casts keep the low 8 bits, which `PirateOrders`
  states.
- `Station.LoadConserves` and `Station.UnloadConserves`: conservation is stated only when
  the receiving amount does not saturate at `u32::MAX`. Beyond that the saturating add loses
  items, as the source does.
