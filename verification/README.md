# The thing-update simulation of the ppl farming game, in Dafny

This project models the core of the terminal farming game `ppl-game`. That core is the tick-driven simulation in which blocks and inventory items change state, composed with the turn controller that moves the player.

- **Merge step** (`Things`). A `PartialBlockState` is a sparse override of a block's position, collision and symbol. `MergeWith` is the only way a placed block's state changes.
- **Behaviours.**
  - `Blocks` holds the update record a behaviour returns.
  - `Wheat` is the wheat countdown.
  - `Bread` is the Baking→Normal loaf.
  - `Registry` is the closed set of block behaviours, as a tagged union: the inert default block and wheat.
- **Map container** (`Maps`). It covers lookup by exact position (`find_at`, `find_at_mut`) and the two-phase random tick. The tick merges each sampled block's own delta first and queues deltas for other cells; it then applies the queued deltas in emission order and drops those whose target cell is vacant. `interact_at` is modelled too.
- **Turn controller** (`Game`).
  - A move is clamped to `(0,0)..(29,11)` and rejected when the target cell holds an impassable block.
  - An accepted move runs one random tick over the blocks and then the items.
  - Interacting uses the block under the player without a tick.
- **Lore panel** (`Lore`). This covers the inventory and items toggles, the countdown of custom content, the nine-per-page item window, and the lines of both views.
- **Initial state.** `Farm` holds the initial farm layout; `Players` holds the initial player and inventory.

Randomness is an explicit input. Each tick takes one roll in `0..100` per block, in map order, and then one per inventory item. A thing is updated iff its roll is below 15. Everything is a pure function over immutable datatypes.

The source tree holds files from several revisions. This model uses one consistent shape:
- the block and item state types of `things.rs`;
- the map orchestration of `map.rs`, whose tick and interaction take no inventory argument, although `game.rs:199` and `game.rs:265` pass one;
- the behaviours of `wheat.rs` and `bread.rs`;
- one `wheat` and one `water` counter on the player, as `game.rs:69-77` reads them. `PlayerInventory` keeps only the ordered item list that `game.rs` ticks and pages through.

The harvest credits exactly 10 wheat, sets the countdown to 4 and appends no item (`wheat.rs:42-52`).

The reachable-state invariant `Game.Inv` holds for the initial game (`Game.NewGameInv`) and is preserved by every action (`Game.DoActionInv`). It says:
- the player stays on the map and off the water;
- the farm keeps its ten cells in order;
- water never changes;
- every wheat field's collision and symbol agree with its countdown, which stays in `0..=4`;
- every loaf's baking counter stays in `0..=3`.

## Model

| member | source | states |
|---|---|---|
| Things.MergeWith | ppl-game/src/things.rs:94-104 | each present field of the partial state overwrites the matching field; each absent field keeps the old value |
| Things.MergeNoChange | ppl-game/src/things.rs:94-104 | merging the all-absent partial state leaves a block state unchanged |
| Things.MergeIdempotent | ppl-game/src/things.rs:94-104 | merging the same partial state twice gives the same state as merging it once |
| Things.MergeCompose | ppl-game/src/things.rs:94-104 | two merges in a row equal one merge of the composed delta, so the later write wins per field |
| Things.MergeExample | ppl-game/src/things.rs:78-93 | the documented example: `{ty: Wheat}` merged into growing wheat at (1,1) gives wheat, still at (1,1) |
| Things.NewBread | ppl-game/src/assets/items/bread.rs:21-26 | a new loaf is `Baking { tick: 0 }` with the default (Common) tier, inside the valid range |
| Registry.NewBlockData | ppl-game/src/things.rs:126-131 | a new block holds exactly the given position, collision, symbol and behaviour |
| Blocks.NoUpdatesChangeNothing | ppl-game/src/assets/blocks/mod.rs:8-14 | the default updates have an all-absent own delta, which changes no state, and no deltas for other cells |
| Registry.UpdateBlock | ppl-game/src/assets/blocks/mod.rs:20-22 | the default update is a no-op. No behaviour's update moves its block, addresses another block or makes a block impassable, and each keeps its private state in range |
| Registry.InteractBlock | ppl-game/src/assets/blocks/mod.rs:24-26 | the default interact is a no-op that leaves the player alone. No behaviour's interact moves a block, addresses another block or makes one impassable |
| Registry.InertNeverChanges | ppl-game/src/assets/blocks/mod.rs:20-26 | a block with only the default behaviour never changes its own state, any other block or the player |
| Registry.RunUpdateConsistent | ppl-game/src/assets/blocks/wheat.rs:18-36 | after an update merged into its block, a wheat block's looks still follow its countdown and its position is unchanged |
| Registry.RunInteractConsistent | ppl-game/src/assets/blocks/wheat.rs:38-53 | after an interaction merged into its block, a wheat block's looks still follow its countdown and its position is unchanged |
| Wheat.New | ppl-game/src/assets/blocks/wheat.rs:12-14 | a new wheat has countdown 0 (ripe) |
| Wheat.Update | ppl-game/src/assets/blocks/wheat.rs:18-36 | at 0 an update is a no-op. Otherwise it lowers the countdown by exactly 1 and emits `{ty: Wheat, collision: CanUse}` iff the new count is 0. It never sets a position or addresses others, and keeps the countdown in 0..=4 |
| Wheat.Interact | ppl-game/src/assets/blocks/wheat.rs:38-53 | on ripe wheat an interaction credits exactly 10 wheat, sets the countdown to 4 and emits `{collision: NoCollision, ty: GrowingWheat}`; on growing wheat it changes nothing |
| Wheat.Countdown | ppl-game/src/assets/blocks/wheat.rs:18-36 | n updates from countdown t leave `max(t-n, 0)`; the only one that emits anything is the update that reaches 0, and it emits the ripening delta |
| Wheat.HarvestCycle | ppl-game/src/assets/blocks/wheat.rs:18-53 | harvest credits 10 wheat and an immediate second use is a no-op. The next 3 updates emit nothing and the 4th restores `Wheat`/`CanUse` |
| Bread.Update | ppl-game/src/assets/items/bread.rs:37-47 | `Baking{t}` with t < 3 becomes `Baking{t+1}`, `Baking{3}` becomes `Normal{123}`, `Normal` is terminal, and the 0..=3 range is kept |
| Bread.NameTracksStage | ppl-game/src/assets/items/bread.rs:30-35 | the name is "Bread" exactly for finished loaves and "Baking bread" exactly for baking ones |
| Bread.NormalIsTerminal | ppl-game/src/assets/items/bread.rs:44 | any number of updates leaves a finished loaf unchanged |
| Bread.BakingTrace | ppl-game/src/assets/items/bread.rs:42-43 | n updates from `Baking{t}` give `Baking{t+n}` while t+n ≤ 3 and `Normal{123}` after that |
| Bread.FreshBreadBakesInFourUpdates | ppl-game/src/assets/items/bread.rs:10-12 | a fresh loaf is `Baking{3}` after 3 updates and `Normal{123}` after 4 or more |
| Players.New | ppl-game/src/player.rs:17-25 | a new player has 10 health, 1 xp, 0 gold, and no wheat or water |
| Players.DefaultInventory | ppl-game/src/player.rs:28-34 | the default inventory holds no items |
| Farm.Init | ppl-game/src/assets/maps/farm.rs:9-23 | the farm has 10 blocks at pairwise distinct positions: ripe usable wheat at (1..=5, 1), then impassable inert water at (1..=5, 2) |
| Maps.Init | ppl-game/src/map.rs:20-25 | the initial maps have the farm current, laid out by the farm initializer |
| Maps.GetCurrent | ppl-game/src/map.rs:28-32 | the current block list is the farm's when the farm is the current map |
| Maps.SetCurrent | ppl-game/src/map.rs:34-38 | writing the current block list replaces exactly what `GetCurrent` returns, and keeps the map selector |
| Maps.FindIndex | ppl-game/src/map.rs:45-49 | `find_at_mut` finds no index iff no block stands at the position; otherwise it finds the first index whose block does |
| Maps.FindAt | ppl-game/src/map.rs:41-43 | `find_at` returns nothing iff the position is vacant; otherwise it returns the first block at that position in map order |
| Maps.ApplyOther | ppl-game/src/map.rs:74-79 | an addressed delta is merged into the first block at its target and changes nothing else; with a vacant target it is dropped with no change |
| Maps.ApplyOthers | ppl-game/src/map.rs:74-79 | applying addressed deltas keeps the block count and every behaviour; deltas that set no position move no block |
| Maps.ApplyOthersAppend | ppl-game/src/map.rs:74-79 | deltas are applied in emission order: applying `d1 + d2` is applying `d1` and then `d2` |
| Maps.ApplyOthersToVacant | ppl-game/src/map.rs:74-79 | deltas whose targets are all vacant leave the blocks exactly as they were |
| Maps.SampleBlocks | ppl-game/src/map.rs:56-69 | in phase one a block runs `update`, with its own delta merged at once, iff its roll is below 15. A block with roll ≥ 15 keeps state and behaviour. The closed behaviour set queues no deltas for other cells |
| Maps.DoRandomTick | ppl-game/src/map.rs:52-81 | every block becomes its updated-and-merged self iff its roll is below 15. No block is added, removed or moved, and behaviour states stay in range |
| Maps.InteractAt | ppl-game/src/map.rs:84-99 | at a vacant position nothing changes. Otherwise only the first block there becomes its interacted-and-merged self and the player gets the behaviour's effect. The block count and every position are kept |
| Lore.ToggleInventory | ppl-game/src/game.rs:119-124 | the panel shows nothing iff it showed the inventory, and shows the inventory iff it did not |
| Lore.ToggleItems | ppl-game/src/game.rs:127-132 | the panel always shows items afterwards. From another state that is page 0; otherwise the page goes up by one, saturating at 255 |
| Lore.ItemsPaging | ppl-game/src/game.rs:127-132 | n presses from page p show page `min(p+n, 255)` |
| Lore.DrawLore | ppl-game/src/game.rs:62-64 | `Custom(v)` with v > 0 becomes `Custom(v-1)`; every other state is kept |
| Lore.CustomCountdown | ppl-game/src/game.rs:62-64 | n redraws turn `Custom(v)` into `Custom(max(v-n, 0))` |
| Lore.Page | ppl-game/src/game.rs:90-97 | page p lists at most 9 entries: items `p*9 ..` while they exist, numbered from `p*9+1` |
| Lore.ItemOnItsPage | ppl-game/src/game.rs:90-97 | item i is listed on page `i/9` at row `i%9` as number i+1, and on no other page |
| Lore.ItemsView | ppl-game/src/game.rs:83-111 | the items view is headed with page number `page + 1`, and each line carries the item's number and name, and a tier suffix iff the tier is not Common |
| Lore.InventoryView | ppl-game/src/game.rs:65-82 | the inventory view has a heading. A wheat line appears iff the player has wheat, and a water line iff the player has water; the water count is shown only above one bucket |
| Game.New | ppl-game/src/game.rs:167-178 | a new game starts at (0,0) with an empty panel, a new player, an empty inventory and the initial farm |
| Game.ItemTick | ppl-game/src/game.rs:136-148 | item i is updated iff its roll is below 15, and the list keeps its order and length |
| Game.ItemTickValid | ppl-game/src/game.rs:136-148 | the item tick keeps every loaf's baking counter in 0..=3 and never changes an item's tier |
| Game.DoRandomTick | ppl-game/src/game.rs:197-201 | a full tick updates (and merges) exactly the blocks whose roll is below 15, then updates exactly the items whose roll is below 15, leaving the others as they were; it changes neither the player, the position, the panel nor the current map, and keeps the counts of blocks and items |
| Game.Target | ppl-game/src/game.rs:232-238 | a move steps one cell in its direction unless that would cross `MAX_POINT` (29,11) or the zero edge; the target stays on the map |
| Game.DoAction | ppl-game/src/game.rs:226-274 | moves are characterised case by case. A move off the map or into a `Collision` block changes nothing. Any other move goes to the neighbour and runs exactly one tick. Interact keeps position, inventory and panel and delegates to `interact_at` |
| Game.MoveAtEdge | ppl-game/src/game.rs:233-237 | MoveUp at y=0, MoveLeft at x=0, MoveDown at y=11 and MoveRight at x=29 change nothing |
| Game.FarmLookup | ppl-game/src/assets/maps/farm.rs:10-22 | on a farm-shaped map every one of the ten cells finds its own block, every other cell is vacant, and a cell is impassable iff it is water |
| Game.FarmFitsTheMap | ppl-game/src/assets/maps/farm.rs:10-22 | every farm block lies inside `MAX_POINT`, and none is at the start cell (0,0) |
| Game.NewGameInv | ppl-game/src/game.rs:167-178 | the initial game satisfies the reachable-state invariant |
| Game.TickKeepsFarmShape | ppl-game/src/map.rs:52-81 | a random tick keeps the farm's cells, its water, and wheat looks in step with their countdowns |
| Game.InteractKeepsFarmShape | ppl-game/src/map.rs:84-99 | an interaction keeps the farm's cells, its water, and wheat looks in step with their countdowns |
| Game.DoActionInv | ppl-game/src/game.rs:226-274 | every action preserves the invariant: the player stays on the map and off the water, the farm keeps its shape, and wheat and bread counters stay in range |
| Game.WaterStopsThePlayer | ppl-game/src/game.rs:239-249 | in every reachable state, moving down from a wheat field into the water is rejected |
| Game.HarvestInGame | ppl-game/src/game.rs:264-271 | on a ripe field "[can use]" is shown. Interact credits 10 wheat and makes the field passable growing wheat that is no longer usable, and a second interact changes nothing |

## Left out

- Drawing, cursor placement, colours and text formatting. `redraw_all`, `draw_player_info`, the output side of `draw_lore` and `update_status_if_needed`, and the cell redraws inside both ticks are terminal output. Only the state changes are modelled, plus the abstract lines of the two panel views and the "[can use]" predicate.
- Display errors (`UI::Error`): display operations are treated as infallible and absent.
- The random source: `thread_rng()` becomes explicit roll sequences. `Game.DoAction` therefore asks for one roll per block and per item even for an interaction, which draws none.
- Determinism under a fixed random source is not stated as a lemma. Every operation is a function of its inputs and rolls, so it holds by construction.
- Players.New: the `u32` counters are unbounded naturals, so the overflow of `wheat += 10` after about 429 million harvests is not modelled.
- The key-to-action loop in `ppl-tui/src/main.rs`, the build script and the C probe are process and build I/O.
- Bread's mass suffix, display colour and `meta` text, and the tier suffix text: their definitions are not part of this model. The items view records only whether a suffix is shown.
- `ItemState::default()` is not part of this model; the default tier is taken to be `Common`.
- The `ItemUpdates` value returned by `Bread::update` is discarded by its caller and is not modelled.
- The duplicate `Tier` enum of `assets/items/mod.rs` and the one-arm map dispatch of `assets/maps/mod.rs` add nothing beyond `Things.ItemTier` and `Maps.Init`.
- Bread.Update: the increment of a `Baking` counter of 255 wraps to 0 as in a release build, where a debug build would panic. The counter never leaves 0..=3 from a fresh loaf.
- Game.Target: a step past coordinate 65535 wraps as a release build would. Positions never leave the 30×12 map.
- Lore.ItemOnItsPage: items beyond page 255 (index 2304 and up) cannot be shown, because the page counter saturates. The lemma covers the items that fit.
