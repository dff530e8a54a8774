# A verified model of the game rules of the DontStarve web game

This project models the game-rule engine inside `class Game` of `game.js`.
The game is a browser survival game on an infinite grid. The player gathers resources, crafts tools and
buildings, plants pinecones and keeps their health, hunger and sanity up. Day turns to dusk and night.
At night, nightlings, and on every fifth day a blood-moon boss wolf, come for them, and the dark itself
hurts.

The model keeps the engine's own state and its own steps:

- **Clock:** `time`, `day`, `isBloodMoon` and `darknessTimer`.
- **Player:** position, facing, vitals, inventory and tools.
- **World:** the entity array, the `gridOccupied` set, the `chunks` registry and the base marker.
- **Achievements:** the counters, the `unlocked_*` flags, and the popup with `isPaused` and
  `pendingAchievements`.

`World.Game` is a class with these fields. Its methods change them as the source does:

- `isGridAreaOccupied`, `occupyGridArea` and `freeGridArea` are nested loops over a rectangle.
- `loadChunksAroundPlayer` is a double loop over the 5 x 5 chunk block.
- `generateChunk` and `respawnResources` are loops of explicit spawns.
- `update` runs the `forEach` over the entity array, which removes entities by `splice` while it
  iterates.

`gather`, `plantSapling`, `craft`, `eat`, `checkAchievements` and `closeAchievementPopup` are also
methods of the class. Each method's contract ties the new state to a function of the old one. The
properties the game promises are proved about those functions, in these modules:

| module | file | what it holds |
|---|---|---|
| `Units` | units.dfy | fixed-point units. Life, fuel and stats are whole thousandths, so each fractional rate of the source (0.025 fuel, 0.015 hunger, 0.08 sanity, ...) is one whole step. |
| `Geometry` | geometry.dfy | `worldToGrid`, `gridToWorld`, `worldToChunk` and the footprint centre. |
| `Keys` | keys.dfy | the `"x,y"` string keys of the occupancy set and the chunk registry. The keys are proved injective, so the class keys both by the pair itself. |
| `Entities` | entities.dfy | the entity record and the `spawnEntity` tables. Also the tick's array queries: counts, the arrow's `findIndex`, `checkNearFire` and the tower's nearest-target search. |
| `Occupancy` | occupancy.dfy | footprints, and the world-grid invariant they keep. Also the explicit-position `spawnEntity` as a function. |
| `Clock` | clock.dfy | `getCycle`, the day rollover, the blood-moon machine and the nightling cap. |
| `Timers` | timers.dfy | the attack, darkness and tower-reload timers, with their firing periods. |
| `Items` | items.dfy | inventory, tools and vitals, and the pure rules of `gather`, `craft` and `eat`. |
| `Achievements` | achievements.dfy | the unlock machine and the popup queue. |
| `Respawn` | respawn.dfy | the refresh arithmetic of `respawnResources`. |
| `Survival` | survival.dfy | hunger, sanity, the darkness attack and health on one tick. |
| `Behaviours` | behaviours.dfy | each entity's turn in the tick loop, and the loop itself, as functions. |
| `Save` | save.dfy | the merge rule of `loadGame` over parsed JSON values. |
| `World` | game.dfy | the `Game` class and the lemmas that connect its methods to the functions above. |

Randomness and floating point are inputs to the model:

- `TickInput` holds what the source draws or computes in floating point on one tick: the step length,
  chunk offsets, the nightling roll, spawn positions, steering, tower range and aim.
- The chance draws of `gather` are a `bonus` flag.
- Knock-back positions are a parameter.

Positions are whole pixels. Distance checks `hypot(...) < r` are compared as squared integers.

### Behaviours of the code worth knowing

The model does what `game.js` does, including these behaviours:

- **A sapling never becomes a tree.** A grown sapling is spliced out at game.js:635, but its cell is
  never freed. The `spawnEntity('tree', ...)` at game.js:637 then finds that cell occupied inside its own
  2 x 2 square and places nothing. The comments at game.js:636-637 say the tree is meant to take the
  sapling's place on the same cell. `Behaviours.SaplingNeverGrows` proves that no tree is placed for any
  grown sapling.
- **Felling frees one cell.** A felled tree frees only the cell `worldToGrid(e.x, e.y)` (game.js:965-966),
  not its whole 2 x 2 footprint. The other three cells stay occupied. The invariant `Occupancy.GridOk`
  allows extra occupied cells for this reason.
- **Durability is spent on the finishing blow only.** Axe and pickaxe durability goes down by 2 only on
  the blow that fells the tree or breaks the rock (game.js:972, game.js:992), although the comment at
  game.js:971 speaks of a cost for every chop. So a fresh tree costs the axe 2 over its four chops
  (`Items.TreeFallsOnFourthChop`). The spear wears by 1 on every blow against a boss wolf and by 5 on
  the killing one, and by 1 on the killing blow only against a nightling (game.js:884-900, game.js:917-924). Durability
  can fall below 0; the tool's flag is then cleared.
- **Building is not transactional.** Materials are deducted before `spawnEntity` runs
  (game.js:1067-1102). A structure whose cells are taken is still paid for. It is still counted towards
  `builtCampfires` or `builtTowers`, and a bed still moves the base marker.
- **Removal during iteration skips an entity.** `splice` inside `forEach` shifts the rest of the array.
  The entity that moves into a removed index does not get its turn that tick
  (`Behaviours.RemovalSkipsNext`). An arrow that kills a creature standing before it in the array
  removes the entity behind itself, not itself (`Behaviours.KillBehindRemovesNext`).
- **A second unlock batch replaces the queue.** `checkAchievements` replaces `pendingAchievements` only
  when more than one badge unlocks. With exactly one, the old queue is kept (`Achievements.Announce`).
- **Two different clocks in one tick.** Darkness, sanity and the blood moon use the cycle read before
  the day rollover. Nightlings and boss wolves leave when `getCycle()` is not night, and the entity loop
  calls it after the rollover (game.js:684, game.js:697).

## Model

| member | source | states |
|---|---|---|
| Geometry.WorldToGrid | game.js:264-269 | the cell returned is the one whose 50-pixel span holds the position on each axis (floor division, negative positions included) |
| Geometry.GridToWorld | game.js:271-276 | the position returned is the cell's corner plus half a tile on each axis |
| Geometry.FootprintCentre | game.js:466-476 | a 1 x 1 entity is placed at its cell's centre, and a 2 x 2 one at the corner its four cells share |
| Geometry.WorldToChunk | game.js:279-284 | the chunk returned is the one whose 1000-pixel span holds the position on each axis |
| Geometry.GridRoundTrip | game.js:264-276 | for every cell, worldToGrid(gridToWorld(g)) == g |
| Geometry.CentreCell | game.js:466-476 | the centre of a footprint lies in its bottom-right cell |
| Geometry.ChunkOfCell | game.js:264-284 | a position's chunk is its cell's chunk, so chunks are made of whole cells |
| Keys.NatToString | game.js:286-292 | a natural number prints as a non-empty run of digits with no leading zero |
| Keys.IntToString | game.js:286-292 | an integer prints as non-empty text without a comma, starting with '-' exactly when it is negative |
| Keys.Key | game.js:286-292 | a key starts with the first number's text, followed by the comma |
| Keys.ParseNatToString | game.js:286-292 | reading back the digits of n gives n |
| Keys.IntRoundTrip | game.js:286-292 | reading back the text of any integer gives that integer |
| Keys.KeyRoundTrip | game.js:286-292 | parsing a key gives back both integers it was built from |
| Keys.KeyInjective | game.js:286-292 | two keys are equal exactly when their cells are, so a set of keys is a set of cells |
| Entities.Size | game.js:405-414 | the footprint side is 2 exactly for trees and towers, and 1 otherwise |
| Entities.InitialLife | game.js:481-484 | initial life is 1000 for a boss wolf, 60 for a nightling, 350 for a tower and 100 for anything else |
| Entities.NewEntity | game.js:486-497 | a pushed entity has its kind and position, full life from the hp table and zero timers; a tower gets range 320 and attack 35 |
| Entities.NewArrow | game.js:727-743 | an arrow starts at the tower with the given velocity, lives 120 ticks and hurts by `atk`, or 35 when `atk` is missing or 0 |
| Entities.CountExtremes | game.js:772-778 | a kind's count is 0 exactly when no entity has that kind, and is the array's length exactly when all have it |
| Entities.CountAppend | game.js:486 | a push adds one to the count of its own kind and changes no other count |
| Entities.RemoveAt | game.js:748 | `splice(i, 1)` keeps the elements before i, shifts the ones after i down by one, and removes nothing when i is past the end |
| Entities.CountRemoveAt | game.js:748 | a splice lowers the count of the removed entity's kind by one and changes no other count |
| Entities.FirstHit | game.js:750 | the arrow's `findIndex` gives the first hostile creature within 16 pixels; there is none exactly when no creature is that close |
| Entities.NearFire | game.js:1833-1840 | the player is lit exactly when some campfire, within 2.5 times its fuel, or some tower, within 180 pixels, is near them |
| Entities.NearestFromSpec | game.js:701-713 | the search over the rest of the array keeps what it found so far: it ends at a nearest creature in range, the first among equally near ones |
| Entities.NearestSpec | game.js:701-713 | a tower picks nothing exactly when no hostile creature is strictly inside its range; otherwise it picks one that is nearest, and the first of those |
| Entities.NearestTarget | game.js:701-713 | the tower's loop over `targets` computes exactly that choice |
| Entities.TowerRange | game.js:705 | a tower's base range is `e.range`, or 320 when the range is missing or 0 |
| Occupancy.Area | game.js:360-399 | the cell set of a w x h rectangle is exactly the cells inside it |
| Occupancy.PlacedFootprint | game.js:466-477 | an entity placed at the centre of the square it claimed has exactly that square as its footprint |
| Occupancy.AnchorInFootprint | game.js:965-966 | the one cell freed on removal lies inside the removed entity's own footprint |
| Occupancy.SpawnKeepsGridOk | game.js:477-497 | spawning onto free cells keeps every footprint occupied and keeps footprints disjoint |
| Occupancy.RemoveKeepsGridOk | game.js:941-967 | removing an entity and freeing a cell of its own footprint keeps the invariant |
| Occupancy.DropKeepsGridOk | game.js:635 | removing an entity without freeing anything keeps the invariant |
| Occupancy.ReplaceKeepsGridOk | game.js:622 | an in-place update that keeps the footprint keeps the invariant |
| Occupancy.AppendFreeKeepsGridOk | game.js:743 | pushing an arrow or a creature, which claims no cell, keeps the invariant |
| Occupancy.Spawned | game.js:457-497 | defined as the explicit-position `spawnEntity` on the entity array and the occupancy set; `Occupancy.SpawnedSpec` and `Occupancy.SpawnedKeepsGridOk` state its meaning |
| Occupancy.SpawnedSpec | game.js:457-497 | an explicit spawn changes nothing, or appends exactly one entity with the hp table's life and claims its whole free footprint; a grid-bound kind is placed exactly when its square is free, and other kinds always are |
| Occupancy.SpawnedKeepsGridOk | game.js:457-497 | an explicit spawn keeps the world-grid invariant |
| Clock.GetCycle | game.js:1682 | the cycle is day below 3600, dusk from 3600 to below 4680, and night from 4680 |
| Clock.CycleMonotone | game.js:1682 | within a day the cycle only moves forward |
| Clock.Advance | game.js:566-568 | a tick adds one to the time; at 7200 the time becomes 0 and the day goes up by exactly one |
| Clock.RunDays | game.js:566-568 | after n ticks the clock reads (time + n) mod 7200 and the day has gone up by (time + n) / 7200: no day is skipped or counted twice |
| Clock.BloodMoon | game.js:554-564 | the flag is up exactly on a night tick of a day divisible by 5; a boss spawns exactly when the flag goes up from down |
| Clock.OneBossPerBloodMoon | game.js:554-564 | a blood-moon night spawns exactly one boss however long it lasts, or none if the flag was already up |
| Clock.NoBossOffCycle | game.js:554-564 | no boss ever spawns on a day not divisible by 5 |
| Clock.MaxNightlings | game.js:546 | defined as `min(1 + floor(day / 4), 5)`; `Clock.NightlingCapRange` and `Clock.MaxNightlingsMonotone` state its meaning |
| Clock.NightlingCapRange | game.js:546 | the nightling cap is between 1 and 5, and it is 5 exactly from day 16 |
| Clock.MaxNightlingsMonotone | game.js:546 | the nightling cap never falls as days pass |
| Timers.Strike | game.js:680-683 | a timer fires exactly when it has reached its wait, and then reads 0; otherwise it counts up by one |
| Timers.StrikeRunCount | game.js:680-683 | over n ticks a timer fires once every wait + 1 ticks: strikes * (wait + 1) + final == start + n |
| Timers.Darkness | game.js:585-605 | the darkness timer counts only unlit night ticks, and is 0 on any other tick |
| Timers.FirstStrike | game.js:593-598 | from a reset timer the first strike comes on tick wait + 1 and not before, so darkness first hurts on the 91st unlit tick |
| Timers.Reload | game.js:700-744 | a tower shoots exactly when it has a target and its cooldown is at most 1; a shot sets the cooldown to 25, and otherwise the cooldown counts down to 0 |
| Timers.ReloadRunCount | game.js:700-744 | a tower that always has a target fires once every 25 ticks |
| Timers.FreshTowerShots | game.js:495 | a new tower (cooldown 0) that always has a target fires on its first tick, and ceil(n / 25) times in n ticks |
| Items.Minus | game.js:1041-1113 | paying a covered, non-negative cost leaves no count negative and no count higher |
| Items.Weapon | game.js:849-867 | the blow uses the spear, else the axe, else the pickaxe, whichever is usable first; a tool is usable only with its flag set and durability above 0 |
| Items.Damage | game.js:849-867 | damage is 30 with the spear, 10 with an axe or pickaxe, and 5 bare-handed |
| Items.Wear | game.js:971-976 | wearing lowers only that tool's durability, by the cost, and clears its flag exactly when durability reaches 0 or less |
| Items.WearSpear | game.js:884-900 | the spear wears only when it struck the blow |
| Items.Refuel | game.js:1010-1015 | refuelling uses wood (+40), else grass (+15), else a twig (+10), capped at 100; it takes exactly one of the fuel used, and does nothing without fuel |
| Items.Gather | game.js:844-1018 | no count goes negative and the tool invariant is kept; only refuelling takes from the inventory; durability is spent only on a felling or breaking blow or a spear blow; pick-ups are always removed, and trees and rocks only once their life is gone |
| Items.GatherLife | game.js:869-995 | a creature loses the weapon's damage and dies exactly at 0 life or less; a tree or rock loses 25 to its tool and falls exactly at 0 or less; without the tool nothing changes |
| Items.GatherPays | game.js:869-1015 | a boss wolf's death pays a big meat and 2 gold, a nightling's or rabbit's a meat, each pick-up one of its item, a tree 3 wood, a pinecone and a twig on the draw, a rock 2 stone, a flint and a gold on the draw; a blow that removes nothing pays nothing; a campfire is refuelled |
| Items.GatherWear | game.js:884-995 | a felled tree costs the axe 2 and a broken rock the pickaxe 2; a spear blow at a boss wolf costs 1, or 5 when it kills; a nightling kill costs the spear 1; nothing else wears a tool |
| Items.HitsStep | game.js:844-1018 | one more gather after n that removed nothing is one gather on what the n left |
| Items.RockBreaksOnFourthHit | game.js:983-1008 | with a usable pickaxe, a fresh rock stands after three gathers and breaks on the fourth, giving 2 stone and a flint and wearing the pickaxe by 2 in all |
| Items.SpearBlows | game.js:869-900 | n spear blows at a boss wolf that survives them take 30 life and 1 durability each and pay nothing |
| Items.BossWolfFallsOn34thBlow | game.js:869-900 | a fresh boss wolf has 10 life left after 33 spear blows and dies on the 34th, paying a big meat and 2 gold; the spear loses 38 in all |
| Items.TreeFallsOnFourthChop | game.js:961-981 | with a usable axe, a fresh tree stands after three gathers and falls on the fourth, giving 3 wood and a pinecone and wearing the axe by 2 in all |
| Items.TreeNeedsAxe | game.js:962 | without a usable axe, gathering a tree changes nothing |
| Items.Builds | game.js:1066-1102 | every structure a recipe places is grid-bound |
| Items.Craft | game.js:1036-1115 | a covered recipe is paid in full and a tool recipe equips its tool (axe and pickaxe 30, spear 100); an uncovered recipe changes nothing; no count goes negative |
| Items.Eat | game.js:1117-1123 | with the food, one is eaten and the stats rise by its amounts, capped at 100; without it nothing changes; the stats never fall |
| Achievements.NewlyFrom | game.js:2051-2106 | the scan lists a badge exactly when it is still to be scanned, its counter has reached the threshold and its flag is down |
| Achievements.Newly | game.js:2051-2106 | one check unlocks exactly the badges whose threshold is reached and whose flag is down |
| Achievements.NewlyFromDistinct | game.js:2051-2106 | a scan over distinct badges lists no badge twice |
| Achievements.NewlyDistinct | game.js:2051-2106 | one check never lists a badge twice |
| Achievements.Announce | game.js:2109-2121 | with unlocks, the game pauses and shows the first; more than one replaces the pending queue with the rest; with none nothing changes |
| Achievements.Check | game.js:2046-2125 | flags end up raised exactly for badges already raised or reached; none is lowered; the game is paused exactly when it was or something unlocked; a new popup shows a badge that was not raised before |
| Achievements.CheckIdempotent | game.js:2046-2125 | a second check with the same counters unlocks nothing and changes nothing |
| Achievements.FreshCheck | game.js:72-95 | the constructor's check on a fresh game unlocks nothing and shows nothing |
| Achievements.NothingLeft | game.js:2051-2106 | when every reached badge is raised, a check unlocks nothing |
| Achievements.ReachedStays | game.js:2051-2106 | as counters only grow, a reached badge stays reached |
| Achievements.Survivor3Once | game.js:2051-2054 | the first check that sees maxDays >= 3 raises and shows Survivor3, and no later check announces it again |
| Achievements.Close | game.js:2142-2158 | closing shows the next pending badge and stays paused; with none left it resumes the game and empties the popup |
| Achievements.CloseDrains | game.js:2142-2158 | successive closes show the queue in order, one badge each, and the close after the last resumes the game |
| Achievements.CheckThenCloseAll | game.js:2109-2158 | from a resumed game, the badges one check unlocks are all shown, in scan order, each once, and then the game resumes |
| Respawn.RefreshCount | game.js:812-814 | the refresh count is the least whole number at least 3/10 of the shortfall below both target and cap, and 0 when there is none |
| Respawn.RefreshWithinShortfall | game.js:812-814 | a refresh never takes a kind past its target, and a kind short of its target always gets at least one try |
| Survival.Survive | game.js:579-611 | hunger drains by 0.015 or 0.005; the darkness timer runs only unlit at night; sanity drains unlit at night or dusk and recovers otherwise; health falls only by a darkness strike or empty hunger or sanity; the bars stay in range |
| Survival.LightIsSafe | game.js:579-611 | a lit player with food and sanity left is never struck and loses no health, however many ticks pass |
| Survival.DarknessStrikesOn91st | game.js:585-598 | from a reset timer, an unlit night first strikes on its 91st tick |
| Survival.DarkRun | game.js:585-598 | a run of unlit night ticks counts up without striking until it passes 90 |
| Behaviours.Burn | game.js:620-628 | defined as a campfire's turn: fuel down 0.025, and at 0 or less the campfire is spliced out and its cell freed; `Behaviours.BurnsDown` and `Behaviours.GoesOut` state its meaning |
| Behaviours.Grow | game.js:630-639 | defined as a sapling's turn: the growth timer counts up, and past 1200 the sapling is spliced out and a tree spawned in its place; `Behaviours.SaplingNeverGrows` and `Behaviours.GrowCounts` state its meaning |
| Behaviours.Roam | game.js:640-672 | defined as a rabbit's turn: it steps to where the steering input says; `Behaviours.StepAtKeeps` states that this keeps the invariant |
| Behaviours.Hunt | game.js:673-698 | defined as a nightling's or boss wolf's turn: its attack timer runs while the player is within reach, a strike takes the bite from health, and outside the night it is spliced out; `Behaviours.HuntKeeps` and `Behaviours.HuntCounts` state its meaning |
| Behaviours.Guard | game.js:699-746 | defined as a tower's turn: it reloads and, with a creature in range, appends an arrow aimed at the nearest one; `Behaviours.GuardKeeps`, `Behaviours.GuardCounts`, `Timers.Reload` and `Entities.NearestSpec` state its meaning |
| Behaviours.Fly | game.js:747-760 | defined as an arrow's turn: its time to live drops, at 0 it is spliced out, otherwise it moves and lands; `Behaviours.FlyMoves`, `Behaviours.FliesOn` and `Behaviours.ArrowExpires` state its meaning |
| Behaviours.Land | game.js:750-760 | defined as the arrow's `findIndex` for the first creature it hits, wounding it when there is one; `Behaviours.LandKeeps` states its meaning |
| Behaviours.Wound | game.js:751-759 | defined as the hit: the creature loses the arrow's damage, a kill splices it out and loots it, and then index i is spliced out; `Behaviours.KillBehindRemovesNext` and `Behaviours.KillAheadRemovesArrow` state its meaning |
| Behaviours.StepAt | game.js:620-761 | defined as the dispatch of one entity's turn on its kind; `Behaviours.StepAtKeeps` and `Behaviours.StepAtCounts` state its meaning |
| Behaviours.Visit | game.js:619-761 | defined as the `forEach` from index i on, skipping an index the shrunken array no longer reaches; `Behaviours.VisitKeeps` and `Behaviours.VisitCounts` state its meaning |
| Behaviours.Turns | game.js:619-761 | defined as the whole `forEach` of one tick; `Behaviours.RemovalSkipsNext` and `World.Game.UpdateEntities` state its meaning |
| Behaviours.Loot | game.js:754-757 | a tower's kill pays a meat for a nightling, or a big meat and 2 gold for a boss wolf, and takes nothing |
| Behaviours.FlyMoves | game.js:748-749 | an arrow with time left first moves by its velocity and then lands |
| Behaviours.StepAtKeeps | game.js:620-761 | one entity's turn keeps the world-grid invariant and a non-negative inventory, never heals the player and never takes from the inventory |
| Behaviours.HuntKeeps | game.js:673-698 | a nightling's or boss wolf's turn keeps the invariant, only hurts, and leaves the inventory alone |
| Behaviours.GuardKeeps | game.js:699-746 | a tower's turn keeps the invariant and changes neither health nor inventory |
| Behaviours.FlyKeeps | game.js:747-760 | an arrow's turn keeps the invariant and never lowers the inventory |
| Behaviours.FlightKeeps | game.js:748-760 | a moved arrow's landing keeps the invariant |
| Behaviours.LandKeeps | game.js:750-760 | an arrow's hit keeps the invariant and only adds loot |
| Behaviours.WoundKeeps | game.js:751-759 | wounding or killing a creature and removing the arrow's index keeps the invariant |
| Behaviours.VisitKeeps | game.js:620-761 | the whole loop keeps the invariant and a non-negative inventory, never heals the player and never takes from the inventory |
| Behaviours.StepAtCounts | game.js:620-761 | one turn makes no entity but an arrow or a tree: no other kind's count goes up |
| Behaviours.GrowCounts | game.js:630-639 | a sapling's turn adds at most a tree |
| Behaviours.HuntCounts | game.js:673-698 | a creature's turn never adds an entity |
| Behaviours.GuardCounts | game.js:699-746 | a tower's turn adds at most an arrow |
| Behaviours.FlyCounts | game.js:747-760 | an arrow's turn never adds an entity |
| Behaviours.WoundCounts | game.js:751-759 | a hit never adds an entity |
| Behaviours.VisitCounts | game.js:620-761 | the whole loop adds no creature, campfire or resource other than a tree |
| Behaviours.SaplingNeverGrows | game.js:630-639 | a grown sapling is only removed: its cell stays occupied and no tree is placed |
| Behaviours.KillBehindRemovesNext | game.js:750-759 | an arrow killing a creature before it in the array removes the creature and the entity behind the arrow, and the arrow stays |
| Behaviours.KillAheadRemovesArrow | game.js:750-759 | an arrow killing a creature after it removes exactly the creature and itself |
| Behaviours.RemovalSkipsNext | game.js:620-629 | of two campfires going out on one tick, only the first is removed; the second moves into its index and skips its turn |
| Behaviours.RemoveReplaced | game.js:625 | splicing out an entry that was just updated in place is splicing out the old entry |
| Behaviours.BurnsDown | game.js:620-621 | while its fuel lasts, a campfire loses 0.025 a turn and nothing else changes |
| Behaviours.GoesOut | game.js:620-627 | a campfire with fuel f goes out on its turn number ceil(f / 0.025): it is removed, the cell under it is freed, and nothing else changes |
| Behaviours.FreshCampfireLasts4000Turns | game.js:620-627 | a fresh campfire (fuel 100) still burns at 0.025 after 3999 turns and goes out on its 4000th |
| Behaviours.PathShift | game.js:749 | one step and then k more is k + 1 steps of the arrow's velocity |
| Behaviours.FirstHitIgnores | game.js:750 | replacing a non-hostile entry, such as the arrow itself, never changes what the arrow hits |
| Behaviours.FlyClear | game.js:747-750 | an arrow with time left that hits nothing at its next position just moves there |
| Behaviours.ClearShift | game.js:749-750 | what is clear for the arrow at its (k + 1)-th position is clear for the moved arrow at its k-th |
| Behaviours.FliesOn | game.js:747-750 | an arrow that hits nothing flies one velocity a turn for each of its first n turns, n below its time to live, and nothing else changes |
| Behaviours.ArrowExpires | game.js:747-749 | an arrow that hits nothing is removed on its turn number ttl, and nothing else changes |
| Behaviours.FreshArrowLasts120Turns | game.js:727-749 | a tower's fresh arrow that hits nothing has moved 119 times after 119 turns and is removed on its 120th |
| Save.Fields | game.js:2209-2224 | spreading an object copies its fields; null, a boolean or a number copies nothing |
| Save.Get | game.js:2212-2222 | reading a property gives its value, or null when it is missing |
| Save.Spread | game.js:2209-2224 | `{...a, ...b}` has the fields of both, takes b's value where b has the field, and a's value otherwise |
| Save.Merge | game.js:2209-2224 | defined as the spread of the snapshot over the current state, with achievements, player and tools spread one level deeper; `Save.MergeTop`, `Save.MergePlayer` and `Save.LoadCompleteSnapshot` state its meaning |
| Save.MergeTop | game.js:2209-2215 | a merged state has every field of both plus achievements and player; the saved value wins; a field the save lacks keeps its default; the counters are merged one by one |
| Save.MergePlayer | game.js:2216-2223 | the player is merged field by field, and its tools field by field inside it |
| Save.Load | game.js:2203-2232 | no save, an unparsable save or a null save starts a fresh world; any other parsed save is merged over the current state |
| Save.SpreadOverAll | game.js:2209-2224 | spreading over an object that has all the fields gives that object's fields |
| Save.LoadCompleteSnapshot | game.js:2203-2224 | loading a complete snapshot restores exactly that snapshot |
| Save.MissingCounterTakesDefault | game.js:2212-2215 | a save written before a counter existed loads with that counter at its default, and keeps its own counters |
| World.RefreshBounded | game.js:806-831 | a dawn refresh leaves every kind at most at its target, or at its earlier count if that was higher |
| World.Tally | game.js:869-1008 | the counters each check inside `gather` sees only grow; a rock with the gold draw checks twice, and everything else at most once |
| World.CheckAllRaises | game.js:998-1007 | over growing counters, a run of checks raises exactly the badges the last counters reach |
| World.Struck | game.js:869-908 | a struck entity that stays keeps its kind and footprint; only creatures are knocked back |
| World.TalliedSpec | game.js:1066-1085 | after payment, only a campfire or a tower is counted, by one, and checked; nothing else changes the counters or the flags |
| World.BasedSpec | game.js:1086-1108 | a bed always sets the base 60 pixels right of the player; a beacon does so only when there is no base; nothing else touches the marker |
| World.Game.IsGridAreaOccupied | game.js:360-369 | the result is true exactly when some cell of the rectangle is occupied |
| World.Game.OccupyGridArea | game.js:377-384 | exactly the cells of the rectangle are added to the set |
| World.Game.FreeGridArea | game.js:392-399 | exactly the cells of the rectangle are removed from the set |
| World.Game.FreeGrid | game.js:386-389 | exactly one cell is removed from the set |
| World.Game.SpawnAt | game.js:401-498 | the array and the set become the explicit spawn of `Occupancy.Spawned`, which keeps the world-grid invariant; `placed` says whether an entity was appended |
| World.Game.SpawnMany | game.js:343-351 | n spawns of one kind only append entities of that kind, at most n of them, and keep the invariant |
| World.Game.GenerateChunk | game.js:322-352 | a chunk adds only the kinds of its table, at most 8 trees, 5 rocks, 4 bushes, 6 grass, 3 flint, 5 sticks and 1 rabbit, and keeps the invariant |
| World.Game.LoadChunk | game.js:310-316 | a chunk is generated unless it is already marked, and is marked afterwards |
| World.Game.LoadColumn | game.js:307-317 | the five chunks of one column are marked, no other mark changes, and nothing is spawned when all five were already marked |
| World.Game.LoadChunksAroundPlayer | game.js:295-319 | all 25 chunks within distance 2 of the player's chunk are marked and no other mark changes; a marked chunk is never generated again, so a second call from the same chunk spawns nothing |
| World.Game.CheckAchievements | game.js:2046-2125 | the flags and the popup become `Achievements.Check` of the counters, and nothing else changes |
| World.Game.CloseAchievementPopup | game.js:2142-2158 | the popup becomes `Achievements.Close` of the old popup |
| World.Game.Gather | game.js:844-1018 | the inventory and tools follow `Items.Gather`; a removed entity is spliced out and frees only its anchor cell; an entity that stays is struck in place; the counters raised by a removal are checked after each raise, in order; the state invariant is kept |
| World.Game.PlantSapling | game.js:1021-1034 | with a pinecone, one is spent, a sapling is spawned 20 pixels below the player, and plantedTrees goes up by one and is checked, even when the cell was taken; without one nothing changes |
| World.Game.Craft | game.js:1036-1115 | the inventory and tools follow `Items.Craft`; a paid building recipe places its structure and settles counters and base whether or not it was placed; an unpaid recipe changes nothing |
| World.Game.Eat | game.js:1117-1123 | the inventory and vitals follow `Items.Eat`; a non-negative inventory and vitals within their bars stay so, and the whole state invariant is kept |
| World.Game.CampfireTurn | game.js:621-629 | a campfire's turn is `Behaviours.Burn` on the world |
| World.Game.SaplingTurn | game.js:630-639 | a sapling's turn is `Behaviours.Grow` on the world |
| World.Game.RabbitTurn | game.js:640-672 | a rabbit's turn is `Behaviours.Roam` on the world |
| World.Game.HunterTurn | game.js:673-698 | a nightling's or boss wolf's turn is `Behaviours.Hunt` on the world, changing only the player's health among the vitals |
| World.Game.TowerTurn | game.js:699-746 | a tower's turn is `Behaviours.Guard` on the world |
| World.Game.ArrowTurn | game.js:747-760 | an arrow's turn is `Behaviours.Fly` on the world |
| World.Game.EntityTurn | game.js:620-761 | the turn of the entity at an index is `Behaviours.StepAt` on the world |
| World.Game.UpdateEntities | game.js:620-761 | the loop's result is `Behaviours.Turns` of the old world; the invariant and a non-negative inventory are kept; health never rises; the inventory never falls; it makes no entity but arrows and trees |
| World.Game.RespawnResources | game.js:766-832 | each refreshed kind gets at most its refresh count, counted before the refresh, and no kind passes its target; only trees, rocks, bushes, grass, flint, sticks and rabbits are added |
| World.Game.Move | game.js:528-531 | each held key moves the player by the step, left and right set the facing (right wins), and `moved` is set exactly when a key is held |
| World.SummonedCounts | game.js:541-564 | appending at most a nightling and then at most a boss wolf raises those two counts by what was appended and no other count |
| World.Game.SpawnCreature | game.js:457-497 | a creature, which claims no cell, is always appended exactly at its position and no cell is claimed |
| World.Game.Summon | game.js:541-564 | the array grows by exactly a nightling when it is night, fewer than the day's cap are about and the draw succeeds, and then by exactly a boss wolf as the blood moon rises; no cell is claimed and no other count moves; the flag follows `Clock.BloodMoon` |
| World.Game.Dawn | game.js:566-574 | the rollover restarts the clock on the next day, counts the day as survived, raises maxDays to the new day, checks the achievements and respawns resources: only resources and rabbits are added, each kind by at most its refresh count and never past its target |
| World.Game.Update | game.js:506-764 | on a clear-weather tick: paused, nothing changes; otherwise the player moves by the held keys and the chunks around them are marked, the clock advances one tick with the rollover, the blood-moon flag follows the cycle of the incremented time, read before the rollover, a day is counted exactly when it ends, only that tick checks the achievements on the new counters (`World.Checked`: flags and popup become `Achievements.Check`), so any other tick lowers no flag, raises none and shows no badge, hunger, sanity and the darkness timer move as `Survival.Survive` says, lit or unlit, and health no higher than it says, nothing is taken from the inventory, the tools, the base marker and the panels never change, and the state invariant is kept |
| World.Game.Dusk | game.js:579-761 | on a clear-weather tick, the bars move as `Survival.Survive` says, lit by the fires around the player before the entities move; then the entities take their turns, `Behaviours.Turns`, from the health that leaves |
| World.Game.Travel | game.js:506-539 | the player moves by the held keys, the chunks around the new position are marked, and only resources and rabbits are added |
| World.Game.Step | game.js:510-761 | an unpaused clear-weather tick changes only the player, the world, the clock and the achievements; the player moves and the chunks around them are marked; the clock advances one tick with the rollover and the day count; the achievements are checked on the new counters exactly when the day ends, and otherwise the flags and the popup stay as they were; the blood-moon flag follows the cycle of the incremented time; hunger, sanity and the darkness timer move as `Survival.Survive` says, lit or unlit, and health no higher than it says; nothing is taken from the inventory; the state invariant is kept |
| World.Game.Daybreak | game.js:510-574 | the first half of a tick: the player moves and the chunks around them are marked, the clock advances with the rollover, the blood-moon flag follows the new cycle, a day is counted exactly when it ends, and only then are the achievements checked on the new counters; any other tick leaves the flags and the popup alone |
| World.Game.Tock | game.js:538-574 | the time goes up by one and the cycle is read from it; the entities become `World.Summoned` of the old ones (a nightling at night under the cap on a successful draw, then a boss wolf as the blood moon rises); a day that has run out rolls over, is counted, checks the achievements and refreshes the resources over the summoned entities (`World.Refreshed`); any other tick leaves the grid, the flags and the popup alone |
| World.Game.Rollover | game.js:566-574 | a time that has reached 7200 starts the next day at time 0, counts the day as survived, checks the achievements on the new counters and refreshes the resources (`World.Refreshed`: only resources and rabbits appended, each kind by at most its refresh count and never past its target); any other time leaves the clock, the counters, the entities, the grid, the flags and the popup alone |
| World.Game.constructor | game.js:42-90 | the initial state: day 1 at time 0, full bars, an empty inventory and no tools, every counter zero, no flag raised and no entity |
| World.Game.Start | game.js:93-95 | without a save, the world is created around the player and checked once: the 5 x 5 block around the player is marked, every other mark keeps its value, only chunk kinds exist, and the flags and popup become `Achievements.Check` of the counters |
| World.Game.InitWorld | game.js:243-261 | the world is cleared, the 5 x 5 block around the player is marked `true` and generated, every other mark keeps its value (`World.Loaded`), so the only entities are trees, rocks, bushes, grass, flint, sticks and rabbits |

## Left out

- Rendering, lighting, particles, the camera and `shakeCamera`, sounds, images, DOM, input handling and
  every UI panel are not modelled. The three panels are one `panelOpen` flag, read by `update`'s pause
  check.
- Log messages are not modelled.
- `showAchievementPopup` is modelled by its effect: it pauses and shows the badge. The model assumes the
  popup elements exist in the page.
- Weather is not modelled: `updateWeather`, `applyWeatherEffects`, the weather speed multipliers, the
  fog range factor and the rabbit's weather behaviour. It is drawn at random and computed in floating
  point. Its effect on movement and on the towers' reach enters as `TickInput.speed` and
  `TickInput.towerRange`. Its other effects are not modelled. On every unpaused tick `update` calls
  `updateWeather` (game.js:577), which ends in `applyWeatherEffects` (game.js:1760, game.js:1783-1832)
  before the hunger drain, `checkNearFire` and the entity loop. That call lowers sanity by 0.04-0.06 in
  rain, 0.03-0.05 in fog and 0.06-0.10 in a thunderstorm, and lowers hunger by 0.02-0.03 in snow. It
  also changes every campfire's fuel: down by 0.04-0.07 in rain and by 0.08-0.13 in a thunderstorm, and
  up by 0.005 times the intensity in snow. The model's tick is therefore a clear-weather tick. In any
  other weather the hunger and sanity equations of `World.Game.Update`, `World.Game.Step` and
  `World.Game.Dusk` do not hold as stated, and a campfire burns down faster or slower than
  `Behaviours.GoesOut` and `Behaviours.FreshCampfireLasts4000Turns` say.
- Floating-point geometry is not modelled: steering with `atan2`/`cos`, knock-back, tower lead
  prediction and spawn angles. These enter as function or position inputs (`steer`, `aim`, `knock`,
  `nightlingAt`, `bossAt`, `respawnAt`, `offset`). Positions are whole pixels. Distances are compared
  as squared integers.
- The velocity and facing that nightlings, boss wolves and rabbits store on themselves are not modelled.
  They feed only drawing and the tower's aim, which is an input.
- Randomness is not modelled. The gather draws are `bonus`, the nightling spawn chance is `nightlingRoll`,
  and chunk and respawn offsets are inputs. The entity `id` and drawing `offset` are not part of the
  entity.
- The random-position branch of `spawnEntity` (game.js:416-456) is not modelled. Nothing in game.js
  calls `spawnEntity` without a position.
- `interact` (game.js:834-842) is not modelled. It finds the nearest entity within 100 pixels by
  floating-point distance. `World.Game.Gather` takes the chosen index directly.
- Death is not modelled: the `alert`, `confirm`, `clearSave` and page reload at health 0 or less
  (game.js:613-617). Health has no lower bound in the model.
- `saveGame`, `localStorage` and JSON text are not modelled. `Save.Load` takes the stored value as
  absent, unparsable or parsed. An empty stored string counts as absent, as in the source.
- Restoring a save inside the class is not modelled. `World.Game.Start` models the path without a save.
  After a restore the source never calls `initWorld`, so `gridOccupied` starts empty for the restored
  entities and the world-grid invariant `Occupancy.GridOk` does not hold. The class invariant `Valid()`
  includes it, so the contracts of the methods that require `Valid()` speak only of a game started
  without a save. `World.Game.Eat` needs only the inventory and vitals parts and holds either way.
- Fractional amounts are exact thousandths in the model. The source keeps them in doubles, where
  0.025, 0.015 and the like are not exact and repeated subtraction accumulates rounding error. The tick
  on which a bar, a campfire's fuel or a creature's life reaches 0 can therefore differ by one between
  the model and the source.
- `Save.Fields`: its contract states only the object and scalar cases. For arrays and strings, the map
  from index text to element is defined but not described by an ensures.
- `World.Game.Update`: its contract does not restate the bounds on entity counts for one tick. Those are
  stated on the methods it calls: `Summon`, `Dawn`, `UpdateEntities`, `LoadChunksAroundPlayer` and
  `RespawnResources`. It leaves open whether the player was lit, because that depends on the entities
  after the tick's spawns; `World.Game.Dusk` names that light exactly.
- `World.Game.Daybreak`: its contract does not relate its entities to the old ones. The chunks it
  loads come first, and their entities are not named in its contract; the summons and the refresh that
  follow are stated exactly by `World.Game.Tock` and `World.Game.Rollover`, which it calls.
- Number widths are not modelled. Counters, timers and positions are unbounded integers. JavaScript
  numbers are doubles, and none of these values comes near 2^53 in play.
- `train_agent.py` is not part of this model. It is browser automation and reinforcement-learning
  training, not game logic.
