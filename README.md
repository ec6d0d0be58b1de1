# Magic Garden economy engine in Dafny

This project models the economy engine of the Magic Garden farming game, a
React game with a 12 x 12 field. The player:

- buys seeds in a shop whose stock is redrawn every minute;
- plants them on grid cells, where they ripen after a growth time that the
  Fertilizer upgrade shortens;
- harvests mature crops for coins, scaled by the prestige multiplier and the
  Marketing upgrade;
- buys upgrades at geometrically rising prices;
- trades coins for prestige with a rebirth, which raises the multiplier and
  starts the farm over.

The model follows the program's own structure.

- `types.dfy` (module `Types`): the enumerations and record shapes. These
  are the 20 seed kinds, 4 upgrades, 5 rarity tiers, the catalog records,
  a grid cell with its validity predicate, and the `GameState` snapshot.
- `constants.dfy` (module `Constants`): the grid size, the restock interval,
  the first rebirth price, and the seed and upgrade catalogs as functions.
  Lemmas cover the catalog's orderings and bounds.
- `utils.dfy` (module `Utils`): the rebirth potential and the shop restock
  allocator. The allocator is a method building the stock map with loops,
  proved against the `Allocates` specification.
- `growth.dfy` (module `Growth`): the per-cell growth state machine as pure
  functions on cells and grids. It also holds the tick as the source writes
  it; see Findings.
- `economy.dfy` (module `Economy`): every handler as a transition function
  from one `GameState` to the next. Each comes with the invariant it
  preserves and lemmas stating its exact effect.
- `app.dfy` (module `App`): the game component as `class Farm`.
  - Its fields are the component's state variables, and the grid is a
    144-cell `array` updated in place.
  - Each handler method is proved to move the snapshot `State()` exactly as
    the corresponding `Economy` transition does, and to keep `Valid()`.

Two things that the program reads from its environment become parameters:

- The clock (`Date.now()`) becomes `now`.
- Each `Math.random()` result becomes a real in [0, 1). The shuffled pool
  becomes any ordering of the 18 non-priority seed kinds (`IsShuffledPool`),
  which is proved to be the same as any permutation of the pool.

Fractional constants are exact rationals (`real`), and `Math.floor` is
`.Floor`. The integer forms of the growth test and of the payout are proved
as lemmas:

- `(now - plantedAt) * (10 + level) >= growthTimeMs * 10`;
- `floor(baseSell * multiplier * (5 + level) / 5)`.

## Model

| member | source | states |
|---|---|---|
| Types.AllSeedTypes | types.ts:1-22 | `Object.values(SeedType)`: exactly 20 kinds, each occurring once, and every kind among them |
| Types.AllUpgradeTypes | types.ts:24-29 | `Object.values(UpgradeType)`: exactly 4 upgrades, each once, every upgrade among them |
| Types.Rank | types.ts:31-37 | the tiers are ordered Common < Uncommon < Rare < Epic < Legendary, each at its own position |
| Types.SeedIndex | types.ts:1-22 | every seed kind has one position in declaration order, and that position holds it |
| Types.PositionOf | types.ts:1-22 | the kind at position i of the declaration order has index i |
| Types.EmptyCell | App.tsx:447-454 | a freshly made cell keeps its id, holds no seed, is not mature and satisfies the cell invariant |
| Constants.ConfigurationFacts | constants.ts:3-7 | the grid has 144 cells; the first rebirth price is positive; Fertilizer adds 0.10 and Marketing 0.20 per level; Tractor has no effect; level caps are 10, 20, 5 and 1 |
| Constants.Upgrade | constants.ts:18-55 | `UPGRADES[u].id == u`; every price curve starts positive and grows by a factor above 1 and by at least one coin per level; caps are at least 1 |
| Constants.Seed | constants.ts:58-88 | `SEEDS[t].id == t`; every seed sells for strictly more than it costs; every growth time is positive |
| Constants.CostsIncrease | constants.ts:58-88 | in declaration order, base costs strictly increase between any two kinds |
| Constants.SellValuesIncrease | constants.ts:58-88 | in declaration order, sell values strictly increase |
| Constants.GrowthTimesIncrease | constants.ts:58-88 | in declaration order, growth times strictly increase |
| Constants.RarityNeverDecreases | constants.ts:58-88 | in declaration order, rarity never goes down |
| Constants.IncreasingFromSteps | constants.ts:58-88 | a column that increases between neighbours increases between any two positions (the induction behind the four ordering lemmas) |
| Utils.RebirthPotential | utils.ts:44-47 | 0 whenever coins are below the price; otherwise the number r >= 1 with r * cost <= coins < (r + 1) * cost |
| Utils.RebirthPotentialExamples | utils.ts:44-47 | (120, 50) buys 2 rebirths and (0, 50) buys none |
| Utils.Without | utils.ts:26 | the `filter`: exactly the elements of the list that are not excluded, and no repeats when the list has none |
| Utils.Pool | utils.ts:25-26 | the pool is the 18 kinds other than Wheat and Lettuce, each once |
| Utils.PoolSize | utils.ts:26 | filtering the two priority kinds out of the 20 leaves exactly 18 |
| Utils.ShuffledPoolIsPermutation | utils.ts:31 | an ordering of the pool in the model's sense is exactly a permutation (same multiset) of the pool |
| Utils.ShuffledPoolCovers | utils.ts:31 | an ordering of the pool (eighteen different non-priority kinds) holds every non-priority kind and nothing else |
| Utils.OrderingIsPermutation | utils.ts:31 | an ordering of the pool has the pool's multiset |
| Utils.PermutationIsOrdering | utils.ts:31 | a sequence with the pool's multiset is an ordering of the pool |
| Utils.RandomSlots | utils.ts:29 | `floor(random * 4) + 4` is between 4 and 7 |
| Utils.Quantity | utils.ts:38 | `floor(random * 21) + 10` is between 10 and 30 |
| Utils.Selection | utils.ts:32-34 | the offered kinds are Wheat and Lettuce, then `slots` further kinds from the pool; all distinct, none of the extras a priority kind |
| Utils.AllocationShape | utils.ts:19-41 | after an allocation every quantity is 0 or in [10, 30]; Wheat and Lettuce are in [10, 30]; exactly the offered kinds are in stock, as many as were offered |
| Utils.ZeroEach | utils.ts:20 | the `forEach` that zeroes each listed key: listed keys become 0, all other entries are kept |
| Utils.Allot | utils.ts:36-39 | the `forEach` that gives the i-th offered kind the i-th drawn quantity, leaving every other kind at 0 |
| Utils.GenerateStock | utils.ts:18-42 | the restock map has an entry for every kind and allocates the selection; quantities are 0 or in [10, 30]; both priority seeds are in [10, 30]; exactly 2 + slots kinds are in stock |
| Growth.GrowthDue | App.tsx:494-495 | the due test: a planting whose full unboosted growth time has elapsed is always due, and one with a positive growth time is never due at or before its planting time |
| Growth.GrowthSpeedBonus | App.tsx:461-463 | `1 + fertLvl * 0.10` is at least 1 and equals (10 + level) / 10 |
| Growth.GrowthDueInIntegers | App.tsx:494-495 | the due test `now - plantedAt >= growthTime / bonus` holds exactly when `(now - plantedAt) * (10 + level) >= growthTime * 10` |
| Growth.TickCell | App.tsx:490-499 | one cell's tick changes nothing but the maturity flag; it never clears the flag; it keeps the cell invariant |
| Growth.TickGrid | App.tsx:490 | the tick maps every cell independently and keeps the grid's length |
| Growth.TickMaturesExactlyDueCells | App.tsx:491-497 | the flag is raised exactly on planted, not yet mature, due cells; every other cell is returned unchanged |
| Growth.TickIdempotent | App.tsx:488-502 | two ticks at the same `now` equal one |
| Growth.DueMonotonic | App.tsx:494-495 | once due, a planting stays due at any later time and any higher Fertilizer level |
| Growth.TickMonotonic | App.tsx:488-502 | a cell matured by a tick is matured by any later tick or one with more Fertilizer |
| Growth.TickKeepsCellsValid | App.tsx:488-502 | the tick keeps every cell at its position and valid |
| Growth.WheatScenario | App.tsx:488-502 | Wheat planted at 1 is growing at 2000 and mature at 2001; with Fertilizer 3 it is growing at 1538 and mature at 1540 |
| Growth.WheatPlantedAtZero | App.tsx:488-502 | with the intended guard, Wheat planted at 0 is growing at 1999 and mature at 2000 |
| Growth.TickCellAsWritten | App.tsx:491 | the tick with the source's falsy test agrees with `TickCell` except at planting time 0, where it leaves the cell alone |
| Growth.PlantedAtZeroNeverMatures | App.tsx:491 | under the tick as written, Wheat planted at 0 never matures, while the intended tick matures it from 2000 on |
| Economy.Invariant | types.ts:59-75 | what every reachable snapshot satisfies: coins non-negative, multiplier at least 1, price at least 50, total non-negative count maps, levels within their caps, 144 valid cells at their positions |
| Economy.InvariantConsequences | types.ts:59-75 | in every state satisfying the invariant the rebirth price is positive and every mature cell has a planting time |
| Economy.Level | App.tsx:460-461 | `upgrades[type] \|\| 0` is the stored level, between 0 and the cap |
| Economy.NoSeeds | App.tsx:437-439 | the initial inventory has every kind at 0 |
| Economy.NoUpgrades | App.tsx:443-445 | the initial levels have every upgrade at 0 |
| Economy.EmptyGrid | App.tsx:447-454 | 144 valid cells numbered by position, none planted or mature |
| Economy.Initial | App.tsx:430-457 | the starting snapshot (20 coins, multiplier 1, price 50, nothing owned, empty grid, restock one interval away) satisfies the invariant |
| Economy.CanBuySeed | App.tsx:507 | the guard of `handleBuy`: enough coins for the base price and at least one unit in stock; `Economy.BuySeedEffect` shows a purchase happens exactly when it holds |
| Economy.BuySeed | App.tsx:504-515 | a seed purchase keeps the invariant: coins, stock and inventory never go negative |
| Economy.BuySeedEffect | App.tsx:504-515 | the state changes iff coins >= price and stock > 0; one unit moves from shop to inventory for exactly its price; other kinds, the grid, the upgrades and the prestige values are untouched |
| Economy.BuySeedScenario | App.tsx:507 | 4 coins cannot buy a seed priced 5; an empty stock cannot be bought from; 5 coins buy one, leaving 0 |
| Economy.SelectAfterBuy | App.tsx:511-513 | a present selection is kept; the selection changes only to the bought kind, only on a successful purchase of a kind not owned before; with nothing selected, such a purchase does select the bought kind |
| Economy.UpgradeCost | App.tsx:520 | `floor(baseCost * multiplier^level)` is never below the base price |
| Economy.UpgradeCostIncreases | App.tsx:520 | each level costs strictly more than the previous one |
| Economy.UpgradeCostStrictlyMonotonic | App.tsx:520 | prices rise strictly between any two levels |
| Economy.CanBuyUpgrade | App.tsx:521 | the guard of `handleBuyUpgrade`: enough coins for the next level's price and the level below its cap; `Economy.BuyUpgradeEffect` shows a purchase happens exactly when it holds |
| Economy.BuyUpgrade | App.tsx:517-526 | an upgrade purchase keeps every level between 0 and its cap and coins non-negative |
| Economy.BuyUpgradeEffect | App.tsx:517-526 | the state changes iff it is affordable and below the cap; the level rises by exactly 1 for exactly its price; at the cap nothing changes; other upgrades, the seeds, the stock, the grid, the prestige values and the restock time are untouched |
| Economy.GrowthTick | App.tsx:488-502 | the tick changes only the grid, as `TickGrid` at the live Fertilizer level, and keeps the invariant |
| Economy.GrowthTickIdempotent | App.tsx:488-502 | two growth ticks at the same time are one |
| Economy.MarketingBonus | App.tsx:460-462 | `1 + mktLvl * 0.20` is at least 1 and equals (5 + level) / 5 |
| Economy.Payout | App.tsx:536 | a harvest pays at least the sell value times the multiplier |
| Economy.PayoutInIntegers | App.tsx:536 | `floor(baseSell * multiplier * bonus)` equals `baseSell * multiplier * (5 + level) / 5` in whole numbers |
| Economy.PayoutExamples | App.tsx:536 | Wheat pays 7; with two Marketing levels 9; with multiplier 3 as well, 29 |
| Economy.Interact | App.tsx:529-579 | an interaction keeps the invariant, including every cell's |
| Economy.HarvestEffect | App.tsx:534-541 | harvesting a mature cell adds exactly the payout and empties that cell in the same step; other cells, seeds, stock, upgrades, prestige values and the restock time are untouched |
| Economy.PlantEffect | App.tsx:564-578 | an empty cell changes iff a seed is selected and owned; then one unit leaves the inventory and the cell holds that seed, planted now, not mature; coins, stock, upgrades, prestige values, the restock time and other cells are untouched |
| Economy.GrowingCellUnaffected | App.tsx:534-566 | interacting with a growing cell changes nothing |
| Economy.CosmeticUpgradesInert | App.tsx:460-463 | Scarecrow and Tractor levels change neither the growth tick nor harvest and planting |
| Economy.ClearGrid | App.tsx:591 | every cell emptied, position kept |
| Economy.StarterInventory | App.tsx:587-592 | after a rebirth the inventory is one Wheat and 0 of every other kind |
| Economy.Rebirth | App.tsx:581-596 | a rebirth keeps the invariant and never lowers the multiplier or the price |
| Economy.RebirthEffect | App.tsx:581-596 | no rebirth is bought iff coins < price, and then nothing changes. Otherwise, with b bought: multiplier +b, price +floor(b / 2), coins 0, every level 0, one Wheat and nothing else, every cell empty. Shop and restock time never change |
| Economy.RebirthExample | App.tsx:581-596 | 120 coins at price 50: multiplier +2, price 51, coins 0 |
| Economy.Bankrupt | App.tsx:776 | the bankruptcy test (no coins, no seeds, nothing planted); a bankrupt state cannot afford any rebirth |
| Economy.BankruptRebirthIsNoOp | App.tsx:776-786 | the rebirth offered on the bankruptcy screen changes nothing |
| Economy.SecondsLeft | App.tsx:476 | `ceil((next - now) / 1000)` is the whole number s with (s - 1) * 1000 < next - now <= s * 1000 |
| Economy.RestockDueWhenTimeReached | App.tsx:476-477 | the countdown is at most 0 exactly when `now >= nextRestockTime` |
| Economy.Restock | App.tsx:473-486 | when due the whole stock is replaced and the next restock is `now + 60000`; otherwise nothing changes; nothing else ever changes; the invariant holds |
| App.Step | App.tsx:616-638 | a cursor step stays on the grid; each direction moves one row or column over unless the cursor is on that edge, where it stays put; horizontal steps keep the row, vertical steps keep the column |
| App.ClearCells | App.tsx:591 | empties every cell of the grid array in place |
| App.NewGrid | App.tsx:447-454 | the `Array.from` setup gives a new array holding `EmptyGrid()`: 144 empty cells numbered by position |
| App.EmptyCounts | App.tsx:437-445 | the two `forEach` initialisations give the empty inventory and empty levels |
| App.DrawStock | utils.ts:18-42 | a restock draw is a valid count map that allocates the selection |
| App.Farm.constructor | App.tsx:430-458 | the component starts in `Initial(now, stock)` with the first stock drawn, the cursor on cell 0, Wheat selected, and a 60-second countdown |
| App.Farm.BuySeed | App.tsx:504-515 | `handleBuy` moves the snapshot as `Economy.BuySeed`, keeps `Valid()`, and updates the selection as `SelectAfterBuy` |
| App.Farm.Purchase | App.tsx:504-515 | the purchase on the fields: pay, move one unit, select when nothing is selected and none was owned; otherwise nothing |
| App.Farm.BuyUpgrade | App.tsx:517-526 | `handleBuyUpgrade` moves the snapshot as `Economy.BuyUpgrade` and keeps `Valid()` |
| App.Farm.GrowthTick | App.tsx:488-502 | the tick rewrites the grid array in place cell by cell, ending at `Economy.GrowthTick` |
| App.Farm.Interact | App.tsx:529-579 | `handleCellInteract` moves the cursor to the cell and the snapshot as `Economy.Interact` with the current selection |
| App.Farm.Rebirth | App.tsx:581-596 | `handleRebirth` moves the snapshot as `Economy.Rebirth`; the cursor goes to 0 when a rebirth was bought and stays otherwise |
| App.Farm.Prestige | App.tsx:584-593 | an affordable rebirth as an update of the snapshot: new multiplier and price, coins 0, starter inventory, no upgrades, cleared grid |
| App.Farm.Promote | App.tsx:584-593 | the multiplier, price, coins and cursor updates of a rebirth |
| App.Farm.ResetProgress | App.tsx:587-592 | the in-place zeroing of seeds and upgrades, the grid clear and the one granted Wheat |
| App.Farm.RestockTick | App.tsx:473-486 | the timer moves the snapshot as `Economy.Restock`; when due, the new stock allocates the draws and the countdown shows 60; otherwise the countdown shows the seconds left |
| App.Farm.Countdown | App.tsx:476-483 | the timer's branch on its own fields: new stock and deadline, or the countdown alone |
| App.Farm.Select | App.tsx:774 | the seed bar selects the given kind |
| App.Farm.Move | App.tsx:616-638 | a movement key moves the cursor as `Step` |

## Left out

- Rendering (all SVG and JSX), Tailwind colours, seed and upgrade names and
  descriptions: presentation only.
- Toasts and their removal timers: UI feedback only, no effect on game state.
- Timers and React scheduling. `setInterval`, `useEffect` and `Date.now()`
  are replaced by handlers called with `now`. Each handler is one atomic
  step, so React's batching of state updates is not modelled.
- The redundant `setInventory` in `handleCellInteract`
  (App.tsx:551-562) returns its input in both branches, so it is a no-op
  and is omitted.
- `formatNumber` (utils.ts:3-16): string formatting of floats.
- The randomness itself. `Math.random` draws and the biased
  `sort(() => 0.5 - Math.random())` shuffle are parameters constrained to
  their ranges; their distributions are not modelled.
- IEEE-754 rounding. 0.10, 0.20 and 2.5 are exact rationals, so the model's
  floors can differ from the program's where a float product lands just
  below a whole number.
- Precision of large amounts. The program keeps coins, the multiplier, the
  rebirth price and payouts in doubles, which are exact only up to 2^53.
  The model's integers are unbounded. The two diverge once amounts grow
  that large, and a long game can get there: a rebirth at about 2 * 10^12
  coins buys a multiplier of about 4 * 10^10, and one Gemfruit harvest then
  pays more than 10^20 coins.
- The per-cell progress percentage (App.tsx:359-374): display only. The
  maturity flag set by the growth tick is what the game uses.
- Keyboard hotkey parsing (App.tsx:599-613, 642-650). The seed-number keys
  and the key-to-direction mapping are not modelled; the seed bar's
  selection is `App.Farm.Select` and a resolved direction is
  `App.Farm.Move`.
- `TOTAL_SHOP_STOCK` (constants.ts:6) is declared but never read.
- Utils.Without: its contract does not state that the filter keeps the list order. The pool's order is never used, because every ordering of it is a valid shuffle (`Utils.ShuffledPoolIsPermutation`).
- In-place mutation of the rendered state. `handleRebirth` zeroes
  `inventory` and `upgrades` in place before copying them
  (App.tsx:587-590). The model zeroes its own fields, so the aliasing with
  React's previous state is not modelled.
- The free reset on the bankruptcy screen. The button is labelled
  `RENASCER (GRÁTIS)`, "rebirth (free)" (App.tsx:784), which suggests a
  fresh game. In the code it calls `handleRebirth`, which at 0
  coins buys nothing and changes nothing. The model follows the code;
  `Economy.BankruptRebirthIsNoOp` states the outcome.
- The auto-select branch of `handleBuy` (App.tsx:511-513) can never fire.
  The selection starts as Wheat, and every later selection names a kind,
  so it is never empty. The branch is modelled, and `SelectAfterBuy` shows
  that a present selection is kept.
- `App.Farm.Interact` requires `0 <= cellId < 144`. The program indexes the
  grid with the id, and its callers are the cells themselves and the
  bounded cursor.

## Findings

| source | as written | input that shows it | evidently intended | confidence | as-written member | corrected member |
|---|---|---|---|---|---|---|
| App.tsx:491 | the growth tick skips a cell when `!cell.plantedAt`, which is also true for the timestamp 0 | Wheat planted at time 0, no Fertilizer, any `now` >= 2000: never marked mature | skip only when no planting time is recorded (`plantedAt === null`) | not executed; unreachable with a real clock, whose timestamps are far above 0 | Growth.TickCellAsWritten, Growth.PlantedAtZeroNeverMatures | Growth.TickCell, Growth.WheatPlantedAtZero |
