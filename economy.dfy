/** The economy engine as transitions on a game snapshot: buying seeds and
    upgrades, the growth tick, interacting with a cell (harvest or plant),
    rebirth and the shop restock. Each handler of the game is one function
    from the state before to the state after; `now` is a parameter. */
module Economy {
  import opened Types
  import opened Constants
  import opened Utils
  import opened Growth

  const InitialCoins: int := 20

  // ---------------------------------------------------------------------
  // The state invariant
  // ---------------------------------------------------------------------

  /** Every seed kind has an entry, and none is negative. */
  predicate CountsValid(m: map<SeedType, int>) {
    forall t: SeedType :: t in m && m[t] >= 0
  }

  /** Every upgrade has a level between 0 and its maximum. */
  predicate LevelsValid(m: map<UpgradeType, int>) {
    forall u: UpgradeType :: u in m && 0 <= m[u] <= Upgrade(u).maxLevel
  }

  /** The grid has its 144 cells, each at its own position and valid. */
  predicate GridValid(grid: seq<CellState>) {
    && |grid| == TotalCells
    && forall i :: 0 <= i < |grid| ==> grid[i].id == i && ValidCell(grid[i])
  }

  /** What every reachable state satisfies. */
  predicate Invariant(g: GameState) {
    && g.coins >= 0
    && g.multiplier >= 1
    && g.rebirthCost >= InitialRebirthCost
    && CountsValid(g.inventory)
    && CountsValid(g.shopStock)
    && LevelsValid(g.upgrades)
    && GridValid(g.grid)
  }

  /** Two consequences of the invariant: the rebirth price is positive, so
      the rebirth division is defined, and every mature cell has a planting
      time. */
  lemma InvariantConsequences(g: GameState)
    requires Invariant(g)
    ensures g.rebirthCost > 0
    ensures forall i :: 0 <= i < |g.grid| && g.grid[i].isMature ==> g.grid[i].plantedAt.Some?
  {
  }

  /** The current level of an upgrade (`upgrades[type] || 0`). */
  function Level(g: GameState, u: UpgradeType): (lvl: int)
    requires Invariant(g)
    ensures 0 <= lvl <= Upgrade(u).maxLevel
    ensures lvl == g.upgrades[u]
  {
    if u in g.upgrades then g.upgrades[u] else 0
  }

  // ---------------------------------------------------------------------
  // The initial state
  // ---------------------------------------------------------------------

  /** No seeds of any kind. */
  function NoSeeds(): (m: map<SeedType, int>)
    ensures CountsValid(m) && forall t: SeedType :: m[t] == 0
  {
    map t | t in AllSeedTypes() :: 0
  }

  /** Every upgrade at level 0. */
  function NoUpgrades(): (m: map<UpgradeType, int>)
    ensures LevelsValid(m) && forall u: UpgradeType :: m[u] == 0
  {
    map u | u in AllUpgradeTypes() :: 0
  }

  /** A count map with every kind at 0 is the empty inventory, and with one
      Wheat added it is the inventory a rebirth leaves. */
  lemma AllZeroIsNoSeeds(m: map<SeedType, int>)
    requires forall t: SeedType :: t in m && m[t] == 0
    ensures m == NoSeeds()
    ensures m[Wheat := 1] == NoSeeds()[Wheat := 1]
  {
  }

  /** A level map with every upgrade at 0 is the initial one. */
  lemma AllZeroIsNoUpgrades(m: map<UpgradeType, int>)
    requires forall u: UpgradeType :: u in m && m[u] == 0
    ensures m == NoUpgrades()
  {
  }

  /** The 144 cells, all empty, numbered by position. */
  function EmptyGrid(): (grid: seq<CellState>)
    ensures GridValid(grid)
    ensures forall i :: 0 <= i < |grid| ==> grid[i].seedId.None? && grid[i].plantedAt.None? && !grid[i].isMature
  {
    seq(TotalCells, i => EmptyCell(i))
  }

  /** The game at start: 20 coins, multiplier 1, the first rebirth price, no
      seeds, no upgrades, an empty grid, the first stock and a restock one
      interval from now. */
  function Initial(now: int, stock: map<SeedType, int>): (g: GameState)
    requires CountsValid(stock)
    ensures Invariant(g)
  {
    GameState(InitialCoins, 1, InitialRebirthCost, NoSeeds(), NoUpgrades(), EmptyGrid(), stock,
              now + ShopRestockIntervalMs)
  }

  // ---------------------------------------------------------------------
  // Buying seeds
  // ---------------------------------------------------------------------

  /** Whether a seed purchase goes through: enough coins and some stock. */
  predicate CanBuySeed(g: GameState, t: SeedType)
    requires Invariant(g)
  {
    g.coins >= Seed(t).baseCost && g.shopStock[t] > 0
  }

  /** `handleBuy`: pay the seed's price, take one unit from the shop and add
      it to the inventory; otherwise nothing happens. */
  function BuySeed(g: GameState, t: SeedType): (r: GameState)
    requires Invariant(g)
    ensures Invariant(r)
  {
    var seed := Seed(t);
    if CanBuySeed(g, t) then
      g.(coins := g.coins - seed.baseCost,
         inventory := g.inventory[t := g.inventory[t] + 1],
         shopStock := g.shopStock[t := g.shopStock[t] - 1])
    else g
  }

  /** A purchase changes the state exactly when it is allowed; it moves one
      unit from the shop to the inventory for exactly its price, and touches
      no other kind, the grid, the upgrades or the prestige values. */
  lemma BuySeedEffect(g: GameState, t: SeedType)
    requires Invariant(g)
    ensures var r := BuySeed(g, t);
      && (r != g <==> CanBuySeed(g, t))
      && r.inventory[t] + r.shopStock[t] == g.inventory[t] + g.shopStock[t]
      && r.coins + Seed(t).baseCost * r.inventory[t] == g.coins + Seed(t).baseCost * g.inventory[t]
      && (CanBuySeed(g, t) ==> r.inventory[t] == g.inventory[t] + 1)
      && (forall k: SeedType :: k != t ==> r.inventory[k] == g.inventory[k] && r.shopStock[k] == g.shopStock[k])
      && r.grid == g.grid && r.upgrades == g.upgrades
      && r.multiplier == g.multiplier && r.rebirthCost == g.rebirthCost
      && r.nextRestockTime == g.nextRestockTime
  {
    var c := Seed(t).baseCost;
    if CanBuySeed(g, t) {
      assert BuySeed(g, t) == g.(coins := g.coins - c,
                                 inventory := g.inventory[t := g.inventory[t] + 1],
                                 shopStock := g.shopStock[t := g.shopStock[t] - 1]);
      assert c * (g.inventory[t] + 1) == c * g.inventory[t] + c;
    } else {
      assert BuySeed(g, t) == g;
    }
  }

  /** A seed priced 5 with one unit left cannot be bought with 4 coins, nor
      with 5 coins when the stock is empty. */
  lemma BuySeedScenario(g: GameState)
    requires Invariant(g)
    ensures g.coins == 4 && g.shopStock[Wheat] == 1 ==> BuySeed(g, Wheat) == g
    ensures g.coins == 5 && g.shopStock[Wheat] == 0 ==> BuySeed(g, Wheat) == g
    ensures g.coins == 5 && g.shopStock[Wheat] == 1 ==> BuySeed(g, Wheat).coins == 0
  {
  }

  /** The selected seed after a purchase: the bought kind becomes selected
      only when the purchase goes through, none was owned before and nothing
      was selected. */
  function SelectAfterBuy(g: GameState, t: SeedType, selected: Option<SeedType>): (s: Option<SeedType>)
    requires Invariant(g)
    ensures selected.Some? ==> s == selected
    ensures s != selected ==> s == Some(t) && CanBuySeed(g, t) && g.inventory[t] == 0
    ensures selected.None? && CanBuySeed(g, t) && g.inventory[t] == 0 ==> s == Some(t)
  {
    if CanBuySeed(g, t) && g.inventory[t] == 0 && selected.None? then Some(t) else selected
  }

  // ---------------------------------------------------------------------
  // Upgrades
  // ---------------------------------------------------------------------

  /** `x` to the power `n`. */
  function Pow(x: real, n: nat): real {
    if n == 0 then 1.0 else x * Pow(x, n - 1)
  }

  /** Powers of a number at least 1 are at least 1. */
  lemma {:induction false} PowAtLeastOne(x: real, n: nat)
    requires x >= 1.0
    ensures Pow(x, n) >= 1.0
  {
    if n > 0 {
      PowAtLeastOne(x, n - 1);
      assert x * Pow(x, n - 1) >= Pow(x, n - 1);
    }
  }

  /** The price of the next level of an upgrade: `floor(baseCost * multiplier^level)`.
      It is never below the base price. */
  function UpgradeCost(u: UpgradeType, level: nat): (cost: int)
    ensures cost >= Upgrade(u).baseCost
  {
    var d := Upgrade(u);
    PowAtLeastOne(d.multiplier, level);
    assert d.baseCost as real * Pow(d.multiplier, level) >= d.baseCost as real;
    (d.baseCost as real * Pow(d.multiplier, level)).Floor
  }

  /** Each level costs strictly more than the one before. */
  lemma UpgradeCostIncreases(u: UpgradeType, level: nat)
    ensures UpgradeCost(u, level) < UpgradeCost(u, level + 1)
  {
    var d := Upgrade(u);
    var b := d.baseCost as real;
    var m := d.multiplier;
    var p := Pow(m, level);
    PowAtLeastOne(m, level);
    assert Pow(m, level + 1) == m * p;
    var x := b * p;
    var y := b * (m * p);
    assert y - x == (b * (m - 1.0)) * p;
    assert (b * (m - 1.0)) * p >= b * (m - 1.0) * 1.0;
    assert y >= x + 1.0;
    assert (x + 1.0).Floor == x.Floor + 1;
  }

  /** Prices keep rising over any number of levels. */
  lemma {:induction false} UpgradeCostStrictlyMonotonic(u: UpgradeType, lo: nat, hi: nat)
    requires lo < hi
    ensures UpgradeCost(u, lo) < UpgradeCost(u, hi)
  {
    UpgradeCostIncreases(u, hi - 1);
    if lo < hi - 1 {
      UpgradeCostStrictlyMonotonic(u, lo, hi - 1);
    }
  }

  /** Whether an upgrade purchase goes through: below the maximum level and
      enough coins for the next level. */
  predicate CanBuyUpgrade(g: GameState, u: UpgradeType)
    requires Invariant(g)
  {
    g.coins >= UpgradeCost(u, Level(g, u)) && Level(g, u) < Upgrade(u).maxLevel
  }

  /** `handleBuyUpgrade`: pay the next level's price and raise the level. */
  function BuyUpgrade(g: GameState, u: UpgradeType): (r: GameState)
    requires Invariant(g)
    ensures Invariant(r)
  {
    var lvl := Level(g, u);
    if CanBuyUpgrade(g, u) then
      g.(coins := g.coins - UpgradeCost(u, lvl), upgrades := g.upgrades[u := lvl + 1])
    else g
  }

  /** An upgrade purchase changes the state exactly when it is allowed, and
      then raises that one level by exactly 1 for exactly its price. At the
      maximum level it never changes anything. */
  lemma BuyUpgradeEffect(g: GameState, u: UpgradeType)
    requires Invariant(g)
    ensures var r := BuyUpgrade(g, u);
      && (r != g <==> CanBuyUpgrade(g, u))
      && (CanBuyUpgrade(g, u) ==>
            r.upgrades[u] == g.upgrades[u] + 1 && r.coins == g.coins - UpgradeCost(u, g.upgrades[u]))
      && (g.upgrades[u] == Upgrade(u).maxLevel ==> r == g)
      && (forall k: UpgradeType :: k != u ==> r.upgrades[k] == g.upgrades[k])
      && r.inventory == g.inventory && r.shopStock == g.shopStock && r.grid == g.grid
      && r.multiplier == g.multiplier && r.rebirthCost == g.rebirthCost
      && r.nextRestockTime == g.nextRestockTime
  {
  }

  // ---------------------------------------------------------------------
  // Growth tick
  // ---------------------------------------------------------------------

  /** The periodic growth check at time `now`, with the Fertilizer level read
      live from the state. Only the grid changes. */
  function GrowthTick(g: GameState, now: int): (r: GameState)
    requires Invariant(g)
    ensures Invariant(r)
    ensures r.grid == TickGrid(g.grid, Level(g, Fertilizer), now)
    ensures r.(grid := g.grid) == g
  {
    TickKeepsCellsValid(g.grid, Level(g, Fertilizer), now);
    g.(grid := TickGrid(g.grid, Level(g, Fertilizer), now))
  }

  /** Two growth ticks at the same time are one. */
  lemma GrowthTickIdempotent(g: GameState, now: int)
    requires Invariant(g)
    ensures GrowthTick(GrowthTick(g, now), now) == GrowthTick(g, now)
  {
    TickIdempotent(g.grid, Level(g, Fertilizer), now);
  }

  // ---------------------------------------------------------------------
  // Harvest and planting
  // ---------------------------------------------------------------------

  /** The sell-value multiplier at a Marketing level: `1 + level * 0.20`. */
  function MarketingBonus(marketingLvl: int): (b: real)
    requires marketingLvl >= 0
    ensures b >= 1.0
    ensures b == (5 + marketingLvl) as real / 5.0
  {
    1.0 + marketingLvl as real * Upgrade(Marketing).effectValue
  }

  /** What harvesting one mature crop of sell value `baseSell` pays:
      `floor(baseSell * multiplier * bonus)`. It is never less than the base
      price times the prestige multiplier. */
  function Payout(baseSell: int, multiplier: int, marketingLvl: int): (p: int)
    requires baseSell > 0 && multiplier >= 1 && marketingLvl >= 0
    ensures p >= baseSell * multiplier >= baseSell
  {
    var base := baseSell * multiplier;
    assert base >= baseSell by { assert baseSell * (multiplier - 1) >= 0; }
    var x := base as real * MarketingBonus(marketingLvl);
    assert x >= base as real by {
      assert x - base as real == base as real * (MarketingBonus(marketingLvl) - 1.0);
    }
    assert x.Floor >= base by {
      assert x.Floor as real > x - 1.0;
    }
    x.Floor
  }

  /** The payout in whole numbers: `floor(baseSell * multiplier * (5 + level) / 5)`. */
  lemma PayoutInIntegers(baseSell: int, multiplier: int, marketingLvl: int)
    requires baseSell > 0 && multiplier >= 1 && marketingLvl >= 0
    ensures Payout(baseSell, multiplier, marketingLvl) == baseSell * multiplier * (5 + marketingLvl) / 5
  {
    var base := baseSell * multiplier;
    var n := base * (5 + marketingLvl);
    var x := base as real * MarketingBonus(marketingLvl);
    assert x == n as real / 5.0;
    var q := n / 5;
    assert n == 5 * q + n % 5;
    assert q as real <= x < (q + 1) as real;
  }

  /** Wheat sells for 7 at multiplier 1; two Marketing levels (+40%) make
      that floor(9.8) = 9, and multiplier 3 makes it floor(29.4) = 29. */
  lemma PayoutExamples()
    ensures Payout(Seed(Wheat).baseSell, 1, 0) == 7
    ensures Payout(Seed(Wheat).baseSell, 1, 2) == 9
    ensures Payout(Seed(Wheat).baseSell, 3, 2) == 29
  {
    PayoutInIntegers(7, 1, 0);
    PayoutInIntegers(7, 1, 2);
    PayoutInIntegers(7, 3, 2);
  }

  /** `handleCellInteract` on the cell at `cellId`: a mature cell is
      harvested (paid and emptied at once); an empty cell is planted with the
      selected seed if one is owned; anything else is left alone. */
  function Interact(g: GameState, cellId: int, selected: Option<SeedType>, now: int): (r: GameState)
    requires Invariant(g) && 0 <= cellId < |g.grid|
    ensures Invariant(r)
  {
    var cell := g.grid[cellId];
    if cell.isMature && cell.seedId.Some? then
      var profit := Payout(Seed(cell.seedId.value).baseSell, g.multiplier, Level(g, Marketing));
      g.(coins := g.coins + profit,
         grid := g.grid[cellId := cell.(seedId := None, plantedAt := None, isMature := false)])
    else if cell.seedId.None? && selected.Some? && g.inventory[selected.value] > 0 then
      var t := selected.value;
      g.(inventory := g.inventory[t := g.inventory[t] - 1],
         grid := g.grid[cellId := cell.(seedId := Some(t), plantedAt := Some(now), isMature := false)])
    else g
  }

  /** Harvesting a mature cell pays exactly the payout and empties that cell
      in the same step; nothing else changes. */
  lemma HarvestEffect(g: GameState, cellId: int, selected: Option<SeedType>, now: int)
    requires Invariant(g) && 0 <= cellId < |g.grid| && g.grid[cellId].isMature
    ensures var r := Interact(g, cellId, selected, now);
      && r.coins == g.coins + Payout(Seed(g.grid[cellId].seedId.value).baseSell, g.multiplier, g.upgrades[Marketing])
      && r.grid[cellId] == EmptyCell(cellId)
      && (forall i :: 0 <= i < |g.grid| && i != cellId ==> r.grid[i] == g.grid[i])
      && r.inventory == g.inventory && r.shopStock == g.shopStock && r.upgrades == g.upgrades
      && r.multiplier == g.multiplier && r.rebirthCost == g.rebirthCost
      && r.nextRestockTime == g.nextRestockTime
  {
  }

  /** An empty cell is planted exactly when a seed is selected and owned: one
      unit leaves the inventory and the cell starts growing now. */
  lemma PlantEffect(g: GameState, cellId: int, selected: Option<SeedType>, now: int)
    requires Invariant(g) && 0 <= cellId < |g.grid| && g.grid[cellId].seedId.None?
    ensures var r := Interact(g, cellId, selected, now);
      && (r != g <==> selected.Some? && g.inventory[selected.value] > 0)
      && (r != g ==>
            && r.inventory == g.inventory[selected.value := g.inventory[selected.value] - 1]
            && r.grid[cellId] == CellState(cellId, selected, Some(now), false))
      && (forall i :: 0 <= i < |g.grid| && i != cellId ==> r.grid[i] == g.grid[i])
      && r.coins == g.coins && r.shopStock == g.shopStock && r.upgrades == g.upgrades
      && r.multiplier == g.multiplier && r.rebirthCost == g.rebirthCost
      && r.nextRestockTime == g.nextRestockTime
  {
  }

  /** A growing cell ignores the interaction. */
  lemma GrowingCellUnaffected(g: GameState, cellId: int, selected: Option<SeedType>, now: int)
    requires Invariant(g) && 0 <= cellId < |g.grid|
    requires g.grid[cellId].seedId.Some? && !g.grid[cellId].isMature
    ensures Interact(g, cellId, selected, now) == g
  {
  }

  /** The Scarecrow and Tractor levels have no numeric effect: two states
      that differ only there tick and pay out alike. */
  lemma CosmeticUpgradesInert(g: GameState, h: GameState, cellId: int, selected: Option<SeedType>, now: int)
    requires Invariant(g) && Invariant(h) && 0 <= cellId < |g.grid|
    requires h == g.(upgrades := h.upgrades)
    requires h.upgrades[Fertilizer] == g.upgrades[Fertilizer] && h.upgrades[Marketing] == g.upgrades[Marketing]
    ensures GrowthTick(h, now) == GrowthTick(g, now).(upgrades := h.upgrades)
    ensures Interact(h, cellId, selected, now) == Interact(g, cellId, selected, now).(upgrades := h.upgrades)
  {
  }

  // ---------------------------------------------------------------------
  // Rebirth
  // ---------------------------------------------------------------------

  /** Every cell emptied, positions kept. */
  function ClearGrid(grid: seq<CellState>): (r: seq<CellState>)
    ensures |r| == |grid|
    ensures forall i :: 0 <= i < |grid| ==> r[i] == EmptyCell(grid[i].id)
  {
    seq(|grid|, i requires 0 <= i < |grid| => grid[i].(seedId := None, plantedAt := None, isMature := false))
  }

  /** The inventory after a rebirth: only one Wheat, to start again with. */
  function StarterInventory(): (m: map<SeedType, int>)
    ensures CountsValid(m)
    ensures m[Wheat] == 1 && forall t: SeedType :: t != Wheat ==> m[t] == 0
  {
    NoSeeds()[Wheat := 1]
  }

  /** `handleRebirth`: when the coins buy at least one rebirth, the
      multiplier grows by that number, the price by half of it (rounded
      down), and coins, seeds, upgrades and the grid start over with one
      Wheat; otherwise nothing happens. */
  function Rebirth(g: GameState): (r: GameState)
    requires Invariant(g)
    ensures Invariant(r)
    ensures r.multiplier >= g.multiplier && r.rebirthCost >= g.rebirthCost
  {
    var buyable := RebirthPotential(g.coins, g.rebirthCost);
    if buyable > 0 then
      GameState(
        0,
        g.multiplier + buyable,
        (g.rebirthCost as real + 0.5 * buyable as real).Floor,
        StarterInventory(),
        NoUpgrades(),
        ClearGrid(g.grid),
        g.shopStock,
        g.nextRestockTime)
    else g
  }

  /** What a rebirth does once affordable, and that below the price it is a
      no-op. The shop and the restock time are never touched. */
  lemma RebirthEffect(g: GameState)
    requires Invariant(g)
    ensures var b := RebirthPotential(g.coins, g.rebirthCost);
      var r := Rebirth(g);
      && (b == 0 <==> g.coins < g.rebirthCost)
      && (b == 0 ==> r == g)
      && (b >= 1 ==>
            && r.multiplier == g.multiplier + b
            && r.rebirthCost == g.rebirthCost + b / 2
            && r.coins == 0
            && (forall u: UpgradeType :: r.upgrades[u] == 0)
            && (forall t: SeedType :: r.inventory[t] == (if t == Wheat then 1 else 0))
            && (forall i :: 0 <= i < |r.grid| ==> r.grid[i] == EmptyCell(i)))
      && r.shopStock == g.shopStock && r.nextRestockTime == g.nextRestockTime
  {
    var b := RebirthPotential(g.coins, g.rebirthCost);
    if b >= 1 {
      var q := b / 2;
      assert b == 2 * q + b % 2;
      assert g.rebirthCost as real + 0.5 * b as real == (g.rebirthCost + q) as real + 0.5 * (b % 2) as real;
    }
  }

  /** An affordable rebirth as an update of the state before it. */
  lemma AffordableRebirth(g: GameState, b: int)
    requires Invariant(g) && b == RebirthPotential(g.coins, g.rebirthCost) > 0
    ensures Rebirth(g) == g.(coins := 0, multiplier := g.multiplier + b,
                             rebirthCost := (g.rebirthCost as real + 0.5 * b as real).Floor,
                             inventory := StarterInventory(), upgrades := NoUpgrades(),
                             grid := ClearGrid(g.grid))
  {
  }

  /** 120 coins at price 50 buy two rebirths: multiplier +2, price 51. */
  lemma RebirthExample(g: GameState)
    requires Invariant(g) && g.coins == 120 && g.rebirthCost == 50
    ensures Rebirth(g).multiplier == g.multiplier + 2
    ensures Rebirth(g).rebirthCost == 51
    ensures Rebirth(g).coins == 0
  {
    RebirthEffect(g);
  }

  /** The bankruptcy condition under which the screen offers a "free" rebirth:
      no coins, no seeds, nothing planted. */
  predicate Bankrupt(g: GameState): (b: bool)
    requires Invariant(g)
    ensures b ==> RebirthPotential(g.coins, g.rebirthCost) == 0
  {
    && g.coins == 0
    && (forall t: SeedType :: g.inventory[t] == 0)
    && (forall i :: 0 <= i < |g.grid| ==> g.grid[i].seedId.None?)
  }

  /** The "free" rebirth button runs the ordinary rebirth, which with no
      coins can buy none, so it changes nothing. */
  lemma BankruptRebirthIsNoOp(g: GameState)
    requires Invariant(g) && Bankrupt(g)
    ensures Rebirth(g) == g
  {
  }

  // ---------------------------------------------------------------------
  // Shop restock
  // ---------------------------------------------------------------------

  /** Whole seconds until the restock, rounded up: `ceil((next - now) / 1000)`. */
  function SecondsLeft(nextRestockTime: int, now: int): (s: int)
    ensures (s - 1) * 1000 < nextRestockTime - now <= s * 1000
  {
    -((now - nextRestockTime) / 1000)
  }

  /** The countdown has run out exactly when the restock time has come. */
  lemma RestockDueWhenTimeReached(nextRestockTime: int, now: int)
    ensures SecondsLeft(nextRestockTime, now) <= 0 <==> now >= nextRestockTime
  {
  }

  /** The restock check at time `now`: when the countdown has run out, the
      whole stock is replaced by `newStock` and the next restock is one interval
      from now; otherwise nothing changes. */
  function Restock(g: GameState, now: int, newStock: map<SeedType, int>): (r: GameState)
    requires Invariant(g) && CountsValid(newStock)
    ensures Invariant(r)
    ensures r.(shopStock := g.shopStock, nextRestockTime := g.nextRestockTime) == g
    ensures now >= g.nextRestockTime ==> r.shopStock == newStock && r.nextRestockTime == now + ShopRestockIntervalMs
    ensures now < g.nextRestockTime ==> r == g
  {
    if SecondsLeft(g.nextRestockTime, now) <= 0 then
      g.(shopStock := newStock, nextRestockTime := now + ShopRestockIntervalMs)
    else g
  }
}
