/** The game component's state and handlers. The fields are the component's
    state variables; the grid is a fixed array of 144 cells updated in
    place. Every handler is one atomic step whose effect on the snapshot
    `State()` is the corresponding transition of the Economy module. */
module App {
  import opened Types
  import opened Constants
  import opened Utils
  import opened Growth
  import opened Economy

  /** Empties every cell in place, keeping its position. */
  method ClearCells(a: array<CellState>)
    modifies a
    ensures a[..] == ClearGrid(old(a[..]))
  {
    for i := 0 to a.Length
      invariant forall j :: 0 <= j < i ==> a[j] == EmptyCell(old(a[j]).id)
      invariant forall j :: i <= j < a.Length ==> a[j] == old(a[j])
    {
      a[i] := a[i].(seedId := None, plantedAt := None, isMature := false);
    }
  }

  /** The seed counts and upgrade levels of a new game: every kind and
      every upgrade at 0. */
  method EmptyCounts() returns (inv: map<SeedType, int>, ups: map<UpgradeType, int>)
    ensures inv == NoSeeds() && ups == NoUpgrades()
  {
    inv := ZeroEach(map[], AllSeedTypes());
    AllZeroIsNoSeeds(inv);
    ups := ZeroEach(map[], AllUpgradeTypes());
    AllZeroIsNoUpgrades(ups);
  }

  /** A new grid array of 144 empty cells numbered by position. */
  method NewGrid() returns (a: array<CellState>)
    ensures fresh(a) && a[..] == EmptyGrid()
  {
    a := new CellState[TotalCells](i => EmptyCell(i));
    assert a[..] == EmptyGrid();
  }

  /** A restock draw, as a valid count map. */
  method DrawStock(slotDraw: real, shuffled: seq<SeedType>, qtyDraws: seq<real>)
    returns (stock: map<SeedType, int>)
    requires 0.0 <= slotDraw < 1.0
    requires IsShuffledPool(shuffled)
    requires |qtyDraws| == 2 + RandomSlots(slotDraw)
    requires forall i :: 0 <= i < |qtyDraws| ==> 0.0 <= qtyDraws[i] < 1.0
    ensures CountsValid(stock)
    ensures DrawnStock(stock, slotDraw, shuffled, qtyDraws)
  {
    stock := GenerateStock(slotDraw, shuffled, qtyDraws);
  }

  /** The four cursor movements. */
  datatype Direction = Up | Down | Left | Right

  /** One cursor step on the 12 x 12 grid: one row or column over, or no
      move at all when that would leave the grid. */
  function Step(pos: int, dir: Direction): (next: int)
    requires 0 <= pos < TotalCells
    ensures 0 <= next < TotalCells
    ensures var row, col := pos / GridSize, pos % GridSize;
      && (dir.Up? ==> next == if row > 0 then pos - GridSize else pos)
      && (dir.Down? ==> next == if row < GridSize - 1 then pos + GridSize else pos)
      && (dir.Left? ==> next == if col > 0 then pos - 1 else pos)
      && (dir.Right? ==> next == if col < GridSize - 1 then pos + 1 else pos)
    ensures dir.Left? || dir.Right? ==> next / GridSize == pos / GridSize
    ensures dir.Up? || dir.Down? ==> next % GridSize == pos % GridSize
  {
    match dir
    case Up => if pos >= GridSize then pos - GridSize else pos
    case Down => if pos < TotalCells - GridSize then pos + GridSize else pos
    case Left => if pos % GridSize != 0 then pos - 1 else pos
    case Right => if (pos + 1) % GridSize != 0 then pos + 1 else pos
  }

  /** A snapshot that took the timer's update is the one `Economy.Restock`
      computes, and so keeps the invariant. */
  lemma RestockOutcome(before: GameState, now: int, newStock: map<SeedType, int>, after: GameState)
    requires Invariant(before) && CountsValid(newStock)
    requires now >= before.nextRestockTime ==>
               after == before.(shopStock := newStock, nextRestockTime := now + ShopRestockIntervalMs)
    requires now < before.nextRestockTime ==> after == before
    ensures after == Economy.Restock(before, now, newStock) && Invariant(after)
  {
    RestockDueWhenTimeReached(before.nextRestockTime, now);
  }

  // Each handler whose effect is a whole-state transition is split in two:
  // the handler keeps `Valid()` and ties the snapshot to the `Economy`
  // transition, while a worker without the invariant performs the field
  // updates. Keeping the invariant's quantifiers out of the worker keeps
  // each proof small.
  class Farm {
    var coins: int
    var multiplier: int
    var rebirthCost: int
    var inventory: map<SeedType, int>
    var upgrades: map<UpgradeType, int>
    var grid: array<CellState>
    var shopStock: map<SeedType, int>
    var nextRestockTime: int
    /** The cell under the keyboard cursor. */
    var playerPos: int
    /** The seed kind that planting uses. */
    var selectedSeed: Option<SeedType>
    /** The restock countdown shown to the player, in seconds. */
    var timeLeft: int

    /** The engine snapshot held by the fields. */
    ghost function State(): GameState
      reads this, grid
    {
      GameState(coins, multiplier, rebirthCost, inventory, upgrades, grid[..], shopStock, nextRestockTime)
    }

    /** The state invariant and the cursor on the grid. */
    ghost predicate Valid()
      reads this, grid
    {
      && Invariant(State())
      && 0 <= playerPos < TotalCells
    }

    /** The component's initial state; the first stock comes from one restock
        draw. */
    constructor (now: int, slotDraw: real, shuffled: seq<SeedType>, qtyDraws: seq<real>)
      requires 0.0 <= slotDraw < 1.0
      requires IsShuffledPool(shuffled)
      requires |qtyDraws| == 2 + RandomSlots(slotDraw)
      requires forall i :: 0 <= i < |qtyDraws| ==> 0.0 <= qtyDraws[i] < 1.0
      ensures Valid() && fresh(grid)
      ensures State() == Initial(now, shopStock)
      ensures DrawnStock(shopStock, slotDraw, shuffled, qtyDraws)
      ensures playerPos == 0 && selectedSeed == Some(Wheat) && timeLeft == 60
    {
      var inv, ups := EmptyCounts();
      var stock := DrawStock(slotDraw, shuffled, qtyDraws);
      var cells := NewGrid();
      coins := InitialCoins;
      multiplier := 1;
      rebirthCost := InitialRebirthCost;
      playerPos := 0;
      inventory := inv;
      shopStock := stock;
      upgrades := ups;
      grid := cells;
      selectedSeed := Some(Wheat);
      nextRestockTime := now + ShopRestockIntervalMs;
      timeLeft := 60;
      new;
      assert State() == Initial(now, stock);
    }

    /** `handleBuy`. */
    method BuySeed(t: SeedType)
      requires Valid()
      modifies this`coins, this`inventory, this`shopStock, this`selectedSeed
      ensures Valid()
      ensures State() == Economy.BuySeed(old(State()), t)
      ensures selectedSeed == SelectAfterBuy(old(State()), t, old(selectedSeed))
    {
      Purchase(t);
    }

    /** The purchase itself, on the fields: pay, move one unit from the shop
        to the inventory, and select the kind when nothing is selected and
        none was owned. */
    method Purchase(t: SeedType)
      requires t in inventory && t in shopStock
      modifies this`coins, this`inventory, this`shopStock, this`selectedSeed
      ensures var bought := old(coins) >= Seed(t).baseCost && old(shopStock[t]) > 0;
        && State() == (if bought then old(State()).(coins := old(coins) - Seed(t).baseCost,
                                                  inventory := old(inventory)[t := old(inventory[t]) + 1],
                                                  shopStock := old(shopStock)[t := old(shopStock[t]) - 1])
                       else old(State()))
        && selectedSeed == (if bought && old(inventory[t]) == 0 && old(selectedSeed).None? then Some(t)
                            else old(selectedSeed))
    {
      var seed := Seed(t);
      var stock := shopStock[t];
      if coins >= seed.baseCost && stock > 0 {
        var owned := inventory[t];
        coins := coins - seed.baseCost;
        inventory := inventory[t := inventory[t] + 1];
        shopStock := shopStock[t := shopStock[t] - 1];
        if owned == 0 && selectedSeed.None? {
          selectedSeed := Some(t);
        }
      }
    }

    /** `handleBuyUpgrade`. */
    method BuyUpgrade(u: UpgradeType)
      requires Valid()
      modifies this`coins, this`upgrades
      ensures Valid()
      ensures State() == Economy.BuyUpgrade(old(State()), u)
    {
      var def := Upgrade(u);
      var currentLvl := if u in upgrades then upgrades[u] else 0;
      var cost := UpgradeCost(u, currentLvl);
      if coins >= cost && currentLvl < def.maxLevel {
        coins := coins - cost;
        upgrades := upgrades[u := currentLvl + 1];
      }
    }

    /** The growth checker: every cell is re-evaluated at `now` with the
        Fertilizer level of this moment. */
    method GrowthTick(now: int)
      requires Valid()
      modifies grid
      ensures Valid()
      ensures State() == Economy.GrowthTick(old(State()), now)
    {
      var fertilizerLvl := if Fertilizer in upgrades then upgrades[Fertilizer] else 0;
      for i := 0 to grid.Length
        invariant forall j :: 0 <= j < i ==> grid[j] == TickCell(old(grid[j]), fertilizerLvl, now)
        invariant forall j :: i <= j < grid.Length ==> grid[j] == old(grid[j])
      {
        grid[i] := TickCell(grid[i], fertilizerLvl, now);
      }
      assert grid[..] == TickGrid(old(grid[..]), fertilizerLvl, now);
    }

    /** `handleCellInteract`: move the cursor to the cell, then harvest it if
        mature or plant the selected seed if it is empty. */
    method Interact(cellId: int, now: int)
      requires Valid() && 0 <= cellId < TotalCells
      modifies this`playerPos, this`coins, this`inventory, grid
      ensures Valid()
      ensures State() == Economy.Interact(old(State()), cellId, selectedSeed, now)
      ensures playerPos == cellId
    {
      playerPos := cellId;
      var cell := grid[cellId];
      if cell.isMature && cell.seedId.Some? {
        var marketingLvl := if Marketing in upgrades then upgrades[Marketing] else 0;
        var profit := Payout(Seed(cell.seedId.value).baseSell, multiplier, marketingLvl);
        coins := coins + profit;
        grid[cellId] := cell.(seedId := None, plantedAt := None, isMature := false);
      } else if cell.seedId.None? && selectedSeed.Some? {
        var t := selectedSeed.value;
        if inventory[t] > 0 {
          inventory := inventory[t := inventory[t] - 1];
          grid[cellId] := cell.(seedId := Some(t), plantedAt := Some(now), isMature := false);
        }
      }
    }

    /** `handleRebirth`: when affordable, raise the multiplier and the price,
        then zero the coins, every seed count and every upgrade level, empty
        every cell, grant one Wheat and put the cursor back on cell 0. */
    method Rebirth()
      requires Valid()
      modifies this`multiplier, this`rebirthCost, this`coins, this`inventory, this`upgrades, this`playerPos, grid
      ensures Valid()
      ensures State() == Economy.Rebirth(old(State()))
      ensures playerPos == (if RebirthPotential(old(coins), old(rebirthCost)) > 0 then 0 else old(playerPos))
    {
      var buyableAmount := RebirthPotential(coins, rebirthCost);
      if buyableAmount > 0 {
        AffordableRebirth(State(), buyableAmount);
        Prestige(buyableAmount);
      }
    }

    /** A rebirth that buys `buyableAmount` levels of prestige. */
    method Prestige(buyableAmount: int)
      modifies this`multiplier, this`rebirthCost, this`coins, this`inventory, this`upgrades, this`playerPos, grid
      ensures State() == old(State()).(coins := 0, multiplier := old(multiplier) + buyableAmount,
                                       rebirthCost := (old(rebirthCost) as real + 0.5 * buyableAmount as real).Floor,
                                       inventory := StarterInventory(), upgrades := NoUpgrades(),
                                       grid := ClearGrid(old(grid[..])))
      ensures playerPos == 0
    {
      ResetProgress();
      Promote(buyableAmount);
    }

    /** The part of a rebirth that pays for it: the multiplier and the price
        go up, the coins go to 0 and the cursor back to cell 0. */
    method Promote(buyableAmount: int)
      modifies this`multiplier, this`rebirthCost, this`coins, this`playerPos
      ensures multiplier == old(multiplier) + buyableAmount
      ensures rebirthCost == (old(rebirthCost) as real + 0.5 * buyableAmount as real).Floor
      ensures coins == 0 && playerPos == 0
    {
      multiplier, rebirthCost, coins, playerPos :=
        multiplier + buyableAmount, (rebirthCost as real + 0.5 * buyableAmount as real).Floor, 0, 0;
    }

    /** The part of a rebirth that starts the farm over: every seed count and
        upgrade level to 0, every cell emptied, then one Wheat granted. */
    method ResetProgress()
      modifies this`inventory, this`upgrades, grid
      ensures inventory == StarterInventory() && upgrades == NoUpgrades()
      ensures grid[..] == ClearGrid(old(grid[..]))
    {
      var inv := ZeroEach(inventory, AllSeedTypes());
      AllZeroIsNoSeeds(inv);
      inventory := inv[Wheat := 1];
      var ups := ZeroEach(upgrades, AllUpgradeTypes());
      AllZeroIsNoUpgrades(ups);
      upgrades := ups;
      ClearCells(grid);
    }

    /** The restock timer at `now`: when the countdown has run out, a new
        stock is drawn and the next restock is one interval away; otherwise
        only the countdown is updated. */
    method RestockTick(now: int, slotDraw: real, shuffled: seq<SeedType>, qtyDraws: seq<real>)
      requires Valid()
      requires 0.0 <= slotDraw < 1.0
      requires IsShuffledPool(shuffled)
      requires |qtyDraws| == 2 + RandomSlots(slotDraw)
      requires forall i :: 0 <= i < |qtyDraws| ==> 0.0 <= qtyDraws[i] < 1.0
      modifies this`shopStock, this`nextRestockTime, this`timeLeft
      ensures Valid()
      ensures State() == Economy.Restock(old(State()), now, shopStock)
      ensures now >= old(nextRestockTime) ==>
                DrawnStock(shopStock, slotDraw, shuffled, qtyDraws) && timeLeft == 60
      ensures now < old(nextRestockTime) ==> timeLeft == SecondsLeft(old(nextRestockTime), now) > 0
    {
      ghost var before := State();
      Countdown(now, slotDraw, shuffled, qtyDraws);
      if now >= before.nextRestockTime {
        assert State() == before.(shopStock := shopStock, nextRestockTime := now + ShopRestockIntervalMs);
      } else {
        assert State() == before;
      }
      RestockOutcome(before, now, shopStock, State());
    }

    /** The timer's work on its own fields: a new stock and the next restock
        time once the countdown has run out, the countdown alone otherwise. */
    method Countdown(now: int, slotDraw: real, shuffled: seq<SeedType>, qtyDraws: seq<real>)
      requires 0.0 <= slotDraw < 1.0
      requires IsShuffledPool(shuffled)
      requires |qtyDraws| == 2 + RandomSlots(slotDraw)
      requires forall i :: 0 <= i < |qtyDraws| ==> 0.0 <= qtyDraws[i] < 1.0
      modifies this`shopStock, this`nextRestockTime, this`timeLeft
      ensures now >= old(nextRestockTime) ==>
                && CountsValid(shopStock)
                && DrawnStock(shopStock, slotDraw, shuffled, qtyDraws)
                && nextRestockTime == now + ShopRestockIntervalMs && timeLeft == 60
      ensures now < old(nextRestockTime) ==>
                && shopStock == old(shopStock) && nextRestockTime == old(nextRestockTime)
                && timeLeft == SecondsLeft(old(nextRestockTime), now) > 0
    {
      RestockDueWhenTimeReached(nextRestockTime, now);
      var diff := SecondsLeft(nextRestockTime, now);
      if diff <= 0 {
        shopStock := DrawStock(slotDraw, shuffled, qtyDraws);
        nextRestockTime := now + ShopRestockIntervalMs;
        timeLeft := 60;
      } else {
        timeLeft := diff;
      }
    }

    /** The seed bar's selection handler. */
    method Select(t: SeedType)
      requires Valid()
      modifies this`selectedSeed
      ensures Valid() && selectedSeed == Some(t)
    {
      selectedSeed := Some(t);
    }

    /** One cursor movement key. */
    method Move(dir: Direction)
      requires Valid()
      modifies this`playerPos
      ensures Valid() && playerPos == Step(old(playerPos), dir)
    {
      playerPos := Step(playerPos, dir);
    }
  }
}
