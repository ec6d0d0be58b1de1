/** The per-cell growth state machine: a periodic tick marks a planted cell
    mature once its growth time, shortened by the Fertilizer upgrade, has
    elapsed. */
module Growth {
  import opened Types
  import opened Constants

  /** The growth-speed multiplier at a Fertilizer level: `1 + level * 0.10`. */
  function GrowthSpeedBonus(fertilizerLvl: int): (b: real)
    requires fertilizerLvl >= 0
    ensures b >= 1.0
    ensures b == (10 + fertilizerLvl) as real / 10.0
  {
    1.0 + fertilizerLvl as real * Upgrade(Fertilizer).effectValue
  }

  /** A seed that needs `growthTimeMs`, planted at `plantedAt`, has grown by
      `now`: the elapsed time reaches the growth time divided by the bonus. */
  predicate GrowthDue(growthTimeMs: int, plantedAt: int, now: int, fertilizerLvl: int): (due: bool)
    requires fertilizerLvl >= 0
    ensures growthTimeMs >= 0 && now - plantedAt >= growthTimeMs ==> due
    ensures growthTimeMs > 0 && now <= plantedAt ==> !due
  {
    var b := GrowthSpeedBonus(fertilizerLvl);
    assert growthTimeMs >= 0 ==> growthTimeMs as real / b <= growthTimeMs as real;
    assert growthTimeMs > 0 ==> growthTimeMs as real / b > 0.0;
    (now - plantedAt) as real >= growthTimeMs as real / b
  }

  /** The due test in whole numbers: each Fertilizer level counts as one
      tenth of extra speed. */
  lemma GrowthDueInIntegers(growthTimeMs: int, plantedAt: int, now: int, fertilizerLvl: int)
    requires fertilizerLvl >= 0
    ensures GrowthDue(growthTimeMs, plantedAt, now, fertilizerLvl)
            <==> (now - plantedAt) * (10 + fertilizerLvl) >= growthTimeMs * 10
  {
    var b := GrowthSpeedBonus(fertilizerLvl);
    var e := (now - plantedAt) as real;
    var k := (10 + fertilizerLvl) as real;
    assert b == k / 10.0;
    ScaledComparison(e, growthTimeMs as real, k);
    assert e * k == ((now - plantedAt) * (10 + fertilizerLvl)) as real;
    assert growthTimeMs as real * 10.0 == (growthTimeMs * 10) as real;
  }

  /** Reaching `g / (k / 10)` is reaching `g * 10` after scaling by `k`. */
  lemma ScaledComparison(e: real, g: real, k: real)
    requires k > 0.0
    ensures e >= g / (k / 10.0) <==> e * k >= g * 10.0
  {
    assert g / (k / 10.0) == g * 10.0 / k;
    assert e >= g * 10.0 / k <==> e * k >= g * 10.0;
  }

  /** One cell at one growth tick (the guarded `map` callback): an empty or
      already mature cell is returned as it is, a planted one is marked
      mature when due. Nothing but the maturity flag can change, and it can
      only be raised. */
  function TickCell(c: CellState, fertilizerLvl: int, now: int): (r: CellState)
    requires fertilizerLvl >= 0
    ensures r.id == c.id && r.seedId == c.seedId && r.plantedAt == c.plantedAt
    ensures c.isMature ==> r.isMature
    ensures ValidCell(c) ==> ValidCell(r)
  {
    if c.seedId.None? || c.plantedAt.None? || c.isMature then c
    else if GrowthDue(Seed(c.seedId.value).growthTimeMs, c.plantedAt.value, now, fertilizerLvl) then
      c.(isMature := true)
    else c
  }

  /** The growth tick over the whole grid. */
  function TickGrid(grid: seq<CellState>, fertilizerLvl: int, now: int): (r: seq<CellState>)
    requires fertilizerLvl >= 0
    ensures |r| == |grid|
    ensures forall i :: 0 <= i < |grid| ==> r[i] == TickCell(grid[i], fertilizerLvl, now)
  {
    seq(|grid|, i requires 0 <= i < |grid| => TickCell(grid[i], fertilizerLvl, now))
  }

  /** The tick raises a cell's maturity flag exactly when the cell is planted,
      not yet mature and due; every other cell keeps its state. */
  lemma TickMaturesExactlyDueCells(grid: seq<CellState>, fertilizerLvl: int, now: int, i: int)
    requires fertilizerLvl >= 0 && 0 <= i < |grid|
    ensures var r := TickGrid(grid, fertilizerLvl, now)[i];
      && (r.isMature && !grid[i].isMature
          <==> grid[i].seedId.Some? && grid[i].plantedAt.Some? && !grid[i].isMature
               && GrowthDue(Seed(grid[i].seedId.value).growthTimeMs, grid[i].plantedAt.value, now, fertilizerLvl))
      && (r.isMature == grid[i].isMature ==> r == grid[i])
  {
  }

  /** Ticking twice at the same time is ticking once. */
  lemma TickIdempotent(grid: seq<CellState>, fertilizerLvl: int, now: int)
    requires fertilizerLvl >= 0
    ensures TickGrid(TickGrid(grid, fertilizerLvl, now), fertilizerLvl, now) == TickGrid(grid, fertilizerLvl, now)
  {
  }

  /** Products of non-negative numbers grow with their factors. */
  lemma MulMonotonic(a: int, b: int, c: int, d: int)
    requires 0 <= a <= b && 0 <= c <= d
    ensures a * c <= b * d
  {
    assert a * c <= a * d;
  }

  /** Once due, a planting stays due at any later time and any higher
      Fertilizer level. */
  lemma DueMonotonic(growthTimeMs: int, plantedAt: int, fert1: int, now1: int, fert2: int, now2: int)
    requires 0 <= fert1 <= fert2 && now1 <= now2 && growthTimeMs > 0
    requires GrowthDue(growthTimeMs, plantedAt, now1, fert1)
    ensures GrowthDue(growthTimeMs, plantedAt, now2, fert2)
  {
    GrowthDueInIntegers(growthTimeMs, plantedAt, now1, fert1);
    GrowthDueInIntegers(growthTimeMs, plantedAt, now2, fert2);
    MulMonotonic(now1 - plantedAt, now2 - plantedAt, 10 + fert1, 10 + fert2);
  }

  /** A later tick (or one with more Fertilizer) never undoes an earlier one:
      maturity is monotonic in time and in the speed bonus. */
  lemma TickMonotonic(c: CellState, fert1: int, now1: int, fert2: int, now2: int)
    requires 0 <= fert1 <= fert2 && now1 <= now2
    ensures TickCell(c, fert1, now1).isMature ==> TickCell(c, fert2, now2).isMature
  {
    if c.seedId.Some? && c.plantedAt.Some? && !c.isMature && TickCell(c, fert1, now1).isMature {
      DueMonotonic(Seed(c.seedId.value).growthTimeMs, c.plantedAt.value, fert1, now1, fert2, now2);
    }
  }

  /** The tick keeps every cell's invariant and position. */
  lemma TickKeepsCellsValid(grid: seq<CellState>, fertilizerLvl: int, now: int)
    requires fertilizerLvl >= 0
    requires forall i :: 0 <= i < |grid| ==> grid[i].id == i && ValidCell(grid[i])
    ensures var r := TickGrid(grid, fertilizerLvl, now);
      forall i :: 0 <= i < |r| ==> r[i].id == i && ValidCell(r[i])
  {
  }

  /** Wheat (2000 ms) planted at time 1 with no Fertilizer is still growing at
      2000 and mature at 2001; with three Fertilizer levels it needs
      2000 / 1.3 (about 1538.5) ms, so it is growing at 1538 and mature at 1540. */
  lemma WheatScenario()
    ensures !TickCell(CellState(0, Some(Wheat), Some(1), false), 0, 2000).isMature
    ensures TickCell(CellState(0, Some(Wheat), Some(1), false), 0, 2001).isMature
    ensures TickCell(CellState(0, Some(Wheat), Some(1), false), 3, 1540).isMature
    ensures !TickCell(CellState(0, Some(Wheat), Some(1), false), 3, 1538).isMature
  {
    GrowthDueInIntegers(2000, 1, 2000, 0);
    GrowthDueInIntegers(2000, 1, 1540, 3);
    GrowthDueInIntegers(2000, 1, 1538, 3);
  }

  /** Wheat planted at time 0 is growing at 1999 and mature at 2000. */
  lemma WheatPlantedAtZero()
    ensures !TickCell(CellState(0, Some(Wheat), Some(0), false), 0, 1999).isMature
    ensures TickCell(CellState(0, Some(Wheat), Some(0), false), 0, 2000).isMature
  {
    GrowthDueInIntegers(2000, 0, 1999, 0);
  }

  // ---------------------------------------------------------------------
  // The tick as the source writes it. Its guard tests `!cell.plantedAt`,
  // which is also true for the timestamp 0, so a seed planted at time 0 is
  // skipped by every tick. The model above (TickCell) tests for absence.
  // ---------------------------------------------------------------------

  /** The source's tick of one cell, with JavaScript's falsy test on the
      planting time. */
  function TickCellAsWritten(c: CellState, fertilizerLvl: int, now: int): (r: CellState)
    requires fertilizerLvl >= 0
    ensures c.plantedAt != Some(0) ==> r == TickCell(c, fertilizerLvl, now)
    ensures c.plantedAt == Some(0) ==> r == c
  {
    if c.seedId.None? || c.plantedAt.None? || c.plantedAt.value == 0 || c.isMature then c
    else if GrowthDue(Seed(c.seedId.value).growthTimeMs, c.plantedAt.value, now, fertilizerLvl) then
      c.(isMature := true)
    else c
  }

  /** Wheat planted at time 0 never matures under the tick as written, while
      the intended tick matures it at 2000. */
  lemma PlantedAtZeroNeverMatures(now: int)
    ensures !TickCellAsWritten(CellState(0, Some(Wheat), Some(0), false), 0, now).isMature
    ensures now >= 2000 ==> TickCell(CellState(0, Some(Wheat), Some(0), false), 0, now).isMature
  {
    GrowthDueInIntegers(2000, 0, now, 0);
  }
}
