/** The game's fixed configuration: grid size, restock interval, the first
    rebirth price, and the seed and upgrade catalogs. */
module Constants {
  import opened Types

  const GridSize: int := 12
  const TotalCells: int := GridSize * GridSize
  const ShopRestockIntervalMs: int := 60000
  const InitialRebirthCost: int := 50

  /** The upgrade catalog. Every price curve grows geometrically and by at
      least one coin per level (`baseCost * (multiplier - 1) >= 1`). */
  function Upgrade(u: UpgradeType): (d: UpgradeDef)
    ensures d.id == u
    ensures d.baseCost > 0 && d.multiplier > 1.0
    ensures d.baseCost as real * (d.multiplier - 1.0) >= 1.0
    ensures d.maxLevel >= 1 && d.effectValue >= 0.0
  {
    match u
    // "10% faster per level"
    case Fertilizer => UpgradeDef(Fertilizer, 200, 2.5, 0.10, 10)
    // "sell for +20% value"
    case Marketing => UpgradeDef(Marketing, 500, 3.0, 0.20, 20)
    // luck and decoration; no transition reads its level
    case Scarecrow => UpgradeDef(Scarecrow, 1000, 2.0, 1.0, 5)
    // "only for showing off"
    case Tractor => UpgradeDef(Tractor, 100000, 5.0, 0.0, 1)
  }

  /** The grid is 12 by 12, and the first rebirth price is positive, which
      keeps the rebirth division defined. Fertilizer speeds growth by 10%
      and Marketing raises sell values by 20% per level, the Tractor has no
      effect, and the level caps are 10, 20, 5 and 1. */
  lemma ConfigurationFacts()
    ensures TotalCells == 144 && InitialRebirthCost > 0
    ensures Upgrade(Fertilizer).effectValue == 0.10 && Upgrade(Marketing).effectValue == 0.20
    ensures Upgrade(Tractor).effectValue == 0.0
    ensures Upgrade(Fertilizer).maxLevel == 10 && Upgrade(Marketing).maxLevel == 20
    ensures Upgrade(Scarecrow).maxLevel == 5 && Upgrade(Tractor).maxLevel == 1
  {
  }

  /** The seed catalog. Every seed sells for more than it costs and takes a
      positive time to grow. */
  function Seed(t: SeedType): (d: SeedDef)
    ensures d.id == t
    ensures 0 < d.baseCost < d.baseSell
    ensures d.growthTimeMs > 0
  {
    match t
    case Wheat =>       SeedDef(Wheat, Common, 5, 7, 2000)
    case Lettuce =>     SeedDef(Lettuce, Common, 15, 20, 3500)
    case Corn =>        SeedDef(Corn, Common, 40, 55, 5000)
    case Potato =>      SeedDef(Potato, Common, 80, 110, 8000)
    case Tomato =>      SeedDef(Tomato, Uncommon, 200, 280, 10000)
    case Eggplant =>    SeedDef(Eggplant, Uncommon, 450, 600, 12000)
    case Carrot =>      SeedDef(Carrot, Uncommon, 700, 950, 15000)
    case Onion =>       SeedDef(Onion, Uncommon, 1200, 1600, 18000)
    case Pepper =>      SeedDef(Pepper, Rare, 3000, 4200, 22000)
    case Pumpkin =>     SeedDef(Pumpkin, Rare, 6000, 9000, 30000)
    case Watermelon =>  SeedDef(Watermelon, Rare, 12000, 18000, 35000)
    case Strawberry =>  SeedDef(Strawberry, Rare, 25000, 40000, 40000)
    case Grapes =>      SeedDef(Grapes, Epic, 80000, 130000, 45000)
    case Blueberry =>   SeedDef(Blueberry, Epic, 200000, 320000, 50000)
    case Pineapple =>   SeedDef(Pineapple, Epic, 500000, 850000, 60000)
    case Orchid =>      SeedDef(Orchid, Epic, 1000000, 1800000, 75000)
    case GoldenApple => SeedDef(GoldenApple, Legendary, 5000000, 12000000, 120000)
    case Starfruit =>   SeedDef(Starfruit, Legendary, 25000000, 60000000, 150000)
    case Dragonfruit => SeedDef(Dragonfruit, Legendary, 100000000, 250000000, 200000)
    case Gemfruit =>    SeedDef(Gemfruit, Legendary, 1000000000, 3000000000, 300000)
  }

  /** A sequence that increases from each element to the next increases between any two. */
  lemma {:induction false} IncreasingFromSteps(f: seq<int>, strict: bool)
    requires forall i :: 0 <= i < |f| - 1 ==> if strict then f[i] < f[i + 1] else f[i] <= f[i + 1]
    ensures forall i, j :: 0 <= i < j < |f| ==> if strict then f[i] < f[j] else f[i] <= f[j]
  {
    if |f| > 1 {
      IncreasingFromSteps(f[..|f| - 1], strict);
      forall i | 0 <= i < |f| - 1
        ensures if strict then f[i] < f[|f| - 1] else f[i] <= f[|f| - 1]
      {
        assert f[..|f| - 1][i] == f[i];
        if i < |f| - 2 {
          assert f[..|f| - 1][|f| - 2] == f[|f| - 2];
        }
      }
    }
  }

  /** The catalog's values of one attribute, in declaration order. */
  function Column(attr: SeedDef -> int): (col: seq<int>)
    ensures |col| == |SeedOrder|
    ensures forall i :: 0 <= i < |SeedOrder| ==> col[i] == attr(Seed(SeedOrder[i]))
  {
    seq(|SeedOrder|, i requires 0 <= i < |SeedOrder| => attr(Seed(SeedOrder[i])))
  }

  // Each catalog entry compared with the next one in declaration order.

  lemma CostStep(t: SeedType)
    requires SeedIndex(t) + 1 < |SeedOrder|
    ensures Seed(t).baseCost < Seed(SeedOrder[SeedIndex(t) + 1]).baseCost
  {
  }

  lemma SellStep(t: SeedType)
    requires SeedIndex(t) + 1 < |SeedOrder|
    ensures Seed(t).baseSell < Seed(SeedOrder[SeedIndex(t) + 1]).baseSell
  {
  }

  lemma GrowthStep(t: SeedType)
    requires SeedIndex(t) + 1 < |SeedOrder|
    ensures Seed(t).growthTimeMs < Seed(SeedOrder[SeedIndex(t) + 1]).growthTimeMs
  {
  }

  lemma RarityStep(t: SeedType)
    requires SeedIndex(t) + 1 < |SeedOrder|
    ensures Rank(Seed(t).rarity) <= Rank(Seed(SeedOrder[SeedIndex(t) + 1]).rarity)
  {
  }

  /** In declaration order, seeds get dearer to buy. */
  lemma CostsIncrease()
    ensures forall i, j :: 0 <= i < j < |SeedOrder| ==> Seed(SeedOrder[i]).baseCost < Seed(SeedOrder[j]).baseCost
  {
    var col := Column((d: SeedDef) => d.baseCost);
    forall i | 0 <= i < |col| - 1
      ensures col[i] < col[i + 1]
    {
      PositionOf(i);
      CostStep(SeedOrder[i]);
    }
    IncreasingFromSteps(col, true);
  }

  /** In declaration order, seeds sell for more. */
  lemma SellValuesIncrease()
    ensures forall i, j :: 0 <= i < j < |SeedOrder| ==> Seed(SeedOrder[i]).baseSell < Seed(SeedOrder[j]).baseSell
  {
    var col := Column((d: SeedDef) => d.baseSell);
    forall i | 0 <= i < |col| - 1
      ensures col[i] < col[i + 1]
    {
      PositionOf(i);
      SellStep(SeedOrder[i]);
    }
    IncreasingFromSteps(col, true);
  }

  /** In declaration order, seeds take longer to grow. */
  lemma GrowthTimesIncrease()
    ensures forall i, j :: 0 <= i < j < |SeedOrder| ==> Seed(SeedOrder[i]).growthTimeMs < Seed(SeedOrder[j]).growthTimeMs
  {
    var col := Column((d: SeedDef) => d.growthTimeMs);
    forall i | 0 <= i < |col| - 1
      ensures col[i] < col[i + 1]
    {
      PositionOf(i);
      GrowthStep(SeedOrder[i]);
    }
    IncreasingFromSteps(col, true);
  }

  /** In declaration order, rarity never goes down. */
  lemma RarityNeverDecreases()
    ensures forall i, j :: 0 <= i < j < |SeedOrder| ==> Rank(Seed(SeedOrder[i]).rarity) <= Rank(Seed(SeedOrder[j]).rarity)
  {
    var col := Column((d: SeedDef) => Rank(d.rarity));
    forall i | 0 <= i < |col| - 1
      ensures col[i] <= col[i + 1]
    {
      PositionOf(i);
      RarityStep(SeedOrder[i]);
    }
    IncreasingFromSteps(col, false);
  }
}
