/** The shapes of the game's data: the seed and upgrade enumerations, the
    rarity tiers, the catalog records, one grid cell and the game snapshot. */
module Types {

  /** A value that may be absent (TypeScript's `T | null`). */
  datatype Option<T> = None | Some(value: T)

  /** The twenty seed kinds, in declaration order. */
  datatype SeedType =
    | Wheat | Lettuce | Corn | Potato
    | Tomato | Eggplant | Carrot | Onion
    | Pepper | Pumpkin | Watermelon | Strawberry
    | Grapes | Blueberry | Pineapple | Orchid
    | GoldenApple | Starfruit | Dragonfruit | Gemfruit

  /** No element occurs twice. */
  predicate Distinct<T(==)>(s: seq<T>) {
    forall i, j :: 0 <= i < j < |s| ==> s[i] != s[j]
  }

  /** The four upgrades: growth speed, sell value, and two without a numeric effect. */
  datatype UpgradeType = Fertilizer | Marketing | Scarecrow | Tractor

  /** Rarity tiers, declared from the most common to the rarest. */
  datatype Rarity = Common | Uncommon | Rare | Epic | Legendary

  /** The seed kinds in declaration order. */
  const SeedOrder: seq<SeedType> :=
    [Wheat, Lettuce, Corn, Potato,
     Tomato, Eggplant, Carrot, Onion,
     Pepper, Pumpkin, Watermelon, Strawberry,
     Grapes, Blueberry, Pineapple, Orchid,
     GoldenApple, Starfruit, Dragonfruit, Gemfruit]

  /** The position of a seed kind in declaration order. */
  function SeedIndex(t: SeedType): (n: nat)
    ensures n < |SeedOrder| && SeedOrder[n] == t
  {
    match t
    case Wheat => 0       case Lettuce => 1     case Corn => 2         case Potato => 3
    case Tomato => 4      case Eggplant => 5    case Carrot => 6       case Onion => 7
    case Pepper => 8      case Pumpkin => 9     case Watermelon => 10  case Strawberry => 11
    case Grapes => 12     case Blueberry => 13  case Pineapple => 14   case Orchid => 15
    case GoldenApple => 16 case Starfruit => 17 case Dragonfruit => 18 case Gemfruit => 19
  }

  /** The kind at position `i` of the declaration order has index `i`. */
  lemma PositionOf(i: int)
    requires 0 <= i < |SeedOrder|
    ensures SeedIndex(SeedOrder[i]) == i
  {
  }

  /** Every seed kind once, in declaration order (`Object.values(SeedType)`). */
  function AllSeedTypes(): (all: seq<SeedType>)
    ensures |all| == 20
    ensures forall t: SeedType :: t in all
    ensures Distinct(all)
  {
    assert forall t: SeedType :: t in SeedOrder by {
      forall t: SeedType ensures t in SeedOrder {
        assert SeedOrder[SeedIndex(t)] == t;
      }
    }
    SeedOrder
  }

  /** The upgrade kinds in declaration order. */
  const UpgradeOrder: seq<UpgradeType> := [Fertilizer, Marketing, Scarecrow, Tractor]

  /** The position of an upgrade kind in declaration order. */
  function UpgradeIndex(u: UpgradeType): (n: nat)
    ensures n < |UpgradeOrder| && UpgradeOrder[n] == u
  {
    match u
    case Fertilizer => 0
    case Marketing => 1
    case Scarecrow => 2
    case Tractor => 3
  }

  /** Every upgrade kind once, in declaration order (`Object.values(UpgradeType)`). */
  function AllUpgradeTypes(): (all: seq<UpgradeType>)
    ensures |all| == 4
    ensures forall u: UpgradeType :: u in all
    ensures Distinct(all)
  {
    assert forall u: UpgradeType :: u in UpgradeOrder by {
      forall u: UpgradeType ensures u in UpgradeOrder {
        assert UpgradeOrder[UpgradeIndex(u)] == u;
      }
    }
    UpgradeOrder
  }

  /** The tiers in their declared order. */
  const Tiers: seq<Rarity> := [Common, Uncommon, Rare, Epic, Legendary]

  /** The position of a tier in the declared order: Common < Uncommon < Rare < Epic < Legendary. */
  function Rank(r: Rarity): (n: nat)
    ensures n < |Tiers| && Tiers[n] == r
  {
    match r
    case Common => 0
    case Uncommon => 1
    case Rare => 2
    case Epic => 3
    case Legendary => 4
  }

  /** A catalog entry for one seed kind (names and colours are presentation and left out). */
  datatype SeedDef = SeedDef(
    id: SeedType,
    rarity: Rarity,
    baseCost: int,
    baseSell: int,
    growthTimeMs: int)

  /** A catalog entry for one upgrade: `multiplier` scales the price per level,
      `effectValue` is the bonus each level adds. */
  datatype UpgradeDef = UpgradeDef(
    id: UpgradeType,
    baseCost: int,
    multiplier: real,
    effectValue: real,
    maxLevel: int)

  /** One grid cell; `seedId` and `plantedAt` are independently nullable. */
  datatype CellState = CellState(
    id: int,
    seedId: Option<SeedType>,
    plantedAt: Option<int>,
    isMature: bool)

  /** The cell invariant: a seed is present exactly when a planting time is,
      and only a planted cell can be mature. */
  predicate ValidCell(c: CellState) {
    && (c.seedId.Some? <==> c.plantedAt.Some?)
    && (c.isMature ==> c.seedId.Some?)
  }

  /** A cell with nothing planted. */
  function EmptyCell(id: int): (c: CellState)
    ensures c.id == id && ValidCell(c) && c.seedId.None? && !c.isMature
  {
    CellState(id, None, None, false)
  }

  /** The engine snapshot: currency, prestige multiplier and cost, owned seeds,
      upgrade levels, the grid, the shop's stock and the next restock time. */
  datatype GameState = GameState(
    coins: int,
    multiplier: int,
    rebirthCost: int,
    inventory: map<SeedType, int>,
    upgrades: map<UpgradeType, int>,
    grid: seq<CellState>,
    shopStock: map<SeedType, int>,
    nextRestockTime: int)
}
