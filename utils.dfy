/** The two pure helpers of the economy: how many rebirths the current
    coins can buy, and the periodic regeneration of the shop's stock. */
module Utils {
  import opened Types

  /** How many rebirths `coins` can pay for at `currentCost` each: none below
      the price, otherwise the whole number of times the price fits. */
  function RebirthPotential(coins: int, currentCost: int): (r: int)
    requires currentCost > 0
    ensures coins < currentCost ==> r == 0
    ensures coins >= currentCost ==> r >= 1 && r * currentCost <= coins < (r + 1) * currentCost
  {
    if coins < currentCost then 0 else coins / currentCost
  }

  lemma RebirthPotentialExamples()
    ensures RebirthPotential(120, 50) == 2
    ensures RebirthPotential(0, 50) == 0
  {
  }

  // ---------------------------------------------------------------------
  // Shop restock. The random draws of the source are parameters: each
  // `Math.random()` result is a real in [0, 1), and the shuffled pool is any
  // permutation of the pool.
  // ---------------------------------------------------------------------

  /** Seeds the shop always offers, so that the player can never get stuck. */
  const PrioritySeeds: seq<SeedType> := [Wheat, Lettuce]

  /** `s` with the elements of `excluded` filtered out, order kept. */
  function Without(s: seq<SeedType>, excluded: seq<SeedType>): (r: seq<SeedType>)
    ensures forall t :: t in r <==> t in s && t !in excluded
    ensures Distinct(s) ==> Distinct(r)
  {
    if s == [] then []
    else if s[0] in excluded then Without(s[1..], excluded)
    else
      var rest := Without(s[1..], excluded);
      assert Distinct(s) ==> s[0] !in rest by {
        if Distinct(s) { assert s[0] !in s[1..]; }
      }
      [s[0]] + rest
  }

  /** The candidates for the extra slots: every seed kind but the priority ones. */
  function Pool(): (p: seq<SeedType>)
    ensures |p| == 18
    ensures forall t :: t in p <==> t !in PrioritySeeds
    ensures Distinct(p)
  {
    PoolSize();
    Without(AllSeedTypes(), PrioritySeeds)
  }

  /** The pool holds exactly the non-priority kinds. */
  lemma PoolKinds()
    ensures (set t | t in Without(AllSeedTypes(), PrioritySeeds)) == (set t | t in AllSeedTypes()) - {Wheat, Lettuce}
  {
  }

  /** Dropping two present elements from a sequence without repetitions
      leaves two fewer. */
  lemma DropTwoSize<T>(all: seq<T>, p: seq<T>, x: T, y: T)
    requires Distinct(all) && Distinct(p)
    requires x in all && y in all && x != y
    requires (set t | t in p) == (set t | t in all) - {x, y}
    ensures |p| == |all| - 2
  {
    var kinds := set t | t in all;
    DistinctCardinality(all);
    DistinctCardinality(p);
    assert kinds - {x, y} == (kinds - {x}) - {y};
    assert |kinds - {x}| == |kinds| - 1;
  }

  /** Filtering the two priority kinds out of the twenty leaves eighteen. */
  lemma PoolSize()
    ensures |Without(AllSeedTypes(), PrioritySeeds)| == 18
  {
    PoolKinds();
    DropTwoSize(AllSeedTypes(), Without(AllSeedTypes(), PrioritySeeds), Wheat, Lettuce);
  }

  /** A sequence without repetitions holds each value at most once. */
  lemma {:induction false} DistinctCount<T>(s: seq<T>, x: T)
    requires Distinct(s)
    ensures multiset(s)[x] <= 1
  {
    if s != [] {
      assert s == [s[0]] + s[1..];
      DistinctCount(s[1..], x);
      if s[0] == x {
        assert x !in s[1..];
      }
    }
  }

  /** A permutation of a sequence without repetitions has none either. */
  lemma PermutationKeepsDistinct<T>(s: seq<T>, p: seq<T>)
    requires multiset(s) == multiset(p) && Distinct(p)
    ensures Distinct(s)
  {
    forall i, j | 0 <= i < j < |s|
      ensures s[i] != s[j]
    {
      if s[i] == s[j] {
        assert s == s[..j] + s[j..];
        assert s[i] in s[..j];
        assert multiset(s)[s[i]] == multiset(s[..j])[s[i]] + multiset(s[j..])[s[i]];
        DistinctCount(p, s[i]);
      }
    }
  }

  /** A sequence without repetitions has as many distinct elements as positions. */
  lemma {:induction false} DistinctCardinality<T>(s: seq<T>)
    requires Distinct(s)
    ensures |set x | x in s| == |s|
  {
    if s != [] {
      DistinctCardinality(s[1..]);
      assert (set x | x in s) == {s[0]} + (set x | x in s[1..]);
      assert s[0] !in s[1..];
    }
  }

  /** How many extra seed kinds a restock offers: `floor(random * 4) + 4`. */
  function RandomSlots(draw: real): (n: int)
    requires 0.0 <= draw < 1.0
    ensures 4 <= n <= 7
  {
    (draw * 4.0).Floor + 4
  }

  /** How many units of one offered kind a restock puts on sale: `floor(random * 21) + 10`. */
  function Quantity(draw: real): (q: int)
    requires 0.0 <= draw < 1.0
    ensures 10 <= q <= 30
  {
    (draw * 21.0).Floor + 10
  }

  /** `shuffled` is an ordering of the whole pool: eighteen different kinds,
      none of them a priority seed (so, by counting, each pool kind once). */
  predicate IsShuffledPool(shuffled: seq<SeedType>) {
    && |shuffled| == 18
    && Distinct(shuffled)
    && forall i :: 0 <= i < |shuffled| ==> shuffled[i] != Wheat && shuffled[i] != Lettuce
  }

  /** A subset as large as a finite set is the whole set. */
  lemma SubsetOfSameSize<T>(a: set<T>, b: set<T>)
    requires a <= b && |a| == |b|
    ensures a == b
  {
    if x :| x in b && x !in a {
      assert a <= b - {x};
      assert |b - {x}| == |b| - 1;
      SubsetCardinality(a, b - {x});
    }
  }

  /** A subset is no larger than its superset. */
  lemma {:induction false} SubsetCardinality<T>(a: set<T>, b: set<T>)
    requires a <= b
    ensures |a| <= |b|
    decreases |a|
  {
    if a != {} {
      var x :| x in a;
      SubsetCardinality(a - {x}, b - {x});
    }
  }

  /** An ordering of the pool holds every non-priority kind, and only those. */
  lemma ShuffledPoolCovers(shuffled: seq<SeedType>)
    requires IsShuffledPool(shuffled)
    ensures forall t :: t in shuffled <==> t !in PrioritySeeds
  {
    var p := Pool();
    var have := set t | t in shuffled;
    var all := set t | t in p;
    assert have <= all;
    DistinctCardinality(shuffled);
    DistinctCardinality(p);
    SubsetOfSameSize(have, all);
    forall t ensures t in shuffled <==> t !in PrioritySeeds {
      assert t in shuffled <==> t in have;
      assert t in p <==> t in all;
    }
  }

  /** In a sequence without repetitions every member occurs once. */
  lemma DistinctMultiplicity<T>(s: seq<T>, x: T)
    requires Distinct(s)
    ensures multiset(s)[x] == if x in s then 1 else 0
  {
    DistinctCount(s, x);
  }

  /** The orderings of the pool are exactly its permutations. */
  lemma ShuffledPoolIsPermutation(shuffled: seq<SeedType>)
    ensures IsShuffledPool(shuffled) <==> multiset(shuffled) == multiset(Pool())
  {
    if IsShuffledPool(shuffled) {
      OrderingIsPermutation(shuffled);
    }
    if multiset(shuffled) == multiset(Pool()) {
      PermutationIsOrdering(shuffled);
    }
  }

  /** An ordering of the pool is a permutation of it. */
  lemma OrderingIsPermutation(shuffled: seq<SeedType>)
    requires IsShuffledPool(shuffled)
    ensures multiset(shuffled) == multiset(Pool())
  {
    var p := Pool();
    ShuffledPoolCovers(shuffled);
    forall x ensures multiset(shuffled)[x] == multiset(p)[x] {
      DistinctMultiplicity(shuffled, x);
      DistinctMultiplicity(p, x);
    }
  }

  /** A permutation of the pool is an ordering of it. */
  lemma PermutationIsOrdering(shuffled: seq<SeedType>)
    requires multiset(shuffled) == multiset(Pool())
    ensures IsShuffledPool(shuffled)
  {
    var p := Pool();
    assert |shuffled| == |multiset(shuffled)| == |p|;
    PermutationKeepsDistinct(shuffled, p);
    forall i | 0 <= i < |shuffled|
      ensures shuffled[i] != Wheat && shuffled[i] != Lettuce
    {
      assert shuffled[i] in multiset(shuffled);
      assert shuffled[i] in p;
    }
  }

  /** The kinds a restock offers: the priority seeds, then the first `slots`
      kinds of the shuffled pool. All are different, and the extras are
      never priority seeds. */
  function Selection(slots: int, shuffled: seq<SeedType>): (sel: seq<SeedType>)
    requires 4 <= slots <= 7 && IsShuffledPool(shuffled)
    ensures |sel| == 2 + slots
    ensures sel[..2] == PrioritySeeds
    ensures forall i :: 2 <= i < |sel| ==> sel[i] !in PrioritySeeds && sel[i] in Pool()
    ensures Distinct(sel)
  {
    SelectionFacts(slots, shuffled);
    PrioritySeeds + shuffled[..slots]
  }

  /** The offered kinds, position by position: the two priority seeds, then
      different pool kinds. */
  lemma SelectionFacts(slots: int, shuffled: seq<SeedType>)
    requires 4 <= slots <= 7 && IsShuffledPool(shuffled)
    ensures var sel := PrioritySeeds + shuffled[..slots];
      && (forall i :: 2 <= i < |sel| ==> sel[i] !in PrioritySeeds && sel[i] in Pool())
      && Distinct(sel)
  {
    var sel := PrioritySeeds + shuffled[..slots];
    forall i | 2 <= i < |sel|
      ensures sel[i] !in PrioritySeeds && sel[i] in Pool()
    {
      assert sel[i] == shuffled[i - 2];
      PoolKind(shuffled[i - 2]);
    }
    SelectionDistinct(slots, shuffled);
  }

  /** Every kind but Wheat and Lettuce is a pool kind. */
  lemma PoolKind(t: SeedType)
    requires t != Wheat && t != Lettuce
    ensures t !in PrioritySeeds && t in Pool()
  {
    assert t !in PrioritySeeds;
  }

  /** The offered kinds are all different. */
  lemma SelectionDistinct(slots: int, shuffled: seq<SeedType>)
    requires 4 <= slots <= 7 && IsShuffledPool(shuffled)
    ensures Distinct(PrioritySeeds + shuffled[..slots])
  {
    var sel := PrioritySeeds + shuffled[..slots];
    forall i, j | 0 <= i < j < |sel|
      ensures sel[i] != sel[j]
    {
      if j >= 2 {
        assert sel[j] == shuffled[j - 2];
      }
      if i >= 2 {
        assert sel[i] == shuffled[i - 2];
      }
    }
  }

  /** The kinds with a non-zero quantity in the shop. */
  function InStock(stock: map<SeedType, int>): set<SeedType> {
    set t | t in stock.Keys && stock[t] != 0
  }

  /** `stock` is the allocation a restock makes for `sel` with the quantity
      draws `draws`: every kind has an entry, the i-th offered kind gets the
      i-th quantity, and every other kind gets nothing. */
  predicate Allocates(stock: map<SeedType, int>, sel: seq<SeedType>, draws: seq<real>)
    requires |draws| == |sel|
    requires forall i :: 0 <= i < |draws| ==> 0.0 <= draws[i] < 1.0
  {
    && (forall t: SeedType :: t in stock)
    && (forall i :: 0 <= i < |sel| ==> stock[sel[i]] == Quantity(draws[i]))
    && (forall t: SeedType :: t !in sel ==> stock[t] == 0)
  }

  /** `stock` is the outcome of a restock with the draws `slotDraw`,
      `shuffled` and `qtyDraws`. */
  predicate DrawnStock(stock: map<SeedType, int>, slotDraw: real, shuffled: seq<SeedType>, qtyDraws: seq<real>)
    requires 0.0 <= slotDraw < 1.0
    requires IsShuffledPool(shuffled)
    requires |qtyDraws| == 2 + RandomSlots(slotDraw)
    requires forall i :: 0 <= i < |qtyDraws| ==> 0.0 <= qtyDraws[i] < 1.0
  {
    Allocates(stock, Selection(RandomSlots(slotDraw), shuffled), qtyDraws)
  }

  /** What every restock guarantees: quantities are 0 or in [10, 30], both
      priority seeds are in [10, 30], and exactly the offered kinds are
      in stock. */
  lemma AllocationShape(stock: map<SeedType, int>, sel: seq<SeedType>, draws: seq<real>)
    requires |draws| == |sel| >= 2 && sel[..2] == PrioritySeeds && Distinct(sel)
    requires forall i :: 0 <= i < |draws| ==> 0.0 <= draws[i] < 1.0
    requires Allocates(stock, sel, draws)
    ensures forall t: SeedType :: stock[t] == 0 || 10 <= stock[t] <= 30
    ensures 10 <= stock[Wheat] <= 30 && 10 <= stock[Lettuce] <= 30
    ensures InStock(stock) == set t | t in sel
    ensures |InStock(stock)| == |sel|
  {
    forall t: SeedType
      ensures t in sel ==> 10 <= stock[t] <= 30
      ensures t !in sel ==> stock[t] == 0
    {
      if t in sel {
        var i :| 0 <= i < |sel| && sel[i] == t;
        assert stock[t] == Quantity(draws[i]);
      }
    }
    assert sel[0] == Wheat && sel[1] == Lettuce by {
      assert sel[0] == sel[..2][0] && sel[1] == sel[..2][1];
    }
    assert InStock(stock) == set t | t in sel by {
      forall t ensures t in InStock(stock) <==> t in sel {
        if t in sel {
          assert stock[t] != 0;
        }
      }
    }
    DistinctCardinality(sel);
  }

  /** `m` with the entry of every key in `keys` set to 0 (a `forEach` that
      zeroes each kind). */
  method ZeroEach<K>(m: map<K, int>, keys: seq<K>) returns (r: map<K, int>)
    ensures forall k :: k in keys ==> k in r && r[k] == 0
    ensures forall k :: k in r && k !in keys ==> k in m && r[k] == m[k]
    ensures forall k :: k in m ==> k in r
  {
    r := m;
    for i := 0 to |keys|
      invariant forall k :: k in keys[..i] ==> k in r && r[k] == 0
      invariant forall k :: k in r && k !in keys[..i] ==> k in m && r[k] == m[k]
      invariant forall k :: k in m ==> k in r
    {
      r := r[keys[i] := 0];
    }
    assert keys[..|keys|] == keys;
  }

  /** Gives the i-th kind of `sel` the i-th drawn quantity, starting from a
      stock where every kind has 0. */
  method Allot(zeroed: map<SeedType, int>, sel: seq<SeedType>, draws: seq<real>)
    returns (stock: map<SeedType, int>)
    requires forall t: SeedType :: t in zeroed && zeroed[t] == 0
    requires Distinct(sel) && |draws| == |sel|
    requires forall i :: 0 <= i < |draws| ==> 0.0 <= draws[i] < 1.0
    ensures Allocates(stock, sel, draws)
  {
    stock := zeroed;
    for i := 0 to |sel|
      invariant forall t: SeedType :: t in stock
      invariant forall k :: 0 <= k < i ==> stock[sel[k]] == Quantity(draws[k])
      invariant forall t :: t !in sel[..i] ==> stock[t] == 0
    {
      stock := stock[sel[i] := Quantity(draws[i])];
    }
    assert sel[..|sel|] == sel;
  }

  /** The restock allocator: every kind starts at 0, then each selected kind
      gets its drawn quantity. */
  method GenerateStock(slotDraw: real, shuffled: seq<SeedType>, qtyDraws: seq<real>)
    returns (stock: map<SeedType, int>)
    requires 0.0 <= slotDraw < 1.0
    requires IsShuffledPool(shuffled)
    requires |qtyDraws| == 2 + RandomSlots(slotDraw)
    requires forall i :: 0 <= i < |qtyDraws| ==> 0.0 <= qtyDraws[i] < 1.0
    ensures Allocates(stock, Selection(RandomSlots(slotDraw), shuffled), qtyDraws)
    ensures forall t: SeedType :: stock[t] == 0 || 10 <= stock[t] <= 30
    ensures 10 <= stock[Wheat] <= 30 && 10 <= stock[Lettuce] <= 30
    ensures |InStock(stock)| == 2 + RandomSlots(slotDraw)
  {
    var zeroed := ZeroEach(map[], AllSeedTypes());
    var selection := Selection(RandomSlots(slotDraw), shuffled);
    stock := Allot(zeroed, selection, qtyDraws);
    AllocationShape(stock, selection, qtyDraws);
  }
}
