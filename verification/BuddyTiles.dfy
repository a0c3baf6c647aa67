/** The arena as a tiling by aligned blocks, and the free lists that go with it. */
module BuddyTiles {
  import opened BuddyPowers

  const MIN_ORDER := 6

  datatype Tile = Tile(order: nat, used: bool)

  type Tiles = map<int, Tile>

  function Size(t: Tile): nat {
    Pow2(t.order)
  }

  /** Some block holds address x. */
  ghost predicate Covered(tiles: Tiles, x: int) {
    exists a: int :: a in tiles && a <= x < a + Size(tiles[a])
  }

  ghost predicate Aligned(tiles: Tiles, power: nat) {
    forall a <- tiles ::
      MIN_ORDER <= tiles[a].order <= power && 0 <= a && Multiple(a, Size(tiles[a])) && a + Size(tiles[a]) <= Pow2(power)
  }

  ghost predicate Apart(tiles: Tiles) {
    forall a, b | a in tiles && b in tiles && a < b :: a + Size(tiles[a]) <= b
  }

  ghost predicate Gapless(tiles: Tiles, power: nat) {
    forall x | 0 <= x < Pow2(power) :: Covered(tiles, x)
  }

  /** The blocks are aligned powers of two, lie apart, and leave no gap in an arena of 2^power bytes. */
  ghost predicate Tiling(tiles: Tiles, power: nat) {
    Aligned(tiles, power) && Apart(tiles) && Gapless(tiles, power)
  }

  predicate IsFree(tiles: Tiles, a: int, k: nat) {
    a in tiles && tiles[a] == Tile(k, false)
  }

  /** No two free blocks of one size are buddies, pairs with block but aside. */
  ghost predicate NoFreeBuddies(tiles: Tiles, power: nat, but: int) {
    forall a: nat, k: nat | k < power && IsFree(tiles, a, k) && a != but && Buddy(a, Pow2(k)) != but ::
      !IsFree(tiles, Buddy(a, Pow2(k)), k)
  }

  predicate NoDuplicates(s: seq<int>) {
    forall i, j | 0 <= i < j < |s| :: s[i] != s[j]
  }

  /** The free list of one order and its count. */
  datatype Bucket = Bucket(list: seq<int>, count: nat)

  /** Each list holds exactly the free blocks of its order, once each, and each count is right. */
  ghost predicate ListsOk(table: seq<Bucket>, tiles: Tiles, power: nat) {
    |table| == power - MIN_ORDER + 1 && forall i | 0 <= i < |table| :: ListOk(table[i], tiles, i + MIN_ORDER)
  }

  ghost predicate ListOk(b: Bucket, tiles: Tiles, order: nat) {
    b.count == |b.list| && NoDuplicates(b.list) && forall a :: a in b.list <==> IsFree(tiles, a, order)
  }

  /** The allocations in use and their orders. */
  function Live(tiles: Tiles): map<int, nat> {
    map a | a in tiles && tiles[a].used :: tiles[a].order
  }

  // ---------- splitting and merging ----------

  /** Free block a is cut in two. */
  function Split(tiles: Tiles, a: int): Tiles
    requires a in tiles && tiles[a].order > 0
  {
    var k := tiles[a].order - 1;
    tiles[a := Tile(k, false)][a + Pow2(k) := Tile(k, false)]
  }

  lemma SplitIsTiling(tiles: Tiles, power: nat, a: int)
    requires Tiling(tiles, power) && a in tiles && tiles[a].order > MIN_ORDER
    ensures Tiling(Split(tiles, a), power) && a + Pow2(tiles[a].order - 1) !in tiles
  {
    var k := tiles[a].order - 1;
    MultipleMore(a, Pow2(k));
    assert Size(tiles[a]) == 2 * Pow2(k);
    SplitIsGapless(tiles, power, a);
    hide Gapless, Multiple, Pow2;
  }

  lemma SplitIsGapless(tiles: Tiles, power: nat, a: int)
    requires Gapless(tiles, power) && a in tiles && tiles[a].order > MIN_ORDER && a + Pow2(tiles[a].order - 1) !in tiles
    ensures Gapless(Split(tiles, a), power)
  {
    var k, t := tiles[a].order - 1, Split(tiles, a);
    assert Size(tiles[a]) == 2 * Pow2(k);
    hide Pow2;
    forall x | 0 <= x < Pow2(power) ensures Covered(t, x) {
      assert Covered(tiles, x);
      var b :| b in tiles && b <= x < b + Size(tiles[b]);
      var c := if b != a then b else if x < a + Pow2(k) then a else a + Pow2(k);
      assert c in t;
    }
  }

  /** Blocks a and b, buddies of order k, become one. */
  function Merge(tiles: Tiles, a: int, b: int, k: nat): Tiles {
    (tiles - {a, b})[if a < b then a else b := Tile(k + 1, false)]
  }

  lemma MergeIsTiling(tiles: Tiles, power: nat, a: nat, k: nat)
    requires Tiling(tiles, power) && k < power && a in tiles && tiles[a].order == k
    requires var b := Buddy(a, Pow2(k)); b in tiles && tiles[b].order == k
    ensures Tiling(Merge(tiles, a, Buddy(a, Pow2(k)), k), power)
  {
    var b := Buddy(a, Pow2(k));
    BuddyHalves(a, Pow2(k));
    var low := if a < b then a else b;
    assert Pow2(k + 1) == 2 * Pow2(k);
    MergeIsGapless(tiles, power, a, b, k);
    hide Gapless, Multiple, Pow2, Buddy;
  }

  lemma MergeIsGapless(tiles: Tiles, power: nat, a: int, b: int, k: nat)
    requires Gapless(tiles, power) && a in tiles && b in tiles && tiles[a].order == tiles[b].order == k
    requires a + Pow2(k) == b || b + Pow2(k) == a
    ensures Gapless(Merge(tiles, a, b, k), power)
  {
    var low, t := if a < b then a else b, Merge(tiles, a, b, k);
    assert Pow2(k + 1) == 2 * Pow2(k);
    hide Pow2;
    forall x | 0 <= x < Pow2(power) ensures Covered(t, x) {
      assert Covered(tiles, x);
      var c :| c in tiles && c <= x < c + Size(tiles[c]);
      var d := if c == a || c == b then low else c;
      assert d in t;
    }
  }

  /** The buddy of a block that is not the whole arena starts a block, one that is no larger. */
  lemma BuddyIsTile(tiles: Tiles, power: nat, a: nat)
    requires Tiling(tiles, power) && a in tiles && tiles[a].order < power
    ensures var k := tiles[a].order; var b := Buddy(a, Pow2(k)); b in tiles && tiles[b].order <= k && b != a
  {
    var k := tiles[a].order;
    var b := Buddy(a, Pow2(k));
    BuddyHalves(a, Pow2(k));
    var low := if a < b then a else b;
    InArena(low, a, k, power);
    assert Covered(tiles, b);
    var s :| s in tiles && s <= b < s + Size(tiles[s]);
    var j := tiles[s].order;
    if j > k {
      Contains(s, j, low, k + 1, b);
    } else {
      MultipleDown(b, j, k);
      if s < b {
        MultiplesApart(s, b, Pow2(j));
      }
    }
  }

  lemma InArena(low: int, a: int, k: nat, power: nat)
    requires k < power && Multiple(low, Pow2(k + 1)) && low <= a < Pow2(power)
    ensures low + Pow2(k + 1) <= Pow2(power)
  {
    assert Multiple(Pow2(power), Pow2(power)) by { assert Pow2(power) == 1 * Pow2(power); }
    MultipleDown(Pow2(power), k + 1, power);
    MultiplesApart(low, Pow2(power), Pow2(k + 1));
  }

  /** When nothing is in use the arena is the one block it started as. */
  lemma AllFreeIsWhole(tiles: Tiles, power: nat)
    requires Tiling(tiles, power) && NoFreeBuddies(tiles, power, -1) && forall a <- tiles :: !tiles[a].used
    ensures tiles == map[0 := Tile(power, false)]
  {
    assert Covered(tiles, 0);
    var a :| a in tiles && a <= 0 < a + Size(tiles[a]);
    Smallest(tiles, power, a);
    assert tiles[0].order == power;
    forall b <- tiles ensures b == 0 {
      assert b < Pow2(power) && 0 <= b;
    }
  }

  /** With no two free buddies and nothing in use, no block is smaller than the arena. */
  lemma {:induction false} Smallest(tiles: Tiles, power: nat, a: int)
    requires Tiling(tiles, power) && NoFreeBuddies(tiles, power, -1) && forall a <- tiles :: !tiles[a].used
    requires a in tiles
    ensures tiles[a].order == power
    decreases tiles[a].order
  {
    var k := tiles[a].order;
    if k < power {
      BuddyIsTile(tiles, power, a);
      var b := Buddy(a, Pow2(k));
      if tiles[b].order < k {
        Smallest(tiles, power, b);
      } else {
        assert IsFree(tiles, a, k) && IsFree(tiles, b, k);
      }
    }
  }

  /** Two allocations in use never share a byte. */
  lemma LiveApart(tiles: Tiles, power: nat, a: int, b: int, x: int)
    requires Tiling(tiles, power) && a in Live(tiles) && b in Live(tiles) && a != b
    ensures !(a <= x < a + Pow2(Live(tiles)[a]) && b <= x < b + Pow2(Live(tiles)[b]))
  {
  }

  // ---------- lists ----------

  /** LIST_REMOVE */
  function Without(list: seq<int>, x: int): (r: seq<int>)
    ensures |r| <= |list|
  {
    if list == [] then [] else if list[0] == x then list[1..] else [list[0]] + Without(list[1..], x)
  }

  lemma {:induction false} WithoutIs(list: seq<int>, x: int)
    requires NoDuplicates(list) && x in list
    ensures var r := Without(list, x);
      |r| == |list| - 1 && NoDuplicates(r) && forall a :: a in r <==> a in list && a != x
  {
    if list[0] == x {
      assert list == [x] + list[1..];
    } else {
      WithoutIs(list[1..], x);
      assert list == [list[0]] + list[1..];
      assert list[0] !in list[1..];
    }
  }

  /** Block a appears on the list of its order. */
  function Added(b: Bucket, a: int): Bucket {
    Bucket([a] + b.list, b.count + 1)
  }

  function Taken(b: Bucket, a: int): Bucket
    requires b.count > 0
  {
    Bucket(Without(b.list, a), b.count - 1)
  }

  lemma AddedIsOk(b: Bucket, tiles: Tiles, order: nat, a: int)
    requires ListOk(b, tiles, order) && !IsFree(tiles, a, order)
    ensures ListOk(Added(b, a), tiles[a := Tile(order, false)], order)
  {
  }

  lemma TakenIsOk(b: Bucket, tiles: Tiles, order: nat, a: int)
    requires ListOk(b, tiles, order) && IsFree(tiles, a, order)
    ensures b.count > 0 && ListOk(Taken(b, a), tiles - {a}, order)
  {
    WithoutIs(b.list, a);
  }

  /** A list is concerned only with the free blocks of its order. */
  lemma OtherIsOk(b: Bucket, tiles: Tiles, now: Tiles, order: nat)
    requires ListOk(b, tiles, order) && forall a :: IsFree(now, a, order) <==> IsFree(tiles, a, order)
    ensures ListOk(b, now, order)
  {
  }

  /** Splitting the first block a of order k leaves no free buddies but the two halves. */
  lemma SplitBuddies(tiles: Tiles, power: nat, a: nat)
    requires Tiling(tiles, power) && a in tiles && tiles[a].order > MIN_ORDER && NoFreeBuddies(tiles, power, a)
    ensures NoFreeBuddies(Split(tiles, a), power, a)
  {
    var k, t := tiles[a].order - 1, Split(tiles, a);
    var high := a + Pow2(k);
    SplitIsTiling(tiles, power, a);
    MultipleMore(a, Pow2(k));
    SplitBuddy(a, k);
    forall x: nat, j: nat | j < power && IsFree(t, x, j) && x != a && Buddy(x, Pow2(j)) != a
      ensures !IsFree(t, Buddy(x, Pow2(j)), j)
    {
      BuddyHalves(x, Pow2(j));
      if x != high && Buddy(x, Pow2(j)) != high {
        assert IsFree(tiles, x, j);
      }
    }
  }

  /** The halves of a block are buddies. */
  lemma SplitBuddy(a: nat, k: nat)
    requires Multiple(a, 2 * Pow2(k))
    ensures Buddy(a, Pow2(k)) == a + Pow2(k) && Buddy(a + Pow2(k), Pow2(k)) == a
  {
    var m := Pow2(k);
    MultipleMore(a, m);
    BuddyHalves(a, m);
    var b := Buddy(a, m);
    if b < a {
      MultiplesApart(b, a, 2 * m);
    }
  }

  /** When a block comes free and its buddy is not free, no two free buddies arise. */
  lemma FreeBuddies(tiles: Tiles, power: nat, a: nat, k: nat)
    requires Tiling(tiles, power) && a in tiles && tiles[a].order == k
    requires NoFreeBuddies(tiles, power, a) && (k < power ==> !IsFree(tiles, Buddy(a, Pow2(k)), k))
    ensures NoFreeBuddies(tiles[a := Tile(k, false)], power, -1)
  {
    var t := tiles[a := Tile(k, false)];
    forall x: nat, j: nat | j < power && IsFree(t, x, j) && Buddy(x, Pow2(j)) != -1
      ensures !IsFree(t, Buddy(x, Pow2(j)), j)
    {
      BuddyHalves(x, Pow2(j));
      var b := Buddy(x, Pow2(j));
      if x != a && b != a {
        assert IsFree(tiles, x, j);
      }
    }
  }

  /** Merging leaves no free buddies but perhaps the merged block and its own. */
  lemma MergeBuddies(tiles: Tiles, power: nat, a: nat, k: nat)
    requires Tiling(tiles, power) && k < power && a in tiles && tiles[a].order == k && NoFreeBuddies(tiles, power, a)
    requires IsFree(tiles, Buddy(a, Pow2(k)), k)
    ensures var b := Buddy(a, Pow2(k)); NoFreeBuddies(Merge(tiles, a, b, k), power, if a < b then a else b)
  {
    var b := Buddy(a, Pow2(k));
    BuddyHalves(a, Pow2(k));
    var low, t := if a < b then a else b, Merge(tiles, a, b, k);
    forall x: nat, j: nat | j < power && IsFree(t, x, j) && x != low && Buddy(x, Pow2(j)) != low
      ensures !IsFree(t, Buddy(x, Pow2(j)), j)
    {
      BuddyHalves(x, Pow2(j));
      if Buddy(x, Pow2(j)) !in {a, b} {
        assert IsFree(tiles, x, j);
      }
    }
  }

  // ---------- buckets ----------

  lemma SplitLists(table: seq<Bucket>, tiles: Tiles, power: nat, j: nat, a: int)
    requires ListsOk(table, tiles, power) && 0 < j < |table| && IsFree(tiles, a, j + MIN_ORDER)
    requires a + Pow2(j - 1 + MIN_ORDER) !in tiles
    ensures table[j].count > 0
    ensures ListsOk(table[j := Taken(table[j], a)][j - 1 := Added(Added(table[j - 1], a + Pow2(j - 1 + MIN_ORDER)), a)],
                    Split(tiles, a), power)
  {
    var k := j - 1 + MIN_ORDER;
    var high := a + Pow2(k);
    var t1 := tiles - {a};
    var t2 := t1[high := Tile(k, false)];
    var t := Split(tiles, a);
    assert t == t2[a := Tile(k, false)];
    TakenIsOk(table[j], tiles, j + MIN_ORDER, a);
    OtherIsOk(Taken(table[j], a), t1, t, j + MIN_ORDER);
    OtherIsOk(table[j - 1], tiles, t1, k);
    AddedIsOk(table[j - 1], t1, k, high);
    AddedIsOk(Added(table[j - 1], high), t2, k, a);
    forall i | 0 <= i < |table| && i != j && i != j - 1 ensures ListOk(table[i], t, i + MIN_ORDER) {
      OtherIsOk(table[i], tiles, t, i + MIN_ORDER);
    }
    hide ListOk, Taken, Added;
  }

  lemma UseLists(table: seq<Bucket>, tiles: Tiles, power: nat, i: nat, a: int)
    requires ListsOk(table, tiles, power) && i < |table| && IsFree(tiles, a, i + MIN_ORDER)
    ensures table[i].count > 0
    ensures ListsOk(table[i := Taken(table[i], a)], tiles[a := Tile(i + MIN_ORDER, true)], power)
  {
    var t := tiles[a := Tile(i + MIN_ORDER, true)];
    TakenIsOk(table[i], tiles, i + MIN_ORDER, a);
    forall j | 0 <= j < |table| ensures ListOk(if j == i then Taken(table[i], a) else table[j], t, j + MIN_ORDER) {
      OtherIsOk(if j == i then Taken(table[i], a) else table[j], if j == i then tiles - {a} else tiles, t,
                j + MIN_ORDER);
    }
    hide ListOk, Taken;
  }

  lemma FreeLists(table: seq<Bucket>, tiles: Tiles, power: nat, i: nat, a: int)
    requires ListsOk(table, tiles, power) && i < |table| && a in tiles && tiles[a] == Tile(i + MIN_ORDER, true)
    ensures ListsOk(table[i := Added(table[i], a)], tiles[a := Tile(i + MIN_ORDER, false)], power)
  {
    var t := tiles[a := Tile(i + MIN_ORDER, false)];
    AddedIsOk(table[i], tiles, i + MIN_ORDER, a);
    forall j | 0 <= j < |table| && j != i ensures ListOk(table[j], t, j + MIN_ORDER) {
      OtherIsOk(table[j], tiles, t, j + MIN_ORDER);
    }
    hide ListOk, Added;
  }

  /** The table once a and its buddy b, which is free, have become one; a was on its list only if it was free. */
  function MergedTable(table: seq<Bucket>, i: nat, a: int, b: int, listed: bool): seq<Bucket>
    requires i + 1 < |table| && table[i].count > (if listed then 1 else 0)
  {
    var low := if a < b then a else b;
    var first := if listed then Taken(table[i], a) else table[i];
    table[i := Taken(first, b)][i + 1 := Added(table[i + 1], low)]
  }

  lemma MergeLists(table: seq<Bucket>, tiles: Tiles, power: nat, i: nat, a: int, b: int, listed: bool)
    requires ListsOk(table, tiles, power) && i + 1 < |table| && a != b && IsFree(tiles, b, i + MIN_ORDER)
    requires a in tiles && tiles[a] == Tile(i + MIN_ORDER, !listed)
    ensures table[i].count > (if listed then 1 else 0)
    ensures ListsOk(MergedTable(table, i, a, b, listed), Merge(tiles, a, b, i + MIN_ORDER), power)
  {
    var k, t := i + MIN_ORDER, Merge(tiles, a, b, i + MIN_ORDER);
    var low := if a < b then a else b;
    var t1 := tiles - {a};
    if listed {
      TakenIsOk(table[i], tiles, k, a);
    } else {
      OtherIsOk(table[i], tiles, t1, k);
    }
    var first := if listed then Taken(table[i], a) else table[i];
    TakenIsOk(first, t1, k, b);
    OtherIsOk(Taken(first, b), t1 - {b}, t, k);
    OtherIsOk(table[i + 1], tiles, tiles - {a, b}, k + 1);
    AddedIsOk(table[i + 1], tiles - {a, b}, k + 1, low);
    forall j | 0 <= j < |table| && j != i && j != i + 1 ensures ListOk(table[j], t, j + MIN_ORDER) {
      OtherIsOk(table[j], tiles, t, j + MIN_ORDER);
    }
    hide ListOk, Added;
  }
}
