/** The allocator: buckets of free blocks, and a header in the arena before every block. */
module BuddyAllocator {
  import opened BuddyPowers
  import opened BuddyTiles

  const HEADER := 32

  /** The size a block offers beyond its header, and whether it is in use. */
  datatype Header = Header(size: int, used: bool)

  datatype Option<T> = None | Some(value: T)

  function HeaderOf(t: Tile): Header {
    Header(Size(t) - HEADER, t.used)
  }

  ghost predicate HeadersOk(header: map<int, Header>, tiles: Tiles) {
    forall a <- tiles :: a in header && header[a] == HeaderOf(tiles[a])
  }

  class Allocator {
    const power: nat               // the arena has 2^power bytes
    const beyond: Header           // what a header read just past the arena would look like
    const table: array<Bucket>     // from order 6 up
    var header: map<int, Header>   // whatever headers have been written, by address
    ghost var tiles: Tiles

    ghost predicate Shape()
      reads this, table
    {
      && MIN_ORDER <= power <= 30 && Tiling(tiles, power)
      && ListsOk(table[..], tiles, power) && HeadersOk(header, tiles)
      && beyond != Header(Pow2(power) - HEADER, false)
    }

    ghost predicate Valid()
      reads this, table
    {
      Shape() && NoFreeBuddies(tiles, power, -1)
    }

    /** create_buddy_table: one free block, the whole arena. */
    constructor (powerOfTwo: nat, beyond: Header)
      requires powerOfTwo <= 30
      requires beyond != Header(Pow2(if powerOfTwo < MIN_ORDER then MIN_ORDER else powerOfTwo) - HEADER, false)
      ensures Valid() && power == (if powerOfTwo < MIN_ORDER then MIN_ORDER else powerOfTwo)
      ensures tiles == map[0 := Tile(power, false)] && fresh(table) && this.beyond == beyond
    {
      var p := if powerOfTwo < MIN_ORDER then MIN_ORDER else powerOfTwo;
      power := p;
      this.beyond := beyond;
      var n := p - MIN_ORDER + 1;
      var buckets := new Bucket[n](_ => Bucket([], 0));
      buckets[n - 1] := Bucket([0], 1);
      table := buckets;
      header := map[0 := Header(Pow2(p) - HEADER, false)];
      tiles := map[0 := Tile(p, false)];
      WholeIsTiling(p);
      WholeLists(buckets[..], p);
    }

    /** buddy_split: the first block of bucket j makes two in the bucket below, its lower half first. */
    method SplitBucket(j: nat) returns (ghost blt: int)
      requires Shape() && 0 < j < table.Length && table[j].count > 0
      requires table[j].list != [] && NoFreeBuddies(tiles, power, table[j].list[0])
      modifies this`header, this`tiles, table
      ensures Shape() && old(IsFree(tiles, blt, j + MIN_ORDER)) && tiles == Split(old(tiles), blt)
      ensures blt == old(table[j].list[0]) && OthersKept(old(tiles), tiles, blt)
      ensures table[j - 1].count > 0 && table[j - 1].list != [] && table[j - 1].list[0] == blt
      ensures NoFreeBuddies(tiles, power, blt) && forall i | 0 <= i < j - 1 :: table[i] == old(table[i])
    {
      var first := table[j].list[0];
      blt := first;
      ghost var t := table[..];
      assert ListOk(t[j], tiles, j + MIN_ORDER);
      assert IsFree(tiles, first, j + MIN_ORDER);
      SplitIsTiling(tiles, power, first);
      SplitLists(t, tiles, power, j, first);
      SplitBuddies(tiles, power, first);
      SplitKeepsOthers(tiles, power, first);
      assert Taken(t[j], first) == Bucket(t[j].list[1..], t[j].count - 1);
      assert [first, first + Pow2(j - 1 + MIN_ORDER)] + t[j - 1].list
          == [first] + ([first + Pow2(j - 1 + MIN_ORDER)] + t[j - 1].list);
      hide Tiling, ListOk, NoFreeBuddies, Split, Taken, OthersKept;
      table[j] := Bucket(table[j].list[1..], table[j].count - 1);
      var size := Pow2(j - 1 + MIN_ORDER);
      var second := first + size;
      header := header[first := Header(size - HEADER, false)][second := Header(size - HEADER, false)];
      table[j - 1] := Bucket([first, second] + table[j - 1].list, table[j - 1].count + 2);
      assert table[..] == t[j := Taken(t[j], first)][j - 1 := Added(Added(t[j - 1], second), first)];
      SplitHeaders(old(header), tiles, first, j - 1 + MIN_ORDER);
      tiles := Split(tiles, first);
    }

    /** The buckets above an empty bucket i are split, from j, the first one that is not empty, down to i. */
    method SplitDown(i: nat, j: nat) returns (ghost blt: int)
      requires Valid() && i < j < table.Length && table[j].count > 0 && forall x | i <= x < j :: table[x].count == 0
      modifies this`header, this`tiles, table
      ensures Shape() && Live(tiles) == Live(old(tiles)) && NoFreeBuddies(tiles, power, blt)
      ensures table[i].count > 0 && table[i].list != [] && table[i].list[0] == blt
      ensures blt == old(table[j].list[0]) && OthersKept(old(tiles), tiles, blt)
    {
      NonEmpty(table[..], tiles, power, j);
      Weaken(tiles, power, table[j].list[0]);
      ghost var first := table[j].list[0];
      blt := first;
      AllKept(tiles, blt);
      hide Tiling, ListsOk, NoFreeBuddies, Split, OthersKept;
      var above := j;
      while above > i
        invariant i <= above <= j && Shape() && Live(tiles) == Live(old(tiles))
        invariant table[above].count > 0 && table[above].list != [] && NoFreeBuddies(tiles, power, blt)
        invariant table[above].list[0] == blt == first && OthersKept(old(tiles), tiles, blt)
      {
        ghost var before := tiles;
        blt := SplitBucket(above);
        SplitKeepsLive(before, blt, above + MIN_ORDER);
        KeptTwice(old(tiles), before, tiles, blt);
        above := above - 1;
      }
    }

    /** The bucket for a request, or none if no bucket's blocks are large enough. */
    method BucketFor(need: nat) returns (i: nat)
      requires Shape()
      ensures i <= table.Length && LeastOrder(need, MIN_ORDER) >= i + MIN_ORDER
      ensures i < table.Length ==> LeastOrder(need, MIN_ORDER) == i + MIN_ORDER
    {
      i := 0;
      while need > Pow2(i + MIN_ORDER)
        invariant i < table.Length && LeastOrder(need, MIN_ORDER) == LeastOrder(need, i + MIN_ORDER)
        decreases table.Length - i
      {
        i := i + 1;
        if i == table.Length {
          return;
        }
      }
    }

    /** The first bucket from i on that is not empty, if any. */
    method NonEmptyFrom(i: nat) returns (j: nat)
      requires i < table.Length
      ensures i <= j <= table.Length && (forall x | i <= x < j :: table[x].count == 0)
      ensures j < table.Length ==> table[j].count > 0
    {
      j := i;
      while table[j].count == 0
        invariant i <= j < table.Length && forall x | i <= x < j :: table[x].count == 0
        decreases table.Length - j
      {
        j := j + 1;
        if j == table.Length {
          return;
        }
      }
    }

    /** buddy_alloc: the start of a free block of the smallest order at hand that will do; what is left of it becomes
        free blocks, and no other block changes. It fails exactly if no free block is large enough. */
    method Alloc(size: nat) returns (r: Option<int>)
      requires Valid() && size < TWO_32
      modifies this`header, this`tiles, table
      ensures Valid()
      ensures r == None <==> forall a: int, k: nat | k >= OrderFor(size) :: !IsFree(old(tiles), a, k)
      ensures r == None ==> tiles == old(tiles)
      ensures r.Some? ==> var a := r.value - HEADER;
        a !in Live(old(tiles)) && Live(tiles) == Live(old(tiles))[a := OrderFor(size)]
      ensures r.Some? ==> BestFit(old(tiles), r.value - HEADER, OrderFor(size))
      ensures r.Some? ==> OthersKept(old(tiles), tiles, r.value - HEADER)
    {
      var i := BucketFor(NextPower2((size + HEADER) % TWO_32));
      hide NextPower2, LeastOrder, Live;
      if i == table.Length {
        NoneLarge(table[..], tiles, power, i, OrderFor(size));
        return None;
      }
      var j := NonEmptyFrom(i);
      if j == table.Length {
        NoneLarge(table[..], tiles, power, i, OrderFor(size));
        return None;
      }
      SomeLarge(table[..], tiles, power, j, OrderFor(size));
      FirstIsBest(table[..], tiles, power, i, j);
      hide Tiling, ListsOk, NoFreeBuddies, OrderFor, OthersKept, BestFit;
      var blt := TakeFrom(i, j);
      r := Some(blt + HEADER);
    }

    /** The first block of bucket j, the first from i on that is not empty, is split down to bucket i and put to use. */
    method TakeFrom(i: nat, j: nat) returns (blt: int)
      requires Valid() && i <= j < table.Length && table[j].count > 0 && table[j].list != []
      requires forall x | i <= x < j :: table[x].count == 0
      modifies this`header, this`tiles, table
      ensures Valid() && blt == old(table[j].list[0]) && OthersKept(old(tiles), tiles, blt)
      ensures blt !in Live(old(tiles)) && Live(tiles) == Live(old(tiles))[blt := i + MIN_ORDER]
    {
      Weaken(tiles, power, table[j].list[0]);
      AllKept(tiles, table[j].list[0]);
      hide Tiling, ListsOk, NoFreeBuddies, OthersKept, Live;
      if j > i {
        ghost var x := SplitDown(i, j);
      }
      ghost var before := tiles;
      blt := TakeFirst(i);
      UseLive(before, blt, i + MIN_ORDER);
      UseKeepsOthers(before, blt, i + MIN_ORDER);
      KeptTwice(old(tiles), before, tiles, blt);
    }

    /** The first block of bucket i is taken off its list and put to use. */
    method TakeFirst(i: nat) returns (blt: int)
      requires Shape() && i < table.Length && table[i].list != [] && NoFreeBuddies(tiles, power, table[i].list[0])
      modifies this`header, this`tiles, table
      ensures Valid() && old(IsFree(tiles, blt, i + MIN_ORDER)) && tiles == old(tiles)[blt := Tile(i + MIN_ORDER, true)]
      ensures blt == old(table[i].list[0])
    {
      ghost var t := table[..];
      assert ListOk(t[i], tiles, i + MIN_ORDER);
      blt := table[i].list[0];
      assert IsFree(tiles, blt, i + MIN_ORDER);
      UseLists(t, tiles, power, i, blt);
      assert Taken(t[i], blt) == Bucket(t[i].list[1..], t[i].count - 1);
      UseIsTiling(tiles, power, blt, true);
      UseBuddies(tiles, power, blt);
      hide Tiling, ListsOk, NoFreeBuddies, Taken;
      table[i] := Bucket(table[i].list[1..], table[i].count - 1);
      header := header[blt := Header(header[blt].size, true)];
      tiles := tiles[blt := Tile(i + MIN_ORDER, true)];
      assert table[..] == t[i := Taken(t[i], blt)];
    }

    /** The header a lookup of the buddy of the block of order k at blt meets. */
    function BuddyHeader(blt: nat, k: nat): Header
      requires Shape() && blt in tiles && tiles[blt].order == k
      reads this, table
    {
      BuddyIsKnown(tiles, power, blt, k, header);
      if Buddy(blt, Pow2(k)) == Pow2(power) then beyond else header[Buddy(blt, Pow2(k))]
    }

    /** Free block or block coming free a, and its free buddy b, become one block in the next bucket, cleared. */
    method MergeOnce(a: nat, i: nat, listed: bool) returns (low: nat)
      requires Shape() && i + 1 < table.Length && a in tiles && tiles[a] == Tile(i + MIN_ORDER, !listed)
      requires IsFree(tiles, Buddy(a, Pow2(i + MIN_ORDER)), i + MIN_ORDER) && NoFreeBuddies(tiles, power, a)
      modifies this`header, this`tiles, table
      ensures Shape() && tiles == Merge(old(tiles), a, Buddy(a, Pow2(i + MIN_ORDER)), i + MIN_ORDER)
      ensures IsFree(tiles, low, i + 1 + MIN_ORDER) && NoFreeBuddies(tiles, power, low)
      ensures Live(tiles) == Live(old(tiles)) - {a}
    {
      ghost var t, k := table[..], i + MIN_ORDER;
      var size := Pow2(i + MIN_ORDER);
      var b := Buddy(a, size);
      BuddyHalves(a, size);
      MergeLists(t, tiles, power, i, a, b, listed);
      MergeIsTiling(tiles, power, a, k);
      MergeBuddies(tiles, power, a, k);
      low := if a < b then a else b;
      var high := if a < b then b else a;
      MergeHeaders(header, tiles, power, a, b, k);
      MergeLive(tiles, a, b, k);
      hide Tiling, ListsOk, NoFreeBuddies, HeadersOk, Live, Merge, Buddy, Taken, Added;
      if listed {
        table[i] := Taken(table[i], a);
      }
      table[i] := Taken(table[i], b);
      table[i + 1] := Added(table[i + 1], low);
      assert table[..] == MergedTable(t, i, a, b, listed);
      header := Cleared(header, low, 2 * size);
      tiles := Merge(tiles, a, b, i + MIN_ORDER);
    }

    /** The bucket for blocks of this size. */
    method FindBucket(size: nat, ghost k: nat) returns (i: nat)
      requires Shape() && MIN_ORDER <= k <= power && size == Pow2(k)
      ensures i + MIN_ORDER == k && i < table.Length
    {
      i := 0;
      while size > Pow2(i + MIN_ORDER)
        invariant i + MIN_ORDER <= k
        decreases k - i
      {
        i := i + 1;
      }
      Pow2Grows(i + MIN_ORDER, k);
    }

    /** buddy_try_merge: merge with the buddy as long as it is free and of the same size. */
    method TryMerge(a: nat) returns (merged: nat)
      requires Valid() && a in tiles && tiles[a].used
      modifies this`header, this`tiles, table
      ensures Shape() && Live(tiles) == Live(old(tiles)) - (if merged > 0 then {a} else {})
      ensures if merged > 0 then NoFreeBuddies(tiles, power, -1)
              else tiles == old(tiles) && header == old(header) && table[..] == old(table[..])
                   && forall k | tiles[a].order == k < power :: !IsFree(tiles, Buddy(a, Pow2(k)), k)
    {
      var blt := a;
      merged := 0;
      ghost var k := tiles[a].order;
      Weaken(tiles, power, a);
      while true
        invariant Shape() && blt in tiles && tiles[blt] == Tile(k, merged == 0) && NoFreeBuddies(tiles, power, blt)
        invariant Live(tiles) == Live(old(tiles)) - (if merged > 0 then {a} else {})
        invariant merged == 0 ==>
          blt == a && tiles == old(tiles) && header == old(header) && table[..] == old(table[..])
        decreases power - k
      {
        HeaderTells(header, tiles, power, beyond, blt, k);
        hide Tiling, ListsOk, NoFreeBuddies, HeadersOk, Live, Buddy;
        var size := header[blt].size + HEADER;
        var i := FindBucket(size, k);
        var h := BuddyHeader(blt, i + MIN_ORDER);
        if !h.used && h.size == size - HEADER {
          blt := MergeOnce(blt, i, merged > 0);
          merged, k := merged + 1, k + 1;
        } else {
          break;
        }
      }
      if merged > 0 {
        Settled(tiles, power, blt, k);
      }
    }

    /** buddy_free: the block before which ptr points becomes free, merged with its buddy as far as possible. Freeing a
        block that is free already changes nothing. */
    method Free(ptr: nat)
      requires Valid() && ptr - HEADER in tiles
      modifies this`header, this`tiles, table
      ensures Valid() && Live(tiles) == Live(old(tiles)) - {ptr - HEADER}
      ensures !old(tiles)[ptr - HEADER].used ==> tiles == old(tiles)
    {
      AtLeastZero(tiles, power, ptr - HEADER);
      var blt: nat := ptr - HEADER;
      ghost var k := tiles[blt].order;
      HeaderTells(header, tiles, power, beyond, blt, k);
      var size := header[blt].size + HEADER;
      var i := FindBucket(size, k);
      if !header[blt].used {
        return;
      }
      if table[i].count == 0 {
        NoBuddyListed(table[..], tiles, power, i, Buddy(blt, Pow2(i + MIN_ORDER)));
        Release(blt, i);
        return;
      }
      var merged := TryMerge(blt);
      if merged > 0 {
        return;
      }
      Release(blt, i);
    }

    /** A block whose buddy is not free comes free on its own. */
    method Release(blt: nat, i: nat)
      requires Valid() && i < table.Length && blt in tiles && tiles[blt] == Tile(i + MIN_ORDER, true)
      requires i + MIN_ORDER < power ==> !IsFree(tiles, Buddy(blt, Pow2(i + MIN_ORDER)), i + MIN_ORDER)
      modifies this`header, this`tiles, table
      ensures Valid() && Live(tiles) == Live(old(tiles)) - {blt}
    {
      ghost var t := table[..];
      Weaken(tiles, power, blt);
      FreeBuddies(tiles, power, blt, i + MIN_ORDER);
      UseIsTiling(tiles, power, blt, false);
      FreeLists(t, tiles, power, i, blt);
      ReleaseHeaders(header, tiles, power, blt, i + MIN_ORDER);
      ReleaseLive(tiles, blt, i + MIN_ORDER);
      hide Tiling, ListsOk, NoFreeBuddies, HeadersOk, Live, Added;
      header := Cleared(header, blt, Pow2(i + MIN_ORDER));
      table[i] := Added(table[i], blt);
      assert table[..] == t[i := Added(t[i], blt)];
      tiles := tiles[blt := Tile(i + MIN_ORDER, false)];
    }
  }

  /** The headers say what the tiling says; the buddy's header tells whether the buddy is free and of the same size. */
  lemma HeaderTells(header: map<int, Header>, tiles: Tiles, power: nat, beyond: Header, a: nat, k: nat)
    requires Tiling(tiles, power) && HeadersOk(header, tiles) && a in tiles && tiles[a].order == k
    requires beyond != Header(Pow2(power) - HEADER, false)
    ensures MIN_ORDER <= k <= power && a in header && header[a] == Header(Pow2(k) - HEADER, tiles[a].used)
    ensures var b := Buddy(a, Pow2(k));
      && (b == Pow2(power) || b in header)
      && var h := if b == Pow2(power) then beyond else header[b];
         !h.used && h.size == Pow2(k) - HEADER <==> k < power && IsFree(tiles, b, k)
  {
    BuddyIsKnown(tiles, power, a, k, header);
    if k < power {
      var b := Buddy(a, Pow2(k));
      var j := tiles[b].order;
      Pow2Grows(if j < k then j else k, if j < k then k else j);
    }
  }

  /** A free block whose buddy is not free ends the merging. */
  lemma Settled(tiles: Tiles, power: nat, a: nat, k: nat)
    requires Tiling(tiles, power) && IsFree(tiles, a, k) && NoFreeBuddies(tiles, power, a)
    requires k < power ==> !IsFree(tiles, Buddy(a, Pow2(k)), k)
    ensures NoFreeBuddies(tiles, power, -1)
  {
    FreeBuddies(tiles, power, a, k);
    assert tiles[a := Tile(k, false)] == tiles;
  }

  lemma NoBuddyListed(table: seq<Bucket>, tiles: Tiles, power: nat, i: nat, b: int)
    requires ListsOk(table, tiles, power) && i < |table| && table[i].count == 0
    ensures !IsFree(tiles, b, i + MIN_ORDER)
  {
    assert ListOk(table[i], tiles, i + MIN_ORDER);
  }

  lemma AtLeastZero(tiles: Tiles, power: nat, a: int)
    requires Tiling(tiles, power) && a in tiles
    ensures a >= 0
  {
  }

  lemma ReleaseHeaders(header: map<int, Header>, tiles: Tiles, power: nat, a: int, k: nat)
    requires HeadersOk(header, tiles) && Tiling(tiles, power) && a in tiles && tiles[a].order == k
    ensures HeadersOk(Cleared(header, a, Pow2(k)), tiles[a := Tile(k, false)])
  {
    hide Pow2, Gapless;
  }

  lemma ReleaseLive(tiles: Tiles, a: int, k: nat)
    requires a in tiles
    ensures Live(tiles[a := Tile(k, false)]) == Live(tiles) - {a}
  {
  }

  /** A free block's header is written at low and everything after it in its size bytes is set to zero. */
  function Cleared(header: map<int, Header>, low: int, size: int): map<int, Header> {
    var inside := map x | x in header :: if low < x < low + size then Header(0, false) else header[x];
    inside[low := Header(size - HEADER, false)]
  }

  lemma MergeHeaders(header: map<int, Header>, tiles: Tiles, power: nat, a: int, b: int, k: nat)
    requires HeadersOk(header, tiles) && Tiling(tiles, power) && a in tiles && b in tiles
    requires tiles[a].order == tiles[b].order == k && (b == a + Pow2(k) || a == b + Pow2(k))
    ensures HeadersOk(Cleared(header, if a < b then a else b, 2 * Pow2(k)), Merge(tiles, a, b, k))
  {
    var low, t := if a < b then a else b, Merge(tiles, a, b, k);
    assert Pow2(k + 1) == 2 * Pow2(k);
    hide Pow2, Gapless;
    forall x <- t ensures x != low ==> !(low < x < low + 2 * Pow2(k)) {
      if x != low {
        assert x in tiles && x != a && x != b;
      }
    }
  }

  lemma MergeLive(tiles: Tiles, a: int, b: int, k: nat)
    requires a in tiles && IsFree(tiles, b, k) && a != b
    ensures Live(Merge(tiles, a, b, k)) == Live(tiles) - {a}
    ensures IsFree(Merge(tiles, a, b, k), if a < b then a else b, k + 1)
  {
  }

  lemma BuddyIsKnown(tiles: Tiles, power: nat, a: nat, k: nat, header: map<int, Header>)
    requires Tiling(tiles, power) && HeadersOk(header, tiles) && a in tiles && tiles[a].order == k
    ensures Buddy(a, Pow2(k)) == Pow2(power) || Buddy(a, Pow2(k)) in header
    ensures k < power ==> Buddy(a, Pow2(k)) in tiles && Buddy(a, Pow2(k)) != Pow2(power)
    ensures k == power ==> a == 0 && Buddy(a, Pow2(k)) == Pow2(power)
  {
    if k < power {
      BuddyIsTile(tiles, power, a);
    } else {
      assert a == 0;
    }
  }

  /** Whether a block is in use does not matter to the tiling. */
  lemma UseIsTiling(tiles: Tiles, power: nat, a: int, used: bool)
    requires Tiling(tiles, power) && a in tiles
    ensures Tiling(tiles[a := Tile(tiles[a].order, used)], power)
  {
    var t := tiles[a := Tile(tiles[a].order, used)];
    forall x | 0 <= x < Pow2(power) ensures Covered(t, x) {
      assert Covered(tiles, x);
      var b :| b in tiles && b <= x < b + Size(tiles[b]);
      assert b in t;
    }
  }

  lemma UseBuddies(tiles: Tiles, power: nat, a: int)
    requires Tiling(tiles, power) && a in tiles && NoFreeBuddies(tiles, power, a)
    ensures NoFreeBuddies(tiles[a := Tile(tiles[a].order, true)], power, -1)
  {
    var t := tiles[a := Tile(tiles[a].order, true)];
    forall x: nat, k: nat | k < power && IsFree(t, x, k) ensures !IsFree(t, Buddy(x, Pow2(k)), k) {
      assert IsFree(tiles, x, k);
    }
  }

  lemma UseLive(tiles: Tiles, a: int, k: nat)
    requires IsFree(tiles, a, k)
    ensures a !in Live(tiles) && Live(tiles[a := Tile(k, true)]) == Live(tiles)[a := k]
  {
  }

  lemma NoneLarge(table: seq<Bucket>, tiles: Tiles, power: nat, i: nat, order: nat)
    requires ListsOk(table, tiles, power) && Tiling(tiles, power) && order >= i + MIN_ORDER
    requires forall j | i <= j < |table| :: table[j].count == 0
    ensures forall a: int, k: nat | k >= order :: !IsFree(tiles, a, k)
  {
    forall a: int, k: nat | k >= order ensures !IsFree(tiles, a, k) {
      if k <= power {
        assert ListOk(table[k - MIN_ORDER], tiles, k);
      }
    }
  }

  /** No block but that at a has changed, and none is gone. */
  ghost predicate OthersKept(tiles: Tiles, now: Tiles, a: int) {
    forall x <- tiles | x != a :: x in now && now[x] == tiles[x]
  }

  lemma AllKept(tiles: Tiles, a: int)
    ensures OthersKept(tiles, tiles, a)
  {
  }

  lemma KeptTwice(tiles: Tiles, then_: Tiles, now: Tiles, a: int)
    requires OthersKept(tiles, then_, a) && OthersKept(then_, now, a)
    ensures OthersKept(tiles, now, a)
  {
  }

  lemma SplitKeepsOthers(tiles: Tiles, power: nat, a: int)
    requires Tiling(tiles, power) && a in tiles && tiles[a].order > MIN_ORDER
    ensures OthersKept(tiles, Split(tiles, a), a)
  {
    SplitIsTiling(tiles, power, a);
    hide Tiling, Pow2;
  }

  lemma UseKeepsOthers(tiles: Tiles, a: int, k: nat)
    ensures OthersKept(tiles, tiles[a := Tile(k, true)], a)
  {
  }

  /** A free block starts at a, and none that would do for this order is smaller. */
  ghost predicate BestFit(tiles: Tiles, a: int, order: nat) {
    exists k: nat :: order <= k && IsFree(tiles, a, k) && forall b: int, n: nat | order <= n < k :: !IsFree(tiles, b, n)
  }

  lemma FirstIsBest(table: seq<Bucket>, tiles: Tiles, power: nat, i: nat, j: nat)
    requires ListsOk(table, tiles, power) && Tiling(tiles, power) && i <= j < |table| && table[j].count > 0
    requires forall x | i <= x < j :: table[x].count == 0
    ensures table[j].list != [] && BestFit(tiles, table[j].list[0], i + MIN_ORDER)
  {
    NonEmpty(table, tiles, power, j);
    forall b: int, n: nat | i + MIN_ORDER <= n < j + MIN_ORDER ensures !IsFree(tiles, b, n) {
      assert ListOk(table[n - MIN_ORDER], tiles, n);
    }
  }

  /** The order of the bucket an allocation is taken from: the first whose blocks are no smaller than what is needed. */
  function OrderFor(size: nat): (k: nat)
    ensures k >= MIN_ORDER
  {
    LeastOrder(NextPower2((size + HEADER) % TWO_32), MIN_ORDER)
  }

  function LeastOrder(need: nat, k: nat): (r: nat)
    ensures r >= k
    decreases need - Pow2(k)
  {
    if need <= Pow2(k) then k else LeastOrder(need, k + 1)
  }

  lemma NonEmpty(table: seq<Bucket>, tiles: Tiles, power: nat, j: nat)
    requires ListsOk(table, tiles, power) && j < |table| && table[j].count > 0
    ensures table[j].list != [] && IsFree(tiles, table[j].list[0], j + MIN_ORDER)
  {
    assert ListOk(table[j], tiles, j + MIN_ORDER);
    assert table[j].list[0] in table[j].list;
  }

  lemma SomeLarge(table: seq<Bucket>, tiles: Tiles, power: nat, j: nat, order: nat)
    requires ListsOk(table, tiles, power) && j < |table| && table[j].count > 0 && order <= j + MIN_ORDER
    ensures table[j].list != [] && exists a: int, k: nat :: k >= order && IsFree(tiles, a, k)
  {
    NonEmpty(table, tiles, power, j);
  }

  lemma Weaken(tiles: Tiles, power: nat, a: int)
    requires Tiling(tiles, power) && NoFreeBuddies(tiles, power, -1)
    ensures NoFreeBuddies(tiles, power, a)
  {
    forall x: nat, k: nat | k < power && IsFree(tiles, x, k) && x != a && Buddy(x, Pow2(k)) != a
      ensures !IsFree(tiles, Buddy(x, Pow2(k)), k)
    {
      BuddyHalves(x, Pow2(k));
    }
  }

  lemma SplitKeepsLive(tiles: Tiles, a: int, k: nat)
    requires IsFree(tiles, a, k) && k > 0 && a + Pow2(k - 1) !in Live(tiles)
    ensures Live(Split(tiles, a)) == Live(tiles)
  {
  }

  lemma SplitHeaders(header: map<int, Header>, tiles: Tiles, a: int, k: nat)
    requires HeadersOk(header, tiles) && IsFree(tiles, a, k + 1)
    ensures var h := Header(Pow2(k) - HEADER, false); HeadersOk(header[a := h][a + Pow2(k) := h], Split(tiles, a))
  {
  }

  lemma WholeIsTiling(power: nat)
    requires MIN_ORDER <= power
    ensures Tiling(map[0 := Tile(power, false)], power) && NoFreeBuddies(map[0 := Tile(power, false)], power, -1)
  {
    var t := map[0 := Tile(power, false)];
    assert 0 == 0 * Pow2(power);
    forall x | 0 <= x < Pow2(power) ensures Covered(t, x) {
      assert 0 in t && 0 <= x < 0 + Size(t[0]);
    }
  }

  lemma WholeLists(table: seq<Bucket>, power: nat)
    requires MIN_ORDER <= power && |table| == power - MIN_ORDER + 1
    requires forall i | 0 <= i < |table| :: table[i] == if i == |table| - 1 then Bucket([0], 1) else Bucket([], 0)
    ensures ListsOk(table, map[0 := Tile(power, false)], power)
  {
  }

  /** Once everything allocated has been freed, in whatever order, the arena is again the one block it started as, and
      it is on its list. */
  lemma FreedIsWhole(al: Allocator)
    requires al.Valid() && Live(al.tiles) == map[]
    ensures al.tiles == map[0 := Tile(al.power, false)]
    ensures al.table[al.table.Length - 1] == Bucket([0], 1)
    ensures forall i | 0 <= i < al.table.Length - 1 :: al.table[i] == Bucket([], 0)
  {
    var tiles, t := al.tiles, al.table[..];
    forall a <- tiles ensures !tiles[a].used {
      assert tiles[a].used ==> a in Live(tiles);
    }
    AllFreeIsWhole(tiles, al.power);
    hide Tiling, NoFreeBuddies, HeadersOk;
    forall i | 0 <= i < |t| ensures t[i] == if i == |t| - 1 then Bucket([0], 1) else Bucket([], 0) {
      assert ListOk(t[i], tiles, i + MIN_ORDER);
      OnlyList(t[i], tiles, i + MIN_ORDER, al.power);
    }
  }

  lemma OnlyList(b: Bucket, tiles: Tiles, order: nat, power: nat)
    requires ListOk(b, tiles, order) && tiles == map[0 := Tile(power, false)]
    ensures b == if order == power then Bucket([0], 1) else Bucket([], 0)
  {
    var free := if order == power then {0} else {};
    assert forall a :: IsFree(tiles, a, order) <==> a in free;
    ListCounts(b.list, free);
    if order == power {
      assert b.list[0] in b.list;
    }
  }

  lemma {:induction false} ListCounts(list: seq<int>, s: set<int>)
    requires NoDuplicates(list) && (forall a <- list :: a in s) && forall a <- s :: a in list
    ensures |list| == |s|
  {
    if list == [] {
      assert forall a :: a !in s;
    } else {
      assert list == [list[0]] + list[1..];
      ListCounts(list[1..], s - {list[0]});
    }
  }

  /** An allocation holds the header and the bytes asked for exactly if both fit in 2^31 bytes; it is then as small as
      can be. A larger request wraps around and gets a block of the smallest size. */
  lemma AllocFits(size: nat)
    requires size < TWO_32
    ensures size + HEADER <= Pow2(OrderFor(size)) <==> size + HEADER <= Pow2(31)
    ensures size + HEADER <= Pow2(31) ==> OrderFor(size) == MIN_ORDER || Pow2(OrderFor(size) - 1) < size + HEADER
    ensures size + HEADER > Pow2(31) ==> OrderFor(size) == MIN_ORDER
  {
    var need := size + HEADER;
    assert Pow2(6) == 64 && MIN_ORDER == 6 && HEADER == 32;
    Powers(31);
    Powers(32);
    hide Pow2, NextPower2, LeastOrder;
    if need < TWO_32 {
      var k := OrderAbove(need, MIN_ORDER, 32);
      OrderIs(size, k);
      if k <= 31 {
        Pow2Grows(k, 31);
      } else {
        Pow2Grows(31, k - 1);
      }
    } else {
      WrapsToLeast(size);
    }
  }

  lemma OrderIs(size: nat, k: nat)
    requires size + HEADER < TWO_32 && 6 == MIN_ORDER <= k <= 32
    requires size + HEADER <= Pow2(k) && (k == MIN_ORDER || Pow2(k - 1) < size + HEADER)
    ensures OrderFor(size) == if k <= 31 then k else MIN_ORDER
  {
    assert HEADER == 32;
    hide *;
    NextPower2IsLeast(size + HEADER, k);
    OrderOf(size, if k <= 31 then Pow2(k) else 0);
    if k <= 31 {
      LeastOrderIs(k, MIN_ORDER);
    } else {
      ZeroOrder();
    }
  }

  lemma OrderOf(size: nat, p: nat)
    requires size + HEADER < TWO_32 && NextPower2(size + HEADER) == p
    ensures OrderFor(size) == LeastOrder(p, MIN_ORDER)
  {
    hide NextPower2, LeastOrder;
  }

  lemma ZeroOrder()
    ensures LeastOrder(0, MIN_ORDER) == MIN_ORDER
  {
  }

  lemma WrapsToLeast(size: nat)
    requires size < TWO_32 <= size + HEADER
    ensures OrderFor(size) == MIN_ORDER
  {
    assert (size + HEADER) % TWO_32 == size + HEADER - TWO_32;
    assert Pow2(6) == 64;
  }

  lemma {:induction false} OrderAbove(v: nat, j: nat, top: nat) returns (k: nat)
    requires j <= top && v <= Pow2(top)
    ensures j <= k <= top && v <= Pow2(k) && (k == j || Pow2(k - 1) < v)
    decreases top - j
  {
    if v <= Pow2(j) {
      k := j;
    } else {
      k := OrderAbove(v, j + 1, top);
    }
  }

  lemma {:induction false} LeastOrderIs(k: nat, j: nat)
    requires j <= k
    ensures LeastOrder(Pow2(k), j) == k
    decreases k - j
  {
    Pow2Grows(j, k);
    if j < k {
      LeastOrderIs(k, j + 1);
    }
  }
}
