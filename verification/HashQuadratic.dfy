/** The hash table of events received from one PE: quadratic probing in a table of prime size that is at most half
    full. */
module HashQuadratic {
  import opened ModularMath
  import opened Primes

  datatype Slot<T> = Empty | Full(id: nat, item: T)

  datatype Option<T> = None | Some(value: T)

  /** How a lookup ends: in a cell, with the error message, or with a read one cell past the table. */
  datatype Lookup = Found(key: nat) | NotFound | PastEnd

  // ---------- probes ----------

  /** The cell of the i-th probe for an event that hashes to h. */
  function Probe(h: int, i: int, p: int): int
    requires p > 0
  {
    (h + i * i) % p
  }

  /** The next probe is reached by adding the next odd number and subtracting the size at most once. */
  lemma NextProbe(h: int, i: int, p: int)
    requires 0 < p && 0 <= i && 2 * i + 1 <= p
    ensures var k := Probe(h, i, p) + 2 * (i + 1) - 1;
      0 <= k < 2 * p && Probe(h, i + 1, p) == if k >= p then k - p else k
  {
    var x, k := h + i * i, Probe(h, i, p) + 2 * (i + 1) - 1;
    assert h + (i + 1) * (i + 1) == x + 2 * i + 1;
    CongruentMod(x, p);
    assert x == x / p * p + x % p;
    var r := if k >= p then k - p else k;
    CongruentBy(x + 2 * i + 1, r, if k >= p then x / p + 1 else x / p, p);
    ResidueIs(x + 2 * i + 1, r, p);
  }

  /** In a table of prime size the first (p+1)/2 probes are distinct. */
  lemma {:induction false} ProbesAreDistinct(h: int, i: int, j: int, p: int)
    requires OddPrime(p) && 0 <= i < j && 2 * j < p + 1
    ensures Probe(h, i, p) != Probe(h, j, p)
  {
    SquaresAreDistinct(p, i, j);
    if Probe(h, i, p) == Probe(h, j, p) {
      SameRest(h + j * j, h + i * i, p);
    }
  }

  lemma SameRest(x: int, y: int, p: int)
    requires p > 0 && x % p == y % p
    ensures Divides(p, x - y)
  {
    assert x == x / p * p + x % p && y == y / p * p + y % p;
    assert (x / p - y / p) * p == x / p * p - y / p * p;
    DividesBy(p, x - y, x / p - y / p);
  }

  // ---------- a table's contents ----------

  function FullCells<T>(cells: seq<Slot<T>>): set<int> {
    set c | 0 <= c < |cells| && cells[c].Full?
  }

  /** The id's event is where one of the first (p+1)/2 probes finds it. */
  ghost predicate StoredAt<T>(cells: seq<Slot<T>>, id: nat, item: T, i: int) {
    && |cells| > 0 && 0 <= i && 2 * i < |cells| + 1
    && cells[Probe(id, i, |cells|)] == Full(id, item)
  }

  /** Every full cell holds one of these events, each a different one. */
  ghost predicate OnlyThese<T>(cells: seq<Slot<T>>, contents: map<nat, T>) {
    && (forall c | 0 <= c < |cells| && cells[c].Full? ::
          cells[c].id in contents && contents[cells[c].id] == cells[c].item)
    && (forall c, d | 0 <= c < d < |cells| && cells[c].Full? && cells[d].Full? :: cells[c].id != cells[d].id)
  }

  /** Each of these events can be found. */
  ghost predicate AllThese<T>(cells: seq<Slot<T>>, contents: map<nat, T>) {
    forall id <- contents :: exists i :: StoredAt(cells, id, contents[id], i)
  }

  /** The table holds exactly these events. */
  ghost predicate Holds<T>(cells: seq<Slot<T>>, contents: map<nat, T>) {
    OddPrime(|cells|) && OnlyThese(cells, contents) && AllThese(cells, contents) && |FullCells(cells)| == |contents|
  }

  /** The first n probes. */
  function Probed(h: int, n: nat, p: int): set<int>
    requires p > 0
  {
    if n == 0 then {} else Probed(h, n - 1, p) + {Probe(h, n - 1, p)}
  }

  lemma {:induction false} ProbedCount(h: int, n: nat, p: int)
    requires OddPrime(p) && 2 * n <= p + 1
    ensures |Probed(h, n, p)| == n
    ensures forall c :: c in Probed(h, n, p) <==> exists j :: 0 <= j < n && c == Probe(h, j, p)
  {
    if n > 0 {
      ProbedCount(h, n - 1, p);
      forall j | 0 <= j < n - 1 ensures Probe(h, j, p) != Probe(h, n - 1, p) {
        ProbesAreDistinct(h, j, n - 1, p);
      }
    }
  }

  lemma {:induction false} SmallerSet<X>(a: set<X>, b: set<X>)
    requires a <= b
    ensures |a| <= |b|
  {
    if a != {} {
      var x :| x in a;
      SmallerSet(a - {x}, b - {x});
    }
  }

  /** Probes that all find a full cell are no more than the full cells. */
  lemma {:induction false} FullProbes<T>(cells: seq<Slot<T>>, h: int, n: nat)
    requires OddPrime(|cells|) && 2 * n <= |cells| + 1
    requires forall j | 0 <= j < n :: cells[Probe(h, j, |cells|)].Full?
    ensures n <= |FullCells(cells)|
  {
    ProbedCount(h, n, |cells|);
    SmallerSet(Probed(h, n, |cells|), FullCells(cells));
  }

  lemma PutCounts<T>(cells: seq<Slot<T>>, k: int, x: Slot<T>)
    requires 0 <= k < |cells| && cells[k] == Empty && x.Full?
    ensures |FullCells(cells[k := x])| == |FullCells(cells)| + 1
  {
    assert FullCells(cells[k := x]) == FullCells(cells) + {k};
  }

  lemma PutIsFound<T>(cells: seq<Slot<T>>, contents: map<nat, T>, id: nat, item: T, i: nat)
    requires |cells| > 0 && AllThese(cells, contents) && id !in contents && 2 * i < |cells| + 1
    requires cells[Probe(id, i, |cells|)] == Empty
    ensures AllThese(cells[Probe(id, i, |cells|) := Full(id, item)], contents[id := item])
  {
    var after, more := cells[Probe(id, i, |cells|) := Full(id, item)], contents[id := item];
    assert StoredAt(after, id, item, i);
    forall x | x in more ensures exists j :: StoredAt(after, x, more[x], j) {
      if x != id {
        var j :| StoredAt(cells, x, contents[x], j);
        assert StoredAt(after, x, more[x], j);
      }
    }
  }

  /** Filling the empty cell of a probe adds the event. */
  lemma {:induction false} PutAdds<T>(cells: seq<Slot<T>>, contents: map<nat, T>, id: nat, item: T, i: nat)
    requires Holds(cells, contents) && id !in contents && 2 * i < |cells| + 1
    requires cells[Probe(id, i, |cells|)] == Empty
    ensures Holds(cells[Probe(id, i, |cells|) := Full(id, item)], contents[id := item])
  {
    PutIsFound(cells, contents, id, item, i);
    PutCounts(cells, Probe(id, i, |cells|), Full(id, item));
    hide AllThese, FullCells, Probe;
  }

  lemma TakeCounts<T>(cells: seq<Slot<T>>, k: int)
    requires 0 <= k < |cells| && cells[k].Full?
    ensures |FullCells(cells[k := Empty])| == |FullCells(cells)| - 1
  {
    assert FullCells(cells) == FullCells(cells[k := Empty]) + {k};
  }

  lemma OthersAreFound<T>(cells: seq<Slot<T>>, contents: map<nat, T>, k: int)
    requires AllThese(cells, contents) && 0 <= k < |cells| && cells[k].Full?
    ensures AllThese(cells[k := Empty], contents - {cells[k].id})
  {
    var after, less := cells[k := Empty], contents - {cells[k].id};
    forall x | x in less ensures exists j :: StoredAt(after, x, less[x], j) {
      var j :| StoredAt(cells, x, contents[x], j);
      assert StoredAt(after, x, less[x], j);
    }
  }

  /** Emptying an event's cell removes that event and no other: the probes for the others are unaffected. */
  lemma {:induction false} TakeRemoves<T>(cells: seq<Slot<T>>, contents: map<nat, T>, k: int)
    requires Holds(cells, contents) && 0 <= k < |cells| && cells[k].Full?
    ensures Holds(cells[k := Empty], contents - {cells[k].id})
  {
    OthersAreFound(cells, contents, k);
    TakeCounts(cells, k);
    OneFewer(contents, cells[k].id);
    OnlyOthers(cells, contents, k);
    hide AllThese, OnlyThese, FullCells, OddPrime;
  }

  lemma OnlyOthers<T>(cells: seq<Slot<T>>, contents: map<nat, T>, k: int)
    requires OnlyThese(cells, contents) && 0 <= k < |cells| && cells[k].Full?
    ensures OnlyThese(cells[k := Empty], contents - {cells[k].id})
  {
  }

  lemma OneFewer<T>(contents: map<nat, T>, id: nat)
    requires id in contents
    ensures |contents - {id}| == |contents| - 1
  {
    assert contents == (contents - {id})[id := contents[id]];
  }

  lemma EmptyTable<T>(cells: seq<Slot<T>>)
    requires OddPrime(|cells|) && forall c | 0 <= c < |cells| :: cells[c] == Empty
    ensures Holds(cells, map[])
  {
    assert FullCells(cells) == {};
  }

  lemma SizeIsOdd<T>(cells: seq<Slot<T>>, contents: map<nat, T>)
    requires Holds(cells, contents)
    ensures |cells| % 2 == 1
  {
  }

  // ---------- the table ----------

  /** Cell key is the first empty one the probes meet. */
  ghost predicate IsFirstEmpty<T>(cells: seq<Slot<T>>, id: nat, key: nat) {
    && key < |cells| && cells[key] == Empty
    && exists i: nat :: Probe(id, i, |cells|) == key && forall j | 0 <= j < i :: cells[Probe(id, j, |cells|)].Full?
  }

  /** From cells to now the event was put into the first empty cell. */
  ghost predicate IsPut<T>(cells: seq<Slot<T>>, now: seq<Slot<T>>, id: nat, item: T) {
    exists key: nat :: IsFirstEmpty(cells, id, key) && now == cells[key := Full(id, item)]
  }

  /** find_empty: a table that is at most half full has an empty cell among the first (p+1)/2 probes. */
  method FindEmpty<T>(cells: array<Slot<T>>, id: nat) returns (key: nat, ghost i: nat)
    requires OddPrime(cells.Length) && 2 * |FullCells(cells[..])| < cells.Length
    ensures 2 * i < cells.Length + 1 && key == Probe(id, i, cells.Length) < cells.Length && cells[key] == Empty
    ensures IsFirstEmpty(cells[..], id, key)
  {
    i := 0;
    var size, n := cells.Length, 0;
    key := id % size;
    while cells[key].Full?
      invariant n == i && 2 * i < size + 1 && key == Probe(id, i, size) < size
      invariant forall j | 0 <= j < i :: cells[..][Probe(id, j, size)].Full?
      decreases size - i
    {
      FullProbes(cells[..], id, i + 1);
      NextProbe(id, i, size);
      n, i := n + 1, i + 1;
      key := key + 2 * n - 1;
      if key >= size {
        key := key - size;
      }
    }
  }

  /** Past the middle the probes go from the middle one up by 2, 4, 6 and so on. The range check only stops them beyond
      the cell after the last, and that cell is read if they meet it. */
  ghost predicate MeetsEnd(id: nat, p: int)
    requires p > 0
  {
    exists j: nat :: Climb(id, j, p) == p
  }

  /** The cell of the j-th probe past the middle. */
  function Climb(id: nat, j: nat, p: int): int
    requires p > 0
  {
    Probe(id, (p - 1) / 2, p) + j * (j + 1)
  }

  /** A probe that steps over the end shows that none meets it. */
  lemma StepsOver(id: nat, j: nat, p: int)
    requires p > 0 && Climb(id, j, p) < p < Climb(id, j + 1, p)
    ensures !MeetsEnd(id, p)
  {
    forall x: nat ensures Climb(id, x, p) != p {
      if x <= j {
        Oblong(x, j);
      } else {
        Oblong(j + 1, x);
      }
    }
  }

  lemma {:induction false} Oblong(x: nat, y: nat)
    requires x <= y
    ensures x * (x + 1) <= y * (y + 1) && y <= y * (y + 1)
  {
    if x < y {
      Oblong(x, y - 1);
      assert (y - 1) * y <= y * (y + 1);
    }
  }

  lemma ClimbStep(id: nat, j: nat, p: int)
    requires p > 0
    ensures Climb(id, j + 1, p) == Climb(id, j, p) + 2 * (j + 1)
  {
    assert (j + 1) * (j + 2) == j * (j + 1) + 2 * (j + 1);
  }

  /** The key of probe i, and what it means that the event has not been found yet: probes beyond the middle are only
      made for one that is not there. */
  ghost predicate Trying(id: nat, i: nat, key: int, p: int, there: bool, last: nat)
    requires p > 0
  {
    && 0 <= key < p
    && (2 * i <= p + 1 ==> key == Probe(id, i, p))
    && (2 * i > p ==> key == Climb(id, i - (p + 1) / 2, p))
    && (there ==> i <= last && 2 * last < p + 1)
  }

  /** The next key, before the range check. */
  function After(key: int, i: nat, p: int): int {
    var k := key + 2 * (i + 1) - 1;
    if k >= p then k - p else k
  }

  /** Up to the middle. */
  lemma EarlyTry(id: nat, i: nat, key: int, p: int, there: bool, last: nat)
    requires p > 0 && p % 2 == 1 && Trying(id, i, key, p, there, last) && 2 * i + 1 <= p && (there ==> i < last)
    ensures Trying(id, i + 1, After(key, i, p), p, there, last)
  {
    NextProbe(id, i, p);
    hide Probe;
    if 2 * (i + 1) > p {
      assert i == (p - 1) / 2 && key == Probe(id, i, p);
      assert After(key, i, p) == key && Climb(id, 0, p) == key;
    }
  }

  /** And past it. */
  lemma LateTry(id: nat, i: nat, key: int, p: int, there: bool, last: nat)
    requires p > 0 && p % 2 == 1 && Trying(id, i, key, p, there, last) && 2 * i > p && (there ==> i < last)
    ensures !there && i < 2 * p
    ensures var k := After(key, i, p);
      if k < p then Trying(id, i + 1, k, p, there, last) else (k == p <==> MeetsEnd(id, p))
  {
    var j := i - (p + 1) / 2;
    ClimbStep(id, j, p);
    assert After(key, i, p) == Climb(id, j + 1, p);
    Oblong(j, j);
    assert Climb(id, j, p) >= j;
    hide Climb, Probe;
    if Climb(id, j + 1, p) > p {
      StepsOver(id, j, p);
    }
  }

  lemma NextTry(id: nat, i: nat, key: int, p: int, there: bool, last: nat)
    requires p > 0 && p % 2 == 1 && Trying(id, i, key, p, there, last) && (there ==> i < last)
    ensures i < 2 * p
    ensures var k := After(key, i, p);
      if k < p then Trying(id, i + 1, k, p, there, last) else !there && (k == p <==> MeetsEnd(id, p))
  {
    hide MeetsEnd, Probe, Climb;
    if 2 * i + 1 <= p {
      EarlyTry(id, i, key, p, there, last);
    } else {
      LateTry(id, i, key, p, there, last);
    }
  }

  /** find_entry: a stored event is found, past empty cells and others. One that is not stored is reported, unless the
      probes meet the cell after the last one. */
  method FindEntry<T>(cells: array<Slot<T>>, id: nat, ghost contents: map<nat, T>) returns (r: Lookup)
    requires Holds(cells[..], contents)
    ensures r.Found? <==> id in contents
    ensures r.Found? ==> r.key < cells.Length && cells[r.key] == Full(id, contents[id])
    ensures r.PastEnd? <==> id !in contents && MeetsEnd(id, cells.Length)
  {
    ghost var there, last := id in contents, 0;
    if there {
      last :| StoredAt(cells[..], id, contents[id], last);
    }
    SizeIsOdd(cells[..], contents);
    var size, i := cells.Length, 0;
    var key := id % size;
    hide MeetsEnd, Climb;
    while cells[key] == Empty || cells[key].id != id
      invariant Trying(id, i, key, size, there, last)
      decreases 2 * size - i
    {
      NextTry(id, i, key, size, there, last);
      i := i + 1;
      key := key + 2 * i - 1;
      if key >= size {
        key := key - size;
      }
      if key > size {
        return NotFound;
      }
      if key == size {
        return PastEnd;
      }
    }
    r := Found(key);
  }

  /** In a table of the default size the lookup of an event that is not stored reads past the end for five of its 31
      hash values. */
  lemma DefaultTable(id: nat)
    ensures MeetsEnd(id, 31) <==> id % 31 in {3, 11, 17, 21, 24}
  {
    assert Probe(id, 15, 31) == (id % 31 + 8) % 31;
    var k := Probe(id, 15, 31);
    if id % 31 in {3, 11, 17, 21, 24} {
      var j := if k == 29 then 1 else if k == 25 then 2 else if k == 19 then 3 else if k == 11 then 4 else 5;
      assert Climb(id, j, 31) == 31;
    } else {
      forall j: nat ensures Climb(id, j, 31) != 31 {
        if j >= 6 {
          Oblong(6, j);
        } else {
          assert j == 0 || j == 1 || j == 2 || j == 3 || j == 4 || j == 5;
        }
      }
    }
  }

  /** The table of one sending PE. */
  class Table<T> {
    var cells: array<Slot<T>>
    var stored: nat
    ghost var contents: map<nat, T>

    ghost predicate Valid()
      reads this, cells
    {
      Holds(cells[..], contents) && stored == |contents| && stored <= cells.Length / 2
    }

    /** tw_hash_create: the configured size, or the next prime if that is not one. */
    constructor (size: nat)
      ensures Valid() && contents == map[] && fresh(cells)
      ensures if OddPrime(size) then cells.Length == size else IsNextPrime(size, cells.Length)
    {
      var n := size;
      var prime := IsPrime(size);
      if !prime {
        n := NextPrime(size);
      }
      cells := new Slot<T>[n](_ => Empty);
      stored, contents := 0, map[];
      new;
      EmptyTable(cells[..]);
    }

    /** insert, on a table with room. */
    method Put(id: nat, item: T)
      requires Holds(cells[..], contents) && id !in contents && 2 * |contents| < cells.Length
      modifies this`contents, cells
      ensures Holds(cells[..], contents) && contents == old(contents)[id := item]
      ensures IsPut(old(cells[..]), cells[..], id, item)
    {
      var key, i := FindEmpty(cells, id);
      hide IsFirstEmpty;
      PutAdds(cells[..], contents, id, item, i);
      ghost var after := cells[..][key := Full(id, item)];
      cells[key] := Full(id, item);
      assert cells[..] == after;
      contents := contents[id := item];
    }

    /** tw_hash_insert: a table that would be more than half full is replaced by a larger one. */
    method Insert(id: nat, item: T)
      requires Valid() && id !in contents
      modifies this, cells
      ensures Valid() && contents == old(contents)[id := item]
      ensures if 2 * |contents| > old(cells.Length) then fresh(cells) && IsNextPrime(old(cells.Length), cells.Length)
              else cells == old(cells) && IsPut(old(cells[..]), cells[..], id, item)
    {
      Put(id, item);
      stored := stored + 1;
      if stored > cells.Length / 2 {
        Rehash();
      }
    }

    /** rehash: every event of the old table is put into one of the next prime size; none is lost. */
    method Rehash()
      requires Holds(cells[..], contents) && stored == |contents| && stored <= cells.Length / 2 + 1
      modifies this
      ensures Valid() && contents == old(contents) && stored == old(stored) && fresh(cells)
      ensures IsNextPrime(old(cells.Length), cells.Length)
    {
      var list := cells;
      ghost var all := contents;
      SizeIsOdd(list[..], all);
      hide Holds, OddPrime;
      StartLarger();
      MoveAll(list, all);
    }

    method StartLarger()
      modifies this
      ensures fresh(cells) && IsNextPrime(old(cells.Length), cells.Length) && Holds(cells[..], contents)
      ensures stored == 0 && contents == map[]
    {
      var size := NextPrime(cells.Length);
      stored, contents, cells := 0, map[], new Slot<T>[size](_ => Empty);
      EmptyTable(cells[..]);
    }

    method MoveAll(list: array<Slot<T>>, ghost all: map<nat, T>)
      requires list != cells && Holds(list[..], all) && 2 * |all| < cells.Length
      requires Holds(cells[..], contents) && stored == 0 && contents == map[]
      modifies this`contents, this`stored, cells
      ensures Holds(cells[..], contents) && stored == |contents| && contents == all
    {
      hide Holds;
      for i := 0 to list.Length
        invariant list[..] == old(list[..]) && Moved(list[..], i)
      {
        MoveCell(list, i, all);
      }
      UptoAll(list[..], all);
    }

    /** The first n cells of a replaced table have been moved. */
    ghost predicate Moved(list: seq<Slot<T>>, n: nat)
      requires n <= |list|
      reads this, cells
    {
      Holds(cells[..], contents) && stored == |contents| && contents == Upto(list, n)
    }

    method MoveCell(list: array<Slot<T>>, i: nat, ghost all: map<nat, T>)
      requires i < list.Length && list != cells && Holds(list[..], all) && 2 * |all| < cells.Length
      requires Moved(list[..], i)
      modifies this`contents, this`stored, cells
      ensures Moved(list[..], i + 1)
    {
      UptoNext(list[..], all, i);
      hide Holds, IsPut;
      if list[i].Full? {
        Put(list[i].id, list[i].item);
        stored := stored + 1;
      }
    }

    /** tw_hash_remove: the event, if it is there. */
    method Remove(id: nat) returns (r: Lookup, item: Option<T>)
      requires Valid()
      modifies this`stored, this`contents, cells
      ensures Valid() && (r.Found? <==> id in old(contents))
      ensures r.Found? ==> item == Some(old(contents)[id]) && contents == old(contents) - {id}
      ensures !r.Found? ==> item == None && contents == old(contents) && cells[..] == old(cells[..])
      ensures r.PastEnd? <==> id !in old(contents) && MeetsEnd(id, cells.Length)
    {
      r := FindEntry(cells, id, contents);
      item := None;
      if r.Found? {
        var key := r.key;
        item := Some(cells[key].item);
        TakeRemoves(cells[..], contents, key);
        ghost var after := cells[..][key := Empty];
        cells[key] := Empty;
        assert cells[..] == after;
        stored := stored - 1;
        contents := contents - {id};
      }
    }
  }

  /** The events in the first n cells. */
  ghost function Upto<T>(cells: seq<Slot<T>>, n: nat): map<nat, T>
    requires n <= |cells|
  {
    if n == 0 then map[]
    else
      var rest := Upto(cells, n - 1);
      if cells[n - 1].Full? then rest[cells[n - 1].id := cells[n - 1].item] else rest
  }

  lemma {:induction false} UptoIs<T>(cells: seq<Slot<T>>, contents: map<nat, T>, n: nat)
    requires Holds(cells, contents) && n <= |cells|
    ensures Upto(cells, n).Keys == set c | 0 <= c < n && cells[c].Full? :: cells[c].id
    ensures Upto(cells, n).Keys <= contents.Keys && forall id <- Upto(cells, n) :: Upto(cells, n)[id] == contents[id]
  {
    if n > 0 {
      UptoIs(cells, contents, n - 1);
    }
  }

  /** The next cell's event is not among those before it, of which there are no more than in the whole table. */
  lemma UptoNext<T>(cells: seq<Slot<T>>, contents: map<nat, T>, n: nat)
    requires Holds(cells, contents) && n < |cells|
    ensures cells[n].Full? ==> cells[n].id !in Upto(cells, n)
    ensures |Upto(cells, n)| <= |contents|
  {
    UptoIs(cells, contents, n);
    SmallerMap(Upto(cells, n), contents);
  }

  lemma SmallerMap<T>(a: map<nat, T>, b: map<nat, T>)
    requires a.Keys <= b.Keys
    ensures |a| <= |b|
  {
    SmallerSet(a.Keys, b.Keys);
    assert |a.Keys| == |a| && |b.Keys| == |b|;
  }

  lemma UptoAll<T>(cells: seq<Slot<T>>, contents: map<nat, T>)
    requires Holds(cells, contents)
    ensures Upto(cells, |cells|) == contents
  {
    UptoIs(cells, contents, |cells|);
    forall id <- contents ensures id in Upto(cells, |cells|) {
      var i :| StoredAt(cells, id, contents[id], i);
      assert cells[Probe(id, i, |cells|)].id == id;
    }
  }
}
