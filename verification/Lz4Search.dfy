/** The search for the next match: a hash table of recent positions, probed at a pace that quickens the longer nothing
    is found. */
module Lz4Search {
  import opened Lz4Format
  import opened Lz4Memory

  /** The two widths of table entries in use: four bytes, or two for inputs of less than LIMIT_64K bytes. */
  datatype TableType = ByU32 | ByU16

  const LIMIT_64K := 65536 + MFLIMIT - 1
  const TWO_26 := 0x400_0000
  const TWO_32 := 0x1_0000_0000
  const TWO_64 := 0x1_0000_0000_0000_0000
  const PRIME_5_BYTES := 889523592379

  function TableSize(t: TableType): nat {
    if t.ByU16? then 8192 else 4096
  }

  /** LZ4_hashPosition on a 64-bit machine. */
  function Hash(s: seq<Byte>, p: nat, t: TableType): (h: nat)
    requires p + 8 <= |s|
    ensures h < TableSize(t)
  {
    var product := Word(s, p, 8) * PRIME_5_BYTES % TWO_64;
    if t.ByU16? then product / 0x800_0000 % 8192 else product / 0x1000_0000 % 4096
  }

  lemma FiveAndThree(x: seq<Byte>)
    requires |x| == 8
    ensures Le(x) == Le(x[..5]) + 0x100_0000_0000 * Le(x[5..])
  {
    var y := x[..5];
    assert x[1..][1..] == x[2..] && x[2..][1..] == x[3..] && x[3..][1..] == x[4..] && x[4..][1..] == x[5..];
    assert y[1..][1..] == y[2..] && y[2..][1..] == y[3..] && y[3..][1..] == y[4..] && y[4..][1..] == [];
    assert Le(x[3..]) == x[3] + 256 * (x[4] + 256 * Le(x[5..])) && Le(y[3..]) == x[3] + 256 * Le(y[4..]);
    assert Le(x[1..]) == x[1] + 256 * (x[2] + 256 * Le(x[3..])) && Le(y[1..]) == x[1] + 256 * (x[2] + 256 * Le(y[3..]));
  }

  lemma Bits27(x: nat, e: int)
    requires x + 0x100_0000_0000 * e >= 0
    ensures (x + 0x100_0000_0000 * e) / 0x800_0000 % 8192 == x / 0x800_0000 % 8192
  {
    assert (x + 0x800_0000 * (8192 * e)) / 0x800_0000 == x / 0x800_0000 + 8192 * e;
  }

  lemma Bits28(x: nat, e: int)
    requires x + 0x100_0000_0000 * e >= 0
    ensures (x + 0x100_0000_0000 * e) / 0x1000_0000 % 4096 == x / 0x1000_0000 % 4096
  {
    assert (x + 0x1000_0000 * (4096 * e)) / 0x1000_0000 == x / 0x1000_0000 + 4096 * e;
  }

  lemma MiddleBits(x: nat, c: nat)
    ensures (x + 0x100_0000_0000 * c) % TWO_64 / 0x800_0000 % 8192 == x / 0x800_0000 % 8192
    ensures (x + 0x100_0000_0000 * c) % TWO_64 / 0x1000_0000 % 4096 == x / 0x1000_0000 % 4096
  {
    var y := x + 0x100_0000_0000 * c;
    var e := c - 0x100_0000 * (y / TWO_64);
    assert y % TWO_64 == x + 0x100_0000_0000 * e;
    Bits27(x, e);
    Bits28(x, e);
  }

  /** The table is indexed by five bytes: where the same five stand, the same entry is met. */
  lemma HashOfFiveBytes(s: seq<Byte>, p: nat, q: nat, t: TableType)
    requires p + 8 <= |s| && q + 8 <= |s| && s[p..p + 5] == s[q..q + 5]
    ensures Hash(s, p, t) == Hash(s, q, t)
  {
    var x, y := s[p..p + 8], s[q..q + 8];
    assert x[..5] == s[p..p + 5] && y[..5] == s[q..q + 5];
    FiveAndThree(x);
    FiveAndThree(y);
    hide Le;
    var a, b, c := Le(x[..5]), Le(x[5..]), Le(y[5..]);
    Distributes(a, b, PRIME_5_BYTES);
    Distributes(a, c, PRIME_5_BYTES);
    MiddleBits(a * PRIME_5_BYTES, b * PRIME_5_BYTES);
    MiddleBits(a * PRIME_5_BYTES, c * PRIME_5_BYTES);
    assert Word(s, p, 8) == Le(x) && Word(s, q, 8) == Le(y);
  }

  /** The hashes of four words of a single bit, which together show every bit of the factor. */
  lemma HashExamples(s: seq<Byte>, p: nat)
    requires p + 8 <= |s|
    ensures Word(s, p, 8) == 1 ==> Hash(s, p, ByU16) == 6627 && Hash(s, p, ByU32) == 3313
    ensures Word(s, p, 8) == 0x2000 ==> Hash(s, p, ByU16) == 3827
    ensures Word(s, p, 8) == 0x400_0000 ==> Hash(s, p, ByU16) == 3677
    ensures Word(s, p, 8) == 0x800_0000 ==> Hash(s, p, ByU16) == 7355
  {
    hide Word;
  }

  lemma Distributes(a: nat, b: nat, c: nat)
    ensures (a + 0x100_0000_0000 * b) * c == a * c + 0x100_0000_0000 * (b * c)
  {
  }

  /** What a table entry keeps of a position. */
  function Slot(p: nat, t: TableType): nat {
    p % if t.ByU16? then 65536 else TWO_32
  }

  predicate TableOk(table: seq<nat>, t: TableType, top: int) {
    |table| == TableSize(t) && forall h | 0 <= h < |table| :: table[h] <= top
  }

  /** What the compressor supports with each table type. */
  predicate Supported(s: seq<Byte>, t: TableType) {
    |s| <= MAX_INPUT_SIZE && (t.ByU16? ==> |s| < LIMIT_64K)
  }

  /** No entry ever loses part of a position that can still be the start of a match. */
  lemma SlotKeeps(s: seq<Byte>, p: nat, t: TableType)
    requires Supported(s, t) && p + MFLIMIT <= |s|
    ensures Slot(p, t) == p
  {
  }

  /** The entry m will not do for a match at ip: too far back, or other bytes. */
  predicate Rejected(s: seq<Byte>, m: nat, ip: nat, t: TableType)
    requires m <= ip && ip + 4 <= |s|
  {
    (t.ByU32? && m + MAX_DISTANCE < ip) || Word(s, m, 4) != Word(s, ip, 4)
  }

  datatype Search = NoMatch(table: seq<nat>) | Match(ip: nat, m: nat, table: seq<nat>)

  /** The search from position ip: the table is probed and updated there, and the next position is step further on; the
      step is the running count nb, a 32-bit number, divided by 64. */
  function SearchFrom(s: seq<Byte>, t: TableType, table: seq<nat>, ip: nat, step: nat, nb: nat): (r: Search)
    requires Supported(s, t) && TableOk(table, t, ip) && ip + 8 <= |s|
    decreases |s| - ip, if table[Hash(s, ip, t)] == ip then 0 else 1
  {
    if ip + step + MFLIMIT > |s| then NoMatch(table)
    else
      var h := Hash(s, ip, t);
      SlotKeeps(s, ip, t);
      var updated := table[h := Slot(ip, t)];
      if Rejected(s, table[h], ip, t) then SearchFrom(s, t, updated, ip + step, nb / 64, (nb + 1) % TWO_32)
      else Match(ip, table[h], updated)
  }

  /** A match is a position no later than the present one, near enough for an offset, where the same four bytes
      stand. */
  lemma {:induction false} SearchFindsWords(s: seq<Byte>, t: TableType, table: seq<nat>, ip: nat, step: nat, nb: nat)
    requires Supported(s, t) && TableOk(table, t, ip) && ip + 8 <= |s|
    ensures var r := SearchFrom(s, t, table, ip, step, nb);
      && (r.NoMatch? ==> |r.table| == TableSize(t))
      && (r.Match? ==>
        && ip <= r.ip && r.ip + MFLIMIT <= |s| && r.m <= r.ip <= r.m + MAX_DISTANCE
        && TableOk(r.table, t, r.ip) && Same(s, r.ip, r.ip + 4, r.ip - r.m))
    decreases |s| - ip, if table[Hash(s, ip, t)] == ip then 0 else 1
  {
    hide Hash, Word;
    if ip + step + MFLIMIT <= |s| {
      var h := Hash(s, ip, t);
      SlotKeeps(s, ip, t);
      if Rejected(s, table[h], ip, t) {
        SearchFindsWords(s, t, table[h := Slot(ip, t)], ip + step, nb / 64, (nb + 1) % TWO_32);
      } else {
        FourBytes(s, ip, table[h]);
      }
    }
  }

  /** An earlier position that will do for a match at ip: near enough for an offset, with the same four bytes. */
  predicate Usable(s: seq<Byte>, ip: nat, m: nat) {
    m < ip <= m + MAX_DISTANCE && ip + 4 <= |s| && s[m..m + 4] == s[ip..ip + 4]
  }

  lemma RejectedUnlessUsable(s: seq<Byte>, m: nat, ip: nat, t: TableType)
    requires Supported(s, t) && m < ip && ip + MFLIMIT <= |s|
    ensures Rejected(s, m, ip, t) <==> !Usable(s, ip, m)
  {
    LeIsInjective(s[m..m + 4], s[ip..ip + 4]);
    hide Le;
  }

  /** The search takes what is there: with room left for a match, it ends at its first position exactly if the entry it
      finds there will do. */
  lemma SearchTakes(s: seq<Byte>, t: TableType, table: seq<nat>, ip: nat, step: nat, nb: nat)
    requires Supported(s, t) && TableOk(table, t, ip - 1) && ip + step + MFLIMIT <= |s| && 0 < step && 0 < ip
    ensures var r, m := SearchFrom(s, t, table, ip, step, nb), table[Hash(s, ip, t)];
      r.Match? && r.ip == ip && r.m == m <==> Usable(s, ip, m)
  {
    var m := table[Hash(s, ip, t)];
    RejectedUnlessUsable(s, m, ip, t);
    hide Hash, Rejected, Usable, Word;
    if Rejected(s, m, ip, t) {
      SearchMovesOn(s, t, table, ip, step, nb);
    }
  }

  lemma SearchMovesOn(s: seq<Byte>, t: TableType, table: seq<nat>, ip: nat, step: nat, nb: nat)
    requires Supported(s, t) && TableOk(table, t, ip) && ip + step + MFLIMIT <= |s| && 0 < step
    requires Rejected(s, table[Hash(s, ip, t)], ip, t)
    ensures var r := SearchFrom(s, t, table, ip, step, nb); r.Match? ==> r.ip > ip
  {
    SlotKeeps(s, ip, t);
    hide Hash, Rejected, Word;
    SearchFindsWords(s, t, table[Hash(s, ip, t) := Slot(ip, t)], ip + step, nb / 64, (nb + 1) % TWO_32);
  }

  lemma FourBytes(s: seq<Byte>, ip: nat, m: nat)
    requires m <= ip && ip + 4 <= |s| && Word(s, m, 4) == Word(s, ip, 4)
    ensures Same(s, ip, ip + 4, ip - m)
  {
    var x, y := s[m..m + 4], s[ip..ip + 4];
    LeIsInjective(x, y);
    forall k | ip <= k < ip + 4 ensures s[k] == s[k - (ip - m)] {
      assert s[k] == y[k - ip] && s[k - (ip - m)] == x[k - ip];
    }
  }

  /** The pace of a search that started with step 1 and a count of at least 64: never zero, and by the time the count
      could wrap around, the search would have left any supported input. */
  predicate Paced(ip: nat, step: nat, nb: nat) {
    && 1 <= step && 64 <= nb < TWO_32
    && (nb > TWO_32 - 64 ==> step == TWO_26 - 1 && (nb - TWO_32 + 63) * (TWO_26 - 1) <= ip)
  }

  lemma PaceKept(ip: nat, step: nat, nb: nat, n: nat)
    requires Paced(ip, step, nb) && ip + step + MFLIMIT <= n <= MAX_INPUT_SIZE
    ensures 1 <= step && Paced(ip + step, nb / 64, (nb + 1) % TWO_32)
  {
  }

  /** A search that keeps moving only finds positions before the present one. */
  lemma {:induction false} SearchFindsEarlier(s: seq<Byte>, t: TableType, table: seq<nat>, ip: nat, step: nat, nb: nat)
    requires Supported(s, t) && 1 <= ip && TableOk(table, t, ip - 1) && ip + 8 <= |s| && Paced(ip, step, nb)
    ensures var r := SearchFrom(s, t, table, ip, step, nb); r.Match? ==> r.m < r.ip
    decreases |s| - ip
  {
    hide Hash, Rejected, Paced;
    if ip + step + MFLIMIT <= |s| {
      var h := Hash(s, ip, t);
      SlotKeeps(s, ip, t);
      PaceKept(ip, step, nb, |s|);
      if Rejected(s, table[h], ip, t) {
        SearchFindsEarlier(s, t, table[h := Slot(ip, t)], ip + step, nb / 64, (nb + 1) % TWO_32);
      }
    }
  }

  /** acceleration << LZ4_skipTrigger as an unsigned 32-bit number. */
  function FirstCount(acceleration: nat): nat {
    acceleration * 64 % TWO_32
  }

  /** The pace of a search: after the first step, of one position, each is as long as the acceleration, and one longer
      for every sixty-four positions searched in vain. */
  lemma PaceQuickens(acceleration: nat, n: nat)
    requires acceleration * 64 + n < TWO_32
    ensures (FirstCount(acceleration) + n) / 64 == acceleration + n / 64
  {
  }

  /** Accelerations whose first count is zero make the search stand still. */
  predicate Moves(acceleration: nat) {
    acceleration % TWO_26 != 0
  }

  lemma MovesIsPaced(acceleration: nat, ip: nat)
    requires Moves(acceleration)
    ensures Paced(ip, 1, FirstCount(acceleration))
  {
  }

  /** With a step of zero the search stays where it is: an entry that will not do is replaced by the present position,
      which is then found as its own match. */
  lemma SearchStandsStill(s: seq<Byte>, t: TableType, table: seq<nat>, ip: nat, nb: nat)
    requires Supported(s, t) && TableOk(table, t, ip) && ip + MFLIMIT <= |s| && nb < 63
    ensures var r := SearchFrom(s, t, table, ip, 0, nb);
      && r.Match? && r.ip == ip
      && r.m == if Rejected(s, table[Hash(s, ip, t)], ip, t) then ip else table[Hash(s, ip, t)]
  {
    hide Hash, Word;
    var h := Hash(s, ip, t);
    SlotKeeps(s, ip, t);
    if Rejected(s, table[h], ip, t) {
      assert !Rejected(s, ip, ip, t);
      assert SearchFrom(s, t, table[h := ip], ip, 0, nb + 1).Match?;
    }
  }

  /** Every match the search finds with this acceleration, on whatever input, is an earlier position. */
  ghost predicate AlwaysFindsEarlier(acceleration: nat) {
    forall s: seq<Byte>, t: TableType, table: seq<nat>, ip: nat ::
      Supported(s, t) && 1 <= ip && TableOk(table, t, ip - 1) && ip + 8 <= |s| ==>
        var r := SearchFrom(s, t, table, ip, 1, FirstCount(acceleration)); r.Match? ==> r.m < r.ip
  }

  /** The search is sound exactly for the accelerations that are not multiples of 2^26: for those the shift that makes
      the first count loses every bit, and an input without repetition is matched with itself. */
  lemma {:induction false} SearchIsSound(acceleration: nat)
    ensures AlwaysFindsEarlier(acceleration) <==> Moves(acceleration)
  {
    hide SearchFrom, Supported;
    if Moves(acceleration) {
      forall s: seq<Byte>, t: TableType, table: seq<nat>, ip: nat
        | Supported(s, t) && 1 <= ip && TableOk(table, t, ip - 1) && ip + 8 <= |s|
        ensures var r := SearchFrom(s, t, table, ip, 1, FirstCount(acceleration)); r.Match? ==> r.m < r.ip
      {
        MovesIsPaced(acceleration, ip);
        hide *;
        SearchFindsEarlier(s, t, table, ip, 1, FirstCount(acceleration));
      }
    } else {
      var s: seq<Byte>, table := seq(16, i => i), seq(TableSize(ByU16), _ => 0);
      NoRepetition();
      FreshStartStandsStill(s, ByU16);
      assert FirstCount(acceleration) == 0;
      hide FirstCount, TableOk, TableSize;
      assert TableOk(table, ByU16, 1 - 1);
      assert SearchFrom(s, ByU16, table, 1, 1, FirstCount(acceleration)).m == 2;
    }
  }

  /** No four bytes that start at one of the first three positions are the same. */
  predicate FreshStart(s: seq<Byte>) {
    && MFLIMIT + 2 <= |s|
    && Word(s, 0, 4) != Word(s, 1, 4) && Word(s, 0, 4) != Word(s, 2, 4) && Word(s, 1, 4) != Word(s, 2, 4)
  }

  /** An input that starts without repetition, searched from its start with a first count of zero, is matched with
      itself. */
  lemma FreshStartStandsStill(s: seq<Byte>, t: TableType)
    requires Supported(s, t) && FreshStart(s)
    ensures var table := seq(TableSize(t), _ => 0);
      && TableOk(table, t, 0)
      && var r := SearchFrom(s, t, table, 1, 1, 0); r.Match? && r.ip == r.m == 2
  {
    var table := seq(TableSize(t), _ => 0);
    hide Word, Hash;
    SearchStandsStill(s, t, table[Hash(s, 1, t) := 1], 2, 1);
  }

  /** Sixteen bytes that never repeat. */
  lemma NoRepetition()
    ensures var s: seq<Byte> := seq(16, i => i); Supported(s, ByU16) && FreshStart(s)
  {
    var s: seq<Byte> := seq(16, i => i);
    Differ(s, 0, 1);
    Differ(s, 0, 2);
    Differ(s, 1, 2);
  }

  lemma Differ(s: seq<Byte>, i: nat, j: nat)
    requires i + 4 <= |s| && j + 4 <= |s| && s[i] != s[j]
    ensures Word(s, i, 4) != Word(s, j, 4)
  {
    LeIsInjective(s[i..i + 4], s[j..j + 4]);
    assert s[i..i + 4][0] != s[j..j + 4][0];
  }
}
