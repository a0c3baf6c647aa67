/** The parse the compressor makes: which match comes next, given those before it, and how far it goes. It determines
    the block, byte for byte. */
module Lz4Parse {
  import opened Lz4Format
  import opened Lz4Memory
  import opened Lz4Search

  /** LZ4_putPosition */
  function Put(s: seq<Byte>, t: TableType, table: seq<nat>, p: nat): (r: seq<nat>)
    requires |table| == TableSize(t) && p + 8 <= |s|
    ensures |r| == TableSize(t)
  {
    table[Hash(s, p, t) := Slot(p, t)]
  }

  lemma PutOk(s: seq<Byte>, t: TableType, table: seq<nat>, p: nat, top: nat)
    requires TableOk(table, t, top) && p <= top && p + 8 <= |s|
    ensures TableOk(Put(s, t, table, p), t, top)
  {
    hide Hash;
  }

  /** The match that follows output up to anchor. At the start it is the first one a search from position 1 on finds.
      Later, position anchor - 2 is recorded and the table probed at anchor: the entry is taken if it will do, and
      otherwise a search goes on from the next position. */
  function NextMatch(s: seq<Byte>, t: TableType, table: seq<nat>, anchor: nat, nb: nat): Search
    requires Supported(s, t) && (anchor == 0 || MINMATCH <= anchor) && anchor + MFLIMIT <= |s|
    requires TableOk(table, t, anchor)
  {
    hide Hash, Put;
    if anchor == 0 then
      PutOk(s, t, table, 0, 0);
      SearchFrom(s, t, Put(s, t, table, 0), 1, 1, nb)
    else
      PutOk(s, t, table, anchor - 2, anchor);
      PutOk(s, t, Put(s, t, table, anchor - 2), anchor, anchor);
      var filled := Put(s, t, table, anchor - 2);
      var m := filled[Hash(s, anchor, t)];
      if Rejected(s, m, anchor, t) then SearchFrom(s, t, Put(s, t, filled, anchor), anchor + 1, 1, nb)
      else Match(anchor, m, Put(s, t, filled, anchor))
  }

  /** Right behind a match the compressor takes the entry met there exactly if it will do. */
  lemma NextTakes(s: seq<Byte>, t: TableType, table: seq<nat>, anchor: nat, nb: nat)
    requires Supported(s, t) && MINMATCH <= anchor && anchor + MFLIMIT <= |s| && TableOk(table, t, anchor - 1)
    ensures var r, m := NextMatch(s, t, table, anchor, nb), Put(s, t, table, anchor - 2)[Hash(s, anchor, t)];
      r.Match? && r.ip == anchor && r.m == m <==> Usable(s, anchor, m)
  {
    var filled := Put(s, t, table, anchor - 2);
    var m := filled[Hash(s, anchor, t)];
    PutOk(s, t, table, anchor - 2, anchor - 1);
    PutOk(s, t, filled, anchor, anchor);
    RejectedUnlessUsable(s, m, anchor, t);
    hide Hash, Put, Rejected, Usable, SearchFrom;
    SearchFindsWords(s, t, Put(s, t, filled, anchor), anchor + 1, 1, nb);
  }

  /** The table when these parts have been written. */
  ghost function TableAfter(s: seq<Byte>, t: TableType, nb: nat, parts: seq<Part>): seq<nat>
    requires Supported(s, t)
    decreases |parts|, 0
  {
    if parts == [] then seq(TableSize(t), _ => 0) else NextFrom(s, t, nb, parts[..|parts| - 1]).table
  }

  /** The match that comes after these parts, if any: none starts within the last twelve bytes. */
  ghost function NextFrom(s: seq<Byte>, t: TableType, nb: nat, parts: seq<Part>): Search
    requires Supported(s, t)
    decreases |parts|, 1
  {
    var table, anchor := TableAfter(s, t, nb, parts), OutLen(parts);
    if (anchor == 0 || MINMATCH <= anchor) && anchor + MFLIMIT <= |s| && TableOk(table, t, anchor) then
      NextMatch(s, t, table, anchor, nb)
    else NoMatch(table)
  }

  /** The match of a part whose literals end at position at repeats the bytes off back. It goes as far as it can, up to
      the last five bytes, and as far back as it can, up to the part before. */
  ghost predicate Stretched(s: seq<Byte>, at: nat, p: Part) {
    var end := at + p.len;
    && end <= |s| - LASTLITERALS && Same(s, at, end, p.off)
    && (end == |s| - LASTLITERALS || s[end] != s[end - p.off])
    && (p.lits == [] || at == p.off || s[at - 1] != s[at - 1 - p.off])
  }

  /** After these parts the compressor writes p: the next match, stretched both ways, and the literals before it. */
  ghost predicate Taken(s: seq<Byte>, t: TableType, nb: nat, parts: seq<Part>, p: Part)
    requires Supported(s, t)
  {
    var r, at := NextFrom(s, t, nb, parts), OutLen(parts) + |p.lits|;
    && r.Match? && p.off == r.ip - r.m && at <= r.ip && r.ip + MINMATCH <= at + p.len
    && Stretched(s, at, p) && at <= |s| && p.lits == s[OutLen(parts)..at]
  }

  ghost predicate AllTaken(s: seq<Byte>, t: TableType, nb: nat, parts: seq<Part>)
    requires Supported(s, t)
  {
    forall i | 0 <= i < |parts| :: Taken(s, t, nb, parts[..i], parts[i])
  }

  /** These parts have been taken one after the other, and there is no further match. */
  ghost predicate Complete(s: seq<Byte>, t: TableType, nb: nat, parts: seq<Part>)
    requires Supported(s, t)
  {
    AllTaken(s, t, nb, parts) && NextFrom(s, t, nb, parts).NoMatch?
  }

  /** The block the compressor makes of s with this table type and first count. */
  ghost predicate IsParse(s: seq<Byte>, t: TableType, nb: nat, b: Block)
    requires Supported(s, t)
  {
    Complete(s, t, nb, b.parts) && OutLen(b.parts) <= |s| && b.last == s[OutLen(b.parts)..] && b.spare == 0
  }

  // ---------- there is only one ----------

  lemma OneStart(s: seq<Byte>, t: TableType, nb: nat, parts: seq<Part>, p: Part, q: Part)
    requires Supported(s, t) && Taken(s, t, nb, parts, p) && Taken(s, t, nb, parts, q)
    ensures |p.lits| <= |q.lits|
  {
    hide NextFrom, Supported, OutLen;
  }

  lemma OneEnd(s: seq<Byte>, at: nat, p: Part, q: Part)
    requires Stretched(s, at, p) && Stretched(s, at, q) && p.off == q.off
    ensures p.len <= q.len
  {
  }

  lemma TakenFacts(s: seq<Byte>, t: TableType, nb: nat, parts: seq<Part>, p: Part)
    requires Supported(s, t) && Taken(s, t, nb, parts, p)
    ensures var r, at := NextFrom(s, t, nb, parts), OutLen(parts) + |p.lits|;
      && r.Match? && p.off == r.ip - r.m && Stretched(s, at, p) && at <= |s| && p.lits == s[OutLen(parts)..at]
  {
    hide NextFrom, Stretched, OutLen;
  }

  lemma OneNext(s: seq<Byte>, t: TableType, nb: nat, parts: seq<Part>, p: Part, q: Part)
    requires Supported(s, t) && Taken(s, t, nb, parts, p) && Taken(s, t, nb, parts, q)
    ensures p == q
  {
    hide *;
    OneStart(s, t, nb, parts, p, q);
    OneStart(s, t, nb, parts, q, p);
    TakenFacts(s, t, nb, parts, p);
    TakenFacts(s, t, nb, parts, q);
    OneEnd(s, OutLen(parts) + |p.lits|, p, q);
    OneEnd(s, OutLen(parts) + |p.lits|, q, p);
  }

  lemma {:induction false} SameParts(s: seq<Byte>, t: TableType, nb: nat, a: seq<Part>, b: seq<Part>, n: nat)
    requires Supported(s, t) && AllTaken(s, t, nb, a) && AllTaken(s, t, nb, b) && n <= |a| && n <= |b|
    ensures a[..n] == b[..n]
  {
    hide Supported, Taken, NextFrom;
    if n > 0 {
      SameParts(s, t, nb, a, b, n - 1);
      OneNext(s, t, nb, a[..n - 1], a[n - 1], b[n - 1]);
      assert a[..n] == a[..n - 1] + [a[n - 1]] && b[..n] == b[..n - 1] + [b[n - 1]];
    }
  }

  /** An input, a table type and a first count have one parse: whoever writes it writes the same bytes. */
  lemma ParseIsUnique(s: seq<Byte>, t: TableType, nb: nat, b: Block, c: Block)
    requires Supported(s, t) && IsParse(s, t, nb, b) && IsParse(s, t, nb, c)
    ensures b == c
  {
    hide Supported, Taken, NextFrom, OutLen;
    var n := if |b.parts| < |c.parts| then |b.parts| else |c.parts|;
    SameParts(s, t, nb, b.parts, c.parts, n);
    assert b.parts[..|b.parts|] == b.parts && c.parts[..|c.parts|] == c.parts;
    if n < |c.parts| {
      assert Taken(s, t, nb, c.parts[..n], c.parts[n]);
      TakenFacts(s, t, nb, c.parts[..n], c.parts[n]);
    } else if n < |b.parts| {
      assert Taken(s, t, nb, b.parts[..n], b.parts[n]);
      TakenFacts(s, t, nb, b.parts[..n], b.parts[n]);
    }
  }

  // ---------- one part more ----------

  /** The next match is the one at position ip with the bytes at m, or starts further on with the same offset: it was
      found at top, and may have been stretched backwards since. */
  ghost predicate Found(s: seq<Byte>, t: TableType, nb: nat, parts: seq<Part>, ip: nat, m: nat, top: nat,
      table: seq<nat>)
    requires Supported(s, t)
  {
    var r := NextFrom(s, t, nb, parts);
    r.Match? && r.ip == top && r.ip - r.m == ip - m && OutLen(parts) <= ip <= top && r.table == table
  }

  /** p is the part for a match from at to end, with the bytes at m. */
  ghost predicate IsFor(s: seq<Byte>, parts: seq<Part>, at: nat, m: nat, end: nat, p: Part) {
    && OutLen(parts) <= at <= |s| && p.off == at - m && p.lits == s[OutLen(parts)..at]
    && at + p.len == end && Stretched(s, at, p)
  }

  lemma OneMoreTaken(s: seq<Byte>, t: TableType, nb: nat, parts: seq<Part>, p: Part, at: nat, m: nat, top: nat,
      end: nat, table: seq<nat>)
    requires Supported(s, t) && AllTaken(s, t, nb, parts) && Found(s, t, nb, parts, at, m, top, table)
    requires IsFor(s, parts, at, m, end, p) && top + MINMATCH <= end
    ensures AllTaken(s, t, nb, parts + [p]) && TableAfter(s, t, nb, parts + [p]) == table && OutLen(parts + [p]) == end
  {
    hide Supported, NextFrom, Stretched;
    assert (parts + [p])[..|parts|] == parts;
    assert Taken(s, t, nb, parts, p);
    hide Taken, IsFor, Found, OutLen;
    forall i | 0 <= i < |parts + [p]| ensures Taken(s, t, nb, (parts + [p])[..i], (parts + [p])[i]) {
      if i < |parts| {
        assert (parts + [p])[..i] == parts[..i];
      }
    }
  }

  /** Probing the table at ip: position ip - 2 and then ip enter it, and good tells whether the entry m met at ip will
      do. */
  ghost predicate Probed(s: seq<Byte>, t: TableType, table: seq<nat>, ip: nat, good: bool, m: nat, now: seq<nat>) {
    && |table| == TableSize(t) && 4 <= ip && ip + 8 <= |s|
    && m == Put(s, t, table, ip - 2)[Hash(s, ip, t)] && now == Put(s, t, Put(s, t, table, ip - 2), ip)
    && m <= ip && (good <==> !Rejected(s, m, ip, t))
  }

  /** Nothing more to find after output up to ip, or only what a search from the next position on finds. */
  ghost predicate Goes(s: seq<Byte>, t: TableType, nb: nat, parts: seq<Part>, ip: nat, table: seq<nat>)
    requires Supported(s, t)
  {
    if ip + MFLIMIT > |s| then NextFrom(s, t, nb, parts).NoMatch?
    else TableOk(table, t, ip) && NextFrom(s, t, nb, parts) == SearchFrom(s, t, table, ip + 1, 1, nb)
  }

  lemma NextIsProbed(s: seq<Byte>, t: TableType, nb: nat, parts: seq<Part>, ip: nat, good: bool, m: nat,
      table: seq<nat>, now: seq<nat>)
    requires Supported(s, t) && TableAfter(s, t, nb, parts) == table && OutLen(parts) == ip && ip + MFLIMIT <= |s|
    requires TableOk(table, t, ip) && TableOk(now, t, ip) && Probed(s, t, table, ip, good, m, now)
    ensures if good then Found(s, t, nb, parts, ip, m, ip, now) else Goes(s, t, nb, parts, ip, now)
  {
    hide Hash, Rejected, Supported, TableAfter, OutLen, Put;
  }

  lemma NothingLeft(s: seq<Byte>, t: TableType, nb: nat, parts: seq<Part>, ip: nat, table: seq<nat>)
    requires Supported(s, t) && OutLen(parts) == ip && ip + MFLIMIT > |s|
    ensures Goes(s, t, nb, parts, ip, table)
  {
  }

  lemma NothingTaken(s: seq<Byte>, t: TableType, nb: nat, table: seq<nat>)
    requires Supported(s, t) && TableOk(table, t, 0) && MFLIMIT <= |s|
    ensures TableOk(Put(s, t, table, 0), t, 1) && AllTaken(s, t, nb, [])
    ensures NextFrom(s, t, nb, []) == SearchFrom(s, t, Put(s, t, table, 0), 1, 1, nb)
  {
    assert table == seq(TableSize(t), _ => 0);
    hide Hash;
  }

  /** Inputs of at most twelve bytes are all literals. */
  lemma ShortIsLiteral(s: seq<Byte>, t: TableType, nb: nat)
    requires Supported(s, t) && |s| <= MFLIMIT
    ensures Complete(s, t, nb, [])
  {
    hide Hash;
  }
}
