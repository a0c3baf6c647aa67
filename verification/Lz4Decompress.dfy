/** The decoder. */
module Lz4Decompress {
  import opened Lz4Format
  import opened Lz4Memory

  // ---------- copying a match ----------

  /** The first eight bytes of a match whose offset is less than eight, and where the rest is to be copied from. */
  method CopyShort(a: array<Byte>, op: nat, off: nat) returns (from: nat)
    requires off < 8 && off <= op && op + 8 <= a.Length
    modifies a
    ensures forall k | 0 <= k < a.Length && !(op <= k < op + 8) :: a[k] == old(a[k])
    ensures from <= op + 8
    ensures 1 <= off ==> Repeats(a[..], op, op + 8, off)
    ensures 1 <= off ==> from + 8 <= op + 8 <= from + off + 8
    ensures 1 <= off ==> exists q: nat :: 1 <= q && op + 8 - from == q * off
  {
    var m := op - off;
    a[op] := a[m];
    a[op + 1] := a[m + 1];
    a[op + 2] := a[m + 2];
    a[op + 3] := a[m + 3];
    assert 1 <= off ==> Repeats(a[..], op, op + 4, off);
    ghost var four := a[..];
    TablesInRange(off);
    hide Dec32, Dec64;
    m := m + Dec32(off);
    CopyN(a, op + 4, a, m, 4);
    from := m - Dec64(off);
    if 1 <= off {
      TablesKeepPeriod(off);
      FourMore(a[..], four, op, off, 4 + off - Dec32(off));
    }
  }

  lemma TablesInRange(off: nat)
    requires off < 8
    ensures 1 <= Dec32(off) <= 4 && -1 <= Dec64(off) <= 3 && Dec64(off) <= Dec32(off)
  {
  }

  lemma FourMore(d: seq<Byte>, four: seq<Byte>, op: nat, off: nat, dist: nat)
    requires 1 <= off <= op && op + 8 <= |d| && |d| == |four| && Repeats(four, op, op + 4, off)
    requires 4 <= dist <= off + 4 && exists q: nat :: 1 <= q && dist == q * off
    requires forall k | 0 <= k < op + 4 :: d[k] == four[k]
    requires forall k | op + 4 <= k < op + 8 :: d[k] == four[k - dist]
    ensures Repeats(d, op, op + 8, off)
  {
    var q: nat :| 1 <= q && dist == q * off;
    Periodic(d, op, op + 4, op + 8, off, dist, q);
  }

  /** The rest of a match that ends within twelve bytes of the end of the buffer: eight bytes at a time as long as that
      stays inside, then one at a time. */
  method CopyTail(a: array<Byte>, o0: nat, from0: nat, cpy: nat, oend: nat)
    requires from0 <= o0 <= oend <= a.Length && cpy <= oend && 8 <= oend
    modifies a
    ensures forall k | 0 <= k < o0 || oend <= k < a.Length :: a[k] == old(a[k])
    ensures from0 + 8 <= o0 ==> forall k | o0 <= k < cpy :: a[k] == a[k - (o0 - from0)]
  {
    var o, from := o0, from0;
    if o < oend - 8 {
      WildCopyWithin(a, o, from, oend - 8);
      from := from + (oend - 8 - o);
      o := oend - 8;
    }
    while o < cpy
      invariant o0 <= o <= oend && o - from == o0 - from0
      invariant forall k | 0 <= k < o0 || oend <= k < a.Length :: a[k] == old(a[k])
      invariant from0 + 8 <= o0 ==> forall k | o0 <= k < o :: a[k] == a[k - (o0 - from0)]
    {
      a[o] := a[from];
      o, from := o + 1, from + 1;
    }
  }

  /** Copy the repeated sequence: eight bytes so that source and target are at least eight apart, then eight at a time,
      and byte by byte close to the end of the buffer. It fails if the match would reach into the last five bytes. */
  method CopyRepeated(a: array<Byte>, op: nat, off: nat, length: nat, oend: nat) returns (ok: bool)
    requires off <= op && length >= MINMATCH && op + 8 <= oend <= a.Length
    modifies a
    ensures ok <==> op + length <= oend - LASTLITERALS
    ensures forall k | 0 <= k < op || oend <= k < a.Length :: a[k] == old(a[k])
    ensures ok && 1 <= off ==> Repeats(a[..], op, op + length, off)
  {
    var from: nat, o, cpy := op - off, op + 8, op + length;
    if off < 8 {
      from := CopyShort(a, op, off);
    } else {
      CopyN(a, op, a, from, 8);
      from := from + 8;
      assert 8 + off - 8 == 1 * off;
      assert Repeats(a[..], op, op + 8, off);
    }
    ghost var eight, dist := a[..], o - from;
    if cpy > oend - 12 {
      if cpy > oend - LASTLITERALS {
        return false;
      }
      CopyTail(a, o, from, cpy, oend);
    } else {
      WildCopyWithin(a, o, from, cpy);
    }
    ok := true;
    if 1 <= off {
      RestRepeats(a[..], eight, op, off, cpy, dist);
    }
  }

  lemma RestRepeats(d: seq<Byte>, eight: seq<Byte>, op: nat, off: nat, cpy: nat, dist: nat)
    requires 1 <= off <= op && cpy <= |d| && |d| == |eight| && Repeats(eight, op, op + 8, off)
    requires 8 <= dist <= off + 8 && exists q: nat :: 1 <= q && dist == q * off
    requires forall k | 0 <= k < op + 8 :: d[k] == eight[k]
    requires forall k | op + 8 <= k < cpy :: d[k] == d[k - dist]
    ensures Repeats(d, op, cpy, off)
  {
    if op + 8 <= cpy {
      var q: nat :| 1 <= q && dist == q * off;
      Periodic(d, op, op + 8, cpy, off, dist, q);
    }
  }

  // ---------- reading a block ----------

  /** What is left of a block once its first i parts have been read. */
  function Tail(b: Block, i: nat): seq<Byte>
    requires Writable(b) && i <= |b.parts|
    decreases |b.parts| - i
  {
    if i == |b.parts| then Head(b.last, b.spare) else EncodePart(b.parts[i]) + Tail(b, i + 1)
  }

  lemma {:induction false} TailSplits(b: Block, i: nat)
    requires Writable(b) && i <= |b.parts|
    ensures Encode(b) == EncodeParts(b.parts[..i]) + Tail(b, i)
    decreases |b.parts| - i
  {
    hide EncodePart, Head, Encodable;
    if i == |b.parts| {
      assert b.parts[..i] == b.parts;
    } else {
      TailSplits(b, i + 1);
      var before, all := b.parts[..i], b.parts[..i + 1];
      assert all == before + [b.parts[i]];
      AddPart(before, b.parts[i]);
      assert EncodeParts(all) + Tail(b, i + 1) == EncodeParts(before) + (EncodePart(b.parts[i]) + Tail(b, i + 1));
    }
  }

  /** What is left of a block before a part or the last literals is at least this long. */
  lemma TailLength(b: Block, i: nat)
    requires Writable(b) && i <= |b.parts|
    ensures |Tail(b, i)| >= 1 + |b.last|
    decreases |b.parts| - i
  {
    if i < |b.parts| {
      TailLength(b, i + 1);
    }
  }

  /** The length bytes that follow a full nibble: they are added up until one is less than 255. */
  method ReadLength(src: array<Byte>, ip: nat, start: nat, ghost v: nat) returns (length: nat, next: nat)
    requires ip <= src.Length && LenBytes(v) <= src[ip..]
    ensures length == start + v && next == ip + |LenBytes(v)|
  {
    length, next := start, ip;
    ghost var left := v;
    while true
      invariant next + |LenBytes(left)| == ip + |LenBytes(v)| && length + left == start + v
      invariant next <= src.Length && LenBytes(left) <= src[next..]
      decreases left
    {
      var s := src[next];
      assert s == LenBytes(left)[0] == src[next..][0];
      next, length := next + 1, length + s;
      if s != 255 {
        break;
      }
      assert LenBytes(left) == [255] + LenBytes(left - 255);
      assert src[next..] == src[next - 1..][1..];
      left := left - 255;
    }
  }

  lemma PrefixSplits(a: seq<Byte>, b: seq<Byte>, s: seq<Byte>)
    requires a + b <= s
    ensures a <= s && b <= s[|a|..]
  {
    assert s[..|a|] == (a + b)[..|a|] && s[|a|..][..|b|] == (a + b)[|a|..];
  }

  /** The token and the literal length; the literals come next. */
  method ReadHead(src: array<Byte>, ip: nat, ghost lits: seq<Byte>, ghost more: nat)
    returns (token: nat, length: nat, next: nat)
    requires more < 16 && ip <= src.Length && Head(lits, more) <= src[..][ip..]
    ensures token % 16 == more && length == |lits|
    ensures next + length == ip + |Head(lits, more)| && src[next..next + length] == lits
  {
    assert src[..][ip..] == src[ip..];
    PrefixSplits([16 * Nibble(|lits|) + more] + Ext(|lits|), lits, src[ip..]);
    PrefixSplits([16 * Nibble(|lits|) + more], Ext(|lits|), src[ip..]);
    assert src[ip] == src[ip..][0] == 16 * Nibble(|lits|) + more;
    assert src[ip..][1..] == src[ip + 1..];
    token, next := src[ip], ip + 1;
    length := token / 16;
    if length == RUN_MASK {
      length, next := ReadLength(src, next, length, |lits| - 15);
    }
    assert src[ip..][next - ip..] == src[next..];
  }

  /** A match as it is written: its offset and what its length exceeds the token's four bits by. */
  function MatchBytes(p: Part): seq<Byte>
    requires Encodable(p)
  {
    Le16(p.off) + Ext(p.len - MINMATCH)
  }

  /** The offset and the match length. */
  method ReadMatch(src: array<Byte>, ip: nat, token: nat, ghost p: Part) returns (off: nat, length: nat, next: nat)
    requires Encodable(p) && token % 16 == Nibble(p.len - MINMATCH)
    requires ip <= src.Length && MatchBytes(p) <= src[..][ip..]
    ensures off == p.off && length == p.len && next == ip + |MatchBytes(p)|
  {
    assert src[..][ip..] == src[ip..];
    PrefixSplits(Le16(p.off), Ext(p.len - MINMATCH), src[ip..]);
    assert src[ip] == src[ip..][0] && src[ip + 1] == src[ip..][1];
    var low: nat, high: nat := src[ip], src[ip + 1];
    off, next := low + 256 * high, ip + 2;
    assert src[ip..][2..] == src[next..];
    length := token % 16;
    if length == ML_MASK {
      length, next := ReadLength(src, next, length, p.len - MINMATCH - 15);
    }
    length := length + MINMATCH;
  }

  /** Read and copy one match. */
  method DecodeMatch(src: array<Byte>, dest: array<Byte>, at: nat, op: nat, token: nat, n: nat, ghost p: Part)
    returns (ok: bool, ip: nat, end: nat)
    requires src != dest && Encodable(p) && token % 16 == Nibble(p.len - MINMATCH)
    requires at <= src.Length && MatchBytes(p) <= src[..][at..]
    requires 1 <= p.off <= op && op + 8 <= n <= dest.Length
    modifies dest
    ensures ok <==> op + p.len <= n - LASTLITERALS
    ensures ip == at + |MatchBytes(p)| && end == op + p.len
    ensures ok ==> dest[..end] == CopyMatch(old(dest[..op]), p.off, p.len)
    ensures forall k | n <= k < dest.Length :: dest[k] == old(dest[k])
  {
    hide MatchBytes, Nibble, CopyMatch;
    var off, length;
    off, length, ip := ReadMatch(src, at, token, p);
    ok := CopyRepeated(dest, op, off, length, n);
    end := op + length;
    if ok {
      assert dest[..op] == old(dest[..op]);
      RepeatsIsCopy(dest[..], op, length, off);
    }
  }

  /** The literals of part i are at position at of s, its match follows, and both fit the output. */
  ghost predicate Next(b: Block, i: nat, s: seq<Byte>, out: seq<Byte>, at: nat, litLen: nat, token: nat) {
    && i < |b.parts|
    && var p := b.parts[i];
    && Encodable(p) && at + litLen + 8 <= |s| && s[at..at + litLen] == p.lits
    && token % 16 == Nibble(p.len - MINMATCH) && MatchBytes(p) <= s[at + litLen..]
    && 1 <= p.off <= |out| + litLen && |out| + litLen + 8 <= |Expand(b)| && |out| + litLen + p.len <= |Expand(b)| - 5
    && At(b, i + 1, s, at + litLen + |MatchBytes(p)|, CopyMatch(out + p.lits, p.off, p.len))
  }

  /** The literals and the match of part i. */
  method DecodePart(src: array<Byte>, dest: array<Byte>, at: nat, start: nat, token: nat, litLen: nat, n: nat,
    ghost b: Block, ghost i: nat) returns (ok: bool, ip: nat, op: nat)
    requires src != dest && start <= n == |Expand(b)| && n <= dest.Length
    requires Next(b, i, src[..], dest[..start], at, litLen, token)
    modifies dest
    ensures ok && op <= n && At(b, i + 1, src[..], ip, dest[..op])
    ensures forall k | n <= k < dest.Length :: dest[k] == old(dest[k])
  {
    hide At, Expand, CopyMatch, MatchBytes, Nibble, Encodable;
    ghost var p, out := b.parts[i], dest[..start];
    WildCopy(dest, start, src, at, start + litLen);
    assert dest[..start + litLen] == out + p.lits;
    hide Next;
    ok, ip, op := DecodeMatch(src, dest, at + litLen, start + litLen, token, n, p);
  }

  /** The last literals must end exactly where the output does. */
  method CopyLast(src: array<Byte>, dest: array<Byte>, ip: nat, op: nat, length: nat, n: nat) returns (r: int)
    requires src != dest && ip + length <= src.Length && op <= n <= dest.Length
    modifies dest
    ensures if op + length == n then r == ip + length && dest[..n] == old(dest[..op]) + src[ip..ip + length]
            else r == -(ip + 1) && dest[..] == old(dest[..])
    ensures forall k | n <= k < dest.Length :: dest[k] == old(dest[k])
  {
    if op + length != n {
      return -(ip as int) - 1;
    }
    CopyN(dest, op, src, ip, length);
    assert dest[..n] == old(dest[..op]) + src[ip..ip + length];
    r := ip + length;
  }

  /** LZ4_decompress_fast: given a well-formed block of n bytes it restores them, writes nothing past them, and returns
      the number of bytes the block takes up. */
  method DecompressFast(src: array<Byte>, dest: array<Byte>, n: nat, ghost b: Block) returns (r: int)
    requires src != dest && n <= dest.Length
    requires WellFormed(b) && Encode(b) <= src[..] && |Expand(b)| == n
    modifies dest
    ensures r == |Encode(b)| && dest[..n] == Expand(b)
    ensures forall k | n <= k < dest.Length :: dest[k] == old(dest[k])
  {
    assert LASTLITERALS == 5;
    hide *;
    Start(b, src[..]);
    if n == 0 {
      EmptyBlock(b);
      return if src[0] == 0 then 1 else -1;
    }
    var ip, op := 0, 0;
    ghost var i := 0;
    while true
      invariant 0 <= op <= n && i <= |b.parts| && At(b, i, src[..], ip, dest[..op])
      invariant forall k | n <= k < dest.Length :: dest[k] == old(dest[k])
      decreases |b.parts| - i
    {
      NextPart(b, i, src[..], ip, dest[..op]);
      var token, length, at := ReadHead(src, ip, Lits(b, i), More(b, i));
      if op + length > n - 8 {
        r := CopyLast(src, dest, at, op, length, n);
        return;
      }
      PartIsNext(b, i, src[..], ip, dest[..op], at, length, token);
      var ok: bool;
      ok, ip, op := DecodePart(src, dest, at, op, token, length, n, b, i);
      if !ok {
        return -(ip as int) - 1;
      }
      i := i + 1;
    }
  }

  /** The first i parts have been read and have produced out. */
  predicate At(b: Block, i: nat, s: seq<Byte>, ip: int, out: seq<Byte>) {
    && Writable(b) && i <= |b.parts|
    && 0 <= ip <= |s| && Tail(b, i) <= s[ip..] && ip + |Tail(b, i)| == |Encode(b)|
    && out == Out(b.parts[..i])
  }

  lemma Start(b: Block, s: seq<Byte>)
    requires WellFormed(b) && Encode(b) <= s
    ensures At(b, 0, s, 0, [])
  {
    TailSplits(b, 0);
    assert s[0..] == s;
    hide Tail, Encode;
  }

  function Lits(b: Block, i: nat): seq<Byte> {
    if i < |b.parts| then b.parts[i].lits else b.last
  }

  function More(b: Block, i: nat): (r: nat)
    ensures r < 16
  {
    if i < |b.parts| then (if b.parts[i].len >= MINMATCH then Nibble(b.parts[i].len - MINMATCH) else 0)
    else if b.spare < 16 then b.spare else 0
  }

  lemma NextIsLast(b: Block, i: nat, s: seq<Byte>, ip: int, out: seq<Byte>)
    requires WellFormed(b) && At(b, i, s, ip, out) && i == |b.parts|
    ensures Head(b.last, b.spare) <= s[ip..] && ip + |Head(b.last, b.spare)| == |Encode(b)|
    ensures out + b.last == Expand(b)
  {
    assert b.parts[..i] == b.parts;
    hide Head, Encode, Out;
  }

  lemma MoreOfPart(b: Block, i: nat)
    requires i < |b.parts| && Encodable(b.parts[i])
    ensures More(b, i) == Nibble(b.parts[i].len - MINMATCH) && Lits(b, i) == b.parts[i].lits
  {
  }

  /** Part i is read next; its match starts at position m. */
  lemma NextIsPart(b: Block, i: nat, s: seq<Byte>, ip: int, out: seq<Byte>, m: nat)
    requires WellFormed(b) && At(b, i, s, ip, out) && i < |b.parts| && m == ip + |Head(Lits(b, i), More(b, i))|
    ensures var p := b.parts[i];
      && Encodable(p) && More(b, i) == Nibble(p.len - MINMATCH) && Lits(b, i) == p.lits
      && Head(Lits(b, i), More(b, i)) <= s[ip..] && m + 8 <= |s| && MatchBytes(p) <= s[m..]
      && 1 <= p.off <= |out + p.lits| <= |Expand(b)| - MFLIMIT && |out + p.lits| + p.len <= |Expand(b)| - LASTLITERALS
      && At(b, i + 1, s, m + |MatchBytes(p)|, CopyMatch(out + p.lits, p.off, p.len))
  {
    hide Head, Encode, Out, Expand, MatchBytes, Tail, EncodePart, WellFormed, CopyMatch, OutLen, Nibble, Encodable;
    var p := b.parts[i];
    assert Encodable(p);
    MoreOfPart(b, i);
    TailLayout(b, i, s[ip..]);
    PartFits(b, i);
    hide Lits, More;
    var h := Head(Lits(b, i), More(b, i));
    assert s[ip..][|h|..] == s[m..] && s[ip..][|h| + |MatchBytes(p)|..] == s[m + |MatchBytes(p)|..];
  }

  /** The same once the literals have been read. */
  lemma PartIsNext(b: Block, i: nat, s: seq<Byte>, ip: int, out: seq<Byte>, at: nat, litLen: nat, token: nat)
    requires WellFormed(b) && At(b, i, s, ip, out) && i < |b.parts|
    requires at + litLen == ip + |Head(Lits(b, i), More(b, i))| <= |s|
    requires s[at..at + litLen] == Lits(b, i) && token % 16 == More(b, i)
    ensures Next(b, i, s, out, at, litLen, token)
  {
    hide Head, Out, Encode, Expand, WellFormed, At, CopyMatch, MatchBytes, Lits, More, Nibble, Encodable;
    NextIsPart(b, i, s, ip, out, at + litLen);
  }

  /** What is read next: a part, or the last literals. */
  lemma NextPart(b: Block, i: nat, s: seq<Byte>, ip: int, out: seq<Byte>)
    requires WellFormed(b) && At(b, i, s, ip, out)
    ensures i <= |b.parts| && 0 <= ip <= |s| && More(b, i) < 16 && Head(Lits(b, i), More(b, i)) <= s[ip..]
    ensures i == |b.parts| <==> |out| + |Lits(b, i)| > |Expand(b)| - 8
    ensures i == |b.parts| ==>
      ip + |Head(Lits(b, i), More(b, i))| == |Encode(b)| && out + Lits(b, i) == Expand(b)
  {
    if i == |b.parts| {
      NextIsLast(b, i, s, ip, out);
    } else {
      NextIsPart(b, i, s, ip, out, ip + |Head(Lits(b, i), More(b, i))|);
    }
    hide Head, Out, Encode, Expand, WellFormed, At;
  }

  /** Where the pieces of the next part, or the last literals, are. */
  lemma TailLayout(b: Block, i: nat, s: seq<Byte>)
    requires Writable(b) && i <= |b.parts| && Tail(b, i) <= s
    ensures i == |b.parts| ==> Tail(b, i) == Head(b.last, b.spare)
    ensures i < |b.parts| ==>
      var p := b.parts[i];
      var h, m := Head(p.lits, Nibble(p.len - MINMATCH)), MatchBytes(p);
      && h <= s && m <= s[|h|..] && Tail(b, i + 1) <= s[|h| + |m|..]
      && |Tail(b, i)| == |h| + |m| + |Tail(b, i + 1)| && |m| >= 2 && |Tail(b, i + 1)| >= 1 + |b.last|
  {
    if i < |b.parts| {
      var p, rest := b.parts[i], Tail(b, i + 1);
      var h, m := Head(p.lits, Nibble(p.len - MINMATCH)), MatchBytes(p);
      PartSplits(p);
      TailLength(b, i + 1);
      assert Tail(b, i) == (h + m) + rest;
      hide *;
      PrefixSplits(h + m, rest, s);
      PrefixSplits(h, m, s);
    }
  }

  lemma PartSplits(p: Part)
    requires Encodable(p)
    ensures EncodePart(p) == Head(p.lits, Nibble(p.len - MINMATCH)) + MatchBytes(p) && |MatchBytes(p)| >= 2
  {
    hide Head, Ext;
    assert |Le16(p.off)| == 2;
  }

  /** What the restrictions say of part i. */
  lemma PartFits(b: Block, i: nat)
    requires WellFormed(b) && i <= |b.parts|
    ensures i == |b.parts| ==> OutLen(b.parts[..i]) + |b.last| == |Expand(b)|
    ensures i < |b.parts| ==>
      var p, all := b.parts[i], b.parts[..i + 1];
      && 1 <= p.off <= OutLen(b.parts[..i]) + |p.lits| <= |Expand(b)| - MFLIMIT && |b.last| >= LASTLITERALS
      && OutLen(all) == OutLen(b.parts[..i]) + |p.lits| + p.len <= |Expand(b)| - LASTLITERALS
      && Out(all) == CopyMatch(Out(b.parts[..i]) + p.lits, p.off, p.len)
  {
    if i == |b.parts| {
      assert b.parts[..i] == b.parts;
    } else {
      assert b.parts[..i] + [b.parts[i]] == b.parts[..i + 1];
      AddPart(b.parts[..i], b.parts[i]);
      var j := |b.parts| - 1;
      assert MatchStart(b.parts, i) + MFLIMIT <= |Expand(b)|;
      assert MatchStart(b.parts, j) + b.parts[j].len + LASTLITERALS <= |Expand(b)|;
    }
  }

  lemma EmptyBlock(b: Block)
    requires WellFormed(b) && |Expand(b)| == 0
    ensures Encode(b) == [0]
  {
    PartFits(b, 0);
  }
}
