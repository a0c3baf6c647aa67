/** The memory primitives of the codec: word reads, eight-byte copies, and the loops built on them. */
module Lz4Memory {
  import opened Lz4Format

  // ---------- words ----------

  /** The bytes of s as a little-endian number. */
  function Le(s: seq<Byte>): nat {
    if s == [] then 0 else s[0] + 256 * Le(s[1..])
  }

  /** A word of n bytes read at position i. */
  function Word(s: seq<Byte>, i: int, n: nat): nat
    requires 0 <= i && i + n <= |s|
  {
    Le(s[i..i + n])
  }

  lemma {:induction false} LeIsInjective(x: seq<Byte>, y: seq<Byte>)
    requires |x| == |y|
    ensures Le(x) == Le(y) <==> x == y
  {
    if x != [] {
      LeIsInjective(x[1..], y[1..]);
      assert x == [x[0]] + x[1..] && y == [y[0]] + y[1..];
    }
  }

  lemma {:induction false} LeOfZeros(x: seq<Byte>)
    requires forall i | 0 <= i < |x| :: x[i] == 0
    ensures Le(x) == 0
  {
    if x != [] {
      LeOfZeros(x[1..]);
    }
  }

  /** The low bits in which two different words agree: the trailing zero bits of their exclusive or. */
  function AgreeBits(a: nat, b: nat): nat
    requires a != b
    decreases a + b
  {
    if a % 2 != b % 2 then 0 else 1 + AgreeBits(a / 2, b / 2)
  }

  /** a shifted left by k bits. */
  function Shl(a: nat, k: nat): nat {
    if k == 0 then a else 2 * Shl(a, k - 1)
  }

  lemma ShlByte(a: nat)
    ensures Shl(a, 8) == 256 * a
  {
    assert Shl(a, 1) == 2 * a;
    assert Shl(a, 3) == 8 * a;
    assert Shl(a, 5) == 32 * a;
    assert Shl(a, 7) == 128 * a;
  }

  lemma {:induction false} AgreeOnLow(a: nat, b: nat, c: nat, k: nat)
    requires a != b && c < Shl(1, k)
    ensures c + Shl(a, k) != c + Shl(b, k)
    ensures AgreeBits(c + Shl(a, k), c + Shl(b, k)) == k + AgreeBits(a, b)
  {
    if k > 0 {
      AgreeOnLow(a, b, c / 2, k - 1);
      assert (c + Shl(a, k)) / 2 == c / 2 + Shl(a, k - 1) && (c + Shl(b, k)) / 2 == c / 2 + Shl(b, k - 1);
    }
  }

  lemma {:induction false} DifferOnLow(a: nat, b: nat, c: nat, d: nat, k: nat)
    requires c < Shl(1, k) && d < Shl(1, k) && c != d
    ensures c + Shl(a, k) != d + Shl(b, k)
    ensures AgreeBits(c + Shl(a, k), d + Shl(b, k)) < k
  {
    if c % 2 == d % 2 {
      DifferOnLow(a, b, c / 2, d / 2, k - 1);
      assert (c + Shl(a, k)) / 2 == c / 2 + Shl(a, k - 1) && (d + Shl(b, k)) / 2 == d / 2 + Shl(b, k - 1);
    } else {
      assert (c + Shl(a, k)) % 2 == c % 2 && (d + Shl(b, k)) % 2 == d % 2;
    }
  }

  lemma LeByByte(x: seq<Byte>)
    requires x != []
    ensures Le(x) == x[0] + Shl(Le(x[1..]), 8) && x[0] < Shl(1, 8)
  {
    ShlByte(1);
    ShlByte(Le(x[1..]));
  }

  /** n is the first position at which x and y differ. */
  predicate FirstDifference(x: seq<Byte>, y: seq<Byte>, n: int) {
    0 <= n < |x| == |y| && x[n] != y[n] && forall k | 0 <= k < n :: x[k] == y[k]
  }

  lemma FirstIsLater(x: seq<Byte>, y: seq<Byte>, n: int)
    requires x != [] && y != [] && x[0] == y[0] && FirstDifference(x[1..], y[1..], n)
    ensures FirstDifference(x, y, n + 1)
  {
    assert forall k | 0 < k < |x| :: x[k] == x[1..][k - 1] && y[k] == y[1..][k - 1];
  }

  lemma {:induction false} FindDifference(x: seq<Byte>, y: seq<Byte>) returns (n: nat)
    requires |x| == |y| && x != y
    ensures FirstDifference(x, y, n) && Le(x) != Le(y) && 8 * n <= AgreeBits(Le(x), Le(y)) < 8 * n + 8
  {
    LeByByte(x);
    LeByByte(y);
    hide Le, Shl, AgreeBits;
    if x[0] == y[0] {
      assert x == [x[0]] + x[1..] && y == [y[0]] + y[1..];
      n := FindDifference(x[1..], y[1..]);
      FirstIsLater(x, y, n);
      hide FirstDifference;
      AgreeOnLow(Le(x[1..]), Le(y[1..]), x[0], 8);
      n := n + 1;
    } else {
      n := 0;
      DifferOnLow(Le(x[1..]), Le(y[1..]), x[0], y[0], 8);
    }
  }

  /** LZ4_NbCommonBytes: counting trailing zero bits and dividing by eight finds the first byte that differs. */
  lemma CommonBytes(x: seq<Byte>, y: seq<Byte>)
    requires |x| == |y| && x != y
    ensures Le(x) != Le(y) && FirstDifference(x, y, AgreeBits(Le(x), Le(y)) / 8)
  {
    var n := FindDifference(x, y);
    hide *;
    assert AgreeBits(Le(x), Le(y)) / 8 == n;
  }

  /** The stretch of s from i up to j is the one d bytes before it. */
  predicate Same(s: seq<Byte>, i: int, j: int, d: nat) {
    d <= i && j <= |s| && forall k | i <= k < j :: s[k] == s[k - d]
  }

  /** The stretches of s at i and at j agree for exactly n bytes, or as far as the limit. */
  predicate Common(s: seq<Byte>, i: int, j: int, limit: int, n: nat) {
    && 0 <= j <= i && i + n <= limit <= |s| && Same(s, i, i + n, i - j)
    && (i + n < limit ==> s[i + n] != s[j + n])
  }

  lemma {:induction false} SomeCommon(s: seq<Byte>, i: nat, j: nat, limit: nat) returns (n: nat)
    requires j <= i <= limit <= |s|
    ensures Common(s, i, j, limit, n)
  {
    n := 0;
    while i + n < limit && s[i + n] == s[j + n]
      invariant i + n <= limit && Same(s, i, i + n, i - j)
    {
      n := n + 1;
    }
  }

  /** Two words agree exactly if they lie within the part that agrees. */
  lemma WordsAgree(s: seq<Byte>, i: int, j: int, limit: int, c: nat, k: nat, n: nat)
    requires Common(s, i, j, limit, c) && k <= c && i + k + n <= limit
    ensures Word(s, i + k, n) == Word(s, j + k, n) <==> k + n <= c
  {
    var x, y := s[i + k..i + k + n], s[j + k..j + k + n];
    LeIsInjective(x, y);
    if k + n <= c {
      assert forall h | 0 <= h < n :: x[h] == s[i + k + h] && y[h] == s[i + k + h - (i - j)];
    } else {
      assert x[c - k] == s[i + c] && y[c - k] == s[j + c];
    }
  }

  /** Where they do not, counting the bits in which they agree finds how far they do. */
  lemma WordsDiffer(s: seq<Byte>, i: int, j: int, limit: int, c: nat, k: nat, n: nat)
    requires Common(s, i, j, limit, c) && k <= c < k + n && i + k + n <= limit
    ensures Word(s, i + k, n) != Word(s, j + k, n)
    ensures k + AgreeBits(Word(s, j + k, n), Word(s, i + k, n)) / 8 == c
  {
    var x, y := s[i + k..i + k + n], s[j + k..j + k + n];
    CommonBytes(y, x);
    assert x[c - k] == s[i + c] && y[c - k] == s[j + c];
    assert forall h | 0 <= h < c - k :: x[h] == s[i + k + h] && y[h] == s[i + k + h - (i - j)];
    hide Le, AgreeBits;
  }

  /** The end of LZ4_count: four bytes, then two, then one. */
  method CountRest(a: array<Byte>, pIn: nat, pMatch: nat, limit: nat) returns (n: nat)
    requires pMatch <= pIn <= limit <= a.Length && limit - 7 <= pIn
    ensures Common(a[..], pIn, pMatch, limit, n)
  {
    ghost var s := a[..];
    ghost var c := SomeCommon(s, pIn, pMatch, limit);
    assert pIn + c <= limit;
    hide *;
    n := 0;
    if pIn < limit - 3 {
      WordsAgree(s, pIn, pMatch, limit, c, n, 4);
      if Word(a[..], pMatch, 4) == Word(a[..], pIn, 4) {
        n := 4;
      }
    }
    assert n <= c && c < n + 4;
    if pIn + n < limit - 1 {
      WordsAgree(s, pIn, pMatch, limit, c, n, 2);
      if Word(a[..], pMatch + n, 2) == Word(a[..], pIn + n, 2) {
        n := n + 2;
      }
    }
    assert n <= c && c < n + 2;
    OneByte(s, pIn, pMatch, limit, c, n);
    if pIn + n < limit && a[pMatch + n] == a[pIn + n] {
      n := n + 1;
    }
  }

  /** LZ4_count: eight bytes at a time as long as they fit. */
  method Count(a: array<Byte>, pIn: nat, pMatch: nat, limit: nat) returns (n: nat)
    requires pMatch <= pIn <= limit <= a.Length
    ensures Common(a[..], pIn, pMatch, limit, n)
  {
    ghost var s := a[..];
    ghost var c := SomeCommon(s, pIn, pMatch, limit);
    assert pIn + c <= limit;
    var i, j := pIn, pMatch;
    while i < limit - 7
      invariant pIn <= i <= pIn + c && i - j == pIn - pMatch
    {
      hide *;
      WordsAgree(s, pIn, pMatch, limit, c, i - pIn, 8);
      var x, y := Word(a[..], j, 8), Word(a[..], i, 8);
      if x != y {
        WordsDiffer(s, pIn, pMatch, limit, c, i - pIn, 8);
        return i + AgreeBits(x, y) / 8 - pIn;
      }
      i, j := i + 8, j + 8;
    }
    var rest := CountRest(a, i, j, limit);
    n := i + rest - pIn;
  }

  lemma OneByte(s: seq<Byte>, i: int, j: int, limit: int, c: nat, k: nat)
    requires Common(s, i, j, limit, c) && k <= c
    ensures i + k < limit ==> (s[i + k] == s[j + k] <==> k + 1 <= c)
  {
    if k < c {
      assert s[i + k] == s[i + k - (i - j)];
    }
  }

  // ---------- copies ----------

  /** LZ4_copy4 and LZ4_copy8: memcpy of n bytes, whose effect is only defined if the two stretches do not overlap. */
  method CopyN(dst: array<Byte>, d: nat, src: array<Byte>, s: nat, n: nat)
    requires d + n <= dst.Length && s + n <= src.Length
    modifies dst
    ensures forall k | 0 <= k < dst.Length && !(d <= k < d + n) :: dst[k] == old(dst[k])
    ensures (dst != src || s + n <= d) ==> forall k | d <= k < d + n :: dst[k] == old(src[k - d + s])
  {
    forall k | d <= k < d + n {
      dst[k] := src[k - d + s];
    }
  }

  /** LZ4_wildCopy between two buffers: everything up to e is copied, and at most seven bytes past it are overwritten
      (eight if there is nothing to copy). */
  method WildCopy(dst: array<Byte>, d: nat, src: array<Byte>, s: nat, e: nat)
    requires dst != src && d <= e && e + 8 <= dst.Length && s + (e - d) + 8 <= src.Length
    modifies dst
    ensures dst[..e] == old(dst[..d]) + src[s..s + (e - d)]
    ensures forall k | e + 8 <= k < dst.Length :: dst[k] == old(dst[k])
  {
    var i, j := d, s;
    while true
      invariant d <= i && j - s == i - d && (i == d || i < e)
      invariant forall k | 0 <= k < d :: dst[k] == old(dst[k])
      invariant forall k | d <= k < i :: dst[k] == src[s + k - d]
      invariant forall k | e + 8 <= k < dst.Length :: dst[k] == old(dst[k])
      decreases e - i
    {
      CopyN(dst, i, src, j, 8);
      i, j := i + 8, j + 8;
      if i >= e {
        break;
      }
    }
  }

  /** LZ4_wildCopy within the output: with eight bytes or more between source and target, every byte up to e repeats the
      one that far back. */
  method WildCopyWithin(a: array<Byte>, d: nat, s: nat, e: nat)
    requires s <= d && (d < e || d + 8 <= a.Length) && (d < e ==> e + 7 <= a.Length)
    modifies a
    ensures forall k | 0 <= k < d :: a[k] == old(a[k])
    ensures s + 8 <= d ==> forall k | d <= k < e :: a[k] == a[k - (d - s)]
    ensures forall k | (if d < e then e + 7 else d + 8) <= k < a.Length :: a[k] == old(a[k])
  {
    var i, j := d, s;
    while true
      invariant d <= i && j - s == i - d && (i == d || i < e)
      invariant forall k | 0 <= k < d :: a[k] == old(a[k])
      invariant s + 8 <= d ==> forall k | d <= k < i :: a[k] == a[k - (d - s)]
      invariant forall k | (if d < e then e + 7 else d + 8) <= k < a.Length :: a[k] == old(a[k])
      decreases e - i
    {
      CopyN(a, i, a, j, 8);
      i, j := i + 8, j + 8;
      if i >= e {
        break;
      }
    }
  }

  // ---------- the repeated sequence ----------

  /** How far the decoder moves the source of a match with a short offset, after the first four bytes and after the
      first eight. */
  function Dec32(off: nat): int
    requires off < 8
  {
    [4, 1, 2, 1, 4, 4, 4, 4][off]
  }

  function Dec64(off: nat): int
    requires off < 8
  {
    [0, 0, 0, -1, 0, 1, 2, 3][off]
  }

  lemma {:induction false} StepBack(d: seq<Byte>, lo: int, hi: int, off: int, k: int, q: nat)
    requires Repeats(d, lo, hi, off) && 1 <= q && k <= hi <= |d| && lo <= k - (q - 1) * off
    ensures 0 <= k - q * off <= k - off < |d| && d[k - off] == d[k - q * off]
  {
    if q > 1 {
      assert k - (q - 1) * off == k - (q - 2) * off - off;
      StepBack(d, lo, hi, off, k, q - 1);
    }
  }

  /** A stretch copied from a whole number of periods back goes on repeating with the period. */
  lemma {:induction false} Periodic(d: seq<Byte>, lo: int, m: int, hi: int, off: int, dist: int, q: nat)
    requires Repeats(d, lo, m, off) && 1 <= q && dist == q * off && lo <= m <= hi <= |d| && lo - off <= m - dist
    requires forall k | m <= k < hi :: d[k] == d[k - dist]
    ensures Repeats(d, lo, hi, off)
    decreases hi - m
  {
    if m < hi {
      assert m - (q - 1) * off == m - dist + off;
      StepBack(d, lo, m, off, m, q);
      Periodic(d, lo, m + 1, hi, off, dist, q);
    }
  }

  /** The distance between source and target after eight bytes is eight or more and a whole number of offsets. */
  lemma TablesKeepPeriod(off: nat)
    requires 1 <= off < 8
    ensures 4 <= 4 + off - Dec32(off) <= 4 + off && exists q :: 1 <= q && 4 + off - Dec32(off) == q * off
    ensures 8 <= 8 + off - Dec32(off) + Dec64(off) <= 8 + off
    ensures exists q :: 1 <= q && 8 + off - Dec32(off) + Dec64(off) == q * off
  {
    match off {
      case 1 => assert 4 == 4 * 1 && 8 == 8 * 1;
      case 2 => assert 4 == 2 * 2 && 8 == 4 * 2;
      case 3 => assert 6 == 2 * 3 && 9 == 3 * 3;
      case 4 => assert 4 == 1 * 4 && 8 == 2 * 4;
      case 5 => assert 5 == 1 * 5 && 10 == 2 * 5;
      case 6 => assert 6 == 1 * 6 && 12 == 2 * 6;
      case 7 => assert 7 == 1 * 7 && 14 == 2 * 7;
    }
  }
}
