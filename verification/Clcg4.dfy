/** The combined linear congruential generator: four components that run forwards, backwards and ahead. */
module Clcg4 {
  import opened BuddyPowers
  import opened ModularMath

  newtype int32 = x: int | -0x8000_0000 <= x < 0x8000_0000
  newtype int64 = x: int | -0x8000_0000_0000_0000 <= x < 0x8000_0000_0000_0000

  const H: int32 := 32768

  /** The four moduli. */
  function M(j: nat): (m: int32)
    requires j < 4
    ensures 65535 * 32768 <= m
  {
    [2147483647, 2147483543, 2147483423, 2147483323][j]
  }

  function A(j: nat): int32
    requires j < 4
  {
    [45991, 207707, 138556, 49689][j]
  }

  // ---------- MultModM ----------

  /** Adding m until the result is no longer negative. */
  method AddUntilPositive(r0: int32, m: int32, ghost x: int) returns (r: int32)
    requires 0 < m && -0x7fff_ffff <= r0 < m && Congruent(x, r0 as int, m as int)
    ensures 0 <= r < m && Congruent(x, r as int, m as int)
  {
    r := r0;
    while r < 0
      invariant -0x7fff_ffff <= r < m && Congruent(x, r as int, m as int)
      decreases -(r as int)
    {
      CongruentBy(r as int, r as int + m as int, -1, m as int);
      CongruentTrans(x, r as int, r as int + m as int, m as int);
      r := r + m;
    }
  }

  /** H times t for t in range, without overflow: the quotient of m by H is taken apart. */
  method TimesH(t: int32, m: int32) returns (r: int32)
    requires 65535 * 32768 <= m && 0 <= t < m
    ensures 0 <= r < m && Congruent(32768 * t as int, r as int, m as int)
  {
    var qh := m / H;
    var rh := m - H * qh;
    var k := t / qh;
    PiecesH(t as int, m as int);
    r := H * (t - k * qh) - k * rh;
    CongruentBy(32768 * t as int, r as int, k as int, m as int);
    r := AddUntilPositive(r, m, 32768 * t as int);
  }

  lemma PiecesH(t: int, m: int)
    requires 65535 * 32768 <= m < 0x8000_0000 && 0 <= t < m
    ensures m / 32768 == 65535 && 0 <= m - 32768 * 65535 < 32768
    ensures var k := t / 65535;
      0 <= k <= 32768 && 0 <= t - k * 65535 < 65535 && 0 <= k * (m - 32768 * 65535) < 0x4000_0000
  {
    var k, e := t / 65535, m - 32768 * 65535;
    MulLe(k, 32768, e);
  }

  lemma DivParts(m: int, s: int)
    requires s > 0 && m >= 0
    ensures m / s >= 0 && 0 <= m - s * (m / s) < s && 0 <= s * (m / s) <= m
  {
  }

  /** What dividing m by s and t by the quotient leaves, and how large the pieces get. */
  lemma Pieces(s: int, t: int, m: int)
    requires 65535 * 32768 <= m < 0x8000_0000 && 0 < s < 32768 && 0 <= t < m
    ensures m / s > 0
    ensures var q := m / s; var k := t / q; var e, f := m - s * q, t - k * q;
      && 0 <= k <= s && 0 <= e < s && 0 <= f < q && 0 <= s * q <= m && 0 <= k * q <= t
      && 0 <= k * e < 0x4000_0000 && 0 <= s * f < m && s * t == k * m - k * e + s * f
  {
    var q := m / s;
    DivParts(m, s);
    QuotientIsLarge(s, q, m);
    var k := t / q;
    DivParts(t, q);
    Commute(q, k);
    PiecesOf(s, t, m, q, k);
  }

  lemma Commute(q: int, k: int)
    ensures q * k == k * q
  {
  }

  lemma QuotientIsLarge(s: int, q: int, m: int)
    requires 65535 * 32768 <= m && 0 < s < 32768 && m < s * q + s && q >= 0
    ensures q >= 32768
  {
    if q < 32768 {
      MulLe(q, 32767, s);
    }
  }

  lemma QuotientIsSmall(s: int, q: int, k: int, t: int, m: int)
    requires 0 < s <= q && t < m && m < s * q + s && k * q <= t
    ensures k <= s
  {
    assert (s + 1) * q == s * q + q;
    if k > s {
      MulLe(s + 1, k, q);
    }
  }

  lemma PiecesOf(s: int, t: int, m: int, q: int, k: int)
    requires 0 < s < 32768 <= q && 0 <= t < m && 0 <= k && 0 <= m - s * q < s && 0 <= t - k * q < q && 0 <= s * q
    ensures var e, f := m - s * q, t - k * q;
      k <= s && 0 <= k * e < 0x4000_0000 && 0 <= s * f < m && s * t == k * m - k * e + s * f
  {
    var e, f := m - s * q, t - k * q;
    QuotientIsSmall(s, q, k, t, m);
    ProductBounds(k, e, s, f, q, m);
    Distribute(s, t, m, q, k);
  }

  lemma Distribute(s: int, t: int, m: int, q: int, k: int)
    ensures s * t == k * m - k * (m - s * q) + s * (t - k * q)
  {
    Swap2(s, k, q);
    assert s * (t - k * q) == s * t - s * (k * q);
    assert k * (m - s * q) == k * m - k * (s * q);
  }

  lemma Swap2(s: int, k: int, q: int)
    ensures s * (k * q) == k * (s * q)
  {
    Assoc(s, k, q);
    Assoc(k, s, q);
  }

  lemma ProductBounds(k: int, e: int, s: int, f: int, q: int, m: int)
    requires 0 <= k <= s < 32768 && 0 <= e < s && 0 <= f < q && s * q <= m
    ensures 0 <= k * e < 0x4000_0000 && 0 <= s * f < m
  {
    MulLe(k, s, e);
    MulLe(e, 32767, s);
    MulLe(f, q - 1, s);
  }

  /** r plus s times t, for s less than H, without overflow. */
  method PlusTimes(r0: int32, s: int32, t: int32, m: int32) returns (r: int32)
    requires 65535 * 32768 <= m && 0 <= r0 < m && 0 < s < 32768 && 0 <= t < m
    ensures 0 <= r < m && Congruent(r0 as int + s as int * t as int, r as int, m as int)
  {
    Pieces(s as int, t as int, m as int);
    var q := m / s;
    var k := t / q;
    r := r0 - k * (m - s * q);
    ghost var c := k as int;
    if r > 0 {
      r := r - m;
      c := c + 1;
    }
    r := r + s * (t - k * q);
    PlusIs(r0 as int, s as int, t as int, m as int, k as int, c, r as int);
    r := AddUntilPositive(r, m, r0 as int + s as int * t as int);
  }

  lemma PlusIs(r0: int, s: int, t: int, m: int, k: int, c: int, r: int)
    requires r0 + s * t - k * m == r + (c - k) * m
    ensures Congruent(r0 + s * t, r, m)
  {
    CongruentBy(r0 + s * t, r, c, m);
  }

  /** What has been accumulated is congruent to h times t; multiplying by H and adding l times t keeps step. */
  lemma Horner(r: int, h: int, t: int, m: int, r1: int, l: int, r2: int)
    requires Congruent(h * t, r, m) && Congruent(32768 * r, r1, m) && Congruent(r1 + l * t, r2, m)
    ensures Congruent((32768 * h + l) * t, r2, m)
  {
    CongruentMul(h * t, r, 32768, m);
    CongruentTrans(32768 * (h * t), 32768 * r, r1, m);
    CongruentRefl(l * t, m);
    CongruentAdd(32768 * (h * t), r1, l * t, l * t, m);
    CongruentTrans(32768 * (h * t) + l * t, r1 + l * t, r2, m);
    assert (32768 * h + l) * t == 32768 * (h * t) + l * t;
  }

  lemma AddTo(r: int, h: int, t: int, m: int, l: int, r1: int)
    requires Congruent(h * t, r, m) && Congruent(r + l * t, r1, m)
    ensures Congruent((h + l) * t, r1, m)
  {
    CongruentRefl(l * t, m);
    CongruentAdd(h * t, r, l * t, l * t, m);
    CongruentTrans(h * t + l * t, r + l * t, r1, m);
    assert (h + l) * t == h * t + l * t;
  }

  /** r plus s times t, or r if s is zero. */
  method MaybePlus(r0: int32, s: int32, t: int32, m: int32) returns (r: int32)
    requires 65535 * 32768 <= m && 0 <= r0 < m && 0 <= s < 32768 && 0 <= t < m
    ensures 0 <= r < m && Congruent(r0 as int + s as int * t as int, r as int, m as int)
  {
    if s != 0 {
      r := PlusTimes(r0, s, t, m);
    } else {
      r := r0;
      CongruentRefl(r as int, m as int);
    }
  }

  /** MultModM: the product modulo m, with every intermediate value in 32 bits. */
  method MultModM(s0: int32, t0: int32, m: int32) returns (r: int32)
    requires 65535 * 32768 <= m && -m < s0 < m && -m < t0 < m
    ensures 0 <= r < m && r as int == (s0 as int * t0 as int) % (m as int)
  {
    var s, t := s0, t0;
    if s < 0 {
      s := s + m;
    }
    if t < 0 {
      t := t + m;
    }
    ProductShift(s0 as int, t0 as int, s as int, t as int, m as int);
    CongruentRefl(0, m as int);
    var low, high: int32;
    r := 0;
    if s < H {
      low := s;
      assert s as int * t as int == (0 + low as int) * t as int;
    } else {
      high := s / H;
      low := s - H * high;
      ghost var h := 0;
      assert h * t as int == 0;
      if high >= H {
        high := high - H;
        h := 32768;
        r := TimesH(t, m);
      }
      var r1 := MaybePlus(r, high, t, m);
      AddTo(r as int, h, t as int, m as int, high as int, r1 as int);
      h := h + high as int;
      r := TimesH(r1, m);
      var r2 := MaybePlus(r, low, t, m);
      Horner(r1 as int, h, t as int, m as int, r as int, low as int, r2 as int);
      assert s as int == 32768 * h + low as int;
      r := r2;
      Finish(s0 as int * t0 as int, s as int * t as int, r as int, m as int);
      return;
    }
    var r3 := MaybePlus(r, low, t, m);
    r := r3;
    Finish(s0 as int * t0 as int, s as int * t as int, r as int, m as int);
  }

  lemma ProductShift(s0: int, t0: int, s: int, t: int, m: int)
    requires (s == s0 || s == s0 + m) && (t == t0 || t == t0 + m)
    ensures Congruent(s0 * t0, s * t, m)
  {
    CongruentBy(s0, s, if s == s0 then 0 else -1, m);
    CongruentBy(t0, t, if t == t0 then 0 else -1, m);
    CongruentMul(s0, s, t0, m);
    CongruentMul(t0, t, s, m);
    CongruentTrans(s0 * t0, s * t0, s * t, m);
  }

  lemma Finish(p: int, q: int, r: int, m: int)
    requires m > 0 && Congruent(p, q, m) && Congruent(q, r, m) && 0 <= r < m
    ensures r == p % m
  {
    CongruentTrans(p, q, r, m);
    ResidueIs(p, r, m);
  }

  // ---------- FindB ----------

  /** The k-th bit of a number, as and-ing with 2^k finds it. */
  predicate BitSet(x: int, p: int)
    requires p > 0
  {
    x / p % 2 == 1
  }

  /** Taking one more bit of k into account. */
  lemma NextBit(k: nat, p: nat)
    requires p > 0
    ensures k % (2 * p) == k % p + if BitSet(k, p) then p else 0
  {
    var q, r := k / p, k % p;
    DivMod(k, p);
    if q % 2 == 0 {
      EvenHalf(p, q);
      RestOf(q / 2, p, r, k);
    } else {
      OddHalf(p, q);
      RestOf(q / 2, p, r + p, k);
    }
  }

  lemma DivMod(k: nat, p: nat)
    requires p > 0
    ensures k == p * (k / p) + k % p && 0 <= k % p < p
  {
  }

  lemma EvenHalf(p: int, q: int)
    requires q % 2 == 0
    ensures p * q == p * (2 * (q / 2))
  {
  }

  lemma OddHalf(p: int, q: int)
    requires q % 2 == 1
    ensures p * q == p * (2 * (q / 2)) + p
  {
    assert q == 2 * (q / 2) + 1;
    assert p * (2 * (q / 2) + 1) == p * (2 * (q / 2)) + p;
  }

  lemma RestOf(h: nat, p: nat, r: nat, k: nat)
    requires p > 0 && r < 2 * p && k == p * (2 * h) + r
    ensures k % (2 * p) == r
  {
    assert p * (2 * h) == h * (2 * p);
    CongruentBy(k, r, h, 2 * p);
    ResidueIs(k, r, 2 * p);
  }

  /** The residues of a, a squared, a to the fourth power and so on. */
  ghost predicate SquaresUpTo(sqrs: seq<int64>, a: int, m: int, lo: int, hi: int)
    requires m > 0
  {
    forall j: nat | lo <= j < hi <= |sqrs| :: sqrs[j] as int == Pow(a, Pow2(j)) % m
  }

  /** FindB: a to the power k modulo m, by squaring; the products fit 64 bits. */
  method FindB(a: int64, k: int64, m: int64) returns (b: int64)
    requires 0 < a < m <= 0x7fff_ffff && 0 <= k < 0x1_0000_0000
    ensures 0 <= b < m && b as int == Pow(a as int, k as nat) % (m as int)
  {
    var sqrs := new int64[32];
    Squares(sqrs, a, m);
    var power: int64 := 1;
    b := 1;
    for i := 0 to 32
      invariant power as int == Pow2(i) && power <= 0x1_0000_0000
      invariant SquaresUpTo(sqrs[..], a as int, m as int, i, 32)
      invariant 0 <= b < m && b as int == Pow(a as int, k as int % Pow2(i)) % (m as int)
    {
      ghost var before := sqrs[..];
      assert sqrs[i] == before[i];
      OneBit(a as int, k as int, m as int, i, b as int, sqrs[i] as int);
      Powers(i + 1);
      hide Pow2, Pow, SquaresUpTo, BitSet;
      if !BitSet(k as int, power as int) {
        sqrs[i] := 1;
      }
      RestStays(before, sqrs[..], a as int, m as int, i);
      b := (b * sqrs[i]) % m;
      power := power * 2;
    }
    Powers(32);
    assert k as int % Pow2(32) == k as int;
  }

  lemma RestStays(s: seq<int64>, t: seq<int64>, a: int, m: int, i: nat)
    requires m > 0 && SquaresUpTo(s, a, m, i, 32) && |t| == |s| && forall j | i < j < |s| :: t[j] == s[j]
    ensures SquaresUpTo(t, a, m, i + 1, 32)
  {
  }

  /** The loop that fills the table of squares. */
  method Squares(sqrs: array<int64>, a: int64, m: int64)
    requires sqrs.Length == 32 && 0 < a < m <= 0x7fff_ffff
    modifies sqrs
    ensures SquaresUpTo(sqrs[..], a as int, m as int, 0, 32)
  {
    sqrs[0] := a;
    ResidueIs(a as int, a as int, m as int) by { CongruentRefl(a as int, m as int); }
    assert Pow(a as int, Pow2(0)) == a as int;
    for i := 1 to 32
      invariant SquaresUpTo(sqrs[..], a as int, m as int, 0, i)
    {
      ghost var before := sqrs[..];
      assert sqrs[i - 1] == before[i - 1];
      Twice(a as int, i - 1, m as int);
      SquareFits(sqrs[i - 1] as int, sqrs[i - 1] as int, m as int);
      sqrs[i] := (sqrs[i - 1] * sqrs[i - 1]) % m;
      assert sqrs[..] == before[i := sqrs[i]];
    }
  }

  lemma Twice(a: int, i: nat, m: int)
    requires m > 0
    ensures var s := Pow(a, Pow2(i)) % m; (s * s) % m == Pow(a, Pow2(i + 1)) % m
  {
    PowModAdds(a, Pow2(i), Pow2(i), m);
  }

  lemma SquareFits(x: int, y: int, m: int)
    requires 0 <= x < m <= 0x7fff_ffff && 0 <= y < m
    ensures 0 <= x * y < 0x7fff_ffff_ffff_ffff
  {
    MulLe(x, 0x7fff_fffe, y);
  }

  lemma OneBit(a: int, k: nat, m: int, i: nat, b: int, s: int)
    requires 1 < m <= 0x7fff_ffff && 0 <= b < m && b == Pow(a, k % Pow2(i)) % m && s == Pow(a, Pow2(i)) % m
    ensures 0 <= b * s < 0x7fff_ffff_ffff_ffff && 0 <= s < m
    ensures Pow(a, k % Pow2(i + 1)) % m == if BitSet(k, Pow2(i)) then (b * s) % m else b % m
  {
    NextBit(k, Pow2(i));
    SquareFits(b, s, m);
    PowModAdds(a, k % Pow2(i), Pow2(i), m);
    CongruentRefl(b, m);
    ResidueIs(b, b, m);
  }
}
