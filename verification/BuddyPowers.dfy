/** Powers of two: multiples, aligned blocks and their buddies, and the rounding-up trick on 32-bit words. */
module BuddyPowers {
  function Pow2(k: nat): (p: nat)
    ensures p >= 1
  {
    if k == 0 then 1 else 2 * Pow2(k - 1)
  }

  lemma {:induction false} Pow2Grows(j: nat, k: nat)
    requires j <= k
    ensures Pow2(j) <= Pow2(k) && (j < k ==> 2 * Pow2(j) <= Pow2(k))
    decreases k
  {
    if j < k {
      Pow2Grows(j, k - 1);
    }
  }

  /** x is a multiple of m. */
  ghost predicate Multiple(x: int, m: int) {
    exists q: int :: x == q * m
  }

  lemma MultipleMore(x: int, m: int)
    requires Multiple(x, 2 * m)
    ensures Multiple(x, m) && Multiple(x + m, m)
  {
    var q :| x == q * (2 * m);
    assert x == (2 * q) * m && x + m == (2 * q + 1) * m;
  }

  lemma {:induction false} MultipleDown(x: int, j: nat, k: nat)
    requires j <= k && Multiple(x, Pow2(k))
    ensures Multiple(x, Pow2(j))
    decreases k
  {
    if j < k {
      MultipleMore(x, Pow2(k - 1));
      MultipleDown(x, j, k - 1);
    }
  }

  /** Multiples of m are at least m apart. */
  lemma MultiplesApart(x: int, y: int, m: int)
    requires m > 0 && Multiple(x, m) && Multiple(y, m) && x < y
    ensures x + m <= y
  {
    var a :| x == a * m;
    var b :| y == b * m;
    if b <= a {
      MulLe(b, a, m);
    } else {
      MulLe(a + 1, b, m);
    }
  }

  lemma MulLe(a: int, b: int, m: int)
    requires a <= b && m >= 0
    ensures a * m <= b * m
  {
  }

  // ---------- buddies ----------

  /** The address of the buddy of the block of size m at x: x with the bit of m flipped. */
  function Buddy(x: nat, m: nat): int
    requires m > 0
  {
    if x / m % 2 == 0 then x + m else x - m
  }

  /** The two buddies are the halves of one block of twice the size. */
  lemma BuddyHalves(x: nat, m: nat)
    requires m > 0 && Multiple(x, m)
    ensures var b := Buddy(x, m); var low := if x < b then x else b;
      && b >= 0 && Multiple(b, m) && b != x && Buddy(b, m) == x
      && Multiple(low, 2 * m) && low <= x <= low + m && low <= b <= low + m && x + b == 2 * low + m
  {
    var q :| x == q * m;
    if q < 0 {
      MulLe(q, -1, m);
    }
    DivMultiple(q, m);
    if q % 2 == 0 {
      HalvesAre(q, m);
    } else {
      HalvesAre(q - 1, m);
    }
  }

  lemma HalvesAre(q: int, m: nat)
    requires m > 0 && q >= 0 && q % 2 == 0
    ensures Multiple(q * m, 2 * m) && Multiple(q * m, m) && Multiple(q * m + m, m)
    ensures (q * m) / m == q && (q * m + m) / m == q + 1 && q * m >= 0 && q * m + m == (q + 1) * m
  {
    DivMultiple(q, m);
    DivMultiple(q + 1, m);
    var h := q / 2;
    assert q * m == h * (2 * m);
    assert q * m + m == (q + 1) * m;
  }

  lemma DivMultiple(q: int, m: int)
    requires m > 0
    ensures (q * m) / m == q
  {
    var d := (q * m) / m;
    if d < q {
      MulLe(d + 1, q, m);
    } else if q < d {
      MulLe(q, d - 1, m);
    }
  }

  /** A block at s of order j that reaches into the aligned block of order k at low, and is at least as large, contains
      it. */
  lemma Contains(s: int, j: nat, low: int, k: nat, x: int)
    requires k <= j && Multiple(s, Pow2(j)) && Multiple(low, Pow2(k))
    requires s <= x < s + Pow2(j) && low <= x < low + Pow2(k)
    ensures s <= low && low + Pow2(k) <= s + Pow2(j)
  {
    MultipleDown(s, k, j);
    MultipleDown(s + Pow2(j), k, j) by { NextMultiple(s, Pow2(j)); }
    if low < s {
      MultiplesApart(low, s, Pow2(k));
    }
    MultiplesApart(low, s + Pow2(j), Pow2(k));
  }

  lemma NextMultiple(s: int, m: int)
    requires Multiple(s, m)
    ensures Multiple(s + m, m)
  {
    var q :| s == q * m;
    assert s + m == (q + 1) * m;
  }

  // ---------- next_power2 ----------

  /** Bitwise or. */
  function Or(a: nat, b: nat): nat {
    if a == 0 && b == 0 then 0
    else 2 * Or(a / 2, b / 2) + if a % 2 == 1 || b % 2 == 1 then 1 else 0
  }

  function Shr(a: nat, k: nat): nat {
    if k == 0 then a else Shr(a / 2, k - 1)
  }

  predicate Bit(a: nat, i: nat) {
    Shr(a, i) % 2 == 1
  }

  const MIN_BLOCK := 64
  const TWO_32 := 0x1_0000_0000

  /** Every bit below the highest is set. */
  function Smeared(a: nat): nat {
    var b := Or(a, Shr(a, 1));
    var c := Or(b, Shr(b, 2));
    var d := Or(c, Shr(c, 4));
    var e := Or(d, Shr(d, 8));
    Or(e, Shr(e, 16))
  }

  /** The rounding-up trick on an unsigned 32-bit number. */
  function NextPower2(v: nat): nat {
    if v < MIN_BLOCK then MIN_BLOCK else (Smeared(v - 1) + 1) % TWO_32
  }

  lemma {:induction false} OrBit(a: nat, b: nat, i: nat)
    ensures Bit(Or(a, b), i) <==> Bit(a, i) || Bit(b, i)
    decreases i
  {
    assert Or(a, b) / 2 == Or(a / 2, b / 2);
    if i > 0 {
      OrBit(a / 2, b / 2, i - 1);
    }
  }

  lemma {:induction false} ShrAdds(a: nat, k: nat, i: nat)
    ensures Shr(Shr(a, k), i) == Shr(a, k + i)
    decreases k
  {
    if k > 0 {
      ShrAdds(a / 2, k - 1, i);
    }
  }

  lemma {:induction false} OrBound(a: nat, b: nat, k: nat)
    requires a < Pow2(k) && b < Pow2(k)
    ensures Or(a, b) < Pow2(k)
    decreases k
  {
    if k > 0 {
      OrBound(a / 2, b / 2, k - 1);
    }
  }

  lemma {:induction false} ShrSmaller(a: nat, k: nat)
    ensures Shr(a, k) <= a
    decreases k
  {
    if k > 0 {
      ShrSmaller(a / 2, k - 1);
    }
  }

  /** a has fewer than top bits, of which the highest n are set. */
  ghost predicate TopSet(a: nat, top: nat, n: nat) {
    a < Pow2(top) && forall i: nat | i < top && top <= i + n :: Bit(a, i)
  }

  /** Or-ing with itself shifted by n doubles the run of ones at the top. */
  lemma Smear(a: nat, top: nat, n: nat)
    requires TopSet(a, top, n)
    ensures TopSet(Or(a, Shr(a, n)), top, 2 * n)
  {
    ShrSmaller(a, n);
    OrBound(a, Shr(a, n), top);
    forall i: nat | i < top && top <= i + 2 * n ensures Bit(Or(a, Shr(a, n)), i) {
      OrBit(a, Shr(a, n), i);
      if top > i + n {
        ShrAdds(a, n, i);
        assert Bit(a, n + i);
      }
    }
  }

  lemma {:induction false} AllOnes(a: nat, top: nat)
    requires a < Pow2(top) && forall i: nat | i < top :: Bit(a, i)
    ensures a == Pow2(top) - 1
  {
    if top > 0 {
      assert Bit(a, 0);
      forall i: nat | i < top - 1 ensures Bit(a / 2, i) {
        assert Bit(a, i + 1);
      }
      AllOnes(a / 2, top - 1);
    }
  }

  lemma {:induction false} HighestBit(a: nat, top: nat)
    requires top > 0 && Pow2(top - 1) <= a < Pow2(top)
    ensures TopSet(a, top, 1)
  {
    if top > 1 {
      HighestBit(a / 2, top - 1);
      assert Bit(a / 2, top - 2);
    }
    assert Bit(a, top - 1);
  }

  /** Five doublings set every bit below the highest. */
  lemma AllSmeared(a: nat, k: nat)
    requires 0 < k <= 32 && Pow2(k - 1) <= a < Pow2(k)
    ensures Smeared(a) == Pow2(k) - 1
  {
    hide Or, Shr, Pow2;
    HighestBit(a, k);
    var b := Or(a, Shr(a, 1));
    Smear(a, k, 1);
    var c := Or(b, Shr(b, 2));
    Smear(b, k, 2);
    var d := Or(c, Shr(c, 4));
    Smear(c, k, 4);
    var e := Or(d, Shr(d, 8));
    Smear(d, k, 8);
    Smear(e, k, 16);
    AllOnes(Or(e, Shr(e, 16)), k);
  }

  /** The trick gives the least power of two that is not less than v, for v up to 2^31; beyond, it gives zero. */
  lemma NextPower2IsLeast(v: nat, k: nat)
    requires 6 <= k <= 32 && (k == 6 || Pow2(k - 1) < v) && v <= Pow2(k)
    ensures NextPower2(v) == if k <= 31 then Pow2(k) else 0
  {
    hide *;
    Powers(k);
    HalfBelow(v, k);
    if v >= 64 {
      AllSmeared(v - 1, k);
    }
    RoundsUp(v, Pow2(k));
  }

  lemma RoundsUp(v: nat, p: nat)
    requires if v < 64 then p == 64 else p >= 1 && Smeared(v - 1) == p - 1 && p <= TWO_32
    ensures NextPower2(v) == if p == TWO_32 then 0 else p
  {
    hide Smeared;
  }

  lemma HalfBelow(v: nat, k: nat)
    requires 6 <= k && (k == 6 || Pow2(k - 1) < v) && v <= Pow2(k)
    ensures v >= 64 ==> Pow2(k - 1) <= v - 1 < Pow2(k)
    ensures v < 64 ==> k == 6 && Pow2(k) == 64
  {
    assert Pow2(6) == 64;
    assert Pow2(5) == 32;
    if k > 6 {
      Pow2Grows(6, k - 1);
    }
  }

  lemma {:induction false} Pow2Adds(j: nat, k: nat)
    ensures Pow2(j + k) == Pow2(j) * Pow2(k)
    decreases j
  {
    if j > 0 {
      Pow2Adds(j - 1, k);
      assert 2 * Pow2(j - 1) * Pow2(k) == 2 * (Pow2(j - 1) * Pow2(k));
    }
  }

  lemma Powers(k: nat)
    requires k <= 32
    ensures Pow2(k) <= TWO_32 && (k <= 31 ==> Pow2(k) < TWO_32) && (k == 32 ==> Pow2(k) == TWO_32)
  {
    assert Pow2(8) == 256;
    Pow2Adds(8, 8);
    Pow2Adds(16, 16);
    Pow2Grows(k, 32);
    if k <= 31 {
      Pow2Grows(k, 31);
    }
  }
}
