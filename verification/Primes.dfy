/** Primes: the division test that recognises them, the search for a larger one, and why the squares of half the
    residues are distinct. */
module Primes {
  import opened ModularMath

  ghost predicate Divides(d: int, n: int) {
    exists q: int :: n == q * d
  }

  /** Odd, and without a divisor between 1 and itself: the odd primes, and 1. */
  ghost predicate OddPrime(n: int) {
    n > 0 && n % 2 == 1 && forall d | 2 <= d < n :: !Divides(d, n)
  }

  lemma DividesBy(d: int, n: int, q: int)
    requires n == q * d
    ensures Divides(d, n)
  {
  }

  lemma MultipleRest(d: int, q: int, r: int)
    requires 0 <= r < d
    ensures (q * d + r) % d == r
  {
    CongruentBy(q * d + r, r, q, d);
    ResidueIs(q * d + r, r, d);
  }

  lemma RestIsZero(d: int, n: int)
    requires d > 0
    ensures Divides(d, n) <==> n % d == 0
  {
    if n % d == 0 {
      DividesBy(d, n, n / d);
    }
    if Divides(d, n) {
      var q :| n == q * d;
      MultipleRest(d, q, 0);
    }
  }

  lemma DividesTrans(d: int, e: int, n: int)
    requires Divides(d, e) && Divides(e, n)
    ensures Divides(d, n)
  {
    var a, b :| e == a * d && n == b * e;
    assert b * (a * d) == (b * a) * d;
    DividesBy(d, n, b * a);
  }

  // ---------- the divisors of a prime ----------

  /** Euclid's lemma, for factors smaller than the prime. */
  lemma {:induction false} PrimeDividesFactor(p: int, a: int, b: int)
    requires OddPrime(p) && 0 < a < p && 0 <= b < p && Divides(p, a * b)
    ensures b == 0
    decreases a
  {
    if a == 1 {
      RestIsZero(p, b);
    } else {
      var q, r := p / a, p % a;
      RestIsZero(a, p);
      Remainder(p, a, b, q, r);
      PrimeDividesFactor(p, r, b);
    }
  }

  lemma Remainder(p: int, a: int, b: int, q: int, r: int)
    requires p == a * q + r && Divides(p, a * b)
    ensures Divides(p, r * b)
  {
    var c :| a * b == c * p;
    assert (a * q) * b == q * (a * b);
    assert q * (c * p) == (q * c) * p;
    assert r * b == p * b - (a * q) * b;
    assert b * p - (q * c) * p == (b - q * c) * p;
    DividesBy(p, r * b, b - q * c);
  }

  /** The squares of 0 to (p-1)/2 are distinct modulo p. */
  lemma {:induction false} SquaresAreDistinct(p: int, i: int, j: int)
    requires OddPrime(p) && 0 <= i < j && 2 * j < p + 1
    ensures !Divides(p, j * j - i * i)
  {
    if Divides(p, j * j - i * i) {
      assert j * j - i * i == (j - i) * (j + i);
      PrimeDividesFactor(p, j - i, j + i);
    }
  }

  // ---------- the division test ----------

  /** The largest number whose square is at most n. */
  function Root(n: nat): (r: nat)
    ensures r * r <= n < (r + 1) * (r + 1)
  {
    if n == 0 then 0
    else
      var s := Root(n - 1);
      if (s + 1) * (s + 1) <= n then s + 1 else s
  }

  lemma MulUp(a: int, b: int, c: int)
    requires a <= b && 0 <= c
    ensures a * c <= b * c && c * a <= c * b
  {
    assert (b - a) * c >= 0;
  }

  lemma OddFactors(d: int, e: int)
    ensures d * e % 2 == 1 ==> d % 2 == 1 && e % 2 == 1
  {
    if d % 2 == 0 {
      assert d * e == 2 * (d / 2 * e);
    }
    if e % 2 == 0 {
      assert d * e == 2 * (e / 2 * d);
    }
  }

  /** The other factor is also between 1 and n. */
  lemma OtherFactor(n: int, d: int, e: int)
    requires n == e * d && 2 <= d < n
    ensures 2 <= e < n
  {
    if e <= 1 {
      MulUp(e, 1, d);
    }
    if e >= n {
      MulUp(2, d, e);
    }
  }

  /** Of two factors of n, the smaller is at most the root. */
  lemma SmallerFactor(n: nat, d: int, e: int)
    requires n == e * d && 0 < d <= e
    ensures d <= Root(n)
  {
    MulUp(d, e, d);
    var r := Root(n);
    if r + 1 <= d {
      MulUp(r + 1, d, r + 1);
      MulUp(r + 1, d, d);
    }
  }

  /** An odd number with a divisor has an odd one no larger than its root. */
  lemma SmallDivisor(n: int, d: int) returns (a: int)
    requires n > 0 && n % 2 == 1 && 2 <= d < n && Divides(d, n)
    ensures 3 <= a <= Root(n) && a % 2 == 1 && Divides(a, n)
  {
    var e :| n == e * d;
    OtherFactor(n, d, e);
    OddFactors(e, d);
    assert n == d * e;
    DividesBy(e, n, d);
    if d <= e {
      SmallerFactor(n, d, e);
      a := d;
    } else {
      SmallerFactor(n, e, d);
      a := e;
    }
  }

  /** The test never tries the number itself. */
  lemma RootIsSmaller(n: nat)
    requires n >= 3
    ensures Root(n) + 1 < n
  {
    if Root(n) >= 3 {
      MulUp(3, Root(n), Root(n));
    }
  }

  /** No odd number below a, from 3 on, divides n. */
  ghost predicate Tried(n: int, a: int) {
    a % 2 == 1 && 3 <= a && forall d | 3 <= d < a && d % 2 == 1 :: !Divides(d, n)
  }

  /** When the root has been tried, no number divides n. */
  lemma AllTried(n: nat, a: int)
    requires n % 2 == 1 && a > Root(n) && Tried(n, a)
    ensures OddPrime(n)
  {
    forall d | 2 <= d < n ensures !Divides(d, n) {
      if Divides(d, n) {
        var s := SmallDivisor(n, d);
      }
    }
  }

  lemma OneMoreTried(n: nat, a: int)
    requires Tried(n, a) && n % a != 0
    ensures Tried(n, a + 2)
  {
    RestIsZero(a, n);
  }

  /** is_prime: division by the odd numbers up to one past the root. It takes 1 for a prime. */
  method IsPrime(n: nat) returns (yes: bool)
    ensures yes <==> OddPrime(n)
  {
    if n % 2 == 0 {
      return false;
    }
    var most, a := Root(n) + 1, 3;
    if n >= 3 {
      RootIsSmaller(n);
    }
    assert Tried(n, 3);
    hide Divides, Root, OddPrime, Tried;
    while a <= most
      invariant 3 <= a && Tried(n, a)
      decreases most + 2 - a
    {
      if n % a == 0 {
        DividedIsNot(n, a);
        return false;
      }
      OneMoreTried(n, a);
      a := a + 2;
    }
    AllTried(n, a);
    return true;
  }

  /** With 3, 5, 7 and so on, 1 is taken for an odd prime; 2 is not, like every even number. */
  lemma OneButNotTwo(n: nat)
    ensures OddPrime(1) && (n % 2 == 0 ==> !OddPrime(n))
  {
  }

  lemma DividedIsNot(n: nat, a: int)
    requires 2 <= a < n && n % a == 0
    ensures !OddPrime(n)
  {
    RestIsZero(a, n);
  }

  // ---------- there is always a larger prime ----------

  function Factorial(n: nat): (f: nat)
    ensures f >= 1
  {
    if n == 0 then 1 else n * Factorial(n - 1)
  }

  lemma {:induction false} DividesFactorial(d: int, n: nat)
    requires 1 <= d <= n
    ensures Divides(d, Factorial(n))
  {
    if d == n {
      DividesBy(d, Factorial(n), Factorial(n - 1));
    } else {
      DividesFactorial(d, n - 1);
      DividesBy(Factorial(n - 1), Factorial(n), n);
      DividesTrans(d, Factorial(n - 1), Factorial(n));
    }
  }

  lemma NotNextMultiple(d: int, n: int)
    requires d >= 2 && Divides(d, n)
    ensures !Divides(d, n + 1)
  {
    var q :| n == q * d;
    MultipleRest(d, q, 1);
    RestIsZero(d, n + 1);
  }

  /** The least divisor above 1. */
  ghost function LeastDivisor(n: nat, from: nat): (d: nat)
    requires 2 <= from <= n && forall x | 2 <= x < from :: !Divides(x, n)
    ensures from <= d <= n && Divides(d, n) && forall x | 2 <= x < d :: !Divides(x, n)
    decreases n - from
  {
    DividesBy(n, n, 1);
    if Divides(from, n) then from else LeastDivisor(n, from + 1)
  }

  /** Above every number there is an odd prime: the least divisor of one more than a factorial. */
  lemma {:induction false} LargerPrime(n: nat) returns (q: nat)
    ensures q > n && OddPrime(q)
  {
    var k := if n < 2 then 2 else n;
    var f := Factorial(k);
    q := LeastDivisor(f + 1, 2);
    hide Divides;
    if q <= k {
      DividesFactorial(q, k);
      NotNextMultiple(q, f);
    }
    forall d | 2 <= d < q ensures !Divides(d, q) {
      if Divides(d, q) {
        DividesTrans(d, q, f + 1);
      }
    }
    RestIsZero(2, q);
  }

  /** The least odd prime from 2n + 1 on. */
  ghost predicate IsNextPrime(n: nat, p: nat) {
    OddPrime(p) && p >= 2 * n + 1 && forall q | 2 * n + 1 <= q < p :: !OddPrime(q)
  }

  /** next_prime */
  method NextPrime(n: nat) returns (p: nat)
    ensures IsNextPrime(n, p)
  {
    p := 2 * n + 1;
    var prime := IsPrime(p);
    if prime {
      return;
    }
    ghost var q := LargerPrime(p);
    while true
      invariant p % 2 == 1 && 2 * n + 1 <= p <= q
      invariant forall x | 2 * n + 1 <= x < p :: !OddPrime(x)
      decreases q - p
    {
      prime := IsPrime(p);
      if prime {
        return;
      }
      assert !OddPrime(p + 1);
      p := p + 2;
    }
  }
}
