/** Powers and residues. */
module ModularMath {
  import opened BuddyPowers

  /** x and y differ by a multiple of m. */
  ghost predicate Congruent(x: int, y: int, m: int) {
    exists c: int :: x == y + c * m
  }

  lemma CongruentBy(x: int, y: int, c: int, m: int)
    requires x == y + c * m
    ensures Congruent(x, y, m)
  {
  }

  lemma CongruentTrans(x: int, y: int, z: int, m: int)
    requires Congruent(x, y, m) && Congruent(y, z, m)
    ensures Congruent(x, z, m)
  {
    var c :| x == y + c * m;
    var d :| y == z + d * m;
    assert x == z + (c + d) * m;
  }

  lemma CongruentAdd(x: int, y: int, u: int, v: int, m: int)
    requires Congruent(x, y, m) && Congruent(u, v, m)
    ensures Congruent(x + u, y + v, m)
  {
    var c :| x == y + c * m;
    var d :| u == v + d * m;
    assert x + u == y + v + (c + d) * m;
  }

  lemma CongruentMul(x: int, y: int, f: int, m: int)
    requires Congruent(x, y, m)
    ensures Congruent(f * x, f * y, m) && Congruent(x * f, y * f, m)
  {
    var c :| x == y + c * m;
    assert f * x == f * y + (f * c) * m;
    assert x * f == y * f + (f * c) * m;
  }

  lemma CongruentRefl(x: int, m: int)
    ensures Congruent(x, x, m)
  {
    assert x == x + 0 * m;
  }

  lemma CongruentSym(x: int, y: int, m: int)
    requires Congruent(x, y, m)
    ensures Congruent(y, x, m)
  {
    var c :| x == y + c * m;
    assert y == x + (-c) * m;
  }

  lemma CongruentMod(x: int, m: int)
    requires m > 0
    ensures Congruent(x, x % m, m) && Congruent(x % m, x, m)
  {
    assert x == x % m + (x / m) * m;
    CongruentBy(x, x % m, x / m, m);
    CongruentSym(x, x % m, m);
  }

  /** A residue in range is the residue. */
  lemma ResidueIs(x: int, r: int, m: int)
    requires m > 0 && 0 <= r < m && Congruent(x, r, m)
    ensures x % m == r
  {
    CongruentMod(x, m);
    CongruentTrans(r, x, x % m, m) by { CongruentSym(x, r, m); }
    var c :| r == x % m + c * m;
    if c >= 1 {
      MulLe(1, c, m);
    } else if c <= -1 {
      MulLe(c, -1, m);
    }
  }

  /** Congruent numbers have the same residue. */
  lemma SameResidue(x: int, y: int, m: int)
    requires m > 0 && Congruent(x, y, m)
    ensures x % m == y % m
  {
    CongruentMod(y, m);
    CongruentTrans(x, y, y % m, m);
    ResidueIs(x, y % m, m);
  }

  /** Reducing a factor first changes nothing. */
  lemma MulMod(x: int, y: int, m: int)
    requires m > 0
    ensures (x * (y % m)) % m == (x * y) % m && ((x % m) * y) % m == (x * y) % m
  {
    CongruentMod(y, m);
    CongruentMul(y % m, y, x, m);
    SameResidue(x * (y % m), x * y, m);
    CongruentMod(x, m);
    CongruentMul(x % m, x, y, m);
    SameResidue((x % m) * y, x * y, m);
  }

  function Pow(a: int, n: nat): int {
    if n == 0 then 1 else a * Pow(a, n - 1)
  }

  lemma {:induction false} PowAdds(a: int, j: nat, k: nat)
    ensures Pow(a, j + k) == Pow(a, j) * Pow(a, k)
    decreases j
  {
    if j > 0 {
      PowAdds(a, j - 1, k);
      Assoc(a, Pow(a, j - 1), Pow(a, k));
    }
  }

  lemma Assoc(x: int, y: int, z: int)
    ensures x * (y * z) == (x * y) * z
  {
  }

  lemma {:induction false} PowOfProduct(a: int, b: int, n: nat)
    ensures Pow(a * b, n) == Pow(a, n) * Pow(b, n)
  {
    if n > 0 {
      PowOfProduct(a, b, n - 1);
      var p, q := Pow(a, n - 1), Pow(b, n - 1);
      assert (a * b) * (p * q) == (a * p) * (b * q) by { Swap(a, b, p, q); }
    }
  }

  lemma Swap(a: int, b: int, p: int, q: int)
    ensures (a * b) * (p * q) == (a * p) * (b * q)
  {
    Assoc(a, b, p * q);
    Assoc(b, p, q);
    Assoc(p, b, q);
    Assoc(a, p, b * q);
  }

  lemma {:induction false} PowOfPow(a: int, j: nat, k: nat)
    ensures Pow(Pow(a, j), k) == Pow(a, j * k)
    decreases k
  {
    if k > 0 {
      PowOfPow(a, j, k - 1);
      PowAdds(a, j, j * (k - 1));
      assert j + j * (k - 1) == j * k;
    }
  }

  lemma {:induction false} PowCongruent(a: int, b: int, n: nat, m: int)
    requires Congruent(a, b, m)
    ensures Congruent(Pow(a, n), Pow(b, n), m)
  {
    if n == 0 {
      CongruentRefl(1, m);
    } else {
      PowCongruent(a, b, n - 1, m);
      CongruentMul(Pow(a, n - 1), Pow(b, n - 1), a, m);
      CongruentMul(a, b, Pow(b, n - 1), m);
      CongruentTrans(a * Pow(a, n - 1), a * Pow(b, n - 1), b * Pow(b, n - 1), m);
    }
  }

  lemma {:induction false} PowOne(n: nat)
    ensures Pow(1, n) == 1
  {
    if n > 0 {
      PowOne(n - 1);
    }
  }

  /** Multiplying residues of powers adds the exponents. */
  lemma PowModAdds(a: int, j: nat, k: nat, m: int)
    requires m > 0
    ensures ((Pow(a, j) % m) * (Pow(a, k) % m)) % m == Pow(a, j + k) % m
  {
    PowAdds(a, j, k);
    MulMod(Pow(a, j) % m, Pow(a, k), m);
    MulMod(Pow(a, j), Pow(a, k), m);
  }
}
