/** Generators and streams: a stream's state advances one draw at a time, goes back one draw at a time, and starts a
    given number of draws ahead of the seed. */
module ClcgStreams {
  import opened BuddyPowers
  import opened ModularMath
  import opened ClcgInverses
  import opened Clcg4

  // ---------- one draw ----------

  /** The next state of component j. */
  function Next(j: nat, s: int): int
    requires j < 4
  {
    A(j) as int * s % M(j) as int
  }

  /** The factor by which component j runs backwards. */
  function B(j: nat): (b: int)
    requires j < 4
  {
    Pow(A(j) as int, (M(j) - 2) as nat) % M(j) as int
  }

  function Prev(j: nat, s: int): int
    requires j < 4
  {
    B(j) * s % M(j) as int
  }

  predicate InRange(j: nat, s: int)
    requires j < 4
  {
    0 < s < M(j) as int
  }

  /** The two factors are inverse to each other. */
  lemma FactorsAreInverse(j: nat)
    requires j < 4
    ensures 0 < B(j) < M(j) as int && Congruent(A(j) as int * B(j), 1, M(j) as int)
  {
    hide PowMod, Pow;
    PowModIsPow(A(j) as int, (M(j) - 2) as nat, M(j) as int);
    match j {
      case 0 => Inverse0(); CongruentBy(A(j) as int * B(j), 1, 30865, M(j) as int);
      case 1 => Inverse1(); CongruentBy(A(j) as int * B(j), 1, 141575, M(j) as int);
      case 2 => Inverse2(); CongruentBy(A(j) as int * B(j), 1, 32245, M(j) as int);
      case 3 => Inverse3(); CongruentBy(A(j) as int * B(j), 1, 15281, M(j) as int);
    }
  }

  /** Going forward and back, or back and forward, ends where it started; the state stays in range. */
  lemma StepsAreInverse(j: nat, s: int)
    requires j < 4 && InRange(j, s)
    ensures Prev(j, Next(j, s)) == s && Next(j, Prev(j, s)) == s
    ensures InRange(j, Next(j, s)) && InRange(j, Prev(j, s))
  {
    var a, b, m := A(j) as int, B(j), M(j) as int;
    FactorsAreInverse(j);
    hide B, A, M;
    RoundTrip(a, b, s, m);
    assert b * a == a * b;
    RoundTrip(b, a, s, m);
  }

  lemma RoundTrip(a: int, b: int, s: int, m: int)
    requires 0 < s < m && Congruent(a * b, 1, m)
    ensures b * (a * s % m) % m == s && 0 < a * s % m < m
  {
    MulMod(b, a * s, m);
    Assoc(b, a, s);
    assert b * a == a * b;
    CongruentMul(a * b, 1, s, m);
    ResidueIs(a * b * s, s, m);
    assert b * 0 == 0;
  }

  /** The state n draws ahead. */
  function Ahead(j: nat, s: int, n: nat): int
    requires j < 4
  {
    if n == 0 then s else Next(j, Ahead(j, s, n - 1))
  }

  /** The state n draws back. */
  function Back(j: nat, s: int, n: nat): int
    requires j < 4
  {
    if n == 0 then s else Prev(j, Back(j, s, n - 1))
  }

  lemma {:induction false} AheadInRange(j: nat, s: int, n: nat)
    requires j < 4 && InRange(j, s)
    ensures InRange(j, Ahead(j, s, n))
  {
    if n > 0 {
      AheadInRange(j, s, n - 1);
      StepsAreInverse(j, Ahead(j, s, n - 1));
    }
  }

  lemma {:induction false} BackFirst(j: nat, s: int, n: nat)
    requires j < 4
    ensures Back(j, s, n + 1) == Back(j, Prev(j, s), n)
  {
    if n > 0 {
      BackFirst(j, s, n - 1);
    }
  }

  /** n draws ahead and n back restore the state. */
  lemma {:induction false} AheadAndBack(j: nat, s: int, n: nat)
    requires j < 4 && InRange(j, s)
    ensures Back(j, Ahead(j, s, n), n) == s
  {
    if n > 0 {
      AheadInRange(j, s, n - 1);
      StepsAreInverse(j, Ahead(j, s, n - 1));
      BackFirst(j, Ahead(j, s, n), n - 1);
      AheadAndBack(j, s, n - 1);
    }
  }

  /** n draws multiply the state by the n-th power of the factor. */
  lemma {:induction false} AheadIsPower(j: nat, s: int, n: nat)
    requires j < 4 && InRange(j, s)
    ensures Ahead(j, s, n) == Pow(A(j) as int, n) * s % M(j) as int
  {
    var a, m := A(j) as int, M(j) as int;
    if n == 0 {
      CongruentRefl(s, m);
      ResidueIs(s, s, m);
    } else {
      AheadIsPower(j, s, n - 1);
      MulMod(a, Pow(a, n - 1) * s, m);
      Assoc(a, Pow(a, n - 1), s);
    }
  }

  // ---------- the draw as it is computed ----------

  /** One component's step: the state is multiplied by a modulo m without leaving 32 bits, with q and r the quotient and
      remainder of m by a. */
  method Schrage(s0: int32, a: int32, q: int32, r: int32, m: int32) returns (s: int32)
    requires 0 < a && 0 < r < q && m as int == a as int * q as int + r as int && 0 <= s0 < m
    ensures 0 <= s < m && s as int == a as int * s0 as int % m as int
  {
    var k := s0 / q;
    SchrageFits(s0 as int, a as int, q as int, r as int, m as int, k as int);
    s := a * (s0 - k * q) - k * r;
    CongruentBy(a as int * s0 as int, s as int, k as int, m as int);
    if s < 0 {
      CongruentBy(s as int, s as int + m as int, -1, m as int);
      CongruentTrans(a as int * s0 as int, s as int, s as int + m as int, m as int);
      s := s + m;
    }
    ResidueIs(a as int * s0 as int, s as int, m as int);
  }

  lemma SchrageFits(s: int, a: int, q: int, r: int, m: int, k: int)
    requires 0 < a && 0 < r < q && m == a * q + r && 0 <= s < m && k == s / q
    ensures 0 <= k * q <= s && 0 <= s - k * q < q && 0 <= a * (s - k * q) < m && 0 <= k * r < m
    ensures a * s == a * (s - k * q) - k * r + k * m
  {
    DivParts(s, q);
    Commute(q, k);
    var f := s - k * q;
    MulLe(f, q - 1, a);
    Commute(a, f);
    Commute(a, q - 1);
    MulLe(r, q, k);
    Commute(k, r);
    SplitProduct(a, s, q, r, k);
  }

  lemma SplitProduct(a: int, s: int, q: int, r: int, k: int)
    ensures a * s == a * (s - k * q) - k * r + k * (a * q + r)
  {
    assert a * (s - k * q) == a * s - a * (k * q);
    assert k * (a * q + r) == k * (a * q) + k * r;
    Assoc(a, k, q);
    Assoc(k, a, q);
  }

  // ---------- generators ----------

  newtype uint32 = x: int | 0 <= x < 0x1_0000_0000

  /** clamp_seed on one component: the seed, or the nearest one in range. */
  function Clamp(j: nat, s: int): (r: int32)
    requires j < 4
    ensures InRange(j, r as int) && (InRange(j, s) ==> r as int == s)
    ensures forall x | InRange(j, x) :: (s <= x ==> r as int <= x) && (x <= s ==> x <= r as int)
  {
    if s < 1 then 1 else if s > (M(j) - 1) as int then M(j) - 1 else s as int32
  }

  function DefaultSeed(j: nat): int32
    requires j < 4
  {
    11111111 * (j + 1) as int32
  }

  /** clamp_seed */
  method ClampSeed(s: array<uint32>)
    requires s.Length == 4
    modifies s
    ensures forall j | 0 <= j < 4 :: s[j] as int == Clamp(j, old(s[j]) as int) as int
  {
    for j := 0 to 4
      invariant forall i | 0 <= i < j :: s[i] as int == Clamp(i, old(s[i]) as int) as int
      invariant forall i | j <= i < 4 :: s[i] == old(s[i])
    {
      if s[j] < 1 {
        s[j] := 1;
      }
      if s[j] as int > (M(j) - 1) as int {
        s[j] := (M(j) - 1) as uint32;
      }
    }
  }

  const COUNT_LIMIT := 0x1_0000_0000_0000_0000

  /** The constants of a generator whose streams are 2^(v+w) draws apart. */
  class Generator {
    const seed: array<int32>
    const aw: array<int32>
    const avw: array<int32>
    const b: array<int64>
    ghost const v: nat
    ghost const w: nat

    ghost predicate Valid()
      reads seed, aw, avw, b
    {
      && seed.Length == aw.Length == avw.Length == b.Length == 4
      && seed != aw && seed != avw && aw != avw
      && forall j | 0 <= j < 4 ::
           && InRange(j, seed[j] as int) && b[j] as int == B(j)
           && aw[j] as int == Pow(A(j) as int, Pow2(w)) % M(j) as int
           && avw[j] as int == Pow(A(j) as int, Pow2(v + w)) % M(j) as int
    }

    /** rng_init: the seed is the one given, clamped in place, or the default one. */
    constructor (v: nat, w: nat, given: array?<uint32>)
      requires given != null ==> given.Length == 4
      modifies given
      ensures Valid() && this.v == v && this.w == w && fresh(this.seed)
      ensures given == null ==> this.seed[..] == [11111111, 22222222, 33333333, 44444444]
      ensures given != null ==> forall j | 0 <= j < 4 ::
        this.seed[j] == Clamp(j, old(given[j]) as int) && given[j] as int == this.seed[j] as int
    {
      var own := ChooseSeed(given);
      var one, all, back := AllConstants(v, w);
      assert given == null ==> own[..] == [11111111, 22222222, 33333333, 44444444];
      hide A, B, M, Pow, InRange, Clamp, DefaultSeed;
      this.seed, this.aw, this.avw, this.b := own, one, all, back;
      this.v, this.w := v, w;
    }
  }

  method ChooseSeed(given: array?<uint32>) returns (own: array<int32>)
    requires given != null ==> given.Length == 4
    modifies given
    ensures fresh(own) && own.Length == 4 && forall j | 0 <= j < 4 :: InRange(j, own[j] as int)
    ensures given == null ==> forall j | 0 <= j < 4 :: own[j] == DefaultSeed(j)
    ensures given != null ==> forall j | 0 <= j < 4 ::
      own[j] == Clamp(j, old(given[j]) as int) && given[j] as int == own[j] as int
  {
    own := new int32[4](i => 0);
    if given != null {
      ClampSeed(given);
      FillGiven(own, given);
    } else {
      FillDefault(own);
    }
  }

  method AllConstants(v: nat, w: nat) returns (one: array<int32>, all: array<int32>, back: array<int64>)
    ensures fresh(one) && fresh(all) && fresh(back) && one != all && one.Length == all.Length == back.Length == 4
    ensures forall i | 0 <= i < 4 ::
      && back[i] as int == B(i)
      && one[i] as int == Pow(A(i) as int, Pow2(w)) % M(i) as int
      && all[i] as int == Pow(A(i) as int, Pow2(v + w)) % M(i) as int
  {
    hide A, B, M, Pow;
    one, all, back := new int32[4](i => 0), new int32[4](i => 0), new int64[4](i => 0);
    for j := 0 to 4
      invariant forall i | 0 <= i < j ::
        && back[i] as int == B(i)
        && one[i] as int == Pow(A(i) as int, Pow2(w)) % M(i) as int
        && all[i] as int == Pow(A(i) as int, Pow2(v + w)) % M(i) as int
    {
      var x, y, z := Constants(j, v, w);
      one[j], all[j], back[j] := x, y, z;
    }
  }

  method FillGiven(own: array<int32>, given: array<uint32>)
    requires own.Length == given.Length == 4 && forall j | 0 <= j < 4 :: InRange(j, given[j] as int)
    modifies own
    ensures forall j | 0 <= j < 4 :: own[j] as int == given[j] as int && InRange(j, own[j] as int)
  {
    for j := 0 to 4
      invariant forall i | 0 <= i < j :: own[i] as int == given[i] as int
    {
      own[j] := given[j] as int32;
    }
  }

  method FillDefault(own: array<int32>)
    requires own.Length == 4
    modifies own
    ensures forall j | 0 <= j < 4 :: own[j] == DefaultSeed(j) && InRange(j, own[j] as int)
  {
    for j := 0 to 4
      invariant forall i | 0 <= i < j :: own[i] == DefaultSeed(i) && InRange(i, own[i] as int)
    {
      own[j] := DefaultSeed(j);
    }
  }

  /** The constants of component j. */
  method Constants(j: nat, v: nat, w: nat) returns (aw: int32, avw: int32, b: int64)
    requires j < 4
    ensures aw as int == Pow(A(j) as int, Pow2(w)) % M(j) as int
    ensures avw as int == Pow(A(j) as int, Pow2(v + w)) % M(j) as int
    ensures b as int == B(j)
  {
    ModuliAreLarge(j);
    aw := SquareTimes(A(j), M(j), A(j) as int, 0, w);
    avw := SquareTimes(aw, M(j), A(j) as int, w, v);
    b := FindB(A(j) as int64, (M(j) - 2) as int64, M(j) as int64);
  }

  lemma ModuliAreLarge(j: nat)
    requires j < 4
    ensures 65535 * 32768 <= M(j) && 0 < A(j) < M(j) && Pow(A(j) as int, Pow2(0)) % M(j) as int == A(j) as int
  {
    assert Pow(A(j) as int, 1) == A(j) as int;
    CongruentRefl(A(j) as int, M(j) as int);
    ResidueIs(A(j) as int, A(j) as int, M(j) as int);
  }

  /** x, the residue of a to the power 2^n, squared k times. */
  method SquareTimes(x: int32, m: int32, ghost a: int, ghost n: nat, k: nat) returns (r: int32)
    requires 65535 * 32768 <= m && 0 <= x < m && x as int == Pow(a, Pow2(n)) % m as int
    ensures 0 <= r < m && r as int == Pow(a, Pow2(k + n)) % m as int
  {
    r := x;
    for i := 0 to k
      invariant 0 <= r < m && r as int == Pow(a, Pow2(i + n)) % m as int
    {
      Twice(a, i + n, m as int);
      r := MultModM(r, r, m);
    }
  }

  datatype Where = InitialSeed | LastSeed | NewSeed

  /** What a reset to the initial state i, to the last one l, or to one 2^w draws ahead of it starts from. */
  function ResetTo(where_: Where, j: nat, i: int, l: int, w: nat): int
    requires j < 4
  {
    match where_
    case InitialSeed => i
    case LastSeed => l
    case NewSeed => Pow(A(j) as int, Pow2(w)) * l % M(j) as int
  }

  lemma NewSeedIsAhead(j: nat, i: int, l: int, w: nat)
    requires j < 4 && InRange(j, l)
    ensures ResetTo(NewSeed, j, i, l, w) == Ahead(j, l, Pow2(w))
  {
    AheadIsPower(j, l, Pow2(w));
  }

  /** A random stream: the states it started from, was last reset to, and is in, and how many draws were made. */
  class Stream {
    const ig: array<int32>
    const lg: array<int32>
    const cg: array<int32>
    var count: nat

    ghost predicate Shape()
      reads this
    {
      ig.Length == lg.Length == cg.Length == 4 && ig != lg && ig != cg && lg != cg && count < COUNT_LIMIT
    }

    ghost predicate Valid()
      reads this, cg
    {
      Shape() && forall j | 0 <= j < 4 :: InRange(j, cg[j] as int)
    }

    /** rng_init_generator */
    method InitGenerator(where_: Where, g: Generator)
      requires Shape() && g.Valid() && {g.seed, g.aw, g.avw} !! {ig, lg, cg}
      requires forall j | 0 <= j < 4 :: 0 <= lg[j] < M(j) && 0 <= ig[j] < M(j)
      modifies lg, cg
      ensures cg[..] == lg[..] && g.Valid()
      ensures forall j | 0 <= j < 4 :: lg[j] as int == ResetTo(where_, j, ig[j] as int, old(lg[j]) as int, g.w)
      ensures where_ == InitialSeed ==> lg[..] == ig[..]
      ensures where_ == LastSeed ==> lg[..] == old(lg[..])
      ensures where_ == NewSeed ==> forall j | 0 <= j < 4 && InRange(j, old(lg[j]) as int) ::
        lg[j] as int == Ahead(j, old(lg[j]) as int, Pow2(g.w))
    {
      hide Pow, A, Ahead, Pow2;
      forall j | 0 <= j < 4 && InRange(j, lg[j] as int)
        ensures ResetTo(NewSeed, j, ig[j] as int, lg[j] as int, g.w) == Ahead(j, lg[j] as int, Pow2(g.w))
      {
        NewSeedIsAhead(j, ig[j] as int, lg[j] as int, g.w);
      }
      hide M, InRange;
      for j := 0 to 4
        invariant g.Valid()
        invariant forall i | 0 <= i < j :: cg[i] == lg[i]
        invariant forall i | j <= i < 4 :: lg[i] == old(lg[i])
        invariant forall i | 0 <= i < j :: lg[i] as int == ResetTo(where_, i, ig[i] as int, old(lg[i]) as int, g.w)
      {
        ModuliAreLarge(j);
        match where_ {
          case InitialSeed => lg[j] := ig[j];
          case NewSeed =>
            MulMod(Pow(A(j) as int, Pow2(g.w)), lg[j] as int, M(j) as int);
            lg[j] := MultModM(g.aw[j], lg[j], M(j));
          case LastSeed =>
        }
        cg[j] := lg[j];
      }
    }

    /** The integer part of rng_gen_val. */
    method GenVal()
      requires Valid()
      modifies this`count, cg
      ensures Valid() && count == (old(count) + 1) % COUNT_LIMIT
      ensures forall j | 0 <= j < 4 :: cg[j] as int == Next(j, old(cg[j]) as int)
    {
      InRangeAgain(cg[0] as int, cg[1] as int, cg[2] as int, cg[3] as int);
      count := (count + 1) % COUNT_LIMIT;
      cg[0] := Schrage(cg[0], 45991, 46693, 25884, 2147483647);
      cg[1] := Schrage(cg[1], 207707, 10339, 870, 2147483543);
      cg[2] := Schrage(cg[2], 138556, 15499, 3979, 2147483423);
      cg[3] := Schrage(cg[3], 49689, 43218, 24121, 2147483323);
    }

    /** The integer part of rng_gen_reverse_val. */
    method GenReverseVal(g: Generator)
      requires Valid() && g.Valid()
      modifies this`count, cg
      ensures Valid() && count == (old(count) + COUNT_LIMIT - 1) % COUNT_LIMIT
      ensures forall j | 0 <= j < 4 :: cg[j] as int == Prev(j, old(cg[j]) as int)
    {
      hide Pow, A, B, M, Prev, InRange;
      count := (count + COUNT_LIMIT - 1) % COUNT_LIMIT;
      var b0, b1, b2, b3 := g.b[0], g.b[1], g.b[2], g.b[3];
      cg[0] := ReverseOne(0, b0, cg[0]);
      cg[1] := ReverseOne(1, b1, cg[1]);
      cg[2] := ReverseOne(2, b2, cg[2]);
      cg[3] := ReverseOne(3, b3, cg[3]);
    }
  }

  /** One component's step back, in 64 bits. */
  method ReverseOne(j: nat, b: int64, s0: int32) returns (s: int32)
    requires j < 4 && b as int == B(j) && InRange(j, s0 as int)
    ensures s as int == Prev(j, s0 as int) && InRange(j, s as int)
  {
    StepsAreInverse(j, s0 as int);
    FactorsAreInverse(j);
    SquareFits(b as int, s0 as int, M(j) as int);
    hide B, A;
    s := ((b * (s0 as int64)) % (M(j) as int64)) as int32;
  }

  lemma InRangeAgain(s0: int, s1: int, s2: int, s3: int)
    requires InRange(0, s0) && InRange(1, s1) && InRange(2, s2) && InRange(3, s3)
    ensures InRange(0, Next(0, s0)) && InRange(1, Next(1, s1)) && InRange(2, Next(2, s2)) && InRange(3, Next(3, s3))
  {
    hide Next, Prev;
    StepsAreInverse(0, s0);
    StepsAreInverse(1, s1);
    StepsAreInverse(2, s2);
    StepsAreInverse(3, s3);
  }

  method DrawMany(s: Stream, n: nat)
    requires s.Valid()
    modifies s`count, s.cg
    ensures s.Valid() && s.count == (old(s.count) + n) % COUNT_LIMIT
    ensures forall j | 0 <= j < 4 :: s.cg[j] as int == Ahead(j, old(s.cg[j]) as int, n)
  {
    hide Next, InRange;
    for i := 0 to n
      invariant s.Valid() && s.count == (old(s.count) + i) % COUNT_LIMIT
      invariant forall j | 0 <= j < 4 :: s.cg[j] as int == Ahead(j, old(s.cg[j]) as int, i)
    {
      s.GenVal();
      CountUp(old(s.count), i);
    }
  }

  method ReverseMany(s: Stream, g: Generator, n: nat)
    requires s.Valid() && g.Valid() && s.cg !in {g.seed, g.aw, g.avw}
    modifies s`count, s.cg
    ensures s.Valid() && s.count == (old(s.count) + n * (COUNT_LIMIT - 1)) % COUNT_LIMIT
    ensures forall j | 0 <= j < 4 :: s.cg[j] as int == Back(j, old(s.cg[j]) as int, n)
  {
    hide Prev, InRange;
    for i := 0 to n
      invariant s.Valid() && g.Valid() && s.count == (old(s.count) + i * (COUNT_LIMIT - 1)) % COUNT_LIMIT
      invariant forall j | 0 <= j < 4 :: s.cg[j] as int == Back(j, old(s.cg[j]) as int, i)
    {
      s.GenReverseVal(g);
      CountDown(old(s.count), i);
    }
  }

  /** Any number of draws taken back in full leaves the stream exactly as it was, count included. */
  method DrawAndReverse(s: Stream, g: Generator, n: nat)
    requires s.Valid() && g.Valid() && s.cg !in {g.seed, g.aw, g.avw}
    modifies s`count, s.cg
    ensures s.Valid() && s.cg[..] == old(s.cg[..]) && s.count == old(s.count)
  {
    DrawMany(s, n);
    ReverseMany(s, g, n);
    CountBack(old(s.count), n);
    forall j | 0 <= j < 4 ensures s.cg[j] == old(s.cg[j]) {
      AheadAndBack(j, old(s.cg[j]) as int, n);
    }
  }

  lemma CountUp(c: nat, i: nat)
    ensures ((c + i) % COUNT_LIMIT + 1) % COUNT_LIMIT == (c + i + 1) % COUNT_LIMIT
  {
  }

  lemma CountDown(c: nat, i: nat)
    ensures ((c + i * (COUNT_LIMIT - 1)) % COUNT_LIMIT + COUNT_LIMIT - 1) % COUNT_LIMIT
      == (c + (i + 1) * (COUNT_LIMIT - 1)) % COUNT_LIMIT
  {
  }

  lemma CountBack(c: nat, n: nat)
    requires c < COUNT_LIMIT
    ensures ((c + n) % COUNT_LIMIT + n * (COUNT_LIMIT - 1)) % COUNT_LIMIT == c
  {
    var x := (c + n) % COUNT_LIMIT + n * (COUNT_LIMIT - 1);
    CongruentBy(x, c, n - (c + n) / COUNT_LIMIT, COUNT_LIMIT);
    ResidueIs(x, c, COUNT_LIMIT);
  }

  // ---------- stream spacing ----------

  /** The part of id from bit p on. */
  function Above(id: nat, p: nat): (r: nat)
    ensures r <= id
  {
    RestFits(id, Pow2(p));
    id - id % Pow2(p)
  }

  lemma RestFits(id: nat, m: nat)
    requires m > 0
    ensures 0 <= id % m <= id
  {
    DivParts(id, m);
    if id < m {
      SmallRest(id, m);
    }
  }

  lemma SmallRest(id: nat, m: nat)
    requires id < m
    ensures id % m == id
  {
  }

  lemma AboveNext(id: nat, p: nat)
    ensures Above(id, p) == Above(id, p + 1) + if BitSet(id, Pow2(p)) then Pow2(p) else 0
  {
    NextBit(id, Pow2(p));
  }

  /** Multiplying by the factor for 2^p streams moves a state that many streams ahead. */
  lemma JumpIs(j: nat, s: int, streams: nat, gap: nat, p: nat)
    requires j < 4 && InRange(j, s)
    ensures Pow(A(j) as int, Pow2(p + gap)) * Ahead(j, s, streams * Pow2(gap)) % M(j) as int
      == Ahead(j, s, (streams + Pow2(p)) * Pow2(gap))
  {
    var k, n := Pow2(p + gap), streams * Pow2(gap);
    Pow2Adds(p, gap);
    SumTimes(streams, Pow2(p), Pow2(gap));
    hide A, M, Ahead, Pow2, Pow;
    AheadAdds(j, s, k, n);
  }

  lemma SumTimes(a: nat, b: nat, c: nat)
    ensures (a + b) * c == b * c + a * c
  {
  }

  lemma AheadAdds(j: nat, s: int, k: nat, n: nat)
    requires j < 4 && InRange(j, s)
    ensures Pow(A(j) as int, k) * Ahead(j, s, n) % M(j) as int == Ahead(j, s, k + n)
  {
    var a, m := A(j) as int, M(j) as int;
    AheadIsPower(j, s, n);
    AheadIsPower(j, s, k + n);
    hide A, M, Ahead, Pow2;
    MulMod(Pow(a, k), Pow(a, n) * s, m);
    Assoc(Pow(a, k), Pow(a, n), s);
    PowAdds(a, k, n);
  }

  /** Component j moved 2^p streams ahead: the factor is squared p times. */
  method JumpOne(g: Generator, j: nat, x: int32, p: nat, ghost streams: nat) returns (r: int32)
    requires g.Valid() && j < 4 && MovedTo(g, j, x, streams)
    ensures MovedTo(g, j, r, streams + Pow2(p))
  {
    ghost var a := A(j) as int;
    JumpIs(j, g.seed[j] as int, streams, g.v + g.w, p);
    MulMod(Pow(a, Pow2(p + g.v + g.w)), x as int, M(j) as int);
    assert p + (g.v + g.w) == p + g.v + g.w;
    AvwInRange(g, j);
    hide A, Pow, Ahead;
    var f := SquareTimes(g.avw[j], M(j), a, g.v + g.w, p);
    r := MultModM(f, x, M(j));
  }

  lemma AvwInRange(g: Generator, j: nat)
    requires g.Valid() && j < 4
    ensures 0 <= g.avw[j] < M(j) && g.avw[j] as int == Pow(A(j) as int, Pow2(g.v + g.w)) % M(j) as int
  {
  }

  /** x is component j of the seed moved this many streams ahead. */
  ghost predicate MovedTo(g: Generator, j: nat, x: int32, streams: nat)
    requires g.Valid() && j < 4
    reads g.seed, g.aw, g.avw, g.b
  {
    0 <= x < M(j) && x as int == Ahead(j, g.seed[j] as int, streams * Pow2(g.v + g.w))
  }

  /** All four components of x are the seed moved this many streams ahead. */
  ghost predicate At(g: Generator, x: seq<int32>, streams: nat)
    requires g.Valid()
    reads g.seed, g.aw, g.avw, g.b
  {
    |x| == 4 && forall j | 0 <= j < 4 :: MovedTo(g, j, x[j], streams)
  }

  /** The same, with the first k components 2^p streams further on. */
  ghost predicate Between(g: Generator, x: seq<int32>, streams: nat, p: nat, k: nat)
    requires g.Valid()
    reads g.seed, g.aw, g.avw, g.b
  {
    && |x| == 4
    && (forall j | 0 <= j < 4 && j < k :: MovedTo(g, j, x[j], streams + Pow2(p)))
    && (forall j | 0 <= j < 4 && j >= k :: MovedTo(g, j, x[j], streams))
  }

  /** The four components moved 2^p streams ahead. */
  method JumpAll(g: Generator, x: array<int32>, p: nat, ghost streams: nat)
    requires g.Valid() && x.Length == 4 && At(g, x[..], streams) && x !in {g.seed, g.aw, g.avw}
    modifies x
    ensures g.Valid() && At(g, x[..], streams + Pow2(p))
  {
    hide A, MovedTo, Pow2;
    for j := 0 to 4
      invariant g.Valid() && Between(g, x[..], streams, p, j)
    {
      x[j] := JumpOne(g, j, x[j], p, streams);
    }
  }

  /** The generator's seed, copied. */
  method CopySeed(g: Generator) returns (x: array<int32>)
    requires g.Valid()
    ensures fresh(x) && g.Valid() && At(g, x[..], 0)
  {
    SeedIsAt(g);
    hide A, MovedTo, Pow2, InRange;
    x := new int32[4](i => 0);
    for j := 0 to 4
      invariant forall i | 0 <= i < j :: x[i] == g.seed[i]
    {
      x[j] := g.seed[j];
    }
    assert x[..] == g.seed[..];
  }

  /** The seed moved id streams ahead, one binary digit of id after the other. */
  method JumpToStream(g: Generator, id: nat) returns (x: array<int32>)
    requires g.Valid() && id < COUNT_LIMIT
    ensures fresh(x) && g.Valid() && At(g, x[..], id)
  {
    NothingAbove(id);
    x := CopySeed(g);
    JumpHighBits(g, id, x);
    AllAbove(id);
    hide Above, Pow2, BitSet;
    if id % 2 == 1 {
      JumpBit(g, id, x, 0);
    } else {
      SkipBit(g, id, x, 0);
    }
  }

  /** The digits of id from bit p on have been taken into account. */
  ghost predicate TakenFrom(g: Generator, x: array<int32>, id: nat, p: nat)
    reads x, g.seed, g.aw, g.avw, g.b
  {
    g.Valid() && x !in {g.seed, g.aw, g.avw} && At(g, x[..], Above(id, p))
  }

  /** All the digits but the last. */
  method JumpHighBits(g: Generator, id: nat, x: array<int32>)
    requires TakenFrom(g, x, id, 64)
    modifies x
    ensures TakenFrom(g, x, id, 1)
  {
    var positions := 63;
    var mask := Pow2(positions);
    hide *;
    while true
      invariant 0 < positions <= 63 && mask == Pow2(positions) && TakenFrom(g, x, id, positions + 1)
      decreases positions
    {
      if BitSet(id, mask) {
        JumpBit(g, id, x, positions);
      } else {
        SkipBit(g, id, x, positions);
      }
      Halved(positions);
      mask, positions := mask / 2, positions - 1;
      if positions <= 0 {
        break;
      }
    }
  }

  /** A digit that is set. */
  method JumpBit(g: Generator, id: nat, x: array<int32>, p: nat)
    requires TakenFrom(g, x, id, p + 1) && BitSet(id, Pow2(p))
    modifies x
    ensures TakenFrom(g, x, id, p)
  {
    AboveNext(id, p);
    assert x.Length == 4;
    hide Above, Pow2, MovedTo, A;
    JumpAll(g, x, p, Above(id, p + 1));
  }

  /** A digit that is not. */
  lemma SkipBit(g: Generator, id: nat, x: array<int32>, p: nat)
    requires TakenFrom(g, x, id, p + 1) && !BitSet(id, Pow2(p))
    ensures TakenFrom(g, x, id, p)
  {
    AboveNext(id, p);
  }

  lemma Halved(k: nat)
    requires k > 0
    ensures Pow2(k) / 2 == Pow2(k - 1)
  {
  }

  /** tw_rand_initial_seed: the state of stream id is the seed advanced by id times 2^(v+w) draws, for every 64-bit id;
      the final clamp changes nothing. */
  method InitialSeedOf(s: Stream, id: nat, g: Generator)
    requires s.Shape() && g.Valid() && {g.seed, g.aw, g.avw} !! {s.ig, s.lg, s.cg} && id < COUNT_LIMIT
    requires forall j | 0 <= j < 4 :: 0 <= s.lg[j] < M(j)
    modifies s`count, s.ig, s.lg, s.cg
    ensures s.Valid() && s.count == 0 && g.Valid() && StartsAt(s, g, id)
  {
    var x := JumpToStream(g, id);
    s.count := 0;
    Finish4(g, x[..], id);
    CopyClamped(s.ig, x);
    hide A, MovedTo;
    s.InitGenerator(InitialSeed, g);
    assert s.cg[..] == x[..];
  }

  /** clamp_seed and the copy that follows it. */
  method CopyClamped(ig: array<int32>, x: array<int32>)
    requires ig.Length == x.Length == 4 && ig != x
    modifies ig
    ensures forall j | 0 <= j < 4 :: ig[j] == Clamp(j, x[j] as int)
  {
    for j := 0 to 4
      invariant forall i | 0 <= i < j :: ig[i] == Clamp(i, x[i] as int)
    {
      ig[j] := Clamp(j, x[j] as int);
    }
  }

  /** The stream's three states are the generator's seed advanced by id times 2^(v+w) draws. */
  ghost predicate StartsAt(s: Stream, g: Generator, id: nat)
    requires s.Shape() && g.Valid()
    reads s, s.ig, s.lg, s.cg, g.seed, g.aw, g.avw, g.b
  {
    && At(g, s.ig[..], id) && s.lg[..] == s.ig[..] && s.cg[..] == s.ig[..]
  }

  lemma SeedIsAt(g: Generator)
    requires g.Valid()
    ensures At(g, g.seed[..], 0)
  {
  }

  lemma NothingAbove(id: nat)
    requires id < COUNT_LIMIT
    ensures Above(id, 64) == 0
  {
    Pow64();
    hide Pow2;
    SmallRest(id, Pow2(64));
  }

  lemma Pow64()
    ensures Pow2(64) == COUNT_LIMIT
  {
    Powers(32);
    Pow2Adds(32, 32);
  }

  lemma AllAbove(id: nat)
    ensures Above(id, 0) == id && (BitSet(id, Pow2(0)) <==> id % 2 == 1)
  {
  }

  lemma Finish4(g: Generator, x: seq<int32>, id: nat)
    requires g.Valid() && At(g, x, id)
    ensures forall j | 0 <= j < 4 :: InRange(j, x[j] as int) && 0 <= x[j] < M(j) && Clamp(j, x[j] as int) == x[j]
  {
    hide A, Ahead, Pow2;
    forall j | 0 <= j < 4 ensures InRange(j, x[j] as int) && 0 <= x[j] < M(j) && Clamp(j, x[j] as int) == x[j] {
      AheadInRange(j, g.seed[j] as int, id * Pow2(g.v + g.w));
    }
  }
}
