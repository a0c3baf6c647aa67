/** Event signatures: the total order on which the whole simulator rests.
    Time stamps, priorities and tie-breakers are reals (rounding is not modelled). */
module EventSignature {

  /** Receive time, user priority, and the chain of random tie-breakers inherited through
      zero-offset sends (the code keeps the chain's length beside a fixed array). */
  datatype Sig = Sig(ts: real, prio: real, ties: seq<real>)

  /** The largest value of a C double, used by the largest signature. */
  const DBL_MAX: real := 1.7976931348623157e308

  const MAX_SIG := Sig(DBL_MAX, DBL_MAX, [DBL_MAX])

  /** The signature a zeroed PE or KP record holds before the first event. */
  const ZERO_SIG := Sig(0.0, 0.0, [])

  /** Lexicographic comparison of two chains; of two chains where one is a prefix of the
      other, the shorter comes first. */
  function CompareTies(a: seq<real>, b: seq<real>): int {
    if a == [] && b == [] then 0
    else if a == [] then -1
    else if b == [] then 1
    else if a[0] < b[0] then -1
    else if a[0] > b[0] then 1
    else CompareTies(a[1..], b[1..])
  }

  function Compare(a: Sig, b: Sig): int {
    if a.ts < b.ts then -1
    else if a.ts > b.ts then 1
    else if a.prio < b.prio then -1
    else if a.prio > b.prio then 1
    else CompareTies(a.ties, b.ties)
  }

  predicate Le(a: Sig, b: Sig) {
    Compare(a, b) <= 0
  }

  function Min(a: Sig, b: Sig): Sig {
    if Le(a, b) then a else b
  }

  lemma {:induction false} CompareTiesIsOrder(a: seq<real>, b: seq<real>, c: seq<real>)
    ensures CompareTies(a, b) == -CompareTies(b, a)
    ensures CompareTies(a, b) == 0 <==> a == b
    ensures CompareTies(a, b) <= 0 && CompareTies(b, c) <= 0 ==> CompareTies(a, c) <= 0
    decreases |a| + |b| + |c|
  {
    if a == [] || b == [] {
    } else {
      CompareTiesIsOrder(a[1..], b[1..], if c == [] then [] else c[1..]);
      assert a == [a[0]] + a[1..] && b == [b[0]] + b[1..];
    }
  }

  /** The comparison is a total order, and it only calls equal what is equal. */
  lemma {:induction false} CompareIsTotalOrder(a: Sig, b: Sig, c: Sig)
    ensures Compare(a, b) == -Compare(b, a)
    ensures Compare(a, b) == 0 <==> a == b
    ensures Le(a, b) && Le(b, c) ==> Le(a, c)
  {
    CompareTiesIsOrder(a.ties, b.ties, c.ties);
  }

  /** What later proofs need of the order, for all signatures at once. */
  lemma {:induction false} LeIsTotalOrder()
    ensures forall a, b {:trigger Le(a, b)} :: Le(a, b) || Le(b, a)
    ensures forall a, b {:trigger Le(a, b), Le(b, a)} :: Le(a, b) && Le(b, a) ==> a == b
    ensures forall a, b, c {:trigger Le(a, b), Le(b, c)} :: Le(a, b) && Le(b, c) ==> Le(a, c)
  {
    forall a, b ensures Le(a, b) || Le(b, a) { CompareIsTotalOrder(a, b, a); }
    forall a, b | Le(a, b) && Le(b, a) ensures a == b { CompareIsTotalOrder(a, b, a); }
    forall a, b, c | Le(a, b) && Le(b, c) ensures Le(a, c) { CompareIsTotalOrder(a, b, c); }
  }

  /** Chain a comes before b: at the first place where they differ it has the smaller tie-breaker, or it ends there. */
  ghost predicate TiesBefore(a: seq<real>, b: seq<real>) {
    exists i: nat | i <= |a| && i < |b| :: a[..i] == b[..i] && (i == |a| || a[i] < b[i])
  }

  /** a is earlier than b: by time, then by the smaller priority, then by tie-breakers. */
  ghost predicate ComesBefore(a: Sig, b: Sig) {
    || a.ts < b.ts
    || (a.ts == b.ts && a.prio < b.prio)
    || (a.ts == b.ts && a.prio == b.prio && TiesBefore(a.ties, b.ties))
  }

  lemma {:induction false} FirstTie(a: seq<real>, b: seq<real>, i: nat)
    requires i <= |a| && i < |b| && a[..i] == b[..i] && (i == |a| || a[i] < b[i])
    ensures CompareTies(a, b) < 0
  {
    if i > 0 {
      assert a[0] == a[..i][0] == b[..i][0] == b[0];
      assert a[1..][..i - 1] == a[..i][1..] == b[..i][1..] == b[1..][..i - 1];
      FirstTie(a[1..], b[1..], i - 1);
    }
  }

  lemma {:induction false} FindTie(a: seq<real>, b: seq<real>) returns (i: nat)
    requires CompareTies(a, b) < 0
    ensures i <= |a| && i < |b| && a[..i] == b[..i] && (i == |a| || a[i] < b[i])
  {
    if a == [] || a[0] < b[0] {
      i := 0;
    } else {
      i := FindTie(a[1..], b[1..]);
      assert a[..i + 1] == [a[0]] + a[1..][..i] && b[..i + 1] == [b[0]] + b[1..][..i];
      i := i + 1;
    }
  }

  /** The comparison is negative exactly if the first signature is earlier. */
  lemma {:induction false} CompareIsBefore(a: Sig, b: Sig)
    ensures Compare(a, b) < 0 <==> ComesBefore(a, b)
  {
    if TiesBefore(a.ties, b.ties) {
      var i: nat :| i <= |a.ties| && i < |b.ties| && a.ties[..i] == b.ties[..i]
                    && (i == |a.ties| || a.ties[i] < b.ties[i]);
      FirstTie(a.ties, b.ties, i);
    }
    if CompareTies(a.ties, b.ties) < 0 {
      var i := FindTie(a.ties, b.ties);
    }
  }

  /** The comparison as the code runs it: time, priority, a scan of the common part of the
      chains, then their lengths. */
  method CompareSig(e: Sig, n: Sig) returns (r: int)
    ensures r == Compare(e, n)
    ensures (r < 0 <==> ComesBefore(e, n)) && (r > 0 <==> ComesBefore(n, e)) && (r == 0 <==> e == n)
  {
    CompareIsBefore(e, n);
    CompareIsBefore(n, e);
    CompareIsTotalOrder(e, n, e);
    hide ComesBefore;
    if e.ts != n.ts {
      return if e.ts < n.ts then -1 else 1;
    }
    if e.prio != n.prio {
      return if e.prio < n.prio then -1 else 1;
    }
    var minLen := if |e.ties| < |n.ties| then |e.ties| else |n.ties|;
    for i := 0 to minLen
      invariant CompareTies(e.ties, n.ties) == CompareTies(e.ties[i..], n.ties[i..])
    {
      if e.ties[i] < n.ties[i] {
        return -1;
      } else if e.ties[i] > n.ties[i] {
        return 1;
      }
    }
    if |e.ties| == |n.ties| {
      r := 0;
    } else if |e.ties| > |n.ties| {
      r := 1;
    } else {
      r := -1;
    }
  }

  /** The signature given to a new event: a zero offset extends the sender's chain, a positive
      one starts a new chain. */
  function ChildSig(cur: Sig, offset: real, prio: real, u: real): Sig {
    Sig(cur.ts + offset, prio, if offset == 0.0 then cur.ties + [u] else [u])
  }

  lemma {:induction false} LongerChainIsLater(a: seq<real>, u: real)
    ensures CompareTies(a, a + [u]) < 0
  {
    if a != [] {
      LongerChainIsLater(a[1..], u);
      assert (a + [u])[1..] == a[1..] + [u];
    }
  }

  /** A new event is strictly later than the one whose handler creates it exactly when its offset
      is positive or its priority is no smaller: a zero offset with a smaller user priority
      schedules into the past. */
  lemma {:induction false} ChildIsLater(cur: Sig, offset: real, prio: real, u: real)
    requires offset >= 0.0
    ensures !Le(ChildSig(cur, offset, prio, u), cur) <==> offset > 0.0 || prio >= cur.prio
  {
    LongerChainIsLater(cur.ties, u);
    CompareTiesIsOrder(cur.ties, cur.ties + [u], []);
  }

  /** tw_event_new always passes priority 1, the largest allowed, so it never schedules into the past. */
  lemma {:induction false} DefaultPriorityIsLater(cur: Sig, offset: real, u: real)
    requires offset >= 0.0 && 0.0 <= cur.prio <= 1.0
    ensures !Le(ChildSig(cur, offset, 1.0, u), cur)
  {
    ChildIsLater(cur, offset, 1.0, u);
  }

  /** A concrete send into the past: zero offset and priority 0 from an event of priority 1. */
  lemma LowPriorityZeroOffsetIsEarlier()
    ensures Le(ChildSig(Sig(1.0, 1.0, [0.5]), 0.0, 0.0, 0.5), Sig(1.0, 1.0, [0.5]))
  {
  }
}
