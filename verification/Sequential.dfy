/** The sequential scheduler: one priority queue, always the least event next. It defines what the parallel
    schedulers are to compute. */
module Sequential {
  import opened EventSignature
  import opened LpModel

  /** The queued messages in no particular order, every LP's state, and the messages processed so far. */
  datatype SeqState = SeqState(pq: seq<Msg>, lp: int -> Lp, trace: seq<Msg>)

  function Contents(es: seq<Ev>): seq<Msg> {
    seq(|es|, i requires 0 <= i < |es| => es[i].msg)
  }

  function SetLp(f: int -> Lp, l: int, v: Lp): (r: int -> Lp)
    ensures forall x {:trigger r(x)} :: r(x) == if x == l then v else f(x)
  {
    x => if x == l then v else f(x)
  }

  /** The initial events, in some order. */
  ghost predicate Enumerates(m: Model, order: seq<Ev>) {
    && (forall e :: e in order <==> e in m.roots)
    && (forall i, j | 0 <= i < j < |order| :: order[i] != order[j])
  }

  function SeqInit(m: Model, order: seq<Ev>): SeqState {
    SeqState(Contents(order), m.init, [])
  }

  /** tw_pq_dequeue may take the message at position i. */
  predicate IsLeast(pq: seq<Msg>, i: int) {
    0 <= i < |pq| && forall j | 0 <= j < |pq| :: Le(pq[i].sig, pq[j].sig)
  }

  /** Dequeue, run the handler, queue what it schedules. */
  function SeqStep(m: Model, z: SeqState, i: int): SeqState
    requires IsLeast(z.pq, i)
  {
    var x := z.pq[i];
    var r := Exec(m, z.lp(x.dest), x);
    SeqState(z.pq[..i] + z.pq[i + 1..] + r.outs, SetLp(z.lp, x.dest, r.lp), z.trace + [x])
  }

  ghost predicate SeqRuns(m: Model, z: SeqState, picks: seq<int>, z': SeqState)
    decreases |picks|
  {
    if picks == [] then z == z'
    else IsLeast(z.pq, picks[0]) && SeqRuns(m, SeqStep(m, z, picks[0]), picks[1..], z')
  }

  /** No two queued messages have the same signature. */
  predicate TieFree(pq: seq<Msg>) {
    forall i, j | 0 <= i < j < |pq| :: pq[i].sig != pq[j].sig
  }

  /** The random tie-breakers never collide in the sequential run. */
  ghost predicate NeverTies(m: Model, z: SeqState) {
    forall picks, z' :: SeqRuns(m, z, picks, z') ==> TieFree(z'.pq)
  }

  lemma {:induction false} NeverTiesStep(m: Model, z: SeqState, i: int)
    requires NeverTies(m, z) && IsLeast(z.pq, i)
    ensures TieFree(z.pq) && NeverTies(m, SeqStep(m, z, i))
  {
    assert SeqRuns(m, z, [], z);
    forall picks, z' | SeqRuns(m, SeqStep(m, z, i), picks, z') ensures TieFree(z'.pq) {
      assert ([i] + picks)[1..] == picks;
      assert SeqRuns(m, z, [i] + picks, z');
    }
  }

  /** The part of a trace that concerns one KP. */
  function OfKp(m: Model, trace: seq<Msg>, k: int): seq<Msg> {
    if trace == [] then []
    else
      var rest := OfKp(m, trace[..|trace| - 1], k);
      var x := trace[|trace| - 1];
      if m.kpOf(x.dest) == k then rest + [x] else rest
  }

  lemma OfKpAppend(m: Model, trace: seq<Msg>, x: Msg, k: int)
    ensures OfKp(m, trace + [x], k) == if m.kpOf(x.dest) == k then OfKp(m, trace, k) + [x] else OfKp(m, trace, k)
  {
    assert (trace + [x])[..|trace|] == trace;
  }

  /** A sequential run that has processed exactly what is earlier than g. */
  predicate StopsAt(z: SeqState, g: Sig) {
    && (forall i | 0 <= i < |z.trace| :: !Le(g, z.trace[i].sig))
    && (forall i | 0 <= i < |z.pq| :: Le(g, z.pq[i].sig))
  }

  /** What has been processed is in order, nothing queued is earlier, and all that is queued has an accepted
      priority. */
  ghost predicate InOrder(z: SeqState) {
    && (forall i | 0 <= i < |z.pq| :: PrioOk(z.pq[i].sig))
    && (forall i, j | 0 <= i < j < |z.trace| :: Le(z.trace[i].sig, z.trace[j].sig))
    && (forall i, j | 0 <= i < |z.trace| && 0 <= j < |z.pq| :: Le(z.trace[i].sig, z.pq[j].sig))
  }

  lemma InitIsInOrder(m: Model, order: seq<Ev>)
    requires ModelOk(m) && Enumerates(m, order)
    ensures InOrder(SeqInit(m, order))
  {
    forall i | 0 <= i < |order| ensures PrioOk(order[i].msg.sig) {
      assert order[i] in m.roots;
    }
  }

  lemma {:induction false} StepKeepsOrder(m: Model, z: SeqState, i: int)
    requires ModelOk(m) && InOrder(z) && IsLeast(z.pq, i)
    ensures InOrder(SeqStep(m, z, i))
  {
    var x := z.pq[i];
    var r := Exec(m, z.lp(x.dest), x);
    LeIsTotalOrder();
    forall j | 0 <= j < |r.outs| ensures Le(x.sig, r.outs[j].sig) && PrioOk(r.outs[j].sig) {
      ChildrenAreLater(m, z.lp(x.dest), x, j);
    }
    hide Le, ModelOk, Exec;
    var z' := SeqStep(m, z, i);
    forall j | 0 <= j < |z'.pq|
      ensures PrioOk(z'.pq[j].sig)
      ensures Le(x.sig, z'.pq[j].sig) && forall k | 0 <= k < |z.trace| :: Le(z.trace[k].sig, z'.pq[j].sig)
    {
      if j < i {
        assert z'.pq[j] == z.pq[j];
      } else if j < |z.pq| - 1 {
        assert z'.pq[j] == z.pq[j + 1];
      } else {
        assert z'.pq[j] == r.outs[j - (|z.pq| - 1)];
      }
    }
  }

  /** The sequential scheduler never goes back in time, on any run of any model whose sends the kernel accepts. */
  lemma {:induction false} RunKeepsOrder(m: Model, z: SeqState, picks: seq<int>, z': SeqState)
    requires ModelOk(m) && InOrder(z) && SeqRuns(m, z, picks, z')
    ensures InOrder(z')
    decreases |picks|
  {
    if picks != [] {
      StepKeepsOrder(m, z, picks[0]);
      hide InOrder, IsLeast, SeqStep;
      RunKeepsOrder(m, SeqStep(m, z, picks[0]), picks[1..], z');
    }
  }

  /** The scheduler as it runs, with its queue as a sequence. */
  class Scheduler {
    const m: Model
    var pq: seq<Msg>
    var lp: int -> Lp
    ghost var trace: seq<Msg>

    ghost function State(): SeqState
      reads this
    {
      SeqState(pq, lp, trace)
    }

    constructor (m: Model, order: seq<Ev>)
      ensures this.m == m && State() == SeqInit(m, order)
    {
      this.m, pq, lp, trace := m, Contents(order), m.init, [];
    }

    /** The position of a least message of the queue. */
    method FindLeast() returns (i: nat)
      requires pq != []
      ensures IsLeast(pq, i)
    {
      LeIsTotalOrder();
      hide Le;
      i := 0;
      for j := 1 to |pq|
        invariant 0 <= i < j && forall k | 0 <= k < j :: Le(pq[i].sig, pq[k].sig)
      {
        if !Le(pq[i].sig, pq[j].sig) {
          i := j;
        }
      }
    }

    /** tw_scheduler_sequential, for at most n events: it processes nothing past the end time, and stops early only when
        nothing is queued up to it. */
    method Run(n: nat) returns (ghost picks: seq<int>)
      modifies this
      ensures SeqRuns(m, old(State()), picks, State()) && |picks| <= n
      ensures |picks| < n ==> forall i | 0 <= i < |pq| :: pq[i].sig.ts > m.tsEnd
      ensures old(trace) <= trace && forall i | |old(trace)| <= i < |trace| :: trace[i].sig.ts <= m.tsEnd
    {
      picks := [];
      for i := 0 to n
        invariant SeqRuns(m, old(State()), picks, State()) && |picks| == i
        invariant old(trace) <= trace && forall i | |old(trace)| <= i < |trace| :: trace[i].sig.ts <= m.tsEnd
      {
        if pq == [] {
          return;
        }
        var k := FindLeast();
        if pq[k].sig.ts > m.tsEnd {
          NoneBefore(pq, k);
          return;
        }
        OneMorePick(m, old(State()), picks, State(), k);
        picks := picks + [k];
        var x := pq[k];
        var r := Exec(m, lp(x.dest), x);
        pq, lp, trace := pq[..k] + pq[k + 1..] + r.outs, SetLp(lp, x.dest, r.lp), trace + [x];
      }
    }
  }

  lemma NoneBefore(pq: seq<Msg>, k: int)
    requires IsLeast(pq, k)
    ensures forall i | 0 <= i < |pq| :: pq[i].sig.ts >= pq[k].sig.ts
  {
  }

  lemma {:induction false} OneMorePick(m: Model, z: SeqState, picks: seq<int>, z': SeqState, k: int)
    requires SeqRuns(m, z, picks, z') && IsLeast(z'.pq, k)
    ensures SeqRuns(m, z, picks + [k], SeqStep(m, z', k))
    decreases |picks|
  {
    hide SeqStep, IsLeast;
    if picks == [] {
      assert (picks + [k])[1..] == [];
    } else {
      assert (picks + [k])[1..] == picks[1..] + [k];
      OneMorePick(m, SeqStep(m, z, picks[0]), picks[1..], z', k);
    }
  }
}
