/** What the optimistic kernel promises, for every run. */
module TimeWarpTheorems {
  import opened EventSignature
  import opened LpModel
  import opened TimeWarp
  import opened TimeWarpInvariants
  import opened TimeWarpFacts
  import opened TimeWarpEffects
  import opened TimeWarpSafety
  import opened Sequential

  /** The processed events of a KP that are earlier than GVT: those committed and those that can be. */
  function Below(s: Sys, k: int): seq<Ev> {
    s.hist(k) + s.stack(k)[..CountBelow(s.stack(k), s.gvt)]
  }

  /** e was sent initially, or by a handler already run. */
  predicate Ready(m: Model, gone: set<Ev>, e: Ev) {
    match e.cause
    case None => e in m.roots
    case Some(c) => c in gone
  }

  /** The event was processed before GVT and is not undone. */
  predicate Past(s: Sys, e: Ev) {
    e in s.place && s.place[e] in {Processed, Committed} && !Le(s.gvt, e.msg.sig)
  }

  /** q holds exactly the live events that are ready and not gone, once each; what is gone was ready. */
  ghost predicate Labels(m: Model, s: Sys, q: seq<Ev>, gone: set<Ev>) {
    && (forall i, j | 0 <= i < j < |q| :: q[i] != q[j])
    && (forall e :: e in q <==> Live(m, s, e) && e !in gone && Ready(m, gone, e))
    && (forall e <- gone :: Ready(m, gone, e))
  }

  /** Of every KP's past, exactly the first done(k) events are gone. */
  ghost predicate Counts(m: Model, s: Sys, gone: set<Ev>, done: int -> int) {
    && (forall k :: 0 <= done(k) <= |Below(s, k)|)
    && (forall k, i | 0 <= i < |Below(s, k)| :: Below(s, k)[i] in gone <==> i < done(k))
    && (forall e <- gone :: Past(s, e))
  }

  /** The sequential state z is what the first done(k) events of every KP's past amount to. */
  ghost predicate Amounts(m: Model, s: Sys, z: SeqState, done: int -> int)
    requires forall k :: 0 <= done(k) <= |Below(s, k)|
  {
    && (forall k :: OfKp(m, z.trace, k) == Contents(Below(s, k)[..done(k)]))
    && (forall l :: z.lp(l) == Replay(m, Below(s, m.kpOf(l))[..done(m.kpOf(l))], l))
    && (forall i | 0 <= i < |z.trace| :: !Le(s.gvt, z.trace[i].sig))
  }

  /** s and the sequential state z agree: q labels z's queue with events of s, gone is what z has processed. */
  ghost predicate Agrees(m: Model, s: Sys, z: SeqState, q: seq<Ev>, gone: set<Ev>, done: int -> int) {
    z.pq == Contents(q) && Labels(m, s, q, gone) && Counts(m, s, gone, done) && Amounts(m, s, z, done)
  }

  /** Whatever was processed before GVT is not cancelled. */
  lemma PastIsLive(m: Model, s: Sys, e: Ev)
    requires Bounds(m, s) && e in s.place && s.place[e] in {Processed, Committed} && !Le(s.gvt, e.msg.sig)
    ensures Live(m, s, e)
  {
    hide Le;
  }

  /** Whatever is live and earlier than GVT has been processed. */
  lemma LiveIsPast(m: Model, s: Sys, e: Ev)
    requires Bounds(m, s) && Live(m, s, e) && !Le(s.gvt, e.msg.sig)
    ensures e in s.place && s.place[e] in {Processed, Committed}
  {
    hide Le;
  }

  lemma {:induction false} BelowIsPrefix(s: Sys, k: int)
    ensures |Below(s, k)| <= |Line(s, k)| && Below(s, k) == Line(s, k)[..|Below(s, k)|]
  {
    var n := CountBelow(s.stack(k), s.gvt);
    assert s.stack(k) == s.stack(k)[..n] + s.stack(k)[n..];
  }

  /** Below(k) is the sorted sequence of all events of the KP processed before GVT. */
  ghost predicate PastOf(m: Model, s: Sys, k: int, past: seq<Ev>) {
    && (forall i | 0 <= i < |past| ::
          var e := past[i];
          e in s.place && s.place[e] in {Processed, Committed} && KpOf(m, e) == k && !Le(s.gvt, e.msg.sig))
    && (forall i, j | 0 <= i < j < |past| :: past[i] != past[j] && Le(past[i].msg.sig, past[j].msg.sig))
    && (forall e <- s.place | s.place[e] in {Processed, Committed} && KpOf(m, e) == k && !Le(s.gvt, e.msg.sig) ::
          e in past)
  }

  lemma PastIsBelow(m: Model, s: Sys, e: Ev)
    requires Stacks(m, s) && Histories(m, s) && Splits(m, s, KpOf(m, e), CountBelow(s.stack(KpOf(m, e)), s.gvt))
    requires Past(s, e)
    ensures e in Below(s, KpOf(m, e))
  {
    hide Le, CountBelow;
    var k := KpOf(m, e);
    var st, n := s.stack(k), CountBelow(s.stack(k), s.gvt);
    if s.place[e] == Processed {
      var i :| 0 <= i < |st| && st[i] == e;
      assert i < n && st[..n][i] == e;
    }
  }

  lemma {:induction false} BelowIsPast(m: Model, s: Sys, k: int)
    requires Stacks(m, s) && Histories(m, s) && Sorted(s) && Bounds(m, s)
    ensures PastOf(m, s, k, Below(s, k))
  {
    FossilFacts(m, s, k);
    hide Le, CountBelow;
    forall e | Past(s, e) && KpOf(m, e) == k ensures e in Below(s, k) {
      PastIsBelow(m, s, e);
    }
    hide Stacks;
  }

  /** Below any event of the past that is not gone there is a queued one, strictly earlier unless it is that event. */
  lemma {:induction false} Ancestor(m: Model, s: Sys, q: seq<Ev>, gone: set<Ev>, f: Ev) returns (a: Ev)
    requires Births(m, s) && Bounds(m, s) && Dones(s) && Causes(m, s) && Labels(m, s, q, gone)
    requires Past(s, f) && f !in gone
    ensures a in q && Le(a.msg.sig, f.msg.sig) && (a == f || !Le(f.msg.sig, a.msg.sig))
    decreases f
  {
    LeIsTotalOrder(); hide Le;
    PastIsLive(m, s, f);
    if Ready(m, gone, f) {
      a := f;
    } else {
      a := Ancestor(m, s, q, gone, f.cause.value);
    }
  }

  /** No event of the past that is not gone is earlier than the least queued message, and only that very event is as
      early. */
  lemma {:induction false} LeastIsFirst(m: Model, s: Sys, q: seq<Ev>, gone: set<Ev>, i: int, f: Ev)
    requires Births(m, s) && Bounds(m, s) && Dones(s) && Causes(m, s) && Labels(m, s, q, gone)
    requires TieFree(Contents(q)) && IsLeast(Contents(q), i)
    requires Past(s, f) && f !in gone && Le(f.msg.sig, q[i].msg.sig)
    ensures f == q[i]
  {
    LeIsTotalOrder(); hide Le, Past;
    var a := Ancestor(m, s, q, gone, f);
    hide Births, Bounds, Dones, Causes, Labels;
    var h :| 0 <= h < |q| && q[h] == a;
    assert Contents(q)[h] == a.msg && Contents(q)[i] == q[i].msg;
    assert Le(q[i].msg.sig, a.msg.sig);
    assert h == i;
  }

  /** The least queued message, if earlier than GVT, is the next event of its KP's past. */
  lemma {:induction false} LeastIsNext(m: Model, s: Sys, q: seq<Ev>, gone: set<Ev>, done: int -> int, i: int)
    requires Births(m, s) && Bounds(m, s) && Dones(s) && Causes(m, s) && Labels(m, s, q, gone)
    requires Counts(m, s, gone, done) && TieFree(Contents(q)) && IsLeast(Contents(q), i)
    requires PastOf(m, s, KpOf(m, q[i]), Below(s, KpOf(m, q[i]))) && !Le(s.gvt, q[i].msg.sig)
    ensures var k := KpOf(m, q[i]); done(k) < |Below(s, k)| && Below(s, k)[done(k)] == q[i] && Past(s, q[i])
  {
    LeIsTotalOrder();
    hide Le, Births, Bounds, Dones, Causes, Below, TieFree;
    var x, k := q[i], KpOf(m, q[i]);
    assert x in q;
    LiveIsPast(m, s, x);
    assert x in Below(s, k);
    var j :| 0 <= j < |Below(s, k)| && Below(s, k)[j] == x;
    var f := Below(s, k)[done(k)];
    assert Le(f.msg.sig, x.msg.sig);
    LeastIsFirst(m, s, q, gone, i, f);
  }

  /** The elements of q without the one at i, followed by kids. */
  function Replaced(q: seq<Ev>, i: int, kids: seq<Ev>): seq<Ev>
    requires 0 <= i < |q|
  {
    q[..i] + q[i + 1..] + kids
  }

  lemma ReplacedDistinct(q: seq<Ev>, i: int, kids: seq<Ev>)
    requires 0 <= i < |q| && forall a, b | 0 <= a < b < |q| :: q[a] != q[b]
    requires forall a, b | 0 <= a < b < |kids| :: kids[a] != kids[b]
    requires forall c <- kids :: c !in q
    ensures var q' := Replaced(q, i, kids); forall a, b | 0 <= a < b < |q'| :: q'[a] != q'[b]
  {
    var q', n := Replaced(q, i, kids), |q| - 1;
    assert forall a | 0 <= a < n :: q'[a] == q[if a < i then a else a + 1];
    assert forall a | n <= a < |q'| :: q'[a] == kids[a - n] && q'[a] in kids;
    hide Replaced;
    assert forall a | 0 <= a < n :: q'[a] in q;
  }

  lemma ReplacedElements(q: seq<Ev>, i: int, kids: seq<Ev>)
    requires 0 <= i < |q| && forall a, b | 0 <= a < b < |q| :: q[a] != q[b]
    ensures forall e :: e in Replaced(q, i, kids) <==> (e in q && e != q[i]) || e in kids
  {
    assert q == q[..i] + [q[i]] + q[i + 1..];
  }

  lemma KidsAreReady(m: Model, s: Sys, q: seq<Ev>, gone: set<Ev>, x: Ev)
    requires Labels(m, s, q, gone) && KidsLive(m, s) && Causes(m, s) && x in q && x in s.done
    ensures forall c :: c in s.done[x].kids <==> Live(m, s, c) && c.cause == Some(x)
    ensures forall c <- s.done[x].kids :: c !in q && c != x && c !in gone
    ensures Ready(m, gone, x) && x !in gone
  {
    hide Live;
  }

  lemma {:induction false} LabelsStep(m: Model, s: Sys, q: seq<Ev>, gone: set<Ev>, i: int)
    requires Labels(m, s, q, gone) && KidsLive(m, s) && Causes(m, s) && 0 <= i < |q| && q[i] in s.done
    ensures Labels(m, s, Replaced(q, i, s.done[q[i]].kids), gone + {q[i]})
  {
    KidsAreReady(m, s, q, gone, q[i]);
    ReplacedDistinct(q, i, s.done[q[i]].kids);
    ReplacedElements(q, i, s.done[q[i]].kids);
    hide Live, KidsLive, Causes, Replaced;
  }

  lemma {:induction false} CountsStep(m: Model, s: Sys, gone: set<Ev>, done: int -> int, x: Ev)
    requires Counts(m, s, gone, done) && Past(s, x) && forall k :: PastOf(m, s, k, Below(s, k))
    requires var k := KpOf(m, x); done(k) < |Below(s, k)| && Below(s, k)[done(k)] == x
    ensures Counts(m, s, gone + {x}, Upd(done, KpOf(m, x), done(KpOf(m, x)) + 1))
  {
    hide Below, Le;
    forall k, i | 0 <= i < |Below(s, k)| && Below(s, k)[i] == x ensures k == KpOf(m, x) && i == done(k) {
      assert PastOf(m, s, k, Below(s, k));
    }
  }

  lemma {:induction false} AmountsStep(m: Model, s: Sys, z: SeqState, done: int -> int, i: int, x: Ev)
    requires forall k :: 0 <= done(k) <= |Below(s, k)|
    requires Amounts(m, s, z, done) && IsLeast(z.pq, i) && z.pq[i] == x.msg && !Le(s.gvt, x.msg.sig)
    requires done(KpOf(m, x)) < |Below(s, KpOf(m, x))| && Below(s, KpOf(m, x))[done(KpOf(m, x))] == x
    ensures Amounts(m, s, SeqStep(m, z, i), Upd(done, KpOf(m, x), done(KpOf(m, x)) + 1))
  {
    hide Below, Exec, Le;
    var kx := KpOf(m, x);
    var z', done' := SeqStep(m, z, i), Upd(done, kx, done(kx) + 1);
    var past := Below(s, kx)[..done(kx)];
    assert Below(s, kx)[..done'(kx)] == past + [x];
    forall k ensures OfKp(m, z'.trace, k) == Contents(Below(s, k)[..done'(k)]) {
      OfKpAppend(m, z.trace, x.msg, k);
      assert Contents(past + [x]) == Contents(past) + [x.msg];
      hide OfKp, Replay;
    }
    LpStep(m, s, z, done, i, x);
    hide OfKp, Replay, IsLeast;
  }

  lemma {:induction false} LpStep(m: Model, s: Sys, z: SeqState, done: int -> int, i: int, x: Ev)
    requires forall k :: 0 <= done(k) <= |Below(s, k)|
    requires Amounts(m, s, z, done) && IsLeast(z.pq, i) && z.pq[i] == x.msg
    requires done(KpOf(m, x)) < |Below(s, KpOf(m, x))| && Below(s, KpOf(m, x))[done(KpOf(m, x))] == x
    ensures var done' := Upd(done, KpOf(m, x), done(KpOf(m, x)) + 1);
            forall l :: SeqStep(m, z, i).lp(l) == Replay(m, Below(s, m.kpOf(l))[..done'(m.kpOf(l))], l)
  {
    hide Below, Exec, Le, OfKp;
    var kx := KpOf(m, x);
    var z', done' := SeqStep(m, z, i), Upd(done, kx, done(kx) + 1);
    var past := Below(s, kx)[..done(kx)];
    assert Below(s, kx)[..done'(kx)] == past + [x];
    forall l ensures z'.lp(l) == Replay(m, Below(s, m.kpOf(l))[..done'(m.kpOf(l))], l) {
      ReplayAppend(m, past, x, l);
      hide Replay;
    }
  }

  lemma ContentsAre(kids: seq<Ev>, outs: seq<Msg>)
    requires |kids| == |outs| && forall j | 0 <= j < |outs| :: kids[j].msg == outs[j]
    ensures Contents(kids) == outs
  {
  }

  lemma ReplacedContents(q: seq<Ev>, i: int, kids: seq<Ev>)
    requires 0 <= i < |q|
    ensures Contents(Replaced(q, i, kids)) == Contents(q)[..i] + Contents(q)[i + 1..] + Contents(kids)
  {
  }

  lemma {:induction false} QueueStep(m: Model, s: Sys, z: SeqState, q: seq<Ev>, done: int -> int, i: int)
    requires z.pq == Contents(q) && IsLeast(z.pq, i) && LinesRecorded(m, s)
    requires forall k :: 0 <= done(k) <= |Below(s, k)|
    requires Amounts(m, s, z, done)
    requires var k := KpOf(m, q[i]); done(k) < |Below(s, k)| && Below(s, k)[done(k)] == q[i]
    ensures q[i] in s.done && SeqStep(m, z, i).pq == Contents(Replaced(q, i, s.done[q[i]].kids))
  {
    var x, k := q[i], KpOf(m, q[i]);
    BelowIsPrefix(s, k);
    assert Line(s, k)[..done(k)] == Below(s, k)[..done(k)];
    assert Recorded(m, s, Line(s, k)[..done(k)], Line(s, k)[done(k)]);
    hide Below, Line, LinesRecorded, Le, Exec, Replaced, Contents;
    ReplacedContents(q, i, s.done[x].kids);
    assert z.lp(x.msg.dest) == Replay(m, Below(s, k)[..done(k)], x.msg.dest);
    var outs := Exec(m, z.lp(x.msg.dest), x.msg).outs;
    ContentsAre(s.done[x].kids, outs);
  }

  /** One sequential step, as long as something earlier than GVT is queued, stays in agreement. */
  lemma {:induction false} AgreesStep(m: Model, s: Sys, z: SeqState, q: seq<Ev>, gone: set<Ev>, done: int -> int,
      i: int)
      returns (q': seq<Ev>, gone': set<Ev>, done': int -> int)
    requires Core(m, s) && Agrees(m, s, z, q, gone, done)
    requires IsLeast(z.pq, i) && TieFree(z.pq) && !Le(s.gvt, z.pq[i].sig)
    ensures Agrees(m, s, SeqStep(m, z, i), q', gone', done')
    ensures gone < gone' && forall e <- gone' :: Past(s, e)
  {
    hide Le, Exec, Below, Labels, Amounts, Past, ModelOk, Ids, Births, Stacks, Histories, Dones, Owners, Marks,
      Sorted, Ahead, Bounds, Phases, Routes, Arriving, Stages, Antis, Lookup, KidsLive, Causes, Flights, LpsAgree,
      LinesRecorded;
    forall k ensures PastOf(m, s, k, Below(s, k)) {
      BelowIsPast(m, s, k);
    }
    hide PastOf;
    var x := q[i];
    var k := KpOf(m, x);
    LeastIsNext(m, s, q, gone, done, i);
    QueueStep(m, s, z, q, done, i);
    LabelsStep(m, s, q, gone, i);
    CountsStep(m, s, gone, done, x);
    AmountsStep(m, s, z, done, i, x);
    hide Core, SeqStep, IsLeast, TieFree, KpOf;
    q', gone', done' := Replaced(q, i, s.done[x].kids), gone + {x}, Upd(done, k, done(k) + 1);
    assert Below(s, k)[done(k)] !in gone;
  }

  /** In agreement and with nothing earlier than GVT queued, every KP's past is gone. */
  lemma {:induction false} AgreesEnd(m: Model, s: Sys, z: SeqState, q: seq<Ev>, gone: set<Ev>, done: int -> int, k: int)
    requires Births(m, s) && Bounds(m, s) && Dones(s) && Causes(m, s) && PastOf(m, s, k, Below(s, k))
    requires Agrees(m, s, z, q, gone, done) && forall i | 0 <= i < |z.pq| :: Le(s.gvt, z.pq[i].sig)
    ensures done(k) == |Below(s, k)|
  {
    LeIsTotalOrder(); hide Le, Amounts;
    forall e <- q ensures Le(s.gvt, e.msg.sig) {
      var h :| 0 <= h < |q| && q[h] == e;
      assert z.pq[h] == e.msg;
    }
    if done(k) < |Below(s, k)| {
      var f := Below(s, k)[done(k)];
      assert Past(s, f) && f !in gone;
      var _ := Ancestor(m, s, q, gone, f);
    }
  }

  lemma {:induction false} AgreesInit(m: Model, s: Sys, order: seq<Ev>)
    requires Causes(m, s) && Enumerates(m, order) && forall r <- m.roots :: r.cause == None
    requires Births(m, s)
    ensures Agrees(m, s, SeqInit(m, order), order, {}, _ => 0)
  {
    hide Live, Below, Le, Births;
  }

  /** Every sequential run that stays below GVT stays in agreement. */
  lemma {:induction false} RunAgrees(m: Model, s: Sys, z: SeqState, picks: seq<int>, z': SeqState,
      q: seq<Ev>, gone: set<Ev>, done: int -> int) returns (q': seq<Ev>, gone': set<Ev>, done': int -> int)
    requires Core(m, s) && Agrees(m, s, z, q, gone, done) && NeverTies(m, z) && SeqRuns(m, z, picks, z')
    requires forall i | 0 <= i < |z'.trace| :: !Le(s.gvt, z'.trace[i].sig)
    ensures Agrees(m, s, z', q', gone', done')
    decreases |picks|
  {
    hide Core, Agrees, Exec, Le;
    if picks == [] {
      q', gone', done' := q, gone, done;
    } else {
      var i, z1 := picks[0], SeqStep(m, z, picks[0]);
      NeverTiesStep(m, z, i);
      TraceGrows(m, z1, picks[1..], z');
      assert z1.trace[|z.trace|] == z.pq[i];
      hide NeverTies;
      var q1, gone1, done1 := AgreesStep(m, s, z, q, gone, done, i);
      q', gone', done' := RunAgrees(m, s, z1, picks[1..], z', q1, gone1, done1);
    }
  }

  lemma {:induction false} TraceGrows(m: Model, z: SeqState, picks: seq<int>, z': SeqState)
    requires SeqRuns(m, z, picks, z')
    ensures z.trace <= z'.trace
    decreases |picks|
  {
    hide Exec, Le;
    if picks != [] {
      TraceGrows(m, SeqStep(m, z, picks[0]), picks[1..], z');
    }
  }

  lemma {:induction false} AgreesAtStop(m: Model, s: Sys, z: SeqState, q: seq<Ev>, gone: set<Ev>, done: int -> int)
    requires Core(m, s) && Agrees(m, s, z, q, gone, done) && StopsAt(z, s.gvt)
    ensures forall k :: OfKp(m, z.trace, k) == Contents(Below(s, k))
    ensures forall l :: z.lp(l) == Replay(m, Below(s, m.kpOf(l)), l)
  {
    hide Le, Below, Labels, ModelOk, Ids, Births, Stacks, Histories, Dones, Owners, Marks, Sorted, Ahead,
      Bounds, Phases, Routes, Arriving, Stages, Antis, Lookup, KidsLive, Causes, Flights, LpsAgree, LinesRecorded;
    forall k ensures done(k) == |Below(s, k)| && Below(s, k)[..done(k)] == Below(s, k) {
      BelowIsPast(m, s, k);
      AgreesEnd(m, s, z, q, gone, done, k);
    }
    hide OfKp, Replay;
  }

  /** The main theorem. Take any run of the optimistic kernel, with any interleaving of processing, rollbacks,
      anti-messages, deliveries and GVT rounds, and any run of the sequential scheduler up to the kernel's GVT in
      which tie-breakers do not collide. Each KP has processed below GVT exactly the messages the sequential
      scheduler gave it, in the same order, and replaying them leaves each LP in the state the sequential run
      left it in. */
  lemma {:induction false} CommittedIsSequential(m: Model, run: seq<Action>, s: Sys, order: seq<Ev>, picks: seq<int>,
      z: SeqState)
    requires ModelOk(m) && Runs(m, InitSys(m), run, s)
    requires Enumerates(m, order) && NeverTies(m, SeqInit(m, order))
    requires SeqRuns(m, SeqInit(m, order), picks, z) && StopsAt(z, s.gvt)
    ensures forall k :: OfKp(m, z.trace, k) == Contents(Below(s, k))
    ensures forall l :: z.lp(l) == Replay(m, Below(s, m.kpOf(l)), l)
  {
    InitIsCore(m);
    RunKeepsCore(m, InitSys(m), run, s);
    assert forall r <- m.roots :: r.cause == None;
    assert Causes(m, s) && Births(m, s);
    AgreesInit(m, s, order);
    hide Core, ModelOk, Causes, Births, Enumerates, NeverTies, SeqRuns, Agrees, Runs;
    var q, gone, done := RunAgrees(m, s, SeqInit(m, order), picks, z, order, {}, _ => 0);
    AgreesAtStop(m, s, z, q, gone, done);
  }

  /** From agreement the sequential scheduler reaches the kernel's GVT. */
  lemma {:induction false} ReachGvt(m: Model, s: Sys, z: SeqState, past: set<Ev>,
      q: seq<Ev>, gone: set<Ev>, done: int -> int) returns (picks: seq<int>, z': SeqState)
    requires Core(m, s) && Agrees(m, s, z, q, gone, done) && NeverTies(m, z) && Bounded(s, z)
    requires gone <= past && forall e | Past(s, e) :: e in past
    ensures SeqRuns(m, z, picks, z') && StopsAt(z', s.gvt)
    decreases past - gone
  {
    hide Core, Exec, Le, Past, Agrees;
    if forall i | 0 <= i < |z.pq| :: Le(s.gvt, z.pq[i].sig) {
      picks, z' := [], z;
    } else {
      var i := Least(z.pq);
      LeastIsBelow(z.pq, i, s.gvt);
      NeverTiesStep(m, z, i);
      hide NeverTies, IsLeast;
      var q1, gone1, done1 := AgreesStep(m, s, z, q, gone, done, i);
      var x :| x in gone1 && x !in gone;
      assert past - gone1 < past - gone;
      var rest;
      rest, z' := ReachGvt(m, s, SeqStep(m, z, i), past, q1, gone1, done1);
      picks := [i] + rest;
    }
  }

  /** z has processed nothing at or after GVT. */
  predicate Bounded(s: Sys, z: SeqState) {
    forall i | 0 <= i < |z.trace| :: !Le(s.gvt, z.trace[i].sig)
  }

  lemma LeastIsBelow(pq: seq<Msg>, i: int, g: Sig)
    requires IsLeast(pq, i) && exists j | 0 <= j < |pq| :: !Le(g, pq[j].sig)
    ensures !Le(g, pq[i].sig)
  {
    LeIsTotalOrder(); hide Le;
  }

  /** The sequential run the main theorem speaks of exists for every run of the optimistic kernel. */
  lemma {:induction false} SequentialRunExists(m: Model, run: seq<Action>, s: Sys, order: seq<Ev>)
      returns (picks: seq<int>, z: SeqState)
    requires ModelOk(m) && Runs(m, InitSys(m), run, s)
    requires Enumerates(m, order) && NeverTies(m, SeqInit(m, order))
    ensures SeqRuns(m, SeqInit(m, order), picks, z) && StopsAt(z, s.gvt)
  {
    InitIsCore(m);
    RunKeepsCore(m, InitSys(m), run, s);
    assert forall r <- m.roots :: r.cause == None;
    assert Causes(m, s) && Births(m, s);
    AgreesInit(m, s, order);
    hide Core, ModelOk, Causes, Births, Enumerates, NeverTies, Agrees, Runs, Le;
    picks, z := ReachGvt(m, s, SeqInit(m, order), (set e | e in s.place && Past(s, e)), order, {}, _ => 0);
  }

  lemma {:induction false} Least(pq: seq<Msg>) returns (i: int)
    requires pq != []
    ensures IsLeast(pq, i)
  {
    LeIsTotalOrder(); hide Le;
    if |pq| == 1 {
      i := 0;
    } else {
      i := Least(pq[..|pq| - 1]);
      if !Le(pq[i].sig, pq[|pq| - 1].sig) {
        i := |pq| - 1;
      }
    }
  }

  /** What a KP has committed is an initial part of what the sequential scheduler gives it, and once it has collected
      its fossils, the whole of it. */
  lemma {:induction false} HistoryIsSequential(m: Model, run: seq<Action>, s: Sys, order: seq<Ev>, picks: seq<int>,
      z: SeqState, k: int)
    requires ModelOk(m) && Runs(m, InitSys(m), run, s)
    requires Enumerates(m, order) && NeverTies(m, SeqInit(m, order))
    requires SeqRuns(m, SeqInit(m, order), picks, z) && StopsAt(z, s.gvt)
    ensures Contents(s.hist(k)) <= OfKp(m, z.trace, k)
    ensures Contents(DoFossil(s, k).hist(k)) == OfKp(m, z.trace, k)
  {
    CommittedIsSequential(m, run, s, order, picks, z);
    hide ModelOk, Runs, Enumerates, NeverTies, SeqRuns, OfKp;
  }

  /** Once everything a KP has processed is earlier than GVT and no rollback is under way, its LPs are in the
      states the sequential run leaves them in. */
  lemma {:induction false} FinalStateIsSequential(m: Model, run: seq<Action>, s: Sys, order: seq<Ev>, picks: seq<int>,
      z: SeqState, l: int)
    requires ModelOk(m) && Runs(m, InitSys(m), run, s)
    requires Enumerates(m, order) && NeverTies(m, SeqInit(m, order))
    requires SeqRuns(m, SeqInit(m, order), picks, z) && StopsAt(z, s.gvt)
    requires CountBelow(s.stack(m.kpOf(l)), s.gvt) == |s.stack(m.kpOf(l))| && Idle(s, m.peOf(m.kpOf(l)))
    ensures s.lp(l) == z.lp(l)
  {
    CommittedIsSequential(m, run, s, order, picks, z);
    InitIsCore(m);
    RunKeepsCore(m, InitSys(m), run, s);
    assert LpAgrees(m, s, l);
    hide ModelOk, Runs, Enumerates, NeverTies, SeqRuns, OfKp, Core, Replay;
    var k := m.kpOf(l);
    assert s.stack(k)[..|s.stack(k)|] == s.stack(k);
  }
}
