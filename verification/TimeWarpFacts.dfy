/** What an action may rely on about the events it touches, drawn once from the invariants. */
module TimeWarpFacts {
  import opened EventSignature
  import opened LpModel
  import opened TimeWarp
  import opened TimeWarpInvariants

  /** What the oldest message of a channel is to its destination. */
  ghost predicate Arrives(m: Model, s: Sys, q: int, p: int)
    requires s.chan(q, p) != []
  {
    var e := s.chan(q, p)[0].ev;
    && e in s.born && e.pe == q && PeOf(m, e) == p && Remote(m, e) && Le(s.gvt, e.msg.sig)
    && if s.chan(q, p)[0].anti then e in s.place && e !in s.marked && s.place[e] != Committed && e in s.index
       else e !in s.place && e !in s.done && e !in s.marked && e !in s.index
  }

  lemma ArrivalFacts(m: Model, s: Sys, q: int, p: int)
    requires s.chan(q, p) != [] && Births(m, s) && Routes(m, s) && Arriving(m, s) && Stages(m, s) && Antis(m, s)
    requires Lookup(m, s) && Bounds(m, s) && Dones(s) && Owners(m, s) && Marks(s)
    ensures Arrives(m, s, q, p)
  {
    hide Le;
    var pk := s.chan(q, p)[0];
    assert pk.anti ==> s.chan(q, p)[..0] == [];
    assert InChan(m, s.chan, pk.ev, pk.anti);
  }

  /** What the newest event of a stack is. */
  ghost predicate OnTop(m: Model, s: Sys, k: int)
    requires s.stack(k) != []
  {
    var e := Top(s, k);
    && e in s.place && s.place[e] == Processed && KpOf(m, e) == k
    && (forall i | 0 <= i < |s.stack(k)| - 1 :: s.stack(k)[i] != e)
  }

  lemma TopFacts(m: Model, s: Sys, k: int)
    requires s.stack(k) != [] && Stacks(m, s)
    ensures OnTop(m, s, k)
  {
  }

  /** What the event being rolled back is. */
  ghost predicate Undone(m: Model, s: Sys, p: int) {
    && s.undo(p).Some?
    && var e := s.undo(p).value;
       e in s.place && s.place[e] == Undoing && PeOf(m, e) == p && e in s.done
  }

  lemma UndoFacts(m: Model, s: Sys, p: int)
    requires s.undo(p).Some? && Dones(s) && Owners(m, s) && Marks(s)
    ensures Undone(m, s, p)
  {
  }

  /** The oldest n events of a stack are those below GVT; they are processed events of that KP, and none of them
      is cancelled. */
  ghost predicate Splits(m: Model, s: Sys, k: int, n: int) {
    && 0 <= n <= |s.stack(k)|
    && (forall i | 0 <= i < |s.stack(k)| :: i < n <==> !Le(s.gvt, s.stack(k)[i].msg.sig))
    && (forall i | 0 <= i < |s.stack(k)| ::
          var e := s.stack(k)[i]; e in s.place && s.place[e] == Processed && KpOf(m, e) == k)
    && (forall i, j | 0 <= i < j < |s.stack(k)| :: s.stack(k)[i] != s.stack(k)[j])
    && (forall i | 0 <= i < n :: s.stack(k)[i] !in s.marked)
  }

  lemma {:induction false} CountBelowSplits(st: seq<Ev>, g: Sig, i: int)
    requires forall i, j | 0 <= i < j < |st| :: Le(st[i].msg.sig, st[j].msg.sig)
    requires 0 <= i < |st|
    ensures i < CountBelow(st, g) <==> !Le(g, st[i].msg.sig)
  {
    LeIsTotalOrder(); hide Le;
    if i > 0 {
      assert Le(st[0].msg.sig, st[i].msg.sig);
      CountBelowSplits(st[1..], g, i - 1);
    }
  }

  lemma {:induction false} FossilFacts(m: Model, s: Sys, k: int)
    requires Stacks(m, s) && Sorted(s) && Bounds(m, s)
    ensures Splits(m, s, k, CountBelow(s.stack(k), s.gvt))
  {
    forall i | 0 <= i < |s.stack(k)|
      ensures i < CountBelow(s.stack(k), s.gvt) <==> !Le(s.gvt, s.stack(k)[i].msg.sig)
    {
      CountBelowSplits(s.stack(k), s.gvt, i);
    }
  }

  /** What an event waiting to be sent is. */
  ghost predicate Leaves(m: Model, s: Sys, e: Ev)
    requires CanPost(s, e)
  {
    && e in s.born && Remote(m, e) && Le(s.gvt, e.msg.sig)
    && 0 <= e.pe < m.numPes && 0 <= PeOf(m, e) < m.numPes
    && e !in s.marked && !InChan(m, s.chan, e, true)
    && if s.wire[e].OutqAnti? then (if e in s.place then s.place[e] != Committed else InChan(m, s.chan, e, false))
       else e !in s.place && !InChan(m, s.chan, e, false)
  }

  lemma PostFacts(m: Model, s: Sys, e: Ev)
    requires ModelOk(m) && CanPost(s, e) && Births(m, s) && Routes(m, s) && Arriving(m, s) && Stages(m, s)
    requires Bounds(m, s) && Owners(m, s) && Marks(s)
    ensures Leaves(m, s, e)
  {
    hide Le;
    assert 0 <= m.peOf(KpOf(m, e)) < m.numPes;
  }

  lemma PostInChan(m: Model, s: Sys, e: Ev)
    requires CanPost(s, e)
    ensures forall x, anti {:trigger InChan(m, DoPost(m, s, e).chan, x, anti)} ::
              InChan(m, DoPost(m, s, e).chan, x, anti) <==>
              InChan(m, s.chan, x, anti) || (x == e && anti == s.wire[e].OutqAnti?)
  {
  }

  lemma ReceiveInChan(m: Model, s: Sys, q: int, p: int)
    requires s.chan(q, p) != [] && Routes(m, s)
    ensures forall x, anti {:trigger InChan(m, DoReceive(m, s, q, p).chan, x, anti)} ::
              InChan(m, DoReceive(m, s, q, p).chan, x, anti) <==>
              InChan(m, s.chan, x, anti) && Packet(x, anti) != s.chan(q, p)[0]
  {
    hide Le, NothingMarked;
    var pk, rest := s.chan(q, p)[0], s.chan(q, p)[1..];
    assert s.chan(q, p) == [pk] + rest;
    assert pk !in rest;
  }

  /** What the event about to be annulled is. */
  ghost predicate Annuls(m: Model, s: Sys, p: int)
    requires CanCancelKid(s, p)
  {
    var e, c := s.undo(p).value, LastKid(s, p);
    && Undone(m, s, p)
    && c in s.born && c.pe == p && c.cause == Some(e) && c != e && c !in m.roots
    && Le(s.gvt, c.msg.sig) && Le(s.gvt, e.msg.sig)
    && CancelHasCase(m, s, c)
    && c !in s.marked && !InChan(m, s.chan, c, true)
    && (c in s.wire ==> PeOf(m, c) != p && (s.wire[c].Outq? ==> c !in s.place && !InChan(m, s.chan, c, false)))
    && (c !in s.wire ==> PeOf(m, c) == p && !InChan(m, s.chan, c, false))
  }

  lemma AnnulFacts(m: Model, s: Sys, p: int)
    requires CanCancelKid(s, p)
    requires Births(m, s) && Dones(s) && Owners(m, s) && Marks(s) && Bounds(m, s) && Routes(m, s)
    requires Arriving(m, s) && Stages(m, s) && KidsLive(m, s)
    ensures Annuls(m, s, p)
  {
    LeIsTotalOrder(); hide Le;
    var e, c := s.undo(p).value, LastKid(s, p);
    assert Undone(m, s, p) && Le(s.gvt, e.msg.sig);
    KidIsBorn(m, s, e, c);
    assert c != e && Le(s.gvt, c.msg.sig);
    if Remote(m, c) {
      RemoteKid(m, s, e, c);
    } else {
      LocalKid(m, s, e, c);
    }
  }

  lemma KidIsBorn(m: Model, s: Sys, e: Ev, c: Ev)
    requires e in s.done && c in s.done[e].kids && Births(m, s) && KidsLive(m, s)
    ensures c in s.born && c.cause == Some(e) && WellCaused(m, c) && Live(m, s, c)
  {
    hide Le;
    assert Live(m, s, c);
  }

  lemma RemoteKid(m: Model, s: Sys, e: Ev, c: Ev)
    requires e in s.done && c in s.done[e].kids && KidsLive(m, s) && Arriving(m, s) && Stages(m, s) && Remote(m, c)
    requires e in s.place && s.place[e] != Committed && Live(m, s, c)
    ensures CancelHasCase(m, s, c)
    ensures s.wire[c].Outq? ==> c !in s.place && !InChan(m, s.chan, c, false)
  {
  }

  lemma LocalKid(m: Model, s: Sys, e: Ev, c: Ev)
    requires Undone(m, s, PeOf(m, e)) && s.undo(PeOf(m, e)) == Some(e)
    requires Owners(m, s) && Marks(s) && Routes(m, s) && Bounds(m, s) && Live(m, s, c)
    requires !Remote(m, c) && c != e && c.pe == PeOf(m, e) && Le(s.gvt, c.msg.sig)
    ensures CancelHasCase(m, s, c) && !InChan(m, s.chan, c, false)
  { hide Le; }

  /** Nothing in the system mentions c, and it is later than its cause e. */
  ghost predicate IsNew(m: Model, s: Sys, e: Ev, c: Ev) {
    && c !in s.born && c !in s.place && c !in s.wire && c !in s.marked && c !in s.index && c !in s.done
    && !InChan(m, s.chan, c, false) && !InChan(m, s.chan, c, true)
    && c.cause == Some(e) && c.pe == PeOf(m, e) && c != e
    && !Le(c.msg.sig, e.msg.sig) && Le(c.msg.sig, MAX_SIG) && PrioOk(c.msg.sig)
  }

  /** What the event taken from the priority queue is. */
  ghost predicate Next(m: Model, s: Sys, e: Ev) {
    && e in s.born && e !in s.done && Le(s.gvt, e.msg.sig) && PrioOk(e.msg.sig) && 0 <= PeOf(m, e) < m.numPes
    && (forall x <- s.place | s.place[x] == Undoing :: PeOf(m, x) != PeOf(m, e))
    && (forall i | 0 <= i < |s.hist(KpOf(m, e))| :: Le(s.hist(KpOf(m, e))[i].msg.sig, e.msg.sig))
  }

  lemma NextFacts(m: Model, s: Sys, e: Ev)
    requires ModelOk(m) && CanProcess(m, s, e) && Births(m, s) && Dones(s) && Owners(m, s) && Marks(s) && Bounds(m, s)
    requires Histories(m, s)
    ensures Next(m, s, e)
  {
    LeIsTotalOrder(); hide Le;
    assert 0 <= m.peOf(KpOf(m, e)) < m.numPes;
  }

  /** kids are the new events the handler of e sends, numbered in order. */
  ghost predicate NewKids(m: Model, s: Sys, e: Ev, kids: seq<Ev>) {
    && e in s.place && s.place[e] == Processed && e in s.done && s.done[e].kids == []
    && Le(s.gvt, e.msg.sig) && 0 <= PeOf(m, e) < m.numPes && s.phase(PeOf(m, e)) == Running
    && (forall c <- kids :: IsNew(m, s, e, c))
    && Numbered(kids, s.num(PeOf(m, e)))
  }

  /** Events numbered in order from num + 1. */
  ghost predicate Numbered(kids: seq<Ev>, num: int) {
    && (forall c <- kids :: num < c.num <= num + |kids|)
    && (forall c, d | c in kids && d in kids && c.num == d.num :: c == d)
    && (forall i, j | 0 <= i < j < |kids| :: kids[i] != kids[j])
  }

  lemma KidsFacts(m: Model, s: Sys, e: Ev)
    requires ModelOk(m) && CanProcess(m, s, e) && Next(m, s, e)
    requires Ids(m, s) && Births(m, s) && Dones(s) && Owners(m, s) && Marks(s) && Lookup(m, s)
    ensures var r := Exec(m, s.lp(e.msg.dest), e.msg);
            NewKids(m, Push(m, s, e, r), e, Kids(PeOf(m, e), s.num(PeOf(m, e)), e, r.outs))
  {
    var r := Exec(m, s.lp(e.msg.dest), e.msg);
    forall i | 0 <= i < |r.outs|
      ensures !Le(r.outs[i].sig, e.msg.sig) && Le(r.outs[i].sig, MAX_SIG) && PrioOk(r.outs[i].sig)
    {
      ChildrenAreLater(m, s.lp(e.msg.dest), e.msg, i);
    }
    NumbersAreNew(m, s, e, r);
    hide *;
  }

  lemma NumbersAreNew(m: Model, s: Sys, e: Ev, r: Result)
    requires CanProcess(m, s, e) && Next(m, s, e)
    requires Ids(m, s) && Births(m, s) && Dones(s) && Owners(m, s) && Marks(s) && Lookup(m, s)
    requires forall i | 0 <= i < |r.outs| ::
               !Le(r.outs[i].sig, e.msg.sig) && Le(r.outs[i].sig, MAX_SIG) && PrioOk(r.outs[i].sig)
    ensures NewKids(m, Push(m, s, e, r), e, Kids(PeOf(m, e), s.num(PeOf(m, e)), e, r.outs))
  {
    hide Le, Ids, Births, Dones, Owners, Marks, Lookup, IsNew;
    var kids := Kids(PeOf(m, e), s.num(PeOf(m, e)), e, r.outs);
    forall c <- kids ensures IsNew(m, Push(m, s, e, r), e, c) {
      NumberIsNew(m, s, e, r, c);
    }
    assert Numbered(kids, s.num(PeOf(m, e)));
  }

  lemma NumberIsNew(m: Model, s: Sys, e: Ev, r: Result, c: Ev)
    requires Ids(m, s) && Births(m, s) && Dones(s) && Owners(m, s) && Marks(s) && Lookup(m, s) && e in s.born
    requires c.num > s.num(c.pe) && c.pe == PeOf(m, e) && c.cause == Some(e)
    requires !Le(c.msg.sig, e.msg.sig) && Le(c.msg.sig, MAX_SIG) && PrioOk(c.msg.sig)
    ensures IsNew(m, Push(m, s, e, r), e, c)
  {
    LeIsTotalOrder(); hide Le;
  }

  /** Recording a transient message keeps trans below what it was below, and below that message. */
  lemma TrackIsLower(s: Sys, p: int, sig: Sig)
    ensures forall x, y {:trigger Le(s.trans(x), y)} :: Le(s.trans(x), y) ==> Le(Track(s, p, sig)(x), y)
    ensures s.phase(p) != Running ==> Le(Track(s, p, sig)(p), sig)
    ensures forall x, g {:trigger Le(g, s.trans(x))} :: Le(g, s.trans(x)) && Le(g, sig) ==> Le(g, Track(s, p, sig)(x))
  {
    LeIsTotalOrder(); hide Le;
  }

  /** Collecting the n oldest events of a stack commits exactly those. */
  lemma CollectPlaces(m: Model, s: Sys, k: int, n: int)
    requires Splits(m, s, k, n)
    ensures var s', st := Collect(s, k, n), s.stack(k);
      && s'.stack == Upd(s.stack, k, st[n..]) && s'.hist == Upd(s.hist, k, s.hist(k) + st[..n])
      && s'.place.Keys == s.place.Keys
      && (forall i | 0 <= i < |st| :: i < n <==> s'.place[st[i]] == Committed)
      && (forall e <- s.place | s.place[e] != s'.place[e] ::
            e in st[..n] && s.place[e] == Processed && s'.place[e] == Committed && KpOf(m, e) == k)
  {
    hide Le;
    var s', st := Collect(s, k, n), s.stack(k);
    forall i | n <= i < |st| ensures st[i] !in st[..n] {
    }
    forall i | 0 <= i < n ensures st[i] in st[..n] {
      assert st[..n][i] == st[i];
    }
  }

  lemma StaysStacked(m: Model, s: Sys, k: int, n: int, e: Ev)
    requires Splits(m, s, k, n) && e in s.place && Collect(s, k, n).place[e] == Processed
    requires s.place[e] == Processed ==> e in s.stack(KpOf(m, e))
    ensures e in Collect(s, k, n).stack(KpOf(m, e))
  {
    hide Le;
    CollectPlaces(m, s, k, n);
    hide Collect;
    var st := s.stack(k);
    if KpOf(m, e) == k {
      var i :| 0 <= i < |st| && st[i] == e;
      assert st[n..][i - n] == e;
    }
  }

  lemma EntersHistory(m: Model, s: Sys, k: int, n: int, e: Ev)
    requires Splits(m, s, k, n) && e in s.place && Collect(s, k, n).place[e] == Committed
    requires s.place[e] == Committed ==> e in s.hist(KpOf(m, e))
    ensures e in Collect(s, k, n).hist(KpOf(m, e))
  {
    hide Le;
    CollectPlaces(m, s, k, n);
    hide Collect;
  }

  lemma HistoryStaysDistinct(m: Model, s: Sys, k: int, n: int)
    requires Splits(m, s, k, n) && Histories(m, s)
    ensures var h := s.hist(k) + s.stack(k)[..n]; forall i, j | 0 <= i < j < |h| :: h[i] != h[j]
  { hide Le; }
}
