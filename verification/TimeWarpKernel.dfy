/** The loops of the kernel as they run on one PE. Every method is a run of the step system, so everything proved of
    runs holds of it; its contract adds what the loop achieves. Other PEs stand still during a call, apart from what
    the network layer delivers whenever it is serviced. */
module TimeWarpKernel {
  import opened EventSignature
  import opened LpModel
  import opened TimeWarp
  import opened TimeWarpInvariants
  import opened TimeWarpFacts
  import opened TimeWarpEffects
  import opened TimeWarpSafety

  lemma {:induction false} RunsAppend(m: Model, s: Sys, a: seq<Action>, s1: Sys, b: seq<Action>, s2: Sys)
    requires Runs(m, s, a, s1) && Runs(m, s1, b, s2)
    ensures Runs(m, s, a + b, s2)
    decreases |a|
  {
    hide Enabled, Apply;
    if a == [] {
      assert a + b == b;
    } else {
      RunsAppend(m, Apply(m, s, a[0]), a[1..], s1, b, s2);
      assert (a + b)[1..] == a[1..] + b;
    }
  }

  lemma ReachesRefl(m: Model, s: Sys)
    ensures Reaches(m, s, s)
  {
    hide Enabled, Apply;
    assert Runs(m, s, [], s);
  }

  lemma ReachesTrans(m: Model, s: Sys, s1: Sys, s2: Sys)
    requires Reaches(m, s, s1) && Reaches(m, s1, s2)
    ensures Reaches(m, s, s2)
  {
    hide Enabled, Apply;
    var a :| Runs(m, s, a, s1);
    var b :| Runs(m, s1, b, s2);
    RunsAppend(m, s, a, s1, b, s2);
  }

  lemma StepReaches(m: Model, s: Sys, a: Action)
    requires Enabled(m, s, a)
    ensures Reaches(m, s, Apply(m, s, a))
  {
    hide Enabled, Apply;
    assert [a][1..] == [];
    assert Runs(m, Apply(m, s, a), [], Apply(m, s, a));
    assert Runs(m, s, [a], Apply(m, s, a));
  }

  /** The network layer of PE p takes this action: it receives, or starts or completes one of its sends. */
  predicate NetOf(p: int, a: Action) {
    match a
    case Receive(_, p') => p' == p
    case Post(e) => e.pe == p
    case FinishSend(e) => e.pe == p
    case _ => false
  }

  /** Messages under way to PE p from the first n PEs. */
  function Inbox(s: Sys, p: int, n: nat): nat {
    if n == 0 then 0 else Inbox(s, p, n - 1) + |s.chan(n - 1, p)|
  }

  /** The events in PE p's event_q. */
  function EventQAt(m: Model, s: Sys, p: int): set<Ev> {
    set e | e in s.place && s.place[e] == EventQ && PeOf(m, e) == p
  }

  /** Messages that have reached, or are about to reach, PE p's event_q. */
  function Work(m: Model, s: Sys, p: int): nat {
    Inbox(s, p, m.numPes) + |EventQAt(m, s, p)|
  }

  lemma {:induction false} InboxUpd(s: Sys, s': Sys, q: int, p: int, v: seq<Packet>, p': int, n: nat)
    requires s'.chan == Upd2(s.chan, q, p, v)
    ensures Inbox(s', p', n) == Inbox(s, p', n) + if p' == p && 0 <= q < n then |v| - |s.chan(q, p)| else 0
  {
    if n > 0 {
      InboxUpd(s, s', q, p, v, p', n - 1);
    }
  }

  lemma {:induction false} InboxSame(s: Sys, s': Sys, p: int, n: nat)
    requires s'.chan == s.chan
    ensures Inbox(s', p, n) == Inbox(s, p, n)
  {
    if n > 0 {
      InboxSame(s, s', p, n - 1);
    }
  }

  lemma SmallerSet(a: set<Ev>, b: set<Ev>)
    requires a <= b
    ensures |a| <= |b|
  {
    assert b == a + (b - a);
  }

  /** Servicing the network never increases the work that reaches event_q. */
  lemma {:induction false} NetKeepsWork(m: Model, s: Sys, p: int, a: Action)
    requires Core(m, s) && Enabled(m, s, a) && NetOf(p, a)
    ensures Work(m, Apply(m, s, a), p) <= Work(m, s, p)
  {
    hide Le, Ids, Births, Stacks, Histories, Dones, Owners, Marks, Sorted, Ahead,
      Bounds, Phases, Routes, Arriving, Stages, Antis, Lookup, KidsLive, Causes, LpsAgree, LinesRecorded;
    hide CanProcess, CanBeginUndo, CanTakeEvent, CanTakeCancelled, CanGvtRound, NothingMarked, Track;
    var s' := Apply(m, s, a);
    match a
    case Receive(q, _) =>
      InboxUpd(s, s', q, p, s.chan(q, p)[1..], p, m.numPes);
      SmallerSet(EventQAt(m, s', p), EventQAt(m, s, p) + {s.chan(q, p)[0].ev});
      assert 0 <= q < m.numPes;
      hide Core, Inbox;
    case Post(e) =>
      PostFacts(m, s, e);
      hide Core;
      InboxUpd(s, s', p, PeOf(m, e), s.chan(p, PeOf(m, e)) + [Packet(e, s.wire[e].OutqAnti?)], p, m.numPes);
      assert EventQAt(m, s', p) == EventQAt(m, s, p);
      hide Inbox;
    case FinishSend(e) =>
      InboxSame(s, s', p, m.numPes);
      assert EventQAt(m, s', p) == EventQAt(m, s, p);
      hide Core, Inbox;
  }

  /** So does rolling back. */
  lemma {:induction false} LocalKeepsWork(m: Model, s: Sys, s': Sys, p: int)
    requires s'.chan == s.chan && forall e <- s'.place | s'.place[e] == EventQ :: e in s.place && s.place[e] == EventQ
    ensures Work(m, s', p) <= Work(m, s, p)
  {
    InboxSame(s, s', p, m.numPes);
    SmallerSet(EventQAt(m, s', p), EventQAt(m, s, p));
  }

  /** x waited in the priority queue and was annulled because e, which caused it, is being undone. */
  ghost predicate Annulled(m: Model, s: Sys, s': Sys, e: Ev, x: Ev)
    requires x in s.place
  {
    s.place[x] == Pq && x.cause == Some(e) && x in s'.born && !Present(m, s', x)
  }

  /** The cancellation of x has reached its destination or is under way to it. */
  ghost predicate CancelSent(m: Model, s: Sys, x: Ev) {
    x in s.marked || InChan(m, s.chan, x, true)
  }

  /** From s to s' no event of PE p was newly cancelled but those e caused. */
  ghost predicate CancelsOnly(m: Model, s: Sys, s': Sys, p: int, e: Ev) {
    forall x | PeOf(m, x) == p && CancelSent(m, s', x) :: CancelSent(m, s, x) || x.cause == Some(e)
  }

  /** What is nowhere stays so. */
  ghost predicate StaysGone(m: Model, s: Sys, s': Sys) {
    s.born <= s'.born && forall x <- s.born | !Present(m, s, x) :: !Present(m, s', x)
  }

  /** Only e's record of its processing may have changed. */
  ghost predicate SameDone(s: Sys, s': Sys, e: Ev) {
    forall x | x != e :: (x in s'.done <==> x in s.done) && (x in s.done ==> s'.done[x] == s.done[x])
  }

  /** From s to s' only the network was serviced and events caused by e were annulled. */
  ghost predicate Quiet(m: Model, s: Sys, s': Sys, e: Ev) {
    && s'.gvt == s.gvt && s'.stack == s.stack && s'.hist == s.hist && s'.phase == s.phase && s'.undo == s.undo
    && s'.last == s.last
    && SameDone(s, s', e)
    && (forall x <- s.place :: (x in s'.place && s'.place[x] == s.place[x]) || Annulled(m, s, s', e, x))
    && StaysGone(m, s, s') && CancelsOnly(m, s, s', PeOf(m, e), e)
    && s.marked <= s'.marked
    && (forall l :: l != e.msg.dest ==> s'.lp(l) == s.lp(l))
    && Work(m, s', PeOf(m, e)) <= Work(m, s, PeOf(m, e))
  }

  lemma QuietTrans(m: Model, s: Sys, s1: Sys, s2: Sys, e: Ev)
    requires Quiet(m, s, s1, e) && Quiet(m, s1, s2, e)
    ensures Quiet(m, s, s2, e)
  {
  }

  lemma NetCancelsOnly(m: Model, s: Sys, p: int, a: Action, e: Ev)
    requires Core(m, s) && Enabled(m, s, a) && NetOf(p, a)
    ensures CancelsOnly(m, s, Apply(m, s, a), p, e)
  {
    hide Le, Ids, Births, Stacks, Histories, Dones, Owners, Marks, Sorted, Ahead,
      Bounds, Phases, Routes, Arriving, Stages, Antis, Lookup, KidsLive, Causes, Flights, LpsAgree, LinesRecorded;
    match a
    case Receive(q, _) =>
      ReceiveInChan(m, s, q, p);
      ArrivalFacts(m, s, q, p);
      hide Core;
    case Post(x) =>
      PostInChan(m, s, x);
      PostFacts(m, s, x);
      hide Core;
    case FinishSend(_) => hide Core;
  }

  lemma NetStaysGone(m: Model, s: Sys, p: int, a: Action)
    requires Core(m, s) && Enabled(m, s, a) && NetOf(p, a)
    ensures StaysGone(m, s, Apply(m, s, a))
  {
    hide Le, Ids, Births, Stacks, Histories, Dones, Owners, Marks, Sorted, Ahead,
      Bounds, Phases, Routes, Arriving, Stages, Antis, Lookup, KidsLive, Causes, Flights, LpsAgree, LinesRecorded;
    match a
    case Receive(q, _) =>
      ReceiveInChan(m, s, q, p);
      ArrivalFacts(m, s, q, p);
      hide Core, InChan;
    case Post(x) =>
      PostInChan(m, s, x);
      PostFacts(m, s, x);
      hide Core, InChan;
    case FinishSend(_) => hide Core;
  }

  lemma NetIsQuiet(m: Model, s: Sys, p: int, a: Action, e: Ev)
    requires Core(m, s) && Enabled(m, s, a) && NetOf(p, a) && p == PeOf(m, e)
    ensures Quiet(m, s, Apply(m, s, a), e) && Apply(m, s, a).done == s.done
  {
    hide Le, ModelOk, Ids, Births, Stacks, Histories, Dones, Owners, Marks, Sorted, Ahead,
      Bounds, Phases, Routes, Arriving, Stages, Antis, Lookup, KidsLive, Causes, Flights, LpsAgree, LinesRecorded;
    NetKeepsWork(m, s, p, a);
    NetCancelsOnly(m, s, p, a, e);
    NetStaysGone(m, s, p, a);
    hide Work, CancelsOnly, StaysGone, Annulled, Inbox, EventQAt, InChan;
    if a.Receive? {
      ArrivalFacts(m, s, a.q, a.p);
    }
    hide Core, NothingMarked, Track, CanProcess, CanBeginUndo, CanTakeEvent, CanTakeCancelled, CanGvtRound;
  }

  lemma CancelIsQuiet(m: Model, s: Sys, p: int)
    requires Core(m, s) && CanCancelKid(s, p)
    ensures Quiet(m, s, DoCancelKid(m, s, p), s.undo(p).value)
  {
    hide Le, ModelOk, Ids, Births, Stacks, Histories, Dones, Owners, Marks, Sorted, Ahead,
      Bounds, Phases, Routes, Arriving, Stages, Antis, Lookup, KidsLive, Causes, Flights, LpsAgree, LinesRecorded;
    AnnulFacts(m, s, p);
    LocalKeepsWork(m, s, DoCancelKid(m, s, p), p);
    hide Core, Track, Work;
  }

  /** What undoing the newest event e of KP k does to queues and owners. */
  ghost predicate Requeued(m: Model, s: Sys, s': Sys, e: Ev, drop: bool) {
    && (if drop then e !in s'.marked && e in s.born && !Present(m, s', e) else e in s'.place && s'.place[e] == Pq)
    && (forall x <- s.place | x != e :: (x in s'.place && s'.place[x] == s.place[x]) || Annulled(m, s, s', e, x))
    && (forall x <- s.marked | x != e || !drop :: x in s'.marked)
    && StaysGone(m, s, s') && CancelsOnly(m, s, s', PeOf(m, e), e)
  }

  /** The newest events of KP k were shifted off its stack. */
  ghost predicate Shifted(s: Sys, s': Sys, k: int, undone: seq<Ev>) {
    s.stack(k) == s'.stack(k) + undone && forall k' :: k' != k ==> s'.stack(k') == s.stack(k')
  }

  lemma ShiftedOneMore(s: Sys, s1: Sys, s2: Sys, k: int, undone: seq<Ev>, e: Ev)
    requires Shifted(s, s1, k, undone) && Shifted(s1, s2, k, [e])
    ensures Shifted(s, s2, k, [e] + undone)
  {
    assert s.stack(k) == s2.stack(k) + ([e] + undone);
  }

  /** What undoing the newest event e of KP k amounts to. */
  ghost predicate Undid(m: Model, s: Sys, s': Sys, k: int, e: Ev, drop: bool) {
    && KpOf(m, e) == k && e in s.place && s.place[e] == Processed && Shifted(s, s', k, [e])
    && s'.gvt == s.gvt && s'.hist == s.hist && s'.phase == s.phase
    && (forall p :: s'.undo(p) == s.undo(p))
    && Requeued(m, s, s', e, drop)
    && e !in s'.done && e in s.done && SameDone(s, s', e)
    && (forall l :: l != e.msg.dest ==> s'.lp(l) == s.lp(l))
    && Work(m, s', m.peOf(k)) <= Work(m, s, m.peOf(k))
  }

  lemma UndoStaysGone(m: Model, s: Sys, k: int, s1: Sys, p: int, drop: bool, reset: bool)
    requires CanBeginUndo(m, s, k) && OnTop(m, s, k) && StaysGone(m, DoBeginUndo(m, s, k), s1)
    requires CanEndUndo(s1, p, drop) && Undone(m, s1, p)
    ensures StaysGone(m, s, DoEndUndo(m, s1, p, drop, reset))
  {
    hide Le, InChan;
    var s0, s' := DoBeginUndo(m, s, k), DoEndUndo(m, s1, p, drop, reset);
    assert forall x :: !Present(m, s, x) ==> !Present(m, s0, x);
    assert forall x :: !Present(m, s1, x) ==> !Present(m, s', x);
    hide Present, CanBeginUndo, CanEndUndo, OnTop;
  }

  lemma UndoCancelsOnly(m: Model, s: Sys, k: int, s1: Sys, p: int, drop: bool, reset: bool, e: Ev)
    requires CanBeginUndo(m, s, k) && CanEndUndo(s1, p, drop) && CancelsOnly(m, DoBeginUndo(m, s, k), s1, p, e)
    ensures CancelsOnly(m, s, DoEndUndo(m, s1, p, drop, reset), p, e)
  {
    hide Le, InChan;
  }

  /** The cancelled event, once freed, is nowhere. */
  lemma DroppedIsGone(m: Model, s: Sys, p: int, reset: bool)
    requires CanEndUndo(s, p, true) && Undone(m, s, p) && Arriving(m, s) && Stages(m, s)
    ensures !Present(m, DoEndUndo(m, s, p, true, reset), s.undo(p).value)
  {
  }

  lemma UndoMoves(m: Model, s: Sys, k: int, s1: Sys, p: int, drop: bool, reset: bool)
    requires CanBeginUndo(m, s, k) && Quiet(m, DoBeginUndo(m, s, k), s1, Top(s, k))
    requires CanEndUndo(s1, p, drop) && s1.undo(p) == Some(Top(s, k)) && Top(s, k) in s.place
    ensures var e, s' := Top(s, k), DoEndUndo(m, s1, p, drop, reset);
            && (forall x <- s.place | x != e ::
                  (x in s'.place && s'.place[x] == s.place[x]) || Annulled(m, s, s', e, x))
            && (forall x <- s.marked | x != e || !drop :: x in s'.marked)
  {
    hide Le, Work, InChan, StaysGone, CancelsOnly;
    var e, s0, s' := Top(s, k), DoBeginUndo(m, s, k), DoEndUndo(m, s1, p, drop, reset);
    assert forall x :: !Present(m, s1, x) ==> !Present(m, s', x);
    hide Present;
    assert forall x <- s.place | x != e :: x in s0.place && s0.place[x] == s.place[x];
    assert forall x <- s1.place | x != e :: x in s'.place && s'.place[x] == s1.place[x];
    assert s'.born == s1.born && s0.marked == s.marked;
    assert !drop ==> s'.marked == s1.marked;
    hide DoBeginUndo, CanBeginUndo, CanEndUndo;
  }

  lemma UndoRequeues(m: Model, s: Sys, k: int, s1: Sys, p: int, drop: bool, reset: bool)
    requires CanBeginUndo(m, s, k) && OnTop(m, s, k) && p == m.peOf(k)
    requires Quiet(m, DoBeginUndo(m, s, k), s1, Top(s, k)) && Top(s, k) in s.born
    requires CanEndUndo(s1, p, drop) && s1.undo(p) == Some(Top(s, k))
    requires Arriving(m, s1) && Stages(m, s1) && Undone(m, s1, p)
    ensures Requeued(m, s, DoEndUndo(m, s1, p, drop, reset), Top(s, k), drop)
  {
    hide Le, Work, Arriving, Stages, InChan;
    var e, s' := Top(s, k), DoEndUndo(m, s1, p, drop, reset);
    UndoMoves(m, s, k, s1, p, drop, reset);
    UndoStaysGone(m, s, k, s1, p, drop, reset);
    UndoCancelsOnly(m, s, k, s1, p, drop, reset, e);
    if drop {
      DroppedIsGone(m, s1, p, reset);
    }
    hide Present, Undone, Annulled, StaysGone, CancelsOnly, Quiet, DoBeginUndo, CanBeginUndo;
  }

  lemma UndoKeepsWork(m: Model, s: Sys, k: int, s1: Sys, p: int, drop: bool, reset: bool)
    requires CanBeginUndo(m, s, k) && Quiet(m, DoBeginUndo(m, s, k), s1, Top(s, k)) && PeOf(m, Top(s, k)) == p
    requires CanEndUndo(s1, p, drop)
    ensures Work(m, DoEndUndo(m, s1, p, drop, reset), p) <= Work(m, s, p)
  {
    hide Le, Present, InChan, StaysGone, CancelsOnly, Annulled;
    LocalKeepsWork(m, s, DoBeginUndo(m, s, k), p);
    LocalKeepsWork(m, s1, DoEndUndo(m, s1, p, drop, reset), p);
    hide Work;
  }

  lemma UndoShifts(m: Model, s: Sys, k: int, s1: Sys, p: int, drop: bool, reset: bool)
    requires CanBeginUndo(m, s, k) && OnTop(m, s, k) && p == m.peOf(k)
    requires Quiet(m, DoBeginUndo(m, s, k), s1, Top(s, k))
    requires CanEndUndo(s1, p, drop) && s1.undo(p) == Some(Top(s, k))
    ensures var e, s' := Top(s, k), DoEndUndo(m, s1, p, drop, reset);
      && KpOf(m, e) == k && e in s.place && s.place[e] == Processed && Shifted(s, s', k, [e])
      && s'.gvt == s.gvt && s'.hist == s.hist && s'.phase == s.phase && (forall q :: s'.undo(q) == s.undo(q))
      && e !in s'.done && e in s.done && SameDone(s, s', e) && forall l :: l != e.msg.dest ==> s'.lp(l) == s.lp(l)
  {
    hide Le, Present, InChan, StaysGone, CancelsOnly, Annulled, Work, Rewind;
  }

  /** Shift and reverse the newest event, annul what it caused with the network serviced in between, put it back. */
  lemma UndoComposes(m: Model, s: Sys, k: int, s1: Sys, p: int, drop: bool, reset: bool)
    requires CanBeginUndo(m, s, k) && OnTop(m, s, k) && p == m.peOf(k)
    requires Quiet(m, DoBeginUndo(m, s, k), s1, Top(s, k)) && Top(s, k) in s.born
    requires CanEndUndo(s1, p, drop) && s1.undo(p) == Some(Top(s, k))
    requires Arriving(m, s1) && Stages(m, s1) && Undone(m, s1, p)
    ensures Undid(m, s, DoEndUndo(m, s1, p, drop, reset), k, Top(s, k), drop)
  {
    hide Le, Present, Arriving, Stages, InChan, Quiet, DoBeginUndo, DoEndUndo, Undone, CanEndUndo, Requeued, SameDone,
      Shifted, Work;
    UndoRequeues(m, s, k, s1, p, drop, reset);
    UndoShifts(m, s, k, s1, p, drop, reset);
    UndoKeepsWork(m, s, k, s1, p, drop, reset);
  }

  // ---------- what becomes of the children on the same PE ----------

  /** A child c of the same PE was annulled between s and s': if it waited in the priority queue it is deleted at once,
      and otherwise it goes on cancel_q. */
  ghost predicate Annihilated(m: Model, s: Sys, s': Sys, c: Ev) {
    && c in s.place && c in s'.born
    && if s.place[c] == Pq then !Present(m, s', c) && c !in s'.marked else c in s'.marked
  }

  /** The children of e on its own PE, from number n on, have been annulled. */
  ghost predicate KidsDone(m: Model, s: Sys, s': Sys, e: Ev, n: nat) {
    && e in s.done && n <= |s.done[e].kids|
    && forall j | n <= j < |s.done[e].kids| && !Remote(m, s.done[e].kids[j]) ::
         Annihilated(m, s, s', s.done[e].kids[j])
  }

  lemma LocalKidIsHeld(m: Model, s: Sys, e: Ev, c: Ev)
    requires Core(m, s) && e in s.done && c in s.done[e].kids && !Remote(m, c)
    ensures c in s.place && c in s.born && Live(m, s, c) && c.cause == Some(e) && !Le(c.msg.sig, e.msg.sig)
  {
    hide ModelOk, Ids, Stacks, Histories, Dones, Owners, Marks, Sorted, Ahead, Bounds, Phases, Arriving, Stages, Antis,
      Lookup, Causes, Flights, LpsAgree, LinesRecorded, Le;
    KidIsBorn(m, s, e, c);
  }

  lemma AbsentIsUnmarked(m: Model, s: Sys, c: Ev)
    requires Core(m, s) && !Present(m, s, c)
    ensures c !in s.marked
  {
    hide ModelOk, Ids, Births, Stacks, Histories, Dones, Owners, Sorted, Ahead, Bounds, Phases, Routes, Arriving,
      Stages, Antis, Lookup, KidsLive, Causes, Flights, LpsAgree, LinesRecorded, Le, InChan;
  }

  lemma NoKidsDone(m: Model, s: Sys, e: Ev)
    requires e in s.done
    ensures s.done[e].kids == s.done[e].kids[..|s.done[e].kids|] && KidsDone(m, s, s, e, |s.done[e].kids|)
  {
  }

  lemma KidsStayDone(m: Model, s: Sys, s1: Sys, s2: Sys, e: Ev, n: nat)
    requires KidsDone(m, s, s1, e, n) && Quiet(m, s1, s2, e) && Core(m, s2)
    ensures KidsDone(m, s, s2, e, n)
  {
    assert StaysGone(m, s1, s2) && s1.marked <= s2.marked;
    hide Quiet, Core, Present;
    forall j | n <= j < |s.done[e].kids| && !Remote(m, s.done[e].kids[j])
      ensures Annihilated(m, s, s2, s.done[e].kids[j])
    {
      var c := s.done[e].kids[j];
      assert Annihilated(m, s, s1, c);
      if s.place[c] == Pq {
        AbsentIsUnmarked(m, s2, c);
      }
    }
  }

  /** Annulling the last child that is left. */
  lemma CancelAnnuls(m: Model, s: Sys, p: int)
    requires Core(m, s) && CanCancelKid(s, p) && !Remote(m, LastKid(s, p))
    ensures var s', c := DoCancelKid(m, s, p), LastKid(s, p);
      c in s.place && c in s'.born && if s.place[c] == Pq then !Present(m, s', c) else c in s'.marked
  {
    hide Le, ModelOk, Ids, Births, Stacks, Histories, Dones, Owners, Marks, Sorted, Ahead,
      Bounds, Phases, Routes, Arriving, Stages, Antis, Lookup, KidsLive, Causes, Flights, LpsAgree, LinesRecorded;
    AnnulFacts(m, s, p);
    hide Core;
  }

  /** A child that is still to be annulled is where it was when the rollback of its cause began. */
  lemma StillThere(m: Model, s: Sys, s1: Sys, e: Ev, c: Ev)
    requires Core(m, s) && Quiet(m, s, s1, e) && e in s.done && c in s.done[e].kids && !Remote(m, c) && c in s1.place
    ensures c in s.place && s1.place[c] == s.place[c]
  {
    LocalKidIsHeld(m, s, e, c);
    hide Core;
  }

  lemma LastKidDone(m: Model, s: Sys, s1: Sys, p: int, e: Ev)
    requires Core(m, s) && Core(m, s1) && Quiet(m, s, s1, e) && CanCancelKid(s1, p) && !Remote(m, LastKid(s1, p))
    requires e in s.done && LastKid(s1, p) in s.done[e].kids && Core(m, DoCancelKid(m, s1, p))
    ensures Annihilated(m, s, DoCancelKid(m, s1, p), LastKid(s1, p))
  {
    var s2, c := DoCancelKid(m, s1, p), LastKid(s1, p);
    CancelAnnuls(m, s1, p);
    hide Core, Quiet, Present, DoCancelKid;
    StillThere(m, s, s1, e, c);
    if s.place[c] == Pq {
      AbsentIsUnmarked(m, s2, c);
    }
  }

  /** What annulling the last child does to the list of those left. */
  lemma OneKidLess(m: Model, s: Sys, p: int, e: Ev, kids: seq<Ev>, n: nat)
    requires CanCancelKid(s, p) && s.undo(p) == Some(e) && n <= |kids| && s.done[e].kids == kids[..n]
    ensures n > 0 && LastKid(s, p) == kids[n - 1]
    ensures var s' := DoCancelKid(m, s, p); e in s'.done && s'.done[e].kids == kids[..n - 1]
  {
  }

  lemma ExtendDone(m: Model, s: Sys, s': Sys, e: Ev, n: nat)
    requires KidsDone(m, s, s', e, n) && n > 0
    requires !Remote(m, s.done[e].kids[n - 1]) ==> Annihilated(m, s, s', s.done[e].kids[n - 1])
    ensures KidsDone(m, s, s', e, n - 1)
  {
    hide Annihilated;
  }

  lemma OneMoreKid(m: Model, s: Sys, s1: Sys, p: int, e: Ev, n: nat, s2: Sys)
    requires Core(m, s) && Core(m, s1) && Quiet(m, s, s1, e) && KidsDone(m, s, s1, e, n)
    requires CanCancelKid(s1, p) && s1.undo(p) == Some(e) && s1.done[e].kids == s.done[e].kids[..n]
    requires s2 == DoCancelKid(m, s1, p) && Core(m, s2)
    ensures n > 0 && KidsDone(m, s, s2, e, n - 1)
  {
    OneKidLess(m, s1, p, e, s.done[e].kids, n);
    hide Core, Quiet, DoCancelKid, KidsDone, Annihilated, CanCancelKid;
    CancelIsQuiet(m, s1, p);
    KidsStayDone(m, s, s1, s2, e, n);
    if !Remote(m, LastKid(s1, p)) {
      LastKidDone(m, s, s1, p, e);
    }
    ExtendDone(m, s, s2, e, n);
  }

  lemma BeginLeaves(m: Model, s: Sys, k: int, c: Ev)
    requires CanBeginUndo(m, s, k) && c != Top(s, k)
    ensures var s' := DoBeginUndo(m, s, k); s'.done == s.done && c in s'.place <==> c in s.place
    ensures c in s.place ==> DoBeginUndo(m, s, k).place[c] == s.place[c]
  {
  }

  lemma EndLeaves(m: Model, s: Sys, p: int, drop: bool, reset: bool, c: Ev)
    requires CanEndUndo(s, p, drop) && Undone(m, s, p) && c != s.undo(p).value
    ensures var s' := DoEndUndo(m, s, p, drop, reset);
      s'.born == s.born && (Present(m, s', c) ==> Present(m, s, c)) && (c in s'.marked <==> c in s.marked)
  {
    hide InChan;
  }

  /** Taking the event off its stack, and putting it back or freeing it, does not concern its children. */
  lemma UndoAnnuls(m: Model, s: Sys, k: int, s1: Sys, p: int, drop: bool, reset: bool)
    requires Core(m, s) && CanBeginUndo(m, s, k) && KidsDone(m, DoBeginUndo(m, s, k), s1, Top(s, k), 0)
    requires CanEndUndo(s1, p, drop) && Undone(m, s1, p) && s1.undo(p) == Some(Top(s, k))
    ensures KidsDone(m, s, DoEndUndo(m, s1, p, drop, reset), Top(s, k), 0)
  {
    var e, s0, s2 := Top(s, k), DoBeginUndo(m, s, k), DoEndUndo(m, s1, p, drop, reset);
    assert s0.done == s.done && e in s.done;
    hide Core, DoBeginUndo, DoEndUndo, CanBeginUndo, CanEndUndo, Undone, Present;
    forall j | 0 <= j < |s.done[e].kids| && !Remote(m, s.done[e].kids[j])
      ensures Annihilated(m, s, s2, s.done[e].kids[j])
    {
      var c := s.done[e].kids[j];
      LocalKidIsHeld(m, s, e, c);
      NotOwnCause(c, e);
      assert Annihilated(m, s0, s1, c);
      BeginLeaves(m, s, k, c);
      EndLeaves(m, s1, p, drop, reset, c);
    }
  }

  lemma NotOwnCause(c: Ev, e: Ev)
    requires !Le(c.msg.sig, e.msg.sig)
    ensures c != e
  {
    CompareIsTotalOrder(c.msg.sig, e.msg.sig, e.msg.sig);
  }

  /** The children, on their own PE, of the events undone between s and s' have been annulled. One that was undone
      itself on the way had been queued again, and so it is deleted. */
  ghost predicate AllKidsDone(m: Model, s: Sys, s': Sys, undone: seq<Ev>) {
    && (forall x <- undone :: x in s.done)
    && (forall x, c | x in undone && c in s.done[x].kids && !Remote(m, c) :: KidDone(m, s, s', undone, c))
  }

  ghost predicate KidDone(m: Model, s: Sys, s': Sys, undone: seq<Ev>, c: Ev) {
    && c in s.place && c in s'.born
    && if c in undone || s.place[c] == Pq then !Present(m, s', c) && c !in s'.marked else c in s'.marked
  }

  lemma OnStackBelow(st: seq<Ev>, rest: seq<Ev>, e: Ev, undone: seq<Ev>, x: Ev)
    requires st == rest + [e] + undone && x in undone
    requires forall i, j | 0 <= i < j < |st| :: Le(st[i].msg.sig, st[j].msg.sig) && st[i] != st[j]
    ensures Le(e.msg.sig, x.msg.sig) && e != x
  {
    hide Le;
    var j :| 0 <= j < |undone| && undone[j] == x;
    assert st[|rest|] == e && st[|rest| + 1 + j] == x;
  }

  lemma StackIsSorted(m: Model, s: Sys, k: int)
    requires Core(m, s)
    ensures var st := s.stack(k);
      forall i, j | 0 <= i < j < |st| :: Le(st[i].msg.sig, st[j].msg.sig) && st[i] != st[j]
  {
    hide ModelOk, Ids, Births, Histories, Dones, Owners, Marks, Ahead, Bounds, Phases, Routes, Arriving, Stages, Antis,
      Lookup, KidsLive, Causes, Flights, LpsAgree, LinesRecorded, Le;
  }

  /** Every event above the one undone last was no earlier. */
  lemma Deeper(m: Model, s: Sys, s1: Sys, s2: Sys, k: int, undone: seq<Ev>, e: Ev, x: Ev)
    requires Core(m, s) && Shifted(s, s1, k, undone) && Shifted(s1, s2, k, [e]) && x in undone
    ensures Le(e.msg.sig, x.msg.sig) && e != x && forall c: Ev | !Le(c.msg.sig, x.msg.sig) :: c != e
  {
    hide Core, Le;
    StackIsSorted(m, s, k);
    OnStackBelow(s.stack(k), s2.stack(k), e, undone, x);
  }

  lemma UndidKeeps(m: Model, s: Sys, s': Sys, k: int, e: Ev, drop: bool, c: Ev)
    requires Undid(m, s, s', k, e, drop) && c != e && c in s.born
    ensures Shifted(s, s', k, [e]) && c in s'.born
    ensures (c in s.marked ==> c in s'.marked) && (Present(m, s', c) ==> Present(m, s, c))
  {
    hide Work, Present, InChan, Annulled, CancelsOnly;
  }

  lemma KidIsBornAt(m: Model, s: Sys, s1: Sys, undone: seq<Ev>, c: Ev)
    requires KidDone(m, s, s1, undone, c)
    ensures c in s1.born
  {
  }

  lemma DoneStays(m: Model, s: Sys, s1: Sys, s2: Sys, undone: seq<Ev>, e: Ev, c: Ev)
    requires KidDone(m, s, s1, undone, c) && c != e && c in s2.born
    requires (c in s1.marked ==> c in s2.marked) && (Present(m, s2, c) ==> Present(m, s1, c))
    requires !Present(m, s2, c) ==> c !in s2.marked
    ensures KidDone(m, s, s2, [e] + undone, c)
  {
    hide Present;
  }

  /** Children annulled before e was undone stay annulled: e is not one of them, being no later than what was undone. */
  lemma OldKidStays(m: Model, s: Sys, s1: Sys, s2: Sys, k: int, undone: seq<Ev>, e: Ev, drop: bool, x: Ev, c: Ev)
    requires Core(m, s) && Core(m, s2) && Shifted(s, s1, k, undone) && Undid(m, s1, s2, k, e, drop)
    requires x in undone && x in s.done && c in s.done[x].kids && !Remote(m, c) && KidDone(m, s, s1, undone, c)
    ensures KidDone(m, s, s2, [e] + undone, c)
  {
    assert Shifted(s1, s2, k, [e]);
    hide Undid, Core, Present, Le, Live, Shifted;
    LocalKidIsHeld(m, s, x, c);
    Deeper(m, s, s1, s2, k, undone, e, x);
    hide KidDone;
    KidIsBornAt(m, s, s1, undone, c);
    UndidKeeps(m, s1, s2, k, e, drop, c);
    if !Present(m, s2, c) {
      AbsentIsUnmarked(m, s2, c);
    }
    DoneStays(m, s, s1, s2, undone, e, c);
  }

  lemma WhereKidIs(m: Model, s: Sys, s1: Sys, k: int, undone: seq<Ev>, e: Ev, c: Ev)
    requires RolledBack(m, s, s1, k, undone) && e !in undone && e in s.done && c in s.place && Present(m, s1, c)
    ensures e in s1.done && s1.done[e] == s.done[e]
    ensures c in s1.place && s1.place[c] == if c in undone then Pq else s.place[c]
  {
    hide Work, Present, Shifted;
  }

  /** A child of the event undone last. */
  lemma NewKidGone(m: Model, s: Sys, s1: Sys, s2: Sys, k: int, undone: seq<Ev>, e: Ev, c: Ev)
    requires Core(m, s) && Core(m, s1) && RolledBack(m, s, s1, k, undone) && KidsDone(m, s1, s2, e, 0)
    requires e !in undone && e in s.done && c in s.done[e].kids && !Remote(m, c)
    requires e in s1.done && s1.done[e] == s.done[e]
    ensures KidDone(m, s, s2, [e] + undone, c)
  {
    hide RolledBack, Core, Le, Present;
    LocalKidIsHeld(m, s, e, c);
    LocalKidIsHeld(m, s1, e, c);
    WhereKidIs(m, s, s1, k, undone, e, c);
    var j :| 0 <= j < |s1.done[e].kids| && s1.done[e].kids[j] == c;
    assert Annihilated(m, s1, s2, c);
    NotOwnCause(c, e);
    hide Live;
  }

  lemma KidsOneMore(m: Model, s: Sys, s1: Sys, s2: Sys, k: int, undone: seq<Ev>, e: Ev, drop: bool)
    requires Core(m, s) && Core(m, s1) && Core(m, s2)
    requires RolledBack(m, s, s1, k, undone) && Undid(m, s1, s2, k, e, drop)
    requires AllKidsDone(m, s, s1, undone) && KidsDone(m, s1, s2, e, 0)
    ensures AllKidsDone(m, s, s2, [e] + undone)
  {
    hide RolledBack, Undid, Core, KidDone, KidsDone, Shifted;
    TopWasDone(m, s, s1, s2, k, undone, e, drop);
    forall x <- [e] + undone ensures x in s.done {
    }
    forall x, c | x in [e] + undone && c in s.done[x].kids && !Remote(m, c)
      ensures KidDone(m, s, s2, [e] + undone, c)
    {
      if x == e {
        NewKidGone(m, s, s1, s2, k, undone, e, c);
      } else {
        OldKidStays(m, s, s1, s2, k, undone, e, drop, x, c);
      }
    }
  }

  lemma NoneUndone(m: Model, s: Sys)
    ensures AllKidsDone(m, s, s, [])
  {
  }

  lemma TopWasDone(m: Model, s: Sys, s1: Sys, s2: Sys, k: int, undone: seq<Ev>, e: Ev, drop: bool)
    requires Core(m, s) && RolledBack(m, s, s1, k, undone) && Undid(m, s1, s2, k, e, drop)
    ensures e !in undone && e in s.done && e in s1.done && s1.done[e] == s.done[e]
    ensures Shifted(s, s1, k, undone)
  {
    hide Core, Requeued, PutBack, Work, StaysGone, CancelsOnly;
    assert Shifted(s1, s2, k, [e]);
    forall x <- undone ensures x != e {
      Deeper(m, s, s1, s2, k, undone, e, x);
    }
    hide Shifted;
  }

  /** x is nowhere because an event of undone, which caused it, was undone. */
  ghost predicate GoneWith(m: Model, s': Sys, undone: seq<Ev>, x: Ev) {
    x.cause.Some? && x.cause.value in undone && x in s'.born && !Present(m, s', x)
  }

  /** The events undone are put back, except those annulled because their own cause is among them; no other event is
      touched unless it was annulled for the same reason. */
  ghost predicate PutBack(m: Model, s: Sys, s': Sys, undone: seq<Ev>) {
    && (forall e <- undone :: e !in s'.done && ((e in s'.place && s'.place[e] == Pq) || GoneWith(m, s', undone, e)))
    && (forall x <- s.place | x !in undone ::
          (x in s'.place && s'.place[x] == s.place[x]) || (s.place[x] == Pq && GoneWith(m, s', undone, x)))
  }

  /** No other event is undone or processed. */
  ghost predicate KeepsOthers(s: Sys, s': Sys, undone: seq<Ev>) {
    forall x | x !in undone :: (x in s'.done <==> x in s.done) && (x in s.done ==> s'.done[x] == s.done[x])
  }

  lemma KeepsOneMore(s: Sys, s1: Sys, s2: Sys, undone: seq<Ev>, e: Ev)
    requires KeepsOthers(s, s1, undone) && KeepsOthers(s1, s2, [e])
    ensures KeepsOthers(s, s2, [e] + undone)
  {
  }

  /** From s to s' the events undone, the newest of KP k, were undone. */
  ghost predicate RolledBack(m: Model, s: Sys, s': Sys, k: int, undone: seq<Ev>) {
    && Shifted(s, s', k, undone)
    && s'.gvt == s.gvt && s'.hist == s.hist && s'.phase == s.phase
    && (forall p :: s'.undo(p) == s.undo(p))
    && PutBack(m, s, s', undone)
    && s.marked <= s'.marked && s.born <= s'.born
    && KeepsOthers(s, s', undone)
    && Work(m, s', m.peOf(k)) <= Work(m, s, m.peOf(k))
  }

  lemma RolledBackRefl(m: Model, s: Sys, k: int)
    ensures RolledBack(m, s, s, k, [])
  {
    hide Work;
  }

  lemma PutBackOneMore(m: Model, s: Sys, s1: Sys, s2: Sys, undone: seq<Ev>, e: Ev)
    requires PutBack(m, s, s1, undone) && Requeued(m, s1, s2, e, false)
    requires e !in s2.done && SameDone(s1, s2, e)
    ensures PutBack(m, s, s2, [e] + undone)
  {
    hide Present, CancelsOnly;
    assert forall x :: x in [e] + undone <==> x == e || x in undone;
    forall x | GoneWith(m, s1, undone, x) ensures GoneWith(m, s2, [e] + undone, x) {
    }
    forall x <- s1.place | Annulled(m, s1, s2, e, x) ensures GoneWith(m, s2, [e] + undone, x) && s1.place[x] == Pq {
    }
    hide GoneWith, Annulled, StaysGone;
  }

  lemma RequeuedGrows(m: Model, s: Sys, s': Sys, e: Ev)
    requires Requeued(m, s, s', e, false)
    ensures s.marked <= s'.marked && s.born <= s'.born
  {
    hide Annulled, Present;
  }

  lemma RollbackOneMore(m: Model, s: Sys, s1: Sys, s2: Sys, k: int, undone: seq<Ev>, e: Ev)
    requires RolledBack(m, s, s1, k, undone) && Undid(m, s1, s2, k, e, false)
    ensures RolledBack(m, s, s2, k, [e] + undone)
  {
    PutBackOneMore(m, s, s1, s2, undone, e);
    RequeuedGrows(m, s1, s2, e);
    KeepsOneMore(s, s1, s2, undone, e);
    ShiftedOneMore(s, s1, s2, k, undone, e);
    hide Work, Requeued, PutBack, KeepsOthers, Shifted;
  }

  /** Rollback is exact: each LP of the KP is back in the state, random stream included, that the remaining events leave
      it in, and nothing the undone events caused is live. */
  ghost predicate Exact(m: Model, s: Sys, k: int, undone: seq<Ev>) {
    && (forall l | m.kpOf(l) == k :: s.lp(l) == Replay(m, Line(s, k), l))
    && (forall e <- undone, c: Ev | c.cause == Some(e) :: !Live(m, s, c))
  }

  /** A PE that is not rolling back has its LPs where their lines leave them, and undone events have no live child. */
  lemma IdleIsExact(m: Model, s: Sys, k: int, undone: seq<Ev>)
    requires Core(m, s) && Idle(s, m.peOf(k)) && forall e <- undone :: e !in s.done
    ensures Exact(m, s, k, undone)
  {
    hide ModelOk, Ids, Births, Stacks, Histories, Dones, Owners, Marks, Sorted, Ahead,
      Bounds, Phases, Routes, Arriving, Stages, Antis, Lookup, KidsLive, Flights, LinesRecorded, Le, Live;
    forall l | m.kpOf(l) == k ensures s.lp(l) == Replay(m, Line(s, k), l) {
      assert LpAgrees(m, s, l);
    }
    hide LpsAgree, Replay, Line, Core;
  }

  lemma RollbackIsExact(m: Model, s: Sys, s': Sys, k: int, undone: seq<Ev>)
    requires Core(m, s') && RolledBack(m, s, s', k, undone) && Idle(s, m.peOf(k))
    ensures Exact(m, s', k, undone)
  {
    hide Core, Exact, Work, GoneWith, KeepsOthers, Shifted;
    IdleIsExact(m, s', k, undone);
  }

  /** So is a secondary rollback, of the cancelled event e and those above it. */
  lemma SecondaryIsExact(m: Model, s: Sys, s1: Sys, s': Sys, k: int, undone: seq<Ev>, e: Ev)
    requires Core(m, s') && RolledBack(m, s, s1, k, undone) && Undid(m, s1, s', k, e, true) && Idle(s, m.peOf(k))
    ensures Exact(m, s', k, [e] + undone)
  {
    hide Core, Exact, Work, GoneWith, KeepsOthers, Requeued;
    forall x <- [e] + undone ensures x !in s'.done {
      assert x == e || x in undone;
    }
    IdleIsExact(m, s', k, [e] + undone);
  }

  // ---------- what emptying a queue does to everything else ----------

  /** The events processed in s and undone since. */
  ghost function Reverted(s: Sys, s': Sys): set<Ev> {
    s.done.Keys - s'.done.Keys
  }

  predicate CausedBy(x: Ev, es: set<Ev>) {
    x.cause.Some? && x.cause.value in es
  }

  /** x is nowhere: it was cancelled and freed, or the event that caused it was undone. */
  ghost predicate Lost(m: Model, s': Sys, undone: set<Ev>, freed: set<Ev>, x: Ev) {
    x in s'.born && !Present(m, s', x) && (x in freed || CausedBy(x, undone))
  }

  /** What becomes of an event held in s: it is left alone, undone and queued again, taken from event_q, or lost. */
  ghost predicate Fate(m: Model, s: Sys, s': Sys, taken: set<Ev>, freed: set<Ev>, x: Ev)
    requires x in s.place
  {
    || (x !in Reverted(s, s') && x in s'.place && s'.place[x] == s.place[x])
    || (x in Reverted(s, s') && s.place[x] == Processed && x in s'.place && s'.place[x] == Pq)
    || (x in taken && s.place[x] == EventQ && x in s'.place && s'.place[x] in {Pq, AntiMsg})
    || Lost(m, s', Reverted(s, s'), freed, x)
  }

  /** The taken events are queued, dropped as cancelled, or lost; the freed ones had been cancelled or were caused by an
      event undone. */
  ghost predicate Handled(m: Model, s: Sys, s': Sys, p: int, taken: set<Ev>, freed: set<Ev>) {
    && (forall t <- taken :: PeOf(m, t) == p
          && ((t in s'.place && s'.place[t] in {Pq, AntiMsg}) || Lost(m, s', Reverted(s, s'), freed, t)))
    && (forall f <- freed :: PeOf(m, f) == p && f in s'.born && !Present(m, s', f)
          && (CancelSent(m, s, f) || CausedBy(f, Reverted(s, s'))))
  }

  /** No event of PE p was newly cancelled but those the undone events caused. */
  ghost predicate CancelsBy(m: Model, s: Sys, s': Sys, p: int) {
    forall x | PeOf(m, x) == p && CancelSent(m, s', x) :: CancelSent(m, s, x) || CausedBy(x, Reverted(s, s'))
  }

  /** From s to s' PE p only rolled back, took these events from event_q, freed those, and serviced the network. */
  ghost predicate Settles(m: Model, s: Sys, s': Sys, p: int, taken: set<Ev>, freed: set<Ev>) {
    && s'.gvt == s.gvt && s'.hist == s.hist && s'.phase == s.phase && (forall q :: s'.undo(q) == s.undo(q))
    && s'.done.Keys <= s.done.Keys
    && (forall k :: s'.stack(k) <= s.stack(k) && (m.peOf(k) != p ==> s'.stack(k) == s.stack(k)))
    && (forall l | m.peOf(m.kpOf(l)) != p :: s'.lp(l) == s.lp(l))
    && StaysGone(m, s, s') && CancelsBy(m, s, s', p)
    && (forall x <- s.place :: Fate(m, s, s', taken, freed, x))
    && Handled(m, s, s', p, taken, freed)
  }

  lemma RevertedTrans(s: Sys, s1: Sys, s2: Sys)
    requires s2.done.Keys <= s1.done.Keys <= s.done.Keys
    ensures Reverted(s, s2) == Reverted(s, s1) + Reverted(s1, s2)
  {
  }

  lemma LostStays(m: Model, s1: Sys, s2: Sys, undone: set<Ev>, freed: set<Ev>, more: set<Ev>, also: set<Ev>, x: Ev)
    requires Lost(m, s1, undone, freed, x) && StaysGone(m, s1, s2) && undone <= more && freed <= also
    ensures Lost(m, s2, more, also, x)
  {
    hide Present;
  }

  lemma FateTrans(m: Model, s: Sys, s1: Sys, s2: Sys, taken: set<Ev>, freed: set<Ev>, taken1: set<Ev>,
      freed1: set<Ev>, x: Ev)
    requires s2.done.Keys <= s1.done.Keys <= s.done.Keys && StaysGone(m, s1, s2)
    requires x in s.place && Fate(m, s, s1, taken, freed, x)
    requires x in s1.place ==> Fate(m, s1, s2, taken1, freed1, x)
    ensures Fate(m, s, s2, taken + taken1, freed + freed1, x)
  {
    RevertedTrans(s, s1, s2);
    if Lost(m, s1, Reverted(s, s1), freed, x) {
      LostStays(m, s1, s2, Reverted(s, s1), freed, Reverted(s, s2), freed + freed1, x);
    } else if Lost(m, s2, Reverted(s1, s2), freed1, x) {
      LostStays(m, s2, s2, Reverted(s1, s2), freed1, Reverted(s, s2), freed + freed1, x);
    }
    hide Lost, StaysGone;
  }

  lemma SettlesShrinks(m: Model, s: Sys, s': Sys, p: int, taken: set<Ev>, freed: set<Ev>)
    requires Settles(m, s, s', p, taken, freed)
    ensures s'.done.Keys <= s.done.Keys && s'.phase == s.phase && s'.undo(p) == s.undo(p)
  {
    hide Fate, Handled, CancelsBy, StaysGone;
  }

  lemma HandledTrans(m: Model, s: Sys, s1: Sys, s2: Sys, p: int,
                     taken: set<Ev>, freed: set<Ev>, taken1: set<Ev>, freed1: set<Ev>)
    requires Settles(m, s, s1, p, taken, freed) && Settles(m, s1, s2, p, taken1, freed1)
    ensures Handled(m, s, s2, p, taken + taken1, freed + freed1) && CancelsBy(m, s, s2, p)
  {
    RevertedTrans(s, s1, s2);
    hide CancelSent;
    forall x, a: set<Ev>, b: set<Ev> | Lost(m, s1, a, b, x) && a <= Reverted(s, s2) && b <= freed + freed1
      ensures Lost(m, s2, Reverted(s, s2), freed + freed1, x)
    {
      LostStays(m, s1, s2, a, b, Reverted(s, s2), freed + freed1, x);
    }
    forall x | Lost(m, s2, Reverted(s1, s2), freed1, x) ensures Lost(m, s2, Reverted(s, s2), freed + freed1, x) {
      LostStays(m, s2, s2, Reverted(s1, s2), freed1, Reverted(s, s2), freed + freed1, x);
    }
    hide Lost, Present;
  }

  lemma SettlesTrans(m: Model, s: Sys, s1: Sys, s2: Sys, p: int,
                     taken: set<Ev>, freed: set<Ev>, taken1: set<Ev>, freed1: set<Ev>)
    requires Settles(m, s, s1, p, taken, freed) && Settles(m, s1, s2, p, taken1, freed1)
    ensures Settles(m, s, s2, p, taken + taken1, freed + freed1)
  {
    hide Present;
    HandledTrans(m, s, s1, s2, p, taken, freed, taken1, freed1);
    forall x <- s.place ensures Fate(m, s, s2, taken + taken1, freed + freed1, x) {
      FateTrans(m, s, s1, s2, taken, freed, taken1, freed1, x);
    }
    hide Fate, Handled, CancelsBy;
  }

  /** The LPs of PE p are as the events on their KPs' lines leave them, and nothing an undone event caused is live. */
  ghost predicate Clean(m: Model, s: Sys, p: int, undone: set<Ev>) {
    && (forall l | m.peOf(m.kpOf(l)) == p :: s.lp(l) == Replay(m, Line(s, m.kpOf(l)), l))
    && (forall c | CausedBy(c, undone) :: !Live(m, s, c))
  }

  lemma IdleIsClean(m: Model, s: Sys, s': Sys, p: int)
    requires Core(m, s') && Idle(s', p)
    ensures Clean(m, s', p, Reverted(s, s'))
  {
    hide ModelOk, Ids, Births, Stacks, Histories, Dones, Owners, Marks, Sorted, Ahead,
      Bounds, Phases, Routes, Arriving, Stages, Antis, Lookup, KidsLive, Flights, LinesRecorded, Le, Live;
    forall l | m.peOf(m.kpOf(l)) == p ensures s'.lp(l) == Replay(m, Line(s', m.kpOf(l)), l) {
      assert LpAgrees(m, s', l);
    }
    hide LpsAgree, Replay, Line, Core;
  }

  /** Each of these undone events is at or after one of the causes, of the same KP. */
  ghost predicate Justified(m: Model, undone: set<Ev>, causes: set<Ev>) {
    forall u <- undone :: exists t <- causes :: KpOf(m, t) == KpOf(m, u) && Le(t.msg.sig, u.msg.sig)
  }

  lemma SettlesRefl(m: Model, s: Sys, p: int)
    ensures Settles(m, s, s, p, {}, {})
  {
    hide Present;
  }

  lemma NothingToJustify(m: Model, s: Sys, causes: set<Ev>)
    ensures Justified(m, Reverted(s, s), causes)
  {
  }

  /** Undoing the newest event of a KP settles it. */
  lemma UndidFates(m: Model, s: Sys, s': Sys, k: int, e: Ev, drop: bool)
    requires Undid(m, s, s', k, e, drop) && (drop ==> e in s.marked)
    ensures Reverted(s, s') == {e}
    ensures var freed: set<Ev> := if drop then {e} else {};
      Handled(m, s, s', m.peOf(k), {}, freed) && forall x <- s.place :: Fate(m, s, s', {}, freed, x)
  {
    hide Work, Present, InChan, CancelsOnly;
    assert Reverted(s, s') == {e};
    hide Reverted, SameDone, Shifted;
  }

  lemma UndidSettles(m: Model, s: Sys, s': Sys, k: int, e: Ev, drop: bool)
    requires Undid(m, s, s', k, e, drop) && (drop ==> e in s.marked)
    ensures Settles(m, s, s', m.peOf(k), {}, if drop then {e} else {}) && Reverted(s, s') == {e}
  {
    hide Work, Present, InChan, Handled, Fate, CancelSent;
    UndidFates(m, s, s', k, e, drop);
    hide Reverted, StaysGone, Annulled;
  }

  /** One more event undone and queued again. */
  lemma UndoneSettles(m: Model, s: Sys, s1: Sys, s2: Sys, k: int, e: Ev)
    requires Settles(m, s, s1, m.peOf(k), {}, {}) && Undid(m, s1, s2, k, e, false)
    ensures Settles(m, s, s2, m.peOf(k), {}, {})
  {
    hide Settles, Undid;
    UndidSettles(m, s1, s2, k, e, false);
    SettlesTrans(m, s, s1, s2, m.peOf(k), {}, {}, {}, {});
    var none: set<Ev> := {};
    assert none + none == none;
  }

  lemma TakeSettles(m: Model, s: Sys, e: Ev, drop: bool)
    requires CanTakeEvent(m, s, e, drop)
    ensures var s' := DoTakeEvent(s, e, drop); Settles(m, s, s', PeOf(m, e), {e}, {}) && Reverted(s, s') == {}
  {
    hide Le, InChan;
    assert StaysGone(m, s, DoTakeEvent(s, e, drop));
    hide Present, StaysGone;
  }

  lemma FreeSettles(m: Model, s: Sys, e: Ev)
    requires CanTakeCancelled(m, s, e) && Births(m, s) && Arriving(m, s) && Stages(m, s)
    ensures var s' := DoTakeCancelled(s, e); Settles(m, s, s', PeOf(m, e), {}, {e}) && Reverted(s, s') == {}
  {
    hide Le, InChan;
    assert StaysGone(m, s, DoTakeCancelled(s, e)) && !Present(m, DoTakeCancelled(s, e), e);
    assert e in s.born;
    hide Births, Arriving, Stages, Present, StaysGone;
  }

  lemma SelfJustified(m: Model, e: Ev)
    ensures Justified(m, {e}, {e})
  {
    LeIsTotalOrder();
    hide Le;
    assert e in {e} && KpOf(m, e) == KpOf(m, e) && Le(e.msg.sig, e.msg.sig);
  }

  lemma JustifiedMore(m: Model, s: Sys, s1: Sys, s2: Sys, causes: set<Ev>, more: set<Ev>)
    requires s2.done.Keys <= s1.done.Keys <= s.done.Keys
    requires Justified(m, Reverted(s, s1), causes) && Justified(m, Reverted(s1, s2), more)
    ensures Justified(m, Reverted(s, s2), causes + more)
  {
    hide Le;
  }

  /** What a rollback undoes is justified by what it was done for. */
  lemma RollbackIsJustified(m: Model, s: Sys, s': Sys, k: int, undone: seq<Ev>, t: Ev)
    requires RolledBack(m, s, s', k, undone) && Core(m, s) && KpOf(m, t) == k
    requires forall u <- undone :: Le(t.msg.sig, u.msg.sig)
    ensures Justified(m, Reverted(s, s'), {t})
  {
    hide ModelOk, Ids, Births, Histories, Dones, Owners, Marks, Sorted, Ahead,
      Bounds, Phases, Routes, Arriving, Stages, Antis, Lookup, KidsLive, Causes, Flights, LpsAgree, LinesRecorded, Le;
    hide Work, Present, PutBack;
    forall i | 0 <= i < |undone| ensures KpOf(m, undone[i]) == k {
      assert s.stack(k)[|s'.stack(k)| + i] == undone[i];
    }
  }

  /** KP k can be rolled back to sig: it is after GVT and its PE is neither rolling back nor waiting for a round. */
  predicate Rollable(m: Model, s: Sys, k: int, sig: Sig) {
    Le(s.gvt, sig) && s.phase(m.peOf(k)) != Reducing && Idle(s, m.peOf(k))
  }

  lemma CanUndoTop(m: Model, s: Sys, k: int, sig: Sig)
    requires Core(m, s) && Rollable(m, s, k, sig) && s.stack(k) != [] && Le(sig, Top(s, k).msg.sig)
    ensures CanBeginUndo(m, s, k) && OnTop(m, s, k)
  {
    hide ModelOk, Ids, Births, Stacks, Histories, Owners, Marks, Sorted, Ahead,
      Bounds, Phases, Routes, Arriving, Stages, Antis, Lookup, KidsLive, Causes, Flights, LpsAgree, LinesRecorded;
    LeIsTotalOrder(); hide Le;
    TopFacts(m, s, k);
  }

  /** g is the least of sigs, or the largest signature of all if there are none. */
  ghost predicate IsMinimum(g: Sig, sigs: set<Sig>) {
    (g == MAX_SIG || g in sigs) && Le(g, MAX_SIG) && forall x <- sigs :: Le(g, x)
  }

  ghost function NetSigs(s: Sys, p: int): set<Sig> {
    set e | e in s.wire.Keys && !s.wire[e].Sevent? && e.pe == p :: e.msg.sig
  }

  ghost function PqSigs(m: Model, s: Sys, p: int): set<Sig> {
    set e | e in s.place.Keys && s.place[e] == Pq && PeOf(m, e) == p :: e.msg.sig
  }

  lemma MinOfUnion(g: Sig, a: set<Sig>, h: Sig, b: set<Sig>)
    requires IsMinimum(g, a) && IsMinimum(h, b)
    ensures IsMinimum(if Le(g, h) then g else h, a + b)
  {
    LeIsTotalOrder();
    hide Le;
  }

  lemma NothingIsMinimum()
    ensures IsMinimum(MAX_SIG, {})
  {
    LeIsTotalOrder();
    hide Le;
  }

  lemma TransIsMinimum(s: Sys, p: int)
    requires Le(s.trans(p), MAX_SIG)
    ensures IsMinimum(s.trans(p), {s.trans(p)})
  {
    LeIsTotalOrder();
    hide Le;
  }

  lemma QueuedIsMinimum(m: Model, s: Sys, p: int, top: Option<Ev>)
    requires top == None ==> forall f <- s.place | s.place[f] == Pq :: PeOf(m, f) != p
    requires top.Some? ==> var e := top.value;
      && e in s.place && s.place[e] == Pq && PeOf(m, e) == p && Le(e.msg.sig, MAX_SIG)
      && forall f <- s.place | s.place[f] == Pq && PeOf(m, f) == p :: Le(e.msg.sig, f.msg.sig)
    ensures IsMinimum(if top.Some? then top.value.msg.sig else MAX_SIG, PqSigs(m, s, p))
  {
    LeIsTotalOrder();
    hide Le;
  }

  /** What PE p looks at in step 2: transient messages, its priority queue and its unfinished sends. */
  ghost function LocalSigs(m: Model, s: Sys, p: int): set<Sig> {
    {s.trans(p)} + PqSigs(m, s, p) + NetSigs(s, p)
  }

  ghost function AllSigs(m: Model, s: Sys, n: nat): set<Sig> {
    if n == 0 then {} else AllSigs(m, s, n - 1) + LocalSigs(m, s, n - 1)
  }

  predicate AllWaiting(m: Model, s: Sys, n: nat) {
    forall p | 0 <= p < n :: s.phase(p) == Reducing
  }

  lemma {:induction false} InAllSigs(m: Model, s: Sys, n: nat, g: Sig)
    ensures g in AllSigs(m, s, n) <==> exists p :: 0 <= p < n && g in LocalSigs(m, s, p)
  {
    if n > 0 {
      InAllSigs(m, s, n - 1, g);
    }
    hide LocalSigs;
  }

  lemma RoundIsLower(m: Model, s: Sys, g: Sig)
    requires forall k {:trigger m.peOf(k)} :: 0 <= m.peOf(k) < m.numPes
    requires forall e <- s.wire :: 0 <= e.pe < m.numPes
    requires forall p | 0 <= p < m.numPes :: forall x <- LocalSigs(m, s, p) :: Le(g, x)
    ensures LocalLower(m, s, g)
  {
    hide Le;
    forall p | 0 <= p < m.numPes ensures Le(g, s.trans(p)) {
      assert s.trans(p) in LocalSigs(m, s, p);
    }
    forall e <- s.place | s.place[e] == Pq ensures Le(g, e.msg.sig) {
      assert 0 <= m.peOf(KpOf(m, e)) < m.numPes;
      assert e.msg.sig in LocalSigs(m, s, PeOf(m, e));
    }
    forall e <- s.wire | !s.wire[e].Sevent? ensures Le(g, e.msg.sig) {
      assert e.msg.sig in LocalSigs(m, s, e.pe);
    }
  }

  lemma RoundIsLocal(m: Model, s: Sys, g: Sig)
    requires ModelOk(m) && Births(m, s) && IsMinimum(g, AllSigs(m, s, m.numPes))
    ensures LocalLower(m, s, g) && LocalAttained(m, s, g)
  {
    hide Le;
    assert forall e <- s.wire :: 0 <= e.pe < m.numPes;
    hide Births;
    forall x ensures x in AllSigs(m, s, m.numPes) <==> exists p :: 0 <= p < m.numPes && x in LocalSigs(m, s, p) {
      InAllSigs(m, s, m.numPes, x);
    }
    hide AllSigs;
    RoundIsLower(m, s, g);
    hide ModelOk, LocalLower;
  }

  lemma RoundIsEnabled(m: Model, s: Sys, g: Sig)
    requires Core(m, s) && White(s.sent, s.recv, m.numPes) == 0 && AllWaiting(m, s, m.numPes)
    requires IsMinimum(g, AllSigs(m, s, m.numPes))
    ensures Enabled(m, s, GvtRound(g)) && Apply(m, s, GvtRound(g)) == DoGvtRound(s, g)
    ensures Le(s.gvt, g) && forall q, p :: s.chan(q, p) == []
  {
    hide ModelOk, Ids, Births, Stacks, Histories, Dones, Owners, Marks, Sorted, Ahead,
      Bounds, Phases, Routes, Arriving, Stages, Antis, Lookup, KidsLive, Causes, Flights, LpsAgree, LinesRecorded, Le;
    RoundIsLocal(m, s, g);
    hide LocalLower, LocalAttained, IsMinimum;
    GvtIsMonotone(m, s, g);
    NothingInFlight(m, s, g);
  }

  lemma BoundsOf(m: Model, s: Sys)
    requires Core(m, s)
    ensures forall p :: Le(s.trans(p), MAX_SIG)
    ensures forall e <- s.place :: Le(e.msg.sig, MAX_SIG)
  {
    hide ModelOk, Ids, Stacks, Histories, Dones, Owners, Marks, Sorted, Ahead,
      Phases, Routes, Arriving, Stages, Antis, Lookup, KidsLive, Causes, Flights, LpsAgree, LinesRecorded, Le;
  }

  /** last_sig of KP k after its newest event was undone: that event's, or, if it is reset, that of the newest event
      left, or GVT. Other KPs keep theirs. */
  ghost predicate LastIs(s: Sys, s': Sys, k: int, reset: bool)
    requires s.stack(k) != []
  {
    && s'.last(k) == (if !reset then Top(s, k).msg.sig else if s'.stack(k) == [] then s'.gvt else Top(s', k).msg.sig)
    && forall x | x != k :: s'.last(x) == s.last(x)
  }

  class Kernel {
    const m: Model
    var sys: Sys

    ghost predicate Valid()
      reads this
    {
      Core(m, sys)
    }

    constructor (m: Model)
      requires ModelOk(m)
      ensures Valid() && this.m == m && sys == InitSys(m)
    {
      this.m := m;
      sys := InitSys(m);
      new;
      InitIsCore(m);
      hide Core, ModelOk, InitSys;
    }

    /** Take one action. */
    method Take(a: Action)
      requires Valid() && Enabled(m, sys, a)
      modifies this
      ensures Valid() && sys == Apply(m, old(sys), a) && Reaches(m, old(sys), sys)
    {
      hide Core, Enabled, Apply;
      ApplyKeepsCore(m, sys, a);
      StepReaches(m, sys, a);
      sys := Apply(m, sys, a);
    }

    /** service_queues: any number of messages arrive, sends start and sends complete at PE p. */
    method ServiceQueues(p: int, ghost e: Ev)
      requires Valid() && p == PeOf(m, e)
      modifies this
      ensures Valid() && Reaches(m, old(sys), sys) && Quiet(m, old(sys), sys, e)
      ensures sys.done == old(sys.done)
    {
      hide Core, Quiet, Reaches, CanProcess, CanBeginUndo, CanTakeEvent, CanTakeCancelled, CanGvtRound, Le;
      ReachesRefl(m, sys);
      QuietRefl(m, sys, e);
      var n: nat := *;
      while n > 0
        invariant Valid() && Reaches(m, old(sys), sys) && Quiet(m, old(sys), sys, e) && sys.done == old(sys.done)
      {
        ghost var before := sys;
        var q: int := *;
        if sys.chan(q, p) != [] {
          ServiceOne(p, Receive(q, p), e);
        } else if sys.wire.Keys != {} {
          var x :| x in sys.wire.Keys;
          if x.pe == p && CanPost(sys, x) {
            ServiceOne(p, Post(x), e);
          } else if x.pe == p && CanFinishSend(sys, x) {
            ServiceOne(p, FinishSend(x), e);
          }
        }
        if before == sys {
          ReachesRefl(m, sys);
          QuietRefl(m, sys, e);
        }
        ReachesTrans(m, old(sys), before, sys);
        QuietTrans(m, old(sys), before, sys, e);
        n := n - 1;
      }
    }

    method ServiceOne(p: int, a: Action, ghost e: Ev)
      requires Valid() && NetOf(p, a) && Enabled(m, sys, a) && p == PeOf(m, e)
      modifies this
      ensures Valid() && Reaches(m, old(sys), sys) && Quiet(m, old(sys), sys, e) && sys.done == old(sys.done)
    {
      NetIsQuiet(m, sys, p, a, e);
      hide Core, Quiet, Reaches, Enabled, Apply;
      Take(a);
    }
  
    /** tw_event_rollback on the newest event of KP k, which is then freed (drop) or queued again. */
    method UndoTop(k: int, drop: bool, reset: bool)
      requires Valid() && CanBeginUndo(m, sys, k) && (drop ==> Top(sys, k) in sys.marked)
      modifies this
      ensures Valid() && Reaches(m, old(sys), sys)
      ensures Undid(m, old(sys), sys, k, old(Top(sys, k)), drop)
      ensures KidsDone(m, old(sys), sys, old(Top(sys, k)), 0)
      ensures LastIs(old(sys), sys, k, reset)
    {
      hide Core, Quiet, Reaches, Undid, KidsDone, Apply, Enabled;
      var e, p := Top(sys, k), m.peOf(k);
      TopIsOnTop(m, sys, k);
      BeginIsEnabled(m, sys, k);
      Take(BeginUndo(k));
      ghost var s1, n: nat := sys, |sys.done[e].kids|;
      QuietRefl(m, sys, e);
      NoKidsDone(m, sys, e);
      while CanCancelKid(sys, p)
        invariant Valid() && Reaches(m, old(sys), sys) && Quiet(m, s1, sys, e)
        invariant sys.undo(p) == Some(e) && e in sys.done && PeOf(m, e) == p && n <= |s1.done[e].kids|
        invariant sys.done[e].kids == s1.done[e].kids[..n] && KidsDone(m, s1, sys, e, n)
        decreases if e in sys.done then |sys.done[e].kids| else 0
      {
        ghost var before := sys;
        CancelIsEnabled(m, sys, p);
        CancelIsQuiet(m, sys, p);
        var remote := Remote(m, LastKid(sys, p));
        OneKidLess(m, sys, p, e, s1.done[e].kids, n);
        Take(CancelKid(p));
        OneMoreKid(m, s1, before, p, e, n, sys);
        n := n - 1;
        QuietTrans(m, s1, before, sys, e);
        ReachesTrans(m, old(sys), before, sys);
        if remote {
          ghost var cancelled := sys;
          ServiceQueues(p, e);
          KidsStayDone(m, s1, cancelled, sys, e, n);
          QuietTrans(m, s1, cancelled, sys, e);
          ReachesTrans(m, old(sys), cancelled, sys);
          QuietKeepsUndo(m, cancelled, sys, e);
        }
      }
      ghost var s2 := sys;
      EndIsEnabled(m, old(sys), k, sys, p, drop, reset);
      EndFacts(m, sys, p);
      UndoComposes(m, old(sys), k, sys, p, drop, reset);
      UndoAnnuls(m, old(sys), k, sys, p, drop, reset);
      Take(EndUndo(p, drop, reset));
      ReachesTrans(m, old(sys), s2, sys);
    }

    /** tw_kp_rollback_to_sig */
    method RollbackToSig(k: int, to: Sig) returns (ghost undone: seq<Ev>)
      requires Valid() && Rollable(m, sys, k, to)
      modifies this
      ensures Valid() && Reaches(m, old(sys), sys) && RolledBack(m, old(sys), sys, k, undone)
      ensures Exact(m, sys, k, undone) && forall e <- undone :: Le(to, e.msg.sig)
      ensures AllKidsDone(m, old(sys), sys, undone) && (undone == [] ==> sys == old(sys))
      ensures Settles(m, old(sys), sys, m.peOf(k), {}, {})
      ensures sys.stack(k) == [] || !Le(to, Top(sys, k).msg.sig)
      ensures undone != [] ==> sys.last(k) == if sys.stack(k) == [] then sys.gvt else Top(sys, k).msg.sig
    {
      hide Core, Reaches, RolledBack, Undid, Exact, Settles, AllKidsDone, KidsDone, Le;
      NoneUndone(m, sys);
      undone := [];
      ReachesRefl(m, sys);
      RolledBackRefl(m, sys, k);
      SettlesRefl(m, sys, m.peOf(k));
      while sys.stack(k) != [] && Le(to, Top(sys, k).msg.sig)
        invariant Valid() && Reaches(m, old(sys), sys) && RolledBack(m, old(sys), sys, k, undone)
        invariant Settles(m, old(sys), sys, m.peOf(k), {}, {}) && AllKidsDone(m, old(sys), sys, undone)
        invariant undone == [] ==> sys == old(sys)
        invariant Rollable(m, sys, k, to) && forall e <- undone :: Le(to, e.msg.sig)
        invariant undone != [] ==> sys.last(k) == if sys.stack(k) == [] then sys.gvt else Top(sys, k).msg.sig
        decreases |sys.stack(k)|
      {
        ghost var before, e := sys, Top(sys, k);
        CanUndoTop(m, sys, k, to);
        UndoTop(k, false, true);
        KidsOneMore(m, old(sys), before, sys, k, undone, e, false);
        RollbackOneMore(m, old(sys), before, sys, k, undone, e);
        UndoneSettles(m, old(sys), before, sys, k, e);
        ReachesTrans(m, old(sys), before, sys);
        UndidFrame(m, before, sys, k, e, false);
        undone := [e] + undone;
      }
      RollbackIsExact(m, old(sys), sys, k, undone);
    }

    /** tw_kp_rollback_event followed by the release of the event: a secondary rollback. The events above e are undone
        and queued again, then e is undone and freed. */
    method RollbackEvent(e: Ev, k: int) returns (ghost undone: seq<Ev>, ghost mid: Sys)
      requires Valid() && e in sys.marked && e in sys.place && sys.place[e] == Processed && k == KpOf(m, e)
      requires Rollable(m, sys, k, sys.gvt)
      modifies this
      ensures Valid() && Reaches(m, old(sys), sys)
      ensures RolledBack(m, old(sys), mid, k, undone) && Undid(m, mid, sys, k, e, true)
      ensures Exact(m, sys, k, [e] + undone) && forall u <- undone :: Le(e.msg.sig, u.msg.sig)
      ensures old(sys.stack(k)) == sys.stack(k) + [e] + undone && AllKidsDone(m, old(sys), sys, [e] + undone)
      ensures Settles(m, old(sys), sys, m.peOf(k), {}, {e}) && Justified(m, Reverted(old(sys), sys), {e})
      ensures sys.done.Keys < old(sys.done.Keys) && forall x <- old(sys.marked) | x != e :: x in sys.marked
      ensures sys.last(k) == if sys.stack(k) == [] then sys.gvt else Top(sys, k).msg.sig
    {
      hide Core, Reaches, RolledBack, Undid, Exact, Settles, AllKidsDone, KidsDone, Le;
      ReachesRefl(m, sys);
      RolledBackRefl(m, sys, k);
      SettlesRefl(m, sys, m.peOf(k));
      NoneUndone(m, sys);
      OnStack(m, sys, e, k);
      undone := [];
      while Top(sys, k) != e
        invariant Valid() && Reaches(m, old(sys), sys) && RolledBack(m, old(sys), sys, k, undone)
        invariant Settles(m, old(sys), sys, m.peOf(k), {}, {}) && forall u <- undone :: Le(e.msg.sig, u.msg.sig)
        invariant e in sys.marked && e in sys.place && sys.place[e] == Processed && Rollable(m, sys, k, sys.gvt)
        invariant sys.stack(k) != [] && CanBeginUndo(m, sys, k) && Le(e.msg.sig, Top(sys, k).msg.sig)
        invariant AllKidsDone(m, old(sys), sys, undone)
        decreases |sys.stack(k)|
      {
        ghost var before, top := sys, Top(sys, k);
        UndoTop(k, false, false);
        KidsOneMore(m, old(sys), before, sys, k, undone, top, false);
        RollbackOneMore(m, old(sys), before, sys, k, undone, top);
        UndoneSettles(m, old(sys), before, sys, k, top);
        ReachesTrans(m, old(sys), before, sys);
        UndidFrame(m, before, sys, k, top, false);
        OnStack(m, sys, e, k);
        undone := [top] + undone;
      }
      mid := sys;
      UndoTop(k, true, true);
      KidsOneMore(m, old(sys), mid, sys, k, undone, e, true);
      ReachesTrans(m, old(sys), mid, sys);
      SecondaryIsExact(m, old(sys), mid, sys, k, undone, e);
      SecondarySettles(m, old(sys), mid, sys, k, undone, e);
    }

    /** tw_sched_event_q: spin every event out of event_q, rolling back the KPs of stragglers. */
    method SchedEventQ(p: int) returns (ghost taken: set<Ev>)
      requires Valid() && sys.phase(p) != Reducing && Idle(sys, p)
      modifies this
      ensures Valid() && Reaches(m, old(sys), sys) && EventQAt(m, sys, p) == {}
      ensures Settles(m, old(sys), sys, p, taken, {}) && EventQAt(m, old(sys), p) <= taken
      ensures forall x <- EventQAt(m, old(sys), p) | x in old(sys.marked) :: x in sys.place && sys.place[x] == AntiMsg
      ensures Justified(m, Reverted(old(sys), sys), taken) && Clean(m, sys, p, Reverted(old(sys), sys))
    {
      hide Core, Reaches, RolledBack, Exact, Le, CanTakeEvent, DoTakeEvent, Work, Settles, Justified, Clean;
      ReachesRefl(m, sys);
      SettlesRefl(m, sys, p);
      NothingToJustify(m, sys, {});
      taken := {};
      while EventQAt(m, sys, p) != {}
        invariant Valid() && Reaches(m, old(sys), sys)
        invariant Settles(m, old(sys), sys, p, taken, {}) && Justified(m, Reverted(old(sys), sys), taken)
        invariant EventQAt(m, old(sys), p) <= taken + EventQAt(m, sys, p) && old(sys.marked) <= sys.marked
        invariant forall x <- EventQAt(m, old(sys), p) | x in old(sys.marked) ::
          x in EventQAt(m, sys, p) || (x in sys.place && sys.place[x] == AntiMsg)
        invariant sys.phase == old(sys.phase) && Idle(sys, p)
        decreases Work(m, sys, p)
      {
        ghost var start := sys;
        var e :| e in EventQAt(m, sys, p);
        var k, drop := KpOf(m, e), e in sys.marked;
        if !drop && !Le(sys.last(k), e.msg.sig) {
          StragglerIsRollable(m, sys, e);
          ghost var undone := RollbackToSig(k, e.msg.sig);
          ReachesTrans(m, old(sys), start, sys);
          RolledBackFrame(m, start, sys, k, undone);
          RollbackIsJustified(m, start, sys, k, undone, e);
        } else {
          SettlesRefl(m, sys, p);
          NothingToJustify(m, sys, {e});
        }
        ghost var before := sys;
        TakeIsEnabled(m, sys, e, drop);
        Take(TakeEvent(e, drop));
        ReachesTrans(m, old(sys), before, sys);
        TakenSettles(m, old(sys), start, before, sys, taken, e, drop);
        taken := taken + {e};
      }
      IdleIsClean(m, old(sys), sys, p);
    }

    /** tw_sched_cancel_q: free every cancelled event, rolling back the KPs of those already processed. */
    method SchedCancelQ(p: int) returns (ghost freed: set<Ev>)
      requires Valid() && sys.phase(p) != Reducing && Idle(sys, p)
      modifies this
      ensures Valid() && Reaches(m, old(sys), sys) && NothingMarked(m, sys, p)
      ensures Settles(m, old(sys), sys, p, {}, freed) && forall f <- old(sys.marked) | PeOf(m, f) == p :: f in freed
      ensures Justified(m, Reverted(old(sys), sys), freed) && Clean(m, sys, p, Reverted(old(sys), sys))
    {
      hide Core, Reaches, Le, RolledBack, Undid, Exact, Settles, Justified, Clean;
      ReachesRefl(m, sys);
      SettlesRefl(m, sys, p);
      NothingToJustify(m, sys, {});
      freed := {};
      while !NothingMarked(m, sys, p)
        invariant Valid() && Reaches(m, old(sys), sys)
        invariant Settles(m, old(sys), sys, p, {}, freed) && Justified(m, Reverted(old(sys), sys), freed)
        invariant forall f <- old(sys.marked) | PeOf(m, f) == p :: f in freed || f in sys.marked
        invariant sys.phase(p) != Reducing && Idle(sys, p)
        decreases sys.done.Keys, sys.marked
      {
        ghost var before := sys;
        var e :| e in sys.marked && PeOf(m, e) == p;
        MarkedIsKnown(m, sys, e);
        if sys.place[e] == Processed {
          ghost var _, _ := RollbackEvent(e, KpOf(m, e));
        } else {
          FreeIsSettled(m, sys, e);
          Take(TakeCancelled(e));
        }
        ReachesTrans(m, old(sys), before, sys);
        FreedSettles(m, old(sys), before, sys, p, freed, e);
        freed := freed + {e};
      }
      IdleIsClean(m, old(sys), sys, p);
    }

    /** The least event of PE p's priority queue, if any. */
    method MinQueued(p: int) returns (r: Option<Ev>)
      ensures r == None ==> forall f <- sys.place | sys.place[f] == Pq :: PeOf(m, f) != p
      ensures r.Some? ==> var e := r.value;
        && e in sys.place && sys.place[e] == Pq && PeOf(m, e) == p
        && forall f <- sys.place | sys.place[f] == Pq && PeOf(m, f) == p :: Le(e.msg.sig, f.msg.sig)
    {
      LeIsTotalOrder();
      hide Le;
      var todo := set f | f in sys.place.Keys && sys.place[f] == Pq && PeOf(m, f) == p;
      r := None;
      while todo != {}
        invariant r == None ==> forall f <- sys.place | sys.place[f] == Pq && PeOf(m, f) == p :: f in todo
        invariant r.Some? ==> var e := r.value;
          && e in sys.place && sys.place[e] == Pq && PeOf(m, e) == p
          && forall f <- sys.place | sys.place[f] == Pq && PeOf(m, f) == p :: f in todo || Le(e.msg.sig, f.msg.sig)
        invariant forall f <- todo :: f in sys.place && sys.place[f] == Pq && PeOf(m, f) == p
        decreases todo
      {
        var f :| f in todo;
        if r == None || !Le(r.value.msg.sig, f.msg.sig) {
          r := Some(f);
        }
        todo := todo - {f};
      }
    }

    /** tw_net_minimum_sig_ptr: the least signature among PE p's waiting and unfinished sends. */
    method NetMinimum(p: int) returns (g: Sig)
      ensures IsMinimum(g, NetSigs(sys, p))
    {
      LeIsTotalOrder();
      hide Le;
      var todo := set e | e in sys.wire.Keys && !sys.wire[e].Sevent? && e.pe == p;
      g := MAX_SIG;
      while todo != {}
        invariant todo <= set e | e in sys.wire.Keys && !sys.wire[e].Sevent? && e.pe == p
        invariant Le(g, MAX_SIG) && (g == MAX_SIG || g in NetSigs(sys, p))
        invariant forall e <- sys.wire | !sys.wire[e].Sevent? && e.pe == p :: e in todo || Le(g, e.msg.sig)
        decreases todo
      {
        var e :| e in todo;
        if !Le(g, e.msg.sig) {
          g := e.msg.sig;
        }
        todo := todo - {e};
      }
    }

    /** The local minimum PE p contributes in step 2: transient messages, priority queue, unfinished sends. */
    method LocalMinimum(p: int) returns (g: Sig)
      requires Valid()
      ensures IsMinimum(g, LocalSigs(m, sys, p))
    {
      BoundsOf(m, sys);
      hide Le, Core;
      var top := MinQueued(p);
      var queued := if top.Some? then top.value.msg.sig else MAX_SIG;
      QueuedIsMinimum(m, sys, p, top);
      var net := NetMinimum(p);
      g := sys.trans(p);
      TransIsMinimum(sys, p);
      MinOfUnion(g, {sys.trans(p)}, queued, PqSigs(m, sys, p));
      g := if Le(g, queued) then g else queued;
      MinOfUnion(g, {sys.trans(p)} + PqSigs(m, sys, p), net, NetSigs(sys, p));
      g := if Le(g, net) then g else net;
    }

    /** tw_gvt_step2 over all PEs: nothing happens unless every PE waits and the white counts cancel out; then the least
        local minimum becomes GVT, never a smaller one than before, with no message under way. */
    method GvtStep2() returns (agreed: bool)
      requires Valid()
      modifies this
      ensures Valid() && Reaches(m, old(sys), sys)
      ensures agreed <==> White(old(sys.sent), old(sys.recv), m.numPes) == 0 && AllWaiting(m, old(sys), m.numPes)
      ensures !agreed ==> sys == old(sys)
      ensures agreed ==> IsMinimum(sys.gvt, AllSigs(m, old(sys), m.numPes)) && Le(old(sys.gvt), sys.gvt)
      ensures agreed ==> sys == DoGvtRound(old(sys), sys.gvt) && forall q, p :: sys.chan(q, p) == []
      ensures agreed ==>
        forall p :: sys.phase(p) == Running && sys.trans(p) == MAX_SIG && sys.sent(p) == sys.recv(p) == 0
    {
      hide Core, Reaches, Le, CanGvtRound, LocalSigs, IsMinimum;
      ReachesRefl(m, sys);
      var g, total, waiting := MAX_SIG, 0, true;
      NothingIsMinimum();
      for p := 0 to m.numPes
        invariant total == White(sys.sent, sys.recv, p) && (waiting <==> AllWaiting(m, sys, p))
        invariant IsMinimum(g, AllSigs(m, sys, p)) && sys == old(sys)
      {
        var local := LocalMinimum(p);
        MinOfUnion(g, AllSigs(m, sys, p), local, LocalSigs(m, sys, p));
        total := total + sys.sent(p) - sys.recv(p);
        waiting := waiting && sys.phase(p) == Reducing;
        g := if Le(g, local) then g else local;
      }
      agreed := waiting && total == 0;
      if agreed {
        RoundIsEnabled(m, sys, g);
        Take(GvtRound(g));
      }
    }

    /** tw_sched_batch: process the least queued event, n times or until the queue is empty. */
    method SchedBatch(p: int, n: nat) returns (ghost took: seq<Ev>)
      requires Valid() && sys.phase(p) == Running && Idle(sys, p)
      modifies this
      ensures Valid() && Reaches(m, old(sys), sys) && Idle(sys, p)
      ensures sys.gvt == old(sys.gvt) && sys.hist == old(sys.hist) && sys.phase == old(sys.phase)
      ensures Batch(m, old(sys), p, took, sys) && |took| <= n && (|took| < n ==> QueueEmpty(m, sys, p))
    {
      hide Core, Reaches, Le, CanProcess, Exec, Batch, QueueEmpty;
      ReachesRefl(m, sys);
      took := [];
      NoBatch(m, sys, p);
      for i := 0 to n
        invariant Valid() && Reaches(m, old(sys), sys) && Idle(sys, p)
        invariant sys.gvt == old(sys.gvt) && sys.hist == old(sys.hist) && sys.phase == old(sys.phase)
        invariant Batch(m, old(sys), p, took, sys) && |took| == i
      {
        var next := MinQueued(p);
        if next == None {
          NoneQueued(m, sys, p);
          return;
        }
        ghost var before := sys;
        ProcessIsEnabled(m, sys, next.value, p);
        BatchGrows(m, old(sys), p, took, sys, next.value);
        Take(Process(next.value));
        ReachesTrans(m, old(sys), before, sys);
        took := took + [next.value];
      }
    }

    /** tw_pe_fossil_collect: every KP of the PE commits what is below GVT. */
    method FossilCollect(kps: seq<int>)
      requires Valid()
      modifies this
      ensures Valid() && Reaches(m, old(sys), sys) && sys.gvt == old(sys.gvt)
      ensures forall k <- kps :: var n := CountBelow(old(sys.stack(k)), sys.gvt);
        sys.hist(k) == old(sys.hist(k)) + old(sys.stack(k))[..n] && sys.stack(k) == old(sys.stack(k))[n..]
      ensures forall k | k !in kps :: sys.hist(k) == old(sys.hist(k)) && sys.stack(k) == old(sys.stack(k))
      ensures forall k <- kps, i | 0 <= i < |sys.stack(k)| :: Le(sys.gvt, sys.stack(k)[i].msg.sig)
    {
      hide Core, Reaches, Le, CountBelow;
      ReachesRefl(m, sys);
      for i := 0 to |kps|
        invariant Valid() && Reaches(m, old(sys), sys) && sys.gvt == old(sys.gvt)
        invariant forall k :: if k in kps[..i] then Collected(m, old(sys), sys, k)
                              else sys.stack(k) == old(sys.stack(k)) && sys.hist(k) == old(sys.hist(k))
      {
        ghost var before := sys;
        ghost var k := kps[i];
        assert kps[..i + 1] == kps[..i] + [k];
        if k in kps[..i] {
          CollectAgain(m, old(sys), sys, k);
        }
        CollectedOnce(m, sys, k);
        Take(Fossil(kps[i]));
        ReachesTrans(m, old(sys), before, sys);
      }
      assert kps[..|kps|] == kps;
    }
  }

  lemma UndidFrame(m: Model, s: Sys, s': Sys, k: int, e: Ev, drop: bool)
    requires Undid(m, s, s', k, e, drop)
    ensures s.stack(k) == s'.stack(k) + [e] && s'.gvt == s.gvt && s'.phase == s.phase
    ensures forall p :: s'.undo(p) == s.undo(p)
    ensures forall x <- s.marked | x != e :: x in s'.marked
    ensures forall x <- s.place | x != e && s.place[x] == Processed :: x in s'.place && s'.place[x] == Processed
    ensures drop ==> e in s'.born && !Present(m, s', e) && e !in s'.marked
    ensures s'.done.Keys < s.done.Keys
    ensures Work(m, s', m.peOf(k)) <= Work(m, s, m.peOf(k))
  {
    hide Work, Present;
  }

  /** A cancelled processed event is on its KP's stack, and the newest event there can be undone. */
  lemma OnStack(m: Model, s: Sys, e: Ev, k: int)
    requires Core(m, s) && e in s.marked && e in s.place && s.place[e] == Processed && k == KpOf(m, e)
    requires Rollable(m, s, k, s.gvt)
    ensures s.stack(k) != [] && CanBeginUndo(m, s, k) && Le(e.msg.sig, Top(s, k).msg.sig)
  {
    hide ModelOk, Ids, Births, Histories, Owners, Marks, Ahead,
      Phases, Routes, Arriving, Stages, Antis, Lookup, KidsLive, Causes, Flights, LpsAgree, LinesRecorded;
    LeIsTotalOrder(); hide Le;
    var i :| 0 <= i < |s.stack(k)| && s.stack(k)[i] == e;
    assert i < |s.stack(k)| - 1 ==> Le(e.msg.sig, Top(s, k).msg.sig);
    assert Le(s.gvt, e.msg.sig);
  }

  lemma StragglerIsRollable(m: Model, s: Sys, e: Ev)
    requires Core(m, s) && e in EventQAt(m, s, PeOf(m, e)) && s.phase(PeOf(m, e)) != Reducing && Idle(s, PeOf(m, e))
    ensures Rollable(m, s, KpOf(m, e), e.msg.sig)
  {
    hide ModelOk, Ids, Births, Stacks, Histories, Dones, Owners, Marks, Sorted, Ahead,
      Phases, Routes, Arriving, Stages, Antis, Lookup, KidsLive, Causes, Flights, LpsAgree, LinesRecorded, Le;
  }

  /** A rollback leaves event_q alone. */
  lemma RolledBackFrame(m: Model, s: Sys, s': Sys, k: int, undone: seq<Ev>)
    requires Core(m, s) && RolledBack(m, s, s', k, undone)
    ensures EventQAt(m, s, m.peOf(k)) <= EventQAt(m, s', m.peOf(k)) && s.marked <= s'.marked
    ensures forall x <- s.place | s.place[x] == AntiMsg :: x in s'.place && s'.place[x] == AntiMsg
    ensures s'.phase == s.phase && forall p :: s'.undo(p) == s.undo(p)
    ensures Work(m, s', m.peOf(k)) <= Work(m, s, m.peOf(k))
  {
    hide ModelOk, Ids, Births, Histories, Dones, Owners, Marks, Sorted, Ahead,
      Bounds, Phases, Routes, Arriving, Stages, Antis, Lookup, KidsLive, Causes, Flights, LpsAgree, LinesRecorded, Le;
    hide Work, Present;
    assert forall i | 0 <= i < |undone| :: s.stack(k)[|s'.stack(k)| + i] == undone[i];
    hide Core;
  }

  lemma SecondaryFrame(m: Model, s: Sys, s1: Sys, s': Sys, k: int, undone: seq<Ev>, e: Ev)
    requires RolledBack(m, s, s1, k, undone) && Undid(m, s1, s', k, e, true) && s1.done.Keys <= s.done.Keys
    ensures s.stack(k) == s'.stack(k) + [e] + undone && KpOf(m, e) == k
    ensures s'.done.Keys <= s1.done.Keys && s'.done.Keys < s.done.Keys
    ensures forall x <- s.marked | x != e :: x in s'.marked
  {
    UndidFrame(m, s1, s', k, e, true);
    hide Work, Requeued, PutBack, KeepsOthers;
  }

  lemma SecondarySettles(m: Model, s: Sys, s1: Sys, s': Sys, k: int, undone: seq<Ev>, e: Ev)
    requires Settles(m, s, s1, m.peOf(k), {}, {}) && RolledBack(m, s, s1, k, undone)
    requires Undid(m, s1, s', k, e, true) && e in s1.marked && Core(m, s)
    requires forall u <- undone :: Le(e.msg.sig, u.msg.sig)
    ensures s.stack(k) == s'.stack(k) + [e] + undone
    ensures Settles(m, s, s', m.peOf(k), {}, {e}) && Justified(m, Reverted(s, s'), {e})
    ensures s'.done.Keys < s.done.Keys && forall x <- s.marked | x != e :: x in s'.marked
  {
    hide Settles, RolledBack, Undid, Core, Le, Justified;
    SettlesShrinks(m, s, s1, m.peOf(k), {}, {});
    SecondaryFrame(m, s, s1, s', k, undone, e);
    RollbackIsJustified(m, s, s1, k, undone, e);
    UndidSettles(m, s1, s', k, e, true);
    SelfJustified(m, e);
    JustifiedMore(m, s, s1, s', {e}, {e});
    SettlesTrans(m, s, s1, s', m.peOf(k), {}, {}, {}, {e});
    var none: set<Ev> := {};
    assert none + none == none && none + {e} == {e} && {e} + {e} == {e};
  }

  lemma TakenSettles(m: Model, s: Sys, s1: Sys, s2: Sys, s3: Sys, taken: set<Ev>, e: Ev, drop: bool)
    requires Settles(m, s, s1, PeOf(m, e), taken, {}) && Justified(m, Reverted(s, s1), taken)
    requires Settles(m, s1, s2, PeOf(m, e), {}, {}) && Justified(m, Reverted(s1, s2), {e})
    requires CanTakeEvent(m, s2, e, drop) && s3 == DoTakeEvent(s2, e, drop)
    ensures Settles(m, s, s3, PeOf(m, e), taken + {e}, {}) && Justified(m, Reverted(s, s3), taken + {e})
  {
    var p := PeOf(m, e);
    TakeSettles(m, s2, e, drop);
    hide CanTakeEvent, DoTakeEvent, Settles, Justified;
    SettlesShrinks(m, s, s1, p, taken, {});
    SettlesShrinks(m, s1, s2, p, {}, {});
    SettlesShrinks(m, s2, s3, p, {e}, {});
    SettlesTrans(m, s, s1, s2, p, taken, {}, {}, {});
    SettlesTrans(m, s, s2, s3, p, taken + {}, {} + {}, {e}, {});
    JustifiedMore(m, s, s1, s2, taken, {e});
    RevertedTrans(s, s2, s3);
    var none: set<Ev> := {};
    assert taken + none + {e} == taken + {e} && none + none + none == none;
    assert Reverted(s, s3) == Reverted(s, s2);
  }

  lemma FreeIsSettled(m: Model, s: Sys, e: Ev)
    requires Core(m, s) && CanTakeCancelled(m, s, e)
    ensures var s' := DoTakeCancelled(s, e);
            Settles(m, s, s', PeOf(m, e), {}, {e}) && Justified(m, Reverted(s, s'), {e})
  {
    hide ModelOk, Ids, Births, Stacks, Histories, Dones, Owners, Marks, Sorted, Ahead,
      Bounds, Phases, Routes, Arriving, Stages, Antis, Lookup, KidsLive, Causes, Flights, LpsAgree, LinesRecorded, Le;
    hide Settles;
    FreeSettles(m, s, e);
  }

  lemma FreedSettles(m: Model, s: Sys, s1: Sys, s2: Sys, p: int, freed: set<Ev>, e: Ev)
    requires Settles(m, s, s1, p, {}, freed) && Justified(m, Reverted(s, s1), freed)
    requires Settles(m, s1, s2, p, {}, {e}) && Justified(m, Reverted(s1, s2), {e})
    ensures Settles(m, s, s2, p, {}, freed + {e}) && Justified(m, Reverted(s, s2), freed + {e})
    ensures s2.phase == s1.phase && s2.undo(p) == s1.undo(p)
  {
    hide Settles, Justified;
    SettlesShrinks(m, s, s1, p, {}, freed);
    SettlesShrinks(m, s1, s2, p, {}, {e});
    SettlesTrans(m, s, s1, s2, p, {}, freed, {}, {e});
    JustifiedMore(m, s, s1, s2, freed, {e});
    var none: set<Ev> := {};
    assert none + none == none;
  }

  /** Once no newer event of its KP is processed, an event of event_q can be queued; that leaves less work. */
  lemma TakeIsEnabled(m: Model, s: Sys, e: Ev, drop: bool)
    requires Core(m, s) && e in EventQAt(m, s, PeOf(m, e)) && s.phase(PeOf(m, e)) != Reducing && Idle(s, PeOf(m, e))
    requires drop ==> e in s.marked
    requires drop || Le(s.last(KpOf(m, e)), e.msg.sig) || s.stack(KpOf(m, e)) == []
             || !Le(e.msg.sig, Top(s, KpOf(m, e)).msg.sig)
    ensures Enabled(m, s, TakeEvent(e, drop))
    ensures var s' := Apply(m, s, TakeEvent(e, drop));
            && s'.phase == s.phase && s'.undo == s.undo && s'.marked == s.marked
            && EventQAt(m, s', PeOf(m, e)) == EventQAt(m, s, PeOf(m, e)) - {e}
            && s'.place == s.place[e := if drop then AntiMsg else Pq]
            && Work(m, s', PeOf(m, e)) < Work(m, s, PeOf(m, e))
  {
    hide ModelOk, Ids, Births, Stacks, Histories, Dones, Owners, Marks,
      Bounds, Phases, Routes, Arriving, Stages, Antis, Lookup, KidsLive, Causes, Flights, LpsAgree, LinesRecorded;
    LeIsTotalOrder(); hide Le;
    var k, p, s' := KpOf(m, e), PeOf(m, e), DoTakeEvent(s, e, drop);
    if !drop {
      forall i | 0 <= i < |s.stack(k)| ensures Le(s.stack(k)[i].msg.sig, e.msg.sig) {
        assert i < |s.stack(k)| - 1 ==> Le(s.stack(k)[i].msg.sig, Top(s, k).msg.sig);
      }
    }
    InboxSame(s, s', p, m.numPes);
    assert EventQAt(m, s', p) == EventQAt(m, s, p) - {e};
  }

  lemma MarkedIsKnown(m: Model, s: Sys, e: Ev)
    requires Core(m, s) && e in s.marked && s.phase(PeOf(m, e)) != Reducing && Idle(s, PeOf(m, e))
    ensures e in s.place && (s.place[e] == Processed ==> Rollable(m, s, KpOf(m, e), s.gvt))
    ensures s.place[e] != Processed ==> Enabled(m, s, TakeCancelled(e))
  {
    hide ModelOk, Ids, Births, Stacks, Histories, Dones, Sorted, Ahead,
      Bounds, Phases, Routes, Arriving, Stages, Antis, Lookup, KidsLive, Causes, Flights, LpsAgree, LinesRecorded;
    LeIsTotalOrder(); hide Le;
  }

  /** From s to s' PE p has processed these events, each the least it had queued. */
  ghost predicate Batch(m: Model, s: Sys, p: int, took: seq<Ev>, s': Sys)
    decreases |took|
  {
    if took == [] then s == s'
    else CanProcess(m, s, took[0]) && PeOf(m, took[0]) == p && Batch(m, DoProcess(m, s, took[0]), p, took[1..], s')
  }

  predicate QueueEmpty(m: Model, s: Sys, p: int) {
    forall f <- s.place | s.place[f] == Pq :: PeOf(m, f) != p
  }

  lemma NoBatch(m: Model, s: Sys, p: int)
    ensures Batch(m, s, p, [], s)
  {
  }

  lemma NoneQueued(m: Model, s: Sys, p: int)
    requires forall f <- s.place | s.place[f] == Pq :: PeOf(m, f) != p
    ensures QueueEmpty(m, s, p)
  {
  }

  lemma {:induction false} BatchGrows(m: Model, s: Sys, p: int, took: seq<Ev>, s1: Sys, e: Ev)
    requires Batch(m, s, p, took, s1) && CanProcess(m, s1, e) && PeOf(m, e) == p
    ensures Batch(m, s, p, took + [e], DoProcess(m, s1, e))
    decreases |took|
  {
    hide CanProcess, DoProcess;
    if took == [] {
      assert (took + [e])[1..] == [];
    } else {
      assert (took + [e])[1..] == took[1..] + [e];
      BatchGrows(m, DoProcess(m, s, took[0]), p, took[1..], s1, e);
    }
  }

  /** A batch processes events in order of signature: what a handler sends is later than the event it handles. */
  lemma {:induction false} BatchIsOrdered(m: Model, s: Sys, p: int, took: seq<Ev>, s': Sys)
    requires Core(m, s) && Batch(m, s, p, took, s')
    ensures forall i, j | 0 <= i < j < |took| :: Le(took[i].msg.sig, took[j].msg.sig)
    decreases |took|
  {
    hide Le, CanProcess, DoProcess, Core, ModelOk, QueuedFrom;
    if took != [] {
      var s1 := DoProcess(m, s, took[0]);
      ProcessKeepsCore(m, s, took[0]);
      NextIsAccepted(m, s, took[0]);
      LeastQueued(m, s, took[0], p);
      BatchIsOrdered(m, s1, p, took[1..], s');
      BatchIsLater(m, s1, p, took[1..], s', took[0].msg.sig);
    }
  }

  /** Nothing PE p has queued is earlier than sig. */
  predicate QueuedFrom(m: Model, s: Sys, p: int, sig: Sig) {
    forall f <- s.place | s.place[f] == Pq && PeOf(m, f) == p :: Le(sig, f.msg.sig)
  }

  lemma NextIsAccepted(m: Model, s: Sys, e: Ev)
    requires Core(m, s) && CanProcess(m, s, e)
    ensures ModelOk(m) && PrioOk(e.msg.sig)
  {
    hide Ids, Stacks, Histories, Dones, Owners, Marks, Sorted, Ahead, Bounds, Phases, Routes, Arriving, Stages, Antis,
      Lookup, KidsLive, Causes, Flights, LpsAgree, LinesRecorded, Le;
  }

  lemma {:induction false} LeastQueued(m: Model, s: Sys, e: Ev, p: int)
    requires ModelOk(m) && PrioOk(e.msg.sig) && CanProcess(m, s, e) && PeOf(m, e) == p
    ensures QueuedFrom(m, DoProcess(m, s, e), p, e.msg.sig)
  {
    var outs := Exec(m, s.lp(e.msg.dest), e.msg).outs;
    LeIsTotalOrder();
    forall i | 0 <= i < |outs| ensures Le(e.msg.sig, outs[i].sig) {
      ChildrenAreLater(m, s.lp(e.msg.dest), e.msg, i);
    }
    hide Le, Exec, ModelOk;
  }

  lemma StillFrom(m: Model, s: Sys, p: int, e: Ev, sig: Sig)
    requires Core(m, s) && CanProcess(m, s, e) && PeOf(m, e) == p && QueuedFrom(m, s, p, sig)
    ensures Le(sig, e.msg.sig) && QueuedFrom(m, DoProcess(m, s, e), p, sig)
  {
    LeIsTotalOrder();
    hide Core, ModelOk;
    NextIsAccepted(m, s, e);
    LeastQueued(m, s, e, p);
    hide Le, DoProcess;
  }

  lemma {:induction false} BatchIsLater(m: Model, s: Sys, p: int, took: seq<Ev>, s': Sys, sig: Sig)
    requires Core(m, s) && Batch(m, s, p, took, s') && QueuedFrom(m, s, p, sig)
    ensures forall j | 0 <= j < |took| :: Le(sig, took[j].msg.sig)
    decreases |took|
  {
    hide Le, CanProcess, DoProcess, Core, QueuedFrom;
    if took != [] {
      ProcessKeepsCore(m, s, took[0]);
      StillFrom(m, s, p, took[0], sig);
      BatchIsLater(m, DoProcess(m, s, took[0]), p, took[1..], s', sig);
    }
  }

  lemma ProcessIsEnabled(m: Model, s: Sys, e: Ev, p: int)
    requires s.phase(p) == Running && Idle(s, p) && e in s.place && s.place[e] == Pq && PeOf(m, e) == p
    requires forall f <- s.place | s.place[f] == Pq && PeOf(m, f) == p :: Le(e.msg.sig, f.msg.sig)
    ensures Enabled(m, s, Process(e))
    ensures var s' := Apply(m, s, Process(e));
            s'.phase == s.phase && s'.undo == s.undo && s'.gvt == s.gvt && s'.hist == s.hist
  {
    hide Le, Exec;
  }

  /** KP k has committed what was below GVT and nothing else. */
  ghost predicate Collected(m: Model, s: Sys, s': Sys, k: int) {
    var n := CountBelow(s.stack(k), s.gvt);
    && s'.hist(k) == s.hist(k) + s.stack(k)[..n] && s'.stack(k) == s.stack(k)[n..]
    && forall i | 0 <= i < |s'.stack(k)| :: Le(s.gvt, s'.stack(k)[i].msg.sig)
  }

  lemma CollectedOnce(m: Model, s: Sys, k: int)
    requires Core(m, s)
    ensures Collected(m, s, DoFossil(s, k), k)
    ensures forall k' :: k' != k ==> DoFossil(s, k).stack(k') == s.stack(k') && DoFossil(s, k).hist(k') == s.hist(k')
  {
    hide ModelOk, Ids, Births, Stacks, Histories, Dones, Owners, Marks, Sorted, Ahead,
      Bounds, Phases, Routes, Arriving, Stages, Antis, Lookup, KidsLive, Causes, Flights, LpsAgree, LinesRecorded, Le;
    FossilFacts(m, s, k);
    hide CountBelow, Core;
  }

  lemma CollectAgain(m: Model, s: Sys, s': Sys, k: int)
    requires Collected(m, s, s', k) && s'.gvt == s.gvt
    ensures CountBelow(s'.stack(k), s'.gvt) == 0
  {
    hide Le;
  }

  lemma QuietRefl(m: Model, s: Sys, e: Ev)
    ensures Quiet(m, s, s, e)
  {
  }

  lemma QuietKeepsUndo(m: Model, s: Sys, s': Sys, e: Ev)
    requires Quiet(m, s, s', e)
    ensures s'.undo == s.undo && s'.stack == s.stack && s'.gvt == s.gvt && s'.phase == s.phase && s.marked <= s'.marked
  {
  }

  lemma TopIsOnTop(m: Model, s: Sys, k: int)
    requires s.stack(k) != [] && Core(m, s)
    ensures OnTop(m, s, k) && Top(s, k) in s.born
  {
    hide Le, ModelOk, Ids, Stacks, Histories, Dones, Owners, Marks, Sorted, Ahead,
      Bounds, Phases, Routes, Arriving, Stages, Antis, Lookup, KidsLive, Causes, Flights, LpsAgree, LinesRecorded;
    TopFacts(m, s, k);
  }

  lemma EndFacts(m: Model, s: Sys, p: int)
    requires Core(m, s) && s.undo(p).Some?
    ensures Arriving(m, s) && Stages(m, s) && Undone(m, s, p)
  {
    hide Le, ModelOk, Ids, Births, Stacks, Histories, Dones, Owners, Marks, Sorted, Ahead,
      Bounds, Phases, Routes, Arriving, Stages, Antis, Lookup, KidsLive, Causes, Flights, LpsAgree, LinesRecorded;
    UndoFacts(m, s, p);
  }

  lemma BeginIsEnabled(m: Model, s: Sys, k: int)
    requires CanBeginUndo(m, s, k) && Core(m, s)
    ensures Enabled(m, s, BeginUndo(k)) && Apply(m, s, BeginUndo(k)) == DoBeginUndo(m, s, k)
    ensures var e, s' := Top(s, k), DoBeginUndo(m, s, k);
            s'.undo(m.peOf(k)) == Some(e) && e in s'.done && PeOf(m, e) == m.peOf(k)
  {
    hide Le, ModelOk, Ids, Births, Histories, Dones, Owners, Marks, Sorted, Ahead,
      Bounds, Phases, Routes, Arriving, Stages, Antis, Lookup, KidsLive, Causes, Flights, LpsAgree, LinesRecorded;
  }

  lemma CancelIsEnabled(m: Model, s: Sys, p: int)
    requires CanCancelKid(s, p)
    ensures Enabled(m, s, CancelKid(p)) && Apply(m, s, CancelKid(p)) == DoCancelKid(m, s, p)
    ensures var e, s' := s.undo(p).value, DoCancelKid(m, s, p);
            s'.undo(p) == Some(e) && e in s'.done && |s'.done[e].kids| < |s.done[e].kids|
  {
  }

  lemma EndIsEnabled(m: Model, s: Sys, k: int, s1: Sys, p: int, drop: bool, reset: bool)
    requires Core(m, s) && CanBeginUndo(m, s, k) && p == m.peOf(k) && (drop ==> Top(s, k) in s.marked)
    requires Quiet(m, DoBeginUndo(m, s, k), s1, Top(s, k))
    requires s1.undo(p) == Some(Top(s, k)) && Top(s, k) in s1.done && !CanCancelKid(s1, p)
    ensures CanEndUndo(s1, p, drop) && Enabled(m, s1, EndUndo(p, drop, reset))
    ensures var s' := Apply(m, s1, EndUndo(p, drop, reset));
            s' == DoEndUndo(m, s1, p, drop, reset) && LastIs(s, s', k, reset)
  {
    hide Le, ModelOk, Ids, Births, Stacks, Histories, Dones, Owners, Marks, Sorted, Ahead,
      Bounds, Phases, Routes, Arriving, Stages, Antis, Lookup, KidsLive, Causes, Flights, LpsAgree, LinesRecorded;
    TopFacts(m, s, k);
    hide Core;
  }
}
