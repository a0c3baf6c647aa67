/** Counting messages, and replaying events: the invariants about GVT and about LP states. */
module TimeWarpEffects {
  import opened EventSignature
  import opened LpModel
  import opened TimeWarp
  import opened TimeWarpInvariants
  import opened TimeWarpFacts

  lemma {:induction false} RowLenUpd(chan: (int, int) -> seq<Packet>, q: int, p: int, v: seq<Packet>, x: int, n: nat)
    requires 0 <= p
    ensures RowLen(Upd2(chan, q, p, v), x, n) == RowLen(chan, x, n) + if x == q && p < n then |v| - |chan(q, p)| else 0
  {
    if n > 0 {
      RowLenUpd(chan, q, p, v, x, n - 1);
    }
  }

  lemma {:induction false} InFlightUpd(chan: (int, int) -> seq<Packet>, q: int, p: int, v: seq<Packet>, nq: nat, n: nat)
    requires 0 <= p < n && 0 <= q
    ensures InFlight(Upd2(chan, q, p, v), nq, n) == InFlight(chan, nq, n) + if q < nq then |v| - |chan(q, p)| else 0
  {
    if nq > 0 {
      InFlightUpd(chan, q, p, v, nq - 1, n);
      RowLenUpd(chan, q, p, v, nq - 1, n);
    }
  }

  lemma {:induction false} WhiteUpd(sent: int -> int, recv: int -> int, p: int, d: int, n: nat)
    requires 0 <= p
    ensures White(Upd(sent, p, sent(p) + d), recv, n) == White(sent, recv, n) + if p < n then d else 0
    ensures White(sent, Upd(recv, p, recv(p) + d), n) == White(sent, recv, n) - if p < n then d else 0
  {
    if n > 0 {
      WhiteUpd(sent, recv, p, d, n - 1);
    }
  }

  lemma {:induction false} RowLenBound(chan: (int, int) -> seq<Packet>, q: int, p: int, n: nat)
    requires 0 <= p < n
    ensures |chan(q, p)| <= RowLen(chan, q, n)
  {
    if p < n - 1 {
      RowLenBound(chan, q, p, n - 1);
    }
  }

  /** If nothing is counted as under way, every channel is empty. */
  lemma {:induction false} InFlightBound(chan: (int, int) -> seq<Packet>, q: int, p: int, nq: nat, n: nat)
    requires 0 <= p < n && 0 <= q < nq
    ensures |chan(q, p)| <= InFlight(chan, nq, n)
  {
    if q < nq - 1 {
      InFlightBound(chan, q, p, nq - 1, n);
    } else {
      RowLenBound(chan, q, p, n);
    }
  }

  lemma {:induction false} ZeroWhite(n: nat)
    ensures White(_ => 0, _ => 0, n) == 0
  {
    if n > 0 {
      ZeroWhite(n - 1);
    }
  }

  lemma {:induction false} PostKeepsFlights(m: Model, s: Sys, e: Ev)
    requires CanPost(s, e) && Leaves(m, s, e) && Flights(m, s)
    ensures Flights(m, DoPost(m, s, e))
  {
    var q, p := e.pe, PeOf(m, e);
    InFlightUpd(s.chan, q, p, s.chan(q, p) + [Packet(e, s.wire[e].OutqAnti?)], m.numPes, m.numPes);
    WhiteUpd(s.sent, s.recv, q, 1, m.numPes);
  }

  lemma {:induction false} ReceiveKeepsFlights(m: Model, s: Sys, q: int, p: int)
    requires s.chan(q, p) != [] && Flights(m, s)
    ensures Flights(m, DoReceive(m, s, q, p))
  {
    InFlightUpd(s.chan, q, p, s.chan(q, p)[1..], m.numPes, m.numPes);
    WhiteUpd(s.sent, s.recv, p, 1, m.numPes);
  }

  /** Once every PE waits in step 2 and the white counts cancel out, nothing is under way. */
  lemma NothingInFlight(m: Model, s: Sys, g: Sig)
    requires CanGvtRound(m, s, g) && Flights(m, s)
    ensures forall q, p :: s.chan(q, p) == []
  {
    forall q, p ensures s.chan(q, p) == [] {
      if s.chan(q, p) != [] {
        InFlightBound(s.chan, q, p, m.numPes, m.numPes);
      }
    }
  }

  lemma {:induction false} GvtRoundKeepsFlights(m: Model, s: Sys, g: Sig)
    requires CanGvtRound(m, s, g) && Flights(m, s)
    ensures Flights(m, DoGvtRound(s, g))
  {
    NothingInFlight(m, s, g);
    ZeroWhite(m.numPes);
    var s' := DoGvtRound(s, g);
    WhiteOnlyReads(s'.sent, s'.recv, m.numPes);
  }

  lemma {:induction false} WhiteOnlyReads(sent: int -> int, recv: int -> int, n: nat)
    requires forall p :: sent(p) == 0 && recv(p) == 0
    ensures White(sent, recv, n) == 0
  {
    if n > 0 {
      WhiteOnlyReads(sent, recv, n - 1);
    }
  }

  lemma {:induction false} GvtIsMonotone(m: Model, s: Sys, g: Sig)
    requires CanGvtRound(m, s, g) && Bounds(m, s) && Births(m, s)
    ensures Le(s.gvt, g) && Le(g, MAX_SIG)
  {
    LeIsTotalOrder(); hide Le;
  }

  /** The agreed minimum is a lower bound on all that is unprocessed or cancelled. */
  lemma {:induction false} GvtIsLower(m: Model, s: Sys, g: Sig)
    requires forall k {:trigger m.peOf(k)} :: 0 <= m.peOf(k) < m.numPes
    requires CanGvtRound(m, s, g) && Phases(m, s) && Owners(m, s) && Marks(s)
    ensures forall e <- s.place | s.place[e] in {EventQ, Pq, AntiMsg, Undoing} :: Le(g, e.msg.sig)
    ensures forall e <- s.marked :: Le(g, e.msg.sig)
  {
    LeIsTotalOrder(); hide Le;
    forall e <- s.marked ensures Le(g, e.msg.sig) {
      assert 0 <= m.peOf(KpOf(m, e)) < m.numPes;
    }
    forall e <- s.place | s.place[e] in {EventQ, Pq, AntiMsg, Undoing} ensures Le(g, e.msg.sig) {
      assert 0 <= m.peOf(KpOf(m, e)) < m.numPes;
    }
  }

  /** A GVT round yields a lower bound on everything that can still happen, no earlier than the old one. */
  lemma {:induction false} GvtRoundKeepsBounds(m: Model, s: Sys, g: Sig)
    requires ModelOk(m) && CanGvtRound(m, s, g) && Bounds(m, s) && Phases(m, s) && Owners(m, s) && Marks(s)
    requires Flights(m, s)
    requires Births(m, s)
    ensures Bounds(m, DoGvtRound(s, g)) && Le(s.gvt, g)
  {
    GvtIsMonotone(m, s, g);
    GvtIsLower(m, s, g);
    NothingInFlight(m, s, g);
    LeIsTotalOrder();
    hide Le, ModelOk, Flights, Phases, Owners, Births;
  }

  lemma {:induction false} RewindUndoesAdvance(m: Model, rng: Rng, n: nat)
    requires ModelOk(m)
    ensures Rewind(m, Advance(m, rng, n), n) == rng
  {
    if n > 0 {
      RewindUndoesAdvance(m, rng, n - 1);
    }
  }

  /** Lines only grow or shrink at the end. */
  lemma LineOf(s: Sys, s': Sys, k: int, line: seq<Ev>)
    requires s'.hist == s.hist && s'.stack == Upd(s.stack, k, line)
    ensures Line(s', k) == s.hist(k) + line
    ensures forall k' | k' != k :: Line(s', k') == Line(s, k')
  {
  }

  lemma ReplayAppend(m: Model, line: seq<Ev>, e: Ev, l: int)
    ensures Replay(m, line + [e], l) ==
            if e.msg.dest == l then Exec(m, Replay(m, line, l), e.msg).lp else Replay(m, line, l)
  {
    assert (line + [e])[..|line|] == line;
  }

  lemma RecordedFrame(m: Model, s: Sys, s': Sys, before: seq<Ev>, e: Ev)
    requires Recorded(m, s, before, e) && e in s'.done && s'.done[e] == s.done[e]
    ensures Recorded(m, s', before, e)
  {
    hide Exec, Replay;
  }

  lemma ProcessedIsRecorded(m: Model, s: Sys, e: Ev)
    requires CanProcess(m, s, e) && LpAgrees(m, s, e.msg.dest)
    ensures Recorded(m, DoProcess(m, s, e), Line(s, KpOf(m, e)), e)
  {
  }

  lemma {:induction false} ProcessKeepsLpsAgree(m: Model, s: Sys, e: Ev)
    requires CanProcess(m, s, e) && e !in s.done && LpsAgree(m, s)
    ensures LpsAgree(m, DoProcess(m, s, e))
  {
    var k := KpOf(m, e);
    var s' := DoProcess(m, s, e);
    LineOf(s, s', k, s.stack(k) + [e]);
    assert Line(s', k) == Line(s, k) + [e];
    forall l ensures LpAgrees(m, s', l) {
      assert LpAgrees(m, s, l);
      ReplayAppend(m, Line(s, k), e, l);
      hide Exec, Replay, Line, CanProcess;
    }
  }

  lemma {:induction false} ProcessKeepsLinesRecorded(m: Model, s: Sys, e: Ev)
    requires CanProcess(m, s, e) && e !in s.done && LpsAgree(m, s) && LinesRecorded(m, s)
    ensures LinesRecorded(m, DoProcess(m, s, e))
  {
    var k := KpOf(m, e);
    var s' := DoProcess(m, s, e);
    LineOf(s, s', k, s.stack(k) + [e]);
    assert Line(s', k) == Line(s, k) + [e];
    assert LpAgrees(m, s, e.msg.dest);
    ProcessedIsRecorded(m, s, e);
    forall k', i | 0 <= i < |Line(s', k')| ensures Recorded(m, s', Line(s', k')[..i], Line(s', k')[i]) {
      if k' == k && i == |Line(s, k)| {
        assert Line(s', k)[..i] == Line(s, k);
      } else {
        assert Line(s', k')[..i] == Line(s, k')[..i];
        assert Recorded(m, s, Line(s, k')[..i], Line(s, k')[i]);
        RecordedFrame(m, s, s', Line(s, k')[..i], Line(s, k')[i]);
      }
      hide Recorded, Line, Exec;
    }
  }

  /** What is recorded of the newest event, and the state of its LP, are those its handler yielded. */
  lemma TopRecorded(m: Model, s: Sys, k: int)
    requires s.stack(k) != [] && KpOf(m, Top(s, k)) == k && s.undo(m.peOf(k)) == None
    requires LpsAgree(m, s) && LinesRecorded(m, s)
    ensures var e, before := Top(s, k), s.hist(k) + s.stack(k)[..|s.stack(k)| - 1];
            Recorded(m, s, before, e) && s.lp(e.msg.dest) == Exec(m, Replay(m, before, e.msg.dest), e.msg).lp
  {
    var e, before := Top(s, k), s.hist(k) + s.stack(k)[..|s.stack(k)| - 1];
    assert Line(s, k) == before + [e];
    assert Line(s, k)[..|before|] == before;
    assert Recorded(m, s, Line(s, k)[..|before|], Line(s, k)[|before|]);
    assert LpAgrees(m, s, e.msg.dest);
    ReplayAppend(m, before, e, e.msg.dest);
    hide Exec, Replay, Recorded;
  }

  /** Undoing the newest event gives back the state its LP had before it, with the random stream ahead by one draw
      for each send. */
  lemma {:induction false} UndoneState(m: Model, s: Sys, k: int)
    requires ModelOk(m) && CanBeginUndo(m, s, k) && OnTop(m, s, k) && LpsAgree(m, s) && LinesRecorded(m, s)
    ensures var e, before := Top(s, k), s.hist(k) + s.stack(k)[..|s.stack(k)| - 1];
            var x := Replay(m, before, e.msg.dest);
            && m.revert(s.lp(e.msg.dest).st, s.done[e].saved) == x.st
            && s.lp(e.msg.dest).rng == Advance(m, x.rng, |s.done[e].kids| + s.done[e].aborted)
  {
    var e, before := Top(s, k), s.hist(k) + s.stack(k)[..|s.stack(k)| - 1];
    TopRecorded(m, s, k);
    hide LpsAgree, LinesRecorded;
    ExecIsReversible(m, Replay(m, before, e.msg.dest), e.msg);
    hide Exec, Replay, ModelOk;
  }

  lemma BeginUndoOtherLp(m: Model, s: Sys, k: int, l: int)
    requires CanBeginUndo(m, s, k) && KpOf(m, Top(s, k)) == k && l != Top(s, k).msg.dest && LpAgrees(m, s, l)
    ensures LpAgrees(m, DoBeginUndo(m, s, k), l)
  {
    var e, s' := Top(s, k), DoBeginUndo(m, s, k);
    if m.kpOf(l) == k {
      assert Line(s, k) == Line(s', k) + [e];
      ReplayAppend(m, Line(s', k), e, l);
    } else {
      assert Line(s, m.kpOf(l)) == Line(s', m.kpOf(l));
    }
    hide Exec, Replay, Line, Advance;
  }

  lemma {:induction false} BeginUndoKeepsLpsAgree(m: Model, s: Sys, k: int)
    requires ModelOk(m) && CanBeginUndo(m, s, k) && OnTop(m, s, k) && LpsAgree(m, s) && LinesRecorded(m, s)
    ensures LpsAgree(m, DoBeginUndo(m, s, k))
  {
    var e, s' := Top(s, k), DoBeginUndo(m, s, k);
    UndoneState(m, s, k);
    forall l ensures LpAgrees(m, s', l) {
      assert LpAgrees(m, s, l);
      if l == e.msg.dest {
        assert Line(s', k) == s.hist(k) + s.stack(k)[..|s.stack(k)| - 1];
        hide Exec, Replay, Line, Advance, LinesRecorded, ModelOk;
      } else {
        BeginUndoOtherLp(m, s, k, l);
        hide *;
      }
    }
  }

  lemma {:induction false} BeginUndoKeepsLinesRecorded(m: Model, s: Sys, k: int)
    requires CanBeginUndo(m, s, k) && LinesRecorded(m, s)
    ensures LinesRecorded(m, DoBeginUndo(m, s, k))
  {
    var s' := DoBeginUndo(m, s, k);
    LineOf(s, s', k, s.stack(k)[..|s.stack(k)| - 1]);
    PrefixRecorded(m, s, s');
  }

  /** Shortening lines, and forgetting records of events that are on no line, keeps what remains recorded. */
  lemma {:induction false} PrefixRecorded(m: Model, s: Sys, s': Sys)
    requires LinesRecorded(m, s)
    requires forall k :: Line(s', k) <= Line(s, k)
    requires forall k, i | 0 <= i < |Line(s', k)| ::
               var e := Line(s', k)[i]; e in s.done ==> e in s'.done && s'.done[e] == s.done[e]
    ensures LinesRecorded(m, s')
  {
    forall k, i | 0 <= i < |Line(s', k)| ensures Recorded(m, s', Line(s', k)[..i], Line(s', k)[i]) {
      assert Line(s', k)[..i] == Line(s, k)[..i];
      assert Recorded(m, s, Line(s, k)[..i], Line(s, k)[i]);
      RecordedFrame(m, s, s', Line(s, k)[..i], Line(s, k)[i]);
    }
  }

  lemma {:induction false} CancelKidKeepsLpsAgree(m: Model, s: Sys, p: int)
    requires ModelOk(m) && CanCancelKid(s, p) && Undone(m, s, p) && Owners(m, s) && Marks(s) && LpsAgree(m, s)
    ensures LpsAgree(m, DoCancelKid(m, s, p))
  {
    var e, s' := s.undo(p).value, DoCancelKid(m, s, p);
    var n := |s'.done[e].kids| + s'.done[e].aborted;
    forall l ensures LpAgrees(m, s', l) {
      assert LpAgrees(m, s, l);
      var x := Replay(m, Line(s, m.kpOf(l)), l);
      assert Line(s', m.kpOf(l)) == Line(s, m.kpOf(l));
      assert Advance(m, x.rng, n + 1) == m.next(Advance(m, x.rng, n));
      hide Replay, Advance;
    }
  }

  lemma {:induction false} CancelKidKeepsLinesRecorded(m: Model, s: Sys, p: int)
    requires CanCancelKid(s, p) && Undone(m, s, p) && Stacks(m, s) && Histories(m, s) && LinesRecorded(m, s)
    ensures LinesRecorded(m, DoCancelKid(m, s, p))
  {
    UndoneNotOnLine(m, s, p);
    PrefixRecorded(m, s, DoCancelKid(m, s, p));
  }

  lemma UndoneNotOnLine(m: Model, s: Sys, p: int)
    requires Undone(m, s, p) && Stacks(m, s) && Histories(m, s)
    ensures forall k, i | 0 <= i < |Line(s, k)| :: Line(s, k)[i] != s.undo(p).value
  {
  }

  lemma {:induction false} EndUndoKeepsLpsAgree(m: Model, s: Sys, p: int, drop: bool, reset: bool)
    requires ModelOk(m) && CanEndUndo(s, p, drop) && Undone(m, s, p) && Owners(m, s) && Marks(s) && LpsAgree(m, s)
    ensures LpsAgree(m, DoEndUndo(m, s, p, drop, reset))
  {
    var e, s' := s.undo(p).value, DoEndUndo(m, s, p, drop, reset);
    forall l ensures LpAgrees(m, s', l) {
      assert LpAgrees(m, s, l);
      var x := Replay(m, Line(s, m.kpOf(l)), l);
      assert Line(s', m.kpOf(l)) == Line(s, m.kpOf(l));
      RewindUndoesAdvance(m, x.rng, s.done[e].aborted);
      hide Replay, Advance, Rewind;
    }
  }

  lemma {:induction false} EndUndoKeepsLinesRecorded(m: Model, s: Sys, p: int, drop: bool, reset: bool)
    requires CanEndUndo(s, p, drop) && Undone(m, s, p) && Stacks(m, s) && Histories(m, s) && LinesRecorded(m, s)
    ensures LinesRecorded(m, DoEndUndo(m, s, p, drop, reset))
  {
    UndoneNotOnLine(m, s, p);
    PrefixRecorded(m, s, DoEndUndo(m, s, p, drop, reset));
  }

  /** Fossil collection moves events from the stack to the history; the lines stay as they are. */
  lemma {:induction false} FossilKeepsLines(s: Sys, k: int, n: int)
    requires 0 <= n <= |s.stack(k)|
    ensures forall k' :: Line(Collect(s, k, n), k') == Line(s, k')
  {
    assert s.stack(k) == s.stack(k)[..n] + s.stack(k)[n..];
  }

  lemma {:induction false} FossilKeepsLpsAgree(m: Model, s: Sys, k: int, n: int)
    requires 0 <= n <= |s.stack(k)| && LpsAgree(m, s)
    ensures LpsAgree(m, Collect(s, k, n))
  {
    FossilKeepsLines(s, k, n);
    forall l ensures LpAgrees(m, Collect(s, k, n), l) {
      assert LpAgrees(m, s, l);
    }
  }

  lemma {:induction false} FossilKeepsLinesRecorded(m: Model, s: Sys, k: int, n: int)
    requires 0 <= n <= |s.stack(k)| && LinesRecorded(m, s)
    ensures LinesRecorded(m, Collect(s, k, n))
  {
    FossilKeepsLines(s, k, n);
    PrefixRecorded(m, s, Collect(s, k, n));
  }

  // ---------- what an action leaves alone ----------

  lemma FrameQueues(m: Model, s: Sys, s': Sys)
    ensures s'.born == s.born && s'.num == s.num && Ids(m, s) ==> Ids(m, s')
    ensures s'.born == s.born && s'.place == s.place && s'.wire == s.wire && s'.chan == s.chan && Births(m, s) ==>
              Births(m, s')
    ensures s'.place == s.place && s'.stack == s.stack && Stacks(m, s) ==> Stacks(m, s')
    ensures s'.place == s.place && s'.hist == s.hist && Histories(m, s) ==> Histories(m, s')
    ensures s'.place == s.place && s'.done == s.done && Dones(s) ==> Dones(s')
    ensures s'.place == s.place && s'.undo == s.undo && Owners(m, s) ==> Owners(m, s')
    ensures s'.place == s.place && s'.marked == s.marked && Marks(s) ==> Marks(s')
    ensures s'.stack == s.stack && s'.hist == s.hist && Sorted(s) ==> Sorted(s')
    ensures s'.place == s.place && s'.stack == s.stack && s'.last == s.last && Ahead(m, s) ==> Ahead(m, s')
  { hide Le; }

  lemma FrameTraffic(m: Model, s: Sys, s': Sys)
    ensures s'.gvt == s.gvt && s'.place == s.place && s'.marked == s.marked && s'.wire == s.wire && s'.chan == s.chan
            && s'.trans == s.trans && Bounds(m, s) ==>
              Bounds(m, s')
    ensures s'.place == s.place && s'.marked == s.marked && s'.phase == s.phase && s'.trans == s.trans
            && s'.undo == s.undo && Phases(m, s) ==>
              Phases(m, s')
    ensures s'.wire == s.wire && s'.chan == s.chan && Routes(m, s) ==> Routes(m, s')
    ensures s'.place == s.place && s'.chan == s.chan && Arriving(m, s) ==> Arriving(m, s')
    ensures s'.place == s.place && s'.marked == s.marked && s'.wire == s.wire && s'.chan == s.chan && Stages(m, s) ==>
              Stages(m, s')
    ensures s'.place == s.place && s'.marked == s.marked && s'.chan == s.chan && Antis(m, s) ==> Antis(m, s')
    ensures s'.place == s.place && s'.marked == s.marked && s'.index == s.index && Lookup(m, s) ==> Lookup(m, s')
  { hide Le; }

  lemma FrameCauses(m: Model, s: Sys, s': Sys)
    requires s'.done == s.done && s'.place == s.place && s'.marked == s.marked && s'.wire == s.wire
    requires s'.chan == s.chan
    requires KidsLive(m, s) && Causes(m, s)
    ensures KidsLive(m, s') && Causes(m, s')
  {
    assert forall x {:trigger Live(m, s', x)} :: Live(m, s', x) <==> Live(m, s, x);
    hide Live;
  }

  lemma FrameFlights(m: Model, s: Sys, s': Sys)
    requires s'.sent == s.sent && s'.recv == s.recv && s'.chan == s.chan && Flights(m, s)
    ensures Flights(m, s')
  {
  }

  lemma FrameReplays(m: Model, s: Sys, s': Sys)
    requires s'.hist == s.hist && s'.stack == s.stack && s'.undo == s.undo && s'.done == s.done && s'.lp == s.lp
    requires LpsAgree(m, s) && LinesRecorded(m, s)
    ensures LpsAgree(m, s') && LinesRecorded(m, s')
  {
    assert forall k :: Line(s', k) == Line(s, k);
    forall l ensures LpAgrees(m, s', l) {
      assert LpAgrees(m, s, l);
    }
    PrefixRecorded(m, s, s');
  }
}
