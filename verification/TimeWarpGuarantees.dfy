/** The fatal errors of the kernel are unreachable, committed work is final, and every remote event goes through its
    life cycle once. */
module TimeWarpGuarantees {
  import opened EventSignature
  import opened LpModel
  import opened TimeWarp
  import opened TimeWarpInvariants
  import opened TimeWarpFacts
  import opened TimeWarpEffects
  import opened TimeWarpSafety

  lemma Reached(m: Model, run: seq<Action>, s: Sys)
    requires ModelOk(m) && Runs(m, InitSys(m), run, s)
    ensures Core(m, s)
  {
    hide Core, ModelOk, Runs;
    InitIsCore(m);
    RunKeepsCore(m, InitSys(m), run, s);
  }

  /** recv_finish never meets a message earlier than GVT, and the lookup for an anti-message finds exactly the event it
      was sent for: no other event the PE can look up carries the same sender and number. */
  lemma {:induction false} ReceiveNeverFails(m: Model, run: seq<Action>, s: Sys, q: int, p: int)
    requires ModelOk(m) && Runs(m, InitSys(m), run, s) && s.chan(q, p) != []
    ensures var e := s.chan(q, p)[0].ev;
            && Le(s.gvt, e.msg.sig) && PeOf(m, e) == p && e.pe == q
            && (s.chan(q, p)[0].anti ==>
                  && e in s.index && e !in s.marked
                  && forall x <- s.index | x.pe == e.pe && x.num == e.num :: x == e)
  {
    hide Le, ModelOk, Runs, Stacks, Histories, Sorted, Ahead, Phases, KidsLive, Causes, Flights, LpsAgree,
      LinesRecorded;
    Reached(m, run, s);
    ArrivalFacts(m, s, q, p);
    hide Owners, Dones, Marks, Bounds, Routes, Arriving, Stages, Antis;
    var pk := s.chan(q, p)[0];
  }

  /** event_cancel always finds the event where one of its cases expects it. */
  lemma {:induction false} CancelNeverFails(m: Model, run: seq<Action>, s: Sys, p: int)
    requires ModelOk(m) && Runs(m, InitSys(m), run, s) && CanCancelKid(s, p)
    ensures CancelHasCase(m, s, LastKid(s, p))
  {
    hide Le, ModelOk, Runs, Ids, Births, Stacks, Histories, Dones, Owners, Marks, Sorted, Ahead,
      Bounds, Phases, Routes, Arriving, Stages, Antis, Lookup, KidsLive, Causes, Flights, LpsAgree, LinesRecorded;
    Reached(m, run, s);
    AnnulFacts(m, s, p);
  }

  /** What processing e does to e itself, its KP and its LP, and what it leaves alone. */
  ghost predicate Processes(m: Model, s: Sys, s': Sys, e: Ev) {
    var h, l, k := m.handle(s.lp(e.msg.dest).st, e.msg), e.msg.dest, KpOf(m, e);
    && e in s'.place && s'.place[e] == Processed && s'.stack(k) == s.stack(k) + [e] && s'.last(k) == e.msg.sig
    && s'.lp(l) == Lp(h.st, Advance(m, s.lp(l).rng, |h.sends|)) && (forall x :: x != l ==> s'.lp(x) == s.lp(x))
    && (forall x :: x != k ==> s'.stack(x) == s.stack(x) && s'.last(x) == s.last(x))
    && e in s'.done && s'.done[e].saved == h.saved && |s'.done[e].kids| + s'.done[e].aborted == |h.sends|
    && (forall x <- s.place | x != e :: x in s'.place && s'.place[x] == s.place[x])
    && (forall x <- s.wire :: x in s'.wire && s'.wire[x] == s.wire[x])
    && s'.chan == s.chan && s'.hist == s.hist && s'.gvt == s.gvt && s'.marked == s.marked && s'.index == s.index
  }

  /** A new event waits to be sent if it is for another PE. Otherwise it is queued, unless its KP is past it already:
      then it goes to event_q. */
  ghost predicate Launched(m: Model, s: Sys, c: Ev) {
    && c in s.born
    && if Remote(m, c) then c !in s.place && c in s.wire && s.wire[c] == Outq
       else c !in s.wire && c in s.place && s.place[c] == if Le(s.last(KpOf(m, c)), c.msg.sig) then Pq else EventQ
  }

  /** c is the new event of send x of e's handler, sent with tie-breaker u. */
  ghost predicate SentBy(m: Model, s: Sys, e: Ev, x: Send, u: real, c: Ev) {
    c.cause == Some(e) && c.pe == PeOf(m, e) && MessageOf(e.msg.sig, x, u, c.msg) && Launched(m, s, c)
  }

  /** tw_sched_batch on one event: the handler's effects take place, and its sends before the end time are sent, each
      as an event of its own with the next free number. */
  lemma {:induction false} ProcessSends(m: Model, s: Sys, e: Ev)
    requires Core(m, s) && CanProcess(m, s, e)
    ensures var s', h, p := DoProcess(m, s, e), m.handle(s.lp(e.msg.dest).st, e.msg), PeOf(m, e);
      && Processes(m, s, s', e)
      && |s'.done[e].kids| == CountScheduled(m, e.msg.sig, h.sends) && s'.num(p) == s.num(p) + |s'.done[e].kids|
      && forall i: nat | i < |h.sends| && Scheduled(m, e.msg.sig, h.sends[i]) ::
           var n := CountScheduled(m, e.msg.sig, h.sends[..i]);
           && n < |s'.done[e].kids| && s'.done[e].kids[n].num == s.num(p) + 1 + n
           && SentBy(m, s', e, h.sends[i], m.draw(Advance(m, s.lp(e.msg.dest).rng, i)), s'.done[e].kids[n])
  {
    hide Le, Ids, Births, Stacks, Histories, Dones, Owners, Marks, Sorted, Ahead, Bounds, Phases, Routes, Arriving,
      Stages, Antis, Lookup, KidsLive, Causes, Flights, LpsAgree, LinesRecorded;
    NextFacts(m, s, e);
    KidsFacts(m, s, e);
    hide Core, Next, ModelOk;
    ExecDoes(m, s.lp(e.msg.dest), e.msg);
    ProcessIs(m, s, e);
    hide Exec, DoProcess, CanProcess, Processes, NewKids, MessageOf, CountScheduled, Scheduled, Advance;
  }

  /** The new state in terms of what the handler yields. */
  lemma ProcessIs(m: Model, s: Sys, e: Ev)
    requires CanProcess(m, s, e)
    requires var r := Exec(m, s.lp(e.msg.dest), e.msg);
      NewKids(m, Push(m, s, e, r), e, Kids(PeOf(m, e), s.num(PeOf(m, e)), e, r.outs))
    requires var r, h := Exec(m, s.lp(e.msg.dest), e.msg), m.handle(s.lp(e.msg.dest).st, e.msg);
      && r.lp.st == h.st && r.saved == h.saved && r.lp.rng == Advance(m, s.lp(e.msg.dest).rng, |h.sends|)
      && |r.outs| + r.aborted == |h.sends|
    ensures var s', r, p := DoProcess(m, s, e), Exec(m, s.lp(e.msg.dest), e.msg), PeOf(m, e);
      && Processes(m, s, s', e) && |s'.done[e].kids| == |r.outs| && s'.num(p) == s.num(p) + |r.outs|
      && forall n: nat | n < |r.outs| ::
           var c := s'.done[e].kids[n];
           c.num == s.num(p) + 1 + n && c.cause == Some(e) && c.pe == p && c.msg == r.outs[n] && Launched(m, s', c)
  {
    hide Le, Exec, Numbered;
    var r, p := Exec(m, s.lp(e.msg.dest), e.msg), PeOf(m, e);
    var s1, kids, s' := Push(m, s, e, r), Kids(p, s.num(p), e, r.outs), DoProcess(m, s, e);
    assert e !in kids;
    forall n: nat | n < |r.outs| ensures kids[n] in kids && IsNew(m, s1, e, kids[n]) {
    }
  }

  /** During a GVT computation PE p's transient minimum takes sig into account; outside one it stays as it is. */
  ghost predicate Accounts(s: Sys, trans: int -> Sig, p: int, sig: Sig) {
    && (forall x | x != p :: trans(x) == s.trans(x))
    && if s.phase(p) == Running then trans(p) == s.trans(p)
       else trans(p) in {s.trans(p), sig} && Le(trans(p), s.trans(p)) && Le(trans(p), sig)
  }

  lemma TrackAccounts(s: Sys, p: int, sig: Sig)
    ensures Accounts(s, Track(s, p, sig), p, sig)
  {
    LeIsTotalOrder();
  }

  /** event_cancel on the last child of the event being undone: a remote event that waits to be sent is dropped, one
      whose send is under way is flagged, and for a sent one an anti-message waits; an event of the same PE is deleted
      if it is queued and otherwise put on cancel_q. All but the deletion count towards the transient minimum. */
  lemma CancelDoes(m: Model, s: Sys, p: int)
    requires Core(m, s) && CanCancelKid(s, p)
    ensures var s', c := DoCancelKid(m, s, p), LastKid(s, p);
      && s'.chan == s.chan
      && (forall x <- s.wire | x != c :: x in s'.wire && s'.wire[x] == s.wire[x])
      && (forall x <- s.place | x != c :: x in s'.place && s'.place[x] == s.place[x])
      && (Remote(m, c) ==>
            && c in s.wire && s'.place == s.place && s'.marked == s.marked && Accounts(s, s'.trans, p, c.msg.sig)
            && (s.wire[c] == Outq ==> c !in s'.wire)
            && (s.wire[c] == Asend(false) ==> c in s'.wire && s'.wire[c] == Asend(true))
            && (s.wire[c] == Sevent ==> c in s'.wire && s'.wire[c] == OutqAnti))
      && (!Remote(m, c) ==>
            && c in s.place && s'.wire == s.wire
            && if s.place[c] == Pq then c !in s'.place && s'.marked == s.marked && s'.trans == s.trans
               else s'.place == s.place && s'.marked == s.marked + {c} && Accounts(s, s'.trans, p, c.msg.sig))
  {
    hide Le, ModelOk, Ids, Births, Stacks, Histories, Dones, Owners, Marks, Sorted, Ahead,
      Bounds, Phases, Routes, Arriving, Stages, Antis, Lookup, KidsLive, Causes, Flights, LpsAgree, LinesRecorded;
    AnnulFacts(m, s, p);
    TrackAccounts(s, p, LastKid(s, p).msg.sig);
    hide Core, Track, Accounts, InChan;
  }

  /** recv_finish takes the oldest message. An event enters the index; it is queued if its KP has not gone past it and
      no cancellation is waiting, and waits in event_q otherwise. An anti-message takes the event it is for, which the
      PE holds, out of the index and puts it on cancel_q. */
  lemma ReceiveDoes(m: Model, s: Sys, q: int, p: int)
    requires Core(m, s) && s.chan(q, p) != []
    ensures var s', pk := DoReceive(m, s, q, p), s.chan(q, p)[0];
      && s.chan(q, p) == [pk] + s'.chan(q, p) && s'.recv(p) == s.recv(p) + 1
      && (forall x <- s.place :: x in s'.place && s'.place[x] == s.place[x])
      && Accounts(s, s'.trans, p, pk.ev.msg.sig)
      && (pk.anti ==>
            && s'.place == s.place && pk.ev in s.place && pk.ev in s.index && pk.ev !in s.marked
            && s'.index == s.index - {pk.ev} && s'.marked == s.marked + {pk.ev})
      && (!pk.anti ==>
            && pk.ev !in s.place && s'.place.Keys == s.place.Keys + {pk.ev} && s'.place[pk.ev] in {Pq, EventQ}
            && s'.index == s.index + {pk.ev} && s'.marked == s.marked
            && (s'.place[pk.ev] == Pq <==> Le(s.last(KpOf(m, pk.ev)), pk.ev.msg.sig) && NothingMarked(m, s, p)))
  {
    hide Le, Ids, Births, Stacks, Histories, Dones, Owners, Marks, Sorted, Ahead, Bounds, Phases, Routes, Arriving,
      Stages, Antis, Lookup, KidsLive, Causes, Flights, LpsAgree, LinesRecorded;
    ArrivalFacts(m, s, q, p);
    TrackAccounts(s, p, s.chan(q, p)[0].ev.msg.sig);
    hide Core, ModelOk, NothingMarked, Track, Accounts;
  }

  /** send_begin and send_finish: a waiting event or anti-message is put behind what is under way to its PE; a sent
      event is kept, for its anti-message to be queued if it was annulled meanwhile; a sent anti-message is
      forgotten. */
  lemma SendDoes(m: Model, s: Sys, e: Ev)
    ensures CanPost(s, e) ==> var s', p := DoPost(m, s, e), PeOf(m, e);
      && s'.chan(e.pe, p) == s.chan(e.pe, p) + [Packet(e, s.wire[e].OutqAnti?)] && s'.sent(e.pe) == s.sent(e.pe) + 1
      && s'.place == s.place && s'.marked == s.marked
      && e in s'.wire && s'.wire[e] == if s.wire[e].Outq? then Asend(false) else Acancel
    ensures CanFinishSend(s, e) ==> var s' := DoFinishSend(s, e);
      && s'.chan == s.chan && s'.place == s.place && s'.marked == s.marked
      && (if s.wire[e] == Acancel then e !in s'.wire
          else e in s'.wire && s'.wire[e] == if s.wire[e] == Asend(true) then OutqAnti else Sevent)
  {
  }

  /** tw_eventq_fossil_collect on KP k commits exactly its events earlier than GVT. They leave the index, and the
      buffers of what they caused are freed if their sends are complete. */
  lemma FossilDoes(m: Model, s: Sys, k: int)
    requires Core(m, s)
    ensures var s' := DoFossil(s, k);
      && (forall e <- s.stack(k) :: e in s.place && e in s'.place
            && s'.place[e] == (if Le(s.gvt, e.msg.sig) then s.place[e] else Committed)
            && (e in s'.index <==> e in s.index && Le(s.gvt, e.msg.sig)))
      && (forall e <- s.place | e !in s.stack(k) ::
            e in s'.place && s'.place[e] == s.place[e] && (e in s'.index <==> e in s.index))
      && (forall c <- s.wire :: c in s'.wire <==> !FreedWith(s, k, c))
  {
    hide Le, Ids, Births, Histories, Dones, Owners, Marks, Ahead, Phases, Routes, Arriving,
      Stages, Antis, Lookup, KidsLive, Causes, Flights, LpsAgree, LinesRecorded;
    FossilFacts(m, s, k);
    BelowIsBelow(s, k);
    hide Core, Splits, CountBelow;
  }

  /** The send of c is complete, and c was caused by a committed event. */
  ghost predicate FreedWith(s: Sys, k: int, c: Ev)
    requires c in s.wire
  {
    && s.wire[c].Sevent? && c.cause.Some? && c.cause.value in s.stack(k) && !Le(s.gvt, c.cause.value.msg.sig)
    && c.cause.value in s.done && c in s.done[c.cause.value].kids
  }

  lemma BelowIsBelow(s: Sys, k: int)
    requires forall i, j | 0 <= i < j < |s.stack(k)| :: Le(s.stack(k)[i].msg.sig, s.stack(k)[j].msg.sig)
    ensures forall e :: e in s.stack(k)[..CountBelow(s.stack(k), s.gvt)] <==> e in s.stack(k) && !Le(s.gvt, e.msg.sig)
  {
    var st, n := s.stack(k), CountBelow(s.stack(k), s.gvt);
    forall i | 0 <= i < |st| ensures i < n <==> !Le(s.gvt, st[i].msg.sig) {
      CountBelowSplits(st, s.gvt, i);
    }
    hide Le, CountBelow;
    forall e ensures e in st[..n] <==> e in st && !Le(s.gvt, e.msg.sig) {
      if e in st[..n] {
        var i :| 0 <= i < n && st[..n][i] == e;
        assert st[i] == e;
      }
      if e in st && !Le(s.gvt, e.msg.sig) {
        var i :| 0 <= i < |st| && st[i] == e;
        assert st[..n][i] == e;
      }
    }
  }

  /** GVT never decreases. */
  lemma {:induction false} GvtNeverDecreases(m: Model, run: seq<Action>, s: Sys, g: Sig)
    requires ModelOk(m) && Runs(m, InitSys(m), run, s) && CanGvtRound(m, s, g)
    ensures Le(s.gvt, g)
  {
    hide Le, ModelOk, Runs, Ids, Births, Stacks, Histories, Dones, Owners, Marks, Sorted, Ahead,
      Bounds, Phases, Routes, Arriving, Stages, Antis, Lookup, KidsLive, Causes, Flights, LpsAgree, LinesRecorded;
    Reached(m, run, s);
    GvtIsMonotone(m, s, g);
  }

  /** An agreed minimum is no later than anything any PE holds unprocessed or cancelled, any waiting or unfinished send,
      and nothing is under way. */
  lemma {:induction false} GvtIsLowerBound(m: Model, run: seq<Action>, s: Sys, g: Sig)
    requires ModelOk(m) && Runs(m, InitSys(m), run, s) && CanGvtRound(m, s, g)
    ensures forall e <- s.place | s.place[e] in {EventQ, Pq, AntiMsg, Undoing} :: Le(g, e.msg.sig)
    ensures forall e <- s.marked :: Le(g, e.msg.sig)
    ensures forall e <- s.wire | !s.wire[e].Sevent? :: Le(g, e.msg.sig)
    ensures forall q, p :: s.chan(q, p) == []
  {
    hide Le, Runs, Ids, Births, Stacks, Histories, Dones, Owners, Marks, Sorted, Ahead,
      Bounds, Phases, Routes, Arriving, Stages, Antis, Lookup, KidsLive, Causes, Flights, LpsAgree, LinesRecorded;
    Reached(m, run, s);
    GvtIsLower(m, s, g);
    NothingInFlight(m, s, g);
  }

  /** Whatever is on cancel_q can be dealt with: it waits in a queue, is being rolled back, or is on its KP's stack with
      only events at or after GVT above it, so the secondary rollback reaches it. */
  lemma {:induction false} CancelledIsReachable(m: Model, run: seq<Action>, s: Sys, e: Ev)
    requires ModelOk(m) && Runs(m, InitSys(m), run, s) && e in s.marked
    ensures e in s.place && s.place[e] != Committed
    ensures s.place[e] == Processed ==>
              exists i | 0 <= i < |s.stack(KpOf(m, e))| ::
                && s.stack(KpOf(m, e))[i] == e
                && forall j | i <= j < |s.stack(KpOf(m, e))| :: Le(s.gvt, s.stack(KpOf(m, e))[j].msg.sig)
  {
    hide Le, ModelOk, Runs, Ids, Births, Histories, Owners, Ahead, Phases, Routes, Arriving, Stages, Antis, Lookup,
      KidsLive, Causes, Flights, LpsAgree, LinesRecorded;
    Reached(m, run, s);
    LeIsTotalOrder();
    if s.place[e] == Processed {
      var st := s.stack(KpOf(m, e));
      var i :| 0 <= i < |st| && st[i] == e;
      forall j | i <= j < |st| ensures Le(s.gvt, st[j].msg.sig) {
        assert Le(st[i].msg.sig, st[j].msg.sig);
      }
    }
  }

  /** What is committed stays committed, in the order it was committed, and GVT never falls. */
  lemma {:induction false} CommittedIsFinal(m: Model, s: Sys, a: Action)
    requires Core(m, s) && Enabled(m, s, a)
    ensures var s' := Apply(m, s, a);
            && Le(s.gvt, s'.gvt)
            && forall k :: s.hist(k) <= s'.hist(k)
  {
    LeIsTotalOrder();
    hide Le, ModelOk, Ids, Births, Stacks, Histories, Dones, Owners, Marks, Sorted, Ahead,
      Bounds, Phases, Routes, Arriving, Stages, Antis, Lookup, KidsLive, Causes, Flights, LpsAgree, LinesRecorded;
    if a.GvtRound? {
      GvtIsMonotone(m, s, a.g);
    }
  }

  lemma {:induction false} RunCommittedIsFinal(m: Model, s: Sys, run: seq<Action>, s': Sys)
    requires Core(m, s) && Runs(m, s, run, s')
    ensures Le(s.gvt, s'.gvt)
    ensures forall k :: s.hist(k) <= s'.hist(k)
    decreases |run|
  {
    LeIsTotalOrder();
    hide Core, Enabled, Apply, Le;
    if run != [] {
      CommittedIsFinal(m, s, run[0]);
      ApplyKeepsCore(m, s, run[0]);
      RunCommittedIsFinal(m, Apply(m, s, run[0]), run[1..], s');
      var s1 := Apply(m, s, run[0]);
      forall k ensures s.hist(k) <= s'.hist(k) {
        assert s.hist(k) <= s1.hist(k) <= s'.hist(k);
      }
    }
  }

  /** How far a remote event's buffer has come at its sender. */
  function Stage(s: Sys, e: Ev): nat {
    if e !in s.wire then 6
    else match s.wire[e]
      case Outq => 0
      case Asend(false) => 1
      case Asend(true) => 2
      case Sevent => 3
      case OutqAnti => 4
      case Acancel => 5
  }

  lemma {:induction false} ProcessSendsOnlyNew(m: Model, s: Sys, e: Ev, x: Ev)
    requires Core(m, s) && CanProcess(m, s, e) && x in s.born
    ensures var s' := DoProcess(m, s, e);
            && (x in s'.wire <==> x in s.wire) && (x in s.wire ==> s'.wire[x] == s.wire[x])
            && (x in s'.place <==> x in s.place) && s'.chan == s.chan
  {
    hide Le, ModelOk, Ids, Births, Stacks, Histories, Dones, Owners, Marks, Sorted, Ahead,
      Bounds, Phases, Routes, Arriving, Stages, Antis, Lookup, KidsLive, Causes, Flights, LpsAgree, LinesRecorded;
    NextFacts(m, s, e);
    KidsFacts(m, s, e);
    hide Exec, Next, Kids, Core, CanProcess;
  }

  lemma {:induction false} CancelKidAdvances(m: Model, s: Sys, p: int, e: Ev)
    requires Core(m, s) && CanCancelKid(s, p)
    ensures Stage(s, e) <= Stage(DoCancelKid(m, s, p), e)
  {
    hide Le, ModelOk, Ids, Births, Stacks, Histories, Dones, Owners, Marks, Sorted, Ahead,
      Bounds, Phases, Routes, Arriving, Stages, Antis, Lookup, KidsLive, Causes, Flights, LpsAgree, LinesRecorded;
    AnnulFacts(m, s, p);
    hide Core;
  }

  lemma {:induction false} OthersAdvance(m: Model, s: Sys, a: Action, e: Ev)
    requires Enabled(m, s, a) && !a.Process? && !a.CancelKid?
    ensures Stage(s, e) <= Stage(Apply(m, s, a), e)
    ensures a == Post(e) ==> Stage(s, e) < Stage(Apply(m, s, a), e)
  {
    hide Le, CanProcess, DoProcess, DoCancelKid, CanBeginUndo, CanTakeEvent, CanGvtRound, EventQDrained, CancelQDrained,
      NothingMarked, Track, CountBelow;
  }

  /** A remote event is handed to MPI at most once, its anti-message at most once and only afterwards: sending either
      moves its buffer to a stage from which it never goes back. */
  lemma {:induction false} StagesOnlyAdvance(m: Model, s: Sys, a: Action, e: Ev)
    requires Core(m, s) && Enabled(m, s, a) && e in s.born
    ensures Stage(s, e) <= Stage(Apply(m, s, a), e)
    ensures a == Post(e) ==> Stage(s, e) < Stage(Apply(m, s, a), e)
  {
    hide Core, CanProcess, DoProcess, DoCancelKid;
    match a {
      case Process(x) => ProcessSendsOnlyNew(m, s, x, e);
      case CancelKid(p) => CancelKidAdvances(m, s, p, e);
      case _ => OthersAdvance(m, s, a, e);
    }
  }

  /** Where an event can be found: held by its destination, under way, or waiting to be sent. Nothing but a handler adds
      an event, and only a new one. */
  lemma {:induction false} OthersAddNothing(m: Model, s: Sys, a: Action, e: Ev)
    requires Core(m, s) && Enabled(m, s, a) && !a.Process? && !a.Receive? && !a.Post? && !Present(m, s, e)
    ensures !Present(m, Apply(m, s, a), e)
  {
    hide Le, ModelOk, Ids, Births, Stacks, Histories, Dones, Owners, Marks, Sorted, Ahead,
      Bounds, Phases, Routes, Arriving, Stages, Antis, Lookup, KidsLive, Causes, Flights, LpsAgree, LinesRecorded;
    hide DoProcess, CanProcess, CanGvtRound, EventQDrained, CancelQDrained, NothingMarked, Track;
    match a {
      case BeginUndo(k) => TopFacts(m, s, k);
      case EndUndo(p, _, _) => UndoFacts(m, s, p);
      case Fossil(k) => FossilFacts(m, s, k); CollectPlaces(m, s, k, CountBelow(s.stack(k), s.gvt));
      case _ =>
    }
    hide Core, CountBelow;
  }

  /** Once a cancelled event has been annihilated nothing brings it back. */
  lemma {:induction false} GoneForGood(m: Model, s: Sys, a: Action, e: Ev)
    requires Core(m, s) && Enabled(m, s, a) && e in s.born && !Present(m, s, e)
    ensures !Present(m, Apply(m, s, a), e)
  {
    hide Le, ModelOk, Ids, Births, Stacks, Histories, Dones, Owners, Marks, Sorted, Ahead,
      Bounds, Phases, Routes, Arriving, Stages, Antis, Lookup, KidsLive, Causes, Flights, LpsAgree, LinesRecorded;
    hide DoProcess, CanProcess;
    match a {
      case Process(x) => ProcessSendsOnlyNew(m, s, x, e);
      case Receive(q, p) => ReceiveInChan(m, s, q, p); ArrivalFacts(m, s, q, p);
      case Post(x) => PostInChan(m, s, x);
      case _ => OthersAddNothing(m, s, a, e);
    }
    hide Core;
  }
}
