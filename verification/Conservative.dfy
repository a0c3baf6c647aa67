/** The conservative scheduler: it never undoes anything, and instead processes only what is less than the lookahead
    past GVT. Its state is that of the optimistic kernel, where the processed events of a KP are only a record. */
module Conservative {
  import opened EventSignature
  import opened LpModel
  import opened TimeWarp
  import opened TimeWarpInvariants
  import opened TimeWarpEffects
  import opened TimeWarpSafety
  import opened Sequential
  import opened TimeWarpTheorems

  /** One step. An event leaves event_q without regard to what its KP has processed: there is nothing to roll back. */
  predicate CanStep(m: Model, look: real, s: Sys, a: Action) {
    match a
    case Process(e) => CanProcess(m, s, e) && e.msg.sig.ts < s.gvt.ts + look
    case TakeEvent(e, drop) => !drop && e in s.place && s.place[e] == EventQ && s.phase(PeOf(m, e)) != Reducing
    case BeginUndo(_) => false
    case CancelKid(_) => false
    case EndUndo(_, _, _) => false
    case TakeCancelled(_) => false
    case Fossil(_) => false
    case _ => Enabled(m, s, a)
  }

  function Step(m: Model, look: real, s: Sys, a: Action): Sys
    requires CanStep(m, look, s, a)
  {
    if a.TakeEvent? then DoTakeEvent(s, a.e, false) else Apply(m, s, a)
  }

  ghost predicate Steps(m: Model, look: real, s: Sys, run: seq<Action>, s': Sys)
    decreases |run|
  {
    if run == [] then s == s'
    else CanStep(m, look, s, run[0]) && Steps(m, look, Step(m, look, s, run[0]), run[1..], s')
  }

  /** The error the scheduler stops with: it is about to process an event older than its KP's last one. */
  predicate Fails(m: Model, look: real, s: Sys) {
    exists e <- s.place :: CanStep(m, look, s, Process(e)) && Compare(s.last(KpOf(m, e)), e.msg.sig) > 0
  }

  /** Every scheduled send, and every initial event, is at least the lookahead ahead; less is a fatal error. */
  ghost predicate KeepsLookahead(m: Model, look: real) {
    && look > 0.0
    && (forall r <- m.roots :: r.msg.sig.ts >= look)
    && (forall st, msg, i | 0 <= i < |m.handle(st, msg).sends| ::
          var x := m.handle(st, msg).sends[i]; x.offset >= look || msg.sig.ts + x.offset >= m.tsEnd)
  }

  /** The event has not arrived yet: it waits to be sent or is under way. */
  ghost predicate Coming(m: Model, s: Sys, e: Ev) {
    (e in s.wire && s.wire[e].Outq?) || InChan(m, s.chan, e, false)
  }

  /** It has arrived, or will. */
  ghost predicate Pending(m: Model, s: Sys, e: Ev) {
    Coming(m, s, e) || (e in s.place && s.place[e] == Pq)
  }

  /** In the window of the present GVT no event of a KP is pending that is later than one still to come. */
  ghost predicate InSequence(m: Model, s: Sys, look: real) {
    forall c, x | Coming(m, s, c) && Pending(m, s, x) && KpOf(m, c) == KpOf(m, x) && x.msg.sig.ts < s.gvt.ts + look ::
      Le(x.msg.sig, c.msg.sig)
  }

  /** Every GVT round of the run leaves what is pending in sequence. It does if all sends have been posted by then, or
      if those that have not are past the new window. */
  ghost predicate RoundsInSequence(m: Model, look: real, s: Sys, run: seq<Action>)
    decreases |run|
  {
    run != [] && CanStep(m, look, s, run[0]) ==>
      && (run[0].GvtRound? ==> InSequence(m, DoGvtRound(s, run[0].g), look))
      && RoundsInSequence(m, look, Step(m, look, s, run[0]), run[1..])
  }

  // ---------- the window ----------

  /** What has been processed is inside the window, and nothing a KP still has to process, or has still to get, is
      older. */
  ghost predicate Inside(m: Model, s: Sys, look: real) {
    && s.gvt.ts >= 0.0 && look > 0.0
    && (forall k :: s.last(k).ts < s.gvt.ts + look)
    && (forall e <- s.place :: s.place[e] in {Pq, Processed})
    && (forall e | Pending(m, s, e) :: Le(s.last(KpOf(m, e)), e.msg.sig))
  }

  ghost predicate NothingUndone(s: Sys) {
    && s.marked == {} && (forall p :: s.undo(p) == None) && (forall k :: s.hist(k) == [])
    && (forall e <- s.wire :: s.wire[e] in {Outq, Asend(false), Sevent})
    && (forall q, p, i | 0 <= i < |s.chan(q, p)| :: !s.chan(q, p)[i].anti)
  }

  ghost predicate Window(m: Model, s: Sys, look: real) {
    InSequence(m, s, look) && Inside(m, s, look) && NothingUndone(s)
  }

  lemma {:induction false} OutsAhead(m: Model, look: real, cur: Sig, rng: Rng, sends: seq<Send>, i: nat)
    requires forall j | 0 <= j < |sends| :: sends[j].offset >= look || cur.ts + sends[j].offset >= m.tsEnd
    requires i < |Outs(m, cur, rng, sends)|
    ensures Outs(m, cur, rng, sends)[i].sig.ts >= cur.ts + look
  {
    if cur.ts + sends[0].offset >= m.tsEnd {
      OutsAhead(m, look, cur, m.next(rng), sends[1..], i);
    } else if i > 0 {
      OutsAhead(m, look, cur, m.next(rng), sends[1..], i - 1);
    }
  }

  lemma EarlierTime(a: Sig, b: Sig)
    ensures a.ts < b.ts ==> Le(a, b)
    ensures Le(a, b) ==> a.ts <= b.ts
  {
  }

  /** The sends of a handler run in the window are past it. */
  lemma {:induction false} KidsAreOutside(m: Model, look: real, s: Sys, e: Ev, i: nat)
    requires KeepsLookahead(m, look) && Le(s.gvt, e.msg.sig)
    requires i < |Exec(m, s.lp(e.msg.dest), e.msg).outs|
    ensures Exec(m, s.lp(e.msg.dest), e.msg).outs[i].sig.ts >= s.gvt.ts + look
  {
    OutsAhead(m, look, e.msg.sig, s.lp(e.msg.dest).rng, m.handle(s.lp(e.msg.dest).st, e.msg).sends, i);
    EarlierTime(s.gvt, e.msg.sig);
  }

  /** The state between the handler and the queueing of what it sent. */
  ghost predicate Fits(m: Model, look: real, s: Sys, s1: Sys, e: Ev, kids: seq<Ev>) {
    && s1.wire == s.wire && s1.chan == s.chan && s1.gvt == s.gvt && e in s1.done
    && (forall c <- kids :: c.msg.sig.ts >= s1.gvt.ts + look && Le(s1.last(KpOf(m, c)), c.msg.sig))
  }

  lemma PushPending(m: Model, s: Sys, e: Ev, r: Result)
    requires e in s.place && s.place[e] == Pq
    ensures var s1 := Push(m, s, e, r);
      forall x :: (Coming(m, s1, x) <==> Coming(m, s, x)) && (Pending(m, s1, x) ==> Pending(m, s, x))
  {
  }

  lemma {:induction false} PushKeepsInside(m: Model, look: real, s: Sys, e: Ev, r: Result)
    requires Inside(m, s, look) && InSequence(m, s, look) && CanStep(m, look, s, Process(e))
    ensures Inside(m, Push(m, s, e, r), look) && InSequence(m, Push(m, s, e, r), look)
  {
    var s1 := Push(m, s, e, r);
    PushPending(m, s, e, r);
    assert Pending(m, s, e);
    hide Le, Coming;
    forall x | Pending(m, s1, x) ensures Le(s1.last(KpOf(m, x)), x.msg.sig) {
      assert Pending(m, s, x);
      if !Coming(m, s, x) && KpOf(m, x) == KpOf(m, e) {
        assert s.place[x] == Pq && PeOf(m, x) == PeOf(m, e);
      }
    }
  }

  lemma LaunchPending(m: Model, look: real, s: Sys, s1: Sys, e: Ev, kids: seq<Ev>)
    requires Fits(m, look, s, s1, e, kids)
    ensures var s2 := Launch(m, s1, e, kids);
      && (forall x | Coming(m, s2, x) :: x in kids || Coming(m, s1, x))
      && (forall x | Pending(m, s2, x) :: x in kids || Pending(m, s1, x))
      && (forall x <- s2.place :: s2.place[x] == Pq || (x in s1.place && s2.place[x] == s1.place[x]))
  {
    hide Le;
    forall c <- kids | !Remote(m, c) ensures LocalPlace(m, s1, c) == Pq {
      assert Le(s1.last(KpOf(m, c)), c.msg.sig);
    }
  }

  lemma {:induction false} LaunchKeepsInside(m: Model, look: real, s: Sys, s1: Sys, e: Ev, kids: seq<Ev>)
    requires Inside(m, s1, look) && InSequence(m, s1, look) && Fits(m, look, s, s1, e, kids)
    ensures Inside(m, Launch(m, s1, e, kids), look) && InSequence(m, Launch(m, s1, e, kids), look)
  {
    LaunchPending(m, look, s, s1, e, kids);
    var s2 := Launch(m, s1, e, kids);
    forall c, x | Coming(m, s2, c) && Pending(m, s2, x) && KpOf(m, c) == KpOf(m, x) && x.msg.sig.ts < s2.gvt.ts + look
      ensures Le(x.msg.sig, c.msg.sig)
    {
      EarlierTime(x.msg.sig, c.msg.sig);
      assert x !in kids;
    }
    hide Le, Coming, Pending;
  }

  lemma {:induction false} KidsFit(m: Model, look: real, s: Sys, e: Ev)
    requires KeepsLookahead(m, look) && Bounds(m, s) && Inside(m, s, look) && CanStep(m, look, s, Process(e))
    ensures var r := Exec(m, s.lp(e.msg.dest), e.msg);
      Fits(m, look, s, Push(m, s, e, r), e, Kids(PeOf(m, e), s.num(PeOf(m, e)), e, r.outs))
  {
    var r := Exec(m, s.lp(e.msg.dest), e.msg);
    var s1, kids := Push(m, s, e, r), Kids(PeOf(m, e), s.num(PeOf(m, e)), e, r.outs);
    assert Le(s.gvt, e.msg.sig);
    hide Le, Exec, Bounds, KeepsLookahead, Pending;
    forall c <- kids ensures c.msg.sig.ts >= s1.gvt.ts + look && Le(s1.last(KpOf(m, c)), c.msg.sig) {
      var i :| 0 <= i < |r.outs| && kids[i] == c;
      KidsAreOutside(m, look, s, e, i);
      EarlierTime(s1.last(KpOf(m, c)), c.msg.sig);
    }
  }

  lemma {:induction false} ProcessKeepsWindow(m: Model, look: real, s: Sys, e: Ev)
    requires KeepsLookahead(m, look) && Bounds(m, s) && Window(m, s, look) && CanStep(m, look, s, Process(e))
    ensures Window(m, DoProcess(m, s, e), look)
  {
    var r := Exec(m, s.lp(e.msg.dest), e.msg);
    var kids := Kids(PeOf(m, e), s.num(PeOf(m, e)), e, r.outs);
    var s1 := Push(m, s, e, r);
    assert Inside(m, s, look) && InSequence(m, s, look) && NothingUndone(s);
    hide Exec, Le, Kids, KeepsLookahead, Bounds, Inside, InSequence, Fits, CanStep, Launch, NothingUndone;
    KidsFit(m, look, s, e);
    PushKeepsInside(m, look, s, e, r);
    assert e in s1.done;
    LaunchKeepsInside(m, look, s, s1, e, kids);
    LaunchUndoesNothing(m, s, e, r, kids);
  }

  lemma LaunchUndoesNothing(m: Model, s: Sys, e: Ev, r: Result, kids: seq<Ev>)
    requires NothingUndone(s)
    ensures NothingUndone(Launch(m, Push(m, s, e, r), e, kids))
  {
    hide LocalPlace;
  }

  lemma ReceivePending(m: Model, s: Sys, q: int, p: int)
    requires NothingUndone(s) && Routes(m, s) && s.chan(q, p) != []
    requires Le(s.last(KpOf(m, s.chan(q, p)[0].ev)), s.chan(q, p)[0].ev.msg.sig)
    ensures var s', e := DoReceive(m, s, q, p), s.chan(q, p)[0].ev;
      && Coming(m, s, e) && s'.place == s.place[e := Pq] && s'.last == s.last && s'.gvt == s.gvt && NothingUndone(s')
      && forall x :: (Coming(m, s', x) ==> Coming(m, s, x)) && (Pending(m, s', x) ==> Pending(m, s, x))
  {
    hide Le, Track;
    var e := s.chan(q, p)[0].ev;
    assert e.pe == q && PeOf(m, e) == p;
    assert s.chan(q, p)[0] == Packet(e, false);
  }

  lemma {:induction false} ReceiveKeepsWindow(m: Model, look: real, s: Sys, q: int, p: int)
    requires Routes(m, s) && Window(m, s, look) && s.chan(q, p) != []
    ensures Window(m, DoReceive(m, s, q, p), look)
  {
    var e := s.chan(q, p)[0].ev;
    assert Coming(m, s, e) by {
      assert e.pe == q && PeOf(m, e) == p;
      assert s.chan(q, p)[0] == Packet(e, false);
    }
    assert Pending(m, s, e);
    ReceivePending(m, s, q, p);
    hide Le, Coming, Pending, DoReceive, Routes, NothingUndone;
  }

  lemma {:induction false} RoundKeepsWindow(m: Model, look: real, s: Sys, g: Sig)
    requires Bounds(m, s) && Births(m, s) && Inside(m, s, look) && NothingUndone(s) && CanGvtRound(m, s, g)
    ensures Inside(m, DoGvtRound(s, g), look) && NothingUndone(DoGvtRound(s, g))
  {
    GvtIsMonotone(m, s, g);
    EarlierTime(s.gvt, g);
    hide Le, CanGvtRound, Bounds, Births;
    assert forall x :: Pending(m, DoGvtRound(s, g), x) ==> Pending(m, s, x);
  }

  ghost predicate NoMorePending(m: Model, s: Sys, s': Sys) {
    forall x :: (Coming(m, s', x) ==> Coming(m, s, x)) && (Pending(m, s', x) ==> Pending(m, s, x))
  }

  lemma SendsPending(m: Model, s: Sys, e: Ev)
    requires NothingUndone(s)
    ensures CanPost(s, e) ==> NothingUndone(DoPost(m, s, e)) && NoMorePending(m, s, DoPost(m, s, e))
    ensures CanFinishSend(s, e) ==> NothingUndone(DoFinishSend(s, e)) && NoMorePending(m, s, DoFinishSend(s, e))
  {
  }

  lemma SendsKeepWindow(m: Model, look: real, s: Sys, e: Ev)
    requires Window(m, s, look)
    ensures CanPost(s, e) ==> Window(m, DoPost(m, s, e), look)
    ensures CanFinishSend(s, e) ==> Window(m, DoFinishSend(s, e), look)
  {
    SendsPending(m, s, e);
    hide Le, Coming, Pending, NothingUndone;
  }

  lemma {:induction false} StepKeepsWindow(m: Model, look: real, s: Sys, a: Action)
    requires KeepsLookahead(m, look) && Core(m, s) && Window(m, s, look) && CanStep(m, look, s, a)
    requires a.GvtRound? ==> InSequence(m, DoGvtRound(s, a.g), look)
    ensures Enabled(m, s, a) && Window(m, Step(m, look, s, a), look) && Step(m, look, s, a) == Apply(m, s, a)
  {
    CoreHas(m, s);
    NoEventQ(m, s, look);
    assert Inside(m, s, look) && NothingUndone(s);
    if a.GvtRound? {
      RoundKeepsWindow(m, look, s, a.g);
      assert Window(m, DoGvtRound(s, a.g), look);
    }
    hide Core, Le, KeepsLookahead, Births, Bounds, Flights, Routes, Window, Inside, NothingUndone, InSequence;
    hide DoProcess, CanProcess, DoReceive, CanGvtRound, DoGvtRound, DoPost, DoFinishSend, CanPost, CanFinishSend,
      CanStartGvt, EventQDrained, CancelQDrained;
    if a.Process? {
      ProcessKeepsWindow(m, look, s, a.e);
    } else if !a.GvtRound? {
      OthersKeepWindow(m, look, s, a);
    }
  }

  lemma {:induction false} OthersKeepWindow(m: Model, look: real, s: Sys, a: Action)
    requires Routes(m, s) && Window(m, s, look) && CanStep(m, look, s, a) && !a.Process? && !a.GvtRound?
    requires forall e <- s.place :: s.place[e] != EventQ
    ensures Enabled(m, s, a) && Window(m, Step(m, look, s, a), look) && Step(m, look, s, a) == Apply(m, s, a)
  {
    hide Window, DoReceive, DoPost, DoFinishSend, CanPost, CanFinishSend, CanStartGvt, EventQDrained, CancelQDrained,
      SetPhase;
    match a {
      case Receive(q, p) => ReceiveKeepsWindow(m, look, s, q, p);
      case Post(e) => SendsKeepWindow(m, look, s, e);
      case FinishSend(e) => SendsKeepWindow(m, look, s, e);
      case StartGvt(p) => PhaseKeepsWindow(m, look, s, p, Spinning);
      case DoneEventQ(p) => PhaseKeepsWindow(m, look, s, p, Cancelling);
      case DoneCancelQ(p) => PhaseKeepsWindow(m, look, s, p, Reducing);
      case TakeEvent(e, _) => assert false;
    }
  }

  lemma NoEventQ(m: Model, s: Sys, look: real)
    requires Window(m, s, look)
    ensures forall e <- s.place :: s.place[e] != EventQ
  {
  }

  lemma CoreHas(m: Model, s: Sys)
    requires Core(m, s)
    ensures Births(m, s) && Bounds(m, s) && Flights(m, s) && Routes(m, s)
  {
    hide Ids, Births, Stacks, Histories, Dones, Owners, Marks, Sorted, Ahead, ModelOk,
      Bounds, Phases, Routes, Arriving, Stages, Antis, Lookup, KidsLive, Causes, Flights, LpsAgree, LinesRecorded;
  }

  lemma PhaseKeepsWindow(m: Model, look: real, s: Sys, p: int, phase: Phase)
    requires Window(m, s, look)
    ensures Window(m, SetPhase(s, p, phase), look)
  {
    hide Le;
  }

  lemma {:induction false} StepsKeepWindow(m: Model, look: real, s: Sys, run: seq<Action>, s': Sys)
    requires KeepsLookahead(m, look) && Core(m, s) && Window(m, s, look)
    requires Steps(m, look, s, run, s') && RoundsInSequence(m, look, s, run)
    ensures Runs(m, s, run, s') && Core(m, s') && Window(m, s', look)
    decreases |run|
  {
    hide Core, Window, Enabled, Apply, CanStep, Step, InSequence, KeepsLookahead;
    if run != [] {
      StepKeepsWindow(m, look, s, run[0]);
      ApplyKeepsCore(m, s, run[0]);
      StepsKeepWindow(m, look, Apply(m, s, run[0]), run[1..], s');
    }
  }

  /** A round is in sequence if the sends that still wait, if any, are past the new window. */
  lemma PastWindowIsInSequence(m: Model, look: real, s: Sys, g: Sig)
    requires Flights(m, s) && CanGvtRound(m, s, g)
    requires forall e <- s.wire | s.wire[e].Outq? :: e.msg.sig.ts >= g.ts + look
    ensures InSequence(m, DoGvtRound(s, g), look)
  {
    NothingInFlight(m, s, g);
    var s1 := DoGvtRound(s, g);
    hide CanGvtRound, Flights;
    forall c, x | Coming(m, s1, c) && Pending(m, s1, x) && KpOf(m, c) == KpOf(m, x) && x.msg.sig.ts < s1.gvt.ts + look
      ensures Le(x.msg.sig, c.msg.sig)
    {
      EarlierTime(x.msg.sig, c.msg.sig);
    }
  }

  lemma InitIsWindow(m: Model, look: real)
    requires ModelOk(m) && KeepsLookahead(m, look)
    ensures Window(m, InitSys(m), look)
  {
  }

  lemma WindowIsFine(m: Model, look: real, s: Sys)
    requires Window(m, s, look)
    ensures !Fails(m, look, s) && forall e <- s.place :: s.place[e] != EventQ
  {
    hide Le, InSequence, NothingUndone;
    forall e <- s.place | CanStep(m, look, s, Process(e)) ensures Compare(s.last(KpOf(m, e)), e.msg.sig) <= 0 {
      assert Pending(m, s, e);
      LeIs(s.last(KpOf(m, e)), e.msg.sig);
    }
  }

  /** As long as every round leaves what is pending in sequence, the error is out of reach, nothing ever arrives too
      late, and the run is one the optimistic kernel could have made. */
  lemma {:induction false} NeverFails(m: Model, look: real, run: seq<Action>, s: Sys)
    requires ModelOk(m) && KeepsLookahead(m, look)
    requires Steps(m, look, InitSys(m), run, s) && RoundsInSequence(m, look, InitSys(m), run)
    ensures !Fails(m, look, s) && Runs(m, InitSys(m), run, s) && forall e <- s.place :: s.place[e] != EventQ
  {
    InitIsCore(m);
    InitIsWindow(m, look);
    hide Core, ModelOk, Runs, Steps, RoundsInSequence, KeepsLookahead, InitSys, Window, Fails;
    StepsKeepWindow(m, look, InitSys(m), run, s);
    WindowIsFine(m, look, s);
  }

  lemma LeIs(a: Sig, b: Sig)
    ensures Le(a, b) <==> Compare(a, b) <= 0
  {
  }

  /** Each KP processes, in the same order, what the sequential scheduler gives it: up to GVT the two have processed the
      same, and every LP is in the state its KP's events lead to. */
  lemma {:induction false} ConservativeIsSequential(m: Model, look: real, run: seq<Action>, s: Sys,
      order: seq<Ev>, picks: seq<int>, z: SeqState, k: int)
    requires ModelOk(m) && KeepsLookahead(m, look)
    requires Steps(m, look, InitSys(m), run, s) && RoundsInSequence(m, look, InitSys(m), run)
    requires Enumerates(m, order) && NeverTies(m, SeqInit(m, order))
    requires SeqRuns(m, SeqInit(m, order), picks, z) && StopsAt(z, s.gvt)
    ensures OfKp(m, z.trace, k) == Contents(s.stack(k)[..CountBelow(s.stack(k), s.gvt)])
    ensures forall l :: s.lp(l) == Replay(m, s.stack(m.kpOf(l)), l)
  {
    InitIsCore(m);
    InitIsWindow(m, look);
    hide Core, ModelOk, Runs, Steps, RoundsInSequence, KeepsLookahead, InitSys, Le, InSequence, Inside, NothingUndone,
      CountBelow, NeverTies, SeqRuns, Enumerates, StopsAt, OfKp;
    StepsKeepWindow(m, look, InitSys(m), run, s);
    CommittedIsSequential(m, run, s, order, picks, z);
    NothingUndoneLps(m, s);
    NothingCommitted(s, k);
  }

  lemma NothingCommitted(s: Sys, k: int)
    requires NothingUndone(s)
    ensures Below(s, k) == s.stack(k)[..CountBelow(s.stack(k), s.gvt)]
  {
    assert s.hist(k) == [];
  }

  lemma NothingUndoneLps(m: Model, s: Sys)
    requires Core(m, s) && NothingUndone(s)
    ensures forall l :: s.lp(l) == Replay(m, s.stack(m.kpOf(l)), l)
  {
    hide Ids, Births, Stacks, Histories, Dones, Owners, Marks, Sorted, Ahead, ModelOk, Replay,
      Bounds, Phases, Routes, Arriving, Stages, Antis, Lookup, KidsLive, Causes, Flights, LinesRecorded;
    forall l ensures s.lp(l) == Replay(m, s.stack(m.kpOf(l)), l) {
      assert LpAgrees(m, s, l);
      var k := m.kpOf(l);
      var p := m.peOf(k);
      assert s.undo(p) == None;
      assert s.hist(k) == [];
      assert Line(s, m.kpOf(l)) == s.stack(m.kpOf(l));
    }
  }

  // ---------- a round that is not clear ----------

  /** With room for one unfinished send, an event waits only while another of its PE is being sent. */
  predicate Busy(s: Sys) {
    forall e <- s.wire | s.wire[e].Outq? :: exists f <- s.wire :: s.wire[f] == Asend(false) && f.pe == e.pe
  }

  /** A run whose GVT rounds find every PE so: send_begin has posted what it can. */
  ghost predicate BusySteps(m: Model, look: real, s: Sys, run: seq<Action>, s': Sys)
    decreases |run|
  {
    if run == [] then s == s'
    else
      && CanStep(m, look, s, run[0]) && (run[0].GvtRound? ==> Busy(s))
      && BusySteps(m, look, Step(m, look, s, run[0]), run[1..], s')
  }

  lemma {:induction false} OneMore(m: Model, look: real, s0: Sys, run: seq<Action>, s: Sys, a: Action)
    requires BusySteps(m, look, s0, run, s) && CanStep(m, look, s, a) && (a.GvtRound? ==> Busy(s))
    ensures BusySteps(m, look, s0, run + [a], Step(m, look, s, a))
    decreases |run|
  {
    hide CanStep, Step, Busy;
    if run == [] {
      assert (run + [a])[1..] == [];
    } else {
      assert (run + [a])[1..] == run[1..] + [a];
      OneMore(m, look, Step(m, look, s0, run[0]), run[1..], s, a);
    }
  }

  ghost predicate CanReach(m: Model, s: Sys) {
    exists run :: BusySteps(m, 1.0, InitSys(m), run, s)
  }

  lemma {:induction false} Go(m: Model, s: Sys, a: Action)
    requires CanReach(m, s) && CanStep(m, 1.0, s, a) && (a.GvtRound? ==> Busy(s))
    ensures CanReach(m, Step(m, 1.0, s, a))
  {
    hide BusySteps, InitSys;
    var run :| BusySteps(m, 1.0, InitSys(m), run, s);
    OneMore(m, 1.0, InitSys(m), run, s, a);
  }

  /** Three events for LP 1: one of its own PE at time 1.5, and two from the other PE at times 1 and 1.25. */
  function Near(data: Payload): Ev {
    Ev(1, 1, None, Msg(Sig(1.5, 1.0, [0.5]), 1, data))
  }

  function First(data: Payload): Ev {
    Ev(0, 1, None, Msg(Sig(1.0, 1.0, [0.5]), 1, data))
  }

  function Second(data: Payload): Ev {
    Ev(0, 2, None, Msg(Sig(1.25, 1.0, [0.5]), 1, data))
  }

  function TwoPes(st: LpState, data: Payload, saved: Saved, rng: Rng): Model {
    Model((x, _) => Handled(x, saved, []), (x, _) => x, r => r, r => r, _ => 0.5, _ => Lp(st, rng),
          l => l, k => if k == 1 then 1 else 0, 2, 100.0, {Near(data), First(data), Second(data)}, _ => 2)
  }

  lemma TwoPesIsOk(st: LpState, data: Payload, saved: Saved, rng: Rng)
    ensures var m := TwoPes(st, data, saved, rng); ModelOk(m) && KeepsLookahead(m, 1.0)
  {
  }

  /** Nothing has been processed and no GVT round is past. */
  ghost predicate Fresh(s: Sys) {
    && s.marked == {} && (forall k :: s.last(k) == ZERO_SIG && s.stack(k) == [])
    && (forall p :: s.undo(p) == None && s.trans(p) == MAX_SIG)
  }

  /** The first event has arrived, but its send is not known to be finished; the second still waits. */
  ghost predicate Waiting(s: Sys, data: Payload, phase: Phase) {
    && Fresh(s) && (forall q, p :: s.chan(q, p) == [])
    && s.place == map[Near(data) := Pq, First(data) := Pq]
    && s.wire == map[First(data) := Asend(false), Second(data) := Outq]
    && White(s.sent, s.recv, 2) == 0 && (forall p | 0 <= p < 2 :: s.phase(p) == phase)
  }

  lemma FirstIsSent(st: LpState, data: Payload, saved: Saved, rng: Rng) returns (s: Sys)
    ensures CanReach(TwoPes(st, data, saved, rng), s) && Sent(s, data)
  {
    var m, c := TwoPes(st, data, saved, rng), First(data);
    var s0 := InitSys(m);
    assert BusySteps(m, 1.0, s0, [], s0);
    hide BusySteps, Le, Sent;
    PostFirst(st, data, saved, rng);
    Go(m, s0, Post(c));
    s := DoPost(m, s0, c);
  }

  lemma PostFirst(st: LpState, data: Payload, saved: Saved, rng: Rng)
    ensures var m := TwoPes(st, data, saved, rng);
      CanPost(InitSys(m), First(data)) && Sent(DoPost(m, InitSys(m), First(data)), data)
  {
    var m, c := TwoPes(st, data, saved, rng), First(data);
    var s0 := InitSys(m);
    hide Le;
    assert s0.place == map[Near(data) := Pq];
    assert s0.wire == map[c := Outq, Second(data) := Outq];
    InitIsFresh(m);
    hide InitSys;
  }

  lemma InitIsFresh(m: Model)
    ensures var s := InitSys(m);
      Fresh(s) && forall q, p :: s.chan(q, p) == [] && s.phase(p) == Running && s.sent(p) == s.recv(p) == 0
  {
  }

  /** The first event is on its way. */
  ghost predicate Sent(s: Sys, data: Payload) {
    && Fresh(s) && s.place == map[Near(data) := Pq] && s.wire == map[First(data) := Asend(false), Second(data) := Outq]
    && (forall q, p :: s.chan(q, p) == if q == 0 && p == 1 then [Packet(First(data), false)] else [])
    && forall p :: s.phase(p) == Running && s.sent(p) - s.recv(p) == if p == 0 then 1 else 0
  }

  lemma FirstArrives(st: LpState, data: Payload, saved: Saved, rng: Rng) returns (s: Sys)
    ensures CanReach(TwoPes(st, data, saved, rng), s) && Waiting(s, data, Running)
  {
    var m, c := TwoPes(st, data, saved, rng), First(data);
    var s1 := FirstIsSent(st, data, saved, rng);
    hide CanReach;
    Go(m, s1, Receive(0, 1));
    assert Le(ZERO_SIG, c.msg.sig);
    hide Le;
    s := DoReceive(m, s1, 0, 1);
    assert s.place == map[Near(data) := Pq, c := Pq];
    assert White(s.sent, s.recv, 2) == White(s.sent, s.recv, 1) - 1 == White(s.sent, s.recv, 0);
  }

  lemma {:induction false} BothMove(m: Model, data: Payload, s: Sys, from: Phase, to: Phase, a0: Action, a1: Action)
      returns (s': Sys)
    requires m.numPes == 2 && Waiting(s, data, from) && CanReach(m, s)
    requires (from, to, a0, a1) in {(Running, Spinning, StartGvt(0), StartGvt(1)),
      (Spinning, Cancelling, DoneEventQ(0), DoneEventQ(1)), (Cancelling, Reducing, DoneCancelQ(0), DoneCancelQ(1))}
    ensures Waiting(s', data, to) && CanReach(m, s')
  {
    hide CanReach, White;
    Go(m, s, a0);
    var s1 := Step(m, 1.0, s, a0);
    Go(m, s1, a1);
    s' := Step(m, 1.0, s1, a1);
  }

  /** The round is possible: nothing is under way, and the first event is the least there is. */
  lemma RoundIsPossible(st: LpState, data: Payload, saved: Saved, rng: Rng, s: Sys)
    requires Waiting(s, data, Reducing)
    ensures CanGvtRound(TwoPes(st, data, saved, rng), s, First(data).msg.sig) && Busy(s)
    ensures Waiting(DoGvtRound(s, First(data).msg.sig), data, Running)
  {
    var m, g := TwoPes(st, data, saved, rng), First(data).msg.sig;
    assert Le(g, MAX_SIG) && Le(g, Near(data).msg.sig) && Le(g, Second(data).msg.sig) && Le(g, g);
    assert First(data) in s.place && s.place[First(data)] == Pq;
    assert First(data) in s.wire && s.wire[First(data)] == Asend(false);
    var s' := DoGvtRound(s, g);
    assert White(s'.sent, s'.recv, 2) == White(s'.sent, s'.recv, 1) == White(s'.sent, s'.recv, 0);
  }

  /** PE 1 has processed its two events, the later one last. */
  ghost predicate Passed(s: Sys, data: Payload) {
    && s.place == map[Near(data) := Processed, First(data) := Processed]
    && s.wire == map[First(data) := Asend(false), Second(data) := Outq]
    && (forall q, p :: s.chan(q, p) == []) && s.gvt == First(data).msg.sig && s.last(1) == Near(data).msg.sig
    && (forall p | 0 <= p < 2 :: s.phase(p) == Running && s.undo(p) == None) && s.marked == {}
  }

  /** PE 1 has processed the earlier of its two events. */
  ghost predicate Halfway(s: Sys, data: Payload) {
    && s.place == map[Near(data) := Pq, First(data) := Processed] && s.gvt == First(data).msg.sig
    && s.wire == map[First(data) := Asend(false), Second(data) := Outq] && (forall q, p :: s.chan(q, p) == [])
    && (forall p | 0 <= p < 2 :: s.phase(p) == Running && s.undo(p) == None) && s.marked == {}
  }

  /** A handler that sends nothing leaves only the event processed. */
  lemma NothingSent(m: Model, s: Sys, e: Ev)
    requires Exec(m, s.lp(e.msg.dest), e.msg).outs == []
    ensures var s' := DoProcess(m, s, e);
      && s'.place == s.place[e := Processed] && s'.wire == s.wire && s'.chan == s.chan && s'.gvt == s.gvt
      && s'.phase == s.phase && s'.undo == s.undo && s'.marked == s.marked && s'.last(KpOf(m, e)) == e.msg.sig
  {
    var r := Exec(m, s.lp(e.msg.dest), e.msg);
    assert Kids(PeOf(m, e), s.num(PeOf(m, e)), e, r.outs) == [];
    hide Exec, Kids;
  }

  lemma FirstCanStep(st: LpState, data: Payload, saved: Saved, rng: Rng, s: Sys)
    requires Waiting(s, data, Running) && s.gvt == First(data).msg.sig
    ensures CanStep(TwoPes(st, data, saved, rng), 1.0, s, Process(First(data)))
  {
    var c := First(data);
    assert Le(c.msg.sig, c.msg.sig) && Le(c.msg.sig, Near(data).msg.sig);
    hide Le;
  }

  lemma FirstIsNext(st: LpState, data: Payload, saved: Saved, rng: Rng, s: Sys)
    requires Waiting(s, data, Running) && s.gvt == First(data).msg.sig
    ensures var m, c := TwoPes(st, data, saved, rng), First(data);
      CanStep(m, 1.0, s, Process(c)) && Halfway(DoProcess(m, s, c), data)
  {
    hide Le, DoProcess, White, CanStep;
    FirstCanStep(st, data, saved, rng, s);
    NothingSent(TwoPes(st, data, saved, rng), s, First(data));
  }

  lemma NearIsNext(st: LpState, data: Payload, saved: Saved, rng: Rng, s: Sys)
    requires Halfway(s, data)
    ensures var m, x := TwoPes(st, data, saved, rng), Near(data);
      CanStep(m, 1.0, s, Process(x)) && Passed(DoProcess(m, s, x), data)
  {
    var m, x := TwoPes(st, data, saved, rng), Near(data);
    assert Le(x.msg.sig, x.msg.sig);
    NothingSent(m, s, x);
    hide Le, DoProcess;
  }

  lemma BothAreProcessed(st: LpState, data: Payload, saved: Saved, rng: Rng, s: Sys) returns (s': Sys)
    requires Waiting(s, data, Running) && s.gvt == First(data).msg.sig && CanReach(TwoPes(st, data, saved, rng), s)
    ensures CanReach(TwoPes(st, data, saved, rng), s') && Passed(s', data)
  {
    var m := TwoPes(st, data, saved, rng);
    hide TwoPes, First, Near, Waiting, Halfway, Passed, CanReach, DoProcess, CanProcess;
    FirstIsNext(st, data, saved, rng, s);
    Go(m, s, Process(First(data)));
    var s1 := DoProcess(m, s, First(data));
    NearIsNext(st, data, saved, rng, s1);
    Go(m, s1, Process(Near(data)));
    s' := DoProcess(m, s1, Near(data));
  }

  /** Only then is the second event sent. */
  lemma SecondIsSent(st: LpState, data: Payload, saved: Saved, rng: Rng, s: Sys) returns (s': Sys)
    requires Passed(s, data) && CanReach(TwoPes(st, data, saved, rng), s)
    ensures CanReach(TwoPes(st, data, saved, rng), s') && s'.chan(0, 1) == [Packet(Second(data), false)]
    ensures s'.place == s.place && s'.gvt == s.gvt && s'.last == s.last && s'.phase == s.phase && s'.undo == s.undo
    ensures s'.marked == {}
  {
    var m := TwoPes(st, data, saved, rng);
    hide CanReach;
    Go(m, s, FinishSend(First(data)));
    var s1 := DoFinishSend(s, First(data));
    Go(m, s1, Post(Second(data)));
    s' := DoPost(m, s1, Second(data));
  }

  /** It arrives too late. */
  lemma SecondIsLate(st: LpState, data: Payload, saved: Saved, rng: Rng, s: Sys) returns (s': Sys)
    requires Passed(s, data) && CanReach(TwoPes(st, data, saved, rng), s)
    ensures CanReach(TwoPes(st, data, saved, rng), s') && Late(s', data)
  {
    var m, c := TwoPes(st, data, saved, rng), Second(data);
    var s1 := SecondIsSent(st, data, saved, rng, s);
    assert !Le(Near(data).msg.sig, c.msg.sig);
    hide Le, Track, CanReach;
    Go(m, s1, Receive(0, 1));
    s' := DoReceive(m, s1, 0, 1);
    assert s'.place == map[Near(data) := Processed, First(data) := Processed, c := EventQ];
  }

  ghost predicate Late(s: Sys, data: Payload) {
    && s.place == map[Near(data) := Processed, First(data) := Processed, Second(data) := EventQ]
    && s.gvt == First(data).msg.sig && s.last(1) == Near(data).msg.sig && s.phase(1) == Running && s.undo(1) == None
  }

  lemma LateFails(st: LpState, data: Payload, saved: Saved, rng: Rng, s: Sys) returns (s': Sys)
    requires Late(s, data) && CanReach(TwoPes(st, data, saved, rng), s)
    ensures CanReach(TwoPes(st, data, saved, rng), s') && Fails(TwoPes(st, data, saved, rng), 1.0, s')
  {
    var m, c := TwoPes(st, data, saved, rng), Second(data);
    hide CanReach;
    Go(m, s, TakeEvent(c, false));
    s' := DoTakeEvent(s, c, false);
    assert s'.place == map[Near(data) := Processed, First(data) := Processed, c := Pq];
    assert Le(c.msg.sig, c.msg.sig);
    assert c in s'.place && CanStep(m, 1.0, s', Process(c));
  }

  /** Both PEs come to wait for the round while the second event waits to be sent. */
  lemma BothWait(st: LpState, data: Payload, saved: Saved, rng: Rng) returns (s: Sys)
    ensures Waiting(s, data, Reducing) && CanReach(TwoPes(st, data, saved, rng), s)
  {
    var m := TwoPes(st, data, saved, rng);
    assert m.numPes == 2;
    hide Waiting, TwoPes, First, CanReach, Step, CanStep;
    var s0 := FirstArrives(st, data, saved, rng);
    var s1 := BothMove(m, data, s0, Running, Spinning, StartGvt(0), StartGvt(1));
    var s2 := BothMove(m, data, s1, Spinning, Cancelling, DoneEventQ(0), DoneEventQ(1));
    s := BothMove(m, data, s2, Cancelling, Reducing, DoneCancelQ(0), DoneCancelQ(1));
  }

  /** The round that finds the second event still waiting. */
  lemma RoundIsReached(st: LpState, data: Payload, saved: Saved, rng: Rng) returns (s: Sys)
    ensures Waiting(s, data, Running) && s.gvt == First(data).msg.sig && CanReach(TwoPes(st, data, saved, rng), s)
  {
    var m := TwoPes(st, data, saved, rng);
    var s0 := BothWait(st, data, saved, rng);
    hide CanReach, Waiting, CanGvtRound, Busy, TwoPes, First;
    RoundIsPossible(st, data, saved, rng, s0);
    var round := GvtRound(First(data).msg.sig);
    Go(m, s0, round);
    s := Step(m, 1.0, s0, round);
  }

  /** A waiting send that falls into the window of a new GVT leads to the error, here with room for one unfinished send:
      the white counts only see what has been posted, and nothing holds the round back until the rest are. */
  lemma {:induction false} WaitingSendFails(st: LpState, data: Payload, saved: Saved, rng: Rng)
    ensures var m := TwoPes(st, data, saved, rng);
      && ModelOk(m) && KeepsLookahead(m, 1.0)
      && exists run, s :: BusySteps(m, 1.0, InitSys(m), run, s) && Fails(m, 1.0, s)
  {
    TwoPesIsOk(st, data, saved, rng);
    var s0 := RoundIsReached(st, data, saved, rng);
    hide BusySteps, InitSys, Waiting, Passed, Late, ModelOk, KeepsLookahead, Fails, TwoPes, First;
    var s1 := BothAreProcessed(st, data, saved, rng, s0);
    var s2 := SecondIsLate(st, data, saved, rng, s1);
    var s3 := LateFails(st, data, saved, rng, s2);
  }
}
