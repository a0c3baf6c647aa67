/** When a GVT round of the conservative scheduler is harmless: exactly when it leaves what is pending in sequence. */
module ConservativeExact {
  import opened EventSignature
  import opened LpModel
  import opened TimeWarp
  import opened TimeWarpInvariants
  import opened TimeWarpEffects
  import opened TimeWarpSafety
  import opened Conservative

  predicate NoRound(run: seq<Action>) {
    forall a <- run :: !a.GvtRound?
  }

  lemma {:induction false} StepsAppend(m: Model, look: real, s: Sys, a: seq<Action>, s1: Sys, b: seq<Action>, s2: Sys)
    requires Steps(m, look, s, a, s1) && Steps(m, look, s1, b, s2)
    ensures Steps(m, look, s, a + b, s2)
    decreases |a|
  {
    hide CanStep, Step;
    if a == [] {
      assert a + b == b;
    } else {
      assert (a + b)[1..] == a[1..] + b;
      StepsAppend(m, look, Step(m, look, s, a[0]), a[1..], s1, b, s2);
    }
  }

  lemma OneStep(m: Model, look: real, s: Sys, a: Action)
    requires CanStep(m, look, s, a)
    ensures Steps(m, look, s, [a], Step(m, look, s, a)) && Steps(m, look, s, [], s)
  {
    hide CanStep, Step;
    assert Steps(m, look, Step(m, look, s, a), [], Step(m, look, s, a));
    assert [a][1..] == [];
  }

  /** No GVT computation is in progress and nothing is under way. */
  ghost predicate AtRest(m: Model, s: Sys, look: real) {
    && look > 0.0 && s.marked == {} && (forall p :: s.phase(p) == Running && s.undo(p) == None)
    && (forall q, p :: s.chan(q, p) == []) && (forall k :: s.last(k).ts < s.gvt.ts + look)
    && (forall e <- s.place :: s.place[e] in {Pq, Processed})
    && (forall e <- s.place | s.place[e] == Pq :: Le(s.gvt, e.msg.sig))
  }

  /** What is the same after some events have been processed. */
  ghost predicate Keeps(s: Sys, s': Sys) {
    s'.gvt == s.gvt && forall x <- s.wire | s.wire[x].Outq? :: x in s'.wire && s'.wire[x].Outq?
  }

  /** What processing f does: it leaves the queue, and what it sends is past the window. */
  ghost predicate Processes(m: Model, look: real, s: Sys, s': Sys, f: Ev) {
    && AtRest(m, s', look) && Keeps(s, s') && s'.last == Upd(s.last, KpOf(m, f), f.msg.sig)
    && (forall x <- s.place | s.place[x] == Pq && x != f :: x in s'.place && s'.place[x] == Pq)
    && (forall x <- s'.place | s'.place[x] == Pq ::
          x.msg.sig.ts >= s.gvt.ts + look || (x in s.place && s.place[x] == Pq && x != f))
  }

  lemma {:induction false} KidsPast(m: Model, look: real, s: Sys, f: Ev)
    requires KeepsLookahead(m, look) && Le(s.gvt, f.msg.sig)
    ensures forall c <- Kids(PeOf(m, f), s.num(PeOf(m, f)), f, Exec(m, s.lp(f.msg.dest), f.msg).outs) ::
      c.msg.sig.ts >= s.gvt.ts + look
  {
    var outs := Exec(m, s.lp(f.msg.dest), f.msg).outs;
    var kids := Kids(PeOf(m, f), s.num(PeOf(m, f)), f, outs);
    hide Exec, KeepsLookahead, Le;
    forall c <- kids ensures c.msg.sig.ts >= s.gvt.ts + look {
      var i :| 0 <= i < |outs| && kids[i] == c;
      KidsAreOutside(m, look, s, f, i);
    }
  }

  lemma PushAtRest(m: Model, look: real, s: Sys, f: Ev, r: Result)
    requires AtRest(m, s, look) && CanStep(m, look, s, Process(f))
    ensures AtRest(m, Push(m, s, f, r), look) && f in Push(m, s, f, r).done
  {
    hide Le;
  }

  lemma {:induction false} ProcessAtRest(m: Model, look: real, s: Sys, f: Ev)
    requires KeepsLookahead(m, look) && AtRest(m, s, look) && CanStep(m, look, s, Process(f))
    ensures Processes(m, look, s, DoProcess(m, s, f), f)
  {
    var r := Exec(m, s.lp(f.msg.dest), f.msg);
    var kids := Kids(PeOf(m, f), s.num(PeOf(m, f)), f, r.outs);
    var s1 := Push(m, s, f, r);
    assert Le(s.gvt, f.msg.sig);
    hide Exec, Kids, KeepsLookahead, Le, Launch;
    KidsPast(m, look, s, f);
    PushAtRest(m, look, s, f, r);
    LaunchAtRest(m, look, s1, f, kids);
    hide CanStep, AtRest;
  }

  lemma LaunchAtRest(m: Model, look: real, s1: Sys, f: Ev, kids: seq<Ev>)
    requires AtRest(m, s1, look) && f in s1.done && forall c <- kids :: c.msg.sig.ts >= s1.gvt.ts + look
    ensures var s2 := Launch(m, s1, f, kids);
      && AtRest(m, s2, look) && Keeps(s1, s2) && s2.last == s1.last
      && (forall x <- s1.place | s1.place[x] == Pq :: x in s2.place && s2.place[x] == Pq)
      && (forall x <- s2.place | s2.place[x] == Pq ::
            x.msg.sig.ts >= s1.gvt.ts + look || (x in s1.place && s1.place[x] == Pq))
  {
    hide Le, LocalPlace, Launch;
    forall c <- kids ensures LocalPlace(m, s1, c) == Pq && Le(s1.gvt, c.msg.sig) {
      PastIsQueued(m, look, s1, c);
    }
    LaunchPlaces(m, s1, f, kids);
  }

  lemma PastIsQueued(m: Model, look: real, s: Sys, c: Ev)
    requires look > 0.0 && s.last(KpOf(m, c)).ts < s.gvt.ts + look <= c.msg.sig.ts
    ensures LocalPlace(m, s, c) == Pq && Le(s.gvt, c.msg.sig)
  {
    EarlierTime(s.last(KpOf(m, c)), c.msg.sig);
    EarlierTime(s.gvt, c.msg.sig);
  }

  lemma LaunchPlaces(m: Model, s1: Sys, f: Ev, kids: seq<Ev>)
    requires f in s1.done && forall c <- kids :: LocalPlace(m, s1, c) == Pq
    ensures var s2 := Launch(m, s1, f, kids);
      && s2.last == s1.last && s2.gvt == s1.gvt && s2.chan == s1.chan && s2.phase == s1.phase && s2.undo == s1.undo
      && s2.marked == s1.marked && Keeps(s1, s2)
      && (forall x <- s1.place | s1.place[x] == Pq :: x in s2.place && s2.place[x] == Pq)
      && (forall x <- s2.place :: (s2.place[x] == Pq && x in kids) || (x in s1.place && s2.place[x] == s1.place[x]))
  {
    hide LocalPlace;
  }

  /** The queued events of e's PE that are earlier. */
  ghost function Earlier(m: Model, s: Sys, e: Ev): set<Ev> {
    set f | f in s.place && s.place[f] == Pq && PeOf(m, f) == PeOf(m, e) && !Le(e.msg.sig, f.msg.sig)
  }

  lemma {:induction false} LeastOf(es: set<Ev>) returns (f: Ev)
    requires es != {}
    ensures f in es && forall x <- es :: Le(f.msg.sig, x.msg.sig)
  {
    LeIsTotalOrder();
    hide Le;
    var y :| y in es;
    if es == {y} {
      f := y;
    } else {
      var g := LeastOf(es - {y});
      f := if Le(g.msg.sig, y.msg.sig) then g else y;
    }
  }

  /** The least queued event of e's PE can be processed, and is earlier than e if any is. */
  lemma {:induction false} LeastCanStep(m: Model, look: real, s: Sys, e: Ev) returns (f: Ev)
    requires AtRest(m, s, look) && e in s.place && s.place[e] == Pq && e.msg.sig.ts < s.gvt.ts + look
    requires Earlier(m, s, e) != {}
    ensures CanStep(m, look, s, Process(f)) && f in Earlier(m, s, e)
  {
    f := LeastOf(Earlier(m, s, e));
    LeIsTotalOrder();
    EarlierTime(f.msg.sig, e.msg.sig);
    hide Le;
  }

  lemma FailsAt(m: Model, look: real, s: Sys, e: Ev)
    requires CanStep(m, look, s, Process(e)) && !Le(s.last(KpOf(m, e)), e.msg.sig)
    ensures Fails(m, look, s)
  {
    LeIs(s.last(KpOf(m, e)), e.msg.sig);
    assert e in s.place;
  }

  /** e is next to be processed; if its KP was already past it, it still is. */
  ghost predicate IsNext(m: Model, look: real, s: Sys, s': Sys, e: Ev) {
    && AtRest(m, s', look) && Keeps(s, s') && CanStep(m, look, s', Process(e))
    && (!Le(s.last(KpOf(m, e)), e.msg.sig) ==> s'.last(KpOf(m, e)) == s.last(KpOf(m, e)))
  }

  /** Processing what is earlier makes e the next event, unless that fails. */
  lemma {:induction false} DrainTo(m: Model, look: real, s: Sys, e: Ev) returns (run: seq<Action>, s': Sys)
    requires KeepsLookahead(m, look) && AtRest(m, s, look) && e in s.place && s.place[e] == Pq
    requires e.msg.sig.ts < s.gvt.ts + look
    ensures Steps(m, look, s, run, s') && NoRound(run) && (Fails(m, look, s') || IsNext(m, look, s, s', e))
    decreases |Earlier(m, s, e)|
  {
    hide KeepsLookahead;
    if Earlier(m, s, e) == {} {
      run, s' := [], s;
      NothingEarlier(m, look, s, e);
    } else {
      var f := LeastCanStep(m, look, s, e);
      if !Le(s.last(KpOf(m, f)), f.msg.sig) {
        FailsAt(m, look, s, f);
        run, s' := [], s;
      } else {
        run, s' := DrainPast(m, look, s, e, f);
      }
    }
  }

  lemma NothingEarlier(m: Model, look: real, s: Sys, e: Ev)
    requires AtRest(m, s, look) && e in s.place && s.place[e] == Pq && e.msg.sig.ts < s.gvt.ts + look
    requires Earlier(m, s, e) == {}
    ensures IsNext(m, look, s, s, e)
  {
    hide Le;
    forall f <- s.place | s.place[f] == Pq && PeOf(m, f) == PeOf(m, e) ensures Le(e.msg.sig, f.msg.sig) {
      assert f !in Earlier(m, s, e);
    }
  }

  lemma {:induction false} DrainPast(m: Model, look: real, s: Sys, e: Ev, f: Ev) returns (run: seq<Action>, s': Sys)
    requires KeepsLookahead(m, look) && AtRest(m, s, look) && e in s.place && s.place[e] == Pq
    requires e.msg.sig.ts < s.gvt.ts + look
    requires CanStep(m, look, s, Process(f)) && f in Earlier(m, s, e) && Le(s.last(KpOf(m, f)), f.msg.sig)
    ensures Steps(m, look, s, run, s') && NoRound(run) && (Fails(m, look, s') || IsNext(m, look, s, s', e))
    decreases |Earlier(m, s, e)|, 0
  {
    ProcessAtRest(m, look, s, f);
    var s1 := DoProcess(m, s, f);
    LeIsTotalOrder();
    FewerEarlier(m, look, s, s1, e, f);
    OneStep(m, look, s, Process(f));
    assert e != f;
    hide Le, KeepsLookahead, CanStep, DoProcess, AtRest, Earlier, Fails, Steps;
    var rest;
    rest, s' := DrainTo(m, look, s1, e);
    StepsAppend(m, look, s, [Process(f)], s1, rest, s');
    run := [Process(f)] + rest;
  }

  lemma FewerEarlier(m: Model, look: real, s: Sys, s1: Sys, e: Ev, f: Ev)
    requires Processes(m, look, s, s1, f) && f in Earlier(m, s, e) && e.msg.sig.ts < s.gvt.ts + look
    ensures |Earlier(m, s1, e)| < |Earlier(m, s, e)|
  {
    forall x <- Earlier(m, s1, e) ensures x in Earlier(m, s, e) - {f} {
      EarlierTime(e.msg.sig, x.msg.sig);
    }
    SmallerThan(Earlier(m, s1, e), Earlier(m, s, e), f);
  }

  lemma SmallerThan(a: set<Ev>, b: set<Ev>, f: Ev)
    requires a <= b - {f} && f in b
    ensures |a| < |b|
  {
    Subset(a, b - {f});
  }

  lemma {:induction false} Subset(a: set<Ev>, b: set<Ev>)
    requires a <= b
    ensures |a| <= |b|
  {
    if a != {} {
      var x :| x in a;
      Subset(a - {x}, b - {x});
    }
  }

  /** The state with c arrived, and the others that wait still waiting. */
  ghost predicate WithArrived(s: Sys, s': Sys, c: Ev, at: Place) {
    && s'.place == s.place[c := at] && s'.last == s.last && s'.gvt == s.gvt && s'.marked == s.marked
    && s'.phase == s.phase && s'.undo == s.undo && (forall q, p :: s'.chan(q, p) == [])
    && forall x <- s.wire | s.wire[x].Outq? && x != c :: x in s'.wire && s'.wire[x].Outq?
  }

  lemma PostAndReceive(m: Model, look: real, s: Sys, c: Ev) returns (s': Sys)
    requires AtRest(m, s, look) && c in s.wire && s.wire[c].Outq?
    ensures Steps(m, look, s, [Post(c), Receive(c.pe, PeOf(m, c))], s')
    ensures WithArrived(s, s', c, if Le(s.last(KpOf(m, c)), c.msg.sig) then Pq else EventQ)
  {
    hide Le, Track;
    var s1 := DoPost(m, s, c);
    assert s1.chan(c.pe, PeOf(m, c)) == [Packet(c, false)];
    s' := DoReceive(m, s1, c.pe, PeOf(m, c));
    assert [Post(c), Receive(c.pe, PeOf(m, c))][1..] == [Receive(c.pe, PeOf(m, c))];
    OneStep(m, look, s1, Receive(c.pe, PeOf(m, c)));
  }

  lemma ArrivedAtRest(m: Model, look: real, s: Sys, s': Sys, c: Ev)
    requires AtRest(m, s, look) && WithArrived(s, s', c, Pq) && Le(s.gvt, c.msg.sig)
    ensures AtRest(m, s', look)
  {
    hide Le;
  }

  /** A waiting event can be brought into its destination's queue, in time or not. */
  lemma {:induction false} Delivered(m: Model, look: real, s: Sys, c: Ev) returns (run: seq<Action>, s': Sys)
    requires AtRest(m, s, look) && c in s.wire && s.wire[c].Outq? && Le(s.gvt, c.msg.sig)
    ensures Steps(m, look, s, run, s') && NoRound(run) && AtRest(m, s', look) && WithArrived(s, s', c, Pq)
  {
    var s1 := PostAndReceive(m, look, s, c);
    run := [Post(c), Receive(c.pe, PeOf(m, c))];
    if Le(s.last(KpOf(m, c)), c.msg.sig) {
      s' := s1;
    } else {
      assert CanStep(m, look, s1, TakeEvent(c, false));
      s' := DoTakeEvent(s1, c, false);
      OneStep(m, look, s1, TakeEvent(c, false));
      hide Steps, AtRest;
      StepsAppend(m, look, s, run, s1, [TakeEvent(c, false)], s');
      run := run + [TakeEvent(c, false)];
    }
    ArrivedAtRest(m, look, s, s', c);
  }

  /** c waits, and x, of the same KP, is later, inside the window, and queued. */
  ghost predicate Overtaken(m: Model, s: Sys, look: real, c: Ev, x: Ev) {
    && c in s.wire && s.wire[c].Outq? && x in s.place && s.place[x] == Pq && Le(s.gvt, c.msg.sig)
    && KpOf(m, c) == KpOf(m, x) && x.msg.sig.ts < s.gvt.ts + look && !Le(x.msg.sig, c.msg.sig)
  }

  /** Then x can be processed first, after which c arrives too late. */
  lemma {:induction false} OvertakenFails(m: Model, look: real, s: Sys, c: Ev, x: Ev)
    returns (run: seq<Action>, s': Sys)
    requires KeepsLookahead(m, look) && AtRest(m, s, look) && Overtaken(m, s, look, c, x)
    ensures Steps(m, look, s, run, s') && NoRound(run) && Fails(m, look, s')
  {
    EarlierTime(x.msg.sig, c.msg.sig);
    hide KeepsLookahead, AtRest, Steps, Fails, CanStep, Le;
    run, s' := DrainTo(m, look, s, x);
    if !Fails(m, look, s') {
      ProcessAtRest(m, look, s', x);
      OneStep(m, look, s', Process(x));
      var s2 := DoProcess(m, s', x);
      hide DoProcess;
      StepsAppend(m, look, s, run, s', [Process(x)], s2);
      var run3, s3 := ArrivesTooLate(m, look, s2, c);
      StepsAppend(m, look, s, run + [Process(x)], s2, run3, s3);
      run, s' := run + [Process(x)] + run3, s3;
    }
  }

  lemma {:induction false} ArrivesTooLate(m: Model, look: real, s: Sys, c: Ev) returns (run: seq<Action>, s': Sys)
    requires KeepsLookahead(m, look) && AtRest(m, s, look) && c in s.wire && s.wire[c].Outq? && Le(s.gvt, c.msg.sig)
    requires !Le(s.last(KpOf(m, c)), c.msg.sig) && c.msg.sig.ts < s.gvt.ts + look
    ensures Steps(m, look, s, run, s') && NoRound(run) && Fails(m, look, s')
  {
    hide KeepsLookahead, AtRest, Steps, Fails, CanStep, Le;
    var run1, s1 := Delivered(m, look, s, c);
    var run2, s2 := DrainTo(m, look, s1, c);
    StepsAppend(m, look, s, run1, s1, run2, s2);
    run, s' := run1 + run2, s2;
    if !Fails(m, look, s2) {
      FailsAt(m, look, s2, c);
    }
  }

  /** If x still has to come it is brought first. */
  lemma {:induction false} PendingFails(m: Model, look: real, s: Sys, c: Ev, x: Ev) returns (run: seq<Action>, s': Sys)
    requires KeepsLookahead(m, look) && AtRest(m, s, look) && c in s.wire && s.wire[c].Outq? && Le(s.gvt, c.msg.sig)
    requires Pending(m, s, x) && Le(s.gvt, x.msg.sig)
    requires KpOf(m, c) == KpOf(m, x) && x.msg.sig.ts < s.gvt.ts + look && !Le(x.msg.sig, c.msg.sig)
    ensures Steps(m, look, s, run, s') && NoRound(run) && Fails(m, look, s')
  {
    if x in s.place && s.place[x] == Pq {
      run, s' := OvertakenFails(m, look, s, c, x);
    } else {
      LeIsTotalOrder();
      assert x in s.wire && s.wire[x].Outq?;
      hide KeepsLookahead, AtRest, Steps, Fails, Le;
      var run1, s1 := Delivered(m, look, s, x);
      var run2, s2 := OvertakenFails(m, look, s1, c, x);
      StepsAppend(m, look, s, run1, s1, run2, s2);
      run, s' := run1 + run2, s2;
    }
  }

  lemma RoundAtRest(m: Model, look: real, s: Sys, g: Sig)
    requires Core(m, s) && Window(m, s, look) && CanGvtRound(m, s, g)
    ensures var s1 := DoGvtRound(s, g);
      && Core(m, s1) && AtRest(m, s1, look) && Inside(m, s1, look) && NothingUndone(s1)
      && forall e | Pending(m, s1, e) :: Le(s1.gvt, e.msg.sig)
  {
    var s1 := DoGvtRound(s, g);
    CoreHas(m, s);
    ApplyKeepsCore(m, s, GvtRound(g));
    CoreHas(m, s1);
    NothingInFlight(m, s, g);
    assert Inside(m, s, look) && NothingUndone(s);
    hide Core, CanGvtRound, Births, Flights, Routes;
    RoundKeepsWindow(m, look, s, g);
    assert s1.chan == s.chan && forall p :: s1.phase(p) == Running;
    hide DoGvtRound, InSequence;
    RestFollows(m, look, s1);
  }

  lemma RestFollows(m: Model, look: real, s: Sys)
    requires Inside(m, s, look) && NothingUndone(s) && Bounds(m, s)
    requires (forall q, p :: s.chan(q, p) == []) && forall p :: s.phase(p) == Running
    ensures AtRest(m, s, look) && forall e | Pending(m, s, e) :: Le(s.gvt, e.msg.sig)
  {
    hide Le;
  }

  lemma {:induction false} NoRoundIsInSequence(m: Model, look: real, s: Sys, run: seq<Action>)
    requires NoRound(run)
    ensures RoundsInSequence(m, look, s, run)
    decreases |run|
  {
    hide CanStep, Step, InSequence;
    if run != [] && CanStep(m, look, s, run[0]) {
      assert run[0] in run;
      NoRoundIsInSequence(m, look, Step(m, look, s, run[0]), run[1..]);
    }
  }

  /** A round is harmless, whatever the PEs do until the next one, exactly if it leaves what is pending in sequence. */
  lemma {:induction false} RoundIsHarmlessIff(m: Model, look: real, run: seq<Action>, s: Sys, g: Sig)
    requires ModelOk(m) && KeepsLookahead(m, look)
    requires Steps(m, look, InitSys(m), run, s) && RoundsInSequence(m, look, InitSys(m), run) && CanGvtRound(m, s, g)
    ensures var s1 := DoGvtRound(s, g);
      InSequence(m, s1, look) <==>
        forall run', s' | Steps(m, look, s1, run', s') && NoRound(run') :: !Fails(m, look, s')
  {
    var s1 := DoGvtRound(s, g);
    InitIsCore(m);
    InitIsWindow(m, look);
    assert Window(m, s1, look) <== InSequence(m, s1, look) && Inside(m, s1, look) && NothingUndone(s1);
    hide Core, ModelOk, Steps, RoundsInSequence, KeepsLookahead, InitSys, Window, Inside, NothingUndone, Fails,
      CanGvtRound, AtRest, Pending, Le;
    StepsKeepWindow(m, look, InitSys(m), run, s);
    RoundAtRest(m, look, s, g);
    hide DoGvtRound;
    if InSequence(m, s1, look) {
      forall run', s' | Steps(m, look, s1, run', s') && NoRound(run') ensures !Fails(m, look, s') {
        NoRoundIsInSequence(m, look, s1, run');
        StepsKeepWindow(m, look, s1, run', s');
        WindowIsFine(m, look, s');
      }
    } else {
      var c, x :| Coming(m, s1, c) && Pending(m, s1, x) && KpOf(m, c) == KpOf(m, x) && x.msg.sig.ts < s1.gvt.ts + look
        && !Le(x.msg.sig, c.msg.sig);
      ComingWaits(m, s1, look, c);
      var run', s' := PendingFails(m, look, s1, c, x);
    }
  }

  lemma ComingWaits(m: Model, s: Sys, look: real, c: Ev)
    requires AtRest(m, s, look) && Coming(m, s, c)
    ensures c in s.wire && s.wire[c].Outq? && Pending(m, s, c)
  {
  }
}
