/** Every reachable state satisfies every invariant. */
module TimeWarpSafety {
  import opened EventSignature
  import opened LpModel
  import opened TimeWarp
  import opened TimeWarpInvariants
  import opened TimeWarpFacts
  import opened TimeWarpSteps
  import opened TimeWarpEffects

  lemma {:induction false} ProcessKeepsCore(m: Model, s: Sys, e: Ev)
    requires Core(m, s) && CanProcess(m, s, e)
    ensures Core(m, DoProcess(m, s, e))
  {
    hide Le, Ids, Births, Stacks, Histories, Dones, Owners, Marks, Sorted, Ahead, Bounds, Phases, Routes, Arriving,
      Stages, Antis, Lookup, KidsLive, Causes, Flights, LpsAgree, LinesRecorded;
    NextFacts(m, s, e);
    KidsFacts(m, s, e);
    var r := Exec(m, s.lp(e.msg.dest), e.msg);
    var kids := Kids(PeOf(m, e), s.num(PeOf(m, e)), e, r.outs);
    var s1, s' := Push(m, s, e, r), DoProcess(m, s, e);
    PushKeepsBirths(m, s, e, r); PushKeepsBounds(m, s, e, r); PushKeepsPhases(m, s, e, r);
    PushKeepsStacks(m, s, e, r); PushKeepsHistories(m, s, e, r); PushKeepsRecords(m, s, e, r);
    PushKeepsSorted(m, s, e, r); PushKeepsAhead(m, s, e, r); PushKeepsRoutes(m, s, e, r);
    PushKeepsArriving(m, s, e, r); PushKeepsStages(m, s, e, r); PushKeepsKidsLive(m, s, e, r);
    PushKeepsCauses(m, s, e, r);
    FrameQueues(m, s, s1); FrameTraffic(m, s, s1);
    LaunchKeepsIds(m, s1, e, kids); LaunchKeepsBirths(m, s1, e, kids); LaunchKeepsBounds(m, s1, e, kids);
    LaunchKeepsPhases(m, s1, e, kids); LaunchKeepsStacks(m, s1, e, kids); LaunchKeepsHistories(m, s1, e, kids);
    LaunchKeepsDones(m, s1, e, kids); LaunchKeepsOwners(m, s1, e, kids); LaunchKeepsMarks(m, s1, e, kids);
    LaunchKeepsAhead(m, s1, e, kids); LaunchKeepsRoutes(m, s1, e, kids); LaunchKeepsArriving(m, s1, e, kids);
    LaunchKeepsStages(m, s1, e, kids); LaunchKeepsKidsLive(m, s1, e, kids); LaunchKeepsCauses(m, s1, e, kids);
    FrameQueues(m, s1, s'); FrameTraffic(m, s1, s'); FrameFlights(m, s, s');
    ProcessKeepsLpsAgree(m, s, e); ProcessKeepsLinesRecorded(m, s, e);
  }

  lemma {:induction false} BeginUndoKeepsCore(m: Model, s: Sys, k: int)
    requires Core(m, s) && CanBeginUndo(m, s, k)
    ensures Core(m, DoBeginUndo(m, s, k))
  {
    hide Le, Ids, Births, Stacks, Histories, Dones, Owners, Marks, Sorted, Ahead, Bounds, Phases, Routes, Arriving,
      Stages, Antis, Lookup, KidsLive, Causes, Flights, LpsAgree, LinesRecorded;
    TopFacts(m, s, k);
    var s' := DoBeginUndo(m, s, k);
    BeginUndoKeepsBirths(m, s, k); BeginUndoKeepsBounds(m, s, k); BeginUndoKeepsPhases(m, s, k);
    BeginUndoKeepsStacks(m, s, k); BeginUndoKeepsHistories(m, s, k); BeginUndoKeepsRecords(m, s, k);
    BeginUndoKeepsSorted(m, s, k); BeginUndoKeepsAhead(m, s, k); BeginUndoKeepsRoutes(m, s, k);
    BeginUndoKeepsArriving(m, s, k); BeginUndoKeepsStages(m, s, k); BeginUndoKeepsKidsLive(m, s, k);
    BeginUndoKeepsCauses(m, s, k); BeginUndoKeepsLpsAgree(m, s, k); BeginUndoKeepsLinesRecorded(m, s, k);
    FrameQueues(m, s, s'); FrameTraffic(m, s, s'); FrameFlights(m, s, s');
  }

  lemma {:induction false} CancelKidKeepsCore(m: Model, s: Sys, p: int)
    requires Core(m, s) && CanCancelKid(s, p)
    ensures Core(m, DoCancelKid(m, s, p))
  {
    hide Le, Ids, Births, Stacks, Histories, Dones, Owners, Marks, Sorted, Ahead, Bounds, Phases, Routes, Arriving,
      Stages, Antis, Lookup, KidsLive, Causes, Flights, LpsAgree, LinesRecorded;
    UndoFacts(m, s, p);
    AnnulFacts(m, s, p);
    var s' := DoCancelKid(m, s, p);
    CancelKidKeepsBirths(m, s, p); CancelKidKeepsBounds(m, s, p); CancelKidKeepsPhases(m, s, p);
    CancelKidKeepsStacks(m, s, p); CancelKidKeepsHistories(m, s, p); CancelKidKeepsRecords(m, s, p);
    CancelKidKeepsAhead(m, s, p); CancelKidKeepsRoutes(m, s, p); CancelKidKeepsArriving(m, s, p);
    CancelKidKeepsStages(m, s, p); CancelKidKeepsKidsLive(m, s, p); CancelKidKeepsCauses(m, s, p);
    CancelKidKeepsLpsAgree(m, s, p); CancelKidKeepsLinesRecorded(m, s, p);
    FrameQueues(m, s, s'); FrameFlights(m, s, s');
  }

  lemma {:induction false} EndUndoKeepsCore(m: Model, s: Sys, p: int, drop: bool, reset: bool)
    requires Core(m, s) && CanEndUndo(s, p, drop)
    ensures Core(m, DoEndUndo(m, s, p, drop, reset))
  {
    hide Le, Ids, Births, Stacks, Histories, Dones, Owners, Marks, Sorted, Ahead, Bounds, Phases, Routes, Arriving,
      Stages, Antis, Lookup, KidsLive, Causes, Flights, LpsAgree, LinesRecorded;
    UndoFacts(m, s, p);
    var s' := DoEndUndo(m, s, p, drop, reset);
    EndUndoKeepsBirths(m, s, p, drop, reset); EndUndoKeepsBounds(m, s, p, drop, reset);
    EndUndoKeepsPhases(m, s, p, drop, reset); EndUndoKeepsStacks(m, s, p, drop, reset);
    EndUndoKeepsHistories(m, s, p, drop, reset); EndUndoKeepsRecords(m, s, p, drop, reset);
    EndUndoKeepsAhead(m, s, p, drop, reset); EndUndoKeepsRoutes(m, s, p, drop, reset);
    EndUndoKeepsArriving(m, s, p, drop, reset); EndUndoKeepsStages(m, s, p, drop, reset);
    EndUndoKeepsKidsLive(m, s, p, drop, reset); EndUndoKeepsCauses(m, s, p, drop, reset);
    EndUndoKeepsLpsAgree(m, s, p, drop, reset); EndUndoKeepsLinesRecorded(m, s, p, drop, reset);
    FrameQueues(m, s, s'); FrameTraffic(m, s, s'); FrameFlights(m, s, s');
  }

  lemma {:induction false} TakeEventKeepsCore(m: Model, s: Sys, e: Ev, drop: bool)
    requires Core(m, s) && CanTakeEvent(m, s, e, drop)
    ensures Core(m, DoTakeEvent(s, e, drop))
  {
    hide Le, Ids, Births, Stacks, Histories, Dones, Owners, Marks, Sorted, Ahead, Bounds, Phases, Routes, Arriving,
      Stages, Antis, Lookup, KidsLive, Causes, Flights, LpsAgree, LinesRecorded;
    var s' := DoTakeEvent(s, e, drop);
    TakeEventKeepsBirths(m, s, e, drop); TakeEventKeepsBounds(m, s, e, drop); TakeEventKeepsPhases(m, s, e, drop);
    TakeEventKeepsStacks(m, s, e, drop); TakeEventKeepsHistories(m, s, e, drop); TakeEventKeepsRecords(m, s, e, drop);
    TakeEventKeepsAhead(m, s, e, drop); TakeEventKeepsRoutes(m, s, e, drop); TakeEventKeepsArriving(m, s, e, drop);
    TakeEventKeepsStages(m, s, e, drop); TakeEventKeepsKidsLive(m, s, e, drop); TakeEventKeepsCauses(m, s, e, drop);
    FrameQueues(m, s, s'); FrameTraffic(m, s, s'); FrameFlights(m, s, s'); FrameReplays(m, s, s');
  }

  lemma {:induction false} TakeCancelledKeepsCore(m: Model, s: Sys, e: Ev)
    requires Core(m, s) && CanTakeCancelled(m, s, e)
    ensures Core(m, DoTakeCancelled(s, e))
  {
    hide Le, Ids, Births, Stacks, Histories, Dones, Owners, Marks, Sorted, Ahead, Bounds, Phases, Routes, Arriving,
      Stages, Antis, Lookup, KidsLive, Causes, Flights, LpsAgree, LinesRecorded;
    var s' := DoTakeCancelled(s, e);
    TakeCancelledKeepsBirths(m, s, e); TakeCancelledKeepsBounds(m, s, e); TakeCancelledKeepsPhases(m, s, e);
    TakeCancelledKeepsStacks(m, s, e); TakeCancelledKeepsHistories(m, s, e); TakeCancelledKeepsRecords(m, s, e);
    TakeCancelledKeepsAhead(m, s, e); TakeCancelledKeepsRoutes(m, s, e); TakeCancelledKeepsArriving(m, s, e);
    TakeCancelledKeepsStages(m, s, e); TakeCancelledKeepsKidsLive(m, s, e); TakeCancelledKeepsCauses(m, s, e);
    FrameQueues(m, s, s'); FrameTraffic(m, s, s'); FrameFlights(m, s, s'); FrameReplays(m, s, s');
  }

  lemma {:induction false} PostKeepsCore(m: Model, s: Sys, e: Ev)
    requires Core(m, s) && CanPost(s, e)
    ensures Core(m, DoPost(m, s, e))
  {
    hide Le, Ids, Births, Stacks, Histories, Dones, Owners, Marks, Sorted, Ahead, Bounds, Phases, Routes, Arriving,
      Stages, Antis, Lookup, KidsLive, Causes, Flights, LpsAgree, LinesRecorded;
    PostFacts(m, s, e);
    var s' := DoPost(m, s, e);
    PostKeepsBirths(m, s, e); PostKeepsBounds(m, s, e); PostKeepsRoutes(m, s, e); PostKeepsArriving(m, s, e);
    PostKeepsStages(m, s, e); PostKeepsKidsLive(m, s, e); PostKeepsCauses(m, s, e); PostKeepsAntis(m, s, e);
    PostKeepsFlights(m, s, e);
    FrameQueues(m, s, s'); FrameTraffic(m, s, s'); FrameReplays(m, s, s');
  }

  lemma {:induction false} FinishSendKeepsCore(m: Model, s: Sys, e: Ev)
    requires Core(m, s) && CanFinishSend(s, e)
    ensures Core(m, DoFinishSend(s, e))
  {
    hide Le, Ids, Births, Stacks, Histories, Dones, Owners, Marks, Sorted, Ahead, Bounds, Phases, Routes, Arriving,
      Stages, Antis, Lookup, KidsLive, Causes, Flights, LpsAgree, LinesRecorded;
    var s' := DoFinishSend(s, e);
    FinishSendKeepsBirths(m, s, e); FinishSendKeepsBounds(m, s, e); FinishSendKeepsRoutes(m, s, e);
    FinishSendKeepsStages(m, s, e); FinishSendKeepsKidsLive(m, s, e); FinishSendKeepsCauses(m, s, e);
    FrameQueues(m, s, s'); FrameTraffic(m, s, s'); FrameFlights(m, s, s'); FrameReplays(m, s, s');
  }

  lemma {:induction false} ReceiveKeepsCore(m: Model, s: Sys, q: int, p: int)
    requires Core(m, s) && s.chan(q, p) != []
    ensures Core(m, DoReceive(m, s, q, p))
  {
    hide Le, Ids, Births, Stacks, Histories, Dones, Owners, Marks, Sorted, Ahead, Bounds, Phases, Routes, Arriving,
      Stages, Antis, Lookup, KidsLive, Causes, Flights, LpsAgree, LinesRecorded;
    ArrivalFacts(m, s, q, p);
    var s' := DoReceive(m, s, q, p);
    ReceiveKeepsBirths(m, s, q, p); ReceiveKeepsBounds(m, s, q, p); ReceiveKeepsPhases(m, s, q, p);
    ReceiveKeepsStacks(m, s, q, p); ReceiveKeepsHistories(m, s, q, p); ReceiveKeepsRecords(m, s, q, p);
    ReceiveKeepsAhead(m, s, q, p); ReceiveKeepsRoutes(m, s, q, p); ReceiveKeepsArriving(m, s, q, p);
    ReceiveKeepsStages(m, s, q, p); ReceiveKeepsKidsLive(m, s, q, p); ReceiveKeepsCauses(m, s, q, p);
    ReceiveKeepsAntis(m, s, q, p); ReceiveKeepsFlights(m, s, q, p);
    FrameQueues(m, s, s'); FrameReplays(m, s, s');
  }

  lemma {:induction false} StartGvtKeepsCore(m: Model, s: Sys, p: int)
    requires Core(m, s) && CanStartGvt(m, s, p)
    ensures Core(m, SetPhase(s, p, Spinning))
  {
    hide Le, Ids, Births, Stacks, Histories, Dones, Owners, Marks, Sorted, Ahead, Bounds, Phases, Routes, Arriving,
      Stages, Antis, Lookup, KidsLive, Causes, Flights, LpsAgree, LinesRecorded;
    var s' := SetPhase(s, p, Spinning);
    StartGvtKeepsPhases(m, s, p);
    FrameQueues(m, s, s'); FrameTraffic(m, s, s'); FrameCauses(m, s, s'); FrameFlights(m, s, s');
    FrameReplays(m, s, s');
  }

  lemma {:induction false} DoneEventQKeepsCore(m: Model, s: Sys, p: int)
    requires Core(m, s) && EventQDrained(m, s, p)
    ensures Core(m, SetPhase(s, p, Cancelling))
  {
    hide Le, Ids, Births, Stacks, Histories, Dones, Owners, Marks, Sorted, Ahead, Bounds, Phases, Routes, Arriving,
      Stages, Antis, Lookup, KidsLive, Causes, Flights, LpsAgree, LinesRecorded;
    var s' := SetPhase(s, p, Cancelling);
    DoneEventQKeepsPhases(m, s, p);
    FrameQueues(m, s, s'); FrameTraffic(m, s, s'); FrameCauses(m, s, s'); FrameFlights(m, s, s');
    FrameReplays(m, s, s');
  }

  lemma {:induction false} DoneCancelQKeepsCore(m: Model, s: Sys, p: int)
    requires Core(m, s) && CancelQDrained(m, s, p)
    ensures Core(m, SetPhase(s, p, Reducing))
  {
    hide Le, Ids, Births, Stacks, Histories, Dones, Owners, Marks, Sorted, Ahead, Bounds, Phases, Routes, Arriving,
      Stages, Antis, Lookup, KidsLive, Causes, Flights, LpsAgree, LinesRecorded;
    var s' := SetPhase(s, p, Reducing);
    DoneCancelQKeepsPhases(m, s, p);
    FrameQueues(m, s, s'); FrameTraffic(m, s, s'); FrameCauses(m, s, s'); FrameFlights(m, s, s');
    FrameReplays(m, s, s');
  }

  lemma {:induction false} GvtRoundKeepsCore(m: Model, s: Sys, g: Sig)
    requires Core(m, s) && CanGvtRound(m, s, g)
    ensures Core(m, DoGvtRound(s, g))
  {
    hide Le, Ids, Births, Stacks, Histories, Dones, Owners, Marks, Sorted, Ahead, Bounds, Phases, Routes, Arriving,
      Stages, Antis, Lookup, KidsLive, Causes, Flights, LpsAgree, LinesRecorded;
    var s' := DoGvtRound(s, g);
    GvtRoundKeepsPhases(m, s, g); GvtRoundKeepsBounds(m, s, g); GvtRoundKeepsFlights(m, s, g);
    FrameQueues(m, s, s'); FrameTraffic(m, s, s'); FrameCauses(m, s, s'); FrameReplays(m, s, s');
  }

  lemma {:induction false} FossilKeepsCore(m: Model, s: Sys, k: int)
    requires Core(m, s)
    ensures Core(m, DoFossil(s, k))
  {
    hide Le, Ids, Births, Stacks, Histories, Dones, Owners, Marks, Sorted, Ahead, Bounds, Phases, Routes, Arriving,
      Stages, Antis, Lookup, KidsLive, Causes, Flights, LpsAgree, LinesRecorded;
    FossilFacts(m, s, k);
    var n := CountBelow(s.stack(k), s.gvt);
    var s' := DoFossil(s, k);
    FossilKeepsBirths(m, s, k, n); FossilKeepsBounds(m, s, k, n); FossilKeepsPhases(m, s, k, n);
    FossilKeepsStacks(m, s, k, n); FossilKeepsHistories(m, s, k, n); FossilKeepsRecords(m, s, k, n);
    FossilKeepsSorted(m, s, k, n); FossilKeepsAhead(m, s, k, n); FossilKeepsRoutes(m, s, k, n);
    FossilKeepsArriving(m, s, k, n); FossilKeepsStages(m, s, k, n); FossilKeepsKidsLive(m, s, k, n);
    FossilKeepsCauses(m, s, k, n); FossilKeepsLpsAgree(m, s, k, n); FossilKeepsLinesRecorded(m, s, k, n);
    FrameQueues(m, s, s'); FrameFlights(m, s, s');
  }

  lemma {:induction false} ApplyKeepsCore(m: Model, s: Sys, a: Action)
    requires Core(m, s) && Enabled(m, s, a)
    ensures Core(m, Apply(m, s, a))
  {
    hide Core;
    match a
    case Process(e) => ProcessKeepsCore(m, s, e);
    case BeginUndo(k) => BeginUndoKeepsCore(m, s, k);
    case CancelKid(p) => CancelKidKeepsCore(m, s, p);
    case EndUndo(p, drop, reset) => EndUndoKeepsCore(m, s, p, drop, reset);
    case TakeEvent(e, drop) => TakeEventKeepsCore(m, s, e, drop);
    case TakeCancelled(e) => TakeCancelledKeepsCore(m, s, e);
    case Post(e) => PostKeepsCore(m, s, e);
    case FinishSend(e) => FinishSendKeepsCore(m, s, e);
    case Receive(q, p) => ReceiveKeepsCore(m, s, q, p);
    case StartGvt(p) => StartGvtKeepsCore(m, s, p);
    case DoneEventQ(p) => DoneEventQKeepsCore(m, s, p);
    case DoneCancelQ(p) => DoneCancelQKeepsCore(m, s, p);
    case GvtRound(g) => GvtRoundKeepsCore(m, s, g);
    case Fossil(k) => FossilKeepsCore(m, s, k);
  }

  lemma {:induction false} NoneInFlight(chan: (int, int) -> seq<Packet>, nq: nat, n: nat)
    requires forall q, p :: chan(q, p) == []
    ensures InFlight(chan, nq, n) == 0
  {
    if nq > 0 {
      NoneInFlight(chan, nq - 1, n);
      NoneInRow(chan, nq - 1, n);
    }
  }

  lemma {:induction false} NoneInRow(chan: (int, int) -> seq<Packet>, q: int, n: nat)
    requires forall p :: chan(q, p) == []
    ensures RowLen(chan, q, n) == 0
  {
    if n > 0 {
      NoneInRow(chan, q, n - 1);
    }
  }

  lemma InitIsQuiet(m: Model)
    ensures var s := InitSys(m); Flights(m, s) && LpsAgree(m, s) && LinesRecorded(m, s) && Phases(m, s)
  {
    var s := InitSys(m);
    NoneInFlight(s.chan, m.numPes, m.numPes);
    WhiteOnlyReads(s.sent, s.recv, m.numPes);
  }

  lemma InitIsBounded(m: Model)
    requires ModelOk(m)
    ensures var s := InitSys(m); Bounds(m, s) && Ids(m, s) && Births(m, s)
  {
    LeIsTotalOrder();
    assert Le(ZERO_SIG, MAX_SIG);
    hide Le;
  }

  lemma InitIsInPlace(m: Model)
    ensures var s := InitSys(m);
      && Stacks(m, s) && Histories(m, s) && Dones(s) && Owners(m, s) && Marks(s) && Sorted(s) && Ahead(m, s)
      && Routes(m, s) && Arriving(m, s) && Stages(m, s) && Antis(m, s) && Lookup(m, s)
  { hide Le; }

  lemma InitIsLive(m: Model)
    requires ModelOk(m)
    ensures var s := InitSys(m); KidsLive(m, s) && Causes(m, s)
  {
    hide Le;
    var s := InitSys(m);
    assert forall e :: Live(m, s, e) ==> e in m.roots;
  }

  /** The initial state: every initial event waits at its destination or to be sent there. */
  lemma {:induction false} InitIsCore(m: Model)
    requires ModelOk(m)
    ensures Core(m, InitSys(m))
  {
    InitIsQuiet(m);
    InitIsBounded(m);
    InitIsInPlace(m);
    InitIsLive(m);
    hide Le, Ids, Births, Stacks, Histories, Dones, Owners, Marks, Sorted, Ahead, Bounds, Phases, Routes, Arriving,
      Stages, Antis, Lookup, KidsLive, Causes, Flights, LpsAgree, LinesRecorded;
  }

  lemma {:induction false} RunKeepsCore(m: Model, s: Sys, run: seq<Action>, s': Sys)
    requires Core(m, s) && Runs(m, s, run, s')
    ensures Core(m, s')
    decreases |run|
  {
    hide Core, Enabled, Apply;
    if run != [] {
      ApplyKeepsCore(m, s, run[0]);
      RunKeepsCore(m, Apply(m, s, run[0]), run[1..], s');
    }
  }
}
