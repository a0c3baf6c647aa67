/** Every action keeps every invariant, one lemma for each invariant the action can affect. */
module TimeWarpSteps {
  import opened EventSignature
  import opened LpModel
  import opened TimeWarp
  import opened TimeWarpInvariants
  import opened TimeWarpFacts

  // ---------- a handler runs ----------

  lemma {:induction false} PushKeepsBirths(m: Model, s: Sys, e: Ev, r: Result)
    requires CanProcess(m, s, e) && Next(m, s, e) && Births(m, s)
    ensures Births(m, Push(m, s, e, r))
  { hide Le; }

  lemma {:induction false} PushKeepsBounds(m: Model, s: Sys, e: Ev, r: Result)
    requires CanProcess(m, s, e) && Next(m, s, e) && Bounds(m, s)
    ensures Bounds(m, Push(m, s, e, r))
  { hide Le; }

  lemma {:induction false} PushKeepsPhases(m: Model, s: Sys, e: Ev, r: Result)
    requires CanProcess(m, s, e) && Next(m, s, e) && Phases(m, s)
    ensures Phases(m, Push(m, s, e, r))
  { hide Le; }

  lemma {:induction false} PushKeepsStacks(m: Model, s: Sys, e: Ev, r: Result)
    requires CanProcess(m, s, e) && Next(m, s, e) && Stacks(m, s)
    ensures Stacks(m, Push(m, s, e, r))
  { hide Le; }

  lemma {:induction false} PushKeepsHistories(m: Model, s: Sys, e: Ev, r: Result)
    requires CanProcess(m, s, e) && Next(m, s, e) && Histories(m, s)
    ensures Histories(m, Push(m, s, e, r))
  { hide Le; }

  lemma {:induction false} PushKeepsRecords(m: Model, s: Sys, e: Ev, r: Result)
    requires CanProcess(m, s, e) && Next(m, s, e) && Dones(s) && Owners(m, s) && Marks(s)
    ensures var s' := Push(m, s, e, r); Dones(s') && Owners(m, s') && Marks(s')
  { hide Le; }

  lemma {:induction false} PushKeepsSorted(m: Model, s: Sys, e: Ev, r: Result)
    requires CanProcess(m, s, e) && Next(m, s, e) && Sorted(s) && Ahead(m, s)
    ensures Sorted(Push(m, s, e, r))
  { hide Le; }

  lemma {:induction false} PushKeepsAhead(m: Model, s: Sys, e: Ev, r: Result)
    requires CanProcess(m, s, e) && Next(m, s, e) && Ahead(m, s)
    ensures Ahead(m, Push(m, s, e, r))
  { hide Le; LeIsTotalOrder(); }

  lemma {:induction false} PushKeepsRoutes(m: Model, s: Sys, e: Ev, r: Result)
    requires CanProcess(m, s, e) && Next(m, s, e) && Antis(m, s) && Lookup(m, s)
    ensures var s' := Push(m, s, e, r); Antis(m, s') && Lookup(m, s')
  { hide Le; }

  lemma {:induction false} PushKeepsArriving(m: Model, s: Sys, e: Ev, r: Result)
    requires CanProcess(m, s, e) && Next(m, s, e) && Arriving(m, s)
    ensures Arriving(m, Push(m, s, e, r))
  { hide Le; }

  lemma {:induction false} PushKeepsStages(m: Model, s: Sys, e: Ev, r: Result)
    requires CanProcess(m, s, e) && Next(m, s, e) && Stages(m, s)
    ensures Stages(m, Push(m, s, e, r))
  { hide Le; }

  lemma {:induction false} PushLive(m: Model, s: Sys, e: Ev, r: Result)
    requires CanProcess(m, s, e) && Next(m, s, e)
    ensures var s' := Push(m, s, e, r);
      forall x {:trigger Live(m, s', x)} :: Live(m, s', x) <==> Live(m, s, x)
  { hide Le; }

  lemma {:induction false} PushKeepsKidsLive(m: Model, s: Sys, e: Ev, r: Result)
    requires CanProcess(m, s, e) && Next(m, s, e) && KidsLive(m, s)
    ensures KidsLive(m, Push(m, s, e, r))
  {
    hide Le;
    PushLive(m, s, e, r);
    hide Live;
  }

  lemma {:induction false} PushKeepsCauses(m: Model, s: Sys, e: Ev, r: Result)
    requires CanProcess(m, s, e) && Next(m, s, e) && Causes(m, s)
    ensures Causes(m, Push(m, s, e, r))
  {
    hide Le;
    PushLive(m, s, e, r);
    hide Live;
  }

  // ---------- its sends ----------

  lemma {:induction false} LaunchKeepsIds(m: Model, s: Sys, e: Ev, kids: seq<Ev>)
    requires NewKids(m, s, e, kids) && Ids(m, s)
    ensures Ids(m, Launch(m, s, e, kids))
  { hide Le; }

  lemma {:induction false} LaunchKeepsBirths(m: Model, s: Sys, e: Ev, kids: seq<Ev>)
    requires NewKids(m, s, e, kids) && Births(m, s)
    ensures Births(m, Launch(m, s, e, kids))
  { hide Le; }

  lemma {:induction false} LaunchKeepsBounds(m: Model, s: Sys, e: Ev, kids: seq<Ev>)
    requires NewKids(m, s, e, kids) && Bounds(m, s)
    ensures Bounds(m, Launch(m, s, e, kids))
  { hide Le; LeIsTotalOrder(); }

  lemma {:induction false} LaunchKeepsPhases(m: Model, s: Sys, e: Ev, kids: seq<Ev>)
    requires NewKids(m, s, e, kids) && Phases(m, s)
    ensures Phases(m, Launch(m, s, e, kids))
  { hide Le; }

  lemma {:induction false} LaunchKeepsStacks(m: Model, s: Sys, e: Ev, kids: seq<Ev>)
    requires NewKids(m, s, e, kids) && Stacks(m, s)
    ensures Stacks(m, Launch(m, s, e, kids))
  { hide Le; }

  lemma {:induction false} LaunchKeepsHistories(m: Model, s: Sys, e: Ev, kids: seq<Ev>)
    requires NewKids(m, s, e, kids) && Histories(m, s)
    ensures Histories(m, Launch(m, s, e, kids))
  { hide Le; }

  lemma {:induction false} LaunchKeepsDones(m: Model, s: Sys, e: Ev, kids: seq<Ev>)
    requires NewKids(m, s, e, kids) && Dones(s)
    ensures Dones(Launch(m, s, e, kids))
  { hide Le; }

  lemma {:induction false} LaunchKeepsOwners(m: Model, s: Sys, e: Ev, kids: seq<Ev>)
    requires NewKids(m, s, e, kids) && Owners(m, s)
    ensures Owners(m, Launch(m, s, e, kids))
  { hide Le; }

  lemma {:induction false} LaunchKeepsMarks(m: Model, s: Sys, e: Ev, kids: seq<Ev>)
    requires NewKids(m, s, e, kids) && Marks(s)
    ensures Marks(Launch(m, s, e, kids))
  { hide Le; }

  lemma {:induction false} LaunchKeepsAhead(m: Model, s: Sys, e: Ev, kids: seq<Ev>)
    requires NewKids(m, s, e, kids) && Ahead(m, s)
    ensures Ahead(m, Launch(m, s, e, kids))
  { hide Le; LeIsTotalOrder(); }

  lemma {:induction false} LaunchKeepsRoutes(m: Model, s: Sys, e: Ev, kids: seq<Ev>)
    requires NewKids(m, s, e, kids) && Routes(m, s) && Antis(m, s) && Lookup(m, s)
    ensures var s' := Launch(m, s, e, kids); Routes(m, s') && Antis(m, s') && Lookup(m, s')
  { hide Le; }

  lemma {:induction false} LaunchKeepsArriving(m: Model, s: Sys, e: Ev, kids: seq<Ev>)
    requires NewKids(m, s, e, kids) && Arriving(m, s)
    ensures Arriving(m, Launch(m, s, e, kids))
  { hide Le; }

  lemma {:induction false} LaunchKeepsStages(m: Model, s: Sys, e: Ev, kids: seq<Ev>)
    requires NewKids(m, s, e, kids) && Stages(m, s)
    ensures Stages(m, Launch(m, s, e, kids))
  { hide Le; }

  lemma {:induction false} LaunchLive(m: Model, s: Sys, e: Ev, kids: seq<Ev>)
    requires NewKids(m, s, e, kids)
    ensures var s' := Launch(m, s, e, kids);
      forall x {:trigger Live(m, s', x)} :: Live(m, s', x) <==> Live(m, s, x) || x in kids
  { hide Le; }

  lemma {:induction false} LaunchKeepsKidsLive(m: Model, s: Sys, e: Ev, kids: seq<Ev>)
    requires NewKids(m, s, e, kids) && KidsLive(m, s)
    ensures KidsLive(m, Launch(m, s, e, kids))
  {
    hide Le;
    LaunchLive(m, s, e, kids);
    hide Live;
  }

  lemma {:induction false} LaunchKeepsCauses(m: Model, s: Sys, e: Ev, kids: seq<Ev>)
    requires NewKids(m, s, e, kids) && Causes(m, s)
    ensures Causes(m, Launch(m, s, e, kids))
  {
    hide Le;
    LaunchLive(m, s, e, kids);
    hide Live;
  }

  // ---------- an event is rolled back ----------

  lemma {:induction false} BeginUndoKeepsBirths(m: Model, s: Sys, k: int)
    requires CanBeginUndo(m, s, k) && OnTop(m, s, k) && Births(m, s)
    ensures Births(m, DoBeginUndo(m, s, k))
  { hide Le; }

  lemma {:induction false} BeginUndoKeepsBounds(m: Model, s: Sys, k: int)
    requires CanBeginUndo(m, s, k) && OnTop(m, s, k) && Bounds(m, s)
    ensures Bounds(m, DoBeginUndo(m, s, k))
  { hide Le; }

  lemma {:induction false} BeginUndoKeepsPhases(m: Model, s: Sys, k: int)
    requires CanBeginUndo(m, s, k) && OnTop(m, s, k) && Phases(m, s)
    ensures Phases(m, DoBeginUndo(m, s, k))
  { hide Le; }

  lemma {:induction false} BeginUndoKeepsStacks(m: Model, s: Sys, k: int)
    requires CanBeginUndo(m, s, k) && OnTop(m, s, k) && Stacks(m, s)
    ensures Stacks(m, DoBeginUndo(m, s, k))
  { hide Le; }

  lemma {:induction false} BeginUndoKeepsHistories(m: Model, s: Sys, k: int)
    requires CanBeginUndo(m, s, k) && OnTop(m, s, k) && Histories(m, s)
    ensures Histories(m, DoBeginUndo(m, s, k))
  { hide Le; }

  lemma {:induction false} BeginUndoKeepsRecords(m: Model, s: Sys, k: int)
    requires CanBeginUndo(m, s, k) && OnTop(m, s, k) && Dones(s) && Owners(m, s) && Marks(s)
    ensures var s' := DoBeginUndo(m, s, k); Dones(s') && Owners(m, s') && Marks(s')
  { hide Le; }

  lemma {:induction false} BeginUndoKeepsSorted(m: Model, s: Sys, k: int)
    requires CanBeginUndo(m, s, k) && OnTop(m, s, k) && Sorted(s)
    ensures Sorted(DoBeginUndo(m, s, k))
  {
    hide Le;
    var st := s.stack(k);
    assert forall i | 0 <= i < |st| - 1 :: st[..|st| - 1][i] == st[i];
  }

  lemma {:induction false} BeginUndoKeepsAhead(m: Model, s: Sys, k: int)
    requires CanBeginUndo(m, s, k) && OnTop(m, s, k) && Ahead(m, s) && Sorted(s)
    ensures Ahead(m, DoBeginUndo(m, s, k))
  {
    hide Le;
    var st := s.stack(k);
    assert forall i | 0 <= i < |st| - 1 :: st[..|st| - 1][i] == st[i];
  }

  lemma {:induction false} BeginUndoKeepsRoutes(m: Model, s: Sys, k: int)
    requires CanBeginUndo(m, s, k) && OnTop(m, s, k) && Antis(m, s) && Lookup(m, s)
    ensures var s' := DoBeginUndo(m, s, k); Antis(m, s') && Lookup(m, s')
  { hide Le; }

  lemma {:induction false} BeginUndoKeepsArriving(m: Model, s: Sys, k: int)
    requires CanBeginUndo(m, s, k) && OnTop(m, s, k) && Arriving(m, s)
    ensures Arriving(m, DoBeginUndo(m, s, k))
  { hide Le; }

  lemma {:induction false} BeginUndoKeepsStages(m: Model, s: Sys, k: int)
    requires CanBeginUndo(m, s, k) && OnTop(m, s, k) && Stages(m, s)
    ensures Stages(m, DoBeginUndo(m, s, k))
  { hide Le; }

  lemma {:induction false} BeginUndoLive(m: Model, s: Sys, k: int)
    requires CanBeginUndo(m, s, k) && OnTop(m, s, k)
    ensures var s' := DoBeginUndo(m, s, k);
      forall x {:trigger Live(m, s', x)} :: Live(m, s', x) <==> Live(m, s, x)
  { hide Le; }

  lemma {:induction false} BeginUndoKeepsKidsLive(m: Model, s: Sys, k: int)
    requires CanBeginUndo(m, s, k) && OnTop(m, s, k) && KidsLive(m, s)
    ensures KidsLive(m, DoBeginUndo(m, s, k))
  {
    hide Le;
    BeginUndoLive(m, s, k);
    hide Live;
  }

  lemma {:induction false} BeginUndoKeepsCauses(m: Model, s: Sys, k: int)
    requires CanBeginUndo(m, s, k) && OnTop(m, s, k) && Causes(m, s)
    ensures Causes(m, DoBeginUndo(m, s, k))
  {
    hide Le;
    BeginUndoLive(m, s, k);
    hide Live;
  }

  // ---------- an event it caused is annulled ----------

  lemma {:induction false} CancelKidKeepsBirths(m: Model, s: Sys, p: int)
    requires CanCancelKid(s, p) && Annuls(m, s, p) && Births(m, s)
    ensures Births(m, DoCancelKid(m, s, p))
  { hide Le; }

  lemma {:induction false} CancelKidKeepsBounds(m: Model, s: Sys, p: int)
    requires CanCancelKid(s, p) && Annuls(m, s, p) && Bounds(m, s)
    ensures Bounds(m, DoCancelKid(m, s, p))
  {
    hide Le;
    TrackIsLower(s, p, LastKid(s, p).msg.sig);
    hide Track;
  }

  lemma {:induction false} CancelKidKeepsPhases(m: Model, s: Sys, p: int)
    requires CanCancelKid(s, p) && Annuls(m, s, p) && Phases(m, s)
    ensures Phases(m, DoCancelKid(m, s, p))
  {
    hide Le;
    TrackIsLower(s, p, LastKid(s, p).msg.sig);
    hide Track;
  }

  lemma {:induction false} CancelKidKeepsStacks(m: Model, s: Sys, p: int)
    requires CanCancelKid(s, p) && Annuls(m, s, p) && Stacks(m, s)
    ensures Stacks(m, DoCancelKid(m, s, p))
  { hide Le; }

  lemma {:induction false} CancelKidKeepsHistories(m: Model, s: Sys, p: int)
    requires CanCancelKid(s, p) && Annuls(m, s, p) && Histories(m, s)
    ensures Histories(m, DoCancelKid(m, s, p))
  { hide Le; }

  lemma {:induction false} CancelKidKeepsRecords(m: Model, s: Sys, p: int)
    requires CanCancelKid(s, p) && Annuls(m, s, p) && Dones(s) && Owners(m, s) && Marks(s)
    ensures var s' := DoCancelKid(m, s, p); Dones(s') && Owners(m, s') && Marks(s')
  { hide Le; }

  lemma {:induction false} CancelKidKeepsAhead(m: Model, s: Sys, p: int)
    requires CanCancelKid(s, p) && Annuls(m, s, p) && Ahead(m, s)
    ensures Ahead(m, DoCancelKid(m, s, p))
  { hide Le; }

  lemma {:induction false} CancelKidKeepsRoutes(m: Model, s: Sys, p: int)
    requires CanCancelKid(s, p) && Annuls(m, s, p) && Routes(m, s) && Antis(m, s) && Lookup(m, s)
    ensures var s' := DoCancelKid(m, s, p); Routes(m, s') && Antis(m, s') && Lookup(m, s')
  { hide Le; }

  lemma {:induction false} CancelKidKeepsArriving(m: Model, s: Sys, p: int)
    requires CanCancelKid(s, p) && Annuls(m, s, p) && Arriving(m, s)
    ensures Arriving(m, DoCancelKid(m, s, p))
  { hide Le; }

  lemma {:induction false} CancelKidKeepsStages(m: Model, s: Sys, p: int)
    requires CanCancelKid(s, p) && Annuls(m, s, p) && Stages(m, s)
    ensures Stages(m, DoCancelKid(m, s, p))
  { hide Le; }

  lemma {:induction false} CancelKidLive(m: Model, s: Sys, p: int)
    requires CanCancelKid(s, p) && Annuls(m, s, p)
    ensures var s' := DoCancelKid(m, s, p);
      forall x {:trigger Live(m, s', x)} :: Live(m, s', x) <==> Live(m, s, x) && x != LastKid(s, p)
  { hide Le; }

  lemma {:induction false} CancelKidKeepsKidsLive(m: Model, s: Sys, p: int)
    requires CanCancelKid(s, p) && Annuls(m, s, p) && KidsLive(m, s)
    ensures KidsLive(m, DoCancelKid(m, s, p))
  {
    hide Le;
    CancelKidLive(m, s, p);
    hide Live;
    var e, s' := s.undo(p).value, DoCancelKid(m, s, p);
    var kids := s.done[e].kids;
    assert s'.done[e].kids == kids[..|kids| - 1];
    assert forall c <- s'.done[e].kids :: c in kids && c != LastKid(s, p);
  }

  lemma {:induction false} CancelKidKeepsCauses(m: Model, s: Sys, p: int)
    requires CanCancelKid(s, p) && Annuls(m, s, p) && Causes(m, s)
    ensures Causes(m, DoCancelKid(m, s, p))
  {
    hide Le;
    CancelKidLive(m, s, p);
    hide Live;
    var e, s' := s.undo(p).value, DoCancelKid(m, s, p);
    assert s.done[e].kids == s'.done[e].kids + [LastKid(s, p)];
  }

  // ---------- the rollback of the event ends ----------

  lemma {:induction false} EndUndoKeepsBirths(m: Model, s: Sys, p: int, drop: bool, reset: bool)
    requires CanEndUndo(s, p, drop) && Undone(m, s, p) && Births(m, s)
    ensures Births(m, DoEndUndo(m, s, p, drop, reset))
  { hide Le; }

  lemma {:induction false} EndUndoKeepsBounds(m: Model, s: Sys, p: int, drop: bool, reset: bool)
    requires CanEndUndo(s, p, drop) && Undone(m, s, p) && Bounds(m, s)
    ensures Bounds(m, DoEndUndo(m, s, p, drop, reset))
  { hide Le; }

  lemma {:induction false} EndUndoKeepsPhases(m: Model, s: Sys, p: int, drop: bool, reset: bool)
    requires CanEndUndo(s, p, drop) && Undone(m, s, p) && Phases(m, s)
    ensures Phases(m, DoEndUndo(m, s, p, drop, reset))
  { hide Le; }

  lemma {:induction false} EndUndoKeepsStacks(m: Model, s: Sys, p: int, drop: bool, reset: bool)
    requires CanEndUndo(s, p, drop) && Undone(m, s, p) && Stacks(m, s)
    ensures Stacks(m, DoEndUndo(m, s, p, drop, reset))
  { hide Le; }

  lemma {:induction false} EndUndoKeepsHistories(m: Model, s: Sys, p: int, drop: bool, reset: bool)
    requires CanEndUndo(s, p, drop) && Undone(m, s, p) && Histories(m, s)
    ensures Histories(m, DoEndUndo(m, s, p, drop, reset))
  { hide Le; }

  lemma {:induction false} EndUndoKeepsRecords(m: Model, s: Sys, p: int, drop: bool, reset: bool)
    requires CanEndUndo(s, p, drop) && Undone(m, s, p) && Dones(s) && Owners(m, s) && Marks(s)
    ensures var s' := DoEndUndo(m, s, p, drop, reset); Dones(s') && Owners(m, s') && Marks(s')
  { hide Le; }

  lemma {:induction false} EndUndoKeepsAhead(m: Model, s: Sys, p: int, drop: bool, reset: bool)
    requires CanEndUndo(s, p, drop) && Undone(m, s, p) && Ahead(m, s) && Sorted(s)
    ensures Ahead(m, DoEndUndo(m, s, p, drop, reset))
  { hide Le; LeIsTotalOrder(); }

  lemma {:induction false} EndUndoKeepsRoutes(m: Model, s: Sys, p: int, drop: bool, reset: bool)
    requires CanEndUndo(s, p, drop) && Undone(m, s, p) && Antis(m, s) && Lookup(m, s)
    ensures var s' := DoEndUndo(m, s, p, drop, reset); Antis(m, s') && Lookup(m, s')
  { hide Le; }

  lemma {:induction false} EndUndoKeepsArriving(m: Model, s: Sys, p: int, drop: bool, reset: bool)
    requires CanEndUndo(s, p, drop) && Undone(m, s, p) && Arriving(m, s)
    ensures Arriving(m, DoEndUndo(m, s, p, drop, reset))
  { hide Le; }

  lemma {:induction false} EndUndoKeepsStages(m: Model, s: Sys, p: int, drop: bool, reset: bool)
    requires CanEndUndo(s, p, drop) && Undone(m, s, p) && Stages(m, s) && Arriving(m, s)
    ensures Stages(m, DoEndUndo(m, s, p, drop, reset))
  { hide Le; }

  lemma {:induction false} EndUndoLive(m: Model, s: Sys, p: int, drop: bool, reset: bool)
    requires CanEndUndo(s, p, drop) && Undone(m, s, p) && Arriving(m, s) && Stages(m, s)
    ensures var s' := DoEndUndo(m, s, p, drop, reset);
      forall x {:trigger Live(m, s', x)} :: Live(m, s', x) <==> Live(m, s, x)
  { hide Le; }

  lemma {:induction false} EndUndoKeepsKidsLive(m: Model, s: Sys, p: int, drop: bool, reset: bool)
    requires CanEndUndo(s, p, drop) && Undone(m, s, p) && KidsLive(m, s) && Arriving(m, s) && Stages(m, s)
    ensures KidsLive(m, DoEndUndo(m, s, p, drop, reset))
  {
    hide Le;
    EndUndoLive(m, s, p, drop, reset);
    hide Live;
  }

  lemma {:induction false} EndUndoKeepsCauses(m: Model, s: Sys, p: int, drop: bool, reset: bool)
    requires CanEndUndo(s, p, drop) && Undone(m, s, p) && Causes(m, s) && Arriving(m, s) && Stages(m, s)
    ensures Causes(m, DoEndUndo(m, s, p, drop, reset))
  {
    hide Le;
    EndUndoLive(m, s, p, drop, reset);
    hide Live;
  }

  // ---------- an event leaves event_q ----------

  lemma {:induction false} TakeEventKeepsBirths(m: Model, s: Sys, e: Ev, drop: bool)
    requires CanTakeEvent(m, s, e, drop) && Births(m, s)
    ensures Births(m, DoTakeEvent(s, e, drop))
  { hide Le; }

  lemma {:induction false} TakeEventKeepsBounds(m: Model, s: Sys, e: Ev, drop: bool)
    requires CanTakeEvent(m, s, e, drop) && Bounds(m, s)
    ensures Bounds(m, DoTakeEvent(s, e, drop))
  { hide Le; }

  lemma {:induction false} TakeEventKeepsPhases(m: Model, s: Sys, e: Ev, drop: bool)
    requires CanTakeEvent(m, s, e, drop) && Phases(m, s)
    ensures Phases(m, DoTakeEvent(s, e, drop))
  { hide Le; }

  lemma {:induction false} TakeEventKeepsStacks(m: Model, s: Sys, e: Ev, drop: bool)
    requires CanTakeEvent(m, s, e, drop) && Stacks(m, s)
    ensures Stacks(m, DoTakeEvent(s, e, drop))
  { hide Le; }

  lemma {:induction false} TakeEventKeepsHistories(m: Model, s: Sys, e: Ev, drop: bool)
    requires CanTakeEvent(m, s, e, drop) && Histories(m, s)
    ensures Histories(m, DoTakeEvent(s, e, drop))
  { hide Le; }

  lemma {:induction false} TakeEventKeepsRecords(m: Model, s: Sys, e: Ev, drop: bool)
    requires CanTakeEvent(m, s, e, drop) && Dones(s) && Owners(m, s) && Marks(s)
    ensures var s' := DoTakeEvent(s, e, drop); Dones(s') && Owners(m, s') && Marks(s')
  { hide Le; }

  lemma {:induction false} TakeEventKeepsAhead(m: Model, s: Sys, e: Ev, drop: bool)
    requires CanTakeEvent(m, s, e, drop) && Ahead(m, s)
    ensures Ahead(m, DoTakeEvent(s, e, drop))
  { hide Le; }

  lemma {:induction false} TakeEventKeepsRoutes(m: Model, s: Sys, e: Ev, drop: bool)
    requires CanTakeEvent(m, s, e, drop) && Antis(m, s) && Lookup(m, s)
    ensures var s' := DoTakeEvent(s, e, drop); Antis(m, s') && Lookup(m, s')
  { hide Le; }

  lemma {:induction false} TakeEventKeepsArriving(m: Model, s: Sys, e: Ev, drop: bool)
    requires CanTakeEvent(m, s, e, drop) && Arriving(m, s)
    ensures Arriving(m, DoTakeEvent(s, e, drop))
  { hide Le; }

  lemma {:induction false} TakeEventKeepsStages(m: Model, s: Sys, e: Ev, drop: bool)
    requires CanTakeEvent(m, s, e, drop) && Stages(m, s)
    ensures Stages(m, DoTakeEvent(s, e, drop))
  { hide Le; }

  lemma {:induction false} TakeEventLive(m: Model, s: Sys, e: Ev, drop: bool)
    requires CanTakeEvent(m, s, e, drop)
    ensures var s' := DoTakeEvent(s, e, drop);
      forall x {:trigger Live(m, s', x)} :: Live(m, s', x) <==> Live(m, s, x)
  { hide Le; }

  lemma {:induction false} TakeEventKeepsKidsLive(m: Model, s: Sys, e: Ev, drop: bool)
    requires CanTakeEvent(m, s, e, drop) && KidsLive(m, s)
    ensures KidsLive(m, DoTakeEvent(s, e, drop))
  {
    hide Le;
    TakeEventLive(m, s, e, drop);
    hide Live;
  }

  lemma {:induction false} TakeEventKeepsCauses(m: Model, s: Sys, e: Ev, drop: bool)
    requires CanTakeEvent(m, s, e, drop) && Causes(m, s)
    ensures Causes(m, DoTakeEvent(s, e, drop))
  {
    hide Le;
    TakeEventLive(m, s, e, drop);
    hide Live;
  }

  // ---------- a cancelled event is freed ----------

  lemma {:induction false} TakeCancelledKeepsBirths(m: Model, s: Sys, e: Ev)
    requires CanTakeCancelled(m, s, e) && Births(m, s)
    ensures Births(m, DoTakeCancelled(s, e))
  { hide Le; }

  lemma {:induction false} TakeCancelledKeepsBounds(m: Model, s: Sys, e: Ev)
    requires CanTakeCancelled(m, s, e) && Bounds(m, s)
    ensures Bounds(m, DoTakeCancelled(s, e))
  { hide Le; }

  lemma {:induction false} TakeCancelledKeepsPhases(m: Model, s: Sys, e: Ev)
    requires CanTakeCancelled(m, s, e) && Phases(m, s)
    ensures Phases(m, DoTakeCancelled(s, e))
  { hide Le; }

  lemma {:induction false} TakeCancelledKeepsStacks(m: Model, s: Sys, e: Ev)
    requires CanTakeCancelled(m, s, e) && Stacks(m, s)
    ensures Stacks(m, DoTakeCancelled(s, e))
  { hide Le; }

  lemma {:induction false} TakeCancelledKeepsHistories(m: Model, s: Sys, e: Ev)
    requires CanTakeCancelled(m, s, e) && Histories(m, s)
    ensures Histories(m, DoTakeCancelled(s, e))
  { hide Le; }

  lemma {:induction false} TakeCancelledKeepsRecords(m: Model, s: Sys, e: Ev)
    requires CanTakeCancelled(m, s, e) && Dones(s) && Owners(m, s) && Marks(s)
    ensures var s' := DoTakeCancelled(s, e); Dones(s') && Owners(m, s') && Marks(s')
  { hide Le; }

  lemma {:induction false} TakeCancelledKeepsAhead(m: Model, s: Sys, e: Ev)
    requires CanTakeCancelled(m, s, e) && Ahead(m, s)
    ensures Ahead(m, DoTakeCancelled(s, e))
  { hide Le; }

  lemma {:induction false} TakeCancelledKeepsRoutes(m: Model, s: Sys, e: Ev)
    requires CanTakeCancelled(m, s, e) && Antis(m, s) && Lookup(m, s)
    ensures var s' := DoTakeCancelled(s, e); Antis(m, s') && Lookup(m, s')
  { hide Le; }

  lemma {:induction false} TakeCancelledKeepsArriving(m: Model, s: Sys, e: Ev)
    requires CanTakeCancelled(m, s, e) && Arriving(m, s)
    ensures Arriving(m, DoTakeCancelled(s, e))
  { hide Le; }

  lemma {:induction false} TakeCancelledKeepsStages(m: Model, s: Sys, e: Ev)
    requires CanTakeCancelled(m, s, e) && Stages(m, s) && Arriving(m, s)
    ensures Stages(m, DoTakeCancelled(s, e))
  { hide Le; }

  lemma {:induction false} TakeCancelledLive(m: Model, s: Sys, e: Ev)
    requires CanTakeCancelled(m, s, e) && Arriving(m, s) && Stages(m, s)
    ensures var s' := DoTakeCancelled(s, e);
      forall x {:trigger Live(m, s', x)} :: Live(m, s', x) <==> Live(m, s, x)
  { hide Le; }

  lemma {:induction false} TakeCancelledKeepsKidsLive(m: Model, s: Sys, e: Ev)
    requires CanTakeCancelled(m, s, e) && KidsLive(m, s) && Arriving(m, s) && Stages(m, s)
    ensures KidsLive(m, DoTakeCancelled(s, e))
  {
    hide Le;
    TakeCancelledLive(m, s, e);
    hide Live;
  }

  lemma {:induction false} TakeCancelledKeepsCauses(m: Model, s: Sys, e: Ev)
    requires CanTakeCancelled(m, s, e) && Causes(m, s) && Arriving(m, s) && Stages(m, s)
    ensures Causes(m, DoTakeCancelled(s, e))
  {
    hide Le;
    TakeCancelledLive(m, s, e);
    hide Live;
  }

  // ---------- a message is sent ----------

  lemma {:induction false} PostKeepsBirths(m: Model, s: Sys, e: Ev)
    requires CanPost(s, e) && Leaves(m, s, e) && Births(m, s)
    ensures Births(m, DoPost(m, s, e))
  { hide Le; }

  lemma {:induction false} PostKeepsBounds(m: Model, s: Sys, e: Ev)
    requires CanPost(s, e) && Leaves(m, s, e) && Bounds(m, s)
    ensures Bounds(m, DoPost(m, s, e))
  { hide Le; }

  lemma {:induction false} PostKeepsRoutes(m: Model, s: Sys, e: Ev)
    requires CanPost(s, e) && Leaves(m, s, e) && Routes(m, s)
    ensures Routes(m, DoPost(m, s, e))
  { hide Le; }

  lemma {:induction false} PostKeepsArriving(m: Model, s: Sys, e: Ev)
    requires CanPost(s, e) && Leaves(m, s, e) && Arriving(m, s)
    ensures Arriving(m, DoPost(m, s, e))
  { hide Le; PostInChan(m, s, e); }

  lemma {:induction false} PostKeepsStages(m: Model, s: Sys, e: Ev)
    requires CanPost(s, e) && Leaves(m, s, e) && Stages(m, s)
    ensures Stages(m, DoPost(m, s, e))
  { hide Le; PostInChan(m, s, e); }

  lemma {:induction false} PostLive(m: Model, s: Sys, e: Ev)
    requires CanPost(s, e) && Leaves(m, s, e)
    ensures var s' := DoPost(m, s, e);
      forall x {:trigger Live(m, s', x)} :: Live(m, s', x) <==> Live(m, s, x)
  {
    hide Le;
    PostInChan(m, s, e);
  }

  lemma {:induction false} PostKeepsKidsLive(m: Model, s: Sys, e: Ev)
    requires CanPost(s, e) && Leaves(m, s, e) && KidsLive(m, s)
    ensures KidsLive(m, DoPost(m, s, e))
  {
    hide Le;
    PostLive(m, s, e);
    hide Live;
  }

  lemma {:induction false} PostKeepsCauses(m: Model, s: Sys, e: Ev)
    requires CanPost(s, e) && Leaves(m, s, e) && Causes(m, s)
    ensures Causes(m, DoPost(m, s, e))
  {
    hide Le;
    PostLive(m, s, e);
    hide Live;
  }

  // ---------- a send completes ----------

  lemma {:induction false} FinishSendKeepsBirths(m: Model, s: Sys, e: Ev)
    requires CanFinishSend(s, e) && Births(m, s)
    ensures Births(m, DoFinishSend(s, e))
  { hide Le; }

  lemma {:induction false} FinishSendKeepsBounds(m: Model, s: Sys, e: Ev)
    requires CanFinishSend(s, e) && Bounds(m, s)
    ensures Bounds(m, DoFinishSend(s, e))
  { hide Le; }

  lemma {:induction false} FinishSendKeepsRoutes(m: Model, s: Sys, e: Ev)
    requires CanFinishSend(s, e) && Routes(m, s)
    ensures Routes(m, DoFinishSend(s, e))
  { hide Le; }

  lemma {:induction false} FinishSendKeepsStages(m: Model, s: Sys, e: Ev)
    requires CanFinishSend(s, e) && Stages(m, s)
    ensures Stages(m, DoFinishSend(s, e))
  { hide Le; }

  lemma {:induction false} FinishSendLive(m: Model, s: Sys, e: Ev)
    requires CanFinishSend(s, e) && Arriving(m, s) && Stages(m, s)
    ensures var s' := DoFinishSend(s, e);
      forall x {:trigger Live(m, s', x)} :: Live(m, s', x) <==> Live(m, s, x)
  { hide Le; }

  lemma {:induction false} FinishSendKeepsKidsLive(m: Model, s: Sys, e: Ev)
    requires CanFinishSend(s, e) && KidsLive(m, s) && Arriving(m, s) && Stages(m, s)
    ensures KidsLive(m, DoFinishSend(s, e))
  {
    hide Le;
    FinishSendLive(m, s, e);
    hide Live;
  }

  lemma {:induction false} FinishSendKeepsCauses(m: Model, s: Sys, e: Ev)
    requires CanFinishSend(s, e) && Causes(m, s) && Arriving(m, s) && Stages(m, s)
    ensures Causes(m, DoFinishSend(s, e))
  {
    hide Le;
    FinishSendLive(m, s, e);
    hide Live;
  }

  // ---------- a message arrives ----------

  lemma {:induction false} ReceiveKeepsBirths(m: Model, s: Sys, q: int, p: int)
    requires s.chan(q, p) != [] && Arrives(m, s, q, p) && Births(m, s)
    ensures Births(m, DoReceive(m, s, q, p))
  { hide Le; }

  lemma {:induction false} ReceiveKeepsBounds(m: Model, s: Sys, q: int, p: int)
    requires s.chan(q, p) != [] && Arrives(m, s, q, p) && Bounds(m, s)
    ensures Bounds(m, DoReceive(m, s, q, p))
  {
    hide Le;
    TrackIsLower(s, p, s.chan(q, p)[0].ev.msg.sig);
    hide Track;
  }

  lemma {:induction false} ReceiveKeepsPhases(m: Model, s: Sys, q: int, p: int)
    requires s.chan(q, p) != [] && Arrives(m, s, q, p) && Phases(m, s)
    ensures Phases(m, DoReceive(m, s, q, p))
  {
    hide Le;
    TrackIsLower(s, p, s.chan(q, p)[0].ev.msg.sig);
    hide Track;
  }

  lemma {:induction false} ReceiveKeepsStacks(m: Model, s: Sys, q: int, p: int)
    requires s.chan(q, p) != [] && Arrives(m, s, q, p) && Stacks(m, s)
    ensures Stacks(m, DoReceive(m, s, q, p))
  { hide Le; }

  lemma {:induction false} ReceiveKeepsHistories(m: Model, s: Sys, q: int, p: int)
    requires s.chan(q, p) != [] && Arrives(m, s, q, p) && Histories(m, s)
    ensures Histories(m, DoReceive(m, s, q, p))
  { hide Le; }

  lemma {:induction false} ReceiveKeepsRecords(m: Model, s: Sys, q: int, p: int)
    requires s.chan(q, p) != [] && Arrives(m, s, q, p) && Dones(s) && Owners(m, s) && Marks(s)
    ensures var s' := DoReceive(m, s, q, p); Dones(s') && Owners(m, s') && Marks(s')
  { hide Le; }

  lemma {:induction false} ReceiveKeepsAhead(m: Model, s: Sys, q: int, p: int)
    requires s.chan(q, p) != [] && Arrives(m, s, q, p) && Ahead(m, s)
    ensures Ahead(m, DoReceive(m, s, q, p))
  { hide Le; LeIsTotalOrder(); }

  lemma {:induction false} ReceiveKeepsRoutes(m: Model, s: Sys, q: int, p: int)
    requires s.chan(q, p) != [] && Arrives(m, s, q, p) && Routes(m, s) && Lookup(m, s)
    ensures var s' := DoReceive(m, s, q, p); Routes(m, s') && Lookup(m, s')
  { hide Le; }

  lemma {:induction false} ReceiveKeepsArriving(m: Model, s: Sys, q: int, p: int)
    requires s.chan(q, p) != [] && Arrives(m, s, q, p) && Arriving(m, s) && Routes(m, s)
    ensures Arriving(m, DoReceive(m, s, q, p))
  { hide Le; ReceiveInChan(m, s, q, p); }

  lemma {:induction false} ReceiveKeepsStages(m: Model, s: Sys, q: int, p: int)
    requires s.chan(q, p) != [] && Arrives(m, s, q, p) && Stages(m, s) && Routes(m, s)
    ensures Stages(m, DoReceive(m, s, q, p))
  { hide Le; ReceiveInChan(m, s, q, p); }

  lemma {:induction false} ReceiveLive(m: Model, s: Sys, q: int, p: int)
    requires s.chan(q, p) != [] && Arrives(m, s, q, p) && Routes(m, s)
    ensures var s' := DoReceive(m, s, q, p);
      forall x {:trigger Live(m, s', x)} :: Live(m, s', x) <==> Live(m, s, x)
  {
    hide Le;
    ReceiveInChan(m, s, q, p);
  }

  lemma {:induction false} ReceiveKeepsKidsLive(m: Model, s: Sys, q: int, p: int)
    requires s.chan(q, p) != [] && Arrives(m, s, q, p) && KidsLive(m, s) && Routes(m, s)
    ensures KidsLive(m, DoReceive(m, s, q, p))
  {
    hide Le;
    ReceiveLive(m, s, q, p);
    hide Live;
  }

  lemma {:induction false} ReceiveKeepsCauses(m: Model, s: Sys, q: int, p: int)
    requires s.chan(q, p) != [] && Arrives(m, s, q, p) && Causes(m, s) && Routes(m, s)
    ensures Causes(m, DoReceive(m, s, q, p))
  {
    hide Le;
    ReceiveLive(m, s, q, p);
    hide Live;
  }

  // ---------- phases of a GVT computation ----------

  lemma {:induction false} StartGvtKeepsPhases(m: Model, s: Sys, p: int)
    requires CanStartGvt(m, s, p) && Phases(m, s)
    ensures Phases(m, SetPhase(s, p, Spinning))
  { hide Le; }

  lemma {:induction false} DoneEventQKeepsPhases(m: Model, s: Sys, p: int)
    requires EventQDrained(m, s, p) && Phases(m, s)
    ensures Phases(m, SetPhase(s, p, Cancelling))
  { hide Le; }

  lemma {:induction false} DoneCancelQKeepsPhases(m: Model, s: Sys, p: int)
    requires CancelQDrained(m, s, p) && Phases(m, s)
    ensures Phases(m, SetPhase(s, p, Reducing))
  { hide Le; }

  // ---------- a GVT round ----------

  lemma {:induction false} GvtRoundKeepsPhases(m: Model, s: Sys, g: Sig)
    requires CanGvtRound(m, s, g) && Phases(m, s)
    ensures Phases(m, DoGvtRound(s, g))
  { hide Le; }

  // ---------- fossil collection ----------

  lemma {:induction false} FossilKeepsBirths(m: Model, s: Sys, k: int, n: int)
    requires Splits(m, s, k, n) && Births(m, s)
    ensures Births(m, Collect(s, k, n))
  { hide Le; }

  lemma {:induction false} FossilKeepsBounds(m: Model, s: Sys, k: int, n: int)
    requires Splits(m, s, k, n) && Bounds(m, s)
    ensures Bounds(m, Collect(s, k, n))
  { hide Le; }

  lemma {:induction false} FossilKeepsPhases(m: Model, s: Sys, k: int, n: int)
    requires Splits(m, s, k, n) && Phases(m, s)
    ensures Phases(m, Collect(s, k, n))
  { hide Le; }

  lemma {:induction false} FossilKeepsStacks(m: Model, s: Sys, k: int, n: int)
    requires Splits(m, s, k, n) && Stacks(m, s)
    ensures Stacks(m, Collect(s, k, n))
  {
    hide Le;
    var s' := Collect(s, k, n);
    CollectPlaces(m, s, k, n);
    forall e <- s'.place | s'.place[e] == Processed ensures e in s'.stack(KpOf(m, e)) {
      StaysStacked(m, s, k, n, e);
    }
    hide Collect;
  }

  lemma {:induction false} FossilKeepsHistories(m: Model, s: Sys, k: int, n: int)
    requires Splits(m, s, k, n) && Histories(m, s)
    ensures Histories(m, Collect(s, k, n))
  {
    hide Le;
    var s' := Collect(s, k, n);
    CollectPlaces(m, s, k, n);
    HistoryStaysDistinct(m, s, k, n);
    forall e <- s'.place | s'.place[e] == Committed ensures e in s'.hist(KpOf(m, e)) {
      EntersHistory(m, s, k, n, e);
    }
    hide Collect;
  }

  lemma {:induction false} FossilKeepsRecords(m: Model, s: Sys, k: int, n: int)
    requires Splits(m, s, k, n) && Dones(s) && Owners(m, s) && Marks(s)
    ensures var s' := Collect(s, k, n); Dones(s') && Owners(m, s') && Marks(s')
  { hide Le; }

  lemma {:induction false} FossilKeepsSorted(m: Model, s: Sys, k: int, n: int)
    requires Splits(m, s, k, n) && Sorted(s)
    ensures Sorted(Collect(s, k, n))
  { hide Le; LeIsTotalOrder(); }

  lemma {:induction false} FossilKeepsAhead(m: Model, s: Sys, k: int, n: int)
    requires Splits(m, s, k, n) && Ahead(m, s)
    ensures Ahead(m, Collect(s, k, n))
  { hide Le; }

  lemma {:induction false} FossilKeepsRoutes(m: Model, s: Sys, k: int, n: int)
    requires Splits(m, s, k, n) && Routes(m, s) && Antis(m, s) && Lookup(m, s) && Bounds(m, s)
    ensures var s' := Collect(s, k, n); Routes(m, s') && Antis(m, s') && Lookup(m, s')
  { hide Le; }

  lemma {:induction false} FossilKeepsArriving(m: Model, s: Sys, k: int, n: int)
    requires Splits(m, s, k, n) && Arriving(m, s)
    ensures Arriving(m, Collect(s, k, n))
  { hide Le; }

  lemma {:induction false} FossilKeepsStages(m: Model, s: Sys, k: int, n: int)
    requires Splits(m, s, k, n) && Stages(m, s)
    ensures Stages(m, Collect(s, k, n))
  { hide Le; }

  lemma {:induction false} FossilLive(m: Model, s: Sys, k: int, n: int)
    requires Splits(m, s, k, n)
    ensures var s' := Collect(s, k, n);
      forall x {:trigger Live(m, s', x)} :: Live(m, s', x) <==> Live(m, s, x)
  { hide Le; }

  lemma {:induction false} FossilKeepsKidsLive(m: Model, s: Sys, k: int, n: int)
    requires Splits(m, s, k, n) && KidsLive(m, s)
    ensures KidsLive(m, Collect(s, k, n))
  {
    hide Le;
    FossilLive(m, s, k, n);
    hide Live;
  }

  lemma {:induction false} FossilKeepsCauses(m: Model, s: Sys, k: int, n: int)
    requires Splits(m, s, k, n) && Causes(m, s)
    ensures Causes(m, Collect(s, k, n))
  {
    hide Le;
    FossilLive(m, s, k, n);
    hide Live;
  }

  // ---------- anti-messages stay behind their positives ----------

  lemma {:induction false} ReceiveKeepsAntis(m: Model, s: Sys, q: int, p: int)
    requires s.chan(q, p) != [] && Arrives(m, s, q, p) && Antis(m, s) && Routes(m, s)
    ensures Antis(m, DoReceive(m, s, q, p))
  {
    hide Le;
    var s' := DoReceive(m, s, q, p);
    var pk := s.chan(q, p)[0];
    forall q', p', i | 0 <= i < |s'.chan(q', p')| && s'.chan(q', p')[i].anti
      ensures var e := s'.chan(q', p')[i].ev;
              if e in s'.place then e !in s'.marked && s'.place[e] != Committed
              else Packet(e, false) in s'.chan(q', p')[..i]
    {
      if q' == q && p' == p {
        assert s.chan(q, p)[i + 1] == s'.chan(q, p)[i];
        assert s.chan(q, p)[..i + 1] == [pk] + s'.chan(q, p)[..i];
      }
    }
  }

  lemma {:induction false} PostKeepsAntis(m: Model, s: Sys, e: Ev)
    requires CanPost(s, e) && Leaves(m, s, e) && Antis(m, s)
    ensures Antis(m, DoPost(m, s, e))
  {
    hide Le;
    var s' := DoPost(m, s, e);
    var q, p := e.pe, PeOf(m, e);
    forall q', p', i | 0 <= i < |s'.chan(q', p')| && s'.chan(q', p')[i].anti
      ensures var x := s'.chan(q', p')[i].ev;
              if x in s'.place then x !in s'.marked && s'.place[x] != Committed
              else Packet(x, false) in s'.chan(q', p')[..i]
    {
      if q' == q && p' == p {
        if i < |s.chan(q, p)| {
          assert s'.chan(q, p)[..i] == s.chan(q, p)[..i];
        } else {
          assert s'.chan(q, p)[..i] == s.chan(q, p);
        }
      }
    }
  }
}
