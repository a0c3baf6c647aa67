/** The simulation model as the kernel sees it: logical processes (LPs) with an event handler and a
    reverse handler, their mapping to kernel processes (KPs) and processors (PEs), and the construction
    of the messages a handler sends. */
module LpModel {
  import opened EventSignature

  type LpState(==, !new)   // the model's state vector, model random streams included
  type Payload(==, !new)   // the model's part of an event
  type Saved(==, !new)     // bit field and payload as the forward handler left them
  type Rng(==, !new)       // the core random stream that draws tie-breakers

  /** An event's content: signature, destination LP, model data. */
  datatype Msg = Msg(sig: Sig, dest: int, data: Payload)

  /** An event instance. The identifier (sending PE, that PE's sequence number) is never reused; cause is
      the instance whose handler sent it. */
  datatype Ev = Ev(pe: int, num: int, cause: Option<Ev>, msg: Msg)

  datatype Option<+T> = None | Some(value: T)

  /** A logical process: the model's state and the core random stream. */
  datatype Lp = Lp(st: LpState, rng: Rng)

  /** One tw_event_new_user_prio and tw_event_send pair of a handler. */
  datatype Send = Send(dest: int, offset: real, prio: real, data: Payload)

  datatype Handled = Handled(st: LpState, saved: Saved, sends: seq<Send>)

  /** What processing an event produces: the LP's new state, what the reverse handler needs, the messages
      scheduled, and the number of sends that were drawn for but not scheduled. */
  datatype Result = Result(lp: Lp, saved: Saved, outs: seq<Msg>, aborted: nat)

  datatype Model = Model(
    handle: (LpState, Msg) -> Handled,
    revert: (LpState, Saved) -> LpState,
    next: Rng -> Rng, prev: Rng -> Rng, draw: Rng -> real,
    init: int -> Lp,
    kpOf: int -> int, peOf: int -> int,
    numPes: nat, tsEnd: real,
    roots: set<Ev>, firstNum: int -> int)

  function KpOf(m: Model, e: Ev): int {
    m.kpOf(e.msg.dest)
  }

  function PeOf(m: Model, e: Ev): int {
    m.peOf(m.kpOf(e.msg.dest))
  }

  predicate Remote(m: Model, e: Ev) {
    e.pe != PeOf(m, e)
  }

  /** The priorities the kernel accepts. */
  predicate PrioOk(sig: Sig) {
    0.0 <= sig.prio <= 1.0
  }

  /** A send the kernel accepts (negative offsets and priorities outside [0,1] are fatal errors), and
      whose event is not scheduled into the past. */
  predicate SendOk(cur: Sig, x: Send) {
    x.offset >= 0.0 && 0.0 <= x.prio <= 1.0 && (x.offset > 0.0 || x.prio >= cur.prio)
  }

  /** tw_event_new passes priority 1: whatever the offset, its sends are accepted and not scheduled into the past. */
  lemma DefaultSendIsOk(cur: Sig, x: Send, u: real)
    requires PrioOk(cur) && x.offset >= 0.0 && x.prio == 1.0
    ensures SendOk(cur, x) && !Le(ChildSig(cur, x.offset, x.prio, u), cur)
  {
    DefaultPriorityIsLater(cur, x.offset, u);
  }

  /** The messages a list of sends schedules. Each send draws a tie-breaker; those at or past the end time
      are counted and not scheduled. */
  function Outs(m: Model, cur: Sig, rng: Rng, sends: seq<Send>): seq<Msg> {
    if sends == [] then []
    else
      var x := sends[0];
      var rest := Outs(m, cur, m.next(rng), sends[1..]);
      if cur.ts + x.offset >= m.tsEnd then rest
      else [Msg(ChildSig(cur, x.offset, x.prio, m.draw(rng)), x.dest, x.data)] + rest
  }

  function Advance(m: Model, rng: Rng, n: nat): Rng {
    if n == 0 then rng else m.next(Advance(m, rng, n - 1))
  }

  function Exec(m: Model, lp: Lp, msg: Msg): Result {
    var h := m.handle(lp.st, msg);
    var outs := Outs(m, msg.sig, lp.rng, h.sends);
    OutsBound(m, msg.sig, lp.rng, h.sends);
    Result(Lp(h.st, Advance(m, lp.rng, |h.sends|)), h.saved, outs, |h.sends| - |outs|)
  }

  /** What the kernel assumes of a model: the reverse handler undoes the forward handler, the random stream
      runs backwards, and every send is acceptable that is made while handling a message the kernel accepted. */
  ghost predicate ModelOk(m: Model) {
    && (forall st, msg {:trigger m.handle(st, msg)} ::
          m.revert(m.handle(st, msg).st, m.handle(st, msg).saved) == st)
    && (forall r {:trigger m.next(r)} :: m.prev(m.next(r)) == r)
    && (forall st, msg: Msg, i | PrioOk(msg.sig) && 0 <= i < |m.handle(st, msg).sends| ::
          SendOk(msg.sig, m.handle(st, msg).sends[i]))
    && (forall k {:trigger m.peOf(k)} :: 0 <= m.peOf(k) < m.numPes)
    && m.tsEnd <= DBL_MAX
    && (forall e <- m.roots :: e.cause == None && 0 <= e.pe < m.numPes && e.num <= m.firstNum(e.pe))
    && (forall e <- m.roots :: Le(ZERO_SIG, e.msg.sig) && Le(e.msg.sig, MAX_SIG) && PrioOk(e.msg.sig))
    && (forall e, f | e in m.roots && f in m.roots && e.pe == f.pe && e.num == f.num :: e == f)
  }

  lemma {:induction false} OutsBound(m: Model, cur: Sig, rng: Rng, sends: seq<Send>)
    ensures |Outs(m, cur, rng, sends)| <= |sends|
  {
    if sends != [] {
      OutsBound(m, cur, m.next(rng), sends[1..]);
    }
  }

  /** The send is before the end time. */
  predicate Scheduled(m: Model, cur: Sig, x: Send) {
    cur.ts + x.offset < m.tsEnd
  }

  /** How many of these sends are before the end time. */
  function CountScheduled(m: Model, cur: Sig, sends: seq<Send>): nat {
    if sends == [] then 0
    else (if Scheduled(m, cur, sends[0]) then 1 else 0) + CountScheduled(m, cur, sends[1..])
  }

  lemma {:induction false} OutsCount(m: Model, cur: Sig, rng: Rng, sends: seq<Send>)
    ensures |Outs(m, cur, rng, sends)| == CountScheduled(m, cur, sends)
  {
    if sends != [] {
      OutsCount(m, cur, m.next(rng), sends[1..]);
    }
  }

  lemma {:induction false} AdvanceFirst(m: Model, rng: Rng, n: nat)
    ensures Advance(m, m.next(rng), n) == Advance(m, rng, n + 1)
  {
    if n > 0 {
      AdvanceFirst(m, rng, n - 1);
    }
  }

  /** y is the message of send x, with tie-breaker u. */
  ghost predicate MessageOf(cur: Sig, x: Send, u: real, y: Msg) {
    && y.dest == x.dest && y.data == x.data
    && y.sig.ts == cur.ts + x.offset && y.sig.prio == x.prio
    && y.sig.ties == (if x.offset == 0.0 then cur.ties else []) + [u]
  }

  /** Each send before the end time becomes a message of its own, in the order of the sends: to its own destination, at
      its own time, with its own payload, and with the tie-breaker drawn for it. */
  lemma {:induction false} OutsAreSends(m: Model, cur: Sig, rng: Rng, sends: seq<Send>, i: nat)
    requires i < |sends| && Scheduled(m, cur, sends[i])
    ensures var outs, n := Outs(m, cur, rng, sends), CountScheduled(m, cur, sends[..i]);
      n < |outs| && MessageOf(cur, sends[i], m.draw(Advance(m, rng, i)), outs[n])
  {
    if i > 0 {
      OutsAreSends(m, cur, m.next(rng), sends[1..], i - 1);
      AdvanceFirst(m, rng, i - 1);
      assert sends[..i][1..] == sends[1..][..i - 1];
    }
  }

  /** What handling an event yields: the handler's state and saved data, the random stream advanced by one draw for each
      send, a message for each send before the end time, and a count of the others. */
  lemma {:induction false} ExecDoes(m: Model, lp: Lp, msg: Msg)
    ensures var r, h := Exec(m, lp, msg), m.handle(lp.st, msg);
      && r.lp.st == h.st && r.saved == h.saved && r.lp.rng == Advance(m, lp.rng, |h.sends|)
      && |r.outs| == CountScheduled(m, msg.sig, h.sends) && |r.outs| + r.aborted == |h.sends|
      && forall i: nat | i < |h.sends| && Scheduled(m, msg.sig, h.sends[i]) ::
           var n := CountScheduled(m, msg.sig, h.sends[..i]);
           n < |r.outs| && MessageOf(msg.sig, h.sends[i], m.draw(Advance(m, lp.rng, i)), r.outs[n])
  {
    var h := m.handle(lp.st, msg);
    OutsBound(m, msg.sig, lp.rng, h.sends);
    OutsCount(m, msg.sig, lp.rng, h.sends);
    var outs := Outs(m, msg.sig, lp.rng, h.sends);
    forall i: nat | i < |h.sends| && Scheduled(m, msg.sig, h.sends[i])
      ensures var n := CountScheduled(m, msg.sig, h.sends[..i]);
        n < |outs| && MessageOf(msg.sig, h.sends[i], m.draw(Advance(m, lp.rng, i)), outs[n])
    {
      OutsAreSends(m, msg.sig, lp.rng, h.sends, i);
    }
    hide Outs, MessageOf, CountScheduled, Scheduled, Advance;
  }

  lemma {:induction false} OutsAreLater(m: Model, cur: Sig, rng: Rng, sends: seq<Send>, i: nat)
    requires forall j | 0 <= j < |sends| :: SendOk(cur, sends[j])
    requires i < |Outs(m, cur, rng, sends)|
    requires m.tsEnd <= DBL_MAX
    ensures var x := Outs(m, cur, rng, sends)[i].sig; !Le(x, cur) && Le(x, MAX_SIG) && PrioOk(x)
  {
    ChildIsLater(cur, sends[0].offset, sends[0].prio, m.draw(rng));
    if cur.ts + sends[0].offset >= m.tsEnd {
      OutsAreLater(m, cur, m.next(rng), sends[1..], i);
    } else if i > 0 {
      OutsAreLater(m, cur, m.next(rng), sends[1..], i - 1);
    }
  }

  /** Every scheduled message is strictly later than the event whose handler sent it, and is one the kernel accepts. */
  lemma {:induction false} ChildrenAreLater(m: Model, lp: Lp, msg: Msg, i: nat)
    requires ModelOk(m) && PrioOk(msg.sig) && i < |Exec(m, lp, msg).outs|
    ensures var x := Exec(m, lp, msg).outs[i].sig; !Le(x, msg.sig) && Le(x, MAX_SIG) && PrioOk(x)
  {
    OutsAreLater(m, msg.sig, lp.rng, m.handle(lp.st, msg).sends, i);
  }

  /** Undoing one event: the reverse handler restores the state vector; one reverse draw per scheduled
      message and per unscheduled send restores the random stream. */
  lemma {:induction false} ExecIsReversible(m: Model, lp: Lp, msg: Msg)
    requires ModelOk(m)
    ensures var r := Exec(m, lp, msg);
            m.revert(r.lp.st, r.saved) == lp.st && r.lp.rng == Advance(m, lp.rng, |r.outs| + r.aborted)
  {
    OutsBound(m, msg.sig, lp.rng, m.handle(lp.st, msg).sends);
  }

  /** The state of LP l after its KP has processed the given events, oldest first. */
  function Replay(m: Model, line: seq<Ev>, l: int): Lp {
    if line == [] then m.init(l)
    else
      var before := Replay(m, line[..|line| - 1], l);
      var e := line[|line| - 1];
      if e.msg.dest == l then Exec(m, before, e.msg).lp else before
  }
}
