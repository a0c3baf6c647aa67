/** The optimistic kernel as a step system over all processors. Each action is one atomic piece of the
    code between two points where messages may arrive; the loops of the code are runs of these actions. */
module TimeWarp {
  import opened EventSignature
  import opened LpModel

  /** Where the destination PE keeps an event it holds (the owner field of the buffer). Undoing marks the
      one event whose rollback is under way; Committed is a fossil-collected buffer. */
  datatype Place = EventQ | Pq | Processed | Undoing | AntiMsg | Committed

  /** Where the sending PE keeps the buffer of a remote event. */
  datatype Wire = Outq | Asend(cancelled: bool) | Sevent | OutqAnti | Acancel

  datatype Packet = Packet(ev: Ev, anti: bool)

  /** What a processed event carries: saved handler data, the events it caused that are still to be annulled
      should it be undone, and its count of unscheduled sends. */
  datatype Done = Done(saved: Saved, kids: seq<Ev>, aborted: nat)

  /** A PE's place in its main loop: outside a GVT computation; spinning out event_q after step 1;
      emptying cancel_q; waiting in step 2. */
  datatype Phase = Running | Spinning | Cancelling | Reducing

  datatype Sys = Sys(
    gvt: Sig,
    born: set<Ev>,                      // every event ever sent
    place: map<Ev, Place>,
    marked: set<Ev>,                    // on the destination's cancel_q
    index: set<Ev>,                     // received remote events the destination can look up
    done: map<Ev, Done>,
    wire: map<Ev, Wire>,
    chan: (int, int) -> seq<Packet>,    // messages under way from one PE to another, oldest first
    stack: int -> seq<Ev>,              // pevent_q of each KP, oldest first
    hist: int -> seq<Ev>,               // events each KP has committed, oldest first
    last: int -> Sig,                   // last_sig of each KP
    lp: int -> Lp,
    phase: int -> Phase,                // the rest is kept by each PE
    undo: int -> Option<Ev>,            // the event being rolled back
    trans: int -> Sig,                  // least signature of a transient message, trans_msg_sig
    sent: int -> int, recv: int -> int, // white counts
    num: int -> int)                    // last sequence number given out

  function Upd<B>(f: int -> B, a: int, b: B): (r: int -> B)
    ensures forall x {:trigger r(x)} :: r(x) == if x == a then b else f(x)
  {
    x => if x == a then b else f(x)
  }

  function Upd2(f: (int, int) -> seq<Packet>, q: int, p: int, v: seq<Packet>): (r: (int, int) -> seq<Packet>)
    ensures forall x, y {:trigger r(x, y)} :: r(x, y) == if x == q && y == p then v else f(x, y)
  {
    (x, y) => if x == q && y == p then v else f(x, y)
  }

  /** The events a KP has processed and not undone, committed ones first. */
  function Line(s: Sys, k: int): seq<Ev> {
    s.hist(k) + s.stack(k)
  }

  function InitSys(m: Model): Sys {
    Sys(ZERO_SIG, m.roots,
        map e | e in m.roots && !Remote(m, e) :: Pq,
        {}, {}, map[],
        map e | e in m.roots && Remote(m, e) :: Outq,
        (_, _) => [], _ => [], _ => [], _ => ZERO_SIG, m.init,
        _ => Running, _ => None, _ => MAX_SIG, _ => 0, _ => 0, m.firstNum)
  }

  /** While a GVT computation is in progress the signature of a transient message lowers trans. */
  function Track(s: Sys, p: int, sig: Sig): int -> Sig {
    if s.phase(p) == Running then s.trans else Upd(s.trans, p, Min(s.trans(p), sig))
  }

  /** PE p is not in the middle of a rollback. */
  predicate Idle(s: Sys, p: int) {
    s.undo(p) == None
  }

  // ---------- tw_sched_batch ----------

  /** e is next in its PE's priority queue. */
  predicate CanProcess(m: Model, s: Sys, e: Ev) {
    && e in s.place && s.place[e] == Pq
    && s.phase(PeOf(m, e)) == Running && Idle(s, PeOf(m, e))
    && forall f <- s.place | s.place[f] == Pq && PeOf(m, f) == PeOf(m, e) :: Le(e.msg.sig, f.msg.sig)
  }

  function Kids(p: int, num: int, e: Ev, outs: seq<Msg>): seq<Ev> {
    seq(|outs|, i requires 0 <= i < |outs| => Ev(p, num + 1 + i, Some(e), outs[i]))
  }

  /** Take e off the queue, run its handler, and thread it onto its KP's stack. */
  function Push(m: Model, s: Sys, e: Ev, r: Result): Sys {
    var k := KpOf(m, e);
    s.(place := s.place[e := Processed],
       last := Upd(s.last, k, e.msg.sig),
       lp := Upd(s.lp, e.msg.dest, r.lp),
       done := s.done[e := Done(r.saved, [], r.aborted)],
       stack := Upd(s.stack, k, s.stack(k) + [e]))
  }

  /** tw_event_send to an LP of the same PE: straight to the priority queue unless that would cause a rollback. */
  function LocalPlace(m: Model, s: Sys, c: Ev): Place {
    if Le(s.last(KpOf(m, c)), c.msg.sig) then Pq else EventQ
  }

  /** The sends of e's handler. */
  function Launch(m: Model, s: Sys, e: Ev, kids: seq<Ev>): Sys
    requires e in s.done
  {
    var p := PeOf(m, e);
    s.(born := s.born + (set c | c in kids),
       place := s.place + (map c | c in kids && !Remote(m, c) :: LocalPlace(m, s, c)),
       wire := s.wire + (map c | c in kids && Remote(m, c) :: Outq),
       done := s.done[e := s.done[e].(kids := kids)],
       num := Upd(s.num, p, s.num(p) + |kids|))
  }

  function DoProcess(m: Model, s: Sys, e: Ev): Sys {
    var r := Exec(m, s.lp(e.msg.dest), e.msg);
    Launch(m, Push(m, s, e, r), e, Kids(PeOf(m, e), s.num(PeOf(m, e)), e, r.outs))
  }

  // ---------- rollback ----------

  function Top(s: Sys, k: int): Ev
    requires s.stack(k) != []
  {
    s.stack(k)[|s.stack(k)| - 1]
  }

  /** Shift the newest event off a KP's stack and run its reverse handler. */
  predicate CanBeginUndo(m: Model, s: Sys, k: int) {
    && s.stack(k) != []
    && Top(s, k) in s.done && Le(s.gvt, Top(s, k).msg.sig)
    && s.phase(m.peOf(k)) != Reducing && Idle(s, m.peOf(k))
  }

  function DoBeginUndo(m: Model, s: Sys, k: int): Sys
    requires CanBeginUndo(m, s, k)
  {
    var e := Top(s, k);
    var before := s.lp(e.msg.dest);
    s.(stack := Upd(s.stack, k, s.stack(k)[..|s.stack(k)| - 1]),
       place := s.place[e := Undoing],
       last := Upd(s.last, k, e.msg.sig),
       lp := Upd(s.lp, e.msg.dest, Lp(m.revert(before.st, s.done[e].saved), before.rng)),
       undo := Upd(s.undo, m.peOf(k), Some(e)))
  }

  predicate CanCancelKid(s: Sys, p: int) {
    && s.undo(p).Some? && s.undo(p).value in s.done
    && s.done[s.undo(p).value].kids != []
  }

  function LastKid(s: Sys, p: int): Ev
    requires CanCancelKid(s, p)
  {
    var kids := s.done[s.undo(p).value].kids;
    kids[|kids| - 1]
  }

  /** event_cancel on event c. A remote event is dropped from outq unsent, flagged while its send is under way, or
      queued again as an anti-message; an event of the same PE is freed if it waits in the priority queue and
      otherwise goes on cancel_q. */
  function AnnulWire(s: Sys, c: Ev): map<Ev, Wire> {
    if c !in s.wire then s.wire
    else if s.wire[c].Outq? then s.wire - {c}
    else s.wire[c := if s.wire[c].Asend? then Asend(true) else OutqAnti]
  }

  function AnnulPlace(s: Sys, c: Ev): map<Ev, Place> {
    if Direct(s, c) then s.place - {c} else s.place
  }

  function AnnulMarked(s: Sys, c: Ev): set<Ev> {
    if c in s.wire || Direct(s, c) then s.marked else s.marked + {c}
  }

  predicate Direct(s: Sys, c: Ev) {
    c !in s.wire && c in s.place && s.place[c] == Pq
  }

  /** event_cancel has a case for c; in any other state the code stops with an error. */
  predicate CancelHasCase(m: Model, s: Sys, c: Ev) {
    if Remote(m, c) then c in s.wire && (s.wire[c].Outq? || s.wire[c] == Asend(false) || s.wire[c].Sevent?)
    else c !in s.wire && c in s.place && s.place[c] in {Pq, EventQ, Processed}
  }

  /** Take the most recent event off the undone event's chain, draw back its tie-breaker, annul it. */
  function DoCancelKid(m: Model, s: Sys, p: int): Sys
    requires CanCancelKid(s, p)
  {
    var e := s.undo(p).value;
    var c := LastKid(s, p);
    var d := s.done[e];
    var lp := s.lp(e.msg.dest);
    s.(wire := AnnulWire(s, c),
       place := AnnulPlace(s, c),
       marked := AnnulMarked(s, c),
       lp := Upd(s.lp, e.msg.dest, lp.(rng := m.prev(lp.rng))),
       done := s.done[e := d.(kids := d.kids[..|d.kids| - 1])],
       trans := if Direct(s, c) then s.trans else Track(s, p, c.msg.sig))
  }

  function Rewind(m: Model, rng: Rng, n: nat): Rng {
    if n == 0 then rng else Rewind(m, m.prev(rng), n - 1)
  }

  /** drop: the undone event is the cancelled one and is freed; otherwise it returns to the priority queue. */
  predicate CanEndUndo(s: Sys, p: int, drop: bool) {
    && s.undo(p).Some? && s.undo(p).value in s.done
    && s.done[s.undo(p).value].kids == []
    && (drop ==> s.undo(p).value in s.marked)
  }

  /** reset: last_sig falls back to the newest remaining event, or to GVT. */
  function DoEndUndo(m: Model, s: Sys, p: int, drop: bool, reset: bool): Sys
    requires CanEndUndo(s, p, drop)
  {
    var e := s.undo(p).value;
    var k := KpOf(m, e);
    var lp := s.lp(e.msg.dest);
    s.(place := if drop then s.place - {e} else s.place[e := Pq],
       marked := if drop then s.marked - {e} else s.marked,
       done := s.done - {e},
       lp := Upd(s.lp, e.msg.dest, lp.(rng := Rewind(m, lp.rng, s.done[e].aborted))),
       last := if !reset then s.last
               else Upd(s.last, k, if s.stack(k) == [] then s.gvt else Top(s, k).msg.sig),
       undo := Upd(s.undo, p, None))
  }

  // ---------- tw_sched_event_q and tw_sched_cancel_q ----------

  /** An event leaves event_q: dropped if found cancelled, otherwise queued once no newer event of its KP remains
      processed (it may have been cancelled while that was being rolled back). */
  predicate CanTakeEvent(m: Model, s: Sys, e: Ev, drop: bool) {
    && e in s.place && s.place[e] == EventQ
    && s.phase(PeOf(m, e)) != Reducing && Idle(s, PeOf(m, e))
    && (drop ==> e in s.marked)
    && (!drop ==> forall i | 0 <= i < |s.stack(KpOf(m, e))| :: Le(s.stack(KpOf(m, e))[i].msg.sig, e.msg.sig))
  }

  function DoTakeEvent(s: Sys, e: Ev, drop: bool): Sys {
    s.(place := s.place[e := if drop then AntiMsg else Pq])
  }

  /** A cancelled event that is not processed is removed from wherever it waits and freed. */
  predicate CanTakeCancelled(m: Model, s: Sys, e: Ev) {
    && e in s.marked && e in s.place && s.place[e] in {EventQ, AntiMsg, Pq}
    && s.phase(PeOf(m, e)) != Reducing && Idle(s, PeOf(m, e))
  }

  function DoTakeCancelled(s: Sys, e: Ev): Sys {
    s.(place := s.place - {e}, marked := s.marked - {e})
  }

  // ---------- network ----------

  /** send_begin: a waiting event or anti-message is handed to MPI. */
  predicate CanPost(s: Sys, e: Ev) {
    e in s.wire && (s.wire[e].Outq? || s.wire[e].OutqAnti?)
  }

  function DoPost(m: Model, s: Sys, e: Ev): Sys
    requires CanPost(s, e)
  {
    var anti := s.wire[e].OutqAnti?;
    var q, p := e.pe, PeOf(m, e);
    s.(wire := s.wire[e := if anti then Acancel else Asend(false)],
       chan := Upd2(s.chan, q, p, s.chan(q, p) + [Packet(e, anti)]),
       sent := Upd(s.sent, q, s.sent(q) + 1))
  }

  /** send_finish */
  predicate CanFinishSend(s: Sys, e: Ev) {
    e in s.wire && (s.wire[e].Asend? || s.wire[e].Acancel?)
  }

  function DoFinishSend(s: Sys, e: Ev): Sys
    requires CanFinishSend(s, e)
  {
    s.(wire := if s.wire[e].Acancel? then s.wire - {e}
               else s.wire[e := if s.wire[e].cancelled then OutqAnti else Sevent])
  }

  /** p's cancel_q is empty. */
  predicate NothingMarked(m: Model, s: Sys, p: int) {
    forall e <- s.marked :: PeOf(m, e) != p
  }

  /** recv_finish: p takes the oldest message of the channel from q. */
  function DoReceive(m: Model, s: Sys, q: int, p: int): Sys
    requires s.chan(q, p) != []
  {
    var e := s.chan(q, p)[0].ev;
    var s1 := s.(chan := Upd2(s.chan, q, p, s.chan(q, p)[1..]),
                 trans := Track(s, p, e.msg.sig),
                 recv := Upd(s.recv, p, s.recv(p) + 1));
    if s.chan(q, p)[0].anti then s1.(index := s.index - {e}, marked := s.marked + {e})
    else
      s1.(index := s.index + {e},
          place := s.place[e := if Le(s.last(KpOf(m, e)), e.msg.sig) && NothingMarked(m, s, p) then Pq else EventQ])
  }

  // ---------- GVT and fossil collection ----------

  predicate CanStartGvt(m: Model, s: Sys, p: int) {
    s.phase(p) == Running && Idle(s, p) && p < m.numPes
  }

  /** tw_sched_event_q returns: nothing is left in event_q. */
  predicate EventQDrained(m: Model, s: Sys, p: int) {
    && s.phase(p) == Spinning && Idle(s, p)
    && forall e <- s.place | PeOf(m, e) == p :: s.place[e] != EventQ
  }

  /** tw_sched_cancel_q returns: cancel_q is empty. */
  predicate CancelQDrained(m: Model, s: Sys, p: int) {
    s.phase(p) == Cancelling && Idle(s, p) && NothingMarked(m, s, p)
  }

  function SetPhase(s: Sys, p: int, phase: Phase): Sys {
    s.(phase := Upd(s.phase, p, phase))
  }

  /** The sum of the PEs' white counts, messages sent less messages received since the last round. */
  function White(sent: int -> int, recv: int -> int, n: nat): int {
    if n == 0 then 0 else White(sent, recv, n - 1) + sent(n - 1) - recv(n - 1)
  }

  /** g is below every PE's transient minimum, priority queue and unfinished sends. */
  predicate LocalLower(m: Model, s: Sys, g: Sig) {
    && (forall p | 0 <= p < m.numPes :: Le(g, s.trans(p)))
    && (forall e <- s.place | s.place[e] == Pq :: Le(g, e.msg.sig))
    && (forall e <- s.wire | !s.wire[e].Sevent? :: Le(g, e.msg.sig))
  }

  predicate LocalAttained(m: Model, s: Sys, g: Sig) {
    || g == MAX_SIG
    || (exists p | 0 <= p < m.numPes :: s.trans(p) == g)
    || (exists e <- s.place :: s.place[e] == Pq && e.msg.sig == g)
    || (exists e <- s.wire :: !s.wire[e].Sevent? && e.msg.sig == g)
  }

  /** Every PE waits in step 2, the white counts cancel out, and g is the agreed minimum. */
  predicate CanGvtRound(m: Model, s: Sys, g: Sig) {
    && (forall p | 0 <= p < m.numPes :: s.phase(p) == Reducing)
    && White(s.sent, s.recv, m.numPes) == 0
    && LocalLower(m, s, g) && LocalAttained(m, s, g)
  }

  function DoGvtRound(s: Sys, g: Sig): Sys {
    s.(gvt := g, phase := _ => Running, trans := _ => MAX_SIG, sent := _ => 0, recv := _ => 0)
  }

  /** How many of the oldest events of a stack are below g. */
  function CountBelow(st: seq<Ev>, g: Sig): (n: nat)
    ensures n <= |st|
  {
    if st == [] || Le(g, st[0].msg.sig) then 0 else 1 + CountBelow(st[1..], g)
  }

  /** tw_eventq_fossil_collect on one KP: commit the part below GVT, oldest first, and free the buffers
      of its fully sent events. */
  function DoFossil(s: Sys, k: int): Sys {
    Collect(s, k, CountBelow(s.stack(k), s.gvt))
  }

  function Collect(s: Sys, k: int, n: nat): Sys
    requires n <= |s.stack(k)|
  {
    var fossils := s.stack(k)[..n];
    s.(stack := Upd(s.stack, k, s.stack(k)[n..]),
       hist := Upd(s.hist, k, s.hist(k) + fossils),
       place := s.place + (map e | e in fossils :: Committed),
       index := s.index - (set e | e in fossils),
       wire := s.wire - (set c | c in s.wire && s.wire[c].Sevent? && c.cause.Some? && c.cause.value in fossils
                                 && c.cause.value in s.done && c in s.done[c.cause.value].kids))
  }

  // ---------- the step system ----------

  datatype Action =
    | Process(e: Ev)
    | BeginUndo(k: int)
    | CancelKid(p: int)
    | EndUndo(p: int, drop: bool, reset: bool)
    | TakeEvent(e: Ev, drop: bool)
    | TakeCancelled(e: Ev)
    | Post(e: Ev)
    | FinishSend(e: Ev)
    | Receive(q: int, p: int)
    | StartGvt(p: int)
    | DoneEventQ(p: int)
    | DoneCancelQ(p: int)
    | GvtRound(g: Sig)
    | Fossil(k: int)

  predicate Enabled(m: Model, s: Sys, a: Action) {
    match a
    case Process(e) => CanProcess(m, s, e)
    case BeginUndo(k) => CanBeginUndo(m, s, k)
    case CancelKid(p) => CanCancelKid(s, p)
    case EndUndo(p, drop, _) => CanEndUndo(s, p, drop)
    case TakeEvent(e, drop) => CanTakeEvent(m, s, e, drop)
    case TakeCancelled(e) => CanTakeCancelled(m, s, e)
    case Post(e) => CanPost(s, e)
    case FinishSend(e) => CanFinishSend(s, e)
    case Receive(q, p) => s.chan(q, p) != []
    case StartGvt(p) => CanStartGvt(m, s, p)
    case DoneEventQ(p) => EventQDrained(m, s, p)
    case DoneCancelQ(p) => CancelQDrained(m, s, p)
    case GvtRound(g) => CanGvtRound(m, s, g)
    case Fossil(k) => true
  }

  function Apply(m: Model, s: Sys, a: Action): Sys
    requires Enabled(m, s, a)
  {
    match a
    case Process(e) => DoProcess(m, s, e)
    case BeginUndo(k) => DoBeginUndo(m, s, k)
    case CancelKid(p) => DoCancelKid(m, s, p)
    case EndUndo(p, drop, reset) => DoEndUndo(m, s, p, drop, reset)
    case TakeEvent(e, drop) => DoTakeEvent(s, e, drop)
    case TakeCancelled(e) => DoTakeCancelled(s, e)
    case Post(e) => DoPost(m, s, e)
    case FinishSend(e) => DoFinishSend(s, e)
    case Receive(q, p) => DoReceive(m, s, q, p)
    case StartGvt(p) => SetPhase(s, p, Spinning)
    case DoneEventQ(p) => SetPhase(s, p, Cancelling)
    case DoneCancelQ(p) => SetPhase(s, p, Reducing)
    case GvtRound(g) => DoGvtRound(s, g)
    case Fossil(k) => DoFossil(s, k)
  }

  /** s' is reached from s by some finite run of actions. */
  ghost predicate Reaches(m: Model, s: Sys, s': Sys) {
    exists run: seq<Action> :: Runs(m, s, run, s')
  }

  ghost predicate Runs(m: Model, s: Sys, run: seq<Action>, s': Sys)
    decreases |run|
  {
    if run == [] then s == s'
    else Enabled(m, s, run[0]) && Runs(m, Apply(m, s, run[0]), run[1..], s')
  }
}
