/** What every reachable state of the step system satisfies. */
module TimeWarpInvariants {
  import opened EventSignature
  import opened LpModel
  import opened TimeWarp

  /** An event is strictly later than its cause and was sent by the PE that processed its cause. */
  predicate WellCaused(m: Model, e: Ev) {
    e.cause.Some? ==> e.pe == PeOf(m, e.cause.value) && !Le(e.msg.sig, e.cause.value.msg.sig)
  }

  /** Identifiers are unique. */
  ghost predicate Ids(m: Model, s: Sys) {
    && (forall e <- s.born :: e.num <= s.num(e.pe))
    && (forall e, f | e in s.born && f in s.born && e.pe == f.pe && e.num == f.num :: e == f)
  }

  /** Everything in the system was sent by someone. */
  ghost predicate Births(m: Model, s: Sys) {
    && (forall e <- s.born :: WellCaused(m, e) && Le(e.msg.sig, MAX_SIG) && PrioOk(e.msg.sig))
    && (forall e <- s.born :: e.cause == None <==> e in m.roots)
    && (forall e <- s.born :: 0 <= e.pe < m.numPes)
    && m.roots <= s.born && s.place.Keys <= s.born && s.wire.Keys <= s.born
    && (forall q, p, i | 0 <= i < |s.chan(q, p)| :: s.chan(q, p)[i].ev in s.born)
  }

  /** The processed events are exactly those on the stacks. */
  ghost predicate Stacks(m: Model, s: Sys) {
    && (forall k, i | 0 <= i < |s.stack(k)| ::
          var e := s.stack(k)[i]; e in s.place && s.place[e] == Processed && KpOf(m, e) == k)
    && (forall k, i, j | 0 <= i < j < |s.stack(k)| :: s.stack(k)[i] != s.stack(k)[j])
    && (forall e <- s.place | s.place[e] == Processed :: e in s.stack(KpOf(m, e)))
  }

  /** The committed events are exactly those in the histories. */
  ghost predicate Histories(m: Model, s: Sys) {
    && (forall k, i | 0 <= i < |s.hist(k)| ::
          var e := s.hist(k)[i]; e in s.place && s.place[e] == Committed && KpOf(m, e) == k)
    && (forall k, i, j | 0 <= i < j < |s.hist(k)| :: s.hist(k)[i] != s.hist(k)[j])
    && (forall e <- s.place | s.place[e] == Committed :: e in s.hist(KpOf(m, e)))
  }

  /** Exactly the events that have been processed and not yet undone carry a record of their processing. */
  ghost predicate Dones(s: Sys) {
    && (forall e <- s.done :: e in s.place && s.place[e] in {Processed, Undoing, Committed})
    && (forall e <- s.place | s.place[e] in {Processed, Undoing, Committed} :: e in s.done)
  }

  /** The one event a PE is rolling back is the one so owned. */
  ghost predicate Owners(m: Model, s: Sys) {
    && (forall p | s.undo(p).Some? ::
          var e := s.undo(p).value; e in s.place && s.place[e] == Undoing && PeOf(m, e) == p)
    && (forall e <- s.place | s.place[e] == Undoing :: s.undo(PeOf(m, e)) == Some(e))
  }

  /** What is on cancel_q is held by the destination and not committed. */
  ghost predicate Marks(s: Sys) {
    && (forall e <- s.marked :: e in s.place && s.place[e] != Committed)
    && (forall e <- s.place | s.place[e] == AntiMsg :: e in s.marked)
  }

  /** Each KP's history and stack are sorted, oldest first, and the history is no later than the stack. */
  ghost predicate Sorted(s: Sys) {
    && (forall k, i, j | 0 <= i < j < |s.stack(k)| :: Le(s.stack(k)[i].msg.sig, s.stack(k)[j].msg.sig))
    && (forall k, i, j | 0 <= i < j < |s.hist(k)| :: Le(s.hist(k)[i].msg.sig, s.hist(k)[j].msg.sig))
    && (forall k, i, j | 0 <= i < |s.hist(k)| && 0 <= j < |s.stack(k)| ::
          Le(s.hist(k)[i].msg.sig, s.stack(k)[j].msg.sig))
  }

  /** Nothing queued for a KP is earlier than what it has processed, and last_sig is never behind the newest
      processed event. */
  ghost predicate Ahead(m: Model, s: Sys) {
    && (forall e <- s.place, k, i | s.place[e] in {Pq, Undoing} && k == KpOf(m, e) && 0 <= i < |s.stack(k)| ::
          Le(s.stack(k)[i].msg.sig, e.msg.sig))
    && (forall k, i | 0 <= i < |s.stack(k)| :: Le(s.stack(k)[i].msg.sig, s.last(k)))
  }

  /** GVT is a lower bound on everything unprocessed, cancelled or under way, and above everything committed. */
  ghost predicate Bounds(m: Model, s: Sys) {
    && (forall e <- s.place | s.place[e] in {EventQ, Pq, AntiMsg, Undoing} :: Le(s.gvt, e.msg.sig))
    && (forall e <- s.place | s.place[e] == Committed :: !Le(s.gvt, e.msg.sig))
    && (forall e <- s.marked :: Le(s.gvt, e.msg.sig))
    && (forall e <- s.wire | !s.wire[e].Sevent? :: Le(s.gvt, e.msg.sig))
    && (forall q, p, i | 0 <= i < |s.chan(q, p)| :: Le(s.gvt, s.chan(q, p)[i].ev.msg.sig))
    && (forall p :: Le(s.gvt, s.trans(p)) && Le(s.trans(p), MAX_SIG))
    && Le(s.gvt, MAX_SIG)
  }

  /** During a GVT computation trans accounts for what step 2 does not look at: events that reached event_q after it
      was emptied, and cancellations that reached cancel_q after it was emptied. */
  ghost predicate Phases(m: Model, s: Sys) {
    && (forall e <- s.place | s.place[e] == EventQ && s.phase(PeOf(m, e)) in {Cancelling, Reducing} ::
          Le(s.trans(PeOf(m, e)), e.msg.sig))
    && (forall e <- s.marked | s.phase(PeOf(m, e)) == Reducing ::
          Le(s.trans(PeOf(m, e)), e.msg.sig))
    && (forall p | s.phase(p) == Reducing :: s.undo(p) == None)
  }

  ghost predicate InChan(m: Model, chan: (int, int) -> seq<Packet>, e: Ev, anti: bool) {
    Packet(e, anti) in chan(e.pe, PeOf(m, e))
  }

  /** Only remote events travel, each between its own two PEs, and no message is under way twice. */
  ghost predicate Routes(m: Model, s: Sys) {
    && (forall e <- s.wire :: Remote(m, e))
    && (forall q, p, i | 0 <= i < |s.chan(q, p)| ::
          var e := s.chan(q, p)[i].ev; e.pe == q && PeOf(m, e) == p && Remote(m, e))
    && (forall q, p, i, j | 0 <= i < j < |s.chan(q, p)| :: s.chan(q, p)[i] != s.chan(q, p)[j])
  }

  /** The destination does not yet hold an event that is still under way. */
  ghost predicate Arriving(m: Model, s: Sys) {
    forall e | InChan(m, s.chan, e, false) :: e !in s.place
  }

  /** The life cycle of a remote event: at each stage of its sender's buffer, what is under way and what the
      destination holds. */
  ghost predicate Stages(m: Model, s: Sys) {
    && (forall e <- s.wire | s.wire[e].Outq? ::
          e !in s.place && !InChan(m, s.chan, e, false) && !InChan(m, s.chan, e, true))
    && (forall e <- s.wire | s.wire[e].Asend? || s.wire[e].Sevent? || s.wire[e].OutqAnti? ::
          && !InChan(m, s.chan, e, true) && e !in s.marked && (e in s.place || InChan(m, s.chan, e, false)))
    && (forall e <- s.wire | s.wire[e].Acancel? ::
          InChan(m, s.chan, e, true) || e in s.marked || (e !in s.place && !InChan(m, s.chan, e, false)))
  }

  /** An anti-message is either behind its positive in the same channel, or the destination holds the positive
      and has not yet been told to cancel it. */
  ghost predicate Antis(m: Model, s: Sys) {
    forall q, p, i | 0 <= i < |s.chan(q, p)| && s.chan(q, p)[i].anti ::
      var e := s.chan(q, p)[i].ev;
      if e in s.place then e !in s.marked && s.place[e] != Committed
      else Packet(e, false) in s.chan(q, p)[..i]
  }

  /** The lookup structure holds exactly the received remote events that are neither cancelled nor committed. */
  ghost predicate Lookup(m: Model, s: Sys) {
    && s.index <= s.place.Keys && (forall e <- s.index :: Remote(m, e))
    && (forall e <- s.place | Remote(m, e) :: e in s.index <==> e !in s.marked && s.place[e] != Committed)
  }

  /** The event's cancellation has begun. */
  ghost predicate Cancelled(m: Model, s: Sys, e: Ev) {
    || e in s.marked
    || InChan(m, s.chan, e, true)
    || (e in s.wire && (s.wire[e] == Asend(true) || s.wire[e].OutqAnti? || s.wire[e].Acancel?))
  }

  ghost predicate Present(m: Model, s: Sys, e: Ev) {
    || e in s.place
    || InChan(m, s.chan, e, false)
    || (e in s.wire && s.wire[e].Outq?)
  }

  ghost predicate Live(m: Model, s: Sys, e: Ev) {
    Present(m, s, e) && !Cancelled(m, s, e)
  }

  /** Every event a processed event has caused is live, and the sender still knows it while it might have to
      annul it. */
  ghost predicate KidsLive(m: Model, s: Sys) {
    && (forall e <- s.done, c <- s.done[e].kids :: Live(m, s, c) && c.cause == Some(e))
    && (forall e <- s.done, i, j | 0 <= i < j < |s.done[e].kids| :: s.done[e].kids[i] != s.done[e].kids[j])
    && (forall e <- s.done, c <- s.done[e].kids | Remote(m, c) && e in s.place && s.place[e] != Committed ::
          c in s.wire)
  }

  /** Every live event is an initial event or was caused by an event that is processed or committed; the initial
      events are always live. */
  ghost predicate Causes(m: Model, s: Sys) {
    && (forall c | Live(m, s, c) && c.cause.Some? :: c.cause.value in s.done && c in s.done[c.cause.value].kids)
    && (forall r <- m.roots :: Live(m, s, r))
  }

  /** Messages under way from PE q to the first n PEs. */
  function RowLen(chan: (int, int) -> seq<Packet>, q: int, n: nat): nat {
    if n == 0 then 0 else RowLen(chan, q, n - 1) + |chan(q, n - 1)|
  }

  /** Messages under way from the first nq PEs to the first n PEs. */
  function InFlight(chan: (int, int) -> seq<Packet>, nq: nat, n: nat): nat {
    if nq == 0 then 0 else InFlight(chan, nq - 1, n) + RowLen(chan, nq - 1, n)
  }

  /** The white counts add up to the number of messages under way. */
  ghost predicate Flights(m: Model, s: Sys) {
    && White(s.sent, s.recv, m.numPes) == InFlight(s.chan, m.numPes, m.numPes)
    && (forall q, p | s.chan(q, p) != [] :: 0 <= q < m.numPes && 0 <= p < m.numPes)
  }

  /** What is recorded of an event processed after the given ones is what its handler yields there. */
  ghost predicate Recorded(m: Model, s: Sys, before: seq<Ev>, e: Ev) {
    && e in s.done
    && var r := Exec(m, Replay(m, before, e.msg.dest), e.msg);
       && s.done[e].saved == r.saved && s.done[e].aborted == r.aborted && |s.done[e].kids| == |r.outs|
       && forall j | 0 <= j < |r.outs| :: s.done[e].kids[j].msg == r.outs[j]
  }

  /** Every LP's state is what processing its KP's events in order yields; while an event of the LP is being rolled
      back, its random stream is ahead by the draws not yet taken back. */
  ghost predicate LpAgrees(m: Model, s: Sys, l: int) {
    var x := Replay(m, Line(s, m.kpOf(l)), l);
    match s.undo(m.peOf(m.kpOf(l)))
    case Some(u) =>
      if u.msg.dest == l then
        u in s.done && s.lp(l).st == x.st
        && s.lp(l).rng == Advance(m, x.rng, |s.done[u].kids| + s.done[u].aborted)
      else s.lp(l) == x
    case None => s.lp(l) == x
  }

  ghost predicate LpsAgree(m: Model, s: Sys) {
    forall l :: LpAgrees(m, s, l)
  }

  ghost predicate LinesRecorded(m: Model, s: Sys) {
    forall k, i | 0 <= i < |Line(s, k)| :: Recorded(m, s, Line(s, k)[..i], Line(s, k)[i])
  }

  ghost predicate Core(m: Model, s: Sys) {
    && ModelOk(m)
    && Ids(m, s)
    && Births(m, s)
    && Stacks(m, s)
    && Histories(m, s)
    && Dones(s)
    && Owners(m, s)
    && Marks(s)
    && Sorted(s)
    && Ahead(m, s)
    && Bounds(m, s)
    && Phases(m, s)
    && Routes(m, s)
    && Arriving(m, s)
    && Stages(m, s)
    && Antis(m, s)
    && Lookup(m, s)
    && KidsLive(m, s)
    && Causes(m, s)
    && Flights(m, s)
    && LpsAgree(m, s)
    && LinesRecorded(m, s)
  }
}
