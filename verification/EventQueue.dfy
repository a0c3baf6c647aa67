/** The doubly linked event queues, and fossil collection on them: the part of a queue that is older than GVT is cut
    off, committed oldest first, and put on the free list. */
module EventQueue {
  import opened EventSignature

  datatype Owner = Processed | Sevent | Freed | Elsewhere

  class Event {
    var sig: Sig
    var owner: Owner
    var caused: seq<Event>
    var prev: Event?
    var next: Event?
  }

  ghost function At(list: seq<Event>, i: int): Event? {
    if 0 <= i < |list| then list[i] else null
  }

  ghost predicate Distinct(list: seq<Event>) {
    forall i, j | 0 <= i < |list| && 0 <= j < |list| :: list[i] == list[j] ==> i == j
  }

  ghost predicate NodeLinked(list: seq<Event>, i: int)
    requires 0 <= i < |list|
    reads list[i]
  {
    list[i].prev == At(list, i - 1) && list[i].next == At(list, i + 1)
  }

  ghost function Nodes(list: seq<Event>): set<Event> {
    set i | 0 <= i < |list| :: list[i]
  }

  /** The events are distinct and linked in this order, both ways. */
  ghost predicate Chain(list: seq<Event>)
    reads Nodes(list)
  {
    Distinct(list) && forall i | 0 <= i < |list| :: NodeLinked(list, i)
  }

  lemma Around(list: seq<Event>, i: int)
    requires Chain(list) && 0 <= i < |list|
    ensures NodeLinked(list, i) && (i > 0 ==> NodeLinked(list, i - 1)) && (i + 1 < |list| ==> NodeLinked(list, i + 1))
  {
  }

  class Queue {
    var head: Event?
    var tail: Event?
    var size: nat
    ghost var list: seq<Event>

    ghost predicate Valid()
      reads this, Nodes(list)
    {
      Chain(list) && head == At(list, 0) && tail == At(list, |list| - 1) && size == |list|
    }

    /** tw_eventq_push */
    method Push(e: Event)
      requires Valid() && e !in Nodes(list)
      modifies this, e`prev, e`next, Nodes(list)`next
      ensures Valid() && list == old(list) + [e]
    {
      if list != [] {
        Around(list, |list| - 1);
      }
      var t := tail;
      e.next := null;
      e.prev := t;
      if t != null {
        t.next := e;
      } else {
        head := e;
      }
      tail := e;
      size := size + 1;
      ghost var l := list;
      list := list + [e];
      forall i | 0 <= i < |list| ensures NodeLinked(list, i) {
        assert i < |l| ==> old(NodeLinked(l, i));
      }
    }

    /** tw_eventq_pop */
    method Pop() returns (t: Event?)
      requires Valid()
      modifies this, Nodes(list)`prev, Nodes(list)`next
      ensures Valid() && t == old(tail)
      ensures if old(list) == [] then t == null && list == [] else t != null && list + [t] == old(list)
    {
      t := tail;
      if t == null {
        return;
      }
      Around(list, |list| - 1);
      var p := t.prev;
      if p != null {
        p.next := null;
      } else {
        head := null;
      }
      tail := p;
      size := size - 1;
      t.next, t.prev := null, null;
      ghost var l := list;
      list := list[..|list| - 1];
      forall j | 0 <= j < |list| ensures NodeLinked(list, j) {
        assert old(NodeLinked(l, j));
      }
    }

    /** tw_eventq_unshift */
    method Unshift(e: Event)
      requires Valid() && e !in Nodes(list)
      modifies this, e`prev, e`next, Nodes(list)`prev
      ensures Valid() && list == [e] + old(list)
    {
      if list != [] {
        Around(list, 0);
      }
      var h := head;
      e.prev := null;
      e.next := h;
      if h != null {
        h.prev := e;
      } else {
        tail := e;
      }
      head := e;
      size := size + 1;
      ghost var l := list;
      list := [e] + list;
      forall i | 0 <= i < |list| ensures NodeLinked(list, i) {
        assert i > 0 ==> old(NodeLinked(l, i - 1));
      }
    }

    /** tw_eventq_shift */
    method Shift() returns (h: Event?)
      requires Valid()
      modifies this, Nodes(list)`prev, Nodes(list)`next
      ensures Valid() && h == old(head)
      ensures if old(list) == [] then h == null && list == [] else h != null && [h] + list == old(list)
    {
      h := head;
      if h == null {
        return;
      }
      Around(list, 0);
      var n := h.next;
      if n != null {
        n.prev := null;
      } else {
        tail := null;
      }
      head := n;
      size := size - 1;
      h.next, h.prev := null, null;
      ghost var l := list;
      list := list[1..];
      forall j | 0 <= j < |list| ensures NodeLinked(list, j) {
        assert old(NodeLinked(l, j + 1));
      }
    }

    /** tw_eventq_delete_any */
    method DeleteAny(e: Event, ghost i: int)
      requires Valid() && 0 <= i < |list| && list[i] == e
      modifies this, Nodes(list)`prev, Nodes(list)`next
      ensures Valid() && list == old(list)[..i] + old(list)[i + 1..]
    {
      Around(list, i);
      var p, n := e.prev, e.next;
      if p != null {
        p.next := n;
      } else {
        head := n;
      }
      if n != null {
        n.prev := p;
      } else {
        tail := p;
      }
      e.next, e.prev := null, null;
      size := size - 1;
      ghost var l := list;
      list := list[..i] + list[i + 1..];
      forall j | 0 <= j < |list| ensures NodeLinked(list, j) {
        assert old(NodeLinked(l, if j < i then j else j + 1));
      }
    }

    /** tw_eventq_pop_list: the events stay linked to each other. */
    method PopList() returns (h: Event?)
      requires Valid()
      modifies this
      ensures Valid() && list == [] && h == At(old(list), 0) && Chain(old(list))
    {
      h := head;
      size, head, tail, list := 0, null, null, [];
    }

    // ---------- the free list ----------

    /** tw_event_free */
    method FreeEvent(e: Event)
      requires Valid() && e !in Nodes(list)
      modifies this, e`prev, e`next, e`owner, Nodes(list)`prev
      ensures Valid() && list == [e] + old(list) && e.owner == Freed
    {
      e.owner := Freed;
      Unshift(e);
    }

    /** A kid's buffer is freed if it has been fully sent. */
    method FreeKid(c: Event, ghost freed: seq<Event>, ghost rest: seq<Event>) returns (ghost more: seq<Event>)
      requires Valid() && NoneSent(list) && list == freed + rest
      modifies this, Sent([c])`prev, Sent([c])`next, Sent([c])`owner, Nodes(list)`prev
      ensures Valid() && NoneSent(list) && list == more + rest
      ensures if old(c.owner) == Sevent then more == [c] + freed && c.owner == Freed
              else more == freed && c.owner == old(c.owner)
    {
      more := freed;
      if c.owner == Sevent {
        assert [c][0] == c;
        FreeEvent(c);
        more := [c] + freed;
      }
    }

    /** The buffers of fully sent events among kids go to the front of the free list. */
    method FreeSent(kids: seq<Event>) returns (ghost freed: seq<Event>)
      requires Valid() && NoneSent(list)
      modifies this, Sent(kids)`prev, Sent(kids)`next, Sent(kids)`owner, Nodes(list)`prev
      ensures Valid() && NoneSent(list) && list == freed + old(list) && Nodes(freed) == old(Sent(kids))
    {
      hide Chain, NoneSent;
      freed := [];
      ghost var sent := Sent(kids);
      for i := 0 to |kids|
        invariant Valid() && NoneSent(list) && list == freed + old(list)
        invariant Nodes(freed) == Among(kids, sent, i)
        invariant forall c <- kids | c.owner == Sevent :: c in sent && c !in Nodes(freed)
        invariant forall c <- sent | c.owner != Sevent :: c in Nodes(freed)
      {
        AmongNext(kids, sent, i);
        NodesPlus(freed, old(list));
        NodesPlus([kids[i]], freed);
        hide Among;
        freed := FreeKid(kids[i], freed, old(list));
      }
      AllAmong(kids, sent);
    }

    // ---------- fossil collection ----------

    /** The list h to t is put in front: the first half of tw_eventq_push_list. */
    method Prepend(h: Event, t: Event, cnt: nat, ghost part: seq<Event>)
      requires Valid() && part != [] && h == part[0] && t == part[|part| - 1] && cnt == |part|
      requires Distinct(part) && Inner(part) && Nodes(part) !! Nodes(list)
      modifies `head, `tail, `size, `list, h`prev, t`next, Nodes(list)`prev
      ensures Valid() && list == part + old(list)
    {
      if list != [] {
        Around(list, 0);
      }
      t.next := head;
      if head != null {
        head.prev := t;
      }
      head := h;
      head.prev := null;
      if tail == null {
        tail := t;
      }
      size := size + cnt;
      ghost var l := list;
      list := part + list;
      DistinctPlus(part, l);
      forall i | 0 <= i < |list| ensures NodeLinked(list, i) {
        if i < |part| {
          assert old(InnerAt(part, i)) && part[i] in Nodes(part) && (l != [] ==> l[0] in Nodes(l));
          assert list[i] == part[i] && (i > 0 ==> list[i - 1] == part[i - 1]);
        } else {
          assert old(NodeLinked(l, i - |part|)) && l[i - |part|] in Nodes(l) && h in Nodes(part) && t in Nodes(part);
          assert list[i] == l[i - |part|] && At(list, i + 1) == At(l, i + 1 - |part|);
        }
      }
    }

    /** One event of the list is committed: the buffers of what it sent are freed. */
    method CommitOne(e: Event, ghost watch: set<Event>) returns (ghost freed: seq<Event>)
      requires Valid() && NoneSent(list) && e in Nodes(list)
      modifies this, Sent(e.caused)`prev, Sent(e.caused)`next, Sent(e.caused)`owner, Nodes(list)`prev, e`caused, e`owner
      ensures Valid() && NoneSent(list) && list == freed + old(list) && Nodes(freed) == old(Sent(e.caused))
      ensures e.caused == []
      ensures e.owner == if old(e.caused) == [] then old(e.owner) else Freed
      ensures forall c <- watch :: c.owner == Sevent <==> old(c.owner) == Sevent && c !in Nodes(freed)
    {
      hide Chain;
      freed := [];
      NodesPlus([], list);
      if e.caused != [] {
        freed := FreeSent(e.caused);
        NodesPlus(freed, old(list));
        Forget(e);
      }
    }

    /** The events of part from lo on have been committed, and the buffers of what they sent, freed, are in front. */
    ghost predicate Committing(part: seq<Event>, rest: seq<Event>, kids: seq<seq<Event>>, sent: set<Event>,
        freed: seq<Event>, lo: int)
      requires 0 <= lo <= |part| == |kids|
      reads this, Nodes(list), Nodes(part), sent, Flat(kids)
    {
      && Valid() && NoneSent(list) && list == freed + part + rest && Collected(kids, lo, sent, freed)
      && forall k | 0 <= k < lo :: part[k].caused == kids[k]
    }

    method CommitStep(e: Event, ghost part: seq<Event>, ghost rest: seq<Event>, ghost kids: seq<seq<Event>>,
        ghost sent: set<Event>, ghost freed: seq<Event>, ghost i: int) returns (ghost more: seq<Event>)
      requires 0 <= i < |part| == |kids| && e == part[i] && Committing(part, rest, kids, sent, freed, i + 1)
      modifies this, sent`prev, sent`next, sent`owner, Nodes(list)`prev, Nodes(part)`caused, Nodes(part)`owner
      ensures Committing(part, rest, kids, sent, more, i) && (i > 0 ==> e.prev == part[i - 1])
    {
      InPart(freed, part, rest, i);
      KidsInFlat(kids, i);
      ghost var here := Sent(e.caused);
      OfThisEvent(kids, sent, freed, i, here);
      hide Flat, Chain;
      more := CommitOne(e, Flat(kids));
      CollectedMore(kids, i, sent, freed, more);
      hide Sent, NoneSent, Collected;
      AllMore(more, freed, part, rest);
      more := more + freed;
      InPart(more, part, rest, i);
      Around(list, |more| + i);
      PrevInPart(more, part, rest, i);
    }

    /** The second half of tw_eventq_push_list: the events from t back to h are committed. */
    method CommitAll(h: Event, t: Event, ghost part: seq<Event>, ghost rest: seq<Event>)
      returns (committed: seq<Event>, ghost freed: seq<Event>)
      requires Valid() && NoneSent(list) && list == part + rest
      requires part != [] && h == part[0] && t == part[|part| - 1]
      modifies this, AllSent(part)`prev, AllSent(part)`next, AllSent(part)`owner
      modifies Nodes(list)`prev, Nodes(part)`caused, Nodes(part)`owner
      ensures Valid() && NoneSent(list) && list == freed + part + rest
      ensures Nodes(freed) == old(AllSent(part)) && committed == Reversed(part)
    {
      ghost var sent, kids := AllSent(part), Caused(part);
      ghost var i := |part| - 1;
      var e := t;
      committed, freed := [], [];
      while true
        invariant 0 <= i < |part| && e == part[i] && committed == Reversed(part[i + 1..])
        invariant Committing(part, rest, kids, sent, freed, i + 1)
        decreases i
      {
        InPart(freed, part, rest, i);
        NodesPlus(part, rest);
        assert Nodes(freed) <= sent && Nodes(list) <= sent + old(Nodes(list));
        hide Collected, NoneSent, Chain;
        freed := CommitStep(e, part, rest, kids, sent, freed, i);
        committed := committed + [e];
        ReversedNext(part, i);
        assert part[0..] == part && kids[0..] == kids;
        if e == h {
          break;
        }
        e := e.prev;
        i := i - 1;
      }
    }

    /** Putting the list in front does not touch what its events caused. */
    method PrependKeeps(h: Event, t: Event, cnt: nat, ghost part: seq<Event>)
      requires Valid() && part != [] && h == part[0] && t == part[|part| - 1] && cnt == |part|
      requires Distinct(part) && Inner(part) && Nodes(part) !! Nodes(list)
      modifies `head, `tail, `size, `list, h`prev, t`next, Nodes(list)`prev
      ensures Valid() && list == part + old(list) && AllSent(part) == old(AllSent(part))
    {
      ghost var kids, sent := Caused(part), AllSent(part);
      assert forall i | 0 <= i < |part| :: kids[i] == part[i].caused;
      assert forall c <- Flat(kids) :: allocated(c);
      hide Inner, Distinct, Chain, Flat, Reversed, NodeLinked;
      Prepend(h, t, cnt, part);
      assert Caused(part) == kids;
      assert AllSent(part) == sent;
    }

    /** tw_eventq_push_list, on the free list. */
    method PushList(h: Event, t: Event, cnt: nat, ghost part: seq<Event>)
      returns (committed: seq<Event>, ghost freed: seq<Event>)
      requires Valid() && NoneSent(list) && part != [] && h == part[0] && t == part[|part| - 1] && cnt == |part|
      requires Distinct(part) && Inner(part) && Nodes(part) !! Nodes(list) && NoneSent(part)
      modifies this, Nodes(list)`prev, Nodes(part), AllSent(part)`prev, AllSent(part)`next, AllSent(part)`owner
      ensures Valid() && NoneSent(list) && list == freed + part + old(list)
      ensures Nodes(freed) == old(AllSent(part)) && committed == Reversed(part)
    {
      ghost var rest := list;
      NodesPlus(part, rest);
      PrependKeeps(h, t, cnt, part);
      hide Inner, Distinct, Chain, Reversed, AllSent;
      committed, freed := CommitAll(h, t, part, rest);
    }

    method Forget(e: Event)
      requires Valid() && NoneSent(list) && e in Nodes(list)
      modifies e`caused, e`owner
      ensures Valid() && NoneSent(list) && e.caused == [] && e.owner == Freed
    {
      e.caused := [];
      e.owner := Freed;
      forall i | 0 <= i < |list| ensures NodeLinked(list, i) {
        assert old(NodeLinked(list, i));
      }
    }

    /** Where to cut the queue: the search starts from the tail. */
    method FindCut(gvt: Sig) returns (n: Event, h: Event, cnt: nat)
      requires Valid() && head != null && tail != null && Compare(head.sig, gvt) >= 0 && Compare(tail.sig, gvt) < 0
      ensures var k := Kept(list, gvt); 0 < k < |list| && cnt == |list| - k && n == list[k - 1] && h == list[k]
    {
      ghost var k := |list| - 1;
      Around(list, k);
      var x := tail.prev;
      cnt := 1;
      while x != null && Compare(x.sig, gvt) < 0
        invariant 0 <= k < |list| && cnt == |list| - k && x == At(list, k - 1) && Compare(list[k].sig, gvt) < 0
        invariant Kept(list, gvt) == Kept(list[..k], gvt)
        decreases k
      {
        assert list[..k][..k - 1] == list[..k - 1];
        k := k - 1;
        Around(list, k);
        x := x.prev;
        cnt := cnt + 1;
      }
      Around(list, k);
      n := x;
      h := x.next;
    }

    /** The queue loses its events from kept on. */
    method CutOff(n: Event, cnt: nat, ghost kept: nat)
      requires Valid() && 0 < kept < |list| && n == list[kept - 1] && cnt == |list| - kept
      modifies `tail, `size, `list, n`next
      ensures Valid() && list == old(list)[..kept]
      ensures Distinct(old(list)[kept..]) && Inner(old(list)[kept..]) && Nodes(old(list)[kept..]) !! Nodes(list)
    {
      tail := n;
      n.next := null;
      size := size - cnt;
      ghost var l := list;
      list := list[..kept];
      forall i | 0 <= i < |list| ensures NodeLinked(list, i) {
        assert old(NodeLinked(l, i));
      }
      forall i | 0 <= i < |l[kept..]| ensures InnerAt(l[kept..], i) {
        assert old(NodeLinked(l, kept + i));
      }
    }

    /** The queue and the free list share no events, and hold no buffer that still counts as sent. */
    ghost predicate Apart(free: Queue)
      reads this, free, Nodes(list), Nodes(free.list)
    {
      Both(free) && this != free && Nodes(list) !! Nodes(free.list) && NoneSent(list) && NoneSent(free.list)
    }

    ghost predicate Both(free: Queue)
      reads this, free, Nodes(list), Nodes(free.list)
    {
      Valid() && free.Valid()
    }

    /** tw_eventq_fossil_collect: the events older than GVT leave the queue, for the front of the free list, and are
        committed from the oldest to the newest. The buffers of what they sent are freed too. */
    method FossilCollect(free: Queue, gvt: Sig) returns (committed: seq<Event>, ghost freed: seq<Event>)
      requires Apart(free) && NewestFirst(list)
      modifies this, free, Nodes(list), Nodes(free.list)`prev
      modifies AllSent(list)`prev, AllSent(list)`next, AllSent(list)`owner
      ensures Both(free) && Moved(old(free.list), list, free.list, committed, freed, old(list), old(Kept(list, gvt)))
      ensures Nodes(freed) == old(AllSent(list[Kept(list, gvt)..]))
    {
      if tail == null || Compare(tail.sig, gvt) >= 0 {
        committed, freed := [], [];
        NothingMoved(list, free.list);
        return;
      }
      committed, freed := CollectOld(free, gvt);
    }

    method CollectOld(free: Queue, gvt: Sig) returns (committed: seq<Event>, ghost freed: seq<Event>)
      requires Apart(free) && NewestFirst(list) && tail != null && Compare(tail.sig, gvt) < 0
      modifies this, free, Nodes(list), Nodes(free.list)`prev
      modifies AllSent(list)`prev, AllSent(list)`next, AllSent(list)`owner
      ensures Both(free) && Moved(old(free.list), list, free.list, committed, freed, old(list), old(Kept(list, gvt)))
      ensures Nodes(freed) == old(AllSent(list[Kept(list, gvt)..]))
    {
      if Compare(head.sig, gvt) < 0 {
        KeptIsCut(list, gvt);
        assert Kept(list, gvt) == 0 && list[0..] == list;
        hide *;
        committed, freed := CollectAll(free);
      } else {
        hide Chain, Kept, NewestFirst, Moved, AllSent;
        committed, freed := CollectSome(free, gvt);
      }
    }

    method CollectSome(free: Queue, gvt: Sig) returns (committed: seq<Event>, ghost freed: seq<Event>)
      requires Valid() && Apart(free) && head != null && tail != null
      requires Compare(head.sig, gvt) >= 0 && Compare(tail.sig, gvt) < 0
      modifies this, free, Nodes(list), Nodes(free.list)`prev
      modifies AllSent(list)`prev, AllSent(list)`next, AllSent(list)`owner
      ensures Both(free) && Moved(old(free.list), list, free.list, committed, freed, old(list), old(Kept(list, gvt)))
      ensures Nodes(freed) == old(AllSent(list[Kept(list, gvt)..]))
    {
      hide *;
      var n, h, cnt := FindPart(free, gvt);
      committed, freed := CollectFrom(free, n, h, cnt, Kept(list, gvt));
    }

    /** The search changes nothing. */
    method FindPart(free: Queue, gvt: Sig) returns (n: Event, h: Event, cnt: nat)
      requires Apart(free) && Valid() && head != null && tail != null
      requires Compare(head.sig, gvt) >= 0 && Compare(tail.sig, gvt) < 0
      ensures var k := Kept(list, gvt); 0 < k < |list| && cnt == |list| - k && n == list[k - 1] && h == list[k]
      ensures Apart(free) && Kept(list, gvt) == old(Kept(list, gvt)) && AllSent(list) == old(AllSent(list))
      ensures AllSent(list[Kept(list, gvt)..]) == old(AllSent(list[Kept(list, gvt)..]))
    {
      hide Chain, Distinct, NodeLinked, NoneSent, Compare, Kept;
      n, h, cnt := FindCut(gvt);
    }

    method CollectAll(free: Queue) returns (committed: seq<Event>, ghost freed: seq<Event>)
      requires Apart(free) && list != []
      modifies this, free, Nodes(list), Nodes(free.list)`prev
      modifies AllSent(list)`prev, AllSent(list)`next, AllSent(list)`owner
      ensures Both(free) && Moved(old(free.list), list, free.list, committed, freed, old(list), 0)
      ensures Nodes(freed) == old(AllSent(list))
    {
      ChainIsInner(list);
      WholeList(list);
      hide Inner, Distinct, Chain, NoneSent, AllSent, Flat, Caused, Reversed, NodeLinked;
      committed, freed := free.PushList(head, tail, size, list);
      Clear();
    }

    method Clear()
      modifies this
      ensures Valid() && list == []
    {
      head, tail, size, list := null, null, 0, [];
    }

    /** What is cut off is linked, apart from both queues, and caused the same. */
    ghost predicate Loose(free: Queue, part: seq<Event>, sent: set<Event>)
      reads this, free, Nodes(list), Nodes(free.list), Nodes(part), AllSent(part), Flat(Caused(part))
    {
      && Apart(free) && Distinct(part) && Inner(part) && Nodes(part) !! Nodes(free.list) && NoneSent(part)
      && Nodes(list) !! Nodes(part) && Nodes(list) !! AllSent(part) && AllSent(part) == sent
    }

    method CutKeeps(n: Event, cnt: nat, ghost kept: nat)
      requires Valid() && 0 < kept < |list| && cnt == |list| - kept && n == list[kept - 1]
      modifies `tail, `size, `list, n`next
      ensures Valid() && list == old(list)[..kept] && AllSent(old(list)[kept..]) == old(AllSent(list[kept..]))
      ensures Distinct(old(list)[kept..]) && Inner(old(list)[kept..]) && Nodes(old(list)[kept..]) !! Nodes(list)
    {
      ghost var part := list[kept..];
      ghost var kids, sent := Caused(part), AllSent(part);
      assert forall i | 0 <= i < |part| :: kids[i] == part[i].caused;
      assert forall c <- Flat(kids) :: allocated(c);
      hide Flat, Chain, Distinct, Inner;
      CutOff(n, cnt, kept);
      assert Caused(part) == kids;
      assert AllSent(part) == sent;
    }

    method CutLoose(free: Queue, n: Event, cnt: nat, ghost kept: nat)
      requires Apart(free) && 0 < kept < |list| && cnt == |list| - kept && n == list[kept - 1]
      modifies `tail, `size, `list, n`next
      ensures list == old(list)[..kept] && Loose(free, old(list)[kept..], old(AllSent(list[kept..])))
    {
      PartOf(list, kept);
      hide Flat, Caused, Distinct, Inner, NodeLinked, NoneSent;
      assert Nodes(list) !! AllSent(list[kept..]) by { NotSent(list); }
      ghost var l := list;
      CutKeeps(n, cnt, kept);
      assert free.Valid();
      NotSentParts(l, kept);
    }

    method CollectFrom(free: Queue, n: Event, h: Event, cnt: nat, ghost kept: nat)
      returns (committed: seq<Event>, ghost freed: seq<Event>)
      requires Apart(free) && 0 < kept < |list| && cnt == |list| - kept && n == list[kept - 1] && h == list[kept]
      modifies this, free, Nodes(list), Nodes(free.list)`prev
      modifies AllSent(list)`prev, AllSent(list)`next, AllSent(list)`owner
      ensures Both(free) && Moved(old(free.list), list, free.list, committed, freed, old(list), kept)
      ensures Nodes(freed) == old(AllSent(list[kept..]))
    {
      var t := tail;
      ghost var part := list[kept..];
      assert t == part[|part| - 1] && h == part[0];
      PartOf(list, kept);
      hide Inner, Distinct, Chain, Flat, Caused, Reversed, AllSent, NodeLinked, NoneSent, Loose, Apart;
      CutLoose(free, n, cnt, kept);
      committed, freed := PushPart(free, h, t, cnt, part, old(AllSent(part)));
    }

    method PushPart(free: Queue, h: Event, t: Event, cnt: nat, ghost part: seq<Event>, ghost sent: set<Event>)
      returns (committed: seq<Event>, ghost freed: seq<Event>)
      requires Loose(free, part, sent) && part != [] && h == part[0] && t == part[|part| - 1] && cnt == |part|
      modifies free, Nodes(free.list)`prev, Nodes(part), sent`prev, sent`next, sent`owner
      ensures Both(free) && free.list == freed + part + old(free.list) && list == old(list)
      ensures Nodes(freed) == sent && committed == Reversed(part)
    {
      hide Inner, Distinct, Chain, Flat, Caused, Reversed, AllSent, NodeLinked, NoneSent;
      committed, freed := free.PushList(h, t, cnt, part);
    }
  }

  /** The list l is cut at kept; what follows is committed in reverse and put on the free list behind freed. */
  ghost predicate Moved(fl: seq<Event>, l': seq<Event>, fl': seq<Event>, committed: seq<Event>, freed: seq<Event>,
      l: seq<Event>, kept: nat)
  {
    kept <= |l| && l' == l[..kept] && committed == Reversed(l[kept..]) && fl' == freed + l[kept..] + fl
  }

  lemma WholeList(l: seq<Event>)
    ensures l[0..] == l && l[..0] == []
  {
  }

  lemma NothingMoved(l: seq<Event>, fl: seq<Event>)
    ensures Moved(fl, l, fl, [], [], l, |l|) && Nodes([]) == AllSent(l[|l|..])
  {
    assert [] + l[|l|..] + fl == fl;
  }

  /** Where the search from the tail stops. */
  ghost function Kept(list: seq<Event>, gvt: Sig): (k: nat)
    reads Nodes(list)
    ensures k <= |list|
  {
    if list == [] || Compare(list[|list| - 1].sig, gvt) >= 0 then |list| else Kept(list[..|list| - 1], gvt)
  }

  lemma {:induction false} KeptStops(list: seq<Event>, gvt: Sig)
    ensures var k := Kept(list, gvt);
      && (k > 0 ==> Compare(list[k - 1].sig, gvt) >= 0) && (k < |list| ==> Compare(list[k].sig, gvt) < 0)
  {
    if list != [] && Compare(list[|list| - 1].sig, gvt) < 0 {
      KeptStops(list[..|list| - 1], gvt);
    }
  }

  /** On a sorted list it leaves exactly the events older than GVT behind it. */
  lemma {:induction false} KeptIsCut(list: seq<Event>, gvt: Sig)
    requires NewestFirst(list)
    ensures CutAt(list, gvt, Kept(list, gvt))
  {
    KeptStops(list, gvt);
    CutIsThere(list, gvt, Kept(list, gvt));
  }

  lemma ChainIsInner(list: seq<Event>)
    requires Chain(list)
    ensures Inner(list) && Distinct(list)
  {
    forall i | 0 <= i < |list| ensures InnerAt(list, i) {
      assert NodeLinked(list, i);
    }
  }

  lemma NotSent(list: seq<Event>)
    requires NoneSent(list)
    ensures forall part: seq<Event> :: Nodes(list) !! AllSent(part)
  {
  }

  lemma NotSentParts(list: seq<Event>, k: int)
    requires NoneSent(list) && 0 <= k <= |list|
    ensures NoneSent(list[k..]) && NoneSent(list[..k]) && Nodes(list[..k]) <= Nodes(list)
  {
    assert list[..k] + list[k..] == list;
    NodesPlus(list[..k], list[k..]);
  }

  lemma PartOf(list: seq<Event>, k: int)
    requires 0 <= k <= |list|
    ensures Nodes(list[k..]) <= Nodes(list) && AllSent(list[k..]) <= AllSent(list)
    ensures NoneSent(list) ==> NoneSent(list[k..]) && NoneSent(list[..k])
  {
    assert list[..k] + list[k..] == list;
    NodesPlus(list[..k], list[k..]);
    forall c <- Flat(Caused(list[k..])) ensures c in Flat(Caused(list)) {
      var i, j :| 0 <= i < |list[k..]| && 0 <= j < |list[k..][i].caused| && c == list[k..][i].caused[j];
      assert Caused(list)[k + i][j] == c;
    }
  }

  /** Of a sorted list, exactly the events from k on are older than GVT. */
  ghost predicate CutAt(list: seq<Event>, gvt: Sig, k: int)
    reads Nodes(list)
  {
    forall i | 0 <= i < |list| :: k <= i <==> Compare(list[i].sig, gvt) < 0
  }

  lemma CutIsThere(list: seq<Event>, gvt: Sig, k: int)
    requires NewestFirst(list) && 0 <= k <= |list|
    requires k > 0 ==> Compare(list[k - 1].sig, gvt) >= 0
    requires k < |list| ==> Compare(list[k].sig, gvt) < 0
    ensures CutAt(list, gvt, k)
  {
    forall i | 0 <= i < |list| ensures k <= i <==> Compare(list[i].sig, gvt) < 0 {
      if i < k {
        CompareIsTotalOrder(gvt, list[k - 1].sig, list[i].sig);
        CompareIsTotalOrder(list[i].sig, gvt, gvt);
      } else {
        CompareIsTotalOrder(list[i].sig, list[k].sig, gvt);
        CompareIsTotalOrder(gvt, list[i].sig, list[k].sig);
      }
    }
  }

  ghost predicate NewestFirst(list: seq<Event>)
    reads Nodes(list)
  {
    forall i, j | 0 <= i < j < |list| :: Le(list[j].sig, list[i].sig)
  }

  ghost predicate InnerAt(part: seq<Event>, i: int)
    requires 0 <= i < |part|
    reads part[i]
  {
    (i > 0 ==> part[i].prev == part[i - 1]) && (i + 1 < |part| ==> part[i].next == part[i + 1])
  }

  /** The events are linked to each other in this order. */
  ghost predicate Inner(part: seq<Event>)
    reads Nodes(part)
  {
    forall i | 0 <= i < |part| :: InnerAt(part, i)
  }

  lemma DistinctPlus(a: seq<Event>, b: seq<Event>)
    requires Distinct(a) && Distinct(b) && Nodes(a) !! Nodes(b)
    ensures Distinct(a + b)
  {
    forall i, j | 0 <= i < |a + b| && 0 <= j < |a + b| && (a + b)[i] == (a + b)[j] ensures i == j {
      assert i < |a| <==> (a + b)[i] in Nodes(a);
    }
  }

  /** What the events caused. */
  ghost function Caused(part: seq<Event>): (r: seq<seq<Event>>)
    reads Nodes(part)
    ensures |r| == |part| && forall i | 0 <= i < |part| :: r[i] == part[i].caused
  {
    if part == [] then [] else [part[0].caused] + Caused(part[1..])
  }

  ghost function Flat(kids: seq<seq<Event>>): set<Event> {
    set i, j | 0 <= i < |kids| && 0 <= j < |kids[i]| :: kids[i][j]
  }

  /** The fully sent buffers among what the events caused. */
  ghost function AllSent(part: seq<Event>): set<Event>
    reads Nodes(part), Flat(Caused(part))
  {
    set c | c in Flat(Caused(part)) && c.owner == Sevent
  }

  /** Of the fully sent buffers, exactly those caused by the events from lo on have been freed. */
  ghost predicate Collected(kids: seq<seq<Event>>, lo: int, sent: set<Event>, freed: seq<Event>)
    requires 0 <= lo <= |kids|
    reads sent, Flat(kids)
  {
    && sent <= Flat(kids) && Nodes(freed) == Flat(kids[lo..]) * sent
    && forall c <- Flat(kids) :: c.owner == Sevent <==> c in sent && c !in Nodes(freed)
  }

  lemma InPart(freed: seq<Event>, part: seq<Event>, rest: seq<Event>, i: int)
    requires 0 <= i < |part| && Distinct(freed + part + rest)
    ensures forall k | 0 <= k < |part| && part[k] == part[i] :: k == i
    ensures part[i] in Nodes(part) && Nodes(freed + part + rest) == Nodes(freed) + Nodes(part) + Nodes(rest)
    ensures (freed + part + rest)[|freed| + i] == part[i]
  {
    NodesPlus(freed, part);
    NodesPlus(freed + part, rest);
    forall k | 0 <= k < |part| && part[k] == part[i] ensures k == i {
      assert (freed + part + rest)[|freed| + k] == (freed + part + rest)[|freed| + i];
    }
  }

  lemma PrevInPart(freed: seq<Event>, part: seq<Event>, rest: seq<Event>, i: int)
    requires 0 <= i < |part|
    ensures i > 0 ==> At(freed + part + rest, |freed| + i - 1) == part[i - 1]
  {
  }

  lemma KidsInFlat(kids: seq<seq<Event>>, i: int)
    requires 0 <= i < |kids|
    ensures Nodes(kids[i]) <= Flat(kids) && Flat(kids[i..]) == Nodes(kids[i]) + Flat(kids[i + 1..])
  {
    assert kids[i..] == [kids[i]] + kids[i + 1..];
  }

  /** What the event at i caused that has been sent and not been freed yet completes what is collected. */
  lemma OfThisEvent(kids: seq<seq<Event>>, sent: set<Event>, freed: seq<Event>, i: int, here: set<Event>)
    requires 0 <= i < |kids| && Collected(kids, i + 1, sent, freed) && here == Sent(kids[i])
    ensures here <= sent && here + Nodes(freed) == Flat(kids[i..]) * sent
  {
    KidsInFlat(kids, i);
    hide Flat;
    forall c <- Nodes(kids[i]) * sent ensures c in here || c in Nodes(freed) {
      assert c.owner == Sevent ==> c in here;
    }
  }

  lemma CollectedMore(kids: seq<seq<Event>>, i: int, sent: set<Event>, freed: seq<Event>, more: seq<Event>)
    requires 0 <= i < |kids| && sent <= Flat(kids) && Nodes(more) + Nodes(freed) == Flat(kids[i..]) * sent
    requires forall c <- Flat(kids) :: c.owner == Sevent <==> c in sent && c !in Nodes(freed) && c !in Nodes(more)
    ensures Collected(kids, i, sent, more + freed)
  {
    NodesPlus(more, freed);
    hide Flat;
  }

  lemma AllMore(more: seq<Event>, freed: seq<Event>, part: seq<Event>, rest: seq<Event>)
    ensures more + (freed + part + rest) == more + freed + part + rest
    ensures Nodes(more + freed) == Nodes(more) + Nodes(freed)
  {
    NodesPlus(more, freed);
  }

  lemma ReversedNext(part: seq<Event>, i: int)
    requires 0 <= i < |part|
    ensures Reversed(part[i..]) == Reversed(part[i + 1..]) + [part[i]]
  {
    assert part[i..][1..] == part[i + 1..];
  }

  function Reversed(s: seq<Event>): seq<Event> {
    if s == [] then [] else Reversed(s[1..]) + [s[0]]
  }

  /** Those of the first n kids that are in the set. */
  ghost function Among(kids: seq<Event>, sent: set<Event>, n: int): set<Event>
    requires n <= |kids|
  {
    set j | 0 <= j < n && kids[j] in sent :: kids[j]
  }

  lemma AmongNext(kids: seq<Event>, sent: set<Event>, n: int)
    requires 0 <= n < |kids|
    ensures Among(kids, sent, n + 1) == Among(kids, sent, n) + if kids[n] in sent then {kids[n]} else {}
  {
  }

  lemma AllAmong(kids: seq<Event>, sent: set<Event>)
    requires sent <= Nodes(kids)
    ensures Among(kids, sent, |kids|) == sent
  {
  }

  lemma NodesPlus(a: seq<Event>, b: seq<Event>)
    ensures Nodes(a + b) == Nodes(a) + Nodes(b)
    ensures forall e :: Nodes([e]) == {e}
  {
    assert forall i | 0 <= i < |a| :: a[i] == (a + b)[i];
    assert forall i | 0 <= i < |b| :: b[i] == (a + b)[|a| + i];
    forall e ensures Nodes([e]) == {e} {
      assert [e][0] == e;
    }
  }

  /** The buffers whose events have been sent. */
  ghost function Sent(kids: seq<Event>): set<Event>
    reads Nodes(kids)
  {
    set i | 0 <= i < |kids| && kids[i].owner == Sevent :: kids[i]
  }

  ghost predicate NoneSent(list: seq<Event>)
    reads Nodes(list)
  {
    forall c <- Nodes(list) :: c.owner != Sevent
  }
}
