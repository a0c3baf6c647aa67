/** The priority queue of a PE: its operations keep the events sorted, the least one cached and the count exact. */
module SplayPq {
  import opened EventSignature
  import opened SplayShape
  import opened SplayQueue

  /** tw_pq_compare_less_than_rand: by signature, then by event number, then by sending PE. */
  predicate Less(a: Key, b: Key) {
    var c := Compare(a.sig, b.sig);
    c < 0 || (c == 0 && (a.eventId < b.eventId || (a.eventId == b.eventId && a.sendPe < b.sendPe)))
  }

  lemma {:induction false} LessIsOrder(a: Key, b: Key, c: Key)
    ensures !(Less(a, b) && Less(b, a))
    ensures a != b <==> Less(a, b) || Less(b, a)
    ensures Less(a, b) && Less(b, c) ==> Less(a, c)
  {
    CompareIsTotalOrder(a.sig, b.sig, c.sig);
    CompareIsTotalOrder(b.sig, c.sig, a.sig);
    CompareIsTotalOrder(a.sig, c.sig, b.sig);
  }

  /** a leaves the queue before b: it has the earlier signature, or the same one and the smaller event number, or these
      are the same too and it has the smaller sending PE. */
  ghost predicate GoesFirst(a: Key, b: Key) {
    || ComesBefore(a.sig, b.sig)
    || (a.sig == b.sig && a.eventId < b.eventId)
    || (a.sig == b.sig && a.eventId == b.eventId && a.sendPe < b.sendPe)
  }

  lemma LessGoesFirst(a: Key, b: Key)
    ensures Less(a, b) <==> GoesFirst(a, b)
  {
    CompareIsBefore(a.sig, b.sig);
    CompareIsTotalOrder(a.sig, b.sig, a.sig);
  }

  /** The comparison as it is computed; two different events never compare equal. */
  method CompareLess(n: Node, e: Node) returns (b: bool)
    ensures b == Less(n.key, e.key) && (b <==> GoesFirst(n.key, e.key))
  {
    LessGoesFirst(n.key, e.key);
    hide GoesFirst;
    var c := CompareSig(n.key.sig, e.key.sig);
    if c != 0 {
      return c < 0;
    }
    if n.key.eventId != e.key.eventId {
      return n.key.eventId < e.key.eventId;
    }
    b := n.key.sendPe < e.key.sendPe;
  }

  ghost predicate Sorted(order: seq<Node>) {
    forall i, j | 0 <= i < j < |order| :: Less(order[i].key, order[j].key)
  }

  /** Everything before position lo is less than e and everything from hi on is greater. */
  ghost predicate Between(order: seq<Node>, lo: int, hi: int, e: Key) {
    && (forall j | 0 <= j < lo && j < |order| :: Less(order[j].key, e))
    && (forall j | 0 <= hi <= j < |order| :: Less(e, order[j].key))
  }

  lemma InsertSorted(order: seq<Node>, k: int, e: Node)
    requires Sorted(order) && 0 <= k <= |order| && Between(order, k, k, e.key)
    ensures Sorted(InsertAt(order, k, e))
  {
  }

  lemma RemoveSorted(order: seq<Node>, k: int)
    requires Sorted(order) && 0 <= k < |order|
    ensures Sorted(RemoveAt(order, k)) && (k == 0 ==> forall x <- RemoveAt(order, 0) :: Less(order[0].key, x.key))
  {
  }

  lemma LeastGoesFirst(order: seq<Node>)
    requires Sorted(order) && order != []
    ensures forall x <- RemoveAt(order, 0) :: GoesFirst(order[0].key, x.key) && Le(order[0].key.sig, x.key.sig)
  {
    RemoveSorted(order, 0);
    forall x <- RemoveAt(order, 0) ensures GoesFirst(order[0].key, x.key) && Le(order[0].key.sig, x.key.sig) {
      LessGoesFirst(order[0].key, x.key);
    }
  }

  /** Comparing e with the node at position i tells on which side of it e belongs. */
  lemma Narrow(order: seq<Node>, lo: int, hi: int, i: int, e: Key)
    requires Sorted(order) && Between(order, lo, hi, e) && 0 <= lo <= i < hi <= |order| && order[i].key != e
    ensures if Less(order[i].key, e) then Between(order, i + 1, hi, e) else Between(order, lo, i, e)
  {
    LessIsOrder(order[i].key, e, e);
    if Less(order[i].key, e) {
      forall j | 0 <= j < i + 1 ensures Less(order[j].key, e) {
        LessIsOrder(order[j].key, order[i].key, e);
      }
    } else {
      forall j | i <= j < |order| ensures Less(e, order[j].key) {
        LessIsOrder(e, order[i].key, order[j].key);
      }
    }
  }

  class Queue {
    var root: Node?
    var least: Node?
    var nitems: nat
    var maxSize: nat
    ghost var order: seq<Node>   // the queued events from least to greatest
    ghost var shape: Shape
    ghost var top: int

    ghost predicate Valid()
      reads this, order
    {
      && Rep(order, shape, 0, |order|) && Sorted(order)
      && nitems == |order| <= maxSize
      && least == Ref(order, 0) && root == Ref(order, top)
      && TopOk(shape, top)
    }

    /** tw_pq_create */
    constructor ()
      ensures Valid() && order == [] && maxSize == 0
    {
      root, least := null, null;
      nitems, maxSize := 0, 0;
      order, shape, top := [], [], 0;
    }

    /** The way down to an empty place for e, to the right or to the left of a node. */
    method FindPlace(e: Node) returns (n: Node, right: bool, ghost i: int)
      requires Valid() && root != null && forall x <- order :: x.key != e.key
      ensures 0 <= i < |order| && n == order[i]
      ensures if right then shape[i].right == -1 && Between(order, i + 1, i + 1, e.key)
              else shape[i].left == -1 && Between(order, i, i, e.key)
    {
      n := root;
      i := top;
      TreeHas(shape, 0, |order|, i);
      while true
        invariant 0 <= i < |order| && n == order[i] && Between(order, shape[i].lo, shape[i].hi, e.key)
        decreases Size(shape, i)
      {
        Around(order, shape, 0, |order|, i);
        Smaller(shape, 0, |order|, i);
        Narrow(order, shape[i].lo, shape[i].hi, i, e.key);
        right := CompareLess(n, e);
        if right {
          if n.right == null {
            return;
          }
          n := n.right;
          i := shape[i].right;
        } else {
          if n.left == null {
            return;
          }
          n := n.left;
          i := shape[i].left;
        }
      }
    }

    method AttachRight(e: Node, n: Node, ghost i: int)
      requires Valid() && 0 <= i < |order| && n == order[i] && e !in order && e.left == null && e.right == null
      requires shape[i].right == -1 && Between(order, i + 1, i + 1, e.key)
      modifies this, n, e
      ensures order == InsertAt(old(order), i + 1, e)
      ensures Rep(order, shape, 0, |order|) && Sorted(order) && least == Ref(order, 0)
      ensures nitems == old(nitems) && maxSize == old(maxSize)
    {
      assert |order| == |shape|;
      hide Rep, Sorted, Between;
      InsertSorted(order, i + 1, e);
      LinkRight(n, e, order, shape, i);
      assert i + 1 > 0 ==> InsertAt(order, i + 1, e)[After(0, i + 1)] == order[0];
      hide InsertAt;
      order, shape := InsertAt(order, i + 1, e), AddRight(shape, i);
    }

    method AttachLeft(e: Node, n: Node, ghost i: int)
      requires Valid() && 0 <= i < |order| && n == order[i] && e !in order && e.left == null && e.right == null
      requires shape[i].left == -1 && Between(order, i, i, e.key)
      modifies this, n, e
      ensures order == InsertAt(old(order), i, e)
      ensures Rep(order, shape, 0, |order|) && Sorted(order) && least == Ref(order, 0)
      ensures nitems == old(nitems) && maxSize == old(maxSize)
    {
      assert |order| == |shape|;
      hide Rep, Sorted, Between;
      if least == n {
        least := e;
      }
      InsertSorted(order, i, e);
      LinkLeft(n, e, order, shape, i);
      assert i > 0 ==> InsertAt(order, i, e)[After(0, i)] == order[0];
      OnlyFirst(old(order), i);
      hide InsertAt;
      order, shape := InsertAt(order, i, e), AddLeft(shape, i);
    }

    /** Find the place for e, hang it there, and splay it to the top. */
    method EnqueueBelow(e: Node) returns (ghost k: int)
      requires Valid() && root != null && e !in order && forall x <- order :: x.key != e.key
      requires e.left == null && e.right == null
      modifies this, order, e
      ensures 0 <= k <= |old(order)| && order == InsertAt(old(order), k, e)
      ensures Rep(order, shape, 0, |order|) && Sorted(order) && least == Ref(order, 0)
      ensures root == e == Ref(order, top) && TopOk(shape, top)
      ensures nitems == old(nitems) && maxSize == old(maxSize)
    {
      hide Rep, Sorted, InsertAt, Between;
      var n, right;
      ghost var i;
      n, right, i := FindPlace(e);
      k := if right then i + 1 else i;
      if right {
        AttachRight(e, n, i);
      } else {
        AttachLeft(e, n, i);
      }
      InsertedIs(old(order), k, e);
      assert forall x <- Nodes(order, 0, |order|) :: x in order;
      shape := Splay(e, order, shape, 0, |order|, k);
      RepSize(order, shape, 0, |order|);
      root, top := e, k;
    }

    /** tw_pq_enqueue */
    method Enqueue(e: Node)
      requires Valid() && e !in order && forall x <- order :: x.key != e.key
      modifies this, order, e
      ensures Valid() && Inserted(old(order), order, e)
      ensures nitems == old(nitems) + 1 && root == e
      ensures maxSize == if nitems > old(maxSize) then nitems else old(maxSize)
    {
      hide Rep, Sorted, InsertAt;
      RepSize(order, shape, 0, |order|);
      e.right := null;
      e.left := null;
      if root != null {
        ghost var k := EnqueueBelow(e);
        InsertedIs(old(order), k, e);
      } else {
        root, least := e, e;
        e.up := null;
        Singleton(e);
        order, shape, top := [e], [Rec(-1, -1, -1, 0, 1)], 0;
        hide Inserted;
      }
      nitems := nitems + 1;
      if nitems > maxSize {
        maxSize := nitems;
      }
    }

    /** tw_pq_dequeue: the earliest event, or none from an empty queue. */
    method Dequeue() returns (r: Node?)
      requires Valid()
      modifies this, order
      ensures Valid() && maxSize == old(maxSize)
      ensures if old(order) == [] then r == null && order == [] && nitems == 0
              else r == old(order[0]) && order == RemoveAt(old(order), 0) && nitems == old(nitems) - 1
      ensures r != null ==> r.left == null && r.right == null && r.up == null
      ensures r != null ==> forall x <- order :: GoesFirst(r.key, x.key) && Le(r.key.sig, x.key.sig)
    {
      if nitems == 0 {
        return null;
      }
      r := least;
      RemoveSorted(order, 0);
      LeastGoesFirst(order);
      RemoveFrees(order, shape, 0);
      hide Rep, Sorted, RemoveAt, GoesFirst, Le;
      ghost var o, s, newTop;
      var l, q;
      l, q, o, s, newTop := TakeOut(r, root, order, shape, top);
      nitems, least, root := nitems - 1, l, q;
      r.left, r.right, r.up := null, null, null;
      order, shape, top := o, s, newTop;
    }

    /** tw_pq_delete_any: take out the given event, wherever it is. */
    method DeleteAny(r: Node)
      requires Valid() && r in order
      modifies this, order
      ensures Valid() && maxSize == old(maxSize) && nitems == old(nitems) - 1 && TakenOut(old(order), order, r)
      ensures r.left == null && r.right == null && r.up == null
    {
      if r == least {
        var x := Dequeue();
        return;
      }
      ghost var k :| 0 <= k < |order| && order[k] == r;
      RemoveSorted(order, k);
      RemoveFrees(order, shape, k);
      RemovedRef(order, k);
      hide Rep, Sorted, RemoveAt, TopOk;
      var q;
      ghost var o, s, newTop;
      q, o, s, newTop := TakeAny(r, root, order, shape, top, k);
      nitems, root := nitems - 1, q;
      order, shape, top := o, s, newTop;
      r.left, r.right, r.up := null, null, null;
    }
  }

  /** now is order with e taken out. */
  ghost predicate TakenOut(order: seq<Node>, now: seq<Node>, e: Node) {
    exists k | 0 <= k < |order| :: order[k] == e && now == RemoveAt(order, k)
  }

  /** Unlink r. What took its place, if anything did, and, if that is the top now, where it is. */
  method FillGap(r: Node, ghost order: seq<Node>, ghost t: Shape, ghost top: int, ghost k: int)
    returns (n: Node?, ghost s: Shape, ghost m: int)
    requires Rep(order, t, 0, |order|) && TopOk(t, top) && 0 <= k < |order| && r == order[k]
    modifies Nodes(order, 0, |order|)
    ensures Rep(RemoveAt(order, k), s, 0, |order| - 1) && r.up == old(r.up)
    ensures r.up == null ==> TopOk(s, m) && n == Ref(RemoveAt(order, k), m)
    ensures r.up != null && n == null ==> TopOk(s, Before(top, k))
  {
    Around(order, t, 0, |order|, k);
    RepParts(order, t, 0, |order|);
    hide Rep, RemoveAt, Remove, TopOk, NodeOk, Linked, Tree, Distinct;
    if r.left != null && r.right != null {
      ghost var j;
      n, j := BypassTwo(r, order, t, k);
      s, m := Remove(j, k), k - 1;
      TwoFilled(order, t, j, k);
    } else {
      n := if r.left != null then r.left else r.right;
      Bypass(r, n, order, t, k);
      s, m := Remove(t, k), Before(OnlyChild(t[k]), k);
      OneFilled(order, t, top, k);
    }
  }

  /** Unlink r, and splay its parent if its place was filled. The new root, and what is left, its shape and top. */
  method TakeAny(r: Node, root: Node?, ghost order: seq<Node>, ghost t: Shape, ghost top: int, ghost k: int)
    returns (q: Node?, ghost o: seq<Node>, ghost s: Shape, ghost newTop: int)
    requires Rep(order, t, 0, |order|) && TopOk(t, top) && 0 <= k < |order| && r == order[k] && root == Ref(order, top)
    modifies Nodes(order, 0, |order|)
    ensures o == RemoveAt(order, k) && Rep(o, s, 0, |o|) && TopOk(s, newTop) && q == Ref(o, newTop)
  {
    o := RemoveAt(order, k);
    RemoveFrees(order, t, k);
    AboveIn(order, t, top, k);
    Around(order, t, 0, |order|, k);
    hide Rep, RemoveAt, NodeOk;
    var n;
    ghost var m;
    n, s, m := FillGap(r, order, t, top, k);
    var p := r.up;
    if p != null {
      q, newTop := root, Before(top, k);
      if n != null {
        newTop := Before(t[k].up, k);
        assert forall x <- Nodes(o, 0, |o|) :: x in Nodes(order, 0, |order|);
        s := Splay(p, o, s, 0, |o|, newTop);
        RepSize(o, s, 0, |o|);
        q := p;
      }
    } else {
      q, newTop := n, m;
    }
  }

  /** Parent and top of the tree are still there once k is gone. */
  lemma AboveIn(order: seq<Node>, t: Shape, top: int, k: int)
    requires Rep(order, t, 0, |order|) && TopOk(t, top) && 0 <= k < |order|
    ensures |t| == |order|
    ensures t[k].up != -1 ==>
      var o, u := RemoveAt(order, k), Before(t[k].up, k);
      && 0 <= u < |o| && order[k].up == o[u] && Ref(o, Before(top, k)) == Ref(order, top)
  {
    Around(order, t, 0, |order|, k);
    LinksInRange(t, 0, |t|, k);
    RemovedRef(order, k);
    hide RemoveAt, Tree;
  }

  /** Where the child that filled the gap, or the top, is. */
  lemma OneFilled(order: seq<Node>, t: Shape, top: int, k: int)
    requires |order| == |t| && Tree(t, 0, |t|) && TopOk(t, top) && 0 <= k < |order|
    requires (t[k].left == -1 || t[k].right == -1)
    ensures var m := Before(OnlyChild(t[k]), k);
      t[k].up == -1 ==> TopOk(Remove(t, k), m) && Ref(RemoveAt(order, k), m) == Ref(order, OnlyChild(t[k]))
    ensures t[k].up != -1 ==> TopOk(Remove(t, k), Before(top, k))
  {
    var c := OnlyChild(t[k]);
    TreeHas(t, 0, |t|, k);
    Smaller(t, 0, |t|, k);
    RemovedRef(order, k);
    hide Tree, RemoveAt;
    if c != -1 {
      assert Remove(t, k)[Before(c, k)] == Closed(t[c], k, c, t[k].up);
    }
    if t[k].up != -1 {
      assert Remove(t, k)[Before(top, k)] == Closed(t[top], k, c, t[k].up);
    }
  }

  lemma TwoFilled(order: seq<Node>, t: Shape, j: Shape, k: int)
    requires |order| == |t| == |j| && 0 < k < |t| && j[k - 1].up == t[k].up && j[k].left == -1
    ensures t[k].up == -1 ==> TopOk(Remove(j, k), k - 1)
    ensures Ref(RemoveAt(order, k), k - 1) == order[k - 1]
  {
    assert Remove(j, k)[Before(k - 1, k)] == Closed(j[k - 1], k, OnlyChild(j[k]), j[k].up);
  }

  lemma RemoveFrees(order: seq<Node>, t: Shape, k: int)
    requires Rep(order, t, 0, |order|) && 0 <= k < |order|
    ensures |t| == |order| && order[k] !in RemoveAt(order, k) && forall x <- RemoveAt(order, k) :: x in order
  {
    RemoveDistinct(order, k);
  }

  ghost predicate TopOk(t: Shape, top: int) {
    t != [] ==> 0 <= top < |t| && t[top].up == -1
  }

  /** What is left, o with shape s, once the least node is gone: where its right child is found and starts its
      subtree, or that its parent is now the first, and where the top is. */
  ghost predicate LeastGone(order: seq<Node>, t: Shape, top: int, right: Node?, up: Node?,
    o: seq<Node>, s: Shape, newTop: int, k: int)
  {
    && order != [] && |t| == |order| && t[0].left == -1
    && o == RemoveAt(order, 0) && s == Remove(t, 0) && TopOk(s, newTop)
    && (right != null ==> 0 <= k < |o| && o[k] == right && s[k].lo == 0)
    && (right == null ==> if up == null then o == [] else o != [] && o[0] == up)
    && Ref(o, newTop) == if up == null then right else Ref(order, top)
  }

  lemma PlanTake(order: seq<Node>, t: Shape, top: int) returns (o: seq<Node>, s: Shape, newTop: int, k: int)
    requires Rep(order, t, 0, |order|) && order != [] && TopOk(t, top)
    ensures LeastGone(order, t, top, order[0].right, order[0].up, o, s, newTop, k)
  {
    Around(order, t, 0, |order|, 0);
    TreeHas(t, 0, |t|, 0);
    k := t[0].right - 1;
    newTop := if t[0].up == -1 then k else top - 1;
    o, s := RemoveAt(order, 0), Remove(t, 0);
    LeastFacts(t, top, newTop, k);
    RemovedRef(order, 0);
    hide Tree, Linked, Distinct, RemoveAt, Remove, NodeOk;
  }

  lemma LeastFacts(t: Shape, top: int, newTop: int, k: int)
    requires Tree(t, 0, |t|) && |t| > 0 && TopOk(t, top)
    requires k == t[0].right - 1 && newTop == if t[0].up == -1 then k else top - 1
    ensures t[0].left == -1 && TopOk(Remove(t, 0), newTop)
    ensures t[0].right != -1 ==> 0 <= k < |t| - 1 && Remove(t, 0)[k].lo == 0
    ensures t[0].right == -1 ==> if t[0].up == -1 then |t| == 1 else t[0].up == 1
    ensures if t[0].up == -1 then top == 0 else top > 0
  {
    TreeHas(t, 0, |t|, 0);
    RightOfLeast(t);
    TreeHas(t, 0, |t|, top);
    Inside(t, 0, |t|, top, 0);
    hide Tree;
    if t[0].up != -1 {
      assert Remove(t, 0)[Before(top, 0)] == Closed(t[top], 0, OnlyChild(t[0]), t[0].up);
    }
  }

  lemma RightOfLeast(t: Shape)
    requires Tree(t, 0, |t|) && |t| > 0
    ensures t[0].left == -1
    ensures if t[0].right == -1 then t[0].up in {-1, 1}
            else 0 < t[0].right < |t| && Remove(t, 0)[t[0].right - 1].lo == 0
                 && (t[0].up == -1 ==> Remove(t, 0)[t[0].right - 1].up == -1)
  {
    TreeHas(t, 0, |t|, 0);
    Smaller(t, 0, |t|, 0);
    if t[0].right != -1 {
      assert Remove(t, 0)[Before(t[0].right, 0)] == Closed(t[t[0].right], 0, OnlyChild(t[0]), t[0].up);
    }
    if t[0].up != -1 {
      TreeHas(t, 0, |t|, t[0].up);
    }
  }

  /** Unlink the least event r. The new least event, the new root, and what is left, its shape and its top. */
  method TakeOut(r: Node, root: Node, ghost order: seq<Node>, ghost t: Shape, ghost top: int)
    returns (least: Node?, q: Node?, ghost o: seq<Node>, ghost s: Shape, ghost newTop: int)
    requires Rep(order, t, 0, |order|) && order != [] && TopOk(t, top) && r == order[0] && root == Ref(order, top)
    modifies Nodes(order, 0, |order|)
    ensures o == RemoveAt(order, 0) && Rep(o, s, 0, |o|) && TopOk(s, newTop)
    ensures least == Ref(o, 0) && q == Ref(o, newTop)
  {
    hide Rep, RemoveAt, Remove, TopOk;
    ghost var k;
    o, s, newTop, k := PlanTake(order, t, top);
    TakeLeast(r, order, t);
    least, q := NextLeast(r, root, o, s, k);
  }

  /** The new least event is the leftmost below r's right child, or r's parent; the root changes only if it was r. */
  method NextLeast(r: Node, root: Node, ghost o: seq<Node>, ghost s: Shape, ghost k: int)
    returns (least: Node?, q: Node?)
    requires Rep(o, s, 0, |o|)
    requires r.right != null ==> |s| == |o| && 0 <= k < |o| && o[k] == r.right && s[k].lo == 0
    requires r.right == null ==> if r.up == null then o == [] else o != [] && o[0] == r.up
    ensures Rep(o, s, 0, |o|) && least == Ref(o, 0) && q == if r.up == null then r.right else root
  {
    hide Rep;
    q := root;
    if r.up != null {
      if r.right != null {
        least := Leftmost(r.right, o, s, 0, |o|, k);
      } else {
        least := r.up;
      }
    } else {
      q := r.right;
      if q != null {
        least := Leftmost(q, o, s, 0, |o|, k);
      } else {
        least := null;
      }
    }
  }

  /** now is order with e put in at some place. */
  ghost predicate Inserted(order: seq<Node>, now: seq<Node>, e: Node) {
    exists k | 0 <= k <= |order| :: now == InsertAt(order, k, e)
  }

  lemma RepSize(order: seq<Node>, t: Shape, lo: int, hi: int)
    requires Rep(order, t, lo, hi)
    ensures |t| == |order|
  {
  }

  lemma OnlyFirst(order: seq<Node>, i: int)
    requires Sorted(order) && 0 <= i < |order|
    ensures order[i] == order[0] <==> i == 0
  {
    if i > 0 {
      LessIsOrder(order[0].key, order[i].key, order[i].key);
    }
  }

  lemma Singleton(e: Node)
    requires e.left == null && e.right == null && e.up == null
    ensures Rep([e], [Rec(-1, -1, -1, 0, 1)], 0, 1) && Sorted([e]) && Inserted([], [e], e)
  {
    assert [e] == InsertAt([], 0, e);
  }

  lemma InsertedIs(order: seq<Node>, k: int, e: Node)
    requires 0 <= k <= |order|
    ensures |InsertAt(order, k, e)| == |order| + 1 && InsertAt(order, k, e)[k] == e
    ensures forall x :: x in InsertAt(order, k, e) <==> x == e || x in order
  {
  }
}
