/** The index of received remote events: a search tree linked through nodes that come from, and return to, a free
    list. */
module AvlTree {
  import opened AvlShape

  datatype Stored = None | Some(entry: Entry)

  class Node {
    var left: Node?
    var right: Node?
    var key: Stored
    var height: nat
    var next: Node?

    /** child[d] */
    function At(d: bool): Node?
      reads this
    {
      if d then right else left
    }

    method Put(d: bool, c: Node?)
      modifies `left, `right
      ensures At(d) == c && At(!d) == old(At(!d))
    {
      if d {
        right := c;
      } else {
        left := c;
      }
    }
  }

  /** The tree at t has this shape. */
  ghost predicate Rep(t: Node?, s: Shape<Node>)
    reads Nodes(s)
  {
    match s
    case Nil => t == null
    case Fork(l, n, e, h, r) => t == n && n.key == Some(e) && n.height == h && Rep(n.left, l) && Rep(n.right, r)
  }

  ghost predicate Tree(t: Node?, s: Shape<Node>)
    reads Nodes(s)
  {
    Apart(s) && Rep(t, s)
  }

  /** The root of a tree, and its subtrees on nodes of their own. */
  ghost predicate Root(t: Node?, s: Shape<Node>)
    requires s.Fork?
    reads s.node, Nodes(s.left), Nodes(s.right)
  {
    && t == s.node && s.node.key == Some(s.entry) && s.node.height == s.height
    && Tree(s.node.left, s.left) && Tree(s.node.right, s.right)
    && t !in Nodes(s.left) && t !in Nodes(s.right) && Nodes(s.left) !! Nodes(s.right)
  }

  lemma Opened(t: Node?, s: Shape<Node>)
    ensures s.Fork? ==> (Tree(t, s) <==> Root(t, s))
    ensures Tree(t, s) ==> (t == null <==> s == Nil)
    ensures s.Fork? ==> Nodes(s) == Nodes(s.left) + {s.node} + Nodes(s.right)
  {
  }

  /** avlGetHeight */
  function Height(t: Node?): nat
    reads t
  {
    if t == null then 0 else t.height
  }

  lemma HeightIs(t: Node?, s: Shape<Node>)
    requires Tree(t, s)
    ensures Height(t) == H(s)
  {
  }

  /** avlFixHeight */
  method FixHeight(t: Node, ghost s: Shape<Node>)
    requires s.Fork? && Root(t, s.(height := t.height))
    modifies t`height
    ensures Root(t, Fix(s))
  {
    HeightIs(t.left, s.left);
    HeightIs(t.right, s.right);
    hide Tree;
    t.height := 1 + Max(Height(t.At(false)), Height(t.At(true)));
  }

  lemma {:induction false} InHeap(s: Shape<Node>)
    ensures forall n <- Nodes(s) :: allocated(n)
  {
    if s.Fork? {
      InHeap(s.left);
      InHeap(s.right);
    }
  }

  /** avlRotate */
  method RotateTree(t: Node, d: bool, ghost s: Shape<Node>) returns (r: Node)
    requires Tree(t, s) && s.Fork? && Child(s, d).Fork?
    modifies Nodes(s)
    ensures Tree(r, Rotate(s, d))
  {
    ghost var c := Child(s, d);
    Opened(t, s);
    Opened(t.At(d), c);
    InHeap(s);
    hide Tree;
    r := t.At(d);
    var middle := r.At(!d);
    t.Put(d, middle);
    r.Put(!d, t);
    FixHeight(t, WithChild(s, d, Child(c, !d)));
    ghost var low := Fix(WithChild(s, d, Child(c, !d)));
    Opened(t, low);
    FixHeight(r, WithChild(c, !d, low));
    Opened(r, Rotate(s, d));
  }

  /** Child d is replaced by a subtree on nodes that are not elsewhere in the tree. */
  method Replace(t: Node, d: bool, c: Node?, ghost s: Shape<Node>, ghost cs: Shape<Node>)
    requires s.Fork? && t == s.node && t.key == Some(s.entry) && t.height == s.height
    requires Tree(t.At(!d), Child(s, !d)) && Tree(c, cs) && Apart(WithChild(s, d, cs))
    modifies t`left, t`right
    ensures Tree(t, WithChild(s, d, cs))
  {
    InHeap(Child(s, !d));
    InHeap(cs);
    t.Put(d, c);
    Opened(t, WithChild(s, d, cs));
  }

  /** The rotations of avlRebalance. */
  method LowerTree(t: Node, d: bool, ghost s: Shape<Node>) returns (r: Node)
    requires Tree(t, s) && s.Fork? && ExactBelow(s) && H(Child(s, d)) > H(Child(s, !d)) + 1
    modifies Nodes(s)
    ensures Tree(r, Lower(s, d))
  {
    ghost var c := Child(s, d);
    Opened(t, s);
    Opened(t.At(d), c);
    HeightIs(t.At(d).At(d), Child(c, d));
    HeightIs(t.At(d).At(!d), Child(c, !d));
    if Height(t.At(d).At(d)) > Height(t.At(d).At(!d)) {
      r := RotateTree(t, d, s);
    } else {
      RotateKeeps(c, !d);
      WithSame(s, d, Rotate(c, !d));
      InHeap(s);
      hide Tree, Rotate, SameAs;
      var low := RotateTree(t.At(d), !d, c);
      Replace(t, d, low, s, Rotate(c, !d));
      r := RotateTree(t, d, WithChild(s, d, Rotate(c, !d)));
    }
  }

  /** avlRebalance */
  method RebalanceTree(t: Node?, ghost s: Shape<Node>) returns (r: Node?)
    requires Tree(t, s) && ExactBelow(s)
    modifies Nodes(s)
    ensures Tree(r, Rebalance(s))
  {
    Opened(t, s);
    if t == null {
      return null;
    }
    HeightIs(t.left, s.left);
    HeightIs(t.right, s.right);
    for i := 0 to 2
      invariant i > 0 ==> H(s.left) <= H(s.right) + 1
      invariant i > 1 ==> H(s.right) <= H(s.left) + 1
      invariant Tree(t, s) && Height(t.left) == H(s.left) && Height(t.right) == H(s.right)
    {
      var d := i == 1;
      if Height(t.At(d)) > Height(t.At(!d)) + 1 {
        r := LowerTree(t, d, s);
        return;
      }
    }
    Opened(t, s);
    FixHeight(t, s);
    r := t;
    Opened(t, Fix(s));
  }

  // ---------- the free list ----------

  ghost function Listed(list: seq<Node>): set<Node> {
    set i | 0 <= i < |list| :: list[i]
  }

  ghost predicate NextAt(list: seq<Node>, i: int)
    requires 0 <= i < |list|
    reads list[i]
  {
    list[i].next == if i + 1 < |list| then list[i + 1] else null
  }

  class Pool {
    var head: Node?
    ghost var list: seq<Node>

    ghost predicate Valid()
      reads this, Listed(list)
    {
      && (forall i, j | 0 <= i < |list| && 0 <= j < |list| :: list[i] == list[j] ==> i == j)
      && (forall i | 0 <= i < |list| :: NextAt(list, i))
      && head == if list == [] then null else list[0]
    }

    /** tw_hash_create: a list of that many nodes. */
    constructor (count: nat)
      ensures Valid() && |list| == count && fresh(Listed(list))
    {
      head, list := null, [];
      new;
      for i := 0 to count
        invariant Valid() && |list| == i && fresh(Listed(list)) && fresh(this)
      {
        var t := new Node;
        ListedPlus(t, list);
        Free(t);
      }
    }

    /** avl_alloc: it stops with an error rather than give out the last node. */
    method Alloc() returns (n: Node)
      requires Valid() && |list| > 1
      modifies this, Listed(list)`next
      ensures Valid() && [n] + list == old(list) && n.next == null
    {
      assert NextAt(list, 0);
      n := head;
      head := n.next;
      n.next := null;
      ghost var l := list;
      list := list[1..];
      forall i | 0 <= i < |list| ensures NextAt(list, i) {
        assert old(NextAt(l, i + 1));
      }
    }

    /** avl_free */
    method Free(t: Node)
      requires Valid() && t !in Listed(list)
      modifies this, t
      ensures Valid() && list == [t] + old(list)
    {
      t.left, t.right, t.key, t.height := null, null, None, 0;
      t.next := head;
      head := t;
      ghost var l := list;
      list := [t] + list;
      forall i | 0 <= i < |list| ensures NextAt(list, i) {
        assert i > 0 ==> old(NextAt(l, i - 1));
      }
    }
  }

  lemma ListedPlus(n: Node, list: seq<Node>)
    ensures Listed([n] + list) == {n} + Listed(list)
  {
    assert forall i | 0 <= i < |list| :: list[i] == ([n] + list)[i + 1];
    assert ([n] + list)[0] == n;
  }

  /** The tree and the free list share no nodes. */
  ghost predicate Separate(t: Node?, s: Shape<Node>, pool: Pool)
    reads Nodes(s), pool, Listed(pool.list)
  {
    Tree(t, s) && pool.Valid() && Nodes(s) !! Listed(pool.list)
  }

  lemma FirstIsApart(n: Node, list: seq<Node>)
    requires forall i, j | 0 <= i < |[n] + list| && 0 <= j < |[n] + list| ::
               ([n] + list)[i] == ([n] + list)[j] ==> i == j
    ensures n !in Listed(list) && Listed([n] + list) == {n} + Listed(list)
  {
    ListedPlus(n, list);
    forall i | 0 <= i < |list| ensures list[i] != n {
      assert ([n] + list)[i + 1] == list[i] && ([n] + list)[0] == n;
    }
  }

  /** child[d] = c, then avlRebalance. */
  method Adopt(t: Node, d: bool, c: Node?, pool: Pool, ghost s: Shape<Node>, ghost cs: Shape<Node>) returns (r: Node?)
    requires s.Fork? && t == s.node && t.key == Some(s.entry) && t.height == s.height
    requires Tree(t.At(!d), Child(s, !d)) && Tree(c, cs) && Apart(WithChild(s, d, cs))
    requires ExactBelow(WithChild(s, d, cs))
    requires pool.Valid() && Nodes(WithChild(s, d, cs)) !! Listed(pool.list)
    modifies Nodes(WithChild(s, d, cs))
    ensures Separate(r, Rebalance(WithChild(s, d, cs)), pool)
  {
    ghost var s' := WithChild(s, d, cs);
    RebalanceKeeps(s');
    assert t in Nodes(s');
    InHeap(s');
    hide Tree, Rebalance, ExactBelow, Nodes;
    Replace(t, d, c, s, cs);
    r := RebalanceTree(t, s');
  }

  // ---------- insertion ----------

  method NewLeaf(e: Entry, pool: Pool) returns (n: Node)
    requires pool.Valid() && |pool.list| > 1
    modifies pool, Listed(pool.list)
    ensures [n] + pool.list == old(pool.list) && Separate(n, Fork(Nil, n, e, 1, Nil), pool)
  {
    ghost var l := pool.list;
    n := pool.Alloc();
    FirstIsApart(n, pool.list);
    label L:
    n.left, n.right, n.key, n.height := null, null, Some(e), 1;
    forall i | 0 <= i < |pool.list| ensures NextAt(pool.list, i) {
      assert old@L(NextAt(pool.list, i));
    }
  }

  /** avlInsert */
  method InsertTree(t: Node?, e: Entry, pool: Pool, ghost s: Shape<Node>) returns (r: Node?, ghost n: Node)
    requires Separate(t, s, pool) && |pool.list| > 1
    requires Exact(s) && Ordered(s) && Fresh(Entries(s), e.key)
    modifies Nodes(s), pool, Listed(pool.list)
    ensures [n] + pool.list == old(pool.list) && Separate(r, Insert(s, n, e), pool)
    decreases s
  {
    Opened(t, s);
    if t == null {
      r := NewLeaf(e, pool);
      n := r;
      return;
    }
    var d := Greater(e.key, t.key.entry.key);
    ghost var c := Child(s, d);
    InHeap(s);
    assert s.entry in Entries(s);
    GreaterIsOrder(e.key, s.entry.key, e.key);
    ExactIsBelow(s);
    hide Tree, Rebalance, Entries, Listed;
    var low;
    low, n := InsertTree(t.At(d), e, pool, c);
    ListedPlus(n, pool.list);
    ghost var cs := Insert(c, n, e);
    InsertAdds(c, n, e);
    GainsBelow(s, d, cs, n, e);
    hide Ordered, Apart;
    r := Adopt(t, d, low, pool, s, cs);
  }

  // ---------- deletion ----------

  /** A node leaves the tree and goes to the front of the free list. */
  method Splice(t: Node, pool: Pool, ghost s: Shape<Node>, d: bool) returns (r: Node?)
    requires Separate(t, s, pool) && s.Fork? && Child(s, !d).Nil? && ExactBelow(s) && ExactBelow(Child(s, d))
    modifies Nodes(s), pool
    ensures pool.list == [s.node] + old(pool.list) && Separate(r, Rebalance(Child(s, d)), pool)
  {
    ghost var c := Child(s, d);
    Opened(t, s);
    InHeap(s);
    RebalanceKeeps(c);
    hide Tree, Rebalance, Listed, NextAt;
    r := t.At(d);
    ListedPlus(t, pool.list);
    pool.Free(t);
    r := RebalanceTree(r, c);
  }

  /** avlDeleteMin */
  method DeleteMinTree(t: Node, pool: Pool, ghost s: Shape<Node>) returns (e: Entry, r: Node?)
    requires Separate(t, s, pool) && s.Fork? && Exact(s) && Ordered(s)
    modifies Nodes(s), pool
    ensures e == Least(s).entry && pool.list == [Least(s).node] + old(pool.list) && Separate(r, WithoutMin(s), pool)
    decreases s
  {
    Opened(t, s);
    ExactIsBelow(s);
    if t.left == null {
      Opened(t.left, s.left);
      e := t.key.entry;
      r := Splice(t, pool, s, true);
    } else {
      Opened(t.left, s.left);
      InHeap(s);
      WithoutMinRemoves(s.left);
      ghost var n := Least(s.left);
      LosesBelow(s, false, WithoutMin(s.left), n.entry, n.node);
      hide Tree, Rebalance, Listed, Ordered, Apart, Least;
      var low;
      e, low := DeleteMinTree(t.left, pool, s.left);
      ListedPlus(n.node, old(pool.list));
      r := Adopt(t, false, low, pool, s, WithoutMin(s.left));
    }
  }

  /** The entry of the root itself is deleted: the least one of the right subtree takes its place. */
  method DeleteRoot(t: Node, pool: Pool, ghost s: Shape<Node>) returns (r: Node?)
    requires Separate(t, s, pool) && s.Fork? && s.right.Fork? && Exact(s) && Ordered(s)
    modifies Nodes(s), pool
    ensures pool.list == [Least(s.right).node] + old(pool.list)
    ensures Separate(r, Rebalance(s.(entry := Least(s.right).entry, right := WithoutMin(s.right))), pool)
  {
    Opened(t, s);
    Opened(t.right, s.right);
    ExactIsBelow(s);
    InHeap(s);
    WithoutMinRemoves(s.right);
    ghost var m := Least(s.right);
    TakesPlace(s, WithoutMin(s.right), m.entry, m.node);
    hide Tree, Rebalance, Listed, Ordered, Apart, Least;
    var e, low := DeleteMinTree(t.right, pool, s.right);
    ListedPlus(m.node, old(pool.list));
    ghost var s' := s.(entry := e);
    t.key := Some(e);
    r := Adopt(t, true, low, pool, s', WithoutMin(s.right));
  }

  /** avlDelete, for a key that is there. */
  method DeleteTree(t: Node, k: Key, pool: Pool, ghost s: Shape<Node>) returns (e: Entry, r: Node?)
    requires Separate(t, s, pool) && Exact(s) && Ordered(s) && Search(s, k)
    modifies Nodes(s), pool
    ensures e == Found(s, k) && pool.list == [FreedNode(s, k)] + old(pool.list) && Separate(r, Delete(s, k), pool)
    decreases s
  {
    Opened(t, s);
    ExactIsBelow(s);
    if k == t.key.entry.key {
      e := t.key.entry;
      Opened(t.right, s.right);
      if t.right != null {
        hide Tree, Rebalance, Listed, Ordered, Apart;
        r := DeleteRoot(t, pool, s);
      } else {
        r := Splice(t, pool, s, false);
      }
    } else {
      var d := Greater(k, t.key.entry.key);
      e, r := DeleteChild(t, d, k, pool, s);
    }
  }

  method DeleteChild(t: Node, d: bool, k: Key, pool: Pool, ghost s: Shape<Node>) returns (e: Entry, r: Node?)
    requires Separate(t, s, pool) && Exact(s) && Ordered(s) && Search(s, k)
    requires k != s.entry.key && d == Greater(k, s.entry.key)
    modifies Nodes(s), pool
    ensures e == Found(s, k) && pool.list == [FreedNode(s, k)] + old(pool.list) && Separate(r, Delete(s, k), pool)
    decreases s, 0
  {
    ghost var c := Child(s, d);
    Opened(t, s);
    Opened(t.At(d), c);
    ExactIsBelow(s);
    InHeap(s);
    DeleteRemoves(c, k);
    ghost var n := FreedNode(c, k);
    LosesBelow(s, d, Delete(c, k), Found(c, k), n);
    hide Tree, Rebalance, Listed, Ordered, Apart, Entries;
    var low;
    e, low := DeleteTree(t.At(d), k, pool, c);
    ListedPlus(n, old(pool.list));
    r := Adopt(t, d, low, pool, s, Delete(c, k));
  }

  /** avlSearch */
  method SearchTree(t: Node?, k: Key, ghost s: Shape<Node>) returns (found: bool)
    requires Tree(t, s)
    ensures found == Search(s, k)
    decreases s
  {
    Opened(t, s);
    if t == null {
      return false;
    }
    if k == t.key.entry.key {
      return true;
    }
    var d := Greater(k, t.key.entry.key);
    found := SearchTree(t.At(d), k, Child(s, d));
  }

  /** What the insertion of e on the free list's first node does. */
  lemma Added(s: Shape<Node>, n: Node, e: Entry, list: seq<Node>)
    requires Exact(s) && Ordered(s) && Apart(s) && Fresh(Entries(s), e.key) && Nodes(s) !! Listed([n] + list)
    ensures var t := Insert(s, n, e);
      && Ordered(t) && Entries(t) == Entries(s) + {e} && (Balanced(s) ==> Balanced(t))
      && Nodes(t) + Listed(list) == Nodes(s) + Listed([n] + list)
  {
    ListedPlus(n, list);
    InsertAdds(s, n, e);
    if Balanced(s) {
      InsertKeepsBalance(s, n, e);
    }
  }

  // ---------- the index ----------

  /** A KP's tree with the PE's free list. */
  class Index {
    var root: Node?
    const pool: Pool
    ghost var shape: Shape<Node>

    ghost predicate Valid()
      reads this, Nodes(shape), pool, Listed(pool.list)
    {
      Separate(root, shape, pool) && Exact(shape) && Ordered(shape)
    }

    constructor (pool: Pool)
      requires pool.Valid()
      ensures Valid() && this.pool == pool && Contents() == {}
    {
      this.pool, root, shape := pool, null, Nil;
    }

    /** What the index holds. */
    ghost function Contents(): set<Entry>
      reads this
    {
      Entries(shape)
    }

    /** The nodes in use and those free. */
    ghost function AllNodes(): set<Node>
      reads this, pool
    {
      Nodes(shape) + Listed(pool.list)
    }

    /** tw_hash_insert, for an event not held yet. Heights stay exact, and balanced if they were. */
    method Add(e: Entry)
      requires Valid() && |pool.list| > 1 && Fresh(Contents(), e.key)
      modifies this, Nodes(shape), pool, Listed(pool.list)
      ensures Valid() && Contents() == old(Contents()) + {e} && AllNodes() == old(AllNodes())
      ensures |pool.list| == old(|pool.list|) - 1 && (old(Balanced(shape)) ==> Balanced(shape))
    {
      ghost var n;
      var r;
      ghost var before := pool.list;
      assert Apart(shape);
      hide Tree, Rebalance, Listed, Ordered, Exact, Apart;
      r, n := InsertTree(root, e, pool, shape);
      Added(shape, n, e, pool.list);
      hide Insert;
      root, shape := r, Insert(shape, n, e);
      assert [n] + pool.list == before;
    }

    /** tw_hash_remove, for a key that is held: it returns the event stored under it. */
    method Remove(k: Key) returns (e: Entry)
      requires Valid() && exists x <- Contents() :: x.key == k
      modifies this, Nodes(shape), pool
      ensures Valid() && e.key == k && e in old(Contents()) && Contents() == old(Contents()) - {e}
      ensures AllNodes() == old(AllNodes()) && |pool.list| == old(|pool.list|) + 1
    {
      SearchFinds(shape, k);
      DeleteRemoves(shape, k);
      Opened(root, shape);
      ghost var n := FreedNode(shape, k);
      hide Tree, Ordered, Exact, Apart, Listed, Found, FreedNode;
      var r;
      e, r := DeleteTree(root, k, pool, shape);
      ListedPlus(n, old(pool.list));
      root, shape := r, Delete(shape, k);
    }

    /** avlSearch, from the root */
    method Holds(k: Key) returns (found: bool)
      requires Valid()
      ensures found <==> exists x <- Contents() :: x.key == k
    {
      SearchFinds(shape, k);
      found := SearchTree(root, k, shape);
    }
  }
}
