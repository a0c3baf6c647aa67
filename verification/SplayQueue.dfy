/** The priority queue: a splay tree linked through the events themselves, with the least event cached. */
module SplayQueue {
  import opened EventSignature
  import opened SplayShape

  /** What the comparison looks at: the signature, then the event's number and its sender. */
  datatype Key = Key(sig: Sig, eventId: int, sendPe: int)

  class Node {
    const key: Key
    var left: Node?
    var right: Node?
    var up: Node?

    constructor (key: Key)
      ensures this.key == key && left == null && right == null && up == null
    {
      this.key := key;
      left, right, up := null, null, null;
    }
  }

  /** The node at a position, null for none. */
  ghost function Ref(order: seq<Node>, i: int): Node? {
    if 0 <= i < |order| then order[i] else null
  }

  ghost predicate Distinct(order: seq<Node>) {
    forall i, j | 0 <= i < |order| && 0 <= j < |order| :: order[i] == order[j] ==> i == j
  }

  ghost predicate NodeLinked(order: seq<Node>, t: Shape, i: int)
    requires 0 <= i < |order| == |t|
    reads order[i]
  {
    && order[i].left == Ref(order, t[i].left) && order[i].right == Ref(order, t[i].right)
    && order[i].up == Ref(order, t[i].up)
  }

  /** The links of the nodes from lo up to hi are those of the shape. */
  ghost predicate Linked(order: seq<Node>, t: Shape, lo: int, hi: int)
    requires 0 <= lo <= hi <= |order| == |t|
    reads order
  {
    forall i | lo <= i < hi :: NodeLinked(order, t, i)
  }

  ghost function Nodes(order: seq<Node>, lo: int, hi: int): set<Node>
    requires 0 <= lo <= hi <= |order|
  {
    set i | lo <= i < hi :: order[i]
  }

  /** A tree and its links. */
  ghost predicate Rep(order: seq<Node>, t: Shape, lo: int, hi: int)
    reads order
  {
    Distinct(order) && |order| == |t| && Tree(t, lo, hi) && Linked(order, t, lo, hi)
  }

  /** What the links of node k say about the shape. */
  ghost predicate Neighbours(order: seq<Node>, t: Shape, lo: int, hi: int, k: int)
    requires 0 <= lo <= k < hi <= |order| == |t|
    reads order[k]
  {
    && NodeLinked(order, t, k)
    && (order[k].up == null <==> t[k].up == -1) && (order[k].left == null <==> t[k].left == -1)
    && (order[k].right == null <==> t[k].right == -1)
    && (t[k].up == -1 || lo <= t[k].up < hi) && (t[k].left == -1 || lo <= t[k].left < hi)
    && (t[k].right == -1 || lo <= t[k].right < hi)
  }

  lemma Around(order: seq<Node>, t: Shape, lo: int, hi: int, k: int)
    requires Rep(order, t, lo, hi) && lo <= k < hi
    ensures NodeOk(t, lo, hi, k) && Neighbours(order, t, lo, hi, k)
  {
    assert NodeOk(t, lo, hi, k);
    assert NodeLinked(order, t, k);
  }

  /** The same for n, its parent and its grandparent, whose links the double rotations change, and for their
      neighbours. */
  lemma Around3(order: seq<Node>, t: Shape, lo: int, hi: int, k: int)
    requires Rep(order, t, lo, hi) && lo <= k < hi && order[k].up != null && order[k].up.up != null
    ensures lo <= t[k].up < hi && lo <= t[t[k].up].up < hi
    ensures var q, h := t[k].up, t[t[k].up].up;
      && order[k].up == order[q] && order[q].up == order[h]
      && Neighbours(order, t, lo, hi, k) && Neighbours(order, t, lo, hi, q) && Neighbours(order, t, lo, hi, h)
      && (t[h].up != -1 ==> (
            && lo <= t[h].up < hi && Neighbours(order, t, lo, hi, t[h].up)
            && t[t[h].up].left != t[t[h].up].right && (t[t[h].up].left == h || t[t[h].up].right == h)))
      && (t[q].left == k || t[q].right == k) && (t[h].left == q || t[h].right == q)
  {
    Around(order, t, lo, hi, k);
    Around(order, t, lo, hi, t[k].up);
    Around(order, t, lo, hi, t[t[k].up].up);
    if t[t[t[k].up].up].up != -1 {
      Around(order, t, lo, hi, t[t[t[k].up].up].up);
      Smaller(t, lo, hi, t[t[t[k].up].up].up);
      Smaller(t, lo, hi, t[t[k].up].up);
    }
  }

  /** n is the left child of a top node. */
  method ZigRight(n: Node, ghost order: seq<Node>, ghost t: Shape, ghost lo: int, ghost hi: int, ghost k: int)
    returns (ghost r: Shape)
    requires Rep(order, t, lo, hi) && lo <= k < hi && order[k] == n
    requires n.up != null && n.up.left == n && n.up.up == null
    modifies Nodes(order, lo, hi)
    ensures Rep(order, r, lo, hi) && Size(t, k) < Size(r, k)
  {
    Around(order, t, lo, hi, k);
    Around(order, t, lo, hi, t[k].up);
    RotateRightIsTree(t, lo, hi, k);
    r := RotateRight(t, k);
    hide NodeOk, RotateRight;
    var p := n.up;
    p.left := n.right;
    if p.left != null {
      n.right.up := p;
    }
    n.right := p;
    n.up := null;
    p.up := n;
    forall i | lo <= i < hi ensures NodeLinked(order, r, i) {
      assert old(NodeLinked(order, t, i));
    }
  }

  /** n is the right child of a top node. */
  method ZigLeft(n: Node, ghost order: seq<Node>, ghost t: Shape, ghost lo: int, ghost hi: int, ghost k: int)
    returns (ghost r: Shape)
    requires Rep(order, t, lo, hi) && lo <= k < hi && order[k] == n
    requires n.up != null && n.up.right == n && n.up.up == null
    modifies Nodes(order, lo, hi)
    ensures Rep(order, r, lo, hi) && Size(t, k) < Size(r, k)
  {
    Around(order, t, lo, hi, k);
    Around(order, t, lo, hi, t[k].up);
    RotateLeftIsTree(t, lo, hi, k);
    r := RotateLeft(t, k);
    hide NodeOk, RotateLeft;
    var p := n.up;
    p.right := n.left;
    if p.right != null {
      n.left.up := p;
    }
    n.left := p;
    n.up := null;
    p.up := n;
    forall i | lo <= i < hi ensures NodeLinked(order, r, i) {
      assert old(NodeLinked(order, t, i));
    }
  }

  method ZigZigRightLinks(n: Node, p: Node, g: Node)
    requires n.up == p && p.left == n && p.up == g && g.left == p && n != p && n != g && p != g
    requires g.up !in {n, p, g} && n.right !in {n, p, g} && p.right !in {n, p, g}
    requires (g.up != null ==> n.right != g.up && p.right != g.up && (g.up.left == g) == (g.up.right != g))
    requires n.right != null ==> n.right != p.right
    modifies n, p, g, g.up, n.right, p.right
    ensures n.left == old(n.left) && n.right == p && n.up == old(g.up)
    ensures p.left == old(n.right) && p.right == g && p.up == n
    ensures g.left == old(p.right) && g.right == old(g.right) && g.up == p
    ensures var z := old(g.up); z != null ==>
      && z.up == old(z.up)
      && z.left == (if old(z.left) == g then n else old(z.left))
      && z.right == (if old(z.left) == g then old(z.right) else n)
    ensures var b := old(n.right); b != null ==> b.up == p && b.left == old(b.left) && b.right == old(b.right)
    ensures var c := old(p.right); c != null ==> c.up == g && c.left == old(c.left) && c.right == old(c.right)
  {
    var z := g.up;
    if z != null {
      if g == z.left {
        z.left := n;
      } else {
        z.right := n;
      }
    }
    n.up := z;
    p.left := n.right;
    var x := p.left;
    if x != null {
      x.up := p;
    }
    n.right := p;
    p.up := n;
    g.left := p.right;
    x := g.left;
    if x != null {
      x.up := g;
    }
    p.right := g;
    g.up := p;
  }

  method ZigZigRight(n: Node, ghost order: seq<Node>, ghost t: Shape, ghost lo: int, ghost hi: int, ghost k: int)
    returns (ghost r: Shape)
    requires Rep(order, t, lo, hi) && lo <= k < hi && order[k] == n
    requires n.up != null && n.up.left == n && n.up.up != null && n.up.up.left == n.up
    modifies Nodes(order, lo, hi)
    ensures Rep(order, r, lo, hi) && Size(t, k) < Size(r, k)
  {
    Around3(order, t, lo, hi, k);
    r := ZigZigRightShape(t, lo, hi, k);
    hide NodeOk, Tree;
    ZigZigRightLinks(n, n.up, n.up.up);
    forall i | lo <= i < hi ensures NodeLinked(order, r, i) {
      assert old(NodeLinked(order, t, i));
    }
  }

  method ZigZigLeftLinks(n: Node, p: Node, g: Node)
    requires n.up == p && p.right == n && p.up == g && g.right == p && n != p && n != g && p != g
    requires g.up !in {n, p, g} && n.left !in {n, p, g} && p.left !in {n, p, g}
    requires (g.up != null ==> n.left != g.up && p.left != g.up && (g.up.left == g) == (g.up.right != g))
    requires n.left != null ==> n.left != p.left
    modifies n, p, g, g.up, n.left, p.left
    ensures n.right == old(n.right) && n.left == p && n.up == old(g.up)
    ensures p.right == old(n.left) && p.left == g && p.up == n
    ensures g.right == old(p.left) && g.left == old(g.left) && g.up == p
    ensures var z := old(g.up); z != null ==>
      && z.up == old(z.up)
      && z.left == (if old(z.left) == g then n else old(z.left))
      && z.right == (if old(z.left) == g then old(z.right) else n)
    ensures var b := old(n.left); b != null ==> b.up == p && b.left == old(b.left) && b.right == old(b.right)
    ensures var c := old(p.left); c != null ==> c.up == g && c.left == old(c.left) && c.right == old(c.right)
  {
    var z := g.up;
    if z != null {
      if g == z.right {
        z.right := n;
      } else {
        z.left := n;
      }
    }
    n.up := z;
    p.right := n.left;
    var x := p.right;
    if x != null {
      x.up := p;
    }
    n.left := p;
    p.up := n;
    g.right := p.left;
    x := g.right;
    if x != null {
      x.up := g;
    }
    p.left := g;
    g.up := p;
  }

  method ZigZigLeft(n: Node, ghost order: seq<Node>, ghost t: Shape, ghost lo: int, ghost hi: int, ghost k: int)
    returns (ghost r: Shape)
    requires Rep(order, t, lo, hi) && lo <= k < hi && order[k] == n
    requires n.up != null && n.up.right == n && n.up.up != null && n.up.up.right == n.up
    modifies Nodes(order, lo, hi)
    ensures Rep(order, r, lo, hi) && Size(t, k) < Size(r, k)
  {
    Around3(order, t, lo, hi, k);
    r := ZigZigLeftShape(t, lo, hi, k);
    hide NodeOk, Tree;
    ZigZigLeftLinks(n, n.up, n.up.up);
    forall i | lo <= i < hi ensures NodeLinked(order, r, i) {
      assert old(NodeLinked(order, t, i));
    }
  }

  method ZigZagRightLinks(n: Node, p: Node, g: Node)
    requires n.up == p && p.left == n && p.up == g && g.right == p && g.left != p && n != p && n != g && p != g
    requires g.up !in {n, p, g} && n.right !in {n, p, g} && n.left !in {n, p, g}
    requires (g.up != null ==> n.right != g.up && n.left != g.up && (g.up.left == g) == (g.up.right != g))
    requires n.right != null ==> n.right != n.left
    modifies n, p, g, g.up, n.right, n.left
    ensures n.left == g && n.right == p && n.up == old(g.up)
    ensures p.left == old(n.right) && p.right == old(p.right) && p.up == n
    ensures g.left == old(g.left) && g.right == old(n.left) && g.up == n
    ensures var z := old(g.up); z != null ==>
      && z.up == old(z.up)
      && z.left == (if old(z.left) == g then n else old(z.left))
      && z.right == (if old(z.left) == g then old(z.right) else n)
    ensures var b := old(n.right); b != null ==> b.up == p && b.left == old(b.left) && b.right == old(b.right)
    ensures var c := old(n.left); c != null ==> c.up == g && c.left == old(c.left) && c.right == old(c.right)
  {
    var z := g.up;
    if z != null {
      if g == z.left {
        z.left := n;
      } else {
        z.right := n;
      }
    }
    n.up := z;
    p.left := n.right;
    var x := p.left;
    if x != null {
      x.up := p;
      n.right := p;
    } else {
      n.right := p;
    }
    g.right := n.left;
    x := g.right;
    if x != null {
      x.up := g;
      n.left := g;
    } else {
      n.left := g;
    }
    g.up, p.up := n, n;
  }

  method ZigZagRight(n: Node, ghost order: seq<Node>, ghost t: Shape, ghost lo: int, ghost hi: int, ghost k: int)
    returns (ghost r: Shape)
    requires Rep(order, t, lo, hi) && lo <= k < hi && order[k] == n
    requires n.up != null && n.up.left == n && n.up.up != null && n.up.up.left != n.up
    modifies Nodes(order, lo, hi)
    ensures Rep(order, r, lo, hi) && Size(t, k) < Size(r, k)
  {
    Around3(order, t, lo, hi, k);
    r := ZigZagRightShape(t, lo, hi, k);
    hide NodeOk, Tree;
    ZigZagRightLinks(n, n.up, n.up.up);
    forall i | lo <= i < hi ensures NodeLinked(order, r, i) {
      assert old(NodeLinked(order, t, i));
    }
  }

  method ZigZagLeftLinks(n: Node, p: Node, g: Node)
    requires n.up == p && p.right == n && p.up == g && g.left == p && g.right != p && n != p && n != g && p != g
    requires g.up !in {n, p, g} && n.left !in {n, p, g} && n.right !in {n, p, g}
    requires (g.up != null ==> n.left != g.up && n.right != g.up && (g.up.left == g) == (g.up.right != g))
    requires n.left != null ==> n.left != n.right
    modifies n, p, g, g.up, n.left, n.right
    ensures n.right == g && n.left == p && n.up == old(g.up)
    ensures p.right == old(n.left) && p.left == old(p.left) && p.up == n
    ensures g.right == old(g.right) && g.left == old(n.right) && g.up == n
    ensures var z := old(g.up); z != null ==>
      && z.up == old(z.up)
      && z.left == (if old(z.left) == g then n else old(z.left))
      && z.right == (if old(z.left) == g then old(z.right) else n)
    ensures var b := old(n.left); b != null ==> b.up == p && b.left == old(b.left) && b.right == old(b.right)
    ensures var c := old(n.right); c != null ==> c.up == g && c.left == old(c.left) && c.right == old(c.right)
  {
    var z := g.up;
    if z != null {
      if g == z.right {
        z.right := n;
      } else {
        z.left := n;
      }
    }
    n.up := z;
    p.right := n.left;
    var x := p.right;
    if x != null {
      x.up := p;
      n.left := p;
    } else {
      n.left := p;
    }
    g.left := n.right;
    x := g.left;
    if x != null {
      x.up := g;
      n.right := g;
    } else {
      n.right := g;
    }
    g.up, p.up := n, n;
  }

  method ZigZagLeft(n: Node, ghost order: seq<Node>, ghost t: Shape, ghost lo: int, ghost hi: int, ghost k: int)
    returns (ghost r: Shape)
    requires Rep(order, t, lo, hi) && lo <= k < hi && order[k] == n
    requires n.up != null && n.up.right == n && n.up.up != null && n.up.up.right != n.up
    modifies Nodes(order, lo, hi)
    ensures Rep(order, r, lo, hi) && Size(t, k) < Size(r, k)
  {
    Around3(order, t, lo, hi, k);
    r := ZigZagLeftShape(t, lo, hi, k);
    hide NodeOk, Tree;
    ZigZagLeftLinks(n, n.up, n.up.up);
    forall i | lo <= i < hi ensures NodeLinked(order, r, i) {
      assert old(NodeLinked(order, t, i));
    }
  }

  /** splay: bring a node to the top of its tree. The in-order sequence stays what it is; the subtree below the node
      grows with every step. */
  method Splay(n: Node, ghost order: seq<Node>, ghost t0: Shape, ghost lo: int, ghost hi: int, ghost k: int)
    returns (ghost t: Shape)
    requires Rep(order, t0, lo, hi) && lo <= k < hi && order[k] == n
    modifies Nodes(order, lo, hi)
    ensures Rep(order, t, lo, hi) && n.up == null && t[k].up == -1
  {
    t := t0;
    while n.up != null
      invariant Rep(order, t, lo, hi)
      decreases hi - lo - Size(t, k)
    {
      TopIsLargest(order, t, lo, hi, k);
      hide Rep;
      var p := n.up;
      if n == p.left {
        if p.up == null {
          t := ZigRight(n, order, t, lo, hi, k);
        } else if p == p.up.left {
          t := ZigZigRight(n, order, t, lo, hi, k);
        } else {
          t := ZigZagRight(n, order, t, lo, hi, k);
        }
      } else {
        if p.up == null {
          t := ZigLeft(n, order, t, lo, hi, k);
        } else if p == p.up.right {
          t := ZigZigLeft(n, order, t, lo, hi, k);
        } else {
          t := ZigZagLeft(n, order, t, lo, hi, k);
        }
      }
    }
    Around(order, t, lo, hi, k);
  }

  lemma TopIsLargest(order: seq<Node>, t: Shape, lo: int, hi: int, k: int)
    requires Rep(order, t, lo, hi) && lo <= k < hi && order[k].up != null
    ensures |order| == |t| && Size(t, k) <= hi - lo
    ensures order[k] == order[k].up.left || order[k] == order[k].up.right
    ensures order[k].up.left == order[k] ==> order[k].up.right != order[k]
  {
    Around(order, t, lo, hi, k);
    Around(order, t, lo, hi, t[k].up);
    Smaller(t, lo, hi, t[k].up);
  }

  // ---------- adding a leaf ----------

  function InsertAt<T>(a: seq<T>, k: int, x: T): (r: seq<T>)
    requires 0 <= k <= |a|
    ensures |r| == |a| + 1 && r[k] == x
    ensures forall i {:trigger After(i, k)} | 0 <= i < |a| :: r[After(i, k)] == a[i]
  {
    a[..k] + [x] + a[k..]
  }

  lemma InsertDistinct(order: seq<Node>, k: int, e: Node)
    requires Distinct(order) && 0 <= k <= |order| && e !in order
    ensures Distinct(InsertAt(order, k, e))
  {
  }

  /** The links are those of the shape, except that the new leaf e hangs on the right of node i. */
  ghost predicate LinkedButRight(order: seq<Node>, t: Shape, i: int, e: Node)
    requires |order| == |t|
    reads order
  {
    forall j | 0 <= j < |order| ::
      order[j].left == Ref(order, t[j].left) && order[j].up == Ref(order, t[j].up)
      && order[j].right == if j == i then e else Ref(order, t[j].right)
  }

  lemma RightAdded(order: seq<Node>, t: Shape, i: int, e: Node)
    requires Distinct(order) && |order| == |t| && Tree(t, 0, |t|)
    requires 0 <= i < |order| && t[i].right == -1 && e !in order && LinkedButRight(order, t, i, e)
    requires e.left == null && e.right == null && e.up == order[i]
    ensures Rep(InsertAt(order, i + 1, e), AddRight(t, i), 0, |order| + 1)
  {
    var o, r := InsertAt(order, i + 1, e), AddRight(t, i);
    AddRightIsTree(t, i);
    InsertDistinct(order, i + 1, e);
    AddedRef(order, i + 1, e);
    hide InsertAt, AddRight, Tree, Distinct;
    assert o[After(i, i + 1)] == order[i];
    forall j | 0 <= j < |o| ensures NodeLinked(o, r, j) {
      if j != i + 1 {
        var x := Before(j, i + 1);
        assert After(x, i + 1) == j;
        LinksInRange(t, 0, |t|, x);
      }
    }
  }

  /** The links are those of the shape, except that the new leaf e hangs on the left of node i. */
  ghost predicate LinkedButLeft(order: seq<Node>, t: Shape, i: int, e: Node)
    requires |order| == |t|
    reads order
  {
    forall j | 0 <= j < |order| ::
      order[j].right == Ref(order, t[j].right) && order[j].up == Ref(order, t[j].up)
      && order[j].left == if j == i then e else Ref(order, t[j].left)
  }

  lemma LeftAdded(order: seq<Node>, t: Shape, i: int, e: Node)
    requires Distinct(order) && |order| == |t| && Tree(t, 0, |t|)
    requires 0 <= i < |order| && t[i].left == -1 && e !in order && LinkedButLeft(order, t, i, e)
    requires e.left == null && e.right == null && e.up == order[i]
    ensures Rep(InsertAt(order, i, e), AddLeft(t, i), 0, |order| + 1)
  {
    var o, r := InsertAt(order, i, e), AddLeft(t, i);
    AddLeftIsTree(t, i);
    InsertDistinct(order, i, e);
    AddedRef(order, i, e);
    hide InsertAt, AddLeft, Tree, Distinct;
    assert o[After(i, i)] == order[i];
    forall j | 0 <= j < |o| ensures NodeLinked(o, r, j) {
      if j != i {
        var x := Before(j, i);
        assert After(x, i) == j;
        LinksInRange(t, 0, |t|, x);
      }
    }
  }

  method LinkRight(n: Node, e: Node, ghost order: seq<Node>, ghost t: Shape, ghost i: int)
    requires Rep(order, t, 0, |order|) && 0 <= i < |order| && n == order[i] && t[i].right == -1
    requires e !in order && e.left == null && e.right == null
    modifies n, e
    ensures Rep(InsertAt(order, i + 1, e), AddRight(t, i), 0, |order| + 1)
  {
    hide Tree, InsertAt, AddRight;
    n.right := e;
    e.up := n;
    forall j | 0 <= j < |order|
      ensures order[j].left == Ref(order, t[j].left) && order[j].up == Ref(order, t[j].up)
      ensures order[j].right == if j == i then e else Ref(order, t[j].right)
    {
      assert old(NodeLinked(order, t, j));
    }
    RightAdded(order, t, i, e);
  }

  method LinkLeft(n: Node, e: Node, ghost order: seq<Node>, ghost t: Shape, ghost i: int)
    requires Rep(order, t, 0, |order|) && 0 <= i < |order| && n == order[i] && t[i].left == -1
    requires e !in order && e.left == null && e.right == null
    modifies n, e
    ensures Rep(InsertAt(order, i, e), AddLeft(t, i), 0, |order| + 1)
  {
    hide Tree, InsertAt, AddLeft;
    n.left := e;
    e.up := n;
    forall j | 0 <= j < |order|
      ensures order[j].right == Ref(order, t[j].right) && order[j].up == Ref(order, t[j].up)
      ensures order[j].left == if j == i then e else Ref(order, t[j].left)
    {
      assert old(NodeLinked(order, t, j));
    }
    LeftAdded(order, t, i, e);
  }

  /** Links of old nodes lead to the same nodes as before, whose positions have moved. */
  lemma AddedRef(order: seq<Node>, k: int, e: Node)
    requires 0 <= k <= |order|
    ensures var o := InsertAt(order, k, e); forall c | -1 <= c < |order| :: Ref(o, After(c, k)) == Ref(order, c)
  {
  }

  // ---------- taking a node out ----------

  function RemoveAt<T>(a: seq<T>, k: int): (r: seq<T>)
    requires 0 <= k < |a|
    ensures |r| == |a| - 1
    ensures forall i {:trigger Before(i, k)} | 0 <= i < |a| && i != k :: r[Before(i, k)] == a[i]
  {
    a[..k] + a[k + 1..]
  }

  lemma RemoveDistinct(order: seq<Node>, k: int)
    requires Distinct(order) && 0 <= k < |order|
    ensures Distinct(RemoveAt(order, k)) && order[k] !in RemoveAt(order, k)
  {
    var r := RemoveAt(order, k);
    assert forall j | 0 <= j < |r| :: r[j] == order[After(j, k)];
  }

  lemma RemovedRef(order: seq<Node>, k: int)
    requires 0 <= k < |order|
    ensures var o := RemoveAt(order, k); forall c | -1 <= c < |order| && c != k :: Ref(o, Before(c, k)) == Ref(order, c)
  {
  }

  /** Every link is that of the shape, but where the shape leads to k the link leads past it. */
  ghost predicate LinkedPast(order: seq<Node>, t: Shape, k: int)
    requires 0 <= k < |order| == |t|
    reads order
  {
    forall i | 0 <= i < |order| && i != k :: NodePast(order, t, k, i)
  }

  ghost predicate NodePast(order: seq<Node>, t: Shape, k: int, i: int)
    requires 0 <= k < |order| == |t| && 0 <= i < |order|
    reads order[i]
  {
    && order[i].left == Ref(order, if t[i].left == k then OnlyChild(t[k]) else t[i].left)
    && order[i].right == Ref(order, if t[i].right == k then OnlyChild(t[k]) else t[i].right)
    && order[i].up == Ref(order, if t[i].up == k then t[k].up else t[i].up)
  }

  lemma LinksInRange(t: Shape, lo: int, hi: int, i: int)
    requires Tree(t, lo, hi) && lo <= i < hi
    ensures -1 <= t[i].left < hi && -1 <= t[i].right < hi && -1 <= t[i].up < hi
    ensures t[i].left != i && t[i].right != i && t[i].up != i
    ensures t[i].left != -1 ==> t[i].left != t[i].up
    ensures t[i].right != -1 ==> t[i].right != t[i].up
  {
    Smaller(t, lo, hi, i);
  }

  lemma NodeRemoved(order: seq<Node>, t: Shape, k: int)
    requires Distinct(order) && |order| == |t| && Tree(t, 0, |t|) && 0 <= k < |order|
    requires (t[k].left == -1 || t[k].right == -1) && LinkedPast(order, t, k)
    ensures Rep(RemoveAt(order, k), Remove(t, k), 0, |order| - 1)
  {
    var o, r := RemoveAt(order, k), Remove(t, k);
    RemoveIsTree(t, k);
    RemoveDistinct(order, k);
    RemovedRef(order, k);
    LinksInRange(t, 0, |t|, k);
    hide RemoveAt, Remove, Tree, Distinct;
    forall j | 0 <= j < |o| ensures NodeLinked(o, r, j) {
      var x := After(j, k);
      assert Before(x, k) == j;
      LinksInRange(t, 0, |t|, x);
      assert NodePast(order, t, k, x);
    }
  }

  /** Where the links of the neighbours of k lead. */
  lemma Bypassed(order: seq<Node>, t: Shape, k: int)
    requires Rep(order, t, 0, |order|) && 0 <= k < |order| && (t[k].left == -1 || t[k].right == -1)
    ensures Neighbours(order, t, 0, |order|, k)
    ensures var c, u := OnlyChild(t[k]), t[k].up;
      && (c != -1 ==> t[c].up == k && c != u && order[c].up == order[k])
      && (u != -1 ==> (t[u].left == k) != (t[u].right == k) && order[u] != order[k])
      && (u != -1 ==> (order[u].left == order[k] <==> t[u].left == k))
      && (forall i | 0 <= i < |order| && i != u && i != k :: t[i].left != k && t[i].right != k)
      && (forall i | 0 <= i < |order| && i != c && i != k :: t[i].up != k)
  {
    Around(order, t, 0, |order|, k);
    Smaller(t, 0, |t|, k);
    if t[k].up != -1 {
      Around(order, t, 0, |order|, t[k].up);
      Smaller(t, 0, |t|, t[k].up);
    }
    forall i | 0 <= i < |order| && i != k
      ensures (t[i].left == k || t[i].right == k) ==> i == t[k].up
      ensures t[i].up == k ==> i == OnlyChild(t[k])
    {
      Smaller(t, 0, |t|, i);
    }
    if OnlyChild(t[k]) != -1 {
      Around(order, t, 0, |order|, OnlyChild(t[k]));
    }
  }

  /** The links around a node with at most one child, n, as tw_pq_delete_any changes them. */
  method Bypass(r: Node, n: Node?, ghost order: seq<Node>, ghost t: Shape, ghost k: int)
    requires Rep(order, t, 0, |order|) && 0 <= k < |order| && r == order[k]
    requires (t[k].left == -1 || t[k].right == -1) && n == Ref(order, OnlyChild(t[k]))
    modifies Nodes(order, 0, |order|)
    ensures Rep(RemoveAt(order, k), Remove(t, k), 0, |order| - 1)
    ensures r.left == old(r.left) && r.right == old(r.right) && r.up == old(r.up)
  {
    Bypassed(order, t, k);
    hide Tree, RemoveAt, Remove, Distinct;
    if n != null {
      n.up := r.up;
    }
    var p := r.up;
    if p != null {
      if r == p.left {
        p.left := n;
      } else {
        p.right := n;
      }
    }
    forall i | 0 <= i < |order| && i != k
      ensures NodePast(order, t, k, i)
    {
      assert old(NodeLinked(order, t, i));
    }
    NodeRemoved(order, t, k);
  }

  /** The links around the least node as tw_pq_dequeue changes them. */
  method TakeLeast(r: Node, ghost order: seq<Node>, ghost t: Shape)
    requires Rep(order, t, 0, |order|) && |order| > 0 && r == order[0]
    modifies Nodes(order, 0, |order|)
    ensures t[0].left == -1 && Rep(RemoveAt(order, 0), Remove(t, 0), 0, |order| - 1)
    ensures r.left == old(r.left) && r.right == old(r.right) && r.up == old(r.up)
  {
    TreeHas(t, 0, |t|, 0);
    Bypassed(order, t, 0);
    if t[0].up != -1 {
      TreeHas(t, 0, |t|, t[0].up);
    }
    hide Tree, RemoveAt, Remove, Distinct;
    var p, tmp := r.up, r.right;
    if p != null {
      if tmp != null {
        p.left := tmp;
        tmp.up := p;
      } else {
        p.left := null;
      }
    } else if tmp != null {
      tmp.up := null;
    }
    forall i | 0 <= i < |order| && i != 0
      ensures NodePast(order, t, 0, i)
    {
      assert old(NodeLinked(order, t, i));
    }
    NodeRemoved(order, t, 0);
  }

  /** The way down to the first node of a tree from one whose subtree starts with it. */
  method Leftmost(n: Node, ghost order: seq<Node>, ghost t: Shape, ghost lo: int, ghost hi: int, ghost k: int)
    returns (m: Node)
    requires Rep(order, t, lo, hi) && lo <= k < hi && n == order[k] && t[k].lo == lo
    ensures m == order[lo] && Rep(order, t, lo, hi)
  {
    m := n;
    ghost var i := k;
    while true
      invariant lo <= i < hi && m == order[i] && t[i].lo == lo
      decreases Size(t, i)
    {
      Around(order, t, lo, hi, i);
      Smaller(t, lo, hi, i);
      if m.left == null {
        return;
      }
      m := m.left;
      i := t[i].left;
    }
  }

  /** The way down to the last. */
  method Rightmost(n: Node, ghost order: seq<Node>, ghost t: Shape, ghost lo: int, ghost hi: int, ghost k: int)
    returns (m: Node)
    requires Rep(order, t, lo, hi) && lo <= k < hi && n == order[k] && t[k].hi == hi
    ensures m == order[hi - 1] && Rep(order, t, lo, hi)
  {
    m := n;
    ghost var i := k;
    while true
      invariant lo <= i < hi && m == order[i] && t[i].hi == hi
      decreases Size(t, i)
    {
      Around(order, t, lo, hi, i);
      Smaller(t, lo, hi, i);
      if m.right == null {
        return;
      }
      m := m.right;
      i := t[i].right;
    }
  }

  /** A node with two children is replaced by its predecessor, splayed to the top of the left subtree. */
  ghost function Joined(t: Shape, s: Shape, k: int): (r: Shape)
    requires 0 < k < |t| == |s| && 0 <= t[k].lo < k
    ensures |r| == |t|
  {
    RotateRight(Grafted(t, s, t[k].lo, k, k - 1), k - 1)
  }

  lemma JoinedIsTree(t: Shape, s: Shape, k: int)
    requires Tree(t, 0, |t|) && 0 < k < |t| == |s| && t[k].left != -1 && 0 <= t[k].lo < k
    requires Tree(s, t[k].lo, k) && s[k - 1].up == -1
    ensures var r, u := Joined(t, s, k), t[k].up;
      && Tree(r, 0, |t|) && Links(r[k], -1, t[k].right, k - 1) && Links(r[k - 1], s[k - 1].left, k, u)
      && u != k - 1 && (u != -1 ==> 0 <= u < |t| && !(t[k].lo <= u <= k))
      && forall i {:trigger r[i]} | 0 <= i < |t| && i != k && i != k - 1 ::
           && r[i].up == (if t[k].lo <= i < k then s[i].up else t[i].up)
           && r[i].left == (if i == u && t[i].left == k then k - 1
                            else if t[k].lo <= i < k then s[i].left else t[i].left)
           && r[i].right == (if i == u && t[i].left != k then k - 1
                             else if t[k].lo <= i < k then s[i].right else t[i].right)
  {
    var lo, g := t[k].lo, Grafted(t, s, t[k].lo, k, k - 1);
    GraftIsTree(t, s, k, k - 1);
    TreeHas(s, lo, k, k - 1);
    TreeHas(t, 0, |t|, k);
    OutsideLinks(t, k, k);
    hide Tree;
    RotateRightIsTree(g, 0, |t|, k - 1);
    hide Grafted, RotateRight;
  }

  lemma RepParts(order: seq<Node>, t: Shape, lo: int, hi: int)
    requires Rep(order, t, lo, hi)
    ensures |order| == |t| && Distinct(order) && Tree(t, lo, hi) && 0 <= lo <= hi <= |order| && Linked(order, t, lo, hi)
  {
  }

  /** The left subtree of k, cut off and with its last node splayed to its top. */
  method SplayLeft(r: Node, ghost order: seq<Node>, ghost t: Shape, ghost k: int) returns (n: Node, ghost s: Shape)
    requires Rep(order, t, 0, |order|) && 0 <= k < |order| && r == order[k] && r.left != null
    modifies Nodes(order, 0, k)
    ensures 0 <= t[k].lo < k && n == order[k - 1] && |s| == |t| && Tree(s, t[k].lo, k) && s[k - 1].up == -1
    ensures Linked(order, s, t[k].lo, k)
    ensures forall i | 0 <= i < |order| && !(t[k].lo <= i < k) :: NodeLinked(order, t, i)
  {
    ghost var lo, c, N := t[k].lo, t[k].left, |order|;
    Around(order, t, 0, N, k);
    TreeHas(t, 0, N, c);
    CutIsTree(t, k);
    ghost var a := SetUp(t, c, -1);
    hide Tree, SetUp, Distinct;
    assert forall i | 0 <= i < N :: NodeLinked(order, t, i);
    n := r.left;
    n.up := null;
    forall i | lo <= i < k ensures NodeLinked(order, a, i) {
      assert old(NodeLinked(order, t, i));
      Smaller(t, 0, N, i);
    }
    forall i | 0 <= i < N && !(lo <= i < k) ensures NodeLinked(order, t, i) {
      assert old(NodeLinked(order, t, i));
    }
    assert Rep(order, a, lo, k);
    hide Rep, NodeLinked;
    n := Rightmost(n, order, a, lo, k, c);
    s := Splay(n, order, a, lo, k, k - 1);
    RepParts(order, s, lo, k);
  }

  /** n gets r's right subtree and takes r's place below r's parent. */
  method TakeOver(r: Node, n: Node)
    requires r != n && r.right != null && r.right !in {r, n} && r.up !in {r, n, r.right}
    requires r.up != null ==> (r.up.left == r) != (r.up.right == r)
    modifies n, r.right, r.up
    ensures n.left == old(n.left) && n.right == old(r.right) && n.up == old(r.up)
    ensures var tmp := old(r.right); tmp.up == n && tmp.left == old(tmp.left) && tmp.right == old(tmp.right)
    ensures var p := old(r.up); p != null ==>
      && p.up == old(p.up) && p.left == (if old(p.left) == r then n else old(p.left))
      && p.right == (if old(p.left) == r then old(p.right) else n)
  {
    var tmp := r.right;
    n.right := tmp;
    tmp.up := n;
    n.up := r.up;
    var p := r.up;
    if p != null {
      if r == p.left {
        p.left := n;
      } else {
        p.right := n;
      }
    }
  }

  /** The predecessor n of r, on top of r's left subtree, takes over r's right subtree and r's parent. */
  method Join(r: Node, n: Node, ghost order: seq<Node>, ghost t: Shape, ghost s: Shape, ghost k: int)
    returns (ghost j: Shape)
    requires Distinct(order) && |order| == |t| == |s| && Tree(t, 0, |t|) && 0 < k < |t| && t[k].left != -1
    requires t[k].right != -1
    requires 0 <= t[k].lo < k && Tree(s, t[k].lo, k) && s[k - 1].up == -1 && r == order[k] && n == order[k - 1]
    requires Linked(order, s, t[k].lo, k)
    requires forall i | 0 <= i < |order| && !(t[k].lo <= i < k) :: NodeLinked(order, t, i)
    modifies Nodes(order, 0, |order|)
    ensures |j| == |t| && Tree(j, 0, |t|) && Links(j[k], -1, t[k].right, k - 1) && LinkedPast(order, j, k)
    ensures j[k - 1].up == t[k].up && r.up == old(r.up)
  {
    TreeHas(t, 0, |t|, k);
    LinksInRange(t, 0, |t|, k);
    Bypassed2(order, t, k);
    JoinedIsTree(t, s, k);
    j := Joined(t, s, k);
    assert NodeLinked(order, t, k);
    assert t[k].up != -1 ==> NodeLinked(order, t, t[k].up);
    hide Joined, Tree;
    TakeOver(r, n);
    forall i | 0 <= i < |order| && i != k ensures NodePast(order, j, k, i) {
      if t[k].lo <= i < k {
        assert old(NodeLinked(order, s, i));
        LinksInRange(s, t[k].lo, k, i);
      } else {
        assert old(NodeLinked(order, t, i));
      }
    }
  }

  /** A node with two children gives way to its predecessor, as tw_pq_delete_any does it. */
  method BypassTwo(r: Node, ghost order: seq<Node>, ghost t: Shape, ghost k: int) returns (n: Node, ghost j: Shape)
    requires Rep(order, t, 0, |order|) && 0 <= k < |order| && r == order[k] && r.left != null && r.right != null
    modifies Nodes(order, 0, |order|)
    ensures 0 < k && n == order[k - 1] && |j| == |t| && j[k - 1].up == t[k].up
    ensures j[k].left == -1 && Rep(RemoveAt(order, k), Remove(j, k), 0, |order| - 1)
    ensures r.up == old(r.up)
  {
    Around(order, t, 0, |order|, k);
    RepParts(order, t, 0, |order|);
    hide Tree, Rep, RemoveAt, Remove;
    ghost var s;
    assert forall x <- Nodes(order, 0, k) :: x in Nodes(order, 0, |order|);
    n, s := SplayLeft(r, order, t, k);
    j := Join(r, n, order, t, s, k);
    NodeRemoved(order, j, k);
  }

  lemma Bypassed2(order: seq<Node>, t: Shape, k: int)
    requires |order| == |t| && Tree(t, 0, |t|) && 0 <= k < |order| && t[k].left != -1
    ensures t[k].right != -1 ==> 0 <= t[k].right < |t| && t[t[k].right].up == k
    ensures forall i | 0 <= i < |order| && i != k && !(t[k].lo <= i < k) && i != t[k].right :: t[i].up != k
    ensures forall i | 0 <= i < |order| && i != k && i != t[k].up :: t[i].left != k && t[i].right != k
    ensures t[k].up != -1 ==> 0 <= t[k].up < |t| && (t[t[k].up].left == k) != (t[t[k].up].right == k)
  {
    Smaller(t, 0, |t|, k);
    TreeHas(t, 0, |t|, k);
    TreeHas(t, 0, |t|, t[k].left);
    forall i | 0 <= i < |order| && i != k
      ensures (t[i].left == k || t[i].right == k) ==> i == t[k].up
      ensures t[i].up == k ==> i == t[k].left || i == t[k].right
    {
      Smaller(t, 0, |t|, i);
    }
    if t[k].up != -1 {
      Smaller(t, 0, |t|, t[k].up);
    }
  }
}
