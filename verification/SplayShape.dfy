/** Binary trees over a fixed in-order sequence: nodes are named by their position in it, and each knows the stretch of
    positions its subtree takes up. */
module SplayShape {
  /** Links are positions, -1 for none; the subtree takes up the positions from lo up to hi. */
  datatype Rec = Rec(left: int, right: int, up: int, lo: int, hi: int)

  type Shape = seq<Rec>

  /** Node i is linked to its children and parent, and its subtree is what they leave it. */
  predicate NodeOk(t: Shape, lo: int, hi: int, i: int)
    requires 0 <= lo <= i < hi <= |t|
  {
    var n := t[i];
    && lo <= n.lo <= i < n.hi <= hi
    && (if n.left == -1 then n.lo == i
        else lo <= n.left < i && t[n.left].up == i && t[n.left].lo == n.lo && t[n.left].hi == i)
    && (if n.right == -1 then n.hi == i + 1
        else i < n.right < hi && t[n.right].up == i && t[n.right].lo == i + 1 && t[n.right].hi == n.hi)
    && (if n.up == -1 then n.lo == lo && n.hi == hi
        else lo <= n.up < hi && (t[n.up].left == i || t[n.up].right == i))
  }

  /** The positions from lo up to hi make up one tree. */
  ghost predicate Tree(t: Shape, lo: int, hi: int) {
    0 <= lo <= hi <= |t| && forall i | lo <= i < hi :: NodeOk(t, lo, hi, i)
  }

  /** The positions met walking the subtree of node i from left to right. */
  function InOrder(t: Shape, lo: int, hi: int, i: int): seq<int>
    requires 0 <= lo <= hi <= |t| && lo <= i < hi && forall j | lo <= j < hi :: NodeOk(t, lo, hi, j)
    decreases t[i].hi - t[i].lo
  {
    assert NodeOk(t, lo, hi, i);
    (if t[i].left == -1 then [] else InOrder(t, lo, hi, t[i].left)) + [i]
    + (if t[i].right == -1 then [] else InOrder(t, lo, hi, t[i].right))
  }

  /** The positions are in order: a walk from left to right meets exactly a subtree's stretch, one after the other. */
  lemma {:induction false} InOrderIsOrder(t: Shape, lo: int, hi: int, i: int)
    requires Tree(t, lo, hi) && lo <= i < hi
    ensures |InOrder(t, lo, hi, i)| == t[i].hi - t[i].lo
    ensures forall k | 0 <= k < t[i].hi - t[i].lo :: InOrder(t, lo, hi, i)[k] == t[i].lo + k
    decreases t[i].hi - t[i].lo
  {
    assert NodeOk(t, lo, hi, i);
    if t[i].left != -1 {
      InOrderIsOrder(t, lo, hi, t[i].left);
    }
    if t[i].right != -1 {
      InOrderIsOrder(t, lo, hi, t[i].right);
    }
  }

  // ---------- rotations ----------

  function Size(t: Shape, i: int): int
    requires 0 <= i < |t|
  {
    t[i].hi - t[i].lo
  }

  function SetUp(t: Shape, i: int, up: int): (r: Shape)
    ensures |r| == |t|
    ensures forall j {:trigger r[j]} | 0 <= j < |t| :: r[j] == if j == i then t[j].(up := up) else t[j]
  {
    if 0 <= i < |t| then t[i := t[i].(up := up)] else t
  }

  /** The parent i has child old replaced by child new. */
  function SetChild(t: Shape, i: int, old_: int, new_: int): (r: Shape)
    ensures |r| == |t|
    ensures forall j {:trigger r[j]} | 0 <= j < |t| ::
      r[j] == if j != i then t[j] else if t[j].left == old_ then t[j].(left := new_) else t[j].(right := new_)
  {
    if 0 <= i < |t| then t[i := if t[i].left == old_ then t[i].(left := new_) else t[i].(right := new_)] else t
  }

  /** n, the left child of p, takes the place of p, which becomes its right child. */
  function RotateRight(t: Shape, n: int): (r: Shape)
    requires 0 <= n < |t| && 0 <= t[n].up < |t|
    ensures |r| == |t|
  {
    var p, b := t[n].up, t[n].right;
    var g := t[p].up;
    var s := SetChild(SetUp(t, b, p), g, p, n);
    s[n := s[n].(right := p, up := g, hi := t[p].hi)][p := s[p].(left := b, up := n, lo := n + 1)]
  }

  /** The mirror image. */
  function RotateLeft(t: Shape, n: int): (r: Shape)
    requires 0 <= n < |t| && 0 <= t[n].up < |t|
    ensures |r| == |t|
  {
    var p, b := t[n].up, t[n].left;
    var g := t[p].up;
    var s := SetChild(SetUp(t, b, p), g, p, n);
    s[n := s[n].(left := p, up := g, lo := t[p].lo)][p := s[p].(right := b, up := n, hi := n)]
  }

  /** n is a left (right) child. */
  predicate IsLeft(t: Shape, n: int) {
    0 <= n < |t| && 0 <= t[n].up < |t| && t[t[n].up].left == n
  }

  predicate IsRight(t: Shape, n: int) {
    0 <= n < |t| && 0 <= t[n].up < |t| && t[t[n].up].right == n
  }

  /** What a right rotation at n, below p with grandparent g, makes of each node; b is the subtree that changes
      sides. */
  predicate RotatedRight(t: Shape, r: Shape, n: int, p: int, g: int, b: int)
    requires 0 <= n < |t| == |r| && 0 <= p < |t|
  {
    && r[n] == t[n].(right := p, up := g, hi := t[p].hi) && r[p] == t[p].(left := b, up := n, lo := n + 1)
    && forall i {:trigger r[i]} | 0 <= i < |t| && i != n && i != p ::
         r[i] == if i == b then t[i].(up := p)
                 else if i != g then t[i] else if t[i].left == p then t[i].(left := n) else t[i].(right := n)
  }

  lemma RotateRightFacts(t: Shape, n: int)
    requires 0 <= n < |t| && 0 <= t[n].up < |t| && t[n].up != n
    requires t[n].right != n && t[n].right != t[n].up && t[t[n].up].up !in {n, t[n].up}
    requires t[n].right != -1 ==> t[n].right != t[t[n].up].up
    ensures RotatedRight(t, RotateRight(t, n), n, t[n].up, t[t[n].up].up, t[n].right)
  {
  }

  predicate BeforeRight(t: Shape, r: Shape, lo: int, hi: int, n: int, p: int, g: int, b: int) {
    && 0 <= lo <= hi <= |t| == |r| && lo <= n < hi && lo <= p < hi
    && t[n].up == p && t[p].left == n && t[p].up == g && t[n].right == b && RotatedRight(t, r, n, p, g, b)
    && NodeOk(t, lo, hi, n) && NodeOk(t, lo, hi, p)
    && (g != -1 ==> lo <= g < hi && NodeOk(t, lo, hi, g)) && (b != -1 ==> lo <= b < hi && NodeOk(t, lo, hi, b))
  }

  lemma RotateRightTop(t: Shape, r: Shape, lo: int, hi: int, n: int, p: int, g: int, b: int)
    requires BeforeRight(t, r, lo, hi, n, p, g, b)
    ensures NodeOk(r, lo, hi, n)
  {
  }

  lemma RotateRightParent(t: Shape, r: Shape, lo: int, hi: int, n: int, p: int, g: int, b: int)
    requires BeforeRight(t, r, lo, hi, n, p, g, b)
    ensures NodeOk(r, lo, hi, p)
  {
  }

  lemma RotateRightMoved(t: Shape, r: Shape, lo: int, hi: int, n: int, p: int, g: int, b: int)
    requires BeforeRight(t, r, lo, hi, n, p, g, b) && b != -1
    ensures NodeOk(r, lo, hi, b)
  {
  }

  lemma RotateRightGrand(t: Shape, r: Shape, lo: int, hi: int, n: int, p: int, g: int, b: int)
    requires BeforeRight(t, r, lo, hi, n, p, g, b) && g != -1
    ensures NodeOk(r, lo, hi, g)
  {
  }

  lemma RotateRightOther(t: Shape, r: Shape, lo: int, hi: int, n: int, p: int, g: int, b: int, i: int)
    requires BeforeRight(t, r, lo, hi, n, p, g, b) && lo <= i < hi && i !in {n, p, g, b} && NodeOk(t, lo, hi, i)
    ensures NodeOk(r, lo, hi, i)
  {
  }

  lemma RotateRightNode(t: Shape, r: Shape, lo: int, hi: int, n: int, p: int, g: int, b: int, i: int)
    requires BeforeRight(t, r, lo, hi, n, p, g, b) && lo <= i < hi && NodeOk(t, lo, hi, i)
    ensures NodeOk(r, lo, hi, i)
  {
    hide NodeOk, RotatedRight;
    if i == n {
      RotateRightTop(t, r, lo, hi, n, p, g, b);
    } else if i == p {
      RotateRightParent(t, r, lo, hi, n, p, g, b);
    } else if i == b {
      RotateRightMoved(t, r, lo, hi, n, p, g, b);
    } else if i == g {
      RotateRightGrand(t, r, lo, hi, n, p, g, b);
    } else {
      RotateRightOther(t, r, lo, hi, n, p, g, b, i);
    }
  }

  lemma RotateRightIsTree(t: Shape, lo: int, hi: int, n: int)
    requires Tree(t, lo, hi) && lo <= n < hi && IsLeft(t, n)
    ensures Size(t, n) < Size(RotateRight(t, n), n)
    ensures Tree(RotateRight(t, n), lo, hi) && RotatedRight(t, RotateRight(t, n), n, t[n].up, t[t[n].up].up, t[n].right)
  {
    var p := t[n].up;
    var g, b, r := t[p].up, t[n].right, RotateRight(t, n);
    assert NodeOk(t, lo, hi, n);
    assert NodeOk(t, lo, hi, p);
    if g != -1 {
      assert NodeOk(t, lo, hi, g);
    }
    if b != -1 {
      assert NodeOk(t, lo, hi, b);
    }
    hide RotateRight;
    RotateRightFacts(t, n);
    forall i | lo <= i < hi ensures NodeOk(r, lo, hi, i) {
      assert NodeOk(t, lo, hi, i);
      RotateRightNode(t, r, lo, hi, n, p, g, b, i);
    }
  }

  predicate RotatedLeft(t: Shape, r: Shape, n: int, p: int, g: int, b: int)
    requires 0 <= n < |t| == |r| && 0 <= p < |t|
  {
    && r[n] == t[n].(left := p, up := g, lo := t[p].lo) && r[p] == t[p].(right := b, up := n, hi := n)
    && forall i {:trigger r[i]} | 0 <= i < |t| && i != n && i != p ::
         r[i] == if i == b then t[i].(up := p)
                 else if i != g then t[i] else if t[i].left == p then t[i].(left := n) else t[i].(right := n)
  }

  lemma RotateLeftFacts(t: Shape, n: int)
    requires 0 <= n < |t| && 0 <= t[n].up < |t| && t[n].up != n
    requires t[n].left != n && t[n].left != t[n].up && t[t[n].up].up !in {n, t[n].up}
    requires t[n].left != -1 ==> t[n].left != t[t[n].up].up
    ensures RotatedLeft(t, RotateLeft(t, n), n, t[n].up, t[t[n].up].up, t[n].left)
  {
  }

  predicate BeforeLeft(t: Shape, r: Shape, lo: int, hi: int, n: int, p: int, g: int, b: int) {
    && 0 <= lo <= hi <= |t| == |r| && lo <= n < hi && lo <= p < hi
    && t[n].up == p && t[p].right == n && t[p].up == g && t[n].left == b && RotatedLeft(t, r, n, p, g, b)
    && NodeOk(t, lo, hi, n) && NodeOk(t, lo, hi, p)
    && (g != -1 ==> lo <= g < hi && NodeOk(t, lo, hi, g)) && (b != -1 ==> lo <= b < hi && NodeOk(t, lo, hi, b))
  }

  lemma RotateLeftTop(t: Shape, r: Shape, lo: int, hi: int, n: int, p: int, g: int, b: int)
    requires BeforeLeft(t, r, lo, hi, n, p, g, b)
    ensures NodeOk(r, lo, hi, n)
  {
  }

  lemma RotateLeftParent(t: Shape, r: Shape, lo: int, hi: int, n: int, p: int, g: int, b: int)
    requires BeforeLeft(t, r, lo, hi, n, p, g, b)
    ensures NodeOk(r, lo, hi, p)
  {
  }

  lemma RotateLeftMoved(t: Shape, r: Shape, lo: int, hi: int, n: int, p: int, g: int, b: int)
    requires BeforeLeft(t, r, lo, hi, n, p, g, b) && b != -1
    ensures NodeOk(r, lo, hi, b)
  {
  }

  lemma RotateLeftGrand(t: Shape, r: Shape, lo: int, hi: int, n: int, p: int, g: int, b: int)
    requires BeforeLeft(t, r, lo, hi, n, p, g, b) && g != -1
    ensures NodeOk(r, lo, hi, g)
  {
  }

  lemma RotateLeftOther(t: Shape, r: Shape, lo: int, hi: int, n: int, p: int, g: int, b: int, i: int)
    requires BeforeLeft(t, r, lo, hi, n, p, g, b) && lo <= i < hi && i !in {n, p, g, b} && NodeOk(t, lo, hi, i)
    ensures NodeOk(r, lo, hi, i)
  {
  }

  lemma RotateLeftNode(t: Shape, r: Shape, lo: int, hi: int, n: int, p: int, g: int, b: int, i: int)
    requires BeforeLeft(t, r, lo, hi, n, p, g, b) && lo <= i < hi && NodeOk(t, lo, hi, i)
    ensures NodeOk(r, lo, hi, i)
  {
    hide NodeOk, RotatedLeft;
    if i == n {
      RotateLeftTop(t, r, lo, hi, n, p, g, b);
    } else if i == p {
      RotateLeftParent(t, r, lo, hi, n, p, g, b);
    } else if i == b {
      RotateLeftMoved(t, r, lo, hi, n, p, g, b);
    } else if i == g {
      RotateLeftGrand(t, r, lo, hi, n, p, g, b);
    } else {
      RotateLeftOther(t, r, lo, hi, n, p, g, b, i);
    }
  }

  lemma RotateLeftIsTree(t: Shape, lo: int, hi: int, n: int)
    requires Tree(t, lo, hi) && lo <= n < hi && IsRight(t, n)
    ensures Size(t, n) < Size(RotateLeft(t, n), n)
    ensures Tree(RotateLeft(t, n), lo, hi) && RotatedLeft(t, RotateLeft(t, n), n, t[n].up, t[t[n].up].up, t[n].left)
  {
    var p := t[n].up;
    var g, b, r := t[p].up, t[n].left, RotateLeft(t, n);
    assert NodeOk(t, lo, hi, n);
    assert NodeOk(t, lo, hi, p);
    if g != -1 {
      assert NodeOk(t, lo, hi, g);
    }
    if b != -1 {
      assert NodeOk(t, lo, hi, b);
    }
    hide RotateLeft;
    RotateLeftFacts(t, n);
    forall i | lo <= i < hi ensures NodeOk(r, lo, hi, i) {
      assert NodeOk(t, lo, hi, i);
      RotateLeftNode(t, r, lo, hi, n, p, g, b, i);
    }
  }

  // ---------- double rotations ----------

  /** The links of three nodes are rearranged under their parent z, whose child was h and becomes k; two subtrees, b and
      c, get new parents. */
  predicate Relinked(t: Shape, r: Shape, k: int, q: int, h: int, z: int, b: int, upB: int, c: int, upC: int) {
    && |r| == |t|
    && forall i {:trigger r[i]} | 0 <= i < |t| && i !in {k, q, h} ::
         && r[i].up == (if i == b then upB else if i == c then upC else t[i].up)
         && r[i].left == (if i == z && t[i].left == h then k else t[i].left)
         && r[i].right == (if i == z && t[i].left != h then k else t[i].right)
  }

  predicate Links(n: Rec, left: int, right: int, up: int) {
    n.left == left && n.right == right && n.up == up
  }

  predicate SixApart(k: int, q: int, h: int, z: int, b: int, c: int) {
    && k != q && k != h && q != h && z !in {k, q, h} && b !in {k, q, h} && c !in {k, q, h}
    && (z != -1 ==> b != z && c != z) && (b != -1 ==> b != c)
  }

  /** A subtree is smaller than the one it hangs in. */
  lemma Smaller(t: Shape, lo: int, hi: int, i: int)
    requires Tree(t, lo, hi) && lo <= i < hi
    ensures t[i].left != -1 ==> lo <= t[i].left < hi && t[t[i].left].up == i && Size(t, t[i].left) < Size(t, i)
    ensures t[i].right != -1 ==> lo <= t[i].right < hi && t[t[i].right].up == i && Size(t, t[i].right) < Size(t, i)
    ensures t[i].left != -1 ==> t[i].left != t[i].right
    ensures t[i].up != -1 ==> lo <= t[i].up < hi && Size(t, i) < Size(t, t[i].up)
    ensures t[i].up != -1 ==> t[t[i].up].left == i || t[t[i].up].right == i
  {
    assert NodeOk(t, lo, hi, i);
    if t[i].up != -1 {
      assert NodeOk(t, lo, hi, t[i].up);
    }
  }

  /** n and its parent and grandparent, the great-grandparent, and two subtrees below the first two are six different
      nodes, as far as they exist. */
  lemma Apart(t: Shape, lo: int, hi: int, k: int, b: int, c: int)
    requires Tree(t, lo, hi) && lo <= k < hi && t[k].up != -1 && lo <= t[k].up < hi && t[t[k].up].up != -1
    requires b in {t[k].left, t[k].right} && c in {t[k].left, t[k].right, t[t[k].up].left, t[t[k].up].right} && c != k
    requires b != -1 ==> c != b
    ensures lo <= t[t[k].up].up < hi && SixApart(k, t[k].up, t[t[k].up].up, t[t[t[k].up].up].up, b, c)
    ensures t[t[t[k].up].up].up != -1 ==> lo <= t[t[t[k].up].up].up < hi
    ensures t[t[t[k].up].up].up != -1 ==> t[t[t[t[k].up].up].up].left !in {k, t[k].up}
  {
    var q := t[k].up;
    Smaller(t, lo, hi, k);
    Smaller(t, lo, hi, q);
    Smaller(t, lo, hi, t[q].up);
    if t[t[q].up].up != -1 {
      Smaller(t, lo, hi, t[t[q].up].up);
    }
    hide Tree;
  }

  /** Two right rotations in a row, first at q and then at its left child k. */
  lemma TwoRight(t: Shape, s: Shape, r: Shape, k: int, q: int, h: int, z: int, b: int, c: int)
    requires |t| == |s| == |r| && 0 <= k < |t| && 0 <= q < |t| && 0 <= h < |t| && SixApart(k, q, h, z, b, c)
    requires t[k].up == q && t[q].left == k && t[q].up == h && t[h].left == q && t[h].up == z && t[k].right == b
    requires t[q].right == c
    requires RotatedRight(t, s, q, h, z, c) && RotatedRight(s, r, k, q, z, b)
    requires 0 <= z < |t| ==> t[z].left !in {k, q}
    ensures Relinked(t, r, k, q, h, z, b, q, c, h)
    ensures Links(r[k], t[k].left, q, z) && Links(r[q], b, h, k) && Links(r[h], c, t[h].right, q)
  {
  }

  lemma ZigZigRightShape(t: Shape, lo: int, hi: int, k: int) returns (r: Shape)
    requires Tree(t, lo, hi) && lo <= k < hi && IsLeft(t, k) && IsLeft(t, t[k].up) && lo <= t[k].up < hi
    ensures Tree(r, lo, hi) && Size(t, k) < Size(r, k)
    ensures var q, h := t[k].up, t[t[k].up].up;
      var z, b, c := t[h].up, t[k].right, t[q].right;
      && SixApart(k, q, h, z, b, c) && Relinked(t, r, k, q, h, z, b, q, c, h)
      && Links(r[k], t[k].left, q, z) && Links(r[q], b, h, k) && Links(r[h], c, t[h].right, q)
  {
    hide NodeOk, Tree, RotateRight;
    var q, h := t[k].up, t[t[k].up].up;
    var z, b, c := t[h].up, t[k].right, t[q].right;
    ChildrenDiffer(t, lo, hi, k);
    Smaller(t, lo, hi, k);
    Smaller(t, lo, hi, q);
    Apart(t, lo, hi, k, b, c);
    RotateRightIsTree(t, lo, hi, q);
    var s := RotateRight(t, q);
    assert s[k].up == q && s[q].left == k && s[q].up == z && s[k].right == b && Size(s, k) == Size(t, k);
    RotateRightIsTree(s, lo, hi, k);
    r := RotateRight(s, k);
    hide RotatedRight, Relinked;
    TwoRight(t, s, r, k, q, h, z, b, c);
  }

  lemma ChildrenDiffer(t: Shape, lo: int, hi: int, k: int)
    requires Tree(t, lo, hi) && lo <= k < hi && t[k].up != -1 && lo <= t[k].up < hi
    ensures var q := t[k].up;
      && (t[q].left == k ==> t[q].right != k) && (t[k].left != -1 ==> t[k].left !in {t[q].left, t[q].right, t[k].right})
      && (t[k].right != -1 ==> t[k].right !in {t[q].left, t[q].right})
  {
    var q := t[k].up;
    Smaller(t, lo, hi, k);
    Smaller(t, lo, hi, q);
  }

  lemma TwoLeft(t: Shape, s: Shape, r: Shape, k: int, q: int, h: int, z: int, b: int, c: int)
    requires |t| == |s| == |r| && 0 <= k < |t| && 0 <= q < |t| && 0 <= h < |t| && SixApart(k, q, h, z, b, c)
    requires t[k].up == q && t[q].right == k && t[q].up == h && t[h].right == q && t[h].up == z && t[k].left == b
    requires t[q].left == c
    requires RotatedLeft(t, s, q, h, z, c) && RotatedLeft(s, r, k, q, z, b)
    requires 0 <= z < |t| ==> t[z].left !in {k, q}
    ensures Relinked(t, r, k, q, h, z, b, q, c, h)
    ensures Links(r[k], q, t[k].right, z) && Links(r[q], h, b, k) && Links(r[h], t[h].left, c, q)
  {
  }

  lemma ZigZigLeftShape(t: Shape, lo: int, hi: int, k: int) returns (r: Shape)
    requires Tree(t, lo, hi) && lo <= k < hi && IsRight(t, k) && IsRight(t, t[k].up) && lo <= t[k].up < hi
    ensures Tree(r, lo, hi) && Size(t, k) < Size(r, k)
    ensures var q, h := t[k].up, t[t[k].up].up;
      var z, b, c := t[h].up, t[k].left, t[q].left;
      && SixApart(k, q, h, z, b, c) && Relinked(t, r, k, q, h, z, b, q, c, h)
      && Links(r[k], q, t[k].right, z) && Links(r[q], h, b, k) && Links(r[h], t[h].left, c, q)
  {
    hide NodeOk, Tree, RotateLeft;
    var q, h := t[k].up, t[t[k].up].up;
    var z, b, c := t[h].up, t[k].left, t[q].left;
    ChildrenDiffer(t, lo, hi, k);
    Smaller(t, lo, hi, k);
    Smaller(t, lo, hi, q);
    Apart(t, lo, hi, k, b, c);
    RotateLeftIsTree(t, lo, hi, q);
    var s := RotateLeft(t, q);
    assert s[k].up == q && s[q].right == k && s[q].up == z && s[k].left == b && Size(s, k) == Size(t, k);
    RotateLeftIsTree(s, lo, hi, k);
    r := RotateLeft(s, k);
    hide RotatedLeft, Relinked;
    TwoLeft(t, s, r, k, q, h, z, b, c);
  }

  lemma RightThenLeft(t: Shape, s: Shape, r: Shape, k: int, q: int, h: int, z: int, b: int, c: int)
    requires |t| == |s| == |r| && 0 <= k < |t| && 0 <= q < |t| && 0 <= h < |t| && SixApart(k, q, h, z, b, c)
    requires t[k].up == q && t[q].left == k && t[q].up == h && t[h].right == q && t[h].left != q && t[h].up == z
    requires t[k].right == b && t[k].left == c && (0 <= z < |t| ==> t[z].left !in {k, q})
    requires RotatedRight(t, s, k, q, h, b) && RotatedLeft(s, r, k, h, z, c)
    ensures Relinked(t, r, k, q, h, z, b, q, c, h)
    ensures Links(r[k], h, q, z) && Links(r[q], b, t[q].right, k) && Links(r[h], t[h].left, c, k)
  {
  }

  lemma ZigZagRightShape(t: Shape, lo: int, hi: int, k: int) returns (r: Shape)
    requires Tree(t, lo, hi) && lo <= k < hi && IsLeft(t, k) && IsRight(t, t[k].up) && lo <= t[k].up < hi
    ensures Tree(r, lo, hi) && Size(t, k) < Size(r, k)
    ensures var q, h := t[k].up, t[t[k].up].up;
      var z, b, c := t[h].up, t[k].right, t[k].left;
      && SixApart(k, q, h, z, b, c) && Relinked(t, r, k, q, h, z, b, q, c, h)
      && Links(r[k], h, q, z) && Links(r[q], b, t[q].right, k) && Links(r[h], t[h].left, c, k)
  {
    hide NodeOk, Tree, RotateRight, RotateLeft;
    var q, h := t[k].up, t[t[k].up].up;
    var z, b, c := t[h].up, t[k].right, t[k].left;
    Smaller(t, lo, hi, k);
    Smaller(t, lo, hi, q);
    Smaller(t, lo, hi, h);
    Apart(t, lo, hi, k, b, c);
    RotateRightIsTree(t, lo, hi, k);
    var s := RotateRight(t, k);
    assert s[k].up == h && s[h].right == k && s[h].up == z && s[k].left == c;
    RotateLeftIsTree(s, lo, hi, k);
    r := RotateLeft(s, k);
    hide RotatedRight, RotatedLeft, Relinked;
    RightThenLeft(t, s, r, k, q, h, z, b, c);
  }

  lemma LeftThenRight(t: Shape, s: Shape, r: Shape, k: int, q: int, h: int, z: int, b: int, c: int)
    requires |t| == |s| == |r| && 0 <= k < |t| && 0 <= q < |t| && 0 <= h < |t| && SixApart(k, q, h, z, b, c)
    requires t[k].up == q && t[q].right == k && t[q].left != k && t[q].up == h && t[h].left == q && t[h].up == z
    requires t[k].left == b && t[k].right == c && (0 <= z < |t| ==> t[z].left !in {k, q})
    requires RotatedLeft(t, s, k, q, h, b) && RotatedRight(s, r, k, h, z, c)
    ensures Relinked(t, r, k, q, h, z, b, q, c, h)
    ensures Links(r[k], q, h, z) && Links(r[q], t[q].left, b, k) && Links(r[h], c, t[h].right, k)
  {
  }

  lemma ZigZagLeftShape(t: Shape, lo: int, hi: int, k: int) returns (r: Shape)
    requires Tree(t, lo, hi) && lo <= k < hi && IsRight(t, k) && IsLeft(t, t[k].up) && lo <= t[k].up < hi
    ensures Tree(r, lo, hi) && Size(t, k) < Size(r, k)
    ensures var q, h := t[k].up, t[t[k].up].up;
      var z, b, c := t[h].up, t[k].left, t[k].right;
      && SixApart(k, q, h, z, b, c) && Relinked(t, r, k, q, h, z, b, q, c, h)
      && Links(r[k], q, h, z) && Links(r[q], t[q].left, b, k) && Links(r[h], c, t[h].right, k)
  {
    hide NodeOk, Tree, RotateRight, RotateLeft;
    var q, h := t[k].up, t[t[k].up].up;
    var z, b, c := t[h].up, t[k].left, t[k].right;
    Smaller(t, lo, hi, k);
    Smaller(t, lo, hi, q);
    Smaller(t, lo, hi, h);
    Apart(t, lo, hi, k, b, c);
    RotateLeftIsTree(t, lo, hi, k);
    var s := RotateLeft(t, k);
    assert s[k].up == h && s[h].left == k && s[h].up == z && s[k].right == c;
    RotateRightIsTree(s, lo, hi, k);
    r := RotateRight(s, k);
    hide RotatedRight, RotatedLeft, Relinked;
    LeftThenRight(t, s, r, k, q, h, z, b, c);
  }

  // ---------- insertion and removal ----------

  function After(i: int, k: int): int {
    if i >= k then i + 1 else i
  }

  /** Node x once a leaf has been added next to n at position k. */
  function Moved(x: Rec, n: int, k: int): Rec {
    Rec(After(x.left, k), After(x.right, k), After(x.up, k),
        if x.lo > n then x.lo + 1 else x.lo, if x.hi > n then x.hi + 1 else x.hi)
  }

  /** A new leaf in position n + 1, the right child of n. */
  function AddRight(t: Shape, n: int): (r: Shape)
    requires 0 <= n < |t|
    ensures |r| == |t| + 1 && r[n + 1] == Rec(-1, -1, n, n + 1, n + 2)
    ensures forall i {:trigger After(i, n + 1)} | 0 <= i < |t| ::
      r[After(i, n + 1)] == if i == n then Moved(t[i], n, n + 1).(right := n + 1) else Moved(t[i], n, n + 1)
  {
    seq(|t| + 1, j requires 0 <= j <= |t| =>
      if j == n + 1 then Rec(-1, -1, n, n + 1, n + 2)
      else if j == n then Moved(t[n], n, n + 1).(right := n + 1)
      else Moved(t[if j > n then j - 1 else j], n, n + 1))
  }

  /** A new leaf in position n, the left child of what was n. */
  function AddLeft(t: Shape, n: int): (r: Shape)
    requires 0 <= n < |t|
    ensures |r| == |t| + 1 && r[n] == Rec(-1, -1, n + 1, n, n + 1)
    ensures forall i {:trigger After(i, n)} | 0 <= i < |t| ::
      r[After(i, n)] == if i == n then Moved(t[i], n, n).(left := n) else Moved(t[i], n, n)
  {
    seq(|t| + 1, j requires 0 <= j <= |t| =>
      if j == n then Rec(-1, -1, n + 1, n, n + 1)
      else if j == n + 1 then Moved(t[n], n, n).(left := n)
      else Moved(t[if j > n then j - 1 else j], n, n))
  }

  lemma AddRightNode(t: Shape, n: int, i: int)
    requires 0 <= n < |t| && t[n].right == -1 && 0 <= i < |t| && NodeOk(t, 0, |t|, n) && NodeOk(t, 0, |t|, i)
    ensures NodeOk(AddRight(t, n), 0, |t| + 1, After(i, n + 1))
  {
    var r, k := AddRight(t, n), n + 1;
    assert r[After(i, k)] == if i == n then Moved(t[i], n, k).(right := k) else Moved(t[i], n, k);
    assert t[i].left != -1 ==> r[After(t[i].left, k)].up == After(t[t[i].left].up, k);
    assert t[i].right != -1 ==> r[After(t[i].right, k)].up == After(t[t[i].right].up, k);
    assert t[i].up != -1 ==> After(t[i].up, k) >= 0;
    hide AddRight;
  }

  lemma AddRightIsTree(t: Shape, n: int)
    requires Tree(t, 0, |t|) && 0 <= n < |t| && t[n].right == -1
    ensures Tree(AddRight(t, n), 0, |t| + 1)
  {
    var r := AddRight(t, n);
    assert NodeOk(t, 0, |t|, n);
    hide NodeOk, AddRight;
    forall j | 0 <= j < |r| ensures NodeOk(r, 0, |r|, j) {
      if j == n + 1 {
        AddRightLeaf(t, n);
      } else {
        var i := if j > n then j - 1 else j;
        assert NodeOk(t, 0, |t|, i);
        AddRightNode(t, n, i);
      }
    }
  }

  lemma AddRightLeaf(t: Shape, n: int)
    requires 0 <= n < |t| && t[n].right == -1 && NodeOk(t, 0, |t|, n)
    ensures NodeOk(AddRight(t, n), 0, |t| + 1, n + 1)
  {
    assert AddRight(t, n)[After(n, n + 1)].right == n + 1;
  }

  lemma AddLeftNode(t: Shape, n: int, i: int)
    requires 0 <= n < |t| && t[n].left == -1 && 0 <= i < |t| && NodeOk(t, 0, |t|, n) && NodeOk(t, 0, |t|, i)
    ensures NodeOk(AddLeft(t, n), 0, |t| + 1, After(i, n))
  {
    var r := AddLeft(t, n);
    assert r[After(i, n)] == if i == n then Moved(t[i], n, n).(left := n) else Moved(t[i], n, n);
    assert t[i].left != -1 ==> r[After(t[i].left, n)].up == After(t[t[i].left].up, n);
    assert t[i].right != -1 ==> r[After(t[i].right, n)].up == After(t[t[i].right].up, n);
    assert t[i].up != -1 ==> After(t[i].up, n) >= 0;
    hide AddLeft;
  }

  lemma AddLeftIsTree(t: Shape, n: int)
    requires Tree(t, 0, |t|) && 0 <= n < |t| && t[n].left == -1
    ensures Tree(AddLeft(t, n), 0, |t| + 1)
  {
    var r := AddLeft(t, n);
    assert NodeOk(t, 0, |t|, n);
    hide NodeOk, AddLeft;
    forall j | 0 <= j < |r| ensures NodeOk(r, 0, |r|, j) {
      if j == n {
        AddLeftLeaf(t, n);
      } else {
        var i := if j > n then j - 1 else j;
        assert NodeOk(t, 0, |t|, i);
        AddLeftNode(t, n, i);
      }
    }
  }

  lemma AddLeftLeaf(t: Shape, n: int)
    requires 0 <= n < |t| && t[n].left == -1 && NodeOk(t, 0, |t|, n)
    ensures NodeOk(AddLeft(t, n), 0, |t| + 1, n)
  {
    assert AddLeft(t, n)[After(n, n)].left == n;
  }

  function Before(i: int, k: int): int {
    if i > k then i - 1 else i
  }

  /** Node x once node k, with parent u and only child c, has been taken out. */
  function Closed(x: Rec, k: int, c: int, u: int): Rec {
    Rec(Before(if x.left == k then c else x.left, k), Before(if x.right == k then c else x.right, k),
        Before(if x.up == k then u else x.up, k), Before(x.lo, k), Before(x.hi, k))
  }

  function OnlyChild(x: Rec): int {
    if x.left == -1 then x.right else x.left
  }

  /** Node k, which has at most one child, is replaced by that child. */
  function Remove(t: Shape, k: int): (r: Shape)
    requires 0 <= k < |t| && (t[k].left == -1 || t[k].right == -1)
    ensures |r| == |t| - 1
    ensures forall i {:trigger Before(i, k)} | 0 <= i < |t| && i != k ::
              r[Before(i, k)] == Closed(t[i], k, OnlyChild(t[k]), t[k].up)
  {
    seq(|t| - 1, j requires 0 <= j < |t| - 1 => Closed(t[After(j, k)], k, OnlyChild(t[k]), t[k].up))
  }

  /** What removing k, with only child c and parent u, makes of the other nodes. */
  predicate Removed(t: Shape, r: Shape, k: int, c: int, u: int) {
    && |r| == |t| - 1 && 0 <= k < |t|
    && forall i {:trigger Before(i, k)} | 0 <= i < |t| && i != k :: r[Before(i, k)] == Closed(t[i], k, c, u)
  }

  /** The links of i, which is neither child nor parent of k, survive. */
  lemma RemoveOther(t: Shape, r: Shape, k: int, c: int, u: int, i: int)
    requires Removed(t, r, k, c, u) && 0 <= k < |t| && 0 <= i < |t| && i != k
    requires NodeOk(t, 0, |t|, i) && t[i].left != k && t[i].right != k && t[i].up != k
    ensures NodeOk(r, 0, |r|, Before(i, k))
  {
    assert r[Before(i, k)] == Closed(t[i], k, c, u);
    assert t[i].left != -1 ==> r[Before(t[i].left, k)] == Closed(t[t[i].left], k, c, u);
    assert t[i].right != -1 ==> r[Before(t[i].right, k)] == Closed(t[t[i].right], k, c, u);
    assert t[i].up != -1 ==> r[Before(t[i].up, k)] == Closed(t[t[i].up], k, c, u);
  }

  lemma RemoveChild(t: Shape, r: Shape, k: int)
    requires 0 <= k < |t| && (t[k].left == -1 || t[k].right == -1) && NodeOk(t, 0, |t|, k)
    requires var c := OnlyChild(t[k]); Removed(t, r, k, c, t[k].up) && 0 <= c < |t| && NodeOk(t, 0, |t|, c)
    ensures NodeOk(r, 0, |r|, Before(OnlyChild(t[k]), k))
  {
    var c, u := OnlyChild(t[k]), t[k].up;
    assert r[Before(c, k)] == Closed(t[c], k, c, u);
    assert t[c].left != -1 ==> r[Before(t[c].left, k)] == Closed(t[t[c].left], k, c, u);
    assert t[c].right != -1 ==> r[Before(t[c].right, k)] == Closed(t[t[c].right], k, c, u);
    assert u != -1 ==> r[Before(u, k)] == Closed(t[u], k, c, u);
  }

  lemma RemoveParentLeft(t: Shape, r: Shape, k: int, c: int, u: int)
    requires 0 <= u < |t| && Removed(t, r, k, c, u) && t[k].up == u && t[u].left == k
    requires c == OnlyChild(t[k]) && (t[k].left == -1 || t[k].right == -1) && NodeOk(t, 0, |t|, k)
    requires NodeOk(t, 0, |t|, u)
    requires c != -1 ==> NodeOk(t, 0, |t|, c)
    ensures NodeOk(r, 0, |r|, Before(u, k))
  {
    assert r[Before(u, k)] == Closed(t[u], k, c, u);
    assert c != -1 ==> r[Before(c, k)] == Closed(t[c], k, c, u);
    assert t[u].up != -1 ==> r[Before(t[u].up, k)] == Closed(t[t[u].up], k, c, u);
    assert t[u].right != -1 ==> r[Before(t[u].right, k)] == Closed(t[t[u].right], k, c, u);
  }

  lemma RemoveParentRight(t: Shape, r: Shape, k: int, c: int, u: int)
    requires 0 <= u < |t| && Removed(t, r, k, c, u) && t[k].up == u && t[u].right == k
    requires c == OnlyChild(t[k]) && (t[k].left == -1 || t[k].right == -1) && NodeOk(t, 0, |t|, k)
    requires NodeOk(t, 0, |t|, u)
    requires c != -1 ==> NodeOk(t, 0, |t|, c)
    ensures NodeOk(r, 0, |r|, Before(u, k))
  {
    assert r[Before(u, k)] == Closed(t[u], k, c, u);
    assert c != -1 ==> r[Before(c, k)] == Closed(t[c], k, c, u);
    assert t[u].up != -1 ==> r[Before(t[u].up, k)] == Closed(t[t[u].up], k, c, u);
    assert t[u].left != -1 ==> r[Before(t[u].left, k)] == Closed(t[t[u].left], k, c, u);
  }

  lemma TreeHas(t: Shape, lo: int, hi: int, i: int)
    requires Tree(t, lo, hi) && lo <= i < hi
    ensures NodeOk(t, lo, hi, i)
  {
  }

  lemma RemoveNode(t: Shape, k: int, i: int)
    requires Tree(t, 0, |t|) && 0 <= k < |t| && (t[k].left == -1 || t[k].right == -1) && 0 <= i < |t| && i != k
    ensures NodeOk(Remove(t, k), 0, |t| - 1, Before(i, k))
  {
    hide Tree, NodeOk;
    var r, c, u := Remove(t, k), OnlyChild(t[k]), t[k].up;
    assert Removed(t, r, k, c, u);
    hide Removed, Remove;
    Smaller(t, 0, |t|, k);
    Smaller(t, 0, |t|, i);
    TreeHas(t, 0, |t|, k);
    TreeHas(t, 0, |t|, i);
    if c != -1 {
      TreeHas(t, 0, |t|, c);
    }
    if i == c {
      RemoveChild(t, r, k);
    } else if i == u {
      if t[u].left == k {
        RemoveParentLeft(t, r, k, c, u);
      } else {
        RemoveParentRight(t, r, k, c, u);
      }
    } else {
      RemoveOther(t, r, k, c, u, i);
    }
  }

  lemma RemoveIsTree(t: Shape, k: int)
    requires Tree(t, 0, |t|) && 0 <= k < |t| && (t[k].left == -1 || t[k].right == -1)
    ensures Tree(Remove(t, k), 0, |t| - 1)
  {
    hide NodeOk, Remove;
    var r := Remove(t, k);
    forall j | 0 <= j < |r| ensures NodeOk(r, 0, |r|, j) {
      RemoveNode(t, k, After(j, k));
    }
  }

  // ---------- subtrees ----------

  /** Everything in the stretch of a subtree hangs in it. */
  lemma {:induction false} Inside(t: Shape, lo: int, hi: int, c: int, i: int)
    requires Tree(t, lo, hi) && lo <= c < hi && t[c].lo <= i < t[c].hi
    ensures lo <= i < hi && t[c].lo <= t[i].lo && t[i].hi <= t[c].hi
    ensures i != c ==> t[c].lo <= t[i].up < t[c].hi
    decreases Size(t, c)
  {
    TreeHas(t, lo, hi, c);
    Smaller(t, lo, hi, c);
    if i < c {
      TreeHas(t, lo, hi, t[c].left);
      Inside(t, lo, hi, t[c].left, i);
    } else if i > c {
      TreeHas(t, lo, hi, t[c].right);
      Inside(t, lo, hi, t[c].right, i);
    }
  }

  /** A left subtree cut off at its top is a tree of its own. */
  lemma CutIsTree(t: Shape, k: int)
    requires Tree(t, 0, |t|) && 0 <= k < |t| && t[k].left != -1
    ensures 0 <= t[k].lo <= t[k].left < k && Tree(SetUp(t, t[k].left, -1), t[k].lo, k)
  {
    var c := t[k].left;
    TreeHas(t, 0, |t|, k);
    TreeHas(t, 0, |t|, c);
    var r := SetUp(t, c, -1);
    hide Tree, SetUp;
    forall i | t[k].lo <= i < k ensures NodeOk(r, t[k].lo, k, i) {
      CutNode(t, r, k, i);
    }
    AllNodes(r, t[k].lo, k);
  }

  lemma CutNode(t: Shape, r: Shape, k: int, i: int)
    requires Tree(t, 0, |t|) && 0 <= k < |t| && t[k].left != -1 && t[k].lo <= i < k
    requires r == SetUp(t, t[k].left, -1)
    ensures 0 <= t[k].lo && NodeOk(r, t[k].lo, k, i)
  {
    var c := t[k].left;
    TreeHas(t, 0, |t|, k);
    TreeHas(t, 0, |t|, c);
    Smaller(t, 0, |t|, k);
    Inside(t, 0, |t|, c, i);
    TreeHas(t, 0, |t|, i);
    Smaller(t, 0, |t|, i);
    if t[i].left != -1 {
      TreeHas(t, 0, |t|, t[i].left);
    }
    if t[i].right != -1 {
      TreeHas(t, 0, |t|, t[i].right);
    }
  }

  lemma AllNodes(t: Shape, lo: int, hi: int)
    requires 0 <= lo <= hi <= |t| && forall i | lo <= i < hi :: NodeOk(t, lo, hi, i)
    ensures Tree(t, lo, hi)
  {
  }

  /** The shape t with the stretch from lo up to k, the left subtree of k, taken from s, whose top m becomes the left
      child of k. */
  function Grafted(t: Shape, s: Shape, lo: int, k: int, m: int): (r: Shape)
    requires |s| == |t| && 0 <= lo <= m < k < |t|
    ensures |r| == |t|
    ensures forall i {:trigger r[i]} | 0 <= i < |t| ::
      r[i] == if i == k then t[k].(left := m) else if i == m then s[m].(up := k) else if lo <= i < k then s[i] else t[i]
  {
    seq(|t|, i requires 0 <= i < |t| =>
      if i == k then t[k].(left := m) else if i == m then s[m].(up := k) else if lo <= i < k then s[i] else t[i])
  }

  lemma GraftIsTree(t: Shape, s: Shape, k: int, m: int)
    requires Tree(t, 0, |t|) && 0 <= k < |t| && t[k].left != -1 && |s| == |t|
    requires t[k].lo <= m < k && Tree(s, t[k].lo, k) && s[m].up == -1
    ensures 0 <= t[k].lo && Tree(Grafted(t, s, t[k].lo, k, m), 0, |t|)
  {
    var c, lo := t[k].left, t[k].lo;
    TreeHas(t, 0, |t|, k);
    TreeHas(t, 0, |t|, c);
    TreeHas(s, lo, k, m);
    var r := Grafted(t, s, lo, k, m);
    hide Tree, Grafted;
    forall i | 0 <= i < |t| ensures NodeOk(r, 0, |t|, i) {
      if lo <= i < k {
        TreeHas(s, lo, k, i);
        TopIsOne(s, lo, k, m, i);
      } else {
        TreeHas(t, 0, |t|, i);
        OutsideLinks(t, k, i);
      }
    }
    AllNodes(r, 0, |t|);
  }

  /** A tree has one top. */
  lemma {:induction false} TopIsOne(s: Shape, lo: int, hi: int, m: int, i: int)
    requires Tree(s, lo, hi) && lo <= m < hi && lo <= i < hi && s[m].up == -1
    ensures i != m ==> s[i].up != -1
    ensures -1 <= s[i].left < hi && -1 <= s[i].right < hi && s[i].left != m && s[i].right != m
  {
    TreeHas(s, lo, hi, m);
    Smaller(s, lo, hi, i);
    Inside(s, lo, hi, m, i);
  }

  /** A node outside the left subtree of k has no link into it, unless it is k. */
  lemma {:induction false} OutsideLinks(t: Shape, k: int, i: int)
    requires Tree(t, 0, |t|) && 0 <= k < |t| && t[k].left != -1 && 0 <= i < |t| && !(t[k].lo <= i < k)
    ensures i != k ==> !(t[k].lo <= t[i].left < k)
    ensures !(t[k].lo <= t[i].right < k) && !(t[k].lo <= t[i].up < k)
  {
    var c := t[k].left;
    TreeHas(t, 0, |t|, k);
    Smaller(t, 0, |t|, k);
    Smaller(t, 0, |t|, i);
    TreeHas(t, 0, |t|, i);
    if t[k].lo <= t[i].left < k {
      Inside(t, 0, |t|, c, t[i].left);
    }
    if t[k].lo <= t[i].right < k {
      Inside(t, 0, |t|, c, t[i].right);
    }
    if t[k].lo <= t[i].up < k {
      Inside(t, 0, |t|, c, t[i].up);
      TreeHas(t, 0, |t|, t[i].up);
    }
  }
}
