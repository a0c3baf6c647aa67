/** Height-balanced search trees as values: what rotations, insertion and deletion do to the order, the contents and the
    heights. N is the type of the nodes, Event what they index. */
module AvlShape {

  type Event(==, !new)

  /** What the tree is ordered by: receive time, first tie-breaker, the event's number, its sender. */
  datatype Key = Key(ts: real, tie: real, id: int, pe: int)

  datatype Entry = Entry(key: Key, event: Event)

  datatype Shape<N> = Nil | Fork(left: Shape<N>, node: N, entry: Entry, height: nat, right: Shape<N>)

  predicate Greater(a: Key, b: Key) {
    if a.ts != b.ts then a.ts > b.ts
    else if a.tie != b.tie then a.tie > b.tie
    else if a.id != b.id then a.id > b.id
    else a.pe > b.pe
  }

  lemma GreaterIsOrder(a: Key, b: Key, c: Key)
    ensures Greater(a, b) || Greater(b, a) || a == b
    ensures !(Greater(a, b) && Greater(b, a)) && !Greater(a, a)
    ensures Greater(a, b) && Greater(b, c) ==> Greater(a, c)
  {
  }

  /** Later events are greater; at the same time those with the larger tie-breaker, then the larger number, then the
      larger sending PE. */
  lemma GreaterIsLater(a: Key, b: Key)
    ensures a.ts > b.ts ==> Greater(a, b)
    ensures a.ts == b.ts && a.tie > b.tie ==> Greater(a, b)
    ensures a.ts == b.ts && a.tie == b.tie && a.id > b.id ==> Greater(a, b)
    ensures a.ts == b.ts && a.tie == b.tie && a.id == b.id ==> (Greater(a, b) <==> a.pe > b.pe)
  {
  }

  // ---------- heights ----------

  /** avlGetHeight */
  function H<N>(s: Shape<N>): nat {
    if s.Nil? then 0 else s.height
  }

  function Max(a: nat, b: nat): nat {
    if a > b then a else b
  }

  /** The stored heights are exact. */
  predicate Exact<N>(s: Shape<N>) {
    s.Fork? ==> Exact(s.left) && Exact(s.right) && s.height == 1 + Max(H(s.left), H(s.right))
  }

  predicate ExactBelow<N>(s: Shape<N>) {
    s.Fork? ==> Exact(s.left) && Exact(s.right)
  }

  lemma ExactIsBelow<N>(s: Shape<N>)
    requires Exact(s)
    ensures ExactBelow(s) && (s.Fork? ==> ExactBelow(s.left) && ExactBelow(s.right))
  {
    if s.Fork? {
      assert Exact(s.left) && Exact(s.right);
    }
  }

  /** No node's children are more than one apart in height. */
  predicate Balanced<N>(s: Shape<N>) {
    s.Fork? ==> Balanced(s.left) && Balanced(s.right) && Level(s)
  }

  predicate Level<N>(s: Shape<N>)
    requires s.Fork?
  {
    H(s.left) <= H(s.right) + 1 && H(s.right) <= H(s.left) + 1
  }

  function Fix<N>(s: Shape<N>): Shape<N>
    requires s.Fork?
  {
    s.(height := 1 + Max(H(s.left), H(s.right)))
  }

  function Child<N>(s: Shape<N>, d: bool): Shape<N>
    requires s.Fork?
  {
    if d then s.right else s.left
  }

  function WithChild<N>(s: Shape<N>, d: bool, c: Shape<N>): Shape<N>
    requires s.Fork?
  {
    if d then s.(right := c) else s.(left := c)
  }

  // ---------- contents ----------

  function Entries<N>(s: Shape<N>): set<Entry> {
    if s.Nil? then {} else Entries(s.left) + {s.entry} + Entries(s.right)
  }

  ghost function Nodes<N>(s: Shape<N>): set<N> {
    if s.Nil? then {} else Nodes(s.left) + {s.node} + Nodes(s.right)
  }

  /** Every node occurs once. */
  ghost predicate Apart<N>(s: Shape<N>) {
    s.Fork? ==>
      && Apart(s.left) && Apart(s.right)
      && s.node !in Nodes(s.left) && s.node !in Nodes(s.right) && Nodes(s.left) !! Nodes(s.right)
  }

  predicate Below(es: set<Entry>, k: Key) {
    forall e <- es :: Greater(k, e.key)
  }

  predicate Above(es: set<Entry>, k: Key) {
    forall e <- es :: Greater(e.key, k)
  }

  predicate Ordered<N>(s: Shape<N>) {
    s.Fork? ==>
      && Ordered(s.left) && Ordered(s.right)
      && Below(Entries(s.left), s.entry.key) && Above(Entries(s.right), s.entry.key)
  }

  // ---------- rotation ----------

  /** avlRotate: child d becomes the root. */
  function Rotate<N>(s: Shape<N>, d: bool): Shape<N>
    requires s.Fork? && Child(s, d).Fork?
  {
    var c := Child(s, d);
    Fix(WithChild(c, !d, Fix(WithChild(s, d, Child(c, !d)))))
  }

  /** The same entries in the same order, on the same nodes. */
  ghost predicate SameAs<N>(s: Shape<N>, t: Shape<N>) {
    && Entries(t) == Entries(s) && Nodes(t) == Nodes(s)
    && (Ordered(s) ==> Ordered(t)) && (Apart(s) ==> Apart(t))
  }

  /** A node above its right neighbour, and the same the other way round. */
  lemma {:induction false} TurnedOrder<N>(l: Shape<N>, r: Shape<N>)
    requires l.Fork? && l.left.Fork? && r.Fork? && r.right.Fork? && r.left == l.left.left
    requires r.right.left == l.left.right
    requires r.right.right == l.right && r.entry == l.left.entry && r.right.entry == l.entry
    ensures Ordered(l) <==> Ordered(r)
  {
    var a, b := l.entry.key, r.entry.key;
    if Ordered(l) {
      assert l.left.entry in Entries(l.left);
      assert forall e <- Entries(l.left.right) :: e in Entries(l.left);
      assert Ordered(l.left) && Ordered(r.right);
      forall e <- Entries(r.right) ensures Greater(e.key, b) {
        GreaterIsOrder(e.key, a, b);
      }
    }
    if Ordered(r) {
      assert r.right.entry in Entries(r.right);
      assert forall e <- Entries(r.right.left) :: e in Entries(r.right);
      assert Ordered(r.right) && Ordered(l.left);
      forall e <- Entries(l.left) ensures Greater(a, e.key) {
        GreaterIsOrder(a, b, e.key);
      }
    }
  }

  lemma TurnedNodes<N>(l: Shape<N>, r: Shape<N>)
    requires l.Fork? && l.left.Fork? && r.Fork? && r.right.Fork? && r.left == l.left.left
    requires r.right.left == l.left.right
    requires r.right.right == l.right && r.node == l.left.node && r.right.node == l.node
    requires r.entry == l.left.entry && r.right.entry == l.entry
    ensures Entries(l) == Entries(r) && Nodes(l) == Nodes(r) && (Apart(l) <==> Apart(r))
  {
  }

  /** A rotation keeps the order, the contents and the nodes, and leaves exact heights. */
  lemma {:induction false} RotateKeeps<N>(s: Shape<N>, d: bool)
    requires s.Fork? && Child(s, d).Fork?
    ensures SameAs(s, Rotate(s, d))
    ensures Exact(s.left) && Exact(s.right) ==> Exact(Rotate(s, d))
  {
    var t := Rotate(s, d);
    if d {
      TurnedOrder(t, s);
      TurnedNodes(t, s);
    } else {
      TurnedOrder(s, t);
      TurnedNodes(s, t);
    }
    hide Ordered, Apart, Entries, Nodes;
  }

  /** Child d is too tall: a rotation to the other side, after one of the child if its inner subtree is no lower. */
  function Lower<N>(s: Shape<N>, d: bool): Shape<N>
    requires s.Fork? && Exact(Child(s, d)) && H(Child(s, d)) > H(Child(s, !d)) + 1
  {
    var c := Child(s, d);
    if H(Child(c, d)) > H(Child(c, !d)) then Rotate(s, d) else Rotate(WithChild(s, d, Rotate(c, !d)), d)
  }

  /** avlRebalance */
  function Rebalance<N>(s: Shape<N>): Shape<N>
    requires ExactBelow(s)
  {
    if s.Nil? then s
    else if H(s.left) > H(s.right) + 1 then Lower(s, false)
    else if H(s.right) > H(s.left) + 1 then Lower(s, true)
    else Fix(s)
  }

  lemma {:induction false} WithSame<N>(s: Shape<N>, d: bool, c: Shape<N>)
    requires s.Fork? && SameAs(Child(s, d), c)
    ensures SameAs(s, WithChild(s, d, c))
  {
  }

  lemma {:induction false} LowerKeeps<N>(s: Shape<N>, d: bool)
    requires s.Fork? && Exact(s.left) && Exact(s.right) && H(Child(s, d)) > H(Child(s, !d)) + 1
    ensures SameAs(s, Lower(s, d)) && Exact(Lower(s, d))
  {
    var c := Child(s, d);
    if H(Child(c, d)) > H(Child(c, !d)) {
      RotateKeeps(s, d);
    } else {
      RotateKeeps(c, !d);
      WithSame(s, d, Rotate(c, !d));
      RotateKeeps(WithChild(s, d, Rotate(c, !d)), d);
    }
  }

  /** Rebalancing only moves things: order and contents stay, heights become exact. */
  lemma {:induction false} RebalanceKeeps<N>(s: Shape<N>)
    requires ExactBelow(s)
    ensures SameAs(s, Rebalance(s)) && Exact(Rebalance(s))
  {
    if s.Fork? {
      if H(s.left) > H(s.right) + 1 {
        LowerKeeps(s, false);
      } else if H(s.right) > H(s.left) + 1 {
        LowerKeeps(s, true);
      }
    }
  }

  // ---------- search ----------

  /** avlSearch */
  predicate Search<N>(s: Shape<N>, k: Key) {
    s.Fork? && (k == s.entry.key || Search(Child(s, Greater(k, s.entry.key)), k))
  }

  lemma {:induction false} SearchFinds<N>(s: Shape<N>, k: Key)
    requires Ordered(s)
    ensures Search(s, k) <==> exists e <- Entries(s) :: e.key == k
  {
    if s.Fork? {
      SearchFinds(s.left, k);
      SearchFinds(s.right, k);
      GreaterIsOrder(k, s.entry.key, k);
      forall e <- Entries(s) ensures e == s.entry || e in Entries(s.left) || e in Entries(s.right) {
      }
      assert s.entry in Entries(s);
    }
  }

  // ---------- insertion ----------

  /** avlInsert, with the node that is allocated for the entry. */
  function Insert<N>(s: Shape<N>, n: N, e: Entry): (t: Shape<N>)
    requires Exact(s)
    ensures Exact(t) && t.Fork?
  {
    if s.Nil? then Fork(Nil, n, e, 1, Nil)
    else
      var d := Greater(e.key, s.entry.key);
      var t := WithChild(s, d, Insert(Child(s, d), n, e));
      assert ExactBelow(t);
      RebalanceKeeps(t);
      Rebalance(t)
  }

  predicate Fresh(es: set<Entry>, k: Key) {
    forall e <- es :: e.key != k
  }

  /** A child that gains an entry and a node that are not elsewhere in the tree. */
  lemma GainsBelow<N>(s: Shape<N>, d: bool, c: Shape<N>, n: N, e: Entry)
    requires s.Fork? && Ordered(s) && Apart(s) && Ordered(c) && Apart(c) && n !in Nodes(s)
    requires Entries(c) == Entries(Child(s, d)) + {e} && Nodes(c) == Nodes(Child(s, d)) + {n}
    requires if d then Greater(e.key, s.entry.key) else Greater(s.entry.key, e.key)
    ensures var t := WithChild(s, d, c);
      Ordered(t) && Apart(t) && Entries(t) == Entries(s) + {e} && Nodes(t) == Nodes(s) + {n}
  {
  }

  /** Insertion adds the entry, on the new node, and keeps the order. */
  lemma {:induction false} InsertAdds<N>(s: Shape<N>, n: N, e: Entry)
    requires Exact(s) && Ordered(s) && Apart(s) && Fresh(Entries(s), e.key) && n !in Nodes(s)
    ensures var t := Insert(s, n, e);
      Ordered(t) && Apart(t) && Entries(t) == Entries(s) + {e} && Nodes(t) == Nodes(s) + {n}
  {
    if s.Fork? {
      var d := Greater(e.key, s.entry.key);
      assert s.entry in Entries(s);
      GreaterIsOrder(e.key, s.entry.key, e.key);
      var c := Insert(Child(s, d), n, e);
      InsertAdds(Child(s, d), n, e);
      GainsBelow(s, d, c, n, e);
      RebalanceKeeps(WithChild(s, d, c));
      hide Ordered, Apart, Entries, Nodes, Rebalance;
    }
  }

  /** A subtree that has grown leans to the side it has grown on, except for a single new node. */
  predicate Leans<N>(s: Shape<N>) {
    s.Fork? && (s.height == 1 || H(s.left) != H(s.right))
  }

  /** What a node's exactness and balance say about the three levels below it. */
  lemma Levels<N>(c: Shape<N>)
    requires c.Fork? && Exact(c) && Balanced(c)
    ensures Exact(c.left) && Exact(c.right) && Balanced(c.left) && Balanced(c.right) && Level(c)
    ensures c.height == 1 + Max(H(c.left), H(c.right))
  {
  }

  /** A child that is two taller than the other and leans: one rotation, or two, and the whole is as tall as it was
      before the child grew. */
  lemma LowerGrown<N>(t: Shape<N>, d: bool)
    requires t.Fork? && Exact(t.left) && Balanced(t.left) && Exact(t.right) && Balanced(t.right)
    requires H(Child(t, d)) == H(Child(t, !d)) + 2 && Leans(Child(t, d))
    ensures Balanced(Lower(t, d)) && H(Lower(t, d)) == H(Child(t, d))
  {
    var c := Child(t, d);
    Levels(c);
    if H(Child(c, d)) > H(Child(c, !d)) {
      LowerOnce(t, d);
    } else {
      Levels(Child(c, !d));
      LowerTwice(t, d);
    }
  }

  lemma LowerOnce<N>(t: Shape<N>, d: bool)
    requires t.Fork? && Child(t, d).Fork?
    requires var c, o := Child(t, d), Child(t, !d);
      && Balanced(Child(c, d)) && Balanced(Child(c, !d)) && Balanced(o)
      && H(Child(c, d)) == H(o) + 1 && H(Child(c, !d)) == H(o)
    ensures Balanced(Rotate(t, d)) && H(Rotate(t, d)) == H(Child(t, !d)) + 2
  {
  }

  lemma LowerTwice<N>(t: Shape<N>, d: bool)
    requires t.Fork? && Child(t, d).Fork? && Child(Child(t, d), !d).Fork?
    requires var c, o := Child(t, d), Child(t, !d); var m := Child(c, !d);
      && Balanced(Child(c, d)) && Balanced(m.left) && Balanced(m.right) && Balanced(o) && Level(m)
      && H(Child(c, d)) == H(o) && 1 + Max(H(m.left), H(m.right)) == H(o) + 1
    ensures var t' := Rotate(WithChild(t, d, Rotate(Child(t, d), !d)), d); Balanced(t') && H(t') == H(Child(t, !d)) + 2
  {
  }

  /** When one child has grown by one and leans, rebalancing restores the balance, and the whole has grown only if it
      leans too. */
  lemma {:induction false} RebalanceGrown<N>(s: Shape<N>, d: bool, c: Shape<N>)
    requires s.Fork? && Exact(s) && Balanced(s) && Exact(c) && Balanced(c)
    requires H(c) == H(Child(s, d)) || (H(c) == H(Child(s, d)) + 1 && Leans(c))
    ensures var t := Rebalance(WithChild(s, d, c));
      Balanced(t) && (H(t) == H(s) || (H(t) == H(s) + 1 && Leans(t)))
  {
    Levels(s);
    var t := WithChild(s, d, c);
    if H(Child(t, d)) > H(Child(t, !d)) + 1 {
      LowerGrown(t, d);
      hide Lower, Exact, Balanced;
    } else {
      assert Balanced(Fix(t));
      hide Exact, Balanced;
    }
  }

  /** Insertion keeps siblings within one of each other and adds at most one to the height. */
  lemma {:induction false} InsertKeepsBalance<N>(s: Shape<N>, n: N, e: Entry)
    requires Exact(s) && Balanced(s)
    ensures var t := Insert(s, n, e); Balanced(t) && (H(t) == H(s) || (H(t) == H(s) + 1 && Leans(t)))
  {
    if s.Fork? {
      var d := Greater(e.key, s.entry.key);
      InsertKeepsBalance(Child(s, d), n, e);
      RebalanceGrown(s, d, Insert(Child(s, d), n, e));
    }
  }

  // ---------- deletion ----------

  /** avlDeleteMin: what remains. */
  function WithoutMin<N>(s: Shape<N>): (t: Shape<N>)
    requires s.Fork? && Exact(s)
    ensures Exact(t)
  {
    ExactIsBelow(s);
    var t := if s.left.Nil? then s.right else WithChild(s, false, WithoutMin(s.left));
    RebalanceKeeps(t);
    Rebalance(t)
  }

  /** The entry it returns, and the node it frees. */
  function Least<N>(s: Shape<N>): Shape<N>
    requires s.Fork?
    ensures Least(s).Fork?
  {
    if s.left.Nil? then s else Least(s.left)
  }

  /** A child that loses an entry and a node. */
  lemma LosesBelow<N>(s: Shape<N>, d: bool, c: Shape<N>, e: Entry, n: N)
    requires s.Fork? && Ordered(s) && Apart(s) && Ordered(c) && Apart(c)
    requires e in Entries(Child(s, d)) && Entries(c) == Entries(Child(s, d)) - {e}
    requires n in Nodes(Child(s, d)) && Nodes(c) == Nodes(Child(s, d)) - {n}
    ensures var t := WithChild(s, d, c);
      Ordered(t) && Apart(t) && Entries(t) == Entries(s) - {e} && Nodes(t) == Nodes(s) - {n}
  {
    if e in Entries(Child(s, !d)) {
      GreaterIsOrder(e.key, s.entry.key, e.key);
    }
    GreaterIsOrder(e.key, e.key, e.key);
  }

  lemma {:induction false} WithoutMinRemoves<N>(s: Shape<N>)
    requires s.Fork? && Exact(s) && Ordered(s) && Apart(s)
    ensures var t, m := WithoutMin(s), Least(s);
      && Ordered(t) && Apart(t) && m.entry in Entries(s) && m.node in Nodes(s)
      && Entries(t) == Entries(s) - {m.entry} && Nodes(t) == Nodes(s) - {m.node}
      && Above(Entries(t), m.entry.key)
  {
    var m := Least(s);
    ExactIsBelow(s);
    if s.left.Nil? {
      RebalanceKeeps(s.right);
      GreaterIsOrder(s.entry.key, s.entry.key, s.entry.key);
      hide Rebalance;
    } else {
      WithoutMinRemoves(s.left);
      LosesBelow(s, false, WithoutMin(s.left), m.entry, m.node);
      RebalanceKeeps(WithChild(s, false, WithoutMin(s.left)));
      forall e <- Entries(s.right) ensures Greater(e.key, m.entry.key) {
        GreaterIsOrder(e.key, s.entry.key, m.entry.key);
      }
      hide Rebalance, Ordered, Apart, Nodes;
    }
  }

  /** avlDelete, for a key that is there: what remains. */
  function Delete<N>(s: Shape<N>, k: Key): (t: Shape<N>)
    requires Exact(s) && Search(s, k)
    ensures Exact(t)
  {
    ExactIsBelow(s);
    var d := Greater(k, s.entry.key);
    var t :=
      if k == s.entry.key then
        if s.right.Fork? then s.(entry := Least(s.right).entry, right := WithoutMin(s.right)) else s.left
      else WithChild(s, d, Delete(Child(s, d), k));
    RebalanceKeeps(t);
    Rebalance(t)
  }

  /** The entry found, and the node freed. */
  function Found<N>(s: Shape<N>, k: Key): Entry
    requires Search(s, k)
  {
    if k == s.entry.key then s.entry else Found(Child(s, Greater(k, s.entry.key)), k)
  }

  function FreedNode<N>(s: Shape<N>, k: Key): N
    requires Search(s, k)
  {
    if k != s.entry.key then FreedNode(Child(s, Greater(k, s.entry.key)), k)
    else if s.right.Fork? then Least(s.right).node
    else s.node
  }

  lemma {:induction false} DeleteRemoves<N>(s: Shape<N>, k: Key)
    requires Exact(s) && Ordered(s) && Apart(s) && Search(s, k)
    ensures Found(s, k).key == k && Found(s, k) in Entries(s) && FreedNode(s, k) in Nodes(s)
    ensures var t := Delete(s, k);
      Ordered(t) && Apart(t) && Entries(t) == Entries(s) - {Found(s, k)} && Nodes(t) == Nodes(s) - {FreedNode(s, k)}
  {
    var d := Greater(k, s.entry.key);
    if k == s.entry.key {
      DeleteHere(s);
    } else {
      DeleteRemoves(Child(s, d), k);
      ExactIsBelow(s);
      LosesBelow(s, d, Delete(Child(s, d), k), Found(s, k), FreedNode(s, k));
      RebalanceKeeps(WithChild(s, d, Delete(Child(s, d), k)));
      hide Rebalance, Ordered, Apart, Nodes, Entries;
    }
  }

  lemma DeleteHere<N>(s: Shape<N>)
    requires Exact(s) && Ordered(s) && Apart(s) && s.Fork?
    ensures var t, k := Delete(s, s.entry.key), s.entry.key;
      Ordered(t) && Apart(t) && Entries(t) == Entries(s) - {s.entry} && Nodes(t) == Nodes(s) - {FreedNode(s, k)}
      && FreedNode(s, k) in Nodes(s)
  {
    GreaterIsOrder(s.entry.key, s.entry.key, s.entry.key);
    ExactIsBelow(s);
    if s.right.Fork? {
      WithoutMinRemoves(s.right);
      var m := Least(s.right);
      TakesPlace(s, WithoutMin(s.right), m.entry, m.node);
      RebalanceKeeps(s.(entry := m.entry, right := WithoutMin(s.right)));
      hide Ordered, Apart, Entries, Nodes, Rebalance, WithoutMin;
    } else {
      RebalanceKeeps(s.left);
      hide Rebalance;
    }
  }

  /** The least entry of the right subtree takes the root's place. */
  lemma TakesPlace<N>(s: Shape<N>, r: Shape<N>, e: Entry, n: N)
    requires s.Fork? && Ordered(s) && Apart(s) && Ordered(r) && Apart(r) && e in Entries(s.right) && n in Nodes(s.right)
    requires Entries(r) == Entries(s.right) - {e} && Nodes(r) == Nodes(s.right) - {n} && Above(Entries(r), e.key)
    ensures var t := s.(entry := e, right := r);
      && Ordered(t) && Apart(t) && Entries(t) == Entries(s) - {s.entry} && Nodes(t) == Nodes(s) - {n} && n in Nodes(s)
  {
    GreaterIsOrder(s.entry.key, s.entry.key, s.entry.key);
    forall x <- Entries(s.left) ensures Greater(e.key, x.key) {
      GreaterIsOrder(e.key, s.entry.key, x.key);
    }
  }

  // ---------- balance after a deletion ----------

  /** A child that is two taller than the other, as after a deletion: rebalancing leaves every pair of siblings within
      one of each other exactly if the child's own children differ in height, or the inner one leans outwards or not
      at all. (With equal heights the code rotates twice where one rotation would do.) */
  lemma {:induction false} LowerBalancesIff<N>(t: Shape<N>, d: bool)
    requires t.Fork? && Exact(t.left) && Balanced(t.left) && Exact(t.right) && Balanced(t.right)
    requires H(Child(t, d)) == H(Child(t, !d)) + 2
    ensures var c := Child(t, d); var inner := Child(c, !d);
      Balanced(Lower(t, d)) <==> H(Child(c, d)) != H(inner) || H(Child(inner, d)) + 1 == H(inner)
  {
    var c := Child(t, d);
    Levels(c);
    if H(Child(c, d)) != H(Child(c, !d)) {
      LowerGrown(t, d);
    } else {
      Levels(Child(c, !d));
      TieBalancesIff(t, d);
    }
  }

  lemma TieBalancesIff<N>(t: Shape<N>, d: bool)
    requires t.Fork? && Child(t, d).Fork? && Child(Child(t, d), !d).Fork?
    requires var c, o := Child(t, d), Child(t, !d); var m := Child(c, !d);
      && Balanced(Child(c, d)) && Balanced(m.left) && Balanced(m.right) && Balanced(o) && Level(m)
      && H(Child(c, d)) == H(m) == H(o) + 1 && H(m) == 1 + Max(H(m.left), H(m.right))
    ensures var c := Child(t, d); var m := Child(c, !d);
      Balanced(Rotate(WithChild(t, d, Rotate(c, !d)), d)) <==> H(Child(m, d)) + 1 == H(m)
  {
    var c := Child(t, d);
    var m := Child(c, !d);
    var t' := Rotate(WithChild(t, d, Rotate(c, !d)), d);
    assert Child(t', d) == Fix(WithChild(c, !d, Child(m, d)));
  }

  /** The same of heights alone, whatever the shorter child is like: the whole loses a level, except when it rotates
      twice where one rotation would do. */
  lemma LowerHeight<N>(t: Shape<N>, d: bool)
    requires t.Fork? && Exact(t.left) && Exact(t.right) && Balanced(Child(t, d))
    requires H(Child(t, d)) == H(Child(t, !d)) + 2
    ensures var c := Child(t, d);
      H(Lower(t, d)) == H(c) + if H(Child(c, d)) == H(Child(c, !d)) then 1 else 0
  {
    var c := Child(t, d);
    Levels(c);
    if H(Child(c, d)) <= H(Child(c, !d)) {
      Levels(Child(c, !d));
    }
    hide Balanced, Exact;
  }

  /** The shorter child is left as it is. */
  lemma LowerKeepsOther<N>(t: Shape<N>, d: bool)
    requires t.Fork? && Exact(t.left) && Exact(t.right) && H(Child(t, d)) == H(Child(t, !d)) + 2
    requires Balanced(Lower(t, d))
    ensures Balanced(Child(t, !d))
  {
    ExactIsBelow(Child(t, d));
    hide Exact;
  }

  /** When child d loses a level, the whole does. */
  predicate SideShrinks<N>(s: Shape<N>, d: bool)
    requires s.Fork?
  {
    var c := Child(s, !d);
    || H(c) + 1 == H(Child(s, d))
    || (H(c) == H(Child(s, d)) + 1 && c.Fork? && H(c.left) != H(c.right))
  }

  /** When child d loses a level, the balance is kept: the other child was no taller, or its children differ in
      height, or the inner one of them is as tall on the side of the outer one as its height allows. */
  predicate SideKeeps<N>(s: Shape<N>, d: bool)
    requires s.Fork?
  {
    var c := Child(s, !d);
    H(c) == H(Child(s, d)) + 1 && c.Fork? && H(c.left) == H(c.right) ==>
      var inner := Child(c, d); inner.Fork? && H(Child(inner, !d)) + 1 == H(inner)
  }

  /** Child d is replaced by one that is as tall, or one lower. */
  lemma {:induction false} RebalanceShrunk<N>(s: Shape<N>, d: bool, c: Shape<N>, less: bool)
    requires s.Fork? && Exact(s) && Balanced(s) && Exact(c) && H(Child(s, d)) == H(c) + if less then 1 else 0
    ensures var t := Rebalance(WithChild(s, d, c));
      && H(s) == H(t) + (if less && SideShrinks(s, d) then 1 else 0)
      && (Balanced(t) <==> Balanced(c) && (less ==> SideKeeps(s, d)))
  {
    Levels(s);
    var t := WithChild(s, d, c);
    if H(Child(t, !d)) > H(Child(t, d)) + 1 {
      Levels(Child(s, !d));
      LowerHeight(t, !d);
      if Balanced(c) {
        LowerBalancesIff(t, !d);
      } else if Balanced(Lower(t, !d)) {
        LowerKeepsOther(t, !d);
      }
      hide Lower, Exact, Balanced;
    } else {
      assert Balanced(Fix(t)) <==> Balanced(c);
      hide Exact, Balanced;
    }
  }

  lemma RebalanceIdles<N>(s: Shape<N>)
    requires Exact(s) && Balanced(s)
    ensures Rebalance(s) == s
  {
  }

  /** Taking away the least entry lowers the tree: every node down the left edge passes the loss on. */
  predicate ShrinksMin<N>(s: Shape<N>)
    requires s.Fork?
  {
    s.left.Fork? ==> ShrinksMin(s.left) && SideShrinks(s, false)
  }

  predicate KeepsMin<N>(s: Shape<N>)
    requires s.Fork?
  {
    s.left.Fork? ==> KeepsMin(s.left) && (ShrinksMin(s.left) ==> SideKeeps(s, false))
  }

  lemma {:induction false} WithoutMinBalancesIff<N>(s: Shape<N>)
    requires s.Fork? && Exact(s) && Balanced(s)
    ensures var t := WithoutMin(s);
      H(s) == H(t) + (if ShrinksMin(s) then 1 else 0) && (Balanced(t) <==> KeepsMin(s))
  {
    Levels(s);
    if s.left.Nil? {
      RebalanceIdles(s.right);
    } else {
      WithoutMinBalancesIff(s.left);
      RebalanceShrunk(s, false, WithoutMin(s.left), ShrinksMin(s.left));
    }
    hide Exact, Balanced, Rebalance;
  }

  /** Deleting k lowers the tree. */
  predicate Shrinks<N>(s: Shape<N>, k: Key)
    requires Search(s, k)
  {
    var d := Greater(k, s.entry.key);
    if k != s.entry.key then Shrinks(Child(s, d), k) && SideShrinks(s, d)
    else s.right.Fork? ==> ShrinksMin(s.right) && SideShrinks(s, true)
  }

  /** At every node on the way to k, and on to the least entry to its right, that sees the child on that way lose a
      level, the other child can make up for it. */
  predicate KeepsBalance<N>(s: Shape<N>, k: Key)
    requires Search(s, k)
  {
    var d := Greater(k, s.entry.key);
    if k != s.entry.key then KeepsBalance(Child(s, d), k) && (Shrinks(Child(s, d), k) ==> SideKeeps(s, d))
    else s.right.Fork? ==> KeepsMin(s.right) && (ShrinksMin(s.right) ==> SideKeeps(s, true))
  }

  /** Exactly when deletion leaves siblings within one of each other. */
  lemma {:induction false} DeleteBalancesIff<N>(s: Shape<N>, k: Key)
    requires Exact(s) && Balanced(s) && Search(s, k)
    ensures H(s) == H(Delete(s, k)) + if Shrinks(s, k) then 1 else 0
    ensures Balanced(Delete(s, k)) <==> KeepsBalance(s, k)
  {
    Levels(s);
    var d := Greater(k, s.entry.key);
    if k != s.entry.key {
      DeleteBalancesIff(Child(s, d), k);
      RebalanceShrunk(s, d, Delete(Child(s, d), k), Shrinks(Child(s, d), k));
    } else if s.right.Fork? {
      WithoutMinBalancesIff(s.right);
      RebalanceShrunk(s.(entry := Least(s.right).entry), true, WithoutMin(s.right), ShrinksMin(s.right));
    } else {
      RebalanceIdles(s.left);
    }
    hide Exact, Balanced, Rebalance, ShrinksMin, KeepsMin, WithoutMin;
  }

  // ---------- a deletion that leaves the tree unbalanced ----------

  datatype Item<N> = Item(node: N, entry: Entry)

  /** The tree made by inserting these items one after the other. */
  function Grown<N>(xs: seq<Item<N>>): (s: Shape<N>)
    ensures Exact(s)
  {
    if xs == [] then Nil
    else
      var x := xs[|xs| - 1];
      Insert(Grown(xs[..|xs| - 1]), x.node, x.entry)
  }

  ghost predicate DistinctItems<N>(xs: seq<Item<N>>) {
    forall i, j | 0 <= i < j < |xs| :: xs[i].node != xs[j].node && xs[i].entry.key != xs[j].entry.key
  }

  lemma {:induction false} GrownIsSound<N>(xs: seq<Item<N>>)
    requires DistinctItems(xs)
    ensures var s := Grown(xs);
      && Balanced(s) && Ordered(s) && Apart(s)
      && Nodes(s) == (set x <- xs :: x.node) && Entries(s) == (set x <- xs :: x.entry)
  {
    if xs != [] {
      var before, x := xs[..|xs| - 1], xs[|xs| - 1];
      GrownIsSound(before);
      assert xs == before + [x];
      var s := Grown(before);
      InsertAdds(s, x.node, x.entry);
      InsertKeepsBalance(s, x.node, x.entry);
      hide Insert, Balanced, Ordered, Apart, Nodes, Entries, Exact;
    }
  }

  function KeyOf(i: int): Key {
    Key(i as real, 0.0, i, 0)
  }

  /** Eight items, to be inserted in this order. */
  ghost predicate EightItems<N>(xs: seq<Item<N>>) {
    && |xs| == 8 && DistinctItems(xs)
    && xs[0].entry.key == KeyOf(2) && xs[1].entry.key == KeyOf(0) && xs[2].entry.key == KeyOf(5)
    && xs[3].entry.key == KeyOf(1) && xs[4].entry.key == KeyOf(4) && xs[5].entry.key == KeyOf(6)
    && xs[6].entry.key == KeyOf(3) && xs[7].entry.key == KeyOf(7)
  }

  function At<N>(l: Shape<N>, x: Item<N>, r: Shape<N>): Shape<N> {
    Fork(l, x.node, x.entry, 1 + Max(H(l), H(r)), r)
  }

  /** Insertion below a node that stays level only passes on the new child. */
  lemma GrowsAt<N>(l: Shape<N>, x: Item<N>, r: Shape<N>, y: Item<N>)
    requires Exact(l) && Exact(r)
    ensures Exact(At(l, x, r))
    ensures var grown := Insert(r, y.node, y.entry);
      Greater(y.entry.key, x.entry.key) && H(grown) <= H(l) + 1 <= H(grown) + 2 ==>
        Insert(At(l, x, r), y.node, y.entry) == At(l, x, grown)
    ensures var grown := Insert(l, y.node, y.entry);
      !Greater(y.entry.key, x.entry.key) && H(grown) <= H(r) + 1 <= H(grown) + 2 ==>
        Insert(At(l, x, r), y.node, y.entry) == At(grown, x, r)
  {
  }

  function Leaf<N>(x: Item<N>): Shape<N> {
    At(Nil, x, Nil)
  }

  /** Two entries on the left, five on the right, and the right child's children equally tall. */
  function Eight<N>(xs: seq<Item<N>>): Shape<N>
    requires |xs| == 8
  {
    At(At(Nil, xs[1], Leaf(xs[3])), xs[0], At(At(Leaf(xs[6]), xs[4], Nil), xs[2], At(Nil, xs[5], Leaf(xs[7]))))
  }

  lemma LeafGrows<N>(x: Item<N>, y: Item<N>)
    ensures Exact(Leaf(x)) && H(Leaf(x)) == 1
    ensures Greater(y.entry.key, x.entry.key) ==> Insert(Leaf(x), y.node, y.entry) == At(Nil, x, Leaf(y))
    ensures !Greater(y.entry.key, x.entry.key) ==> Insert(Leaf(x), y.node, y.entry) == At(Leaf(y), x, Nil)
  {
    assert Insert(Nil, y.node, y.entry) == Leaf(y);
    GrowsAt(Nil, x, Nil, y);
  }

  lemma FirstFour<N>(xs: seq<Item<N>>)
    requires EightItems(xs)
    ensures Grown(xs[..4]) == At(At(Nil, xs[1], Leaf(xs[3])), xs[0], Leaf(xs[2]))
  {
    var a, b, c, d := xs[0], xs[1], xs[2], xs[3];
    assert xs[..4][..3] == xs[..3] && xs[..3][..2] == xs[..2] && xs[..2][..1] == xs[..1] && xs[..1][..0] == [];
    assert Grown(xs[..1]) == Leaf(a);
    LeafGrows(a, b);
    assert Grown(xs[..2]) == At(Leaf(b), a, Nil);
    LeafGrows(b, c);
    GrowsAt(Leaf(b), a, Nil, c);
    assert Grown(xs[..3]) == At(Leaf(b), a, Leaf(c));
    LeafGrows(b, d);
    LeafGrows(c, d);
    GrowsAt(Leaf(b), a, Leaf(c), d);
  }

  lemma FirstSix<N>(xs: seq<Item<N>>)
    requires EightItems(xs)
    ensures Grown(xs[..6]) == At(At(Nil, xs[1], Leaf(xs[3])), xs[0], At(Leaf(xs[4]), xs[2], Leaf(xs[5])))
  {
    var l, a, c := At(Nil, xs[1], Leaf(xs[3])), xs[0], xs[2];
    assert xs[..6][..5] == xs[..5] && xs[..5][..4] == xs[..4];
    FirstFour(xs);
    LeafGrows(c, xs[4]);
    GrowsAt(Nil, xs[1], Nil, xs[3]);
    GrowsAt(l, a, Leaf(c), xs[4]);
    var r := At(Leaf(xs[4]), c, Nil);
    assert Grown(xs[..5]) == At(l, a, r);
    LeafGrows(xs[4], xs[5]);
    GrowsAt(Leaf(xs[4]), c, Nil, xs[5]);
    GrowsAt(l, a, r, xs[5]);
  }

  /** Inserting the eight items makes that tree. */
  lemma GrownIsEight<N>(xs: seq<Item<N>>)
    requires EightItems(xs)
    ensures Grown(xs) == Eight(xs)
  {
    var l, a, c := At(Nil, xs[1], Leaf(xs[3])), xs[0], xs[2];
    assert xs[..8] == xs && xs[..8][..7] == xs[..7] && xs[..7][..6] == xs[..6];
    FirstSix(xs);
    LeafGrows(xs[4], xs[6]);
    LeafGrows(xs[5], xs[7]);
    GrowsAt(Nil, xs[1], Nil, xs[3]);
    GrowsAt(Leaf(xs[4]), c, Leaf(xs[5]), xs[6]);
    GrowsAt(l, a, At(Leaf(xs[4]), c, Leaf(xs[5])), xs[6]);
    var r := At(At(Leaf(xs[6]), xs[4], Nil), c, Leaf(xs[5]));
    assert Grown(xs[..7]) == At(l, a, r);
    GrowsAt(At(Leaf(xs[6]), xs[4], Nil), c, Leaf(xs[5]), xs[7]);
    GrowsAt(l, a, r, xs[7]);
  }

  /** Eight insertions and a deletion that leave a tree with siblings two apart. */
  lemma {:induction false} DeletionCanUnbalance<N>(xs: seq<Item<N>>)
    requires EightItems(xs)
    ensures var s, k := Grown(xs), KeyOf(0);
      && Balanced(s) && Ordered(s) && Apart(s) && Nodes(s) == (set x <- xs :: x.node)
      && Search(s, k) && !KeepsBalance(s, k) && !Balanced(Delete(s, k))
  {
    var s, k := Grown(xs), KeyOf(0);
    GrownIsSound(xs);
    GrownIsEight(xs);
    hide Grown, Ordered, Apart, Nodes, EightItems;
    assert s.left.entry.key == k && !Greater(k, s.entry.key) && k != s.entry.key;
    assert Search(s.left, k) && Search(s, k);
    assert ShrinksMin(s.left.right) && SideShrinks(s.left, true);
    assert Shrinks(s.left, k) && !SideKeeps(s, false);
    DeleteBalancesIff(s, k);
  }
}
