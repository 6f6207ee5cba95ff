/** Insertion from the top down: two red kids are recoloured on the way, and a red node under a red
    node is rotated away at once. */
module RbInsert {
  import opened RbModel
  import opened RbRotate
  import opened RbColor

  /** No red node has a red kid, but for q and its kid n. */
  ghost predicate CalmBut(nodes: map<int, Node>, q: int, n: int) {
    && (forall m {:trigger CalmAt(nodes, m)} :: m in nodes && m != q ==> CalmAt(nodes, m))
    && (IsRed(nodes, q) ==> (nodes[q].left == n || !IsRed(nodes, nodes[q].left))
                            && (nodes[q].right == n || !IsRed(nodes, nodes[q].right)))
  }

  predicate KidsCool(nodes: map<int, Node>, n: int) {
    n in nodes ==> !IsRed(nodes, nodes[n].left) && !IsRed(nodes, nodes[n].right)
  }

  predicate KidsRed(nodes: map<int, Node>, n: int) {
    n in nodes && IsRed(nodes, nodes[n].left) && IsRed(nodes, nodes[n].right)
  }

  // ---------------------------------------------------------------- insert_adjust

  /** On which side of its father a node is. */
  function SideIn(nodes: map<int, Node>, f: int, n: int): Side
    requires f in nodes
  {
    if nodes[f].left == n then L else R
  }

  /** A red node n under q, or the root itself; if q is red too, its father is g, which is black, as is
      the other kid of g. */
  ghost predicate CanAdjust(t: Tree, g: int, q: int, n: int) {
    && Sound(t) && t.gone == NIL && q in t.nodes && n in t.nodes && t.nodes[n].color == Red
    && (t.nodes[n].fa == q || (n == q && q == t.root))
    && CalmBut(t.nodes, q, n) && KidsCool(t.nodes, n)
    && (IsRed(t.nodes, q) && q != t.root ==> g == t.nodes[q].fa && g in t.nodes && !KidsRed(t.nodes, g))
  }

  /** What one rotation needs to leave no red node under a red one. */
  ghost predicate CanSettle(t: Tree, g: int, q: int, n: int, d: Side) {
    && CanTurn(t, g, d) && q == Kid(t.nodes[g], d) && t.nodes[q].color == Red && t.nodes[g].color == Black
    && CalmBut(t.nodes, q, n) && n != NIL && Kid(t.nodes[q], d) == n && !IsRed(t.nodes, Kid(t.nodes[g], Other(d)))
  }

  lemma SettleAt(t: Tree, u: Tree, g: int, q: int, n: int, f: int, b: int, d: Side, m: int)
    requires CanSettle(t, g, q, n, d) && Turning(t, u, f, g, q, b, d) && m in t.nodes
    ensures CalmAt(u.nodes, m)
  {
    assert NodeOk(t, m) && NodeOk(t, g) && NodeOk(t, q);
    if m != q {
      assert CalmAt(t.nodes, m);
    }
  }

  /** The outer case: one rotation. */
  lemma Settle(t: Tree, g: int, q: int, n: int, d: Side) returns (u: Tree)
    requires CanSettle(t, g, q, n, d)
    ensures u == TurnRed(t, g, d) && Sound(u) && Calm(u.nodes)
    ensures Turning(t, u, t.nodes[g].fa, g, q, Kid(t.nodes[q], Other(d)), d)
  {
    u := TurnRedKeeps(t, g, d);
    forall m | m in u.nodes ensures CalmAt(u.nodes, m) {
      SettleAt(t, u, g, q, n, t.nodes[g].fa, Kid(t.nodes[q], Other(d)), d, m);
    }
  }

  /** n is the inner kid of its red father. */
  ghost predicate CanBring(t: Tree, g: int, q: int, n: int, d: Side) {
    && Sound(t) && g in t.nodes && q in t.nodes && n in t.nodes && q == Kid(t.nodes[g], d)
       && n == Kid(t.nodes[q], Other(d))
    && t.nodes[q].color == Red && t.nodes[n].color == Red && t.nodes[g].color == Black
    && CalmBut(t.nodes, q, n) && KidsCool(t.nodes, n) && !IsRed(t.nodes, Kid(t.nodes[g], Other(d)))
  }

  lemma BringAt(t: Tree, u: Tree, g: int, q: int, n: int, b: int, d: Side, m: int)
    requires CanBring(t, g, q, n, d) && Turning(t, u, g, q, n, b, Other(d)) && m in t.nodes && m != n
    ensures CalmAt(u.nodes, m)
  {
    assert NodeOk(t, m) && NodeOk(t, q) && NodeOk(t, n);
    if m != q {
      assert CalmAt(t.nodes, m);
    }
  }

  /** The inner case: a first rotation makes it the outer case, with q and n in each other's role. */
  lemma Bring(t: Tree, g: int, q: int, n: int, d: Side) returns (u: Tree)
    requires CanBring(t, g, q, n, d)
    ensures CanTurn(t, q, Other(d)) && u == TurnRed(t, q, Other(d)) && CanSettle(u, g, n, q, d)
    ensures Turning(t, u, g, q, n, Kid(t.nodes[n], d), Other(d))
  {
    assert NodeOk(t, g) && NodeOk(t, q);
    u := TurnRedKeeps(t, q, Other(d));
    var b := Kid(t.nodes[n], d);
    forall m | m in u.nodes && m != n ensures CalmAt(u.nodes, m) {
      BringAt(t, u, g, q, n, b, d, m);
    }
    BringSettles(t, u, g, q, n, b, d);
  }

  lemma BringSettles(t: Tree, u: Tree, g: int, q: int, n: int, b: int, d: Side)
    requires CanBring(t, g, q, n, d) && Turning(t, u, g, q, n, b, Other(d)) && Sound(u)
    requires forall m {:trigger CalmAt(u.nodes, m)} :: m in u.nodes && m != n ==> CalmAt(u.nodes, m)
    ensures CanSettle(u, g, n, q, d)
  {
    assert NodeOk(t, g) && NodeOk(t, q) && NodeOk(t, n);
    OneFather(t, g, n);
  }

  /** The tree after insert_adjust. */
  ghost function Adjusted(t: Tree, g: int, q: int, n: int): Tree
    requires CanAdjust(t, g, q, n)
  {
    if t.nodes[q].color == Black then t
    else if q == t.root then AdjustRootOk(t, q); PaintRoot(t, Black)
    else
      var d := SideIn(t.nodes, g, q);
      AdjustOk(t, g, q, n);
      if Kid(t.nodes[q], d) == n then TurnRed(t, g, d) else TurnRed(TurnRed(t, q, Other(d)), g, d)
  }

  lemma AdjustRootOk(t: Tree, q: int)
    requires Sound(t) && q == t.root && q in t.nodes
    ensures q in t.info
  {
  }

  lemma AdjustOk(t: Tree, g: int, q: int, n: int)
    requires CanAdjust(t, g, q, n) && t.nodes[q].color == Red && q != t.root
    ensures var d := SideIn(t.nodes, g, q);
      && (Kid(t.nodes[q], d) == n ==> CanSettle(t, g, q, n, d))
      && (Kid(t.nodes[q], d) != n ==>
            CanBring(t, g, q, n, d) && CanTurn(t, q, Other(d)) && CanSettle(TurnRed(t, q, Other(d)), g, n, q, d))
  {
    assert NodeOk(t, q) && NodeOk(t, n) && NodeOk(t, g) && CalmAt(t.nodes, g);
    var d := SideIn(t.nodes, g, q);
    if Kid(t.nodes[q], d) != n {
      var _ := Bring(t, g, q, n, d);
    }
  }
}
