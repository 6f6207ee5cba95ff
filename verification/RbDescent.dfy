/** The way down of an insertion. */
module RbDescent {
  import opened RbModel
  import opened RbRotate
  import opened RbColor
  import opened RbInsert

  /** The position x of the new key is not taken. */
  ghost predicate Vacant(t: Tree, x: int) {
    forall m {:trigger Pos(t, m)} :: m in t.nodes ==> Pos(t, m) != x
  }

  /** The search for x has come from q to n. If q and its brother are red, no recolouring awaits at n;
      if n and its brother are, none awaits at the next node either. */
  ghost predicate Below(t: Tree, x: int, g: int, q: int, n: int) {
    && q in t.nodes && q in t.info && Inside(t.info[q], x) && n == Kid(t.nodes[q], SideOf(x, Pos(t, q)))
    && (IsRed(t.nodes, q) ==> g == t.nodes[q].fa)
    && (IsRed(t.nodes, q) && KidsRed(t.nodes, g) ==> n != NIL && KidsCool(t.nodes, n))
    && (KidsRed(t.nodes, q) ==> n in t.nodes && Mild(t, x, n))
  }

  /** The next node towards x has no red kids. */
  ghost predicate Mild(t: Tree, x: int, n: int)
    requires n in t.nodes
  {
    var c := Kid(t.nodes[n], SideOf(x, Pos(t, n)));
    c in t.nodes && KidsCool(t.nodes, c)
  }

  ghost predicate Head(t: Tree, x: int, g: int, q: int, n: int) {
    && RedBlack(t) && t.root != NIL && Vacant(t, x)
    && ((n == t.root && q == n && g == n) || Below(t, x, g, q, n))
  }

  lemma HeadKnown(t: Tree, x: int, g: int, q: int, n: int)
    requires Head(t, x, g, q, n)
    ensures q in t.nodes
    ensures n != NIL ==> n in t.nodes && Inside(t.info[n], x) && (t.nodes[n].fa == q || (n == q && q == t.root))
  {
    assert NodeOk(t, q) && NodeOk(t, t.root);
    if n != NIL {
      assert n in t.nodes && Pos(t, q) != x;
    }
  }

  /** Nothing to do at n. */
  lemma PassOn(t: Tree, x: int, g: int, q: int, n: int)
    requires Head(t, x, g, q, n) && n != NIL && !KidsRed(t.nodes, n)
    ensures n in t.nodes && Head(t, x, q, n, Kid(t.nodes[n], SideOf(x, Pos(t, n))))
  {
    HeadKnown(t, x, g, q, n);
    assert NodeOk(t, n);
  }

  // ---------------------------------------------------------------- recolouring

  lemma CanRecolour(t: Tree, x: int, g: int, q: int, n: int) returns (u: Tree)
    requires Head(t, x, g, q, n) && n != NIL && KidsRed(t.nodes, n)
    ensures n in t.nodes && CanFlip(t, n, Red) && u == Flip(t, n, Red) && SameShape(t, u) && CanAdjust(u, g, q, n)
    ensures forall d :: Kid(u.nodes[n], d) in u.nodes && KidsCool(u.nodes, Kid(u.nodes[n], d))
  {
    HeadKnown(t, x, g, q, n);
    assert NodeOk(t, n) && CalmAt(t.nodes, n);
    u := FlipKeeps(t, n, Red);
    FlipFacts(t, n, Red);
    forall m | m in u.nodes && m != q ensures CalmAt(u.nodes, m) {
      FlipCalm(t, n, m, q);
    }
    FlipUnder(t, n, q);
    FlipKids(t, n, L);
    FlipKids(t, n, R);
    FlipUncle(t, x, g, q, n);
  }

  lemma FlipCalm(t: Tree, n: int, m: int, q: int)
    requires CanFlip(t, n, Red) && Calm(t.nodes) && m in t.nodes && m != q && q in t.nodes
             && (t.nodes[n].fa == q || n == t.root)
    ensures CalmAt(Flip(t, n, Red).nodes, m)
  {
    FlipFacts(t, n, Red);
    assert CalmAt(t.nodes, m) && NodeOk(t, m) && NodeOk(t, n);
  }

  /** Only the kid n of q has turned red. */
  lemma FlipUnder(t: Tree, n: int, q: int)
    requires CanFlip(t, n, Red) && Calm(t.nodes) && q in t.nodes && (t.nodes[n].fa == q || n == q)
    ensures var u := Flip(t, n, Red).nodes;
        IsRed(u, q) ==> (u[q].left == n || !IsRed(u, u[q].left)) && (u[q].right == n || !IsRed(u, u[q].right))
  {
    FlipFacts(t, n, Red);
    assert CalmAt(t.nodes, q) && NodeOk(t, q) && NodeOk(t, n);
  }

  lemma FlipKids(t: Tree, n: int, d: Side)
    requires CanFlip(t, n, Red) && Calm(t.nodes)
    ensures var u := Flip(t, n, Red).nodes;
        n in u && Kid(u[n], d) in u && !IsRed(u, Kid(u[n], d)) && KidsCool(u, Kid(u[n], d))
  {
    FlipFacts(t, n, Red);
    var c := Kid(t.nodes[n], d);
    assert CalmAt(t.nodes, c);
    assert Linked(t, c) && Linked(t, n) by {
      assert NodeOk(t, c) && NodeOk(t, n);
    }
    KidIsSmaller(t, n, c);
    if t.nodes[c].left != NIL {
      KidIsSmaller(t, c, t.nodes[c].left);
    }
    if t.nodes[c].right != NIL {
      KidIsSmaller(t, c, t.nodes[c].right);
    }
  }

  lemma FlipUncle(t: Tree, x: int, g: int, q: int, n: int)
    requires Head(t, x, g, q, n) && n in t.nodes && CanFlip(t, n, Red)
    ensures var u := Flip(t, n, Red);
        IsRed(u.nodes, q) && q != u.root ==> g == u.nodes[q].fa && g in u.nodes && !KidsRed(u.nodes, g)
  {
    FlipFacts(t, n, Red);
    HeadKnown(t, x, g, q, n);
    assert NodeOk(t, q) && NodeOk(t, n);
    if IsRed(t.nodes, q) && q != t.root {
      AboveIsApart(t, g, q, n);
    }
  }

  /** The grandfather, and his kids, are neither n nor its kids. */
  lemma AboveIsApart(t: Tree, g: int, q: int, n: int)
    requires Sound(t) && q in t.nodes && n in t.nodes && t.nodes[n].fa == q && t.nodes[q].fa == g && g != NIL
    requires t.nodes[n].left != NIL && t.nodes[n].right != NIL
    ensures g in t.nodes && g != n && g != t.nodes[n].left && g != t.nodes[n].right
    ensures t.nodes[g].left != n && t.nodes[g].left != t.nodes[n].left && t.nodes[g].left != t.nodes[n].right
    ensures t.nodes[g].right != n && t.nodes[g].right != t.nodes[n].left && t.nodes[g].right != t.nodes[n].right
  {
    assert NodeOk(t, q) && NodeOk(t, n) && NodeOk(t, g);
    KidIsSmaller(t, g, q);
    KidIsSmaller(t, q, n);
    KidIsSmaller(t, n, t.nodes[n].left);
    KidIsSmaller(t, n, t.nodes[n].right);
  }

  // ---------------------------------------------------------------- insert_adjust on the way

  /** Links and colours may differ, what the nodes hold does not. */
  ghost predicate SameData(t: Tree, u: Tree) {
    && u.nodes.Keys == t.nodes.Keys
    && forall m :: m in t.nodes ==> u.nodes[m].key == t.nodes[m].key && u.nodes[m].value == t.nodes[m].value
  }

  lemma TurnData(t: Tree, u: Tree, f: int, g: int, c: int, b: int, d: Side)
    requires TurnsRed(t, u, f, g, c, b, d)
    ensures SameData(t, u)
  {
  }

  /** The colour of the root stays, even where the root does not. */
  lemma TurnRoot(t: Tree, u: Tree, f: int, g: int, c: int, b: int, d: Side)
    requires Turning(t, u, f, g, c, b, d)
    ensures IsRed(u.nodes, u.root) == IsRed(t.nodes, t.root)
  {
    assert NodeOk(t, t.root) && NodeOk(t, g);
  }

  ghost predicate RootCold(t: Tree, n: int) {
    n != t.root ==> !IsRed(t.nodes, t.root)
  }

  lemma AdjustColours(t: Tree, g: int, q: int, n: int) returns (u: Tree)
    requires CanAdjust(t, g, q, n) && RootCold(t, n) && (t.nodes[q].color == Black || q == t.root)
    ensures u == Adjusted(t, g, q, n) && RedBlack(u) && SameShape(t, u)
  {
    assert NodeOk(t, n);
    if t.nodes[q].color == Black {
      u := t;
      assert CalmAt(t.nodes, q);
    } else {
      u := PaintRootKeeps(t, Black);
      forall m | m in u.nodes ensures CalmAt(u.nodes, m) {
        if m != q {
          assert CalmAt(t.nodes, m) && NodeOk(t, m);
        }
      }
    }
  }

  lemma AdjustOuter(t: Tree, g: int, q: int, n: int, d: Side) returns (u: Tree)
    requires CanAdjust(t, g, q, n) && RootCold(t, n) && t.nodes[q].color == Red && q != t.root
    requires d == SideIn(t.nodes, g, q) && Kid(t.nodes[q], d) == n
    ensures u == Adjusted(t, g, q, n) && RedBlack(u) && SameData(t, u)
    ensures Turning(t, u, t.nodes[g].fa, g, q, Kid(t.nodes[q], Other(d)), d)
  {
    AdjustOk(t, g, q, n);
    u := Settle(t, g, q, n, d);
    TurnData(t, u, t.nodes[g].fa, g, q, Kid(t.nodes[q], Other(d)), d);
    TurnRoot(t, u, t.nodes[g].fa, g, q, Kid(t.nodes[q], Other(d)), d);
    assert NodeOk(t, n);
  }

  lemma AdjustInner(t: Tree, g: int, q: int, n: int, d: Side) returns (v: Tree, u: Tree)
    requires CanAdjust(t, g, q, n) && RootCold(t, n) && t.nodes[q].color == Red && q != t.root
    requires d == SideIn(t.nodes, g, q) && Kid(t.nodes[q], d) != n
    ensures u == Adjusted(t, g, q, n) && RedBlack(u) && SameData(t, u)
    ensures Turning(t, v, g, q, n, Kid(t.nodes[n], d), Other(d))
    ensures Turning(v, u, v.nodes[g].fa, g, n, Kid(v.nodes[n], Other(d)), d)
  {
    AdjustOk(t, g, q, n);
    v := Bring(t, g, q, n, d);
    u := Settle(v, g, n, q, d);
    TurnData(t, v, g, q, n, Kid(t.nodes[n], d), Other(d));
    TurnData(v, u, v.nodes[g].fa, g, n, Kid(v.nodes[n], Other(d)), d);
    TurnRoot(t, v, g, q, n, Kid(t.nodes[n], d), Other(d));
    TurnRoot(v, u, v.nodes[g].fa, g, n, Kid(v.nodes[n], Other(d)), d);
    assert NodeOk(t, n);
  }

  /** The kids of n are there, without red kids, as they were red themselves. */
  ghost predicate KidsMild(nodes: map<int, Node>, n: int) {
    && n in nodes && nodes[n].left in nodes && nodes[n].right in nodes && KidsCool(nodes, n)
    && KidsCool(nodes, nodes[n].left) && KidsCool(nodes, nodes[n].right)
  }

  lemma VacantStill(t: Tree, u: Tree, x: int)
    requires Vacant(t, x) && SameData(t, u) && t.gone == NIL && u.gone == NIL && NIL !in t.nodes
    ensures Vacant(u, x)
  {
    forall m | m in u.nodes ensures Pos(u, m) != x {
      assert Pos(t, m) != x;
    }
  }

  ghost predicate OnWay(t: Tree, x: int, g: int, q: int, n: int) {
    && CanAdjust(t, g, q, n) && RootCold(t, n) && Vacant(t, x) && Inside(t.info[n], x) && KidsMild(t.nodes, n)
  }

  /** A step closer to the leaves: no recolouring at this node, nor, below a red one, at the next. */
  ghost predicate Closer(u: Tree, x: int, c: int, h: int) {
    c in u.nodes && c in u.info && u.info[c].bh == h && if IsRed(u.nodes, c) then Mild(u, x, c)
    else KidsCool(u.nodes, c)
  }

  ghost predicate Further(t: Tree, u: Tree, x: int, q: int, n: int) {
    && n in u.nodes && n in t.info && SameData(t, u)
    && Head(u, x, q, n, Kid(u.nodes[n], SideOf(x, Pos(u, n))))
    && Closer(u, x, Kid(u.nodes[n], SideOf(x, Pos(u, n))), t.info[n].bh)
  }

  /** What is left to walk. */
  ghost function Rank(t: Tree, x: int, n: int): nat
    requires Sound(t)
  {
    if n !in t.nodes then 0
    else
      assert NodeOk(t, n);
      1 + 4 * t.info[n].bh +
      if t.nodes[n].color == Red then (if Mild(t, x, n) then 1 else 3) else if KidsRed(t.nodes, n) then 2 else 0
  }

  lemma CloserRanks(t: Tree, n: int, u: Tree, x: int, c: int)
    requires Sound(t) && Sound(u) && n in t.nodes && t.nodes[n].color == Black && KidsRed(t.nodes, n)
             && Closer(u, x, c, t.info[n].bh)
    ensures Rank(u, x, c) < Rank(t, x, n)
  {
  }

  lemma PassRanks(t: Tree, x: int, n: int)
    requires RedBlack(t) && n in t.nodes && !KidsRed(t.nodes, n)
    ensures Rank(t, x, Kid(t.nodes[n], SideOf(x, Pos(t, n)))) < Rank(t, x, n)
  {
    var c := Kid(t.nodes[n], SideOf(x, Pos(t, n)));
    assert NodeOk(t, n) && CalmAt(t.nodes, n);
    if c in t.nodes {
      assert NodeOk(t, c);
    }
  }

  lemma GoOnColours(t: Tree, x: int, g: int, q: int, n: int) returns (u: Tree)
    requires OnWay(t, x, g, q, n) && (t.nodes[q].color == Black || q == t.root)
    ensures u == Adjusted(t, g, q, n) && Further(t, u, x, q, n)
  {
    u := AdjustColours(t, g, q, n);
    VacantStill(t, u, x);
    assert Linked(u, n) && Ordered(u, n) && Balanced(u, n) && Ordered(u, u.root) by {
      assert NodeOk(u, n) && NodeOk(u, u.root);
    }
    KidsStayMild(t, u, n);
  }

  lemma KidsStayMild(t: Tree, u: Tree, n: int)
    requires SameShape(t, u) && KidsMild(t.nodes, n)
    requires forall m :: IsRed(u.nodes, m) ==> IsRed(t.nodes, m)
    ensures KidsMild(u.nodes, n)
  {
  }

  /** A rotation leaves kids without red kids as they are, away from the place where it happens. */
  lemma TurnCool(t: Tree, u: Tree, f: int, g: int, c: int, b: int, d: Side, w: int)
    requires Turning(t, u, f, g, c, b, d) && w in t.nodes && w != f && w != g && w != c && KidsCool(t.nodes, w)
    ensures w in u.nodes && KidsCool(u.nodes, w) && u.nodes[w].left == t.nodes[w].left
            && u.nodes[w].right == t.nodes[w].right
  {
    assert NodeOk(t, w) && NodeOk(t, g);
  }

  /** A node, its father and the fathers above are all different. */
  lemma Lineage(t: Tree, n: int)
    requires Sound(t) && n in t.nodes && t.nodes[n].fa in t.nodes && t.nodes[t.nodes[n].fa].fa in t.nodes
    ensures var q := t.nodes[n].fa; var g := t.nodes[q].fa; var f := t.nodes[g].fa;
      && n != q && n != g && n != f && f != q && f != g
      && forall d :: Kid(t.nodes[n], d) != NIL ==> var c := Kid(t.nodes[n], d); c != n && c != q && c != g && c != f
  {
    var q := t.nodes[n].fa;
    var g := t.nodes[q].fa;
    var f := t.nodes[g].fa;
    assert NodeOk(t, n) && NodeOk(t, q) && NodeOk(t, g);
    KidIsSmaller(t, q, n);
    KidIsSmaller(t, g, q);
    if f != NIL {
      KidIsSmaller(t, f, g);
    }
    forall d | Kid(t.nodes[n], d) != NIL ensures Kid(t.nodes[n], d) in t.nodes
    && Count(t, Kid(t.nodes[n], d)) < Count(t, n) {
      KidIsSmaller(t, n, Kid(t.nodes[n], d));
    }
  }

  lemma CloseHead(u: Tree, x: int, q: int, n: int)
    requires RedBlack(u) && u.root != NIL && Vacant(u, x) && n in u.nodes && Inside(u.info[n], x) && u.nodes[n].fa == q
             && KidsMild(u.nodes, n)
    ensures Head(u, x, q, n, Kid(u.nodes[n], SideOf(x, Pos(u, n))))
    ensures Closer(u, x, Kid(u.nodes[n], SideOf(x, Pos(u, n))), u.info[n].bh - Weight(u.nodes[n].color))
  {
    assert NodeOk(u, n);
  }

  lemma GoOnOuter(t: Tree, x: int, g: int, q: int, n: int, d: Side) returns (u: Tree)
    requires OnWay(t, x, g, q, n) && t.nodes[q].color == Red && q != t.root
    requires d == SideIn(t.nodes, g, q) && Kid(t.nodes[q], d) == n
    ensures u == Adjusted(t, g, q, n) && Further(t, u, x, q, n)
  {
    u := AdjustOuter(t, g, q, n, d);
    VacantStill(t, u, x);
    var f, b := t.nodes[g].fa, Kid(t.nodes[q], Other(d));
    OuterApart(t, g, q, n, d);
    assert Kid(t.nodes[n], L) == t.nodes[n].left && Kid(t.nodes[n], R) == t.nodes[n].right;
    TurnCool(t, u, f, g, q, b, d, n);
    TurnCool(t, u, f, g, q, b, d, t.nodes[n].left);
    TurnCool(t, u, f, g, q, b, d, t.nodes[n].right);
    CloseHead(u, x, q, n);
  }

  lemma OuterApart(t: Tree, g: int, q: int, n: int, d: Side)
    requires CanAdjust(t, g, q, n) && t.nodes[q].color == Red && q != t.root && Kid(t.nodes[q], d) == n
    ensures var f := t.nodes[g].fa; n != f && n != g && n != q && n != Kid(t.nodes[q], Other(d))
    ensures forall e :: Kid(t.nodes[n], e) != NIL ==> var c := Kid(t.nodes[n], e);
        c != t.nodes[g].fa && c != g && c != q
  {
    assert NodeOk(t, q) && NodeOk(t, n);
    Lineage(t, n);
  }

  /** Where the double rotation has put the kids of n. */
  lemma InnerPlaces(t: Tree, v: Tree, u: Tree, f: int, g: int, q: int, n: int, b: int, c: int, d: Side)
    requires Turning(t, v, g, q, n, b, Other(d)) && Turning(v, u, f, g, n, c, d)
    ensures Kid(u.nodes[n], d) == q && Kid(u.nodes[n], Other(d)) == g
    ensures Kid(u.nodes[q], Other(d)) == b && Kid(u.nodes[g], d) == c && c == Kid(t.nodes[n], Other(d))
    ensures u.info[n] == t.info[g] && IsRed(u.nodes, q) && IsRed(u.nodes, g)
  {
    assert NodeOk(v, n);
    Lineage(v, q);
  }

  lemma InnerSides(t: Tree, x: int, g: int, q: int, n: int, d: Side)
    requires Sound(t) && g in t.nodes && q in t.nodes && n in t.nodes && q == Kid(t.nodes[g], d)
             && n == Kid(t.nodes[q], Other(d)) && Inside(t.info[n], x)
    ensures Inside(t.info[g], x) && SideOf(x, Pos(t, q)) == Other(d) && SideOf(x, Pos(t, g)) == d
  {
    KidIsSmaller(t, g, q);
    KidIsSmaller(t, q, n);
    assert NodeOk(t, g) && NodeOk(t, q);
  }

  lemma InnerMild(t: Tree, x: int, v: Tree, u: Tree, f: int, g: int, q: int, n: int, b: int, c: int, d: Side)
    requires Turning(t, v, g, q, n, b, Other(d)) && Turning(v, u, f, g, n, c, d) && t.nodes[g].fa == f
             && Kid(t.nodes[g], d) == q && KidsMild(t.nodes, n)
    ensures KidsCool(u.nodes, b) && KidsCool(u.nodes, c)
  {
    assert NodeOk(t, n) && NodeOk(t, q) && NodeOk(t, g);
    Lineage(t, n);
    assert Kid(t.nodes[n], d) == b && Kid(t.nodes[n], Other(d)) == c;
    TurnCool(t, v, g, q, n, b, Other(d), b);
    TurnCool(t, v, g, q, n, b, Other(d), c);
    TurnCool(v, u, f, g, n, c, d, b);
    TurnCool(v, u, f, g, n, c, d, c);
  }

  lemma GoOnInner(t: Tree, x: int, g: int, q: int, n: int, d: Side) returns (u: Tree)
    requires OnWay(t, x, g, q, n) && t.nodes[q].color == Red && q != t.root
    requires d == SideIn(t.nodes, g, q) && Kid(t.nodes[q], d) != n
    ensures u == Adjusted(t, g, q, n) && Further(t, u, x, q, n)
  {
    AdjustOk(t, g, q, n);
    var v;
    v, u := AdjustInner(t, g, q, n, d);
    InnerFurther(t, x, v, u, v.nodes[g].fa, g, q, n, Kid(t.nodes[n], d), Kid(v.nodes[n], Other(d)), d);
  }

  lemma InnerFurther(t: Tree, x: int, v: Tree, u: Tree, f: int, g: int, q: int, n: int, b: int, c: int, d: Side)
    requires OnWay(t, x, g, q, n) && CanBring(t, g, q, n, d) && RedBlack(u) && SameData(t, u)
    requires Turning(t, v, g, q, n, b, Other(d)) && Turning(v, u, f, g, n, c, d) && f == v.nodes[g].fa
    ensures Further(t, u, x, q, n)
  {
    VacantStill(t, u, x);
    InnerPlaces(t, v, u, f, g, q, n, b, c, d);
    InnerSides(t, x, g, q, n, d);
    InnerMild(t, x, v, u, f, g, q, n, b, c, d);
    CloseInner(t, x, u, g, q, n, b, c, d);
    InnerHeights(t, g, q, n, d);
  }

  lemma InnerHeights(t: Tree, g: int, q: int, n: int, d: Side)
    requires CanBring(t, g, q, n, d)
    ensures n in t.info && g in t.info && t.info[n].bh == t.info[g].bh - 1
  {
    assert NodeOk(t, g) && NodeOk(t, q);
  }

  lemma CloseInner(t: Tree, x: int, u: Tree, g: int, q: int, n: int, b: int, c: int, d: Side)
    requires RedBlack(u) && u.root != NIL && Vacant(u, x) && SameData(t, u) && t.gone == NIL && g in t.nodes
             && q in t.nodes && n in u.nodes
    requires Kid(u.nodes[n], d) == q && Kid(u.nodes[n], Other(d)) == g && u.nodes[n].color == Black
    requires Kid(u.nodes[q], Other(d)) == b && Kid(u.nodes[g], d) == c && b in u.nodes && c in u.nodes
             && KidsCool(u.nodes, b) && KidsCool(u.nodes, c)
    requires IsRed(u.nodes, q) && IsRed(u.nodes, g)
    requires Inside(u.info[n], x) && SideOf(x, Pos(t, q)) == Other(d) && SideOf(x, Pos(t, g)) == d
    ensures Closer(u, x, Kid(u.nodes[n], SideOf(x, Pos(u, n))), u.info[n].bh - 1)
    ensures Head(u, x, q, n, Kid(u.nodes[n], SideOf(x, Pos(u, n))))
  {
    assert Mild(u, x, q) && Mild(u, x, g) && NodeOk(u, n);
  }

  /** After a recolouring and the rotations it calls for the descent goes on, further down. */
  lemma GoOn(t: Tree, x: int, g: int, q: int, n: int) returns (u: Tree)
    requires OnWay(t, x, g, q, n)
    ensures u == Adjusted(t, g, q, n) && Further(t, u, x, q, n)
  {
    if t.nodes[q].color == Black || q == t.root {
      u := GoOnColours(t, x, g, q, n);
    } else {
      var d := SideIn(t.nodes, g, q);
      if Kid(t.nodes[q], d) == n {
        u := GoOnOuter(t, x, g, q, n, d);
      } else {
        u := GoOnInner(t, x, g, q, n, d);
      }
    }
  }

  /** One turn of the loop at a node with two red kids. */
  lemma Recolour(t: Tree, x: int, g: int, q: int, n: int) returns (v: Tree, u: Tree)
    requires Head(t, x, g, q, n) && n != NIL && KidsRed(t.nodes, n)
    ensures n in t.nodes && CanFlip(t, n, Red) && v == Flip(t, n, Red) && CanAdjust(v, g, q, n)
            && u == Adjusted(v, g, q, n)
    ensures n in u.nodes && Head(u, x, q, n, Kid(u.nodes[n], SideOf(x, Pos(u, n)))) && SameData(t, u)
    ensures Rank(u, x, Kid(u.nodes[n], SideOf(x, Pos(u, n)))) < Rank(t, x, n)
  {
    HeadKnown(t, x, g, q, n);
    v := CanRecolour(t, x, g, q, n);
    assert Kid(v.nodes[n], L) == v.nodes[n].left && Kid(v.nodes[n], R) == v.nodes[n].right;
    VacantStill(t, v, x);
    FlipFacts(t, n, Red);
    assert NodeOk(t, n);
    u := GoOn(v, x, g, q, n);
    CloserRanks(t, n, u, x, Kid(u.nodes[n], SideOf(x, Pos(u, n))));
  }

  /** One more node, which holds the pair; the others hold what they held. */
  ghost predicate Added(t: Tree, u: Tree, n: int, key: int, value: Value) {
    && n !in t.nodes && u.nodes.Keys == t.nodes.Keys + {n} && u.nodes[n].key == key && u.nodes[n].value == value
    && forall m :: m in t.nodes ==> u.nodes[m].key == t.nodes[m].key && u.nodes[m].value == t.nodes[m].value
  }

  lemma AddsOn(t: Tree, v: Tree, u: Tree, n: int, key: int, value: Value)
    requires Added(t, v, n, key, value) && SameData(v, u)
    ensures Added(t, u, n, key, value)
  {
  }

  /** The last turn: a new red leaf, and the rotations it calls for. */
  lemma Land(t: Tree, x: int, g: int, q: int, n: int, key: int, value: Value) returns (v: Tree, u: Tree)
    requires Head(t, x, g, q, NIL) && x == 2 * key && n != NIL && n !in t.nodes
    ensures q in t.nodes && v == WithLeaf(t, q, SideOf(x, Pos(t, q)), n, key, value) && CanAdjust(v, g, q, n)
            && u == Adjusted(v, g, q, n)
    ensures RedBlack(u) && Added(t, u, n, key, value)
  {
    HeadKnown(t, x, g, q, NIL);
    var d := SideOf(x, Pos(t, q));
    assert Pos(t, q) != x;
    v := GrowKeeps(t, q, d, n, key, value);
    LandCalm(t, x, g, q, n, d, key, value);
    if v.nodes[q].color == Black || q == v.root {
      u := AdjustColours(v, g, q, n);
    } else {
      var e := SideIn(v.nodes, g, q);
      if Kid(v.nodes[q], e) == n {
        u := AdjustOuter(v, g, q, n, e);
      } else {
        var w;
        w, u := AdjustInner(v, g, q, n, e);
      }
    }
    AddsOn(t, v, u, n, key, value);
  }

  lemma LandCalm(t: Tree, x: int, g: int, q: int, n: int, d: Side, key: int, value: Value)
    requires Head(t, x, g, q, NIL) && CanGrow(t, q, d, n, key) && Sound(WithLeaf(t, q, d, n, key, value))
             && d == SideOf(x, Pos(t, q))
    ensures var v := WithLeaf(t, q, d, n, key, value); CanAdjust(v, g, q, n) && RootCold(v, n)
  {
    var v := WithLeaf(t, q, d, n, key, value);
    assert NodeOk(t, q) && CalmAt(t.nodes, q);
    forall m | m in v.nodes && m != q ensures CalmAt(v.nodes, m) {
      if m != n {
        assert CalmAt(t.nodes, m) && NodeOk(t, m);
      }
    }
    if t.nodes[q].color == Red && q != t.root {
      assert NodeOk(t, g);
    }
  }
}
