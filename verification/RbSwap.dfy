/** The node to be removed changes places with its successor. */
module RbSwap {
  import opened RbModel

  /** The exchange of two names. */
  function Sw(x: int, y: int, n: int): int {
    if n == x then y else if n == y then x else n
  }

  /** Each of x and y has the other's links and colour, and every link to one leads to the other. */
  ghost function Swapped(nodes: map<int, Node>, x: int, y: int): map<int, Node>
    requires x in nodes && y in nodes
  {
    map n | n in nodes ::
      var a := nodes[Sw(x, y, n)];
      Node(nodes[n].key, nodes[n].value, Sw(x, y, a.left), Sw(x, y, a.right), Sw(x, y, a.fa), a.color)
  }

  /** y moves to where x stood, x to just behind y. */
  function Shift(p: int, q: int, pos: int): int {
    if pos == p then q else if pos == q then q + 1 else pos
  }

  function ShiftBound(p: int, q: int, b: Bound): Bound {
    if b.At? then At(Shift(p, q, b.pos)) else Open
  }

  function ShiftInfo(p: int, q: int, i: Info): Info {
    Info(ShiftBound(p, q, i.lo), ShiftBound(p, q, i.hi), i.bh)
  }

  ghost function SwapOut(t: Tree, x: int, y: int): Tree
    requires x in t.nodes && y in t.nodes && t.info.Keys == t.nodes.Keys
  {
    Tree(Swapped(t.nodes, x, y), Sw(x, y, t.root),
         map n | n in t.info :: ShiftInfo(Pos(t, x), Pos(t, y), t.info[Sw(x, y, n)]),
         x, Pos(t, y) + 1)
  }

  /** y is the next node after x, and below it. */
  ghost predicate Successor(t: Tree, x: int, y: int) {
    && Sound(t) && t.gone == NIL && x in t.nodes && y in t.nodes && x != y && Pos(t, x) < Pos(t, y)
    && Inside(t.info[x], Pos(t, y))
    && forall m :: m in t.nodes ==> Pos(t, m) <= Pos(t, x) || Pos(t, y) <= Pos(t, m)
  }

  /** Bounds are positions of nodes, so they are even. */
  lemma {:induction false} EvenBounds(t: Tree, n: int)
    requires Sound(t) && t.gone == NIL && n in t.nodes
    ensures t.info[n].lo.At? ==> t.info[n].lo.pos % 2 == 0
    ensures t.info[n].hi.At? ==> t.info[n].hi.pos % 2 == 0
    decreases |t.nodes| - Count(t, n)
  {
    assert NodeOk(t, n);
    if n != t.root {
      var f := t.nodes[n].fa;
      KidIsSmaller(t, f, n);
      NotMoreMembers(t, t.info[f]);
      assert NodeOk(t, f);
      EvenBounds(t, f);
    }
  }

  lemma SwapPos(t: Tree, x: int, y: int, n: int)
    requires Successor(t, x, y) && n in t.nodes
    ensures Pos(SwapOut(t, x, y), n) == Shift(Pos(t, x), Pos(t, y), Pos(t, Sw(x, y, n)))
  {
    if Pos(t, n) == Pos(t, x) {
      OnePerPosition(t, n, x);
    }
    if Pos(t, n) == Pos(t, y) {
      OnePerPosition(t, n, y);
    }
  }

  lemma SwapLinks(t: Tree, x: int, y: int, n: int)
    requires Successor(t, x, y) && n in t.nodes
    ensures Linked(SwapOut(t, x, y), n)
  {
    assert Linked(t, Sw(x, y, n)) by {
      assert NodeOk(t, Sw(x, y, n));
    }
  }

  /** The move keeps every node strictly between its bounds. */
  lemma StaysInside(t: Tree, x: int, y: int, m: int)
    requires Successor(t, x, y) && m in t.nodes
    ensures Inside(ShiftInfo(Pos(t, x), Pos(t, y), t.info[m]), Shift(Pos(t, x), Pos(t, y), Pos(t, m)))
  {
    assert NodeOk(t, m);
    EvenBounds(t, m);
    if Pos(t, m) == Pos(t, x) {
      OnePerPosition(t, m, x);
    }
    if Pos(t, m) == Pos(t, y) {
      OnePerPosition(t, m, y);
    }
  }

  lemma SwapOrder(t: Tree, x: int, y: int, n: int)
    requires Successor(t, x, y) && n in t.nodes
    ensures Ordered(SwapOut(t, x, y), n)
  {
    var m := Sw(x, y, n);
    assert Ordered(t, m) && Linked(t, m) by {
      assert NodeOk(t, m);
    }
    SwapPos(t, x, y, n);
    StaysInside(t, x, y, m);
    SwapHalf(t, x, y, n, L);
    SwapHalf(t, x, y, n, R);
  }

  /** The kids' bounds move along. */
  lemma SwapHalf(t: Tree, x: int, y: int, n: int, d: Side)
    requires Successor(t, x, y) && n in t.nodes
    ensures var u := SwapOut(t, x, y); var k := Kid(u.nodes[n], d);
      k != NIL ==> k in u.info && u.info[k] == Half(u.info[n], Pos(u, n), d, u.info[k].bh)
  {
    var m := Sw(x, y, n);
    assert Ordered(t, m) && Linked(t, m) by {
      assert NodeOk(t, m);
    }
    SwapPos(t, x, y, n);
  }

  lemma SwapBalance(t: Tree, x: int, y: int, n: int)
    requires Successor(t, x, y) && n in t.nodes
    ensures Balanced(SwapOut(t, x, y), n)
  {
    assert NodeOk(t, Sw(x, y, n));
  }

  /** The exchange keeps order, links and black heights. */
  lemma SwapKeeps(t: Tree, x: int, y: int) returns (u: Tree)
    requires Successor(t, x, y)
    ensures u == SwapOut(t, x, y) && Sound(u)
  {
    u := SwapOut(t, x, y);
    forall n | n in u.nodes ensures NodeOk(u, n) {
      SwapLinks(t, x, y, n);
      SwapOrder(t, x, y, n);
      SwapBalance(t, x, y, n);
    }
  }

  lemma SwapCalm(t: Tree, x: int, y: int)
    requires Successor(t, x, y) && Calm(t.nodes)
    ensures Calm(SwapOut(t, x, y).nodes)
  {
    var u := SwapOut(t, x, y);
    forall n | n in u.nodes ensures CalmAt(u.nodes, n) {
      assert CalmAt(t.nodes, Sw(x, y, n)) && NodeOk(t, Sw(x, y, n));
    }
  }
}
