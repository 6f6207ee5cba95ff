/** Recolouring, and nodes that come and go at the leaves. */
module RbColor {
  import opened RbModel
  import opened RbRotate

  /** Two trees that differ in colours and black heights at most. */
  ghost predicate SameShape(t: Tree, u: Tree) {
    && u.nodes.Keys == t.nodes.Keys && u.root == t.root && u.gone == t.gone && u.gonePos == t.gonePos
    && u.info.Keys == t.info.Keys
    && (forall n :: n in t.nodes ==> u.nodes[n] == t.nodes[n].(color := u.nodes[n].color))
    && (forall n :: n in t.info ==> u.info[n] == t.info[n].(bh := u.info[n].bh))
  }

  lemma ShapeKeeps(t: Tree, u: Tree, n: int)
    requires Sound(t) && SameShape(t, u) && n in t.nodes
    ensures Linked(u, n) && Ordered(u, n)
  {
    assert NodeOk(t, n);
  }

  // ---------------------------------------------------------------- flips

  function Opposite(c: Color): Color {
    if c == Red then Black else Red
  }

  /** Both kids are there and have the given colour. */
  predicate KidsAre(nodes: map<int, Node>, n: int, c: Color) {
    && n in nodes && nodes[n].left in nodes && nodes[n].right in nodes
    && nodes[nodes[n].left].color == c && nodes[nodes[n].right].color == c
  }

  function Flipped(nodes: map<int, Node>, n: int, c: Color): map<int, Node>
    requires n in nodes
  {
    Painted(Painted(Painted(nodes, n, c), nodes[n].left, Opposite(c)), nodes[n].right, Opposite(c))
  }

  function Raised(info: map<int, Info>, n: int, k: int): map<int, Info> {
    if n in info then info[n := info[n].(bh := info[n].bh + k)] else info
  }

  /** A node and its two kids, of opposite colours, exchange them. */
  ghost function Flip(t: Tree, n: int, c: Color): Tree
    requires n in t.nodes
  {
    var k := if c == Red then 1 else -1;
    t.(nodes := Flipped(t.nodes, n, c),
       info := Raised(Raised(t.info, t.nodes[n].left, k), t.nodes[n].right, k))
  }

  ghost predicate CanFlip(t: Tree, n: int, c: Color) {
    Sound(t) && n in t.nodes && t.nodes[n].color == Opposite(c) && KidsAre(t.nodes, n, c)
  }

  lemma FlipApart(t: Tree, n: int, c: Color)
    requires CanFlip(t, n, c)
    ensures var l, r := t.nodes[n].left, t.nodes[n].right;
      n != l && n != r && l != r && l in t.info && r in t.info && t.info[l].bh == t.info[r].bh
  {
    assert NodeOk(t, n);
    KidIsSmaller(t, n, t.nodes[n].left);
    KidIsSmaller(t, n, t.nodes[n].right);
  }

  lemma FlipFacts(t: Tree, n: int, c: Color)
    requires CanFlip(t, n, c)
    ensures var u := Flip(t, n, c); var l, r := t.nodes[n].left, t.nodes[n].right; var k := if c == Red then 1 else -1;
      && SameShape(t, u) && n != l && n != r && l != r && l in t.info && r in t.info
      && u.nodes == t.nodes[n := t.nodes[n].(color := c)][l := t.nodes[l].(color := Opposite(c))]
           [r := t.nodes[r].(color := Opposite(c))]
      && u.info == t.info[l := t.info[l].(bh := t.info[l].bh + k)][r := t.info[r].(bh := t.info[r].bh + k)]
  {
    FlipApart(t, n, c);
  }

  lemma FlipBalance(t: Tree, n: int, c: Color, m: int)
    requires CanFlip(t, n, c) && m in t.nodes
    ensures Balanced(Flip(t, n, c), m)
  {
    FlipFacts(t, n, c);
    if m == n {
      assert NodeOk(t, n);
      HasHeight(t, t.nodes[n].left);
    } else {
      FlipElsewhere(t, Flip(t, n, c), n, c, m);
    }
  }

  /** At other nodes the heights of the kids are as before. */
  lemma FlipElsewhere(t: Tree, u: Tree, n: int, c: Color, m: int)
    requires CanFlip(t, n, c) && m in t.nodes && m != n
    requires var l, r := t.nodes[n].left, t.nodes[n].right; var k := if c == Red then 1 else -1;
      && SameShape(t, u) && n != l && n != r && l != r && l in t.info && r in t.info
      && u.nodes == t.nodes[n := t.nodes[n].(color := c)][l := t.nodes[l].(color := Opposite(c))]
           [r := t.nodes[r].(color := Opposite(c))]
      && u.info == t.info[l := t.info[l].(bh := t.info[l].bh + k)][r := t.info[r].(bh := t.info[r].bh + k)]
    ensures Balanced(u, m)
  {
    assert Balanced(t, m) by {
      assert NodeOk(t, m);
    }
    OneFather(t, m, n);
    NilHasNoHeight(t);
    HasHeight(t, m);
  }

  lemma NilHasNoHeight(t: Tree)
    requires Sound(t)
    ensures NIL !in t.info
  {
  }

  lemma NoLoop(t: Tree, m: int)
    requires Sound(t) && m in t.nodes
    ensures t.nodes[m].left != m && t.nodes[m].right != m
    ensures forall s :: s in t.nodes && s != NIL && t.nodes[s].fa == t.nodes[m].fa ==>
        t.nodes[m].left != s && t.nodes[m].right != s
  {
    assert NodeOk(t, m);
  }

  /** A node is the kid of one node only. */
  lemma OneFather(t: Tree, m: int, n: int)
    requires Sound(t) && m in t.nodes && n in t.nodes && m != n
    ensures t.nodes[m].left != NIL ==> t.nodes[m].left != t.nodes[n].left && t.nodes[m].left != t.nodes[n].right
    ensures t.nodes[m].right != NIL ==> t.nodes[m].right != t.nodes[n].left && t.nodes[m].right != t.nodes[n].right
  {
    assert NodeOk(t, m) && NodeOk(t, n);
  }

  /** Flips keep black heights. */
  lemma FlipKeeps(t: Tree, n: int, c: Color) returns (u: Tree)
    requires CanFlip(t, n, c)
    ensures u == Flip(t, n, c) && Sound(u) && SameShape(t, u)
  {
    u := Flip(t, n, c);
    FlipFacts(t, n, c);
    forall m | m in u.nodes ensures NodeOk(u, m) {
      ShapeKeeps(t, u, m);
      FlipBalance(t, n, c, m);
    }
  }

  /** The root may have either colour. */
  ghost function PaintRoot(t: Tree, c: Color): Tree
    requires t.root in t.nodes && t.root in t.info
  {
    var a := t.nodes[t.root];
    t.(nodes := t.nodes[t.root := a.(color := c)],
       info := Raised(t.info, t.root, Weight(c) - Weight(a.color)))
  }

  lemma PaintRootBalance(t: Tree, c: Color, m: int)
    requires Sound(t) && t.root in t.nodes && m in t.nodes
    ensures Balanced(PaintRoot(t, c), m)
  {
    assert NodeOk(t, m) && NodeOk(t, t.root);
    NoLoop(t, m);
  }

  lemma PaintRootKeeps(t: Tree, c: Color) returns (u: Tree)
    requires Sound(t) && t.root in t.nodes
    ensures u == PaintRoot(t, c) && Sound(u) && SameShape(t, u)
  {
    u := PaintRoot(t, c);
    assert SameShape(t, u);
    forall m | m in u.nodes ensures NodeOk(u, m) {
      ShapeKeeps(t, u, m);
      PaintRootBalance(t, c, m);
    }
  }

  // ---------------------------------------------------------------- leaves

  /** A red node goes where q has no kid. */
  ghost function WithLeaf(t: Tree, q: int, d: Side, n: int, key: int, value: Value): Tree
    requires q in t.nodes && q in t.info
  {
    t.(nodes := t.nodes[n := Node(key, value, NIL, NIL, q, Red)][q := WithKid(t.nodes[q], d, n)],
       info := t.info[n := Half(t.info[q], Pos(t, q), d, 0)])
  }

  ghost predicate CanGrow(t: Tree, q: int, d: Side, n: int, key: int) {
    && Sound(t) && t.gone == NIL && q in t.nodes && Kid(t.nodes[q], d) == NIL && n != NIL && n !in t.nodes
    && Inside(t.info[q], 2 * key) && 2 * key != Pos(t, q) && d == SideOf(2 * key, Pos(t, q))
  }

  lemma GrowAt(t: Tree, q: int, d: Side, n: int, key: int, value: Value, m: int)
    requires CanGrow(t, q, d, n, key) && m in t.nodes
    ensures NodeOk(WithLeaf(t, q, d, n, key, value), m)
  {
    assert NodeOk(t, m) && NodeOk(t, q);
  }

  lemma GrowKeeps(t: Tree, q: int, d: Side, n: int, key: int, value: Value) returns (u: Tree)
    requires CanGrow(t, q, d, n, key)
    ensures u == WithLeaf(t, q, d, n, key, value) && Sound(u)
  {
    u := WithLeaf(t, q, d, n, key, value);
    forall m | m in u.nodes ensures NodeOk(u, m) {
      if m != n {
        GrowAt(t, q, d, n, key, value, m);
      }
    }
  }

  /** A red leaf goes; with it the memory of a node out of place. */
  ghost function WithoutLeaf(t: Tree, n: int): Tree
    requires n in t.nodes && t.nodes[n].fa in t.nodes
  {
    var q := t.nodes[n].fa;
    t.(nodes := t.nodes[q := Adopt(t.nodes[q], n, NIL)] - {n}, info := t.info - {n}, gone := NIL)
  }

  ghost predicate CanDrop(t: Tree, n: int) {
    && Sound(t) && n in t.nodes && n != t.root && t.nodes[n].color == Red && t.nodes[n].left == NIL
       && t.nodes[n].right == NIL
    && (t.gone == NIL || t.gone == n) && t.nodes[n].fa in t.nodes
  }

  lemma DropLinks(t: Tree, n: int, m: int)
    requires CanDrop(t, n) && m in t.nodes && m != n
    ensures m in WithoutLeaf(t, n).nodes && Linked(WithoutLeaf(t, n), m)
  {
    assert NodeOk(t, m) && NodeOk(t, n) && NodeOk(t, t.nodes[n].fa);
    NoLoop(t, n);
  }

  lemma DropOrder(t: Tree, n: int, m: int)
    requires CanDrop(t, n) && m in t.nodes && m != n
    ensures m in WithoutLeaf(t, n).nodes && Ordered(WithoutLeaf(t, n), m) && Balanced(WithoutLeaf(t, n), m)
  {
    assert NodeOk(t, m) && NodeOk(t, n) && NodeOk(t, t.nodes[n].fa);
  }

  lemma DropKeeps(t: Tree, n: int) returns (u: Tree)
    requires CanDrop(t, n)
    ensures u == WithoutLeaf(t, n) && Sound(u) && u.nodes.Keys == t.nodes.Keys - {n}
  {
    u := WithoutLeaf(t, n);
    assert t.root in u.nodes;
    forall m | m in u.nodes ensures NodeOk(u, m) {
      DropLinks(t, n, m);
      DropOrder(t, n, m);
    }
  }

  /** A red node with less than two kids has none. */
  lemma RedLeaf(t: Tree, n: int)
    requires Sound(t) && Calm(t.nodes) && n in t.nodes && t.nodes[n].color == Red
             && (t.nodes[n].left == NIL || t.nodes[n].right == NIL)
    ensures t.nodes[n].left == NIL && t.nodes[n].right == NIL
  {
    assert NodeOk(t, n) && CalmAt(t.nodes, n);
    HasHeight(t, t.nodes[n].left);
    HasHeight(t, t.nodes[n].right);
  }

  lemma HasHeight(t: Tree, c: int)
    requires Sound(t)
    ensures c in t.nodes && t.nodes[c].color == Black ==> Height(t.info, c) >= 1
    ensures c !in t.nodes ==> Height(t.info, c) == 0
  {
    if c in t.nodes {
      assert NodeOk(t, c);
    }
  }
}
