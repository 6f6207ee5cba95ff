/** Red-black trees as nodes with pointers: a store of nodes, the left, right and father links in it,
    and, per node, what its place in the tree implies: the open interval its keys lie in and its
    black height. */
module RbModel {
  type Value(!new)

  const NIL := 0

  datatype Side = L | R
  datatype Color = Red | Black

  datatype Node = Node(key: int, value: Value, left: int, right: int, fa: int, color: Color)

  /** No bound on this side, or the position of an ancestor. */
  datatype Bound = Open | At(pos: int)
  datatype Info = Info(lo: Bound, hi: Bound, bh: int)

  /** A node stands at twice its key. While a removal is under way the node to go may stand elsewhere:
      just behind its successor, with which it has changed places. */
  datatype Tree = Tree(nodes: map<int, Node>, root: int, info: map<int, Info>, gone: int, gonePos: int)

  function Other(d: Side): Side {
    if d == L then R else L
  }

  function Kid(a: Node, d: Side): int {
    if d == L then a.left else a.right
  }

  function WithKid(a: Node, d: Side, c: int): Node {
    if d == L then a.(left := c) else a.(right := c)
  }

  function Pos(t: Tree, n: int): int
    requires n in t.nodes
  {
    if n == t.gone then t.gonePos else 2 * t.nodes[n].key
  }

  predicate Inside(i: Info, x: int) {
    (i.lo.At? ==> i.lo.pos < x) && (i.hi.At? ==> x < i.hi.pos)
  }

  /** The interval of the kid on side d of a node at position x. */
  function Half(i: Info, x: int, d: Side, bh: int): Info {
    if d == L then Info(i.lo, At(x), bh) else Info(At(x), i.hi, bh)
  }

  function SideOf(x: int, y: int): Side {
    if x < y then L else R
  }

  // ---------------------------------------------------------------- what holds at every node

  ghost predicate Linked(t: Tree, n: int)
    requires n in t.nodes
  {
    var a := t.nodes[n];
    && (a.left != NIL ==> a.left in t.nodes && t.nodes[a.left].fa == n)
    && (a.right != NIL ==> a.right in t.nodes && t.nodes[a.right].fa == n)
    && (a.left == a.right ==> a.left == NIL)
    && (if a.fa == NIL then n == t.root else a.fa in t.nodes && (t.nodes[a.fa].left == n || t.nodes[a.fa].right == n))
    && (n == t.root ==> a.fa == NIL)
  }

  ghost predicate Ordered(t: Tree, n: int)
    requires n in t.nodes
  {
    var a := t.nodes[n];
    && n in t.info && Inside(t.info[n], Pos(t, n))
    && (a.left != NIL ==> a.left in t.info && t.info[a.left] == Half(t.info[n], Pos(t, n), L, t.info[a.left].bh))
    && (a.right != NIL ==> a.right in t.info && t.info[a.right] == Half(t.info[n], Pos(t, n), R, t.info[a.right].bh))
    && (n == t.root ==> t.info[n].lo == Open && t.info[n].hi == Open)
  }

  function Height(info: map<int, Info>, n: int): int {
    if n in info then info[n].bh else 0
  }

  function Weight(c: Color): int {
    if c == Black then 1 else 0
  }

  ghost predicate Balanced(t: Tree, n: int)
    requires n in t.nodes
  {
    var a := t.nodes[n];
    && n in t.info && t.info[n].bh >= Weight(a.color)
    && Height(t.info, a.left) == t.info[n].bh - Weight(a.color)
    && Height(t.info, a.right) == t.info[n].bh - Weight(a.color)
  }

  ghost predicate NodeOk(t: Tree, n: int)
    requires n in t.nodes
  {
    Linked(t, n) && Ordered(t, n) && Balanced(t, n)
  }

  /** Search order, equal black heights, consistent links. */
  ghost predicate Sound(t: Tree) {
    && NIL !in t.nodes && t.info.Keys == t.nodes.Keys
    && (t.root == NIL <==> t.nodes == map[]) && (t.root != NIL ==> t.root in t.nodes)
    && (t.gone == NIL || t.gone in t.nodes)
    && forall n {:trigger NodeOk(t, n)} :: n in t.nodes ==> NodeOk(t, n)
  }

  predicate IsRed(nodes: map<int, Node>, n: int) {
    n in nodes && nodes[n].color == Red
  }

  predicate CalmAt(nodes: map<int, Node>, n: int)
    requires n in nodes
  {
    nodes[n].color == Red ==> !IsRed(nodes, nodes[n].left) && !IsRed(nodes, nodes[n].right)
  }

  /** No red node has a red kid. */
  ghost predicate Calm(nodes: map<int, Node>) {
    forall n {:trigger CalmAt(nodes, n)} :: n in nodes ==> CalmAt(nodes, n)
  }

  ghost predicate RedBlack(t: Tree) {
    Sound(t) && Calm(t.nodes) && t.gone == NIL && !IsRed(t.nodes, t.root)
  }

  // ---------------------------------------------------------------- where keys lie

  ghost function Members(t: Tree, i: Info): set<int> {
    set n | n in t.nodes && Inside(i, Pos(t, n))
  }

  ghost function Count(t: Tree, n: int): nat
    requires n in t.info
  {
    |Members(t, t.info[n])|
  }

  lemma FewerMembers(t: Tree, i: Info, j: Info, n: int)
    requires n in t.nodes && Inside(j, Pos(t, n)) && !Inside(i, Pos(t, n))
    requires forall x :: Inside(i, x) ==> Inside(j, x)
    ensures |Members(t, i)| < |Members(t, j)|
  {
    Smaller(Members(t, i), Members(t, j), n);
  }

  lemma Smaller(a: set<int>, b: set<int>, n: int)
    requires a <= b && n in b && n !in a
    ensures |a| < |b|
  {
    assert b == a + (b - a);
    assert n in b - a;
    assert |b - a| > 0 by {
      assert b - a == (b - a - {n}) + {n};
    }
  }

  lemma NotMoreMembers(t: Tree, i: Info)
    ensures |Members(t, i)| <= |t.nodes|
  {
    var rest := t.nodes.Keys - Members(t, i);
    assert t.nodes.Keys == Members(t, i) + rest;
  }

  /** A kid takes up less room than its father. */
  lemma KidIsSmaller(t: Tree, n: int, c: int)
    requires Sound(t) && n in t.nodes && c != NIL && (t.nodes[n].left == c || t.nodes[n].right == c)
    ensures c in t.nodes && Count(t, c) < Count(t, n)
    ensures forall x :: Inside(t.info[c], x) ==>
        Inside(t.info[n], x) && (x < Pos(t, n) <==> t.nodes[n].left == c) && x != Pos(t, n)
  {
    assert NodeOk(t, n);
    FewerMembers(t, t.info[c], t.info[n], n);
  }

  /** Where a search for position x ends when it starts at node n. */
  ghost function Down(t: Tree, n: int, x: int): int
    requires Sound(t) && n in t.nodes
    decreases Count(t, n)
  {
    assert NodeOk(t, n);
    var c := Kid(t.nodes[n], SideOf(x, Pos(t, n)));
    if x == Pos(t, n) || c == NIL then n else KidIsSmaller(t, n, c); Down(t, c, x)
  }

  /** Every node whose interval holds x is on the way from the root to x. */
  lemma {:induction false} OnTheWay(t: Tree, n: int, x: int)
    requires Sound(t) && n in t.nodes && Inside(t.info[n], x)
    ensures t.root in t.nodes && Down(t, t.root, x) == Down(t, n, x)
    decreases |t.nodes| - Count(t, n)
  {
    assert NodeOk(t, n);
    if n != t.root {
      var f := t.nodes[n].fa;
      KidIsSmaller(t, f, n);
      NotMoreMembers(t, t.info[f]);
      OnTheWay(t, f, x);
    }
  }

  /** A search that starts above a node finds it. */
  lemma Finds(t: Tree, n: int, m: int)
    requires Sound(t) && n in t.nodes && m in t.nodes && Inside(t.info[n], Pos(t, m))
    ensures Down(t, n, Pos(t, m)) == m
  {
    assert NodeOk(t, m);
    OnTheWay(t, n, Pos(t, m));
    OnTheWay(t, m, Pos(t, m));
  }

  /** The kid on the side of m leads to m. */
  lemma Leads(t: Tree, n: int, m: int)
    requires Sound(t) && n in t.nodes && m in t.nodes && Inside(t.info[n], Pos(t, m)) && m != n
    ensures Pos(t, m) != Pos(t, n)
    ensures var c := Kid(t.nodes[n], SideOf(Pos(t, m), Pos(t, n)));
        c in t.nodes && c != NIL && Inside(t.info[c], Pos(t, m))
  {
    Finds(t, n, m);
    assert NodeOk(t, n);
  }

  lemma RootHoldsAll(t: Tree, x: int)
    requires Sound(t) && t.root != NIL
    ensures Inside(t.info[t.root], x)
  {
    assert NodeOk(t, t.root);
  }

  /** No two nodes stand at one position. */
  lemma OnePerPosition(t: Tree, n: int, m: int)
    requires Sound(t) && n in t.nodes && m in t.nodes && Pos(t, n) == Pos(t, m)
    ensures n == m
  {
    RootHoldsAll(t, Pos(t, n));
    Finds(t, t.root, n);
    Finds(t, t.root, m);
  }
}
