/** The rotations. LL and RR are one step seen in a mirror, and so are LR and RL. */
module RbRotate {
  import opened RbModel

  function WithFa(nodes: map<int, Node>, n: int, f: int): map<int, Node> {
    if n in nodes then nodes[n := nodes[n].(fa := f)] else nodes
  }

  function Painted(nodes: map<int, Node>, n: int, c: Color): map<int, Node> {
    if n in nodes then nodes[n := nodes[n].(color := c)] else nodes
  }

  /** The kid `was` of f gives way to `now`. */
  function Adopt(a: Node, was: int, now: int): Node {
    if a.left == was then a.(left := now) else a.(right := now)
  }

  function Adopted(nodes: map<int, Node>, f: int, was: int, now: int): map<int, Node> {
    if f in nodes then nodes[f := Adopt(nodes[f], was, now)] else nodes
  }

  ghost predicate CanTurn(t: Tree, g: int, d: Side) {
    Sound(t) && g in t.nodes && Kid(t.nodes[g], d) != NIL && Kid(t.nodes[g], d) in t.nodes
  }

  /** The kid on side d of g takes its father's place; g becomes its kid on the other side. */
  function Turned(nodes: map<int, Node>, g: int, d: Side): map<int, Node>
    requires g in nodes && Kid(nodes[g], d) in nodes
  {
    var c, f := Kid(nodes[g], d), nodes[g].fa;
    var m1 := WithFa(Adopted(nodes, f, g, c), c, f);
    var b := Kid(m1[c], Other(d));
    var m2 := WithFa(m1[g := WithKid(m1[g], d, b)], b, g);
    WithFa(m2[c := WithKid(m2[c], Other(d), g)], g, c)
  }

  /** What a rotation does to each node. */
  ghost predicate Moved(s: map<int, Node>, u: map<int, Node>, f: int, g: int, c: int, b: int, d: Side) {
    && u.Keys == s.Keys && g in s && c in s
    && u[g] == WithKid(s[g], d, b).(fa := c)
    && u[c] == WithKid(s[c], Other(d), g).(fa := f)
    && (b in s ==> u[b] == s[b].(fa := g))
    && (f in s ==> u[f] == Adopt(s[f], g, c))
    && forall n :: n in s && n != g && n != c && n != b && n != f ==> u[n] == s[n]
  }

  ghost predicate Apart(f: int, g: int, c: int, b: int) {
    g != c && b != g && b != c && f != g && f != c && (b == f ==> b == NIL)
  }

  /** The four nodes a rotation touches are four. */
  lemma FourNodes(t: Tree, g: int, d: Side)
    requires CanTurn(t, g, d)
    ensures var c := Kid(t.nodes[g], d); Apart(t.nodes[g].fa, g, c, Kid(t.nodes[c], Other(d)))
  {
    var c, f := Kid(t.nodes[g], d), t.nodes[g].fa;
    var b := Kid(t.nodes[c], Other(d));
    assert NodeOk(t, g) && NodeOk(t, c);
    if f != NIL {
      assert NodeOk(t, f);
    }
    if b != NIL {
      assert NodeOk(t, b);
    }
  }

  lemma TurnMoves(t: Tree, g: int, d: Side)
    requires CanTurn(t, g, d)
    ensures var c := Kid(t.nodes[g], d);
        Moved(t.nodes, Turned(t.nodes, g, d), t.nodes[g].fa, g, c, Kid(t.nodes[c], Other(d)), d)
  {
    FourNodes(t, g, d);
  }

  /** Rotation about a red kid: the two nodes keep each other's colour in place. */
  ghost function TurnRed(t: Tree, g: int, d: Side): Tree
    requires CanTurn(t, g, d)
  {
    var c := Kid(t.nodes[g], d);
    var i, j := t.info[g], t.info[c];
    Tree(Painted(Painted(Turned(t.nodes, g, d), c, t.nodes[g].color), g, Red),
         if t.root == g then c else t.root,
         t.info[c := i][g := Half(i, Pos(t, c), Other(d), j.bh)],
         t.gone, t.gonePos)
  }

  /** The same, node by node. */
  ghost predicate TurnsRed(t: Tree, u: Tree, f: int, g: int, c: int, b: int, d: Side) {
    && u.nodes.Keys == t.nodes.Keys && g in t.nodes && c in t.nodes
    && u.nodes[g] == WithKid(t.nodes[g], d, b).(fa := c, color := Red)
    && u.nodes[c] == WithKid(t.nodes[c], Other(d), g).(fa := f, color := t.nodes[g].color)
    && (b in t.nodes ==> u.nodes[b] == t.nodes[b].(fa := g))
    && (f in t.nodes ==> u.nodes[f] == Adopt(t.nodes[f], g, c))
    && (forall n :: n in t.nodes && n != g && n != c && n != b && n != f ==> u.nodes[n] == t.nodes[n])
    && u.root == (if t.root == g then c else t.root) && u.gone == t.gone && u.gonePos == t.gonePos
    && g in t.info && c in t.info
       && u.info == t.info[c := t.info[g]][g := Half(t.info[g], Pos(t, c), Other(d), t.info[c].bh)]
  }

  lemma TurnRedMoves(t: Tree, g: int, d: Side)
    requires CanTurn(t, g, d)
    ensures var c := Kid(t.nodes[g], d);
        TurnsRed(t, TurnRed(t, g, d), t.nodes[g].fa, g, c, Kid(t.nodes[c], Other(d)), d)
  {
    TurnMoves(t, g, d);
    FourNodes(t, g, d);
    assert NodeOk(t, g);
  }

  ghost predicate Turning(t: Tree, u: Tree, f: int, g: int, c: int, b: int, d: Side) {
    && CanTurn(t, g, d) && f == t.nodes[g].fa && c == Kid(t.nodes[g], d) && b == Kid(t.nodes[c], Other(d))
       && Apart(f, g, c, b)
    && t.nodes[c].color == Red && TurnsRed(t, u, f, g, c, b, d)
  }

  /** The father of f is none of the nodes below f. */
  lemma NotBelow(t: Tree, f: int, g: int)
    requires Sound(t) && f in t.nodes && g in t.nodes && t.nodes[g].fa == f
    ensures t.nodes[f].fa != g
    ensures t.nodes[g].left != NIL ==> t.nodes[f].fa != t.nodes[g].left
    ensures t.nodes[g].right != NIL ==> t.nodes[f].fa != t.nodes[g].right
  {
    assert NodeOk(t, g) && NodeOk(t, f);
    var h := t.nodes[f].fa;
    if h != NIL {
      KidIsSmaller(t, h, f);
      KidIsSmaller(t, f, g);
      if t.nodes[g].left != NIL {
        KidIsSmaller(t, g, t.nodes[g].left);
      }
      if t.nodes[g].right != NIL {
        KidIsSmaller(t, g, t.nodes[g].right);
      }
    }
  }

  lemma TurnLinksAtG(t: Tree, u: Tree, f: int, g: int, c: int, b: int, d: Side)
    requires Turning(t, u, f, g, c, b, d)
    ensures Linked(u, g)
  {
    assert NodeOk(t, g) && NodeOk(t, c);
    if b != NIL {
      assert NodeOk(t, b);
    }
  }

  lemma TurnOrderAtG(t: Tree, u: Tree, f: int, g: int, c: int, b: int, d: Side)
    requires Turning(t, u, f, g, c, b, d)
    ensures Ordered(u, g)
  {
    assert Ordered(t, g) && Ordered(t, c) && Linked(t, g) && Linked(t, c) by {
      assert NodeOk(t, g) && NodeOk(t, c);
    }
  }

  lemma TurnBalanceAtG(t: Tree, u: Tree, f: int, g: int, c: int, b: int, d: Side)
    requires Turning(t, u, f, g, c, b, d)
    ensures Balanced(u, g)
  {
    assert NodeOk(t, g) && NodeOk(t, c);
    if b != NIL {
      assert NodeOk(t, b);
    }
  }

  lemma TurnLinksAtC(t: Tree, u: Tree, f: int, g: int, c: int, b: int, d: Side)
    requires Turning(t, u, f, g, c, b, d)
    ensures Linked(u, c)
  {
    assert NodeOk(t, g) && NodeOk(t, c);
    if f != NIL {
      assert NodeOk(t, f);
    }
  }

  lemma TurnOrderAtC(t: Tree, u: Tree, f: int, g: int, c: int, b: int, d: Side)
    requires Turning(t, u, f, g, c, b, d)
    ensures Ordered(u, c)
  {
    assert NodeOk(t, g) && NodeOk(t, c);
    if f != NIL {
      assert NodeOk(t, f);
    }
  }

  lemma TurnBalanceAtC(t: Tree, u: Tree, f: int, g: int, c: int, b: int, d: Side)
    requires Turning(t, u, f, g, c, b, d)
    ensures Balanced(u, c)
  {
    assert NodeOk(t, g) && NodeOk(t, c);
    if f != NIL {
      assert NodeOk(t, f);
    }
  }

  lemma TurnLinksAtB(t: Tree, u: Tree, f: int, g: int, c: int, b: int, d: Side)
    requires Turning(t, u, f, g, c, b, d) && b in t.nodes
    ensures Linked(u, b)
  {
    assert NodeOk(t, g) && NodeOk(t, c) && NodeOk(t, b);
  }

  lemma TurnOrderAtB(t: Tree, u: Tree, f: int, g: int, c: int, b: int, d: Side)
    requires Turning(t, u, f, g, c, b, d) && b in t.nodes
    ensures Ordered(u, b)
  {
    assert NodeOk(t, g) && NodeOk(t, c) && NodeOk(t, b);
  }

  lemma TurnBalanceAtB(t: Tree, u: Tree, f: int, g: int, c: int, b: int, d: Side)
    requires Turning(t, u, f, g, c, b, d) && b in t.nodes
    ensures Balanced(u, b)
  {
    assert Linked(t, b) && Balanced(t, b) && Linked(t, g) && Linked(t, c) by {
      assert NodeOk(t, b) && NodeOk(t, g) && NodeOk(t, c);
    }
    var left, right := t.nodes[b].left, t.nodes[b].right;
    assert left != g && left != c && right != g && right != c;
  }

  lemma TurnAtF(t: Tree, u: Tree, f: int, g: int, c: int, b: int, d: Side)
    requires Turning(t, u, f, g, c, b, d) && f in t.nodes
    ensures NodeOk(u, f)
  {
    assert NodeOk(t, g) && NodeOk(t, f) && NodeOk(t, c);
    NotBelow(t, f, g);
  }

  lemma TurnLinksElsewhere(t: Tree, u: Tree, f: int, g: int, c: int, b: int, d: Side, n: int)
    requires Turning(t, u, f, g, c, b, d) && n in t.nodes && n != f && n != g && n != c && n != b
    ensures Linked(u, n)
  {
    assert NodeOk(t, n) && NodeOk(t, g) && NodeOk(t, c);
  }

  lemma TurnOrderElsewhere(t: Tree, u: Tree, f: int, g: int, c: int, b: int, d: Side, n: int)
    requires Turning(t, u, f, g, c, b, d) && n in t.nodes && n != f && n != g && n != c && n != b
    ensures Ordered(u, n)
  {
    assert NodeOk(t, n) && NodeOk(t, g) && NodeOk(t, c);
  }

  lemma TurnBalanceElsewhere(t: Tree, u: Tree, f: int, g: int, c: int, b: int, d: Side, n: int)
    requires Turning(t, u, f, g, c, b, d) && n in t.nodes && n != f && n != g && n != c && n != b
    ensures Balanced(u, n)
  {
    assert NodeOk(t, n) && NodeOk(t, g) && NodeOk(t, c);
  }

  /** Rotation about a red kid keeps search order, links and black heights. */
  lemma TurnRedKeeps(t: Tree, g: int, d: Side) returns (u: Tree)
    requires CanTurn(t, g, d) && t.nodes[Kid(t.nodes[g], d)].color == Red
    ensures u == TurnRed(t, g, d) && Sound(u)
    ensures var c := Kid(t.nodes[g], d); Turning(t, u, t.nodes[g].fa, g, c, Kid(t.nodes[c], Other(d)), d)
  {
    u := TurnRed(t, g, d);
    var c, f := Kid(t.nodes[g], d), t.nodes[g].fa;
    var b := Kid(t.nodes[c], Other(d));
    FourNodes(t, g, d);
    TurnRedMoves(t, g, d);
    forall n | n in u.nodes ensures NodeOk(u, n) {
      if n == g {
        TurnLinksAtG(t, u, f, g, c, b, d);
        TurnOrderAtG(t, u, f, g, c, b, d);
        TurnBalanceAtG(t, u, f, g, c, b, d);
      } else if n == c {
        TurnLinksAtC(t, u, f, g, c, b, d);
        TurnOrderAtC(t, u, f, g, c, b, d);
        TurnBalanceAtC(t, u, f, g, c, b, d);
      } else if n == b {
        TurnLinksAtB(t, u, f, g, c, b, d);
        TurnOrderAtB(t, u, f, g, c, b, d);
        TurnBalanceAtB(t, u, f, g, c, b, d);
      } else if n == f {
        TurnAtF(t, u, f, g, c, b, d);
      } else {
        TurnLinksElsewhere(t, u, f, g, c, b, d, n);
        TurnOrderElsewhere(t, u, f, g, c, b, d, n);
        TurnBalanceElsewhere(t, u, f, g, c, b, d, n);
      }
    }
  }

  // ---------------------------------------------------------------- the double rotation

  /** The inner grandkid on side d takes the place of g, with g and the kid below it. */
  function Twisted(nodes: map<int, Node>, g: int, d: Side): map<int, Node>
    requires g in nodes && Kid(nodes[g], d) in nodes && Kid(nodes[Kid(nodes[g], d)], Other(d)) in nodes
  {
    var q, f := Kid(nodes[g], d), nodes[g].fa;
    var x := Kid(nodes[q], Other(d));
    var m1 := WithFa(Adopted(nodes, f, g, x), x, f);
    var m2 := WithFa(m1[g := WithKid(m1[g], d, Kid(m1[x], Other(d)))], Kid(m1[x], Other(d)), g);
    var m3 := WithFa(m2[q := WithKid(m2[q], Other(d), Kid(m2[x], d))], Kid(m2[x], d), q);
    var m4 := WithFa(m3[x := WithKid(m3[x], d, q)], q, x);
    WithFa(m4[x := WithKid(m4[x], Other(d), g)], g, x)
  }

  /** What it does to each node. */
  ghost predicate TwistMoved(o: map<int, Node>, u: map<int, Node>, f: int, g: int, q: int, x: int, b: int, c: int,
                             d: Side) {
    && u.Keys == o.Keys && g in o && q in o && x in o
    && u[g] == WithKid(o[g], d, c).(fa := x)
    && u[q] == WithKid(o[q], Other(d), b).(fa := x)
    && u[x] == WithKid(WithKid(o[x], d, q), Other(d), g).(fa := f)
    && (b in o ==> u[b] == o[b].(fa := q))
    && (c in o ==> u[c] == o[c].(fa := g))
    && (f in o ==> u[f] == Adopt(o[f], g, x))
    && forall n :: n in o && n != g && n != q && n != x && n != b && n != c && n != f ==> u[n] == o[n]
  }

  ghost predicate TwistApart(f: int, g: int, q: int, x: int, b: int, c: int) {
    && Apart(f, g, q, x) && Apart(g, q, x, b) && x != f && c != g && c != q && c != x
    && (b == f ==> b == NIL) && (c == f ==> c == NIL) && (b == c ==> b == NIL)
  }

  ghost predicate CanTwist(t: Tree, g: int, d: Side) {
    CanTurn(t, g, d) && var q := Kid(t.nodes[g], d); Kid(t.nodes[q], Other(d)) in t.nodes
  }

  lemma TwistNodes(t: Tree, g: int, d: Side)
    requires CanTwist(t, g, d)
    ensures var q := Kid(t.nodes[g], d); var x := Kid(t.nodes[q], Other(d));
      TwistApart(t.nodes[g].fa, g, q, x, Kid(t.nodes[x], d), Kid(t.nodes[x], Other(d)))
  {
    var q, f := Kid(t.nodes[g], d), t.nodes[g].fa;
    var x := Kid(t.nodes[q], Other(d));
    FourNodes(t, g, d);
    assert NodeOk(t, g) && NodeOk(t, q) && NodeOk(t, x);
    KidIsSmaller(t, g, q);
    KidIsSmaller(t, q, x);
    if t.nodes[x].left != NIL {
      KidIsSmaller(t, x, t.nodes[x].left);
    }
    if t.nodes[x].right != NIL {
      KidIsSmaller(t, x, t.nodes[x].right);
    }
    if f != NIL {
      KidIsSmaller(t, f, g);
    }
  }

  lemma TwistWrites(o: map<int, Node>, g: int, d: Side)
    requires NIL !in o && g in o && Kid(o[g], d) in o && Kid(o[Kid(o[g], d)], Other(d)) in o
    requires var q := Kid(o[g], d); var x := Kid(o[q], Other(d));
        TwistApart(o[g].fa, g, q, x, Kid(o[x], d), Kid(o[x], Other(d)))
    ensures var q := Kid(o[g], d); var x := Kid(o[q], Other(d));
        TwistMoved(o, Twisted(o, g, d), o[g].fa, g, q, x, Kid(o[x], d), Kid(o[x], Other(d)), d)
  {
    var q, u := Kid(o[g], d), Twisted(o, g, d);
    var x := Kid(o[q], Other(d));
    assert u.Keys == o.Keys;
    assert u[g] == WithKid(o[g], d, Kid(o[x], Other(d))).(fa := x);
    assert u[q] == WithKid(o[q], Other(d), Kid(o[x], d)).(fa := x);
    assert u[x] == WithKid(WithKid(o[x], d, q), Other(d), g).(fa := o[g].fa);
  }

  /** Two rotations in one, when the two nodes below are red. */
  lemma TwistIsTwoTurns(t: Tree, v: Tree, u: Tree, g: int, q: int, x: int, d: Side)
    requires CanTwist(t, g, d) && q == Kid(t.nodes[g], d) && x == Kid(t.nodes[q], Other(d)) && NIL !in t.nodes
    requires t.nodes[g].color == Black && t.nodes[q].color == Red
             && TurnsRed(t, v, g, q, x, Kid(t.nodes[x], d), Other(d))
    requires TurnsRed(v, u, v.nodes[g].fa, g, x, Kid(v.nodes[x], Other(d)), d)
    ensures u.nodes == Painted(Painted(Twisted(t.nodes, g, d), g, Red), x, Black)
  {
    TwistNodes(t, g, d);
    assert NodeOk(t, g);
    TwistWrites(t.nodes, g, d);
    TwoTurns(t, v, u, t.nodes[g].fa, g, q, x, Kid(t.nodes[x], d), Kid(t.nodes[x], Other(d)), d);
    TwistSame(t.nodes, Twisted(t.nodes, g, d), u.nodes, t.nodes[g].fa, g, q, x, Kid(t.nodes[x], d),
              Kid(t.nodes[x], Other(d)), d);
  }

  ghost predicate TwistRed(o: map<int, Node>, u: map<int, Node>, f: int, g: int, q: int, x: int, b: int, c: int,
                           d: Side) {
    && u.Keys == o.Keys && g in o && q in o && x in o
    && u[g] == WithKid(o[g], d, c).(fa := x, color := Red)
    && u[q] == WithKid(o[q], Other(d), b).(fa := x, color := Red)
    && u[x] == WithKid(WithKid(o[x], d, q), Other(d), g).(fa := f, color := Black)
    && (b in o ==> u[b] == o[b].(fa := q))
    && (c in o ==> u[c] == o[c].(fa := g))
    && (f in o ==> u[f] == Adopt(o[f], g, x))
    && forall n :: n in o && n != g && n != q && n != x && n != b && n != c && n != f ==> u[n] == o[n]
  }

  lemma TwoTurns(t: Tree, v: Tree, u: Tree, f: int, g: int, q: int, x: int, b: int, c: int, d: Side)
    requires TwistApart(f, g, q, x, b, c) && g in t.nodes && q == Kid(t.nodes[g], d) && q != Kid(t.nodes[g], Other(d))
             && NIL !in t.nodes && f == t.nodes[g].fa
    requires TurnsRed(t, v, g, q, x, b, Other(d)) && b == Kid(t.nodes[x], d) && c == Kid(t.nodes[x], Other(d))
             && t.nodes[g].color == Black
    requires TurnsRed(v, u, f, g, x, c, d)
    ensures TwistRed(t.nodes, u.nodes, f, g, q, x, b, c, d)
  {
  }

  lemma TwistSame(o: map<int, Node>, w: map<int, Node>, u: map<int, Node>, f: int, g: int, q: int, x: int, b: int,
                  c: int, d: Side)
    requires TwistApart(f, g, q, x, b, c) && TwistMoved(o, w, f, g, q, x, b, c, d)
             && TwistRed(o, u, f, g, q, x, b, c, d) && q in o && o[q].color == Red
    ensures u == Painted(Painted(w, g, Red), x, Black)
  {
    var r := Painted(Painted(w, g, Red), x, Black);
    forall n | n in o ensures u[n] == r[n] {
    }
  }
}
