/** The way down of a removal, to the node that goes. */
module RbUnlink {
  import opened RbModel
  import opened RbRotate
  import opened RbColor
  import opened RbSwap
  import opened RbInsert
  import opened RbDescent
  import opened RbRemove

  /** The node x with the key to be removed lies in the subtree of n. Once it has changed places with
      its successor it is the first node below that one. */
  ghost predicate Tracks(t: Tree, n: int, x: int, del: int) {
    && x in t.nodes && t.nodes[x].key == del && n in t.nodes && n in t.info && Inside(t.info[n], Pos(t, x))
    && (t.gone == NIL || (t.gone == x && t.info[n].lo == At(t.gonePos - 1) && 2 * del < t.gonePos))
  }

  /** The key tells the node, and on which side of n it lies. */
  lemma KeyTells(t: Tree, n: int, x: int, del: int)
    requires Sound(t) && Tracks(t, n, x, del)
    ensures t.nodes[n].key == del <==> n == x
    ensures n != x ==> (del < t.nodes[n].key <==> SideOf(Pos(t, x), Pos(t, n)) == L) && Pos(t, x) != Pos(t, n)
    ensures n != x && t.gone != NIL ==> del < t.nodes[n].key
  {
    assert NodeOk(t, n);
    if Pos(t, n) == Pos(t, x) {
      OnePerPosition(t, n, x);
    }
  }

  lemma NoLeftOfGone(t: Tree, x: int, del: int)
    requires Sound(t) && Tracks(t, x, x, del) && t.gone != NIL
    ensures t.nodes[x].left == NIL
  {
    assert NodeOk(t, x);
    var l := t.nodes[x].left;
    if l in t.nodes {
      assert NodeOk(t, l);
    }
  }

  lemma TracksStill(t: Tree, u: Tree, n: int, x: int, del: int)
    requires Tracks(t, n, x, del) && SameData(t, u) && u.gone == t.gone && u.gonePos == t.gonePos
    requires n in u.info && u.info[n] == t.info[n].(bh := u.info[n].bh)
    ensures Tracks(u, n, x, del)
  {
  }

  /** One step down. */
  lemma TracksDown(t: Tree, n: int, x: int, del: int)
    requires Sound(t) && Tracks(t, n, x, del) && n != x
    ensures var c := Kid(t.nodes[n], if del < t.nodes[n].key then L else R);
        Tracks(t, c, x, del) && c != NIL && Count(t, c) < Count(t, n)
    ensures var c := Kid(t.nodes[n], if del < t.nodes[n].key then L else R); Within(t.info[c], t.info[n])
  {
    KeyTells(t, n, x, del);
    Leads(t, n, x);
    var c := Kid(t.nodes[n], SideOf(Pos(t, x), Pos(t, n)));
    KidIsSmaller(t, n, c);
    assert NodeOk(t, n);
  }

  ghost predicate Within(i: Info, j: Info) {
    forall y {:trigger Inside(i, y)} :: Inside(i, y) ==> Inside(j, y)
  }

  /** A rotation that lifts the kid on the side away from x. */
  lemma TracksLift(t: Tree, u: Tree, f: int, n: int, c: int, b: int, d: Side, x: int, del: int)
    requires Turning(t, u, f, n, c, b, d) && Tracks(t, n, x, del) && Sound(u) && SameData(t, u)
    requires n == x || SideOf(Pos(t, x), Pos(t, n)) == Other(d)
    requires t.gone != NIL ==> d == R
    ensures Tracks(u, n, x, del) && Within(u.info[n], t.info[n])
  {
    assert Ordered(t, n) && Ordered(t, c) && Ordered(u, n) && Linked(t, n) by {
      assert NodeOk(t, n) && NodeOk(t, c) && NodeOk(u, n);
    }
  }

  // ---------------------------------------------------------------- remove_adjust

  /** What remove_adjust is given: n is red, or its father is, or it is the root of at least two nodes. */
  ghost predicate Entry(t: Tree, p: int, n: int, s: int, x: int, del: int) {
    && Ok(t) && Tracks(t, n, x, del)
    && ((n == t.root && p == n && s == n && t.nodes[n].color == Black
         && (t.nodes[n].left != NIL || t.nodes[n].right != NIL))
        || (p in t.nodes && (IsRed(t.nodes, n) || IsRed(t.nodes, p)) && exists d :: Kin(t, p, n, s, d)))
  }

  /** n is the kid of p on the side away from d, and s its other kid. */
  ghost predicate Kin(t: Tree, p: int, n: int, s: int, d: Side)
    requires p in t.nodes
  {
    Kid(t.nodes[p], Other(d)) == n && Kid(t.nodes[p], d) == s
  }

  /** What it makes of it: a red node, or the node to go with a red kid on its right. */
  ghost predicate Made(t: Tree, p: int, n: int, x: int) {
    && Ok(t) && n in t.nodes
    && (IsRed(t.nodes, n) || (n == x && t.nodes[n].left != NIL && IsRed(t.nodes, t.nodes[n].right)))
    && (if n == t.root then t.nodes[n].left != NIL && t.nodes[n].right != NIL else t.nodes[n].fa == p && p in t.nodes)
  }

  ghost predicate Exit(t: Tree, u: Tree, i: Info, p: int, n: int, x: int, del: int) {
    && Made(u, p, n, x) && Tracks(u, n, x, del) && SameData(t, u) && u.gone == t.gone && u.gonePos == t.gonePos
       && Within(u.info[n], i)
  }

  predicate SameKids(nodes: map<int, Node>, n: int) {
    && n in nodes && nodes[n].left in nodes && nodes[n].right in nodes
       && nodes[nodes[n].left].color == nodes[nodes[n].right].color
  }

  /** The root with kids of one colour turns red. */
  lemma RootDown(t: Tree, n: int) returns (u: Tree)
    requires Ok(t) && n == t.root && SameKids(t.nodes, n) && t.nodes[n].color == Black
    ensures u.nodes == Flipped(t.nodes, n, Red) && Ok(u) && SameShape(t, u) && IsRed(u.nodes, n)
  {
    var l, r := t.nodes[n].left, t.nodes[n].right;
    assert NodeOk(t, n);
    NoLoop(t, n);
    if t.nodes[l].color == Red {
      u := FlipKeeps(t, n, Red);
      FlipFacts(t, n, Red);
    } else {
      u := PaintRootKeeps(t, Red);
    }
    forall m | m in u.nodes ensures CalmAt(u.nodes, m) {
      RootDownCalm(t, u, n, m);
    }
  }

  lemma RootDownCalm(t: Tree, u: Tree, n: int, m: int)
    requires Ok(t) && n == t.root && SameKids(t.nodes, n) && t.nodes[n].color == Black && m in t.nodes
             && SameShape(t, u)
    requires u.nodes == Flipped(t.nodes, n, Red)
    ensures CalmAt(u.nodes, m)
  {
    assert CalmAt(t.nodes, m);
    assert Linked(t, m) && Linked(t, n) by {
      assert NodeOk(t, m) && NodeOk(t, n);
    }
    NoLoop(t, n);
    if m != n && m != t.nodes[n].left && m != t.nodes[n].right {
      assert u.nodes[m] == t.nodes[m];
    }
  }

  /** At the root that branch cannot be passed over with no red kid. */
  lemma NotAtRoot(t: Tree, p: int, n: int, s: int, x: int, del: int)
    requires Entry(t, p, n, s, x, del) && !IsRed(t.nodes, n)
    ensures n == t.root && KidsCool(t.nodes, n) ==> SameKids(t.nodes, n)
    ensures n != t.root ==> exists d :: Kin(t, p, n, s, d) && Brothers(t, p, n, s, d) && t.nodes[s].color == Black
    ensures n != t.root ==> p in t.nodes && IsRed(t.nodes, p)
  {
    assert NodeOk(t, n);
    assert p in t.nodes;
    assert NodeOk(t, p);
    HasHeight(t, t.nodes[n].left);
    HasHeight(t, t.nodes[n].right);
    if n != t.root {
      var d :| Kin(t, p, n, s, d);
      HasBrother(t, p, d);
    }
  }

  // ---------------------------------------------------------------- each case ends well

  lemma ShapeData(t: Tree, u: Tree)
    requires SameShape(t, u)
    ensures SameData(t, u)
  {
  }

  lemma ExitStays(t: Tree, p: int, n: int, s: int, x: int, del: int)
    requires Entry(t, p, n, s, x, del) && IsRed(t.nodes, n)
    ensures Exit(t, t, t.info[n], p, n, x, del)
  {
    assert NodeOk(t, n);
    assert NodeOk(t, p);
  }

  lemma ExitRoot(t: Tree, u: Tree, p: int, n: int, s: int, x: int, del: int)
    requires Entry(t, p, n, s, x, del) && n == t.root && SameKids(t.nodes, n) && Ok(u) && SameShape(t, u)
             && IsRed(u.nodes, n)
    ensures Exit(t, u, t.info[n], p, n, x, del)
  {
    ShapeData(t, u);
    TracksStill(t, u, n, x, del);
  }

  lemma ExitSink(t: Tree, u: Tree, p: int, n: int, s: int, d: Side, x: int, del: int)
    requires Entry(t, p, n, s, x, del) && Brothers(t, p, n, s, d) && Ok(u) && SameShape(t, u) && IsRed(u.nodes, n)
    ensures Exit(t, u, t.info[n], p, n, x, del)
  {
    ShapeData(t, u);
    TracksStill(t, u, n, x, del);
    assert NodeOk(t, p) && NodeOk(t, n);
  }

  lemma ExitBorrow(t: Tree, u: Tree, p: int, n: int, s: int, d: Side, x: int, del: int)
    requires Entry(t, p, n, s, x, del) && Brothers(t, p, n, s, d) && Ok(u) && SameData(t, u) && u.gone == t.gone
             && u.gonePos == t.gonePos
    requires u.nodes[n] == t.nodes[n].(color := Red) && n in u.info && u.info[n] == t.info[n].(bh := u.info[n].bh)
    ensures Exit(t, u, t.info[n], p, n, x, del)
  {
    TracksStill(t, u, n, x, del);
    assert NodeOk(t, p) && NodeOk(t, n) && NodeOk(u, n);
  }

  lemma OuterData(t: Tree, u: Tree, f: int, p: int, n: int, s: int, b: int, e: int, d: Side)
    requires OuterDone(t.nodes, u.nodes, f, p, n, s, b, e, d)
    ensures SameData(t, u)
  {
  }

  lemma InnerData(t: Tree, u: Tree, f: int, p: int, n: int, s: int, y: int, b: int, c: int, d: Side)
    requires InnerDone(t.nodes, u.nodes, f, p, n, s, y, b, c, d)
    ensures SameData(t, u)
  {
  }

  /** The red kid c on side d has been lifted above n. */
  lemma ExitLift(t: Tree, u: Tree, n: int, c: int, d: Side, x: int, del: int)
    requires CanLift(t, n, d) && Tracks(t, n, x, del) && c == Kid(t.nodes[n], d)
             && (n == x || (if del < t.nodes[n].key then d == R else d == L))
    requires Turning(t, u, t.nodes[n].fa, n, c, Kid(t.nodes[c], Other(d)), d) && Ok(u) && SameData(t, u)
    ensures Exit(t, u, t.info[n], c, n, x, del) && u.nodes[n].fa == c && IsRed(u.nodes, n)
            && Kid(u.nodes[c], Other(d)) == n
  {
    KeyTells(t, n, x, del);
    if n == x && t.gone != NIL {
      NoLeftOfGone(t, x, del);
    }
    TracksLift(t, u, t.nodes[n].fa, n, c, Kid(t.nodes[c], Other(d)), d, x, del);
    assert NodeOk(t, n) && NodeOk(u, n);
  }

  /** The next node is red already. */
  lemma ExitDown(t: Tree, n: int, c: int, x: int, del: int)
    requires Ok(t) && Tracks(t, n, x, del) && n != x && c == Kid(t.nodes[n], if del < t.nodes[n].key then L else R)
             && IsRed(t.nodes, c)
    ensures Exit(t, t, t.info[n], n, c, x, del)
  {
    TracksDown(t, n, x, del);
    assert NodeOk(t, n) && NodeOk(t, c);
  }

  // ---------------------------------------------------------------- the successor

  /** The first node of the right subtree of x, as far as the search for it has come. */
  ghost predicate Leftward(t: Tree, x: int, y: int) {
    && x in t.nodes && y in t.nodes && y in t.info && x in t.info && t.info[y].lo == At(Pos(t, x))
       && Within(t.info[y], t.info[x])
  }

  lemma NextStarts(t: Tree, x: int)
    requires Sound(t) && x in t.nodes && t.nodes[x].right != NIL
    ensures Leftward(t, x, t.nodes[x].right)
  {
    assert NodeOk(t, x);
    KidIsSmaller(t, x, t.nodes[x].right);
  }

  lemma NextOn(t: Tree, x: int, y: int)
    requires Sound(t) && Leftward(t, x, y) && t.nodes[y].left != NIL
    ensures Leftward(t, x, t.nodes[y].left) && Count(t, t.nodes[y].left) < Count(t, y)
  {
    assert NodeOk(t, y);
    KidIsSmaller(t, y, t.nodes[y].left);
  }

  lemma NextReached(t: Tree, x: int, y: int)
    requires Sound(t) && t.gone == NIL && Leftward(t, x, y) && t.nodes[y].left == NIL
    ensures Successor(t, x, y)
  {
    assert NodeOk(t, y);
    assert Inside(t.info[y], Pos(t, y));
    forall m | m in t.nodes ensures Pos(t, m) <= Pos(t, x) || Pos(t, y) <= Pos(t, m) {
      NoneBetween(t, x, y, m);
    }
  }

  lemma NoneBetween(t: Tree, x: int, y: int, m: int)
    requires Sound(t) && Leftward(t, x, y) && t.nodes[y].left == NIL && m in t.nodes
    ensures Pos(t, m) <= Pos(t, x) || Pos(t, y) <= Pos(t, m)
  {
    assert NodeOk(t, y);
    if m != y && Inside(t.info[y], Pos(t, m)) {
      Leads(t, y, m);
    }
  }

  /** After the exchange the search goes on in the right subtree of the successor. */
  lemma EntryAfterSwap(t: Tree, u: Tree, p: int, x: int, y: int, del: int)
    requires Successor(t, x, y) && Made(t, p, x, x) && Tracks(t, x, x, del) && u == SwapOut(t, x, y) && Ok(u)
    requires t.nodes[x].left != NIL && t.nodes[x].right != NIL
    ensures Entry(u, y, u.nodes[y].right, u.nodes[y].left, x, del) && u.nodes[y].right != NIL
  {
    var n, s := u.nodes[y].right, u.nodes[y].left;
    TracksAfterSwap(t, u, x, y, del);
    assert NodeOk(t, x);
    assert Kin(u, y, n, s, L);
  }

  lemma TracksAfterSwap(t: Tree, u: Tree, x: int, y: int, del: int)
    requires Successor(t, x, y) && u == SwapOut(t, x, y) && Sound(u) && t.nodes[x].key == del
    ensures Tracks(u, u.nodes[y].right, x, del) && u.nodes[y].right != NIL
  {
    EvenBounds(t, x);
    assert Ordered(t, x) && Ordered(u, y) by {
      assert NodeOk(t, x) && NodeOk(u, y);
    }
    SwapPos(t, x, y, x);
    SwapPos(t, x, y, y);
    assert Pos(u, x) == Pos(u, y) + 1;
    Leads(u, y, x);
  }

  // ---------------------------------------------------------------- the writes of the exchange

  /** The exchange when the successor is the right kid. */
  function SwapNear(nodes: map<int, Node>, x: int, y: int): map<int, Node>
    requires x in nodes && y in nodes
  {
    var a, b := nodes[x], nodes[y];
    var m1 := Painted(Painted(nodes, y, a.color), x, b.color);
    var m2 := WithFa(Adopted(m1, a.fa, x, y), y, a.fa);
    var m3 := WithFa(m2[x := m2[x].(left := b.left)], b.left, x);
    var m4 := WithFa(m3[x := m3[x].(right := b.right)], b.right, x);
    var m5 := WithFa(m4[y := m4[y].(left := a.left)], a.left, y);
    WithFa(m5[y := m5[y].(right := x)], x, y)
  }

  /** The exchange when the successor lies deeper. */
  function SwapDeep(nodes: map<int, Node>, x: int, y: int): map<int, Node>
    requires x in nodes && y in nodes && nodes[y].fa in nodes
  {
    var a, b := nodes[x], nodes[y];
    var m1 := Painted(Painted(nodes, y, a.color), x, b.color);
    var m2 := WithFa(Adopted(m1, a.fa, x, y), y, a.fa);
    var m3 := WithFa(m2[b.fa := m2[b.fa].(left := x)], x, b.fa);
    var m4 := WithFa(m3[y := m3[y].(left := a.left)], a.left, y);
    var m5 := WithFa(m4[y := m4[y].(right := a.right)], a.right, y);
    WithFa(m5[x := m5[x].(left := NIL, right := b.right)], b.right, x)
  }

  ghost predicate SwapPair(t: Tree, x: int, y: int) {
    && Sound(t) && x in t.nodes && y in t.nodes && x != y && t.nodes[y].left == NIL && t.nodes[x].left != NIL
       && t.nodes[x].right != NIL
    && t.nodes[y].fa in t.nodes && t.nodes[x].fa != y && t.nodes[x].left != y
  }

  /** Either exchange, node by node: z is the father of the successor y, r the right kid of x. */
  ghost predicate Exchanged(o: map<int, Node>, u: map<int, Node>, f: int, x: int, y: int, l: int, r: int, z: int,
                            w: int) {
    && u.Keys == o.Keys && x in o && y in o && l in o && r in o && z in o
    && u[y] == Node(o[y].key, o[y].value, l, Sw(x, y, r), f, o[x].color)
    && u[x] == Node(o[x].key, o[x].value, NIL, w, Sw(x, y, z), o[y].color)
    && u[l] == o[l].(fa := y)
    && (r != y && r != z ==> u[r] == o[r].(fa := y))
    && (z != x ==> u[z] == o[z].(left := x, fa := if z == r then y else o[z].fa))
    && (w in o ==> u[w] == o[w].(fa := x))
    && (f in o ==> u[f] == Adopt(o[f], x, y))
    && forall m :: m in o && m != x && m != y && m != l && m != r && m != z && m != w && m != f ==> u[m] == o[m]
  }

  ghost predicate ExchangeApart(f: int, x: int, y: int, l: int, r: int, z: int, w: int) {
    && x != y && l != x && l != y && l != r && l != z && l != w && l != f
    && f != x && f != y && f != r && f != z && (f == w ==> f == NIL) && w != x && w != y && w != r && w != z && r != x
       && z != y
  }

  lemma NearWrites(o: map<int, Node>, f: int, x: int, y: int, l: int, w: int)
    requires NIL !in o && x in o && y in o && l in o && o[x].fa == f && o[x].left == l && o[x].right == y
             && o[y].fa == x && o[y].left == NIL && o[y].right == w
    requires ExchangeApart(f, x, y, l, y, x, w)
    ensures Exchanged(o, SwapNear(o, x, y), f, x, y, l, y, x, w)
  {
  }

  lemma DeepWrites(o: map<int, Node>, f: int, x: int, y: int, l: int, r: int, z: int, w: int)
    requires NIL !in o && x in o && y in o && l in o && r in o && z in o && z != x && r != y
    requires o[x].fa == f && o[x].left == l && o[x].right == r && o[y].fa == z && o[y].left == NIL && o[y].right == w
    requires ExchangeApart(f, x, y, l, r, z, w)
    ensures Exchanged(o, SwapDeep(o, x, y), f, x, y, l, r, z, w)
  {
  }

  lemma ExchangeNodes(t: Tree, x: int, y: int)
    requires SwapPair(t, x, y) && Leftward(t, x, y)
    ensures var a, b := t.nodes[x], t.nodes[y]; ExchangeApart(a.fa, x, y, a.left, a.right, b.fa, b.right)
  {
    var f, l, r, z, w := t.nodes[x].fa, t.nodes[x].left, t.nodes[x].right, t.nodes[y].fa, t.nodes[y].right;
    assert NodeOk(t, x) && NodeOk(t, y) && NodeOk(t, l) && NodeOk(t, r) && NodeOk(t, z);
    KidIsSmaller(t, x, l);
    KidIsSmaller(t, x, r);
    KidIsSmaller(t, z, y);
    if w != NIL {
      KidIsSmaller(t, y, w);
      assert NodeOk(t, w);
    }
    if f != NIL {
      KidIsSmaller(t, f, x);
    }
  }

  /** A successor that is not the right kid is a left kid. */
  lemma LeftKid(t: Tree, x: int, y: int)
    requires Sound(t) && Leftward(t, x, y) && t.nodes[y].fa in t.nodes
    ensures t.nodes[y].fa == x ==> t.nodes[x].right == y
    ensures t.nodes[y].fa != x ==> t.nodes[t.nodes[y].fa].left == y && t.nodes[x].right != y
  {
    var z := t.nodes[y].fa;
    assert NodeOk(t, y) && NodeOk(t, z) && NodeOk(t, x);
    if Pos(t, z) == Pos(t, x) {
      OnePerPosition(t, z, x);
    }
  }

  ghost predicate Exchanging(t: Tree, u: map<int, Node>, x: int, y: int) {
    && SwapPair(t, x, y) && Leftward(t, x, y) && (t.nodes[y].fa == x || t.nodes[t.nodes[y].fa].left == y)
       && (t.nodes[y].fa == x <==> t.nodes[x].right == y)
    && var a, b := t.nodes[x], t.nodes[y];
       ExchangeApart(a.fa, x, y, a.left, a.right, b.fa, b.right)
       && Exchanged(t.nodes, u, a.fa, x, y, a.left, a.right, b.fa, b.right)
  }

  lemma ExchangeFar(t: Tree, u: map<int, Node>, x: int, y: int, m: int)
    requires Exchanging(t, u, x, y) && m in t.nodes
    requires m != x && m != y && m != t.nodes[x].left && m != t.nodes[x].right && m != t.nodes[x].fa
             && m != t.nodes[y].fa && m != t.nodes[y].right
    ensures u[m] == Swapped(t.nodes, x, y)[m]
  {
    assert NodeOk(t, x) && NodeOk(t, y) && NodeOk(t, m);
  }

  lemma ExchangeAbove(t: Tree, u: map<int, Node>, x: int, y: int, m: int)
    requires Exchanging(t, u, x, y) && m in t.nodes && (m == t.nodes[x].fa || m == t.nodes[y].fa) && m != x
    ensures u[m] == Swapped(t.nodes, x, y)[m]
  {
    assert NodeOk(t, x) && NodeOk(t, y) && NodeOk(t, m);
  }

  lemma ExchangeBelow(t: Tree, u: map<int, Node>, x: int, y: int, m: int)
    requires Exchanging(t, u, x, y) && m in t.nodes
             && (m == t.nodes[x].left || m == t.nodes[x].right || m == t.nodes[y].right) && m != t.nodes[y].fa && m != y
    ensures u[m] == Swapped(t.nodes, x, y)[m]
  {
    assert NodeOk(t, x) && NodeOk(t, y) && NodeOk(t, m);
  }

  lemma ExchangePair(t: Tree, u: map<int, Node>, x: int, y: int, m: int)
    requires Exchanging(t, u, x, y) && (m == x || m == y)
    ensures u[m] == Swapped(t.nodes, x, y)[m]
  {
    assert NodeOk(t, x) && NodeOk(t, y);
  }

  /** The writes exchange the two nodes. */
  lemma ExchangeIsSwap(t: Tree, u: map<int, Node>, x: int, y: int)
    requires Exchanging(t, u, x, y)
    ensures u == Swapped(t.nodes, x, y)
  {
    forall m | m in t.nodes ensures u[m] == Swapped(t.nodes, x, y)[m] {
      if m == x || m == y {
        ExchangePair(t, u, x, y, m);
      } else if m == t.nodes[x].fa || m == t.nodes[y].fa {
        ExchangeAbove(t, u, x, y, m);
      } else if m == t.nodes[x].left || m == t.nodes[x].right || m == t.nodes[y].right {
        ExchangeBelow(t, u, x, y, m);
      } else {
        ExchangeFar(t, u, x, y, m);
      }
    }
  }

  lemma SwapWritten(t: Tree, x: int, y: int)
    requires SwapPair(t, x, y) && Leftward(t, x, y)
    ensures Swapped(t.nodes, x, y) == if t.nodes[y].fa == x then SwapNear(t.nodes, x, y) else SwapDeep(t.nodes, x, y)
  {
    var a, b := t.nodes[x], t.nodes[y];
    assert NodeOk(t, x) && NodeOk(t, y);
    LeftKid(t, x, y);
    ExchangeNodes(t, x, y);
    if b.fa == x {
      NearWrites(t.nodes, a.fa, x, y, a.left, b.right);
      ExchangeIsSwap(t, SwapNear(t.nodes, x, y), x, y);
    } else {
      DeepWrites(t.nodes, a.fa, x, y, a.left, a.right, b.fa, b.right);
      ExchangeIsSwap(t, SwapDeep(t.nodes, x, y), x, y);
    }
  }

  /** The pair is as the source finds it. */
  lemma PairFound(t: Tree, x: int, y: int)
    requires Sound(t) && Leftward(t, x, y) && t.nodes[y].left == NIL && t.nodes[x].left != NIL
             && t.nodes[x].right != NIL
    ensures SwapPair(t, x, y)
  {
    assert NodeOk(t, x) && NodeOk(t, y);
    assert Inside(t.info[y], Pos(t, y)) && Inside(t.info[x], Pos(t, y));
    KidIsSmaller(t, x, t.nodes[x].left);
    if t.nodes[x].fa == y {
      KidIsSmaller(t, y, x);
    }
  }

  // ---------------------------------------------------------------- the node goes

  /** The links leave one node out. */
  ghost predicate Removed(t: Tree, u: Tree, x: int) {
    && x in t.nodes && u.nodes.Keys == t.nodes.Keys - {x}
    && forall m :: m in u.nodes ==> u.nodes[m].key == t.nodes[m].key && u.nodes[m].value == t.nodes[m].value
  }

  lemma DropCalm(t: Tree, x: int, m: int)
    requires Ok(t) && CanDrop(t, x) && m in WithoutLeaf(t, x).nodes
    ensures CalmAt(WithoutLeaf(t, x).nodes, m)
  {
    assert CalmAt(t.nodes, m) && NodeOk(t, m) && NodeOk(t, x);
  }

  /** What is unlinked is a red leaf, so the black heights stay. */
  lemma UnlinkKeeps(t: Tree, p: int, x: int, del: int) returns (v: Tree, u: Tree)
    requires Made(t, p, x, x) && Tracks(t, x, x, del) && (t.nodes[x].left == NIL || t.nodes[x].right == NIL)
    ensures IsRed(t.nodes, x) && t.nodes[x].left == NIL && t.nodes[x].right == NIL && p in t.nodes
            && p == t.nodes[x].fa && p != x
    ensures CanDrop(t, x) && v == WithoutLeaf(t, x) && v.root in v.nodes && v.root in v.info
            && u == PaintRoot(v, Black) && RedBlack(u) && Removed(t, u, x)
  {
    GoesAsRedLeaf(t, p, x, del);
    v := DropKeeps(t, x);
    forall m | m in v.nodes ensures CalmAt(v.nodes, m) {
      DropCalm(t, x, m);
    }
    u := BlackRoot(v);
  }

  lemma GoesAsRedLeaf(t: Tree, p: int, x: int, del: int)
    requires Made(t, p, x, x) && Tracks(t, x, x, del) && (t.nodes[x].left == NIL || t.nodes[x].right == NIL)
    ensures IsRed(t.nodes, x) && t.nodes[x].left == NIL && t.nodes[x].right == NIL && p in t.nodes
            && p == t.nodes[x].fa && p != x && CanDrop(t, x) && WithoutLeaf(t, x).root in WithoutLeaf(t, x).nodes
  {
    KidsAbsent(t, x);
    RedLeaf(t, x);
    assert NodeOk(t, x) && NodeOk(t, p);
  }

  lemma BlackRoot(v: Tree) returns (u: Tree)
    requires Ok(v) && v.gone == NIL && v.root in v.nodes
    ensures v.root in v.info && u == PaintRoot(v, Black) && RedBlack(u) && SameShape(v, u)
  {
    u := PaintRootKeeps(v, Black);
    forall m | m in u.nodes ensures CalmAt(u.nodes, m) {
      assert CalmAt(v.nodes, m) && NodeOk(v, m);
    }
  }

  lemma KidsAbsent(t: Tree, x: int)
    requires Sound(t) && x in t.nodes
    ensures !IsRed(t.nodes, NIL)
  {
  }

  /** The loop comes closer: no node leaves or enters an interval that only shrinks. */
  lemma FewerLeft(t: Tree, u: Tree, n0: int, n: int)
    requires Sound(t) && Sound(u) && SameData(t, u) && u.gone == t.gone && u.gonePos == t.gonePos && n0 in t.nodes
             && n in u.nodes && Within(u.info[n], t.info[n0])
    ensures Count(u, n) <= Count(t, n0)
  {
    var a, b := Members(u, u.info[n]), Members(t, t.info[n0]);
    assert a <= b;
    assert b == a + (b - a);
  }

  /** A step down from a red node. */
  lemma EntryDown(t: Tree, p: int, n: int, x: int, del: int)
    requires Made(t, p, n, x) && Tracks(t, n, x, del) && n != x
    ensures var c := Kid(t.nodes[n], if del < t.nodes[n].key then L else R);
        var s := if c == t.nodes[n].left then t.nodes[n].right else t.nodes[n].left;
      Entry(t, n, c, s, x, del) && Count(t, c) < Count(t, n)
  {
    TracksDown(t, n, x, del);
    var d := if del < t.nodes[n].key then R else L;
    var c := Kid(t.nodes[n], Other(d));
    var s := if c == t.nodes[n].left then t.nodes[n].right else t.nodes[n].left;
    assert NodeOk(t, n);
    assert Kin(t, n, c, s, d);
  }

  /** The loop starts at the root. */
  lemma EntryAtRoot(t: Tree, x: int, del: int)
    requires RedBlack(t) && x in t.nodes && t.nodes[x].key == del
    requires !(t.nodes[t.root].key == del && t.nodes[t.root].left == NIL && t.nodes[t.root].right == NIL)
    ensures Entry(t, t.root, t.root, t.root, x, del)
  {
    RootHoldsAll(t, Pos(t, x));
    assert NodeOk(t, t.root);
    if x != t.root {
      Leads(t, t.root, x);
    }
  }

  /** A root without kids is the only node. */
  lemma OnlyNode(t: Tree, m: int)
    requires Sound(t) && t.root in t.nodes && t.nodes[t.root].left == NIL && t.nodes[t.root].right == NIL
             && m in t.nodes
    ensures m == t.root
  {
    RootHoldsAll(t, Pos(t, m));
    Finds(t, t.root, m);
  }
}
