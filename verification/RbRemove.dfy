/** Removal from the top down: whatever node the search comes to is made red first. */
module RbRemove {
  import opened RbModel
  import opened RbRotate
  import opened RbColor
  import opened RbInsert
  import opened RbDescent

  /** A tree in the middle of a removal: its root may be red. */
  ghost predicate Ok(t: Tree) {
    Sound(t) && Calm(t.nodes)
  }

  /** n and s are the two kids of p, s on side d. */
  ghost predicate Brothers(t: Tree, p: int, n: int, s: int, d: Side) {
    p in t.nodes && n in t.nodes && s in t.nodes && Kid(t.nodes[p], d) == s && Kid(t.nodes[p], Other(d)) == n
  }

  /** A black node under a red one has a black brother. */
  lemma HasBrother(t: Tree, p: int, d: Side)
    requires Ok(t) && p in t.nodes && t.nodes[p].color == Red && Kid(t.nodes[p], Other(d)) in t.nodes
    ensures var n, s := Kid(t.nodes[p], Other(d)), Kid(t.nodes[p], d);
      n != NIL && t.nodes[n].color == Black && Brothers(t, p, n, s, d) && t.nodes[s].color == Black && n != s
  {
    var n, s := Kid(t.nodes[p], Other(d)), Kid(t.nodes[p], d);
    assert NodeOk(t, p) && CalmAt(t.nodes, p);
    HasHeight(t, n);
    HasHeight(t, s);
  }

  // ---------------------------------------------------------------- case 1.1

  /** Neither brother has a red kid: they take over the red of their father. */
  lemma Sink(t: Tree, p: int, n: int, s: int, d: Side) returns (u: Tree)
    requires Ok(t) && Brothers(t, p, n, s, d) && t.nodes[p].color == Red
    requires KidsCool(t.nodes, n) && KidsCool(t.nodes, s)
    ensures CanFlip(t, p, Black) && u == Flip(t, p, Black) && Ok(u) && SameShape(t, u)
            && t.info[n] == u.info[n].(bh := t.info[n].bh) && IsRed(u.nodes, n)
  {
    HasBrother(t, p, d);
    u := FlipKeeps(t, p, Black);
    FlipFacts(t, p, Black);
    assert NodeOk(t, p);
    forall m | m in u.nodes ensures CalmAt(u.nodes, m) {
      SinkAt(t, p, n, s, d, m);
    }
  }

  lemma SinkAt(t: Tree, p: int, n: int, s: int, d: Side, m: int)
    requires Ok(t) && Brothers(t, p, n, s, d) && t.nodes[p].color == Red && KidsCool(t.nodes, n)
             && KidsCool(t.nodes, s) && CanFlip(t, p, Black) && m in t.nodes
    ensures CalmAt(Flip(t, p, Black).nodes, m)
  {
    FlipFacts(t, p, Black);
    assert CalmAt(t.nodes, m) && NodeOk(t, m) && NodeOk(t, p);
    if m != p {
      OneFather(t, m, p);
    }
  }

  // ---------------------------------------------------------------- cases 2.1 and 2.2.1

  /** A black node with one red kid changes places and colours with it. */
  ghost predicate CanLift(t: Tree, n: int, d: Side) {
    && Ok(t) && n in t.nodes && t.nodes[n].color == Black && IsRed(t.nodes, Kid(t.nodes[n], d))
       && !IsRed(t.nodes, Kid(t.nodes[n], Other(d)))
  }

  lemma LiftAt(t: Tree, u: Tree, f: int, n: int, c: int, b: int, d: Side, m: int)
    requires CanLift(t, n, d) && Turning(t, u, f, n, c, b, d) && m in t.nodes
    ensures CalmAt(u.nodes, m)
  {
    assert CalmAt(t.nodes, m) && CalmAt(t.nodes, c);
    assert Linked(t, m) && Linked(t, n) && Linked(t, c) by {
      assert NodeOk(t, m) && NodeOk(t, n) && NodeOk(t, c);
    }
  }

  lemma Lift(t: Tree, n: int, d: Side) returns (u: Tree)
    requires CanLift(t, n, d)
    ensures CanTurn(t, n, d) && u == TurnRed(t, n, d) && Ok(u) && SameData(t, u) && u.gone == t.gone
            && u.gonePos == t.gonePos
    ensures var c := Kid(t.nodes[n], d); Turning(t, u, t.nodes[n].fa, n, c, Kid(t.nodes[c], Other(d)), d)
  {
    u := TurnRedKeeps(t, n, d);
    var c, f := Kid(t.nodes[n], d), t.nodes[n].fa;
    var b := Kid(t.nodes[c], Other(d));
    TurnData(t, u, f, n, c, b, d);
    forall m | m in u.nodes ensures CalmAt(u.nodes, m) {
      LiftAt(t, u, f, n, c, b, d, m);
    }
  }

  // ---------------------------------------------------------------- case 1.2, outer

  /** The brother has a red kid on the far side. */
  ghost predicate CanBorrow(t: Tree, p: int, n: int, s: int, d: Side) {
    && Ok(t) && Brothers(t, p, n, s, d) && t.nodes[p].color == Red && KidsCool(t.nodes, n) && t.nodes[s].color == Black
       && t.nodes[n].color == Black
  }

  /** The colours a borrowing step leaves: the node on top and n red, the two between black. */
  function BorrowColours(nodes: map<int, Node>, top: int, e: int, p: int, n: int): map<int, Node> {
    Painted(Painted(Painted(Painted(nodes, n, Red), top, Red), e, Black), p, Black)
  }

  lemma BorrowOuter(t: Tree, p: int, n: int, s: int, d: Side) returns (u: Tree)
    requires CanBorrow(t, p, n, s, d) && IsRed(t.nodes, Kid(t.nodes[s], d))
    ensures Sound(u) && u.gone == t.gone && u.gonePos == t.gonePos
    ensures OuterDone(t.nodes, u.nodes, t.nodes[p].fa, p, n, s, Kid(t.nodes[s], Other(d)), Kid(t.nodes[s], d), d)
    ensures u.root == (if t.root == p then s else t.root) && u.info[n] == t.info[n].(bh := u.info[n].bh)
  {
    var e := Kid(t.nodes[s], d);
    var w := OuterTurn(t, p, n, s, d);
    SixNodes(t, p, n, s, d);
    u := FlipKeeps(w, s, Red);
    FlipFacts(w, s, Red);
    OuterRest(t.nodes, w.nodes, t.nodes[p].fa, p, n, s, Kid(t.nodes[s], Other(d)), e, d);
  }

  /** First p and its kids exchange colours. */
  lemma OuterFlip(t: Tree, p: int, n: int, s: int, d: Side) returns (v: Tree)
    requires CanBorrow(t, p, n, s, d)
    ensures Sound(v) && CanTurn(v, p, d) && v.root == t.root && v.gone == t.gone && v.gonePos == t.gonePos
            && s in v.nodes && v.nodes[s].color == Red && s != n
    ensures n in v.info && n in t.info && v.info[n] == t.info[n].(bh := v.info[n].bh)
    ensures v.nodes == t.nodes[p := t.nodes[p].(color := Black)][s := t.nodes[s].(color := Red)]
              [n := t.nodes[n].(color := Red)]
  {
    assert NodeOk(t, p);
    v := FlipKeeps(t, p, Black);
    FlipFacts(t, p, Black);
  }

  lemma OuterTurn(t: Tree, p: int, n: int, s: int, d: Side) returns (w: Tree)
    requires CanBorrow(t, p, n, s, d) && IsRed(t.nodes, Kid(t.nodes[s], d))
    ensures CanFlip(w, s, Red) && w.gone == t.gone && w.gonePos == t.gonePos
    ensures OuterHalf(t.nodes, w.nodes, t.nodes[p].fa, p, n, s, Kid(t.nodes[s], Other(d)), d)
    ensures w.root == (if t.root == p then s else t.root) && n in w.info && n in t.info
            && w.info[n] == t.info[n].(bh := w.info[n].bh)
  {
    SixNodes(t, p, n, s, d);
    var v := OuterFlip(t, p, n, s, d);
    w := TurnRedKeeps(v, p, d);
    OuterHalfway(t.nodes, v, w, t.nodes[p].fa, p, n, s, Kid(t.nodes[s], Other(d)), Kid(t.nodes[s], d), d);
  }

  /** What the step does to each node. */
  ghost predicate OuterDone(o: map<int, Node>, u: map<int, Node>, f: int, p: int, n: int, s: int, b: int, e: int,
                            d: Side) {
    && u.Keys == o.Keys && p in o && n in o && s in o && e in o
    && u[p] == WithKid(o[p], d, b).(fa := s, color := Black)
    && u[s] == WithKid(o[s], Other(d), p).(fa := f, color := Red)
    && u[e] == o[e].(color := Black) && u[n] == o[n].(color := Red)
    && (b in o ==> u[b] == o[b].(fa := p))
    && (f in o ==> u[f] == Adopt(o[f], p, s))
    && forall m :: m in o && m != p && m != n && m != s && m != e && m != b && m != f ==> u[m] == o[m]
  }

  ghost predicate SixApart(f: int, p: int, n: int, s: int, b: int, e: int) {
    && Apart(f, p, s, b) && n != p && n != s && n != b && n != f && e != p && e != s && e != n && e != b && e != f
  }

  lemma SixNodes(t: Tree, p: int, n: int, s: int, d: Side)
    requires Sound(t) && Brothers(t, p, n, s, d) && Kid(t.nodes[s], d) in t.nodes
    ensures SixApart(t.nodes[p].fa, p, n, s, Kid(t.nodes[s], Other(d)), Kid(t.nodes[s], d))
  {
    assert NodeOk(t, p) && NodeOk(t, s) && NodeOk(t, n) && NodeOk(t, Kid(t.nodes[s], d));
    FourNodes(t, p, d);
    OneFather(t, s, p);
    if t.nodes[p].fa != NIL {
      NotBelow(t, t.nodes[p].fa, p);
      KidIsSmaller(t, t.nodes[p].fa, p);
      KidIsSmaller(t, p, s);
      KidIsSmaller(t, s, Kid(t.nodes[s], d));
    }
  }

  /** After the rotation, before the last recolouring. */
  ghost predicate OuterHalf(o: map<int, Node>, w: map<int, Node>, f: int, p: int, n: int, s: int, b: int, d: Side) {
    && w.Keys == o.Keys && p in o && n in o && s in o
    && w[p] == WithKid(o[p], d, b).(fa := s, color := Red)
    && w[s] == WithKid(o[s], Other(d), p).(fa := f, color := Black)
    && w[n] == o[n].(color := Red)
    && (b in o ==> w[b] == o[b].(fa := p))
    && (f in o ==> w[f] == Adopt(o[f], p, s))
    && forall m :: m in o && m != p && m != n && m != s && m != b && m != f ==> w[m] == o[m]
  }

  lemma OuterHalfway(o: map<int, Node>, v: Tree, w: Tree, f: int, p: int, n: int, s: int, b: int, e: int, d: Side)
    requires NIL !in o && p in o && n in o && s in o && e in o && SixApart(f, p, n, s, b, e)
    requires v.nodes == o[p := o[p].(color := Black)][s := o[s].(color := Red)][n := o[n].(color := Red)]
             && TurnsRed(v, w, f, p, s, b, d)
    ensures OuterHalf(o, w.nodes, f, p, n, s, b, d)
  {
  }

  lemma OuterRest(o: map<int, Node>, w: map<int, Node>, f: int, p: int, n: int, s: int, b: int, e: int, d: Side)
    requires OuterHalf(o, w, f, p, n, s, b, d) && SixApart(f, p, n, s, b, e) && e in o && e == Kid(o[s], d)
    ensures OuterDone(o, Flipped(w, s, Red), f, p, n, s, b, e, d)
  {
  }

  /** The statements of the source do just that. */
  lemma OuterWrites(o: map<int, Node>, w: map<int, Node>, f: int, p: int, n: int, s: int, b: int, e: int, d: Side)
    requires Moved(o, w, f, p, s, b, d) && SixApart(f, p, n, s, b, e) && e in o && n in o
    ensures OuterDone(o, BorrowColours(Painted(Painted(w, p, Red), s, Black), s, e, p, n), f, p, n, s, b, e, d)
  {
  }

  lemma OuterCalm(t: Tree, u: map<int, Node>, f: int, p: int, n: int, s: int, b: int, e: int, d: Side, m: int)
    requires CanBorrow(t, p, n, s, d) && e == Kid(t.nodes[s], d) && b == Kid(t.nodes[s], Other(d)) && f == t.nodes[p].fa
    requires IsRed(t.nodes, e) && SixApart(f, p, n, s, b, e) && OuterDone(t.nodes, u, f, p, n, s, b, e, d)
             && m in t.nodes
    ensures CalmAt(u, m)
  {
    assert CalmAt(t.nodes, m);
    assert Linked(t, m) && Linked(t, p) && Linked(t, s) by {
      assert NodeOk(t, m) && NodeOk(t, p) && NodeOk(t, s);
    }
  }

  /** Case 1.2.1: the far kid of the brother is red. */
  lemma BorrowFar(t: Tree, p: int, n: int, s: int, d: Side) returns (u: Tree)
    requires CanBorrow(t, p, n, s, d) && IsRed(t.nodes, Kid(t.nodes[s], d))
    ensures Ok(u) && u.gone == t.gone && u.gonePos == t.gonePos
    ensures OuterDone(t.nodes, u.nodes, t.nodes[p].fa, p, n, s, Kid(t.nodes[s], Other(d)), Kid(t.nodes[s], d), d)
    ensures u.root == (if t.root == p then s else t.root) && u.info[n] == t.info[n].(bh := u.info[n].bh)
    ensures CanTurn(t, p, d)
    ensures var m := Painted(Painted(Turned(t.nodes, p, d), p, Red), s, Black);
        u.nodes == BorrowColours(m, s, Kid(t.nodes[s], d), p, n)
  {
    var e, b, f := Kid(t.nodes[s], d), Kid(t.nodes[s], Other(d)), t.nodes[p].fa;
    u := BorrowOuter(t, p, n, s, d);
    SixNodes(t, p, n, s, d);
    forall m | m in u.nodes ensures CalmAt(u.nodes, m) {
      OuterCalm(t, u.nodes, f, p, n, s, b, e, d, m);
    }
    TurnMoves(t, p, d);
    OuterWrites(t.nodes, Turned(t.nodes, p, d), f, p, n, s, b, e, d);
    var w := Painted(Painted(Turned(t.nodes, p, d), p, Red), s, Black);
    OuterUnique(t.nodes, u.nodes, BorrowColours(w, s, e, p, n), f, p, n, s, b, e, d);
  }

  lemma OuterUnique(o: map<int, Node>, u: map<int, Node>, v: map<int, Node>, f: int, p: int, n: int, s: int, b: int,
                    e: int, d: Side)
    requires OuterDone(o, u, f, p, n, s, b, e, d) && OuterDone(o, v, f, p, n, s, b, e, d) && NIL !in o
    ensures u == v
  {
    forall m | m in o ensures u[m] == v[m] {
    }
  }

  // ---------------------------------------------------------------- case 1.2, inner

  ghost predicate InnerDone(o: map<int, Node>, u: map<int, Node>, f: int, p: int, n: int, s: int, x: int, b: int,
                            c: int, d: Side) {
    && u.Keys == o.Keys && p in o && n in o && s in o && x in o
    && u[p] == WithKid(o[p], d, c).(fa := x, color := Black)
    && u[s] == WithKid(o[s], Other(d), b).(fa := x, color := Black)
    && u[x] == WithKid(WithKid(o[x], d, s), Other(d), p).(fa := f, color := Red)
    && u[n] == o[n].(color := Red)
    && (b in o ==> u[b] == o[b].(fa := s))
    && (c in o ==> u[c] == o[c].(fa := p))
    && (f in o ==> u[f] == Adopt(o[f], p, x))
    && forall m :: m in o && m != p && m != n && m != s && m != x && m != b && m != c && m != f ==> u[m] == o[m]
  }

  ghost predicate SevenApart(f: int, p: int, n: int, s: int, x: int, b: int, c: int) {
    TwistApart(f, p, s, x, b, c) && n != f && n != p && n != s && n != x && n != b && n != c
  }

  lemma SevenNodes(t: Tree, p: int, n: int, s: int, d: Side)
    requires Sound(t) && Brothers(t, p, n, s, d) && Kid(t.nodes[s], Other(d)) in t.nodes
    ensures var x := Kid(t.nodes[s], Other(d));
        SevenApart(t.nodes[p].fa, p, n, s, x, Kid(t.nodes[x], d), Kid(t.nodes[x], Other(d)))
  {
    var x := Kid(t.nodes[s], Other(d));
    assert NodeOk(t, p) && NodeOk(t, s) && NodeOk(t, n) && NodeOk(t, x);
    TwistNodes(t, p, d);
    OneFather(t, s, p);
    OneFather(t, x, p);
    KidIsSmaller(t, p, n);
    if t.nodes[p].fa != NIL {
      KidIsSmaller(t, t.nodes[p].fa, p);
    }
  }

  /** After the first rotation and the recolouring of p and its kids. */
  ghost predicate InnerStart(o: map<int, Node>, v: map<int, Node>, p: int, n: int, s: int, x: int, b: int, d: Side) {
    && v.Keys == o.Keys && p in o && n in o && s in o && x in o
    && v[p] == WithKid(o[p], d, x).(color := Black)
    && v[s] == WithKid(o[s], Other(d), b).(fa := x, color := Red)
    && v[x] == WithKid(o[x], d, s).(fa := p, color := Red)
    && v[n] == o[n].(color := Red)
    && (b in o ==> v[b] == o[b].(fa := s))
    && forall m :: m in o && m != p && m != n && m != s && m != x && m != b ==> v[m] == o[m]
  }

  lemma InnerFlip(t: Tree, w: Tree, p: int, n: int, s: int, x: int, b: int, c: int, d: Side)
    requires CanBorrow(t, p, n, s, d) && x == Kid(t.nodes[s], Other(d)) && IsRed(t.nodes, x)
             && SevenApart(t.nodes[p].fa, p, n, s, x, b, c)
    requires Sound(w) && TurnsRed(t, w, p, s, x, b, Other(d)) && b == Kid(t.nodes[x], d) && NIL !in t.nodes
             && Kid(t.nodes[p], Other(d)) != s
    ensures CanFlip(w, p, Black) && InnerStart(t.nodes, Flipped(w.nodes, p, Black), p, n, s, x, b, d)
  {
  }

  lemma InnerFirst(t: Tree, p: int, n: int, s: int, d: Side) returns (v: Tree)
    requires CanBorrow(t, p, n, s, d) && IsRed(t.nodes, Kid(t.nodes[s], Other(d)))
    ensures Sound(v) && v.gone == t.gone && v.gonePos == t.gonePos && v.root == t.root
    ensures var x := Kid(t.nodes[s], Other(d)); InnerStart(t.nodes, v.nodes, p, n, s, x, Kid(t.nodes[x], d), d)
    ensures n in v.info && v.info[n] == t.info[n].(bh := v.info[n].bh)
  {
    var x := Kid(t.nodes[s], Other(d));
    var b, c := Kid(t.nodes[x], d), Kid(t.nodes[x], Other(d));
    assert NodeOk(t, p) && NodeOk(t, s);
    SevenNodes(t, p, n, s, d);
    var w := TurnRedKeeps(t, s, Other(d));
    InnerFlip(t, w, p, n, s, x, b, c, d);
    v := FlipKeeps(w, p, Black);
    InnerInfo(t, w, v, p, n, s, x, b, d);
  }

  lemma InnerInfo(t: Tree, w: Tree, v: Tree, p: int, n: int, s: int, x: int, b: int, d: Side)
    requires Sound(t) && TurnsRed(t, w, p, s, x, b, Other(d)) && SameShape(w, v) && n in t.nodes && n != s && n != x
    requires s != t.root && w.info.Keys == t.info.Keys
    ensures n in v.info && v.info[n] == t.info[n].(bh := v.info[n].bh) && v.root == t.root
  {
  }

  /** After the second rotation. */
  ghost predicate InnerHalf(o: map<int, Node>, w: map<int, Node>, f: int, p: int, n: int, s: int, x: int, b: int,
                            c: int, d: Side) {
    && w.Keys == o.Keys && p in o && n in o && s in o && x in o
    && w[p] == WithKid(o[p], d, c).(fa := x, color := Red)
    && w[s] == WithKid(o[s], Other(d), b).(fa := x, color := Red)
    && w[x] == WithKid(WithKid(o[x], d, s), Other(d), p).(fa := f, color := Black)
    && w[n] == o[n].(color := Red)
    && (b in o ==> w[b] == o[b].(fa := s))
    && (c in o ==> w[c] == o[c].(fa := p))
    && (f in o ==> w[f] == Adopt(o[f], p, x))
    && forall m :: m in o && m != p && m != n && m != s && m != x && m != b && m != c && m != f ==> w[m] == o[m]
  }

  lemma InnerMoves(o: map<int, Node>, v: Tree, w: Tree, f: int, p: int, n: int, s: int, x: int, b: int, c: int, d: Side)
    requires SevenApart(f, p, n, s, x, b, c) && InnerStart(o, v.nodes, p, n, s, x, b, d)
             && TurnsRed(v, w, f, p, x, c, d) && NIL !in o
    ensures InnerHalf(o, w.nodes, f, p, n, s, x, b, c, d)
  {
  }

  lemma InnerRest(o: map<int, Node>, w: map<int, Node>, f: int, p: int, n: int, s: int, x: int, b: int, c: int, d: Side)
    requires SevenApart(f, p, n, s, x, b, c) && InnerHalf(o, w, f, p, n, s, x, b, c, d)
    ensures KidsAre(w, x, Red) && InnerDone(o, Flipped(w, x, Red), f, p, n, s, x, b, c, d)
  {
  }

  lemma InnerWrites(o: map<int, Node>, w: map<int, Node>, f: int, p: int, n: int, s: int, x: int, b: int, c: int,
                    d: Side)
    requires TwistMoved(o, w, f, p, s, x, b, c, d) && SevenApart(f, p, n, s, x, b, c) && n in o
    ensures InnerDone(o, BorrowColours(Painted(Painted(w, p, Red), x, Black), x, s, p, n), f, p, n, s, x, b, c, d)
  {
  }

  lemma BorrowInner(t: Tree, p: int, n: int, s: int, d: Side) returns (u: Tree)
    requires CanBorrow(t, p, n, s, d) && IsRed(t.nodes, Kid(t.nodes[s], Other(d)))
    ensures Sound(u) && u.gone == t.gone && u.gonePos == t.gonePos
    ensures var x := Kid(t.nodes[s], Other(d));
        InnerDone(t.nodes, u.nodes, t.nodes[p].fa, p, n, s, x, Kid(t.nodes[x], d), Kid(t.nodes[x], Other(d)), d)
    ensures u.root == (if t.root == p then Kid(t.nodes[s], Other(d)) else t.root)
            && u.info[n] == t.info[n].(bh := u.info[n].bh)
  {
    var x, f := Kid(t.nodes[s], Other(d)), t.nodes[p].fa;
    var b, c := Kid(t.nodes[x], d), Kid(t.nodes[x], Other(d));
    SevenNodes(t, p, n, s, d);
    var w := InnerSecond(t, p, n, s, x, b, c, d);
    InnerRest(t.nodes, w.nodes, f, p, n, s, x, b, c, d);
    u := FlipKeeps(w, x, Red);
  }

  /** Both rotations. */
  lemma InnerSecond(t: Tree, p: int, n: int, s: int, x: int, b: int, c: int, d: Side) returns (w: Tree)
    requires CanBorrow(t, p, n, s, d) && x == Kid(t.nodes[s], Other(d)) && IsRed(t.nodes, x)
    requires b == Kid(t.nodes[x], d) && c == Kid(t.nodes[x], Other(d)) && SevenApart(t.nodes[p].fa, p, n, s, x, b, c)
    ensures Sound(w) && w.gone == t.gone && w.gonePos == t.gonePos && w.root == (if t.root == p then x else t.root)
    ensures InnerHalf(t.nodes, w.nodes, t.nodes[p].fa, p, n, s, x, b, c, d)
    ensures n in w.info && n in t.info && w.info[n] == t.info[n].(bh := w.info[n].bh)
  {
    var v := InnerFirst(t, p, n, s, d);
    w := TurnRedKeeps(v, p, d);
    InnerMoves(t.nodes, v, w, t.nodes[p].fa, p, n, s, x, b, c, d);
  }

  lemma InnerCalm(t: Tree, u: map<int, Node>, f: int, p: int, n: int, s: int, x: int, b: int, c: int, d: Side, m: int)
    requires CanBorrow(t, p, n, s, d) && x == Kid(t.nodes[s], Other(d)) && x in t.nodes && b == Kid(t.nodes[x], d)
             && c == Kid(t.nodes[x], Other(d)) && f == t.nodes[p].fa
    requires IsRed(t.nodes, x) && SevenApart(f, p, n, s, x, b, c) && InnerDone(t.nodes, u, f, p, n, s, x, b, c, d)
             && m in t.nodes
    ensures CalmAt(u, m)
  {
    if m == n || m == s || m == p || m == x || m == f {
      InnerCalmNear(t, u, f, p, n, s, x, b, c, d, m);
    } else {
      assert CalmAt(t.nodes, m) && NodeOk(t, m) && NodeOk(t, p);
    }
  }

  lemma InnerCalmNear(t: Tree, u: map<int, Node>, f: int, p: int, n: int, s: int, x: int, b: int, c: int, d: Side,
                      m: int)
    requires CanBorrow(t, p, n, s, d) && x == Kid(t.nodes[s], Other(d)) && x in t.nodes && b == Kid(t.nodes[x], d)
             && c == Kid(t.nodes[x], Other(d)) && f == t.nodes[p].fa
    requires IsRed(t.nodes, x) && SevenApart(f, p, n, s, x, b, c) && InnerDone(t.nodes, u, f, p, n, s, x, b, c, d)
    requires m in t.nodes && (m == n || m == s || m == p || m == x || m == f)
    ensures CalmAt(u, m)
  {
    assert CalmAt(t.nodes, m) && CalmAt(t.nodes, x);
    assert Linked(t, m) && Linked(t, p) && Linked(t, s) by {
      assert NodeOk(t, m) && NodeOk(t, p) && NodeOk(t, s);
    }
  }

  /** Case 1.2.2: the near kid of the brother is red. */
  lemma BorrowNear(t: Tree, p: int, n: int, s: int, d: Side) returns (u: Tree)
    requires CanBorrow(t, p, n, s, d) && IsRed(t.nodes, Kid(t.nodes[s], Other(d)))
    ensures Ok(u) && u.gone == t.gone && u.gonePos == t.gonePos
    ensures var x := Kid(t.nodes[s], Other(d));
        InnerDone(t.nodes, u.nodes, t.nodes[p].fa, p, n, s, x, Kid(t.nodes[x], d), Kid(t.nodes[x], Other(d)), d)
    ensures u.root == (if t.root == p then Kid(t.nodes[s], Other(d)) else t.root)
            && u.info[n] == t.info[n].(bh := u.info[n].bh)
    ensures CanTwist(t, p, d)
    ensures var x := Kid(t.nodes[s], Other(d)); var m := Painted(Painted(Twisted(t.nodes, p, d), p, Red), x, Black);
        u.nodes == BorrowColours(m, x, s, p, n)
  {
    var x, f := Kid(t.nodes[s], Other(d)), t.nodes[p].fa;
    var b, c := Kid(t.nodes[x], d), Kid(t.nodes[x], Other(d));
    u := BorrowInner(t, p, n, s, d);
    SevenNodes(t, p, n, s, d);
    forall m | m in u.nodes ensures CalmAt(u.nodes, m) {
      InnerCalm(t, u.nodes, f, p, n, s, x, b, c, d, m);
    }
    TwistWrites(t.nodes, p, d);
    InnerWrites(t.nodes, Twisted(t.nodes, p, d), f, p, n, s, x, b, c, d);
    var w := Painted(Painted(Twisted(t.nodes, p, d), p, Red), x, Black);
    InnerUnique(t.nodes, u.nodes, BorrowColours(w, x, s, p, n), f, p, n, s, x, b, c, d);
  }

  lemma InnerUnique(o: map<int, Node>, u: map<int, Node>, v: map<int, Node>, f: int, p: int, n: int, s: int, x: int,
                    b: int, c: int, d: Side)
    requires InnerDone(o, u, f, p, n, s, x, b, c, d) && InnerDone(o, v, f, p, n, s, x, b, c, d) && NIL !in o
    ensures u == v
  {
    forall m | m in o ensures u[m] == v[m] {
    }
  }
}
