/** The ordered map's tree, with the pointers of its nodes rewritten in place. */
module RedBlackTree {
  import opened RbModel
  import opened RbRotate
  import opened RbColor
  import opened RbInsert
  import opened RbDescent
  import opened RbSwap
  import opened RbRemove
  import opened RbUnlink

  /** What the map holds. */
  ghost function Entries(nodes: map<int, Node>): set<(int, Value)> {
    set n | n in nodes :: (nodes[n].key, nodes[n].value)
  }

  lemma SameEntries(t: Tree, u: Tree)
    requires SameData(t, u)
    ensures Entries(u.nodes) == Entries(t.nodes)
  {
    forall n | n in t.nodes ensures (t.nodes[n].key, t.nodes[n].value) in Entries(u.nodes) {
      assert n in u.nodes && u.nodes[n].key == t.nodes[n].key;
    }
    forall n | n in u.nodes ensures (u.nodes[n].key, u.nodes[n].value) in Entries(t.nodes) {
    }
  }

  class RedBlackTree {
    var nodes: map<int, Node>
    var root: int
    var head: int
    var rear: int
    var len: int
    /** The next address handed out. */
    var next: int
    ghost var info: map<int, Info>
    ghost var gone: int
    ghost var gonePos: int

    ghost function T(): Tree
      reads this
    {
      Tree(nodes, root, info, gone, gonePos)
    }

    ghost predicate Valid()
      reads this
    {
      && RedBlack(T()) && len == |nodes| && next > 0 && (forall n :: n in nodes ==> n < next)
      && IsEnd(T(), head, L) && IsEnd(T(), rear, R)
    }

    constructor ()
      ensures Valid() && Entries(nodes) == {}
    {
      nodes, root, head, rear, len, next := map[], NIL, NIL, NIL, 0, 1;
      info, gone, gonePos := map[], NIL, 0;
    }

    /** The node with the key, if there is one. */
    method Find(key: int) returns (n: int)
      requires RedBlack(T())
      ensures n != NIL ==> n in nodes && nodes[n].key == key
      ensures n == NIL ==> forall v :: (key, v) !in Entries(nodes)
    {
      n := root;
      if n != NIL {
        RootHoldsAll(T(), 2 * key);
      }
      while n != NIL && nodes[n].key != key
        invariant n != NIL ==> n in nodes
        invariant Covers(T(), n, 2 * key)
        decreases if n in nodes then Count(T(), n) + 1 else 0
      {
        FindOn(T(), n, 2 * key);
        n := if key < nodes[n].key then nodes[n].left else nodes[n].right;
      }
    }

    /** front() and back(): the node at one end. */
    method End(d: Side) returns (n: int)
      requires RedBlack(T())
      ensures IsEnd(T(), n, d)
    {
      n := root;
      if n == NIL {
        return;
      }
      RootHoldsAll(T(), 0);
      assert NodeOk(T(), root);
      while Kid(nodes[n], d) != NIL
        invariant n in nodes && OpenEnded(T(), n, d)
        decreases Count(T(), n)
      {
        EndOn(T(), n, d);
        n := Kid(nodes[n], d);
      }
      EndReached(T(), n, d);
    }

    method SetEnds()
      requires RedBlack(T())
      modifies `head, `rear
      ensures IsEnd(T(), head, L) && IsEnd(T(), rear, R)
    {
      head := End(L);
      rear := End(R);
    }

    /** The two single rotations, LL and RR, with their colours. */
    method Rotate(g: int, d: Side)
      requires CanTurn(T(), g, d)
      modifies `nodes, `root
      ensures nodes == Painted(Painted(Turned(old(nodes), g, d), g, Red), Kid(old(nodes)[g], d), Black)
      ensures root == if old(root) == g then Kid(old(nodes)[g], d) else old(root)
    {
      TurnStands(T(), g, d);
      ghost var t := T();
      var p, f := Kid(nodes[g], d), nodes[g].fa;
      nodes := Adopted(nodes, f, g, p);
      nodes := WithFa(nodes, p, f);
      var b := Kid(nodes[p], Other(d));
      nodes := nodes[g := WithKid(nodes[g], d, b)];
      nodes := WithFa(nodes, b, g);
      nodes := nodes[p := WithKid(nodes[p], Other(d), g)];
      nodes := WithFa(nodes, g, p);
      nodes := Painted(nodes, g, Red);
      nodes := Painted(nodes, p, Black);
      ClimbToRoot(t.root, g, p);
    }

    /** The two double rotations, LR and RL, with their colours. */
    method RotateTwice(g: int, d: Side)
      requires CanTwist(T(), g, d)
      modifies `nodes, `root
      ensures var x := Kid(old(nodes)[Kid(old(nodes)[g], d)], Other(d));
        && nodes == Painted(Painted(Twisted(old(nodes), g, d), g, Red), x, Black)
        && root == if old(root) == g then x else old(root)
    {
      TwistStands(T(), g, d);
      ghost var t := T();
      var p, f := Kid(nodes[g], d), nodes[g].fa;
      var x := Kid(nodes[p], Other(d));
      nodes := Adopted(nodes, f, g, x);
      nodes := WithFa(nodes, x, f);
      var c := Kid(nodes[x], Other(d));
      nodes := nodes[g := WithKid(nodes[g], d, c)];
      nodes := WithFa(nodes, c, g);
      var b := Kid(nodes[x], d);
      nodes := nodes[p := WithKid(nodes[p], Other(d), b)];
      nodes := WithFa(nodes, b, p);
      nodes := nodes[x := WithKid(nodes[x], d, p)];
      nodes := WithFa(nodes, p, x);
      nodes := nodes[x := WithKid(nodes[x], Other(d), g)];
      nodes := WithFa(nodes, g, x);
      nodes := Painted(nodes, g, Red);
      nodes := Painted(nodes, x, Black);
      ClimbToRoot(t.root, g, x);
    }

    method ClimbToRoot(ghost was: int, ghost g: int, ghost top: int)
      requires root == was && Stands(nodes, root, g, top)
      modifies `root
      ensures root == if was == g then top else was
    {
      while nodes[root].fa != NIL
        invariant root == was || (was == g && root == top)
        invariant root in nodes
        decreases if root == g then 1 else 0
      {
        root := nodes[root].fa;
      }
    }

    /** Let no red node stand under a red one. */
    method InsertAdjust(g: int, p: int, n: int)
      requires CanAdjust(T(), g, p, n)
      modifies `nodes, `root, `info
      ensures T() == Adjusted(old(T()), g, p, n)
    {
      ghost var t := T();
      if nodes[p].color == Black {
        return;
      }
      if p == root {
        AdjustRootOk(t, p);
        nodes := nodes[p := nodes[p].(color := Black)];
        info := PaintRoot(t, Black).info;
        return;
      }
      AdjustOk(t, g, p, n);
      var d := if nodes[g].left == p then L else R;
      if Kid(nodes[p], d) == n {
        Rotate(g, d);
        info := TurnRed(t, g, d).info;
        OuterWritten(t, g, p, d);
      } else {
        Rotate2(t, g, p, n, d);
      }
    }

    method Rotate2(ghost t: Tree, g: int, p: int, n: int, d: Side)
      requires t == T() && CanBring(t, g, p, n, d)
      modifies `nodes, `root, `info
      ensures CanTurn(t, p, Other(d)) && CanTurn(TurnRed(t, p, Other(d)), g, d)
              && T() == TurnRed(TurnRed(t, p, Other(d)), g, d)
    {
      ghost var u := BringAndSettle(t, g, p, n, d);
      RotateTwice(g, d);
      info := u.info;
    }

    /** Adds a key that is not there. */
    method Insert(key: int, value: Value)
      requires Valid() && forall v :: (key, v) !in Entries(nodes)
      modifies this
      ensures Valid() && Entries(nodes) == old(Entries(nodes)) + {(key, value)} && len == old(len) + 1
    {
      if root == NIL {
        InsertFirst(key, value);
        return;
      }
      Grow(key, value);
      SetEnds();
    }

    method Grow(key: int, value: Value)
      requires Valid() && root != NIL && forall v :: (key, v) !in Entries(nodes)
      modifies `nodes, `root, `info, `len, `next
      ensures RedBlack(T()) && next > 0 && (forall n :: n in nodes ==> n < next) && len == |nodes|
              && len == old(len) + 1
      ensures Entries(nodes) == old(Entries(nodes)) + {(key, value)}
    {
      ghost var t0 := T();
      StartDescent(t0, key);
      var g, q := Descend(key);
      Landed(t0, g, q, key, value);
    }

    /** Down to where the key belongs, with the tree made ready on the way. */
    method Descend(key: int) returns (g: int, q: int)
      requires Head(T(), 2 * key, root, root, root)
      modifies `nodes, `root, `info
      ensures Head(T(), 2 * key, g, q, NIL) && SameData(old(T()), T())
    {
      ghost var x, t0 := 2 * key, T();
      var n := root;
      g, q := n, n;
      while n != NIL
        invariant Head(T(), x, g, q, n) && SameData(t0, T())
        decreases Rank(T(), x, n)
      {
        HeadKnown(T(), x, g, q, n);
        if KidsRed(nodes, n) {
          Recoloured(x, g, q, n);
        } else {
          PassOn(T(), x, g, q, n);
          PassRanks(T(), x, n);
        }
        g, q, n := q, n, if key < nodes[n].key then nodes[n].left else nodes[n].right;
      }
    }

    method InsertFirst(key: int, value: Value)
      requires Valid() && root == NIL
      modifies this
      ensures Valid() && Entries(nodes) == old(Entries(nodes)) + {(key, value)} && len == old(len) + 1
    {
      var n := next;
      nodes := map[n := Node(key, value, NIL, NIL, NIL, Black)];
      root, head, rear := n, n, n;
      info := map[n := Info(Open, Open, 1)];
      len, next := len + 1, next + 1;
      FirstNode(T(), n, key, value);
    }

    /** Two red kids hand their red up. */
    method Recoloured(ghost x: int, g: int, q: int, n: int)
      requires Head(T(), x, g, q, n) && n != NIL && KidsRed(nodes, n)
      modifies `nodes, `root, `info
      ensures n in nodes && Head(T(), x, q, n, Kid(nodes[n], SideOf(x, Pos(T(), n)))) && SameData(old(T()), T())
      ensures Rank(T(), x, Kid(nodes[n], SideOf(x, Pos(T(), n)))) < old(Rank(T(), x, n))
    {
      ghost var v, u := Recolour(T(), x, g, q, n);
      ghost var t := T();
      var l, r := nodes[n].left, nodes[n].right;
      FlipFacts(t, n, Red);
      nodes := Painted(Painted(Painted(nodes, n, Red), l, Black), r, Black);
      info := v.info;
      assert T() == v;
      InsertAdjust(g, q, n);
    }

    method Landed(ghost t0: Tree, g: int, q: int, key: int, value: Value)
      requires Head(T(), 2 * key, g, q, NIL) && SameData(t0, T()) && next > 0
               && (forall n :: n in t0.nodes ==> n < next) && len == |t0.nodes|
      modifies `nodes, `root, `info, `len, `next
      ensures RedBlack(T()) && next > 0 && (forall n :: n in nodes ==> n < next) && len == |nodes|
              && len == old(len) + 1
      ensures Entries(nodes) == Entries(t0.nodes) + {(key, value)}
    {
      var n := next;
      ghost var t := T();
      len, next := len + 1, next + 1;
      HangLeaf(g, q, n, key, value);
      AddedEntries(t0, t, T(), n, key, value);
    }

    method HangLeaf(g: int, q: int, n: int, key: int, value: Value)
      requires Head(T(), 2 * key, g, q, NIL) && n != NIL && n !in nodes
      modifies `nodes, `root, `info
      ensures RedBlack(T()) && Added(old(T()), T(), n, key, value)
    {
      ghost var v, u := Land(T(), 2 * key, g, q, n, key, value);
      LeafWritten(T(), q, n, key, value);
      nodes := nodes[n := Node(key, value, NIL, NIL, q, Red)];
      nodes := nodes[q := WithKid(nodes[q], if key < nodes[q].key then L else R, n)];
      info := v.info;
      assert T() == v;
      InsertAdjust(g, q, n);
      RootPainted(T());
      nodes := Painted(nodes, root, Black);
    }

    // -------------------------------------------------------------- removal

    /** Make the node at hand red, or come to one that is. */
    method RemoveAdjust(p0: int, n0: int, s0: int, del: int, ghost x: int) returns (p: int, n: int, s: int)
      requires Entry(T(), p0, n0, s0, x, del)
      modifies `nodes, `root, `info
      ensures Exit(old(T()), T(), old(info)[n0], p, n, x, del)
      decreases if IsRed(nodes, n0) then 0 else 2
    {
      p, n, s := p0, n0, s0;
      ghost var t := T();
      if nodes[n].color == Red {
        ExitStays(t, p, n, s, x, del);
        return;
      }
      NotAtRoot(t, p, n, s, x, del);
      if n == root && SameKids(nodes, n) {
        ghost var u := RootDown(t, n);
        var l, r := nodes[n].left, nodes[n].right;
        nodes := Painted(Painted(Painted(nodes, n, Red), l, Black), r, Black);
        info := u.info;
        ExitRoot(t, u, p, n, s, x, del);
        return;
      }
      if KidsCool(nodes, n) {
        s := TakeRed(p, n, s, del, x);
      } else if nodes[n].key == del {
        p, s := LiftFound(p, n, s, del, x);
      } else {
        p, n, s := StepDown(n, del, x);
      }
    }

    /** Case 1: n has no red kid to take the red from. */
    method TakeRed(p: int, n: int, s0: int, del: int, ghost x: int) returns (s: int)
      requires Entry(T(), p, n, s0, x, del) && !IsRed(nodes, n) && n != root && KidsCool(nodes, n)
      modifies `nodes, `root, `info
      ensures Exit(old(T()), T(), old(info)[n], p, n, x, del)
    {
      s := s0;
      ghost var t := T();
      NotAtRoot(t, p, n, s, x, del);
      ghost var e :| Kin(t, p, n, s, e) && Brothers(t, p, n, s, e);
      PairApart(t, p, n, s, e);
      if KidsCool(nodes, s) {
        ghost var u := Sink(t, p, n, s, e);
        SinkWritten(t, p, n, s, e);
        nodes := Painted(Painted(Painted(nodes, p, Black), n, Red), s, Red);
        info := u.info;
        ExitSink(t, u, p, n, s, e, x, del);
      } else {
        var d := if nodes[p].left == s then L else R;
        assert d == e;
        if IsRed(nodes, Kid(nodes[s], d)) {
          TakeFar(p, n, s, d, del, x);
        } else {
          TakeNear(p, n, s, d, del, x);
        }
        s := Kid(nodes[p], d);
      }
    }

    method TakeFar(p: int, n: int, s: int, d: Side, del: int, ghost x: int)
      requires Entry(T(), p, n, s, x, del) && CanBorrow(T(), p, n, s, d) && IsRed(nodes, Kid(nodes[s], d))
      modifies `nodes, `root, `info
      ensures Exit(old(T()), T(), old(info)[n], p, n, x, del) && p in nodes
    {
      ghost var t := T();
      ghost var u := BorrowFar(t, p, n, s, d);
      OuterData(t, u, t.nodes[p].fa, p, n, s, Kid(t.nodes[s], Other(d)), Kid(t.nodes[s], d), d);
      ExitBorrow(t, u, p, n, s, d, x, del);
      FarKid(t, p, s, d);
      Rotate(p, d);
      nodes := BorrowColours(nodes, s, Kid(nodes[s], d), p, n);
      info := u.info;
      assert T() == u;
    }

    method TakeNear(p: int, n: int, s: int, d: Side, del: int, ghost x: int)
      requires Entry(T(), p, n, s, x, del) && CanBorrow(T(), p, n, s, d) && IsRed(nodes, Kid(nodes[s], Other(d)))
      modifies `nodes, `root, `info
      ensures Exit(old(T()), T(), old(info)[n], p, n, x, del) && p in nodes
    {
      ghost var t := T();
      ghost var u := NearStep(t, p, n, s, d, x, del);
      NearTop(t, p, s, d);
      RotateTwice(p, d);
      nodes := BorrowColours(nodes, nodes[p].fa, s, p, n);
      info := u.info;
      assert T() == u;
    }

    /** Case 2.1: n is the node to go and has a red kid. */
    method LiftFound(p0: int, n: int, s0: int, del: int, ghost x: int) returns (p: int, s: int)
      requires Entry(T(), p0, n, s0, x, del) && !IsRed(nodes, n) && !KidsCool(nodes, n) && nodes[n].key == del
      modifies `nodes, `root, `info
      ensures Exit(old(T()), T(), old(info)[n], p, n, x, del)
    {
      p, s := p0, s0;
      KeyTells(T(), n, x, del);
      KidsKnown(T(), n);
      if nodes[n].left != NIL && nodes[n].right != NIL {
        if nodes[nodes[n].right].color == Black {
          p := LiftUp(n, L, del, x);
          s := Kid(nodes[p], L);
        } else {
          ExitFound(T(), p, n, s, x, del);
        }
      } else if nodes[n].left != NIL {
        p := LiftUp(n, L, del, x);
        s := Kid(nodes[p], L);
      } else {
        p := LiftUp(n, R, del, x);
        s := Kid(nodes[p], R);
      }
    }

    /** The red kid on side d goes up, n down. */
    method LiftUp(n: int, d: Side, del: int, ghost x: int) returns (p: int)
      requires CanLift(T(), n, d) && Tracks(T(), n, x, del)
               && (n == x || (if del < nodes[n].key then d == R else d == L))
      modifies `nodes, `root, `info
      ensures Exit(old(T()), T(), old(info)[n], p, n, x, del) && p in nodes && nodes[n].fa == p && IsRed(nodes, n)
              && Kid(nodes[p], Other(d)) == n && p == Kid(old(nodes)[n], d)
    {
      ghost var t := T();
      p := Kid(nodes[n], d);
      ghost var u := Lift(t, n, d);
      OuterWritten(t, n, p, d);
      ExitLift(t, u, n, p, d, x, del);
      Rotate(n, d);
      info := u.info;
      assert T() == u;
    }

    /** Case 2.2: n is not the node to go, but has a red kid. */
    method StepDown(n0: int, del: int, ghost x: int) returns (p: int, n: int, s: int)
      requires Ok(T()) && Tracks(T(), n0, x, del) && !IsRed(nodes, n0) && !KidsCool(nodes, n0) && nodes[n0].key != del
      modifies `nodes, `root, `info
      ensures Exit(old(T()), T(), old(info)[n0], p, n, x, del)
      decreases 1
    {
      ghost var t := T();
      KeyTells(t, n0, x, del);
      TracksDown(t, n0, x, del);
      p := n0;
      n := if del < nodes[p].key then nodes[p].left else nodes[p].right;
      s := if n == nodes[p].left then nodes[p].right else nodes[p].left;
      if nodes[n].color == Red {
        ExitDown(t, p, n, x, del);
        return;
      }
      OtherRed(t, p, n);
      var d := if s == nodes[p].right then R else L;
      var top := LiftUp(p, d, del, x);
      n := p;
      p := top;
      s := if n == nodes[p].left then nodes[p].right else nodes[p].left;
      EntryRed(T(), p, n, s, Other(d), x, del);
      ghost var v := T();
      ExitStays(v, p, n, s, x, del);
      p, n, s := RemoveAdjust(p, n, s, del, x);
    }

    /** The first node to the right of x. */
    method FindNext(x: int) returns (y: int)
      requires Sound(T()) && gone == NIL && x in nodes && nodes[x].right != NIL
      ensures Leftward(T(), x, y) && nodes[y].left == NIL
    {
      NextStarts(T(), x);
      y := nodes[x].right;
      while nodes[y].left != NIL
        invariant Leftward(T(), x, y)
        decreases Count(T(), y)
      {
        NextOn(T(), x, y);
        y := nodes[y].left;
      }
    }

    /** The two nodes change places and colours. */
    method Exchange(x: int, y: int)
      requires SwapPair(T(), x, y) && Leftward(T(), x, y)
      modifies `nodes, `root
      ensures nodes == Swapped(old(nodes), x, y) && root == Sw(x, y, old(root))
    {
      SwapWritten(T(), x, y);
      RootIsNot(T(), y);
      var xfa, yfa := nodes[x].fa, nodes[y].fa;
      var xc, yc := nodes[x].color, nodes[y].color;
      var yl, yr := nodes[y].left, nodes[y].right;
      var xl, xr := nodes[x].left, nodes[x].right;
      nodes := Painted(nodes, y, xc);
      nodes := Painted(nodes, x, yc);
      nodes := Adopted(nodes, xfa, x, y);
      nodes := WithFa(nodes, y, xfa);
      if yfa == x {
        nodes := nodes[x := nodes[x].(left := yl)];
        nodes := WithFa(nodes, yl, x);
        nodes := nodes[x := nodes[x].(right := yr)];
        nodes := WithFa(nodes, yr, x);
        nodes := nodes[y := nodes[y].(left := xl)];
        nodes := WithFa(nodes, xl, y);
        nodes := nodes[y := nodes[y].(right := x)];
        nodes := WithFa(nodes, x, y);
      } else {
        nodes := nodes[yfa := nodes[yfa].(left := x)];
        nodes := WithFa(nodes, x, yfa);
        nodes := nodes[y := nodes[y].(left := xl)];
        nodes := WithFa(nodes, xl, y);
        nodes := nodes[y := nodes[y].(right := xr)];
        nodes := WithFa(nodes, xr, y);
        nodes := nodes[x := nodes[x].(left := NIL, right := yr)];
        nodes := WithFa(nodes, yr, x);
      }
      if x == root {
        root := y;
      }
    }

    /** The node to go, with two kids, moves down to a place with one at most. */
    method MoveDown(ghost p0: int, x: int, del: int) returns (p: int, n: int, s: int)
      requires Made(T(), p0, x, x) && Tracks(T(), x, x, del) && nodes[x].left != NIL && nodes[x].right != NIL
      modifies `nodes, `root, `info, `gone, `gonePos
      ensures Entry(T(), p, n, s, x, del) && gone != NIL && old(gone) == NIL && SameData(old(T()), T())
    {
      ghost var t := T();
      StillInPlace(t, x, del);
      var y := FindNext(x);
      ghost var u := SwapStep(t, p0, x, y, del);
      Exchange(x, y);
      info, gone, gonePos := u.info, u.gone, u.gonePos;
      assert T() == u;
      p, n, s := y, nodes[y].right, nodes[y].left;
    }

    /** The red leaf x leaves the tree, and the root is black again. */
    method Unlink(p: int, x: int, ghost del: int)
      requires Made(T(), p, x, x) && Tracks(T(), x, x, del) && (nodes[x].left == NIL || nodes[x].right == NIL)
      modifies `nodes, `info, `gone
      ensures RedBlack(T()) && Removed(old(T()), T(), x)
    {
      ghost var t := T();
      ghost var v, u := UnlinkKeeps(t, p, x, del);
      if nodes[p].left == x {
        nodes := nodes[p := nodes[p].(left := nodes[x].right)];
      } else {
        nodes := nodes[p := nodes[p].(right := nodes[x].right)];
      }
      nodes := nodes - {x};
      assert nodes == v.nodes;
      nodes := nodes[root := nodes[root].(color := Black)];
      info, gone := u.info, NIL;
      assert T() == u;
    }

    /** Down to the node with the key, which then goes. */
    method Withdraw(del: int, ghost x: int)
      requires Entry(T(), root, root, root, x, del)
      modifies `nodes, `root, `info, `gone, `gonePos
      ensures RedBlack(T()) && Removed(old(T()), T(), x)
    {
      var p, n, s := root, root, root;
      ghost var t0 := T();
      while true
        invariant Entry(T(), p, n, s, x, del) && SameData(t0, T())
        decreases gone == NIL, Count(T(), n)
      {
        ghost var t, n0 := T(), n;
        p, n, s := RemoveAdjust(p, n, s, del, x);
        DataChain(t0, t, T());
        FewerLeft(t, T(), n0, n);
        KeyTells(T(), n, x, del);
        if nodes[n].key == del && nodes[n].left != NIL && nodes[n].right != NIL {
          ghost var v := T();
          p, n, s := MoveDown(p, n, del);
          DataChain(t0, v, T());
        } else if nodes[n].key == del {
          ghost var v := T();
          Unlink(p, n, del);
          RemovedChain(t0, v, T(), x);
          return;
        } else {
          EntryDown(T(), p, n, x, del);
          p := n;
          n := if del < nodes[p].key then nodes[p].left else nodes[p].right;
          s := if n == nodes[p].left then nodes[p].right else nodes[p].left;
        }
      }
    }

    /** Takes out a key that is there. */
    method Remove(del: int)
      requires Valid() && exists v :: (del, v) in Entries(nodes)
      modifies this
      ensures Valid() && len == old(len) - 1
      ensures forall e :: e in Entries(nodes) <==> e in old(Entries(nodes)) && e.0 != del
    {
      ghost var x :| x in nodes && nodes[x].key == del;
      ghost var t := T();
      RootThere(t, x);
      if nodes[root].key == del && nodes[root].left == NIL && nodes[root].right == NIL {
        RemoveOnly(del, x);
        return;
      }
      EntryAtRoot(t, x, del);
      RemoveOne(del, x);
    }

    method RemoveOne(del: int, ghost x: int)
      requires Valid() && x in nodes && nodes[x].key == del && Entry(T(), root, root, root, x, del)
      modifies this
      ensures Valid() && len == old(len) - 1
      ensures forall e :: e in Entries(nodes) <==> e in old(Entries(nodes)) && e.0 != del
    {
      ghost var t := T();
      Withdraw(del, x);
      RemovedEntries(t, T(), x, del);
      len := len - 1;
      SetEnds();
    }

    method RemoveOnly(ghost del: int, ghost x: int)
      requires Valid() && x in nodes && nodes[x].key == del && root in nodes && nodes[root].left == NIL
               && nodes[root].right == NIL
      modifies this
      ensures Valid() && len == old(len) - 1
      ensures forall e :: e in Entries(nodes) <==> e in old(Entries(nodes)) && e.0 != del
    {
      ghost var t := T();
      OnlyRoot(t);
      OnlyNode(t, x);
      len := len - 1;
      nodes := map[];
      root, head, rear := NIL, NIL, NIL;
      info := map[];
      assert len == 0;
    }
  }

  // ---------------------------------------------------------------- searching

  /** Whatever stands at x stands below n. */
  ghost predicate Covers(t: Tree, n: int, x: int) {
    forall m {:trigger Pos(t, m)} :: m in t.nodes && Pos(t, m) == x ==>
        n in t.nodes && n in t.info && Inside(t.info[n], x)
  }

  lemma FindOn(t: Tree, n: int, x: int)
    requires Sound(t) && n in t.nodes && Covers(t, n, x) && Pos(t, n) != x
    ensures var c := Kid(t.nodes[n], SideOf(x, Pos(t, n)));
      Covers(t, c, x) && (c != NIL ==> c in t.nodes && Count(t, c) < Count(t, n))
  {
    var c := Kid(t.nodes[n], SideOf(x, Pos(t, n)));
    assert NodeOk(t, n);
    if c != NIL {
      KidIsSmaller(t, n, c);
    }
    forall m | m in t.nodes && Pos(t, m) == x ensures c in t.nodes && c in t.info && Inside(t.info[c], x) {
      Leads(t, n, m);
    }
  }

  /** n is the first node, or the last. */
  ghost predicate IsEnd(t: Tree, n: int, d: Side) {
    if t.root == NIL then n == NIL
    else n in t.nodes && forall m :: m in t.nodes ==>
        if d == L then t.nodes[n].key <= t.nodes[m].key else t.nodes[m].key <= t.nodes[n].key
  }

  ghost predicate OpenEnded(t: Tree, n: int, d: Side) {
    n in t.info && if d == L then t.info[n].lo == Open else t.info[n].hi == Open
  }

  lemma EndOn(t: Tree, n: int, d: Side)
    requires Sound(t) && n in t.nodes && OpenEnded(t, n, d) && Kid(t.nodes[n], d) != NIL
    ensures var c := Kid(t.nodes[n], d); c in t.nodes && OpenEnded(t, c, d) && Count(t, c) < Count(t, n)
  {
    assert NodeOk(t, n);
    KidIsSmaller(t, n, Kid(t.nodes[n], d));
  }

  lemma EndReached(t: Tree, n: int, d: Side)
    requires Sound(t) && t.gone == NIL && n in t.nodes && OpenEnded(t, n, d) && Kid(t.nodes[n], d) == NIL
    ensures IsEnd(t, n, d)
  {
    assert NodeOk(t, n);
    forall m | m in t.nodes
      ensures if d == L then t.nodes[n].key <= t.nodes[m].key else t.nodes[m].key <= t.nodes[n].key
    {
      NoneBeyond(t, n, d, m);
    }
  }

  lemma NoneBeyond(t: Tree, n: int, d: Side, m: int)
    requires Sound(t) && n in t.nodes && m in t.nodes && OpenEnded(t, n, d) && Kid(t.nodes[n], d) == NIL
    ensures if d == L then Pos(t, n) <= Pos(t, m) else Pos(t, m) <= Pos(t, n)
  {
    assert NodeOk(t, n);
    if m != n && Inside(t.info[n], Pos(t, m)) {
      Leads(t, n, m);
    }
  }

  // ---------------------------------------------------------------- insertion

  lemma OuterWritten(t: Tree, g: int, p: int, d: Side)
    requires CanTurn(t, g, d) && p == Kid(t.nodes[g], d) && t.nodes[g].color == Black
    ensures Painted(Painted(Turned(t.nodes, g, d), g, Red), p, Black) == TurnRed(t, g, d).nodes
  {
    FourNodes(t, g, d);
    TurnMoves(t, g, d);
  }

  lemma BringAndSettle(t: Tree, g: int, p: int, n: int, d: Side) returns (u: Tree)
    requires CanBring(t, g, p, n, d)
    ensures CanTurn(t, p, Other(d)) && CanTurn(TurnRed(t, p, Other(d)), g, d)
            && u == TurnRed(TurnRed(t, p, Other(d)), g, d)
    ensures CanTwist(t, g, d) && u.nodes == Painted(Painted(Twisted(t.nodes, g, d), g, Red), n, Black)
    ensures u.root == (if t.root == g then n else t.root) && u.gone == t.gone && u.gonePos == t.gonePos
  {
    var v := Bring(t, g, p, n, d);
    u := Settle(v, g, n, p, d);
    assert NodeOk(t, p);
    TwistIsTwoTurns(t, v, u, g, p, n, d);
  }

  /** A tree of one black node. */
  lemma FirstNode(t: Tree, n: int, key: int, value: Value)
    requires t.nodes == map[n := Node(key, value, NIL, NIL, NIL, Black)] && t.info == map[n := Info(Open, Open, 1)]
    requires t.root == n != NIL && t.gone == NIL
    ensures RedBlack(t) && IsEnd(t, n, L) && IsEnd(t, n, R) && Entries(t.nodes) == {(key, value)} && |t.nodes| == 1
  {
    assert NodeOk(t, n) && CalmAt(t.nodes, n);
  }

  lemma StartDescent(t: Tree, key: int)
    requires RedBlack(t) && t.root != NIL && forall v :: (key, v) !in Entries(t.nodes)
    ensures Head(t, 2 * key, t.root, t.root, t.root)
  {
    forall m | m in t.nodes ensures Pos(t, m) != 2 * key {
      assert (t.nodes[m].key, t.nodes[m].value) in Entries(t.nodes);
    }
  }

  lemma RootPainted(t: Tree)
    requires RedBlack(t)
    ensures Painted(t.nodes, t.root, Black) == t.nodes
  {
  }

  lemma AddedEntries(t0: Tree, t: Tree, u: Tree, n: int, key: int, value: Value)
    requires SameData(t0, t) && Added(t, u, n, key, value)
    ensures Entries(u.nodes) == Entries(t0.nodes) + {(key, value)} && |u.nodes| == |t0.nodes| + 1
            && u.nodes.Keys == t0.nodes.Keys + {n}
  {
    SameEntries(t0, t);
    forall e ensures e in Entries(u.nodes) <==> e in Entries(t.nodes) + {(key, value)} {
      if e in Entries(t.nodes) {
        var m :| m in t.nodes && e == (t.nodes[m].key, t.nodes[m].value);
        assert m in u.nodes && e == (u.nodes[m].key, u.nodes[m].value);
      }
      assert n in u.nodes && (key, value) == (u.nodes[n].key, u.nodes[n].value);
    }
    assert |u.nodes| == |u.nodes.Keys| && |t0.nodes| == |t0.nodes.Keys|;
  }

  /** The writes that hang a new leaf. */
  lemma LeafWritten(t: Tree, q: int, n: int, key: int, value: Value)
    requires Sound(t) && q in t.nodes && n !in t.nodes && t.gone == NIL
    ensures var m, d := t.nodes[n := Node(key, value, NIL, NIL, q, Red)], SideOf(2 * key, Pos(t, q));
        m[q := WithKid(m[q], if key < m[q].key then L else R, n)] == WithLeaf(t, q, d, n, key, value).nodes
  {
  }

  // ---------------------------------------------------------------- removal

  lemma PairApart(t: Tree, p: int, n: int, s: int, d: Side)
    requires Ok(t) && Brothers(t, p, n, s, d)
    ensures n != s && s != NIL && Kid(t.nodes[p], Other(d)) != s
  {
    assert NodeOk(t, p);
  }

  lemma SinkWritten(t: Tree, p: int, n: int, s: int, d: Side)
    requires Ok(t) && Brothers(t, p, n, s, d) && CanFlip(t, p, Black)
    ensures Painted(Painted(Painted(t.nodes, p, Black), n, Red), s, Red) == Flip(t, p, Black).nodes
  {
    FlipFacts(t, p, Black);
  }

  /** A single rotation leaves the far kid where it was. */
  lemma FarKid(t: Tree, p: int, s: int, d: Side)
    requires CanTurn(t, p, d) && s == Kid(t.nodes[p], d)
    ensures var m := Painted(Painted(Turned(t.nodes, p, d), p, Red), s, Black);
        s in m && Kid(m[s], d) == Kid(t.nodes[s], d)
  {
    FourNodes(t, p, d);
    TurnMoves(t, p, d);
  }

  lemma NearStep(t: Tree, p: int, n: int, s: int, d: Side, x: int, del: int) returns (u: Tree)
    requires Entry(t, p, n, s, x, del) && CanBorrow(t, p, n, s, d) && IsRed(t.nodes, Kid(t.nodes[s], Other(d)))
    ensures n in t.info && Exit(t, u, t.info[n], p, n, x, del) && p in u.nodes && CanTwist(t, p, d)
    ensures var y := Kid(t.nodes[s], Other(d));
      && u.nodes == BorrowColours(Painted(Painted(Twisted(t.nodes, p, d), p, Red), y, Black), y, s, p, n)
      && u.root == if t.root == p then y else t.root
  {
    u := BorrowNear(t, p, n, s, d);
    var y := Kid(t.nodes[s], Other(d));
    InnerData(t, u, t.nodes[p].fa, p, n, s, y, Kid(t.nodes[y], d), Kid(t.nodes[y], Other(d)), d);
    ExitBorrow(t, u, p, n, s, d, x, del);
  }

  /** A double rotation puts the inner grandkid on top. */
  lemma NearTop(t: Tree, p: int, s: int, d: Side)
    requires CanTwist(t, p, d) && s == Kid(t.nodes[p], d)
    ensures var y := Kid(t.nodes[s], Other(d)); var m := Painted(Painted(Twisted(t.nodes, p, d), p, Red), y, Black);
        p in m && m[p].fa == y
  {
    TwistNodes(t, p, d);
    TwistWrites(t.nodes, p, d);
  }

  lemma KidsKnown(t: Tree, n: int)
    requires Sound(t) && n in t.nodes
    ensures t.nodes[n].left != NIL ==> t.nodes[n].left in t.nodes
    ensures t.nodes[n].right != NIL ==> t.nodes[n].right in t.nodes
    ensures t.nodes[n].left == t.nodes[n].right ==> t.nodes[n].left == NIL
    ensures NIL !in t.nodes
  {
    assert NodeOk(t, n);
  }

  lemma ExitFound(t: Tree, p: int, n: int, s: int, x: int, del: int)
    requires Entry(t, p, n, s, x, del) && n == x && t.nodes[n].left != NIL && IsRed(t.nodes, t.nodes[n].right)
    ensures Exit(t, t, t.info[n], p, n, x, del)
  {
    KidsKnown(t, n);
    assert NodeOk(t, n) && NodeOk(t, p);
  }

  /** If one kid is black and not both are, the other is red. */
  lemma OtherRed(t: Tree, p: int, n: int)
    requires Ok(t) && p in t.nodes && !IsRed(t.nodes, p) && !KidsCool(t.nodes, p) && n in t.nodes && !IsRed(t.nodes, n)
             && (n == t.nodes[p].left || n == t.nodes[p].right)
    ensures CanLift(t, p, if n == t.nodes[p].left then R else L) && t.nodes[p].left != t.nodes[p].right
  {
    KidsKnown(t, p);
  }

  lemma EntryRed(t: Tree, p: int, n: int, s: int, e: Side, x: int, del: int)
    requires Ok(t) && Tracks(t, n, x, del) && p in t.nodes && IsRed(t.nodes, n) && Kid(t.nodes[p], e) == n
    requires s == if n == t.nodes[p].left then t.nodes[p].right else t.nodes[p].left
    ensures Entry(t, p, n, s, x, del)
  {
    KidsKnown(t, p);
    assert Kin(t, p, n, s, Other(e));
  }

  lemma RootIsNot(t: Tree, y: int)
    requires Sound(t) && y in t.nodes && t.nodes[y].fa in t.nodes
    ensures t.root != y
  {
    assert NodeOk(t, y);
  }

  /** A node with a left kid has not changed places yet. */
  lemma StillInPlace(t: Tree, x: int, del: int)
    requires Sound(t) && Tracks(t, x, x, del) && t.nodes[x].left != NIL
    ensures t.gone == NIL
  {
    if t.gone != NIL {
      NoLeftOfGone(t, x, del);
    }
  }

  lemma SwapStep(t: Tree, p: int, x: int, y: int, del: int) returns (u: Tree)
    requires Made(t, p, x, x) && Tracks(t, x, x, del) && t.nodes[x].left != NIL && t.nodes[x].right != NIL
    requires Leftward(t, x, y) && t.nodes[y].left == NIL
    ensures SwapPair(t, x, y) && SameData(t, u) && u.nodes == Swapped(t.nodes, x, y) && u.root == Sw(x, y, t.root)
    ensures u.gone == x != NIL && y in u.nodes
    ensures Entry(u, y, u.nodes[y].right, u.nodes[y].left, x, del)
  {
    StillInPlace(t, x, del);
    NextReached(t, x, y);
    PairFound(t, x, y);
    u := SwapKeeps(t, x, y);
    SwapCalm(t, x, y);
    EntryAfterSwap(t, u, p, x, y, del);
    SwapData(t, x, y);
  }

  lemma SwapData(t: Tree, x: int, y: int)
    requires Successor(t, x, y)
    ensures SameData(t, SwapOut(t, x, y))
  {
  }

  lemma DataChain(t: Tree, u: Tree, v: Tree)
    requires SameData(t, u) && SameData(u, v)
    ensures SameData(t, v)
  {
  }

  lemma RemovedChain(t: Tree, u: Tree, v: Tree, x: int)
    requires SameData(t, u) && Removed(u, v, x)
    ensures Removed(t, v, x)
  {
  }

  lemma RootThere(t: Tree, x: int)
    requires Sound(t) && x in t.nodes
    ensures t.root in t.nodes
  {
  }

  lemma OnlyRoot(t: Tree)
    requires Sound(t) && t.root in t.nodes && t.nodes[t.root].left == NIL && t.nodes[t.root].right == NIL
    ensures |t.nodes| == 1
    ensures Entries(t.nodes) == {(t.nodes[t.root].key, t.nodes[t.root].value)}
  {
    forall m | m in t.nodes ensures m == t.root {
      OnlyNode(t, m);
    }
    assert t.nodes.Keys == {t.root};
    assert |t.nodes| == |t.nodes.Keys|;
  }

  lemma RemovedEntries(t: Tree, u: Tree, x: int, del: int)
    requires RedBlack(t) && Removed(t, u, x) && t.nodes[x].key == del
    ensures forall e :: e in Entries(u.nodes) <==> e in Entries(t.nodes) && e.0 != del
    ensures |u.nodes| == |t.nodes| - 1
  {
    forall m | m in t.nodes && t.nodes[m].key == del ensures m == x {
      OnePerPosition(t, m, x);
    }
    forall e ensures e in Entries(u.nodes) <==> e in Entries(t.nodes) && e.0 != del {
      if e in Entries(t.nodes) && e.0 != del {
        var m :| m in t.nodes && e == (t.nodes[m].key, t.nodes[m].value);
        assert m in u.nodes && e == (u.nodes[m].key, u.nodes[m].value);
      }
    }
    assert |u.nodes| == |u.nodes.Keys| && |t.nodes| == |t.nodes.Keys|;
  }

  /** Whether the climb to the root ends at the node that took the place of g. */
  ghost predicate Stands(nodes: map<int, Node>, root: int, g: int, top: int) {
    && root in nodes
    && if root == g then nodes[g].fa == top && top != NIL && top != g && top in nodes && nodes[top].fa == NIL
       else nodes[root].fa == NIL
  }

  lemma RootHasNoFather(t: Tree, g: int)
    requires Sound(t) && g in t.nodes
    ensures t.root in t.nodes && t.nodes[t.root].fa == NIL && (t.nodes[g].fa == NIL <==> t.root == g)
    ensures t.root != g ==> t.nodes[g].fa in t.nodes && t.nodes[g].fa != NIL
  {
    assert NodeOk(t, g) && NodeOk(t, t.root);
  }

  lemma TurnStands(t: Tree, g: int, d: Side)
    requires CanTurn(t, g, d)
    ensures var p := Kid(t.nodes[g], d); Stands(Painted(Painted(Turned(t.nodes, g, d), g, Red), p, Black), t.root, g, p)
  {
    var p := Kid(t.nodes[g], d);
    RootHasNoFather(t, g);
    FourNodes(t, g, d);
    TurnMoves(t, g, d);
    assert NodeOk(t, g) && NodeOk(t, p);
  }

  lemma TwistStands(t: Tree, g: int, d: Side)
    requires CanTwist(t, g, d)
    ensures var x := Kid(t.nodes[Kid(t.nodes[g], d)], Other(d));
        Stands(Painted(Painted(Twisted(t.nodes, g, d), g, Red), x, Black), t.root, g, x)
  {
    var p := Kid(t.nodes[g], d);
    var x := Kid(t.nodes[p], Other(d));
    RootHasNoFather(t, g);
    TwistNodes(t, g, d);
    TwistWrites(t.nodes, g, d);
    assert Linked(t, g) && Linked(t, p) && Linked(t, x) by {
      assert NodeOk(t, g) && NodeOk(t, p) && NodeOk(t, x);
    }
  }
}
