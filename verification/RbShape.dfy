/** What the node-by-node invariant says about the tree as a whole, in terms of its links only. */
module RbShape {
  import opened RbModel

  /** The turns of the path lead from node n off the tree, at its end and not before. */
  ghost predicate Leaves(nodes: map<int, Node>, n: int, path: seq<Side>)
    decreases |path|
  {
    if path == [] then n == NIL
    else n in nodes && Leaves(nodes, Kid(nodes[n], path[0]), path[1..])
  }

  /** The black nodes on the path. */
  ghost function Blacks(nodes: map<int, Node>, n: int, path: seq<Side>): nat
    decreases |path|
  {
    if path == [] || n !in nodes then 0
    else Weight(nodes[n].color) + Blacks(nodes, Kid(nodes[n], path[0]), path[1..])
  }

  lemma {:induction false} PathHeight(t: Tree, n: int, path: seq<Side>)
    requires Sound(t) && Leaves(t.nodes, n, path)
    ensures Blacks(t.nodes, n, path) == Height(t.info, n)
    decreases |path|
  {
    if path != [] {
      assert NodeOk(t, n);
      PathHeight(t, Kid(t.nodes[n], path[0]), path[1..]);
    }
  }

  /** All paths out of the tree pass the same number of black nodes. */
  lemma EqualBlackHeights(t: Tree, p: seq<Side>, q: seq<Side>)
    requires RedBlack(t) && Leaves(t.nodes, t.root, p) && Leaves(t.nodes, t.root, q)
    ensures Blacks(t.nodes, t.root, p) == Blacks(t.nodes, t.root, q)
  {
    PathHeight(t, t.root, p);
    PathHeight(t, t.root, q);
  }

  lemma {:induction false} PathLength(t: Tree, n: int, path: seq<Side>)
    requires Sound(t) && Calm(t.nodes) && Leaves(t.nodes, n, path)
    ensures |path| <= 2 * Blacks(t.nodes, n, path) + if IsRed(t.nodes, n) then 1 else 0
    decreases |path|
  {
    if path != [] {
      assert CalmAt(t.nodes, n);
      PathLength(t, Kid(t.nodes[n], path[0]), path[1..]);
    }
  }

  /** No path is more than twice as long as another. */
  lemma NoPathTwiceAsLong(t: Tree, p: seq<Side>, q: seq<Side>)
    requires RedBlack(t) && Leaves(t.nodes, t.root, p) && Leaves(t.nodes, t.root, q)
    ensures |p| <= 2 * |q|
  {
    EqualBlackHeights(t, p, q);
    PathLength(t, t.root, p);
    BlacksFit(t.nodes, t.root, q);
  }

  lemma {:induction false} BlacksFit(nodes: map<int, Node>, n: int, path: seq<Side>)
    ensures Blacks(nodes, n, path) <= |path|
    decreases |path|
  {
    if path != [] && n in nodes {
      BlacksFit(nodes, Kid(nodes[n], path[0]), path[1..]);
    }
  }

  /** The turns of the path lead from node n to node m. */
  ghost predicate Reaches(nodes: map<int, Node>, n: int, path: seq<Side>, m: int)
    decreases |path|
  {
    if path == [] then n == m
    else n in nodes && Reaches(nodes, Kid(nodes[n], path[0]), path[1..], m)
  }

  lemma {:induction false} ReachedInside(t: Tree, n: int, path: seq<Side>, m: int)
    requires Sound(t) && n in t.nodes && m in t.nodes && Reaches(t.nodes, n, path, m)
    ensures Inside(t.info[n], Pos(t, m))
    decreases |path|
  {
    assert NodeOk(t, n);
    if path != [] {
      var c := Kid(t.nodes[n], path[0]);
      KidIsSmaller(t, n, c);
      ReachedInside(t, c, path[1..], m);
    }
  }

  /** Search order: smaller keys to the left of a node, greater ones to its right. */
  lemma SearchOrder(t: Tree, n: int, d: Side, path: seq<Side>, m: int)
    requires RedBlack(t) && n in t.nodes && m in t.nodes && Reaches(t.nodes, Kid(t.nodes[n], d), path, m)
    ensures if d == L then t.nodes[m].key < t.nodes[n].key else t.nodes[n].key < t.nodes[m].key
  {
    assert NodeOk(t, n);
    var c := Kid(t.nodes[n], d);
    assert c in t.nodes && c != NIL;
    KidIsSmaller(t, n, c);
    ReachedInside(t, c, path, m);
  }

  /** Every node is reached from the root, so what the tree holds is what a search can find. */
  lemma {:induction false} AllReached(t: Tree, m: int) returns (path: seq<Side>)
    requires Sound(t) && m in t.nodes
    ensures Reaches(t.nodes, t.root, path, m)
    decreases |t.nodes| - Count(t, m)
  {
    assert NodeOk(t, m);
    if m == t.root {
      path := [];
    } else {
      var f := t.nodes[m].fa;
      KidIsSmaller(t, f, m);
      NotMoreMembers(t, t.info[f]);
      var up := AllReached(t, f);
      path := up + [if t.nodes[f].left == m then L else R];
      StepFurther(t.nodes, t.root, up, f, path[|up|]);
    }
  }

  lemma {:induction false} StepFurther(nodes: map<int, Node>, n: int, path: seq<Side>, m: int, d: Side)
    requires Reaches(nodes, n, path, m) && m in nodes
    ensures Reaches(nodes, n, path + [d], Kid(nodes[m], d))
    decreases |path|
  {
    if path != [] {
      StepFurther(nodes, Kid(nodes[n], path[0]), path[1..], m, d);
      assert (path + [d])[1..] == path[1..] + [d];
    } else {
      assert (path + [d])[1..] == [];
    }
  }
}
