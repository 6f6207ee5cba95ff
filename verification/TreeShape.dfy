/** What the page-by-page invariant means for the tree as a whole, in terms that mention the
    page store alone: the textbook definition of a B+ tree, its in-order listing, and the chain
    of its leaves. */
module TreeShape {
  import opened TreeModel
  import opened TreeSizes

  /** No page is full; the root has an entry, or two children, and every other page is at least half full. */
  ghost predicate HalfToFull(n: Node, isRoot: bool, caps: Caps) {
    match n
    case Leaf(_, keys, _, _) =>
      |keys| < caps.leafMax && (if isRoot then |keys| >= 1 else 2 * |keys| + 1 >= caps.leafMax)
    case Internal(_, keys, _) =>
      |keys| < caps.internalMax && (if isRoot then |keys| >= 2 else 2 * |keys| + 1 >= caps.internalMax)
  }

  /** The subtree at page p is a B+ tree of height h for the keys lo <= k < hi: all leaves at the
      same depth, every page but the root at least half full and none full, separators in order, parent
      ids right. */
  ghost predicate IsBTree(nodes: map<PageId, Node>, p: PageId, h: nat, lo: Bound, hi: Bound, parent: PageId,
                          isRoot: bool, caps: Caps)
    decreases h
  {
    && p in nodes && nodes[p].parent == parent
    && var n := nodes[p];
    && HalfToFull(n, isRoot, caps)
    && if h == 0 then
         && n.Leaf? && |n.keys| == |n.vals| && Increasing(n.keys, 0)
         && forall i :: 0 <= i < |n.keys| ==> InRange(n.keys[i], lo, hi)
       else
         && n.Internal? && |n.keys| == |n.kids|
         && Increasing(n.keys, 1) && (forall i :: 1 <= i < |n.keys| ==> Inside(n.keys[i], lo, hi))
         && forall i :: 0 <= i < |n.kids| ==>
              IsBTree(nodes, n.kids[i], h - 1, KidLo(n, i, lo), KidHi(n, i, hi), p, false, caps)
  }

  /** The keys child i of an inner page is responsible for. */
  ghost function KidLo(n: Node, i: int, lo: Bound): Bound
    requires 0 <= i < |n.keys|
  {
    if i == 0 then lo else At(n.keys[i])
  }

  ghost function KidHi(n: Node, i: int, hi: Bound): Bound
    requires 0 <= i < |n.keys|
  {
    if i == |n.keys| - 1 then hi else At(n.keys[i + 1])
  }

  lemma SizeIsHalfToFull(t: Tree, p: PageId, caps: Caps)
    requires SizeOk(t, p, caps)
    ensures HalfToFull(t.nodes[p], p == t.root, caps)
  {
  }

  /** The invariant is at least the textbook definition. */
  lemma {:induction false} StructIsBTree(t: Tree, p: PageId, caps: Caps)
    requires Struct(t) && Sizes(t, caps) && p in t.info
    ensures p in t.nodes
    ensures IsBTree(t.nodes, p, t.info[p].level, t.info[p].lo, t.info[p].hi, t.nodes[p].parent, p == t.root, caps)
    decreases t.info[p].level
  {
    assert PageOk(t, p) && SizeOk(t, p, caps);
    SizeIsHalfToFull(t, p, caps);
    if t.nodes[p].Internal? {
      var n, f := t.nodes[p], t.info[p];
      forall i | 0 <= i < |n.kids|
        ensures IsBTree(t.nodes, n.kids[i], f.level - 1, KidLo(n, i, f.lo), KidHi(n, i, f.hi), p, false, caps)
      {
        assert KidOk(t, p, i);
        assert PageOk(t, t.nodes[p].kids[i]);
        StructIsBTree(t, t.nodes[p].kids[i], caps);
      }
    }
  }

  // ---------------------------------------------------------------- leaves, left to right

  /** The leaves below page p, h levels down, from left to right. */
  ghost function Leaves(nodes: map<PageId, Node>, p: PageId, h: nat): seq<PageId>
    decreases h, 0
  {
    if h == 0 then [p]
    else if p in nodes && nodes[p].Internal? then LeavesOf(nodes, nodes[p].kids, h - 1)
    else []
  }

  ghost function LeavesOf(nodes: map<PageId, Node>, kids: seq<PageId>, h: nat): seq<PageId>
    decreases h, 1 + |kids|
  {
    if kids == [] then [] else Leaves(nodes, kids[0], h) + LeavesOf(nodes, kids[1..], h)
  }

  /** A run of leaves that covers lo <= k < hi without gaps, each pointing to the next. */
  ghost predicate Chain(t: Tree, ls: seq<PageId>, lo: Bound, hi: Bound) {
    && ls != []
    && (forall i :: 0 <= i < |ls| ==> ls[i] in t.info && ls[i] in t.nodes && t.nodes[ls[i]].Leaf?)
    && t.info[ls[0]].lo == lo && t.info[ls[|ls| - 1]].hi == hi
    && (forall i :: 0 <= i < |ls| - 1 ==> t.nodes[ls[i]].next == ls[i + 1])
  }

  /** Two adjacent runs join: the last leaf of the first points to the first leaf of the second. */
  lemma ChainsJoin(t: Tree, a: seq<PageId>, b: seq<PageId>, lo: Bound, middle: Key, hi: Bound)
    requires Struct(t) && Chain(t, a, lo, At(middle)) && Chain(t, b, At(middle), hi)
    ensures Chain(t, a + b, lo, hi)
  {
    var p, q := a[|a| - 1], b[0];
    assert PageOk(t, p) && PageOk(t, q);
    assert PageOk(t, t.nodes[p].next);
    LevelDisjoint(t, t.nodes[p].next, q, middle);
    var c := a + b;
    forall i | 0 <= i < |c| - 1 ensures t.nodes[c[i]].next == c[i + 1] {
      if i < |a| - 1 {
        assert c[i] == a[i] && c[i + 1] == a[i + 1];
      } else if i >= |a| {
        assert c[i] == b[i - |a|] && c[i + 1] == b[i + 1 - |a|];
      }
    }
  }

  lemma {:induction false} LeavesChain(t: Tree, p: PageId)
    requires Struct(t) && p in t.info
    ensures Chain(t, Leaves(t.nodes, p, t.info[p].level), t.info[p].lo, t.info[p].hi)
    decreases t.info[p].level, 0
  {
    assert PageOk(t, p);
    if t.nodes[p].Internal? {
      KidsChain(t, p, 0);
      assert t.nodes[p].kids[0..] == t.nodes[p].kids;
    }
  }

  lemma {:induction false} KidsChain(t: Tree, p: PageId, i: nat)
    requires Struct(t) && p in t.info && p in t.nodes && t.nodes[p].Internal? && t.info[p].level > 0
    requires |t.nodes[p].keys| == |t.nodes[p].kids| && i < |t.nodes[p].kids|
    ensures Chain(t, LeavesOf(t.nodes, t.nodes[p].kids[i..], t.info[p].level - 1),
                  if i == 0 then t.info[p].lo else At(t.nodes[p].keys[i]), t.info[p].hi)
    decreases t.info[p].level - 1, 1 + |t.nodes[p].kids| - i
  {
    assert PageOk(t, p) && KidOk(t, p, i);
    var n, h := t.nodes[p], t.info[p].level - 1;
    LeavesChain(t, n.kids[i]);
    assert n.kids[i..][1..] == n.kids[i + 1..];
    if i + 1 < |n.kids| {
      KidsChain(t, p, i + 1);
      ChainsJoin(t, Leaves(t.nodes, n.kids[i], h), LeavesOf(t.nodes, n.kids[i + 1..], h), t.info[n.kids[i]].lo,
                 n.keys[i + 1], t.info[p].hi);
    } else {
      assert LeavesOf(t.nodes, n.kids[i..], h) == Leaves(t.nodes, n.kids[i], h);
    }
  }

  // ---------------------------------------------------------------- entries, left to right

  /** The keys of a list of leaves, one after the other. */
  ghost function Listing(nodes: map<PageId, Node>, ls: seq<PageId>): seq<Key> {
    if ls == [] then []
    else (if ls[0] in nodes then nodes[ls[0]].keys else []) + Listing(nodes, ls[1..])
  }

  /** A chain lists exactly the map's keys of its interval, in increasing order. */
  lemma {:induction false} ChainLists(t: Tree, ls: seq<PageId>, lo: Bound, hi: Bound)
    requires Struct(t) && Chain(t, ls, lo, hi)
    ensures var ks := Listing(t.nodes, ls);
      && Increasing(ks, 0)
      && (forall k :: k in ks ==> k in t.content && InRange(k, lo, hi))
      && (forall k :: k in t.content && InRange(k, lo, hi) ==> k in ks)
    decreases |ls|
  {
    var p := ls[0];
    assert PageOk(t, p);
    if |ls| == 1 {
      assert Listing(t.nodes, ls[1..]) == [];
      assert Listing(t.nodes, ls) == t.nodes[p].keys;
    } else {
      ChainTail(t, ls, lo, hi);
      ChainLists(t, ls[1..], t.info[p].hi, hi);
      ListingGrows(t.nodes[p].keys, Listing(t.nodes, ls[1..]), lo, t.info[p].hi.key, hi);
    }
  }

  lemma ChainTail(t: Tree, ls: seq<PageId>, lo: Bound, hi: Bound)
    requires Struct(t) && Chain(t, ls, lo, hi) && |ls| > 1
    ensures t.info[ls[0]].hi.At? && Chain(t, ls[1..], t.info[ls[0]].hi, hi)
    ensures hi.At? ==> t.info[ls[0]].hi.key < hi.key
    decreases |ls|
  {
    assert PageOk(t, ls[0]) && PageOk(t, ls[1]);
    assert t.nodes[ls[0]].next == ls[1];
    if |ls| > 2 {
      assert ls[1..][|ls| - 2] == ls[|ls| - 1];
      ChainTail(t, ls[1..], t.info[ls[1]].lo, hi);
    }
  }

  lemma ListingGrows(a: seq<Key>, b: seq<Key>, lo: Bound, middle: Key, hi: Bound)
    requires Increasing(a, 0) && Increasing(b, 0)
    requires forall i :: 0 <= i < |a| ==> InRange(a[i], lo, At(middle))
    requires forall k :: k in b ==> InRange(k, At(middle), hi)
    ensures Increasing(a + b, 0)
  {
    var c := a + b;
    forall i, j | 0 <= i < j < |c| ensures c[i] < c[j] {
      if i < |a| <= j {
        assert c[j] in b;
      }
    }
  }

  /** The whole store: a B+ tree in the textbook sense whose leaves, in order from left to right,
      are linked to one another and list the keys of the map in increasing order. */
  lemma WholeTree(t: Tree, caps: Caps)
    requires Struct(t) && Sizes(t, caps)
    ensures t.root in t.nodes
    ensures var h := t.info[t.root].level;
      var ls := Leaves(t.nodes, t.root, h);
      && IsBTree(t.nodes, t.root, h, Unbounded, Unbounded, INVALID_PAGE_ID, true, caps)
      && (forall i :: 0 <= i < |ls| - 1 ==>
           ls[i] in t.nodes && t.nodes[ls[i]].Leaf? && t.nodes[ls[i]].next == ls[i + 1])
      && (ls != [] && ls[|ls| - 1] in t.nodes && t.nodes[ls[|ls| - 1]].Leaf?
          && t.nodes[ls[|ls| - 1]].next == INVALID_PAGE_ID)
      && Increasing(Listing(t.nodes, ls), 0)
      && (forall k :: k in Listing(t.nodes, ls) <==> k in t.content)
  {
    assert PageOk(t, t.root);
    StructIsBTree(t, t.root, caps);
    LeavesChain(t, t.root);
    var ls := Leaves(t.nodes, t.root, t.info[t.root].level);
    ChainLists(t, ls, Unbounded, Unbounded);
    assert PageOk(t, ls[|ls| - 1]);
  }
}
