/** The states a removal passes through on its way up. */
module TreeRemove {
  import opened TreeModel
  import opened TreeMerge
  import opened TreeBorrow
  import opened TreeEdge
  import opened TreeSizes

  /** Page p of tree t may be one slot short and every other page is right. */
  ghost predicate Underfull(t: Tree, p: PageId, caps: Caps) {
    && Struct(t) && CapsOk(caps) && SizesExcept(t, p, caps)
    && p in t.info && p in t.nodes
    && var n := t.nodes[p];
    && |n.keys| < MaxSize(n, caps)
    && |n.keys| >= (if p == t.root then (if n.Leaf? then 0 else 1) else MinSize(n, caps) - 1)
  }

  /** A page that is full enough after all. */
  lemma EnoughLeft(t: Tree, p: PageId, caps: Caps)
    requires Underfull(t, p, caps)
    requires var n := t.nodes[p];
      |n.keys| >= MinSize(n, caps) || (p == t.root && |n.keys| >= (if n.Leaf? then 1 else 2))
    ensures Sizes(t, caps)
  {
    assert SizeOk(t, p, caps);
  }

  /** What a page that is one short finds in its parent: itself, and a sibling of its own kind. */
  lemma Siblings(t: Tree, p: PageId, i: int, caps: Caps)
    requires Underfull(t, p, caps) && p != t.root && |t.nodes[p].keys| < MinSize(t.nodes[p], caps)
    requires var x := t.nodes[p].parent;
      x in t.nodes && t.nodes[x].Internal? && 0 <= i < |t.nodes[x].kids| && t.nodes[x].kids[i] == p
    ensures var x, a := t.nodes[p].parent, if i == 0 then 1 else i;
      && x in t.info && CanMerge(t, x, a) && Site(t, x, a) && t.root != t.nodes[x].kids[a]
      && SizeOk(t, x, caps)
      && x > HEADER_PAGE_ID
  {
    var _ := ParentSlot(t, p);
    var x, a := t.nodes[p].parent, if i == 0 then 1 else i;
    assert PageOk(t, x) && SizeOk(t, x, caps);
    assert KidOk(t, x, a) && KidOk(t, x, a - 1);
    assert PageOk(t, t.nodes[x].kids[a]) && PageOk(t, t.nodes[x].kids[a - 1]);
    SiteOf(t, x, a);
  }

  /** The store after child a of x was emptied into its left sibling. */
  function MergeStore(nodes: map<PageId, Node>, x: PageId, a: int): map<PageId, Node>
    requires x in nodes && nodes[x].Internal? && 0 < a < |nodes[x].kids| == |nodes[x].keys|
    requires nodes[x].kids[a - 1] in nodes && nodes[x].kids[a] in nodes
    requires CanJoin(nodes[nodes[x].kids[a - 1]], nodes[nodes[x].kids[a]])
  {
    var xn := nodes[x];
    var l, r := xn.kids[a - 1], xn.kids[a];
    Adopted(nodes, nodes[r], l)
      [l := Joined(nodes[l], xn.keys[a], nodes[r])]
      [r := Emptied(nodes[r])]
      [x := Internal(xn.parent, RemoveAt(xn.keys, a), RemoveAt(xn.kids, a))]
  }

  /** Siblings that fit into one page are merged; now the parent may be one short. */
  lemma MergeStep(t: Tree, p: PageId, x: PageId, a: int, caps: Caps) returns (u: Tree)
    requires Underfull(t, p, caps) && Site(t, x, a) && t.root != t.nodes[x].kids[a] && SizeOk(t, x, caps)
    requires p == t.nodes[x].kids[a - 1] || p == t.nodes[x].kids[a]
    requires var l, r := t.nodes[x].kids[a - 1], t.nodes[x].kids[a];
      |t.nodes[l].keys| + |t.nodes[r].keys| < MaxSize(t.nodes[p], caps)
    ensures u.nodes == MergeStore(t.nodes, x, a) && u.root == t.root && u.content == t.content
    ensures Underfull(u, x, caps) && u.nodes[x].Internal?
    ensures u.info[x].level == t.info[p].level + 1 <= t.info[t.root].level == u.info[u.root].level
  {
    MergeKeepsStruct(t, x, a);
    MergeSizes(t, x, a, p, caps);
    u := Merge(t, x, a);
    MergeLevels(t, p, x, a);
  }

  lemma MergeLevels(t: Tree, p: PageId, x: PageId, a: int)
    requires Struct(t) && Site(t, x, a) && t.root != t.nodes[x].kids[a]
    requires p == t.nodes[x].kids[a - 1] || p == t.nodes[x].kids[a]
    ensures var u := Merge(t, x, a);
      && x in u.info && u.root in u.info
      && u.info[x].level == t.info[p].level + 1 <= t.info[t.root].level == u.info[u.root].level
  {
  }

  /** Siblings that do not fit into one page share: the short one takes a slot from the other. */
  lemma ShiftStep(t: Tree, p: PageId, x: PageId, a: int, fromRight: bool, caps: Caps) returns (u: Tree)
    requires Underfull(t, p, caps) && Site(t, x, a) && p != t.root && |t.nodes[p].keys| < MinSize(t.nodes[p], caps)
    requires p == if fromRight then t.nodes[x].kids[a - 1] else t.nodes[x].kids[a]
    requires var l, r := t.nodes[x].kids[a - 1], t.nodes[x].kids[a];
      |t.nodes[l].keys| + |t.nodes[r].keys| >= MaxSize(t.nodes[p], caps)
    ensures CanShift(t, x, a, fromRight) && u.nodes == Shifted(t, x, a, fromRight)
    ensures Struct(u) && Sizes(u, caps) && u.root == t.root && u.content == t.content
  {
    ShiftSizes(t, x, a, fromRight, caps);
    ShiftKeepsStruct(t, x, a, fromRight);
    u := Shift(t, x, a, fromRight);
  }

  /** An internal root with one child is replaced by it. */
  lemma RootStep(t: Tree, caps: Caps) returns (u: Tree)
    requires Underfull(t, t.root, caps) && t.nodes[t.root].Internal? && |t.nodes[t.root].keys| == 1
    ensures |t.nodes[t.root].kids| == 1
    ensures var c := t.nodes[t.root].kids[0];
      && c in t.nodes && c != t.root && c > HEADER_PAGE_ID && u.root == c && u.content == t.content
      && u.nodes == (t.nodes - {t.root})[c := SetParent(t.nodes[c], INVALID_PAGE_ID)]
      && Struct(u) && Sizes(u, caps)
  {
    assert PageOk(t, t.root) && KidOk(t, t.root, 0);
    assert PageOk(t, t.nodes[t.root].kids[0]);
    DropRootKeepsStruct(t);
    DropRootSizes(t, caps);
    u := DropRoot(t);
  }

  /** An empty root leaf is an empty map. */
  lemma LastEntryGone(t: Tree)
    requires Struct(t) && t.root in t.nodes && t.nodes[t.root].Leaf? && t.nodes[t.root].keys == []
    ensures t.content == map[]
  {
    assert PageOk(t, t.root);
    assert forall k: Key :: k !in t.content.Keys;
    assert t.content.Keys == {};
  }
}
