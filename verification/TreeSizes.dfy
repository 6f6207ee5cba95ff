/** Page sizes: every page but the root is between half full and one short of full. */
module TreeSizes {
  import opened TreeModel
  import opened TreeSplit
  import opened TreeMerge
  import opened TreeBorrow
  import opened TreeEdge

  /** Slot counts at which a page of each kind is full. */
  datatype Caps = Caps(leafMax: int, internalMax: int)

  predicate CapsOk(caps: Caps) {
    caps.leafMax >= 2 && caps.internalMax >= 4
  }

  function MaxSize(n: Node, caps: Caps): int {
    if n.Leaf? then caps.leafMax else caps.internalMax
  }

  function MinSize(n: Node, caps: Caps): int {
    MaxSize(n, caps) / 2
  }

  ghost predicate SizeOk(t: Tree, p: PageId, caps: Caps) {
    && p in t.nodes
    && var n := t.nodes[p];
    && |n.keys| < MaxSize(n, caps)
    && if p != t.root then |n.keys| >= MinSize(n, caps) else |n.keys| >= (if n.Leaf? then 1 else 2)
  }

  /** All sizes are right, except perhaps that of one page. */
  ghost predicate SizesExcept(t: Tree, ex: PageId, caps: Caps) {
    forall p {:trigger SizeOk(t, p, caps)} :: p in t.info && p != ex ==> SizeOk(t, p, caps)
  }

  ghost predicate Sizes(t: Tree, caps: Caps) {
    SizesExcept(t, INVALID_PAGE_ID, caps)
  }

  /** The n slots of one page are shared evenly: the second page has as many as the first, or one more. */
  ghost predicate Halves(nodes: map<PageId, Node>, p: PageId, q: PageId, n: int) {
    && p in nodes && q in nodes && |nodes[p].keys| + |nodes[q].keys| == n
    && |nodes[p].keys| <= |nodes[q].keys| <= |nodes[p].keys| + 1
  }

  lemma SplitSizes(t: Tree, x: PageId, i: int, q: PageId, cut: int, caps: Caps)
    requires Struct(t) && CapsOk(caps) && CanSplit(t, x, i, q, cut)
    requires forall y {:trigger SizeOk(t, y, caps)} :: y in t.info && y != x && y != t.nodes[x].kids[i] ==>
        SizeOk(t, y, caps)
    requires var n := t.nodes[t.nodes[x].kids[i]]; |n.keys| == MaxSize(n, caps) && cut == MinSize(n, caps)
    ensures var u := Split(t, x, i, q, cut); SizesExcept(u, x, caps) && |u.nodes[x].keys| == |t.nodes[x].keys| + 1
    ensures Halves(Split(t, x, i, q, cut).nodes, t.nodes[x].kids[i], q, |t.nodes[t.nodes[x].kids[i]].keys|)
  {
    var u := Split(t, x, i, q, cut);
    var p := t.nodes[x].kids[i];
    assert PageOk(t, x) && KidOk(t, x, i);
    assert PageOk(t, p) && PageOk(t, t.root);
    forall y | y in u.info && y != x ensures SizeOk(u, y, caps) {
      if y != q && y != p {
        SplitOther(t, x, i, q, cut, y);
        assert SizeOk(t, y, caps);
      }
    }
  }

  /** Two siblings that fit into one page are merged; only the parent's size is left open. */
  lemma MergeSizes(t: Tree, x: PageId, i: int, ex: PageId, caps: Caps)
    requires Struct(t) && CapsOk(caps) && CanMerge(t, x, i) && SizesExcept(t, ex, caps)
    requires ex == t.nodes[x].kids[i - 1] || ex == t.nodes[x].kids[i]
    requires var l, r := t.nodes[x].kids[i - 1], t.nodes[x].kids[i];
      |t.nodes[l].keys| + |t.nodes[r].keys| < MaxSize(t.nodes[l], caps)
    ensures var u := Merge(t, x, i); SizesExcept(u, x, caps) && |u.nodes[x].keys| == |t.nodes[x].keys| - 1
  {
    var u := Merge(t, x, i);
    SiteOf(t, x, i);
    var l, r := t.nodes[x].kids[i - 1], t.nodes[x].kids[i];
    assert SizeOk(t, l, caps) || SizeOk(t, r, caps);
    forall y | y in u.info && y != x ensures SizeOk(u, y, caps) {
      if y != l {
        assert PageOk(t, y);
        MergeOther(t, x, i, y);
        assert SizeOk(t, y, caps);
      }
    }
  }

  /** Two siblings that do not fit into one page share their slots. */
  lemma ShiftSizes(t: Tree, x: PageId, i: int, fromRight: bool, caps: Caps)
    requires Struct(t) && CapsOk(caps) && CanMerge(t, x, i)
    requires var l, r := t.nodes[x].kids[i - 1], t.nodes[x].kids[i];
      var node := if fromRight then l else r;
      && SizesExcept(t, node, caps)
      && |t.nodes[node].keys| == MinSize(t.nodes[node], caps) - 1
      && |t.nodes[l].keys| + |t.nodes[r].keys| >= MaxSize(t.nodes[l], caps)
    ensures CanShift(t, x, i, fromRight) && ShiftSite(t, x, i, fromRight)
    ensures Sizes(Shift(t, x, i, fromRight), caps)
  {
    SiteOf(t, x, i);
    var l, r := t.nodes[x].kids[i - 1], t.nodes[x].kids[i];
    assert SizeOk(t, if fromRight then r else l, caps);
    ShiftKeepsStruct(t, x, i, fromRight);
    var u := Shift(t, x, i, fromRight);
    forall y | y in t.info ensures SizeOk(u, y, caps) {
      ShiftSizeOf(t, u, x, i, fromRight, y, caps);
    }
  }

  lemma ShiftSizeOf(t: Tree, u: Tree, x: PageId, i: int, fromRight: bool, y: PageId, caps: Caps)
    requires Struct(t) && CapsOk(caps) && CanShift(t, x, i, fromRight) && y in t.info
    requires u.nodes == Shifted(t, x, i, fromRight) && u.root == t.root
    requires var l, r := t.nodes[x].kids[i - 1], t.nodes[x].kids[i];
      var node, other := if fromRight then l else r, if fromRight then r else l;
      && SizesExcept(t, node, caps) && SizeOk(t, other, caps)
      && |t.nodes[node].keys| == MinSize(t.nodes[node], caps) - 1
      && |t.nodes[l].keys| + |t.nodes[r].keys| >= MaxSize(t.nodes[l], caps)
    ensures SizeOk(u, y, caps)
  {
    assert PageOk(t, y);
    SiteOf(t, x, i);
    ShiftedSize(t, x, i, fromRight, y);
    if y != t.nodes[x].kids[i - 1] && y != t.nodes[x].kids[i] {
      assert SizeOk(t, y, caps);
    }
  }

  lemma RefillSizes(t: Tree, p: PageId, keys: seq<Key>, vals: seq<Value>, content: map<Key, Value>, caps: Caps)
    requires Struct(t) && p in t.nodes && t.nodes[p].Leaf? && Sizes(t, caps)
    ensures SizesExcept(Refill(t, p, keys, vals, content), p, caps)
  {
    var u := Refill(t, p, keys, vals, content);
    forall y | y in u.info && y != p ensures SizeOk(u, y, caps) {
      assert SizeOk(t, y, caps) && PageOk(t, y);
    }
  }

  lemma AddRootSizes(t: Tree, r: PageId, key: Key, caps: Caps)
    requires Struct(t) && r !in t.info && t.root in t.nodes && SizesExcept(t, t.root, caps)
    ensures forall p :: p in t.info && p != t.root ==> SizeOk(AddRoot(t, r, key), p, caps)
  {
    forall p | p in t.info && p != t.root ensures SizeOk(AddRoot(t, r, key), p, caps) {
      assert SizeOk(t, p, caps) && PageOk(t, p);
    }
  }

  lemma DropRootSizes(t: Tree, caps: Caps)
    requires Struct(t) && CapsOk(caps) && t.root in t.nodes && IsKid(t, t.root, 0) && SizesExcept(t, t.root, caps)
    ensures Sizes(DropRoot(t), caps)
  {
    assert PageOk(t, t.root) && KidOk(t, t.root, 0);
    forall p | p in t.info && p != t.root ensures SizeOk(DropRoot(t), p, caps) {
      assert SizeOk(t, p, caps) && PageOk(t, p);
    }
  }
}
