/** The states an insertion passes through on its way up. */
module TreeInsert {
  import opened TreeModel
  import opened TreeSplit
  import opened TreeEdge
  import opened TreeSizes

  /** The store after page p handed its upper half to page q, before any parent knows of q. */
  function SplitStore(nodes: map<PageId, Node>, p: PageId, q: PageId, cut: int): map<PageId, Node>
    requires p in nodes && CanCut(nodes[p], cut)
  {
    Moved(nodes, nodes[p], cut, q)[p := Lower(nodes[p], cut, q)][q := Upper(nodes[p], cut)]
  }

  function Linked(xn: Node, i: int, key: Key, q: PageId): Node
    requires xn.Internal? && 0 <= i < |xn.keys| == |xn.kids|
  {
    Internal(xn.parent, InsertAt(xn.keys, i + 1, key), InsertAt(xn.kids, i + 1, q))
  }

  /** The store after page r became the root above pages p and q. */
  function Rooted(nodes: map<PageId, Node>, r: PageId, p: PageId, key: Key, q: PageId): map<PageId, Node>
    requires p in nodes && q in nodes
  {
    nodes[r := Internal(INVALID_PAGE_ID, [0, key], [p, q])][p := SetParent(nodes[p], r)][q := SetParent(nodes[q], r)]
  }

  /** Page p of tree t is full and every other page is right. */
  ghost predicate Overfull(t: Tree, p: PageId, caps: Caps) {
    && Struct(t) && CapsOk(caps) && SizesExcept(t, p, caps)
    && p in t.info && p in t.nodes
    && |t.nodes[p].keys| == MaxSize(t.nodes[p], caps)
  }

  lemma OverfullCuts(t: Tree, p: PageId, caps: Caps)
    requires Overfull(t, p, caps)
    ensures p > HEADER_PAGE_ID && CanCut(t.nodes[p], MinSize(t.nodes[p], caps))
    ensures t.nodes[p].parent == INVALID_PAGE_ID <==> p == t.root
    ensures t.nodes[p].Internal? ==> forall j :: 0 <= j < |t.nodes[p].kids| ==> t.nodes[p].kids[j] in t.nodes
    ensures t.nodes[p].Internal? ==> p !in t.nodes[p].kids
  {
    assert PageOk(t, p);
    if t.nodes[p].parent == INVALID_PAGE_ID && p != t.root {
      var _ := ParentSlot(t, p);
    }
    if t.nodes[p].Internal? {
      forall j | 0 <= j < |t.nodes[p].kids| ensures t.nodes[p].kids[j] in t.nodes && t.nodes[p].kids[j] != p {
        assert KidOk(t, p, j);
      }
    }
  }

  /** Linking the new page into the parent completes the split. */
  lemma LinkInParent(t: Tree, p: PageId, i: int, q: PageId, caps: Caps) returns (u: Tree)
    requires Overfull(t, p, caps) && q !in t.info && q > HEADER_PAGE_ID && p != t.root
    requires var x := t.nodes[p].parent;
      x in t.nodes && t.nodes[x].Internal? && 0 <= i < |t.nodes[x].kids| && t.nodes[x].kids[i] == p
    ensures var x, cut := t.nodes[p].parent, MinSize(t.nodes[p], caps);
      && CanCut(t.nodes[p], cut)
      && |t.nodes[x].keys| == |t.nodes[x].kids|
      && u.nodes == SplitStore(t.nodes, p, q, cut)[x := Linked(t.nodes[x], i, t.nodes[p].keys[cut], q)]
      && u.root == t.root && u.content == t.content
      && Struct(u) && x in u.info && x in u.nodes && u.nodes[x].Internal?
      && (if |u.nodes[x].keys| == MaxSize(u.nodes[x], caps) then Overfull(u, x, caps) else Sizes(u, caps))
      && u.info[x].level == t.info[p].level + 1 <= t.info[t.root].level == u.info[u.root].level
  {
    OverfullCuts(t, p, caps);
    var _ := ParentSlot(t, p);
    var x, cut := t.nodes[p].parent, MinSize(t.nodes[p], caps);
    assert PageOk(t, x) && KidOk(t, x, i);
    SplitKeepsStruct(t, x, i, q, cut);
    SplitSizes(t, x, i, q, cut, caps);
    u := Split(t, x, i, q, cut);
    assert SizeOk(t, x, caps);
    LinkSizes(t, u, x, caps);
    LinkLevels(t, x, i, q, cut);
  }

  lemma LinkSizes(t: Tree, u: Tree, x: PageId, caps: Caps)
    requires CapsOk(caps) && x in t.nodes && x in u.nodes && t.nodes[x].Internal? && u.nodes[x].Internal?
    requires u.root == t.root && x in u.info && Struct(u)
    requires SizesExcept(u, x, caps) && |u.nodes[x].keys| == |t.nodes[x].keys| + 1 && SizeOk(t, x, caps)
    ensures if |u.nodes[x].keys| == MaxSize(u.nodes[x], caps) then Overfull(u, x, caps) else Sizes(u, caps)
  {
    if |u.nodes[x].keys| != MaxSize(u.nodes[x], caps) {
      assert SizeOk(u, x, caps);
    }
  }

  lemma LinkLevels(t: Tree, x: PageId, i: int, q: PageId, cut: int)
    requires Struct(t) && CanSplit(t, x, i, q, cut) && KidOk(t, x, i)
    ensures var u, p := Split(t, x, i, q, cut), t.nodes[x].kids[i];
      && x in u.info && u.root in u.info
      && u.info[x].level == t.info[p].level + 1 <= t.info[t.root].level == u.info[u.root].level
  {
    assert PageOk(t, x) && PageOk(t, t.nodes[x].kids[i]);
  }

  /** A full root gets a new root above it first; its split is then an ordinary one. */
  ghost function Grown(t: Tree, r: PageId, q: PageId, cut: int): Tree
    requires t.root in t.nodes && t.root in t.info && CanCut(t.nodes[t.root], cut)
    requires q !in t.info && q > HEADER_PAGE_ID && r !in t.info && q != r && r !in t.nodes
  {
    Split(AddRoot(t, r, 0), r, 0, q, cut)
  }

  lemma GrowRoot(t: Tree, r: PageId, q: PageId, caps: Caps) returns (u: Tree)
    requires Overfull(t, t.root, caps)
    requires q !in t.info && q > HEADER_PAGE_ID && r !in t.info && q != r && r !in t.nodes && r > HEADER_PAGE_ID
    ensures var p, cut := t.root, MinSize(t.nodes[t.root], caps);
      && CanCut(t.nodes[p], cut)
      && Struct(u) && Sizes(u, caps) && u.root == r && u.content == t.content
      && var s := SplitStore(t.nodes, p, q, cut);
      && p in s && q in s && u.nodes == Rooted(s, r, p, t.nodes[p].keys[cut], q)
      && r !in s
  {
    OverfullCuts(t, t.root, caps);
    var p, cut := t.root, MinSize(t.nodes[t.root], caps);
    AddRootKeepsStruct(t, r, 0);
    AddRootSizes(t, r, 0, caps);
    var a := AddRoot(t, r, 0);
    SplitKeepsStruct(a, r, 0, q, cut);
    SplitSizes(a, r, 0, q, cut, caps);
    u := Split(a, r, 0, q, cut);
    assert SizeOk(u, r, caps);
    GrownStore(t, r, q, cut);
  }

  lemma GrownStore(t: Tree, r: PageId, q: PageId, cut: int)
    requires Struct(t) && t.root in t.nodes && CanCut(t.nodes[t.root], cut)
    requires q !in t.info && q > HEADER_PAGE_ID && r !in t.info && q != r && r !in t.nodes
    requires t.nodes[t.root].Internal? ==> t.root !in t.nodes[t.root].kids
    ensures var p := t.root;
      Grown(t, r, q, cut).nodes == Rooted(SplitStore(t.nodes, p, q, cut), r, p, t.nodes[p].keys[cut], q)
  {
    assert InsertAt([0], 1, t.nodes[t.root].keys[cut]) == [0, t.nodes[t.root].keys[cut]];
    assert InsertAt([t.root], 1, q) == [t.root, q];
  }

  /** The first entry of an empty tree. */
  ghost function Planted(nodes: map<PageId, Node>, p: PageId, key: Key, value: Value): Tree {
    Tree(nodes[p := Leaf(INVALID_PAGE_ID, [key], [value], INVALID_PAGE_ID)],
         map[p := Info(0, Unbounded, Unbounded)], p, map[key := value])
  }

  lemma Plant(nodes: map<PageId, Node>, p: PageId, key: Key, value: Value, caps: Caps)
    requires p > HEADER_PAGE_ID && CapsOk(caps)
    ensures Struct(Planted(nodes, p, key, value)) && Sizes(Planted(nodes, p, key, value), caps)
  {
    var t := Planted(nodes, p, key, value);
    assert PageOk(t, p);
    assert SizeOk(t, p, caps);
  }

  /** The split page by page: fill the new page, re-parent what it took, cut the old one. */
  lemma SplitSteps(nodes: map<PageId, Node>, p: PageId, q: PageId, cut: int)
    requires p in nodes && CanCut(nodes[p], cut) && p != q
    requires nodes[p].Internal? ==> q !in nodes[p].kids[cut..]
    ensures var n := nodes[p];
      Moved(nodes[q := Upper(n, cut)], n, cut, q)[p := Lower(n, cut, q)] == SplitStore(nodes, p, q, cut)
  {
  }

  lemma LiveIsStored(t: Tree, p: PageId)
    requires Struct(t)
    ensures p in t.info ==> p in t.nodes
  {
    if p in t.info {
      assert PageOk(t, p);
    }
  }

  lemma SplitStoreKeys(nodes: map<PageId, Node>, p: PageId, q: PageId, cut: int)
    requires p in nodes && CanCut(nodes[p], cut)
    ensures SplitStore(nodes, p, q, cut).Keys == nodes.Keys + {q}
  {
  }

  /** The parent of a split page has not been touched and still lists it. */
  lemma ParentUntouched(t: Tree, p: PageId, q: PageId, cut: int)
    requires Struct(t) && p in t.info && p != t.root && p in t.nodes && CanCut(t.nodes[p], cut) && q !in t.nodes
             && p != q
    ensures var x, s := t.nodes[p].parent, SplitStore(t.nodes, p, q, cut);
      && x in t.info && x in t.nodes && t.nodes[x].Internal? && p in t.nodes[x].kids
      && s[p].parent == x && x in s && s[x] == t.nodes[x]
  {
    var _ := ParentSlot(t, p);
    var x := t.nodes[p].parent;
    assert PageOk(t, p) && PageOk(t, x);
    if t.nodes[p].Internal? {
      forall j | 0 <= j < |t.nodes[p].kids| ensures t.nodes[p].kids[j] != x {
        assert KidOk(t, p, j);
      }
    }
  }
}
