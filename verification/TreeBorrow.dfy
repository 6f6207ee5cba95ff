/** Borrowing one slot from a sibling is merging the two and splitting again one slot further. */
module TreeBorrow {
  import opened TreeModel
  import opened TreeSplit
  import opened TreeMerge

  predicate CanBorrow(ln: Node, rn: Node, fromRight: bool) {
    CanJoin(ln, rn) && if fromRight then |rn.keys| >= 2 else |ln.keys| >= 2
  }

  /** The two siblings and their new separator after a slot moved across. */
  function Borrowed(ln: Node, middle: Key, rn: Node, fromRight: bool): (Node, Key, Node)
    requires CanBorrow(ln, rn, fromRight)
  {
    if fromRight then
      match ln
      case Leaf(parent, keys, vals, next) =>
        (Leaf(parent, keys + [rn.keys[0]], vals + [rn.vals[0]], next), rn.keys[1],
         Leaf(rn.parent, rn.keys[1..], rn.vals[1..], rn.next))
      case Internal(parent, keys, kids) =>
        (Internal(parent, keys + [middle], kids + [rn.kids[0]]), rn.keys[1],
         Internal(rn.parent, rn.keys[1..], rn.kids[1..]))
    else
      var e := |ln.keys| - 1;
      match ln
      case Leaf(parent, keys, vals, next) =>
        (Leaf(parent, keys[..e], vals[..e], next), keys[e],
         Leaf(rn.parent, [keys[e]] + rn.keys, [vals[e]] + rn.vals, rn.next))
      case Internal(parent, keys, kids) =>
        (Internal(parent, keys[..e], kids[..e]), keys[e],
         Internal(rn.parent, [keys[e]] + ([middle] + rn.keys[1..]), [kids[e]] + rn.kids))
  }

  /** One slot changes sides, and the left page ends where the right one begins. */
  lemma BorrowsOne(ln: Node, middle: Key, rn: Node, fromRight: bool)
    requires CanBorrow(ln, rn, fromRight)
    ensures var b := Borrowed(ln, middle, rn, fromRight);
      && |b.0.keys| == |ln.keys| + (if fromRight then 1 else -1)
      && |b.2.keys| == |rn.keys| - (if fromRight then 1 else -1)
      && (ln.Leaf? ==> b.0.keys + b.2.keys == ln.keys + rn.keys && b.0.vals + b.2.vals == ln.vals + rn.vals
                       && b.1 == b.2.keys[0])
      && (ln.Internal? ==> b.0.kids + b.2.kids == ln.kids + rn.kids)
  {
  }

  /** The child that changes parents, if there is one. */
  function Migrated(nodes: map<PageId, Node>, ln: Node, l: PageId, rn: Node, r: PageId,
                    fromRight: bool): map<PageId, Node>
    requires CanBorrow(ln, rn, fromRight)
  {
    if ln.Leaf? then nodes
    else if fromRight then Reparent(nodes, [rn.kids[0]], l)
    else Reparent(nodes, [ln.kids[|ln.kids| - 1]], r)
  }

  ghost predicate CanShift(t: Tree, x: PageId, i: int, fromRight: bool) {
    CanMerge(t, x, i) && CanBorrow(t.nodes[t.nodes[x].kids[i - 1]], t.nodes[t.nodes[x].kids[i]], fromRight)
  }

  /** The store after one slot moved between children i - 1 and i of x. */
  ghost function Shifted(t: Tree, x: PageId, i: int, fromRight: bool): map<PageId, Node>
    requires CanShift(t, x, i, fromRight)
  {
    var xn := t.nodes[x];
    var l, r := xn.kids[i - 1], xn.kids[i];
    var b := Borrowed(t.nodes[l], xn.keys[i], t.nodes[r], fromRight);
    Migrated(t.nodes, t.nodes[l], l, t.nodes[r], r, fromRight)[l := b.0][r := b.2][x := xn.(keys := xn.keys[i := b.1])]
  }

  function Cut(ln: Node, fromRight: bool): int {
    if fromRight then |ln.keys| + 1 else |ln.keys| - 1
  }

  lemma BorrowIsCut(ln: Node, middle: Key, rn: Node, r: PageId, fromRight: bool)
    requires CanBorrow(ln, rn, fromRight) && ln.parent == rn.parent && (ln.Leaf? ==> ln.next == r)
    ensures var j, cut := Joined(ln, middle, rn), Cut(ln, fromRight);
      CanCut(j, cut) && Borrowed(ln, middle, rn, fromRight) == (Lower(j, cut, r), j.keys[cut], Upper(j, cut))
  {
    var j, cut := Joined(ln, middle, rn), Cut(ln, fromRight);
    var b := Borrowed(ln, middle, rn, fromRight);
    assert b.0.keys == j.keys[..cut] && b.2.keys == j.keys[cut..];
    if ln.Leaf? {
      assert b.0.vals == j.vals[..cut] && b.2.vals == j.vals[cut..];
    } else {
      assert b.0.kids == j.kids[..cut] && b.2.kids == j.kids[cut..];
    }
  }

  /** The right sibling is the left one's successor in the leaf chain. */
  lemma SiblingIsNext(t: Tree, x: PageId, i: int)
    requires Struct(t) && CanMerge(t, x, i) && t.nodes[t.nodes[x].kids[i]].Leaf?
    ensures t.nodes[t.nodes[x].kids[i - 1]].next == t.nodes[x].kids[i]
  {
    SiteOf(t, x, i);
    var l, r := t.nodes[x].kids[i - 1], t.nodes[x].kids[i];
    assert PageOk(t, t.nodes[l].next);
    LevelDisjoint(t, t.nodes[l].next, r, t.nodes[x].keys[i]);
  }

  ghost predicate ShiftSite(t: Tree, x: PageId, i: int, fromRight: bool) {
    && CanShift(t, x, i, fromRight)
    && var l, r := t.nodes[x].kids[i - 1], t.nodes[x].kids[i];
    && x != l && x != r && l != r
    && r !in Merge(t, x, i).info && r > HEADER_PAGE_ID
    && x in Merge(t, x, i).info
    && BorrowFits(t, x, i, fromRight)
  }

  ghost predicate BorrowFits(t: Tree, x: PageId, i: int, fromRight: bool)
    requires CanShift(t, x, i, fromRight)
  {
    var l, r := t.nodes[x].kids[i - 1], t.nodes[x].kids[i];
    var j, cut := Joined(t.nodes[l], t.nodes[x].keys[i], t.nodes[r]), Cut(t.nodes[l], fromRight);
    CanCut(j, cut) &&
    Borrowed(t.nodes[l], t.nodes[x].keys[i], t.nodes[r], fromRight) == (Lower(j, cut, r), j.keys[cut], Upper(j, cut))
  }

  lemma ShiftSiteOf(t: Tree, x: PageId, i: int, fromRight: bool)
    requires Struct(t) && CanShift(t, x, i, fromRight)
    ensures ShiftSite(t, x, i, fromRight)
  {
    SiteOf(t, x, i);
    var l, r := t.nodes[x].kids[i - 1], t.nodes[x].kids[i];
    if t.nodes[l].Leaf? {
      SiblingIsNext(t, x, i);
    }
    BorrowIsCut(t.nodes[l], t.nodes[x].keys[i], t.nodes[r], r, fromRight);
  }

  /** Merge, then split again so that one slot has changed sides. */
  ghost function Shift(t: Tree, x: PageId, i: int, fromRight: bool): Tree
    requires ShiftSite(t, x, i, fromRight)
  {
    var r := t.nodes[x].kids[i];
    Split(Merge(t, x, i), x, i - 1, r, Cut(t.nodes[t.nodes[x].kids[i - 1]], fromRight))
  }

  /** A page that is none of the three a shift rewrites: its parent id may change twice. */
  lemma ShiftAt(t: Tree, x: PageId, i: int, fromRight: bool, y: PageId)
    requires ShiftSite(t, x, i, fromRight)
    requires y in t.nodes && y != x && y != t.nodes[x].kids[i - 1] && y != t.nodes[x].kids[i]
    ensures var l, r := t.nodes[x].kids[i - 1], t.nodes[x].kids[i];
      var ln, rn, u := t.nodes[l], t.nodes[r], Shift(t, x, i, fromRight);
      && y in u.nodes && (ln.Leaf? ==> u.nodes[y] == t.nodes[y])
      && (ln.Internal? ==>
            var n := if y in rn.kids then SetParent(t.nodes[y], l) else t.nodes[y];
            u.nodes[y] == if y in (ln.kids + rn.kids)[Cut(ln, fromRight)..] then SetParent(n, r) else n)
  {
  }

  /** Away from the three rewritten pages a shift re-parents at most the child that moved. */
  lemma ShiftPage(t: Tree, x: PageId, i: int, fromRight: bool, y: PageId)
    requires Struct(t) && ShiftSite(t, x, i, fromRight)
    requires y in t.nodes && y != x && y != t.nodes[x].kids[i - 1] && y != t.nodes[x].kids[i]
    ensures y in Shift(t, x, i, fromRight).nodes && Shift(t, x, i, fromRight).nodes[y] == Shifted(t, x, i, fromRight)[y]
  {
    ShiftAt(t, x, i, fromRight, y);
    ShiftedAt(t, x, i, fromRight, y);
    SiteOf(t, x, i);
    var ln, rn := t.nodes[t.nodes[x].kids[i - 1]], t.nodes[t.nodes[x].kids[i]];
    if ln.Internal? {
      KidTwice(t, x, i, y, if fromRight then 1 else 0);
      CutKids(ln.kids, rn.kids, fromRight);
    }
  }

  lemma ShiftedAt(t: Tree, x: PageId, i: int, fromRight: bool, y: PageId)
    requires CanShift(t, x, i, fromRight)
    requires y in t.nodes && y != x && y != t.nodes[x].kids[i - 1] && y != t.nodes[x].kids[i]
    ensures var l, r := t.nodes[x].kids[i - 1], t.nodes[x].kids[i];
      var ln, rn, m := t.nodes[l], t.nodes[r], Shifted(t, x, i, fromRight);
      && y in m && (ln.Leaf? ==> m[y] == t.nodes[y])
      && (ln.Internal? && fromRight ==> m[y] == if y == rn.kids[0] then SetParent(t.nodes[y], l) else t.nodes[y])
      && (ln.Internal? && !fromRight ==>
            m[y] == if y == ln.kids[|ln.kids| - 1] then SetParent(t.nodes[y], r) else t.nodes[y])
  {
  }

  lemma CutKids(a: seq<PageId>, b: seq<PageId>, fromRight: bool)
    requires if fromRight then |b| >= 1 else |a| >= 1
    ensures if fromRight then (a + b)[|a| + 1..] == b[1..] else (a + b)[|a| - 1..] == [a[|a| - 1]] + b
  {
  }

  /** A child of the right page that was adopted and given back is unchanged. */
  lemma KidTwice(t: Tree, x: PageId, i: int, y: PageId, from: int)
    requires Struct(t) && Site(t, x, i) && y in t.nodes && t.nodes[t.nodes[x].kids[i]].Internal?
    requires 0 <= from <= 1
    ensures var r := t.nodes[x].kids[i];
      y in t.nodes[r].kids ==>
          t.nodes[y].parent == r && (from == 1 ==> (y == t.nodes[r].kids[0] <==> y !in t.nodes[r].kids[1..]))
  {
    var r := t.nodes[x].kids[i];
    if y in t.nodes[r].kids {
      var m :| 0 <= m < |t.nodes[r].kids| && t.nodes[r].kids[m] == y;
      assert KidOk(t, r, m);
      forall j | 1 <= j < |t.nodes[r].kids| && m == 0 ensures t.nodes[r].kids[j] != y {
        assert KidOk(t, r, j);
        KidsDistinct(t, r, m, j);
      }
      assert m > 0 ==> t.nodes[r].kids[1..][m - 1] == y;
      if m > 0 {
        assert KidOk(t, r, 0);
        KidsDistinct(t, r, m, 0);
      }
    }
  }

  lemma ShiftSeparator(t: Tree, x: PageId, i: int, fromRight: bool)
    requires ShiftSite(t, x, i, fromRight)
    ensures x in Shift(t, x, i, fromRight).nodes && Shift(t, x, i, fromRight).nodes[x] == Shifted(t, x, i, fromRight)[x]
  {
    var xn := t.nodes[x];
    var s := Borrowed(t.nodes[xn.kids[i - 1]], xn.keys[i], t.nodes[xn.kids[i]], fromRight).1;
    assert InsertAt(RemoveAt(xn.keys, i), i, s) == xn.keys[i := s];
    assert InsertAt(RemoveAt(xn.kids, i), i, xn.kids[i]) == xn.kids;
  }

  /** Moving one slot between siblings keeps the structure and the map, and rewrites the store
      exactly as the in-place code does. */
  lemma ShiftKeepsStruct(t: Tree, x: PageId, i: int, fromRight: bool)
    requires Struct(t) && CanShift(t, x, i, fromRight)
    ensures ShiftSite(t, x, i, fromRight)
    ensures Struct(Shift(t, x, i, fromRight))
    ensures Shift(t, x, i, fromRight).nodes == Shifted(t, x, i, fromRight)
    ensures Shift(t, x, i, fromRight).info.Keys == t.info.Keys
    ensures Shift(t, x, i, fromRight).root == t.root && Shift(t, x, i, fromRight).content == t.content
  {
    ShiftSiteOf(t, x, i, fromRight);
    MergeKeepsStruct(t, x, i);
    var r := t.nodes[x].kids[i];
    SplitKeepsStruct(Merge(t, x, i), x, i - 1, r, Cut(t.nodes[t.nodes[x].kids[i - 1]], fromRight));
    ShiftSeparator(t, x, i, fromRight);
    forall y | y in t.nodes && y != x && y != t.nodes[x].kids[i - 1] && y != r
      ensures y in Shift(t, x, i, fromRight).nodes
              && Shift(t, x, i, fromRight).nodes[y] == Shifted(t, x, i, fromRight)[y]
    {
      ShiftPage(t, x, i, fromRight, y);
    }
    ShiftKeys(t, x, i, fromRight);
  }

  /** What a shift does to the size of each page. */
  lemma ShiftedSize(t: Tree, x: PageId, i: int, fromRight: bool, y: PageId)
    requires CanShift(t, x, i, fromRight) && y in t.nodes
    requires var l, r := t.nodes[x].kids[i - 1], t.nodes[x].kids[i]; x != l && x != r && l != r
    ensures var l, r := t.nodes[x].kids[i - 1], t.nodes[x].kids[i];
      var m := Shifted(t, x, i, fromRight);
      && y in m && m[y].Leaf? == t.nodes[y].Leaf?
      && |m[y].keys| == |t.nodes[y].keys| +
           (if y == l then 1 else if y == r then -1 else 0) * (if fromRight then 1 else -1)
  {
  }

  lemma ShiftKeys(t: Tree, x: PageId, i: int, fromRight: bool)
    requires ShiftSite(t, x, i, fromRight)
    ensures var u, m := Shift(t, x, i, fromRight), Shifted(t, x, i, fromRight);
      u.nodes.Keys == m.Keys == t.nodes.Keys && u.info.Keys == t.info.Keys && u.root == t.root
      && u.content == t.content &&
      (forall y :: y in {t.nodes[x].kids[i - 1], t.nodes[x].kids[i]} ==> u.nodes[y] == m[y])
  {
  }
}
