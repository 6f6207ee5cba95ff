/** Merging two adjacent children: the structural half of every removal. */
module TreeMerge {
  import opened TreeModel

  /** Two siblings are pages of the same kind. */
  predicate CanJoin(ln: Node, rn: Node) {
    if ln.Leaf? then
      rn.Leaf? && |ln.keys| == |ln.vals| && |rn.keys| == |rn.vals|
    else
      rn.Internal? && |ln.keys| == |ln.kids| && |rn.keys| == |rn.kids| >= 1
  }

  /** The left page after taking over all slots of the right one; slot 0 of a right internal
      page gets the key that separated the two in their parent. */
  function Joined(ln: Node, middle: Key, rn: Node): Node
    requires CanJoin(ln, rn)
  {
    match ln
    case Leaf(parent, keys, vals, _) => Leaf(parent, keys + rn.keys, vals + rn.vals, rn.next)
    case Internal(parent, keys, kids) => Internal(parent, keys + [middle] + rn.keys[1..], kids + rn.kids)
  }

  function Emptied(n: Node): Node {
    match n
    case Leaf(parent, _, _, next) => Leaf(parent, [], [], next)
    case Internal(parent, _, _) => Internal(parent, [], [])
  }

  function Adopted(nodes: map<PageId, Node>, rn: Node, l: PageId): map<PageId, Node> {
    if rn.Leaf? then nodes else Reparent(nodes, rn.kids, l)
  }

  ghost predicate CanMerge(t: Tree, x: PageId, i: int) {
    && IsKid(t, x, i - 1) && IsKid(t, x, i)
    && CanJoin(t.nodes[t.nodes[x].kids[i - 1]], t.nodes[t.nodes[x].kids[i]])
  }

  /** Child i of x is emptied into child i - 1 and dropped from x. Its page is not freed:
      it stays in the store but is no longer live. */
  ghost function Merge(t: Tree, x: PageId, i: int): Tree
    requires CanMerge(t, x, i)
  {
    var xn := t.nodes[x];
    var l, r := xn.kids[i - 1], xn.kids[i];
    t.(nodes := Adopted(t.nodes, t.nodes[r], l)
                [l := Joined(t.nodes[l], xn.keys[i], t.nodes[r])]
                [r := Emptied(t.nodes[r])]
                [x := Internal(xn.parent, RemoveAt(xn.keys, i), RemoveAt(xn.kids, i))],
       info := (t.info - {r})[l := t.info[l].(hi := t.info[r].hi)])
  }

  /** The three pages a merge rewrites, with what is known of them. */
  ghost predicate Site(t: Tree, x: PageId, i: int) {
    && CanMerge(t, x, i)
    && PageOk(t, x) && KidOk(t, x, i - 1) && KidOk(t, x, i)
    && PageOk(t, t.nodes[x].kids[i - 1]) && PageOk(t, t.nodes[x].kids[i])
    && t.nodes[x].kids[i - 1] != t.nodes[x].kids[i]
  }

  lemma SiteOf(t: Tree, x: PageId, i: int)
    requires Struct(t) && CanMerge(t, x, i)
    ensures Site(t, x, i)
    ensures t.root != t.nodes[x].kids[i]
  {
    assert PageOk(t, x) && KidOk(t, x, i - 1) && KidOk(t, x, i);
    assert PageOk(t, t.nodes[x].kids[i - 1]) && PageOk(t, t.nodes[x].kids[i]);
    KidsDistinct(t, x, i - 1, i);
  }

  lemma MergeOther(t: Tree, x: PageId, i: int, y: PageId)
    requires Site(t, x, i) && PageOk(t, y)
    requires y != x && y != t.nodes[x].kids[i - 1] && y != t.nodes[x].kids[i]
    ensures var u, r := Merge(t, x, i), t.nodes[x].kids[i];
      y in u.nodes && y in u.info && u.info[y] == t.info[y] &&
      u.nodes[y] == SetParent(t.nodes[y], u.nodes[y].parent) &&
      (t.nodes[y].parent != r ==> u.nodes[y] == t.nodes[y])
  {
    if t.nodes[y].parent != t.nodes[x].kids[i] {
      NotListed(t, t.nodes[x].kids[i], y);
    }
  }

  lemma MergeParentShape(t: Tree, x: PageId, i: int)
    requires Site(t, x, i) && t.root != t.nodes[x].kids[i]
    ensures Shape(Merge(t, x, i), x)
  {
  }

  lemma MergeParentKid(t: Tree, x: PageId, i: int, j: int)
    requires Site(t, x, i)
    requires 0 <= j < |t.nodes[x].kids| - 1
    requires j < i - 1 ==> KidOk(t, x, j) && PageOk(t, t.nodes[x].kids[j])
    requires j >= i ==> KidOk(t, x, j + 1) && PageOk(t, t.nodes[x].kids[j + 1])
    ensures KidOk(Merge(t, x, i), x, j)
  {
    if j != i - 1 {
      MergeOtherKid(t, x, i, if j < i then j else j + 1);
    }
  }

  /** A child of x that takes no part in the merge. */
  lemma MergeOtherKid(t: Tree, x: PageId, i: int, m: int)
    requires Site(t, x, i) && 0 <= m < |t.nodes[x].kids| && m != i && m != i - 1
    requires KidOk(t, x, m) && PageOk(t, t.nodes[x].kids[m])
    ensures var u, c := Merge(t, x, i), t.nodes[x].kids[m];
      c in u.nodes && c in u.info && u.info[c] == t.info[c] && u.nodes[c] == t.nodes[c]
  {
    KidsDistinct(t, x, m, i);
    KidsDistinct(t, x, m, i - 1);
    MergeOther(t, x, i, t.nodes[x].kids[m]);
  }

  lemma MergeParent(t: Tree, x: PageId, i: int)
    requires Struct(t) && CanMerge(t, x, i)
    ensures PageOk(Merge(t, x, i), x)
  {
    var u := Merge(t, x, i);
    SiteOf(t, x, i);
    MergeParentShape(t, x, i);
    forall j | 0 <= j < |u.nodes[x].kids| ensures KidOk(u, x, j) {
      if j != i - 1 {
        var m := if j < i then j else j + 1;
        assert KidOk(t, x, m);
        assert PageOk(t, t.nodes[x].kids[m]);
      }
      MergeParentKid(t, x, i, j);
    }
    if x != t.root {
      var _ := ParentSlot(t, x);
      MergeOther(t, x, i, t.nodes[x].parent);
    }
  }

  lemma MergeJoinedShape(t: Tree, x: PageId, i: int)
    requires Site(t, x, i) && t.root != t.nodes[x].kids[i]
    ensures Shape(Merge(t, x, i), t.nodes[x].kids[i - 1])
  {
    var l, r := t.nodes[x].kids[i - 1], t.nodes[x].kids[i];
    JoinedShape(t.nodes[l], t.info[l], t.nodes[x].keys[i], t.nodes[r], t.info[r]);
  }

  /** Two pages of the same kind with adjacent intervals join into one. */
  lemma JoinedShape(ln: Node, lf: Info, middle: Key, rn: Node, rf: Info)
    requires CanJoin(ln, rn) && NodeShape(ln, lf) && NodeShape(rn, rf) && lf.hi == rf.lo == At(middle)
    requires (lf.lo.At? ==> lf.lo.key < middle) && (rf.hi.At? ==> middle < rf.hi.key)
    ensures NodeShape(Joined(ln, middle, rn), lf.(hi := rf.hi))
  {
  }

  lemma MergeJoinedKid(t: Tree, x: PageId, i: int, j: int)
    requires Struct(t) && CanMerge(t, x, i) && t.nodes[t.nodes[x].kids[i]].Internal?
    requires 0 <= j < |t.nodes[t.nodes[x].kids[i - 1]].kids| + |t.nodes[t.nodes[x].kids[i]].kids|
    ensures KidOk(Merge(t, x, i), t.nodes[x].kids[i - 1], j)
  {
    SiteOf(t, x, i);
    var l, r := t.nodes[x].kids[i - 1], t.nodes[x].kids[i];
    var lk := |t.nodes[l].kids|;
    if j < lk {
      assert KidOk(t, l, j) && PageOk(t, t.nodes[l].kids[j]);
      MergeOther(t, x, i, t.nodes[l].kids[j]);
    } else {
      assert KidOk(t, r, j - lk) && PageOk(t, t.nodes[r].kids[j - lk]);
    }
  }

  lemma JoinHolds(ln: Node, lf: Info, middle: Key, rn: Node, rf: Info, content: map<Key, Value>)
    requires ln.Leaf? && CanJoin(ln, rn) && Holds(ln, lf, content) && Holds(rn, rf, content)
             && lf.hi == rf.lo == At(middle)
    ensures Holds(Joined(ln, middle, rn), lf.(hi := rf.hi), content)
  {
  }

  lemma MergeJoined(t: Tree, x: PageId, i: int)
    requires Struct(t) && CanMerge(t, x, i)
    ensures PageOk(Merge(t, x, i), t.nodes[x].kids[i - 1])
  {
    var u := Merge(t, x, i);
    SiteOf(t, x, i);
    MergeJoinedShape(t, x, i);
    var l, r := t.nodes[x].kids[i - 1], t.nodes[x].kids[i];
    if t.nodes[r].Internal? {
      forall j | 0 <= j < |u.nodes[l].kids| ensures KidOk(u, l, j) {
        MergeJoinedKid(t, x, i, j);
      }
    } else {
      JoinHolds(t.nodes[l], t.info[l], t.nodes[x].keys[i], t.nodes[r], t.info[r], t.content);
      if t.info[r].hi.At? {
        assert PageOk(t, t.nodes[r].next);
      }
    }
    assert u.nodes[x].kids[i - 1] == l;
  }

  lemma MergeRestKid(t: Tree, x: PageId, i: int, y: PageId, j: int)
    requires Struct(t) && CanMerge(t, x, i) && KidOk(t, y, j)
    requires y != x && y != t.nodes[x].kids[i - 1] && y != t.nodes[x].kids[i]
    ensures KidOk(Merge(t, x, i), y, j)
  {
    SiteOf(t, x, i);
    assert PageOk(t, y) && PageOk(t, t.nodes[y].kids[j]);
    MergeOther(t, x, i, y);
    if t.nodes[y].kids[j] != x {
      MergeOther(t, x, i, t.nodes[y].kids[j]);
    }
  }

  lemma MergeRestUp(t: Tree, x: PageId, i: int, y: PageId)
    requires Struct(t) && CanMerge(t, x, i) && y in t.info
    requires y != x && y != t.nodes[x].kids[i - 1] && y != t.nodes[x].kids[i]
    ensures UpOk(Merge(t, x, i), y)
  {
    SiteOf(t, x, i);
    var u := Merge(t, x, i);
    var l, r := t.nodes[x].kids[i - 1], t.nodes[x].kids[i];
    assert PageOk(t, y);
    MergeOther(t, x, i, y);
    if y != t.root {
      var m := ParentSlot(t, y);
      var z := t.nodes[y].parent;
      if z == r {
        assert u.nodes[l].kids[|t.nodes[l].kids| + m] == y;
      } else if z == l {
        assert u.nodes[l].kids[m] == y;
      } else if z == x {
        assert u.nodes[x].kids[if m < i then m else m - 1] == y;
      } else {
        MergeOther(t, x, i, z);
      }
    }
  }

  /** Only the left sibling is followed by the page that disappears. */
  lemma MergeRestNext(t: Tree, x: PageId, i: int, y: PageId)
    requires Struct(t) && CanMerge(t, x, i) && y in t.info
    requires y != x && y != t.nodes[x].kids[i - 1] && y != t.nodes[x].kids[i]
    ensures NextOk(Merge(t, x, i), y)
  {
    SiteOf(t, x, i);
    var l, r := t.nodes[x].kids[i - 1], t.nodes[x].kids[i];
    assert PageOk(t, y);
    MergeOther(t, x, i, y);
    if t.nodes[y].Leaf? && t.info[y].hi.At? {
      var next := t.nodes[y].next;
      if next == r {
        LevelDisjoint(t, y, l, t.nodes[x].keys[i] - 1);
      } else if next != l {
        assert PageOk(t, next);
        MergeOther(t, x, i, next);
      }
    }
  }

  lemma MergeRest(t: Tree, x: PageId, i: int, y: PageId)
    requires Struct(t) && CanMerge(t, x, i) && y in t.info
    requires y != x && y != t.nodes[x].kids[i - 1] && y != t.nodes[x].kids[i]
    ensures PageOk(Merge(t, x, i), y)
  {
    SiteOf(t, x, i);
    var u := Merge(t, x, i);
    assert PageOk(t, y);
    MergeOther(t, x, i, y);
    MergeRestUp(t, x, i, y);
    MergeRestNext(t, x, i, y);
    if t.nodes[y].Internal? {
      forall j | 0 <= j < |t.nodes[y].kids| ensures KidOk(u, y, j) {
        assert KidOk(t, y, j);
        MergeRestKid(t, x, i, y, j);
      }
    }
    Frame(t, u, y);
  }

  /** Merging two adjacent children keeps the structure and the map. */
  lemma MergeKeepsStruct(t: Tree, x: PageId, i: int)
    requires Struct(t) && CanMerge(t, x, i)
    ensures Struct(Merge(t, x, i))
  {
    SiteOf(t, x, i);
    var u := Merge(t, x, i);
    forall y | y in u.info ensures PageOk(u, y) {
      if y == x {
        MergeParent(t, x, i);
      } else if y == t.nodes[x].kids[i - 1] {
        MergeJoined(t, x, i);
      } else {
        MergeRest(t, x, i, y);
      }
    }
  }
}
