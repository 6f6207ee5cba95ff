/** Splitting a page in two: the structural half of every insertion. */
module TreeSplit {
  import opened TreeModel

  predicate CanCut(n: Node, cut: int) {
    0 < cut < |n.keys| && if n.Leaf? then |n.keys| == |n.vals| else |n.keys| == |n.kids|
  }

  function Lower(n: Node, cut: int, q: PageId): Node
    requires CanCut(n, cut)
  {
    match n
    case Leaf(parent, keys, vals, _) => Leaf(parent, keys[..cut], vals[..cut], q)
    case Internal(parent, keys, kids) => Internal(parent, keys[..cut], kids[..cut])
  }

  function Upper(n: Node, cut: int): Node
    requires CanCut(n, cut)
  {
    match n
    case Leaf(parent, keys, vals, next) => Leaf(parent, keys[cut..], vals[cut..], next)
    case Internal(parent, keys, kids) => Internal(parent, keys[cut..], kids[cut..])
  }

  /** The children that leave with the upper half are pointed at their new parent. */
  function Moved(nodes: map<PageId, Node>, n: Node, cut: int, q: PageId): map<PageId, Node>
    requires CanCut(n, cut)
  {
    if n.Leaf? then nodes else Reparent(nodes, n.kids[cut..], q)
  }

  ghost predicate CanSplit(t: Tree, x: PageId, i: int, q: PageId, cut: int) {
    IsKid(t, x, i) && CanCut(t.nodes[t.nodes[x].kids[i]], cut) && q !in t.info && q > HEADER_PAGE_ID
  }

  /** The upper part of child i of x moves to page q, which becomes the next child of x. */
  ghost function Split(t: Tree, x: PageId, i: int, q: PageId, cut: int): Tree
    requires CanSplit(t, x, i, q, cut)
  {
    var xn := t.nodes[x];
    var p := xn.kids[i];
    var n, f := t.nodes[p], t.info[p];
    var s := n.keys[cut];
    t.(nodes := Moved(t.nodes, n, cut, q)
                [p := Lower(n, cut, q)]
                [q := Upper(n, cut)]
                [x := Internal(xn.parent, InsertAt(xn.keys, i + 1, s), InsertAt(xn.kids, i + 1, q))],
       info := t.info[p := f.(hi := At(s))][q := f.(lo := At(s))])
  }

  lemma SplitKeyInside(t: Tree, p: PageId, cut: int)
    requires PageOk(t, p) && CanCut(t.nodes[p], cut)
    ensures Inside(t.nodes[p].keys[cut], t.info[p].lo, t.info[p].hi)
  {
    if t.nodes[p].Leaf? {
      assert t.nodes[p].keys[0] < t.nodes[p].keys[cut];
    }
  }

  lemma SplitParentShape(t: Tree, x: PageId, i: int, q: PageId, cut: int)
    requires CanSplit(t, x, i, q, cut) && PageOk(t, x) && KidOk(t, x, i) && PageOk(t, t.nodes[x].kids[i])
    requires t.nodes[x].kids[i] != x
    ensures Shape(Split(t, x, i, q, cut), x)
  {
    SplitKeyInside(t, t.nodes[x].kids[i], cut);
  }

  lemma SplitParentKid(t: Tree, x: PageId, i: int, q: PageId, cut: int, j: int)
    requires CanSplit(t, x, i, q, cut) && PageOk(t, x) && KidOk(t, x, i) && PageOk(t, t.nodes[x].kids[i])
    requires 0 <= j <= |t.nodes[x].kids|
    requires j < i ==> KidOk(t, x, j)
    requires j > i + 1 ==> KidOk(t, x, j - 1)
    ensures KidOk(Split(t, x, i, q, cut), x, j)
  {
    var p := t.nodes[x].kids[i];
    if j != i && j != i + 1 {
      SplitOtherKid(t, x, i, q, cut, if j < i then j else j - 1);
    }
  }

  /** A child of x that takes no part in the split. */
  lemma SplitOtherKid(t: Tree, x: PageId, i: int, q: PageId, cut: int, m: int)
    requires CanSplit(t, x, i, q, cut) && PageOk(t, x) && KidOk(t, x, i) && PageOk(t, t.nodes[x].kids[i])
    requires KidOk(t, x, m) && m != i
    ensures var u, c := Split(t, x, i, q, cut), t.nodes[x].kids[m];
      c in u.nodes && c in u.info && u.info[c] == t.info[c] && u.nodes[c].parent == x
  {
    NotListed(t, t.nodes[x].kids[i], t.nodes[x].kids[m]);
    KidsDistinct(t, x, i, m);
  }

  /** What a split leaves alone: pages other than the two halves and their parent keep
      everything but, for the children that moved, the parent id. */
  lemma SplitOther(t: Tree, x: PageId, i: int, q: PageId, cut: int, y: PageId)
    requires Struct(t) && CanSplit(t, x, i, q, cut)
    requires y in t.info && y != x && y != t.nodes[x].kids[i]
    ensures var u, p := Split(t, x, i, q, cut), t.nodes[x].kids[i];
      y in u.nodes && u.info[y] == t.info[y] && u.nodes[y] == SetParent(t.nodes[y], u.nodes[y].parent) &&
      (t.nodes[y].parent != p ==> u.nodes[y] == t.nodes[y])
  {
    assert PageOk(t, x) && PageOk(t, y) && PageOk(t, t.nodes[x].kids[i]);
    if t.nodes[y].parent != t.nodes[x].kids[i] {
      NotListed(t, t.nodes[x].kids[i], y);
    }
  }

  lemma SplitParent(t: Tree, x: PageId, i: int, q: PageId, cut: int)
    requires Struct(t) && CanSplit(t, x, i, q, cut)
    ensures PageOk(Split(t, x, i, q, cut), x)
  {
    var u := Split(t, x, i, q, cut);
    assert PageOk(t, x) && KidOk(t, x, i);
    assert PageOk(t, t.nodes[x].kids[i]);
    SplitParentShape(t, x, i, q, cut);
    forall j | 0 <= j < |u.nodes[x].kids| ensures KidOk(u, x, j) {
      assert j < i ==> KidOk(t, x, j);
      assert j > i + 1 ==> KidOk(t, x, j - 1);
      SplitParentKid(t, x, i, q, cut, j);
    }
    if x != t.root {
      var _ := ParentSlot(t, x);
      SplitOther(t, x, i, q, cut, t.nodes[x].parent);
    }
  }

  lemma SplitHalfShapes(t: Tree, x: PageId, i: int, q: PageId, cut: int)
    requires CanSplit(t, x, i, q, cut) && PageOk(t, x) && KidOk(t, x, i) && PageOk(t, t.nodes[x].kids[i])
    ensures Shape(Split(t, x, i, q, cut), t.nodes[x].kids[i]) && Shape(Split(t, x, i, q, cut), q)
  {
    var p := t.nodes[x].kids[i];
    SplitKeyInside(t, p, cut);
    HalfShapes(t.nodes[p], t.info[p], cut, q);
  }

  lemma HalfShapes(n: Node, f: Info, cut: int, q: PageId)
    requires CanCut(n, cut) && NodeShape(n, f) && Inside(n.keys[cut], f.lo, f.hi)
    ensures NodeShape(Lower(n, cut, q), f.(hi := At(n.keys[cut])))
    ensures NodeShape(Upper(n, cut), f.(lo := At(n.keys[cut])))
  {
  }

  lemma SplitHalfKid(t: Tree, x: PageId, i: int, q: PageId, cut: int, j: int)
    requires Struct(t) && CanSplit(t, x, i, q, cut) && t.nodes[t.nodes[x].kids[i]].Internal?
    requires 0 <= j < |t.nodes[t.nodes[x].kids[i]].kids|
    ensures var u, p := Split(t, x, i, q, cut), t.nodes[x].kids[i];
      var half, m := if j < cut then p else q, if j < cut then j else j - cut;
      KidOk(u, half, m) && u.nodes[half].kids[m] == t.nodes[p].kids[j]
  {
    assert PageOk(t, x) && KidOk(t, x, i);
    var p := t.nodes[x].kids[i];
    var n := t.nodes[p];
    assert PageOk(t, p) && KidOk(t, p, j);
    assert PageOk(t, n.kids[j]);
    if j < cut {
      forall m | cut <= m < |n.kids| ensures n.kids[m] != n.kids[j] {
        assert KidOk(t, p, m);
        KidsDistinct(t, p, m, j);
      }
    } else {
      assert n.kids[j] == n.kids[cut..][j - cut];
    }
  }

  lemma SplitHalves(t: Tree, x: PageId, i: int, q: PageId, cut: int)
    requires Struct(t) && CanSplit(t, x, i, q, cut)
    ensures PageOk(Split(t, x, i, q, cut), t.nodes[x].kids[i]) && PageOk(Split(t, x, i, q, cut), q)
  {
    assert PageOk(t, x) && KidOk(t, x, i);
    var p := t.nodes[x].kids[i];
    assert PageOk(t, p);
    SplitHalfShapes(t, x, i, q, cut);
    SplitHalfKids(t, x, i, q, cut);
    if t.nodes[p].Leaf? {
      SplitLeafHolds(t.nodes[p], t.info[p], t.content, cut, q);
    }
  }

  lemma SplitHalfKids(t: Tree, x: PageId, i: int, q: PageId, cut: int)
    requires Struct(t) && CanSplit(t, x, i, q, cut)
    ensures KidsOk(Split(t, x, i, q, cut), t.nodes[x].kids[i]) && KidsOk(Split(t, x, i, q, cut), q)
  {
    var u, p := Split(t, x, i, q, cut), t.nodes[x].kids[i];
    assert PageOk(t, x) && KidOk(t, x, i);
    if t.nodes[p].Internal? {
      forall j | 0 <= j < |u.nodes[p].kids| ensures KidOk(u, p, j) {
        SplitHalfKid(t, x, i, q, cut, j);
      }
      forall j | 0 <= j < |u.nodes[q].kids| ensures KidOk(u, q, j) {
        SplitHalfKid(t, x, i, q, cut, j + cut);
      }
    }
  }

  lemma SplitLeafHolds(n: Node, f: Info, content: map<Key, Value>, cut: int, q: PageId)
    requires n.Leaf? && NodeShape(n, f) && Holds(n, f, content) && CanCut(n, cut)
    ensures Holds(Lower(n, cut, q), f.(hi := At(n.keys[cut])), content)
    ensures Holds(Upper(n, cut), f.(lo := At(n.keys[cut])), content)
  {
  }

  lemma SplitRestKid(t: Tree, x: PageId, i: int, q: PageId, cut: int, y: PageId, j: int)
    requires Struct(t) && CanSplit(t, x, i, q, cut)
    requires y in t.info && y != x && y != t.nodes[x].kids[i] && KidOk(t, y, j)
    ensures KidOk(Split(t, x, i, q, cut), y, j)
  {
    assert PageOk(t, x) && KidOk(t, x, i);
    SplitOther(t, x, i, q, cut, y);
    var c := t.nodes[y].kids[j];
    if c != x {
      SplitOther(t, x, i, q, cut, c);
    }
  }

  lemma SplitRestUp(t: Tree, x: PageId, i: int, q: PageId, cut: int, y: PageId)
    requires Struct(t) && CanSplit(t, x, i, q, cut)
    requires y in t.info && y != x && y != t.nodes[x].kids[i]
    ensures UpOk(Split(t, x, i, q, cut), y)
  {
    var u := Split(t, x, i, q, cut);
    var p := t.nodes[x].kids[i];
    SplitOther(t, x, i, q, cut, y);
    assert PageOk(t, y) && PageOk(t, p);
    if y != t.root {
      var m := ParentSlot(t, y);
      var z := t.nodes[y].parent;
      if z == p {
        SplitHalfKid(t, x, i, q, cut, m);
      } else if z == x {
        assert u.nodes[x].kids[if m <= i then m else m + 1] == y;
      } else {
        SplitOther(t, x, i, q, cut, z);
      }
    }
  }

  lemma SplitRest(t: Tree, x: PageId, i: int, q: PageId, cut: int, y: PageId)
    requires Struct(t) && CanSplit(t, x, i, q, cut)
    requires y in t.info && y != x && y != t.nodes[x].kids[i]
    ensures PageOk(Split(t, x, i, q, cut), y)
  {
    var u := Split(t, x, i, q, cut);
    SplitOther(t, x, i, q, cut, y);
    SplitRestUp(t, x, i, q, cut, y);
    assert PageOk(t, y) && PageOk(t, x);
    if t.nodes[y].Internal? {
      forall j | 0 <= j < |t.nodes[y].kids| ensures KidOk(u, y, j) {
        assert KidOk(t, y, j);
        SplitRestKid(t, x, i, q, cut, y, j);
      }
    } else if t.info[y].hi.At? && t.nodes[y].next != t.nodes[x].kids[i] {
      SplitOther(t, x, i, q, cut, t.nodes[y].next);
    }
    Frame(t, u, y);
  }

  /** Splitting a child keeps the structure and the map. */
  lemma SplitKeepsStruct(t: Tree, x: PageId, i: int, q: PageId, cut: int)
    requires Struct(t) && CanSplit(t, x, i, q, cut)
    ensures Struct(Split(t, x, i, q, cut))
  {
    var u := Split(t, x, i, q, cut);
    forall y | y in u.info ensures PageOk(u, y) {
      if y == x {
        SplitParent(t, x, i, q, cut);
      } else if y == q || y == t.nodes[x].kids[i] {
        SplitHalves(t, x, i, q, cut);
      } else {
        SplitRest(t, x, i, q, cut, y);
      }
    }
  }
}
