/** The page store of one B+ tree index, and the invariant that makes it a B+ tree.

    A page is a value; the store maps page ids to pages. Keys are integers: an index only
    ever compares its keys, and every key type of the system is a finite, totally ordered set
    of fixed-size records, so the rank of a key in that order carries all that matters.

    The invariant decorates every live page with its level and with the key interval it is
    responsible for. With these decorations each clause speaks about one page and its direct
    neighbours only, and the global facts (equal depth, disjoint subtrees, ordered leaf chain)
    are theorems. */
module TreeModel {
  type Key = int
  type PageId = int
  type Value(!new)

  const INVALID_PAGE_ID: PageId := -1
  const HEADER_PAGE_ID: PageId := 0

  /** An end of a key interval. */
  datatype Bound = Unbounded | At(key: Key)

  /** A page. Slot 0 of an internal page has a child but its key is never consulted. */
  datatype Node =
    | Leaf(parent: PageId, keys: seq<Key>, vals: seq<Value>, next: PageId)
    | Internal(parent: PageId, keys: seq<Key>, kids: seq<PageId>)

  /** What a live page is responsible for: its distance from the leaves and its keys lo <= k < hi. */
  datatype Info = Info(level: nat, lo: Bound, hi: Bound)

  /** A page store with its decorations and the finite map it stands for. */
  datatype Tree = Tree(nodes: map<PageId, Node>, info: map<PageId, Info>, root: PageId, content: map<Key, Value>)

  predicate InRange(k: Key, lo: Bound, hi: Bound) {
    (lo.At? ==> lo.key <= k) && (hi.At? ==> k < hi.key)
  }

  predicate Inside(k: Key, lo: Bound, hi: Bound) {
    (lo.At? ==> lo.key < k) && (hi.At? ==> k < hi.key)
  }

  /** Strictly increasing keys, ignoring the first `from` slots. */
  ghost predicate Increasing(keys: seq<Key>, from: nat) {
    forall i, j :: from <= i < j < |keys| ==> keys[i] < keys[j]
  }

  // ---------------------------------------------------------------- the clauses

  ghost predicate Shape(t: Tree, p: PageId) {
    && t.root in t.info && p in t.info && p in t.nodes
    && p > HEADER_PAGE_ID
    && var n, f := t.nodes[p], t.info[p];
    && f.level <= t.info[t.root].level
    && (f.lo.At? && f.hi.At? ==> f.lo.key < f.hi.key)
    && NodeShape(n, f)
  }

  ghost predicate NodeShape(n: Node, f: Info) {
    match n
    case Leaf(_, keys, vals, _) =>
      && f.level == 0
      && |keys| == |vals|
      && Increasing(keys, 0)
      && (forall i :: 0 <= i < |keys| ==> InRange(keys[i], f.lo, f.hi))
    case Internal(_, keys, kids) =>
      && f.level > 0
      && |keys| == |kids| >= 1
      && Increasing(keys, 1)
      && (forall i :: 1 <= i < |keys| ==> Inside(keys[i], f.lo, f.hi))
  }

  /** What child i of an internal page is responsible for: K(i) <= k < K(i+1), one level down. */
  ghost predicate KidInfo(n: Node, f: Info, i: int, c: Info)
    requires n.Internal? && 0 <= i < |n.keys|
  {
    && c.level + 1 == f.level
    && c.lo == (if i == 0 then f.lo else At(n.keys[i]))
    && c.hi == (if i == |n.keys| - 1 then f.hi else At(n.keys[i + 1]))
  }

  ghost predicate IsKid(t: Tree, p: PageId, i: int) {
    && p in t.info && p in t.nodes && t.nodes[p].Internal?
    && |t.nodes[p].keys| == |t.nodes[p].kids|
    && 0 <= i < |t.nodes[p].kids|
    && t.nodes[p].kids[i] in t.info && t.nodes[p].kids[i] in t.nodes
  }

  ghost predicate KidOk(t: Tree, p: PageId, i: int) {
    && IsKid(t, p, i)
    && t.nodes[t.nodes[p].kids[i]].parent == p
    && KidInfo(t.nodes[p], t.info[p], i, t.info[t.nodes[p].kids[i]])
  }

  ghost predicate KidsOk(t: Tree, p: PageId) {
    && p in t.nodes
    && (t.nodes[p].Internal? ==> forall i {:trigger KidOk(t, p, i)} :: 0 <= i < |t.nodes[p].kids| ==> KidOk(t, p, i))
  }

  ghost predicate UpOk(t: Tree, p: PageId) {
    && p in t.info && p in t.nodes
    && var parent := t.nodes[p].parent;
    if p == t.root then
      parent == INVALID_PAGE_ID && t.info[p].lo == Unbounded && t.info[p].hi == Unbounded
    else
      parent in t.info && parent in t.nodes && t.nodes[parent].Internal? && p in t.nodes[parent].kids
  }

  ghost predicate NextOk(t: Tree, p: PageId) {
    && p in t.info && p in t.nodes
    && (t.nodes[p].Leaf? ==>
      var next := t.nodes[p].next;
      match t.info[p].hi
      case Unbounded => next == INVALID_PAGE_ID
      case At(_) => next in t.info && next in t.nodes && t.nodes[next].Leaf? && t.info[next].lo == t.info[p].hi)
  }

  /** A leaf holds exactly the entries of the map that fall into its interval. */
  ghost predicate Holds(n: Node, f: Info, content: map<Key, Value>) {
    n.Leaf? ==>
      && |n.keys| == |n.vals|
      && (forall i :: 0 <= i < |n.keys| ==> n.keys[i] in content && content[n.keys[i]] == n.vals[i])
      && (forall k :: k in content && InRange(k, f.lo, f.hi) ==> k in n.keys)
  }

  ghost predicate PageOk(t: Tree, p: PageId) {
    && Shape(t, p) && KidsOk(t, p) && UpOk(t, p) && NextOk(t, p)
    && Holds(t.nodes[p], t.info[p], t.content)
  }

  /** Everything but the page sizes. */
  ghost predicate Struct(t: Tree) {
    t.root in t.info && forall p {:trigger PageOk(t, p)} :: p in t.info ==> PageOk(t, p)
  }

  // ---------------------------------------------------------------- general facts

  /** Adjacent children have adjacent intervals, so no page is listed twice. */
  lemma KidsDistinct(t: Tree, p: PageId, i: int, j: int)
    requires PageOk(t, p) && KidOk(t, p, i) && KidOk(t, p, j) && i != j
    ensures t.nodes[p].kids[i] != t.nodes[p].kids[j]
  {
  }

  /** A page survives a change elsewhere when its own entries, its children's duties, its
      parent link, its successor and the entries of its interval are kept. */
  lemma Frame(t: Tree, u: Tree, p: PageId)
    requires PageOk(t, p)
    requires p in u.info && p in u.nodes && u.root in u.info
    requires u.info[p] == t.info[p] && u.nodes[p] == SetParent(t.nodes[p], u.nodes[p].parent)
    requires u.info[p].level <= u.info[u.root].level
    requires t.nodes[p].Internal? ==>
      forall i {:trigger KidOk(u, p, i)} :: 0 <= i < |t.nodes[p].kids| ==> KidOk(u, p, i)
    requires UpOk(u, p) && NextOk(u, p)
    requires t.nodes[p].Leaf? ==> Holds(t.nodes[p], t.info[p], u.content)
    ensures PageOk(u, p)
  {
  }

  function SetParent(n: Node, parent: PageId): Node {
    n.(parent := parent)
  }

  function SetKeys(n: Node, keys: seq<Key>): Node {
    n.(keys := keys)
  }

  /** Point every page listed in `kids` at a new parent. */
  function Reparent(nodes: map<PageId, Node>, kids: seq<PageId>, parent: PageId): map<PageId, Node> {
    map c | c in nodes :: if c in kids then SetParent(nodes[c], parent) else nodes[c]
  }

  function InsertAt<T>(s: seq<T>, i: nat, x: T): (r: seq<T>)
    requires i <= |s|
  {
    s[..i] + [x] + s[i..]
  }

  function RemoveAt<T>(s: seq<T>, i: nat): (r: seq<T>)
    requires i < |s|
  {
    s[..i] + s[i + 1..]
  }

  /** A page lists only its own children. */
  lemma NotListed(t: Tree, p: PageId, c: PageId)
    requires KidsOk(t, p) && c in t.nodes && t.nodes[c].parent != p
    ensures t.nodes[p].Internal? ==> c !in t.nodes[p].kids
  {
    if t.nodes[p].Internal? {
      forall m | 0 <= m < |t.nodes[p].kids| ensures t.nodes[p].kids[m] != c {
        assert KidOk(t, p, m);
      }
    }
  }

  /** The slot of its parent that lists a page, one level up. */
  lemma ParentSlot(t: Tree, p: PageId) returns (i: int)
    requires Struct(t) && p in t.info && p != t.root
    ensures p in t.nodes
    ensures var x := t.nodes[p].parent; PageOk(t, x) && KidOk(t, x, i) && t.nodes[x].kids[i] == p
  {
    assert PageOk(t, p);
    var x := t.nodes[p].parent;
    assert PageOk(t, x);
    i :| 0 <= i < |t.nodes[x].kids| && t.nodes[x].kids[i] == p;
    assert KidOk(t, x, i);
  }

  /** The interval of a child lies within that of its parent. */
  lemma KidWithin(t: Tree, p: PageId, i: int, k: Key)
    requires PageOk(t, p) && KidOk(t, p, i)
    requires InRange(k, t.info[t.nodes[p].kids[i]].lo, t.info[t.nodes[p].kids[i]].hi)
    ensures InRange(k, t.info[p].lo, t.info[p].hi)
  {
  }

  /** Pages of one level are responsible for disjoint intervals. */
  lemma {:induction false} LevelDisjoint(t: Tree, p: PageId, q: PageId, k: Key)
    requires Struct(t) && p in t.info && q in t.info && t.info[p].level == t.info[q].level
    requires InRange(k, t.info[p].lo, t.info[p].hi) && InRange(k, t.info[q].lo, t.info[q].hi)
    ensures p == q
    decreases t.info[t.root].level - t.info[p].level
  {
    assert PageOk(t, p) && PageOk(t, q);
    if p != q {
      if p == t.root {
        var _ := ParentSlot(t, q);
      } else if q == t.root {
        var _ := ParentSlot(t, p);
      } else {
        var i := ParentSlot(t, p);
        var j := ParentSlot(t, q);
        KidWithin(t, t.nodes[p].parent, i, k);
        KidWithin(t, t.nodes[q].parent, j, k);
        LevelDisjoint(t, t.nodes[p].parent, t.nodes[q].parent, k);
      }
    }
  }
}
