/** Scanning along the leaf chain. */
module TreeScan {
  import opened TreeModel
  import opened TreeEdge
  import opened TreeSizes

  /** A coarser comparator joins neighbouring keys into classes. Seen from a probe, its class ends
      at some bound: keys from the probe on compare equal to it exactly when they are below. */
  predicate Below(k: Key, until: Bound) {
    until.At? ==> k < until.key
  }

  /** `ks` lists, in order and without repeats, the keys from `key` on that lie before `from` and
      belong to the class that ends at `until`. */
  ghost predicate ScanOk(content: map<Key, Value>, key: Key, until: Bound, ks: seq<Key>, from: Bound) {
    && Increasing(ks, 0)
    && (forall k :: k in ks ==> k in content && key <= k && Below(k, until) && Below(k, from))
    && (forall k :: k in content && key <= k && Below(k, until) && Below(k, from) ==> k in ks)
  }

  ghost predicate ValuesOf(content: map<Key, Value>, ks: seq<Key>, vs: seq<Value>) {
    |vs| == |ks| && forall i :: 0 <= i < |ks| ==> ks[i] in content && content[ks[i]] == vs[i]
  }

  /** Where a scan at slot `index` of a leaf goes on. */
  ghost function Position(n: Node, f: Info, index: int): Bound
    requires -1 <= index <= |n.keys|
  {
    if index == -1 || index == |n.keys| then f.hi else At(n.keys[index])
  }

  ghost function Rest(content: map<Key, Value>, from: Bound): set<Key> {
    set k | k in content && !Below(k, from)
  }

  lemma ScanStart(n: Node, f: Info, content: map<Key, Value>, key: Key, until: Bound, index: int)
    requires LeafOk(n, f, content) && InRange(key, f.lo, f.hi) && -1 <= index < |n.keys|
    requires IsRank(n.keys, key, if index == -1 then |n.keys| else index)
    ensures ScanOk(content, key, until, [], Position(n, f, index))
  {
  }

  /** Once a key is past the class, all later ones are. */
  lemma ScanStop(content: map<Key, Value>, key: Key, until: Bound, ks: seq<Key>, k: Key)
    requires ScanOk(content, key, until, ks, At(k)) && !Below(k, until)
    ensures ScanOk(content, key, until, ks, Unbounded)
  {
  }

  lemma ScanPush(n: Node, f: Info, content: map<Key, Value>, key: Key, until: Bound, ks: seq<Key>, index: int)
    requires LeafOk(n, f, content) && 0 <= index < |n.keys| && key <= n.keys[index] && Below(n.keys[index], until)
    requires ScanOk(content, key, until, ks, At(n.keys[index]))
    ensures ScanOk(content, key, until, ks + [n.keys[index]], Position(n, f, index + 1))
    ensures Rest(content, Position(n, f, index + 1)) < Rest(content, At(n.keys[index]))
  {
    var k, next, rs := n.keys[index], Position(n, f, index + 1), ks + [n.keys[index]];
    forall m | m in content && InRange(m, f.lo, f.hi) && k < m ensures !Below(m, next) || next == f.hi {
      assert m in n.keys;
    }
    forall m | m in content && key <= m && Below(m, until) && Below(m, next) ensures m in rs {
      if k < m {
        assert InRange(m, f.lo, f.hi);
      }
    }
    assert k in Rest(content, At(k)) && k !in Rest(content, next);
    assert rs[|ks|] == k;
    forall a, b | 0 <= a < b < |rs| ensures rs[a] < rs[b] {
      assert rs[a] in ks;
    }
  }

  /** The next leaf starts where this one ends. */
  lemma ScanHop(n: Node, f: Info, content: map<Key, Value>, key: Key, until: Bound, ks: seq<Key>, from: Bound)
    requires LeafOk(n, f, content) && |n.keys| > 0 && from.At? && f.lo == from && key <= from.key
    requires ScanOk(content, key, until, ks, from)
    ensures ScanOk(content, key, until, ks, At(n.keys[0])) && key <= n.keys[0]
    ensures Rest(content, At(n.keys[0])) <= Rest(content, from)
  {
    forall m | m in content && InRange(m, f.lo, f.hi) ensures n.keys[0] <= m {
      assert m in n.keys;
    }
    forall m | m in content && key <= m && Below(m, until) && Below(m, At(n.keys[0])) ensures m in ks {
      if from.key <= m {
        assert InRange(m, f.lo, f.hi);
      }
    }
  }

  /** A scan stands at slot `index` of leaf p, having collected `ks` and `vs`. */
  ghost predicate ScanAt(t: Tree, p: PageId, index: int, key: Key, until: Bound, ks: seq<Key>, vs: seq<Value>) {
    && p in t.info && p in t.nodes && t.nodes[p].Leaf? && |t.nodes[p].keys| == |t.nodes[p].vals|
    && var n, f := t.nodes[p], t.info[p];
    && -1 <= index <= |n.keys|
    && (0 <= index < |n.keys| ==> key <= n.keys[index])
    && (index == -1 || index == |n.keys| ==> Below(key, f.hi))
    && ScanOk(t.content, key, until, ks, Position(n, f, index)) && ValuesOf(t.content, ks, vs)
  }

  /** The keys a scan has not passed yet. */
  ghost function Left(t: Tree, p: PageId, index: int): set<Key> {
    if p in t.nodes && p in t.info && -1 <= index <= |t.nodes[p].keys| then
      Rest(t.content, Position(t.nodes[p], t.info[p], index))
    else
      {}
  }

  lemma Begin(t: Tree, p: PageId, index: int, key: Key, until: Bound)
    requires Struct(t) && AtLeaf(t, p, key) && -1 <= index < |t.nodes[p].keys|
    requires IsRank(t.nodes[p].keys, key, if index == -1 then |t.nodes[p].keys| else index)
    ensures ScanAt(t, p, index, key, until, [], [])
  {
    assert PageOk(t, p);
    ScanStart(t.nodes[p], t.info[p], t.content, key, until, index);
  }

  lemma Push(t: Tree, p: PageId, index: int, key: Key, until: Bound, ks: seq<Key>, vs: seq<Value>)
    requires Struct(t) && ScanAt(t, p, index, key, until, ks, vs)
    requires 0 <= index < |t.nodes[p].keys| && Below(t.nodes[p].keys[index], until)
    ensures ScanAt(t, p, index + 1, key, until, ks + [t.nodes[p].keys[index]], vs + [t.nodes[p].vals[index]])
    ensures Left(t, p, index + 1) < Left(t, p, index)
  {
    assert PageOk(t, p);
    ScanPush(t.nodes[p], t.info[p], t.content, key, until, ks, index);
  }

  /** The successor of a leaf starts where the leaf ends, and is not empty. */
  lemma Hop(t: Tree, p: PageId, index: int, key: Key, until: Bound, ks: seq<Key>, vs: seq<Value>, caps: Caps)
    requires Struct(t) && CapsOk(caps) && Sizes(t, caps) && ScanAt(t, p, index, key, until, ks, vs)
    requires index == -1 || index == |t.nodes[p].keys|
    requires t.nodes[p].next != INVALID_PAGE_ID
    ensures var q := t.nodes[p].next;
      && ScanAt(t, q, 0, key, until, ks, vs) && |t.nodes[q].keys| > 0
      && Left(t, q, 0) <= Left(t, p, index)
  {
    assert PageOk(t, p);
    var q := t.nodes[p].next;
    assert PageOk(t, q) && SizeOk(t, q, caps);
    ScanHop(t.nodes[q], t.info[q], t.content, key, until, ks, t.info[p].hi);
  }

  lemma Finish(t: Tree, p: PageId, index: int, key: Key, until: Bound, ks: seq<Key>, vs: seq<Value>)
    requires Struct(t) && ScanAt(t, p, index, key, until, ks, vs)
    requires index == -1 || index == |t.nodes[p].keys|
    requires t.nodes[p].next == INVALID_PAGE_ID
    ensures ScanOk(t.content, key, until, ks, Unbounded)
  {
    assert PageOk(t, p);
    LiveIsPositive(t, t.nodes[p].next);
  }

  /** Of the keys from `key` on, a coarser comparator does not tell exactly those below `until` from it. */
  ghost predicate ClassEndsAt(content: map<Key, Value>, key: Key, same: Key -> bool, until: Bound) {
    forall k :: k in content && key <= k ==> (same(k) <==> Below(k, until))
  }

  /** In order and without repeats, the keys from `key` on that the comparator does not tell from it. */
  ghost predicate ClassListed(content: map<Key, Value>, key: Key, same: Key -> bool, ks: seq<Key>) {
    Increasing(ks, 0) && forall k :: k in ks <==> k in content && key <= k && same(k)
  }

  lemma ListsClass(content: map<Key, Value>, key: Key, same: Key -> bool, until: Bound, ks: seq<Key>)
    requires ClassEndsAt(content, key, same, until) && ScanOk(content, key, until, ks, Unbounded)
    ensures ClassListed(content, key, same, ks)
  {
  }

  lemma StopTest(t: Tree, p: PageId, index: int, key: Key, same: Key -> bool, until: Bound)
    requires Struct(t) && ClassEndsAt(t.content, key, same, until)
    requires p in t.info && p in t.nodes && t.nodes[p].Leaf? && 0 <= index < |t.nodes[p].keys|
             && key <= t.nodes[p].keys[index]
    ensures same(t.nodes[p].keys[index]) <==> Below(t.nodes[p].keys[index], until)
  {
    assert PageOk(t, p);
  }

  /** The scan ends at a key of another class. */
  lemma StopsHere(t: Tree, p: PageId, index: int, key: Key, same: Key -> bool, until: Bound, ks: seq<Key>,
                  vs: seq<Value>)
    requires Struct(t) && ClassEndsAt(t.content, key, same, until) && ScanAt(t, p, index, key, until, ks, vs)
    requires 0 <= index < |t.nodes[p].keys| && !same(t.nodes[p].keys[index])
    ensures ClassListed(t.content, key, same, ks)
  {
    StopTest(t, p, index, key, same, until);
    ScanStop(t.content, key, until, ks, t.nodes[p].keys[index]);
    ListsClass(t.content, key, same, until, ks);
  }

  /** The scan ends at the last leaf. */
  lemma EndsHere(t: Tree, p: PageId, index: int, key: Key, same: Key -> bool, until: Bound, ks: seq<Key>,
                 vs: seq<Value>)
    requires Struct(t) && ClassEndsAt(t.content, key, same, until) && ScanAt(t, p, index, key, until, ks, vs)
    requires (index == -1 || index == |t.nodes[p].keys|) && t.nodes[p].next == INVALID_PAGE_ID
    ensures ClassListed(t.content, key, same, ks)
  {
    Finish(t, p, index, key, until, ks, vs);
    ListsClass(t.content, key, same, until, ks);
  }

  lemma LiveIsPositive(t: Tree, p: PageId)
    requires Struct(t)
    ensures p in t.info ==> p > HEADER_PAGE_ID
  {
    if p in t.info {
      assert PageOk(t, p);
    }
  }
}
