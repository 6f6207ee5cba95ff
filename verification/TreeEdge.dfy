/** The remaining steps: one entry of a leaf, and a root above or below the current one. */
module TreeEdge {
  import opened TreeModel

  // ---------------------------------------------------------------- leaf entries

  /** Leaf p gets new entries and the map changes with them, inside p's interval only. */
  ghost function Refill(t: Tree, p: PageId, keys: seq<Key>, vals: seq<Value>, content: map<Key, Value>): Tree
    requires p in t.nodes && t.nodes[p].Leaf?
  {
    t.(nodes := t.nodes[p := t.nodes[p].(keys := keys, vals := vals)], content := content)
  }

  /** Two maps agree outside the interval of a page. */
  ghost predicate AgreeOutside(a: map<Key, Value>, b: map<Key, Value>, f: Info) {
    && (forall k :: k in a && !InRange(k, f.lo, f.hi) ==> k in b && b[k] == a[k])
    && (forall k :: k in b && !InRange(k, f.lo, f.hi) ==> k in a)
  }

  lemma RefillOther(t: Tree, p: PageId, keys: seq<Key>, vals: seq<Value>, content: map<Key, Value>, y: PageId)
    requires Struct(t) && p in t.info && p in t.nodes && t.nodes[p].Leaf?
    requires AgreeOutside(t.content, content, t.info[p])
    requires y in t.info && y != p
    ensures PageOk(Refill(t, p, keys, vals, content), y)
  {
    var u := Refill(t, p, keys, vals, content);
    assert PageOk(t, y) && PageOk(t, p);
    if t.nodes[y].Internal? {
      forall j | 0 <= j < |t.nodes[y].kids| ensures KidOk(u, y, j) {
        assert KidOk(t, y, j);
      }
    } else {
      forall k | InRange(k, t.info[y].lo, t.info[y].hi) ensures !InRange(k, t.info[p].lo, t.info[p].hi) {
        if InRange(k, t.info[p].lo, t.info[p].hi) {
          LevelDisjoint(t, y, p, k);
        }
      }
    }
    Frame(t, u, y);
  }

  lemma RefillKeepsStruct(t: Tree, p: PageId, keys: seq<Key>, vals: seq<Value>, content: map<Key, Value>)
    requires Struct(t) && p in t.info && p in t.nodes && t.nodes[p].Leaf?
    requires AgreeOutside(t.content, content, t.info[p])
    requires var n := t.nodes[p].(keys := keys, vals := vals);
      NodeShape(n, t.info[p]) && Holds(n, t.info[p], content)
    ensures Struct(Refill(t, p, keys, vals, content))
  {
    var u := Refill(t, p, keys, vals, content);
    forall y | y in u.info ensures PageOk(u, y) {
      assert PageOk(t, p);
      if y != p {
        RefillOther(t, p, keys, vals, content, y);
      } else if p != t.root {
        assert PageOk(t, t.nodes[p].parent);
      }
    }
  }

  /** The first slot whose key is at least k. */
  ghost predicate IsRank(keys: seq<Key>, k: Key, i: int) {
    && 0 <= i <= |keys|
    && (forall j :: 0 <= j < i ==> keys[j] < k)
    && (forall j :: i <= j < |keys| ==> k <= keys[j])
  }

  ghost predicate LeafOk(n: Node, f: Info, content: map<Key, Value>) {
    n.Leaf? && NodeShape(n, f) && Holds(n, f, content)
  }

  lemma InsertIncreasing(keys: seq<Key>, i: int, k: Key)
    requires Increasing(keys, 0) && IsRank(keys, k, i) && k !in keys
    ensures Increasing(InsertAt(keys, i, k), 0)
  {
    var r := InsertAt(keys, i, k);
    forall a, b | 0 <= a < b < |r| ensures r[a] < r[b] {
      assert a < i ==> r[a] == keys[a];
      assert b > i ==> r[b] == keys[b - 1];
    }
  }

  lemma RemoveIncreasing(keys: seq<Key>, i: int)
    requires Increasing(keys, 0) && 0 <= i < |keys|
    ensures Increasing(RemoveAt(keys, i), 0)
  {
  }

  lemma InsertMembers(keys: seq<Key>, i: int, k: Key, m: Key)
    requires 0 <= i <= |keys|
    ensures m in InsertAt(keys, i, k) <==> m == k || m in keys
  {
    var r := InsertAt(keys, i, k);
    assert r[i] == k;
    if m in keys {
      assert m in keys[..i] + keys[i..];
    }
  }

  lemma RemoveMembers(keys: seq<Key>, i: int, m: Key)
    requires Increasing(keys, 0) && 0 <= i < |keys|
    ensures m in RemoveAt(keys, i) <==> m != keys[i] && m in keys
  {
    if m != keys[i] && m in keys {
      assert keys == keys[..i] + [keys[i]] + keys[i + 1..];
    }
  }

  lemma AddToLeaf(n: Node, f: Info, content: map<Key, Value>, k: Key, v: Value, i: int)
    requires LeafOk(n, f, content) && InRange(k, f.lo, f.hi) && k !in n.keys && IsRank(n.keys, k, i)
    ensures LeafOk(n.(keys := InsertAt(n.keys, i, k), vals := InsertAt(n.vals, i, v)), f, content[k := v])
  {
    var keys, vals := InsertAt(n.keys, i, k), InsertAt(n.vals, i, v);
    InsertIncreasing(n.keys, i, k);
    forall j | 0 <= j < |keys|
      ensures InRange(keys[j], f.lo, f.hi) && keys[j] in content[k := v] && content[k := v][keys[j]] == vals[j]
    {
      if j < i {
        assert keys[j] == n.keys[j] && vals[j] == n.vals[j];
      } else if j > i {
        assert keys[j] == n.keys[j - 1] && vals[j] == n.vals[j - 1];
      }
    }
    forall m | m in content[k := v] && InRange(m, f.lo, f.hi) ensures m in keys {
      InsertMembers(n.keys, i, k, m);
    }
  }

  lemma DropFromLeaf(n: Node, f: Info, content: map<Key, Value>, i: int)
    requires LeafOk(n, f, content) && 0 <= i < |n.keys|
    ensures LeafOk(n.(keys := RemoveAt(n.keys, i), vals := RemoveAt(n.vals, i)), f, content - {n.keys[i]})
  {
    var keys, vals := RemoveAt(n.keys, i), RemoveAt(n.vals, i);
    RemoveIncreasing(n.keys, i);
    forall j | 0 <= j < |keys|
      ensures InRange(keys[j], f.lo, f.hi) && keys[j] in content - {n.keys[i]} && content[keys[j]] == vals[j]
    {
      var m := if j < i then j else j + 1;
      assert keys[j] == n.keys[m] && vals[j] == n.vals[m];
    }
    forall m | m in content - {n.keys[i]} && InRange(m, f.lo, f.hi) ensures m in keys {
      RemoveMembers(n.keys, i, m);
    }
  }

  ghost predicate AtLeaf(t: Tree, p: PageId, k: Key) {
    && p in t.info && p in t.nodes && t.nodes[p].Leaf? && |t.nodes[p].keys| == |t.nodes[p].vals|
    && InRange(k, t.info[p].lo, t.info[p].hi)
  }

  /** A new key goes in at its rank. */
  lemma AddEntry(t: Tree, p: PageId, k: Key, v: Value, i: int)
    requires Struct(t) && AtLeaf(t, p, k) && k !in t.nodes[p].keys && IsRank(t.nodes[p].keys, k, i)
    ensures k !in t.content
    ensures Struct(Refill(t, p, InsertAt(t.nodes[p].keys, i, k), InsertAt(t.nodes[p].vals, i, v), t.content[k := v]))
  {
    assert PageOk(t, p);
    AddToLeaf(t.nodes[p], t.info[p], t.content, k, v, i);
    RefillKeepsStruct(t, p, InsertAt(t.nodes[p].keys, i, k), InsertAt(t.nodes[p].vals, i, v), t.content[k := v]);
  }

  /** A key that is present has its value replaced. */
  lemma PutEntry(t: Tree, p: PageId, k: Key, v: Value, i: int)
    requires Struct(t) && AtLeaf(t, p, k) && 0 <= i < |t.nodes[p].keys| && t.nodes[p].keys[i] == k
    ensures k in t.content
    ensures Struct(Refill(t, p, t.nodes[p].keys, t.nodes[p].vals[i := v], t.content[k := v]))
  {
    assert PageOk(t, p);
    RefillKeepsStruct(t, p, t.nodes[p].keys, t.nodes[p].vals[i := v], t.content[k := v]);
  }

  /** A key that is present is taken out. */
  lemma DropEntry(t: Tree, p: PageId, k: Key, i: int)
    requires Struct(t) && AtLeaf(t, p, k) && 0 <= i < |t.nodes[p].keys| && t.nodes[p].keys[i] == k
    ensures k in t.content
    ensures Struct(Refill(t, p, RemoveAt(t.nodes[p].keys, i), RemoveAt(t.nodes[p].vals, i), t.content - {k}))
  {
    assert PageOk(t, p);
    DropFromLeaf(t.nodes[p], t.info[p], t.content, i);
    RefillKeepsStruct(t, p, RemoveAt(t.nodes[p].keys, i), RemoveAt(t.nodes[p].vals, i), t.content - {k});
  }

  // ---------------------------------------------------------------- roots

  /** A page r with the old root as its only child becomes the root. */
  ghost function AddRoot(t: Tree, r: PageId, key: Key): Tree
    requires t.root in t.nodes && t.root in t.info
  {
    t.(nodes := t.nodes[t.root := SetParent(t.nodes[t.root], r)][r := Internal(INVALID_PAGE_ID, [key], [t.root])],
       info := t.info[r := Info(t.info[t.root].level + 1, Unbounded, Unbounded)],
       root := r)
  }

  lemma AddRootKeepsStruct(t: Tree, r: PageId, key: Key)
    requires Struct(t) && r !in t.info && r > HEADER_PAGE_ID
    ensures t.root in t.nodes && Struct(AddRoot(t, r, key))
  {
    assert PageOk(t, t.root);
    var u := AddRoot(t, r, key);
    forall y | y in u.info ensures PageOk(u, y) {
      if y == r {
        assert KidOk(u, r, 0);
      } else {
        assert PageOk(t, y);
        if y == t.root {
          assert u.nodes[r].kids[0] == y;
        } else {
          var _ := ParentSlot(t, y);
        }
        if t.nodes[y].Internal? {
          forall j | 0 <= j < |t.nodes[y].kids| ensures KidOk(u, y, j) {
            assert KidOk(t, y, j);
          }
        }
        Frame(t, u, y);
      }
    }
  }

  /** A root with a single child gives way to it. */
  ghost function DropRoot(t: Tree): Tree
    requires t.root in t.nodes && IsKid(t, t.root, 0)
  {
    var c := t.nodes[t.root].kids[0];
    t.(nodes := (t.nodes - {t.root})[c := SetParent(t.nodes[c], INVALID_PAGE_ID)], info := t.info - {t.root}, root := c)
  }

  lemma DropRootKeepsStruct(t: Tree)
    requires Struct(t) && t.root in t.nodes && t.nodes[t.root].Internal? && |t.nodes[t.root].kids| == 1
    ensures IsKid(t, t.root, 0) && Struct(DropRoot(t))
  {
    assert PageOk(t, t.root) && KidOk(t, t.root, 0);
    var u := DropRoot(t);
    var c := u.root;
    assert PageOk(t, c);
    forall y | y in u.info ensures PageOk(u, y) {
      assert PageOk(t, y);
      DropRootPage(t, y);
    }
  }

  lemma DropRootPage(t: Tree, y: PageId)
    requires Struct(t) && t.root in t.nodes && t.nodes[t.root].Internal? && |t.nodes[t.root].kids| == 1
    requires KidOk(t, t.root, 0)
    requires y in t.info && y != t.root
    ensures PageOk(DropRoot(t), y)
  {
    var u := DropRoot(t);
    var c := u.root;
    assert PageOk(t, c) && PageOk(t, y) && PageOk(t, t.root);
    var m := ParentSlot(t, y);
    if y != c {
      assert t.nodes[y].parent != t.root;
      if t.nodes[y].parent != c {
        var _ := ParentSlot(t, t.nodes[y].parent);
      }
      DropRootLevel(t, y);
    }
    if t.nodes[y].Internal? {
      forall j | 0 <= j < |t.nodes[y].kids| ensures KidOk(u, y, j) {
        assert KidOk(t, y, j);
      }
    }
    Frame(t, u, y);
  }

  lemma DropRootLevel(t: Tree, y: PageId)
    requires Struct(t) && y in t.info && y != t.root
    ensures t.info[y].level < t.info[t.root].level
  {
    var _ := ParentSlot(t, y);
  }
}
