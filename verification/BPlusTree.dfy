/** The B+ tree of one index over its page store. */
module BPlusTree {
  import opened TreeModel
  import opened TreeSplit
  import opened TreeMerge
  import opened TreeBorrow
  import opened TreeEdge
  import opened TreeSizes
  import opened TreePages
  import opened TreePool
  import opened TreeScan
  import opened TreeInsert
  import opened TreeRemove

  lemma ReparentStep(nodes: map<PageId, Node>, kids: seq<PageId>, i: int, parent: PageId)
    requires 0 <= i < |kids| && kids[i] in nodes
    ensures var m := Reparent(nodes, kids[..i], parent);
      kids[i] in m && Reparent(nodes, kids[..i + 1], parent) == m[kids[i] := SetParent(m[kids[i]], parent)]
  {
    var m := Reparent(nodes, kids[..i], parent);
    assert kids[..i + 1] == kids[..i] + [kids[i]];
    assert forall y :: y in kids[..i + 1] <==> y in kids[..i] || y == kids[i];
  }

  lemma ReparentNone(nodes: map<PageId, Node>, parent: PageId)
    ensures Reparent(nodes, [], parent) == nodes
  {
  }

  /** The books of a tree before it has done anything. */
  ghost function AtFirst(frames: nat): Books {
    Books(Fresh(frames), {HEADER_PAGE_ID}, HEADER_PAGE_ID + 1)
  }

  /** The local facts of one live page. */
  lemma PageShape(t: TreeModel.Tree, p: PageId)
    requires Struct(t) && p in t.info
    ensures p in t.nodes && p > HEADER_PAGE_ID && NodeShape(t.nodes[p], t.info[p])
    ensures p == t.root ==> t.info[p].lo == t.info[p].hi == Unbounded && t.nodes[p].parent == INVALID_PAGE_ID
    ensures p != t.root ==> t.nodes[p].parent in t.info && t.nodes[p].parent in t.nodes
  {
    assert PageOk(t, p);
  }

  lemma KidsStored(t: TreeModel.Tree, p: PageId)
    requires Struct(t) && p in t.info && p in t.nodes && t.nodes[p].Internal?
    ensures forall j :: 0 <= j < |t.nodes[p].kids| ==> t.nodes[p].kids[j] in t.nodes
    ensures |t.nodes[p].kids| == |t.nodes[p].keys|
  {
    assert PageOk(t, p);
    forall j | 0 <= j < |t.nodes[p].kids| ensures t.nodes[p].kids[j] in t.nodes {
      assert KidOk(t, p, j);
    }
  }

  /** The child a search goes to is responsible for the key. */
  lemma Descend(t: TreeModel.Tree, p: PageId, key: Key, i: int)
    requires Struct(t) && p in t.info && p in t.nodes && t.nodes[p].Internal?
    requires InRange(key, t.info[p].lo, t.info[p].hi) && IsSlot(t.nodes[p].keys, key, i)
    ensures |t.nodes[p].kids| == |t.nodes[p].keys|
    ensures var c := t.nodes[p].kids[i];
      c in t.info && c in t.nodes && c > HEADER_PAGE_ID && t.info[c].level < t.info[p].level &&
      InRange(key, t.info[c].lo, t.info[c].hi)
  {
    assert PageOk(t, p);
    assert KidOk(t, p, i);
    assert PageOk(t, t.nodes[p].kids[i]);
  }

  class Tree {
    const caps: Caps
    const frames: nat
    var nodes: map<PageId, Node>
    var root: PageId
    var rootRecord: PageId
    var nextId: PageId
    var pool: Pool
    /** All that was asked of the buffer pool so far. */
    var log: seq<Traffic>
    ghost var trail: seq<Books>
    ghost var info: map<PageId, Info>
    ghost var content: map<Key, Value>

    ghost function T(): TreeModel.Tree
      reads this
    {
      TreeModel.Tree(nodes, info, root, content)
    }

    /** All traffic so far was allowed, and has led to the pins there are now and to the pages there are
        now: the header and those of the tree. */
    ghost predicate Logged()
      reads `nodes, `nextId, `pool, `log, `trail
    {
      && (forall p :: p in nodes ==> HEADER_PAGE_ID < p < nextId) && nextId > HEADER_PAGE_ID
      && Course(log, trail) && trail[|log|] == Now() && trail[0] == AtFirst(frames) && pool.frames == frames
    }

    ghost function Now(): Books
      reads `nodes, `nextId, `pool
    {
      Books(pool, nodes.Keys + {HEADER_PAGE_ID}, nextId)
    }

    ghost predicate Store()
      reads this
    {
      CapsOk(caps) && pool.frames >= FRAMES_NEEDED && Logged()
    }

    ghost predicate Valid()
      reads this
    {
      && Store() && pool == Resting(pool.frames) && rootRecord == root
      && if root == INVALID_PAGE_ID then info == map[] && content == map[] else Struct(T()) && Sizes(T(), caps)
    }

    /** An empty tree in a new index, whose header page is there already. */
    constructor (leafMax: int, internalMax: int, frames: nat)
      requires leafMax >= 2 && internalMax >= 4 && frames >= FRAMES_NEEDED
      ensures Valid() && content == map[] && caps == Caps(leafMax, internalMax) && this.frames == frames
    {
      caps, this.frames, pool := Caps(leafMax, internalMax), frames, Fresh(frames);
      nodes, root, rootRecord, nextId := map[], INVALID_PAGE_ID, INVALID_PAGE_ID, HEADER_PAGE_ID + 1;
      info, content, log, trail := map[], map[], [], [AtFirst(frames)];
      new;
      SearchRecord();
    }

    /** A new index has no root on record; its header page goes back as dirty. */
    method SearchRecord()
      requires Logged() && pool == Fresh(pool.frames) && pool.frames >= FRAMES_NEEDED
      modifies `pool, `log, `trail
      ensures Logged() && pool == Resting(old(pool.frames)) && old(log) <= log
    {
      RoomForFirst(HEADER_PAGE_ID, pool.frames);
      Again(pool.pins, HEADER_PAGE_ID);
      FetchPage(HEADER_PAGE_ID);
      UnpinPage(HEADER_PAGE_ID, true);
    }

    // -------------------------------------------------------------- pages

    method Note(e: Traffic)
      requires Course(log, trail) && trail[|log|] == Now() && Allowed(Now(), e)
      modifies `log, `trail
      ensures Course(log, trail) && trail[|log|] == After(Now(), e) && trail[0] == old(trail[0])
      ensures old(log) <= log
    {
      CourseOn(log, trail, e);
      trail := trail + [After(Now(), e)];
      log := log + [e];
    }

    method FetchPage(p: PageId)
      requires Logged() && (p in nodes || p == HEADER_PAGE_ID) && Room(pool.pins, p, pool.frames)
      modifies `pool, `log, `trail
      ensures Logged() && pool == old(pool).Pin(p) && old(log) <= log
    {
      Note(Traffic.Fetch(p));
      pool := pool.Pin(p);
    }

    /** The contents of a pinned page. */
    function Page(p: PageId): Node
      requires p in pool.pins && p in nodes
      reads this
    {
      nodes[p]
    }

    method WritePage(p: PageId, n: Node)
      requires Logged() && p in pool.pins && p in nodes
      modifies `nodes, `pool, `log, `trail
      ensures Logged() && nodes == old(nodes)[p := n] && pool == old(pool).Wrote(p) && old(log) <= log
    {
      Note(Traffic.Write(p));
      nodes, pool := nodes[p := n], pool.Wrote(p);
      assert nodes.Keys == old(nodes.Keys);
    }

    method UnpinPage(p: PageId, dirty: bool)
      requires Logged() && p in pool.pins && (p in pool.unsaved ==> dirty)
      modifies `pool, `log, `trail
      ensures Logged() && pool == old(pool).Unpin(p, dirty) && old(log) <= log
    {
      Note(Traffic.Unpin(p, dirty));
      pool := pool.Unpin(p, dirty);
    }

    /** A new page, pinned and made up. */
    method NewNode(n: Node) returns (p: PageId)
      requires Logged() && Room(pool.pins, nextId, pool.frames)
      modifies `nodes, `nextId, `pool, `log, `trail
      ensures Logged() && p == old(nextId) && p !in old(nodes) && nextId == p + 1 && nodes == old(nodes)[p := n]
      ensures pool == old(pool).Pin(p).Wrote(p) && old(log) <= log
    {
      Note(Traffic.New);
      p := nextId;
      nextId, pool, nodes := nextId + 1, pool.Pin(p), nodes[p := n];
      assert Now().known == old(Now()).known + {p};
      WritePage(p, n);
      assert nodes == old(nodes)[p := n];
    }

    method DeletePage(p: PageId)
      requires Logged() && p > HEADER_PAGE_ID && p !in pool.pins
      modifies `nodes, `log, `trail
      ensures Logged() && nodes == old(nodes) - {p} && old(log) <= log
    {
      Note(Traffic.Delete(p));
      nodes := nodes - {p};
      assert Now().known == old(Now()).known - {p};
    }

    /** A page becomes the root, and the header page gets its id. */
    method SetRoot(r: PageId)
      requires Logged() && Room(pool.pins, HEADER_PAGE_ID, pool.frames) && HEADER_PAGE_ID !in pool.unsaved
      modifies `root, `rootRecord, `pool, `log, `trail
      ensures Logged() && rootRecord == root == r && pool == old(pool) && old(log) <= log
    {
      root := r;
      FetchPage(HEADER_PAGE_ID);
      UpdateRecord();
      UnpinPage(HEADER_PAGE_ID, true);
      Again(old(pool.pins), HEADER_PAGE_ID);
    }

    method UpdateRecord()
      requires Logged() && HEADER_PAGE_ID in pool.pins
      modifies `rootRecord, `pool, `log, `trail
      ensures Logged() && rootRecord == root && pool == old(pool).Wrote(HEADER_PAGE_ID) && old(log) <= log
    {
      Note(Traffic.Write(HEADER_PAGE_ID));
      pool := pool.Wrote(HEADER_PAGE_ID);
      rootRecord := root;
    }

    // -------------------------------------------------------------- page traffic of the larger steps

    /** The same when no other page is held. */
    method SetRootAlone(r: PageId)
      requires Logged() && pool == Resting(pool.frames) && pool.frames >= FRAMES_NEEDED
      modifies `root, `rootRecord, `pool, `log, `trail
      ensures Logged() && rootRecord == root == r && pool == old(pool) && old(log) <= log
    {
      RoomForFirst(HEADER_PAGE_ID, pool.frames);
      SetRoot(r);
    }

    /** Pin one page. */
    method Take(p: PageId)
      requires Logged() && p in nodes && pool == Resting(pool.frames) && pool.frames >= FRAMES_NEEDED
      modifies `pool, `log, `trail
      ensures Logged() && pool == Pool(old(pool.frames), multiset{HEADER_PAGE_ID, p}, {}) && old(log) <= log
    {
      RoomForFirst(p, pool.frames);
      Add1(p);
      FetchPage(p);
    }

    /** The first page of a tree. */
    method MakeLeaf(n: Node) returns (p: PageId)
      requires Logged() && pool == Resting(pool.frames) && pool.frames >= FRAMES_NEEDED
      modifies `nodes, `nextId, `pool, `log, `trail
      ensures Logged() && p == old(nextId) && nodes == old(nodes)[p := n] && pool == old(pool) && old(log) <= log
    {
      RoomForFirst(nextId, pool.frames);
      Add1(nextId);
      p := NewNode(n);
      Release(p, true);
    }

    /** A page that goes for good. */
    method Discard(p: PageId)
      requires Logged() && pool == Pool(pool.frames, multiset{HEADER_PAGE_ID, p}, {p}) && p > HEADER_PAGE_ID
      modifies `nodes, `pool, `log, `trail
      ensures Logged() && nodes == old(nodes) - {p} && pool == Resting(old(pool.frames)) && old(log) <= log
    {
      Release(p, true);
      DeletePage(p);
    }

    /** A page loses its parent. */
    method Orphan(c: PageId)
      requires Logged() && c in nodes && pool == Resting(pool.frames) && pool.frames >= FRAMES_NEEDED
      modifies `nodes, `pool, `log, `trail
      ensures Logged() && nodes == old(nodes)[c := SetParent(old(nodes)[c], INVALID_PAGE_ID)]
      ensures pool == old(pool) && old(log) <= log
    {
      Take(c);
      WritePage(c, SetParent(Page(c), INVALID_PAGE_ID));
      Release(c, true);
    }

    /** A new page is pinned beside another. */
    method NewBeside(p: PageId, n: Node) returns (q: PageId)
      requires Logged() && pool.pins == multiset{HEADER_PAGE_ID, p} && pool.frames >= FRAMES_NEEDED
      modifies `nodes, `nextId, `pool, `log, `trail
      ensures Logged() && q == old(nextId) && q !in old(nodes) && nextId == q + 1 && nodes == old(nodes)[q := n]
      ensures pool == Pool(old(pool.frames), multiset{HEADER_PAGE_ID, p, q}, old(pool.unsaved) + {q})
      ensures old(log) <= log
    {
      RoomForSecond(p, nextId, pool.frames);
      Add2(p, nextId);
      q := NewNode(n);
    }

    /** Give back the one page held. */
    method Release(p: PageId, dirty: bool)
      requires Logged() && pool.pins == multiset{HEADER_PAGE_ID, p}
               && pool.unsaved <= {p} && (p in pool.unsaved ==> dirty)
      modifies `pool, `log, `trail
      ensures Logged() && pool == Resting(old(pool.frames)) && old(log) <= log
    {
      Sub1(p);
      UnpinPage(p, dirty);
    }

    /** From one leaf to the next: the first goes before the second comes. */
    method LeaveFor(p: PageId, next: PageId)
      requires Logged() && next in nodes && pool.frames >= FRAMES_NEEDED
               && pool == Pool(pool.frames, multiset{HEADER_PAGE_ID, p}, {})
      modifies `pool, `log, `trail
      ensures Logged() && pool == Pool(old(pool.frames), multiset{HEADER_PAGE_ID, next}, {}) && old(log) <= log
    {
      Release(p, false);
      Take(next);
    }

    /** From one page to the next: the second comes before the first goes. */
    method Advance(p: PageId, c: PageId)
      requires Logged() && c in nodes && pool.frames >= FRAMES_NEEDED
               && pool == Pool(pool.frames, multiset{HEADER_PAGE_ID, p}, {})
      modifies `pool, `log, `trail
      ensures Logged() && pool == Pool(old(pool.frames), multiset{HEADER_PAGE_ID, c}, {}) && old(log) <= log
    {
      RoomForSecond(p, c, pool.frames);
      Add2(p, c);
      Sub2(p, c);
      FetchPage(c);
      UnpinPage(p, false);
    }

    /** Pin the parent, then give back both halves of a split page. */
    method PassToParent(p: PageId, q: PageId, x: PageId)
      requires Logged() && x in nodes && pool.frames >= FRAMES_NEEDED
               && pool.pins == multiset{HEADER_PAGE_ID, p, q} && pool.unsaved <= {p, q}
      modifies `pool, `log, `trail
      ensures Logged() && pool == Pool(old(pool.frames), multiset{HEADER_PAGE_ID, x}, {}) && old(log) <= log
    {
      RoomForThird(p, q, x, pool.frames);
      Add3(p, q, x);
      FetchPage(x);
      Sub3(p, q, x);
      UnpinPage(p, true);
      Sub2(q, x);
      UnpinPage(q, true);
    }

    /** The same when the new root and both its children are held. */
    method SetRootAbove(r: PageId, p: PageId, q: PageId)
      requires Logged() && pool.frames >= FRAMES_NEEDED && r > HEADER_PAGE_ID && p > HEADER_PAGE_ID
               && q > HEADER_PAGE_ID && pool == Pool(pool.frames, multiset{HEADER_PAGE_ID, r, p, q}, {r, p, q})
      modifies `root, `rootRecord, `pool, `log, `trail
      ensures Logged() && rootRecord == root == r && pool == old(pool) && old(log) <= log
    {
      RoomForFourth(r, p, q, HEADER_PAGE_ID, pool.frames);
      SetRoot(r);
    }

    /** Give back a new root and both its children. */
    method ReleaseThree(r: PageId, p: PageId, q: PageId)
      requires Logged() && pool.pins == multiset{HEADER_PAGE_ID, r, p, q} && pool.unsaved <= {r, p, q}
      modifies `pool, `log, `trail
      ensures Logged() && pool == Resting(old(pool.frames)) && old(log) <= log
    {
      Sub3(r, p, q);
      UnpinPage(r, true);
      Sub2(p, q);
      UnpinPage(p, true);
      Release(q, true);
    }

    /** Pin the parent beside a page. */
    method PinParent(p: PageId, x: PageId)
      requires Logged() && x in nodes && pool.pins == multiset{HEADER_PAGE_ID, p} && pool.frames >= FRAMES_NEEDED
      modifies `pool, `log, `trail
      ensures Logged() && pool == old(pool).(pins := multiset{HEADER_PAGE_ID, p, x}) && old(log) <= log
    {
      RoomForSecond(p, x, pool.frames);
      Add2(p, x);
      FetchPage(x);
    }

    /** Pin a sibling beside a page and its parent. */
    method PinSibling(p: PageId, s: PageId, x: PageId)
      requires Logged() && s in nodes && pool.pins == multiset{HEADER_PAGE_ID, p, x} && pool.frames >= FRAMES_NEEDED
      modifies `pool, `log, `trail
      ensures Logged() && pool == old(pool).(pins := multiset{HEADER_PAGE_ID, p, s, x}) && old(log) <= log
    {
      RoomForThird(p, x, s, pool.frames);
      Add3(p, x, s);
      Turn3(x, p, s);
      Turn3(p, s, x);
      FetchPage(s);
    }

    /** Give back two siblings but not their parent. */
    method KeepParent(p: PageId, s: PageId, x: PageId)
      requires Logged() && pool.pins == multiset{HEADER_PAGE_ID, p, s, x} && pool.unsaved == {p, s, x}
               && x != p && x != s && p != s
      modifies `pool, `log, `trail
      ensures Logged() && pool == Pool(old(pool.frames), multiset{HEADER_PAGE_ID, x}, {x}) && old(log) <= log
    {
      UnpinSibling(p, s, x);
      Sub2(p, x);
      UnpinPage(p, true);
    }

    method UnpinSibling(p: PageId, s: PageId, x: PageId)
      requires Logged() && pool.pins == multiset{HEADER_PAGE_ID, p, s, x} && pool.unsaved == {p, s, x}
               && x != p && x != s && p != s
      modifies `pool, `log, `trail
      ensures Logged() && pool == Pool(old(pool.frames), multiset{HEADER_PAGE_ID, p, x}, {p, x}) && old(log) <= log
    {
      Mid3(p, s, x);
      UnpinPage(s, true);
    }

    /** Pin the parent a second time. */
    method PinParentAgain(p: PageId, s: PageId, x: PageId)
      requires Logged() && x in nodes && pool.pins == multiset{HEADER_PAGE_ID, p, s, x}
               && pool.frames >= FRAMES_NEEDED
      modifies `pool, `log, `trail
      ensures Logged() && pool == old(pool).(pins := multiset{HEADER_PAGE_ID, p, s, x, x}) && old(log) <= log
    {
      RoomForFourth(p, s, x, x, pool.frames);
      Add4(p, s, x);
      FetchPage(x);
    }

    /** Give back two siblings and both pins of their parent. */
    method ReleaseFamily(p: PageId, s: PageId, x: PageId)
      requires Logged() && pool.pins == multiset{HEADER_PAGE_ID, p, s, x, x} && pool.unsaved <= {p, s, x}
      modifies `pool, `log, `trail
      ensures Logged() && pool == Resting(old(pool.frames)) && old(log) <= log
    {
      Sub4(p, s, x);
      UnpinPage(p, true);
      Sub3(s, x, x);
      UnpinPage(s, true);
      Sub2(x, x);
      UnpinPage(x, true);
      Release(x, true);
    }

    /** Rewrite the parent id of each listed child, one pinned page at a time. */
    method SetParents(kids: seq<PageId>, parent: PageId)
      requires Logged() && forall j :: 0 <= j < |kids| ==> kids[j] in nodes
      requires forall j :: 0 <= j < |kids| ==> Room(pool.pins, kids[j], pool.frames)
      modifies `nodes, `pool, `log, `trail
      ensures Logged() && nodes == Reparent(old(nodes), kids, parent) && old(log) <= log
      ensures pool.frames == old(pool.frames) && pool.pins == old(pool.pins) && pool.unsaved <= old(pool.unsaved)
    {
      ReparentNone(nodes, parent);
      assert kids[..0] == [];
      for i := 0 to |kids|
        invariant Logged() && nodes == Reparent(old(nodes), kids[..i], parent) && old(log) <= log
        invariant pool.frames == old(pool.frames) && pool.pins == old(pool.pins) && pool.unsaved <= old(pool.unsaved)
      {
        ReparentStep(old(nodes), kids, i, parent);
        SetParentOf(kids[i], parent);
      }
      assert kids[..|kids|] == kids;
    }

    method SetParentOf(c: PageId, parent: PageId)
      requires Logged() && c in nodes && Room(pool.pins, c, pool.frames)
      modifies `nodes, `pool, `log, `trail
      ensures Logged() && nodes == old(nodes)[c := SetParent(old(nodes)[c], parent)] && old(log) <= log
      ensures pool.frames == old(pool.frames) && pool.pins == old(pool.pins) && pool.unsaved <= old(pool.unsaved)
    {
      FetchPage(c);
      WritePage(c, SetParent(Page(c), parent));
      UnpinPage(c, true);
    }

    // -------------------------------------------------------------- search

    /** Descend to the leaf responsible for `key`; it is left pinned. */
    method FindLeafPage(key: Key) returns (p: PageId)
      requires Valid() && root != INVALID_PAGE_ID
      modifies `pool, `log, `trail
      ensures Logged() && pool == Pool(old(pool.frames), multiset{HEADER_PAGE_ID, p}, {}) && old(log) <= log
      ensures AtLeaf(T(), p, key)
    {
      ghost var t := T();
      p := root;
      PageShape(t, p);
      Take(p);
      var n := Page(p);
      while n.Internal?
        invariant p in t.info && p in t.nodes && n == t.nodes[p]
        invariant InRange(key, t.info[p].lo, t.info[p].hi)
        invariant Logged() && pool == Pool(old(pool.frames), multiset{HEADER_PAGE_ID, p}, {}) && old(log) <= log
        decreases t.info[p].level
      {
        PageShape(t, p);
        var i := Lookup(n.keys, key);
        var c := n.kids[i];
        Descend(t, p, key, i);
        Advance(p, c);
        p, n := c, Page(c);
      }
      PageShape(t, p);
    }

    /** Point lookup. */
    method GetValue(key: Key) returns (found: bool, v: seq<Value>)
      requires Valid()
      modifies `pool, `log, `trail
      ensures Valid() && old(log) <= log
      ensures found <==> key in content
      ensures v == if key in content then [content[key]] else []
    {
      if root == INVALID_PAGE_ID {
        return false, [];
      }
      var p := FindLeafPage(key);
      assert PageOk(T(), p);
      var n := Page(p);
      var index := KeyIndex(n.keys, key);
      RankDecides(n.keys, key, if index == -1 then |n.keys| else index);
      if index == -1 || n.keys[index] != key {
        found, v := false, [];
      } else {
        found, v := true, [n.vals[index]];
      }
      Release(p, false);
    }

    /** All values of the keys from `key` on that a coarser comparator does not tell from it: the keys
        for which `same` holds. They end at some bound, as the comparator's classes are intervals. */
    method ScanKey(key: Key, same: Key -> bool, ghost until: Bound) returns (result: seq<Value>, ghost ks: seq<Key>)
      requires Valid() && ClassEndsAt(content, key, same, until)
      modifies `pool, `log, `trail
      ensures Valid() && old(log) <= log && ValuesOf(content, ks, result) && ClassListed(content, key, same, ks)
    {
      result, ks := [], [];
      if root == INVALID_PAGE_ID {
        return;
      }
      var p := FindLeafPage(key);
      ghost var t := T();
      PageShape(t, p);
      var n := Page(p);
      var index := KeyIndex(n.keys, key);
      Begin(t, p, index, key, until);
      result, ks := ScanLeaves(p, index, key, same, until);
    }

    /** Along the leaf chain from slot `index` of the pinned leaf p. */
    method ScanLeaves(p0: PageId, index0: int, key: Key, same: Key -> bool, ghost until: Bound)
      returns (result: seq<Value>, ghost ks: seq<Key>)
      requires Store() && rootRecord == root && root != INVALID_PAGE_ID && Struct(T()) && Sizes(T(), caps)
      requires pool == Pool(pool.frames, multiset{HEADER_PAGE_ID, p0}, {}) && ClassEndsAt(content, key, same, until)
      requires p0 in nodes && index0 < |nodes[p0].keys| && ScanAt(T(), p0, index0, key, until, [], [])
      modifies `pool, `log, `trail
      ensures Logged() && pool == Resting(old(pool.frames)) && old(log) <= log
      ensures ValuesOf(content, ks, result) && ClassListed(content, key, same, ks)
    {
      result, ks := [], [];
      ghost var t := T();
      var p, index := p0, index0;
      var n := Page(p);
      while true
        invariant n.Leaf? && nodes == t.nodes && p in nodes && n == nodes[p] && index < |n.keys|
        invariant Logged() && pool == Pool(old(pool.frames), multiset{HEADER_PAGE_ID, p}, {}) && old(log) <= log
        invariant ScanAt(t, p, index, key, until, ks, result)
        decreases Left(t, p, index), index == -1
      {
        if index != -1 {
          if !same(n.keys[index]) {
            StopsHere(t, p, index, key, same, until, ks, result);
            Release(p, false);
            return;
          }
          StopTest(t, p, index, key, same, until);
          Push(t, p, index, key, until, ks, result);
          result, ks := result + [n.vals[index]], ks + [n.keys[index]];
          index := index + 1;
        }
        if index == -1 || index == |n.keys| {
          var next := n.next;
          if next == INVALID_PAGE_ID {
            EndsHere(t, p, index, key, same, until, ks, result);
            Release(p, false);
            break;
          }
          Hop(t, p, index, key, until, ks, result, caps);
          index := 0;
          LeaveFor(p, next);
          p, n := next, Page(next);
        }
      }
    }

    // -------------------------------------------------------------- insertion

    /** Add or overwrite; true when the key was new. */
    method Insert(key: Key, value: Value) returns (isNew: bool)
      requires Valid()
      modifies this
      ensures Valid() && old(log) <= log && content == old(content)[key := value]
      ensures isNew <==> key !in old(content)
    {
      if root == INVALID_PAGE_ID {
        StartNewTree(key, value);
        return true;
      }
      isNew := InsertIntoLeaf(key, value);
    }

    method StartNewTree(key: Key, value: Value)
      requires Valid() && root == INVALID_PAGE_ID
      modifies this
      ensures Valid() && old(log) <= log && content == map[key := value]
    {
      Plant(nodes, nextId, key, value, caps);
      var p := MakeLeaf(Leaf(INVALID_PAGE_ID, [key], [value], INVALID_PAGE_ID));
      SetRootAlone(p);
      info := map[p := Info(0, Unbounded, Unbounded)];
      content := map[key := value];
      assert T() == Planted(old(nodes), p, key, value);
    }

    method InsertIntoLeaf(key: Key, value: Value) returns (isNew: bool)
      requires Valid() && root != INVALID_PAGE_ID
      modifies this
      ensures Valid() && old(log) <= log && content == old(content)[key := value]
      ensures isNew <==> key !in old(content)
    {
      var p := FindLeafPage(key);
      isNew := LeafInsert(p, key, value);
      if !isNew || |Page(p).keys| < caps.leafMax {
        Release(p, true);
      } else {
        SplitOn(p);
      }
    }

    /** Overwrite or add an entry of a leaf, shifting the later ones up. */
    method LeafInsert(p: PageId, key: Key, value: Value) returns (isNew: bool)
      requires Store() && Struct(T()) && Sizes(T(), caps) && AtLeaf(T(), p, key)
      requires pool == Pool(pool.frames, multiset{HEADER_PAGE_ID, p}, {})
      modifies `nodes, `content, `pool, `log, `trail
      ensures Store() && old(log) <= log && pool == Pool(old(pool.frames), multiset{HEADER_PAGE_ID, p}, {p})
      ensures content == old(content)[key := value] && (isNew <==> key !in old(content))
      ensures Struct(T()) && SizesExcept(T(), p, caps) && p in nodes && nodes[p].Leaf?
      ensures !isNew || |nodes[p].keys| < caps.leafMax ==> Sizes(T(), caps)
      ensures isNew && |nodes[p].keys| >= caps.leafMax ==> Overfull(T(), p, caps)
    {
      ghost var t := T();
      PageShape(t, p);
      var n := Page(p);
      var index := KeyIndex(n.keys, key);
      RankDecides(n.keys, key, if index == -1 then |n.keys| else index);
      var keys, vals := n.keys, n.vals;
      if index != -1 && n.keys[index] == key {
        vals := vals[index := value];
        isNew := false;
        PutEntry(t, p, key, value, index);
      } else {
        index := if index == -1 then |n.keys| else index;
        keys, vals := InsertAt(keys, index, key), InsertAt(vals, index, value);
        isNew := true;
        AddEntry(t, p, key, value, index);
      }
      RefillSizes(t, p, keys, vals, t.content[key := value], caps);
      assert SizeOk(t, p, caps);
      WritePage(p, n.(keys := keys, vals := vals));
      content := content[key := value];
      assert T() == Refill(t, p, keys, vals, t.content[key := value]);
      if |keys| < caps.leafMax {
        assert SizeOk(T(), p, caps);
      }
    }

    /** Page p of tree t has just handed its upper half to page q, and no parent knows yet. */
    ghost predicate Splitting(p: PageId, q: PageId, t: TreeModel.Tree)
      reads this
    {
      && Store() && Overfull(t, p, caps)
      && q !in t.info && q !in t.nodes && q > HEADER_PAGE_ID
      && var cut := MinSize(t.nodes[p], caps);
      && CanCut(t.nodes[p], cut) && nodes == SplitStore(t.nodes, p, q, cut)
      && root == t.root && content == t.content
      && pool.pins == multiset{HEADER_PAGE_ID, p, q} && pool.unsaved <= {p, q}
    }

    /** Move the upper half of a full page to a new one, which is left pinned beside it. */
    method SplitPage(p: PageId) returns (q: PageId)
      requires Store() && Overfull(T(), p, caps)
      requires pool.pins == multiset{HEADER_PAGE_ID, p} && pool.unsaved <= {p}
      modifies `nodes, `nextId, `pool, `log, `trail
      ensures Splitting(p, q, old(T())) && nodes[q].keys[0] == old(nodes)[p].keys[MinSize(old(nodes)[p], caps)]
      ensures pool.frames == old(pool.frames) && old(log) <= log
      ensures Halves(nodes, p, q, |old(nodes)[p].keys|)
    {
      LiveIsStored(T(), nextId);
      OverfullCuts(T(), p, caps);
      q := Divide(p, MinSize(Page(p), caps));
    }

    /** The pages of a split are written. */
    method Divide(p: PageId, cut: int) returns (q: PageId)
      requires Logged() && p in nodes && CanCut(nodes[p], cut) && pool.frames >= FRAMES_NEEDED
      requires nodes[p].Internal? ==> forall j :: 0 <= j < |nodes[p].kids| ==> nodes[p].kids[j] in nodes
      requires pool.pins == multiset{HEADER_PAGE_ID, p} && pool.unsaved <= {p}
      modifies `nodes, `nextId, `pool, `log, `trail
      ensures Logged() && q == old(nextId) && nodes == SplitStore(old(nodes), p, q, cut) && old(log) <= log
      ensures pool.pins == multiset{HEADER_PAGE_ID, p, q} && pool.unsaved <= {p, q}
      ensures pool.frames == old(pool.frames) && q in nodes && nodes[q].keys[0] == old(nodes)[p].keys[cut]
    {
      var n := Page(p);
      q := NewBeside(p, Upper(n, cut));
      SplitSteps(old(nodes), p, q, cut);
      if n.Internal? {
        AdoptKids(n.kids[cut..], p, q);
      }
      WritePage(p, Lower(n, cut, q));
    }

    /** The children that moved to page q learn of it. */
    method AdoptKids(kids: seq<PageId>, ghost p: PageId, q: PageId)
      requires Logged() && (forall j :: 0 <= j < |kids| ==> kids[j] in nodes) && pool.frames >= FRAMES_NEEDED
      requires pool.pins == multiset{HEADER_PAGE_ID, p, q}
      modifies `nodes, `pool, `log, `trail
      ensures Logged() && nodes == Reparent(old(nodes), kids, q) && old(log) <= log
      ensures pool.frames == old(pool.frames) && pool.pins == old(pool.pins) && pool.unsaved <= old(pool.unsaved)
    {
      forall j | 0 <= j < |kids| ensures Room(pool.pins, kids[j], pool.frames) {
        RoomForThird(p, q, kids[j], pool.frames);
      }
      SetParents(kids, q);
    }

    /** A full page is split, and its parent told. */
    method SplitOn(p: PageId)
      requires Store() && Overfull(T(), p, caps) && rootRecord == root
      requires pool.pins == multiset{HEADER_PAGE_ID, p} && pool.unsaved <= {p}
      modifies this
      ensures Valid() && old(log) <= log && content == old(content)
      decreases info[root].level - info[p].level, 2
    {
      ghost var t := T();
      var q := SplitPage(p);
      InsertIntoParent(p, Page(q).keys[0], q, t);
    }

    /** Page p was split into p and q; tell the parent, and split that in turn when it is full.
        `t` is the tree before the split. */
    method InsertIntoParent(p: PageId, key: Key, q: PageId, ghost t: TreeModel.Tree)
      requires Splitting(p, q, t) && key == t.nodes[p].keys[MinSize(t.nodes[p], caps)] && rootRecord == root
      modifies this
      ensures Valid() && old(log) <= log && content == old(content)
      decreases t.info[t.root].level - t.info[p].level, 1
    {
      OverfullCuts(t, p, caps);
      PageShape(t, t.root);
      if Page(p).parent == INVALID_PAGE_ID {
        NewRoot(p, key, q, t);
      } else {
        ClimbOn(p, key, q, t);
      }
    }

    method ClimbOn(p: PageId, key: Key, q: PageId, ghost t: TreeModel.Tree)
      requires Splitting(p, q, t) && key == t.nodes[p].keys[MinSize(t.nodes[p], caps)] && rootRecord == root
      requires p != t.root && t.root != INVALID_PAGE_ID
      modifies this
      ensures Valid() && old(log) <= log && content == old(content)
      decreases t.info[t.root].level - t.info[p].level, 0
    {
      var x := LinkNewPage(p, key, q, t);
      if |Page(x).keys| == caps.internalMax {
        SplitOn(x);
      } else {
        Release(x, true);
      }
    }

    /** The split page was the root: both halves get a new root above them. */
    method NewRoot(p: PageId, key: Key, q: PageId, ghost t: TreeModel.Tree)
      requires Splitting(p, q, t) && key == t.nodes[p].keys[MinSize(t.nodes[p], caps)] && p == t.root
      modifies this
      ensures Valid() && old(log) <= log && content == old(content)
    {
      LiveIsStored(t, nextId);
      SplitStoreKeys(t.nodes, p, q, MinSize(t.nodes[p], caps));
      ghost var u := GrowRoot(t, nextId, q, caps);
      var r := RootAbove(p, key, q);
      info := u.info;
      assert T() == u;
    }

    /** Two pages get a root above them and are given back. */
    method RootAbove(p: PageId, key: Key, q: PageId) returns (r: PageId)
      requires Logged() && p in nodes && q in nodes && p != q && pool.frames >= FRAMES_NEEDED
               && pool.pins == multiset{HEADER_PAGE_ID, p, q} && pool.unsaved <= {p, q}
      modifies `nodes, `nextId, `root, `rootRecord, `pool, `log, `trail
      ensures Logged() && r == old(nextId) == root == rootRecord && nodes == Rooted(old(nodes), r, p, key, q)
      ensures pool == Resting(old(pool.frames)) && old(log) <= log
    {
      r := MakeRoot(p, key, q);
      SetRootAbove(r, p, q);
      ReleaseThree(r, p, q);
    }

    /** A page that will be the root is put above two others; all three stay pinned. */
    method MakeRoot(p: PageId, key: Key, q: PageId) returns (r: PageId)
      requires Logged() && p in nodes && q in nodes && p != q && pool.frames >= FRAMES_NEEDED
               && pool.pins == multiset{HEADER_PAGE_ID, p, q} && pool.unsaved <= {p, q}
      modifies `nodes, `nextId, `pool, `log, `trail
      ensures Logged() && r == old(nextId) && nodes == Rooted(old(nodes), r, p, key, q) && old(log) <= log
      ensures pool == Pool(old(pool.frames), multiset{HEADER_PAGE_ID, r, p, q}, {r, p, q})
    {
      RoomForThird(p, q, nextId, pool.frames);
      Add3(p, q, nextId);
      Turn3(p, q, nextId);
      r := NewNode(Internal(INVALID_PAGE_ID, [0, key], [p, q]));
      AdoptTwo(r, p, q);
    }

    method AdoptTwo(r: PageId, p: PageId, q: PageId)
      requires Logged() && p in nodes && q in nodes && p != q && p in pool.pins && q in pool.pins
      modifies `nodes, `pool, `log, `trail
      ensures Logged() && old(log) <= log
      ensures nodes == old(nodes)[p := SetParent(old(nodes)[p], r)][q := SetParent(old(nodes)[q], r)]
      ensures pool == old(pool).(unsaved := old(pool.unsaved) + {p, q})
    {
      WritePage(p, SetParent(Page(p), r));
      WritePage(q, SetParent(Page(q), r));
    }

    /** Link page q in after page p in their parent, which is left pinned. */
    method LinkNewPage(p: PageId, key: Key, q: PageId, ghost t: TreeModel.Tree) returns (x: PageId)
      requires Splitting(p, q, t) && key == t.nodes[p].keys[MinSize(t.nodes[p], caps)] && p != t.root
      modifies `nodes, `pool, `log, `trail, `info
      ensures Store() && old(log) <= log && pool == Pool(old(pool.frames), multiset{HEADER_PAGE_ID, x}, {x})
      ensures x in nodes && nodes[x].Internal? && x in info && Struct(T())
      ensures if |nodes[x].keys| == caps.internalMax then Overfull(T(), x, caps) else Sizes(T(), caps)
      ensures info[x].level == t.info[p].level + 1 <= t.info[t.root].level == info[root].level
    {
      ParentUntouched(t, p, q, MinSize(t.nodes[p], caps));
      x := Page(p).parent;
      PassToParent(p, q, x);
      var xn := Page(x);
      var i := ValueIndex(xn.kids, p);
      ghost var u := LinkInParent(t, p, i, q, caps);
      WritePage(x, Linked(xn, i, key, q));
      info := u.info;
      assert T() == u;
    }

    // -------------------------------------------------------------- removal

    /** Remove a key; true when it was present. */
    method Remove(key: Key) returns (removed: bool)
      requires Valid()
      modifies this
      ensures Valid() && old(log) <= log && content == old(content) - {key}
      ensures removed <==> key in old(content)
    {
      if root == INVALID_PAGE_ID {
        return false;
      }
      var p := FindLeafPage(key);
      removed := LeafRemove(p, key);
      if removed {
        CoalesceOrRedistribute(p);
      } else {
        Release(p, false);
      }
    }

    /** Take an entry out of a leaf, shifting the later ones down. */
    method LeafRemove(p: PageId, key: Key) returns (removed: bool)
      requires Store() && Struct(T()) && Sizes(T(), caps) && AtLeaf(T(), p, key)
      requires pool == Pool(pool.frames, multiset{HEADER_PAGE_ID, p}, {})
      modifies `nodes, `content, `pool, `log, `trail
      ensures Store() && old(log) <= log && content == old(content) - {key} && (removed <==> key in old(content))
      ensures !removed ==> T() == old(T()) && pool == old(pool)
      ensures removed ==> Underfull(T(), p, caps) && pool == Pool(old(pool.frames), multiset{HEADER_PAGE_ID, p}, {p})
    {
      ghost var t := T();
      assert PageOk(t, p);
      var n := Page(p);
      var index := KeyIndex(n.keys, key);
      RankDecides(n.keys, key, if index == -1 then |n.keys| else index);
      if index == -1 || n.keys[index] != key {
        assert content - {key} == content;
        return false;
      }
      DropEntry(t, p, key, index);
      var keys, vals := RemoveAt(n.keys, index), RemoveAt(n.vals, index);
      RefillSizes(t, p, keys, vals, t.content - {key}, caps);
      assert SizeOk(t, p, caps);
      WritePage(p, n.(keys := keys, vals := vals));
      content := content - {key};
      assert T() == Refill(t, p, keys, vals, t.content - {key});
      removed := true;
    }

    /** Page p may have become one slot short: fill it up, or merge it and look at its parent. */
    method CoalesceOrRedistribute(p: PageId)
      requires Store() && Underfull(T(), p, caps) && rootRecord == root
      requires pool == Pool(pool.frames, multiset{HEADER_PAGE_ID, p}, {p})
      modifies this
      ensures Valid() && old(log) <= log && content == old(content)
      decreases info[root].level - info[p].level, 1
    {
      ghost var t := T();
      PageShape(t, root);
      PageShape(t, p);
      var n := Page(p);
      if |n.keys| >= MinSize(n, caps) {
        EnoughLeft(t, p, caps);
        Release(p, true);
        return;
      }
      if n.parent == INVALID_PAGE_ID {
        AdjustRoot(p);
        return;
      }
      var x, s, i := PinFamily(p);
      MergeOrBorrow(p, s, x, i);
    }

    method MergeOrBorrow(p: PageId, s: PageId, x: PageId, i: int)
      requires Family(p, s, x, i) && rootRecord == root
      modifies this
      ensures Valid() && old(log) <= log && content == old(content)
      decreases info[root].level - info[p].level, 0
    {
      PageShape(T(), root);
      if |Page(s).keys| + |Page(p).keys| < MaxSize(Page(p), caps) {
        Coalesce(p, s, x, i);
        CoalesceOrRedistribute(x);
      } else {
        Redistribute(p, s, x, i);
      }
    }

    /** Pin the parent of a page, find the page there, and pin a sibling of it. */
    method PinFamily(p: PageId) returns (x: PageId, s: PageId, i: int)
      requires Store() && Underfull(T(), p, caps) && p != root && |nodes[p].keys| < MinSize(nodes[p], caps)
      requires pool == Pool(pool.frames, multiset{HEADER_PAGE_ID, p}, {p})
      modifies `pool, `log, `trail
      ensures Family(p, s, x, i) && pool.frames == old(pool.frames) && old(log) <= log
    {
      ghost var t := T();
      PageShape(t, p);
      assert PageOk(t, p);
      x := Page(p).parent;
      PinParent(p, x);
      var xn := Page(x);
      i := ValueIndex(xn.kids, p);
      Siblings(t, p, i, caps);
      s := xn.kids[if i == 0 then 1 else i - 1];
      PinSibling(p, s, x);
    }

    /** The slot of the separator between a child and the sibling chosen for it. */
    static function Separator(i: int): int {
      if i == 0 then 1 else i
    }

    /** Page p, its sibling s and their parent x are pinned; p is child i of x. */
    ghost predicate Family(p: PageId, s: PageId, x: PageId, i: int)
      reads this
    {
      && Store() && Underfull(T(), p, caps) && p != root && i >= 0
      && |nodes[p].keys| < MinSize(nodes[p], caps)
      && Site(T(), x, Separator(i)) && root != nodes[x].kids[Separator(i)] && SizeOk(T(), x, caps)
      && p == nodes[x].kids[i] && s == nodes[x].kids[if i == 0 then 1 else i - 1]
      && pool == Pool(pool.frames, multiset{HEADER_PAGE_ID, p, s, x}, {p})
    }

    /** Empty the right one of two siblings into the left one and drop it from their parent. */
    method Coalesce(p: PageId, s: PageId, x: PageId, i: int)
      requires Family(p, s, x, i) && |nodes[s].keys| + |nodes[p].keys| < MaxSize(nodes[p], caps)
      modifies `nodes, `pool, `log, `trail, `info
      ensures Store() && Underfull(T(), x, caps) && old(log) <= log
      ensures pool == Pool(old(pool.frames), multiset{HEADER_PAGE_ID, x}, {x})
      ensures info[x].level == old(info[p].level) + 1 <= old(info[root].level) == info[root].level
    {
      ghost var t := T();
      ghost var u := MergeStep(t, p, x, Separator(i), caps);
      Fuse(p, s, x, Separator(i));
      info := u.info;
      assert T() == u;
    }

    /** The page traffic of a merge. */
    method Fuse(p: PageId, s: PageId, x: PageId, a: int)
      requires Logged() && Struct(T()) && Site(T(), x, a)
      requires {nodes[x].kids[a - 1], nodes[x].kids[a]} == {p, s} && pool.frames >= FRAMES_NEEDED
      requires pool == Pool(pool.frames, multiset{HEADER_PAGE_ID, p, s, x}, {p}) && x != p && x != s && p != s
      modifies `nodes, `pool, `log, `trail
      ensures Logged() && nodes == MergeStore(old(nodes), x, a) && old(log) <= log
      ensures pool == Pool(old(pool.frames), multiset{HEADER_PAGE_ID, x}, {x})
    {
      Join(p, s, x, a);
      KeepParent(p, s, x);
    }

    /** The pages of a merge are written. */
    method Join(p: PageId, s: PageId, x: PageId, a: int)
      requires Logged() && Struct(T()) && Site(T(), x, a)
      requires {nodes[x].kids[a - 1], nodes[x].kids[a]} == {p, s} && pool.frames >= FRAMES_NEEDED
      requires pool.pins == multiset{HEADER_PAGE_ID, p, s, x} && pool.unsaved <= {p, s, x}
      modifies `nodes, `pool, `log, `trail
      ensures Logged() && nodes == MergeStore(old(nodes), x, a) && old(log) <= log
      ensures pool == old(pool).(unsaved := {p, s, x})
    {
      var xn := Page(x);
      var l, r := xn.kids[a - 1], xn.kids[a];
      assert l in {p, s} && r in {p, s};
      var ln, rn := Page(l), Page(r);
      if rn.Internal? {
        KidsStored(T(), r);
        forall j | 0 <= j < |rn.kids| ensures Room(pool.pins, rn.kids[j], pool.frames) {
          RoomForFourth(p, s, x, rn.kids[j], pool.frames);
        }
        SetParents(rn.kids, l);
      }
      WriteThree(l, Joined(ln, xn.keys[a], rn), r, Emptied(rn),
                 x, Internal(xn.parent, RemoveAt(xn.keys, a), RemoveAt(xn.kids, a)));
      assert {l, r, x} == {p, s, x};
    }

    method WriteThree(l: PageId, ln: Node, r: PageId, rn: Node, x: PageId, xn: Node)
      requires Logged() && l in nodes && r in nodes && x in nodes
      requires l in pool.pins && r in pool.pins && x in pool.pins && pool.unsaved <= {l, r, x}
      modifies `nodes, `pool, `log, `trail
      ensures Logged() && nodes == old(nodes)[l := ln][r := rn][x := xn] && old(log) <= log
      ensures pool == old(pool).(unsaved := {l, r, x})
    {
      WritePage(l, ln);
      WritePage(r, rn);
      WritePage(x, xn);
    }

    /** When a slot of an internal page changes sides, so does the parent id of its child. */
    method MigrateChild(p: PageId, s: PageId, x: PageId, l: PageId, r: PageId, fromRight: bool)
      requires l in nodes && r in nodes && CanBorrow(nodes[l], nodes[r], fromRight)
      requires Logged() && Struct(T()) && l in info && r in info && pool.frames >= FRAMES_NEEDED
      requires pool.pins == multiset{HEADER_PAGE_ID, p, s, x, x} && l in pool.pins && r in pool.pins
      modifies `nodes, `pool, `log, `trail
      ensures Logged() && nodes == Migrated(old(nodes), old(nodes)[l], l, old(nodes)[r], r, fromRight)
      ensures pool.frames == old(pool.frames) && pool.pins == old(pool.pins) && pool.unsaved <= old(pool.unsaved)
      ensures old(log) <= log
    {
      if Page(l).Internal? {
        var c := if fromRight then Page(r).kids[0] else Page(l).kids[|Page(l).kids| - 1];
        KidsStored(T(), if fromRight then r else l);
        RoomForChild(p, s, x, c, pool.frames);
        SetParents([c], if fromRight then l else r);
      }
    }

    /** Move one slot from sibling s to page p and adjust the key that separates them. */
    method Redistribute(p: PageId, s: PageId, x: PageId, i: int)
      requires Family(p, s, x, i) && |nodes[s].keys| + |nodes[p].keys| >= MaxSize(nodes[p], caps)
      modifies `nodes, `pool, `log, `trail, `info
      ensures Store() && Struct(T()) && Sizes(T(), caps) && pool == Resting(old(pool.frames)) && old(log) <= log
    {
      ghost var u := ShiftStep(T(), p, x, Separator(i), i == 0, caps);
      Share(p, s, x, Separator(i), i == 0);
      info := u.info;
      assert T() == u;
    }

    /** The page traffic of a borrow. */
    method Share(p: PageId, s: PageId, x: PageId, a: int, fromRight: bool)
      requires Logged() && Struct(T()) && Site(T(), x, a) && CanShift(T(), x, a, fromRight)
      requires {nodes[x].kids[a - 1], nodes[x].kids[a]} == {p, s} && pool.frames >= FRAMES_NEEDED
      requires pool == Pool(pool.frames, multiset{HEADER_PAGE_ID, p, s, x}, {p})
      modifies `nodes, `pool, `log, `trail
      ensures Logged() && nodes == Shifted(old(T()), x, a, fromRight) && old(log) <= log
      ensures pool == Resting(old(pool.frames))
    {
      PinParentAgain(p, s, x);
      Borrow(p, s, x, a, fromRight);
      ReleaseFamily(p, s, x);
    }

    /** The pages of a borrow are written. */
    method Borrow(p: PageId, s: PageId, x: PageId, a: int, fromRight: bool)
      requires Logged() && Struct(T()) && Site(T(), x, a) && CanShift(T(), x, a, fromRight)
      requires {nodes[x].kids[a - 1], nodes[x].kids[a]} == {p, s} && pool.frames >= FRAMES_NEEDED
      requires pool.pins == multiset{HEADER_PAGE_ID, p, s, x, x} && pool.unsaved <= {p, s, x}
      modifies `nodes, `pool, `log, `trail
      ensures Logged() && nodes == Shifted(old(T()), x, a, fromRight) && old(log) <= log
      ensures pool == old(pool).(unsaved := {p, s, x})
    {
      var xn := Page(x);
      var l, r := xn.kids[a - 1], xn.kids[a];
      assert l in {p, s} && r in {p, s};
      var ln, rn := Page(l), Page(r);
      var b := Borrowed(ln, xn.keys[a], rn, fromRight);
      MigrateChild(p, s, x, l, r, fromRight);
      WriteThree(l, b.0, r, b.2, x, SetKeys(xn, xn.keys[a := b.1]));
      assert {l, r, x} == {p, s, x};
    }

    /** The root is one short: drop it when nothing or a single child is left. */
    method AdjustRoot(p: PageId)
      requires Store() && Underfull(T(), p, caps) && p == root == rootRecord
      requires pool == Pool(pool.frames, multiset{HEADER_PAGE_ID, p}, {p})
      modifies this
      ensures Valid() && old(log) <= log && content == old(content)
    {
      ghost var t := T();
      PageShape(t, p);
      var n := Page(p);
      if n.Internal? && |n.keys| == 1 {
        Promote(p, n.kids[0]);
      } else if n.Leaf? && |n.keys| == 0 {
        LastEntryGone(t);
        RemoveRoot(p);
      } else {
        EnoughLeft(t, p, caps);
        Release(p, true);
      }
    }

    /** The last entry went with the root. */
    method RemoveRoot(p: PageId)
      requires Store() && content == map[] && p > HEADER_PAGE_ID
      requires pool == Pool(pool.frames, multiset{HEADER_PAGE_ID, p}, {p})
      modifies this
      ensures Valid() && old(log) <= log && content == old(content)
    {
      Discard(p);
      SetRootAlone(INVALID_PAGE_ID);
      info := map[];
    }

    /** The only child of the root becomes the root. */
    method Promote(p: PageId, c: PageId)
      requires Store() && Underfull(T(), p, caps) && p == root
      requires nodes[p].Internal? && |nodes[p].keys| == 1 && nodes[p].kids == [c]
      requires pool == Pool(pool.frames, multiset{HEADER_PAGE_ID, p}, {p})
      modifies this
      ensures Valid() && old(log) <= log && content == old(content)
    {
      ghost var t := T();
      PageShape(t, p);
      ghost var u := RootStep(t, caps);
      Discard(p);
      Orphan(c);
      SetRootAlone(c);
      info := u.info;
      assert T() == u;
    }
  }
}
