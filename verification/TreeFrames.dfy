/** What the tree counts on when it pins a page, and that the buffer pool delivers it: as long as the
    pinned pages fit into the frames, fetching a page or making a new one cannot fail. So a pool of five
    frames serves all the page traffic of any tree. */
module TreeFrames {
  import TreeModel
  import TreePool
  import BPlusTree
  import TreeIndex
  import opened PoolModel
  import opened BufferPool

  ghost function PinsOf(s: Pool, id: PageId): nat {
    if Mapped(s, id) then s.frames[s.table[id]].pins else 0
  }

  /** A client's count of pins is right. */
  ghost predicate SamePins(tp: TreePool.Pool, s: Pool) {
    && tp.frames == |s.frames| && tp.unsaved == s.unsaved
    && forall id {:trigger tp.pins[id]} {:trigger PinsOf(s, id)} :: tp.pins[id] == PinsOf(s, id)
  }

  /** A client's books on the pool are right. */
  ghost predicate Agrees(b: TreePool.Books, s: Pool) {
    SamePins(b.pool, s) && b.known <= s.store.Keys && b.nextId == s.nextId
  }

  // ---------------------------------------------------------------- there is a frame

  ghost function PagesUpTo(s: Pool, n: nat): set<PageId>
    requires n <= |s.frames|
  {
    if n == 0 then {} else PagesUpTo(s, n - 1) + {s.frames[n - 1].pageId}
  }

  /** Pinned frames hold as many different pages as there are frames. */
  lemma {:induction false} CountPages(s: Pool, n: nat)
    requires Ok(s) && AllPinned(s) && n <= |s.frames|
    ensures |PagesUpTo(s, n)| == n
    ensures forall id :: id in PagesUpTo(s, n) ==> Mapped(s, id) && s.table[id] < n && PinsOf(s, id) > 0
  {
    if n > 0 {
      CountPages(s, n - 1);
      assert FrameOk(s, n - 1);
      assert s.frames[n - 1].pins > 0;
      assert s.frames[n - 1].pageId !in PagesUpTo(s, n - 1);
    }
  }

  lemma Larger(a: set<PageId>, b: set<PageId>)
    requires a <= b
    ensures |a| <= |b|
  {
    assert b == a + (b - a);
  }

  /** Room among the pinned pages means a frame in the pool. */
  lemma RoomMeansFrame(tp: TreePool.Pool, s: Pool, id: PageId)
    requires Ok(s) && SamePins(tp, s) && TreePool.Room(tp.pins, id, tp.frames)
    ensures id in s.table || !AllPinned(s)
  {
    if id !in s.table && AllPinned(s) {
      var n := |s.frames|;
      CountPages(s, n);
      var pages, all := PagesUpTo(s, n) + {id}, TreePool.Pinned(tp.pins) + {id};
      forall p | p in pages ensures p in all {
        assert p != id ==> tp.pins[p] == PinsOf(s, p);
      }
      Larger(pages, all);
    }
  }

  // ---------------------------------------------------------------- the books stay right

  lemma ClearedPins(s: Pool, id: PageId)
    requires Ok(s) && CanFind(s)
    ensures PinsOf(Cleared(s), id) == PinsOf(s, id) && |Cleared(s).frames| == |s.frames|
    ensures Mapped(Cleared(s), id) ==> Cleared(s).table[id] != FrameFor(s)
  {
    var f := FrameFor(s);
    assert f in s.free || f in s.queue;
    assert FrameOk(s, f);
    if id in s.table {
      MappedFrame(s, id);
    }
  }

  lemma FetchAgrees(tp: TreePool.Pool, s: Pool, u: Pool, id: PageId)
    requires Ok(s) && SamePins(tp, s) && TreePool.Room(tp.pins, id, tp.frames) && Fetched(s, u, id)
    ensures SamePins(tp.Pin(id), u)
  {
    var tq := tp.Pin(id);
    FetchedFrame(s, u, id);
    forall p ensures tq.pins[p] == PinsOf(u, p) {
      assert tp.pins[p] == PinsOf(s, p);
      FetchedPins(s, u, id, p);
    }
  }

  lemma FetchedFrame(s: Pool, u: Pool, id: PageId)
    requires Ok(s) && Fetched(s, u, id)
    ensures |u.frames| == |s.frames| && u.unsaved == s.unsaved && u.nextId == s.nextId
  {
    if id !in s.table {
      ClearedPins(s, id);
    }
  }

  lemma FetchedPins(s: Pool, u: Pool, id: PageId, p: PageId)
    requires Ok(s) && Fetched(s, u, id)
    ensures PinsOf(u, p) == PinsOf(s, p) + if p == id then 1 else 0
  {
    if id in s.table {
      MappedFrame(s, id);
      if p in s.table {
        MappedFrame(s, p);
      }
    } else {
      ClearedPins(s, p);
      ClearedPins(s, id);
    }
  }

  lemma NewAgrees(tp: TreePool.Pool, s: Pool, u: Pool)
    requires Ok(s) && SamePins(tp, s) && TreePool.Room(tp.pins, s.nextId, tp.frames) && Created(s, u)
    ensures SamePins(tp.Pin(s.nextId), u)
  {
    var tq := tp.Pin(s.nextId);
    StoredBelow(s, -1, s.nextId);
    ClearedPins(s, s.nextId);
    forall p ensures tq.pins[p] == PinsOf(u, p) {
      assert tp.pins[p] == PinsOf(s, p);
      ClearedPins(s, p);
    }
  }

  lemma UnpinAgrees(tp: TreePool.Pool, s: Pool, id: PageId, dirty: bool)
    requires Ok(s) && SamePins(tp, s) && id in tp.pins && (id in tp.unsaved ==> dirty)
    ensures MayUnpin(s, id, dirty) && SamePins(tp.Unpin(id, dirty), Unpinned(s, id, dirty))
  {
    assert tp.pins[id] == PinsOf(s, id);
    var tq, u := tp.Unpin(id, dirty), Unpinned(s, id, dirty);
    MappedFrame(s, id);
    forall p ensures tq.pins[p] == PinsOf(u, p) {
      assert tp.pins[p] == PinsOf(s, p);
      if p in s.table {
        MappedFrame(s, p);
      }
    }
  }

  lemma WriteAgrees(tp: TreePool.Pool, s: Pool, id: PageId, data: Bytes)
    requires Ok(s) && SamePins(tp, s) && id in tp.pins
    ensures Mapped(s, id) && s.frames[s.table[id]].pins > 0 && SamePins(tp.Wrote(id), Written(s, id, data))
  {
    assert tp.pins[id] == PinsOf(s, id);
    var tq, u := tp.Wrote(id), Written(s, id, data);
    forall p ensures tq.pins[p] == PinsOf(u, p) {
      assert tp.pins[p] == PinsOf(s, p);
    }
  }

  lemma DeleteAgrees(tp: TreePool.Pool, s: Pool, id: PageId)
    requires Ok(s) && SamePins(tp, s) && id !in tp.pins
    ensures Mapped(s, id) ==> s.frames[s.table[id]].pins == 0 && SamePins(tp, Deleted(s, id))
  {
    assert tp.pins[id] == PinsOf(s, id);
    if Mapped(s, id) {
      forall p ensures tp.pins[p] == PinsOf(Deleted(s, id), p) {
        assert tp.pins[p] == PinsOf(s, p);
        if p in s.table {
          MappedFrame(s, p);
        }
      }
    }
  }

  // ---------------------------------------------------------------- any traffic is served

  /** Whatever a client may ask for it gets: no fetch and no new page fails, no page that goes is pinned. */
  method Serve(b: BufferPoolManager, e: TreePool.Traffic, data: Bytes, ghost books: TreePool.Books) returns (ok: bool)
    requires b.Valid() && Agrees(books, b.S()) && TreePool.Allowed(books, e)
    modifies b, b.frames, b.replacer, b.replacer.items
    ensures ok && b.Valid() && Agrees(TreePool.After(books, e), b.S())
  {
    match e {
      case Fetch(id) =>
        ok := ServeFetch(b, id, books.pool);
      case New =>
        ok := ServeNew(b, books.pool);
      case Write(id) =>
        ok := ServeWrite(b, id, data, books.pool);
      case Unpin(id, dirty) =>
        ok := ServeUnpin(b, id, dirty, books.pool);
      case Delete(id) =>
        ok := ServeDelete(b, id, books.pool);
    }
  }

  method ServeDelete(b: BufferPoolManager, id: PageId, ghost tp: TreePool.Pool) returns (ok: bool)
    requires b.Valid() && SamePins(tp, b.S()) && id !in tp.pins
    modifies b, b.frames, b.replacer, b.replacer.items
    ensures ok && b.Valid() && SamePins(tp, b.S())
    ensures b.store.Keys >= old(b.store.Keys) - {id} && b.nextId == old(b.nextId)
  {
    DeleteAgrees(tp, b.S(), id);
    ok := b.DeletePage(id);
  }

  method ServeWrite(b: BufferPoolManager, id: PageId, data: Bytes, ghost tp: TreePool.Pool) returns (ok: bool)
    requires b.Valid() && SamePins(tp, b.S()) && id in tp.pins
    modifies b, b.frames, b.replacer, b.replacer.items
    ensures ok && b.Valid() && SamePins(tp.Wrote(id), b.S())
    ensures b.store.Keys == old(b.store.Keys) && b.nextId == old(b.nextId)
  {
    WriteAgrees(tp, b.S(), id, data);
    StoredPage(b.S(), id);
    b.WriteData(id, data);
    ok := true;
  }

  lemma StoredPage(s: Pool, id: PageId)
    requires Ok(s) && id in s.table
    ensures id in s.store
  {
  }

  method ServeUnpin(b: BufferPoolManager, id: PageId, dirty: bool, ghost tp: TreePool.Pool) returns (ok: bool)
    requires b.Valid() && SamePins(tp, b.S()) && id in tp.pins && (id in tp.unsaved ==> dirty)
    modifies b, b.frames, b.replacer, b.replacer.items
    ensures ok && b.Valid() && SamePins(tp.Unpin(id, dirty), b.S())
    ensures b.store.Keys == old(b.store.Keys) && b.nextId == old(b.nextId)
  {
    UnpinAgrees(tp, b.S(), id, dirty);
    ok := b.UnpinPage(id, dirty);
  }

  method ServeFetch(b: BufferPoolManager, id: PageId, ghost tp: TreePool.Pool) returns (ok: bool)
    requires b.Valid() && SamePins(tp, b.S()) && id in b.store && TreePool.Room(tp.pins, id, tp.frames)
    modifies b, b.frames, b.replacer, b.replacer.items
    ensures ok && b.Valid() && SamePins(tp.Pin(id), b.S()) && b.store == old(b.store) && b.nextId == old(b.nextId)
  {
    ghost var s := b.S();
    RoomMeansFrame(tp, s, id);
    var r := b.FetchPage(id);
    FetchAgrees(tp, s, b.S(), id);
    FetchedFrame(s, b.S(), id);
    ok := r.Page?;
  }

  method ServeNew(b: BufferPoolManager, ghost tp: TreePool.Pool) returns (ok: bool)
    requires b.Valid() && SamePins(tp, b.S()) && TreePool.Room(tp.pins, b.nextId, tp.frames)
    modifies b, b.frames, b.replacer, b.replacer.items
    ensures ok && b.Valid() && SamePins(tp.Pin(old(b.nextId)), b.S())
    ensures b.store.Keys == old(b.store.Keys) + {old(b.nextId)} && b.nextId == old(b.nextId) + 1
  {
    ghost var s := b.S();
    RoomMeansFrame(tp, s, b.nextId);
    NewIsNotMapped(s);
    var id;
    ok, id := b.NewPage();
    NewAgrees(tp, s, b.S());
  }

  lemma NewIsNotMapped(s: Pool)
    requires Ok(s)
    ensures s.nextId !in s.table
  {
    StoredBelow(s, -1, s.nextId);
  }

  /** A whole course of page traffic goes through, whatever it is and whatever it writes. */
  method ServeAll(b: BufferPoolManager, log: seq<TreePool.Traffic>, data: nat -> Bytes,
                  ghost trail: seq<TreePool.Books>)
    returns (ok: bool)
    requires b.Valid() && TreePool.Course(log, trail) && Agrees(trail[0], b.S())
    modifies b, b.frames, b.replacer, b.replacer.items
    ensures ok && b.Valid() && Agrees(trail[|log|], b.S())
  {
    ok := true;
    var i := 0;
    while i < |log|
      invariant 0 <= i <= |log| && ok && b.Valid() && Agrees(trail[i], b.S())
    {
      assert TreePool.StepOk(log, trail, i);
      ok := Serve(b, log[i], data(i), trail[i]);
      i := i + 1;
    }
  }

  /** The buffer pool of a new index: its header page is made and written. */
  method NewIndexPool(poolSize: nat, header: Bytes) returns (b: BufferPoolManager)
    requires poolSize > 0
    ensures b.Valid() && fresh(b) && fresh(b.frames) && fresh(b.replacer) && fresh(b.replacer.items)
    ensures Agrees(BPlusTree.AtFirst(poolSize), b.S())
  {
    b := new BufferPoolManager(poolSize, map[], 0);
    ghost var none := TreePool.Pool(poolSize, multiset{}, {});
    assert SamePins(none, b.S());
    Larger(TreePool.Pinned(none.pins) + {0}, {0});
    var ok := ServeNew(b, none);
    assert none.Pin(0) == TreePool.Resting(poolSize);
    ok := ServeWrite(b, TreeModel.HEADER_PAGE_ID, header, TreePool.Resting(poolSize));
    assert TreePool.Resting(poolSize).Wrote(TreeModel.HEADER_PAGE_ID) == TreePool.Fresh(poolSize);
  }

  /** All the page traffic of a tree, over any run of its operations, goes through on a new buffer pool
      with the frames the tree was made for. */
  method ServeTree(t: BPlusTree.Tree, header: Bytes, data: nat -> Bytes) returns (b: BufferPoolManager, ok: bool)
    requires t.Valid()
    ensures ok && b.Valid() && fresh(b) && b.frames.Length == t.frames && Agrees(t.Now(), b.S())
  {
    b := NewIndexPool(t.frames, header);
    ok := ServeAll(b, t.log, data, t.trail);
  }

  /** A new index answers any run of commands as a finite map would, and a buffer pool of five frames or
      more serves every page it asks for. */
  method AnyRun(leafMax: int, internalMax: int, frames: nat, run: seq<TreeIndex.Command>, header: Bytes,
                data: nat -> Bytes)
    returns (answers: seq<seq<TreeModel.Value>>, b: BufferPoolManager, ok: bool)
    requires leafMax >= 2 && internalMax >= 4 && frames >= 5
    ensures answers == TreeIndex.Answers(map[], run) && ok && b.Valid() && b.frames.Length == frames
  {
    var index := new TreeIndex.Index(leafMax, internalMax, frames);
    answers := index.Run(run);
    b, ok := ServeTree(index.tree, header, data);
  }

  /** With the header page and three more pinned, one of them perhaps twice, a pool of five frames has
      one for any page. */
  lemma FiveFramesSuffice(tp: TreePool.Pool, s: Pool, x: PageId, y: PageId, z: PageId, id: PageId)
    requires Ok(s) && |s.frames| >= 5 && SamePins(tp, s)
    requires tp.pins == multiset{TreeModel.HEADER_PAGE_ID, x, y, z}
             || tp.pins == multiset{TreeModel.HEADER_PAGE_ID, x, y, z, z}
    ensures id in s.table || !AllPinned(s)
  {
    TreePool.RoomFor(x, y, z, id, |s.frames|);
    RoomMeansFrame(tp, s, id);
  }
}
