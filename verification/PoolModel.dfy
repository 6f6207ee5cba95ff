/** The state of a buffer pool over its disk, and what makes it a transparent cache. */
module PoolModel {
  import opened Replacer

  type PageId = int
  type Bytes = seq<int>

  const INVALID_PAGE_ID: PageId := -1
  const PAGE_SIZE := 32768
  /** A page of zeros. */
  function Blank(): Bytes {
    seq(PAGE_SIZE, i => 0)
  }

  datatype Frame = Frame(pageId: PageId, pins: nat, dirty: bool, data: Bytes)

  function EmptyFrame(): Frame {
    Frame(INVALID_PAGE_ID, 0, false, Blank())
  }

  /** `store` is what the pages contain as far as clients can tell; `unsaved` are the pages written
      since they were last reported dirty; `stamp` is when a frame was last unpinned. */
  datatype Pool = Pool(frames: seq<Frame>, table: map<PageId, FrameId>, free: seq<FrameId>, queue: seq<FrameId>,
                       disk: map<PageId, Bytes>, nextId: PageId,
                       store: map<PageId, Bytes>, unsaved: set<PageId>, stamp: map<FrameId, int>, clock: int)

  // ---------------------------------------------------------------- frames

  /** A frame is free, or waits for reuse, or holds a pinned page: exactly one of these. */
  ghost predicate FrameOk(s: Pool, f: FrameId) {
    && 0 <= f < |s.frames|
    && var fr := s.frames[f];
    if fr.pageId == INVALID_PAGE_ID then
      f in s.free && f !in s.queue && fr.pins == 0
    else
      && fr.pageId in s.table && s.table[fr.pageId] == f
      && f !in s.free && (f in s.queue <==> fr.pins == 0)
  }

  ghost predicate TableOk(s: Pool) {
    forall id :: id in s.table ==>
        id != INVALID_PAGE_ID && 0 <= s.table[id] < |s.frames| && s.frames[s.table[id]].pageId == id
  }

  ghost predicate ListsOk(s: Pool) {
    && Distinct(s.free) && InOrder(s.queue, s.stamp)
    && (forall f :: f in s.free ==> 0 <= f < |s.frames|)
    && (forall f :: f in s.queue ==> 0 <= f < |s.frames|)
    && (forall f :: f in s.stamp ==> s.stamp[f] < s.clock)
  }

  // ---------------------------------------------------------------- contents

  /** A page in a frame is as clients see it; on disk it is so too, unless the frame is dirty or about
      to be reported dirty. */
  ghost predicate PageOk(s: Pool, id: PageId) {
    && id in s.store && id in s.disk && 0 <= id < s.nextId
    && (if id in s.table then
          0 <= s.table[id] < |s.frames| &&
          var fr := s.frames[s.table[id]];
          fr.data == s.store[id] && (fr.dirty || id in s.unsaved || s.disk[id] == s.store[id])
        else
          s.disk[id] == s.store[id])
  }

  ghost predicate UnsavedOk(s: Pool) {
    forall id :: id in s.unsaved ==> id in s.table && 0 <= s.table[id] < |s.frames| && s.frames[s.table[id]].pins > 0
  }

  /** Everything, with the possible exception of one frame that has just been emptied. */
  ghost predicate OkExcept(s: Pool, ex: FrameId) {
    && TableOk(s) && ListsOk(s) && UnsavedOk(s) && s.nextId >= 0
    && (forall f {:trigger FrameOk(s, f)} :: 0 <= f < |s.frames| && f != ex ==> FrameOk(s, f))
    && (forall id {:trigger PageOk(s, id)} :: id in s.store ==> PageOk(s, id))
    && s.table.Keys <= s.store.Keys
  }

  ghost predicate Ok(s: Pool) {
    OkExcept(s, -1)
  }

  /** Frame f is nobody's. */
  ghost predicate Vacant(s: Pool, f: FrameId) {
    && OkExcept(s, f) && 0 <= f < |s.frames| && f !in s.free && f !in s.queue
    && s.frames[f] == EmptyFrame()
  }

  // ---------------------------------------------------------------- finding a frame

  function TakenFree(s: Pool): Pool
    requires s.free != [] && 0 <= s.free[|s.free| - 1] < |s.frames|
  {
    s.(free := s.free[..|s.free| - 1], frames := s.frames[s.free[|s.free| - 1] := EmptyFrame()])
  }

  lemma TakeFree(s: Pool)
    requires Ok(s) && s.free != []
    ensures var f := s.free[|s.free| - 1]; 0 <= f < |s.frames| && Vacant(TakenFree(s), f)
  {
    var f := s.free[|s.free| - 1];
    assert f in s.free;
    assert FrameOk(s, f);
    var u := TakenFree(s);
    assert forall g :: g in u.free ==> g in s.free;
    assert f !in u.free;
    forall g | 0 <= g < |u.frames| && g != f ensures FrameOk(u, g) {
      assert FrameOk(s, g);
      assert g in s.free ==> g in u.free;
    }
    forall id | id in u.store ensures PageOk(u, id) {
      assert PageOk(s, id);
    }
  }

  /** Reuse the frame unpinned longest ago; a dirty page is written back first. */
  function Evicted(s: Pool): Pool
    requires s.queue != [] && 0 <= s.queue[0] < |s.frames|
  {
    var f := s.queue[0];
    var fr := s.frames[f];
    s.(queue := s.queue[1..],
       disk := if fr.dirty then s.disk[fr.pageId := fr.data] else s.disk,
       table := s.table - {fr.pageId},
       frames := s.frames[f := EmptyFrame()])
  }

  lemma Evict(s: Pool)
    requires Ok(s) && s.queue != []
    ensures 0 <= s.queue[0] < |s.frames| && Vacant(Evicted(s), s.queue[0])
  {
    var f := s.queue[0];
    assert f in s.queue;
    assert FrameOk(s, f);
    var u, id0 := Evicted(s), s.frames[f].pageId;
    assert PageOk(s, id0);
    assert f !in u.queue;
    forall g | 0 <= g < |u.frames| && g != f ensures FrameOk(u, g) {
      assert FrameOk(s, g);
      assert g in s.queue <==> g in u.queue;
    }
    forall id | id in u.store ensures PageOk(u, id) {
      assert PageOk(s, id);
    }
    EvictLists(s);
  }

  lemma EvictLists(s: Pool)
    requires Ok(s) && s.queue != [] && 0 <= s.queue[0] < |s.frames|
    ensures ListsOk(Evicted(s)) && TableOk(Evicted(s)) && UnsavedOk(Evicted(s))
  {
    var f := s.queue[0];
    assert f in s.queue;
    assert FrameOk(s, f);
    var u := Evicted(s);
    assert forall g :: g in u.queue ==> g in s.queue;
    assert s.frames[f].pageId !in s.unsaved;
  }

  // ---------------------------------------------------------------- filling a frame

  function Occupied(s: Pool, f: FrameId, id: PageId): Pool
    requires 0 <= f < |s.frames| && id in s.disk
  {
    s.(table := s.table[id := f], frames := s.frames[f := Frame(id, 1, false, s.disk[id])])
  }

  lemma Occupy(s: Pool, f: FrameId, id: PageId)
    requires Vacant(s, f) && id in s.store && id in s.disk && id !in s.table && id != INVALID_PAGE_ID
    ensures Ok(Occupied(s, f, id))
  {
    var u := Occupied(s, f, id);
    forall g | 0 <= g < |u.frames| ensures FrameOk(u, g) {
      if g != f {
        assert FrameOk(s, g);
      }
    }
    forall i | i in u.store ensures PageOk(u, i) {
      assert PageOk(s, i);
    }
    OccupyTable(s, f, id);
  }

  lemma OccupyTable(s: Pool, f: FrameId, id: PageId)
    requires Vacant(s, f) && id in s.disk && id !in s.table && id != INVALID_PAGE_ID
    ensures TableOk(Occupied(s, f, id)) && UnsavedOk(Occupied(s, f, id))
  {
    assert forall i :: i in s.table ==> s.table[i] != f;
  }

  lemma StoredBelow(s: Pool, ex: FrameId, id: PageId)
    requires OkExcept(s, ex)
    ensures id in s.store ==> 0 <= id < s.nextId
  {
    if id in s.store {
      assert PageOk(s, id);
    }
  }

  /** A new page of zeros, on disk at once. */
  function Allocated(s: Pool): Pool {
    s.(disk := s.disk[s.nextId := Blank()], store := s.store[s.nextId := Blank()], nextId := s.nextId + 1)
  }

  lemma Allocate(s: Pool, f: FrameId)
    requires Vacant(s, f)
    ensures Vacant(Allocated(s), f) && s.nextId !in s.table && s.nextId !in s.store
  {
    var u := Allocated(s);
    StoredBelow(s, f, s.nextId);
    forall g | 0 <= g < |u.frames| && g != f ensures FrameOk(u, g) {
      assert FrameOk(s, g);
    }
    forall i | i in u.store ensures PageOk(u, i) {
      assert i != s.nextId ==> PageOk(s, i);
    }
  }

  // ---------------------------------------------------------------- pages in frames

  /** The frame of a mapped page is replaced; other frames and lists may follow. */
  ghost predicate Mapped(s: Pool, id: PageId) {
    id in s.table && 0 <= s.table[id] < |s.frames|
  }

  lemma MappedFrame(s: Pool, id: PageId)
    requires Ok(s) && id in s.table
    ensures Mapped(s, id) && s.frames[s.table[id]].pageId == id && FrameOk(s, s.table[id]) && PageOk(s, id)
  {
    assert FrameOk(s, s.table[id]) && PageOk(s, id);
  }

  function Pinned(s: Pool, id: PageId): Pool
    requires Mapped(s, id)
  {
    var f := s.table[id];
    s.(frames := s.frames[f := s.frames[f].(pins := s.frames[f].pins + 1)], queue := Without(s.queue, f))
  }

  lemma Pin(s: Pool, id: PageId)
    requires Ok(s) && id in s.table
    ensures Mapped(s, id) && Ok(Pinned(s, id))
  {
    MappedFrame(s, id);
    var u, f := Pinned(s, id), s.table[id];
    WithoutKeeps(s.queue, f, s.stamp);
    forall g | 0 <= g < |u.frames| ensures FrameOk(u, g) {
      assert FrameOk(s, g);
    }
    forall i | i in u.store ensures PageOk(u, i) {
      assert PageOk(s, i);
    }
  }

  /** One pin less; the last one puts the frame at the end of the queue. */
  function Unpinned(s: Pool, id: PageId, dirty: bool): Pool
    requires Mapped(s, id) && s.frames[s.table[id]].pins > 0
  {
    var f := s.table[id];
    var fr := s.frames[f].(dirty := s.frames[f].dirty || dirty, pins := s.frames[f].pins - 1);
    var u := s.(frames := s.frames[f := fr], unsaved := if dirty then s.unsaved - {id} else s.unsaved);
    if fr.pins == 0 then
      u.(queue := Without(s.queue, f) + [f], stamp := s.stamp[f := s.clock], clock := s.clock + 1)
    else u
  }

  /** A client that wrote a page reports it dirty before its last pin is gone. */
  ghost predicate MayUnpin(s: Pool, id: PageId, dirty: bool) {
    Mapped(s, id) && s.frames[s.table[id]].pins > 0 && (id in s.unsaved && s.frames[s.table[id]].pins == 1 ==> dirty)
  }

  lemma Unpin(s: Pool, id: PageId, dirty: bool)
    requires Ok(s) && MayUnpin(s, id, dirty)
    ensures Ok(Unpinned(s, id, dirty))
  {
    MappedFrame(s, id);
    var u, f := Unpinned(s, id, dirty), s.table[id];
    UnpinLists(s, id, dirty);
    forall g | 0 <= g < |u.frames| ensures FrameOk(u, g) {
      assert FrameOk(s, g);
    }
    forall i | i in u.store ensures PageOk(u, i) {
      assert PageOk(s, i);
      assert i in s.table && i != id ==> s.table[i] != f;
    }
  }

  lemma UnpinLists(s: Pool, id: PageId, dirty: bool)
    requires Ok(s) && MayUnpin(s, id, dirty)
    ensures var u, f := Unpinned(s, id, dirty), s.table[id];
      && ListsOk(u) && UnsavedOk(u) && TableOk(u)
      && (forall g :: g != f ==> (g in u.queue <==> g in s.queue))
      && (f in u.queue <==> u.frames[f].pins == 0)
  {
    MappedFrame(s, id);
    var u, f := Unpinned(s, id, dirty), s.table[id];
    WithoutKeeps(s.queue, f, s.stamp);
    assert forall i :: i in s.table && s.table[i] == f ==> i == id;
    if u.frames[f].pins == 0 {
      QueueEnd(s, f);
    }
  }

  lemma QueueEnd(s: Pool, f: FrameId)
    requires ListsOk(s) && 0 <= f < |s.frames| && f !in s.queue
    ensures InOrder(Without(s.queue, f) + [f], s.stamp[f := s.clock])
    ensures forall g :: g in Without(s.queue, f) + [f] <==> g in s.queue || g == f
  {
    WithoutKeeps(s.queue, f, s.stamp);
    var w := Without(s.queue, f);
    var q, later := w + [f], s.stamp[f := s.clock];
    forall i | 0 <= i < |w| ensures w[i] in s.stamp && w[i] != f && s.stamp[w[i]] < s.clock && q[i] == w[i] {
      assert w[i] in w;
    }
    forall i | 0 <= i < |q| ensures q[i] in later {
    }
    forall i, j | 0 <= i < j < |q| ensures later[q[i]] < later[q[j]] {
      assert i < |w| && q[i] == w[i];
      assert j < |w| ==> s.stamp[w[i]] < s.stamp[w[j]];
    }
    assert forall g :: g in q <==> g in w || g == f;
  }

  /** A client writes a page it has pinned. */
  function Written(s: Pool, id: PageId, data: Bytes): Pool
    requires Mapped(s, id)
  {
    var f := s.table[id];
    s.(frames := s.frames[f := s.frames[f].(data := data)], store := s.store[id := data], unsaved := s.unsaved + {id})
  }

  lemma Write(s: Pool, id: PageId, data: Bytes)
    requires Ok(s) && Mapped(s, id) && s.frames[s.table[id]].pins > 0
    ensures Ok(Written(s, id, data))
  {
    MappedFrame(s, id);
    var u, f := Written(s, id, data), s.table[id];
    forall g | 0 <= g < |u.frames| ensures FrameOk(u, g) {
      assert FrameOk(s, g);
    }
    assert forall i :: i in s.table && s.table[i] == f ==> i == id;
    forall i | i in u.store ensures PageOk(u, i) {
      assert i != id ==> PageOk(s, i);
    }
  }

  function Flushed(s: Pool, id: PageId): Pool
    requires Mapped(s, id)
  {
    var f := s.table[id];
    s.(disk := s.disk[id := s.frames[f].data], frames := s.frames[f := s.frames[f].(dirty := false)])
  }

  lemma Flush(s: Pool, id: PageId)
    requires Ok(s) && id in s.table
    ensures Mapped(s, id) && Ok(Flushed(s, id)) && Flushed(s, id).disk[id] == s.store[id]
  {
    MappedFrame(s, id);
    var u, f := Flushed(s, id), s.table[id];
    forall g | 0 <= g < |u.frames| ensures FrameOk(u, g) {
      assert FrameOk(s, g);
    }
    assert forall i :: i in s.table && s.table[i] == f ==> i == id;
    forall i | i in u.store ensures PageOk(u, i) {
      assert PageOk(s, i);
    }
  }

  /** An unpinned page is dropped with its contents; its frame is free again. */
  function Deleted(s: Pool, id: PageId): Pool
    requires Mapped(s, id)
  {
    var f := s.table[id];
    s.(table := s.table - {id},
       frames := s.frames[f := s.frames[f].(pageId := INVALID_PAGE_ID, dirty := false, pins := 0)],
       free := s.free + [f], queue := Without(s.queue, f), store := s.store - {id})
  }

  lemma Delete(s: Pool, id: PageId)
    requires Ok(s) && Mapped(s, id) && s.frames[s.table[id]].pins == 0
    ensures Ok(Deleted(s, id))
  {
    MappedFrame(s, id);
    var u, f := Deleted(s, id), s.table[id];
    WithoutKeeps(s.queue, f, s.stamp);
    assert forall g :: g in u.free <==> g in s.free || g == f;
    forall g | 0 <= g < |u.frames| ensures FrameOk(u, g) {
      assert FrameOk(s, g);
    }
    assert forall i :: i in s.table && s.table[i] == f ==> i == id;
    forall i | i in u.store ensures PageOk(u, i) {
      assert PageOk(s, i);
    }
    assert id !in s.unsaved;
  }
}
