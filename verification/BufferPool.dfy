/** The buffer pool manager. */
module BufferPool {
  import opened Replacer
  import opened PoolModel

  /** Every frame is free, or queued for reuse, or holds a pinned page, and only one of these. */
  lemma Partition(s: Pool, f: FrameId)
    requires Ok(s) && 0 <= f < |s.frames|
    ensures var pinned := s.frames[f].pageId != INVALID_PAGE_ID && s.frames[f].pins > 0;
      && (f in s.free || f in s.queue || pinned)
      && !(f in s.free && f in s.queue) && !(f in s.free && pinned) && !(f in s.queue && pinned)
  {
    assert FrameOk(s, f);
  }

  /** No two pages share a frame. */
  lemma TableInjective(s: Pool, i: PageId, j: PageId)
    requires Ok(s) && i in s.table && j in s.table && s.table[i] == s.table[j]
    ensures i == j
  {
    assert TableOk(s);
  }

  /** There is no frame to be had exactly when every frame holds a pinned page. */
  lemma NoFrameIff(s: Pool)
    requires Ok(s)
    ensures s.free == [] && s.queue == [] <==> forall f :: 0 <= f < |s.frames| ==> s.frames[f].pins > 0
  {
    if s.free == [] && s.queue == [] {
      forall f | 0 <= f < |s.frames| ensures s.frames[f].pins > 0 {
        assert FrameOk(s, f);
      }
    } else {
      var f := if s.free != [] then s.free[0] else s.queue[0];
      assert f in s.free || f in s.queue;
      assert FrameOk(s, f);
      assert s.frames[f].pins == 0;
    }
  }

  /** The frame reused is the one whose last pin went away longest ago. */
  lemma VictimIsOldest(s: Pool, f: FrameId)
    requires Ok(s) && s.queue != [] && 0 <= f < |s.frames| && s.frames[f].pageId != INVALID_PAGE_ID
             && s.frames[f].pins == 0
    ensures s.queue[0] in s.stamp && f in s.stamp && s.stamp[s.queue[0]] <= s.stamp[f]
  {
    assert FrameOk(s, f);
    var i :| 0 <= i < |s.queue| && s.queue[i] == f;
  }

  /** Distinct frames of a pool of n are at most n. */
  lemma {:induction false} AtMost(q: seq<FrameId>, stamp: map<FrameId, int>, n: nat)
    requires InOrder(q, stamp) && forall g :: g in q ==> 0 <= g < n
    ensures |q| <= n
    decreases n
  {
    if |q| > 0 {
      assert q[0] in q;
      WithoutKeeps(q, n - 1, stamp);
      AtMost(Without(q, n - 1), stamp, n - 1);
    }
  }

  /** A queue that misses a frame is shorter than the pool, so the replacer never refuses one. */
  lemma {:induction false} QueueHasRoom(q: seq<FrameId>, stamp: map<FrameId, int>, n: nat, f: FrameId)
    requires InOrder(q, stamp) && (forall g :: g in q ==> 0 <= g < n) && 0 <= f < n && f !in q
    ensures |q| < n
    decreases n
  {
    if f == n - 1 {
      AtMost(q, stamp, n - 1);
    } else {
      WithoutKeeps(q, n - 1, stamp);
      QueueHasRoom(Without(q, n - 1), stamp, n - 1, f);
    }
  }

  lemma HasRoom(s: Pool, f: FrameId)
    requires Ok(s) && 0 <= f < |s.frames| && s.frames[f].pins > 0
    ensures |s.queue| < |s.frames|
  {
    assert FrameOk(s, f);
    QueueHasRoom(s.queue, s.stamp, |s.frames|, f);
  }

  /** Free frames go first; then the one unpinned longest ago. */
  function FrameFor(s: Pool): FrameId
    requires s.free != [] || s.queue != []
  {
    if s.free != [] then s.free[|s.free| - 1] else s.queue[0]
  }

  ghost predicate CanFind(s: Pool) {
    (s.free != [] || s.queue != []) && 0 <= FrameFor(s) < |s.frames|
  }

  /** The pool with that frame emptied, a dirty page being written back. */
  function Cleared(s: Pool): Pool
    requires (s.free != [] || s.queue != []) && 0 <= FrameFor(s) < |s.frames|
  {
    if s.free != [] then TakenFree(s) else Evicted(s)
  }

  ghost predicate FoundIn(s: Pool, u: Pool, f: FrameId) {
    CanFind(s) && f == FrameFor(s) && u == Cleared(s)
  }

  /** What fetching a page does: pin it where it is, or read it into the next frame. */
  ghost predicate Fetched(s: Pool, u: Pool, id: PageId) {
    if id in s.table then Mapped(s, id) && u == Pinned(s, id)
    else CanFind(s) && id in Cleared(s).disk && u == Occupied(Cleared(s), FrameFor(s), id)
  }

  /** No frame can be had. */
  ghost predicate AllPinned(s: Pool) {
    forall g :: 0 <= g < |s.frames| ==> s.frames[g].pins > 0
  }

  datatype FetchResult = NoFrame | Threw | Page(data: Bytes)

  /** What fetching a page nobody created, or one deleted since, leaves behind: a frame pinned for it
      with what the disk holds there, zeros if nothing; all other pages are as they were. */
  ghost predicate FetchedUnknown(s: Pool, u: Pool, id: PageId) {
    && CanFind(s) && |Cleared(s).frames| == |s.frames|
    && var v, f := Cleared(s), FrameFor(s);
    u == v.(table := v.table[id := f], frames := v.frames[f := Frame(id, 1, false, OnDiskOrBlank(s.disk, id))])
  }

  function OnDiskOrBlank(disk: map<PageId, Bytes>, id: PageId): Bytes {
    if id in disk then disk[id] else Blank()
  }

  /** Pages that exist are on the disk, as clients see them when they are in no frame. */
  lemma OnDisk(s: Pool, u: Pool, f: FrameId, id: PageId)
    requires Ok(s) && FoundIn(s, u, f) && Vacant(u, f) && id !in s.table
    ensures id in u.disk <==> id in s.disk
    ensures id in u.disk ==> u.disk[id] == s.disk[id]
    ensures id in u.store ==> id in u.disk && u.disk[id] == u.store[id] && id != INVALID_PAGE_ID && id !in u.table
  {
    assert FrameOk(s, f);
    if s.free == [] {
      MappedFrame(s, s.frames[f].pageId);
    }
    if id in u.store {
      assert PageOk(u, id);
    }
  }

  /** What creating a page does. */
  ghost predicate Created(s: Pool, u: Pool) {
    CanFind(s) && |Cleared(s).frames| == |s.frames| && u == Occupied(Allocated(Cleared(s)), FrameFor(s), s.nextId)
  }

  /** A page someone holds pinned stays where it is while another page is fetched. */
  lemma PinnedPageStays(s: Pool, u: Pool, id: PageId, other: PageId)
    requires Ok(s) && Fetched(s, u, id) && other != id && Mapped(s, other) && s.frames[s.table[other]].pins > 0
    ensures other in u.table && u.table[other] == s.table[other] && |u.frames| == |s.frames|
    ensures u.frames[s.table[other]] == s.frames[s.table[other]]
  {
    MappedFrame(s, other);
    if id in s.table {
      MappedFrame(s, id);
    } else {
      assert FrameOk(s, FrameFor(s));
      assert FrameFor(s) in s.free || FrameFor(s) in s.queue;
    }
  }

  lemma ClearedIsVacant(s: Pool)
    requires Ok(s) && (s.free != [] || s.queue != [])
    ensures CanFind(s) && Vacant(Cleared(s), FrameFor(s))
  {
    if s.free != [] {
      TakeFree(s);
    } else {
      Evict(s);
    }
  }

  /** Whatever frame is found, clients notice nothing. */
  lemma FoundKeeps(s: Pool, u: Pool, f: FrameId)
    requires FoundIn(s, u, f)
    ensures u.store == s.store && u.unsaved == s.unsaved && u.nextId == s.nextId && |u.frames| == |s.frames|
    ensures forall id :: id in u.table ==> id in s.table && u.table[id] == s.table[id]
  {
  }

  lemma NewPageAt(u: Pool, f: FrameId) returns (v: Pool)
    requires Vacant(u, f)
    ensures v == u.(disk := u.disk[u.nextId := Blank()], store := u.store[u.nextId := Blank()], nextId := u.nextId + 1,
                    table := u.table[u.nextId := f], frames := u.frames[f := Frame(u.nextId, 1, false, Blank())])
    ensures Ok(v) && u.frames[f] == EmptyFrame() && u.nextId !in u.store && f !in u.queue
    ensures v == Occupied(Allocated(u), f, u.nextId)
  {
    Allocate(u, f);
    Occupy(Allocated(u), f, u.nextId);
    v := Occupied(Allocated(u), f, u.nextId);
  }

  class BufferPoolManager {
    const frames: array<Frame>
    const replacer: LruReplacer
    var table: map<PageId, FrameId>
    var free: seq<FrameId>
    var disk: map<PageId, Bytes>
    var nextId: PageId
    ghost var store: map<PageId, Bytes>
    ghost var unsaved: set<PageId>
    ghost var stamp: map<FrameId, int>
    ghost var clock: int

    ghost function S(): Pool
      reads this, frames, replacer
    {
      Pool(frames[..], table, free, replacer.queue, disk, nextId, store, unsaved, stamp, clock)
    }

    /** The replacer is in order. */
    ghost predicate Queued()
      reads this, replacer, replacer.items
    {
      replacer.Valid() && replacer.numPages == frames.Length
    }

    ghost predicate Valid()
      reads this, frames, replacer, replacer.items
    {
      Queued() && Ok(S())
    }

    /** Start over a disk that holds the pages 0..nextId. */
    constructor (poolSize: nat, disk: map<PageId, Bytes>, nextId: PageId)
      requires nextId >= 0 && forall id :: id in disk ==> 0 <= id < nextId
      ensures Valid() && fresh(frames) && fresh(replacer) && fresh(replacer.items) && store == disk
              && this.disk == disk && frames.Length == poolSize
      ensures this.nextId == nextId && table == map[] && unsaved == {}
      ensures forall f :: 0 <= f < poolSize ==> frames[f] == EmptyFrame()
    {
      frames := new Frame[poolSize](_ => EmptyFrame());
      replacer := new LruReplacer(poolSize);
      table, free, this.disk, this.nextId := map[], seq(poolSize, i => i), disk, nextId;
      store, unsaved, stamp, clock := disk, {}, map[], 0;
      new;
      forall f | 0 <= f < |S().frames| ensures FrameOk(S(), f) {
        assert free[f] == f;
      }
      forall id | id in S().store ensures PageOk(S(), id) {
      }
    }

    /** A frame to put a page into, or -1 when every frame holds a pinned page. */
    method FindFrame() returns (f: FrameId)
      requires Valid()
      modifies this`free, this`table, this`disk, frames, replacer, replacer.items
      ensures Queued()
      ensures f == -1 <==> forall g :: 0 <= g < frames.Length ==> old(frames[g].pins) > 0
      ensures f == -1 ==> S() == old(S())
      ensures f != -1 ==> Vacant(S(), f) && FoundIn(old(S()), S(), f)
    {
      ghost var s := S();
      NoFrameIff(s);
      var found := true;
      f := -1;
      if free == [] {
        found, f := replacer.Victim();
        if !found {
          return -1;
        }
      }
      ClearedIsVacant(s);
      f := ClearFrame(f, s);
    }

    /** The last free frame, or the victim, is emptied; the victim has left the queue already. */
    method ClearFrame(victim: FrameId, ghost s: Pool) returns (f: FrameId)
      requires CanFind(s) && S() == if s.free != [] then s else s.(queue := s.queue[1..])
      requires free == [] ==> victim == FrameFor(s)
      modifies this`free, this`table, this`disk, frames
      ensures f == FrameFor(s) && S() == Cleared(s)
    {
      f := victim;
      if free != [] {
        f := free[|free| - 1];
        free := free[..|free| - 1];
      } else {
        WriteBack(f);
      }
      frames[f] := EmptyFrame();
      assert frames[..] == s.frames[f := EmptyFrame()];
    }

    /** A page leaves its frame; the disk gets it if it is dirty. */
    method WriteBack(f: FrameId)
      requires 0 <= f < frames.Length
      modifies `disk, `table
      ensures disk == if frames[f].dirty then old(disk)[frames[f].pageId := frames[f].data] else old(disk)
      ensures table == old(table) - {frames[f].pageId}
    {
      if frames[f].dirty {
        disk := disk[frames[f].pageId := frames[f].data];
      }
      table := table - {frames[f].pageId};
    }

    /** Pin a page, reading it in when it is not in a frame; fails when every frame is pinned. Reading
        a page that is not on the disk throws, with its frame already pinned. */
    method FetchPage(id: PageId) returns (r: FetchResult)
      requires Valid()
      modifies this, frames, replacer, replacer.items
      ensures store == old(store) && unsaved == old(unsaved) && Queued()
      ensures r.NoFrame? <==> id !in old(table) && old(AllPinned(S()))
      ensures r.NoFrame? ==> S() == old(S())
      ensures Valid() <==> r.NoFrame? || id in store
      ensures id in store && !r.NoFrame? ==> Valid() && Fetched(old(S()), S(), id) && r == Page(store[id])
      ensures id !in store && !r.NoFrame? ==> FetchedUnknown(old(S()), S(), id) && (r.Threw? <==> id !in old(disk))
    {
      ghost var s := S();
      if id in table {
        MappedFrame(s, id);
        Pin(s, id);
        var f := table[id];
        frames[f] := frames[f].(pins := frames[f].pins + 1);
        replacer.Pin(f);
        assert S() == Pinned(s, id);
        return Page(frames[f].data);
      }
      var f := FindFrame();
      if f == -1 {
        return NoFrame;
      }
      r := ReadInto(s, id, f);
    }

    /** The page goes into an empty frame, if the disk has it. */
    method ReadInto(ghost s: Pool, id: PageId, f: FrameId) returns (r: FetchResult)
      requires Ok(s) && Queued() && id !in s.table && Vacant(S(), f) && FoundIn(s, S(), f)
      modifies `table, frames, replacer, replacer.items
      ensures store == old(store) && unsaved == old(unsaved) && Queued() && !r.NoFrame?
      ensures id in store ==> Valid() && Fetched(s, S(), id) && r == Page(store[id])
      ensures id !in store ==> FetchedUnknown(s, S(), id) && (r.Threw? <==> id !in s.disk)
    {
      ghost var u := S();
      FoundKeeps(s, u, f);
      OnDisk(s, u, f, id);
      if id in store {
        Occupy(u, f, id);
      }
      r := LoadPage(f, id);
    }

    /** The page is pinned in the frame first; then the disk is read, which throws if it has no such page. */
    method LoadPage(f: FrameId, id: PageId) returns (r: FetchResult)
      requires Queued() && 0 <= f < frames.Length && frames[f] == EmptyFrame() && f !in replacer.queue
      modifies `table, frames, replacer, replacer.items
      ensures Queued() && r == if id in disk then Page(disk[id]) else Threw
      ensures S() == old(S()).(table := old(table)[id := f],
                               frames := old(frames[..])[f := Frame(id, 1, false, OnDiskOrBlank(disk, id))])
    {
      PutPage(f, id);
      if id !in disk {
        return Threw;
      }
      frames[f] := frames[f].(data := disk[id]);
      assert frames[..] == old(frames[..])[f := Frame(id, 1, false, disk[id])];
      r := Page(frames[f].data);
    }

    /** A frame that is nobody's takes a page id and a pin. */
    method PutPage(f: FrameId, id: PageId)
      requires Queued() && 0 <= f < frames.Length && frames[f] == EmptyFrame() && f !in replacer.queue
      modifies `table, frames, replacer, replacer.items
      ensures Queued()
      ensures S() == old(S()).(table := old(table)[id := f],
                               frames := old(frames[..])[f := Frame(id, 1, false, Blank())])
    {
      table := table[id := f];
      frames[f] := frames[f].(pageId := id, pins := 1);
      QueueWithout(replacer.queue, f);
      replacer.Pin(f);
      assert frames[..] == old(frames[..])[f := Frame(id, 1, false, Blank())];
    }

    /** Give up one pin. */
    method UnpinPage(id: PageId, dirty: bool) returns (ok: bool)
      requires Valid()
      requires id in unsaved && frames[table[id]].pins == 1 ==> dirty
      modifies this, frames, replacer, replacer.items
      ensures Valid() && store == old(store)
      ensures ok <==> id in old(table) && old(frames[table[id]].pins) > 0
      ensures if ok then Mapped(old(S()), id) && S() == Unpinned(old(S()), id, dirty) else S() == old(S())
      ensures ok ==> var f := old(table)[id];
        frames[f].pins == old(frames[f].pins) - 1 && (frames[f].dirty <==> old(frames[f].dirty) || dirty)
    {
      ghost var s := S();
      if id !in table {
        return false;
      }
      MappedFrame(s, id);
      var f := table[id];
      if frames[f].pins == 0 {
        return false;
      }
      PoolModel.Unpin(s, id, dirty);
      HasRoom(s, f);
      DropPin(id, f, dirty);
      ok := true;
    }

    /** One pin less on a frame, which waits for reuse when it was the last. */
    method DropPin(id: PageId, f: FrameId, dirty: bool)
      requires Queued() && id in table && f == table[id] && 0 <= f < frames.Length && frames[f].pageId == id
               && frames[f].pins > 0 && (frames[f].pins == 1 ==> |replacer.queue| < frames.Length)
      modifies `unsaved, `stamp, `clock, frames, replacer, replacer.items
      ensures Queued() && Mapped(old(S()), id) && S() == Unpinned(old(S()), id, dirty)
    {
      frames[f] := frames[f].(dirty := frames[f].dirty || dirty, pins := frames[f].pins - 1);
      unsaved := if dirty then unsaved - {id} else unsaved;
      if frames[f].pins == 0 {
        replacer.Unpin(f);
        stamp, clock := stamp[f := clock], clock + 1;
      }
      assert frames[..] == old(frames[..])[f := frames[f]];
    }

    /** A client changes a page it holds pinned. */
    method WriteData(id: PageId, data: Bytes)
      requires Valid() && id in table && frames[table[id]].pins > 0
      modifies this`store, this`unsaved, frames
      ensures Valid() && Mapped(old(S()), id) && S() == Written(old(S()), id, data) && store == old(store)[id := data]
    {
      ghost var s := S();
      MappedFrame(s, id);
      PoolModel.Write(s, id, data);
      frames[table[id]] := frames[table[id]].(data := data);
      store, unsaved := store[id := data], unsaved + {id};
      assert S() == Written(s, id, data);
    }

    method FlushPage(id: PageId) returns (ok: bool)
      requires Valid()
      modifies this`disk, frames
      ensures Valid() && store == old(store) && (ok <==> id in table)
      ensures if ok then Mapped(old(S()), id) && S() == Flushed(old(S()), id) && disk[id] == store[id]
              else S() == old(S())
    {
      ghost var s := S();
      if id == INVALID_PAGE_ID || id !in table {
        return false;
      }
      Flush(s, id);
      disk := disk[id := frames[table[id]].data];
      frames[table[id]] := frames[table[id]].(dirty := false);
      assert S() == Flushed(s, id);
      ok := true;
    }

    /** A new page of zeros under the next free id, pinned once. */
    method NewPage() returns (ok: bool, id: PageId)
      requires Valid()
      modifies this, frames, replacer, replacer.items
      ensures Valid() && unsaved == old(unsaved)
      ensures !ok <==> forall g :: 0 <= g < frames.Length ==> old(frames[g].pins) > 0
      ensures !ok ==> S() == old(S())
      ensures ok ==> id == old(nextId) && id !in old(store) && store == old(store)[id := Blank()] && nextId == id + 1
      ensures ok ==> |store[id]| == 32768 && forall i :: 0 <= i < 32768 ==> store[id][i] == 0
      ensures ok ==> Created(old(S()), S()) && id in table && 0 <= table[id] < frames.Length
                     && frames[table[id]].pins == 1
    {
      ghost var s := S();
      var f := FindFrame();
      if f == -1 {
        return false, INVALID_PAGE_ID;
      }
      FoundKeeps(s, S(), f);
      id := AllocatePage(f);
      ok := true;
    }

    /** The next page id goes to the disk as zeros and into an empty frame. */
    method AllocatePage(f: FrameId) returns (id: PageId)
      requires Queued() && Vacant(S(), f)
      modifies this, frames, replacer, replacer.items
      ensures Valid() && id == old(nextId) && S() == Occupied(Allocated(old(S())), f, id) && id !in old(store)
      ensures store == old(store)[id := Blank()] && nextId == id + 1 && unsaved == old(unsaved)
      ensures id in table && table[id] == f && frames[f].pins == 1
    {
      ghost var v := NewPageAt(S(), f);
      id := nextId;
      nextId := nextId + 1;
      disk, store := disk[id := frames[f].data], store[id := Blank()];
      PutPage(f, id);
      assert S() == v;
    }

    /** Drop a page that nobody holds. */
    method DeletePage(id: PageId) returns (ok: bool)
      requires Valid()
      modifies this, frames, replacer, replacer.items
      ensures Valid() && (!ok <==> id in old(table) && old(frames[table[id]].pins) > 0)
      ensures if ok && id in old(table) then Mapped(old(S()), id) && S() == Deleted(old(S()), id) else S() == old(S())
    {
      ghost var s := S();
      if id !in table {
        return true;
      }
      MappedFrame(s, id);
      var f := table[id];
      if frames[f].pins != 0 {
        return false;
      }
      PoolModel.Delete(s, id);
      table := table - {id};
      frames[f] := frames[f].(dirty := false, pageId := INVALID_PAGE_ID, pins := 0);
      free := free + [f];
      replacer.Pin(f);
      store := store - {id};
      assert S() == Deleted(s, id);
      ok := true;
    }

    /** Write every page in a frame to disk; afterwards the disk is what clients see. */
    method FlushAllPages()
      requires Valid()
      modifies this`disk, frames
      ensures Valid() && store == old(store)
      ensures forall id :: id in store ==> id in disk && disk[id] == store[id]
      ensures forall f :: 0 <= f < frames.Length && frames[f].pageId != INVALID_PAGE_ID ==> !frames[f].dirty
    {
      var ids := table.Keys;
      while ids != {}
        invariant Valid() && ids <= table.Keys
        invariant forall id :: id in table && id !in ids ==> Clean(S(), id)
        decreases ids
      {
        NotEmpty(ids);
        var id: PageId :| id in ids;
        ghost var s := S();
        var _ := FlushPage(id);
        OneMoreClean(s, id, ids);
        ids := ids - {id};
      }
      AllClean(S());
    }
  }

  /** Page id is on disk as clients see it, and its frame is clean. */
  ghost predicate Clean(s: Pool, id: PageId) {
    Mapped(s, id) && !s.frames[s.table[id]].dirty && id in s.disk && id in s.store && s.disk[id] == s.store[id]
  }

  lemma OneMoreClean(s: Pool, id: PageId, ids: set<PageId>)
    requires Ok(s) && Mapped(s, id) && forall x :: x in s.table && x !in ids ==> Clean(s, x)
    ensures forall x :: x in s.table && x !in ids - {id} ==> Clean(Flushed(s, id), x)
  {
    MappedFrame(s, id);
    forall x | x in s.table && x !in ids - {id} ensures Clean(Flushed(s, id), x) {
      MappedFrame(s, x);
      assert PageOk(s, x);
    }
  }

  lemma NotEmpty(s: set<PageId>)
    requires s != {}
    ensures exists id :: id in s
  {
    if !exists id :: id in s {
      Nobody(s);
    }
  }

  lemma Nobody(s: set<PageId>)
    requires !exists id :: id in s
    ensures s == {}
  {
    assert forall id: PageId :: id !in s;
  }

  lemma AllClean(s: Pool)
    requires Ok(s) && forall id :: id in s.table ==> Clean(s, id)
    ensures forall id :: id in s.store ==> id in s.disk && s.disk[id] == s.store[id]
    ensures forall f :: 0 <= f < |s.frames| && s.frames[f].pageId != INVALID_PAGE_ID ==> !s.frames[f].dirty
  {
    forall id | id in s.store ensures id in s.disk && s.disk[id] == s.store[id] {
      assert PageOk(s, id);
      assert id in s.table ==> Clean(s, id);
    }
    forall f | 0 <= f < |s.frames| && s.frames[f].pageId != INVALID_PAGE_ID ensures !s.frames[f].dirty {
      assert FrameOk(s, f) && Clean(s, s.frames[f].pageId);
    }
  }
}
