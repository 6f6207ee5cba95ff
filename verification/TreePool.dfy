/** How a tree operation uses the buffer pool: which pages it holds pinned, and which pages it
    has written without having told the pool so. */
module TreePool {
  import opened TreeModel

  /** Frames the tree needs: the header, three pages of a rebalancing step, and one child. */
  const FRAMES_NEEDED := 5

  ghost function Pinned(pins: multiset<PageId>): set<PageId> {
    set p | p in pins
  }

  /** Page `id` is pinned already or there is a frame left for it. */
  ghost predicate Room(pins: multiset<PageId>, id: PageId, frames: nat) {
    |Pinned(pins) + {id}| <= frames
  }

  datatype Pool = Pool(frames: nat, pins: multiset<PageId>, unsaved: set<PageId>) {
    /** Fetching a page succeeds because a frame is available. */
    function Pin(id: PageId): Pool
      requires Room(pins, id, frames)
    {
      this.(pins := pins + multiset{id})
    }

    /** A pinned page may be written. */
    function Wrote(id: PageId): Pool
      requires id in pins
    {
      this.(unsaved := unsaved + {id})
    }

    /** A written page must be handed back as dirty. */
    function Unpin(id: PageId, dirty: bool): Pool
      requires id in pins && (id in unsaved ==> dirty)
    {
      this.(pins := pins - multiset{id}, unsaved := if dirty then unsaved - {id} else unsaved)
    }
  }

  /** Between operations only the header page is pinned and nothing is unsaved. */
  function Resting(frames: nat): Pool {
    Pool(frames, multiset{HEADER_PAGE_ID}, {})
  }

  /** Before the tree comes, the header page has just been made and written. */
  function Fresh(frames: nat): Pool {
    Pool(frames, multiset{HEADER_PAGE_ID}, {HEADER_PAGE_ID})
  }

  // ---------------------------------------------------------------- page traffic

  /** What a client asks of the buffer pool. */
  datatype Traffic =
    | Fetch(id: PageId)
    | New
    | Write(id: PageId)
    | Unpin(id: PageId, dirty: bool)
    | Delete(id: PageId)

  /** A client's books: its use of the pool, the pages it knows of and the id the next one will get. */
  datatype Books = Books(pool: Pool, known: set<PageId>, nextId: PageId)

  /** What a client may ask for: a page there is, with room to pin it; a write or an unpin of a page it
      holds, which reports what was written; the end of a page it does not hold. */
  ghost predicate Allowed(b: Books, e: Traffic) {
    match e
    case Fetch(id) => id in b.known && Room(b.pool.pins, id, b.pool.frames)
    case New => Room(b.pool.pins, b.nextId, b.pool.frames)
    case Write(id) => id in b.pool.pins
    case Unpin(id, dirty) => id in b.pool.pins && (id in b.pool.unsaved ==> dirty)
    case Delete(id) => id !in b.pool.pins
  }

  ghost function After(b: Books, e: Traffic): Books
    requires Allowed(b, e)
  {
    match e
    case Fetch(id) => b.(pool := b.pool.Pin(id))
    case New => Books(b.pool.Pin(b.nextId), b.known + {b.nextId}, b.nextId + 1)
    case Write(id) => b.(pool := b.pool.Wrote(id))
    case Unpin(id, dirty) => b.(pool := b.pool.Unpin(id, dirty))
    case Delete(id) => b.(known := b.known - {id})
  }

  /** Step i of the traffic is allowed and leads from one state of the books to the next. */
  ghost predicate StepOk(log: seq<Traffic>, trail: seq<Books>, i: nat) {
    i < |log| && i + 1 < |trail| && Allowed(trail[i], log[i]) && trail[i + 1] == After(trail[i], log[i])
  }

  /** A course of traffic, all of it allowed, and the states of the books on the way. */
  ghost predicate Course(log: seq<Traffic>, trail: seq<Books>) {
    |trail| == |log| + 1 && forall i {:trigger StepOk(log, trail, i)} :: 0 <= i < |log| ==> StepOk(log, trail, i)
  }

  lemma CourseOn(log: seq<Traffic>, trail: seq<Books>, e: Traffic)
    requires Course(log, trail) && Allowed(trail[|log|], e)
    ensures Course(log + [e], trail + [After(trail[|log|], e)])
  {
    var more, on := log + [e], trail + [After(trail[|log|], e)];
    forall i | 0 <= i < |more| ensures StepOk(more, on, i) {
      assert i < |log| ==> StepOk(log, trail, i);
    }
  }

  lemma {:induction false} ListBounds(s: set<PageId>, list: seq<PageId>)
    requires forall p :: p in s ==> p in list
    ensures |s| <= |list|
    decreases |list|
  {
    if list == [] {
      assert forall p: PageId :: p !in s;
      assert s == {};
    } else {
      var last := |list| - 1;
      assert forall p :: p in s - {list[last]} ==> p in list[..last];
      ListBounds(s - {list[last]}, list[..last]);
    }
  }

  /** With the header and at most three more pages pinned there is room for another one. */
  lemma RoomFor(a: PageId, b: PageId, c: PageId, id: PageId, frames: nat)
    requires frames >= FRAMES_NEEDED
    ensures Room(multiset{HEADER_PAGE_ID}, id, frames)
    ensures Room(multiset{HEADER_PAGE_ID, a}, id, frames)
    ensures Room(multiset{HEADER_PAGE_ID, a, b}, id, frames)
    ensures Room(multiset{HEADER_PAGE_ID, a, b, c}, id, frames)
    ensures Room(multiset{HEADER_PAGE_ID, a, b, c, c}, id, frames)
  {
    var list := [HEADER_PAGE_ID, a, b, c, id];
    ListBounds(Pinned(multiset{HEADER_PAGE_ID}) + {id}, list);
    ListBounds(Pinned(multiset{HEADER_PAGE_ID, a}) + {id}, list);
    ListBounds(Pinned(multiset{HEADER_PAGE_ID, a, b}) + {id}, list);
    ListBounds(Pinned(multiset{HEADER_PAGE_ID, a, b, c}) + {id}, list);
    ListBounds(Pinned(multiset{HEADER_PAGE_ID, a, b, c, c}) + {id}, list);
  }

  // The same, for one state at a time.

  lemma RoomForFirst(id: PageId, frames: nat)
    requires frames >= FRAMES_NEEDED
    ensures Room(multiset{HEADER_PAGE_ID}, id, frames)
  {
    RoomFor(id, id, id, id, frames);
  }

  lemma RoomForSecond(a: PageId, id: PageId, frames: nat)
    requires frames >= FRAMES_NEEDED
    ensures Room(multiset{HEADER_PAGE_ID, a}, id, frames)
  {
    RoomFor(a, a, a, id, frames);
  }

  lemma RoomForThird(a: PageId, b: PageId, id: PageId, frames: nat)
    requires frames >= FRAMES_NEEDED
    ensures Room(multiset{HEADER_PAGE_ID, a, b}, id, frames)
  {
    RoomFor(a, b, b, id, frames);
  }

  lemma RoomForFourth(a: PageId, b: PageId, c: PageId, id: PageId, frames: nat)
    requires frames >= FRAMES_NEEDED
    ensures Room(multiset{HEADER_PAGE_ID, a, b, c}, id, frames)
  {
    RoomFor(a, b, c, id, frames);
  }

  lemma RoomForChild(a: PageId, b: PageId, c: PageId, id: PageId, frames: nat)
    requires frames >= FRAMES_NEEDED
    ensures Room(multiset{HEADER_PAGE_ID, a, b, c, c}, id, frames)
  {
    RoomFor(a, b, c, id, frames);
  }

  // Sums of small pin multisets.

  lemma Add1(p: PageId)
    ensures multiset{HEADER_PAGE_ID} + multiset{p} == multiset{HEADER_PAGE_ID, p}
  {
  }

  lemma Sub1(p: PageId)
    ensures multiset{HEADER_PAGE_ID, p} - multiset{p} == multiset{HEADER_PAGE_ID}
  {
  }

  lemma Add2(p: PageId, q: PageId)
    ensures multiset{HEADER_PAGE_ID, p} + multiset{q} == multiset{HEADER_PAGE_ID, p, q}
  {
  }

  lemma Sub2(p: PageId, q: PageId)
    ensures multiset{HEADER_PAGE_ID, p, q} - multiset{p} == multiset{HEADER_PAGE_ID, q}
  {
  }

  lemma Add3(p: PageId, q: PageId, x: PageId)
    ensures multiset{HEADER_PAGE_ID, p, q} + multiset{x} == multiset{HEADER_PAGE_ID, p, q, x}
  {
  }

  lemma Sub3(p: PageId, q: PageId, x: PageId)
    ensures multiset{HEADER_PAGE_ID, p, q, x} - multiset{p} == multiset{HEADER_PAGE_ID, q, x}
  {
  }

  lemma Turn3(p: PageId, q: PageId, x: PageId)
    ensures multiset{HEADER_PAGE_ID, p, q, x} == multiset{HEADER_PAGE_ID, x, p, q}
  {
  }

  lemma Add4(p: PageId, q: PageId, x: PageId)
    ensures multiset{HEADER_PAGE_ID, p, q, x} + multiset{x} == multiset{HEADER_PAGE_ID, p, q, x, x}
  {
  }

  lemma Sub4(p: PageId, q: PageId, x: PageId)
    ensures multiset{HEADER_PAGE_ID, p, q, x, x} - multiset{p} == multiset{HEADER_PAGE_ID, q, x, x}
  {
  }

  lemma Mid3(p: PageId, q: PageId, x: PageId)
    ensures multiset{HEADER_PAGE_ID, p, q, x} - multiset{q} == multiset{HEADER_PAGE_ID, p, x}
  {
  }

  lemma Again(pins: multiset<PageId>, p: PageId)
    ensures pins + multiset{p} - multiset{p} == pins
  {
  }
}
