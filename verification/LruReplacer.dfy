/** The least-recently-used replacer. */
module Replacer {
  import Map = LinkedHashmap
  import DoubleLinks
  import HashBuckets

  type FrameId = int
  type Cells = DoubleLinks.Node<FrameId, FrameId>

  // ---------------------------------------------------------------- lists without repeats

  ghost predicate Distinct(s: seq<FrameId>) {
    forall i, j :: 0 <= i < j < |s| ==> s[i] != s[j]
  }

  /** The list without one of its members. */
  function Without(s: seq<FrameId>, x: FrameId): seq<FrameId> {
    if s == [] then [] else if s[0] == x then s[1..] else [s[0]] + Without(s[1..], x)
  }

  /** Later members of a list have later stamps. */
  ghost predicate InOrder(s: seq<FrameId>, stamp: map<FrameId, int>) {
    && (forall i :: 0 <= i < |s| ==> s[i] in stamp)
    && (forall i, j :: 0 <= i < j < |s| ==> stamp[s[i]] < stamp[s[j]])
  }

  lemma {:induction false} WithoutKeeps(s: seq<FrameId>, x: FrameId, stamp: map<FrameId, int>)
    requires InOrder(s, stamp)
    ensures InOrder(Without(s, x), stamp)
    ensures forall y :: y in Without(s, x) <==> y in s && y != x
    ensures |Without(s, x)| == |s| - if x in s then 1 else 0
  {
    if s != [] {
      var rest := Without(s[1..], x);
      assert InOrder(s[1..], stamp);
      WithoutKeeps(s[1..], x, stamp);
      assert forall y :: y in s <==> y == s[0] || y in s[1..];
      if s[0] == x {
        assert x !in s[1..];
      } else {
        forall i, j | 0 <= i < j < |[s[0]] + rest| ensures stamp[([s[0]] + rest)[i]] < stamp[([s[0]] + rest)[j]] {
          assert rest[j - 1] in s[1..];
          if i > 0 {
            assert ([s[0]] + rest)[i] == rest[i - 1];
          }
        }
      }
    }
  }

  lemma {:induction false} WithoutAt(s: seq<FrameId>, i: nat)
    requires Distinct(s) && i < |s|
    ensures Without(s, s[i]) == s[..i] + s[i + 1..]
  {
    if i > 0 {
      WithoutAt(s[1..], i - 1);
      assert s[1..][i - 1] == s[i];
      assert s[..i] == [s[0]] + s[1..][..i - 1];
    }
  }

  /** Taking a frame out of a queue it is not in changes nothing. */
  lemma {:induction false} QueueWithout(q: seq<FrameId>, f: FrameId)
    requires f !in q
    ensures Without(q, f) == q
  {
    if q != [] {
      QueueWithout(q[1..], f);
    }
  }

  // ---------------------------------------------------------------- frames in the map

  /** The keys of the map are the queue. */
  lemma FrameListed(nodes: map<int, Cells>, list: seq<int>, queue: seq<FrameId>, f: FrameId)
    requires HashBuckets.AllEntries(nodes, list) && Holds(Map.Items(nodes, list), queue)
    ensures Map.HasKey(Map.Items(nodes, list), f) <==> f in queue
  {
    var items := Map.Items(nodes, list);
    if f in queue {
      var i :| 0 <= i < |queue| && queue[i] == f;
      assert items[i].0 == f;
    }
    if Map.HasKey(items, f) {
      var i :| 0 <= i < |items| && items[i].0 == f;
      assert queue[i] == f;
    }
  }

  lemma QueueDistinct(nodes: map<int, Cells>, head: int, list: seq<int>, tail: int, queue: seq<FrameId>)
    requires HashBuckets.ListOk(nodes, head, list, tail) && Holds(Map.Items(nodes, list), queue)
    ensures Distinct(queue)
  {
    var items := Map.Items(nodes, list);
    forall i, j | 0 <= i < j < |queue| ensures queue[i] != queue[j] {
      assert items[i].0 == nodes[list[i]].cell.key && items[j].0 == nodes[list[j]].cell.key;
    }
  }

  lemma FramePlace(nodes: map<int, Cells>, head: int, list: seq<int>, tail: int, queue: seq<FrameId>, n: int,
                   f: FrameId)
    returns (i: nat)
    requires HashBuckets.ListOk(nodes, head, list, tail) && Holds(Map.Items(nodes, list), queue)
    requires n in list && HashBuckets.IsEntry(nodes, n) && nodes[n].cell.key == f
    ensures i < |list| && list[i] == n && i < |queue| && queue[i] == f && Distinct(queue) && n != tail
  {
    QueueDistinct(nodes, head, list, tail, queue);
    i :| 0 <= i < |list| && list[i] == n;
    assert Map.Items(nodes, list)[i].0 == nodes[list[i]].cell.key;
  }

  lemma FrameGone(items: seq<(FrameId, FrameId)>, queue: seq<FrameId>, was: seq<FrameId>, f: FrameId)
    requires Holds(items, queue) && queue == Without(was, f) && Distinct(was)
    ensures !Map.HasKey(items, f)
  {
    NoneLeft(was, f);
    forall i | 0 <= i < |items| ensures items[i].0 != f {
      assert queue[i] in queue;
    }
  }

  lemma {:induction false} NoneLeft(s: seq<FrameId>, f: FrameId)
    requires Distinct(s)
    ensures f !in Without(s, f)
  {
    if s != [] {
      NoneLeft(s[1..], f);
    }
  }

  /** The key that has just come in is the last. */
  lemma LastPlace(nodes: map<int, Cells>, head: int, list: seq<int>, tail: int, n: int, f: FrameId) returns (i: nat)
    requires HashBuckets.ListOk(nodes, head, list, tail) && n in list && HashBuckets.IsEntry(nodes, n)
             && nodes[n].cell.key == f
    requires var items := Map.Items(nodes, list); items[|items| - 1].0 == f
    ensures i == |list| - 1 && list[i] == n
  {
    i :| 0 <= i < |list| && list[i] == n;
    var last := |list| - 1;
    assert Map.Items(nodes, list)[last].0 == nodes[list[last]].cell.key;
  }

  // ---------------------------------------------------------------- the replacer

  function FrameHash(f: FrameId): nat {
    if f < 0 then -f else f
  }

  /** Each frame of the queue maps to itself, in order. */
  ghost predicate Holds(items: seq<(FrameId, FrameId)>, queue: seq<FrameId>) {
    |items| == |queue| && forall i :: 0 <= i < |items| ==> items[i] == (queue[i], queue[i])
  }

  /** Frames that may be reused, the one unpinned longest ago first, in a hash map that remembers
      insertion order. */
  class LruReplacer {
    const numPages: nat
    const items: Map.LinkedHashmap<FrameId, FrameId>
    ghost var queue: seq<FrameId>

    ghost predicate Valid()
      reads this, items
    {
      items.Valid() && Holds(items.Contents(), queue)
    }

    constructor (numPages: nat)
      ensures Valid() && fresh(items) && this.numPages == numPages && queue == []
    {
      this.numPages := numPages;
      items := new Map.LinkedHashmap(FrameHash);
      queue := [];
    }

    /** Gives up the frame that has waited longest. */
    method Victim() returns (found: bool, f: FrameId)
      requires Valid()
      modifies this, items
      ensures Valid() && (found <==> old(queue) != [])
      ensures if found then f == old(queue)[0] && queue == old(queue)[1..] else queue == old(queue)
    {
      if items.sum == 0 {
        return false, -1;
      }
      var n := items.Begin();
      assert items.Contents()[0] == (queue[0], queue[0]);
      f := items.nodes[n].cell.value;
      found := items.Erase(items, n, 0);
      queue := queue[1..];
    }

    /** A frame in use again does not wait. */
    method Pin(f: FrameId)
      requires Valid()
      modifies this, items
      ensures Valid() && queue == Without(old(queue), f)
    {
      var n := items.Find(f);
      FrameListed(items.nodes, items.list, queue, f);
      if n != DoubleLinks.NIL {
        ghost var i := FramePlace(items.nodes, items.head, items.list, items.tail, queue, n, f);
        WithoutAt(queue, i);
        var _ := items.Erase(items, n, i);
        queue := Without(queue, f);
      } else {
        QueueWithout(queue, f);
      }
    }

    /** A frame given up waits behind all others. */
    method Unpin(f: FrameId)
      requires Valid()
      modifies this, items
      ensures Valid()
      ensures queue == if |old(queue)| >= numPages then old(queue) else Without(old(queue), f) + [f]
    {
      if items.sum >= numPages {
        return;
      }
      Pin(f);
      FrameGone(items.Contents(), queue, old(queue), f);
      var n := items.At(f, 0);
      ghost var i := LastPlace(items.nodes, items.head, items.list, items.tail, n, f);
      items.Assign(n, f, i);
      queue := queue + [f];
    }
  }
}
