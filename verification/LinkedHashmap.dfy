/** The hash map that remembers insertion order. Every node hangs in the chain of its bucket and in
    the list of all entries; both are kept by rewriting the nodes' links. */
module LinkedHashmap {
  import opened DoubleLinks
  import opened HashBuckets

  const INIT_SIZE := 8192

  ghost function Elems(s: seq<int>): set<int> {
    set x | x in s
  }

  /** What the map holds, in the order it came in. */
  ghost function Items<K(!new), V(!new)>(nodes: map<int, Node<K, V>>, list: seq<int>): seq<(K, V)>
    requires AllEntries(nodes, list)
  {
    seq(|list|, i requires 0 <= i < |list| => (nodes[list[i]].cell.key, nodes[list[i]].cell.value))
  }

  ghost predicate HasKey<K(!new), V(!new)>(items: seq<(K, V)>, key: K) {
    exists i :: 0 <= i < |items| && items[i].0 == key
  }

  class LinkedHashmap<K(==, !new), V(!new)> {
    const hash: K -> nat
    var capacity: nat
    var sum: nat
    /** The sentinels of the buckets. */
    var table: seq<int>
    var head: int
    var tail: int
    var nodes: map<int, Node<K, V>>
    /** The next address handed out. */
    var next: int
    ghost var list: seq<int>
    ghost var chains: seq<seq<int>>

    /** Both kinds of links say what the ghost sequences say. */
    ghost predicate Threaded()
      reads this
    {
      && ListOk(nodes, head, list, tail) && Buckets(nodes, table, chains, Elems(list), hash)
      && capacity == |table| && sum == |list| && next > 0 && forall n :: n in nodes ==> n < next
    }

    ghost predicate Valid()
      reads this
    {
      Threaded() && sum <= capacity
    }

    ghost function Contents(): seq<(K, V)>
      reads this
      requires Threaded()
    {
      Items(nodes, list)
    }

    constructor (hash: K -> nat)
      ensures Valid() && Contents() == [] && this.hash == hash
    {
      this.hash := hash;
      capacity, sum := INIT_SIZE, 0;
      head, tail, next := 1, 2, 3;
      nodes := map[1 := Node(Sentinel, NIL, NIL, NIL, 2), 2 := Node(Sentinel, NIL, NIL, 1, NIL)];
      list := [];
      new;
      StartsLinked(nodes);
      table := NewTable(INIT_SIZE);
      chains := NoChains(INIT_SIZE);
      assert Elems([]) == {};
    }

    /** A table of sentinels. */
    method NewTable(size: nat) returns (temp: seq<int>)
      requires size > 0 && NIL !in nodes && next > 0 && forall n :: n in nodes ==> n < next
      modifies `nodes, `next
      ensures |temp| == size && next > 0 && (forall n :: n in nodes ==> n < next)
      ensures SameHash(old(nodes), nodes) && SameList(old(nodes), nodes)
      ensures Buckets(nodes, temp, NoChains(size), {}, hash)
    {
      var base := next;
      temp := [];
      for i := 0 to size
        invariant |temp| == i && next == base + i && forall n :: n in nodes ==> n < next
        invariant SameHash(old(nodes), nodes) && SameList(old(nodes), nodes)
        invariant forall j :: 0 <= j < i ==>
          temp[j] == base + j && temp[j] in nodes && nodes[temp[j]] == Node(Sentinel, NIL, NIL, NIL, NIL)
      {
        nodes := nodes[next := Node(Sentinel, NIL, NIL, NIL, NIL)];
        temp := temp + [next];
        next := next + 1;
      }
      EmptyBuckets(nodes, temp, hash);
    }

    /** The node of the key, NIL if there is none. */
    method Find(key: K) returns (n: int)
      requires Threaded()
      ensures n == NIL ==> !HasKey(Contents(), key)
      ensures n != NIL ==> n in list && IsEntry(nodes, n) && nodes[n].cell.key == key
    {
      var h := hash(key) % capacity;
      ghost var c, k := chains[h], 0;
      FirstOf(nodes, table, chains, Elems(list), hash, h);
      n := nodes[table[h]].nextHash;
      while n != NIL
        invariant 0 <= k <= |c| && (if k == |c| then n == NIL else n == c[k] && n != NIL)
        invariant forall i :: 0 <= i < k ==> IsEntry(nodes, c[i]) && nodes[c[i]].cell.key != key
        decreases |c| - k
      {
        NextOf(nodes, table, chains, Elems(list), hash, h, k);
        if nodes[n].cell.key == key {
          return;
        }
        n := nodes[n].nextHash;
        k := k + 1;
      }
      NotElsewhere(nodes, table, chains, list, hash, key, h);
    }

    /** Links n in right after another node of a chain. */
    method InsertAfterHash(n: int, prev: int)
      requires NIL !in nodes && n in nodes && prev in nodes && n != prev && nodes[prev].nextHash != n
               && nodes[prev].nextHash != prev
      modifies `nodes
      ensures SplicedIn(old(nodes), nodes, Hash, prev, n, Next(old(nodes)[prev], Hash)) && NIL !in nodes
    {
      var next := nodes[prev].nextHash;
      SpliceFacts(nodes, Hash, prev, n, next);
      nodes := WithPrev(nodes, next, Hash, n);
      nodes := WithNext(nodes, n, Hash, next);
      nodes := WithNext(nodes, prev, Hash, n);
      nodes := WithPrev(nodes, n, Hash, prev);
    }

    /** Links n in right before another node of the list. */
    method InsertBeforeLink(n: int, next: int)
      requires NIL !in nodes && n in nodes && next in nodes && n != next && nodes[next].prevList != n
               && nodes[next].prevList != next
      modifies `nodes
      ensures SplicedIn(old(nodes), nodes, List, Prev(old(nodes)[next], List), n, next) && NIL !in nodes
    {
      var prev := nodes[next].prevList;
      nodes := WithNext(nodes, prev, List, n);
      nodes := WithPrev(nodes, n, List, prev);
      nodes := WithPrev(nodes, next, List, n);
      nodes := WithNext(nodes, n, List, next);
    }

    /** A new node at the front of its chain and at the end of the list. */
    method Insert(key: K, value: V) returns (n: int)
      requires Threaded() && !HasKey(Contents(), key)
      modifies `nodes, `next, `list, `chains, `sum
      ensures Threaded() && sum == old(sum) + 1 && list == old(list) + [n]
      ensures Contents() == old(Contents()) + [(key, value)] && IsEntry(nodes, n) && nodes[n].cell.key == key
    {
      ghost var o := nodes;
      n := Allocate(key, value);
      Hang(n, hash(key) % capacity);
      AppendItem(o, nodes, list, n);
      list := list + [n];
      sum := sum + 1;
    }

    /** A node that hangs nowhere yet. */
    method Allocate(key: K, value: V) returns (n: int)
      requires Threaded() && !HasKey(Contents(), key)
      modifies `nodes, `next
      ensures n == old(next) && next == n + 1 && nodes == old(nodes)[n := Node(Entry(key, value), NIL, NIL, NIL, NIL)]
      ensures ListOk(nodes, head, list, tail) && Buckets(nodes, table, chains, Elems(list), hash)
      ensures n !in old(nodes) && n !in list && n != head && n != tail && (forall m :: m in nodes ==> m < next)
      ensures forall i :: 0 <= i < |list| ==> IsEntry(nodes, list[i]) && nodes[list[i]].cell.key != key
    {
      n := next;
      next := next + 1;
      ghost var o := nodes;
      nodes := nodes[n := Node(Entry(key, value), NIL, NIL, NIL, NIL)];
      Allocated(o, nodes, head, list, tail, table, chains, hash, n, key);
    }

    method Hang(n: int, h: int)
      requires ListOk(nodes, head, list, tail) && Buckets(nodes, table, chains, Elems(list), hash)
      requires IsEntry(nodes, n) && n !in list && 0 <= h < |table| && h == BucketOf(hash, nodes[n], |table|)
      requires n != head && n != tail && forall i :: 0 <= i < |list| ==> nodes[list[i]].cell.key != nodes[n].cell.key
      modifies `nodes, `chains
      ensures ListOk(nodes, head, list + [n], tail) && Buckets(nodes, table, chains, Elems(list) + {n}, hash)
      ensures CellsKept(old(nodes), nodes) && nodes.Keys == old(nodes).Keys
    {
      ghost var o := nodes;
      LinkHash(n, h);
      CellsAlong(o, nodes, list);
      LinkList(n);
    }

    method LinkHash(n: int, h: int)
      requires ListOk(nodes, head, list, tail) && Buckets(nodes, table, chains, Elems(list), hash)
      requires IsEntry(nodes, n) && n !in list && 0 <= h < |table| && h == BucketOf(hash, nodes[n], |table|)
      modifies `nodes, `chains
      ensures ListOk(nodes, head, list, tail) && Buckets(nodes, table, chains, Elems(list) + {n}, hash)
      ensures CellsKept(old(nodes), nodes) && nodes.Keys == old(nodes).Keys
    {
      ghost var o := nodes;
      FrontFree(nodes, table, chains, Elems(list), hash, h, n);
      InsertAfterHash(n, table[h]);
      PushFront(o, nodes, table, chains, Elems(list), hash, n, h);
      ListStill(o, nodes, head, list, tail);
      chains := chains[h := [n] + chains[h]];
    }

    method LinkList(n: int)
      requires ListOk(nodes, head, list, tail) && Buckets(nodes, table, chains, Elems(list) + {n}, hash)
      requires IsEntry(nodes, n) && n !in list && n != head && n != tail
      requires forall i :: 0 <= i < |list| ==> nodes[list[i]].cell.key != nodes[n].cell.key
      modifies `nodes
      ensures ListOk(nodes, head, list + [n], tail) && Buckets(nodes, table, chains, Elems(list) + {n}, hash)
      ensures CellsKept(old(nodes), nodes) && nodes.Keys == old(nodes).Keys
    {
      ghost var o := nodes;
      EndFree(nodes, head, list, tail, n);
      InsertBeforeLink(n, tail);
      Append(o, nodes, head, list, tail, n);
      BucketsStill(o, nodes, table, chains, Elems(list) + {n}, hash);
    }

    // -------------------------------------------------------------- rehashing

    /** A table of another size: every node of the list goes to the front of its new chain. */
    method Rehash(size: nat)
      requires Threaded() && size > 0
      modifies `nodes, `next, `table, `chains, `capacity
      ensures Threaded() && capacity == size && Contents() == old(Contents())
    {
      ghost var o := nodes;
      var temp := NewTable(size);
      ListStill(o, nodes, head, list, tail);
      chains := NoChains(size);
      table := temp;
      RequeueAll(size);
      capacity := size;
      SameItems(o, nodes, list);
    }

    /** Walks the list to hang every node in its new chain. */
    method RequeueAll(size: nat)
      requires ListOk(nodes, head, list, tail) && Buckets(nodes, table, chains, {}, hash) && |table| == size
      modifies `nodes, `chains
      ensures ListOk(nodes, head, list, tail) && Buckets(nodes, table, chains, Elems(list), hash)
      ensures CellsKept(old(nodes), nodes) && nodes.Keys == old(nodes).Keys
    {
      ghost var i := 0;
      WalkStarts(nodes, head, list, tail);
      var curr := nodes[head].nextList;
      assert Elems(list[..0]) == {};
      while curr != tail
        invariant 0 <= i <= |list| && curr == (list + [tail])[i] && |table| == size
        invariant ListOk(nodes, head, list, tail) && Buckets(nodes, table, chains, Elems(list[..i]), hash)
        invariant CellsKept(old(nodes), nodes) && nodes.Keys == old(nodes).Keys
        decreases |list| - i
      {
        WalkOn(nodes, head, list, tail, i);
        Requeue(curr, i, size);
        WalkOn(nodes, head, list, tail, i);
        curr := nodes[curr].nextList;
        i := i + 1;
      }
      WalkEnds(nodes, head, list, tail, i);
      assert list[..i] == list;
    }

    /** One node of the list moves to its new chain. */
    method Requeue(curr: int, ghost i: nat, size: nat)
      requires i < |list| && curr == list[i] && |table| == size
      requires ListOk(nodes, head, list, tail) && Buckets(nodes, table, chains, Elems(list[..i]), hash)
      modifies `nodes, `chains
      ensures ListOk(nodes, head, list, tail) && Buckets(nodes, table, chains, Elems(list[..i + 1]), hash)
      ensures CellsKept(old(nodes), nodes) && nodes.Keys == old(nodes).Keys
    {
      ghost var o, l := nodes, Elems(list[..i]);
      NotYet(list, i, head, tail, nodes);
      nodes := nodes[curr := nodes[curr].(prevHash := NIL, nextHash := NIL)];
      BucketsWithout(o, nodes, table, chains, l, hash, curr);
      ListStill(o, nodes, head, list, tail);
      ghost var o1 := nodes;
      var h := hash(nodes[curr].cell.key) % size;
      FrontFree(nodes, table, chains, l, hash, h, curr);
      InsertAfterHash(curr, table[h]);
      PushFront(o1, nodes, table, chains, l, hash, curr, h);
      ListStill(o1, nodes, head, list, tail);
      chains := chains[h := [curr] + chains[h]];
    }

    /** Twice the buckets once there are more nodes than buckets. */
    method Expand()
      requires Threaded() && sum <= capacity + 1
      modifies `nodes, `next, `table, `chains, `capacity
      ensures Valid() && Contents() == old(Contents())
      ensures capacity == if old(sum) == old(capacity) + 1 then 2 * old(capacity) else old(capacity)
    {
      if sum <= capacity {
        return;
      }
      Rehash(capacity * 2);
    }

    /** Half the buckets once three quarters of many are more than needed. */
    method Shrink()
      requires Valid()
      modifies `nodes, `next, `table, `chains, `capacity
      ensures Valid() && Contents() == old(Contents())
      ensures capacity == if 4 * old(sum) < old(capacity) && old(sum) > 8192 then old(capacity) / 2 else old(capacity)
    {
      if sum * 4 >= capacity || sum <= INIT_SIZE {
        return;
      }
      Rehash(capacity / 2);
    }

    // -------------------------------------------------------------- the map's operations

    /** Adds a pair unless the key is there. */
    method InsertPair(key: K, value: V) returns (n: int, added: bool)
      requires Valid()
      modifies this
      ensures Valid() && added == !old(HasKey(Contents(), key)) && n in list
      ensures Contents() == if added then old(Contents()) + [(key, value)] else old(Contents())
    {
      n := Find(key);
      added := n == NIL;
      KnownKey(nodes, list, n);
      if n == NIL {
        n := Insert(key, value);
        Expand();
      }
    }

    /** The first node, or the end. */
    method Begin() returns (n: int)
      requires Threaded()
      ensures if list == [] then n == tail else n == list[0] && n != tail && IsEntry(nodes, n)
    {
      WalkStarts(nodes, head, list, tail);
      if list != [] {
        WalkOn(nodes, head, list, tail, 0);
      }
      n := nodes[head].nextList;
    }

    /** operator[]: the node of the key, which comes in with the default value if it is new. */
    method At(key: K, default: V) returns (n: int)
      requires Valid()
      modifies this
      ensures Valid() && n in list && IsEntry(nodes, n) && nodes[n].cell.key == key
      ensures Contents() == if old(HasKey(Contents(), key)) then old(Contents()) else old(Contents()) + [(key, default)]
    {
      n := Find(key);
      KnownKey(nodes, list, n);
      if n == NIL {
        n := Insert(key, default);
        ghost var o, l := nodes, list;
        Expand();
        KeyKept(o, nodes, l, n);
      }
    }

    /** Writing through the reference that operator[] returns. */
    method Assign(n: int, value: V, ghost i: nat)
      requires Valid() && i < |list| && list[i] == n
      modifies `nodes
      ensures Valid() && Contents() == old(Contents())[i := (old(Contents())[i].0, value)]
    {
      ghost var o := nodes;
      Known(nodes, list, n, i);
      nodes := nodes[n := nodes[n].(cell := Entry(nodes[n].cell.key, value))];
      Rewritten(o, nodes, head, list, tail, table, chains, hash, n);
      assert Items(nodes, list) == Items(o, list)[i := (Items(o, list)[i].0, value)];
    }

    /** Unlinks a node from the list and from its chain, through its own links. */
    method Delete(n: int, ghost i: nat)
      requires ListOk(nodes, head, list, tail) && Buckets(nodes, table, chains, Elems(list), hash) && i < |list|
               && list[i] == n
      modifies `nodes, `list, `chains
      ensures list == old(list)[..i] + old(list)[i + 1..]
      ensures ListOk(nodes, head, list, tail) && Buckets(nodes, table, chains, Elems(list), hash)
      ensures CellsKept(old(nodes), nodes) && nodes.Keys == old(nodes).Keys
    {
      ghost var l := Elems(list);
      UnlinkList(n, i);
      UnlinkHash(n, l);
    }

    method UnlinkList(n: int, ghost i: nat)
      requires ListOk(nodes, head, list, tail) && Buckets(nodes, table, chains, Elems(list), hash) && i < |list|
               && list[i] == n
      modifies `nodes, `list
      ensures list == old(list)[..i] + old(list)[i + 1..] && Elems(list) == Elems(old(list)) - {n}
              && n in Elems(old(list))
      ensures ListOk(nodes, head, list, tail) && Buckets(nodes, table, chains, Elems(old(list)), hash)
      ensures CellsKept(old(nodes), nodes) && nodes.Keys == old(nodes).Keys
    {
      ghost var o := nodes;
      Known(nodes, list, n, i);
      ListNeighbours(nodes, head, list, tail, i);
      UnspliceFacts(nodes, List, n);
      var prev, next := nodes[n].prevList, nodes[n].nextList;
      nodes := WithNext(nodes, prev, List, next);
      nodes := WithPrev(nodes, next, List, prev);
      TakeOut(o, nodes, head, list, tail, i);
      BucketsStill(o, nodes, table, chains, Elems(list), hash);
      Shortened(o, head, list, tail, i);
      list := list[..i] + list[i + 1..];
    }

    method UnlinkHash(n: int, ghost l: set<int>)
      requires ListOk(nodes, head, list, tail) && Buckets(nodes, table, chains, l, hash) && n in l
      modifies `nodes, `chains
      ensures ListOk(nodes, head, list, tail) && Buckets(nodes, table, chains, l - {n}, hash)
      ensures CellsKept(old(nodes), nodes) && nodes.Keys == old(nodes).Keys
    {
      ghost var o := nodes;
      assert IsEntry(nodes, n);
      ghost var b := hash(nodes[n].cell.key) % |table|;
      ghost var k := PlaceInChain(nodes, table, chains, l, hash, n, b);
      UnspliceFacts(nodes, Hash, n);
      var prev, next := nodes[n].prevHash, nodes[n].nextHash;
      nodes := WithNext(nodes, prev, Hash, next);
      nodes := WithPrev(nodes, next, Hash, prev);
      PullOut(o, nodes, table, chains, l, hash, b, k);
      ListStill(o, nodes, head, list, tail);
      chains := chains[b := chains[b][..k] + chains[b][k + 1..]];
    }

    /** Takes the entry at an iterator out; the end and an iterator of another map are refused. */
    method Erase(source: LinkedHashmap<K, V>, n: int, ghost i: nat) returns (ok: bool)
      requires Valid() && (source == this ==> n == tail || (i < |list| && list[i] == n))
      modifies this
      ensures Valid() && ok == (source == this && n != old(tail))
      ensures Contents() == if ok then old(Contents())[..i] + old(Contents())[i + 1..] else old(Contents())
    {
      if n == tail || source != this {
        return false;
      }
      ghost var o, l := nodes, list;
      Delete(n, i);
      sum := sum - 1;
      CellsAlong(o, nodes, l);
      assert Items(nodes, list) == Items(o, l)[..i] + Items(o, l)[i + 1..];
      Shrink();
      ok := true;
    }
  }

  // ---------------------------------------------------------------- one node

  lemma Known<K(!new), V(!new)>(nodes: map<int, Node<K, V>>, list: seq<int>, n: int, i: nat)
    requires AllEntries(nodes, list) && i < |list| && list[i] == n
    ensures IsEntry(nodes, n) && n in list && n in Elems(list)
  {
  }

  lemma KeyKept<K(!new), V(!new)>(o: map<int, Node<K, V>>, u: map<int, Node<K, V>>, list: seq<int>, n: int)
    requires n in list && AllEntries(o, list) && AllEntries(u, list) && Items(u, list) == Items(o, list)
    ensures IsEntry(u, n) && IsEntry(o, n) && u[n].cell.key == o[n].cell.key
  {
    var i :| 0 <= i < |list| && list[i] == n;
    assert Items(u, list)[i] == Items(o, list)[i];
  }

  lemma Rewritten<K(!new), V(!new)>(o: map<int, Node<K, V>>, u: map<int, Node<K, V>>, head: int, list: seq<int>,
                                    tail: int,
                                    table: seq<int>, chains: seq<seq<int>>, hash: K -> nat, n: int)
    requires ListOk(o, head, list, tail) && Buckets(o, table, chains, Elems(list), hash) && IsEntry(o, n)
    requires IsEntry(u, n) && u == o[n := o[n].(cell := u[n].cell)] && u[n].cell.key == o[n].cell.key
    ensures ListOk(u, head, list, tail) && Buckets(u, table, chains, Elems(list), hash)
  {
    var s := [head] + list + [tail];
    forall i | 0 <= i < |s| ensures SameLinks(o, u, List, s[i]) {
      assert LinkAt(o, List, s, i);
    }
    StillLinked(o, u, List, s);
    forall h | 0 <= h < |table| ensures BucketOk(u, table, chains, Elems(list), hash, h) {
      assert BucketOk(o, table, chains, Elems(list), hash, h);
      var c := [table[h]] + chains[h];
      forall i | 0 <= i < |c| ensures SameLinks(o, u, Hash, c[i]) {
        assert LinkAt(o, Hash, c, i);
      }
      StillLinked(o, u, Hash, c);
    }
  }

  lemma ListNeighbours<K(!new), V(!new)>(nodes: map<int, Node<K, V>>, head: int, list: seq<int>, tail: int, i: nat)
    requires ListOk(nodes, head, list, tail) && i < |list|
    ensures var n := list[i]; n in nodes && nodes[n].prevList != nodes[n].nextList
  {
    var s := [head] + list + [tail];
    assert LinkAt(nodes, List, s, i + 1);
  }

  lemma PlaceInChain<K(!new), V(!new)>(nodes: map<int, Node<K, V>>, table: seq<int>, chains: seq<seq<int>>,
                                       list: set<int>,
                                       hash: K -> nat, n: int, b: int) returns (k: nat)
    requires Buckets(nodes, table, chains, list, hash) && n in list && IsEntry(nodes, n)
             && b == BucketOf(hash, nodes[n], |table|)
    ensures 0 <= b < |table| && k < |chains[b]| && chains[b][k] == n
    ensures nodes[n].prevHash == nodes[n].nextHash ==> nodes[n].prevHash == NIL
  {
    assert BucketOk(nodes, table, chains, list, hash, b);
    k :| 0 <= k < |chains[b]| && chains[b][k] == n;
    assert LinkAt(nodes, Hash, [table[b]] + chains[b], k + 1);
  }

  lemma Shortened<K(!new), V(!new)>(nodes: map<int, Node<K, V>>, head: int, list: seq<int>, tail: int, i: nat)
    requires ListOk(nodes, head, list, tail) && i < |list|
    ensures Elems(list[..i] + list[i + 1..]) == Elems(list) - {list[i]}
  {
    var s := [head] + list + [tail];
    assert forall k :: 0 <= k < |list| ==> list[k] == s[k + 1];
    assert Distinct([head] + list);
    Dropped(list, i, [head] + list, head);
  }

  lemma KnownKey<K(!new), V(!new)>(nodes: map<int, Node<K, V>>, list: seq<int>, n: int)
    requires AllEntries(nodes, list)
    ensures n in list ==> IsEntry(nodes, n) && HasKey(Items(nodes, list), nodes[n].cell.key)
  {
    if n in list {
      var i :| 0 <= i < |list| && list[i] == n;
      assert Items(nodes, list)[i].0 == nodes[list[i]].cell.key;
    }
  }

  // ---------------------------------------------------------------- walking the list

  lemma WalkStarts<K(!new), V(!new)>(nodes: map<int, Node<K, V>>, head: int, list: seq<int>, tail: int)
    requires ListOk(nodes, head, list, tail)
    ensures head in nodes && nodes[head].nextList == (list + [tail])[0]
  {
    assert LinkAt(nodes, List, [head] + list + [tail], 0);
  }

  lemma WalkOn<K(!new), V(!new)>(nodes: map<int, Node<K, V>>, head: int, list: seq<int>, tail: int, i: nat)
    requires ListOk(nodes, head, list, tail) && i <= |list| && (list + [tail])[i] != tail
    ensures i < |list| && IsEntry(nodes, list[i]) && nodes[list[i]].nextList == (list + [tail])[i + 1]
  {
    var s := [head] + list + [tail];
    assert LinkAt(nodes, List, s, i + 1);
    assert list[i] in nodes;
  }

  lemma WalkEnds<K(!new), V(!new)>(nodes: map<int, Node<K, V>>, head: int, list: seq<int>, tail: int, i: nat)
    requires ListOk(nodes, head, list, tail) && i <= |list| && (list + [tail])[i] == tail
    ensures i == |list|
  {
    var s := [head] + list + [tail];
    assert s[|list| + 1] == tail && s[i + 1] == (list + [tail])[i];
  }

  /** The next node of the list is in no new chain yet. */
  lemma NotYet<K(!new), V(!new)>(list: seq<int>, i: nat, head: int, tail: int, nodes: map<int, Node<K, V>>)
    requires ListOk(nodes, head, list, tail) && i < |list|
    ensures list[i] !in Elems(list[..i]) && IsEntry(nodes, list[i])
            && Elems(list[..i + 1]) == Elems(list[..i]) + {list[i]}
  {
    var s := [head] + list + [tail];
    assert forall k :: 0 <= k < |list| ==> list[k] == s[k + 1];
    assert list[..i + 1] == list[..i] + [list[i]];
    assert list[i] in nodes;
  }

  // ---------------------------------------------------------------- at the start

  ghost function NoChains(size: nat): seq<seq<int>> {
    seq(size, i => [])
  }

  lemma StartsLinked<K(!new), V(!new)>(nodes: map<int, Node<K, V>>)
    requires nodes == map[1 := Node(Sentinel, NIL, NIL, NIL, 2), 2 := Node(Sentinel, NIL, NIL, 1, NIL)]
    ensures ListOk(nodes, 1, [], 2)
  {
    var s := [1] + [] + [2];
    assert s == [1, 2];
    assert LinkAt(nodes, List, s, 0) && LinkAt(nodes, List, s, 1);
  }

  lemma EmptyBuckets<K(!new), V(!new)>(nodes: map<int, Node<K, V>>, temp: seq<int>, hash: K -> nat)
    requires |temp| > 0 && Distinct(temp) && NIL !in nodes
    requires forall i :: 0 <= i < |temp| ==> temp[i] in nodes && nodes[temp[i]] == Node(Sentinel, NIL, NIL, NIL, NIL)
    ensures Buckets(nodes, temp, NoChains(|temp|), {}, hash)
  {
    var cs := NoChains(|temp|);
    forall h | 0 <= h < |temp| ensures BucketOk(nodes, temp, cs, {}, hash, h) {
      var s := [temp[h]] + cs[h];
      assert s == [temp[h]];
      assert LinkAt(nodes, Hash, s, 0);
    }
  }

  // ---------------------------------------------------------------- walking a chain

  lemma FirstOf<K(!new), V(!new)>(nodes: map<int, Node<K, V>>, table: seq<int>, chains: seq<seq<int>>, list: set<int>,
                                  hash: K -> nat, h: int)
    requires Buckets(nodes, table, chains, list, hash) && 0 <= h < |table|
    ensures table[h] in nodes && nodes[table[h]].nextHash == if chains[h] == [] then NIL else chains[h][0]
    ensures chains[h] != [] ==> chains[h][0] != NIL
  {
    assert BucketOk(nodes, table, chains, list, hash, h);
    var s := [table[h]] + chains[h];
    assert LinkAt(nodes, Hash, s, 0) && (|s| > 1 ==> LinkAt(nodes, Hash, s, 1));
  }

  lemma NextOf<K(!new), V(!new)>(nodes: map<int, Node<K, V>>, table: seq<int>, chains: seq<seq<int>>, list: set<int>,
                                 hash: K -> nat, h: int, k: nat)
    requires Buckets(nodes, table, chains, list, hash) && 0 <= h < |table| && k < |chains[h]|
    ensures IsEntry(nodes, chains[h][k]) && chains[h][k] in list
    ensures nodes[chains[h][k]].nextHash == if k + 1 == |chains[h]| then NIL else chains[h][k + 1]
    ensures k + 1 < |chains[h]| ==> chains[h][k + 1] != NIL
  {
    assert BucketOk(nodes, table, chains, list, hash, h);
    var s := [table[h]] + chains[h];
    assert LinkAt(nodes, Hash, s, k + 1) && (k + 2 < |s| ==> LinkAt(nodes, Hash, s, k + 2));
    assert chains[h][k] in chains[h];
  }

  /** A key that is not in its bucket is nowhere. */
  lemma NotElsewhere<K(!new), V(!new)>(nodes: map<int, Node<K, V>>, table: seq<int>, chains: seq<seq<int>>,
                                       list: seq<int>,
                                       hash: K -> nat, key: K, h: int)
    requires Buckets(nodes, table, chains, Elems(list), hash) && 0 <= h < |table| && h == hash(key) % |table|
    requires AllEntries(nodes, list)
    requires forall i :: 0 <= i < |chains[h]| ==> IsEntry(nodes, chains[h][i]) && nodes[chains[h][i]].cell.key != key
    ensures !HasKey(Items(nodes, list), key)
  {
    assert BucketOk(nodes, table, chains, Elems(list), hash, h);
    forall i | 0 <= i < |list| ensures nodes[list[i]].cell.key != key {
      assert list[i] in Elems(list) && IsEntry(nodes, list[i]);
      if list[i] in chains[h] {
        var k :| 0 <= k < |chains[h]| && chains[h][k] == list[i];
        assert nodes[chains[h][k]].cell.key != key;
      }
    }
  }

  // ---------------------------------------------------------------- a new node

  lemma SameItems<K(!new), V(!new)>(o: map<int, Node<K, V>>, u: map<int, Node<K, V>>, list: seq<int>)
    requires AllEntries(o, list) && CellsKept(o, u)
    ensures AllEntries(u, list) && Items(u, list) == Items(o, list)
  {
    CellsAlong(o, u, list);
  }

  lemma AppendItem<K(!new), V(!new)>(o: map<int, Node<K, V>>, u: map<int, Node<K, V>>, list: seq<int>, n: int)
    requires AllEntries(o, list) && CellsKept(o, u) && IsEntry(u, n)
    ensures AllEntries(u, list + [n])
    ensures Items(u, list + [n]) == Items(o, list) + [(u[n].cell.key, u[n].cell.value)]
    ensures Elems(list + [n]) == Elems(list) + {n}
  {
    SameItems(o, u, list);
  }

  lemma Allocated<K(!new), V(!new)>(o: map<int, Node<K, V>>, u: map<int, Node<K, V>>, head: int, list: seq<int>,
                                    tail: int,
                                    table: seq<int>, chains: seq<seq<int>>, hash: K -> nat, n: int, key: K)
    requires ListOk(o, head, list, tail) && Buckets(o, table, chains, Elems(list), hash) && n !in o && n != NIL
    requires n in u && u == o[n := u[n]] && u[n].cell.Entry? && u[n].cell.key == key && !HasKey(Items(o, list), key)
    ensures ListOk(u, head, list, tail) && Buckets(u, table, chains, Elems(list), hash)
    ensures IsEntry(u, n) && n !in list && n != head && n != tail
    ensures forall i :: 0 <= i < |list| ==> u[list[i]].cell.key != key
  {
    ListStill(o, u, head, list, tail);
    BucketsStill(o, u, table, chains, Elems(list), hash);
    forall i | 0 <= i < |list| ensures u[list[i]].cell.key != key {
      assert Items(o, list)[i].0 == o[list[i]].cell.key;
    }
  }

  /** A node that is not listed is neither the sentinel of a bucket nor the first of its chain. */
  lemma FrontFree<K(!new), V(!new)>(nodes: map<int, Node<K, V>>, table: seq<int>, chains: seq<seq<int>>, list: set<int>,
                                    hash: K -> nat, h: int, n: int)
    requires Buckets(nodes, table, chains, list, hash) && 0 <= h < |table| && IsEntry(nodes, n) && n !in list
    ensures table[h] in nodes && n != table[h] && nodes[table[h]].nextHash != n && nodes[table[h]].nextHash != table[h]
  {
    FirstOf(nodes, table, chains, list, hash, h);
    assert BucketOk(nodes, table, chains, list, hash, h);
    var s := [table[h]] + chains[h];
    assert LinkAt(nodes, Hash, s, 0);
    assert |chains[h]| > 0 ==> chains[h][0] in chains[h] && s[1] == chains[h][0];
  }

  lemma EndFree<K(!new), V(!new)>(nodes: map<int, Node<K, V>>, head: int, list: seq<int>, tail: int, n: int)
    requires ListOk(nodes, head, list, tail) && n !in list && n != head && n != tail
    ensures tail in nodes && nodes[tail].prevList != n && nodes[tail].prevList != tail
  {
    var s := [head] + list + [tail];
    assert LinkAt(nodes, List, s, |s| - 1);
    assert s[|s| - 2] == if list == [] then head else list[|list| - 1];
  }
}
