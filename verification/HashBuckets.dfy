/** The buckets of the hash map and the list through all its entries, as links among its nodes. */
module HashBuckets {
  import opened DoubleLinks

  function BucketOf<K, V>(hash: K -> nat, n: Node<K, V>, capacity: nat): nat
    requires n.cell.Entry? && capacity > 0
  {
    hash(n.cell.key) % capacity
  }

  ghost predicate IsEntry<K(!new), V(!new)>(nodes: map<int, Node<K, V>>, n: int) {
    n in nodes && nodes[n].cell.Entry?
  }

  ghost predicate IsSentinel<K(!new), V(!new)>(nodes: map<int, Node<K, V>>, n: int) {
    n in nodes && nodes[n].cell.Sentinel?
  }

  /** Bucket h is a chain, behind its sentinel, of just the listed entries that belong there. */
  ghost predicate BucketOk<K(!new), V(!new)>(nodes: map<int, Node<K, V>>, table: seq<int>, chains: seq<seq<int>>,
                                             list: set<int>, hash: K -> nat, h: int)
    requires |chains| == |table| && 0 <= h < |table|
  {
    && IsSentinel(nodes, table[h]) && Linked(nodes, Hash, [table[h]] + chains[h])
    && (forall n :: n in chains[h] ==> n in list)
    && (forall n :: n in list && IsEntry(nodes, n) ==> (n in chains[h] <==> BucketOf(hash, nodes[n], |table|) == h))
  }

  ghost predicate Buckets<K(!new), V(!new)>(nodes: map<int, Node<K, V>>, table: seq<int>, chains: seq<seq<int>>,
                                            list: set<int>, hash: K -> nat) {
    && |chains| == |table| > 0 && Distinct(table) && NIL !in nodes
    && (forall n :: n in list ==> IsEntry(nodes, n))
    && forall h {:trigger BucketOk(nodes, table, chains, list, hash, h)} ::
         0 <= h < |table| ==> BucketOk(nodes, table, chains, list, hash, h)
  }

  /** Cells and hash links of all nodes are as they were. */
  ghost predicate SameHash<K(!new), V(!new)>(nodes: map<int, Node<K, V>>, u: map<int, Node<K, V>>) {
    NIL !in u && forall x {:trigger x in u} {:trigger u[x]} {:trigger nodes[x]} :: x in nodes ==>
        x in u && u[x].cell == nodes[x].cell && SameLinks(nodes, u, Hash, x)
  }

  lemma BucketsStill<K(!new), V(!new)>(nodes: map<int, Node<K, V>>, u: map<int, Node<K, V>>, table: seq<int>,
                                       chains: seq<seq<int>>, list: set<int>, hash: K -> nat)
    requires Buckets(nodes, table, chains, list, hash) && SameHash(nodes, u)
    ensures Buckets(u, table, chains, list, hash)
  {
    forall h | 0 <= h < |table| ensures BucketOk(u, table, chains, list, hash, h) {
      assert BucketOk(nodes, table, chains, list, hash, h);
      var s := [table[h]] + chains[h];
      forall i | 0 <= i < |s| ensures SameLinks(nodes, u, Hash, s[i]) {
        assert LinkAt(nodes, Hash, s, i);
      }
      StillLinked(nodes, u, Hash, s);
    }
  }

  // ---------------------------------------------------------------- one entry more

  /** Buckets do not share nodes. */
  lemma Elsewhere<K(!new), V(!new)>(nodes: map<int, Node<K, V>>, table: seq<int>, chains: seq<seq<int>>,
                                    list: set<int>, hash: K -> nat, b: int, h: int, i: int, k: int)
    requires Buckets(nodes, table, chains, list, hash) && 0 <= b < |table| && 0 <= h < |table| && b != h
    requires 0 <= i <= |chains[b]| && 0 <= k <= |chains[h]|
    ensures ([table[b]] + chains[b])[i] != ([table[h]] + chains[h])[k]
  {
    assert BucketOk(nodes, table, chains, list, hash, b) && BucketOk(nodes, table, chains, list, hash, h);
    var x, y := ([table[b]] + chains[b])[i], ([table[h]] + chains[h])[k];
    assert i > 0 ==> x == chains[b][i - 1] && x in chains[b] && x in list;
    assert k > 0 ==> y == chains[h][k - 1] && y in chains[h] && y in list;
  }

  lemma PushElsewhere<K(!new), V(!new)>(o: map<int, Node<K, V>>, u: map<int, Node<K, V>>, table: seq<int>,
                                        chains: seq<seq<int>>,
                                        list: set<int>, hash: K -> nat, n: int, b: int, h: int)
    requires Buckets(o, table, chains, list, hash) && IsEntry(o, n) && n !in list && 0 <= b < |table|
             && 0 <= h < |table| && b != h
    requires table[b] in o && SplicedIn(o, u, Hash, table[b], n, Next(o[table[b]], Hash))
    ensures Linked(u, Hash, [table[h]] + chains[h])
  {
    assert BucketOk(o, table, chains, list, hash, b) && BucketOk(o, table, chains, list, hash, h);
    var s, c := [table[h]] + chains[h], [table[b]] + chains[b];
    assert LinkAt(o, Hash, c, 0);
    forall k | 0 <= k < |s| ensures SameLinks(o, u, Hash, s[k]) {
      assert LinkAt(o, Hash, s, k);
      Elsewhere(o, table, chains, list, hash, b, h, 0, k);
      if |c| > 1 {
        Elsewhere(o, table, chains, list, hash, b, h, 1, k);
      }
      assert k > 0 ==> s[k] in chains[h];
    }
    StillLinked(o, u, Hash, s);
  }

  /** A node spliced in behind the sentinel of its bucket. */
  lemma PushFront<K(!new), V(!new)>(o: map<int, Node<K, V>>, u: map<int, Node<K, V>>, table: seq<int>,
                                    chains: seq<seq<int>>,
                                    list: set<int>, hash: K -> nat, n: int, b: int)
    requires Buckets(o, table, chains, list, hash) && IsEntry(o, n) && n !in list && b == BucketOf(hash, o[n], |table|)
    requires 0 <= b < |table| && table[b] in o && SplicedIn(o, u, Hash, table[b], n, Next(o[table[b]], Hash))
    ensures Buckets(u, table, chains[b := [n] + chains[b]], list + {n}, hash)
  {
    var cs, l := chains[b := [n] + chains[b]], list + {n};
    forall h | 0 <= h < |table| ensures BucketOk(u, table, cs, l, hash, h) {
      assert BucketOk(o, table, chains, list, hash, h);
      if h == b {
        var s := [table[b]] + chains[b];
        PushedHere(o, table, chains, list, hash, n, b);
        SpliceLinks(o, u, Hash, s, 0, n);
        assert s[..1] + [n] + s[1..] == [table[b]] + cs[b];
      } else {
        PushElsewhere(o, u, table, chains, list, hash, n, b, h);
      }
    }
  }

  lemma PushedHere<K(!new), V(!new)>(o: map<int, Node<K, V>>, table: seq<int>, chains: seq<seq<int>>, list: set<int>,
                                     hash: K -> nat, n: int, b: int)
    requires Buckets(o, table, chains, list, hash) && IsEntry(o, n) && n !in list && 0 <= b < |table|
    ensures n !in [table[b]] + chains[b]
  {
    assert BucketOk(o, table, chains, list, hash, b);
  }

  /** The hash links of a node that is in no bucket may be anything. */
  lemma BucketsWithout<K(!new), V(!new)>(o: map<int, Node<K, V>>, u: map<int, Node<K, V>>, table: seq<int>,
                                         chains: seq<seq<int>>, list: set<int>, hash: K -> nat, n: int)
    requires Buckets(o, table, chains, list, hash) && IsEntry(o, n) && n !in list
    requires n in u && u == o[n := u[n]] && u[n].cell == o[n].cell
    ensures Buckets(u, table, chains, list, hash)
  {
    forall h | 0 <= h < |table| ensures BucketOk(u, table, chains, list, hash, h) {
      assert BucketOk(o, table, chains, list, hash, h);
      PushedHere(o, table, chains, list, hash, n, h);
      var s := [table[h]] + chains[h];
      forall i | 0 <= i < |s| ensures SameLinks(o, u, Hash, s[i]) {
        assert LinkAt(o, Hash, s, i);
        var x: int := s[i];
        assert x in s && x != n;
      }
      StillLinked(o, u, Hash, s);
    }
  }

  // ---------------------------------------------------------------- one entry less

  lemma PullElsewhere<K(!new), V(!new)>(o: map<int, Node<K, V>>, u: map<int, Node<K, V>>, table: seq<int>,
                                        chains: seq<seq<int>>,
                                        list: set<int>, hash: K -> nat, k: nat, b: int, h: int)
    requires Buckets(o, table, chains, list, hash) && 0 <= b < |table| && 0 <= h < |table| && b != h && k < |chains[b]|
    requires var n := chains[b][k]; n in o && SplicedOut(o, u, Hash, Prev(o[n], Hash), Next(o[n], Hash))
    ensures Linked(u, Hash, [table[h]] + chains[h])
  {
    assert BucketOk(o, table, chains, list, hash, b) && BucketOk(o, table, chains, list, hash, h);
    var s, c := [table[h]] + chains[h], [table[b]] + chains[b];
    assert LinkAt(o, Hash, c, k + 1);
    forall i | 0 <= i < |s| ensures SameLinks(o, u, Hash, s[i]) {
      assert LinkAt(o, Hash, s, i);
      Elsewhere(o, table, chains, list, hash, b, h, k, i);
      if k + 2 < |c| {
        Elsewhere(o, table, chains, list, hash, b, h, k + 2, i);
      }
    }
    StillLinked(o, u, Hash, s);
  }

  /** A node unlinked from its bucket through its own links. */
  lemma PullOut<K(!new), V(!new)>(o: map<int, Node<K, V>>, u: map<int, Node<K, V>>, table: seq<int>,
                                  chains: seq<seq<int>>,
                                  list: set<int>, hash: K -> nat, b: int, k: nat)
    requires Buckets(o, table, chains, list, hash) && 0 <= b < |table| && k < |chains[b]|
    requires var n := chains[b][k]; n in o && SplicedOut(o, u, Hash, Prev(o[n], Hash), Next(o[n], Hash))
    ensures Buckets(u, table, chains[b := chains[b][..k] + chains[b][k + 1..]], list - {chains[b][k]}, hash)
  {
    var n := chains[b][k];
    var rest := chains[b][..k] + chains[b][k + 1..];
    var cs, l := chains[b := rest], list - {n};
    assert BucketOk(o, table, chains, list, hash, b);
    forall h | 0 <= h < |table| ensures BucketOk(u, table, cs, l, hash, h) {
      assert BucketOk(o, table, chains, list, hash, h);
      if h == b {
        var s := [table[b]] + chains[b];
        UnspliceLinks(o, u, Hash, s, k + 1);
        assert s[..k + 1] + s[k + 2..] == [table[b]] + rest;
        Dropped(chains[b], k, s, table[b]);
      } else {
        PullElsewhere(o, u, table, chains, list, hash, k, b, h);
        assert n !in chains[h] by {
          assert n in chains[b] && n in list;
        }
      }
    }
  }

  lemma Dropped(c: seq<int>, k: nat, s: seq<int>, first: int)
    requires k < |c| && s == [first] + c && Distinct(s)
    ensures forall x :: x in c[..k] + c[k + 1..] <==> x in c && x != c[k]
  {
    assert forall i :: 0 <= i < |c| ==> c[i] == s[i + 1];
    forall x ensures x in c[..k] + c[k + 1..] <==> x in c && x != c[k] {
      if x in c && x != c[k] {
        var i :| 0 <= i < |c| && c[i] == x;
        assert i < k ==> c[..k][i] == x;
        assert i > k ==> c[k + 1..][i - k - 1] == x;
      }
    }
  }

  // ---------------------------------------------------------------- the list of all entries

  ghost predicate AllEntries<K(!new), V(!new)>(nodes: map<int, Node<K, V>>, list: seq<int>) {
    forall i {:trigger list[i]} :: 0 <= i < |list| ==> list[i] in nodes && nodes[list[i]].cell.Entry?
  }

  ghost predicate ListOk<K(!new), V(!new)>(nodes: map<int, Node<K, V>>, head: int, list: seq<int>, tail: int) {
    && Linked(nodes, List, [head] + list + [tail]) && IsSentinel(nodes, head) && IsSentinel(nodes, tail)
    && AllEntries(nodes, list)
    && (forall i, j :: 0 <= i < j < |list| ==> nodes[list[i]].cell.key != nodes[list[j]].cell.key)
  }

  /** Cells and list links of all nodes are as they were. */
  ghost predicate SameList<K(!new), V(!new)>(nodes: map<int, Node<K, V>>, u: map<int, Node<K, V>>) {
    NIL !in u && forall x {:trigger x in u} {:trigger u[x]} {:trigger nodes[x]} :: x in nodes ==>
        x in u && u[x].cell == nodes[x].cell && SameLinks(nodes, u, List, x)
  }

  /** All nodes are still there with their entries. */
  ghost predicate CellsKept<K(!new), V(!new)>(o: map<int, Node<K, V>>, u: map<int, Node<K, V>>) {
    forall x {:trigger x in u} {:trigger u[x]} {:trigger o[x]} :: x in o ==> x in u && u[x].cell == o[x].cell
  }

  lemma CellsAlong<K(!new), V(!new)>(o: map<int, Node<K, V>>, u: map<int, Node<K, V>>, list: seq<int>)
    requires AllEntries(o, list) && CellsKept(o, u)
    ensures AllEntries(u, list) && forall i {:trigger list[i]} :: 0 <= i < |list| ==> u[list[i]].cell == o[list[i]].cell
  {
    forall i | 0 <= i < |list| ensures list[i] in u && u[list[i]].cell == o[list[i]].cell {
      var x: int := list[i];
      assert x in o && x in u && u[x].cell == o[x].cell;
    }
  }

  lemma ListStill<K(!new), V(!new)>(nodes: map<int, Node<K, V>>, u: map<int, Node<K, V>>, head: int, list: seq<int>,
                                    tail: int)
    requires ListOk(nodes, head, list, tail) && SameList(nodes, u)
    ensures ListOk(u, head, list, tail)
  {
    var s := [head] + list + [tail];
    forall i | 0 <= i < |s| ensures SameLinks(nodes, u, List, s[i]) {
      assert LinkAt(nodes, List, s, i);
    }
    StillLinked(nodes, u, List, s);
    CellsAlong(nodes, u, list);
  }

  lemma Append<K(!new), V(!new)>(o: map<int, Node<K, V>>, u: map<int, Node<K, V>>, head: int, list: seq<int>,
                                 tail: int, n: int)
    requires ListOk(o, head, list, tail) && IsEntry(o, n) && n !in list && n != head && n != tail
    requires forall i :: 0 <= i < |list| ==> o[list[i]].cell.key != o[n].cell.key
    requires tail in o && SplicedIn(o, u, List, Prev(o[tail], List), n, tail)
    ensures ListOk(u, head, list + [n], tail)
  {
    var s := [head] + list + [tail];
    assert LinkAt(o, List, s, |list| + 1) && LinkAt(o, List, s, |list|);
    SpliceLinks(o, u, List, s, |list|, n);
    assert s[..|list| + 1] + [n] + s[|list| + 1..] == [head] + (list + [n]) + [tail];
    CellsAlong(o, u, list);
    var r := list + [n];
    assert forall k :: 0 <= k < |r| ==> r[k] == if k < |list| then list[k] else n;
  }

  lemma TakeOut<K(!new), V(!new)>(o: map<int, Node<K, V>>, u: map<int, Node<K, V>>, head: int, list: seq<int>,
                                  tail: int, i: nat)
    requires ListOk(o, head, list, tail) && i < |list|
    requires list[i] in o && SplicedOut(o, u, List, Prev(o[list[i]], List), Next(o[list[i]], List))
    ensures ListOk(u, head, list[..i] + list[i + 1..], tail)
  {
    var s, r := [head] + list + [tail], list[..i] + list[i + 1..];
    UnspliceLinks(o, u, List, s, i + 1);
    assert s[..i + 1] + s[i + 2..] == [head] + r + [tail];
    CellsAlong(o, u, list);
    assert forall k :: 0 <= k < |r| ==> r[k] == if k < i then list[k] else list[k + 1];
  }
}
