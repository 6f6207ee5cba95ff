/** Doubly linked lists of nodes in a store, as the hash map threads two of them through its nodes:
    the chain of a bucket and the list of all entries. */
module DoubleLinks {
  const NIL := 0

  datatype Cell<K, V> = Sentinel | Entry(key: K, value: V)

  datatype Node<K, V> = Node(cell: Cell<K, V>, prevHash: int, nextHash: int, prevList: int, nextList: int)

  /** Which of its two lists a link belongs to. */
  datatype Way = Hash | List

  function Next<K, V>(n: Node<K, V>, w: Way): int {
    if w == Hash then n.nextHash else n.nextList
  }

  function Prev<K, V>(n: Node<K, V>, w: Way): int {
    if w == Hash then n.prevHash else n.prevList
  }

  function WithNext<K, V>(nodes: map<int, Node<K, V>>, p: int, w: Way, x: int): map<int, Node<K, V>> {
    if p !in nodes then nodes
    else nodes[p := if w == Hash then nodes[p].(nextHash := x) else nodes[p].(nextList := x)]
  }

  function WithPrev<K, V>(nodes: map<int, Node<K, V>>, p: int, w: Way, x: int): map<int, Node<K, V>> {
    if p !in nodes then nodes
    else nodes[p := if w == Hash then nodes[p].(prevHash := x) else nodes[p].(prevList := x)]
  }

  ghost predicate Distinct(s: seq<int>) {
    forall i, j :: 0 <= i < j < |s| ==> s[i] != s[j]
  }

  /** Node k of s points to its neighbours. */
  ghost predicate LinkAt<K(!new), V(!new)>(nodes: map<int, Node<K, V>>, w: Way, s: seq<int>, k: int)
    requires 0 <= k < |s|
  {
    && s[k] in nodes
    && Prev(nodes[s[k]], w) == (if k == 0 then NIL else s[k - 1])
    && Next(nodes[s[k]], w) == (if k == |s| - 1 then NIL else s[k + 1])
  }

  /** The nodes of s, and no others, are linked one after the other. */
  ghost predicate Linked<K(!new), V(!new)>(nodes: map<int, Node<K, V>>, w: Way, s: seq<int>) {
    && |s| > 0 && Distinct(s) && NIL !in nodes
    && forall k {:trigger LinkAt(nodes, w, s, k)} :: 0 <= k < |s| ==> LinkAt(nodes, w, s, k)
  }

  /** Node x has kept its links of one kind. */
  ghost predicate SameLinks<K(!new), V(!new)>(nodes: map<int, Node<K, V>>, u: map<int, Node<K, V>>, w: Way, x: int) {
    x in nodes && x in u && Prev(u[x], w) == Prev(nodes[x], w) && Next(u[x], w) == Next(nodes[x], w)
  }

  /** A list none of whose nodes was rewritten is as it was. */
  lemma StillLinked<K(!new), V(!new)>(nodes: map<int, Node<K, V>>, u: map<int, Node<K, V>>, w: Way, s: seq<int>)
    requires Linked(nodes, w, s) && NIL !in u && forall i :: 0 <= i < |s| ==> SameLinks(nodes, u, w, s[i])
    ensures Linked(u, w, s)
  {
    forall k | 0 <= k < |s| ensures LinkAt(u, w, s, k) {
      assert LinkAt(nodes, w, s, k) && SameLinks(nodes, u, w, s[k]);
    }
  }

  // ---------------------------------------------------------------- splicing in

  /** The writes that put n between p and q, either of which may be missing. */
  function Spliced<K, V>(nodes: map<int, Node<K, V>>, w: Way, p: int, n: int, q: int): map<int, Node<K, V>> {
    WithPrev(WithNext(WithNext(WithPrev(nodes, q, w, n), n, w, q), p, w, n), n, w, p)
  }

  ghost predicate SplicedIn<K(!new), V(!new)>(o: map<int, Node<K, V>>, u: map<int, Node<K, V>>, w: Way, p: int, n: int,
                                              q: int) {
    && u.Keys == o.Keys && n in o
    && Prev(u[n], w) == p && Next(u[n], w) == q
    && (p in o ==> Next(u[p], w) == n && Prev(u[p], w) == Prev(o[p], w))
    && (q in o ==> Prev(u[q], w) == n && Next(u[q], w) == Next(o[q], w))
    && (forall x :: x in o && x != p && x != n && x != q ==> u[x] == o[x])
    && (forall x :: x in o ==> u[x].cell == o[x].cell)
    && (forall x, v :: x in o && v != w ==> Prev(u[x], v) == Prev(o[x], v) && Next(u[x], v) == Next(o[x], v))
  }

  lemma SpliceFacts<K(!new), V(!new)>(nodes: map<int, Node<K, V>>, w: Way, p: int, n: int, q: int)
    requires n in nodes && NIL !in nodes && p != n && q != n && (p == q ==> p == NIL)
    ensures SplicedIn(nodes, Spliced(nodes, w, p, n, q), w, p, n, q)
  {
  }

  lemma SpliceAt<K(!new), V(!new)>(o: map<int, Node<K, V>>, u: map<int, Node<K, V>>, w: Way, s: seq<int>, i: nat,
                                   n: int, k: nat)
    requires Linked(o, w, s) && i < |s| && n in o && n !in s && k < |s| + 1
    requires s[i] in o && SplicedIn(o, u, w, s[i], n, Next(o[s[i]], w))
    ensures LinkAt(u, w, s[..i + 1] + [n] + s[i + 1..], k)
  {
    assert LinkAt(o, w, s, i);
    if k != i + 1 {
      var j := if k <= i then k else k - 1;
      assert LinkAt(o, w, s, j);
      assert s[j] in s;
      assert i + 1 < |s| ==> s[i + 1] in o by {
        assert i + 1 < |s| ==> LinkAt(o, w, s, i + 1);
      }
    }
  }

  lemma SpliceLinks<K(!new), V(!new)>(o: map<int, Node<K, V>>, u: map<int, Node<K, V>>, w: Way, s: seq<int>, i: nat,
                                      n: int)
    requires Linked(o, w, s) && i < |s| && n in o && n !in s
    requires s[i] in o && SplicedIn(o, u, w, s[i], n, Next(o[s[i]], w))
    ensures Linked(u, w, s[..i + 1] + [n] + s[i + 1..])
  {
    var r := s[..i + 1] + [n] + s[i + 1..];
    forall k | 0 <= k < |r| ensures LinkAt(u, w, r, k) {
      SpliceAt(o, u, w, s, i, n, k);
    }
    assert Distinct(r) by {
      assert forall k :: 0 <= k < |s| ==> s[k] in s;
    }
  }

  // ---------------------------------------------------------------- splicing out

  /** The writes that unlink n through its own links. */
  function Unspliced<K, V>(nodes: map<int, Node<K, V>>, w: Way, n: int): map<int, Node<K, V>>
    requires n in nodes
  {
    var p, q := Prev(nodes[n], w), Next(nodes[n], w);
    WithPrev(WithNext(nodes, p, w, q), q, w, p)
  }

  ghost predicate SplicedOut<K(!new), V(!new)>(o: map<int, Node<K, V>>, u: map<int, Node<K, V>>, w: Way, p: int,
                                               q: int) {
    && u.Keys == o.Keys
    && (p in o ==> Next(u[p], w) == q && Prev(u[p], w) == Prev(o[p], w))
    && (q in o ==> Prev(u[q], w) == p && Next(u[q], w) == Next(o[q], w))
    && (forall x :: x in o && x != p && x != q ==> u[x] == o[x])
    && (forall x :: x in o ==> u[x].cell == o[x].cell)
    && (forall x, v :: x in o && v != w ==> Prev(u[x], v) == Prev(o[x], v) && Next(u[x], v) == Next(o[x], v))
  }

  lemma UnspliceFacts<K(!new), V(!new)>(nodes: map<int, Node<K, V>>, w: Way, n: int)
    requires n in nodes && NIL !in nodes && (Prev(nodes[n], w) == Next(nodes[n], w) ==> Prev(nodes[n], w) == NIL)
    ensures SplicedOut(nodes, Unspliced(nodes, w, n), w, Prev(nodes[n], w), Next(nodes[n], w))
  {
  }

  lemma UnspliceAt<K(!new), V(!new)>(o: map<int, Node<K, V>>, u: map<int, Node<K, V>>, w: Way, s: seq<int>, i: nat,
                                     k: nat)
    requires Linked(o, w, s) && 0 < i < |s| && k < |s| - 1
    requires s[i] in o && SplicedOut(o, u, w, Prev(o[s[i]], w), Next(o[s[i]], w))
    ensures LinkAt(u, w, s[..i] + s[i + 1..], k)
  {
    var j := if k < i then k else k + 1;
    assert LinkAt(o, w, s, i) && LinkAt(o, w, s, j);
  }

  lemma UnspliceLinks<K(!new), V(!new)>(o: map<int, Node<K, V>>, u: map<int, Node<K, V>>, w: Way, s: seq<int>, i: nat)
    requires Linked(o, w, s) && 0 < i < |s|
    requires s[i] in o && SplicedOut(o, u, w, Prev(o[s[i]], w), Next(o[s[i]], w))
    ensures Linked(u, w, s[..i] + s[i + 1..])
  {
    var r := s[..i] + s[i + 1..];
    forall k | 0 <= k < |r| ensures LinkAt(u, w, r, k) {
      UnspliceAt(o, u, w, s, i, k);
    }
  }
}
