/** Keys of a string and two numbers, their two comparators, and why a scan with the coarser one is a
    scan of an interval. A string stands for its place in the order of strings. */
module KeyOrder {
  import TreeModel
  import TreeScan
  import BPlusTree

  datatype Triple = Triple(str: int, first: int, second: int)

  function CompareInts(a: int, b: int): int {
    if a < b then -1 else if a == b then 0 else 1
  }

  /** Category 1 looks at the string and the first number, category 2 at all three. */
  function Compare(category: int, a: Triple, b: Triple): int {
    match category
    case 1 =>
      var r := CompareInts(a.str, b.str);
      if r == 0 then CompareInts(a.first, b.first) else r
    case 2 =>
      var r := CompareInts(a.str, b.str);
      var s := if r == 0 then CompareInts(a.first, b.first) else r;
      if s == 0 then CompareInts(a.second, b.second) else s
    case _ => 0
  }

  /** By string, then by first, then by second number. */
  ghost predicate Precedes(a: Triple, b: Triple) {
    a.str < b.str || (a.str == b.str && (a.first < b.first || (a.first == b.first && a.second < b.second)))
  }

  /** What the comparators say, field by field. */
  lemma CompareFields(a: Triple, b: Triple)
    ensures Compare(1, a, b) == 0 <==> a.str == b.str && a.first == b.first
    ensures Compare(1, a, b) < 0 <==> a.str < b.str || (a.str == b.str && a.first < b.first)
    ensures Compare(2, a, b) == 0 <==> a == b
    ensures Compare(2, a, b) < 0 <==> Precedes(a, b)
  {
  }

  /** The keys in play get their places in the order of category 2: the keys of the tree model. */
  ghost predicate Places(place: Triple -> int, ks: set<Triple>) {
    forall a, b {:trigger place(a), place(b)} :: a in ks && b in ks ==> (place(a) < place(b) <==> Precedes(a, b))
  }

  /** Where the class of the probe ends among the keys from the probe on. */
  ghost predicate Ends(place: Triple -> int, probe: Triple, ks: set<Triple>, until: TreeModel.Bound) {
    && TreeScan.Below(place(probe), until)
    && forall k {:trigger place(k)} :: k in ks && place(probe) <= place(k) ==>
        (Compare(1, probe, k) == 0 <==> TreeScan.Below(place(k), until))
  }

  /** A key between the probe and a key of its class is of its class. */
  lemma Convex(place: Triple -> int, ks: set<Triple>, probe: Triple, a: Triple, b: Triple)
    requires Places(place, ks) && {probe, a, b} <= ks && place(probe) <= place(a) <= place(b)
             && Compare(1, probe, b) == 0
    ensures Compare(1, probe, a) == 0
  {
    assert !(place(a) < place(probe)) && !(place(b) < place(a));
  }

  lemma {:induction false} Least(place: Triple -> int, ks: set<Triple>) returns (m: Triple)
    requires ks != {}
    ensures m in ks && forall k :: k in ks ==> place(m) <= place(k)
    decreases |ks|
  {
    m :| m in ks;
    if ks != {m} {
      var rest := ks - {m};
      assert ks == rest + {m};
      var l := Least(place, rest);
      if place(l) < place(m) {
        m := l;
      }
    }
  }

  /** Whatever keys there are, the class of the probe is all keys from the probe up to some bound. */
  lemma ClassEnds(place: Triple -> int, probe: Triple, ks: set<Triple>) returns (until: TreeModel.Bound)
    requires Places(place, ks) && probe in ks
    ensures Ends(place, probe, ks, until)
  {
    var others := set k | k in ks && place(probe) <= place(k) && Compare(1, probe, k) != 0;
    if others == {} {
      until := TreeModel.Unbounded;
      forall k | k in ks && place(probe) <= place(k) ensures Compare(1, probe, k) == 0 {
        assert k !in others;
      }
    } else {
      var m := Least(place, others);
      until := TreeModel.At(place(m));
      forall k | k in ks && place(probe) <= place(k) ensures Compare(1, probe, k) == 0 <==> place(k) < place(m) {
        if Compare(1, probe, k) != 0 {
          assert k in others;
        }
        Convexity(place, ks, probe, m, k);
      }
      Convexity(place, ks, probe, m, probe);
    }
  }

  lemma Convexity(place: Triple -> int, ks: set<Triple>, probe: Triple, a: Triple, b: Triple)
    requires Places(place, ks) && {probe, a, b} <= ks
    ensures place(probe) <= place(a) <= place(b) && Compare(1, probe, b) == 0 ==> Compare(1, probe, a) == 0
  {
    if place(probe) <= place(a) <= place(b) && Compare(1, probe, b) == 0 {
      Convex(place, ks, probe, a, b);
    }
  }

  /** Of the probe's class, the keys from the probe on are those whose second number is not below its own. */
  lemma FromProbe(place: Triple -> int, ks: set<Triple>, probe: Triple, k: Triple)
    requires Places(place, ks) && probe in ks && k in ks
    ensures place(probe) <= place(k) && Compare(1, probe, k) == 0 <==>
      k.str == probe.str && k.first == probe.first && k.second >= probe.second
  {
    CompareFields(probe, k);
    assert place(k) < place(probe) <==> Precedes(k, probe);
  }

  /** So a probe with the least second number finds its whole class. */
  lemma LeastProbe(place: Triple -> int, ks: set<Triple>, probe: Triple, k: Triple)
    requires Places(place, ks) && probe in ks && k in ks && k.str == probe.str && k.first == probe.first
             && forall m :: m in ks && m.str == probe.str && m.first == probe.first ==> probe.second <= m.second
    ensures place(probe) <= place(k) && Compare(1, probe, k) == 0
  {
    FromProbe(place, ks, probe, k);
  }

  // ---------------------------------------------------------------- the scan

  /** The tree's keys are the places of keys in play. */
  ghost predicate Embeds(place: Triple -> int, at: int -> Triple, ks: set<Triple>, keys: set<int>) {
    Places(place, ks) && forall c {:trigger at(c)} :: c in keys ==> at(c) in ks && place(at(c)) == c
  }

  /** A scan with the coarser comparator returns, in key order, exactly the values of the keys with the
      probe's string and first number and a second number not below its own. */
  method ScanClass(tree: BPlusTree.Tree, probe: Triple, place: Triple -> int, at: int -> Triple, ghost ks: set<Triple>)
    returns (result: seq<TreeModel.Value>, ghost found: seq<int>)
    requires tree.Valid() && probe in ks && Embeds(place, at, ks, tree.content.Keys)
    modifies tree`pool, tree`log, tree`trail
    ensures tree.Valid() && TreeModel.Increasing(found, 0) && TreeScan.ValuesOf(tree.content, found, result)
    ensures forall c :: c in found <==>
      c in tree.content && at(c).str == probe.str && at(c).first == probe.first && at(c).second >= probe.second
  {
    ghost var until := ClassEnds(place, probe, ks);
    ghost var content := tree.content;
    forall c | c in content
      ensures place(probe) <= c ==> (Compare(1, probe, at(c)) == 0 <==> TreeScan.Below(c, until))
      ensures place(probe) <= c && Compare(1, probe, at(c)) == 0 <==>
        at(c).str == probe.str && at(c).first == probe.first && at(c).second >= probe.second
    {
      assert at(c) in ks && place(at(c)) == c;
      FromProbe(place, ks, probe, at(c));
    }
    result, found := tree.ScanKey(place(probe), c => Compare(1, probe, at(c)) == 0, until);
  }
}
