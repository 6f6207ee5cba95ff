/** Searching inside one page. */
module TreePages {
  import opened TreeModel
  import opened TreeEdge

  /** The slot of an internal page whose child is responsible for `key`. */
  ghost predicate IsSlot(keys: seq<Key>, key: Key, c: int) {
    && 0 <= c < |keys|
    && (c > 0 ==> keys[c] <= key)
    && (c + 1 < |keys| ==> key < keys[c + 1])
  }

  /** Binary search over slots 1.., ignoring slot 0. */
  method Lookup(keys: seq<Key>, key: Key) returns (child: int)
    requires |keys| >= 1 && Increasing(keys, 1)
    ensures IsSlot(keys, key, child)
  {
    var l, r := 1, |keys| - 1;
    child := |keys| - 1;
    while l <= r
      invariant 1 <= l <= r + 1 <= |keys| && child == r
      invariant l > 1 ==> keys[l - 1] <= key
      invariant r + 1 < |keys| ==> key < keys[r + 1]
    {
      var mid := (l + r) / 2;
      if key < keys[mid] {
        child := mid - 1;
        r := mid - 1;
      } else {
        l := mid + 1;
      }
    }
  }

  /** Binary search for the first key that is not below `key`; -1 when there is none. */
  method KeyIndex(keys: seq<Key>, key: Key) returns (index: int)
    requires Increasing(keys, 0)
    ensures index == -1 ==> IsRank(keys, key, |keys|)
    ensures index != -1 ==> index < |keys| && IsRank(keys, key, index)
  {
    var l, r := 0, |keys| - 1;
    index := -1;
    while l <= r
      invariant 0 <= l <= r + 1 <= |keys|
      invariant index == if r + 1 == |keys| then -1 else r + 1
      invariant forall j :: 0 <= j < l ==> keys[j] < key
      invariant forall j :: r < j < |keys| ==> key <= keys[j]
    {
      var mid := (l + r) / 2;
      if keys[mid] >= key {
        r := mid - 1;
        index := mid;
      } else {
        l := mid + 1;
      }
    }
  }

  /** The first slot holding a child, or -1. */
  method ValueIndex(kids: seq<PageId>, c: PageId) returns (index: int)
    ensures index == -1 ==> c !in kids
    ensures index != -1 ==> 0 <= index < |kids| && kids[index] == c && c !in kids[..index]
  {
    for i := 0 to |kids|
      invariant c !in kids[..i]
    {
      if kids[i] == c {
        return i;
      }
    }
    return -1;
  }

  /** At its rank a key is either found or absent. */
  lemma RankDecides(keys: seq<Key>, key: Key, i: int)
    requires Increasing(keys, 0) && IsRank(keys, key, i)
    ensures key in keys <==> i < |keys| && keys[i] == key
  {
  }
}
