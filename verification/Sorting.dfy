/** The in-place quicksort behind every listing. */
module Sorting {

  ghost predicate StrictWeakOrder<T(!new)>(cmp: (T, T) -> bool) {
    && (forall x, y :: cmp(x, y) ==> !cmp(y, x))
    && (forall x, y, z :: !cmp(x, y) && !cmp(y, z) ==> !cmp(x, z))
  }

  ghost predicate Sorted<T(!new)>(s: seq<T>, cmp: (T, T) -> bool) {
    forall i, j :: 0 <= i < j < |s| ==> !cmp(s[j], s[i])
  }

  /** Nothing above v. */
  ghost predicate UpTo<T(!new)>(s: seq<T>, v: T, cmp: (T, T) -> bool) {
    forall i :: 0 <= i < |s| ==> !cmp(v, s[i])
  }

  /** Nothing below v. */
  ghost predicate From<T(!new)>(s: seq<T>, v: T, cmp: (T, T) -> bool) {
    forall i :: 0 <= i < |s| ==> !cmp(s[i], v)
  }

  /** `t` is `s` with its items rearranged, and only those from l to r moved. */
  ghost predicate Rearranged<T(!new)>(s: seq<T>, t: seq<T>, l: int, r: int) {
    && |s| == |t| && 0 <= l <= r + 1 <= |s|
    && (forall i :: 0 <= i < l || r < i < |s| ==> t[i] == s[i])
    && multiset(t) == multiset(s)
  }

  lemma Exchange<T(!new)>(s: seq<T>, i: int, j: int)
    requires 0 <= i <= j < |s|
    ensures multiset(s[i := s[j]][j := s[i]]) == multiset(s)
  {
    var t := s[i := s[j]][j := s[i]];
    if i < j {
      var a, b, c := s[..i], s[i + 1..j], s[j + 1..];
      assert s == a + [s[i]] + b + [s[j]] + c;
      assert t == a + [s[j]] + b + [s[i]] + c;
      Reordered(a, s[i], b, s[j], c);
    } else {
      assert t == s;
    }
  }

  lemma Reordered<T(!new)>(a: seq<T>, x: T, b: seq<T>, y: T, c: seq<T>)
    ensures multiset(a + [x] + b + [y] + c) == multiset(a + [y] + b + [x] + c)
  {
    PartsOf(a, x, b, y, c);
    PartsOf(a, y, b, x, c);
  }

  lemma PartsOf<T(!new)>(a: seq<T>, x: T, b: seq<T>, y: T, c: seq<T>)
    ensures multiset(a + [x] + b + [y] + c) == multiset(a) + multiset(b) + multiset(c) + multiset{x, y}
  {
    assert multiset([x]) == multiset{x} && multiset([y]) == multiset{y};
  }

  lemma ExchangeRearranges<T(!new)>(s: seq<T>, t: seq<T>, l: int, r: int, i: int, j: int)
    requires Rearranged(s, t, l, r) && l <= i <= j <= r
    ensures Rearranged(s, t[i := t[j]][j := t[i]], l, r)
  {
    Exchange(t, i, j);
  }

  /** The part that may have moved holds the same items. */
  lemma SliceRearranged<T(!new)>(s: seq<T>, t: seq<T>, l: int, r: int)
    requires Rearranged(s, t, l, r)
    ensures multiset(s[l..r + 1]) == multiset(t[l..r + 1])
  {
    assert s == s[..l] + s[l..r + 1] + s[r + 1..];
    assert t == t[..l] + t[l..r + 1] + t[r + 1..];
    assert s[..l] == t[..l] && s[r + 1..] == t[r + 1..];
    Cancel(multiset(s[..l]), multiset(s[l..r + 1]), multiset(t[l..r + 1]), multiset(s[r + 1..]));
  }

  lemma Cancel<T(!new)>(x: multiset<T>, m: multiset<T>, n: multiset<T>, z: multiset<T>)
    requires x + m + z == x + n + z
    ensures m == n
  {
    assert m == (x + m + z) - x - z && n == (x + n + z) - x - z;
  }

  /** What holds of every item still does once they are rearranged. */
  lemma RearrangedBounds<T(!new)>(s: seq<T>, t: seq<T>, v: T, cmp: (T, T) -> bool)
    requires multiset(s) == multiset(t)
    ensures UpTo(s, v, cmp) ==> UpTo(t, v, cmp)
    ensures From(s, v, cmp) ==> From(t, v, cmp)
  {
    forall i | 0 <= i < |t| ensures t[i] in s {
      assert t[i] in multiset(t);
    }
  }

  /** Rearranging a part rearranges the whole. */
  lemma PartRearranged<T(!new)>(s: seq<T>, t: seq<T>, u: seq<T>, l: int, r: int, a: int, b: int)
    requires Rearranged(s, t, l, r) && Rearranged(t, u, a, b) && l <= a && b <= r
    ensures Rearranged(s, u, l, r)
  {
  }

  lemma SameOutside<T(!new)>(t: seq<T>, u: seq<T>, a: int, b: int, x: int, y: int)
    requires Rearranged(t, u, a, b) && 0 <= x <= y <= |t| && (y <= a || b < x)
    ensures t[x..y] == u[x..y]
  {
  }

  lemma PivotJoins<T(!new)>(x: seq<T>, m: seq<T>, y: seq<T>, v: T, cmp: (T, T) -> bool)
    requires StrictWeakOrder(cmp) && Sorted(x, cmp) && Sorted(y, cmp)
    requires UpTo(x, v, cmp) && UpTo(m, v, cmp) && From(m, v, cmp) && From(y, v, cmp)
    ensures Sorted(x + m + y, cmp)
  {
    var s := x + m + y;
    forall i, j | 0 <= i < j < |s| ensures !cmp(s[j], s[i]) {
      assert j < |x| || !cmp(s[j], v);
      assert i >= |x| + |m| || !cmp(v, s[i]);
      assert !cmp(s[j], v) && !cmp(v, s[i]) ==> !cmp(s[j], s[i]);
    }
  }

  /** Two sorted sides of a pivot make a sorted whole. */
  lemma SidesMakeWhole<T(!new)>(s0: seq<T>, s1: seq<T>, s2: seq<T>, l: int, r: int, pl: int, pr: int, v: T,
                                cmp: (T, T) -> bool)
    requires StrictWeakOrder(cmp) && 0 <= l < pl <= r + 1 <= |s0| && l - 1 <= pr < r && pr < pl
    requires UpTo(s0[l..pl], v, cmp) && From(s0[pr + 1..r + 1], v, cmp)
    requires Rearranged(s0, s1, l, pr) && Sorted(s1[l..pr + 1], cmp)
    requires Rearranged(s1, s2, pl, r) && Sorted(s2[pl..r + 1], cmp)
    ensures Sorted(s2[l..r + 1], cmp)
  {
    SameOutside(s1, s2, pl, r, l, pr + 1);
    SameOutside(s1, s2, pl, r, pr + 1, pl);
    SameOutside(s0, s1, l, pr, pr + 1, pl);
    SameOutside(s0, s1, l, pr, pl, r + 1);
    PartBounds(s0, l, pl, pr + 1, r + 1, v, cmp);
    SliceRearranged(s0, s1, l, pr);
    SliceRearranged(s1, s2, pl, r);
    RearrangedBounds(s0[l..pr + 1], s1[l..pr + 1], v, cmp);
    RearrangedBounds(s1[pl..r + 1], s2[pl..r + 1], v, cmp);
    PivotJoins(s2[l..pr + 1], s2[pr + 1..pl], s2[pl..r + 1], v, cmp);
    ThreeSlices(s2, l, pr + 1, pl, r + 1);
  }

  lemma ThreeSlices<T(!new)>(s: seq<T>, a: int, b: int, c: int, d: int)
    requires 0 <= a <= b <= c <= d <= |s|
    ensures s[a..b] + s[b..c] + s[c..d] == s[a..d]
  {
  }

  /** Bounds on two overlapping slices, for their three parts. */
  lemma PartBounds<T(!new)>(s: seq<T>, a: int, c: int, b: int, d: int, v: T, cmp: (T, T) -> bool)
    requires 0 <= a <= b <= c <= d <= |s| && UpTo(s[a..c], v, cmp) && From(s[b..d], v, cmp)
    ensures UpTo(s[a..b], v, cmp) && UpTo(s[b..c], v, cmp) && From(s[b..c], v, cmp) && From(s[c..d], v, cmp)
  {
    forall i | a <= i < c ensures !cmp(v, s[i]) {
      assert s[a..c][i - a] == s[i];
    }
    forall i | b <= i < d ensures !cmp(s[i], v) {
      assert s[b..d][i - b] == s[i];
    }
  }

  method Swap<T(!new)>(a: array<T>, i: int, j: int, ghost s: seq<T>, ghost l: int, ghost r: int)
    requires 0 <= l <= i <= j <= r < a.Length && Rearranged(s, a[..], l, r)
    modifies a
    ensures Rearranged(s, a[..], l, r)
    ensures a[i] == old(a[j]) && a[j] == old(a[i])
    ensures forall k :: 0 <= k < a.Length && k != i && k != j ==> a[k] == old(a[k])
  {
    ExchangeRearranges(s, a[..], l, r, i, j);
    a[i], a[j] := a[j], a[i];
    assert a[..] == old(a[..])[i := old(a[j])][j := old(a[i])];
  }

  /** Up to the first item that is not below the pivot; one lies at `hi`. */
  method SkipBelow<T(!new)>(a: array<T>, p: int, ghost hi: int, mid: T, cmp: (T, T) -> bool) returns (q: int)
    requires 0 <= p <= hi < a.Length && !cmp(a[hi], mid)
    ensures p <= q <= hi && !cmp(a[q], mid) && forall i :: p <= i < q ==> cmp(a[i], mid)
  {
    q := p;
    while cmp(a[q], mid)
      invariant p <= q <= hi && forall i :: p <= i < q ==> cmp(a[i], mid)
      decreases hi - q
    {
      q := q + 1;
    }
  }

  /** Down to the last item that is not above the pivot; one lies at `lo`. */
  method SkipAbove<T(!new)>(a: array<T>, ghost lo: int, p: int, mid: T, cmp: (T, T) -> bool) returns (q: int)
    requires 0 <= lo <= p < a.Length && !cmp(mid, a[lo])
    ensures lo <= q <= p && !cmp(mid, a[q]) && forall i :: q < i <= p ==> cmp(mid, a[i])
  {
    q := p;
    while cmp(mid, a[q])
      invariant lo <= q <= p && forall i :: q < i <= p ==> cmp(mid, a[i])
      decreases q - lo
    {
      q := q - 1;
    }
  }

  /** One pass of the partition: the two pointers cross, with nothing above the pivot on the left and
      nothing below it on the right. The inner loops test no bounds: an item that stops each of
      them lies ahead, first the pivot itself and then what the last exchange left there. */
  method Partition<T(!new)>(a: array<T>, l: int, r: int, cmp: (T, T) -> bool) returns (pl: int, pr: int, ghost pivot: T)
    requires StrictWeakOrder(cmp) && 0 <= l < r < a.Length
    modifies a
    ensures l < pl <= r + 1 && l - 1 <= pr < r && pr < pl
    ensures Rearranged(old(a[..]), a[..], l, r)
    ensures UpTo(a[l..pl], pivot, cmp) && From(a[pr + 1..r + 1], pivot, cmp)
  {
    pl, pr := l, r;
    var mid := a[(l + r) / 2];
    pivot := mid;
    ghost var lo, hi := (l + r) / 2, (l + r) / 2;
    while pl <= pr
      invariant l <= pl <= r + 1 && l - 1 <= pr <= r
      invariant pl <= pr ==> pl <= hi <= r && !cmp(a[hi], mid) && l <= lo <= pr && !cmp(mid, a[lo])
      invariant pl == l || pr == r ==> pl == l && pr == r && lo == hi
      invariant forall i :: l <= i < pl ==> !cmp(mid, a[i])
      invariant forall i :: pr < i <= r ==> !cmp(a[i], mid)
      invariant Rearranged(old(a[..]), a[..], l, r)
      decreases pr - pl
    {
      pl := SkipBelow(a, pl, hi, mid, cmp);
      pr := SkipAbove(a, lo, pr, mid, cmp);
      if pl <= pr {
        Swap(a, pl, pr, old(a[..]), l, r);
        lo, hi := pl, pr;
        pl, pr := pl + 1, pr - 1;
      }
    }
  }

  /** Any items, any strict weak order: sorted, and the same items. */
  method Sort<T(!new)>(a: array<T>, l: int, r: int, cmp: (T, T) -> bool)
    requires StrictWeakOrder(cmp) && 0 <= l <= r + 1 <= a.Length
    modifies a
    ensures Rearranged(old(a[..]), a[..], l, r)
    ensures Sorted(a[l..r + 1], cmp)
    decreases r - l
  {
    if l >= r {
      return;
    }
    var pl, pr;
    ghost var pivot;
    pl, pr, pivot := Partition(a, l, r, cmp);
    ghost var s0 := a[..];
    if l < pr {
      Sort(a, l, pr, cmp);
    }
    ghost var s1 := a[..];
    if pl < r {
      Sort(a, pl, r, cmp);
    }
    PartRearranged(old(a[..]), s0, s1, l, r, l, pr);
    PartRearranged(old(a[..]), s1, a[..], l, r, pl, r);
    SidesMakeWhole(s0, s1, a[..], l, r, pl, pr, pivot, cmp);
  }

  // ---------------------------------------------------------------- lists without repeats

  ghost predicate Unique<T(!new)>(s: seq<T>) {
    forall i, j :: 0 <= i < j < |s| ==> s[i] != s[j]
  }

  lemma OnceOnly<T(!new)>(s: seq<T>, i: int)
    requires Unique(s) && 0 <= i < |s|
    ensures multiset(s)[s[i]] == 1
  {
    assert s == s[..i] + [s[i]] + s[i + 1..];
    assert s[i] !in s[..i] && s[i] !in s[i + 1..];
  }

  lemma Twice<T(!new)>(s: seq<T>, i: int, j: int)
    requires 0 <= i < j < |s|
    ensures s[i] == s[j] ==> multiset(s)[s[i]] >= 2
  {
    assert s == s[..i] + [s[i]] + s[i + 1..j] + [s[j]] + s[j + 1..];
  }

  lemma SameMembers<T(!new)>(s: seq<T>, t: seq<T>)
    requires multiset(s) == multiset(t)
    ensures forall k :: k in s <==> k in t
  {
    forall k ensures k in s <==> k in t {
      assert k in s <==> k in multiset(s);
      assert k in t <==> k in multiset(t);
    }
  }

  /** Sorting brings no repeats. */
  lemma StillUnique<T(!new)>(s: seq<T>, t: seq<T>)
    requires Unique(s) && multiset(s) == multiset(t)
    ensures Unique(t)
  {
    SameMembers(s, t);
    forall i, j | 0 <= i < j < |t| ensures t[i] != t[j] {
      assert t[i] in s;
      var a :| 0 <= a < |s| && s[a] == t[i];
      OnceOnly(s, a);
      Twice(t, i, j);
    }
  }
}
