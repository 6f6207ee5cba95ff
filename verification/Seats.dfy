/** The seats left on one train on one day, segment by segment: seats[j] for the ride from stop j
    to stop j + 1. Index 0 is not used. */
module Seats {
  const MAX_INT := 0x7fff_ffff

  type SeatRow = seq<int>

  /** Change the seats of segments l..r, both included. */
  function Shifted(s: SeatRow, l: int, r: int, val: int): (t: SeatRow)
    ensures |t| == |s|
    ensures forall j :: 0 <= j < |s| ==> t[j] == s[j] + if l <= j <= r then val else 0
  {
    seq(|s|, j requires 0 <= j < |s| => s[j] + if l <= j <= r then val else 0)
  }

  /** A ride from one stop to another finds enough seats on every segment. */
  predicate Fits(s: SeatRow, from: int, to: int, num: int)
    requires 0 <= from && to <= |s|
  {
    forall j :: from <= j < to ==> s[j] >= num
  }

  method ModifySeat(s: SeatRow, l: int, r: int, val: int) returns (t: SeatRow)
    requires 0 <= l && r < |s|
    ensures t == Shifted(s, l, r, val)
  {
    t := s;
    var i := l;
    while i <= r
      invariant l <= i && (l <= r ==> i <= r + 1) && |t| == |s|
      invariant forall j :: 0 <= j < |s| ==> t[j] == s[j] + if l <= j < i && j <= r then val else 0
    {
      t := t[i := t[i] + val];
      i := i + 1;
    }
  }

  /** `m` is the smallest number of seats on segments l..r, MAX_INT when there are none. */
  ghost predicate IsMin(s: SeatRow, l: int, r: int, m: int)
    requires 0 <= l && r < |s|
  {
    && m <= MAX_INT && (forall j :: l <= j <= r ==> m <= s[j])
    && (m == MAX_INT || exists j :: l <= j <= r && s[j] == m)
  }

  method QuerySeat(s: SeatRow, l: int, r: int) returns (ans: int)
    requires 0 <= l && r < |s|
    ensures IsMin(s, l, r, ans)
  {
    ans := MAX_INT;
    var i := l;
    while i <= r
      invariant l <= i && (l <= r ==> i <= r + 1)
      invariant ans <= MAX_INT && (forall j :: l <= j < i && j <= r ==> ans <= s[j])
      invariant ans == MAX_INT || exists j :: l <= j < i && j <= r && s[j] == ans
    {
      ans := if s[i] < ans then s[i] else ans;
      i := i + 1;
    }
  }

  /** The smallest number of seats decides what fits. */
  lemma MinDecides(s: SeatRow, l: int, r: int, m: int, num: int)
    requires 0 <= l && r < |s| && IsMin(s, l, r, m) && num <= MAX_INT
    ensures m >= num <==> Fits(s, l, r + 1, num)
  {
  }
}
