/** A train record, built from what its command line lists: sums of the prices, and the times at each
    stop. */
module TrainRecord {
  import opened Seats
  import opened Booking

  /** Names of the stops, price and travelling time of each leg, waiting time at each stop between. */
  datatype Listing = Listing(totalSeats: int, stations: seq<StationName>, prices: seq<int>, start: Minute,
                             travel: seq<Minute>, stops: seq<Minute>, saleStart: Minute, saleEnd: Minute)

  /** What the command line is trusted with: as many legs and stops as the names call for, no negative
      times, and sale dates at midnight. */
  ghost predicate Listed(l: Listing) {
    && |l.stations| >= 2 && |l.prices| == |l.stations| - 1 && |l.travel| == |l.stations| - 1
       && |l.stops| == |l.stations| - 2
    && 0 <= l.totalSeats <= MAX_INT && 0 <= l.start && l.saleStart % DAY == 0
    && (forall i :: 0 <= i < |l.travel| ==> l.travel[i] >= 0) && (forall i :: 0 <= i < |l.stops| ==> l.stops[i] >= 0)
  }

  function Total(s: seq<int>): int {
    if s == [] then 0 else Total(s[..|s| - 1]) + s[|s| - 1]
  }

  lemma TotalNext(s: seq<int>, k: nat)
    requires k < |s|
    ensures Total(s[..k + 1]) == Total(s[..k]) + s[k]
  {
    assert s[..k + 1][..k] == s[..k];
  }

  /** Fares are sums of legs; stop after stop the train arrives a leg after it left, and leaves a wait
      after it arrived. */
  ghost predicate Runs(tr: Train, l: Listing) {
    && TrainOk(tr) && Listed(l) && tr.stationNum == |l.stations|
    && (forall k :: 1 <= k <= tr.stationNum ==>
         tr.stations[k] == l.stations[k - 1] && tr.prices[k] == Total(l.prices[..k - 1]))
    && tr.leaving[1] == l.start
    && (forall k {:trigger LegAt(tr, l, k)} :: 1 <= k < tr.stationNum ==> LegAt(tr, l, k))
    && (forall k {:trigger WaitAt(tr, l, k)} :: 2 <= k < tr.stationNum ==> WaitAt(tr, l, k))
  }

  /** From stop k to the next. */
  ghost predicate LegAt(tr: Train, l: Listing, k: int) {
    && 1 <= k < |tr.leaving| && k + 1 < |tr.arriving| && k <= |l.travel|
    && tr.arriving[k + 1] == tr.leaving[k] + l.travel[k - 1]
  }

  /** At stop k. */
  ghost predicate WaitAt(tr: Train, l: Listing, k: int) {
    && 2 <= k < |tr.leaving| && k < |tr.arriving| && k - 1 <= |l.stops|
    && tr.leaving[k] == tr.arriving[k] + l.stops[k - 2]
  }

  lemma StillRuns(tr: Train, l: Listing)
    requires Runs(tr, l)
    ensures Runs(tr.(released := true), l)
  {
    var u := tr.(released := true);
    forall k | 1 <= k < tr.stationNum ensures LegAt(u, l, k) {
      assert LegAt(tr, l, k);
    }
    forall k | 2 <= k < tr.stationNum ensures WaitAt(u, l, k) {
      assert WaitAt(tr, l, k);
    }
  }

  method NewTrain(l: Listing) returns (tr: Train)
    requires Listed(l)
    ensures Runs(tr, l) && !tr.released && tr.stations[1..] == l.stations
    ensures tr.totalSeats == l.totalSeats && tr.saleStart == l.saleStart && tr.saleEnd == l.saleEnd
  {
    var n := |l.stations|;
    var prices := SumPrices(l.prices);
    var arriving, leaving := Times(l);
    tr := Train(n, l.totalSeats, [l.stations[0]] + l.stations, prices, arriving, leaving, l.saleStart, l.saleEnd,
                false);
  }

  /** Getting to the first stop is free. */
  method SumPrices(prices: seq<int>) returns (sums: seq<int>)
    ensures |sums| == |prices| + 2 && forall k :: 1 <= k <= |prices| + 1 ==> sums[k] == Total(prices[..k - 1])
  {
    sums := [0, 0];
    for k := 0 to |prices|
      invariant |sums| == k + 2 && forall i :: 1 <= i <= k + 1 ==> sums[i] == Total(prices[..i - 1])
    {
      TotalNext(prices, k);
      sums := sums + [sums[k + 1] + prices[k]];
    }
  }

  method Times(l: Listing) returns (arriving: seq<Minute>, leaving: seq<Minute>)
    requires Listed(l)
    ensures var n := |l.stations|;
      && |arriving| == n + 1 && |leaving| == n + 1 && leaving[1] == l.start
      && (forall k :: 1 <= k < n ==> arriving[k + 1] == leaving[k] + l.travel[k - 1])
      && (forall k :: 2 <= k < n ==> leaving[k] == arriving[k] + l.stops[k - 2])
      && (forall k :: 1 <= k <= n ==> leaving[k] >= 0)
  {
    var n := |l.stations|;
    arriving, leaving := [0, 0], [0, l.start];
    for i := 1 to n - 1
      invariant |arriving| == i + 1 && |leaving| == i + 1 && leaving[1] == l.start
      invariant forall k :: 1 <= k < i ==> arriving[k + 1] == leaving[k] + l.travel[k - 1]
      invariant forall k :: 2 <= k <= i ==> leaving[k] == arriving[k] + l.stops[k - 2]
      invariant forall k :: 1 <= k <= i ==> leaving[k] >= 0
    {
      var a := leaving[i] + l.travel[i - 1];
      arriving, leaving := arriving + [a], leaving + [a + l.stops[i - 1]];
    }
    arriving := arriving + [leaving[n - 1] + l.travel[n - 2]];
    leaving := leaving + [MAX_INT];
  }

  // ---------------------------------------------------------------- what the record promises

  lemma {:induction false} TotalBetween(s: seq<int>, a: nat, b: nat)
    requires a <= b <= |s|
    ensures Total(s[..b]) - Total(s[..a]) == Total(s[a..b])
  {
    if a < b {
      TotalBetween(s, a, b - 1);
      TotalNext(s, b - 1);
      assert s[a..b][..b - a - 1] == s[a..b - 1];
    }
  }

  /** Total is the sum: nothing for no leg, the price for one, and it adds up. */
  lemma {:induction false} TotalIsSum(a: seq<int>, b: seq<int>, x: int)
    ensures Total([]) == 0 && Total([x]) == x && Total(a + b) == Total(a) + Total(b)
    decreases |b|
  {
    assert Total([x]) == Total([x][..0]) + x;
    if b == [] {
      assert a + b == a;
    } else {
      assert (a + b)[..|a + b| - 1] == a + b[..|b| - 1];
      TotalIsSum(a, b[..|b| - 1], x);
    }
  }

  /** A ride costs the sum of its legs. */
  lemma FareIsSumOfLegs(tr: Train, l: Listing, f: nat, t: nat)
    requires Runs(tr, l) && 1 <= f <= t <= tr.stationNum
    ensures tr.prices[t] - tr.prices[f] == Fare(l, f, t)
  {
    TotalBetween(l.prices, f - 1, t - 1);
  }

  lemma TotalSlice(s: seq<int>, a: nat, b: nat)
    requires a < b <= |s|
    ensures Total(s[a..b]) == Total(s[a..b - 1]) + s[b - 1]
  {
    assert s[a..b][..b - a - 1] == s[a..b - 1];
  }

  /** What is listed for a ride: the prices of its legs, and their times with the waits between them. */
  ghost function Fare(l: Listing, f: nat, t: nat): int
    requires 1 <= f <= t <= |l.prices| + 1
  {
    Total(l.prices[f - 1..t - 1])
  }

  ghost function RideTime(l: Listing, f: nat, t: nat): int
    requires 1 <= f < t <= |l.travel| + 1 && t <= |l.stops| + 2
  {
    Total(l.travel[f - 1..t - 1]) + Total(l.stops[f - 1..t - 2])
  }

  lemma FirstLeg(l: Listing, f: nat)
    requires 1 <= f <= |l.travel| && f <= |l.stops| + 1
    ensures RideTime(l, f, f + 1) == l.travel[f - 1]
  {
    assert l.travel[f - 1..f] == [l.travel[f - 1]] && l.stops[f - 1..f - 1] == [];
    TotalIsSum([], [], l.travel[f - 1]);
  }

  lemma NextLeg(l: Listing, f: nat, t: nat)
    requires 1 <= f && f + 1 < t <= |l.travel| + 1 && t <= |l.stops| + 2
    ensures RideTime(l, f, t) == RideTime(l, f, t - 1) + l.stops[t - 3] + l.travel[t - 2]
  {
    TotalSlice(l.travel, f - 1, t - 1);
    TotalSlice(l.stops, f - 1, t - 2);
  }

  /** A ride takes as long as its legs and the waits between them. */
  lemma {:induction false} TimeIsLegsAndWaits(tr: Train, l: Listing, f: nat, t: nat)
    requires Runs(tr, l) && 1 <= f < t <= tr.stationNum
    ensures tr.arriving[t] - tr.leaving[f] == RideTime(l, f, t)
  {
    assert LegAt(tr, l, t - 1);
    if f + 1 < t {
      assert WaitAt(tr, l, t - 1);
      TimeIsLegsAndWaits(tr, l, f, t - 1);
      NextLeg(l, f, t);
    } else {
      FirstLeg(l, f);
    }
  }

  /** A train arrives at a later stop no earlier than it left an earlier one. */
  lemma {:induction false} TimesRise(tr: Train, l: Listing, f: nat, t: nat)
    requires Runs(tr, l) && 1 <= f < t <= tr.stationNum
    ensures tr.leaving[f] <= tr.arriving[t]
  {
    assert LegAt(tr, l, t - 1);
    if f + 1 < t {
      assert WaitAt(tr, l, t - 1);
      TimesRise(tr, l, f, t - 1);
    }
  }
}
