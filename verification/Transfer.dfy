/** Tickets with one change: the best journey over two trains, every shared stop and every day the
    second train runs. */
module Transfer {
  import opened Seats
  import opened Booking
  import opened BookingTrains
  import opened Sorting
  import opened DirectTickets
  import TrainRecord

  /** Two trains: the first boarded at stop f, having left its first stop on day1; the second left at stop to. */
  datatype Pair = Pair(x: TrainId, first: Train, f: int, day1: Minute, y: TrainId, second: Train, to: int)
  /** Change at stop k of the first train, which is stop l of the second, which sets out on day2. */
  datatype Journey = Journey(p: Pair, k: int, l: int, day2: Minute)
  datatype Plan = Plan(j: Journey, seats1: int, seats2: int)
  datatype Option<T> = None | Some(value: T)
  datatype Score = Score(a: int, b: int, c: int)
  datatype Best = Best(score: Score, plan: Option<Plan>)

  const WORST := Score(MAX_INT, MAX_INT, MAX_INT)

  predicate Less(u: Score, v: Score) {
    u.a < v.a || (u.a == v.a && u.b < v.b) || (u.a == v.a && u.b == v.b && u.c < v.c)
  }

  // ---------------------------------------------------------------- journeys

  ghost predicate PairOk(s: State, start: StationName, end: StationName, day: Minute, p: Pair) {
    && p.x in s.trains && s.trains[p.x] == p.first && p.first.released && TrainOk(p.first)
    && p.y in s.trains && s.trains[p.y] == p.second && p.second.released && TrainOk(p.second)
    && p.x != p.y && IsStop(p.first, p.f, start) && IsStop(p.second, p.to, end)
    && SaleDay(p.first, p.day1) && day <= p.day1 + p.first.leaving[p.f] < day + 1440
  }

  ghost predicate Shaped(p: Pair) {
    TrainOk(p.first) && TrainOk(p.second) && 1 <= p.f <= p.first.stationNum && 1 <= p.to <= p.second.stationNum
  }

  ghost predicate Change(p: Pair, k: int, l: int) {
    && Shaped(p) && p.f < k <= p.first.stationNum && 1 <= l < p.to
    && p.first.stations[k] == p.second.stations[l]
  }

  /** The second train runs that day and leaves no earlier than the first arrives. */
  ghost predicate Catches(p: Pair, k: int, l: int, d: Minute)
    requires Change(p, k, l)
  {
    SaleDay(p.second, d) && d + p.second.leaving[l] >= p.day1 + p.first.arriving[k]
  }

  ghost predicate IsJourney(s: State, start: StationName, end: StationName, day: Minute, j: Journey) {
    PairOk(s, start, end, day, j.p) && Change(j.p, j.k, j.l) && Catches(j.p, j.k, j.l, j.day2)
  }

  ghost function Price(j: Journey): int
    requires Change(j.p, j.k, j.l)
  {
    j.p.first.prices[j.k] - j.p.first.prices[j.p.f] + (j.p.second.prices[j.p.to] - j.p.second.prices[j.l])
  }

  ghost function Duration(j: Journey): int
    requires Change(j.p, j.k, j.l)
  {
    j.day2 + j.p.second.arriving[j.p.to] - (j.p.day1 + j.p.first.leaving[j.p.f])
  }

  ghost function FirstRide(j: Journey): int
    requires Change(j.p, j.k, j.l)
  {
    j.p.first.arriving[j.k] - j.p.first.leaving[j.p.f]
  }

  /** Price and duration as the trains were listed: the prices of all legs, and the time of both rides with
      the wait between them, which is never negative. */
  lemma JourneyTerms(s: State, start: StationName, end: StationName, day: Minute, j: Journey,
                     l1: TrainRecord.Listing, l2: TrainRecord.Listing)
    requires IsJourney(s, start, end, day, j) && TrainRecord.Runs(j.p.first, l1) && TrainRecord.Runs(j.p.second, l2)
    ensures Price(j) == TrainRecord.Fare(l1, j.p.f, j.k) + TrainRecord.Fare(l2, j.l, j.p.to)
    ensures FirstRide(j) == TrainRecord.RideTime(l1, j.p.f, j.k)
    ensures var wait := (j.day2 + j.p.second.leaving[j.l]) - (j.p.day1 + j.p.first.arriving[j.k]);
        wait >= 0 && Duration(j) == FirstRide(j) + wait + TrainRecord.RideTime(l2, j.l, j.p.to)
  {
    TrainRecord.FareIsSumOfLegs(j.p.first, l1, j.p.f, j.k);
    TrainRecord.FareIsSumOfLegs(j.p.second, l2, j.l, j.p.to);
    TrainRecord.TimeIsLegsAndWaits(j.p.first, l1, j.p.f, j.k);
    TrainRecord.TimeIsLegsAndWaits(j.p.second, l2, j.l, j.p.to);
  }

  /** Time or price first, then the other, then the time on the first train. */
  ghost function ScoreOf(j: Journey, byCost: bool): Score
    requires Change(j.p, j.k, j.l)
  {
    if byCost then Score(Price(j), Duration(j), FirstRide(j)) else Score(Duration(j), Price(j), FirstRide(j))
  }

  // ---------------------------------------------------------------- the earliest day

  /** fast_start_day2. */
  function FastDay(day1: Minute, arriving: Minute, leaving: Minute): Minute {
    day1 + DateOf(arriving) - DateOf(leaving) + if arriving % DAY <= leaving % DAY then 0 else DAY
  }

  /** It is the earliest day on which the change works. */
  lemma EarliestDay(day1: Minute, arriving: Minute, leaving: Minute, d: Minute)
    requires day1 % DAY == 0 && d % DAY == 0
    ensures FastDay(day1, arriving, leaving) % DAY == 0
    ensures d + leaving >= day1 + arriving <==> d >= FastDay(day1, arriving, leaving)
  {
    var a, b := arriving / DAY, leaving / DAY;
    var n, m := day1 / DAY, d / DAY;
    assert DateOf(arriving) == a * DAY && DateOf(leaving) == b * DAY && day1 == n * DAY && d == m * DAY;
  }

  // ---------------------------------------------------------------- the running best

  /** No way to change between k and l beats the best so far. */
  ghost predicate Covered(b: Score, p: Pair, k: int, l: int, byCost: bool)
    requires Change(p, k, l)
  {
    forall d :: Catches(p, k, l, d) ==> !Less(ScoreOf(Journey(p, k, l, d), byCost), b)
  }

  ghost predicate AllCovered(b: Score, p: Pair, byCost: bool) {
    forall k, l {:trigger Covered(b, p, k, l, byCost)} :: Change(p, k, l) ==> Covered(b, p, k, l, byCost)
  }

  ghost predicate SeatsShown(s: State, q: Plan)
    requires Change(q.j.p, q.j.k, q.j.l)
  {
    var p := q.j.p;
    && (p.x, p.day1) in s.days && q.j.k <= |s.days[(p.x, p.day1)]|
       && IsMin(s.days[(p.x, p.day1)], p.f, q.j.k - 1, q.seats1)
    && (p.y, q.j.day2) in s.days && p.to <= |s.days[(p.y, q.j.day2)]|
       && IsMin(s.days[(p.y, q.j.day2)], q.j.l, p.to - 1, q.seats2)
  }

  ghost predicate BestOk(s: State, start: StationName, end: StationName, day: Minute, best: Best, byCost: bool) {
    match best.plan
    case None => best.score == WORST
    case Some(q) => IsJourney(s, start, end, day, q.j) && best.score == ScoreOf(q.j, byCost) && SeatsShown(s, q)
  }

  lemma BetterCovers(b: Score, c: Score, p: Pair, k: int, l: int, byCost: bool)
    requires Change(p, k, l) && Covered(b, p, k, l, byCost) && !Less(b, c)
    ensures Covered(c, p, k, l, byCost)
  {
    forall d | Catches(p, k, l, d) ensures !Less(ScoreOf(Journey(p, k, l, d), byCost), c) {
      assert !Less(ScoreOf(Journey(p, k, l, d), byCost), b);
    }
  }

  lemma BetterCoversAll(b: Score, c: Score, p: Pair, byCost: bool)
    requires AllCovered(b, p, byCost) && !Less(b, c)
    ensures AllCovered(c, p, byCost)
  {
    forall k, l | Change(p, k, l) ensures Covered(c, p, k, l, byCost) {
      assert Covered(b, p, k, l, byCost);
      BetterCovers(b, c, p, k, l, byCost);
    }
  }

  /** Later days only make the journey longer. */
  lemma EarliestCovers(b: Score, p: Pair, k: int, l: int, byCost: bool, d0: Minute)
    requires Change(p, k, l) && !Less(ScoreOf(Journey(p, k, l, d0), byCost), b)
    requires forall d :: Catches(p, k, l, d) ==> d0 <= d
    ensures Covered(b, p, k, l, byCost)
  {
    forall d | Catches(p, k, l, d) ensures !Less(ScoreOf(Journey(p, k, l, d), byCost), b) {
      assert d0 <= d;
    }
  }

  lemma WholeDays(tr: Train, d: Minute)
    requires TrainOk(tr)
    ensures SaleDay(tr, d) <==> tr.saleStart <= d <= tr.saleEnd && d % DAY == 0
  {
  }

  /** When the second train can be caught at all, and on which day first. */
  lemma FirstCatch(p: Pair, k: int, l: int)
    requires Change(p, k, l) && p.day1 % DAY == 0 && p.second.saleStart <= p.second.saleEnd
    ensures var fast := FastDay(p.day1, p.first.arriving[k], p.second.leaving[l]);
      var d0 := if fast < p.second.saleStart then p.second.saleStart else fast;
      && (p.second.saleEnd < fast ==> forall d :: !Catches(p, k, l, d))
      && (p.second.saleEnd >= fast ==> Catches(p, k, l, d0))
      && (forall d :: Catches(p, k, l, d) ==> d0 <= d)
  {
    var fast := FastDay(p.day1, p.first.arriving[k], p.second.leaving[l]);
    var d0 := if fast < p.second.saleStart then p.second.saleStart else fast;
    EarliestDay(p.day1, p.first.arriving[k], p.second.leaving[l], p.day1);
    assert d0 % DAY == 0;
    EarliestDay(p.day1, p.first.arriving[k], p.second.leaving[l], d0);
    WholeDays(p.second, d0);
    forall d | Catches(p, k, l, d) ensures d0 <= d && fast <= d {
      WholeDays(p.second, d);
      EarliestDay(p.day1, p.first.arriving[k], p.second.leaving[l], d);
    }
  }

  /** The first day the change works, and the journey's score then. */
  method Quickest(p: Pair, k: int, l: int, byCost: bool) returns (caught: bool, d: Minute, score: Score)
    requires Change(p, k, l) && p.day1 % DAY == 0 && p.second.saleStart <= p.second.saleEnd
    ensures !caught ==> forall d' :: !Catches(p, k, l, d')
    ensures caught ==> Catches(p, k, l, d) && score == ScoreOf(Journey(p, k, l, d), byCost)
    ensures forall d' :: Catches(p, k, l, d') ==> d <= d'
  {
    FirstCatch(p, k, l);
    var fast := FastDay(p.day1, p.first.arriving[k], p.second.leaving[l]);
    if p.second.saleEnd < fast {
      return false, fast, WORST;
    }
    d := if fast < p.second.saleStart then p.second.saleStart else fast;
    var cost := p.first.prices[k] - p.first.prices[p.f] + p.second.prices[p.to] - p.second.prices[l];
    var time := (d + p.second.arriving[p.to]) - (p.day1 + p.first.leaving[p.f]);
    var ride := p.first.arriving[k] - p.first.leaving[p.f];
    score := if byCost then Score(cost, time, ride) else Score(time, cost, ride);
    caught := true;
  }

  lemma LessIsStrict(a: Score, b: Score)
    ensures !(Less(a, b) && Less(b, a)) && !Less(b, b)
  {
  }

  method TakePlan(s: State, ghost start: StationName, ghost end: StationName, ghost day: Minute, p: Pair, k: int,
                  l: int, d: Minute, score: Score, ghost byCost: bool)
    returns (next: Best)
    requires Integrity(s) && PairOk(s, start, end, day, p) && Change(p, k, l) && Catches(p, k, l, d)
             && score == ScoreOf(Journey(p, k, l, d), byCost)
    ensures BestOk(s, start, end, day, next, byCost) && next.score == score
  {
    var seats1, seats2 := ReadSeats(s, p, k, l, d);
    next := Best(score, Some(Plan(Journey(p, k, l, d), seats1, seats2)));
  }

  /** One shared stop is tried. */
  method TryChange(s: State, ghost start: StationName, ghost end: StationName, ghost day: Minute, p: Pair, k: int,
                   l: int, best: Best, byCost: bool)
    returns (next: Best)
    requires Integrity(s) && p.day1 % DAY == 0 && p.second.saleStart <= p.second.saleEnd
    requires PairOk(s, start, end, day, p) && Change(p, k, l) && BestOk(s, start, end, day, best, byCost)
    ensures BestOk(s, start, end, day, next, byCost) && !Less(best.score, next.score)
    ensures Covered(next.score, p, k, l, byCost)
  {
    var caught, d, score := Quickest(p, k, l, byCost);
    if !caught {
      return best;
    }
    next := best;
    LessIsStrict(score, best.score);
    if Less(score, best.score) {
      next := TakePlan(s, start, end, day, p, k, l, d, score, byCost);
    }
    EarliestCovers(next.score, p, k, l, byCost, d);
  }

  /** Both day records are there. */
  method ReadSeats(s: State, p: Pair, k: int, l: int, d: Minute) returns (seats1: int, seats2: int)
    requires Integrity(s) && Change(p, k, l) && OnSale(s, p.x, p.day1) && OnSale(s, p.y, d)
    requires s.trains[p.x] == p.first && s.trains[p.y] == p.second
    ensures SeatsShown(s, Plan(Journey(p, k, l, d), seats1, seats2))
  {
    TicketCommands.SeatsOnRecord(s, p.x, p.day1);
    TicketCommands.SeatsOnRecord(s, p.y, d);
    seats1 := QuerySeat(s.days[(p.x, p.day1)], p.f, k - 1);
    seats2 := QuerySeat(s.days[(p.y, d)], l, p.to - 1);
  }

  // ---------------------------------------------------------------- all shared stops

  type Stop = (StationName, int)

  /** The stops lo..hi of a train, in the order of their names. */
  ghost predicate StopList(v: seq<Stop>, tr: Train, lo: int, hi: int) {
    && (forall i :: 0 <= i < |v| ==> lo <= v[i].1 <= hi && 0 <= v[i].1 < |tr.stations| && v[i].0 == tr.stations[v[i].1])
    && (forall k :: lo <= k <= hi && 0 <= k < |tr.stations| ==> (tr.stations[k], k) in v)
  }

  ghost predicate ByName(v: seq<Stop>, rank: StationName -> int) {
    forall i, j :: 0 <= i < j < |v| ==> rank(v[i].0) <= rank(v[j].0)
  }

  method ListStops(tr: Train, lo: int, hi: int) returns (v: seq<Stop>)
    requires 0 <= lo && hi < |tr.stations|
    ensures StopList(v, tr, lo, hi)
  {
    v := [];
    var k := lo;
    while k <= hi
      invariant lo <= k && (lo <= hi ==> k <= hi + 1) && |v| == k - lo
      invariant forall i :: 0 <= i < |v| ==> v[i].1 == lo + i && v[i].1 <= hi && v[i].0 == tr.stations[lo + i]
    {
      v := v + [(tr.stations[k], k)];
      k := k + 1;
    }
    forall k | lo <= k <= hi ensures (tr.stations[k], k) in v {
      assert v[k - lo] == (tr.stations[k], k);
    }
  }

  method SortStops(u: seq<Stop>, ghost tr: Train, ghost lo: int, ghost hi: int,
                   rank: StationName -> int) returns (v: seq<Stop>)
    requires StopList(u, tr, lo, hi)
    ensures StopList(v, tr, lo, hi) && ByName(v, rank)
  {
    var a := new Stop[|u|](i requires 0 <= i < |u| => u[i]);
    assert a[..] == u;
    var cmp := (x: Stop, y: Stop) => rank(x.0) < rank(y.0);
    Sort(a, 0, |u| - 1, cmp);
    v := a[..];
    assert v[0..|u|] == v && u[0..|u|] == u;
    StopsStay(u, v, tr, lo, hi);
    forall i, j | 0 <= i < j < |v| ensures rank(v[i].0) <= rank(v[j].0) {
      assert !cmp(v[j], v[i]);
    }
  }

  lemma StopsStay(u: seq<Stop>, v: seq<Stop>, tr: Train, lo: int, hi: int)
    requires StopList(u, tr, lo, hi) && multiset(u) == multiset(v)
    ensures StopList(v, tr, lo, hi)
  {
    forall i | 0 <= i < |v| ensures v[i] in u {
      assert v[i] in multiset(v);
    }
    forall x | x in u ensures x in v {
      assert x in multiset(u);
    }
  }

  /** What the walk over both lists has dealt with. */
  ghost predicate Walked(b: Score, p: Pair, byCost: bool, us: seq<Stop>, vs: seq<Stop>, i: int, j: int) {
    forall m, n :: 0 <= m < |us| && 0 <= n < |vs| && (m < i || n < j) && Change(p, us[m].1, vs[n].1) ==>
      Covered(b, p, us[m].1, vs[n].1, byCost)
  }

  /** The heads differ, so the smaller one meets nobody still ahead. */
  lemma WalkPast(b: Score, p: Pair, byCost: bool, us: seq<Stop>, vs: seq<Stop>, i: int, j: int,
                 rank: StationName -> int)
    requires StopList(us, p.first, p.f + 1, p.first.stationNum) && StopList(vs, p.second, 1, p.to - 1)
    requires ByName(us, rank) && ByName(vs, rank) && Walked(b, p, byCost, us, vs, i, j) && 0 <= i < |us|
             && 0 <= j < |vs|
    ensures rank(us[i].0) < rank(vs[j].0) ==> Walked(b, p, byCost, us, vs, i + 1, j)
    ensures rank(us[i].0) > rank(vs[j].0) ==> Walked(b, p, byCost, us, vs, i, j + 1)
  {
    assert forall n :: j <= n < |vs| ==> rank(vs[j].0) <= rank(vs[n].0);
    assert forall m :: i <= m < |us| ==> rank(us[i].0) <= rank(us[m].0);
  }

  /** The heads agree and have been tried; no other stop bears the name. */
  lemma WalkBoth(b: Score, c: Score, p: Pair, byCost: bool, us: seq<Stop>, vs: seq<Stop>, i: int, j: int)
    requires StopList(us, p.first, p.f + 1, p.first.stationNum) && StopList(vs, p.second, 1, p.to - 1) && Shaped(p)
    requires TicketCommands.DistinctStops(p.first) && TicketCommands.DistinctStops(p.second)
    requires Walked(b, p, byCost, us, vs, i, j) && 0 <= i < |us| && 0 <= j < |vs| && us[i].0 == vs[j].0
    requires Change(p, us[i].1, vs[j].1) && Covered(c, p, us[i].1, vs[j].1, byCost) && !Less(b, c)
    ensures Walked(c, p, byCost, us, vs, i + 1, j + 1)
  {
    forall m, n | 0 <= m < |us| && 0 <= n < |vs| && (m < i + 1 || n < j + 1) && Change(p, us[m].1, vs[n].1)
      ensures Covered(c, p, us[m].1, vs[n].1, byCost)
    {
      if m < i || n < j {
        BetterCovers(b, c, p, us[m].1, vs[n].1, byCost);
      } else {
        assert us[m].1 == us[i].1 && vs[n].1 == vs[j].1;
      }
    }
  }

  lemma WalkedAll(b: Score, p: Pair, byCost: bool, us: seq<Stop>, vs: seq<Stop>, i: int, j: int)
    requires StopList(us, p.first, p.f + 1, p.first.stationNum) && StopList(vs, p.second, 1, p.to - 1)
    requires Walked(b, p, byCost, us, vs, i, j) && (i >= |us| || j >= |vs|)
    ensures AllCovered(b, p, byCost)
  {
    forall k, l | Change(p, k, l) ensures Covered(b, p, k, l, byCost) {
      var m :| 0 <= m < |us| && us[m] == (p.first.stations[k], k);
      var n :| 0 <= n < |vs| && vs[n] == (p.second.stations[l], l);
      assert Change(p, us[m].1, vs[n].1);
    }
  }

  method TryHeads(s: State, ghost start: StationName, ghost end: StationName, ghost day: Minute, p: Pair, best: Best,
                  byCost: bool,
                  us: seq<Stop>, vs: seq<Stop>, i: int, j: int)
    returns (next: Best)
    requires Integrity(s) && p.day1 % DAY == 0 && p.second.saleStart <= p.second.saleEnd
    requires TicketCommands.DistinctStops(p.first) && TicketCommands.DistinctStops(p.second)
    requires PairOk(s, start, end, day, p) && BestOk(s, start, end, day, best, byCost)
    requires StopList(us, p.first, p.f + 1, p.first.stationNum) && StopList(vs, p.second, 1, p.to - 1)
    requires Walked(best.score, p, byCost, us, vs, i, j) && 0 <= i < |us| && 0 <= j < |vs| && us[i].0 == vs[j].0
    ensures BestOk(s, start, end, day, next, byCost) && !Less(best.score, next.score)
    ensures Walked(next.score, p, byCost, us, vs, i + 1, j + 1)
  {
    next := TryChange(s, start, end, day, p, us[i].1, vs[j].1, best, byCost);
    WalkBoth(best.score, next.score, p, byCost, us, vs, i, j);
  }

  lemma StillBetter(a: Score, b: Score, c: Score)
    requires !Less(a, b) && !Less(b, c)
    ensures !Less(a, c)
  {
  }

  /** The two-pointer walk over both lists of stops. */
  method Walk(s: State, ghost start: StationName, ghost end: StationName, ghost day: Minute, p: Pair, best: Best,
              byCost: bool, rank: StationName -> int,
              us: seq<Stop>, vs: seq<Stop>)
    returns (next: Best)
    requires Integrity(s) && p.day1 % DAY == 0 && p.second.saleStart <= p.second.saleEnd && Injective(rank)
    requires TicketCommands.DistinctStops(p.first) && TicketCommands.DistinctStops(p.second)
    requires PairOk(s, start, end, day, p) && BestOk(s, start, end, day, best, byCost)
    requires StopList(us, p.first, p.f + 1, p.first.stationNum) && StopList(vs, p.second, 1, p.to - 1)
    requires ByName(us, rank) && ByName(vs, rank)
    ensures BestOk(s, start, end, day, next, byCost) && !Less(best.score, next.score)
    ensures AllCovered(next.score, p, byCost)
  {
    next := best;
    var i, j := 0, 0;
    while i < |us| && j < |vs|
      invariant 0 <= i <= |us| && 0 <= j <= |vs|
      invariant BestOk(s, start, end, day, next, byCost) && !Less(best.score, next.score)
      invariant Walked(next.score, p, byCost, us, vs, i, j)
      decreases |us| + |vs| - i - j
    {
      WalkPast(next.score, p, byCost, us, vs, i, j, rank);
      if rank(us[i].0) < rank(vs[j].0) {
        i := i + 1;
      } else if rank(us[i].0) > rank(vs[j].0) {
        j := j + 1;
      } else {
        ghost var was := next.score;
        next := TryHeads(s, start, end, day, p, next, byCost, us, vs, i, j);
        StillBetter(best.score, was, next.score);
        i, j := i + 1, j + 1;
      }
    }
    WalkedAll(next.score, p, byCost, us, vs, i, j);
  }

  method TryPair(s: State, ghost start: StationName, ghost end: StationName, ghost day: Minute, p: Pair, best: Best,
                 byCost: bool, rank: StationName -> int)
    returns (next: Best)
    requires Integrity(s) && p.day1 % DAY == 0 && p.second.saleStart <= p.second.saleEnd && Injective(rank)
    requires TicketCommands.DistinctStops(p.first) && TicketCommands.DistinctStops(p.second)
    requires PairOk(s, start, end, day, p) && BestOk(s, start, end, day, best, byCost)
    ensures BestOk(s, start, end, day, next, byCost) && !Less(best.score, next.score)
    ensures AllCovered(next.score, p, byCost)
  {
    var us := ListStops(p.first, p.f + 1, p.first.stationNum);
    var vs := ListStops(p.second, 1, p.to - 1);
    if us == [] || vs == [] {
      WalkedAll(best.score, p, byCost, us, vs, 0, 0);
      return best;
    }
    next := SortAndWalk(s, start, end, day, p, best, byCost, rank, us, vs);
  }

  method SortAndWalk(s: State, ghost start: StationName, ghost end: StationName, ghost day: Minute, p: Pair,
                     best: Best, byCost: bool, rank: StationName -> int, us0: seq<Stop>, vs0: seq<Stop>)
    returns (next: Best)
    requires Integrity(s) && p.day1 % DAY == 0 && p.second.saleStart <= p.second.saleEnd && Injective(rank)
    requires TicketCommands.DistinctStops(p.first) && TicketCommands.DistinctStops(p.second)
    requires PairOk(s, start, end, day, p) && BestOk(s, start, end, day, best, byCost)
    requires StopList(us0, p.first, p.f + 1, p.first.stationNum) && StopList(vs0, p.second, 1, p.to - 1)
             && us0 != [] && vs0 != []
    ensures BestOk(s, start, end, day, next, byCost) && !Less(best.score, next.score)
    ensures AllCovered(next.score, p, byCost)
  {
    var us := SortStops(us0, p.first, p.f + 1, p.first.stationNum, rank);
    var vs := SortStops(vs0, p.second, 1, p.to - 1, rank);
    next := Walk(s, start, end, day, p, best, byCost, rank, us, vs);
  }

  // ---------------------------------------------------------------- all pairs of trains

  const LIMIT := 0x1000_0000

  /** Times and prices of a size that 32-bit sums of a few of them hold. The last stop is never left,
      so no time of leaving is given for it. */
  ghost predicate InRange(tr: Train) {
    && tr.saleEnd <= LIMIT
    && (forall i :: 1 <= i <= tr.stationNum && i < |tr.arriving| && i < |tr.prices| ==>
         0 <= tr.arriving[i] <= LIMIT && 0 <= tr.prices[i] <= LIMIT)
    && (forall i :: 1 <= i < tr.stationNum && i < |tr.leaving| ==> 0 <= tr.leaving[i] <= LIMIT)
  }

  /** What add_train is trusted with: sale days in order, a station at most once. */
  ghost predicate Queryable(s: State) {
    forall x :: x in s.trains ==>
      TicketCommands.DistinctStops(s.trains[x]) && s.trains[x].saleStart <= s.trains[x].saleEnd && InRange(s.trains[x])
  }

  predicate Boardable(s1: Station, day: Minute) {
    s1.saleStart <= day - DateOf(s1.leaving) <= s1.saleEnd
  }

  function PairOf(s: State, day: Minute, s1: Station, t1: Station): Pair
    requires s1.train in s.trains && t1.train in s.trains
  {
    Pair(s1.train, s.trains[s1.train], s1.index, day - DateOf(s1.leaving), t1.train, s.trains[t1.train], t1.index)
  }

  ghost predicate PairCovered(b: Score, s: State, day: Minute, s1: Station, t1: Station, byCost: bool) {
    s1.train in s.trains && t1.train in s.trains && Boardable(s1, day) && s1.train != t1.train ==>
      AllCovered(b, PairOf(s, day, s1, t1), byCost)
  }

  ghost predicate RowCovered(b: Score, s: State, day: Minute, s1: Station, ts: seq<Station>, n: int, byCost: bool) {
    forall j {:trigger PairCovered(b, s, day, s1, ts[j], byCost)} :: 0 <= j < n && j < |ts| ==>
        PairCovered(b, s, day, s1, ts[j], byCost)
  }

  lemma BetterCoversRow(b: Score, c: Score, s: State, day: Minute, s1: Station, ts: seq<Station>, n: int, byCost: bool)
    requires RowCovered(b, s, day, s1, ts, n, byCost) && !Less(b, c)
    ensures RowCovered(c, s, day, s1, ts, n, byCost)
  {
    forall j | 0 <= j < n && j < |ts| ensures PairCovered(c, s, day, s1, ts[j], byCost) {
      assert PairCovered(b, s, day, s1, ts[j], byCost);
      if s1.train in s.trains && ts[j].train in s.trains && Boardable(s1, day) && s1.train != ts[j].train {
        BetterCoversAll(b, c, PairOf(s, day, s1, ts[j]), byCost);
      }
    }
  }

  lemma RowGrows(b: Score, c: Score, s: State, day: Minute, s1: Station, ts: seq<Station>, n: nat, byCost: bool)
    requires RowCovered(b, s, day, s1, ts, n, byCost) && n < |ts| && !Less(b, c)
             && PairCovered(c, s, day, s1, ts[n], byCost)
    ensures RowCovered(c, s, day, s1, ts, n + 1, byCost)
  {
    BetterCoversRow(b, c, s, day, s1, ts, n, byCost);
  }

  ghost predicate RowsCovered(b: Score, s: State, day: Minute, ss: seq<Station>, n: int, ts: seq<Station>,
                              byCost: bool) {
    forall i {:trigger RowCovered(b, s, day, ss[i], ts, |ts|, byCost)} :: 0 <= i < n && i < |ss| ==>
        RowCovered(b, s, day, ss[i], ts, |ts|, byCost)
  }

  lemma RowsGrow(b: Score, c: Score, s: State, day: Minute, ss: seq<Station>, n: nat, ts: seq<Station>, byCost: bool)
    requires RowsCovered(b, s, day, ss, n, ts, byCost) && n < |ss| && !Less(b, c)
    requires Boardable(ss[n], day) ==> RowCovered(c, s, day, ss[n], ts, |ts|, byCost)
    ensures RowsCovered(c, s, day, ss, n + 1, ts, byCost)
  {
    forall i | 0 <= i < n + 1 ensures RowCovered(c, s, day, ss[i], ts, |ts|, byCost) {
      if i < n {
        assert RowCovered(b, s, day, ss[i], ts, |ts|, byCost);
        BetterCoversRow(b, c, s, day, ss[i], ts, |ts|, byCost);
      }
    }
  }

  /** A record of the station database. */
  ghost predicate OnRecord(s: State, name: StationName, z: Station) {
    (name, z.train) in s.stations && s.stations[(name, z.train)] == z
  }

  lemma PairIsOk(s: State, start: StationName, end: StationName, day: Minute, s1: Station, t1: Station)
    requires Integrity(s) && Queryable(s) && day % DAY == 0 && OnRecord(s, start, s1) && OnRecord(s, end, t1)
    requires Boardable(s1, day) && s1.train != t1.train
    ensures s1.train in s.trains && t1.train in s.trains && PairOk(s, start, end, day, PairOf(s, day, s1, t1))
    ensures TicketCommands.DistinctStops(s.trains[s1.train]) && TicketCommands.DistinctStops(s.trains[t1.train])
    ensures s.trains[t1.train].saleStart <= s.trains[t1.train].saleEnd && PairOf(s, day, s1, t1).day1 % DAY == 0
  {
    assert StationsOk(s);
    TicketCommands.DayAligned(day, s1.leaving, s.trains[s1.train].saleStart);
    BoardingDay(day, day - DateOf(s1.leaving), s1.leaving);
  }

  /** One train of each scan. */
  method TryStations(s: State, start: StationName, end: StationName, day: Minute, s1: Station, t1: Station, best: Best,
                     byCost: bool, rank: StationName -> int)
    returns (next: Best)
    requires Integrity(s) && Queryable(s) && day % DAY == 0 && Injective(rank)
    requires OnRecord(s, start, s1) && Boardable(s1, day) && OnRecord(s, end, t1)
             && BestOk(s, start, end, day, best, byCost)
    ensures BestOk(s, start, end, day, next, byCost) && !Less(best.score, next.score)
    ensures PairCovered(next.score, s, day, s1, t1, byCost)
  {
    if s1.train == t1.train {
      return best;
    }
    next := TryTwoTrains(s, start, end, day, s1, t1, best, byCost, rank);
  }

  method TryTwoTrains(s: State, start: StationName, end: StationName, day: Minute, s1: Station, t1: Station, best: Best,
                      byCost: bool, rank: StationName -> int)
    returns (next: Best)
    requires Integrity(s) && Queryable(s) && day % DAY == 0 && Injective(rank) && s1.train != t1.train
    requires OnRecord(s, start, s1) && Boardable(s1, day) && OnRecord(s, end, t1)
             && BestOk(s, start, end, day, best, byCost)
    ensures BestOk(s, start, end, day, next, byCost) && !Less(best.score, next.score)
    ensures PairCovered(next.score, s, day, s1, t1, byCost)
  {
    PairIsOk(s, start, end, day, s1, t1);
    next := TryPair(s, start, end, day, PairOf(s, day, s1, t1), best, byCost, rank);
  }

  /** One first train with every second train. */
  method TryTrain(s: State, start: StationName, end: StationName, day: Minute, s1: Station, ts: seq<Station>,
                  best: Best, byCost: bool, rank: StationName -> int)
    returns (next: Best)
    requires Integrity(s) && Queryable(s) && day % DAY == 0 && Injective(rank)
    requires OnRecord(s, start, s1) && Boardable(s1, day) && BestOk(s, start, end, day, best, byCost)
    requires forall j :: 0 <= j < |ts| ==> OnRecord(s, end, ts[j])
    ensures BestOk(s, start, end, day, next, byCost) && !Less(best.score, next.score)
    ensures RowCovered(next.score, s, day, s1, ts, |ts|, byCost)
  {
    next := best;
    for j := 0 to |ts|
      invariant BestOk(s, start, end, day, next, byCost) && !Less(best.score, next.score)
      invariant RowCovered(next.score, s, day, s1, ts, j, byCost)
    {
      ghost var was := next.score;
      next := TryStations(s, start, end, day, s1, ts[j], next, byCost, rank);
      StillBetter(best.score, was, next.score);
      RowGrows(was, next.score, s, day, s1, ts, j, byCost);
    }
  }

  method TryAll(s: State, start: StationName, end: StationName, day: Minute, ss: seq<Station>, ts: seq<Station>,
                byCost: bool, rank: StationName -> int)
    returns (best: Best)
    requires Integrity(s) && Queryable(s) && day % DAY == 0 && Injective(rank)
    requires forall i :: 0 <= i < |ss| ==> OnRecord(s, start, ss[i])
    requires forall j :: 0 <= j < |ts| ==> OnRecord(s, end, ts[j])
    ensures BestOk(s, start, end, day, best, byCost)
    ensures RowsCovered(best.score, s, day, ss, |ss|, ts, byCost)
  {
    best := Best(WORST, None);
    for i := 0 to |ss|
      invariant BestOk(s, start, end, day, best, byCost)
      invariant RowsCovered(best.score, s, day, ss, i, ts, byCost)
    {
      ghost var was := best.score;
      if Boardable(ss[i], day) {
        best := TryTrain(s, start, end, day, ss[i], ts, best, byCost, rank);
      }
      RowsGrow(was, best.score, s, day, ss, i, ts, byCost);
    }
  }

  /** Every journey is among the pairs the scans give. */
  lemma JourneyCovered(s: State, start: StationName, end: StationName, day: Minute, ss: seq<Station>, ts: seq<Station>,
                       b: Score, byCost: bool, rank: TrainId -> int, j: Journey)
    requires Integrity(s) && Queryable(s) && day % DAY == 0 && IsJourney(s, start, end, day, j)
    requires Listed(s.stations, start, ss, rank) && Listed(s.stations, end, ts, rank)
    requires RowsCovered(b, s, day, ss, |ss|, ts, byCost)
    ensures !Less(ScoreOf(j, byCost), b)
  {
    StopRecorded(s, j.p.x, j.p.f);
    StopRecorded(s, j.p.y, j.p.to);
    var s1, t1 := StationOf(j.p.first, j.p.x, j.p.f), StationOf(j.p.second, j.p.y, j.p.to);
    ListedHas(s, start, ss, rank, s1);
    ListedHas(s, end, ts, rank, t1);
    InRows(s, day, ss, ts, b, byCost, s1, t1);
    CoveredJourney(s, start, end, day, s1, t1, b, byCost, j);
  }

  lemma ListedHas(s: State, name: StationName, ans: seq<Station>, rank: TrainId -> int, z: Station)
    requires Listed(s.stations, name, ans, rank) && OnRecord(s, name, z)
    ensures z in ans
  {
  }

  lemma InRows(s: State, day: Minute, ss: seq<Station>, ts: seq<Station>, b: Score, byCost: bool, s1: Station,
               t1: Station)
    requires s1 in ss && t1 in ts
    requires RowsCovered(b, s, day, ss, |ss|, ts, byCost)
    ensures PairCovered(b, s, day, s1, t1, byCost)
  {
    var m :| 0 <= m < |ss| && ss[m] == s1;
    var n :| 0 <= n < |ts| && ts[n] == t1;
    assert RowCovered(b, s, day, ss[m], ts, |ts|, byCost);
    assert PairCovered(b, s, day, ss[m], ts[n], byCost);
  }

  lemma CoveredJourney(s: State, start: StationName, end: StationName, day: Minute, s1: Station, t1: Station, b: Score,
                       byCost: bool, j: Journey)
    requires IsJourney(s, start, end, day, j) && day % DAY == 0 && PairCovered(b, s, day, s1, t1, byCost)
    requires s1 == StationOf(j.p.first, j.p.x, j.p.f) && t1 == StationOf(j.p.second, j.p.y, j.p.to)
    ensures !Less(ScoreOf(j, byCost), b)
  {
    WholeDays(j.p.first, j.p.day1);
    BoardingDay(day, j.p.day1, s1.leaving);
    assert PairOf(s, day, s1, t1) == j.p;
    assert Covered(b, j.p, j.k, j.l, byCost);
    assert Journey(j.p, j.k, j.l, j.day2) == j;
  }

  /** Times in range are never worse than the worst. */
  lemma NeverWorst(s: State, start: StationName, end: StationName, day: Minute, j: Journey, byCost: bool)
    requires Queryable(s) && 0 <= day && IsJourney(s, start, end, day, j)
    ensures var z := ScoreOf(j, byCost); z.a < MAX_INT && z.b < MAX_INT && z.c < MAX_INT
  {
    assert InRange(j.p.first) && InRange(j.p.second);
  }

  /** By cost, j is not cheaper than b, nor shorter at the same price; by time the other way round; and if
      both are the same, its first ride is not shorter. */
  ghost predicate NoneBetter(b: Journey, j: Journey, byCost: bool)
    requires Change(b.p, b.k, b.l) && Change(j.p, j.k, j.l)
  {
    && (byCost ==> Price(b) <= Price(j) && (Price(b) == Price(j) ==> Duration(b) <= Duration(j)))
    && (!byCost ==> Duration(b) <= Duration(j) && (Duration(b) == Duration(j) ==> Price(b) <= Price(j)))
    && (Price(b) == Price(j) && Duration(b) == Duration(j) ==> FirstRide(b) <= FirstRide(j))
  }

  lemma NotLess(b: Journey, j: Journey, byCost: bool)
    requires Change(b.p, b.k, b.l) && Change(j.p, j.k, j.l)
    requires !Less(ScoreOf(j, byCost), ScoreOf(b, byCost))
    ensures NoneBetter(b, j, byCost)
  {
  }

  /** The best journey with one change, and none exactly when there is none. */
  method QueryTransfer(s: State, legal: bool, start: StationName, end: StationName, day: Minute, byCost: bool,
                       rank: TrainId -> int, nameRank: StationName -> int)
    returns (r: Option<Plan>)
    requires Integrity(s) && Queryable(s) && 0 <= day && day % DAY == 0 && Injective(rank) && Injective(nameRank)
    ensures !legal || start == end ==> r.None?
    ensures r.Some? ==> IsJourney(s, start, end, day, r.value.j) && SeatsShown(s, r.value)
    ensures r.Some? ==> forall j :: IsJourney(s, start, end, day, j) ==> NoneBetter(r.value.j, j, byCost)
    ensures r.None? && legal && start != end ==> forall j :: !IsJourney(s, start, end, day, j)
  {
    if !legal || start == end {
      return None;
    }
    var ss := ScanStations(s.stations, start, rank);
    var ts := ScanStations(s.stations, end, rank);
    var best := TryAll(s, start, end, day, ss, ts, byCost, nameRank);
    forall j | IsJourney(s, start, end, day, j)
      ensures !Less(ScoreOf(j, byCost), best.score) && Less(ScoreOf(j, byCost), WORST)
    {
      JourneyCovered(s, start, end, day, ss, ts, best.score, byCost, rank, j);
      NeverWorst(s, start, end, day, j, byCost);
    }
    if best.score.c != MAX_INT {
      r := best.plan;
      forall j | IsJourney(s, start, end, day, j) ensures NoneBetter(r.value.j, j, byCost) {
        NotLess(r.value.j, j, byCost);
      }
    } else {
      r := None;
    }
  }
}
