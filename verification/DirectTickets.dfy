/** Tickets without a change: two station scans joined by train. */
module DirectTickets {
  import opened Seats
  import opened Booking
  import opened BookingTrains
  import opened Sorting
  import TicketCommands

  datatype Ticket = Ticket(s: Station, t: Station)
  datatype Offer = Offer(ticket: Ticket, seats: int)

  function Cost(k: Ticket): int {
    k.t.price - k.s.price
  }

  function Time(k: Ticket): int {
    k.t.arriving - k.s.leaving
  }

  /** Ids compare as their places in the order of all ids. */
  ghost predicate Injective<T(!new)>(rank: T -> int) {
    forall x, y :: rank(x) == rank(y) ==> x == y
  }

  /** time_cmp or cost_cmp: the train id decides between equals. */
  predicate Before(a: Ticket, b: Ticket, byTime: bool, rank: TrainId -> int) {
    var x, y := if byTime then Time(a) else Cost(a), if byTime then Time(b) else Cost(b);
    if x == y then rank(a.s.train) < rank(b.s.train) else x < y
  }

  // ---------------------------------------------------------------- the station scan

  /** Every record of a station, each train once, in the order of train ids. */
  ghost predicate Listed(stations: map<(StationName, TrainId), Station>, name: StationName, ans: seq<Station>,
                         rank: TrainId -> int) {
    && (forall i :: 0 <= i < |ans| ==> (name, ans[i].train) in stations && stations[(name, ans[i].train)] == ans[i])
    && (forall t :: (name, t) in stations ==> stations[(name, t)] in ans)
    && Rising(ans, rank)
  }

  ghost predicate Rising(ans: seq<Station>, rank: TrainId -> int) {
    forall i, j :: 0 <= i < j < |ans| ==> rank(ans[i].train) < rank(ans[j].train)
  }

  lemma {:induction false} HasFirst(ts: set<TrainId>, rank: TrainId -> int)
    requires ts != {}
    ensures exists t :: t in ts && forall u :: u in ts ==> rank(t) <= rank(u)
    decreases |ts|
  {
    var x :| x in ts;
    if ts != {x} {
      var rest := ts - {x};
      assert ts == rest + {x};
      HasFirst(rest, rank);
      var m :| m in rest && forall u :: u in rest ==> rank(m) <= rank(u);
      var t := if rank(x) <= rank(m) then x else m;
      assert t in ts && forall u :: u in ts ==> rank(t) <= rank(u);
    }
  }

  /** The scan has still to reach the trains in `rest`. */
  ghost predicate ListedBut(stations: map<(StationName, TrainId), Station>, name: StationName, ans: seq<Station>,
                            rest: set<TrainId>, rank: TrainId -> int) {
    && (forall t :: t in rest ==> (name, t) in stations)
    && (forall i :: 0 <= i < |ans| ==> (name, ans[i].train) in stations && stations[(name, ans[i].train)] == ans[i])
    && (forall t :: (name, t) in stations ==> t in rest || stations[(name, t)] in ans)
    && (forall i, t :: 0 <= i < |ans| && t in rest ==> rank(ans[i].train) < rank(t))
    && Rising(ans, rank)
  }

  lemma ListNext(stations: map<(StationName, TrainId), Station>, name: StationName, ans: seq<Station>,
                 rest: set<TrainId>, rank: TrainId -> int, t: TrainId)
    requires ListedBut(stations, name, ans, rest, rank) && t in rest && stations[(name, t)].train == t
             && Injective(rank)
    requires forall u :: u in rest ==> rank(t) <= rank(u)
    ensures ListedBut(stations, name, ans + [stations[(name, t)]], rest - {t}, rank)
  {
    assert forall u :: u in rest && u != t ==> rank(t) < rank(u);
  }

  method ScanStations(stations: map<(StationName, TrainId), Station>, name: StationName,
                      rank: TrainId -> int) returns (ans: seq<Station>)
    requires Injective(rank) && forall k :: k in stations ==> stations[k].train == k.1
    ensures Listed(stations, name, ans, rank)
  {
    ans := [];
    var rest := set k | k in stations && k.0 == name :: k.1;
    while rest != {}
      invariant ListedBut(stations, name, ans, rest, rank)
      decreases |rest|
    {
      HasFirst(rest, rank);
      var t :| t in rest && forall u :: u in rest ==> rank(t) <= rank(u);
      ListNext(stations, name, ans, rest, rank, t);
      ans, rest := ans + [stations[(name, t)]], rest - {t};
    }
  }

  // ---------------------------------------------------------------- the join

  /** A ride from one record to the other, with the first stop left on the given day. */
  predicate Sells(s1: Station, t1: Station, day: Minute) {
    s1.train == t1.train && s1.index < t1.index && s1.saleStart <= day - DateOf(s1.leaving) <= s1.saleEnd
  }

  function IfSold(s1: Station, t1: Station, day: Minute): seq<Ticket> {
    if Sells(s1, t1, day) then [Ticket(s1, t1)] else []
  }

  function Row(s1: Station, ts: seq<Station>, day: Minute): seq<Ticket> {
    if ts == [] then []
    else IfSold(s1, ts[0], day) + Row(s1, ts[1..], day)
  }

  /** The plain nested loop over both lists. */
  function Nested(ss: seq<Station>, ts: seq<Station>, day: Minute): seq<Ticket> {
    if ss == [] then [] else Row(ss[0], ts, day) + Nested(ss[1..], ts, day)
  }

  lemma {:induction false} RowOfStranger(s1: Station, ts: seq<Station>, day: Minute)
    requires forall j :: 0 <= j < |ts| ==> ts[j].train != s1.train
    ensures Row(s1, ts, day) == []
  {
    if ts != [] {
      RowOfStranger(s1, ts[1..], day);
    }
  }

  lemma {:induction false} SkipFirst(ss: seq<Station>, ts: seq<Station>, day: Minute)
    requires ts != [] && forall i :: 0 <= i < |ss| ==> ss[i].train != ts[0].train
    ensures Nested(ss, ts, day) == Nested(ss, ts[1..], day)
  {
    if ss != [] {
      SkipFirst(ss[1..], ts, day);
    }
  }

  /** The heads agree: they meet nobody else. */
  lemma SkipBoth(ss: seq<Station>, ts: seq<Station>, day: Minute, rank: TrainId -> int)
    requires Rising(ss, rank) && Rising(ts, rank) && ss != [] && ts != [] && ss[0].train == ts[0].train
    ensures Nested(ss, ts, day) == IfSold(ss[0], ts[0], day) + Nested(ss[1..], ts[1..], day)
  {
    RowOfStranger(ss[0], ts[1..], day);
    SkipFirst(ss[1..], ts, day);
  }

  lemma NestedEnds(ss: seq<Station>, ts: seq<Station>, day: Minute)
    requires ss == [] || ts == []
    ensures Nested(ss, ts, day) == []
  {
    if ss != [] {
      NestedEnds(ss[1..], ts, day);
    }
  }

  /** What is left to find after each move of the walk. */
  lemma WalkOn(ss: seq<Station>, ts: seq<Station>, i: nat, j: nat, day: Minute, rank: TrainId -> int)
    requires Rising(ss, rank) && Rising(ts, rank) && Injective(rank) && i < |ss| && j < |ts|
    ensures rank(ss[i].train) < rank(ts[j].train) ==> Nested(ss[i..], ts[j..], day) == Nested(ss[i + 1..], ts[j..], day)
    ensures rank(ss[i].train) > rank(ts[j].train) ==> Nested(ss[i..], ts[j..], day) == Nested(ss[i..], ts[j + 1..], day)
    ensures rank(ss[i].train) == rank(ts[j].train) ==>
      Nested(ss[i..], ts[j..], day) == IfSold(ss[i], ts[j], day) + Nested(ss[i + 1..], ts[j + 1..], day)
  {
    var a, b := ss[i..], ts[j..];
    assert a[1..] == ss[i + 1..] && b[1..] == ts[j + 1..];
    if rank(ss[i].train) < rank(ts[j].train) {
      RowOfStranger(ss[i], b, day);
    } else if rank(ss[i].train) > rank(ts[j].train) {
      SkipFirst(a, b, day);
    } else {
      SkipBoth(a, b, day, rank);
    }
  }

  lemma Regroup(a: seq<Ticket>, k: Ticket, b: seq<Ticket>)
    ensures a + ([k] + b) == (a + [k]) + b
  {
  }

  /** What the walk still finds once it has come to i and j. */
  ghost function Walk(ss: seq<Station>, ts: seq<Station>, i: nat, j: nat, day: Minute,
                      rank: TrainId -> int): seq<Ticket>
    requires i <= |ss| && j <= |ts|
    decreases |ss| + |ts| - i - j
  {
    if i == |ss| || j == |ts| then []
    else if rank(ss[i].train) < rank(ts[j].train) then Walk(ss, ts, i + 1, j, day, rank)
    else if rank(ss[i].train) > rank(ts[j].train) then Walk(ss, ts, i, j + 1, day, rank)
    else IfSold(ss[i], ts[j], day) + Walk(ss, ts, i + 1, j + 1, day, rank)
  }

  lemma {:induction false} WalkIsNested(ss: seq<Station>, ts: seq<Station>, i: nat, j: nat, day: Minute,
                                        rank: TrainId -> int)
    requires Rising(ss, rank) && Rising(ts, rank) && Injective(rank) && i <= |ss| && j <= |ts|
    ensures Walk(ss, ts, i, j, day, rank) == Nested(ss[i..], ts[j..], day)
    decreases |ss| + |ts| - i - j
  {
    if i == |ss| || j == |ts| {
      NestedEnds(ss[i..], ts[j..], day);
    } else {
      WalkOn(ss, ts, i, j, day, rank);
      if rank(ss[i].train) < rank(ts[j].train) {
        WalkIsNested(ss, ts, i + 1, j, day, rank);
      } else if rank(ss[i].train) > rank(ts[j].train) {
        WalkIsNested(ss, ts, i, j + 1, day, rank);
      } else {
        WalkIsNested(ss, ts, i + 1, j + 1, day, rank);
      }
    }
  }

  /** The two-pointer walk finds what the nested loop finds, in the same order. */
  method Join(ss: seq<Station>, ts: seq<Station>, day: Minute, rank: TrainId -> int) returns (tickets: seq<Ticket>)
    requires Rising(ss, rank) && Rising(ts, rank) && Injective(rank)
    ensures tickets == Nested(ss, ts, day)
  {
    tickets := [];
    var i, j := 0, 0;
    ghost var whole := Walk(ss, ts, 0, 0, day, rank);
    ghost var left := whole;
    while i < |ss| && j < |ts|
      invariant 0 <= i <= |ss| && 0 <= j <= |ts|
      invariant left == Walk(ss, ts, i, j, day, rank) && tickets + left == whole
      decreases |ss| + |ts| - i - j
    {
      if rank(ss[i].train) < rank(ts[j].train) {
        i := i + 1;
      } else if rank(ss[i].train) > rank(ts[j].train) {
        j := j + 1;
      } else {
        left := Walk(ss, ts, i + 1, j + 1, day, rank);
        if Sells(ss[i], ts[j], day) {
          Regroup(tickets, Ticket(ss[i], ts[j]), left);
          tickets := tickets + [Ticket(ss[i], ts[j])];
        }
        i, j := i + 1, j + 1;
      }
    }
    WalkIsNested(ss, ts, 0, 0, day, rank);
    assert ss[0..] == ss && ts[0..] == ts;
  }

  // ---------------------------------------------------------------- what the join means

  lemma {:induction false} InRow(s1: Station, ts: seq<Station>, day: Minute, k: Ticket)
    ensures k in Row(s1, ts, day) <==> k.s == s1 && k.t in ts && Sells(s1, k.t, day)
  {
    if ts != [] {
      InRow(s1, ts[1..], day, k);
    }
  }

  lemma {:induction false} InNested(ss: seq<Station>, ts: seq<Station>, day: Minute, k: Ticket)
    ensures k in Nested(ss, ts, day) <==> k.s in ss && k.t in ts && Sells(k.s, k.t, day)
  {
    if ss != [] {
      InRow(ss[0], ts, day, k);
      InNested(ss[1..], ts, day, k);
    }
  }

  /** No two tickets for one train. */
  ghost predicate OnePerTrain(ks: seq<Ticket>) {
    forall i, j :: 0 <= i < j < |ks| ==> ks[i].s.train != ks[j].s.train
  }

  lemma {:induction false} RowIsShort(s1: Station, ts: seq<Station>, day: Minute, rank: TrainId -> int)
    requires Rising(ts, rank)
    ensures |Row(s1, ts, day)| <= 1
  {
    if ts != [] {
      RowIsShort(s1, ts[1..], day, rank);
      if ts[0].train == s1.train {
        RowOfStranger(s1, ts[1..], day);
      }
    }
  }

  lemma {:induction false} NestedOnePerTrain(ss: seq<Station>, ts: seq<Station>, day: Minute, rank: TrainId -> int)
    requires Rising(ss, rank) && Rising(ts, rank)
    ensures OnePerTrain(Nested(ss, ts, day))
  {
    if ss != [] {
      NestedOnePerTrain(ss[1..], ts, day, rank);
      RowIsShort(ss[0], ts, day, rank);
      var row, rest := Row(ss[0], ts, day), Nested(ss[1..], ts, day);
      forall k | k in rest ensures k.s.train != ss[0].train {
        InNested(ss[1..], ts, day, k);
      }
      forall k | k in row ensures k.s == ss[0] {
        InRow(ss[0], ts, day, k);
      }
    }
  }

  lemma StillOnePerTrain(s: seq<Ticket>, t: seq<Ticket>)
    requires OnePerTrain(s) && multiset(s) == multiset(t)
    ensures OnePerTrain(t)
  {
    StillUnique(s, t);
    SameMembers(s, t);
    forall i, j | 0 <= i < j < |t| ensures t[i].s.train != t[j].s.train {
      assert t[i] in s && t[j] in s;
      var a :| 0 <= a < |s| && s[a] == t[i];
      var b :| 0 <= b < |s| && s[b] == t[j];
    }
  }

  // ---------------------------------------------------------------- query_ticket

  /** Train x, setting out on day d, takes a passenger from stop f to stop t and leaves f on the given day. */
  ghost predicate Direct(s: State, start: StationName, end: StationName, day: Minute, x: TrainId, f: int, t: int,
                         d: Minute) {
    && x in s.trains && s.trains[x].released && TrainOk(s.trains[x])
    && IsStop(s.trains[x], f, start) && IsStop(s.trains[x], t, end) && f < t
    && SaleDay(s.trains[x], d) && day <= d + s.trains[x].leaving[f] < day + 1440
  }

  function TicketOf(tr: Train, x: TrainId, f: int, t: int): Ticket
    requires TrainOk(tr) && 1 <= f <= tr.stationNum && 1 <= t <= tr.stationNum
  {
    Ticket(StationOf(tr, x, f), StationOf(tr, x, t))
  }

  /** The ticket shows the train's own times and fares at the two stops. */
  ghost predicate Shows(tr: Train, k: Ticket, f: int, t: int)
    requires TrainOk(tr) && 1 <= f <= tr.stationNum && 1 <= t <= tr.stationNum
  {
    && k.s.index == f && k.s.leaving == tr.leaving[f] && k.s.price == tr.prices[f]
    && k.t.index == t && k.t.arriving == tr.arriving[t] && k.t.price == tr.prices[t]
  }

  /** The listing is about real rides and states the seats left on them. */
  ghost predicate OfferOk(s: State, start: StationName, end: StationName, day: Minute, o: Offer) {
    var x, f, t := o.ticket.s.train, o.ticket.s.index, o.ticket.t.index;
    exists d {:trigger Direct(s, start, end, day, x, f, t, d)} ::
      && Direct(s, start, end, day, x, f, t, d) && Shows(s.trains[x], o.ticket, f, t)
      && (x, d) in s.days && t <= |s.days[(x, d)]| && IsMin(s.days[(x, d)], f, t - 1, o.seats)
  }

  /** A ride is on offer. */
  ghost predicate Offered(offers: seq<Offer>, x: TrainId, f: int, t: int) {
    exists i :: 0 <= i < |offers| && offers[i].ticket.s.train == x && offers[i].ticket.s.index == f
                && offers[i].ticket.t.index == t
  }

  /** Trains call at a station at most once. */
  ghost predicate NoRepeats(s: State) {
    forall x :: x in s.trains ==> TicketCommands.DistinctStops(s.trains[x])
  }

  ghost predicate Matches(s: State, start: StationName, end: StationName, day: Minute, k: Ticket) {
    && (start, k.s.train) in s.stations && s.stations[(start, k.s.train)] == k.s
    && (end, k.t.train) in s.stations && s.stations[(end, k.t.train)] == k.t
    && Sells(k.s, k.t, day)
  }

  lemma MatchIsDirect(s: State, start: StationName, end: StationName, day: Minute, k: Ticket)
    requires Integrity(s) && day % DAY == 0 && Matches(s, start, end, day, k)
    ensures Direct(s, start, end, day, k.s.train, k.s.index, k.t.index, day - DateOf(k.s.leaving))
    ensures k == TicketOf(s.trains[k.s.train], k.s.train, k.s.index, k.t.index)
  {
    assert StationsOk(s);
    var tr := s.trains[k.s.train];
    TicketCommands.DayAligned(day, k.s.leaving, tr.saleStart);
    BoardingDay(day, day - DateOf(k.s.leaving), k.s.leaving);
  }

  lemma DirectIsMatch(s: State, start: StationName, end: StationName, day: Minute, x: TrainId, f: int, t: int,
                      d: Minute)
    requires Integrity(s) && NoRepeats(s) && day % DAY == 0 && Direct(s, start, end, day, x, f, t, d)
    ensures Matches(s, start, end, day, TicketOf(s.trains[x], x, f, t))
  {
    assert StationsOk(s);
    assert TicketCommands.DistinctStops(s.trains[x]);
    StopRecorded(s, x, f);
    StopRecorded(s, x, t);
    BoardingDay(day, d, s.trains[x].leaving[f]);
  }

  lemma StopRecorded(s: State, x: TrainId, f: int)
    requires StationsOk(s) && x in s.trains && s.trains[x].released && TrainOk(s.trains[x])
             && TicketCommands.DistinctStops(s.trains[x])
    requires 1 <= f <= s.trains[x].stationNum
    ensures var k := (s.trains[x].stations[f], x); k in s.stations && s.stations[k] == StationOf(s.trains[x], x, f)
  {
    var k := (s.trains[x].stations[f], x);
    assert k in s.stations && IsStop(s.trains[x], s.stations[k].index, k.0);
  }

  method SortTickets(ks: seq<Ticket>, byTime: bool, rank: TrainId -> int) returns (r: seq<Ticket>)
    requires Injective(rank) && OnePerTrain(ks)
    ensures multiset(r) == multiset(ks)
    ensures forall i, j :: 0 <= i < j < |r| ==> Before(r[i], r[j], byTime, rank)
  {
    var a := new Ticket[|ks|](i requires 0 <= i < |ks| => ks[i]);
    assert a[..] == ks;
    var cmp := (x, y) => Before(x, y, byTime, rank);
    Sort(a, 0, |ks| - 1, cmp);
    r := a[..];
    assert r[0..|ks|] == r && ks[0..|ks|] == ks;
    StillOnePerTrain(ks, r);
    forall i, j | 0 <= i < j < |r| ensures Before(r[i], r[j], byTime, rank) {
      assert !cmp(r[j], r[i]);
    }
  }

  /** The tickets of all trains that stop at both stations in the right order. */
  method FindTickets(s: State, start: StationName, end: StationName, day: Minute,
                     rank: TrainId -> int) returns (ks: seq<Ticket>)
    requires StationsOk(s) && Injective(rank)
    ensures OnePerTrain(ks)
    ensures forall k :: k in ks <==> Matches(s, start, end, day, k)
  {
    var ss := ScanStations(s.stations, start, rank);
    var ts := ScanStations(s.stations, end, rank);
    ks := Join(ss, ts, day, rank);
    NestedOnePerTrain(ss, ts, day, rank);
    forall k ensures k in ks <==> Matches(s, start, end, day, k) {
      InNested(ss, ts, day, k);
      ScanHas(s, start, ss, rank, k.s);
      ScanHas(s, end, ts, rank, k.t);
    }
  }

  lemma ScanHas(s: State, name: StationName, ans: seq<Station>, rank: TrainId -> int, z: Station)
    requires Listed(s.stations, name, ans, rank)
    ensures z in ans <==> (name, z.train) in s.stations && s.stations[(name, z.train)] == z
  {
  }

  /** Nobody rides from a station to itself. */
  lemma SameStation(s: State, name: StationName, day: Minute)
    requires NoRepeats(s)
    ensures forall x, f, t, d :: !Direct(s, name, name, day, x, f, t, d)
  {
    forall x, f, t, d ensures !Direct(s, name, name, day, x, f, t, d) {
      if x in s.trains {
        assert TicketCommands.DistinctStops(s.trains[x]);
      }
    }
  }

  lemma AllDirect(s: State, start: StationName, end: StationName, day: Minute, found: seq<Ticket>, offers: seq<Offer>)
    requires Integrity(s) && NoRepeats(s) && day % DAY == 0 && |found| == |offers|
    requires forall k :: k in found <==> Matches(s, start, end, day, k)
    requires forall i :: 0 <= i < |offers| ==> offers[i].ticket == found[i]
    ensures forall x, f, t, d :: Direct(s, start, end, day, x, f, t, d) ==> Offered(offers, x, f, t)
  {
    forall x, f, t, d | Direct(s, start, end, day, x, f, t, d) ensures Offered(offers, x, f, t) {
      DirectIsMatch(s, start, end, day, x, f, t, d);
      var k := TicketOf(s.trains[x], x, f, t);
      assert k in found;
      var i :| 0 <= i < |found| && found[i] == k;
      assert offers[i].ticket == k;
    }
  }

  method SeatsLeft(s: State, ghost start: StationName, ghost end: StationName, day: Minute,
                   k: Ticket) returns (seats: int)
    requires Integrity(s) && day % DAY == 0 && Matches(s, start, end, day, k)
    ensures OfferOk(s, start, end, day, Offer(k, seats))
  {
    MatchIsDirect(s, start, end, day, k);
    var d := day - DateOf(k.s.leaving);
    assert Direct(s, start, end, day, k.s.train, k.s.index, k.t.index, d);
    TicketCommands.SeatsOnRecord(s, k.s.train, d);
    seats := QuerySeat(s.days[(k.s.train, d)], k.s.index, k.t.index - 1);
  }

  method Priced(s: State, ghost start: StationName, ghost end: StationName, day: Minute,
                ks: seq<Ticket>) returns (offers: seq<Offer>)
    requires Integrity(s) && day % DAY == 0 && forall k :: k in ks ==> Matches(s, start, end, day, k)
    ensures |offers| == |ks|
    ensures forall i :: 0 <= i < |ks| ==> offers[i].ticket == ks[i]
    ensures forall i :: 0 <= i < |ks| ==> OfferOk(s, start, end, day, offers[i])
  {
    offers := [];
    for i := 0 to |ks|
      invariant |offers| == i
      invariant forall j :: 0 <= j < i ==> offers[j].ticket == ks[j]
      invariant forall j :: 0 <= j < i ==> OfferOk(s, start, end, day, offers[j])
    {
      assert ks[i] in ks;
      var seats := SeatsLeft(s, start, end, day, ks[i]);
      offers := offers + [Offer(ks[i], seats)];
    }
  }

  /** Every direct ride once, in the asked order, with the seats left on it. The record of the day
      is always there. */
  method QueryTicket(s: State, legal: bool, start: StationName, end: StationName, day: Minute, byTime: bool,
                     rank: TrainId -> int)
    returns (offers: seq<Offer>)
    requires Integrity(s) && NoRepeats(s) && Injective(rank) && day % DAY == 0
    ensures !legal ==> offers == []
    ensures forall i :: 0 <= i < |offers| ==> OfferOk(s, start, end, day, offers[i])
    ensures legal ==> forall x, f, t, d :: Direct(s, start, end, day, x, f, t, d) ==> Offered(offers, x, f, t)
    ensures forall i, j :: 0 <= i < j < |offers| ==>
      var a, b := offers[i].ticket, offers[j].ticket;
      && (byTime ==> a.t.arriving - a.s.leaving <= b.t.arriving - b.s.leaving)
      && (!byTime ==> a.t.price - a.s.price <= b.t.price - b.s.price)
      && ((if byTime then a.t.arriving - a.s.leaving == b.t.arriving - b.s.leaving
           else a.t.price - a.s.price == b.t.price - b.s.price) ==> rank(a.s.train) < rank(b.s.train))
  {
    if !legal {
      return [];
    }
    if start == end {
      SameStation(s, start, day);
      return [];
    }
    var found := FindTickets(s, start, end, day, rank);
    var ks := SortTickets(found, byTime, rank);
    SameMembers(found, ks);
    offers := Priced(s, start, end, day, ks);
    AllDirect(s, start, end, day, ks, offers);
  }
}
