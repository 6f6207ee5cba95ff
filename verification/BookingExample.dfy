/** A run in which a refund leaves an order waiting that would fit. */
module BookingExample {
  import opened Seats
  import opened Booking
  import opened BookingQueue
  import opened BookingLaws
  import opened BookingTrains
  import opened BookingRuns

  /** Two stations, 100 seats, one sale day. */
  ghost function Line(a: StationName, b: StationName, released: bool): Train {
    Train(2, 100, [a, a, b], [0, 0, 5], [0, 0, 60], [0, 0, 0], 0, 0, released)
  }

  /** 40 seats, then 70, which have to wait, then 60. */
  ghost function Nth(t: TrainId, u: User, n: int): Order {
    if n == 1 then Order(u, t, 40, 5, 1, 0, 1, 2, Success)
    else if n == 2 then Order(u, t, 70, 5, 2, 0, 1, 2, Pending)
    else Order(u, t, 60, 5, 3, 0, 1, 2, Success)
  }

  ghost function Opened(t: TrainId, a: StationName, b: StationName): State {
    EMPTY.(trains := map[t := Line(a, b, true)], days := map[(t, 0) := [0, 100, 100]],
           stations := map[(a, t) := Station(t, a, 0, 0, 0, 0, 0, 1), (b, t) := Station(t, b, 5, 0, 0, 60, 0, 2)])
  }

  /** The first n orders have come in. */
  ghost function Stage(t: TrainId, u: User, a: StationName, b: StationName, n: nat): State {
    if n == 0 then Opened(t, a, b)
    else
      var s := Stage(t, u, a, b, n - 1);
      var o := Nth(t, u, n);
      if (t, 0) in s.days then SetOrder(s, o) else s
  }

  ghost function States(t: TrainId, u: User, a: StationName, b: StationName): seq<State> {
    [EMPTY, EMPTY.(trains := map[t := Line(a, b, false)])]
    + seq(4, (n: nat) => Stage(t, u, a, b, n)) + [Example(t, u, a, b)]
  }

  ghost function Events(t: TrainId, u: User, a: StationName, b: StationName): seq<Event> {
    [Added(t, Line(a, b, false)), Released(t)] + seq(3, n => Placed(Nth(t, u, n + 1))) + [GaveBack(Nth(t, u, 1))]
  }

  lemma Opens(t: TrainId, a: StationName, b: StationName)
    requires a != b
    ensures Step(EMPTY, Added(t, Line(a, b, false)), EMPTY.(trains := map[t := Line(a, b, false)]))
    ensures Published(EMPTY.(trains := map[t := Line(a, b, false)]), Opened(t, a, b), t)
  {
    var s, u := EMPTY.(trains := map[t := Line(a, b, false)]), Opened(t, a, b);
    var tr := Line(a, b, true);
    assert FullRow(tr) == [0, 100, 100];
    assert StationOf(tr, t, 1) == Station(t, a, 0, 0, 0, 0, 0, 1);
    assert StationOf(tr, t, 2) == Station(t, b, 5, 0, 0, 60, 0, 2);
  }

  lemma Rows()
    ensures Shifted([0, 100, 100], 1, 1, -40) == [0, 60, 100] && Shifted([0, 60, 100], 1, 1, 0) == [0, 60, 100]
    ensures Shifted([0, 60, 100], 1, 1, -60) == [0, 0, 100] && Shifted([0, 0, 100], 1, 1, 40) == [0, 40, 100]
  {
  }

  /** The books after n orders. */
  ghost predicate OrdersAre(s: State, t: TrainId, u: User, n: nat) {
    && s.orderNum == n
    && (forall i :: i in s.byId <==> 1 <= i <= n) && (forall i :: 1 <= i <= n ==> s.byId[i] == Nth(t, u, i))
    && (forall k :: k in s.orders <==> k.0 == u && 1 <= k.1 <= n)
       && (forall k :: k in s.orders ==> s.orders[k] == Nth(t, u, k.1))
    && s.waiting == if n < 2 then map[] else map[(t, 0, 2) := WaiterOf(Nth(t, u, 2))]
  }

  /** The rest of the databases. */
  ghost predicate SeatsAre(s: State, t: TrainId, a: StationName, b: StationName, seats: int) {
    s.trains == map[t := Line(a, b, true)] && s.stations == Opened(t, a, b).stations
    && s.days == map[(t, 0) := [0, seats, 100]]
  }

  function SeatsAfter(n: nat): int {
    if n == 0 then 100 else if n < 3 then 60 else 0
  }

  lemma NextOrders(s: State, t: TrainId, u: User, n: nat)
    requires 1 <= n <= 3 && OrdersAre(s, t, u, n - 1) && (t, 0) in s.days
    ensures OrdersAre(SetOrder(s, Nth(t, u, n)), t, u, n)
  {
  }

  lemma NextSeats(s: State, t: TrainId, u: User, a: StationName, b: StationName, n: nat)
    requires 1 <= n <= 3 && OrdersAre(s, t, u, n - 1) && SeatsAre(s, t, a, b, SeatsAfter(n - 1))
    ensures SeatsAre(SetOrder(s, Nth(t, u, n)), t, a, b, SeatsAfter(n))
  {
    Rows();
    var o := Nth(t, u, n);
    assert n !in s.byId;
    var taken := if o.status.Success? then o.num else 0;
    assert SetOrder(s, o).days == s.days[(t, 0) := Shifted(s.days[(t, 0)], 1, 1, -taken)];
  }

  lemma Books(t: TrainId, u: User, a: StationName, b: StationName, n: nat)
    requires n <= 3
    ensures OrdersAre(Stage(t, u, a, b, n), t, u, n) && SeatsAre(Stage(t, u, a, b, n), t, a, b, SeatsAfter(n))
  {
    if n > 0 {
      Books(t, u, a, b, n - 1);
      NextOrders(Stage(t, u, a, b, n - 1), t, u, n);
      NextSeats(Stage(t, u, a, b, n - 1), t, u, a, b, n);
    }
  }

  lemma Sells(s: State, t: TrainId, u: User, a: StationName, b: StationName, n: nat)
    requires 1 <= n <= 3 && OrdersAre(s, t, u, n - 1) && SeatsAre(s, t, a, b, SeatsAfter(n - 1))
    ensures NewOrder(s, Nth(t, u, n))
  {
    assert s.days[(t, 0)][1] == if n == 1 then 100 else 60;
  }

  lemma Buys(t: TrainId, u: User, a: StationName, b: StationName, n: nat)
    requires 1 <= n <= 3
    ensures Step(Stage(t, u, a, b, n - 1), Placed(Nth(t, u, n)), Stage(t, u, a, b, n))
  {
    Books(t, u, a, b, n - 1);
    Sells(Stage(t, u, a, b, n - 1), t, u, a, b, n);
  }

  lemma GivesBack(t: TrainId, u: User, a: StationName, b: StationName)
    ensures Step(Stage(t, u, a, b, 3), GaveBack(Nth(t, u, 1)), Example(t, u, a, b))
  {
    ReturnsSeats(t, u, a, b);
    var s, o := Stage(t, u, a, b, 3), Nth(t, u, 1);
    var v, w := Example(t, u, a, b), WaiterOf(Nth(t, u, 2));
    assert Queue(v.waiting, t, 0, 1, 1) == [];
    assert Queue(v.waiting, t, 0, 1, 2) == [w];
    assert Queue(v.waiting, t, 0, 1, 3) == [w];
    assert v.days[(t, 0)][1] == 40 && !Served(v, w, o);
    assert PromoteAll(v, [w], o) == v by {
      assert [w][..0] == [];
      assert PromoteAll(v, [], o) == v;
    }
  }

  lemma ReturnsSeats(t: TrainId, u: User, a: StationName, b: StationName)
    ensures var s, o := Stage(t, u, a, b, 3), Nth(t, u, 1);
      (t, 0) in s.days && Refundable(s, o) && SetOrder(s, WithStatus(o, Refunded)) == Example(t, u, a, b)
  {
    Books(t, u, a, b, 3);
    var s, o := Stage(t, u, a, b, 3), Nth(t, u, 1);
    ReturnedSeats(s, t, u, a, b);
    ReturnedOrders(s, t, u, a, b);
  }

  lemma ReturnedSeats(s: State, t: TrainId, u: User, a: StationName, b: StationName)
    requires OrdersAre(s, t, u, 3) && SeatsAre(s, t, a, b, 0)
    ensures var v, x := SetOrder(s, WithStatus(Nth(t, u, 1), Refunded)), Example(t, u, a, b);
      v.days == x.days && v.stations == x.stations && v.trains == x.trains && v.orderNum == x.orderNum
  {
    Rows();
    assert s.byId[1] == Nth(t, u, 1);
  }

  lemma ReturnedOrders(s: State, t: TrainId, u: User, a: StationName, b: StationName)
    requires OrdersAre(s, t, u, 3) && (t, 0) in s.days
    ensures var v, x := SetOrder(s, WithStatus(Nth(t, u, 1), Refunded)), Example(t, u, a, b);
      v.orders == x.orders && v.byId == x.byId && v.waiting == x.waiting
  {
    var v, x := SetOrder(s, WithStatus(Nth(t, u, 1), Refunded)), Example(t, u, a, b);
    assert v.orders == s.orders[(u, 1) := WithStatus(Nth(t, u, 1), Refunded)];
    ReturnedById(s, t, u, a, b);
  }

  lemma ReturnedById(s: State, t: TrainId, u: User, a: StationName, b: StationName)
    requires OrdersAre(s, t, u, 3)
    ensures s.byId[1 := WithStatus(Nth(t, u, 1), Refunded)] == Example(t, u, a, b).byId
  {
    assert s.byId[2] == Nth(t, u, 2) && s.byId[3] == Nth(t, u, 3);
    forall i ensures i in s.byId <==> i in Example(t, u, a, b).byId {
    }
  }

  /** A run of six commands leads to the state in which giving back order 3 passes order 2 by. */
  lemma RunToExample(t: TrainId, u: User, a: StationName, b: StationName)
    requires a != b
    ensures IsRun(States(t, u, a, b), Events(t, u, a, b)) && States(t, u, a, b)[6] == Example(t, u, a, b)
  {
    forall i | 0 <= i < 6 ensures StepAt(States(t, u, a, b), Events(t, u, a, b), i) {
      NthStep(t, u, a, b, i);
    }
  }

  lemma NthStep(t: TrainId, u: User, a: StationName, b: StationName, i: nat)
    requires a != b && i < 6
    ensures Step(States(t, u, a, b)[i], Events(t, u, a, b)[i], States(t, u, a, b)[i + 1])
  {
    if i < 2 {
      NthOpens(t, u, a, b, i);
    } else if i < 5 {
      NthBuys(t, u, a, b, i);
    } else {
      GivesBack(t, u, a, b);
    }
  }

  lemma NthOpens(t: TrainId, u: User, a: StationName, b: StationName, i: nat)
    requires a != b && i < 2
    ensures Step(States(t, u, a, b)[i], Events(t, u, a, b)[i], States(t, u, a, b)[i + 1])
  {
    Opens(t, a, b);
  }

  lemma NthBuys(t: TrainId, u: User, a: StationName, b: StationName, i: nat)
    requires 2 <= i < 5
    ensures Step(States(t, u, a, b)[i], Events(t, u, a, b)[i], States(t, u, a, b)[i + 1])
  {
    Buys(t, u, a, b, i - 1);
    StageOf(t, u, a, b, i);
    StageOf(t, u, a, b, i + 1);
  }

  /** Which order the command at place i brings, and the books before it. */
  lemma StageOf(t: TrainId, u: User, a: StationName, b: StationName, i: nat)
    requires 2 <= i < 6
    ensures States(t, u, a, b)[i] == Stage(t, u, a, b, i - 2)
    ensures i < 5 ==> Events(t, u, a, b)[i] == Placed(Nth(t, u, i - 1))
  {
  }
}
