/** Whole runs of the ticket commands. */
module BookingRuns {
  import opened Booking
  import opened BookingQueue
  import opened BookingLaws
  import opened BookingTrains

  /** A command that changed something. */
  datatype Event =
    | Added(train: TrainId, record: Train)
    | Deleted(train: TrainId)
    | Released(train: TrainId)
    | Placed(order: Order)
    | GaveBack(order: Order)

  const EMPTY := State(map[], map[], map[], map[], map[], 0, map[])

  ghost predicate Step(s: State, e: Event, u: State) {
    match e
    case Added(t, tr) => t !in s.trains && TrainOk(tr) && !tr.released && u == s.(trains := s.trains[t := tr])
    case Deleted(t) => t in s.trains && !s.trains[t].released && u == s.(trains := s.trains - {t})
    case Released(t) => t in s.trains && !s.trains[t].released && Published(s, u, t)
    case Placed(o) => NewOrder(s, o) && u == SetOrder(s, o)
    case GaveBack(o) => Refundable(s, o) && (o.train, o.day) in s.days && u == AfterRefund(s, o)
  }

  ghost predicate StepAt(states: seq<State>, events: seq<Event>, i: int) {
    0 <= i < |events| && i + 1 < |states| && Step(states[i], events[i], states[i + 1])
  }

  ghost predicate IsRun(states: seq<State>, events: seq<Event>) {
    && |states| == |events| + 1 && states[0] == EMPTY
    && forall i {:trigger StepAt(states, events, i)} :: 0 <= i < |events| ==> StepAt(states, events, i)
  }

  lemma StepKeeps(s: State, e: Event, u: State)
    requires Integrity(s) && Step(s, e, u)
    ensures Integrity(u)
  {
    match e
    case Added(t, tr) => AddTrainKeeps(s, t, tr);
    case Deleted(t) => DeleteTrainKeeps(s, t);
    case Released(t) => PublishKeeps(s, u, t);
    case Placed(o) => SetOrderKeeps(s, o);
    case GaveBack(o) => RefundKeeps(s, o);
  }

  /** Every state a run passes through has its databases in step. */
  lemma {:induction false} RunKeepsIntegrity(states: seq<State>, events: seq<Event>, i: nat)
    requires IsRun(states, events) && i < |states|
    ensures Integrity(states[i])
  {
    if i > 0 {
      RunKeepsIntegrity(states, events, i - 1);
      assert StepAt(states, events, i - 1);
      StepKeeps(states[i - 1], events[i - 1], states[i]);
    }
  }

  /** Seat conservation: at any time of any run, on every segment of every train and day on sale, the
      seats left are not negative and together with the tickets held make up the train. */
  lemma SeatsConserved(states: seq<State>, events: seq<Event>, i: nat, t: TrainId, d: Minute, j: int)
    requires IsRun(states, events) && i < |states| && OnSale(states[i], t, d)
             && 1 <= j <= states[i].trains[t].stationNum
    ensures var s := states[i];
      && (t, d) in s.days && j < |s.days[(t, d)]| && s.days[(t, d)][j] >= 0
      && s.days[(t, d)][j] + Sold(s.byId, s.orderNum, t, d, j) == s.trains[t].totalSeats
  {
    RunKeepsIntegrity(states, events, i);
    assert SeatsOk(states[i], t, d);
  }

  /** How far an order can get: it may be bought after waiting, and it may be given back; nothing else. */
  predicate Onward(a: Order, b: Order) {
    a == b || (b == WithStatus(a, b.status)
               && ((a.status.Pending? && !b.status.Pending?) || (a.status.Success? && b.status.Refunded?)))
  }

  lemma StepOnward(s: State, e: Event, u: State, id: int)
    requires Integrity(s) && Step(s, e, u) && id in s.byId
    ensures id in u.byId && Onward(s.byId[id], u.byId[id])
  {
    match e
    case Added(t, tr) =>
    case Deleted(t) =>
    case Released(t) =>
    case Placed(o) => NewIdIsFree(s);
    case GaveBack(o) => StatusMoves(s, o, id);
  }

  lemma NewIdIsFree(s: State)
    requires Integrity(s)
    ensures s.orderNum + 1 !in s.byId
  {
    assert OrdersOk(s);
    assert s.orderNum + 1 in s.byId ==> OrderOk(s, s.byId[s.orderNum + 1]);
  }

  /** Orders are never lost, and a refund is final. */
  lemma {:induction false} OrdersOnlyMoveOn(states: seq<State>, events: seq<Event>, i: nat, j: nat, id: int)
    requires IsRun(states, events) && i <= j < |states| && id in states[i].byId
    ensures id in states[j].byId && Onward(states[i].byId[id], states[j].byId[id])
    decreases j - i
  {
    if i < j {
      OrdersOnlyMoveOn(states, events, i, j - 1, id);
      NextOnward(states, events, j - 1, id);
      OnwardTrans(states[i].byId[id], states[j - 1].byId[id], states[j].byId[id]);
    }
  }

  lemma NextOnward(states: seq<State>, events: seq<Event>, i: nat, id: int)
    requires IsRun(states, events) && i + 1 < |states| && id in states[i].byId
    ensures id in states[i + 1].byId && Onward(states[i].byId[id], states[i + 1].byId[id])
  {
    RunKeepsIntegrity(states, events, i);
    assert StepAt(states, events, i);
    StepOnward(states[i], events[i], states[i + 1], id);
  }

  lemma OnwardTrans(a: Order, b: Order, c: Order)
    requires Onward(a, b) && Onward(b, c)
    ensures Onward(a, c)
  {
  }

  /** Refunds of bought orders that come before everyone waiting for the same train and day. */
  ghost predicate OldestFirst(s: State, e: Event) {
    e.GaveBack? && e.order.status.Success? ==>
      forall k :: k in s.waiting && k.0 == e.order.train && k.1 == e.order.day ==> e.order.id < k.2
  }

  lemma TrainStepKeepsNoFit(s: State, e: Event, u: State)
    requires Integrity(s) && NoFit(s) && Step(s, e, u) && (e.Added? || e.Deleted? || e.Released?)
    ensures NoFit(u)
  {
    forall k | k in u.waiting ensures !WouldFit(u, u.waiting[k]) {
      WaiterId(s, k);
      QueuedIsKnown(s, s.waiting[k], k.0, k.1);
    }
  }

  lemma StepKeepsNoFit(s: State, e: Event, u: State)
    requires Integrity(s) && NoFit(s) && Step(s, e, u) && OldestFirst(s, e)
    ensures NoFit(u)
  {
    match e
    case Placed(o) => BuyKeepsNoFit(s, o);
    case GaveBack(o) =>
      if o.status.Success? {
        RefundKeepsNoFit(s, o);
      } else {
        RefundWaitingKeepsNoFit(s, o);
      }
    case _ => TrainStepKeepsNoFit(s, e, u);
  }

  /** As long as only such refunds happen, nobody ever waits who would fit. */
  lemma {:induction false} NobodyWaitsWhoFits(states: seq<State>, events: seq<Event>, i: nat)
    requires IsRun(states, events) && i < |states|
    requires forall m :: 0 <= m < i ==> OldestFirst(states[m], events[m])
    ensures NoFit(states[i])
  {
    if i > 0 {
      NobodyWaitsWhoFits(states, events, i - 1);
      assert OldestFirst(states[i - 1], events[i - 1]);
      NextNoFit(states, events, i - 1);
    }
  }

  lemma NextNoFit(states: seq<State>, events: seq<Event>, i: nat)
    requires IsRun(states, events) && i < |events| && NoFit(states[i]) && OldestFirst(states[i], events[i])
    ensures NoFit(states[i + 1])
  {
    RunKeepsIntegrity(states, events, i);
    assert StepAt(states, events, i);
    StepKeepsNoFit(states[i], events[i], states[i + 1]);
  }

  // ---------------------------------------------------------------- an order left waiting

  /** 100 seats; order 1 (40 seats) was given back, order 2 (70) waits, order 3 (60) is bought. */
  ghost function Example(t: TrainId, u: User, a: StationName, b: StationName): State {
    var tr := Train(2, 100, [a, a, b], [0, 0, 5], [0, 0, 60], [0, 0, 0], 0, 0, true);
    var o1 := Order(u, t, 40, 5, 1, 0, 1, 2, Refunded);
    var o2 := Order(u, t, 70, 5, 2, 0, 1, 2, Pending);
    var o3 := Order(u, t, 60, 5, 3, 0, 1, 2, Success);
    State(map[t := tr], map[(t, 0) := [0, 40, 100]],
          map[(a, t) := Station(t, a, 0, 0, 0, 0, 0, 1), (b, t) := Station(t, b, 5, 0, 0, 60, 0, 2)],
          map[(u, 1) := o1, (u, 2) := o2, (u, 3) := o3],
          map[(t, 0, 2) := WaiterOf(o2)],
          3,
          map[1 := o1, 2 := o2, 3 := o3])
  }

  lemma ExampleSales(t: TrainId, u: User, a: StationName, b: StationName, r: TrainId, d: Minute)
    ensures OnSale(Example(t, u, a, b), r, d) <==> r == t && d == 0
  {
  }

  lemma ExampleOrders(t: TrainId, u: User, a: StationName, b: StationName)
    ensures OrdersOk(Example(t, u, a, b))
  {
    ExampleOrder(t, u, a, b, 1);
    ExampleOrder(t, u, a, b, 2);
    ExampleOrder(t, u, a, b, 3);
  }

  lemma ExampleOrder(t: TrainId, u: User, a: StationName, b: StationName, i: int)
    requires 1 <= i <= 3
    ensures var s := Example(t, u, a, b); OrderOk(s, s.byId[i]) && s.byId[i].id == i && s.byId[i].user == u
  {
    var s := Example(t, u, a, b);
    assert s.byId[i].train == t && OnSale(s, t, 0);
  }

  lemma ExampleQueue(t: TrainId, u: User, a: StationName, b: StationName)
    ensures WaitingOk(Example(t, u, a, b)) && NoFit(Example(t, u, a, b))
  {
    var s := Example(t, u, a, b);
    assert s.days[(t, 0)][1] == 40;
  }

  lemma ExampleDays(t: TrainId, u: User, a: StationName, b: StationName)
    ensures DaysOk(Example(t, u, a, b))
  {
    var s := Example(t, u, a, b);
    forall r, d | OnSale(s, r, d) ensures (r, d) in s.days {
      ExampleSales(t, u, a, b, r, d);
    }
    ExampleSales(t, u, a, b, t, 0);
  }

  lemma ExampleStations(t: TrainId, u: User, a: StationName, b: StationName)
    requires a != b
    ensures StationsOk(Example(t, u, a, b))
  {
  }

  lemma ExampleSeats(t: TrainId, u: User, a: StationName, b: StationName)
    ensures SeatsOk(Example(t, u, a, b), t, 0)
  {
    var m := Example(t, u, a, b).byId;
    assert Sold(m, 1, t, 0, 1) == 0 && Sold(m, 1, t, 0, 2) == 0;
    assert Sold(m, 2, t, 0, 1) == 0 && Sold(m, 2, t, 0, 2) == 0;
    assert Sold(m, 3, t, 0, 1) == 60 && Sold(m, 3, t, 0, 2) == 0;
  }

  lemma ExampleOk(t: TrainId, u: User, a: StationName, b: StationName)
    requires a != b
    ensures Integrity(Example(t, u, a, b)) && NoFit(Example(t, u, a, b))
  {
    ExampleOrders(t, u, a, b);
    ExampleQueue(t, u, a, b);
    ExampleDays(t, u, a, b);
    ExampleStations(t, u, a, b);
    ExampleAllSeats(t, u, a, b);
    ExampleTrain(t, u, a, b);
    AllOk(Example(t, u, a, b));
  }

  lemma AllOk(s: State)
    requires s.orderNum >= 0 && (forall t :: t in s.trains ==> TrainOk(s.trains[t]))
    requires OrdersOk(s) && WaitingOk(s) && DaysOk(s) && StationsOk(s)
    requires forall t, d {:trigger SeatsOk(s, t, d)} :: OnSale(s, t, d) ==> SeatsOk(s, t, d)
    ensures Integrity(s)
  {
  }

  lemma ExampleTrain(t: TrainId, u: User, a: StationName, b: StationName)
    ensures forall r :: r in Example(t, u, a, b).trains ==> TrainOk(Example(t, u, a, b).trains[r])
  {
  }

  lemma ExampleAllSeats(t: TrainId, u: User, a: StationName, b: StationName)
    ensures var s := Example(t, u, a, b);
        forall r, d {:trigger SeatsOk(s, r, d)} :: OnSale(s, r, d) ==> SeatsOk(s, r, d)
  {
    var s := Example(t, u, a, b);
    forall r, d | OnSale(s, r, d) ensures SeatsOk(s, r, d) {
      ExampleSales(t, u, a, b, r, d);
      ExampleSeats(t, u, a, b);
    }
  }

  /** Giving back order 3 frees the whole train, and order 2 is still left waiting: its id is smaller. */
  lemma EarlierOrderLeftWaiting(t: TrainId, u: User, a: StationName, b: StationName)
    requires a != b
    ensures var s := Example(t, u, a, b);
      var o := s.byId[3];
      && Integrity(s) && NoFit(s) && Refundable(s, o) && (o.train, o.day) in s.days
      && (t, 0, 2) in AfterRefund(s, o).waiting && WouldFit(AfterRefund(s, o), AfterRefund(s, o).waiting[(t, 0, 2)])
      && AfterRefund(s, o) != WholeQueueRefund(s, o)
  {
    ExampleOk(t, u, a, b);
    ExampleRefund(t, u, a, b);
    WholeQueueServedIff(Example(t, u, a, b), Example(t, u, a, b).byId[3]);
  }

  /** Nobody with an id from 3 on is waiting, so the refund serves nobody; order 2 would fit. */
  lemma ExampleRefund(t: TrainId, u: User, a: StationName, b: StationName)
    ensures var s := Example(t, u, a, b); var o := s.byId[3];
      && AfterRefund(s, o) == BookingLaws.Released(s, o) && EarlierFits(BookingLaws.Released(s, o), o, 2)
      && (t, 0, 2) in AfterRefund(s, o).waiting && WouldFit(AfterRefund(s, o), AfterRefund(s, o).waiting[(t, 0, 2)])
  {
    var s := Example(t, u, a, b);
    var o := s.byId[3];
    var v := BookingLaws.Released(s, o);
    assert v.days[(t, 0)][1] == 100;
    assert Queue(v.waiting, t, 0, 3, 2) == [];
    assert Queue(v.waiting, t, 0, 3, 3) == [];
  }
}
