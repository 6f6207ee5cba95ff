/** The five databases behind the ticket commands, and what ties them together. */
module Booking {
  import opened Seats

  type TrainId(==, !new)
  type User(==, !new)
  type StationName(==, !new)
  /** Minutes since the first of June; a day is the minute it starts. */
  type Minute = int

  const DAY := 1440

  /** Stops are numbered from 1; index 0 of each list is not used. */
  datatype Train = Train(stationNum: nat, totalSeats: int, stations: seq<StationName>, prices: seq<int>,
                         arriving: seq<Minute>, leaving: seq<Minute>,
                         saleStart: Minute, saleEnd: Minute, released: bool)

  datatype Station = Station(train: TrainId, name: StationName, price: int, saleStart: Minute, saleEnd: Minute,
                             arriving: Minute, leaving: Minute, index: int)

  datatype Status = Success | Pending | Refunded

  datatype Order = Order(user: User, train: TrainId, num: int, price: int, id: int, day: Minute,
                         from: int, to: int, status: Status)

  /** A waiting order, as the queue database keeps it. */
  datatype Waiter = Waiter(train: TrainId, user: User, day: Minute, num: int, from: int, to: int, id: int)

  type OrderKey = (User, int)
  type DayKey = (TrainId, Minute)
  type WaitKey = (TrainId, Minute, int)

  /** `byId` is the order database seen by order id alone. */
  datatype State = State(trains: map<TrainId, Train>, days: map<DayKey, SeatRow>,
                         stations: map<(StationName, TrainId), Station>,
                         orders: map<OrderKey, Order>, waiting: map<WaitKey, Waiter>,
                         orderNum: int, byId: map<int, Order>)

  // ---------------------------------------------------------------- what an order holds

  /** The seats an order holds on segment j of a train on a day. */
  function Holds(o: Order, t: TrainId, d: Minute, j: int): int {
    if o.status.Success? && o.train == t && o.day == d && o.from <= j < o.to then o.num else 0
  }

  /** The seats all orders up to id n hold on a segment. */
  function Sold(byId: map<int, Order>, n: int, t: TrainId, d: Minute, j: int): int
    decreases n
  {
    if n <= 0 then 0 else Sold(byId, n - 1, t, d, j) + if n in byId then Holds(byId[n], t, d, j) else 0
  }

  lemma {:induction false} SoldAfter(byId: map<int, Order>, n: int, o: Order, t: TrainId, d: Minute, j: int)
    ensures Sold(byId[o.id := o], n, t, d, j) == Sold(byId, n, t, d, j) +
      if 1 <= o.id <= n then Holds(o, t, d, j) - (if o.id in byId then Holds(byId[o.id], t, d, j) else 0) else 0
    decreases n
  {
    if n > 0 {
      SoldAfter(byId, n - 1, o, t, d, j);
    }
  }

  // ---------------------------------------------------------------- integrity

  ghost predicate TrainOk(tr: Train) {
    && |tr.stations| == |tr.prices| == |tr.arriving| == |tr.leaving| == tr.stationNum + 1
    && 0 <= tr.totalSeats <= MAX_INT
    && tr.saleStart % DAY == 0
    && forall i :: 1 <= i <= tr.stationNum ==> tr.leaving[i] >= 0
  }

  predicate SaleDay(tr: Train, d: Minute) {
    tr.saleStart <= d <= tr.saleEnd && (d - tr.saleStart) % DAY == 0
  }

  predicate OnSale(s: State, t: TrainId, d: Minute) {
    t in s.trains && s.trains[t].released && SaleDay(s.trains[t], d)
  }

  ghost predicate OrderOk(s: State, o: Order) {
    && OnSale(s, o.train, o.day)
    && 1 <= o.from < o.to <= s.trains[o.train].stationNum
    && 1 <= o.num <= s.trains[o.train].totalSeats
    && 1 <= o.id <= s.orderNum
  }

  function WaiterOf(o: Order): Waiter {
    Waiter(o.train, o.user, o.day, o.num, o.from, o.to, o.id)
  }

  function KeyOf(o: Order): WaitKey {
    (o.train, o.day, o.id)
  }

  /** The order database by its own key and by id are the same thing. */
  ghost predicate OrdersOk(s: State) {
    && (forall i :: i in s.byId ==>
         OrderOk(s, s.byId[i]) && s.byId[i].id == i && (s.byId[i].user, i) in s.orders)
    && (forall k :: k in s.orders ==> k.1 in s.byId && s.byId[k.1] == s.orders[k] && s.orders[k].user == k.0)
  }

  /** The queue holds exactly the pending orders. */
  ghost predicate WaitingOk(s: State) {
    && (forall i :: i in s.byId && s.byId[i].status.Pending? ==> KeyOf(s.byId[i]) in s.waiting)
    && (forall k :: k in s.waiting ==>
         k.2 in s.byId && s.byId[k.2].status.Pending? && KeyOf(s.byId[k.2]) == k
         && s.waiting[k] == WaiterOf(s.byId[k.2]))
  }

  /** Seat records exist exactly for the sale days of released trains. */
  ghost predicate DaysOk(s: State) {
    && (forall k :: k in s.days ==> OnSale(s, k.0, k.1) && |s.days[k]| == s.trains[k.0].stationNum + 1)
    && (forall t, d {:trigger OnSale(s, t, d)} :: OnSale(s, t, d) ==> (t, d) in s.days)
  }

  /** Stop records exist exactly for the stops of released trains. */
  ghost predicate StationsOk(s: State) {
    && (forall k :: k in s.stations ==>
         && k.1 in s.trains && s.trains[k.1].released && TrainOk(s.trains[k.1])
         && IsStop(s.trains[k.1], s.stations[k].index, k.0)
         && s.stations[k] == StationOf(s.trains[k.1], k.1, s.stations[k].index))
    && (forall t, i :: t in s.trains && s.trains[t].released && 1 <= i < |s.trains[t].stations| ==>
         (s.trains[t].stations[i], t) in s.stations)
  }

  predicate IsStop(tr: Train, i: int, name: StationName) {
    1 <= i <= tr.stationNum && i < |tr.stations| && tr.stations[i] == name
  }

  function StationOf(tr: Train, t: TrainId, i: int): Station
    requires TrainOk(tr) && 1 <= i <= tr.stationNum
  {
    Station(t, tr.stations[i], tr.prices[i], tr.saleStart, tr.saleEnd, tr.arriving[i], tr.leaving[i], i)
  }

  /** Seat conservation: what is left and what is sold make up the train. */
  ghost predicate SeatsOk(s: State, t: TrainId, d: Minute) {
    && t in s.trains && (t, d) in s.days && |s.days[(t, d)]| == s.trains[t].stationNum + 1
    && forall j :: 1 <= j <= s.trains[t].stationNum ==>
         s.days[(t, d)][j] >= 0 && s.days[(t, d)][j] + Sold(s.byId, s.orderNum, t, d, j) == s.trains[t].totalSeats
  }

  ghost predicate Integrity(s: State) {
    && s.orderNum >= 0
    && (forall t :: t in s.trains ==> TrainOk(s.trains[t]))
    && OrdersOk(s) && WaitingOk(s) && DaysOk(s) && StationsOk(s)
    && forall t, d {:trigger SeatsOk(s, t, d)} :: OnSale(s, t, d) ==> SeatsOk(s, t, d)
  }

  // ---------------------------------------------------------------- one order changes

  /** The order database takes record `o`; queue and seats follow. */
  function SetOrder(s: State, o: Order): State
    requires (o.train, o.day) in s.days
  {
    var was := if o.id in s.byId && s.byId[o.id].status.Success? then o.num else 0;
    var now := if o.status.Success? then o.num else 0;
    s.(orders := s.orders[(o.user, o.id) := o],
       byId := s.byId[o.id := o],
       waiting := if o.status.Pending? then s.waiting[KeyOf(o) := WaiterOf(o)] else s.waiting - {KeyOf(o)},
       days := s.days[(o.train, o.day) := Shifted(s.days[(o.train, o.day)], o.from, o.to - 1, was - now)],
       orderNum := if o.id > s.orderNum then o.id else s.orderNum)
  }

  function WithStatus(o: Order, status: Status): Order {
    o.(status := status)
  }

  /** A new order with the next id, or a known one whose status changes; if it now takes seats,
      they are there. */
  ghost predicate CanSet(s: State, o: Order) {
    && OrderOk(s.(orderNum := if o.id > s.orderNum then o.id else s.orderNum), o) && (o.train, o.day) in s.days
    && (if o.id in s.byId then o == WithStatus(s.byId[o.id], o.status) else o.id == s.orderNum + 1)
    && |s.days[(o.train, o.day)]| == s.trains[o.train].stationNum + 1
    && (o.status.Success? && !(o.id in s.byId && s.byId[o.id].status.Success?) ==>
         Fits(s.days[(o.train, o.day)], o.from, o.to, o.num))
  }

  lemma SetOrderOrders(s: State, o: Order)
    requires s.orderNum >= 0 && OrdersOk(s) && CanSet(s, o)
    ensures OrdersOk(SetOrder(s, o))
  {
    var u := SetOrder(s, o);
    forall i | i in u.byId
      ensures OrderOk(u, u.byId[i]) && u.byId[i].id == i && (u.byId[i].user, i) in u.orders
    {
      if i != o.id {
        assert OrderOk(s, s.byId[i]);
      }
    }
    forall k | k in u.orders ensures k.1 in u.byId && u.byId[k.1] == u.orders[k] && u.orders[k].user == k.0 {
      if k != (o.user, o.id) {
        assert k in s.orders && s.byId[k.1] == s.orders[k];
        assert k == (s.byId[k.1].user, k.1);
      }
    }
  }

  lemma SetOrderWaiting(s: State, o: Order)
    requires OrdersOk(s) && WaitingOk(s) && CanSet(s, o)
    ensures WaitingOk(SetOrder(s, o))
  {
    var u := SetOrder(s, o);
    forall i | i in u.byId && u.byId[i].status.Pending? ensures KeyOf(u.byId[i]) in u.waiting {
      if i != o.id {
        assert s.byId[i].id == i;
      }
    }
    forall k | k in u.waiting
      ensures k.2 in u.byId && u.byId[k.2].status.Pending? && KeyOf(u.byId[k.2]) == k
              && u.waiting[k] == WaiterOf(u.byId[k.2])
    {
      if k != KeyOf(o) {
        assert k in s.waiting;
        assert k.2 in s.byId && KeyOf(s.byId[k.2]) == k;
        assert k.2 != o.id;
      }
    }
  }

  lemma SetOrderSeats(s: State, o: Order, t: TrainId, d: Minute)
    requires s.orderNum >= 0 && OrdersOk(s) && CanSet(s, o) && SeatsOk(s, t, d)
    ensures SeatsOk(SetOrder(s, o), t, d)
  {
    var u := SetOrder(s, o);
    forall j | 1 <= j <= s.trains[t].stationNum
      ensures u.days[(t, d)][j] >= 0 && u.days[(t, d)][j] + Sold(u.byId, u.orderNum, t, d, j) == s.trains[t].totalSeats
    {
      SoldAfter(s.byId, u.orderNum, o, t, d, j);
      SoldSoFar(s, u.orderNum, t, d, j);
    }
  }

  /** Ids not given out yet hold nothing. */
  lemma SoldSoFar(s: State, n: int, t: TrainId, d: Minute, j: int)
    requires OrdersOk(s) && s.orderNum <= n <= s.orderNum + 1
    requires n != s.orderNum ==> n !in s.byId
    ensures Sold(s.byId, n, t, d, j) == Sold(s.byId, s.orderNum, t, d, j)
  {
  }

  /** Every change of one order keeps the databases in step and the seats conserved. */
  lemma SetOrderKeeps(s: State, o: Order)
    requires Integrity(s) && CanSet(s, o)
    ensures Integrity(SetOrder(s, o))
  {
    var u := SetOrder(s, o);
    SetOrderOrders(s, o);
    SetOrderWaiting(s, o);
    forall t, d | OnSale(u, t, d) ensures SeatsOk(u, t, d) {
      assert OnSale(s, t, d) && SeatsOk(s, t, d);
      SetOrderSeats(s, o, t, d);
    }
    SetOrderDays(s, o);
  }

  lemma SetOrderDays(s: State, o: Order)
    requires Integrity(s) && CanSet(s, o)
    ensures DaysOk(SetOrder(s, o)) && StationsOk(SetOrder(s, o))
  {
    var u := SetOrder(s, o);
    forall k | k in u.days ensures OnSale(u, k.0, k.1) && |u.days[k]| == u.trains[k.0].stationNum + 1 {
      assert k in s.days || k == (o.train, o.day);
    }
    forall t, d | OnSale(u, t, d) ensures (t, d) in u.days {
      assert OnSale(s, t, d);
    }
  }
}
