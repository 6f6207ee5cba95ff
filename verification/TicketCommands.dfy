/** The ticket commands over the five databases. */
module TicketCommands {
  import opened Seats
  import opened Booking
  import opened BookingQueue
  import opened BookingLaws
  import opened BookingTrains
  import TrainRecord

  datatype BuyResult = Rejected | Bought(total: int, order: Order) | Queued(order: Order)
  datatype RefundResult = Failed | Done

  /** What a buyer asks for: rides between two stops of a train, on the day the train leaves the first. */
  datatype Request = Request(user: User, train: TrainId, start: StationName, end: StationName, date: Minute, num: int,
                             queue: bool)

  /** Stops f and t of a train serve the request on the day it sets out on d: it leaves f on the day asked for. */
  ghost predicate Serves(tr: Train, q: Request, f: int, t: int, d: Minute) {
    && IsStop(tr, f, q.start) && IsStop(tr, t, q.end) && f < t && f < |tr.leaving|
    && SaleDay(tr, d) && q.date <= d + tr.leaving[f] < q.date + 1440
  }

  /** No name is the name of two stops. */
  ghost predicate DistinctStops(tr: Train) {
    forall i, j :: 1 <= i < j < |tr.stations| ==> tr.stations[i] != tr.stations[j]
  }

  /** A new order that serves the request, at the difference of the fares to its two stops. */
  ghost predicate Answers(s: State, q: Request, o: Order) {
    && q.train in s.trains && TrainOk(s.trains[q.train])
    && var tr := s.trains[q.train];
    && Serves(tr, q, o.from, o.to, o.day)
    && o.user == q.user && o.train == q.train && o.num == q.num && o.id == s.orderNum + 1
    && o.price == tr.prices[o.to] - tr.prices[o.from]
  }

  /** A train's record is that of its listing. */
  ghost predicate BuiltFrom(trains: map<TrainId, Train>, listings: map<TrainId, TrainRecord.Listing>, t: TrainId) {
    t in trains && t in listings && TrainRecord.Runs(trains[t], listings[t])
  }

  ghost predicate Built(trains: map<TrainId, Train>, listings: map<TrainId, TrainRecord.Listing>) {
    forall t {:trigger BuiltFrom(trains, listings, t)} :: t in trains ==> BuiltFrom(trains, listings, t)
  }

  /** The ride is between the stops listed under the names asked for, at the sum of the prices of its legs. */
  ghost predicate PaysLegs(l: TrainRecord.Listing, q: Request, o: Order) {
    && 1 <= o.from < o.to <= |l.stations| && |l.prices| == |l.stations| - 1
    && l.stations[o.from - 1] == q.start && l.stations[o.to - 1] == q.end
    && o.price == TrainRecord.Fare(l, o.from, o.to)
  }

  lemma FareOfRide(s: State, listings: map<TrainId, TrainRecord.Listing>, q: Request, o: Order)
    requires Built(s.trains, listings) && Answers(s, q, o)
    ensures q.train in listings && PaysLegs(listings[q.train], q, o)
  {
    assert BuiltFrom(s.trains, listings, q.train);
    TrainRecord.FareIsSumOfLegs(s.trains[q.train], listings[q.train], o.from, o.to);
  }

  /** The record of a new train: its stops, fares and times are those listed. */
  ghost predicate Records(tr: Train, l: TrainRecord.Listing) {
    && TrainRecord.Runs(tr, l) && !tr.released
    && tr.totalSeats == l.totalSeats && tr.saleStart == l.saleStart && tr.saleEnd == l.saleEnd
  }

  lemma BuiltOn(trains: map<TrainId, Train>, listings: map<TrainId, TrainRecord.Listing>, t: TrainId, tr: Train,
                l: TrainRecord.Listing)
    requires Built(trains, listings) && t !in trains && TrainRecord.Runs(tr, l)
    ensures Built(trains[t := tr], listings[t := l])
  {
    var u, m := trains[t := tr], listings[t := l];
    forall r | r in u ensures BuiltFrom(u, m, r) {
      assert r != t ==> BuiltFrom(trains, listings, r);
    }
  }

  lemma BuiltLess(trains: map<TrainId, Train>, listings: map<TrainId, TrainRecord.Listing>, t: TrainId)
    requires Built(trains, listings)
    ensures Built(trains - {t}, listings)
  {
    var u := trains - {t};
    forall r | r in u ensures BuiltFrom(u, listings, r) {
      assert BuiltFrom(trains, listings, r);
    }
  }

  lemma BuiltReleased(trains: map<TrainId, Train>, listings: map<TrainId, TrainRecord.Listing>, t: TrainId)
    requires Built(trains, listings) && t in trains
    ensures Built(trains[t := trains[t].(released := true)], listings)
  {
    var u := trains[t := trains[t].(released := true)];
    forall r | r in u ensures BuiltFrom(u, listings, r) {
      assert BuiltFrom(trains, listings, r);
      TrainRecord.StillRuns(trains[r], listings[r]);
    }
  }

  class TrainManagement {
    var trains: map<TrainId, Train>
    var days: map<DayKey, SeatRow>
    var stations: map<(StationName, TrainId), Station>
    var orders: map<OrderKey, Order>
    var waiting: map<WaitKey, Waiter>
    var orderNum: int
    ghost var byId: map<int, Order>
    /** What each train was added as. */
    ghost var listings: map<TrainId, TrainRecord.Listing>

    ghost function S(): State
      reads this
    {
      State(trains, days, stations, orders, waiting, orderNum, byId)
    }

    ghost predicate Valid()
      reads this
    {
      Integrity(S()) && FromListings()
    }

    ghost predicate FromListings()
      reads `trains, `listings
    {
      Built(trains, listings)
    }

    constructor ()
      ensures Valid() && S() == State(map[], map[], map[], map[], map[], 0, map[]) && listings == map[]
    {
      trains, days, stations, orders, waiting := map[], map[], map[], map[], map[];
      orderNum, byId, listings := 0, map[], map[];
    }

    /** Adds a train that is not released yet, unless the id is taken. */
    method AddTrain(t: TrainId, l: TrainRecord.Listing) returns (ok: bool)
      requires Valid() && TrainRecord.Listed(l)
      modifies `trains, `listings
      ensures Valid() && (ok <==> t !in old(trains))
      ensures listings == if ok then old(listings)[t := l] else old(listings)
      ensures if ok then t in trains && Records(trains[t], l) && trains == old(trains)[t := trains[t]]
              else trains == old(trains)
      ensures ok ==> trains[t].stations[1..] == l.stations && trains[t].leaving[1] == l.start
    {
      if t in trains {
        return false;
      }
      var tr := TrainRecord.NewTrain(l);
      AddTrainKeeps(S(), t, tr);
      BuiltOn(trains, listings, t, tr, l);
      trains, listings := trains[t := tr], listings[t := l];
      ok := true;
    }

    method DeleteTrain(t: TrainId) returns (ok: bool)
      requires Valid()
      modifies `trains
      ensures Valid() && (ok <==> t in old(trains) && !old(trains)[t].released)
      ensures trains == if ok then old(trains) - {t} else old(trains)
    {
      if t !in trains || trains[t].released {
        return false;
      }
      DeleteTrainKeeps(S(), t);
      BuiltLess(trains, listings, t);
      trains := trains - {t};
      ok := true;
    }

    method ReleaseTrain(t: TrainId) returns (ok: bool)
      requires Valid()
      modifies `trains, `days, `stations
      ensures Valid() && (ok <==> t in old(trains) && !old(trains)[t].released)
      ensures if ok then Published(old(S()), S(), t) else S() == old(S())
    {
      if t !in trains || trains[t].released {
        return false;
      }
      BuiltReleased(trains, listings, t);
      Publish(t);
      PublishKeeps(old(S()), S(), t);
      ok := true;
    }

    method Publish(t: TrainId)
      requires Integrity(S()) && t in trains && !trains[t].released
      modifies `trains, `days, `stations
      ensures Published(old(S()), S(), t) && trains == old(trains)[t := old(trains)[t].(released := true)]
    {
      var tr := trains[t].(released := true);
      trains := trains[t := tr];
      FillDays(t, tr);
      FillStations(t, tr);
    }

    /** One full seat record per sale day. */
    method FillDays(t: TrainId, tr: Train)
      modifies `days
      ensures forall k :: k in days <==> k in old(days) || (k.0 == t && SaleDay(tr, k.1))
      ensures forall k :: k in days ==> days[k] == if k.0 == t && SaleDay(tr, k.1) then FullRow(tr) else old(days)[k]
    {
      var i := tr.saleStart;
      while i <= tr.saleEnd
        invariant i >= tr.saleStart && (i - tr.saleStart) % DAY == 0
        invariant forall k :: k in days <==> k in old(days) || (k.0 == t && SaleDay(tr, k.1) && k.1 < i)
        invariant forall k :: k in days ==>
            days[k] == if k.0 == t && SaleDay(tr, k.1) && k.1 < i then FullRow(tr) else old(days)[k]
        decreases tr.saleEnd - i
      {
        var row := Fill(tr);
        days := days[(t, i) := row];
        i := i + DAY;
      }
    }

    static method Fill(tr: Train) returns (row: SeatRow)
      ensures row == FullRow(tr)
    {
      row := [0];
      for j := 1 to tr.stationNum + 1
        invariant |row| == j && row[0] == 0 && forall i :: 1 <= i < j ==> row[i] == tr.totalSeats
      {
        row := row + [tr.totalSeats];
      }
    }

    /** One record per stop. */
    method FillStations(t: TrainId, tr: Train)
      requires TrainOk(tr)
      requires forall k :: k in stations ==> k.1 != t
      modifies `stations
      ensures forall k :: k in old(stations) ==> k in stations && stations[k] == old(stations)[k]
      ensures forall k :: k in stations && k.1 != t ==> k in old(stations)
      ensures forall k :: k in stations && k.1 == t ==>
          IsStop(tr, stations[k].index, k.0) && stations[k] == StationOf(tr, t, stations[k].index)
      ensures forall i :: 1 <= i <= tr.stationNum ==> (tr.stations[i], t) in stations
    {
      for i := 1 to tr.stationNum + 1
        invariant forall k :: k in old(stations) ==> k in stations && stations[k] == old(stations)[k]
        invariant forall k :: k in stations && k.1 != t ==> k in old(stations)
        invariant forall k :: k in stations && k.1 == t ==>
            IsStop(tr, stations[k].index, k.0) && stations[k] == StationOf(tr, t, stations[k].index)
        invariant forall j :: 1 <= j < i ==> (tr.stations[j], t) in stations
      {
        stations := stations[(tr.stations[i], t) := StationOf(tr, t, i)];
      }
    }

    // -------------------------------------------------------------- buying

    /** The stops a name stands for, 0 when there is none; the search ends once both are found. */
    static method FindStops(tr: Train, start: StationName, end: StationName) returns (f: int, t: int)
      requires |tr.stations| == tr.stationNum + 1
      ensures f == 0 ==> forall i :: 1 <= i <= tr.stationNum ==> tr.stations[i] != start
      ensures t == 0 ==> forall i :: 1 <= i <= tr.stationNum ==> tr.stations[i] != end
      ensures f != 0 ==> IsStop(tr, f, start)
      ensures t != 0 ==> IsStop(tr, t, end)
    {
      f, t := 0, 0;
      var i := 1;
      while i <= tr.stationNum && !(f != 0 && t != 0)
        invariant 1 <= i <= tr.stationNum + 1
        invariant if f == 0 then forall j :: 1 <= j < i ==> tr.stations[j] != start else IsStop(tr, f, start)
        invariant if t == 0 then forall j :: 1 <= j < i ==> tr.stations[j] != end else IsStop(tr, t, end)
      {
        if tr.stations[i] == start {
          f := i;
        }
        if tr.stations[i] == end {
          t := i;
        }
        i := i + 1;
      }
    }

    /** The stops of a ride on sale that serves the request, and the day its train sets out. */
    static method FindRide(tr: Train, q: Request) returns (found: bool, f: int, t: int, day: Minute)
      requires TrainOk(tr) && q.date % DAY == 0
      ensures found ==> Serves(tr, q, f, t, day)
      ensures DistinctStops(tr) ==>
        forall f', t', d :: Serves(tr, q, f', t', d) ==> found && f == f' && t == t' && day == d
    {
      f, t := FindStops(tr, q.start, q.end);
      if f == 0 || t == 0 || f >= t {
        return false, f, t, 0;
      }
      day := q.date - DateOf(tr.leaving[f]);
      RideDay(tr, q, f, t);
      found := !(day < tr.saleStart || day > tr.saleEnd);
    }

    /** What a purchase would come to. */
    method Quote(q: Request, loggedIn: set<User>) returns (res: BuyResult)
      requires Valid() && q.num >= 1 && q.date % DAY == 0
      ensures !res.Rejected? ==>
        && q.user in loggedIn && Answers(S(), q, res.order) && NewOrder(S(), res.order)
        && (if res.Queued? then q.queue && res.order.status.Pending? else res.order.status.Success?)
        && (res.Bought? ==> res.total == q.num * res.order.price)
      ensures res.Rejected? && Sellable(S(), q, loggedIn) ==> RightlyRefused(S(), q)
    {
      if q.user !in loggedIn || q.train !in trains {
        return Rejected;
      }
      var tr := trains[q.train];
      if !tr.released || tr.totalSeats < q.num {
        return Rejected;
      }
      TrainsAreOk(S(), q.train);
      var found, f, t, day := FindRide(tr, q);
      if !found {
        return Rejected;
      }
      res := QuoteRide(q, tr, f, t, day);
    }

    /** What a ride between two stops would come to. */
    method QuoteRide(q: Request, tr: Train, f: int, t: int, day: Minute) returns (res: BuyResult)
      requires Valid() && q.num >= 1 && q.train in trains && tr == trains[q.train] && tr.released
      requires TrainOk(tr) && q.num <= tr.totalSeats && Serves(tr, q, f, t, day)
      ensures !res.Rejected? ==>
        && Answers(S(), q, res.order) && NewOrder(S(), res.order)
        && (if res.Queued? then q.queue && res.order.status.Pending? else res.order.status.Success?)
        && (res.Bought? ==> res.total == q.num * res.order.price)
      ensures res.Rejected? ==> !q.queue && ShortOf(S(), q, f, t, day)
    {
      SeatsOnRecord(S(), q.train, day);
      var row := days[(q.train, day)];
      var remain := QuerySeat(row, f, t - 1);
      MinDecides(row, f, t - 1, remain, q.num);
      if !q.queue && remain < q.num {
        return Rejected;
      }
      var price := tr.prices[t] - tr.prices[f];
      var status := if remain >= q.num then Success else Pending;
      var order := Order(q.user, q.train, q.num, price, orderNum + 1, day, f, t, status);
      IsNewOrder(S(), order);
      res := if remain >= q.num then Bought(q.num * price, order) else Queued(order);
    }

    /** Buy, or queue when seats are short and the buyer is willing to wait. */
    method BuyTicket(q: Request, loggedIn: set<User>) returns (res: BuyResult)
      requires Valid() && q.num >= 1 && q.date % DAY == 0
      modifies `orders, `orderNum, `days, `waiting, `byId
      ensures Valid()
      ensures res.Rejected? ==> S() == old(S())
      ensures !res.Rejected? ==>
        && q.user in loggedIn && Answers(old(S()), q, res.order) && NewOrder(old(S()), res.order)
        && S() == SetOrder(old(S()), res.order)
        && (if res.Queued? then q.queue && res.order.status.Pending? else res.order.status.Success?)
      ensures res.Rejected? && Sellable(old(S()), q, loggedIn) ==> RightlyRefused(old(S()), q)
      ensures !res.Rejected? ==> SeatsTaken(old(days), days, res.order, if res.Bought? then q.num else 0)
      ensures !res.Rejected? ==>
        && q.train in listings && PaysLegs(listings[q.train], q, res.order)
        && (res.Bought? ==> res.total == q.num * res.order.price)
    {
      res := Quote(q, loggedIn);
      if !res.Rejected? {
        FareOfRide(S(), listings, q, res.order);
        PlaceOrder(res.order);
      }
    }

    /** Write down a new order: seats go when it is bought, the queue grows when it is not. */
    method PlaceOrder(o: Order)
      requires Valid() && NewOrder(S(), o)
      modifies `orders, `orderNum, `days, `waiting, `byId
      ensures Valid() && S() == SetOrder(old(S()), o)
      ensures SeatsTaken(old(days), days, o, if o.status.Success? then o.num else 0)
    {
      NewOrderWrites(S(), o);
      NewOrderSeats(S(), o);
      SetOrderKeeps(S(), o);
      WriteNew(o, SetOrder(S(), o));
    }

    method WriteNew(o: Order, ghost u: State)
      requires (o.train, o.day) in days && 0 <= o.from && o.to <= |days[(o.train, o.day)]| && !o.status.Refunded?
      requires u == S().(
        orders := orders[(o.user, o.id) := o], byId := byId[o.id := o], orderNum := o.id,
        waiting := if o.status.Pending? then waiting[KeyOf(o) := WaiterOf(o)] else waiting,
        days := if o.status.Pending? then days
                else days[(o.train, o.day) := Shifted(days[(o.train, o.day)], o.from, o.to - 1, -o.num)])
      modifies `orders, `orderNum, `days, `waiting, `byId
      ensures S() == u && trains == old(trains) && listings == old(listings)
    {
      orderNum, byId := o.id, byId[o.id := o];
      if o.status.Success? {
        var row := ModifySeat(days[(o.train, o.day)], o.from, o.to - 1, -o.num);
        days := days[(o.train, o.day) := row];
        orders := orders[(o.user, o.id) := o];
      } else {
        orders := orders[(o.user, o.id) := o];
        waiting := waiting[(o.train, o.day, o.id) := Waiter(o.train, o.user, o.day, o.num, o.from, o.to, o.id)];
      }
    }

    // -------------------------------------------------------------- refunding

    /** Give back the x-th newest order of a user, and serve those who wait. */
    method RefundTicket(user: User, x: int, loggedIn: set<User>) returns (res: RefundResult)
      requires Valid() && x >= 1
      modifies `orders, `waiting, `byId, `days
      ensures Valid()
      ensures var os := NewestFirst(old(orders), user, old(orderNum));
        if user !in loggedIn then res.Failed? && S() == old(S())
        else if os == [] then res.Done? && S() == old(S())
        else if x > |os| || os[x - 1].status.Refunded? then res.Failed? && S() == old(S())
        else res.Done? && (os[x - 1].train, os[x - 1].day) in old(days) && S() == AfterRefund(old(S()), os[x - 1])
    {
      if user !in loggedIn {
        return Failed;
      }
      var os := NewestFirst(orders, user, orderNum);
      if os == [] {
        return Done;
      }
      if x > |os| || os[x - 1].status.Refunded? {
        return Failed;
      }
      RefundNamed(user, x, os[x - 1]);
      res := Done;
    }

    /** Give back the order on a given place of the user's list. */
    method RefundNamed(ghost user: User, ghost x: int, o: Order)
      requires Valid() && 1 <= x <= |NewestFirst(orders, user, orderNum)|
               && o == NewestFirst(orders, user, orderNum)[x - 1] && !o.status.Refunded?
      modifies `orders, `waiting, `byId, `days
      ensures Valid() && (o.train, o.day) in old(days) && S() == AfterRefund(old(S()), o)
    {
      ghost var u := RefundFacts(S(), user, x);
      if o.status.Pending? {
        Withdraw(o, u);
      } else {
        RefundBought(o, u);
      }
    }

    /** Take a waiting order out of the queue. */
    method Withdraw(o: Order, ghost u: State)
      requires (o.train, o.day) in days && o.status.Pending? && u == Returned(S(), o)
      modifies `orders, `waiting, `byId
      ensures S() == u && trains == old(trains) && listings == old(listings)
    {
      orders := orders[(o.user, o.id) := WithStatus(o, Refunded)];
      byId := byId[o.id := WithStatus(o, Refunded)];
      waiting := waiting - {(o.train, o.day, o.id)};
    }

    /** Free the seats of a bought order and serve the queue from its id on. */
    method RefundBought(o: Order, ghost u: State)
      requires (o.train, o.day) in days && 0 <= o.from && o.to <= |days[(o.train, o.day)]|
      requires o.status.Success? && u == Returned(S(), o) && AllReady(u, o)
      modifies `orders, `waiting, `byId, `days
      ensures S() == PromoteAll(u, Queue(u.waiting, o.train, o.day, o.id, u.orderNum), o)
      ensures trains == old(trains) && listings == old(listings)
    {
      var k := (o.train, o.day);
      orders := orders[(o.user, o.id) := WithStatus(o, Refunded)];
      byId := byId[o.id := WithStatus(o, Refunded)];
      var row := ModifySeat(days[k], o.from, o.to - 1, o.num);
      var ws := Queue(waiting, o.train, o.day, o.id, orderNum);
      row := ServeQueue(ws, o, row, u);
      days := days[k := row];
    }

    /** Serve a list of waiting orders; their row of seats is written back at the end. */
    method ServeQueue(ws: seq<Waiter>, o: Order, row: SeatRow, ghost u: State) returns (r: SeatRow)
      requires (o.train, o.day) in days && S().(days := days[(o.train, o.day) := row]) == u
      requires forall i {:trigger Ready(u, ws, o, i)} :: 0 <= i < |ws| ==> Ready(u, ws, o, i)
      modifies `orders, `waiting, `byId
      ensures S().(days := days[(o.train, o.day) := r]) == PromoteAll(u, ws, o)
    {
      r := row;
      assert ws[..0] == [];
      for i := 0 to |ws|
        invariant S().(days := days[(o.train, o.day) := r]) == PromoteAll(u, ws[..i], o)
      {
        assert Ready(u, ws, o, i);
        PromoteAllStep(u, ws, o, i);
        r := ServeOne(ws[i], o, r);
      }
      assert ws[..|ws|] == ws;
    }

    /** Serve one waiting order if it touches the refunded ride and fits. */
    method ServeOne(w: Waiter, o: Order, row: SeatRow) returns (r: SeatRow)
      requires (w.train, w.day) in days && w.num <= MAX_INT && w.id <= orderNum
      requires Known(S().(days := days[(w.train, w.day) := row]), w)
      requires (w.user, w.id) in orders && orders[(w.user, w.id)] == byId[w.id]
      modifies `orders, `waiting, `byId
      ensures S().(days := days[(w.train, w.day) := r])
           == Promote(old(S()).(days := days[(w.train, w.day) := row]), w, o)
    {
      ghost var p := PromoteWrites(S().(days := days[(w.train, w.day) := row]), w, o);
      r := WriteServed(w, o, row, p);
    }

    method WriteServed(w: Waiter, o: Order, row: SeatRow, ghost p: State) returns (r: SeatRow)
      requires (w.train, w.day) in days && w.num <= MAX_INT && 0 <= w.from < w.to <= |row|
      requires (w.user, w.id) in orders && w.id in byId && orders[(w.user, w.id)] == byId[w.id]
      requires PromotedTo(S().(days := days[(w.train, w.day) := row]), w, o, p)
      modifies `orders, `waiting, `byId
      ensures S().(days := days[(w.train, w.day) := r]) == p
    {
      r := row;
      if w.from > o.to || w.to < o.from {
        return;
      }
      var seats := QuerySeat(row, w.from, w.to - 1);
      MinDecides(row, w.from, w.to - 1, seats, w.num);
      if seats >= w.num {
        r := TakeSeats(w, row);
      }
    }

    method TakeSeats(w: Waiter, row: SeatRow) returns (r: SeatRow)
      requires (w.train, w.day) in days && 0 <= w.from < w.to <= |row| && (w.user, w.id) in orders
      modifies `orders, `waiting, `byId
      ensures var k, so := (w.train, w.day), WithStatus(old(orders)[(w.user, w.id)], Success);
        && r == Shifted(row, w.from, w.to - 1, -w.num)
        && S().(days := days[k := r]) == old(S()).(
             days := days[k := row][k := r], orders := old(orders)[(w.user, w.id) := so],
             byId := old(byId)[w.id := so], waiting := old(waiting) - {(w.train, w.day, w.id)})
    {
      r := ModifySeat(row, w.from, w.to - 1, -w.num);
      assert days[(w.train, w.day) := row][(w.train, w.day) := r] == days[(w.train, w.day) := r];
      MarkServed(w);
    }

    /** The order leaves the queue as bought. */
    method MarkServed(w: Waiter)
      requires (w.user, w.id) in orders
      modifies `orders, `waiting, `byId
      ensures var so := WithStatus(old(orders)[(w.user, w.id)], Success);
        S() == old(S()).(orders := old(orders)[(w.user, w.id) := so], byId := old(byId)[w.id := so],
                         waiting := old(waiting) - {(w.train, w.day, w.id)})
    {
      waiting := waiting - {(w.train, w.day, w.id)};
      var so := WithStatus(orders[(w.user, w.id)], Success);
      orders := orders[(w.user, w.id) := so];
      byId := byId[w.id := so];
    }
  }

  lemma NamedIsOnBooks(s: State, user: User, x: int)
    requires Integrity(s) && 1 <= x <= |NewestFirst(s.orders, user, s.orderNum)|
    ensures var o := NewestFirst(s.orders, user, s.orderNum)[x - 1];
      && o.id in s.byId && s.byId[o.id] == o && o.user == user && OnSale(s, o.train, o.day)
         && (o.train, o.day) in s.days
      && 1 <= o.from < o.to <= s.trains[o.train].stationNum
         && |s.days[(o.train, o.day)]| == s.trains[o.train].stationNum + 1
  {
    NewestFirstFalls(s, user, s.orderNum);
    var o := NewestFirst(s.orders, user, s.orderNum)[x - 1];
    assert s.byId[o.id] == o && OrderOk(s, o);
    SeatsOnRecord(s, o.train, o.day);
  }

  /** Everything a refund relies on. */
  lemma RefundFacts(s: State, user: User, x: int) returns (u: State)
    requires Integrity(s) && 1 <= x <= |NewestFirst(s.orders, user, s.orderNum)|
    requires !NewestFirst(s.orders, user, s.orderNum)[x - 1].status.Refunded?
    ensures var o := NewestFirst(s.orders, user, s.orderNum)[x - 1];
      && (o.train, o.day) in s.days && 0 <= o.from && o.to <= |s.days[(o.train, o.day)]|
      && Integrity(AfterRefund(s, o))
      && u == Returned(s, o) && (o.status.Pending? ==> AfterRefund(s, o) == u)
      && (o.status.Success? ==>
            AfterRefund(s, o) == PromoteAll(u, Queue(u.waiting, o.train, o.day, o.id, u.orderNum), o) && AllReady(u, o))
  {
    var o := NewestFirst(s.orders, user, s.orderNum)[x - 1];
    NamedIsOnBooks(s, user, x);
    RefundKeeps(s, o);
    ReleaseWrites(s, o);
    u := Released(s, o);
    TurnsReady(s, o);
  }

  ghost predicate AllReady(u: State, o: Order) {
    var ws := Queue(u.waiting, o.train, o.day, o.id, u.orderNum);
    forall i {:trigger Ready(u, ws, o, i)} :: 0 <= i < |ws| ==> Ready(u, ws, o, i)
  }

  lemma TurnsReady(s: State, o: Order)
    requires Integrity(s) && Refundable(s, o) && (o.train, o.day) in s.days
    ensures AllReady(Released(s, o), o)
  {
    ReleaseKeeps(s, o);
    var u := Released(s, o);
    var ws := Queue(u.waiting, o.train, o.day, o.id, u.orderNum);
    QueueLists(u, o.train, o.day, o.id, u.orderNum);
    forall i | 0 <= i < |ws| ensures Ready(u, ws, o, i) {
      StillKnown(u, ws, o, o.id, u.orderNum, i);
    }
  }

  /** The train is on sale, big enough, and no two of its stops share a name. */
  ghost predicate Sellable(s: State, q: Request, loggedIn: set<User>) {
    && q.user in loggedIn && q.train in s.trains && s.trains[q.train].released
    && q.num <= s.trains[q.train].totalSeats && DistinctStops(s.trains[q.train])
  }

  /** On some segment of the ride fewer seats are left than asked for. */
  ghost predicate ShortOf(s: State, q: Request, f: int, t: int, d: Minute) {
    && (q.train, d) in s.days
    && exists j :: f <= j < t && 0 <= j < |s.days[(q.train, d)]| && s.days[(q.train, d)][j] < q.num
  }

  /** Every ride that serves the request is short of seats, and the buyer would not wait. */
  ghost predicate RightlyRefused(s: State, q: Request)
    requires q.train in s.trains
  {
    forall f, t, d :: Serves(s.trains[q.train], q, f, t, d) ==> !q.queue && ShortOf(s, q, f, t, d)
  }

  /** The segments of the ride have n seats less, and all others as many as before. */
  ghost predicate SeatsTaken(was: map<DayKey, SeatRow>, now: map<DayKey, SeatRow>, o: Order, n: int) {
    && now.Keys == was.Keys
    && forall k, j :: k in was && 0 <= j < |was[k]| ==>
         && |now[k]| == |was[k]|
         && now[k][j] == was[k][j] - if k == (o.train, o.day) && o.from <= j < o.to then n else 0
  }

  lemma NewOrderSeats(s: State, o: Order)
    requires Integrity(s) && NewOrder(s, o)
    ensures SeatsTaken(s.days, SetOrder(s, o).days, o, if o.status.Success? then o.num else 0)
  {
    assert OrdersOk(s);
  }

  /** The day the train of a ride sets out. */
  lemma RideDay(tr: Train, q: Request, f: int, t: int)
    requires TrainOk(tr) && q.date % DAY == 0 && IsStop(tr, f, q.start) && IsStop(tr, t, q.end) && f < t
    ensures var day := q.date - DateOf(tr.leaving[f]);
      && (tr.saleStart <= day <= tr.saleEnd ==> Serves(tr, q, f, t, day))
      && forall d :: Serves(tr, q, f, t, d) ==> d == day
  {
    var day := q.date - DateOf(tr.leaving[f]);
    DayAligned(q.date, tr.leaving[f], tr.saleStart);
    BoardingDay(q.date, day, tr.leaving[f]);
    forall d | Serves(tr, q, f, t, d) ensures d == day {
      BoardingDay(q.date, d, tr.leaving[f]);
    }
  }

  lemma IsNewOrder(s: State, o: Order)
    requires Integrity(s) && OnSale(s, o.train, o.day) && (o.train, o.day) in s.days
    requires |s.days[(o.train, o.day)]| == s.trains[o.train].stationNum + 1
    requires 1 <= o.from < o.to <= s.trains[o.train].stationNum && 1 <= o.num <= s.trains[o.train].totalSeats
             && o.id == s.orderNum + 1
    requires o.status == if Fits(s.days[(o.train, o.day)], o.from, o.to, o.num) then Success else Pending
    ensures NewOrder(s, o)
  {
    assert OrdersOk(s);
  }

  lemma TrainsAreOk(s: State, t: TrainId)
    requires Integrity(s) && t in s.trains
    ensures TrainOk(s.trains[t])
  {
  }

  /** What a promotion writes, if it happens. */
  ghost predicate PromotedTo(g: State, w: Waiter, o: Order, p: State) {
    && w.id in g.byId && (w.train, w.day) in g.days && 0 <= w.from < w.to <= |g.days[(w.train, w.day)]|
    && if Touches(w, o) && Fits(g.days[(w.train, w.day)], w.from, w.to, w.num) then
         var so := WithStatus(g.byId[w.id], Success);
         p == g.(
           orders := g.orders[(w.user, w.id) := so], byId := g.byId[w.id := so],
           waiting := g.waiting - {(w.train, w.day, w.id)},
           days := g.days[(w.train, w.day) := Shifted(g.days[(w.train, w.day)], w.from, w.to - 1, -w.num)])
       else p == g
  }

  lemma PromoteWrites(g: State, w: Waiter, o: Order) returns (p: State)
    requires Known(g, w) && w.id <= g.orderNum
    ensures p == Promote(g, w, o) && PromotedTo(g, w, o, p)
  {
    p := Promote(g, w, o);
  }

  /** Every sale day of a released train has its seats on record. */
  lemma SeatsOnRecord(s: State, t: TrainId, d: Minute)
    requires Integrity(s) && OnSale(s, t, d)
    ensures (t, d) in s.days && |s.days[(t, d)]| == s.trains[t].stationNum + 1
  {
    assert SeatsOk(s, t, d);
  }

  lemma DayAligned(date: Minute, m: Minute, saleStart: Minute)
    requires date % DAY == 0 && saleStart % DAY == 0
    ensures (date - DateOf(m) - saleStart) % DAY == 0
  {
  }
}
