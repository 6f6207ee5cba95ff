/** Trains come and go, and a user's orders are listed. */
module BookingTrains {
  import opened Seats
  import opened Booking

  /** The day a moment falls on. */
  function DateOf(m: Minute): Minute {
    m - m % DAY
  }

  /** A train that leaves its first stop on day d leaves a later one, m minutes after d, on the given day
      exactly if d is that day less the days under way. */
  lemma BoardingDay(day: Minute, d: Minute, m: Minute)
    requires day % 1440 == 0 && d % 1440 == 0
    ensures day <= d + m < day + 1440 <==> d == day - DateOf(m)
  {
  }

  /** A user's orders, newest first: a scan of the order database, sorted by falling id. */
  function NewestFirst(orders: map<OrderKey, Order>, user: User, n: int): seq<Order>
    decreases n
  {
    if n <= 0 then []
    else if (user, n) in orders then [orders[(user, n)]] + NewestFirst(orders, user, n - 1)
    else NewestFirst(orders, user, n - 1)
  }

  /** A list of orders of the user only, ids strictly falling from at most n. */
  ghost predicate Falling(s: State, user: User, os: seq<Order>, n: int) {
    && (forall i :: 0 <= i < |os| ==> 1 <= os[i].id <= n)
    && (forall i :: 0 <= i < |os| ==> (user, os[i].id) in s.orders && s.orders[(user, os[i].id)] == os[i])
    && (forall i, j :: 0 <= i < j < |os| ==> os[i].id > os[j].id)
  }

  lemma {:induction false} NewestFirstFalls(s: State, user: User, n: int)
    requires OrdersOk(s)
    ensures Falling(s, user, NewestFirst(s.orders, user, n), n)
    decreases n
  {
    if n > 0 {
      NewestFirstFalls(s, user, n - 1);
      var rest := NewestFirst(s.orders, user, n - 1);
      if (user, n) in s.orders {
        var o := s.orders[(user, n)];
        assert s.byId[n] == o && o.id == n;
        FallingCons(s, user, o, rest, n);
      }
    }
  }

  lemma FallingCons(s: State, user: User, o: Order, rest: seq<Order>, n: int)
    requires n > 0 && Falling(s, user, rest, n - 1) && o.id == n && (user, n) in s.orders && s.orders[(user, n)] == o
    ensures Falling(s, user, [o] + rest, n)
  {
  }

  /** And it holds all of them. */
  lemma {:induction false} NewestFirstComplete(s: State, user: User, n: int, i: int)
    requires (user, i) in s.orders && 1 <= i <= n
    ensures s.orders[(user, i)] in NewestFirst(s.orders, user, n)
    decreases n
  {
    if i < n {
      NewestFirstComplete(s, user, n - 1, i);
    }
  }

  // ---------------------------------------------------------------- trains come and go

  lemma AddTrainKeeps(s: State, t: TrainId, tr: Train)
    requires Integrity(s) && t !in s.trains && TrainOk(tr) && !tr.released
    ensures Integrity(s.(trains := s.trains[t := tr]))
  {
    var u := s.(trains := s.trains[t := tr]);
    SameSales(s, u, t);
  }

  lemma DeleteTrainKeeps(s: State, t: TrainId)
    requires Integrity(s) && t in s.trains && !s.trains[t].released
    ensures Integrity(s.(trains := s.trains - {t}))
  {
    var u := s.(trains := s.trains - {t});
    SameSales(s, u, t);
  }

  /** A train that is not on sale has no orders, no seats and no stops on record. */
  lemma SameSales(s: State, u: State, t: TrainId)
    requires Integrity(s) && (t in s.trains ==> !s.trains[t].released)
    requires u == s.(trains := u.trains) && (t in u.trains ==> TrainOk(u.trains[t]) && !u.trains[t].released)
    requires forall r :: r != t ==> (r in s.trains <==> r in u.trains) && (r in s.trains ==> s.trains[r] == u.trains[r])
    ensures Integrity(u)
  {
    forall r, d | OnSale(u, r, d) ensures SeatsOk(u, r, d) {
      assert OnSale(s, r, d) && SeatsOk(s, r, d);
    }
    SameSalesOrders(s, u, t);
    SameSalesRecords(s, u, t);
  }

  lemma SameSalesOrders(s: State, u: State, t: TrainId)
    requires OrdersOk(s) && WaitingOk(s) && (t in s.trains ==> !s.trains[t].released)
    requires u == s.(trains := u.trains) && (t in u.trains ==> !u.trains[t].released)
    requires forall r :: r != t ==> (r in s.trains <==> r in u.trains) && (r in s.trains ==> s.trains[r] == u.trains[r])
    ensures OrdersOk(u) && WaitingOk(u)
  {
    forall i | i in u.byId ensures OrderOk(u, u.byId[i]) && u.byId[i].id == i && (u.byId[i].user, i) in u.orders {
      assert OrderOk(s, s.byId[i]) && OnSale(s, s.byId[i].train, s.byId[i].day);
    }
  }

  lemma SameSalesRecords(s: State, u: State, t: TrainId)
    requires DaysOk(s) && StationsOk(s) && (t in s.trains ==> !s.trains[t].released)
    requires u == s.(trains := u.trains) && (t in u.trains ==> !u.trains[t].released)
    requires forall r :: r != t ==> (r in s.trains <==> r in u.trains) && (r in s.trains ==> s.trains[r] == u.trains[r])
    ensures DaysOk(u) && StationsOk(u)
  {
    forall k | k in u.days ensures OnSale(u, k.0, k.1) && |u.days[k]| == u.trains[k.0].stationNum + 1 {
      assert OnSale(s, k.0, k.1);
    }
    forall r, d | OnSale(u, r, d) ensures (r, d) in u.days {
      assert OnSale(s, r, d);
    }
  }

  /** All seats free. Index 0 is not used. */
  function FullRow(tr: Train): (row: SeatRow)
    ensures |row| == tr.stationNum + 1 && forall j :: 1 <= j <= tr.stationNum ==> row[j] == tr.totalSeats
  {
    seq(tr.stationNum + 1, j => if j == 0 then 0 else tr.totalSeats)
  }

  /** From s to u train t went on sale: one full seat record per sale day, one record per stop. */
  ghost predicate Published(s: State, u: State, t: TrainId) {
    && t in s.trains && TrainOk(s.trains[t])
    && var tr := s.trains[t].(released := true);
    && u == s.(trains := s.trains[t := tr], days := u.days, stations := u.stations)
    && (forall k :: k in u.days <==> k in s.days || (k.0 == t && SaleDay(tr, k.1)))
    && (forall k :: k in u.days ==> u.days[k] == if k.0 == t then FullRow(tr) else s.days[k])
    && (forall k :: k in s.stations && k.1 != t ==> k in u.stations && u.stations[k] == s.stations[k])
    && (forall k :: k in u.stations && k.1 != t ==> k in s.stations)
    && (forall k :: k in u.stations && k.1 == t ==>
         IsStop(tr, u.stations[k].index, k.0) && u.stations[k] == StationOf(tr, t, u.stations[k].index))
    && (forall i :: 1 <= i <= tr.stationNum ==> (tr.stations[i], t) in u.stations)
  }

  lemma {:induction false} NothingSold(s: State, n: int, t: TrainId, d: Minute, j: int)
    requires OrdersOk(s) && (t in s.trains ==> !s.trains[t].released)
    ensures Sold(s.byId, n, t, d, j) == 0
    decreases n
  {
    if n > 0 {
      NothingSold(s, n - 1, t, d, j);
      assert n in s.byId ==> OrderOk(s, s.byId[n]);
    }
  }

  lemma PublishSales(s: State, u: State, t: TrainId, r: TrainId, d: Minute)
    requires Published(s, u, t)
    ensures OnSale(u, r, d) <==> if r == t then SaleDay(s.trains[t], d) else OnSale(s, r, d)
  {
  }

  lemma PublishOrders(s: State, u: State, t: TrainId)
    requires Integrity(s) && t in s.trains && !s.trains[t].released && Published(s, u, t)
    ensures OrdersOk(u) && WaitingOk(u)
  {
    forall i | i in u.byId ensures OrderOk(u, u.byId[i]) && u.byId[i].id == i && (u.byId[i].user, i) in u.orders {
      assert OrderOk(s, s.byId[i]);
      PublishSales(s, u, t, s.byId[i].train, s.byId[i].day);
    }
  }

  lemma PublishRecords(s: State, u: State, t: TrainId)
    requires Integrity(s) && t in s.trains && !s.trains[t].released && Published(s, u, t)
    ensures DaysOk(u) && StationsOk(u)
  {
    forall k | k in u.days ensures OnSale(u, k.0, k.1) && |u.days[k]| == u.trains[k.0].stationNum + 1 {
      PublishSales(s, u, t, k.0, k.1);
      assert k in s.days ==> OnSale(s, k.0, k.1);
    }
    forall r, d | OnSale(u, r, d) ensures (r, d) in u.days {
      PublishSales(s, u, t, r, d);
      assert r != t ==> OnSale(s, r, d);
    }
    PublishStations(s, u, t);
  }

  lemma PublishStations(s: State, u: State, t: TrainId)
    requires StationsOk(s) && t in s.trains && !s.trains[t].released && Published(s, u, t)
    ensures StationsOk(u)
  {
    forall r, i | r in u.trains && u.trains[r].released && 1 <= i < |u.trains[r].stations|
      ensures (u.trains[r].stations[i], r) in u.stations
    {
      assert r != t ==> (s.trains[r].stations[i], r) in s.stations;
    }
  }

  lemma PublishSeats(s: State, u: State, t: TrainId, r: TrainId, d: Minute)
    requires Integrity(s) && t in s.trains && !s.trains[t].released && Published(s, u, t) && OnSale(u, r, d)
    ensures SeatsOk(u, r, d)
  {
    PublishSales(s, u, t, r, d);
    if r == t {
      forall j | 1 <= j <= s.trains[t].stationNum ensures Sold(u.byId, u.orderNum, t, d, j) == 0 {
        NothingSold(s, s.orderNum, t, d, j);
      }
    } else {
      assert SeatsOk(s, r, d);
    }
  }

  /** Putting a train on sale keeps the databases in step. */
  lemma PublishKeeps(s: State, u: State, t: TrainId)
    requires Integrity(s) && t in s.trains && !s.trains[t].released && Published(s, u, t)
    ensures Integrity(u)
  {
    PublishOrders(s, u, t);
    PublishRecords(s, u, t);
    forall r, d | OnSale(u, r, d) ensures SeatsOk(u, r, d) {
      PublishSeats(s, u, t, r, d);
    }
  }
}
