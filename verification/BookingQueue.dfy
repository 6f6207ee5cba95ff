/** Serving the waiting orders after a refund. */
module BookingQueue {
  import opened Seats
  import opened Booking

  /** The waiting orders of a train and day with ids lo..n, oldest first: what a scan of the queue
      database from id lo on returns. */
  function Queue(waiting: map<WaitKey, Waiter>, t: TrainId, d: Minute, lo: int, n: int): seq<Waiter>
    decreases n - lo
  {
    if n < lo then [] else
      Queue(waiting, t, d, lo, n - 1) + if (t, d, n) in waiting then [waiting[(t, d, n)]] else []
  }

  /** The rides have a stop in common, so a refund of one may matter to the other. */
  predicate Touches(w: Waiter, r: Order) {
    !(w.from > r.to || w.to < r.from)
  }

  /** Waiting order w is on the books of state s. */
  predicate Known(s: State, w: Waiter) {
    && w.id in s.byId && s.byId[w.id].status.Pending? && WaiterOf(s.byId[w.id]) == w
    && (w.train, w.day) in s.days && 0 <= w.from < w.to <= |s.days[(w.train, w.day)]|
  }

  predicate Served(s: State, w: Waiter, r: Order) {
    Known(s, w) && Touches(w, r) && Fits(s.days[(w.train, w.day)], w.from, w.to, w.num)
  }

  /** A waiting order that now fits is turned into a bought one. */
  function Promote(s: State, w: Waiter, r: Order): State {
    if Served(s, w, r) then SetOrder(s, WithStatus(s.byId[w.id], Success)) else s
  }

  /** All of them, one after the other. */
  function PromoteAll(s: State, ws: seq<Waiter>, r: Order): State
    decreases |ws|
  {
    if ws == [] then s else Promote(PromoteAll(s, ws[..|ws| - 1], r), ws[|ws| - 1], r)
  }

  /** The effect of refunding order o. */
  function AfterRefund(s: State, o: Order): State
    requires (o.train, o.day) in s.days
  {
    var u := SetOrder(s, WithStatus(o, Refunded));
    if o.status.Success? then
      PromoteAll(u, Queue(u.waiting, o.train, o.day, o.id, u.orderNum), o)
    else u
  }

  // ---------------------------------------------------------------- the queue

  /** A list of waiting orders of one train and day, ids strictly increasing within lo..n. */
  ghost predicate QueueOf(s: State, ws: seq<Waiter>, t: TrainId, d: Minute, lo: int, n: int) {
    && (forall i :: 0 <= i < |ws| ==>
         (t, d, ws[i].id) in s.waiting && s.waiting[(t, d, ws[i].id)] == ws[i] && lo <= ws[i].id <= n)
    && (forall i, j :: 0 <= i < j < |ws| ==> ws[i].id < ws[j].id)
  }

  lemma WaiterId(s: State, k: WaitKey)
    requires Integrity(s) && k in s.waiting
    ensures s.waiting[k].id == k.2 && s.waiting[k].train == k.0 && s.waiting[k].day == k.1
  {
    assert WaitingOk(s);
  }

  lemma QueuePrefix(s: State, ws: seq<Waiter>, t: TrainId, d: Minute, lo: int, n: int, m: int)
    requires QueueOf(s, ws, t, d, lo, n) && 0 <= m <= |ws|
    ensures QueueOf(s, ws[..m], t, d, lo, n) && forall i :: 0 <= i < m ==> ws[..m][i] == ws[i]
  {
  }

  /** A scan returns exactly the waiting orders with ids in range, in order. */
  lemma QueueLists(s: State, t: TrainId, d: Minute, lo: int, n: int)
    requires Integrity(s)
    ensures QueueOf(s, Queue(s.waiting, t, d, lo, n), t, d, lo, n)
    ensures forall i :: lo <= i <= n && (t, d, i) in s.waiting ==> s.waiting[(t, d, i)] in Queue(s.waiting, t, d, lo, n)
  {
    forall k | k in s.waiting ensures s.waiting[k].id == k.2 {
      WaiterId(s, k);
    }
    QueueRises(s, t, d, lo, n);
    forall i | lo <= i <= n && (t, d, i) in s.waiting ensures s.waiting[(t, d, i)] in Queue(s.waiting, t, d, lo, n) {
      QueueHas(s.waiting, t, d, lo, n, i);
    }
  }

  lemma {:induction false} QueueRises(s: State, t: TrainId, d: Minute, lo: int, n: int)
    requires forall k :: k in s.waiting ==> s.waiting[k].id == k.2
    ensures QueueOf(s, Queue(s.waiting, t, d, lo, n), t, d, lo, n)
    decreases n - lo
  {
    if n >= lo {
      QueueRises(s, t, d, lo, n - 1);
    }
  }

  lemma {:induction false} QueueHas(waiting: map<WaitKey, Waiter>, t: TrainId, d: Minute, lo: int, n: int, i: int)
    requires lo <= i <= n && (t, d, i) in waiting
    ensures waiting[(t, d, i)] in Queue(waiting, t, d, lo, n)
    decreases n - lo
  {
    if i < n {
      QueueHas(waiting, t, d, lo, n - 1, i);
    }
  }

  /** Every queued order is on the books. */
  lemma QueuedIsKnown(s: State, w: Waiter, t: TrainId, d: Minute)
    requires Integrity(s) && (t, d, w.id) in s.waiting && s.waiting[(t, d, w.id)] == w
    ensures Known(s, w) && w.train == t && w.day == d && 1 <= w.id <= s.orderNum
    ensures OrderOk(s, s.byId[w.id]) && OnSale(s, t, d) && |s.days[(t, d)]| == s.trains[t].stationNum + 1
  {
    assert WaitingOk(s) && OrdersOk(s) && DaysOk(s);
    assert w.id in s.byId && KeyOf(s.byId[w.id]) == (t, d, w.id);
    assert OrderOk(s, s.byId[w.id]);
    assert OnSale(s, t, d);
  }

  // ---------------------------------------------------------------- one promotion

  lemma PromoteKeeps(s: State, w: Waiter, r: Order)
    requires Integrity(s)
    ensures Integrity(Promote(s, w, r))
  {
    if Served(s, w, r) {
      var o := WithStatus(s.byId[w.id], Success);
      assert OrdersOk(s) && OrderOk(s, s.byId[w.id]) && DaysOk(s);
      assert CanSet(s, o);
      SetOrderKeeps(s, o);
    }
  }

  // ---------------------------------------------------------------- a whole round of promotions

  /** Between s and u some waiting orders were bought: seats only went down, statuses only from
      pending to success, and nothing else moved. */
  ghost predicate Progress(s: State, u: State) {
    && u.trains == s.trains && u.stations == s.stations && u.orderNum == s.orderNum
    && u.days.Keys == s.days.Keys && u.byId.Keys == s.byId.Keys
    && (forall k :: k in s.days ==> |u.days[k]| == |s.days[k]|)
    && (forall k, j :: k in s.days && 0 <= j < |s.days[k]| ==> u.days[k][j] <= s.days[k][j])
    && (forall i :: i in s.byId ==>
         || u.byId[i] == s.byId[i]
         || (s.byId[i].status.Pending? && u.byId[i] == WithStatus(s.byId[i], Success)))
    && (forall k :: k in u.waiting ==> k in s.waiting && u.waiting[k] == s.waiting[k])
  }

  lemma PromoteProgress(s: State, w: Waiter, r: Order)
    requires Integrity(s)
    ensures Progress(s, Promote(s, w, r))
  {
    if Served(s, w, r) {
      assert s.byId[w.id].num >= 1 && s.byId[w.id].id == w.id && w.id <= s.orderNum by {
        assert OrdersOk(s) && OrderOk(s, s.byId[w.id]);
      }
      BoughtProgress(s, WithStatus(s.byId[w.id], Success));
    }
  }

  lemma BoughtProgress(s: State, o: Order)
    requires (o.train, o.day) in s.days && o.id in s.byId && s.byId[o.id].status.Pending? && o.id <= s.orderNum
    requires o == WithStatus(s.byId[o.id], Success) && o.num >= 1
    ensures Progress(s, SetOrder(s, o))
  {
  }

  lemma ProgressTrans(s: State, u: State, v: State)
    requires Progress(s, u) && Progress(u, v)
    ensures Progress(s, v)
  {
    forall k, j | k in s.days && 0 <= j < |s.days[k]| ensures v.days[k][j] <= s.days[k][j] {
      assert u.days[k][j] <= s.days[k][j];
    }
  }

  lemma {:induction false} PromoteAllKeeps(s: State, ws: seq<Waiter>, r: Order)
    requires Integrity(s)
    ensures Integrity(PromoteAll(s, ws, r)) && Progress(s, PromoteAll(s, ws, r))
    decreases |ws|
  {
    if ws != [] {
      var v := PromoteAll(s, ws[..|ws| - 1], r);
      PromoteAllKeeps(s, ws[..|ws| - 1], r);
      PromoteKeeps(v, ws[|ws| - 1], r);
      PromoteProgress(v, ws[|ws| - 1], r);
      ProgressTrans(s, v, PromoteAll(s, ws, r));
    }
  }

  ghost predicate Unlisted(ws: seq<Waiter>, id: int) {
    forall i :: 0 <= i < |ws| ==> ws[i].id != id
  }

  lemma PromoteWaiting(s: State, w: Waiter, r: Order, k: WaitKey)
    requires k in s.waiting && k.2 != w.id
    ensures k in Promote(s, w, r).waiting && Promote(s, w, r).waiting[k] == s.waiting[k]
  {
  }

  /** Waiting orders the list does not speak of go on waiting. */
  lemma {:induction false} UnlistedWaits(s: State, ws: seq<Waiter>, r: Order, k: WaitKey)
    requires k in s.waiting && Unlisted(ws, k.2)
    ensures k in PromoteAll(s, ws, r).waiting && PromoteAll(s, ws, r).waiting[k] == s.waiting[k]
    decreases |ws|
  {
    if ws != [] {
      UnlistedWaits(s, ws[..|ws| - 1], r, k);
      PromoteWaiting(PromoteAll(s, ws[..|ws| - 1], r), ws[|ws| - 1], r, k);
    }
  }

  /** Whether a waiting order would fit right now. */
  ghost predicate WouldFit(s: State, w: Waiter) {
    && (w.train, w.day) in s.days && 0 <= w.from && w.to <= |s.days[(w.train, w.day)]|
    && Fits(s.days[(w.train, w.day)], w.from, w.to, w.num)
  }

  lemma FewerSeats(s: State, u: State, w: Waiter)
    requires Progress(s, u) && WouldFit(u, w)
    ensures WouldFit(s, w)
  {
    var k := (w.train, w.day);
    forall j | w.from <= j < w.to ensures s.days[k][j] >= w.num {
      assert u.days[k][j] <= s.days[k][j];
    }
  }

  /** After the round no order of the list that touches the refunded ride and still waits would fit. */
  lemma {:induction false} NoneLeftBehind(s: State, ws: seq<Waiter>, r: Order, t: TrainId, d: Minute, lo: int, n: int,
                                          i: int)
    requires Integrity(s) && QueueOf(s, ws, t, d, lo, n) && 0 <= i < |ws|
             && ws[i].from <= r.to && r.from <= ws[i].to
    ensures var u := PromoteAll(s, ws, r); (t, d, ws[i].id) in u.waiting ==> !WouldFit(u, ws[i])
    decreases |ws|
  {
    var last := |ws| - 1;
    if i < last {
      QueuePrefix(s, ws, t, d, lo, n, last);
      NoneLeftBehind(s, ws[..last], r, t, d, lo, n, i);
    } else {
      TurnComes(s, ws[..last], ws[i], r, t, d);
    }
    StillNotFitting(s, ws[..last], ws[last], r, ws[i], (t, d, ws[i].id));
    assert PromoteAll(s, ws, r) == Promote(PromoteAll(s, ws[..last], r), ws[last], r);
  }

  lemma StillNotFitting(s: State, ws: seq<Waiter>, w: Waiter, r: Order, x: Waiter, k: WaitKey)
    requires Integrity(s)
    ensures var v := PromoteAll(s, ws, r);
      var u := Promote(v, w, r);
      && (k in u.waiting ==> k in v.waiting)
      && (WouldFit(u, x) ==> WouldFit(v, x))
  {
    var v := PromoteAll(s, ws, r);
    PromoteAllKeeps(s, ws, r);
    PromoteProgress(v, w, r);
    if WouldFit(Promote(v, w, r), x) {
      FewerSeats(v, Promote(v, w, r), x);
    }
  }

  lemma TurnComes(s: State, ws: seq<Waiter>, w: Waiter, r: Order, t: TrainId, d: Minute)
    requires Integrity(s) && (t, d, w.id) in s.waiting && s.waiting[(t, d, w.id)] == w && Touches(w, r)
    ensures var v := PromoteAll(s, ws, r);
      (t, d, w.id) in v.waiting && WouldFit(v, w) ==> (t, d, w.id) !in Promote(v, w, r).waiting
  {
    var v := PromoteAll(s, ws, r);
    PromoteAllKeeps(s, ws, r);
    if (t, d, w.id) in v.waiting {
      LastIsServed(v, w, r, t, d);
    }
  }

  /** A queued order that fits is served when its turn comes. */
  lemma LastIsServed(v: State, w: Waiter, r: Order, t: TrainId, d: Minute)
    requires Integrity(v) && (t, d, w.id) in v.waiting && v.waiting[(t, d, w.id)] == w && Touches(w, r)
    ensures WouldFit(v, w) ==> (t, d, w.id) !in Promote(v, w, r).waiting
  {
    QueuedIsKnown(v, w, t, d);
  }

  /** When its turn comes, order i of the list is still waiting and on the books. */
  ghost predicate Ready(s: State, ws: seq<Waiter>, r: Order, i: int)
    requires 0 <= i < |ws|
  {
    var g, w := PromoteAll(s, ws[..i], r), ws[i];
    && Known(g, w) && w.train == r.train && w.day == r.day && w.num <= MAX_INT && w.id <= g.orderNum
    && (w.user, w.id) in g.orders && g.orders[(w.user, w.id)] == g.byId[w.id]
  }

  lemma StillKnown(s: State, ws: seq<Waiter>, r: Order, lo: int, n: int, i: int)
    requires Integrity(s) && QueueOf(s, ws, r.train, r.day, lo, n) && 0 <= i < |ws|
    ensures Ready(s, ws, r, i)
  {
    PromoteAllKeeps(s, ws[..i], r);
    UnlistedWaits(s, ws[..i], r, (r.train, r.day, ws[i].id));
    WaitingIsReady(PromoteAll(s, ws[..i], r), ws[i], r);
  }

  lemma WaitingIsReady(g: State, w: Waiter, r: Order)
    requires Integrity(g) && (r.train, r.day, w.id) in g.waiting && g.waiting[(r.train, r.day, w.id)] == w
    ensures Known(g, w) && w.train == r.train && w.day == r.day && w.num <= MAX_INT && w.id <= g.orderNum
    ensures (w.user, w.id) in g.orders && g.orders[(w.user, w.id)] == g.byId[w.id]
  {
    QueuedIsKnown(g, w, r.train, r.day);
    KnownIsStored(g, w.id);
  }

  lemma KnownIsStored(s: State, i: int)
    requires Integrity(s) && i in s.byId
    ensures (s.byId[i].user, i) in s.orders && s.orders[(s.byId[i].user, i)] == s.byId[i] && s.byId[i].id == i
    ensures s.byId[i].num <= MAX_INT
  {
    assert OrdersOk(s) && OrderOk(s, s.byId[i]);
    assert TrainOk(s.trains[s.byId[i].train]);
  }

  lemma PromoteAllStep(s: State, ws: seq<Waiter>, r: Order, i: int)
    requires 0 <= i < |ws|
    ensures PromoteAll(s, ws[..i + 1], r) == Promote(PromoteAll(s, ws[..i], r), ws[i], r)
  {
    assert ws[..i + 1][..i] == ws[..i] && ws[..i + 1][i] == ws[i];
  }
}
