/** What refunds and purchases promise to the waiting orders. */
module BookingLaws {
  import opened Seats
  import opened Booking
  import opened BookingQueue

  /** Order o is on the books and has not been given back. */
  ghost predicate Refundable(s: State, o: Order) {
    o.id in s.byId && s.byId[o.id] == o && !o.status.Refunded?
  }

  /** The seats of order o are free again; nobody else has been served yet. */
  function Released(s: State, o: Order): State
    requires (o.train, o.day) in s.days
  {
    SetOrder(s, WithStatus(o, Refunded))
  }

  lemma ReleaseKeeps(s: State, o: Order)
    requires Integrity(s) && Refundable(s, o)
    ensures (o.train, o.day) in s.days && Integrity(Released(s, o))
    ensures Released(s, o).orderNum == s.orderNum && 1 <= o.id <= s.orderNum
    ensures forall k :: k in Released(s, o).waiting ==> k in s.waiting && s.waiting[k] == Released(s, o).waiting[k]
  {
    assert OrdersOk(s) && OrderOk(s, s.byId[o.id]) && DaysOk(s);
    assert OnSale(s, o.train, o.day);
    assert CanSet(s, WithStatus(o, Refunded));
    SetOrderKeeps(s, WithStatus(o, Refunded));
  }

  /** What an order that is given back held is free again, and nothing else changes hands. */
  lemma ReleaseFrees(s: State, o: Order, k: DayKey, j: int)
    requires Integrity(s) && Refundable(s, o) && k in s.days && 0 <= j < |s.days[k]|
    ensures (o.train, o.day) in s.days && k in Released(s, o).days && |Released(s, o).days[k]| == |s.days[k]|
    ensures Released(s, o).days[k][j] == s.days[k][j]
              + if o.status.Success? && k == (o.train, o.day) && o.from <= j < o.to then o.num else 0
  {
    ReleaseKeeps(s, o);
  }

  /** A refund keeps the databases in step and the seats conserved. */
  lemma RefundKeeps(s: State, o: Order)
    requires Integrity(s) && Refundable(s, o)
    ensures (o.train, o.day) in s.days && Integrity(AfterRefund(s, o))
  {
    ReleaseKeeps(s, o);
    var u := Released(s, o);
    PromoteAllKeeps(u, Queue(u.waiting, o.train, o.day, o.id, u.orderNum), o);
  }

  /** Afterwards no later waiting order whose ride has a stop in common with the refunded one would fit. */
  lemma RefundServes(s: State, o: Order, i: int)
    requires Integrity(s) && Refundable(s, o) && o.status.Success? && (o.train, o.day) in s.days
    requires var u := AfterRefund(s, o);
      && o.id <= i && (o.train, o.day, i) in u.waiting
      && u.waiting[(o.train, o.day, i)].from <= o.to && o.from <= u.waiting[(o.train, o.day, i)].to
    ensures var u := AfterRefund(s, o); !WouldFit(u, u.waiting[(o.train, o.day, i)])
  {
    ReleaseKeeps(s, o);
    var u, k := Released(s, o), (o.train, o.day, i);
    var ws := Queue(u.waiting, o.train, o.day, o.id, u.orderNum);
    PromoteAllKeeps(u, ws, o);
    WaiterId(u, k);
    QueuedIsKnown(u, u.waiting[k], o.train, o.day);
    var j := PlaceInQueue(u, o.train, o.day, o.id, u.orderNum, i);
    QueueLists(u, o.train, o.day, o.id, u.orderNum);
    NoneLeftBehind(u, ws, o, o.train, o.day, o.id, u.orderNum, j);
  }

  // ---------------------------------------------------------------- nobody waits who would fit

  ghost predicate NoFit(s: State) {
    forall k :: k in s.waiting ==> !WouldFit(s, s.waiting[k])
  }

  /** Orders the interval test skips, whose rides end before the refunded one starts or start after it
      ends, have not gained a seat. */
  lemma SkippedGainNothing(s: State, o: Order, w: Waiter)
    requires (o.train, o.day) in s.days && (w.to < o.from || o.to < w.from)
    ensures !Touches(w, o) && (WouldFit(Released(s, o), w) ==> WouldFit(s, w))
  {
    if WouldFit(Released(s, o), w) {
      var k := (w.train, w.day);
      forall j | w.from <= j < w.to ensures s.days[k][j] >= w.num {
        assert Released(s, o).days[k][j] >= w.num;
      }
    }
  }

  lemma OtherDaysGainNothing(s: State, o: Order, w: Waiter)
    requires (o.train, o.day) in s.days && (w.train, w.day) != (o.train, o.day)
    ensures WouldFit(Released(s, o), w) ==> WouldFit(s, w)
  {
  }

  /** Refunding a bought order keeps it so that nobody waits who would fit, as long as its id is
      below all ids waiting for that train and day. */
  lemma RefundKeepsNoFit(s: State, o: Order)
    requires Integrity(s) && Refundable(s, o) && o.status.Success? && NoFit(s)
    requires forall k :: k in s.waiting && k.0 == o.train && k.1 == o.day ==> o.id < k.2
    ensures (o.train, o.day) in s.days && NoFit(AfterRefund(s, o))
  {
    ReleaseKeeps(s, o);
    var u, v := Released(s, o), AfterRefund(s, o);
    PromoteAllKeeps(u, Queue(u.waiting, o.train, o.day, o.id, u.orderNum), o);
    forall k | k in v.waiting ensures !WouldFit(v, v.waiting[k]) {
      NoFitAt(s, o, k);
    }
  }

  lemma NoFitAt(s: State, o: Order, k: WaitKey)
    requires Integrity(s) && Refundable(s, o) && o.status.Success? && NoFit(s) && (o.train, o.day) in s.days
    requires k in AfterRefund(s, o).waiting && (k.0 == o.train && k.1 == o.day ==> o.id < k.2)
    ensures !WouldFit(AfterRefund(s, o), AfterRefund(s, o).waiting[k])
  {
    ReleaseKeeps(s, o);
    var u, v := Released(s, o), AfterRefund(s, o);
    PromoteAllKeeps(u, Queue(u.waiting, o.train, o.day, o.id, u.orderNum), o);
    var w := v.waiting[k];
    assert w == u.waiting[k] == s.waiting[k] && !WouldFit(s, w);
    WaiterId(s, k);
    if (w.train, w.day) == (o.train, o.day) && Touches(w, o) {
      RefundServes(s, o, k.2);
    } else {
      if (w.train, w.day) != (o.train, o.day) {
        OtherDaysGainNothing(s, o, w);
      } else {
        SkippedGainNothing(s, o, w);
      }
      if WouldFit(v, w) {
        FewerSeats(u, v, w);
      }
    }
  }

  /** Refunding a waiting order only shortens the queue. */
  lemma RefundWaitingKeepsNoFit(s: State, o: Order)
    requires Integrity(s) && Refundable(s, o) && o.status.Pending? && NoFit(s)
    ensures (o.train, o.day) in s.days && NoFit(AfterRefund(s, o))
  {
    ReleaseKeeps(s, o);
    PendingHoldsNothing(s, o);
  }

  lemma PendingHoldsNothing(s: State, o: Order)
    requires (o.train, o.day) in s.days && Refundable(s, o) && o.status.Pending?
    ensures Released(s, o).days == s.days
  {
    assert Shifted(s.days[(o.train, o.day)], o.from, o.to - 1, 0) == s.days[(o.train, o.day)];
  }

  /** A new order, bought or queued. */
  ghost predicate NewOrder(s: State, o: Order) {
    && o.id == s.orderNum + 1 && CanSet(s, o)
    && (o.status.Success? || (o.status.Pending? && !WouldFit(s, WaiterOf(o))))
  }

  /** A purchase only takes seats away, and an order is queued only because it does not fit. */
  lemma BuyKeepsNoFit(s: State, o: Order)
    requires Integrity(s) && NewOrder(s, o) && NoFit(s)
    ensures NoFit(SetOrder(s, o))
  {
    var v := SetOrder(s, o);
    assert OrdersOk(s);
    assert o.id !in s.byId;
    forall k | k in v.waiting ensures !WouldFit(v, v.waiting[k]) {
      BuyGainsNothing(s, o, v.waiting[k]);
    }
  }

  lemma BuyGainsNothing(s: State, o: Order, w: Waiter)
    requires NewOrder(s, o) && o.id !in s.byId
    ensures WouldFit(SetOrder(s, o), w) ==> WouldFit(s, w)
  {
    if WouldFit(SetOrder(s, o), w) {
      var k := (w.train, w.day);
      forall j | w.from <= j < w.to ensures s.days[k][j] >= w.num {
        assert SetOrder(s, o).days[k][j] >= w.num;
      }
    }
  }

  // ---------------------------------------------------------------- the whole queue

  /** Serving every waiting order of the train and day, oldest first, as the queue is meant to work. */
  function WholeQueueRefund(s: State, o: Order): State
    requires (o.train, o.day) in s.days
  {
    var u := Released(s, o);
    PromoteAll(u, Queue(u.waiting, o.train, o.day, 1, u.orderNum), o)
  }

  /** An order that was queued before the refunded one was placed, touches it, and would fit into
      the seats it frees. */
  ghost predicate EarlierFits(u: State, o: Order, i: int) {
    && 1 <= i < o.id && (o.train, o.day, i) in u.waiting
    && var w := u.waiting[(o.train, o.day, i)];
    w.from <= o.to && o.from <= w.to && WouldFit(u, w)
  }

  lemma {:induction false} QueueSplits(waiting: map<WaitKey, Waiter>, t: TrainId, d: Minute, lo: int, mid: int, n: int)
    requires lo <= mid <= n + 1
    ensures Queue(waiting, t, d, lo, n) == Queue(waiting, t, d, lo, mid - 1) + Queue(waiting, t, d, mid, n)
    decreases n - mid
  {
    if mid <= n {
      QueueSplits(waiting, t, d, lo, mid, n - 1);
      assert Queue(waiting, t, d, lo, n) == Queue(waiting, t, d, lo, mid - 1) + Queue(waiting, t, d, mid, n);
    }
  }

  lemma {:induction false} PromoteAllSplits(s: State, a: seq<Waiter>, b: seq<Waiter>, r: Order)
    ensures PromoteAll(s, a + b, r) == PromoteAll(PromoteAll(s, a, r), b, r)
    decreases |b|
  {
    if b == [] {
      assert a + b == a;
    } else {
      var last := |b| - 1;
      assert (a + b)[..|a + b| - 1] == a + b[..last];
      PromoteAllSplits(s, a, b[..last], r);
    }
  }

  ghost predicate InReach(s: State, w: Waiter, r: Order) {
    Touches(w, r) && WouldFit(s, w)
  }

  /** If none of a list would fit, nobody is served. */
  lemma {:induction false} NobodyServed(s: State, ws: seq<Waiter>, r: Order)
    requires forall i :: 0 <= i < |ws| ==> !InReach(s, ws[i], r)
    ensures PromoteAll(s, ws, r) == s
    decreases |ws|
  {
    if ws != [] {
      NobodyServed(s, ws[..|ws| - 1], r);
    }
  }

  lemma {:induction false} FirstInReach(s: State, ws: seq<Waiter>, r: Order, i: int) returns (j: int)
    requires 0 <= i < |ws| && InReach(s, ws[i], r)
    ensures 0 <= j <= i && InReach(s, ws[j], r) && forall m :: 0 <= m < j ==> !InReach(s, ws[m], r)
    decreases i
  {
    if m :| 0 <= m < i && InReach(s, ws[m], r) {
      j := FirstInReach(s, ws, r, m);
    } else {
      j := i;
    }
  }

  /** If one of a list would fit, somebody is served and leaves the queue: the first who would. */
  lemma SomebodyServed(s: State, ws: seq<Waiter>, r: Order, t: TrainId, d: Minute, lo: int, n: int, i: int)
    returns (j: int)
    requires Integrity(s) && QueueOf(s, ws, t, d, lo, n)
    requires 0 <= i < |ws| && InReach(s, ws[i], r)
    ensures 0 <= j < |ws| && (t, d, ws[j].id) !in PromoteAll(s, ws, r).waiting
  {
    j := FirstInReach(s, ws, r, i);
    QueuePrefix(s, ws, t, d, lo, n, j + 1);
    LastAlone(s, ws[..j + 1], r, t, d, lo, n);
    StaysServed(s, ws[..j + 1], ws[j + 1..], r, (t, d, ws[j].id));
    PromoteAllSplits(s, ws[..j + 1], ws[j + 1..], r);
    assert ws == ws[..j + 1] + ws[j + 1..];
  }

  lemma LastAlone(s: State, ws: seq<Waiter>, r: Order, t: TrainId, d: Minute, lo: int, n: int)
    requires Integrity(s) && QueueOf(s, ws, t, d, lo, n) && ws != []
    requires (forall m :: 0 <= m < |ws| - 1 ==> !InReach(s, ws[m], r)) && InReach(s, ws[|ws| - 1], r)
    ensures (t, d, ws[|ws| - 1].id) !in PromoteAll(s, ws, r).waiting
  {
    NobodyServed(s, ws[..|ws| - 1], r);
    LastIsServed(s, ws[|ws| - 1], r, t, d);
  }

  /** The queue is served in turn: an order leaves it exactly if its ride has a stop in common with the
      refunded one and fits into what those before it have left. */
  lemma ServedInTurn(s: State, ws: seq<Waiter>, r: Order, t: TrainId, d: Minute, lo: int, n: int, i: int)
    requires Integrity(s) && QueueOf(s, ws, t, d, lo, n) && 0 <= i < |ws|
    ensures (t, d, ws[i].id) !in PromoteAll(s, ws, r).waiting <==>
      ws[i].from <= r.to && r.from <= ws[i].to && WouldFit(PromoteAll(s, ws[..i], r), ws[i])
  {
    RestOfRound(s, ws, r, i);
    StillQueued(s, ws, r, t, d, lo, n, i);
    ListedOnce(s, ws, t, d, lo, n, i);
    var g := PromoteAll(s, ws[..i], r);
    PromoteKeeps(g, ws[i], r);
    if InReach(g, ws[i], r) {
      LastIsServed(g, ws[i], r, t, d);
      GoneForGood(Promote(g, ws[i], r), ws[i + 1..], r, (t, d, ws[i].id));
    } else {
      PassedOver(g, ws[i], ws[i + 1..], r, (t, d, ws[i].id));
    }
  }

  lemma RestOfRound(s: State, ws: seq<Waiter>, r: Order, i: int)
    requires 0 <= i < |ws|
    ensures PromoteAll(s, ws, r) == PromoteAll(Promote(PromoteAll(s, ws[..i], r), ws[i], r), ws[i + 1..], r)
  {
    PromoteAllStep(s, ws, r, i);
    assert ws == ws[..i + 1] + ws[i + 1..];
    PromoteAllSplits(s, ws[..i + 1], ws[i + 1..], r);
  }

  /** When its turn comes an order is still in the queue. */
  lemma StillQueued(s: State, ws: seq<Waiter>, r: Order, t: TrainId, d: Minute, lo: int, n: int, i: int)
    requires Integrity(s) && QueueOf(s, ws, t, d, lo, n) && 0 <= i < |ws|
    ensures var g, k := PromoteAll(s, ws[..i], r), (t, d, ws[i].id);
        Integrity(g) && k in g.waiting && g.waiting[k] == ws[i]
  {
    PromoteAllKeeps(s, ws[..i], r);
    ListedOnce(s, ws, t, d, lo, n, i);
    UnlistedWaits(s, ws[..i], r, (t, d, ws[i].id));
  }

  lemma ListedOnce(s: State, ws: seq<Waiter>, t: TrainId, d: Minute, lo: int, n: int, i: int)
    requires QueueOf(s, ws, t, d, lo, n) && 0 <= i < |ws|
    ensures Unlisted(ws[..i], ws[i].id) && Unlisted(ws[i + 1..], ws[i].id)
    ensures (t, d, ws[i].id) in s.waiting && s.waiting[(t, d, ws[i].id)] == ws[i]
  {
  }

  lemma GoneForGood(v: State, ws: seq<Waiter>, r: Order, k: WaitKey)
    requires Integrity(v) && k !in v.waiting
    ensures k !in PromoteAll(v, ws, r).waiting
  {
    PromoteAllKeeps(v, ws, r);
  }

  lemma PassedOver(g: State, w: Waiter, ws: seq<Waiter>, r: Order, k: WaitKey)
    requires k in g.waiting && !InReach(g, w, r) && Unlisted(ws, k.2)
    ensures k in PromoteAll(Promote(g, w, r), ws, r).waiting
  {
    assert Promote(g, w, r) == g;
    UnlistedWaits(g, ws, r, k);
  }

  /** The refund serves the whole queue in order exactly when no earlier waiting order would fit
      into the seats it frees: the scan starts at the refunded order's own id. */
  lemma WholeQueueServedIff(s: State, o: Order)
    requires Integrity(s) && Refundable(s, o) && o.status.Success?
    ensures (o.train, o.day) in s.days
    ensures AfterRefund(s, o) == WholeQueueRefund(s, o) <==> forall i :: !EarlierFits(Released(s, o), o, i)
  {
    var u, early, late := Outcomes(s, o);
    if i :| EarlierFits(u, o, i) {
      var m := PlaceInQueue(u, o.train, o.day, 1, o.id - 1, i);
      RoundsDiffer(u, early, late, o, o.train, o.day, u.orderNum, m);
    } else {
      forall j | 0 <= j < |early| ensures !InReach(u, early[j], o) {
        assert !EarlierFits(u, o, early[j].id);
      }
      NobodyServed(u, early, o);
    }
  }

  /** Serving the later part of the queue, as the source does, and serving the earlier part first. */
  lemma Outcomes(s: State, o: Order) returns (u: State, early: seq<Waiter>, late: seq<Waiter>)
    requires Integrity(s) && Refundable(s, o) && o.status.Success?
    ensures (o.train, o.day) in s.days && u == Released(s, o) && Integrity(u)
    ensures early == Queue(u.waiting, o.train, o.day, 1, o.id - 1)
    ensures AfterRefund(s, o) == PromoteAll(u, late, o)
    ensures WholeQueueRefund(s, o) == PromoteAll(PromoteAll(u, early, o), late, o)
    ensures QueueOf(u, early, o.train, o.day, 1, o.id - 1) && QueueOf(u, late, o.train, o.day, o.id, u.orderNum)
  {
    ReleaseKeeps(s, o);
    u := Released(s, o);
    early := Queue(u.waiting, o.train, o.day, 1, o.id - 1);
    late := Queue(u.waiting, o.train, o.day, o.id, u.orderNum);
    RoundInTwo(u, o.train, o.day, o);
    BothParts(u, o.train, o.day, o.id);
  }

  lemma RoundInTwo(u: State, t: TrainId, d: Minute, r: Order)
    requires 1 <= r.id <= u.orderNum
    ensures var early, late := Queue(u.waiting, t, d, 1, r.id - 1), Queue(u.waiting, t, d, r.id, u.orderNum);
        PromoteAll(u, Queue(u.waiting, t, d, 1, u.orderNum), r) == PromoteAll(PromoteAll(u, early, r), late, r)
  {
    QueueSplits(u.waiting, t, d, 1, r.id, u.orderNum);
    PromoteAllSplits(u, Queue(u.waiting, t, d, 1, r.id - 1), Queue(u.waiting, t, d, r.id, u.orderNum), r);
  }

  lemma BothParts(u: State, t: TrainId, d: Minute, mid: int)
    requires Integrity(u)
    ensures QueueOf(u, Queue(u.waiting, t, d, 1, mid - 1), t, d, 1, mid - 1)
    ensures QueueOf(u, Queue(u.waiting, t, d, mid, u.orderNum), t, d, mid, u.orderNum)
  {
    QueueLists(u, t, d, 1, mid - 1);
    QueueLists(u, t, d, mid, u.orderNum);
  }

  lemma PlaceInQueue(u: State, t: TrainId, d: Minute, lo: int, n: int, i: int) returns (m: int)
    requires Integrity(u) && lo <= i <= n && (t, d, i) in u.waiting
    ensures var q := Queue(u.waiting, t, d, lo, n); 0 <= m < |q| && q[m] == u.waiting[(t, d, i)]
  {
    QueueLists(u, t, d, lo, n);
    var q := Queue(u.waiting, t, d, lo, n);
    m :| 0 <= m < |q| && q[m] == u.waiting[(t, d, i)];
  }

  lemma RoundsDiffer(u: State, early: seq<Waiter>, late: seq<Waiter>, r: Order, t: TrainId, d: Minute, n: int, m: int)
    requires Integrity(u) && QueueOf(u, early, t, d, 1, r.id - 1) && QueueOf(u, late, t, d, r.id, n)
    requires 0 <= m < |early| && InReach(u, early[m], r)
    ensures PromoteAll(u, late, r) != PromoteAll(PromoteAll(u, early, r), late, r)
  {
    var j := SomebodyServed(u, early, r, t, d, 1, r.id - 1, m);
    var k := (t, d, early[j].id);
    StaysServed(u, early, late, r, k);
    UnlistedWaits(u, late, r, k);
  }

  lemma StaysServed(u: State, early: seq<Waiter>, late: seq<Waiter>, r: Order, k: WaitKey)
    requires Integrity(u) && k !in PromoteAll(u, early, r).waiting
    ensures k !in PromoteAll(PromoteAll(u, early, r), late, r).waiting
  {
    PromoteAllKeeps(u, early, r);
    PromoteAllKeeps(PromoteAll(u, early, r), late, r);
  }

  // ---------------------------------------------------------------- what a step writes

  /** A new order touches the queue only if it is queued, the seats only if it is bought. */
  lemma NewOrderWrites(s: State, o: Order)
    requires Integrity(s) && o.id == s.orderNum + 1 && (o.train, o.day) in s.days && !o.status.Refunded?
    ensures SetOrder(s, o) == s.(
        orders := s.orders[(o.user, o.id) := o], byId := s.byId[o.id := o], orderNum := o.id,
        waiting := if o.status.Pending? then s.waiting[KeyOf(o) := WaiterOf(o)] else s.waiting,
        days := if o.status.Pending? then s.days
                else s.days[(o.train, o.day) := Shifted(s.days[(o.train, o.day)], o.from, o.to - 1, -o.num)])
  {
    assert o.id !in s.byId && KeyOf(o) !in s.waiting by {
      assert OrdersOk(s) && WaitingOk(s);
    }
    FreshWrites(s, o);
  }

  lemma FreshWrites(s: State, o: Order)
    requires o.id !in s.byId && KeyOf(o) !in s.waiting && o.id > s.orderNum && (o.train, o.day) in s.days
             && !o.status.Refunded?
    ensures var u := SetOrder(s, o);
      && u.orderNum == o.id && (o.status.Success? ==> u.waiting == s.waiting)
      && u.days == if o.status.Pending? then s.days
                   else s.days[(o.train, o.day) := Shifted(s.days[(o.train, o.day)], o.from, o.to - 1, -o.num)]
  {
    assert s.waiting - {KeyOf(o)} == s.waiting;
    assert Shifted(s.days[(o.train, o.day)], o.from, o.to - 1, 0) == s.days[(o.train, o.day)];
  }

  /** An order given back leaves the queue if it was waiting, and frees its seats if it was bought. */
  function Returned(s: State, o: Order): State
    requires (o.train, o.day) in s.days
  {
    var back, k := WithStatus(o, Refunded), (o.train, o.day);
    var u := s.(orders := s.orders[(o.user, o.id) := back], byId := s.byId[o.id := back]);
    if o.status.Pending? then u.(waiting := s.waiting - {KeyOf(o)})
    else u.(days := s.days[k := Shifted(s.days[k], o.from, o.to - 1, o.num)])
  }

  /** A bought order is not in the queue. */
  lemma ReleaseWrites(s: State, o: Order)
    requires Integrity(s) && Refundable(s, o) && (o.train, o.day) in s.days
    ensures Released(s, o) == Returned(s, o)
  {
    assert OrdersOk(s) && WaitingOk(s);
    assert OrderOk(s, s.byId[o.id]);
    if o.status.Success? {
      assert KeyOf(o) !in s.waiting;
      assert s.waiting - {KeyOf(o)} == s.waiting;
    } else {
      PendingHoldsNothing(s, o);
    }
  }

  /** A refund is final, and it is the only way out of having bought. */
  lemma StatusMoves(s: State, o: Order, i: int)
    requires Integrity(s) && Refundable(s, o) && (o.train, o.day) in s.days && i in s.byId
    ensures var v := AfterRefund(s, o);
      && i in v.byId
      && (i == o.id ==> v.byId[i] == WithStatus(o, Refunded))
      && (i != o.id ==> v.byId[i] == s.byId[i]
                        || (s.byId[i].status.Pending? && v.byId[i] == WithStatus(s.byId[i], Success)))
  {
    var u, v := RefundRound(s, o);
    assert u.byId[i] == if i == o.id then WithStatus(o, Refunded) else s.byId[i];
  }

  /** A refund in two parts: the seats are free again, then some waiting orders are bought. */
  lemma RefundRound(s: State, o: Order) returns (u: State, v: State)
    requires Integrity(s) && Refundable(s, o) && (o.train, o.day) in s.days
    ensures u == Released(s, o) && v == AfterRefund(s, o) && Progress(u, v)
  {
    ReleaseKeeps(s, o);
    u, v := Released(s, o), AfterRefund(s, o);
    PromoteAllKeeps(u, Queue(u.waiting, o.train, o.day, o.id, u.orderNum), o);
  }
}
