/** A scan of a database, sorted in place, gives the lists the commands are modelled with. */
module Listings {
  import opened Booking
  import opened BookingQueue
  import opened BookingTrains
  import opened Sorting

  /** order_cmp: newest first. */
  predicate Newer(a: Order, b: Order) {
    a.id > b.id
  }

  /** pending_order_cmp: oldest first. */
  predicate Older(a: Waiter, b: Waiter) {
    a.id < b.id
  }

  /** Two lists of the same items in strictly the same order are one list. */
  lemma {:induction false} OneOrder<T(!new)>(a: seq<T>, b: seq<T>, rank: T -> int)
    requires forall i, j :: 0 <= i < j < |a| ==> rank(a[i]) < rank(a[j])
    requires forall i, j :: 0 <= i < j < |b| ==> rank(b[i]) < rank(b[j])
    requires forall x :: x in a <==> x in b
    ensures a == b
  {
    assert a == [] <==> b == [] by {
      assert |a| > 0 ==> a[0] in a;
      assert |b| > 0 ==> b[0] in b;
    }
    if a != [] {
      assert a[0] in b && b[0] in a;
      assert a[0] == b[0];
      assert forall x :: x in a[1..] <==> x in a && x != a[0];
      assert forall x :: x in b[1..] <==> x in b && x != b[0];
      OneOrder(a[1..], b[1..], rank);
    }
  }

  /** What the scan of a user's orders returns: each order of the user once. */
  ghost predicate ScansOrders(s: State, user: User, os: seq<Order>) {
    Unique(os) && forall o :: o in os <==> (user, o.id) in s.orders && s.orders[(user, o.id)] == o
  }

  /** Sorted by order_cmp it is the list a refund picks from. */
  lemma SortedScanIsNewestFirst(s: State, user: User, scan: seq<Order>, os: seq<Order>)
    requires Integrity(s) && ScansOrders(s, user, scan) && multiset(os) == multiset(scan)
             && Sorted(os, (a, b) => Newer(a, b))
    ensures os == NewestFirst(s.orders, user, s.orderNum)
  {
    var all := NewestFirst(s.orders, user, s.orderNum);
    SameMembers(scan, os);
    StillUnique(scan, os);
    NewestFirstFalls(s, user, s.orderNum);
    var rank: Order -> int := (o: Order) => -o.id;
    forall i, j | 0 <= i < j < |os| ensures rank(os[i]) < rank(os[j]) {
      assert os[i] in scan && os[j] in scan && !Newer(os[j], os[i]);
    }
    forall o ensures o in os <==> o in all {
      ListedIff(s, user, o);
    }
    OneOrder(os, all, rank);
  }

  lemma ListedIff(s: State, user: User, o: Order)
    requires Integrity(s)
    ensures o in NewestFirst(s.orders, user, s.orderNum) <==> (user, o.id) in s.orders && s.orders[(user, o.id)] == o
  {
    NewestFirstFalls(s, user, s.orderNum);
    if (user, o.id) in s.orders && s.orders[(user, o.id)] == o {
      assert OrdersOk(s) && OrderOk(s, s.byId[o.id]);
      NewestFirstComplete(s, user, s.orderNum, o.id);
    }
  }

  /** What the scan of the queue from an id on returns: each waiting order from there once. */
  ghost predicate ScansQueue(s: State, t: TrainId, d: Minute, lo: int, ws: seq<Waiter>) {
    Unique(ws) && forall w :: w in ws <==> (t, d, w.id) in s.waiting && s.waiting[(t, d, w.id)] == w && lo <= w.id
  }

  /** Sorted by pending_order_cmp it is the list a refund serves. */
  lemma SortedScanIsQueue(s: State, t: TrainId, d: Minute, lo: int, scan: seq<Waiter>, ws: seq<Waiter>)
    requires Integrity(s) && ScansQueue(s, t, d, lo, scan) && multiset(ws) == multiset(scan)
             && Sorted(ws, (a, b) => Older(a, b))
    ensures ws == Queue(s.waiting, t, d, lo, s.orderNum)
  {
    var all := Queue(s.waiting, t, d, lo, s.orderNum);
    SameMembers(scan, ws);
    StillUnique(scan, ws);
    QueueLists(s, t, d, lo, s.orderNum);
    var rank: Waiter -> int := (w: Waiter) => w.id;
    forall i, j | 0 <= i < j < |ws| ensures rank(ws[i]) < rank(ws[j]) {
      assert ws[i] in scan && ws[j] in scan && !Older(ws[j], ws[i]);
    }
    forall w ensures w in ws <==> w in all {
      QueuedIff(s, t, d, lo, w);
    }
    OneOrder(ws, all, rank);
  }

  lemma QueuedIff(s: State, t: TrainId, d: Minute, lo: int, w: Waiter)
    requires Integrity(s)
    ensures w in Queue(s.waiting, t, d, lo, s.orderNum) <==>
        (t, d, w.id) in s.waiting && s.waiting[(t, d, w.id)] == w && lo <= w.id
  {
    QueueLists(s, t, d, lo, s.orderNum);
    if (t, d, w.id) in s.waiting && s.waiting[(t, d, w.id)] == w && lo <= w.id {
      QueuedIsKnown(s, w, t, d);
    }
  }
}
