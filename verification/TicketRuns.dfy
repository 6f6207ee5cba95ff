/** Any list of ticket commands, carried out one after the other, is a run in the sense of the laws. */
module TicketRuns {
  import opened Booking
  import opened BookingLaws
  import opened BookingTrains
  import opened BookingRuns
  import opened TicketCommands

  /** A command, with the users logged in when it comes. */
  datatype Command =
    | Add(train: TrainId, listing: TrainRecord.Listing)
    | Delete(train: TrainId)
    | Release(train: TrainId)
    | Buy(request: Request, loggedIn: set<User>)
    | Refund(user: User, x: int, loggedIn: set<User>)

  ghost predicate WellFormed(c: Command) {
    match c
    case Add(_, l) => TrainRecord.Listed(l)
    case Buy(q, _) => q.num >= 1 && q.date % DAY == 0
    case Refund(_, x, _) => x >= 1
    case _ => true
  }

  /** Nothing happened, or one step of a run. */
  ghost predicate Steps(s: State, es: seq<Event>, u: State) {
    |es| <= 1 && if es == [] then u == s else Step(s, es[0], u)
  }

  /** One command is at most one step; only Add changes what trains are known by. */
  method Perform(m: TrainManagement, c: Command) returns (ghost es: seq<Event>)
    requires m.Valid() && WellFormed(c)
    modifies m
    ensures m.Valid() && Steps(old(m.S()), es, m.S())
    ensures m.listings == old(m.listings) || (c.Add? && m.listings == old(m.listings)[c.train := c.listing])
  {
    match c {
      case Add(t, l) => es := DoAdd(m, t, l);
      case Delete(t) => es := DoDelete(m, t);
      case Release(t) => es := DoRelease(m, t);
      case Buy(q, loggedIn) => es := DoBuy(m, q, loggedIn);
      case Refund(user, x, loggedIn) => es := GiveBack(m, user, x, loggedIn);
    }
  }

  method DoAdd(m: TrainManagement, t: TrainId, l: TrainRecord.Listing) returns (ghost es: seq<Event>)
    requires m.Valid() && TrainRecord.Listed(l)
    modifies m
    ensures m.Valid() && Steps(old(m.S()), es, m.S())
    ensures m.listings == old(m.listings) || m.listings == old(m.listings)[t := l]
  {
    var ok := m.AddTrain(t, l);
    es := if ok then [Added(t, m.trains[t])] else [];
  }

  method DoDelete(m: TrainManagement, t: TrainId) returns (ghost es: seq<Event>)
    requires m.Valid()
    modifies m
    ensures m.Valid() && Steps(old(m.S()), es, m.S()) && m.listings == old(m.listings)
  {
    var ok := m.DeleteTrain(t);
    es := if ok then [Deleted(t)] else [];
  }

  method DoRelease(m: TrainManagement, t: TrainId) returns (ghost es: seq<Event>)
    requires m.Valid()
    modifies m
    ensures m.Valid() && Steps(old(m.S()), es, m.S()) && m.listings == old(m.listings)
  {
    var ok := m.ReleaseTrain(t);
    es := if ok then [BookingRuns.Released(t)] else [];
  }

  method DoBuy(m: TrainManagement, q: Request, loggedIn: set<User>) returns (ghost es: seq<Event>)
    requires m.Valid() && q.num >= 1 && q.date % DAY == 0
    modifies m
    ensures m.Valid() && Steps(old(m.S()), es, m.S()) && m.listings == old(m.listings)
  {
    ghost var s := m.S();
    var res := m.BuyTicket(q, loggedIn);
    if res.Rejected? {
      es := [];
    } else {
      es := [Placed(res.order)];
      IsStep(s, res.order, m.S());
    }
  }

  lemma IsStep(s: State, o: Order, u: State)
    requires NewOrder(s, o) && u == SetOrder(s, o)
    ensures Steps(s, [Placed(o)], u)
  {
  }

  method GiveBack(m: TrainManagement, user: User, x: int, loggedIn: set<User>) returns (ghost es: seq<Event>)
    requires m.Valid() && x >= 1
    modifies m
    ensures m.Valid() && Steps(old(m.S()), es, m.S()) && m.listings == old(m.listings)
  {
    ghost var s := m.S();
    ghost var os := NewestFirst(s.orders, user, s.orderNum);
    var _ := m.RefundTicket(user, x, loggedIn);
    if user !in loggedIn || os == [] || x > |os| || os[x - 1].status.Refunded? {
      es := [];
    } else {
      NamedIsOnBooks(s, user, x);
      es := [GaveBack(os[x - 1])];
      IsReturn(s, os[x - 1], m.S());
    }
  }

  lemma IsReturn(s: State, o: Order, u: State)
    requires Refundable(s, o) && (o.train, o.day) in s.days && u == BookingQueue.AfterRefund(s, o)
    ensures Steps(s, [GaveBack(o)], u)
  {
  }

  /** The run so far ends in the present state. */
  ghost predicate RunTo(states: seq<State>, events: seq<Event>, s: State) {
    IsRun(states, events) && states[|states| - 1] == s
  }

  lemma RunOn(states: seq<State>, events: seq<Event>, s: State, es: seq<Event>, u: State)
    returns (ss: seq<State>, fs: seq<Event>)
    requires RunTo(states, events, s) && Steps(s, es, u)
    ensures RunTo(ss, fs, u) && states <= ss
  {
    if es == [] {
      return states, events;
    }
    ss, fs := states + [u], events + [es[0]];
    forall i | 0 <= i < |fs| ensures StepAt(ss, fs, i) {
      if i < |events| {
        assert StepAt(states, events, i);
      }
    }
  }

  /** A whole list of commands takes a run on. */
  method Run(m: TrainManagement, cs: seq<Command>, ghost past: seq<State>, ghost done: seq<Event>)
    returns (ghost states: seq<State>, ghost events: seq<Event>)
    requires m.Valid() && RunTo(past, done, m.S()) && forall i :: 0 <= i < |cs| ==> WellFormed(cs[i])
    modifies m
    ensures m.Valid() && RunTo(states, events, m.S()) && past <= states
  {
    states, events := past, done;
    for i := 0 to |cs|
      invariant m.Valid() && RunTo(states, events, m.S()) && past <= states
    {
      states, events := Advance(m, cs[i], states, events);
    }
  }

  method Advance(m: TrainManagement, c: Command, ghost past: seq<State>, ghost done: seq<Event>)
    returns (ghost states: seq<State>, ghost events: seq<Event>)
    requires m.Valid() && RunTo(past, done, m.S()) && WellFormed(c)
    modifies m
    ensures m.Valid() && RunTo(states, events, m.S()) && past <= states
  {
    ghost var s := m.S();
    ghost var es := Perform(m, c);
    states, events := RunOn(past, done, s, es, m.S());
  }

  /** From empty databases, whatever commands come: after the first of them and after all of them the
      databases are in step, and every order of then has only moved on. */
  method TwoRuns(first: seq<Command>, later: seq<Command>) returns (m: TrainManagement, ghost before: State)
    requires forall i :: 0 <= i < |first| ==> WellFormed(first[i])
    requires forall i :: 0 <= i < |later| ==> WellFormed(later[i])
    ensures fresh(m) && m.Valid() && Integrity(before)
    ensures forall id :: id in before.byId ==> id in m.byId && Onward(before.byId[id], m.byId[id])
  {
    m := new TrainManagement();
    ghost var past, done := [m.S()], [];
    past, done := Run(m, first, past, done);
    before := m.S();
    ghost var states, events := Run(m, later, past, done);
    MovedOn(past, states, events, before, m.S());
  }

  lemma MovedOn(past: seq<State>, states: seq<State>, events: seq<Event>, before: State, now: State)
    requires past != [] && past <= states && past[|past| - 1] == before && RunTo(states, events, now)
    ensures forall id :: id in before.byId ==> id in now.byId && Onward(before.byId[id], now.byId[id])
  {
    forall id | id in before.byId ensures id in now.byId && Onward(before.byId[id], now.byId[id]) {
      OrdersOnlyMoveOn(states, events, |past| - 1, |states| - 1, id);
    }
  }

  // ---------------------------------------------------------------- what a buyer pays

  /** Every train was added by a command, with the listing it is known by. */
  ghost predicate AllAdded(listings: map<TrainId, TrainRecord.Listing>, cs: seq<Command>) {
    forall t {:trigger t in listings} :: t in listings ==> Add(t, listings[t]) in cs
  }

  /** From empty databases, whatever commands come first: a purchase costs, for each passenger, the sum of
      the prices the train's add_train listed for the legs between the two stations asked for. */
  method BuyAfter(cs: seq<Command>, q: Request, loggedIn: set<User>)
    returns (m: TrainManagement, res: BuyResult, ghost l: TrainRecord.Listing)
    requires (forall i :: 0 <= i < |cs| ==> WellFormed(cs[i])) && q.num >= 1 && q.date % DAY == 0
    ensures !res.Rejected? ==> Add(q.train, l) in cs && PaysLegs(l, q, res.order)
    ensures res.Bought? ==> res.total == q.num * TrainRecord.Total(l.prices[res.order.from - 1..res.order.to - 1])
  {
    m := PerformAll(cs);
    res := m.BuyTicket(q, loggedIn);
    l := *;
    if q.train in m.listings {
      l := m.listings[q.train];
    }
  }

  method PerformAll(cs: seq<Command>) returns (m: TrainManagement)
    requires forall i :: 0 <= i < |cs| ==> WellFormed(cs[i])
    ensures m.Valid() && fresh(m) && AllAdded(m.listings, cs)
  {
    m := new TrainManagement();
    for i := 0 to |cs|
      invariant m.Valid() && fresh(m) && AllAdded(m.listings, cs[..i])
    {
      ghost var was := m.listings;
      var _ := Perform(m, cs[i]);
      AddedOn(was, m.listings, cs, i);
    }
    assert cs[..|cs|] == cs;
  }

  lemma AddedOn(was: map<TrainId, TrainRecord.Listing>, now: map<TrainId, TrainRecord.Listing>, cs: seq<Command>,
                i: nat)
    requires i < |cs| && AllAdded(was, cs[..i])
    requires now == was || (cs[i].Add? && now == was[cs[i].train := cs[i].listing])
    ensures AllAdded(now, cs[..i + 1])
  {
    assert cs[..i + 1] == cs[..i] + [cs[i]];
  }
}
