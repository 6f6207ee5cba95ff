/** The reader-writer latch as a transition system over any number of threads.

    Each step is what one thread does while it holds the mutex: from acquiring it until it waits on
    a condition variable or leaves. A sleeper can be woken by a notification or for no reason. */
module RwLatch {
  type Thread(==, !new)

  const MAX_READERS := 0xffff_ffff

  /** Where a thread is. Sleepers of the first two kinds wait on `reader_`, the third on `writer_`;
      a woken sleeper has yet to take the mutex again and re-test its condition. */
  datatype Place =
    | Out
    | WriterQueued(woken: bool)
    | ReaderQueued(woken: bool)
    | WriterDraining(woken: bool)
    | Writing
    | Reading

  datatype Latch = Latch(at: map<Thread, Place>, readerCount: int, writerEntered: bool)

  datatype Step =
    | WLock(t: Thread)
    | RLock(t: Thread)
    | WUnlock(t: Thread)
    | RUnlock(t: Thread, woken: set<Thread>)
    | Wake(t: Thread)

  function Asleep(p: Place): bool {
    match p
    case WriterQueued(woken) => !woken
    case ReaderQueued(woken) => !woken
    case WriterDraining(woken) => !woken
    case _ => false
  }

  function Woken(p: Place): Place {
    match p
    case WriterQueued(_) => WriterQueued(true)
    case ReaderQueued(_) => ReaderQueued(true)
    case WriterDraining(_) => WriterDraining(true)
    case _ => p
  }

  function OnReader(p: Place): bool {
    p.WriterQueued? || p.ReaderQueued?
  }

  /** The first loop of WLock: wait for the other writer; then claim the latch and drain the readers. */
  function WriterTries(s: Latch, t: Thread): Latch {
    if s.writerEntered then s.(at := s.at[t := WriterQueued(false)])
    else WriterDrains(s.(writerEntered := true), t)
  }

  /** The second loop of WLock: wait for the readers. */
  function WriterDrains(s: Latch, t: Thread): Latch {
    s.(at := s.at[t := if s.readerCount > 0 then WriterDraining(false) else Writing])
  }

  function ReaderTries(s: Latch, t: Thread): Latch {
    if s.writerEntered || s.readerCount == MAX_READERS then s.(at := s.at[t := ReaderQueued(false)])
    else s.(at := s.at[t := Reading], readerCount := s.readerCount + 1)
  }

  /** notify_all on `reader_`. */
  function WakeReaders(at: map<Thread, Place>): map<Thread, Place> {
    map t | t in at :: if OnReader(at[t]) then Woken(at[t]) else at[t]
  }

  /** Which sleepers a reader on its way out may wake: at most one, and one if there is any. */
  ghost predicate Notified(s: Latch, woken: set<Thread>) {
    var count := s.readerCount - 1;
    if s.writerEntered && count == 0 then WakesOne(s, woken, false)
    else if !s.writerEntered && count == MAX_READERS - 1 then WakesOne(s, woken, true)
    else woken == {}
  }

  ghost predicate WakesOne(s: Latch, woken: set<Thread>, onReader: bool) {
    && (forall t :: t in woken ==> t in s.at && Asleep(s.at[t]) && OnReader(s.at[t]) == onReader)
    && (forall t, u :: t in woken && u in woken ==> t == u)
    && (woken == {} ==> forall t :: t in s.at && Asleep(s.at[t]) ==> OnReader(s.at[t]) != onReader)
  }

  function WakeAll(at: map<Thread, Place>, woken: set<Thread>): map<Thread, Place> {
    map t | t in at :: if t in woken then Woken(at[t]) else at[t]
  }

  ghost predicate Enabled(s: Latch, e: Step) {
    && e.t in s.at
    && match e
       case WLock(t) => s.at[t] == Out || s.at[t] == WriterQueued(true) || s.at[t] == WriterDraining(true)
       case RLock(t) => s.at[t] == Out || s.at[t] == ReaderQueued(true)
       case WUnlock(t) => s.at[t] == Writing
       case RUnlock(t, woken) => s.at[t] == Reading && Notified(s, woken)
       case Wake(t) => Asleep(s.at[t])
  }

  ghost function Next(s: Latch, e: Step): Latch
    requires e.t in s.at
  {
    match e
    case WLock(t) => if s.at[t].WriterDraining? then WriterDrains(s, t) else WriterTries(s, t)
    case RLock(t) => ReaderTries(s, t)
    case WUnlock(t) => s.(at := WakeReaders(s.at[t := Out]), writerEntered := false)
    case RUnlock(t, woken) => s.(at := WakeAll(s.at[t := Out], woken), readerCount := s.readerCount - 1)
    case Wake(t) => s.(at := s.at[t := Woken(s.at[t])])
  }

  // ---------------------------------------------------------------- safety

  ghost function Readers(s: Latch): set<Thread> {
    set t | t in s.at && s.at[t] == Reading
  }

  /** A thread that has claimed the latch for writing. */
  predicate Claims(p: Place) {
    p.WriterDraining? || p.Writing?
  }

  ghost predicate Inv(s: Latch) {
    && s.readerCount == |Readers(s)| && s.readerCount <= MAX_READERS
    && (forall t, u :: t in s.at && u in s.at && Claims(s.at[t]) && Claims(s.at[u]) ==> t == u)
    && (forall t :: t in s.at && Claims(s.at[t]) ==> s.writerEntered)
    && (s.writerEntered ==> exists t :: t in s.at && Claims(s.at[t]))
    && (forall t :: t in s.at && s.at[t] == Writing ==> s.readerCount == 0)
  }

  /** Nobody sleeps through the event it waits for. */
  ghost predicate NoLostWakeup(s: Latch) {
    && (forall t :: t in s.at && Asleep(s.at[t]) && OnReader(s.at[t]) ==> s.writerEntered)
    && (forall t :: t in s.at && Asleep(s.at[t]) && s.at[t].WriterDraining? ==> s.readerCount > 0)
  }

  lemma ReadersAfter(s: Latch, u: Latch, t: Thread)
    requires t in s.at && u.at.Keys == s.at.Keys
    requires forall r :: r in s.at && r != t ==> (u.at[r] == Reading <==> s.at[r] == Reading)
    ensures |Readers(u)| == |Readers(s)| + (if u.at[t] == Reading then 1 else 0) - (if s.at[t] == Reading then 1 else 0)
  {
    var a, b := Readers(s) - {t}, Readers(u) - {t};
    assert a == b;
    assert Readers(s) == if s.at[t] == Reading then a + {t} else a;
    assert Readers(u) == if u.at[t] == Reading then b + {t} else b;
  }

  lemma StepKeepsInv(s: Latch, e: Step)
    requires Inv(s) && Enabled(s, e)
    ensures Inv(Next(s, e))
  {
    match e
    case WLock(t) => WriterStepKeepsInv(s, e);
    case RLock(t) => ReaderStepKeepsInv(s, e);
    case WUnlock(t) => WriterStepKeepsInv(s, e);
    case RUnlock(t, woken) => ReaderStepKeepsInv(s, e);
    case Wake(t) => WakeKeepsInv(s, t);
  }

  lemma WriterStepKeepsInv(s: Latch, e: Step)
    requires Inv(s) && Enabled(s, e) && (e.WLock? || e.WUnlock?)
    ensures Inv(Next(s, e))
  {
    ReadersAfter(s, Next(s, e), e.t);
  }

  lemma ReaderStepKeepsInv(s: Latch, e: Step)
    requires Inv(s) && Enabled(s, e) && (e.RLock? || e.RUnlock?)
    ensures Inv(Next(s, e))
  {
    ReadersAfter(s, Next(s, e), e.t);
  }

  lemma WakeKeepsInv(s: Latch, t: Thread)
    requires Inv(s) && Enabled(s, Wake(t))
    ensures Inv(Next(s, Wake(t)))
  {
    ReadersAfter(s, Next(s, Wake(t)), t);
  }

  lemma StepKeepsWakeups(s: Latch, e: Step)
    requires Inv(s) && NoLostWakeup(s) && Enabled(s, e) && s.readerCount < MAX_READERS
    ensures NoLostWakeup(Next(s, e))
  {
    var u := Next(s, e);
    match e
    case RUnlock(t, woken) => LastReaderWakesWriter(s, t, woken);
    case _ =>
  }

  /** The writer that drains the readers is woken by the last of them. */
  lemma LastReaderWakesWriter(s: Latch, t: Thread, woken: set<Thread>)
    requires Inv(s) && NoLostWakeup(s) && Enabled(s, RUnlock(t, woken)) && s.readerCount < MAX_READERS
    ensures NoLostWakeup(Next(s, RUnlock(t, woken)))
  {
    var u := Next(s, RUnlock(t, woken));
    if u.readerCount == 0 && s.writerEntered {
      forall r | r in u.at && s.at[r].WriterDraining? ensures !Asleep(u.at[r]) {
        OnlyClaimant(s, woken, r);
      }
    }
  }

  /** Whoever drains the readers is the one sleeper on `writer_`. */
  lemma OnlyClaimant(s: Latch, woken: set<Thread>, r: Thread)
    requires Inv(s) && WakesOne(s, woken, false) && r in s.at && s.at[r].WriterDraining?
    ensures Asleep(s.at[r]) ==> r in woken
  {
    if Asleep(s.at[r]) {
      assert woken != {};
      var w :| w in woken;
      assert Claims(s.at[w]) && Claims(s.at[r]);
    }
  }

  // ---------------------------------------------------------------- runs

  ghost predicate IsRun(states: seq<Latch>, steps: seq<Step>) {
    && |states| == |steps| + 1
    && states[0].readerCount == 0 && !states[0].writerEntered
       && (forall t :: t in states[0].at ==> states[0].at[t] == Out)
    && forall i :: 0 <= i < |steps| ==> Enabled(states[i], steps[i]) && states[i + 1] == Next(states[i], steps[i])
  }

  lemma {:induction false} RunKeepsInv(states: seq<Latch>, steps: seq<Step>, i: nat)
    requires IsRun(states, steps) && i < |states|
    ensures Inv(states[i])
  {
    if i == 0 {
      assert Readers(states[0]) == {};
    } else {
      RunKeepsInv(states, steps, i - 1);
      StepKeepsInv(states[i - 1], steps[i - 1]);
    }
  }

  /** Mutual exclusion: a writer is alone. */
  lemma WriterIsAlone(states: seq<Latch>, steps: seq<Step>, i: nat, w: Thread, t: Thread)
    requires IsRun(states, steps) && i < |states|
    requires w in states[i].at && t in states[i].at && states[i].at[w] == Writing && t != w
    ensures states[i].at[t] != Writing && states[i].at[t] != Reading
  {
    RunKeepsInv(states, steps, i);
    NoReaderWithWriter(states[i], t);
  }

  lemma NoReaderWithWriter(s: Latch, t: Thread)
    requires Inv(s) && s.readerCount == 0
    ensures t in s.at ==> s.at[t] != Reading
  {
    assert Readers(s) == {};
    assert t !in Readers(s);
  }

  /** Once a writer has claimed the latch no thread becomes a reader. */
  lemma NoNewReader(states: seq<Latch>, steps: seq<Step>, i: nat, t: Thread)
    requires IsRun(states, steps) && i < |steps| && states[i].writerEntered
    requires t in states[i + 1].at && states[i + 1].at[t] == Reading
    ensures t in states[i].at && states[i].at[t] == Reading
  {
    assert Enabled(states[i], steps[i]) && states[i + 1] == Next(states[i], steps[i]);
  }

  /** As long as the reader count stays below its limit nobody is left asleep: whoever sleeps on
      `reader_` waits for a writer that is there, and whoever sleeps on `writer_` for readers that are. */
  lemma {:induction false} NobodyLeftAsleep(states: seq<Latch>, steps: seq<Step>, i: nat)
    requires IsRun(states, steps) && i < |states|
    requires forall j :: 0 <= j < i ==> states[j].readerCount < MAX_READERS
    ensures NoLostWakeup(states[i])
  {
    if i > 0 {
      NobodyLeftAsleep(states, steps, i - 1);
      RunKeepsInv(states, steps, i - 1);
      StepKeepsWakeups(states[i - 1], steps[i - 1]);
    }
  }

  // ---------------------------------------------------------------- who gets in

  /** Readers share: as long as no writer has claimed the latch and there are fewer than 2^32 - 1 of them,
      another one gets in at once. */
  lemma ReadersShare(states: seq<Latch>, steps: seq<Step>, i: nat, t: Thread)
    requires IsRun(states, steps) && i < |states| && Enabled(states[i], RLock(t))
    requires !states[i].writerEntered && |Readers(states[i])| < 0xffff_ffff
    ensures var u := Next(states[i], RLock(t)); u.at[t] == Reading && Readers(u) == Readers(states[i]) + {t}
  {
    RunKeepsInv(states, steps, i);
  }

  /** Otherwise it goes to sleep. */
  lemma ReaderWaits(s: Latch, t: Thread)
    requires Enabled(s, RLock(t)) && (s.writerEntered || s.readerCount >= 0xffff_ffff) && Inv(s)
    ensures Next(s, RLock(t)).at[t] == ReaderQueued(false) && Readers(Next(s, RLock(t))) == Readers(s)
  {
  }

  /** A writer gets in at once if nobody is there; if only readers are there it keeps new ones out; behind
      another writer it goes to sleep. */
  lemma WriterEnters(states: seq<Latch>, steps: seq<Step>, i: nat, t: Thread)
    requires IsRun(states, steps) && i < |states| && Enabled(states[i], WLock(t))
    ensures var s, u := states[i], Next(states[i], WLock(t));
      var first := s.at[t].WriterDraining? || !s.writerEntered;
      && (first && Readers(s) == {} ==> u.at[t] == Writing && u.writerEntered)
      && (first && Readers(s) != {} ==> u.at[t] == WriterDraining(false) && u.writerEntered)
      && (!first ==> u.at[t] == WriterQueued(false))
  {
    RunKeepsInv(states, steps, i);
    var s := states[i];
    if Readers(s) != {} {
      var r :| r in Readers(s);
      assert s.readerCount > 0;
    }
  }

  // ---------------------------------------------------------------- no deadlock

  /** A thread that has begun and not ended its use of the latch, and does not sleep. */
  predicate Awake(s: Latch, t: Thread) {
    t in s.at && s.at[t] != Out && !Asleep(s.at[t])
  }

  /** While readers are counted one of them is reading. */
  lemma SomeReader(s: Latch) returns (t: Thread)
    requires Inv(s) && s.readerCount > 0
    ensures t in s.at && s.at[t] == Reading
  {
    assert Readers(s) != {};
    t :| t in Readers(s);
  }

  /** Whoever uses the latch, somebody who does is awake. */
  lemma SomebodyAwake(s: Latch, t: Thread) returns (u: Thread)
    requires Inv(s) && NoLostWakeup(s) && t in s.at && s.at[t] != Out
    ensures Awake(s, u)
  {
    if s.readerCount > 0 {
      u := SomeReader(s);
    } else if s.writerEntered {
      u :| u in s.at && Claims(s.at[u]);
    } else {
      u := t;
    }
  }

  /** A reader on its way out always finds whom to wake. */
  lemma WhomToWake(s: Latch, onReader: bool) returns (woken: set<Thread>)
    ensures WakesOne(s, woken, onReader)
  {
    if t :| t in s.at && Asleep(s.at[t]) && OnReader(s.at[t]) == onReader {
      woken := {t};
    } else {
      woken := {};
    }
  }

  /** An awake thread can take a step of its own. */
  lemma AwakeCanMove(s: Latch, t: Thread) returns (e: Step)
    requires Awake(s, t)
    ensures Enabled(s, e) && e.t == t && !e.Wake?
  {
    match s.at[t]
    case WriterQueued(_) => e := WLock(t);
    case ReaderQueued(_) => e := RLock(t);
    case WriterDraining(_) => e := WLock(t);
    case Writing => e := WUnlock(t);
    case Reading =>
      var toWriter := s.writerEntered && s.readerCount == 1;
      var toReader := !s.writerEntered && s.readerCount == MAX_READERS;
      var woken: set<Thread> := {};
      if toWriter || toReader {
        woken := WhomToWake(s, toReader);
      }
      e := RUnlock(t, woken);
  }

  /** No deadlock: below the reader limit, in every state of every run in which some thread uses the
      latch, such a thread can go on without being woken. */
  lemma NoDeadlock(states: seq<Latch>, steps: seq<Step>, i: nat, t: Thread) returns (e: Step)
    requires IsRun(states, steps) && i < |states| && t in states[i].at && states[i].at[t] != Out
    requires forall j :: 0 <= j < i ==> states[j].readerCount < MAX_READERS
    ensures Enabled(states[i], e) && !e.Wake? && states[i].at[e.t] != Out
  {
    RunKeepsInv(states, steps, i);
    NobodyLeftAsleep(states, steps, i);
    var u := SomebodyAwake(states[i], t);
    e := AwakeCanMove(states[i], u);
  }
}
