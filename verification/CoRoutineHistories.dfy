/** What the co-routine scheduler keeps over any history, and what it promises a co-routine: exact
    delays and time-outs, the most urgent one first, and an equal share among equals. */
module CoRoutineHistories {
  import opened RingList
  import opened Ticks
  import opened TimedLists
  import opened CoRoutines
  import opened CoRoutineRuns

  // ---- Delaying ----

  /** A time less than a turn of the tick ahead is filed under the turn it falls in. */
  lemma FiledInItsTurn(clock: nat, d: nat)
    requires 0 < d < TICKS
    ensures Wrap(Wrap(clock) + d) == Wrap(clock + d)
    ensures Epoch(clock + d) == Epoch(clock) + if Wrap(clock + d) < Wrap(clock) then 1 else 0
  {
    hide Wrap, Epoch;
    ReloadStays(clock, d);
    WrapDifference(clock, clock + d);
  }

  lemma InsertedMembers(l: seq<Entry>, e: Entry)
    ensures forall f :: f in Inserted(l, e) ==> f == e || f in l
  {
  }

  lemma SleepTime(s: State, d: nat)
    requires TimeAt(s, s.clock) && 0 < d < TICKS
    ensures var s1 := Sleep(s, d);
            TimeAt(s1, s1.clock) && s1.clock == s.clock && s1.tick == s.tick && s1.lastTick == s.lastTick
  {
    hide Wrap, Epoch, ListOk, Inserted, Without;
    var c := s.current;
    var s1 := Unlist(s, c);
    var e := Entry(c, Wrap(s.tick + d), s.clock + d);
    FiledInItsTurn(s.clock, d);
    WithoutOk(s.delayed, c, Epoch(s.clock));
    WithoutOk(s.overflow, c, Epoch(s.clock) + 1);
    InsertedMembers(s1.delayed, e);
    if e.value < s.tick {
      InsertedOk(s1.overflow, e, Epoch(s.clock) + 1);
    } else {
      InsertedOk(s1.delayed, e, Epoch(s.clock));
    }
  }

  lemma SleepListed(s: State, d: nat, c: CoRoutine)
    requires TimeAt(s, s.clock)
    ensures var s1 := Sleep(s, d);
            Listed(s1, c) == if c == s.current then [Entry(c, Wrap(s.clock + d), s.clock + d)] else Listed(s, c)
  {
    hide Of, Inserted, Without, Wrap, Epoch, ListOk;
    var s1 := Unlist(s, s.current);
    var e := Entry(s.current, Wrap(s.tick + d), s.clock + d);
    WrapSum(s.clock, d);
    UnlistListed(s, s.current, c);
    OfInserted(s1.overflow, e, c);
    OfInserted(s1.delayed, e, c);
  }

  lemma SleepKeeps(s: State, d: nat)
    requires Good(s) && s.current in s.priorities && IsReady(s, s.current)
    ensures Core(Sleep(s, d)) && !Waits(Sleep(s, d), s.current)
    ensures forall c :: Waits(Sleep(s, d), c) <==> Waits(s, c)
    ensures forall c :: IsReady(Sleep(s, d), c) <==> c != s.current && IsReady(s, c)
  {
    hide Waits, Listed, IsReady, ReadyOk, TopOk, Apart, TimeAt;
    var s1, s0 := Sleep(s, d), Unlist(s, s.current);
    SleepFrame(s, d);
    UnlistReady(s, s.current);
    SameReady(s0, s1);
    SameApart(s, s1);
    SameWaits(s, s1);
    assert Placed(s, s.current);
    forall c
      ensures Placed(s1, c) && (Waits(s1, c) ==> Listed(s1, c) != [])
    {
      SleepListed(s, d, c);
      assert Placed(s, c);
    }
  }

  lemma SleepFrame(s: State, d: nat)
    ensures var s1, s0 := Sleep(s, d), Unlist(s, s.current);
            && s1.ready == s0.ready && s1.top == s0.top && s1.priorities == s0.priorities == s.priorities
            && s1.pending == s.pending && s1.events == s.events && s1.current == s.current
  {
  }

  // ---- Waiting for an event ----

  lemma AwaitInOrder(s: State, w: seq<CoRoutine>, c: CoRoutine)
    requires InOrder(s, w) && c !in w
    ensures var k := InsertPosition(EventValues(s, w), PRIORITIES - PriorityOf(s, c)); InOrder(s, w[..k] + [c] + w[k..])
  {
    var v := EventValues(s, w);
    var k := InsertPosition(v, PRIORITIES - PriorityOf(s, c));
    var l := w[..k] + [c] + w[k..];
    forall i | k <= i < |w|
      ensures Before(s, c, w[i])
    {
      assert v[k] > PRIORITIES - PriorityOf(s, c);
      assert i > k ==> Before(s, w[k], w[i]);
    }
    forall i | 0 <= i < k
      ensures Before(s, w[i], c)
    {
      assert v[i] <= PRIORITIES - PriorityOf(s, c);
    }
    InOrderBetween(s, w, k, c);
  }

  lemma InOrderBetween(s: State, w: seq<CoRoutine>, k: nat, c: CoRoutine)
    requires k <= |w| && InOrder(s, w)
    requires forall i :: 0 <= i < k ==> Before(s, w[i], c)
    requires forall i :: k <= i < |w| ==> Before(s, c, w[i])
    ensures InOrder(s, w[..k] + [c] + w[k..])
  {
    hide Before;
    var l := w[..k] + [c] + w[k..];
    assert forall i :: 0 <= i < |l| ==> l[i] == if i < k then w[i] else if i == k then c else w[i - 1];
  }

  lemma AwaitKeeps(s: State, c: CoRoutine, e: EventList)
    requires Core(s) && !Waits(s, c) && Listed(s, c) != []
    ensures Core(Await(s, c, e))
    ensures forall d :: d != c ==> (Waits(Await(s, c, e), d) <==> Waits(s, d))
  {
    hide Listed, IsReady, ReadyOk, TopOk, Apart, AllPlaced, Waits;
    var s1 := Await(s, c, e);
    AwaitWaits(s, c, e);
    SameReady(s, s1);
    AwaitPlaced(s, c, e);
    AwaitApart(s, c, e);
  }

  lemma AwaitWaits(s: State, c: CoRoutine, e: EventList)
    ensures forall d :: Waits(Await(s, c, e), d) <==> d == c || Waits(s, d)
  {
    hide Await;
    var s1 := Await(s, c, e);
    AwaitWaiters(s, c, e);
    forall d
      ensures Waits(s1, d) <==> d == c || Waits(s, d)
    {
      assert d in Waiters(s1, e) <==> d == c || d in Waiters(s, e);
    }
  }

  lemma AwaitPlaced(s: State, c: CoRoutine, e: EventList)
    requires AllPlaced(s)
    ensures AllPlaced(Await(s, c, e)) && forall d :: Listed(Await(s, c, e), d) == Listed(s, d)
  {
    hide Of;
    forall d
      ensures Placed(Await(s, c, e), d)
    {
      assert Placed(s, d);
    }
  }

  lemma AwaitWaiters(s: State, c: CoRoutine, e: EventList)
    ensures var s1 := Await(s, c, e);
            && (forall d :: d in Waiters(s1, e) <==> d == c || d in Waiters(s, e))
            && (forall f :: f != e ==> Waiters(s1, f) == Waiters(s, f))
            && s1.pending == s.pending
  {
    hide InsertPosition, EventValues;
    var s1 := Await(s, c, e);
    var w := Waiters(s, e);
    var k := InsertPosition(EventValues(s, w), PRIORITIES - PriorityOf(s, c));
    assert w == w[..k] + w[k..];
  }

  lemma AwaitApart(s: State, c: CoRoutine, e: EventList)
    requires Apart(s) && !Waits(s, c)
    ensures Apart(Await(s, c, e))
  {
    hide InOrder, EventValues, InsertPosition;
    var s1 := Await(s, c, e);
    AwaitWaiters(s, c, e);
    assert WaitersOk(s, e);
    AwaitInOrder(s, Waiters(s, e), c);
    forall f
      ensures WaitersOk(s1, f)
    {
      assert WaitersOk(s, f);
      SameOrder(s, s1, Waiters(s1, f));
    }
  }

  lemma AwaitTime(s: State, c: CoRoutine, e: EventList)
    requires TimeAt(s, s.clock)
    ensures var s1 := Await(s, c, e);
            TimeAt(s1, s1.clock) && s1.clock == s.clock && s1.tick == s.tick && s1.lastTick == s.lastTick
  {
  }

  lemma DelayKeeps(s: State, d: nat, what: Waiting)
    requires Good(s) && Allowed(s, DelaySelf(d, what))
    ensures Good(Delay(s, d, what))
  {
    hide Core, TimeAt, Await, Sleep, Listed, IsReady;
    SleepKeeps(s, d);
    SleepTime(s, d);
    SleepListed(s, d, s.current);
    if what.For? {
      AwaitKeeps(Sleep(s, d), s.current, what.event);
      AwaitTime(Sleep(s, d), s.current, what.event);
    }
  }

  /** A delay of `d` ticks puts the caller to sleep until `d` ticks from now. */
  lemma DelaySleeps(s: State, d: nat, what: Waiting)
    requires Good(s) && Allowed(s, DelaySelf(d, what))
    ensures OnTime(Delay(s, d, what), s.current, s.clock + d)
    ensures what == NoEvent ==> !Waits(Delay(s, d, what), s.current)
    ensures s.current !in Delay(s, d, what).pending
  {
    hide Core, TimeAt, Sleep, Listed, IsReady, Wrap;
    SleepKeeps(s, d);
    SleepListed(s, d, s.current);
    SleepTime(s, d);
    SleepFrame(s, d);
    var s1 := Sleep(s, d);
    if what.For? {
      CorePlaced(s1);
      AwaitPlaced(s1, s.current, what.event);
    }
  }

  // ---- Signals ----

  lemma SignalKeeps(s: State, e: EventList)
    requires Core(s) && Waiters(s, e) != []
    ensures Core(Signal(s, e).0)
    ensures forall c :: Waits(Signal(s, e).0, c) <==> Waits(s, c)
  {
    hide Listed, IsReady, ReadyOk, TopOk, InOrder;
    var c := Waiters(s, e)[0];
    assert c in Waiters(s, e);
    var s0, s1 := Forget(s, c), Signal(s, e).0;
    ForgetOk(s, c);
    SignalWaits(s0, s1, c);
    SameReady(s, s1);
    forall d
      ensures Placed(s1, d) && Listed(s1, d) == Listed(s, d)
    {
      assert Placed(s, d);
      SameListed(s, s1, d);
    }
    assert Waits(s, c);
    PendedApart(s0, s1, c);
  }

  lemma SignalWaits(s0: State, s1: State, c: CoRoutine)
    requires s1.pending == s0.pending + [c] && s1.events == s0.events
    ensures forall d :: Waits(s1, d) <==> d == c || Waits(s0, d)
  {
    assert forall e :: Waiters(s1, e) == Waiters(s0, e);
    assert c in s1.pending;
  }

  lemma PendedApart(s0: State, s1: State, c: CoRoutine)
    requires Apart(s0) && !Waits(s0, c)
    requires s1.pending == s0.pending + [c] && s1.events == s0.events && s1.priorities == s0.priorities
    ensures Apart(s1)
  {
    hide InOrder;
    assert forall e :: Waiters(s1, e) == Waiters(s0, e);
    forall e
      ensures WaitersOk(s1, e)
    {
      assert WaitersOk(s0, e);
      SameOrder(s0, s1, Waiters(s0, e));
    }
  }

  /** A signal goes to the most urgent co-routine that waits for the event. */
  lemma SignalsMostUrgent(s: State, e: EventList)
    requires Core(s) && Waiters(s, e) != []
    ensures var s1 := Signal(s, e).0;
            && s1.pending == s.pending + [Waiters(s, e)[0]]
            && Waiters(s1, e) == Waiters(s, e)[1..]
            && (forall c <- Waiters(s, e) :: PriorityOf(s, c) <= PriorityOf(s, Waiters(s, e)[0]))
  {
    var w := Waiters(s, e);
    assert WaitersOk(s, e);
    assert w[0] in w;
    MinusAbsent(s.pending, w[0]);
    assert w == [w[0]] + w[1..];
    assert forall i :: 0 < i < |w| ==> Before(s, w[0], w[i]);
    MinusAbsent(w[1..], w[0]);
    forall c | c in w
      ensures PriorityOf(s, c) <= PriorityOf(s, w[0])
    {
      var i := IndexOf(w, c);
      assert i > 0 ==> Before(s, w[0], w[i]);
    }
  }

  lemma {:induction false} MinusAbsent(l: seq<CoRoutine>, c: CoRoutine)
    requires c !in l
    ensures Minus(l, c) == l
  {
    if l != [] {
      MinusAbsent(l[1..], c);
    }
  }

  // ---- Creation ----

  lemma CreateKeeps(s: State, c: CoRoutine, priority: nat)
    requires Core(s) && c !in s.priorities
    ensures Core(CreateAs(s, c, priority))
    ensures forall d :: Listed(CreateAs(s, c, priority), d) == Listed(s, d)
    ensures forall d :: d != c ==> (IsReady(CreateAs(s, c, priority), d) <==> IsReady(s, d))
    ensures forall d :: Waits(CreateAs(s, c, priority), d) <==> Waits(s, d)
  {
    hide Listed, InOrder;
    var p: Priority := if priority >= PRIORITIES then PRIORITIES - 1 else priority;
    var s0 := s.(priorities := s.priorities[c := p], current := if s.priorities == map[] then c else s.current);
    var s1 := CreateAs(s, c, priority);
    NewIsNowhere(s, c);
    CreatedReady(s, s0, c);
    AddReadyOk(s0, c);
    assert Placed(s, c);
    CreatedApart(s, s1, c);
    SameWaits(s, s1);
    CreatedPlaced(s, s1, c);
  }

  /** A co-routine not created yet is on no list. */
  lemma NewIsNowhere(s: State, c: CoRoutine)
    requires Core(s) && c !in s.priorities
    ensures !Waits(s, c) && Listed(s, c) == [] && forall p: Priority :: c !in s.ready[p].items
  {
    assert Placed(s, c);
  }

  lemma CreatedReady(s: State, s0: State, c: CoRoutine)
    requires ReadyOk(s) && TopOk(s) && forall p: Priority :: c !in s.ready[p].items
    requires c in s0.priorities && s0.priorities == s.priorities[c := s0.priorities[c]] && s0.ready == s.ready
             && s0.top == s.top
    ensures ReadyOk(s0) && TopOk(s0) && !IsReady(s0, c)
    ensures forall d :: d != c ==> (IsReady(s0, d) <==> IsReady(s, d))
  {
  }

  lemma CreatedApart(s: State, s1: State, c: CoRoutine)
    requires Apart(s) && !Waits(s, c)
    requires s1.pending == s.pending && s1.events == s.events
    requires c in s1.priorities && s1.priorities == s.priorities[c := s1.priorities[c]]
    ensures Apart(s1)
  {
    hide InOrder;
    assert forall e :: Waiters(s1, e) == Waiters(s, e);
    forall e
      ensures WaitersOk(s1, e)
    {
      assert WaitersOk(s, e);
      SameOrder(s, s1, Waiters(s, e));
    }
  }

  lemma CreatedPlaced(s: State, s1: State, c: CoRoutine)
    requires AllPlaced(s) && Listed(s, c) == [] && IsReady(s1, c)
    requires s1.delayed == s.delayed && s1.overflow == s.overflow
    requires c in s1.priorities && s1.priorities == s.priorities[c := s1.priorities[c]]
    requires forall d :: d != c ==> (IsReady(s1, d) <==> IsReady(s, d))
    ensures AllPlaced(s1) && forall d :: Listed(s1, d) == Listed(s, d)
  {
    hide IsReady, Listed;
    forall d
      ensures Placed(s1, d) && Listed(s1, d) == Listed(s, d)
    {
      SameListed(s, s1, d);
      assert Placed(s, d);
    }
  }

  // ---- The scheduler ----

  lemma MovePendingTime(s: State)
    requires TimeAt(s, s.clock) && s.pending != []
    ensures var s1 := MovePending(s);
            TimeAt(s1, s1.clock) && s1.clock == s.clock && s1.lastTick == s.lastTick && s1.tick == s.tick
            && s1.priorities == s.priorities
  {
    hide Without, ListOk, Wrap, Epoch;
    WithoutOk(s.delayed, s.pending[0], Epoch(s.clock));
    WithoutOk(s.overflow, s.pending[0], Epoch(s.clock) + 1);
  }

  lemma {:induction false} CheckPendingKeeps(s: State)
    requires Good(s)
    ensures var s1 := CheckPending(s);
            Good(s1) && s1.clock == s.clock && s1.priorities == s.priorities && s1.pending == []
    decreases |s.pending|
  {
    hide Core, TimeAt, MovePending;
    if s.pending != [] {
      MovePendingKeeps(s);
      MovePendingTime(s);
      MovePendingShrinks(s);
      CheckPendingKeeps(MovePending(s));
    }
  }

  lemma MovePendingShrinks(s: State)
    requires s.pending != []
    ensures MovePending(s).pending == Minus(s.pending, s.pending[0])
  {
  }

  lemma SelectKeeps(s: State)
    requires Core(s)
    ensures Core(Select(s))
    ensures forall c :: Listed(Select(s), c) == Listed(s, c) && (IsReady(Select(s), c) <==> IsReady(s, c))
    ensures forall c :: Waits(Select(s), c) <==> Waits(s, c)
  {
    hide Listed, InOrder;
    var s1 := Select(s);
    SelectFrame(s);
    SameApart(s, s1);
    SameWaits(s, s1);
    SelectReady(s);
    forall c
      ensures Placed(s1, c) && Listed(s1, c) == Listed(s, c)
    {
      SameListed(s, s1, c);
      assert Placed(s, c);
    }
  }

  lemma SelectFrame(s: State)
    ensures var s1 := Select(s);
            && s1.pending == s.pending && s1.events == s.events && s1.priorities == s.priorities
            && s1.delayed == s.delayed && s1.overflow == s.overflow && s1.tick == s.tick && s1.clock == s.clock
            && s1.lastTick == s.lastTick
  {
  }

  lemma SelectReady(s: State)
    requires ReadyOk(s) && TopOk(s)
    ensures var s1 := Select(s);
            ReadyOk(s1) && TopOk(s1) && forall p: Priority :: s1.ready[p].items == s.ready[p].items
  {
    var t := Lowered(s.ready, s.top);
  }

  /** The scheduler runs a ready co-routine of the highest priority, if any is ready. */
  lemma SelectsMostUrgent(s: State)
    requires ReadyOk(s) && TopOk(s)
    ensures var s1 := Select(s);
            if exists c :: IsReady(s, c)
            then IsReady(s, s1.current) && forall c :: IsReady(s, c) ==> PriorityOf(s, c) <= PriorityOf(s, s1.current)
            else s1.current == s.current
  {
    var t := Lowered(s.ready, s.top);
    forall c | IsReady(s, c)
      ensures PriorityOf(s, c) <= t
    {
      assert s.ready[PriorityOf(s, c)].items != [];
    }
    if s.ready[t].items != [] {
      var r := Advance(s.ready[t]);
      assert RingList.Current(r) in s.ready[t].items;
    }
  }

  /** Whom `n` turns of the scheduler run with nothing else happening. */
  function Chosen(s: State, n: nat): seq<CoRoutine>
    decreases n
  {
    if n == 0 then [] else [Select(s).current] + Chosen(Select(s), n - 1)
  }

  /** The highest priority at which a co-routine is ready. */
  ghost predicate HighestReady(s: State, p: Priority) {
    s.ready[p].items != [] && forall q: Priority :: s.ready[q].items != [] ==> q <= p
  }

  lemma LoweredToHighest(s: State, p: Priority)
    requires TopOk(s) && HighestReady(s, p)
    ensures Lowered(s.ready, s.top) == p
  {
    hide Lowered;
    var t := Lowered(s.ready, s.top);
  }

  lemma {:induction false} ChosenWalk(s: State, n: nat, p: Priority)
    requires s.ready[p].items != [] && Lowered(s.ready, s.top) == p
    ensures Chosen(s, n) == Walk(s.ready[p], n)
    decreases n
  {
    if n > 0 {
      ChosenWalk(Select(s), n - 1, p);
    }
  }

  /** Co-routines of the highest ready priority get an equal share: as many turns as there are of
      them run each of them exactly once. */
  lemma EqualShare(s: State, p: Priority)
    requires ReadyOk(s) && TopOk(s) && HighestReady(s, p)
    ensures var run := Chosen(s, |s.ready[p].items|);
            NoDup(run) && forall c :: c in run <==> c in s.ready[p].items
  {
    LoweredToHighest(s, p);
    ChosenWalk(s, |s.ready[p].items|, p);
    WalkOnceEach(s.ready[p]);
  }

  lemma SelectTime(s: State)
    requires TimeAt(s, s.clock)
    ensures var s1 := Select(s);
            TimeAt(s1, s1.clock) && s1.clock == s.clock && s1.tick == s.tick && s1.lastTick == s.lastTick
  {
    SelectFrame(s);
    hide Select, ListOk, Wrap;
  }

  lemma CheckDelayedKeeps(s: State, now: nat)
    requires Good(s) && s.clock <= now < s.clock + TICKS
    ensures var s1 := CheckDelayed(s, now); Good(s1) && s1.clock == now && s1.priorities == s.priorities
    ensures CheckDelayed(s, now) == CatchUp(s, now - s.clock).(lastTick := CatchUp(s, now - s.clock).tick)
  {
    hide CatchUp, Core, TimeAt, Wrap;
    assert s.tick == Wrap(s.clock) by { TimeTick(s); }
    WrapDifference(s.clock, now);
    SmallWrap(now - s.clock);
    CatchUpKeeps(s, now - s.clock);
    LastTickOnly(CatchUp(s, now - s.clock), CheckDelayed(s, now));
  }

  lemma TimeTick(s: State)
    requires TimeAt(s, s.clock)
    ensures s.tick == Wrap(s.clock)
  {
  }

  /** The last tick sampled is not part of what holds between ticks. */
  lemma LastTickOnly(s: State, s1: State)
    requires Core(s) && TimeAt(s, s.clock) && s1 == s.(lastTick := s1.lastTick)
    ensures Core(s1) && TimeAt(s1, s1.clock)
    ensures forall c, due :: OnTime(s1, c, due) == OnTime(s, c, due)
    ensures forall c :: Waits(s1, c) == Waits(s, c)
  {
    hide Of, InOrder, ListOk, Wrap, Epoch;
    SameReady(s, s1);
    SameApart(s, s1);
    SameWaits(s, s1);
    forall c
      ensures Listed(s1, c) == Listed(s, c) && Placed(s1, c)
    {
      assert Placed(s, c);
    }
  }

  lemma ScheduleKeeps(s: State, now: nat)
    requires Good(s) && s.clock <= now < s.clock + TICKS
    ensures Good(Schedule(s, now)) && Schedule(s, now).clock == now
  {
    hide Core, TimeAt, CheckPending, CheckDelayed, Select;
    CheckPendingKeeps(s);
    CheckDelayedKeeps(CheckPending(s), now);
    SelectKeeps(CheckDelayed(CheckPending(s), now));
    SelectTime(CheckDelayed(CheckPending(s), now));
  }

  lemma CheckDelayedIsRight(s: State, now: nat)
    requires Good(s) && s.clock <= now < s.clock + TICKS
    ensures var s1 := CheckDelayed(s, now);
            Good(s1) && s1.clock == now && forall c, due :: OnTime(s, c, due) ==> OnTime(s1, c, due)
  {
    hide Core, TimeAt, OnTime, CatchUp, CheckDelayed, Wrap;
    CheckDelayedKeeps(s, now);
    CatchUpKeeps(s, now - s.clock);
    LastTickOnly(CatchUp(s, now - s.clock), CheckDelayed(s, now));
    forall c, due | OnTime(s, c, due)
      ensures OnTime(CheckDelayed(s, now), c, due)
    {
      WokenOnTime(s, c, due, now - s.clock);
    }
  }

  /** The scheduler has caught up with the kernel, and runs a most urgent ready co-routine if there is
      one. */
  lemma ScheduleIsRight(s: State, now: nat)
    requires Good(s) && s.clock <= now < s.clock + TICKS
    ensures var s1 := Schedule(s, now);
            && Good(s1) && s1.clock == now
            && (s1.ready[s1.top].items != [] ==> IsReady(s1, s1.current))
            && (forall c :: IsReady(s1, c) ==>
                  s1.ready[s1.top].items != [] && PriorityOf(s1, c) <= PriorityOf(s1, s1.current))
  {
    hide TimeAt, AllPlaced, Apart, WaitersSleep, IsReady, CheckPending, CheckDelayed, Select;
    CheckPendingKeeps(s);
    CheckDelayedKeeps(CheckPending(s), now);
    var s0 := CheckDelayed(CheckPending(s), now);
    ScheduleKeeps(s, now);
    SelectKeeps(s0);
    SelectFrame(s0);
    SelectsMostUrgent(s0);
    TopIsReady(s0);
    forall c
      ensures PriorityOf(Select(s0), c) == PriorityOf(s0, c)
    {
    }
  }

  lemma TopIsReady(s: State)
    requires ReadyOk(s) && TopOk(s)
    ensures var s1 := Select(s); s1.ready[s1.top].items != [] <==> exists c :: IsReady(s, c)
  {
    hide RingList.Valid;
    SelectReady(s);
    var t := Lowered(s.ready, s.top);
    if s.ready[t].items != [] {
      assert s.ready[t].items[0] in s.ready[t].items && IsReady(s, s.ready[t].items[0]);
    }
    forall c | IsReady(s, c)
      ensures s.ready[t].items != []
    {
      assert s.ready[PriorityOf(s, c)].items != [];
    }
  }

  lemma CreatedIsReady(s: State, c: CoRoutine, priority: nat)
    requires Good(s) && c !in s.priorities
    ensures var s1 := CreateAs(s, c, priority);
            && Good(s1) && IsReady(s1, c)
            && PriorityOf(s1, c) == if priority >= PRIORITIES then PRIORITIES - 1 else priority
  {
    hide Core, TimeAt;
    CreateKeeps(s, c, priority);
    SameTime(s, CreateAs(s, c, priority));
    var p: Priority := if priority >= PRIORITIES then PRIORITIES - 1 else priority;
    var s0 := s.(priorities := s.priorities[c := p], current := if s.priorities == map[] then c else s.current);
    assert CreateAs(s, c, priority).ready[p].items[EndPosition(s0.ready[p])] == c;
  }

  // ---- Any step, any run ----

  lemma SameTime(s: State, s1: State)
    requires TimeAt(s, s.clock) && s1.delayed == s.delayed && s1.overflow == s.overflow && s1.tick == s.tick
             && s1.clock == s.clock
    ensures TimeAt(s1, s1.clock)
  {
  }

  lemma StepKeeps(s: State, step: Step)
    requires Good(s) && Allowed(s, step)
    ensures Good(Apply(s, step))
  {
    hide Core, TimeAt, Delay, Schedule;
    match step
    case Create(c, p) =>
      CreateKeeps(s, c, p);
      SameTime(s, Apply(s, step));
    case DelaySelf(d, what) => DelayKeeps(s, d, what);
    case SignalEvent(e) =>
      SignalKeeps(s, e);
      SameTime(s, Apply(s, step));
    case RunScheduler(now) => ScheduleKeeps(s, now);
  }

  predicate Permitted(s: State, steps: seq<Step>)
    decreases |steps|
  {
    steps == [] || (Allowed(s, steps[0]) && Permitted(Apply(s, steps[0]), steps[1..]))
  }

  function Run(s: State, steps: seq<Step>): State
    requires Permitted(s, steps)
    decreases |steps|
  {
    if steps == [] then s else Run(Apply(s, steps[0]), steps[1..])
  }

  lemma InitialIsGood()
    ensures Good(Initial())
  {
    assert forall e :: Waiters(Initial(), e) == [];
    assert forall c :: !Waits(Initial(), c) && Placed(Initial(), c);
  }

  /** In every reachable state each co-routine is on exactly one ready or delayed list, event items
      are on one list at most, and the delayed lists are this turn's and the next. */
  lemma {:induction false} RunKeeps(s: State, steps: seq<Step>)
    requires Good(s) && Permitted(s, steps)
    ensures Good(Run(s, steps))
    decreases |steps|
  {
    hide Good, Apply, Allowed;
    if steps != [] {
      StepKeeps(s, steps[0]);
      RunKeeps(Apply(s, steps[0]), steps[1..]);
    }
  }

  // ---- Exact delays, over any run ----

  /** The step neither signals the co-routine nor is a delay of its own. */
  predicate Spares(s: State, step: Step, c: CoRoutine)
    requires Allowed(s, step)
  {
    && (step.SignalEvent? ==> Waiters(s, step.event)[0] != c)
    && (step.DelaySelf? ==> s.current != c)
  }

  lemma {:induction false} CheckPendingFor(s: State, c: CoRoutine, due: nat)
    requires Good(s) && OnTime(s, c, due) && c !in s.pending
    ensures OnTime(CheckPending(s), c, due)
    ensures Waits(CheckPending(s), c) <==> Waits(s, c)
    decreases |s.pending|
  {
    hide Core, TimeAt, MovePending, Listed, IsReady, Waits;
    if s.pending != [] {
      MovePendingKeeps(s);
      MovePendingTime(s);
      MovePendingShrinks(s);
      CheckPendingFor(MovePending(s), c, due);
    }
  }

  lemma {:induction false} WakeDueWaits(s: State, c: CoRoutine)
    requires Core(s)
    ensures Waits(WakeDue(s), c) ==> Waits(s, c)
    decreases |s.delayed|
  {
    hide Core, WakeHead, Waits;
    if s.delayed != [] && s.tick >= s.delayed[0].value {
      WakeHeadKeeps(s);
      WakeDueWaits(WakeHead(s), c);
    }
  }

  lemma {:induction false} CatchUpWaits(s: State, n: nat, c: CoRoutine)
    requires Core(s) && TimeAt(s, s.clock)
    ensures Waits(CatchUp(s, n), c) ==> Waits(s, c)
  {
    hide Core, TimeAt, WakeDue, Waits;
    if n > 0 {
      CatchUpKeeps(s, n - 1);
      CatchUpWaits(s, n - 1, c);
      var s1 := CatchUp(s, n - 1);
      AdvancedKeeps(s1);
      SameWaits(s1, Advanced(s1));
      WakeDueWaits(Advanced(s1), c);
    }
  }

  lemma ScheduleFor(s: State, now: nat, c: CoRoutine, due: nat)
    requires Good(s) && s.clock <= now < s.clock + TICKS && OnTime(s, c, due) && c !in s.pending
    ensures OnTime(Schedule(s, now), c, due)
    ensures Waits(Schedule(s, now), c) ==> Waits(s, c)
  {
    hide Core, TimeAt, CheckPending, CheckDelayed, CatchUp, Select, Listed, IsReady, Waits;
    CheckPendingKeeps(s);
    CheckPendingFor(s, c, due);
    var s1 := CheckPending(s);
    CheckDelayedKeeps(s1, now);
    var s2 := CatchUp(s1, now - s1.clock);
    CatchUpKeeps(s1, now - s1.clock);
    WokenOnTime(s1, c, due, now - s1.clock);
    CatchUpWaits(s1, now - s1.clock, c);
    LastTickOnly(s2, CheckDelayed(s1, now));
    SelectKeeps(CheckDelayed(s1, now));
    SelectFrame(CheckDelayed(s1, now));
  }

  lemma {:induction false} CheckPendingEmpties(s: State)
    ensures CheckPending(s).pending == []
    decreases |s.pending|
  {
    hide MovePending;
    if s.pending != [] {
      MovePendingShrinks(s);
      CheckPendingEmpties(MovePending(s));
    }
  }

  lemma PendingOnlyWaits(s: State, c: CoRoutine)
    requires !Waits(s, c)
    ensures c !in s.pending
  {
  }

  lemma DelayFor(s: State, d: nat, what: Waiting, c: CoRoutine, due: nat)
    requires Good(s) && Allowed(s, DelaySelf(d, what)) && s.current != c && OnTime(s, c, due) && c !in s.pending
    ensures OnTime(Delay(s, d, what), c, due) && c !in Delay(s, d, what).pending
    ensures Waits(Delay(s, d, what), c) <==> Waits(s, c)
  {
    hide Core, TimeAt, Sleep, Listed, IsReady, Waits, Wrap;
    SleepKeeps(s, d);
    SleepListed(s, d, c);
    SleepTime(s, d);
    SleepFrame(s, d);
    var s1 := Sleep(s, d);
    if what.For? {
      CorePlaced(s1);
      AwaitPlaced(s1, s.current, what.event);
      AwaitWaits(s1, s.current, what.event);
      SameReady(s1, Await(s1, s.current, what.event));
    }
  }

  lemma SignalFor(s: State, e: EventList, c: CoRoutine, due: nat)
    requires Core(s) && Waiters(s, e) != [] && Waiters(s, e)[0] != c && OnTime(s, c, due) && c !in s.pending
    ensures OnTime(Signal(s, e).0, c, due) && c !in Signal(s, e).0.pending
    ensures Waits(Signal(s, e).0, c) <==> Waits(s, c)
  {
    SignalKeeps(s, e);
    hide Core, Waits;
  }

  lemma CreateFor(s: State, c: CoRoutine, priority: nat, d: CoRoutine, due: nat)
    requires Core(s) && c !in s.priorities && OnTime(s, d, due) && d !in s.pending
    ensures OnTime(CreateAs(s, c, priority), d, due) && d !in CreateAs(s, c, priority).pending
    ensures Waits(CreateAs(s, c, priority), d) <==> Waits(s, d)
  {
    hide Core, Waits, Listed, IsReady;
    CreateKeeps(s, c, priority);
  }

  lemma StepFor(s: State, step: Step, c: CoRoutine, due: nat)
    requires Good(s) && Allowed(s, step) && Spares(s, step, c) && OnTime(s, c, due) && c !in s.pending
    ensures OnTime(Apply(s, step), c, due) && c !in Apply(s, step).pending
    ensures Waits(Apply(s, step), c) ==> Waits(s, c)
  {
    hide Core, TimeAt, Delay, CreateAs, Waits, OnTime;
    match step
    case Create(d, p) => CreateFor(s, d, p, c, due);
    case DelaySelf(d, what) => DelayFor(s, d, what, c, due);
    case SignalEvent(e) => SignalFor(s, e, c, due);
    case RunScheduler(now) =>
      ScheduleFor(s, now, c, due);
      SchedulePending(s, now, c);
  }

  lemma {:induction false} WakeDuePending(s: State, c: CoRoutine)
    requires c !in s.pending
    ensures c !in WakeDue(s).pending
    decreases |s.delayed|
  {
    if s.delayed != [] && s.tick >= s.delayed[0].value {
      WakeDuePending(WakeHead(s), c);
    }
  }

  lemma {:induction false} CatchUpPending(s: State, n: nat, c: CoRoutine)
    requires c !in s.pending
    ensures c !in CatchUp(s, n).pending
  {
    hide WakeDue;
    if n > 0 {
      CatchUpPending(s, n - 1, c);
      WakeDuePending(Advanced(CatchUp(s, n - 1)), c);
    }
  }

  lemma SchedulePending(s: State, now: nat, c: CoRoutine)
    ensures c !in Schedule(s, now).pending
  {
    hide CheckPending, CatchUp, Select;
    CheckPendingEmpties(s);
    CatchUpPending(CheckPending(s), Wrap(Wrap(now) - CheckPending(s).lastTick), c);
    SelectFrame(CheckDelayed(CheckPending(s), now));
  }

  /** No step of the run signals the co-routine, and none is a delay of its own. */
  predicate AllSpare(s: State, steps: seq<Step>, c: CoRoutine)
    requires Permitted(s, steps)
    decreases |steps|
  {
    steps == [] || (Spares(s, steps[0], c) && AllSpare(Apply(s, steps[0]), steps[1..], c))
  }

  /** Time-outs are exact: over any run in which its event is not signalled to it, a co-routine that
      waits until `due` is delayed while the tick has not reached `due`, and ready from then on. */
  lemma {:induction false} TimeoutsAreExact(s: State, steps: seq<Step>, c: CoRoutine, due: nat)
    requires Good(s) && Permitted(s, steps) && AllSpare(s, steps, c) && OnTime(s, c, due) && c !in s.pending
    ensures OnTime(Run(s, steps), c, due)
    decreases |steps|
  {
    hide Good, Apply, Allowed, Spares, OnTime;
    if steps != [] {
      StepKeeps(s, steps[0]);
      StepFor(s, steps[0], c, due);
      TimeoutsAreExact(Apply(s, steps[0]), steps[1..], c, due);
    }
  }

  /** The co-routine does not delay itself again. */
  predicate Leaves(s: State, steps: seq<Step>, c: CoRoutine)
    requires Permitted(s, steps)
    decreases |steps|
  {
    steps == [] || ((steps[0].DelaySelf? ==> s.current != c) && Leaves(Apply(s, steps[0]), steps[1..], c))
  }

  lemma CannotBeSignalled(s: State, step: Step, c: CoRoutine)
    requires Allowed(s, step) && !Waits(s, c) && (step.DelaySelf? ==> s.current != c)
    ensures Spares(s, step, c)
  {
    if step.SignalEvent? {
      assert Waiters(s, step.event)[0] in Waiters(s, step.event);
    }
  }

  /** Delays are exact: a co-routine that delays itself by `d` ticks is delayed for exactly `d`
      ticks, whatever the others and the interrupts do and however often the tick wraps. */
  lemma DelaysAreExact(s: State, d: nat, steps: seq<Step>)
    requires Good(s) && Allowed(s, DelaySelf(d, NoEvent))
    requires var s1 := Delay(s, d, NoEvent); Permitted(s1, steps) && Leaves(s1, steps, s.current)
    ensures OnTime(Run(Delay(s, d, NoEvent), steps), s.current, s.clock + d)
  {
    hide Good, Delay, OnTime;
    DelaySleeps(s, d, NoEvent);
    DelayIsStep(s, d, NoEvent);
    StepKeeps(s, DelaySelf(d, NoEvent));
    SleepersAreExact(Delay(s, d, NoEvent), steps, s.current, s.clock + d);
  }

  lemma DelayIsStep(s: State, d: nat, what: Waiting)
    requires Allowed(s, DelaySelf(d, what))
    ensures Apply(s, DelaySelf(d, what)) == Delay(s, d, what)
  {
  }

  lemma {:induction false} SleepersAreExact(s: State, steps: seq<Step>, c: CoRoutine, due: nat)
    requires Good(s) && Permitted(s, steps) && Leaves(s, steps, c) && OnTime(s, c, due) && !Waits(s, c)
    ensures OnTime(Run(s, steps), c, due)
    decreases |steps|
  {
    hide Good, Apply, Allowed, Spares, OnTime, Waits;
    if steps != [] {
      CannotBeSignalled(s, steps[0], c);
      PendingOnlyWaits(s, c);
      StepKeeps(s, steps[0]);
      StepFor(s, steps[0], c, due);
      SleepersAreExact(Apply(s, steps[0]), steps[1..], c, due);
    }
  }
}
