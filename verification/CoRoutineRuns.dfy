/** Histories of the co-routine scheduler: every co-routine is in exactly one place, the delayed
    lists are those of this turn of the tick and the next, and delays are exact. */
module CoRoutineRuns {
  import opened RingList
  import opened Ticks
  import opened TimedLists
  import opened CoRoutines

  // ---- What holds between steps ----

  ghost predicate ReadyOk(s: State) {
    forall p: Priority ::
      && RingList.Valid(s.ready[p])
      && forall c <- s.ready[p].items :: c in s.priorities && s.priorities[c] == p
  }

  ghost predicate TopOk(s: State) {
    forall p: Priority :: s.ready[p].items != [] ==> p <= s.top
  }

  function Listed(s: State, c: CoRoutine): seq<Entry> {
    Of(s.delayed, c) + Of(s.overflow, c)
  }

  /** A co-routine is on a ready list or, with one entry, on one of the delayed lists. */
  ghost predicate Placed(s: State, c: CoRoutine) {
    if c in s.priorities then |Listed(s, c)| <= 1 && (IsReady(s, c) <==> Listed(s, c) == []) else Listed(s, c) == []
  }

  ghost predicate AllPlaced(s: State) {
    forall c :: Placed(s, c)
  }

  /** The order of an event list: the more urgent first, and nobody twice. */
  ghost predicate Before(s: State, c: CoRoutine, d: CoRoutine) {
    c != d && PriorityOf(s, c) >= PriorityOf(s, d)
  }

  ghost predicate InOrder(s: State, l: seq<CoRoutine>) {
    forall i, j :: 0 <= i < j < |l| ==> Before(s, l[i], l[j])
  }

  ghost predicate WaitersOk(s: State, e: EventList) {
    InOrder(s, Waiters(s, e)) && forall c <- Waiters(s, e) :: c !in s.pending
  }

  /** An event item is on one list only, and event lists have the most urgent waiter first. */
  ghost predicate Apart(s: State) {
    && NoDup(s.pending) && (forall e :: WaitersOk(s, e))
    && (forall e, f :: e != f ==> forall c <- Waiters(s, e) :: c !in Waiters(s, f))
  }

  ghost predicate Waits(s: State, c: CoRoutine) {
    c in s.pending || exists e :: c in Waiters(s, e)
  }

  /** Whoever waits for an event is delayed too. */
  ghost predicate WaitersSleep(s: State) {
    forall c :: Waits(s, c) ==> Listed(s, c) != []
  }

  ghost predicate Core(s: State) {
    ReadyOk(s) && TopOk(s) && AllPlaced(s) && Apart(s) && WaitersSleep(s)
  }

  /** The delayed list is this turn's and all later than `bound`; the overflow list is the next turn's. */
  ghost predicate TimeAt(s: State, bound: int) {
    && s.tick == Wrap(s.clock)
    && ListOk(s.delayed, Epoch(s.clock)) && ListOk(s.overflow, Epoch(s.clock) + 1)
    && (forall e <- s.delayed :: bound < e.due)
  }

  ghost predicate Good(s: State) {
    Core(s) && TimeAt(s, s.clock) && s.lastTick == s.tick
  }

  // ---- Ready lists ----

  lemma AddReadyOk(s: State, c: CoRoutine)
    requires ReadyOk(s) && TopOk(s) && c in s.priorities && !IsReady(s, c)
    ensures var s1 := AddReady(s, c);
            ReadyOk(s1) && TopOk(s1) && forall d :: IsReady(s1, d) <==> d == c || IsReady(s, d)
  {
    hide RingList.Valid;
    var p := PriorityOf(s, c);
    InsertAtMembers(s.ready[p], EndPosition(s.ready[p]), c);
  }

  lemma UnlistReady(s: State, c: CoRoutine)
    requires ReadyOk(s) && TopOk(s)
    ensures var s1 := Unlist(s, c);
            ReadyOk(s1) && TopOk(s1) && forall d :: IsReady(s1, d) <==> d != c && IsReady(s, d)
  {
    hide RingList.Valid;
    var p := PriorityOf(s, c);
    if IsReady(s, c) {
      RemoveAtMembers(s.ready[p], IndexOf(s.ready[p].items, c));
    }
  }

  lemma UnlistListed(s: State, c: CoRoutine, d: CoRoutine)
    ensures Listed(Unlist(s, c), d) == if d == c then [] else Listed(s, d)
  {
    hide Of, Without;
    OfWithout(s.delayed, c, d);
    OfWithout(s.overflow, c, d);
  }

  // ---- Event lists ----

  lemma {:induction false} MinusInOrder(s: State, l: seq<CoRoutine>, c: CoRoutine)
    requires InOrder(s, l)
    ensures InOrder(s, Minus(l, c))
  {
    hide Before;
    if l != [] {
      assert forall i :: 0 <= i < |l[1..]| ==> l[1..][i] == l[i + 1];
      MinusInOrder(s, l[1..], c);
      forall d | d in l[1..]
        ensures Before(s, l[0], d)
      {
        assert d == l[1..][IndexOf(l[1..], d)];
      }
      FirstInOrder(s, l[0], Minus(l[1..], c));
    }
  }

  lemma FirstInOrder(s: State, c: CoRoutine, rest: seq<CoRoutine>)
    requires InOrder(s, rest) && forall d <- rest :: Before(s, c, d)
    ensures InOrder(s, [c] + rest)
  {
    hide Before;
    var l := [c] + rest;
    forall i, j | 0 <= i < j < |l|
      ensures Before(s, l[i], l[j])
    {
      assert rest[j - 1] in rest;
    }
  }

  lemma {:induction false} MinusNoDup(l: seq<CoRoutine>, c: CoRoutine)
    requires NoDup(l)
    ensures NoDup(Minus(l, c))
  {
    if l != [] {
      assert forall i :: 0 <= i < |l[1..]| ==> l[1..][i] == l[i + 1];
      MinusNoDup(l[1..], c);
      assert l[0] !in l[1..];
    }
  }

  /** After uxListRemove on the event item. */
  lemma ForgetOk(s: State, c: CoRoutine)
    requires Apart(s)
    ensures var s1 := Forget(s, c);
            Apart(s1) && !Waits(s1, c) && forall d :: d != c ==> (Waits(s1, d) <==> Waits(s, d))
  {
    hide InOrder, Before, Minus;
    var s1 := Forget(s, c);
    MinusNoDup(s.pending, c);
    forall e
      ensures WaitersOk(s1, e)
      ensures forall d :: d in Waiters(s1, e) <==> d in Waiters(s, e) && d != c
    {
      assert WaitersOk(s, e);
      MinusInOrder(s, Waiters(s, e), c);
      SameOrder(s, s1, Waiters(s1, e));
    }
  }

  lemma SameOrder(s: State, s1: State, l: seq<CoRoutine>)
    requires InOrder(s, l) && forall c <- l :: PriorityOf(s1, c) == PriorityOf(s, c)
    ensures InOrder(s1, l)
  {
    forall i, j | 0 <= i < j < |l|
      ensures Before(s1, l[i], l[j])
    {
      assert Before(s, l[i], l[j]) && l[i] in l && l[j] in l;
    }
  }

  // ---- Making a delayed co-routine ready ----

  /** `c` has gone from its delayed list to its ready list, and nothing else has changed. */
  ghost predicate MadeReady(s: State, s1: State, c: CoRoutine) {
    && s1.priorities == s.priorities && s1.tick == s.tick && s1.clock == s.clock && s1.lastTick == s.lastTick
    && Listed(s1, c) == [] && IsReady(s1, c) && !Waits(s1, c)
    && (forall d :: d != c ==>
          Listed(s1, d) == Listed(s, d) && (IsReady(s1, d) <==> IsReady(s, d)) && (Waits(s1, d) <==> Waits(s, d)))
  }

  lemma MadeReadyCore(s: State, s1: State, c: CoRoutine)
    requires Core(s) && MadeReady(s, s1, c) && Listed(s, c) != []
    requires ReadyOk(s1) && TopOk(s1) && Apart(s1)
    ensures Core(s1)
  {
    hide ReadyOk, TopOk, Apart, Waits, Listed, IsReady;
    assert Placed(s, c);
    forall d
      ensures Placed(s1, d)
    {
      assert Placed(s, d);
    }
  }

  lemma HeadListed(s: State)
    requires AllPlaced(s) && s.delayed != []
    ensures var c := s.delayed[0].owner;
            && Listed(s, c) == [s.delayed[0]] && Of(s.delayed[1..], c) == [] && Of(s.overflow, c) == []
            && c in s.priorities && !IsReady(s, c)
  {
    var c := s.delayed[0].owner;
    assert Placed(s, c);
    assert |Listed(s, c)| == 1 + |Of(s.delayed[1..], c)| + |Of(s.overflow, c)|;
  }

  /** AddReady leaves the delayed lists and event lists alone. */
  lemma AddReadyMadeReady(s: State, s0: State, c: CoRoutine)
    requires Core(s) && Listed(s, c) != []
    requires s0.priorities == s.priorities && s0.tick == s.tick && s0.clock == s.clock && s0.lastTick == s.lastTick
    requires ReadyOk(s0) && TopOk(s0) && Apart(s0) && c in s0.priorities && !IsReady(s0, c) && !Waits(s0, c)
             && Listed(s0, c) == []
    requires forall d :: d != c ==>
               Listed(s0, d) == Listed(s, d) && (IsReady(s0, d) <==> IsReady(s, d)) && (Waits(s0, d) <==> Waits(s, d))
    ensures var s1 := AddReady(s0, c); MadeReady(s, s1, c) && Core(s1)
  {
    hide ReadyOk, TopOk, IsReady, Of, Apart, WaitersSleep;
    var s1 := AddReady(s0, c);
    AddReadyOk(s0, c);
    AddReadyApart(s0, c);
    SameWaits(s0, s1);
    MadeReadyCore(s, s1, c);
  }

  lemma AddReadyApart(s: State, c: CoRoutine)
    requires Apart(s)
    ensures Apart(AddReady(s, c))
  {
    SameApart(s, AddReady(s, c));
  }

  lemma SameApart(s: State, s1: State)
    requires Apart(s) && s1.pending == s.pending && s1.events == s.events && s1.priorities == s.priorities
    ensures Apart(s1)
  {
    hide InOrder;
    assert forall e :: Waiters(s1, e) == Waiters(s, e);
    forall e
      ensures WaitersOk(s1, e)
    {
      assert WaitersOk(s, e);
      SameOrder(s, s1, Waiters(s, e));
    }
  }

  lemma WakeHeadKeeps(s: State)
    requires Core(s) && s.delayed != []
    ensures var s1 := WakeHead(s);
            && MadeReady(s, s1, s.delayed[0].owner) && Core(s1)
            && s1.delayed == s.delayed[1..] && s1.overflow == s.overflow
  {
    hide ReadyOk, TopOk, Apart, WaitersSleep, AddReady, Waits;
    var c := s.delayed[0].owner;
    HeadListed(s);
    var s0 := Forget(s.(delayed := s.delayed[1..]), c);
    SameApart(s, s.(delayed := s.delayed[1..]));
    SameWaits(s, s.(delayed := s.delayed[1..]));
    ForgetOk(s.(delayed := s.delayed[1..]), c);
    SameReady(s, s0);
    AddReadyMadeReady(s, s0, c);
    AddReadyLists(s0, c);
  }

  lemma SameWaits(s: State, s1: State)
    requires s1.pending == s.pending && s1.events == s.events
    ensures forall d :: Waits(s1, d) <==> Waits(s, d)
  {
    assert forall e :: Waiters(s1, e) == Waiters(s, e);
  }

  lemma SameReady(s: State, s1: State)
    requires s1.ready == s.ready && s1.priorities == s.priorities && s1.top == s.top
    ensures ReadyOk(s) ==> ReadyOk(s1)
    ensures TopOk(s) ==> TopOk(s1)
    ensures forall d :: IsReady(s1, d) <==> IsReady(s, d)
  {
  }

  lemma AddReadyLists(s: State, c: CoRoutine)
    ensures AddReady(s, c).delayed == s.delayed && AddReady(s, c).overflow == s.overflow
  {
  }

  lemma MovePendingKeeps(s: State)
    requires Core(s) && s.pending != []
    ensures var s1 := MovePending(s);
            && MadeReady(s, s1, s.pending[0]) && Core(s1)
            && s1.delayed == Without(s.delayed, s.pending[0]) && s1.overflow == Without(s.overflow, s.pending[0])
  {
    hide ReadyOk, TopOk, Apart, AddReady, Listed, Waits, IsReady;
    var c := s.pending[0];
    var s0 := Forget(s, c);
    var s2 := Unlist(s0, c);
    assert Waits(s, c) by { PendingWaits(s, c); }
    assert Placed(s, c);
    ForgetOk(s, c);
    SameReady(s, s0);
    UnlistReady(s0, c);
    SameApart(s0, s2);
    SameWaits(s0, s2);
    forall d
      ensures Listed(s2, d) == if d == c then [] else Listed(s, d)
    {
      UnlistListed(s0, c, d);
      SameListed(s, s0, d);
    }
    AddReadyMadeReady(s, s2, c);
    AddReadyLists(s2, c);
  }

  lemma PendingWaits(s: State, c: CoRoutine)
    requires c in s.pending
    ensures Waits(s, c)
  {
  }

  lemma SameListed(s: State, s1: State, c: CoRoutine)
    requires s1.delayed == s.delayed && s1.overflow == s.overflow
    ensures Listed(s1, c) == Listed(s, c)
  {
  }

  // ---- One tick ----

  /** Delayed, and by its entry until time `due`. */
  ghost predicate Sleeps(s: State, c: CoRoutine, due: nat) {
    c in s.priorities && Listed(s, c) == [Entry(c, Wrap(due), due)]
  }

  ghost predicate Awake(s: State, c: CoRoutine) {
    c in s.priorities && Listed(s, c) == [] && IsReady(s, c)
  }

  /** Delayed until `due`, or ready if that time has come. */
  ghost predicate OnTime(s: State, c: CoRoutine, due: nat) {
    if s.clock < due then Sleeps(s, c, due) else Awake(s, c)
  }

  /** Everything on the lists is later than the bound. */
  lemma SleepsAfter(s: State, c: CoRoutine, due: nat, bound: int)
    requires TimeAt(s, bound) && Sleeps(s, c, due) && bound <= s.clock
    ensures bound < due
  {
    hide ListOk, Wrap;
    var e := Entry(c, Wrap(due), due);
    assert e in Listed(s, c);
    if e in Of(s.delayed, c) {
      OfIsIn(s.delayed, c, e);
    } else {
      OfIsIn(s.overflow, c, e);
      OfNextTurn(s, e);
    }
  }

  lemma OfNextTurn(s: State, e: Entry)
    requires ListOk(s.overflow, Epoch(s.clock) + 1) && e in s.overflow
    ensures s.clock < e.due
  {
    LaterTurn(s.clock, e.due);
  }

  lemma WakeHeadTime(s: State)
    requires Core(s) && TimeAt(s, s.clock - 1) && s.delayed != [] && s.delayed[0].value <= s.tick
    ensures TimeAt(WakeHead(s), s.clock - 1) && s.delayed[0].due == s.clock
  {
    hide Core, ListOk, AddReady, Forget, Wrap, Epoch;
    WakeHeadKeeps(s);
    TailOk(s.delayed, Epoch(s.clock));
    assert EntryOk(s.delayed[0], Epoch(s.clock));
    ReachedInTurn(s.delayed[0].due, s.clock);
  }

  lemma NothingDue(s: State)
    requires TimeAt(s, s.clock - 1) && (s.delayed == [] || s.tick < s.delayed[0].value)
    ensures TimeAt(s, s.clock)
  {
    hide Wrap, Epoch;
    forall e | e in s.delayed
      ensures s.clock < e.due
    {
      TailOk(s.delayed, Epoch(s.clock));
      ReachedInTurn(e.due, s.clock);
    }
  }

  lemma {:induction false} WakeDueKeeps(s: State)
    requires Core(s) && TimeAt(s, s.clock - 1)
    ensures var s1 := WakeDue(s);
            && Core(s1) && TimeAt(s1, s1.clock)
            && s1.clock == s.clock && s1.lastTick == s.lastTick && s1.priorities == s.priorities
    decreases |s.delayed|
  {
    hide Core, TimeAt, WakeHead;
    if s.delayed == [] || s.tick < s.delayed[0].value {
      NothingDue(s);
    } else {
      WakeHeadKeeps(s);
      WakeHeadTime(s);
      WakeDueKeeps(WakeHead(s));
    }
  }

  lemma WakeHeadFor(s: State, c: CoRoutine, due: nat)
    requires Core(s) && TimeAt(s, s.clock - 1) && s.delayed != [] && s.delayed[0].value <= s.tick
    requires Sleeps(s, c, due) || (due <= s.clock && Awake(s, c))
    ensures var s1 := WakeHead(s); Sleeps(s1, c, due) || (due <= s.clock && Awake(s1, c))
  {
    hide Core, TimeAt, WakeHead, IsReady, Waits, Listed;
    WakeHeadKeeps(s);
    WakeHeadTime(s);
    if s.delayed[0].owner == c {
      assert Core(s) ==> AllPlaced(s) by { CorePlaced(s); }
      HeadListed(s);
    }
  }

  lemma CorePlaced(s: State)
    requires Core(s)
    ensures AllPlaced(s)
  {
  }

  lemma {:induction false} WakeDueFor(s: State, c: CoRoutine, due: nat)
    requires Core(s) && TimeAt(s, s.clock - 1)
    requires Sleeps(s, c, due) || (due <= s.clock && Awake(s, c))
    ensures OnTime(WakeDue(s), c, due)
    decreases |s.delayed|
  {
    hide Core, TimeAt, WakeHead, Sleeps, Awake;
    if s.delayed == [] || s.tick < s.delayed[0].value {
      NothingDue(s);
      if Sleeps(s, c, due) {
        SleepsAfter(s, c, due, s.clock);
      }
    } else {
      WakeHeadFor(s, c, due);
      WakeHeadKeeps(s);
      WakeHeadTime(s);
      WakeDueFor(WakeHead(s), c, due);
    }
  }

  /** When the tick wraps nobody is left on the delayed list. */
  lemma NobodyLeftAtWrap(s: State)
    requires TimeAt(s, s.clock) && Wrap(s.clock + 1) == 0
    ensures s.delayed == []
  {
    hide Wrap, Epoch;
    if s.delayed != [] {
      TailOk(s.delayed, Epoch(s.clock));
      var e := s.delayed[0];
      assert e in s.delayed && s.clock < e.due;
      NextTick(s.clock);
      ReachedInTurn(e.due, s.clock);
      assert false;
    }
  }

  lemma AdvancedTime(s: State)
    requires TimeAt(s, s.clock)
    ensures var s1 := Advanced(s); TimeAt(s1, s1.clock - 1) && s1.clock == s.clock + 1
  {
    hide Wrap, Epoch, ListOk;
    NextTick(s.clock);
    if Wrap(s.clock + 1) == 0 {
      NobodyLeftAtWrap(s);
      NothingListed(Epoch(s.clock) + 2);
      forall e | e in s.overflow
        ensures s.clock < e.due
      {
        OfNextTurn(s, e);
      }
    }
  }

  lemma AdvancedFor(s: State, c: CoRoutine)
    requires AllPlaced(s)
    ensures Listed(Advanced(s), c) == Listed(s, c)
  {
    hide Of, IsReady, Wrap;
    assert Placed(s, c);
    var a, b := Of(s.delayed, c), Of(s.overflow, c);
    assert |Listed(s, c)| == |a| + |b|;
    assert a == [] || b == [];
  }

  lemma AdvancedKeeps(s: State)
    requires Core(s)
    ensures Core(Advanced(s))
  {
    hide ReadyOk, TopOk, Apart, Waits, Listed, IsReady, Wrap;
    var s1 := Advanced(s);
    SameReady(s, s1);
    SameApart(s, s1);
    SameWaits(s, s1);
    forall c
      ensures Listed(s1, c) == Listed(s, c) && Placed(s1, c)
    {
      AdvancedFor(s, c);
      assert Placed(s, c);
    }
  }

  lemma TickKeeps(s: State)
    requires Core(s) && TimeAt(s, s.clock)
    ensures var s1 := Tick(s);
            Core(s1) && TimeAt(s1, s1.clock) && s1.clock == s.clock + 1 && s1.priorities == s.priorities
            && s1.lastTick == s.lastTick
  {
    hide Core, TimeAt, WakeDue;
    AdvancedKeeps(s);
    AdvancedTime(s);
    WakeDueKeeps(Advanced(s));
  }

  /** One tick on, a co-routine is still where its delay says it should be. */
  lemma TickFor(s: State, c: CoRoutine, due: nat)
    requires Core(s) && TimeAt(s, s.clock) && OnTime(s, c, due)
    ensures OnTime(Tick(s), c, due)
  {
    hide Core, TimeAt, WakeDue, Listed, IsReady;
    CorePlaced(s);
    AdvancedFor(s, c);
    SameReady(s, Advanced(s));
    AdvancedKeeps(s);
    AdvancedTime(s);
    WakeDueFor(Advanced(s), c, due);
  }

  lemma {:induction false} CatchUpKeeps(s: State, n: nat)
    requires Core(s) && TimeAt(s, s.clock)
    ensures var s1 := CatchUp(s, n);
            Core(s1) && TimeAt(s1, s1.clock) && s1.clock == s.clock + n && s1.priorities == s.priorities
            && s1.lastTick == s.lastTick
  {
    hide Core, TimeAt, Tick;
    if n > 0 {
      CatchUpKeeps(s, n - 1);
      TickKeeps(CatchUp(s, n - 1));
    }
  }

  /** A delayed co-routine becomes ready on exactly the tick its delay ends on: after `n` ticks,
      for any `n` and over any number of wraps, it is ready if and only if its time has come. */
  lemma {:induction false} WokenOnTime(s: State, c: CoRoutine, due: nat, n: nat)
    requires Core(s) && TimeAt(s, s.clock) && OnTime(s, c, due)
    ensures OnTime(CatchUp(s, n), c, due)
  {
    hide Core, TimeAt, OnTime, Tick;
    if n > 0 {
      WokenOnTime(s, c, due, n - 1);
      CatchUpKeeps(s, n - 1);
      TickFor(CatchUp(s, n - 1), c, due);
    }
  }

  /** The scheduler catches up with the kernel exactly if it is less than a turn of the tick behind. */
  lemma CatchesUpExactlyWhen(s: State, now: nat)
    requires Good(s) && s.clock <= now
    ensures CheckDelayed(s, now).clock == now <==> now < s.clock + TICKS
  {
    hide Core, TimeAt, CatchUp, Wrap, Epoch;
    var n := Wrap(now - s.clock);
    GoodTick(s);
    WrapDifference(s.clock, now);
    CatchUpKeeps(s, n);
    if now < s.clock + TICKS {
      SmallWrap(now - s.clock);
    }
  }

  lemma GoodTick(s: State)
    requires Good(s)
    ensures s.lastTick == Wrap(s.clock)
  {
    hide Core, Wrap;
  }
}
