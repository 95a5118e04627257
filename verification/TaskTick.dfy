/** The tick: xTaskIncrementTick, the list switch when the 32-bit tick wraps, and the catching up
    of ticks that came while the scheduler was suspended. */
module TaskTick {
  import opened RingList
  import opened Ticks
  import opened ItemStore
  import opened TaskState

  /** prvResetNextTaskUnblockTime */
  function ResetNextUnblock(s: State): State {
    var items := Items(s, CurrentDelayed(s));
    s.(nextUnblock := if items == [] then MAX_DELAY else Value(s.store, items[0]))
  }

  /** taskSWITCH_DELAYED_LISTS */
  function SwitchLists(s: State): State {
    ResetNextUnblock(s.(firstIsCurrent := !s.firstIsCurrent, overflows := s.overflows + 1))
  }

  /** Takes the head of the delayed list off, and off any event list, and makes it ready. */
  function WakeHead(s: State): State
    requires Items(s, CurrentDelayed(s)) != []
  {
    var t := Items(s, CurrentDelayed(s))[0].task;
    AddToReady(DropEvent(TakeOff(s, t), t), t)
  }

  /** Wakes every task whose time has come; the next one's time becomes the next unblock time. */
  function WakeExpired(s: State): (s1: State)
    requires Consistent(s.store)
    ensures Consistent(s1.store)
    decreases |Items(s, CurrentDelayed(s))|
  {
    var items := Items(s, CurrentDelayed(s));
    if items == [] then
      s.(nextUnblock := MAX_DELAY)
    else if s.tick < Value(s.store, items[0]) then
      s.(nextUnblock := Value(s.store, items[0]))
    else
      WakeHeadMoves(s);
      WakeExpired(WakeHead(s))
  }

  /** The state after the tick has moved on and before anybody is woken. */
  function Ticked(s: State): State {
    var s1 := s.(tick := Wrap(s.tick + 1), clock := s.clock + 1);
    if s1.tick == 0 then SwitchLists(s1) else s1
  }

  /** xTaskIncrementTick while the scheduler is not suspended */
  function IncrementTick(s: State): (s1: State)
    requires Consistent(s.store)
    ensures Consistent(s1.store)
  {
    var s1 := Ticked(s);
    if s1.tick >= s1.nextUnblock then WakeExpired(s1) else s1
  }

  lemma HeadOfDelayed(s: State)
    requires Consistent(s.store) && Items(s, CurrentDelayed(s)) != []
    ensures var i := Items(s, CurrentDelayed(s))[0];
            i.Generic? && PlaceOf(s.store, i) == On(CurrentDelayed(s))
  {
    assert Member(s.store, Items(s, CurrentDelayed(s))[0], CurrentDelayed(s));
  }

  lemma WakeHeadMoves(s: State)
    requires Consistent(s.store) && Items(s, CurrentDelayed(s)) != []
    ensures Consistent(WakeHead(s).store)
    ensures WakeHead(s).firstIsCurrent == s.firstIsCurrent
    ensures |Items(WakeHead(s), CurrentDelayed(s))| == |Items(s, CurrentDelayed(s))| - 1
  {
    var t := Items(s, CurrentDelayed(s))[0].task;
    HeadOfDelayed(s);
    var s1 := TakeOff(s, t);
    DetachKeeps(s.store, Generic(t));
    var s2 := DropEvent(s1, t);
    EventListsOnly(s1.store, t);
    hide Consistent;
    if WaitOf(s1, t).On? {
      DetachKeeps(s1.store, Event(t));
    }
    AttachKeeps(s2.store, Generic(t), Ready(PriorityOf(s2, t)), EndPosition(At(s2.store, Ready(PriorityOf(s2, t)))));
  }

  lemma EventListsOnly(st: Store, t: Task)
    requires Consistent(st)
    ensures PlaceOf(st, Event(t)).On? ==> !IsStateList(PlaceOf(st, Event(t)).list)
  {
  }

  // ---- Waking ----

  ghost predicate Owned(s: State) {
    forall t :: StateOf(s, t).On? ==> t in s.tcbs
  }

  /** Task `t` has been woken, from its state list and from any event list, and nobody else has moved. */
  ghost predicate Woken(s: State, s1: State, t: Task) {
    && s1.tcbs == s.tcbs
    && s1 == s.(store := s1.store, bits := s1.bits, top := s1.top)
    && (forall i :: PlaceOf(s1.store, i) ==
          if i == Generic(t) then On(Ready(PriorityOf(s, t))) else if i == Event(t) then Nowhere
          else PlaceOf(s.store, i))
    && (forall i :: Value(s1.store, i) == Value(s.store, i))
    && (StateOf(s, t) != On(Termination) ==> Items(s1, Termination) == Items(s, Termination))
  }

  lemma WakeHeadKeeps(s: State, bound: int)
    requires CoreAt(s, bound) && Owned(s) && Items(s, CurrentDelayed(s)) != []
    ensures CoreAt(WakeHead(s), bound) && Owned(WakeHead(s))
    ensures Woken(s, WakeHead(s), Items(s, CurrentDelayed(s))[0].task)
  {
    hide Consistent, ReadyOk, TimeAt, AddToReady, DropEvent, TakeOff;
    var t := Items(s, CurrentDelayed(s))[0].task;
    HeadOfDelayed(s);
    WakeKeeps(s, t, bound);
    OwnedAfterWaking(s, WakeHead(s), t);
  }

  lemma OwnedAfterWaking(s: State, s1: State, t: Task)
    requires Owned(s) && Woken(s, s1, t) && StateOf(s, t).On?
    ensures Owned(s1)
  {
  }

  /** Makes a task ready that is on a delayed list or suspended. */
  lemma WakeKeeps(s: State, t: Task, bound: int)
    requires CoreAt(s, bound) && t in s.tcbs
    requires StateOf(s, t).On? && !StateOf(s, t).list.Ready?
    ensures CoreAt(AddToReady(DropEvent(TakeOff(s, t), t), t), bound)
    ensures Woken(s, AddToReady(DropEvent(TakeOff(s, t), t), t), t)
  {
    hide Consistent, SortedList, ReadyOk, TimeAt, TakeOff, DropEvent, AddToReady, Woken, OnlyMoved;
    var s1 := TakeOff(s, t);
    TakeOffKeeps(s, t, bound);
    TakeOffKeepsValues(s, t);
    var s2 := DropEvent(s1, t);
    DropEventKeeps(s1, t, bound);
    assert StateOf(s2, t) == Nowhere && s2.tcbs == s.tcbs by { MovedOff(s, s1, s2, t); }
    AddToReadyKeeps(s2, t, bound);
    TakeOffKeepsValues(s2, t);
    WokenInSteps(s, s1, s2, AddToReady(s2, t), t);
  }

  lemma MovedOff(s: State, s1: State, s2: State, t: Task)
    requires OnlyMoved(s, s1, t, Nowhere) && s2 == s1.(store := s2.store)
    requires forall i :: PlaceOf(s2.store, i) == if i == Event(t) then Nowhere else PlaceOf(s1.store, i)
    ensures StateOf(s2, t) == Nowhere && s2.tcbs == s.tcbs
  {
  }

  /** Off the list, off the event list, and onto the ready list: the task has been woken. */
  lemma WokenInSteps(s: State, s1: State, s2: State, s3: State, t: Task)
    requires StateOf(s, t).On? && !StateOf(s, t).list.Ready?
    requires OnlyMoved(s, s1, t, Nowhere) && s1.nextUnblock == s.nextUnblock
    requires s2 == s1.(store := s2.store) && s3.nextUnblock == s2.nextUnblock
    requires forall i :: PlaceOf(s2.store, i) == if i == Event(t) then Nowhere else PlaceOf(s1.store, i)
    requires forall l :: IsStateList(l) ==> At(s2.store, l) == At(s1.store, l)
    requires OnlyMoved(s2, s3, t, On(Ready(PriorityOf(s2, t))))
    requires forall i :: Value(s1.store, i) == Value(s.store, i)
    requires forall i :: Value(s2.store, i) == Value(s1.store, i)
    requires forall i :: Value(s3.store, i) == Value(s2.store, i)
    ensures Woken(s, s3, t)
  {
    assert Items(s2, Termination) == Items(s1, Termination);
  }

  lemma TakeOffKeepsValues(s: State, t: Task)
    ensures forall i :: Value(TakeOff(s, t).store, i) == Value(s.store, i)
    ensures forall i :: Value(AddToReady(s, t).store, i) == Value(s.store, i)
  {
  }

  /** The head of a sorted delayed list is the earliest. */
  lemma HeadIsEarliest(s: State)
    requires Consistent(s.store) && SortedList(s.store, CurrentDelayed(s))
    ensures Items(s, CurrentDelayed(s)) == [] ==> forall i :: PlaceOf(s.store, i) != On(CurrentDelayed(s))
    ensures Items(s, CurrentDelayed(s)) != [] ==>
              forall i :: PlaceOf(s.store, i) == On(CurrentDelayed(s))
                          ==> Value(s.store, Items(s, CurrentDelayed(s))[0]) <= Value(s.store, i)
  {
    var items := Items(s, CurrentDelayed(s));
    var values := Values(s.store, items);
    forall i | PlaceOf(s.store, i) == On(CurrentDelayed(s))
      ensures items != [] && Value(s.store, items[0]) <= Value(s.store, i)
    {
      assert Member(s.store, i, CurrentDelayed(s));
      var k := IndexOf(items, i);
      assert values[0] <= values[k];
    }
  }

  /** The next unblock time is the earliest wake time of this turn. */
  ghost predicate IsNextUnblock(s: State) {
    && (forall i :: PlaceOf(s.store, i) == On(CurrentDelayed(s)) ==> s.nextUnblock <= Value(s.store, i))
    && if Items(s, CurrentDelayed(s)) == [] then s.nextUnblock == MAX_DELAY
       else exists i :: PlaceOf(s.store, i) == On(CurrentDelayed(s)) && s.nextUnblock == Value(s.store, i)
  }

  lemma ResetIsNext(s: State)
    requires Consistent(s.store) && SortedList(s.store, CurrentDelayed(s))
    ensures IsNextUnblock(ResetNextUnblock(s))
  {
    HeadIsEarliest(s);
    if Items(s, CurrentDelayed(s)) != [] {
      HeadOfDelayed(s);
      assert PlaceOf(s.store, Items(s, CurrentDelayed(s))[0]) == On(CurrentDelayed(s));
    }
  }

  lemma ResetNextUnblockKeeps(s: State, s0: State, bound: int)
    requires s0 == s.(nextUnblock := s0.nextUnblock) && s0.nextUnblock == 0
    requires CoreAt(s0, bound)
    ensures CoreAt(ResetNextUnblock(s), bound)
  {
    HeadIsEarliest(s);
    if Items(s, CurrentDelayed(s)) != [] {
      HeadOfDelayed(s);
    }
    hide Consistent, SortedList;
    MarksFrame(s0, ResetNextUnblock(s));
  }

  ghost predicate Due(s: State, t: Task) {
    StateOf(s, t) == On(CurrentDelayed(s)) && Value(s.store, Generic(t)) <= s.tick
  }

  /** Every due task has been woken and nobody else has moved. */
  ghost predicate AllDueWoken(s: State, s1: State) {
    && s1.tcbs == s.tcbs
    && s1 == s.(store := s1.store, bits := s1.bits, top := s1.top, nextUnblock := s1.nextUnblock)
    && (forall t :: StateOf(s1, t) == if Due(s, t) then On(Ready(PriorityOf(s, t))) else StateOf(s, t))
    && (forall t :: WaitOf(s1, t) == if Due(s, t) then Nowhere else WaitOf(s, t))
    && (forall i :: Value(s1.store, i) == Value(s.store, i))
    && Items(s1, Termination) == Items(s, Termination)
  }

  lemma WokenThenAll(s: State, s1: State, s2: State, t: Task)
    requires Due(s, t) && Woken(s, s1, t) && AllDueWoken(s1, s2)
    ensures AllDueWoken(s, s2)
  {
    forall u
      ensures Due(s, u) <==> u == t || Due(s1, u)
      ensures PriorityOf(s1, u) == PriorityOf(s, u)
    {
    }
  }

  lemma NothingDue(s: State)
    requires Consistent(s.store) && SortedList(s.store, CurrentDelayed(s))
    requires var items := Items(s, CurrentDelayed(s)); items == [] || s.tick < Value(s.store, items[0])
    ensures forall t :: !Due(s, t)
  {
    HeadIsEarliest(s);
  }

  lemma NothingLeft(s: State)
    requires CoreAt(s, s.tick - 1)
    requires var items := Items(s, CurrentDelayed(s)); items == [] || s.tick < Value(s.store, items[0])
    ensures Core(ResetNextUnblock(s))
    ensures AllDueWoken(s, ResetNextUnblock(s))
  {
    LowerUnblockKeeps(s, 0, s.tick - 1);
    ResetNextUnblockKeeps(s, s.(nextUnblock := 0), s.tick - 1);
    HeadIsEarliest(s);
    NothingDue(s);
  }

  lemma {:induction false} WakeExpiredKeeps(s: State)
    requires CoreAt(s, s.tick - 1) && Owned(s)
    ensures Core(WakeExpired(s))
    ensures AllDueWoken(s, WakeExpired(s))
    decreases |Items(s, CurrentDelayed(s))|
  {
    var items := Items(s, CurrentDelayed(s));
    if items == [] || s.tick < Value(s.store, items[0]) {
      NothingLeft(s);
    } else {
      HeadOfDelayed(s);
      WakeHeadMoves(s);
      WakeHeadKeeps(s, s.tick - 1);
      hide Consistent, SortedList, WakeHead;
      WakeExpiredKeeps(WakeHead(s));
      WokenThenAll(s, WakeHead(s), WakeExpired(s), items[0].task);
    }
  }

  lemma LowerUnblockKeeps(s: State, u: nat, bound: int)
    requires CoreAt(s, bound) && u <= s.nextUnblock
    ensures CoreAt(s.(nextUnblock := u), bound)
  {
    hide Consistent, SortedList;
    MarksFrame(s, s.(nextUnblock := u));
  }

  // ---- What a tick does to one delayed task ----

  ghost predicate IsDelayed(s: State, t: Task) {
    StateOf(s, t).On? && StateOf(s, t).list.Delayed?
  }

  /** The unbounded time at which a delayed task is to wake: its item value, in this epoch or the
      next. */
  ghost function WakeTime(s: State, t: Task): nat
    requires IsDelayed(s, t)
  {
    var epoch := Epoch(s.clock) + if StateOf(s, t).list == CurrentDelayed(s) then 0 else 1;
    epoch * TICKS + Value(s.store, Generic(t))
  }

  /** The delayed list is empty whenever the tick wraps: the configASSERT of the list switch holds. */
  lemma DelayedListEmptyAtWrap(s: State)
    requires Core(s) && Wrap(s.tick + 1) == 0
    ensures Items(s, CurrentDelayed(s)) == []
  {
    if Items(s, CurrentDelayed(s)) != [] {
      HeadOfDelayed(s);
    }
  }

  /** The state in the middle of a list switch, before the next unblock time is set. */
  function Switched(s: State): State {
    s.(tick := 0, clock := s.clock + 1, firstIsCurrent := !s.firstIsCurrent, overflows := s.overflows + 1)
  }

  lemma SwitchedTime(s: State)
    requires Core(s) && s.tick == MAX_DELAY
    ensures TimeAt(Switched(s).(nextUnblock := 0), -1)
  {
    NextTick(s.clock);
    DelayedListEmptyAtWrap(s);
    HeadIsEarliest(s);
    hide Consistent, SortedList, Wrap, Epoch, Items;
  }

  lemma SwitchKeeps(s: State)
    requires Core(s) && s.tick == MAX_DELAY
    ensures Ticked(s).tick == 0 && CoreAt(Ticked(s), -1)
  {
    NextTick(s.clock);
    var s2 := Switched(s);
    SwitchedTime(s);
    hide Consistent, SortedList, Wrap, Epoch, TimeAt;
    MarksFrame(s, s2.(nextUnblock := 0));
    ResetNextUnblockKeeps(s2, s2.(nextUnblock := 0), -1);
  }

  /** The tick has gone from its last value to 0 and nothing else has happened yet. */
  ghost predicate JustWrapped(s: State) {
    s.tick == 0 && s.clock > 0 && Core(s.(tick := MAX_DELAY, clock := s.clock - 1))
  }

  lemma SwitchedIsCore(s: State)
    requires JustWrapped(s)
    ensures CoreAt(SwitchLists(s), -1) && IsNextUnblock(SwitchLists(s))
  {
    var s0 := s.(tick := MAX_DELAY, clock := s.clock - 1);
    SwitchKeeps(s0);
    assert Ticked(s0) == SwitchLists(s);
    hide Consistent, SortedList, Wrap, Epoch;
    ResetIsNext(s.(firstIsCurrent := !s.firstIsCurrent, overflows := s.overflows + 1));
  }

  lemma TickedKeeps(s: State)
    requires Core(s)
    ensures CoreAt(Ticked(s), Ticked(s).tick - 1)
  {
    NextTick(s.clock);
    if s.tick == MAX_DELAY {
      SwitchKeeps(s);
    } else {
      hide Consistent, SortedList, Wrap, Epoch;
      MarksFrame(s, Ticked(s));
    }
  }

  lemma IncrementTickKeeps(s: State)
    requires Core(s) && Owned(s)
    ensures Core(IncrementTick(s)) && Owned(IncrementTick(s))
    ensures AllDueWoken(Ticked(s), IncrementTick(s))
  {
    TickedKeeps(s);
    var s1 := Ticked(s);
    assert Owned(s1);
    hide Consistent, SortedList, Ticked;
    if s1.tick >= s1.nextUnblock {
      WakeExpiredKeeps(s1);
    }
  }

  lemma {:induction false} WakeExpiredIsNext(s: State)
    requires CoreAt(s, s.tick - 1) && Owned(s)
    ensures IsNextUnblock(WakeExpired(s))
    decreases |Items(s, CurrentDelayed(s))|
  {
    hide SortedList, IsNextUnblock;
    var items := Items(s, CurrentDelayed(s));
    if items == [] || s.tick < Value(s.store, items[0]) {
      ResetIsNext(s);
    } else {
      HeadOfDelayed(s);
      WakeHeadMoves(s);
      WakeHeadKeeps(s, s.tick - 1);
      hide Consistent, ReadyOk, TimeAt, WakeHead;
      WakeExpiredIsNext(WakeHead(s));
    }
  }

  /** A tick that reaches the next unblock time leaves it at the earliest wake time that is left. */
  lemma TickFindsNextUnblock(s: State)
    requires Core(s) && Owned(s) && Ticked(s).tick >= Ticked(s).nextUnblock
    ensures IsNextUnblock(IncrementTick(s))
  {
    TickedKeeps(s);
    assert Owned(Ticked(s));
    hide Consistent, SortedList, Ticked, IsNextUnblock;
    WakeExpiredIsNext(Ticked(s));
  }

  /** Exactness of one tick: a delayed task becomes ready on the tick that reaches its wake time,
      and stays delayed, with the same wake time, on every earlier one. */
  lemma TickExact(s: State, t: Task)
    requires Core(s) && Owned(s) && IsDelayed(s, t)
    ensures WakeTime(s, t) > s.clock
    ensures IncrementTick(s).clock == s.clock + 1
    ensures if WakeTime(s, t) == s.clock + 1 then
              StateOf(IncrementTick(s), t) == On(Ready(PriorityOf(s, t))) && WaitOf(IncrementTick(s), t) == Nowhere
            else
              && IsDelayed(IncrementTick(s), t) && WakeTime(IncrementTick(s), t) == WakeTime(s, t)
              && WaitOf(IncrementTick(s), t) == WaitOf(s, t)
  {
    hide Consistent, SortedList, ReadyOk, IncrementTick, Wrap, Epoch;
    IncrementTickKeeps(s);
    NextTick(s.clock);
    EpochAndTick(s.clock);
    EpochAndTick(s.clock + 1);
    var s1 := Ticked(s);
    assert PriorityOf(s1, t) == PriorityOf(s, t);
    assert StateOf(s1, t) == StateOf(s, t) && WaitOf(s1, t) == WaitOf(s, t);
  }
}
