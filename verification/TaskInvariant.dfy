/** Every step of the scheduler keeps the invariant, and moves no other task than the one it is
    about. */
module TaskInvariant {
  import opened RingList
  import opened Ticks
  import opened ItemStore
  import opened TaskState
  import opened TaskTick
  import opened TaskMoves
  import opened TaskSteps

  // ---- The steps ----

  lemma InvIsConsistent(s: State)
    requires Inv(s)
    ensures Core(s) && Consistent(s.store)
  {
    hide Consistent, ReadyOk, TimeAt, AllPlaced, Counted, TicksAccounted;
  }

  lemma CreateKeeps(s: State, t: Task, priority: nat)
    requires Inv(s) && t !in s.tcbs
    ensures Inv(DoCreate(s, t, priority))
    ensures Only(s, DoCreate(s, t, priority), t)
    ensures StateOf(DoCreate(s, t, priority), t) == On(Ready(Clip(priority)))
  {
    hide Consistent, ReadyOk, TimeAt, AddToReady, SetEventValue, Wrap;
    var p := Clip(priority);
    var s1 := s.(tcbs := s.tcbs[t := Tcb(p, p, 0)], numberOfTasks := s.numberOfTasks + 1);
    NewTcbStep(s, t, Tcb(p, p, 0));
    var s2 := SetEventValue(s1, t, NormalEventValue(p));
    EventValueStep(s1, t, NormalEventValue(p));
    ReadyStep(s2, t);
    hide Only;
    OnlyTwice(s, s1, s2, t);
    OnlyTwice(s, s2, AddToReady(s2, t), t);
    PlacedAfter(s, AddToReady(s2, t), t);
  }

  lemma NewTcbStep(s: State, t: Task, tcb: Tcb)
    requires Inv(s) && t !in s.tcbs
    requires tcb.priority < PRIORITIES && tcb.basePriority < PRIORITIES
    ensures var s1 := s.(tcbs := s.tcbs[t := tcb], numberOfTasks := s.numberOfTasks + 1);
            && Core(s1) && Only(s, s1, t) && Counted(s1)
            && StateOf(s1, t) == Nowhere && WaitOf(s1, t) == Nowhere
  {
    hide Consistent, ReadyOk, TimeAt, TicksAccounted;
    var s1 := s.(tcbs := s.tcbs[t := tcb], numberOfTasks := s.numberOfTasks + 1);
    assert WellPlaced(s, t);
    NewcomerReady(s, s1, t);
    SameTime(s, s1);
  }

  lemma NewcomerReady(s: State, s1: State, t: Task)
    requires ReadyOk(s) && StateOf(s, t) == Nowhere && t in s1.tcbs && s1.tcbs == s.tcbs[t := s1.tcbs[t]]
    requires s1.store == s.store && s1.top == s.top && s1.bits == s.bits
    requires s1.tcbs[t].priority < PRIORITIES && s1.tcbs[t].basePriority < PRIORITIES
    ensures ReadyOk(s1)
  {
    hide MarksOk;
    MarksFrame(s, s1);
  }

  lemma DeleteKeeps(s: State, t: Task)
    requires Inv(s) && t in s.tcbs && StateOf(s, t) != On(Termination)
    ensures Inv(DoDelete(s, t)) && Only(s, DoDelete(s, t), t)
    ensures StateOf(DoDelete(s, t), t) == On(Termination) && WaitOf(DoDelete(s, t), t) == Nowhere
  {
    hide Consistent, ReadyOk, TimeAt, Leave, DropEvent, PutAtEnd, ResetNextUnblock, Wrap;
    var s1 := Leave(s, t);
    LeaveStep(s, t);
    var s2 := DropEvent(s1, t);
    DropEventStep(s1, t);
    var s3 := PutAtEnd(s2, t, Termination);
    EndStep(s2, t, Termination);
    OnlyTwice(s, s1, s2, t);
    OnlyTwice(s, s2, s3, t);
    var s4 := s3.(tasksDeleted := s.tasksDeleted + 1);
    CountDeleted(s3, s.tasksDeleted + 1, t);
    OnlyTwice(s, s3, s4, t);
    ResetStep(s4, t);
    OnlyTwice(s, s4, ResetNextUnblock(s4), t);
    PlacedAfter(s, DoDelete(s, t), t);
  }

  lemma CountDeleted(s: State, n: nat, t: Task)
    requires Core(s)
    ensures var s1 := s.(tasksDeleted := n);
            Core(s1) && Only(s, s1, t) && StateOf(s1, t) == StateOf(s, t) && WaitOf(s1, t) == WaitOf(s, t)
            && Items(s1, Termination) == Items(s, Termination)
  {
    hide Consistent, SortedList;
  }

  lemma TerminationHead(s: State)
    requires Consistent(s.store) && Items(s, Termination) != []
    ensures var i := Items(s, Termination)[0]; i.Generic? && PlaceOf(s.store, i) == On(Termination)
  {
    assert Member(s.store, Items(s, Termination)[0], Termination);
  }

  /** The idle task frees one deleted task.  The caller is not the task that is freed. */
  lemma CleanUpKeeps(s: State)
    requires Inv(s) && StateOf(s, s.current) != On(Termination)
    ensures Inv(DoCleanUp(s))
    ensures Items(s, Termination) != [] ==>
              var t := Items(s, Termination)[0].task;
              StateOf(s, t) == On(Termination) && Only(s, DoCleanUp(s), t) && t !in DoCleanUp(s).tcbs
  {
    hide Consistent, ReadyOk, TimeAt, TakeOff, Wrap;
    if Items(s, Termination) != [] {
      TerminationHead(s);
      var t := Items(s, Termination)[0].task;
      assert StateOf(s, t) == On(Termination);
      var s1 := TakeOff(s, t);
      TakeOffStep(s, t);
      assert WaitOf(s, t) == Nowhere;
      if s.tasksDeleted != 0 && s.numberOfTasks != 0 {
        FreeTcb(s1, t, s.numberOfTasks - 1, s.tasksDeleted - 1);
      }
      var s2 := DoCleanUp(s);
      OnlyTwice(s, s1, s2, t);
      PlacedAfter(s, s2, t);
    }
  }

  lemma FreeTcb(s: State, t: Task, n: nat, m: nat)
    requires Core(s) && t in s.tcbs && StateOf(s, t) == Nowhere
    ensures var s1 := s.(tcbs := s.tcbs - {t}, numberOfTasks := n, tasksDeleted := m);
            && Core(s1) && Only(s, s1, t) && |s1.tcbs| == |s.tcbs| - 1 && t !in s1.tcbs
            && Items(s1, Termination) == Items(s, Termination)
            && StateOf(s1, t) == Nowhere && WaitOf(s1, t) == WaitOf(s, t)
  {
    hide Consistent, TimeAt, ReadyOk;
    var s1 := s.(tcbs := s.tcbs - {t}, numberOfTasks := n, tasksDeleted := m);
    FreedReady(s, s1, t);
    SameTime(s, s1);
    assert s1.tcbs.Keys == s.tcbs.Keys - {t};
    assert |s1.tcbs.Keys| == |s1.tcbs| && |s.tcbs.Keys| == |s.tcbs|;
  }

  lemma FreedReady(s: State, s1: State, t: Task)
    requires ReadyOk(s) && StateOf(s, t) == Nowhere && s1.tcbs == s.tcbs - {t}
    requires s1.store == s.store && s1.top == s.top && s1.bits == s.bits
    ensures ReadyOk(s1)
  {
    hide MarksOk;
    MarksFrame(s, s1);
  }

  /** The control blocks and the counters are not part of what is said of time. */
  lemma SameTime(s: State, s1: State)
    requires TimeAt(s, s.tick) && s1.store == s.store && SameClock(s, s1) && s1.nextUnblock == s.nextUnblock
    ensures TimeAt(s1, s1.tick)
  {
    hide SortedList;
  }

  lemma SuspendTaskKeeps(s: State, t: Task)
    requires Inv(s) && t in s.tcbs && StateOf(s, t) != On(Termination)
    ensures Inv(DoSuspendTask(s, t)) && Only(s, DoSuspendTask(s, t), t)
    ensures StateOf(DoSuspendTask(s, t), t) == On(Suspended) && WaitOf(DoSuspendTask(s, t), t) == Nowhere
  {
    hide Consistent, ReadyOk, TimeAt, Leave, DropEvent, PutAtEnd, ResetNextUnblock;
    var s1 := Leave(s, t);
    LeaveStep(s, t);
    var s2 := DropEvent(s1, t);
    DropEventStep(s1, t);
    var s3 := PutAtEnd(s2, t, Suspended);
    EndStep(s2, t, Suspended);
    OnlyTwice(s, s1, s2, t);
    OnlyTwice(s, s2, s3, t);
    ResetStep(s3, t);
    OnlyTwice(s, s3, ResetNextUnblock(s3), t);
    InvAfter(s, DoSuspendTask(s, t), t);
  }

  /** Off a list that is not a ready list, and onto the ready list. */
  lemma RouseKeeps(s: State, t: Task)
    requires Inv(s) && StateOf(s, t).On? && !StateOf(s, t).list.Ready? && StateOf(s, t) != On(Termination)
    requires WaitOf(s, t) == Nowhere
    ensures Inv(AddToReady(TakeOff(s, t), t)) && Only(s, AddToReady(TakeOff(s, t), t), t)
    ensures StateOf(AddToReady(TakeOff(s, t), t), t) == On(Ready(PriorityOf(s, t)))
  {
    assert WellPlaced(s, t);
    hide Consistent, ReadyOk, TimeAt, TakeOff, AddToReady;
    var s1 := TakeOff(s, t);
    TakeOffStep(s, t);
    ReadyStep(s1, t);
    OnlyTwice(s, s1, AddToReady(s1, t), t);
    InvAfter(s, AddToReady(s1, t), t);
  }

  lemma SelfOnly(s: State, t: Task)
    ensures Only(s, s, t)
  {
  }

  lemma ResumeTaskKeeps(s: State, t: Task)
    requires Inv(s)
    ensures Inv(DoResumeTask(s, t)) && Only(s, DoResumeTask(s, t), t)
    ensures IsDelayed(s, t) || IsReady(s, t) ==> DoResumeTask(s, t) == s
    ensures t != s.current && IsSuspended(s, t) ==> StateOf(DoResumeTask(s, t), t) == On(Ready(PriorityOf(s, t)))
  {
    if t != s.current && IsSuspended(s, t) {
      RouseKeeps(s, t);
    }
  }

  lemma ResumeFromISRKeeps(s: State, t: Task)
    requires Inv(s)
    ensures Inv(DoResumeFromISR(s, t)) && Only(s, DoResumeFromISR(s, t), t)
    ensures IsDelayed(s, t) || IsReady(s, t) ==> DoResumeFromISR(s, t) == s
    ensures IsSuspended(s, t) ==> var s1 := DoResumeFromISR(s, t);
              if s.suspensions == 0 then StateOf(s1, t) == On(Ready(PriorityOf(s, t)))
              else StateOf(s1, t) == On(Suspended) && WaitOf(s1, t) == On(PendingReady)
  {
    if IsSuspended(s, t) {
      if s.suspensions == 0 {
        RouseKeeps(s, t);
      } else {
        hide Consistent, ReadyOk, TimeAt, PutEvent;
        assert WellPlaced(s, t);
        PutEventStep(s, t, PendingReady, EndPosition(At(s.store, PendingReady)));
        InvAfter(s, DoResumeFromISR(s, t), t);
      }
    }
  }

  // ---- Blocking ----

  /** The calling task of a blocking call is ready. */
  ghost predicate CallerReady(s: State) {
    StateOf(s, s.current) == On(Ready(PriorityOf(s, s.current)))
  }

  lemma SleepKeeps(s: State, wake: nat)
    requires Core(s) && CallerReady(s)
    requires wake <= MAX_DELAY && wake != s.tick
    ensures var s1 := AddToDelayed(Leave(s, s.current), s.current, wake);
            && Core(s1) && Only(s, s1, s.current) && Kept(s, s1) && s1.tcbs == s.tcbs
            && StateOf(s1, s.current) == On(DelayedListFor(s, wake)) && WaitOf(s1, s.current) == WaitOf(s, s.current)
            && Value(s1.store, Generic(s.current)) == wake
  {
    hide Consistent, ReadyOk, TimeAt, Leave, AddToDelayed;
    var s1 := Leave(s, s.current);
    LeaveStep(s, s.current);
    DelayStep(s1, s.current, wake);
    OnlyTwice(s, s1, AddToDelayed(s1, s.current, wake), s.current);
  }

  lemma BlockKeeps(s: State, ticks: nat)
    requires Core(s) && CallerReady(s)
    requires 0 < ticks <= MAX_DELAY
    ensures var s1 := Block(s, ticks);
            && Core(s1) && Only(s, s1, s.current) && Kept(s, s1) && s1.tcbs == s.tcbs
            && StateOf(s1, s.current).On? && WaitOf(s1, s.current) == WaitOf(s, s.current)
            && if ticks == MAX_DELAY then StateOf(s1, s.current) == On(Suspended)
               else StateOf(s1, s.current) == On(DelayedListFor(s, Wrap(s.tick + ticks)))
                    && Value(s1.store, Generic(s.current)) == Wrap(s.tick + ticks)
  {
    hide Consistent, ReadyOk, TimeAt, Leave, AddToDelayed, PutAtEnd, Wrap;
    WakeIsNotNow(s, ticks);
    if ticks == MAX_DELAY {
      var s1 := Leave(s, s.current);
      LeaveStep(s, s.current);
      EndStep(s1, s.current, Suspended);
      OnlyTwice(s, s1, PutAtEnd(s1, s.current, Suspended), s.current);
    } else {
      SleepKeeps(s, Wrap(s.tick + ticks));
    }
  }

  lemma WakeIsNotNow(s: State, ticks: nat)
    requires Core(s) && 0 < ticks < TICKS
    ensures Wrap(s.tick + ticks) != s.tick && Wrap(s.tick + ticks) <= MAX_DELAY
  {
    hide Consistent, ReadyOk, SortedList;
    assert s.tick < TICKS;
  }

  lemma DelayKeeps(s: State, ticks: nat)
    requires Inv(s) && (ticks > 0 ==> CallerReady(s)) && ticks < TICKS
    ensures Inv(DoDelay(s, ticks)) && Only(s, DoDelay(s, ticks), s.current)
    ensures ticks > 0 ==> var wake := Wrap(s.tick + ticks);
              && StateOf(DoDelay(s, ticks), s.current) == On(DelayedListFor(s, wake))
              && Value(DoDelay(s, ticks).store, Generic(s.current)) == wake
              && WaitOf(DoDelay(s, ticks), s.current) == Nowhere
  {
    hide Consistent, ReadyOk, TimeAt, Leave, AddToDelayed, Wrap;
    if ticks > 0 {
      WakeIsNotNow(s, ticks);
      SleepKeeps(s, Wrap(s.tick + ticks));
      assert WellPlaced(s, s.current);
      InvAfter(s, DoDelay(s, ticks), s.current);
    }
  }

  lemma DelayUntilKeeps(s: State, previous: nat, increment: nat)
    requires Inv(s) && CallerReady(s)
    ensures Inv(DoDelayUntil(s, previous, increment)) && Only(s, DoDelayUntil(s, previous, increment), s.current)
  {
    hide Consistent, ReadyOk, TimeAt, Leave, AddToDelayed;
    var wake := Wrap(previous + increment);
    if ShouldDelay(s.tick, previous, wake) {
      SleepKeeps(s, wake);
      assert WellPlaced(s, s.current);
      InvAfter(s, DoDelayUntil(s, previous, increment), s.current);
    }
  }

  lemma PlaceOnEventListKeeps(s: State, list: nat, ticks: nat)
    requires Inv(s) && CallerReady(s) && 0 < ticks <= MAX_DELAY
    ensures Inv(DoPlaceOnEventList(s, list, ticks)) && Only(s, DoPlaceOnEventList(s, list, ticks), s.current)
    ensures WaitOf(DoPlaceOnEventList(s, list, ticks), s.current) == On(EventList(list))
    ensures ticks < MAX_DELAY ==> var wake := Wrap(s.tick + ticks);
              && StateOf(DoPlaceOnEventList(s, list, ticks), s.current) == On(DelayedListFor(s, wake))
              && Value(DoPlaceOnEventList(s, list, ticks).store, Generic(s.current)) == wake
  {
    hide Consistent, ReadyOk, TimeAt, PutEvent, Block, Wrap;
    assert WellPlaced(s, s.current);
    var k := SortedPosition(s.store, Event(s.current), EventList(list));
    var s1 := PutEvent(s, s.current, EventList(list), k);
    PutEventStep(s, s.current, EventList(list), k);
    BlockKeeps(s1, ticks);
    OnlyTwice(s, s1, Block(s1, ticks), s.current);
    InvAfter(s, Block(s1, ticks), s.current);
  }

  lemma PlaceOnUnorderedKeeps(s: State, list: nat, value: nat, ticks: nat)
    requires Inv(s) && CallerReady(s) && 0 < ticks <= MAX_DELAY
    ensures Inv(DoPlaceOnUnordered(s, list, value, ticks))
            && Only(s, DoPlaceOnUnordered(s, list, value, ticks), s.current)
    ensures var s1 := DoPlaceOnUnordered(s, list, value, ticks);
            && WaitOf(s1, s.current) == On(EventList(list))
            && if ticks == MAX_DELAY then StateOf(s1, s.current) == On(Suspended)
               else StateOf(s1, s.current) == On(DelayedListFor(s, Wrap(s.tick + ticks)))
  {
    hide Consistent, ReadyOk, TimeAt, PutEvent, SetEventValue, Block, Wrap;
    assert WellPlaced(s, s.current);
    var s1 := SetEventValue(s, s.current, MarkInUse(value));
    EventValueStep(s, s.current, MarkInUse(value));
    var k := EndPosition(At(s1.store, EventList(list)));
    var s2 := PutEvent(s1, s.current, EventList(list), k);
    PutEventStep(s1, s.current, EventList(list), k);
    BlockKeeps(s2, ticks);
    OnlyTwice(s, s1, s2, s.current);
    OnlyTwice(s, s2, Block(s2, ticks), s.current);
    InvAfter(s, Block(s2, ticks), s.current);
  }

  // ---- Events ----

  lemma EventHead(s: State, list: nat)
    requires Consistent(s.store) && Items(s, EventList(list)) != []
    ensures var i := Items(s, EventList(list))[0]; i.Event? && PlaceOf(s.store, i) == On(EventList(list))
  {
    assert Member(s.store, Items(s, EventList(list))[0], EventList(list));
  }

  lemma RemoveFromEventListKeeps(s: State, list: nat)
    requires Inv(s) && Items(s, EventList(list)) != []
    ensures var t := Items(s, EventList(list))[0].task; var s1 := DoRemoveFromEventList(s, list);
            && WaitOf(s, t) == On(EventList(list))
            && Inv(s1) && Only(s, s1, t)
            && if s.suspensions == 0 then StateOf(s1, t) == On(Ready(PriorityOf(s, t))) && WaitOf(s1, t) == Nowhere
               else StateOf(s1, t) == StateOf(s, t) && WaitOf(s1, t) == On(PendingReady)
  {
    EventHead(s, list);
    var t := Items(s, EventList(list))[0].task;
    assert WaitOf(s, t) == On(EventList(list)) && WellPlaced(s, t);
    UnblockKeeps(s, t);
  }

  /** xTaskRemoveFromEventList, for the task it is about. */
  lemma UnblockKeeps(s: State, t: Task)
    requires Inv(s) && WaitOf(s, t).On? && WaitOf(s, t) != On(PendingReady)
    ensures var s1 := DropEvent(s, t);
            var s2 := if s.suspensions == 0 then AddToReady(TakeOff(s1, t), t)
                      else PutEvent(s1, t, PendingReady, EndPosition(At(s1.store, PendingReady)));
            && Inv(s2) && Only(s, s2, t)
            && if s.suspensions == 0 then StateOf(s2, t) == On(Ready(PriorityOf(s, t))) && WaitOf(s2, t) == Nowhere
               else StateOf(s2, t) == StateOf(s, t) && WaitOf(s2, t) == On(PendingReady)
  {
    hide Consistent, ReadyOk, TimeAt, PutEvent, DropEvent, TakeOff, AddToReady;
    assert WellPlaced(s, t);
    var s1 := DropEvent(s, t);
    DropEventStep(s, t);
    if s.suspensions == 0 {
      var s2 := TakeOff(s1, t);
      TakeOffStep(s1, t);
      ReadyStep(s2, t);
      OnlyTwice(s, s1, s2, t);
      OnlyTwice(s, s2, AddToReady(s2, t), t);
      InvAfter(s, AddToReady(s2, t), t);
    } else {
      var k := EndPosition(At(s1.store, PendingReady));
      PutEventStep(s1, t, PendingReady, k);
      OnlyTwice(s, s1, PutEvent(s1, t, PendingReady, k), t);
      InvAfter(s, PutEvent(s1, t, PendingReady, k), t);
    }
  }

  lemma RemoveFromUnorderedKeeps(s: State, t: Task, value: nat)
    requires Inv(s) && WaitOf(s, t).On? && WaitOf(s, t) != On(PendingReady)
    ensures var s1 := DoRemoveFromUnordered(s, t, value);
            Inv(s1) && Only(s, s1, t) && StateOf(s1, t) == On(Ready(PriorityOf(s, t))) && WaitOf(s1, t) == Nowhere
  {
    hide Consistent, ReadyOk, TimeAt, SetEventValue, DropEvent, TakeOff, AddToReady;
    assert WellPlaced(s, t);
    var s1 := SetEventValue(s, t, MarkInUse(value));
    EventValueStep(s, t, MarkInUse(value));
    var s2 := DropEvent(s1, t);
    DropEventStep(s1, t);
    var s3 := TakeOff(s2, t);
    TakeOffStep(s2, t);
    ReadyStep(s3, t);
    OnlyTwice(s, s1, s2, t);
    OnlyTwice(s, s2, s3, t);
    OnlyTwice(s, s3, AddToReady(s3, t), t);
    InvAfter(s, AddToReady(s3, t), t);
  }

  lemma ResetEventItemValueKeeps(s: State)
    requires Inv(s)
    ensures Inv(DoResetEventItemValue(s)) && Only(s, DoResetEventItemValue(s), s.current)
    ensures StaysPut(s, DoResetEventItemValue(s), s.current)
  {
    hide Consistent, ReadyOk, TimeAt, SetEventValue;
    assert WellPlaced(s, s.current);
    EventValueStep(s, s.current, NormalEventValue(PriorityOf(s, s.current)));
    InvAfter(s, DoResetEventItemValue(s), s.current);
  }

  // ---- Priorities ----

  lemma UpdateEventValueStep(s: State, t: Task, priority: nat)
    requires Core(s)
    ensures var s1 := UpdateEventValue(s, t, priority);
            && Core(s1) && Only(s, s1, t) && Kept(s, s1) && s1.tcbs == s.tcbs
            && StateOf(s1, t) == StateOf(s, t) && WaitOf(s1, t) == WaitOf(s, t)
            && Value(s1.store, Generic(t)) == Value(s.store, Generic(t))
  {
    hide Consistent, ReadyOk, TimeAt, SetEventValue;
    EventValueStep(s, t, NormalEventValue(priority));
  }

  lemma ChangeTcbStep(s: State, t: Task, tcb: Tcb)
    requires Core(s) && t in s.tcbs
    requires tcb.priority < PRIORITIES && tcb.basePriority < PRIORITIES
    ensures var s1 := ChangeTcb(s, t, tcb);
            && Core(s1) && Only(s, s1, t) && Kept(s, s1) && s1.tcbs == s.tcbs[t := tcb]
            && WaitOf(s1, t) == WaitOf(s, t)
            && StateOf(s1, t) ==
                 (if StateOf(s, t) == On(Ready(PriorityOf(s, t))) then On(Ready(tcb.priority)) else StateOf(s, t))
            && (!StateOf(s1, t).On? || !StateOf(s1, t).list.Ready?
                ==> Value(s1.store, Generic(t)) == Value(s.store, Generic(t)))
  {
    hide Consistent, ReadyOk, TimeAt, Leave, AddToReady;
    if StateOf(s, t) == On(Ready(PriorityOf(s, t))) {
      var s1 := Leave(s, t);
      LeaveStep(s, t);
      var s2 := s1.(tcbs := s1.tcbs[t := tcb]);
      TcbStep(s1, t, tcb);
      ReadyStep(s2, t);
      OnlyTwice(s, s1, s2, t);
      OnlyTwice(s, s2, AddToReady(s2, t), t);
    } else {
      OffItsReadyList(s, t);
      TcbStep(s, t, tcb);
    }
  }

  lemma OffItsReadyList(s: State, t: Task)
    requires ReadyOk(s) && StateOf(s, t) != On(Ready(PriorityOf(s, t)))
    ensures StateOf(s, t).On? ==> !StateOf(s, t).list.Ready?
  {
  }

  ghost predicate IsReady(s: State, t: Task) {
    StateOf(s, t).On? && StateOf(s, t).list.Ready?
  }

  /** A delayed task stays where it is, a ready task ready, and whoever waits for an event goes on waiting. */
  ghost predicate StaysPut(s: State, s1: State, t: Task) {
    && (IsDelayed(s, t) ==> SameTask(s, s1, t))
    && (IsReady(s, t) ==> IsReady(s1, t))
    && WaitOf(s1, t) == WaitOf(s, t)
  }

  lemma ReprioritisedKeeps(s: State, t: Task, p: nat, tcb: Tcb)
    requires Inv(s) && t in s.tcbs && p < PRIORITIES && tcb.priority < PRIORITIES && tcb.basePriority < PRIORITIES
    ensures var s2 := ChangeTcb(UpdateEventValue(s, t, p), t, tcb); Inv(s2) && Only(s, s2, t) && StaysPut(s, s2, t)
  {
    hide Consistent, ReadyOk, TimeAt, UpdateEventValue, ChangeTcb, StaysPut;
    var s1 := UpdateEventValue(s, t, p);
    var s2 := ChangeTcb(s1, t, tcb);
    assert WellPlaced(s, t);
    UpdateEventValueStep(s, t, p);
    ChangeTcbStep(s1, t, tcb);
    OnlyTwice(s, s1, s2, t);
    InvAfter(s, s2, t);
    StayedPut(s, s2, t, tcb.priority);
  }

  lemma StayedPut(s: State, s2: State, t: Task, priority: nat)
    requires t in s.tcbs && t in s2.tcbs && WaitOf(s2, t) == WaitOf(s, t)
    requires StateOf(s2, t) == StateOf(s, t)
             || (StateOf(s, t) == On(Ready(PriorityOf(s, t))) && StateOf(s2, t) == On(Ready(priority)))
    requires !StateOf(s2, t).On? || !StateOf(s2, t).list.Ready? ==>
               Value(s2.store, Generic(t)) == Value(s.store, Generic(t))
    ensures StaysPut(s, s2, t)
  {
  }

  lemma TcbInRange(s: State, t: Task)
    requires Inv(s) && t in s.tcbs
    ensures s.tcbs[t].priority < PRIORITIES && s.tcbs[t].basePriority < PRIORITIES
  {
  }

  lemma SetPriorityKeeps(s: State, t: Task, priority: nat)
    requires Inv(s)
    ensures Inv(DoSetPriority(s, t, priority)) && Only(s, DoSetPriority(s, t, priority), t)
    ensures StaysPut(s, DoSetPriority(s, t, priority), t)
  {
    hide Inv, UpdateEventValue, ChangeTcb;
    var p := Clip(priority);
    if t in s.tcbs && s.tcbs[t].basePriority != p {
      TcbInRange(s, t);
      ReprioritisedKeeps(s, t, p, WithPriority(s.tcbs[t], p));
    }
  }

  lemma InheritKeeps(s: State, holder: Task)
    requires Inv(s)
    ensures Inv(DoInherit(s, holder)) && Only(s, DoInherit(s, holder), holder)
    ensures StaysPut(s, DoInherit(s, holder), holder)
  {
    hide Inv, UpdateEventValue, ChangeTcb;
    var p := PriorityOf(s, s.current);
    if holder in s.tcbs && s.tcbs[holder].priority < p {
      TcbInRange(s, holder);
      TcbInRange(s, s.current);
      ReprioritisedKeeps(s, holder, p, s.tcbs[holder].(priority := p));
    }
  }

  lemma DisinheritKeeps(s: State, holder: Task)
    requires Inv(s) && holder == s.current && CallerReady(s)
    ensures Inv(DoDisinherit(s, holder)) && Only(s, DoDisinherit(s, holder), holder)
    ensures StaysPut(s, DoDisinherit(s, holder), holder)
  {
    hide Inv, Leave, AddToReady, SetEventValue, StaysPut, CallerReady;
    if holder in s.tcbs && s.tcbs[holder].mutexesHeld > 0 {
      var tcb := s.tcbs[holder].(mutexesHeld := s.tcbs[holder].mutexesHeld - 1);
      TcbInRange(s, holder);
      if tcb.priority == tcb.basePriority || tcb.mutexesHeld > 0 {
        RecountedKeeps(s, holder, tcb);
      } else {
        RestoredKeeps(s, holder, tcb.(priority := tcb.basePriority));
      }
    }
    NothingMoved(s, holder);
  }

  lemma NothingMoved(s: State, t: Task)
    ensures Only(s, s, t) && StaysPut(s, s, t)
  {
  }

  /** A control block changes, and not its priority. */
  lemma RecountedKeeps(s: State, t: Task, tcb: Tcb)
    requires Inv(s) && t in s.tcbs && tcb.priority == s.tcbs[t].priority && tcb.basePriority < PRIORITIES
    ensures var s1 := s.(tcbs := s.tcbs[t := tcb]); Inv(s1) && Only(s, s1, t) && StaysPut(s, s1, t)
  {
    TcbInRange(s, t);
    hide Consistent, ReadyOk, TimeAt;
    assert WellPlaced(s, t);
    TcbStep(s, t, tcb);
    InvAfter(s, s.(tcbs := s.tcbs[t := tcb]), t);
  }

  lemma RestoredKeeps(s: State, t: Task, tcb: Tcb)
    requires Inv(s) && t == s.current && CallerReady(s) && t in s.tcbs && tcb.priority < PRIORITIES
             && tcb.basePriority < PRIORITIES
    ensures var s2 := Leave(s, t).(tcbs := Leave(s, t).tcbs[t := tcb]);
            var s4 := AddToReady(SetEventValue(s2, t, NormalEventValue(tcb.priority)), t);
            Inv(s4) && Only(s, s4, t) && StaysPut(s, s4, t)
  {
    hide Consistent, ReadyOk, TimeAt, Leave, AddToReady, SetEventValue;
    assert WellPlaced(s, t);
    DisinheritMoves(s, t, tcb);
    var s2 := Leave(s, t).(tcbs := Leave(s, t).tcbs[t := tcb]);
    InvAfter(s, AddToReady(SetEventValue(s2, t, NormalEventValue(tcb.priority)), t), t);
  }

  lemma DisinheritMoves(s: State, t: Task, tcb: Tcb)
    requires Core(s) && t in s.tcbs && StateOf(s, t) == On(Ready(PriorityOf(s, t)))
    requires tcb.priority < PRIORITIES && tcb.basePriority < PRIORITIES
    ensures var s1 := Leave(s, t);
            var s2 := s1.(tcbs := s1.tcbs[t := tcb]);
            var s4 := AddToReady(SetEventValue(s2, t, NormalEventValue(tcb.priority)), t);
            && Core(s4) && Only(s, s4, t) && Kept(s, s4)
            && StateOf(s4, t) == On(Ready(tcb.priority)) && WaitOf(s4, t) == WaitOf(s, t)
  {
    hide Consistent, ReadyOk, TimeAt, Leave, AddToReady, SetEventValue;
    var s1 := Leave(s, t);
    LeaveStep(s, t);
    var s2 := s1.(tcbs := s1.tcbs[t := tcb]);
    TcbStep(s1, t, tcb);
    var s3 := SetEventValue(s2, t, NormalEventValue(tcb.priority));
    EventValueStep(s2, t, NormalEventValue(tcb.priority));
    ReadyStep(s3, t);
    OnlyTwice(s, s1, s2, t);
    OnlyTwice(s, s2, s3, t);
    OnlyTwice(s, s3, AddToReady(s3, t), t);
  }

  lemma TakeMutexKeeps(s: State)
    requires Inv(s)
    ensures Inv(DoTakeMutex(s)) && Only(s, DoTakeMutex(s), s.current)
    ensures StaysPut(s, DoTakeMutex(s), s.current)
  {
    hide Consistent, TimeAt;
    assert WellPlaced(s, s.current);
    var tcb := s.tcbs[s.current];
    TcbStep(s, s.current, tcb.(mutexesHeld := tcb.mutexesHeld + 1));
    InvAfter(s, DoTakeMutex(s), s.current);
  }

  // ---- The scheduler ----

  /** Nobody has moved and no time has passed. */
  ghost predicate NobodyMoved(s: State, s1: State) {
    SameClock(s, s1) && (forall u :: SameTask(s, s1, u))
  }

  lemma SuspendAllKeeps(s: State)
    requires Inv(s)
    ensures var s1 := s.(suspensions := s.suspensions + 1); Inv(s1) && NobodyMoved(s, s1)
  {
    hide Consistent, SortedList, Wrap;
    var s1 := s.(suspensions := s.suspensions + 1);
    forall u
      ensures WellPlaced(s1, u)
    {
      assert WellPlaced(s, u);
    }
  }

  lemma {:induction false} ScanStops(s: State, p: nat)
    requires MarksOk(s)
    requires forall q: nat :: Items(s, Ready(q)) != [] ==> q <= p
    ensures Scan(s, p) <= p
    ensures forall q: nat :: Items(s, Ready(q)) != [] ==> q <= Scan(s, p)
    ensures (exists q: nat :: Items(s, Ready(q)) != []) ==> Items(s, Ready(Scan(s, p))) != []
  {
    if Items(s, Ready(p)) == [] && p > 0 {
      ScanStops(s, p - 1);
    }
  }

  /** Scan and bitmap agree: while some task is ready, the scan stops at a ready list, it is the
      highest one, and it is the highest bit that is set. */
  lemma ScanFindsHighestBit(s: State)
    requires MarksOk(s)
    ensures s.bits == {} <==> forall q: nat :: Items(s, Ready(q)) == []
    ensures s.bits != {} ==>
              && Scan(s, s.top) in s.bits
              && (forall q <- s.bits :: q <= Scan(s, s.top))
              && Items(s, Ready(Scan(s, s.top))) != []
              && (forall q: nat :: Items(s, Ready(q)) != [] ==> q <= Scan(s, s.top))
  {
    ScanStops(s, s.top);
    if s.bits != {} {
      var q :| q in s.bits;
      assert Items(s, Ready(q)) != [];
    }
  }

  lemma SwitchContextKeeps(s: State)
    requires Inv(s) && s.suspensions == 0 && s.bits != {}
    ensures var s1 := DoSwitchContext(s);
            && Inv(s1) && NobodyMoved(s, s1)
            && StateOf(s1, s1.current) == On(Ready(Scan(s, s.top)))
  {
    hide Consistent, SortedList, TimeAt, ReadyOk, Wrap, MoveIndex, Scan, Items;
    SelectedIsReady(s);
    var s1 := DoSwitchContext(s);
    SelectedCore(s, s1);
    forall u
      ensures WellPlaced(s1, u) && SameTask(s, s1, u)
    {
      assert WellPlaced(s, u);
    }
  }

  /** The task vTaskSwitchContext picks is on the ready list it was looked up on. */
  lemma SelectedIsReady(s: State)
    requires Inv(s) && s.suspensions == 0 && s.bits != {}
    ensures var p, s1 := Scan(s, s.top), DoSwitchContext(s);
            && s1 == s.(top := p, store := s1.store, current := s1.current)
            && Items(s, Ready(p)) != [] && s1.store == MoveIndex(s.store, Ready(p))
            && StateOf(s, s1.current) == On(Ready(p)) && s1.current in s.tcbs
  {
    ScanFindsHighestBit(s);
    var p, s1 := Scan(s, s.top), DoSwitchContext(s);
    var i := Current(Advance(At(s.store, Ready(p))));
    assert Member(s.store, i, Ready(p));
  }

  lemma SelectedCore(s: State, s1: State)
    requires Core(s) && s.bits != {}
    requires s1 == s.(top := Scan(s, s.top), store := s1.store, current := s1.current)
    requires Items(s, Ready(Scan(s, s.top))) != [] && s1.store == MoveIndex(s.store, Ready(Scan(s, s.top)))
    ensures Core(s1)
    ensures forall m :: Items(s1, m) == Items(s, m)
    ensures forall i :: PlaceOf(s1.store, i) == PlaceOf(s.store, i) && Value(s1.store, i) == Value(s.store, i)
  {
    hide Consistent, SortedList, MoveIndex, Scan;
    ScanFindsHighestBit(s);
    IndexMoves(s.store, Ready(Scan(s, s.top)));
  }

  lemma IndexMoves(st: Store, l: ListId)
    requires Consistent(st) && At(st, l).items != []
    ensures Consistent(MoveIndex(st, l))
    ensures forall m :: At(MoveIndex(st, l), m).items == At(st, m).items
    ensures forall i :: PlaceOf(MoveIndex(st, l), i) == PlaceOf(st, i) && Value(MoveIndex(st, l), i) == Value(st, i)
    ensures forall m :: SortedList(MoveIndex(st, l), m) == SortedList(st, m)
  {
    var st' := MoveIndex(st, l);
    forall m
      ensures Valid(At(st', m)) && At(st', m).items == At(st, m).items
      ensures SortedList(st', m) == SortedList(st, m)
    {
      assert Valid(At(st, m));
      assert Values(st', At(st', m).items) == Values(st, At(st, m).items);
    }
    forall m, j
      ensures Member(st', j, m) <==> PlaceOf(st', j) == On(m)
    {
      assert Member(st, j, m) <==> PlaceOf(st, j) == On(m);
    }
  }

  // ---- Time ----

  /** Where a task is when the clock stands at `s1.clock`, if nothing but ticks has happened since
      `s`: ready if its wake time has come, and otherwise where it was. */
  ghost predicate TaskAfter(s: State, s1: State, t: Task) {
    if IsDelayed(s, t) then
      if WakeTime(s, t) <= s1.clock then
        StateOf(s1, t) == On(Ready(PriorityOf(s, t))) && WaitOf(s1, t) == Nowhere
      else
        IsDelayed(s1, t) && WakeTime(s1, t) == WakeTime(s, t) && WaitOf(s1, t) == WaitOf(s, t)
    else
      StateOf(s1, t) == StateOf(s, t) && WaitOf(s1, t) == WaitOf(s, t)
  }

  /** `n` ticks on. */
  ghost predicate AfterTicks(s: State, s1: State, n: nat) {
    && s1.clock == s.clock + n
    && Kept(s, s1) && s1.tcbs == s.tcbs
    && s1.suspensions == s.suspensions && s1.current == s.current
    && (forall t :: TaskAfter(s, s1, t))
  }

  lemma OneTick(s: State)
    requires Core(s) && Owned(s)
    ensures AfterTicks(s, IncrementTick(s), 1)
    ensures IncrementTick(s).interrupts == s.interrupts && IncrementTick(s).pendedTicks == s.pendedTicks
    ensures IncrementTick(s).tick == Wrap(s.tick + 1)
  {
    hide Consistent, SortedList, ReadyOk, TimeAt, IncrementTick, Wrap, TaskAfter;
    IncrementTickKeeps(s);
    forall t
      ensures TaskAfter(s, IncrementTick(s), t)
    {
      OneTickForOne(s, t);
    }
  }

  lemma OneTickForOne(s: State, t: Task)
    requires Core(s) && Owned(s)
    ensures TaskAfter(s, IncrementTick(s), t)
  {
    hide Consistent, SortedList, ReadyOk, TimeAt, IncrementTick, Wrap, WakeTime;
    if IsDelayed(s, t) {
      TickExact(s, t);
    } else {
      IncrementTickKeeps(s);
      assert !Due(Ticked(s), t);
    }
  }

  lemma AfterTicksTwice(s: State, s1: State, s2: State, n: nat)
    requires AfterTicks(s, s1, 1) && AfterTicks(s1, s2, n)
    ensures AfterTicks(s, s2, n + 1)
  {
    hide WakeTime;
    forall t
      ensures TaskAfter(s, s2, t)
    {
      assert TaskAfter(s, s1, t) && TaskAfter(s1, s2, t);
    }
  }

  lemma PendedCounts(s: State)
    ensures AfterTicks(s, s, 0) <==> forall t :: IsDelayed(s, t) ==> WakeTime(s, t) > s.clock
  {
    hide WakeTime;
    forall t
      ensures TaskAfter(s, s, t) <==> (IsDelayed(s, t) ==> WakeTime(s, t) > s.clock)
    {
    }
  }

  lemma WakesAhead(s: State)
    requires Core(s)
    ensures forall t :: IsDelayed(s, t) ==> WakeTime(s, t) > s.clock
  {
    hide Consistent, SortedList, ReadyOk;
    EpochAndTick(s.clock);
  }

  /** The pended ticks are processed one by one, and each task is woken on the one it was due on. */
  lemma {:induction false} ProcessPendedKeeps(s: State)
    requires Core(s) && Owned(s)
    ensures var s1 := ProcessPended(s);
            && Core(s1) && Owned(s1) && AfterTicks(s, s1, s.pendedTicks)
            && s1.pendedTicks == 0 && s1.interrupts == s.interrupts
            && s1.tick == Wrap(s.tick + s.pendedTicks)
    decreases s.pendedTicks
  {
    hide Consistent, SortedList, ReadyOk, TimeAt, IncrementTick, Wrap, TaskAfter;
    if s.pendedTicks == 0 {
      WakesAhead(s);
      PendedCounts(s);
      WrapIsTick(s);
    } else {
      IncrementTickKeeps(s);
      OneTick(s);
      var s1 := IncrementTick(s).(pendedTicks := s.pendedTicks - 1);
      PendedIsNotRead(IncrementTick(s), s.pendedTicks - 1);
      ProcessPendedKeeps(s1);
      AfterTicksTwice(s, s1, ProcessPended(s1), s1.pendedTicks);
      WrapSum(s.tick + 1, s1.pendedTicks);
    }
  }

  lemma WrapIsTick(s: State)
    requires Core(s)
    ensures s.tick == Wrap(s.tick + 0)
  {
    hide Consistent, SortedList, ReadyOk;
  }

  lemma PendedIsNotRead(s: State, n: nat)
    ensures Core(s) ==> Core(s.(pendedTicks := n))
    ensures Owned(s) ==> Owned(s.(pendedTicks := n))
    ensures forall r, k :: AfterTicks(r, s, k) ==> AfterTicks(r, s.(pendedTicks := n), k)
  {
    hide Consistent, SortedList;
    forall r, k | AfterTicks(r, s, k)
      ensures AfterTicks(r, s.(pendedTicks := n), k)
    {
      forall t
        ensures TaskAfter(r, s.(pendedTicks := n), t)
      {
        assert TaskAfter(r, s, t);
      }
    }
  }

  /** A task nobody has pended goes through a resume as it goes through the pended ticks. */
  ghost predicate ResumedTask(s: State, s1: State, t: Task) {
    if WaitOf(s, t) == On(PendingReady) then
      StateOf(s1, t) == On(Ready(PriorityOf(s, t))) && WaitOf(s1, t) == Nowhere
    else
      TaskAfter(s, s1, t)
  }

  lemma ResumedOne(s: State, s1: State, s2: State, s3: State, t: Task)
    requires s1 == s.(suspensions := 0) && PendingWoken(s1, s2) && AfterTicks(s2, s3, s.pendedTicks)
    ensures ResumedTask(s, s3, t)
  {
    hide Epoch;
    assert TaskAfter(s2, s3, t);
    if WaitOf(s, t) != On(PendingReady) {
      assert WaitOf(s1, t) != On(PendingReady);
      assert SameTask(s1, s2, t);
    } else {
      assert WaitOf(s1, t) == On(PendingReady);
    }
  }

  lemma ResumedWellPlaced(s: State, s3: State, t: Task)
    requires WellPlaced(s, t) && ResumedTask(s, s3, t) && s3.tcbs == s.tcbs
    ensures WaitOf(s3, t) != On(PendingReady) ==> WellPlaced(s3, t)
    ensures WaitOf(s3, t) != On(PendingReady)
  {
    hide WakeTime;
  }

  lemma ResumeAllKeeps(s: State)
    requires Inv(s) && s.suspensions > 0
    ensures var s1 := DoResumeAll(s);
            && Inv(s1) && s1.suspensions == s.suspensions - 1 && s1.tcbs == s.tcbs && s1.current == s.current
            && s1.interrupts == s.interrupts
            && if s.suspensions > 1 then NobodyMoved(s, s1)
               else s1.clock == s.clock + s.pendedTicks && s1.pendedTicks == 0 && forall t :: ResumedTask(s, s1, t)
  {
    hide Consistent, SortedList, ReadyOk, TimeAt, MovePending, ProcessPended, TaskAfter, Wrap, WellPlaced;
    assert s.numberOfTasks > 0 by { SomeTask(s); }
    var s1 := s.(suspensions := s.suspensions - 1);
    FewerSuspensions(s);
    if s.suspensions == 1 {
      PendingIsBlocked(s);
      MovePendingKeeps(s1);
      var s2 := MovePending(s1);
      ProcessPendedKeeps(s2);
      var s3 := ProcessPended(s2);
      WrapSum(s.tick + s.pendedTicks, 0);
      forall t
        ensures ResumedTask(s, s3, t) && WellPlaced(s3, t)
      {
        ResumedOne(s, s1, s2, s3, t);
        assert WellPlaced(s, t);
        ResumedWellPlaced(s, s3, t);
      }
    }
  }

  lemma SomeTask(s: State)
    requires Counted(s)
    ensures s.numberOfTasks > 0
  {
    assert s.tcbs != map[];
  }

  lemma FewerSuspensions(s: State)
    requires Inv(s) && s.suspensions > 0
    ensures var s1 := s.(suspensions := s.suspensions - 1);
            Core(s1) && NobodyMoved(s, s1) && (s.suspensions > 1 ==> Inv(s1))
  {
    hide Consistent, SortedList, Wrap;
    var s1 := s.(suspensions := s.suspensions - 1);
    forall u
      ensures s.suspensions > 1 ==> WellPlaced(s1, u)
    {
      assert WellPlaced(s, u);
    }
  }

  /** A tick interrupt is processed at once, or counted while the scheduler is suspended. */
  lemma TickInterruptKeeps(s: State)
    requires Inv(s)
    ensures var s1 := DoTickInterrupt(s);
            && Inv(s1) && s1.tcbs == s.tcbs && s1.suspensions == s.suspensions && s1.current == s.current
            && s1.interrupts == s.interrupts + 1
            && if s.suspensions == 0 then s1.clock == s.clock + 1 && forall t :: TaskAfter(s, s1, t)
               else NobodyMoved(s, s1)
  {
    hide Consistent, SortedList, ReadyOk, TimeAt, IncrementTick, Wrap, TaskAfter, WellPlaced;
    var s0 := s.(interrupts := s.interrupts + 1);
    CountedInterrupt(s);
    if s.suspensions == 0 {
      OneTick(s0);
      IncrementTickKeeps(s0);
      var s1 := IncrementTick(s0);
      forall t
        ensures TaskAfter(s, s1, t) && WellPlaced(s1, t)
      {
        assert TaskAfter(s0, s1, t);
        InterruptIsNotRead(s, s0, s1, t);
        assert WellPlaced(s, t);
        TickedWellPlaced(s, s1, t);
      }
      InterruptCount(s, s1);
    } else {
      PendedCount(s);
      var s1 := s0.(pendedTicks := Wrap(s.pendedTicks + 1));
      forall t
        ensures WellPlaced(s1, t) && SameTask(s, s1, t)
      {
        assert WellPlaced(s, t);
        PendedWellPlaced(s, s1, t);
      }
    }
  }

  lemma CountedInterrupt(s: State)
    requires Inv(s)
    ensures var s0 := s.(interrupts := s.interrupts + 1);
            Core(s0) && Owned(s0) && forall n :: Core(s0.(pendedTicks := n))
  {
    hide Consistent, SortedList;
    forall t | StateOf(s, t).On?
      ensures t in s.tcbs
    {
      assert WellPlaced(s, t);
    }
  }

  lemma InterruptIsNotRead(s: State, s0: State, s1: State, t: Task)
    requires s0 == s.(interrupts := s.interrupts + 1) && TaskAfter(s0, s1, t)
    ensures TaskAfter(s, s1, t)
  {
  }

  lemma TickedWellPlaced(s: State, s1: State, t: Task)
    requires WellPlaced(s, t) && TaskAfter(s, s1, t) && s1.tcbs == s.tcbs && s1.suspensions == s.suspensions
    ensures WellPlaced(s1, t)
  {
    hide WakeTime;
  }

  lemma PendedWellPlaced(s: State, s1: State, t: Task)
    requires WellPlaced(s, t) && s1.store == s.store && s1.tcbs == s.tcbs && s1.suspensions == s.suspensions
    ensures WellPlaced(s1, t)
  {
  }

  lemma InterruptCount(s: State, s1: State)
    requires TicksAccounted(s) && s1.tick == Wrap(s.tick + 1)
    requires s1.interrupts == s.interrupts + 1 && s1.pendedTicks == s.pendedTicks
    ensures TicksAccounted(s1)
  {
    WrapSum(s.tick + 1, s.pendedTicks);
    WrapSum(s.tick + s.pendedTicks, 1);
    WrapSum(s.interrupts, 1);
  }

  lemma PendedCount(s: State)
    requires TicksAccounted(s)
    ensures TicksAccounted(s.(interrupts := s.interrupts + 1, pendedTicks := Wrap(s.pendedTicks + 1)))
  {
    WrapSum(s.tick, s.pendedTicks + 1);
    WrapSum(s.tick + s.pendedTicks, 1);
    WrapSum(s.interrupts, 1);
  }
}
