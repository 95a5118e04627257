/** tasks.c as it runs: the scheduler's variables, updated in place.  Every method is proved to
    take the state to where the step of the same name in TaskSteps takes it, so that what is
    proved of the steps and of their runs holds of the methods. */
module TaskKernel {
  import opened RingList
  import opened Ticks
  import opened Words
  import opened ItemStore
  import opened TaskState
  import opened TaskTick
  import opened TaskMoves
  import opened TaskSteps
  import opened TaskInvariant
  import opened TaskRuns
  import TaskPriorities
  import opened TaskDelays
  import opened TaskReport

  class Kernel {
    var tcbs: map<Task, Tcb>
    var store: Store
    var firstIsCurrent: bool
    var tick: nat
    ghost var clock: nat
    ghost var interrupts: nat
    var pendedTicks: nat
    var suspensions: nat
    var overflows: nat
    var nextUnblock: nat
    var current: Task
    var numberOfTasks: nat
    var tasksDeleted: nat
    var top: nat
    var bits: Word

    ghost function Snapshot(): State
      reads this
    {
      State(tcbs, store, firstIsCurrent, tick, clock, interrupts, pendedTicks, suspensions, overflows, nextUnblock,
            current, numberOfTasks, tasksDeleted, top, bits)
    }

    ghost predicate Valid()
      reads this
    {
      Inv(Snapshot())
    }

    /** xTaskGenericCreate for the first task, with prvInitialiseTaskLists */
    constructor (first: Creation)
      ensures Valid() && Snapshot() == FirstCreated(first) && Fresh(Snapshot())
    {
      var t, p := first.task, Clip(first.priority);
      tcbs := map[t := Tcb(p, p, 0)];
      store := Store(map[Ready(p) := Ring([Generic(t)], 0)], map[Generic(t) := On(Ready(p))],
                     map[Event(t) := NormalEventValue(p)]);
      firstIsCurrent := true;
      tick, clock, interrupts, pendedTicks, suspensions, overflows := 0, 0, 0, 0, 0, 0;
      nextUnblock := MAX_DELAY;
      current, numberOfTasks, tasksDeleted, top, bits := t, 1, 0, p, {p};
      new;
      hide Inv, Fresh;
      FirstIsGood(first);
    }

    /** xTaskGenericCreate while the scheduler does not run; vTaskStartScheduler so creates the idle task. */
    method CreateBeforeStart(c: Creation)
      requires Valid() && Fresh(Snapshot()) && c.task !in tcbs
      modifies this
      ensures Valid() && Fresh(Snapshot()) && Snapshot() == CreateBefore(old(Snapshot()), c)
    {
      hide Inv, Fresh, AttachEnd;
      CreateBeforeKeeps(Snapshot(), c);
      var urgent := Priority(current) <= Clip(c.priority);
      Create(c.task, c.priority);
      if urgent {
        current := c.task;
      }
    }

    function Priority(t: Task): nat
      reads this`tcbs
    {
      if t in tcbs then tcbs[t].priority else 0
    }

    function CurrentList(): ListId
      reads this`firstIsCurrent
    {
      Delayed(firstIsCurrent)
    }

    function OverflowList(): ListId
      reads this`firstIsCurrent
    {
      Delayed(!firstIsCurrent)
    }

    // ---- Helpers ----

    method RemoveFromStateList(t: Task)
      modifies this`store, this`bits
      ensures Snapshot() == Leave(old(Snapshot()), t)
    {
      var place := PlaceOf(store, Generic(t));
      store := Detach(store, Generic(t));
      if place.On? && At(store, place.list).items == [] {
        if At(store, Ready(Priority(t))).items == [] {
          bits := bits - {Priority(t)};
        }
      }
    }

    /** A live task that is on no state list goes to the ready list of its priority and nothing else
        moves; the bit of that list is then set, and `top` still bounds every ready priority. */
    method AddTaskToReadyList(t: Task)
      modifies this`store, this`bits, this`top
      ensures Snapshot() == AddToReady(old(Snapshot()), t)
      ensures old(Core(Snapshot()) && StateOf(Snapshot(), t) == Nowhere) && t in tcbs ==>
                && Core(Snapshot()) && OnlyMoved(old(Snapshot()), Snapshot(), t, On(Ready(Priority(t))))
                && Priority(t) in bits && old(top) <= top && forall q <- bits :: q <= top
    {
      hide Core, OnlyMoved, AttachEnd;
      ghost var s := Snapshot();
      if Core(s) && StateOf(s, t) == Nowhere && t in tcbs {
        ReadiedIsReady(s, t);
      }
      var p := Priority(t);
      if p > top {
        top := p;
      }
      bits := bits + {p};
      store := AttachEnd(store, Generic(t), Ready(p));
    }

    /** The running task, taken off its list, is delayed until exactly the one time ahead, and less
        than a turn ahead, that `wake` can stand for.  Both delayed lists stay sorted and in their
        turns, and the next unblock time stays no later than any of this turn's. */
    method AddCurrentTaskToDelayedList(wake: nat)
      modifies this`store, this`nextUnblock
      ensures Snapshot() == AddToDelayed(old(Snapshot()), current, wake)
      ensures old(Core(Snapshot()) && StateOf(Snapshot(), current) == Nowhere) && wake <= MAX_DELAY && wake != tick ==>
                && Core(Snapshot())
                && forall due: nat :: Wrap(due) == wake && clock < due < clock + TICKS ==>
                     IsDelayed(Snapshot(), current) && WakeTime(Snapshot(), current) == due
    {
      hide Core, OnlyMoved, AttachSorted, SetValue, IsDelayed, WakeTime;
      ghost var s := Snapshot();
      if Core(s) && StateOf(s, current) == Nowhere && wake <= MAX_DELAY && wake != tick {
        AddToDelayedKeeps(s, current, wake);
        FiledUntilDue(s, current, wake);
      }
      store := SetValue(store, Generic(current), wake);
      if wake < tick {
        store := AttachSorted(store, Generic(current), OverflowList());
      } else {
        store := AttachSorted(store, Generic(current), CurrentList());
        if wake < nextUnblock {
          nextUnblock := wake;
        }
      }
    }

    /** With the delayed list sorted, the next unblock time is then the earliest wake time on it, or
        portMAX_DELAY if nobody is. */
    method ResetNextTaskUnblockTime()
      modifies this`nextUnblock
      ensures Snapshot() == ResetNextUnblock(old(Snapshot()))
      ensures Consistent(store) && SortedList(store, CurrentList()) ==> IsNextUnblock(Snapshot())
    {
      ghost var s := Snapshot();
      if Consistent(store) && SortedList(store, CurrentList()) {
        ResetIsNext(s);
      }
      var items := At(store, CurrentList()).items;
      if items == [] {
        nextUnblock := MAX_DELAY;
      } else {
        nextUnblock := Value(store, items[0]);
      }
    }

    /** It requires what the configASSERT of the macro does.  If the tick has just wrapped, the list of
        the turn that begins is then the delayed list, sorted and with nothing on it that is past, the
        overflow list is empty, and the next unblock time is that of the new head. */
    method SwitchDelayedLists()
      requires At(store, CurrentList()).items == []
      modifies this`firstIsCurrent, this`overflows, this`nextUnblock
      ensures Snapshot() == SwitchLists(old(Snapshot()))
      ensures CurrentList() == old(OverflowList()) && At(store, OverflowList()).items == []
      ensures old(JustWrapped(Snapshot())) ==> CoreAt(Snapshot(), -1) && IsNextUnblock(Snapshot())
    {
      ghost var s := Snapshot();
      if JustWrapped(s) {
        SwitchedIsCore(s);
      }
      firstIsCurrent := !firstIsCurrent;
      overflows := overflows + 1;
      ResetNextTaskUnblockTime();
    }

    method BlockFor(ticks: nat)
      modifies this`store, this`bits, this`nextUnblock
      ensures Snapshot() == Block(old(Snapshot()), ticks)
    {
      hide Leave, AddToDelayed, Wrap;
      RemoveFromStateList(current);
      if ticks == MAX_DELAY {
        store := AttachEnd(store, Generic(current), Suspended);
      } else {
        AddCurrentTaskToDelayedList(Wrap(tick + ticks));
      }
    }

    // ---- Time ----

    /** Takes one expired task off its lists and makes it ready. */
    method WakeFirst(t: Task)
      requires At(store, CurrentList()).items != [] && At(store, CurrentList()).items[0].task == t
      modifies this`store, this`bits, this`top
      ensures Snapshot() == WakeHead(old(Snapshot()))
    {
      store := Detach(store, Generic(t));
      store := Detach(store, Event(t));
      AddTaskToReadyList(t);
    }

    method DrainDelayedList()
      requires Consistent(store)
      modifies this`store, this`bits, this`top, this`nextUnblock
      ensures Snapshot() == WakeExpired(old(Snapshot()))
    {
      hide Consistent, WakeHead;
      while true
        invariant Consistent(store)
        invariant WakeExpired(Snapshot()) == WakeExpired(old(Snapshot()))
        decreases |At(store, CurrentList()).items|
      {
        var items := At(store, CurrentList()).items;
        if items == [] {
          nextUnblock := MAX_DELAY;
          return;
        }
        if tick < Value(store, items[0]) {
          nextUnblock := Value(store, items[0]);
          return;
        }
        WakeHeadMoves(Snapshot());
        WakeFirst(items[0].task);
      }
    }

    /** xTaskIncrementTick, scheduler not suspended */
    method IncrementTickNow()
      requires Core(Snapshot())
      modifies this
      ensures Snapshot() == IncrementTick(old(Snapshot()))
    {
      hide Consistent, SortedList, ReadyOk, WakeExpired;
      if Wrap(tick + 1) == 0 {
        DelayedListEmptyAtWrap(Snapshot());
      }
      tick := Wrap(tick + 1);
      clock := clock + 1;
      if tick == 0 {
        SwitchDelayedLists();
      }
      if tick >= nextUnblock {
        DrainDelayedList();
      }
    }

    /** The tick interrupt */
    method TickInterrupt()
      requires Valid()
      modifies this
      ensures Valid() && Snapshot() == DoTickInterrupt(old(Snapshot()))
    {
      hide Consistent, SortedList, ReadyOk, IncrementTick, AllPlaced, Counted, TicksAccounted, TimeAt;
      TickInterruptKeeps(Snapshot());
      CountedInterrupt(Snapshot());
      interrupts := interrupts + 1;
      if suspensions == 0 {
        IncrementTickNow();
      } else {
        pendedTicks := Wrap(pendedTicks + 1);
      }
    }

    method SuspendAll()
      requires Valid()
      modifies this`suspensions
      ensures Valid() && Snapshot() == old(Snapshot()).(suspensions := old(suspensions) + 1)
    {
      hide Inv, NobodyMoved;
      SuspendAllKeeps(Snapshot());
      suspensions := suspensions + 1;
    }

    /** The first loop of xTaskResumeAll: wake-ups that came while the scheduler was suspended */
    method DrainPendingReadyList()
      requires Consistent(store)
      modifies this`store, this`bits, this`top
      ensures Snapshot() == MovePending(old(Snapshot()))
    {
      hide Consistent;
      while At(store, PendingReady).items != []
        invariant Consistent(store)
        invariant MovePending(Snapshot()) == MovePending(old(Snapshot()))
        decreases |At(store, PendingReady).items|
      {
        MoveFirstPendingShrinks(Snapshot());
        MoveOne();
      }
    }

    method MoveOne()
      requires At(store, PendingReady).items != []
      modifies this`store, this`bits, this`top
      ensures Snapshot() == MoveFirstPending(old(Snapshot()))
    {
      var t := At(store, PendingReady).items[0].task;
      store := Detach(store, Event(t));
      store := Detach(store, Generic(t));
      AddTaskToReadyList(t);
    }

    /** The second loop: ticks that came while the scheduler was suspended */
    method ProcessPendedTicks()
      requires Core(Snapshot()) && Owned(Snapshot())
      modifies this
      ensures Snapshot() == ProcessPended(old(Snapshot()))
    {
      hide Core, Owned, IncrementTick, Consistent;
      CoreIsConsistent(Snapshot());
      while pendedTicks > 0
        invariant Core(Snapshot()) && Owned(Snapshot()) && Consistent(store)
        invariant ProcessPended(Snapshot()) == ProcessPended(old(Snapshot()))
        decreases pendedTicks
      {
        ghost var s := Snapshot();
        IncrementTickKeeps(s);
        OneTick(s);
        PendedIsNotRead(IncrementTick(s), s.pendedTicks - 1);
        IncrementTickNow();
        pendedTicks := pendedTicks - 1;
      }
    }

    method ResumeAll()
      requires Valid() && suspensions > 0
      modifies this
      ensures Valid() && Snapshot() == DoResumeAll(old(Snapshot()))
      ensures suspensions == old(suspensions) - 1 && current == old(current)
    {
      hide Core, Owned, MovePending, ProcessPended, AllPlaced, Counted, TicksAccounted, PendingBlocked;
      ghost var s := Snapshot();
      ResumeAllKeeps(s);
      PendingIsBlocked(s);
      suspensions := suspensions - 1;
      if suspensions == 0 {
        if numberOfTasks > 0 {
          CoreIsConsistent(Snapshot());
          MovePendingKeeps(Snapshot());
          DrainPendingReadyList();
          ProcessPendedTicks();
        }
      }
    }

    // ---- Selecting the next task ----

    /** The scan of taskSELECT_HIGHEST_PRIORITY_TASK: down to the highest ready list that is not
        empty.  It never goes below priority 0, as some task is ready. */
    method ScanReadyLists()
      requires MarksOk(Snapshot()) && bits != {}
      modifies this`top
      ensures top == Scan(old(Snapshot()), old(top))
    {
      ScanFindsHighestBit(Snapshot());
      hide MarksOk;
      while At(store, Ready(top)).items == []
        invariant Scan(old(Snapshot()), top) == Scan(old(Snapshot()), old(top))
        decreases top
      {
        top := top - 1;
      }
    }

    method RunNextOf(p: nat)
      requires At(store, Ready(p)).items != []
      modifies this`store, this`current
      ensures store == MoveIndex(old(store), Ready(p))
      ensures current == Current(Advance(At(old(store), Ready(p)))).task
    {
      store := MoveIndex(store, Ready(p));
      current := Current(At(store, Ready(p))).task;
    }

    /** vTaskSwitchContext, scan form */
    method SwitchContext()
      requires Valid() && (suspensions > 0 || bits != {})
      modifies this
      ensures Valid() && Snapshot() == DoSwitchContext(old(Snapshot()))
    {
      hide Core, MarksOk, AllPlaced, Counted, TicksAccounted, NobodyMoved, Scan, MoveIndex, Advance, Current;
      if suspensions == 0 {
        SwitchContextKeeps(Snapshot());
        CoreHasMarks(Snapshot());
        ScanFindsHighestBit(Snapshot());
        ScanReadyLists();
        RunNextOf(top);
      }
    }

    /** vTaskSwitchContext with the bitmap of a port-optimised build: the same task is selected, and
        the same ready list is moved on. */
    method SwitchContextByBitmap()
      requires Valid() && (suspensions > 0 || bits != {})
      modifies this
      ensures Snapshot() == DoSwitchContext(old(Snapshot())).(top := old(top))
    {
      hide Core, MarksOk, AllPlaced, Counted, TicksAccounted, Scan, MoveIndex, Advance, Current;
      if suspensions == 0 {
        CoreHasMarks(Snapshot());
        ScanFindsHighestBit(Snapshot());
        var p := GetHighest(bits);
        assert p == Scan(Snapshot(), top);
        RunNextOf(p);
      }
    }

    // ---- Tasks come and go ----

    /** The part of xTaskGenericCreate after the allocations */
    method Create(t: Task, priority: nat)
      requires Valid() && t !in tcbs
      modifies this
      ensures Valid() && Snapshot() == DoCreate(old(Snapshot()), t, priority)
    {
      hide Inv, Only, AddToReady;
      CreateKeeps(Snapshot(), t, priority);
      var p := Clip(priority);
      tcbs := tcbs[t := Tcb(p, p, 0)];
      numberOfTasks := numberOfTasks + 1;
      store := SetValue(store, Event(t), NormalEventValue(p));
      AddTaskToReadyList(t);
    }

    method Delete(t: Task)
      requires Valid() && t in tcbs && StateOf(Snapshot(), t) != On(Termination)
      modifies this
      ensures Valid() && Snapshot() == DoDelete(old(Snapshot()), t)
    {
      hide Inv, Only, Leave, ResetNextUnblock;
      DeleteKeeps(Snapshot(), t);
      RemoveFromStateList(t);
      store := Detach(store, Event(t));
      store := AttachEnd(store, Generic(t), Termination);
      tasksDeleted := tasksDeleted + 1;
      if t != current {
        ResetNextTaskUnblockTime();
      }
    }

    /** One turn of the loop in prvCheckTasksWaitingTermination */
    method FreeOne()
      requires Valid() && StateOf(Snapshot(), current) != On(Termination)
      modifies this
      ensures Valid() && Snapshot() == DoCleanUp(old(Snapshot()))
    {
      hide Inv, Only, Detach;
      CleanUpKeeps(Snapshot());
      var items := At(store, Termination).items;
      if tasksDeleted > 0 && numberOfTasks > 0 && items != [] {
        var t := items[0].task;
        store := Detach(store, Generic(t));
        tcbs := tcbs - {t};
        numberOfTasks := numberOfTasks - 1;
        tasksDeleted := tasksDeleted - 1;
      }
    }

    /** prvCheckTasksWaitingTermination: the idle task frees every deleted task, and no other. */
    method FreeDeletedTasks()
      requires Valid() && StateOf(Snapshot(), current) != On(Termination)
      modifies this
      ensures Valid() && tasksDeleted == 0
      ensures forall t :: t in tcbs <==> t in old(tcbs) && StateOf(old(Snapshot()), t) != On(Termination)
      ensures forall t :: t in tcbs ==> SameTask(old(Snapshot()), Snapshot(), t)
    {
      hide Inv, SameTask, DoCleanUp;
      FreedNone(Snapshot());
      while tasksDeleted > 0
        invariant Valid() && StateOf(Snapshot(), current) != On(Termination)
        invariant Freed(old(Snapshot()), Snapshot())
        decreases tasksDeleted
      {
        ghost var s := Snapshot();
        FreeOne();
        FreesOne(s);
        FreedOneMore(old(Snapshot()), s, Snapshot());
      }
      AllFreed(old(Snapshot()), Snapshot());
    }

    // ---- Blocking ----

    /** vTaskDelay: the caller sleeps until the tick count has gone up by `ticks`. */
    method Delay(ticks: nat)
      requires Valid() && suspensions == 0 && ticks < TICKS && (ticks > 0 ==> CallerReady(Snapshot()))
      modifies this
      ensures Valid() && suspensions == 0
      ensures ticks == 0 ==> Snapshot() == old(Snapshot())
      ensures ticks > 0 ==> SleepsUntil(Snapshot(), current, old(clock) + ticks)
    {
      hide Inv, SleepsUntil, DoResumeAll, Leave, AddToDelayed;
      if ticks > 0 {
        SuspendAll();
        ghost var s := Snapshot();
        DelayKeeps(s, ticks);
        RemoveFromStateList(current);
        AddCurrentTaskToDelayedList(Wrap(tick + ticks));
        DelaySleeps(s, ticks);
        ResumeKeepsSleepers(Snapshot());
        ResumeAll();
      }
    }

    /** vTaskDelayUntil: `next` is the new value of the variable that holds the previous wake time.
        If that held the unbounded time `due`, the caller sleeps until `due + increment`. */
    method DelayUntil(previous: nat, increment: nat) returns (next: nat)
      requires Valid() && suspensions == 0 && CallerReady(Snapshot())
      requires previous < TICKS && 0 < increment < TICKS
      modifies this
      ensures Valid() && suspensions == 0
      ensures next == Wrap(previous + increment)
      ensures forall due: nat :: Wrap(due) == previous && due <= old(clock) < due + TICKS
                                 ==> SleepsUntil(Snapshot(), current, due + increment)
    {
      hide Inv, SleepsUntil, DoResumeAll, Leave, AddToDelayed, Wrap;
      SuspendAll();
      ghost var s := Snapshot();
      DelayUntilKeeps(s, previous, increment);
      next := Wrap(previous + increment);
      var shouldDelay := false;
      if tick < previous {
        if next < previous && next > tick {
          shouldDelay := true;
        }
      } else {
        if next < previous || next > tick {
          shouldDelay := true;
        }
      }
      if shouldDelay {
        RemoveFromStateList(current);
        AddCurrentTaskToDelayedList(next);
      }
      ghost var s1 := Snapshot();
      assert s1 == DoDelayUntil(s, previous, increment);
      forall due: nat | Wrap(due) == previous && due <= s.clock < due + TICKS
        ensures SleepsUntil(s1, current, due + increment)
      {
        DelayUntilSleepsUntil(s, due, increment);
      }
      ResumeKeepsSleepers(s1);
      ResumeAll();
    }

    method PlaceOnEventList(list: nat, ticks: nat)
      requires Valid() && 0 < ticks < TICKS && CallerReady(Snapshot())
      modifies this
      ensures Valid() && Snapshot() == DoPlaceOnEventList(old(Snapshot()), list, ticks)
    {
      hide Inv, Block, AttachSorted;
      PlaceOnEventListKeeps(Snapshot(), list, ticks);
      store := AttachSorted(store, Event(current), EventList(list));
      PlacedSorted(old(Snapshot()), Snapshot(), list);
      BlockFor(ticks);
    }

    method PlaceOnUnorderedEventList(list: nat, value: nat, ticks: nat)
      requires Valid() && 0 < ticks < TICKS && CallerReady(Snapshot()) && suspensions > 0
      modifies this
      ensures Valid() && Snapshot() == DoPlaceOnUnordered(old(Snapshot()), list, value, ticks)
    {
      hide Inv, Block;
      PlaceOnUnorderedKeeps(Snapshot(), list, value, ticks);
      store := SetValue(store, Event(current), MarkInUse(value));
      store := AttachEnd(store, Event(current), EventList(list));
      BlockFor(ticks);
    }

    // ---- Waking ----

    method RemoveFromEventList(list: nat)
      requires Valid() && At(store, EventList(list)).items != []
      modifies this
      ensures Valid() && Snapshot() == DoRemoveFromEventList(old(Snapshot()), list)
    {
      hide Inv, AddToReady;
      RemoveFromEventListKeeps(Snapshot(), list);
      var t := At(store, EventList(list)).items[0].task;
      store := Detach(store, Event(t));
      if suspensions == 0 {
        store := Detach(store, Generic(t));
        AddTaskToReadyList(t);
      } else {
        store := AttachEnd(store, Event(t), PendingReady);
      }
    }

    method RemoveFromUnorderedEventList(t: Task, value: nat)
      requires Valid() && suspensions > 0
      requires WaitOf(Snapshot(), t).On? && WaitOf(Snapshot(), t).list.EventList?
      modifies this
      ensures Valid() && Snapshot() == DoRemoveFromUnordered(old(Snapshot()), t, value)
    {
      hide Inv, AddToReady;
      RemoveFromUnorderedKeeps(Snapshot(), t, value);
      store := SetValue(store, Event(t), MarkInUse(value));
      store := Detach(store, Event(t));
      store := Detach(store, Generic(t));
      AddTaskToReadyList(t);
    }

    method Suspend(t: Task)
      requires Valid() && t in tcbs && StateOf(Snapshot(), t) != On(Termination)
      modifies this
      ensures Valid() && Snapshot() == DoSuspendTask(old(Snapshot()), t)
    {
      hide Inv, Only, Leave, ResetNextUnblock;
      SuspendTaskKeeps(Snapshot(), t);
      RemoveFromStateList(t);
      if PlaceOf(store, Event(t)).On? {
        store := Detach(store, Event(t));
      }
      store := AttachEnd(store, Generic(t), Suspended);
      if t != current {
        ResetNextTaskUnblockTime();
      }
    }

    method Resume(t: Task)
      requires Valid()
      modifies this
      ensures Valid() && Snapshot() == DoResumeTask(old(Snapshot()), t)
    {
      hide Inv, Only, AddToReady;
      ResumeTaskKeeps(Snapshot(), t);
      if t != current {
        if PlaceOf(store, Generic(t)) == On(Suspended) && PlaceOf(store, Event(t)) == Nowhere {
          store := Detach(store, Generic(t));
          AddTaskToReadyList(t);
        }
      }
    }

    method ResumeFromISR(t: Task)
      requires Valid()
      modifies this
      ensures Valid() && Snapshot() == DoResumeFromISR(old(Snapshot()), t)
    {
      hide Inv, Only, AddToReady;
      ResumeFromISRKeeps(Snapshot(), t);
      if PlaceOf(store, Generic(t)) == On(Suspended) && PlaceOf(store, Event(t)) == Nowhere {
        if suspensions == 0 {
          store := Detach(store, Generic(t));
          AddTaskToReadyList(t);
        } else {
          store := AttachEnd(store, Event(t), PendingReady);
        }
      }
    }

    // ---- Priorities ----

    /** Gives a task its new control block; if it was on the ready list of its old priority it
        moves to that of its new one. */
    method ChangeTaskTcb(t: Task, tcb: Tcb)
      requires t in tcbs
      modifies this`tcbs, this`store, this`bits, this`top
      ensures Snapshot() == ChangeTcb(old(Snapshot()), t, tcb)
    {
      hide AddToReady, Core, OnlyMoved, Detach;
      var was := tcbs[t].priority;
      tcbs := tcbs[t := tcb];
      if PlaceOf(store, Generic(t)) == On(Ready(was)) {
        store := Detach(store, Generic(t));
        if At(store, Ready(was)).items == [] {
          bits := bits - {was};
        }
        AddTaskToReadyList(t);
      }
    }

    method UpdateEvent(t: Task, priority: nat)
      modifies this`store
      ensures Snapshot() == UpdateEventValue(old(Snapshot()), t, priority)
    {
      if Value(store, Event(t)) < IN_USE {
        store := SetValue(store, Event(t), NormalEventValue(priority));
      }
    }

    method PrioritySet(t: Task, priority: nat)
      requires Valid()
      modifies this
      ensures Valid() && Snapshot() == DoSetPriority(old(Snapshot()), t, priority)
      ensures t in old(tcbs) ==>
                var p, tcb := if priority < PRIORITIES then priority else PRIORITIES - 1, old(tcbs)[t];
                tcbs == old(tcbs)[t := Tcb(if tcb.priority == tcb.basePriority then p else tcb.priority, p,
                                           tcb.mutexesHeld)]
    {
      hide Inv, Only, StaysPut, ChangeTcb, UpdateEventValue;
      if t in tcbs { TaskPriorities.SetsPriority(Snapshot(), t, priority); }
      SetPriorityKeeps(Snapshot(), t, priority);
      var p := Clip(priority);
      if t in tcbs && tcbs[t].basePriority != p {
        UpdateEventTcbs(Snapshot(), t, p);
        UpdateEvent(t, p);
        ChangeTaskTcb(t, WithPriority(tcbs[t], p));
      }
    }

    method PriorityInherit(holder: Task)
      requires Valid()
      modifies this
      ensures Valid() && Snapshot() == DoInherit(old(Snapshot()), holder)
    {
      hide Inv, Only, StaysPut, ChangeTcb, UpdateEventValue;
      InheritKeeps(Snapshot(), holder);
      var p := Priority(current);
      if holder in tcbs && tcbs[holder].priority < p {
        UpdateEventTcbs(Snapshot(), holder, p);
        UpdateEvent(holder, p);
        ChangeTaskTcb(holder, tcbs[holder].(priority := p));
      }
    }

    method PriorityDisinherit(holder: Task)
      requires Valid() && holder == current && CallerReady(Snapshot())
      modifies this
      ensures Valid() && Snapshot() == DoDisinherit(old(Snapshot()), holder)
    {
      hide Inv, Only, StaysPut, AddToReady, Leave;
      DisinheritKeeps(Snapshot(), holder);
      if holder in tcbs && tcbs[holder].mutexesHeld > 0 {
        var tcb := tcbs[holder].(mutexesHeld := tcbs[holder].mutexesHeld - 1);
        if tcb.priority != tcb.basePriority && tcb.mutexesHeld == 0 {
          RemoveFromStateList(holder);
          LeaveTcbs(old(Snapshot()), holder);
          tcbs := tcbs[holder := tcb.(priority := tcb.basePriority)];
          store := SetValue(store, Event(holder), NormalEventValue(tcb.basePriority));
          AddTaskToReadyList(holder);
        } else {
          tcbs := tcbs[holder := tcb];
        }
      }
    }

    /** pvTaskIncrementMutexHeldCount */
    method IncrementMutexHeldCount()
      requires Valid()
      modifies this
      ensures Valid() && Snapshot() == DoTakeMutex(old(Snapshot()))
    {
      hide Inv, Only, StaysPut;
      TakeMutexKeeps(Snapshot());
      if current in tcbs {
        tcbs := tcbs[current := tcbs[current].(mutexesHeld := tcbs[current].mutexesHeld + 1)];
      }
    }

    /** uxTaskResetEventItemValue */
    method TakeEventItemValue() returns (value: nat)
      requires Valid()
      modifies this
      ensures Valid() && Snapshot() == DoResetEventItemValue(old(Snapshot()))
      ensures value == Value(old(store), Event(current))
    {
      hide Inv, Only, StaysPut;
      ResetEventItemValueKeeps(Snapshot());
      value := Value(store, Event(current));
      store := SetValue(store, Event(current), NormalEventValue(Priority(current)));
    }

    // ---- Reporting ----

    /** Moves the index of a list on, and reports the task it comes to. */
    method NextEntry(l: ListId) returns (t: Task)
      requires At(store, l).items != []
      modifies this`store
      ensures store == MoveIndex(old(store), l)
      ensures t == Current(Advance(At(old(store), l))).task
    {
      store := MoveIndex(store, l);
      t := Current(At(store, l)).task;
    }

    /** prvListTaskWithinSingleList: from the first task it comes to, round to it again. */
    method ListTasks(l: ListId) returns (entries: seq<Entry>)
      requires Valid() && IsStateList(l)
      modifies this`store
      ensures Valid() && entries == OfList(old(Snapshot()), l)
      ensures OnlyIndexMoved(old(store), store, l)
    {
      hide Inv, Walk, Current, MoveIndex;
      ghost var s := Snapshot();
      entries := [];
      if At(store, l).items != [] {
        ghost var start := Advance(At(store, l));
        IndexMoved(s, store, l);
        var first := NextEntry(l);
        var done := false;
        while !done
          invariant OnlyIndexMoved(s.store, store, l) && Snapshot() == s.(store := store) && Valid()
          invariant |entries| <= |start.items| && At(store, l) == AdvanceBy(start, |entries|)
          invariant SoFar(s, l, start, entries)
          invariant done <==> |entries| == |start.items|
          decreases |start.items| - |entries|
        {
          TurnEnds(s, l, start, |entries|);
          IndexMoved(s, store, l);
          var t := NextEntry(l);
          entries := entries + [Describe(tcbs, PlaceOf(store, Event(t)), l, t)];
          SoFarOneMore(s, l, start, entries);
          done := t == first;
        }
      }
    }

    method VisitNext(ghost s: State, ghost k: nat, l: ListId, report: seq<Entry>) returns (more: seq<Entry>)
      requires Valid() && k < |Visited(s)| && l == Visited(s)[k]
      requires Unvisited(s, Snapshot(), k) && report == OfLists(s, Visited(s)[..k])
      modifies this`store
      ensures Valid() && Unvisited(s, Snapshot(), k + 1) && more == OfLists(s, Visited(s)[..k + 1])
    {
      hide Inv, OfList, Visited;
      VisitedOnce(s);
      ghost var s1 := Snapshot();
      var entries := ListTasks(l);
      more := report + entries;
      SameOfList(s, s1, l);
      assert Visited(s)[..k + 1] == Visited(s)[..k] + [l];
      OfListsAppend(s, Visited(s)[..k], l);
    }

    /** uxTaskGetSystemState */
    method GetSystemState(size: nat) returns (report: seq<Entry>)
      requires Valid()
      modifies this`store
      ensures Valid() && report == SystemState(old(Snapshot()), size)
      ensures |report| == (if size >= old(numberOfTasks) then old(numberOfTasks) else 0) && TasksDiffer(report)
      ensures forall i :: 0 <= i < |report| ==> Tells(old(Snapshot()), report[i])
      ensures forall l :: Items(Snapshot(), l) == Items(old(Snapshot()), l)
    {
      hide Inv, OfList, OfLists, Visited, MoveIndex, Tells, TasksDiffer;
      ghost var s := Snapshot();
      ReportIsComplete(s, size);
      hide Valid;
      VisitedOrder(s);
      report := [];
      if size >= numberOfTasks {
        assert OfLists(s, Visited(s)[..0]) == [] by { NothingReported(s); }
        var p := PRIORITIES;
        while p > 0
          invariant 0 <= p <= PRIORITIES
          invariant Valid() && Unvisited(s, Snapshot(), PRIORITIES - p)
          invariant report == OfLists(s, Visited(s)[..PRIORITIES - p])
        {
          p := p - 1;
          report := VisitNext(s, PRIORITIES - 1 - p, Ready(p), report);
        }
        report := VisitNext(s, PRIORITIES, CurrentList(), report);
        report := VisitNext(s, PRIORITIES + 1, OverflowList(), report);
        report := VisitNext(s, PRIORITIES + 2, Termination, report);
        report := VisitNext(s, PRIORITIES + 3, Suspended, report);
        assert Visited(s)[..PRIORITIES + 4] == Visited(s);
      }
    }
  }

  lemma ReportIsComplete(s: State, size: nat)
    requires Inv(s)
    ensures var r := SystemState(s, size);
            && |r| == (if size >= s.numberOfTasks then s.numberOfTasks else 0) && TasksDiffer(r)
            && forall i :: 0 <= i < |r| ==> Tells(s, r[i])
  {
    hide Inv, OfLists, Visited, Tells;
    SystemStateIsComplete(s, size);
  }

  /** Only deleted tasks have been freed, and nobody else has been touched. */
  ghost predicate Freed(s: State, s1: State) {
    && (forall t :: t in s1.tcbs ==> t in s.tcbs && SameTask(s, s1, t))
    && (forall t :: t in s.tcbs && t !in s1.tcbs ==> StateOf(s, t) == On(Termination))
  }

  lemma FreedNone(s: State)
    ensures Freed(s, s)
  {
  }

  lemma FreesOne(s: State)
    requires Inv(s) && StateOf(s, s.current) != On(Termination) && s.tasksDeleted > 0
    ensures Freed(s, DoCleanUp(s)) && DoCleanUp(s).current == s.current
    ensures StateOf(DoCleanUp(s), s.current) != On(Termination)
    ensures DoCleanUp(s).tasksDeleted == s.tasksDeleted - 1
  {
    hide Core, AllPlaced, TicksAccounted, TakeOff;
    CleanUpKeeps(s);
    var s1 := DoCleanUp(s);
    var freed := Items(s, Termination)[0].task;
    SameCount(s);
    forall t | t != freed
      ensures SameTask(s, s1, t)
    {
    }
  }

  lemma SameCount(s: State)
    requires Inv(s)
    ensures |Items(s, Termination)| == s.tasksDeleted && s.numberOfTasks > 0
  {
    SomeTask(s);
  }

  lemma FreedOneMore(s: State, s1: State, s2: State)
    requires Freed(s, s1) && Freed(s1, s2)
    ensures Freed(s, s2)
  {
    forall t | t in s2.tcbs
      ensures SameTask(s, s2, t)
    {
      assert SameTask(s1, s2, t) && SameTask(s, s1, t);
    }
    forall t | t in s.tcbs && t !in s2.tcbs
      ensures StateOf(s, t) == On(Termination)
    {
      if t in s1.tcbs { assert SameTask(s, s1, t); }
    }
  }

  lemma AllFreed(s: State, s1: State)
    requires Freed(s, s1) && Inv(s1) && s1.tasksDeleted == 0
    ensures forall t :: t in s1.tcbs <==> t in s.tcbs && StateOf(s, t) != On(Termination)
  {
    hide ReadyOk, TimeAt, AllPlaced;
    forall t | t in s1.tcbs
      ensures StateOf(s, t) != On(Termination)
    {
      assert SameTask(s, s1, t);
      assert !Member(s1.store, Generic(t), Termination);
    }
  }

  lemma CoreIsConsistent(s: State)
    requires Core(s)
    ensures Consistent(s.store)
  {
  }

  lemma CoreHasMarks(s: State)
    requires Core(s)
    ensures MarksOk(s) && Fits(s.bits)
  {
    hide Consistent, TimeAt;
  }

  lemma DelaySleeps(s: State, ticks: nat)
    requires Inv(s) && CallerReady(s) && 0 < ticks < TICKS
    ensures SleepsUntil(DoDelay(s, ticks), s.current, s.clock + ticks)
  {
    hide Inv, DoDelay, WakeTime;
    DelayKeeps(s, ticks);
    WrapSum(s.clock, ticks);
    InvIsCore(s);
    FiledSleeps(s, DoDelay(s, ticks), s.current, s.clock + ticks);
  }

  lemma DelayUntilSleepsUntil(s: State, due: nat, increment: nat)
    requires Inv(s) && CallerReady(s) && 0 < increment < TICKS && due <= s.clock < due + TICKS
    ensures SleepsUntil(DoDelayUntil(s, Wrap(due), increment), s.current, due + increment)
  {
    hide Inv, WakeTime, AddToDelayed, Leave, ShouldDelay;
    InvIsCore(s);
    WrapSum(due, increment);
    DelayUntilDecides(due, s.clock, increment);
    if due + increment > s.clock {
      DelayUntilSleeps(s, due, increment);
    } else {
      ReadySleeps(s, due + increment);
    }
  }

  lemma ResumeKeepsSleepers(s: State)
    requires Inv(s) && s.suspensions > 0
    ensures forall t, wake :: SleepsUntil(s, t, wake) ==> SleepsUntil(DoResumeAll(s), t, wake)
  {
    hide Core, AllPlaced, Counted, TicksAccounted, SleepsUntil, Consistent;
    CoreIsConsistent(s);
    forall t, wake | SleepsUntil(s, t, wake)
      ensures SleepsUntil(DoResumeAll(s), t, wake)
    {
      TimedStepWhileAsleep(s, Step.ResumeAll, t, wake);
    }
  }

  lemma PlacedSorted(s: State, s1: State, list: nat)
    requires s1 == s.(store := AttachSorted(s.store, Event(s.current), EventList(list)))
    ensures s1 == PutEvent(s, s.current, EventList(list), SortedPosition(s.store, Event(s.current), EventList(list)))
  {
  }

  lemma UpdateEventTcbs(s: State, t: Task, priority: nat)
    ensures UpdateEventValue(s, t, priority).tcbs == s.tcbs
  {
  }

  lemma LeaveTcbs(s: State, t: Task)
    ensures Leave(s, t).tcbs == s.tcbs
  {
  }

  // ---- Walking a list to report it ----

  ghost predicate OnlyIndexMoved(st: Store, st': Store, l: ListId) {
    && st'.places == st.places && st'.values == st.values
    && At(st', l).items == At(st, l).items
    && (forall m :: m != l ==> At(st', m) == At(st, m))
  }

  lemma IndexMoved(s: State, st: Store, l: ListId)
    requires OnlyIndexMoved(s.store, st, l) && At(st, l).items != []
    requires Inv(s.(store := st))
    ensures OnlyIndexMoved(s.store, MoveIndex(st, l), l)
    ensures At(MoveIndex(st, l), l) == Advance(At(st, l))
    ensures Inv(s.(store := MoveIndex(st, l)))
  {
    hide Inv;
    IndexKeepsInv(s.(store := st), l);
  }

  /** The entries of the first items of the walk. */
  ghost predicate SoFar(s: State, l: ListId, start: Ring<Item>, entries: seq<Entry>)
    requires 0 < start.index <= |start.items|
  {
    forall i :: 0 <= i < |entries| ==> entries[i] == EntryFor(s, l, Walk(start, |entries|)[i].task)
  }

  lemma SoFarOneMore(s: State, l: ListId, start: Ring<Item>, entries: seq<Entry>)
    requires 0 < start.index <= |start.items| && 0 < |entries|
    requires var n := |entries| - 1;
             SoFar(s, l, start, entries[..n])
             && entries[n] == EntryFor(s, l, Current(Advance(AdvanceBy(start, n))).task)
    ensures SoFar(s, l, start, entries)
  {
    hide Walk, AdvanceBy, Advance, Current;
    var n := |entries| - 1;
    WalkOneMore(start, n);
    forall i | 0 <= i < n
      ensures entries[i] == EntryFor(s, l, Walk(start, n + 1)[i].task)
    {
      assert entries[..n][i] == entries[i];
    }
  }

  lemma TurnEnds(s: State, l: ListId, start: Ring<Item>, n: nat)
    requires Inv(s) && IsStateList(l)
    requires At(s.store, l).items != [] && start == Advance(At(s.store, l)) && n < |start.items|
    ensures AdvanceBy(start, n + 1) == Advance(AdvanceBy(start, n))
    ensures Current(Advance(AdvanceBy(start, n))).task == Current(start).task <==> n + 1 == |start.items|
  {
    hide ReadyOk, TimeAt, AllPlaced, Counted, TicksAccounted;
    assert Valid(At(s.store, l));
    WalkOneMore(start, n);
    BackAfterAll(start, n + 1);
    var next := Current(Advance(AdvanceBy(start, n)));
    assert Member(s.store, next, l) && Member(s.store, Current(start), l);
  }

  /** Indexes have moved in the lists visited so far, and nothing else has changed. */
  ghost predicate Unvisited(s: State, s1: State, k: nat) {
    && s1 == s.(store := s1.store)
    && s1.store.places == s.store.places && s1.store.values == s.store.values
    && (forall l :: Items(s1, l) == Items(s, l))
    && (forall j :: k <= j < |Visited(s)| ==> At(s1.store, Visited(s)[j]) == At(s.store, Visited(s)[j]))
  }

  lemma VisitedOrder(s: State)
    ensures |Visited(s)| == PRIORITIES + 4
    ensures forall p :: 0 <= p < PRIORITIES ==> Visited(s)[p] == Ready(PRIORITIES - 1 - p)
    ensures Visited(s)[PRIORITIES] == CurrentDelayed(s) && Visited(s)[PRIORITIES + 1] == OverflowDelayed(s)
    ensures Visited(s)[PRIORITIES + 2] == Termination && Visited(s)[PRIORITIES + 3] == Suspended
  {
  }

  lemma NothingReported(s: State)
    ensures OfLists(s, []) == []
  {
  }

  lemma SameOfList(s: State, s1: State, l: ListId)
    requires s1 == s.(store := s1.store) && s1.store.places == s.store.places
    requires At(s1.store, l) == At(s.store, l)
    ensures OfList(s1, l) == OfList(s, l)
  {
    hide Walk, Advance;
    assert forall m, t :: EntryFor(s1, m, t) == EntryFor(s, m, t);
  }

  lemma {:induction false} OfListsAppend(s: State, lists: seq<ListId>, l: ListId)
    ensures OfLists(s, lists + [l]) == OfLists(s, lists) + OfList(s, l)
  {
    hide OfList;
    if lists != [] {
      assert (lists + [l])[1..] == lists[1..] + [l];
      OfListsAppend(s, lists[1..], l);
    }
  }

  lemma IndexKeepsCore(s: State, l: ListId)
    requires Core(s) && Items(s, l) != []
    ensures Core(s.(store := MoveIndex(s.store, l)))
  {
    hide Consistent, SortedList, MoveIndex;
    IndexMoves(s.store, l);
    MarksFrame(s, s.(store := MoveIndex(s.store, l)));
  }

  lemma IndexKeepsInv(s: State, l: ListId)
    requires Inv(s) && Items(s, l) != []
    ensures Inv(s.(store := MoveIndex(s.store, l)))
  {
    hide Core, MoveIndex, Consistent, SortedList;
    CoreIsConsistent(s);
    IndexKeepsCore(s, l);
    IndexMoves(s.store, l);
    var s1 := s.(store := MoveIndex(s.store, l));
    forall t
      ensures WellPlaced(s1, t)
    {
      assert WellPlaced(s, t);
    }
  }
}
