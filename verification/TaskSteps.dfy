/** The operations of tasks.c as steps of one state machine.  A step is what one critical section,
    one interrupt, or one stretch with the scheduler suspended does. */
module TaskSteps {
  import opened RingList
  import opened Ticks
  import opened ItemStore
  import opened TaskState
  import opened TaskTick
  import opened TaskMoves

  datatype Step =
    | Create(task: Task, priority: nat)
    | Delete(task: Task)
    | CleanUp
    | SuspendAll
    | ResumeAll
    | TickInterrupt
    | Delay(ticks: nat)
    | DelayUntil(previous: nat, increment: nat)
    | PlaceOnEventList(list: nat, ticks: nat)
    | PlaceOnUnorderedEventList(list: nat, value: nat, ticks: nat)
    | RemoveFromEventList(list: nat)
    | RemoveFromUnorderedEventList(task: Task, value: nat)
    | SuspendTask(task: Task)
    | ResumeTask(task: Task)
    | ResumeFromISR(task: Task)
    | SetPriority(task: Task, priority: nat)
    | Inherit(holder: Task)
    | Disinherit(holder: Task)
    | TakeMutex
    | ResetEventItemValue
    | SwitchContext

  // ---- Task control blocks ----

  function Clip(priority: nat): nat {
    if priority >= PRIORITIES then PRIORITIES - 1 else priority
  }

  /** vTaskPrioritySet on the task control block: an inherited priority in use is not changed. */
  function WithPriority(tcb: Tcb, priority: nat): Tcb {
    tcb.(priority := if tcb.basePriority == tcb.priority then priority else tcb.priority, basePriority := priority)
  }

  /** Changes a task control block; a ready task moves to the end of the list of its new priority. */
  function ChangeTcb(s: State, t: Task, tcb: Tcb): State {
    if StateOf(s, t) == On(Ready(PriorityOf(s, t))) then
      var s1 := Leave(s, t);
      AddToReady(s1.(tcbs := s1.tcbs[t := tcb]), t)
    else
      s.(tcbs := s.tcbs[t := tcb])
  }

  /** The event item keeps its value while an event group is using it. */
  function UpdateEventValue(s: State, t: Task, priority: nat): State {
    if Value(s.store, Event(t)) < IN_USE then SetEventValue(s, t, NormalEventValue(priority)) else s
  }

  function MarkInUse(value: nat): nat {
    if value < IN_USE then value + IN_USE else value
  }

  // ---- Blocking ----

  /** The common end of the blocking calls: off the ready list, onto a delayed list or, for an
      endless wait, the suspended list. */
  function Block(s: State, ticks: nat): State {
    var s1 := Leave(s, s.current);
    if ticks == MAX_DELAY then PutAtEnd(s1, s.current, Suspended)
    else AddToDelayed(s1, s.current, Wrap(s.tick + ticks))
  }

  /** Whether vTaskDelayUntil blocks, from the 32-bit values alone. */
  predicate ShouldDelay(now: nat, previous: nat, wake: nat) {
    if now < previous then wake < previous && wake > now else wake < previous || wake > now
  }

  // ---- Steps ----

  function DoCreate(s: State, t: Task, priority: nat): State {
    var p := Clip(priority);
    var s1 := s.(tcbs := s.tcbs[t := Tcb(p, p, 0)], numberOfTasks := s.numberOfTasks + 1);
    AddToReady(SetEventValue(s1, t, NormalEventValue(p)), t)
  }

  function DoDelete(s: State, t: Task): State {
    var s1 := PutAtEnd(DropEvent(Leave(s, t), t), t, Termination);
    var s2 := s1.(tasksDeleted := s.tasksDeleted + 1);
    if t == s.current then s2 else ResetNextUnblock(s2)
  }

  /** One turn of the loop in prvCheckTasksWaitingTermination. */
  function DoCleanUp(s: State): State {
    var items := Items(s, Termination);
    if s.tasksDeleted == 0 || s.numberOfTasks == 0 || items == [] then s
    else
      var t := items[0].task;
      TakeOff(s, t).(tcbs := s.tcbs - {t}, numberOfTasks := s.numberOfTasks - 1, tasksDeleted := s.tasksDeleted - 1)
  }

  function DoSuspendTask(s: State, t: Task): State {
    var s1 := PutAtEnd(DropEvent(Leave(s, t), t), t, Suspended);
    if t == s.current then s1 else ResetNextUnblock(s1)
  }

  /** prvTaskIsTaskSuspended: suspended, and neither waiting for an event nor already resumed. */
  predicate IsSuspended(s: State, t: Task) {
    StateOf(s, t) == On(Suspended) && WaitOf(s, t) == Nowhere
  }

  function DoResumeTask(s: State, t: Task): State {
    if t != s.current && IsSuspended(s, t) then AddToReady(TakeOff(s, t), t) else s
  }

  function DoResumeFromISR(s: State, t: Task): State {
    if !IsSuspended(s, t) then s
    else if s.suspensions == 0 then AddToReady(TakeOff(s, t), t)
    else PutEvent(s, t, PendingReady, EndPosition(At(s.store, PendingReady)))
  }

  function DoDelay(s: State, ticks: nat): State {
    if ticks == 0 then s
    else AddToDelayed(Leave(s, s.current), s.current, Wrap(s.tick + ticks))
  }

  function DoDelayUntil(s: State, previous: nat, increment: nat): State {
    var wake := Wrap(previous + increment);
    if ShouldDelay(s.tick, previous, wake) then AddToDelayed(Leave(s, s.current), s.current, wake) else s
  }

  function DoPlaceOnEventList(s: State, list: nat, ticks: nat): State {
    Block(PutEvent(s, s.current, EventList(list), SortedPosition(s.store, Event(s.current), EventList(list))), ticks)
  }

  function DoPlaceOnUnordered(s: State, list: nat, value: nat, ticks: nat): State {
    var s1 := SetEventValue(s, s.current, MarkInUse(value));
    Block(PutEvent(s1, s.current, EventList(list), EndPosition(At(s1.store, EventList(list)))), ticks)
  }

  function DoRemoveFromEventList(s: State, list: nat): State {
    var items := Items(s, EventList(list));
    if items == [] then s
    else
      var t := items[0].task;
      var s1 := DropEvent(s, t);
      if s.suspensions == 0 then AddToReady(TakeOff(s1, t), t)
      else PutEvent(s1, t, PendingReady, EndPosition(At(s1.store, PendingReady)))
  }

  function DoRemoveFromUnordered(s: State, t: Task, value: nat): State {
    AddToReady(TakeOff(DropEvent(SetEventValue(s, t, MarkInUse(value)), t), t), t)
  }

  function DoSetPriority(s: State, t: Task, priority: nat): State {
    var p := Clip(priority);
    if t !in s.tcbs || s.tcbs[t].basePriority == p then s
    else ChangeTcb(UpdateEventValue(s, t, p), t, WithPriority(s.tcbs[t], p))
  }

  function DoInherit(s: State, holder: Task): State {
    var p := PriorityOf(s, s.current);
    if holder !in s.tcbs || s.tcbs[holder].priority >= p then s
    else ChangeTcb(UpdateEventValue(s, holder, p), holder, s.tcbs[holder].(priority := p))
  }

  function DoDisinherit(s: State, holder: Task): State {
    if holder !in s.tcbs || s.tcbs[holder].mutexesHeld == 0 then s
    else
      var tcb := s.tcbs[holder].(mutexesHeld := s.tcbs[holder].mutexesHeld - 1);
      if tcb.priority == tcb.basePriority || tcb.mutexesHeld > 0 then
        s.(tcbs := s.tcbs[holder := tcb])
      else
        var s1 := Leave(s, holder);
        var s2 := s1.(tcbs := s1.tcbs[holder := tcb.(priority := tcb.basePriority)]);
        AddToReady(SetEventValue(s2, holder, NormalEventValue(tcb.basePriority)), holder)
  }

  function DoTakeMutex(s: State): State {
    if s.current !in s.tcbs then s
    else s.(tcbs := s.tcbs[s.current := s.tcbs[s.current].(mutexesHeld := s.tcbs[s.current].mutexesHeld + 1)])
  }

  function DoResetEventItemValue(s: State): State {
    SetEventValue(s, s.current, NormalEventValue(PriorityOf(s, s.current)))
  }

  /** Moves the pended wake-ups to the ready lists: the first loop of xTaskResumeAll. */
  function MovePending(s: State): (s1: State)
    requires Consistent(s.store)
    ensures Consistent(s1.store)
    decreases |Items(s, PendingReady)|
  {
    var items := Items(s, PendingReady);
    if items == [] then s
    else
      MoveFirstPendingShrinks(s);
      MovePending(MoveFirstPending(s))
  }

  function MoveFirstPending(s: State): State
    requires Items(s, PendingReady) != []
  {
    var t := Items(s, PendingReady)[0].task;
    AddToReady(TakeOff(DropEvent(s, t), t), t)
  }

  lemma MoveFirstPendingShrinks(s: State)
    requires Consistent(s.store) && Items(s, PendingReady) != []
    ensures Consistent(MoveFirstPending(s).store)
    ensures |Items(MoveFirstPending(s), PendingReady)| == |Items(s, PendingReady)| - 1
  {
    var i := Items(s, PendingReady)[0];
    var t := i.task;
    assert Member(s.store, i, PendingReady);
    var s1 := DropEvent(s, t);
    DetachKeeps(s.store, i);
    StateListsOnly(s1.store, t);
    hide Consistent;
    var s2 := TakeOff(s1, t);
    if StateOf(s1, t).On? {
      DetachKeeps(s1.store, Generic(t));
    }
    AttachKeeps(s2.store, Generic(t), Ready(PriorityOf(s2, t)), EndPosition(At(s2.store, Ready(PriorityOf(s2, t)))));
  }

  lemma StateListsOnly(st: Store, t: Task)
    requires Consistent(st)
    ensures PlaceOf(st, Generic(t)).On? ==> IsStateList(PlaceOf(st, Generic(t)).list)
  {
  }

  /** Processes the ticks that came while the scheduler was suspended: the second loop. */
  function ProcessPended(s: State): State
    requires Consistent(s.store)
    decreases s.pendedTicks
  {
    if s.pendedTicks == 0 then s
    else ProcessPended(IncrementTick(s).(pendedTicks := s.pendedTicks - 1))
  }

  /** Nothing but wake-ups: no time has passed, nobody has come or gone. */
  ghost predicate SameBooks(s: State, s1: State) {
    && SameClock(s, s1) && Kept(s, s1) && s1.tcbs == s.tcbs
    && s1.interrupts == s.interrupts && s1.pendedTicks == s.pendedTicks
    && s1.suspensions == s.suspensions && s1.current == s.current
  }

  /** All pended wake-ups are done: those tasks are ready, and nobody else has moved. */
  ghost predicate PendingWoken(s: State, s1: State) {
    && SameBooks(s, s1)
    && (forall t :: WaitOf(s, t) == On(PendingReady)
                    ==> StateOf(s1, t) == On(Ready(PriorityOf(s, t))) && WaitOf(s1, t) == Nowhere)
    && (forall t :: WaitOf(s, t) != On(PendingReady) ==> SameTask(s, s1, t))
  }

  /** A pended task is still on the list it was blocked on. */
  ghost predicate PendingBlocked(s: State) {
    forall t :: WaitOf(s, t) == On(PendingReady)
                ==> t in s.tcbs && StateOf(s, t).On? && !StateOf(s, t).list.Ready? && !StateOf(s, t).list.Termination?
  }

  lemma PendingHead(s: State)
    requires Consistent(s.store)
    ensures Items(s, PendingReady) != [] ==>
              var i := Items(s, PendingReady)[0]; i.Event? && PlaceOf(s.store, i) == On(PendingReady)
    ensures Items(s, PendingReady) == [] ==> forall t :: WaitOf(s, t) != On(PendingReady)
  {
    if Items(s, PendingReady) != [] {
      assert Member(s.store, Items(s, PendingReady)[0], PendingReady);
    }
    forall t
      ensures Items(s, PendingReady) == [] ==> WaitOf(s, t) != On(PendingReady)
    {
      assert Member(s.store, Event(t), PendingReady) <==> WaitOf(s, t) == On(PendingReady);
    }
  }

  lemma MoveFirstPendingKeeps(s: State)
    requires Core(s) && Items(s, PendingReady) != []
    requires PendingBlocked(s)
    ensures var t := Items(s, PendingReady)[0].task;
            var s1 := MoveFirstPending(s);
            && WaitOf(s, t) == On(PendingReady)
            && Core(s1) && Only(s, s1, t) && SameBooks(s, s1)
            && StateOf(s1, t) == On(Ready(PriorityOf(s, t))) && WaitOf(s1, t) == Nowhere
  {
    PendingHead(s);
    hide Consistent, ReadyOk, TimeAt, DropEvent, TakeOff, AddToReady;
    var t := Items(s, PendingReady)[0].task;
    assert WaitOf(s, t) == On(PendingReady);
    var s1 := DropEvent(s, t);
    DropEventStep(s, t);
    var s2 := TakeOff(s1, t);
    TakeOffStep(s1, t);
    ReadyStep(s2, t);
    OnlyTwice(s, s1, s2, t);
    OnlyTwice(s, s2, AddToReady(s2, t), t);
  }

  lemma {:induction false} MovePendingKeeps(s: State)
    requires Core(s) && PendingBlocked(s)
    ensures Core(MovePending(s)) && PendingWoken(s, MovePending(s))
    decreases |Items(s, PendingReady)|
  {
    PendingHead(s);
    if Items(s, PendingReady) != [] {
      var s1, t := MoveFirstPending(s), Items(s, PendingReady)[0].task;
      MoveFirstPendingShrinks(s);
      MoveFirstPendingKeeps(s);
      hide Consistent, ReadyOk, TimeAt, MoveFirstPending;
      forall u
        ensures WaitOf(s1, u) == On(PendingReady) ==> WaitOf(s, u) == On(PendingReady) && u != t
        ensures u != t ==> SameTask(s, s1, u)
      {
        if u != t { assert SameTask(s, s1, u); }
      }
      MovePendingKeeps(s1);
      PendingTwice(s, s1, MovePending(s1), t);
    }
  }

  lemma PendingTwice(s: State, s1: State, s2: State, t: Task)
    requires WaitOf(s, t) == On(PendingReady)
    requires Only(s, s1, t) && SameBooks(s, s1)
    requires StateOf(s1, t) == On(Ready(PriorityOf(s, t))) && WaitOf(s1, t) == Nowhere
    requires PendingWoken(s1, s2)
    ensures PendingWoken(s, s2)
  {
    forall u
      ensures WaitOf(s, u) == On(PendingReady) ==>
                StateOf(s2, u) == On(Ready(PriorityOf(s, u))) && WaitOf(s2, u) == Nowhere
      ensures WaitOf(s, u) != On(PendingReady) ==> SameTask(s, s2, u)
    {
      if u == t {
        assert SameTask(s1, s2, u);
      } else {
        assert SameTask(s, s1, u);
        assert WaitOf(s1, u) != On(PendingReady) ==> SameTask(s1, s2, u);
      }
    }
  }

  /** xTaskResumeAll */
  function DoResumeAll(s: State): State
    requires s.suspensions > 0 && Consistent(s.store)
  {
    var s1 := s.(suspensions := s.suspensions - 1);
    if s1.suspensions > 0 || s1.numberOfTasks == 0 then s1 else ProcessPended(MovePending(s1))
  }

  lemma PendingIsBlocked(s: State)
    requires Core(s) && AllPlaced(s)
    requires s.suspensions > 0
    ensures var s1 := s.(suspensions := s.suspensions - 1);
            && Core(s1) && PendingBlocked(s1) && Owned(s1)
            && (PendingBlocked(s1) && Core(s1) ==> Owned(MovePending(s1)))
  {
    hide Consistent, SortedList;
    var s1 := s.(suspensions := s.suspensions - 1);
    forall t
      ensures WaitOf(s1, t) == On(PendingReady)
              ==> t in s1.tcbs && StateOf(s1, t).On? && !StateOf(s1, t).list.Ready? && !StateOf(s1, t).list.Termination?
      ensures StateOf(s1, t).On? ==> t in s1.tcbs
    {
      assert WellPlaced(s, t);
    }
    MovePendingKeeps(s1);
    PendingKeepsOwned(s1, MovePending(s1));
  }

  lemma PendingKeepsOwned(s: State, s1: State)
    requires PendingWoken(s, s1) && PendingBlocked(s) && Owned(s)
    ensures Owned(s1)
  {
    forall t | StateOf(s1, t).On?
      ensures t in s1.tcbs
    {
      if WaitOf(s, t) != On(PendingReady) {
        assert SameTask(s, s1, t);
      }
    }
  }

  function DoTickInterrupt(s: State): State
    requires Consistent(s.store)
  {
    var s1 := s.(interrupts := s.interrupts + 1);
    if s.suspensions == 0 then IncrementTick(s1) else s1.(pendedTicks := Wrap(s.pendedTicks + 1))
  }

  /** The scan of taskSELECT_HIGHEST_PRIORITY_TASK: down from `p` to a ready list that is not empty. */
  function Scan(s: State, p: nat): nat {
    if Items(s, Ready(p)) != [] || p == 0 then p else Scan(s, p - 1)
  }

  /** vTaskSwitchContext, scan form.  While the scheduler is suspended it only notes that a yield
      is pending. */
  function DoSwitchContext(s: State): State {
    var p := Scan(s, s.top);
    if s.suspensions > 0 || Items(s, Ready(p)) == [] then s
    else s.(top := p, store := MoveIndex(s.store, Ready(p)), current := Current(Advance(At(s.store, Ready(p)))).task)
  }
}
