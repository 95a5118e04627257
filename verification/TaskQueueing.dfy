/** The order in which tasks wait for an event.  A list is kept in order of event item values, and
    so of priorities, for as long as no task on it changes its priority; then the task that is
    woken first is one of the highest priority. */
module TaskQueueing {
  import opened RingList
  import opened Ticks
  import opened ItemStore
  import opened TaskState
  import opened TaskTick
  import opened TaskSteps
  import opened TaskInvariant
  import opened TaskRuns
  import opened TaskPriorities

  /** The list is sorted by value, and holds event items only. */
  ghost predicate Queued(s: State, list: nat) {
    SortedList(s.store, EventList(list)) && forall i <- Items(s, EventList(list)) :: i.Event?
  }

  // ---- Single moves ----

  lemma DetachQueued(s: State, i: Item, list: nat)
    requires Queued(s, list)
    ensures Queued(s.(store := Detach(s.store, i)), list)
  {
    hide SortedList;
    DetachKeepsSorted(s.store, i, EventList(list));
  }

  lemma AttachElsewhere(s: State, i: Item, l: ListId, k: nat, list: nat)
    requires Queued(s, list) && l != EventList(list) && k <= |At(s.store, l).items|
    ensures Queued(s.(store := AttachAt(s.store, i, l, k)), list)
  {
    var st := AttachAt(s.store, i, l, k);
    assert At(st, EventList(list)) == At(s.store, EventList(list));
    assert Values(st, Items(s, EventList(list))) == Values(s.store, Items(s, EventList(list)));
  }

  lemma SetValueQueued(s: State, i: Item, v: nat, list: nat)
    requires Queued(s, list) && i !in Items(s, EventList(list))
    ensures Queued(s.(store := SetValue(s.store, i, v)), list)
  {
    var items := Items(s, EventList(list));
    assert Values(SetValue(s.store, i, v), items) == Values(s.store, items);
  }

  lemma SameQueued(s: State, s1: State, list: nat)
    requires Queued(s, list) && s1.store == s.store
    ensures Queued(s1, list)
  {
  }

  lemma MovesKeepQueued(list: nat)
    ensures forall s, t {:trigger Leave(s, t)} :: Queued(s, list) ==> Queued(Leave(s, t), list)
    ensures forall s, t {:trigger TakeOff(s, t)} :: Queued(s, list) ==> Queued(TakeOff(s, t), list)
    ensures forall s, t {:trigger DropEvent(s, t)} :: Queued(s, list) ==> Queued(DropEvent(s, t), list)
    ensures forall s, t {:trigger AddToReady(s, t)} :: Queued(s, list) ==> Queued(AddToReady(s, t), list)
    ensures forall s {:trigger ResetNextUnblock(s)} :: Queued(s, list) ==> Queued(ResetNextUnblock(s), list)
  {
    hide Detach, AttachAt, Queued, Items, At;
    forall s: State, t | Queued(s, list)
      ensures Queued(Leave(s, t), list) && Queued(TakeOff(s, t), list) && Queued(DropEvent(s, t), list)
    {
      DetachQueued(s, Generic(t), list);
      DetachQueued(s, Event(t), list);
      SameQueued(TakeOff(s, t), Leave(s, t), list);
    }
    forall s: State, t | Queued(s, list)
      ensures Queued(AddToReady(s, t), list)
    {
      var r := Ready(PriorityOf(s, t));
      AttachElsewhere(s, Generic(t), r, EndPosition(At(s.store, r)), list);
      SameQueued(s.(store := AttachEnd(s.store, Generic(t), r)), AddToReady(s, t), list);
    }
    forall s: State | Queued(s, list)
      ensures Queued(ResetNextUnblock(s), list)
    {
      SameQueued(s, ResetNextUnblock(s), list);
    }
  }

  lemma PutAtEndQueued(s: State, t: Task, l: ListId, list: nat)
    requires Queued(s, list) && l != EventList(list)
    ensures Queued(PutAtEnd(s, t, l), list)
  {
    hide Queued, AttachAt, At;
    AttachElsewhere(s, Generic(t), l, EndPosition(At(s.store, l)), list);
  }

  lemma DelayedQueued(s: State, t: Task, wake: nat, list: nat)
    requires Queued(s, list)
    ensures Queued(AddToDelayed(s, t, wake), list)
  {
    hide SortedList, AttachAt, At, SortedPosition;
    var s1 := s.(store := SetValue(s.store, Generic(t), wake));
    SetValueQueued(s, Generic(t), wake, list);
    AttachElsewhere(s1, Generic(t), OverflowDelayed(s), SortedPosition(s1.store, Generic(t), OverflowDelayed(s)), list);
    AttachElsewhere(s1, Generic(t), CurrentDelayed(s), SortedPosition(s1.store, Generic(t), CurrentDelayed(s)), list);
  }

  lemma BlockQueued(s: State, ticks: nat, list: nat)
    requires Queued(s, list)
    ensures Queued(Block(s, ticks), list)
  {
    hide Queued, Leave, PutAtEnd, AddToDelayed, Wrap;
    MovesKeepQueued(list);
    PutAtEndQueued(Leave(s, s.current), s.current, Suspended, list);
    DelayedQueued(Leave(s, s.current), s.current, Wrap(s.tick + ticks), list);
  }

  // ---- Steps that time goes by in ----

  lemma {:induction false} WakeExpiredQueued(s: State, list: nat)
    requires Consistent(s.store) && Queued(s, list)
    ensures Queued(WakeExpired(s), list)
    decreases |Items(s, CurrentDelayed(s))|
  {
    hide Consistent, Queued, AddToReady, TakeOff, DropEvent;
    var items := Items(s, CurrentDelayed(s));
    if items != [] && s.tick >= Value(s.store, items[0]) {
      MovesKeepQueued(list);
      WakeHeadMoves(s);
      WakeExpiredQueued(WakeHead(s), list);
    } else {
      SameQueued(s, WakeExpired(s), list);
    }
  }

  lemma TickQueued(s: State, list: nat)
    requires Consistent(s.store) && Queued(s, list)
    ensures Queued(IncrementTick(s), list)
  {
    hide Consistent, Queued, WakeExpired;
    SameQueued(s, Ticked(s), list);
    if Ticked(s).tick >= Ticked(s).nextUnblock {
      WakeExpiredQueued(Ticked(s), list);
    }
  }

  lemma {:induction false} PendedQueued(s: State, list: nat)
    requires Consistent(s.store) && Queued(s, list)
    ensures Queued(ProcessPended(s), list)
    decreases s.pendedTicks
  {
    hide Consistent, Queued, IncrementTick;
    if s.pendedTicks > 0 {
      TickQueued(s, list);
      var s1 := IncrementTick(s).(pendedTicks := s.pendedTicks - 1);
      SameQueued(IncrementTick(s), s1, list);
      PendedQueued(s1, list);
    }
  }

  lemma {:induction false} MovePendingQueued(s: State, list: nat)
    requires Consistent(s.store) && Queued(s, list)
    ensures Queued(MovePending(s), list)
    decreases |Items(s, PendingReady)|
  {
    hide Consistent, Queued, AddToReady, TakeOff, DropEvent;
    if Items(s, PendingReady) != [] {
      MovesKeepQueued(list);
      MoveFirstPendingShrinks(s);
      MovePendingQueued(MoveFirstPending(s), list);
    }
  }

  lemma SwitchQueued(s: State, list: nat)
    requires Queued(s, list)
    ensures Queued(DoSwitchContext(s), list)
  {
    hide Scan, SortedList;
    var s1 := DoSwitchContext(s);
    assert Items(s1, EventList(list)) == Items(s, EventList(list));
    assert Values(s1.store, Items(s, EventList(list))) == Values(s.store, Items(s, EventList(list)));
    SameSortedList(s.store, s1.store, EventList(list));
  }

  lemma SameSortedList(st: Store, st': Store, l: ListId)
    requires SortedList(st, l) && Values(st', At(st', l).items) == Values(st, At(st, l).items)
    ensures SortedList(st', l)
  {
  }

  lemma TimedQueued(s: State, step: Step, list: nat)
    requires Inv(s) && Allowed(s, step) && IsTimed(step) && Queued(s, list)
    ensures Queued(Apply(s, step), list)
  {
    hide Queued, IncrementTick, ProcessPended, MovePending, DoSwitchContext, Core, AllPlaced, Counted, TicksAccounted,
         Consistent;
    assert Consistent(s.store) by { InvIsConsistent(s); }
    if step == ResumeAll {
      var s1 := s.(suspensions := s.suspensions - 1);
      SameQueued(s, s1, list);
      MovePendingQueued(s1, list);
      PendedQueued(MovePending(s1), list);
    } else if step == TickInterrupt {
      var s1 := s.(interrupts := s.interrupts + 1);
      SameQueued(s, s1, list);
      TickQueued(s1, list);
      SameQueued(s1, s1.(pendedTicks := Wrap(s.pendedTicks + 1)), list);
    } else if step == SwitchContext {
      SwitchQueued(s, list);
    } else {
      SameQueued(s, Apply(s, step), list);
    }
  }

  // ---- Steps of one task ----

  /** The event item of a task that does not wait on the list is not on it. */
  lemma NotListed(s: State, t: Task, list: nat)
    requires Inv(s) && WaitOf(s, t) != On(EventList(list))
    ensures Event(t) !in Items(s, EventList(list))
  {
    hide ReadyOk, TimeAt, AllPlaced, Counted, TicksAccounted;
    assert Member(s.store, Event(t), EventList(list)) <==> PlaceOf(s.store, Event(t)) == On(EventList(list));
  }

  lemma CreateQueued(s: State, t: Task, priority: nat, list: nat)
    requires Inv(s) && t !in s.tcbs && Queued(s, list)
    ensures Queued(DoCreate(s, t, priority), list)
  {
    assert WellPlaced(s, t);
    NotListed(s, t, list);
    hide Inv, Queued, AddToReady, Items;
    MovesKeepQueued(list);
    var p := Clip(priority);
    var s1 := s.(tcbs := s.tcbs[t := Tcb(p, p, 0)], numberOfTasks := s.numberOfTasks + 1);
    SameQueued(s, s1, list);
    assert Items(s1, EventList(list)) == Items(s, EventList(list)) by { SameItems(s, s1, EventList(list)); }
    SetValueQueued(s1, Event(t), NormalEventValue(p), list);
  }

  lemma SameItems(s: State, s1: State, l: ListId)
    requires s1.store == s.store
    ensures Items(s1, l) == Items(s, l)
  {
  }

  lemma CleanUpQueued(s: State, list: nat)
    requires Queued(s, list)
    ensures Queued(DoCleanUp(s), list)
  {
    hide Queued, TakeOff;
    MovesKeepQueued(list);
    if Items(s, Termination) != [] {
      var t := Items(s, Termination)[0].task;
      SameQueued(TakeOff(s, t), TakeOff(s, t).(tcbs := s.tcbs - {t}), list);
      if s.tasksDeleted != 0 && s.numberOfTasks != 0 {
        SameQueued(TakeOff(s, t), DoCleanUp(s), list);
      }
    }
  }

  lemma LeavesQueued(s: State, t: Task, list: nat)
    requires Queued(s, list)
    ensures Queued(DoDelete(s, t), list) && Queued(DoSuspendTask(s, t), list)
    ensures Queued(DoResumeTask(s, t), list)
  {
    hide Queued, Leave, DropEvent, TakeOff, AddToReady, PutAtEnd, ResetNextUnblock;
    MovesKeepQueued(list);
    var s1 := DropEvent(Leave(s, t), t);
    PutAtEndQueued(s1, t, Termination, list);
    PutAtEndQueued(s1, t, Suspended, list);
    var s2 := PutAtEnd(s1, t, Termination);
    var s3 := s2.(tasksDeleted := s.tasksDeleted + 1);
    SameQueued(s2, s3, list);
  }

  lemma PendQueued(s: State, t: Task, list: nat)
    requires Queued(s, list)
    ensures Queued(PutEvent(s, t, PendingReady, EndPosition(At(s.store, PendingReady))), list)
  {
    hide Queued, AttachAt;
    AttachElsewhere(s, Event(t), PendingReady, EndPosition(At(s.store, PendingReady)), list);
  }

  lemma ResumeFromISRQueued(s: State, t: Task, list: nat)
    requires Queued(s, list)
    ensures Queued(DoResumeFromISR(s, t), list)
  {
    hide Queued, TakeOff, AddToReady, PutEvent;
    MovesKeepQueued(list);
    PendQueued(s, t, list);
  }

  lemma RemoveQueued(s: State, l: nat, list: nat)
    requires Queued(s, list)
    ensures Queued(DoRemoveFromEventList(s, l), list)
  {
    hide Queued, TakeOff, AddToReady, PutEvent, DropEvent;
    MovesKeepQueued(list);
    if Items(s, EventList(l)) != [] {
      var t := Items(s, EventList(l))[0].task;
      PendQueued(DropEvent(s, t), t, list);
    }
  }

  lemma DelayQueued(s: State, previous: nat, ticks: nat, list: nat)
    requires Queued(s, list)
    ensures Queued(DoDelay(s, ticks), list) && Queued(DoDelayUntil(s, previous, ticks), list)
  {
    hide Queued, Leave, AddToDelayed, Wrap;
    MovesKeepQueued(list);
    DelayedQueued(Leave(s, s.current), s.current, Wrap(s.tick + ticks), list);
    DelayedQueued(Leave(s, s.current), s.current, Wrap(previous + ticks), list);
  }

  /** A wait on the list itself goes in at the place of its value. */
  lemma PlaceQueued(s: State, l: nat, ticks: nat, list: nat)
    requires Queued(s, list)
    ensures Queued(DoPlaceOnEventList(s, l, ticks), list)
  {
    hide Block;
    var t := s.current;
    var k := SortedPosition(s.store, Event(t), EventList(l));
    if l == list {
      InsertedQueued(s, t, list);
    } else {
      AttachElsewhere(s, Event(t), EventList(l), k, list);
    }
    BlockQueued(PutEvent(s, t, EventList(l), k), ticks, list);
  }

  lemma InsertedQueued(s: State, t: Task, list: nat)
    requires Queued(s, list)
    ensures Queued(PutEvent(s, t, EventList(list), SortedPosition(s.store, Event(t), EventList(list))), list)
  {
    hide SortedList;
    AttachSortedKeepsSorted(s.store, Event(t), EventList(list), EventList(list));
  }

  // ---- Steps that change event values ----

  lemma NewEventValueQueued(s: State, t: Task, v: nat, list: nat)
    requires Inv(s) && Queued(s, list) && WaitOf(s, t) != On(EventList(list))
    ensures Queued(SetEventValue(s, t, v), list)
  {
    hide Inv, Queued;
    NotListed(s, t, list);
    SetValueQueued(s, Event(t), v, list);
  }

  lemma ChangeTcbQueued(s: State, t: Task, tcb: Tcb, list: nat)
    requires Queued(s, list)
    ensures Queued(ChangeTcb(s, t, tcb), list)
  {
    hide Queued, Leave, AddToReady;
    MovesKeepQueued(list);
    SameQueued(s, s.(tcbs := s.tcbs[t := tcb]), list);
    SameQueued(Leave(s, t), Leave(s, t).(tcbs := Leave(s, t).tcbs[t := tcb]), list);
  }

  lemma SetPriorityQueued(s: State, t: Task, priority: nat, list: nat)
    requires Inv(s) && Queued(s, list) && WaitOf(s, t) != On(EventList(list))
    ensures Queued(DoSetPriority(s, t, priority), list) && Queued(DoInherit(s, t), list)
  {
    hide Inv, Queued, ChangeTcb, SetEventValue, Clip;
    NewEventValueQueued(s, t, NormalEventValue(Clip(priority)), list);
    NewEventValueQueued(s, t, NormalEventValue(PriorityOf(s, s.current)), list);
    if t in s.tcbs {
      ChangeTcbQueued(UpdateEventValue(s, t, Clip(priority)), t, WithPriority(s.tcbs[t], Clip(priority)), list);
      var p := PriorityOf(s, s.current);
      ChangeTcbQueued(UpdateEventValue(s, t, p), t, s.tcbs[t].(priority := p), list);
    }
  }

  lemma DisinheritQueued(s: State, list: nat)
    requires Inv(s) && CallerReady(s) && Queued(s, list)
    ensures Queued(DoDisinherit(s, s.current), list)
  {
    hide Core, Counted, TicksAccounted, Queued, Leave, AddToReady, SetEventValue;
    var t := s.current;
    assert WellPlaced(s, t);
    if t in s.tcbs {
      var tcb := s.tcbs[t].(mutexesHeld := if s.tcbs[t].mutexesHeld > 0 then s.tcbs[t].mutexesHeld - 1 else 0);
      SameQueued(s, s.(tcbs := s.tcbs[t := tcb]), list);
      RestoredQueued(s, t, tcb.(priority := tcb.basePriority), list);
    }
  }

  lemma RestoredQueued(s: State, t: Task, tcb: Tcb, list: nat)
    requires Inv(s) && Queued(s, list) && WaitOf(s, t) != On(EventList(list))
    ensures var s2 := Leave(s, t).(tcbs := Leave(s, t).tcbs[t := tcb]);
            Queued(AddToReady(SetEventValue(s2, t, NormalEventValue(tcb.priority)), t), list)
  {
    NotListed(s, t, list);
    LeftUnlisted(s, t, list);
    hide Inv, Queued, Leave, AddToReady, Items;
    MovesKeepQueued(list);
    var s1 := Leave(s, t);
    var s2 := s1.(tcbs := s1.tcbs[t := tcb]);
    SameQueued(s1, s2, list);
    SameItems(s1, s2, EventList(list));
    SetValueQueued(s2, Event(t), NormalEventValue(tcb.priority), list);
  }

  lemma LeftUnlisted(s: State, t: Task, list: nat)
    requires Event(t) !in Items(s, EventList(list))
    ensures Event(t) !in Items(Leave(s, t), EventList(list))
  {
  }

  lemma UnorderedQueued(s: State, l: nat, value: nat, ticks: nat, list: nat)
    requires Inv(s) && CallerReady(s) && Queued(s, list) && l != list
    ensures Queued(DoPlaceOnUnordered(s, l, value, ticks), list)
  {
    hide Core, Counted, TicksAccounted, Queued, SetEventValue, Block;
    assert WellPlaced(s, s.current);
    NewEventValueQueued(s, s.current, MarkInUse(value), list);
    var s1 := SetEventValue(s, s.current, MarkInUse(value));
    var k := EndPosition(At(s1.store, EventList(l)));
    AttachElsewhere(s1, Event(s.current), EventList(l), k, list);
    BlockQueued(PutEvent(s1, s.current, EventList(l), k), ticks, list);
  }

  lemma RemoveFromUnorderedQueued(s: State, t: Task, value: nat, list: nat)
    requires Inv(s) && Queued(s, list) && WaitOf(s, t) != On(EventList(list))
    ensures Queued(DoRemoveFromUnordered(s, t, value), list)
  {
    hide Inv, Queued, TakeOff, AddToReady, DropEvent, SetEventValue;
    NewEventValueQueued(s, t, MarkInUse(value), list);
    MovesKeepQueued(list);
  }

  // ---- Any step, any run ----

  /** No task on the list changes its priority, and the list is not used for waits out of order. */
  ghost predicate KeepsOrder(s: State, step: Step, list: nat) {
    match step
    case SetPriority(t, _) => WaitOf(s, t) != On(EventList(list))
    case Inherit(t) => WaitOf(s, t) != On(EventList(list))
    case PlaceOnUnorderedEventList(l, _, _) => l != list
    case RemoveFromUnorderedEventList(t, _) => WaitOf(s, t) != On(EventList(list))
    case ResetEventItemValue => WaitOf(s, s.current) != On(EventList(list))
    case _ => true
  }

  lemma StepQueued(s: State, step: Step, list: nat)
    requires Inv(s) && Allowed(s, step) && KeepsOrder(s, step, list) && Queued(s, list)
    ensures Queued(Apply(s, step), list)
  {
    hide Inv, Queued, DoCreate, DoDelete, DoCleanUp, DoSuspendTask, DoResumeTask, DoResumeFromISR, DoDelay,
         DoDelayUntil, DoPlaceOnEventList, DoPlaceOnUnordered, DoRemoveFromEventList, DoRemoveFromUnordered,
         DoSetPriority, DoInherit, DoDisinherit, SetEventValue, CallerReady;
    match step
    case Create(t, priority) => CreateQueued(s, t, priority, list);
    case Delete(t) => LeavesQueued(s, t, list);
    case CleanUp => CleanUpQueued(s, list);
    case Delay(ticks) => DelayQueued(s, 0, ticks, list);
    case DelayUntil(previous, increment) => DelayQueued(s, previous, increment, list);
    case PlaceOnEventList(l, ticks) => PlaceQueued(s, l, ticks, list);
    case PlaceOnUnorderedEventList(l, value, ticks) => UnorderedQueued(s, l, value, ticks, list);
    case RemoveFromEventList(l) => RemoveQueued(s, l, list);
    case RemoveFromUnorderedEventList(t, value) => RemoveFromUnorderedQueued(s, t, value, list);
    case SuspendTask(t) => LeavesQueued(s, t, list);
    case ResumeTask(t) => LeavesQueued(s, t, list);
    case ResumeFromISR(t) => ResumeFromISRQueued(s, t, list);
    case SetPriority(t, priority) => SetPriorityQueued(s, t, priority, list);
    case Inherit(holder) => SetPriorityQueued(s, holder, 0, list);
    case Disinherit(holder) => DisinheritQueued(s, list);
    case TakeMutex => SameQueued(s, Apply(s, step), list);
    case ResetEventItemValue => NewEventValueQueued(s, s.current, NormalEventValue(PriorityOf(s, s.current)), list);
    case _ => TimedQueued(s, step, list);
  }

  ghost predicate AllKeepOrder(s: State, steps: seq<Step>, list: nat)
    requires Inv(s) && Permitted(s, steps)
    decreases |steps|
  {
    steps == []
    || (KeepsOrder(s, steps[0], list) && (StepKeeps(s, steps[0]); AllKeepOrder(Apply(s, steps[0]), steps[1..], list)))
  }

  lemma {:induction false} RunQueued(s: State, steps: seq<Step>, list: nat)
    requires Inv(s) && Permitted(s, steps) && AllKeepOrder(s, steps, list) && Queued(s, list)
    ensures Queued(Run(s, steps), list)
    decreases |steps|
  {
    hide Inv, Apply, Allowed, Queued, KeepsOrder;
    if steps != [] {
      StepKeeps(s, steps[0]);
      StepQueued(s, steps[0], list);
      RunQueued(Apply(s, steps[0]), steps[1..], list);
    }
  }

  /** The first of a list that is in order is a task of the highest priority of all that wait there,
      if event values follow priorities. */
  lemma FirstIsMostUrgent(s: State, list: nat, t: Task)
    requires Inv(s) && AllFollow(s) && Queued(s, list)
    requires WaitOf(s, t) == On(EventList(list)) && EventValue(s, t) < IN_USE
    ensures Items(s, EventList(list)) != []
    ensures PriorityOf(s, t) <= PriorityOf(s, Items(s, EventList(list))[0].task)
  {
    var items := Items(s, EventList(list));
    ListedWaiter(s, t, list);
    var k := IndexOf(items, Event(t));
    var first := items[0].task;
    var v := Values(s.store, items);
    assert v[0] <= v[k];
    FirstWaits(s, list);
    assert Follows(s, t) && Follows(s, first);
    hide Inv;
    WaiterHasTcb(s, t, list);
    WaiterHasTcb(s, first, list);
    PrioritiesInRange(s, t);
    PrioritiesInRange(s, first);
  }

  lemma ListedWaiter(s: State, t: Task, list: nat)
    requires Inv(s) && WaitOf(s, t) == On(EventList(list))
    ensures Event(t) in Items(s, EventList(list))
  {
    hide ReadyOk, TimeAt, AllPlaced, Counted, TicksAccounted;
    assert Member(s.store, Event(t), EventList(list)) <==> PlaceOf(s.store, Event(t)) == On(EventList(list));
  }

  lemma FirstWaits(s: State, list: nat)
    requires Inv(s) && Queued(s, list) && Items(s, EventList(list)) != []
    ensures var i := Items(s, EventList(list))[0]; i.Event? && WaitOf(s, i.task) == On(EventList(list))
  {
    hide ReadyOk, TimeAt, AllPlaced, Counted, TicksAccounted;
    var i := Items(s, EventList(list))[0];
    assert Member(s.store, i, EventList(list)) <==> PlaceOf(s.store, i) == On(EventList(list));
  }

  lemma WaiterHasTcb(s: State, t: Task, list: nat)
    requires Inv(s) && WaitOf(s, t) == On(EventList(list))
    ensures t in s.tcbs
  {
    hide Core, Counted, TicksAccounted;
    assert WellPlaced(s, t);
  }

  lemma {:induction false} CreatedAllQueued(cs: seq<Creation>, list: nat)
    requires cs != [] && TaskRuns.Apart(cs)
    ensures Queued(CreatedAll(cs), list)
  {
    hide CreateBefore, FirstCreated, Queued;
    var rest, last := cs[..|cs| - 1], cs[|cs| - 1];
    if |cs| == 1 {
      FirstQueued(last, list);
    } else {
      CreatedAllIsGood(rest);
      CreatedAllQueued(rest, list);
      assert forall i :: 0 <= i < |rest| ==> rest[i].task != last.task;
      CreatedBeforeQueued(CreatedAll(rest), last, list);
    }
  }

  lemma FirstQueued(c: Creation, list: nat)
    ensures Queued(FirstCreated(c), list)
  {
    assert Items(FirstCreated(c), EventList(list)) == [];
  }

  lemma CreatedBeforeQueued(s: State, c: Creation, list: nat)
    requires Inv(s) && c.task !in s.tcbs && Queued(s, list)
    ensures Queued(CreateBefore(s, c), list)
  {
    hide Inv, DoCreate, Queued;
    CreateQueued(s, c.task, c.priority, list);
    SameQueued(DoCreate(s, c.task, c.priority), CreateBefore(s, c), list);
  }

  /** A run from the start in which no task on the list changes its priority, and none that runs at an
      inherited priority is given a new one. */
  ghost predicate IsOrderlyRun(setup: Setup, steps: seq<Step>, list: nat) {
    && IsRun(setup, steps)
    && (BootIsGood(setup); NeverSetsWhileInherited(Boot(setup), steps) && AllKeepOrder(Boot(setup), steps, list))
  }

  /** The most urgent waiter is woken first: in every such run an event wakes a task of the
      highest priority of all tasks that wait for it. */
  lemma WakesMostUrgent(setup: Setup, steps: seq<Step>, list: nat, t: Task)
    requires IsOrderlyRun(setup, steps, list)
    requires var s := Reached(setup, steps); WaitOf(s, t) == On(EventList(list)) && EventValue(s, t) < IN_USE
    ensures var s := Reached(setup, steps);
            Items(s, EventList(list)) != [] && PriorityOf(s, t) <= PriorityOf(s, Items(s, EventList(list))[0].task)
  {
    hide Inv, Run, Permitted, NeverSetsWhileInherited, AllKeepOrder, AllFollow, Queued, Boot, Fresh;
    BootIsGood(setup);
    BootFollows(setup);
    assert Queued(Boot(setup), list) by { BootQueued(setup, list); }
    EventValuesFollowPriorities(Boot(setup), steps);
    RunQueued(Boot(setup), steps, list);
    RunKeeps(Boot(setup), steps);
    FirstIsMostUrgent(Run(Boot(setup), steps), list, t);
  }

  lemma BootQueued(setup: Setup, list: nat)
    requires IsSetup(setup)
    ensures Queued(Boot(setup), list)
  {
    hide Queued;
    CreatedAllQueued(Creations(setup), list);
  }
}
