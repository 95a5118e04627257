/** What each operation of the scheduler does to the task it is about, seen from outside; nobody else moves
    (`TaskRuns.SubjectStepKeeps`). */
module TaskEffects {
  import opened RingList
  import opened Ticks
  import opened ItemStore
  import opened TaskState
  import opened TaskTick
  import opened TaskMoves
  import opened TaskSteps
  import opened TaskInvariant
  import opened TaskRuns
  import opened TaskPriorities

  /** The task is ready at its priority, and waits for nothing. */
  predicate ReadyNow(s: State, t: Task) {
    StateOf(s, t) == On(Ready(PriorityOf(s, t))) && WaitOf(s, t) == Nowhere
  }

  lemma IsReadyNow(s: State, t: Task)
    requires Inv(s) && t in s.tcbs && IsReady(s, t)
    ensures ReadyNow(s, t)
  {
    hide Consistent, TimeAt, Counted, TicksAccounted;
    assert WellPlaced(s, t);
  }

  /** A new task is ready at the priority asked for, or the highest there is, which is its own too. */
  lemma Creates(s: State, t: Task, priority: nat)
    requires Inv(s) && Allowed(s, Create(t, priority))
    ensures var s1, p := Apply(s, Create(t, priority)), if priority < PRIORITIES then priority else PRIORITIES - 1;
            s1.tcbs == s.tcbs[t := Tcb(p, p, 0)] && ReadyNow(s1, t) && s1.numberOfTasks == s.numberOfTasks + 1
  {
    hide Inv, DoCreate;
    CreateTcbs(s, t, priority);
    CreateKeeps(s, t, priority);
    IsReadyNow(DoCreate(s, t, priority), t);
    CountsOneMore(s, t, priority);
  }

  lemma CountsOneMore(s: State, t: Task, priority: nat)
    ensures DoCreate(s, t, priority).numberOfTasks == s.numberOfTasks + 1
  {
    hide AttachEnd, SetValue;
  }

  /** A deleted task waits for termination and for nothing else; a suspended one is on the suspended list. */
  lemma Removes(s: State, t: Task)
    requires Inv(s)
    ensures Allowed(s, Delete(t)) ==>
              var s1 := Apply(s, Delete(t));
              StateOf(s1, t) == On(Termination) && WaitOf(s1, t) == Nowhere && s1.tcbs == s.tcbs
    ensures Allowed(s, SuspendTask(t)) ==>
              var s1 := Apply(s, SuspendTask(t));
              StateOf(s1, t) == On(Suspended) && WaitOf(s1, t) == Nowhere && s1.tcbs == s.tcbs
  {
    hide Inv, DoDelete, DoSuspendTask;
    if Allowed(s, Delete(t)) {
      DeleteKeeps(s, t);
      TcbsKept(s, Delete(t));
    }
    if Allowed(s, SuspendTask(t)) {
      SuspendTaskKeeps(s, t);
      TcbsKept(s, SuspendTask(t));
    }
  }

  /** When another task goes, the next unblock time becomes the earliest wake time that is left on the
      delayed list; a caller that removes itself leaves it alone. */
  lemma ResetsNextUnblock(s: State, t: Task)
    requires Inv(s) && t in s.tcbs && StateOf(s, t) != On(Termination)
    ensures var s1, s2 := DoDelete(s, t), DoSuspendTask(s, t);
            if t == s.current then s1.nextUnblock == s2.nextUnblock == s.nextUnblock
            else IsNextUnblock(s1) && IsNextUnblock(s2)
  {
    hide Consistent, SortedList, ReadyOk, AllPlaced, Counted, TicksAccounted, IsNextUnblock;
    DeleteKeeps(s, t);
    SuspendTaskKeeps(s, t);
    if t != s.current {
      var s1 := DoDelete(s, t);
      var s2 := DoSuspendTask(s, t);
      NextIsEarliest(s1);
      NextIsEarliest(s2);
    } else {
      NextUnblockKept(s, t);
    }
  }

  lemma NextIsEarliest(s: State)
    requires Inv(s) && ResetNextUnblock(s).nextUnblock == s.nextUnblock
    ensures IsNextUnblock(s)
  {
    InvIsConsistent(s);
    hide ReadyOk, AllPlaced, Counted, TicksAccounted;
    ResetIsNext(s);
  }

  lemma NextUnblockKept(s: State, t: Task)
    ensures PutAtEnd(DropEvent(Leave(s, t), t), t, Termination).nextUnblock == s.nextUnblock
    ensures PutAtEnd(DropEvent(Leave(s, t), t), t, Suspended).nextUnblock == s.nextUnblock
  {
  }

  /** The first task that waits for termination is freed, if there is one. */
  lemma Frees(s: State)
    requires Inv(s) && Allowed(s, CleanUp)
    ensures var s1, items := Apply(s, CleanUp), Items(s, Termination);
            if items == [] then s1 == s
            else s1.tcbs == s.tcbs - {items[0].task} && StateOf(s1, items[0].task) == Nowhere
  {
    hide Inv, DoCleanUp;
    CleanUpKeeps(s);
    CleanUpTcbs(s);
    if Items(s, Termination) == [] {
      NothingToFree(s);
    } else {
      FreedIsNowhere(DoCleanUp(s), Items(s, Termination)[0].task);
      WasATask(s, Items(s, Termination)[0].task);
    }
  }

  lemma NothingToFree(s: State)
    requires Items(s, Termination) == []
    ensures DoCleanUp(s) == s
  {
  }

  lemma FreedIsNowhere(s: State, t: Task)
    requires Inv(s) && t !in s.tcbs
    ensures StateOf(s, t) == Nowhere
  {
    hide Core, Counted, TicksAccounted;
    assert WellPlaced(s, t);
  }

  lemma WasATask(s: State, t: Task)
    requires Inv(s) && StateOf(s, t).On?
    ensures t in s.tcbs
  {
    hide Core, Counted, TicksAccounted;
    assert WellPlaced(s, t);
  }

  /** Resuming makes a task ready that is really suspended, and is not the caller; from an interrupt while the
      scheduler is suspended it is pended instead.  Any other task is left as it is. */
  lemma Resumes(s: State, t: Task)
    requires Inv(s)
    ensures var suspended := StateOf(s, t) == On(Suspended) && WaitOf(s, t) == Nowhere;
            var s1, s2 := Apply(s, ResumeTask(t)), Apply(s, ResumeFromISR(t));
            && (if suspended && t != s.current then ReadyNow(s1, t) && s1.tcbs == s.tcbs else s1 == s)
            && (if suspended && s.suspensions == 0 then ReadyNow(s2, t) && s2.tcbs == s.tcbs
                else if suspended then
                  StateOf(s2, t) == On(Suspended) && WaitOf(s2, t) == On(PendingReady) && s2.tcbs == s.tcbs
                else s2 == s)
  {
    hide Inv;
    ResumeTaskKeeps(s, t);
    ResumeFromISRKeeps(s, t);
    TcbsKept(s, ResumeTask(t));
    TcbsKept(s, ResumeFromISR(t));
    if IsSuspended(s, t) {
      WasATask(s, t);
      if t != s.current { IsReadyNow(DoResumeTask(s, t), t); }
      if s.suspensions == 0 { IsReadyNow(DoResumeFromISR(s, t), t); }
    }
  }

  /** The caller waits on the event list and is asleep: on the suspended list if it waits for ever, and
      otherwise on a delayed one. */
  predicate AsleepOn(s: State, t: Task, list: nat, ticks: nat) {
    && WaitOf(s, t) == On(EventList(list)) && StateOf(s, t).On?
    && if ticks == MAX_DELAY then StateOf(s, t) == On(Suspended) else StateOf(s, t).list.Delayed?
  }

  lemma GoesToWait(s: State, list: nat, ticks: nat)
    requires Inv(s) && Allowed(s, PlaceOnEventList(list, ticks))
    ensures var s1 := Apply(s, PlaceOnEventList(list, ticks));
            AsleepOn(s1, s.current, list, ticks) && s1.tcbs == s.tcbs
  {
    hide Inv, CallerReady, DoPlaceOnEventList, Wrap;
    PlaceOnEventListKeeps(s, list, ticks);
    WaitsForEver(s, list, ticks);
    TcbsKept(s, PlaceOnEventList(list, ticks));
  }

  lemma GoesToWaitUnordered(s: State, list: nat, value: nat, ticks: nat)
    requires Inv(s) && Allowed(s, PlaceOnUnorderedEventList(list, value, ticks))
    ensures var s1 := Apply(s, PlaceOnUnorderedEventList(list, value, ticks));
            AsleepOn(s1, s.current, list, ticks) && s1.tcbs == s.tcbs
  {
    hide Inv, CallerReady, DoPlaceOnUnordered, Wrap;
    PlaceOnUnorderedKeeps(s, list, value, ticks);
    TcbsKept(s, PlaceOnUnorderedEventList(list, value, ticks));
  }

  lemma WaitsForEver(s: State, list: nat, ticks: nat)
    requires Inv(s) && CallerReady(s) && 0 < ticks < TICKS
    ensures ticks == MAX_DELAY ==> StateOf(DoPlaceOnEventList(s, list, ticks), s.current) == On(Suspended)
  {
    InvIsConsistent(s);
    assert WellPlaced(s, s.current);
    hide Consistent, ReadyOk, TimeAt, AllPlaced, Counted, TicksAccounted, PutEvent, Block;
    var k := SortedPosition(s.store, Event(s.current), EventList(list));
    PutEventStep(s, s.current, EventList(list), k);
    BlockKeeps(PutEvent(s, s.current, EventList(list), k), ticks);
  }

  /** An event makes its first waiter ready, or pends it while the scheduler is suspended; handed over to one
      waiter it makes that one ready. */
  lemma Wakes(s: State, list: nat, t: Task, value: nat)
    requires Inv(s)
    ensures Allowed(s, RemoveFromEventList(list)) ==>
              var s1, u := Apply(s, RemoveFromEventList(list)), Items(s, EventList(list))[0].task;
              && s1.tcbs == s.tcbs
              && if s.suspensions == 0 then ReadyNow(s1, u)
                 else StateOf(s1, u) == StateOf(s, u) && WaitOf(s1, u) == On(PendingReady)
    ensures Allowed(s, RemoveFromUnorderedEventList(t, value)) ==>
              var s1 := Apply(s, RemoveFromUnorderedEventList(t, value)); ReadyNow(s1, t) && s1.tcbs == s.tcbs
  {
    hide Inv, DoRemoveFromEventList, DoRemoveFromUnordered;
    if Allowed(s, RemoveFromEventList(list)) {
      RemoveFromEventListKeeps(s, list);
      TcbsKept(s, RemoveFromEventList(list));
    }
    if Allowed(s, RemoveFromUnorderedEventList(t, value)) {
      RemoveFromUnorderedKeeps(s, t, value);
      TcbsKept(s, RemoveFromUnorderedEventList(t, value));
    }
  }

  /** A new priority is the task's own, and the one it runs at unless that is inherited. */
  lemma IsGivenPriority(s: State, t: Task, priority: nat)
    requires Inv(s) && t in s.tcbs
    ensures var p, tcb := if priority < PRIORITIES then priority else PRIORITIES - 1, s.tcbs[t];
            Apply(s, SetPriority(t, priority)).tcbs ==
            s.tcbs[t := Tcb(if tcb.priority == tcb.basePriority then p else tcb.priority, p, tcb.mutexesHeld)]
  {
    hide Inv, DoSetPriority;
    SetsPriority(s, t, priority);
  }

  /** A task inherits the caller's priority if it is higher than the one it runs at. */
  lemma Inherits(s: State, t: Task)
    requires Inv(s) && t in s.tcbs && s.current in s.tcbs
    ensures var p, tcb := s.tcbs[s.current].priority, s.tcbs[t];
            Apply(s, Inherit(t)).tcbs == s.tcbs[t := tcb.(priority := if tcb.priority < p then p else tcb.priority)]
  {
    hide Inv, DoInherit;
    InheritTcbs(s, t);
    assert s.tcbs[t := s.tcbs[t]] == s.tcbs;
  }

  /** A caller that takes a mutex counts one more; one that gives a mutex counts one fewer, and with the last
      goes back to its own priority. */
  lemma TakesAndGives(s: State)
    requires Inv(s) && s.current in s.tcbs
    ensures Apply(s, TakeMutex).tcbs ==
            s.tcbs[s.current := s.tcbs[s.current].(mutexesHeld := s.tcbs[s.current].mutexesHeld + 1)]
    ensures Allowed(s, Disinherit(s.current)) ==>
              var tcb := s.tcbs[s.current];
              Apply(s, Disinherit(s.current)).tcbs ==
              if tcb.mutexesHeld == 0 then s.tcbs
              else s.tcbs[s.current := Tcb(if tcb.mutexesHeld == 1 then tcb.basePriority else tcb.priority,
                                           tcb.basePriority, tcb.mutexesHeld - 1)]
  {
    hide Inv, CallerReady, DoDisinherit;
    if s.tcbs[s.current].mutexesHeld > 0 {
      DisinheritTcbs(s, s.current);
    } else {
      NothingToDisinherit(s, s.current);
    }
  }

  /** A ready task stays ready, on the list of the priority it now runs at; any other task stays where it is. */
  lemma StaysInItsList(s: State, step: Step, t: Task)
    requires Inv(s) && Allowed(s, step) && t in s.tcbs
    requires step.SetPriority? || step.Inherit? || step.Disinherit? || step.TakeMutex? || step.ResetEventItemValue?
    ensures IsReady(s, t) ==> ReadyNow(Apply(s, step), t)
    ensures IsDelayed(s, t) ==> StateOf(Apply(s, step), t) == StateOf(s, t)
    ensures WaitOf(Apply(s, step), t) == WaitOf(s, t) && t in Apply(s, step).tcbs
  {
    hide Inv, Only, SameTask, StaysPut, Allowed, Apply;
    SubjectStepKeeps(s, step);
    PriorityStepPut(s, step);
    if t == Subject(s, step) {
      PutByPriority(s, Apply(s, step), t);
    } else {
      OthersPut(s, Apply(s, step), Subject(s, step), t);
    }
    KeepsTask(s, step, t);
    if IsReady(s, t) {
      IsReadyNow(Apply(s, step), t);
    }
  }

  lemma PriorityStepPut(s: State, step: Step)
    requires Inv(s) && Allowed(s, step)
    requires step.SetPriority? || step.Inherit? || step.Disinherit? || step.TakeMutex? || step.ResetEventItemValue?
    ensures StaysPut(s, Apply(s, step), Subject(s, step))
  {
    hide Inv, Only, StaysPut;
    match step
    case SetPriority(t, priority) => SetPriorityKeeps(s, t, priority);
    case Inherit(t) => InheritKeeps(s, t);
    case Disinherit(t) => DisinheritKeeps(s, t);
    case TakeMutex => TakeMutexKeeps(s);
    case ResetEventItemValue => ResetEventItemValueKeeps(s);
  }

  lemma PutByPriority(s: State, s1: State, t: Task)
    requires StaysPut(s, s1, t)
    ensures IsReady(s, t) ==> IsReady(s1, t)
    ensures IsDelayed(s, t) ==> StateOf(s1, t) == StateOf(s, t)
    ensures WaitOf(s1, t) == WaitOf(s, t)
  {
  }

  lemma OthersPut(s: State, s1: State, u: Task, t: Task)
    requires Only(s, s1, u) && t != u
    ensures StateOf(s1, t) == StateOf(s, t) && WaitOf(s1, t) == WaitOf(s, t)
  {
    assert SameTask(s, s1, t);
  }

  lemma KeepsTask(s: State, step: Step, t: Task)
    requires Inv(s) && Allowed(s, step) && t in s.tcbs
    requires step.SetPriority? || step.Inherit? || step.Disinherit? || step.TakeMutex? || step.ResetEventItemValue?
    ensures t in Apply(s, step).tcbs
  {
    hide Inv, DoSetPriority, DoInherit, DoDisinherit, CallerReady;
    match step
    case SetPriority(u, priority) => SetPriorityTcbs(s, u, priority);
    case Inherit(u) => InheritTcbs(s, u);
    case Disinherit(u) =>
      if u in s.tcbs && s.tcbs[u].mutexesHeld > 0 { DisinheritTcbs(s, u); } else { NothingToDisinherit(s, u); }
    case TakeMutex =>
    case ResetEventItemValue =>
  }

  /** A task that becomes ready goes where all others of its priority are visited before it. */
  lemma JoinsTheEnd(s: State, t: Task)
    ensures At(AddToReady(s, t).store, Ready(PriorityOf(s, t)))
            == InsertEnd(At(s.store, Ready(PriorityOf(s, t))), Generic(t))
  {
  }

  /** Suspending the scheduler counts one more, and resetting the value of the caller's event item gives it that
      of the caller's priority. */
  lemma Counts(s: State)
    requires Inv(s)
    ensures Apply(s, SuspendAll) == s.(suspensions := s.suspensions + 1)
    ensures var s1 := Apply(s, ResetEventItemValue);
            && (PriorityOf(s, s.current) < PRIORITIES ==>
                  EventValue(s1, s.current) == PRIORITIES - PriorityOf(s, s.current))
            && s1.tcbs == s.tcbs && forall u :: u != s.current ==> EventValue(s1, u) == EventValue(s, u)
  {
    hide Inv;
  }
}
