/** The tasks that wait on an event list, and what each step of the scheduler does to them: they come
    in by vTaskPlaceOnEventList alone, the first leaves when an event comes, and any of them when its
    time is up or it is suspended or deleted. */
module TaskWaits {
  import opened RingList
  import opened Ticks
  import opened ItemStore
  import opened TaskState
  import opened TaskTick
  import opened TaskMoves
  import opened TaskSteps
  import opened TaskInvariant
  import opened TaskRuns
  import TaskDelays

  function TasksOf(items: seq<Item>): (w: seq<Task>)
    ensures |w| == |items|
    ensures forall k :: 0 <= k < |w| ==> w[k] == items[k].task
  {
    seq(|items|, k requires 0 <= k < |items| => items[k].task)
  }

  /** In the order of the list. */
  function Waiters(s: State, list: nat): seq<Task> {
    TasksOf(Items(s, EventList(list)))
  }

  predicate IsOn(s: State, t: Task, list: nat) {
    WaitOf(s, t) == On(EventList(list))
  }

  lemma ListedItem(s: State, list: nat, i: Item)
    requires Consistent(s.store)
    ensures i in Items(s, EventList(list)) <==> PlaceOf(s.store, i) == On(EventList(list))
    ensures i in Items(s, EventList(list)) ==> i.Event?
    ensures NoDup(Items(s, EventList(list)))
  {
    assert Member(s.store, i, EventList(list)) <==> PlaceOf(s.store, i) == On(EventList(list));
    assert Valid(At(s.store, EventList(list)));
  }

  /** Nobody waits twice, and whoever waits is where its event item says. */
  lemma WaitersWait(s: State, list: nat)
    requires Inv(s)
    ensures NoDup(Waiters(s, list))
    ensures forall t :: t in Waiters(s, list) <==> IsOn(s, t, list)
  {
    InvIsConsistent(s);
    hide Inv, Consistent;
    var items, w := Items(s, EventList(list)), Waiters(s, list);
    forall i
      ensures i in items <==> PlaceOf(s.store, i) == On(EventList(list))
      ensures i in items ==> i.Event?
      ensures NoDup(items)
    {
      ListedItem(s, list, i);
    }
    forall t
      ensures t in w <==> IsOn(s, t, list)
    {
      if IsOn(s, t, list) {
        assert w[IndexOf(items, Event(t))] == t;
      }
      if t in w {
        assert items[IndexOf(w, t)] in items;
      }
    }
    forall a, b | 0 <= a < b < |w|
      ensures w[a] != w[b]
    {
      assert items[a] in items && items[b] in items && items[a] != items[b];
    }
  }

  // ---- An event ----

  lemma DropFirst(s: State, list: nat)
    requires Consistent(s.store) && Items(s, EventList(list)) != []
    ensures var i, s1 := Items(s, EventList(list))[0], DropEvent(s, Items(s, EventList(list))[0].task);
            && i == Event(i.task) && Items(s1, EventList(list)) == Items(s, EventList(list))[1..]
            && forall m :: m != EventList(list) ==> Items(s1, m) == Items(s, m)
  {
    var l := EventList(list);
    var i := Items(s, l)[0];
    ListedItem(s, list, i);
    DetachKeeps(s.store, i);
    assert IndexOf(Items(s, l), i) == 0;
    assert Remove(At(s.store, l), i).items == Items(s, l)[..0] + Items(s, l)[1..];
  }

  /** Off a delayed list or the suspended list and onto a ready list: no event list changes. */
  lemma RousedEventLists(s: State, t: Task)
    requires Core(s) && t in s.tcbs && StateOf(s, t).On?
             && (StateOf(s, t).list.Delayed? || StateOf(s, t).list.Suspended?)
    ensures forall l :: Items(AddToReady(TakeOff(s, t), t), EventList(l)) == Items(s, EventList(l))
  {
    hide Consistent, ReadyOk, TimeAt, TakeOff, AddToReady;
    TakeOffStep(s, t);
    TakeOffKeeps(s, t, s.tick);
    AddToReadyKeeps(TakeOff(s, t), t, s.tick);
  }

  lemma PendedEventLists(s: State, t: Task)
    requires Core(s) && WaitOf(s, t) == Nowhere
    ensures forall l ::
              Items(PutEvent(s, t, PendingReady, EndPosition(At(s.store, PendingReady))), EventList(l)) ==
              Items(s, EventList(l))
  {
    hide Consistent, ReadyOk, TimeAt, PutEvent;
    PutEventKeeps(s, t, PendingReady, EndPosition(At(s.store, PendingReady)), s.tick);
  }

  lemma FirstWaits(s: State, list: nat)
    requires Inv(s) && Items(s, EventList(list)) != []
    ensures var t := Items(s, EventList(list))[0].task;
            && Core(s) && Consistent(s.store) && t in s.tcbs && StateOf(s, t).On?
            && (StateOf(s, t).list.Delayed? || StateOf(s, t).list.Suspended?)
  {
    InvIsConsistent(s);
    hide Consistent, ReadyOk, TimeAt, Counted, TicksAccounted;
    EventHead(s, list);
    assert WellPlaced(s, Items(s, EventList(list))[0].task);
  }

  /** The first task of the list leaves it, and nobody else leaves or comes to any event list. */
  lemma WakesFirst(s: State, list: nat)
    requires Inv(s) && Items(s, EventList(list)) != []
    ensures Waiters(DoRemoveFromEventList(s, list), list) == Waiters(s, list)[1..]
    ensures forall l :: l != list ==> Waiters(DoRemoveFromEventList(s, list), l) == Waiters(s, l)
  {
    hide Inv, Core, DropEvent, TakeOff, AddToReady, PutEvent, Items, SameTask;
    FirstWaits(s, list);
    var t := Items(s, EventList(list))[0].task;
    DropFirst(s, list);
    DropEventStep(s, t);
    var s1 := DropEvent(s, t);
    assert s1.suspensions == s.suspensions;
    if s.suspensions == 0 {
      RousedEventLists(s1, t);
    } else {
      PendedEventLists(s1, t);
    }
    var s2 := DoRemoveFromEventList(s, list);
    assert forall l :: Items(s2, EventList(l)) == Items(s1, EventList(l));
    assert TasksOf(Items(s, EventList(list))[1..]) == TasksOf(Items(s, EventList(list)))[1..];
  }

  // ---- A task that goes to wait ----

  lemma BlockKeepsEventLists(s: State, ticks: nat)
    requires Core(s) && CallerReady(s) && 0 < ticks <= MAX_DELAY
    ensures forall l :: Items(Block(s, ticks), EventList(l)) == Items(s, EventList(l))
  {
    hide Consistent, ReadyOk, TimeAt, Leave, PutAtEnd, AddToDelayed, Wrap;
    WakeIsNotNow(s, ticks);
    var t := s.current;
    LeaveKeeps(s, t, s.tick);
    var s1 := Leave(s, t);
    if ticks == MAX_DELAY {
      PutAtEndKeeps(s1, t, Suspended, s.tick);
    } else {
      AddToDelayedKeeps(s1, t, Wrap(s.tick + ticks));
    }
  }

  lemma PutEventListed(s: State, t: Task, list: nat, k: nat)
    requires Core(s) && WaitOf(s, t) == Nowhere && k <= |Items(s, EventList(list))|
    ensures var s1, items := PutEvent(s, t, EventList(list), k), Items(s, EventList(list));
            && Items(s1, EventList(list)) == items[..k] + [Event(t)] + items[k..]
            && forall l :: l != list ==> Items(s1, EventList(l)) == Items(s, EventList(l))
  {
    hide Consistent, ReadyOk, TimeAt;
    PutEventKeeps(s, t, EventList(list), k, s.tick);
  }

  /** The caller goes in where the value of its event item belongs, and nobody else moves. */
  lemma GoesIn(s: State, list: nat, ticks: nat)
    requires Inv(s) && CallerReady(s) && 0 < ticks <= MAX_DELAY
    ensures var s1, k := DoPlaceOnEventList(s, list, ticks), SortedPosition(s.store, Event(s.current), EventList(list));
            && k <= |Waiters(s, list)|
            && Waiters(s1, list) == Waiters(s, list)[..k] + [s.current] + Waiters(s, list)[k..]
            && forall l :: l != list ==> Waiters(s1, l) == Waiters(s, l)
  {
    hide Inv, Core, CallerReady, Block, SortedPosition, PutEvent, Items;
    InvIsConsistent(s);
    CallerWaitsNowhere(s);
    var t, k := s.current, SortedPosition(s.store, Event(s.current), EventList(list));
    PlaceInRange(s, t, list);
    var s1 := PutEvent(s, t, EventList(list), k);
    PutEventListed(s, t, list, k);
    PutEventCaller(s, list, k);
    BlockKeepsEventLists(s1, ticks);
    InsertedTask(Items(s, EventList(list)), t, k);
  }

  lemma PlaceInRange(s: State, t: Task, list: nat)
    ensures SortedPosition(s.store, Event(t), EventList(list)) <= |Items(s, EventList(list))|
  {
  }

  lemma CallerWaitsNowhere(s: State)
    requires Inv(s) && CallerReady(s)
    ensures WaitOf(s, s.current) == Nowhere
  {
    hide Inv;
    ReadyWaitsNowhere(s, s.current);
  }

  lemma InsertedTask(items: seq<Item>, t: Task, k: nat)
    requires k <= |items|
    ensures TasksOf(items[..k] + [Event(t)] + items[k..]) == TasksOf(items)[..k] + [t] + TasksOf(items)[k..]
  {
  }

  lemma PutEventCaller(s: State, list: nat, k: nat)
    requires Core(s) && CallerReady(s) && WaitOf(s, s.current) == Nowhere && k <= |Items(s, EventList(list))|
    ensures var s1 := PutEvent(s, s.current, EventList(list), k); Core(s1) && CallerReady(s1) && s1.current == s.current
  {
    hide Core, PutEvent, SameTask;
    PutEventStep(s, s.current, EventList(list), k);
  }

  // ---- Every other step ----

  /** The step makes a task wait on the list. */
  predicate Places(step: Step, list: nat) {
    match step
    case PlaceOnEventList(l, _) => l == list
    case PlaceOnUnorderedEventList(l, _, _) => l == list
    case _ => false
  }

  lemma ReadyWaitsNowhere(s: State, t: Task)
    requires Inv(s) && (StateOf(s, t) == Nowhere || IsReady(s, t) || t !in s.tcbs)
    ensures !WaitOf(s, t).On?
  {
    hide Core, Counted, TicksAccounted;
    assert WellPlaced(s, t);
  }

  lemma StaysListed(s: State, step: Step, t: Task, list: nat)
    requires Inv(s) && Allowed(s, step) && !Places(step, list)
    requires IsOn(Apply(s, step), t, list)
    ensures IsOn(s, t, list) && (LeavesAlone(s, step, t) || step == Delay(0))
  {
    hide Inv, Only, SameTask;
    if IsTimed(step) {
      TimedListed(s, step, t, list);
    } else {
      SubjectStepKeeps(s, step);
      if t != Subject(s, step) {
        OthersListed(s, step, t, list);
      } else {
        SubjectListed(s, step, t, list);
      }
    }
  }

  lemma OthersListed(s: State, step: Step, t: Task, list: nat)
    requires Inv(s) && Allowed(s, step) && !IsTimed(step) && t != Subject(s, step)
    requires Only(s, Apply(s, step), Subject(s, step)) && IsOn(Apply(s, step), t, list)
    ensures IsOn(s, t, list) && (LeavesAlone(s, step, t) || step == Delay(0))
  {
    hide Inv;
    assert SameTask(s, Apply(s, step), t);
  }

  lemma SubjectListed(s: State, step: Step, t: Task, list: nat)
    requires Inv(s) && Allowed(s, step) && !IsTimed(step) && !Places(step, list) && t == Subject(s, step)
    requires Inv(Apply(s, step)) && IsOn(Apply(s, step), t, list)
    ensures IsOn(s, t, list) && (LeavesAlone(s, step, t) || step == Delay(0))
  {
    hide Inv, Only, SameTask, StaysPut;
    var s1 := Apply(s, step);
    match step
    case Create(_, priority) => CreateKeeps(s, t, priority); ReadyWaitsNowhere(s1, t);
    case Delete(_) => DeleteKeeps(s, t);
    case CleanUp =>
      CleanUpKeeps(s);
      if t !in s1.tcbs { ReadyWaitsNowhere(s1, t); }
    case Delay(ticks) => DelayKeeps(s, ticks);
    case DelayUntil(previous, increment) => DelayUntilListed(s, previous, increment);
    case PlaceOnEventList(l, ticks) => PlaceOnEventListKeeps(s, l, ticks);
    case PlaceOnUnorderedEventList(l, value, ticks) => PlaceOnUnorderedKeeps(s, l, value, ticks);
    case RemoveFromEventList(l) => RemoveFromEventListKeeps(s, l);
    case RemoveFromUnorderedEventList(_, value) => RemoveFromUnorderedKeeps(s, t, value);
    case SuspendTask(_) => SuspendTaskKeeps(s, t);
    case ResumeTask(_) => ResumeTaskListed(s, t, list);
    case ResumeFromISR(_) => ResumeFromISRListed(s, t, list);
    case _ => PriorityStep(s, step, t);
  }

  /** A task goes on waiting while priorities, mutexes and event values change. */
  lemma PriorityStep(s: State, step: Step, t: Task)
    requires Inv(s) && Allowed(s, step) && !IsTimed(step) && t == Subject(s, step)
    requires step.SetPriority? || step.Inherit? || step.Disinherit? || step.TakeMutex? || step.ResetEventItemValue?
    ensures WaitOf(Apply(s, step), t) == WaitOf(s, t) && LeavesAlone(s, step, t)
  {
    hide Inv, Only, SameTask, StaysPut;
    match step {
      case SetPriority(_, priority) => SetPriorityKeeps(s, t, priority);
      case Inherit(_) => InheritKeeps(s, t);
      case Disinherit(_) => DisinheritKeeps(s, t);
      case TakeMutex => TakeMutexKeeps(s);
      case ResetEventItemValue => ResetEventItemValueKeeps(s);
    }
    StillWaits(s, Apply(s, step), t);
  }

  lemma StillWaits(s: State, s1: State, t: Task)
    requires StaysPut(s, s1, t)
    ensures WaitOf(s1, t) == WaitOf(s, t)
  {
  }

  /** A caller that sleeps is on no event list. */
  lemma DelayUntilListed(s: State, previous: nat, increment: nat)
    requires Inv(s) && CallerReady(s)
    ensures !WaitOf(DoDelayUntil(s, previous, increment), s.current).On?
  {
    InvIsConsistent(s);
    ReadyWaitsNowhere(s, s.current);
    hide Inv, Consistent, ReadyOk, TimeAt, Leave, AddToDelayed, Wrap;
    var wake := Wrap(previous + increment);
    if ShouldDelay(s.tick, previous, wake) {
      SleepKeeps(s, wake);
    }
  }

  lemma ResumeTaskListed(s: State, t: Task, list: nat)
    requires Inv(s) && IsOn(DoResumeTask(s, t), t, list)
    ensures IsOn(s, t, list)
  {
    ResumeTaskKeeps(s, t);
    hide Inv, Only;
    if t != s.current && IsSuspended(s, t) {
      ReadyWaitsNowhere(DoResumeTask(s, t), t);
    }
  }

  lemma ResumeFromISRListed(s: State, t: Task, list: nat)
    requires Inv(s) && IsOn(DoResumeFromISR(s, t), t, list)
    ensures IsOn(s, t, list)
  {
    ResumeFromISRKeeps(s, t);
    hide Inv, Only;
    if IsSuspended(s, t) && s.suspensions == 0 {
      ReadyWaitsNowhere(DoResumeFromISR(s, t), t);
    }
  }

  lemma TimedListed(s: State, step: Step, t: Task, list: nat)
    requires Inv(s) && Allowed(s, step) && IsTimed(step) && IsOn(Apply(s, step), t, list)
    ensures IsOn(s, t, list) && LeavesAlone(s, step, t)
  {
    hide Inv, SameTask;
    if step == ResumeAll {
      ResumeAllKeeps(s);
      if s.suspensions > 1 {
        SameWait(s, Apply(s, step), t);
      } else {
        assert ResumedTask(s, Apply(s, step), t);
      }
    } else if step == TickInterrupt {
      TickInterruptKeeps(s);
      if s.suspensions == 0 {
        assert TaskAfter(s, Apply(s, step), t);
      } else {
        SameWait(s, Apply(s, step), t);
      }
    } else if step == SuspendAll {
      SuspendAllKeeps(s);
      SameWait(s, Apply(s, step), t);
    } else if s.suspensions == 0 {
      SwitchContextKeeps(s);
      SameWait(s, Apply(s, step), t);
    }
  }

  lemma SameWait(s: State, s1: State, t: Task)
    requires SameTask(s, s1, t)
    ensures WaitOf(s1, t) == WaitOf(s, t)
  {
  }

  /** Whoever is still on the list after a step sleeps on as before. */
  lemma SleepsOn(s: State, step: Step, t: Task, list: nat, wake: nat)
    requires Inv(s) && Allowed(s, step) && !Places(step, list)
    requires IsOn(Apply(s, step), t, list) && SleepsUntil(s, t, wake)
    ensures SleepsUntil(Apply(s, step), t, wake)
  {
    hide Inv, SleepsUntil, LeavesAlone, IsOn;
    StaysListed(s, step, t, list);
    if LeavesAlone(s, step, t) {
      StepWhileAsleep(s, step, t, wake);
    }
  }

  /** A task on an event list that sleeps until some time has not reached it yet. */
  lemma ListedIsAsleep(s: State, t: Task, list: nat, wake: nat)
    requires Inv(s) && IsOn(s, t, list) && SleepsUntil(s, t, wake)
    ensures s.clock < wake && IsDelayed(s, t) && WakeTime(s, t) == wake
  {
    hide Core, Counted, TicksAccounted, WakeTime;
    assert WellPlaced(s, t);
  }

  /** The caller that has gone to wait sleeps until its ticks are over, if it has not asked for an
      endless wait. */
  lemma GoesToSleep(s: State, list: nat, ticks: nat)
    requires Inv(s) && CallerReady(s) && 0 < ticks < MAX_DELAY
    ensures SleepsUntil(DoPlaceOnEventList(s, list, ticks), s.current, s.clock + ticks)
  {
    hide Inv, Core, DoPlaceOnEventList, SleepsUntil, SameTask;
    PlaceOnEventListKeeps(s, list, ticks);
    WrapSum(s.clock, ticks);
    TaskDelays.InvIsCore(s);
    TaskDelays.FiledSleeps(s, DoPlaceOnEventList(s, list, ticks), s.current, s.clock + ticks);
  }
}
