/** Priorities over whole runs: what each step does to the priority a task runs at, and whether the
    value of its event item, by which it is queued for events, follows that priority. */
module TaskPriorities {
  import opened RingList
  import opened ItemStore
  import opened TaskState
  import opened TaskTick
  import opened TaskSteps
  import opened TaskInvariant
  import opened TaskRuns
  import TaskSelection

  // ---- What the steps of the scheduler do to the control blocks ----

  lemma MovesKeepTcbs()
    ensures forall s, t {:trigger Leave(s, t)} :: Leave(s, t).tcbs == s.tcbs
    ensures forall s, t {:trigger TakeOff(s, t)} :: TakeOff(s, t).tcbs == s.tcbs
    ensures forall s, t {:trigger DropEvent(s, t)} :: DropEvent(s, t).tcbs == s.tcbs
    ensures forall s, t {:trigger AddToReady(s, t)} :: AddToReady(s, t).tcbs == s.tcbs
    ensures forall s, t, l {:trigger PutAtEnd(s, t, l)} :: PutAtEnd(s, t, l).tcbs == s.tcbs
    ensures forall s, t, v {:trigger AddToDelayed(s, t, v)} :: AddToDelayed(s, t, v).tcbs == s.tcbs
    ensures forall s, t, v {:trigger SetEventValue(s, t, v)} :: SetEventValue(s, t, v).tcbs == s.tcbs
    ensures forall s {:trigger ResetNextUnblock(s)} :: ResetNextUnblock(s).tcbs == s.tcbs
  {
    hide AttachEnd, AttachSorted, Detach, SetValue, Items, Value, At;
  }

  lemma TcbsKept(s: State, step: Step)
    requires Inv(s) && Allowed(s, step)
    requires !step.Create? && !step.CleanUp? && !step.SetPriority? && !step.Inherit? && !step.Disinherit?
             && !step.TakeMutex?
    ensures Apply(s, step).tcbs == s.tcbs
  {
    hide Inv, DoResumeAll, DoTickInterrupt, NobodyMoved, CallerReady, MoveIndex, Scan,
         Leave, AddToReady, TakeOff, DropEvent, ResetNextUnblock, AddToDelayed, SetEventValue, PutAtEnd;
    MovesKeepTcbs();
    if step == ResumeAll {
      ResumeAllKeeps(s);
    } else if step == TickInterrupt {
      TickInterruptKeeps(s);
    }
  }

  lemma SetPriorityTcbs(s: State, t: Task, priority: nat)
    ensures var p := Clip(priority);
            DoSetPriority(s, t, priority).tcbs ==
            if t !in s.tcbs || s.tcbs[t].basePriority == p then s.tcbs else s.tcbs[t := WithPriority(s.tcbs[t], p)]
  {
    hide AttachEnd, Detach, SetValue;
  }

  /** A task is given the priority asked for as its own, or the highest there is; it runs at it from now on
      too, unless it runs at an inherited one.  Nothing else of it, and no other task, changes. */
  lemma SetsPriority(s: State, t: Task, priority: nat)
    requires t in s.tcbs
    ensures var p := if priority < PRIORITIES then priority else PRIORITIES - 1;
            var tcb := s.tcbs[t];
            DoSetPriority(s, t, priority).tcbs ==
            s.tcbs[t := Tcb(if tcb.priority == tcb.basePriority then p else tcb.priority, p, tcb.mutexesHeld)]
  {
    hide DoSetPriority;
    SetPriorityTcbs(s, t, priority);
    assert s.tcbs[t := s.tcbs[t]] == s.tcbs;
  }

  lemma InheritTcbs(s: State, t: Task)
    ensures var p := PriorityOf(s, s.current);
            DoInherit(s, t).tcbs ==
            if t !in s.tcbs || s.tcbs[t].priority >= p then s.tcbs else s.tcbs[t := s.tcbs[t].(priority := p)]
  {
    hide AttachEnd, Detach, SetValue;
  }

  /** The last mutex given back ends the inheritance. */
  function Disinherited(tcb: Tcb): Tcb
    requires tcb.mutexesHeld > 0
  {
    Tcb(if tcb.mutexesHeld == 1 then tcb.basePriority else tcb.priority, tcb.basePriority, tcb.mutexesHeld - 1)
  }

  lemma DisinheritTcbs(s: State, t: Task)
    requires t in s.tcbs && s.tcbs[t].mutexesHeld > 0
    ensures DoDisinherit(s, t).tcbs == s.tcbs[t := Disinherited(s.tcbs[t])]
  {
    hide AttachEnd, Detach, SetValue;
  }

  lemma CleanUpTcbs(s: State)
    ensures Items(s, Termination) == [] ==> DoCleanUp(s).tcbs == s.tcbs
    ensures Items(s, Termination) != [] ==>
              DoCleanUp(s).tcbs == s.tcbs || DoCleanUp(s).tcbs == s.tcbs - {Items(s, Termination)[0].task}
  {
    hide Detach;
  }

  // ---- Event item values ----

  function EventValue(s: State, t: Task): nat {
    Value(s.store, Event(t))
  }

  ghost predicate SameEventValues(s: State, s1: State) {
    forall u :: EventValue(s1, u) == EventValue(s, u)
  }

  lemma MovesKeepEventValues()
    ensures forall s, t {:trigger Leave(s, t)} :: SameEventValues(s, Leave(s, t))
    ensures forall s, t {:trigger TakeOff(s, t)} :: SameEventValues(s, TakeOff(s, t))
    ensures forall s, t {:trigger DropEvent(s, t)} :: SameEventValues(s, DropEvent(s, t))
    ensures forall s, t {:trigger AddToReady(s, t)} :: SameEventValues(s, AddToReady(s, t))
    ensures forall s, t, l {:trigger PutAtEnd(s, t, l)} :: SameEventValues(s, PutAtEnd(s, t, l))
    ensures forall s, t, v {:trigger AddToDelayed(s, t, v)} :: SameEventValues(s, AddToDelayed(s, t, v))
    ensures forall s {:trigger ResetNextUnblock(s)} :: SameEventValues(s, ResetNextUnblock(s))
  {
    hide Remove, InsertAt, Items, At;
  }

  lemma {:induction false} WakeExpiredEventValues(s: State)
    requires Consistent(s.store)
    ensures SameEventValues(s, WakeExpired(s))
    decreases |Items(s, CurrentDelayed(s))|
  {
    hide Consistent, AddToReady, TakeOff, DropEvent;
    var items := Items(s, CurrentDelayed(s));
    if items != [] && s.tick >= Value(s.store, items[0]) {
      MovesKeepEventValues();
      WakeHeadMoves(s);
      WakeExpiredEventValues(WakeHead(s));
    }
  }

  lemma TickEventValues(s: State)
    requires Consistent(s.store)
    ensures SameEventValues(s, IncrementTick(s))
  {
    hide Consistent, WakeExpired;
    if Ticked(s).tick >= Ticked(s).nextUnblock {
      WakeExpiredEventValues(Ticked(s));
    }
  }

  lemma {:induction false} PendedEventValues(s: State)
    requires Consistent(s.store)
    ensures SameEventValues(s, ProcessPended(s))
    decreases s.pendedTicks
  {
    hide Consistent, IncrementTick;
    if s.pendedTicks > 0 {
      TickEventValues(s);
      PendedEventValues(IncrementTick(s).(pendedTicks := s.pendedTicks - 1));
    }
  }

  lemma {:induction false} MovePendingEventValues(s: State)
    requires Consistent(s.store)
    ensures SameEventValues(s, MovePending(s))
    decreases |Items(s, PendingReady)|
  {
    hide Consistent, AddToReady, TakeOff, DropEvent;
    if Items(s, PendingReady) != [] {
      MovesKeepEventValues();
      MoveFirstPendingShrinks(s);
      MovePendingEventValues(MoveFirstPending(s));
    }
  }

  lemma TimedEventValues(s: State, step: Step)
    requires Inv(s) && Allowed(s, step) && IsTimed(step)
    ensures SameEventValues(s, Apply(s, step))
  {
    hide Inv, Consistent, IncrementTick, DoResumeAll, DoSwitchContext;
    InvIsConsistent(s);
    if step == ResumeAll {
      ResumeEventValues(s);
    } else if step == TickInterrupt {
      TickEventValues(s.(interrupts := s.interrupts + 1));
    } else if step == SwitchContext {
      SwitchEventValues(s);
    }
  }

  lemma ResumeEventValues(s: State)
    requires Consistent(s.store) && s.suspensions > 0
    ensures SameEventValues(s, DoResumeAll(s))
  {
    hide Consistent, ProcessPended, MovePending;
    var s1 := s.(suspensions := s.suspensions - 1);
    MovePendingEventValues(s1);
    PendedEventValues(MovePending(s1));
  }

  lemma SwitchEventValues(s: State)
    ensures SameEventValues(s, DoSwitchContext(s))
  {
    hide Scan;
  }

  /** The event item has the value of the priority the task runs at, or is in use by an event group. */
  ghost predicate Follows(s: State, t: Task) {
    t in s.tcbs ==> EventValue(s, t) >= IN_USE || EventValue(s, t) == NormalEventValue(s.tcbs[t].priority)
  }

  ghost predicate AllFollow(s: State) {
    forall t :: Follows(s, t)
  }

  /** A new priority for a task that runs at an inherited one, and whose event item is not in use. */
  predicate SetsWhileInherited(s: State, t: Task, priority: nat) {
    && t in s.tcbs && EventValue(s, t) < IN_USE
    && s.tcbs[t].priority != s.tcbs[t].basePriority
    && Clip(priority) != s.tcbs[t].basePriority && Clip(priority) != s.tcbs[t].priority
  }

  lemma ChangeTcbEventValue(s: State, t: Task, tcb: Tcb, u: Task)
    ensures EventValue(ChangeTcb(s, t, tcb), u) == EventValue(s, u)
  {
    hide Leave, AddToReady;
    MovesKeepEventValues();
    assert EventValue(Leave(s, t), u) == EventValue(s, u);
    assert EventValue(Leave(s, t).(tcbs := Leave(s, t).tcbs[t := tcb]), u) == EventValue(s, u);
  }

  lemma SetPriorityEventValue(s: State, t: Task, priority: nat, u: Task)
    ensures var s1 := DoSetPriority(s, t, priority);
            EventValue(s1, u) ==
            if u == t && t in s.tcbs && s.tcbs[t].basePriority != Clip(priority) && EventValue(s, t) < IN_USE
            then NormalEventValue(Clip(priority)) else EventValue(s, u)
  {
    hide ChangeTcb;
    var p := Clip(priority);
    if t in s.tcbs && s.tcbs[t].basePriority != p {
      ChangeTcbEventValue(UpdateEventValue(s, t, p), t, WithPriority(s.tcbs[t], p), u);
    }
  }

  lemma InheritEventValue(s: State, t: Task, u: Task)
    ensures var s1, p := DoInherit(s, t), PriorityOf(s, s.current);
            EventValue(s1, u) ==
            if u == t && t in s.tcbs && s.tcbs[t].priority < p && EventValue(s, t) < IN_USE
            then NormalEventValue(p) else EventValue(s, u)
  {
    hide ChangeTcb;
    var p := PriorityOf(s, s.current);
    if t in s.tcbs && s.tcbs[t].priority < p {
      ChangeTcbEventValue(UpdateEventValue(s, t, p), t, s.tcbs[t].(priority := p), u);
    }
  }

  lemma DisinheritEventValue(s: State, t: Task, u: Task)
    requires t in s.tcbs && s.tcbs[t].mutexesHeld > 0
    ensures var s1 := DoDisinherit(s, t);
            EventValue(s1, u) ==
            if u == t && s.tcbs[t].mutexesHeld == 1 && s.tcbs[t].priority != s.tcbs[t].basePriority
            then NormalEventValue(s.tcbs[t].basePriority) else EventValue(s, u)
  {
    hide Leave, AddToReady, SetEventValue;
    var tcb := Tcb(s.tcbs[t].basePriority, s.tcbs[t].basePriority, 0);
    var s2 := Leave(s, t).(tcbs := Leave(s, t).tcbs[t := tcb]);
    if s.tcbs[t].mutexesHeld == 1 && s.tcbs[t].priority != tcb.priority {
      assert DoDisinherit(s, t) == AddToReady(SetEventValue(s2, t, NormalEventValue(tcb.priority)), t);
      RestoredEventValue(s, s2, t, NormalEventValue(tcb.priority), u);
    }
  }

  lemma RestoredEventValue(s: State, s2: State, t: Task, value: nat, u: Task)
    requires s2.store == Leave(s, t).store
    ensures EventValue(AddToReady(SetEventValue(s2, t, value), t), u) == if u == t then value else EventValue(s, u)
  {
    hide Leave, AddToReady;
    MovesKeepEventValues();
    assert EventValue(Leave(s, t), u) == EventValue(s, u);
    assert EventValue(s2, u) == EventValue(s, u);
  }

  /** vTaskPrioritySet keeps the event value in step with the priority exactly unless the task runs
      at an inherited priority: then the value follows the new priority and the task does not. */
  lemma SetPriorityFollowsExactlyWhen(s: State, t: Task, priority: nat)
    requires Inv(s) && AllFollow(s)
    ensures AllFollow(DoSetPriority(s, t, priority)) <==> !SetsWhileInherited(s, t, priority)
  {
    hide Inv, DoSetPriority;
    SetPriorityTcbs(s, t, priority);
    var s1 := DoSetPriority(s, t, priority);
    forall u | u != t || !SetsWhileInherited(s, t, priority)
      ensures Follows(s1, u)
    {
      assert Follows(s, u);
      SetPriorityEventValue(s, t, priority, u);
    }
    if SetsWhileInherited(s, t, priority) {
      SetPriorityEventValue(s, t, priority, t);
      PrioritiesInRange(s, t);
      assert !Follows(s1, t);
    }
  }

  lemma PrioritiesInRange(s: State, t: Task)
    requires Inv(s) && t in s.tcbs
    ensures s.tcbs[t].priority < PRIORITIES && s.tcbs[t].basePriority < PRIORITIES
  {
  }

  lemma InheritFollows(s: State, t: Task)
    requires Inv(s) && AllFollow(s)
    ensures AllFollow(DoInherit(s, t))
  {
    hide Inv, DoInherit;
    InheritTcbs(s, t);
    forall u
      ensures Follows(DoInherit(s, t), u)
    {
      assert Follows(s, u);
      InheritEventValue(s, t, u);
    }
  }

  lemma DisinheritFollows(s: State, t: Task)
    requires Inv(s) && AllFollow(s)
    ensures AllFollow(DoDisinherit(s, t))
  {
    hide Inv;
    if t in s.tcbs && s.tcbs[t].mutexesHeld > 0 {
      DisinheritTcbs(s, t);
      forall u
        ensures Follows(DoDisinherit(s, t), u)
      {
        hide DoDisinherit;
        assert Follows(s, u);
        DisinheritEventValue(s, t, u);
      }
    }
  }

  /** Only the event item of `t` has a new value, or none has. */
  lemma CreateFollows(s: State, t: Task, priority: nat)
    requires AllFollow(s)
    ensures AllFollow(DoCreate(s, t, priority))
  {
    hide AddToReady;
    MovesKeepEventValues();
    CreateTcbs(s, t, priority);
    forall u
      ensures Follows(DoCreate(s, t, priority), u)
    {
      assert Follows(s, u);
    }
  }

  lemma CleanUpFollows(s: State)
    requires AllFollow(s)
    ensures AllFollow(DoCleanUp(s))
  {
    hide TakeOff;
    MovesKeepEventValues();
    forall u
      ensures Follows(DoCleanUp(s), u)
    {
      assert Follows(s, u);
      if Items(s, Termination) != [] {
        assert EventValue(TakeOff(s, Items(s, Termination)[0].task), u) == EventValue(s, u);
      }
    }
  }

  /** A wait on an unordered list and the wake-up from it put the event item to another use. */
  lemma UnorderedFollows(s: State, list: nat, t: Task, value: nat, ticks: nat)
    requires Inv(s) && AllFollow(s)
    ensures AllFollow(DoPlaceOnUnordered(s, list, value, ticks))
    ensures AllFollow(DoRemoveFromUnordered(s, t, value))
  {
    hide Inv, Leave, AddToReady, TakeOff, DropEvent, PutAtEnd, AddToDelayed;
    MovesKeepEventValues();
    MovesKeepTcbs();
    forall u
      ensures Follows(DoPlaceOnUnordered(s, list, value, ticks), u)
      ensures Follows(DoRemoveFromUnordered(s, t, value), u)
    {
      assert Follows(s, u);
      UnorderedEventValue(s, list, t, value, ticks, u);
    }
  }

  lemma UnorderedEventValue(s: State, list: nat, t: Task, value: nat, ticks: nat, u: Task)
    ensures var marked := if value < 0x8000_0000 then value + 0x8000_0000 else value;
            && EventValue(DoPlaceOnUnordered(s, list, value, ticks), u) ==
                 (if u == s.current then marked else EventValue(s, u))
            && EventValue(DoRemoveFromUnordered(s, t, value), u) == (if u == t then marked else EventValue(s, u))
  {
    hide Leave, AddToReady, TakeOff, DropEvent, PutAtEnd, AddToDelayed;
    MovesKeepEventValues();
  }

  /** The steps that touch neither priorities nor event values. */
  ghost predicate Indifferent(step: Step) {
    && !step.Create? && !step.CleanUp? && !step.SetPriority? && !step.Inherit? && !step.Disinherit? && !step.TakeMutex?
    && !step.ResetEventItemValue? && !step.PlaceOnUnorderedEventList? && !step.RemoveFromUnorderedEventList?
  }

  lemma IndifferentEventValues(s: State, step: Step)
    requires Inv(s) && Allowed(s, step) && Indifferent(step)
    ensures SameEventValues(s, Apply(s, step))
  {
    hide Inv, CallerReady, Leave, AddToReady, TakeOff, DropEvent, ResetNextUnblock, AddToDelayed, PutAtEnd,
         DoResumeAll, DoTickInterrupt, DoSwitchContext;
    MovesKeepEventValues();
    if IsTimed(step) {
      TimedEventValues(s, step);
    }
  }

  lemma StepFollows(s: State, step: Step)
    requires Inv(s) && Allowed(s, step) && AllFollow(s)
    requires step.SetPriority? ==> !SetsWhileInherited(s, step.task, step.priority)
    ensures AllFollow(Apply(s, step))
  {
    hide Inv, DoCreate, DoCleanUp, DoSetPriority, DoInherit, DoDisinherit, DoPlaceOnUnordered, DoRemoveFromUnordered,
         CallerReady;
    match step
    case Create(t, priority) => CreateFollows(s, t, priority);
    case CleanUp => CleanUpFollows(s);
    case SetPriority(t, priority) => SetPriorityFollowsExactlyWhen(s, t, priority);
    case Inherit(t) => InheritFollows(s, t);
    case Disinherit(t) => DisinheritFollows(s, t);
    case PlaceOnUnorderedEventList(list, value, ticks) => UnorderedFollows(s, list, s.current, value, ticks);
    case RemoveFromUnorderedEventList(t, value) => UnorderedFollows(s, 0, t, value, 1);
    case TakeMutex => TakeMutexFollows(s);
    case ResetEventItemValue => ResetFollows(s);
    case _ => IndifferentFollows(s, step);
  }

  lemma IndifferentFollows(s: State, step: Step)
    requires Inv(s) && Allowed(s, step) && AllFollow(s) && Indifferent(step)
    ensures AllFollow(Apply(s, step))
  {
    hide Inv, Apply, Allowed;
    IndifferentEventValues(s, step);
    TcbsKept(s, step);
    forall u
      ensures Follows(Apply(s, step), u)
    {
      assert Follows(s, u) && EventValue(Apply(s, step), u) == EventValue(s, u);
    }
  }

  lemma TakeMutexFollows(s: State)
    requires AllFollow(s)
    ensures AllFollow(DoTakeMutex(s))
  {
    forall u
      ensures Follows(DoTakeMutex(s), u)
    {
      assert Follows(s, u);
    }
  }

  lemma ResetFollows(s: State)
    requires AllFollow(s)
    ensures AllFollow(DoResetEventItemValue(s))
  {
    forall u
      ensures Follows(DoResetEventItemValue(s), u)
    {
      assert Follows(s, u);
    }
  }

  /** No priority is set while the task runs at an inherited one. */
  ghost predicate NeverSetsWhileInherited(s: State, steps: seq<Step>)
    requires Inv(s) && Permitted(s, steps)
    decreases |steps|
  {
    steps == [] ||
    (&& (steps[0].SetPriority? ==> !SetsWhileInherited(s, steps[0].task, steps[0].priority))
     && (StepKeeps(s, steps[0]); NeverSetsWhileInherited(Apply(s, steps[0]), steps[1..])))
  }

  /** In every such run event items keep the values of the priorities their tasks run at, so that a
      task which starts to wait is queued by the priority it then has, inherited or not. */
  lemma {:induction false} EventValuesFollowPriorities(s: State, steps: seq<Step>)
    requires Inv(s) && AllFollow(s) && Permitted(s, steps) && NeverSetsWhileInherited(s, steps)
    ensures AllFollow(Run(s, steps))
    decreases |steps|
  {
    hide Inv, Apply, Allowed, AllFollow;
    if steps != [] {
      StepKeeps(s, steps[0]);
      StepFollows(s, steps[0]);
      EventValuesFollowPriorities(Apply(s, steps[0]), steps[1..]);
    }
  }

  lemma {:induction false} CreatedAllFollow(cs: seq<Creation>)
    requires cs != []
    ensures AllFollow(CreatedAll(cs))
  {
    hide DoCreate;
    if |cs| > 1 {
      var s, last := CreatedAll(cs[..|cs| - 1]), cs[|cs| - 1];
      CreatedAllFollow(cs[..|cs| - 1]);
      CreateFollows(s, last.task, last.priority);
      forall t
        ensures Follows(CreateBefore(s, last), t)
      {
        assert Follows(DoCreate(s, last.task, last.priority), t);
      }
    }
  }

  lemma BootFollows(setup: Setup)
    ensures AllFollow(Boot(setup))
  {
    CreatedAllFollow(Creations(setup));
  }

  /** The scheduler is started with no task but the idle task, task 0. */
  function IdleOnly(): (setup: Setup) {
    Setup([], 0)
  }

  lemma IdleOnlyBoots()
    ensures IsSetup(IdleOnly()) && Boot(IdleOnly()) == FirstCreated(Creation(0, 0))
  {
    assert Creations(IdleOnly()) == [Creation(0, 0)];
  }

  lemma OneStepMore(steps: seq<Step>, s: State, step: Step)
    requires IsRun(IdleOnly(), steps) && s == Reached(IdleOnly(), steps) && Inv(s) && Allowed(s, step)
    ensures IsRun(IdleOnly(), steps + [step]) && Apply(s, step) == Reached(IdleOnly(), steps + [step])
  {
    hide Inv, Apply, Allowed, Boot, Run, Permitted;
    BootIsGood(IdleOnly());
    RunOneMore(Boot(IdleOnly()), steps, step);
  }

  /** A state reached from the start, in which the idle task holds a mutex and runs at the priority
      3 of a task that has contended for it. */
  lemma IdleInherits() returns (s: State, steps: seq<Step>)
    ensures IsRun(IdleOnly(), steps) && s == Reached(IdleOnly(), steps)
    ensures Inv(s) && AllFollow(s) && 0 in s.tcbs && s.tcbs[0] == Tcb(3, 0, 1)
            && EventValue(s, 0) == NormalEventValue(3)
  {
    var s2, steps2 := TwoTasks();
    hide Inv, DoSwitchContext, DoInherit, AllFollow, IsRun, Reached;
    SelectsTheOther(s2);
    var s3 := Apply(s2, SwitchContext);
    StepKeeps(s2, SwitchContext);
    StepFollows(s2, SwitchContext);
    TcbsKept(s2, SwitchContext);
    IndifferentEventValues(s2, SwitchContext);
    OneStepMore(steps2, s2, SwitchContext);
    s := Apply(s3, Inherit(0));
    StepKeeps(s3, Inherit(0));
    StepFollows(s3, Inherit(0));
    InheritTcbs(s3, 0);
    assert EventValue(s3, 0) == EventValue(s2, 0);
    InheritEventValue(s3, 0, 0);
    OneStepMore(steps2 + [SwitchContext], s3, Inherit(0));
    steps := steps2 + [SwitchContext] + [Inherit(0)];
  }

  lemma IdleStarts() returns (s: State)
    ensures IsRun(IdleOnly(), []) && s == Reached(IdleOnly(), [])
    ensures Inv(s) && AllFollow(s) && s.suspensions == 0 && s.current == 0
    ensures s.tcbs == map[0 := Tcb(0, 0, 0)] && EventValue(s, 0) == NormalEventValue(0)
  {
    s := FirstCreated(Creation(0, 0));
    assert s.tcbs == map[0 := Tcb(0, 0, 0)] && EventValue(s, 0) == NormalEventValue(0);
    hide Inv, AllFollow, FirstCreated, Fresh;
    IdleOnlyBoots();
    BootIsGood(IdleOnly());
    BootFollows(IdleOnly());
  }

  lemma IdleTakesMutex() returns (s: State, steps: seq<Step>)
    ensures IsRun(IdleOnly(), steps) && s == Reached(IdleOnly(), steps)
    ensures Inv(s) && AllFollow(s) && s.suspensions == 0
    ensures s.tcbs == map[0 := Tcb(0, 0, 1)] && EventValue(s, 0) == NormalEventValue(0)
  {
    hide Inv, AllFollow, IsRun, Reached;
    var s0 := IdleStarts();
    s := DoTakeMutex(s0);
    TakeMutexKeeps(s0);
    TakeMutexFollows(s0);
    OneStepMore([], s0, TakeMutex);
    steps := [] + [TakeMutex];
  }

  lemma TwoTasks() returns (s: State, steps: seq<Step>)
    ensures IsRun(IdleOnly(), steps) && s == Reached(IdleOnly(), steps)
    ensures Inv(s) && AllFollow(s) && s.suspensions == 0 && IsReady(s, 1)
    ensures s.tcbs == map[0 := Tcb(0, 0, 1), 1 := Tcb(3, 3, 0)] && EventValue(s, 0) == NormalEventValue(0)
  {
    hide Inv, DoCreate, AllFollow, IsRun, Reached;
    var s1, steps1 := IdleTakesMutex();
    s := DoCreate(s1, 1, 3);
    CreateKeeps(s1, 1, 3);
    CreateFollows(s1, 1, 3);
    CreateTcbs(s1, 1, 3);
    CreateEventValue(s1, 1, 3, 0);
    OneStepMore(steps1, s1, Create(1, 3));
    steps := steps1 + [Create(1, 3)];
  }

  lemma CreateEventValue(s: State, t: Task, priority: nat, u: Task)
    requires u != t
    ensures EventValue(DoCreate(s, t, priority), u) == EventValue(s, u)
  {
    hide AddToReady;
    MovesKeepEventValues();
  }

  lemma SelectsTheOther(s: State)
    requires Inv(s) && s.suspensions == 0 && IsReady(s, 1) && s.tcbs == map[0 := Tcb(0, 0, 1), 1 := Tcb(3, 3, 0)]
    ensures Allowed(s, SwitchContext) && DoSwitchContext(s).current == 1
  {
    hide Inv, DoSwitchContext, Scan, IsReady;
    NotPended(s, 1);
    TaskSelection.ReadyHasBit(s, 1);
    TaskSelection.Selects(s);
    TcbsKept(s, SwitchContext);
  }

  lemma NotPended(s: State, t: Task)
    requires Inv(s) && s.suspensions == 0 && IsReady(s, t)
    ensures SleepsUntil(s, t, 0)
  {
    hide Core, Counted, TicksAccounted;
    assert WellPlaced(s, t);
  }

  /** Here, in a run from the start, the idle task runs at an inherited priority of 3, its priority is
      set to 1, and its event item has the value of 1 although it goes on at 3. */
  lemma SettingWhileInheritedDiverges()
    ensures exists steps ::
              && IsRun(IdleOnly(), steps)
              && var s := Reached(IdleOnly(), steps);
                 var s1 := DoSetPriority(s, 0, 1);
                 && AllFollow(s) && SetsWhileInherited(s, 0, 1)
                 && 0 in s1.tcbs && s1.tcbs[0].priority == 3 && EventValue(s1, 0) == NormalEventValue(1)
  {
    hide Inv, AllFollow, DoSetPriority, IsRun, Reached;
    var s, steps := IdleInherits();
    SetPriorityTcbs(s, 0, 1);
    SetPriorityEventValue(s, 0, 1, 0);
  }

  // ---- How long an inherited priority lasts ----

  /** The step does not end the inheritance: `t` does not give its last mutex, is not freed, and its
      priority is not set. */
  ghost predicate LetsInherit(s: State, step: Step, t: Task) {
    && (step.Disinherit? && step.holder == t && t in s.tcbs ==> s.tcbs[t].mutexesHeld != 1)
    && (step.SetPriority? ==> step.task != t)
    && (step == CleanUp && Items(s, Termination) != [] ==> Items(s, Termination)[0].task != t)
  }

  lemma StepLetsInherit(s: State, step: Step, t: Task)
    requires Inv(s) && Allowed(s, step) && t in s.tcbs && LetsInherit(s, step, t)
    ensures t in Apply(s, step).tcbs && PriorityOf(Apply(s, step), t) >= PriorityOf(s, t)
    ensures step == Inherit(t) ==> PriorityOf(Apply(s, step), t) >= PriorityOf(s, s.current)
  {
    hide Inv, DoCreate, DoCleanUp, DoSetPriority, DoInherit, DoDisinherit, CallerReady;
    match step
    case Create(u, priority) => CreateTcbs(s, u, priority);
    case CleanUp => CleanUpTcbs(s);
    case SetPriority(u, priority) => SetPriorityTcbs(s, u, priority);
    case Inherit(u) => InheritTcbs(s, u);
    case Disinherit(u) =>
      if u in s.tcbs && s.tcbs[u].mutexesHeld > 0 {
        DisinheritTcbs(s, u);
      } else {
        NothingToDisinherit(s, u);
      }
    case TakeMutex =>
    case _ => TcbsKept(s, step);
  }

  lemma NothingToDisinherit(s: State, t: Task)
    requires t !in s.tcbs || s.tcbs[t].mutexesHeld == 0
    ensures DoDisinherit(s, t) == s
  {
  }

  ghost predicate AllLetInherit(s: State, steps: seq<Step>, t: Task)
    requires Inv(s) && Permitted(s, steps)
    decreases |steps|
  {
    steps == [] ||
    (LetsInherit(s, steps[0], t) && (StepKeeps(s, steps[0]); AllLetInherit(Apply(s, steps[0]), steps[1..], t)))
  }

  lemma {:induction false} PriorityLasts(s: State, steps: seq<Step>, t: Task)
    requires Inv(s) && Permitted(s, steps) && t in s.tcbs && AllLetInherit(s, steps, t)
    ensures t in Run(s, steps).tcbs && PriorityOf(Run(s, steps), t) >= PriorityOf(s, t)
    decreases |steps|
  {
    hide Inv, Apply, Allowed, PriorityOf, LetsInherit;
    if steps != [] {
      StepKeeps(s, steps[0]);
      StepLetsInherit(s, steps[0], t);
      PriorityLasts(Apply(s, steps[0]), steps[1..], t);
    }
  }

  /** A holder that a task has contended with runs at no less than that task's priority until it
      gives its last mutex, whatever happens in between, unless its priority is set. */
  lemma InheritanceLasts(s: State, holder: Task, steps: seq<Step>)
    requires Inv(s) && holder in s.tcbs
    requires Inv(DoInherit(s, holder)) && Permitted(DoInherit(s, holder), steps)
    requires AllLetInherit(DoInherit(s, holder), steps, holder)
    ensures PriorityOf(Run(DoInherit(s, holder), steps), holder) >= PriorityOf(s, s.current)
    ensures PriorityOf(Run(DoInherit(s, holder), steps), holder) >= PriorityOf(s, holder)
  {
    hide Inv, DoInherit, Permitted, AllLetInherit, Run;
    InheritTcbs(s, holder);
    PriorityLasts(DoInherit(s, holder), steps, holder);
  }

  /** Giving the last mutex ends the inheritance: the holder runs at its own priority. */
  lemma LastMutexEndsInheritance(s: State, t: Task)
    requires t in s.tcbs && s.tcbs[t].mutexesHeld == 1
    ensures var s1 := DoDisinherit(s, t);
            s1.tcbs[t].priority == s.tcbs[t].basePriority && s1.tcbs[t].mutexesHeld == 0
            && forall u :: u != t ==> PriorityOf(s1, u) == PriorityOf(s, u)
  {
    hide DoDisinherit;
    DisinheritTcbs(s, t);
  }
}
