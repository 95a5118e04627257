/** Runs of the scheduler: any sequence of steps from a state in which it can start, whatever tasks
    have been created before.  The invariant holds in every reachable state, and no step that leaves a
    sleeping task alone changes when it wakes. */
module TaskRuns {
  import opened RingList
  import opened Ticks
  import opened ItemStore
  import opened TaskState
  import opened TaskTick
  import opened TaskMoves
  import opened TaskSteps
  import opened TaskInvariant

  /** What each call asks of its caller. */
  ghost predicate Allowed(s: State, step: Step) {
    match step
    case Create(t, _) => t !in s.tcbs
    case Delete(t) => t in s.tcbs && StateOf(s, t) != On(Termination) && (t == s.current ==> s.suspensions == 0)
    case CleanUp => StateOf(s, s.current) != On(Termination)
    case SuspendAll => true
    case ResumeAll => s.suspensions > 0
    case TickInterrupt => true
    case Delay(ticks) => ticks < TICKS && (ticks > 0 ==> CallerReady(s))
    case DelayUntil(previous, increment) => previous < TICKS && 0 < increment < TICKS && CallerReady(s)
    case PlaceOnEventList(_, ticks) => 0 < ticks < TICKS && CallerReady(s)
    case PlaceOnUnorderedEventList(_, _, ticks) => 0 < ticks < TICKS && CallerReady(s) && s.suspensions > 0
    case RemoveFromEventList(list) => Items(s, EventList(list)) != []
    case RemoveFromUnorderedEventList(t, _) => WaitOf(s, t).On? && WaitOf(s, t).list.EventList? && s.suspensions > 0
    case SuspendTask(t) => t in s.tcbs && StateOf(s, t) != On(Termination) && (t == s.current ==> s.suspensions == 0)
    case ResumeTask(_) => true
    case ResumeFromISR(_) => true
    case SetPriority(_, _) => true
    case Inherit(_) => true
    case Disinherit(holder) => holder == s.current && CallerReady(s)
    case TakeMutex => true
    case ResetEventItemValue => true
    case SwitchContext => s.suspensions > 0 || s.bits != {}
  }

  function Apply(s: State, step: Step): State
    requires Inv(s) && Allowed(s, step)
  {
    match step
    case Create(t, priority) => DoCreate(s, t, priority)
    case Delete(t) => DoDelete(s, t)
    case CleanUp => DoCleanUp(s)
    case SuspendAll => s.(suspensions := s.suspensions + 1)
    case ResumeAll => DoResumeAll(s)
    case TickInterrupt => DoTickInterrupt(s)
    case Delay(ticks) => DoDelay(s, ticks)
    case DelayUntil(previous, increment) => DoDelayUntil(s, previous, increment)
    case PlaceOnEventList(list, ticks) => DoPlaceOnEventList(s, list, ticks)
    case PlaceOnUnorderedEventList(list, value, ticks) => DoPlaceOnUnordered(s, list, value, ticks)
    case RemoveFromEventList(list) => DoRemoveFromEventList(s, list)
    case RemoveFromUnorderedEventList(t, value) => DoRemoveFromUnordered(s, t, value)
    case SuspendTask(t) => DoSuspendTask(s, t)
    case ResumeTask(t) => DoResumeTask(s, t)
    case ResumeFromISR(t) => DoResumeFromISR(s, t)
    case SetPriority(t, priority) => DoSetPriority(s, t, priority)
    case Inherit(holder) => DoInherit(s, holder)
    case Disinherit(holder) => DoDisinherit(s, holder)
    case TakeMutex => DoTakeMutex(s)
    case ResetEventItemValue => DoResetEventItemValue(s)
    case SwitchContext => DoSwitchContext(s)
  }

  /** The task a step is about, if it is about one in particular. */
  ghost function Subject(s: State, step: Step): Task
    requires Inv(s) && Allowed(s, step)
  {
    match step
    case Create(t, _) => t
    case Delete(t) => t
    case CleanUp => if Items(s, Termination) == [] then s.current else Items(s, Termination)[0].task
    case RemoveFromEventList(list) => Items(s, EventList(list))[0].task
    case RemoveFromUnorderedEventList(t, _) => t
    case SuspendTask(t) => t
    case ResumeTask(t) => t
    case ResumeFromISR(t) => t
    case SetPriority(t, _) => t
    case Inherit(holder) => holder
    case _ => s.current
  }

  /** A step either moves its subject alone, in no time, or is about the scheduler itself. */
  ghost predicate IsTimed(step: Step) {
    step == ResumeAll || step == TickInterrupt || step == SuspendAll || step == SwitchContext
  }

  lemma SubjectStepKeeps(s: State, step: Step)
    requires Inv(s) && Allowed(s, step) && !IsTimed(step)
    ensures Inv(Apply(s, step)) && Only(s, Apply(s, step), Subject(s, step))
  {
    hide Inv, Only, SameTask, StaysPut, CallerReady;
    match step
    case Create(t, priority) => CreateKeeps(s, t, priority);
    case Delete(t) => DeleteKeeps(s, t);
    case CleanUp =>
      CleanUpKeeps(s);
      SelfOnly(s, s.current);
    case Delay(ticks) => DelayKeeps(s, ticks);
    case DelayUntil(previous, increment) => DelayUntilKeeps(s, previous, increment);
    case PlaceOnEventList(list, ticks) => PlaceOnEventListKeeps(s, list, ticks);
    case PlaceOnUnorderedEventList(list, value, ticks) => PlaceOnUnorderedKeeps(s, list, value, ticks);
    case RemoveFromEventList(list) => RemoveFromEventListKeeps(s, list);
    case RemoveFromUnorderedEventList(t, value) => RemoveFromUnorderedKeeps(s, t, value);
    case SuspendTask(t) => SuspendTaskKeeps(s, t);
    case ResumeTask(t) => ResumeTaskKeeps(s, t);
    case ResumeFromISR(t) => ResumeFromISRKeeps(s, t);
    case SetPriority(t, priority) => SetPriorityKeeps(s, t, priority);
    case Inherit(holder) => InheritKeeps(s, holder);
    case Disinherit(holder) => DisinheritKeeps(s, holder);
    case TakeMutex => TakeMutexKeeps(s);
    case ResetEventItemValue => ResetEventItemValueKeeps(s);
  }

  /** Every step keeps the invariant. */
  lemma StepKeeps(s: State, step: Step)
    requires Inv(s) && Allowed(s, step)
    ensures Inv(Apply(s, step))
  {
    hide Inv, Only, NobodyMoved;
    if !IsTimed(step) {
      SubjectStepKeeps(s, step);
    } else if step == ResumeAll {
      ResumeAllKeeps(s);
    } else if step == TickInterrupt {
      TickInterruptKeeps(s);
    } else if step == SuspendAll {
      SuspendAllKeeps(s);
    } else if s.suspensions == 0 {
      SwitchContextKeeps(s);
    }
  }

  // ---- Runs ----

  ghost predicate Permitted(s: State, steps: seq<Step>)
    requires Inv(s)
    decreases |steps|
  {
    steps == [] || (Allowed(s, steps[0]) && (StepKeeps(s, steps[0]); Permitted(Apply(s, steps[0]), steps[1..])))
  }

  function Run(s: State, steps: seq<Step>): State
    requires Inv(s) && Permitted(s, steps)
    decreases |steps|
  {
    if steps == [] then s
    else
      StepKeeps(s, steps[0]);
      Run(Apply(s, steps[0]), steps[1..])
  }

  // ---- The start ----

  datatype Creation = Creation(task: Task, priority: nat)

  /** The tasks created before the scheduler is started, in order; vTaskStartScheduler adds the idle
      task as the last. */
  datatype Setup = Setup(before: seq<Creation>, idle: Task)

  /** The first task to be created. */
  function FirstCreated(c: Creation): State {
    var t, p := c.task, Clip(c.priority);
    State(map[t := Tcb(p, p, 0)],
          Store(map[Ready(p) := Ring([Generic(t)], 0)], map[Generic(t) := On(Ready(p))],
                map[Event(t) := NormalEventValue(p)]),
          true, 0, 0, 0, 0, 0, 0, MAX_DELAY, t, 1, 0, p, {p})
  }

  /** A creation before the scheduler runs: the task becomes the current one unless that has a higher
      priority. */
  function CreateBefore(s: State, c: Creation): State {
    var s1 := DoCreate(s, c.task, c.priority);
    s1.(current := if PriorityOf(s, s.current) <= Clip(c.priority) then c.task else s.current)
  }

  function CreatedAll(cs: seq<Creation>): State
    requires cs != []
  {
    var last := cs[|cs| - 1];
    if |cs| == 1 then FirstCreated(last) else CreateBefore(CreatedAll(cs[..|cs| - 1]), last)
  }

  function Creations(setup: Setup): (cs: seq<Creation>)
    ensures cs != []
  {
    setup.before + [Creation(setup.idle, 0)]
  }

  /** The state in which the scheduler starts. */
  function Boot(setup: Setup): State {
    CreatedAll(Creations(setup))
  }

  ghost predicate Apart(cs: seq<Creation>) {
    forall i, j :: 0 <= i < j < |cs| ==> cs[i].task != cs[j].task
  }

  ghost predicate IsSetup(setup: Setup) {
    Apart(Creations(setup))
  }

  /** What is true of every state the scheduler can start in. */
  ghost predicate Fresh(s: State) {
    && s.clock == 0 && s.interrupts == 0 && s.pendedTicks == 0 && s.suspensions == 0
    && forall t <- s.tcbs :: s.tcbs[t] == Tcb(s.tcbs[t].priority, s.tcbs[t].priority, 0)
  }

  lemma FirstIsConsistent(c: Creation)
    ensures Consistent(FirstCreated(c).store)
  {
    var st := FirstCreated(c).store;
    forall l
      ensures Valid(At(st, l))
    {
    }
    forall l, i
      ensures Member(st, i, l) <==> PlaceOf(st, i) == On(l)
    {
    }
  }

  lemma FirstIsGood(c: Creation)
    ensures Inv(FirstCreated(c)) && Fresh(FirstCreated(c))
    ensures forall t :: t in FirstCreated(c).tcbs <==> t == c.task
    ensures StateOf(FirstCreated(c), c.task) == On(Ready(Clip(c.priority)))
  {
    hide Consistent, SortedList;
    var s := FirstCreated(c);
    FirstIsConsistent(c);
    EmptyIsSorted(s.store, CurrentDelayed(s));
    EmptyIsSorted(s.store, OverflowDelayed(s));
    forall t
      ensures WellPlaced(s, t)
    {
    }
  }

  lemma EmptyIsSorted(st: Store, l: ListId)
    requires At(st, l).items == []
    ensures SortedList(st, l)
  {
  }

  /** Which of the tasks is the current one matters to nothing but that it is one. */
  lemma AnyCurrent(s: State, t: Task)
    requires Inv(s) && t in s.tcbs
    ensures Inv(s.(current := t))
  {
    hide Consistent, SortedList, ReadyOk;
    var s1 := s.(current := t);
    SameReady(s, s1);
    forall u
      ensures WellPlaced(s1, u)
    {
      assert WellPlaced(s, u);
    }
  }

  lemma SameReady(s: State, s1: State)
    requires ReadyOk(s) && s1.store == s.store && s1.top == s.top && s1.bits == s.bits && s1.tcbs == s.tcbs
    ensures ReadyOk(s1)
  {
    hide MarksOk;
    MarksFrame(s, s1);
  }

  lemma CreateBeforeKeeps(s: State, c: Creation)
    requires Inv(s) && Fresh(s) && c.task !in s.tcbs
    ensures Inv(CreateBefore(s, c)) && Fresh(CreateBefore(s, c))
    ensures forall t :: t in CreateBefore(s, c).tcbs <==> t in s.tcbs || t == c.task
    ensures StateOf(CreateBefore(s, c), c.task) == On(Ready(Clip(c.priority)))
  {
    hide Inv, DoCreate, SameTask, WakeTime;
    CreateKeeps(s, c.task, c.priority);
    CreateTcbs(s, c.task, c.priority);
    CurrentIsTask(s);
    AnyCurrent(DoCreate(s, c.task, c.priority), CreateBefore(s, c).current);
  }

  lemma CreateTcbs(s: State, t: Task, priority: nat)
    ensures DoCreate(s, t, priority).tcbs == s.tcbs[t := Tcb(Clip(priority), Clip(priority), 0)]
  {
    hide AttachEnd, SetValue;
  }

  lemma CurrentIsTask(s: State)
    requires Inv(s)
    ensures s.current in s.tcbs
  {
    hide Core, AllPlaced, TicksAccounted;
  }

  lemma {:induction false} CreatedAllIsGood(cs: seq<Creation>)
    requires cs != [] && Apart(cs)
    ensures Inv(CreatedAll(cs)) && Fresh(CreatedAll(cs))
    ensures forall t :: t in CreatedAll(cs).tcbs <==> exists i :: 0 <= i < |cs| && cs[i].task == t
    ensures var last := cs[|cs| - 1]; StateOf(CreatedAll(cs), last.task) == On(Ready(Clip(last.priority)))
  {
    hide Inv, Fresh, CreateBefore, FirstCreated;
    var last, rest := cs[|cs| - 1], cs[..|cs| - 1];
    if |cs| == 1 {
      FirstIsGood(last);
      assert cs[0] == last;
    } else {
      assert forall i :: 0 <= i < |rest| ==> rest[i] == cs[i];
      CreatedAllIsGood(rest);
      CreateBeforeKeeps(CreatedAll(rest), last);
      forall t
        ensures t in CreatedAll(cs).tcbs <==> exists i :: 0 <= i < |cs| && cs[i].task == t
      {
        assert t == last.task ==> cs[|cs| - 1].task == t;
        assert (exists i :: 0 <= i < |cs| && cs[i].task == t) ==>
                 t == last.task || exists i :: 0 <= i < |rest| && rest[i].task == t;
      }
    }
  }

  /** What the scheduler starts with as its current task: the one created last of the highest priority. */
  lemma {:induction false} StartsWithMostUrgent(cs: seq<Creation>) returns (k: nat)
    requires cs != [] && Apart(cs)
    ensures k < |cs| && CreatedAll(cs).current == cs[k].task
    ensures forall j :: 0 <= j < |cs| ==> Clip(cs[j].priority) <= Clip(cs[k].priority)
    ensures forall j :: k < j < |cs| ==> Clip(cs[j].priority) < Clip(cs[k].priority)
    ensures cs[k].task in CreatedAll(cs).tcbs && PriorityOf(CreatedAll(cs), cs[k].task) == Clip(cs[k].priority)
  {
    hide DoCreate, FirstCreated;
    var last, rest := cs[|cs| - 1], cs[..|cs| - 1];
    if |cs| == 1 {
      k := 0;
      FirstCurrent(last);
    } else {
      assert forall i :: 0 <= i < |rest| ==> rest[i] == cs[i];
      k := StartsWithMostUrgent(rest);
      CreateTcbs(CreatedAll(rest), last.task, last.priority);
      if Clip(cs[k].priority) <= Clip(last.priority) {
        k := |cs| - 1;
      }
    }
  }

  lemma FirstCurrent(c: Creation)
    ensures FirstCreated(c).current == c.task && c.task in FirstCreated(c).tcbs
    ensures PriorityOf(FirstCreated(c), c.task) == Clip(c.priority)
  {
  }

  /** The scheduler starts in a good state, with the idle task ready. */
  lemma BootIsGood(setup: Setup)
    requires IsSetup(setup)
    ensures Inv(Boot(setup)) && Fresh(Boot(setup))
    ensures StateOf(Boot(setup), setup.idle) == On(Ready(0))
  {
    hide Inv, Fresh, CreatedAll;
    CreatedAllIsGood(Creations(setup));
  }

  // ---- What every run keeps ----

  lemma {:induction false} RunKeeps(s: State, steps: seq<Step>)
    requires Inv(s) && Permitted(s, steps)
    ensures Inv(Run(s, steps))
    decreases |steps|
  {
    hide Inv;
    if steps != [] {
      StepKeeps(s, steps[0]);
      RunKeeps(Apply(s, steps[0]), steps[1..]);
    }
  }

  lemma {:induction false} RunOneMore(s: State, steps: seq<Step>, step: Step)
    requires Inv(s) && Permitted(s, steps) && (RunKeeps(s, steps); Allowed(Run(s, steps), step))
    ensures Permitted(s, steps + [step]) && Run(s, steps + [step]) == (RunKeeps(s, steps); Apply(Run(s, steps), step))
    decreases |steps|
  {
    hide Inv, Apply, Allowed;
    if steps == [] {
      assert steps + [step] == [step] && [step][1..] == [];
      StepKeeps(s, step);
    } else {
      StepKeeps(s, steps[0]);
      assert (steps + [step])[1..] == steps[1..] + [step];
      RunKeeps(Apply(s, steps[0]), steps[1..]);
      RunOneMore(Apply(s, steps[0]), steps[1..], step);
    }
  }

  function Interrupts(steps: seq<Step>): nat {
    if steps == [] then 0 else (if steps[0] == TickInterrupt then 1 else 0) + Interrupts(steps[1..])
  }

  lemma StepInterrupts(s: State, step: Step)
    requires Inv(s) && Allowed(s, step)
    ensures Apply(s, step).interrupts == s.interrupts + Interrupts([step])
  {
    hide Inv, NobodyMoved, SameTask;
    assert Interrupts([step]) == if step == TickInterrupt then 1 else 0;
    if !IsTimed(step) {
      SubjectStepKeeps(s, step);
    } else if step == ResumeAll {
      ResumeAllKeeps(s);
    } else if step == TickInterrupt {
      TickInterruptKeeps(s);
    }
  }

  lemma {:induction false} RunInterrupts(s: State, steps: seq<Step>)
    requires Inv(s) && Permitted(s, steps)
    ensures Run(s, steps).interrupts == s.interrupts + Interrupts(steps)
    decreases |steps|
  {
    hide Inv;
    if steps != [] {
      StepKeeps(s, steps[0]);
      StepInterrupts(s, steps[0]);
      RunInterrupts(Apply(s, steps[0]), steps[1..]);
    }
  }

  /** The steps can be taken one after the other from the start. */
  ghost predicate IsRun(setup: Setup, steps: seq<Step>) {
    IsSetup(setup) && (BootIsGood(setup); Permitted(Boot(setup), steps))
  }

  function Reached(setup: Setup, steps: seq<Step>): State
    requires IsRun(setup, steps)
  {
    BootIsGood(setup);
    Run(Boot(setup), steps)
  }

  /** Conservation: in every reachable state each task that has not been freed has its generic
      item on exactly one state list, once, and its event item on at most one list; the container
      pointers say which; the counters agree; and no tick interrupt is lost. */
  lemma TasksAreConserved(setup: Setup, steps: seq<Step>)
    requires IsRun(setup, steps)
    ensures var s := Reached(setup, steps);
            && (forall t :: t in s.tcbs <==> exists l :: IsStateList(l) && Generic(t) in Items(s, l))
            && (forall i, l, m :: i in Items(s, l) && i in Items(s, m) ==> l == m)
            && (forall i, l :: i in Items(s, l) <==> PlaceOf(s.store, i) == On(l))
            && (forall l :: NoDup(Items(s, l)))
            && |s.tcbs| == s.numberOfTasks
            && Wrap(s.tick + s.pendedTicks) == Wrap(Interrupts(steps))
  {
    hide Inv, Run, Permitted, Wrap, Items, NoDup, PlaceOf, Boot;
    BootIsGood(setup);
    RunKeeps(Boot(setup), steps);
    RunInterrupts(Boot(setup), steps);
    Conserved(Reached(setup, steps));
    OneListEach(Reached(setup, steps));
    CountsAgree(Reached(setup, steps));
  }

  lemma CountsAgree(s: State)
    requires Inv(s)
    ensures |s.tcbs| == s.numberOfTasks && Wrap(s.tick + s.pendedTicks) == Wrap(s.interrupts)
  {
    hide Core, AllPlaced, Wrap;
  }

  lemma Conserved(s: State)
    requires Inv(s)
    ensures forall t :: t in s.tcbs <==> exists l :: IsStateList(l) && Generic(t) in Items(s, l)
    ensures forall i, l :: i in Items(s, l) <==> PlaceOf(s.store, i) == On(l)
    ensures forall l :: NoDup(Items(s, l))
  {
    hide ReadyOk, TimeAt, SortedList;
    forall i, l
      ensures i in Items(s, l) <==> PlaceOf(s.store, i) == On(l)
    {
      assert Member(s.store, i, l) <==> PlaceOf(s.store, i) == On(l);
    }
    forall l
      ensures NoDup(Items(s, l))
    {
      assert Valid(At(s.store, l));
    }
    forall t
      ensures t in s.tcbs <==> exists l :: IsStateList(l) && Generic(t) in Items(s, l)
    {
      assert WellPlaced(s, t);
      if t in s.tcbs {
        var l := StateOf(s, t).list;
        assert Member(s.store, Generic(t), l);
        assert IsStateList(l) && Generic(t) in Items(s, l);
      }
    }
  }

  lemma OneListEach(s: State)
    requires forall i, l :: i in Items(s, l) <==> PlaceOf(s.store, i) == On(l)
    ensures forall i, l, m :: i in Items(s, l) && i in Items(s, m) ==> l == m
  {
    forall i, l, m | i in Items(s, l) && i in Items(s, m)
      ensures l == m
    {
      assert PlaceOf(s.store, i) == On(l) && PlaceOf(s.store, i) == On(m);
    }
  }

  // ---- Delays over runs ----

  /** The step does not wake, suspend or delete `t`, and is not a blocking call of `t`. */
  ghost predicate LeavesAlone(s: State, step: Step, t: Task) {
    match step
    case Create(u, _) => u != t
    case Delete(u) => u != t
    case SuspendTask(u) => u != t
    case RemoveFromEventList(list) => Items(s, EventList(list)) != [] ==> Items(s, EventList(list))[0].task != t
    case RemoveFromUnorderedEventList(u, _) => u != t
    case Delay(_) => s.current != t
    case DelayUntil(_, _) => s.current != t
    case PlaceOnEventList(_, _) => s.current != t
    case PlaceOnUnorderedEventList(_, _, _) => s.current != t
    case _ => true
  }

  /** `t` sleeps until the unbounded time `wake`, and is ready from then on. */
  ghost predicate SleepsUntil(s: State, t: Task, wake: nat) {
    && WaitOf(s, t) != On(PendingReady)
    && if s.clock < wake then IsDelayed(s, t) && WakeTime(s, t) == wake else IsReady(s, t)
  }

  lemma SameTaskSleeps(s: State, s1: State, t: Task, wake: nat)
    requires SleepsUntil(s, t, wake) && SameClock(s, s1) && SameTask(s, s1, t)
    ensures SleepsUntil(s1, t, wake)
  {
  }

  lemma TicksWhileAsleep(s: State, s1: State, t: Task, wake: nat)
    requires SleepsUntil(s, t, wake) && TaskAfter(s, s1, t) && s.clock <= s1.clock
    ensures SleepsUntil(s1, t, wake)
  {
    hide WakeTime;
  }

  lemma StepWhileAsleep(s: State, step: Step, t: Task, wake: nat)
    requires Inv(s) && Allowed(s, step) && LeavesAlone(s, step, t)
    requires SleepsUntil(s, t, wake)
    ensures SleepsUntil(Apply(s, step), t, wake)
  {
    hide Inv, SleepsUntil, SameTask, Core;
    if IsTimed(step) {
      TimedStepWhileAsleep(s, step, t, wake);
    } else {
      SubjectStepKeeps(s, step);
      if t != Subject(s, step) {
        SameTaskSleeps(s, Apply(s, step), t, wake);
      } else {
        OwnStepWhileAsleep(s, step, t, wake);
      }
    }
  }

  lemma StaysAsleep(s: State, s1: State, t: Task, wake: nat)
    requires SleepsUntil(s, t, wake) && SameClock(s, s1) && StaysPut(s, s1, t)
    ensures SleepsUntil(s1, t, wake)
  {
  }

  lemma OwnStepWhileAsleep(s: State, step: Step, t: Task, wake: nat)
    requires Inv(s) && Allowed(s, step) && !IsTimed(step) && LeavesAlone(s, step, t) && t == Subject(s, step)
    requires SleepsUntil(s, t, wake)
    ensures SleepsUntil(Apply(s, step), t, wake)
  {
    hide Inv, SameTask, Core, StaysPut;
    SubjectStepKeeps(s, step);
    match step
    case CleanUp => CleanUpKeeps(s); SelfOnly(s, t);
    case ResumeTask(_) => ResumeTaskKeeps(s, t);
    case ResumeFromISR(_) => ResumeFromISRKeeps(s, t);
    case SetPriority(_, priority) => SetPriorityKeeps(s, t, priority); StaysAsleep(s, Apply(s, step), t, wake);
    case Inherit(_) => InheritKeeps(s, t); StaysAsleep(s, Apply(s, step), t, wake);
    case Disinherit(_) => DisinheritKeeps(s, t); StaysAsleep(s, Apply(s, step), t, wake);
    case TakeMutex => TakeMutexKeeps(s); StaysAsleep(s, Apply(s, step), t, wake);
    case ResetEventItemValue => ResetEventItemValueKeeps(s); StaysAsleep(s, Apply(s, step), t, wake);
  }

  lemma TimedStepWhileAsleep(s: State, step: Step, t: Task, wake: nat)
    requires Inv(s) && Allowed(s, step) && IsTimed(step)
    requires SleepsUntil(s, t, wake)
    ensures SleepsUntil(Apply(s, step), t, wake)
  {
    hide Inv, SameTask, Core, TaskAfter;
    if step == ResumeAll {
      ResumeAllKeeps(s);
      if s.suspensions > 1 {
        SameTaskSleeps(s, Apply(s, step), t, wake);
      } else {
        assert ResumedTask(s, Apply(s, step), t);
        TicksWhileAsleep(s, Apply(s, step), t, wake);
      }
    } else if step == TickInterrupt {
      TickInterruptKeeps(s);
      if s.suspensions == 0 {
        TicksWhileAsleep(s, Apply(s, step), t, wake);
      } else {
        SameTaskSleeps(s, Apply(s, step), t, wake);
      }
    } else if step == SuspendAll {
      SuspendAllKeeps(s);
      SameTaskSleeps(s, Apply(s, step), t, wake);
    } else if s.suspensions == 0 {
      SwitchContextKeeps(s);
      SameTaskSleeps(s, Apply(s, step), t, wake);
    }
  }
}
