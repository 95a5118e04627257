/** Timed sends and receives over the scheduler (queue.c over tasks.c).  The steps of the blocking
    protocol are taken by tasks that run, its waiting lists are event lists of the scheduler, and its
    timeouts read the scheduler's tick.  Beside it the scheduler takes any other step. */
module QueueTasks {
  import opened Ticks
  import opened Timeouts
  import opened ItemStore
  import opened TaskState
  import opened TaskTick
  import opened TaskMoves
  import opened TaskSteps
  import opened TaskInvariant
  import opened TaskRuns
  import opened TaskWaits
  import QueueControl
  import Protocol = QueueProtocol

  const RECEIVERS: nat := 0          // xTasksWaitingToReceive
  const SENDERS: nat := 1            // xTasksWaitingToSend

  /** A call of xQueueGenericSend or xQueueGenericReceive.  The code keeps the first four.  `begun`,
      `start` and `marked` are the unbounded times at which the call began and xTimeOut was set and last
      renewed, `prompt` says that no check has come two overflows after the one before, and `seen` is
      the count of messages that the call found when it last looked. */
  datatype Call = Call(
    wait: nat,                       // the ticks the caller is ready to wait
    remaining: nat,                  // xTicksToWait
    entered: bool,                   // xEntryTimeSet
    mark: Mark,                      // xTimeOut
    begun: nat,
    start: nat,
    marked: nat,
    prompt: bool,
    seen: nat)

  datatype System = System(kernel: State, queue: Protocol.State, calls: map<Task, Call>)

  datatype Action =
    | Begin(task: Task, kind: Protocol.Kind, wait: nat)
    | InQueue(inner: Protocol.Step)
    | InKernel(step: Step)

  function CallOf(y: System, t: Task): Call {
    if t in y.calls then y.calls[t] else NewCall(0, 0)
  }

  function NewCall(wait: nat, clock: nat): Call {
    Call(wait, wait, false, Mark(0, 0), clock, 0, 0, true, 0)
  }

  function PhaseOf(y: System, t: Task): Protocol.Phase {
    Protocol.PhaseOf(y.queue, t)
  }

  /** Where a call of this kind waits. */
  function ListOf(kind: Protocol.Kind): nat {
    if kind.Receiving? then RECEIVERS else SENDERS
  }

  /** Whom a call of this kind wakes when it succeeds. */
  function WakesOn(kind: Protocol.Kind): nat {
    match kind
    case Sending(_) => RECEIVERS
    case Receiving(peek) => if peek then RECEIVERS else SENDERS
  }

  predicate IsOurs(list: nat) {
    list == RECEIVERS || list == SENDERS
  }

  // ---- What may happen ----

  /** The task is the one that runs. */
  predicate Runs(y: System, t: Task) {
    t == y.kernel.current && StateOf(y.kernel, t) == On(Ready(PriorityOf(y.kernel, t)))
  }

  /** The check reads the tick and the count of its overflows, which stand for the clock of processed
      ticks (`TaskDelays.TimeoutsReadTheClock`). */
  function Checked(y: System, t: Task): Outcome {
    Check(CallOf(y, t).mark, y.kernel.clock, CallOf(y, t).remaining)
  }

  /** How the steps of the protocol depend on the scheduler: who runs, whether there are ticks left to
      wait, whether the timeout has expired, and where the priority of a task puts it on the list. */
  predicate Fits(y: System, step: Protocol.Step) {
    match step
    case Look(t, patient) => Runs(y, t) && patient == (CallOf(y, t).remaining > 0)
    case Suspend(t) => Runs(y, t)
    case CheckTimeOut(t, expired) => expired == Checked(y, t).expired
    case Place(t, at) =>
      PhaseOf(y, t).Placing? && at == SortedPosition(y.kernel.store, Event(t), EventList(ListOf(PhaseOf(y, t).kind)))
    case Call(_, _) => false
    case Expire(_) => false
    case _ => true
  }

  /** The steps of the scheduler that an interrupt takes. */
  predicate FromInterrupt(step: Step) {
    step == TickInterrupt || step == SwitchContext || step.ResumeFromISR? || step.RemoveFromEventList?
  }

  /** What else goes on: interrupts at any time, and everything that a task does outside a call.  The
      queue's lists are its own, and no task is deleted that has been woken and has still to look. */
  ghost predicate Beside(y: System, step: Step) {
    && (FromInterrupt(step) || (y.queue.holder == Protocol.Nobody && PhaseOf(y, y.kernel.current) == Protocol.Outside))
    && match step
       case RemoveFromEventList(list) => !IsOurs(list)
       case RemoveFromUnorderedEventList(t, _) => !IsOn(y.kernel, t, RECEIVERS) && !IsOn(y.kernel, t, SENDERS)
       case PlaceOnEventList(list, _) => !IsOurs(list)
       case PlaceOnUnorderedEventList(list, _, _) => !IsOurs(list)
       case Delete(t) => t !in y.queue.control.wokenReceivers && t !in y.queue.control.wokenSenders
       case _ => true
  }

  /** A call that may block is not made while the scheduler is suspended. */
  ghost predicate Possible(y: System, action: Action) {
    match action
    case Begin(t, kind, wait) =>
      && Runs(y, t) && Protocol.Allowed(y.queue, Protocol.Call(t, kind))
      && wait < TICKS && (wait > 0 ==> y.kernel.suspensions == 0)
    case InQueue(step) => Protocol.Allowed(y.queue, step) && Fits(y, step)
    case InKernel(step) => Allowed(y.kernel, step) && Beside(y, step)
  }

  // ---- What happens ----

  /** Up to `n` turns of a loop in prvUnlockQueue. */
  function WakeUpTo(s: State, list: nat, n: nat): State
    decreases n
  {
    if n == 0 || Items(s, EventList(list)) == [] then s else WakeUpTo(DoRemoveFromEventList(s, list), list, n - 1)
  }

  /** What a step of the protocol asks of the scheduler. */
  function KernelAfter(y: System, step: Protocol.Step): State
    requires Inv(y.kernel) && Protocol.Allowed(y.queue, step)
    requires step.Resume? ==> y.kernel.suspensions > 0
  {
    var s, c := y.kernel, y.queue.control;
    match step
    case Look(t, _) =>
      var kind := PhaseOf(y, t).kind;
      if Protocol.Succeeds(c, kind) then DoRemoveFromEventList(s, WakesOn(kind)) else s
    case Suspend(_) => s.(suspensions := s.suspensions + 1)
    case Place(t, _) => DoPlaceOnEventList(s, ListOf(PhaseOf(y, t).kind), CallOf(y, t).remaining)
    case UnlockForTx(_) => WakeUpTo(s, RECEIVERS, QueueControl.Positive(c.txLock))
    case UnlockForRx(_) => WakeUpTo(s, SENDERS, QueueControl.Positive(c.rxLock))
    case Resume(_) => InvIsConsistent(s); DoResumeAll(s)
    case InterruptSend(overwrite) =>
      if QueueControl.CanSend(c, overwrite) && c.txLock == QueueControl.UNLOCKED
      then DoRemoveFromEventList(s, RECEIVERS) else s
    case InterruptReceive =>
      if c.count > 0 && c.rxLock == QueueControl.UNLOCKED then DoRemoveFromEventList(s, SENDERS) else s
    case _ => s
  }

  /** The first time a call finds that it must wait, it sets its timeout. */
  function Looked(c: Call, clock: nat, seen: nat): Call {
    if c.entered || c.remaining == 0 then c.(seen := seen)
    else c.(entered := true, mark := MarkAt(clock), start := clock, marked := clock, seen := seen)
  }

  function AfterCheck(c: Call, outcome: Outcome, clock: nat): Call {
    var c1 := c.(remaining := outcome.remaining, mark := outcome.mark,
                 prompt := c.prompt && Epoch(clock) <= Epoch(c.marked) + 1);
    if outcome.expired || c.remaining == MAX_DELAY then c1 else c1.(marked := clock)
  }

  function CallsAfter(y: System, step: Protocol.Step): map<Task, Call> {
    match step
    case Look(t, _) => y.calls[t := Looked(CallOf(y, t), y.kernel.clock, y.queue.control.count)]
    case CheckTimeOut(t, _) => y.calls[t := AfterCheck(CallOf(y, t), Checked(y, t), y.kernel.clock)]
    case _ => y.calls
  }

  /** The waiting lists are those of the scheduler. */
  function Relisted(queue: Protocol.State, s: State): Protocol.State {
    queue.(control := queue.control.(receivers := Waiters(s, RECEIVERS), senders := Waiters(s, SENDERS)))
  }

  /** A task that is deleted inside a call is inside it no more. */
  function Forgotten(queue: Protocol.State, step: Step): Protocol.State {
    if step.Delete? then Protocol.Enter(queue, step.task, Protocol.Outside) else queue
  }

  function QueueAfter(y: System, step: Protocol.Step): System
    requires Inv(y.kernel) && Protocol.Allowed(y.queue, step)
    requires step.Resume? ==> y.kernel.suspensions > 0
  {
    var s1 := KernelAfter(y, step);
    System(s1, Relisted(Protocol.Apply(y.queue, step), s1), CallsAfter(y, step))
  }

  function KernelStepped(y: System, step: Step): System
    requires Inv(y.kernel) && Allowed(y.kernel, step)
  {
    var s1 := Apply(y.kernel, step);
    System(s1, Forgotten(Relisted(y.queue, s1), step), y.calls)
  }

  function Begun(y: System, t: Task, kind: Protocol.Kind, wait: nat): System
    requires Protocol.Allowed(y.queue, Protocol.Call(t, kind))
  {
    System(y.kernel, Protocol.Apply(y.queue, Protocol.Call(t, kind)), y.calls[t := NewCall(wait, y.kernel.clock)])
  }

  function Perform(y: System, action: Action): System
    requires Good(y) && Possible(y, action)
  {
    match action
    case Begin(t, kind, wait) => Begun(y, t, kind, wait)
    case InQueue(step) =>
      HolderSuspends(y, step);
      QueueAfter(y, step)
    case InKernel(step) => KernelStepped(y, step)
  }

  // ---- The invariant ----

  predicate BeforePlacing(phase: Protocol.Phase) {
    phase.Locking? || phase.Checking? || phase.Testing? || phase.Placing?
  }

  /** Whoever has suspended the scheduler runs, and is ready until it goes on the list; otherwise the
      scheduler is suspended only by a task that is outside a call or inside one that will not wait. */
  ghost predicate Turn(y: System) {
    var s := y.kernel;
    match y.queue.holder
    case By(t) => s.current == t && s.suspensions == 1 && (BeforePlacing(PhaseOf(y, t)) ==> IsReady(s, t))
    case Nobody =>
      s.suspensions > 0 ==>
        var phase := PhaseOf(y, s.current);
        phase.Outside? || (phase.Looking? && CallOf(y, s.current).remaining == 0)
  }

  /** What is left to wait and the time that has passed make up the whole wait, or more if a check has
      missed whole turns of the tick. */
  ghost predicate OnTime(c: Call, clock: nat) {
    && c.remaining > 0 && c.mark == MarkAt(c.marked) && c.begun <= c.start <= c.marked <= clock
    && (c.wait == MAX_DELAY <==> c.remaining == MAX_DELAY)
    && (c.wait < MAX_DELAY ==> c.remaining + (c.marked - c.start) >= c.wait)
    && (c.wait < MAX_DELAY && c.prompt ==> c.remaining + (c.marked - c.start) == c.wait)
  }

  /** A send that saw so many messages found the queue full, and a receive found it empty. */
  predicate NoLuck(length: nat, kind: Protocol.Kind, seen: nat) {
    if kind.Receiving? then seen == 0 else seen >= length
  }

  predicate GivesUp(phase: Protocol.Phase) {
    (phase.UnlockingTx? || phase.UnlockingRx? || phase.Resuming?) && phase.next == Protocol.GivesUp
  }

  /** What is known of a call by the phase it is in. */
  ghost predicate Recorded(phase: Protocol.Phase, c: Call, clock: nat, length: nat) {
    phase.Outside? || (
      && c.wait < TICKS && c.remaining <= c.wait
      && (if c.entered then OnTime(c, clock) else phase.Looking? && c.remaining == c.wait && c.begun <= clock)
      && (phase.Looking? || NoLuck(length, phase.kind, c.seen))
      && (phase.Testing? || phase.Placing? ==> c.wait == MAX_DELAY || c.marked == clock)
      && (GivesUp(phase) ==> c.wait < MAX_DELAY && clock - c.start >= c.wait))
  }

  ghost predicate BooksOk(y: System, t: Task) {
    Recorded(PhaseOf(y, t), CallOf(y, t), y.kernel.clock, y.queue.control.length)
  }

  predicate IsWaiting(s: State, t: Task) {
    IsOn(s, t, RECEIVERS) || IsOn(s, t, SENDERS)
  }

  /** A task on a waiting list sleeps until what was left to wait is over. */
  ghost predicate SleepOk(y: System, t: Task) {
    var c := CallOf(y, t);
    IsWaiting(y.kernel, t) ==>
      c.entered && (c.remaining < MAX_DELAY ==> SleepsUntil(y.kernel, t, c.marked + c.remaining))
  }

  ghost predicate CallsOk(y: System) {
    forall t {:trigger BooksOk(y, t)} {:trigger SleepOk(y, t)} :: BooksOk(y, t) && SleepOk(y, t)
  }

  ghost predicate Good(y: System) {
    && Inv(y.kernel) && Protocol.Inv(y.queue)
    && y.queue == Relisted(y.queue, y.kernel)
    && Turn(y) && CallsOk(y)
  }

  lemma HolderSuspends(y: System, step: Protocol.Step)
    requires Good(y) && Protocol.Allowed(y.queue, step)
    ensures Inv(y.kernel) && (step.Resume? ==> y.kernel.suspensions > 0)
  {
    hide Inv, CallsOk, Relisted;
    if step.Resume? {
      assert Protocol.TaskOk(y.queue, step.task);
    }
  }

  // ---- What the scheduler does for the queue ----

  ghost predicate Listed(c: QueueControl.Control, s: State) {
    c.receivers == Waiters(s, RECEIVERS) && c.senders == Waiters(s, SENDERS)
  }

  /** Nobody has come to the waiting lists by `s1`, and whoever is still there sleeps on. */
  ghost predicate Onward(s: State, s1: State, t: Task) {
    IsWaiting(s1, t) ==> IsWaiting(s, t) && forall wake :: SleepsUntil(s, t, wake) ==> SleepsUntil(s1, t, wake)
  }

  /** No time has passed, the same task runs, and nobody is made ready while the scheduler is
      suspended. */
  ghost predicate Steady(s: State, s1: State) {
    && s1.clock == s.clock && s1.current == s.current && s1.suspensions == s.suspensions
    && (s.suspensions > 0 ==> forall t :: StateOf(s1, t) == StateOf(s, t))
  }

  lemma StepOnward(s: State, step: Step)
    requires Inv(s) && Allowed(s, step) && !Places(step, RECEIVERS) && !Places(step, SENDERS)
    ensures Inv(Apply(s, step)) && forall t :: Onward(s, Apply(s, step), t)
  {
    hide Inv, Allowed, Apply, SleepsUntil, LeavesAlone, IsOn, Places;
    StepKeeps(s, step);
    var s1 := Apply(s, step);
    forall t, list, wake | IsOurs(list) && IsOn(s1, t, list) && SleepsUntil(s, t, wake)
      ensures SleepsUntil(s1, t, wake)
    {
      SleepsOn(s, step, t, list, wake);
    }
    forall t, list | IsOurs(list) && IsOn(s1, t, list)
      ensures IsOn(s, t, list)
    {
      StaysListed(s, step, t, list);
    }
  }

  lemma OnwardTwice(s: State, s1: State, s2: State, t: Task)
    requires Onward(s, s1, t) && Onward(s1, s2, t)
    ensures Onward(s, s2, t)
  {
    hide SleepsUntil, IsWaiting;
  }

  lemma WakeKeeps(s: State, list: nat)
    requires Inv(s)
    ensures var s1 := DoRemoveFromEventList(s, list);
            Inv(s1) && Steady(s, s1) && forall t :: Onward(s, s1, t)
  {
    hide Inv, Onward, SameTask, DoRemoveFromEventList;
    if Items(s, EventList(list)) != [] {
      StepOnward(s, RemoveFromEventList(list));
      RemoveFromEventListKeeps(s, list);
      WakeIsSteady(s, list);
    } else {
      NothingToWake(s, list);
    }
  }

  lemma NothingToWake(s: State, list: nat)
    requires Items(s, EventList(list)) == []
    ensures DoRemoveFromEventList(s, list) == s && forall t :: Onward(s, s, t)
  {
    hide SleepsUntil;
  }

  lemma WakeIsSteady(s: State, list: nat)
    requires Inv(s) && Items(s, EventList(list)) != []
    ensures Steady(s, DoRemoveFromEventList(s, list))
  {
    hide Inv, DoRemoveFromEventList;
    RemoveFromEventListKeeps(s, list);
    forall t
      ensures s.suspensions > 0 ==> StateOf(DoRemoveFromEventList(s, list), t) == StateOf(s, t)
    {
      assert t != Items(s, EventList(list))[0].task ==> SameTask(s, DoRemoveFromEventList(s, list), t);
    }
  }

  lemma ReceiverFollows(s: State, c: QueueControl.Control)
    requires Inv(s) && Listed(c, s)
    ensures Listed(QueueControl.WakeReceiver(c), DoRemoveFromEventList(s, RECEIVERS))
  {
    hide Inv, DoRemoveFromEventList, TasksOf;
    if Items(s, EventList(RECEIVERS)) != [] {
      WakesFirst(s, RECEIVERS);
    } else {
      NothingToWake(s, RECEIVERS);
    }
  }

  lemma SenderFollows(s: State, c: QueueControl.Control)
    requires Inv(s) && Listed(c, s)
    ensures Listed(QueueControl.WakeSender(c), DoRemoveFromEventList(s, SENDERS))
  {
    hide Inv, DoRemoveFromEventList, TasksOf;
    if Items(s, EventList(SENDERS)) != [] {
      WakesFirst(s, SENDERS);
    } else {
      NothingToWake(s, SENDERS);
    }
  }

  lemma {:induction false} UnlockTxFollows(s: State, c: QueueControl.Control)
    requires Inv(s) && Listed(c, s)
    ensures Listed(QueueControl.UnlockTx(c), WakeUpTo(s, RECEIVERS, QueueControl.Positive(c.txLock)))
    decreases QueueControl.Positive(c.txLock)
  {
    hide Inv, DoRemoveFromEventList;
    if c.txLock > 0 && c.receivers != [] {
      WakeKeeps(s, RECEIVERS);
      ReceiverFollows(s, c);
      UnlockTxFollows(DoRemoveFromEventList(s, RECEIVERS), QueueControl.WakeReceiver(c).(txLock := c.txLock - 1));
    }
  }

  lemma {:induction false} UnlockRxFollows(s: State, c: QueueControl.Control)
    requires Inv(s) && Listed(c, s)
    ensures Listed(QueueControl.UnlockRx(c), WakeUpTo(s, SENDERS, QueueControl.Positive(c.rxLock)))
    decreases QueueControl.Positive(c.rxLock)
  {
    hide Inv, DoRemoveFromEventList;
    if c.rxLock > 0 && c.senders != [] {
      WakeKeeps(s, SENDERS);
      SenderFollows(s, c);
      UnlockRxFollows(DoRemoveFromEventList(s, SENDERS), QueueControl.WakeSender(c).(rxLock := c.rxLock - 1));
    }
  }

  lemma {:induction false} WakeUpToKeeps(s: State, list: nat, n: nat)
    requires Inv(s)
    ensures var s1 := WakeUpTo(s, list, n);
            Inv(s1) && Steady(s, s1) && forall t :: Onward(s, s1, t)
    decreases n
  {
    hide Inv, DoRemoveFromEventList, Onward, Items;
    if n == 0 || Items(s, EventList(list)) == [] {
      NothingHappens(s);
    } else {
      var s1 := DoRemoveFromEventList(s, list);
      WakeKeeps(s, list);
      WakeUpToKeeps(s1, list, n - 1);
      forall t
        ensures Onward(s, WakeUpTo(s, list, n), t)
      {
        OnwardTwice(s, s1, WakeUpTo(s, list, n), t);
      }
    }
  }

  lemma NothingHappens(s: State)
    ensures Steady(s, s) && forall t :: Onward(s, s, t)
  {
    hide SleepsUntil;
  }

  lemma PlaceKeeps(s: State, list: nat, ticks: nat)
    requires Inv(s) && IsReady(s, s.current) && 0 < ticks < TICKS
    ensures CallerReady(s)
    ensures var s1 := DoPlaceOnEventList(s, list, ticks);
            && Inv(s1) && IsOn(s1, s.current, list)
            && s1.clock == s.clock && s1.current == s.current && s1.suspensions == s.suspensions
            && (forall t :: t != s.current ==> Onward(s, s1, t))
            && (ticks < MAX_DELAY ==> SleepsUntil(s1, s.current, s.clock + ticks))
  {
    hide Inv, DoPlaceOnEventList, SleepsUntil, SameTask, CallerReady;
    ReadyCaller(s);
    PlaceOnEventListKeeps(s, list, ticks);
    var s1 := DoPlaceOnEventList(s, list, ticks);
    forall t | t != s.current
      ensures Onward(s, s1, t)
    {
      SameOnward(s, s1, t);
    }
    if ticks < MAX_DELAY {
      GoesToSleep(s, list, ticks);
    }
  }

  lemma SameOnward(s: State, s1: State, t: Task)
    requires SameTask(s, s1, t) && SameClock(s, s1)
    ensures Onward(s, s1, t)
  {
    hide WakeTime;
    forall wake | SleepsUntil(s, t, wake)
      ensures SleepsUntil(s1, t, wake)
    {
      SameTaskSleeps(s, s1, t, wake);
    }
  }

  /** A ready task is on the list of its priority. */
  lemma ReadyCaller(s: State)
    requires Inv(s) && IsReady(s, s.current)
    ensures CallerReady(s)
  {
    hide Consistent, TimeAt, AllPlaced, Counted, TicksAccounted;
  }

  // ---- The protocol's lists are the scheduler's ----

  /** The task a step of the protocol puts on a waiting list, if it does. */
  predicate IsPlaced(step: Protocol.Step, t: Task) {
    step.Place? && step.task == t
  }

  ghost predicate Follows(y: System, step: Protocol.Step)
    requires Inv(y.kernel) && Protocol.Allowed(y.queue, step)
    requires step.Resume? ==> y.kernel.suspensions > 0
  {
    var s1 := KernelAfter(y, step);
    && Inv(s1) && Listed(Protocol.Apply(y.queue, step).control, s1)
    && s1.clock == y.kernel.clock
    && (forall t :: !IsPlaced(step, t) ==> Onward(y.kernel, s1, t))
  }

  lemma QuietFollows(y: System, step: Protocol.Step)
    requires Good(y) && Protocol.Allowed(y.queue, step)
    requires step.LockQueue? || step.CheckTimeOut? || step.Test?
    ensures Follows(y, step)
  {
    hide Inv, Turn, CallsOk, Onward;
    NothingHappens(y.kernel);
  }

  lemma SuspendFollows(y: System, t: Task)
    requires Good(y) && Protocol.Allowed(y.queue, Protocol.Suspend(t))
    ensures Follows(y, Protocol.Suspend(t))
  {
    hide Inv, Turn, CallsOk, Onward;
    SuspendAllKeeps(y.kernel);
    StepOnward(y.kernel, SuspendAll);
    SameLists(y.kernel, KernelAfter(y, Protocol.Suspend(t)));
  }

  lemma SameLists(s: State, s1: State)
    requires s1.store == s.store
    ensures forall l :: Waiters(s1, l) == Waiters(s, l)
  {
  }

  /** The critical section of a call. */
  lemma LookFollows(y: System, t: Task, patient: bool)
    requires Good(y) && Protocol.Allowed(y.queue, Protocol.Look(t, patient))
    ensures Follows(y, Protocol.Look(t, patient)) && Steady(y.kernel, KernelAfter(y, Protocol.Look(t, patient)))
  {
    hide Inv, Turn, CallsOk, Onward, DoRemoveFromEventList, Waiters;
    var c, kind := y.queue.control, PhaseOf(y, t).kind;
    var c0 := QueueControl.Looks(c, t);
    if Protocol.Succeeds(c, kind) {
      WakeKeeps(y.kernel, WakesOn(kind));
      ReceiverFollows(y.kernel, c0);
      match kind {
        case Sending(overwrite) =>
          ReceiverFollows(y.kernel, c0.(count := QueueControl.CountAfterCopy(c, overwrite)));
        case Receiving(peek) =>
          SenderFollows(y.kernel, c0.(count := c.count - 1));
      }
    } else {
      NothingHappens(y.kernel);
    }
  }

  lemma InterruptFollows(y: System, step: Protocol.Step)
    requires Good(y) && Protocol.Allowed(y.queue, step) && (step.InterruptSend? || step.InterruptReceive?)
    ensures Follows(y, step) && Steady(y.kernel, KernelAfter(y, step))
  {
    hide Inv, Turn, CallsOk, Onward, DoRemoveFromEventList, Waiters;
    var s, c := y.kernel, y.queue.control;
    NothingHappens(s);
    match step {
      case InterruptSend(overwrite) =>
        WakeKeeps(s, RECEIVERS);
        ReceiverFollows(s, c.(count := QueueControl.CountAfterCopy(c, overwrite)));
      case InterruptReceive =>
        WakeKeeps(s, SENDERS);
        if c.count > 0 {
          SenderFollows(s, c.(count := c.count - 1));
        }
    }
  }

  lemma UnlockFollows(y: System, step: Protocol.Step)
    requires Good(y) && Protocol.Allowed(y.queue, step) && (step.UnlockForTx? || step.UnlockForRx?)
    ensures Follows(y, step) && Steady(y.kernel, KernelAfter(y, step))
  {
    hide Inv, Turn, CallsOk, Onward, Waiters, WakeUpTo, QueueControl.UnlockTx, QueueControl.UnlockRx;
    var s, c := y.kernel, y.queue.control;
    match step {
      case UnlockForTx(_) =>
        WakeUpToKeeps(s, RECEIVERS, QueueControl.Positive(c.txLock));
        UnlockTxFollows(s, c);
      case UnlockForRx(_) =>
        WakeUpToKeeps(s, SENDERS, QueueControl.Positive(c.rxLock));
        UnlockRxFollows(s, c);
    }
  }

  /** What is known of a task about to go on a list: it runs, it is ready, and there are ticks left. */
  lemma AboutToWait(y: System, t: Task)
    requires Good(y) && PhaseOf(y, t).Placing?
    ensures var c := CallOf(y, t);
            && y.queue.holder == Protocol.By(t) && y.kernel.current == t && IsReady(y.kernel, t)
            && c.entered && 0 < c.remaining < TICKS && OnTime(c, y.kernel.clock)
            && (c.wait == MAX_DELAY || c.marked == y.kernel.clock)
  {
    hide Inv, Relisted, MarkAt;
    assert Protocol.TaskOk(y.queue, t);
    assert BooksOk(y, t);
  }

  lemma PlaceFollows(y: System, t: Task, at: nat)
    requires Good(y) && Protocol.Allowed(y.queue, Protocol.Place(t, at)) && Fits(y, Protocol.Place(t, at))
    ensures Follows(y, Protocol.Place(t, at))
  {
    hide Inv, Turn, CallsOk, Onward, DoPlaceOnEventList, Waiters, SortedPosition, CallerReady, OnTime;
    AboutToWait(y, t);
    var list, ticks := ListOf(PhaseOf(y, t).kind), CallOf(y, t).remaining;
    PlaceKeeps(y.kernel, list, ticks);
    GoesIn(y.kernel, list, ticks);
  }

  // ---- Waiters that leave ----

  /** Waiters may leave at any time: nothing the protocol promises is lost. */
  lemma FewerWaiters(q: Protocol.State, s: State)
    requires Protocol.Inv(q) && Inv(s)
    requires forall t <- Waiters(s, RECEIVERS) :: t in q.control.receivers
    requires forall t <- Waiters(s, SENDERS) :: t in q.control.senders
    ensures Protocol.Inv(Relisted(q, s))
  {
    hide Inv, Waiters;
    WaitersWait(s, RECEIVERS);
    WaitersWait(s, SENDERS);
    var q1 := Relisted(q, s);
    assert q1.control.receivers != [] ==> q1.control.receivers[0] in q.control.receivers;
    assert q1.control.senders != [] ==> q1.control.senders[0] in q.control.senders;
    forall t
      ensures Protocol.TaskOk(q1, t)
    {
      assert Protocol.TaskOk(q, t);
    }
  }

  /** If nobody has come to the lists of the scheduler, nobody has come to the protocol's. */
  lemma OnwardIsFewer(q: Protocol.State, s: State, s1: State)
    requires Inv(s) && Inv(s1) && Listed(q.control, s) && Protocol.Inv(q)
    requires forall t, list :: IsOurs(list) && IsOn(s1, t, list) ==> IsOn(s, t, list)
    ensures Protocol.Inv(Relisted(q, s1))
  {
    hide Inv, Protocol.Inv, Waiters, IsOn;
    WaitersWait(s, RECEIVERS);
    WaitersWait(s, SENDERS);
    WaitersWait(s1, RECEIVERS);
    WaitersWait(s1, SENDERS);
    FewerWaiters(q, s1);
  }

  lemma StepIsFewer(q: Protocol.State, s: State, step: Step)
    requires Inv(s) && Allowed(s, step) && !Places(step, RECEIVERS) && !Places(step, SENDERS)
    requires Listed(q.control, s) && Protocol.Inv(q)
    ensures Inv(Apply(s, step)) && Protocol.Inv(Relisted(q, Apply(s, step)))
  {
    hide Inv, Protocol.Inv, Listed, Allowed, Apply, Places, IsOn, LeavesAlone;
    StepKeeps(s, step);
    forall t, list | IsOurs(list) && IsOn(Apply(s, step), t, list)
      ensures IsOn(s, t, list)
    {
      StaysListed(s, step, t, list);
    }
    OnwardIsFewer(q, s, Apply(s, step));
  }

  /** xTaskResumeAll lets pended ticks take waiters off the lists. */
  lemma ResumeKeeps(y: System, t: Task)
    requires Good(y) && Protocol.Allowed(y.queue, Protocol.Resume(t))
    ensures y.kernel.suspensions == 1 && y.queue.holder == Protocol.By(t)
    ensures var s1, q1 := KernelAfter(y, Protocol.Resume(t)), Protocol.Apply(y.queue, Protocol.Resume(t));
            && Inv(s1) && Protocol.Inv(Relisted(q1, s1))
            && s1.suspensions == 0 && s1.current == y.kernel.current && y.kernel.clock <= s1.clock
            && forall u :: Onward(y.kernel, s1, u)
  {
    hide Inv, CallsOk, Onward, ResumedTask, Protocol.LocksFit, Waiters;
    HolderSuspends(y, Protocol.Resume(t));
    assert Protocol.TaskOk(y.queue, t);
    hide Protocol.TaskOk;
    Protocol.StepKeeps(y.queue, Protocol.Resume(t));
    hide Protocol.Inv;
    ResumeAllKeeps(y.kernel);
    StepOnward(y.kernel, ResumeAll);
    StepIsFewer(Protocol.Apply(y.queue, Protocol.Resume(t)), y.kernel, ResumeAll);
  }

  // ---- The books of the calls ----

  predicate IsBy(step: Protocol.Step, t: Task) {
    match step
    case InterruptSend(_) => false
    case InterruptReceive => false
    case _ => step.task == t
  }

  lemma LengthStays(q: Protocol.State, step: Protocol.Step)
    requires Protocol.Allowed(q, step)
    ensures Protocol.Apply(q, step).control.length == q.control.length
  {
    hide QueueControl.UnlockTx, QueueControl.UnlockRx, QueueControl.Members;
    QueueControl.UnlockTxWakes(q.control);
    QueueControl.UnlockRxWakes(q.control);
  }

  lemma OthersStay(q: Protocol.State, step: Protocol.Step, t: Task)
    requires Protocol.Allowed(q, step) && !IsBy(step, t)
    ensures Protocol.PhaseOf(Protocol.Apply(q, step), t) == Protocol.PhaseOf(q, t)
  {
  }

  /** What is on record of a call stays true while others take their steps and time goes by. */
  lemma Carries(y: System, y1: System, t: Task)
    requires BooksOk(y, t) && SleepOk(y, t)
    requires CallOf(y1, t) == CallOf(y, t) && PhaseOf(y1, t) == PhaseOf(y, t)
    requires y1.queue.control.length == y.queue.control.length && y.kernel.clock <= y1.kernel.clock
    requires PhaseOf(y, t).Testing? || PhaseOf(y, t).Placing? ==> y1.kernel.clock == y.kernel.clock
    requires Onward(y.kernel, y1.kernel, t)
    ensures BooksOk(y1, t) && SleepOk(y1, t)
  {
    hide SleepsUntil, IsWaiting, MarkAt;
  }

  // ---- A step of the protocol ----

  lemma StepFollows(y: System, step: Protocol.Step)
    requires Good(y) && Protocol.Allowed(y.queue, step) && Fits(y, step) && !step.Resume?
    ensures Follows(y, step)
  {
    hide Good, Follows, Fits, Protocol.Allowed;
    match step
    case Look(t, patient) => LookFollows(y, t, patient);
    case Suspend(t) => SuspendFollows(y, t);
    case Place(t, at) => PlaceFollows(y, t, at);
    case UnlockForTx(_) => UnlockFollows(y, step);
    case UnlockForRx(_) => UnlockFollows(y, step);
    case InterruptSend(_) => InterruptFollows(y, step);
    case InterruptReceive => InterruptFollows(y, step);
    case Call(_, _) => NoSuchStep(y, step);
    case Expire(_) => NoSuchStep(y, step);
    case _ => QuietFollows(y, step);
  }

  lemma NoSuchStep(y: System, step: Protocol.Step)
    requires step.Call? || step.Expire?
    ensures !Fits(y, step)
  {
  }

  /** Both machines keep their invariants, and no task comes to wait but the one that is placed. */
  lemma QueueStepKeeps(y: System, step: Protocol.Step)
    requires Good(y) && Protocol.Allowed(y.queue, step) && Fits(y, step)
    ensures Inv(y.kernel) && (step.Resume? ==> y.kernel.suspensions > 0)
    ensures var y1 := QueueAfter(y, step);
            && Inv(y1.kernel) && Protocol.Inv(y1.queue)
            && (if step.Resume? then y1.kernel.clock >= y.kernel.clock
                else y1.kernel.clock == y.kernel.clock && y1.queue == Protocol.Apply(y.queue, step))
            && forall t :: !IsPlaced(step, t) ==> Onward(y.kernel, y1.kernel, t)
  {
    hide Inv, Turn, CallsOk, Fits, KernelAfter, Onward, Protocol.Inv, Protocol.Apply, Protocol.Allowed, Waiters;
    HolderSuspends(y, step);
    match step {
      case Resume(t) => ResumeKeeps(y, t);
      case _ =>
        StepFollows(y, step);
        Protocol.StepKeeps(y.queue, step);
    }
  }

  lemma OnRecord(y: System, t: Task)
    requires Good(y)
    ensures BooksOk(y, t) && SleepOk(y, t)
  {
    hide Inv, Protocol.Inv, Relisted, Turn, BooksOk, SleepOk;
    assert BooksOk(y, t) && SleepOk(y, t);
  }

  lemma OthersUnchanged(y: System, step: Protocol.Step, t: Task)
    requires Inv(y.kernel) && Protocol.Allowed(y.queue, step) && !IsBy(step, t)
    requires step.Resume? ==> y.kernel.suspensions > 0
    ensures var y1 := QueueAfter(y, step);
            && PhaseOf(y1, t) == PhaseOf(y, t) && CallOf(y1, t) == CallOf(y, t)
            && y1.queue.control.length == y.queue.control.length
  {
    hide Inv, KernelAfter, Waiters, Protocol.Apply, Protocol.Allowed;
    LengthStays(y.queue, step);
    OthersStay(y.queue, step, t);
  }

  lemma OthersOk(y: System, step: Protocol.Step, t: Task)
    requires Good(y) && Protocol.Allowed(y.queue, step) && Fits(y, step) && !IsBy(step, t)
    requires Inv(y.kernel) && (step.Resume? ==> y.kernel.suspensions > 0)
    ensures BooksOk(QueueAfter(y, step), t) && SleepOk(QueueAfter(y, step), t)
  {
    hide Good, BooksOk, SleepOk, Onward, QueueAfter, Fits, Protocol.Allowed, Protocol.Apply, Inv;
    OnRecord(y, t);
    OnlyOneSuspends(y, step, t);
    QueueStepKeeps(y, step);
    OthersUnchanged(y, step, t);
    Carries(y, QueueAfter(y, step), t);
  }

  /** While a task has the scheduler suspended no other resumes it. */
  lemma OnlyOneSuspends(y: System, step: Protocol.Step, t: Task)
    requires Good(y) && Protocol.Allowed(y.queue, step) && !IsBy(step, t)
    ensures step.Resume? ==> !PhaseOf(y, t).Testing? && !PhaseOf(y, t).Placing?
  {
    hide Inv, Turn, CallsOk, Relisted;
    if step.Resume? {
      assert Protocol.TaskOk(y.queue, t) && Protocol.TaskOk(y.queue, step.task);
    }
  }

  lemma RunnerIsNotWaiting(y: System, t: Task)
    requires Good(y) && IsReady(y.kernel, t)
    ensures !IsWaiting(y.kernel, t)
  {
    hide Inv, Turn, CallsOk, Protocol.Inv, Relisted;
    ReadyWaitsNowhere(y.kernel, t);
  }

  lemma RecordCarries(phase: Protocol.Phase, phase1: Protocol.Phase, c: Call, clock: nat, clock1: nat, length: nat)
    requires Recorded(phase, c, clock, length) && clock <= clock1 && !phase.Outside?
    requires phase1.Outside? || (
               && phase1.kind == phase.kind && (phase.Looking? ==> phase1.Looking?)
               && (GivesUp(phase1) ==> GivesUp(phase))
               && (phase1.Testing? || phase1.Placing? ==> (phase.Testing? || phase.Placing?) && clock1 == clock))
    ensures Recorded(phase1, c, clock1, length)
  {
    hide MarkAt;
  }

  /** The steps that leave the record of a call as it is lead from phase to phase of the same call. */
  predicate IsPlain(step: Protocol.Step) {
    step.Suspend? || step.LockQueue? || step.Test? || step.Place? || step.UnlockForTx? || step.UnlockForRx?
    || step.Resume?
  }

  lemma PlainPhases(q: Protocol.State, step: Protocol.Step)
    requires Protocol.Allowed(q, step) && IsPlain(step)
    ensures var phase, phase1 := Protocol.PhaseOf(q, step.task), Protocol.PhaseOf(Protocol.Apply(q, step), step.task);
            && !phase.Outside? && !phase.Looking?
            && (phase1.Outside? || (
                  && phase1.kind == phase.kind && (GivesUp(phase1) ==> GivesUp(phase))
                  && (phase1.Testing? || phase1.Placing? ==> phase.Testing? && !step.Resume?)))
  {
    hide QueueControl.UnlockTx, QueueControl.UnlockRx;
  }

  lemma PlainBooks(y: System, step: Protocol.Step)
    requires Good(y) && Protocol.Allowed(y.queue, step) && Fits(y, step) && IsPlain(step)
    requires Inv(y.kernel) && (step.Resume? ==> y.kernel.suspensions > 0)
    ensures CallOf(QueueAfter(y, step), step.task) == CallOf(y, step.task)
    ensures BooksOk(QueueAfter(y, step), step.task)
  {
    var t, y1 := step.task, QueueAfter(y, step);
    assert BooksOk(y, t);
    hide Good, KernelAfter, Recorded, Onward, Protocol.Allowed, Protocol.Apply, Fits;
    QueueStepKeeps(y, step);
    LengthStays(y.queue, step);
    PlainPhases(y.queue, step);
    RecordCarries(PhaseOf(y, t), PhaseOf(y1, t), CallOf(y, t), y.kernel.clock, y1.kernel.clock, y.queue.control.length);
  }

  /** A call looks, and goes away or sets its timeout. */
  lemma LookBooks(phase: Protocol.Phase, c: Call, clock: nat, length: nat, seen: nat)
    requires phase.Looking? && Recorded(phase, c, clock, length) && c.remaining > 0 && NoLuck(length, phase.kind, seen)
    ensures Recorded(Protocol.Suspending(phase.kind), Looked(c, clock, seen), clock, length)
  {
    hide MarkAt;
  }

  lemma LookPhase(q: Protocol.State, t: Task, patient: bool)
    requires Protocol.Allowed(q, Protocol.Look(t, patient))
    ensures var kind := Protocol.PhaseOf(q, t).kind;
            && Protocol.PhaseOf(q, t).Looking?
            && Protocol.PhaseOf(Protocol.Apply(q, Protocol.Look(t, patient)), t)
               == (if Protocol.Succeeds(q.control, kind) || !patient then Protocol.Outside
                   else Protocol.Suspending(kind))
            && (!Protocol.Succeeds(q.control, kind) ==> NoLuck(q.control.length, kind, q.control.count))
  {
    hide Protocol.Attempt;
  }

  lemma OwnLook(y: System, t: Task, patient: bool)
    requires Good(y) && Protocol.Allowed(y.queue, Protocol.Look(t, patient)) && Fits(y, Protocol.Look(t, patient))
    requires Inv(y.kernel)
    ensures var y1 := QueueAfter(y, Protocol.Look(t, patient)); BooksOk(y1, t) && SleepOk(y1, t)
  {
    var step := Protocol.Look(t, patient);
    var y1 := QueueAfter(y, step);
    assert BooksOk(y, t);
    RunnerIsNotWaiting(y, t);
    assert patient ==> CallOf(y, t).remaining > 0;
    hide Good, Onward, KernelAfter, IsWaiting, Recorded, Looked, SleepOk, Protocol.Allowed, Protocol.Apply, Fits;
    QueueStepKeeps(y, step);
    LengthStays(y.queue, step);
    LeftAlone(y, y1, t);
    LookPhase(y.queue, t, patient);
    if PhaseOf(y1, t).Outside? {
      OutsideIsRecorded(CallOf(y1, t), y1.kernel.clock, y1.queue.control.length);
    } else {
      LookBooks(PhaseOf(y, t), CallOf(y, t), y.kernel.clock, y.queue.control.length, y.queue.control.count);
    }
  }

  lemma OutsideIsRecorded(c: Call, clock: nat, length: nat)
    ensures Recorded(Protocol.Outside, c, clock, length)
  {
  }

  lemma LeftAlone(y: System, y1: System, t: Task)
    requires Onward(y.kernel, y1.kernel, t) && !IsWaiting(y.kernel, t)
    ensures SleepOk(y1, t)
  {
  }

  /** One check: expiry is never reported early, and what is left is never too little; both are exact
      if the check is no two overflows after the mark. */
  lemma CheckIsSafe(marked: nat, now: nat, wait: nat)
    requires marked <= now && 0 < wait < MAX_DELAY
    ensures var outcome := Check(MarkAt(marked), now, wait);
            && (outcome.expired ==> now - marked >= wait && outcome.mark == MarkAt(marked) && outcome.remaining == wait)
            && (!outcome.expired ==> outcome.mark == MarkAt(now) && 0 < outcome.remaining <= wait
                                     && outcome.remaining + (now - marked) >= wait)
            && (Epoch(now) <= Epoch(marked) + 1 ==>
                  (outcome.expired <==> now - marked >= wait)
                  && (!outcome.expired ==> outcome.remaining + (now - marked) == wait))
  {
    CheckIsRight(marked, now, wait);
    WrapDifference(marked, now);
    EpochAndTick(now - marked);
    if Epoch(now) <= Epoch(marked) + 1 {
      OneCheck(marked, now, wait);
    }
    hide Wrap, Epoch;
  }

  lemma CheckBooks(phase: Protocol.Phase, c: Call, clock: nat, length: nat)
    requires phase.Checking? && Recorded(phase, c, clock, length)
    ensures var outcome := Check(c.mark, clock, c.remaining);
            Recorded(if outcome.expired then Protocol.UnlockingTx(phase.kind, Protocol.GivesUp)
                     else Protocol.Testing(phase.kind),
                     AfterCheck(c, outcome, clock), clock, length)
  {
    hide MarkAt, Check, Epoch;
    if c.remaining == MAX_DELAY {
      EndlessCheck(c.mark, clock);
    } else {
      CheckIsSafe(c.marked, clock, c.remaining);
    }
  }

  lemma OwnCheck(y: System, t: Task, expired: bool)
    requires Good(y) && Fits(y, Protocol.CheckTimeOut(t, expired))
    requires Protocol.Allowed(y.queue, Protocol.CheckTimeOut(t, expired)) && Inv(y.kernel)
    ensures var y1 := QueueAfter(y, Protocol.CheckTimeOut(t, expired)); BooksOk(y1, t) && SleepOk(y1, t)
  {
    var step := Protocol.CheckTimeOut(t, expired);
    var y1 := QueueAfter(y, step);
    assert BooksOk(y, t);
    HolderIsReady(y, t);
    hide Good, Onward, IsWaiting, Recorded, AfterCheck, Check, SleepOk;
    QueueStepKeeps(y, step);
    LeftAlone(y, y1, t);
    CheckBooks(PhaseOf(y, t), CallOf(y, t), y.kernel.clock, y.queue.control.length);
  }

  lemma HolderIsReady(y: System, t: Task)
    requires Good(y) && BeforePlacing(PhaseOf(y, t))
    ensures y.queue.holder == Protocol.By(t) && y.kernel.current == t && y.kernel.suspensions == 1
    ensures IsReady(y.kernel, t) && !IsWaiting(y.kernel, t)
  {
    hide Inv, CallsOk, Relisted, Protocol.LocksFit;
    assert Protocol.TaskOk(y.queue, t);
    RunnerIsNotWaiting(y, t);
  }

  lemma EndlessCheck(mark: Mark, now: nat)
    ensures Check(mark, now, MAX_DELAY) == Outcome(false, MAX_DELAY, mark)
  {
  }

  lemma OwnPlace(y: System, t: Task, at: nat)
    requires Good(y) && Protocol.Allowed(y.queue, Protocol.Place(t, at)) && Fits(y, Protocol.Place(t, at))
    requires Inv(y.kernel)
    ensures var y1 := QueueAfter(y, Protocol.Place(t, at)); BooksOk(y1, t) && SleepOk(y1, t)
  {
    var step := Protocol.Place(t, at);
    var y1 := QueueAfter(y, step);
    PlainBooks(y, step);
    AboutToWait(y, t);
    var c := CallOf(y, t);
    assert c.remaining < MAX_DELAY ==> c.marked == y.kernel.clock;
    hide Good, BooksOk, SleepOk, OnTime, IsReady, DoPlaceOnEventList, Fits, Protocol.Apply, Onward, IsOn, CallerReady,
         SleepsUntil;
    PlaceKeeps(y.kernel, ListOf(PhaseOf(y, t).kind), c.remaining);
    PlacedSleeps(y1, t);
  }

  lemma PlacedSleeps(y: System, t: Task)
    requires var c := CallOf(y, t);
             c.entered && (c.remaining < MAX_DELAY ==> SleepsUntil(y.kernel, t, c.marked + c.remaining))
    ensures SleepOk(y, t)
  {
  }

  lemma SleepCarries(y: System, y1: System, t: Task)
    requires SleepOk(y, t) && Onward(y.kernel, y1.kernel, t) && CallOf(y1, t) == CallOf(y, t)
    ensures SleepOk(y1, t)
  {
    hide SleepsUntil, IsWaiting;
  }

  lemma OwnPlain(y: System, step: Protocol.Step)
    requires Good(y) && Protocol.Allowed(y.queue, step) && Fits(y, step) && IsPlain(step) && !step.Place?
    requires Inv(y.kernel) && (step.Resume? ==> y.kernel.suspensions > 0)
    ensures var y1 := QueueAfter(y, step); BooksOk(y1, step.task) && SleepOk(y1, step.task)
  {
    var t, y1 := step.task, QueueAfter(y, step);
    assert SleepOk(y, t);
    hide Good, BooksOk, SleepOk, Onward, KernelAfter, Protocol.Apply, Protocol.Allowed, Fits;
    QueueStepKeeps(y, step);
    PlainBooks(y, step);
    SleepCarries(y, y1, t);
  }

  lemma OwnOk(y: System, step: Protocol.Step, t: Task)
    requires Good(y) && Protocol.Allowed(y.queue, step) && Fits(y, step) && IsBy(step, t)
    requires Inv(y.kernel) && (step.Resume? ==> y.kernel.suspensions > 0)
    ensures BooksOk(QueueAfter(y, step), t) && SleepOk(QueueAfter(y, step), t)
  {
    hide Good, BooksOk, SleepOk, Fits, Protocol.Allowed, QueueAfter;
    match step
    case Look(_, patient) => OwnLook(y, t, patient);
    case CheckTimeOut(_, expired) => OwnCheck(y, t, expired);
    case Place(_, at) => OwnPlace(y, t, at);
    case Call(_, _) => NoSuchStep(y, step);
    case Expire(_) => NoSuchStep(y, step);
    case _ => OwnPlain(y, step);
  }

  // ---- Whose turn it is ----

  lemma SteadyReady(s: State, s1: State, t: Task)
    requires Steady(s, s1) && s.suspensions > 0 && IsReady(s, t)
    ensures IsReady(s1, t)
  {
  }

  lemma SteadyHolder(y: System, y1: System, t: Task)
    requires Turn(y) && y.queue.holder == Protocol.By(t) && y1.queue.holder == Protocol.By(t)
    requires Steady(y.kernel, y1.kernel) && (BeforePlacing(PhaseOf(y1, t)) ==> BeforePlacing(PhaseOf(y, t)))
    ensures Turn(y1)
  {
    hide Steady, IsReady;
    assert y1.kernel.current == t && y1.kernel.suspensions == 1 by { SteadyCounts(y.kernel, y1.kernel); }
    if BeforePlacing(PhaseOf(y1, t)) {
      SteadyReady(y.kernel, y1.kernel, t);
    }
  }

  lemma SteadyCounts(s: State, s1: State)
    requires Steady(s, s1)
    ensures s1.current == s.current && s1.suspensions == s.suspensions && s1.clock == s.clock
  {
  }

  /** Interrupts on the queue. */
  lemma InterruptTurn(y: System, step: Protocol.Step)
    requires Good(y) && Protocol.Allowed(y.queue, step) && (step.InterruptSend? || step.InterruptReceive?)
    requires Inv(y.kernel)
    ensures Turn(QueueAfter(y, step))
  {
    hide Inv, CallsOk, KernelAfter, Steady, Follows, IsReady, Protocol.Inv;
    var y1 := QueueAfter(y, step);
    InterruptFollows(y, step);
    SteadyCounts(y.kernel, y1.kernel);
    match y.queue.holder {
      case By(t) => SteadyHolder(y, y1, t);
      case Nobody =>
    }
  }

  lemma LookTurn(y: System, t: Task, patient: bool)
    requires Good(y) && Protocol.Allowed(y.queue, Protocol.Look(t, patient)) && Fits(y, Protocol.Look(t, patient))
    requires Inv(y.kernel)
    ensures Turn(QueueAfter(y, Protocol.Look(t, patient)))
  {
    hide Inv, CallsOk, KernelAfter, Steady, Follows, IsReady, Protocol.Inv, Protocol.Attempt;
    LookFollows(y, t, patient);
    SteadyCounts(y.kernel, QueueAfter(y, Protocol.Look(t, patient)).kernel);
  }

  lemma HolderGoesOn(y: System, t: Task)
    requires Good(y) && Protocol.HoldsScheduler(PhaseOf(y, t))
    ensures y.queue.holder == Protocol.By(t)
  {
    hide Inv, CallsOk, Turn, Relisted, Protocol.LocksFit;
    assert Protocol.TaskOk(y.queue, t);
  }

  lemma LockedPhases(q: Protocol.State, step: Protocol.Step)
    requires Protocol.Allowed(q, step)
    requires step.LockQueue? || step.CheckTimeOut? || step.Test? || step.UnlockForTx? || step.UnlockForRx?
    ensures Protocol.HoldsScheduler(Protocol.PhaseOf(q, step.task)) && Protocol.Apply(q, step).holder == q.holder
    ensures BeforePlacing(Protocol.PhaseOf(Protocol.Apply(q, step), step.task)) ==>
              BeforePlacing(Protocol.PhaseOf(q, step.task))
  {
    hide QueueControl.UnlockTx, QueueControl.UnlockRx;
  }

  lemma LockedKernel(y: System, step: Protocol.Step)
    requires Good(y) && Protocol.Allowed(y.queue, step) && Inv(y.kernel)
    requires step.LockQueue? || step.CheckTimeOut? || step.Test? || step.UnlockForTx? || step.UnlockForRx?
    ensures Steady(y.kernel, KernelAfter(y, step))
  {
    hide Good, Steady, Follows, WakeUpTo, Protocol.Allowed;
    if step.UnlockForTx? || step.UnlockForRx? {
      UnlockFollows(y, step);
    } else {
      NothingHappens(y.kernel);
    }
  }

  /** The steps while the scheduler is suspended, from the locking of the queue to its unlocking. */
  lemma LockedTurn(y: System, step: Protocol.Step)
    requires Good(y) && Protocol.Allowed(y.queue, step) && Inv(y.kernel)
    requires step.LockQueue? || step.CheckTimeOut? || step.Test? || step.UnlockForTx? || step.UnlockForRx?
    ensures Turn(QueueAfter(y, step))
  {
    assert Turn(y);
    hide Good, Steady, Turn, KernelAfter, BeforePlacing, Protocol.Allowed, Protocol.Apply;
    LockedPhases(y.queue, step);
    HolderGoesOn(y, step.task);
    LockedKernel(y, step);
    SteadyHolder(y, QueueAfter(y, step), step.task);
  }

  lemma PlaceTurn(y: System, t: Task, at: nat)
    requires Good(y) && Protocol.Allowed(y.queue, Protocol.Place(t, at)) && Inv(y.kernel)
    ensures Turn(QueueAfter(y, Protocol.Place(t, at)))
  {
    var kind, ticks := PhaseOf(y, t).kind, CallOf(y, t).remaining;
    AboutToWait(y, t);
    HolderIsReady(y, t);
    hide Good, Turn, IsReady, DoPlaceOnEventList, Onward, SleepsUntil, OnTime, CallerReady, IsOn;
    PlaceKeeps(y.kernel, ListOf(kind), ticks);
    UnlockingTurn(QueueAfter(y, Protocol.Place(t, at)), t, kind);
  }

  lemma UnlockingTurn(y: System, t: Task, kind: Protocol.Kind)
    requires y.queue.holder == Protocol.By(t) && PhaseOf(y, t) == Protocol.UnlockingTx(kind, Protocol.Again)
    requires y.kernel.current == t && y.kernel.suspensions == 1
    ensures Turn(y)
  {
  }

  lemma SuspendTurn(y: System, t: Task)
    requires Good(y) && Protocol.Allowed(y.queue, Protocol.Suspend(t)) && Fits(y, Protocol.Suspend(t)) && Inv(y.kernel)
    ensures Turn(QueueAfter(y, Protocol.Suspend(t)))
  {
    hide Inv, CallsOk, Protocol.Inv;
  }

  lemma ResumeTurn(y: System, t: Task)
    requires Good(y) && Protocol.Allowed(y.queue, Protocol.Resume(t)) && Inv(y.kernel) && y.kernel.suspensions > 0
    ensures Turn(QueueAfter(y, Protocol.Resume(t)))
  {
    hide Inv, CallsOk, Protocol.Inv, KernelAfter, Onward;
    ResumeKeeps(y, t);
  }

  lemma QueueStepTurn(y: System, step: Protocol.Step)
    requires Good(y) && Protocol.Allowed(y.queue, step) && Fits(y, step)
    requires Inv(y.kernel) && (step.Resume? ==> y.kernel.suspensions > 0)
    ensures Turn(QueueAfter(y, step))
  {
    hide Good, Turn, Fits, Protocol.Allowed, QueueAfter;
    match step
    case Look(t, patient) => LookTurn(y, t, patient);
    case Suspend(t) => SuspendTurn(y, t);
    case Place(t, at) => PlaceTurn(y, t, at);
    case Resume(t) => ResumeTurn(y, t);
    case InterruptSend(_) => InterruptTurn(y, step);
    case InterruptReceive => InterruptTurn(y, step);
    case Call(_, _) => NoSuchStep(y, step);
    case Expire(_) => NoSuchStep(y, step);
    case _ => LockedTurn(y, step);
  }

  lemma InQueueKeeps(y: System, step: Protocol.Step)
    requires Good(y) && Protocol.Allowed(y.queue, step) && Fits(y, step)
    requires Inv(y.kernel) && (step.Resume? ==> y.kernel.suspensions > 0)
    ensures Good(QueueAfter(y, step))
  {
    hide Fits, Turn, BooksOk, SleepOk, KernelAfter, Onward, Protocol.Allowed, Protocol.Apply, Protocol.Inv, Inv,
         Waiters;
    QueueStepKeeps(y, step);
    QueueStepTurn(y, step);
    forall t
      ensures BooksOk(QueueAfter(y, step), t) && SleepOk(QueueAfter(y, step), t)
    {
      if IsBy(step, t) {
        OwnOk(y, step, t);
      } else {
        OthersOk(y, step, t);
      }
    }
  }

  // ---- A call begins ----

  lemma CallPhases(q: Protocol.State, t: Task, kind: Protocol.Kind)
    requires Protocol.Allowed(q, Protocol.Call(t, kind))
    ensures var q1 := Protocol.Apply(q, Protocol.Call(t, kind));
            && q1.control == q.control && q1.holder == q.holder == Protocol.Nobody
            && Protocol.PhaseOf(q1, t) == Protocol.Looking(kind)
            && forall u :: u != t ==> Protocol.PhaseOf(q1, u) == Protocol.PhaseOf(q, u)
  {
  }

  lemma BeginOwn(y: System, t: Task, kind: Protocol.Kind, wait: nat)
    requires Good(y) && Possible(y, Begin(t, kind, wait)) && Protocol.Allowed(y.queue, Protocol.Call(t, kind))
    ensures BooksOk(Begun(y, t, kind, wait), t) && SleepOk(Begun(y, t, kind, wait), t)
  {
    hide Good, IsWaiting, Protocol.Allowed, Protocol.Apply, Inv;
    RunnerIsNotWaiting(y, t);
    CallPhases(y.queue, t, kind);
  }

  lemma BeginOthers(y: System, t: Task, kind: Protocol.Kind, wait: nat, u: Task)
    requires Good(y) && Possible(y, Begin(t, kind, wait)) && Protocol.Allowed(y.queue, Protocol.Call(t, kind)) && u != t
    ensures BooksOk(Begun(y, t, kind, wait), u) && SleepOk(Begun(y, t, kind, wait), u)
  {
    hide Good, BooksOk, SleepOk, Onward, Protocol.Allowed, Protocol.Apply, Inv;
    OnRecord(y, u);
    CallPhases(y.queue, t, kind);
    NothingHappens(y.kernel);
    Carries(y, Begun(y, t, kind, wait), u);
  }

  lemma BeginKeeps(y: System, t: Task, kind: Protocol.Kind, wait: nat)
    requires Good(y) && Possible(y, Begin(t, kind, wait)) && Protocol.Allowed(y.queue, Protocol.Call(t, kind))
    ensures Good(Begun(y, t, kind, wait))
  {
    hide Inv, BooksOk, SleepOk, Protocol.Inv;
    var y1 := Begun(y, t, kind, wait);
    Protocol.StepKeeps(y.queue, Protocol.Call(t, kind));
    forall u
      ensures BooksOk(y1, u) && SleepOk(y1, u)
    {
      if u == t { BeginOwn(y, t, kind, wait); } else { BeginOthers(y, t, kind, wait, u); }
    }
  }

  // ---- A step of the scheduler ----

  lemma ClockGrows(s: State, step: Step)
    requires Inv(s) && Allowed(s, step)
    ensures Apply(s, step).clock >= s.clock
  {
    hide Inv, NobodyMoved, SameTask, TaskAfter, ResumedTask;
    if !IsTimed(step) {
      SubjectStepKeeps(s, step);
    } else if step == ResumeAll {
      ResumeAllClock(s);
    } else if step == TickInterrupt {
      TickInterruptKeeps(s);
      TickClock(s);
    }
  }

  lemma ResumeAllClock(s: State)
    requires Inv(s) && s.suspensions > 0
    ensures DoResumeAll(s).clock >= s.clock
  {
    hide Inv, SameTask, ResumedTask;
    ResumeAllKeeps(s);
  }

  lemma TickClock(s: State)
    requires Inv(s)
    ensures DoTickInterrupt(s).clock >= s.clock
  {
    hide Inv, SameTask, TaskAfter;
    TickInterruptKeeps(s);
  }

  /** While the scheduler is suspended an interrupt only counts, or pends. */
  lemma InterruptIsSteady(s: State, step: Step)
    requires Inv(s) && Allowed(s, step) && FromInterrupt(step) && s.suspensions > 0
    ensures Steady(s, Apply(s, step))
  {
    hide Inv, SameTask;
    match step
    case TickInterrupt => TickInterruptKeeps(s); MovedNobody(s, Apply(s, step));
    case SwitchContext =>
    case RemoveFromEventList(list) => WakeIsSteady(s, list);
    case ResumeFromISR(t) => ResumeIsSteady(s, t);
  }

  lemma MovedNobody(s: State, s1: State)
    requires NobodyMoved(s, s1)
    ensures s1.clock == s.clock && forall t :: StateOf(s1, t) == StateOf(s, t)
  {
    forall t
      ensures StateOf(s1, t) == StateOf(s, t)
    {
      assert SameTask(s, s1, t);
    }
  }

  lemma ResumeIsSteady(s: State, t: Task)
    requires Inv(s) && s.suspensions > 0
    ensures Steady(s, DoResumeFromISR(s, t))
  {
    hide Inv;
    ResumeFromISRKeeps(s, t);
    forall u
      ensures StateOf(DoResumeFromISR(s, t), u) == StateOf(s, u)
    {
      assert u != t ==> SameTask(s, DoResumeFromISR(s, t), u);
    }
  }

  /** The scheduler is suspended only by a call for it, and while it is nobody else runs. */
  lemma WhoRuns(s: State, step: Step)
    requires Inv(s) && Allowed(s, step)
    ensures var s1 := Apply(s, step);
            s1.suspensions > 0 ==> s1.current == s.current && (s.suspensions > 0 || step == SuspendAll)
  {
    hide Inv, NobodyMoved, SameTask, TaskAfter, ResumedTask;
    if !IsTimed(step) {
      SubjectStepKeeps(s, step);
    } else if step == ResumeAll {
      ResumeAllKeeps(s);
    } else if step == TickInterrupt {
      TickInterruptKeeps(s);
    }
  }

  lemma InKernelTurn(y: System, step: Step)
    requires Good(y) && Inv(y.kernel) && Allowed(y.kernel, step) && Beside(y, step)
    ensures Turn(KernelStepped(y, step))
  {
    hide Inv, CallsOk, Allowed, Apply, Protocol.Inv, Steady, IsReady;
    var y1 := KernelStepped(y, step);
    match y.queue.holder {
      case By(t) =>
        InterruptIsSteady(y.kernel, step);
        SteadyHolder(y, y1, t);
      case Nobody =>
        WhoRuns(y.kernel, step);
    }
  }

  lemma ClockStays(y: System, step: Step, t: Task)
    requires Good(y) && Inv(y.kernel) && Allowed(y.kernel, step) && Beside(y, step) && BeforePlacing(PhaseOf(y, t))
    ensures Apply(y.kernel, step).clock == y.kernel.clock
  {
    hide Inv, CallsOk, Turn, Relisted, Protocol.Inv, Allowed, Apply, Steady;
    HolderIsReady(y, t);
    InterruptIsSteady(y.kernel, step);
    SteadyCounts(y.kernel, Apply(y.kernel, step));
  }

  lemma CallsUnchanged(y: System, step: Step, t: Task)
    requires Inv(y.kernel) && Allowed(y.kernel, step) && !(step.Delete? && step.task == t)
    ensures var y1 := KernelStepped(y, step);
            && y1.kernel == Apply(y.kernel, step)
            && PhaseOf(y1, t) == PhaseOf(y, t) && CallOf(y1, t) == CallOf(y, t)
            && y1.queue.control.length == y.queue.control.length
  {
    hide Inv, Allowed, Apply, Waiters;
  }

  lemma InKernelCall(y: System, step: Step, t: Task)
    requires Good(y) && Inv(y.kernel) && Allowed(y.kernel, step) && Beside(y, step)
    requires !(step.Delete? && step.task == t)
    ensures BooksOk(KernelStepped(y, step), t) && SleepOk(KernelStepped(y, step), t)
  {
    hide Good, BooksOk, SleepOk, Allowed, Apply, Beside, Onward, KernelStepped, Inv;
    OnRecord(y, t);
    NotPlaced(y, step);
    if BeforePlacing(PhaseOf(y, t)) { ClockStays(y, step, t); }
    StepOnward(y.kernel, step);
    ClockGrows(y.kernel, step);
    CallsUnchanged(y, step, t);
    Carries(y, KernelStepped(y, step), t);
  }

  /** A deleted task is on no list. */
  lemma DeletedIsGone(y: System, t: Task)
    requires Good(y) && Inv(y.kernel) && Allowed(y.kernel, Delete(t)) && Beside(y, Delete(t))
    ensures !IsWaiting(Apply(y.kernel, Delete(t)), t)
    ensures BooksOk(KernelStepped(y, Delete(t)), t) && SleepOk(KernelStepped(y, Delete(t)), t)
  {
    hide Inv, CallsOk, Turn, Protocol.Inv, Relisted, SleepsUntil, Only;
    DeleteKeeps(y.kernel, t);
  }

  lemma ForgottenKeeps(q: Protocol.State, t: Task)
    requires Protocol.Inv(q) && q.holder == Protocol.Nobody
    requires !QueueControl.AsReceiver(q.control, t) && !QueueControl.AsSender(q.control, t)
    ensures Protocol.Inv(Forgotten(q, Delete(t)))
  {
    hide QueueControl.WellFormed, QueueControl.NothingLost, QueueControl.AsReceiver, QueueControl.AsSender;
    var q1 := Forgotten(q, Delete(t));
    forall u
      ensures Protocol.TaskOk(q1, u)
    {
      assert Protocol.TaskOk(q, u);
    }
  }

  lemma NotPlaced(y: System, step: Step)
    requires Beside(y, step)
    ensures !Places(step, RECEIVERS) && !Places(step, SENDERS)
  {
  }

  lemma InKernelProtocol(y: System, step: Step)
    requires Good(y) && Inv(y.kernel) && Allowed(y.kernel, step) && Beside(y, step)
    ensures Inv(KernelStepped(y, step).kernel) && Protocol.Inv(KernelStepped(y, step).queue)
  {
    hide Inv, CallsOk, Turn, Allowed, Apply, Protocol.Inv, Waiters, IsOn;
    NotPlaced(y, step);
    StepIsFewer(y.queue, y.kernel, step);
    if step.Delete? {
      var s1 := Apply(y.kernel, step);
      DeletedIsGone(y, step.task);
      WaitersWait(s1, RECEIVERS);
      WaitersWait(s1, SENDERS);
      ForgottenKeeps(Relisted(y.queue, s1), step.task);
    }
  }

  lemma InKernelKeeps(y: System, step: Step)
    requires Good(y) && Inv(y.kernel) && Allowed(y.kernel, step) && Beside(y, step)
    ensures Good(KernelStepped(y, step))
  {
    hide Inv, BooksOk, SleepOk, Turn, Allowed, Apply, Beside, Protocol.Inv, Waiters;
    InKernelProtocol(y, step);
    InKernelTurn(y, step);
    forall t
      ensures BooksOk(KernelStepped(y, step), t) && SleepOk(KernelStepped(y, step), t)
    {
      if step.Delete? && step.task == t {
        DeletedIsGone(y, t);
      } else {
        InKernelCall(y, step, t);
      }
    }
  }

  /** Every action keeps both machines in step: the waiting lists are event lists of the scheduler, no
      wake-up is lost, and every timeout is accounted for. */
  lemma ActionKeeps(y: System, action: Action)
    requires Good(y) && Possible(y, action)
    ensures Good(Perform(y, action))
  {
    assert Inv(y.kernel);
    hide Good, Begun, KernelStepped, QueueAfter, Protocol.Allowed, Allowed, Fits, Beside, Runs;
    match action
    case Begin(t, kind, wait) => BeginKeeps(y, t, kind, wait);
    case InQueue(step) =>
      HolderSuspends(y, step);
      InQueueKeeps(y, step);
    case InKernel(step) => InKernelKeeps(y, step);
  }

  /** The two machines step together: a step of the protocol is one of both, with what it asks of the
      scheduler, and a step of the scheduler alone takes nobody further in a call, unless it deletes the task,
      and brings nobody onto a waiting list. */
  lemma StepsTogether(y: System, action: Action, t: Task)
    requires Good(y) && Possible(y, action)
    ensures var y1 := Perform(y, action);
            match action
            case Begin(u, kind, wait) =>
              && y1.kernel == y.kernel && y1.queue == Protocol.Apply(y.queue, Protocol.Call(u, kind))
              && CallOf(y1, u).wait == CallOf(y1, u).remaining == wait && CallOf(y1, u).begun == y.kernel.clock
              && !CallOf(y1, u).entered && (t != u ==> CallOf(y1, t) == CallOf(y, t))
            case InQueue(step) =>
              && (HolderSuspends(y, step); y1.kernel == KernelAfter(y, step))
              && PhaseOf(y1, t) == Protocol.PhaseOf(Protocol.Apply(y.queue, step), t)
              && y1.queue.holder == Protocol.Apply(y.queue, step).holder
              && (!step.Resume? ==> y1.queue == Protocol.Apply(y.queue, step))
            case InKernel(step) =>
              && y1.kernel == Apply(y.kernel, step) && y1.calls == y.calls && y1.queue.holder == y.queue.holder
              && PhaseOf(y1, t) == (if step == Delete(t) then Protocol.Outside else PhaseOf(y, t))
              && (IsWaiting(y1.kernel, t) ==> IsWaiting(y.kernel, t))
  {
    hide Inv, Protocol.Inv, Turn, CallsOk, KernelAfter, Protocol.Apply, Protocol.Allowed, Apply, Allowed, Waiters,
         IsWaiting, Beside, Fits, Runs;
    match action
    case Begin(u, kind, wait) =>
    case InQueue(step) =>
      HolderSuspends(y, step);
      QueueStepKeeps(y, step);
    case InKernel(step) =>
      NotPlaced(y, step);
      StepOnward(y.kernel, step);
      assert Onward(y.kernel, Apply(y.kernel, step), t);
  }
}
