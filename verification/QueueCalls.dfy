/** What a timed send or receive may rely on, in every history of the scheduler and the queue
    together. */
module QueueCalls {
  import opened Ticks
  import opened Timeouts
  import opened ItemStore
  import opened TaskState
  import opened TaskTick
  import TaskSteps
  import opened TaskInvariant
  import opened TaskRuns
  import opened TaskWaits
  import opened QueueTasks
  import Protocol = QueueProtocol

  // ---- Histories ----

  /** A queue is created while the scheduler is in any state; its waiting lists are empty. */
  function Start(s: State, length: nat, itemSize: nat, count: nat): System {
    System(s, Protocol.New(length, itemSize, count), map[])
  }

  ghost predicate CanStart(s: State) {
    Inv(s) && Items(s, EventList(RECEIVERS)) == [] && Items(s, EventList(SENDERS)) == []
  }

  lemma StartIsGood(s: State, length: nat, itemSize: nat, count: nat)
    requires CanStart(s)
    ensures Good(Start(s, length, itemSize, count))
  {
    hide Inv;
    var y := Start(s, length, itemSize, count);
    forall t
      ensures BooksOk(y, t) && SleepOk(y, t)
    {
      NobodyListed(s, t);
    }
  }

  lemma NobodyListed(s: State, t: Task)
    requires CanStart(s)
    ensures !IsWaiting(s, t)
  {
    hide Inv;
    InvIsConsistent(s);
    ListedItem(s, RECEIVERS, Event(t));
    ListedItem(s, SENDERS, Event(t));
  }

  ghost predicate Permitted(y: System, actions: seq<Action>)
    requires Good(y)
    decreases |actions|
  {
    actions == []
    || (Possible(y, actions[0]) && (ActionKeeps(y, actions[0]); Permitted(Perform(y, actions[0]), actions[1..])))
  }

  function Run(y: System, actions: seq<Action>): System
    requires Good(y) && Permitted(y, actions)
    decreases |actions|
  {
    if actions == [] then y
    else
      ActionKeeps(y, actions[0]);
      Run(Perform(y, actions[0]), actions[1..])
  }

  lemma {:induction false} RunKeeps(y: System, actions: seq<Action>)
    requires Good(y) && Permitted(y, actions)
    ensures Good(Run(y, actions))
    decreases |actions|
  {
    hide Good, Perform, Possible;
    if actions != [] {
      ActionKeeps(y, actions[0]);
      RunKeeps(Perform(y, actions[0]), actions[1..]);
    }
  }

  ghost predicate IsHistory(s: State, length: nat, itemSize: nat, count: nat, actions: seq<Action>) {
    CanStart(s) && (StartIsGood(s, length, itemSize, count); Permitted(Start(s, length, itemSize, count), actions))
  }

  function After(s: State, length: nat, itemSize: nat, count: nat, actions: seq<Action>): (y: System)
    requires IsHistory(s, length, itemSize, count, actions)
    ensures Good(y)
  {
    StartIsGood(s, length, itemSize, count);
    RunKeeps(Start(s, length, itemSize, count), actions);
    Run(Start(s, length, itemSize, count), actions)
  }

  // ---- Waiting ----

  /** In every history the tasks that wait for the queue are those on its two event lists of the
      scheduler, in that order; and once every task that was woken has looked, one waits to receive only
      while the queue is empty, and to send only while it is full. */
  lemma NobodyWaitsInVain(s: State, length: nat, itemSize: nat, count: nat, actions: seq<Action>, t: Task)
    requires IsHistory(s, length, itemSize, count, actions)
    ensures var y := After(s, length, itemSize, count, actions);
            var c := y.queue.control;
            && c.receivers == Waiters(y.kernel, RECEIVERS) && c.senders == Waiters(y.kernel, SENDERS)
            && (y.queue.holder == Protocol.Nobody && c.wokenReceivers == {} && IsOn(y.kernel, t, RECEIVERS)
                ==> c.count == 0)
            && (y.queue.holder == Protocol.Nobody && c.wokenSenders == {} && IsOn(y.kernel, t, SENDERS)
                ==> c.count >= c.length)
  {
    hide Permitted, Run, CanStart, Inv, CallsOk, Waiters, Turn;
    var y := After(s, length, itemSize, count, actions);
    WaitersWait(y.kernel, RECEIVERS);
    WaitersWait(y.kernel, SENDERS);
  }

  // ---- How a call ends ----

  predicate IsInside(y: System, t: Task) {
    !PhaseOf(y, t).Outside?
  }

  /** The task looks, and finds a message or a free slot. */
  predicate Succeeds(y: System, action: Action, t: Task) {
    && action.InQueue? && action.inner.Look? && action.inner.task == t
    && IsInside(y, t) && Protocol.Succeeds(y.queue.control, PhaseOf(y, t).kind)
  }

  /** A call ends when it is successful or its task is deleted, and otherwise no earlier than the whole
      wait after it began, and after it first found that it must wait; with the queue full or empty when
      it last looked; and never if it has asked for an endless wait. */
  lemma FailsOnlyInTime(s: State, length: nat, itemSize: nat, count: nat, actions: seq<Action>, action: Action, t: Task)
    requires IsHistory(s, length, itemSize, count, actions)
    requires var y := After(s, length, itemSize, count, actions);
             && Possible(y, action) && IsInside(y, t) && !IsInside(Perform(y, action), t)
             && !Succeeds(y, action, t) && action != InKernel(TaskSteps.Delete(t))
    ensures var y := After(s, length, itemSize, count, actions);
            var c := CallOf(Perform(y, action), t);
            && c.wait < MAX_DELAY && y.kernel.clock >= c.begun + c.wait
            && (c.wait > 0 ==> y.kernel.clock >= c.start + c.wait && c.start >= c.begun)
            && NoLuck(y.queue.control.length, PhaseOf(y, t).kind, c.seen)
  {
    hide IsHistory;
    FailsInTime(After(s, length, itemSize, count, actions), action, t);
  }

  lemma FailsInTime(y: System, action: Action, t: Task)
    requires Good(y) && Possible(y, action) && IsInside(y, t) && !IsInside(Perform(y, action), t)
    requires !Succeeds(y, action, t) && action != InKernel(TaskSteps.Delete(t))
    ensures var c := CallOf(Perform(y, action), t);
            && c.wait < MAX_DELAY && y.kernel.clock >= c.begun + c.wait
            && (c.wait > 0 ==> y.kernel.clock >= c.start + c.wait && c.start >= c.begun)
            && NoLuck(y.queue.control.length, PhaseOf(y, t).kind, c.seen)
  {
    hide Good, BooksOk, KernelAfter, Apply, Protocol.Apply, Protocol.Allowed, Waiters, Inv, Fits;
    OnRecord(y, t);
    match action
    case Begin(u, kind, _) => CallPhases(y.queue, u, kind);
    case InKernel(_) =>
    case InQueue(step) =>
      EndsHere(y.queue, step, t);
      FailedCall(y, step, t);
  }

  lemma FailedCall(y: System, step: Protocol.Step, t: Task)
    requires BooksOk(y, t) && IsInside(y, t)
    requires (step == Protocol.Look(t, false) && Fits(y, step) && PhaseOf(y, t).Looking?
              && NoLuck(y.queue.control.length, PhaseOf(y, t).kind, y.queue.control.count))
             || (step == Protocol.Resume(t) && GivesUp(PhaseOf(y, t)))
    ensures var c := if step.Resume? then CallOf(y, t) else Looked(CallOf(y, t), y.kernel.clock, y.queue.control.count);
            && c.wait < MAX_DELAY && y.kernel.clock >= c.begun + c.wait
            && (c.wait > 0 ==> y.kernel.clock >= c.start + c.wait && c.start >= c.begun)
            && NoLuck(y.queue.control.length, PhaseOf(y, t).kind, c.seen)
  {
    hide MarkAt, Runs;
  }

  /** The steps that can end a call. */
  lemma EndsHere(q: Protocol.State, step: Protocol.Step, t: Task)
    requires Protocol.Allowed(q, step)
    requires !Protocol.PhaseOf(q, t).Outside? && Protocol.PhaseOf(Protocol.Apply(q, step), t).Outside?
    ensures step.Look? || step.Resume?
    ensures step.task == t
    ensures step.Resume? ==> GivesUp(Protocol.PhaseOf(q, t))
    ensures step.Look? ==> Protocol.PhaseOf(q, t).Looking?
    ensures step.Look? ==>
              Protocol.Succeeds(q.control, Protocol.PhaseOf(q, t).kind)
              || (!step.patient && NoLuck(q.control.length, Protocol.PhaseOf(q, t).kind, q.control.count))
  {
    hide Protocol.Attempt;
  }

  // ---- How long a call waits ----

  /** A task on a waiting list with a finite wait is delayed, and is due no earlier than the whole wait
      after it first found that it must wait; at exactly that time if its checks have been prompt. */
  lemma SleepsOutItsWait(s: State, length: nat, itemSize: nat, count: nat, actions: seq<Action>, t: Task)
    requires IsHistory(s, length, itemSize, count, actions)
    requires var y := After(s, length, itemSize, count, actions);
             IsWaiting(y.kernel, t) && CallOf(y, t).wait < MAX_DELAY
    ensures var y := After(s, length, itemSize, count, actions);
            var c := CallOf(y, t);
            && IsDelayed(y.kernel, t) && y.kernel.clock < WakeTime(y.kernel, t)
            && WakeTime(y.kernel, t) >= c.start + c.wait
            && (c.prompt ==> WakeTime(y.kernel, t) == c.start + c.wait)
  {
    hide IsHistory;
    SleepsOut(After(s, length, itemSize, count, actions), t);
  }

  lemma SleepsOut(y: System, t: Task)
    requires Good(y) && IsWaiting(y.kernel, t) && CallOf(y, t).wait < MAX_DELAY
    ensures var c := CallOf(y, t);
            && IsDelayed(y.kernel, t) && y.kernel.clock < WakeTime(y.kernel, t)
            && WakeTime(y.kernel, t) >= c.start + c.wait
            && (c.prompt ==> WakeTime(y.kernel, t) == c.start + c.wait)
  {
    var c := CallOf(y, t);
    WaiterIsInside(y, t);
    assert BooksOk(y, t) && SleepOk(y, t);
    hide Inv, Protocol.Inv, Relisted, Turn, SleepsUntil, WakeTime, MarkAt;
    ListedIsAsleep(y.kernel, t, if IsOn(y.kernel, t, RECEIVERS) then RECEIVERS else SENDERS, c.marked + c.remaining);
  }

  lemma WaiterIsInside(y: System, t: Task)
    requires Good(y) && IsWaiting(y.kernel, t)
    ensures IsInside(y, t)
  {
    hide Inv, CallsOk, Turn, Waiters;
    WaitersWait(y.kernel, RECEIVERS);
    WaitersWait(y.kernel, SENDERS);
    assert Protocol.TaskOk(y.queue, t);
  }

  /** Whether the call gives up: if its checks have been prompt, exactly when the whole wait is over. */
  lemma GivesUpExactlyWhenOver(s: State, length: nat, itemSize: nat, count: nat, actions: seq<Action>, t: Task)
    requires IsHistory(s, length, itemSize, count, actions)
    requires var y := After(s, length, itemSize, count, actions);
             var c := CallOf(y, t);
             && PhaseOf(y, t).Checking? && c.wait < MAX_DELAY
             && c.prompt && Epoch(y.kernel.clock) <= Epoch(c.marked) + 1
    ensures var y := After(s, length, itemSize, count, actions);
            Checked(y, t).expired <==> y.kernel.clock >= CallOf(y, t).start + CallOf(y, t).wait
  {
    hide IsHistory, Good, Check, Epoch, Recorded, SleepOk;
    var y := After(s, length, itemSize, count, actions);
    OnRecord(y, t);
    GivesUpWhenOver(PhaseOf(y, t), CallOf(y, t), y.kernel.clock, y.queue.control.length);
  }

  lemma GivesUpWhenOver(phase: Protocol.Phase, c: Call, clock: nat, length: nat)
    requires phase.Checking? && Recorded(phase, c, clock, length) && c.wait < MAX_DELAY
    requires c.prompt && Epoch(clock) <= Epoch(c.marked) + 1
    ensures Check(c.mark, clock, c.remaining).expired <==> clock >= c.start + c.wait
  {
    hide Check, MarkAt, Epoch;
    CheckIsSafe(c.marked, clock, c.remaining);
  }

  // ---- Nobody gets stuck ----

  /** What a task does next inside a call. */
  function NextStep(y: System, t: Task): Protocol.Step
    requires IsInside(y, t)
  {
    match PhaseOf(y, t)
    case Looking(_) => Protocol.Look(t, CallOf(y, t).remaining > 0)
    case Suspending(_) => Protocol.Suspend(t)
    case Locking(_) => Protocol.LockQueue(t)
    case Checking(_) => Protocol.CheckTimeOut(t, Checked(y, t).expired)
    case Testing(_) => Protocol.Test(t)
    case Placing(kind) => Protocol.Place(t, SortedPosition(y.kernel.store, Event(t), EventList(ListOf(kind))))
    case UnlockingTx(_, _) => Protocol.UnlockForTx(t)
    case UnlockingRx(_, _) => Protocol.UnlockForRx(t)
    case Resuming(_, _) => Protocol.Resume(t)
  }

  /** In every history a task inside a call that runs, or has the scheduler suspended, can take its next
      step. */
  lemma CanGoOn(s: State, length: nat, itemSize: nat, count: nat, actions: seq<Action>, t: Task)
    requires IsHistory(s, length, itemSize, count, actions)
    requires var y := After(s, length, itemSize, count, actions);
             && IsInside(y, t)
             && (y.queue.holder == Protocol.By(t) || (y.queue.holder == Protocol.Nobody && Runs(y, t)))
    ensures var y := After(s, length, itemSize, count, actions); Possible(y, InQueue(NextStep(y, t)))
  {
    hide IsHistory;
    HasNextStep(After(s, length, itemSize, count, actions), t);
  }

  lemma WhereTheTaskIs(y: System, t: Task)
    requires Good(y)
    ensures Protocol.HoldsScheduler(PhaseOf(y, t)) <==> y.queue.holder == Protocol.By(t)
    ensures IsReady(y.kernel, t) ==> !Protocol.Waits(y.queue, t)
  {
    hide Inv, CallsOk, Turn, Waiters, IsOn, IsReady;
    assert Protocol.TaskOk(y.queue, t);
    WaitersWait(y.kernel, RECEIVERS);
    WaitersWait(y.kernel, SENDERS);
    if IsReady(y.kernel, t) {
      RunnerIsNotWaiting(y, t);
    }
  }

  lemma PlaceInList(y: System, t: Task, kind: Protocol.Kind)
    requires Good(y)
    ensures SortedPosition(y.kernel.store, Event(t), EventList(ListOf(kind)))
            <= if kind.Receiving? then |y.queue.control.receivers| else |y.queue.control.senders|
  {
    hide Inv, CallsOk, Turn, SortedPosition;
    PlaceInRange(y.kernel, t, ListOf(kind));
  }

  lemma HasNextStep(y: System, t: Task)
    requires Good(y) && IsInside(y, t)
    requires y.queue.holder == Protocol.By(t) || (y.queue.holder == Protocol.Nobody && Runs(y, t))
    ensures Possible(y, InQueue(NextStep(y, t)))
  {
    hide Good, SortedPosition, Check, Protocol.Waits;
    WhereTheTaskIs(y, t);
    if PhaseOf(y, t).Placing? {
      PlaceInList(y, t, PhaseOf(y, t).kind);
    }
  }
}
