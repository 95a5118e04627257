/** The blocking protocol of queue.c, as a machine whose steps are the critical sections of any
    number of tasks, and interrupts that may come between any two of them.  It never loses a
    wake-up. */
module QueueProtocol {
  import opened QueueControl

  /** What a call is for. */
  datatype Kind = Sending(overwrite: bool) | Receiving(peek: bool)

  /** How a call goes on once the queue is unlocked again. */
  datatype Next = Again | GivesUp

  /** Where a task is in xQueueGenericSend or xQueueGenericReceive. */
  datatype Phase =
    | Outside
    | Looking(kind: Kind)                    // about to enter the critical section at the top of the loop
    | Suspending(kind: Kind)                 // about to call vTaskSuspendAll
    | Locking(kind: Kind)
    | Checking(kind: Kind)                   // about to call xTaskCheckForTimeOut
    | Testing(kind: Kind)                    // about to call prvIsQueueFull or prvIsQueueEmpty
    | Placing(kind: Kind)                    // about to call vTaskPlaceOnEventList
    | UnlockingTx(kind: Kind, next: Next)
    | UnlockingRx(kind: Kind, next: Next)
    | Resuming(kind: Kind, next: Next)       // about to call xTaskResumeAll

  datatype Holder = Nobody | By(task: Task)

  /** `holder` is the task that has suspended the scheduler. */
  datatype State = State(control: Control, phases: map<Task, Phase>, holder: Holder)

  datatype Step =
    | Call(task: Task, kind: Kind)
    | Look(task: Task, patient: bool)        // patient: there are ticks left to wait
    | Suspend(task: Task)
    | LockQueue(task: Task)
    | CheckTimeOut(task: Task, expired: bool)
    | Test(task: Task)
    | Place(task: Task, at: nat)
    | UnlockForTx(task: Task)
    | UnlockForRx(task: Task)
    | Resume(task: Task)
    | InterruptSend(overwrite: bool)
    | InterruptReceive
    | Expire(task: Task)                     // the tick at which a waiting task times out

  function PhaseOf(s: State, t: Task): Phase {
    if t in s.phases then s.phases[t] else Outside
  }

  function Enter(s: State, t: Task, phase: Phase): State {
    s.(phases := s.phases[t := phase])
  }

  predicate Waits(s: State, t: Task) {
    t in s.control.receivers || t in s.control.senders
  }

  /** A task that waits does not run, and while the scheduler is suspended only the task that did
      it runs.  Interrupts come at any time. */
  predicate Allowed(s: State, step: Step) {
    match step
    case Call(t, kind) =>
      && s.holder == Nobody && PhaseOf(s, t) == Outside
      && (kind == Sending(true) ==> s.control.length == 1)
    case Look(t, _) => s.holder == Nobody && PhaseOf(s, t).Looking? && !Waits(s, t)
    case Suspend(t) => s.holder == Nobody && PhaseOf(s, t).Suspending?
    case LockQueue(t) => PhaseOf(s, t).Locking?
    case CheckTimeOut(t, _) => PhaseOf(s, t).Checking?
    case Test(t) => PhaseOf(s, t).Testing?
    case Place(t, at) => PhaseOf(s, t).Placing?
                         && at <= if PhaseOf(s, t).kind.Receiving? then |s.control.receivers| else |s.control.senders|
    case UnlockForTx(t) => PhaseOf(s, t).UnlockingTx?
    case UnlockForRx(t) => PhaseOf(s, t).UnlockingRx?
    case Resume(t) => PhaseOf(s, t).Resuming?
    case InterruptSend(overwrite) => overwrite ==> s.control.length == 1
    case InterruptReceive => true
    case Expire(t) => s.holder == Nobody && Waits(s, t)
  }

  predicate Succeeds(c: Control, kind: Kind) {
    match kind
    case Sending(overwrite) => CanSend(c, overwrite)
    case Receiving(_) => c.count > 0
  }

  function Attempt(c: Control, t: Task, kind: Kind): Control {
    match kind
    case Sending(overwrite) => TrySend(c, t, overwrite)
    case Receiving(peek) => TryReceive(c, t, peek)
  }

  /** prvIsQueueFull compares for equality. */
  predicate MustWait(c: Control, kind: Kind) {
    match kind
    case Sending(_) => c.count == c.length
    case Receiving(_) => c.count == 0
  }

  function Apply(s: State, step: Step): State
    requires Allowed(s, step)
  {
    match step
    case Call(t, kind) => Enter(s, t, Looking(kind))
    case Look(t, patient) =>
      var kind := PhaseOf(s, t).kind;
      Enter(s.(control := Attempt(s.control, t, kind)), t,
            if Succeeds(s.control, kind) || !patient then Outside else Suspending(kind))
    case Suspend(t) => Enter(s.(holder := By(t)), t, Locking(PhaseOf(s, t).kind))
    case LockQueue(t) => Enter(s.(control := Lock(s.control)), t, Checking(PhaseOf(s, t).kind))
    case CheckTimeOut(t, expired) =>
      var kind := PhaseOf(s, t).kind;
      Enter(s, t, if expired then UnlockingTx(kind, GivesUp) else Testing(kind))
    case Test(t) =>
      var kind := PhaseOf(s, t).kind;
      Enter(s, t, if MustWait(s.control, kind) then Placing(kind) else UnlockingTx(kind, Again))
    case Place(t, at) =>
      var kind := PhaseOf(s, t).kind;
      Enter(s.(control := if kind.Receiving? then PlaceReceiver(s.control, t, at) else PlaceSender(s.control, t, at)),
            t, UnlockingTx(kind, Again))
    case UnlockForTx(t) =>
      Enter(s.(control := UnlockTx(s.control)), t, UnlockingRx(PhaseOf(s, t).kind, PhaseOf(s, t).next))
    case UnlockForRx(t) =>
      Enter(s.(control := UnlockRx(s.control)), t, Resuming(PhaseOf(s, t).kind, PhaseOf(s, t).next))
    case Resume(t) =>
      Enter(s.(holder := Nobody), t, if PhaseOf(s, t).next == Again then Looking(PhaseOf(s, t).kind) else Outside)
    case InterruptSend(overwrite) => s.(control := SendFromISR(s.control, overwrite))
    case InterruptReceive => s.(control := ReceiveFromISR(s.control))
    case Expire(t) => s.(control := TimesOut(s.control, t))
  }

  // ---- The invariant ----

  predicate HoldsScheduler(phase: Phase) {
    !phase.Outside? && !phase.Looking? && !phase.Suspending?
  }

  /** A task that waits, or has been woken and has not looked yet, will look again. */
  predicate WillLook(phase: Phase) {
    phase.Looking? || ((phase.UnlockingTx? || phase.UnlockingRx? || phase.Resuming?) && phase.next == Again)
  }

  ghost predicate TaskOk(s: State, t: Task) {
    var phase := PhaseOf(s, t);
    && (HoldsScheduler(phase) <==> s.holder == By(t))
    && (!phase.Outside? && !phase.Looking? ==> phase.kind != Sending(true))
    && (AsReceiver(s.control, t) ==> WillLook(phase) && phase.kind.Receiving?)
    && (AsSender(s.control, t) ==> WillLook(phase) && phase.kind == Sending(false))
  }

  /** The lock counts fit the phase of the task that has suspended the scheduler.  Between its
      test of the queue and its going on the list, what interrupts do is covered by the lock
      counts. */
  ghost predicate LocksFit(s: State) {
    var c := s.control;
    match s.holder
    case Nobody => c.txLock == UNLOCKED && c.rxLock == UNLOCKED
    case By(t) =>
      match PhaseOf(s, t)
      case Locking(_) => c.txLock == UNLOCKED && c.rxLock == UNLOCKED
      case Checking(_) => c.txLock >= 0 && c.rxLock >= 0
      case Testing(_) => c.txLock >= 0 && c.rxLock >= 0
      case Placing(kind) => c.txLock >= 0 && c.rxLock >= 0
                            && (if kind.Receiving? then ReceiversCovered(c) else SendersCovered(c))
      case UnlockingTx(_, _) => c.txLock >= 0 && c.rxLock >= 0
      case UnlockingRx(_, _) => c.txLock == UNLOCKED && c.rxLock >= 0
      case Resuming(_, _) => c.txLock == UNLOCKED && c.rxLock == UNLOCKED
      case _ => false
  }

  ghost predicate Inv(s: State) {
    && WellFormed(s.control) && NothingLost(s.control)
    && (forall t {:trigger TaskOk(s, t)} {:trigger PhaseOf(s, t)} :: TaskOk(s, t))
    && LocksFit(s)
  }

  /** Only `t` has moved on, and nobody has come to wait. */
  lemma OnlyOneMoved(s: State, s1: State, t: Task)
    requires Inv(s) && WellFormed(s1.control) && NothingLost(s1.control) && LocksFit(s1) && TaskOk(s1, t)
    requires s1.phases == s.phases[t := PhaseOf(s1, t)]
    requires s1.holder == s.holder || (s.holder == Nobody && s1.holder == By(t))
             || (s.holder == By(t) && s1.holder == Nobody)
    requires forall u :: u != t && AsReceiver(s1.control, u) ==> AsReceiver(s.control, u)
    requires forall u :: u != t && AsSender(s1.control, u) ==> AsSender(s.control, u)
    ensures Inv(s1)
  {
    hide WellFormed, NothingLost, AsReceiver, AsSender, LocksFit;
    forall u
      ensures TaskOk(s1, u)
    {
      assert TaskOk(s, u);
    }
  }

  lemma LookKeeps(s: State, t: Task, patient: bool)
    requires Inv(s) && Allowed(s, Look(t, patient))
    ensures Inv(Apply(s, Look(t, patient)))
  {
    assert TaskOk(s, t);
    var kind := PhaseOf(s, t).kind;
    match kind {
      case Sending(overwrite) => TrySendKeeps(s.control, t, overwrite);
      case Receiving(peek) => TryReceiveKeeps(s.control, t, peek);
    }
    hide WellFormed, NothingLost;
    OnlyOneMoved(s, Apply(s, Look(t, patient)), t);
  }

  lemma PlaceKeeps(s: State, t: Task, at: nat)
    requires Inv(s) && Allowed(s, Place(t, at))
    ensures Inv(Apply(s, Place(t, at)))
  {
    assert TaskOk(s, t);
    if PhaseOf(s, t).kind.Receiving? {
      PlaceReceiverKeeps(s.control, t, at);
    } else {
      PlaceSenderKeeps(s.control, t, at);
    }
    hide WellFormed, NothingLost;
    OnlyOneMoved(s, Apply(s, Place(t, at)), t);
  }

  lemma UnlockTxStepKeeps(s: State, t: Task)
    requires Inv(s) && Allowed(s, UnlockForTx(t))
    ensures Inv(Apply(s, UnlockForTx(t)))
  {
    hide WellFormed, NothingLost, UnlockTx;
    assert TaskOk(s, t);
    UnlockTxKeeps(s.control);
    OnlyOneMoved(s, Apply(s, UnlockForTx(t)), t);
  }

  lemma UnlockRxStepKeeps(s: State, t: Task)
    requires Inv(s) && Allowed(s, UnlockForRx(t))
    ensures Inv(Apply(s, UnlockForRx(t)))
  {
    hide WellFormed, NothingLost, UnlockRx;
    assert TaskOk(s, t);
    UnlockRxKeeps(s.control);
    OnlyOneMoved(s, Apply(s, UnlockForRx(t)), t);
  }

  /** No task has moved on, and nobody has come to wait. */
  lemma NobodyMoved(s: State, c: Control)
    requires Inv(s) && NobodyNew(s.control, c)
    ensures forall t :: TaskOk(s.(control := c), t)
  {
    hide WellFormed, NothingLost, AsReceiver, AsSender, LocksFit;
    var s1 := s.(control := c);
    forall t
      ensures TaskOk(s1, t)
    {
      assert TaskOk(s, t);
    }
  }

  lemma InterruptSendKeeps(s: State, overwrite: bool)
    requires Inv(s)
    ensures Inv(s.(control := SendFromISR(s.control, overwrite)))
  {
    hide WellFormed, NothingLost, SendFromISR, ReceiversCovered, SendersCovered, TaskOk;
    SendFromISRKeeps(s.control, overwrite);
    NobodyMoved(s, SendFromISR(s.control, overwrite));
  }

  lemma InterruptReceiveKeeps(s: State)
    requires Inv(s)
    ensures Inv(s.(control := ReceiveFromISR(s.control)))
  {
    hide WellFormed, NothingLost, ReceiveFromISR, ReceiversCovered, SendersCovered, TaskOk;
    ReceiveFromISRKeeps(s.control);
    NobodyMoved(s, ReceiveFromISR(s.control));
  }

  lemma ExpireKeeps(s: State, t: Task)
    requires Inv(s) && Allowed(s, Expire(t))
    ensures Inv(Apply(s, Expire(t)))
  {
    hide WellFormed, NothingLost, TaskOk;
    TimesOutKeeps(s.control, t);
    NobodyMoved(s, TimesOut(s.control, t));
  }

  /** The steps that leave counts and lists alone. */
  lemma QuietKeeps(s: State, step: Step)
    requires Inv(s) && Allowed(s, step)
    requires step.Call? || step.Suspend? || step.LockQueue? || step.CheckTimeOut? || step.Test? || step.Resume?
    ensures Inv(Apply(s, step))
  {
    assert TaskOk(s, step.task);
    hide WellFormed;
    OnlyOneMoved(s, Apply(s, step), step.task);
  }

  lemma StepKeeps(s: State, step: Step)
    requires Inv(s) && Allowed(s, step)
    ensures Inv(Apply(s, step))
  {
    hide Inv;
    match step
    case Look(t, patient) => LookKeeps(s, t, patient);
    case Place(t, at) => PlaceKeeps(s, t, at);
    case UnlockForTx(t) => UnlockTxStepKeeps(s, t);
    case UnlockForRx(t) => UnlockRxStepKeeps(s, t);
    case InterruptSend(overwrite) => InterruptSendKeeps(s, overwrite);
    case InterruptReceive => InterruptReceiveKeeps(s);
    case Expire(t) => ExpireKeeps(s, t);
    case _ => QuietKeeps(s, step);
  }

  // ---- How a call goes on ----

  /** Once the queue is unlocked and the scheduler resumed, a call whose timeout has expired is over, and any
      other looks again. */
  lemma GoesOnOrGivesUp(s: State, t: Task)
    requires PhaseOf(s, t).UnlockingTx?
    ensures Allowed(s, UnlockForTx(t))
    ensures var s1 := Apply(s, UnlockForTx(t));
            && Allowed(s1, UnlockForRx(t))
            && var s2 := Apply(s1, UnlockForRx(t));
               && Allowed(s2, Resume(t))
               && var s3 := Apply(s2, Resume(t));
                  && PhaseOf(s3, t) == (if PhaseOf(s, t).next == GivesUp then Outside else Looking(PhaseOf(s, t).kind))
                  && s3.holder == Nobody && s3.control.txLock == s3.control.rxLock == UNLOCKED
                  && s3.control.count == s.control.count
  {
    hide UnlockTx, UnlockRx;
    UnlockTxWakes(s.control);
    UnlockRxWakes(UnlockTx(s.control));
  }

  /** A call gives up exactly when its timeout has expired; if it has not, it waits exactly when the queue
      is full, for a send, or empty, for a receive. */
  lemma WaitsOrGivesUp(s: State, t: Task, expired: bool, at: nat)
    requires Allowed(s, CheckTimeOut(t, expired))
    requires at <= if PhaseOf(s, t).kind.Receiving? then |s.control.receivers| else |s.control.senders|
    ensures var kind, s1 := PhaseOf(s, t).kind, Apply(s, CheckTimeOut(t, expired));
            && s1.control == s.control
            && if expired then PhaseOf(s1, t) == UnlockingTx(kind, GivesUp)
               else
                 && Allowed(s1, Test(t))
                 && var s2 := Apply(s1, Test(t));
                    && s2.control == s.control
                    && if s.control.count == (if kind.Receiving? then 0 else s.control.length) then
                         && Allowed(s2, Place(t, at))
                         && var s3 := Apply(s2, Place(t, at));
                            && PhaseOf(s3, t) == UnlockingTx(kind, Again)
                            && if kind.Receiving? then s3.control.receivers[at] == t else s3.control.senders[at] == t
                       else PhaseOf(s2, t) == UnlockingTx(kind, Again)
  {
  }

  /** A task that times out leaves the list it waits on, and nobody else does. */
  lemma ExpiryLeaves(s: State, t: Task, u: Task)
    requires Inv(s) && Allowed(s, Expire(t))
    ensures var c, c1 := s.control, Apply(s, Expire(t)).control;
            && (u in c1.receivers <==> u in c.receivers && u != t)
            && (u in c1.senders <==> u in c.senders && u != t)
            && c1 == c.(receivers := c1.receivers, senders := c1.senders)
  {
    hide TaskOk, LocksFit, NothingLost;
    WithoutMembers(s.control.receivers, t);
    WithoutMembers(s.control.senders, t);
  }

  // ---- Runs ----

  /** A new queue holding `count` messages, as a queue, a counting semaphore or a mutex starts. */
  function New(length: nat, itemSize: nat, count: nat): State {
    State(Control(length, itemSize, count, UNLOCKED, UNLOCKED, [], [], {}, {}), map[], Nobody)
  }

  ghost predicate Permitted(s: State, steps: seq<Step>)
    decreases |steps|
  {
    steps == [] || (Allowed(s, steps[0]) && Permitted(Apply(s, steps[0]), steps[1..]))
  }

  function Run(s: State, steps: seq<Step>): State
    requires Permitted(s, steps)
    decreases |steps|
  {
    if steps == [] then s else Run(Apply(s, steps[0]), steps[1..])
  }

  lemma {:induction false} RunKeeps(s: State, steps: seq<Step>)
    requires Inv(s) && Permitted(s, steps)
    ensures Inv(Run(s, steps))
    decreases |steps|
  {
    hide Inv, Apply, Allowed;
    if steps != [] {
      StepKeeps(s, steps[0]);
      RunKeeps(Apply(s, steps[0]), steps[1..]);
    }
  }

  lemma RunsThen(s: State, step: Step, rest: seq<Step>)
    requires Allowed(s, step) && Permitted(Apply(s, step), rest)
    ensures Permitted(s, [step] + rest) && Run(s, [step] + rest) == Run(Apply(s, step), rest)
  {
    hide Allowed, Apply;
    assert ([step] + rest)[1..] == rest;
  }

  /** What a task does that sends to a full queue, up to the moment it waits. */
  function ToWait(t: Task, at: nat, rest: seq<Step>): seq<Step> {
    [Call(t, Sending(false))] + ([Look(t, true)] + ([Suspend(t)] + ([LockQueue(t)] + ([CheckTimeOut(t, false)]
    + ([Test(t)] + ([Place(t, at)] + ([UnlockForTx(t)] + ([UnlockForRx(t)] + ([Resume(t)] + rest)))))))))
  }

  /** A full queue that is not locked. */
  predicate Full(c: Control) {
    c.count == c.length && c.txLock == UNLOCKED && c.rxLock == UNLOCKED
  }

  /** Task `t` has come to a phase, and nobody else has moved. */
  function Reached(s: State, t: Task, c: Control, phase: Phase, holder: Holder): State {
    State(c, s.phases[t := phase], holder)
  }

  function Waiting(s: State, t: Task, at: nat): State
    requires at <= |s.control.senders|
  {
    Reached(s, t, PlaceSender(Looks(s.control, t), t, at), Looking(Sending(false)), Nobody)
  }

  lemma BeforeLock(s: State, t: Task)
    requires Full(s.control) && s.holder == Nobody && PhaseOf(s, t) == Outside && !Waits(s, t)
    ensures var kind, c := Sending(false), Looks(s.control, t);
            var called, looked := Reached(s, t, s.control, Looking(kind), Nobody),
                                  Reached(s, t, c, Suspending(kind), Nobody);
            && Allowed(s, Call(t, kind)) && Apply(s, Call(t, kind)) == called
            && Allowed(called, Look(t, true)) && Apply(called, Look(t, true)) == looked
            && Allowed(looked, Suspend(t)) && Apply(looked, Suspend(t)) == Reached(s, t, c, Locking(kind), By(t))
  {
  }

  lemma WhileLocked(s: State, t: Task, c: Control, at: nat)
    requires Full(c) && at <= |c.senders|
    ensures var kind, c1 := Sending(false), Lock(c);
            var locking, checking := Reached(s, t, c, Locking(kind), By(t)), Reached(s, t, c1, Checking(kind), By(t));
            var testing, placing := Reached(s, t, c1, Testing(kind), By(t)), Reached(s, t, c1, Placing(kind), By(t));
            && Allowed(locking, LockQueue(t)) && Apply(locking, LockQueue(t)) == checking
            && Allowed(checking, CheckTimeOut(t, false)) && Apply(checking, CheckTimeOut(t, false)) == testing
            && Allowed(testing, Test(t)) && Apply(testing, Test(t)) == placing
            && Allowed(placing, Place(t, at))
            && Apply(placing, Place(t, at)) == Reached(s, t, PlaceSender(c1, t, at), UnlockingTx(kind, Again), By(t))
  {
  }

  lemma AfterPlacing(s: State, t: Task, c: Control, at: nat)
    requires Full(c) && at <= |c.senders|
    ensures var kind, c1, c3 := Sending(false), PlaceSender(Lock(c), t, at), PlaceSender(c, t, at);
            var c2 := c1.(txLock := UNLOCKED);
            var tx, rx := Reached(s, t, c1, UnlockingTx(kind, Again), By(t)),
                          Reached(s, t, c2, UnlockingRx(kind, Again), By(t));
            var resuming := Reached(s, t, c3, Resuming(kind, Again), By(t));
            && Allowed(tx, UnlockForTx(t)) && Apply(tx, UnlockForTx(t)) == rx
            && Allowed(rx, UnlockForRx(t)) && Apply(rx, UnlockForRx(t)) == resuming
            && Allowed(resuming, Resume(t)) && Apply(resuming, Resume(t)) == Reached(s, t, c3, Looking(kind), Nobody)
  {
  }

  lemma GoesToWait(s: State, t: Task, at: nat, rest: seq<Step>)
    requires Full(s.control) && s.holder == Nobody && PhaseOf(s, t) == Outside && !Waits(s, t)
             && at <= |s.control.senders|
    requires Permitted(Waiting(s, t, at), rest)
    ensures Permitted(s, ToWait(t, at, rest)) && Run(s, ToWait(t, at, rest)) == Run(Waiting(s, t, at), rest)
  {
    hide Allowed, Apply, Reached, Permitted, Run;
    var kind, c := Sending(false), Looks(s.control, t);
    BeforeLock(s, t);
    WhileLocked(s, t, c, at);
    AfterPlacing(s, t, c, at);
    var c1 := PlaceSender(Lock(c), t, at);
    var r := rest;
    RunsThen(Reached(s, t, PlaceSender(c, t, at), Resuming(kind, Again), By(t)), Resume(t), r);
    r := [Resume(t)] + r;
    RunsThen(Reached(s, t, c1.(txLock := UNLOCKED), UnlockingRx(kind, Again), By(t)), UnlockForRx(t), r);
    r := [UnlockForRx(t)] + r;
    RunsThen(Reached(s, t, c1, UnlockingTx(kind, Again), By(t)), UnlockForTx(t), r);
    r := [UnlockForTx(t)] + r;
    RunsThen(Reached(s, t, Lock(c), Placing(kind), By(t)), Place(t, at), r);
    r := [Place(t, at)] + r;
    RunsThen(Reached(s, t, Lock(c), Testing(kind), By(t)), Test(t), r);
    r := [Test(t)] + r;
    RunsThen(Reached(s, t, Lock(c), Checking(kind), By(t)), CheckTimeOut(t, false), r);
    r := [CheckTimeOut(t, false)] + r;
    RunsThen(Reached(s, t, c, Locking(kind), By(t)), LockQueue(t), r);
    r := [LockQueue(t)] + r;
    RunsThen(Reached(s, t, c, Suspending(kind), Nobody), Suspend(t), r);
    r := [Suspend(t)] + r;
    RunsThen(Reached(s, t, s.control, Looking(kind), Nobody), Look(t, true), r);
    r := [Look(t, true)] + r;
    RunsThen(s, Call(t, kind), r);
  }

  /** A queue of length two is filled from an interrupt, and tasks 7 and 8 come to wait for a slot: the
      state in which a reset strands the second of them. */
  lemma TwoSendersWait()
    ensures exists steps ::
              && Permitted(New(2, 1, 0), steps)
              && Run(New(2, 1, 0), steps).control == Control(2, 1, 2, UNLOCKED, UNLOCKED, [], [7, 8], {}, {})
              && Run(New(2, 1, 0), steps).holder == Nobody
  {
    hide Permitted, Run;
    var s0, s1, s2 := New(2, 1, 0), New(2, 1, 1), New(2, 1, 2);
    var fill := InterruptSend(false);
    assert Allowed(s0, fill) && Apply(s0, fill) == s1 && Allowed(s1, fill) && Apply(s1, fill) == s2;
    var s3 := Waiting(s2, 7, 0);
    var s4 := Waiting(s3, 8, 1);
    assert Permitted(s4, []) && Run(s4, []) == s4 by { NoSteps(s4); }
    GoesToWait(s3, 8, 1, []);
    GoesToWait(s2, 7, 0, ToWait(8, 1, []));
    RunsThen(s1, fill, ToWait(7, 0, ToWait(8, 1, [])));
    RunsThen(s0, fill, [fill] + ToWait(7, 0, ToWait(8, 1, [])));
    assert s4.control.senders == [7, 8];
  }

  /** A message is then received by an interrupt, and wakes task 7; if that task is deleted before it has
      looked, task 8 waits although a slot is free and nobody is on the way to take it. */
  lemma DeletionCanStrandASender()
    ensures exists steps ::
              && Permitted(New(2, 1, 0), steps)
              && Run(New(2, 1, 0), steps).control == Control(2, 1, 1, UNLOCKED, UNLOCKED, [], [8], {}, {7})
              && Run(New(2, 1, 0), steps).holder == Nobody
    ensures var c := Control(2, 1, 1, UNLOCKED, UNLOCKED, [], [8], {}, {7});
            WellFormed(c) && NothingLost(c) && !NothingLost(Deleted(c, 7))
  {
    hide Permitted, Run;
    TwoSendersWait();
    var steps :| && Permitted(New(2, 1, 0), steps)
                 && Run(New(2, 1, 0), steps).control == Control(2, 1, 2, UNLOCKED, UNLOCKED, [], [7, 8], {}, {})
                 && Run(New(2, 1, 0), steps).holder == Nobody;
    OneMore(New(2, 1, 0), steps, InterruptReceive);
    assert [7, 8][1..] == [8];
    var c := Control(2, 1, 1, UNLOCKED, UNLOCKED, [], [8], {}, {7});
    DeletionKeepsExactlyWhen(c, 7);
  }

  lemma {:induction false} OneMore(s: State, steps: seq<Step>, step: Step)
    requires Permitted(s, steps) && Allowed(Run(s, steps), step)
    ensures Permitted(s, steps + [step]) && Run(s, steps + [step]) == Apply(Run(s, steps), step)
    decreases |steps|
  {
    hide Allowed, Apply;
    if steps == [] {
      assert steps + [step] == [step] && [step][1..] == [];
    } else {
      assert (steps + [step])[1..] == steps[1..] + [step];
      OneMore(Apply(s, steps[0]), steps[1..], step);
    }
  }

  lemma NoSteps(s: State)
    ensures Permitted(s, []) && Run(s, []) == s
  {
  }

  /** No wake-up is lost.  In every reachable state, if a task waits to receive, then for each
      message in the queue there is a task that has been woken and has not looked yet, or a send
      counted in the transmit lock; and if a task waits to send, the same holds for each free slot
      and the receive lock. */
  lemma NoWakeUpIsLost(length: nat, itemSize: nat, count: nat, steps: seq<Step>)
    requires Permitted(New(length, itemSize, count), steps)
    ensures var c := Run(New(length, itemSize, count), steps).control;
            && (c.receivers != [] ==> c.count <= |c.wokenReceivers| + Positive(c.txLock))
            && (c.senders != [] ==> c.length - c.count <= |c.wokenSenders| + Positive(c.rxLock))
  {
    hide Run, Permitted;
    RunKeeps(New(length, itemSize, count), steps);
  }

  /** So when the scheduler runs and every woken task has looked, a task waits to receive only
      while the queue is empty, and to send only while it is full. */
  lemma NobodyWaitsInVain(length: nat, itemSize: nat, count: nat, steps: seq<Step>)
    requires Permitted(New(length, itemSize, count), steps)
    ensures var s := Run(New(length, itemSize, count), steps);
            && (s.holder == Nobody && s.control.wokenReceivers == {} && s.control.receivers != []
                ==> s.control.count == 0)
            && (s.holder == Nobody && s.control.wokenSenders == {} && s.control.senders != []
                ==> s.control.count >= s.control.length)
  {
    hide Run, Permitted;
    RunKeeps(New(length, itemSize, count), steps);
  }
}
