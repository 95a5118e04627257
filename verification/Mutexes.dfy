/** Mutexes and priority inheritance (queue.c over tasks.c): the scheduler's state machine with any
    number of mutexes beside it. */
module Mutexes {
  import opened ItemStore
  import opened TaskState
  import opened TaskSteps
  import opened TaskInvariant
  import opened TaskRuns
  import opened TaskPriorities

  type MutexId = nat

  /** pxMutexHolder */
  datatype Holder = NoTask | HeldBy(task: Task)

  /** A queue used as a mutex: uxMessagesWaiting, pxMutexHolder and uxRecursiveCallCount. */
  datatype Mutex = Mutex(recursive: bool, count: nat, holder: Holder, calls: nat)

  datatype System = System(kernel: State, mutexes: map<MutexId, Mutex>)

  datatype Action =
    | Kernel(step: Step)
    | CreateMutex(id: MutexId, recursive: bool)
    | Take(id: MutexId)                // the critical section of a receive that succeeds
    | Contend(id: MutexId)             // a receive that finds the mutex taken and will wait
    | Give(id: MutexId)
    | TakeRecursive(id: MutexId)
    | GiveRecursive(id: MutexId)

  /** Mutexes are given by their holder, or while nobody holds them; no task is freed while it
      holds one; a recursive mutex is used with the recursive calls. */
  ghost predicate Possible(y: System, action: Action) {
    match action
    case Kernel(step) =>
      && Allowed(y.kernel, step)
      && !step.Inherit? && !step.Disinherit? && !step.TakeMutex?
      && (step == CleanUp && Items(y.kernel, Termination) != [] ==>
            forall m <- y.mutexes :: y.mutexes[m].holder != HeldBy(Items(y.kernel, Termination)[0].task))
    case CreateMutex(m, _) => m !in y.mutexes
    case Take(m) => m in y.mutexes && !y.mutexes[m].recursive && y.mutexes[m].count > 0
    case Contend(m) => m in y.mutexes && y.mutexes[m].count == 0
    case Give(m) => m in y.mutexes && !y.mutexes[m].recursive
                    && (y.mutexes[m].holder == NoTask
                        || (y.mutexes[m].holder == HeldBy(y.kernel.current) && CallerReady(y.kernel)))
    case TakeRecursive(m) => m in y.mutexes && y.mutexes[m].recursive
                             && (y.mutexes[m].count > 0 || y.mutexes[m].holder == HeldBy(y.kernel.current))
    case GiveRecursive(m) => m in y.mutexes && y.mutexes[m].recursive && CallerReady(y.kernel)
  }

  /** A receive from a mutex: the caller becomes its holder, and its count of mutexes goes up. */
  function Acquire(y: System, m: MutexId, calls: nat): System
    requires m in y.mutexes && y.mutexes[m].count > 0
  {
    System(DoTakeMutex(y.kernel),
           y.mutexes[m := Mutex(y.mutexes[m].recursive, y.mutexes[m].count - 1, HeldBy(y.kernel.current), calls)])
  }

  /** A send to a mutex: prvCopyDataToQueue lets the holder give up an inherited priority.  A full
      mutex refuses it. */
  function Release(y: System, m: MutexId): System
    requires m in y.mutexes
  {
    var mutex := y.mutexes[m];
    if mutex.count >= 1 then y
    else
      System(if mutex.holder.HeldBy? then DoDisinherit(y.kernel, mutex.holder.task) else y.kernel,
             y.mutexes[m := Mutex(mutex.recursive, mutex.count + 1, NoTask, mutex.calls)])
  }

  /** xQueueCreateMutex: an empty mutex is made, and given */
  function Made(y: System, m: MutexId, recursive: bool): System {
    Release(y.(mutexes := y.mutexes[m := Mutex(recursive, 0, NoTask, 0)]), m)
  }

  /** Who wants a mutex that is taken lends its holder its own priority. */
  function Contended(y: System, m: MutexId): System
    requires m in y.mutexes
  {
    if y.mutexes[m].holder.HeldBy? then y.(kernel := DoInherit(y.kernel, y.mutexes[m].holder.task)) else y
  }

  predicate HeldByCaller(y: System, m: MutexId)
    requires m in y.mutexes
  {
    y.mutexes[m].holder == HeldBy(y.kernel.current)
  }

  /** xQueueTakeMutexRecursive, when it succeeds */
  function TakenRecursively(y: System, m: MutexId): System
    requires m in y.mutexes && (y.mutexes[m].count > 0 || HeldByCaller(y, m))
  {
    if HeldByCaller(y, m) then y.(mutexes := y.mutexes[m := y.mutexes[m].(calls := y.mutexes[m].calls + 1)])
    else Acquire(y, m, y.mutexes[m].calls + 1)
  }

  /** xQueueGiveMutexRecursive */
  function GivenRecursively(y: System, m: MutexId): System
    requires m in y.mutexes
  {
    if !HeldByCaller(y, m) || y.mutexes[m].calls == 0 then y
    else
      var y1 := y.(mutexes := y.mutexes[m := y.mutexes[m].(calls := y.mutexes[m].calls - 1)]);
      if y1.mutexes[m].calls == 0 then Release(y1, m) else y1
  }

  function Perform(y: System, action: Action): System
    requires Inv(y.kernel) && Possible(y, action)
  {
    match action
    case Kernel(step) => y.(kernel := Apply(y.kernel, step))
    case CreateMutex(m, recursive) => Made(y, m, recursive)
    case Take(m) => Acquire(y, m, 0)
    case Contend(m) => Contended(y, m)
    case Give(m) => Release(y, m)
    case TakeRecursive(m) => TakenRecursively(y, m)
    case GiveRecursive(m) => GivenRecursively(y, m)
  }

  // ---- The invariant ----

  /** The mutexes that name `t` as holder. */
  function Held(mutexes: map<MutexId, Mutex>, t: Task): set<MutexId> {
    set m <- mutexes | mutexes[m].holder == HeldBy(t)
  }

  /** Full exactly when nobody holds it; the recursive calls not yet undone are counted. */
  ghost predicate MutexOk(tcbs: map<Task, Tcb>, mutex: Mutex) {
    && mutex.count == (if mutex.holder == NoTask then 1 else 0)
    && (mutex.holder.HeldBy? ==> mutex.holder.task in tcbs)
    && (if mutex.recursive then mutex.calls == 0 <==> mutex.holder == NoTask else mutex.calls == 0)
  }

  /** A task's count is the number of mutexes that name it, and without a mutex it has its own
      priority. */
  ghost predicate HolderOk(tcbs: map<Task, Tcb>, mutexes: map<MutexId, Mutex>, t: Task)
    requires t in tcbs
  {
    && tcbs[t].mutexesHeld == |Held(mutexes, t)|
    && (tcbs[t].mutexesHeld == 0 ==> tcbs[t].priority == tcbs[t].basePriority)
  }

  ghost predicate BooksOk(tcbs: map<Task, Tcb>, mutexes: map<MutexId, Mutex>) {
    && (forall m <- mutexes :: MutexOk(tcbs, mutexes[m]))
    && (forall t <- tcbs :: HolderOk(tcbs, mutexes, t))
  }

  ghost predicate Good(y: System) {
    Inv(y.kernel) && BooksOk(y.kernel.tcbs, y.mutexes)
  }

  // ---- Every action keeps the books ----

  lemma Renamed(mutexes: map<MutexId, Mutex>, m: MutexId, mutex: Mutex, t: Task)
    ensures var was := m in mutexes && mutexes[m].holder == HeldBy(t);
            var now := mutex.holder == HeldBy(t);
            |Held(mutexes[m := mutex], t)| == |Held(mutexes, t)| - (if was then 1 else 0) + (if now then 1 else 0)
  {
    var before, after := Held(mutexes, t), Held(mutexes[m := mutex], t);
    assert after - {m} == before - {m};
    assert |before - {m}| == |before| - if m in before then 1 else 0;
    assert |after - {m}| == |after| - if m in after then 1 else 0;
  }

  /** One mutex and one control block have changed, together. */
  lemma BooksAfter(tcbs: map<Task, Tcb>, mutexes: map<MutexId, Mutex>, m: MutexId, mutex: Mutex, t: Task, tcb: Tcb)
    requires BooksOk(tcbs, mutexes) && t in tcbs
    requires MutexOk(tcbs, mutex)
    requires mutex.holder == HeldBy(t) || mutex.holder == NoTask
    requires m in mutexes ==> mutexes[m].holder == HeldBy(t) || mutexes[m].holder == NoTask
    requires var was := m in mutexes && mutexes[m].holder == HeldBy(t);
             tcb.mutexesHeld ==
               tcbs[t].mutexesHeld - (if was then 1 else 0) + (if mutex.holder == HeldBy(t) then 1 else 0)
    requires tcb.mutexesHeld == 0 ==> tcb.priority == tcb.basePriority
    ensures BooksOk(tcbs[t := tcb], mutexes[m := mutex])
  {
    var tcbs1, mutexes1 := tcbs[t := tcb], mutexes[m := mutex];
    forall u | u in tcbs1
      ensures HolderOk(tcbs1, mutexes1, u)
    {
      Renamed(mutexes, m, mutex, u);
      assert HolderOk(tcbs, mutexes, u);
    }
    forall n | n in mutexes1
      ensures MutexOk(tcbs1, mutexes1[n])
    {
    }
  }

  /** A control block changes without its holdings. */
  lemma BooksAfterPriority(tcbs: map<Task, Tcb>, mutexes: map<MutexId, Mutex>, t: Task, tcb: Tcb)
    requires BooksOk(tcbs, mutexes)
    requires tcb.mutexesHeld == if t in tcbs then tcbs[t].mutexesHeld else 0
    requires tcb.mutexesHeld == 0 ==> tcb.priority == tcb.basePriority
    ensures BooksOk(tcbs[t := tcb], mutexes)
  {
    var tcbs1 := tcbs[t := tcb];
    forall u | u in tcbs1
      ensures HolderOk(tcbs1, mutexes, u)
    {
      if u in tcbs {
        assert HolderOk(tcbs, mutexes, u);
      } else {
        assert Held(mutexes, u) == {};
      }
    }
    forall n | n in mutexes
      ensures MutexOk(tcbs1, mutexes[n])
    {
    }
  }

  lemma BooksAfterFree(tcbs: map<Task, Tcb>, mutexes: map<MutexId, Mutex>, t: Task)
    requires BooksOk(tcbs, mutexes) && forall m <- mutexes :: mutexes[m].holder != HeldBy(t)
    ensures BooksOk(tcbs - {t}, mutexes)
  {
    forall u | u in tcbs - {t}
      ensures HolderOk(tcbs - {t}, mutexes, u)
    {
      assert HolderOk(tcbs, mutexes, u);
    }
  }

  lemma KernelKeeps(y: System, step: Step)
    requires Good(y) && Possible(y, Kernel(step))
    ensures Good(Perform(y, Kernel(step)))
  {
    hide Inv, BooksOk;
    StepKeeps(y.kernel, step);
    match step
    case Create(t, priority) =>
      CreateTcbs(y.kernel, t, priority);
      BooksAfterPriority(y.kernel.tcbs, y.mutexes, t, Tcb(Clip(priority), Clip(priority), 0));
    case CleanUp =>
      CleanUpTcbs(y.kernel);
      if Items(y.kernel, Termination) != [] {
        BooksAfterFree(y.kernel.tcbs, y.mutexes, Items(y.kernel, Termination)[0].task);
      }
    case SetPriority(t, priority) =>
      SetPriorityTcbs(y.kernel, t, priority);
      if t in y.kernel.tcbs {
        HoldsOwnPriority(y, t);
        BooksAfterPriority(y.kernel.tcbs, y.mutexes, t, WithPriority(y.kernel.tcbs[t], Clip(priority)));
      }
    case _ => TcbsKept(y.kernel, step);
  }

  lemma HoldsOwnPriority(y: System, t: Task)
    requires Good(y) && t in y.kernel.tcbs
    ensures HolderOk(y.kernel.tcbs, y.mutexes, t)
  {
    hide Inv;
  }

  lemma MutexIsOk(y: System, m: MutexId)
    requires Good(y) && m in y.mutexes
    ensures MutexOk(y.kernel.tcbs, y.mutexes[m])
  {
    hide Inv;
  }

  lemma CurrentHasTcb(s: State)
    requires Inv(s)
    ensures s.current in s.tcbs
  {
    hide Core, AllPlaced;
  }

  lemma AcquireKeeps(y: System, m: MutexId, calls: nat)
    requires Good(y) && m in y.mutexes && y.mutexes[m].count > 0
    requires calls == if y.mutexes[m].recursive then 1 else 0
    ensures Good(Acquire(y, m, calls))
  {
    hide Inv, BooksOk, StaysPut;
    var t := y.kernel.current;
    CurrentHasTcb(y.kernel);
    TakeMutexKeeps(y.kernel);
    MutexIsOk(y, m);
    HoldsOwnPriority(y, t);
    BooksAfter(y.kernel.tcbs, y.mutexes, m, Mutex(y.mutexes[m].recursive, 0, HeldBy(t), calls), t,
               y.kernel.tcbs[t].(mutexesHeld := y.kernel.tcbs[t].mutexesHeld + 1));
  }

  /** A holder's count is not zero. */
  lemma HolderCounts(y: System, m: MutexId, t: Task)
    requires Good(y) && m in y.mutexes && y.mutexes[m].holder == HeldBy(t)
    ensures t in y.kernel.tcbs && y.kernel.tcbs[t].mutexesHeld > 0
  {
    hide Inv;
    assert MutexOk(y.kernel.tcbs, y.mutexes[m]);
    assert HolderOk(y.kernel.tcbs, y.mutexes, t);
    assert m in Held(y.mutexes, t);
  }

  lemma ReleaseKeeps(y: System, m: MutexId)
    requires Good(y) && m in y.mutexes
    requires y.mutexes[m].holder == HeldBy(y.kernel.current) && CallerReady(y.kernel)
    ensures Good(Release(y.(mutexes := y.mutexes[m := y.mutexes[m].(calls := 0)]), m))
  {
    hide Inv, BooksOk, StaysPut, DoDisinherit, CallerReady;
    var t := y.kernel.current;
    HolderCounts(y, m, t);
    MutexIsOk(y, m);
    HoldsOwnPriority(y, t);
    DisinheritKeeps(y.kernel, t);
    DisinheritTcbs(y.kernel, t);
    var mutex := Mutex(y.mutexes[m].recursive, 1, NoTask, 0);
    BooksAfter(y.kernel.tcbs, y.mutexes, m, mutex, t, Disinherited(y.kernel.tcbs[t]));
    assert y.mutexes[m := y.mutexes[m].(calls := 0)][m := mutex] == y.mutexes[m := mutex];
  }

  lemma ContendKeeps(y: System, m: MutexId)
    requires Good(y) && Possible(y, Contend(m))
    ensures Good(Perform(y, Contend(m)))
  {
    hide Inv, BooksOk, StaysPut, DoInherit;
    MutexIsOk(y, m);
    if y.mutexes[m].holder.HeldBy? {
      var t := y.mutexes[m].holder.task;
      HolderCounts(y, m, t);
      InheritKeeps(y.kernel, t);
      InheritTcbs(y.kernel, t);
      BooksAfterPriority(y.kernel.tcbs, y.mutexes, t,
                         y.kernel.tcbs[t].(priority := PriorityOf(y.kernel, y.kernel.current)));
    }
  }

  lemma CreateMutexKeeps(y: System, m: MutexId, recursive: bool)
    requires Good(y) && m !in y.mutexes
    ensures Good(Perform(y, CreateMutex(m, recursive)))
  {
    hide Inv, BooksOk;
    var t := y.kernel.current;
    CurrentHasTcb(y.kernel);
    HoldsOwnPriority(y, t);
    var mutex := Mutex(recursive, 1, NoTask, 0);
    BooksAfter(y.kernel.tcbs, y.mutexes, m, mutex, t, y.kernel.tcbs[t]);
    assert y.kernel.tcbs[t := y.kernel.tcbs[t]] == y.kernel.tcbs;
    assert y.mutexes[m := Mutex(recursive, 0, NoTask, 0)][m := mutex] == y.mutexes[m := mutex];
  }

  /** A call count changes that stays positive. */
  lemma RecountKeeps(y: System, m: MutexId, calls: nat)
    requires Good(y) && m in y.mutexes && y.mutexes[m].recursive && calls > 0
    requires y.mutexes[m].holder == HeldBy(y.kernel.current)
    ensures Good(y.(mutexes := y.mutexes[m := y.mutexes[m].(calls := calls)]))
  {
    hide Inv, BooksOk;
    var t := y.kernel.current;
    CurrentHasTcb(y.kernel);
    MutexIsOk(y, m);
    HoldsOwnPriority(y, t);
    BooksAfter(y.kernel.tcbs, y.mutexes, m, y.mutexes[m].(calls := calls), t, y.kernel.tcbs[t]);
    assert y.kernel.tcbs[t := y.kernel.tcbs[t]] == y.kernel.tcbs;
  }

  lemma GiveKeeps(y: System, m: MutexId)
    requires Good(y) && Possible(y, Give(m))
    ensures Good(Perform(y, Give(m)))
  {
    hide Good, DoDisinherit, CallerReady;
    MutexIsOk(y, m);
    if y.mutexes[m].holder != NoTask {
      ReleaseKeeps(y, m);
      assert y.mutexes[m := y.mutexes[m].(calls := 0)] == y.mutexes;
    }
  }

  lemma ActionKeeps(y: System, action: Action)
    requires Good(y) && Possible(y, action)
    ensures Good(Perform(y, action))
  {
    hide BooksOk, Inv, DoDisinherit, DoTakeMutex, DoInherit, Apply, Allowed, CallerReady;
    match action
    case Kernel(step) => KernelKeeps(y, step);
    case CreateMutex(m, recursive) => CreateMutexKeeps(y, m, recursive);
    case Take(m) =>
      MutexIsOk(y, m);
      AcquireKeeps(y, m, 0);
    case Contend(m) => ContendKeeps(y, m);
    case Give(m) => GiveKeeps(y, m);
    case TakeRecursive(m) =>
      MutexIsOk(y, m);
      if y.mutexes[m].holder == HeldBy(y.kernel.current) {
        RecountKeeps(y, m, y.mutexes[m].calls + 1);
      } else {
        AcquireKeeps(y, m, y.mutexes[m].calls + 1);
      }
    case GiveRecursive(m) =>
      MutexIsOk(y, m);
      if y.mutexes[m].holder == HeldBy(y.kernel.current) {
        if y.mutexes[m].calls > 1 {
          RecountKeeps(y, m, y.mutexes[m].calls - 1);
        } else {
          ReleaseKeeps(y, m);
        }
      }
  }

  // ---- Runs ----

  ghost predicate PossibleRun(y: System, actions: seq<Action>)
    requires Good(y)
    decreases |actions|
  {
    actions == []
    || (Possible(y, actions[0]) && (ActionKeeps(y, actions[0]); PossibleRun(Perform(y, actions[0]), actions[1..])))
  }

  function PerformAll(y: System, actions: seq<Action>): System
    requires Good(y) && PossibleRun(y, actions)
    decreases |actions|
  {
    if actions == [] then y
    else
      ActionKeeps(y, actions[0]);
      PerformAll(Perform(y, actions[0]), actions[1..])
  }

  lemma {:induction false} PerformAllKeeps(y: System, actions: seq<Action>)
    requires Good(y) && PossibleRun(y, actions)
    ensures Good(PerformAll(y, actions))
    decreases |actions|
  {
    hide Inv, BooksOk, Possible, Perform;
    if actions != [] {
      ActionKeeps(y, actions[0]);
      PerformAllKeeps(Perform(y, actions[0]), actions[1..]);
    }
  }

  function Start(setup: Setup): System {
    System(Boot(setup), map[])
  }

  lemma FreshIsGood(s: State)
    requires Inv(s) && Fresh(s)
    ensures Good(System(s, map[]))
  {
    hide Inv;
    assert forall t :: Held(map[], t) == {};
  }

  lemma StartIsGood(setup: Setup)
    requires IsSetup(setup)
    ensures Good(Start(setup))
  {
    hide Good, Boot, Fresh, Inv;
    BootIsGood(setup);
    FreshIsGood(Boot(setup));
  }

  ghost predicate IsHistory(setup: Setup, actions: seq<Action>) {
    IsSetup(setup) && (StartIsGood(setup); PossibleRun(Start(setup), actions))
  }

  /** Mutex bookkeeping: in every reachable state each task counts exactly the mutexes that name it
      as holder, a mutex is full exactly when it has no holder, and a task that holds none runs at
      its own priority, whatever priorities have been set. */
  lemma MutexBooksBalance(setup: Setup, actions: seq<Action>)
    requires IsHistory(setup, actions)
    ensures var y := (StartIsGood(setup); PerformAll(Start(setup), actions));
            var tcbs, mutexes := y.kernel.tcbs, y.mutexes;
            && (forall t <- tcbs :: tcbs[t].mutexesHeld == |Held(mutexes, t)|)
            && (forall t <- tcbs :: Held(mutexes, t) == {} ==> tcbs[t].priority == tcbs[t].basePriority)
            && (forall m <- mutexes :: mutexes[m].count == if mutexes[m].holder == NoTask then 1 else 0)
  {
    hide Inv, PerformAll, PossibleRun, Boot;
    StartIsGood(setup);
    PerformAllKeeps(Start(setup), actions);
    var y := PerformAll(Start(setup), actions);
    forall t | t in y.kernel.tcbs
      ensures HolderOk(y.kernel.tcbs, y.mutexes, t)
    {
    }
    forall m | m in y.mutexes
      ensures MutexOk(y.kernel.tcbs, y.mutexes[m])
    {
    }
  }
}
