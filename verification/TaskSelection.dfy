/** Which task runs: while the idle task never blocks there is always a ready task to select, the
    scan and the bitmap select the same priority, it is the highest, and tasks of that priority
    take turns. */
module TaskSelection {
  import opened RingList
  import opened ItemStore
  import opened TaskState
  import opened TaskSteps
  import opened TaskInvariant
  import opened TaskRuns

  /** The idle task is not deleted or suspended, and makes no blocking call. */
  ghost predicate SparesIdle(s: State, step: Step, idle: Task) {
    match step
    case Delete(t) => t != idle
    case SuspendTask(t) => t != idle
    case Delay(_) => s.current != idle
    case DelayUntil(_, _) => s.current != idle
    case PlaceOnEventList(_, _) => s.current != idle
    case PlaceOnUnorderedEventList(_, _, _) => s.current != idle
    case _ => true
  }

  ghost predicate AllSpareIdle(s: State, steps: seq<Step>, idle: Task)
    requires Inv(s) && Permitted(s, steps)
    decreases |steps|
  {
    steps == []
    || (SparesIdle(s, steps[0], idle) && (StepKeeps(s, steps[0]); AllSpareIdle(Apply(s, steps[0]), steps[1..], idle)))
  }

  ghost predicate IdleIsSpared(setup: Setup, steps: seq<Step>)
    requires IsRun(setup, steps)
  {
    BootIsGood(setup);
    AllSpareIdle(Boot(setup), steps, setup.idle)
  }

  /** A ready task is on no event list, so no event is for it. */
  lemma SparedIsLeftAlone(s: State, step: Step, idle: Task)
    requires Inv(s) && Allowed(s, step) && SparesIdle(s, step, idle)
    requires SleepsUntil(s, idle, 0)
    ensures LeavesAlone(s, step, idle)
  {
    hide Consistent, ReadyOk, TimeAt;
    assert WellPlaced(s, idle);
    if step.RemoveFromEventList? {
      RemoveFromEventListKeeps(s, step.list);
    }
  }

  lemma {:induction false} IdleStaysReady(s: State, steps: seq<Step>, idle: Task)
    requires Inv(s) && Permitted(s, steps) && AllSpareIdle(s, steps, idle)
    requires SleepsUntil(s, idle, 0)
    ensures SleepsUntil(Run(s, steps), idle, 0)
    decreases |steps|
  {
    hide Inv, SleepsUntil, SparesIdle, LeavesAlone, Allowed, Apply;
    if steps != [] {
      StepKeeps(s, steps[0]);
      SparedIsLeftAlone(s, steps[0], idle);
      StepWhileAsleep(s, steps[0], idle, 0);
      IdleStaysReady(Apply(s, steps[0]), steps[1..], idle);
    }
  }

  lemma BootIsReady(setup: Setup)
    requires IsSetup(setup)
    ensures Inv(Boot(setup)) && SleepsUntil(Boot(setup), setup.idle, 0)
  {
    hide Core, Counted, TicksAccounted, Boot;
    BootIsGood(setup);
    assert WellPlaced(Boot(setup), setup.idle);
  }

  /** In every reachable state in which the idle task has been spared there is a task to select:
      the scan ends on a ready list, its priority is the highest set bit, and the task switched to
      is a ready task of the highest priority of all ready tasks. */
  lemma SelectsHighestPriority(setup: Setup, steps: seq<Step>)
    requires IsRun(setup, steps) && IdleIsSpared(setup, steps)
    ensures var s := Reached(setup, steps);
            && Inv(s) && Allowed(s, SwitchContext)
            && Scan(s, s.top) in s.bits && (forall p <- s.bits :: p <= Scan(s, s.top))
            && (s.suspensions == 0 ==>
                  var s1 := Apply(s, SwitchContext);
                  && IsReady(s1, s1.current)
                  && PriorityOf(s1, s1.current) == Scan(s, s.top)
                  && forall t :: IsReady(s, t) ==> PriorityOf(s, t) <= PriorityOf(s1, s1.current))
  {
    hide Inv, Run, Permitted, AllSpareIdle, SleepsUntil, IsReady, Scan, PriorityOf, NobodyMoved, Boot;
    BootIsReady(setup);
    RunKeeps(Boot(setup), steps);
    IdleStaysReady(Boot(setup), steps, setup.idle);
    var s := Reached(setup, steps);
    ReadyHasBit(s, setup.idle);
    Selects(s);
  }

  lemma ReadyHasBit(s: State, t: Task)
    requires Inv(s) && SleepsUntil(s, t, 0)
    ensures s.bits != {}
  {
    hide SortedList, TimeAt;
    var p := StateOf(s, t).list.priority;
    assert Member(s.store, Generic(t), Ready(p));
    assert Items(s, Ready(p)) != [];
  }

  lemma Selects(s: State)
    requires Inv(s) && s.bits != {}
    ensures Scan(s, s.top) in s.bits && (forall p <- s.bits :: p <= Scan(s, s.top))
    ensures s.suspensions == 0 ==>
              var s1 := DoSwitchContext(s);
              && IsReady(s1, s1.current)
              && PriorityOf(s1, s1.current) == Scan(s, s.top)
              && forall t :: IsReady(s, t) ==> PriorityOf(s, t) <= PriorityOf(s1, s1.current)
  {
    hide SortedList, TimeAt, DoSwitchContext, Scan, Consistent, NobodyMoved;
    ScanFindsHighestBit(s);
    if s.suspensions == 0 {
      SwitchContextKeeps(s);
      forall t | IsReady(s, t)
        ensures PriorityOf(s, t) <= Scan(s, s.top)
      {
        ReadyPriorityIsSet(s, t);
      }
    }
  }

  lemma ReadyPriorityIsSet(s: State, t: Task)
    requires Inv(s) && IsReady(s, t)
    ensures PriorityOf(s, t) in s.bits && StateOf(s, t) == On(Ready(PriorityOf(s, t)))
  {
    hide SortedList, TimeAt;
    var p := StateOf(s, t).list.priority;
    assert Member(s.store, Generic(t), Ready(p));
  }

  // ---- Taking turns ----

  /** The tasks that `n` switches in a row select. */
  function Turns(s: State, n: nat): seq<Task>
    decreases n
  {
    if n == 0 then [] else [DoSwitchContext(s).current] + Turns(DoSwitchContext(s), n - 1)
  }

  lemma ScanIsStable(s: State, s1: State, p: nat)
    requires forall l :: Items(s1, l) == Items(s, l)
    ensures Scan(s1, p) == Scan(s, p)
  {
  }

  /** Switches in a row walk round the ready list of the highest priority. */
  lemma {:induction false} TurnsWalk(s: State, n: nat)
    requires s.suspensions == 0 && Items(s, Ready(Scan(s, s.top))) != []
    ensures |Turns(s, n)| == n
    ensures forall i :: 0 <= i < n ==> Turns(s, n)[i] == Walk(At(s.store, Ready(Scan(s, s.top))), n)[i].task
    decreases n
  {
    if n > 0 {
      var p, s1 := Scan(s, s.top), DoSwitchContext(s);
      ScanIsStable(s, s1, p);
      hide Scan;
      TurnsWalk(s1, n - 1);
    }
  }

  /** Round robin: as many switches in a row as there are ready tasks of the highest priority
      select each of them once, from wherever the index stands. */
  lemma EverybodyGetsATurn(s: State, t: Task)
    requires Inv(s) && s.suspensions == 0 && s.bits != {}
    requires StateOf(s, t) == On(Ready(Scan(s, s.top)))
    ensures var n := |Items(s, Ready(Scan(s, s.top)))|;
            && |Turns(s, n)| == n && t in Turns(s, n)
            && forall i, j :: 0 <= i < j < n ==> Turns(s, n)[i] != Turns(s, n)[j]
  {
    hide SortedList, TimeAt, Scan, DoSwitchContext, Walk;
    ScanFindsHighestBit(s);
    var r := At(s.store, Ready(Scan(s, s.top)));
    var n := |r.items|;
    TurnsWalk(s, n);
    WalkOnceEach(r);
    var w := Walk(r, n);
    forall i | 0 <= i < n
      ensures w[i].Generic?
    {
      assert Member(s.store, w[i], Ready(Scan(s, s.top)));
    }
    assert Member(s.store, Generic(t), Ready(Scan(s, s.top)));
    assert Turns(s, n)[IndexOf(w, Generic(t))] == t;
  }
}
