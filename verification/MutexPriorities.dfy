/** What mutexes do to priorities, and how recursive calls add up, over every history of scheduler and
    mutexes together. */
module MutexPriorities {
  import opened ItemStore
  import opened TaskState
  import opened TaskSteps
  import opened TaskInvariant
  import opened TaskRuns
  import opened TaskPriorities
  import opened Mutexes

  // ---- Contention ----

  /** The holder of the mutex now runs at the caller's priority, if that is higher than its own; it keeps
      its own for later, and its mutexes.  No other task has changed, and no mutex has changed hands. */
  ghost predicate Raised(y: System, y1: System, m: MutexId) {
    && m in y.mutexes && y1.mutexes == y.mutexes
    && match y.mutexes[m].holder
       case NoTask => y1.kernel.tcbs == y.kernel.tcbs
       case HeldBy(t) =>
         && t in y.kernel.tcbs && y.kernel.current in y.kernel.tcbs
         && var p, q := y.kernel.tcbs[t].priority, y.kernel.tcbs[y.kernel.current].priority;
            y1.kernel.tcbs == y.kernel.tcbs[t := y.kernel.tcbs[t].(priority := if p < q then q else p)]
  }

  /** Whoever wants a mutex that is held raises its holder. */
  lemma ContentionRaises(y: System, m: MutexId)
    requires Good(y) && m in y.mutexes
    ensures Raised(y, Contended(y, m), m)
  {
    hide Inv, BooksOk, DoInherit;
    CurrentHasTcb(y.kernel);
    if y.mutexes[m].holder.HeldBy? {
      HolderCounts(y, m, y.mutexes[m].holder.task);
      InheritTcbs(y.kernel, y.mutexes[m].holder.task);
    }
  }

  /** The holder has given the mutex: it is full, and nobody's.  The holder has one mutex fewer, and with
      the last of them it goes back to its own priority; no other task and no other mutex has changed. */
  ghost predicate Returned(y: System, y1: System, m: MutexId, t: Task) {
    && m in y.mutexes && t in y.kernel.tcbs
    && y1.mutexes == y.mutexes[m := y.mutexes[m].(count := 1, holder := NoTask)]
    && var p := if Held(y.mutexes, t) == {m} then y.kernel.tcbs[t].basePriority else y.kernel.tcbs[t].priority;
       y1.kernel.tcbs ==
         y.kernel.tcbs[t := Tcb(p, y.kernel.tcbs[t].basePriority, |Held(y.mutexes, t) - {m}|)]
  }

  /** Giving a mutex, with its call count set. */
  lemma GivesBack(y: System, m: MutexId, calls: nat, t: Task)
    requires Good(y) && m in y.mutexes && y.mutexes[m].holder == HeldBy(t)
    ensures var y0 := y.(mutexes := y.mutexes[m := y.mutexes[m].(calls := calls)]); Returned(y0, Release(y0, m), m, t)
    ensures y.mutexes[m].calls == calls ==> Returned(y, Release(y, m), m, t)
  {
    hide Inv, DoDisinherit;
    MutexIsOk(y, m);
    HolderCounts(y, m, t);
    HoldsOwnPriority(y, t);
    DisinheritTcbs(y.kernel, t);
    var y0 := y.(mutexes := y.mutexes[m := y.mutexes[m].(calls := calls)]);
    assert Held(y0.mutexes, t) == Held(y.mutexes, t) && m in Held(y.mutexes, t);
    assert y0.mutexes[m := y0.mutexes[m].(count := 1, holder := NoTask)]
           == y.mutexes[m := Mutex(y.mutexes[m].recursive, 1, NoTask, calls)];
    assert y.mutexes[m].calls == calls ==> y0.mutexes == y.mutexes;
    if |Held(y.mutexes, t)| == 1 {
      OnlyOne(Held(y.mutexes, t), m);
    }
  }

  lemma OnlyOne(s: set<MutexId>, m: MutexId)
    requires |s| == 1 && m in s
    ensures s == {m}
  {
    assert |s - {m}| == 0;
  }

  /** The caller has the mutex, and counts one more. */
  ghost predicate Obtained(y: System, y1: System, m: MutexId, calls: nat) {
    var t := y.kernel.current;
    && m in y.mutexes && t in y.kernel.tcbs
    && y1.mutexes == y.mutexes[m := Mutex(y.mutexes[m].recursive, 0, HeldBy(t), calls)]
    && y1.kernel.tcbs == y.kernel.tcbs[t := y.kernel.tcbs[t].(mutexesHeld := y.kernel.tcbs[t].mutexesHeld + 1)]
  }

  /** What each action does: a new mutex is full and nobody's; a full one goes to whoever takes it; a taken
      one passes the caller's priority to its holder; and given, it ends what the holder had by it. */
  lemma ActionsDo(y: System, action: Action)
    requires Good(y) && Possible(y, action)
    ensures var y1 := Perform(y, action);
            match action
            case Kernel(step) => y1 == y.(kernel := Apply(y.kernel, step))
            case CreateMutex(m, recursive) => y1 == y.(mutexes := y.mutexes[m := Mutex(recursive, 1, NoTask, 0)])
            case Take(m) => Obtained(y, y1, m, 0)
            case Contend(m) => Raised(y, y1, m)
            case Give(m) =>
              if y.mutexes[m].holder == NoTask then y1 == y else Returned(y, y1, m, y.kernel.current)
            case TakeRecursive(m) =>
              if y.mutexes[m].holder == NoTask then Obtained(y, y1, m, 1)
              else y1 == y.(mutexes := y.mutexes[m := y.mutexes[m].(calls := y.mutexes[m].calls + 1)])
            case GiveRecursive(m) =>
              var mutex := y.mutexes[m];
              if mutex.holder != HeldBy(y.kernel.current) then y1 == y
              else if mutex.calls > 1 then y1 == y.(mutexes := y.mutexes[m := mutex.(calls := mutex.calls - 1)])
              else Returned(y.(mutexes := y.mutexes[m := mutex.(calls := 0)]), y1, m, y.kernel.current)
  {
    hide Inv, BooksOk, DoInherit, DoDisinherit, Apply, Allowed, CallerReady, Returned, Raised;
    CurrentHasTcb(y.kernel);
    match action
    case Kernel(_) =>
    case CreateMutex(m, recursive) =>
      assert y.mutexes[m := Mutex(recursive, 0, NoTask, 0)][m := Mutex(recursive, 1, NoTask, 0)]
             == y.mutexes[m := Mutex(recursive, 1, NoTask, 0)];
    case Take(m) => MutexIsOk(y, m);
    case Contend(m) => ContentionRaises(y, m);
    case Give(m) =>
      MutexIsOk(y, m);
      if y.mutexes[m].holder != NoTask { GivesBack(y, m, 0, y.kernel.current); }
    case TakeRecursive(m) => MutexIsOk(y, m);
    case GiveRecursive(m) =>
      MutexIsOk(y, m);
      if HeldByCaller(y, m) { GivesBack(y, m, 0, y.kernel.current); }
  }

  /** The action leaves `t` with a mutex, and does not set its priority. */
  ghost predicate StaysHolder(y: System, action: Action, t: Task)
    requires Good(y) && Possible(y, action)
  {
    && Held(Perform(y, action).mutexes, t) != {}
    && !(action.Kernel? && action.step.SetPriority? && action.step.task == t)
  }

  /** A task that keeps a mutex keeps at least the priority it runs at. */
  lemma HolderKeepsPriority(y: System, action: Action, t: Task)
    requires Good(y) && Possible(y, action) && t in y.kernel.tcbs && Held(y.mutexes, t) != {}
    requires StaysHolder(y, action, t)
    ensures t in Perform(y, action).kernel.tcbs
    ensures Perform(y, action).kernel.tcbs[t].priority >= y.kernel.tcbs[t].priority
  {
    hide Inv, BooksOk, DoInherit, DoDisinherit, DoTakeMutex, Allowed, Apply, CallerReady;
    match action
    case Kernel(step) =>
      NotFreed(y, step, t);
      StepLetsInherit(y.kernel, step, t);
    case CreateMutex(m, _) =>
    case Take(m) => TakesOne(y.kernel, t);
    case Contend(m) => ContentionRaises(y, m);
    case Give(m) =>
      MutexIsOk(y, m);
      assert y.mutexes[m := y.mutexes[m].(calls := 0)] == y.mutexes;
      GivesOne(y, m, t, 0);
    case TakeRecursive(m) => TakesOne(y.kernel, t);
    case GiveRecursive(m) =>
      MutexIsOk(y, m);
      if HeldByCaller(y, m) && y.mutexes[m].calls == 1 {
        GivesOne(y, m, t, 0);
      }
  }

  /** Giving a mutex, with its call count set, leaves a task that still holds one at its priority. */
  lemma GivesOne(y: System, m: MutexId, t: Task, calls: nat)
    requires Good(y) && m in y.mutexes && t in y.kernel.tcbs
    requires var y1 := y.(mutexes := y.mutexes[m := y.mutexes[m].(calls := calls)]);
             Held(Release(y1, m).mutexes, t) != {}
    ensures var y1 := Release(y.(mutexes := y.mutexes[m := y.mutexes[m].(calls := calls)]), m);
            t in y1.kernel.tcbs && y1.kernel.tcbs[t].priority == y.kernel.tcbs[t].priority
  {
    hide Inv, DoDisinherit;
    var y0 := y.(mutexes := y.mutexes[m := y.mutexes[m].(calls := calls)]);
    if y.mutexes[m].count < 1 && y.mutexes[m].holder.HeldBy? {
      var h := y.mutexes[m].holder.task;
      HolderCounts(y, m, h);
      HoldsOwnPriority(y, t);
      DisinheritTcbs(y.kernel, h);
      var given := Mutex(y.mutexes[m].recursive, y.mutexes[m].count + 1, NoTask, calls);
      assert y0.mutexes[m := given] == y.mutexes[m := given];
      Renamed(y.mutexes, m, given, t);
      assert |Held(y.mutexes[m := given], t)| > 0;
    }
  }

  /** A task that holds a mutex is not freed. */
  lemma NotFreed(y: System, step: Step, t: Task)
    requires Good(y) && Possible(y, Kernel(step)) && t in y.kernel.tcbs && Held(y.mutexes, t) != {}
    requires step.SetPriority? ==> step.task != t
    ensures LetsInherit(y.kernel, step, t)
  {
    hide Inv, BooksOk;
    var m :| m in Held(y.mutexes, t);
  }

  lemma TakesOne(s: State, t: Task)
    requires t in s.tcbs
    ensures t in DoTakeMutex(s).tcbs && DoTakeMutex(s).tcbs[t].priority == s.tcbs[t].priority
  {
  }

  ghost predicate AllStayHolder(y: System, actions: seq<Action>, t: Task)
    requires Good(y) && PossibleRun(y, actions)
    decreases |actions|
  {
    actions == [] || (
      && StaysHolder(y, actions[0], t)
      && (ActionKeeps(y, actions[0]); AllStayHolder(Perform(y, actions[0]), actions[1..], t)))
  }

  lemma {:induction false} HolderOutlasts(y: System, actions: seq<Action>, t: Task)
    requires Good(y) && PossibleRun(y, actions) && AllStayHolder(y, actions, t)
    requires t in y.kernel.tcbs && Held(y.mutexes, t) != {}
    ensures t in PerformAll(y, actions).kernel.tcbs
    ensures PerformAll(y, actions).kernel.tcbs[t].priority >= y.kernel.tcbs[t].priority
    decreases |actions|
  {
    hide Inv, BooksOk, Possible, Perform, Held;
    if actions != [] {
      ActionKeeps(y, actions[0]);
      HolderKeepsPriority(y, actions[0], t);
      HolderOutlasts(Perform(y, actions[0]), actions[1..], t);
    }
  }

  /** Inheritance lasts: whatever scheduler and mutexes go on to do, a holder that a task has contended
      with runs at no less than that task's priority, and no less than before, for as long as it holds any
      mutex, unless it is given a new priority. */
  lemma ContentionLasts(y: System, m: MutexId, t: Task, actions: seq<Action>)
    requires Good(y) && Possible(y, Contend(m)) && y.mutexes[m].holder == HeldBy(t)
    requires Good(Contended(y, m)) && PossibleRun(Contended(y, m), actions)
    requires AllStayHolder(Contended(y, m), actions, t)
    ensures t in y.kernel.tcbs && y.kernel.current in y.kernel.tcbs
    ensures var y1 := PerformAll(Contended(y, m), actions);
            && t in y1.kernel.tcbs
            && y1.kernel.tcbs[t].priority >= y.kernel.tcbs[y.kernel.current].priority
            && y1.kernel.tcbs[t].priority >= y.kernel.tcbs[t].priority
  {
    hide Good, PossibleRun, PerformAll, AllStayHolder, Contended;
    ContentionRaises(y, m);
    HolderCounts(y, m, t);
    assert m in Held(y.mutexes, t);
    HolderOutlasts(Contended(y, m), actions, t);
  }

  // ---- Recursive calls ----

  /** The recursive takes of the mutex among the actions. */
  function Takes(actions: seq<Action>, m: MutexId): nat {
    if actions == [] then 0 else (if actions[0] == TakeRecursive(m) then 1 else 0) + Takes(actions[1..], m)
  }

  /** The recursive gives of the mutex by the task that holds it. */
  function Gives(y: System, actions: seq<Action>, m: MutexId): nat
    requires Good(y) && PossibleRun(y, actions) && m in y.mutexes
    decreases |actions|
  {
    if actions == [] then 0
    else
      ActionKeeps(y, actions[0]);
      MutexStays(y, actions[0], m);
      (if actions[0] == GiveRecursive(m) && y.mutexes[m].holder == HeldBy(y.kernel.current) then 1 else 0)
      + Gives(Perform(y, actions[0]), actions[1..], m)
  }

  lemma MutexStays(y: System, action: Action, m: MutexId)
    requires Good(y) && Possible(y, action) && m in y.mutexes
    ensures m in Perform(y, action).mutexes && Perform(y, action).mutexes[m].recursive == y.mutexes[m].recursive
  {
    hide Good, DoInherit, DoDisinherit, DoTakeMutex, Apply, Allowed, CallerReady;
  }

  /** One action on a recursive mutex: its call count goes up with a take and down with a give of its
      holder, and while it is not zero the mutex stays with its holder. */
  lemma CallsCount(y: System, action: Action, m: MutexId)
    requires Good(y) && Possible(y, action) && m in y.mutexes && y.mutexes[m].recursive
    ensures m in Perform(y, action).mutexes
    ensures var mutex, mutex1 := y.mutexes[m], Perform(y, action).mutexes[m];
            var given := action == GiveRecursive(m) && mutex.holder == HeldBy(y.kernel.current);
            && mutex1.calls + (if given then 1 else 0) == mutex.calls + (if action == TakeRecursive(m) then 1 else 0)
            && (mutex.calls > 0 && mutex1.calls > 0 ==> mutex1.holder == mutex.holder)
            && (mutex.calls == 0 && mutex1.calls > 0 ==> mutex1.holder == HeldBy(y.kernel.current))
  {
    hide Inv, BooksOk, DoInherit, DoDisinherit, DoTakeMutex, Apply, Allowed, CallerReady;
    MutexIsOk(y, m);
  }

  /** Takes and gives of a recursive mutex balance: over any history it is held after as many calls as
      takes exceed gives of its holder, and so it is full again exactly when there have been as many gives
      as takes, and no sooner. */
  lemma {:induction false} TakesAndGivesBalance(y: System, actions: seq<Action>, m: MutexId)
    requires Good(y) && PossibleRun(y, actions) && m in y.mutexes && y.mutexes[m].recursive
    ensures m in PerformAll(y, actions).mutexes
    ensures var mutex := PerformAll(y, actions).mutexes[m];
            && mutex.calls + Gives(y, actions, m) == y.mutexes[m].calls + Takes(actions, m)
            && (mutex.count == 1 <==> Gives(y, actions, m) == y.mutexes[m].calls + Takes(actions, m))
            && (mutex.holder == NoTask <==> mutex.count == 1)
    decreases |actions|
  {
    hide Inv, BooksOk, Possible, Perform, Held;
    if actions == [] {
      MutexIsOk(y, m);
    } else {
      ActionKeeps(y, actions[0]);
      CallsCount(y, actions[0], m);
      MutexStays(y, actions[0], m);
      TakesAndGivesBalance(Perform(y, actions[0]), actions[1..], m);
    }
  }
}
