/** What the single moves of items keep, in terms of tasks: the core of the invariant, and every
    task but the one that is moved. */
module TaskMoves {
  import opened Ticks
  import opened ItemStore
  import opened TaskState
  import opened TaskTick

  // ---- What a step may touch ----

  ghost predicate SameTask(s: State, s1: State, u: Task) {
    && StateOf(s1, u) == StateOf(s, u) && WaitOf(s1, u) == WaitOf(s, u)
    && Value(s1.store, Generic(u)) == Value(s.store, Generic(u))
    && (u in s1.tcbs <==> u in s.tcbs)
  }

  /** No other task than `t` has moved, come or gone, and no time has passed. */
  ghost predicate Only(s: State, s1: State, t: Task) {
    && SameClock(s, s1)
    && s1.interrupts == s.interrupts && s1.pendedTicks == s.pendedTicks
    && s1.suspensions == s.suspensions && s1.current == s.current
    && (forall u :: u != t ==> SameTask(s, s1, u))
  }

  /** Nor has the number of tasks changed. */
  ghost predicate Kept(s: State, s1: State) {
    && s1.tcbs.Keys == s.tcbs.Keys
    && s1.numberOfTasks == s.numberOfTasks && s1.tasksDeleted == s.tasksDeleted
    && |Items(s1, Termination)| == |Items(s, Termination)|
  }

  lemma OnlyTwice(s: State, s1: State, s2: State, t: Task)
    requires Only(s, s1, t) && Only(s1, s2, t)
    ensures Only(s, s2, t)
  {
    forall u | u != t
      ensures SameTask(s, s2, u)
    {
      assert SameTask(s, s1, u) && SameTask(s1, s2, u);
    }
  }

  /** If nobody but `t` has moved, and `t` has found a place, everybody has one. */
  lemma PlacedAfter(s: State, s1: State, t: Task)
    requires AllPlaced(s) && Only(s, s1, t) && WellPlaced(s1, t)
    ensures AllPlaced(s1)
  {
    forall u
      ensures WellPlaced(s1, u)
    {
      assert u != t ==> SameTask(s, s1, u);
    }
  }

  lemma InvAfter(s: State, s1: State, t: Task)
    requires Inv(s) && Core(s1) && Only(s, s1, t) && Kept(s, s1) && WellPlaced(s1, t)
    ensures Inv(s1)
  {
    hide Consistent, ReadyOk, TimeAt, Wrap;
    PlacedAfter(s, s1, t);
    SameCardinality(s, s1);
  }

  lemma SameCardinality(s: State, s1: State)
    requires s1.tcbs.Keys == s.tcbs.Keys
    ensures |s1.tcbs| == |s.tcbs|
  {
    assert |s.tcbs| == |s.tcbs.Keys| && |s1.tcbs| == |s1.tcbs.Keys|;
  }

  // ---- The single moves, in these terms ----

  lemma MovedOnly(s: State, s1: State, t: Task, place: Place)
    requires OnlyMoved(s, s1, t, place)
    ensures Only(s, s1, t) && WaitOf(s1, t) == WaitOf(s, t) && StateOf(s1, t) == place
    ensures StateOf(s, t) != On(Termination) && place != On(Termination) ==> Kept(s, s1)
    ensures s1.tcbs == s.tcbs
  {
  }

  lemma StoreOnly(s: State, t: Task, l: ListId)
    ensures PutAtEnd(s, t, l) == s.(store := PutAtEnd(s, t, l).store)
    ensures TakeOff(s, t) == s.(store := TakeOff(s, t).store)
  {
  }

  lemma LeaveStep(s: State, t: Task)
    requires Core(s) && StateOf(s, t).On?
    ensures Core(Leave(s, t)) && Only(s, Leave(s, t), t)
    ensures StateOf(Leave(s, t), t) == Nowhere && WaitOf(Leave(s, t), t) == WaitOf(s, t)
    ensures StateOf(s, t) != On(Termination) ==> Kept(s, Leave(s, t))
    ensures Leave(s, t).tcbs == s.tcbs
  {
    hide Consistent, ReadyOk, TimeAt, Leave;
    LeaveKeeps(s, t, s.tick);
    MovedOnly(s, Leave(s, t), t, Nowhere);
  }

  lemma ReadyStep(s: State, t: Task)
    requires Core(s) && StateOf(s, t) == Nowhere && t in s.tcbs
    ensures Core(AddToReady(s, t)) && Only(s, AddToReady(s, t), t)
    ensures StateOf(AddToReady(s, t), t) == On(Ready(PriorityOf(s, t))) && WaitOf(AddToReady(s, t), t) == WaitOf(s, t)
    ensures Kept(s, AddToReady(s, t)) && AddToReady(s, t).tcbs == s.tcbs
  {
    hide Consistent, ReadyOk, TimeAt, AddToReady;
    AddToReadyKeeps(s, t, s.tick);
    MovedOnly(s, AddToReady(s, t), t, On(Ready(PriorityOf(s, t))));
  }

  lemma EndStep(s: State, t: Task, l: ListId)
    requires Core(s) && StateOf(s, t) == Nowhere
    requires l == Suspended || l == Termination
    ensures Core(PutAtEnd(s, t, l)) && Only(s, PutAtEnd(s, t, l), t)
    ensures StateOf(PutAtEnd(s, t, l), t) == On(l) && WaitOf(PutAtEnd(s, t, l), t) == WaitOf(s, t)
    ensures l == Suspended ==> Kept(s, PutAtEnd(s, t, l))
    ensures l == Termination ==> |Items(PutAtEnd(s, t, l), l)| == |Items(s, l)| + 1
    ensures PutAtEnd(s, t, l) == s.(store := PutAtEnd(s, t, l).store)
  {
    hide Consistent, ReadyOk, TimeAt, PutAtEnd;
    PutAtEndKeeps(s, t, l, s.tick);
    MovedOnly(s, PutAtEnd(s, t, l), t, On(l));
    StoreOnly(s, t, l);
  }

  lemma DelayStep(s: State, t: Task, wake: nat)
    requires Core(s) && StateOf(s, t) == Nowhere
    requires wake <= MAX_DELAY && wake != s.tick
    ensures Core(AddToDelayed(s, t, wake)) && Only(s, AddToDelayed(s, t, wake), t)
    ensures StateOf(AddToDelayed(s, t, wake), t) == On(DelayedListFor(s, wake))
    ensures WaitOf(AddToDelayed(s, t, wake), t) == WaitOf(s, t)
    ensures Value(AddToDelayed(s, t, wake).store, Generic(t)) == wake
    ensures Kept(s, AddToDelayed(s, t, wake)) && AddToDelayed(s, t, wake).tcbs == s.tcbs
  {
    hide Consistent, ReadyOk, TimeAt, AddToDelayed;
    AddToDelayedKeeps(s, t, wake);
    MovedOnly(s, AddToDelayed(s, t, wake), t, On(DelayedListFor(s, wake)));
  }

  lemma TakeOffStep(s: State, t: Task)
    requires Core(s) && StateOf(s, t).On? && !StateOf(s, t).list.Ready?
    ensures Core(TakeOff(s, t)) && Only(s, TakeOff(s, t), t)
    ensures StateOf(TakeOff(s, t), t) == Nowhere && WaitOf(TakeOff(s, t), t) == WaitOf(s, t)
    ensures StateOf(s, t) != On(Termination) ==> Kept(s, TakeOff(s, t))
    ensures StateOf(s, t) == On(Termination) ==> |Items(TakeOff(s, t), Termination)| == |Items(s, Termination)| - 1
    ensures TakeOff(s, t) == s.(store := TakeOff(s, t).store)
  {
    hide Consistent, ReadyOk, TimeAt, TakeOff;
    TakeOffKeeps(s, t, s.tick);
    MovedOnly(s, TakeOff(s, t), t, Nowhere);
    StoreOnly(s, t, Termination);
  }

  lemma DropEventStep(s: State, t: Task)
    requires Core(s)
    ensures Core(DropEvent(s, t)) && Only(s, DropEvent(s, t), t)
    ensures StateOf(DropEvent(s, t), t) == StateOf(s, t) && WaitOf(DropEvent(s, t), t) == Nowhere
    ensures Kept(s, DropEvent(s, t)) && DropEvent(s, t).tcbs == s.tcbs
  {
    hide Consistent, ReadyOk, TimeAt, DropEvent;
    DropEventKeeps(s, t, s.tick);
  }

  lemma PutEventStep(s: State, t: Task, l: ListId, k: nat)
    requires Core(s) && WaitOf(s, t) == Nowhere
    requires !IsStateList(l) && k <= |Items(s, l)|
    ensures Core(PutEvent(s, t, l, k)) && Only(s, PutEvent(s, t, l, k), t)
    ensures StateOf(PutEvent(s, t, l, k), t) == StateOf(s, t) && WaitOf(PutEvent(s, t, l, k), t) == On(l)
    ensures Kept(s, PutEvent(s, t, l, k)) && PutEvent(s, t, l, k).tcbs == s.tcbs
  {
    hide Consistent, ReadyOk, TimeAt, PutEvent;
    PutEventKeeps(s, t, l, k, s.tick);
  }

  lemma EventValueStep(s: State, t: Task, v: nat)
    requires Core(s)
    ensures Core(SetEventValue(s, t, v)) && Only(s, SetEventValue(s, t, v), t)
    ensures StateOf(SetEventValue(s, t, v), t) == StateOf(s, t) && WaitOf(SetEventValue(s, t, v), t) == WaitOf(s, t)
    ensures Value(SetEventValue(s, t, v).store, Generic(t)) == Value(s.store, Generic(t))
    ensures forall l :: Items(SetEventValue(s, t, v), l) == Items(s, l)
    ensures Kept(s, SetEventValue(s, t, v)) && SetEventValue(s, t, v).tcbs == s.tcbs
  {
    hide Consistent, ReadyOk, TimeAt, SetEventValue;
    SetEventValueKeeps(s, t, v, s.tick);
  }

  lemma TcbStep(s: State, t: Task, tcb: Tcb)
    requires Core(s) && t in s.tcbs
    requires tcb.priority < PRIORITIES && tcb.basePriority < PRIORITIES
    requires tcb.priority == s.tcbs[t].priority || (StateOf(s, t).On? ==> !StateOf(s, t).list.Ready?)
    ensures var s1 := s.(tcbs := s.tcbs[t := tcb]);
            Core(s1) && Only(s, s1, t) && Kept(s, s1) && StateOf(s1, t) == StateOf(s, t)
            && WaitOf(s1, t) == WaitOf(s, t)
  {
    hide Consistent, ReadyOk, TimeAt;
    SetTcbKeeps(s, t, tcb, s.tick);
  }

  lemma ResetStep(s: State, t: Task)
    requires Core(s)
    ensures Core(ResetNextUnblock(s)) && Only(s, ResetNextUnblock(s), t)
    ensures StateOf(ResetNextUnblock(s), t) == StateOf(s, t) && WaitOf(ResetNextUnblock(s), t) == WaitOf(s, t)
    ensures Kept(s, ResetNextUnblock(s)) && Items(ResetNextUnblock(s), Termination) == Items(s, Termination)
    ensures ResetNextUnblock(s).tcbs == s.tcbs
  {
    LowerUnblockKeeps(s, 0, s.tick);
    ResetNextUnblockKeeps(s, s.(nextUnblock := 0), s.tick);
  }
}
