/** Deleting an event group.  The waiting tasks are unblocked with no bits, but a task that has timed
    out and has not run since still has to read the group, which has been freed by then. */
module EventDeletion {
  import opened EventGroups

  /** Inside a call, off the list, and not handed a value: the task has timed out, and will read the
      group's bits, and perhaps clear some, when it runs. */
  predicate Stranded(s: State, t: Task) {
    t in s.calls && t !in s.group.waiting && UNBLOCKED !in ValueOf(s.group.values, t)
  }

  /** What the task would touch has been freed. */
  predicate TouchesFreed(s: State, t: Task) {
    s.deleted && Stranded(s, t)
  }

  /** In no history from here does a task touch the freed group. */
  ghost predicate Safe(s: State) {
    forall steps :: Permitted(s, steps) ==> forall t :: !TouchesFreed(Run(s, steps), t)
  }

  function AfterDelete(s: State): State
    requires !s.deleted
  {
    Apply(s, Delete)
  }

  lemma DeletedStrands(s: State, t: Task)
    requires !s.deleted
    ensures TouchesFreed(AfterDelete(s), t) <==> Stranded(s, t)
  {
    MarkedValues(s.group.values, s.group.waiting, Notice({}));
  }

  /** After the deletion tasks only finish. */
  ghost predicate NobodyStranded(s: State) {
    s.deleted && s.group.waiting == [] && forall t :: !Stranded(s, t)
  }

  lemma {:induction false} StaysSafe(s: State, steps: seq<Step>)
    requires NobodyStranded(s) && Permitted(s, steps)
    ensures NobodyStranded(Run(s, steps))
    decreases |steps|
  {
    hide ValueOf, Stranded;
    if steps != [] {
      OneFinishes(s, steps[0]);
      StaysSafe(Apply(s, steps[0]), steps[1..]);
    }
  }

  lemma OneFinishes(s: State, step: Step)
    requires NobodyStranded(s) && Allowed(s, step)
    ensures NobodyStranded(Apply(s, step))
  {
    assert step.Finish?;
    forall t
      ensures !Stranded(Apply(s, step), t)
    {
      assert !Stranded(s, t);
    }
  }

  lemma NotSafe(s: State, t: Task)
    requires TouchesFreed(s, t)
    ensures !Safe(s)
  {
    hide Stranded, TouchesFreed;
    var none: seq<Step> := [];
    assert Permitted(s, none) && Run(s, none) == s;
  }

  /** A deletion is safe exactly when no task is stranded by it: then no task touches the freed group in
      any history, and otherwise one is about to as soon as the group has been freed. */
  lemma DeleteIsSafeExactlyWhen(s: State)
    requires !s.deleted
    ensures Safe(AfterDelete(s)) <==> forall t :: !Stranded(s, t)
  {
    hide Stranded, ValueOf;
    var s1 := AfterDelete(s);
    forall t
      ensures TouchesFreed(s1, t) <==> Stranded(s, t)
    {
      DeletedStrands(s, t);
    }
    if forall t :: !Stranded(s, t) {
      forall t
        ensures !Stranded(s1, t)
      {
        assert TouchesFreed(s1, t) <==> Stranded(s, t);
      }
      forall steps | Permitted(s1, steps)
        ensures forall t :: !TouchesFreed(Run(s1, steps), t)
      {
        StaysSafe(s1, steps);
      }
    } else {
      var t :| Stranded(s, t);
      assert TouchesFreed(s1, t);
      NotSafe(s1, t);
    }
  }

  /** Task 1 has waited for bit 0, and has just timed out. */
  function TimedOut(): State {
    State(Group({}, [], map[1 := Encode({0}, false, true)], []), map[1 := Call({0}, false, true)], map[], false)
  }

  /** Here, in a reachable state, a deletion strands a task. */
  lemma DeleteCanStrandATask()
    ensures exists steps :: Permitted(Initial(), steps) && Run(Initial(), steps) == TimedOut()
    ensures Allowed(TimedOut(), Delete) && TouchesFreed(AfterDelete(TimedOut()), 1)
  {
    var steps := [WaitBits(1, {0}, false, true, true), Expire(1)];
    var s1 := Apply(Initial(), steps[0]);
    assert s1.group.waiting == [1];
    assert Apply(s1, Expire(1)) == TimedOut();
    assert steps[1..] == [Expire(1)] && [Expire(1)][1..] == [];
    assert Run(Initial(), steps) == Run(s1, [Expire(1)]) == TimedOut();
    DeletedStrands(TimedOut(), 1);
  }
}
