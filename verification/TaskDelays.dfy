/** Delays over whole runs: a blocked task wakes on exactly the tick it asked for, however often
    the 32-bit tick wraps, and vTaskDelayUntil decides and wakes as it should. */
module TaskDelays {
  import opened Ticks
  import Timeouts
  import opened ItemStore
  import opened TaskState
  import opened TaskTick
  import opened TaskSteps
  import opened TaskInvariant
  import opened TaskRuns

  /** No step of the run wakes, suspends or deletes `t`, and `t` makes no blocking call. */
  ghost predicate Undisturbed(s: State, steps: seq<Step>, t: Task)
    requires Inv(s) && Permitted(s, steps)
    decreases |steps|
  {
    steps == []
    || (LeavesAlone(s, steps[0], t) && (StepKeeps(s, steps[0]); Undisturbed(Apply(s, steps[0]), steps[1..], t)))
  }

  lemma {:induction false} RunWhileAsleep(s: State, steps: seq<Step>, t: Task, wake: nat)
    requires Inv(s) && Permitted(s, steps) && Undisturbed(s, steps, t)
    requires SleepsUntil(s, t, wake)
    ensures SleepsUntil(Run(s, steps), t, wake)
    decreases |steps|
  {
    hide Inv, SleepsUntil, LeavesAlone, Allowed, Apply;
    if steps != [] {
      StepKeeps(s, steps[0]);
      StepWhileAsleep(s, steps[0], t, wake);
      RunWhileAsleep(Apply(s, steps[0]), steps[1..], t, wake);
    }
  }

  /** The wrapped time, filed by comparing it with the tick, stands for the unbounded time. */
  lemma WrappedTimeIsExact(clock: nat, until: nat)
    requires clock < until < clock + TICKS
    ensures Wrap(until) != Wrap(clock)
    ensures until == (Epoch(clock) + if Wrap(until) < Wrap(clock) then 1 else 0) * TICKS + Wrap(until)
  {
    EpochAndTick(clock);
    EpochAndTick(until);
  }

  /** A wake time filed by its wrapped value is the only time within a turn that the value stands for. */
  lemma FiledUntilDue(s: State, t: Task, wake: nat)
    requires Core(s) && StateOf(s, t) == Nowhere && wake <= MAX_DELAY && wake != s.tick
    ensures forall due: nat :: Wrap(due) == wake && s.clock < due < s.clock + TICKS ==>
              IsDelayed(AddToDelayed(s, t, wake), t) && WakeTime(AddToDelayed(s, t, wake), t) == due
  {
    AddToDelayedKeeps(s, t, wake);
    var s1 := AddToDelayed(s, t, wake);
    assert s1.clock == s.clock && s1.firstIsCurrent == s.firstIsCurrent;
    assert s.tick == Wrap(s.clock);
    hide Core, AddToDelayed, OnlyMoved, Wrap, Epoch;
    forall due: nat | Wrap(due) == wake && s.clock < due < s.clock + TICKS
      ensures IsDelayed(s1, t) && WakeTime(s1, t) == due
    {
      WrappedTimeIsExact(s.clock, due);
    }
  }

  lemma FiledSleeps(s: State, s1: State, t: Task, until: nat)
    requires Core(s) && SameClock(s, s1) && s.clock < until < s.clock + TICKS
    requires StateOf(s1, t) == On(DelayedListFor(s, Wrap(until))) && Value(s1.store, Generic(t)) == Wrap(until)
    requires WaitOf(s1, t) != On(PendingReady)
    ensures SleepsUntil(s1, t, until)
  {
    WrappedTimeIsExact(s.clock, until);
    hide Consistent, SortedList, ReadyOk, Wrap, Epoch;
  }

  /** Delays are exact.  A task that delays itself for `ticks` at time `s.clock`, and is then left
      alone, is delayed at every later time before `s.clock + ticks` and ready at every time from
      it on: whatever else happens, and over any number of wraps of the 32-bit tick. */
  lemma DelaysAreExact(s: State, ticks: nat, steps: seq<Step>)
    requires Inv(s) && Allowed(s, Delay(ticks)) && ticks > 0
    requires Inv(DoDelay(s, ticks)) && Permitted(DoDelay(s, ticks), steps)
    requires Undisturbed(DoDelay(s, ticks), steps, s.current)
    ensures var s1 := Run(DoDelay(s, ticks), steps);
            if s1.clock < s.clock + ticks then IsDelayed(s1, s.current) else IsReady(s1, s.current)
  {
    hide Inv, Permitted, Undisturbed, Run, DoDelay, WakeTime;
    DelayKeeps(s, ticks);
    WrapSum(s.clock, ticks);
    InvIsCore(s);
    FiledSleeps(s, DoDelay(s, ticks), s.current, s.clock + ticks);
    RunWhileAsleep(DoDelay(s, ticks), steps, s.current, s.clock + ticks);
  }

  lemma InvIsCore(s: State)
    requires Inv(s)
    ensures Core(s) && s.tick == Wrap(s.clock)
  {
  }

  /** The timeout of a wait for an event is just as exact, if the event does not come. */
  lemma TimeoutsAreExact(s: State, list: nat, ticks: nat, steps: seq<Step>)
    requires Inv(s) && Allowed(s, PlaceOnEventList(list, ticks)) && ticks < MAX_DELAY
    requires Inv(DoPlaceOnEventList(s, list, ticks)) && Permitted(DoPlaceOnEventList(s, list, ticks), steps)
    requires Undisturbed(DoPlaceOnEventList(s, list, ticks), steps, s.current)
    ensures var s1 := Run(DoPlaceOnEventList(s, list, ticks), steps);
            if s1.clock < s.clock + ticks then IsDelayed(s1, s.current) else IsReady(s1, s.current)
  {
    hide Inv, Permitted, Undisturbed, Run, DoPlaceOnEventList, WakeTime;
    PlaceOnEventListKeeps(s, list, ticks);
    WrapSum(s.clock, ticks);
    InvIsCore(s);
    FiledSleeps(s, DoPlaceOnEventList(s, list, ticks), s.current, s.clock + ticks);
    RunWhileAsleep(DoPlaceOnEventList(s, list, ticks), steps, s.current, s.clock + ticks);
  }

  // ---- Periodic delays ----

  /** What vTaskDelayUntil decides from the 32-bit values, in unbounded time: whether less than one
      increment has passed since the previous wake time, disregarding whole turns of the tick. */
  lemma DelayDecision(previous: nat, now: nat, increment: nat)
    requires previous <= now && 0 < increment < TICKS
    ensures ShouldDelay(Wrap(now), Wrap(previous), Wrap(previous + increment)) <==> (now - previous) % TICKS < increment
  {
    WrapDifference(previous, now);
    WrapDifference(previous, previous + increment);
    var d := (now - previous) % TICKS;
    assert d == Wrap(now - previous);
    assert d == if Wrap(now) >= Wrap(previous) then Wrap(now) - Wrap(previous) else Wrap(now) - Wrap(previous) + TICKS;
    assert increment == Wrap(previous + increment - previous);
    hide Wrap, Epoch;
  }

  /** Less than a turn of the tick after the previous wake time the decision is the right one: the
      call blocks exactly when the next wake time is still ahead.  Later than that it is right
      exactly when what is left of the time after whole turns is at least the increment. */
  lemma DelayUntilDecides(previous: nat, now: nat, increment: nat)
    requires previous <= now && 0 < increment < TICKS
    ensures now < previous + TICKS ==>
              (ShouldDelay(Wrap(now), Wrap(previous), Wrap(previous + increment)) <==> previous + increment > now)
    ensures (ShouldDelay(Wrap(now), Wrap(previous), Wrap(previous + increment)) <==> previous + increment > now)
            <==> now < previous + TICKS || (now - previous) % TICKS >= increment
  {
    DelayDecision(previous, now, increment);
  }

  /** vTaskDelayUntil wakes at exactly the previous wake time plus the increment, however late
      the call comes, and does not block once that time has passed. */
  lemma DelayUntilIsExact(s: State, previous: nat, increment: nat, steps: seq<Step>)
    requires Inv(s) && CallerReady(s) && 0 < increment < TICKS
    requires previous <= s.clock < previous + TICKS
    requires var s1 := DoDelayUntil(s, Wrap(previous), increment);
             Inv(s1) && Permitted(s1, steps) && Undisturbed(s1, steps, s.current)
    ensures var s1 := DoDelayUntil(s, Wrap(previous), increment);
            && (s1 == s <==> previous + increment <= s.clock)
            && var s2 := Run(s1, steps);
               if s2.clock < previous + increment then IsDelayed(s2, s.current) else IsReady(s2, s.current)
  {
    hide Inv, Permitted, Undisturbed, Run, WakeTime, AddToDelayed, Leave, ShouldDelay;
    InvIsCore(s);
    WrapSum(previous, increment);
    DelayUntilDecides(previous, s.clock, increment);
    var s1 := DoDelayUntil(s, Wrap(previous), increment);
    if previous + increment > s.clock {
      DelayUntilSleeps(s, previous, increment);
    } else {
      ReadySleeps(s, previous + increment);
    }
    RunWhileAsleep(s1, steps, s.current, previous + increment);
  }

  lemma DelayUntilSleeps(s: State, previous: nat, increment: nat)
    requires Inv(s) && CallerReady(s)
    requires s.clock < previous + increment < s.clock + TICKS
    ensures var s1 := AddToDelayed(Leave(s, s.current), s.current, Wrap(previous + increment));
            SleepsUntil(s1, s.current, previous + increment) && s1 != s
  {
    hide Consistent, SortedList, ReadyOk, TimeAt, AddToDelayed, Leave, WakeTime;
    InvIsCore(s);
    assert WellPlaced(s, s.current);
    WrappedTimeIsExact(s.clock, previous + increment);
    var s1 := AddToDelayed(Leave(s, s.current), s.current, Wrap(previous + increment));
    SleepKeeps(s, Wrap(previous + increment));
    FiledSleeps(s, s1, s.current, previous + increment);
  }

  lemma ReadySleeps(s: State, wake: nat)
    requires Inv(s) && CallerReady(s) && wake <= s.clock
    ensures SleepsUntil(s, s.current, wake)
  {
    hide Consistent, SortedList, ReadyOk, TimeAt;
    assert WellPlaced(s, s.current);
  }

  /** Here the call comes a turn and ten ticks after the previous wake time, and blocks although the
      next wake time has long passed. */
  lemma LateCallCanBlock()
    ensures var previous, now, increment := 0, TICKS + 10, 100;
            previous + increment <= now && ShouldDelay(Wrap(now), Wrap(previous), Wrap(previous + increment))
  {
    assert Wrap(TICKS + 10) == 10;
  }

  // ---- Timeouts ----

  /** What vTaskSetTimeOutState and xTaskCheckForTimeOut read in a reachable state stands for the
      processed ticks, so that what is proved of timeouts holds on the scheduler's clock. */
  lemma TimeoutsReadTheClock(s: State)
    requires Inv(s)
    ensures Timeouts.Mark(Wrap(s.overflows), s.tick) == Timeouts.MarkAt(s.clock)
  {
    hide Consistent, SortedList, ReadyOk, AllPlaced, Counted, TicksAccounted, DelayedAfter;
  }
}
