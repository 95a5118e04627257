/** Periodic tasks: a task that calls vTaskDelayUntil again and again, in any run of the scheduler,
    wakes at the ideal times and does not drift. */
module TaskPeriods {
  import opened Ticks
  import opened ItemStore
  import opened TaskState
  import opened TaskTick
  import opened TaskMoves
  import opened TaskSteps
  import opened TaskInvariant
  import opened TaskRuns
  import opened TaskDelays

  /** What happens between two calls: first the task is left alone until it is ready, then anything
      may happen, with the task doing whatever it does in a period, until it runs and calls again. */
  datatype Period = Period(asleep: seq<Step>, active: seq<Step>)

  /** The call, with the 32-bit variable `v` behind pxPreviousWakeTime. */
  function AfterCall(s: State, v: nat, increment: nat): State
    requires Inv(s) && Allowed(s, DelayUntil(v, increment))
  {
    Apply(s, DelayUntil(v, increment))
  }

  ghost predicate IsPeriod(s: State, t: Task, v: nat, increment: nat, period: Period)
    requires Inv(s)
  {
    && s.current == t && Allowed(s, DelayUntil(v, increment))
    && (StepKeeps(s, DelayUntil(v, increment));
        var s1 := AfterCall(s, v, increment);
        && Permitted(s1, period.asleep) && Undisturbed(s1, period.asleep, t)
        && (RunKeeps(s1, period.asleep);
            IsReady(Run(s1, period.asleep), t) && Permitted(Run(s1, period.asleep), period.active)))
  }

  /** The state at the end of the period. */
  ghost function AfterPeriod(s: State, t: Task, v: nat, increment: nat, period: Period): (s1: State)
    requires Inv(s)
    ensures Inv(s1)
  {
    if IsPeriod(s, t, v, increment, period) then
      PeriodKeeps(s, t, v, increment, period);
      StepKeeps(s, DelayUntil(v, increment));
      RunKeeps(AfterCall(s, v, increment), period.asleep);
      Run(Run(AfterCall(s, v, increment), period.asleep), period.active)
    else s
  }

  lemma PeriodKeeps(s: State, t: Task, v: nat, increment: nat, period: Period)
    requires Inv(s) && IsPeriod(s, t, v, increment, period)
    ensures Inv(AfterCall(s, v, increment)) && Inv(Run(AfterCall(s, v, increment), period.asleep))
    ensures Inv(Run(Run(AfterCall(s, v, increment), period.asleep), period.active))
  {
    hide Inv, Permitted, Undisturbed, Run, Apply, Allowed;
    StepKeeps(s, DelayUntil(v, increment));
    RunKeeps(AfterCall(s, v, increment), period.asleep);
    RunKeeps(Run(AfterCall(s, v, increment), period.asleep), period.active);
  }

  /** The task makes one call in each period, and each comes less than a turn of the tick after the
      ideal wake time before it, which is `ideal` for the first.  The variable goes from call to call
      as the code sets it. */
  ghost predicate IsPeriodic(s: State, t: Task, v: nat, ideal: nat, increment: nat, periods: seq<Period>)
    requires Inv(s)
    decreases |periods|
  {
    periods == [] ||
    (&& s.clock < ideal + TICKS && IsPeriod(s, t, v, increment, periods[0])
     && IsPeriodic(AfterPeriod(s, t, v, increment, periods[0]), t, Wrap(v + increment), ideal + increment, increment,
                   periods[1..]))
  }

  /** A call: the state it is made in and the value of the variable. */
  datatype Call = Call(state: State, v: nat)

  /** Call `j` of the run. */
  ghost function NthCall(s: State, t: Task, v: nat, increment: nat, periods: seq<Period>, j: nat): Call
    requires Inv(s) && j < |periods|
    decreases |periods|
  {
    if j == 0 then Call(s, v)
    else NthCall(AfterPeriod(s, t, v, increment, periods[0]), t, Wrap(v + increment), increment, periods[1..], j - 1)
  }

  // ---- Time does not go back ----

  lemma StepClock(s: State, step: Step)
    requires Inv(s) && Allowed(s, step)
    ensures s.clock <= Apply(s, step).clock
  {
    hide Inv, SameTask;
    if !IsTimed(step) {
      SubjectStepKeeps(s, step);
    } else if step == ResumeAll {
      ResumeAllKeeps(s);
    } else if step == TickInterrupt {
      TickInterruptKeeps(s);
    } else if step == SwitchContext && s.suspensions == 0 {
      ClockAfterSwitch(s);
    }
  }

  lemma ClockAfterSwitch(s: State)
    ensures DoSwitchContext(s).clock == s.clock
  {
    hide Scan;
  }

  lemma {:induction false} RunClock(s: State, steps: seq<Step>)
    requires Inv(s) && Permitted(s, steps)
    ensures s.clock <= Run(s, steps).clock
    decreases |steps|
  {
    hide Inv, Apply, Allowed;
    if steps != [] {
      StepKeeps(s, steps[0]);
      StepClock(s, steps[0]);
      RunClock(Apply(s, steps[0]), steps[1..]);
    }
  }

  // ---- One period ----

  /** After the call the task sleeps until the next ideal time, and the call blocks exactly if that
      time is ahead. */
  lemma CallSleeps(s: State, t: Task, ideal: nat, increment: nat)
    requires Inv(s) && s.current == t && CallerReady(s) && 0 < increment < TICKS && ideal <= s.clock < ideal + TICKS
    ensures var s1 := DoDelayUntil(s, Wrap(ideal), increment);
            SleepsUntil(s1, t, ideal + increment) && (s1 == s <==> ideal + increment <= s.clock)
  {
    hide Inv, SleepsUntil, AddToDelayed, Leave, ShouldDelay, Wrap, CallerReady;
    TickOfClock(s);
    WrapSum(ideal, increment);
    DelayUntilDecides(ideal, s.clock, increment);
    if ideal + increment > s.clock {
      DelayUntilSleeps(s, ideal, increment);
    } else {
      ReadySleeps(s, ideal + increment);
    }
  }

  lemma TickOfClock(s: State)
    requires Inv(s)
    ensures s.tick == Wrap(s.clock)
  {
    InvIsCore(s);
  }

  /** A period ends no earlier than the ideal time at which the task wakes in it. */
  lemma PeriodClock(s: State, t: Task, ideal: nat, increment: nat, period: Period)
    requires Inv(s) && IsPeriod(s, t, Wrap(ideal), increment, period) && ideal <= s.clock < ideal + TICKS
    ensures ideal + increment <= AfterPeriod(s, t, Wrap(ideal), increment, period).clock
  {
    hide Inv, Permitted, Undisturbed, Run, DoDelayUntil, CallerReady, WakeTime;
    var s1 := AfterCall(s, Wrap(ideal), increment);
    StepKeeps(s, DelayUntil(Wrap(ideal), increment));
    CallSleeps(s, t, ideal, increment);
    RunKeeps(s1, period.asleep);
    RunWhileAsleep(s1, period.asleep, t, ideal + increment);
    ReadyIsAwake(Run(s1, period.asleep), t, ideal + increment);
    RunClock(Run(s1, period.asleep), period.active);
  }

  lemma ReadyIsAwake(s: State, t: Task, wake: nat)
    requires SleepsUntil(s, t, wake) && IsReady(s, t)
    ensures wake <= s.clock
  {
  }

  lemma {:induction false} PrefixUndisturbed(s: State, steps: seq<Step>, t: Task, n: nat)
    requires Inv(s) && Permitted(s, steps) && Undisturbed(s, steps, t) && n <= |steps|
    ensures Permitted(s, steps[..n]) && Undisturbed(s, steps[..n], t)
    decreases |steps|
  {
    hide Inv, Apply, Allowed, LeavesAlone;
    if n > 0 {
      StepKeeps(s, steps[0]);
      PrefixUndisturbed(Apply(s, steps[0]), steps[1..], t, n - 1);
      assert steps[..n][0] == steps[0] && steps[..n][1..] == steps[1..][..n - 1];
    }
  }

  // ---- All periods ----

  /** The ideal wake time before call `j`. */
  function IdealTime(first: nat, increment: nat, j: nat): nat {
    first + j * increment
  }

  /** What is promised of a call made at the ideal time `ideal` or after it: the variable stands at
      that time; the call blocks exactly if the next ideal time is ahead; and at every moment of the
      sleep the task is delayed before that time and ready from it on. */
  ghost predicate CallIsExact(call: Call, t: Task, ideal: nat, increment: nat, period: Period)
  {
    && Inv(call.state) && call.v == Wrap(ideal) && ideal <= call.state.clock
    && IsPeriod(call.state, t, call.v, increment, period)
    && (StepKeeps(call.state, DelayUntil(call.v, increment));
        var s1 := AfterCall(call.state, call.v, increment);
        && (s1 == call.state <==> ideal + increment <= call.state.clock)
        && forall n :: 0 <= n <= |period.asleep| ==>
             && Permitted(s1, period.asleep[..n])
             && var s2 := Run(s1, period.asleep[..n]);
                if s2.clock < ideal + increment then IsDelayed(s2, t) else IsReady(s2, t))
  }

  lemma FirstCallIsExact(s: State, t: Task, ideal: nat, increment: nat, period: Period)
    requires Inv(s) && IsPeriod(s, t, Wrap(ideal), increment, period) && ideal <= s.clock < ideal + TICKS
    ensures CallIsExact(Call(s, Wrap(ideal)), t, ideal, increment, period)
  {
    hide Inv, Permitted, Undisturbed, Run, DoDelayUntil, CallerReady, WakeTime;
    var s1 := AfterCall(s, Wrap(ideal), increment);
    StepKeeps(s, DelayUntil(Wrap(ideal), increment));
    CallSleeps(s, t, ideal, increment);
    forall n | 0 <= n <= |period.asleep|
      ensures Permitted(s1, period.asleep[..n]) && SleepsUntil(Run(s1, period.asleep[..n]), t, ideal + increment)
    {
      PrefixUndisturbed(s1, period.asleep, t, n);
      RunWhileAsleep(s1, period.asleep[..n], t, ideal + increment);
    }
  }

  /** A periodic task does not drift.  If the variable first stands at time P, and the task calls
      vTaskDelayUntil with increment I once in every period of any run, each call less than a turn of
      the tick late, then at call `j` the variable stands at P + jI modulo 2^32, the call blocks
      exactly if P + (j+1)I is ahead, and the task is ready at exactly that time and no earlier. */
  lemma {:induction false} NoDrift(s: State, t: Task, ideal: nat, increment: nat, periods: seq<Period>, j: nat)
    requires Inv(s) && ideal <= s.clock && IsPeriodic(s, t, Wrap(ideal), ideal, increment, periods) && j < |periods|
    ensures var call := NthCall(s, t, Wrap(ideal), increment, periods, j);
            CallIsExact(call, t, IdealTime(ideal, increment, j), increment, periods[j])
    decreases |periods|
  {
    hide Inv, IsPeriod, AfterPeriod, CallIsExact, Wrap, IdealTime;
    if j == 0 {
      assert IdealTime(ideal, increment, 0) == ideal by { FirstIdeal(ideal, increment); }
      FirstCallIsExact(s, t, ideal, increment, periods[0]);
    } else {
      var s1 := AfterPeriod(s, t, Wrap(ideal), increment, periods[0]);
      PeriodClock(s, t, ideal, increment, periods[0]);
      WrapSum(ideal, increment);
      NoDrift(s1, t, ideal + increment, increment, periods[1..], j - 1);
      NextIdeal(ideal, increment, j);
    }
  }

  lemma FirstIdeal(ideal: nat, increment: nat)
    ensures IdealTime(ideal, increment, 0) == ideal
  {
  }

  lemma NextIdeal(ideal: nat, increment: nat, j: nat)
    requires j > 0
    ensures IdealTime(ideal + increment, increment, j - 1) == IdealTime(ideal, increment, j)
  {
  }
}
