/** What commands do to a timer, whatever it was doing before: a start or reset begins its expiries
    anew, a new period counts from the moment the daemon takes the command, and a timer that has
    been stopped or deleted is not called back any more. */
module TimerCommands {
  import opened Ticks
  import opened TimedLists
  import opened Timers
  import opened TimerRuns
  import opened TimerCallbacks

  /** The first command of the queue is for `t`, and it is the only one. */
  ghost predicate OnlyCommand(s: State, t: TimerId) {
    s.queue != [] && s.queue[0].timer == t && CommandsOf(s.queue[1..], t) == []
  }

  /** Taking the command takes the timer off whatever list it is on. */
  lemma TakenIsIdle(s: State, t: TimerId)
    requires OnlyCommand(s, t)
    ensures Idle(Taken(s), t) && Taken(s).timers == s.timers && Taken(s).log == s.log
  {
    hide Of, Without;
    OfWithout(s.current, t, t);
    OfWithout(s.overflow, t, t);
  }

  /** The sample that is taken for the command does not touch the timer. */
  lemma SampledForCommand(s: State, now: nat, t: TimerId)
    requires OnlyCommand(s, t)
    ensures var s1 := Sample(Taken(s), now);
            && Idle(s1, t) && DuesOf(s1.log, t) == DuesOf(s.log, t)
            && forall timer :: Has(s, t, timer) ==> Has(s1, t, timer)
  {
    hide Taken, Sample, Listed, CommandsOf, DuesOf;
    TakenIsIdle(s, t);
    SampleIdle(Taken(s), now, t);
  }

  /** From now on the timer is called back for `due` and, if it reloads, every period after. */
  lemma BeginsAnew(s: State, s1: State, t: TimerId, timer: Timer, due: nat)
    requires || (Waiting(s1, t, timer, due) && DuesOf(s1.log, t) == DuesOf(s.log, t))
             || CalledBack(s, s1, t, timer, due)
    ensures OnTrack(s1, t, timer, due, DuesOf(s.log, t))
  {
    hide PendingAt, Idle, DuesOf;
    var before := DuesOf(s.log, t);
    assert Series(due, timer.period, 0) == [] && Series(due, timer.period, 1) == [due];
    assert before + Series(due, timer.period, 0) == before;
    assert due + 1 * timer.period == due + timer.period && due + 0 * timer.period == due;
  }

  /** A start or a reset: the old schedule, if there was one, is forgotten. */
  lemma StartTakesEffect(s: State, now: nat, t: TimerId, timer: Timer, since: nat)
    requires OnlyCommand(s, t) && Has(s, t, timer) && s.queue[0] == StartTimer(t, Wrap(since), since)
    ensures OnTrack(ProcessCommand(s, now), t, timer, since + timer.period, DuesOf(s.log, t))
  {
    hide OnTrack, Sample, ProcessStart, DuesOf, Idle, Waiting, CalledBack, Wrap;
    SampledForCommand(s, now, t);
    var s1 := Sample(Taken(s), now);
    StartOwn(s1, s.queue[0], now, t, timer, since + timer.period);
    BeginsAnew(s1, ProcessCommand(s, now), t, timer, since + timer.period);
  }

  lemma ChangeTakesEffect(s: State, now: nat, t: TimerId, timer: Timer, period: nat)
    requires OnlyCommand(s, t) && Has(s, t, timer) && s.queue[0] == ChangePeriod(t, period) && 0 < period < TICKS
    ensures OnTrack(ProcessCommand(s, now), t, Timer(period, timer.autoReload), now + period, DuesOf(s.log, t))
  {
    hide OnTrack, Sample, InsertTimer, DuesOf, CommandsOf, Listed, Wrap;
    SampledForCommand(s, now, t);
    var s1 := Sample(Taken(s), now);
    var changed := Timer(period, timer.autoReload);
    var s2 := s1.(timers := s1.timers[t := Timer(period, Reloads(s1, t))]);
    assert Idle(s2, t) by { SameLists(s1, s2, t); }
    InsertOwn(s2, t, Wrap(now + period), Wrap(now), Wrap(now), now + period);
    NotExpired(s2, t, now, period);
    BeginsAnew(s1, ProcessCommand(s, now), t, changed, now + period);
  }

  lemma SameLists(s: State, s1: State, t: TimerId)
    requires s1.current == s.current && s1.overflow == s.overflow && s1.queue == s.queue && Idle(s, t)
    ensures Idle(s1, t)
  {
  }

  lemma NotExpired(s: State, t: TimerId, now: nat, period: nat)
    requires PeriodOf(s, t) == period && 0 < period < TICKS
    ensures !InsertTimer(s, t, Wrap(now + period), Wrap(now), Wrap(now), now + period).0
  {
    hide Inserted, Classify;
    NewPeriodIsAhead(now, period);
  }

  lemma StopTakesEffect(s: State, now: nat, t: TimerId)
    requires OnlyCommand(s, t) && (s.queue[0].StopTimer? || s.queue[0].DeleteTimer?)
    ensures var s1 := ProcessCommand(s, now);
            Idle(s1, t) && DuesOf(s1.log, t) == DuesOf(s.log, t) && (s.queue[0].DeleteTimer? ==> t !in s1.timers)
  {
    hide Sample, DuesOf;
    SampledForCommand(s, now, t);
    SameLists(Sample(Taken(s), now), ProcessCommand(s, now), t);
  }

  /** Timer 0 with period 10 is started at time 0 and stopped, but the daemon gets to the commands
      only at time 20. */
  function StopTooLate(): State {
    State(map[0 := Timer(10, true)], [], [], [StartTimer(0, 0, 0), StopTimer(0)], 20, 20, [])
  }

  /** The start finds the timer expired, and has it started again behind the stop. */
  function StopOvertaken(): State {
    StopTooLate().(queue := [StopTimer(0), StartTimer(0, 10, 10)], log := [Fired(0, 10, 20)])
  }

  /** The stop has been taken, and the second start as well. */
  function StopUndone(): State {
    StopTooLate().(queue := [StartTimer(0, 20, 20)], log := [Fired(0, 10, 20), Fired(0, 20, 20)])
  }

  lemma StopIsOvertaken()
    ensures ProcessCommand(StopTooLate(), 20) == StopOvertaken()
  {
  }

  lemma StopIsTaken()
    ensures ProcessCommand(StopOvertaken(), 20) == StopOvertaken().(queue := [StartTimer(0, 10, 10)])
  {
  }

  lemma StopIsUndone()
    ensures ProcessCommand(StopOvertaken().(queue := [StartTimer(0, 10, 10)]), 20) == StopUndone()
  {
  }

  lemma TimerIsActive()
    ensures ProcessCommand(StopUndone(), 20) == StopUndone().(queue := [], current := [Entry(0, 30, 30)])
  {
  }

  lemma TooLateIsReached()
    ensures var steps := [Create(0, 10, true), Post(StartTimer(0, 0, 0)), Post(StopTimer(0)), Look(20)];
            Permitted(Initial(), steps) && Run(Initial(), steps) == StopTooLate()
  {
    var s1 := Apply(Initial(), Create(0, 10, true));
    var s2 := Apply(s1, Post(StartTimer(0, 0, 0)));
    var s3 := Apply(s2, Post(StopTimer(0)));
    assert Allowed(s3, Look(20)) && Apply(s3, Look(20)) == StopTooLate();
    RunsThen(s3, Look(20), []);
    RunsThen(s2, Post(StopTimer(0)), [Look(20)]);
    RunsThen(s1, Post(StartTimer(0, 0, 0)), [Post(StopTimer(0)), Look(20)]);
    RunsThen(Initial(), Create(0, 10, true), [Post(StartTimer(0, 0, 0)), Post(StopTimer(0)), Look(20)]);
  }

  lemma RunsThen(s: State, step: Step, rest: seq<Step>)
    requires Allowed(s, step) && Permitted(Apply(s, step), rest)
    ensures Permitted(s, [step] + rest) && Run(s, [step] + rest) == Run(Apply(s, step), rest)
  {
    assert ([step] + rest)[1..] == rest;
  }

  /** So a stop can be undone: in a reachable state it is followed by a callback, and the timer
      stays active. */
  lemma StopCanBeUndone()
    ensures exists steps :: Permitted(Initial(), steps) && Run(Initial(), steps) == StopTooLate()
    ensures var s, four := StopTooLate(), [Receive(20), Receive(20), Receive(20), Receive(20)];
            && Permitted(s, four)
            && Run(s, four) == s.(current := [Entry(0, 30, 30)], queue := [],
                                  log := [Fired(0, 10, 20), Fired(0, 20, 20)])
  {
    hide ProcessCommand;
    TooLateIsReached();
    StopIsOvertaken();
    StopIsTaken();
    StopIsUndone();
    TimerIsActive();
    var r := Receive(20);
    RunsThen(StopUndone(), r, []);
    RunsThen(StopOvertaken().(queue := [StartTimer(0, 10, 10)]), r, [r]);
    RunsThen(StopOvertaken(), r, [r, r]);
    RunsThen(StopTooLate(), r, [r, r, r]);
  }

  // ---- A timer that is on no list ----

  lemma LookSilent(s: State, now: nat, t: TimerId)
    requires Listed(s, t) == []
    ensures Untouched(s, ProcessTimer(s, now), t)
  {
    hide Untouched, Sample, ProcessExpired, Listed, Wrap;
    SampleUnlisted(s, now, t);
    var s1 := Sample(s, now);
    StaysUnlisted(s, s1, t);
    if !(Wrap(now) < s.lastTime || s1.current == [] || s1.current[0].value > Wrap(now)) {
      if s1.current[0].owner == t {
        HeadIsListed(s1, t);
        assert false;
      }
      ExpiredOther(s1, now, t);
      UntouchedTwice(s, s1, ProcessExpired(s1, now), t);
    }
  }

  lemma StaysUnlisted(s: State, s1: State, t: TimerId)
    requires Listed(s, t) == [] && Untouched(s, s1, t)
    ensures Listed(s1, t) == []
  {
  }

  lemma ReceiveSilent(s: State, now: nat, t: TimerId)
    requires Listed(s, t) == [] && s.queue != [] && s.queue[0].timer != t
    ensures Untouched(s, ProcessCommand(s, now), t)
  {
    hide Untouched, Sample, ProcessStart, ProcessChange, Listed;
    var c, s1, s2 := s.queue[0], Sample(Taken(s), now), ProcessCommand(s, now);
    TakenOther(s, t);
    StaysUnlisted(s, Taken(s), t);
    SampleUnlisted(Taken(s), now, t);
    UntouchedTwice(s, Taken(s), s1, t);
    AfterSample(s, now, t);
    UntouchedTwice(s, s1, s2, t);
  }

  /** What a command does once the time has been sampled does not touch another timer. */
  lemma AfterSample(s: State, now: nat, t: TimerId)
    requires s.queue != [] && s.queue[0].timer != t
    ensures Untouched(Sample(Taken(s), now), ProcessCommand(s, now), t)
  {
    hide Untouched, Sample, ProcessStart, ProcessChange;
    var c, s1 := s.queue[0], Sample(Taken(s), now);
    match c {
      case StartTimer(_, _, _) => StartOther(s1, c, now, t);
      case StopTimer(_) => SameUntouched(s1, t);
      case ChangePeriod(u, period) => ChangeOther(s1, u, period, now, t);
      case DeleteTimer(u) => TimerOther(s1, u, Timer(1, false), t);
    }
  }

  lemma StepSilent(s: State, step: Step, t: TimerId)
    requires Idle(s, t) && Allowed(s, step) && LeavesAlone(step, t)
    ensures Idle(Apply(s, step), t) && DuesOf(Apply(s, step).log, t) == DuesOf(s.log, t)
  {
    hide Listed, CommandsOf, DuesOf, ProcessTimer, ProcessCommand;
    match step
    case Create(u, period, autoReload) => CreatedSilent(s, u, Timer(period, autoReload), t);
    case Post(c) => PostOther(s, c, t);
    case Look(now) => LookSilent(s, now, t);
    case Receive(now) =>
      if s.queue[0].timer == t {
        CommandIsListed(s, t);
        assert false;
      }
      ReceiveSilent(s, now, t);
  }

  lemma CreatedSilent(s: State, u: TimerId, timer: Timer, t: TimerId)
    ensures var s1 := s.(timers := s.timers[u := timer]); Listed(s1, t) == Listed(s, t)
  {
  }

  /** Nobody is called back without being asked for. */
  lemma {:induction false} IdleStaysSilent(s: State, steps: seq<Step>, t: TimerId)
    requires Idle(s, t) && Permitted(s, steps) && (forall step <- steps :: LeavesAlone(step, t))
    ensures Idle(Run(s, steps), t) && DuesOf(Run(s, steps).log, t) == DuesOf(s.log, t)
    decreases |steps|
  {
    hide Idle, DuesOf, Apply, Allowed;
    if steps != [] {
      StepSilent(s, steps[0], t);
      IdleStaysSilent(Apply(s, steps[0]), steps[1..], t);
    }
  }

  /** A timer that has been stopped or deleted is not called back in any history without a new
      command for it, even if it was active and about to expire. */
  lemma StoppedStaysSilent(s: State, now: nat, t: TimerId, steps: seq<Step>)
    requires OnlyCommand(s, t) && (s.queue[0].StopTimer? || s.queue[0].DeleteTimer?)
    requires var s1 := ProcessCommand(s, now); Permitted(s1, steps) && forall step <- steps :: LeavesAlone(step, t)
    ensures DuesOf(Run(ProcessCommand(s, now), steps).log, t) == DuesOf(s.log, t)
  {
    hide ProcessCommand, Run, Permitted, DuesOf, Idle;
    StopTakesEffect(s, now, t);
    IdleStaysSilent(ProcessCommand(s, now), steps, t);
  }

  /** A timer that is reset while it is active is called back for the new expiries only: each once,
      none early, and all that are over whenever the daemon is settled. */
  lemma ResetCallbacksAreExact(s: State, now: nat, t: TimerId, period: nat, since: nat, steps: seq<Step>)
    requires Good(s) && Allowed(s, Receive(now)) && Has(s, t, Timer(period, true))
    requires OnlyCommand(s, t) && s.queue[0] == StartTimer(t, Wrap(since), since)
    requires var s1 := ProcessCommand(s, now); Permitted(s1, steps) && forall step <- steps :: LeavesAlone(step, t)
    ensures var s1 := Run(ProcessCommand(s, now), steps);
            var n := |DuesOf(s1.log, t)| - |DuesOf(s.log, t)|;
            && n >= 0 && DuesOf(s1.log, t) == DuesOf(s.log, t) + Series(since + period, period, n)
            && (n > 0 ==> since + n * period <= s1.lastClock)
            && (Settled(s1) ==> s1.lastClock < since + (n + 1) * period)
  {
    hide Good, ProcessCommand, Run, Permitted, DuesOf, OnTrack, Idle, OnlyCommand, Settled, Wrap;
    StartTakesEffect(s, now, t, Timer(period, true), since);
    ProcessCommandKeeps(s, now);
    RunOnTrack(ProcessCommand(s, now), steps, t, Timer(period, true), since + period, DuesOf(s.log, t));
    OnTrackIsExact(Run(ProcessCommand(s, now), steps), t, period, since + period, DuesOf(s.log, t));
    PeriodsAdd(since, period, CallbacksSince(Run(ProcessCommand(s, now), steps), t, DuesOf(s.log, t)));
  }

  lemma PeriodsAdd(since: nat, period: nat, n: int)
    ensures since + period + n * period == since + (n + 1) * period
    ensures since + period + (n - 1) * period == since + n * period
  {
  }

  /** A new period replaces the old one from the moment the daemon takes the command. */
  lemma ChangedCallbacksAreExact(s: State, now: nat, t: TimerId, timer: Timer, period: nat, steps: seq<Step>)
    requires Good(s) && Allowed(s, Receive(now)) && Has(s, t, timer) && timer.autoReload
    requires OnlyCommand(s, t) && s.queue[0] == ChangePeriod(t, period) && 0 < period < TICKS
    requires var s1 := ProcessCommand(s, now); Permitted(s1, steps) && forall step <- steps :: LeavesAlone(step, t)
    ensures var s1 := Run(ProcessCommand(s, now), steps);
            var n := |DuesOf(s1.log, t)| - |DuesOf(s.log, t)|;
            && n >= 0 && DuesOf(s1.log, t) == DuesOf(s.log, t) + Series(now + period, period, n)
            && (n > 0 ==> now + n * period <= s1.lastClock)
            && (Settled(s1) ==> s1.lastClock < now + (n + 1) * period)
  {
    hide Good, ProcessCommand, Run, Permitted, DuesOf, OnTrack, Idle, OnlyCommand, Settled, Wrap;
    ChangeTakesEffect(s, now, t, timer, period);
    ProcessCommandKeeps(s, now);
    RunOnTrack(ProcessCommand(s, now), steps, t, Timer(period, true), now + period, DuesOf(s.log, t));
    OnTrackIsExact(Run(ProcessCommand(s, now), steps), t, period, now + period, DuesOf(s.log, t));
    PeriodsAdd(now, period, CallbacksSince(Run(ProcessCommand(s, now), steps), t, DuesOf(s.log, t)));
  }
}
