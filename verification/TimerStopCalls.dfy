/** When a stop holds that is posted for a timer which may be active: exactly when the daemon does not
    fall behind with the timer before it takes the stop. */
module TimerStopCalls {
  import opened RingList
  import opened Ticks
  import opened TimedLists
  import opened Timers
  import opened TimerRuns
  import opened TimerCallbacks
  import opened TimerCommands
  import opened TimerLoop
  import opened TimerStops

  /** The daemon falls behind with an auto-reload timer: a sample switches the lists while the timer
      is still on that of the turn that is over, or the daemon calls it back a whole period late.
      It then starts the timer again by a command of its own. */
  predicate FallsBehind(s: State, step: Step, t: TimerId) {
    && Reloads(s, t) && (step.Look? || step.Receive?)
    && if Wrap(step.now) < s.lastTime then Of(s.current, t) != []
       else step.Look? && s.current != [] && s.current[0].owner == t && s.current[0].due + PeriodOf(s, t) <= step.now
  }

  /** The timer may be on a list, and the stop is all that is queued for it. */
  ghost predicate StopQueued(s: State, t: TimerId) {
    |Listed(s, t)| <= 1 && CommandsOf(s.queue, t) == [StopTimer(t)]
  }

  /** The daemon has queued a start behind the stop. */
  ghost predicate Overtaken(s: State, t: TimerId) {
    && Listed(s, t) == []
    && |CommandsOf(s.queue, t)| == 2 && CommandsOf(s.queue, t)[0] == StopTimer(t)
    && CommandsOf(s.queue, t)[1].StartTimer?
  }

  /** The settings of the timer are kept. */
  ghost predicate SameTimer(s: State, s1: State, t: TimerId) {
    t in s.timers && t in s1.timers && s1.timers[t] == s.timers[t]
  }

  /** What a step makes of a queued stop. */
  ghost predicate Outcome(s1: State, t: TimerId, behind: bool) {
    if behind then Overtaken(s1, t) else StopQueued(s1, t)
  }

  lemma OutcomeStays(s: State, s1: State, t: TimerId, behind: bool)
    requires Outcome(s, t, behind) && t in s.timers && Untouched(s, s1, t)
    ensures Outcome(s1, t, behind) && SameTimer(s, s1, t)
  {
    assert Has(s, t, s.timers[t]);
  }

  /** On the list of the turn that is over a timer goes round the switch loop until its reload time
      wraps, and is then started again behind the stop. */
  lemma {:induction false} DrainBehind(s: State, now: nat, t: TimerId)
    requires StopQueued(s, t) && Reloads(s, t) && Of(s.current, t) != []
    ensures Overtaken(Drain(s, now), t) && SameTimer(s, Drain(s, now), t) && Drain(s, now).overflow == s.overflow
    decreases Load(s.current)
  {
    hide DrainOne, Overtaken, StopQueued, Untouched, Load, Listed;
    DrainOneShrinks(s, now);
    var s1 := DrainOne(s, now);
    if s.current[0].owner == t {
      DrainOwnOnce(s, now, t);
    } else {
      DrainOthers(s, now, t);
      OutcomeStays(s, s1, t, false);
    }
    if Of(s1.current, t) == [] {
      DrainIdle(s1, now, t);
      OutcomeStays(s1, Drain(s1, now), t, true);
    } else {
      DrainBehind(s1, now, t);
    }
  }

  lemma DrainOwnOnce(s: State, now: nat, t: TimerId)
    requires StopQueued(s, t) && Reloads(s, t) && s.current != [] && s.current[0].owner == t
    ensures var s1 := DrainOne(s, now);
            && SameTimer(s, s1, t) && s1.overflow == s.overflow
            && if Of(s1.current, t) == [] then Overtaken(s1, t) else StopQueued(s1, t)
  {
    hide Inserted, CommandsOf, Wrap;
    var e := s.current[0];
    assert Listed(s, t) == [e] + Of(s.current[1..], t) + Of(s.overflow, t);
    OfInserted(s.current[1..], Entry(t, Wrap(e.value + PeriodOf(s, t)), e.due + PeriodOf(s, t)), t);
    OneCommand(s.queue, StartTimer(t, e.value, e.due), t);
  }

  lemma {:induction false} DrainOneShot(s: State, now: nat, t: TimerId)
    requires StopQueued(s, t) && t in s.timers && !Reloads(s, t)
    ensures StopQueued(Drain(s, now), t) && SameTimer(s, Drain(s, now), t) && Drain(s, now).overflow == s.overflow
    decreases Load(s.current)
  {
    hide DrainOne, Untouched, Load, StopQueued, Listed;
    if s.current != [] {
      DrainOneShrinks(s, now);
      if s.current[0].owner == t {
        OneShotOnce(s, now, t);
      } else {
        DrainOthers(s, now, t);
        OutcomeStays(s, DrainOne(s, now), t, false);
      }
      DrainOneShot(DrainOne(s, now), now, t);
    }
  }

  lemma OneShotOnce(s: State, now: nat, t: TimerId)
    requires StopQueued(s, t) && t in s.timers && !Reloads(s, t) && s.current != [] && s.current[0].owner == t
    ensures var s1 := DrainOne(s, now); StopQueued(s1, t) && SameTimer(s, s1, t) && s1.overflow == s.overflow
  {
    hide CommandsOf;
    assert Listed(s, t) == [s.current[0]] + Of(s.current[1..], t) + Of(s.overflow, t);
  }

  lemma SampleOutcome(s: State, now: nat, t: TimerId)
    requires StopQueued(s, t) && t in s.timers
    ensures SameTimer(s, Sample(s, now), t)
    ensures Outcome(Sample(s, now), t, Reloads(s, t) && Wrap(now) < s.lastTime && Of(s.current, t) != [])
  {
    hide Drain, Wrap, Overtaken, StopQueued, Untouched, Of;
    if Wrap(now) < s.lastTime {
      var s1 := Drain(s, now);
      if Of(s.current, t) == [] {
        DrainIdle(s, now, t);
        OutcomeStays(s, s1, t, false);
      } else if Reloads(s, t) {
        DrainBehind(s, now, t);
      } else {
        DrainOneShot(s, now, t);
      }
      DrainEmpties(s, now);
      SwappedUntouched(s1, Sample(s, now), t);
      OutcomeStays(s1, Sample(s, now), t, Reloads(s, t) && Of(s.current, t) != []);
    } else {
      SameUntouched(s, t);
      ClockOnly(s, Sample(s, now), t);
      OutcomeStays(s, Sample(s, now), t, false);
    }
  }

  lemma ExpiredOutcome(s: State, t: TimerId)
    requires Good(s) && StopQueued(s, t) && t in s.timers
    requires s.current != [] && s.current[0].owner == t && s.current[0].value <= s.lastTime
    ensures SameTimer(s, ProcessExpired(s, s.lastClock), t)
    ensures Outcome(ProcessExpired(s, s.lastClock), t,
                    Reloads(s, t) && s.current[0].due + PeriodOf(s, t) <= s.lastClock)
  {
    hide InsertTimer, CommandsOf, ListOk, LogOk, Settings, Wrap, Epoch;
    var e := s.current[0];
    HeadOff(s);
    assert Listed(s, t) == [e] + Of(s.current[1..], t) + Of(s.overflow, t);
    var s1 := s.(current := s.current[1..]);
    if Reloads(s, t) {
      ReachedInTurn(e.due, s.lastClock);
      WrapsDown(e.due, PeriodOf(s, t));
      InsertKeeps(s1, t, e.due);
      InsertUnlisted(s1, t, Wrap(e.due + PeriodOf(s, t)), s.lastTime, Wrap(e.due), e.due + PeriodOf(s, t));
      OneCommand(s.queue, StartTimer(t, e.value, e.due), t);
    }
  }

  lemma LookOutcome(s: State, now: nat, t: TimerId)
    requires Good(s) && InTime(s, now) && StopQueued(s, t) && t in s.timers
    ensures SameTimer(s, ProcessTimer(s, now), t)
    ensures Outcome(ProcessTimer(s, now), t, FallsBehind(s, Look(now), t))
  {
    hide Sample, ProcessExpired, Outcome, StopQueued, Wrap, Of, Untouched, Good;
    SampleOutcome(s, now, t);
    SampleKeeps(s, now);
    SampleTime(s, now);
    var s1 := Sample(s, now);
    if !(Wrap(now) < s.lastTime) {
      NotSwitched(s, now);
      StillQueued(s1, t);
      if s1.current != [] && s1.current[0].value <= Wrap(now) {
        if s1.current[0].owner == t {
          ExpiredOutcome(s1, t);
        } else {
          ExpiredOther(s1, now, t);
          OutcomeStays(s1, ProcessExpired(s1, now), t, false);
        }
      } else if s1.current != [] {
        NotYetDue(s1);
      }
    }
  }

  lemma StillQueued(s: State, t: TimerId)
    ensures Outcome(s, t, false) <==> StopQueued(s, t)
  {
  }

  lemma NotSwitched(s: State, now: nat)
    requires !(Wrap(now) < s.lastTime)
    ensures Sample(s, now) == s.(lastTime := Wrap(now), lastClock := now)
  {
  }

  lemma NotYetDue(s: State)
    requires Good(s) && s.current != [] && s.current[0].value > s.lastTime
    ensures s.lastClock < s.current[0].due
  {
    hide Wrap, Epoch, LogOk, Settings;
    TailOk(s.current, Epoch(s.lastClock));
    ReachedInTurn(s.current[0].due, s.lastClock);
  }

  lemma ReceiveOutcome(s: State, now: nat, t: TimerId)
    requires StopQueued(s, t) && t in s.timers && s.queue != [] && s.queue[0].timer != t
    ensures SameTimer(s, ProcessCommand(s, now), t)
    ensures Outcome(ProcessCommand(s, now), t, FallsBehind(s, Receive(now), t))
  {
    hide Sample, ProcessCommand, Outcome, StopQueued, Wrap, Untouched, Without;
    var s0, s1 := Taken(s), Sample(Taken(s), now);
    TakenOther(s, t);
    StillQueued(s, t);
    OutcomeStays(s, s0, t, false);
    StillQueued(s0, t);
    OfWithout(s.current, s.queue[0].timer, t);
    SampleOutcome(s0, now, t);
    AfterSample(s, now, t);
    OutcomeStays(s1, ProcessCommand(s, now), t, FallsBehind(s, Receive(now), t));
  }

  /** The daemon has not come to the stop yet. */
  ghost predicate NotTaken(s: State, steps: seq<Step>, t: TimerId)
    requires Permitted(s, steps)
    decreases |steps|
  {
    steps == [] || ((steps[0].Receive? ==> s.queue[0].timer != t) && NotTaken(Apply(s, steps[0]), steps[1..], t))
  }

  /** At some step the daemon falls behind with the timer. */
  ghost predicate FellBehind(s: State, steps: seq<Step>, t: TimerId)
    requires Permitted(s, steps)
    decreases |steps|
  {
    steps != [] && (FallsBehind(s, steps[0], t) || FellBehind(Apply(s, steps[0]), steps[1..], t))
  }

  lemma StepOutcome(s: State, step: Step, t: TimerId)
    requires Good(s) && Allowed(s, step) && LeavesAlone(step, t) && StopQueued(s, t) && t in s.timers
    requires step.Receive? ==> s.queue[0].timer != t
    ensures t in Apply(s, step).timers && Outcome(Apply(s, step), t, FallsBehind(s, step, t))
  {
    hide Good, ProcessTimer, ProcessCommand, Outcome, StopQueued, Untouched;
    StillQueued(s, t);
    match step
    case Create(u, period, autoReload) =>
      TimerOther(s, u, Timer(period, autoReload), t);
      OutcomeStays(s, Apply(s, step), t, false);
    case Post(c) =>
      PostOther(s, c, t);
      OutcomeStays(s, Apply(s, step), t, false);
    case Look(now) => LookOutcome(s, now, t);
    case Receive(now) => ReceiveOutcome(s, now, t);
  }

  /** Once overtaken the timer is on no list, so that nothing changes any more. */
  lemma StepOvertaken(s: State, step: Step, t: TimerId)
    requires Good(s) && Allowed(s, step) && LeavesAlone(step, t) && Overtaken(s, t) && t in s.timers
    requires step.Receive? ==> s.queue[0].timer != t
    ensures t in Apply(s, step).timers && Overtaken(Apply(s, step), t)
  {
    hide Good, ProcessTimer, ProcessCommand, Untouched, CommandsOf, Listed;
    match step {
      case Create(u, period, autoReload) => TimerOther(s, u, Timer(period, autoReload), t);
      case Post(c) => PostOther(s, c, t);
      case Look(now) => LookSilent(s, now, t);
      case Receive(now) => ReceiveSilent(s, now, t);
    }
    OutcomeStays(s, Apply(s, step), t, true);
  }

  lemma {:induction false} RunOutcome(s: State, steps: seq<Step>, t: TimerId, behind: bool)
    requires Good(s) && Permitted(s, steps) && AllLeaveAlone(steps, t) && NotTaken(s, steps, t)
    requires t in s.timers && Outcome(s, t, behind)
    ensures Good(Run(s, steps)) && Outcome(Run(s, steps), t, behind || FellBehind(s, steps, t))
    decreases |steps|
  {
    hide Good, Apply, Allowed, Overtaken, StopQueued, FallsBehind;
    if steps != [] {
      var s1 := Apply(s, steps[0]);
      StepKeeps(s, steps[0]);
      if behind {
        StepOvertaken(s, steps[0], t);
        RunOutcome(s1, steps[1..], t, true);
      } else {
        StepOutcome(s, steps[0], t);
        RunOutcome(s1, steps[1..], t, FallsBehind(s, steps[0], t));
      }
    }
  }

  /** The state in which a stop has just been posted. */
  function StopPosted(s: State, t: TimerId): State {
    s.(queue := s.queue + [StopTimer(t)])
  }

  lemma PostedIsQueued(s: State, t: TimerId)
    requires Good(s) && |Listed(s, t)| <= 1 && CommandsOf(s.queue, t) == []
    ensures Good(StopPosted(s, t)) && StopQueued(StopPosted(s, t), t)
  {
    hide Good, CommandsOf;
    PostKeeps(s, StopTimer(t));
    OneCommand(s.queue, StopTimer(t), t);
  }

  /** A stop that is posted while nothing else is queued for the timer, which may be active, holds
      exactly when the daemon does not fall behind with the timer before it takes the stop; and then even
      in histories that are not the loop's. */
  lemma PostedStopHoldsExactlyWhen(s: State, t: TimerId, steps: seq<Step>, now: nat)
    requires Good(s) && t in s.timers && |Listed(s, t)| <= 1 && CommandsOf(s.queue, t) == []
    requires var s0 := StopPosted(s, t); Permitted(s0, steps) && AllLeaveAlone(steps, t) && NotTaken(s0, steps, t)
    requires var s1 := Run(StopPosted(s, t), steps);
             Allowed(s1, Receive(now)) && s1.queue[0] == StopTimer(t) && Prompt(ProcessCommand(s1, now).queue, now)
    ensures var s2 := ProcessCommand(Run(StopPosted(s, t), steps), now);
            && (SilentInLoop(s2, t) <==> !FellBehind(StopPosted(s, t), steps, t))
            && (SilentInLoop(s2, t) <==> SilentForever(s2, t))
  {
    hide Good, ProcessCommand, Run, Permitted, NotTaken, FellBehind, CommandsOf, Prompt, Listed, CalledBackAfter,
         SilentInLoop, SilentForever;
    PostedIsQueued(s, t);
    var s0 := StopPosted(s, t);
    RunOutcome(s0, steps, t, false);
    var s1 := Run(s0, steps);
    if FellBehind(s0, steps, t) {
      var s2, rest := ProcessCommand(s1, now), CommandsOf(s1.queue[1..], t);
      StopTaken(s1, now, t);
      FirstOfCommands(s1.queue, t);
      assert CommandsOf(s1.queue, t) == [StopTimer(t)] + rest;
      assert rest[0] == CommandsOf(s1.queue, t)[1] && rest[0] in rest;
      ProcessCommandKeeps(s1, now);
      var calling := RevivedFires(s2, t);
      NotSilent(s2, calling, t);
    } else {
      PostedStopHolds(s, t, steps, now);
      ForeverInLoop(ProcessCommand(s1, now), t);
    }
  }

  lemma PostedStopHolds(s: State, t: TimerId, steps: seq<Step>, now: nat)
    requires Good(s) && t in s.timers && |Listed(s, t)| <= 1 && CommandsOf(s.queue, t) == []
    requires var s0 := StopPosted(s, t);
             && Permitted(s0, steps) && AllLeaveAlone(steps, t) && NotTaken(s0, steps, t)
             && !FellBehind(s0, steps, t) && Run(s0, steps).queue != [] && Run(s0, steps).queue[0] == StopTimer(t)
    ensures SilentForever(ProcessCommand(Run(StopPosted(s, t), steps), now), t)
  {
    hide Good, ProcessCommand, Run, Permitted, NotTaken, FellBehind, CommandsOf, Listed, SilentForever;
    PostedIsQueued(s, t);
    RunOutcome(StopPosted(s, t), steps, t, false);
    var s1 := Run(StopPosted(s, t), steps);
    StopTaken(s1, now, t);
    FirstOfCommands(s1.queue, t);
    assert CommandsOf(s1.queue, t) == [StopTimer(t)] + CommandsOf(s1.queue[1..], t);
    QuietForever(ProcessCommand(s1, now), t);
  }

  lemma ForeverInLoop(s: State, t: TimerId)
    requires SilentForever(s, t)
    ensures SilentInLoop(s, t)
  {
    hide DuesOf, Run, Permitted, InLoop;
  }

  /** Timer 0 with period 10 is active and will expire at time 10. */
  function ActiveTimer(): State {
    State(map[0 := Timer(10, true)], [Entry(0, 10, 10)], [], [], 5, 5, [])
  }

  lemma ActiveIsReached()
    ensures var steps := [Create(0, 10, true), Post(StartTimer(0, 0, 0)), Receive(5)];
            Permitted(Initial(), steps) && Run(Initial(), steps) == ActiveTimer()
  {
    var s1 := Apply(Initial(), Create(0, 10, true));
    var s2 := Apply(s1, Post(StartTimer(0, 0, 0)));
    assert Allowed(s2, Receive(5)) && Apply(s2, Receive(5)) == ActiveTimer();
    RunsThen(s2, Receive(5), []);
    RunsThen(s1, Post(StartTimer(0, 0, 0)), [Receive(5)]);
    RunsThen(Initial(), Create(0, 10, true), [Post(StartTimer(0, 0, 0)), Receive(5)]);
  }

  /** Here, in a reachable state, a stop is posted before the timer expires, but the daemon, which has
      found its queue empty, next looks at time 25, a whole period late: the stop does not hold. */
  lemma PostedStopCanFail()
    ensures exists steps :: Permitted(Initial(), steps) && Run(Initial(), steps) == ActiveTimer()
    ensures var late := [Post(StopTimer(0)), Look(25)];
            && Permitted(ActiveTimer(), late) && InLoop(ActiveTimer(), late, false)
            && FellBehind(StopPosted(ActiveTimer(), 0), [Look(25)], 0)
            && var s1 := Run(ActiveTimer(), late);
               s1.queue != [] && s1.queue[0] == StopTimer(0) && !SilentInLoop(ProcessCommand(s1, 25), 0)
  {
    hide SilentInLoop, Good, ProcessCommand, ProcessTimer, FallsBehind;
    ActiveIsReached();
    InitialIsGood();
    RunKeeps(Initial(), [Create(0, 10, true), Post(StartTimer(0, 0, 0)), Receive(5)]);
    LateLook();
    LateStop();
    RunsThen(ActiveTimer(), Post(StopTimer(0)), [Look(25)]);
    assert [Post(StopTimer(0))] + [Look(25)] == [Post(StopTimer(0)), Look(25)];
    assert [Post(StopTimer(0)), Look(25)][1..] == [Look(25)];
    PostedStopHoldsExactlyWhen(ActiveTimer(), 0, [Look(25)], 25);
  }

  lemma LateLook()
    ensures var s0 := StopPosted(ActiveTimer(), 0);
            && Permitted(s0, [Look(25)]) && FellBehind(s0, [Look(25)], 0) && NotTaken(s0, [Look(25)], 0)
            && InLoop(s0, [Look(25)], true)
            && Run(s0, [Look(25)]) == s0.(current := [], queue := [StopTimer(0), StartTimer(0, 10, 10)], lastTime := 25,
                                          lastClock := 25, log := [Fired(0, 10, 25)])
  {
    var s0 := StopPosted(ActiveTimer(), 0);
    assert [Look(25)][1..] == [];
    assert Apply(s0, Look(25)).queue == [StopTimer(0), StartTimer(0, 10, 10)];
  }

  lemma LateStop()
    ensures var s1 := Run(StopPosted(ActiveTimer(), 0), [Look(25)]);
            ProcessCommand(s1, 25).queue == [StartTimer(0, 10, 10)]
  {
    hide Drain, CommandsOf;
    LateLook();
  }

  // ---- A stop in good time ----

  /** The daemon's samples all come before `due`. */
  ghost predicate AllBefore(steps: seq<Step>, due: nat) {
    forall step <- steps :: step.Look? || step.Receive? ==> step.now < due
  }

  /** A list that is switched away holds no expiry that is still ahead. */
  lemma NotOnOldList(s: State, now: nat, t: TimerId, due: nat)
    requires Good(s) && InTime(s, now) && ListedFor(s, t, due) && now < due && Wrap(now) < s.lastTime
    ensures Of(s.current, t) == []
  {
    hide ListOk, LogOk, Settings, Wrap, Epoch;
    if Of(s.current, t) != [] {
      var e := Of(s.current, t)[0];
      assert Listed(s, t)[0] == e;
      OfIsIn(s.current, t, e);
      TailOk(s.current, Epoch(s.lastClock));
      SampleTurn(s, now);
      InList(s.current, e, Epoch(s.lastClock));
      EarlierTurn(due, now);
      assert false;
    }
  }

  lemma InList(entries: seq<Entry>, e: Entry, epoch: nat)
    requires ListOk(entries, epoch) && e in entries
    ensures EntryOk(e, epoch)
  {
  }

  lemma EarlySample(s: State, now: nat, t: TimerId, due: nat)
    requires Good(s) && InTime(s, now) && ListedFor(s, t, due) && now < due
    ensures Untouched(s, Sample(s, now), t)
  {
    hide Good, Wrap, ListedFor, Drain, Of;
    if Wrap(now) < s.lastTime {
      NotOnOldList(s, now, t, due);
      DrainIdle(s, now, t);
      DrainEmpties(s, now);
      SwappedUntouched(Drain(s, now), Sample(s, now), t);
      UntouchedTwice(s, Drain(s, now), Sample(s, now), t);
    } else {
      ClockOnly(s, Sample(s, now), t);
    }
  }

  lemma FirstIsListed(s: State, t: TimerId, due: nat)
    requires ListedFor(s, t, due) && s.current != [] && s.current[0].owner == t
    ensures s.current[0].due == due
  {
    assert Listed(s, t)[0] == s.current[0];
  }

  lemma EarlyLook(s: State, now: nat, t: TimerId, due: nat)
    requires Good(s) && InTime(s, now) && ListedFor(s, t, due) && now < due
    ensures Untouched(s, ProcessTimer(s, now), t) && !FallsBehind(s, Look(now), t)
  {
    hide Good, Wrap, Sample, ProcessExpired, Untouched, ListedFor;
    EarlySample(s, now, t, due);
    SampleKeeps(s, now);
    SampleTime(s, now);
    var s1 := Sample(s, now);
    StaysListed(s, s1, t, due);
    if Wrap(now) < s.lastTime {
      NotOnOldList(s, now, t, due);
    } else {
      NotSwitched(s, now);
      if s1.current != [] && s1.current[0].owner == t {
        FirstIsListed(s1, t, due);
      }
      if s1.current != [] && s1.current[0].value <= Wrap(now) {
        HeadIsOver(s1);
        ExpiredOther(s1, now, t);
        UntouchedTwice(s, s1, ProcessExpired(s1, now), t);
      }
    }
  }

  lemma EarlyReceive(s: State, now: nat, t: TimerId, due: nat)
    requires Good(s) && Allowed(s, Receive(now)) && s.queue[0].timer != t && ListedFor(s, t, due) && now < due
    ensures Untouched(s, ProcessCommand(s, now), t) && !FallsBehind(s, Receive(now), t)
  {
    hide Good, Wrap, Sample, ProcessCommand, Untouched, ListedFor, Without;
    var s0, s1 := Taken(s), Sample(Taken(s), now);
    TakenKeeps(s);
    TakenOther(s, t);
    StaysListed(s, s0, t, due);
    EarlySample(s0, now, t, due);
    UntouchedTwice(s, s0, s1, t);
    AfterSample(s, now, t);
    UntouchedTwice(s, s1, ProcessCommand(s, now), t);
    if Wrap(now) < s.lastTime {
      NotOnOldList(s, now, t, due);
    }
  }

  lemma {:induction false} InGoodTime(s: State, steps: seq<Step>, t: TimerId, due: nat)
    requires Good(s) && ListedFor(s, t, due) && t in s.timers
    requires Permitted(s, steps) && AllLeaveAlone(steps, t) && NotTaken(s, steps, t) && AllBefore(steps, due)
    ensures !FellBehind(s, steps, t)
    decreases |steps|
  {
    hide Good, ListedFor, Untouched, FallsBehind, ProcessTimer, ProcessCommand;
    if steps != [] {
      var step, s1 := steps[0], Apply(s, steps[0]);
      assert LeavesAlone(step, t);
      StepKeeps(s, step);
      match step {
        case Create(u, period, autoReload) =>
          TimerOther(s, u, Timer(period, autoReload), t);
          NoSample(s, step, t);
        case Post(c) =>
          PostOther(s, c, t);
          NoSample(s, step, t);
        case Look(now) => EarlyLook(s, now, t, due);
        case Receive(now) => EarlyReceive(s, now, t, due);
      }
      StaysListed(s, s1, t, due);
      StaysKnown(s, s1, t);
      InGoodTime(s1, steps[1..], t, due);
    }
  }

  lemma NoSample(s: State, step: Step, t: TimerId)
    requires !step.Look? && !step.Receive?
    ensures !FallsBehind(s, step, t)
  {
  }

  lemma StaysKnown(s: State, s1: State, t: TimerId)
    requires t in s.timers && Untouched(s, s1, t)
    ensures t in s1.timers
  {
    assert Has(s, t, s.timers[t]);
  }

  /** In particular a stop holds if all the daemon does before it takes the stop is done before the
      timer's next expiry. */
  lemma StopInGoodTimeHolds(s: State, t: TimerId, due: nat, steps: seq<Step>, now: nat)
    requires Good(s) && t in s.timers && ListedFor(s, t, due) && CommandsOf(s.queue, t) == []
    requires var s0 := StopPosted(s, t);
             Permitted(s0, steps) && AllLeaveAlone(steps, t) && NotTaken(s0, steps, t) && AllBefore(steps, due)
    requires var s1 := Run(StopPosted(s, t), steps); s1.queue != [] && s1.queue[0] == StopTimer(t)
    ensures SilentForever(ProcessCommand(Run(StopPosted(s, t), steps), now), t)
  {
    hide Good, ProcessCommand, Run, Permitted, NotTaken, FellBehind, SilentForever, CommandsOf;
    PostedIsQueued(s, t);
    InGoodTime(StopPosted(s, t), steps, t, due);
    PostedStopHolds(s, t, steps, now);
  }
}
