/** When a stop holds.  The daemon may have commands queued behind a stop, its own among them, and
    whether the timer is ever called back again depends on these, and on the samples that are taken
    between them. */
module TimerStops {
  import opened RingList
  import opened Ticks
  import opened TimedLists
  import opened Timers
  import opened TimerRuns
  import opened TimerCallbacks
  import opened TimerCommands
  import opened TimerLoop

  /** The command makes its timer active. */
  predicate Arms(c: Command) {
    c.StartTimer? || c.ChangePeriod?
  }

  /** The timer is on no list, and no queued command makes it active. */
  ghost predicate Quiet(s: State, t: TimerId) {
    Listed(s, t) == [] && forall c <- CommandsOf(s.queue, t) :: !Arms(c)
  }

  /** Without a new command for it, the timer is not called back in any history, even one in which the
      daemon looks at its first timer while commands are queued. */
  ghost predicate SilentForever(s: State, t: TimerId) {
    forall steps :: Permitted(s, steps) && AllLeaveAlone(steps, t) ==> DuesOf(Run(s, steps).log, t) == DuesOf(s.log, t)
  }

  /** A history of the daemon's loop without a new command for the timer. */
  ghost predicate LoopWithout(s: State, steps: seq<Step>, t: TimerId) {
    Permitted(s, steps) && AllLeaveAlone(steps, t) && InLoop(s, steps, false)
  }

  /** Without a new command for it, the timer is not called back in any history of the daemon's loop. */
  ghost predicate SilentInLoop(s: State, t: TimerId) {
    forall steps :: LoopWithout(s, steps, t) ==> DuesOf(Run(s, steps).log, t) == DuesOf(s.log, t)
  }

  // ---- A quiet timer stays silent ----

  lemma StaysQuiet(s: State, s1: State, t: TimerId)
    requires Quiet(s, t) && Untouched(s, s1, t)
    ensures Quiet(s1, t) && DuesOf(s1.log, t) == DuesOf(s.log, t)
  {
  }

  /** A stop or a deletion is taken: what is queued behind it is left, and nobody is called back. */
  lemma StopTaken(s: State, now: nat, t: TimerId)
    requires s.queue != [] && s.queue[0].timer == t && !Arms(s.queue[0])
    ensures var s1 := ProcessCommand(s, now);
            && Listed(s1, t) == [] && CommandsOf(s1.queue, t) == CommandsOf(s.queue[1..], t)
            && DuesOf(s1.log, t) == DuesOf(s.log, t)
  {
    hide Of, Without, CommandsOf, DuesOf, Sample;
    OfWithout(s.current, t, t);
    OfWithout(s.overflow, t, t);
    SampleUnlisted(Taken(s), now, t);
  }

  lemma QuietStep(s: State, step: Step, t: TimerId)
    requires Quiet(s, t) && Allowed(s, step) && LeavesAlone(step, t)
    ensures Quiet(Apply(s, step), t) && DuesOf(Apply(s, step).log, t) == DuesOf(s.log, t)
  {
    hide Listed, CommandsOf, DuesOf, ProcessTimer, ProcessCommand, Untouched;
    var s1 := Apply(s, step);
    match step
    case Create(u, period, autoReload) => CreatedSilent(s, u, Timer(period, autoReload), t);
    case Post(c) =>
      PostOther(s, c, t);
      StaysQuiet(s, s1, t);
    case Look(now) =>
      LookSilent(s, now, t);
      StaysQuiet(s, s1, t);
    case Receive(now) =>
      if s.queue[0].timer == t {
        FirstOfCommands(s.queue, t);
        StopTaken(s, now, t);
      } else {
        ReceiveSilent(s, now, t);
        StaysQuiet(s, s1, t);
      }
  }

  lemma FirstOfCommands(queue: seq<Command>, t: TimerId)
    requires queue != [] && queue[0].timer == t
    ensures CommandsOf(queue, t) == [queue[0]] + CommandsOf(queue[1..], t)
    ensures queue[0] in CommandsOf(queue, t) && forall c <- CommandsOf(queue[1..], t) :: c in CommandsOf(queue, t)
  {
  }

  lemma {:induction false} QuietStaysSilent(s: State, steps: seq<Step>, t: TimerId)
    requires Quiet(s, t) && Permitted(s, steps) && AllLeaveAlone(steps, t)
    ensures DuesOf(Run(s, steps).log, t) == DuesOf(s.log, t)
    decreases |steps|
  {
    hide Quiet, DuesOf, Apply, Allowed;
    if steps != [] {
      QuietStep(s, steps[0], t);
      QuietStaysSilent(Apply(s, steps[0]), steps[1..], t);
    }
  }

  // ---- The queued command that revives the timer ----

  /** Among the commands for the timer is a start, or the last of them is a new period. */
  predicate Revives(commands: seq<Command>) {
    (exists c :: c in commands && c.StartTimer?) || (commands != [] && commands[|commands| - 1].ChangePeriod?)
  }

  function Max(a: nat, b: nat): nat {
    if a >= b then a else b
  }

  /** A start fires the timer at once if the daemon takes it a period late. */
  lemma StartFires(s: State) returns (steps: seq<Step>)
    requires Good(s) && s.queue != [] && s.queue[0].StartTimer? && Prompt([s.queue[0]], s.lastClock)
    ensures CalledBackAfter(s, steps, s.queue[0].timer)
  {
    hide ListOk, LogOk, Wrap, Epoch, Sample, CalledBackAfter, DuesOf, InsertTimer;
    var c := s.queue[0];
    PeriodInRange(s, c.timer);
    TakenKeeps(s);
    var at := Max(s.lastClock, c.since + PeriodOf(s, c.timer));
    SampleKeeps(Taken(s), at);
    SampleTime(Taken(s), at);
    SampleGrows(Taken(s), at);
    var s1 := Sample(Taken(s), at);
    StartLate(s1, c);
    DuesGrow(s.log, s1.log, c.timer);
    FiredCounts(s1.log, Fired(c.timer, c.since + PeriodOf(s, c.timer), at), ProcessCommand(s, at).log);
    OnlyStep(s, Receive(at), c.timer);
    steps := [Receive(at)];
  }

  lemma StartLate(s: State, c: Command)
    requires Good(s) && c.StartTimer? && CommandOk(c)
    requires c.since + PeriodOf(s, c.timer) <= s.lastClock < c.since + TICKS
    ensures s.log + [Fired(c.timer, c.since + PeriodOf(s, c.timer), s.lastClock)] <= ProcessStart(s, c, s.lastClock).log
  {
    hide ListOk, LogOk, Wrap, Epoch, InsertTimer;
    WrapsDown(c.since, PeriodOf(s, c.timer));
    InsertKeeps(s, c.timer, c.since);
  }

  /** Taken at the last tick but some of a turn, a new period can expire in that turn and be found by the
      sample for a command for another timer that stands right behind it. */
  predicate Sandwiched(queue: seq<Command>, k: nat, now: nat) {
    && k + 1 < |queue| && queue[k].ChangePeriod? && queue[k + 1].timer != queue[k].timer
    && 0 < Wrap(now) && Wrap(now) + queue[k].period < TICKS
    && (queue[k + 1].StartTimer? ==> TurnAfter(now) < queue[k + 1].since + TICKS)
  }

  /** Wherever in the queue a start stands, or a new period that the next sample can find expired, some
      history calls the timer back: one in which the daemon only takes commands. */
  lemma {:induction false} ArmedFires(s: State, k: nat) returns (steps: seq<Step>)
    requires Good(s) && k < |s.queue| && Prompt(s.queue, s.lastClock)
    requires s.queue[k].StartTimer? || Sandwiched(s.queue, k, s.lastClock)
    ensures CalledBackAfter(s, steps, s.queue[k].timer)
    decreases k
  {
    hide Good, CalledBackAfter, ProcessCommand, Prompt, Work, DueCount, OneLess, Wrap, TurnAfter;
    var now := s.lastClock;
    if k == 0 && s.queue[0].StartTimer? {
      PromptHead(s.queue, now);
      steps := StartFires(s);
    } else if k == 0 {
      steps := SandwichFires(s);
    } else {
      ReceiveNow(s);
      ReceiveGrows(s, now);
      var s1 := ProcessCommand(s, now);
      SameBehind(s.queue, s1.queue, k);
      steps := ArmedFires(s1, k - 1);
      FirstStep(s, Receive(now), steps, s.queue[k].timer);
      steps := [Receive(now)] + steps;
    }
  }

  lemma PromptHead(queue: seq<Command>, now: nat)
    requires queue != [] && Prompt(queue, now)
    ensures Prompt([queue[0]], now)
  {
    assert queue[0] in queue;
  }

  lemma SameBehind(queue: seq<Command>, after: seq<Command>, k: nat)
    requires 0 < k < |queue| && queue[1..] <= after
    ensures k - 1 < |after| && after[k - 1] == queue[k]
    ensures k + 1 < |queue| ==> k < |after| && after[k] == queue[k + 1]
  {
  }

  lemma ReachedThisTurn(now: nat, period: nat)
    requires Wrap(now) + period < TICKS
    ensures Epoch(now + period) == Epoch(now)
  {
    WrapDifference(now, now + period);
    EpochAndTick(now);
    EpochAndTick(now + period);
  }

  lemma InsertUnlisted(s: State, t: TimerId, next: nat, now: nat, commanded: nat, due: nat)
    requires Listed(s, t) == []
    ensures var (expired, s1) := InsertTimer(s, t, next, now, commanded, due);
            && s1.timers == s.timers && s1.queue == s.queue
            && Listed(s1, t) == if expired then [] else [Entry(t, next, due)]
  {
    hide Inserted, Of, Classify;
    OfInserted(s.current, Entry(t, next, due), t);
    OfInserted(s.overflow, Entry(t, next, due), t);
  }

  /** A new period puts the timer on a list, and on no other. */
  lemma ChangeListed(s: State)
    requires Good(s) && s.queue != [] && s.queue[0].ChangePeriod?
    ensures ListedFor(ProcessCommand(s, s.lastClock), s.queue[0].timer, s.lastClock + s.queue[0].period)
    ensures ProcessCommand(s, s.lastClock).queue == s.queue[1..]
  {
    hide ListOk, LogOk, Settings, Sample, InsertTimer, Without, Of, Wrap, Epoch;
    var t, period, now := s.queue[0].timer, s.queue[0].period, s.lastClock;
    TakenKeeps(s);
    SampleAgain(Taken(s));
    OfWithout(s.current, t, t);
    OfWithout(s.overflow, t, t);
    var s2 := Taken(s).(timers := s.timers[t := Timer(period, Reloads(s, t))]);
    InsertUnlisted(s2, t, Wrap(now + period), Wrap(now), Wrap(now), now + period);
    NotExpired(s2, t, now, period);
  }

  lemma {:induction false} InOf(entries: seq<Entry>, e: Entry)
    requires e in entries
    ensures Of(entries, e.owner) != []
  {
    if entries[0].owner != e.owner {
      InOf(entries[1..], e);
    }
  }

  /** A timer that is on the list when the lists are switched is called back. */
  lemma {:induction false} DrainCalls(s: State, now: nat, t: TimerId)
    requires Of(s.current, t) != []
    ensures |DuesOf(Drain(s, now).log, t)| > |DuesOf(s.log, t)|
    decreases Load(s.current)
  {
    hide Inserted, Load, DuesOf, Wrap;
    DrainOneShrinks(s, now);
    var e, s1 := s.current[0], DrainOne(s, now);
    DrainGrows(s1, now);
    if e.owner == t {
      FiredCounts(s.log, Fired(t, e.due, now), Drain(s, now).log);
    } else {
      DrainOthers(s, now, t);
      DrainCalls(s1, now, t);
    }
  }

  /** The sample that is taken for a command for another timer ends a turn of the tick, and the timer is
      still on the list of that turn. */
  predicate Caught(s: State, step: Step, t: TimerId) {
    && step.Receive? && s.queue != [] && s.queue[0].timer != t
    && Wrap(step.now) < s.lastTime && Of(s.current, t) != []
  }

  lemma CaughtCalls(s: State, now: nat, t: TimerId)
    requires Caught(s, Receive(now), t)
    ensures |DuesOf(ProcessCommand(s, now).log, t)| > |DuesOf(s.log, t)|
  {
    hide Drain, Without, Wrap, DuesOf, ProcessStart, ProcessChange, Of;
    OfWithout(s.current, s.queue[0].timer, t);
    DrainCalls(Taken(s), now, t);
    AfterSample(s, now, t);
    SampleSwitches(Taken(s), now);
  }

  lemma SampleSwitches(s: State, now: nat)
    requires Wrap(now) < s.lastTime
    ensures Sample(s, now).log == Drain(s, now).log
  {
  }

  /** The new period is taken now, and the command behind it at the first tick of the next turn. */
  lemma SandwichFires(s: State) returns (steps: seq<Step>)
    requires Good(s) && s.queue != [] && Prompt(s.queue, s.lastClock) && Sandwiched(s.queue, 0, s.lastClock)
    ensures CalledBackAfter(s, steps, s.queue[0].timer)
  {
    hide Good, CalledBackAfter, ProcessCommand, Work, DueCount, Wrap, Epoch, TurnAfter, DuesOf, OneLess;
    var t, due, now, next := s.queue[0].timer, s.lastClock + s.queue[0].period, s.lastClock, TurnAfter(s.lastClock);
    ReceiveNow(s);
    var s1 := ProcessCommand(s, now);
    ChangeListed(s);
    ReachedThisTurn(now, s.queue[0].period);
    TurnAfterIsNext(now);
    TurnBegins(now);
    GoodTime(s1);
    WhereListed(s1, t, due);
    InOf(s1.current, Entry(t, Wrap(due), due));
    assert s1.queue[0] == s.queue[1];
    assert s.queue[1] in s.queue;
    CaughtCalls(s1, next, t);
    OnlyStep(s1, Receive(next), t);
    steps := [Receive(next)];
    FirstStep(s, Receive(now), steps, t);
    steps := [Receive(now)] + steps;
  }

  lemma TurnBegins(now: nat)
    ensures Wrap(TurnAfter(now)) == 0
  {
  }

  /** The last command for the timer is a new period: the timer stays on its list, and the loop gets to it. */
  lemma {:induction false} LastArms(s: State, t: TimerId, due: nat) returns (steps: seq<Step>)
    requires Good(s) && Prompt(s.queue, s.lastClock)
    requires var commands := CommandsOf(s.queue, t);
             if commands == [] then Waits(s, t, due)
             else commands[|commands| - 1].ChangePeriod? && forall c <- commands :: !c.StartTimer?
    ensures CalledBackAfter(s, steps, t)
    decreases Work(s.queue, s.lastClock)
  {
    hide Good, Prompt, CalledBackAfter, ProcessCommand, Work, DueCount, CommandsOf, ListedFor, Untouched;
    var commands, now := CommandsOf(s.queue, t), s.lastClock;
    if commands == [] {
      steps := ListedFires(s, t, due);
    } else {
      NoCommands(s.queue, t);
      ReceiveNow(s);
      var s1, head := ProcessCommand(s, now), s.queue[0];
      var due1 := if head.ChangePeriod? then now + head.period else due;
      if head.timer == t {
        FirstOfCommands(s.queue, t);
        assert commands == [head] + CommandsOf(s.queue[1..], t);
        if head.ChangePeriod? { ChangeListed(s); }
        RestOfCommands(commands, head, CommandsOf(s1.queue, t));
      } else {
        OtherReceived(s, t);
        SameCommands(s, s1, t);
      }
      steps := LastArms(s1, t, due1);
      FirstStep(s, Receive(now), steps, t);
      steps := [Receive(now)] + steps;
    }
  }

  lemma NoCommands(queue: seq<Command>, t: TimerId)
    requires CommandsOf(queue, t) != []
    ensures queue != []
  {
  }

  lemma RestOfCommands(commands: seq<Command>, head: Command, rest: seq<Command>)
    requires commands == [head] + rest
    ensures rest == [] ==> commands[|commands| - 1] == head
    ensures rest != [] ==> commands[|commands| - 1] == rest[|rest| - 1] && forall c <- rest :: c in commands
  {
  }

  lemma SameCommands(s: State, s1: State, t: TimerId)
    requires Untouched(s, s1, t)
    ensures CommandsOf(s1.queue, t) == CommandsOf(s.queue, t)
  {
  }

  // ---- A stop that nothing revives ----

  /** The last command for the timer takes it off its list, none starts it, and it is on a list only while
      that command, or one in front of it, is still queued; so the daemon cannot look meanwhile. */
  ghost predicate Cancelled(s: State, t: TimerId, found: bool) {
    && !Revives(CommandsOf(s.queue, t))
    && (Listed(s, t) != [] ==> CommandsOf(s.queue, t) != [] && !found)
  }

  lemma SampleUncaught(s: State, now: nat, t: TimerId)
    requires !(Wrap(now) < s.lastTime && Of(s.current, t) != [])
    ensures Untouched(s, Sample(s, now), t)
  {
    hide Drain, Wrap;
    if Wrap(now) < s.lastTime {
      DrainIdle(s, now, t);
      DrainEmpties(s, now);
      SwappedUntouched(Drain(s, now), Sample(s, now), t);
      UntouchedTwice(s, Drain(s, now), Sample(s, now), t);
    }
  }

  lemma ReceiveUncaught(s: State, now: nat, t: TimerId)
    requires s.queue != [] && s.queue[0].timer != t && !Caught(s, Receive(now), t)
    ensures Untouched(s, ProcessCommand(s, now), t)
  {
    hide Sample, ProcessCommand, Untouched, Without, Wrap, Of;
    TakenOther(s, t);
    OfWithout(s.current, s.queue[0].timer, t);
    SampleUncaught(Taken(s), now, t);
    UntouchedTwice(s, Taken(s), Sample(Taken(s), now), t);
    AfterSample(s, now, t);
    UntouchedTwice(s, Sample(Taken(s), now), ProcessCommand(s, now), t);
  }

  lemma ChangeTaken(s: State, now: nat, t: TimerId)
    requires s.queue != [] && s.queue[0].timer == t && s.queue[0].ChangePeriod?
    ensures var s1 := ProcessCommand(s, now);
            CommandsOf(s1.queue, t) == CommandsOf(s.queue[1..], t) && DuesOf(s1.log, t) == DuesOf(s.log, t)
  {
    hide Of, Without, CommandsOf, DuesOf, Sample, InsertTimer, Wrap;
    OfWithout(s.current, t, t);
    OfWithout(s.overflow, t, t);
    SampleUnlisted(Taken(s), now, t);
    var s0, period := Sample(Taken(s), now), s.queue[0].period;
    InsertSame(s0.(timers := s0.timers[t := Timer(period, Reloads(s0, t))]), t, Wrap(now + period),
               Wrap(now), Wrap(now), now + period);
  }

  lemma NotRevived(commands: seq<Command>, head: Command, rest: seq<Command>)
    requires commands == [head] + rest && !Revives(commands)
    ensures !Revives(rest) && !head.StartTimer? && (rest == [] ==> !head.ChangePeriod?)
  {
    assert head in commands;
    assert rest != [] ==> commands[|commands| - 1] == rest[|rest| - 1];
  }

  /** The timer is called back by a step exactly if that catches it, and else stays cancelled. */
  lemma CancelledStep(s: State, step: Step, t: TimerId, found: bool)
    requires Cancelled(s, t, found) && Allowed(s, step) && LeavesAlone(step, t)
    requires step.Look? ==> found || s.queue == []
    ensures var s1 := Apply(s, step);
            if Caught(s, step, t) then |DuesOf(s1.log, t)| > |DuesOf(s.log, t)|
            else DuesOf(s1.log, t) == DuesOf(s.log, t)
                 && Cancelled(s1, t, (found || s.queue == []) && !step.Look? && !step.Receive?)
  {
    hide Listed, CommandsOf, DuesOf, ProcessTimer, ProcessCommand, Untouched, Revives, Wrap;
    EmptyHasNone(t);
    var s1 := Apply(s, step);
    match step
    case Create(u, period, autoReload) => CreatedSilent(s, u, Timer(period, autoReload), t);
    case Post(c) =>
      PostOther(s, c, t);
      SameForTimer(s, s1, t);
    case Look(now) =>
      LookSilent(s, now, t);
      SameForTimer(s, s1, t);
    case Receive(now) =>
      if s.queue[0].timer == t {
        CancelledReceive(s, now, t, found);
      } else if Caught(s, step, t) {
        CaughtCalls(s, now, t);
      } else {
        ReceiveUncaught(s, now, t);
        SameForTimer(s, s1, t);
      }
  }

  lemma EmptyHasNone(t: TimerId)
    ensures CommandsOf([], t) == []
  {
  }

  lemma SameForTimer(s: State, s1: State, t: TimerId)
    requires Untouched(s, s1, t)
    ensures Listed(s1, t) == Listed(s, t) && CommandsOf(s1.queue, t) == CommandsOf(s.queue, t)
    ensures DuesOf(s1.log, t) == DuesOf(s.log, t)
  {
  }

  lemma CancelledReceive(s: State, now: nat, t: TimerId, found: bool)
    requires Cancelled(s, t, found) && s.queue != [] && s.queue[0].timer == t
    ensures var s1 := ProcessCommand(s, now);
            DuesOf(s1.log, t) == DuesOf(s.log, t) && Cancelled(s1, t, false)
  {
    hide Listed, CommandsOf, DuesOf, ProcessCommand, Revives;
    FirstOfCommands(s.queue, t);
    NotRevived(CommandsOf(s.queue, t), s.queue[0], CommandsOf(s.queue[1..], t));
    if s.queue[0].ChangePeriod? {
      ChangeTaken(s, now, t);
    } else {
      StopTaken(s, now, t);
    }
  }

  /** At some step the daemon finds the timer expired when it ends a turn of the tick. */
  ghost predicate EverCaught(s: State, steps: seq<Step>, t: TimerId)
    requires Permitted(s, steps)
    decreases |steps|
  {
    steps != [] && (Caught(s, steps[0], t) || EverCaught(Apply(s, steps[0]), steps[1..], t))
  }

  lemma StepGrows(s: State, step: Step)
    requires Allowed(s, step)
    ensures s.log <= Apply(s, step).log
  {
    hide ProcessTimer, ProcessCommand;
    match step
    case Create(_, _, _) =>
    case Post(_) =>
    case Look(now) => LookGrows(s, now);
    case Receive(now) => ReceiveGrows(s, now);
  }

  lemma {:induction false} RunGrows(s: State, steps: seq<Step>)
    requires Permitted(s, steps)
    ensures s.log <= Run(s, steps).log
    decreases |steps|
  {
    hide Apply, Allowed;
    if steps != [] {
      StepGrows(s, steps[0]);
      RunGrows(Apply(s, steps[0]), steps[1..]);
    }
  }

  lemma {:induction false} CancelledRun(s: State, steps: seq<Step>, t: TimerId, found: bool)
    requires Cancelled(s, t, found) && Permitted(s, steps) && AllLeaveAlone(steps, t) && InLoop(s, steps, found)
    ensures DuesOf(Run(s, steps).log, t) == DuesOf(s.log, t) <==> !EverCaught(s, steps, t)
    decreases |steps|
  {
    hide Cancelled, Apply, Allowed, DuesOf, Caught;
    if steps != [] {
      var step, s1 := steps[0], Apply(s, steps[0]);
      assert LeavesAlone(step, t);
      CancelledStep(s, step, t, found);
      if Caught(s, step, t) {
        RunGrows(s1, steps[1..]);
        DuesGrow(s1.log, Run(s1, steps[1..]).log, t);
      } else {
        CancelledRun(s1, steps[1..], t, (found || s.queue == []) && !step.Look? && !step.Receive?);
      }
    }
  }

  // ---- The stop that the daemon takes ----

  /** Whatever the daemon does in its loop, it never ends a turn with the timer on that turn's list. */
  ghost predicate NeverCaught(s: State, t: TimerId) {
    forall steps :: LoopWithout(s, steps, t) ==> !EverCaught(s, steps, t)
  }

  /** After a stop (or a deletion) that nothing queued behind it revives, the timer is called back in a
      history of the loop exactly if the daemon catches it there: between a new period for it and the next
      command for it, a sample for another timer's command ends a turn of the tick. */
  lemma HoldsUntilCaught(s: State, now: nat, t: TimerId, steps: seq<Step>)
    requires s.queue != [] && s.queue[0].timer == t && !Arms(s.queue[0]) && !Revives(CommandsOf(s.queue[1..], t))
    requires LoopWithout(ProcessCommand(s, now), steps, t)
    ensures DuesOf(Run(ProcessCommand(s, now), steps).log, t) == DuesOf(s.log, t)
            <==> !EverCaught(ProcessCommand(s, now), steps, t)
  {
    hide ProcessCommand, CommandsOf, Listed, DuesOf, Revives, EverCaught, Run, Permitted, InLoop;
    StopTaken(s, now, t);
    CancelledRun(ProcessCommand(s, now), steps, t, false);
  }

  /** A stop (or a deletion) holds exactly when no start for the timer is queued behind it, the last
      command for the timer, if there is one, is no new period, and the daemon cannot catch the timer
      between a new period and the next command for it. */
  lemma StopHoldsExactlyWhen(s: State, now: nat, t: TimerId)
    requires Good(s) && Allowed(s, Receive(now)) && s.queue[0].timer == t && !Arms(s.queue[0])
    requires Prompt(ProcessCommand(s, now).queue, now)
    ensures DuesOf(ProcessCommand(s, now).log, t) == DuesOf(s.log, t)
    ensures SilentInLoop(ProcessCommand(s, now), t)
            <==> !Revives(CommandsOf(s.queue[1..], t)) && NeverCaught(ProcessCommand(s, now), t)
  {
    hide Good, ProcessCommand, DuesOf, CommandsOf, Prompt, CalledBackAfter, LoopWithout, Run, Revives, EverCaught;
    StopTaken(s, now, t);
    var s1, commands := ProcessCommand(s, now), CommandsOf(s.queue[1..], t);
    if Revives(commands) {
      ProcessCommandKeeps(s, now);
      var steps := RevivedFires(s1, t);
      NotSilent(s1, steps, t);
    } else {
      CancelledInLoop(s1, t);
    }
  }

  lemma RevivedFires(s: State, t: TimerId) returns (steps: seq<Step>)
    requires Good(s) && Prompt(s.queue, s.lastClock) && Revives(CommandsOf(s.queue, t))
    ensures CalledBackAfter(s, steps, t)
  {
    hide Good, Prompt, CalledBackAfter, CommandsOf, Sandwiched;
    if c :| c in CommandsOf(s.queue, t) && c.StartTimer? {
      var k := QueuedAt(s.queue, t, c);
      steps := ArmedFires(s, k);
    } else {
      steps := LastArms(s, t, 0);
    }
  }

  lemma CancelledInLoop(s: State, t: TimerId)
    requires Listed(s, t) == [] && !Revives(CommandsOf(s.queue, t))
    ensures SilentInLoop(s, t) <==> NeverCaught(s, t)
  {
    hide Listed, CommandsOf, DuesOf, Revives, EverCaught, Run, Permitted, InLoop;
    forall steps | LoopWithout(s, steps, t)
      ensures DuesOf(Run(s, steps).log, t) == DuesOf(s.log, t) <==> !EverCaught(s, steps, t)
    {
      CancelledRun(s, steps, t, false);
    }
  }

  lemma QuietForever(s: State, t: TimerId)
    requires Quiet(s, t)
    ensures SilentForever(s, t)
  {
    hide Quiet, DuesOf, Run, Permitted;
    forall steps | Permitted(s, steps) && AllLeaveAlone(steps, t)
      ensures DuesOf(Run(s, steps).log, t) == DuesOf(s.log, t)
    {
      QuietStaysSilent(s, steps, t);
    }
  }

  lemma NotSilent(s: State, steps: seq<Step>, t: TimerId)
    requires CalledBackAfter(s, steps, t)
    ensures !SilentInLoop(s, t) && !SilentForever(s, t)
  {
    hide DuesOf, Run, Permitted;
    assert LoopWithout(s, steps, t);
  }

  lemma {:induction false} QueuedAt(queue: seq<Command>, t: TimerId, c: Command) returns (k: nat)
    requires c in CommandsOf(queue, t)
    ensures k < |queue| && queue[k] == c && c.timer == t
  {
    if queue[0].timer == t && queue[0] == c {
      k := 0;
    } else {
      k := QueuedAt(queue[1..], t, c);
      k := k + 1;
    }
  }

  // ---- New periods that are followed at once ----

  /** Right behind each new period for the timer stands another command for it. */
  predicate BackToBack(queue: seq<Command>, t: TimerId) {
    forall k :: 0 <= k < |queue| && queue[k].timer == t && queue[k].ChangePeriod? ==>
      k + 1 < |queue| && queue[k + 1].timer == t
  }

  /** And if the timer is on a list, the next command is for it. */
  ghost predicate Followed(s: State, t: TimerId) {
    && BackToBack(s.queue, t)
    && (Listed(s, t) != [] ==> s.queue != [] && s.queue[0].timer == t)
  }

  lemma BackToBackAppend(queue: seq<Command>, more: seq<Command>, t: TimerId)
    requires queue <= more && CommandsOf(more, t) == CommandsOf(queue, t) && BackToBack(queue, t)
    ensures BackToBack(more, t)
  {
    hide CommandsOf;
    var rest := more[|queue|..];
    assert more == queue + rest;
    CommandsConcat(queue, rest, t);
    forall k | |queue| <= k < |more|
      ensures more[k].timer != t
    {
      NotAmong(rest, t, k - |queue|);
    }
  }

  lemma {:induction false} NotAmong(queue: seq<Command>, t: TimerId, k: nat)
    requires CommandsOf(queue, t) == [] && k < |queue|
    ensures queue[k].timer != t
  {
    if k > 0 {
      NotAmong(queue[1..], t, k - 1);
    }
  }

  lemma BackToBackRest(queue: seq<Command>, t: TimerId)
    requires queue != [] && BackToBack(queue, t)
    ensures BackToBack(queue[1..], t)
    ensures queue[0].timer == t && queue[0].ChangePeriod? ==> |queue| > 1 && queue[1].timer == t
  {
    var rest := queue[1..];
    forall k | 0 <= k < |rest| && rest[k].timer == t && rest[k].ChangePeriod?
      ensures k + 1 < |rest| && rest[k + 1].timer == t
    {
      assert queue[k + 1] == rest[k];
    }
  }

  lemma FollowedReceive(s: State, now: nat, t: TimerId, found: bool)
    requires Cancelled(s, t, found) && Followed(s, t) && s.queue != []
    ensures !Caught(s, Receive(now), t) && Followed(ProcessCommand(s, now), t)
  {
    hide Of, CommandsOf, ProcessCommand, Wrap, Revives, BackToBack;
    var s1 := ProcessCommand(s, now);
    ReceiveGrows(s, now);
    BackToBackRest(s.queue, t);
    if s.queue[0].timer == t {
      FirstOfCommands(s.queue, t);
      NotRevived(CommandsOf(s.queue, t), s.queue[0], CommandsOf(s.queue[1..], t));
      if s.queue[0].ChangePeriod? {
        ChangeTaken(s, now, t);
      } else {
        StopTaken(s, now, t);
      }
    } else {
      ReceiveUncaught(s, now, t);
      SameForTimer(s, s1, t);
      OtherFirst(s.queue, t);
    }
    BackToBackAppend(s.queue[1..], s1.queue, t);
  }

  lemma OtherFirst(queue: seq<Command>, t: TimerId)
    requires queue != [] && queue[0].timer != t
    ensures CommandsOf(queue, t) == CommandsOf(queue[1..], t)
  {
  }

  lemma FollowedStep(s: State, step: Step, t: TimerId, found: bool)
    requires Cancelled(s, t, found) && Followed(s, t) && Allowed(s, step) && LeavesAlone(step, t)
    requires step.Look? ==> found || s.queue == []
    ensures !Caught(s, step, t) && Followed(Apply(s, step), t)
  {
    hide Listed, CommandsOf, ProcessTimer, ProcessCommand, Untouched, Revives, BackToBack, Wrap;
    EmptyHasNone(t);
    match step
    case Create(u, period, autoReload) => CreatedSilent(s, u, Timer(period, autoReload), t);
    case Post(c) =>
      PostOther(s, c, t);
      SameForTimer(s, Apply(s, step), t);
      BackToBackAppend(s.queue, s.queue + [c], t);
    case Look(now) =>
      LookSilent(s, now, t);
      SameForTimer(s, Apply(s, step), t);
      LookGrows(s, now);
      BackToBackAppend(s.queue, ProcessTimer(s, now).queue, t);
    case Receive(now) => FollowedReceive(s, now, t, found);
  }

  lemma {:induction false} FollowedRun(s: State, steps: seq<Step>, t: TimerId, found: bool)
    requires Cancelled(s, t, found) && Followed(s, t)
    requires Permitted(s, steps) && AllLeaveAlone(steps, t) && InLoop(s, steps, found)
    ensures !EverCaught(s, steps, t)
    decreases |steps|
  {
    hide Cancelled, Followed, Apply, Allowed, DuesOf, Caught;
    if steps != [] {
      var step := steps[0];
      assert LeavesAlone(step, t);
      CancelledStep(s, step, t, found);
      FollowedStep(s, step, t, found);
      FollowedRun(Apply(s, step), steps[1..], t, (found || s.queue == []) && !step.Look? && !step.Receive?);
    }
  }

  /** A stop holds if nothing behind it revives the timer and each new period for the timer is followed at
      once by another command for it: the timer is off its list again before the next sample. */
  lemma BackToBackHolds(s: State, now: nat, t: TimerId)
    requires s.queue != [] && s.queue[0].timer == t && !Arms(s.queue[0])
    requires !Revives(CommandsOf(s.queue[1..], t)) && BackToBack(s.queue[1..], t)
    ensures SilentInLoop(ProcessCommand(s, now), t)
  {
    hide ProcessCommand, CommandsOf, Listed, DuesOf, Revives, BackToBack, EverCaught, Run, Permitted, InLoop;
    StopTaken(s, now, t);
    ReceiveGrows(s, now);
    var s1 := ProcessCommand(s, now);
    BackToBackAppend(s.queue[1..], s1.queue, t);
    forall steps | LoopWithout(s1, steps, t)
      ensures DuesOf(Run(s1, steps).log, t) == DuesOf(s1.log, t)
    {
      FollowedRun(s1, steps, t, false);
      CancelledRun(s1, steps, t, false);
    }
  }

  /** Four commands are queued ten ticks before the tick wraps: a stop for timer 0, a new period, and a
      further stop, with a command for timer 1 in between. */
  function BetweenStops(): State {
    Waiting0([StopTimer(0), ChangePeriod(0, 3), StopTimer(1), StopTimer(0)])
  }

  function Waiting0(queue: seq<Command>): State {
    State(map[0 := Timer(10, true), 1 := Timer(10, true)], [], [], queue, TICKS - 10, TICKS - 10, [])
  }

  lemma PostsLead(queue: seq<Command>, c: Command, rest: seq<Step>, found: bool)
    requires !c.StartTimer? && (c.ChangePeriod? ==> 0 < c.period < TICKS)
    requires Permitted(Waiting0(queue + [c]), rest) && Run(Waiting0(queue + [c]), rest) == BetweenStops()
    requires InLoop(Waiting0(queue + [c]), rest, found || queue == [])
    ensures Permitted(Waiting0(queue), [Post(c)] + rest) && Run(Waiting0(queue), [Post(c)] + rest) == BetweenStops()
    ensures InLoop(Waiting0(queue), [Post(c)] + rest, found)
  {
    RunsThen(Waiting0(queue), Post(c), rest);
    assert ([Post(c)] + rest)[1..] == rest;
  }

  function FourPosts(): seq<Step> {
    [Post(StopTimer(0))] + ([Post(ChangePeriod(0, 3))] + ([Post(StopTimer(1))] + ([Post(StopTimer(0))] + [])))
  }

  lemma BetweenStopsQueued()
    ensures Permitted(Waiting0([]), FourPosts()) && Run(Waiting0([]), FourPosts()) == BetweenStops()
    ensures InLoop(Waiting0([]), FourPosts(), false)
  {
    hide Waiting0;
    var q1, q2, q3 := [StopTimer(0)], [StopTimer(0), ChangePeriod(0, 3)],
                      [StopTimer(0), ChangePeriod(0, 3), StopTimer(1)];
    assert q3 + [StopTimer(0)] == [StopTimer(0), ChangePeriod(0, 3), StopTimer(1), StopTimer(0)];
    assert q2 + [StopTimer(1)] == q3 && q1 + [ChangePeriod(0, 3)] == q2 && [] + [StopTimer(0)] == q1;
    PostsLead(q3, StopTimer(0), [], true);
    PostsLead(q2, StopTimer(1), [Post(StopTimer(0))] + [], true);
    PostsLead(q1, ChangePeriod(0, 3), [Post(StopTimer(1))] + ([Post(StopTimer(0))] + []), true);
    PostsLead([], StopTimer(0), [Post(ChangePeriod(0, 3))] + ([Post(StopTimer(1))] + ([Post(StopTimer(0))] + [])),
              false);
  }

  lemma LoopThen(s: State, step: Step, rest: seq<Step>)
    requires Allowed(s, step) && Permitted(Apply(s, step), rest) && s.queue == [] && Apply(s, step).queue == []
    requires InLoop(Apply(s, step), rest, false)
    ensures Permitted(s, [step] + rest) && Run(s, [step] + rest) == Run(Apply(s, step), rest)
    ensures InLoop(s, [step] + rest, false)
  {
    hide Allowed, Apply;
    RunsThen(s, step, rest);
    assert ([step] + rest)[1..] == rest;
  }

  function Created(known: map<TimerId, Timer>): State {
    State(known, [], [], [], 0, 0, [])
  }

  lemma StartSteps()
    ensures var one, both := map[0 := Timer(10, true)], map[0 := Timer(10, true), 1 := Timer(10, true)];
            && Initial() == Created(map[])
            && Allowed(Created(map[]), Create(0, 10, true))
            && Apply(Created(map[]), Create(0, 10, true)) == Created(one)
            && Allowed(Created(one), Create(1, 10, true)) && Apply(Created(one), Create(1, 10, true)) == Created(both)
            && Allowed(Created(both), Look(TICKS - 10)) && Apply(Created(both), Look(TICKS - 10)) == Waiting0([])
  {
    assert Wrap(TICKS - 10) == TICKS - 10;
  }

  lemma BetweenStopsReached()
    ensures var steps := [Create(0, 10, true)] + ([Create(1, 10, true)] + ([Look(TICKS - 10)] + FourPosts()));
            && Permitted(Initial(), steps) && Run(Initial(), steps) == BetweenStops() && InLoop(Initial(), steps, false)
  {
    hide FourPosts, Apply, Allowed, Run, Permitted, InLoop, BetweenStops, Initial;
    StartSteps();
    BetweenStopsQueued();
    var one, both := map[0 := Timer(10, true)], map[0 := Timer(10, true), 1 := Timer(10, true)];
    LoopThen(Created(both), Look(TICKS - 10), FourPosts());
    LoopThen(Created(one), Create(1, 10, true), [Look(TICKS - 10)] + FourPosts());
    LoopThen(Created(map[]), Create(0, 10, true), [Create(1, 10, true)] + ([Look(TICKS - 10)] + FourPosts()));
  }

  /** Here, in a state that the loop reaches, nothing behind a stop revives the timer, but the new period
      expires before the tick wraps, and the daemon takes the command for the other timer only after that:
      the stop does not hold. */
  lemma NewPeriodCanBeCaught()
    ensures exists steps :: Permitted(Initial(), steps) && InLoop(Initial(), steps, false)
                            && Run(Initial(), steps) == BetweenStops()
    ensures var s := BetweenStops();
            && !Revives(CommandsOf(s.queue[1..], 0)) && !SilentInLoop(ProcessCommand(s, TICKS - 10), 0)
  {
    hide SilentInLoop, CalledBackAfter, EverCaught, FourPosts, Run, Permitted, InLoop;
    BetweenStopsReached();
    BetweenStopsTaken();
    var s1 := ProcessCommand(BetweenStops(), TICKS - 10);
    assert Wrap(TICKS - 10) == TICKS - 10;
    GoodWaiting(s1.queue);
    var steps := ArmedFires(s1, 0);
    NotSilent(s1, steps, 0);
  }

  lemma BetweenStopsTaken()
    ensures var s, behind := BetweenStops(), [ChangePeriod(0, 3), StopTimer(1), StopTimer(0)];
            && s.queue[1..] == behind && ProcessCommand(s, TICKS - 10) == Waiting0(behind)
            && CommandsOf(behind, 0) == [ChangePeriod(0, 3), StopTimer(0)]
            && !Revives(CommandsOf(behind, 0))
  {
    var behind := [ChangePeriod(0, 3), StopTimer(1), StopTimer(0)];
    assert behind[1..] == [StopTimer(1), StopTimer(0)] && behind[1..][1..] == [StopTimer(0)];
    assert BetweenStops().queue[1..] == behind;
  }

  lemma GoodWaiting(queue: seq<Command>)
    requires forall c <- queue :: CommandOk(c)
    ensures Good(Waiting0(queue))
  {
  }
}
