/** The main loop of the timer service task.  It looks at its first timer only once it has found its
    queue empty, and then takes commands until it finds it empty again; and so it gets to every timer
    that is on a list. */
module TimerLoop {
  import opened RingList
  import opened Ticks
  import opened TimedLists
  import opened Timers
  import opened TimerRuns
  import opened TimerCallbacks
  import opened TimerCommands

  /** A history of the loop, from a state in which the daemon is taking commands.  `found` says that
      the queue has been empty at some time since it last took a command or looked at its first timer,
      so that it may have left the inner loop: commands may have been posted since. */
  ghost predicate InLoop(s: State, steps: seq<Step>, found: bool)
    requires Permitted(s, steps)
    decreases |steps|
  {
    steps == [] ||
    var empty := found || s.queue == [];
    && (steps[0].Look? ==> empty)
    && InLoop(Apply(s, steps[0]), steps[1..], empty && !steps[0].Look? && !steps[0].Receive?)
  }

  ghost predicate AllLeaveAlone(steps: seq<Step>, t: TimerId) {
    forall step <- steps :: LeavesAlone(step, t)
  }

  // ---- Callbacks add up ----

  lemma DuesGrow(log: seq<Fired>, more: seq<Fired>, t: TimerId)
    requires log <= more
    ensures |DuesOf(log, t)| <= |DuesOf(more, t)|
  {
    hide DuesOf;
    assert more == log + more[|log|..];
    DuesConcat(log, more[|log|..], t);
  }

  lemma FiredCounts(log: seq<Fired>, f: Fired, more: seq<Fired>)
    requires log + [f] <= more
    ensures |DuesOf(log, f.timer)| < |DuesOf(more, f.timer)|
  {
    hide DuesOf;
    OneFired(log, f, f.timer);
    DuesGrow(log + [f], more, f.timer);
  }

  /** A history of the loop without a new command for the timer calls it back. */
  ghost predicate CalledBackAfter(s: State, steps: seq<Step>, t: TimerId) {
    && Permitted(s, steps) && AllLeaveAlone(steps, t) && InLoop(s, steps, false)
    && |DuesOf(Run(s, steps).log, t)| > |DuesOf(s.log, t)|
  }

  lemma FirstStep(s: State, step: Step, rest: seq<Step>, t: TimerId)
    requires step.Receive? || (step.Look? && s.queue == [])
    requires Allowed(s, step) && s.log <= Apply(s, step).log
    requires CalledBackAfter(Apply(s, step), rest, t)
    ensures CalledBackAfter(s, [step] + rest, t)
  {
    hide Allowed, Apply, DuesOf;
    RunsThen(s, step, rest);
    DuesGrow(s.log, Apply(s, step).log, t);
    assert ([step] + rest)[1..] == rest;
  }

  lemma OnlyStep(s: State, step: Step, t: TimerId)
    requires step.Receive? || (step.Look? && s.queue == [])
    requires Allowed(s, step) && |DuesOf(Apply(s, step).log, t)| > |DuesOf(s.log, t)|
    ensures CalledBackAfter(s, [step], t)
  {
    hide Allowed, Apply, DuesOf;
    RunsThen(s, step, []);
    assert [step] + [] == [step] && [step][1..] == [];
    assert Permitted(Apply(s, step), []) && InLoop(Apply(s, step), [], false);
    assert InLoop(s, [step], false);
    assert Run(s, [step]) == Apply(s, step);
  }

  // ---- Taking a command without letting time pass ----

  /** The daemon is less than a turn of the tick late with every start that is queued. */
  predicate Prompt(queue: seq<Command>, now: nat) {
    forall c <- queue :: c.StartTimer? ==> c.since <= now < c.since + TICKS
  }

  /** How much work a command can make at one time: a start that is late is followed by others. */
  function Burden(c: Command, now: nat): nat {
    if c.StartTimer? && c.since <= now then now - c.since + 2 else 1
  }

  function Work(queue: seq<Command>, now: nat): nat {
    if queue == [] then 0 else Burden(queue[0], now) + Work(queue[1..], now)
  }

  lemma {:induction false} WorkAdds(queue: seq<Command>, c: Command, now: nat)
    ensures Work(queue + [c], now) == Work(queue, now) + Burden(c, now)
  {
    hide Burden;
    if queue == [] {
      assert (queue + [c])[1..] == [];
    } else {
      assert (queue + [c])[1..] == queue[1..] + [c];
      WorkAdds(queue[1..], c, now);
    }
  }

  /** The timers on a list whose time has come. */
  function DueCount(entries: seq<Entry>, tick: nat): nat {
    if entries == [] then 0 else (if entries[0].value <= tick then 1 else 0) + DueCount(entries[1..], tick)
  }

  lemma {:induction false} DueConcat(a: seq<Entry>, b: seq<Entry>, tick: nat)
    ensures DueCount(a + b, tick) == DueCount(a, tick) + DueCount(b, tick)
  {
    if a == [] {
      assert a + b == b;
    } else {
      assert (a + b)[1..] == a[1..] + b;
      DueConcat(a[1..], b, tick);
    }
  }

  lemma DueInserted(entries: seq<Entry>, e: Entry, tick: nat)
    requires e.value > tick
    ensures DueCount(Inserted(entries, e), tick) == DueCount(entries, tick)
  {
    hide DueCount;
    var k := InsertPosition(ValuesOf(entries), e.value);
    DueConcat(entries[..k] + [e], entries[k..], tick);
    DueConcat(entries[..k], [e], tick);
    DueConcat(entries[..k], entries[k..], tick);
    assert entries == entries[..k] + entries[k..];
    assert DueCount([e], tick) == 0 by { NotDue(e, tick); }
  }

  lemma NotDue(e: Entry, tick: nat)
    requires e.value > tick
    ensures DueCount([e], tick) == 0
  {
    assert [e][1..] == [];
  }

  lemma {:induction false} DueWithout(entries: seq<Entry>, t: TimerId, tick: nat)
    ensures DueCount(Without(entries, t), tick) <= DueCount(entries, tick)
  {
    if entries != [] {
      DueWithout(entries[1..], t, tick);
      if entries[0].owner != t {
        assert ([entries[0]] + Without(entries[1..], t))[1..] == Without(entries[1..], t);
      }
    }
  }

  /** A timer goes back on the list of this turn only if its time has not come. */
  lemma DueAfterInsert(s: State, t: TimerId, next: nat, now: nat, commanded: nat, due: nat)
    ensures DueCount(InsertTimer(s, t, next, now, commanded, due).1.current, now) == DueCount(s.current, now)
  {
    hide DueCount, Inserted, Wrap;
    if next > now {
      DueInserted(s.current, Entry(t, next, due), now);
    }
  }

  lemma SampleAgain(s: State)
    requires s.lastTime == Wrap(s.lastClock)
    ensures Sample(s, s.lastClock) == s
  {
  }

  /** The queue after a command has been taken, if no time has passed: a start that is late may have
      posted one other, a period later. */
  ghost predicate OneLess(queue: seq<Command>, queue1: seq<Command>, now: nat) {
    queue != [] &&
    (queue1 == queue[1..] ||
     (queue[0].StartTimer? && |queue1| == |queue| &&
      var c := queue1[|queue1| - 1];
      c.StartTimer? && c.timer == queue[0].timer && queue[0].since < c.since <= now && queue1 == queue[1..] + [c]))
  }

  lemma StartQueue(s: State, c: Command)
    requires Good(s) && c.StartTimer? && CommandOk(c) && c.since <= s.lastClock < c.since + TICKS
    ensures OneLess([c] + s.queue, ProcessStart(s, c, s.lastClock).queue, s.lastClock)
    ensures DueCount(ProcessStart(s, c, s.lastClock).current, s.lastTime) == DueCount(s.current, s.lastTime)
  {
    hide ListOk, LogOk, Wrap, Epoch, InsertTimer, DueCount;
    PeriodInRange(s, c.timer);
    var next, due := Wrap(c.value + PeriodOf(s, c.timer)), c.since + PeriodOf(s, c.timer);
    WrapsDown(c.since, PeriodOf(s, c.timer));
    InsertKeeps(s, c.timer, c.since);
    InsertSame(s, c.timer, next, s.lastTime, c.value, due);
    DueAfterInsert(s, c.timer, next, s.lastTime, c.value, due);
    assert ([c] + s.queue)[1..] == s.queue;
  }

  lemma LessWork(queue: seq<Command>, queue1: seq<Command>, now: nat)
    requires OneLess(queue, queue1, now) && Prompt(queue, now)
    ensures Work(queue1, now) < Work(queue, now) && Prompt(queue1, now)
  {
    assert queue[0] in queue;
    if queue1 != queue[1..] {
      var c := queue1[|queue1| - 1];
      WorkAdds(queue[1..], c, now);
      forall d | d in queue1 && d.StartTimer?
        ensures d.since <= now < d.since + TICKS
      {
        assert d == c || d in queue;
      }
    }
  }

  /** The head of the queue is taken at the time of the last sample. */
  lemma ReceiveNow(s: State)
    requires Good(s) && s.queue != [] && Prompt(s.queue, s.lastClock)
    ensures Allowed(s, Receive(s.lastClock))
    ensures var s1 := ProcessCommand(s, s.lastClock);
            && Good(s1) && s1.lastClock == s.lastClock && s.log <= s1.log
            && OneLess(s.queue, s1.queue, s.lastClock) && Prompt(s1.queue, s1.lastClock)
            && Work(s1.queue, s1.lastClock) < Work(s.queue, s.lastClock)
            && DueCount(s1.current, s.lastTime) <= DueCount(s.current, s.lastTime)
  {
    hide Good, ProcessStart, ProcessChange, Work, DueCount, Sample, Wrap, OneLess;
    assert s.queue[0] in s.queue;
    ProcessCommandKeeps(s, s.lastClock);
    ReceiveGrows(s, s.lastClock);
    ReceivedQueue(s);
    LessWork(s.queue, ProcessCommand(s, s.lastClock).queue, s.lastClock);
  }

  lemma ReceivedQueue(s: State)
    requires Good(s) && s.queue != []
    requires s.queue[0].StartTimer? ==> s.queue[0].since <= s.lastClock < s.queue[0].since + TICKS
    ensures var s1 := ProcessCommand(s, s.lastClock);
            && OneLess(s.queue, s1.queue, s.lastClock)
            && DueCount(s1.current, s.lastTime) <= DueCount(s.current, s.lastTime)
  {
    hide Good, ProcessStart, ProcessChange, DueCount, Sample, Wrap, Without;
    var c, s0 := s.queue[0], Taken(s);
    TakenKeeps(s);
    DueWithout(s.current, c.timer, s.lastTime);
    GoodTime(s0);
    SampleAgain(s0);
    match c
    case StartTimer(_, _, _) =>
      StartQueue(s0, c);
      assert [c] + s0.queue == s.queue;
    case StopTimer(_) =>
    case ChangePeriod(t, period) => ChangeQueue(s0, t, period);
    case DeleteTimer(_) =>
  }

  lemma GoodTime(s: State)
    requires Good(s)
    ensures s.lastTime == Wrap(s.lastClock)
  {
  }

  lemma ChangeQueue(s: State, t: TimerId, period: nat)
    requires s.lastTime == Wrap(s.lastClock)
    ensures ProcessChange(s, t, period, s.lastClock).queue == s.queue
    ensures DueCount(ProcessChange(s, t, period, s.lastClock).current, s.lastTime) == DueCount(s.current, s.lastTime)
  {
    hide Wrap, InsertTimer, DueCount;
    var s1 := s.(timers := s.timers[t := Timer(period, Reloads(s, t))]);
    InsertSame(s1, t, Wrap(s.lastClock + period), s.lastTime, s.lastTime, s.lastClock + period);
    DueAfterInsert(s1, t, Wrap(s.lastClock + period), s.lastTime, s.lastTime, s.lastClock + period);
  }

  // ---- What concerns one timer ----

  ghost predicate ListedFor(s: State, t: TimerId, due: nat) {
    Listed(s, t) == [Entry(t, Wrap(due), due)]
  }

  lemma StaysListed(s: State, s1: State, t: TimerId, due: nat)
    requires ListedFor(s, t, due) && Untouched(s, s1, t)
    ensures ListedFor(s1, t, due)
  {
  }

  /** The timer waits on a list for its expiry, and no command is queued for it. */
  ghost predicate Waits(s: State, t: TimerId, due: nat) {
    ListedFor(s, t, due) && CommandsOf(s.queue, t) == []
  }

  /** It is on the list of the turn of the tick that its expiry falls in. */
  lemma WhereListed(s: State, t: TimerId, due: nat)
    requires Good(s) && ListedFor(s, t, due)
    ensures if Epoch(due) == Epoch(s.lastClock) then Entry(t, Wrap(due), due) in s.current
            else Epoch(due) == Epoch(s.lastClock) + 1 && Of(s.current, t) == []
  {
    hide Wrap, Epoch, LogOk, Settings, EntryOk;
    var e := Entry(t, Wrap(due), due);
    assert |Listed(s, t)| == |Of(s.current, t)| + |Of(s.overflow, t)|;
    if Of(s.current, t) != [] {
      assert Listed(s, t)[0] == Of(s.current, t)[0];
      OfIsIn(s.current, t, e);
      assert EntryOk(e, Epoch(s.lastClock));
    } else {
      assert Listed(s, t)[0] == Of(s.overflow, t)[0];
      OfIsIn(s.overflow, t, e);
      assert EntryOk(e, Epoch(s.lastClock) + 1);
    }
    EntryTurn(e);
  }

  lemma EntryTurn(e: Entry)
    ensures forall epoch :: EntryOk(e, epoch) ==> Epoch(e.due) == epoch
  {
  }

  lemma {:induction false} NoneQueued(queue: seq<Command>, t: TimerId)
    requires queue != [] && CommandsOf(queue, t) == []
    ensures queue[0].timer != t && CommandsOf(queue[1..], t) == []
  {
  }

  /** A command for another timer, taken at the time of the last sample, leaves the timer alone. */
  lemma OtherReceived(s: State, t: TimerId)
    requires Good(s) && s.queue != [] && s.queue[0].timer != t
    ensures Untouched(s, ProcessCommand(s, s.lastClock), t)
  {
    hide Untouched, Sample, ProcessCommand, Good;
    TakenKeeps(s);
    GoodTime(Taken(s));
    SampleAgain(Taken(s));
    TakenOther(s, t);
    AfterSample(s, s.lastClock, t);
    UntouchedTwice(s, Taken(s), ProcessCommand(s, s.lastClock), t);
  }

  lemma StillWaits(s: State, s1: State, t: TimerId, due: nat)
    requires Waits(s, t, due) && Untouched(s, s1, t)
    ensures Waits(s1, t, due)
  {
  }

  // ---- The loop gets to a timer whose time has come ----

  /** Within the turn of the last sample a look only processes the head of the list. */
  lemma LookInTurn(s: State, now: nat)
    requires Good(s) && s.lastClock <= now && Epoch(now) == Epoch(s.lastClock)
    ensures InTime(s, now) && Sample(s, now) == s.(lastTime := Wrap(now), lastClock := now) && s.lastTime <= Wrap(now)
    ensures Good(Sample(s, now))
  {
    hide ListOk, Wrap, Epoch, Settings, Drain;
    ReachedInTurn(s.lastClock, now);
    ReachedInTurn(now, s.lastClock);
    SampleKeeps(s, now);
  }

  lemma HeadIsDue(s: State, e: Entry)
    requires Good(s) && e in s.current && e.due <= s.lastClock
    ensures s.current[0].value <= e.value <= s.lastTime
    ensures s.current[0].due <= s.lastClock < s.current[0].due + TICKS
  {
    hide Wrap, Epoch, LogOk, Settings;
    TailOk(s.current, Epoch(s.lastClock));
    assert EntryOk(e, Epoch(s.lastClock));
    ReachedInTurn(e.due, s.lastClock);
    ReachedInTurn(s.current[0].due, s.lastClock);
  }

  /** The head is called back; if it reloads it goes back behind everything that is due, or is started
      again by a command that is not a turn old. */
  lemma HeadProcessed(s: State)
    requires Good(s) && s.current != [] && s.queue == []
    requires s.current[0].value <= s.lastTime && s.current[0].due <= s.lastClock < s.current[0].due + TICKS
    ensures var e, s1 := s.current[0], ProcessExpired(s, s.lastClock);
            && s1.log == s.log + [Fired(e.owner, e.due, s.lastClock)]
            && DueCount(s1.current, s.lastTime) < DueCount(s.current, s.lastTime) && Prompt(s1.queue, s.lastClock)
  {
    hide ListOk, LogOk, Settings, Wrap, Epoch, InsertTimer;
    var e := s.current[0];
    var s1 := s.(current := s.current[1..]);
    var next, due := Wrap(e.value + PeriodOf(s, e.owner)), e.due + PeriodOf(s, e.owner);
    DueAfterInsert(s1, e.owner, next, s.lastTime, e.value, due);
    InsertSame(s1, e.owner, next, s.lastTime, e.value, due);
  }

  /** A look at the time of the last sample, or later in its turn, with a timer due. */
  lemma LookAtDue(s: State, now: nat, t: TimerId, due: nat)
    requires Good(s) && s.queue == [] && Waits(s, t, due)
    requires s.lastClock <= now && due <= now && Epoch(due) == Epoch(s.lastClock) == Epoch(now)
    ensures Allowed(s, Look(now))
    ensures var s1 := ProcessTimer(s, now);
            && Good(s1) && s1.lastClock == now && s.log <= s1.log && Prompt(s1.queue, now)
            && DueCount(s1.current, Wrap(now)) < DueCount(s.current, Wrap(now))
            && (|DuesOf(s1.log, t)| > |DuesOf(s.log, t)| || Waits(s1, t, due))
  {
    hide Good, Wrap, Epoch, DuesOf, DueCount, ProcessExpired, Waits, Untouched;
    var s0, s1 := Sample(s, now), ProcessTimer(s, now);
    LookInTurn(s, now);
    ClockOnly(s, s0, t);
    StillWaits(s, s0, t, due);
    AtItsTurn(s0, t, due);
    HeadIsDue(s0, Entry(t, Wrap(due), due));
    HeadProcessed(s0);
    ProcessTimerKeeps(s, now);
    assert s1 == ProcessExpired(s0, now);
    if s0.current[0].owner == t {
      FiredCounts(s.log, Fired(t, s0.current[0].due, now), s1.log);
    } else {
      ExpiredOther(s0, now, t);
      StillWaits(s0, s1, t, due);
    }
  }

  lemma AtItsTurn(s: State, t: TimerId, due: nat)
    requires Good(s) && Waits(s, t, due) && Epoch(due) == Epoch(s.lastClock)
    ensures Entry(t, Wrap(due), due) in s.current
  {
    WhereListed(s, t, due);
  }

  lemma ClockOnly(s: State, s1: State, t: TimerId)
    requires s1 == s.(lastTime := s1.lastTime, lastClock := s1.lastClock)
    ensures Untouched(s, s1, t)
  {
  }

  // ---- The loop gets to every timer on a list ----

  /** A timer whose time has come: the daemon takes what is queued and looks, again and again, without
      letting time pass, and so comes to the timer. */
  lemma {:induction false} DueFires(s: State, t: TimerId, due: nat) returns (steps: seq<Step>)
    requires Good(s) && Waits(s, t, due) && Prompt(s.queue, s.lastClock)
    requires due <= s.lastClock && Epoch(due) == Epoch(s.lastClock)
    ensures CalledBackAfter(s, steps, t)
    decreases DueCount(s.current, s.lastTime), Work(s.queue, s.lastClock)
  {
    hide Good, Waits, Prompt, CalledBackAfter, ProcessCommand, ProcessTimer, DuesOf, Work, DueCount, Wrap, Epoch;
    var now := s.lastClock;
    GoodTime(s);
    if s.queue != [] {
      TakesOther(s, t, due);
      GoodTime(ProcessCommand(s, now));
      steps := DueFires(ProcessCommand(s, now), t, due);
      FirstStep(s, Receive(now), steps, t);
      steps := [Receive(now)] + steps;
    } else {
      LookAtDue(s, now, t, due);
      var s1 := ProcessTimer(s, now);
      GoodTime(s1);
      if |DuesOf(s1.log, t)| > |DuesOf(s.log, t)| {
        OnlyStep(s, Look(now), t);
        steps := [Look(now)];
      } else {
        steps := DueFires(s1, t, due);
        FirstStep(s, Look(now), steps, t);
        steps := [Look(now)] + steps;
      }
    }
  }

  lemma TakesOther(s: State, t: TimerId, due: nat)
    requires Good(s) && Waits(s, t, due) && Prompt(s.queue, s.lastClock) && s.queue != []
    ensures Allowed(s, Receive(s.lastClock))
    ensures var s1 := ProcessCommand(s, s.lastClock);
            && Good(s1) && s1.lastClock == s.lastClock && s.log <= s1.log
            && Waits(s1, t, due) && Prompt(s1.queue, s1.lastClock)
            && Work(s1.queue, s1.lastClock) < Work(s.queue, s.lastClock)
            && DueCount(s1.current, s.lastTime) <= DueCount(s.current, s.lastTime)
  {
    hide Good, Prompt, ProcessCommand, Work, DueCount, Wrap, ListedFor, Untouched, OneLess;
    NoneQueued(s.queue, t);
    ReceiveNow(s);
    OtherReceived(s, t);
    StillWaits(s, ProcessCommand(s, s.lastClock), t, due);
  }

  /** A timer on the list of this turn. */
  lemma {:induction false} ThisTurnFires(s: State, t: TimerId, due: nat) returns (steps: seq<Step>)
    requires Good(s) && Waits(s, t, due) && Prompt(s.queue, s.lastClock) && Epoch(due) == Epoch(s.lastClock)
    ensures CalledBackAfter(s, steps, t)
    decreases Work(s.queue, s.lastClock)
  {
    hide Good, Waits, Prompt, CalledBackAfter, ProcessCommand, ProcessTimer, DuesOf, Work, DueCount, Wrap, Epoch;
    if due <= s.lastClock {
      steps := DueFires(s, t, due);
    } else if s.queue != [] {
      TakesOther(s, t, due);
      steps := ThisTurnFires(ProcessCommand(s, s.lastClock), t, due);
      FirstStep(s, Receive(s.lastClock), steps, t);
      steps := [Receive(s.lastClock)] + steps;
    } else {
      LookAtDue(s, due, t, due);
      var s1 := ProcessTimer(s, due);
      if |DuesOf(s1.log, t)| > |DuesOf(s.log, t)| {
        OnlyStep(s, Look(due), t);
        steps := [Look(due)];
      } else {
        steps := DueFires(s1, t, due);
        FirstStep(s, Look(due), steps, t);
        steps := [Look(due)] + steps;
      }
    }
  }

  /** The first tick of the next turn. */
  function TurnAfter(now: nat): nat {
    (Epoch(now) + 1) * TICKS
  }

  lemma TurnAfterIsNext(now: nat)
    ensures now < TurnAfter(now) && Epoch(TurnAfter(now)) == Epoch(now) + 1
    ensures if Wrap(now) > 0 then TurnAfter(now) < now + TICKS else Epoch(now + 1) == Epoch(now) && Wrap(now + 1) > 0
    ensures forall due: nat :: Epoch(due) == Epoch(now) + 1 ==> TurnAfter(now) <= due
  {
    EpochAndTick(now);
    NextTick(now);
  }

  /** What a switch of the lists posts at the first tick of a turn is less than a turn old. */
  lemma {:induction false} DrainPrompt(s: State, now: nat)
    requires Draining(s, now) && now == TurnAfter(s.lastClock) && Prompt(s.queue, now)
    ensures Prompt(Drain(s, now).queue, now)
    decreases Load(s.current)
  {
    hide Draining, DrainOne, Prompt, TurnAfter, Load;
    if s.current != [] {
      DrainOneShrinks(s, now);
      DrainOneKeeps(s, now);
      DrainOnePrompt(s, now);
      DrainPrompt(DrainOne(s, now), now);
    }
  }

  lemma DrainOnePrompt(s: State, now: nat)
    requires Draining(s, now) && s.current != [] && now == TurnAfter(s.lastClock) && Prompt(s.queue, now)
    ensures Prompt(DrainOne(s, now).queue, now)
  {
    hide ListOk, Inserted, LogOk, Settings, Wrap, Epoch;
    var e := s.current[0];
    TailOk(s.current, Epoch(s.lastClock));
    PeriodInRange(s, e.owner);
    ReloadStays(e.due, PeriodOf(s, e.owner));
    TurnAfterIsNext(s.lastClock);
    EarlierTurn(e.due, now);
    SameTurnAfter(e.due, s.lastClock);
    TurnAfterIsNext(e.due);
  }

  lemma SameTurnAfter(a: nat, b: nat)
    requires Epoch(a) == Epoch(b)
    ensures TurnAfter(a) == TurnAfter(b)
  {
  }

  /** A look within the turn while the timer is on the list of the next. */
  lemma LookElsewhere(s: State, now: nat, t: TimerId, due: nat)
    requires Good(s) && s.queue == [] && Waits(s, t, due)
    requires s.lastClock <= now && Epoch(now) == Epoch(s.lastClock) && Epoch(due) == Epoch(now) + 1
    ensures Allowed(s, Look(now))
    ensures var s1 := ProcessTimer(s, now);
            && Good(s1) && s1.lastClock == now && s.log <= s1.log && Prompt(s1.queue, now) && Waits(s1, t, due)
  {
    hide Good, Wrap, Epoch, DuesOf, DueCount, ProcessExpired, Waits, Untouched;
    var s0, s1 := Sample(s, now), ProcessTimer(s, now);
    LookInTurn(s, now);
    ClockOnly(s, s0, t);
    StillWaits(s, s0, t, due);
    ProcessTimerKeeps(s, now);
    if s0.current != [] && s0.current[0].value <= Wrap(now) {
      HeadIsOver(s0);
      HeadProcessed(s0);
      NotHead(s0, t, due);
      ExpiredOther(s0, now, t);
      StillWaits(s0, s1, t, due);
    }
  }

  lemma HeadIsOver(s: State)
    requires Good(s) && s.current != [] && s.current[0].value <= s.lastTime
    ensures s.current[0].due <= s.lastClock < s.current[0].due + TICKS
  {
    hide Wrap, Epoch, LogOk, Settings;
    TailOk(s.current, Epoch(s.lastClock));
    ReachedInTurn(s.current[0].due, s.lastClock);
  }

  lemma NotHead(s: State, t: TimerId, due: nat)
    requires Good(s) && Waits(s, t, due) && Epoch(due) == Epoch(s.lastClock) + 1 && s.current != []
    ensures s.current[0].owner != t
  {
    WhereListed(s, t, due);
  }

  /** The first look of the next turn switches the lists, and does no more. */
  lemma LookAcross(s: State, t: TimerId, due: nat)
    requires Good(s) && s.queue == [] && Waits(s, t, due)
    requires Epoch(due) == Epoch(s.lastClock) + 1 && Wrap(s.lastClock) > 0
    ensures Allowed(s, Look(TurnAfter(s.lastClock)))
    ensures var now := TurnAfter(s.lastClock);
            var s1 := ProcessTimer(s, now);
            && Good(s1) && s1.lastClock == now && Epoch(due) == Epoch(now) && s.log <= s1.log
            && Prompt(s1.queue, now) && Waits(s1, t, due)
  {
    hide ListOk, LogOk, Settings, Wrap, Epoch, TurnAfter, Drain, ListedFor, CommandsOf;
    var now := TurnAfter(s.lastClock);
    TurnAfterIsNext(s.lastClock);
    SampleTurn(s, now);
    LogGrows(s.log, s.lastClock, now);
    WhereListed(s, t, due);
    DrainPrompt(s, now);
    DrainIdle(s, now, t);
    DrainEmpties(s, now);
    SwappedUntouched(Drain(s, now), Sample(s, now), t);
    StillWaits(s, Drain(s, now), t, due);
    StillWaits(Drain(s, now), Sample(s, now), t, due);
    ProcessTimerKeeps(s, now);
    SampleGrows(s, now);
  }

  /** The loop gets to every timer: one that is on a list, with no command queued for it, is called back
      in some history of the loop, whatever else is queued and listed. */
  lemma {:induction false} ListedFires(s: State, t: TimerId, due: nat) returns (steps: seq<Step>)
    requires Good(s) && Waits(s, t, due) && Prompt(s.queue, s.lastClock)
    ensures CalledBackAfter(s, steps, t)
    decreases if Wrap(s.lastClock) == 0 then 1 else 0, Work(s.queue, s.lastClock)
  {
    hide Good, Waits, Prompt, CalledBackAfter, ProcessCommand, ProcessTimer, DuesOf, Work, TurnAfter, Wrap, Epoch;
    var now := s.lastClock;
    if Epoch(due) == Epoch(now) {
      steps := ThisTurnFires(s, t, due);
    } else if s.queue != [] {
      TakesOther(s, t, due);
      steps := ListedFires(ProcessCommand(s, now), t, due);
      FirstStep(s, Receive(now), steps, t);
      steps := [Receive(now)] + steps;
    } else {
      NotYetItsTurn(s, t, due);
      TurnAfterIsNext(now);
      var next := if Wrap(now) == 0 then now + 1 else TurnAfter(now);
      if Wrap(now) == 0 {
        LookElsewhere(s, next, t, due);
        steps := ListedFires(ProcessTimer(s, next), t, due);
      } else {
        LookAcross(s, t, due);
        steps := ThisTurnFires(ProcessTimer(s, next), t, due);
      }
      FirstStep(s, Look(next), steps, t);
      steps := [Look(next)] + steps;
    }
  }

  lemma NotYetItsTurn(s: State, t: TimerId, due: nat)
    requires Good(s) && Waits(s, t, due)
    ensures Epoch(due) == Epoch(s.lastClock) || Epoch(due) == Epoch(s.lastClock) + 1
  {
    WhereListed(s, t, due);
  }
}
