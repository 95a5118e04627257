/** Histories of the timer service: the lists stay those of this turn and the next, and an
    auto-reload timer is called back once for every expiry. */
module TimerRuns {
  import opened Ticks
  import opened TimedLists
  import opened Timers

  // ---- The lists ----

  ghost predicate CommandOk(c: Command) {
    (c.StartTimer? ==> c.value == Wrap(c.since)) && (c.ChangePeriod? ==> 0 < c.period < TICKS)
  }

  ghost predicate Settings(s: State) {
    && (forall t <- s.timers :: 0 < s.timers[t].period < TICKS)
    && (forall c <- s.queue :: CommandOk(c))
  }

  /** No callback comes early. */
  ghost predicate LogOk(log: seq<Fired>, clock: nat) {
    forall f <- log :: f.due <= f.at <= clock
  }

  ghost predicate Good(s: State) {
    && s.lastTime == Wrap(s.lastClock)
    && ListOk(s.current, Epoch(s.lastClock)) && ListOk(s.overflow, Epoch(s.lastClock) + 1)
    && Settings(s)
    && LogOk(s.log, s.lastClock)
  }

  lemma SettingsAfterPost(s: State, c: Command, s1: State)
    requires Settings(s) && CommandOk(c) && s1.timers == s.timers && s1.queue == s.queue + [c]
    ensures Settings(s1)
  {
  }

  lemma PeriodInRange(s: State, t: TimerId)
    requires Settings(s)
    ensures 0 < PeriodOf(s, t) < TICKS
  {
  }

  // ---- Switching the lists ----

  /** What holds while the old turn's timers are being processed: the lists are still those of
      the last sample, and `now` lies in the next turn. */
  ghost predicate Draining(s: State, now: nat) {
    && ListOk(s.current, Epoch(s.lastClock)) && ListOk(s.overflow, Epoch(now))
    && Epoch(now) == Epoch(s.lastClock) + 1
    && Settings(s) && LogOk(s.log, now)
  }

  lemma LogAfter(log: seq<Fired>, clock: nat, t: TimerId, due: nat)
    requires LogOk(log, clock) && due <= clock
    ensures LogOk(log + [Fired(t, due, clock)], clock)
  {
  }

  lemma DrainOneKeeps(s: State, now: nat)
    requires Draining(s, now) && s.current != []
    ensures Draining(DrainOne(s, now), now)
    ensures var s1 := DrainOne(s, now);
            s1.overflow == s.overflow && s1.timers == s.timers && s1.lastClock == s.lastClock
  {
    hide ListOk, Inserted, Wrap, Epoch, LogOk, Settings;
    var e := s.current[0];
    TailOk(s.current, Epoch(s.lastClock));
    EarlierTurn(e.due, now);
    PeriodInRange(s, e.owner);
    ReloadStays(e.due, PeriodOf(s, e.owner));
    LogAfter(s.log, now, e.owner, e.due);
    var s1 := DrainOne(s, now);
    if Reloads(s, e.owner) && Wrap(e.value + PeriodOf(s, e.owner)) > e.value {
      InsertedOk(s.current[1..], Entry(e.owner, Wrap(e.value + PeriodOf(s, e.owner)), e.due + PeriodOf(s, e.owner)),
                 Epoch(s.lastClock));
      SettingsOnly(s, s1);
    } else if Reloads(s, e.owner) {
      StartIsOk(e.owner, e.due);
      SettingsAfterPost(s, StartTimer(e.owner, e.value, e.due), s1);
    } else {
      SettingsOnly(s, s1);
    }
  }

  lemma StartIsOk(t: TimerId, since: nat)
    ensures CommandOk(StartTimer(t, Wrap(since), since))
  {
  }

  lemma {:induction false} DrainKeeps(s: State, now: nat)
    requires Draining(s, now)
    ensures Draining(Drain(s, now), now) && Drain(s, now).current == []
    ensures var s1 := Drain(s, now); s1.overflow == s.overflow && s1.timers == s.timers && s1.lastClock == s.lastClock
    decreases Load(s.current)
  {
    hide Draining, DrainOne;
    if s.current != [] {
      DrainOneShrinks(s, now);
      DrainOneKeeps(s, now);
      DrainKeeps(DrainOne(s, now), now);
    }
  }

  /** Whether the lists are switched is whether the turn has changed. */
  lemma SampleTurn(s: State, now: nat)
    requires s.lastTime == Wrap(s.lastClock) && InTime(s, now)
    ensures Epoch(now) == Epoch(s.lastClock) + if Wrap(now) < s.lastTime then 1 else 0
  {
    WrapIsNoticedExactlyWhen(s.lastClock, now);
  }

  lemma LogGrows(log: seq<Fired>, clock: nat, now: nat)
    requires LogOk(log, clock) && clock <= now
    ensures LogOk(log, now)
  {
  }

  lemma SampleKeeps(s: State, now: nat)
    requires Good(s) && InTime(s, now)
    ensures Good(Sample(s, now)) && Sample(s, now).lastClock == now && Sample(s, now).timers == s.timers
  {
    SampleTurn(s, now);
    LogGrows(s.log, s.lastClock, now);
    hide ListOk, Wrap, Epoch, Drain, LogOk, Settings;
    if Wrap(now) < s.lastTime {
      DrainKeeps(s, now);
      NothingListed(Epoch(now) + 1);
      SettingsOnly(Drain(s, now), Sample(s, now));
    } else {
      SettingsOnly(s, Sample(s, now));
    }
  }

  /** A sample in time tells whether the turn of the tick has changed; if it has, the next turn's list
      has become this turn's and nothing is left of the old one. */
  lemma SampleIsRight(s: State, now: nat)
    requires Good(s) && InTime(s, now)
    ensures Good(Sample(s, now)) && Sample(s, now).lastClock == now
    ensures Wrap(now) < s.lastTime <==> Epoch(now) != Epoch(s.lastClock)
    ensures Wrap(now) < s.lastTime ==> Sample(s, now).current == s.overflow && Sample(s, now).overflow == []
  {
    SampleKeeps(s, now);
    SampleTurn(s, now);
    LogGrows(s.log, s.lastClock, now);
    hide ListOk, Wrap, Epoch, Drain, LogOk, Settings;
    if Wrap(now) < s.lastTime {
      DrainKeeps(s, now);
    }
  }

  lemma SettingsOnly(s: State, s1: State)
    requires Settings(s) && s1.timers == s.timers && s1.queue == s.queue
    ensures Settings(s1)
  {
  }

  // ---- Timers going onto a list ----

  lemma InsertKeeps(s: State, t: TimerId, commanded: nat)
    requires Good(s) && commanded <= s.lastClock < commanded + TICKS
    ensures var due := commanded + PeriodOf(s, t);
            var (expired, s1) := InsertTimer(s, t, Wrap(due), s.lastTime, Wrap(commanded), due);
            && Good(s1) && (expired <==> s.lastClock >= due) && (expired ==> s1 == s)
  {
    hide ListOk, Inserted, Wrap, Epoch, LogOk, Settings, Classify;
    var due := commanded + PeriodOf(s, t);
    PeriodInRange(s, t);
    ClassifiedRight(commanded, PeriodOf(s, t), s.lastClock);
    InsertGood(s, t, due, Classify(Wrap(due), s.lastTime, Wrap(commanded), PeriodOf(s, t)));
  }

  /** The values a timer is filed by are those of the time of the last sample and of a command, less
      than a turn of the tick before it, to start the timer a period before `due`. */
  ghost predicate Commanded(s: State, t: TimerId, next: nat, now: nat, commanded: nat, due: nat) {
    && now == s.lastTime && next == Wrap(due) && PeriodOf(s, t) <= due
    && commanded == Wrap(due - PeriodOf(s, t))
    && due - PeriodOf(s, t) <= s.lastClock < due - PeriodOf(s, t) + TICKS
  }

  /** The entry is on the list of the turn of the tick that its expiry falls in. */
  ghost predicate FiledInTurn(s: State, e: Entry) {
    if Epoch(e.due) == Epoch(s.lastClock) then e in s.current
    else Epoch(e.due) == Epoch(s.lastClock) + 1 && e in s.overflow
  }

  lemma InsertIsRight(s: State, t: TimerId, next: nat, now: nat, commanded: nat, due: nat)
    requires Good(s) && Commanded(s, t, next, now, commanded, due)
    ensures var (expired, s1) := InsertTimer(s, t, next, now, commanded, due);
            && Good(s1) && (expired <==> s.lastClock >= due)
            && (!expired ==> FiledInTurn(s1, Entry(t, next, due)))
  {
    hide ListOk, Inserted, Wrap, Epoch, LogOk, Settings, Classify;
    var since := due - PeriodOf(s, t);
    PeriodInRange(s, t);
    InsertKeeps(s, t, since);
    ClassifiedRight(since, PeriodOf(s, t), s.lastClock);
    IsInserted(s.current, Entry(t, next, due));
    IsInserted(s.overflow, Entry(t, next, due));
  }

  lemma InsertGood(s: State, t: TimerId, due: nat, verdict: Verdict)
    requires Good(s)
    requires verdict == ThisTurn ==> Epoch(due) == Epoch(s.lastClock)
    requires verdict == NextTurn ==> Epoch(due) == Epoch(s.lastClock) + 1
    ensures verdict == ThisTurn ==> Good(s.(current := Inserted(s.current, Entry(t, Wrap(due), due))))
    ensures verdict == NextTurn ==> Good(s.(overflow := Inserted(s.overflow, Entry(t, Wrap(due), due))))
  {
    hide ListOk, Inserted, Wrap, Epoch, LogOk, Settings;
    if verdict == ThisTurn {
      InsertedOk(s.current, Entry(t, Wrap(due), due), Epoch(s.lastClock));
      SettingsOnly(s, s.(current := Inserted(s.current, Entry(t, Wrap(due), due))));
    } else if verdict == NextTurn {
      InsertedOk(s.overflow, Entry(t, Wrap(due), due), Epoch(s.lastClock) + 1);
      SettingsOnly(s, s.(overflow := Inserted(s.overflow, Entry(t, Wrap(due), due))));
    }
  }

  lemma FiredKeeps(s: State, t: TimerId, due: nat)
    requires Good(s) && due <= s.lastClock
    ensures Good(s.(log := s.log + [Fired(t, due, s.lastClock)]))
  {
    hide ListOk, LogOk, Settings;
    LogAfter(s.log, s.lastClock, t, due);
    SettingsOnly(s, s.(log := s.log + [Fired(t, due, s.lastClock)]));
  }

  lemma PostKeeps(s: State, c: Command)
    requires Good(s) && CommandOk(c)
    ensures Good(s.(queue := s.queue + [c]))
  {
    hide ListOk, LogOk, Settings;
    SettingsAfterPost(s, c, s.(queue := s.queue + [c]));
  }

  /** The first timer is taken off its list. */
  lemma HeadOff(s: State)
    requires Good(s) && s.current != []
    ensures Good(s.(current := s.current[1..])) && EntryOk(s.current[0], Epoch(s.lastClock))
  {
    hide ListOk, LogOk, Settings, Wrap, Epoch;
    TailOk(s.current, Epoch(s.lastClock));
    SettingsOnly(s, s.(current := s.current[1..]));
  }

  lemma ProcessExpiredKeeps(s: State)
    requires Good(s) && s.current != [] && s.current[0].value <= s.lastTime
    ensures Good(ProcessExpired(s, s.lastClock)) && ProcessExpired(s, s.lastClock).lastClock == s.lastClock
  {
    hide ListOk, InsertTimer, Wrap, Epoch, LogOk, Settings;
    var e := s.current[0];
    HeadOff(s);
    ReachedInTurn(e.due, s.lastClock);
    WrapsDown(e.due, PeriodOf(s, e.owner));
    var s1 := s.(current := s.current[1..]);
    if Reloads(s, e.owner) {
      InsertKeeps(s1, e.owner, e.due);
      var next, due := Wrap(e.value + PeriodOf(s, e.owner)), e.due + PeriodOf(s, e.owner);
      InsertSame(s1, e.owner, next, s.lastTime, e.value, due);
      var r := InsertTimer(s1, e.owner, next, s.lastTime, e.value, due);
      if r.0 {
        StartIsOk(e.owner, e.due);
        PostKeeps(r.1, StartTimer(e.owner, e.value, e.due));
        FiredKeeps(r.1.(queue := r.1.queue + [StartTimer(e.owner, e.value, e.due)]), e.owner, e.due);
      } else {
        FiredKeeps(r.1, e.owner, e.due);
      }
    } else {
      FiredKeeps(s1, e.owner, e.due);
    }
  }

  lemma InsertSame(s: State, t: TimerId, next: nat, now: nat, commanded: nat, due: nat)
    ensures var (expired, s1) := InsertTimer(s, t, next, now, commanded, due);
            s1 == s.(current := s1.current, overflow := s1.overflow)
  {
  }

  /** The first timer is called back for its expiry, which is not ahead. */
  lemma ExpiredIsRight(s: State)
    requires Good(s) && s.current != [] && s.current[0].value <= s.lastTime
    ensures var e, s1 := s.current[0], ProcessExpired(s, s.lastClock);
            && Good(s1) && s1.lastClock == s.lastClock
            && e.due <= s.lastClock && s1.log == s.log + [Fired(e.owner, e.due, s.lastClock)]
  {
    hide ListOk, LogOk, Settings, Wrap, Epoch, Inserted, Classify;
    ProcessExpiredKeeps(s);
    HeadOff(s);
    ReachedInTurn(s.current[0].due, s.lastClock);
  }

  // ---- Every step ----

  lemma ProcessTimerKeeps(s: State, now: nat)
    requires Good(s) && InTime(s, now)
    ensures Good(ProcessTimer(s, now)) && ProcessTimer(s, now).lastClock == now
  {
    hide Good, Sample, ProcessExpired;
    SampleKeeps(s, now);
    SampleTime(s, now);
    var s1 := Sample(s, now);
    if !(Wrap(now) < s.lastTime || s1.current == [] || s1.current[0].value > Wrap(now)) {
      ProcessExpiredKeeps(s1);
    }
  }

  lemma SampleTime(s: State, now: nat)
    ensures Sample(s, now).lastTime == Wrap(now) && Sample(s, now).lastClock == now
  {
  }

  lemma ProcessStartKeeps(s: State, c: Command)
    requires Good(s) && c.StartTimer? && CommandOk(c) && c.since <= s.lastClock < c.since + TICKS
    ensures Good(ProcessStart(s, c, s.lastClock)) && ProcessStart(s, c, s.lastClock).lastClock == s.lastClock
  {
    hide ListOk, InsertTimer, Wrap, Epoch, LogOk, Settings;
    var next, due := Wrap(c.value + PeriodOf(s, c.timer)), c.since + PeriodOf(s, c.timer);
    WrapsDown(c.since, PeriodOf(s, c.timer));
    InsertKeeps(s, c.timer, c.since);
    InsertSame(s, c.timer, next, s.lastTime, c.value, due);
    var r := InsertTimer(s, c.timer, next, s.lastTime, c.value, due);
    if r.0 {
      FiredKeeps(r.1, c.timer, due);
      StartIsOk(c.timer, due);
      PostKeeps(r.1.(log := r.1.log + [Fired(c.timer, due, s.lastClock)]), StartTimer(c.timer, next, due));
    }
  }

  lemma SettingsAfterChange(s: State, t: TimerId, period: nat)
    requires Settings(s) && 0 < period < TICKS
    ensures Settings(s.(timers := s.timers[t := Timer(period, Reloads(s, t))]))
    ensures Settings(s.(timers := s.timers - {t}))
  {
  }

  lemma ProcessChangeKeeps(s: State, t: TimerId, period: nat)
    requires Good(s) && 0 < period < TICKS
    ensures Good(ProcessChange(s, t, period, s.lastClock))
            && ProcessChange(s, t, period, s.lastClock).lastClock == s.lastClock
  {
    hide ListOk, InsertTimer, Wrap, Epoch, LogOk, Settings;
    var s1 := s.(timers := s.timers[t := Timer(period, Reloads(s, t))]);
    SettingsAfterChange(s, t, period);
    InsertKeeps(s1, t, s.lastClock);
    InsertSame(s1, t, Wrap(s.lastClock + period), s.lastTime, s.lastTime, s.lastClock + period);
  }

  /** The state in which the time is sampled for a command: the command taken from the queue, and
      its timer off its list. */
  function Taken(s: State): State
    requires s.queue != []
  {
    var t := s.queue[0].timer;
    s.(queue := s.queue[1..], current := Without(s.current, t), overflow := Without(s.overflow, t))
  }

  lemma TakenKeeps(s: State)
    requires Good(s) && s.queue != []
    ensures Good(Taken(s)) && CommandOk(s.queue[0])
  {
    hide ListOk, Wrap, Epoch, LogOk;
    var t := s.queue[0].timer;
    WithoutOk(s.current, t, Epoch(s.lastClock));
    WithoutOk(s.overflow, t, Epoch(s.lastClock) + 1);
  }

  lemma ProcessCommandKeeps(s: State, now: nat)
    requires Good(s) && Allowed(s, Receive(now))
    ensures Good(ProcessCommand(s, now)) && ProcessCommand(s, now).lastClock == now
  {
    hide Good, Sample, ProcessStart, ProcessChange;
    var c := s.queue[0];
    TakenKeeps(s);
    SampleKeeps(Taken(s), now);
    SampleTime(Taken(s), now);
    var s1 := Sample(Taken(s), now);
    match c
    case StartTimer(_, _, _) => ProcessStartKeeps(s1, c);
    case StopTimer(_) =>
    case ChangePeriod(t, period) => ProcessChangeKeeps(s1, t, period);
    case DeleteTimer(t) => DeleteKeeps(s1, t);
  }

  lemma DeleteKeeps(s: State, t: TimerId)
    requires Good(s)
    ensures Good(s.(timers := s.timers - {t}))
  {
    hide ListOk, LogOk, Settings;
    SettingsAfterChange(s, t, 1);
  }

  lemma CreateKeeps(s: State, t: TimerId, period: nat, autoReload: bool)
    requires Good(s) && 0 < period < TICKS
    ensures Good(s.(timers := s.timers[t := Timer(period, autoReload)]))
  {
    hide ListOk, LogOk;
  }

  /** Every step keeps the lists those of the turn of the last sample and the next, sorted, and
      calls nobody back early. */
  lemma StepKeeps(s: State, step: Step)
    requires Good(s) && Allowed(s, step)
    ensures Good(Apply(s, step))
  {
    hide Good, ProcessTimer, ProcessCommand;
    match step
    case Create(t, period, autoReload) => CreateKeeps(s, t, period, autoReload);
    case Post(c) => PostKeeps(s, c);
    case Look(now) => ProcessTimerKeeps(s, now);
    case Receive(now) => ProcessCommandKeeps(s, now);
  }

  // ---- Queue and log only grow ----

  /** Commands have been added to the queue, and callbacks at the time `now` to the log. */
  ghost predicate Grows(s: State, s1: State, now: nat) {
    && s.queue <= s1.queue && s.log <= s1.log
    && forall i :: |s.log| <= i < |s1.log| ==> s1.log[i].at == now
  }

  lemma {:induction false} DrainGrows(s: State, now: nat)
    ensures Grows(s, Drain(s, now), now)
    decreases Load(s.current)
  {
    hide Inserted;
    if s.current != [] {
      DrainOneShrinks(s, now);
      DrainGrows(DrainOne(s, now), now);
    }
  }

  lemma SampleGrows(s: State, now: nat)
    ensures Grows(s, Sample(s, now), now)
  {
    hide Drain, Wrap;
    DrainGrows(s, now);
  }

  lemma LookGrows(s: State, now: nat)
    ensures Grows(s, ProcessTimer(s, now), now)
  {
    hide Sample, Inserted, Wrap, Classify;
    SampleGrows(s, now);
  }

  lemma ReceiveGrows(s: State, now: nat)
    requires s.queue != []
    ensures Grows(Taken(s), ProcessCommand(s, now), now)
  {
    hide Sample, Inserted, Wrap, Classify, Without;
    SampleGrows(Taken(s), now);
  }

  /** After a look in time that has neither switched the lists nor called anybody back, every expiry
      is ahead. */
  lemma LookIsRight(s: State, now: nat)
    requires Good(s) && InTime(s, now)
    ensures var s1 := ProcessTimer(s, now);
            && Good(s1) && s1.lastClock == now && Grows(s, s1, now)
            && (s1.log == s.log && Epoch(now) == Epoch(s.lastClock) ==>
                  forall e :: e in s1.current || e in s1.overflow ==> now < e.due)
  {
    hide Good, Sample, Wrap, Epoch, ProcessExpired;
    ProcessTimerKeeps(s, now);
    LookGrows(s, now);
    SampleIsRight(s, now);
    SampleTime(s, now);
    var s0, s1 := Sample(s, now), ProcessTimer(s, now);
    if Epoch(now) == Epoch(s.lastClock) {
      if s0.current != [] && s0.current[0].value <= Wrap(now) {
        ExpiredIsRight(s0);
        SampleGrows(s, now);
      } else {
        AllAhead(s0);
      }
    }
  }

  lemma AllAhead(s: State)
    requires Good(s) && (s.current == [] || s.lastTime < s.current[0].value)
    ensures forall e :: e in s.current || e in s.overflow ==> s.lastClock < e.due
  {
    hide Wrap, Epoch, LogOk, Settings;
    forall e | e in s.current || e in s.overflow
      ensures s.lastClock < e.due
    {
      if e in s.current {
        TailOk(s.current, Epoch(s.lastClock));
        ReachedInTurn(e.due, s.lastClock);
      } else {
        LaterTurn(s.lastClock, e.due);
      }
    }
  }

  /** What a command that is taken in time does for its timer, in unbounded time. */
  ghost predicate TakesEffect(s: State, s1: State, now: nat)
    requires s.queue != []
  {
    var c := s.queue[0];
    match c
    case StartTimer(t, _, since) =>
      var due := since + PeriodOf(s, t);
      if now >= due then Fired(t, due, now) in s1.log else FiledInTurn(s1, Entry(t, Wrap(due), due))
    case ChangePeriod(t, period) => FiledInTurn(s1, Entry(t, Wrap(now + period), now + period))
    case StopTimer(t) => forall e :: e in s1.current || e in s1.overflow ==> e.owner != t
    case DeleteTimer(t) => t !in s1.timers && forall e :: e in s1.current || e in s1.overflow ==> e.owner != t
  }

  lemma CommandIsRight(s: State, now: nat)
    requires Good(s) && Allowed(s, Receive(now))
    ensures var s1 := ProcessCommand(s, now);
            Good(s1) && s1.lastClock == now && Grows(Taken(s), s1, now) && TakesEffect(s, s1, now)
  {
    hide Good, Sample, ProcessStart, ProcessChange, FiledInTurn, Wrap, Epoch, Without, Grows;
    ProcessCommandKeeps(s, now);
    ReceiveGrows(s, now);
    TakenKeeps(s);
    SampleKeeps(Taken(s), now);
    SampleTime(Taken(s), now);
    var s0 := Sample(Taken(s), now);
    match s.queue[0]
    case StartTimer(t, _, _) => StartIsRight(s0, s.queue[0]);
    case StopTimer(t) => StoppedIsOff(s, now);
    case ChangePeriod(t, period) => ChangeIsRight(s0, t, period);
    case DeleteTimer(t) => StoppedIsOff(s, now);
  }

  lemma StartIsRight(s: State, c: Command)
    requires Good(s) && c.StartTimer? && CommandOk(c) && c.since <= s.lastClock < c.since + TICKS
    ensures var s1, due := ProcessStart(s, c, s.lastClock), c.since + PeriodOf(s, c.timer);
            if s.lastClock >= due then Fired(c.timer, due, s.lastClock) in s1.log
            else FiledInTurn(s1, Entry(c.timer, Wrap(due), due))
  {
    hide ListOk, LogOk, Settings, Wrap, Epoch, InsertTimer, FiledInTurn;
    var due := c.since + PeriodOf(s, c.timer);
    WrapsDown(c.since, PeriodOf(s, c.timer));
    InsertIsRight(s, c.timer, Wrap(due), s.lastTime, c.value, due);
  }

  lemma ChangeIsRight(s: State, t: TimerId, period: nat)
    requires Good(s) && 0 < period < TICKS
    ensures FiledInTurn(ProcessChange(s, t, period, s.lastClock),
                        Entry(t, Wrap(s.lastClock + period), s.lastClock + period))
  {
    hide ListOk, LogOk, Settings, Wrap, Epoch, InsertTimer, FiledInTurn;
    var s1 := s.(timers := s.timers[t := Timer(period, Reloads(s, t))]);
    SettingsAfterChange(s, t, period);
    InsertIsRight(s1, t, Wrap(s.lastClock + period), s.lastTime, s.lastTime, s.lastClock + period);
  }

  /** Neither the sample nor a stop puts the timer back on a list. */
  lemma StoppedIsOff(s: State, now: nat)
    requires Good(s) && s.queue != []
    ensures var s1 := Sample(Taken(s), now);
            forall e :: e in s1.current || e in s1.overflow ==> e.owner != s.queue[0].timer
  {
    hide ListOk, LogOk, Settings, Wrap, Epoch, Drain;
    var t := s.queue[0].timer;
    WithoutOk(s.current, t, Epoch(s.lastClock));
    WithoutOk(s.overflow, t, Epoch(s.lastClock) + 1);
    DrainStaysOff(Taken(s), now, t);
  }

  lemma {:induction false} DrainStaysOff(s: State, now: nat, t: TimerId)
    requires forall e :: e in s.current || e in s.overflow ==> e.owner != t
    ensures forall e :: e in Drain(s, now).current || e in Drain(s, now).overflow ==> e.owner != t
    decreases Load(s.current)
  {
    hide Load, Wrap;
    if s.current != [] {
      DrainOneShrinks(s, now);
      assert s.current[0].owner != t;
      DrainStaysOff(DrainOne(s, now), now, t);
    }
  }

  // ---- Histories ----

  predicate Permitted(s: State, steps: seq<Step>)
    decreases |steps|
  {
    steps == [] || (Allowed(s, steps[0]) && Permitted(Apply(s, steps[0]), steps[1..]))
  }

  function Run(s: State, steps: seq<Step>): State
    requires Permitted(s, steps)
    decreases |steps|
  {
    if steps == [] then s else Run(Apply(s, steps[0]), steps[1..])
  }

  lemma InitialIsGood()
    ensures Good(Initial())
  {
  }

  /** In every reachable state the current list holds, in order, timers whose expiry falls in the
      turn of the tick of the last sample, and the overflow list timers of the next turn; and no
      callback has come early. */
  lemma {:induction false} RunKeeps(s: State, steps: seq<Step>)
    requires Good(s) && Permitted(s, steps)
    ensures Good(Run(s, steps))
    decreases |steps|
  {
    hide Good, Apply, Allowed;
    if steps != [] {
      StepKeeps(s, steps[0]);
      RunKeeps(Apply(s, steps[0]), steps[1..]);
    }
  }
}
