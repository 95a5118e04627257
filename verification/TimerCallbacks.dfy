/** Which callbacks a timer gets, over any history: an auto-reload timer exactly one for every
    expiry, without drift, and a one-shot timer exactly one. */
module TimerCallbacks {
  import opened Ticks
  import opened TimedLists
  import opened Timers
  import opened TimerRuns

  // ---- What concerns one timer ----

  function CommandsOf(queue: seq<Command>, t: TimerId): seq<Command> {
    if queue == [] then []
    else if queue[0].timer == t then [queue[0]] + CommandsOf(queue[1..], t)
    else CommandsOf(queue[1..], t)
  }

  /** The expiries a timer has been called back for. */
  function DuesOf(log: seq<Fired>, t: TimerId): seq<nat> {
    if log == [] then []
    else if log[0].timer == t then [log[0].due] + DuesOf(log[1..], t)
    else DuesOf(log[1..], t)
  }

  lemma {:induction false} CommandsConcat(a: seq<Command>, b: seq<Command>, t: TimerId)
    ensures CommandsOf(a + b, t) == CommandsOf(a, t) + CommandsOf(b, t)
  {
    if a == [] {
      assert a + b == b;
    } else {
      assert (a + b)[1..] == a[1..] + b;
      CommandsConcat(a[1..], b, t);
    }
  }

  lemma {:induction false} DuesConcat(a: seq<Fired>, b: seq<Fired>, t: TimerId)
    ensures DuesOf(a + b, t) == DuesOf(a, t) + DuesOf(b, t)
  {
    if a == [] {
      assert a + b == b;
    } else {
      assert (a + b)[1..] == a[1..] + b;
      DuesConcat(a[1..], b, t);
    }
  }

  lemma OneCommand(queue: seq<Command>, c: Command, t: TimerId)
    ensures CommandsOf(queue + [c], t) == CommandsOf(queue, t) + if c.timer == t then [c] else []
  {
    CommandsConcat(queue, [c], t);
    assert [c][1..] == [];
  }

  lemma OneFired(log: seq<Fired>, f: Fired, t: TimerId)
    ensures DuesOf(log + [f], t) == DuesOf(log, t) + if f.timer == t then [f.due] else []
  {
    DuesConcat(log, [f], t);
    assert [f][1..] == [];
  }

  function Listed(s: State, t: TimerId): seq<Entry> {
    Of(s.current, t) + Of(s.overflow, t)
  }

  /** The next expiry of an active timer is on record exactly once: as the timer's entry on one of
      the lists, or as one command to start the timer a period before it. */
  ghost predicate PendingAt(s: State, t: TimerId, period: nat, due: nat) {
    || (Listed(s, t) == [Entry(t, Wrap(due), due)] && CommandsOf(s.queue, t) == [])
    || (Listed(s, t) == [] && due >= period
        && CommandsOf(s.queue, t) == [StartTimer(t, Wrap(due - period), due - period)])
  }

  /** Nothing concerns the timer. */
  ghost predicate Idle(s: State, t: TimerId) {
    Listed(s, t) == [] && CommandsOf(s.queue, t) == []
  }

  ghost predicate Has(s: State, t: TimerId, timer: Timer) {
    t in s.timers && s.timers[t] == timer
  }

  /** Nothing has happened to the timer. */
  ghost predicate Untouched(s: State, s1: State, t: TimerId) {
    && Listed(s1, t) == Listed(s, t) && CommandsOf(s1.queue, t) == CommandsOf(s.queue, t)
    && DuesOf(s1.log, t) == DuesOf(s.log, t)
    && (forall timer :: Has(s, t, timer) ==> Has(s1, t, timer))
  }

  /** The timer has been called back for `due`, and is set for its next expiry or idle. */
  ghost predicate CalledBack(s: State, s1: State, t: TimerId, timer: Timer, due: nat) {
    && DuesOf(s1.log, t) == DuesOf(s.log, t) + [due]
    && (if timer.autoReload then PendingAt(s1, t, timer.period, due + timer.period) else Idle(s1, t))
    && Has(s1, t, timer)
  }

  ghost predicate Waiting(s: State, t: TimerId, timer: Timer, due: nat) {
    Has(s, t, timer) && PendingAt(s, t, timer.period, due)
  }

  // ---- One turn of the switch loop ----

  lemma DrainOthers(s: State, now: nat, t: TimerId)
    requires s.current != [] && s.current[0].owner != t
    ensures Untouched(s, DrainOne(s, now), t)
    ensures Of(DrainOne(s, now).current, t) == Of(s.current, t) && DrainOne(s, now).overflow == s.overflow
  {
    hide Inserted, CommandsOf, DuesOf, Wrap;
    var e := s.current[0];
    var e1 := Entry(e.owner, Wrap(e.value + PeriodOf(s, e.owner)), e.due + PeriodOf(s, e.owner));
    OfInserted(s.current[1..], e1, t);
    OneCommand(s.queue, StartTimer(e.owner, e.value, e.due), t);
    OneFired(s.log, Fired(e.owner, e.due, now), t);
  }

  /** If the first timer of the list is one that waits, it is for this entry and has no other. */
  lemma FirstIsOwn(s: State, t: TimerId, timer: Timer, due: nat)
    requires s.current != [] && s.current[0].owner == t && Waiting(s, t, timer, due)
    ensures s.current[0] == Entry(t, Wrap(due), due)
    ensures Of(s.current[1..], t) == [] && Of(s.overflow, t) == [] && CommandsOf(s.queue, t) == []
  {
    hide CommandsOf, Wrap;
    assert Listed(s, t) == [s.current[0]] + Of(s.current[1..], t) + Of(s.overflow, t);
    assert |Listed(s, t)| > 0;
    OnlyOne(s.current[0], Of(s.current[1..], t), Of(s.overflow, t), Entry(t, Wrap(due), due));
  }

  lemma DrainOwn(s: State, now: nat, t: TimerId, timer: Timer, due: nat)
    requires s.current != [] && s.current[0].owner == t && Waiting(s, t, timer, due)
    ensures CalledBack(s, DrainOne(s, now), t, timer, due)
  {
    hide Inserted, CommandsOf, DuesOf, Wrap, Of;
    FirstIsOwn(s, t, timer, due);
    var e := s.current[0];
    var e1 := Entry(t, Wrap(e.value + timer.period), due + timer.period);
    WrapsDown(due, timer.period);
    OfInserted(s.current[1..], e1, t);
    OneCommand(s.queue, StartTimer(t, e.value, due), t);
    OneFired(s.log, Fired(t, due, now), t);
  }

  // ---- Over any number of steps ----

  /** `n` expiries from `due` on, a period apart. */
  function Series(due: nat, period: nat, n: nat): (dues: seq<nat>)
    ensures |dues| == n
    ensures forall i :: 0 <= i < n ==> dues[i] == due + i * period
  {
    seq(n, i requires 0 <= i < n => due + i * period)
  }

  function CallbacksSince(s: State, t: TimerId, before: seq<nat>): int {
    |DuesOf(s.log, t)| - |before|
  }

  /** The next expiry. */
  function NextDue(s: State, t: TimerId, timer: Timer, due: nat, before: seq<nat>): nat {
    var n := CallbacksSince(s, t, before);
    if n >= 0 then due + n * timer.period else due
  }

  /** Since the callbacks `before`, the timer has been called back for a series of expiries from
      `due` on, each once and in order; the next one is on record, unless the timer is a one-shot
      timer that has had its callback. */
  ghost predicate OnTrack(s: State, t: TimerId, timer: Timer, due: nat, before: seq<nat>) {
    var n := CallbacksSince(s, t, before);
    && Has(s, t, timer)
    && n >= 0 && DuesOf(s.log, t) == before + Series(due, timer.period, n)
    && (if timer.autoReload || n == 0 then PendingAt(s, t, timer.period, NextDue(s, t, timer, due, before))
        else n == 1 && Idle(s, t))
  }

  lemma StaysOnTrack(s: State, s1: State, t: TimerId, timer: Timer, due: nat, before: seq<nat>)
    requires OnTrack(s, t, timer, due, before) && Untouched(s, s1, t)
    ensures OnTrack(s1, t, timer, due, before)
  {
  }

  lemma CallbackOnTrack(s: State, s1: State, t: TimerId, timer: Timer, due: nat, before: seq<nat>)
    requires OnTrack(s, t, timer, due, before)
    requires timer.autoReload || CallbacksSince(s, t, before) == 0
    requires CalledBack(s, s1, t, timer, NextDue(s, t, timer, due, before))
    ensures OnTrack(s1, t, timer, due, before)
  {
    hide PendingAt, DuesOf, Listed, Has, Idle;
    var n := CallbacksSince(s, t, before);
    assert due + n * timer.period + timer.period == due + (n + 1) * timer.period;
    assert Series(due, timer.period, n + 1) == Series(due, timer.period, n) + [due + n * timer.period];
    assert before + Series(due, timer.period, n) + [due + n * timer.period] ==
           before + Series(due, timer.period, n + 1);
  }

  /** A timer on track that is on a list is waiting for the next expiry. */
  lemma ListedWaits(s: State, t: TimerId, timer: Timer, due: nat, before: seq<nat>)
    requires OnTrack(s, t, timer, due, before) && !Idle(s, t)
    ensures timer.autoReload || CallbacksSince(s, t, before) == 0
    ensures Waiting(s, t, timer, NextDue(s, t, timer, due, before))
  {
  }

  lemma HeadIsListed(s: State, t: TimerId)
    requires s.current != [] && s.current[0].owner == t
    ensures Listed(s, t) != [] && !Idle(s, t)
  {
    assert |Listed(s, t)| > 0;
  }

  lemma {:induction false} DrainOnTrack(s: State, now: nat, t: TimerId, timer: Timer, due: nat, before: seq<nat>)
    requires OnTrack(s, t, timer, due, before)
    ensures OnTrack(Drain(s, now), t, timer, due, before)
    decreases Load(s.current)
  {
    hide OnTrack, DrainOne, Waiting, Untouched, CalledBack, Idle;
    if s.current != [] {
      DrainOneShrinks(s, now);
      var s1 := DrainOne(s, now);
      if s.current[0].owner == t {
        HeadIsListed(s, t);
        ListedWaits(s, t, timer, due, before);
        DrainOwn(s, now, t, timer, NextDue(s, t, timer, due, before));
        CallbackOnTrack(s, s1, t, timer, due, before);
      } else {
        DrainOthers(s, now, t);
        StaysOnTrack(s, s1, t, timer, due, before);
      }
      DrainOnTrack(s1, now, t, timer, due, before);
    }
  }

  /** The rest of a sample: the lists are swapped, and the time noted. */
  lemma SwappedUntouched(s: State, s1: State, t: TimerId)
    requires s1.timers == s.timers && s1.queue == s.queue && s1.log == s.log
    requires s.current == [] && s1.current == s.overflow && s1.overflow == []
    ensures Untouched(s, s1, t)
  {
  }

  lemma {:induction false} DrainEmpties(s: State, now: nat)
    ensures Drain(s, now).current == []
    decreases Load(s.current)
  {
    if s.current != [] {
      DrainOneShrinks(s, now);
      DrainEmpties(DrainOne(s, now), now);
    }
  }

  lemma SampleOnTrack(s: State, now: nat, t: TimerId, timer: Timer, due: nat, before: seq<nat>)
    requires OnTrack(s, t, timer, due, before)
    ensures OnTrack(Sample(s, now), t, timer, due, before)
  {
    hide OnTrack, Drain, Wrap;
    if Wrap(now) < s.lastTime {
      DrainOnTrack(s, now, t, timer, due, before);
      DrainEmpties(s, now);
      SwappedUntouched(Drain(s, now), Sample(s, now), t);
      StaysOnTrack(Drain(s, now), Sample(s, now), t, timer, due, before);
    } else {
      StaysOnTrack(s, Sample(s, now), t, timer, due, before);
    }
  }

  // ---- The daemon's other work ----

  lemma InsertOther(s: State, u: TimerId, next: nat, now: nat, commanded: nat, due: nat, t: TimerId)
    requires u != t
    ensures Untouched(s, InsertTimer(s, u, next, now, commanded, due).1, t)
  {
    hide Inserted, CommandsOf, DuesOf, Of;
    OfInserted(s.current, Entry(u, next, due), t);
    OfInserted(s.overflow, Entry(u, next, due), t);
  }

  /** A timer that nothing concerns goes onto one of the lists, if it has not expired. */
  lemma InsertOwn(s: State, t: TimerId, next: nat, now: nat, commanded: nat, due: nat)
    requires Idle(s, t)
    ensures var (expired, s1) := InsertTimer(s, t, next, now, commanded, due);
            && s1.timers == s.timers && s1.log == s.log && s1.queue == s.queue
            && Listed(s1, t) == if expired then [] else [Entry(t, next, due)]
  {
    hide Inserted, CommandsOf, DuesOf, Of, Classify;
    OfInserted(s.current, Entry(t, next, due), t);
    OfInserted(s.overflow, Entry(t, next, due), t);
  }

  lemma UntouchedTwice(s: State, s1: State, s2: State, t: TimerId)
    requires Untouched(s, s1, t) && Untouched(s1, s2, t)
    ensures Untouched(s, s2, t)
  {
  }

  lemma PostOther(s: State, c: Command, t: TimerId)
    requires c.timer != t
    ensures Untouched(s, s.(queue := s.queue + [c]), t)
  {
    hide CommandsOf;
    OneCommand(s.queue, c, t);
  }

  lemma FiredOther(s: State, f: Fired, t: TimerId)
    requires f.timer != t
    ensures Untouched(s, s.(log := s.log + [f]), t)
  {
    hide DuesOf;
    OneFired(s.log, f, t);
  }

  lemma HeadOffOther(s: State, t: TimerId)
    requires s.current != [] && s.current[0].owner != t
    ensures Untouched(s, s.(current := s.current[1..]), t)
  {
  }

  lemma ExpiredOther(s: State, now: nat, t: TimerId)
    requires s.current != [] && s.current[0].owner != t
    ensures Untouched(s, ProcessExpired(s, now), t)
  {
    hide Untouched, InsertTimer, Wrap;
    var e := s.current[0];
    var s1 := s.(current := s.current[1..]);
    HeadOffOther(s, t);
    var next, due := Wrap(e.value + PeriodOf(s, e.owner)), e.due + PeriodOf(s, e.owner);
    var f := Fired(e.owner, e.due, now);
    if Reloads(s, e.owner) {
      var r := InsertTimer(s1, e.owner, next, Wrap(now), e.value, due);
      InsertOther(s1, e.owner, next, Wrap(now), e.value, due, t);
      UntouchedTwice(s, s1, r.1, t);
      if r.0 {
        var s2 := r.1.(queue := r.1.queue + [StartTimer(e.owner, e.value, e.due)]);
        PostOther(r.1, StartTimer(e.owner, e.value, e.due), t);
        UntouchedTwice(s, r.1, s2, t);
        FiredOther(s2, f, t);
        UntouchedTwice(s, s2, s2.(log := s2.log + [f]), t);
      } else {
        FiredOther(r.1, f, t);
        UntouchedTwice(s, r.1, r.1.(log := r.1.log + [f]), t);
      }
    } else {
      FiredOther(s1, f, t);
      UntouchedTwice(s, s1, s1.(log := s1.log + [f]), t);
    }
  }

  lemma ExpiredOwn(s: State, now: nat, t: TimerId, timer: Timer, due: nat)
    requires s.current != [] && s.current[0].owner == t && Waiting(s, t, timer, due)
    ensures CalledBack(s, ProcessExpired(s, now), t, timer, due)
  {
    hide InsertTimer, CommandsOf, DuesOf, Of, Wrap;
    FirstIsOwn(s, t, timer, due);
    WrapsDown(due, timer.period);
    var e := s.current[0];
    var s1 := s.(current := s.current[1..]);
    var next, due1 := Wrap(e.value + timer.period), due + timer.period;
    OneFired(s.log, Fired(t, due, now), t);
    OneCommand(s.queue, StartTimer(t, e.value, due), t);
    assert Idle(s1, t);
    InsertOwn(s1, t, next, Wrap(now), e.value, due1);
  }

  lemma ProcessTimerOnTrack(s: State, now: nat, t: TimerId, timer: Timer, due: nat, before: seq<nat>)
    requires OnTrack(s, t, timer, due, before)
    ensures OnTrack(ProcessTimer(s, now), t, timer, due, before)
  {
    hide OnTrack, Sample, ProcessExpired, Untouched, CalledBack, Waiting, Idle, Wrap;
    SampleOnTrack(s, now, t, timer, due, before);
    var s1 := Sample(s, now);
    if !(Wrap(now) < s.lastTime || s1.current == [] || s1.current[0].value > Wrap(now)) {
      if s1.current[0].owner == t {
        HeadIsListed(s1, t);
        ListedWaits(s1, t, timer, due, before);
        ExpiredOwn(s1, now, t, timer, NextDue(s1, t, timer, due, before));
        CallbackOnTrack(s1, ProcessExpired(s1, now), t, timer, due, before);
      } else {
        ExpiredOther(s1, now, t);
        StaysOnTrack(s1, ProcessExpired(s1, now), t, timer, due, before);
      }
    }
  }

  // ---- Commands ----

  lemma WaitsOnTrack(s: State, s1: State, t: TimerId, timer: Timer, due: nat, before: seq<nat>)
    requires OnTrack(s, t, timer, due, before)
    requires timer.autoReload || CallbacksSince(s, t, before) == 0
    requires Waiting(s1, t, timer, NextDue(s, t, timer, due, before)) && DuesOf(s1.log, t) == DuesOf(s.log, t)
    ensures OnTrack(s1, t, timer, due, before)
  {
  }

  lemma {:induction false} DrainIdle(s: State, now: nat, t: TimerId)
    requires Of(s.current, t) == []
    ensures Untouched(s, Drain(s, now), t) && Drain(s, now).overflow == s.overflow
    decreases Load(s.current)
  {
    hide DrainOne, Untouched;
    if s.current != [] {
      DrainOneShrinks(s, now);
      DrainOthers(s, now, t);
      DrainIdle(DrainOne(s, now), now, t);
      UntouchedTwice(s, DrainOne(s, now), Drain(s, now), t);
    } else {
      SameUntouched(s, t);
    }
  }

  lemma SameUntouched(s: State, t: TimerId)
    ensures Untouched(s, s, t)
  {
  }

  lemma SampleUnlisted(s: State, now: nat, t: TimerId)
    requires Listed(s, t) == []
    ensures Untouched(s, Sample(s, now), t)
  {
    hide Drain, Wrap;
    if Wrap(now) < s.lastTime {
      assert Of(s.current, t) == [];
      DrainIdle(s, now, t);
      DrainEmpties(s, now);
      SwappedUntouched(Drain(s, now), Sample(s, now), t);
    }
  }

  lemma SampleIdle(s: State, now: nat, t: TimerId)
    requires Idle(s, t)
    ensures Untouched(s, Sample(s, now), t)
  {
    hide Listed, CommandsOf, Sample, Untouched;
    SampleUnlisted(s, now, t);
  }

  lemma TakenOther(s: State, t: TimerId)
    requires s.queue != [] && s.queue[0].timer != t
    ensures Untouched(s, Taken(s), t)
  {
    hide Of, Without, DuesOf;
    OfWithout(s.current, s.queue[0].timer, t);
    OfWithout(s.overflow, s.queue[0].timer, t);
  }

  /** The first command of the queue, if it is for a timer that waits, is to start it. */
  lemma TakenOwn(s: State, t: TimerId, timer: Timer, due: nat)
    requires s.queue != [] && s.queue[0].timer == t && Waiting(s, t, timer, due)
    ensures due >= timer.period && s.queue[0] == StartTimer(t, Wrap(due - timer.period), due - timer.period)
    ensures Idle(Taken(s), t) && Taken(s).timers == s.timers && Taken(s).log == s.log
  {
    hide Of, Without, Wrap;
    OfWithout(s.current, t, t);
    OfWithout(s.overflow, t, t);
    assert CommandsOf(s.queue, t) == [s.queue[0]] + CommandsOf(s.queue[1..], t) + [];
    assert |CommandsOf(s.queue, t)| > 0;
    OnlyOne(s.queue[0], CommandsOf(s.queue[1..], t), [], StartTimer(t, Wrap(due - timer.period), due - timer.period));
  }

  lemma StartOwn(s: State, c: Command, now: nat, t: TimerId, timer: Timer, due: nat)
    requires due >= timer.period && c == StartTimer(t, Wrap(due - timer.period), due - timer.period)
    requires Idle(s, t) && Has(s, t, timer)
    ensures var s1 := ProcessStart(s, c, now);
            || (Waiting(s1, t, timer, due) && DuesOf(s1.log, t) == DuesOf(s.log, t))
            || CalledBack(s, s1, t, timer, due)
  {
    hide InsertTimer, CommandsOf, DuesOf, Of, Wrap;
    WrapsDown(due - timer.period, timer.period);
    InsertOwn(s, t, Wrap(due), Wrap(now), c.value, due);
    OneFired(s.log, Fired(t, due, now), t);
    OneCommand(s.queue, StartTimer(t, Wrap(due), due), t);
  }

  lemma StartOther(s: State, c: Command, now: nat, t: TimerId)
    requires c.StartTimer? && c.timer != t
    ensures Untouched(s, ProcessStart(s, c, now), t)
  {
    hide Untouched, InsertTimer, Wrap;
    var next, due := Wrap(c.value + PeriodOf(s, c.timer)), c.since + PeriodOf(s, c.timer);
    InsertOther(s, c.timer, next, Wrap(now), c.value, due, t);
    var s1 := InsertTimer(s, c.timer, next, Wrap(now), c.value, due).1;
    var s2 := s1.(log := s1.log + [Fired(c.timer, due, now)]);
    FiredOther(s1, Fired(c.timer, due, now), t);
    UntouchedTwice(s, s1, s2, t);
    PostOther(s2, StartTimer(c.timer, next, due), t);
    UntouchedTwice(s, s2, s2.(queue := s2.queue + [StartTimer(c.timer, next, due)]), t);
  }

  lemma TimerOther(s: State, u: TimerId, timer: Timer, t: TimerId)
    requires u != t
    ensures Untouched(s, s.(timers := s.timers[u := timer]), t)
    ensures Untouched(s, s.(timers := s.timers - {u}), t)
  {
  }

  lemma ChangeOther(s: State, u: TimerId, period: nat, now: nat, t: TimerId)
    requires u != t
    ensures Untouched(s, ProcessChange(s, u, period, now), t)
  {
    hide Untouched, InsertTimer, Wrap;
    var s1 := s.(timers := s.timers[u := Timer(period, Reloads(s, u))]);
    TimerOther(s, u, Timer(period, Reloads(s, u)), t);
    InsertOther(s1, u, Wrap(now + period), Wrap(now), Wrap(now), now + period, t);
    UntouchedTwice(s, s1, ProcessChange(s, u, period, now), t);
  }

  lemma CommandOther(s: State, now: nat, t: TimerId, timer: Timer, due: nat, before: seq<nat>)
    requires OnTrack(s, t, timer, due, before) && s.queue != [] && s.queue[0].timer != t
    ensures OnTrack(ProcessCommand(s, now), t, timer, due, before)
  {
    hide OnTrack, Untouched, Sample, ProcessStart, ProcessChange;
    var c := s.queue[0];
    TakenOther(s, t);
    StaysOnTrack(s, Taken(s), t, timer, due, before);
    SampleOnTrack(Taken(s), now, t, timer, due, before);
    var s1, s2 := Sample(Taken(s), now), ProcessCommand(s, now);
    match c {
      case StartTimer(_, _, _) => StartOther(s1, c, now, t);
      case StopTimer(_) => SameUntouched(s1, t);
      case ChangePeriod(u, period) => ChangeOther(s1, u, period, now, t);
      case DeleteTimer(u) => TimerOther(s1, u, timer, t);
    }
    StaysOnTrack(s1, s2, t, timer, due, before);
  }

  lemma CommandIsListed(s: State, t: TimerId)
    requires s.queue != [] && s.queue[0].timer == t
    ensures !Idle(s, t)
  {
    assert |CommandsOf(s.queue, t)| > 0;
  }

  lemma HasAfterSample(s: State, s1: State, t: TimerId, timer: Timer)
    requires Untouched(s, s1, t) && Has(s, t, timer) && Idle(s, t)
    ensures Has(s1, t, timer) && Idle(s1, t) && DuesOf(s1.log, t) == DuesOf(s.log, t)
  {
  }

  lemma CommandOwn(s: State, now: nat, t: TimerId, timer: Timer, due: nat, before: seq<nat>)
    requires OnTrack(s, t, timer, due, before) && s.queue != [] && s.queue[0].timer == t
    ensures OnTrack(ProcessCommand(s, now), t, timer, due, before)
  {
    hide OnTrack, Untouched, Sample, ProcessStart, Idle, PendingAt, DuesOf, NextDue, Wrap;
    CommandIsListed(s, t);
    ListedWaits(s, t, timer, due, before);
    var next := NextDue(s, t, timer, due, before);
    TakenOwn(s, t, timer, next);
    SampleIdle(Taken(s), now, t);
    var s1 := Sample(Taken(s), now);
    HasAfterSample(Taken(s), s1, t, timer);
    StartOwn(s1, s.queue[0], now, t, timer, next);
    var s2 := ProcessCommand(s, now);
    if CalledBack(s1, s2, t, timer, next) {
      CallbackOnTrack(s, s2, t, timer, due, before);
    } else {
      WaitsOnTrack(s, s2, t, timer, due, before);
    }
  }

  // ---- Histories ----

  /** The step is no command for the timer. */
  predicate LeavesAlone(step: Step, t: TimerId) {
    step.Post? ==> step.command.timer != t
  }

  lemma StepOnTrack(s: State, step: Step, t: TimerId, timer: Timer, due: nat, before: seq<nat>)
    requires OnTrack(s, t, timer, due, before) && Allowed(s, step) && LeavesAlone(step, t)
    ensures OnTrack(Apply(s, step), t, timer, due, before)
  {
    hide OnTrack, Untouched, ProcessTimer, ProcessCommand;
    match step
    case Create(u, period, autoReload) =>
      IsKnown(s, t, timer, due, before);
      TimerOther(s, u, Timer(period, autoReload), t);
      StaysOnTrack(s, Apply(s, step), t, timer, due, before);
    case Post(c) =>
      PostOther(s, c, t);
      StaysOnTrack(s, Apply(s, step), t, timer, due, before);
    case Look(now) => ProcessTimerOnTrack(s, now, t, timer, due, before);
    case Receive(now) =>
      if s.queue[0].timer == t {
        CommandOwn(s, now, t, timer, due, before);
      } else {
        CommandOther(s, now, t, timer, due, before);
      }
  }

  lemma IsKnown(s: State, t: TimerId, timer: Timer, due: nat, before: seq<nat>)
    requires OnTrack(s, t, timer, due, before)
    ensures t in s.timers
  {
  }

  lemma {:induction false} RunOnTrack(s: State, steps: seq<Step>, t: TimerId, timer: Timer, due: nat, before: seq<nat>)
    requires Good(s) && OnTrack(s, t, timer, due, before) && Permitted(s, steps)
             && (forall step <- steps :: LeavesAlone(step, t))
    ensures Good(Run(s, steps)) && OnTrack(Run(s, steps), t, timer, due, before)
    decreases |steps|
  {
    hide Good, OnTrack, Apply, Allowed;
    if steps != [] {
      StepKeeps(s, steps[0]);
      StepOnTrack(s, steps[0], t, timer, due, before);
      RunOnTrack(Apply(s, steps[0]), steps[1..], t, timer, due, before);
    }
  }

  /** The daemon has nothing left to do: it would block. */
  predicate Settled(s: State) {
    s.queue == [] && (s.current == [] || s.current[0].value > s.lastTime)
  }

  /** A command to start the timer at time `started` has just been posted, and the timer is inactive. */
  ghost predicate JustStarted(s: State, t: TimerId, timer: Timer, started: nat) {
    && Has(s, t, timer) && Listed(s, t) == []
    && CommandsOf(s.queue, t) == [StartTimer(t, Wrap(started), started)]
  }

  lemma StartedOnTrack(s: State, t: TimerId, timer: Timer, started: nat)
    requires JustStarted(s, t, timer, started)
    ensures OnTrack(s, t, timer, started + timer.period, DuesOf(s.log, t))
  {
    assert Series(started + timer.period, timer.period, 0) == [];
  }

  lemma {:induction false} DuesAreTimely(log: seq<Fired>, clock: nat, t: TimerId)
    requires LogOk(log, clock)
    ensures forall d <- DuesOf(log, t) :: d <= clock
  {
    if log != [] {
      forall f | f in log[1..]
        ensures f.due <= f.at <= clock
      {
        assert f in log;
      }
      assert log[0] in log;
      DuesAreTimely(log[1..], clock, t);
    }
  }

  /** What a settled daemon still has on record is ahead of the last sample. */
  lemma SettledIsAhead(s: State, t: TimerId, timer: Timer, due: nat)
    requires Good(s) && Settled(s) && Waiting(s, t, timer, due)
    ensures s.lastClock < due
  {
    hide Wrap, Epoch, LogOk, Settings;
    var e := Entry(t, Wrap(due), due);
    assert e in Listed(s, t);
    if e in Of(s.current, t) {
      OfIsIn(s.current, t, e);
      TailOk(s.current, Epoch(s.lastClock));
      ReachedInTurn(due, s.lastClock);
    } else {
      OfIsIn(s.overflow, t, e);
      LaterTurn(s.lastClock, due);
    }
  }

  /** What is true of an auto-reload timer on track: no callback has come early, and when the daemon
      is settled none is missing. */
  lemma OnTrackIsExact(s: State, t: TimerId, period: nat, due: nat, before: seq<nat>)
    requires Good(s) && OnTrack(s, t, Timer(period, true), due, before)
    ensures var n := CallbacksSince(s, t, before);
            && n >= 0 && DuesOf(s.log, t) == before + Series(due, period, n)
            && (n > 0 ==> due + (n - 1) * period <= s.lastClock)
            && (Settled(s) ==> s.lastClock < due + n * period)
  {
    hide Good, PendingAt, DuesOf, Listed;
    var n := CallbacksSince(s, t, before);
    GoodLog(s);
    DuesAreTimely(s.log, s.lastClock, t);
    if n > 0 {
      var last := DuesOf(s.log, t)[|before| + n - 1];
      assert last == Series(due, period, n)[n - 1] == due + (n - 1) * period;
      assert last in DuesOf(s.log, t);
    }
    if Settled(s) {
      SettledIsAhead(s, t, Timer(period, true), NextDue(s, t, Timer(period, true), due, before));
    }
  }

  /** Callbacks are exact.  An auto-reload timer started at time `started`, in any history without
      another command for it, has been called back for `started` + P, + 2P, + 3P and so on: each
      expiry once, in order, without drift, and none early.  And whenever the daemon is settled it
      has been called back for exactly the expiries up to the last time the daemon looked. */
  lemma CallbacksAreExact(s: State, t: TimerId, period: nat, started: nat, steps: seq<Step>)
    requires Good(s) && period > 0 && JustStarted(s, t, Timer(period, true), started)
    requires Permitted(s, steps) && forall step <- steps :: LeavesAlone(step, t)
    ensures var s1 := Run(s, steps);
            var n := |DuesOf(s1.log, t)| - |DuesOf(s.log, t)|;
            && n >= 0 && DuesOf(s1.log, t) == DuesOf(s.log, t) + Series(started + period, period, n)
            && (n > 0 ==> started + n * period <= s1.lastClock)
            && (Settled(s1) ==> s1.lastClock < started + (n + 1) * period)
  {
    hide Good, Run, Permitted, OnTrack, DuesOf, JustStarted, Settled;
    var timer, before := Timer(period, true), DuesOf(s.log, t);
    StartedOnTrack(s, t, timer, started);
    RunOnTrack(s, steps, t, timer, started + period, before);
    OnTrackIsExact(Run(s, steps), t, period, started + period, before);
    var n := CallbacksSince(Run(s, steps), t, before);
    assert started + period + n * period == started + (n + 1) * period;
    assert started + period + (n - 1) * period == started + n * period;
  }

  lemma GoodLog(s: State)
    requires Good(s)
    ensures LogOk(s.log, s.lastClock)
  {
  }

  /** A one-shot timer is called back once, for its only expiry, and not early. */
  lemma OneShotFiresOnce(s: State, t: TimerId, period: nat, started: nat, steps: seq<Step>)
    requires Good(s) && period > 0 && JustStarted(s, t, Timer(period, false), started)
    requires Permitted(s, steps) && forall step <- steps :: LeavesAlone(step, t)
    ensures var s1 := Run(s, steps);
            && (DuesOf(s1.log, t) == DuesOf(s.log, t) || DuesOf(s1.log, t) == DuesOf(s.log, t) + [started + period])
            && (DuesOf(s1.log, t) != DuesOf(s.log, t) ==> started + period <= s1.lastClock && Idle(s1, t))
            && (Settled(s1) && DuesOf(s1.log, t) == DuesOf(s.log, t) ==> s1.lastClock < started + period)
  {
    hide Good, Run, Permitted, PendingAt, DuesOf, Listed, Idle;
    var timer, before := Timer(period, false), DuesOf(s.log, t);
    StartedOnTrack(s, t, timer, started);
    RunOnTrack(s, steps, t, timer, started + period, before);
    var s1 := Run(s, steps);
    var n := CallbacksSince(s1, t, before);
    GoodLog(s1);
    DuesAreTimely(s1.log, s1.lastClock, t);
    if n == 1 {
      assert Series(started + period, period, 1) == [started + period];
      assert DuesOf(s1.log, t)[|before|] == started + period;
      assert DuesOf(s1.log, t)[|before|] in DuesOf(s1.log, t);
    } else {
      assert Series(started + period, period, 0) == [];
      if Settled(s1) {
        SettledIsAhead(s1, t, timer, started + period);
      }
    }
  }
}
