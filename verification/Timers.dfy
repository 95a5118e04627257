/** The timer service of timers.c: two lists of active timers, one for this turn of the 32-bit
    tick and one for the next, and a queue of commands. */
module Timers {
  import opened RingList
  import opened Ticks
  import opened TimedLists

  type TimerId = nat

  datatype Timer = Timer(period: nat, autoReload: bool)

  /** `since` is the unbounded time that the value of a start command stands for. */
  datatype Command =
    | StartTimer(timer: TimerId, value: nat, since: nat)
    | StopTimer(timer: TimerId)
    | ChangePeriod(timer: TimerId, period: nat)
    | DeleteTimer(timer: TimerId)

  /** A callback, for which expiry, and at what time. */
  datatype Fired = Fired(timer: TimerId, due: nat, at: nat)

  /** `due`, `since`, `lastClock` and `log` are for reasoning: no decision reads them. */
  datatype State = State(
    timers: map<TimerId, Timer>,
    current: seq<Entry>,        // pxCurrentTimerList
    overflow: seq<Entry>,       // pxOverflowTimerList
    queue: seq<Command>,        // xTimerQueue
    lastTime: nat,              // xLastTime
    lastClock: nat,
    log: seq<Fired>)

  function PeriodOf(s: State, t: TimerId): nat {
    if t in s.timers then s.timers[t].period else 1
  }

  function Reloads(s: State, t: TimerId): bool {
    t in s.timers && s.timers[t].autoReload
  }

  // ---- Classification ----

  /** What prvInsertTimerInActiveList decides, from the 32-bit values alone. */
  datatype Verdict = Expired | ThisTurn | NextTurn

  function Classify(next: nat, now: nat, commanded: nat, period: nat): Verdict {
    if next <= now then
      if Wrap(now - commanded) >= period then Expired else NextTurn
    else if now < commanded && next >= commanded then Expired
    else ThisTurn
  }

  lemma AtMostOneTurn(a: nat, b: nat)
    requires a <= b < a + TICKS
    ensures Epoch(a) <= Epoch(b) <= Epoch(a) + 1
  {
    hide Wrap, Epoch;
    WrapDifference(a, b);
  }

  /** The verdict is right in unbounded time, if the command is less than one turn of the tick old:
      expired exactly when the expiry has been reached, and otherwise filed under the turn of the
      tick that the expiry falls in. */
  lemma ClassifiedRight(commanded: nat, period: nat, now: nat)
    requires commanded <= now < commanded + TICKS && 0 < period < TICKS
    ensures var verdict := Classify(Wrap(commanded + period), Wrap(now), Wrap(commanded), period);
            && (verdict == Expired <==> now >= commanded + period)
            && (verdict == ThisTurn ==> Epoch(commanded + period) == Epoch(now))
            && (verdict == NextTurn ==> Epoch(commanded + period) == Epoch(now) + 1)
  {
    hide Wrap, Epoch;
    var due := commanded + period;
    WrapDifference(commanded, now);
    WrapDifference(commanded, due);
    SmallWrap(now - commanded);
    if now <= due {
      WrapDifference(now, due);
      AtMostOneTurn(now, due);
    } else {
      WrapDifference(due, now);
    }
    AtMostOneTurn(commanded, now);
  }

  /** A new period counts from now, and so never finds the timer expired. */
  lemma NewPeriodIsAhead(now: nat, period: nat)
    requires 0 < period < TICKS
    ensures Classify(Wrap(now + period), Wrap(now), Wrap(now), period) != Expired
  {
    ClassifiedRight(now, period, now);
  }

  /** A sample notices a wrap of the tick by comparing with the last sample; this is right exactly
      when the two are less than a turn of the tick apart. */
  lemma WrapIsNoticedExactlyWhen(last: nat, now: nat)
    requires last <= now
    ensures Epoch(now) == Epoch(last) + (if Wrap(now) < Wrap(last) then 1 else 0) <==> now - last < TICKS
  {
    WrapDifference(last, now);
    assert Wrap(last) < TICKS && Wrap(now) < TICKS;
    hide Wrap, Epoch;
  }

  /** One wrap between two samples is not enough to be noticed. */
  lemma OneWrapCanBeMissed()
    ensures var last, now := 5, TICKS + 10;
            Epoch(now) == Epoch(last) + 1 && !(Wrap(now) < Wrap(last))
  {
    assert Wrap(TICKS + 10) == 10 && Epoch(TICKS + 10) == 1;
  }

  // ---- The steps ----

  /** prvInsertTimerInActiveList: whether the timer has expired already, and else the lists with it */
  function InsertTimer(s: State, t: TimerId, next: nat, now: nat, commanded: nat, due: nat): (r: (bool, State)) {
    match Classify(next, now, commanded, PeriodOf(s, t))
    case Expired => (true, s)
    case ThisTurn => (false, s.(current := Inserted(s.current, Entry(t, next, due))))
    case NextTurn => (false, s.(overflow := Inserted(s.overflow, Entry(t, next, due))))
  }

  /** What is left of the turn for all timers on a list: it goes down with every turn of the loop
      in prvSwitchTimerLists. */
  function Load(entries: seq<Entry>): nat {
    if entries == [] then 0
    else (if entries[0].value < TICKS then TICKS - entries[0].value else 0) + 1 + Load(entries[1..])
  }

  lemma {:induction false} LoadInserted(a: seq<Entry>, e: Entry, b: seq<Entry>)
    ensures Load(a + [e] + b) == Load(a + b) + Load([e])
  {
    if a == [] {
      assert a + [e] + b == [e] + b && a + b == b;
      assert ([e] + b)[1..] == b;
    } else {
      assert (a + [e] + b)[1..] == a[1..] + [e] + b;
      assert (a + b)[1..] == a[1..] + b;
      LoadInserted(a[1..], e, b);
    }
  }

  /** One turn of the loop in prvSwitchTimerLists: the first timer of the old turn has expired. */
  function DrainOne(s: State, now: nat): State
    requires s.current != []
  {
    var e := s.current[0];
    var s1 := s.(current := s.current[1..], log := s.log + [Fired(e.owner, e.due, now)]);
    if !Reloads(s, e.owner) then s1
    else
      var reload := Wrap(e.value + PeriodOf(s, e.owner));
      if reload > e.value then
        s1.(current := Inserted(s1.current, Entry(e.owner, reload, e.due + PeriodOf(s, e.owner))))
      else
        s1.(queue := s1.queue + [StartTimer(e.owner, e.value, e.due)])
  }

  lemma InsertedLoad(entries: seq<Entry>, e: Entry)
    ensures Load(Inserted(entries, e)) == Load(entries) + Load([e])
  {
    hide Load;
    var k := InsertPosition(ValuesOf(entries), e.value);
    LoadInserted(entries[..k], e, entries[k..]);
    assert entries == entries[..k] + entries[k..];
  }

  lemma LoadOfOne(e: Entry)
    ensures Load([e]) == (if e.value < TICKS then TICKS - e.value else 0) + 1
  {
    assert [e][1..] == [];
  }

  /** The loop ends: a timer that goes back on the list goes back with a larger value. */
  lemma DrainOneShrinks(s: State, now: nat)
    requires s.current != []
    ensures Load(DrainOne(s, now).current) < Load(s.current)
  {
    hide Inserted;
    var e := s.current[0];
    var e1 := Entry(e.owner, Wrap(e.value + PeriodOf(s, e.owner)), e.due + PeriodOf(s, e.owner));
    InsertedLoad(s.current[1..], e1);
    LoadOfOne(e1);
  }

  function Drain(s: State, now: nat): State
    decreases Load(s.current)
  {
    if s.current == [] then s
    else
      DrainOneShrinks(s, now);
      Drain(DrainOne(s, now), now)
  }

  /** prvSwitchTimerLists */
  function SwitchLists(s: State, now: nat): State {
    var s1 := Drain(s, now);
    s1.(current := s1.overflow, overflow := s1.current)
  }

  /** prvSampleTimeNow at the unbounded time `now` */
  function Sample(s: State, now: nat): State {
    (if Wrap(now) < s.lastTime then SwitchLists(s, now) else s).(lastTime := Wrap(now), lastClock := now)
  }

  /** prvProcessExpiredTimer */
  function ProcessExpired(s: State, now: nat): State
    requires s.current != []
  {
    var e := s.current[0];
    var s1 := s.(current := s.current[1..]);
    var s2 :=
      if !Reloads(s, e.owner) then s1
      else
        var (expired, s') := InsertTimer(s1, e.owner, Wrap(e.value + PeriodOf(s, e.owner)), Wrap(now), e.value,
                                         e.due + PeriodOf(s, e.owner));
        if expired then s'.(queue := s'.queue + [StartTimer(e.owner, e.value, e.due)]) else s';
    s2.(log := s2.log + [Fired(e.owner, e.due, now)])
  }

  /** prvGetNextExpireTime and prvProcessTimerOrBlockTask: the first timer is processed if it has
      expired and the lists have not just been switched. */
  function ProcessTimer(s: State, now: nat): State {
    var s1 := Sample(s, now);
    if Wrap(now) < s.lastTime || s1.current == [] || s1.current[0].value > Wrap(now) then s1
    else ProcessExpired(s1, now)
  }

  /** A start command, once the timer is off its list and the time has been sampled */
  function ProcessStart(s: State, c: Command, now: nat): State
    requires c.StartTimer?
  {
    var next, due := Wrap(c.value + PeriodOf(s, c.timer)), c.since + PeriodOf(s, c.timer);
    var (expired, s1) := InsertTimer(s, c.timer, next, Wrap(now), c.value, due);
    if !expired then s1
    else
      var s2 := s1.(log := s1.log + [Fired(c.timer, due, now)]);
      if Reloads(s, c.timer) then s2.(queue := s2.queue + [StartTimer(c.timer, next, due)]) else s2
  }

  function ProcessChange(s: State, t: TimerId, period: nat, now: nat): State {
    var s1 := s.(timers := s.timers[t := Timer(period, Reloads(s, t))]);
    InsertTimer(s1, t, Wrap(now + period), Wrap(now), Wrap(now), now + period).1
  }

  /** One turn of the loop in prvProcessReceivedCommands */
  function ProcessCommand(s: State, now: nat): State
    requires s.queue != []
  {
    var c := s.queue[0];
    var s1 := Sample(s.(queue := s.queue[1..], current := Without(s.current, c.timer),
                        overflow := Without(s.overflow, c.timer)), now);
    match c
    case StartTimer(_, _, _) => ProcessStart(s1, c, now)
    case StopTimer(_) => s1
    case ChangePeriod(t, period) => ProcessChange(s1, t, period, now)
    case DeleteTimer(t) => s1.(timers := s1.timers - {t})
  }

  datatype Step =
    | Create(timer: TimerId, period: nat, autoReload: bool)
    | Post(command: Command)            // by any task or interrupt
    | Look(now: nat)                    // the daemon looks at its first timer
    | Receive(now: nat)                 // the daemon takes a command

  /** The daemon is never a whole turn of the tick late: not between two samples, and not with a
      start command. */
  predicate InTime(s: State, now: nat) {
    s.lastClock <= now < s.lastClock + TICKS
  }

  predicate Allowed(s: State, step: Step) {
    match step
    case Create(t, period, _) => t !in s.timers && 0 < period < TICKS
    case Post(c) =>
      && (c.StartTimer? ==> c.value == Wrap(c.since))
      && (c.ChangePeriod? ==> 0 < c.period < TICKS)
    case Look(now) => InTime(s, now)
    case Receive(now) =>
      && InTime(s, now) && s.queue != []
      && (s.queue[0].StartTimer? ==> s.queue[0].since <= now < s.queue[0].since + TICKS)
  }

  function Apply(s: State, step: Step): State
    requires Allowed(s, step)
  {
    match step
    case Create(t, period, autoReload) => s.(timers := s.timers[t := Timer(period, autoReload)])
    case Post(c) => s.(queue := s.queue + [c])
    case Look(now) => ProcessTimer(s, now)
    case Receive(now) => ProcessCommand(s, now)
  }

  function Initial(): State {
    State(map[], [], [], [], 0, 0, [])
  }
}
