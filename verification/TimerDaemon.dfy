/** timers.c as it runs: the lists, the queue and the settings are fields that the timer service task
    assigns.  Every method does to the state what the function it names does, whatever the state;
    and from a valid state, as long as the daemon is less than a turn of the tick late, it leaves a
    valid state and does the right thing in unbounded time. */
module TimerDaemon {
  import opened Ticks
  import opened TimedLists
  import opened Timers
  import opened TimerRuns

  class Daemon {
    var timers: map<TimerId, Timer>
    var current: seq<Entry>
    var overflow: seq<Entry>
    var queue: seq<Command>
    var lastTime: nat
    ghost var lastClock: nat
    var log: seq<Fired>

    ghost function Snapshot(): State
      reads this
    {
      State(timers, current, overflow, queue, lastTime, lastClock, log)
    }

    /** The lists are those of the turn of the tick of the last sample and of the next, sorted, and
        nobody has been called back early. */
    ghost predicate Valid()
      reads this
    {
      Good(Snapshot())
    }

    constructor ()
      ensures Valid() && Snapshot() == Initial()
    {
      timers, current, overflow, queue, lastTime, lastClock, log := map[], [], [], [], 0, 0, [];
      new;
      InitialIsGood();
    }

    function Period(t: TimerId): nat
      reads this`timers
    {
      if t in timers then timers[t].period else 1
    }

    function AutoReload(t: TimerId): bool
      reads this`timers
    {
      t in timers && timers[t].autoReload
    }

    /** The callback of a timer */
    method CallBack(t: TimerId, due: nat, now: nat)
      modifies this`log
      ensures log == old(log) + [Fired(t, due, now)]
    {
      log := log + [Fired(t, due, now)];
    }

    /** xTimerGenericCommand */
    method PostCommand(c: Command)
      modifies this`queue
      ensures queue == old(queue) + [c]
      ensures old(Valid()) && CommandOk(c) ==> Valid()
    {
      hide Good;
      ghost var s := Snapshot();
      if Good(s) && CommandOk(c) {
        PostKeeps(s, c);
      }
      queue := queue + [c];
    }

    method RemoveFromList(t: TimerId)
      modifies this`current, this`overflow
      ensures current == Without(old(current), t) && overflow == Without(old(overflow), t)
    {
      current := Without(current, t);
      overflow := Without(overflow, t);
    }

    /** prvInsertTimerInActiveList.  For a command less than a turn old the timer has expired exactly
        when its expiry has been reached, and otherwise goes onto the list of the turn it falls in. */
    method InsertTimerInActiveList(t: TimerId, next: nat, now: nat, commanded: nat, due: nat) returns (expired: bool)
      modifies this`current, this`overflow
      ensures (expired, Snapshot()) == InsertTimer(old(Snapshot()), t, next, now, commanded, due)
      ensures old(Valid() && Commanded(Snapshot(), t, next, now, commanded, due)) ==>
                && Valid() && (expired <==> lastClock >= due)
                && (!expired ==> FiledInTurn(Snapshot(), Entry(t, next, due)))
    {
      hide Good, Commanded, Inserted, FiledInTurn, Wrap;
      ghost var s := Snapshot();
      if Good(s) && Commanded(s, t, next, now, commanded, due) {
        InsertIsRight(s, t, next, now, commanded, due);
      }
      expired := false;
      if next <= now {
        if Wrap(now - commanded) >= Period(t) {
          expired := true;
        } else {
          overflow := Inserted(overflow, Entry(t, next, due));
        }
      } else {
        if now < commanded && next >= commanded {
          expired := true;
        } else {
          current := Inserted(current, Entry(t, next, due));
        }
      }
    }

    /** One turn of the loop of prvSwitchTimerLists */
    method ProcessOverdue(now: nat)
      requires current != []
      modifies this`current, this`queue, this`log
      ensures Snapshot() == DrainOne(old(Snapshot()), now)
    {
      hide Inserted;
      var e := current[0];
      current := current[1..];
      CallBack(e.owner, e.due, now);
      if AutoReload(e.owner) {
        var reload := Wrap(e.value + Period(e.owner));
        if reload > e.value {
          current := Inserted(current, Entry(e.owner, reload, e.due + Period(e.owner)));
        } else {
          PostCommand(StartTimer(e.owner, e.value, e.due));
        }
      }
    }

    /** prvSwitchTimerLists.  The loop ends because a timer that goes back onto the list does so
        with a larger value, and values are bounded. */
    method SwitchTimerLists(now: nat)
      modifies this`current, this`overflow, this`queue, this`log
      ensures Snapshot() == SwitchLists(old(Snapshot()), now)
      ensures old(Draining(Snapshot(), now)) ==> current == old(overflow) && overflow == []
    {
      hide DrainOne, Draining;
      ghost var s := Snapshot();
      if Draining(s, now) {
        DrainKeeps(s, now);
      }
      while current != []
        invariant Drain(Snapshot(), now) == Drain(old(Snapshot()), now)
        invariant overflow == old(overflow)
        decreases Load(current)
      {
        DrainOneShrinks(Snapshot(), now);
        DrainOneOverflow(Snapshot(), now);
        ProcessOverdue(now);
      }
      current, overflow := overflow, current;
    }

    /** prvSampleTimeNow.  Less than a turn after the last sample the lists are switched exactly when the
        turn of the tick has changed, and are then those of the new turn and the one after. */
    method SampleTimeNow(now: nat) returns (tick: nat, switched: bool)
      modifies this
      ensures Snapshot() == Sample(old(Snapshot()), now)
      ensures tick == Wrap(now) && switched == (Wrap(now) < old(lastTime))
      ensures old(Valid() && InTime(Snapshot(), now)) ==>
                && Valid() && lastClock == now && (switched <==> Epoch(now) != Epoch(old(lastClock)))
                && (switched ==> current == old(overflow) && overflow == [])
    {
      hide SwitchLists, Good, Wrap, Epoch;
      ghost var s := Snapshot();
      if Good(s) && InTime(s, now) {
        SampleIsRight(s, now);
      }
      tick := Wrap(now);
      switched := tick < lastTime;
      if switched {
        SwitchTimerLists(now);
      }
      lastTime := tick;
      lastClock := now;
    }

    /** prvProcessExpiredTimer.  The first timer is called back for its own expiry, which is not ahead. */
    method ProcessExpiredTimer(now: nat)
      requires current != []
      modifies this
      ensures Snapshot() == ProcessExpired(old(Snapshot()), now)
      ensures old(Valid()) && now == old(lastClock) && old(current[0]).value <= old(lastTime) ==>
                && Valid() && lastClock == now && old(current[0]).due <= now
                && log == old(log) + [Fired(old(current[0]).owner, old(current[0]).due, now)]
    {
      hide InsertTimer, Good, Commanded, FiledInTurn, Wrap;
      ghost var s := Snapshot();
      if Good(s) && now == s.lastClock && s.current[0].value <= s.lastTime {
        ExpiredIsRight(s);
      }
      var e := current[0];
      current := current[1..];
      if AutoReload(e.owner) {
        var next, due := Wrap(e.value + Period(e.owner)), e.due + Period(e.owner);
        var expired := InsertTimerInActiveList(e.owner, next, Wrap(now), e.value, due);
        if expired {
          PostCommand(StartTimer(e.owner, e.value, e.due));
        }
      }
      CallBack(e.owner, e.due, now);
    }

    /** prvGetNextExpireTime and prvProcessTimerOrBlockTask.  In time, whoever is called back is so at
        `now` and not early; and if nobody is, and the turn has not changed, every expiry is ahead, so
        that the daemon may block. */
    method ProcessTimerOrBlock(now: nat)
      modifies this
      ensures Snapshot() == ProcessTimer(old(Snapshot()), now)
      ensures old(Valid() && InTime(Snapshot(), now)) ==>
                && Valid() && lastClock == now && Grows(old(Snapshot()), Snapshot(), now)
                && (log == old(log) && Epoch(now) == Epoch(old(lastClock)) ==>
                      forall e :: e in current || e in overflow ==> now < e.due)
    {
      hide Sample, ProcessExpired, Good, Wrap, Epoch;
      ghost var s := Snapshot();
      if Good(s) && InTime(s, now) {
        LookIsRight(s, now);
      }
      var tick, switched := SampleTimeNow(now);
      if !switched {
        if current != [] && current[0].value <= tick {
          ProcessExpiredTimer(now);
        }
      }
    }

    method StartOrReset(c: Command, now: nat)
      requires c.StartTimer?
      modifies this
      ensures Snapshot() == ProcessStart(old(Snapshot()), c, now)
    {
      hide InsertTimer;
      var next, due := Wrap(c.value + Period(c.timer)), c.since + Period(c.timer);
      var expired := InsertTimerInActiveList(c.timer, next, Wrap(now), c.value, due);
      if expired {
        CallBack(c.timer, due, now);
        if AutoReload(c.timer) {
          PostCommand(StartTimer(c.timer, next, due));
        }
      }
    }

    /** One turn of the loop of prvProcessReceivedCommands.  A command that is taken in time takes effect
        in unbounded time, and nobody is called back early. */
    method ProcessReceivedCommand(now: nat)
      requires queue != []
      modifies this
      ensures Snapshot() == ProcessCommand(old(Snapshot()), now)
      ensures old(Valid() && Allowed(Snapshot(), Receive(now))) ==>
                && Valid() && lastClock == now && Grows(Taken(old(Snapshot())), Snapshot(), now)
                && TakesEffect(old(Snapshot()), Snapshot(), now)
    {
      hide Sample, ProcessStart, InsertTimer, Good, Commanded, FiledInTurn, TakesEffect, Wrap, Epoch, Allowed, Grows;
      ghost var s := Snapshot();
      if Good(s) && Allowed(s, Receive(now)) {
        CommandIsRight(s, now);
      }
      var c := queue[0];
      queue := queue[1..];
      RemoveFromList(c.timer);
      var tick, _ := SampleTimeNow(now);
      match c {
        case StartTimer(_, _, _) => StartOrReset(c, now);
        case StopTimer(_) =>
        case ChangePeriod(t, period) =>
          timers := timers[t := Timer(period, AutoReload(t))];
          var _ := InsertTimerInActiveList(t, Wrap(now + period), tick, tick, now + period);
        case DeleteTimer(t) => timers := timers - {t};
      }
    }
  }

  lemma DrainOneOverflow(s: State, now: nat)
    requires s.current != []
    ensures DrainOne(s, now).overflow == s.overflow
  {
  }
}
