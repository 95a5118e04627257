/** What each operation on co-routines does, seen from outside. */
module CoRoutineSteps {
  import opened RingList
  import opened TimedLists
  import opened CoRoutines
  import opened CoRoutineRuns
  import opened CoRoutineHistories

  /** A new co-routine is ready at the priority asked for, or the highest there is; the others of that
      priority have their turns before it; and it is the current one if it is the first of all. */
  lemma Creates(s: State, c: CoRoutine, priority: nat)
    requires Good(s) && Allowed(s, Create(c, priority))
    ensures var s1, p := Apply(s, Create(c, priority)), if priority < PRIORITIES then priority else PRIORITIES - 1;
            && IsReady(s1, c) && s1.priorities == s.priorities[c := p]
            && s1.current == (if s.priorities == map[] then c else s.current)
            && s1.ready[p] == InsertEnd(s.ready[p], c)
            && (forall q: Priority :: q != p ==> s1.ready[q] == s.ready[q])
            && s1.delayed == s.delayed && s1.overflow == s.overflow && s1.pending == s.pending
            && s1.events == s.events && s1.clock == s.clock && s1.tick == s.tick
  {
    CreatedIsReady(s, c, priority);
  }

  /** The co-routine has gone to the place its priority gives it among those that wait for the event: behind
      all that are as urgent, in front of all that are less.  No other event list has changed. */
  ghost predicate GoesBehind(s: State, s1: State, c: CoRoutine, e: EventList) {
    var w := Waiters(s, e);
    && (exists k :: 0 <= k <= |w| && Waiters(s1, e) == w[..k] + [c] + w[k..]
                    && (forall i :: 0 <= i < k ==> PriorityOf(s, w[i]) >= PriorityOf(s, c))
                    && (k < |w| ==> PriorityOf(s, w[k]) < PriorityOf(s, c)))
    && forall f :: f != e ==> Waiters(s1, f) == Waiters(s, f)
  }

  lemma GoesToWait(s: State, c: CoRoutine, e: EventList)
    ensures GoesBehind(s, Await(s, c, e), c, e)
    ensures Await(s, c, e) == s.(events := Await(s, c, e).events)
  {
    hide InsertPosition, EventValues, PriorityOf;
    var w := Waiters(s, e);
    var k := InsertPosition(EventValues(s, w), PRIORITIES - PriorityOf(s, c));
    PlaceByValue(s, w, c);
    assert Waiters(Await(s, c, e), e) == w[..k] + [c] + w[k..];
  }

  lemma PlaceByValue(s: State, w: seq<CoRoutine>, c: CoRoutine)
    ensures var k := InsertPosition(EventValues(s, w), PRIORITIES - PriorityOf(s, c));
            && k <= |w|
            && (forall i :: 0 <= i < k ==> PriorityOf(s, w[i]) >= PriorityOf(s, c))
            && (k < |w| ==> PriorityOf(s, w[k]) < PriorityOf(s, c))
  {
    hide InsertPosition, EventValues;
  }

  /** A caller that delays itself sleeps until exactly so many ticks from now, and nobody else is moved; if
      it waits for an event it is on that event's list as well. */
  lemma Delays(s: State, d: nat, what: Waiting)
    requires Good(s) && Allowed(s, DelaySelf(d, what))
    ensures var s1 := Apply(s, DelaySelf(d, what));
            && OnTime(s1, s.current, s.clock + d) && s1.clock == s.clock && s1.pending == s.pending
            && s1.priorities == s.priorities && s1.current == s.current
            && (what == NoEvent ==> forall e :: Waiters(s1, e) == Waiters(s, e))
            && (what.For? ==> GoesBehind(s, s1, s.current, what.event))
  {
    hide Good, Sleep, Await, OnTime, IsReady;
    DelaySleeps(s, d, what);
    SleepFrame(s, d);
    SleepClock(s, d);
    if what.For? {
      GoesToWait(Sleep(s, d), s.current, what.event);
      SleepThenWait(s, d, what.event);
    }
  }

  /** Going to sleep has changed no event list and no priority. */
  lemma SleepThenWait(s: State, d: nat, e: EventList)
    requires GoesBehind(Sleep(s, d), Await(Sleep(s, d), s.current, e), s.current, e)
    ensures GoesBehind(s, Await(Sleep(s, d), s.current, e), s.current, e)
  {
    hide Sleep, Await, Waiters, PriorityOf;
    SleepClock(s, d);
  }

  lemma SleepClock(s: State, d: nat)
    ensures Sleep(s, d).clock == s.clock && Sleep(s, d).tick == s.tick
    ensures forall c :: PriorityOf(Sleep(s, d), c) == PriorityOf(s, c)
    ensures forall e :: Waiters(Sleep(s, d), e) == Waiters(s, e)
  {
  }

  /** A signal pends the first waiter, a most urgent one, and tells whether it is at least as urgent as the
      one that runs; who is ready or delayed does not change. */
  lemma Signals(s: State, e: EventList)
    requires Good(s) && Allowed(s, SignalEvent(e))
    ensures var s1, c := Apply(s, SignalEvent(e)), Waiters(s, e)[0];
            && s1.pending == s.pending + [c] && Waiters(s1, e) == Waiters(s, e)[1..]
            && (forall d <- Waiters(s, e) :: PriorityOf(s, d) <= PriorityOf(s, c))
            && s1 == s.(pending := s1.pending, events := s1.events)
            && (Signal(s, e).1 <==> PriorityOf(s, c) >= PriorityOf(s, s.current))
  {
    hide TimeAt;
    SignalsMostUrgent(s, e);
  }

  /** A run of the scheduler catches up with the kernel: whoever is delayed and was not signalled sleeps on
      until exactly its time; nobody is pended any longer; and a most urgent ready co-routine is chosen, if
      there is one. */
  lemma RunsScheduler(s: State, now: nat, c: CoRoutine, due: nat)
    requires Good(s) && Allowed(s, RunScheduler(now))
    ensures var s1 := Apply(s, RunScheduler(now));
            && s1.clock == now && s1.pending == []
            && (OnTime(s, c, due) && c !in s.pending ==> OnTime(s1, c, due))
            && (s1.ready[s1.top].items != [] ==> IsReady(s1, s1.current))
            && (IsReady(s1, c) ==>
                  s1.ready[s1.top].items != [] && PriorityOf(s1, c) <= PriorityOf(s1, s1.current))
  {
    hide Good, Schedule, OnTime, IsReady;
    ScheduleIsRight(s, now);
    if OnTime(s, c, due) && c !in s.pending {
      ScheduleFor(s, now, c, due);
    }
    forall d
      ensures d !in Schedule(s, now).pending
    {
      SchedulePending(s, now, d);
    }
    FirstMember(Schedule(s, now).pending);
  }

  lemma FirstMember(l: seq<CoRoutine>)
    ensures l != [] ==> exists c :: c in l
  {
    if l != [] {
      assert l[0] in l;
    }
  }
}
