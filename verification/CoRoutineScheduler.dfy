/** croutine.c as it runs: the lists and counters are fields that the functions assign, with the
    nested loops of the scheduler.  Every method does to the state what the function it names does,
    and keeps a valid state valid under the conditions of the step it is. */
module CoRoutineScheduler {
  import opened RingList
  import opened Ticks
  import opened TimedLists
  import opened CoRoutines
  import opened CoRoutineRuns
  import opened CoRoutineHistories
  import opened CoRoutineSteps

  class Scheduler {
    var priorities: map<CoRoutine, Priority>
    var ready: ReadyLists
    var delayed: seq<Entry>
    var overflow: seq<Entry>
    var pending: seq<CoRoutine>
    var events: map<EventList, seq<CoRoutine>>
    var tick: nat
    var clock: nat            // read by no decision
    var lastTick: nat
    var top: Priority
    var current: CoRoutine

    ghost function Snapshot(): State
      reads this
    {
      State(priorities, ready, delayed, overflow, pending, events, tick, clock, lastTick, top, current)
    }

    /** Each co-routine is in one place, and the delayed lists are those of this turn and the next. */
    ghost predicate Valid()
      reads this
    {
      Good(Snapshot())
    }

    constructor ()
      ensures Valid() && Snapshot() == Initial()
      ensures priorities == map[] && events == map[] && pending == [] && tick == lastTick == top == 0
    {
      priorities, ready, delayed, overflow, pending, events := map[], NoneReady(), [], [], [], map[];
      tick, clock, lastTick, top, current := 0, 0, 0, 0, 0;
      new;
      InitialIsGood();
    }

    function UrgencyOf(c: CoRoutine): Priority
      reads this`priorities
    {
      if c in priorities then priorities[c] else 0
    }

    /** prvAddCoRoutineToReadyQueue */
    method AddToReadyQueue(c: CoRoutine)
      modifies this`top, this`ready
      ensures Snapshot() == AddReady(old(Snapshot()), c)
    {
      var p := UrgencyOf(c);
      if p > top {
        top := p;
      }
      ready := ready[p := InsertEnd(ready[p], c)];
    }

    /** uxListRemove on a generic item */
    method RemoveGenericItem(c: CoRoutine)
      modifies this`ready, this`delayed, this`overflow
      ensures Snapshot() == Unlist(old(Snapshot()), c)
    {
      var p := UrgencyOf(c);
      if c in ready[p].items {
        ready := ready[p := Remove(ready[p], c)];
      }
      delayed := Without(delayed, c);
      overflow := Without(overflow, c);
    }

    /** uxListRemove on an event item */
    method RemoveEventItem(c: CoRoutine)
      modifies this`pending, this`events
      ensures Snapshot() == Forget(old(Snapshot()), c)
    {
      pending := Minus(pending, c);
      events := map e <- events :: Minus(events[e], c);
    }

    /** xCoRoutineCreate, once the memory is there.  The new co-routine is ready at the priority asked
        for, or the highest there is. */
    method CreateCoRoutine(c: CoRoutine, priority: nat)
      modifies this
      ensures Snapshot() == CreateAs(old(Snapshot()), c, priority)
      ensures old(Valid()) && c !in old(priorities) ==>
                && Valid() && IsReady(Snapshot(), c)
                && UrgencyOf(c) == if priority >= PRIORITIES then PRIORITIES - 1 else priority
      ensures current == if old(priorities) == map[] then c else old(current)
    {
      hide Good, IsReady;
      ghost var s := Snapshot();
      if Good(s) && c !in s.priorities {
        CreatedIsReady(s, c, priority);
      }
      if priorities == map[] {
        current := c;
      }
      var p := priority;
      if p >= PRIORITIES {
        p := PRIORITIES - 1;
      }
      priorities := priorities[c := p];
      AddToReadyQueue(c);
    }

    /** The search loop of vListInsert */
    method FindPlace(w: seq<CoRoutine>, c: CoRoutine) returns (k: nat)
      ensures k == InsertPosition(EventValues(Snapshot(), w), PRIORITIES - UrgencyOf(c))
    {
      hide InsertPosition, EventValues;
      k := 0;
      while k < |w| && UrgencyOf(w[k]) >= UrgencyOf(c)
        invariant k <= |w|
        invariant forall i :: 0 <= i < k ==> UrgencyOf(w[i]) >= UrgencyOf(c)
      {
        k := k + 1;
      }
      PositionFound(Snapshot(), w, c, k);
    }

    method InsertEventItem(c: CoRoutine, e: EventList)
      modifies this`events
      ensures Snapshot() == Await(old(Snapshot()), c, e)
    {
      hide InsertPosition, EventValues;
      var w := if e in events then events[e] else [];
      var k := FindPlace(w, c);
      events := events[e := w[..k] + [c] + w[k..]];
    }

    /** vCoRoutineAddToDelayedList.  A ready co-routine that calls it is delayed until exactly `ticks`
        ticks from now, and waits for the event if there is one. */
    method AddToDelayedList(ticks: nat, what: Waiting)
      modifies this
      ensures Snapshot() == Delay(old(Snapshot()), ticks, what)
      ensures old(CoRoutines.Allowed(Snapshot(), DelaySelf(ticks, what))) && old(Valid()) ==>
                && Valid() && OnTime(Snapshot(), current, clock + ticks)
                && (what.For? ==> GoesBehind(old(Snapshot()), Snapshot(), current, what.event))
    {
      hide Inserted, Await, Wrap, Unlist, Good, OnTime, CoRoutines.Allowed, GoesBehind;
      ghost var s := Snapshot();
      if CoRoutines.Allowed(s, DelaySelf(ticks, what)) && Good(s) {
        DelayKeeps(s, ticks, what);
        Delays(s, ticks, what);
      }
      var wake := Wrap(tick + ticks);
      RemoveGenericItem(current);
      var due := clock + ticks;
      if wake < tick {
        overflow := Inserted(overflow, Entry(current, wake, due));
      } else {
        delayed := Inserted(delayed, Entry(current, wake, due));
      }
      if what.For? {
        InsertEventItem(current, what.event);
      }
    }

    /** xCoRoutineRemoveFromEventList.  The first of the list is a most urgent one of those that wait,
        and is pended. */
    method RemoveFromEventList(e: EventList) returns (urgent: bool)
      requires e in events && events[e] != []
      modifies this`pending, this`events
      ensures (Snapshot(), urgent) == Signal(old(Snapshot()), e)
      ensures old(Valid()) ==>
                && Valid() && events[e] == old(events[e])[1..] && pending == old(pending) + [old(events[e])[0]]
                && forall c <- old(events[e]) :: UrgencyOf(c) <= UrgencyOf(old(events[e])[0])
      ensures urgent <==> UrgencyOf(old(events[e])[0]) >= UrgencyOf(current)
    {
      hide Core, TimeAt, Minus;
      ghost var s := Snapshot();
      if Good(s) {
        SignalKeeps(s, e);
        SignalsMostUrgent(s, e);
        SameTime(s, Signal(s, e).0);
      }
      var c := events[e][0];
      RemoveEventItem(c);
      pending := pending + [c];
      urgent := UrgencyOf(c) >= UrgencyOf(current);
    }

    /** prvCheckPendingReadyList */
    method CheckPendingReadyList()
      modifies this
      ensures Snapshot() == CheckPending(old(Snapshot()))
      ensures pending == [] && (old(Valid()) ==> Valid() && clock == old(clock))
    {
      hide AddReady, Unlist, Good;
      ghost var s := Snapshot();
      if Good(s) {
        CheckPendingKeeps(s);
      }
      while pending != []
        invariant CheckPending(Snapshot()) == CheckPending(old(Snapshot()))
        decreases |pending|
      {
        var c := pending[0];
        RemoveEventItem(c);
        RemoveGenericItem(c);
        AddToReadyQueue(c);
      }
    }

    /** The inner loop of prvCheckDelayedList */
    method WakeTimedOut()
      modifies this
      ensures Snapshot() == WakeDue(old(Snapshot()))
    {
      hide AddReady;
      while delayed != [] && tick >= delayed[0].value
        invariant WakeDue(Snapshot()) == WakeDue(old(Snapshot()))
        decreases |delayed|
      {
        var c := delayed[0].owner;
        delayed := delayed[1..];
        RemoveEventItem(c);
        AddToReadyQueue(c);
      }
    }

    method AdvanceTick()
      modifies this`tick, this`clock, this`delayed, this`overflow
      ensures Snapshot() == Advanced(old(Snapshot()))
    {
      tick := Wrap(tick + 1);
      clock := clock + 1;
      if tick == 0 {
        delayed, overflow := overflow, delayed;
      }
    }

    /** prvCheckDelayedList.  Less than a turn of the tick behind, it catches up with the kernel, and
        whoever is delayed is so for exactly its time. */
    method CheckDelayedList(now: nat)
      modifies this
      ensures Snapshot() == CheckDelayed(old(Snapshot()), now)
      ensures old(Valid()) && old(clock) <= now < old(clock) + TICKS ==>
                && Valid() && clock == now
                && forall c, due :: OnTime(old(Snapshot()), c, due) ==> OnTime(Snapshot(), c, due)
    {
      hide WakeDue, Advanced, Wrap, Good, OnTime;
      ghost var s := Snapshot();
      if Good(s) && s.clock <= now < s.clock + TICKS {
        CheckDelayedIsRight(s, now);
      }
      var passed := Wrap(Wrap(now) - lastTick);
      ghost var n := passed;
      while passed > 0
        invariant passed <= n
        invariant Snapshot() == CatchUp(old(Snapshot()), n - passed)
      {
        AdvanceTick();
        passed := passed - 1;
        WakeTimedOut();
      }
      lastTick := tick;
    }

    /** The scan of vCoRoutineSchedule: down to the highest priority with a ready co-routine */
    method ScanReadyLists() returns (found: bool)
      modifies this`top
      ensures top == Lowered(ready, old(top))
      ensures found <==> ready[top].items != []
    {
      while ready[top].items == []
        invariant Lowered(ready, top) == Lowered(ready, old(top))
        decreases top
      {
        if top == 0 {
          return false;
        }
        top := top - 1;
      }
      found := true;
    }

    /** vCoRoutineSchedule, up to the call of the co-routine: whether there is one to call.  It has then
        caught up with the kernel, and the one to call is ready and nobody ready is more urgent. */
    method ScheduleNext(now: nat) returns (found: bool)
      modifies this
      ensures Snapshot() == Schedule(old(Snapshot()), now)
      ensures found <==> ready[top].items != []
      ensures old(Valid()) && old(clock) <= now < old(clock) + TICKS ==>
                && Valid() && clock == now
                && (found ==> IsReady(Snapshot(), current))
                && forall c :: IsReady(Snapshot(), c) ==> found && UrgencyOf(c) <= UrgencyOf(current)
    {
      hide CheckPending, CheckDelayed, Good, IsReady, OnTime;
      ghost var s := Snapshot();
      if Good(s) && s.clock <= now < s.clock + TICKS {
        ScheduleIsRight(s, now);
      }
      CheckPendingReadyList();
      CheckDelayedList(now);
      found := ScanReadyLists();
      if found {
        ready := ready[top := Advance(ready[top])];
        current := RingList.Current(ready[top]);
      }
    }
  }

  lemma PositionFound(s: State, w: seq<CoRoutine>, c: CoRoutine, k: nat)
    requires k <= |w| && (forall i :: 0 <= i < k ==> PriorityOf(s, w[i]) >= PriorityOf(s, c))
    requires k < |w| ==> PriorityOf(s, w[k]) < PriorityOf(s, c)
    ensures InsertPosition(EventValues(s, w), PRIORITIES - PriorityOf(s, c)) == k
  {
    hide InsertPosition, PriorityOf;
    var v := EventValues(s, w);
    assert forall i :: 0 <= i < k ==> v[i] <= PRIORITIES - PriorityOf(s, c);
  }
}
