/** Timeouts that survive interruptions: vTaskSetTimeOutState and xTaskCheckForTimeOut.  Both read
    only the 32-bit tick and the 32-bit count of its overflows. */
module Timeouts {
  import opened Ticks

  /** TimeOut_t */
  datatype Mark = Mark(overflows: nat, entered: nat)

  /** What a check reports, the ticks that are left to wait, and the mark it leaves. */
  datatype Outcome = Outcome(expired: bool, remaining: nat, mark: Mark)

  /** What vTaskSetTimeOutState records at the unbounded time `now`. */
  function MarkAt(now: nat): Mark {
    Mark(Wrap(Epoch(now)), Wrap(now))
  }

  /** xTaskCheckForTimeOut at the unbounded time `now` */
  function Check(mark: Mark, now: nat, wait: nat): Outcome {
    var tick, elapsed := Wrap(now), Wrap(Wrap(now) - mark.entered);
    if wait == MAX_DELAY then Outcome(false, wait, mark)
    else if Wrap(Epoch(now)) != mark.overflows && tick >= mark.entered then Outcome(true, wait, mark)
    else if elapsed < wait then Outcome(false, wait - elapsed, MarkAt(now))
    else Outcome(true, wait, mark)
  }

  class TimeOut {
    var overflowCount: nat
    var timeOnEntering: nat

    ghost function Snapshot(): Mark
      reads this
    {
      Mark(overflowCount, timeOnEntering)
    }

    /** vTaskSetTimeOutState, with the values of xNumOfOverflows and xTickCount.  If these are the
        values at the time `entered`, a later check, at most one overflow on, reports expiry exactly
        when the whole wait has passed since `entered`, and otherwise what is left of it. */
    method SetState(overflows: nat, tick: nat)
      modifies this
      ensures Snapshot() == Mark(overflows, tick)
      ensures forall entered: nat, now: nat, wait: nat ::
                Mark(overflows, tick) == MarkAt(entered) && entered <= now && Epoch(now) <= Epoch(entered) + 1
                && wait < MAX_DELAY ==>
                  var outcome := Check(Snapshot(), now, wait);
                  if now - entered >= wait then outcome.expired
                  else !outcome.expired && outcome.remaining == wait - (now - entered)
    {
      hide Check, MarkAt, Wrap, Epoch;
      forall entered: nat, now: nat, wait: nat
        | Mark(overflows, tick) == MarkAt(entered) && entered <= now && Epoch(now) <= Epoch(entered) + 1
          && wait < MAX_DELAY
        ensures var outcome := Check(Mark(overflows, tick), now, wait);
                if now - entered >= wait then outcome.expired
                else !outcome.expired && outcome.remaining == wait - (now - entered)
      {
        OneCheck(entered, now, wait);
      }
      overflowCount := overflows;
      timeOnEntering := tick;
    }

    /** xTaskCheckForTimeOut; `remaining` is the new value of the caller's ticks to wait. */
    method CheckFor(overflows: nat, tick: nat, wait: nat, ghost now: nat) returns (expired: bool, remaining: nat)
      requires Mark(overflows, tick) == MarkAt(now)
      modifies this
      ensures Outcome(expired, remaining, Snapshot()) == Check(old(Snapshot()), now, wait)
    {
      remaining := wait;
      if wait == MAX_DELAY {
        expired := false;
      } else if overflows != overflowCount && tick >= timeOnEntering {
        expired := true;
      } else if Wrap(tick - timeOnEntering) < wait {
        remaining := wait - Wrap(tick - timeOnEntering);
        SetState(overflows, tick);
        expired := false;
      } else {
        expired := true;
      }
    }
  }

  /** The overflows between two times. */
  function Overflows(from: nat, to: nat): nat
    requires from <= to
  {
    Epoch(to) - Epoch(from)
  }

  /** A timeout that has passed but goes unnoticed: the tick has overflowed at least twice, it is
      again before its value on entering (or the count of overflows has itself come round), and
      what is left of the time after whole turns of the tick is less than the wait. */
  ghost predicate Unnoticed(entered: nat, now: nat, wait: nat)
    requires entered <= now
  {
    var n := Overflows(entered, now);
    n >= 2 && (Wrap(now) < Wrap(entered) || n % TICKS == 0) && Wrap(now - entered) < wait
  }

  lemma CountChanges(from: nat, to: nat)
    requires from <= to
    ensures Epoch(from) <= Epoch(to)
    ensures Wrap(Epoch(from)) == Wrap(Epoch(to)) <==> Overflows(from, to) % TICKS == 0
  {
    WrapDifference(from, to);
    var a, b := Epoch(from), Epoch(to);
    EpochAndTick(a);
    EpochAndTick(b);
    WrapDifference(a, b);
  }

  /** One check, from the 32-bit values alone, tells the truth about unbounded time exactly when
      the timeout does not pass unnoticed. */
  lemma CheckIsRight(entered: nat, now: nat, wait: nat)
    requires entered <= now && wait < MAX_DELAY
    ensures (Check(MarkAt(entered), now, wait).expired <==> now - entered >= wait) <==> !Unnoticed(entered, now, wait)
  {
    WrapDifference(entered, now);
    CountChanges(entered, now);
    var n := Overflows(entered, now);
    EpochAndTick(now - entered);
    hide Wrap, Epoch;
    assert Wrap(entered) < TICKS && Wrap(now) < TICKS;
    if n == 0 || n == 1 {
      OneTurn(entered, now);
    } else {
      assert now - entered >= TICKS;
    }
  }

  lemma OneTurn(entered: nat, now: nat)
    requires entered <= now && Overflows(entered, now) <= 1
    ensures now - entered < TICKS <==> Overflows(entered, now) == 0 || Wrap(now) < Wrap(entered)
    ensures now - entered < TICKS ==> Wrap(now - entered) == now - entered
    ensures Overflows(entered, now) == 1 ==> Overflows(entered, now) % TICKS != 0
  {
    WrapDifference(entered, now);
    EpochAndTick(now - entered);
  }

  /** Here a wait of three quarters of a turn is not seen to be over after one and a half turns. */
  lemma TwoOverflowsCanHideATimeout()
    ensures var entered, now, wait := 0x8000_0000, 2 * TICKS, 0xC000_0000;
            && Unnoticed(entered, now, wait)
            && now - entered >= wait && !Check(MarkAt(entered), now, wait).expired
  {
    assert Wrap(2 * TICKS) == 0 && Epoch(2 * TICKS) == 2;
  }

  // ---- Checks in a row ----

  /** The times at which checks are made, none of them two overflows after the one before. */
  ghost predicate Timely(entered: nat, times: seq<nat>)
    decreases |times|
  {
    times == [] || (entered <= times[0] && Epoch(times[0]) <= Epoch(entered) + 1 && Timely(times[0], times[1..]))
  }

  /** The outcome of the last of several checks, which go on while the timeout has not expired. */
  function CheckAll(mark: Mark, times: seq<nat>, wait: nat): Outcome
    decreases |times|
  {
    if times == [] then Outcome(false, wait, mark)
    else
      var first := Check(mark, times[0], wait);
      if first.expired then first else CheckAll(first.mark, times[1..], first.remaining)
  }

  lemma OneCheck(entered: nat, now: nat, wait: nat)
    requires entered <= now && Epoch(now) <= Epoch(entered) + 1 && wait < MAX_DELAY
    ensures Check(MarkAt(entered), now, wait) ==
            if now - entered < wait then Outcome(false, wait - (now - entered), MarkAt(now))
            else Outcome(true, wait, MarkAt(entered))
  {
    CheckIsRight(entered, now, wait);
    WrapDifference(entered, now);
    OneTurn(entered, now);
    CountChanges(entered, now);
  }

  lemma {:induction false} TimelyGrows(entered: nat, times: seq<nat>)
    requires Timely(entered, times) && times != []
    ensures entered <= times[|times| - 1]
    decreases |times|
  {
    if |times| > 1 {
      TimelyGrows(times[0], times[1..]);
    }
  }

  /** Timeouts telescope: over any number of checks the time that has passed and the time that is
      left add up to the original wait, and a check reports expiry exactly when the whole wait has
      passed since the beginning. */
  lemma {:induction false} TimeoutsTelescope(entered: nat, times: seq<nat>, wait: nat)
    requires Timely(entered, times) && times != [] && wait < MAX_DELAY
    ensures var last := times[|times| - 1];
            var outcome := CheckAll(MarkAt(entered), times, wait);
            && (outcome.expired <==> last - entered >= wait)
            && (!outcome.expired ==> (last - entered) + outcome.remaining == wait && outcome.mark == MarkAt(last))
    decreases |times|
  {
    OneCheck(entered, times[0], wait);
    TimelyGrows(entered, times);
    if |times| > 1 {
      TimelyGrows(times[0], times[1..]);
      if times[0] - entered < wait {
        TimeoutsTelescope(times[0], times[1..], wait - (times[0] - entered));
      }
    }
  }

  /** An endless wait never expires. */
  lemma {:induction false} EndlessWaitNeverExpires(mark: Mark, times: seq<nat>)
    ensures CheckAll(mark, times, MAX_DELAY) == Outcome(false, MAX_DELAY, mark)
  {
    if times != [] {
      EndlessWaitNeverExpires(mark, times[1..]);
    }
  }
}
