/** The 32-bit tick type: TickType_t is a number modulo TICKS, and portMAX_DELAY is its largest value. */
module Ticks {
  const TICKS: nat := 0x1_0000_0000
  const MAX_DELAY: nat := 0xFFFF_FFFF

  /** The value a 32-bit unsigned variable holds for the unbounded number `x`. */
  function Wrap(x: int): (w: nat)
    ensures w < TICKS
  {
    x % TICKS
  }

  /** How often the 32-bit clock has wrapped by time `now`. */
  function Epoch(now: nat): nat {
    now / TICKS
  }

  /** The tick is a number of 32 bits, and the longest wait is the largest of them. */
  lemma TickIs32Bits(now: nat)
    ensures Wrap(now) == now % 0x1_0000_0000 && Epoch(now) == now / 0x1_0000_0000
    ensures MAX_DELAY == Wrap(-1) == 0xFFFF_FFFF
  {
  }

  lemma EpochAndTick(now: nat)
    ensures now == Epoch(now) * TICKS + Wrap(now)
  {
  }

  /** One tick on: the 32-bit tick goes up by one, or wraps to 0 and starts the next epoch. */
  lemma NextTick(now: nat)
    ensures Wrap(now + 1) == Wrap(Wrap(now) + 1)
    ensures Wrap(now + 1) == if Wrap(now) == MAX_DELAY then 0 else Wrap(now) + 1
    ensures Epoch(now + 1) == if Wrap(now) == MAX_DELAY then Epoch(now) + 1 else Epoch(now)
  {
  }

  lemma WholeTurns(x: int, n: int)
    ensures Wrap(x + n * TICKS) == Wrap(x)
  {
  }

  lemma WrapSum(a: int, b: int)
    ensures Wrap(Wrap(a) + b) == Wrap(a + b)
    ensures Wrap(a + Wrap(b)) == Wrap(a + b)
  {
    WholeTurns(Wrap(a) + b, a / TICKS);
    WholeTurns(a + Wrap(b), b / TICKS);
  }

  /** The difference of two ticks gives the time between them up to whole turns of the tick. */
  lemma WrapDifference(from: nat, to: nat)
    requires from <= to
    ensures Wrap(Wrap(to) - Wrap(from)) == Wrap(to - from)
    ensures to - from == (Epoch(to) - Epoch(from)) * TICKS + Wrap(to) - Wrap(from)
    ensures Epoch(from) <= Epoch(to)
  {
    EpochAndTick(from);
    EpochAndTick(to);
    assert (to - from) - (Wrap(to) - Wrap(from)) == (Epoch(to) - Epoch(from)) * TICKS;
  }
}
