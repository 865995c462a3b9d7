/**
 * Java's 32-bit `int`, as held by the `AtomicInteger` counters of the qib
 * interpreter: `incrementAndGet` and `decrementAndGet` wrap around at the ends
 * of the range instead of growing without bound.
 */
module Java32 {
  const MinInt: int := -0x8000_0000
  const MaxInt: int := 0x7fff_ffff

  newtype int32 = x: int | MinInt <= x <= MaxInt

  /** `AtomicInteger.incrementAndGet`: one more, modulo 2^32 within the `int` range (MAX_VALUE wraps to MIN_VALUE). */
  function Inc(x: int32): (r: int32)
    ensures (r as int - (x as int + 1)) % 0x1_0000_0000 == 0
  {
    if x as int == MaxInt then MinInt as int32 else x + 1
  }

  /** `AtomicInteger.decrementAndGet`: one less, modulo 2^32 within the `int` range (MIN_VALUE wraps to MAX_VALUE). */
  function Dec(x: int32): (r: int32)
    ensures (r as int - (x as int - 1)) % 0x1_0000_0000 == 0
  {
    if x as int == MinInt then MaxInt as int32 else x - 1
  }

  /** The value of a counter that started at `c` after `n` calls of `decrementAndGet`. */
  function Countdown(c: int32, n: nat): int32
  {
    if n == 0 then c else Dec(Countdown(c, n - 1))
  }

  /**
   * A counter that starts at `c` (above MIN_VALUE) stays positive for the first
   * max(c, 1) - 1 decrements and is at most zero after the max(c, 1)-th: this
   * is when a `Wait` of `c` ticks fires.
   */
  lemma {:induction false} CountdownReachesZero(c: int32, n: nat)
    requires c as int > MinInt
    ensures n < c as int ==> Countdown(c, n) as int == c as int - n && Countdown(c, n) > 0
    ensures n == (if c > 0 then c as int else 1) ==> Countdown(c, n) <= 0
  {
    if n > 0 {
      CountdownReachesZero(c, n - 1);
    }
  }

  /** A counter that starts at MIN_VALUE wraps to MAX_VALUE on its first decrement. */
  lemma CountdownFromMinWraps()
    ensures Countdown(MinInt as int32, 1) as int == MaxInt
  {
  }
}
