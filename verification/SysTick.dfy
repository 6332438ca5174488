/**
 * The clock of systick.c.
 *
 * A free-running 32-bit timer counts 10 ns ticks. Every reading compares the raw
 * count with the previous one and adds 42949 ms to an offset when it went down.
 * How good the clock is therefore depends on the length of one timer period:
 *
 *   PERIOD_MS * SCALER_MS + excess ticks, with 0 <= excess <= 67296.
 *
 * tmr1.c programs the period register so that the excess is 0; systick.h describes
 * a timer that wraps at 2^32 ticks, for which the excess is 67296. Everything
 * below is proved for every excess in this range.
 */
module SysTick {
  import opened Words

  const SCALER_MS: int := 100000
  const SCALER_US: int := 100
  const PERIOD_MS: int := 42949

  /** Excess of a timer that uses all 32 bits, and of the one tmr1.c configures. */
  const FULL_RANGE_EXCESS: int := 67296
  const CONFIGURED_EXCESS: int := 0

  type Excess = e: int | 0 <= e <= FULL_RANGE_EXCESS

  /** Ticks of one timer period. */
  function Period(e: Excess): (p: nat)
    ensures 0 < p <= U32
  {
    PERIOD_MS * SCALER_MS + e
  }

  /** Completed timer periods at true time `t`. */
  function Wraps(e: Excess, t: nat): nat {
    Multiples(Period(e), t / Period(e));
    t / Period(e)
  }

  /** The hardware count at true time `t`. */
  function Raw(e: Excess, t: nat): (r: uint32)
    ensures r < Period(e)
    ensures t == Period(e) * Wraps(e, t) + r
  {
    t % Period(e)
  }

  /** The millisecond clock at true time `t` (in ticks), without its 32-bit wrap-around. */
  function Ms(e: Excess, t: nat): nat {
    PERIOD_MS * Wraps(e, t) + Raw(e, t) / SCALER_MS
  }

  /** The microsecond clock at true time `t`, without the wrap-around of its offset. */
  function Us(e: Excess, t: nat): nat {
    PERIOD_MS * 1000 * Wraps(e, t) + Raw(e, t) / SCALER_US
  }

  /** How often the 32-bit millisecond offset has overflowed. */
  function Overflows(e: Excess, t: nat): nat {
    PERIOD_MS * Wraps(e, t) / U32
  }

  /** What SysTick_GetTickUs returns: the offset is widened to 64 bits after it has wrapped at 32. */
  function UsReturned(e: Excess, t: nat): nat {
    PERIOD_MS * Wraps(e, t) % U32 * 1000 + Raw(e, t) / SCALER_US
  }

  /** What SysTick_GetTickMs returns. */
  function MsReturned(e: Excess, t: nat): uint32 {
    Ms(e, t) % U32
  }

  // ---------------------------------------------------------------------
  // Accuracy and monotonicity
  // ---------------------------------------------------------------------

  /**
   * True time exceeds reported time by `excess` ticks for every past wrap, plus the
   * fraction of a millisecond that is cut off: never less and never more.
   */
  lemma ClockLaw(e: Excess, t: nat)
    ensures SCALER_MS * Ms(e, t) + e * Wraps(e, t) <= t
    ensures t < SCALER_MS * Ms(e, t) + e * Wraps(e, t) + SCALER_MS
  {
    var w, r := Wraps(e, t), Raw(e, t);
    assert Period(e) * w == PERIOD_MS * SCALER_MS * w + e * w;
  }

  /** The clock is exact at all times precisely for the period that tmr1.c configures. */
  lemma ExactIffConfigured(e: Excess)
    ensures (forall t: nat :: Ms(e, t) == t / SCALER_MS) <==> e == CONFIGURED_EXCESS
  {
    if e == CONFIGURED_EXCESS {
      forall t: nat ensures Ms(e, t) == t / SCALER_MS {
        ClockLaw(e, t);
      }
    } else {
      // After SCALER_MS wraps the clock has lost exactly e milliseconds.
      var t := SCALER_MS * Period(e);
      WrapsOf(e, SCALER_MS, 0);
      assert t / SCALER_MS == Period(e);
      assert Ms(e, t) == PERIOD_MS * SCALER_MS;
    }
  }

  lemma WrapsOf(e: Excess, w: nat, r: nat)
    requires r < Period(e)
    ensures Wraps(e, Period(e) * w + r) == w && Raw(e, Period(e) * w + r) == r
  {
    DivModUnique(Period(e) * w + r, Period(e), w, r);
  }

  /** Two instants lie a whole number of periods apart, up to their raw counts. */
  lemma Apart(e: Excess, t0: nat, t1: nat) returns (d: int)
    ensures d == Wraps(e, t1) - Wraps(e, t0)
    ensures t1 - t0 == Period(e) * d + Raw(e, t1) - Raw(e, t0)
    ensures t0 <= t1 ==> d >= 0
    ensures d >= 1 ==> Period(e) * d >= Period(e)
    ensures d >= 2 ==> Period(e) * d >= 2 * Period(e)
  {
    var p := Period(e);
    d := Wraps(e, t1) - Wraps(e, t0);
    assert p * d == p * Wraps(e, t1) - p * Wraps(e, t0);
    Multiples(p, d);
    Multiples(p, d - 1);
    assert p * (d - 1) == p * d - p;
  }

  /** The millisecond clock never goes back, whatever the excess. */
  lemma MsMonotone(e: Excess, t0: nat, t1: nat)
    requires t0 <= t1
    ensures Ms(e, t0) <= Ms(e, t1)
  {
    var d := Apart(e, t0, t1);
    assert Raw(e, t0) / SCALER_MS <= PERIOD_MS;
  }

  /**
   * Within its 32 bits the millisecond clock goes through every value, so what the code
   * returns never decreases up to time `end` exactly if it has not overflowed by then.
   */
  lemma MsMonotoneIff(e: Excess, end: nat)
    ensures (forall t0: nat, t1: nat :: t0 <= t1 <= end ==> MsReturned(e, t0) <= MsReturned(e, t1))
      <==> Ms(e, end) < U32
  {
    if Ms(e, end) < U32 {
      forall t0: nat, t1: nat | t0 <= t1 <= end ensures MsReturned(e, t0) <= MsReturned(e, t1) {
        MsMonotoneWhile(e, end, t0, t1);
      }
    } else {
      var t := MsOverflow(e, end);
      assert t <= t + 1 <= end;
    }
  }

  lemma MsMonotoneWhile(e: Excess, end: nat, t0: nat, t1: nat)
    requires Ms(e, end) < U32 && t0 <= t1 <= end
    ensures MsReturned(e, t0) <= MsReturned(e, t1)
  {
    MsMonotone(e, t0, t1);
    MsMonotone(e, t1, end);
    WordsKeepOrder(Ms(e, t0), Ms(e, t1));
  }

  lemma WordsKeepOrder(x: nat, y: nat)
    requires x <= y < U32
    ensures x % U32 <= y % U32
  {
  }

  /** The last tick before the first overflow. */
  lemma {:induction false} MsOverflow(e: Excess, end: nat) returns (t: nat)
    requires Ms(e, end) >= U32
    ensures t < end && Ms(e, t) == U32 - 1 && Ms(e, t + 1) == U32
    ensures MsReturned(e, t) > MsReturned(e, t + 1)
    decreases end
  {
    if end == 0 {
      WrapsOf(e, 0, 0);
    } else {
      MsTick(e, end - 1);
      if Ms(e, end - 1) < U32 { t := end - 1; } else { t := MsOverflow(e, end - 1); }
    }
  }

  /** One tick moves the millisecond clock by at most one. */
  lemma MsTick(e: Excess, t: nat)
    ensures Ms(e, t) <= Ms(e, t + 1) <= Ms(e, t) + 1
  {
    MsMonotone(e, t, t + 1);
    TickWraps(e, t);
  }

  lemma TickWraps(e: Excess, t: nat)
    ensures if Raw(e, t) + 1 < Period(e) then Wraps(e, t + 1) == Wraps(e, t) && Raw(e, t + 1) == Raw(e, t) + 1
            else Wraps(e, t + 1) == Wraps(e, t) + 1 && Raw(e, t + 1) == 0
  {
    var w, r := Wraps(e, t), Raw(e, t);
    if r + 1 < Period(e) {
      WrapsOf(e, w, r + 1);
    } else {
      assert Period(e) * (w + 1) == Period(e) * w + Period(e);
      WrapsOf(e, w + 1, 0);
    }
  }

  /** The returned microseconds lack 2^32 milliseconds for every overflow of the offset. */
  lemma UsLoses(e: Excess, t: nat)
    ensures UsReturned(e, t) == Us(e, t) - Overflows(e, t) * (U32 * 1000)
  {
  }

  /**
   * While the offset does not overflow, the microsecond clock goes back only across
   * exactly one wrap, and then by at most (excess - 1) / 100: 672 for a full 32-bit timer.
   */
  lemma UsStepsBack(e: Excess, t0: nat, t1: nat)
    requires t0 <= t1 && Overflows(e, t0) == Overflows(e, t1) && UsReturned(e, t1) < UsReturned(e, t0)
    ensures Wraps(e, t1) == Wraps(e, t0) + 1
    ensures UsReturned(e, t0) - UsReturned(e, t1) <= (e - 1) / SCALER_US <= 672
  {
    var d := Apart(e, t0, t1);
    UsLoses(e, t0);
    UsLoses(e, t1);
    assert Raw(e, t0) / SCALER_US <= PERIOD_MS * 1000 + (e - 1) / SCALER_US;
  }

  /** At an overflow between two readings one wrap apart it goes back by more than 2^32 - 2 * 42950 ms. */
  lemma UsOverflowStep(e: Excess, t0: nat, t1: nat)
    requires Wraps(e, t1) == Wraps(e, t0) + 1 && Overflows(e, t0) != Overflows(e, t1)
    ensures UsReturned(e, t0) - UsReturned(e, t1) == U32 * 1000 - (Us(e, t1) - Us(e, t0))
    ensures UsReturned(e, t0) - UsReturned(e, t1) > (U32 - 2 * (PERIOD_MS + 1)) * 1000
  {
    UsLoses(e, t0);
    UsLoses(e, t1);
    assert PERIOD_MS * Wraps(e, t1) == PERIOD_MS * Wraps(e, t0) + PERIOD_MS;
    assert Overflows(e, t1) == Overflows(e, t0) + 1;
  }

  /** The wrap with which the offset overflows for the first time, after 49.7 days. */
  const FIRST_OVERFLOW: nat := 100002

  /** Readings on either side of it: the clock goes back whatever the timer period. */
  lemma UsFailsAtOverflow(e: Excess)
    ensures var t := Period(e) * FIRST_OVERFLOW;
      t > 0 && UsReturned(e, t - 1) - UsReturned(e, t) > 4_000_000_000_000
  {
    var p := Period(e);
    WrapsOf(e, FIRST_OVERFLOW, 0);
    WrapsOf(e, FIRST_OVERFLOW - 1, p - 1);
    UsOverflowStep(e, p * FIRST_OVERFLOW - 1, p * FIRST_OVERFLOW);
  }

  /** And at the first wrap of a timer whose excess is more than 100. */
  lemma UsFailsAtWrap(e: Excess)
    requires e > SCALER_US
    ensures UsReturned(e, Period(e) - 1) > UsReturned(e, Period(e))
  {
    WrapsOf(e, 0, Period(e) - 1);
    WrapsOf(e, 1, 0);
  }

  lemma {:induction false} AtLeastWraps(e: Excess, t: nat, w: nat)
    requires Wraps(e, t) >= w
    ensures t >= Period(e) * w
  {
    Multiples(Period(e), Wraps(e, t) - w);
    assert Period(e) * (Wraps(e, t) - w) == Period(e) * Wraps(e, t) - Period(e) * w;
  }

  /** Nothing has wrapped by `end` that makes the microsecond clock go back. */
  predicate UsSound(e: Excess, end: nat) {
    Wraps(e, end) == 0 || (e <= SCALER_US && PERIOD_MS * Wraps(e, end) < U32)
  }

  lemma UsMonotoneWhile(e: Excess, end: nat, t0: nat, t1: nat)
    requires UsSound(e, end) && t0 <= t1 <= end
    ensures UsReturned(e, t0) <= UsReturned(e, t1)
  {
    var d0 := Apart(e, t0, t1);
    var d1 := Apart(e, t1, end);
    assert Overflows(e, t0) == 0 == Overflows(e, t1);
    if UsReturned(e, t1) < UsReturned(e, t0) {
      UsStepsBack(e, t0, t1);
      assert false;
    }
  }

  /**
   * The documented monotonicity of the microsecond clock: what the code returns never
   * decreases up to time `end` exactly if the timer has not wrapped by then, or its
   * excess is at most 100 and the offset has not overflowed.
   */
  lemma UsMonotoneIff(e: Excess, end: nat)
    ensures (forall t0: nat, t1: nat :: t0 <= t1 <= end ==> UsReturned(e, t0) <= UsReturned(e, t1))
      <==> UsSound(e, end)
  {
    if UsSound(e, end) {
      forall t0: nat, t1: nat | t0 <= t1 <= end ensures UsReturned(e, t0) <= UsReturned(e, t1) {
        UsMonotoneWhile(e, end, t0, t1);
      }
    } else {
      var w := if e > SCALER_US then 1 else FIRST_OVERFLOW;
      AtLeastWraps(e, end, w);
      if e > SCALER_US { UsFailsAtWrap(e); } else { UsFailsAtOverflow(e); }
      var t := Period(e) * w;
      assert UsReturned(e, t - 1) > UsReturned(e, t);
    }
  }

  // ---------------------------------------------------------------------
  // Timeouts
  // ---------------------------------------------------------------------

  /** SysTick_IsTimeoutReached, for a timeout started at true time t0 and asked at t1. */
  predicate Reached(e: Excess, t0: nat, t1: nat, count: uint32) {
    Sub32(Ms(e, t1) % U32, Ms(e, t0) % U32) >= count
  }

  lemma Distributes(e: nat, a: int, b: int)
    ensures e * (a - b) == e * a - e * b
    ensures a >= b ==> e * (a - b) >= 0
  {
  }

  /** What the clock has lost between two instants, from what it had lost before each. */
  lemma LostBetween(e: Excess, t0: nat, t1: nat)
    requires t0 <= t1
    ensures 0 <= e * (Wraps(e, t1) - Wraps(e, t0)) == e * Wraps(e, t1) - e * Wraps(e, t0)
  {
    var d := Apart(e, t0, t1);
    Distributes(e, Wraps(e, t1), Wraps(e, t0));
  }

  /** True elapsed time against reported elapsed time. */
  lemma ElapsedLaw(e: Excess, t0: nat, t1: nat)
    requires t0 <= t1
    ensures var lost := e * (Wraps(e, t1) - Wraps(e, t0));
      && lost >= 0
      && -SCALER_MS < t1 - t0 - lost - SCALER_MS * (Ms(e, t1) - Ms(e, t0)) < SCALER_MS
  {
    LostBetween(e, t0, t1);
    ClockLaw(e, t0);
    ClockLaw(e, t1);
  }

  /** In reported time a timeout is exact, across any overflow of the counter. */
  lemma TimeoutExact(e: Excess, t0: nat, t1: nat, count: uint32)
    requires t0 <= t1 && Ms(e, t1) - Ms(e, t0) < U32
    ensures Reached(e, t0, t1, count) <==> Ms(e, t1) - Ms(e, t0) >= count
  {
    MsMonotone(e, t0, t1);
    ElapsedWord(Ms(e, t0), Ms(e, t1));
  }

  /** A timeout never fires early: more than count - 1 ms of true time have passed. */
  lemma TimeoutNotEarly(e: Excess, t0: nat, t1: nat, count: uint32)
    requires t0 <= t1 && Reached(e, t0, t1, count)
    ensures t1 - t0 > (count - 1) * SCALER_MS
  {
    MsMonotone(e, t0, t1);
    ElapsedWord(Ms(e, t0), Ms(e, t1));
    ElapsedLaw(e, t0, t1);
  }

  /**
   * And it is reported once count + 1 ms of true time have passed, plus the excess of
   * the wraps in between, across any overflow of the millisecond counter.
   */
  lemma TimeoutReported(e: Excess, t0: nat, t1: nat, count: uint32)
    requires t0 <= t1 && Ms(e, t1) - Ms(e, t0) < U32
    requires t1 - t0 >= (count + 1) * SCALER_MS + e * (Wraps(e, t1) - Wraps(e, t0))
    ensures Reached(e, t0, t1, count)
  {
    MsMonotone(e, t0, t1);
    ElapsedWord(Ms(e, t0), Ms(e, t1));
    ElapsedLaw(e, t0, t1);
  }

  // ---------------------------------------------------------------------
  // The implementation
  // ---------------------------------------------------------------------

  /**
   * Comparing two raw counts tells how many wraps lie between two readings exactly
   * when the readings are less than one period apart.
   */
  lemma WrapDetectedIffPolled(e: Excess, t0: nat, t1: nat)
    requires t0 <= t1
    ensures Wraps(e, t1) - Wraps(e, t0) == (if Raw(e, t1) < Raw(e, t0) then 1 else 0)
      <==> t1 - t0 < Period(e)
  {
    var d := Apart(e, t0, t1);
  }

  class Clock {
    ghost const excess: Excess
    var lastRaw: uint32
    var msOffset: uint32
    /** True time of the last reading, in ticks since the timer started. */
    ghost var readAt: nat

    ghost predicate Valid()
      reads this
    {
      lastRaw == Raw(excess, readAt) && msOffset == PERIOD_MS * Wraps(excess, readAt) % U32
    }

    constructor (ghost excess: Excess)
      ensures Valid() && this.excess == excess && readAt == 0
    {
      this.excess := excess;
      lastRaw, msOffset, readAt := 0, 0, 0;
      new;
      WrapsOf(excess, 0, 0);
    }

    /** One reading of the timer at true time `now`, less than a period after the last one. */
    method ReadTick(raw: uint32, ghost now: nat)
      requires Valid() && readAt <= now < readAt + Period(excess) && raw == Raw(excess, now)
      modifies this
      ensures Valid() && readAt == now && lastRaw == raw
    {
      WrapDetectedIffPolled(excess, readAt, now);
      ghost var w := Wraps(excess, readAt);
      if raw < lastRaw {
        msOffset := (msOffset + PERIOD_MS) % U32;
        AddWraps(PERIOD_MS * w, PERIOD_MS);
      }
      lastRaw := raw;
      readAt := now;
    }

    method GetTickMs(raw: uint32, ghost now: nat) returns (ms: uint32)
      requires Valid() && readAt <= now < readAt + Period(excess) && raw == Raw(excess, now)
      modifies this
      ensures Valid() && readAt == now
      ensures ms == MsReturned(excess, now)
    {
      ReadTick(raw, now);
      ms := (msOffset + raw / SCALER_MS) % U32;
      AddWraps(PERIOD_MS * Wraps(excess, now), raw / SCALER_MS);
    }

    method GetTickUs(raw: uint32, ghost now: nat) returns (us: nat)
      requires Valid() && readAt <= now < readAt + Period(excess) && raw == Raw(excess, now)
      modifies this
      ensures Valid() && readAt == now
      ensures us == UsReturned(excess, now)
    {
      ReadTick(raw, now);
      us := msOffset * 1000 + raw / SCALER_US;
    }
  }

  class Timeout {
    var start: uint32
    var count: uint32
    ghost var startedAt: nat

    ghost predicate Valid(e: Excess)
      reads this
    {
      start == Ms(e, startedAt) % U32
    }

    constructor (clock: Clock, delayMs: uint32, raw: uint32, ghost now: nat)
      requires clock.Valid() && clock.readAt <= now < clock.readAt + Period(clock.excess)
      requires raw == Raw(clock.excess, now)
      modifies clock
      ensures clock.Valid() && clock.readAt == now
      ensures Valid(clock.excess) && startedAt == now && count == delayMs
    {
      var ms := clock.GetTickMs(raw, now);
      start, count, startedAt := ms, delayMs, now;
    }

    method Restart(clock: Clock, raw: uint32, ghost now: nat)
      requires clock.Valid() && clock.readAt <= now < clock.readAt + Period(clock.excess)
      requires raw == Raw(clock.excess, now)
      modifies this, clock
      ensures clock.Valid() && clock.readAt == now
      ensures Valid(clock.excess) && startedAt == now && count == old(count)
    {
      var ms := clock.GetTickMs(raw, now);
      start, startedAt := ms, now;
    }

    method IsReached(clock: Clock, raw: uint32, ghost now: nat) returns (reached: bool)
      requires clock.Valid() && clock.readAt <= now < clock.readAt + Period(clock.excess)
      requires raw == Raw(clock.excess, now)
      requires Valid(clock.excess) && startedAt <= now
      modifies clock
      ensures clock.Valid() && clock.readAt == now
      ensures reached == Reached(clock.excess, startedAt, now, count)
    {
      var ms := clock.GetTickMs(raw, now);
      reached := Sub32(ms, start) >= count;
    }
  }
}
