/**
What the monotonics write to their compare registers.  `m` is the number of values of the
register; true times are unbounded, the 64-bit ticks wrap, and a compare register with value
`c` matches at every time `t` with `t % m == c`.
*/
module CompareValues {
  import opened Ticks
  import TimerMachine

  const HALF_U64: nat := 0x8000_0000_0000_0000
  const MAX24: nat := 0xff_ffff

  /** Registers of 16, 24, 32 and 64 bits: `m` divides the range of the ticks. */
  ghost predicate Register(m: nat) {
    m in {0x1_0000, 0x100_0000, 0x1_0000_0000, 0x1_0000_0000_0000_0000}
  }

  function Wrap64(t: int): (tick: nat)
    ensures tick < 2 * HALF_U64
  {
    Wrap(HALF_U64, t)
  }

  /** `compute_compare_value` of STM32; the RP2040 computes the same with a 32-bit register. */
  function ComputeCompareValue(m: nat, instant: nat, now: nat): nat
    requires m > 0 && instant < 2 * HALF_U64 && now < 2 * HALF_U64
  {
    var val := if WrappingSub(HALF_U64, instant, now) < m then instant else 0;
    val % m
  }

  /** `set_compare` of the nRF RTC, in 24 bits and at least `margin` ticks ahead. */
  function Compare24With(margin: nat, instant: nat, now: nat): nat
    requires margin <= MAX24 && instant < 2 * HALF_U64 && now < 2 * HALF_U64
  {
    var diff := WrappingSub(HALF_U64, instant, now);
    if diff <= MAX24 then
      var instant' := if diff < margin then WrappingAdd(HALF_U64, now, margin) else instant;
      instant' % (MAX24 + 1)
    else 0
  }

  /** The margin in the code is three ticks. */
  function Compare24(instant: nat, now: nat): nat
    requires instant < 2 * HALF_U64 && now < 2 * HALF_U64
  {
    Compare24With(3, instant, now)
  }

  // ----- when a compare register matches

  /** The first time from `from` on at which the register matches. */
  function FirstMatch(m: nat, from: int, c: nat): (t: int)
    requires c < m
    ensures from <= t < from + m
  {
    from + (c - from) % m
  }

  /** `t` is congruent to `c`. */
  ghost predicate Matches(m: nat, t: int, c: nat)
    requires m > 0
  {
    t % m == c
  }

  lemma FirstMatchMatches(m: nat, from: int, c: nat)
    requires c < m
    ensures Matches(m, FirstMatch(m, from, c), c)
  {
    var q := (c - from) / m;
    assert c - from == q * m + (c - from) % m;
    assert FirstMatch(m, from, c) == (-q) * m + c;
    DivideBack(m, FirstMatch(m, from, c), -q, c);
  }

  /** Nothing matches between `from` and the first match. */
  lemma FirstMatchIsFirst(m: nat, from: int, c: nat, t: int)
    requires c < m && from <= t && Matches(m, t, c)
    ensures FirstMatch(m, from, c) <= t
  {
    var f := FirstMatch(m, from, c);
    FirstMatchMatches(m, from, c);
    var d := t / m - f / m;
    assert t == (t / m) * m + c && f == (f / m) * m + c;
    assert d * m == t - f;
    if t < f { FewMultiples(m, d, -1, 0); }
  }

  lemma MatchWithin(m: nat, from: int, c: nat, t: int)
    requires c < m && from <= t < from + m && Matches(m, t, c)
    ensures FirstMatch(m, from, c) == t
  {
    var f := FirstMatch(m, from, c);
    FirstMatchIsFirst(m, from, c, t);
    FirstMatchMatches(m, from, c);
    var d := t / m - f / m;
    assert t == (t / m) * m + c && f == (f / m) * m + c;
    assert d * m == t - f;
    FewMultiples(m, d, -1, 1);
  }

  /** Truncating a 64-bit tick to the register is truncating the true time. */
  lemma Truncate(m: nat, t: int)
    requires Register(m)
    ensures Wrap64(t) % m == t % m
  {
    var k := 2 * HALF_U64 / m;
    var q := t / (2 * HALF_U64);
    assert 2 * HALF_U64 == k * m;
    assert t == q * (2 * HALF_U64) + Wrap64(t);
    assert Wrap64(t) == (Wrap64(t) / m) * m + Wrap64(t) % m;
    assert t == (q * k + Wrap64(t) / m) * m + Wrap64(t) % m;
    DivideBack(m, t, q * k + Wrap64(t) / m, Wrap64(t) % m);
  }

  lemma Gap(instant: int, now: int)
    requires 0 <= instant - now < 2 * HALF_U64
    ensures WrappingSub(HALF_U64, Wrap64(instant), Wrap64(now)) == instant - now
  {
    WrapOfDifference(HALF_U64, instant, now);
    DivideBack(2 * HALF_U64, instant - now, 0, instant - now);
  }

  lemma GapToThePast(instant: int, now: int)
    requires 0 < now - instant < 2 * HALF_U64
    ensures WrappingSub(HALF_U64, Wrap64(instant), Wrap64(now)) == 2 * HALF_U64 - (now - instant)
  {
    WrapOfDifference(HALF_U64, instant, now);
    DivideBack(2 * HALF_U64, instant - now, -1, 2 * HALF_U64 - (now - instant));
  }

  /** The value 0 matches at the next multiple of `m`. */
  lemma NextMultiple(m: nat, t: int)
    requires m > 0
    ensures FirstMatch(m, t + 1, 0) == (t / m + 1) * m
  {
    var next := (t / m + 1) * m;
    assert t == (t / m) * m + t % m && next == (t / m) * m + m;
    DivideBack(m, next, t / m + 1, 0);
    MatchWithin(m, t + 1, 0, next);
  }

  /** A multiple of `m` lies after `t` and not after `u` exactly when they are in different periods. */
  lemma MultipleBetween(m: nat, t: int, u: int)
    requires m > 0
    ensures (t / m + 1) * m <= u <==> t / m < u / m
  {
    assert u == (u / m) * m + u % m;
    if t / m < u / m {
      MulMonotone(t / m + 1, u / m, m);
    } else {
      MulMonotone(u / m + 1, t / m + 1, m);
    }
  }

  // ----- the guarantees

  /**
  STM32 and RP2040.  The value computed at `now` is in the register from time `write` on; a
  match needs the counter to reach it, so the first one comes after `write`.
  - If the gap fits the register, it comes exactly at the instant.
  - If it does not, it comes when the counter next wraps, which is no later than the instant
    plus the time the write took.
  - It is on time exactly if the gap fits, or the counter wraps between the write and the instant.
  */
  lemma MatchesInTime(m: nat, instant: int, now: int, write: int)
    requires Register(m) && now <= write < instant && instant - now < 2 * HALF_U64
    ensures var first := FirstMatch(m, write + 1, ComputeCompareValue(m, Wrap64(instant), Wrap64(now)));
            && first == (if instant - now < m then instant else (write / m + 1) * m)
            && write < first <= instant + (write - now)
            && (first <= instant <==> instant - now < m || write / m < instant / m)
  {
    Gap(instant, now);
    Truncate(m, instant);
    if instant - now < m {
      MatchWithin(m, write + 1, ComputeCompareValue(m, Wrap64(instant), Wrap64(now)), instant);
    } else {
      NextMultiple(m, write);
      MultipleBetween(m, write, instant);
    }
  }

  /**
  Without a delay between the clock read and the write: strictly after now, and no later than
  the instant.
  */
  lemma MatchesByTheInstant(m: nat, instant: int, now: int)
    requires Register(m) && now < instant && instant - now < 2 * HALF_U64
    ensures var first := FirstMatch(m, now + 1, ComputeCompareValue(m, Wrap64(instant), Wrap64(now)));
            now < first <= instant && (instant - now < m ==> first == instant)
  {
    MatchesInTime(m, instant, now, now);
  }

  /** Every delay of a write can cost its full duration, if the register is narrower than the ticks. */
  lemma SlowWriteIsLate(m: nat, delay: nat)
    requires Register(m) && m < 2 * HALF_U64 && delay < m
    ensures var now, write, instant := m - delay, m, 2 * m - delay;
            var c := ComputeCompareValue(m, Wrap64(instant), Wrap64(now));
            FirstMatch(m, write + 1, c) == instant + delay
  {
    MatchesInTime(m, 2 * m - delay, m - delay, m);
    DivideBack(m, m, 1, 0);
  }

  /** An instant already past fires when the counter next wraps, not at a stale value. */
  lemma PastFiresAtTheWrap(m: nat, instant: int, now: int, write: int)
    requires Register(m) && instant < now <= write && now - instant + m <= 2 * HALF_U64
    ensures FirstMatch(m, write + 1, ComputeCompareValue(m, Wrap64(instant), Wrap64(now))) == (write / m + 1) * m
  {
    GapToThePast(instant, now);
    NextMultiple(m, write);
  }

  /**
  nRF.  A match less than two ticks ahead does not fire, so the first one that does comes from
  `write + 2` on, and the section takes at most one tick.
  - In range it fires exactly at the instant, or three ticks from now if that is later.
  - Out of range it fires when the counter next wraps, at least two ticks ahead; it is then on
    time exactly if that wrap comes by the instant, and never more than two ticks late.
  */
  lemma Fires24(instant: int, now: int, write: int)
    requires now <= write <= now + 1 && now <= instant && instant - now < 2 * HALF_U64
    ensures var m := MAX24 + 1;
            var first := FirstMatch(m, write + 2, Compare24(Wrap64(instant), Wrap64(now)));
            && write + 2 <= first
            && (instant - now <= MAX24 ==> first == if instant < now + 3 then now + 3 else instant)
            && (instant - now > MAX24 ==>
                  && first == ((write + 1) / m + 1) * m <= instant + 2
                  && (first <= instant <==> (write + 1) / m < instant / m))
  {
    var m := MAX24 + 1;
    Gap(instant, now);
    if instant - now <= MAX24 {
      InRange24(3, instant, now, write);
    } else {
      NextMultiple(m, write + 1);
      MultipleBetween(m, write + 1, instant);
    }
  }

  /** An instant already past fires at the next wrap that is at least two ticks ahead. */
  lemma PastFires24(instant: int, now: int, write: int)
    requires instant < now <= write && now - instant + MAX24 < 2 * HALF_U64
    ensures var m := MAX24 + 1;
            FirstMatch(m, write + 2, Compare24(Wrap64(instant), Wrap64(now))) == ((write + 1) / m + 1) * m
  {
    GapToThePast(instant, now);
    NextMultiple(MAX24 + 1, write + 1);
  }

  lemma InRange24(margin: nat, instant: int, now: int, write: int)
    requires 3 <= margin <= MAX24 && now <= write <= now + 1 && 0 <= instant - now <= MAX24
    ensures OnTime24(margin, instant, now, write)
  {
    Gap(instant, now);
    Truncate(MAX24 + 1, instant);
    Truncate(MAX24 + 1, now + margin);
    WrapOfSum(HALF_U64, now, margin);
    DivideBack(2 * HALF_U64, margin, 0, margin);
    var target := if instant < now + margin then now + margin else instant;
    MatchWithin(MAX24 + 1, write + 2, Compare24With(margin, Wrap64(instant), Wrap64(now)), target);
  }

  /** With this margin the match comes at the instant, or the margin from now if that is later. */
  ghost predicate OnTime24(margin: nat, instant: int, now: int, write: int)
    requires margin <= MAX24
  {
    FirstMatch(MAX24 + 1, write + 2, Compare24With(margin, Wrap64(instant), Wrap64(now)))
    == if instant < now + margin then now + margin else instant
  }

  /** The three ticks in the code are the least margin that is always on time. */
  lemma ThreeIsTheLeastMargin(margin: nat)
    requires margin <= MAX24
    ensures (forall instant: int, now: int, write: int ::
               now <= write <= now + 1 && 0 <= instant - now <= MAX24 ==> OnTime24(margin, instant, now, write))
       <==> margin >= 3
  {
    if margin >= 3 {
      forall instant: int, now: int, write: int | now <= write <= now + 1 && 0 <= instant - now <= MAX24
        ensures OnTime24(margin, instant, now, write)
      {
        InRange24(margin, instant, now, write);
      }
    } else {
      assert !OnTime24(margin, 0, 0, 1);
    }
  }

  /**
  Both meet what the timer queue asks of `set_compare`: if the clock was read at `read`, the
  match that the value leads to is one the machine allows, when its lag covers the time from
  the read to the write, or two ticks for the nRF.
  */
  lemma SetCompareIsCovered(cfg: TimerMachine.Config, s: TimerMachine.Sys, m: nat, read: int)
    requires s.handler.Arming? && read <= s.now && Register(m)
    requires s.now < s.handler.d ==> s.handler.d - read < 2 * HALF_U64
    ensures s.now <= read + cfg.lag ==>
              var c := ComputeCompareValue(m, Wrap64(s.handler.d), Wrap64(read));
              TimerMachine.Enabled(cfg, s, TimerMachine.SetCompare(FirstMatch(m, s.now + 1, c)))
    ensures s.now <= read + 1 && cfg.lag >= 2 ==>
              var c := Compare24(Wrap64(s.handler.d), Wrap64(read));
              TimerMachine.Enabled(cfg, s, TimerMachine.SetCompare(FirstMatch(MAX24 + 1, s.now + 2, c)))
  {
    if s.now < s.handler.d {
      MatchesInTime(m, s.handler.d, read, s.now);
      if s.now <= read + 1 { Fires24(s.handler.d, read, s.now); }
    }
  }

  // ----- reading a 64-bit counter in two halves

  /**
  `now` of the RP2040: `clock(i)` is the counter when the i-th register read happens.  The
  result is what the whole counter showed at one moment during the call, and the loop ends
  because the upper half only grows.
  */
  method ReadCounter(clock: nat -> nat) returns (now: nat, looks: nat, ghost k: nat)
    requires forall i: nat, j: nat :: i <= j ==> clock(i) <= clock(j)
    requires forall i: nat :: clock(i) < 2 * HALF_U64
    ensures k < looks && now == clock(k)
    ensures clock(0) <= now <= clock(looks - 1)
  {
    var hi0 := clock(0) / 0x1_0000_0000;
    looks := 1;
    while true
      invariant looks > 0 && hi0 == clock(looks - 1) / 0x1_0000_0000
      decreases 0x1_0000_0000 - hi0
    {
      var low := clock(looks) % 0x1_0000_0000;
      var hi1 := clock(looks + 1) / 0x1_0000_0000;
      k := looks;
      looks := looks + 2;
      if hi0 == hi1 {
        now := hi0 * 0x1_0000_0000 + low;
        return;
      }
      hi0 := hi1;
    }
  }
}
