/**
Timer ticks that wrap.  A tick type has `2 * half` values; `half` is 2^31 for `u32` and 2^63
for `u64`.  True times are unbounded, and `Wrap` is what a tick register shows of them.
*/
module Ticks {
  datatype Ordering = Less | Equal | Greater

  function Wrap(half: nat, t: int): (tick: nat)
    requires half > 0
    ensures tick < 2 * half
  {
    t % (2 * half)
  }

  function WrappingSub(half: nat, a: nat, b: nat): (d: nat)
    requires a < 2 * half && b < 2 * half
    ensures d < 2 * half
  {
    if b <= a then a - b else a - b + 2 * half
  }

  function WrappingAdd(half: nat, a: nat, b: nat): (s: nat)
    requires a < 2 * half && b < 2 * half
    ensures s < 2 * half
  {
    if a + b < 2 * half then a + b else a + b - 2 * half
  }

  /** The reinterpretation `as i32` or `as i64`. */
  function AsSigned(half: nat, a: nat): int
    requires a < 2 * half
  {
    if a < half then a else a - 2 * half
  }

  function Sign(x: int): Ordering {
    if x < 0 then Less else if x == 0 then Equal else Greater
  }

  function Compare(half: nat, a: nat, b: nat): Ordering
    requires a < 2 * half && b < 2 * half
  {
    Sign(AsSigned(half, WrappingSub(half, a, b)))
  }

  predicate IsAtLeast(half: nat, a: nat, b: nat)
    requires a < 2 * half && b < 2 * half
  {
    match Compare(half, a, b)
    case Less => false
    case Equal => true
    case Greater => true
  }

  // ----- wrapped and true time

  /** A difference of multiples that is small is one of a few. */
  lemma FewMultiples(m: nat, k: int, lo: int, hi: int)
    requires m > 0 && lo * m < k * m < hi * m
    ensures lo < k < hi
  {
    if k <= lo { MulMonotone(k, lo, m); }
    if hi <= k { MulMonotone(hi, k, m); }
  }

  lemma MulMonotone(a: int, b: int, m: nat)
    requires a <= b
    ensures a * m <= b * m
  {
  }

  /** Quotient and remainder are unique. */
  lemma DivideBack(m: nat, t: int, q: int, r: int)
    requires m > 0 && t == q * m + r && 0 <= r < m
    ensures t / m == q && t % m == r
  {
    var d := t / m - q;
    assert t == (t / m) * m + t % m;
    assert d * m == r - t % m;
    FewMultiples(m, d, -1, 1);
  }

  lemma WrapOfDifference(half: nat, t: int, u: int)
    requires half > 0
    ensures WrappingSub(half, Wrap(half, t), Wrap(half, u)) == Wrap(half, t - u)
  {
    var m := 2 * half;
    var k := if Wrap(half, u) <= Wrap(half, t) then 0 else 1;
    var q := t / m - u / m - k;
    assert t == (t / m) * m + t % m;
    assert u == (u / m) * m + u % m;
    assert q * m == (t / m) * m - (u / m) * m - k * m;
    DivideBack(m, t - u, q, WrappingSub(half, Wrap(half, t), Wrap(half, u)));
  }

  lemma WrapOfSum(half: nat, t: int, u: int)
    requires half > 0
    ensures WrappingAdd(half, Wrap(half, t), Wrap(half, u)) == Wrap(half, t + u)
  {
    var m := 2 * half;
    var k := if Wrap(half, t) + Wrap(half, u) < m then 0 else 1;
    var q := t / m + u / m + k;
    assert t == (t / m) * m + t % m;
    assert u == (u / m) * m + u % m;
    assert q * m == (t / m) * m + (u / m) * m + k * m;
    DivideBack(m, t + u, q, WrappingAdd(half, Wrap(half, t), Wrap(half, u)));
  }

  ghost predicate InWindow(half: nat, t: int, u: int) {
    0 <= t - u + half < 2 * half
  }

  /** Within the half-range window the wrapping order is the order of the true times. */
  lemma CompareIsTrueOrder(half: nat, t: int, u: int)
    requires half > 0 && InWindow(half, t, u)
    ensures Compare(half, Wrap(half, t), Wrap(half, u)) == Sign(t - u)
    ensures IsAtLeast(half, Wrap(half, t), Wrap(half, u)) <==> u <= t
  {
    WrapOfDifference(half, t, u);
    if 0 <= t - u {
      DivideBack(2 * half, t - u, 0, t - u);
    } else {
      DivideBack(2 * half, t - u, -1, t - u + 2 * half);
    }
  }

  /** Outside it, up to one full range, the order is flipped: the window is exact. */
  lemma FlippedOutsideTheWindow(half: nat, t: int, u: int)
    requires half > 0 && -2 * half < t - u < 2 * half
    ensures Compare(half, Wrap(half, t), Wrap(half, u)) == Sign(t - u) <==> InWindow(half, t, u)
  {
    if InWindow(half, t, u) {
      CompareIsTrueOrder(half, t, u);
    } else {
      WrapOfDifference(half, t, u);
      if t < u {
        DivideBack(2 * half, t - u, -1, t - u + 2 * half);
      } else {
        DivideBack(2 * half, t - u, 0, t - u);
      }
    }
  }

  // ----- the deadline of a delay

  /** The instant computed by `delay` and `timeout_after`. */
  function DelayInstant(half: nat, now: nat, duration: nat): (instant: nat)
    requires half > 0 && now < 2 * half && duration < 2 * half
    ensures instant < 2 * half
  {
    var timeout := WrappingAdd(half, now, duration);
    if now != timeout then WrappingAdd(half, timeout, 1) else timeout
  }

  /** It is the true time one tick beyond the duration, or right now for an empty one. */
  lemma DelayInstantIsTrue(half: nat, now: int, duration: nat)
    requires half > 0 && duration < 2 * half
    ensures DelayInstant(half, Wrap(half, now), duration)
         == Wrap(half, if duration == 0 then now else now + duration + 1)
  {
    DivideBack(2 * half, duration, 0, duration);
    DivideBack(2 * half, 1, 0, 1);
    WrapOfSum(half, now, duration);
    WrapOfSum(half, now + duration, 1);
  }

  /** The clock shows `tick` at the real instant `t`: the number of whole ticks that have passed. */
  ghost predicate Shows(tick: int, t: real) {
    tick as real <= t < tick as real + 1.0
  }

  /**
  A delay lasts at least its duration although the clock only shows whole ticks: `start` and
  `end` are the real instants of the call and of a poll that finds the delay expired.
  */
  lemma DelayIsLongEnough(half: nat, called: int, start: real, polled: int, end: real, duration: nat)
    requires half > 0 && duration < 2 * half && Shows(called, start) && Shows(polled, end) && start <= end
    requires InWindow(half, polled, called + duration + 1)
    requires IsAtLeast(half, Wrap(half, polled), DelayInstant(half, Wrap(half, called), duration))
    ensures end - start >= duration as real
  {
    DelayInstantIsTrue(half, called, duration);
    if duration > 0 {
      CompareIsTrueOrder(half, polled, called + duration + 1);
    }
  }

  /**
  How long a delay can be.  A poll in the tick of the call finds a non-empty delay expired if
  and only if the duration and its extra tick exceed half the range.
  */
  lemma ExpiredAtOnceIff(half: nat, now: int, duration: nat)
    requires half > 0 && duration < 2 * half
    ensures IsAtLeast(half, Wrap(half, now), DelayInstant(half, Wrap(half, now), duration))
       <==> duration == 0 || duration + 1 > half
  {
    DelayInstantIsTrue(half, now, duration);
    if duration == 0 {
      CompareIsTrueOrder(half, now, now);
    } else {
      WrapOfDifference(half, now, now + duration + 1);
      var ahead: int := duration + 1;
      DivideBack(2 * half, -ahead, -1, 2 * half - ahead);
    }
  }

  /**
  Without the extra tick it would not, whatever the duration: the call may fall late in a tick,
  and the poll early in the one that the deadline without the extra tick names.
  */
  lemma TheExtraTickIsNeeded(half: nat, called: nat, duration: nat) returns (start: real, end: real)
    requires 0 < duration < half
    ensures Shows(called, start) && Shows(called + duration, end) && start <= end && end - start < duration as real
    ensures IsAtLeast(half, Wrap(half, called + duration), WrappingAdd(half, Wrap(half, called), duration))
  {
    start, end := called as real + 0.5, (called + duration) as real + 0.25;
    DivideBack(2 * half, duration, 0, duration);
    WrapOfSum(half, called, duration);
    CompareIsTrueOrder(half, called + duration, called + duration);
  }
}
