/**
The half-period clock: exact time from a counter of half periods that may lag by one and the
value of a timer that wraps.
*/
module HalfPeriod {
  import opened Priority
  import opened Ticks

  // ----- the bit operations of `TimerOps`

  function And(a: nat, b: nat): nat {
    if a == 0 then 0 else 2 * And(a / 2, b / 2) + if a % 2 == 1 && b % 2 == 1 then 1 else 0
  }

  function Xor(a: nat, b: nat): nat {
    if a == 0 then b else 2 * Xor(a / 2, b / 2) + if a % 2 == b % 2 then 0 else 1
  }

  /** A shift in a word of `w` bits. */
  function LeftShift(w: nat, a: nat, n: nat): nat {
    a * Pow2(n) % Pow2(w)
  }

  /** `calculate_now` for a timer of `bits` bits, computed in words of `w` bits. */
  function CalculateNow(w: nat, bits: nat, halfPeriods: nat, timerValue: nat): nat
    requires bits > 0
  {
    var upperHalf := LeftShift(w, halfPeriods, bits - 1);
    var lowerHalf := And(LeftShift(w, 1, bits - 1), upperHalf);
    upperHalf + Xor(lowerHalf, timerValue)
  }

  lemma {:induction false} AndPicksTheLowestBit(n: nat, p: nat)
    ensures And(Pow2(n), p * Pow2(n)) == if p % 2 == 1 then Pow2(n) else 0
  {
    if n == 0 {
    } else {
      assert p * Pow2(n) == 2 * (p * Pow2(n - 1));
      AndPicksTheLowestBit(n - 1, p);
    }
  }

  lemma {:induction false} XorFlipsTheBit(n: nat, v: nat)
    requires v < 2 * Pow2(n)
    ensures Xor(Pow2(n), v) == if v < Pow2(n) then v + Pow2(n) else v - Pow2(n)
  {
    if n == 0 {
    } else {
      var b := Pow2(n - 1);
      XorFlipsTheBit(n - 1, v / 2);
      assert Pow2(n) == 2 * b && (2 * b) / 2 == b && (2 * b) % 2 == 0;
      assert Xor(2 * b, v) == 2 * Xor(b, v / 2) + v % 2;
    }
  }

  // ----- time, half periods and the timer

  /** What the timer shows: which half period it is, and how far in. */
  lemma TimerShows(t: nat, half: nat)
    requires half > 0
    ensures t % (2 * half) == (if (t / half) % 2 == 1 then half else 0) + t % half
  {
    var f := t / half;
    assert t == f * half + t % half;
    assert f * half == (f / 2) * (2 * half) + (f % 2) * half;
    DivideBack(2 * half, t, f / 2, (f % 2) * half + t % half);
  }

  lemma ShiftFits(w: nat, n: nat, p: nat)
    requires p * Pow2(n) < Pow2(w)
    ensures LeftShift(w, p, n) == p * Pow2(n)
  {
    DivideBack(Pow2(w), p * Pow2(n), 0, p * Pow2(n));
  }

  lemma PowGrows(a: nat, b: nat)
    requires a < b
    ensures Pow2(a) < Pow2(b)
  {
    if a + 1 < b { PowGrows(a, b - 1); }
  }

  /** In terms of the half-period number: the result for an even and for an odd counter. */
  lemma ResultByParity(w: nat, bits: nat, p: nat, v: nat)
    requires 0 < bits <= w && v < 2 * Pow2(bits - 1) && p * Pow2(bits - 1) < Pow2(w)
    ensures var h := Pow2(bits - 1);
            CalculateNow(w, bits, p, v) == p * h + if p % 2 == 0 then v else if v < h then v + h else v - h
  {
    var h := Pow2(bits - 1);
    PowGrows(bits - 1, w);
    ShiftFits(w, bits - 1, 1);
    ShiftFits(w, bits - 1, p);
    AndPicksTheLowestBit(bits - 1, p);
    XorFlipsTheBit(bits - 1, v);
  }

  /**
  The reading is exact if and only if the counter is the number of half periods that have
  begun, or one less: for every width, every time and every counter value.
  */
  lemma ExactIff(w: nat, bits: nat, p: nat, t: nat)
    requires 0 < bits <= w && t < Pow2(w) && p * Pow2(bits - 1) < Pow2(w)
    ensures var h := Pow2(bits - 1);
            CalculateNow(w, bits, p, t % (2 * h)) == t <==> p == t / h || p + 1 == t / h
  {
    var h := Pow2(bits - 1);
    var v := t % (2 * h);
    TimerShows(t, h);
    ResultByParity(w, bits, p, v);
    ImpliedIsTrueIff(CalculateNow(w, bits, p, v), p, v, t, h);
  }

  /** The half period that a counter value and the upper bit of the timer imply. */
  function ImpliedHalf(p: nat, f: nat): nat {
    if p % 2 == 0 then p + f % 2 else if f % 2 == 1 then p else p + 1
  }

  lemma Implied(p: nat, f: nat, v: nat, r: nat, h: nat)
    requires r < h && v == (if f % 2 == 1 then h else 0) + r
    ensures p * h + (if p % 2 == 0 then v else if v < h then v + h else v - h) == ImpliedHalf(p, f) * h + r
  {
    assert (p + 1) * h == p * h + h;
    assert f % 2 == 0 || f % 2 == 1;
  }

  lemma ImpliedIsTrueIff(now: nat, p: nat, v: nat, t: nat, h: nat)
    requires h > 0 && v == (if (t / h) % 2 == 1 then h else 0) + t % h
    requires now == p * h + if p % 2 == 0 then v else if v < h then v + h else v - h
    ensures now == t <==> p == t / h || p + 1 == t / h
  {
    var f, r := t / h, t % h;
    assert t == f * h + r;
    Implied(p, f, v, r, h);
    EqualFactors(ImpliedHalf(p, f), f, h);
  }

  lemma EqualFactors(a: int, b: int, m: nat)
    requires m > 0
    ensures a * m == b * m <==> a == b
  {
    if a * m == b * m {
      assert (a - b) * m == 0;
      FewMultiples(m, a - b, -1, 1);
    }
  }

  /** The counter may lag, but the half period it implies always fits in the word. */
  lemma CounterFits(t: nat, h: nat, p: nat)
    requires h > 0 && p <= t / h
    ensures p * h <= t
  {
    MulMonotone(p, t / h, h);
    assert t == (t / h) * h + t % h;
  }

  // ----- the interrupt handler

  /** `on_interrupt`: whether the two assertions hold, and the counter afterwards. */
  function OnInterrupt(periods: nat, full: bool, half: bool): (r: (bool, nat)) {
    var ok1 := full ==> periods % 2 == 1;
    var p1 := if full then periods + 1 else periods;
    var ok2 := half ==> p1 % 2 == 0;
    (ok1 && ok2, if half then p1 + 1 else p1)
  }
}

/**
The clock while it runs: ticks, the two flags, the handler and readers in critical sections,
one register access at a time.
*/
module HalfPeriodMachine {
  import opened Priority
  import opened Ticks
  import opened HalfPeriod

  /** A timer of `bits` bits and time in words of `w` bits. */
  datatype Config = Config(w: nat, bits: nat)

  datatype Handler = Off | LookFull | CountFull | LookHalf | CountHalf
  datatype Reader = Quiet | Reading(halfPeriods: nat)
  datatype Sample = Sample(value: nat, at: nat)

  /** `full` and `half` are the interrupt flags of the overflow and of the half-way compare. */
  datatype Sys = Sys(
    t: nat, periods: nat, full: bool, half: bool, handler: Handler, reader: Reader,
    samples: seq<Sample>, failed: bool)

  datatype Step = Tick | Enter | Handle | StartRead | FinishRead

  ghost predicate ValidConfig(cfg: Config) { 0 < cfg.bits <= cfg.w }

  function H(cfg: Config): (h: nat)
    requires cfg.bits > 0
    ensures h > 0
  {
    Pow2(cfg.bits - 1)
  }

  /** STM32 starts with the timer at 1, the nRF RTC at 0. */
  ghost function Init(t0: nat): Sys { Sys(t0, 0, false, false, Off, Quiet, [], false) }

  /** A half period has begun that the counter does not show yet. */
  ghost predicate Unserved(s: Sys) {
    s.full || s.half || s.handler.CountFull? || s.handler.CountHalf?
  }

  /** What can happen at all.  A reader is in a critical section, which stops the handler; time fits its word. */
  ghost predicate Possible(cfg: Config, s: Sys, st: Step) {
    match st
    case Tick => s.t + 1 < Pow2(cfg.w)
    case Enter => s.handler.Off? && s.reader.Quiet?
    case Handle => !s.handler.Off? && s.reader.Quiet?
    case StartRead => s.reader.Quiet?
    case FinishRead => s.reader.Reading?
  }

  /** The assumption: no half period begins while the interrupt of the one before is unserved. */
  ghost predicate Enabled(cfg: Config, s: Sys, st: Step)
    requires ValidConfig(cfg)
  {
    Possible(cfg, s, st) && (st.Tick? && (s.t + 1) % H(cfg) == 0 ==> !Unserved(s))
  }

  ghost function Ticked(cfg: Config, s: Sys): Sys
    requires ValidConfig(cfg)
  {
    var shown := (s.t + 1) % (2 * H(cfg));
    s.(t := s.t + 1, full := s.full || shown == 0, half := s.half || shown == H(cfg))
  }

  ghost function Apply(cfg: Config, s: Sys, st: Step): Sys
    requires ValidConfig(cfg) && Possible(cfg, s, st)
  {
    match st
    case Tick => Ticked(cfg, s)
    case Enter => s.(handler := LookFull)
    case Handle => HandlerStep(s)
    case StartRead => s.(reader := Reading(s.periods))
    case FinishRead =>
      var now := CalculateNow(cfg.w, cfg.bits, s.reader.halfPeriods, s.t % (2 * H(cfg)));
      s.(reader := Quiet, samples := s.samples + [Sample(now, s.t)])
  }

  /** The handler finds and clears a flag, then counts and checks the parity. */
  ghost function HandlerStep(s: Sys): Sys
    requires !s.handler.Off?
  {
    match s.handler
    case LookFull => if s.full then s.(full := false, handler := CountFull) else s.(handler := LookHalf)
    case CountFull => s.(periods := s.periods + 1, failed := s.failed || s.periods % 2 != 1, handler := LookHalf)
    case LookHalf => if s.half then s.(half := false, handler := CountHalf) else s.(handler := Off)
    case CountHalf => s.(periods := s.periods + 1, failed := s.failed || s.periods % 2 != 0, handler := Off)
  }

  ghost predicate Next(cfg: Config, s: Sys, s': Sys)
    requires ValidConfig(cfg)
  {
    exists st :: Enabled(cfg, s, st) && s' == Apply(cfg, s, st)
  }

  ghost predicate IsRun(cfg: Config, run: seq<Sys>) {
    && ValidConfig(cfg) && |run| > 0
    && run[0].t < H(cfg) && run[0] == Init(run[0].t)
    && forall i :: 0 <= i < |run| - 1 ==> Next(cfg, run[i], run[i + 1])
  }

  // ----- what every run keeps

  ghost predicate Inv(cfg: Config, s: Sys) {
    && ValidConfig(cfg) && s.t < Pow2(cfg.w)
    && CountInv(s, s.t / H(cfg))
    && (s.reader.Reading? ==> s.reader.halfPeriods == s.periods)
    && (forall i :: 0 <= i < |s.samples| ==> s.samples[i].value == s.samples[i].at <= s.t)
    && (forall i, j :: 0 <= i < j < |s.samples| ==> s.samples[i].at <= s.samples[j].at)
  }

  /** `f` half periods have begun; the counter shows them all but the one still unserved. */
  ghost predicate CountInv(s: Sys, f: int) {
    && !s.failed
    && s.periods == f - (if Unserved(s) then 1 else 0)
    && (s.full || s.handler.CountFull? ==> f % 2 == 0 && !s.half && !s.handler.CountHalf?)
    && (s.half || s.handler.CountHalf? ==> f % 2 == 1)
    && !(s.full && s.handler.CountFull?) && !(s.half && s.handler.CountHalf?)
  }

  lemma InitInv(cfg: Config, t0: nat)
    requires ValidConfig(cfg) && t0 < H(cfg)
    ensures Inv(cfg, Init(t0))
  {
    PowGrows(cfg.bits - 1, cfg.w);
    DivideBack(H(cfg), t0, 0, t0);
  }

  lemma TickDivides(t: nat, h: nat)
    requires h > 0
    ensures (t + 1) / h == t / h + if (t + 1) % h == 0 then 1 else 0
  {
    assert t == (t / h) * h + t % h;
    if t % h == h - 1 {
      DivideBack(h, t + 1, t / h + 1, 0);
    } else {
      DivideBack(h, t + 1, t / h, t % h + 1);
    }
  }

  lemma TickKeepsCount(cfg: Config, s: Sys)
    requires Inv(cfg, s) && Enabled(cfg, s, Tick)
    ensures Inv(cfg, Apply(cfg, s, Tick))
  {
    TickDivides(s.t, H(cfg));
    TimerShows(s.t + 1, H(cfg));
  }

  lemma HandlerKeepsCount(s: Sys, f: int)
    requires CountInv(s, f) && !s.handler.Off?
    ensures CountInv(HandlerStep(s), f)
  {
  }

  lemma ReadKeepsInv(cfg: Config, s: Sys)
    requires Inv(cfg, s) && s.reader.Reading?
    ensures Inv(cfg, Apply(cfg, s, FinishRead))
  {
    CounterFits(s.t, H(cfg), s.periods);
    ExactIff(cfg.w, cfg.bits, s.periods, s.t);
  }

  lemma StepKeepsInv(cfg: Config, s: Sys, st: Step)
    requires Inv(cfg, s) && Enabled(cfg, s, st)
    ensures Inv(cfg, Apply(cfg, s, st))
  {
    match st
    case Tick => TickKeepsCount(cfg, s);
    case Enter =>
    case Handle => HandlerKeepsCount(s, s.t / H(cfg));
    case StartRead =>
    case FinishRead => ReadKeepsInv(cfg, s);
  }

  lemma {:induction false} RunKeepsInv(cfg: Config, run: seq<Sys>, i: nat)
    requires IsRun(cfg, run) && i < |run|
    ensures Inv(cfg, run[i])
  {
    if i == 0 {
      InitInv(cfg, run[0].t);
    } else {
      RunKeepsInv(cfg, run, i - 1);
      assert Next(cfg, run[i - 1], run[i - 1 + 1]);
      var st :| Enabled(cfg, run[i - 1], st) && run[i] == Apply(cfg, run[i - 1], st);
      StepKeepsInv(cfg, run[i - 1], st);
    }
  }

  /** The counter is always the number of half periods begun or one less, and the assertions never fail. */
  lemma CounterLagsByAtMostOne(cfg: Config, run: seq<Sys>, i: nat)
    requires IsRun(cfg, run) && i < |run|
    ensures var s := run[i]; var f := s.t / H(cfg);
            !s.failed && (s.periods == f || s.periods + 1 == f) && (s.periods + 1 == f <==> Unserved(s))
  {
    RunKeepsInv(cfg, run, i);
  }

  /** Every reading is the true time of its timer read, so readings never go backwards. */
  lemma ReadingsAreExact(cfg: Config, run: seq<Sys>, i: nat)
    requires IsRun(cfg, run) && i < |run|
    ensures var s := run[i];
            && (forall k :: 0 <= k < |s.samples| ==> s.samples[k].value == s.samples[k].at)
            && (forall j, k :: 0 <= j < k < |s.samples| ==> s.samples[j].value <= s.samples[k].value)
  {
    RunKeepsInv(cfg, run, i);
  }

  // ----- the handler as a method

  ghost function Handled(s: Sys): Sys
    decreases if s.handler.Off? then 0 else if s.handler.CountHalf? then 1
              else if s.handler.LookHalf? then 2 else if s.handler.CountFull? then 3 else 4
  {
    if s.handler.Off? then s else Handled(HandlerStep(s))
  }

  lemma HandledIsOnInterrupt(s: Sys)
    requires s.handler.LookFull?
    ensures var r := OnInterrupt(s.periods, s.full, s.half);
            Handled(s) == s.(periods := r.1, full := false, half := false, handler := Off, failed := s.failed || !r.0)
  {
    var s1 := HandlerStep(s);
    var s2 := if s1.handler.CountFull? then HandlerStep(s1) else s1;
    var s3 := HandlerStep(s2);
    var s4 := if s3.handler.CountHalf? then HandlerStep(s3) else s3;
    assert Handled(s) == Handled(s1) == Handled(s2);
    assert Handled(s2) == Handled(s3) == Handled(s4) == s4;
  }

  /** The registers of the timer and its half-period counter. */
  class Timer {
    var periods: nat
    var full: bool
    var half: bool

    constructor ()
      ensures periods == 0 && !full && !half
    {
      periods, full, half := 0, false, false;
    }

    ghost predicate Shows(s: Sys)
      reads this
    {
      periods == s.periods && full == s.full && half == s.half
    }

    /**
    `on_interrupt`; `ok` tells whether its two assertions hold.  It does what the handler's steps
    do.  In every state the machine can reach they hold, and the counter ends at the number of half
    periods begun.
    */
    method OnInterrupt(cfg: Config, ghost s: Sys) returns (ok: bool)
      requires ValidConfig(cfg) && s.handler.LookFull? && Shows(s)
      modifies this
      ensures Shows(Handled(s)) && (Handled(s).failed <==> s.failed || !ok) && !full && !half
      ensures ok <==> (old(full) ==> old(periods) % 2 == 1)
                      && (old(half) ==> (old(periods) + if old(full) then 1 else 0) % 2 == 0)
      ensures periods == old(periods) + (if old(full) then 1 else 0) + (if old(half) then 1 else 0)
      ensures Inv(cfg, s) ==> ok && periods == s.t / H(cfg)
    {
      HandledIsOnInterrupt(s);
      ok := true;
      if full {
        full := false;
        var prev := periods;
        periods := periods + 1;
        ok := ok && prev % 2 == 1;
      }
      if half {
        half := false;
        var prev := periods;
        periods := periods + 1;
        ok := ok && prev % 2 == 0;
      }
    }
  }
}
