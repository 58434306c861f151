/**
The clock when interrupts come late: nothing is assumed about when the handler runs.  A half
period that begins while the flag of an earlier one of its kind is still up loses an interrupt.
*/
module HalfPeriodLate {
  import opened Priority
  import opened Ticks
  import opened HalfPeriod
  import opened HalfPeriodMachine

  ghost predicate NextAny(cfg: Config, s: Sys, s': Sys)
    requires ValidConfig(cfg)
  {
    exists st :: Possible(cfg, s, st) && s' == Apply(cfg, s, st)
  }

  /** A run with any delay of the handler. */
  ghost predicate IsAnyRun(cfg: Config, run: seq<Sys>) {
    && ValidConfig(cfg) && |run| > 0
    && run[0].t < H(cfg) && run[0] == Init(run[0].t)
    && forall i :: 0 <= i < |run| - 1 ==> NextAny(cfg, run[i], run[i + 1])
  }

  /** The half periods that have begun. */
  ghost function Begun(cfg: Config, s: Sys): int
    requires ValidConfig(cfg)
  {
    s.t / H(cfg)
  }

  /** The interrupts raised and not counted yet. */
  ghost function Pending(s: Sys): nat {
    One(s.full) + One(s.half) + One(s.handler.CountFull?) + One(s.handler.CountHalf?)
  }

  ghost function One(b: bool): nat { if b then 1 else 0 }

  /** The next tick begins a half period whose flag is already up. */
  ghost predicate Loses(cfg: Config, s: Sys)
    requires ValidConfig(cfg)
  {
    var shown := (s.t + 1) % (2 * H(cfg));
    (shown == 0 && s.full) || (shown == H(cfg) && s.half)
  }

  /** How many interrupts were lost in the first `i` steps. */
  ghost function Lost(cfg: Config, run: seq<Sys>, i: nat): nat
    requires ValidConfig(cfg) && i < |run|
  {
    if i == 0 then 0
    else Lost(cfg, run, i - 1) + One(run[i].t == run[i - 1].t + 1 && Loses(cfg, run[i - 1]))
  }

  // ----- every half period is accounted for

  lemma TickAccounts(cfg: Config, s: Sys)
    requires ValidConfig(cfg)
    ensures Begun(cfg, Ticked(cfg, s)) + Pending(s)
         == Begun(cfg, s) + Pending(Ticked(cfg, s)) + One(Loses(cfg, s))
  {
    TickDivides(s.t, H(cfg));
    TimerShows(s.t + 1, H(cfg));
  }

  lemma StepAccounts(cfg: Config, s: Sys, st: Step)
    requires ValidConfig(cfg) && Possible(cfg, s, st)
    ensures var s' := Apply(cfg, s, st);
            && Begun(cfg, s') + s.periods + Pending(s)
               == Begun(cfg, s) + s'.periods + Pending(s') + One(s'.t == s.t + 1 && Loses(cfg, s))
            && (s.t < Pow2(cfg.w) ==> s'.t < Pow2(cfg.w))
            && ((s.reader.Reading? ==> s.reader.halfPeriods == s.periods) ==>
                  (s'.reader.Reading? ==> s'.reader.halfPeriods == s'.periods))
  {
    if st.Tick? { TickAccounts(cfg, s); }
  }

  /** The half periods begun are those counted, those pending and those lost. */
  lemma {:induction false} HalfPeriodsAccounted(cfg: Config, run: seq<Sys>, i: nat)
    requires IsAnyRun(cfg, run) && i < |run|
    ensures Begun(cfg, run[i]) == run[i].periods + Pending(run[i]) + Lost(cfg, run, i)
    ensures run[i].t < Pow2(cfg.w)
    ensures run[i].reader.Reading? ==> run[i].reader.halfPeriods == run[i].periods
  {
    if i == 0 {
      PowGrows(cfg.bits - 1, cfg.w);
      DivideBack(H(cfg), run[0].t, 0, run[0].t);
    } else {
      HalfPeriodsAccounted(cfg, run, i - 1);
      assert NextAny(cfg, run[i - 1], run[i - 1 + 1]);
      var st :| Possible(cfg, run[i - 1], st) && run[i] == Apply(cfg, run[i - 1], st);
      StepAccounts(cfg, run[i - 1], st);
    }
  }

  /** What was lost stays lost. */
  lemma {:induction false} LostGrows(cfg: Config, run: seq<Sys>, i: nat, j: nat)
    requires ValidConfig(cfg) && i <= j < |run|
    ensures Lost(cfg, run, i) <= Lost(cfg, run, j)
  {
    if i == j {
    } else {
      LostGrows(cfg, run, i, j - 1);
    }
  }

  // ----- what readers see

  /** A reading is exact if and only if at most one half period is pending or lost at the timer read. */
  lemma ReadingExactIff(cfg: Config, run: seq<Sys>, i: nat)
    requires IsAnyRun(cfg, run) && i < |run|
    ensures var s := run[i];
            CalculateNow(cfg.w, cfg.bits, s.periods, s.t % (2 * H(cfg))) == s.t
            <==> Pending(s) + Lost(cfg, run, i) <= 1
    ensures run[i].reader.Reading? ==>
              var samples := Apply(cfg, run[i], FinishRead).samples;
              var last := samples[|samples| - 1];
              last.value == last.at <==> Pending(run[i]) + Lost(cfg, run, i) <= 1
  {
    HalfPeriodsAccounted(cfg, run, i);
    CounterFits(run[i].t, H(cfg), run[i].periods);
    ExactIff(cfg.w, cfg.bits, run[i].periods, run[i].t);
  }

  /** So two lost interrupts make every later reading wrong. */
  lemma TwoLostReadWrongForever(cfg: Config, run: seq<Sys>, i: nat, j: nat)
    requires IsAnyRun(cfg, run) && i <= j < |run| && Lost(cfg, run, i) >= 2
    ensures var s := run[j]; CalculateNow(cfg.w, cfg.bits, s.periods, s.t % (2 * H(cfg))) != s.t
  {
    LostGrows(cfg, run, i, j);
    ReadingExactIff(cfg, run, j);
  }

  // ----- what the handler does about it

  /** The state after the handler has run without preemption. */
  ghost function Served(s: Sys): Sys { Handled(s.(handler := LookFull)) }

  /**
  Whenever the handler starts, it leaves the counter behind by exactly the interrupts lost, so
  right if and only if none ever was.
  */
  lemma ServedRightIff(cfg: Config, run: seq<Sys>, i: nat)
    requires IsAnyRun(cfg, run) && i < |run| && run[i].handler.Off?
    ensures var s' := Served(run[i]);
            && s'.handler.Off? && !s'.full && !s'.half
            && Begun(cfg, s') == s'.periods + Lost(cfg, run, i)
            && (s'.periods == Begun(cfg, s') <==> Lost(cfg, run, i) == 0)
  {
    HalfPeriodsAccounted(cfg, run, i);
    HandledIsOnInterrupt(run[i].(handler := LookFull));
  }

  /**
  When the assertions fail, in true half periods `f` begun and interrupts `n` lost.  With both
  flags up, if and only if `f + n` is even.  With the flag of the half period that began last
  alone, if and only if `n` is odd; with the other one alone, if and only if `n` is even.
  */
  ghost predicate Notices(f: int, n: nat, full: bool, half: bool) {
    || (full && half && (f + n) % 2 == 0)
    || (full && !half && n % 2 != f % 2)
    || (!full && half && n % 2 == f % 2)
  }

  lemma ParityTells(periods: nat, f: int, n: nat, full: bool, half: bool)
    requires f == periods + One(full) + One(half) + n
    ensures !OnInterrupt(periods, full, half).0 <==> Notices(f, n, full, half)
  {
    SameParity(f, n);
    DoubleDoesNotMatter(periods + One(full) + One(half), n);
    DoubleDoesNotMatter(periods, 1);
  }

  lemma SameParity(x: int, y: int)
    ensures (x + y) % 2 == 0 <==> x % 2 == y % 2
  {
  }

  lemma DoubleDoesNotMatter(x: int, n: int)
    ensures (x + 2 * n) % 2 == x % 2
  {
  }

  /** The exact condition for the assertions of a whole handler, wherever it starts. */
  lemma NoticedIff(cfg: Config, run: seq<Sys>, i: nat)
    requires IsAnyRun(cfg, run) && i < |run| && run[i].handler.Off? && !run[i].failed
    ensures var s := run[i];
            Served(s).failed <==> Notices(Begun(cfg, s), Lost(cfg, run, i), s.full, s.half)
  {
    var s := run[i];
    HalfPeriodsAccounted(cfg, run, i);
    HandledIsOnInterrupt(s.(handler := LookFull));
    ParityTells(s.periods, Begun(cfg, s), Lost(cfg, run, i), s.full, s.half);
  }

  /** The same for one assertion, whatever happened between the handler's steps. */
  lemma AssertionFailsIff(cfg: Config, run: seq<Sys>, i: nat)
    requires IsAnyRun(cfg, run) && i < |run| && run[i].reader.Quiet? && !run[i].failed
    requires run[i].handler.CountFull? || run[i].handler.CountHalf?
    ensures var s := run[i];
            Apply(cfg, s, Handle).failed
            <==> (Begun(cfg, s) - Pending(s) - Lost(cfg, run, i)) % 2 == One(s.handler.CountHalf?)
  {
    HalfPeriodsAccounted(cfg, run, i);
  }

  /** With the handler at rest, a counter two or more behind means both flags are up or an interrupt was lost. */
  lemma BehindMeansBothOrLost(cfg: Config, run: seq<Sys>, i: nat)
    requires IsAnyRun(cfg, run) && i < |run| && run[i].handler.Off?
    requires Begun(cfg, run[i]) >= run[i].periods + 2
    ensures (run[i].full && run[i].half) || LostBefore(cfg, run, i)
  {
    HalfPeriodsAccounted(cfg, run, i);
    LostSomewhere(cfg, run, i);
  }

  /** Some earlier tick of the run lost an interrupt. */
  ghost predicate LostBefore(cfg: Config, run: seq<Sys>, i: nat)
    requires ValidConfig(cfg)
  {
    exists k: nat :: LosesAt(cfg, run, k) && k < i
  }

  ghost predicate LosesAt(cfg: Config, run: seq<Sys>, k: nat)
    requires ValidConfig(cfg)
  {
    k + 1 < |run| && run[k + 1].t == run[k].t + 1 && Loses(cfg, run[k])
  }

  lemma {:induction false} LostSomewhere(cfg: Config, run: seq<Sys>, i: nat)
    requires ValidConfig(cfg) && i < |run|
    ensures Lost(cfg, run, i) > 0 <==> LostBefore(cfg, run, i)
  {
    if i == 0 {
    } else {
      LostSomewhere(cfg, run, i - 1);
      assert LosesAt(cfg, run, i - 1) <==> Lost(cfg, run, i) > Lost(cfg, run, i - 1);
      if LostBefore(cfg, run, i - 1) {
        var k: nat :| LosesAt(cfg, run, k) && k < i - 1;
        assert LosesAt(cfg, run, k) && k < i;
      }
    }
  }

  // ----- runs

  ghost function Last(run: seq<Sys>): Sys
    requires |run| > 0
  {
    run[|run| - 1]
  }

  lemma Extend(cfg: Config, run: seq<Sys>, st: Step) returns (longer: seq<Sys>)
    requires IsAnyRun(cfg, run) && Possible(cfg, Last(run), st)
    ensures IsAnyRun(cfg, longer) && Last(longer) == Apply(cfg, Last(run), st)
  {
    longer := run + [Apply(cfg, Last(run), st)];
    assert NextAny(cfg, Last(run), Apply(cfg, Last(run), st));
  }

  /** Ticks within a half period raise no flag. */
  lemma {:induction false} QuietTicks(cfg: Config, run: seq<Sys>, k: nat) returns (longer: seq<Sys>)
    requires IsAnyRun(cfg, run) && Last(run).t % H(cfg) + k < H(cfg) && Last(run).t + k < Pow2(cfg.w)
    ensures IsAnyRun(cfg, longer) && Last(longer) == Last(run).(t := Last(run).t + k)
  {
    if k == 0 {
      longer := run;
    } else {
      longer := QuietTicks(cfg, run, k - 1);
      var t := Last(run).t;
      assert t == (t / H(cfg)) * H(cfg) + t % H(cfg);
      DivideBack(H(cfg), t + k, t / H(cfg), t % H(cfg) + k);
      TimerShows(t + k, H(cfg));
      longer := Extend(cfg, longer, Tick);
    }
  }

  /** From one boundary to the next. */
  lemma HalfPeriodPasses(cfg: Config, run: seq<Sys>, f: nat) returns (longer: seq<Sys>)
    requires IsAnyRun(cfg, run) && Last(run).t == f * H(cfg) && (f + 1) * H(cfg) < Pow2(cfg.w)
    ensures IsAnyRun(cfg, longer)
    ensures var s := Last(run);
            Last(longer) == s.(t := (f + 1) * H(cfg), full := s.full || f % 2 == 1, half := s.half || f % 2 == 0)
  {
    var h := H(cfg);
    assert (f + 1) * h == f * h + h;
    DivideBack(h, f * h, f, 0);
    longer := QuietTicks(cfg, run, h - 1);
    DivideBack(h, (f + 1) * h, f + 1, 0);
    TimerShows((f + 1) * h, h);
    longer := Extend(cfg, longer, Tick);
  }

  /** Half periods go by and the handler does not come: after two of them both flags are up. */
  lemma {:induction false} Neglect(cfg: Config, run: seq<Sys>, f: nat, k: nat) returns (longer: seq<Sys>)
    requires IsAnyRun(cfg, run) && Last(run).t == f * H(cfg) && (f + k) * H(cfg) < Pow2(cfg.w)
    ensures IsAnyRun(cfg, longer)
    ensures var s, s' := Last(run), Last(longer);
            && s' == s.(t := (f + k) * H(cfg), full := s'.full, half := s'.half)
            && (k == 1 ==> if f % 2 == 1 then s'.full else s'.half)
            && (k >= 2 ==> s'.full && s'.half)
  {
    if k == 0 {
      longer := run;
    } else {
      MulMonotone(f + k - 1, f + k, H(cfg));
      longer := Neglect(cfg, run, f, k - 1);
      longer := HalfPeriodPasses(cfg, longer, f + k - 1);
    }
  }

  /** The whole handler, uninterrupted. */
  lemma Serve(cfg: Config, run: seq<Sys>) returns (longer: seq<Sys>)
    requires IsAnyRun(cfg, run) && Last(run).handler.Off? && Last(run).reader.Quiet?
    ensures IsAnyRun(cfg, longer) && Last(longer) == Served(Last(run))
  {
    longer := Extend(cfg, run, Enter);
    longer := FinishHandler(cfg, longer);
  }

  lemma {:induction false} FinishHandler(cfg: Config, run: seq<Sys>) returns (longer: seq<Sys>)
    requires IsAnyRun(cfg, run) && Last(run).reader.Quiet?
    ensures IsAnyRun(cfg, longer) && Last(longer) == Handled(Last(run))
    decreases if Last(run).handler.Off? then 0 else if Last(run).handler.CountHalf? then 1
              else if Last(run).handler.LookHalf? then 2 else if Last(run).handler.CountFull? then 3 else 4
  {
    if Last(run).handler.Off? {
      longer := run;
    } else {
      longer := Extend(cfg, run, Handle);
      longer := FinishHandler(cfg, longer);
    }
  }

  /** With the handler off, `f` half periods have begun and `n` interrupts were lost. */
  ghost predicate EndsBehind(cfg: Config, run: seq<Sys>, f: int, n: int)
    requires ValidConfig(cfg) && |run| > 0
  {
    Last(run).handler.Off? && Begun(cfg, Last(run)) == f && Lost(cfg, run, |run| - 1) == n
  }

  /** Never served for two or more half periods, a clock can notice it, however many they were. */
  lemma NeverServedIsNoticed(cfg: Config, k: nat)
    requires ValidConfig(cfg) && k >= 2 && k * H(cfg) < Pow2(cfg.w)
    ensures exists run: seq<Sys> :: IsAnyRun(cfg, run) && EndsBehind(cfg, run, k, k - 2) && Served(Last(run)).failed
  {
    var run := [Init(0)];
    run := Neglect(cfg, run, 0, k);
    DivideBack(H(cfg), k * H(cfg), k, 0);
    HalfPeriodsAccounted(cfg, run, |run| - 1);
    NoticedIff(cfg, run, |run| - 1);
    assert IsAnyRun(cfg, run) && EndsBehind(cfg, run, k, k - 2);
  }

  lemma ServedOnce(cfg: Config) returns (run: seq<Sys>)
    requires ValidConfig(cfg) && H(cfg) < Pow2(cfg.w)
    ensures IsAnyRun(cfg, run) && Last(run) == Init(0).(t := H(cfg), periods := 1)
  {
    run := [Init(0)];
    run := HalfPeriodPasses(cfg, run, 0);
    HandledIsOnInterrupt(Last(run).(handler := LookFull));
    run := Serve(cfg, run);
  }

  /** Served once in time and then not for two or more, it may not, and the lost ones stay missing. */
  lemma ServedOnceIsNotNoticed(cfg: Config, k: nat)
    requires ValidConfig(cfg) && k >= 2 && (k + 1) * H(cfg) < Pow2(cfg.w)
    ensures exists run: seq<Sys> ::
              && IsAnyRun(cfg, run) && EndsBehind(cfg, run, k + 1, k - 2)
              && !Served(Last(run)).failed && Served(Last(run)).periods == 3
  {
    MulMonotone(1, k + 1, H(cfg));
    var run := ServedOnce(cfg);
    run := Neglect(cfg, run, 1, k);
    DivideBack(H(cfg), (k + 1) * H(cfg), k + 1, 0);
    HalfPeriodsAccounted(cfg, run, |run| - 1);
    HandledIsOnInterrupt(Last(run).(handler := LookFull));
    assert IsAnyRun(cfg, run) && EndsBehind(cfg, run, k + 1, k - 2);
  }
}
