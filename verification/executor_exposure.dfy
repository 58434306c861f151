/** Which applications can poll a future that is not there. */
module ExecutorExposure {
  import opened ExecutorCore
  import opened ExecutorMachine
  import opened ExecutorRuns
  import opened ExecutorSchedule

  /** Some code wakes tasks of this level. */
  ghost predicate HasWaker(cfg: Config) { exists w: nat :: Wakes(cfg, w) }

  ghost predicate Wakes(cfg: Config, w: nat) { w < |cfg.callers| && cfg.callers[w].wakes }

  ghost predicate LowSpawner(cfg: Config, c: nat) {
    c < |cfg.callers| && cfg.callers[c].spawns && cfg.callers[c].prio < cfg.dispatcher
  }

  /** Code that can preempt `c` and pend the interrupt while `c` has reserved an executor. */
  ghost predicate Disturbs(cfg: Config, d: nat, c: nat) {
    && d < |cfg.callers| && c < |cfg.callers| && cfg.callers[d].prio > cfg.callers[c].prio
    && (cfg.callers[d].wakes || (cfg.callers[d].spawns && cfg.n >= 2))
  }

  ghost predicate Disturbed(cfg: Config, c: nat) { exists d: nat :: Disturbs(cfg, d, c) }

  /**
  Some code wakes tasks, and some spawner is less urgent than the dispatcher; with an eager
  interrupt this spawner must also be open to more urgent code that wakes a task or spawns another.
  */
  ghost predicate Exposed(cfg: Config) {
    cfg.n > 0 && HasWaker(cfg) && exists c: nat :: ExposedBy(cfg, c)
  }

  ghost predicate ExposedBy(cfg: Config, c: nat) {
    LowSpawner(cfg, c) && (cfg.eager ==> Disturbed(cfg, c))
  }

  /** The documented discipline, spawners at least as urgent as the task they spawn, is enough. */
  lemma UrgentSpawnersAreSafe(cfg: Config)
    requires forall c :: 0 <= c < |cfg.callers| && cfg.callers[c].spawns ==> cfg.callers[c].prio >= cfg.dispatcher
    ensures !Exposed(cfg)
  {
  }

  // ----- a spawner in the middle of its spawn

  /** Nothing has happened since an undisturbed low spawner reserved its executor. */
  ghost predicate AllocInv(cfg: Config, k: Core) {
    forall c: nat :: c < |k.s.callers| && k.s.callers[c].Allocated? ==>
      && c < |cfg.callers| && cfg.callers[c].spawns
      && (cfg.eager && LowSpawner(cfg, c) && !Disturbed(cfg, c) ==> OnTop(k.stack, Call(c)) && !k.s.irq)
  }

  lemma AtLeastTheDispatcher(cfg: Config, k: Core)
    requires StackInv(cfg, k) && !k.s.disp.Idle?
    ensures k.stack != [] && Prio(cfg, k.stack[|k.stack| - 1]) >= cfg.dispatcher
  {
    var p :| 0 <= p < |k.stack| && k.stack[p] == Disp;
    var last := |k.stack| - 1;
    if p < last { assert Prio(cfg, k.stack[p]) <= Prio(cfg, k.stack[last]); }
  }

  /** When a low spawner starts, an eager dispatcher is not pended. */
  lemma QuietAtStart(cfg: Config, k: Core, st: Step)
    requires StackInv(cfg, k) && Scheduled(cfg, k, st) && st.TryAllocate?
    requires cfg.eager && LowSpawner(cfg, st.c)
    ensures !k.s.irq
  {
    if !k.s.disp.Idle? { AtLeastTheDispatcher(cfg, k); }
  }

  /** Only a spawner of another task could preempt an undisturbed spawner, and there is no other task. */
  lemma OnlyFellowSpawners(cfg: Config, k: Core, st: Step, c: nat)
    requires Scheduled(cfg, k, st) && (st.TryAllocate? || st.Wake?)
    requires c < |cfg.callers| && OnTop(k.stack, Call(c)) && !Disturbed(cfg, c)
    ensures st.TryAllocate? && cfg.n < 2
  {
    assert Prio(cfg, Call(st.c)) > Prio(cfg, Call(c));
    assert !Disturbs(cfg, st.c, c);
  }

  /** With a single task, which one spawner has reserved, another reservation fails. */
  lemma OnlyTaskTaken(s: Sys, c: nat, st: Step)
    requires TaskInv(s) && |s.execs| < 2 && c < |s.callers| && s.callers[c].Allocated?
    requires st.TryAllocate? && Enabled(s, st)
    ensures Apply(s, st) == s && s.callers[st.c].Quiet?
  {
    assert AllocatedFor(s, c, s.callers[c].e);
  }

  /** While an undisturbed spawner has its reservation, other calls wake nobody and reserve nothing. */
  lemma OthersDoNothing(cfg: Config, k: Core, st: Step, c: nat)
    requires StackInv(cfg, k) && TaskInv(k.s) && Scheduled(cfg, k, st) && (st.TryAllocate? || st.Wake?)
    requires c < |cfg.callers| && k.s.callers[c].Allocated? && OnTop(k.stack, Call(c)) && !Disturbed(cfg, c)
    ensures Advance(k, st) == k
  {
    OnlyFellowSpawners(cfg, k, st, c);
    OnlyTaskTaken(k.s, c, st);
  }

  lemma AllocStays(cfg: Config, k: Core, st: Step)
    requires StackInv(cfg, k) && TaskInv(k.s) && AllocInv(cfg, k) && Scheduled(cfg, k, st)
    ensures AllocInv(cfg, Advance(k, st))
  {
    var k' := Advance(k, st);
    if st.TryAllocate? && cfg.eager && LowSpawner(cfg, st.c) {
      QuietAtStart(cfg, k, st);
    }
    forall c: nat
      | c < |k'.s.callers| && k'.s.callers[c].Allocated? && cfg.eager && LowSpawner(cfg, c) && !Disturbed(cfg, c)
      ensures OnTop(k'.stack, Call(c)) && !k'.s.irq
    {
      if k.s.callers[c].Allocated? && (st.TryAllocate? || st.Wake?) { OthersDoNothing(cfg, k, st, c); }
    }
  }

  // ----- without a waker

  ghost predicate WrittenFor(s: Sys, c: nat, e: nat) { c < |s.callers| && s.callers[c] == Written(e) }

  /** Only a spawner sets a pending flag, once, for the future that it wrote. */
  ghost predicate SpawnsOnly(s: Sys) {
    && (forall e: nat :: e < |s.execs| && s.execs[e].pending ==> s.execs[e].task.Live?)
    && (forall c: nat, e: nat :: WrittenFor(s, c, e) ==>
          e < |s.execs| && s.execs[e].task.Live? && !s.execs[e].pending)
    && (forall c: nat, d: nat, e: nat :: WrittenFor(s, c, e) && WrittenFor(s, d, e) ==> c == d)
    && (s.disp.Polling? ==>
          s.disp.i < |s.execs| && !s.execs[s.disp.i].pending && forall c: nat :: !WrittenFor(s, c, s.disp.i))
  }

  lemma WriteKeepsSpawnsOnly(s: Sys, c: nat)
    requires TaskInv(s) && SpawnsOnly(s) && Enabled(s, Write(c))
    ensures SpawnsOnly(Apply(s, Write(c)))
  {
    var s' := Apply(s, Write(c));
    var e := s.callers[c].e;
    assert AllocatedFor(s, c, e);
    forall d: nat, f: nat ensures WrittenFor(s', d, f) <==> WrittenFor(s, d, f) || (d == c && f == e) { }
  }

  lemma SetPendingKeepsSpawnsOnly(s: Sys, c: nat)
    requires SpawnsOnly(s) && Enabled(s, SetPending(c))
    ensures SpawnsOnly(Apply(s, SetPending(c)))
  {
    var s' := Apply(s, SetPending(c));
    assert WrittenFor(s, c, s.callers[c].e);
    forall d: nat, f: nat ensures WrittenFor(s', d, f) <==> WrittenFor(s, d, f) && d != c { }
  }

  lemma CallersKeepSpawnsOnly(s: Sys, st: Step)
    requires SpawnsOnly(s) && Enabled(s, st) && (st.TryAllocate? || st.PendIrq?)
    ensures SpawnsOnly(Apply(s, st)) && Apply(s, st).dead == s.dead
  {
    forall d: nat, f: nat ensures WrittenFor(Apply(s, st), d, f) <==> WrittenFor(s, d, f) { }
  }

  lemma DispatcherKeepsSpawnsOnly(s: Sys, st: Step)
    requires SpawnsOnly(s) && Enabled(s, st) && (st.Enter? || st.Dispatch? || st.PollReturns?)
    ensures SpawnsOnly(Apply(s, st)) && Apply(s, st).dead == s.dead
  {
    forall d: nat, f: nat ensures WrittenFor(Apply(s, st), d, f) <==> WrittenFor(s, d, f) { }
  }

  /** Without a waker no poll is dead, in any interleaving. */
  lemma StepKeepsSpawnsOnly(s: Sys, st: Step)
    requires TaskInv(s) && SpawnsOnly(s) && Enabled(s, st) && !st.Wake?
    ensures SpawnsOnly(Apply(s, st))
    ensures Apply(s, st).dead ==> s.dead
  {
    if st.Write? {
      WriteKeepsSpawnsOnly(s, st.c);
    } else if st.SetPending? {
      SetPendingKeepsSpawnsOnly(s, st.c);
    } else if st.TryAllocate? || st.PendIrq? {
      CallersKeepSpawnsOnly(s, st);
    } else {
      DispatcherKeepsSpawnsOnly(s, st);
    }
  }

  // ----- polls are live

  /** The dispatcher only meets a reservation without a future if some low spawner is disturbed. */
  lemma DeadPollExposes(cfg: Config, k: Core, st: Step)
    requires StackInv(cfg, k) && AllocInv(cfg, k) && TaskInv(k.s) && !k.s.dead
    requires Scheduled(cfg, k, st) && Advance(k, st).s.dead
    ensures cfg.n > 0 && exists c: nat :: ExposedBy(cfg, c)
  {
    DeadPollStep(k.s, st);
    var c: nat :| AllocatedFor(k.s, c, k.s.disp.i);
    var p :| 0 <= p < |k.stack| && k.stack[p] == Call(c);
    assert Prio(cfg, k.stack[p]) < cfg.dispatcher;
    assert ExposedBy(cfg, c);
  }

  ghost predicate Inv(cfg: Config, k: Core) {
    && StackInv(cfg, k)
    && (!k.s.dead ==> TaskInv(k.s) && SpawnInv(k.s) && AllocInv(cfg, k) && (!HasWaker(cfg) ==> SpawnsOnly(k.s)))
    && (k.s.dead ==> Exposed(cfg))
  }

  lemma StepKeepsInv(cfg: Config, k: Core, st: Step)
    requires Inv(cfg, k) && Scheduled(cfg, k, st)
    ensures Inv(cfg, Advance(k, st))
  {
    StepKeepsStack(cfg, k, st);
    if !k.s.dead {
      StepKeepsTasks(k.s, st);
      StepKeepsSpawns(k.s, st);
      AllocStays(cfg, k, st);
      if st.Wake? { assert Wakes(cfg, st.c); }
      if !HasWaker(cfg) { StepKeepsSpawnsOnly(k.s, st); }
      if Advance(k, st).s.dead { DeadPollExposes(cfg, k, st); }
    }
  }

  lemma {:induction false} ScheduleKeeps(cfg: Config, run: seq<Core>, i: nat)
    requires IsSchedule(cfg, run) && i < |run|
    ensures Inv(cfg, run[i])
  {
    if i == 0 {
      NobodyAllocates(cfg);
    } else {
      ScheduleKeeps(cfg, run, i - 1);
      var k := run[i - 1];
      assert Follows(cfg, k, run[i - 1 + 1]);
      var st :| Scheduled(cfg, k, st) && run[i] == Advance(k, st);
      StepKeepsInv(cfg, k, st);
    }
  }

  lemma NobodyAllocates(cfg: Config)
    ensures Inv(cfg, Core(Init(cfg.n, |cfg.callers|), []))
  {
  }

  /** In an application that is not exposed polls see live futures, and no future is lost or finished twice. */
  lemma PollsAreLive(cfg: Config, run: seq<Core>, i: nat)
    requires IsSchedule(cfg, run) && i < |run| && !Exposed(cfg)
    ensures var s := run[i].s;
            && !s.dead
            && (s.disp.Polling? ==> s.disp.i < |s.execs| && s.execs[s.disp.i].task.Live?)
            && (forall id: nat :: id < s.spawned ==> (id in s.finished <==> !exists e: nat :: LiveAt(s, e, id)))
            && (forall j, l :: 0 <= j < l < |s.finished| ==> s.finished[j] != s.finished[l])
  {
    ScheduleKeeps(cfg, run, i);
  }

  /** A completed future frees its executor, is recorded as finished, and its task can be spawned again. */
  lemma CompletionFrees(cfg: Config, run: seq<Core>, i: nat, c: nat)
    requires IsSchedule(cfg, run) && i < |run| && !Exposed(cfg) && run[i].s.disp.Polling?
    requires c < |run[i].s.callers| && run[i].s.callers[c].Quiet?
    ensures var s := run[i].s; var e := s.disp.i;
            && e < |s.execs| && s.execs[e].task.Live?
            && var s' := Apply(s, PollReturns(true));
               && !s'.execs[e].running && s'.execs[e].task == Finished(s.execs[e].task.id)
               && s'.finished == s.finished + [s.execs[e].task.id]
               && Apply(s', TryAllocate(c, e)).callers[c] == Allocated(e)
               && Apply(s', TryAllocate(c, e)).execs[e].running
  {
    ScheduleKeeps(cfg, run, i);
    PollOutcome(run[i].s, true);
  }

  // ----- runs that poll a dead future

  lemma Extend(cfg: Config, run: seq<Core>, st: Step) returns (longer: seq<Core>)
    requires IsSchedule(cfg, run) && Scheduled(cfg, run[|run| - 1], st)
    ensures IsSchedule(cfg, longer) && longer[|longer| - 1] == Advance(run[|run| - 1], st)
  {
    var last := run[|run| - 1];
    longer := run + [Advance(last, st)];
    assert Follows(cfg, last, Advance(last, st));
  }

  /** A call of `d` may start, and no interrupt is pending that could come before it. */
  ghost predicate MayStart(cfg: Config, k: Core, d: nat) {
    && |k.s.execs| == cfg.n && |k.s.callers| == |cfg.callers|
    && d < |cfg.callers| && k.s.callers[d].Quiet? && Preempts(cfg, cfg.callers[d].prio, k.stack)
    && (k.s.irq ==> !cfg.eager)
  }

  /** Caller `d` runs on top of `k` and has left executor `e` as `x`. */
  ghost function Busy(k: Core, d: nat, e: nat, x: Exec, state: Caller): Core
    requires e < |k.s.execs| && d < |k.s.callers|
  {
    Core(k.s.(execs := k.s.execs[e := x], callers := k.s.callers[d := state]), k.stack + [Call(d)])
  }

  lemma WakeMoves(cfg: Config, k: Core, d: nat)
    requires MayStart(cfg, k, d) && cfg.n > 0 && cfg.callers[d].wakes
    ensures Scheduled(cfg, k, Wake(d, 0))
    ensures Advance(k, Wake(d, 0)) == Busy(k, d, 0, k.s.execs[0].(pending := true), Flagged(0))
  {
  }

  lemma ReserveMoves(cfg: Config, k: Core, d: nat, e: nat)
    requires MayStart(cfg, k, d) && e < cfg.n && !k.s.execs[e].running && cfg.callers[d].spawns
    ensures Scheduled(cfg, k, TryAllocate(d, e))
    ensures Advance(k, TryAllocate(d, e)) == Busy(k, d, e, k.s.execs[e].(running := true), Allocated(e))
  {
  }

  /** The last step of a call pends the interrupt. */
  lemma PendMoves(cfg: Config, k: Core, d: nat)
    requires d < |k.s.callers| && k.s.callers[d].Flagged? && OnTop(k.stack, Call(d)) && !k.s.irq
    ensures Scheduled(cfg, k, PendIrq(d))
    ensures Advance(k, PendIrq(d)) == Core(k.s.(callers := k.s.callers[d := Quiet], irq := true), Pop(k.stack))
  {
  }

  /** What a call of `d` leaves in place of `k`, once it has ended. */
  lemma BackAgain(k: Core, d: nat, state: Caller)
    requires d < |k.s.callers| && k.s.callers[d].Quiet?
    ensures k.s.callers[d := state][d := Quiet] == k.s.callers && Pop(k.stack + [Call(d)]) == k.stack
  {
  }

  /** A waker that may run wakes the task of executor 0 and ends. */
  lemma WakeAndPend(cfg: Config, run: seq<Core>, d: nat) returns (longer: seq<Core>)
    requires IsSchedule(cfg, run)
    requires var k := run[|run| - 1];
             MayStart(cfg, k, d) && !k.s.irq && cfg.n > 0 && cfg.callers[d].wakes
    ensures IsSchedule(cfg, longer)
    ensures var k := run[|run| - 1];
            longer[|longer| - 1]
            == k.(s := k.s.(execs := k.s.execs[0 := k.s.execs[0].(pending := true)], irq := true))
  {
    var k := run[|run| - 1];
    WakeMoves(cfg, k, d);
    longer := Extend(cfg, run, Wake(d, 0));
    PendMoves(cfg, longer[|longer| - 1], d);
    longer := Extend(cfg, longer, PendIrq(d));
    BackAgain(k, d, Flagged(0));
  }

  /** A spawner that may run reserves an executor. */
  lemma Reserve(cfg: Config, run: seq<Core>, c: nat, e: nat) returns (longer: seq<Core>)
    requires IsSchedule(cfg, run)
    requires var k := run[|run| - 1];
             MayStart(cfg, k, c) && e < cfg.n && !k.s.execs[e].running && cfg.callers[c].spawns
    ensures IsSchedule(cfg, longer)
    ensures var k := run[|run| - 1];
            longer[|longer| - 1] == Busy(k, c, e, k.s.execs[e].(running := true), Allocated(e))
  {
    ReserveMoves(cfg, run[|run| - 1], c, e);
    longer := Extend(cfg, run, TryAllocate(c, e));
  }

  // ----- a wakeup left over from before the reservation, and a dispatcher that comes late

  /** Executor 0 is reserved and pending but holds no future, and the dispatcher may come. */
  ghost predicate Trap(cfg: Config, k: Core, c: nat) {
    && k.s.disp.Idle? && k.s.irq && k.stack == [Call(c)] && Prio(cfg, Call(c)) < cfg.dispatcher
    && |k.s.execs| > 0 && k.s.execs[0].running && k.s.execs[0].pending && !k.s.execs[0].task.Live?
  }

  lemma DispatcherFallsIn(cfg: Config, trapped: seq<Core>, c: nat) returns (run: seq<Core>)
    requires IsSchedule(cfg, trapped) && Trap(cfg, trapped[|trapped| - 1], c)
    ensures IsSchedule(cfg, run) && run[|run| - 1].s.dead
  {
    run := Extend(cfg, trapped, Enter);
    run := Extend(cfg, run, Dispatch);
    run := Extend(cfg, run, Dispatch);
  }

  lemma StaleDeadPoll(cfg: Config, w: nat, c: nat) returns (run: seq<Core>)
    requires cfg.n > 0 && !cfg.eager && Wakes(cfg, w) && LowSpawner(cfg, c)
    ensures IsSchedule(cfg, run) && run[|run| - 1].s.dead
  {
    run := [Core(Init(cfg.n, |cfg.callers|), [])];
    run := WakeAndPend(cfg, run, w);
    run := Reserve(cfg, run, c, 0);
    run := DispatcherFallsIn(cfg, run, c);
  }

  // ----- a wakeup by more urgent code in the middle of the spawn

  lemma PreemptedDeadPoll(cfg: Config, c: nat, d: nat) returns (run: seq<Core>)
    requires cfg.n > 0 && LowSpawner(cfg, c) && Wakes(cfg, d) && cfg.callers[d].prio > cfg.callers[c].prio
    ensures IsSchedule(cfg, run) && run[|run| - 1].s.dead
  {
    run := [Core(Init(cfg.n, |cfg.callers|), [])];
    run := Reserve(cfg, run, c, 0);
    run := WakeAndPend(cfg, run, d);
    run := DispatcherFallsIn(cfg, run, c);
  }

  // ----- a wakeup left over, and a spawn of another task in the middle of the spawn

  /** The dispatcher passes executors that do not run, and leaves their pending flags. */
  lemma {:induction false} PassIdle(cfg: Config, run: seq<Core>, i: nat) returns (longer: seq<Core>)
    requires IsSchedule(cfg, run)
    requires var k := run[|run| - 1];
             && i <= |k.s.execs| && k.s.disp == AtRunning(i) && OnTop(k.stack, Disp)
             && forall e :: 0 <= e < |k.s.execs| ==> !k.s.execs[e].running
    ensures IsSchedule(cfg, longer)
    ensures var k := run[|run| - 1]; longer[|longer| - 1] == Core(k.s.(disp := Idle), Pop(k.stack))
    decreases |run[|run| - 1].s.execs| - i
  {
    longer := Extend(cfg, run, Dispatch);
    if i < |run[|run| - 1].s.execs| {
      longer := PassIdle(cfg, longer, i + 1);
    }
  }

  /** A wakeup of a task that does not run stays behind in its flag. */
  lemma LeaveWakeup(cfg: Config, w: nat) returns (run: seq<Core>)
    requires cfg.n > 0 && Wakes(cfg, w)
    ensures IsSchedule(cfg, run)
    ensures var s := Init(cfg.n, |cfg.callers|);
            run[|run| - 1] == Core(s.(execs := s.execs[0 := Exec(false, true, Empty)]), [])
  {
    run := [Core(Init(cfg.n, |cfg.callers|), [])];
    run := WakeAndPend(cfg, run, w);
    run := Extend(cfg, run, Enter);
    run := PassIdle(cfg, run, 0);
  }

  /** Caller `d` has reserved executor `e`, runs on, and ends its spawn. */
  lemma FinishSpawn(cfg: Config, run: seq<Core>, k: Core, d: nat, e: nat) returns (longer: seq<Core>)
    requires IsSchedule(cfg, run) && e < |k.s.execs| && d < |k.s.callers| && k.s.callers[d].Quiet? && !k.s.irq
    requires run[|run| - 1] == Busy(k, d, e, k.s.execs[e].(running := true), Allocated(e))
    ensures IsSchedule(cfg, longer)
    ensures longer[|longer| - 1]
         == k.(s := k.s.(execs := k.s.execs[e := Exec(true, true, Live(k.s.spawned))],
                         spawned := k.s.spawned + 1, irq := true))
  {
    longer := Extend(cfg, run, Write(d));
    longer := Extend(cfg, longer, SetPending(d));
    PendMoves(cfg, longer[|longer| - 1], d);
    longer := Extend(cfg, longer, PendIrq(d));
    BackAgain(k, d, Flagged(e));
  }

  lemma DisturbedDeadPoll(cfg: Config, w: nat, c: nat, d: nat) returns (run: seq<Core>)
    requires cfg.n >= 2 && Wakes(cfg, w) && LowSpawner(cfg, c)
    requires d < |cfg.callers| && cfg.callers[d].spawns && cfg.callers[d].prio > cfg.callers[c].prio
    ensures IsSchedule(cfg, run) && run[|run| - 1].s.dead
  {
    run := LeaveWakeup(cfg, w);
    run := Reserve(cfg, run, c, 0);
    var k := run[|run| - 1];
    run := Reserve(cfg, run, d, 1);
    run := FinishSpawn(cfg, run, k, d, 1);
    run := DispatcherFallsIn(cfg, run, c);
  }

  // ----- the exact condition

  ghost predicate CanPollDead(cfg: Config) {
    exists run: seq<Core> :: IsSchedule(cfg, run) && run[|run| - 1].s.dead
  }

  lemma ExposedCanPollDead(cfg: Config)
    requires Exposed(cfg)
    ensures CanPollDead(cfg)
  {
    var w: nat :| Wakes(cfg, w);
    var c: nat :| ExposedBy(cfg, c);
    var run: seq<Core>;
    if !cfg.eager {
      run := StaleDeadPoll(cfg, w, c);
    } else {
      var d: nat :| Disturbs(cfg, d, c);
      if cfg.callers[d].wakes {
        run := PreemptedDeadPoll(cfg, c, d);
      } else {
        run := DisturbedDeadPoll(cfg, w, c, d);
      }
    }
    assert IsSchedule(cfg, run);
  }

  /** For any tasks and callers, a dead future can be polled if and only if the application is exposed. */
  lemma DeadPollsIffExposed(cfg: Config)
    ensures CanPollDead(cfg) <==> Exposed(cfg)
  {
    if Exposed(cfg) { ExposedCanPollDead(cfg); }
    forall run: seq<Core> | IsSchedule(cfg, run) && run[|run| - 1].s.dead ensures Exposed(cfg) {
      ScheduleKeeps(cfg, run, |run| - 1);
    }
  }
}
