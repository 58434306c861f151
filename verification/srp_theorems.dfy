/** What the Stack Resource Policy guarantees in every execution of an application. */
module SrpTheorems {
  import opened Analysis
  import opened Ownership
  import opened Acceptance
  import opened LockBackend
  import opened Priority
  import opened Scheduler
  import opened Srp

  /**
  Tasks `a` and `b` lock the same resource below ceiling 4, and source masking cannot keep the
  more urgent `b` from preempting `a` there.
  */
  ghost predicate Conflict(cfg: Config, a: nat, b: nat, r: Name) {
    && cfg.backend.Masking? && Locks(cfg, a, r) && Locks(cfg, b, r) && Ceiling(cfg, r) < 4
    && PriorityOf(cfg, a) < PriorityOf(cfg, b) && !MaskableTask(cfg, b)
  }

  /** With BASEPRI there never is a conflict. */
  ghost predicate NoConflict(cfg: Config) {
    forall a, b, r :: !Conflict(cfg, a, b, r)
  }

  /** The frames inside a lock of `r`. */
  ghost predicate Inside(c: Cpu, i: nat, r: Name) {
    exists k :: 0 <= k < |c.locks| && c.locks[k].owner == i && c.locks[k].res == r
  }

  /** A task never runs above a lock of a resource that it locks itself. */
  lemma NotMineBelow(cfg: Config, a: nat, f: Frame, l: Held)
    requires NoConflict(cfg) && Above(cfg, f, l) && f.prio == PriorityOf(cfg, f.task)
    requires Locks(cfg, a, l.res) && PriorityOf(cfg, a) < f.prio && l.ceiling == Ceiling(cfg, l.res)
    ensures !Locks(cfg, f.task, l.res)
  {
    assert !Conflict(cfg, a, f.task, l.res);
    if Locks(cfg, f.task, l.res) {
      CeilingCoversTask(cfg, f.task, l.res);
    }
  }

  lemma HeldByOne(cfg: Config, c: Cpu, k: nat, l: nat)
    requires Inv(cfg, c) && NoConflict(cfg) && k < l < |c.locks|
    ensures c.locks[k].res != c.locks[l].res
  {
    var a, b := c.locks[k], c.locks[l];
    if a.owner != b.owner {
      OwnersOrdered(cfg, c, k, l);
      assert Above(cfg, c.stack[b.owner], a);
      NotMineBelow(cfg, c.stack[a.owner].task, c.stack[b.owner], a);
    }
  }

  /** Locks taken later belong to the same frame or to one further up, which started after them. */
  lemma OwnersOrdered(cfg: Config, c: Cpu, k: nat, l: nat)
    requires Inv(cfg, c) && k < l < |c.locks| && c.locks[k].owner != c.locks[l].owner
    ensures c.locks[k].owner < c.locks[l].owner && k < c.stack[c.locks[l].owner].depth
  {
    assert !(k < c.stack[c.locks[k].owner].depth);
    assert c.locks[l].owner < c.locks[k].owner <==> l < c.stack[c.locks[k].owner].depth;
  }

  /** No two tasks on the stack are ever inside a lock of the same resource. */
  lemma MutualExclusion(cfg: Config, run: seq<Cpu>, n: nat, i: nat, j: nat, r: Name)
    requires ValidConfig(cfg) && NoConflict(cfg) && IsRun(cfg, run) && n < |run|
    requires Inside(run[n], i, r) && Inside(run[n], j, r)
    ensures i == j
  {
    RunKeepsInv(cfg, run, n);
    var c := run[n];
    var k :| 0 <= k < |c.locks| && c.locks[k].owner == i && c.locks[k].res == r;
    var l :| 0 <= l < |c.locks| && c.locks[l].owner == j && c.locks[l].res == r;
    if k < l { HeldByOne(cfg, c, k, l); }
    if l < k { HeldByOne(cfg, c, l, k); }
  }

  /** The locks below the top frame are of resources that its task does not lock. */
  lemma NothingOfMineBelow(cfg: Config, c: Cpu, r: Name)
    requires Shape(cfg, c.stack, c.locks) && CeilingInv(cfg, c.stack, c.locks) && NoConflict(cfg)
    requires c.stack != [] && Locks(cfg, Top(c).task, r)
    ensures forall k :: 0 <= k < Top(c).depth && k < |c.locks| ==> c.locks[k].res != r
  {
    var top := |c.stack| - 1;
    var f := c.stack[top];
    forall k | 0 <= k < f.depth && k < |c.locks| ensures c.locks[k].res != r {
      assert c.locks[k].owner < top;
      assert Above(cfg, f, c.locks[k]);
      NotMineBelow(cfg, c.stack[c.locks[k].owner].task, f, c.locks[k]);
    }
  }

  lemma LockIsFree(cfg: Config, c: Cpu, r: Name)
    requires ValidConfig(cfg) && NoConflict(cfg) && Inv(cfg, c)
    requires c.stack != [] && Locks(cfg, Top(c).task, r) && !Inside(c, |c.stack| - 1, r)
    ensures forall i: nat :: !Inside(c, i, r)
    ensures Enabled(cfg, c, Lock(r))
  {
    NothingOfMineBelow(cfg, c, r);
    forall k | 0 <= k < |c.locks| ensures c.locks[k].res != r {
      assert c.locks[k].owner < |c.stack| - 1 <==> k < c.stack[|c.stack| - 1].depth;
    }
  }

  /**
  A started task never waits: whenever it is about to lock a resource that it is not inside of
  itself, nobody is inside of it.
  */
  lemma LocksAreFree(cfg: Config, run: seq<Cpu>, n: nat, r: Name)
    requires ValidConfig(cfg) && NoConflict(cfg) && IsRun(cfg, run) && n < |run|
    requires run[n].stack != [] && Locks(cfg, Top(run[n]).task, r) && !Inside(run[n], |run[n].stack| - 1, r)
    ensures forall i: nat :: !Inside(run[n], i, r)
    ensures Enabled(cfg, run[n], Lock(r))
  {
    RunKeepsInv(cfg, run, n);
    LockIsFree(cfg, run[n], r);
  }

  lemma Extend(cfg: Config, run: seq<Cpu>, st: Step) returns (longer: seq<Cpu>)
    requires IsRun(cfg, run) && Enabled(cfg, run[|run| - 1], st)
    ensures IsRun(cfg, longer) && longer == run + [Apply(cfg, run[|run| - 1], st)]
  {
    longer := run + [Apply(cfg, run[|run| - 1], st)];
    forall i | 0 <= i < |longer| - 1 ensures Next(cfg, longer[i], longer[i + 1]) {
      if i + 1 < |run| {
        assert Next(cfg, run[i], run[i + 1]);
      } else {
        assert Enabled(cfg, longer[i], st);
      }
    }
  }

  /**
  Lock-free resources are used without any lock; in an accepted application no two tasks on
  the stack use the same one.
  */
  lemma LockFreeExclusion(cfg: Config, run: seq<Cpu>, n: nat, i: nat, j: nat, r: Name)
    requires ValidConfig(cfg) && IsRun(cfg, run) && n < |run|
    requires i < |run[n].stack| && j < |run[n].stack|
    requires LockFreeSafe(cfg.tasks, r)
    requires run[n].stack[i].task < |cfg.tasks| && Declares(cfg.tasks[run[n].stack[i].task], r)
    requires run[n].stack[j].task < |cfg.tasks| && Declares(cfg.tasks[run[n].stack[j].task], r)
    ensures i == j
  {
    RunKeepsInv(cfg, run, n);
    var s := run[n].stack;
    LockFreeUsersAgree(cfg.tasks, r, s[i].task, s[j].task);
    assert s[i].prio == s[j].prio;
  }

  /** Frame `i` is inside an access to `r`: in a lock, or anywhere in a task that uses a lock-free `r`. */
  ghost predicate Accesses(app: App, c: Cpu, i: nat, r: Name) {
    || Inside(c, i, r)
    || (&& r in app.sharedResources && app.sharedResources[r].lockFree
        && i < |c.stack| && c.stack[i].task < |Tasks(app)| && Declares(Tasks(app)[c.stack[i].task], r))
  }

  /** The configurations of BASEPRI cores meet the assumptions of the theorems. */
  lemma BasepriIsValid(app: App, bits: nat, vectors: seq<Vector>, enabled: set<nat>)
    requires 1 <= bits <= 7 && forall t :: t in Tasks(app) ==> t.Priority() <= Pow2(bits)
    requires var cfg := ConfigOf(app, Basepri(Pow2(bits), HwTable(bits)), vectors, enabled);
             forall t, u :: IsAsync(cfg, t) && IsAsync(cfg, u) && PriorityOf(cfg, t) == PriorityOf(cfg, u) ==>
               VectorOf(cfg, t) == VectorOf(cfg, u)
    ensures var cfg := ConfigOf(app, Basepri(Pow2(bits), HwTable(bits)), vectors, enabled);
            ValidConfig(cfg) && NoConflict(cfg)
  {
    CoresAreValid(bits, []);
    var cfg := ConfigOf(app, Basepri(Pow2(bits), HwTable(bits)), vectors, enabled);
    forall t: nat ensures PriorityOf(cfg, t) <= cfg.backend.levels {
      if t < |cfg.tasks| { assert cfg.tasks[t] in Tasks(app); }
    }
  }

  /**
  From the application to the hardware: with the ceilings of the analysis, in an application whose
  lock-free resources were accepted, no two tasks on the stack ever access the same resource.
  */
  lemma ApplicationIsRaceFree(app: App, b: Backend, vectors: seq<Vector>, enabled: set<nat>,
                              run: seq<Cpu>, n: nat, i: nat, j: nat, r: Name)
    requires LockFreeAccepted(app)
    requires var cfg := ConfigOf(app, b, vectors, enabled);
             && ValidConfig(cfg) && NoConflict(cfg) && IsRun(cfg, run) && n < |run|
             && Accesses(app, run[n], i, r) && Accesses(app, run[n], j, r)
    ensures i == j
  {
    var cfg := ConfigOf(app, b, vectors, enabled);
    RunKeepsInv(cfg, run, n);
    if r in cfg.lockFree {
      assert forall k :: 0 <= k < |run[n].locks| ==> run[n].locks[k].res != r;
      LockFreeExclusion(cfg, run, n, i, j, r);
    } else {
      MutualExclusion(cfg, run, n, i, j, r);
    }
  }

  /** Lock `k` has the highest ceiling of those that are not maximal. */
  ghost predicate Highest(locks: seq<Held>, levels: nat, k: nat) {
    && k < |locks| && 0 < locks[k].ceiling < levels
    && forall j :: 0 <= j < |locks| && locks[j].ceiling < levels ==> locks[j].ceiling <= locks[k].ceiling
  }

  lemma LevelIsHighest(b: Backend, locks: seq<Held>)
    requires b.Basepri? && forall k :: 0 <= k < |locks| ==> locks[k].ceiling <= b.levels
    ensures Level(b, Ceilings(locks)) > 0 ==>
              exists k: nat :: Highest(locks, b.levels, k) && locks[k].ceiling == Level(b, Ceilings(locks))
    ensures Level(b, Ceilings(locks)) == 0 ==> forall k: nat :: !Highest(locks, b.levels, k)
  {
    var cs := Ceilings(locks);
    LevelIsMax(b, cs);
    assert forall k :: 0 <= k < |locks| ==> cs[k] == locks[k].ceiling;
    if Level(b, cs) > 0 {
      var k: nat :| k < |cs| && cs[k] == Level(b, cs) && !Critical(b, cs[k]);
      assert Highest(locks, b.levels, k);
    }
  }

  lemma BasepriOfLocks(b: Backend, start: Regs, locks: seq<Held>)
    requires ValidBackend(b) && b.Basepri? && start.basepri == 0
    requires forall k :: 0 <= k < |locks| ==> locks[k].ceiling <= b.levels
    ensures var basepri := After(b, start, Ceilings(locks)).basepri;
            && (basepri != 0 ==> exists k: nat :: Highest(locks, b.levels, k) && basepri == Hw(b, locks[k].ceiling))
            && (basepri == 0 ==> forall k: nat :: !Highest(locks, b.levels, k))
  {
    BasepriEncodesLevel(b, start, Ceilings(locks));
    LevelIsHighest(b, locks);
  }

  lemma PrimaskOfLocks(b: Backend, start: Regs, locks: seq<Held>)
    requires b.Basepri? && !start.primask
    ensures After(b, start, Ceilings(locks)).primask <==> exists k :: 0 <= k < |locks| && locks[k].ceiling == b.levels
  {
    PrimaskMeansCritical(b, start, Ceilings(locks));
    assert forall k :: 0 <= k < |locks| ==> Ceilings(locks)[k] == locks[k].ceiling;
  }

  /**
  With BASEPRI, in every reachable state: the register holds the hardware priority of the highest
  held ceiling below the maximal one, or 0, and interrupts are off iff a maximal one is held.
  */
  lemma BasepriTracksCeilings(cfg: Config, run: seq<Cpu>, n: nat)
    requires ValidConfig(cfg) && cfg.backend.Basepri? && IsRun(cfg, run) && n < |run|
    ensures var c, levels := run[n], cfg.backend.levels;
            && (c.regs.basepri != 0 ==>
                  exists k: nat :: Highest(c.locks, levels, k) && c.regs.basepri == Hw(cfg.backend, c.locks[k].ceiling))
            && (c.regs.basepri == 0 ==> forall k: nat :: !Highest(c.locks, levels, k))
            && (c.regs.primask <==> exists k :: 0 <= k < |c.locks| && c.locks[k].ceiling == levels)
  {
    RunKeepsInv(cfg, run, n);
    RegsOfCeilings(cfg, run[n]);
    BasepriOfLocks(cfg.backend, StartRegs(cfg), run[n].locks);
    PrimaskOfLocks(cfg.backend, StartRegs(cfg), run[n].locks);
  }

  lemma RunningDoesNotMatter(b: Backend, r: Regs, running: nat, prio: nat, v: Vector)
    requires ValidBackend(b) && running < prio <= b.levels
    ensures CanPreempt(b, r, running, prio, v) <==> CanPreempt(b, r, 0, prio, v)
  {
  }

  /** Always true with BASEPRI; under source masking, an enabled interrupt that the tables list at its priority. */
  ghost predicate Steerable(cfg: Config, t: nat) {
    cfg.backend.Masking? ==>
      && VectorOf(cfg, t).Interrupt? && VectorOf(cfg, t).id in cfg.enabled
      && ListedAt(cfg.backend.vectors, VectorOf(cfg, t).id, PriorityOf(cfg, t))
  }

  /** The registers under any ceilings let such a task through from thread mode exactly if it beats all of them. */
  lemma LetThroughIffAbove(cfg: Config, cs: seq<nat>, t: nat)
    requires ValidConfig(cfg) && Steerable(cfg, t) && PriorityOf(cfg, t) > 0
    requires forall k :: 0 <= k < |cs| ==> cs[k] <= cfg.backend.levels
    ensures CanPreempt(cfg.backend, After(cfg.backend, StartRegs(cfg), cs), 0, PriorityOf(cfg, t), VectorOf(cfg, t))
       <==> (forall k :: 0 <= k < |cs| ==> cs[k] < PriorityOf(cfg, t))
  {
    if cfg.backend.Basepri? {
      MaskedExactlyByCeilings(cfg.backend, StartRegs(cfg), cs, PriorityOf(cfg, t), VectorOf(cfg, t));
    } else {
      MaskedExactlyAtTheSource(cfg.backend, StartRegs(cfg), cs, PriorityOf(cfg, t), VectorOf(cfg, t).id);
    }
  }

  lemma UrgentStartsIff(cfg: Config, c: Cpu, t: nat)
    requires ValidConfig(cfg) && t < |cfg.tasks| && Steerable(cfg, t) && PriorityOf(cfg, t) > Top(c).prio
    requires c.regs == After(cfg.backend, StartRegs(cfg), Ceilings(c.locks))
    requires forall k :: 0 <= k < |c.locks| ==> Ceilings(c.locks)[k] <= cfg.backend.levels
    ensures Enabled(cfg, c, Start(t)) <==> forall k :: 0 <= k < |c.locks| ==> c.locks[k].ceiling < PriorityOf(cfg, t)
  {
    LetThroughIffUrgent(cfg, Ceilings(c.locks), Top(c).prio, t);
    CeilingsBelow(c.locks, PriorityOf(cfg, t));
  }

  lemma LetThroughIffUrgent(cfg: Config, cs: seq<nat>, running: nat, t: nat)
    requires ValidConfig(cfg) && Steerable(cfg, t) && PriorityOf(cfg, t) > running
    requires forall k :: 0 <= k < |cs| ==> cs[k] <= cfg.backend.levels
    ensures CanPreempt(cfg.backend, After(cfg.backend, StartRegs(cfg), cs), running,
                       PriorityOf(cfg, t), VectorOf(cfg, t))
       <==> (forall k :: 0 <= k < |cs| ==> cs[k] < PriorityOf(cfg, t))
  {
    var r := After(cfg.backend, StartRegs(cfg), cs);
    RunningDoesNotMatter(cfg.backend, r, running, PriorityOf(cfg, t), VectorOf(cfg, t));
    LetThroughIffAbove(cfg, cs, t);
  }

  lemma CeilingsBelow(locks: seq<Held>, p: nat)
    ensures (forall k :: 0 <= k < |locks| ==> Ceilings(locks)[k] < p)
       <==> (forall k :: 0 <= k < |locks| ==> locks[k].ceiling < p)
  {
    assert forall k :: 0 <= k < |locks| ==> Ceilings(locks)[k] == locks[k].ceiling;
  }

  /**
  The whole policy in one equivalence, for both backends: a handler starts if and only if it is
  more urgent than what runs and beats every held ceiling.
  */
  lemma StartsIffAboveAllCeilings(cfg: Config, run: seq<Cpu>, n: nat, t: nat)
    requires ValidConfig(cfg) && IsRun(cfg, run) && n < |run|
    requires t < |cfg.tasks| && PriorityOf(cfg, t) > 0 && Steerable(cfg, t)
    ensures Enabled(cfg, run[n], Start(t))
       <==> && PriorityOf(cfg, t) > Top(run[n]).prio
            && forall k :: 0 <= k < |run[n].locks| ==> run[n].locks[k].ceiling < PriorityOf(cfg, t)
  {
    RunKeepsInv(cfg, run, n);
    if PriorityOf(cfg, t) > Top(run[n]).prio {
      RegsOfCeilings(cfg, run[n]);
      UrgentStartsIff(cfg, run[n], t);
    } else if Enabled(cfg, run[n], Start(t)) {
      StarterBeatsCeilings(cfg, run[n], t);
    }
  }

  /** The value `run` writes back when a handler returns is the one BASEPRI already has. */
  lemma RunShortcut(cfg: Config, run: seq<Cpu>, n: nat)
    requires ValidConfig(cfg) && IsRun(cfg, run) && n < |run| && Enabled(cfg, run[n], Finish)
    ensures Apply(cfg, run[n], Finish).regs == run[n].regs
    ensures cfg.backend.Basepri? && Top(run[n]).prio == 1 ==> Top(run[n]).entry == 0
  {
    RunKeepsInv(cfg, run, n);
    RunRestoresWhatIsThere(cfg, run[n]);
  }

  // ----- source masking

  /**
  Source masking: while a lock below ceiling 4 is held, every interrupt its mask covers stays
  disabled, whatever nests inside or preempts.
  */
  lemma MaskedStayDisabled(cfg: Config, run: seq<Cpu>, n: nat, k: nat, id: nat)
    requires ValidConfig(cfg) && cfg.backend.Masking? && IsRun(cfg, run) && n < |run|
    requires k < |run[n].locks| && run[n].locks[k].ceiling < 4
    requires id in MaskUpTo(cfg.backend.vectors, run[n].locks[k].ceiling)
    ensures id !in run[n].regs.enabled
  {
    RunKeepsInv(cfg, run, n);
    var c := run[n];
    var b := cfg.backend;
    var cs := Ceilings(c.locks);
    RegsOfCeilings(cfg, c);
    EnabledUnlessMasked(b, StartRegs(cfg), cs, id);
    LevelIsMax(b, cs);
    assert cs[k] == c.locks[k].ceiling;
    MaskGrows(b.vectors, c.locks[k].ceiling, LevelUpTo3(b, cs));
  }

  /** Each unlock puts the enable bits back exactly as they were when the lock was entered. */
  lemma UnlockRestores(cfg: Config, run: seq<Cpu>, n: nat)
    requires ValidConfig(cfg) && IsRun(cfg, run) && n < |run| && Enabled(cfg, run[n], Unlock)
    ensures Apply(cfg, run[n], Unlock).regs == run[n].locks[|run[n].locks| - 1].saved
  {
    RunKeepsInv(cfg, run, n);
    UnlockKeepsRegs(cfg, run[n]);
  }

  // ----- where exclusion ends

  /** The mask tables list every interrupt at its priority, and all interrupts are enabled at the start. */
  ghost predicate WellVectored(cfg: Config) {
    forall t: nat :: t < |cfg.tasks| && VectorOf(cfg, t).Interrupt? ==>
      && MaskableTask(cfg, t)
      && VectorOf(cfg, t).id in cfg.enabled
  }

  /** A conflict is enough for two tasks to get inside the same resource. */
  lemma ConflictBreaksExclusion(cfg: Config, a: nat, b: nat, r: Name) returns (run: seq<Cpu>)
    requires ValidConfig(cfg) && WellVectored(cfg) && Conflict(cfg, a, b, r)
    ensures IsRun(cfg, run) && |run| > 0
    ensures Inside(run[|run| - 1], 0, r) && Inside(run[|run| - 1], 1, r)
  {
    assert VectorOf(cfg, b).Exception?;
    run := [Init(cfg)];
    run := Extend(cfg, run, Start(a));
    run := Extend(cfg, run, Lock(r));
    run := Extend(cfg, run, Start(b));
    run := Extend(cfg, run, Lock(r));
    var c := run[|run| - 1];
    assert c.locks[0].owner == 0 && c.locks[1].owner == 1;
  }

  ghost predicate ExclusiveState(c: Cpu) {
    forall i: nat, j: nat, r :: Inside(c, i, r) && Inside(c, j, r) ==> i == j
  }

  /** In no execution two tasks are inside the same resource. */
  ghost predicate Exclusive(cfg: Config) {
    forall run :: IsRun(cfg, run) ==> ExclusiveState(run[|run| - 1])
  }

  /**
  Source masking excludes exactly when no task bound to an exception locks, below ceiling 4,
  a resource that a less urgent task locks too.
  */
  lemma ExclusionExactly(cfg: Config)
    requires ValidConfig(cfg) && WellVectored(cfg)
    ensures Exclusive(cfg) <==> NoConflict(cfg)
  {
    if NoConflict(cfg) {
      forall run | IsRun(cfg, run) ensures ExclusiveState(run[|run| - 1]) {
        var c := run[|run| - 1];
        forall i: nat, j: nat, r | Inside(c, i, r) && Inside(c, j, r) ensures i == j {
          MutualExclusion(cfg, run, |run| - 1, i, j, r);
        }
      }
    } else {
      var a, b, r :| Conflict(cfg, a, b, r);
      var run := ConflictBreaksExclusion(cfg, a, b, r);
      assert !ExclusiveState(run[|run| - 1]);
    }
  }
}
