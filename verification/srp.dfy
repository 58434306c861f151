/**
The invariant of the scheduler: a stack of tasks of growing priority, locks that nest along
it, and registers that are exactly what the held locks make of them.
*/
module Srp {
  import opened Options
  import opened Analysis
  import opened Ownership
  import opened LockBackend
  import opened Scheduler

  /** Priorities grow along the stack, and so do the numbers of locks held below. */
  ghost predicate FrameInv(stack: seq<Frame>, held: nat) {
    && (forall i :: 0 <= i < |stack| ==> stack[i].depth <= held)
    && (forall i, j :: 0 <= i < j < |stack| ==> stack[i].prio < stack[j].prio && stack[i].depth <= stack[j].depth)
  }

  /** Lock `k` belongs to the frame in whose stretch of the lock sequence it lies. */
  ghost predicate OwnerInv(stack: seq<Frame>, locks: seq<Held>) {
    && (forall k :: 0 <= k < |locks| ==> locks[k].owner < |stack|)
    && (forall k, i :: 0 <= k < |locks| && 0 <= i < |stack| ==> (locks[k].owner < i <==> k < stack[i].depth))
    && (forall k, l :: 0 <= k < l < |locks| && locks[k].owner == locks[l].owner ==> locks[k].res != locks[l].res)
  }

  ghost predicate TaskInv(cfg: Config, stack: seq<Frame>) {
    forall i :: 0 <= i < |stack| ==> stack[i].task < |cfg.tasks| && stack[i].prio == PriorityOf(cfg, stack[i].task)
  }

  ghost predicate UseInv(cfg: Config, stack: seq<Frame>, locks: seq<Held>) {
    forall k :: 0 <= k < |locks| && locks[k].owner < |stack| ==>
      Locks(cfg, stack[locks[k].owner].task, locks[k].res) && locks[k].ceiling == Ceiling(cfg, locks[k].res)
  }

  ghost predicate MaskableTask(cfg: Config, t: nat) {
    Maskable(cfg.backend, PriorityOf(cfg, t), VectorOf(cfg, t))
  }

  /** Frame `f` may run above lock `l`: no critical section, and a ceiling that a maskable task beats. */
  ghost predicate Above(cfg: Config, f: Frame, l: Held) {
    !Critical(cfg.backend, l.ceiling) && (MaskableTask(cfg, f.task) ==> l.ceiling < f.prio)
  }

  /** Every task runs above the locks that were held when it started. */
  ghost predicate CeilingInv(cfg: Config, stack: seq<Frame>, locks: seq<Held>) {
    forall k, j :: 0 <= k < |locks| && 0 <= j < |stack| && k < stack[j].depth ==> Above(cfg, stack[j], locks[k])
  }

  /** The registers after entering these locks one inside the other. */
  ghost function RegsAfter(b: Backend, start: Regs, locks: seq<Held>): Regs {
    if locks == [] then start
    else Enter(b, RegsAfter(b, start, locks[..|locks| - 1]), locks[|locks| - 1].ceiling)
  }

  /** Every lock saved the registers as the locks around it had left them. */
  ghost predicate SavedInv(b: Backend, start: Regs, locks: seq<Held>) {
    locks == [] || (SavedInv(b, start, locks[..|locks| - 1])
                    && locks[|locks| - 1].saved == RegsAfter(b, start, locks[..|locks| - 1]))
  }

  ghost predicate EntryInv(b: Backend, start: Regs, stack: seq<Frame>, locks: seq<Held>) {
    forall i :: 0 <= i < |stack| && stack[i].depth <= |locks| ==>
      stack[i].entry == RegsAfter(b, start, locks[..stack[i].depth]).basepri
  }

  ghost predicate Shape(cfg: Config, stack: seq<Frame>, locks: seq<Held>) {
    FrameInv(stack, |locks|) && OwnerInv(stack, locks) && TaskInv(cfg, stack) && UseInv(cfg, stack, locks)
  }

  ghost predicate RegsInv(cfg: Config, c: Cpu) {
    && c.regs == RegsAfter(cfg.backend, StartRegs(cfg), c.locks)
    && SavedInv(cfg.backend, StartRegs(cfg), c.locks)
    && EntryInv(cfg.backend, StartRegs(cfg), c.stack, c.locks)
  }

  ghost predicate Inv(cfg: Config, c: Cpu) {
    Shape(cfg, c.stack, c.locks) && CeilingInv(cfg, c.stack, c.locks) && RegsInv(cfg, c)
  }

  // ----- ceilings

  ghost function Ceilings(locks: seq<Held>): seq<nat> {
    seq(|locks|, i requires 0 <= i < |locks| => locks[i].ceiling)
  }

  lemma {:induction false} RegsAfterIsAfter(b: Backend, start: Regs, locks: seq<Held>)
    ensures RegsAfter(b, start, locks) == After(b, start, Ceilings(locks))
  {
    if locks == [] {
    } else {
      RegsAfterIsAfter(b, start, locks[..|locks| - 1]);
      assert Ceilings(locks)[..|locks| - 1] == Ceilings(locks[..|locks| - 1]);
    }
  }

  /** A ceiling is no lower than the priority of any task that locks the resource. */
  lemma CeilingCoversTask(cfg: Config, t: nat, r: Name)
    requires Locks(cfg, t, r)
    ensures PriorityOf(cfg, t) <= Ceiling(cfg, r)
  {
    var uses := UsesOfAll(cfg.tasks);
    var u := Use(Some(PriorityOf(cfg, t)), r, Exclusive);
    UsesOfAllMembers(cfg.tasks, u);
    assert cfg.tasks[t] in cfg.tasks;
    assert u in uses;
    CeilingIsTheMaximum(uses, r);
  }

  /** A ceiling is the priority of some task, or 0. */
  lemma CeilingBounded(cfg: Config, r: Name)
    requires ValidConfig(cfg)
    ensures Ceiling(cfg, r) <= cfg.backend.levels
  {
    var uses := UsesOfAll(cfg.tasks);
    if Prios(uses, r) != [] {
      var u := AnyUse(uses, r);
      CeilingIsTheMaximum(uses, r);
      var w :| w in uses && w.name == r && w.priority == Some(CeilingIn(uses, r));
      UsesOfAllMembers(cfg.tasks, w);
      var t :| t in cfg.tasks && w.priority == Some(t.Priority());
      var i :| 0 <= i < |cfg.tasks| && cfg.tasks[i] == t;
      assert PriorityOf(cfg, i) <= cfg.backend.levels;
    }
  }

  lemma CeilingsBounded(cfg: Config, stack: seq<Frame>, locks: seq<Held>)
    requires ValidConfig(cfg) && OwnerInv(stack, locks) && UseInv(cfg, stack, locks)
    ensures forall k :: 0 <= k < |locks| ==> Ceilings(locks)[k] <= cfg.backend.levels
  {
    forall k | 0 <= k < |locks| ensures locks[k].ceiling <= cfg.backend.levels {
      CeilingBounded(cfg, locks[k].res);
    }
  }

  /** The held ceilings are within reach and the registers are what they make of them. */
  lemma RegsOfCeilings(cfg: Config, c: Cpu)
    requires ValidConfig(cfg) && Inv(cfg, c)
    ensures forall k :: 0 <= k < |c.locks| ==>
              Ceilings(c.locks)[k] == c.locks[k].ceiling && Ceilings(c.locks)[k] <= cfg.backend.levels
    ensures c.regs == After(cfg.backend, StartRegs(cfg), Ceilings(c.locks))
  {
    CeilingsBounded(cfg, c.stack, c.locks);
    RegsAfterIsAfter(cfg.backend, StartRegs(cfg), c.locks);
  }

  // ----- one step: stack and locks

  lemma PushFrame(cfg: Config, stack: seq<Frame>, f: Frame, locks: seq<Held>)
    requires Shape(cfg, stack, locks) && f.depth == |locks|
    requires f.task < |cfg.tasks| && f.prio == PriorityOf(cfg, f.task)
    requires stack != [] ==> stack[|stack| - 1].prio < f.prio
    ensures Shape(cfg, stack + [f], locks)
  {
    PushFrameOwners(stack, f, locks);
    var s' := stack + [f];
    assert forall i :: 0 <= i < |stack| ==> s'[i] == stack[i];
    assert forall k :: 0 <= k < |locks| ==> locks[k].owner < |stack|;
  }

  lemma PushFrameOwners(stack: seq<Frame>, f: Frame, locks: seq<Held>)
    requires FrameInv(stack, |locks|) && OwnerInv(stack, locks) && f.depth == |locks|
    requires stack != [] ==> stack[|stack| - 1].prio < f.prio
    ensures FrameInv(stack + [f], |locks|) && OwnerInv(stack + [f], locks)
  {
    var s' := stack + [f];
    assert forall i :: 0 <= i < |stack| ==> s'[i] == stack[i];
  }

  lemma PushFrameCeilings(cfg: Config, stack: seq<Frame>, f: Frame, locks: seq<Held>)
    requires CeilingInv(cfg, stack, locks)
    requires forall k :: 0 <= k < |locks| ==> Above(cfg, f, locks[k])
    ensures CeilingInv(cfg, stack + [f], locks)
  {
    var s' := stack + [f];
    assert forall i :: 0 <= i < |stack| ==> s'[i] == stack[i];
  }

  lemma PopFrame(cfg: Config, stack: seq<Frame>, locks: seq<Held>)
    requires Shape(cfg, stack, locks) && CeilingInv(cfg, stack, locks)
    requires stack != [] && stack[|stack| - 1].depth == |locks|
    ensures Shape(cfg, stack[..|stack| - 1], locks) && CeilingInv(cfg, stack[..|stack| - 1], locks)
  {
    var s' := stack[..|stack| - 1];
    assert forall i :: 0 <= i < |s'| ==> s'[i] == stack[i];
    assert forall k :: 0 <= k < |locks| ==> locks[k].owner < |stack| - 1;
  }

  lemma SwitchTop(cfg: Config, stack: seq<Frame>, locks: seq<Held>, t: nat)
    requires Shape(cfg, stack, locks) && CeilingInv(cfg, stack, locks)
    requires stack != [] && stack[|stack| - 1].depth == |locks|
    requires t < |cfg.tasks| && PriorityOf(cfg, t) == stack[|stack| - 1].prio
    requires VectorOf(cfg, t) == VectorOf(cfg, stack[|stack| - 1].task)
    ensures var s' := stack[|stack| - 1 := stack[|stack| - 1].(task := t)];
            Shape(cfg, s', locks) && CeilingInv(cfg, s', locks)
  {
    var f := stack[|stack| - 1].(task := t);
    PopFrame(cfg, stack, locks);
    var below := stack[..|stack| - 1];
    assert stack[|stack| - 1 := f] == below + [f];
    PushFrame(cfg, below, f, locks);
    assert MaskableTask(cfg, t) == MaskableTask(cfg, stack[|stack| - 1].task);
    assert forall k :: 0 <= k < |locks| ==> Above(cfg, stack[|stack| - 1], locks[k]);
    PushFrameCeilings(cfg, below, f, locks);
  }

  lemma PushLockOwner(stack: seq<Frame>, locks: seq<Held>, l: Held)
    requires FrameInv(stack, |locks|) && OwnerInv(stack, locks) && stack != [] && l.owner == |stack| - 1
    requires forall k :: stack[|stack| - 1].depth <= k < |locks| ==> locks[k].res != l.res
    ensures FrameInv(stack, |locks + [l]|) && OwnerInv(stack, locks + [l])
  {
    var locks' := locks + [l];
    assert forall k :: 0 <= k < |locks| ==> locks'[k] == locks[k];
    assert forall k :: 0 <= k < |locks| && locks[k].owner == l.owner ==> stack[|stack| - 1].depth <= k;
  }

  lemma PushLock(cfg: Config, stack: seq<Frame>, locks: seq<Held>, l: Held)
    requires Shape(cfg, stack, locks) && CeilingInv(cfg, stack, locks) && stack != []
    requires l.owner == |stack| - 1 && Locks(cfg, stack[l.owner].task, l.res) && l.ceiling == Ceiling(cfg, l.res)
    requires forall k :: stack[|stack| - 1].depth <= k < |locks| ==> locks[k].res != l.res
    ensures Shape(cfg, stack, locks + [l]) && CeilingInv(cfg, stack, locks + [l])
  {
    PushLockOwner(stack, locks, l);
    var locks' := locks + [l];
    assert forall k :: 0 <= k < |locks| ==> locks'[k] == locks[k];
    assert UseInv(cfg, stack, locks');
    assert CeilingInv(cfg, stack, locks');
  }

  lemma PopLock(cfg: Config, stack: seq<Frame>, locks: seq<Held>)
    requires Shape(cfg, stack, locks) && CeilingInv(cfg, stack, locks) && stack != []
    requires |locks| > stack[|stack| - 1].depth
    ensures Shape(cfg, stack, locks[..|locks| - 1]) && CeilingInv(cfg, stack, locks[..|locks| - 1])
  {
    var locks' := locks[..|locks| - 1];
    assert forall k :: 0 <= k < |locks'| ==> locks'[k] == locks[k];
    assert forall i :: 0 <= i < |stack| ==> stack[i].depth <= stack[|stack| - 1].depth;
  }

  // ----- one step: registers

  lemma EntryPush(b: Backend, start: Regs, stack: seq<Frame>, locks: seq<Held>, l: Held)
    requires EntryInv(b, start, stack, locks) && FrameInv(stack, |locks|)
    ensures EntryInv(b, start, stack, locks + [l])
  {
    forall i | 0 <= i < |stack|
      ensures stack[i].entry == RegsAfter(b, start, (locks + [l])[..stack[i].depth]).basepri
    {
      assert (locks + [l])[..stack[i].depth] == locks[..stack[i].depth];
    }
  }

  lemma EntryPop(b: Backend, start: Regs, stack: seq<Frame>, locks: seq<Held>)
    requires EntryInv(b, start, stack, locks) && locks != []
    ensures EntryInv(b, start, stack, locks[..|locks| - 1])
  {
    var n := |locks| - 1;
    forall i | 0 <= i < |stack| && stack[i].depth <= n
      ensures stack[i].entry == RegsAfter(b, start, locks[..n][..stack[i].depth]).basepri
    {
      assert locks[..n][..stack[i].depth] == locks[..stack[i].depth];
    }
  }

  lemma EntryFrame(b: Backend, start: Regs, stack: seq<Frame>, locks: seq<Held>, f: Frame)
    requires EntryInv(b, start, stack, locks)
    requires f.depth == |locks| && f.entry == RegsAfter(b, start, locks).basepri
    ensures EntryInv(b, start, stack + [f], locks)
  {
    assert locks[..|locks|] == locks;
    assert forall i :: 0 <= i < |stack| ==> (stack + [f])[i] == stack[i];
  }

  lemma LockKeepsRegs(cfg: Config, c: Cpu, r: Name)
    requires RegsInv(cfg, c) && FrameInv(c.stack, |c.locks|) && Enabled(cfg, c, Lock(r))
    ensures RegsInv(cfg, Apply(cfg, c, Lock(r)))
  {
    var c' := Apply(cfg, c, Lock(r));
    assert c'.locks[..|c.locks|] == c.locks;
    EntryPush(cfg.backend, StartRegs(cfg), c.stack, c.locks, c'.locks[|c.locks|]);
  }

  /** Leaving the innermost lock brings back the registers of its start. */
  lemma UnlockKeepsRegs(cfg: Config, c: Cpu)
    requires RegsInv(cfg, c) && Enabled(cfg, c, Unlock)
    ensures RegsInv(cfg, Apply(cfg, c, Unlock))
    ensures Apply(cfg, c, Unlock).regs == c.locks[|c.locks| - 1].saved
  {
    var n := |c.locks| - 1;
    LeaveRestores(cfg.backend, RegsAfter(cfg.backend, StartRegs(cfg), c.locks[..n]), c.locks[n].ceiling);
    EntryPop(cfg.backend, StartRegs(cfg), c.stack, c.locks);
  }

  // ----- the steps

  lemma StarterSeesNoCriticalSection(cfg: Config, c: Cpu, t: nat)
    requires RegsInv(cfg, c) && Enabled(cfg, c, Start(t)) && PriorityOf(cfg, t) > 0
    ensures forall k :: 0 <= k < |c.locks| ==> !Critical(cfg.backend, c.locks[k].ceiling)
  {
    var cs := Ceilings(c.locks);
    RegsAfterIsAfter(cfg.backend, StartRegs(cfg), c.locks);
    PrimaskMeansCritical(cfg.backend, StartRegs(cfg), cs);
    assert forall k :: 0 <= k < |c.locks| ==> cs[k] == c.locks[k].ceiling;
  }

  lemma RunningFits(cfg: Config, c: Cpu)
    requires ValidConfig(cfg) && TaskInv(cfg, c.stack)
    ensures Top(c).prio <= cfg.backend.levels
  {
    if c.stack != [] { assert Top(c).prio == PriorityOf(cfg, Top(c).task); }
  }

  lemma PreemptorBeats(cfg: Config, cs: seq<nat>, running: nat, t: nat)
    requires ValidConfig(cfg) && PriorityOf(cfg, t) > 0 && running <= cfg.backend.levels
    requires forall k :: 0 <= k < |cs| ==> cs[k] <= cfg.backend.levels
    requires CanPreempt(cfg.backend, After(cfg.backend, StartRegs(cfg), cs), running,
                        PriorityOf(cfg, t), VectorOf(cfg, t))
    ensures running < PriorityOf(cfg, t)
    ensures MaskableTask(cfg, t) ==> forall k :: 0 <= k < |cs| ==> cs[k] < PriorityOf(cfg, t)
  {
    if MaskableTask(cfg, t) {
      PreemptorBeatsCeilings(cfg.backend, StartRegs(cfg), cs, running, PriorityOf(cfg, t), VectorOf(cfg, t));
    }
  }

  /** The registers of a state decide as `LockBackend` proves about the held ceilings. */
  lemma StarterBeatsCeilings(cfg: Config, c: Cpu, t: nat)
    requires ValidConfig(cfg) && Inv(cfg, c) && Enabled(cfg, c, Start(t)) && PriorityOf(cfg, t) > 0
    ensures c.stack != [] ==> Top(c).prio < PriorityOf(cfg, t)
    ensures MaskableTask(cfg, t) ==> forall k :: 0 <= k < |c.locks| ==> c.locks[k].ceiling < PriorityOf(cfg, t)
  {
    RegsOfCeilings(cfg, c);
    RunningFits(cfg, c);
    var cs := Ceilings(c.locks);
    PreemptorBeats(cfg, cs, Top(c).prio, t);
    assert forall k :: 0 <= k < |c.locks| ==> cs[k] == c.locks[k].ceiling;
  }

  lemma StarterFits(cfg: Config, c: Cpu, t: nat)
    requires ValidConfig(cfg) && Inv(cfg, c) && Enabled(cfg, c, Start(t))
    ensures t < |cfg.tasks|
    ensures c.stack != [] ==> Top(c).prio < PriorityOf(cfg, t)
    ensures forall k :: 0 <= k < |c.locks| ==> Above(cfg, NewFrame(cfg, c, t), c.locks[k])
  {
    if PriorityOf(cfg, t) > 0 {
      StarterBeatsCeilings(cfg, c, t);
      StarterSeesNoCriticalSection(cfg, c, t);
    } else {
      NoTasksNoLocks(c.stack, c.locks);
    }
  }

  lemma StartAddsFrame(cfg: Config, c: Cpu, t: nat)
    requires Shape(cfg, c.stack, c.locks) && CeilingInv(cfg, c.stack, c.locks) && t < |cfg.tasks|
    requires c.stack != [] ==> Top(c).prio < PriorityOf(cfg, t)
    requires forall k :: 0 <= k < |c.locks| ==> Above(cfg, NewFrame(cfg, c, t), c.locks[k])
    ensures var s' := c.stack + [NewFrame(cfg, c, t)];
            Shape(cfg, s', c.locks) && CeilingInv(cfg, s', c.locks)
  {
    PushFrame(cfg, c.stack, NewFrame(cfg, c, t), c.locks);
    PushFrameCeilings(cfg, c.stack, NewFrame(cfg, c, t), c.locks);
  }

  lemma StartKeepsShape(cfg: Config, c: Cpu, t: nat)
    requires ValidConfig(cfg) && Inv(cfg, c) && Enabled(cfg, c, Start(t))
    ensures var c' := Apply(cfg, c, Start(t)); Shape(cfg, c'.stack, c'.locks) && CeilingInv(cfg, c'.stack, c'.locks)
  {
    StarterFits(cfg, c, t);
    StartAddsFrame(cfg, c, t);
  }

  lemma StartKeepsRegs(cfg: Config, c: Cpu, t: nat)
    requires RegsInv(cfg, c) && Enabled(cfg, c, Start(t))
    ensures RegsInv(cfg, Apply(cfg, c, Start(t)))
  {
    EntryFrame(cfg.backend, StartRegs(cfg), c.stack, c.locks, NewFrame(cfg, c, t));
  }

  lemma NoTasksNoLocks(stack: seq<Frame>, locks: seq<Held>)
    requires OwnerInv(stack, locks) && stack == []
    ensures locks == []
  {
    assert |locks| > 0 ==> locks[0].owner < |stack|;
  }

  lemma EntrySwitch(b: Backend, start: Regs, stack: seq<Frame>, locks: seq<Held>, t: nat)
    requires EntryInv(b, start, stack, locks) && stack != []
    ensures EntryInv(b, start, stack[|stack| - 1 := stack[|stack| - 1].(task := t)], locks)
  {
  }

  lemma SameDispatcher(cfg: Config, t: nat, u: nat)
    requires ValidConfig(cfg) && IsAsync(cfg, t) && IsAsync(cfg, u) && PriorityOf(cfg, t) == PriorityOf(cfg, u)
    ensures VectorOf(cfg, t) == VectorOf(cfg, u)
  {
  }

  lemma SwitchTarget(cfg: Config, c: Cpu, t: nat)
    requires TaskInv(cfg, c.stack) && Enabled(cfg, c, Switch(t))
    ensures var top := c.stack[|c.stack| - 1];
            && IsAsync(cfg, t) && IsAsync(cfg, top.task) && PriorityOf(cfg, t) == PriorityOf(cfg, top.task) == top.prio
            && top.depth == |c.locks| && t < |cfg.tasks|
  {
  }

  lemma SwitchKeepsShape(cfg: Config, c: Cpu, t: nat)
    requires ValidConfig(cfg) && Shape(cfg, c.stack, c.locks) && CeilingInv(cfg, c.stack, c.locks)
    requires Enabled(cfg, c, Switch(t))
    ensures var c' := Apply(cfg, c, Switch(t)); Shape(cfg, c'.stack, c'.locks) && CeilingInv(cfg, c'.stack, c'.locks)
  {
    SwitchTarget(cfg, c, t);
    SameDispatcher(cfg, t, c.stack[|c.stack| - 1].task);
    SwitchTop(cfg, c.stack, c.locks, t);
  }

  lemma SwitchKeepsRegs(cfg: Config, c: Cpu, t: nat)
    requires RegsInv(cfg, c) && Enabled(cfg, c, Switch(t))
    ensures RegsInv(cfg, Apply(cfg, c, Switch(t)))
  {
    EntrySwitch(cfg.backend, StartRegs(cfg), c.stack, c.locks, t);
  }

  /**
  What `run` writes when a handler returns is what BASEPRI holds already, so the shortcut for
  priority 1 writes the same value as saving and restoring would.
  */
  lemma RunRestoresWhatIsThere(cfg: Config, c: Cpu)
    requires ValidConfig(cfg) && Inv(cfg, c) && Enabled(cfg, c, Finish)
    ensures Top(c).entry == c.regs.basepri
    ensures cfg.backend.Basepri? && Top(c).prio == 1 ==> c.regs.basepri == 0
    ensures AfterRun(cfg.backend, Top(c), c.regs) == c.regs
  {
    assert c.locks[..|c.locks|] == c.locks;
    var i := |c.stack| - 1;
    assert c.stack[i].entry == RegsAfter(cfg.backend, StartRegs(cfg), c.locks[..c.stack[i].depth]).basepri;
    if cfg.backend.Basepri? && Top(c).prio == 1 {
      BasepriZeroBelowPriorityOne(cfg, c);
    }
  }

  lemma BasepriZeroBelowPriorityOne(cfg: Config, c: Cpu)
    requires ValidConfig(cfg) && Inv(cfg, c) && c.stack != [] && |c.locks| == Top(c).depth
    requires cfg.backend.Basepri? && Top(c).prio == 1
    ensures c.regs.basepri == 0
  {
    var i := |c.stack| - 1;
    assert MaskableTask(cfg, c.stack[i].task);
    assert forall k :: 0 <= k < |c.locks| ==> Above(cfg, c.stack[i], c.locks[k]);
    RegsOfCeilings(cfg, c);
    BasepriZeroAtLevelZero(cfg, Ceilings(c.locks));
  }

  lemma BasepriZeroAtLevelZero(cfg: Config, cs: seq<nat>)
    requires ValidConfig(cfg) && cfg.backend.Basepri?
    requires forall k :: 0 <= k < |cs| ==> cs[k] == 0 && !Critical(cfg.backend, cs[k])
    ensures After(cfg.backend, StartRegs(cfg), cs).basepri == 0
  {
    BasepriEncodesLevel(cfg.backend, StartRegs(cfg), cs);
    LevelIsMax(cfg.backend, cs);
  }

  lemma EntryShorter(b: Backend, start: Regs, stack: seq<Frame>, locks: seq<Held>)
    requires EntryInv(b, start, stack, locks) && stack != []
    ensures EntryInv(b, start, stack[..|stack| - 1], locks)
  {
    assert forall i :: 0 <= i < |stack| - 1 ==> stack[..|stack| - 1][i] == stack[i];
  }

  lemma FinishKeepsInv(cfg: Config, c: Cpu)
    requires ValidConfig(cfg) && Inv(cfg, c) && Enabled(cfg, c, Finish)
    ensures Inv(cfg, Apply(cfg, c, Finish))
  {
    RunRestoresWhatIsThere(cfg, c);
    PopFrame(cfg, c.stack, c.locks);
    EntryShorter(cfg.backend, StartRegs(cfg), c.stack, c.locks);
  }

  lemma LockKeepsInv(cfg: Config, c: Cpu, r: Name)
    requires Inv(cfg, c) && Enabled(cfg, c, Lock(r))
    ensures Inv(cfg, Apply(cfg, c, Lock(r)))
  {
    PushLock(cfg, c.stack, c.locks, NewLock(cfg, c, r));
    LockAdds(cfg, c, r);
    LockKeepsRegs(cfg, c, r);
  }

  ghost function NewLock(cfg: Config, c: Cpu, r: Name): Held
    requires c.stack != []
  {
    Held(|c.stack| - 1, r, Ceiling(cfg, r), c.regs)
  }

  lemma LockAdds(cfg: Config, c: Cpu, r: Name)
    requires Enabled(cfg, c, Lock(r))
    ensures var c' := Apply(cfg, c, Lock(r)); c'.stack == c.stack && c'.locks == c.locks + [NewLock(cfg, c, r)]
  {
  }

  lemma UnlockKeepsInv(cfg: Config, c: Cpu)
    requires Inv(cfg, c) && Enabled(cfg, c, Unlock)
    ensures Inv(cfg, Apply(cfg, c, Unlock))
  {
    PopLock(cfg, c.stack, c.locks);
    UnlockKeepsRegs(cfg, c);
  }

  lemma StepKeepsInv(cfg: Config, c: Cpu, st: Step)
    requires ValidConfig(cfg) && Inv(cfg, c) && Enabled(cfg, c, st)
    ensures Inv(cfg, Apply(cfg, c, st))
  {
    match st
    case Start(t) =>
      StartKeepsShape(cfg, c, t);
      StartKeepsRegs(cfg, c, t);
    case Switch(t) =>
      SwitchKeepsShape(cfg, c, t);
      SwitchKeepsRegs(cfg, c, t);
    case Lock(r) => LockKeepsInv(cfg, c, r);
    case Unlock => UnlockKeepsInv(cfg, c);
    case Finish => FinishKeepsInv(cfg, c);
  }

  lemma InitInv(cfg: Config)
    requires ValidConfig(cfg)
    ensures Inv(cfg, Init(cfg))
  {
  }

  /** The step that leads to state `i` of an execution. */
  lemma StepTaken(cfg: Config, run: seq<Cpu>, i: nat) returns (st: Step)
    requires IsRun(cfg, run) && 0 < i < |run|
    ensures Enabled(cfg, run[i - 1], st) && run[i] == Apply(cfg, run[i - 1], st)
  {
    assert Next(cfg, run[i - 1], run[i - 1 + 1]);
    st :| Enabled(cfg, run[i - 1], st) && run[i] == Apply(cfg, run[i - 1], st);
  }

  lemma {:induction false} RunKeepsInv(cfg: Config, run: seq<Cpu>, i: nat)
    requires ValidConfig(cfg) && IsRun(cfg, run) && i < |run|
    ensures Inv(cfg, run[i])
  {
    if i == 0 {
      InitInv(cfg);
    } else {
      RunKeepsInv(cfg, run, i - 1);
      var st := StepTaken(cfg, run, i);
      StepKeepsInv(cfg, run[i - 1], st);
    }
  }
}
