/**
Deadlock freedom: whatever the started tasks still have to do, they can do it, and no lock on
the way is ever taken by somebody else.
*/
module SrpProgress {
  import opened Analysis
  import opened Ownership
  import opened LockBackend
  import opened Scheduler
  import opened Srp
  import opened SrpTheorems

  /** The rest of a piece of code: lock `r` around `inner`, then go on with `rest`. */
  datatype Work = Done | Use(r: Name, inner: Work, rest: Work)

  /** Task `t` may do this while inside locks of `held`: only its own resources, and none twice at once. */
  ghost predicate WorkOk(cfg: Config, t: nat, held: set<Name>, w: Work)
    decreases w
  {
    match w
    case Done => true
    case Use(r, inner, rest) =>
      Locks(cfg, t, r) && r !in held && WorkOk(cfg, t, held + {r}, inner) && WorkOk(cfg, t, held, rest)
  }

  ghost function StepsOf(w: Work): seq<Step> {
    match w
    case Done => []
    case Use(r, inner, rest) => [Lock(r)] + StepsOf(inner) + [Unlock] + StepsOf(rest)
  }

  ghost predicate Free(c: Cpu, r: Name) {
    forall i: nat :: !Inside(c, i, r)
  }

  /** The steps can be taken one after the other, and every lock among them is free when it is taken. */
  ghost predicate Runs(cfg: Config, c: Cpu, steps: seq<Step>)
    decreases |steps|
  {
    steps == []
    || (&& Enabled(cfg, c, steps[0])
        && (steps[0].Lock? ==> Free(c, steps[0].res))
        && Runs(cfg, Apply(cfg, c, steps[0]), steps[1..]))
  }

  ghost function Final(cfg: Config, c: Cpu, steps: seq<Step>): Cpu
    requires Runs(cfg, c, steps)
    decreases |steps|
  {
    if steps == [] then c else Final(cfg, Apply(cfg, c, steps[0]), steps[1..])
  }

  lemma {:induction false} RunsBoth(cfg: Config, c: Cpu, a: seq<Step>, b: seq<Step>)
    requires Runs(cfg, c, a) && Runs(cfg, Final(cfg, c, a), b)
    ensures Runs(cfg, c, a + b) && Final(cfg, c, a + b) == Final(cfg, Final(cfg, c, a), b)
    decreases |a|
  {
    if a == [] {
      assert a + b == b;
    } else {
      RunsBoth(cfg, Apply(cfg, c, a[0]), a[1..], b);
      assert (a + b)[1..] == a[1..] + b;
    }
  }

  lemma RunsOne(cfg: Config, c: Cpu, st: Step)
    requires Enabled(cfg, c, st) && (st.Lock? ==> Free(c, st.res))
    ensures Runs(cfg, c, [st]) && Final(cfg, c, [st]) == Apply(cfg, c, st)
  {
    var rest := [st][1..];
    assert rest == [] && Runs(cfg, Apply(cfg, c, st), rest);
  }

  ghost predicate Reachable(cfg: Config, c: Cpu) {
    exists run :: IsRun(cfg, run) && c == run[|run| - 1]
  }

  lemma ReachableInv(cfg: Config, c: Cpu)
    requires ValidConfig(cfg) && Reachable(cfg, c)
    ensures Inv(cfg, c)
  {
    var run :| IsRun(cfg, run) && c == run[|run| - 1];
    RunKeepsInv(cfg, run, |run| - 1);
  }

  lemma ReachesOn(cfg: Config, c: Cpu, st: Step)
    requires Reachable(cfg, c) && Enabled(cfg, c, st)
    ensures Reachable(cfg, Apply(cfg, c, st))
  {
    var run :| IsRun(cfg, run) && c == run[|run| - 1];
    var longer := Extend(cfg, run, st);
    assert IsRun(cfg, longer);
  }

  // ----- the code of one task

  /** The resources that the top frame is inside of. */
  ghost function Mine(stack: seq<Frame>, locks: seq<Held>): set<Name>
    requires stack != []
  {
    set k | stack[|stack| - 1].depth <= k < |locks| :: locks[k].res
  }

  /** Entering and leaving a lock restores the whole state. */
  lemma UnlockUndoesLock(cfg: Config, c: Cpu, r: Name)
    requires Enabled(cfg, c, Lock(r)) && Top(c).depth <= |c.locks|
    ensures var c1 := Apply(cfg, c, Lock(r));
            && Enabled(cfg, c1, Unlock) && Apply(cfg, c1, Unlock) == c
            && Mine(c1.stack, c1.locks) == Mine(c.stack, c.locks) + {r}
  {
    LeaveRestores(cfg.backend, c.regs, Ceiling(cfg, r));
    var c1 := Apply(cfg, c, Lock(r));
    assert c1.locks[..|c1.locks| - 1] == c.locks;
    assert c1.locks[|c.locks|].res == r;
    forall x | x in Mine(c.stack, c.locks) + {r} ensures x in Mine(c1.stack, c1.locks) {
      if x != r {
        var k :| Top(c).depth <= k < |c.locks| && c.locks[k].res == x;
        assert c1.locks[k].res == x;
      }
    }
  }

  lemma NotInside(cfg: Config, c: Cpu, r: Name)
    requires Inv(cfg, c) && c.stack != [] && r !in Mine(c.stack, c.locks)
    ensures !Inside(c, |c.stack| - 1, r) && Top(c).depth <= |c.locks|
  {
    var top := |c.stack| - 1;
    forall k | 0 <= k < |c.locks| && c.locks[k].owner == top ensures c.locks[k].res != r {
      assert !(k < c.stack[top].depth);
      assert c.locks[k].res in Mine(c.stack, c.locks);
    }
  }

  /** A lock that the running task may take is free, can be left again, and keeps the invariant. */
  lemma LockReady(cfg: Config, c: Cpu, r: Name) returns (c1: Cpu)
    requires ValidConfig(cfg) && NoConflict(cfg) && Reachable(cfg, c) && c.stack != []
    requires Locks(cfg, Top(c).task, r) && r !in Mine(c.stack, c.locks)
    ensures LockPair(cfg, c, r, c1) && Free(c, r)
    ensures Reachable(cfg, c1) && c1.stack == c.stack && Mine(c.stack, c1.locks) == Mine(c.stack, c.locks) + {r}
  {
    ReachableInv(cfg, c);
    NotInside(cfg, c, r);
    LockIsFree(cfg, c, r);
    UnlockUndoesLock(cfg, c, r);
    ReachesOn(cfg, c, Lock(r));
    c1 := Apply(cfg, c, Lock(r));
  }

  /** Taking the lock leads from `c` to `c1`, and leaving it from `c1` to `c`. */
  ghost predicate LockPair(cfg: Config, c: Cpu, r: Name, c1: Cpu) {
    && Enabled(cfg, c, Lock(r)) && Apply(cfg, c, Lock(r)) == c1
    && Enabled(cfg, c1, Unlock) && Apply(cfg, c1, Unlock) == c
  }

  /** Code that ends where it began, around other such code. */
  lemma LockAround(cfg: Config, c: Cpu, r: Name, c1: Cpu, inner: seq<Step>, rest: seq<Step>)
    requires LockPair(cfg, c, r, c1) && Free(c, r)
    requires Runs(cfg, c1, inner) && Final(cfg, c1, inner) == c1
    requires Runs(cfg, c, rest) && Final(cfg, c, rest) == c
    ensures var steps := [Lock(r)] + inner + [Unlock] + rest;
            Runs(cfg, c, steps) && Final(cfg, c, steps) == c
  {
    RunsOne(cfg, c, Lock(r));
    RunsBoth(cfg, c, [Lock(r)], inner);
    RunsOne(cfg, c1, Unlock);
    RunsBoth(cfg, c, [Lock(r)] + inner, [Unlock]);
    RunsBoth(cfg, c, [Lock(r)] + inner + [Unlock], rest);
  }

  /** The running task can do any work of its own, and ends exactly where it began. */
  lemma {:induction false} WorkRuns(cfg: Config, c: Cpu, w: Work)
    requires ValidConfig(cfg) && NoConflict(cfg) && Reachable(cfg, c) && c.stack != []
    requires WorkOk(cfg, Top(c).task, Mine(c.stack, c.locks), w)
    ensures Runs(cfg, c, StepsOf(w)) && Final(cfg, c, StepsOf(w)) == c
    decreases w
  {
    match w
    case Done =>
    case Use(r, inner, rest) =>
      var c1 := LockReady(cfg, c, r);
      WorkRuns(cfg, c1, inner);
      WorkRuns(cfg, c, rest);
      LockAround(cfg, c, r, c1, StepsOf(inner), StepsOf(rest));
  }

  // ----- the code of all started tasks

  /**
  `todo` has, for every frame of the stack, what its task still does inside its innermost lock,
  then after leaving that, and so on, and last outside all its locks.
  */
  ghost predicate TodoOk(cfg: Config, stack: seq<Frame>, locks: seq<Held>, todo: seq<seq<Work>>)
    decreases |stack|, |locks|
  {
    if stack == [] then todo == []
    else
      var top := |stack| - 1;
      && |todo| == |stack| && todo[top] != []
      && WorkOk(cfg, stack[top].task, Mine(stack, locks), todo[top][0])
      && if |locks| > stack[top].depth then
           TodoOk(cfg, stack, locks[..|locks| - 1], todo[top := todo[top][1..]])
         else
           |todo[top]| == 1 && TodoOk(cfg, stack[..top], locks, todo[..top])
  }

  /** Each task does its work, leaves its locks in between, and returns; then the one below goes on. */
  ghost function Script(cfg: Config, stack: seq<Frame>, locks: seq<Held>, todo: seq<seq<Work>>): seq<Step>
    requires TodoOk(cfg, stack, locks, todo)
    decreases |stack|, |locks|
  {
    if stack == [] then []
    else
      var top := |stack| - 1;
      StepsOf(todo[top][0])
      + if |locks| > stack[top].depth then
          [Unlock] + Script(cfg, stack, locks[..|locks| - 1], todo[top := todo[top][1..]])
        else
          [Finish] + Script(cfg, stack[..top], locks, todo[..top])
  }

  /** What ends the work of the top frame inside its innermost lock. */
  ghost function Exit(c: Cpu): Step
    requires c.stack != []
  {
    if |c.locks| > Top(c).depth then Unlock else Finish
  }

  lemma ExitReady(cfg: Config, c: Cpu)
    requires ValidConfig(cfg) && Reachable(cfg, c) && c.stack != []
    ensures Enabled(cfg, c, Exit(c)) && Reachable(cfg, Apply(cfg, c, Exit(c)))
    ensures var c1 := Apply(cfg, c, Exit(c));
            && c1.stack == (if Exit(c) == Unlock then c.stack else c.stack[..|c.stack| - 1])
            && c1.locks == (if Exit(c) == Unlock then c.locks[..|c.locks| - 1] else c.locks)
  {
    ReachableInv(cfg, c);
    DepthFits(cfg, c);
    ReachesOn(cfg, c, Exit(c));
  }

  lemma WorkThenExit(cfg: Config, c: Cpu, work: seq<Step>, steps: seq<Step>)
    requires c.stack != [] && Enabled(cfg, c, Exit(c))
    requires Runs(cfg, c, work) && Final(cfg, c, work) == c && Runs(cfg, Apply(cfg, c, Exit(c)), steps)
    ensures Runs(cfg, c, work + ([Exit(c)] + steps))
    ensures Final(cfg, c, work + ([Exit(c)] + steps)) == Final(cfg, Apply(cfg, c, Exit(c)), steps)
  {
    RunsOne(cfg, c, Exit(c));
    RunsBoth(cfg, c, [Exit(c)], steps);
    RunsBoth(cfg, c, work, [Exit(c)] + steps);
  }

  /** The first piece of work, and what is left to do after it. */
  lemma TodoStep(cfg: Config, c: Cpu, todo: seq<seq<Work>>) returns (w: Work, rest: seq<seq<Work>>)
    requires c.stack != [] && TodoOk(cfg, c.stack, c.locks, todo)
    ensures WorkOk(cfg, Top(c).task, Mine(c.stack, c.locks), w)
    ensures var top := |c.stack| - 1;
            var stack := if Exit(c) == Unlock then c.stack else c.stack[..top];
            var locks := if Exit(c) == Unlock then c.locks[..|c.locks| - 1] else c.locks;
            && TodoOk(cfg, stack, locks, rest)
            && Script(cfg, c.stack, c.locks, todo) == StepsOf(w) + ([Exit(c)] + Script(cfg, stack, locks, rest))
  {
    var top := |c.stack| - 1;
    w := todo[top][0];
    rest := if Exit(c) == Unlock then todo[top := todo[top][1..]] else todo[..top];
  }

  lemma {:induction false} ScriptRuns(cfg: Config, c: Cpu, todo: seq<seq<Work>>)
    requires ValidConfig(cfg) && NoConflict(cfg) && Reachable(cfg, c) && TodoOk(cfg, c.stack, c.locks, todo)
    ensures var steps := Script(cfg, c.stack, c.locks, todo);
            Runs(cfg, c, steps) && Final(cfg, c, steps).stack == [] && Final(cfg, c, steps).locks == []
    decreases |c.stack|, |c.locks|
  {
    if c.stack == [] {
      ReachableInv(cfg, c);
      NobodyNoLocks(cfg, c);
    } else {
      ExitReady(cfg, c);
      var w, rest := TodoStep(cfg, c, todo);
      WorkRuns(cfg, c, w);
      var c1 := Apply(cfg, c, Exit(c));
      ScriptRuns(cfg, c1, rest);
      WorkThenExit(cfg, c, StepsOf(w), Script(cfg, c1.stack, c1.locks, rest));
    }
  }

  lemma NobodyNoLocks(cfg: Config, c: Cpu)
    requires Inv(cfg, c) && c.stack == []
    ensures c.locks == []
  {
    NoTasksNoLocks(c.stack, c.locks);
  }

  lemma DepthFits(cfg: Config, c: Cpu)
    requires Inv(cfg, c) && c.stack != []
    ensures Top(c).depth <= |c.locks|
  {
  }

  /** Steps that can be taken continue the execution. */
  lemma {:induction false} Follow(cfg: Config, run: seq<Cpu>, steps: seq<Step>) returns (longer: seq<Cpu>)
    requires IsRun(cfg, run) && Runs(cfg, run[|run| - 1], steps)
    ensures IsRun(cfg, longer) && run <= longer
    ensures longer[|longer| - 1] == Final(cfg, run[|run| - 1], steps)
    decreases |steps|
  {
    if steps == [] {
      longer := run;
    } else {
      var next := Extend(cfg, run, steps[0]);
      longer := Follow(cfg, next, steps[1..]);
    }
  }

  /**
  No deadlock.  From every reachable state, and for all that the started tasks still want to lock,
  nested in any way, the execution can go on so that each of them gets all its locks, every one
  free at the moment it is taken, and returns.
  */
  lemma EveryTaskCanFinish(cfg: Config, run: seq<Cpu>, todo: seq<seq<Work>>) returns (longer: seq<Cpu>)
    requires ValidConfig(cfg) && NoConflict(cfg) && IsRun(cfg, run)
    requires TodoOk(cfg, run[|run| - 1].stack, run[|run| - 1].locks, todo)
    ensures var c := run[|run| - 1]; var steps := Script(cfg, c.stack, c.locks, todo);
            Runs(cfg, c, steps) && longer != [] && longer[|longer| - 1] == Final(cfg, c, steps)
    ensures IsRun(cfg, longer) && run <= longer && longer[|longer| - 1].stack == []
  {
    var c := run[|run| - 1];
    ScriptRuns(cfg, c, todo);
    longer := Follow(cfg, run, Script(cfg, c.stack, c.locks, todo));
  }

  /** Tasks that want nothing more have such a list too, so from every reachable state all can return. */
  lemma {:induction false} NothingMore(cfg: Config, stack: seq<Frame>, locks: seq<Held>) returns (todo: seq<seq<Work>>)
    requires FrameInv(stack, |locks|)
    ensures TodoOk(cfg, stack, locks, todo) && |todo| == |stack|
    decreases |stack|, |locks|
  {
    if stack == [] {
      todo := [];
    } else {
      var top := |stack| - 1;
      if |locks| > stack[top].depth {
        assert forall i :: 0 <= i < top ==> stack[i].depth <= stack[top].depth;
        var rest := NothingMore(cfg, stack, locks[..|locks| - 1]);
        todo := rest[top := [Done] + rest[top]];
        assert todo[top][1..] == rest[top] && todo[top := todo[top][1..]] == rest;
      } else {
        var rest := NothingMore(cfg, stack[..top], locks);
        todo := rest + [[Done]];
        assert todo[..top] == rest;
      }
    }
  }
}
