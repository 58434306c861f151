/**
The executors of one priority, their dispatcher interrupt, and any number of spawners and
wakers, each advancing by one flag access at a time.
*/
module ExecutorMachine {
  import opened ExecutorCore

  /** A spawner after each of its steps, or a waker between the flag and the interrupt. */
  datatype Caller = Quiet | Allocated(e: nat) | Written(e: nat) | Flagged(e: nat)

  /** The dispatcher passes the executors in order: about to load `running`, to take `pending`, or polling. */
  datatype Dispatcher = Idle | AtRunning(i: nat) | AtPending(i: nat) | Polling(i: nat)

  /** `spawned` futures were written so far, `finished` completed; `dead` records a poll of one that is not live. */
  datatype Sys = Sys(
    execs: seq<Exec>, irq: bool, disp: Dispatcher, callers: seq<Caller>,
    spawned: nat, finished: seq<nat>, dead: bool)

  datatype Step =
    | Enter | Dispatch | PollReturns(ready: bool)
    | TryAllocate(c: nat, e: nat) | Write(c: nat) | SetPending(c: nat) | Wake(c: nat, e: nat) | PendIrq(c: nat)

  ghost function Init(n: nat, m: nat): Sys {
    Sys(seq(n, _ => NEW), false, Idle, seq(m, _ => Quiet), 0, [], false)
  }

  ghost predicate AllocatedFor(s: Sys, c: nat, e: nat) { c < |s.callers| && s.callers[c] == Allocated(e) }

  /** Some spawner has reserved this executor and not yet written its future. */
  ghost predicate Allocating(s: Sys, e: nat) { exists c: nat :: AllocatedFor(s, c, e) }

  /** Any party may take its next step at any time. */
  ghost predicate Enabled(s: Sys, st: Step) {
    match st
    case Enter => s.disp.Idle? && s.irq
    case Dispatch => (s.disp.AtRunning? && s.disp.i <= |s.execs|) || (s.disp.AtPending? && s.disp.i < |s.execs|)
    case PollReturns(_) => s.disp.Polling? && s.disp.i < |s.execs|
    case TryAllocate(c, e) => c < |s.callers| && s.callers[c].Quiet? && e < |s.execs|
    case Write(c) => c < |s.callers| && s.callers[c].Allocated? && s.callers[c].e < |s.execs|
    case SetPending(c) => c < |s.callers| && s.callers[c].Written? && s.callers[c].e < |s.execs|
    case Wake(c, e) => c < |s.callers| && s.callers[c].Quiet? && e < |s.execs|
    case PendIrq(c) => c < |s.callers| && s.callers[c].Flagged?
  }

  ghost function Put(s: Sys, i: nat, x: Exec): Sys
    requires i < |s.execs|
  {
    s.(execs := s.execs[i := x])
  }

  ghost function Move(s: Sys, c: nat, x: Caller): Sys
    requires c < |s.callers|
  {
    s.(callers := s.callers[c := x])
  }

  ghost function Apply(s: Sys, st: Step): Sys
    requires Enabled(s, st)
  {
    match st
    case Enter => s.(irq := false, disp := AtRunning(0))
    case Dispatch => DispatchStep(s)
    case PollReturns(ready) =>
      var i := s.disp.i;
      var x := s.execs[i];
      var s1 := if ready then
                  Put(s, i, x.(running := false, task := if x.task.Live? then Finished(x.task.id) else x.task))
                    .(finished := if x.task.Live? then s.finished + [x.task.id] else s.finished)
                else s;
      s1.(disp := AtRunning(i + 1))
    case TryAllocate(c, e) =>
      if s.execs[e].running then s else Move(Put(s, e, s.execs[e].(running := true)), c, Allocated(e))
    case Write(c) =>
      var e := s.callers[c].e;
      Move(Put(s, e, s.execs[e].(task := Live(s.spawned))), c, Written(e)).(spawned := s.spawned + 1)
    case SetPending(c) =>
      var e := s.callers[c].e;
      Move(Put(s, e, s.execs[e].(pending := true)), c, Flagged(e))
    case Wake(c, e) => Move(Put(s, e, s.execs[e].(pending := true)), c, Flagged(e))
    case PendIrq(c) => Move(s, c, Quiet).(irq := true)
  }

  ghost function DispatchStep(s: Sys): Sys
    requires s.disp.AtRunning? || (s.disp.AtPending? && s.disp.i < |s.execs|)
  {
    match s.disp
    case AtRunning(i) =>
      s.(disp := if i >= |s.execs| then Idle else if s.execs[i].running then AtPending(i) else AtRunning(i + 1))
    case AtPending(i) =>
      if s.execs[i].pending then
        Put(s, i, s.execs[i].(pending := false)).(disp := Polling(i), dead := s.dead || !s.execs[i].task.Live?)
      else s.(disp := AtRunning(i + 1))
  }

  /** A poll of executor `i` from its first flag to its end. */
  ghost function PollAlone(s: Sys, ready: bool): Sys
    requires s.disp.AtRunning? && s.disp.i < |s.execs|
  {
    var s1 := DispatchStep(s);
    var s2 := if s1.disp.AtPending? then DispatchStep(s1) else s1;
    if s2.disp.Polling? then Apply(s2, PollReturns(ready)) else s2
  }

  /** The steps of the dispatcher, run without preemption, are `poll`. */
  lemma PollAloneIsPolled(s: Sys, ready: bool)
    requires s.disp.AtRunning? && s.disp.i < |s.execs|
    ensures PollAlone(s, ready).execs == s.execs[s.disp.i := Polled(s.execs[s.disp.i], ready)]
    ensures PollAlone(s, ready).disp == AtRunning(s.disp.i + 1)
  {
    var i := s.disp.i;
    assert s.execs[i := s.execs[i]] == s.execs;
  }

  /** A spawn by a quiet caller from the reservation to the flag. */
  ghost function SpawnAlone(s: Sys, c: nat, e: nat): Sys
    requires c < |s.callers| && s.callers[c].Quiet? && e < |s.execs|
  {
    var s1 := Apply(s, TryAllocate(c, e));
    if s1.callers[c].Allocated? then Apply(Apply(s1, Write(c)), SetPending(c)) else s1
  }

  /** The steps of a spawner, run without preemption, are the generated `spawn` up to its interrupt. */
  lemma SpawnAloneIsSpawn(s: Sys, c: nat, e: nat)
    requires c < |s.callers| && s.callers[c].Quiet? && e < |s.execs|
    ensures SpawnAlone(s, c, e).execs
         == if s.execs[e].running then s.execs else s.execs[e := Exec(true, true, Live(s.spawned))]
    ensures SpawnAlone(s, c, e).callers == if s.execs[e].running then s.callers else s.callers[c := Flagged(e)]
  {
  }

  ghost predicate Next(s: Sys, s': Sys) {
    exists st :: Enabled(s, st) && s' == Apply(s, st)
  }

  ghost predicate IsRun(n: nat, m: nat, run: seq<Sys>) {
    && |run| > 0 && run[0] == Init(n, m)
    && forall i :: 0 <= i < |run| - 1 ==> Next(run[i], run[i + 1])
  }
}

/** What every run of the executors keeps. */
module ExecutorRuns {
  import opened ExecutorCore
  import opened ExecutorMachine

  // ----- no lost wakeup

  /** The dispatcher is active and has this executor still ahead of it. */
  ghost predicate NotYetPassed(d: Dispatcher, i: nat) {
    match d
    case Idle => false
    case AtRunning(j) => j <= i
    case AtPending(j) => j <= i
    case Polling(j) => j < i
  }

  ghost predicate BusyWith(s: Sys, c: nat, i: nat) {
    c < |s.callers| && !s.callers[c].Quiet? && s.callers[c].e == i
  }

  /** A spawner or waker of this executor has yet to pend the interrupt. */
  ghost predicate WillPend(s: Sys, i: nat) { exists c: nat :: BusyWith(s, c, i) }

  ghost predicate Served(s: Sys, i: nat) { s.irq || NotYetPassed(s.disp, i) || WillPend(s, i) }

  ghost predicate WakeInv(s: Sys) {
    forall i: nat :: i < |s.execs| && s.execs[i].running && s.execs[i].pending ==> Served(s, i)
  }

  lemma WillPendStays(s: Sys, s': Sys, i: nat)
    requires |s'.callers| == |s.callers|
    requires forall c: nat :: BusyWith(s, c, i) ==> BusyWith(s', c, i)
    ensures WillPend(s, i) ==> WillPend(s', i)
  {
    if WillPend(s, i) {
      var c: nat :| BusyWith(s, c, i);
      assert BusyWith(s', c, i);
    }
  }

  lemma StepKeepsWake(s: Sys, st: Step)
    requires WakeInv(s) && Enabled(s, st)
    ensures WakeInv(Apply(s, st))
  {
    var s' := Apply(s, st);
    forall i: nat | i < |s'.execs| && s'.execs[i].running && s'.execs[i].pending ensures Served(s', i) {
      if st.PendIrq? {
        assert s'.irq;
      } else {
        WillPendStays(s, s', i);
        if st.TryAllocate? || st.Wake? || st.SetPending? {
          assert s' != s ==> BusyWith(s', st.c, s'.callers[st.c].e);
        }
      }
    }
  }

  // ----- the future behind the flags

  /**
  As long as no dead future was polled: a running executor holds a live future unless its
  spawner has not written it yet, and then no other spawner has the executor too.
  */
  ghost predicate TaskInv(s: Sys) {
    && (forall i: nat :: i < |s.execs| && s.execs[i].running && !Allocating(s, i) ==> s.execs[i].task.Live?)
    && (forall c: nat, e: nat :: AllocatedFor(s, c, e) ==>
          e < |s.execs| && s.execs[e].running && !s.execs[e].task.Live?)
    && (forall c: nat, d: nat, e: nat :: AllocatedFor(s, c, e) && AllocatedFor(s, d, e) ==> c == d)
    && (s.disp.AtPending? ==> s.disp.i < |s.execs| && s.execs[s.disp.i].running)
    && (s.disp.Polling? ==> s.disp.i < |s.execs| && s.execs[s.disp.i].running && s.execs[s.disp.i].task.Live?)
    && (forall i: nat :: i < |s.execs| && s.execs[i].task.Live? ==> s.execs[i].running)
  }

  lemma SameAllocations(s: Sys, s': Sys, e: nat)
    requires forall c: nat :: AllocatedFor(s, c, e) <==> AllocatedFor(s', c, e)
    ensures Allocating(s, e) <==> Allocating(s', e)
  {
    if Allocating(s, e) {
      var c: nat :| AllocatedFor(s, c, e);
      assert AllocatedFor(s', c, e);
    }
  }

  lemma DispatcherKeepsTasks(s: Sys, st: Step)
    requires TaskInv(s) && Enabled(s, st) && (st.Enter? || st.Dispatch? || st.PollReturns?)
    ensures !Apply(s, st).dead ==> TaskInv(Apply(s, st))
  {
    var s' := Apply(s, st);
    forall c: nat, e: nat ensures AllocatedFor(s', c, e) <==> AllocatedFor(s, c, e) { }
    forall e: nat ensures Allocating(s, e) <==> Allocating(s', e) {
      SameAllocations(s, s', e);
    }
  }

  lemma CallerKeepsTasks(s: Sys, st: Step)
    requires TaskInv(s) && Enabled(s, st) && (st.SetPending? || st.Wake? || st.PendIrq?)
    ensures TaskInv(Apply(s, st))
  {
    var s' := Apply(s, st);
    forall c: nat, e: nat ensures AllocatedFor(s', c, e) <==> AllocatedFor(s, c, e) { }
    forall e: nat ensures Allocating(s, e) <==> Allocating(s', e) {
      SameAllocations(s, s', e);
    }
  }

  lemma AllocateKeepsTasks(s: Sys, c: nat, e: nat)
    requires TaskInv(s) && Enabled(s, TryAllocate(c, e))
    ensures TaskInv(Apply(s, TryAllocate(c, e)))
  {
    var s' := Apply(s, TryAllocate(c, e));
    if s' != s {
      assert AllocatedFor(s', c, e);
      forall d: nat, f: nat ensures AllocatedFor(s', d, f) <==> AllocatedFor(s, d, f) || (d == c && f == e) { }
      forall f: nat | f != e ensures Allocating(s, f) <==> Allocating(s', f) {
        SameAllocations(s, s', f);
      }
    }
  }

  lemma WriteKeepsTasks(s: Sys, c: nat)
    requires TaskInv(s) && Enabled(s, Write(c))
    ensures TaskInv(Apply(s, Write(c)))
  {
    var s' := Apply(s, Write(c));
    var e := s.callers[c].e;
    assert AllocatedFor(s, c, e);
    forall d: nat, f: nat ensures AllocatedFor(s', d, f) <==> AllocatedFor(s, d, f) && d != c { }
    forall f: nat | f != e ensures Allocating(s, f) <==> Allocating(s', f) {
      SameAllocations(s, s', f);
    }
  }

  lemma StepKeepsTasks(s: Sys, st: Step)
    requires TaskInv(s) && Enabled(s, st)
    ensures !Apply(s, st).dead ==> TaskInv(Apply(s, st))
  {
    match st
    case TryAllocate(c, e) => AllocateKeepsTasks(s, c, e);
    case Write(c) => WriteKeepsTasks(s, c);
    case SetPending(_) => CallerKeepsTasks(s, st);
    case Wake(_, _) => CallerKeepsTasks(s, st);
    case PendIrq(_) => CallerKeepsTasks(s, st);
    case _ => DispatcherKeepsTasks(s, st);
  }

  /**
  A step polls a dead future exactly if the dispatcher takes the pending flag while the spawner
  of that executor is between its reservation and its write.
  */
  lemma DeadPollStep(s: Sys, st: Step)
    requires TaskInv(s) && Enabled(s, st) && !s.dead
    ensures Apply(s, st).dead
       <==> st.Dispatch? && s.disp.AtPending? && s.execs[s.disp.i].pending && Allocating(s, s.disp.i)
  {
    if s.disp.AtPending? && Allocating(s, s.disp.i) {
      var c: nat :| AllocatedFor(s, c, s.disp.i);
    }
  }

  /**
  A poll that returns.  If the future completed, its executor is free again and exactly its id is added
  to the finished ones; if not, it stays where it is.
  */
  lemma PollOutcome(s: Sys, ready: bool)
    requires TaskInv(s) && Enabled(s, PollReturns(ready))
    ensures var i := s.disp.i; var s' := Apply(s, PollReturns(ready));
            && s.execs[i].task.Live? && s'.disp == AtRunning(i + 1)
            && s'.execs[i].running == !ready && s'.execs[i].pending == s.execs[i].pending
            && s'.execs[i].task == (if ready then Finished(s.execs[i].task.id) else s.execs[i].task)
            && s'.finished == s.finished + (if ready then [s.execs[i].task.id] else [])
            && |s'.execs| == |s.execs| && (forall k :: 0 <= k < |s.execs| && k != i ==> s'.execs[k] == s.execs[k])
            && s' == s.(execs := s'.execs, finished := s'.finished, disp := s'.disp)
  {
  }

  /** The dispatcher polls an executor exactly if it runs and is pending when it comes to its flags. */
  lemma DispatchOutcome(s: Sys)
    requires Enabled(s, Dispatch)
    ensures var i := s.disp.i; var s' := Apply(s, Dispatch);
            && (s.disp.AtRunning? ==>
                  s' == s.(disp := if i >= |s.execs| then Idle
                                   else if s.execs[i].running then AtPending(i) else AtRunning(i + 1)))
            && (s.disp.AtPending? ==>
                  && (s'.disp == Polling(i) <==> s.execs[i].pending)
                  && (!s.execs[i].pending ==> s' == s.(disp := AtRunning(i + 1)))
                  && !s'.execs[i].pending && s'.execs == s.execs[i := s.execs[i].(pending := false)])
  {
  }

  // ----- what becomes of the spawned futures

  ghost predicate LiveAt(s: Sys, i: nat, id: nat) { i < |s.execs| && s.execs[i].task == Live(id) }

  /** Every future ever written is live in one executor or has finished, once. */
  ghost predicate SpawnInv(s: Sys) {
    && (forall i: nat, id: nat :: LiveAt(s, i, id) ==> id < s.spawned && id !in s.finished)
    && (forall i: nat, j: nat, id: nat :: LiveAt(s, i, id) && LiveAt(s, j, id) ==> i == j)
    && (forall k :: 0 <= k < |s.finished| ==> s.finished[k] < s.spawned)
    && (forall j, k :: 0 <= j < k < |s.finished| ==> s.finished[j] != s.finished[k])
    && (forall id: nat :: id < s.spawned && id !in s.finished ==> exists i: nat :: LiveAt(s, i, id))
  }

  lemma SameTasks(s: Sys, s': Sys)
    requires SpawnInv(s) && s'.spawned == s.spawned && s'.finished == s.finished
    requires forall i: nat, id: nat :: LiveAt(s, i, id) <==> LiveAt(s', i, id)
    ensures SpawnInv(s')
  {
    forall id: nat | id < s'.spawned && id !in s'.finished ensures exists i: nat :: LiveAt(s', i, id) {
      var i: nat :| LiveAt(s, i, id);
      assert LiveAt(s', i, id);
    }
  }

  lemma WriteKeepsSpawns(s: Sys, c: nat)
    requires TaskInv(s) && SpawnInv(s) && Enabled(s, Write(c))
    ensures SpawnInv(Apply(s, Write(c)))
  {
    var s' := Apply(s, Write(c));
    var e := s.callers[c].e;
    assert AllocatedFor(s, c, e);
    forall i: nat, id: nat ensures LiveAt(s', i, id) <==> (i == e && id == s.spawned) || LiveAt(s, i, id) { }
    forall id: nat | id < s'.spawned && id !in s'.finished ensures exists i: nat :: LiveAt(s', i, id) {
      if id == s.spawned {
        assert LiveAt(s', e, id);
      } else {
        var i: nat :| LiveAt(s, i, id);
        assert LiveAt(s', i, id);
      }
    }
  }

  lemma FinishKeepsSpawns(s: Sys)
    requires TaskInv(s) && SpawnInv(s) && Enabled(s, PollReturns(true))
    ensures SpawnInv(Apply(s, PollReturns(true)))
  {
    var s' := Apply(s, PollReturns(true));
    var k := s.disp.i;
    var done := s.execs[k].task.id;
    assert LiveAt(s, k, done);
    forall i: nat, id: nat ensures LiveAt(s', i, id) <==> LiveAt(s, i, id) && i != k { }
    forall id: nat | id < s'.spawned && id !in s'.finished ensures exists i: nat :: LiveAt(s', i, id) {
      var i: nat :| LiveAt(s, i, id);
      assert s'.finished[|s.finished|] == done;
      assert LiveAt(s', i, id);
    }
  }

  lemma StepKeepsSpawns(s: Sys, st: Step)
    requires TaskInv(s) && SpawnInv(s) && Enabled(s, st)
    ensures SpawnInv(Apply(s, st))
  {
    match st
    case Write(c) => WriteKeepsSpawns(s, c);
    case PollReturns(ready) =>
      if ready { FinishKeepsSpawns(s); } else { SameTasks(s, Apply(s, st)); }
    case _ => SameTasks(s, Apply(s, st));
  }

  // ----- the theorems

  lemma {:induction false} RunKeepsWake(n: nat, m: nat, run: seq<Sys>, i: nat)
    requires IsRun(n, m, run) && i < |run|
    ensures WakeInv(run[i])
  {
    if i == 0 {
    } else {
      RunKeepsWake(n, m, run, i - 1);
      assert Next(run[i - 1], run[i - 1 + 1]);
      var st :| Enabled(run[i - 1], st) && run[i] == Apply(run[i - 1], st);
      StepKeepsWake(run[i - 1], st);
    }
  }

  /**
  No wakeup is lost: an executor that runs and is pending has its interrupt pending, or the
  dispatcher is on its way to it, or its spawner or a waker has yet to pend the interrupt.
  */
  lemma NoLostWakeup(n: nat, m: nat, run: seq<Sys>, i: nat, e: nat)
    requires IsRun(n, m, run) && i < |run|
    requires e < |run[i].execs| && run[i].execs[e].running && run[i].execs[e].pending
    ensures run[i].irq || NotYetPassed(run[i].disp, e) || WillPend(run[i], e)
  {
    RunKeepsWake(n, m, run, i);
  }

  /** When everything has come to rest, no task is left that should run. */
  lemma AtRestNothingIsDue(n: nat, m: nat, run: seq<Sys>, i: nat, e: nat)
    requires IsRun(n, m, run) && i < |run| && e < |run[i].execs|
    requires !run[i].irq && run[i].disp.Idle? && forall c :: 0 <= c < |run[i].callers| ==> run[i].callers[c].Quiet?
    ensures !(run[i].execs[e].running && run[i].execs[e].pending)
  {
    RunKeepsWake(n, m, run, i);
  }
}
