/** One executor: the two flags and the future they guard. */
module ExecutorCore {
  /** `Finished`: the future completed, and nothing was written over it yet. */
  datatype Task = Empty | Live(id: nat) | Finished(id: nat)
  datatype Exec = Exec(running: bool, pending: bool, task: Task)

  const NEW := Exec(false, false, Empty)

  /** `poll` without preemption; `ready` is what the future answers. */
  function Polled(x: Exec, ready: bool): Exec {
    if !(x.running && x.pending) then x
    else if ready then Exec(false, false, if x.task.Live? then Finished(x.task.id) else x.task)
    else x.(pending := false)
  }
}

/** `AsyncTaskExecutor` as an object. */
module ExecutorObject {
  import opened ExecutorCore

  class AsyncTaskExecutor {
    var task: Task
    var running: bool
    var pending: bool

    constructor ()
      ensures View() == NEW
    {
      task, running, pending := Empty, false, false;
    }

    ghost function View(): Exec
      reads this
    {
      Exec(running, pending, task)
    }

    method CheckAndClearPending() returns (was: bool)
      modifies this
      ensures was == old(pending) && View() == old(View()).(pending := false)
    {
      was := pending;
      if was { pending := false; }
    }

    method SetPending()
      modifies this
      ensures View() == old(View()).(pending := true)
    {
      pending := true;
    }

    method TryAllocate() returns (ok: bool)
      modifies this
      ensures ok == !old(running) && View() == old(View()).(running := true)
    {
      ok := !running;
      if ok { running := true; }
    }

    method Spawn(id: nat)
      modifies this
      ensures View() == Exec(old(running), true, Live(id))
    {
      task := Live(id);
      SetPending();
    }

    /** Polls the future if the executor runs and is pending; `ready` is what the future answers. */
    method Poll(ready: bool) returns (polled: bool)
      modifies this
      ensures polled <==> old(running && pending)
      ensures View() == Polled(old(View()), ready)
      ensures running == (old(running) && !(polled && ready))
      ensures pending == (old(pending) && !polled)
      ensures task == if polled && ready && old(task).Live? then Finished(old(task).id) else old(task)
    {
      polled := false;
      if running {
        polled := CheckAndClearPending();
        if polled && ready {
          task := if task.Live? then Finished(task.id) else task;
          running := false;
        }
      }
    }
  }

  /** The generated code of one priority: its executors in order, and the interrupt that dispatches them. */
  class PriorityLevel {
    const execs: seq<AsyncTaskExecutor>
    var interruptPended: bool

    constructor (execs: seq<AsyncTaskExecutor>)
      ensures this.execs == execs && !interruptPended
    {
      this.execs, interruptPended := execs, false;
    }

    ghost predicate Valid()
      reads this
    {
      forall i, j :: 0 <= i < j < |execs| ==> execs[i] != execs[j]
    }

    /** The generated `spawn` function: fails, and changes nothing, iff the task is already running. */
    method Spawn(e: nat, id: nat) returns (ok: bool)
      requires Valid() && e < |execs|
      modifies this, execs[e]
      ensures ok == !old(execs[e].running)
      ensures execs[e].View() == if ok then Exec(true, true, Live(id)) else old(execs[e].View())
      ensures interruptPended == (ok || old(interruptPended))
    {
      ok := execs[e].TryAllocate();
      if ok {
        execs[e].Spawn(id);
        interruptPended := true;
      }
    }

    /** What a waker of this task does. */
    method Wake(e: nat)
      requires Valid() && e < |execs|
      modifies this, execs[e]
      ensures execs[e].View() == old(execs[e].View()).(pending := true) && interruptPended
    {
      execs[e].SetPending();
      interruptPended := true;
    }

    /**
    The dispatcher, when nothing wakes a task meanwhile: every executor is polled once if it is
    due, in order, and afterwards none is due.  `ready` are the answers of the futures.
    */
    method Dispatch(ready: seq<bool>) returns (polls: seq<nat>)
      requires Valid() && |ready| == |execs|
      modifies this, execs
      ensures !interruptPended
      ensures forall i :: 0 <= i < |execs| ==> execs[i].View() == Polled(old(execs[i].View()), ready[i])
      ensures forall i :: 0 <= i < |execs| ==>
                execs[i].running == (old(execs[i].running) && !(old(execs[i].pending) && ready[i]))
      ensures forall i :: 0 <= i < |execs| ==>
                execs[i].pending == (old(execs[i].pending) && !old(execs[i].running))
      ensures forall i: nat :: i in polls <==> i < |execs| && old(execs[i].running && execs[i].pending)
      ensures forall i, j :: 0 <= i < j < |polls| ==> polls[i] < polls[j]
    {
      interruptPended := false;
      polls := [];
      for i := 0 to |execs|
        invariant !interruptPended
        invariant forall k :: 0 <= k < i ==> execs[k].View() == Polled(old(execs[k].View()), ready[k])
        invariant forall k :: 0 <= k < i ==>
                    && execs[k].running == (old(execs[k].running) && !(old(execs[k].pending) && ready[k]))
                    && execs[k].pending == (old(execs[k].pending) && !old(execs[k].running))
        invariant forall k :: i <= k < |execs| ==> execs[k].View() == old(execs[k].View())
        invariant forall k: nat :: k in polls <==> k < i && old(execs[k].running && execs[k].pending)
        invariant forall j, k :: 0 <= j < k < |polls| ==> polls[j] < polls[k]
      {
        var polled := execs[i].Poll(ready[i]);
        if polled {
          assert forall k :: 0 <= k < |polls| ==> polls[k] in polls;
          polls := polls + [i];
        }
      }
    }
  }
}
