/**
The guarantees of the channel, for every execution: any capacity, any number of sender
handles, any interleaving, cancellations and the receiver's drop included.
*/
module ChannelRuns {
  import opened Options
  import opened ChannelCore
  import opened ChannelMachine
  import opened ChannelQueue
  import opened ChannelSlots
  import opened ChannelFifo
  import opened ChannelWake

  ghost predicate Inv(s: Sys) {
    && QueueInv(s) && CountInv(s) && SlotInv(s)
    && ContentInv(s) && PayloadInv(s)
    && RxWakeInv(s) && WaiterWakeInv(s)
  }

  lemma InitInv(n: nat)
    ensures Inv(Init(n))
  {
    InitSlots(n);
    var tx := [Idle(Fresh)];
    assert tx[..0] == [];
    assert AliveCount(tx) == AliveCount([]) + 1;
    assert forall v :: InFlight(tx, v) == InFlight([], v) + 0;
  }

  lemma StepKeepsInv(s: Sys, st: Step)
    requires Inv(s) && Enabled(s, st)
    ensures Inv(Apply(s, st))
  {
    StepKeepsSlots(s, st);
    StepKeepsPayload(s, st);
    match st
    case TxMove(h, op) =>
      TxKeepsQueue(s, h, op);
      TxKeepsCount(s, h, op);
      TxKeepsContents(s, h, op);
      TxKeepsRxWake(s, h, op);
      TxKeepsWaiters(s, h, op);
    case RxMove(op) =>
      RxKeepsQueue(s, op);
      RxKeepsCount(s, op);
      RxKeepsContents(s, op);
      RxKeepsRxWake(s, op);
      RxKeepsWaiters(s, op);
  }

  lemma {:induction false} RunKeepsInv(n: nat, run: seq<Sys>, i: nat)
    requires IsRun(n, run) && i < |run|
    ensures Inv(run[i]) && run[i].ch.n == n
  {
    if i == 0 {
      InitInv(n);
    } else {
      RunKeepsInv(n, run, i - 1);
      assert Next(run[i - 1], run[i - 1 + 1]);
      var st :| Enabled(run[i - 1], st) && run[i] == Apply(run[i - 1], st);
      StepKeepsInv(run[i - 1], st);
      CapacityFixed(run[i - 1], st);
    }
  }

  lemma StepTaken(n: nat, run: seq<Sys>, j: nat) returns (st: Step)
    requires IsRun(n, run) && 0 < j < |run|
    ensures Enabled(run[j - 1], st) && run[j] == Apply(run[j - 1], st)
  {
    assert Next(run[j - 1], run[j - 1 + 1]);
    st :| Enabled(run[j - 1], st) && run[j] == Apply(run[j - 1], st);
  }

  /** Each of the `n` slots is in exactly one place. */
  lemma EverySlotInOnePlace(n: nat, run: seq<Sys>, i: nat, x: Slot)
    requires IsRun(n, run) && i < |run|
    ensures var s := run[i];
            Count(s.ch.freeq, x) + Count(s.ch.readyq, x) + Holders(s.tx, x)
              + One(RxHeld(s.rx), x) + Count(s.discarded, x) == if x < n then 1 else 0
  {
    RunKeepsInv(n, run, i);
    assert Places(run[i], x) == if x < n then 1 else 0;
  }

  /**
  Copies outside critical sections are safe: a sender writes, and the receiver reads, a slot
  that no queue and no other party has, and the receiver reads an initialised one.
  */
  lemma CopiesAreExclusive(n: nat, run: seq<Sys>, i: nat)
    requires IsRun(n, run) && i < |run|
    ensures var s := run[i];
            && (forall h :: 0 <= h < |s.tx| && s.tx[h].Writing? ==> OwnedBy(s, h, s.tx[h].slot))
            && (s.rx.RxRead? || s.rx.RxDiscard? ==>
                  && Initialised(s.ch, s.rx.slot)
                  && s.rx.slot !in s.ch.freeq && s.rx.slot !in s.ch.readyq
                  && forall k :: 0 <= k < |s.tx| ==> Held(s.tx[k]) != Some(s.rx.slot))
  {
    RunKeepsInv(n, run, i);
    var s := run[i];
    forall h | 0 <= h < |s.tx| && s.tx[h].Writing? ensures OwnedBy(s, h, s.tx[h].slot) {
      HolderOwns(s, h, s.tx[h].slot);
    }
    if s.rx.RxRead? || s.rx.RxDiscard? {
      ReceiverOwns(s, s.rx.slot);
    }
  }

  /** The unchecked pushes of `send_footer` and `return_free_slot` never meet a full queue. */
  lemma PushesHaveRoom(n: nat, run: seq<Sys>, i: nat)
    requires IsRun(n, run) && i < |run|
    ensures var s := run[i];
            && (forall h :: 0 <= h < |s.tx| && s.tx[h].Pushing? ==> |s.ch.readyq| < n)
            && (forall h :: 0 <= h < |s.tx| && s.tx[h].GivingBack? ==> |s.ch.freeq| < n)
            && (s.rx.RxReturn? ==> |s.ch.freeq| < n)
  {
    RunKeepsInv(n, run, i);
    var s := run[i];
    forall h | 0 <= h < |s.tx| && (s.tx[h].Pushing? || s.tx[h].GivingBack?)
      ensures |s.ch.freeq| + |s.ch.readyq| < n
    {
      assert Held(s.tx[h]) == Some(s.tx[h].slot);
      RoomToPush(s, s.tx[h].slot);
    }
    if s.rx.RxReturn? { RoomToPush(s, s.rx.slot); }
  }

  /**
  First in, first out: until the receiver is dropped, the committed payloads are those already
  received, then the one being read, then those in the ready queue, in this order.
  */
  lemma Fifo(n: nat, run: seq<Sys>, i: nat)
    requires IsRun(n, run) && i < |run| && !run[i].ch.receiverDropped
    ensures var s := run[i];
            s.committed == s.received + BeingRead(s) + Contents(s.ch, s.ch.readyq)
  {
    RunKeepsInv(n, run, i);
  }

  /** Payloads are conserved: offered ones were committed, handed back, or are still with a sender. */
  lemma NoPayloadLost(n: nat, run: seq<Sys>, i: nat, v: Value)
    requires IsRun(n, run) && i < |run|
    ensures var s := run[i];
            s.offered[v] == Count(s.committed, v) + s.returned[v] + InFlight(s.tx, v)
  {
    RunKeepsInv(n, run, i);
    assert PayloadGap(run[i], v) == 0;
  }

  /** No sender waits while a slot is free. */
  lemma WaitingMeansFull(n: nat, run: seq<Sys>, i: nat, h: nat)
    requires IsRun(n, run) && i < |run|
    requires h < |run[i].tx| && run[i].tx[h].Waiting? && !run[i].tx[h].popped
    ensures h in run[i].ch.waitq && run[i].ch.freeq == []
  {
    RunKeepsInv(n, run, i);
  }

  /**
  `try_send` looks at the wait queue in one critical section and pops a slot in a later one,
  yet when it gets a slot nobody is waiting.
  */
  lemma TrySendNeverOvertakes(n: nat, run: seq<Sys>, i: nat, h: nat)
    requires IsRun(n, run) && i < |run|
    requires h < |run[i].tx| && run[i].tx[h].TryTake?
    ensures Apply(run[i], TxMove(h, TakeFree)).tx[h].Writing? ==>
              forall k :: 0 <= k < |run[i].tx| ==> !Queued(run[i].tx[k])
  {
    RunKeepsInv(n, run, i);
  }

  /** A slot that is returned while senders wait goes to the one that has waited longest. */
  lemma OldestWaiterIsServed(n: nat, run: seq<Sys>, i: nat, slot: Slot)
    requires IsRun(n, run) && i < |run| && run[i].ch.waitq != []
    ensures var s := run[i]; var w := s.ch.waitq[0]; var s' := ReturnSlot(s, slot);
            && w < |s.tx| && Queued(s.tx[w])
            && Linked(s'.tx[w]) && s'.tx[w].popped && s'.tx[w].cell == Some(slot)
            && s'.ch.waitq == s.ch.waitq[1..] && s'.ch.freeq == s.ch.freeq
            && (forall k :: 0 <= k < |s.tx| && k != w ==> s'.tx[k] == s.tx[k])
  {
    RunKeepsInv(n, run, i);
    assert run[i].ch.waitq[0] in run[i].ch.waitq;
  }

  /**
  No lost wakeup for `recv`: a parked receiver that has not been woken has its waker stored,
  and there is nothing for it to see, or somebody who is about to wake it.
  */
  lemma ReceiverNeverMissesAWake(n: nat, run: seq<Sys>, i: nat)
    requires IsRun(n, run) && i < |run|
    requires run[i].rx.RxParked? && !run[i].rxWoken
    ensures run[i].ch.rxWaker
    ensures run[i].ch.readyq == [] || NotifyDue(run[i].tx)
    ensures run[i].ch.numSenders > 0 || LastDropDue(run[i].tx)
  {
    RunKeepsInv(n, run, i);
  }

  /**
  No lost wakeup for `send`: a waiting sender that has not been woken is still queued, with the
  channel open or its drop in progress and no slot free, or is the one the receiver's drop wakes next.
  */
  lemma SenderNeverMissesAWake(n: nat, run: seq<Sys>, i: nat, h: nat)
    requires IsRun(n, run) && i < |run|
    requires h < |run[i].tx| && run[i].tx[h].Waiting? && !run[i].tx[h].woken
    ensures run[i].rx == RxFlushWake(h) || (h in run[i].ch.waitq && run[i].ch.freeq == [])
    ensures !run[i].rx.RxGone?
  {
    RunKeepsInv(n, run, i);
  }

  /** A popped waiter without a slot only exists once the receiver is dropped. */
  lemma PoppedMeansServedOrClosed(n: nat, run: seq<Sys>, i: nat, h: nat)
    requires IsRun(n, run) && i < |run|
    requires h < |run[i].tx| && run[i].tx[h].Waiting? && run[i].tx[h].popped
    ensures run[i].tx[h].cell.Some? || run[i].ch.receiverDropped
  {
    RunKeepsInv(n, run, i);
    assert LinkOk(run[i].tx[h], run[i].ch.receiverDropped);
  }

  // ----- NoSender

  /**
  `NoSender` is decided in a later critical section than the failed pop.  What the ready
  queue holds at that moment is exactly what was committed since the pop, so the error
  leaves nothing behind if and only if nothing was committed in between.
  */
  lemma NoSenderMissesExactlyTheLateCommits(n: nat, run: seq<Sys>, i: nat)
    requires IsRun(n, run) && i < |run| && run[i].rx.RxCheck? && run[i].ch.numSenders == 0
    ensures var s := run[i]; var s' := Apply(s, RxMove(CheckSenders));
            && s'.rx == RxIdle(NoSender)
            && s.rx.mark <= |s.committed|
            && Contents(s'.ch, s'.ch.readyq) == s.committed[s.rx.mark..]
            && (s'.ch.readyq == [] <==> |s.committed| == s.rx.mark)
  {
    RunKeepsInv(n, run, i);
    var s := run[i];
    var m := s.rx.mark;
    assert s.committed == s.committed[..m] + Contents(s.ch, s.ch.readyq);
    assert s.committed[m..] == Contents(s.ch, s.ch.readyq);
  }

  /** After `numSenders` reached zero no handle can send, so nothing is committed any more. */
  lemma NoSenderIsFinal(n: nat, run: seq<Sys>, i: nat)
    requires IsRun(n, run) && i < |run| && run[i].ch.numSenders == 0
    ensures forall h :: 0 <= h < |run[i].tx| ==> run[i].tx[h].Gone? || run[i].tx[h].DroppedLast?
  {
    RunKeepsInv(n, run, i);
    ZeroAlive(run[i].tx);
  }

  lemma {:induction false} ZeroAlive(tx: seq<Tx>)
    requires AliveCount(tx) == 0
    ensures forall h :: 0 <= h < |tx| ==> !Alive(tx[h])
  {
    if tx == [] {
    } else {
      ZeroAlive(tx[..|tx| - 1]);
      assert forall h :: 0 <= h < |tx| - 1 ==> tx[..|tx| - 1][h] == tx[h];
    }
  }

  // ----- a run in which NoSender is reported although a payload is ready

  ghost function Last(run: seq<Sys>): Sys
    requires |run| > 0
  {
    run[|run| - 1]
  }

  lemma Extend(n: nat, run: seq<Sys>, st: Step) returns (longer: seq<Sys>)
    requires IsRun(n, run) && Enabled(Last(run), st)
    ensures IsRun(n, longer) && longer == run + [Apply(Last(run), st)]
  {
    longer := run + [Apply(Last(run), st)];
    forall i | 0 <= i < |longer| - 1 ensures Next(longer[i], longer[i + 1]) {
      if i + 1 < |run| {
        assert Next(run[i], run[i + 1]);
      } else {
        assert Enabled(longer[i], st);
      }
    }
  }

  /** A slot claimed by an uninterrupted `try_send` of handle 0, the only handle. */
  lemma ClaimSlot(n: nat, run: seq<Sys>, v: Value) returns (longer: seq<Sys>)
    requires IsRun(n, run)
    requires var s := Last(run);
             |s.tx| == 1 && s.tx[0].Idle? && s.ch.waitq == [] && !s.ch.receiverDropped && s.ch.freeq != []
    ensures IsRun(n, longer)
    ensures var s, s' := Last(run), Last(longer);
            && s'.tx == [Writing(v, s.ch.freeq[0])] && s'.rx == s.rx && s'.received == s.received
            && s'.ch == s.ch.(freeq := s.ch.freeq[1..])
  {
    longer := Extend(n, run, TxMove(0, CallTrySend(v)));
    longer := Extend(n, longer, TxMove(0, LookQueue));
    longer := Extend(n, longer, TxMove(0, LookOpen));
    longer := Extend(n, longer, TxMove(0, TakeFree));
  }

  /** The rest of the `try_send`, and the drop of the handle. */
  lemma FinishSendAndDrop(n: nat, run: seq<Sys>) returns (longer: seq<Sys>)
    requires IsRun(n, run)
    requires var s := Last(run); |s.tx| == 1 && s.tx[0].Writing? && s.ch.numSenders == 1
    ensures IsRun(n, longer)
    ensures var s, s' := Last(run), Last(longer);
            && s'.rx == s.rx && s'.ch.numSenders == 0 && s'.received == s.received
            && s'.ch.readyq == s.ch.readyq + [s.tx[0].slot]
  {
    longer := Extend(n, run, TxMove(0, Copy));
    longer := Extend(n, longer, TxMove(0, Commit));
    longer := Extend(n, longer, TxMove(0, Notify));
    longer := Extend(n, longer, TxMove(0, DropSender));
  }

  /** A receiver preempted between the two critical sections reports `NoSender` with a payload ready. */
  lemma NoSenderCanMissAPayload() returns (run: seq<Sys>)
    ensures IsRun(1, run)
    ensures Last(run).rx == RxIdle(NoSender) && Last(run).ch.readyq != [] && Last(run).received == []
  {
    run := [Init(1)];
    run := Extend(1, run, RxMove(CallTryRecv));
    run := Extend(1, run, RxMove(TakeReady));
    run := ClaimSlot(1, run, 7);
    run := FinishSendAndDrop(1, run);
    run := Extend(1, run, RxMove(CheckSenders));
  }
}
