/**
What the callers of the channel are told, and when: the answers of `try_send`, `send`, `try_recv`
and `recv` in every run, in terms of the channel that the deciding critical section finds.
*/
module ChannelOutcomes {
  import opened Options
  import opened ChannelCore
  import opened ChannelMachine
  import opened ChannelQueue
  import opened ChannelRuns

  /** A poll takes effect as it stands: nobody is granted a slot or woken by it. */
  lemma PollApplies(s: Sys, h: nat)
    requires Enabled(s, TxMove(h, PollTx))
    ensures var e := Polled(s.ch, h, s.tx[h]); var s' := Apply(s, TxMove(h, PollTx));
            s'.ch == e.c && s'.tx == s.tx[h := e.t]
  {
    var e := Polled(s.ch, h, s.tx[h]);
    assert e.grant.None? && !e.wakes && !e.fork;
    assert s.tx[h := e.t] + [] == s.tx[h := e.t];
  }

  lemma PollEffect(c: Channel, h: nat, t: Tx)
    requires (t.Starting? || t.Waiting?) && LinkOk(t, c.receiverDropped)
    ensures var t' := Polled(c, h, t).t;
            && (t'.Writing? <==> !c.receiverDropped && if t.Waiting? then t.popped else c.waitq == [] && c.freeq != [])
            && (t'.Waiting? <==> !c.receiverDropped && !t'.Writing?)
            && (c.receiverDropped ==>
                  t' == if t.Waiting? then Unlinking(t.v, t.popped, t.cell, true) else Idle(NoReceiver(t.v)))
  {
  }

  lemma PollEffectOnQueues(c: Channel, h: nat, t: Tx)
    requires (t.Starting? || t.Waiting?) && LinkOk(t, c.receiverDropped)
    ensures var e := Polled(c, h, t);
            && (e.t.Writing? ==>
                  && e.t.v == t.v && e.c.waitq == c.waitq
                  && if t.Waiting? then t.cell == Some(e.t.slot) && e.c.freeq == c.freeq
                     else c.freeq == e.c.freeq + [e.t.slot])
            && (e.t.Waiting? ==>
                  && e.t == Waiting(t.v, false, None, false) && e.c.freeq == c.freeq
                  && e.c.waitq == c.waitq + if t.Starting? then [h] else [])
  {
  }

  /**
  One poll of `send`.  On a closed channel it fails.  On an open one it gets a slot if and only if
  its future was popped, or it polls for the first time, nobody waits and a slot is free; else it waits.
  */
  lemma PollOutcome(n: nat, run: seq<Sys>, i: nat, h: nat)
    requires IsRun(n, run) && i < |run| && Enabled(run[i], TxMove(h, PollTx))
    ensures var s := run[i]; var s' := Apply(s, TxMove(h, PollTx)); var t, t' := s.tx[h], s'.tx[h];
            && (t'.Writing? <==>
                  && !s.ch.receiverDropped
                  && if t.Waiting? then t.popped else s.ch.waitq == [] && s.ch.freeq != [])
            && (t'.Waiting? <==> !s.ch.receiverDropped && !t'.Writing?)
            && (s.ch.receiverDropped ==>
                  t' == if t.Waiting? then Unlinking(t.v, t.popped, t.cell, true) else Idle(NoReceiver(t.v)))
  {
    RunKeepsInv(n, run, i);
    PollApplies(run[i], h);
    PollEffect(run[i].ch, h, run[i].tx[h]);
  }

  /** The slot of a poll that gets one: the one handed over, or the last free one, for the payload it offered. */
  lemma PollTakes(n: nat, run: seq<Sys>, i: nat, h: nat)
    requires IsRun(n, run) && i < |run| && Enabled(run[i], TxMove(h, PollTx))
    requires Apply(run[i], TxMove(h, PollTx)).tx[h].Writing?
    ensures var s := run[i]; var s' := Apply(s, TxMove(h, PollTx)); var t, t' := s.tx[h], s'.tx[h];
            && t'.v == t.v && s'.ch.waitq == s.ch.waitq
            && if t.Waiting? then t.cell == Some(t'.slot) && s'.ch.freeq == s.ch.freeq
               else s.ch.freeq == s'.ch.freeq + [t'.slot]
  {
    RunKeepsInv(n, run, i);
    PollApplies(run[i], h);
    PollEffectOnQueues(run[i].ch, h, run[i].tx[h]);
  }

  /** A poll that waits is in the queue, behind everybody who was there before. */
  lemma PollWaits(n: nat, run: seq<Sys>, i: nat, h: nat)
    requires IsRun(n, run) && i < |run| && Enabled(run[i], TxMove(h, PollTx))
    requires Apply(run[i], TxMove(h, PollTx)).tx[h].Waiting?
    ensures var s := run[i]; var s' := Apply(s, TxMove(h, PollTx)); var t := s.tx[h];
            && s'.tx[h] == Waiting(t.v, false, None, false) && s'.ch.freeq == s.ch.freeq
            && s'.ch.waitq == s.ch.waitq + if t.Starting? then [h] else []
  {
    RunKeepsInv(n, run, i);
    PollApplies(run[i], h);
    PollEffectOnQueues(run[i].ch, h, run[i].tx[h]);
  }

  /**
  The three looks of `try_send`: full if somebody waits at the first, no receiver if the channel is closed
  at the second, full if no slot is free at the third, and else the first free slot.
  */
  lemma TrySendOutcome(s: Sys, h: nat, op: TxOp)
    requires Enabled(s, TxMove(h, op)) && (op.LookQueue? || op.LookOpen? || op.TakeFree?)
    ensures var s' := Apply(s, TxMove(h, op)); var t, t' := s.tx[h], s'.tx[h];
            && (t' == Idle(Full(t.v)) <==> (op.LookQueue? && s.ch.waitq != []) || (op.TakeFree? && s.ch.freeq == []))
            && (t' == Idle(NoReceiver(t.v)) <==> op.LookOpen? && s.ch.receiverDropped)
            && (t'.Idle? ==> s'.ch == s.ch && (t'.last == Full(t.v) || t'.last == NoReceiver(t.v)))
            && (!t'.Idle? ==> t' == if op.LookQueue? then TryOpen(t.v) else if op.LookOpen? then TryTake(t.v)
                                    else Writing(t.v, s.ch.freeq[0]))
            && (t'.Writing? ==> s'.ch == s.ch.(freeq := s.ch.freeq[1..]))
  {
  }

  /** Who gives up waiting is told so, who waits at a closed channel that it is closed; both get the payload back. */
  lemma DropOutcome(s: Sys, h: nat, op: TxOp)
    requires QueueInv(s) && Enabled(s, TxMove(h, op))
    requires op.Abandon? || op.Unlink? || op.EmptyCell? || op.GiveBack?
    ensures var s' := Apply(s, TxMove(h, op)); var t, t' := s.tx[h], s'.tx[h];
            && (op.Abandon? ==>
                  t' == if t.Starting? then Idle(Cancelled(t.v)) else Unlinking(t.v, t.popped, t.cell, false))
            && (op.Unlink? ==> t' == Emptying(t.v, t.cell, t.failed) && h !in s'.ch.waitq)
            && (op.EmptyCell? && t.cell.Some? ==> t' == GivingBack(t.v, t.cell.value, t.failed))
            && (op.GiveBack? || (op.EmptyCell? && t.cell.None?) ==>
                  t' == Idle(if t.failed then NoReceiver(t.v) else Cancelled(t.v)))
  {
    TxKeepsQueue(s, h, op);
  }

  /** What the receiver is told after a pop that found nothing. */
  lemma CheckOutcome(s: Sys)
    requires Enabled(s, RxMove(CheckSenders))
    ensures var s' := Apply(s, RxMove(CheckSenders));
            && s' == s.(rx := s'.rx)
            && (s'.rx == RxIdle(NoSender) <==> s.ch.numSenders == 0)
            && (s'.rx == RxParked <==> s.ch.numSenders != 0 && s.rx.inRecv)
            && (s'.rx == RxIdle(Empty) <==> s.ch.numSenders != 0 && !s.rx.inRecv)
  {
  }

  /** Every sender handle was dropped. */
  ghost predicate NoHandleLeft(s: Sys) {
    forall h :: 0 <= h < |s.tx| ==> s.tx[h].Gone? || s.tx[h].DroppedLast?
  }

  /** The answer is `NoSender` iff every handle was dropped; else `recv` parks and a bare `try_recv` says `Empty`. */
  lemma NoSenderMeansNoHandle(n: nat, run: seq<Sys>, i: nat)
    requires IsRun(n, run) && i < |run| && Enabled(run[i], RxMove(CheckSenders))
    ensures var s := run[i]; var s' := Apply(s, RxMove(CheckSenders));
            && (s'.rx == RxIdle(NoSender) <==> NoHandleLeft(s))
            && (s'.rx == RxParked <==> !NoHandleLeft(s) && s.rx.inRecv)
            && (s'.rx == RxIdle(Empty) <==> !NoHandleLeft(s) && !s.rx.inRecv)
  {
    RunKeepsInv(n, run, i);
    CheckOutcome(run[i]);
    if run[i].ch.numSenders == 0 {
      ZeroAlive(run[i].tx);
    } else {
      SomebodyAlive(run[i].tx);
    }
  }

  lemma {:induction false} SomebodyAlive(tx: seq<Tx>)
    requires AliveCount(tx) != 0
    ensures exists h :: 0 <= h < |tx| && Alive(tx[h])
  {
    var last := |tx| - 1;
    if !Alive(tx[last]) {
      SomebodyAlive(tx[..last]);
      var h :| 0 <= h < last && Alive(tx[..last][h]);
      assert Alive(tx[h]);
    }
  }

  /** A payload that is received is the one in the slot at the front of the ready queue. */
  lemma TakeOutcome(n: nat, run: seq<Sys>, i: nat)
    requires IsRun(n, run) && i < |run| && run[i].rx.RxTake?
    ensures var s := run[i]; var s' := Apply(s, RxMove(TakeReady));
            if s.ch.readyq == [] then s'.rx.RxCheck? && s'.ch == s.ch
            else
              var slot := s.ch.readyq[0];
              && s'.rx == RxRead(slot, s.rx.inRecv) && s'.ch == s.ch.(readyq := s.ch.readyq[1..])
              && slot < |s.ch.slots| && s.ch.slots[slot].Some?
              && Apply(s', RxMove(Read)).rx == RxReturn(slot, s.ch.slots[slot].value, s.rx.inRecv)
              && Apply(Apply(s', RxMove(Read)), RxMove(Return)).rx == RxIdle(Got(s.ch.slots[slot].value))
  {
    RunKeepsInv(n, run, i);
  }

  // ----- the receiver does sleep, and is woken

  lemma Park(n: nat) returns (run: seq<Sys>)
    ensures IsRun(n, run) && Last(run).rx.RxParked? && !Last(run).rxWoken && Last(run).received == []
    ensures Last(run).ch == SplitChannel(n).(rxWaker := true) && Last(run).tx == [Idle(Fresh)]
  {
    run := [Init(n)];
    run := Extend(n, run, RxMove(PollRecv));
    run := Extend(n, run, RxMove(Register));
    run := Extend(n, run, RxMove(TakeReady));
    run := Extend(n, run, RxMove(CheckSenders));
  }

  /** The rest of a `try_send`, with the receiver parked. */
  lemma FinishWhileParked(n: nat, run: seq<Sys>) returns (longer: seq<Sys>)
    requires IsRun(n, run) && Last(run).rx.RxParked? && Last(run).ch.rxWaker
    requires |Last(run).tx| == 1 && Last(run).tx[0].Writing?
    ensures IsRun(n, longer) && Last(longer).rx.RxParked? && Last(longer).rxWoken
    ensures Last(longer).ch.readyq == Last(run).ch.readyq + [Last(run).tx[0].slot] && !Last(longer).ch.rxWaker
  {
    longer := Extend(n, run, TxMove(0, Copy));
    longer := Extend(n, longer, TxMove(0, Commit));
    longer := Extend(n, longer, TxMove(0, Notify));
  }

  /** The receiver does park in every channel, and in one that can hold a payload a `try_send` wakes it there. */
  lemma ReceiverParksAndIsWoken(n: nat, v: Value)
    ensures exists run :: IsRun(n, run) && Last(run).rx.RxParked? && !Last(run).rxWoken
    ensures n > 0 ==> exists run ::
              IsRun(n, run) && Last(run).rx.RxParked? && Last(run).rxWoken && Last(run).ch.readyq != []
  {
    var parked := Park(n);
    assert IsRun(n, parked);
    if n > 0 {
      var run := ClaimSlot(n, parked, v);
      run := FinishWhileParked(n, run);
      assert IsRun(n, run);
    }
  }
}
