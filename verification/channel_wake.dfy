/**
Nobody sleeps through an event: neither the receiver in `recv`, nor a sender in `send`.
*/
module ChannelWake {
  import opened Options
  import opened ChannelCore
  import opened ChannelMachine
  import opened ChannelQueue

  /** Some sender has pushed a payload and is about to wake the receiver. */
  ghost predicate NotifyDue(tx: seq<Tx>) {
    exists h :: 0 <= h < |tx| && tx[h].Notifying?
  }

  /** The last sender has gone and is about to wake the receiver. */
  ghost predicate LastDropDue(tx: seq<Tx>) {
    exists h :: 0 <= h < |tx| && tx[h].DroppedLast?
  }

  ghost predicate DataSafe(s: Sys) {
    s.rxWoken || (s.ch.rxWaker && (s.ch.readyq == [] || NotifyDue(s.tx)))
  }

  ghost predicate CloseSafe(s: Sys) {
    s.rxWoken || (s.ch.rxWaker && (s.ch.numSenders != 0 || LastDropDue(s.tx)))
  }

  /** What `recv` relies on after each of its three steps. */
  ghost predicate RxWakeInv(s: Sys) {
    && (s.rx.RxTake? && s.rx.inRecv ==> s.rxWoken || s.ch.rxWaker)
    && (s.rx.RxCheck? && s.rx.inRecv ==> DataSafe(s))
    && (s.rx.RxParked? ==> DataSafe(s) && CloseSafe(s))
  }

  /** A waiter that was popped has been woken, or the receiver's drop is about to wake it. */
  ghost predicate WaiterWakeInv(s: Sys) {
    forall h :: 0 <= h < |s.tx| && s.tx[h].Waiting? && s.tx[h].popped && !s.tx[h].woken ==>
      s.rx == RxFlushWake(h)
  }

  lemma PopKeepsDue(tx: seq<Tx>, w: nat, cell: Option<Slot>, woken: bool)
    ensures NotifyDue(tx) ==> NotifyDue(PopAt(tx, w, cell, woken))
    ensures LastDropDue(tx) ==> LastDropDue(PopAt(tx, w, cell, woken))
  {
    var tx' := PopAt(tx, w, cell, woken);
    if NotifyDue(tx) {
      var h :| 0 <= h < |tx| && tx[h].Notifying?;
      assert tx'[h] == tx[h];
    }
    if LastDropDue(tx) {
      var h :| 0 <= h < |tx| && tx[h].DroppedLast?;
      assert tx'[h] == tx[h];
    }
  }

  lemma ReturnKeepsRxWake(s: Sys, slot: Slot)
    requires RxWakeInv(s)
    ensures RxWakeInv(ReturnSlot(s, slot))
  {
    if s.ch.waitq != [] { PopKeepsDue(s.tx, s.ch.waitq[0], Some(slot), true); }
  }

  /** What a move of a sender does to the two facts the receiver sleeps on. */
  lemma EffectOnRxWake(c: Channel, h: nat, t: Tx, op: TxOp)
    requires TxReady(t, op) && c.numSenders >= 0
    ensures var e := TxEffect(c, h, t, op);
            && e.c.rxWaker == c.rxWaker
            && (e.c.readyq == c.readyq || e.t.Notifying?)
            && (e.c.numSenders != 0 || e.t.DroppedLast? || c.numSenders == 0)
            && (e.wakes <==> t.Notifying? || t.DroppedLast?)
            && (e.wakes ==> e.grant.None?)
  {
  }

  lemma PlaceKeepsRxWake(s: Sys, h: nat, e: Effect)
    requires RxWakeInv(s) && h < |s.tx| && !s.tx[h].Notifying? && !s.tx[h].DroppedLast?
    requires e.c.rxWaker == s.ch.rxWaker
    requires e.c.readyq == s.ch.readyq || e.t.Notifying?
    requires e.c.numSenders != 0 || e.t.DroppedLast? || s.ch.numSenders == 0
    ensures RxWakeInv(Place(s, h, e))
  {
    var s' := Place(s, h, e);
    assert s'.tx[h] == e.t;
    assert forall k :: 0 <= k < |s.tx| && k != h ==> s'.tx[k] == s.tx[k];
  }

  /** After a wake the receiver is woken, unless it had no waker to take. */
  lemma WakeRestores(s: Sys, s': Sys)
    requires RxWakeInv(s)
    requires s'.rx == s.rx && s'.rxWoken == s.rxWoken && s'.ch.rxWaker == s.ch.rxWaker
    ensures RxWakeInv(WakeRx(s'))
  {
  }

  lemma TxKeepsRxWake(s: Sys, h: nat, op: TxOp)
    requires CountInv(s) && RxWakeInv(s) && Enabled(s, TxMove(h, op))
    ensures RxWakeInv(Apply(s, TxMove(h, op)))
  {
    var e := TxEffect(s.ch, h, s.tx[h], op);
    EffectOnRxWake(s.ch, h, s.tx[h], op);
    if e.wakes {
      WakeRestores(s, Place(s, h, e));
    } else {
      PlaceKeepsRxWake(s, h, e);
      if e.grant.Some? { ReturnKeepsRxWake(Place(s, h, e), e.grant.value); }
    }
  }

  lemma RxKeepsRxWake(s: Sys, op: RxOp)
    requires RxWakeInv(s) && RxReady(s.rx, op)
    ensures RxWakeInv(RxApply(s, op))
  {
    match op
    case Return => ReturnKeepsRxWake(s.(rx := RxIdle(Got(s.rx.v))), s.rx.slot);
    case _ =>
  }

  lemma ReturnKeepsWaiters(s: Sys, slot: Slot)
    requires WaiterWakeInv(s)
    ensures WaiterWakeInv(ReturnSlot(s, slot))
  {
  }

  lemma EffectOnWaiters(c: Channel, h: nat, t: Tx, op: TxOp)
    requires TxReady(t, op) && LinkOk(t, c.receiverDropped)
    ensures var e := TxEffect(c, h, t, op);
            e.t.Waiting? && e.t.popped ==> e.t == t
  {
  }

  lemma PlaceKeepsWaiters(s: Sys, h: nat, e: Effect)
    requires WaiterWakeInv(s) && h < |s.tx| && (e.t.Waiting? && e.t.popped ==> e.t == s.tx[h])
    ensures WaiterWakeInv(Place(s, h, e))
  {
    var s1 := Place(s, h, e);
    assert forall k :: 0 <= k < |s.tx| && k != h ==> s1.tx[k] == s.tx[k];
  }

  lemma TxKeepsWaiters(s: Sys, h: nat, op: TxOp)
    requires QueueInv(s) && WaiterWakeInv(s) && Enabled(s, TxMove(h, op))
    ensures WaiterWakeInv(Apply(s, TxMove(h, op)))
  {
    var e := TxEffect(s.ch, h, s.tx[h], op);
    EffectOnWaiters(s.ch, h, s.tx[h], op);
    PlaceKeepsWaiters(s, h, e);
    if e.grant.Some? { ReturnKeepsWaiters(Place(s, h, e), e.grant.value); }
  }

  lemma RxKeepsWaiters(s: Sys, op: RxOp)
    requires QueueInv(s) && WaiterWakeInv(s) && RxReady(s.rx, op)
    ensures WaiterWakeInv(RxApply(s, op))
  {
    match op
    case Return => ReturnKeepsWaiters(s.(rx := RxIdle(Got(s.rx.v))), s.rx.slot);
    case _ =>
  }
}
