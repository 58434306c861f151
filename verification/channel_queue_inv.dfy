/**
The wait queue and the counters: who is queued, what a popped waiter was handed,
and how many sender handles are alive, in every reachable state.
*/
module ChannelQueue {
  import opened Options
  import opened Sequences
  import opened ChannelCore
  import opened ChannelMachine

  /** The future's link is in the wait queue. */
  ghost predicate Queued(t: Tx) {
    (t.Waiting? || t.Unlinking?) && !t.popped
  }

  ghost predicate Linked(t: Tx) {
    t.Waiting? || t.Unlinking?
  }

  ghost predicate LinkOk(t: Tx, dropped: bool) {
    Linked(t) ==>
      && (!t.popped ==> t.cell.None?)
      && (t.popped && t.cell.None? ==> dropped)
  }

  ghost predicate Dropping(rx: Rx) {
    rx.RxDrain? || rx.RxDiscard? || rx.RxFlush? || rx.RxFlushWake? || rx.RxGone?
  }

  /** The queue holds exactly the unpopped links, each once, and only while no slot is free. */
  ghost predicate QueueInv(s: Sys) {
    && Distinct(s.ch.waitq)
    && (forall h :: h in s.ch.waitq ==> h < |s.tx| && Queued(s.tx[h]))
    && (forall h :: 0 <= h < |s.tx| && Queued(s.tx[h]) ==> h in s.ch.waitq)
    && (forall h :: 0 <= h < |s.tx| ==> LinkOk(s.tx[h], s.ch.receiverDropped))
    && (s.ch.waitq != [] ==> s.ch.freeq == [])
    && (s.ch.receiverDropped <==> Dropping(s.rx))
    && (s.rx.RxGone? ==> s.ch.waitq == [])
  }

  lemma PopFront(q: seq<nat>)
    requires Distinct(q) && q != []
    ensures Distinct(q[1..])
    ensures forall x :: x in q[1..] <==> x in q && x != q[0]
  {
    assert forall x :: x in q <==> x == q[0] || x in q[1..];
  }

  /** A move that leaves the wait queue alone. */
  lemma PlaceKeepsQueue(s: Sys, h: nat, e: Effect)
    requires QueueInv(s) && h < |s.tx|
    requires e.c.waitq == s.ch.waitq && (e.c.freeq == s.ch.freeq || s.ch.waitq == [])
    requires e.c.receiverDropped == s.ch.receiverDropped
    requires Queued(e.t) == Queued(s.tx[h]) && LinkOk(e.t, s.ch.receiverDropped)
    ensures QueueInv(Place(s, h, e))
  {
    PlacedHandles(s, h, e);
    var s' := Place(s, h, e);
    forall k | 0 <= k < |s'.tx| ensures Queued(s'.tx[k]) <==> k < |s.tx| && Queued(s.tx[k]) { }
  }

  /** What a placed move leaves in the handles. */
  lemma PlacedHandles(s: Sys, h: nat, e: Effect)
    requires h < |s.tx|
    ensures var s' := Place(s, h, e);
            && s'.ch == e.c && s'.rx == s.rx && |s.tx| <= |s'.tx| && s'.tx[h] == e.t
            && (forall k :: 0 <= k < |s.tx| && k != h ==> s'.tx[k] == s.tx[k])
            && (forall k :: |s.tx| <= k < |s'.tx| ==> s'.tx[k] == Idle(Fresh))
  {
  }

  lemma EnqueueKeepsQueue(s: Sys, h: nat, e: Effect)
    requires QueueInv(s) && h < |s.tx| && !Queued(s.tx[h])
    requires Queued(e.t) && e.t.cell.None? && !e.fork
    requires e.c == s.ch.(waitq := s.ch.waitq + [h])
    requires !s.ch.receiverDropped && (s.ch.waitq != [] || s.ch.freeq == [])
    ensures QueueInv(Place(s, h, e))
  {
    var s' := Place(s, h, e);
    assert forall x :: x in s'.ch.waitq <==> x in s.ch.waitq || x == h;
    assert forall k :: 0 <= k < |s.tx| && k != h ==> s'.tx[k] == s.tx[k];
  }

  lemma UnlinkKeepsQueue(s: Sys, h: nat, e: Effect, q: seq<nat>)
    requires QueueInv(s) && h < |s.tx| && Queued(s.tx[h])
    requires !Linked(e.t) && !e.fork
    requires e.c == s.ch.(waitq := q)
    requires Distinct(q) && forall y :: y in q <==> y in s.ch.waitq && y != h
    ensures QueueInv(Place(s, h, e))
  {
    var s' := Place(s, h, e);
    assert forall k :: 0 <= k < |s.tx| && k != h ==> s'.tx[k] == s.tx[k];
    if q != [] { assert q[0] in q; }
  }

  lemma ReturnKeepsQueue(s: Sys, slot: Slot)
    requires QueueInv(s)
    ensures QueueInv(ReturnSlot(s, slot))
  {
    if s.ch.waitq != [] {
      PopFront(s.ch.waitq);
    }
  }

  lemma FinishKeepsQueue(s: Sys, e: Effect)
    requires QueueInv(s)
    ensures QueueInv(Finish(s, e))
  {
    if e.grant.Some? { ReturnKeepsQueue(s, e.grant.value); }
  }

  /** Every move but an enqueueing poll and an unlinking drop leaves the queue alone. */
  lemma EffectOnQueue(c: Channel, h: nat, t: Tx, op: TxOp)
    requires TxReady(t, op) && LinkOk(t, c.receiverDropped)
    requires !(op.PollTx? && PollSend(c, h, LinkOf(t)).1.Enqueued?) && !(op.Unlink? && !t.popped)
    requires c.waitq != [] ==> c.freeq == []
    ensures var e := TxEffect(c, h, t, op);
            && e.c.waitq == c.waitq && (e.c.freeq == c.freeq || c.waitq == [])
            && e.c.receiverDropped == c.receiverDropped
            && Queued(e.t) == Queued(t) && LinkOk(e.t, c.receiverDropped)
  {
  }

  lemma TxKeepsQueue(s: Sys, h: nat, op: TxOp)
    requires QueueInv(s) && Enabled(s, TxMove(h, op))
    ensures QueueInv(Apply(s, TxMove(h, op)))
  {
    var t := s.tx[h];
    var e := TxEffect(s.ch, h, t, op);
    if op.PollTx? && PollSend(s.ch, h, LinkOf(t)).1.Enqueued? {
      EnqueueKeepsQueue(s, h, e);
    } else if op.Unlink? && !t.popped {
      WithoutKeepsTheRest(s.ch.waitq, h);
      UnlinkKeepsQueue(s, h, e, Without(s.ch.waitq, h));
    } else {
      EffectOnQueue(s.ch, h, t, op);
      PlaceKeepsQueue(s, h, e);
    }
    FinishKeepsQueue(Place(s, h, e), e);
  }

  lemma FlushKeepsQueue(s: Sys)
    requires QueueInv(s) && s.rx.RxFlush?
    ensures QueueInv(RxApply(s, Flush))
  {
    if s.ch.waitq != [] { PopFront(s.ch.waitq); }
  }

  lemma FlushWakeKeepsQueue(s: Sys)
    requires QueueInv(s) && s.rx.RxFlushWake?
    ensures QueueInv(RxApply(s, FlushWake))
  {
  }

  /** Moves of the receiver that touch neither wait queue, free queue nor handles. */
  lemma SameQueue(s: Sys, s': Sys)
    requires QueueInv(s) && s'.tx == s.tx && s'.ch.waitq == s.ch.waitq && s'.ch.freeq == s.ch.freeq
    requires s'.ch.receiverDropped == Dropping(s'.rx) && (s.ch.receiverDropped ==> s'.ch.receiverDropped)
    requires s'.rx.RxGone? ==> s'.ch.waitq == []
    ensures QueueInv(s')
  {
  }

  lemma RxKeepsQueue(s: Sys, op: RxOp)
    requires QueueInv(s) && RxReady(s.rx, op)
    ensures QueueInv(RxApply(s, op))
  {
    if op.Return? {
      ReturnKeepsQueue(s.(rx := RxIdle(Got(s.rx.v))), s.rx.slot);
    } else if op.Flush? {
      FlushKeepsQueue(s);
    } else if op.FlushWake? {
      FlushWakeKeepsQueue(s);
    } else {
      SameQueue(s, RxApply(s, op));
    }
  }

  // ----- sender handles

  /** The handle is counted in `num_senders`. */
  ghost predicate Alive(t: Tx) {
    !t.DroppedLast? && !t.Gone?
  }

  ghost function AliveCount(tx: seq<Tx>): nat {
    if tx == [] then 0
    else AliveCount(tx[..|tx| - 1]) + (if Alive(tx[|tx| - 1]) then 1 else 0)
  }

  lemma {:induction false} AliveSet(tx: seq<Tx>, h: nat, t: Tx)
    requires h < |tx|
    ensures AliveCount(tx[h := t])
         == AliveCount(tx) - (if Alive(tx[h]) then 1 else 0) + (if Alive(t) then 1 else 0)
  {
    var last := |tx| - 1;
    if h == last {
      assert tx[h := t][..last] == tx[..last];
    } else {
      AliveSet(tx[..last], h, t);
      assert tx[h := t][..last] == tx[..last][h := t];
    }
  }

  lemma AliveAppend(tx: seq<Tx>, t: Tx)
    ensures AliveCount(tx + [t]) == AliveCount(tx) + (if Alive(t) then 1 else 0)
  {
    assert (tx + [t])[..|tx|] == tx;
  }

  ghost predicate CountInv(s: Sys) {
    s.ch.numSenders == AliveCount(s.tx)
  }

  lemma PopKeepsCount(tx: seq<Tx>, h: nat, cell: Option<Slot>, woken: bool)
    ensures AliveCount(PopAt(tx, h, cell, woken)) == AliveCount(tx)
  {
    if h < |tx| { AliveSet(tx, h, Pop(tx[h], cell, woken)); }
  }

  lemma EffectOnCount(c: Channel, h: nat, t: Tx, op: TxOp)
    requires TxReady(t, op)
    ensures var e := TxEffect(c, h, t, op);
            e.c.numSenders == c.numSenders - (if Alive(t) then 1 else 0) + (if Alive(e.t) then 1 else 0)
                              + (if e.fork then 1 else 0)
  {
  }

  lemma PlaceKeepsCount(s: Sys, h: nat, e: Effect)
    requires CountInv(s) && h < |s.tx|
    requires e.c.numSenders == s.ch.numSenders - (if Alive(s.tx[h]) then 1 else 0)
                               + (if Alive(e.t) then 1 else 0) + (if e.fork then 1 else 0)
    ensures CountInv(Finish(Place(s, h, e), e))
  {
    AliveSet(s.tx, h, e.t);
    AliveAppend(s.tx[h := e.t], Idle(Fresh));
    assert s.tx[h := e.t] + [] == s.tx[h := e.t];
    FinishKeepsCount(Place(s, h, e), e);
  }

  lemma FinishKeepsCount(s: Sys, e: Effect)
    requires CountInv(s)
    ensures CountInv(Finish(s, e))
  {
    if e.grant.Some? && s.ch.waitq != [] {
      PopKeepsCount(s.tx, s.ch.waitq[0], Some(e.grant.value), true);
    }
  }

  lemma TxKeepsCount(s: Sys, h: nat, op: TxOp)
    requires CountInv(s) && Enabled(s, TxMove(h, op))
    ensures CountInv(Apply(s, TxMove(h, op)))
  {
    EffectOnCount(s.ch, h, s.tx[h], op);
    PlaceKeepsCount(s, h, TxEffect(s.ch, h, s.tx[h], op));
  }

  lemma RxKeepsCount(s: Sys, op: RxOp)
    requires CountInv(s) && RxReady(s.rx, op)
    ensures CountInv(RxApply(s, op))
  {
    match op
    case Return => if s.ch.waitq != [] { PopKeepsCount(s.tx, s.ch.waitq[0], Some(s.rx.slot), true); }
    case Flush => if s.ch.waitq != [] { PopKeepsCount(s.tx, s.ch.waitq[0], None, false); }
    case FlushWake => if s.rx.h < |s.tx| && s.tx[s.rx.h].Waiting? {
      AliveSet(s.tx, s.rx.h, s.tx[s.rx.h].(woken := true));
    }
    case _ =>
  }
}
