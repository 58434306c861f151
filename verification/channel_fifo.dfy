/**
What the slots contain: payloads come out in the order in which they were committed,
each once and unaltered, and no payload offered to the channel goes missing.
*/
module ChannelFifo {
  import opened Options
  import opened ChannelCore
  import opened ChannelMachine
  import opened ChannelQueue
  import opened ChannelSlots

  ghost predicate Initialised(c: Channel, x: Slot) {
    x < |c.slots| && c.slots[x].Some?
  }

  /** The payloads of the slots of `q`, in order. */
  ghost function Contents(c: Channel, q: seq<Slot>): seq<Value> {
    seq(|q|, i requires 0 <= i < |q| => ReadSlot(c, q[i]))
  }

  /** The payload the receiver has popped but not yet copied out. */
  ghost function BeingRead(s: Sys): seq<Value> {
    if s.rx.RxRead? then [ReadSlot(s.ch, s.rx.slot)] else []
  }

  ghost predicate TxWritten(c: Channel, t: Tx) {
    t.Pushing? ==> Initialised(c, t.slot) && ReadSlot(c, t.slot) == t.v
  }

  ghost predicate ContentInv(s: Sys) {
    && |s.ch.slots| == s.ch.n
    && (forall h :: 0 <= h < |s.tx| ==> TxWritten(s.ch, s.tx[h]))
    && (forall i :: 0 <= i < |s.ch.readyq| ==> Initialised(s.ch, s.ch.readyq[i]))
    && (s.rx.RxRead? || s.rx.RxDiscard? ==> Initialised(s.ch, s.rx.slot))
    && (!s.ch.receiverDropped ==> s.committed == s.received + BeingRead(s) + Contents(s.ch, s.ch.readyq))
    && (s.rx.RxCheck? ==> s.rx.mark <= |s.committed| && s.received == s.committed[..s.rx.mark])
  }

  /** Only the copy and the commit of `send_footer` touch slots and ready queue. */
  lemma EffectOnContents(c: Channel, h: nat, t: Tx, op: TxOp)
    requires TxReady(t, op) && !op.Copy? && !op.Commit?
    ensures var e := TxEffect(c, h, t, op);
            && e.c.slots == c.slots && e.c.readyq == c.readyq && e.c.receiverDropped == c.receiverDropped
            && e.c.n == c.n && !e.change.Push? && !e.t.Pushing?
  {
  }

  lemma CopyKeepsContents(s: Sys, h: nat)
    requires SlotInv(s) && ContentInv(s) && Enabled(s, TxMove(h, Copy))
    ensures ContentInv(Apply(s, TxMove(h, Copy)))
  {
    var t := s.tx[h];
    var s' := Apply(s, TxMove(h, Copy));
    HolderOwns(s, h, t.slot);
    forall k | 0 <= k < |s.tx| ensures TxWritten(s'.ch, s'.tx[k]) {
      if k != h {
        assert s'.tx[k] == s.tx[k] && TxWritten(s.ch, s.tx[k]);
        assert Held(s.tx[k]) != Some(t.slot);
      }
    }
    forall i | 0 <= i < |s.ch.readyq|
      ensures Initialised(s'.ch, s.ch.readyq[i]) && ReadSlot(s'.ch, s.ch.readyq[i]) == ReadSlot(s.ch, s.ch.readyq[i])
    {
      assert s.ch.readyq[i] in s.ch.readyq;
    }
    assert Contents(s'.ch, s'.ch.readyq) == Contents(s.ch, s.ch.readyq);
  }

  lemma ContentsAppend(c: Channel, q: seq<Slot>, x: Slot)
    ensures Contents(c, q + [x]) == Contents(c, q) + [ReadSlot(c, x)]
  {
  }

  lemma CommitKeepsContents(s: Sys, h: nat)
    requires ContentInv(s) && Enabled(s, TxMove(h, Commit))
    ensures ContentInv(Apply(s, TxMove(h, Commit)))
  {
    var t := s.tx[h];
    var s' := Apply(s, TxMove(h, Commit));
    assert TxWritten(s.ch, t);
    forall k | 0 <= k < |s.tx| ensures TxWritten(s'.ch, s'.tx[k]) {
      if k != h { assert s'.tx[k] == s.tx[k] && TxWritten(s.ch, s.tx[k]); }
    }
    ContentsAppend(s.ch, s.ch.readyq, t.slot);
    assert Contents(s'.ch, s'.ch.readyq) == Contents(s.ch, s'.ch.readyq);
    if !s.ch.receiverDropped {
      assert s'.committed == s.received + BeingRead(s) + (Contents(s.ch, s.ch.readyq) + [t.v]);
    }
  }

  lemma ReturnKeepsContents(s: Sys, slot: Slot)
    requires ContentInv(s)
    ensures ContentInv(ReturnSlot(s, slot))
  {
    var s' := ReturnSlot(s, slot);
    forall k | 0 <= k < |s'.tx| ensures TxWritten(s'.ch, s'.tx[k]) {
      assert TxWritten(s.ch, s.tx[k]);
    }
    assert Contents(s'.ch, s'.ch.readyq) == Contents(s.ch, s.ch.readyq);
  }

  lemma PlaceKeepsContents(s: Sys, h: nat, e: Effect)
    requires ContentInv(s) && h < |s.tx| && !e.t.Pushing? && !e.change.Push?
    requires e.c.slots == s.ch.slots && e.c.readyq == s.ch.readyq && e.c.n == s.ch.n
    requires e.c.receiverDropped == s.ch.receiverDropped
    ensures ContentInv(Place(s, h, e))
  {
    var s' := Place(s, h, e);
    forall k | 0 <= k < |s'.tx| ensures TxWritten(s'.ch, s'.tx[k]) {
      if k < |s.tx| && k != h { assert s'.tx[k] == s.tx[k] && TxWritten(s.ch, s.tx[k]); }
    }
    assert Contents(s'.ch, s'.ch.readyq) == Contents(s.ch, s.ch.readyq);
  }

  lemma WakeKeepsContents(s: Sys)
    requires ContentInv(s)
    ensures ContentInv(WakeRx(s))
  {
    var s' := WakeRx(s);
    forall k | 0 <= k < |s'.tx| ensures TxWritten(s'.ch, s'.tx[k]) {
      assert TxWritten(s.ch, s.tx[k]);
    }
    assert Contents(s'.ch, s'.ch.readyq) == Contents(s.ch, s.ch.readyq);
  }

  lemma FinishKeepsContents(s: Sys, e: Effect)
    requires ContentInv(s)
    ensures ContentInv(Finish(s, e))
  {
    if e.grant.Some? { ReturnKeepsContents(s, e.grant.value); }
    if e.wakes { WakeKeepsContents(if e.grant.Some? then ReturnSlot(s, e.grant.value) else s); }
  }

  lemma TxKeepsContents(s: Sys, h: nat, op: TxOp)
    requires SlotInv(s) && ContentInv(s) && Enabled(s, TxMove(h, op))
    ensures ContentInv(Apply(s, TxMove(h, op)))
  {
    if op.Copy? {
      CopyKeepsContents(s, h);
    } else if op.Commit? {
      CommitKeepsContents(s, h);
    } else {
      var e := TxEffect(s.ch, h, s.tx[h], op);
      EffectOnContents(s.ch, h, s.tx[h], op);
      PlaceKeepsContents(s, h, e);
      FinishKeepsContents(Place(s, h, e), e);
    }
  }

  lemma TakeKeepsContents(s: Sys)
    requires ContentInv(s) && s.rx.RxTake? && !s.ch.receiverDropped
    ensures ContentInv(RxApply(s, TakeReady))
  {
    var s' := RxApply(s, TakeReady);
    var q := s.ch.readyq;
    forall k | 0 <= k < |s.tx| ensures TxWritten(s'.ch, s'.tx[k]) { assert TxWritten(s.ch, s.tx[k]); }
    if q == [] {
      assert s.committed == s.received;
    } else {
      assert Contents(s.ch, q) == [ReadSlot(s.ch, q[0])] + Contents(s.ch, q[1..]);
      assert Contents(s'.ch, q[1..]) == Contents(s.ch, q[1..]);
      assert s.committed == s.received + BeingRead(s') + Contents(s'.ch, q[1..]);
    }
  }

  lemma ReadKeepsContents(s: Sys)
    requires ContentInv(s) && s.rx.RxRead?
    ensures ContentInv(RxApply(s, Read))
  {
    var s' := RxApply(s, Read);
    forall k | 0 <= k < |s.tx| ensures TxWritten(s'.ch, s'.tx[k]) { assert TxWritten(s.ch, s.tx[k]); }
    assert s'.received + BeingRead(s') == s.received + BeingRead(s);
  }

  lemma FlushKeepsContents(s: Sys)
    requires ContentInv(s) && s.rx.RxFlush? && s.ch.receiverDropped
    ensures ContentInv(RxApply(s, Flush))
  {
    var s' := RxApply(s, Flush);
    forall k | 0 <= k < |s'.tx| ensures TxWritten(s'.ch, s'.tx[k]) { assert TxWritten(s.ch, s.tx[k]); }
  }

  /** The other moves of the receiver change neither slots nor, but for the drop, the ready queue. */
  lemma OtherKeepsContents(s: Sys, op: RxOp)
    requires QueueInv(s) && ContentInv(s) && RxReady(s.rx, op)
    requires !op.TakeReady? && !op.Read? && !op.Flush? && !op.Return?
    ensures ContentInv(RxApply(s, op))
  {
    var s' := RxApply(s, op);
    forall k | 0 <= k < |s'.tx| ensures TxWritten(s'.ch, s'.tx[k]) { assert TxWritten(s.ch, s.tx[k]); }
    assert !op.Drain? ==> Contents(s'.ch, s'.ch.readyq) == Contents(s.ch, s.ch.readyq);
  }

  lemma RxKeepsContents(s: Sys, op: RxOp)
    requires QueueInv(s) && ContentInv(s) && RxReady(s.rx, op)
    ensures ContentInv(RxApply(s, op))
  {
    match op
    case TakeReady => TakeKeepsContents(s);
    case Read => ReadKeepsContents(s);
    case Flush => FlushKeepsContents(s);
    case Return =>
      var s1 := s.(rx := RxIdle(Got(s.rx.v)));
      assert ContentInv(s1);
      ReturnKeepsContents(s1, s.rx.slot);
    case _ => OtherKeepsContents(s, op);
  }

  // ----- payloads

  /** The payload an operation of a handle is carrying. */
  ghost function Carried(t: Tx): Option<Value> {
    if t.Idle? || t.Notifying? || t.DroppedLast? || t.Gone? then None else Some(t.v)
  }

  ghost function InFlight(tx: seq<Tx>, v: Value): nat {
    if tx == [] then 0 else InFlight(tx[..|tx| - 1], v) + One(Carried(tx[|tx| - 1]), v)
  }

  /** Every offered payload was committed, handed back, or is still being carried. */
  ghost predicate PayloadInv(s: Sys) {
    forall v: Value :: PayloadGap(s, v) == 0
  }

  ghost function PayloadGap(s: Sys, v: Value): int {
    s.offered[v] - (Count(s.committed, v) + s.returned[v] + InFlight(s.tx, v))
  }

  lemma {:induction false} InFlightSet(tx: seq<Tx>, h: nat, t: Tx, v: Value)
    requires h < |tx|
    ensures InFlight(tx[h := t], v) == InFlight(tx, v) - One(Carried(tx[h]), v) + One(Carried(t), v)
  {
    var last := |tx| - 1;
    if h == last {
      assert tx[h := t][..last] == tx[..last];
    } else {
      InFlightSet(tx[..last], h, t, v);
      assert tx[h := t][..last] == tx[..last][h := t];
    }
  }

  lemma InFlightAppend(tx: seq<Tx>, t: Tx, v: Value)
    ensures InFlight(tx + [t], v) == InFlight(tx, v) + One(Carried(t), v)
  {
    assert (tx + [t])[..|tx|] == tx;
  }

  ghost function Offered(change: Change): Option<Value> {
    if change.Offer? then Some(change.v) else None
  }

  ghost function LetGo(change: Change): Option<Value> {
    if change.HandBack? || change.Push? then Some(change.v) else None
  }

  lemma EffectOnPayload(c: Channel, h: nat, t: Tx, op: TxOp, v: Value)
    requires TxReady(t, op)
    ensures var e := TxEffect(c, h, t, op);
            One(Carried(e.t), v) + One(LetGo(e.change), v) == One(Carried(t), v) + One(Offered(e.change), v)
  {
  }

  lemma PopKeepsPayload(tx: seq<Tx>, h: nat, cell: Option<Slot>, woken: bool, v: Value)
    ensures InFlight(PopAt(tx, h, cell, woken), v) == InFlight(tx, v)
  {
    if h < |tx| { InFlightSet(tx, h, Pop(tx[h], cell, woken), v); }
  }

  lemma PlaceKeepsPayload(s: Sys, h: nat, e: Effect, v: Value)
    requires h < |s.tx|
    requires One(Carried(e.t), v) + One(LetGo(e.change), v) == One(Carried(s.tx[h]), v) + One(Offered(e.change), v)
    ensures PayloadGap(Place(s, h, e), v) == PayloadGap(s, v)
  {
    InFlightSet(s.tx, h, e.t, v);
    InFlightAppend(s.tx[h := e.t], Idle(Fresh), v);
    assert s.tx[h := e.t] + [] == s.tx[h := e.t];
    if e.change.Push? { CountAppend(s.committed, e.change.v, v); }
  }

  lemma FinishKeepsPayload(s: Sys, e: Effect, v: Value)
    ensures PayloadGap(Finish(s, e), v) == PayloadGap(s, v)
  {
    if e.grant.Some? && s.ch.waitq != [] {
      PopKeepsPayload(s.tx, s.ch.waitq[0], Some(e.grant.value), true, v);
    }
  }

  lemma RxKeepsPayload(s: Sys, op: RxOp, v: Value)
    requires RxReady(s.rx, op)
    ensures PayloadGap(RxApply(s, op), v) == PayloadGap(s, v)
  {
    match op
    case Return => if s.ch.waitq != [] { PopKeepsPayload(s.tx, s.ch.waitq[0], Some(s.rx.slot), true, v); }
    case Flush => if s.ch.waitq != [] { PopKeepsPayload(s.tx, s.ch.waitq[0], None, false, v); }
    case FlushWake => if s.rx.h < |s.tx| && s.tx[s.rx.h].Waiting? {
      InFlightSet(s.tx, s.rx.h, s.tx[s.rx.h].(woken := true), v);
    }
    case _ =>
  }

  lemma StepKeepsPayload(s: Sys, st: Step)
    requires PayloadInv(s) && Enabled(s, st)
    ensures PayloadInv(Apply(s, st))
  {
    forall v: Value ensures PayloadGap(Apply(s, st), v) == PayloadGap(s, v) {
      match st
      case TxMove(h, op) =>
        var e := TxEffect(s.ch, h, s.tx[h], op);
        EffectOnPayload(s.ch, h, s.tx[h], op, v);
        PlaceKeepsPayload(s, h, e, v);
        FinishKeepsPayload(Place(s, h, e), e, v);
      case RxMove(op) => RxKeepsPayload(s, op, v);
    }
  }
}
