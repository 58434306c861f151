/**
`Channel<T, N>` as an object updated in place, one operation at a time.  Every method is tied
to the moves of `ChannelMachine`: run without preemption it changes the channel exactly as
the moves of its operation do.
*/
module ChannelObject {
  import opened Options
  import opened Sequences
  import Core = ChannelCore
  import opened ChannelMachine
  import opened ChannelQueue

  type Value = Core.Value
  type Slot = Core.Slot

  // ----- an operation run to its end without preemption

  ghost function MoveAlone(c: Core.Channel, h: nat, t: Tx, op: TxOp): (Core.Channel, Tx)
    requires TxReady(t, op)
  {
    var e := TxEffect(c, h, t, op);
    var c1 := if e.grant.Some? then Core.ReturnFree(e.c, e.grant.value) else e.c;
    (if e.wakes then c1.(rxWaker := false) else c1, e.t)
  }

  lemma FinishAlone(s: Sys, h: nat, e: Effect)
    requires h < |s.tx| && h !in s.ch.waitq
    ensures Finish(s, e).tx[h] == s.tx[h]
    ensures Finish(s, e).ch ==
              var c1 := if e.grant.Some? then Core.ReturnFree(s.ch, e.grant.value) else s.ch;
              if e.wakes then c1.(rxWaker := false) else c1
  {
    if s.ch.waitq != [] { assert s.ch.waitq[0] in s.ch.waitq; }
  }

  /** In the whole system a move changes the channel and its own handle exactly like this. */
  lemma MoveAloneIsApply(s: Sys, h: nat, op: TxOp)
    requires QueueInv(s) && Enabled(s, TxMove(h, op))
    ensures (Apply(s, TxMove(h, op)).ch, Apply(s, TxMove(h, op)).tx[h]) == MoveAlone(s.ch, h, s.tx[h], op)
  {
    var e := TxEffect(s.ch, h, s.tx[h], op);
    var s1 := Place(s, h, e);
    assert s1.tx[h] == e.t && s1.ch == e.c;
    if e.grant.Some? {
      FinishAlone(s1, h, e);
    }
  }

  /** The only thing an operation in the middle of its code can do next. */
  ghost function NextOp(t: Tx): Option<TxOp> {
    match t
    case TryLook(_) => Some(LookQueue)
    case TryOpen(_) => Some(LookOpen)
    case TryTake(_) => Some(TakeFree)
    case Unlinking(_, _, _, _) => Some(Unlink)
    case Emptying(_, _, _) => Some(EmptyCell)
    case GivingBack(_, _, _) => Some(GiveBack)
    case Writing(_, _) => Some(Copy)
    case Pushing(_, _) => Some(Commit)
    case Notifying => Some(Notify)
    case DroppedLast => Some(WakeLast)
    case _ => None
  }

  ghost function Rank(t: Tx): nat {
    match t
    case TryLook(_) => 6
    case TryOpen(_) => 5
    case TryTake(_) => 4
    case Unlinking(_, _, _, _) => 3
    case Emptying(_, _, _) => 2
    case GivingBack(_, _, _) => 1
    case Writing(_, _) => 3
    case Pushing(_, _) => 2
    case Notifying => 1
    case DroppedLast => 1
    case _ => 0
  }

  lemma MovesMakeProgress(c: Core.Channel, h: nat, t: Tx)
    requires NextOp(t).Some?
    ensures TxReady(t, NextOp(t).value)
    ensures Rank(MoveAlone(c, h, t, NextOp(t).value).1) < Rank(t)
  {
  }

  /** The channel and the handle when the current call of the handle returns. */
  ghost function Finished(c: Core.Channel, h: nat, t: Tx): (Core.Channel, Tx)
    decreases Rank(t)
  {
    if NextOp(t).None? then (c, t)
    else
      MovesMakeProgress(c, h, t);
      var (c', t') := MoveAlone(c, h, t, NextOp(t).value);
      Finished(c', h, t')
  }

  lemma Unfold(c: Core.Channel, h: nat, t: Tx, c': Core.Channel, t': Tx)
    requires NextOp(t).Some?
    requires TxReady(t, NextOp(t).value) && MoveAlone(c, h, t, NextOp(t).value) == (c', t')
    ensures Finished(c, h, t) == Finished(c', h, t')
  {
  }

  lemma FooterMoves(c: Core.Channel, h: nat, v: Value, idx: Slot)
    ensures Finished(c, h, Writing(v, idx))
         == (Core.WriteSlot(c, idx, v).(readyq := c.readyq + [idx], rxWaker := false), Idle(Sent))
  {
    var c1 := Core.WriteSlot(c, idx, v);
    var c2 := c1.(readyq := c1.readyq + [idx]);
    Unfold(c, h, Writing(v, idx), c1, Pushing(v, idx));
    Unfold(c1, h, Pushing(v, idx), c2, Notifying);
    Unfold(c2, h, Notifying, c2.(rxWaker := false), Idle(Sent));
  }

  lemma DropMoves(c: Core.Channel, h: nat, v: Value, popped: bool, cell: Option<Slot>, failed: bool)
    ensures var c1 := if popped then c else c.(waitq := Without(c.waitq, h));
            (Finished(c, h, Unlinking(v, popped, cell, failed))
             == (if cell.Some? then Core.ReturnFree(c1, cell.value) else c1, Idle(Verdict(failed, v))))
  {
    var c1 := if popped then c else c.(waitq := Without(c.waitq, h));
    Unfold(c, h, Unlinking(v, popped, cell, failed), c1, Emptying(v, cell, failed));
    if cell.Some? {
      Unfold(c1, h, Emptying(v, cell, failed), c1, GivingBack(v, cell.value, failed));
      Unfold(c1, h, GivingBack(v, cell.value, failed), Core.ReturnFree(c1, cell.value), Idle(Verdict(failed, v)));
    } else {
      Unfold(c1, h, Emptying(v, cell, failed), c1, Idle(Verdict(failed, v)));
    }
  }

  // ----- the receiver's operations run to their end

  /** What `try_recv` does to the channel, and its answer. */
  ghost function RecvAlone(c: Core.Channel): (Core.Channel, Received) {
    if c.readyq == [] then (c, if c.numSenders == 0 then NoSender else Empty)
    else
      var slot := c.readyq[0];
      (Core.ReturnFree(c.(readyq := c.readyq[1..]), slot), Got(Core.ReadSlot(c, slot)))
  }

  /** What the drop of the receiver does to the channel. */
  ghost function Closed(c: Core.Channel): Core.Channel {
    c.(receiverDropped := true, readyq := [], waitq := [])
  }

  /** The moves of a receiver in the middle of `try_recv` or of its drop, until it is done. */
  ghost function RxAlone(s: Sys): Sys
    decreases 2 * (|s.ch.readyq| + |s.ch.waitq|), RxRank(s.rx)
  {
    match s.rx
    case RxTake(_) => var s1 := RxApply(s, TakeReady); RxAlone(s1)
    case RxRead(_, _) => RxAlone(RxApply(s, Read))
    case RxReturn(_, _, _) => RxApply(s, Return)
    case RxCheck(_, _) => RxApply(s, CheckSenders)
    case RxDrain => RxAlone(RxApply(s, Drain))
    case RxDiscard(_) => RxAlone(RxApply(s, Discard))
    case RxFlush => RxAlone(RxApply(s, Flush))
    case RxFlushWake(_) => RxAlone(RxApply(s, FlushWake))
    case _ => s
  }

  ghost function RxRank(rx: Rx): nat {
    match rx
    case RxTake(_) => 5
    case RxRead(_, _) => 4
    case RxDiscard(_) => 4
    case RxDrain => 3
    case RxFlushWake(_) => 3
    case RxFlush => 2
    case _ => 1
  }

  /** A `try_recv` without preemption is `RecvAlone`. */
  lemma TryRecvMoves(s: Sys)
    requires s.rx.RxIdle?
    ensures var s' := RxAlone(RxApply(s, CallTryRecv));
            (s'.ch, s'.rx) == (RecvAlone(s.ch).0, RxIdle(RecvAlone(s.ch).1))
  {
    var s1 := RxApply(s, CallTryRecv);
    var s2 := RxApply(s1, TakeReady);
    assert RxAlone(s1) == RxAlone(s2);
    if s.ch.readyq != [] {
      var s3 := RxApply(s2, Read);
      assert RxAlone(s2) == RxAlone(s3) == RxApply(s3, Return);
    }
  }

  /** One poll of `recv` without preemption: it registers, and then tries. */
  lemma PollRecvMoves(s: Sys)
    requires s.rx.RxIdle? || s.rx.RxParked?
    ensures var s' := RxAlone(RxApply(RxApply(s, PollRecv), Register));
            var (c, r) := RecvAlone(s.ch.(rxWaker := true));
            s'.ch == c && s'.rx == if r.Empty? then RxParked else RxIdle(r)
  {
    var s1 := RxApply(RxApply(s, PollRecv), Register);
    var s2 := RxApply(s1, TakeReady);
    assert RxAlone(s1) == RxAlone(s2);
    if s.ch.readyq != [] {
      var s3 := RxApply(s2, Read);
      assert RxAlone(s2) == RxAlone(s3) == RxApply(s3, Return);
    }
  }

  lemma {:induction false} DropLoops(s: Sys)
    requires Dropping(s.rx) && (s.rx.RxFlush? || s.rx.RxFlushWake? || s.rx.RxGone? ==> s.ch.readyq == [])
    requires s.rx.RxGone? ==> s.ch.waitq == []
    ensures RxAlone(s).ch == s.ch.(readyq := [], waitq := []) && RxAlone(s).rx == RxGone
    decreases 2 * (|s.ch.readyq| + |s.ch.waitq|), RxRank(s.rx)
  {
    match s.rx
    case RxDrain => DropLoops(RxApply(s, Drain));
    case RxDiscard(_) => DropLoops(RxApply(s, Discard));
    case RxFlush => DropLoops(RxApply(s, Flush));
    case RxFlushWake(_) => DropLoops(RxApply(s, FlushWake));
    case _ =>
  }

  /** A drop of the receiver without preemption is `Closed`. */
  lemma DropReceiverMoves(s: Sys)
    requires s.rx.RxIdle?
    ensures var s' := RxAlone(RxApply(s, DropReceiver));
            s'.ch == Closed(s.ch) && s'.rx == RxGone
  {
    DropLoops(RxApply(s, DropReceiver));
  }

  // ----- objects

  /** The part of a `send` future that lives on the caller's stack. */
  class SendFuture {
    const h: nat
    const v: Value
    var linked: bool
    var popped: bool
    var cell: Option<Slot>
    var woken: bool

    constructor (h: nat, v: Value)
      ensures this.h == h && this.v == v && !linked && Place() == Starting(v)
    {
      this.h, this.v := h, v;
      linked, popped, cell, woken := false, false, None, false;
    }

    ghost function Place(): Tx
      reads this
    {
      if linked then Waiting(v, popped, cell, woken) else Starting(v)
    }
  }

  datatype Claim = NotYet | Claimed(slot: Slot) | Refused
  datatype SendPoll = Pending | Ready(ok: bool)

  ghost function Ids(q: seq<SendFuture>): seq<nat> {
    seq(|q|, i requires 0 <= i < |q| => q[i].h)
  }

  class Channel {
    const n: nat
    var freeq: seq<Slot>
    var readyq: seq<Slot>
    const slots: array<Option<Value>>
    var waitq: seq<SendFuture>
    var receiverDropped: bool
    var numSenders: int
    var rxWaker: bool

    ghost function View(): Core.Channel
      reads this, slots
    {
      Core.Channel(n, freeq, readyq, slots[..], Ids(waitq), receiverDropped, numSenders, rxWaker)
    }

    /** Queues hold slot numbers, ready slots are written, and queued futures are distinct and empty-handed. */
    ghost predicate Valid()
      reads this, slots, waitq
    {
      && slots.Length == n
      && (forall i :: 0 <= i < |freeq| ==> freeq[i] < n)
      && (forall i :: 0 <= i < |readyq| ==> readyq[i] < n && slots[readyq[i]].Some?)
      && (forall i, j :: 0 <= i < j < |waitq| ==> waitq[i] != waitq[j] && waitq[i].h != waitq[j].h)
      && (forall f :: f in waitq ==> f.linked && !f.popped && f.cell.None?)
    }

    constructor (n: nat)
      ensures Valid() && View() == Core.Channel(n, [], [], seq(n, _ => None), [], false, 0, false)
      ensures fresh(slots)
    {
      this.n := n;
      freeq, readyq, waitq := [], [], [];
      slots := new Option<Value>[n](_ => None);
      receiverDropped, numSenders, rxWaker := false, 0, false;
    }

    /** Fills the free queue; `receiver_dropped` keeps its value. */
    method Split()
      requires Valid() && readyq == []
      modifies this
      ensures Valid()
      ensures View() == old(View()).(freeq := Core.AllSlots(n), numSenders := 1)
      ensures |freeq| == n && forall i :: 0 <= i < n ==> freeq[i] == i
    {
      freeq := [];
      var idx := 0;
      while idx < n
        invariant 0 <= idx <= n && freeq == Core.AllSlots(idx)
        invariant waitq == old(waitq) && readyq == old(readyq)
        invariant receiverDropped == old(receiverDropped) && rxWaker == old(rxWaker)
      {
        freeq := freeq + [idx];
        idx := idx + 1;
      }
      numSenders := 1;
    }

    method ReturnFreeSlot(slot: Slot)
      requires Valid() && slot < n
      modifies this`freeq, this`waitq, waitq
      ensures Valid() && View() == Core.ReturnFree(old(View()), slot)
      ensures old(waitq) == [] ==> waitq == [] && freeq == old(freeq) + [slot]
      ensures old(waitq) != [] ==>
                var w := old(waitq)[0];
                && waitq == old(waitq)[1..] && freeq == old(freeq)
                && w.linked && w.popped && w.cell == Some(slot) && w.woken
      ensures forall i :: 1 <= i < |old(waitq)| ==> unchanged(old(waitq)[i])
    {
      if waitq != [] {
        var w := waitq[0];
        waitq := waitq[1..];
        w.popped := true;
        w.cell := Some(slot);
        w.woken := true;
        assert Ids(waitq) == old(Ids(waitq))[1..];
        forall f | f in waitq ensures f != w { }
      } else {
        freeq := freeq + [slot];
      }
    }

    /** The payload copy, the push onto the ready queue and the wake of the receiver. */
    method SendFooter(ghost h: nat, idx: Slot, v: Value)
      requires Valid() && idx < n
      modifies this`readyq, this`rxWaker, slots
      ensures Valid() && (View(), Idle(Sent)) == Finished(old(View()), h, Writing(v, idx))
      ensures View() == Core.WriteSlot(old(View()), idx, v).(readyq := old(readyq) + [idx], rxWaker := false)
      ensures readyq == old(readyq) + [idx] && !rxWaker
      ensures slots[idx] == Some(v) && forall i :: 0 <= i < n && i != idx ==> slots[i] == old(slots[i])
    {
      FooterMoves(View(), h, v, idx);
      slots[idx] := Some(v);
      readyq := readyq + [idx];
      rxWaker := false;
      assert slots[..] == old(slots[..])[idx := Some(v)];
    }

    method TrySend(ghost h: nat, v: Value) returns (r: Outcome)
      requires Valid()
      modifies this`freeq, this`readyq, this`rxWaker, slots
      ensures Valid()
      ensures (View(), Idle(r)) == Finished(old(View()), h, TryLook(v))
      ensures r.Sent? <==> old(waitq == [] && !receiverDropped && freeq != [])
      ensures r.NoReceiver? <==> old(waitq == [] && receiverDropped)
      ensures !r.Sent? ==> View() == old(View()) && (r == Full(v) || r == NoReceiver(v))
      ensures r.Sent? ==>
                var idx := old(freeq)[0];
                freeq == old(freeq)[1..] && readyq == old(readyq) + [idx] && slots[idx] == Some(v) && !rxWaker
    {
      ghost var c0 := View();
      if waitq != [] {
        assert c0.waitq != [];
        Unfold(c0, h, TryLook(v), c0, Idle(Full(v)));
        return Full(v);
      }
      assert c0.waitq == [];
      Unfold(c0, h, TryLook(v), c0, TryOpen(v));
      if receiverDropped {
        Unfold(c0, h, TryOpen(v), c0, Idle(NoReceiver(v)));
        return NoReceiver(v);
      }
      Unfold(c0, h, TryOpen(v), c0, TryTake(v));
      if freeq == [] {
        Unfold(c0, h, TryTake(v), c0, Idle(Full(v)));
        return Full(v);
      }
      var idx := freeq[0];
      freeq := freeq[1..];
      Unfold(c0, h, TryTake(v), View(), Writing(v, idx));
      SendFooter(h, idx, v);
      return Sent;
    }

    /** The cancellation-safe end of `send`: leave the wait queue and give an unused slot back. */
    method DropSend(f: SendFuture, ghost failed: bool)
      requires Valid() && f.linked && (!f.popped ==> f in waitq && f.cell.None?) && (f.popped ==> f !in waitq)
      requires f.cell.Some? ==> f.cell.value < n
      modifies this`freeq, this`waitq, waitq, f
      ensures Valid() && !f.linked && f !in waitq
      ensures (View(), Idle(Verdict(failed, f.v)))
           == Finished(old(View()), f.h, old(Unlinking(f.v, f.popped, f.cell, failed)))
      ensures old(f.cell).None? ==> freeq == old(freeq)
      ensures old(f.cell).Some? && old(waitq) == [] ==> waitq == [] && freeq == old(freeq) + [old(f.cell).value]
      ensures old(f.popped && f.cell.Some? && waitq != []) ==>
                var w := old(waitq)[0];
                waitq == old(waitq)[1..] && freeq == old(freeq) && w.popped && w.cell == old(f.cell) && w.woken
    {
      DropMoves(View(), f.h, f.v, f.popped, f.cell, failed);
      RemoveFromList(f);
      f.linked := false;
      var freed := f.cell;
      f.cell := None;
      if freed.Some? {
        ReturnFreeSlot(freed.value);
      }
    }

    /** `Link::remove_from_list` on any link; the list itself is the subject of `WaitQueue`. */
    method RemoveFromList(f: SendFuture)
      requires Valid()
      modifies this`waitq, f`popped
      ensures Valid() && f !in waitq && f.popped
      ensures forall g :: g in waitq ==> g in old(waitq)
      ensures f in old(waitq) ==> View() == old(View()).(waitq := Without(old(View()).waitq, f.h))
      ensures f !in old(waitq) ==> waitq == old(waitq)
    {
      if f.popped {
        return;
      }
      var i := 0;
      while i < |waitq| && waitq[i] != f
        invariant i <= |waitq| && f !in waitq[..i]
      {
        i := i + 1;
      }
      if i < |waitq| {
        WithoutAt(Ids(waitq), i);
        assert Ids(waitq[..i] + waitq[i + 1..]) == Ids(waitq)[..i] + Ids(waitq)[i + 1..];
        waitq := waitq[..i] + waitq[i + 1..];
      }
      f.popped := true;
    }

    /** A `send` future this channel can be asked to poll. */
    ghost predicate Pollable(f: SendFuture)
      reads this, waitq, f
    {
      && (f.linked && !f.popped ==> f in waitq)
      && (f.linked && f.popped ==> f !in waitq && (f.cell.Some? ==> f.cell.value < n))
      && (!f.linked ==> f.cell.None? && !f.popped && forall i :: 0 <= i < |waitq| ==> waitq[i].h != f.h)
    }

    /** The critical section of one poll of `send`. */
    method PollLocked(f: SendFuture) returns (r: Claim)
      requires Valid() && Pollable(f)
      modifies this`freeq, this`waitq, f
      ensures Valid() && (f.linked ==> (f in waitq <==> !f.popped))
      ensures f.linked && f.cell.Some? ==> f.cell.value < n
      ensures View() == MoveAlone(old(View()), f.h, old(f.Place()), PollTx).0
      ensures MoveAlone(old(View()), f.h, old(f.Place()), PollTx).1 == match r
              case NotYet => f.Place()
              case Claimed(slot) => Writing(f.v, slot)
              case Refused => if f.linked then Unlinking(f.v, f.popped, f.cell, true) else Idle(NoReceiver(f.v))
      ensures r.NotYet? <==> MoveAlone(old(View()), f.h, old(f.Place()), PollTx).1.Waiting?
      ensures r.Claimed? ==> r.slot < n && !f.linked
      ensures r.Refused? ==> waitq == old(waitq)
      ensures old(receiverDropped) ==> r.Refused?
      ensures old(f.linked) && !old(receiverDropped) ==>
                && View() == old(View())
                && r == if !old(f.popped) then NotYet
                        else if old(f.cell).Some? then Claimed(old(f.cell).value) else Refused
      ensures !old(f.linked) && !old(receiverDropped) ==>
                if old(waitq == [] && freeq != []) then
                  && r == Claimed(old(freeq)[|old(freeq)| - 1]) && waitq == []
                  && freeq == old(freeq)[..|old(freeq)| - 1]
                else
                  r == NotYet && waitq == old(waitq) + [f] && freeq == old(freeq)
    {
      f.woken := false;
      if receiverDropped {
        return Refused;
      }
      var wqEmpty := waitq == [];
      var freeqEmpty := freeq == [];
      assert View().waitq == [] <==> wqEmpty;
      if f.linked {
        if f.popped {
          var slot := f.cell;
          f.cell := None;
          f.linked := false;
          if slot.Some? {
            return Claimed(slot.value);
          } else {
            return Refused;
          }
        } else {
          return NotYet;
        }
      } else if !wqEmpty || freeqEmpty {
        Enqueue(f);
        return NotYet;
      } else {
        var idx := freeq[|freeq| - 1];
        freeq := freeq[..|freeq| - 1];
        return Claimed(idx);
      }
    }

    /** The link of a first poll goes to the back of the queue. */
    method Enqueue(f: SendFuture)
      requires Valid() && !f.linked && !f.popped && f.cell.None?
      requires forall i :: 0 <= i < |waitq| ==> waitq[i].h != f.h
      modifies this`waitq, f`linked
      ensures Valid() && f.linked && waitq == old(waitq) + [f]
      ensures View() == old(View()).(waitq := old(View()).waitq + [f.h])
    {
      f.linked := true;
      waitq := waitq + [f];
      assert Ids(waitq) == old(Ids(waitq)) + [f.h];
    }

    /** One poll of `send`: the critical section, then the dropper and the footer if it is ready. */
    method PollSend(f: SendFuture) returns (r: SendPoll)
      requires Valid() && Pollable(f)
      modifies this`freeq, this`readyq, this`waitq, this`rxWaker, slots, waitq, f
      ensures Valid()
      ensures var (c1, t1) := MoveAlone(old(View()), f.h, old(f.Place()), PollTx);
              && View() == Finished(c1, f.h, t1).0
              && (r.Pending? ==> f.Place() == Finished(c1, f.h, t1).1)
              && (r.Ready? ==> Finished(c1, f.h, t1).1 == Idle(if r.ok then Sent else NoReceiver(f.v)))
      ensures r.Pending? ==> f.linked
      ensures old(receiverDropped) ==> r == Ready(false)
      ensures !old(receiverDropped) && old(f.linked) ==>
                r == if !old(f.popped) then Pending else Ready(old(f.cell).Some?)
      ensures !old(receiverDropped) && !old(f.linked) ==>
                if old(waitq == [] && freeq != []) then r == Ready(true)
                else r == Pending && waitq == old(waitq) + [f]
      ensures r == Ready(true) ==>
                && readyq != [] && readyq[..|readyq| - 1] == old(readyq) && !rxWaker
                && readyq[|readyq| - 1] < slots.Length && slots[readyq[|readyq| - 1]] == Some(f.v)
    {
      var claim := PollLocked(f);
      match claim
      case NotYet =>
        return Pending;
      case Claimed(slot) =>
        SendFooter(f.h, slot, f.v);
        return Ready(true);
      case Refused =>
        if f.linked {
          DropSend(f, true);
        }
        return Ready(false);
    }

    method CloneSender(ghost h: nat)
      requires Valid()
      modifies this`numSenders
      ensures Valid() && numSenders == old(numSenders) + 1
      ensures View() == MoveAlone(old(View()), h, Idle(Fresh), Clone).0
    {
      numSenders := numSenders + 1;
    }

    method DropSender(ghost h: nat)
      requires Valid()
      modifies this`numSenders, this`rxWaker
      ensures Valid()
      ensures var (c1, t1) := MoveAlone(old(View()), h, Idle(Fresh), TxOp.DropSender);
              (View(), Gone) == Finished(c1, h, t1)
      ensures numSenders == old(numSenders) - 1
      ensures rxWaker == (old(rxWaker) && numSenders != 0)
    {
      ghost var c0 := View();
      numSenders := numSenders - 1;
      ghost var c1 := View();
      if numSenders == 0 {
        rxWaker := false;
        Unfold(c1, h, DroppedLast, View(), Gone);
      }
    }

    /** Takes the oldest ready payload and returns its slot, or says why there is none. */
    method TryRecv() returns (r: Received)
      requires Valid()
      modifies this`freeq, this`readyq, this`waitq, waitq
      ensures Valid()
      ensures (View(), r) == RecvAlone(old(View()))
      ensures r.NoSender? <==> old(readyq == [] && numSenders == 0)
      ensures r.Empty? <==> old(readyq == [] && numSenders != 0)
      ensures old(readyq) != [] ==>
                && r.Got? && slots[old(readyq)[0]] == Some(r.v) && readyq == old(readyq)[1..]
                && freeq == (if old(waitq) == [] then old(freeq) + [old(readyq)[0]] else old(freeq))
                && |waitq| == if old(waitq) == [] then 0 else |old(waitq)| - 1
      ensures old(readyq) == [] ==> View() == old(View())
      ensures rxWaker == old(rxWaker)
    {
      if readyq != [] {
        var rs := readyq[0];
        readyq := readyq[1..];
        assert rs in old(readyq);
        var v := slots[rs].value;
        ReturnFreeSlot(rs);
        return Got(v);
      } else if numSenders == 0 {
        return NoSender;
      } else {
        return Empty;
      }
    }

    /** One poll of `recv`, for a waker that displaces none: `None` while the future is pending. */
    method PollRecv() returns (r: Option<Received>)
      requires Valid()
      modifies this`freeq, this`readyq, this`waitq, this`rxWaker, waitq
      ensures Valid() && rxWaker
      ensures r.None? <==> old(readyq == [] && numSenders != 0)
      ensures r.Some? ==> (r.value.NoSender? <==> old(readyq == [] && numSenders == 0)) && !r.value.Empty?
      ensures var s := old(View()).(rxWaker := true);
              (View(), r) == (RecvAlone(s).0, if RecvAlone(s).1.Empty? then None else Some(RecvAlone(s).1))
    {
      rxWaker := true;
      var got := TryRecv();
      r := if got.Empty? then None else Some(got);
    }

    /** Closes the channel, discards what is ready and wakes every waiting sender empty-handed. */
    method DropReceiver()
      requires Valid()
      modifies this`receiverDropped, this`readyq, this`waitq, waitq
      ensures Valid()
      ensures View() == Closed(old(View()))
      ensures receiverDropped && readyq == [] && waitq == []
      ensures freeq == old(freeq) && numSenders == old(numSenders) && rxWaker == old(rxWaker)
      ensures forall f :: f in old(waitq) ==> f.linked && f.popped && f.cell.None? && f.woken
    {
      receiverDropped := true;
      while readyq != []
        invariant readyq <= old(readyq) && waitq == old(waitq) && receiverDropped
        invariant forall i :: 0 <= i < |old(waitq)| ==> unchanged(old(waitq)[i])
        decreases |readyq|
      {
        var last := |readyq| - 1;
        assert readyq[last] in old(readyq);
        var discarded := slots[readyq[last]].value;
        readyq := readyq[..last];
      }
      ghost var k := 0;
      while waitq != []
        invariant 0 <= k <= |old(waitq)| && waitq == old(waitq)[k..] && readyq == [] && receiverDropped
        invariant forall i :: 0 <= i < k ==>
                    var f := old(waitq)[i]; f.linked && f.popped && f.cell.None? && f.woken
        invariant forall i :: k <= i < |old(waitq)| ==> unchanged(old(waitq)[i])
        decreases |waitq|
      {
        var f := waitq[0];
        waitq := waitq[1..];
        f.popped := true;
        f.woken := true;
        k := k + 1;
      }
      assert Ids(waitq) == [];
    }
  }
}
