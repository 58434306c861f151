/**
Every slot index is in exactly one place: the free queue, the ready queue, the cell of a
waiting sender, the hands of a sender or of the receiver, or discarded by the receiver's drop.
*/
module ChannelSlots {
  import opened Options
  import opened ChannelCore
  import opened ChannelMachine
  import opened ChannelQueue

  /** The slot in the hands of a sender handle, its future's cell included. */
  ghost function Held(t: Tx): Option<Slot> {
    match t
    case Waiting(_, _, cell, _) => cell
    case Unlinking(_, _, cell, _) => cell
    case Emptying(_, cell, _) => cell
    case GivingBack(_, slot, _) => Some(slot)
    case Writing(_, slot) => Some(slot)
    case Pushing(_, slot) => Some(slot)
    case _ => None
  }

  ghost function RxHeld(rx: Rx): Option<Slot> {
    match rx
    case RxRead(slot, _) => Some(slot)
    case RxReturn(slot, _, _) => Some(slot)
    case RxDiscard(slot) => Some(slot)
    case _ => None
  }

  ghost function Count(q: seq<Slot>, x: Slot): nat {
    if q == [] then 0 else Count(q[..|q| - 1], x) + (if q[|q| - 1] == x then 1 else 0)
  }

  ghost function One(held: Option<Slot>, x: Slot): nat {
    if held == Some(x) then 1 else 0
  }

  /** How many sender handles hold slot `x`. */
  ghost function Holders(tx: seq<Tx>, x: Slot): nat {
    if tx == [] then 0 else Holders(tx[..|tx| - 1], x) + One(Held(tx[|tx| - 1]), x)
  }

  ghost function InQueues(c: Channel, x: Slot): nat {
    Count(c.freeq, x) + Count(c.readyq, x)
  }

  /** In how many places slot `x` is. */
  ghost function Places(s: Sys, x: Slot): nat {
    InQueues(s.ch, x) + Holders(s.tx, x) + One(RxHeld(s.rx), x) + Count(s.discarded, x)
  }

  ghost predicate SlotInv(s: Sys) {
    forall x: Slot :: Places(s, x) == if x < s.ch.n then 1 else 0
  }

  lemma {:induction false} HoldersSet(tx: seq<Tx>, h: nat, t: Tx, x: Slot)
    requires h < |tx|
    ensures Holders(tx[h := t], x) == Holders(tx, x) - One(Held(tx[h]), x) + One(Held(t), x)
  {
    var last := |tx| - 1;
    if h == last {
      assert tx[h := t][..last] == tx[..last];
    } else {
      HoldersSet(tx[..last], h, t, x);
      assert tx[h := t][..last] == tx[..last][h := t];
    }
  }

  lemma HoldersAppend(tx: seq<Tx>, t: Tx, x: Slot)
    ensures Holders(tx + [t], x) == Holders(tx, x) + One(Held(t), x)
  {
    assert (tx + [t])[..|tx|] == tx;
  }

  lemma CountAppend(q: seq<Slot>, y: Slot, x: Slot)
    ensures Count(q + [y], x) == Count(q, x) + (if y == x then 1 else 0)
  {
    assert (q + [y])[..|q|] == q;
  }

  lemma {:induction false} CountFirst(q: seq<Slot>, x: Slot)
    requires q != []
    ensures Count(q, x) == Count(q[1..], x) + (if q[0] == x then 1 else 0)
  {
    if |q| == 1 {
    } else {
      var last := |q| - 1;
      CountFirst(q[..last], x);
      assert q[..last][1..] == q[1..][..last - 1];
    }
  }

  lemma {:induction false} CountMember(q: seq<Slot>, x: Slot)
    ensures Count(q, x) > 0 <==> x in q
  {
    if q == [] {
    } else {
      CountMember(q[..|q| - 1], x);
      assert q == q[..|q| - 1] + [q[|q| - 1]];
    }
  }

  lemma PollOnSlots(c: Channel, h: nat, t: Tx, x: Slot)
    requires (t.Starting? || t.Waiting?) && LinkOk(t, c.receiverDropped)
    ensures var e := Polled(c, h, t);
            InQueues(e.c, x) + One(Held(e.t), x) == InQueues(c, x) + One(Held(t), x) && e.grant == None
  {
  }

  /** The moves that leave both queues of slots alone hand the slot on, or grant it. */
  lemma QuietEffectOnSlots(c: Channel, h: nat, t: Tx, op: TxOp, x: Slot)
    requires TxReady(t, op) && LinkOk(t, c.receiverDropped) && !op.TakeFree? && !op.Commit? && !op.PollTx?
    ensures var e := TxEffect(c, h, t, op);
            && e.c.freeq == c.freeq && e.c.readyq == c.readyq
            && One(Held(e.t), x) + One(e.grant, x) == One(Held(t), x)
  {
  }

  /** A move of a sender handle neither makes nor loses a slot. */
  lemma EffectOnSlots(c: Channel, h: nat, t: Tx, op: TxOp, x: Slot)
    requires TxReady(t, op) && LinkOk(t, c.receiverDropped)
    ensures var e := TxEffect(c, h, t, op);
            InQueues(e.c, x) + One(Held(e.t), x) + One(e.grant, x) == InQueues(c, x) + One(Held(t), x)
  {
    if op.TakeFree? {
      if c.freeq != [] { CountFirst(c.freeq, x); }
    } else if op.Commit? {
      CountAppend(c.readyq, t.slot, x);
    } else if op.PollTx? {
      PollOnSlots(c, h, t, x);
    } else {
      QuietEffectOnSlots(c, h, t, op, x);
    }
  }

  lemma ReturnOnSlots(s: Sys, slot: Slot, x: Slot)
    requires QueueInv(s)
    ensures Places(ReturnSlot(s, slot), x) == Places(s, x) + One(Some(slot), x)
  {
    CountAppend(s.ch.freeq, slot, x);
    if s.ch.waitq != [] {
      var w := s.ch.waitq[0];
      assert w in s.ch.waitq;
      HoldersSet(s.tx, w, Pop(s.tx[w], Some(slot), true), x);
    }
  }

  lemma HoldersPlaced(tx: seq<Tx>, h: nat, t: Tx, fork: bool, x: Slot)
    requires h < |tx|
    ensures Holders(tx[h := t] + (if fork then [Idle(Fresh)] else []), x)
         == Holders(tx, x) - One(Held(tx[h]), x) + One(Held(t), x)
  {
    HoldersSet(tx, h, t, x);
    HoldersAppend(tx[h := t], Idle(Fresh), x);
    assert tx[h := t] + [] == tx[h := t];
  }

  lemma PlaceFrame(s: Sys, h: nat, e: Effect)
    requires h < |s.tx|
    ensures var s' := Place(s, h, e);
            && s'.ch == e.c && s'.rx == s.rx && s'.discarded == s.discarded
            && s'.tx == s.tx[h := e.t] + if e.fork then [Idle(Fresh)] else []
  {
  }

  lemma PlaceOnSlots(s: Sys, h: nat, e: Effect, x: Slot)
    requires h < |s.tx|
    requires InQueues(e.c, x) + One(Held(e.t), x) + One(e.grant, x)
          == InQueues(s.ch, x) + One(Held(s.tx[h]), x)
    ensures Places(Place(s, h, e), x) + One(e.grant, x) == Places(s, x)
  {
    PlaceFrame(s, h, e);
    HoldersPlaced(s.tx, h, e.t, e.fork, x);
  }

  lemma PlaceKeepsQueueWhenGranting(s: Sys, h: nat, op: TxOp)
    requires QueueInv(s) && Enabled(s, TxMove(h, op))
    requires TxEffect(s.ch, h, s.tx[h], op).grant.Some?
    ensures QueueInv(Place(s, h, TxEffect(s.ch, h, s.tx[h], op)))
  {
    EffectOnQueue(s.ch, h, s.tx[h], op);
    PlaceKeepsQueue(s, h, TxEffect(s.ch, h, s.tx[h], op));
  }

  lemma TxConservesSlots(s: Sys, h: nat, op: TxOp, x: Slot)
    requires QueueInv(s) && Enabled(s, TxMove(h, op))
    ensures Places(Apply(s, TxMove(h, op)), x) == Places(s, x)
  {
    var e := TxEffect(s.ch, h, s.tx[h], op);
    EffectOnSlots(s.ch, h, s.tx[h], op, x);
    PlaceOnSlots(s, h, e, x);
    if e.grant.Some? {
      PlaceKeepsQueueWhenGranting(s, h, op);
      ReturnOnSlots(Place(s, h, e), e.grant.value, x);
    }
  }

  lemma FlushOnSlots(s: Sys, x: Slot)
    requires QueueInv(s) && s.rx.RxFlush? && s.ch.waitq != []
    ensures Places(RxApply(s, Flush), x) == Places(s, x)
  {
    var w := s.ch.waitq[0];
    assert w in s.ch.waitq;
    HoldersSet(s.tx, w, Pop(s.tx[w], None, false), x);
  }

  lemma WakeOnSlots(s: Sys, x: Slot)
    requires RxReady(s.rx, FlushWake)
    ensures Places(RxApply(s, FlushWake), x) == Places(s, x)
  {
    if s.rx.h < |s.tx| && s.tx[s.rx.h].Waiting? {
      HoldersSet(s.tx, s.rx.h, s.tx[s.rx.h].(woken := true), x);
    }
  }

  /** The moves of the receiver that take a slot from the ready queue or throw it away. */
  lemma TakingConservesSlots(s: Sys, op: RxOp, x: Slot)
    requires RxReady(s.rx, op) && (op.TakeReady? || op.Drain? || op.Discard?)
    ensures Places(RxApply(s, op), x) == Places(s, x)
  {
    match op
    case TakeReady => if s.ch.readyq != [] { CountFirst(s.ch.readyq, x); }
    case Discard => CountAppend(s.discarded, s.rx.slot, x);
    case Drain =>
  }

  /** The moves that neither take nor return a slot. */
  lemma OthersKeepSlots(s: Sys, op: RxOp, x: Slot)
    requires RxReady(s.rx, op) && !op.TakeReady? && !op.Drain? && !op.Discard?
    requires !op.Return? && !op.Flush? && !op.FlushWake?
    ensures Places(RxApply(s, op), x) == Places(s, x)
  {
  }

  lemma RxConservesSlots(s: Sys, op: RxOp, x: Slot)
    requires QueueInv(s) && RxReady(s.rx, op)
    ensures Places(RxApply(s, op), x) == Places(s, x)
  {
    if op.Return? {
      ReturnOnSlots(s.(rx := RxIdle(Got(s.rx.v))), s.rx.slot, x);
    } else if op.Flush? {
      if s.ch.waitq != [] { FlushOnSlots(s, x); }
    } else if op.FlushWake? {
      WakeOnSlots(s, x);
    } else if op.TakeReady? || op.Drain? || op.Discard? {
      TakingConservesSlots(s, op, x);
    } else {
      OthersKeepSlots(s, op, x);
    }
  }

  lemma TxCapacity(c: Channel, h: nat, t: Tx, op: TxOp)
    requires TxReady(t, op)
    ensures TxEffect(c, h, t, op).c.n == c.n
  {
  }

  lemma PlaceCapacity(s: Sys, h: nat, e: Effect)
    requires h < |s.tx| && e.c.n == s.ch.n
    ensures Finish(Place(s, h, e), e).ch.n == s.ch.n
  {
  }

  lemma CapacityFixed(s: Sys, st: Step)
    requires Enabled(s, st)
    ensures Apply(s, st).ch.n == s.ch.n
  {
    if st.TxMove? {
      TxCapacity(s.ch, st.h, s.tx[st.h], st.txOp);
      PlaceCapacity(s, st.h, TxEffect(s.ch, st.h, s.tx[st.h], st.txOp));
    }
  }

  lemma StepKeepsSlots(s: Sys, st: Step)
    requires QueueInv(s) && SlotInv(s) && Enabled(s, st)
    ensures SlotInv(Apply(s, st))
  {
    CapacityFixed(s, st);
    forall x: Slot ensures Places(Apply(s, st), x) == Places(s, x) {
      match st
      case TxMove(h, op) => TxConservesSlots(s, h, op, x);
      case RxMove(op) => RxConservesSlots(s, op, x);
    }
  }

  lemma {:induction false} AllSlotsOnce(n: nat, x: Slot)
    ensures Count(AllSlots(n), x) == if x < n then 1 else 0
  {
    if n == 0 {
    } else {
      AllSlotsOnce(n - 1, x);
      CountAppend(AllSlots(n - 1), n - 1, x);
      assert AllSlots(n) == AllSlots(n - 1) + [n - 1];
    }
  }

  lemma InitSlots(n: nat)
    ensures SlotInv(Init(n))
  {
    forall x: Slot ensures Places(Init(n), x) == if x < n then 1 else 0 {
      AllSlotsOnce(n, x);
      assert Holders([Idle(Fresh)], x) == 0;
    }
  }

  // ----- what conservation means for a slot somebody is about to use

  lemma HolderCounts(tx: seq<Tx>, h: nat, x: Slot)
    requires h < |tx|
    ensures Holders(tx, x) >= One(Held(tx[h]), x)
  {
    HoldersSet(tx, h, Gone, x);
  }

  lemma TwoHolders(tx: seq<Tx>, h: nat, k: nat, x: Slot)
    requires h < |tx| && k < |tx| && h != k
    ensures Holders(tx, x) >= One(Held(tx[h]), x) + One(Held(tx[k]), x)
  {
    HoldersSet(tx, h, Gone, x);
    HolderCounts(tx[h := Gone], k, x);
  }

  /** Slot `x` is real, in no queue, and in the hands of handle `h` alone. */
  ghost predicate OwnedBy(s: Sys, h: nat, x: Slot)
    requires h < |s.tx|
  {
    && x < s.ch.n
    && x !in s.ch.freeq && x !in s.ch.readyq && RxHeld(s.rx) != Some(x) && x !in s.discarded
    && forall k :: 0 <= k < |s.tx| && k != h ==> Held(s.tx[k]) != Some(x)
  }

  lemma HolderOwns(s: Sys, h: nat, x: Slot)
    requires SlotInv(s) && h < |s.tx| && Held(s.tx[h]) == Some(x)
    ensures OwnedBy(s, h, x)
  {
    HolderCounts(s.tx, h, x);
    CountMember(s.ch.freeq, x);
    CountMember(s.ch.readyq, x);
    CountMember(s.discarded, x);
    assert Places(s, x) == 1;
    forall k | 0 <= k < |s.tx| && k != h ensures Held(s.tx[k]) != Some(x) {
      TwoHolders(s.tx, h, k, x);
    }
  }

  /** The slot in the receiver's hands is real, in no queue, and no sender has it. */
  lemma ReceiverOwns(s: Sys, x: Slot)
    requires SlotInv(s) && RxHeld(s.rx) == Some(x)
    ensures x < s.ch.n && x !in s.ch.freeq && x !in s.ch.readyq && x !in s.discarded
    ensures forall k :: 0 <= k < |s.tx| ==> Held(s.tx[k]) != Some(x)
  {
    CountMember(s.ch.freeq, x);
    CountMember(s.ch.readyq, x);
    CountMember(s.discarded, x);
    assert Places(s, x) == 1;
    forall k | 0 <= k < |s.tx| ensures Held(s.tx[k]) != Some(x) {
      HolderCounts(s.tx, k, x);
    }
  }

  lemma {:induction false} CountUpTo(q: seq<Slot>, n: nat)
    requires forall i :: 0 <= i < |q| ==> q[i] < n
    ensures SumCounts(q, n) == |q|
  {
    if q == [] {
      SumOfNone(n);
    } else {
      var last := |q| - 1;
      assert q == q[..last] + [q[last]];
      CountUpTo(q[..last], n);
      SumAppend(q[..last], q[last], n);
    }
  }

  ghost function SumCounts(q: seq<Slot>, n: nat): nat {
    if n == 0 then 0 else SumCounts(q, n - 1) + Count(q, n - 1)
  }

  lemma {:induction false} SumOfNone(n: nat)
    ensures SumCounts([], n) == 0
  {
    if n == 0 {
    } else {
      SumOfNone(n - 1);
    }
  }

  lemma {:induction false} SumAppend(q: seq<Slot>, y: Slot, n: nat)
    ensures SumCounts(q + [y], n) == SumCounts(q, n) + (if y < n then 1 else 0)
  {
    if n == 0 {
    } else {
      SumAppend(q, y, n - 1);
      CountAppend(q, y, n - 1);
    }
  }

  lemma {:induction false} SumBounded(q: seq<Slot>, n: nat)
    requires forall x: Slot :: Count(q, x) <= 1
    ensures SumCounts(q, n) <= n
  {
    if n == 0 {
    } else {
      SumBounded(q, n - 1);
    }
  }

  lemma {:induction false} CountConcat(p: seq<Slot>, q: seq<Slot>, x: Slot)
    ensures Count(p + q, x) == Count(p, x) + Count(q, x)
  {
    if q == [] {
      assert p + q == p;
    } else {
      var last := |q| - 1;
      CountConcat(p, q[..last], x);
      assert (p + q)[..|p + q| - 1] == p + q[..last];
    }
  }

  /** Both queues together have room for a slot that somebody holds. */
  lemma RoomToPush(s: Sys, x: Slot)
    requires SlotInv(s)
    requires RxHeld(s.rx) == Some(x) || exists h :: 0 <= h < |s.tx| && Held(s.tx[h]) == Some(x)
    ensures |s.ch.freeq| + |s.ch.readyq| < s.ch.n
  {
    if RxHeld(s.rx) != Some(x) {
      var h :| 0 <= h < |s.tx| && Held(s.tx[h]) == Some(x);
      HolderCounts(s.tx, h, x);
    }
    var q := s.ch.freeq + s.ch.readyq;
    var all := q + [x];
    forall y: Slot ensures Count(all, y) <= if y < s.ch.n then 1 else 0 {
      assert Places(s, y) <= 1;
      CountAppend(q, x, y);
      CountConcat(s.ch.freeq, s.ch.readyq, y);
    }
    forall i | 0 <= i < |all| ensures all[i] < s.ch.n { CountMember(all, all[i]); }
    CountUpTo(all, s.ch.n);
    SumBounded(all, s.ch.n);
  }
}
