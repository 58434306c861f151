/**
The channel under preemption: any number of sender handles and one receiver,
each advancing by one critical section, one payload copy or one call at a time,
in any order.
*/
module ChannelMachine {
  import opened Options
  import opened Sequences
  import opened ChannelCore

  /** How the last operation of a sender handle ended. */
  datatype Outcome = Fresh | Sent | Full(v: Value) | NoReceiver(v: Value) | Cancelled(v: Value)

  /** Where a sender handle stands. */
  datatype Tx =
    | Idle(last: Outcome)
    // try_send
    | TryLook(v: Value)
    | TryOpen(v: Value)
    | TryTake(v: Value)
    // send, up to the claim of a slot
    | Starting(v: Value)
    | Waiting(v: Value, popped: bool, cell: Option<Slot>, woken: bool)
    // the dropper of send; `failed` tells a closed channel from a cancellation
    | Unlinking(v: Value, popped: bool, cell: Option<Slot>, failed: bool)
    | Emptying(v: Value, cell: Option<Slot>, failed: bool)
    | GivingBack(v: Value, slot: Slot, failed: bool)
    // send_footer
    | Writing(v: Value, slot: Slot)
    | Pushing(v: Value, slot: Slot)
    | Notifying
    // Drop for Sender
    | DroppedLast
    | Gone

  datatype Received = Nothing | Got(v: Value) | Empty | NoSender

  /** Where the receiver stands; `inRecv` tells `recv` from a bare `try_recv`. */
  datatype Rx =
    | RxIdle(last: Received)
    | RxRegister
    | RxTake(inRecv: bool)
    | RxRead(slot: Slot, inRecv: bool)
    | RxReturn(slot: Slot, v: Value, inRecv: bool)
    | RxCheck(mark: nat, inRecv: bool)
    | RxParked
    // Drop for Receiver
    | RxDrain
    | RxDiscard(slot: Slot)
    | RxFlush
    | RxFlushWake(h: nat)
    | RxGone

  /**
  `rxWoken`: the receiver's task was woken since its last poll began.  The last five fields
  record history: the payloads pushed to and read from the ready queue, the slots whose
  payload the receiver's drop discarded, the payloads callers offered, and the payloads
  that an error or a cancellation took back.
  */
  datatype Sys = Sys(
    ch: Channel,
    tx: seq<Tx>,
    rx: Rx,
    rxWoken: bool,
    committed: seq<Value>,
    received: seq<Value>,
    discarded: seq<Slot>,
    offered: multiset<Value>,
    returned: multiset<Value>)

  /** The moves of a sender handle. */
  datatype TxOp =
    | Clone | DropSender | WakeLast
    | CallTrySend(v: Value) | LookQueue | LookOpen | TakeFree
    | CallSend(v: Value) | PollTx | Abandon
    | Unlink | EmptyCell | GiveBack
    | Copy | Commit | Notify

  /** The moves of the receiver. */
  datatype RxOp =
    | CallTryRecv | PollRecv | CancelRecv | Register | TakeReady | Read | Return | CheckSenders
    | DropReceiver | Drain | Discard | Flush | FlushWake

  datatype Step = TxMove(h: nat, txOp: TxOp) | RxMove(rxOp: RxOp)

  ghost function Init(n: nat): Sys {
    Sys(SplitChannel(n), [Idle(Fresh)], RxIdle(Nothing), false, [], [], [], multiset{}, multiset{})
  }

  // ----- one move of a sender handle

  /** What a move does to the payload it carries. */
  datatype Change = Quiet | Offer(v: Value) | HandBack(v: Value) | Push(v: Value)

  /**
  A move: the channel memory and the place of the handle afterwards, the fate of the
  payload, a slot for `return_free_slot`, whether the handle was cloned, and whether
  the receiver's waker is woken.
  */
  datatype Effect = Effect(c: Channel, t: Tx, change: Change, grant: Option<Slot>, fork: bool, wakes: bool)

  ghost function Plain(c: Channel, t: Tx): Effect {
    Effect(c, t, Quiet, None, false, false)
  }

  ghost function Fail(c: Channel, out: Outcome, v: Value): Effect {
    Effect(c, Idle(out), HandBack(v), None, false, false)
  }

  ghost function Verdict(failed: bool, v: Value): Outcome {
    if failed then NoReceiver(v) else Cancelled(v)
  }

  ghost function LinkOf(t: Tx): Link {
    if !t.Waiting? then NoLink else if t.popped then Popped(t.cell) else InQueue
  }

  ghost predicate TxReady(t: Tx, op: TxOp) {
    match op
    case Clone => t.Idle?
    case DropSender => t.Idle?
    case WakeLast => t.DroppedLast?
    case CallTrySend(_) => t.Idle?
    case LookQueue => t.TryLook?
    case LookOpen => t.TryOpen?
    case TakeFree => t.TryTake?
    case CallSend(_) => t.Idle?
    case PollTx => t.Starting? || t.Waiting?
    case Abandon => t.Starting? || t.Waiting?
    case Unlink => t.Unlinking?
    case EmptyCell => t.Emptying?
    case GiveBack => t.GivingBack?
    case Copy => t.Writing?
    case Commit => t.Pushing?
    case Notify => t.Notifying?
  }

  ghost function Polled(c: Channel, h: nat, t: Tx): Effect
    requires t.Starting? || t.Waiting?
  {
    var (c', r) := PollSend(c, h, LinkOf(t));
    match r
    case Closed => if t.Waiting? then Plain(c', Unlinking(t.v, t.popped, t.cell, true))
                   else Fail(c', NoReceiver(t.v), t.v)
    case ClosedByDrop => Fail(c', NoReceiver(t.v), t.v)
    case Granted(slot) => Plain(c', Writing(t.v, slot))
    case TookFree(slot) => Plain(c', Writing(t.v, slot))
    case StillQueued => Plain(c', Waiting(t.v, false, None, false))
    case Enqueued => Plain(c', Waiting(t.v, false, None, false))
  }

  ghost function TxEffect(c: Channel, h: nat, t: Tx, op: TxOp): Effect
    requires TxReady(t, op)
  {
    match op
    case Clone => Plain(c.(numSenders := c.numSenders + 1), t).(fork := true)
    case DropSender =>
      var left := c.numSenders - 1;
      Plain(c.(numSenders := left), if left == 0 then DroppedLast else Gone)
    case WakeLast => Plain(c, Gone).(wakes := true)
    case CallTrySend(v) => Plain(c, TryLook(v)).(change := Offer(v))
    case LookQueue => if c.waitq != [] then Fail(c, Full(t.v), t.v) else Plain(c, TryOpen(t.v))
    case LookOpen => if c.receiverDropped then Fail(c, NoReceiver(t.v), t.v) else Plain(c, TryTake(t.v))
    case TakeFree =>
      if c.freeq == [] then Fail(c, Full(t.v), t.v)
      else Plain(c.(freeq := c.freeq[1..]), Writing(t.v, c.freeq[0]))
    case CallSend(v) => Plain(c, Starting(v)).(change := Offer(v))
    case PollTx => Polled(c, h, t)
    case Abandon =>
      if t.Starting? then Fail(c, Cancelled(t.v), t.v)
      else Plain(c, Unlinking(t.v, t.popped, t.cell, false))
    case Unlink =>
      Plain(if t.popped then c else c.(waitq := Without(c.waitq, h)), Emptying(t.v, t.cell, t.failed))
    case EmptyCell =>
      if t.cell.Some? then Plain(c, GivingBack(t.v, t.cell.value, t.failed))
      else Fail(c, Verdict(t.failed, t.v), t.v)
    case GiveBack => Fail(c, Verdict(t.failed, t.v), t.v).(grant := Some(t.slot))
    case Copy => Plain(WriteSlot(c, t.slot, t.v), Pushing(t.v, t.slot))
    case Commit => Plain(c.(readyq := c.readyq + [t.slot]), Notifying).(change := Push(t.v))
    case Notify => Plain(c, Idle(Sent)).(wakes := true)
  }

  // ----- one move in the whole system

  /** `WakerRegistration::wake` on the receiver's waker. */
  ghost function WakeRx(s: Sys): Sys {
    if s.ch.rxWaker then s.(ch := s.ch.(rxWaker := false), rxWoken := true) else s
  }

  /** What a waiter's future looks like after it was popped and handed `cell`. */
  ghost function Pop(t: Tx, cell: Option<Slot>, woken: bool): Tx {
    match t
    case Waiting(v, _, _, wasWoken) => Waiting(v, true, cell, wasWoken || woken)
    case Unlinking(v, _, _, failed) => Unlinking(v, true, cell, failed)
    case _ => t
  }

  ghost function PopAt(tx: seq<Tx>, h: nat, cell: Option<Slot>, woken: bool): seq<Tx> {
    if h < |tx| then tx[h := Pop(tx[h], cell, woken)] else tx
  }

  ghost function ReturnSlot(s: Sys, slot: Slot): Sys {
    s.(ch := ReturnFree(s.ch, slot),
       tx := if s.ch.waitq == [] then s.tx else PopAt(s.tx, s.ch.waitq[0], Some(slot), true))
  }

  ghost function Record(s: Sys, change: Change): Sys {
    match change
    case Quiet => s
    case Offer(v) => s.(offered := s.offered + multiset{v})
    case HandBack(v) => s.(returned := s.returned + multiset{v})
    case Push(v) => s.(committed := s.committed + [v])
  }

  /** The handle's own part of a move: memory, place and history. */
  ghost function Place(s: Sys, h: nat, e: Effect): Sys
    requires h < |s.tx|
  {
    Record(s.(ch := e.c, tx := s.tx[h := e.t] + if e.fork then [Idle(Fresh)] else []), e.change)
  }

  ghost function Finish(s: Sys, e: Effect): Sys {
    var s1 := if e.grant.Some? then ReturnSlot(s, e.grant.value) else s;
    if e.wakes then WakeRx(s1) else s1
  }

  ghost predicate RxReady(rx: Rx, op: RxOp) {
    match op
    case CallTryRecv => rx.RxIdle?
    case PollRecv => rx.RxIdle? || rx.RxParked?
    case CancelRecv => rx.RxParked?
    case Register => rx.RxRegister?
    case TakeReady => rx.RxTake?
    case Read => rx.RxRead?
    case Return => rx.RxReturn?
    case CheckSenders => rx.RxCheck?
    case DropReceiver => rx.RxIdle?
    case Drain => rx.RxDrain?
    case Discard => rx.RxDiscard?
    case Flush => rx.RxFlush?
    case FlushWake => rx.RxFlushWake?
  }

  ghost function RxApply(s: Sys, op: RxOp): Sys
    requires RxReady(s.rx, op)
  {
    match op
    case CallTryRecv => s.(rx := RxTake(false))
    case PollRecv => s.(rx := RxRegister, rxWoken := false)
    case CancelRecv => s.(rx := RxIdle(Nothing))
    case Register => s.(rx := RxTake(true), ch := s.ch.(rxWaker := true))
    case TakeReady =>
      if s.ch.readyq == [] then s.(rx := RxCheck(|s.committed|, s.rx.inRecv))
      else s.(rx := RxRead(s.ch.readyq[0], s.rx.inRecv), ch := s.ch.(readyq := s.ch.readyq[1..]))
    case Read =>
      var v := ReadSlot(s.ch, s.rx.slot);
      s.(rx := RxReturn(s.rx.slot, v, s.rx.inRecv), received := s.received + [v])
    case Return => ReturnSlot(s.(rx := RxIdle(Got(s.rx.v))), s.rx.slot)
    case CheckSenders =>
      s.(rx := if s.ch.numSenders == 0 then RxIdle(NoSender)
               else if s.rx.inRecv then RxParked else RxIdle(Empty))
    case DropReceiver => s.(rx := RxDrain, ch := s.ch.(receiverDropped := true))
    case Drain =>
      if s.ch.readyq == [] then s.(rx := RxFlush)
      else
        var last := |s.ch.readyq| - 1;
        s.(rx := RxDiscard(s.ch.readyq[last]), ch := s.ch.(readyq := s.ch.readyq[..last]))
    case Discard => s.(rx := RxDrain, discarded := s.discarded + [s.rx.slot])
    case Flush =>
      if s.ch.waitq == [] then s.(rx := RxGone)
      else s.(rx := RxFlushWake(s.ch.waitq[0]), ch := s.ch.(waitq := s.ch.waitq[1..]),
              tx := PopAt(s.tx, s.ch.waitq[0], None, false))
    case FlushWake =>
      s.(rx := RxFlush, tx := WakeAt(s.tx, s.rx.h))
  }

  ghost function WakeAt(tx: seq<Tx>, h: nat): seq<Tx> {
    if h < |tx| && tx[h].Waiting? then tx[h := tx[h].(woken := true)] else tx
  }

  ghost predicate Enabled(s: Sys, st: Step) {
    match st
    case TxMove(h, op) => h < |s.tx| && TxReady(s.tx[h], op)
    case RxMove(op) => RxReady(s.rx, op)
  }

  ghost function Apply(s: Sys, st: Step): Sys
    requires Enabled(s, st)
  {
    match st
    case TxMove(h, op) =>
      var e := TxEffect(s.ch, h, s.tx[h], op);
      Finish(Place(s, h, e), e)
    case RxMove(op) => RxApply(s, op)
  }

  ghost predicate Next(s: Sys, s': Sys) {
    exists st: Step :: Enabled(s, st) && s' == Apply(s, st)
  }

  /** A finite execution of a channel of capacity `n`, from its split on. */
  ghost predicate IsRun(n: nat, run: seq<Sys>) {
    && |run| > 0
    && run[0] == Init(n)
    && forall i :: 0 <= i < |run| - 1 ==> Next(run[i], run[i + 1])
  }
}
