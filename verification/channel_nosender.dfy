/**
When `NoSender` can leave a payload behind, in terms of what the receiver could see before the
call: whether the channel has room for a payload and a sender handle is still alive.
*/
module ChannelNoSender {
  import opened ChannelCore
  import opened ChannelMachine
  import opened ChannelQueue
  import opened ChannelSlots
  import opened ChannelRuns
  import Object = ChannelObject

  /** The receiver is about to report `NoSender` with a payload in the ready queue. */
  ghost predicate Misses(s: Sys) {
    s.rx.RxCheck? && s.ch.numSenders == 0 && s.ch.readyq != []
  }

  // ----- a closed channel stays closed

  lemma RxFrame(s: Sys, op: RxOp)
    requires RxReady(s.rx, op)
    ensures var s' := RxApply(s, op);
            && s'.ch.numSenders == s.ch.numSenders && s'.committed == s.committed
            && (s'.rx.RxCheck? ==> s'.rx.mark == |s.committed| && !s.rx.RxCheck?)
  {
  }

  lemma StepOfClosed(s: Sys, st: Step)
    requires Enabled(s, st) && s.ch.numSenders == 0
    requires forall h :: 0 <= h < |s.tx| ==> s.tx[h].Gone? || s.tx[h].DroppedLast?
    ensures var s' := Apply(s, st);
            && s'.ch.numSenders == 0 && s'.committed == s.committed
            && (s'.rx.RxCheck? && !s.rx.RxCheck? ==> s'.rx.mark == |s.committed|)
            && (s'.rx.RxCheck? && s.rx.RxCheck? ==> s'.rx == s.rx)
  {
    match st
    case TxMove(h, op) => assert op == WakeLast;
    case RxMove(op) => RxFrame(s, op);
  }

  lemma StepAfterZero(n: nat, run: seq<Sys>, j: nat)
    requires IsRun(n, run) && 0 < j < |run| && run[j - 1].ch.numSenders == 0
    ensures var s, s' := run[j - 1], run[j];
            && s'.ch.numSenders == 0 && s'.committed == s.committed
            && (s'.rx.RxCheck? && !s.rx.RxCheck? ==> s'.rx.mark == |s.committed|)
            && (s'.rx.RxCheck? && s.rx.RxCheck? ==> s'.rx == s.rx)
  {
    NoSenderIsFinal(n, run, j - 1);
    var st := StepTaken(n, run, j);
    StepOfClosed(run[j - 1], st);
  }

  /** Once no handle is alive none ever is again, and nothing more is committed. */
  lemma {:induction false} ClosedForGood(n: nat, run: seq<Sys>, i: nat, j: nat)
    requires IsRun(n, run) && i <= j < |run| && run[i].ch.numSenders == 0
    ensures run[j].ch.numSenders == 0 && run[j].committed == run[i].committed
  {
    if i == j {
    } else {
      ClosedForGood(n, run, i, j - 1);
      StepAfterZero(n, run, j);
    }
  }

  lemma {:induction false} MarkIsComplete(n: nat, run: seq<Sys>, i: nat, j: nat)
    requires IsRun(n, run) && i <= j < |run| && run[i].ch.numSenders == 0 && run[i].rx.RxTake?
    ensures run[j].rx.RxCheck? ==> run[j].rx.mark == |run[j].committed|
  {
    if i == j {
    } else {
      MarkIsComplete(n, run, i, j - 1);
      ClosedForGood(n, run, i, j - 1);
      StepAfterZero(n, run, j);
    }
  }

  /**
  What a caller can do: if the channel is closed when the receiver is about to pop, the
  `NoSender` that this call or any later one reports leaves nothing behind.
  */
  lemma ClosedBeforeThePop(n: nat, run: seq<Sys>, i: nat, j: nat)
    requires IsRun(n, run) && i <= j < |run| && run[i].ch.numSenders == 0 && run[i].rx.RxTake?
    ensures !Misses(run[j])
    ensures run[j].rx.RxCheck? ==> Apply(run[j], RxMove(CheckSenders)).rx == RxIdle(NoSender)
  {
    ClosedForGood(n, run, i, j);
    MarkIsComplete(n, run, i, j);
    if run[j].rx.RxCheck? { NoSenderMissesExactlyTheLateCommits(n, run, j); }
  }

  lemma ReadyIsReal(s: Sys, x: Slot)
    requires SlotInv(s) && x in s.ch.readyq
    ensures x < s.ch.n
  {
    CountMember(s.ch.readyq, x);
    assert Places(s, x) > 0;
  }

  /** A channel of capacity 0 never has a payload. */
  lemma NoRoomNoPayload(n: nat, run: seq<Sys>, i: nat)
    requires IsRun(n, run) && i < |run| && n == 0
    ensures run[i].ch.readyq == []
  {
    RunKeepsInv(n, run, i);
    if run[i].ch.readyq != [] { ReadyIsReal(run[i], run[i].ch.readyq[0]); }
  }

  lemma StepDiscards(s: Sys, st: Step)
    requires QueueInv(s) && Enabled(s, st)
    requires !s.ch.receiverDropped ==> s.discarded == []
    ensures !Apply(s, st).ch.receiverDropped ==> Apply(s, st).discarded == []
  {
    if st.TxMove? { EffectFrame(s.ch, st.h, s.tx[st.h], st.txOp); }
  }

  /** Only the receiver's drop discards. */
  lemma {:induction false} NothingDiscarded(n: nat, run: seq<Sys>, i: nat)
    requires IsRun(n, run) && i < |run|
    ensures !run[i].ch.receiverDropped ==> run[i].discarded == []
  {
    if i == 0 {
    } else {
      NothingDiscarded(n, run, i - 1);
      RunKeepsInv(n, run, i - 1);
      var st := StepTaken(n, run, i);
      StepDiscards(run[i - 1], st);
    }
  }

  // ----- driving the senders while the receiver stands at its check

  /** An extension of the run during which the receiver does not move on from its check. */
  ghost predicate Meanwhile(n: nat, run: seq<Sys>, longer: seq<Sys>) {
    && IsRun(n, longer) && |run| > 0 && run <= longer
    && forall k :: |run| <= k < |longer| ==> longer[k].rx.RxCheck?
  }

  ghost predicate Settled(t: Tx) { t.Idle? || t.Gone? }

  lemma EffectFrame(c: Channel, h: nat, t: Tx, op: TxOp)
    requires TxReady(t, op)
    ensures var e := TxEffect(c, h, t, op);
            && |e.c.readyq| >= |c.readyq| && e.c.receiverDropped == c.receiverDropped
            && (e.fork ==> op.Clone?) && (!op.Clone? && !op.DropSender? ==> e.c.numSenders == c.numSenders)
  {
  }

  lemma FinishFrame(s: Sys, e: Effect)
    ensures var s' := Finish(s, e);
            && s'.rx == s.rx && |s'.tx| == |s.tx| && s'.ch.readyq == s.ch.readyq
            && s'.ch.numSenders == s.ch.numSenders
            && (forall k :: 0 <= k < |s.tx| && Settled(s.tx[k]) ==> s'.tx[k] == s.tx[k])
  {
  }

  /** A move of one handle leaves alone the receiver and everybody at rest. */
  lemma MoveFrame(s: Sys, h: nat, op: TxOp)
    requires Enabled(s, TxMove(h, op)) && !op.Clone?
    ensures var s' := Apply(s, TxMove(h, op));
            && s'.rx == s.rx && |s'.tx| == |s.tx| && |s'.ch.readyq| >= |s.ch.readyq|
            && (!op.DropSender? ==> s'.ch.numSenders == s.ch.numSenders)
            && (forall k :: 0 <= k < |s.tx| && k != h && Settled(s.tx[k]) ==> s'.tx[k] == s.tx[k])
  {
    var e := TxEffect(s.ch, h, s.tx[h], op);
    EffectFrame(s.ch, h, s.tx[h], op);
    var s1 := Place(s, h, e);
    assert s1.tx == s.tx[h := e.t] && s1.rx == s.rx && s1.ch == e.c;
    FinishFrame(s1, e);
  }

  lemma Drive(n: nat, run: seq<Sys>, h: nat, op: TxOp) returns (longer: seq<Sys>)
    requires IsRun(n, run) && Last(run).rx.RxCheck? && Enabled(Last(run), TxMove(h, op)) && !op.Clone?
    ensures Meanwhile(n, run, longer) && Last(longer).rx == Last(run).rx
    ensures var s, s' := Last(run), Last(longer);
            && |s'.tx| == |s.tx| && |s'.ch.readyq| >= |s.ch.readyq|
            && (!op.DropSender? ==> s'.ch.numSenders == s.ch.numSenders)
            && (forall k :: 0 <= k < |s.tx| && k != h && Settled(s.tx[k]) ==> s'.tx[k] == s.tx[k])
            && (s'.ch, s'.tx[h]) == Object.MoveAlone(s.ch, h, s.tx[h], op)
  {
    var s := Last(run);
    MoveFrame(s, h, op);
    RunKeepsInv(n, run, |run| - 1);
    Object.MoveAloneIsApply(s, h, op);
    longer := run + [Apply(s, TxMove(h, op))];
    assert Next(s, Apply(s, TxMove(h, op)));
    assert IsRun(n, longer);
  }

  /** How far a handle is from rest. */
  ghost function Distance(t: Tx): nat {
    if t.Starting? || t.Waiting? then 7 else Object.Rank(t)
  }

  /** What a handle does next if its caller wants it to come to rest. */
  ghost function RestOp(t: Tx): TxOp {
    if t.Starting? || t.Waiting? || Object.NextOp(t).None? then Abandon else Object.NextOp(t).value
  }

  lemma RestOpApproaches(c: Channel, h: nat, t: Tx)
    requires !Settled(t)
    ensures TxReady(t, RestOp(t)) && !RestOp(t).Clone? && !RestOp(t).DropSender?
    ensures Distance(Object.MoveAlone(c, h, t, RestOp(t)).1) < Distance(t)
  {
  }

  /** Any operation under way can be brought to its end, a wait by giving up. */
  lemma {:induction false} Settle(n: nat, run: seq<Sys>, h: nat) returns (longer: seq<Sys>)
    requires IsRun(n, run) && Last(run).rx.RxCheck? && h < |Last(run).tx|
    ensures Meanwhile(n, run, longer) && Last(longer).rx.RxCheck?
    ensures var s, s' := Last(run), Last(longer);
            && |s'.tx| == |s.tx| && |s'.ch.readyq| >= |s.ch.readyq| && s'.ch.numSenders == s.ch.numSenders
            && Settled(s'.tx[h])
            && (forall k :: 0 <= k < |s.tx| && k != h && Settled(s.tx[k]) ==> s'.tx[k] == s.tx[k])
    decreases Distance(Last(run).tx[h])
  {
    var s := Last(run);
    if Settled(s.tx[h]) {
      longer := run;
    } else {
      RestOpApproaches(s.ch, h, s.tx[h]);
      var next := Drive(n, run, h, RestOp(s.tx[h]));
      longer := Settle(n, next, h);
    }
  }

  lemma {:induction false} SettleAll(n: nat, run: seq<Sys>, k: nat) returns (longer: seq<Sys>)
    requires IsRun(n, run) && Last(run).rx.RxCheck? && k <= |Last(run).tx|
    ensures Meanwhile(n, run, longer) && Last(longer).rx.RxCheck?
    ensures var s, s' := Last(run), Last(longer);
            && |s'.tx| == |s.tx| && |s'.ch.readyq| >= |s.ch.readyq| && s'.ch.numSenders == s.ch.numSenders
            && (forall h :: 0 <= h < k ==> Settled(s'.tx[h]))
  {
    if k == 0 {
      longer := run;
    } else {
      var most := SettleAll(n, run, k - 1);
      longer := Settle(n, most, k - 1);
    }
  }

  /** A handle at rest is dropped. */
  lemma DropOne(n: nat, run: seq<Sys>, h: nat) returns (longer: seq<Sys>)
    requires IsRun(n, run) && Last(run).rx.RxCheck? && h < |Last(run).tx| && Settled(Last(run).tx[h])
    ensures Meanwhile(n, run, longer) && Last(longer).rx.RxCheck?
    ensures var s, s' := Last(run), Last(longer);
            && |s'.tx| == |s.tx| && |s'.ch.readyq| >= |s.ch.readyq| && s'.tx[h].Gone?
            && (forall k :: 0 <= k < |s.tx| && k != h && Settled(s.tx[k]) ==> s'.tx[k] == s.tx[k])
  {
    longer := run;
    if Last(run).tx[h].Idle? {
      longer := Drive(n, run, h, TxOp.DropSender);
      if Last(longer).tx[h].DroppedLast? {
        longer := Drive(n, longer, h, WakeLast);
      }
    }
  }

  lemma {:induction false} DropAll(n: nat, run: seq<Sys>, k: nat) returns (longer: seq<Sys>)
    requires IsRun(n, run) && Last(run).rx.RxCheck? && k <= |Last(run).tx|
    requires forall h :: 0 <= h < |Last(run).tx| ==> Settled(Last(run).tx[h])
    ensures Meanwhile(n, run, longer) && Last(longer).rx.RxCheck?
    ensures var s, s' := Last(run), Last(longer);
            && |s'.tx| == |s.tx| && |s'.ch.readyq| >= |s.ch.readyq|
            && (forall h :: 0 <= h < |s.tx| ==> Settled(s'.tx[h]) && (h < k ==> s'.tx[h].Gone?))
  {
    if k == 0 {
      longer := run;
    } else {
      var most := DropAll(n, run, k - 1);
      longer := DropOne(n, most, k - 1);
    }
  }

  lemma {:induction false} NoneAlive(tx: seq<Tx>)
    requires forall h :: 0 <= h < |tx| ==> !Alive(tx[h])
    ensures AliveCount(tx) == 0
  {
    if tx == [] {
    } else {
      NoneAlive(tx[..|tx| - 1]);
    }
  }

  lemma {:induction false} NoneHolds(tx: seq<Tx>, x: Slot)
    requires forall h :: 0 <= h < |tx| ==> Settled(tx[h])
    ensures Holders(tx, x) == 0
  {
    if tx == [] {
    } else {
      NoneHolds(tx[..|tx| - 1], x);
    }
  }

  lemma {:induction false} SomeAlive(tx: seq<Tx>) returns (h: nat)
    requires AliveCount(tx) > 0
    ensures h < |tx| && Alive(tx[h])
  {
    var last := |tx| - 1;
    if Alive(tx[last]) {
      h := last;
    } else {
      h := SomeAlive(tx[..last]);
    }
  }

  /** With everybody at rest and nothing ready, nobody waits and a slot is free. */
  lemma RestMeansRoom(n: nat, run: seq<Sys>)
    requires IsRun(n, run) && n > 0 && Last(run).rx.RxCheck? && Last(run).ch.readyq == []
    requires forall h :: 0 <= h < |Last(run).tx| ==> Settled(Last(run).tx[h])
    ensures var s := Last(run); s.ch.waitq == [] && s.ch.freeq != [] && !s.ch.receiverDropped
  {
    var s := Last(run);
    RunKeepsInv(n, run, |run| - 1);
    NothingDiscarded(n, run, |run| - 1);
    if s.ch.waitq != [] { assert s.ch.waitq[0] in s.ch.waitq; }
    NoneHolds(s.tx, 0);
    assert Places(s, 0) == 1;
  }

  /** One more payload from a handle at rest. */
  lemma SendOne(n: nat, run: seq<Sys>, h: nat) returns (longer: seq<Sys>)
    requires IsRun(n, run) && n > 0 && Last(run).rx.RxCheck? && Last(run).ch.readyq == []
    requires forall k :: 0 <= k < |Last(run).tx| ==> Settled(Last(run).tx[k])
    requires h < |Last(run).tx| && Last(run).tx[h].Idle?
    ensures Meanwhile(n, run, longer) && Last(longer).rx.RxCheck? && Last(longer).ch.readyq != []
    ensures |Last(longer).tx| == |Last(run).tx|
    ensures forall k :: 0 <= k < |Last(run).tx| ==> Settled(Last(longer).tx[k])
  {
    RestMeansRoom(n, run);
    longer := Drive(n, run, h, CallTrySend(0));
    longer := Drive(n, longer, h, LookQueue);
    longer := Drive(n, longer, h, LookOpen);
    longer := Drive(n, longer, h, TakeFree);
    longer := Drive(n, longer, h, Copy);
    longer := Drive(n, longer, h, Commit);
    longer := Drive(n, longer, h, Notify);
  }

  // ----- the condition

  /** The call that is about to pop can still end in such a report. */
  ghost predicate CanMiss(n: nat, run: seq<Sys>) {
    exists longer :: Meanwhile(n, run, longer) && |longer| > |run| && Misses(Last(longer))
  }

  lemma MissReached(n: nat, run: seq<Sys>) returns (longer: seq<Sys>)
    requires IsRun(n, run) && n > 0 && Last(run).rx.RxCheck? && Last(run).ch.numSenders > 0
    ensures Meanwhile(n, run, longer) && Misses(Last(longer))
  {
    longer := SettleAll(n, run, |Last(run).tx|);
    if Last(longer).ch.readyq == [] {
      var h := AliveHandle(n, longer);
      longer := SendOne(n, longer, h);
    }
    longer := DropAll(n, longer, |Last(longer).tx|);
    NoHandle(n, longer);
  }

  lemma AliveHandle(n: nat, run: seq<Sys>) returns (h: nat)
    requires IsRun(n, run) && Last(run).ch.numSenders > 0
    ensures h < |Last(run).tx| && Alive(Last(run).tx[h])
  {
    RunKeepsInv(n, run, |run| - 1);
    h := SomeAlive(Last(run).tx);
  }

  lemma NoHandle(n: nat, run: seq<Sys>)
    requires IsRun(n, run) && forall h :: 0 <= h < |Last(run).tx| ==> Last(run).tx[h].Gone?
    ensures Last(run).ch.numSenders == 0
  {
    RunKeepsInv(n, run, |run| - 1);
    NoneAlive(Last(run).tx);
  }

  lemma MissFrom(n: nat, run: seq<Sys>) returns (longer: seq<Sys>)
    requires IsRun(n, run) && Last(run).rx.RxTake? && Last(run).ch.readyq == []
    requires n > 0 && Last(run).ch.numSenders > 0
    ensures Meanwhile(n, run, longer) && |longer| > |run| && Misses(Last(longer))
  {
    var atCheck := Extend(n, run, RxMove(TakeReady));
    longer := MissReached(n, atCheck);
    assert longer[|run|] == atCheck[|run|];
  }

  lemma NoNegativeCount(n: nat, run: seq<Sys>)
    requires IsRun(n, run)
    ensures Last(run).ch.numSenders >= 0
  {
    RunKeepsInv(n, run, |run| - 1);
  }

  lemma NoMissFrom(n: nat, run: seq<Sys>, longer: seq<Sys>)
    requires IsRun(n, run) && Last(run).rx.RxTake? && (n == 0 || Last(run).ch.numSenders == 0)
    requires Meanwhile(n, run, longer) && |longer| > |run|
    ensures !Misses(Last(longer))
  {
    assert longer[|run| - 1] == Last(run);
    if n == 0 {
      NoRoomNoPayload(n, longer, |longer| - 1);
    } else {
      ClosedBeforeThePop(n, longer, |run| - 1, |longer| - 1);
    }
  }

  /**
  The exact condition, for a receiver whose pop is about to find nothing: its call can still
  report `NoSender` with a payload left behind if and only if some handle is alive and the
  channel can hold a payload at all.
  */
  lemma MissPossibleIff(n: nat, run: seq<Sys>)
    requires IsRun(n, run) && Last(run).rx.RxTake? && Last(run).ch.readyq == []
    ensures CanMiss(n, run) <==> n > 0 && Last(run).ch.numSenders > 0
  {
    if n > 0 && Last(run).ch.numSenders > 0 {
      var longer := MissFrom(n, run);
      assert Meanwhile(n, run, longer);
    } else {
      NoNegativeCount(n, run);
      forall longer | Meanwhile(n, run, longer) && |longer| > |run| ensures !Misses(Last(longer)) {
        NoMissFrom(n, run, longer);
      }
    }
  }
}
