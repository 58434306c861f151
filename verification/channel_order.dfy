/** Senders are served in the order in which they started to wait. */
module ChannelOrder {
  import opened Sequences
  import opened ChannelCore
  import opened ChannelMachine
  import opened ChannelRuns

  /** `h` waits, and `k` does not, or further back. */
  ghost predicate Ahead(q: seq<nat>, h: nat, k: nat) {
    h in q && (k in q ==> IndexOf(q, h) < IndexOf(q, k))
  }

  lemma {:induction false} IndexIs(q: seq<nat>, i: nat)
    requires Distinct(q) && i < |q|
    ensures IndexOf(q, q[i]) == i
  {
    if i == 0 {
    } else {
      IndexIs(q[1..], i - 1);
    }
  }

  lemma AheadAppend(q: seq<nat>, x: nat, h: nat, k: nat)
    requires Distinct(q + [x]) && Ahead(q, h, k) && h != k
    ensures Ahead(q + [x], h, k)
  {
    var i := IndexOf(q, h);
    IndexIs(q + [x], i);
    if k in q {
      IndexIs(q + [x], IndexOf(q, k));
    } else if k == x {
      IndexIs(q + [x], |q|);
    }
  }

  /** Deleting one of the others keeps the two in order. */
  lemma AheadDelete(q: seq<nat>, d: nat, h: nat, k: nat)
    requires Distinct(q) && d < |q| && q[d] != h && h != k && Ahead(q, h, k)
    ensures Ahead(q[..d] + q[d + 1..], h, k)
  {
    var r := q[..d] + q[d + 1..];
    var i := IndexOf(q, h);
    var i' := if i < d then i else i - 1;
    assert r[i'] == h;
    assert Distinct(r);
    IndexIs(r, i');
    if k in r {
      var j' := IndexOf(r, k);
      IndexIs(q, if j' < d then j' else j' + 1);
    }
  }

  /** What one step can do to the wait queue. */
  ghost predicate Shape(q: seq<nat>, q': seq<nat>) {
    || q' == q
    || (q' != [] && q' == q + [q'[|q'| - 1]])
    || (exists d :: 0 <= d < |q| && Deleted(q, d, q'))
  }

  ghost predicate Deleted(q: seq<nat>, d: nat, q': seq<nat>)
    requires d < |q|
  {
    q' == q[..d] + q[d + 1..]
  }

  lemma PopShape(q: seq<nat>)
    requires q != []
    ensures Shape(q, q[1..])
  {
    assert Deleted(q, 0, q[1..]);
  }

  lemma AppendShape(q: seq<nat>, x: nat)
    ensures Shape(q, q + [x])
  {
    assert (q + [x])[|q|] == x;
  }

  lemma WithoutShape(q: seq<nat>, x: nat)
    ensures Shape(q, Without(q, x))
  {
    if x in q {
      var d := IndexOf(q, x);
      WithoutAt(q, d);
      assert Deleted(q, d, Without(q, x));
    } else {
      WithoutAbsent(q, x);
    }
  }

  /** Only a poll enqueues, only an unlinking removes, and neither hands out a slot. */
  lemma EffectQueue(c: Channel, h: nat, t: Tx, op: TxOp)
    requires TxReady(t, op)
    ensures var e := TxEffect(c, h, t, op);
            && (e.grant.Some? ==> e.c.waitq == c.waitq)
            && (e.c.waitq == c.waitq || e.c.waitq == c.waitq + [h] || e.c.waitq == Without(c.waitq, h))
  {
  }

  lemma MoveQueue(s: Sys, h: nat, e: Effect)
    requires h < |s.tx|
    ensures Finish(Place(s, h, e), e).ch.waitq
         == if e.grant.Some? && e.c.waitq != [] then e.c.waitq[1..] else e.c.waitq
  {
  }

  lemma TxShape(s: Sys, h: nat, op: TxOp)
    requires Enabled(s, TxMove(h, op))
    ensures Shape(s.ch.waitq, Apply(s, TxMove(h, op)).ch.waitq)
  {
    var q := s.ch.waitq;
    var e := TxEffect(s.ch, h, s.tx[h], op);
    EffectQueue(s.ch, h, s.tx[h], op);
    MoveQueue(s, h, e);
    AppendShape(q, h);
    WithoutShape(q, h);
    if q != [] { PopShape(q); }
  }

  lemma RxShape(s: Sys, op: RxOp)
    requires RxReady(s.rx, op)
    ensures Shape(s.ch.waitq, RxApply(s, op).ch.waitq)
  {
    if s.ch.waitq != [] { PopShape(s.ch.waitq); }
  }

  lemma DistinctQueue(n: nat, run: seq<Sys>, i: nat)
    requires IsRun(n, run) && i < |run|
    ensures Distinct(run[i].ch.waitq)
  {
    RunKeepsInv(n, run, i);
  }

  lemma StepShape(n: nat, run: seq<Sys>, j: nat)
    requires IsRun(n, run) && 0 < j < |run|
    ensures Shape(run[j - 1].ch.waitq, run[j].ch.waitq)
  {
    var st := StepTaken(n, run, j);
    match st
    case TxMove(h, op) => TxShape(run[j - 1], h, op);
    case RxMove(op) => RxShape(run[j - 1], op);
  }

  lemma ShapeKeepsAhead(q: seq<nat>, q': seq<nat>, h: nat, k: nat)
    requires Distinct(q) && Distinct(q') && Shape(q, q') && h != k && Ahead(q, h, k) && h in q'
    ensures Ahead(q', h, k)
  {
    if q' != q && q' != [] && q' == q + [q'[|q'| - 1]] {
      AheadAppend(q, q'[|q'| - 1], h, k);
    } else if q' != q {
      var d :| 0 <= d < |q| && Deleted(q, d, q');
      IndexIs(q, d);
      if q[d] == h { NotLeft(q, d); }
      AheadDelete(q, d, h, k);
    }
  }

  lemma NotLeft(q: seq<nat>, d: nat)
    requires Distinct(q) && d < |q|
    ensures q[d] !in q[..d] + q[d + 1..]
  {
  }

  lemma {:induction false} StaysAhead(qs: seq<seq<nat>>, h: nat, k: nat)
    requires |qs| > 0 && h != k && Ahead(qs[0], h, k)
    requires forall l :: 0 <= l < |qs| ==> Distinct(qs[l]) && h in qs[l]
    requires forall l :: 0 < l < |qs| ==> Shape(qs[l - 1], qs[l])
    ensures Ahead(qs[|qs| - 1], h, k)
  {
    var last := |qs| - 1;
    if last > 0 {
      StaysAhead(qs[..last], h, k);
      ShapeKeepsAhead(qs[last - 1], qs[last], h, k);
    }
  }

  /** The wait queue in every state of a run. */
  ghost function Queues(run: seq<Sys>): (qs: seq<seq<nat>>)
    ensures |qs| == |run| && forall l :: 0 <= l < |run| ==> qs[l] == run[l].ch.waitq
  {
    seq(|run|, l requires 0 <= l < |run| => run[l].ch.waitq)
  }

  lemma QueuesOfRun(n: nat, run: seq<Sys>, qs: seq<seq<nat>>)
    requires IsRun(n, run) && qs == Queues(run)
    ensures forall l :: 0 <= l < |qs| ==> Distinct(qs[l])
    ensures forall l :: 0 < l < |qs| ==> Shape(qs[l - 1], qs[l])
  {
    forall l | 0 <= l < |qs| ensures Distinct(qs[l]) {
      DistinctQueue(n, run, l);
    }
    forall l | 0 < l < |qs| ensures Shape(qs[l - 1], qs[l]) {
      StepShape(n, run, l);
    }
  }

  lemma AheadFromTo(qs: seq<seq<nat>>, i: nat, j: nat, h: nat, k: nat)
    requires i <= j < |qs| && h != k
    requires forall l :: 0 <= l < |qs| ==> Distinct(qs[l])
    requires forall l :: 0 < l < |qs| ==> Shape(qs[l - 1], qs[l])
    requires forall l :: i <= l <= j ==> h in qs[l]
    requires k !in qs[i]
    ensures Ahead(qs[j], h, k) && qs[j][0] != k
  {
    var part := qs[i..j + 1];
    assert part[0] == qs[i] && part[|part| - 1] == qs[j];
    StaysAhead(part, h, k);
    IndexIs(qs[j], 0);
  }

  /**
  First come, first served: as long as a sender waits, nobody who started to wait later gets
  ahead of it, and so nobody who did is the one that a returned slot goes to.
  */
  lemma WaitersAreServedInOrder(n: nat, run: seq<Sys>, i: nat, j: nat, h: nat, k: nat)
    requires IsRun(n, run) && i <= j < |run| && h != k
    requires forall l :: i <= l <= j ==> h in Queues(run)[l]
    requires k !in Queues(run)[i]
    ensures Ahead(run[j].ch.waitq, h, k) && run[j].ch.waitq[0] != k
  {
    QueuesOfRun(n, run, Queues(run));
    AheadFromTo(Queues(run), i, j, h, k);
  }
}
