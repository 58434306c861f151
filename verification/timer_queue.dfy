/**
The interrupt handler of the timer queue, run without other code in between: what it wakes,
in which order, and how it leaves the timer.
*/
module TimerQueueObject {
  import opened Options
  import opened Sequences
  import opened Ticks
  import opened TimerList

  /** The clock, by the number of times it was read. */
  ghost predicate Monotone(clock: nat -> int) {
    forall i: nat, j: nat :: i <= j ==> clock(i) <= clock(j)
  }

  /** `due` are the true deadlines of these links, in order. */
  ghost predicate Deadlines(half: nat, links: seq<Link>, due: seq<int>) {
    && half > 0 && |due| == |links|
    && (forall i :: 0 <= i < |due| ==> links[i].releaseAt == Wrap(half, due[i]))
    && (forall i, j :: 0 <= i < j < |due| ==> due[i] <= due[j])
  }

  /** Every one of the first `looks` clock reads is within the window of every deadline. */
  ghost predicate LooksInWindow(half: nat, clock: nat -> int, due: seq<int>, looks: nat) {
    forall i: nat, j: nat :: i < looks && j < |due| ==> InWindow(half, clock(i), due[j])
  }

  /** What one round of the handler relies on: the head is due at `due0`, and its two clock reads compare truly. */
  ghost predicate HeadDue(half: nat, clock: nat -> int, looked: nat, head: Link, due0: int) {
    && half > 0 && head.releaseAt == Wrap(half, due0)
    && InWindow(half, clock(looked), due0) && InWindow(half, clock(looked + 1), due0)
    && clock(looked) <= clock(looked + 1) && (looked > 0 ==> clock(looked - 1) <= clock(looked))
  }

  lemma HeadIsDue(half: nat, clock: nat -> int, links: seq<Link>, due: seq<int>, k: nat, looked: nat)
    requires Deadlines(half, links, due) && Monotone(clock) && LooksInWindow(half, clock, due, 3 * |due| + 2)
    requires k < |due| && looked <= 3 * k + 2
    ensures HeadDue(half, clock, looked, links[k], due[k])
  {
    assert looked + 1 < 3 * |due| + 2;
  }

  lemma TakeOne<T>(s: seq<T>, k: nat)
    requires k < |s|
    ensures s[k..][0] == s[k] && s[k..][1..] == s[k + 1..] && s[..k + 1] == s[..k] + [s[k]]
  {
  }

  lemma CutIsExact(due: seq<int>, k: nat, now: int)
    requires k <= |due| && forall i, j :: 0 <= i < j < |due| ==> due[i] <= due[j]
    requires (k > 0 ==> due[k - 1] <= now) && (k < |due| ==> now < due[k])
    ensures forall i :: 0 <= i < |due| ==> (i < k <==> due[i] <= now)
  {
  }

  /**
  What the handler's loop does from its `looked`-th read of the clock on, when these are the true
  deadlines queued: how many it wakes, and after how many reads it ends.
  */
  ghost function Served(clock: nat -> int, due: seq<int>, looked: nat): (r: (nat, nat))
    requires Monotone(clock)
    ensures r.0 <= |due| && looked <= r.1
    decreases |due|, if looked > 0 && due != [] && due[0] <= clock(looked - 1) then 0 else 1
  {
    if due == [] then (0, looked)
    else if due[0] <= clock(looked) then var r := Served(clock, due[1..], looked + 1); (1 + r.0, r.1)
    else if due[0] <= clock(looked + 1) then Served(clock, due, looked + 2)
    else (0, looked + 2)
  }

  /** All that were woken and only they are due by the last read, which comes soon. */
  lemma {:induction false} ServedIsDue(clock: nat -> int, due: seq<int>, looked: nat)
    requires Monotone(clock) && forall i, j :: 0 <= i < j < |due| ==> due[i] <= due[j]
    ensures var (k, looks) := Served(clock, due, looked);
            && looks <= looked + 3 * |due| && (|due| > 0 ==> looks > looked)
            && (k > 0 ==> due[k - 1] <= clock(looks - 1)) && (k < |due| ==> clock(looks - 1) < due[k])
            && (looked > 0 && due != [] && due[0] <= clock(looked - 1) ==> looks + 2 <= looked + 3 * |due|)
    decreases |due|, if looked > 0 && due != [] && due[0] <= clock(looked - 1) then 0 else 1
  {
    if due == [] {
    } else if due[0] <= clock(looked) {
      ServedIsDue(clock, due[1..], looked + 1);
    } else if due[0] <= clock(looked + 1) {
      ServedIsDue(clock, due, looked + 2);
    }
  }

  /** One round of the loop, with `k` woken before and `k'` after it. */
  ghost predicate TookRound(clock: nat -> int, due: seq<int>, k: nat, looked: nat, k': nat, looks: nat, done: bool)
    requires k <= |due|
  {
    if k == |due| then k' == k && looks == looked && done
    else if due[k] <= clock(looked) then k' == k + 1 && looks == looked + 1 && !done
    else k' == k && looks == looked + 2 && (done <==> clock(looked + 1) < due[k])
  }

  /** After `k` wakes and `looks` reads the loop is on the way that `Served` describes. */
  ghost predicate OnTheWay(clock: nat -> int, due: seq<int>, k: nat, looks: nat, done: bool)
    requires Monotone(clock) && k <= |due|
  {
    var rest := if done then (0, looks) else Served(clock, due[k..], looks);
    Served(clock, due, 0) == (k + rest.0, rest.1)
  }

  lemma RoundGoesOn(clock: nat -> int, due: seq<int>, k: nat, looked: nat, k': nat, looks: nat, done: bool)
    requires Monotone(clock) && k <= |due| && OnTheWay(clock, due, k, looked, false)
    requires TookRound(clock, due, k, looked, k', looks, done)
    ensures k' <= |due| && OnTheWay(clock, due, k', looks, done)
  {
    if k < |due| { TakeOne(due, k); }
  }

  class TimerQueue {
    const queue: LinkedList
    /** Whether the backend implements `enable_timer` and `disable_timer`. */
    const gates: bool
    var enabled: bool
    var compareFlag: bool
    var interruptPended: bool
    /** What `set_compare` was last given. */
    var compare: Option<Tick>
    /** How often the handler had read the clock when it wrote that. */
    ghost var armedAt: nat

    constructor (half: nat, gates: bool)
      requires half > 0
      ensures fresh(queue) && queue.Valid() && queue.links == [] && queue.half == half && this.gates == gates
      ensures enabled == !gates && !compareFlag && !interruptPended && compare == None
    {
      queue := new LinkedList(half);
      this.gates := gates;
      enabled, compareFlag, interruptPended, compare, armedAt := !gates, false, false, None, 0;
    }

    ghost predicate Valid()
      reads this, queue, queue.links
    {
      queue.Valid() && (!gates ==> enabled)
    }

    /** How the handler leaves the timer after `looks` reads of the clock, the last of them after it was set. */
    ghost predicate Settled(looks: nat)
      reads this, queue
    {
      && (queue.links == [] ==> (gates ==> !enabled))
      && (queue.links != [] ==> enabled && compare == Some(queue.links[0].releaseAt) && armedAt < looks)
    }

    /**
    `on_monotonic_interrupt`.  It returns the links it woke and how often it read the clock.
    The woken links are the front of the queue, earliest first, each once; all of them and only
    they are due by the last read, and the next deadline is what the timer is left waiting for.
    */
    method OnMonotonicInterrupt(clock: nat -> int, ghost due: seq<int>) returns (woken: seq<Link>, looks: nat)
      requires Valid() && Deadlines(queue.half, queue.links, due)
      requires Monotone(clock) && LooksInWindow(queue.half, clock, due, 3 * |due| + 2)
      modifies this`compareFlag, this`enabled, this`compare, this`armedAt, queue, queue.links
      ensures Valid() && Settled(looks) && !compareFlag
      ensures forall l :: l in woken ==> l.wasPopped
      ensures looks <= 3 * |due| && (|due| > 0 ==> looks > 0)
      ensures |woken| <= |due| && woken == old(queue.links)[..|woken|] && queue.links == old(queue.links)[|woken|..]
      ensures forall i :: 0 <= i < |due| ==> (i < |woken| <==> due[i] <= clock(looks - 1))
      ensures (|woken|, looks) == Served(clock, due, 0)
    {
      compareFlag := false;
      woken, looks := Dequeue(clock, due);
      ServedIsDue(clock, due, 0);
      CutIsExact(due, |woken|, if looks > 0 then clock(looks - 1) else 0);
    }

    /** Queues a fresh link, and asks for the interrupt if it is now the first to expire. */
    method Enqueue(l: Link)
      requires Valid() && l !in queue.links && l.next == null && l.releaseAt < 2 * queue.half
      modifies this`interruptPended, queue, queue.links`next, l`next
      ensures Valid()
      ensures var was := old(queue.links);
              queue.links == Inserted(was, InsertAt(queue.half, Releases(was), l.releaseAt), l)
      ensures interruptPended <==> old(interruptPended) || queue.links[0] == l
    {
      var headUpdated := queue.Insert(l);
      if headUpdated {
        interruptPended := true;
      }
    }

    /** The loop of the handler. */
    method Dequeue(clock: nat -> int, ghost due: seq<int>) returns (woken: seq<Link>, looks: nat)
      requires Valid() && Deadlines(queue.half, queue.links, due)
      requires Monotone(clock) && LooksInWindow(queue.half, clock, due, 3 * |due| + 2)
      modifies this`enabled, this`compare, this`armedAt, queue, queue.links
      ensures Valid() && Settled(looks) && forall l :: l in woken ==> l.wasPopped
      ensures |woken| <= |due| && woken == old(queue.links)[..|woken|] && queue.links == old(queue.links)[|woken|..]
      ensures (|woken|, looks) == Served(clock, due, 0)
    {
      woken, looks := [], 0;
      assert due[0..] == due;
      var done := false;
      ghost var all := queue.links;
      while !done
        invariant Progress(clock, all, due, woken, looks, done)
        invariant OnTheWay(clock, due, |woken|, looks, done)
        decreases !done, |queue.links|, !Late(clock, due, woken, looks)
      {
        if |woken| < |due| {
          HeadIsDue(queue.half, clock, all, due, |woken|, looks);
        }
        ghost var k, looked := |woken|, looks;
        woken, looks, done := Round(clock, all, due, woken, looks);
        RoundGoesOn(clock, due, k, looked, |woken|, looks, done);
      }
    }

    /** The last read of the clock found the head due. */
    static ghost predicate Late(clock: nat -> int, due: seq<int>, woken: seq<Link>, looks: nat) {
      looks > 0 && |woken| < |due| && due[|woken|] <= clock(looks - 1)
    }

    /** Between two rounds: the front of the queue is woken and gone. */
    ghost predicate Progress(clock: nat -> int, all: seq<Link>, due: seq<int>, woken: seq<Link>, looks: nat, done: bool)
      reads this, queue, queue.links, woken
    {
      && Valid() && |due| == |all| && Distinct(all) && (forall l :: l in woken ==> l.wasPopped)
      && |woken| <= |all| && woken == all[..|woken|] && queue.links == all[|woken|..]
      && looks <= 3 * |woken| + (if done || Late(clock, due, woken, looks) then 2 else 0)
      && (done ==> Settled(looks))
    }

    /** One round of the handler's loop: it wakes the head, or stops, or finds that the head fell due meanwhile. */
    method Round(clock: nat -> int, ghost all: seq<Link>, ghost due: seq<int>, was: seq<Link>, looked: nat)
        returns (woken: seq<Link>, looks: nat, done: bool)
      requires Progress(clock, all, due, was, looked, false)
      requires |was| < |due| ==> HeadDue(queue.half, clock, looked, all[|was|], due[|was|])
      modifies this`enabled, this`compare, this`armedAt, queue, queue.links
      ensures Progress(clock, all, due, woken, looks, done)
      ensures |woken| > |was| || (woken == was && !Late(clock, due, was, looked))
      ensures woken == was ==> done || Late(clock, due, woken, looks)
      ensures TookRound(clock, due, |was|, looked, |woken|, looks, done)
    {
      ghost var k := |was|;
      if k < |due| { TakeOne(all, k); }
      var link;
      link, looks, done := Look(clock, looked, if k < |due| then due[k] else 0);
      woken := was;
      if link.Some? {
        woken := was + [link.value];
      }
    }

    method Look(clock: nat -> int, looked: nat, ghost due0: int) returns (woke: Option<Link>, looks: nat, done: bool)
      requires Valid() && (queue.links != [] ==> HeadDue(queue.half, clock, looked, queue.links[0], due0))
      modifies this`enabled, this`compare, this`armedAt, queue, queue.links
      ensures Valid()
      ensures old(queue.links) == [] ==>
                woke == None && queue.links == [] && looks == looked && done && Settled(looks)
      ensures old(queue.links) != [] && due0 <= clock(looked) ==>
                && woke == Some(old(queue.links)[0]) && queue.links == old(queue.links)[1..] && woke.value.wasPopped
                && looks == looked + 1 && !done
      ensures old(queue.links) != [] && clock(looked) < due0 ==>
                && woke == None && queue.links == old(queue.links) && looks == looked + 2
                && Settled(looks) && (done <==> clock(looks - 1) < due0)
    {
      looks, done := looked, false;
      if queue.links != [] {
        CompareIsTrueOrder(queue.half, clock(looked), due0);
        CompareIsTrueOrder(queue.half, clock(looked + 1), due0);
      }
      var link, releaseAt := queue.PopIfDue(Wrap(queue.half, clock(looks)));
      looks := if releaseAt.Some? then looks + 1 else looks;
      woke := None;
      if link != null {
        woke := Some(link);
      } else {
        if releaseAt.Some? {
          if gates { enabled := true; }
          compare := releaseAt;
          armedAt := looks;
          done := !IsAtLeast(queue.half, Wrap(queue.half, clock(looks)), releaseAt.value);
          looks := looks + 1;
        } else {
          if gates { enabled := false; }
          done := true;
        }
      }
    }
  }

  /** The future of `delay` and `delay_until`. */
  class Delay {
    const tq: TimerQueue
    const instant: Tick
    var link: Link?

    constructor (tq: TimerQueue, instant: Tick)
      ensures this.tq == tq && this.instant == instant && link == null
    {
      this.tq, this.instant, link := tq, instant, null;
    }

    /** A link marked as popped has left the queue. */
    ghost predicate Valid()
      reads this, tq, tq.queue, tq.queue.links, link
    {
      && tq.Valid() && instant < 2 * tq.queue.half
      && (link != null && link.wasPopped ==> link !in tq.queue.links)
    }

    /** Queues itself on the first poll before its time, and asks for the interrupt if it is now the first to expire. */
    method Poll(now: Tick, waker: nat) returns (ready: bool)
      requires Valid() && now < 2 * tq.queue.half
      modifies this, tq`interruptPended, tq.queue, tq.queue.links
      ensures Valid()
      ensures ready <==> IsAtLeast(tq.queue.half, now, instant)
      ensures ready || old(link) != null ==>
                && link == old(link) && tq.queue.links == old(tq.queue.links)
                && tq.interruptPended == old(tq.interruptPended)
      ensures !ready && old(link) == null ==>
                && link != null && fresh(link) && link.waker == waker && link.releaseAt == instant
                && tq.queue.links
                   == (var was := old(tq.queue.links);
                       Inserted(was, InsertAt(tq.queue.half, Releases(was), instant), link))
                && (tq.interruptPended <==> old(tq.interruptPended) || tq.queue.links[0] == link)
    {
      if IsAtLeast(tq.queue.half, now, instant) {
        return true;
      }
      if link == null {
        var l := new Link(waker, instant);
        link := l;
        tq.Enqueue(l);
      }
      return false;
    }

    /** After the drop no link of this future is queued, and nothing else has moved. */
    method Drop()
      requires Valid()
      modifies tq.queue, tq.queue.links
      ensures tq.Valid()
      ensures link == null ==> tq.queue.links == old(tq.queue.links)
      ensures link != null ==>
                (var l: Link := link; l !in tq.queue.links && tq.queue.links == Without(old(tq.queue.links), l))
    {
      if link == null {
        return;
      }
      if link.wasPopped {
        var l: Link := link;
        WithoutAbsent(tq.queue.links, l);
        return;
      }
      tq.queue.Delete(link);
    }
  }
}
