/**
The sorted intrusive list of the timer queue.  Every operation is proved against the sequence
of links; `InsertAt` says where a new one goes.
*/
module TimerList {
  import opened Options
  import opened Sequences
  import opened Ticks

  type Tick = nat

  /** Where a link that is due at `t` is inserted: before the first one strictly later. */
  function InsertAt(half: nat, ticks: seq<Tick>, t: Tick): (k: nat)
    requires t < 2 * half && forall i :: 0 <= i < |ticks| ==> ticks[i] < 2 * half
    ensures k <= |ticks|
    ensures k < |ticks| ==> Compare(half, t, ticks[k]) == Less
    ensures forall i :: 0 <= i < k ==> Compare(half, t, ticks[i]) != Less
  {
    if ticks == [] || Compare(half, t, ticks[0]) == Less then 0 else 1 + InsertAt(half, ticks[1..], t)
  }

  lemma {:induction false} InsertAtIsUnique(half: nat, ticks: seq<Tick>, t: Tick, k: nat)
    requires t < 2 * half && forall i :: 0 <= i < |ticks| ==> ticks[i] < 2 * half
    requires k <= |ticks| && (k < |ticks| ==> Compare(half, t, ticks[k]) == Less)
    requires forall i :: 0 <= i < k ==> Compare(half, t, ticks[i]) != Less
    ensures InsertAt(half, ticks, t) == k
  {
    if k == 0 {
    } else {
      InsertAtIsUnique(half, ticks[1..], t, k - 1);
    }
  }

  function Inserted<T>(s: seq<T>, k: nat, x: T): seq<T>
    requires k <= |s|
  {
    s[..k] + [x] + s[k..]
  }

  // ----- what sorted insertion gives, in true time

  /** A queued deadline: its true time, and a number that grows with every insertion. */
  datatype Deadline = Deadline(due: int, arrival: nat)

  /** Earlier deadlines first, equal ones in order of arrival. */
  ghost predicate Before(a: Deadline, b: Deadline) {
    a.due < b.due || (a.due == b.due && a.arrival < b.arrival)
  }

  ghost predicate Sorted(s: seq<Deadline>) {
    forall i, j :: 0 <= i < j < |s| ==> Before(s[i], s[j])
  }

  function TicksOf(half: nat, s: seq<Deadline>): (t: seq<Tick>)
    requires half > 0
    ensures |t| == |s| && forall i :: 0 <= i < |s| ==> t[i] == Wrap(half, s[i].due)
  {
    seq(|s|, i requires 0 <= i < |s| => Wrap(half, s[i].due))
  }

  /** Within the window, insertion by wrapped ticks keeps the list ordered by true time, and stable. */
  lemma InsertionSorts(half: nat, s: seq<Deadline>, d: Deadline)
    requires half > 0 && Sorted(s)
    requires forall i :: 0 <= i < |s| ==> InWindow(half, d.due, s[i].due) && s[i].arrival < d.arrival
    ensures Sorted(Inserted(s, InsertAt(half, TicksOf(half, s), Wrap(half, d.due)), d))
  {
    var ticks := TicksOf(half, s);
    var k := InsertAt(half, ticks, Wrap(half, d.due));
    forall i | 0 <= i < |s| ensures Compare(half, Wrap(half, d.due), ticks[i]) == Sign(d.due - s[i].due) {
      CompareIsTrueOrder(half, d.due, s[i].due);
    }
    forall i | 0 <= i < |s| ensures if i < k then Before(s[i], d) else Before(d, s[i]) {
      assert k < i ==> Before(s[k], s[i]);
    }
    InsertBetween(s, k, d);
  }

  lemma InsertBetween(s: seq<Deadline>, k: nat, d: Deadline)
    requires Sorted(s) && k <= |s|
    requires forall i :: 0 <= i < |s| ==> if i < k then Before(s[i], d) else Before(d, s[i])
    ensures Sorted(Inserted(s, k, d))
  {
    var t := Inserted(s, k, d);
    forall i, j | 0 <= i < j < |t| ensures Before(t[i], t[j]) {
      if i != k && j != k {
        assert Before(s[if i < k then i else i - 1], s[if j < k then j else j - 1]);
      }
    }
  }

  lemma RemovalKeepsSorted(s: seq<Deadline>, k: nat)
    requires Sorted(s) && k < |s|
    ensures Sorted(s[..k] + s[k + 1..])
  {
  }

  // ----- the list in memory

  class Link {
    const waker: nat
    const releaseAt: Tick
    var next: Link?
    var wasPopped: bool

    constructor (waker: nat, releaseAt: Tick)
      ensures this.waker == waker && this.releaseAt == releaseAt && next == null && !wasPopped
    {
      this.waker, this.releaseAt := waker, releaseAt;
      next, wasPopped := null, false;
    }
  }

  function Releases(links: seq<Link>): (t: seq<Tick>)
    ensures |t| == |links| && forall i :: 0 <= i < |links| ==> t[i] == links[i].releaseAt
  {
    seq(|links|, i requires 0 <= i < |links| => links[i].releaseAt)
  }

  class LinkedList {
    const half: nat
    var head: Link?
    ghost var links: seq<Link>

    /** `links` lists the nodes reached from `head`, each once. */
    ghost predicate Valid()
      reads this, links
    {
      && half > 0
      && (forall i, j :: 0 <= i < j < |links| ==> links[i] != links[j])
      && (forall i :: 0 <= i < |links| ==> links[i].releaseAt < 2 * half)
      && head == NodeAt(0)
      && (forall i {:trigger links[i].next} :: 0 <= i < |links| ==> links[i].next == NodeAt(i + 1))
    }

    ghost function NodeAt(i: nat): Link?
      reads this
    {
      if i < |links| then links[i] else null
    }

    constructor (half: nat)
      requires half > 0
      ensures Valid() && links == [] && this.half == half
    {
      this.half := half;
      head, links := null, [];
    }

    /**
    `pop_if` with the test of `on_monotonic_interrupt`: is the head due at `now`, the clock read
    inside the section?  Also reports when the head is due.  A popped link keeps its `next`.
    */
    method PopIfDue(now: Tick) returns (popped: Link?, releaseAt: Option<Tick>)
      requires Valid() && now < 2 * half
      modifies this, links
      ensures Valid()
      ensures releaseAt == if old(links) == [] then None else Some(old(links)[0].releaseAt)
      ensures var was := old(links);
              popped == if was != [] && IsAtLeast(half, now, was[0].releaseAt) then was[0] else null
      ensures links == if popped != null then old(links)[1..] else old(links)
      ensures old(links) != [] ==> (old(links)[0].wasPopped <==> popped != null)
      ensures forall l :: l in links && (popped == null ==> l != links[0]) ==> l.wasPopped == old(l.wasPopped)
    {
      if head != null {
        var h := head;
        releaseAt := Some(h.releaseAt);
        var shouldPop := IsAtLeast(half, now, h.releaseAt);
        h.wasPopped := shouldPop;
        if shouldPop {
          head := h.next;
          links := links[1..];
          return h, releaseAt;
        }
        return null, releaseAt;
      }
      return null, None;
    }

    /** `delete`: an address that is not in the list leaves everything as it was. */
    method Delete(addr: Link)
      requires Valid()
      modifies this, links`next
      ensures Valid() && links == Without(old(links), addr) && addr !in links
      ensures addr !in old(links) ==> unchanged(this) && forall l :: l in links ==> unchanged(l)
    {
      if head == null {
        return;
      }
      if head == addr {
        head := head.next;
        links := links[1..];
        return;
      }
      var curr: Link := head;
      var next := curr.next;
      ghost var k := 0;
      while next != null && next != addr
        invariant k < |links| && curr == links[k] && next == NodeAt(k + 1)
        invariant forall i :: 0 <= i <= k ==> links[i] != addr
        decreases |links| - k
      {
        curr := next;
        next := next.next;
        k := k + 1;
      }
      if next != null {
        WithoutAt(links, k + 1);
        Bypass(curr, next, k);
      } else {
        WithoutAbsent(links, addr);
      }
    }

    method Bypass(curr: Link, next: Link, ghost k: nat)
      requires Valid() && k + 1 < |links| && curr == links[k] && next == links[k + 1]
      modifies this`links, curr`next
      ensures Valid() && links == old(links[..k + 1] + links[k + 2..])
      ensures next !in links
    {
      curr.next := next.next;
      links := links[..k + 1] + links[k + 2..];
    }

    /** `insert` of a link that was never in a list; the result says whether it is the new head. */
    method Insert(val: Link) returns (headUpdated: bool)
      requires Valid() && val !in links && val.next == null && val.releaseAt < 2 * half
      modifies this, links`next, val`next
      ensures Valid()
      ensures links == Inserted(old(links), InsertAt(half, Releases(old(links)), val.releaseAt), val)
      ensures headUpdated <==> links[0] == val
    {
      if head == null {
        PutFirst(val);
        return true;
      }
      if Compare(half, val.releaseAt, head.releaseAt) == Less {
        val.next := head;
        PutFirst(val);
        return true;
      }
      ghost var k;
      var curr, next;
      curr, next, k := Search(val);
      if next != null {
        val.next := next;
      }
      Attach(curr, val, k);
      return false;
    }

    method PutFirst(val: Link)
      requires Valid() && val !in links && val.next == head && val.releaseAt < 2 * half
      modifies this
      ensures Valid() && links == Inserted(old(links), 0, val)
    {
      head := val;
      links := Inserted(links, 0, val);
    }

    /** The loop of `insert`: `val` goes between these two neighbours. */
    method Search(val: Link) returns (curr: Link, next: Link?, ghost k: nat)
      requires Valid() && head != null && val.releaseAt < 2 * half
      requires Compare(half, val.releaseAt, head.releaseAt) != Less
      ensures k < |links| && curr == links[k] && next == NodeAt(k + 1)
      ensures InsertAt(half, Releases(links), val.releaseAt) == k + 1
    {
      curr, next, k := head, head.next, 0;
      while next != null && Compare(half, val.releaseAt, next.releaseAt) != Less
        invariant k < |links| && curr == links[k] && next == NodeAt(k + 1)
        invariant forall i :: 0 <= i <= k ==> Compare(half, val.releaseAt, links[i].releaseAt) != Less
        decreases |links| - k
      {
        curr := next;
        next := next.next;
        k := k + 1;
      }
      InsertAtIsUnique(half, Releases(links), val.releaseAt, k + 1);
    }

    method Attach(curr: Link, val: Link, ghost k: nat)
      requires Valid() && k < |links| && curr == links[k]
      requires val !in links && val.releaseAt < 2 * half && val.next == NodeAt(k + 1)
      modifies this`links, curr`next
      ensures Valid() && links == Inserted(old(links), k + 1, val)
      ensures links[0] != val
    {
      curr.next := val;
      links := Inserted(links, k + 1, val);
    }
  }
}
