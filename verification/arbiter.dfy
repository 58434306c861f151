/** The arbiter: a value handed from one holder to the next in order of arrival. */
module ArbiterCore {
  /** The memory of the arbiter: the flag, and the waiting clients from the oldest. */
  datatype Core = Core(taken: bool, queue: seq<nat>)

  /** The test shared by `access` and `try_access`. */
  predicate CanTake(c: Core) { c.queue == [] && !c.taken }

  /** The critical section of `ExclusiveAccess::drop`. */
  function Released(c: Core): Core {
    if c.queue == [] then c.(taken := false) else c.(queue := c.queue[1..])
  }
}

/** The arbiter under preemption: any number of clients, one critical section at a time, in any order. */
module ArbiterMachine {
  import opened Sequences
  import opened ArbiterCore

  /** `Handed`: popped by a release, and not polled since.  A ticket is the number of the call. */
  datatype Client = Idle | Waiting(ticket: nat) | Handed(ticket: nat) | Holding(ticket: nat)

  /** `lost` counts grants whose futures were dropped before their next poll; `grants` are the tickets served. */
  datatype Sys = Sys(core: Core, clients: seq<Client>, lost: nat, arrivals: nat, grants: seq<nat>)

  datatype Step = Poll(c: nat) | TryAccess(c: nat) | Cancel(c: nat) | Release(c: nat)

  ghost function Init(n: nat): Sys { Sys(Core(false, []), seq(n, _ => Idle), 0, 0, []) }

  ghost predicate Enabled(s: Sys, st: Step) {
    st.c < |s.clients| &&
    match st
    case Poll(c) => !s.clients[c].Holding?
    case TryAccess(c) => s.clients[c].Idle?
    case Cancel(c) => s.clients[c].Waiting? || s.clients[c].Handed?
    case Release(c) => s.clients[c].Holding?
  }

  ghost function Put(s: Sys, c: nat, x: Client): Sys
    requires c < |s.clients|
  {
    s.(clients := s.clients[c := x])
  }

  ghost function Take(s: Sys, c: nat): Sys
    requires c < |s.clients|
  {
    Put(s, c, Holding(s.arrivals))
      .(core := s.core.(taken := true), arrivals := s.arrivals + 1, grants := s.grants + [s.arrivals])
  }

  ghost function Apply(s: Sys, st: Step): Sys
    requires Enabled(s, st)
  {
    match st
    case TryAccess(c) => if CanTake(s.core) then Take(s, c) else s
    case Poll(c) =>
      if CanTake(s.core) then Take(s, c)
      else if s.clients[c].Handed? then Put(s, c, Holding(s.clients[c].ticket))
      else if s.clients[c].Waiting? then s
      else Put(s, c, Waiting(s.arrivals)).(core := s.core.(queue := s.core.queue + [c]), arrivals := s.arrivals + 1)
    case Cancel(c) =>
      if s.clients[c].Handed? then Put(s, c, Idle).(lost := s.lost + 1)
      else Put(s, c, Idle).(core := s.core.(queue := Without(s.core.queue, c)))
    case Release(c) => Hand(Put(s, c, Idle).(core := Released(s.core)), s.core.queue)
  }

  /** The client at the front of the queue before a release is woken. */
  ghost function Hand(s: Sys, queue: seq<nat>): Sys {
    if queue != [] && queue[0] < |s.clients| && s.clients[queue[0]].Waiting? then
      var t := s.clients[queue[0]].ticket;
      Put(s, queue[0], Handed(t)).(grants := s.grants + [t])
    else s
  }

  ghost predicate Next(s: Sys, s': Sys) {
    exists st :: Enabled(s, st) && s' == Apply(s, st)
  }

  ghost predicate IsRun(n: nat, run: seq<Sys>) {
    |run| > 0 && run[0] == Init(n) && forall i :: 0 <= i < |run| - 1 ==> Next(run[i], run[i + 1])
  }
}

/** What every run of the arbiter keeps. */
module ArbiterRuns {
  import opened Sequences
  import opened ArbiterCore
  import opened ArbiterMachine

  ghost function Owns(x: Client): nat { if x.Holding? || x.Handed? then 1 else 0 }

  /** The clients that hold the value or were handed it. */
  ghost function Owners(clients: seq<Client>): nat {
    if clients == [] then 0 else Owns(clients[0]) + Owners(clients[1..])
  }

  lemma {:induction false} OwnersAfter(clients: seq<Client>, c: nat, x: Client)
    requires c < |clients|
    ensures Owners(clients[c := x]) == Owners(clients) - Owns(clients[c]) + Owns(x)
  {
    if c > 0 {
      OwnersAfter(clients[1..], c - 1, x);
      assert clients[c := x][1..] == clients[1..][c - 1 := x];
    } else {
      assert clients[c := x][1..] == clients[1..];
    }
  }

  lemma {:induction false} OwnerCounts(clients: seq<Client>, c: nat)
    requires c < |clients|
    ensures Owns(clients[c]) <= Owners(clients)
  {
    if c == 0 {
    } else {
      OwnerCounts(clients[1..], c - 1);
    }
  }

  lemma {:induction false} SomeOwner(clients: seq<Client>)
    ensures Owners(clients) > 0 ==> exists c :: 0 <= c < |clients| && Owns(clients[c]) == 1
  {
    if clients == [] {
    } else {
      SomeOwner(clients[1..]);
      if Owns(clients[0]) == 0 && Owners(clients) > 0 {
        var c :| 0 <= c < |clients[1..]| && Owns(clients[1..][c]) == 1;
        assert Owns(clients[c + 1]) == 1;
      }
    }
  }

  lemma {:induction false} AllIdle(n: nat)
    ensures Owners(seq(n, _ => Idle)) == 0
  {
    if n == 0 {
    } else {
      AllIdle(n - 1);
      assert seq(n, _ => Idle)[1..] == seq(n - 1, _ => Idle);
    }
  }

  /** The flag is set exactly while one grant is held, handed over or lost. */
  ghost predicate GrantInv(s: Sys) {
    && Owners(s.clients) + s.lost == (if s.core.taken then 1 else 0)
    && (s.core.queue != [] ==> s.core.taken)
  }

  ghost predicate QueueInv(s: Sys) {
    && Distinct(s.core.queue)
    && (forall c: nat :: c in s.core.queue <==> c < |s.clients| && s.clients[c].Waiting?)
  }

  ghost function Ticket(s: Sys, i: nat): nat
    requires QueueInv(s) && i < |s.core.queue|
  {
    assert s.core.queue[i] in s.core.queue;
    s.clients[s.core.queue[i]].ticket
  }

  /** Tickets grow along the grants, then along the queue, up to the next arrival. */
  ghost predicate OrderInv(s: Sys) {
    && QueueInv(s)
    && (forall i, j :: 0 <= i < j < |s.grants| ==> s.grants[i] < s.grants[j])
    && (forall i, j :: 0 <= i < |s.grants| && 0 <= j < |s.core.queue| ==> s.grants[i] < Ticket(s, j))
    && (forall i, j :: 0 <= i < j < |s.core.queue| ==> Ticket(s, i) < Ticket(s, j))
    && (forall i :: 0 <= i < |s.grants| ==> s.grants[i] < s.arrivals)
    && (forall i :: 0 <= i < |s.core.queue| ==> Ticket(s, i) < s.arrivals)
  }

  ghost predicate Inv(s: Sys) { GrantInv(s) && OrderInv(s) }

  lemma StepKeepsGrants(s: Sys, st: Step)
    requires Inv(s) && Enabled(s, st)
    ensures GrantInv(Apply(s, st))
  {
    var c := st.c;
    OwnerCounts(s.clients, c);
    OwnersAfter(s.clients, c, Holding(s.arrivals));
    OwnersAfter(s.clients, c, Waiting(s.arrivals));
    OwnersAfter(s.clients, c, Idle);
    match st
    case Poll(_) => if s.clients[c].Handed? { OwnersAfter(s.clients, c, Holding(s.clients[c].ticket)); }
    case TryAccess(_) =>
    case Cancel(_) => if s.clients[c].Waiting? { WithoutKeepsTheRest(s.core.queue, c); }
    case Release(_) =>
      if s.core.queue != [] {
        var h := s.core.queue[0];
        assert h in s.core.queue;
        OwnersAfter(s.clients[c := Idle], h, Handed(s.clients[h].ticket));
      }
  }

  lemma PushKeepsOrder(s: Sys, c: nat)
    requires Inv(s) && c < |s.clients| && s.clients[c].Idle? && !CanTake(s.core)
    ensures OrderInv(Apply(s, Poll(c)))
  {
    var s' := Apply(s, Poll(c));
    assert c !in s.core.queue;
    assert QueueInv(s');
    forall i: nat | i < |s'.core.queue|
      ensures Ticket(s', i) == if i < |s.core.queue| then Ticket(s, i) else s.arrivals
    {
      if i < |s.core.queue| { assert s.core.queue[i] in s.core.queue; }
    }
  }

  lemma CancelKeepsQueue(s: Sys, c: nat)
    requires QueueInv(s) && Enabled(s, Cancel(c)) && s.clients[c].Waiting?
    ensures QueueInv(Apply(s, Cancel(c)))
  {
    WithoutKeepsTheRest(s.core.queue, c);
  }

  lemma CancelKeepsTickets(s: Sys, s': Sys, c: nat) returns (from: seq<nat>)
    requires QueueInv(s) && Enabled(s, Cancel(c)) && s.clients[c].Waiting? && s' == Apply(s, Cancel(c))
    ensures QueueInv(s') && |from| == |s'.core.queue|
    ensures forall i: nat :: i < |from| ==> from[i] < |s.core.queue| && Ticket(s', i) == Ticket(s, from[i])
    ensures forall i, j :: 0 <= i < j < |from| ==> from[i] < from[j]
  {
    CancelKeepsQueue(s, c);
    from := WithoutPositions(s.core.queue, c);
    forall i: nat | i < |from| ensures Ticket(s', i) == Ticket(s, from[i]) {
      var d := s'.core.queue[i];
      assert d in s'.core.queue;
      assert s'.clients[d] == s.clients[d];
    }
  }

  lemma CancelKeepsOrder(s: Sys, c: nat)
    requires Inv(s) && Enabled(s, Cancel(c)) && s.clients[c].Waiting?
    ensures OrderInv(Apply(s, Cancel(c)))
  {
    var s' := Apply(s, Cancel(c));
    var from := CancelKeepsTickets(s, s', c);
    TicketsCarryOver(s, s', from);
  }

  /** A queue of some of the waiters, in the same order. */
  lemma TicketsCarryOver(s: Sys, s': Sys, from: seq<nat>)
    requires OrderInv(s) && QueueInv(s') && s'.grants == s.grants && s'.arrivals == s.arrivals
    requires |from| == |s'.core.queue|
    requires forall i: nat :: i < |from| ==> from[i] < |s.core.queue| && Ticket(s', i) == Ticket(s, from[i])
    requires forall i, j :: 0 <= i < j < |from| ==> from[i] < from[j]
    ensures OrderInv(s')
  {
  }

  lemma HandKeepsOrder(s: Sys, c: nat)
    requires Inv(s) && Enabled(s, Release(c))
    ensures OrderInv(Apply(s, Release(c)))
  {
    var s' := Apply(s, Release(c));
    assert c !in s.core.queue;
    if s.core.queue != [] {
      assert s.core.queue[0] in s.core.queue;
      HeadLeaves(s.core.queue);
      assert QueueInv(s');
      forall i: nat | i < |s'.core.queue| ensures Ticket(s', i) == Ticket(s, i + 1) {
        assert s'.core.queue[i] == s.core.queue[i + 1];
        assert s'.core.queue[i] in s'.core.queue;
      }
      assert s'.grants == s.grants + [Ticket(s, 0)];
    }
  }

  lemma HeadLeaves(q: seq<nat>)
    requires Distinct(q) && q != []
    ensures Distinct(q[1..]) && forall x :: x in q[1..] <==> x in q && x != q[0]
  {
    forall x | x in q && x != q[0] ensures x in q[1..] {
      var i :| 0 <= i < |q| && q[i] == x;
      assert q[1..][i - 1] == x;
    }
  }

  /** Steps that leave the queue and the waiters alone. */
  lemma SameQueue(s: Sys, s': Sys, c: nat, x: Client)
    requires Inv(s) && c < |s.clients| && !s.clients[c].Waiting? && !x.Waiting?
    requires s'.core.queue == s.core.queue && s'.clients == s.clients[c := x] && s'.arrivals >= s.arrivals
    requires || s'.grants == s.grants
             || (s'.grants == s.grants + [s.arrivals] && s.core.queue == [] && s'.arrivals == s.arrivals + 1)
    ensures OrderInv(s')
  {
    assert QueueInv(s');
    forall i: nat | i < |s.core.queue| ensures Ticket(s', i) == Ticket(s, i) {
      assert s.core.queue[i] in s.core.queue;
    }
  }

  lemma StepKeepsOrder(s: Sys, st: Step)
    requires Inv(s) && Enabled(s, st)
    ensures OrderInv(Apply(s, st))
  {
    var s' := Apply(s, st);
    var c := st.c;
    var x := s.clients[c];
    if CanTake(s.core) { assert c !in s.core.queue; }
    match st
    case Poll(_) =>
      if CanTake(s.core) { SameQueue(s, s', c, Holding(s.arrivals)); }
      else if x.Handed? { SameQueue(s, s', c, Holding(x.ticket)); }
      else if x.Idle? { PushKeepsOrder(s, c); }
    case TryAccess(_) =>
      if CanTake(s.core) { SameQueue(s, s', c, Holding(s.arrivals)); }
    case Cancel(_) =>
      if x.Handed? { SameQueue(s, s', c, Idle); } else { CancelKeepsOrder(s, c); }
    case Release(_) => HandKeepsOrder(s, c);
  }

  lemma StepKeepsInv(s: Sys, st: Step)
    requires Inv(s) && Enabled(s, st)
    ensures Inv(Apply(s, st))
  {
    StepKeepsGrants(s, st);
    StepKeepsOrder(s, st);
  }

  lemma {:induction false} RunKeepsInv(n: nat, run: seq<Sys>, i: nat)
    requires IsRun(n, run) && i < |run|
    ensures Inv(run[i])
  {
    if i == 0 {
      AllIdle(n);
    } else {
      RunKeepsInv(n, run, i - 1);
      assert Next(run[i - 1], run[i - 1 + 1]);
      var st :| Enabled(run[i - 1], st) && run[i] == Apply(run[i - 1], st);
      StepKeepsInv(run[i - 1], st);
    }
  }

  // ----- the theorems

  /** The value is held or handed to at most one client, and the flag says so, or that a grant was lost. */
  lemma ExclusiveAccess(n: nat, run: seq<Sys>, i: nat, c: nat, d: nat)
    requires IsRun(n, run) && i < |run| && c < d < |run[i].clients|
    ensures var s := run[i];
            && Owns(s.clients[c]) + Owns(s.clients[d]) <= 1
            && s.lost <= 1
            && (s.core.taken <==> s.lost == 1 || exists k :: 0 <= k < |s.clients| && Owns(s.clients[k]) == 1)
  {
    RunKeepsInv(n, run, i);
    var s := run[i];
    SomeOwner(s.clients);
    OwnersAfter(s.clients, c, Idle);
    OwnerCounts(s.clients[c := Idle], d);
    OwnerCounts(s.clients, c);
    forall k | 0 <= k < |s.clients| ensures Owns(s.clients[k]) == 1 ==> s.core.taken {
      OwnerCounts(s.clients, k);
    }
  }

  /** First come, first served: tickets are served in increasing order, and those still queued come later. */
  lemma ServedInOrder(n: nat, run: seq<Sys>, i: nat)
    requires IsRun(n, run) && i < |run|
    ensures var s := run[i];
            && (forall a, b :: 0 <= a < b < |s.grants| ==> s.grants[a] < s.grants[b])
            && (forall g, c :: g in s.grants && 0 <= c < |s.clients| && s.clients[c].Waiting? ==>
                  g < s.clients[c].ticket)
  {
    RunKeepsInv(n, run, i);
    var s := run[i];
    forall g, c | g in s.grants && 0 <= c < |s.clients| && s.clients[c].Waiting? ensures g < s.clients[c].ticket {
      assert c in s.core.queue;
      var k :| 0 <= k < |s.core.queue| && s.core.queue[k] == c;
      assert Ticket(s, k) == s.clients[c].ticket;
    }
  }

  /** While somebody waits, the value is taken: `try_access` cannot jump the queue. */
  lemma WaitersAreNotJumped(n: nat, run: seq<Sys>, i: nat, c: nat, d: nat)
    requires IsRun(n, run) && i < |run| && c < |run[i].clients| && run[i].clients[c].Waiting?
    requires Enabled(run[i], TryAccess(d))
    ensures run[i].core.taken && Apply(run[i], TryAccess(d)) == run[i]
  {
    RunKeepsInv(n, run, i);
    assert c in run[i].core.queue;
  }

  /** Nobody waits for the value. */
  ghost predicate NobodyWaits(s: Sys) {
    forall d :: 0 <= d < |s.clients| ==> !s.clients[d].Waiting?
  }

  lemma QueueIsWaiters(s: Sys)
    requires QueueInv(s)
    ensures s.core.queue == [] <==> NobodyWaits(s)
  {
    if s.core.queue != [] { assert s.core.queue[0] in s.core.queue; }
    if d :| 0 <= d < |s.clients| && s.clients[d].Waiting? { assert d in s.core.queue; }
  }

  /** A poll gets the value if it was handed over, or is free with nobody waiting; else the client waits. */
  lemma PollOutcome(n: nat, run: seq<Sys>, i: nat, c: nat)
    requires IsRun(n, run) && i < |run| && Enabled(run[i], Poll(c))
    ensures var s := run[i]; var s' := Apply(s, Poll(c));
            && (s'.clients[c].Holding? <==> s.clients[c].Handed? || (!s.core.taken && NobodyWaits(s)))
            && (s'.clients[c].Waiting? <==> !s'.clients[c].Holding?)
            && s'.core.queue == s.core.queue + (if s.clients[c].Idle? && s'.clients[c].Waiting? then [c] else [])
            && s'.core.taken && (forall d :: 0 <= d < |s.clients| && d != c ==> s'.clients[d] == s.clients[d])
  {
    RunKeepsInv(n, run, i);
    QueueIsWaiters(run[i]);
    OwnerCounts(run[i].clients, c);
  }

  /** `try_access` gets the value exactly if it is free and nobody waits; else nothing happens. */
  lemma TryAccessOutcome(n: nat, run: seq<Sys>, i: nat, c: nat)
    requires IsRun(n, run) && i < |run| && Enabled(run[i], TryAccess(c))
    ensures var s := run[i]; var s' := Apply(s, TryAccess(c));
            if !s.core.taken && NobodyWaits(s) then
              s'.clients[c].Holding? && s'.core.taken && NobodyWaits(s') && |s'.clients| == |s.clients|
            else s' == s
  {
    RunKeepsInv(n, run, i);
    QueueIsWaiters(run[i]);
  }

  /** A release frees the value if nobody waits, and hands it to the oldest waiter otherwise. */
  lemma ReleaseServesTheOldest(n: nat, run: seq<Sys>, i: nat, c: nat)
    requires IsRun(n, run) && i < |run| && Enabled(run[i], Release(c))
    ensures var s := run[i]; var s' := Apply(s, Release(c));
            && (s.core.queue == [] ==> CanTake(s'.core) && Owners(s'.clients) == 0)
            && (s.core.queue != [] ==>
                  exists h: nat ::
                    && h < |s.clients| && s.clients[h].Waiting? && s'.clients[h] == Handed(s.clients[h].ticket)
                    && forall d :: 0 <= d < |s.clients| && s.clients[d].Waiting? ==>
                         s.clients[h].ticket <= s.clients[d].ticket)
  {
    RunKeepsInv(n, run, i);
    var s := run[i];
    StepKeepsInv(s, Release(c));
    if s.core.queue != [] {
      var h := s.core.queue[0];
      assert h in s.core.queue;
      forall d | 0 <= d < |s.clients| && s.clients[d].Waiting? ensures s.clients[h].ticket <= s.clients[d].ticket {
        assert d in s.core.queue;
        var k :| 0 <= k < |s.core.queue| && s.core.queue[k] == d;
        assert Ticket(s, 0) <= Ticket(s, k);
      }
    }
  }

  // ----- where service ends

  /** The value counts as taken, but nobody holds it or was handed it. */
  ghost predicate Stalled(s: Sys) {
    s.core.taken && forall c :: 0 <= c < |s.clients| ==> !s.clients[c].Holding? && !s.clients[c].Handed?
  }

  lemma StalledIffLost(s: Sys)
    requires Inv(s)
    ensures Stalled(s) <==> s.lost > 0
  {
    SomeOwner(s.clients);
    forall c | 0 <= c < |s.clients| ensures Owns(s.clients[c]) <= Owners(s.clients) {
      OwnerCounts(s.clients, c);
    }
  }

  /** Between two states of a run, a client that had been handed the value gave up without a poll. */
  ghost predicate LateCancelAt(run: seq<Sys>, k: nat) {
    k + 1 < |run| && exists c :: 0 <= c < |run[k].clients| && c < |run[k + 1].clients|
                              && run[k].clients[c].Handed? && run[k + 1].clients[c].Idle?
  }

  ghost predicate LateCancelBefore(run: seq<Sys>, i: nat) {
    exists k: nat :: k < i && LateCancelAt(run, k)
  }

  lemma StepLoses(s: Sys, st: Step)
    requires Inv(s) && Enabled(s, st)
    ensures var s' := Apply(s, st);
            && s'.lost >= s.lost && |s'.clients| == |s.clients|
            && (s'.lost > s.lost <==> exists c :: 0 <= c < |s.clients| && s.clients[c].Handed? && s'.clients[c].Idle?)
  {
    var s' := Apply(s, st);
    if s'.lost > s.lost {
      assert s.clients[st.c].Handed? && s'.clients[st.c].Idle?;
    }
  }

  lemma {:induction false} LostIffLateCancel(n: nat, run: seq<Sys>, i: nat)
    requires IsRun(n, run) && i < |run|
    ensures run[i].lost > 0 <==> LateCancelBefore(run, i)
  {
    if i == 0 {
    } else {
      LostIffLateCancel(n, run, i - 1);
      RunKeepsInv(n, run, i - 1);
      assert Next(run[i - 1], run[i - 1 + 1]);
      var st :| Enabled(run[i - 1], st) && run[i] == Apply(run[i - 1], st);
      StepLoses(run[i - 1], st);
      assert LateCancelAt(run, i - 1) <==> run[i].lost > run[i - 1].lost;
      if LateCancelBefore(run, i - 1) {
        var k: nat :| k < i - 1 && LateCancelAt(run, k);
        assert k < i && LateCancelAt(run, k);
      }
    }
  }

  /**
  The exact condition.  The arbiter stalls, taken by nobody, if and only if at some point before a
  future was dropped between being handed the value and its next poll.
  */
  lemma StalledIffLateCancellation(n: nat, run: seq<Sys>, i: nat)
    requires IsRun(n, run) && i < |run|
    ensures Stalled(run[i]) <==> LateCancelBefore(run, i)
  {
    RunKeepsInv(n, run, i);
    StalledIffLost(run[i]);
    LostIffLateCancel(n, run, i);
  }

  lemma LossStays(s: Sys, st: Step)
    requires Inv(s) && s.lost > 0 && Enabled(s, st)
    ensures Apply(s, st).lost > 0 && Apply(s, st).grants == s.grants
  {
    OwnerCounts(s.clients, st.c);
  }

  lemma {:induction false} LostForever(n: nat, run: seq<Sys>, i: nat, j: nat)
    requires IsRun(n, run) && i <= j < |run| && run[i].lost > 0
    ensures run[j].lost > 0 && run[j].grants == run[i].grants
  {
    if i == j {
    } else {
      LostForever(n, run, i, j - 1);
      RunKeepsInv(n, run, j - 1);
      assert Next(run[j - 1], run[j - 1 + 1]);
      var st :| Enabled(run[j - 1], st) && run[j] == Apply(run[j - 1], st);
      LossStays(run[j - 1], st);
    }
  }

  /** A stalled arbiter stays stalled, and nobody is ever served again. */
  lemma StalledForever(n: nat, run: seq<Sys>, i: nat, j: nat)
    requires IsRun(n, run) && i <= j < |run| && Stalled(run[i])
    ensures Stalled(run[j]) && run[j].grants == run[i].grants
  {
    RunKeepsInv(n, run, i);
    RunKeepsInv(n, run, j);
    StalledIffLost(run[i]);
    LostForever(n, run, i, j);
    StalledIffLost(run[j]);
  }

  lemma Extend(n: nat, run: seq<Sys>, st: Step) returns (longer: seq<Sys>)
    requires IsRun(n, run) && Enabled(run[|run| - 1], st)
    ensures IsRun(n, longer) && longer[|longer| - 1] == Apply(run[|run| - 1], st)
  {
    var last := run[|run| - 1];
    longer := run + [Apply(last, st)];
    assert Next(last, Apply(last, st));
  }

  /** With two clients, one release and one cancellation are enough. */
  lemma StallHappens(n: nat) returns (run: seq<Sys>)
    requires n >= 2
    ensures IsRun(n, run) && Stalled(run[|run| - 1])
  {
    run := [Init(n)];
    run := Extend(n, run, Poll(0));
    run := Extend(n, run, Poll(1));
    run := Extend(n, run, Release(0));
    run := Extend(n, run, Cancel(1));
    RunKeepsInv(n, run, |run| - 1);
    StalledIffLost(run[|run| - 1]);
  }

  /** A client alone never waits. */
  lemma {:induction false} AloneNeverWaits(n: nat, run: seq<Sys>, i: nat)
    requires IsRun(n, run) && n < 2 && i < |run|
    ensures |run[i].clients| == n && run[i].core.queue == []
    ensures run[i].core.taken <==> n == 1 && run[i].clients[0].Holding?
    ensures n == 1 ==> run[i].clients[0].Holding? || run[i].clients[0].Idle?
  {
    if i == 0 {
    } else {
      AloneNeverWaits(n, run, i - 1);
      assert Next(run[i - 1], run[i - 1 + 1]);
      var st :| Enabled(run[i - 1], st) && run[i] == Apply(run[i - 1], st);
    }
  }

  ghost predicate CanStall(n: nat) {
    exists run :: IsRun(n, run) && Stalled(run[|run| - 1])
  }

  /** So an arbiter can stall exactly if it has at least two clients. */
  lemma StallsIffShared(n: nat)
    ensures CanStall(n) <==> n >= 2
  {
    if n >= 2 {
      var run := StallHappens(n);
      assert IsRun(n, run);
    } else {
      forall run | IsRun(n, run) ensures !Stalled(run[|run| - 1]) {
        AloneNeverWaits(n, run, |run| - 1);
      }
    }
  }
}

/** The arbiter and its futures as objects, over the intrusive wait queue. */
module ArbiterObject {
  import opened Options
  import opened Sequences
  import opened ArbiterCore
  import opened WaitQueue

  ghost function Wakers(links: seq<Link<nat>>): seq<nat> {
    seq(|links|, i requires 0 <= i < |links| => links[i].val)
  }

  /** An `access` future: its link is on its own stack. */
  class Access {
    const waker: nat
    var link: Link?<nat>

    constructor (waker: nat)
      ensures this.waker == waker && link == null
    {
      this.waker, link := waker, null;
    }
  }

  class Arbiter {
    const waitQueue: DoublyLinkedList<nat>
    var taken: bool

    ghost predicate Valid()
      reads this, waitQueue, waitQueue.links
    {
      waitQueue.Valid()
    }

    ghost function View(): Core
      reads this, waitQueue
    {
      Core(taken, Wakers(waitQueue.links))
    }

    constructor ()
      ensures Valid() && fresh(waitQueue) && View() == Core(false, [])
    {
      waitQueue := new DoublyLinkedList();
      taken := false;
    }

    method TryAccess() returns (ok: bool)
      requires Valid()
      modifies this
      ensures Valid() && ok == CanTake(old(View()))
      ensures ok <==> old(waitQueue.links == [] && !taken)
      ensures taken == (old(taken) || ok)
      ensures View() == if ok then old(View()).(taken := true) else old(View())
    {
      var empty := waitQueue.IsEmpty();
      ok := empty && !taken;
      if ok { taken := true; }
    }

    /** The critical section in the poll of `access`. */
    method Poll(f: Access) returns (ready: bool)
      requires Valid() && (f.link != null ==> (f.link.isPopped <==> f.link !in waitQueue.links))
      modifies this, f, waitQueue, waitQueue.links
      ensures Valid()
      ensures old(waitQueue.links == [] && !taken) ==>
                ready && taken && f.link == old(f.link) && waitQueue.links == []
      ensures old(waitQueue.links != [] || taken) && old(f.link) != null ==>
                f.link == old(f.link) && View() == old(View()) && (ready <==> f.link.isPopped)
      ensures old(waitQueue.links != [] || taken) && old(f.link) == null ==>
                && !ready && f.link != null && fresh(f.link) && f.link.val == f.waker
                && waitQueue.links == old(waitQueue.links) + [f.link] && taken == old(taken)
    {
      var empty := waitQueue.IsEmpty();
      if empty && !taken {
        taken := true;
        return true;
      }
      if f.link != null {
        return f.link.isPopped;
      }
      var link := new Link(f.waker);
      f.link := link;
      waitQueue.Push(link);
      return false;
    }

    /** The dropper of `access`, run when the future completes or is cancelled. */
    method DropAccess(f: Access)
      requires Valid() && (f.link != null ==> (f.link.isPopped <==> f.link !in waitQueue.links))
      modifies waitQueue, waitQueue.links, f.link
      ensures Valid() && taken == old(taken)
      ensures f.link == null ==> View() == old(View())
      ensures f.link != null ==>
                (var l: Link<nat> := f.link;
                 l !in waitQueue.links && waitQueue.links == Without(old(waitQueue.links), l))
    {
      if f.link != null {
        waitQueue.Remove(f.link);
      }
    }

    /** `ExclusiveAccess::drop`. */
    method Release() returns (woken: Option<nat>)
      requires Valid()
      modifies this, waitQueue, waitQueue.links
      ensures Valid() && View() == Released(old(View()))
      ensures woken == if old(View()).queue == [] then None else Some(old(View()).queue[0])
      ensures old(waitQueue.links) == [] ==> !taken && waitQueue.links == [] && woken == None
      ensures old(waitQueue.links) != [] ==>
                var first := old(waitQueue.links)[0];
                && taken == old(taken) && waitQueue.links == old(waitQueue.links)[1..]
                && first.isPopped && woken == Some(first.val)
    {
      var empty := waitQueue.IsEmpty();
      woken := None;
      if empty {
        taken := false;
      } else {
        woken := waitQueue.Pop();
      }
    }
  }
}
