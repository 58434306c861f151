/**
The timer queue's methods and its machine: what a method does to the list is what a stretch of a
run does to the queue, so the theorems about runs hold of the methods.
*/
module TimerMirror {
  import opened Sequences
  import opened Ticks
  import opened TimerList
  import opened TimerQueueObject
  import opened TimerMachine
  import opened TimerRuns

  /** `known` are the links that were ever queued, in this order, and `links` those in the list now. */
  ghost predicate Mirrors(cfg: Config, s: Sys, known: seq<Link>, links: seq<Link>) {
    && cfg.half > 0 && |known| == |s.sleepers| && |links| == |s.queue|
    && Distinct(known)
    && (forall i :: 0 <= i < |links| ==>
          && s.queue[i].arrival < |known| && links[i] == known[s.queue[i].arrival]
          && links[i].releaseAt == Wrap(cfg.half, s.queue[i].due))
  }

  // ----- stretches of a run

  ghost predicate IsPath(cfg: Config, path: seq<Sys>) {
    && cfg.half > 0 && |path| > 0
    && forall i :: 0 <= i < |path| - 1 ==> Next(cfg, path[i], path[i + 1])
  }

  ghost predicate Joins(path: seq<Sys>, s: Sys, s': Sys) {
    |path| > 0 && path[0] == s && path[|path| - 1] == s'
  }

  /** Some steps of the machine lead from `s` to `s'`. */
  ghost predicate Reaches(cfg: Config, s: Sys, s': Sys) {
    exists path: seq<Sys> :: IsPath(cfg, path) && Joins(path, s, s')
  }

  ghost predicate Reachable(cfg: Config, s: Sys) {
    exists run: seq<Sys> :: IsRun(cfg, run) && Joins(run, run[0], s)
  }

  lemma Stays(cfg: Config, s: Sys)
    requires cfg.half > 0
    ensures Reaches(cfg, s, s)
  {
    assert IsPath(cfg, [s]) && Joins([s], s, s);
  }

  lemma Steps(cfg: Config, s: Sys, m: Sys, st: Step) returns (s': Sys)
    requires Reaches(cfg, s, m) && cfg.half > 0 && Enabled(cfg, m, st)
    ensures s' == Apply(cfg, m, st) && Reaches(cfg, s, s')
  {
    s' := Apply(cfg, m, st);
    var path: seq<Sys> :| IsPath(cfg, path) && Joins(path, s, m);
    var longer := path + [s'];
    assert Next(cfg, m, s');
    assert IsPath(cfg, longer) && Joins(longer, s, s');
  }

  lemma ReachesOn(cfg: Config, s: Sys, m: Sys, s': Sys)
    requires Reaches(cfg, s, m) && Reaches(cfg, m, s')
    ensures Reaches(cfg, s, s')
  {
    var a: seq<Sys> :| IsPath(cfg, a) && Joins(a, s, m);
    var b: seq<Sys> :| IsPath(cfg, b) && Joins(b, m, s');
    var path := a + b[1..];
    forall i | 0 <= i < |path| - 1 ensures Next(cfg, path[i], path[i + 1]) {
      if i < |a| - 1 {
        assert path[i] == a[i] && path[i + 1] == a[i + 1];
      } else {
        var j := i - (|a| - 1);
        assert path[i] == b[j] && path[i + 1] == b[j + 1];
      }
    }
    assert IsPath(cfg, path) && Joins(path, s, s');
  }

  /** A stretch from a reachable state is the rest of a run. */
  lemma StaysReachable(cfg: Config, s: Sys, s': Sys)
    requires Reachable(cfg, s) && Reaches(cfg, s, s')
    ensures Reachable(cfg, s')
  {
    var run: seq<Sys> :| IsRun(cfg, run) && Joins(run, run[0], s);
    assert IsPath(cfg, run);
    assert Reaches(cfg, run[0], s);
    ReachesOn(cfg, run[0], s, s');
    var longer: seq<Sys> :| IsPath(cfg, longer) && Joins(longer, run[0], s');
    assert IsRun(cfg, longer) && Joins(longer, longer[0], s');
  }

  lemma ReachableKeepsInv(cfg: Config, s: Sys)
    requires Reachable(cfg, s)
    ensures Inv(cfg, s)
  {
    var run: seq<Sys> :| IsRun(cfg, run) && Joins(run, run[0], s);
    RunKeepsInv(cfg, run, |run| - 1);
  }

  ghost function Dues(queue: seq<Deadline>): (due: seq<int>)
    ensures |due| == |queue| && forall i :: 0 <= i < |due| ==> due[i] == queue[i].due
  {
    seq(|queue|, i requires 0 <= i < |queue| => queue[i].due)
  }

  /** The deadlines that the handler's methods ask for are those of the machine. */
  lemma MirroredDeadlines(cfg: Config, s: Sys, known: seq<Link>, links: seq<Link>)
    requires Reachable(cfg, s) && Mirrors(cfg, s, known, links)
    ensures Deadlines(cfg.half, links, Dues(s.queue))
  {
    ReachableKeepsInv(cfg, s);
    var q := s.queue;
    forall i, j | 0 <= i < j < |q| ensures q[i].due <= q[j].due { assert Before(q[i], q[j]); }
  }

  // ----- a delay queues itself, and goes

  lemma SamePlace(cfg: Config, s: Sys, known: seq<Link>, links: seq<Link>, l: Link, due: int)
    requires Mirrors(cfg, s, known, links) && l.releaseAt == Wrap(cfg.half, due)
    ensures TicksOf(cfg.half, s.queue) == Releases(links)
    ensures forall i :: 0 <= i < |links| ==> links[i].releaseAt < 2 * cfg.half
  {
  }

  lemma InsertedIndex<T>(s: seq<T>, k: nat, x: T)
    requires k <= |s|
    ensures |Inserted(s, k, x)| == |s| + 1
    ensures forall i :: 0 <= i <= |s| ==>
              Inserted(s, k, x)[i] == if i < k then s[i] else if i == k then x else s[i - 1]
  {
  }

  lemma InsertedMirrors(cfg: Config, s: Sys, known: seq<Link>, links: seq<Link>, l: Link, due: int, k: nat, s': Sys)
    requires Mirrors(cfg, s, known, links) && l !in known && l.releaseAt == Wrap(cfg.half, due) && k <= |links|
    requires s'.queue == Inserted(s.queue, k, Deadline(due, |known|)) && |s'.sleepers| == |known| + 1
    ensures Mirrors(cfg, s', known + [l], Inserted(links, k, l))
    ensures s'.queue[0].arrival == |known| <==> Inserted(links, k, l)[0] == l
  {
    InsertedIndex(s.queue, k, Deadline(due, |known|));
    InsertedIndex(links, k, l);
  }

  lemma InsertMirrors(cfg: Config, s: Sys, known: seq<Link>, links: seq<Link>, l: Link, due: int)
    requires Mirrors(cfg, s, known, links) && Enabled(cfg, s, Insert(due))
    requires l !in known && l.releaseAt == Wrap(cfg.half, due)
    requires forall i :: 0 <= i < |links| ==> links[i].releaseAt < 2 * cfg.half
    ensures var links' := Inserted(links, InsertAt(cfg.half, Releases(links), l.releaseAt), l);
            var s' := Apply(cfg, s, Insert(due));
            && Mirrors(cfg, s', known + [l], links')
            && (At(s', |known|, Inserting) <==> links'[0] == l)
            && (At(s', |known|, Waiting) <==> links'[0] != l)
  {
    SamePlace(cfg, s, known, links, l, due);
    var k := InsertAt(cfg.half, Releases(links), l.releaseAt);
    InsertedMirrors(cfg, s, known, links, l, due, k, Apply(cfg, s, Insert(due)));
  }

  /**
  `Delay.Poll` of a delay to a true time in the window that is not due: the stretch of a run in which the
  delay queues itself and, if it is the new head, asks for the interrupt.
  */
  lemma PollIsMoves(cfg: Config, s: Sys, known: seq<Link>, links: seq<Link>, l: Link, due: int) returns (s': Sys)
    requires Reachable(cfg, s) && Mirrors(cfg, s, known, links)
    requires InWindow(cfg.half, s.now, due) && AllInWindow(cfg, due, s.queue)
    requires l !in known && l.releaseAt == Wrap(cfg.half, due)
    ensures Reaches(cfg, s, s') && Reachable(cfg, s')
    ensures forall i :: 0 <= i < |links| ==> links[i].releaseAt < 2 * cfg.half
    ensures var links' := Inserted(links, InsertAt(cfg.half, Releases(links), l.releaseAt), l);
            && Mirrors(cfg, s', known + [l], links') && At(s', |known|, Waiting)
            && s'.pended == (s.pended || links'[0] == l) && s'.handler == s.handler && s'.enabled == s.enabled
  {
    SamePlace(cfg, s, known, links, l, due);
    InsertMirrors(cfg, s, known, links, l, due);
    Stays(cfg, s);
    s' := Steps(cfg, s, s, Insert(due));
    if At(s', |known|, Inserting) {
      s' := Steps(cfg, s, s', Pend(|known|));
    }
    StaysReachable(cfg, s, s');
  }

  lemma DeleteMirrors(cfg: Config, s: Sys, known: seq<Link>, links: seq<Link>, a: nat)
    requires Mirrors(cfg, s, known, links) && a < |known|
    ensures |Without(links, known[a])| == |Deleted(s.queue, a)|
    ensures forall i :: 0 <= i < |Deleted(s.queue, a)| ==>
              var e := Deleted(s.queue, a)[i];
              && e.arrival < |known| && Without(links, known[a])[i] == known[e.arrival]
              && known[e.arrival].releaseAt == Wrap(cfg.half, e.due)
  {
    var k := Position(s.queue, a);
    if k < |links| {
      WithoutAt(links, k);
      SkipAt(links, k, Without(links, known[a]));
      SkipAt(s.queue, k, Deleted(s.queue, a));
    } else {
      WithoutAbsent(links, known[a]);
    }
  }

  /** `Delay.Drop`: the stretch of a run in which the delay looks at its flag and leaves the queue. */
  lemma DropIsMoves(cfg: Config, s: Sys, known: seq<Link>, links: seq<Link>, a: nat) returns (s': Sys)
    requires Reachable(cfg, s) && Mirrors(cfg, s, known, links) && At(s, a, Waiting)
    ensures Reaches(cfg, s, s') && Reachable(cfg, s')
    ensures Mirrors(cfg, s', known, Without(links, known[a])) && At(s', a, Gone)
    ensures s'.pended == s.pended && s'.handler == s.handler && s'.enabled == s.enabled
  {
    ReachableKeepsInv(cfg, s);
    Stays(cfg, s);
    s' := Steps(cfg, s, s, DropLook(a));
    if s.sleepers[a].popped {
      forall i | 0 <= i < |links| ensures links[i] != known[a] { assert EntryOk(s, s.queue[i]); }
      WithoutAbsent(links, known[a]);
    } else {
      DeleteMirrors(cfg, s', known, links, a);
      s' := Steps(cfg, s, s', Delete(a));
    }
    StaysReachable(cfg, s, s');
  }

  // ----- the handler

  /** Time passes, and nothing else happens. */
  lemma {:induction false} TimePasses(cfg: Config, s: Sys, t: int) returns (s': Sys)
    requires cfg.half > 0 && s.now <= t
    requires AllInWindow(cfg, s.now, s.queue) && HandlerInWindow(cfg, s.now, s.handler)
    requires AllInWindow(cfg, t, s.queue) && HandlerInWindow(cfg, t, s.handler)
    ensures Reaches(cfg, s, s') && s' == s.(now := t, flag := s'.flag, matchAt := s'.matchAt)
    ensures t == s.now ==> s'.flag == s.flag
    decreases t - s.now
  {
    Stays(cfg, s);
    if s.now == t {
      s' := s;
    } else {
      var m := Steps(cfg, s, s, Tick(s.now + 2));
      s' := TimePasses(cfg, m, t);
      ReachesOn(cfg, s, m, s');
    }
  }

  /** The handler is about to look at the head, and its clock reads until `limit` are within the window. */
  ghost predicate CanServe(cfg: Config, s: Sys, clock: nat -> int, looked: nat, limit: nat) {
    && cfg.half > 0 && s.handler.AtHead? && Monotone(clock) && s.now <= clock(looked)
    && (forall i: nat :: looked <= i < limit ==> AllInWindow(cfg, clock(i), s.queue))
    && (s.queue != [] ==>
          var late := looked > 0 && s.queue[0].due <= clock(looked - 1);
          looked + 3 * |s.queue| - (if late then 2 else 0) <= limit)
  }

  /** `s'` is `s` after the first `k` of its queue were popped and woken, in order. */
  ghost predicate Popped(s: Sys, k: nat, s': Sys) {
    && k <= |s.queue| && s'.queue == s.queue[k..] && |s'.sleepers| == |s.sleepers|
    && s'.pended == s.pended && |s'.wakes| == |s.wakes| + k && s'.wakes[..|s.wakes|] == s.wakes
    && (forall i :: 0 <= i < k ==> s'.wakes[|s.wakes| + i].arrival == s.queue[i].arrival)
  }

  /** The head is due: it is popped and woken. */
  lemma PopOne(cfg: Config, s: Sys, clock: nat -> int, looked: nat, limit: nat) returns (s': Sys)
    requires CanServe(cfg, s, clock, looked, limit) && AllInWindow(cfg, s.now, s.queue)
    requires s.queue != [] && s.queue[0].due <= clock(looked)
    ensures Reaches(cfg, s, s') && CanServe(cfg, s', clock, looked + 1, limit) && AllInWindow(cfg, s'.now, s'.queue)
    ensures Popped(s, 1, s') && s'.now == clock(looked) && (s'.now == s.now ==> s'.flag == s.flag)
  {
    CompareIsTrueOrder(cfg.half, clock(looked), s.queue[0].due);
    var m := TimePasses(cfg, s, clock(looked));
    m := Steps(cfg, s, m, LookAtHead);
    s' := Steps(cfg, s, m, WakeTask);
  }

  /** At the head, which is not due: the timer is enabled and set for it. */
  lemma Arm(cfg: Config, s: Sys) returns (s': Sys)
    requires cfg.half > 0 && s.handler.AtHead? && s.queue != [] && s.now < s.queue[0].due
    requires AllInWindow(cfg, s.now, s.queue)
    ensures Reaches(cfg, s, s')
    ensures var d := s.queue[0].due; s' == s.(handler := Rechecking(d), enabled := true, matchAt := d)
  {
    CompareIsTrueOrder(cfg.half, s.now, s.queue[0].due);
    Stays(cfg, s);
    var m := Steps(cfg, s, s, LookAtHead);
    m := Steps(cfg, s, m, EnableTimer);
    s' := Steps(cfg, s, m, SetCompare(s.queue[0].due));
  }

  /** The head is not due: the timer is set for it, and the clock read again. */
  lemma SetTimer(cfg: Config, s: Sys, clock: nat -> int, looked: nat, limit: nat) returns (s': Sys)
    requires CanServe(cfg, s, clock, looked, limit) && AllInWindow(cfg, s.now, s.queue)
    requires s.queue != [] && clock(looked) < s.queue[0].due
    ensures Reaches(cfg, s, s') && AllInWindow(cfg, s'.now, s'.queue)
    ensures s' == s.(handler := if s.queue[0].due <= clock(looked + 1) then AtHead else Idle,
                     now := clock(looked + 1), enabled := true, flag := s'.flag, matchAt := s'.matchAt)
    ensures s'.handler.AtHead? ==> CanServe(cfg, s', clock, looked + 2, limit)
    ensures s'.now == s.now ==> s'.flag == s.flag
  {
    CompareIsTrueOrder(cfg.half, clock(looked + 1), s.queue[0].due);
    var m := TimePasses(cfg, s, clock(looked));
    var n := Arm(cfg, m);
    ReachesOn(cfg, s, m, n);
    m := TimePasses(cfg, n, clock(looked + 1));
    ReachesOn(cfg, s, n, m);
    s' := Steps(cfg, s, m, Recheck);
  }

  /** The queue is empty: the timer is disabled. */
  lemma StopTimer(cfg: Config, s: Sys) returns (s': Sys)
    requires cfg.half > 0 && s.handler.AtHead? && s.queue == []
    ensures Reaches(cfg, s, s') && s' == s.(handler := Idle, enabled := !cfg.gates)
  {
    Stays(cfg, s);
    var m := Steps(cfg, s, s, LookAtHead);
    s' := Steps(cfg, s, m, DisableTimer);
  }

  lemma PoppedTwice(s: Sys, j: nat, s': Sys, k: nat, s'': Sys)
    requires Popped(s, j, s') && Popped(s', k, s'')
    ensures Popped(s, j + k, s'')
  {
    assert s.queue[j..][k..] == s.queue[j + k..];
    forall i | 0 <= i < |s.wakes| ensures s''.wakes[i] == s.wakes[i] {
      assert s''.wakes[..|s'.wakes|][i] == s'.wakes[i] && s'.wakes[..|s.wakes|][i] == s.wakes[i];
    }
    forall i | 0 <= i < j + k ensures s''.wakes[|s.wakes| + i].arrival == s.queue[i].arrival {
      if i < j {
        assert s''.wakes[..|s'.wakes|][|s.wakes| + i] == s'.wakes[|s.wakes| + i];
      } else {
        assert s''.wakes[|s'.wakes| + (i - j)].arrival == s'.queue[i - j].arrival;
      }
    }
  }

  /** How the loop of the handler leaves the machine. */
  ghost predicate Ended(cfg: Config, s: Sys, clock: nat -> int, looked: nat, s': Sys)
    requires Monotone(clock)
  {
    var (k, looks) := Served(clock, Dues(s.queue), looked);
    && Popped(s, k, s') && s'.handler.Idle? && s'.enabled == (s'.queue != [] || !cfg.gates)
    && s'.now == (if looks > looked then clock(looks - 1) else s.now)
    && (s'.now == s.now ==> s'.flag == s.flag)
  }

  lemma PopThenEnd(cfg: Config, s: Sys, clock: nat -> int, looked: nat, m: Sys, s': Sys)
    requires Monotone(clock) && s.queue != [] && s.queue[0].due <= clock(looked)
    requires Popped(s, 1, m) && s.now <= m.now == clock(looked) && (m.now == s.now ==> m.flag == s.flag)
    requires Ended(cfg, m, clock, looked + 1, s')
    ensures Ended(cfg, s, clock, looked, s')
  {
    assert Dues(s.queue)[1..] == Dues(m.queue);
    PoppedTwice(s, 1, m, Served(clock, Dues(m.queue), looked + 1).0, s');
  }

  lemma SetThenEnd(cfg: Config, s: Sys, clock: nat -> int, looked: nat, m: Sys, s': Sys)
    requires Monotone(clock) && s.queue != [] && clock(looked) < s.queue[0].due <= clock(looked + 1)
    requires m == s.(now := clock(looked + 1), enabled := true, flag := m.flag, matchAt := m.matchAt)
    requires s.now <= m.now && (m.now == s.now ==> m.flag == s.flag) && Ended(cfg, m, clock, looked + 2, s')
    ensures Ended(cfg, s, clock, looked, s')
  {
  }

  lemma StopEnds(cfg: Config, s: Sys, clock: nat -> int, looked: nat, s': Sys)
    requires Monotone(clock) && s.queue == [] && s' == s.(handler := Idle, enabled := !cfg.gates)
    ensures Ended(cfg, s, clock, looked, s')
  {
  }

  lemma SetEnds(cfg: Config, s: Sys, clock: nat -> int, looked: nat, s': Sys)
    requires Monotone(clock) && s.queue != [] && clock(looked + 1) < s.queue[0].due
    requires s' == s.(handler := Idle, now := clock(looked + 1), enabled := true,
                      flag := s'.flag, matchAt := s'.matchAt)
    requires s'.now == s.now ==> s'.flag == s.flag
    ensures Ended(cfg, s, clock, looked, s')
  {
    assert clock(looked) <= clock(looked + 1);
  }

  /** The loop of the handler. */
  lemma {:induction false} LoopIsMoves(cfg: Config, s: Sys, clock: nat -> int, looked: nat, limit: nat)
      returns (s': Sys)
    requires CanServe(cfg, s, clock, looked, limit) && AllInWindow(cfg, s.now, s.queue)
    ensures Reaches(cfg, s, s') && Ended(cfg, s, clock, looked, s')
    decreases |s.queue|, if looked > 0 && s.queue != [] && s.queue[0].due <= clock(looked - 1) then 0 else 1
  {
    if s.queue == [] {
      s' := StopTimer(cfg, s);
      StopEnds(cfg, s, clock, looked, s');
    } else if s.queue[0].due <= clock(looked) {
      var m := PopOne(cfg, s, clock, looked, limit);
      s' := LoopIsMoves(cfg, m, clock, looked + 1, limit);
      ReachesOn(cfg, s, m, s');
      PopThenEnd(cfg, s, clock, looked, m, s');
    } else {
      var m := SetTimer(cfg, s, clock, looked, limit);
      s' := m;
      if m.handler.AtHead? {
        s' := LoopIsMoves(cfg, m, clock, looked + 2, limit);
        ReachesOn(cfg, s, m, s');
        SetThenEnd(cfg, s, clock, looked, m, s');
      } else {
        SetEnds(cfg, s, clock, looked, s');
      }
    }
  }

  /** What the handler does to the list, as `TimerQueue.OnMonotonicInterrupt` states it. */
  ghost predicate HandlerDid(cfg: Config, s: Sys, known: seq<Link>, links: seq<Link>, k: nat, s': Sys)
    requires k <= |links|
  {
    && Mirrors(cfg, s', known, links[k..])
    && s'.handler.Idle? && !s'.pended && s'.enabled == (k < |links| || !cfg.gates)
    && |s'.wakes| == |s.wakes| + k && s'.wakes[..|s.wakes|] == s.wakes
    && forall i :: 0 <= i < k ==>
         var a := s'.wakes[|s.wakes| + i].arrival; a < |known| && known[a] == links[i]
  }

  lemma EndedMirrors(cfg: Config, s: Sys, known: seq<Link>, links: seq<Link>, m: Sys, clock: nat -> int, s': Sys)
    requires Mirrors(cfg, s, known, links) && Monotone(clock)
    requires m == s.(handler := AtHead, pended := false, flag := false) && Ended(cfg, m, clock, 0, s')
    ensures var k := Served(clock, Dues(s.queue), 0).0; k <= |links| && HandlerDid(cfg, s, known, links, k, s')
  {
  }

  /**
  `TimerQueue.OnMonotonicInterrupt`: the stretch of a run in which the handler runs, with time passing but
  nothing else between its steps, wakes the same links and leaves the same list and the same timer.
  */
  lemma HandlerIsMoves(cfg: Config, s: Sys, known: seq<Link>, links: seq<Link>, clock: nat -> int) returns (s': Sys)
    requires Reachable(cfg, s) && Mirrors(cfg, s, known, links)
    requires s.handler.Idle? && Monotone(clock) && s.now <= clock(0)
    requires LooksInWindow(cfg.half, clock, Dues(s.queue), 3 * |links| + 2)
    ensures Reaches(cfg, s, s') && Reachable(cfg, s')
    ensures var (k, looks) := Served(clock, Dues(s.queue), 0);
            && k <= |links| && HandlerDid(cfg, s, known, links, k, s')
            && s'.now == (if looks > 0 then clock(looks - 1) else s.now)
            && (s'.now == s.now ==> !s'.flag)
  {
    ReachableKeepsInv(cfg, s);
    Stays(cfg, s);
    var m := Steps(cfg, s, s, Enter);
    m := Steps(cfg, s, m, ClearFlag);
    forall i: nat | i < 3 * |links| + 2 ensures AllInWindow(cfg, clock(i), m.queue) {
      forall j | 0 <= j < |links| ensures InWindow(cfg.half, clock(i), m.queue[j].due) {
        assert InWindow(cfg.half, clock(i), Dues(s.queue)[j]);
      }
    }
    s' := LoopIsMoves(cfg, m, clock, 0, 3 * |links| + 2);
    ReachesOn(cfg, s, m, s');
    StaysReachable(cfg, s, s');
    EndedMirrors(cfg, s, known, links, m, clock, s');
  }

  /** So no link in the list is forgotten, whatever the methods did before. */
  lemma NoLinkForgotten(cfg: Config, s: Sys, known: seq<Link>, links: seq<Link>, i: nat)
    requires Reachable(cfg, s) && Mirrors(cfg, s, known, links) && i < |links|
    ensures || s.pended || !s.handler.Idle? || SomeInserting(s) || (s.enabled && s.flag)
            || (s.enabled && s.now < s.matchAt <= s.queue[i].due + cfg.lag)
  {
    ReachableKeepsInv(cfg, s);
    HeadIsEarliest(s, i);
  }
}
