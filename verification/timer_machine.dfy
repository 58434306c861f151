/**
The timer queue under preemption: the clock, the compare hardware, the interrupt handler and
any number of delays, each advancing by one critical section or register access at a time.
*/
module TimerMachine {
  import opened Ticks
  import opened TimerList

  /**
  `gates` tells whether the backend implements `enable_timer` and `disable_timer`; `lag` bounds
  how late a compare match armed before a deadline comes, see `CompareValues`.
  */
  datatype Config = Config(half: nat, gates: bool, lag: nat)

  /** A delay that queued its link; the link's number is its position in the order of insertion. */
  datatype Place = Inserting | Waiting | Unlinking | Gone
  datatype Sleeper = Sleeper(due: int, place: Place, popped: bool)

  /** The handler: before each of its steps. */
  datatype Handler =
    | Idle | Entered | AtHead | Waking(a: nat)
    | Enabling(d: int) | Arming(d: int) | Rechecking(d: int) | Disabling

  datatype Wake = Wake(arrival: nat, at: int)

  /** `matchAt` is when the compare register next matches the counter; `flag` latches a match. */
  datatype Sys = Sys(
    now: int,
    queue: seq<Deadline>,
    sleepers: seq<Sleeper>,
    handler: Handler,
    pended: bool,
    enabled: bool,
    flag: bool,
    matchAt: int,
    wakes: seq<Wake>)

  datatype Step =
    | Tick(next: int)
    | Enter | ClearFlag | LookAtHead | WakeTask | EnableTimer | SetCompare(m: int) | Recheck | DisableTimer
    | Insert(due: int) | Pend(a: nat)
    | DropLook(a: nat) | Delete(a: nat)

  /** The compare register may hold anything. */
  ghost function Init(cfg: Config, now: int, matchAt: int): Sys {
    Sys(now, [], [], Idle, false, !cfg.gates, false, matchAt, [])
  }

  ghost predicate Due(cfg: Config, now: int, d: int)
    requires cfg.half > 0
  {
    IsAtLeast(cfg.half, Wrap(cfg.half, now), Wrap(cfg.half, d))
  }

  /** The clock and a deadline stay within half the tick range of every queued deadline. */
  ghost predicate AllInWindow(cfg: Config, t: int, queue: seq<Deadline>) {
    forall i :: 0 <= i < |queue| ==> InWindow(cfg.half, t, queue[i].due)
  }

  ghost predicate At(s: Sys, a: nat, p: Place) { a < |s.sleepers| && s.sleepers[a].place == p }

  /** So does the clock and the deadline that the handler is setting the timer for. */
  ghost predicate HandlerInWindow(cfg: Config, t: int, h: Handler) {
    h.Enabling? || h.Arming? || h.Rechecking? ==> InWindow(cfg.half, t, h.d)
  }

  /** Nothing is said about which step comes next; the window is the only assumption on the clock. */
  ghost predicate Enabled(cfg: Config, s: Sys, st: Step) {
    match st
    case Tick(next) =>
      AllInWindow(cfg, s.now + 1, s.queue) && HandlerInWindow(cfg, s.now + 1, s.handler) && next > s.now + 1
    case Enter => s.handler.Idle?
    case ClearFlag => s.handler.Entered?
    case LookAtHead => s.handler.AtHead?
    case WakeTask => s.handler.Waking?
    case EnableTimer => s.handler.Enabling?
    case SetCompare(m) =>
      s.handler.Arming? && m > s.now && (s.now < s.handler.d ==> m <= s.handler.d + cfg.lag)
    case Recheck => s.handler.Rechecking?
    case DisableTimer => s.handler.Disabling?
    case Insert(due) => AllInWindow(cfg, due, s.queue) && InWindow(cfg.half, s.now, due)
    case Pend(a) => At(s, a, Inserting)
    case DropLook(a) => At(s, a, Waiting)
    case Delete(a) => At(s, a, Unlinking)
  }

  ghost function Move(s: Sys, a: nat, p: Place): Sys
    requires a < |s.sleepers|
  {
    s.(sleepers := s.sleepers[a := s.sleepers[a].(place := p)])
  }

  /** Where the link with this number is queued; the length if it is not. */
  ghost function Position(queue: seq<Deadline>, a: nat): (k: nat)
    ensures k <= |queue| && (k < |queue| ==> queue[k].arrival == a)
    ensures forall i :: 0 <= i < k ==> queue[i].arrival != a
  {
    if queue == [] || queue[0].arrival == a then 0 else 1 + Position(queue[1..], a)
  }

  ghost function Deleted(queue: seq<Deadline>, a: nat): seq<Deadline> {
    var k := Position(queue, a);
    if k < |queue| then queue[..k] + queue[k + 1..] else queue
  }

  ghost function PopHead(s: Sys): Sys
    requires s.queue != []
  {
    var a := s.queue[0].arrival;
    s.(queue := s.queue[1..],
       sleepers := if a < |s.sleepers| then s.sleepers[a := s.sleepers[a].(popped := true)] else s.sleepers,
       handler := Waking(a))
  }

  ghost function Queued(cfg: Config, s: Sys, due: int): seq<Deadline>
    requires cfg.half > 0
  {
    Inserted(s.queue, InsertAt(cfg.half, TicksOf(cfg.half, s.queue), Wrap(cfg.half, due)),
             Deadline(due, |s.sleepers|))
  }

  ghost function Apply(cfg: Config, s: Sys, st: Step): Sys
    requires cfg.half > 0 && Enabled(cfg, s, st)
  {
    match st
    case Tick(next) =>
      if s.now + 1 == s.matchAt then s.(now := s.now + 1, flag := true, matchAt := next) else s.(now := s.now + 1)
    case Enter => s.(handler := Entered, pended := false)
    case ClearFlag => s.(handler := AtHead, flag := false)
    case LookAtHead =>
      if s.queue == [] then s.(handler := Disabling)
      else if Due(cfg, s.now, s.queue[0].due) then PopHead(s)
      else s.(handler := Enabling(s.queue[0].due))
    case WakeTask => s.(handler := AtHead, wakes := s.wakes + [Wake(s.handler.a, s.now)])
    case EnableTimer => s.(handler := Arming(s.handler.d), enabled := true)
    case SetCompare(m) => s.(handler := Rechecking(s.handler.d), matchAt := m)
    case Recheck => s.(handler := if Due(cfg, s.now, s.handler.d) then AtHead else Idle)
    case DisableTimer => s.(handler := Idle, enabled := !cfg.gates)
    case Insert(due) =>
      var q := Queued(cfg, s, due);
      var p := if q[0].arrival == |s.sleepers| then Inserting else Waiting;
      s.(queue := q, sleepers := s.sleepers + [Sleeper(due, p, false)])
    case Pend(a) => Move(s, a, Waiting).(pended := true)
    case DropLook(a) => Move(s, a, if s.sleepers[a].popped then Gone else Unlinking)
    case Delete(a) => Move(s, a, Gone).(queue := Deleted(s.queue, a))
  }

  ghost predicate Next(cfg: Config, s: Sys, s': Sys)
    requires cfg.half > 0
  {
    exists st :: Enabled(cfg, s, st) && s' == Apply(cfg, s, st)
  }

  ghost predicate IsRun(cfg: Config, run: seq<Sys>) {
    && cfg.half > 0 && |run| > 0
    && run[0] == Init(cfg, run[0].now, run[0].matchAt)
    && forall i :: 0 <= i < |run| - 1 ==> Next(cfg, run[i], run[i + 1])
  }
}

/** What every run of the timer queue keeps. */
module TimerRuns {
  import opened Ticks
  import opened TimerList
  import opened TimerMachine

  ghost predicate InQueue(s: Sys, a: nat) { exists i :: 0 <= i < |s.queue| && s.queue[i].arrival == a }

  /** Still waiting: the delay is alive and its link was not popped. */
  ghost predicate Sleeping(s: Sys, a: nat) {
    a < |s.sleepers| && !s.sleepers[a].place.Gone? && !s.sleepers[a].popped
  }

  ghost predicate EntryOk(s: Sys, e: Deadline) {
    Sleeping(s, e.arrival) && e.due == s.sleepers[e.arrival].due
  }

  /** The queue is sorted and stable, and holds exactly the delays still waiting. */
  ghost predicate ListInv(cfg: Config, s: Sys) {
    && cfg.half > 0
    && Sorted(s.queue)
    && AllInWindow(cfg, s.now, s.queue) && HandlerInWindow(cfg, s.now, s.handler)
    && (forall i :: 0 <= i < |s.queue| ==> EntryOk(s, s.queue[i]))
    && (forall a: nat :: Sleeping(s, a) ==> InQueue(s, a))
  }

  ghost predicate BeingWoken(s: Sys, a: nat) { s.handler == Waking(a) }

  /** Wakes are never early and never repeated, and a popped link was woken or is being woken. */
  ghost predicate WakeInv(s: Sys) {
    && (forall i :: 0 <= i < |s.wakes| ==>
          var w := s.wakes[i];
          w.arrival < |s.sleepers| && s.sleepers[w.arrival].popped && s.sleepers[w.arrival].due <= w.at)
    && (forall i, j :: 0 <= i < j < |s.wakes| ==> s.wakes[i].arrival != s.wakes[j].arrival)
    && (forall a: nat :: a < |s.sleepers| && s.sleepers[a].popped ==> Woken(s, a) || BeingWoken(s, a))
    && (s.handler.Waking? ==>
          var a := s.handler.a;
          a < |s.sleepers| && s.sleepers[a].popped && s.sleepers[a].due <= s.now && !Woken(s, a))
  }

  ghost predicate Woken(s: Sys, a: nat) { exists i :: 0 <= i < |s.wakes| && s.wakes[i].arrival == a }

  /** The hardware will raise, or has raised, the interrupt in time for `d`. */
  ghost predicate Promised(cfg: Config, s: Sys, d: int) {
    s.enabled && (s.flag || s.now < s.matchAt <= d + cfg.lag)
  }

  /** Some delay has become the head and not yet asked for the interrupt. */
  ghost predicate SomeInserting(s: Sys) { exists a: nat :: At(s, a, Inserting) }

  ghost predicate HandlerCovers(cfg: Config, s: Sys) {
    s.queue == [] ||
    var head := s.queue[0].due;
    match s.handler
    case Idle => Promised(cfg, s, head)
    case Entered => true
    case AtHead => true
    case Waking(_) => true
    case Enabling(d) => d <= head
    case Arming(d) => s.enabled && d <= head
    case Rechecking(d) => s.enabled && d <= head && (d <= s.now || Promised(cfg, s, d))
    case Disabling => false
  }

  ghost predicate CoverInv(cfg: Config, s: Sys) {
    (!cfg.gates ==> s.enabled) && (s.pended || SomeInserting(s) || HandlerCovers(cfg, s))
  }

  ghost predicate Inv(cfg: Config, s: Sys) { ListInv(cfg, s) && WakeInv(s) && CoverInv(cfg, s) }

  // ----- the list

  lemma HeadIsEarliest(s: Sys, i: nat)
    requires Sorted(s.queue) && i < |s.queue|
    ensures s.queue[0].due <= s.queue[i].due
  {
    if i > 0 { assert Before(s.queue[0], s.queue[i]); }
  }

  lemma PopKeepsList(cfg: Config, s: Sys)
    requires ListInv(cfg, s) && s.queue != []
    ensures ListInv(cfg, PopHead(s))
  {
    var a := s.queue[0].arrival;
    var s' := PopHead(s);
    assert Sleeping(s, a);
    forall i | 0 <= i < |s'.queue| ensures s'.queue[i].arrival != a && Sleeping(s', s'.queue[i].arrival) {
      assert s'.queue[i] == s.queue[i + 1] && Before(s.queue[0], s.queue[i + 1]);
      assert Sleeping(s, s.queue[i + 1].arrival);
    }
    forall b: nat | Sleeping(s', b) ensures InQueue(s', b) {
      assert Sleeping(s, b);
      var i :| 0 <= i < |s.queue| && s.queue[i].arrival == b;
      assert s'.queue[i - 1] == s.queue[i];
    }
  }

  lemma InsertKeepsList(cfg: Config, s: Sys, due: int)
    requires ListInv(cfg, s) && Enabled(cfg, s, Insert(due))
    ensures ListInv(cfg, Apply(cfg, s, Insert(due)))
  {
    var s' := Apply(cfg, s, Insert(due));
    var k := InsertAt(cfg.half, TicksOf(cfg.half, s.queue), Wrap(cfg.half, due));
    var d := Deadline(due, |s.sleepers|);
    assert forall i :: 0 <= i < |s.queue| ==> EntryOk(s, s.queue[i]);
    InsertionSorts(cfg.half, s.queue, d);
    InsertedMembers(s.queue, k, d);
    forall e | e in s'.queue ensures EntryOk(s', e) && InWindow(cfg.half, s.now, e.due) {
      if e != d { assert EntryOk(s, e); }
    }
    forall b: nat | Sleeping(s', b) ensures InQueue(s', b) {
      if b != |s.sleepers| { assert Sleeping(s, b); }
      FindArrival(s', if b == |s.sleepers| then d else Entry(s, b));
    }
  }

  lemma InsertedMembers(q: seq<Deadline>, k: nat, d: Deadline)
    requires k <= |q|
    ensures forall e :: e in Inserted(q, k, d) <==> e == d || e in q
  {
    var t := Inserted(q, k, d);
    assert t[k] == d;
    forall i | 0 <= i < |q| ensures q[i] in t { assert t[if i < k then i else i + 1] == q[i]; }
  }

  /** The queue entry of a delay that still waits. */
  ghost function Entry(s: Sys, a: nat): (e: Deadline)
    requires InQueue(s, a)
    ensures e in s.queue && e.arrival == a
  {
    var i :| 0 <= i < |s.queue| && s.queue[i].arrival == a; s.queue[i]
  }

  lemma FindArrival(s: Sys, e: Deadline)
    requires e in s.queue
    ensures InQueue(s, e.arrival)
  {
    var i :| 0 <= i < |s.queue| && s.queue[i] == e;
  }

  lemma DeleteKeepsList(cfg: Config, s: Sys, a: nat)
    requires ListInv(cfg, s) && Enabled(cfg, s, Delete(a))
    ensures ListInv(cfg, Apply(cfg, s, Delete(a)))
  {
    var s' := Apply(cfg, s, Delete(a));
    var k := Position(s.queue, a);
    if k < |s.queue| { RemovalKeepsSorted(s.queue, k); }
    DeletedMembers(cfg, s, a);
    forall e | e in s'.queue ensures EntryOk(s', e) && InWindow(cfg.half, s.now, e.due) {
      assert EntryOk(s, e);
    }
    forall b: nat | Sleeping(s', b) ensures InQueue(s', b) {
      assert Sleeping(s, b);
      FindArrival(s', Entry(s, b));
    }
  }

  lemma DeletedMembers(cfg: Config, s: Sys, a: nat)
    requires ListInv(cfg, s)
    ensures forall e :: e in Deleted(s.queue, a) <==> e in s.queue && e.arrival != a
  {
    var k := Position(s.queue, a);
    var q := Deleted(s.queue, a);
    forall i | 0 <= i < |s.queue| && i != k ensures s.queue[i].arrival != a {
      if k < i {
        assert EntryOk(s, s.queue[i]) && EntryOk(s, s.queue[k]);
        assert Before(s.queue[k], s.queue[i]);
      }
    }
    forall i | 0 <= i < |s.queue| && i != k ensures s.queue[i] in q {
      assert q[if i < k then i else i - 1] == s.queue[i];
    }
  }

  lemma MoveKeepsList(cfg: Config, s: Sys, a: nat, p: Place)
    requires ListInv(cfg, s) && a < |s.sleepers| && !s.sleepers[a].place.Gone?
    requires p == Gone ==> s.sleepers[a].popped
    ensures ListInv(cfg, Move(s, a, p))
  {
    var s' := Move(s, a, p);
    assert forall b: nat :: Sleeping(s', b) <==> Sleeping(s, b);
    forall b: nat | Sleeping(s', b) ensures InQueue(s', b) {
      var i :| 0 <= i < |s.queue| && s.queue[i].arrival == b;
      assert s'.queue[i].arrival == b;
    }
  }

  /** Steps that touch neither the queue nor the delays. */
  lemma SameList(cfg: Config, s: Sys, s': Sys)
    requires ListInv(cfg, s) && s'.queue == s.queue && s'.sleepers == s.sleepers
    requires AllInWindow(cfg, s'.now, s'.queue) && HandlerInWindow(cfg, s'.now, s'.handler)
    ensures ListInv(cfg, s')
  {
    assert forall b: nat :: Sleeping(s', b) <==> Sleeping(s, b);
    forall b: nat | Sleeping(s', b) ensures InQueue(s', b) {
      var i :| 0 <= i < |s.queue| && s.queue[i].arrival == b;
      assert s'.queue[i].arrival == b;
    }
  }

  lemma StepKeepsList(cfg: Config, s: Sys, st: Step)
    requires ListInv(cfg, s) && Enabled(cfg, s, st)
    ensures ListInv(cfg, Apply(cfg, s, st))
  {
    match st
    case Insert(due) => InsertKeepsList(cfg, s, due);
    case Delete(a) => DeleteKeepsList(cfg, s, a);
    case Pend(a) =>
      MoveKeepsList(cfg, s, a, Waiting);
      SameList(cfg, Move(s, a, Waiting), Apply(cfg, s, st));
    case DropLook(a) => MoveKeepsList(cfg, s, a, if s.sleepers[a].popped then Gone else Unlinking);
    case LookAtHead =>
      if s.queue != [] && Due(cfg, s.now, s.queue[0].due) { PopKeepsList(cfg, s); }
      else { SameList(cfg, s, Apply(cfg, s, st)); }
    case _ => SameList(cfg, s, Apply(cfg, s, st));
  }

  // ----- the wakes

  /** Steps that wake nobody and pop nothing. */
  lemma SameWakes(s: Sys, s': Sys)
    requires WakeInv(s) && s'.wakes == s.wakes && |s.sleepers| <= |s'.sleepers| && s.now <= s'.now
    requires (s.handler.Waking? || s'.handler.Waking?) ==> s'.handler == s.handler
    requires forall a: nat :: a < |s'.sleepers| ==>
               if a < |s.sleepers| then
                 s'.sleepers[a].popped == s.sleepers[a].popped && s'.sleepers[a].due == s.sleepers[a].due
               else !s'.sleepers[a].popped
    ensures WakeInv(s')
  {
    assert forall a: nat :: Woken(s, a) <==> Woken(s', a);
  }

  lemma PopKeepsWakes(cfg: Config, s: Sys)
    requires ListInv(cfg, s) && WakeInv(s) && s.handler.AtHead?
    requires s.queue != [] && Due(cfg, s.now, s.queue[0].due)
    ensures WakeInv(PopHead(s))
  {
    var e := s.queue[0];
    var s' := PopHead(s);
    assert EntryOk(s, e);
    CompareIsTrueOrder(cfg.half, s.now, e.due);
    assert forall a: nat :: Woken(s, a) <==> Woken(s', a);
    forall i | 0 <= i < |s.wakes| ensures s.wakes[i].arrival != e.arrival {
      assert s.sleepers[s.wakes[i].arrival].popped;
    }
  }

  lemma WakeKeepsWakes(s: Sys)
    requires WakeInv(s) && s.handler.Waking?
    ensures WakeInv(s.(handler := AtHead, wakes := s.wakes + [Wake(s.handler.a, s.now)]))
  {
    var s' := s.(handler := AtHead, wakes := s.wakes + [Wake(s.handler.a, s.now)]);
    forall i | 0 <= i < |s.wakes| ensures s.wakes[i].arrival != s.handler.a {
      assert s.wakes[i].arrival == s.handler.a ==> Woken(s, s.handler.a);
    }
    forall a: nat | a < |s'.sleepers| && s'.sleepers[a].popped ensures Woken(s', a) {
      if a == s.handler.a {
        assert s'.wakes[|s.wakes|].arrival == a;
      } else {
        assert !BeingWoken(s, a);
        var i :| 0 <= i < |s.wakes| && s.wakes[i].arrival == a;
        assert s'.wakes[i] == s.wakes[i];
      }
    }
  }

  lemma StepKeepsWakes(cfg: Config, s: Sys, st: Step)
    requires ListInv(cfg, s) && WakeInv(s) && Enabled(cfg, s, st)
    ensures WakeInv(Apply(cfg, s, st))
  {
    if st.LookAtHead? && s.queue != [] && Due(cfg, s.now, s.queue[0].due) {
      PopKeepsWakes(cfg, s);
    } else if st.WakeTask? {
      WakeKeepsWakes(s);
    } else {
      WakesNobody(cfg, s, st);
      SameWakes(s, Apply(cfg, s, st));
    }
  }

  lemma WakesNobody(cfg: Config, s: Sys, st: Step)
    requires cfg.half > 0 && Enabled(cfg, s, st) && !st.WakeTask?
    requires st.LookAtHead? ==> s.queue == [] || !Due(cfg, s.now, s.queue[0].due)
    ensures var s' := Apply(cfg, s, st);
            && s'.wakes == s.wakes && |s.sleepers| <= |s'.sleepers| && s.now <= s'.now
            && (s.handler.Waking? || s'.handler.Waking? ==> s'.handler == s.handler)
            && (forall a: nat :: a < |s'.sleepers| ==>
                  if a < |s.sleepers| then
                    s'.sleepers[a].popped == s.sleepers[a].popped && s'.sleepers[a].due == s.sleepers[a].due
                  else !s'.sleepers[a].popped)
  {
  }

  // ----- no deadline is forgotten

  lemma InsertKeepsCover(cfg: Config, s: Sys, due: int)
    requires ListInv(cfg, s) && CoverInv(cfg, s) && Enabled(cfg, s, Insert(due))
    ensures CoverInv(cfg, Apply(cfg, s, Insert(due)))
  {
    var s' := Apply(cfg, s, Insert(due));
    var n := |s.sleepers|;
    if s'.queue[0].arrival == n {
      assert At(s', n, Inserting);
    } else {
      var k := InsertAt(cfg.half, TicksOf(cfg.half, s.queue), Wrap(cfg.half, due));
      assert k > 0 && s'.queue[0] == s.queue[0];
      InsertingStays(s, s');
    }
  }

  lemma InsertingStays(s: Sys, s': Sys)
    requires forall a: nat :: At(s, a, Inserting) ==> At(s', a, Inserting)
    ensures SomeInserting(s) ==> SomeInserting(s')
  {
    if SomeInserting(s) {
      var a: nat :| At(s, a, Inserting);
      assert At(s', a, Inserting);
    }
  }

  lemma DeleteKeepsCover(cfg: Config, s: Sys, a: nat)
    requires ListInv(cfg, s) && CoverInv(cfg, s) && Enabled(cfg, s, Delete(a))
    ensures CoverInv(cfg, Apply(cfg, s, Delete(a)))
  {
    var s' := Apply(cfg, s, Delete(a));
    InsertingStays(s, s');
    if s'.queue != [] {
      assert s'.queue[0] in s.queue;
      var i :| 0 <= i < |s.queue| && s.queue[i] == s'.queue[0];
      HeadIsEarliest(s, i);
    }
  }

  lemma TickKeepsCover(cfg: Config, s: Sys, next: int)
    requires ListInv(cfg, s) && CoverInv(cfg, s) && Enabled(cfg, s, Tick(next))
    ensures CoverInv(cfg, Apply(cfg, s, Tick(next)))
  {
    InsertingStays(s, Apply(cfg, s, Tick(next)));
  }

  lemma LookKeepsCover(cfg: Config, s: Sys)
    requires ListInv(cfg, s) && CoverInv(cfg, s) && Enabled(cfg, s, LookAtHead)
    ensures CoverInv(cfg, Apply(cfg, s, LookAtHead))
  {
    InsertingStays(s, Apply(cfg, s, LookAtHead));
  }

  lemma RecheckKeepsCover(cfg: Config, s: Sys)
    requires ListInv(cfg, s) && CoverInv(cfg, s) && Enabled(cfg, s, Recheck)
    ensures CoverInv(cfg, Apply(cfg, s, Recheck))
  {
    CompareIsTrueOrder(cfg.half, s.now, s.handler.d);
    InsertingStays(s, Apply(cfg, s, Recheck));
  }

  lemma StepKeepsCover(cfg: Config, s: Sys, st: Step)
    requires ListInv(cfg, s) && CoverInv(cfg, s) && Enabled(cfg, s, st)
    ensures CoverInv(cfg, Apply(cfg, s, st))
  {
    match st
    case Tick(next) => TickKeepsCover(cfg, s, next);
    case Insert(due) => InsertKeepsCover(cfg, s, due);
    case Delete(a) => DeleteKeepsCover(cfg, s, a);
    case Pend(a) =>
    case Recheck => RecheckKeepsCover(cfg, s);
    case LookAtHead => LookKeepsCover(cfg, s);
    case _ => InsertingStays(s, Apply(cfg, s, st));
  }

  // ----- the theorems

  lemma {:induction false} RunKeepsInv(cfg: Config, run: seq<Sys>, i: nat)
    requires IsRun(cfg, run) && i < |run|
    ensures Inv(cfg, run[i])
  {
    if i == 0 {
    } else {
      RunKeepsInv(cfg, run, i - 1);
      assert Next(cfg, run[i - 1], run[i - 1 + 1]);
      var st :| Enabled(cfg, run[i - 1], st) && run[i] == Apply(cfg, run[i - 1], st);
      StepKeepsList(cfg, run[i - 1], st);
      StepKeepsWakes(cfg, run[i - 1], st);
      StepKeepsCover(cfg, run[i - 1], st);
    }
  }

  /**
  No sleeper is forgotten.  While a delay waits, the interrupt is pending or its handler active,
  or a new head has yet to ask for it, or the timer is armed for a match that is still to come
  and at most `lag` later than this deadline.
  */
  lemma NoSleeperForgotten(cfg: Config, run: seq<Sys>, i: nat, a: nat)
    requires IsRun(cfg, run) && i < |run| && Sleeping(run[i], a)
    ensures var s := run[i];
            || s.pended || !s.handler.Idle? || SomeInserting(s) || (s.enabled && s.flag)
            || (s.enabled && s.now < s.matchAt <= s.sleepers[a].due + cfg.lag)
  {
    RunKeepsInv(cfg, run, i);
    var s := run[i];
    assert InQueue(s, a);
    var k :| 0 <= k < |s.queue| && s.queue[k].arrival == a;
    HeadIsEarliest(s, k);
  }

  /** So the interrupt of a delay overdue by the lag is requested, being handled, or about to be requested. */
  lemma OverdueIsServed(cfg: Config, run: seq<Sys>, i: nat, a: nat)
    requires IsRun(cfg, run) && i < |run| && Sleeping(run[i], a)
    requires run[i].sleepers[a].due + cfg.lag <= run[i].now
    ensures var s := run[i]; s.pended || !s.handler.Idle? || SomeInserting(s) || (s.enabled && s.flag)
  {
    NoSleeperForgotten(cfg, run, i, a);
  }

  /** The queue holds exactly the links of delays that still wait, ordered by deadline and then by arrival. */
  lemma QueueIsTheSleepers(cfg: Config, run: seq<Sys>, i: nat)
    requires IsRun(cfg, run) && i < |run|
    ensures var s := run[i];
            && Sorted(s.queue)
            && (forall a: nat :: Sleeping(s, a) <==> InQueue(s, a))
            && (forall k :: 0 <= k < |s.queue| ==> EntryOk(s, s.queue[k]))
  {
    RunKeepsInv(cfg, run, i);
  }

  /** Nobody is woken early or twice, and a delay popped from the queue was woken or is what the handler wakes next. */
  lemma WakesAreSound(cfg: Config, run: seq<Sys>, i: nat)
    requires IsRun(cfg, run) && i < |run|
    ensures var s := run[i];
            && (forall k :: 0 <= k < |s.wakes| ==>
                  s.wakes[k].arrival < |s.sleepers| && s.sleepers[s.wakes[k].arrival].due <= s.wakes[k].at)
            && (forall j, k :: 0 <= j < k < |s.wakes| ==> s.wakes[j].arrival != s.wakes[k].arrival)
            && (forall a: nat :: a < |s.sleepers| && !Sleeping(s, a) && !s.sleepers[a].place.Gone? ==>
                  Woken(s, a) || s.handler == Waking(a))
  {
    RunKeepsInv(cfg, run, i);
  }
}
