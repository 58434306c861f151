/**
The same parties on one core: callers and the dispatcher have priorities, a context runs on top
of those it preempted, and only the topmost one takes steps.
*/
module ExecutorSchedule {
  import opened ExecutorMachine

  /** A piece of code that may spawn the tasks of this level, wake them, or both. */
  datatype Kind = Kind(prio: nat, spawns: bool, wakes: bool)

  /**
  `n` executors below a dispatcher of priority `dispatcher`.  `eager`: a pended interrupt that may
  preempt does so before anything else happens; otherwise it may take any time.
  */
  datatype Config = Config(n: nat, dispatcher: nat, callers: seq<Kind>, eager: bool)

  datatype Context = Disp | Call(c: nat)

  /** The executors, and the contexts from the first preempted to the running one. */
  datatype Core = Core(s: Sys, stack: seq<Context>)

  function Prio(cfg: Config, x: Context): nat {
    match x
    case Disp => cfg.dispatcher
    case Call(c) => if c < |cfg.callers| then cfg.callers[c].prio else 0
  }

  /** Code of this priority may preempt what runs. */
  ghost predicate Preempts(cfg: Config, prio: nat, stack: seq<Context>) {
    stack == [] || prio > Prio(cfg, stack[|stack| - 1])
  }

  ghost predicate OnTop(stack: seq<Context>, x: Context) {
    stack != [] && stack[|stack| - 1] == x
  }

  ghost predicate CanEnter(cfg: Config, k: Core) {
    k.s.disp.Idle? && k.s.irq && Preempts(cfg, cfg.dispatcher, k.stack)
  }

  /** A call starts in a handler that preempts, or in the future that the dispatcher is polling. */
  ghost predicate CanStart(cfg: Config, k: Core, c: nat) {
    && c < |cfg.callers|
    && (|| Preempts(cfg, cfg.callers[c].prio, k.stack)
        || (OnTop(k.stack, Disp) && k.s.disp.Polling? && cfg.callers[c].prio == cfg.dispatcher))
  }

  ghost predicate Scheduled(cfg: Config, k: Core, st: Step) {
    && Enabled(k.s, st)
    && (cfg.eager && CanEnter(cfg, k) ==> st.Enter?)
    && match st
       case Enter => CanEnter(cfg, k)
       case Dispatch => OnTop(k.stack, Disp)
       case PollReturns(_) => OnTop(k.stack, Disp)
       case TryAllocate(c, _) => CanStart(cfg, k, c) && cfg.callers[c].spawns
       case Wake(c, _) => CanStart(cfg, k, c) && cfg.callers[c].wakes
       case Write(c) => OnTop(k.stack, Call(c))
       case SetPending(c) => OnTop(k.stack, Call(c))
       case PendIrq(c) => OnTop(k.stack, Call(c))
  }

  ghost function Pop(stack: seq<Context>): seq<Context> {
    if stack == [] then [] else stack[..|stack| - 1]
  }

  ghost function Advance(k: Core, st: Step): Core
    requires Enabled(k.s, st)
  {
    var s' := Apply(k.s, st);
    var stack' := match st
      case Enter => k.stack + [Disp]
      case Dispatch => if s'.disp.Idle? then Pop(k.stack) else k.stack
      case TryAllocate(c, _) => if s'.callers[c].Allocated? then k.stack + [Call(c)] else k.stack
      case Wake(c, _) => k.stack + [Call(c)]
      case PendIrq(_) => Pop(k.stack)
      case _ => k.stack;
    Core(s', stack')
  }

  ghost predicate Follows(cfg: Config, k: Core, k': Core) {
    exists st :: Scheduled(cfg, k, st) && k' == Advance(k, st)
  }

  ghost predicate IsSchedule(cfg: Config, run: seq<Core>) {
    && |run| > 0 && run[0] == Core(Init(cfg.n, |cfg.callers|), [])
    && forall i :: 0 <= i < |run| - 1 ==> Follows(cfg, run[i], run[i + 1])
  }

  ghost function States(run: seq<Core>): (states: seq<Sys>)
    ensures |states| == |run| && forall i :: 0 <= i < |run| ==> states[i] == run[i].s
  {
    seq(|run|, i requires 0 <= i < |run| => run[i].s)
  }

  /** A schedule is one of the interleavings, so what holds of all of them holds of it. */
  lemma ScheduleIsRun(cfg: Config, run: seq<Core>)
    requires IsSchedule(cfg, run)
    ensures IsRun(cfg.n, |cfg.callers|, States(run))
  {
    var states := States(run);
    forall i | 0 <= i < |states| - 1 ensures Next(states[i], states[i + 1]) {
      assert Follows(cfg, run[i], run[i + 1]);
      var st :| Scheduled(cfg, run[i], st) && run[i + 1] == Advance(run[i], st);
      assert Enabled(states[i], st);
    }
  }

  // ----- the discipline of the stack

  ghost predicate Within(stack: seq<Context>, x: Context) { exists p :: 0 <= p < |stack| && stack[p] == x }

  /** Whatever is under way is on the stack. */
  ghost predicate Active(k: Core) {
    && (!k.s.disp.Idle? ==> Within(k.stack, Disp))
    && (forall c: nat :: c < |k.s.callers| && !k.s.callers[c].Quiet? ==> Within(k.stack, Call(c)))
  }

  /** Priorities do not fall along the stack, and the dispatcher preempted only less urgent code. */
  ghost predicate Ordered(cfg: Config, stack: seq<Context>) {
    forall p, q :: 0 <= p < q < |stack| ==>
      && Prio(cfg, stack[p]) <= Prio(cfg, stack[q])
      && (stack[q] == Disp ==> Prio(cfg, stack[p]) < cfg.dispatcher)
  }

  ghost predicate StackInv(cfg: Config, k: Core) {
    && |k.s.execs| == cfg.n && |k.s.callers| == |cfg.callers|
    && Active(k) && Ordered(cfg, k.stack)
  }

  lemma PushKeeps(stack: seq<Context>, y: Context, x: Context)
    ensures Within(stack, x) ==> Within(stack + [y], x)
    ensures Within(stack + [y], y)
  {
    assert (stack + [y])[|stack|] == y;
    if Within(stack, x) {
      var p :| 0 <= p < |stack| && stack[p] == x;
      assert (stack + [y])[p] == x;
    }
  }

  lemma PopKeeps(stack: seq<Context>, x: Context)
    requires stack != [] && Within(stack, x) && x != stack[|stack| - 1]
    ensures Within(Pop(stack), x)
  {
    var p :| 0 <= p < |stack| && stack[p] == x;
    assert Pop(stack)[p] == x;
  }

  lemma ActiveStays(cfg: Config, k: Core, st: Step)
    requires StackInv(cfg, k) && Scheduled(cfg, k, st)
    ensures Active(Advance(k, st))
  {
    var k' := Advance(k, st);
    var stack := k.stack;
    var y := if st.Enter? then Disp else if st.TryAllocate? || st.Wake? then Call(st.c) else Disp;
    forall c: nat | c < |k'.s.callers| && !k'.s.callers[c].Quiet? ensures Within(k'.stack, Call(c)) {
      PushKeeps(stack, y, Call(c));
      if stack != [] && Within(stack, Call(c)) && stack[|stack| - 1] != Call(c) { PopKeeps(stack, Call(c)); }
    }
    PushKeeps(stack, y, Disp);
    if stack != [] && Within(stack, Disp) && stack[|stack| - 1] != Disp { PopKeeps(stack, Disp); }
  }

  lemma PushKeepsOrder(cfg: Config, stack: seq<Context>, y: Context)
    requires Ordered(cfg, stack)
    requires stack != [] ==> Prio(cfg, stack[|stack| - 1]) <= Prio(cfg, y)
    requires stack != [] && y == Disp ==> Prio(cfg, stack[|stack| - 1]) < cfg.dispatcher
    ensures Ordered(cfg, stack + [y])
  {
  }

  lemma OrderStays(cfg: Config, k: Core, st: Step)
    requires StackInv(cfg, k) && Scheduled(cfg, k, st)
    ensures Ordered(cfg, Advance(k, st).stack)
  {
    match st
    case Enter => PushKeepsOrder(cfg, k.stack, Disp);
    case TryAllocate(c, _) => PushKeepsOrder(cfg, k.stack, Call(c));
    case Wake(c, _) => PushKeepsOrder(cfg, k.stack, Call(c));
    case _ =>
  }

  lemma StepKeepsStack(cfg: Config, k: Core, st: Step)
    requires StackInv(cfg, k) && Scheduled(cfg, k, st)
    ensures StackInv(cfg, Advance(k, st))
  {
    ActiveStays(cfg, k, st);
    OrderStays(cfg, k, st);
  }
}
