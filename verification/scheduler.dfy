/**
The Stack Resource Policy at work: tasks preempt each other on one stack and take locks at
the ceilings the analysis computed.  The hardware decides alone, from its registers, which
handler may start.
*/
module Scheduler {
  import opened Analysis
  import opened Ownership
  import opened LockBackend

  /** The tasks and lock-free resources of an application, its target, its vectors and enabled interrupts. */
  datatype Config = Config(
    tasks: seq<Task>, lockFree: set<Name>, backend: Backend, vectors: seq<Vector>, enabled: set<nat>)

  function ConfigOf(app: App, backend: Backend, vectors: seq<Vector>, enabled: set<nat>): Config {
    Config(Tasks(app), (set r | r in app.sharedResources && app.sharedResources[r].lockFree), backend, vectors, enabled)
  }

  /** A started task and its priority: BASEPRI as `run` read it, and how many locks were held below. */
  datatype Frame = Frame(task: nat, prio: nat, entry: nat, depth: nat)

  /** A lock that a frame is inside of, with the registers saved at its start. */
  datatype Held = Held(owner: nat, res: Name, ceiling: nat, saved: Regs)

  datatype Cpu = Cpu(stack: seq<Frame>, locks: seq<Held>, regs: Regs)

  datatype Step = Start(t: nat) | Switch(t: nat) | Lock(res: Name) | Unlock | Finish

  ghost function PriorityOf(cfg: Config, t: nat): nat {
    if t < |cfg.tasks| then cfg.tasks[t].Priority() else 0
  }

  ghost predicate IsAsync(cfg: Config, t: nat) {
    t < |cfg.tasks| && cfg.tasks[t].kind.Software?
  }

  ghost function VectorOf(cfg: Config, t: nat): Vector {
    if t < |cfg.vectors| then cfg.vectors[t] else Exception
  }

  /** Priorities are within reach of the hardware, and async tasks of one priority share a dispatcher. */
  ghost predicate ValidConfig(cfg: Config) {
    && ValidBackend(cfg.backend)
    && (forall t :: PriorityOf(cfg, t) <= cfg.backend.levels)
    && (forall t, u :: IsAsync(cfg, t) && IsAsync(cfg, u) && PriorityOf(cfg, t) == PriorityOf(cfg, u) ==>
          VectorOf(cfg, t) == VectorOf(cfg, u))
  }

  /** Task `t` locks `r`: it declared an exclusive access, and the resource is not lock-free. */
  ghost predicate Locks(cfg: Config, t: nat, r: Name) {
    && t < |cfg.tasks|
    && (r, Exclusive) in cfg.tasks[t].shared
    && r !in cfg.lockFree
  }

  /** The ceiling in the generated lock of `r`. */
  ghost function Ceiling(cfg: Config, r: Name): nat {
    CeilingIn(UsesOfAll(cfg.tasks), r)
  }

  ghost function StartRegs(cfg: Config): Regs {
    Regs(0, false, cfg.enabled)
  }

  ghost function Init(cfg: Config): Cpu {
    Cpu([], [], StartRegs(cfg))
  }

  ghost function Top(c: Cpu): Frame {
    if c.stack != [] then c.stack[|c.stack| - 1] else Frame(0, 0, 0, 0)
  }

  ghost predicate Enabled(cfg: Config, c: Cpu, st: Step) {
    match st
    case Start(t) =>
      && t < |cfg.tasks|
      && (if PriorityOf(cfg, t) == 0 then c.stack == []
          else CanPreempt(cfg.backend, c.regs, Top(c).prio, PriorityOf(cfg, t), VectorOf(cfg, t)))
    case Switch(t) =>
      // the dispatcher goes on to the next async task of its priority
      && c.stack != [] && |c.locks| == Top(c).depth
      && IsAsync(cfg, t) && IsAsync(cfg, Top(c).task) && PriorityOf(cfg, t) == Top(c).prio
    case Lock(r) =>
      // `lock` borrows the resource proxy of its task mutably, so it does not nest with itself
      && c.stack != [] && Locks(cfg, Top(c).task, r)
      && forall k :: Top(c).depth <= k < |c.locks| ==> c.locks[k].res != r
    case Unlock => c.stack != [] && |c.locks| > Top(c).depth
    case Finish => c.stack != [] && |c.locks| == Top(c).depth
  }

  /** The registers as `run` leaves them when the handler returns; there is no `run` around `main`. */
  ghost function AfterRun(b: Backend, top: Frame, r: Regs): Regs {
    if b.Masking? || top.prio == 0 then r
    else if top.prio == 1 then r.(basepri := 0)
    else r.(basepri := top.entry)
  }

  ghost function NewFrame(cfg: Config, c: Cpu, t: nat): Frame {
    Frame(t, PriorityOf(cfg, t), c.regs.basepri, |c.locks|)
  }

  ghost function Apply(cfg: Config, c: Cpu, st: Step): Cpu
    requires Enabled(cfg, c, st)
  {
    match st
    case Start(t) => c.(stack := c.stack + [NewFrame(cfg, c, t)])
    case Switch(t) => c.(stack := c.stack[|c.stack| - 1 := Top(c).(task := t)])
    case Lock(r) =>
      c.(locks := c.locks + [Held(|c.stack| - 1, r, Ceiling(cfg, r), c.regs)],
         regs := Enter(cfg.backend, c.regs, Ceiling(cfg, r)))
    case Unlock =>
      var l := c.locks[|c.locks| - 1];
      c.(locks := c.locks[..|c.locks| - 1], regs := Leave(cfg.backend, c.regs, l.saved, l.ceiling))
    case Finish => c.(stack := c.stack[..|c.stack| - 1], regs := AfterRun(cfg.backend, Top(c), c.regs))
  }

  ghost predicate Next(cfg: Config, c: Cpu, c': Cpu) {
    exists st: Step :: Enabled(cfg, c, st) && c' == Apply(cfg, c, st)
  }

  ghost predicate IsRun(cfg: Config, run: seq<Cpu>) {
    && |run| > 0 && run[0] == Init(cfg)
    && forall i :: 0 <= i < |run| - 1 ==> Next(cfg, run[i], run[i + 1])
  }
}
