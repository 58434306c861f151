/**
The two ways of raising the system ceiling on Cortex-M: writing BASEPRI, or disabling
interrupts at their source.  Both fall back to a critical section for ceilings out of reach.
*/
module LockBackend {
  import opened Priority

  /** The registers that decide whether an interrupt is taken. */
  datatype Regs = Regs(basepri: nat, primask: bool, enabled: set<nat>)

  /**
  `levels` is the number of priorities and `hw` the hardware priority of each logical one.
  `Masking` is a core without BASEPRI; `vectors` gives, for each of the priorities 1, 2 and 3,
  the interrupts bound there.
  */
  datatype Backend =
    | Basepri(levels: nat, hw: seq<nat>)
    | Masking(levels: nat, hw: seq<nat>, vectors: seq<set<nat>>)

  ghost predicate ValidBackend(b: Backend) {
    OrderReversing(b.hw, b.levels) && (b.Masking? ==> b.levels == 4 && |b.vectors| == 3)
  }

  /** The backends of real cores: 1 to 7 priority bits with BASEPRI, 2 without. */
  lemma CoresAreValid(bits: nat, vectors: seq<set<nat>>)
    requires 1 <= bits <= 7
    ensures ValidBackend(Basepri(Pow2(bits), HwTable(bits)))
    ensures |vectors| == 3 ==> ValidBackend(Masking(Pow2(2), HwTable(2), vectors))
  {
    EncodingIsOrderReversing(bits);
    EncodingIsOrderReversing(2);
    assert Pow2(2) == 2 * Pow2(1) == 4;
  }

  /** The hardware priority of a logical one. */
  function Hw(b: Backend, p: nat): nat {
    if p < |b.hw| then b.hw[p] else 0
  }

  /** A lock with this ceiling needs the global critical section. */
  predicate Critical(b: Backend, ceiling: nat) {
    if b.Basepri? then ceiling == b.levels else ceiling >= 4
  }

  /** A write to BASEPRI_MAX only ever makes the mask stricter. */
  function BasepriMax(current: nat, new_: nat): nat {
    if new_ != 0 && (current == 0 || new_ < current) then new_ else current
  }

  /** `compute_mask(0, ceiling, masks)`. */
  function MaskUpTo(vectors: seq<set<nat>>, ceiling: nat): set<nat> {
    if ceiling == 0 then {}
    else MaskUpTo(vectors, ceiling - 1) + if ceiling <= |vectors| then vectors[ceiling - 1] else {}
  }

  /** The interrupts that share a 32-bit register with one of `mask`. */
  function Touched(mask: set<nat>, regs: set<nat>): set<nat> {
    set i | i in regs && (exists m :: m in mask && m / 32 == i / 32)
  }

  /** The state of the registers inside a lock; `lock` saves the registers it is given. */
  ghost function Enter(b: Backend, r: Regs, ceiling: nat): Regs {
    if Critical(b, ceiling) then r.(primask := true)
    else match b
      case Basepri(_, _) => r.(basepri := BasepriMax(r.basepri, Hw(b, ceiling)))
      case Masking(_, _, vectors) => r.(enabled := r.enabled - MaskUpTo(vectors, ceiling))
  }

  /**
  The registers after the lock: `r` is their state at the end of the closure, `saved` what they
  were at its start.  Source masking writes back the saved enable bits of the touched registers,
  and writing a bit to the set-enable register cannot disable anything.
  */
  ghost function Leave(b: Backend, r: Regs, saved: Regs, ceiling: nat): Regs {
    if Critical(b, ceiling) then r.(primask := saved.primask)
    else match b
      case Basepri(_, _) => r.(basepri := saved.basepri)
      case Masking(_, _, vectors) => r.(enabled := r.enabled + Touched(MaskUpTo(vectors, ceiling), saved.enabled))
  }

  /** A lock leaves the registers exactly as it found them. */
  lemma LeaveRestores(b: Backend, r: Regs, ceiling: nat)
    ensures Leave(b, Enter(b, r, ceiling), r, ceiling) == r
  {
    if b.Masking? && !Critical(b, ceiling) {
      var mask := MaskUpTo(b.vectors, ceiling);
      assert r.enabled - mask + Touched(mask, r.enabled) == r.enabled;
    }
  }

  // ----- the registers under a nest of locks

  /** The registers after entering locks with these ceilings one inside the other. */
  ghost function After(b: Backend, start: Regs, cs: seq<nat>): Regs {
    if cs == [] then start else Enter(b, After(b, start, cs[..|cs| - 1]), cs[|cs| - 1])
  }

  /** The highest ceiling of the locks that are not critical sections; 0 if there is none. */
  ghost function Level(b: Backend, cs: seq<nat>): nat {
    if cs == [] then 0
    else
      var rest := Level(b, cs[..|cs| - 1]);
      var c := cs[|cs| - 1];
      if Critical(b, c) || c < rest then rest else c
  }

  lemma {:induction false} LevelIsMax(b: Backend, cs: seq<nat>)
    ensures forall i :: 0 <= i < |cs| && !Critical(b, cs[i]) ==> cs[i] <= Level(b, cs)
    ensures Level(b, cs) == 0 || exists i :: 0 <= i < |cs| && cs[i] == Level(b, cs) && !Critical(b, cs[i])
  {
    if cs == [] {
    } else {
      var last := |cs| - 1;
      LevelIsMax(b, cs[..last]);
      assert forall i :: 0 <= i < last ==> cs[..last][i] == cs[i];
    }
  }

  /** Interrupts are off exactly while some critical section is held, and the backends differ in when one is. */
  lemma {:induction false} PrimaskMeansCritical(b: Backend, start: Regs, cs: seq<nat>)
    requires !start.primask
    ensures After(b, start, cs).primask <==> exists i :: 0 <= i < |cs| && Critical(b, cs[i])
    ensures b.Basepri? ==> (After(b, start, cs).primask <==> exists i :: 0 <= i < |cs| && cs[i] == b.levels)
    ensures b.Masking? ==> (After(b, start, cs).primask <==> exists i :: 0 <= i < |cs| && cs[i] >= 4)
  {
    if cs == [] {
    } else {
      var last := |cs| - 1;
      PrimaskMeansCritical(b, start, cs[..last]);
      assert forall i :: 0 <= i < last ==> cs[..last][i] == cs[i];
    }
  }

  /** BASEPRI always encodes the highest held ceiling. */
  lemma {:induction false} BasepriEncodesLevel(b: Backend, start: Regs, cs: seq<nat>)
    requires ValidBackend(b) && b.Basepri? && start.basepri == 0
    requires forall i :: 0 <= i < |cs| ==> cs[i] <= b.levels
    ensures Level(b, cs) < b.levels
    ensures After(b, start, cs).basepri == Hw(b, Level(b, cs))
  {
    if cs == [] {
    } else {
      var last := |cs| - 1;
      BasepriEncodesLevel(b, start, cs[..last]);
      assert forall i :: 0 <= i < last ==> cs[..last][i] == cs[i];
    }
  }

  /** Under source masking an interrupt is enabled unless some held ceiling masks it. */
  lemma {:induction false} EnabledUnlessMasked(b: Backend, start: Regs, cs: seq<nat>, i: nat)
    requires ValidBackend(b) && b.Masking?
    requires forall k :: 0 <= k < |cs| ==> cs[k] <= b.levels
    ensures i in After(b, start, cs).enabled <==>
            i in start.enabled && i !in MaskUpTo(b.vectors, LevelUpTo3(b, cs))
  {
    if cs == [] {
    } else {
      var last := |cs| - 1;
      EnabledUnlessMasked(b, start, cs[..last], i);
      assert forall k :: 0 <= k < last ==> cs[..last][k] == cs[k];
      var l := LevelUpTo3(b, cs[..last]);
      if !Critical(b, cs[last]) {
        MaskGrows(b.vectors, l, cs[last]);
      }
    }
  }

  ghost function LevelUpTo3(b: Backend, cs: seq<nat>): (l: nat)
    requires b.Masking?
    ensures l <= 3 && l == Level(b, cs)
  {
    if cs == [] then 0
    else
      var rest := LevelUpTo3(b, cs[..|cs| - 1]);
      var c := cs[|cs| - 1];
      if Critical(b, c) || c < rest then rest else c
  }

  lemma {:induction false} MaskGrows(vectors: seq<set<nat>>, a: nat, c: nat)
    ensures a <= c ==> MaskUpTo(vectors, a) <= MaskUpTo(vectors, c)
    ensures c <= a ==> MaskUpTo(vectors, c) <= MaskUpTo(vectors, a)
  {
    if a < c { MaskGrows(vectors, a, c - 1); }
    if c < a { MaskGrows(vectors, a - 1, c); }
  }

  lemma {:induction false} MaskMembers(vectors: seq<set<nat>>, c: nat, i: nat)
    ensures i in MaskUpTo(vectors, c) <==> exists k :: 0 <= k < c && k < |vectors| && i in vectors[k]
  {
    if c == 0 {
    } else {
      MaskMembers(vectors, c - 1, i);
    }
  }

  // ----- taking an interrupt

  /** How a handler is reached: its interrupt, or an exception, which source masking cannot disable. */
  datatype Vector = Interrupt(id: nat) | Exception

  /** The hardware lets a handler of this priority and vector preempt code running at `running`. */
  ghost predicate CanPreempt(b: Backend, r: Regs, running: nat, prio: nat, v: Vector) {
    && prio > 0
    && !r.primask
    // thread mode is less urgent than every handler
    && (running == 0 || Hw(b, prio) < Hw(b, running))
    && (r.basepri == 0 || Hw(b, prio) < r.basepri)
    && (b.Masking? && v.Interrupt? ==> v.id in r.enabled)
  }

  /** The vector tables agree with the mask tables: an interrupt of priority 1 to 3 is in its mask. */
  ghost predicate Maskable(b: Backend, prio: nat, v: Vector) {
    b.Masking? && 1 <= prio <= 3 && |b.vectors| == 3 ==> v.Interrupt? && v.id in b.vectors[prio - 1]
  }

  /** The heart of the policy: a maskable handler that gets through beats every held ceiling. */
  lemma PreemptorBeatsCeilings(b: Backend, start: Regs, cs: seq<nat>, running: nat, prio: nat, v: Vector)
    requires ValidBackend(b) && running <= b.levels && prio <= b.levels
    requires start.basepri == 0 && !start.primask
    requires forall i :: 0 <= i < |cs| ==> cs[i] <= b.levels
    requires Maskable(b, prio, v) && CanPreempt(b, After(b, start, cs), running, prio, v)
    ensures running < prio
    ensures forall i :: 0 <= i < |cs| ==> cs[i] < prio
  {
    LevelIsMax(b, cs);
    PrimaskMeansCritical(b, start, cs);
    match b
    case Basepri(_, _) => BasepriEncodesLevel(b, start, cs);
    case Masking(_, _, vectors) =>
      match v
      case Exception => EnabledUnlessMasked(b, start, cs, 0);
      case Interrupt(id) =>
        EnabledUnlessMasked(b, start, cs, id);
        MaskMembers(vectors, LevelUpTo3(b, cs), id);
  }

  /** With BASEPRI a handler is held back exactly by a ceiling at or above it. */
  lemma MaskedExactlyByCeilings(b: Backend, start: Regs, cs: seq<nat>, prio: nat, v: Vector)
    requires ValidBackend(b) && b.Basepri? && 0 < prio <= b.levels
    requires start.basepri == 0 && !start.primask
    requires forall i :: 0 <= i < |cs| ==> cs[i] <= b.levels
    ensures CanPreempt(b, After(b, start, cs), 0, prio, v)
       <==> (forall i :: 0 <= i < |cs| ==> cs[i] < prio)
  {
    LevelIsMax(b, cs);
    PrimaskMeansCritical(b, start, cs);
    BasepriEncodesLevel(b, start, cs);
    if CanPreempt(b, After(b, start, cs), 0, prio, v) {
      PreemptorBeatsCeilings(b, start, cs, 0, prio, v);
    }
  }

  /** The mask tables list this interrupt at this priority, if they reach that far, and nowhere else. */
  ghost predicate ListedAt(vectors: seq<set<nat>>, id: nat, prio: nat) {
    forall p :: 0 <= p < |vectors| ==> (id in vectors[p] <==> p + 1 == prio)
  }

  lemma {:induction false} BasepriUnused(b: Backend, start: Regs, cs: seq<nat>)
    requires b.Masking?
    ensures After(b, start, cs).basepri == start.basepri
  {
    if cs == [] {
    } else {
      BasepriUnused(b, start, cs[..|cs| - 1]);
    }
  }

  /** Under source masking so is the handler of an interrupt that the tables list at its priority. */
  lemma MaskedExactlyAtTheSource(b: Backend, start: Regs, cs: seq<nat>, prio: nat, id: nat)
    requires ValidBackend(b) && b.Masking? && 0 < prio <= b.levels && ListedAt(b.vectors, id, prio)
    requires start.basepri == 0 && !start.primask && id in start.enabled
    requires forall i :: 0 <= i < |cs| ==> cs[i] <= b.levels
    ensures CanPreempt(b, After(b, start, cs), 0, prio, Interrupt(id))
       <==> (forall i :: 0 <= i < |cs| ==> cs[i] < prio)
  {
    LevelIsMax(b, cs);
    PrimaskMeansCritical(b, start, cs);
    BasepriUnused(b, start, cs);
    EnabledUnlessMasked(b, start, cs, id);
    MaskMembers(b.vectors, LevelUpTo3(b, cs), id);
    assert prio <= 3 ==> id in b.vectors[prio - 1];
  }
}
