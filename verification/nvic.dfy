/**
The lock code on the registers themselves: the words of the interrupt masks on cores without
BASEPRI, and the BASEPRI register on the others.  A 32-bit word is the set of its one-bits.
Every operation is tied to `LockBackend`, whose theorems are stated on sets of interrupts.
*/
module Nvic {
  import opened Options
  import opened LockBackend

  type Word = w: set<nat> | forall b :: b in w ==> b < 32 witness {}

  /** `Mask<M>`: `M` words. */
  type Mask = seq<Word>

  /** Bit `id` of the mask is set. */
  predicate Has(mask: Mask, id: nat) {
    id / 32 < |mask| && id % 32 in mask[id / 32]
  }

  ghost function Ids(mask: Mask): (ids: set<nat>)
    ensures forall id: nat :: id in ids <==> Has(mask, id)
  {
    set id: nat | 0 <= id < 32 * |mask| && Has(mask, id)
  }

  function Zero(m: nat): (mask: Mask)
    ensures |mask| == m && forall i :: 0 <= i < m ==> mask[i] == {}
  {
    seq(m, _ => {})
  }

  /** `set_bit`; None where the source panics. */
  method SetBit(mask: Mask, bit: nat) returns (r: Option<Mask>)
    ensures r.None? <==> bit >= 32 * |mask|
    ensures r.Some? ==> |r.value| == |mask| && forall id: nat :: Has(r.value, id) <==> id == bit || Has(mask, id)
  {
    var block := bit / 32;
    if block >= |mask| {
      return None;
    }
    var offset: nat := bit - block * 32;
    var result: Mask := mask[block := mask[block] + {offset}];
    forall id: nat ensures Has(result, id) <==> id == bit || Has(mask, id) {
      assert id == bit <==> id / 32 == block && id % 32 == offset;
    }
    return Some(result);
  }

  /** `create_mask` for `m` words: exactly the listed bits, and a panic iff one of them does not fit. */
  method CreateMask(shifts: seq<nat>, m: nat) returns (r: Option<Mask>)
    ensures r.None? <==> exists i :: 0 <= i < |shifts| && shifts[i] >= 32 * m
    ensures r.Some? ==> |r.value| == m && forall id: nat :: Has(r.value, id) <==> id in shifts
  {
    var mask := Zero(m);
    var i := 0;
    while i < |shifts|
      invariant i <= |shifts| && |mask| == m
      invariant forall k :: 0 <= k < i ==> shifts[k] < 32 * m
      invariant forall id: nat :: Has(mask, id) <==> id in shifts[..i]
    {
      var shift := shifts[i];
      i := i + 1;
      var next := SetBit(mask, shift);
      if next.None? {
        return None;
      }
      mask := next.value;
      assert shifts[..i] == shifts[..i - 1] + [shift];
    }
    assert shifts[..i] == shifts;
    return Some(mask);
  }

  /** `compute_mask_chunks`: the fewest words, but at least one, that hold every id. */
  method ComputeMaskChunks(ids: seq<nat>) returns (m: nat)
    ensures m > 0 && forall i :: 0 <= i < |ids| ==> ids[i] < 32 * m
    ensures m > 1 ==> exists i :: 0 <= i < |ids| && ids[i] >= 32 * (m - 1)
  {
    var max := 0;
    var i := 0;
    while i < |ids|
      invariant i <= |ids|
      invariant forall k :: 0 <= k < i ==> ids[k] <= max
      invariant max == 0 || exists k :: 0 <= k < i && ids[k] == max
    {
      var id := ids[i];
      i := i + 1;
      if id > max {
        max := id;
      }
    }
    m := (max + 32) / 32;
  }

  /** So the masks built for the chosen number of words never panic. */
  method BuildMask(all: seq<nat>, some: seq<nat>) returns (r: Option<Mask>)
    requires forall x :: x in some ==> x in all
    ensures r.Some? && forall id: nat :: Has(r.value, id) <==> id in some
  {
    var m := ComputeMaskChunks(all);
    assert forall i :: 0 <= i < |some| ==> some[i] in all;
    r := CreateMask(some, m);
  }

  ghost predicate InSome(masks: seq<Mask>, lo: nat, hi: nat, i: nat, b: nat) {
    exists p :: lo <= p < hi && p < |masks| && i < |masks[p]| && b in masks[p][i]
  }

  /** Bit by bit the union of the masks numbered `lo` to `hi - 1`. */
  ghost predicate UnionOf(res: Mask, masks: seq<Mask>, lo: nat, hi: nat) {
    forall i: nat, b: nat :: i < |res| ==> (b in res[i] <==> InSome(masks, lo, hi, i, b))
  }

  /** `compute_mask`: the union of the masks of these priorities. */
  method ComputeMask(m: nat, fromPrio: nat, toPrio: nat, masks: seq<Mask>) returns (res: Mask)
    requires |masks| == 3 && toPrio <= 3 && forall p :: 0 <= p < 3 ==> |masks[p]| == m
    ensures |res| == m
    ensures UnionOf(res, masks, fromPrio, toPrio)
  {
    res := Zero(m);
    var idx := fromPrio;
    while idx < toPrio
      invariant fromPrio <= idx && (idx == fromPrio || idx <= toPrio) && |res| == m
      invariant UnionOf(res, masks, fromPrio, idx)
    {
      res := OrWords(res, masks[idx]);
      idx := idx + 1;
    }
  }

  method OrWords(a: Mask, b: Mask) returns (res: Mask)
    requires |a| == |b|
    ensures |res| == |a| && forall i :: 0 <= i < |a| ==> res[i] == a[i] + b[i]
  {
    res := a;
    var i := 0;
    while i < |a|
      invariant i <= |a| && |res| == |a|
      invariant forall k :: 0 <= k < |a| ==> res[k] == if k < i then a[k] + b[k] else a[k]
    {
      res := res[i := res[i] + b[i]];
      i := i + 1;
    }
  }

  /** The mask of a ceiling is the set of interrupts that the backend masks. */
  lemma {:induction false} MaskIsUpTo(masks: seq<Mask>, vectors: seq<set<nat>>, ceiling: nat, res: Mask, id: nat)
    requires |masks| == |vectors| == 3 && ceiling <= 3
    requires forall p :: 0 <= p < 3 ==> |masks[p]| == |res| && Ids(masks[p]) == vectors[p]
    requires UnionOf(res, masks, 0, ceiling)
    ensures Has(res, id) <==> id in MaskUpTo(vectors, ceiling)
  {
    MaskMembers(vectors, ceiling, id);
    forall p | 0 <= p < 3 ensures id in vectors[p] <==> Has(masks[p], id) {
      assert id in Ids(masks[p]) <==> Has(masks[p], id);
    }
  }

  /** What a lock keeps until it ends: the interrupt state before it, or its mask and the words it touches. */
  datatype Section = Off(primask: bool) | Masked(mask: Mask, oldMask: Mask)

  /** The words to write back are the enabled interrupts of the touched registers. */
  ghost predicate Saved(s: Section, b: Backend, saved: Regs, ceiling: nat) {
    && b.Masking? && (s.Off? <==> ceiling >= 4)
    && match s
       case Off(primask) => primask == saved.primask
       case Masked(mask, oldMask) =>
         && |mask| == |oldMask| && Ids(oldMask) == Touched(MaskUpTo(b.vectors, ceiling), saved.enabled)
         && forall i :: 0 <= i < |mask| && mask[i] == {} ==> oldMask[i] == {}
  }

  /** The locks that a piece of code takes: one with this ceiling around `inside`, and then `after`. */
  datatype Locks = Done | Lock(ceiling: nat, inside: Locks, after: Locks)

  /** The interrupt enable registers of the NVIC. */
  class EnableRegisters {
    var enabled: seq<Word>
    var primask: bool

    /** `read_mask`: the registers that the mask concerns. */
    method ReadMask(mask: Mask) returns (out: Mask)
      requires |mask| <= |enabled|
      ensures |out| == |mask|
      ensures forall i :: 0 <= i < |mask| ==> out[i] == if mask[i] != {} then enabled[i] else {}
    {
      out := Zero(|mask|);
      for i := 0 to |mask|
        invariant |out| == |mask|
        invariant forall k :: 0 <= k < |mask| ==> out[k] == if k < i && mask[k] != {} then enabled[k] else {}
      {
        if mask[i] != {} {
          out := out[i := enabled[i]];
        }
      }
    }

    /** `set_enable_mask`: a write of ones enables, zeros do nothing. */
    method SetEnableMask(mask: Mask, oldMask: Mask)
      requires |mask| == |oldMask| <= |enabled|
      modifies this`enabled
      ensures |enabled| == old(|enabled|)
      ensures forall i :: 0 <= i < |enabled| ==>
                enabled[i] == if i < |mask| && mask[i] != {} then old(enabled[i]) + oldMask[i] else old(enabled[i])
    {
      for i := 0 to |mask|
        invariant |enabled| == old(|enabled|)
        invariant forall k :: 0 <= k < |enabled| ==>
                    enabled[k] == if k < i && mask[k] != {} then old(enabled[k]) + oldMask[k] else old(enabled[k])
      {
        if mask[i] != {} {
          enabled := enabled[i := enabled[i] + oldMask[i]];
        }
      }
    }

    /** `clear_enable_mask`: a write of ones disables, zeros do nothing. */
    method ClearEnableMask(mask: Mask)
      requires |mask| <= |enabled|
      modifies this`enabled
      ensures |enabled| == old(|enabled|)
      ensures forall i :: 0 <= i < |enabled| ==> enabled[i] == old(enabled[i]) - if i < |mask| then mask[i] else {}
    {
      for i := 0 to |mask|
        invariant |enabled| == old(|enabled|)
        invariant forall k :: 0 <= k < |enabled| ==> enabled[k] == old(enabled[k]) - if k < i then mask[k] else {}
      {
        if mask[i] != {} {
          enabled := enabled[i := enabled[i] - mask[i]];
        }
      }
    }

    /** The masks of the three lowest priorities, as words and as the sets of the backend. */
    ghost predicate Tables(masks: seq<Mask>, b: Backend)
      reads this
    {
      && b.Masking? && |masks| == |b.vectors| == 3
      && forall p :: 0 <= p < 3 ==> |masks[p]| == |masks[0]| <= |enabled| && Ids(masks[p]) == b.vectors[p]
    }

    ghost function View(): Regs
      reads this
    {
      Regs(0, primask, Ids(enabled))
    }

    /**
    `lock` up to the closure, with what it must restore.  From ceiling 4 on it turns interrupts off;
    below it disables exactly the interrupts of the priorities up to the ceiling.
    */
    method EnterLock(ceiling: nat, masks: seq<Mask>, ghost b: Backend) returns (s: Section)
      requires Tables(masks, b)
      modifies this
      ensures View() == Enter(b, old(View()), ceiling) && Saved(s, b, old(View()), ceiling)
      ensures |enabled| == old(|enabled|) && (s.Masked? ==> |s.mask| <= |enabled|)
      ensures primask == (old(primask) || ceiling >= 4)
      ensures forall id: nat :: Has(enabled, id) <==>
                Has(old(enabled), id) && (ceiling < 4 ==> forall p :: 0 <= p < ceiling && p < 3 ==> !Has(masks[p], id))
    {
      if ceiling >= 4 {
        s := Off(primask);
        primask := true;
      } else {
        var mask := ComputeMask(|masks[0]|, 0, ceiling, masks);
        var oldMask := ReadMask(mask);
        MaskedIds(masks, b.vectors, ceiling, mask);
        SavedWords(mask, oldMask, enabled, b, View(), ceiling);
        ClearEnableMask(mask);
        forall id: nat ensures Has(enabled, id) <==> Has(old(enabled), id) && !Has(mask, id) { }
        assert Ids(enabled) == old(Ids(enabled)) - MaskUpTo(b.vectors, ceiling);
        s := Masked(mask, oldMask);
      }
    }

    /** `lock` after the closure: interrupts come back as they were, or the saved words are written back. */
    method LeaveLock(s: Section, ghost b: Backend, ghost saved: Regs, ghost ceiling: nat)
      requires Saved(s, b, saved, ceiling) && (s.Masked? ==> |s.mask| <= |enabled|)
      modifies this
      ensures View() == Leave(b, old(View()), saved, ceiling) && |enabled| == old(|enabled|)
      ensures s.Off? ==> primask == s.primask && enabled == old(enabled)
      ensures s.Masked? ==>
                && primask == old(primask)
                && forall id: nat :: Has(enabled, id) <==> Has(old(enabled), id) || Has(s.oldMask, id)
    {
      if s.Off? {
        primask := s.primask;
      } else {
        SetEnableMask(s.mask, s.oldMask);
        forall id: nat ensures Has(enabled, id) <==> Has(old(enabled), id) || Has(s.oldMask, id) { }
        assert Ids(enabled) == old(Ids(enabled)) + Touched(MaskUpTo(b.vectors, ceiling), saved.enabled);
      }
    }

    /** Any nest and sequence of locks puts everything back. */
    method LockAll(locks: Locks, masks: seq<Mask>, ghost b: Backend)
      requires Tables(masks, b)
      modifies this
      ensures View() == old(View()) && |enabled| == old(|enabled|)
      decreases locks
    {
      match locks
      case Done =>
      case Lock(ceiling, inside, after) =>
        ghost var before := View();
        var s := EnterLock(ceiling, masks, b);
        LockAll(inside, masks, b);
        LeaveRestores(b, before, ceiling);
        LeaveLock(s, b, before, ceiling);
        LockAll(after, masks, b);
    }
  }

  lemma MaskedIds(masks: seq<Mask>, vectors: seq<set<nat>>, ceiling: nat, mask: Mask)
    requires |masks| == |vectors| == 3 && ceiling <= 3
    requires forall p :: 0 <= p < 3 ==> |masks[p]| == |mask| && Ids(masks[p]) == vectors[p]
    requires UnionOf(mask, masks, 0, ceiling)
    ensures Ids(mask) == MaskUpTo(vectors, ceiling)
    ensures forall id: nat :: Has(mask, id) <==> exists p :: 0 <= p < ceiling && p < 3 && Has(masks[p], id)
  {
    forall id: nat ensures Has(mask, id) <==> id in MaskUpTo(vectors, ceiling) {
      MaskIsUpTo(masks, vectors, ceiling, mask, id);
    }
    forall id: nat ensures Has(mask, id) <==> exists p :: 0 <= p < ceiling && p < 3 && Has(masks[p], id) {
      MaskMembers(vectors, ceiling, id);
      forall p | 0 <= p < 3 ensures id in vectors[p] <==> Has(masks[p], id) {
        assert id in Ids(masks[p]) <==> Has(masks[p], id);
      }
    }
  }

  /** The words read for a mask are what leaving the lock must write back. */
  lemma SavedWords(mask: Mask, oldMask: Mask, regs: seq<Word>, b: Backend, saved: Regs, ceiling: nat)
    requires b.Masking? && ceiling < 4 && Ids(mask) == MaskUpTo(b.vectors, ceiling) && |mask| <= |regs|
    requires |oldMask| == |mask| && saved.enabled == Ids(regs)
    requires forall i :: 0 <= i < |mask| ==> oldMask[i] == if mask[i] != {} then regs[i] else {}
    ensures Saved(Masked(mask, oldMask), b, saved, ceiling)
  {
    forall id: nat ensures Has(oldMask, id) <==> id in Touched(MaskUpTo(b.vectors, ceiling), saved.enabled) {
      TouchedWords(mask, regs, id);
    }
  }

  /** An interrupt shares a word with the mask exactly when that word of the mask is not zero. */
  lemma TouchedWords(mask: Mask, regs: seq<Word>, id: nat)
    requires |mask| <= |regs|
    ensures id in Touched(Ids(mask), Ids(regs)) <==> Has(regs, id) && id / 32 < |mask| && mask[id / 32] != {}
  {
    var w := id / 32;
    if w < |mask| && mask[w] != {} {
      var bit :| bit in mask[w];
      assert Has(mask, 32 * w + bit) && (32 * w + bit) / 32 == w;
    }
  }

  /** A core with BASEPRI. */
  class Cortex {
    var basepri: nat
    var primask: bool

    ghost function View(): Regs
      reads this
    {
      Regs(basepri, primask, {})
    }

    /** `lock` up to the closure: what it must restore, and the new registers. */
    method EnterLock(ceiling: nat, b: Backend) returns (saved: Regs)
      requires b.Basepri?
      modifies this
      ensures View() == Enter(b, old(View()), ceiling)
      ensures saved == old(View())
      ensures primask == (old(primask) || ceiling == b.levels)
      ensures ceiling == b.levels ==> basepri == old(basepri)
      ensures ceiling < b.levels == |b.hw| - 1 ==>
                var hw := b.hw[ceiling];
                basepri == if hw != 0 && (old(basepri) == 0 || hw < old(basepri)) then hw else old(basepri)
    {
      saved := Regs(basepri, primask, {});
      if ceiling == b.levels {
        primask := true;
      } else {
        basepri := BasepriMax(basepri, Hw(b, ceiling));
      }
    }

    /** `lock` after the closure. */
    method LeaveLock(ceiling: nat, b: Backend, saved: Regs)
      requires b.Basepri?
      modifies this
      ensures View() == Leave(b, old(View()), saved, ceiling)
      ensures ceiling == b.levels ==> primask == saved.primask && basepri == old(basepri)
      ensures ceiling != b.levels ==> primask == old(primask) && basepri == saved.basepri
    {
      if ceiling == b.levels {
        primask := saved.primask;
      } else {
        basepri := saved.basepri;
      }
    }

    /** Any nest and sequence of locks puts everything back. */
    method LockAll(locks: Locks, b: Backend)
      requires b.Basepri?
      modifies this
      ensures View() == old(View())
      decreases locks
    {
      match locks
      case Done =>
      case Lock(ceiling, inside, after) =>
        var saved := EnterLock(ceiling, b);
        LockAll(inside, b);
        LeaveRestores(b, old(View()), ceiling);
        LeaveLock(ceiling, b, saved);
        LockAll(after, b);
    }

    /**
    `run` around a handler that takes any locks and may leave any value in BASEPRI; at priority 1 it
    writes 0 without having looked.
    */
    method Run(priority: nat, locks: Locks, left: Option<nat>, b: Backend)
      requires b.Basepri?
      modifies this
      ensures primask == old(primask) && basepri == if priority == 1 then 0 else old(basepri)
    {
      if priority == 1 {
        Handler(locks, left, b);
        basepri := 0;
      } else {
        var initial := basepri;
        Handler(locks, left, b);
        basepri := initial;
      }
    }

    /** The code of a handler: its locks, and a write to BASEPRI if there is one. */
    method Handler(locks: Locks, left: Option<nat>, b: Backend)
      requires b.Basepri?
      modifies this
      ensures primask == old(primask) && basepri == if left.Some? then left.value else old(basepri)
    {
      LockAll(locks, b);
      if left.Some? {
        basepri := left.value;
      }
    }
  }
}
