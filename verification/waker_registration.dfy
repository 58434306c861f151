/** The single-slot waker store of the channel's receiver, for any number of tasks that use it. */
module WakerRegistration {
  import opened Options

  /** A task registers to be woken, or somebody wakes whoever is registered. */
  datatype Op = Register(t: nat) | Wake

  /** The slot, and the tasks woken so far, in order. */
  datatype State = State(slot: Option<nat>, woken: seq<nat>)

  /** Registering for another task wakes the one it displaces; for the same task it changes nothing. */
  function Do(s: State, op: Op): State {
    match op
    case Register(t) =>
      if s.slot == Some(t) then s
      else State(Some(t), if s.slot.Some? then s.woken + [s.slot.value] else s.woken)
    case Wake => State(None, if s.slot.Some? then s.woken + [s.slot.value] else s.woken)
  }

  function DoAll(s: State, ops: seq<Op>): State
    decreases |ops|
  {
    if ops == [] then s else Do(DoAll(s, ops[..|ops| - 1]), ops[|ops| - 1])
  }

  lemma {:induction false} WokenGrows(s: State, ops: seq<Op>, k: nat)
    requires k <= |ops|
    ensures DoAll(s, ops[..k]).woken <= DoAll(s, ops).woken
  {
    if k == |ops| {
      assert ops[..k] == ops;
    } else {
      WokenGrows(s, ops[..|ops| - 1], k);
      assert ops[..|ops| - 1][..k] == ops[..k];
    }
  }

  /** A task that registered is in the slot, or was woken since: registrations never strand one another. */
  lemma {:induction false} NobodyStranded(s: State, ops: seq<Op>, k: nat)
    requires k < |ops| && ops[k].Register?
    ensures var before, after := DoAll(s, ops[..k]), DoAll(s, ops);
            && before.woken <= after.woken
            && (after.slot == Some(ops[k].t) || ops[k].t in after.woken[|before.woken|..])
  {
    var last := |ops| - 1;
    WokenGrows(s, ops, k);
    if k < last {
      NobodyStranded(s, ops[..last], k);
      assert ops[..last][..k] == ops[..k];
      var before, mid, after := DoAll(s, ops[..k]), DoAll(s, ops[..last]), DoAll(s, ops);
      if ops[k].t in mid.woken[|before.woken|..] {
        var i :| 0 <= i < |mid.woken| - |before.woken| && mid.woken[|before.woken|..][i] == ops[k].t;
        assert after.woken[|before.woken|..][i] == ops[k].t;
      } else if after.slot != Some(ops[k].t) {
        assert after.woken[|before.woken|..][|mid.woken| - |before.woken|] == ops[k].t;
      }
    }
  }

  /** After a wake the slot is empty, and its task alone has been woken; after a registration the slot holds it. */
  lemma SlotAfter(s: State, ops: seq<Op>)
    requires ops != []
    ensures var before, after := DoAll(s, ops[..|ops| - 1]), DoAll(s, ops);
            match ops[|ops| - 1]
            case Register(t) =>
              && after.slot == Some(t)
              && after.woken == before.woken + if before.slot in {None, Some(t)} then [] else [before.slot.value]
            case Wake =>
              && after.slot == None
              && after.woken == before.woken + if before.slot.Some? then [before.slot.value] else []
  {
    assert DoAll(s, ops) == Do(DoAll(s, ops[..|ops| - 1]), ops[|ops| - 1]);
  }

  class CriticalSectionWakerRegistration {
    var waker: Option<nat>
    ghost var woken: seq<nat>

    ghost function View(): State
      reads this
    {
      State(waker, woken)
    }

    constructor ()
      ensures View() == State(None, [])
    {
      waker, woken := None, [];
    }

    /** Returns the task it woke, if any. */
    method Register(newWaker: nat) returns (wokenTask: Option<nat>)
      modifies this
      ensures View() == Do(old(View()), Op.Register(newWaker))
      ensures waker == Some(newWaker)
      ensures wokenTask == if old(waker) == Some(newWaker) then None else old(waker)
      ensures woken == old(woken) + if wokenTask.Some? then [wokenTask.value] else []
    {
      wokenTask := None;
      if waker != Some(newWaker) {
        wokenTask := waker;
        waker := Some(newWaker);
        if wokenTask.Some? { woken := woken + [wokenTask.value]; }
      }
    }

    method Wake() returns (wokenTask: Option<nat>)
      modifies this
      ensures View() == Do(old(View()), Op.Wake)
      ensures waker == None && wokenTask == old(waker)
      ensures woken == old(woken) + if wokenTask.Some? then [wokenTask.value] else []
    {
      wokenTask := waker;
      if waker.Some? {
        waker := None;
        woken := woken + [wokenTask.value];
      }
    }
  }
}
