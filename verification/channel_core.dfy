/**
The memory of `Channel<T, N>` and what each of its critical sections does to it.

Payloads are natural numbers: the channel only copies them.  A waiting `send`
future is named by the number of the sender handle that runs it; the memory of
the future itself (its popped flag and its slot cell) is not part of the channel.
*/
module ChannelCore {
  import opened Options

  type Value = nat
  type Slot = nat

  datatype Channel = Channel(
    n: nat,
    freeq: seq<Slot>,
    readyq: seq<Slot>,
    slots: seq<Option<Value>>,
    waitq: seq<nat>,
    receiverDropped: bool,
    numSenders: int,
    rxWaker: bool)

  function AllSlots(n: nat): seq<Slot> {
    seq(n, i => i)
  }

  /** The channel that `split` leaves behind. */
  function SplitChannel(n: nat): Channel {
    Channel(n, AllSlots(n), [], seq(n, _ => None), [], false, 1, false)
  }

  /** `return_free_slot`: the longest-waiting sender gets the slot, else it becomes free. */
  function ReturnFree(c: Channel, slot: Slot): Channel {
    if c.waitq != [] then c.(waitq := c.waitq[1..]) else c.(freeq := c.freeq + [slot])
  }

  function WriteSlot(c: Channel, slot: Slot, v: Value): Channel {
    if slot < |c.slots| then c.(slots := c.slots[slot := Some(v)]) else c
  }

  /** The payload in a slot; an uninitialised one reads as an arbitrary value, here 0. */
  function ReadSlot(c: Channel, slot: Slot): Value {
    if slot < |c.slots| && c.slots[slot].Some? then c.slots[slot].value else 0
  }

  /** What one poll of `send` finds inside its critical section. */
  datatype PollResult = Closed | Granted(slot: Slot) | ClosedByDrop | StillQueued | Enqueued | TookFree(slot: Slot)

  /** The link of a `send` future: absent, queued, or popped with the cell it was handed. */
  datatype Link = NoLink | InQueue | Popped(cell: Option<Slot>)

  function PollSend(c: Channel, h: nat, link: Link): (Channel, PollResult) {
    if c.receiverDropped then (c, Closed)
    else if link.Popped? then (c, if link.cell.Some? then Granted(link.cell.value) else ClosedByDrop)
    else if link.InQueue? then (c, StillQueued)
    else if c.waitq != [] || c.freeq == [] then (c.(waitq := c.waitq + [h]), Enqueued)
    else (c.(freeq := c.freeq[..|c.freeq| - 1]), TookFree(c.freeq[|c.freeq| - 1]))
  }
}
