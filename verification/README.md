# A verified model of the RTIC runtime

RTIC (Real-Time Interrupt-driven Concurrency) runs tasks of different priorities on one stack
and lets the interrupt hardware schedule them.  This project models its hard parts in Dafny and
proves what they promise, for every application, every capacity and every interleaving.

- **Stack Resource Policy.**  `Analysis`, `Ownership`, `LocalResources` and `Acceptance` are the
  macro's static analysis; `Priority`, `LockBackend` and `Nvic` are the priority encoding and the
  two lock backends (BASEPRI, and masking interrupts at their source); `Scheduler` lets the
  registers alone decide which handler may start; `Srp` and `SrpTheorems` prove exclusion and the
  exact place where source masking stops excluding, `SrpProgress` freedom from deadlock.
- **Channel.**  `ChannelCore` and `ChannelMachine` are the multi-producer channel under
  preemption, one critical section, payload copy or call at a time.  `ChannelQueue`,
  `ChannelSlots`, `ChannelFifo` and `ChannelWake` hold its invariants; `ChannelRuns`,
  `ChannelOrder`, `ChannelNoSender` and `ChannelOutcomes` the theorems.  `ChannelObject` has the
  operations as methods that update the channel in place, tied to the moves of the machine.
  `WaitQueue` is the intrusive doubly linked list and `WakerRegistration` the receiver's waker slot.
- **Timer queue.**  `Ticks` has the wrapping order, `TimerList` the sorted intrusive list,
  `TimerQueueObject` the interrupt handler and the delay future, `TimerMachine` and `TimerRuns`
  the whole under preemption, `TimerMirror` what ties the two, `CompareValues` the compare
  registers of three backends.
- **Clock.**  `HalfPeriod` and `HalfPeriodMachine`: exact time from a lagging counter.
  `HalfPeriodLate`: the same with interrupts that come arbitrarily late.
- **Arbiter.**  `ArbiterCore`, `ArbiterMachine`, `ArbiterRuns`, `ArbiterObject`.
- **Executor.**  `ExecutorCore` and `ExecutorObject`; `ExecutorMachine` and `ExecutorRuns` for
  every interleaving; `ExecutorSchedule` and `ExecutorExposure` for one core with priorities.

`dafny verify dfyconfig.toml` checks everything.

## How it is modelled

A component under preemption is a state machine: a `Sys`, the steps, `Enabled`, `Apply`, and
`IsRun` for a sequence of states each following from the one before by some enabled step.  A step
is one critical section, one access to a shared flag or register, or one copy of a payload; any
step of any party may come between two others.  The theorems quantify over all runs and all
positions in them.  History fields (what was committed, received, woken, granted, finished) are
part of a `Sys` so that a theorem can speak about a whole run.

Where the source updates objects in place the project has classes too.  The methods of the
channel, the arbiter, the executor and the half-period timer are proved against the functions or
the moves that their machine is made of, so that the theorems about runs are about them; beside
that, their contracts say what a caller sees in terms of the fields themselves.  The
methods of the timer queue are proved against the sequence of links and the clock that they
read; `TimerMirror` proves that what they do is a stretch of a run of the machine.

Assumptions, all visible as `requires` clauses or as guards in `Enabled`:

- Critical sections are atomic, and links stay alive while they are queued.
- One split per channel, and one task that receives.  `split` does not reset `receiver_dropped`;
  `ChannelObject.Channel.Split` keeps it, the machine starts with it false.
- The clock lies within half the tick range of every queued deadline and of the one that the
  interrupt handler is setting the timer for.  The comment
  on `compare` says the order is flipped beyond half the range; at a distance of exactly half it
  is flipped in one direction as well (`Ticks.FlippedOutsideTheWindow`).
- In `HalfPeriodMachine` a half-period interrupt is served before the next half period begins;
  `HalfPeriodLate` covers every other delay.
- On one core, code runs until it ends or more urgent code preempts it, and a spawner or waker is
  a piece of code of one priority, which may spawn or wake any task of the level.  A pended
  dispatcher interrupt is taken at once, or at any later time; both are covered.

Where a stronger promise is false of the code, the project has a run or an input that shows it and
the exact condition under which it holds:

- `NoSender` can be reported although a payload is ready: `ChannelRuns.NoSenderCanMissAPayload`.
  It can iff a handle is alive when the receiver pops, in a channel with any capacity:
  `ChannelNoSender.MissPossibleIff`.  What it leaves behind is exactly what was committed in
  between: `ChannelRuns.NoSenderMissesExactlyTheLateCommits`.
- Source masking does not protect a resource shared with an exception handler:
  `SrpTheorems.ConflictBreaksExclusion`; it excludes iff there is none: `SrpTheorems.ExclusionExactly`.
- The arbiter stalls for good iff a future is dropped between the hand-over and its next poll:
  `ArbiterRuns.StalledIffLateCancellation`, possible iff there are two clients:
  `ArbiterRuns.StallsIffShared`.
- A dispatcher can poll a future that is not there: `ExecutorExposure.StaleDeadPoll`,
  `PreemptedDeadPoll` and `DisturbedDeadPoll`, in exactly the applications of
  `ExecutorExposure.DeadPollsIffExposed`.
- A compare value computed before a slow register write can match late: `CompareValues.SlowWriteIsLate`;
  when it is on time is stated exactly in `CompareValues.MatchesInTime` and `CompareValues.Fires24`.
- The parity assertions of the half-period handlers do not notice every lost interrupt, and the
  clock then stays wrong: `HalfPeriodLate.ServedOnceIsNotNoticed`.  When they fail depends on the
  flags up, the half periods begun and the interrupts lost so far, exactly as
  `HalfPeriodLate.NoticedIff` says; a reading is exact iff at most one interrupt is pending or
  lost: `HalfPeriodLate.ReadingExactIff`.
- A delay longer than half the tick range expires at once: `Ticks.ExpiredAtOnceIff`.

The comment above the source-masking `lock` describes a mask of the priorities between the current
one and the ceiling; the code masks every priority up to the ceiling, and so does the model.

## Model

| member | source | states |
|---|---|---|
| `Analysis.UsesOfAllMembers` | rtic-macros/src/syntax/accessors.rs:9-32 | an access is listed iff some task declares it, at the priority of that task, with `idle` at 0 |
| `Analysis.UsesInOrder` | rtic-macros/src/syntax/accessors.rs:9-32 | every declared access has its own place in the list, task after task and in the order of declaration, and nothing else is listed |
| `Analysis.AccessesOfApp` | rtic-macros/src/syntax/accessors.rs:9-32 | the accesses of an application are those of `idle` at priority 0 and those of every hardware and software task at the declared one |
| `Analysis.Check` | rtic-macros/src/syntax/check.rs:7-66 | passes iff, over `init`, `idle`, the hardware and the software tasks, all resources used are declared, none is used in both ways, and no dispatcher is bound; otherwise names a culprit of the first broken rule |
| `Ownership.Analyze` | rtic-macros/src/syntax/analyze.rs:201-240 | the used resources are those accessed; the table lists exactly the resources accessed, each with the highest priority that accesses it, contended iff two accesses differ in priority, owned iff there is one; without mixed accesses a type must be `Sync` iff one of its resources is shared across priorities; with them, exactly for an access that does not have the ceiling of those before it |
| `Ownership.FoldUsesMeaning` | rtic-macros/src/syntax/analyze.rs:205-240 | the table of the fold, and the `Sync` requirement in terms of the whole access list |
| `Ownership.FoldUsesSync` | rtic-macros/src/syntax/analyze.rs:216-227 | exactly which accesses record a type as `Sync`, for mixed lists too |
| `Ownership.CeilingIsTheMaximum` | rtic-macros/src/syntax/analyze.rs:211-239 | the ceiling is the priority of some access and no access has a higher one |
| `Ownership.OwnershipKinds` | rtic-macros/src/syntax/analyze.rs:214-239 | contended iff two accesses differ in priority, co-owned iff several agree, owned iff there is one |
| `Ownership.FoldIgnoresOrder` | rtic-macros/src/syntax/analyze.rs:205-240 | ownership and ceiling do not depend on the order of the accesses |
| `Ownership.ContendedSharedNeedsSync` | rtic-macros/src/syntax/analyze.rs:225-227 | in a checked application every contended resource with a shared access has its type in the `Sync` list |
| `Acceptance.CheckLockFree` | rtic-macros/src/syntax/analyze.rs:74-122 | a lock-free resource is rejected iff an async task uses it, or two of its uses differ in priority, although only neighbouring uses are compared |
| `LocalResources.CheckLocal` | rtic-macros/src/syntax/analyze.rs:141-165 | a local resource is rejected iff two uses name it or one declares its name again |
| `LocalResources.ClashIffInApp` | rtic-macros/src/syntax/analyze.rs:141-165 | the rule on the list of all uses is: two places of the application name the resource, or one names it twice or declares it anew |
| `Acceptance.Accept` | rtic-macros/src/syntax/analyze.rs:62-199 | the rejections, over `init`, `idle`, the hardware and the software tasks, are exactly: a lock-free resource used by an async task, or by tasks of two priorities; a local resource named in two places or declared anew in one; a task of priority 0 beside `idle`; without one, every lock-free resource is safe without locks |
| `Acceptance.LockFreeUsersAgree` | rtic-macros/src/syntax/analyze.rs:74-109 | in an accepted application all users of a lock-free resource have one priority and none is async |
| `Priority.EncodeReverses` | rtic/src/export/cortex_common.rs:5-7 | for 1 to 7 priority bits the hardware encoding reverses the order of the logical priorities and is injective |
| `Priority.EncodeUsesTheUpperBits` | rtic/src/export/cortex_common.rs:5-7 | the encoding uses only the upper bits, which the hardware implements, and the logical priority can be read back from it |
| `Priority.EncodingIsOrderReversing` | rtic/src/export/cortex_common.rs:5-7 | so every such core has the table of hardware priorities that the locks rely on, with 0 exactly for "no mask" |
| `LockBackend.CoresAreValid` | rtic/src/export/cortex_common.rs:5-7 | the BASEPRI cores with 1 to 7 priority bits and the masking cores with 2 are covered by the theorems |
| `LockBackend.LeaveRestores` | rtic/src/export/cortex_basepri.rs:66-83 | a lock, of either backend, leaves all registers as it found them |
| `LockBackend.BasepriEncodesLevel` | rtic/src/export/cortex_basepri.rs:73-81 | under any nest of locks BASEPRI encodes the highest ceiling that is not a critical section |
| `LockBackend.PrimaskMeansCritical` | rtic/src/export/cortex_basepri.rs:73-74 | interrupts are off iff some held ceiling is the highest priority, or at least 4 under source masking |
| `LockBackend.EnabledUnlessMasked` | rtic/src/export/cortex_source_mask.rs:131-148 | under any nest of locks an interrupt is enabled iff it was at the start and the highest ceiling does not mask it |
| `LockBackend.PreemptorBeatsCeilings` | rtic/src/export/cortex_basepri.rs:66-83 | whatever handler the registers let through has a priority above every held ceiling |
| `LockBackend.MaskedExactlyByCeilings` | rtic/src/export/cortex_basepri.rs:76-77 | with BASEPRI a handler is held back iff its priority is at most some held ceiling |
| `LockBackend.MaskedExactlyAtTheSource` | rtic/src/export/cortex_source_mask.rs:131-148 | under source masking so is the handler of an enabled interrupt that the masks list at its priority |
| `Nvic.SetBit` | rtic/src/export/cortex_source_mask.rs:56-68 | sets exactly the given bit, or panics iff it is beyond the last word |
| `Nvic.CreateMask` | rtic/src/export/cortex_source_mask.rs:22-33 | the mask has exactly the listed bits, and the panic happens iff one does not fit |
| `Nvic.ComputeMaskChunks` | rtic/src/export/cortex_source_mask.rs:39-52 | the smallest positive number of words that holds every id |
| `Nvic.BuildMask` | rtic/src/export/cortex_source_mask.rs:22-52 | a mask built with the computed number of words never panics |
| `Nvic.ComputeMask` | rtic/src/export/cortex_source_mask.rs:155-182 | word by word the union of the masks of the priorities in the range |
| `Nvic.MaskIsUpTo` | rtic/src/export/cortex_source_mask.rs:139-139 | as a set of interrupts it is the mask that the theorems about locks speak of |
| `Nvic.TouchedWords` | rtic/src/export/cortex_source_mask.rs:186-210 | an interrupt shares a register with the mask iff that word of the mask is not zero |
| `Nvic.EnableRegisters.ReadMask` | rtic/src/export/cortex_source_mask.rs:186-197 | reads exactly the registers whose mask word is not zero |
| `Nvic.EnableRegisters.SetEnableMask` | rtic/src/export/cortex_source_mask.rs:201-210 | ones enable, zeros change nothing, untouched registers stay |
| `Nvic.EnableRegisters.ClearEnableMask` | rtic/src/export/cortex_source_mask.rs:214-223 | disables exactly the interrupts of the mask |
| `Nvic.EnableRegisters.EnterLock` | rtic/src/export/cortex_source_mask.rs:131-141 | turns interrupts off from ceiling 4 on, and below it disables exactly the interrupts in the masks of the priorities up to the ceiling; this is `Enter` of the backend |
| `Nvic.EnableRegisters.LeaveLock` | rtic/src/export/cortex_source_mask.rs:136-146 | restores the interrupt state, or writes the saved words back; this is `Leave` of the backend |
| `Nvic.EnableRegisters.LockAll` | rtic/src/export/cortex_source_mask.rs:124-152 | any nest and sequence of locks leaves the enable registers and the interrupt state as they were |
| `Nvic.Cortex.EnterLock` | rtic/src/export/cortex_basepri.rs:73-77 | turns interrupts off iff the ceiling is the highest priority, and otherwise makes BASEPRI stricter; this is `Enter` of the backend |
| `Nvic.Cortex.LeaveLock` | rtic/src/export/cortex_basepri.rs:79-80 | restores exactly the register that was changed; this is `Leave` of the backend |
| `Nvic.Cortex.LockAll` | rtic/src/export/cortex_basepri.rs:66-83 | any nest and sequence of locks leaves the registers as they were |
| `Nvic.Cortex.Run` | rtic/src/export/cortex_basepri.rs:16-29 | a handler with any locks inside, whatever it leaves in BASEPRI, returns with the value it was entered with, or 0 at priority 1 |
| `Srp.CeilingCoversTask` | rtic-macros/src/codegen/shared_resources.rs:88-92 | the ceiling passed to a lock is at least the priority of every task that locks the resource |
| `Srp.StepKeepsInv` | rtic/src/export/cortex_basepri.rs:66-83 | every start, switch, lock, unlock and return keeps the stack, owner, ceiling and register invariants together |
| `SrpTheorems.MutualExclusion` | rtic/src/export/cortex_basepri.rs:66-83 | in every run no two tasks on the stack are inside a lock of the same resource |
| `SrpTheorems.LocksAreFree` | README.md:27-32 | a started task never finds a resource it is about to lock taken |
| `SrpProgress.WorkRuns` | rtic/src/export/cortex_basepri.rs:66-83 | without a conflict the running task can do any work of its own resources, nested and repeated at will, finds every lock free when it takes it, and ends in exactly the state it began in |
| `SrpProgress.EveryTaskCanFinish` | README.md:30-32 | no deadlock: from every reachable state, for all work that the started tasks still have inside and outside their held locks, the execution can go on so that each does it with every lock free, and returns |
| `SrpProgress.NothingMore` | README.md:30-32 | such a list of work exists for every reachable state |
| `SrpTheorems.LockFreeExclusion` | rtic-macros/src/syntax/analyze.rs:66-133 | no two tasks on the stack use the same lock-free resource of an accepted application |
| `SrpTheorems.BasepriIsValid` | rtic/src/export/cortex_common.rs:5-7 | an application on a BASEPRI core whose priorities fit meets every assumption of the theorems |
| `SrpTheorems.ApplicationIsRaceFree` | README.md:27-28 | with the ceilings of the analysis and accepted lock-free resources, no two tasks on the stack ever access the same resource, locked or lock-free |
| `SrpTheorems.BasepriTracksCeilings` | rtic/src/export/cortex_basepri.rs:73-81 | in every run BASEPRI holds the hardware priority of the highest held ceiling below the highest priority, or 0, and interrupts are off iff a lock with the highest priority as its ceiling is held |
| `SrpTheorems.StartsIffAboveAllCeilings` | rtic/src/export/cortex_basepri.rs:66-83 | in every run of either backend, a handler starts iff it is more urgent than what runs and beats every held ceiling |
| `SrpTheorems.RunShortcut` | rtic/src/export/cortex_basepri.rs:20-28 | both branches of `run` write back the value BASEPRI already has; the shortcut writes what the other would |
| `SrpTheorems.MaskedStayDisabled` | rtic/src/export/cortex_source_mask.rs:131-148 | while a lock below ceiling 4 is held, every interrupt of its mask stays disabled through all nesting and preemption |
| `SrpTheorems.UnlockRestores` | rtic/src/export/cortex_source_mask.rs:140-146 | each unlock restores exactly the registers seen at its lock |
| `SrpTheorems.ConflictBreaksExclusion` | rtic/src/export/cortex_source_mask.rs:114-122 | a resource shared below ceiling 4 with a more urgent exception handler can be entered twice |
| `SrpTheorems.ExclusionExactly` | rtic/src/export/cortex_source_mask.rs:114-122 | exclusion holds in all runs iff there is no such resource |
| `WaitQueue.DoublyLinkedList.Pop` | rtic-common/src/wait_queue.rs:47-82 | takes the first link of the sequence, marks it popped and clears its pointers |
| `WaitQueue.DoublyLinkedList.Push` | rtic-common/src/wait_queue.rs:89-110 | appends a fresh link |
| `WaitQueue.DoublyLinkedList.IsEmpty` | rtic-common/src/wait_queue.rs:113-115 | true iff nothing is queued |
| `WaitQueue.DoublyLinkedList.Remove` | rtic-common/src/wait_queue.rs:147-189 | deletes the link anywhere; for a popped or never pushed link the list stays as it is, and a second removal changes nothing at all |
| `WaitQueue.DoublyLinkedList.PointersAreInverse` | rtic-common/src/wait_queue.rs:118-125 | `next` and `prev` are inverse along the list, and null exactly at its ends |
| `Sequences.WithoutKeepsTheRest` | rtic-common/src/wait_queue.rs:147-189 | removal keeps exactly the other links, once each, and is idempotent |
| `Sequences.WithoutPositions` | rtic-common/src/wait_queue.rs:160-187 | the remaining links keep their order |
| `WakerRegistration.NobodyStranded` | rtic-common/src/waker_registration.rs:24-64 | after any sequence of registrations and wakes, a task that registered is in the slot or was woken since |
| `WakerRegistration.SlotAfter` | rtic-common/src/waker_registration.rs:24-64 | after a wake the slot is empty and its task alone was woken; after a registration it holds the task, and only a different one was woken |
| `WakerRegistration.CriticalSectionWakerRegistration.Register` | rtic-common/src/waker_registration.rs:24-53 | stores the new waker, and wakes the one it displaces iff that is a different one |
| `WakerRegistration.CriticalSectionWakerRegistration.Wake` | rtic-common/src/waker_registration.rs:56-64 | empties the slot and wakes whoever was in it |
| `ChannelRuns.StepKeepsInv` | rtic-sync/src/channel.rs:334-696 | every move of a sender or the receiver keeps all channel invariants |
| `ChannelRuns.EverySlotInOnePlace` | rtic-sync/src/channel.rs:115-184 | in every run each slot is in exactly one of: the free queue, the ready queue, a sender or its cell, the receiver, or discarded |
| `ChannelRuns.CopiesAreExclusive` | rtic-sync/src/channel.rs:336-342 | a payload is written or read outside critical sections only in a slot that nobody else has, and only an initialised one is read |
| `ChannelRuns.PushesHaveRoom` | rtic-sync/src/channel.rs:345-354 | no unchecked push meets a full queue |
| `ChannelRuns.Fifo` | rtic-sync/src/channel.rs:595-619 | until the receiver is dropped, committed payloads are those received, the one being read, and those in the ready queue, in this order |
| `ChannelRuns.NoPayloadLost` | rtic-sync/src/channel.rs:363-504 | each payload offered was committed, was handed back by an error or cancellation, or is still with its sender |
| `ChannelRuns.WaitingMeansFull` | rtic-sync/src/channel.rs:156-174 | while a sender is queued no slot is free |
| `ChannelRuns.TrySendNeverOvertakes` | rtic-sync/src/channel.rs:363-388 | when `try_send` gets a slot nobody is waiting, although it looked at the wait queue earlier |
| `ChannelOrder.WaitersAreServedInOrder` | rtic-sync/src/channel.rs:461-477 | over any stretch of a run, nobody who started to wait later gets ahead of a sender that waits throughout |
| `ChannelRuns.ReceiverNeverMissesAWake` | rtic-sync/src/channel.rs:623-644 | a parked, unwoken receiver has its waker stored and nothing to receive, or somebody is about to wake it |
| `ChannelRuns.SenderNeverMissesAWake` | rtic-sync/src/channel.rs:423-491 | an unwoken waiting sender is queued with no slot free, or is next in the receiver's drop, which is not over |
| `ChannelRuns.PoppedMeansServedOrClosed` | rtic-sync/src/channel.rs:449-456 | a popped waiter has a slot unless the receiver was dropped |
| `ChannelOutcomes.PollOutcome` | rtic-sync/src/channel.rs:423-491 | in every run a poll of `send` fails on a closed channel, and on an open one gets a slot iff its future was popped, or it polls for the first time with nobody waiting and a slot free |
| `ChannelOutcomes.PollTakes` | rtic-sync/src/channel.rs:443-491 | the slot is the one handed over, or the last free one |
| `ChannelOutcomes.PollWaits` | rtic-sync/src/channel.rs:463-477 | a poll that waits stands in the queue behind all who were there |
| `ChannelOutcomes.NoSenderMeansNoHandle` | rtic-sync/src/channel.rs:614-644 | after a failed pop the answer is `NoSender` iff every handle was dropped; otherwise `recv` parks and `try_recv` says `Empty` |
| `ChannelOutcomes.TakeOutcome` | rtic-sync/src/channel.rs:595-613 | a pop finds the front of the ready queue, and what is received is the payload in that slot |
| `ChannelOutcomes.ReceiverParksAndIsWoken` | rtic-sync/src/channel.rs:623-644 | in every channel a run in which the receiver parks, and in one with room for a payload a run in which a `try_send` wakes it there |
| `ChannelRuns.NoSenderMissesExactlyTheLateCommits` | rtic-sync/src/channel.rs:597-615 | `NoSender` leaves behind exactly the payloads committed since the failed pop, hence none iff nothing was |
| `ChannelRuns.NoSenderIsFinal` | rtic-sync/src/channel.rs:531-549 | once the sender count is zero no handle can send any more |
| `ChannelRuns.NoSenderCanMissAPayload` | rtic-sync/src/channel.rs:597-615 | a run in which `NoSender` is reported with a payload ready and nothing received |
| `ChannelNoSender.ClosedForGood` | rtic-sync/src/channel.rs:531-549 | once the sender count is zero it stays zero, and nothing more is committed |
| `ChannelNoSender.ClosedBeforeThePop` | rtic-sync/src/channel.rs:595-619 | if the receiver sees no senders before it pops, the `NoSender` of this or any later call leaves nothing behind |
| `ChannelNoSender.MissPossibleIff` | rtic-sync/src/channel.rs:597-615 | a call whose pop finds nothing can still end in a `NoSender` that leaves a payload behind iff some handle is alive at the pop and the capacity is not zero |
| `ChannelObject.MoveAloneIsApply` | rtic-sync/src/channel.rs:334-504 | a move in the whole system does to the channel and its handle what the methods below are proved to do |
| `ChannelObject.Channel.Split` | rtic-sync/src/channel.rs:115-140 | fills the free queue with every slot in order, counts one sender and keeps everything else |
| `ChannelObject.Channel.ReturnFreeSlot` | rtic-sync/src/channel.rs:155-176 | hands the slot to the first waiter and wakes it, or frees it; no other waiter is touched |
| `ChannelObject.Channel.SendFooter` | rtic-sync/src/channel.rs:336-360 | is the machine's copy, commit and notify |
| `ChannelObject.Channel.TrySend` | rtic-sync/src/channel.rs:363-388 | succeeds iff nobody waits, the receiver lives and a slot is free; else answers no receiver iff nobody waits and it is gone, full otherwise, with the payload and nothing changed; it is the machine's `try_send` run alone |
| `ChannelObject.Channel.PollLocked` | rtic-sync/src/channel.rs:423-491 | refuses on a closed channel; on an open one claims the slot handed over, or the last free one on a first poll with nobody waiting, and otherwise waits; it is one polling move of the machine |
| `ChannelObject.Channel.PollSend` | rtic-sync/src/channel.rs:392-504 | fails on a closed channel, and on an open one is ready iff its future was popped, or a first poll finds a slot; it is that move followed by the dropper and the footer |
| `ChannelObject.Channel.DropSend` | rtic-sync/src/channel.rs:404-421 | leaves the wait queue and gives back an unused slot, as the machine's cancellation does |
| `ChannelObject.Channel.RemoveFromList` | rtic-common/src/wait_queue.rs:147-189 | takes a queued future out and nobody else, and leaves the queue alone for one that was popped or never pushed |
| `ChannelObject.Channel.CloneSender` | rtic-sync/src/channel.rs:551-561 | is the machine's clone: counts one more sender |
| `ChannelObject.Channel.DropSender` | rtic-sync/src/channel.rs:531-549 | counts down, and takes the receiver's waker iff it was the last |
| `ChannelObject.Channel.TryRecv` | rtic-sync/src/channel.rs:595-619 | returns the payload in the slot at the front of the ready queue and gives the slot back; with an empty queue `NoSender` iff no handle is counted, else `Empty` |
| `ChannelObject.TryRecvMoves` | rtic-sync/src/channel.rs:595-619 | that is what the receiver's moves do when nothing comes between them |
| `ChannelObject.Channel.PollRecv` | rtic-sync/src/channel.rs:623-644 | registers the waker; stays pending iff nothing is ready and some handle is counted, and ends with `NoSender` iff nothing is ready and none is |
| `ChannelObject.PollRecvMoves` | rtic-sync/src/channel.rs:623-644 | that is what the moves of `recv` do when nothing comes between them |
| `ChannelObject.Channel.DropReceiver` | rtic-sync/src/channel.rs:671-696 | closes the channel, empties the ready queue and wakes every waiter without a slot |
| `ChannelObject.DropReceiverMoves` | rtic-sync/src/channel.rs:671-696 | that is what the moves of the receiver's drop do to the channel when nothing comes between them |
| `Ticks.CompareIsTrueOrder` | rtic-time/src/timer_queue/tick_type.rs:14-39 | within the half-range window the wrapping comparison is the order of true times, for every width |
| `Ticks.FlippedOutsideTheWindow` | rtic-time/src/timer_queue/tick_type.rs:10-12 | up to a full range apart, the comparison is right iff the times are within the window |
| `Ticks.WrapOfSum` | rtic-time/src/timer_queue/tick_type.rs:36-38 | wrapping addition of ticks is addition of true times |
| `Ticks.DelayInstantIsTrue` | rtic-time/src/timer_queue.rs:178-188 | the computed instant is one tick beyond the duration, or now for an empty one, through any wrap |
| `Ticks.DelayIsLongEnough` | rtic-time/src/timer_queue.rs:158-188 | between the call and a poll that finds it expired at least the duration has passed, in real time |
| `Ticks.ExpiredAtOnceIff` | rtic-time/src/timer_queue.rs:178-188 | a non-empty delay polled in the tick of its call is found expired iff its duration and the extra tick exceed half the range |
| `Ticks.TheExtraTickIsNeeded` | rtic-time/src/timer_queue.rs:178-186 | for every duration, a delay to the instant without the extra tick can be found expired too early |
| `TimerList.InsertAt` | rtic-time/src/linked_list.rs:123-157 | the position before the first strictly later entry |
| `TimerList.InsertAtIsUnique` | rtic-time/src/linked_list.rs:123-157 | no other position has that property |
| `TimerList.InsertionSorts` | rtic-time/src/linked_list.rs:100-165 | inserting by wrapped ticks keeps the list ordered by true time, equal deadlines by arrival |
| `TimerList.LinkedList.PopIfDue` | rtic-time/src/linked_list.rs:25-47 | pops the head iff it is due, reports its deadline, and marks it popped iff it was |
| `TimerList.LinkedList.Delete` | rtic-time/src/linked_list.rs:50-93 | deletes the link with this address and changes nothing if there is none |
| `TimerList.LinkedList.Insert` | rtic-time/src/linked_list.rs:100-165 | inserts at `InsertAt`, keeps the list acyclic, and reports whether the link is the new head |
| `TimerQueueObject.TimerQueue.OnMonotonicInterrupt` | rtic-time/src/timer_queue.rs:100-139 | ends; clears the flag; wakes exactly the entries due by its last clock read, from the front, once each and marked as popped; leaves the compare at the next deadline and reads the clock once more after that, or the timer off iff the queue is empty |
| `TimerQueueObject.TimerQueue.Enqueue` | rtic-time/src/timer_queue.rs:241-245 | queues the link at its place and asks for the interrupt iff it became the head |
| `TimerQueueObject.Delay.Poll` | rtic-time/src/timer_queue.rs:217-249 | ready iff due; the first early poll queues a link at its place and asks for the interrupt iff it became the head; later polls change nothing |
| `TimerQueueObject.Delay.Drop` | rtic-time/src/timer_queue.rs:252-263 | afterwards no link of the delay is queued and the rest of the queue is unchanged |
| `TimerQueueObject.ServedIsDue` | rtic-time/src/timer_queue.rs:104-138 | the loop of the handler, however often the head falls due meanwhile, wakes all that are due by its last clock read and nobody else, within three reads per entry |
| `TimerRuns.NoSleeperForgotten` | rtic-time/src/timer_queue.rs:100-139 | in every run, while a delay waits: interrupt pending or handled, or a new head about to ask for it, or the timer armed for a future match no later than the deadline plus the backend's lag |
| `TimerRuns.OverdueIsServed` | rtic-time/src/timer_queue.rs:217-263 | an overdue delay has its interrupt requested, handled or about to be requested |
| `TimerRuns.QueueIsTheSleepers` | rtic-time/src/linked_list.rs:25-165 | in every run the queue is sorted and stable and holds exactly the delays alive and not popped |
| `TimerRuns.WakesAreSound` | rtic-time/src/timer_queue.rs:106-118 | nobody is woken early or twice, and who was popped was woken or is the one the handler wakes next |
| `TimerMirror.HandlerIsMoves` | rtic-time/src/timer_queue.rs:100-139 | from every reachable state what `OnMonotonicInterrupt` does is a stretch of a run: same links woken in the same order, same list, same timer, same last clock read |
| `TimerMirror.PollIsMoves` | rtic-time/src/timer_queue.rs:217-249 | so is the first poll of a delay before its time, with the interrupt asked for iff it is the new head |
| `TimerMirror.DropIsMoves` | rtic-time/src/timer_queue.rs:252-263 | so is the drop of a delay, popped or not |
| `TimerMirror.NoLinkForgotten` | rtic-time/src/timer_queue.rs:100-139 | so whatever the methods did, each link in the list has its interrupt requested, handled or about to be requested, or a match in time |
| `CompareValues.MatchesByTheInstant` | rtic-monotonics/src/stm32.rs:279-294 | the first match comes after now and no later than the instant, and exactly then if the gap fits the register |
| `CompareValues.MatchesInTime` | rtic-monotonics/src/rp2040.rs:94-111 | when time passes between the clock read and the register write: at which time the match comes; it is on time iff the gap fits the register or the counter wraps between the write and the instant, and late by at most the time the write took |
| `CompareValues.SlowWriteIsLate` | rtic-monotonics/src/stm32.rs:378-384 | every delay of the write can cost its full length |
| `CompareValues.PastFiresAtTheWrap` | rtic-monotonics/src/stm32.rs:264-266 | an instant already past fires when the counter next wraps |
| `CompareValues.Fires24` | rtic-monotonics/src/nrf/rtc.rs:268-298 | in range the 24-bit match fires exactly at the later of the instant and three ticks from now; out of range at the next wrap at least two ticks ahead, which is on time iff it comes by the instant, and at most two ticks late |
| `CompareValues.PastFires24` | rtic-monotonics/src/nrf/rtc.rs:292-294 | an instant already past fires at the next wrap at least two ticks ahead |
| `CompareValues.ThreeIsTheLeastMargin` | rtic-monotonics/src/nrf/rtc.rs:284-289 | a margin is on time for every instant in range iff it is at least three ticks |
| `CompareValues.SetCompareIsCovered` | rtic-time/src/timer_queue.rs:119-130 | the match each backend arms is one that the timer-queue machine allows |
| `CompareValues.ReadCounter` | rtic-monotonics/src/rp2040.rs:80-92 | ends, and returns what the whole 64-bit counter showed at one moment during the call |
| `HalfPeriod.ExactIff` | rtic-time/src/half_period_counter.rs:236-238 | for every width, `calculate_now` is exact iff the counter is the number of half periods begun or one less |
| `HalfPeriod.AndPicksTheLowestBit` | rtic-time/src/half_period_counter.rs:237-237 | the mask is the timer's top bit iff the counter is odd |
| `HalfPeriod.XorFlipsTheBit` | rtic-time/src/half_period_counter.rs:238-238 | the exclusive or flips the timer's top bit and nothing else |
| `HalfPeriodMachine.CounterLagsByAtMostOne` | rtic-monotonics/src/stm32.rs:405-424 | in every run the counter is right or one behind, behind iff a half period is unserved, and the parity assertions never fail |
| `HalfPeriodMachine.ReadingsAreExact` | rtic-time/src/half_period_counter.rs:206-238 | in every run each reading is the true time of its timer read, and readings never go backwards |
| `HalfPeriodLate.HalfPeriodsAccounted` | rtic-monotonics/src/stm32.rs:405-424 | in every run, however late the handler comes, the half periods begun are those counted, those with an interrupt pending, and those whose flag was already up when they began |
| `HalfPeriodLate.ReadingExactIff` | rtic-time/src/half_period_counter.rs:236-238 | in every such run a reading is exact iff at most one half period is pending or lost |
| `HalfPeriodLate.TwoLostReadWrongForever` | rtic-time/src/half_period_counter.rs:236-238 | once two interrupts are lost every later reading is wrong |
| `HalfPeriodLate.ServedRightIff` | rtic-monotonics/src/stm32.rs:405-424 | a handler that nothing interrupts leaves the counter behind by exactly the interrupts lost, so right iff none ever was |
| `HalfPeriodLate.NoticedIff` | rtic-monotonics/src/nrf/rtc.rs:254-266 | in a handler that nothing interrupts an assertion fails iff, with both flags up, the half periods begun and the interrupts lost add up to an even number; with the flag of the latest half period alone, iff an odd number was lost; with the other flag alone, iff an even number was |
| `HalfPeriodLate.AssertionFailsIff` | rtic-monotonics/src/nrf/rtc.rs:254-266 | with half periods beginning while the handler runs too: the assertion after the overflow fails iff the half periods begun, less those pending and lost, are even, the one after the compare iff they are odd |
| `HalfPeriodLate.BehindMeansBothOrLost` | rtic-monotonics/src/stm32.rs:405-424 | with the handler at rest, a counter two or more behind means that both flags are up or that an earlier tick lost an interrupt |
| `HalfPeriodLate.NeverServedIsNoticed` | rtic-monotonics/src/stm32.rs:405-424 | for every number of half periods from two on that fits the time counted, a run in which the handler comes only then and notices it |
| `HalfPeriodLate.ServedOnceIsNotNoticed` | rtic-monotonics/src/stm32.rs:405-424 | and one in which it came in time once, comes again only then, notices nothing, and leaves the counter at three |
| `HalfPeriodMachine.HandledIsOnInterrupt` | rtic-monotonics/src/nrf/rtc.rs:254-266 | the handler's steps in the machine add up to its code |
| `HalfPeriodMachine.Timer.OnInterrupt` | rtic-monotonics/src/stm32.rs:405-424 | reports whether its two assertions hold, counts the flags that are up and clears them, as the handler's steps do; in every reachable state they hold and the counter ends right |
| `ArbiterRuns.ExclusiveAccess` | rtic-sync/src/arbiter.rs:160-180 | at most one client holds or was handed the value; the flag is set iff one does or a grant was lost |
| `ArbiterRuns.ServedInOrder` | rtic-sync/src/arbiter.rs:92-125 | over the whole run grants go in order of arrival, and everybody waiting comes after all of them |
| `ArbiterRuns.WaitersAreNotJumped` | rtic-sync/src/arbiter.rs:140-157 | while somebody waits `try_access` fails |
| `ArbiterRuns.ReleaseServesTheOldest` | rtic-sync/src/arbiter.rs:166-180 | a release frees the value if nobody waits and hands it to the oldest waiter otherwise |
| `ArbiterRuns.PollOutcome` | rtic-sync/src/arbiter.rs:92-125 | in every run a poll gets the value iff it was handed over, or is free with nobody waiting; else the client waits, on a first poll at the back |
| `ArbiterRuns.TryAccessOutcome` | rtic-sync/src/arbiter.rs:140-157 | in every run `try_access` gets the value iff it is free and nobody waits, and else changes nothing |
| `ArbiterRuns.StalledIffLateCancellation` | rtic-sync/src/arbiter.rs:83-90 | the value counts as taken with nobody holding it or about to iff earlier in the run a future was dropped between being handed the value and its next poll |
| `ArbiterRuns.StalledForever` | rtic-sync/src/arbiter.rs:97-101 | after that it stays so, and nobody is ever served again |
| `ArbiterRuns.StallsIffShared` | rtic-sync/src/arbiter.rs:83-90 | an arbiter can come to this iff it has at least two clients |
| `ArbiterObject.Arbiter.TryAccess` | rtic-sync/src/arbiter.rs:140-157 | succeeds iff the value is free and nobody waits |
| `ArbiterObject.Arbiter.Poll` | rtic-sync/src/arbiter.rs:92-125 | takes a free value, queues a fresh link at the back on the first poll, and is ready iff that link was popped |
| `ArbiterObject.Arbiter.DropAccess` | rtic-sync/src/arbiter.rs:83-90 | takes the future's link out of the queue and keeps the flag |
| `ArbiterObject.Arbiter.Release` | rtic-sync/src/arbiter.rs:166-180 | clears the flag if nobody waits, else pops and wakes the first and keeps the flag |
| `ExecutorRuns.NoLostWakeup` | rtic/src/export/executor.rs:163-215 | in every run, an executor running and pending has its interrupt pending, the dispatcher still before it, or a spawner or waker of its own yet to pend the interrupt |
| `ExecutorRuns.AtRestNothingIsDue` | rtic-macros/src/codegen/async_dispatchers.rs:47-90 | when interrupt, dispatcher and callers are all idle, no task is left that should run |
| `ExecutorRuns.PollOutcome` | rtic/src/export/executor.rs:202-215 | a completed future frees exactly its executor and is recorded once; a pending one changes nothing but the dispatcher's place |
| `ExecutorSchedule.ScheduleIsRun` | rtic/src/export/executor.rs:163-215 | what is proved for every interleaving holds of the runs on one core with priorities |
| `ExecutorSchedule.StepKeepsStack` | rtic-macros/src/codegen/async_dispatchers.rs:66-92 | whatever is under way is on the stack of preempted contexts, in order of priority, and the dispatcher preempted only less urgent code |
| `ExecutorExposure.PollsAreLive` | rtic-macros/src/codegen/module.rs:151-183 | in an application that is not exposed every poll sees a live future, and every spawned future is live in one place or finished once |
| `ExecutorExposure.CompletionFrees` | rtic/src/export/executor.rs:176-215 | in such an application a task whose future completed can be spawned again |
| `ExecutorExposure.UrgentSpawnersAreSafe` | rtic-macros/src/codegen/module.rs:151-165 | an application whose spawners are at least as urgent as the tasks they spawn is not exposed |
| `ExecutorExposure.StepKeepsSpawnsOnly` | rtic/src/export/executor.rs:176-215 | as long as nobody wakes, in any interleaving, each pending flag belongs to a written future and no poll is dead |
| `ExecutorExposure.DeadPollsIffExposed` | rtic/src/export/executor.rs:176-193 | some run polls a dead future iff there is a waker, some spawner is less urgent than the dispatcher and, where a pended interrupt preempts at once, code more urgent than that spawner wakes a task or spawns another; for any tasks and callers |
| `ExecutorRuns.DeadPollStep` | rtic/src/export/executor.rs:202-206 | the step that does it takes a pending flag between a spawner's reservation and its write |
| `ExecutorExposure.StaleDeadPoll` | rtic-macros/src/codegen/module.rs:151-165 | such a run from a wakeup left over from before the reservation |
| `ExecutorExposure.PreemptedDeadPoll` | rtic-macros/src/codegen/module.rs:173-182 | such a run from a wakeup in the middle of the spawn |
| `ExecutorExposure.DisturbedDeadPoll` | rtic-macros/src/codegen/module.rs:151-183 | such a run from a wakeup left over and a more urgent spawn of another task in the middle of the spawn |
| `ExecutorMachine.PollAloneIsPolled` | rtic/src/export/executor.rs:202-215 | the dispatcher's steps run without preemption are `poll` |
| `ExecutorMachine.SpawnAloneIsSpawn` | rtic-macros/src/codegen/module.rs:151-165 | a spawner's steps run without preemption are the generated `spawn` up to its interrupt |
| `ExecutorObject.PriorityLevel.Spawn` | rtic-macros/src/codegen/module.rs:151-165 | fails and changes nothing iff the task is running; otherwise leaves it running, pending, with the new future, and the interrupt pended |
| `ExecutorObject.PriorityLevel.Wake` | rtic-macros/src/codegen/module.rs:173-182 | sets the flag of this task only and pends the interrupt |
| `ExecutorObject.PriorityLevel.Dispatch` | rtic-macros/src/codegen/async_dispatchers.rs:47-90 | polls exactly the tasks that are due, once each and in order, and leaves none due; exactly those whose future completed stop running |
| `ExecutorObject.AsyncTaskExecutor.Poll` | rtic/src/export/executor.rs:202-215 | polls iff running and pending, takes the flag, and stops running iff it was polled and the future is ready |
| `ExecutorObject.AsyncTaskExecutor.CheckAndClearPending` | rtic/src/export/executor.rs:163-168 | answers and clears the flag |
| `ExecutorObject.AsyncTaskExecutor.TryAllocate` | rtic/src/export/executor.rs:178-183 | succeeds iff the executor was not running, and leaves it running |
| `ExecutorObject.AsyncTaskExecutor.Spawn` | rtic/src/export/executor.rs:187-193 | writes the future, then sets the flag |

## Left out

- Watch, Signal, `wait_until`, I2C and SPI wrappers: clients of the same waker and queue arguments, or without a wakeup guarantee under preemption.
- ESP32 and SLIC lock backends, `rp235x.rs`: the first two do not follow the same policy, the last repeats the RP2040.
- Token parsing and most of the code generation; only the emitted spawn, waker, dispatcher and lock sequences are modelled.
- The book, examples, build scripts and `optimize.rs`, which is not compiled.
- The `Send` types of the analysis: a list of types by ceiling, and for local resources the table it consults never holds them.
- Error message texts, spans and their order: `Acceptance.Accept` returns the set of rejections.
- Dispatchers of priority 0, which loop for ever instead of waiting for an interrupt.
- Weak memory ordering, pinning, lifetimes and waker tables.
- `cortex_logical2hw` with 8 priority bits, where the shift by `1 << 8` does not fit its type; no core has them.
- The width of `num_senders` and of slot numbers: the count is unbounded, and the capacity is not limited to what fits a byte.
- Several tasks receiving in turn from one channel: the machine has one receiver task, whose waker is stored or not.
- The wait queue inside `ChannelObject.Channel` is a sequence; that the linked list refines one is proved in `WaitQueue`, and the arbiter's objects use the list itself.
- Overflow of the addition in `calculate_now`: with an exact counter it cannot happen before time itself overflows its word, which `HalfPeriod.ExactIff` assumes it does not.
- In `TimerMachine` the clock read and the register write of `set_compare` are one step; the effect of time passing between them is bounded by `lag` and proved in `CompareValues`.
- Payloads, wakers, identifiers and types are numbers: the code only copies or compares them.
