# reL4 in Dafny

This project models the core of reL4, a rewrite of the seL4 microkernel, and proves what its data structures and
protocols are for. Code that updates memory step by step is modelled by classes and methods, each proved against
a function on plain values; the laws are proved about those functions, for all inputs and for all runs.

* **Capabilities and derivation** (`Caps`, `MdbNodes`, `Descent`, `Mdb`, `Containers`, `SwapSafety`,
  `DeletionFrame`, `DeletionSteps`, `Deletion`, `Revoke`, `CNodeOps`, `TakeBack`, `SpaceGrowth`, `SpaceRuns`,
  `BootSpace`): capability slots linked into derivation lists. A sequence of nodes stands for the links; every
  operation is shown to do to the sequence what its pointer writes do to the slots. The two-neighbour test for
  the last capability answers the global question, deletion with its mutually recursive zombie reduction
  terminates and touches only what dies by it, and revocation takes back exactly what descends from a
  capability, so that an original is the only one to its object afterwards; copies carry the greatest rights
  within source and request. Swapping two neighbours does not leave a list; that is stated as an equivalence and
  carried through rotation and deletion, with a condition on the space before a deletion under which it never
  comes to that. One invariant holds after every run of copy, move, rotate, retype, delete and revoke from boot.
* **Untyped memory** (`Memory`, `Untyped`, `Retype`, `AllocatorRuns`): objects carved from untyped memory stay
  aligned, inside, and apart in every reachable state. Resetting small blocks clears beyond them, with the exact
  condition.
* **Scheduling** (`SchedulerSpec`, `SchedulerRuns`, `Queues`, `Bitmap`, `Scheduler`): intrusive ready queues and
  a two-level bitmap refine an abstract scheduler, for which every run of kernel entries keeps each runnable
  thread current or queued once and the current thread highest; among equals waiting is bounded, and
  `ScheduleOrder` says who runs next and in which order the others wait.
* **IPC** (`IpcSpec`, `IpcInvariants`, `IpcSafety`, `ReplySafety`, `KernelExit`, `IpcRuns`, `Signals`,
  `Bindings`, `Faults`, `Waits`, `Rendezvous`, `FirstCome`, `Ipc`): endpoints, notifications, replies and
  bindings. Over every run threads and queues agree, reply capabilities are unique, what is received is what was
  sent, nobody overtakes in a queue, what the code asserts of queues, thread states and reply slots holds, every
  signal is delivered exactly once or still pending, and nobody sleeps through a signal, with the exact
  conditions under which a new binding breaks that or is not one to one.
* **Reply capabilities** (`ReplyMdb`, `ReplySlots`, `ReplyEffects`, `ReplyRuns`, `SystemRuns`, `SystemOps`,
  `BootSystem`): threads, replies and derivation lists stay in step over every run, deletions of waiting threads
  and of saved replies included, so that the slot behind a master is where cancel_ipc finds the reply.
* **Capability transfer** (`CapTransfer`): what a message's extra capabilities become, and exactly when the
  insertion's assertion fails.
* **Fast paths** (`Lookup`, `LookupPaths`, `CallPath`, `Fastpath`, `Messages`): the fast capability lookup finds
  what the slow one finds, and short messages arrive the same either way. The call fast path has the effect of
  the slow path, and its own unlinking leaves a proper queue exactly if a single receiver was waiting.
* **Boot and address spaces** (`BootState`, `BootRegions`, `BootFreemem`, `RootServer`, `BootUntyped`,
  `BootBlocks`, `BootMap`, `Sv39`, `VSpaces`): the booted state meets the invariants, so the run theorems speak
  of every run from boot; the free-memory scan with the exact condition for its result, the tiling of the root
  server's memory and of untyped blocks, joined into the memory map the booted state starts from; and address
  spaces with the kernel window they share, in which mapping a page sends exactly that page to its frame.

`Words` holds powers of two and alignment, `Config` the sizes and offsets. `SpaceShortfalls` and `IpcShortfalls`
hold concrete inputs for the next section.

## Where the code falls short

The model follows the code. In these places the expected property does not hold of it as it stands. Each has the
exact condition as an equivalence (a whole deletion has one for each of its swaps, and a condition on the space
before it that is enough), and an input at which it fails where one can come up.

* Swapping two slots that are neighbours in a derivation list leaves no list (`Mdb.SwapIsListIff`), so neither
  does a rotation with equal source and destination (`CNodeOps.Rotate`). Inputs:
  `SpaceShortfalls.SwapTearsList`, `SpaceShortfalls.RotateNeighbours`.
* Deletion swaps a zombie with the first slot of its own CNode or TCB, and these can be such neighbours: it is
  enough to retype an endpoint right after a CNode, put it into the CNode's first slot, and delete another CNode
  whose last slot holds the first one's capability (`SpaceShortfalls.DeleteOuter`). A swap completes exactly if
  they are not (`Deletion.ReduceBySwap`); a whole deletion completes in every clear space, and stops when its
  first swap is one of neighbours (`Deletion.DeleteAll`).
* Revoking a frame takes back nothing: the test for children does not know frames, so copies stay
  (`TakeBack.FrameSoleIff`). Input: any copy of a frame (`TakeBack.CopyThenRevoke`).
* A message that comes to insert a capability into a receive slot in use fails an assertion
  (`CapTransfer.SetTransferCaps`): nothing tests the slot. Input: `SpaceShortfalls.TransferToUsedSlot`.
* Resetting an untyped block smaller than one clearing chunk clears memory behind it, unless it is device memory
  or unused (`Retype.ResetStaysInsideIff`). Input: `Retype.SmallResetOverruns`.
* The call fast path leaves a malformed endpoint queue if more than one receiver waits
  (`Fastpath.FastDequeueIff`). Input: `Fastpath.FastDequeueTearsQueue`.
* The decoder of a notification binding does not check whether the notification is already bound
  (`Bindings.BindOneToOneIff`), and binding an active notification to a thread that sleeps in a receive lets it
  sleep on with a signal pending (`Bindings.BindHeardIff`). Runs from boot:
  `IpcShortfalls.SecondBindingReached`, `IpcShortfalls.SleepingReceiverReached`.
* Replying to a faulted thread does not clear the recorded fault: a thread keeps it until it is cancelled while
  it waits for a reply (`Faults.FaultAfter`), and until then its messages are fault messages
  (`Faults.MessageIsFaultIff`, `Faults.AnsweredFaultIsSentAgain`). Run from boot:
  `IpcShortfalls.FaultSentAgainReached`.
* Suspending a thread that the same kernel entry has made the switch target would leave a target that cannot run
  (`SchedulerRuns.StepMid`); the system calls suspend before anything is woken.
* A mapping shows at exactly its page only below 2^38; the range check admits addresses up to 2^47
  (`VSpaces.VSpace.MapFrame`). Input: `VSpaces.HighPageWraps`.
* Unmapping a page table leaves it linked whenever it is (`VSpaces.VSpace.UnmapPageTable`): the loop stops at
  the first entry that leads to a table. Mapped again elsewhere, it serves both places. Input:
  `VSpaces.TableServesTwice`.
* The scan for free memory frees reserved addresses exactly if it is done with a reserved region before the
  available regions that meet it (`BootFreemem.ScanExactIff`): when a reserved region swallows the start of one
  available region and reaches into the next, or when the available regions are out of order, of which the code
  says that it is an error and goes on. Inputs: `BootFreemem.SwallowedRegionSpills`,
  `BootFreemem.WrongOrderSpills`.
* A guard of size 0 that is not 0 would be refused by the slow lookup and accepted by the fast one
  (`Lookup.GuardTestsAgreeIff`); `Lookup.GuardsFit` shows that updating a CNode capability's data never writes
  one.

## Model

| member | source | states |
|---|---|---|
| `Caps.SameObjectIsSameId` | sel4_cspace/src/cap/mod.rs:236-250 | the pairwise object test is equality of one identity per capability, so it is symmetric and transitive; capabilities without an identity (untyped, reply, zombie, null) are never the same object |
| `Caps.CopyAndMintDerive` | kernel/src/syscall/invocation/invoke_cnode.rs:15-65 | a copy or mint succeeds exactly for what may be derived; it then names the source's object with the greatest rights within both the source and the request, carries the badge or guard asked for and no mapping, keeps a badge already set, and is never a reply, zombie or IRQ control capability |
| `Caps.DerivedIsUnique` | kernel/src/syscall/invocation/invoke_cnode.rs:15-65 | these properties leave exactly one capability |
| `Caps.MutateKeepsObject` | sel4_cspace/src/cap/mod.rs:99-138 | mutating is refused exactly for a badge, a null capability or a guard that leaves no room for the index; otherwise the object stays and only a CNode's guard changes, to the one in the word given |
| `MdbNodes.FinalIsGlobal` | sel4_cspace/src/cte.rs:118-136 | two neighbours answer the global question: no other node anywhere names the object |
| `MdbNodes.RemoveKeepsMdbOk` | sel4_cspace/src/cte.rs:219-241 | unlinking a node keeps objects grouped, badge marks and reply tails right, and originals first among the capabilities to their object |
| `MdbNodes.InsertKeepsMdbOk` | sel4_cspace/src/cte.rs:338-377 | inserting behind a node keeps them too, for a copy and for a new object |
| `Mdb.LinksAreInverse` | sel4_cspace/src/cte.rs:219-241 | in a represented list next and prev are inverse, stay inside the slots, and exactly the used slots are listed |
| `Descent.DescentIsRun` | sel4_cspace/src/cte.rs:88-116 | descent, said by objects, memory, badges and marks, is what the parent test lets through from the next node on: an untyped's contents, the later capabilities to an object, of a badged one those in the run of its badge, and nothing behind a frame |
| `Descent.NextTells` | sel4_cspace/src/cte.rs:78-86 | the test on the next node tells whether anything at all descends from a node |
| `Descent.OriginalIsSole` | sel4_cspace/src/cte.rs:315-333 | an original without descendants is the only capability to its object |
| `Descent.CopyDescends` | sel4_cspace/src/cte.rs:338-365 | a copy or mint descends from a revocable source that is no frame, and nothing descends from the copy yet |
| `Mdb.FinalIsUnique` | sel4_cspace/src/cte.rs:118-136 | the final test on slots holds exactly if no other slot names the object |
| `Mdb.SwapIsListIff` | sel4_cspace/src/cte.rs:410-448 | the assignments of a swap leave doubly linked lists behind if and only if the two slots were not neighbours |
| `Mdb.CSpace.SetEmpty` | sel4_cspace/src/cte.rs:219-241 | one slot leaves its list, the rest keep order and capabilities, the first-badged mark is inherited |
| `Mdb.CSpace.CteInsert` | sel4_cspace/src/cte.rs:338-365 | the slot joins directly behind its source, every other capability is untouched, a copied untyped becomes full |
| `Mdb.CSpace.InsertNewCap` | sel4_cspace/src/cte.rs:368-377 | a new object joins directly behind its parent, revocable and first-badged |
| `Mdb.CSpace.CteMove` | sel4_cspace/src/cte.rs:382-407 | the destination takes the source's place in the list and the source becomes empty |
| `Mdb.CSpace.CteSwap` | sel4_cspace/src/cte.rs:410-448 | two slots trade places; the result is a list exactly if they were not neighbours |
| `Mdb.CSpace.IsFinalCap` | sel4_cspace/src/cte.rs:118-136 | true exactly if no other slot of the whole system names the object |
| `Mdb.CSpace.EnsureNoChildren` | sel4_cspace/src/cte.rs:78-116 | success exactly if nothing descends from the capability; for an untyped, with memory in order, exactly if no slot of the whole space names anything allocated from its block |
| `Mdb.EarlierIsAround` | sel4_cspace/src/cte.rs:78-116 | what lies in an untyped block and is not allocated from it, in the sense of that answer, is an untyped around the block |
| `Mdb.CSpace.AddSlots` | kernel/src/syscall/invocation/invoke_untyped.rs:16-37 | memory becomes empty slots; every list and capability stays |
| `Mdb.CSpace.WriteSlot` | kernel/src/boot/utils.rs:71-79 | an empty slot gets a capability that starts a list of its own; nothing else changes |
| `Containers.WithoutKeepsCapsOk` | sel4_cspace/src/cte.rs:207-241 | emptying a slot keeps every slot in use owned by an object that something names, if the capability is not the last one for slots in use and no master that is waited on |
| `SwapSafety.ClearNoNeighbour` | sel4_cspace/src/cte.rs:250-257 | in a clear space no capability of the zone is a neighbour of its own first slot |
| `SwapSafety.RemoveKeepsClear` | sel4_cspace/src/cte.rs:219-241 | deleting a capability keeps the space clear, so neighbours never come together during a deletion |
| `SwapSafety.SwapKeepsClear` | sel4_cspace/src/cte.rs:410-448 | so does swapping a zombie with its own first slot |
| `Deletion.FinaliseCap` | kernel/src/interfaces_impl/cspace.rs:136-235 | the remainder for every kind of capability, and the one other slot that is deleted: the reply behind the master of a thread waiting for it, or the notification of the last IRQ handler, which is then gone |
| `Deletion.DeleteOne` | sel4_cspace/src/cte.rs:207-217 | exactly this slot leaves its list and no other capability changes; the invariant is kept; for every capability that the source finalises at once |
| `Deletion.DeleteAll` | sel4_cspace/src/cte.rs:195-205 | deletion terminates with the invariant kept; it completes whenever the space is clear for its zone, stops only where a zombie is a neighbour of its own first slot, and does stop there when that is its first swap; an exposed deletion that completes leaves the slot empty; a plain one removes exactly this slot; the interrupt of a last handler loses its notification; and of all other slots only those of containers that nothing stands for any more lose their capability, and a notification whose last interrupt handler went or a reply to a thread that went |
| `Deletion.Finalise` | sel4_cspace/src/cte.rs:157-193 | the loop terminates because loose containers and then the zombie's size shrink; completes in a clear space; an immediate finalisation that completes succeeds, another fails only on a zombie stored in its own first slot; other slots lose their capability only as in a deletion |
| `Deletion.ReduceZombie` | sel4_cspace/src/cte.rs:244-287 | each step shrinks the set of loose containers or the zombie's count, keeps the invariant and the clear zone, spares the other slots as a deletion does, and meets the source's assertions; without immediate it stops exactly at a zombie next to its own first slot |
| `Deletion.ReduceBySwap` | sel4_cspace/src/cte.rs:250-257 | swapping a zombie with its own first slot completes exactly if the two are not neighbours, and then keeps the invariant and strictly shrinks the loose set |
| `DeletionFrame.TakenTrans` | sel4_cspace/src/cte.rs:195-287 | what deletions spare one after the other is spared by them together: whatever was touched belongs to what died on the way |
| `DeletionFrame.WanesTrans` | sel4_cspace/src/cte.rs:195-287 | deletions make no capability and name no container anew, one after the other |
| `DeletionFrame.ZombieDead` | sel4_cspace/src/cte.rs:157-193 | turning the last capability of a container into a zombie leaves the container with nothing that stands for it |
| `Revoke.RevokeSlot` | sel4_cspace/src/cte.rs:315-333 | revocation terminates with the invariant kept; it completes in a clear space, and stops only at a zombie next to its own first slot; when it completes nothing descends from the capability, and an original is then the only capability to its object in the whole system; when no descendant is another object's last CNode, thread or handler capability, exactly the descendants are gone and every other slot is as before; in every case only slots with something of what the capability stands for are emptied, with what dies by that |
| `Revoke.RunIsDescent` | sel4_cspace/src/cte.rs:88-116 | the run of children that revoke works through is exactly the descendants |
| `TakeBack.CopyThenRevoke` | sel4_cspace/src/cte.rs:315-333 | copying or minting from any object's capability and then revoking it: a copy of a revocable source is gone, a frame's copy is still there with its rights |
| `TakeBack.FrameSoleIff` | sel4_cspace/src/cte.rs:88-116 | a revoked frame is the only capability to its object exactly if it was before |
| `CNodeOps.CopyOrMint` | kernel/src/syscall/invocation/invoke_cnode.rs:15-65 | succeeds exactly for what may be derived, an untyped only without descendants; the copy stands directly behind its source, carries the greatest rights within source and request and the badge or guard given, descends from a revocable source that is no frame, and has no descendants; a copied untyped becomes full; nothing else changes |
| `CNodeOps.MoveOrMutate` | kernel/src/syscall/invocation/invoke_cnode.rs:67-83 | succeeds exactly if there is a capability and its data may be rewritten; the destination then holds it, with the guard given, in the source's place of the list, the source is empty, nothing else changes |
| `CNodeOps.Rotate` | kernel/src/syscall/invocation/invoke_cnode.rs:110-146 | succeeds exactly if the data of both capabilities may be rewritten; then the pivot's goes to the destination and the source's to the pivot, each with the guard given and with its place in the list; with source and destination equal a list is left exactly if the slots were not neighbours |
| `SpaceGrowth.WriteNew` | kernel/src/boot/utils.rs:71-79 | a capability to memory that nothing else names, written to an empty slot, keeps the whole invariant of the capability space |
| `SpaceGrowth.GrowKeepsCapsOk` | kernel/src/syscall/invocation/invoke_untyped.rs:16-37 | turning unused memory into the slots of a new CNode or TCB keeps every slot in use owned and every zombie's count right |
| `SpaceRuns.Perform` | kernel/src/syscall/invocation/decode/decode_cnode_invocation.rs:20-103 | each of copy, move, rotate, retype, transfer of a message's capabilities, delete and revoke keeps the whole invariant; the first five make no reply capability, leave the slots of TCBs alone and keep everything named; of a deletion or revocation it says which slots may have lost their capability; only these can stop, only next to the first slot of a zombie, and never in a clear space |
| `SpaceRuns.RunSpace` | kernel/src/syscall/invocation/decode/decode_cnode_invocation.rs:20-103 | the invariant holds after every run of these operations, in any order, new CNodes and TCBs included |
| `BootSpace.RootCNodeOk` | kernel/src/boot/root_server.rs:289-299 | the root CNode with its own capability in one of its slots meets the invariants of the capability space: links, object grouping, memory separation, slot ownership, reply pairing |
| `BootSpace.Boot` | kernel/src/boot/root_server.rs:126-187 | root CNode, initial thread with master reply capability and CSpace root, and any number of untyped blocks apart from them: the invariant of the capability space holds, and no reply is out |
| `BootSpace.RunFromBoot` | kernel/src/boot/root_server.rs:126-187 | the invariant holds after every run of capability operations from boot; BootSystem.EveryRunFromBootLinksReplies has the runs in which threads wait for replies |
| `Memory.RegionTestIsContainment` | sel4_cspace/src/cap/mod.rs:177-234 | for an untyped, the region test of the derivation tree is containment of address ranges |
| `Memory.NoChildMeansNothingAlive` | sel4_cspace/src/cte.rs:78-86 | an untyped whose next slot is no child has nothing alive in its block anywhere in the list |
| `Untyped.CreatedRange` | kernel/src/syscall/invocation/invoke_untyped.rs:68-92 | a created object has exactly the size of its type and starts at its address |
| `Untyped.CreatedIsFresh` | kernel/src/syscall/invocation/invoke_untyped.rs:68-92 | the capability to a new object is the greatest of all to it, without badge, guard or mapping; a new untyped has nothing allocated and the device flag of the request |
| `Untyped.FreshIsUnique` | kernel/src/syscall/invocation/invoke_untyped.rs:68-92 | there is only one such capability |
| `Untyped.SpaceIff` | kernel/src/syscall/invocation/decode/decode_untyped_invocation.rs:105-130 | the space check asks exactly whether all objects together fit behind the allocation point |
| `Untyped.AlignedWindowFits` | kernel/src/syscall/invocation/decode/decode_untyped_invocation.rs:105-148 | although space is checked before alignment, the aligned objects fit in the block |
| `Untyped.RetypePlacement` | kernel/src/syscall/invocation/decode/decode_untyped_invocation.rs:105-148 | where the objects go: at the first aligned address at or above the allocation point, inside the block; of the source only the free index changes, to exactly behind the last object |
| `Untyped.RetypeKeeps` | kernel/src/syscall/invocation/invoke_untyped.rs:124-158 | retype keeps objects apart and the derivation list well formed |
| `Untyped.FreePointerDiscipline` | kernel/src/syscall/invocation/decode/decode_untyped_invocation.rs:92-104 | the free pointer moves up while anything is alive and starts over at the bottom exactly when nothing is |
| `Retype.CreateNewObjects` | kernel/src/syscall/invocation/invoke_untyped.rs:16-37 | every destination slot gets the first capability to its object, in order, the slots of new CNodes and TCBs are there and empty, every other slot keeps its capability, the list grows by exactly these nodes, and the whole invariant is kept |
| `Retype.InvokeRetype` | kernel/src/syscall/invocation/invoke_untyped.rs:124-158 | the new list, the raised free pointer, the first capability to its object in every destination slot, which is an original and descends from the untyped, every other slot and the slots of new objects, with the whole invariant kept |
| `Retype.DecodeRetype` | kernel/src/syscall/invocation/decode/decode_untyped_invocation.rs:23-148 | success exactly if the request is admissible; a refused request changes nothing |
| `Retype.CheckSpace` | kernel/src/syscall/invocation/decode/decode_untyped_invocation.rs:92-148 | accepts exactly if the objects fit and no frame is made from device memory, and names the error otherwise; what fitting means is Untyped.SpaceIff |
| `Retype.ResetUntyped` | kernel/src/syscall/invocation/invoke_untyped.rs:94-122 | exactly which bytes the chunked clearing wipes |
| `Retype.ResetStaysInsideIff` | kernel/src/syscall/invocation/invoke_untyped.rs:94-122 | clearing reaches everything allocated, and stays inside the block exactly if the block holds a chunk, is device memory, or was unused |
| `Retype.SmallResetOverruns` | kernel/src/syscall/invocation/invoke_untyped.rs:94-122 | a block of 16 bytes whose reset clears 256 |
| `AllocatorRuns.ReachableObjectsAreSafe` | kernel/src/syscall/invocation/invoke_untyped.rs:124-158 | over every run of retype, copy, rewrite, retire and delete from one untyped: objects are aligned and inside, overlap only as copies or container and content, and stay below the free pointer |
| `SchedulerSpec.HighestPrio` | sel4_task/src/scheduler.rs:267-275 | the last non-empty ready queue, or none |
| `SchedulerSpec.ScheduleStable` | sel4_task/src/scheduler.rs:433-471 | whatever operations left behind, schedule ends with a current thread that nobody outranks and everybody else queued |
| `SchedulerSpec.ChooseThreadStable` | sel4_task/src/scheduler.rs:377-417 | choosing the head of the highest queue gives a stable state |
| `ScheduleOrder.NewChoice` | sel4_task/src/scheduler.rs:377-417 | when a new choice is due the current thread goes behind its equals, the first of the highest line runs and all others keep their places |
| `ScheduleOrder.CandidateChoice` | sel4_task/src/scheduler.rs:433-471 | a candidate runs at once exactly if it outranks a current thread that can still run and nobody in line outranks it; otherwise it joins the end of its line, behind the current thread, and the first of the highest line runs |
| `ScheduleOrder.EqualsKeepPlaces` | sel4_task/src/scheduler.rs:456-459 | a candidate of the current thread's priority does not overtake: the old line, then the current thread, then the candidate |
| `ScheduleOrder.EntryKeepsPlaces` | sel4_task/src/scheduler.rs:456-459 | the same for every kernel entry that ends with such a candidate |
| `ScheduleOrder.WakeDecides` | sel4_task/src/scheduler.rs:501-510 | what an entry that wakes one thread does to the processor and to every line, for each relation of the two priorities |
| `ScheduleOrder.OperationOnThread` | sel4_task/src/tcb.rs:137-412 | state, priority and time slice of every thread after every scheduling operation |
| `ScheduleOrder.PriorityIsTheOneAsked` | sel4_task/src/tcb.rs:137-147 | an entry that changes a priority leaves the thread with the one asked for and everybody else's as it was |
| `ScheduleOrder.YieldRotates` | kernel/src/syscall/mod.rs:217-221 | yielding sends the current thread behind its equals and runs the next |
| `SchedulerRuns.StepMid` | sel4_task/src/tcb.rs:137-412 | every scheduling operation keeps the invariant that no runnable thread is lost and none outranks the current one unnoticed, exactly unless it suspends the pending switch target |
| `SchedulerRuns.ActivateUserLevel` | sel4_task/src/scheduler.rs:540-561 | activating after schedule never meets a blocked thread |
| `SchedulerRuns.EveryRunIsFair` | kernel/src/interrupt/handler.rs:12-22 | after every run of kernel entries: queued exactly if runnable and not current, once, at its priority; the current thread has the highest priority of all runnable ones |
| `SchedulerRuns.TickEndsSlice` | sel4_task/src/scheduler.rs:514-536 | the tick that ends a slice moves the current thread behind its queue and runs the next |
| `SchedulerRuns.WaitsAtMostSlices` | sel4_task/src/scheduler.rs:514-536 | bounded waiting: k places behind the current thread means running within k time slices |
| `Queues.AppendRep` | sel4_task/src/tcb_queue.rs:17-27 | the pointer writes of an append represent the queue with the thread at its tail and touch nobody else |
| `Queues.RemoveRep` | sel4_task/src/tcb_queue.rs:30-42 | the pointer writes of a removal represent the queue without the thread, in order |
| `Bitmap.HighestPrioIsMaximum` | sel4_task/src/scheduler.rs:267-275 | the two leading-zero counts through the inverted second level find the highest non-empty queue |
| `Bitmap.ZeroMeansNothingQueued` | sel4_task/src/scheduler.rs:295-304 | the first-level word is zero exactly if every queue is empty |
| `Bitmap.AddTells` | sel4_task/src/scheduler.rs:308-324 | setting both bits keeps the bitmap exact when a queue becomes non-empty |
| `Bitmap.DropTells` | sel4_task/src/scheduler.rs:328-348 | clearing keeps it exact when a queue becomes empty, dropping the first-level bit only with the last priority of its word |
| `Scheduler.Scheduler.SchedEnqueue` | sel4_task/src/tcb.rs:178-199 | links, queue ends, queued bit and bitmap together do exactly one append, or nothing if queued |
| `Scheduler.Scheduler.SchedAppend` | sel4_task/src/tcb.rs:261-286 | the same effect through the other test |
| `Scheduler.Scheduler.SchedDequeue` | sel4_task/src/tcb.rs:232-256 | exactly one removal, or nothing if not queued |
| `Scheduler.Scheduler.IsHighestPrio` | sel4_task/src/scheduler.rs:295-304 | the bitmap test is the comparison with the highest non-empty queue |
| `Scheduler.Scheduler.ChooseThread` | sel4_task/src/scheduler.rs:377-417 | the head of the highest queue, never a null head, or the idle thread |
| `Scheduler.Scheduler.RescheduleRequired` | sel4_task/src/scheduler.rs:421-429 | a pending target is queued before a new choice is demanded |
| `Scheduler.Scheduler.Schedule` | sel4_task/src/scheduler.rs:433-471 | the concrete scheduler refines the abstract one |
| `Scheduler.Scheduler.SetThreadState` | sel4_task/src/tcb.rs:796-799 | the state changes, and the current thread's stopping demands a new choice |
| `Scheduler.Scheduler.PossibleSwitchTo` | sel4_task/src/scheduler.rs:501-510 | target or queue, as the abstract operation says |
| `Scheduler.Scheduler.SetPriority` | sel4_task/src/tcb.rs:137-147 | refines the abstract change of priority, including leaving the old queue first |
| `Scheduler.Scheduler.Suspend` | sel4_task/src/tcb.rs:390-400 | stopped and off its queue |
| `Scheduler.Scheduler.Restart` | sel4_task/src/tcb.rs:404-412 | a stopped thread becomes ready, queued and a possible target |
| `Scheduler.Scheduler.TimerTick` | sel4_task/src/scheduler.rs:514-536 | refines the abstract tick |
| `Scheduler.Scheduler.HandleYield` | kernel/src/syscall/mod.rs:217-221 | to the back of its queue, then a new choice |
| `IpcSpec.OneQueueOnly` | sel4_ipc/src/endpoint.rs:148-259 | no thread is in two queues |
| `IpcSafety.SendOk` | sel4_ipc/src/endpoint.rs:148-206 | the assertions of send on queue and reply slots and those of setting up the caller hold, and the whole invariant is kept |
| `IpcSafety.ReceiveOk` | sel4_ipc/src/endpoint.rs:214-259 | with an empty caller slot the assertions of receive hold, and the invariant is kept |
| `IpcSafety.SignalOk` | sel4_ipc/src/notification.rs:143-180 | a waiting notification never has an empty queue, the endpoint that a bound thread is taken from is not idle, and the invariant is kept |
| `IpcSafety.ReceiveSignalOk` | sel4_ipc/src/notification.rs:188-210 | waiting for a signal keeps the invariant |
| `IpcSafety.CancelAllOk` | sel4_ipc/src/endpoint.rs:92-108 | restarting every waiter keeps the invariant |
| `IpcSafety.CancelBadgedExact` | sel4_ipc/src/endpoint.rs:113-138 | exactly the senders with the badge are restarted; everybody else keeps state and membership |
| `IpcSafety.WithBadgeKeepsOrder` | sel4_ipc/src/endpoint.rs:113-138 | of two senders that stay, the one ahead stays ahead |
| `ReplySafety.DoReplyOk` | sel4_ipc/src/transfer.rs:303-320 | every reply capability names a thread blocked on a reply, so the assertion holds, and replying keeps the invariant |
| `ReplySafety.CancelIpcOk` | sel4_ipc/src/transfer.rs:62-85 | the assertion that the endpoint is not idle holds; afterwards the thread is in no queue and no reply capability names it |
| `ReplySafety.SuspendThreadOk` | kernel/src/syscall/invocation/invoke_tcb.rs:140-145 | suspension ends inactive, and keeps the invariant exactly if the thread was not the pending switch target |
| `ReplySafety.ResumeThreadOk` | kernel/src/syscall/invocation/invoke_tcb.rs:148-153 | resumption ends with a thread that is not stopped and the invariant kept, so its master reply capability is there for the next call |
| `ReplySafety.MoveReplyOk` | kernel/src/syscall/invocation/invoke_cnode.rs:86-107 | a reply capability saved in an empty slot that is nobody's caller slot keeps the invariant, so it is still the only one for its thread |
| `ReplySafety.BindOk` | kernel/src/syscall/utils.rs:129-132 | an accepted binding keeps the invariant |
| `ReplySafety.UnbindOk` | kernel/src/syscall/utils.rs:135-146 | releasing a binding keeps the invariant |
| `IpcSafety.CreateOk` | kernel/src/syscall/invocation/invoke_untyped.rs:68-92 | a thread, endpoint or notification that retype has just made, stopped or idle, joins with the whole invariant kept |
| `IpcRuns.EveryRunKeepsIpcConsistent` | kernel/src/syscall/mod.rs:48-100 | over every run of system calls, fast calls with a single receiver, faults, interrupts and newly made threads and objects: a thread is in an object's queue exactly if blocked on it in the matching mode, objects are idle exactly when nobody waits, replies are unique and answered by blocked threads, receivers have empty caller slots, scheduling is settled |
| `IpcRuns.FastCallOk` | kernel/src/kernel/fastpath.rs:194-266 | a call through the fast path leaves what the slow path leaves, so it is a step of these runs |
| `IpcRuns.RunIsMoves` | kernel/src/syscall/mod.rs:48-100 | a run of kernel entries is the same as its operations one by one with a schedule and activate after each entry, so that what every move keeps holds of every run |
| `Waits.WaitOrigin` | sel4_ipc/src/endpoint.rs:148-259 | whoever waits after an operation waited before with the same record, or is the current thread and waits with exactly what the operation was given: badge, rights, call |
| `Rendezvous.ReceivedIsSent` | sel4_ipc/src/endpoint.rs:214-259 | over every run: a message that a receive takes is the one its sender gave when it began to wait, badge included, and the sender is left waiting for a reply, stopped or running as its own operation said; the reply carries the receiver's right to grant |
| `Rendezvous.DeliveredWhereAsked` | sel4_ipc/src/endpoint.rs:148-206 | over every run: a message is delivered only to a thread that asked for one on this endpoint and has waited since; a caller's reply carries the right to grant that its receive was given |
| `Rendezvous.SendIsSettled` | sel4_ipc/src/endpoint.rs:148-206 | a message is delivered, or its sender waits with it; a sender that would not wait changes nothing |
| `Rendezvous.FaultIsSettled` | kernel/src/syscall/mod.rs:109-149 | a fault reaches its handler or waits for it |
| `Rendezvous.ReceiveIsSettled` | sel4_ipc/src/endpoint.rs:214-259 | without a pending signal a receiver takes a message, waits, or comes back with badge 0 |
| `Rendezvous.AwaitIsSettled` | sel4_ipc/src/notification.rs:188-210 | a pending signal is taken and leaves none; without one the thread waits, or comes back with badge 0 |
| `Rendezvous.NewIsBlank` | kernel/src/syscall/invocation/invoke_untyped.rs:68-92 | nobody waits for a new object, nothing is pending on it, and a new thread is stopped, unbound and without a fault |
| `Rendezvous.AnswerIsSettled` | sel4_ipc/src/transfer.rs:303-320 | a reply consumes its capability and no other, and its caller runs, restarts or stops as fault and label say |
| `FirstCome.StepKeepsQueue` | sel4_task/src/tcb_queue.rs:17-42 | no operation lets a waiting thread pass another; who joins stands at the end |
| `FirstCome.FirstComeFirstServed` | sel4_ipc/src/endpoint.rs:148-259 | over every run: of two threads that wait for an object the one that came first stands ahead for as long as both wait, and no operation serves the other one |
| `FirstCome.OnlyFirstIsServed` | sel4_ipc/src/notification.rs:143-180 | who leaves a queue is the first there, is cancelled, or sleeps while its bound notification is signalled |
| `Faults.FaultAfter` | sel4_ipc/src/transfer.rs:62-85 | after any operation a thread has a fault exactly if it had one and was not cancelled while waiting for a reply, or just faulted |
| `Faults.CarriedArrives` | sel4_ipc/src/transfer.rs:289-320 | the message that an operation carries, read off the state before it, is in the receiver's badge register after it |
| `Faults.MessageIsFaultIff` | sel4_ipc/src/transfer.rs:289-320 | over every run of kernel entries a message is a fault message exactly if its sender just faulted or has a fault open: one that was recorded and not ended since by cancelling the thread while it waits for a reply, answered or not |
| `Faults.AnsweredFaultIsSentAgain` | sel4_ipc/src/transfer.rs:289-320 | over every run of kernel entries: after a thread's fault was answered, every message the thread sends is a fault message until it is cancelled while it waits for a reply |
| `IpcShortfalls.FaultSentAgainReached` | sel4_ipc/src/transfer.rs:289-320 | a run from boot: a thread faults, its handler receives and answers, and the next message of the thread is the fault once more |
| `ReplySlots.MasterPlace` | sel4_ipc/src/transfer.rs:75-82 | a master is in its thread's reply slot; the slot behind it is the thread's reply capability, and the only one there is |
| `ReplySlots.InsertStep` | sel4_task/src/tcb.rs:419-436 | inserting behind the master of a thread that waits for no reply keeps the invariant of the capability space and adds exactly this reply |
| `ReplySlots.CancelStep` | sel4_ipc/src/transfer.rs:75-82 | deleting the MDB-next of the master removes exactly the replies for this thread and keeps the invariant |
| `ReplySlots.MasterStep` | sel4_task/src/tcb.rs:380-386 | setting up the master keeps the invariant and adds exactly this master |
| `ReplySlots.MoveStep` | kernel/src/syscall/invocation/invoke_cnode.rs:86-107 | saving a reply capability in another slot keeps the invariant and moves exactly this reply |
| `ReplyEffects.StepFollows` | sel4_ipc/src/endpoint.rs:148-259 | for every kernel operation the replies and masters of the IPC model change exactly as the slots do |
| `ReplyEffects.OnlyResumeStarts` | kernel/src/syscall/invocation/invoke_tcb.rs:148-153 | no other operation makes a stopped thread anything but stopped |
| `ReplyRuns.StepKeepsCoupled` | sel4_ipc/src/transfer.rs:62-85 | every kernel operation, performed on slots as the code does it, keeps threads, replies and derivation lists in step |
| `ReplyRuns.ChangeKeepsOk` | sel4_cspace/src/cte.rs:195-333 | so does a change of the capability space that keeps its invariant, makes no reply and leaves started threads their slots and masters, which SystemRuns.SpaceIsChange shows of every operation on capabilities |
| `SystemRuns.SpaceIsChange` | kernel/src/interfaces_impl/cspace.rs:136-235 | after the threads whose last capability went were suspended and the waiters of objects that went were woken, a deletion or revocation, like every other operation on capabilities, leaves every started thread its slots and master, and every reply a thread that waits for it |
| `SystemRuns.NextKeepsCoupled` | sel4_ipc/src/transfer.rs:62-85 | every kernel operation, every return to user level and every operation on capabilities keeps threads, replies and derivation lists in step |
| `SystemRuns.EveryRunLinksReplies` | sel4_ipc/src/transfer.rs:62-85 | over every run of kernel operations and operations on capabilities, deletion and revocation included, from any state in step: the replies of IPC are exactly the reply capabilities in slots, each the MDB-next of its thread's master, where cancel_ipc looks; each names a thread blocked on it and on no other; queues are exact |
| `BootSystem.Start` | kernel/src/boot/root_server.rs:126-187 | threads, IPC and capability space start in step |
| `BootSystem.EveryRunFromBootLinksReplies` | kernel/src/boot/mod.rs:144-165 | so the last result holds of every run from boot, deletions and revocations included |
| `SystemOps.PerformInSystem` | kernel/src/syscall/invocation/invoke_cnode.rs:15-146 | every operation on looked-up slots, deletion and revocation included, is an event of these runs: the threads, waiters and bindings that finaliseCap sees to are computed from the slots, and their operations are admissible; only a deletion can stop, next to the first slot of a zombie |
| `CapTransfer.SetTransferCaps` | sel4_ipc/src/transfer.rs:87-130 | exactly which badges are handed over and which one capability, with its rights and badge, is derived into the receive slot; the assertion of the insertion fails exactly if the transfer comes to insert and the receive slot is in use |
| `SpaceShortfalls.TransferToUsedSlot` | sel4_ipc/src/transfer.rs:100-122 | a concrete space and message for which it fails |
| `SpaceShortfalls.SwapTearsList` | sel4_cspace/src/cte.rs:410-448 | a concrete space, meeting every invariant, in which swapping two slots leaves no list |
| `SpaceShortfalls.RotateNeighbours` | kernel/src/syscall/invocation/invoke_cnode.rs:110-146 | the same for a rotation |
| `SpaceShortfalls.EverydayLayoutIsStuck` | sel4_cspace/src/cte.rs:244-287 | the same space meets every invariant, and deleting one of its CNodes begins with a swap of neighbours |
| `SpaceShortfalls.DeleteOuter` | sel4_cspace/src/cte.rs:195-205 | that deletion stops there |
| `Signals.StepBalanced` | sel4_ipc/src/notification.rs:143-210 | in every operation the bits pending or sent are the bits delivered or still pending; a delivery by a wait leaves nothing pending, a delivered signal leaves what was pending, and whoever receives bits has them in the badge register |
| `Signals.SignalsConserved` | sel4_ipc/src/notification.rs:143-210 | over every run of kernel entries, by whatever threads: the bits pending at first and all bits sent are the bits delivered and those still pending |
| `Signals.SignalsExactlyOnce` | sel4_ipc/src/notification.rs:143-210 | over every run of kernel entries each signal, numbered, is in exactly one handover or still waits; each handover carries exactly the or of its signals, and the pending word is exactly the or of those that wait |
| `Bindings.StepHeard` | sel4_ipc/src/transfer.rs:275-287 | no operation except a new binding lets a thread sleep in a receive while its notification has a signal pending |
| `Bindings.NoSleepThroughSignals` | sel4_ipc/src/notification.rs:143-158 | the same over every run of kernel entries without an unsafe binding |
| `Bindings.BindHeardIff` | kernel/src/syscall/invocation/decode/decode_tcb_invocation.rs:558-610 | a new binding preserves that exactly if it does not join an active notification to a thread asleep in a receive |
| `IpcShortfalls.SleepingReceiverReached` | kernel/src/syscall/invocation/decode/decode_tcb_invocation.rs:558-610 | a run from boot after which a thread sleeps in a receive with a signal pending for it |
| `Bindings.BindOneToOneIff` | kernel/src/syscall/invocation/decode/decode_tcb_invocation.rs:558-610 | bindings stay one to one exactly if the notification had no bound thread, which the decoder does not check |
| `IpcShortfalls.SecondBindingReached` | kernel/src/syscall/invocation/decode/decode_tcb_invocation.rs:558-610 | a run from boot after which two threads name one notification |
| `Bindings.UnbindOneToOne` | kernel/src/syscall/utils.rs:135-146 | releasing keeps bindings one to one |
| `Ipc.IpcState.EpAppend` | sel4_task/src/tcb_queue.rs:17-27 | one thread more at the tail of one object's queue, all other queues as before |
| `Ipc.IpcState.EpDequeue` | sel4_task/src/tcb_queue.rs:30-42 | one thread less in one object's queue, all other queues as before |
| `Ipc.IpcState.SendIpc` | sel4_ipc/src/endpoint.rs:148-206 | pointer queues, scheduler and capability slots refine the abstract send, with exactly the effect on reply slots that the runs assume |
| `Ipc.IpcState.ReceiveIpc` | sel4_ipc/src/endpoint.rs:214-259 | refines the abstract receive, with the bound notification looked at first, and its effect on reply slots |
| `Ipc.IpcState.SendSignal` | sel4_ipc/src/notification.rs:143-180 | refines the abstract signal in all three states |
| `Ipc.IpcState.ReceiveSignal` | sel4_ipc/src/notification.rs:188-210 | refines the abstract wait |
| `Ipc.IpcState.CancelIpc` | sel4_ipc/src/transfer.rs:62-85 | refines the abstract cancellation; for a thread waiting for a reply by deleting the slot behind its master |
| `Ipc.IpcState.CancelAll` | sel4_ipc/src/endpoint.rs:92-108 | the walk along the links restarts the whole queue in order and leaves the object idle |
| `Ipc.IpcState.CancelBadgedSends` | sel4_ipc/src/endpoint.rs:113-138 | the walk that unlinks while it goes leaves exactly the other senders, in order |
| `Ipc.IpcState.DoReply` | sel4_ipc/src/transfer.rs:303-320 | refines the abstract reply, deleting the reply capability's slot |
| `Ipc.IpcState.SetupCallerCap` | sel4_task/src/tcb.rs:419-436 | refines the abstract set-up by an insertion behind the sender's master; its assertions hold |
| `Ipc.IpcState.CompleteSignal` | sel4_ipc/src/transfer.rs:275-287 | true exactly if the bound notification is active, which is then taken |
| `Ipc.IpcState.NewObject` | kernel/src/syscall/invocation/invoke_untyped.rs:68-92 | a new thread, endpoint or notification joins the pointer queues and the scheduler as the abstract step says |
| `ReplyMdb.NextOfMasterIsReply` | sel4_ipc/src/transfer.rs:75-82 | the slot behind a master is its thread's reply capability, and the only one there is |
| `ReplyMdb.InsertReplyKeepsPairs` | sel4_task/src/tcb.rs:419-436 | inserting behind a master that ends its list keeps every reply directly behind its master |
| `ReplyMdb.RemoveKeepsPairs` | sel4_cspace/src/cte.rs:219-241 | so does deleting anything but a master that still has its reply |
| `ReplyMdb.FastReplyIsInsert` | kernel/src/kernel/fastpath.rs:249-256 | the fast path's hand-made links are, slot by slot, those of the ordinary insertion |
| `ReplySlots.FastInsertReply` | kernel/src/kernel/fastpath.rs:245-256 | its four writes keep the invariant of the capability space and have exactly the effect of setup_caller_cap |
| `CallPath.FastIsSlow` | kernel/src/kernel/fastpath.rs:194-266 | whenever the fast path is taken its effect on threads, queues, replies and current thread is that of send, schedule and activate |
| `CallPath.FastIffReceiverNext` | kernel/src/kernel/fastpath.rs:194-232 | the fast path is there exactly for the calls after which the slow path would run the receiver next |
| `Fastpath.FastDequeueIff` | kernel/src/kernel/fastpath.rs:235-241 | its own unlinking leaves a well-formed queue exactly if there was a single receiver |
| `Fastpath.FastDequeueTearsQueue` | kernel/src/kernel/fastpath.rs:235-241 | a concrete queue of two receivers that it leaves malformed |
| `Fastpath.FastpathCall` | kernel/src/kernel/fastpath.rs:194-266 | exactly when it is taken; not taken changes nothing; taken links the caller's reply as setup_caller_cap does, leaves a well-formed queue exactly if a single receiver waited, and then the state is that of the slow path |
| `Fastpath.FastpathSyscall` | kernel/src/kernel/fastpath.rs:194-266 | the same from the capability address on: the outcome is that of the slow path on the capability that the slow lookup finds |
| `Messages.CopyMrs` | sel4_task/src/tcb.rs:646-668 | exactly which registers and which words of the buffer arrive, and how many, with and without buffers |
| `Messages.ShortIff` | kernel/src/kernel/fastpath.rs:108-112 | the fast path's test on the low nine bits means at most four words and no extra capabilities |
| `Messages.ShortMessagesAgree` | kernel/src/kernel/fastpath.rs:108-119 | for every short message the fast copy and the slow transfer leave the receiver the same registers, badge and message information included, and neither touches the buffer |
| `Lookup.ResolveAddressBits` | sel4_cspace/src/cte.rs:490-537 | the slow lookup computes the reference walk, wrapped shift included |
| `LookupPaths.SpelledIsFound` | sel4_cspace/src/cte.rs:490-537 | an address that spells a path through CNodes, guard and index by guard and index, is looked up as the end of the path with exactly the bits left over |
| `LookupPaths.FoundIsSpelled` | sel4_cspace/src/cte.rs:490-537 | every address that is found spells such a path |
| `Lookup.LookupFp` | kernel/src/kernel/fastpath.rs:21-55 | the fast lookup returns what the slow one finds, and null exactly where that faults |
| `Lookup.ShiftsCutField` | kernel/src/kernel/fastpath.rs:36-42 | shifting left and right cuts out the same bits as dividing and masking |
| `Lookup.GuardsFit` | sel4_cspace/src/cap/mod.rs:124-135 | changing a CNode's guard always leaves one that fits its size, as the comparison of both lookups needs |
| `Lookup.GuardTestsAgreeIff` | kernel/src/kernel/fastpath.rs:36-40 | the guard comparisons of the fast and the slow lookup agree on every address exactly if a guard of size 0 is 0 |
| `BootUntyped.CreateUntypedsForRegion` | kernel/src/boot/untyped.rs:81-112 | the blocks are aligned, of allowed size, each the largest that may start where it does, one after the other, and cover exactly the 16-byte units inside the region |
| `BootUntyped.NextBitsFit` | kernel/src/boot/untyped.rs:88-97 | the next block fits and is aligned, and is below a unit only at the end or inside a unit |
| `BootUntyped.NextBitsMost` | kernel/src/boot/untyped.rs:88-97 | no larger block is allowed, aligned and fits there |
| `BootBlocks.ProvideBlocks` | kernel/src/boot/untyped.rs:114-172 | the capabilities made are blocks of the region, apart from all earlier ones and never more than the boot information holds; it fails exactly if a block of ordinary memory lies outside the window; with room for all, each block gets its capability |
| `BootBlocks.CreateUntypeds` | kernel/src/boot/untyped.rs:13-79 | device memory between the reserved regions, reused memory and free memory give blocks that are all apart |
| `BootMap.PrepareMemory` | kernel/src/boot/mm.rs:25-116 | from the lists of available and reserved memory through the scan, the placement of the initial thread's objects and the untyped blocks: when these succeed, no reserved region spills and no available regions overlap, the result is the memory BootSpace.Boot starts from |
| `BootRegions.MergeRegions` | kernel/src/boot/mm.rs:239-254 | no two regions touch afterwards and the addresses are the same |
| `BootRegions.ReserveRegion` | kernel/src/boot/mm.rs:196-237 | the region's addresses are added to any table, overlapping or not; refused exactly when the region is not empty, the table is full and nothing touches it |
| `BootFreemem.ScanExactIff` | kernel/src/boot/mm.rs:53-106 | for available regions in any order, the scan yields exactly available minus reserved if and only if it is never done with a reserved region that meets a later available one: one that ends before an available region does, or meets it with nothing of it free right below |
| `BootFreemem.AscendingBad` | kernel/src/boot/mm.rs:53-106 | with ascending available regions that takes a reserved region which reaches from one available region, of which nothing right below it is free, into a later one |
| `BootFreemem.InitFreemem` | kernel/src/boot/mm.rs:25-116 | for all lists: exactly when it refuses, panics or runs out of room; the free addresses are exactly available minus reserved if and only if no reserved region spills; the free regions are ascending if the available ones are, and disjoint if they are; the table has exactly the free and the reserved addresses, and is gap-separated if and only if no reserved region spills and the free regions are disjoint |
| `BootFreemem.SwallowedRegionSpills` | kernel/src/boot/mm.rs:68-76 | a concrete layout for which reserved memory ends up free |
| `BootFreemem.WrongOrderSpills` | kernel/src/boot/mm.rs:141-143 | available regions in the wrong order, which is only reported, for which reserved memory ends up free |
| `RootServer.ExtraBiBits` | kernel/src/boot/mod.rs:58-69 | 0 exactly for no extra boot information, otherwise the least power of two that holds it and at least a page |
| `RootServer.TablesNeeded` | kernel/src/boot/utils.rs:48-61 | one page table for each block that the initial thread's region touches, no more and no fewer |
| `RootServer.Server.CreateObjects` | kernel/src/boot/root_server.rs:330-378 | for every number of tables and size of extra boot information no allocation assertion fails, and the objects, each aligned to its size, tile the memory exactly |
| `RootServer.CarveConserves` | kernel/src/boot/root_server.rs:250-287 | the old free addresses are the objects' and the new free ones, with none in both |
| `RootServer.CarveFree` | kernel/src/boot/root_server.rs:250-287 | the loop over free memory finds the uppermost region that fits, if any, splits it at an aligned place and keeps all other regions; its assertions hold |
| `RootServer.Server.MemInit` | kernel/src/boot/root_server.rs:250-378 | together: for every layout of free memory and every extra boot information, old memory is lower free part, objects and upper free part |
| `BootState.BootKernelOk` | kernel/src/boot/mod.rs:144-165 | with any freshly created threads and objects, the booted kernel meets the scheduling and IPC invariants, its bindings are one to one and no signal is slept through |
| `BootState.EveryRunFromBoot` | kernel/src/boot/root_server.rs:126-187 | the first schedule and activate enter the initial thread, and after every run from there queues and replies are exact and scheduling is settled |
| `Scheduler.Scheduler.constructor` | kernel/src/boot/mod.rs:144-165 | empty queues, a cleared bitmap and the initial thread as switch target represent the booted abstract scheduler |
| `Sv39.MadePteReads` | sel4_vspace/src/arch/riscv64/pte.rs:47-70 | an entry made for a frame with some right reads back as a leaf for that frame with exactly those rights, for users, accessed and dirty |
| `VSpaces.MapKernelWindow` | sel4_vspace/src/arch/riscv64/pagetable.rs:88-131 | the kernel's tables entry by entry: memory as it is, and two root entries for the one table of the kernel image |
| `VSpaces.WindowIsKernel` | sel4_vspace/src/arch/riscv64/pagetable.rs:88-131 | these tables are graded by level with a free lower half, although two root entries lead to the same table |
| `VSpaces.CopiedOk` | sel4_vspace/src/arch/riscv64/pagetable.rs:148-157 | a root table with the kernel's entries copied into it shares no table of its own: every address space starts valid |
| `VSpaces.WindowForKernelOnly` | sel4_vspace/src/arch/riscv64/pagetable.rs:88-131 | no entry of the kernel's window is for users |
| `VSpaces.FreshShowsNothing` | sel4_vspace/src/arch/riscv64/pagetable.rs:148-157 | in a fresh address space no access from user level reaches anything: the kernel's window is there and out of reach |
| `VSpaces.VSpace.constructor` | sel4_vspace/src/arch/riscv64/pagetable.rs:148-157 | a new address space is a page of zeros with exactly the kernel's entries from index 2 on, and is valid |
| `VSpaces.VSpace.LookupPtSlot` | sel4_vspace/src/arch/riscv64/pte.rs:164-181 | the loop ends at the entry of the reference walk |
| `Sv39.WriteIsLocal` | sel4_vspace/src/arch/riscv64/pte.rs:85-88 | writing the entry an address of the lower half leads to changes the translation of exactly the addresses of its page, whatever tables the kernel's half shares |
| `Sv39.SameFromIsSamePage` | sel4_vspace/src/arch/riscv64/pte.rs:164-181 | sharing an entry means lying in the same page of that level's size |
| `VSpaces.VSpace.MapFrame` | kernel/src/syscall/invocation/decode/arch/riscv64.rs:279-334 | in every address space: mapped exactly if the range check passes and the walk ends at the frame's size on a free entry, or on the frame's own when it is mapped there; a first mapping takes nothing away; then every user access to the page goes to frame plus offset and every other as before, if and only if the address is below 2^38; the capability records the mapping |
| `VSpaces.VSpace.UnmapPage` | sel4_vspace/src/arch/riscv64/pagetable.rs:203-228 | removed exactly if mapped with that size to that frame; then no address of the page has a physical address and every other keeps its own |
| `VSpaces.VSpace.MapPageTable` | kernel/src/syscall/invocation/decode/arch/riscv64.rs:371-420 | accepted exactly if the capability is not mapped, the address is a user's and its walk ends above the last level on a free entry; a new table then leaves every translation as it was, and walks through that entry go one level further; the address space stays valid |
| `VSpaces.LinkKeepsUnshared` | kernel/src/syscall/invocation/invoke_mmu_op.rs:45-59 | linking a new table keeps every user's table below a single entry |
| `VSpaces.VSpace.UnmapPageTable` | sel4_vspace/src/arch/riscv64/interface.rs:45-69 | gives up at an entry that leads to a table, so that the address passes the same tables as before: a linked table stays linked |
| `VSpaces.UnmapUndoesMap` | sel4_vspace/src/arch/riscv64/pagetable.rs:203-228 | unmapping what was mapped restores the physical address of every address |
| `VSpaces.HighPageWraps` | kernel/src/syscall/invocation/decode/arch/riscv64.rs:279-334 | in a fresh address space two page tables and a frame are accepted at 2^39; afterwards address 0 reads the frame and 2^39 faults |
| `VSpaces.TableServesTwice` | sel4_vspace/src/arch/riscv64/interface.rs:45-69 | a table mapped at 0, unmapped and mapped at one gigabyte serves both gigabytes: each address of the first ends in the same entry as the one a gigabyte further |

## Left out

- The model is a single core with one domain on RISC-V: multiprocessor locking, IPIs, domain switching and the AArch64 variants are not modelled.
- Machine words are natural numbers; address arithmetic that would wrap around 2^64 is not modelled except where a lookup shifts, and badges are sets of bits.
- Message contents: registers and buffers of a message are modelled on their own (`Messages`); in the IPC steps, in CallPath.FastIsSlow and in Fastpath.FastpathCall only the badge register is. The extra capabilities of a message are a step of the runs on capabilities (SpaceRuns.Perform), not of the IPC step that carries them.
- Deleting the last capability to a frame, page table or ASID pool also takes it out of its address space; the capability space here leaves address spaces alone.
- Preemption points, the long-running-delete markers and the IRQ state tables are not modelled.
- ASID pools and the search for an address space by ASID are not modelled, nor are the wrong-type and wrong-ASID answers of the mapping decoders. Unmapping a page table that is no root is modelled from unmap_page_table on: its decoder (kernel/src/syscall/invocation/decode/arch/riscv64.rs:361-365) reads a lookup fault that is not there when the table is not the root of its address space.
- fastpath_reply_recv is not modelled; the call fast path is.
- Scheduling domains' time, the order of TCB debug lists and FPU state are not modelled.
- Deletion.ReduceBySwap: stops with AdjacentSwap when the zombie and its first slot are neighbours in a list, because the swap then no longer leaves a list (Mdb.SwapIsListIff) and what the kernel does next is outside any invariant on lists.
- Deletion.DeleteAll: promises an empty slot only when it ends with Done, for the same reason. That a clear space is enough to end so is one direction; the other is stated for the first swap of a deletion, not for one reached after other capabilities have gone. The set of threads that wait for a reply is an input, as the thread states are not part of the capability space; a master may be deleted itself only when nobody waits on it, as the TCB it belongs to has been suspended by then.
- Revoke.RevokeSlot: is exact only for plain children; revoking an untyped may delete the slots of the containers below it, and there it says which slots may be emptied, not that each of them is.
- Mdb.CSpace.AddSlots: that new slots are zero is taken over from Retype.ResetUntyped, which says what is cleared; the bytes of memory are not part of the capability space.
- CNodeOps.CopyOrMint: the destination belongs to a CNode or TCB that a capability other than a zombie names, as for the other CNode operations and retype: the slot was looked up through such a capability.
- Retype.DecodeRetype: starts at the size check; the destination CNode capability found by lookup and the device flag are inputs.
- SpaceRuns.RunSpace: each operation is performed if its decoder's checks pass and skipped otherwise; that lookup leads to slots of CNodes is one of them; the set of threads that wait for a reply does not change during a run (the runs of SystemRuns have it change).
- BootSpace.Boot: of the initial capabilities the root CNode's, the initial thread's, its CSpace root and master and the untyped ones are written; domain, IRQ, ASID and frame capabilities, boot information and the device tree are left out. The thread's capability is written before its master here and after it in the source; the slots end the same.
- Scheduler.Scheduler.Restart: setup_reply_master is not part of the scheduler's data; ReplySlots.MasterStep and the step ResumeTcb of the runs have it.
- Fastpath.FastpathCall: the test on message length and pending fault and the test on the receiver's page-table root are inputs; falling back is modelled as returning without effect, since the source's call of the slow path does not come back.
- Ipc.IpcState.SendIpc: the sender is a thread that runs, and every started thread has its TCB's slots, as in every state of the runs.
- SystemRuns.EveryRunLinksReplies: suspending the threads, waking the waiters and releasing the bindings that finaliseCap sees to is one step with the deletion that causes it and comes before it, in any order; in the source it happens where the last capability goes. A thread or object whose memory is used again for a new one at the same address keeps its fields in the model.
- SystemOps.PerformInSystem: no thread is about to be switched to, which holds at the beginning of every kernel entry; otherwise suspending that thread is what SchedulerRuns.StepMid says it is.
- Signals.SignalsConserved: speaks of a notification for as long as it exists; destroying the object is not an operation.
- BootMap.PrepareMemory: the memory lies in the kernel window, above a base that is not 0, and the reused region is one of the reserved ones; the slots used at boot before the untyped capabilities are the ones of BootSpace.Boot. Device memory is not checked against the end of the address space.
- BootBlocks.ProvideBlocks: a root CNode without a slot left, which the source reports, is not modelled: the limit on untyped capabilities is smaller.
- BootUntyped.CreateUntypedsForRegion: computes the blocks; the limits on the number of untyped capabilities and on the kernel window are in BootBlocks.ProvideBlocks.
- RootServer.Server.MemInit: when no region fits, the source's loop counter wraps below 0 and the kernel reports the failure; the model reports it without the wrapped read.
- The bit layout of capabilities, thread states and endpoints, and what is truncated there, is not modelled.
- The label of a fault reply, which decides whether the thread restarts, is an input.
- IpcRuns.EveryRunKeepsIpcConsistent: a fast call is a step when a single receiver waits and the caller has no fault recorded, as the source tests. Objects are made and not destroyed in these runs; destroying them is in SystemRuns.
- VSpaces.VSpace.MapPageTable: the new table is a page of zeros, as it was created; for one that is already linked it gives the written entry, and validity is kept only for one that is not.
- VSpaces.VSpace.UnmapPageTable: what memory outside the tables holds, where the walk can lead through a leaf entry, is an input; a write there is left out.
