# PandOS: the nucleus and the pager, verified

PandOS is a small layered kernel for the uMPS3 machine. This project holds a Dafny model of its two
hard parts and proofs of what they are for.

**The nucleus** (phases 1 and 2). Process control blocks come from a static table and are threaded by
index into a free list, circular queues and a process tree; semaphores with waiters have a descriptor on
a sorted list. On top sit the system calls, the interrupts and the scheduler.

- `Pcbs` and `Asls` are the tables of phase 1, updated in place, proved to stand for sequences, a tree and
  a map from addresses to queues.
- `KernelModel`, `KernelSteps` and `KernelKill` say what every event does to that abstract state;
  `KernelEffects` says it a second time, of lists, cells and counters alone, proves the two the same, and that
  nothing is left open. `KernelSafety`, `KernelRuns`, `KernelTheorems`, `KernelBalance`, `KernelFairness`,
  `KernelMutex` and `KernelDevices` prove what holds over all runs from boot: the partition of the PCBs, both
  counters, the semaphore values and where their units went, one tree, exact termination, the scheduler's verdict,
  sleep until woken, bounded waiting, mutual exclusion, and no lost wakeup for a device behind its mutex.
- `Nuclei` is phase 2 over those tables. Every handler is proved to make the abstract step, so the theorems
  about runs hold of the linked structures in memory. `Billing` and `Accounts` keep the books of CPU time,
  `Registers` follows v0, in which the kernel answers, through blocking, preemption and dispatch, and
  `DeviceLines` finds out which interrupt it is.

**The pager** (phase 3). Sixteen frames are shared by eight processes with private page tables, a TLB and
one flash device each; the page fault handler blocks on the device half way while the others go on.

- `PageWords` has the words of the hardware bit for bit, `SwapPool` the swap table and the choice of a frame.
- `PagerModel` is a machine in which loads, stores, TLB refills, page faults, single words of a device
  transfer, the phases of the handler, and the test and the store by which an ending process frees frame 0
  interleave freely. That one fault at a time is served is what `KernelMutex` proves of `swap_pool_sem`.
  `PagerSafety` and `PagerTheorems` prove that it is one flat memory per process, with coherent tables throughout,
  in every run in which that store comes at a harmless moment, and which moments these are; `PagerFailure` gives
  a run in which it comes at another and a process loses a page. `PagerReplacement` proves that the page evicted
  is the one resident longest. `PagerRuns` puts runs together.
- `Pagers` is the code of the handlers, updating arrays and registers in place, each piece that is not
  interrupted being proved to be a step of that machine.

`Layout`, `Places` and `Seqs` hold what these share. MAXPROC, the address of the device semaphores and
the number of TLB entries are symbolic: the results hold for all of them.

What is taken from outside: a time slice ends only while a process runs, never in a WAIT (the code would follow
a null `current_proc` at phase2/interrupts.c:14); the clock only moves forward and otherwise reads anything; the slot of a TLB
refill, the order of events, v0 of whoever is interrupted, the registers behind an interrupt and the contents of
RAM and flash at the start are arbitrary.

The premises of the theorems are met by the code's own set-up: `Nuclei.Nucleus.BootMachine` ends in the state the
runs of the nucleus start from, `Pagers.Pager.constructor` in the one the runs of the pager start from.

Where code and comments disagree the model follows the code. The comment above `get_next_swap_index`
(phase3/pager.c:33-36) promises the first free frame, and the code returns the first one in cyclic order
from the frame after the last: `SwapPool.LowestIffNoneBefore` says exactly when they agree. The comment
on `mark_all_unoccupied` (phase3/pager.h:17-20) promises that all frames of a process become free, and the
code tests the owner of frame 0 on every turn of its loop: `SwapPool.MarksAllIffOnlyFrameZero` says exactly
when that is enough.

One promise of the pager does not hold of all its runs. `mark_all_unoccupied` (phase3/pager.c:345-356) takes no mutex
and masks nothing, so an ending process may be preempted between its test of entry 0 and the store, or come while the
handler is about to read that entry. `PagerSafety.MarkIsSafeIff` says exactly when the store does no harm, and
`PagerFailure.FlatFails` what can happen otherwise.

## Model

| member | source | states |
|---|---|---|
| `Pcbs.PcbTable.constructor` | phase1/pcb.c:13-25 | every PCB is on the free list, the last of the table first, with no relatives |
| `Pcbs.PcbTable.AllocPcb` | phase1/pcb.c:29-48 | takes the head of the free list and blanks it, every other PCB untouched; NULL and no change when the list is empty |
| `Pcbs.PcbTable.FreePcb` | phase1/pcb.c:51-58 | an unlinked PCB without relatives goes back to the head of the free list; all other links mean what they meant |
| `Pcbs.PcbTable.InsertProcQ` | phase1/pcb.c:147-160 | appends to the sequence the circular queue stands for; the new tail is returned; `p_next` and `p_prev` stay mutually inverse in this and every other list |
| `Pcbs.PcbTable.LinkBehind` | phase1/pcb.c:149-159 | exactly the links of the new element, the tail and the head are rewritten, in the empty queue and in any other |
| `Pcbs.PcbTable.Unlink` | phase1/pcb.c:68-85 | deletes the element from its queue and tells whether it was alone |
| `Pcbs.PcbTable.RemoveProcQ` | phase1/pcb.c:96-102 | pops the front, NULL exactly when the queue is empty |
| `Pcbs.PcbTable.OutProcQ` | phase1/pcb.c:106-135 | deletes exactly the given element at any position and keeps the order of the rest; NULL, and nothing in the table changed, if it is not in the queue |
| `Pcbs.PcbTable.HeadProcQ` | phase1/pcb.c:137-142 | the front element, which stays |
| `Pcbs.PcbTable.InsertChild` | phase1/pcb.c:171-187 | the child becomes the first of its parent's children; parent, child and both sibling links stay consistent in the whole tree |
| `Pcbs.PcbTable.RemoveChild` | phase1/pcb.c:189-204 | detaches the first child and only it |
| `Pcbs.PcbTable.OutChild` | phase1/pcb.c:206-237 | detaches the process from any position among its siblings, in all four cases; NULL and no change for an orphan |
| `Pcbs.PcbTable.Unhook` | phase1/pcb.c:212-235 | exactly the links of the child, its neighbours and its parent are rewritten, in all four cases |
| `Asls.Asl.constructor` | phase1/asl.c:49-65 | two sentinels in ascending order, all other descriptors free, nobody waiting |
| `Asls.Asl.SearchPrev` | phase1/asl.c:16-35 | the descriptor before that of the address, and NULL exactly when nobody waits on it |
| `Asls.Asl.InsertBlocked` | phase1/asl.c:101-123 | the process joins the tail of the address's waiters; the list stays strictly ascending; failure exactly when the address has no descriptor and MAXPROC others are in use, and then nothing changes |
| `Asls.Asl.Enlist` | phase1/asl.c:109-119 | a free descriptor enters the list at its place with the process as its only waiter, and the list stays ascending and complete |
| `Asls.Asl.Slide` | phase1/asl.c:111-113 | the place where a new descriptor keeps the list ascending |
| `Asls.Asl.RemoveBlocked` | phase1/asl.c:135-159 | pops the first waiter and clears its `p_semAdd`; the descriptor goes exactly when its queue empties |
| `Asls.Asl.OutBlocked` | phase1/asl.c:67-88 | deletes this waiter from the queue it is on, wherever it stands, and clears its `p_semAdd` |
| `Asls.Asl.Settle` | phase1/asl.c:146-154 | an emptied descriptor moves from the active to the free list and both stay disjoint and complete; any other is kept with its new tail |
| `Asls.Asl.HeadBlocked` | phase1/asl.c:90-99 | the first waiter, which stays; NULL exactly when there is none |
| `Asls.ActiveCount` | phase1/asl.c:49-65 | there are exactly as many active descriptors as addresses with waiters |
| `KernelSafety.CreateInv` | phase2/syscalls.c:32-65 | creation keeps the invariant and changes only the free list and the tail of the ready queue |
| `KernelSafety.KillStartInv` | phase2/syscalls.c:83-85 | the start of a termination keeps the invariant; the victim is alone on the scratch queue |
| `KernelSafety.KillChildInv` | phase2/syscalls.c:91-107 | dooming a child takes it off the one list it was on, whatever it was, and keeps the invariant, semaphore values included |
| `KernelSafety.KillFreeInv` | phase2/syscalls.c:110-111 | freeing a childless target keeps the invariant |
| `KernelSafety.BlockOnInv` | phase2/syscalls.c:133-140 | a P that blocks keeps the invariant, semaphore values included |
| `KernelSafety.WakeFirstCore` | phase2/syscalls.c:167-177 | waking moves exactly the first waiter to the tail of the ready queue |
| `KernelSafety.DispatchInv` | phase2/scheduler.c:9-39 | the scheduler moves at most the head of the ready queue, and keeps the invariant |
| `KernelKill.Kill` | phase2/syscalls.c:87-112 | the nested loop ends, by the measure standing, then doomed, then dying processes, with nobody half dead and the invariant intact |
| `KernelKill.KillExact` | phase2/syscalls.c:87-112 | from any point of the loop: exactly the doomed, the dying and their descendants become free, and every queue keeps the order of the others |
| `KernelKill.LoopIsExact` | phase2/syscalls.c:83-112 | the nested loop frees the caller and all its descendants, once each, and nobody else; survivors keep place, order and tree links; every semaphore of the processes gets back one unit per waiter it lost |
| `KernelRuns.DescriptorsSuffice` | phase2/syscalls.c:136 | while a process runs fewer than MAXPROC semaphores have waiters, so `insertBlocked` never fails and its PANIC is unreachable |
| `KernelRuns.StepSound` | phase2/exceptions.c:11-37 | every system call and interrupt keeps the invariant, leaves no termination half done, and leaves a status that is right |
| `KernelRuns.DispatchSound` | phase2/scheduler.c:9-39 | after the scheduler the invariant holds and its verdict agrees with counters and queues |
| `KernelRuns.DrainExact` | phase2/interrupts.c:31-42 | the draining loop empties the timer's queue into the ready queue in order, counts each process once, and touches no other list |
| `KernelTheorems.BootSound` | phase2/initial.c:30-91 | what initKer and the first dispatch leave satisfies the invariant |
| `KernelTheorems.BootState` | phase2/initial.c:30-91 | at the start the last PCB of the table runs, alone and without relatives, the others are free, the one before it first, and both counters say so |
| `KernelTheorems.Run` | phase2/exceptions.c:11-37 | the invariant holds after any number of events |
| `KernelTheorems.EveryRun` | phase2/ker_exports.h:28-41 | in every reachable state each PCB is in exactly one list, `process_count` is MAXPROC minus the free PCBs, `process_sb` counts the PCBs blocked inside `dev_sem`, and every other semaphore has max(0, -value) waiters |
| `KernelTheorems.OneTree` | phase1/pcb.c:171-237 | a process is alive if and only if it descends from the root, which is alive while anybody is |
| `KernelTheorems.LivingDescendFromBoot` | phase2/initial.c:30-91 | in every run from boot the living are the boot process, as long as anybody lives, and exactly its descendants |
| `KernelTheorems.CellSound` | phase3/init_uproc.c:94-101 | a process may set a semaphore without waiters to any value from 0 up, as `test()` and `init_pager` do, and every result about runs goes on from there |
| `KernelTheorems.RootEndsEverything` | phase2/syscalls.c:75-116 | when the boot process terminates nobody is left and the scheduler halts |
| `KernelTheorems.VerdictIsExact` | phase2/scheduler.c:12-38 | run, halt, wait and panic, each if and only if: somebody is ready; nobody lives; nobody is ready but somebody sleeps on a device; somebody lives and all sleep on semaphores that are not a device's |
| `KernelTheorems.DeadlockIsFinal` | phase2/scheduler.c:34-38 | after the panic no clock or device interrupt could make anybody ready |
| `KernelEffects.StepEffect` | phase2/exceptions.c:11-37 | each of the ten events has its effect, said of lists, cells, counters and tree only: who moves from where to where and to which end, which cell changes by how much, who runs next, and that nothing else changes |
| `KernelEffects.EffectDetermines` | phase2/exceptions.c:11-37 | that leaves nothing open: two states with the effect of the same event differ at most in the order of the free list |
| `KernelEffects.TerminationIsExact` | phase2/syscalls.c:75-116 | SYS2, and every call the kernel answers with it, frees exactly the caller and its descendants, leaves all others in their places, order and families but for the first ready one, which runs, lowers the count by their number and refunds one unit per waiter lost |
| `KernelBalance.CellMoves` | phase2/syscalls.c:128-184 | a P lowers its cell by exactly 1 and a V raises it by exactly 1, whatever its value; SYS5 and the device interrupt do so with the cell of the device; no other event touches it but a termination, which gives back its waiters' units |
| `KernelBalance.Balance` | phase2/syscalls.c:128-184 | over every run the final value of a semaphore is the initial one plus V's minus P's plus the waiters that were terminated; so no unit is lost or made, for the cells of devices likewise |
| `KernelBalance.SleepsUntilWoken` | phase2/syscalls.c:128-143 | whoever sleeps on a semaphore sleeps there in every later state, until an event wakes somebody on it or kills the sleeper |
| `KernelBalance.ClockSleepsUntilTick` | phase2/syscalls.c:245-252 | the caller of SYS7 is asleep at once, and neither ready nor running before the next tick, whatever happens |
| `KernelTheorems.TickExact` | phase2/interrupts.c:19-52 | all who waited for the clock are at the tail of the ready queue in their order, `process_sb` fell by their number, the semaphore is 0 and has no waiter left |
| `KernelTheorems.DeviceExact` | phase2/interrupts.c:101-120 | a device interrupt wakes the first waiter of the device's own semaphore, or nobody, and the semaphore rises by one either way |
| `KernelTheorems.VFindsWaiter` | phase2/syscalls.c:157-184 | a V finds a waiter if and only if it leaves the value at 0 or below, and wakes the first |
| `KernelFairness.ReadyAdvances` | phase2/scheduler.c:12 | every call of the scheduler moves a ready process one place forward and no event moves it back |
| `KernelFairness.ReadyIsServed` | phase2/scheduler.c:12 | a ready process with n before it runs, or is terminated, within n + 1 calls of the scheduler, whatever else happens |
| `KernelFairness.WaiterAdvances` | phase2/syscalls.c:163-178 | every V moves a waiter one place forward and no event moves it back |
| `KernelFairness.WaiterIsServed` | phase2/syscalls.c:163-178 | a process with n before it on a semaphore is released, or terminated, within n + 1 V operations on it |
| `KernelDevices.SameCell` | phase2/interrupts.c:102-104 | the interrupt handler and SYS5 select the same semaphore exactly for the same device or terminal half |
| `KernelDevices.StepGuarded` | phase3/pager.c:119-130 | every event keeps mutex, device semaphore, owner and waiter in agreement, whether or not it concerns the device |
| `KernelDevices.InFlightIffWaiting` | phase3/pager.c:116-132 | from any state of a run in which the mutex is 1 and the device idle: at most one process sleeps on it, its semaphore is minus the number of commands issued and not yet answered, and a command is in flight exactly while the owner of the mutex sleeps there, unless that owner was terminated |
| `KernelDevices.BootIsIdle` | phase3/init_uproc.c:94-101 | every device is idle after boot, so setting its mutex to 1 is where such a run may begin |
| `KernelDevices.MutexExcludes` | phase2/syscalls.c:128-141 | a P on a mutex that is taken puts the caller to sleep behind all others who wait for it |
| `KernelDevices.CompletionWakes` | phase2/interrupts.c:102-114 | the completion interrupt wakes exactly the process that waits for it and brings the semaphore back to 0 |
| `KernelDevices.InFlightIsIssued` | phase3/pager.c:116-132 | in every such run the commands in flight are those issued less those answered, none or one |
| `KernelMutex.StepExclusive` | phase2/syscalls.c:128-184 | every event, the termination of whole subtrees included, keeps at most one process between its P and its V |
| `KernelMutex.MutualExclusion` | phase3/pager.c:22-31 | from any state of a run in which a semaphore is 1, such as the swap pool's or a device's mutex once it has been set, at most one process is between its P and its V on it |
| `DeviceLines.LowestBit` | phase2/interrupts.c:58-71 | the lowest bit set, and PANIC exactly for a word without bits |
| `DeviceLines.LowestTerminal` | phase2/interrupts.c:72-85 | the lowest terminal that has transmitted; otherwise the lowest that interrupts; otherwise 100 |
| `DeviceLines.Decide` | phase2/interrupts.c:7-85 | the timers first, then the lowest line and its lowest device; PANIC exactly for an empty word |
| `DeviceLines.SelectedExists` | phase2/interrupts.c:63-86 | a pending line with a device behind it yields a device that exists and whose bit is set |
| `DeviceLines.TakenFor` | phase2/interrupts.c:7-86 | unless line 0 or an empty terminal word is what remains, the event is a timer's or that of a device that exists |
| `Billing.NeverOvercharged` | proj_lib/proj_lib.c:66-74 | what all processes were billed and what was spent in WAIT never exceed the time that has passed |
| `Billing.BillsAddUp` | proj_lib/proj_lib.c:66-74 | the bills of the processes add up to the total billed, idle time excluded |
| `Billing.ExactAppend` | proj_lib/proj_lib.c:71 | billing one process keeps every `p_time` equal to the sum of its own spans |
| `Accounts.BillsFollowEffects` | proj_lib/proj_lib.c:66-74 | who is billed follows from what the event did: first whoever ran; then the caller of a system call that it survives; and after an interrupt those it made ready, in their order on the ready queue |
| `Accounts.JournalGrows` | phase2/exceptions.c:15 | the journal of a run grows by one entry per event: a step of the machine and the bills for it |
| `Accounts.WaitsAreNobodys` | phase2/interrupts.c:54 | in no run does a bill of any process overlap a WAIT |
| `Accounts.BirthsGrow` | phase2/syscalls.c:57 | each process is billed from its last creation on, and no other event moves that date |
| `Nuclei.Nucleus.InitKer` | phase2/initial.c:30-78 | the boot process is the only one and ready, all device semaphores are 0, no other memory cell changed |
| `Nuclei.Nucleus.BootMachine` | phase2/initial.c:80-91 | the tables in memory are in the state after the first dispatch, all invariants hold, and the books start empty at that instant |
| `Nuclei.Nucleus.ZeroDevices` | phase2/initial.c:70-76 | the whole matrix and the timer are 0 and nothing else changed |
| `Nuclei.Nucleus.UpdateCpuUsage` | proj_lib/proj_lib.c:66-74 | exactly this process is billed, for the span since `tod_start`, which then starts again; all books stay exact and chronological |
| `Nuclei.Nucleus.Scheduler` | phase2/scheduler.c:9-39 | the tables, counters and status in memory become those of the abstract scheduler; a dispatch starts a new span and gives the process back the v0 saved for it, and a WAIT begins now |
| `Nuclei.Nucleus.RetBlocking` | phase2/syscalls.c:14-22 | the caller is billed, its v0 is saved, and the scheduler takes over |
| `Nuclei.Nucleus.SleepOn` | phase2/syscalls.c:209-217 | insertBlocked, the count of device waiters and the switch amount to the abstract sleep, with the caller's v0 saved |
| `Nuclei.Nucleus.BackToCaller` | phase2/syscalls.c:227-234 | the caller is billed and nothing else changes; the answer of SYS6 is exactly the sum of the spans billed to the caller since its creation |
| `Nuclei.Nucleus.Syscall1` | phase2/syscalls.c:32-65 | refines creation; the caller finds -1 in v0 exactly when there is no free PCB, and then nothing else changes, and 0 otherwise; the child has the v0 of the state it was given |
| `Nuclei.Nucleus.Spawn` | phase2/syscalls.c:34-59 | the head of the free list becomes a ready child of the caller, counted, and billed from now on; nothing changes if there is none |
| `Nuclei.Nucleus.DoomChild` | phase2/syscalls.c:89-108 | the body of the inner loop, from whichever list the child is on, refines one abstract round |
| `Nuclei.Nucleus.KillTarget` | phase2/syscalls.c:89-111 | one round of the outer loop ends and changes nothing about the outcome of the whole loop |
| `Nuclei.Nucleus.KillAll` | phase2/syscalls.c:87-112 | the nested loop over the links terminates in the state the exact termination prescribes |
| `Nuclei.Nucleus.Syscall2` | phase2/syscalls.c:75-116 | afterwards exactly the caller and its descendants are free in memory, and everybody else is where they were |
| `Nuclei.Nucleus.Syscall3` | phase2/syscalls.c:128-146 | refines P: a null address terminates, a negative value blocks, any other returns |
| `Nuclei.Nucleus.Syscall4` | phase2/syscalls.c:157-184 | refines V |
| `Nuclei.Nucleus.Syscall5` | phase2/syscalls.c:201-218 | refines wait for IO, bad parameters included |
| `Nuclei.Nucleus.Syscall7` | phase2/syscalls.c:245-252 | afterwards the caller is the last to wait for the clock, the cell is one lower, the device count one higher, and the next process runs |
| `Nuclei.Nucleus.StampInterrupt` | phase2/interrupts.c:54 | on an interrupt the accounting starts anew: after a WAIT one span is noted, from the WAIT on and nobody's, and otherwise none |
| `Nuclei.Nucleus.NoteIdle` | phase2/interrupts.c:54 | the span since the WAIT is nobody's, and the books stay exact |
| `Nuclei.Nucleus.LocalTimer` | phase2/interrupts.c:12-18 | refines the end of a time slice, with v0 of the preempted process saved and that of the next restored |
| `Nuclei.Nucleus.TimerTick` | phase2/interrupts.c:19-52 | refines the tick; the WAIT before it is nobody's, and each woken process is billed once, in order |
| `Nuclei.Nucleus.DrainTimer` | phase2/interrupts.c:28-42 | the loop ends, refines the abstract drain, and bills each woken process once, in order |
| `Nuclei.Nucleus.DeviceInterrupt` | phase2/interrupts.c:101-120 | refines the device interrupt; the status is saved as v0 of the woken process and of no other; the WAIT before it is nobody's, and only the woken process is billed |
| `Nuclei.Nucleus.Interrupt` | phase2/interrupts.c:7-121 | from the registers on: the machine stops with nothing changed, or has the effect of exactly what the interrupt is taken for, and the status delivered is that of the very device, or half of a terminal, that is served |
| `Nuclei.Nucleus.ExceHandler` | phase2/exceptions.c:11-37 | for every event the memory has the effect of the event, the invariant of all runs holds again, v0 of every process and of the processor is what the event should leave there, exactly those are billed that the event charges, in order, and only a process created by it is dated anew |
| `Nuclei.Nucleus.SyscallHandler` | phase2/syscalls.c:309-349 | every system call has its own effect, answer and bills, and no others |
| `Nuclei.Nucleus.InterruptHandler` | phase2/interrupts.c:7-121 | every interrupt has its own effect and bills, and delivers the status it was given to the process it wakes and to no other |
| `Nuclei.Nucleus.HandleException` | phase2/exceptions.c:17-35 | every exception reaches its handler: it has its effect on the tables, on v0 of every process and of the processor, and on the books |
| `Nuclei.Nucleus.RunMachine` | phase2/exceptions.c:11-37 | the memory follows the abstract machine through any sequence of events; no bill overlaps a WAIT, all bills and WAITs fit into the time since the first dispatch, each process is billed from its creation on, and v0 changes at each event as it should |
| `Registers.StatusIsDelivered` | phase2/interrupts.c:107-112 | over every such run: a process woken by a device has the status of the device in v0 when it runs for the first time after that, whatever happens before, unless it is killed |
| `Registers.CallerFindsV0` | phase2/syscalls.c:14-22 | over every such run: a process that blocked or was preempted finds its own v0 again when it next runs, unless a device woke it in between |
| `Nuclei.Nucleus.TagsAgree` | phase1/asl.c:101-159 | `p_semAdd` is non-null exactly for blocked processes and names the semaphore they are blocked on |
| `Nuclei.Nucleus.BooksBalance` | proj_lib/proj_lib.c:66-74 | at any time `p_time` of every process is the sum of its spans since the date of its creation, and all bills with all idle time fit between the start of the books and now |
| `PageWords.KeyRoundTrip` | proj_lib/proj_lib.c:76-84 | building EntryHI and taking it apart is the identity, so different pages have different keys |
| `PageWords.KeyFields` | phase3/init_uproc.c:54-66 | `get_asid`, `get_pageno` and the stack mapping recover process and page index of every key make_uproc builds |
| `PageWords.MappedFrame` | phase3/pager.c:271 | the entry of a frame leads to that frame, and its low twelve bits are exactly 0x600: V and D set, G and N clear |
| `PageWords.KeyIsAddress` | phase3/init_uproc.c:54-66 | a key is the virtual address of the page and the number of the process, and nothing else |
| `PageWords.MatchesItsPage` | phase3/init_uproc.c:54-67 | an entry with G clear matches, as the TLB compares, its own page of its own process and no other |
| `PageWords.InvalidatedIsInvalid` | phase3/pager.c:228 | clearing the valid bit makes the entry invalid and changes neither frame nor dirty bit |
| `PageWords.CommandRoundTrip` | phase3/pager.c:124-125 | the device reads from its registers the block, operation and frame it was told |
| `SwapPool.Pool.constructor` | phase3/pager.c:284-296 | every frame is free |
| `SwapPool.Pool.GetNextSwapIndex` | phase3/pager.c:37-67 | the two loops find the frame of the specification, and the index moves on by one |
| `SwapPool.EvictsOnlyWhenFull` | phase3/pager.c:37-67 | an occupied frame is chosen if and only if none is free, and then it is the round robin one |
| `SwapPool.FirstInRotation` | phase3/pager.c:42-64 | a free frame is the first free one in cyclic order |
| `SwapPool.LowestIffNoneBefore` | phase3/pager.c:33-36 | the comment's first free frame is what is returned if and only if no frame before the next one is free, or none from it on |
| `PagerReplacement.NotTheLowest` | phase3/pager.c:33-67 | after set-up every frame is free, and yet frame 1 is chosen and not frame 0 |
| `SwapPool.Pool.MarkAllUnoccupied` | phase3/pager.c:345-356 | the loop frees frame 0 if it belongs to the process, and nothing else |
| `SwapPool.MarksAllIffOnlyFrameZero` | phase3/pager.h:17-20 | all frames of the process become free if and only if no frame but frame 0 is its own |
| `PagerReplacement.MarksTooLittle` | phase3/pager.c:345-356 | after the first fault and until the sixteenth the loop of `mark_all_unoccupied` would free nothing for any process: every page brought in keeps its frame |
| `PagerSafety.StepInv` | phase3/pager.c:177-280 | every step of a process, the handler, a device or the refill handler, and every store that frees frame 0 at a moment when it may, keeps swap table, page tables, TLB and waiting faults in agreement, with the exact weakening of each phase |
| `PagerSafety.RewrittenTlb` | phase3/pager.c:142-163 | after a page table entry is rewritten and probed for, every TLB entry is again a copy of its page table entry and keys are unique |
| `PagerSafety.FaithfulKey` | phase3/pager.c:142-163 | whatever a TLB full of faithful copies holds, an entry that matches an access is the entry of the page accessed |
| `PagerSafety.TrapInv` | phase3/pager.c:196-203 | a process that misses waits for the very page it missed |
| `PagerSafety.HitsResident` | phase3/pager.c:220-275 | what a process can reach through the TLB is the frame the swap table gives to that page, never one in transfer |
| `PagerTheorems.InitialInv` | phase3/init_uproc.c:92-107 | after set-up the invariant holds and the memory of the processes is the contents of the flash devices |
| `PagerTheorems.StepRefines` | phase3/pager.c:177-280 | a step changes the memory of the processes exactly as a store says and otherwise not at all, through eviction, transfer, load and refill |
| `PagerTheorems.LoadReadsLogical` | phase3/pager.c:177-280 | a load brings in the word of the page wherever the page has been |
| `PagerTheorems.RunIffHarmless` | phase3/pager.c:345-356 | the runs of the theorems are exactly the interleavings in which each store that frees frame 0, however long after the test it comes, finds the entry free, or of an ended process, or frame 0 being refilled, and the handler not counting on its owner |
| `PagerTheorems.PagedIsFlat` | phase3/pager.c:177-280 | in every such interleaving a load returns the last value its process stored in the word, or the initial contents of flash |
| `PagerFailure.FlatFails` | phase3/pager.c:349-355 | in the others it need not: from every state after set-up in which block 0 of process 3 and block 15 of process 2 begin differently the code can reach a load that returns neither, because a process found frame 0 to be its own and freed it when it had become another's |
| `PagerTheorems.MutualInverses` | phase3/pager.c:264-275 | with no fault in progress every occupied frame is named by a valid entry with that frame, every valid entry of a living process is held by one frame, and no page by two |
| `PagerTheorems.WeakerInverses` | phase3/pager.c:220-275 | in every phase swap table and page tables are mutual inverses but for the frame in transfer: the page it names is invalid, and every valid entry of a living process is held by a frame outside transfer |
| `PagerTheorems.OnePlaceEach` | phase3/pager.c:264-266 | no page is held by two frames in any phase |
| `PagerTheorems.TlbIsCoherent` | phase3/pager.c:142-163 | TLB keys are unique, every entry equals the page table entry its key decodes to, and no modification exception can arise for a living process |
| `PagerTheorems.EntriesArePrivate` | phase3/init_uproc.c:54-67 | in every run every page table entry has its key, D set, V as it should be and all other low bits clear, G above all, and so has every copy in the TLB |
| `PagerTheorems.NobodyHitsAnother` | phase3/pager.c:142-163 | in every run an access that hits uses the entry of the page it means, of the process that makes it |
| `PagerTheorems.RefillHits` | phase3/tlbrefill_handler.c:9-53 | after a refill the access that missed hits, in the entry of its page |
| `PagerTheorems.HandlerAdvances` | phase3/pager.c:177-280 | the handler is never stuck and each of its steps brings its end nearer |
| `PagerTheorems.OnlyHandlerAdvances` | phase3/pager.c:177-280 | no other step changes the fault being served |
| `PagerTheorems.FaultEnds` | phase3/pager.c:277-279 | at the end the process runs again and its page is valid |
| `PagerSafety.MarkIsSafeIff` | phase3/pager.c:351-353 | a store into entry 0 that comes any time after the test keeps the tables in agreement if and only if the entry is then free, or of an ended process, or frame 0 is being refilled, and the handler is not between finding it occupied and reading its owner |
| `PagerSafety.UnsafeMark` | phase3/pager.c:351-353 | at any other moment the handler is sent to the device of no process, or the frame with the page of a living process counts as free |
| `PagerTheorems.LaterTurnsFindNothing` | phase3/pager.c:349-355 | no turn of the loop but the first can find the process in entry 0 and store into another entry |
| `PagerTheorems.FaultEndsInRun` | phase3/pager.c:177-280 | over whole runs: once the handler has made as many steps as remained the fault has ended, whatever happened in between |
| `PagerReplacement.RunRotates` | phase3/pager.c:37-67 | in runs that free no frame the swap table shows the last 16 faults, each in the frame whose turn it was, and the index follows |
| `PagerReplacement.OldestIsEvicted` | phase3/pager.c:37-67 | the victim is always the page that has been resident longest |
| `PagerReplacement.RowOfFaults` | phase3/pager.c:37-67 | any 16 consecutive faults use different frames |
| `Pagers.Pager.constructor` | phase3/init_uproc.c:92-103 | set-up leaves the initial state of the machine |
| `Pagers.Pager.MakeUproc` | phase3/init_uproc.c:29-75 | the page table of one process holds its keys, all entries invalid, other tables untouched; the HALT in the loop is dead code |
| `Pagers.Pager.TLBP` | phase3/pager.c:151-153 | the probe finds an entry with the key exactly if there is one |
| `Pagers.Pager.InvalidTlbEntry` | phase3/pager.c:142-163 | the entry with the key, if any, and no other is replaced; the registers are restored |
| `Pagers.Pager.Rewrite` | phase3/pager.c:222-233 | a masked section changes one page table entry and its TLB copy together |
| `Pagers.Pager.TlbRefillHandler` | phase3/tlbrefill_handler.c:9-53 | on a miss the TLB gets the page table entry of the page that missed; the PANIC is not reached on legal pages |
| `Pagers.Pager.Enter` | phase3/pager.c:196-203 | the handler works on the page whose key the fault saved |
| `Pagers.Pager.ChooseFrame` | phase3/pager.c:216 | refines the choice of a frame |
| `Pagers.Pager.ExamineFrame` | phase3/pager.c:220 | refines the second look at the entry, which tells whether there is a page to save |
| `Pagers.Pager.TakeFrame` | phase3/pager.c:222-233 | refines the invalidation of the victim |
| `Pagers.Pager.ReadOwner` | phase3/pager.c:235 | refines reading the owner of the frame, after the masked section: device and block are those of the victim |
| `Pagers.Pager.Issue` | phase3/pager.c:116-126 | the registers tell the device exactly the block, frame and operation the handler is waiting for |
| `Pagers.Pager.Device` | phase3/pager.c:124-126 | the device moves the whole page, word by word, between the block and the frame its registers name |
| `Pagers.Pager.FlashIo` | phase3/pager.c:82-133 | with a device that succeeds, the operation is a sequence of steps of the machine that ends with the frame written out or read in, and returns 1 |
| `Pagers.Pager.RecordPage` | phase3/pager.c:264-266 | refines the entry in the swap table |
| `Pagers.Pager.InstallPage` | phase3/pager.c:268-275 | refines the section that makes the new page valid |
| `Pagers.Pager.Leave` | phase3/pager.c:277-279 | the mutex is free and exactly the process served no longer waits |
| `Pagers.Pager.Evict` | phase3/pager.c:220-236 | the first half of the handler is a sequence of steps that leaves a frame that may be overwritten |
| `Pagers.Pager.WriteBack` | phase3/pager.c:235 | the frame goes to the block of the page the swap table names |
| `Pagers.Pager.BringIn` | phase3/pager.c:250-275 | the second half is a sequence of steps that leaves the page installed |
| `Pagers.Pager.PagefaultHandler` | phase3/pager.c:177-280 | undisturbed, the handler is a sequence of steps of the machine after which the process has its page and every process its memory as before |
| `Pagers.Pager.TestEntry` | phase3/pager.c:351 | refines the test of entry 0, after which the process runs no more and may be preempted for any time |
| `Pagers.Pager.FreeEntry` | phase3/pager.c:353 | refines the store into entry 0, whoever it belongs to by then |
| `Pagers.Pager.MarkAllUnoccupied` | phase3/pager.c:345-356 | all turns of the loop with nobody in between free frame 0 if it is the process's and nothing else, and leave the tables in agreement if and only if the handler does not then count on the owner of that entry |
| `PagerRuns.NoStoreKeeps` | phase3/pager.c:177-280 | a sequence of steps without stores and terminations leaves the memory of all living processes as it was |

## Left out

- Terminal and printer system calls, and the rest of phase3/support_syscalls.c: plumbing around SYS3, SYS4 and SYS5, which are modelled.
- Processor state other than `reg_v0`: of `state_t` only v0 is saved, restored and answered in, so the advance of the program counter after a call, status bits, the timers that LDIT and setTIMER load, and the acknowledgement of a device are not described; HALT, PANIC and WAIT are states of the machine.
- `p_supportStruct` and the pass up vector: an exception that is passed up returns to its caller's level, one that is not terminates the caller, and both are events of the machine; the pointer that SYS8 answers is an input.
- Wrap-around of the 32-bit clock: `p_time` and `tod_start` are unbounded.
- Semaphores are changed by the kernel only, but for a cell without waiters, which `KernelTheorems.CellSound` covers between two runs: any other cell that a process overwrites itself is outside every result about values.
- Error statuses of terminals.
- Nuclei.Nucleus.Interrupt: does not model interrupt line 0, a terminal line without a terminal, or a time slice that ends in a WAIT, where the code leaves its own data: rows of `dev_sem` that do not exist, terminal 100, a null `current_proc`. `DeviceLines.Decide` covers the first two up to that point.
- Pagers.Pager.FlashIo: does not model a transfer that fails, nor the mutex of the device: after a failure the swap table still names the evicted page, the process is terminated, and in the debug build the machine stops. The mutex is taken up in `KernelDevices` and `KernelMutex`.
- Pages other than 0 to 30 of 0x80000000 and the stack page: page number 31 and other top bits would share an entry with a different key, so a process uses legal pages.
- Pagers.Pager.MarkAllUnoccupied: has no other process in between; `TestEntry` and `FreeEntry` are its two steps in the machine, which interleave with all others. What the machine does after a store at a moment that is not harmless is described by `PagerSafety.UnsafeMark` and `PagerFailure.FlatFails` only. Flash contents after a process has ended are not described either.
- `test()` beyond set-up, the master semaphore, the debugger variables, `memset` and `memcpy`.
- Asls.Asl.OutBlocked: does not model a process that is not blocked, because the code dereferences a null pointer there, as phase1/asl.h:16-18 says.
- KernelDevices.InFlightIffWaiting: assumes the discipline of `flash_io`: only the owner of the mutex issues a command, it makes no other blocking call before its V, nobody else performs P or V on the device's semaphore, and a device interrupts only in answer to a command.
- KernelEffects.EffectDetermines: leaves open the order of the free list after a termination; `Pcbs.PcbTable.FreePcb` says it of each single PCB.
- Nuclei.Nucleus.DeviceInterrupt: raises the semaphore after the woken process has joined the ready queue; the code raises it between the two, which no other code can see.
- Nuclei.Nucleus.SleepOn: is written once, while the code repeats it in SYS3, SYS5 and SYS7.
- Pagers.Pager.PagefaultHandler: has no other process in between; the interleaving is covered by the machine, of which the pieces of the handler are the steps. The mutexes of the flash devices are taken up in `KernelDevices`.
- Stores inside a masked section are one step of the pager's machine. So are the three stores that fill a swap entry, although `mark_all_unoccupied` may look in between: it reads and writes `sw_asid` only, which is the first of the three, and the other two fields are read by the handler alone. The search of `get_next_swap_index` is one step too, because it reads entry 0 at most once and the other entries change by the handler's own hand only.
