# UCAS-OS: a verified model

A Dafny model of the hard parts of UCAS-OS, a small MIPS teaching kernel: the scheduler with
its intrusive queues and blocking primitives, the user-level mailbox, demand paging with a
software-managed TLB, the block-level file system, the SD card routines, and the formatting
and checksum code.  `dafny verify dfyconfig.toml` checks everything.

## How it is organised

- `KernelModel`, `KernelSteps`: the kernel as a state machine over values.  A system call is
  one `Act`, its effect up to `do_scheduler`, followed by one `Schedule` if it yields.  A task
  switched out in the middle of a mutex acquisition or a condition wait has that recorded in
  `resume` and must `Retry` when it runs again.  `Placement` is the invariant of every run.
- `TaskQueue`, `KernelObjects` (Kernel.dfy): the code over PCBs and queues on the heap.  Each
  method is proved to do exactly the step of the state machine it implements (`Next`).
- `Fairness`: bounded waiting.  The scheduler picks the end of the first ascending stretch of
  the ready queue and takes a point of priority from the outgoing task; `Potential` bounds the
  scheduler calls that can pass over a ready task.
- `Sync`, `Mutex`: semaphores, barriers, mutexes and conditions over whole runs.
- `LockTable`: what every call does to the tables in which tasks note the locks they took, and
  when the tables name every lock held.
- `Sleeping`: who sleeps, when a sleeper is woken, and that nobody oversleeps.
- `Waking`: what every call appends to the ready queue and when it goes through the scheduler,
  new tasks, and `do_waitpid`.
- `FailingRuns`: runs from boot in which `do_kill` and `do_exit` break what the other modules
  prove.
- `Mailbox`: all interleavings of any number of senders and receivers, switched at every
  system call and every byte copied.  `MailboxOnKernel` runs the same code on the semaphores
  and the mutex of `KernelSteps` and proves every run of both to be a run of the mailbox.
- `Tlb`, `ClockSearch` (Clock.dfy): the TLB handler, the page table inside the frames it
  manages, and the clock search for a victim.
- `Bitmap`, `BlockMap`, `FileStream`, `Directory`, `Alloc`, `SectorDisk`: the file system from
  bits to streams.
- `Numerals`, `Printk`, `PrintkLaws`, `HexText`, `Checksum`: numerals, bounded formatting and
  what it prints, hexadecimal text, the Internet checksum of RFC 1071.

## Where the code does not do what it is meant to do

- `do_kill` searches only the registered lock queues for a blocked target.  A target blocked
  elsewhere stays linked; `KernelSteps.KillExact` gives the exact condition, and
  `FailingRuns.DeadComesBack` a run from boot in which a killed task becomes READY again.
- The four init system calls empty the object's queue whoever is in it.
  `KernelSteps.InitExact`: tasks stay where their status says exactly when nobody waits.
- A lock stays in a task's lock table after it was released, and `do_exit` and `do_kill`
  release what the table names.  `Mutex.EndExact`: mutual exclusion survives exactly when the
  table names every lock the task holds and none that another task holds by then.
  `FailingRuns.LockLost` is a run from boot in which a kill frees another task's lock.
- The table has ten slots, and a release clears slots 1 to 9 of those who wait for the lock
  unless slot 0 names it.  `LockTable.NamedExact`: the tables keep naming every lock held exactly
  when a granted lock finds room or is there already, and every waiter for a released lock has
  that lock in slot 0 or holds nothing but what slot 0 names.  `FailingRuns.LockForgotten` is a
  run from boot in which a task takes eleven locks and exits: the last one stays LOCKED.
- `remove_dentry` counts `i_fnum` down even when `write_dentry` refused.  A removal of a
  missing name, "." or ".." then makes the next creation overwrite a live entry
  (`Directory.RemovalLosesEntry`, `Directory.DirectoryFile.LosesEntry`), or wraps the counter;
  `Directory.RemoveExact` gives the exact condition.
- `do_rename` does not look for the new name.  `Directory.RenameExact`: the directory stays well
  formed exactly when no other entry has the new name and an entry is left to count;
  otherwise one of the two entries is never found again (`Directory.RenameShadows`,
  `Directory.DirectoryFile.RenameLosesEntry`).
- `do_fwrite` takes new blocks whenever the write offset of the descriptor is 0, also for a file
  that has blocks.  `Alloc.GrowExact`: a block is lost exactly when the entry was in use;
  `Alloc.FileSystem.LosesBlock` is a case on a new volume.
- The TLB refill writes one half of an entry.  When both pages of a pair are mapped, the other
  half is not filled in while the pair stays in its entry: the handler sees an entry and a
  mapped page and returns.  `Tlb.Mmu.HandleException` gives the exact condition for progress,
  `Tlb.Mmu.StrandsOtherHalf` the failing situation and `Tlb.Mmu.StrandAfterStart` a run from
  the start that reaches it.
- `csum` folds its sum twice.  `Checksum.TwoFoldsSuffice`: that is right for all inputs of n
  words exactly when n is at most 65538; `Checksum.TwoFoldsFail` gives a wrong result for every
  larger n.

## Model

| member | source | states |
|---|---|---|
| `KernelSteps.PlacesAreExact` | src/kernel/sched/sched.c:45-328 | in a placed state READY or CREATED means exactly: in the ready queue; SLEEPING: in the sleeping queue; BLOCKED: in a wait queue; a task is in at most one queue, RUNNING and EXITED tasks are in none, and only the current task is RUNNING |
| `KernelSteps.RunKeepsPlacement` | src/kernel/sched/sched.c:45-328 | every state of every run of the system calls, the timer and the scheduler is placed, for kills that reach their target and initialisations of objects nobody waits on (see KillExact, InitExact): queues well formed and disjoint, statuses right, nobody waits for an exited task, process ids distinct |
| `KernelSteps.KillExact` | src/kernel/sched/sched.c:285-328 | do_kill leaves its target EXITED and everything placed if and only if the target is not blocked, or blocked on one of the 34 registered locks |
| `KernelSteps.KillMisses` | src/kernel/sched/sched.c:299-322 | a target blocked anywhere else is still linked into some queue after do_kill |
| `KernelSteps.InitExact` | src/kernel/locking/lock.c:23-27 | initialising a lock, semaphore, condition or barrier keeps the placement if and only if nobody waits on it; its waiters end up BLOCKED in no queue |
| `FailingRuns.DeadComesBack` | src/kernel/sched/sched.c:295-323 | from boot: the shell spawns a task, waits on a semaphore and is killed by it; it is EXITED and still queued, and an up makes it READY |
| `FailingRuns.ShellForgotten` | src/kernel/locking/sem.c:4-8 | do_semaphore_init in that state leaves the waiting shell BLOCKED in no queue |
| `FailingRuns.LockLost` | src/kernel/sched/sched.c:316-321 | from boot: the shell takes and releases a lock, its child takes it and kills the shell; the child's lock is free |
| `FailingRuns.LockForgotten` | src/kernel/locking/lock.c:37-44 | from boot: the shell takes locks 0 to 10, mutual exclusion intact, and exits; lock 10, which its full table did not note, is LOCKED with no holder |
| `KernelSteps.LeaveLocksEffect` | src/kernel/sched/sched.c:299-306 | the scan over the registered locks removes a task from the one lock queue it is in, if that lock is in the scanned range, and otherwise changes nothing |
| `KernelSteps.KillSpares` | src/kernel/sched/sched.c:295-323 | do_kill leaves every other task's priority, process id and pending work alone and at most wakes it |
| `KernelSteps.CallerKeepsRunning` | src/kernel/sched/sched.c:110-132 | a call that returns without reaching do_scheduler leaves its caller current, RUNNING and in no queue |
| `Waking.YieldsExact` | src/kernel/sched/sched.c:45-328 | a call goes through do_scheduler if and only if it is the timer's or its caller cannot go on |
| `Waking.ActReadies` | src/kernel/sched/sched.c:110-242 | for every call but exit and kill, exactly whom it appends to the ready queue and in which order |
| `Waking.UnblockOneMoves` | src/kernel/sched/sched.c:110-125 | do_unblock_one moves exactly the waiter at the end of the first ascending stretch of priorities to the end of the ready queue and changes nothing else |
| `Waking.UnblockAllOrder` | src/kernel/sched/sched.c:127-132 | do_unblock_all readies the whole queue, each time the end of the first ascending stretch of those left |
| `Waking.ReleaseOrder` | src/kernel/locking/lock.c:48-70 | a release readies everybody who waits for the lock in that order |
| `Waking.SpawnBirth` | src/kernel/sched/sched.c:170-242 | do_spawn fills the first free entry with a CREATED task of priority 4, the next process id and no locks, last in the ready queue, and touches no other task or queue |
| `Waking.SpawnFails` | src/kernel/sched/sched.c:170-242 | with the table full only the process id is used up |
| `Waking.WaitsUntilEnd` | src/kernel/sched/sched.c:268-283 | over every run, the caller of do_waitpid stays queued on its live target until the target exits or is killed |
| `Waking.EndWakesWaiters` | src/kernel/sched/sched.c:244-323 | whoever waits for a task that ends becomes ready, in order, after everybody else |
| `Sleeping.SleepParks` | src/kernel/sched/sched.c:83-91 | the caller of do_sleep goes to the end of the sleeping queue with the 32-bit sum of the time and the reading as its deadline; no other task changes |
| `Sleeping.FirstReadingWakes` | src/kernel/sched/sched.c:19-59 | if somebody is due at the scheduler's first reading, the first one due in queue order, and nobody else, becomes READY at the end of the ready queue, whoever is ready |
| `Sleeping.NobodyWakes` | src/kernel/sched/sched.c:19-65 | with nobody due, and somebody ready or nobody asleep, nothing changes |
| `Sleeping.LastReadingWakes` | src/kernel/sched/sched.c:60-65 | with nobody ready, the first sleeper due at the reading that ends the idle loop is woken |
| `Sleeping.LeavesInTime` | src/kernel/sched/sched.c:19-91 | a task leaves the sleeping queue only killed, or at a scheduler call with a reading past its deadline, and is then ready or running |
| `Sleeping.SleeperWakes` | src/kernel/sched/sched.c:19-91 | over every run, a task with k sleepers before it leaves the sleeping queue within k + 1 scheduler calls whose first reading is past its deadline |
| `Sleeping.SleeperRuns` | src/kernel/sched/sched.c:19-91 | and without do_spawn it then runs within its fairness bound, or is killed |
| `KernelModel.Pick` | src/kernel/sched/sched.c:67-71 | the walk stops at the end of the first strictly ascending stretch of priorities |
| `KernelModel.FirstDue` | src/kernel/sched/sched.c:23-33 | the first sleeper in queue order whose deadline has passed |
| `TaskQueue.Queue.Push` | src/kernel/sched/queue.c:20-38 | on the linked structure: the item becomes the last, every other link stays right |
| `TaskQueue.Queue.Dequeue` | src/kernel/sched/queue.c:40-59 | on the linked structure: the first item comes out unlinked, the rest stays in order |
| `TaskQueue.Queue.Remove` | src/kernel/sched/queue.c:84-115 | on the linked structure: exactly this item comes out of the middle or either end, and its successor is returned |
| `KernelObjects.Kernel.CheckInQueue` | src/kernel/sched/queue.c:61-72 | true if and only if the task is in the queue |
| `KernelObjects.Kernel.ClearWaitingQueue` | src/kernel/sched/queue.c:74-81 | the linked structures end up as WakeAll says: the whole queue READY and appended to the ready queue |
| `KernelObjects.Kernel.DoCheckSleeping` | src/kernel/sched/sched.c:19-35 | performs CheckSleeping, which wakes exactly the first due sleeper, ready tasks or not, or nobody if none is due (FirstReadingWakes, NobodyWakes) |
| `KernelObjects.Kernel.Idle` | src/kernel/sched/sched.c:60-65 | the idle loop ends with the check of some later timer reading, having woken somebody |
| `KernelObjects.Kernel.Scheduler` | src/kernel/sched/sched.c:45-81 | the code over linked queues performs one Schedule step, with clock values taken from the timer readings: requeue, wake, choose, lower the outgoing priority |
| `KernelObjects.Kernel.DoSleep` | src/kernel/sched/sched.c:83-91 | performs the SleepFor step; the deadline is cut to 32 bits |
| `KernelObjects.Kernel.DoBlock` | src/kernel/sched/sched.c:100-108 | performs the BlockOn step |
| `KernelObjects.Kernel.DoUnblockOne` | src/kernel/sched/sched.c:110-125 | performs UnblockOne: the picked waiter becomes READY at the end of the ready queue |
| `KernelObjects.Kernel.DoUnblockAll` | src/kernel/sched/sched.c:127-132 | performs UnblockAll and ends with the queue empty |
| `KernelObjects.Kernel.DoSpawn` | src/kernel/sched/sched.c:170-242 | performs the Spawn step, including the process id used up when the table is full |
| `KernelObjects.Kernel.DoExit` | src/kernel/sched/sched.c:244-261 | performs the Exit step: recorded locks released, waiters woken, status EXITED |
| `KernelObjects.Kernel.DoWaitPid` | src/kernel/sched/sched.c:268-283 | performs the WaitPid step, or returns if there is no such live process |
| `KernelObjects.Kernel.DoKill` | src/kernel/sched/sched.c:285-328 | performs the Kill step for a target do_kill reaches |
| `KernelObjects.Kernel.InitPcb` | src/init/main.c:96-180 | the initial state of the objects is placed: the shell ready, every other entry free |
| `KernelObjects.Kernel.WipeSlots` | src/kernel/locking/lock.c:55-64 | the inner loop clears slots 1 to 9 unless slot 0 names the lock |
| `KernelObjects.Kernel.ReleaseLock` | src/kernel/locking/lock.c:48-70 | performs Release: unlock, edit the waiters' tables, wake them all |
| `KernelObjects.Kernel.DoLock` | src/kernel/locking/lock.c:30-46 | performs the Lock step: take a free lock and note it in the first free slot (RecordNotes, ActTable), or queue |
| `KernelObjects.Kernel.DoRetry` | src/kernel/locking/lock.c:32-34 | performs the Retry step of a task that comes back from do_block; a lock it gets is noted as in DoLock |
| `KernelObjects.Kernel.DoUnlock` | src/kernel/locking/lock.c:48-70 | performs the Unlock step |
| `KernelObjects.Kernel.DoCondWait` | src/kernel/locking/cond.c:9-16 | performs the CondWait step: queued, blocked, lock released, with the re-acquisition still owed |
| `KernelObjects.Kernel.DoSignal` | src/kernel/locking/cond.c:18-25 | performs the Signal step |
| `KernelObjects.Kernel.DoBroadcast` | src/kernel/locking/cond.c:27-34 | performs the Broadcast step |
| `KernelObjects.Kernel.DoUp` | src/kernel/locking/sem.c:10-20 | performs the Up step |
| `KernelObjects.Kernel.DoDown` | src/kernel/locking/sem.c:22-32 | performs the Down step; a woken task returns without touching the value |
| `KernelObjects.Kernel.DoArrive` | src/kernel/locking/barrier.c:10-22 | performs the Arrive step |
| `KernelObjects.Kernel.DoLockInit` | src/kernel/locking/lock.c:23-27 | performs the Init step of a lock nobody waits for |
| `KernelObjects.Kernel.DoSemInit` | src/kernel/locking/sem.c:4-8 | performs the Init step of a semaphore nobody waits on |
| `KernelObjects.Kernel.DoCondInit` | src/kernel/locking/cond.c:4-7 | performs the Init step of a condition nobody waits on |
| `KernelObjects.Kernel.DoBarrierInit` | src/kernel/locking/barrier.c:3-8 | performs the Init step of a barrier nobody waits at |
| `Fairness.HeadPotential` | src/kernel/sched/sched.c:67-77 | for the head of the ready queue the bound is 2M + 1, one less if the current task outranks it, with M the total excess of live tasks over it |
| `Fairness.DispatchFalls` | src/kernel/sched/sched.c:67-77 | a choice that passes over a ready task strictly lowers that task's bound |
| `Fairness.ScheduleFalls` | src/kernel/sched/sched.c:45-81 | a whole scheduler call, wake-ups included, that passes over a ready task strictly lowers its bound |
| `Fairness.WaitingIsBounded` | src/kernel/sched/sched.c:45-81 | in any run, the scheduler calls made while a task stays ready plus the bound left never exceed the first bound plus what spawned tasks added |
| `Fairness.EveryReadyTaskRuns` | src/kernel/sched/sched.c:45-81 | without do_spawn, every ready task is chosen or killed within its first bound of scheduler calls |
| `Fairness.HeadRuns` | src/kernel/sched/sched.c:67-77 | the same for the head of the queue with its bound written out |
| `Fairness.LeavesByTurnOrKill` | src/kernel/sched/sched.c:67-77 | a task leaves the ready queue only by becoming current or EXITED |
| `Sync.ScheduleFrame` | src/kernel/sched/sched.c:45-81 | the scheduler changes no wait queue, no lock, semaphore or barrier word, and no pending work |
| `Sync.ActFrame` | src/kernel/locking/lock.c:30-70 | a system call changes no wait queue, and not the sleeping queue, but those of the objects it names |
| `Sync.WakeAllOrder` | src/kernel/sched/queue.c:74-81 | clear_waiting_queue appends the whole queue to the ready queue in order |
| `Sync.ServedInOrder` | src/kernel/locking/sem.c:10-32 | over every run, the tasks that waited on a semaphore, condition or barrier are, in order, those released so far followed by those still waiting |
| `Sync.SemaphoreConserves` | src/kernel/locking/sem.c:4-32 | over every run, value minus waiters is what ups, downs begun and initialisations make it, the value is never negative, and nobody waits while it is positive |
| `Sync.TokensCount` | src/kernel/locking/sem.c:10-32 | without a new initialisation that is the initial amount plus ups minus downs begun |
| `Sync.BarrierGenerations` | src/kernel/locking/barrier.c:3-22 | over every run, missing plus waiting is the goal n, the k-th group let go since the barrier was last initialised is exactly the k-th n arrivals in order, and the rest is waiting |
| `Sync.ArriveQueue` | src/kernel/locking/barrier.c:10-22 | the last arrival empties the queue onto the ready queue in order; any other arrival joins at the end |
| `Mutex.MutualExclusion` | src/kernel/locking/lock.c:30-70 | in every state of every disciplined run, with exits and kills, a lock has at most one holder, is LOCKED exactly when it has one, and has no waiter when free |
| `Mutex.EndExact` | src/kernel/sched/sched.c:244-323 | do_exit and do_kill keep that if and only if the ended task's lock table names every lock it holds and none another task holds |
| `Mutex.UnlockExact` | src/kernel/locking/lock.c:48-70 | do_mutex_lock_release keeps it if and only if nobody but the caller holds the lock |
| `Mutex.LockInitExact` | src/kernel/locking/lock.c:23-27 | do_mutex_lock_init keeps it if and only if nobody holds the lock |
| `LockTable.RecordNotes` | src/kernel/locking/lock.c:37-44 | a granted lock goes into the least empty slot and no other slot changes; with no empty slot nothing changes |
| `LockTable.ActTable` | src/kernel/sched/sched.c:244-323 | what every call does to every lock table but that of the task it ends or starts: the caller's gets the granted lock, those of the waiters for a lock it releases are cleared from slot 1 unless slot 0 names the lock, all others stay |
| `LockTable.NamedExact` | src/kernel/locking/lock.c:30-70 | after any call the tables name every lock held if and only if a granted lock found room and no waiter for a released lock loses the record of one it holds |
| `LockTable.HoldersAreNamed` | src/kernel/locking/lock.c:30-70 | over every orderly run: mutual exclusion, and every lock held is in the table of its holder, who is alive |
| `Mutex.WaitReturnsHolding` | src/kernel/locking/cond.c:9-16 | a task that called do_condition_wait, and is not killed, does not get back to user code before it holds the lock again |
| `Mutex.SignalNotMissed` | src/kernel/locking/cond.c:9-34 | a waiter leaves the condition's queue at the first later broadcast, or at the signal after one for each task before it: none is lost on it |
| `Mailbox.RunSafe` | src/libs/mailbox.c:48-66 | over all interleavings: 0 to 32 messages, free slots plus messages plus tokens in flight total 32, every message not yet received is whole in its slot, sent = received + stored |
| `Mailbox.StoredAsPassed` | src/libs/mailbox.c:48-56 | over every run, for every task: the messages it passed to mbox_send are, in order, those it has stored and at most one it is about to store |
| `Mailbox.HandedAsAsked` | src/libs/mailbox.c:58-66 | over every run, every task gets exactly one buffer for each mbox_recv |
| `Mailbox.LastInFirstOut` | src/libs/mailbox.c:48-66 | replaying the sends with the message each caller passed and the receives with the buffer each handed out, every receive hands out, byte for byte, the newest message not yet received, so each exactly once |
| `Mailbox.FillingHasRoom` | src/libs/mailbox.c:50-53 | a sender that got its token never overwrites a message not yet received |
| `Mailbox.DrainingHasMessage` | src/libs/mailbox.c:60-62 | a receiver that got its token never reads an empty box |
| `Mailbox.StuckOnlyWhenFullOrEmpty` | src/libs/mailbox.c:48-66 | no deadlock: if no task in a call can go on, senders wait on a full box or receivers on an empty one, and the lock is free |
| `MailboxOnKernel.ViewStep` | src/kernel/locking/sem.c:10-32 | seen from one mailbox, every system call with its scheduler call changes the two semaphores, the mutex and who must try for it again only as the call on the box says |
| `MailboxOnKernel.CallKeeps` | src/libs/mailbox.c:48-66 | each call completes only steps the mailbox can take, an up also that of the waiter it lets go, and the kernel objects still show the box |
| `MailboxOnKernel.KernelRunsMailbox` | src/libs/mailbox.c:48-66 | in every joint run of the kernel and mailbox code the box is always in the state a run of the mailbox reaches by the completed steps, it is safe, and semaphores and mutex show it |
| `MailboxOnKernel.KernelLastInFirstOut` | src/libs/mailbox.c:48-66 | so on the kernel, too, every receive hands out the newest message not yet received as its sender passed it, and every sender's messages are stored in the order it passed them |
| `Tlb.Mmu.constructor` | src/kernel/mm/memory.c:427-475 | init_memory: nothing mapped, nothing cached, the page table's frames taken |
| `Tlb.Mmu.PageAlloc` | src/kernel/mm/memory.c:136-149 | while a frame is free, frames are handed out in order, cleared, and the page table keeps its contents |
| `Tlb.Mmu.WrongAccess` | src/kernel/mm/memory.c:494-507 | true if and only if the shadow copy has the pair for another process |
| `Tlb.Mmu.InvalidIndex` | src/kernel/mm/memory.c:509-520 | the entry found in the shadow copy is the one the hardware matched |
| `Tlb.Mmu.Refill` | src/kernel/mm/memory.c:573-609 | one entry, round-robin, is flushed and gets one valid half; coherence is kept |
| `Tlb.Mmu.FillHalf` | src/kernel/mm/memory.c:702-735 | the half taken from the shadow copy is current: no translation is lost, the missing one is there, coherence is kept |
| `Tlb.Mmu.HandleException` | src/kernel/mm/memory.c:522-796 | coherence is kept, and the page is accessible afterwards if and only if: not cached, not another process's, and mapped or a frame is free; or cached and not mapped.  A missing page gets the next frame, cleared, in the page table; not one other word of memory changes |
| `Tlb.Mmu.Serve` | src/kernel/mm/memory.c:522-796 | over any sequence of accesses by any processes: coherence holds, no mapping changes, no word of a frame already handed out changes, mapped pages and free frames add up to the same number; it stops early only at an unmapped page with no frame free |
| `Tlb.Mmu.StrandsOtherHalf` | src/kernel/mm/memory.c:573-609 | with both pages of an uncached pair mapped, an access to one leaves the other inaccessible, and its fault is not resolved |
| `Tlb.Mmu.StrandAfterStart` | src/kernel/mm/memory.c:522-735 | from the start: two pages of a pair, one page each of 32 more pairs, the first page again; then the second page, mapped all along, is refused |
| `Tlb.TranslationIs` | src/kernel/mm/memory.c:567-669 | a valid half names the frame the page table names, never a frame that holds the page table |
| `Tlb.TranslationsApart` | src/kernel/mm/memory.c:567-669 | two valid halves share a frame only if they translate the same page |
| `ClockSearch.FindVictim` | src/kernel/mm/memory.c:152-159 | the loop in place: its frame, its turns and the R bits it cleared |
| `ClockSearch.VictimIs` | src/kernel/mm/memory.c:152-159 | within two revolutions: the first unpinned frame with R clear in clock order, or the first unpinned one if R was set on all |
| `ClockSearch.TurnsClear` | src/kernel/mm/memory.c:152-157 | after n turns R is clear on exactly the frames passed and unchanged on the others |
| `ClockSearch.PinnedForever` | src/kernel/mm/memory.c:152-157 | with every frame pinned the loop never stops |
| `ClockSearch.StopsInTwo` | src/kernel/mm/memory.c:152-157 | with some frame unpinned it stops |
| `Bitmap.Set` | src/libs/bitmap.c:16-28 | the bit is set and no other bit changes |
| `Bitmap.Unset` | src/libs/bitmap.c:30-41 | the bit is clear and no other bit changes |
| `Bitmap.FindFree` | src/kernel/fs/fs.c:639-676 | the least clear bit, or the error code if there is none |
| `BlockMap.Volume.Get` | src/kernel/fs/fs.c:346-361 | the mapped block, 0, or -1 without a pointer block |
| `BlockMap.Volume.Write` | src/kernel/fs/fs.c:390-422 | the index names the block; every other mapped index of the file and every index of every other file is unchanged; at most one block more is in use, the least free one, as the pointer block |
| `BlockMap.Volume.AddPointerBlock` | src/kernel/fs/fs.c:404-417 | the pointer block was the least free block, is zeroed, and is no other file's |
| `FileStream.OpenFile.Fwrite` | src/kernel/fs/fs.c:1251-1322 | appends; what was written stays, zeros follow it; blocks taken and free counter agree; no byte outside the file's blocks changes |
| `FileStream.OpenFile.Fread` | src/kernel/fs/fs.c:1324-1347 | returns exactly the slice of what was written at the read offset |
| `FileStream.OpenFile.Extend` | src/kernel/fs/fs.c:1263-1303 | new blocks follow the old ones on disk and the file's bytes stay in place |
| `FileStream.RoundTrip` | src/kernel/fs/fs.c:1251-1347 | after any interleaving of writes and reads the file holds everything written, in order, and the reads returned that one stream cut into the lengths asked for |
| `Directory.CreateShows` | src/kernel/fs/fs.c:961-1009 | creation finds its slot empty, adds exactly the name, and refuses a name that exists |
| `Directory.RemoveShows` | src/kernel/fs/fs.c:307-316 | removal of a created name takes exactly that name away |
| `Directory.RenameShows` | src/kernel/fs/fs.c:1523-1557 | renaming moves the inode to the new name; a missing name, "." and ".." are left alone |
| `Directory.DirectoryIsMap` | src/kernel/fs/fs.c:262-316 | after any permitted sequence of creations, removals and renamings every lookup agrees with a finite map |
| `Directory.RemoveExact` | src/kernel/fs/fs.c:307-316 | removal keeps the directory well formed if and only if the name was created, or the last slot handed out is a gap |
| `Directory.RemovalLosesEntry` | src/kernel/fs/fs.c:307-316 | otherwise, with the last slot in use, the next creation makes the name there impossible to find |
| `Directory.RenameExact` | src/kernel/fs/fs.c:1523-1557 | renaming a created name keeps the directory well formed if and only if no other entry has the new name and an entry is left to count |
| `Directory.RenameShadows` | src/kernel/fs/fs.c:1545-1554 | renamed to a name that exists, the later of the two entries is found under no name |
| `Directory.DirectoryFile.LosesEntry` | src/kernel/fs/fs.c:1048-1050 | in a new directory: create a, remove b, create c; then a is not found |
| `Directory.DirectoryFile.RenameLosesEntry` | src/kernel/fs/fs.c:1523-1557 | in a new directory: create a and b, rename a to b; then b's own entry is found under no name |
| `Directory.DirectoryFile.constructor` | src/kernel/fs/fs.c:997-1003 | a new directory holds exactly "." and ".." |
| `Directory.DirectoryFile.FindDentry` | src/kernel/fs/fs.c:573-591 | the first entry with the name in the first block, or -1 |
| `Directory.DirectoryFile.WriteEntry` | src/kernel/fs/fs.c:262-305 | refuses "." and ".." and slots not handed out; otherwise writes the entry and counts up |
| `Directory.DirectoryFile.Touch` | src/kernel/fs/fs.c:1379-1414 | do_touch and do_mkdir on the parent perform Create |
| `Directory.DirectoryFile.Rmdir` | src/kernel/fs/fs.c:1048-1050 | do_rmdir on the parent performs Remove |
| `Directory.DirectoryFile.RenameEntry` | src/kernel/fs/fs.c:1545-1554 | do_rename performs Rename |
| `Alloc.FileSystem.constructor` | src/kernel/fs/fs.c:808-887 | do_mkfs: metadata and the root's block in use, the root the only inode, its block in entry 0; counters exact, disk and memory equal, every block in use owned |
| `Alloc.FileSystem.TakeBlock` | src/kernel/fs/fs.c:974-979 | the least free block, now in use on disk too, and one free block fewer |
| `Alloc.FileSystem.TakeInode` | src/kernel/fs/fs.c:967-972 | the least free inode, now in use on disk too, and one free inode fewer |
| `Alloc.FileSystem.Touch` | src/kernel/fs/fs.c:1385-1409 | the least free inode, without blocks; every other inode unchanged; no block has two owners, owned blocks are in use, counters and disk right; no block is lost |
| `Alloc.FileSystem.MakeWithBlock` | src/kernel/fs/fs.c:967-996 | do_mkdir and do_symlink: the least free inode with the least free block in entry 0 and zeros elsewhere; every other inode unchanged; the same invariant, and no block is lost |
| `Alloc.FileSystem.Grow` | src/kernel/fs/fs.c:1267-1281 | entry k names the least free block and nothing else of any inode's direct table changes; the same invariant; every block in use still has an owner if and only if entry k was empty, and files stay packed if and only if it was the first empty one |
| `Alloc.GrowExact` | src/kernel/fs/fs.c:1267-1303 | with every block owned and every file packed: after growth at entry k every block in use has an owner if and only if the entry was empty, and everything is as before if and only if it was the first empty one |
| `Alloc.FileSystem.LosesBlock` | src/kernel/fs/fs.c:1264-1284 | on a new volume: a file gets its first block twice; then some block in use has no owner |
| `Alloc.FileSystem.RemoveInode` | src/kernel/fs/fs.c:1040-1046 | the inode and exactly the blocks it lists are free again, counters and every other inode unchanged; the same invariant, and no block is lost |
| `Alloc.FileSystem.Session` | src/kernel/fs/fs.c:769-1053 | the invariant holds after any sequence of creations, growth, removals and restarts, and where files grew only at their first empty entry every block in use is owned |
| `Alloc.FileSystem.Operate` | src/kernel/fs/fs.c:769-1053 | one operation: the invariant, and nothing is lost exactly when it was not growth, or growth at the first empty entry |
| `Alloc.FileSystem.Remount` | src/kernel/fs/fs.c:769-780 | whatever bytes and counts memory holds, init_fs restores bitmaps and counters |
| `SectorDisk.MemCopy` | other/libepmon/libepmon_src/memcopy.c:1-14 | correct for every overlap of source and destination |
| `SectorDisk.SdCard.Read` | other/libepmon/libepmon_src/sdread.c:19-34 | any base and length give exactly that range of the card |
| `SectorDisk.SdCard.Write` | other/libepmon/libepmon_src/sdwrite.c:17-32 | for whole sectors exactly that range of the card becomes the buffer |
| `SectorDisk.SdCard.WriteBlock` | src/kernel/fs/fs.c:135-139 | the block becomes the buffer and every other block is unchanged |
| `SectorDisk.SdCard.ReadBlock` | src/kernel/fs/fs.c:141-145 | the buffer becomes the block, so a read after a write returns the data |
| `Numerals.DigitsMean` | src/libs/printk.c:75-80 | the digits produced back to front stand for the number |
| `Numerals.ReverseInPlace` | src/libs/printk.c:93-98 | the swap loop reverses the buffer in place |
| `Numerals.PutDigits` | src/libs/printk.c:75-80 | the digit loop writes the digits back to front |
| `Printk.Itoa` | src/libs/printk.c:56-101 | sign, zero padding and digits as printed, never more than 12 of the 24 bytes |
| `Printk.MiniBuff.Putc` | src/libs/printk.c:109-117 | the buffer keeps holding as much of the output as fits |
| `Printk.MiniBuff.Puts` | src/libs/printk.c:119-133 | the same for a string, cut where the buffer ends |
| `Printk.Vsnprintf` | src/libs/printk.c:135-204 | for every format, arguments and capacity of at least 1: the first capacity - 1 characters of the unbounded rendering, which the PrintkLaws describe, and their number |
| `PrintkLaws.NumbersReadBack` | src/libs/printk.c:56-204 | %d, %u, %x, %X, with or without a width: the text reads back as the signed or unsigned argument in its base and case, with its sign, at least as many digits as the width and otherwise no leading zero |
| `PrintkLaws.CharacterIsLowByte` | src/libs/printk.c:180-186 | %c is the low byte |
| `PrintkLaws.StringIsText` | src/libs/printk.c:119-133 | %s is the text up to its NUL |
| `PrintkLaws.OtherIsItself` | src/libs/printk.c:135-204 | any other character after % stands for itself |
| `PrintkLaws.ConversionFirst` | src/libs/printk.c:135-204 | a format renders as its first conversion followed by the rest with the remaining arguments |
| `PrintkLaws.CharacterFirst` | src/libs/printk.c:135-204 | any other first character is followed by the rest with all arguments |
| `PrintkLaws.NothingLeft` | src/libs/printk.c:135-204 | nothing is rendered from a NUL on or for a conversion that breaks off |
| `PrintkLaws.PlainIsItself` | src/libs/printk.c:135-204 | a format without % renders as itself |
| `HexText.Itohex` | src/libs/string.c:93-107 | the numeral, most significant digit first, with its terminator |
| `HexText.Htoi` | src/libs/string.c:151-167 | the number the leading hexadecimal digits stand for |
| `HexText.ReadsBack` | src/libs/string.c:93-167 | what is printed for n reads back as n |
| `HexText.RoundTrip` | src/libs/string.c:93-167 | htoi(itohex(n)) = n for every n below 2^31 |
| `Checksum.Csum` | other/net-software/pktRxtx-bonus/pktRxTx.c:104-127 | the complement of the twice folded sum, which up to 65538 words is the complement of the one's complement sum |
| `Checksum.TwoFoldsSuffice` | other/net-software/pktRxtx-bonus/pktRxTx.c:122-123 | for every n: two folds give the one's complement sum of every input of n words if and only if n is at most 65538 |
| `Checksum.TwoFoldsFail` | other/net-software/pktRxtx-bonus/pktRxTx.c:122-123 | 65538 full words, the word 1 and any number of zero words fold to 0 where the sum is 1 |
| `Checksum.StoredChecksumCancels` | other/net-software/pktRxtx-bonus/pktRxTx.c:201-203 | a header with its checksum stored in an even field that was zero has checksum 0 |
| `Checksum.BytesWeigh` | other/net-software/pktRxtx-bonus/pktRxTx.c:104-121 | bytes at even places count once, bytes at odd places 256 times, whatever the length |

## Left out

- The context switch, exception entry, CP0 access and the timer interrupt: assembly; a yielding call is its effect followed by one scheduler call.
- Cursor positions, entry points, contexts, stacks and modes of a PCB, and `lock_num`, which nothing reads.
- KernelObjects.Kernel.Scheduler: not called with nobody ready and nobody asleep, where the code follows a null pointer: the steps are enabled only where a task can be found.
- KernelObjects.Kernel.DoKill: only for targets do_kill reaches; for the others see KillExact and KillMisses.
- Mutex.MutualExclusion: for runs in which tasks release and initialise no lock another task holds, do not use the bare blocking calls on lock queues, and end with a lock table that names exactly their locks; UnlockExact, LockInitExact and EndExact show these conditions are needed.
- LockTable.HoldersAreNamed: for such runs in which, instead, the conditions of NamedExact hold at every call and tasks end with a table that names no lock of others.
- LockTable.ActTable: kills of targets do_kill reaches.
- Waking.ActReadies: not do_exit and do_kill, which first ready the waiters of every lock released; EndWakesWaiters says who comes last.
- Waking.WaitsUntilEnd: nobody uses the bare blocking calls on the target's queue.
- Sleeping.SleeperRuns: runs without do_spawn, as for EveryReadyTaskRuns.
- KernelObjects.Kernel.DoLockInit: only for locks nobody waits for; for the others see InitExact.
- KernelObjects.Kernel.DoSemInit: likewise.
- KernelObjects.Kernel.DoCondInit: likewise.
- KernelObjects.Kernel.DoBarrierInit: likewise.
- Sync.SemaphoreConserves: semaphores are not initialised with a negative value, with which do_semaphore_down never blocks.
- Integer overflow of task priorities and process ids: mathematical integers are used.
- Fairness.EveryReadyTaskRuns: runs without do_spawn; with it WaitingIsBounded says what each new task adds.
- Mailbox names, mbox_open's search and mbox_close; a killed task in the middle of a call; calls with different lengths.
- Mailbox.RunSafe: semaphores and lock are counters and an owner; MailboxOnKernel ties them to the kernel's own steps.
- MailboxOnKernel.KernelRunsMailbox: runs in which no task exits or is killed, and the box's semaphores and mutex are used through the mailbox only.
- The swap branch of page_alloc and the empty swap functions, apart from the clock loop; the fault paths that do nothing because the page is in swap.
- Tlb.Mmu.HandleException: an invalid-half fault on an unmapped page without free frames is excluded, because the swap branch returns nothing.
- Double- and triple-indirect blocks, whose reader and writer use different roots, and directories past their first block.
- Paths: separate_path, parse_path and do_cd; operations are modelled on the directory they end up in.
- FileStream.OpenFile.Fread: reads within what was written, at most 5 blocks per call; past it the code returns whatever the blocks hold.
- FileStream.OpenFile.Fwrite: files of at most 12 blocks, at most 5 per call, in blocks taken from a bitmap whose set bits form a prefix.
- BlockMap.Volume.Write: a free block exists when a pointer block is needed; without one the code stores an error code as a block number.
- BlockMap.Volume.AddPointerBlock: likewise.
- Directory.RenameShows: new names that no entry has; for the others see RenameExact and RenameShadows.
- Directory.DirectoryFile.WriteEntry: entries of the first block, the only one lookups see.
- Alloc.FileSystem.Session: skips operations for which no block or inode is free, a guard the code does not have.
- Alloc.FileSystem.RemoveInode: inodes with an empty direct entry, so that release_inode_block stops before the pointer blocks.
- The inode table's place on disk (sync_to_disk_inode): inodes are kept as values.
- SectorDisk.SdCard.Write: whole sectors only; a partial last sector would also write stale bytes of the bounce buffer.
- HexText.Htoi: numbers below 2^31, the ones an int holds.
- Printk.Itoa: radixes 10 and 16, the ones in use.
- Network driver, UART, screen, shell, createimage, strtok, atoh: hardware, user interface or tools.
