# Noza verification

A Dafny model of the Noza microkernel and of the services around it, with proofs that hold for
every input, every run and every reachable state.

## What is modelled

- **Kernel** (`Lists`, `Ring`, `KernelState`, `VidIndex`, `Circular`, `FutexTable`, `TimerTable`,
  `IrqTable`, `Syscalls`, `SchedLaws`, `CallLaws`, `Kernel`, `Scenario`). The pointer-level circular lists are refined to sequences in
  `Ring`. `Kernel` is a class with one method per kernel routine over those sequences, its scheduling
  record `os` mirroring the global kernel structure. `Syscalls` says on values what each system call,
  tick, scheduling round and interrupt does (`CallDone`, `Ticked`, `Scheduled`, `Entered`, `Stepped`,
  `IsRun`); the methods of `Kernel` are proved to do just that, and to keep the invariant. `SchedLaws`
  and `CallLaws` say what those relations mean for the state, lists and registers of each thread, call by
  call, with the numbers written out; `Kernel.Kernel.KnownSane` makes them hold of every state between
  kernel routines. `home` and
  `leaving` in `os`, and `interrupted`, `latched`, `delivered` and `disciplined` elsewhere, are ghost:
  they exist for the proofs only. `Kernel.PowerOn` is the theorem over whole runs,
  `Kernel.Kernel.Meaning` says what its invariant means in the kernel's own terms.
- **Allocator** (`TinyAlloc`), **ROMFS image writer** (`Romfs`), **AVL index** (`AvlTree` for the
  tree as a value, `StringMap` for the nodes linked in place), **name server** (`NameServer`),
  **app launcher** (`AppLauncher`), **synchronisation server** (`SyncServer`), **mount table and
  path normaliser** (`Vfs`), **relocation** (`Loader`).

Every class carries its invariant as `Valid()`; every method states its whole new state or ties it
to a function of the old one, and the functions are given meaning by lemmas.

## Choices and assumptions

- A kernel panic is a halting outcome (`halt`). Two outcomes are not panics of the code but ends of
  the model, because the code goes on to index outside a table: a negative signal number in
  `syscall_thread_kill` and a priority whose low eight bits are 8 or more in
  `syscall_thread_change_priority`. Call numbers and priorities are kept in eight bits, as in the code.
- `noza_os_reply` does not test for an empty reply list before reading its head; the model counts
  that as the caller not being listed.
- `noza_wakeup_sync` makes a thread ready and then takes it off its queue; the model does both as
  one change, since the kernel lock is held.
- Interrupts are taken between kernel sections, and only on lines that are not masked.
- Time, user memory words, the values of unset variables, padding bytes, event record addresses and
  process-manager answers are parameters. The word behind a futex address is read by the caller of
  the model.
- Sizes for the allocator are positive, its split threshold and alignment too; the alignment is a
  power of two in the code, where rounding is a mask.
- A ROMFS directory has at most 256 entries of each kind, as the writer's arrays have; the round
  trip is for images of at most 2^32 bytes.
- The index comparisons follow the null-guarded form of `int_map.c`; names enter it as integers that
  order as `strncmp` orders the names.
- The timer theorem is about mathematical time; deadlines are positive because arming adds a positive
  duration to a non-negative time.
- The sleep list never compares with its tail, so the code does not keep it sorted; the exact
  condition and a counterexample are in `Lists`.
- Removing a two-child node copies only the successor's key; the exact effect on lookups and the
  condition under which it is harmless are in `AvlTree`. In the name server it makes the index disagree
  with the table; when that happens, and what unregistering by name then does, is in `NameServer`.
- The send and reply panics can be brought about; two runs that do so are in `Scenario`.

## Model

| member | source | states |
|---|---|---|
| Ring.CdlAdd | kernel/noza_os.c:966-987 | Linking a node before the head appends it to the sequence the ring stands for; next and prev stay inverse and no node outside the ring is touched. |
| Ring.CdlRemove | kernel/noza_os.c:989-1011 | Unlinking a node deletes exactly that element from the sequence; the head stays element 0 or passes to the next one, and an emptied ring has no head. |
| Ring.TimerInsert | kernel/noza_os.c:1364-1404 | The in-place ordered insertion puts the node before the first strictly later deadline, as a sequence insertion at that index. |
| Ring.SleepInsert | kernel/noza_os.c:1495-1534 | The in-place insertion into the sleep list is a sequence insertion at the index its scan stops at, which never looks at the tail. |
| Ring.ListHead.Add | kernel/noza_os.c:1554-1568 | A thread list with its count grows by the thread at the tail: everyone who was there stands before it. |
| Ring.ListHead.Remove | kernel/noza_os.c:1570-1579 | A thread list with its count loses exactly the given thread, and any two that stay keep their order. |
| Ring.ChangeState | kernel/noza_os.c:671-675 | Moving a node between two lists removes it from one and appends it to the other while a third list over other nodes is unchanged. |
| Ring.DblistInsertTail | type/dblist.c:4-16 | The service list insertion appends to the sequence. |
| Ring.DblistRemoveHead | type/dblist.c:18-30 | The service list removal takes off element 0. |
| Lists.TimerInsertSorted | kernel/noza_os.c:1382-1403 | Inserting a deadline where the timer ring puts it keeps a sorted ring sorted. |
| Lists.SleepInsertSortedIff | kernel/noza_os.c:1514-1533 | Inserting where the sleep list puts an expiry keeps a sorted list sorted if and only if the newcomer is not earlier than just the tail. |
| Lists.SleepOrderCounterexample | kernel/noza_os.c:1514-1533 | A concrete sleep list that the insertion leaves out of order. |
| KernelState.OnePlace | kernel/noza_os.c:1554-1579 | Every thread can be found in exactly one place among all lists, queues, joins and running slots, and its state field names that place. |
| KernelState.WakeAllKeeps | kernel/noza_os.c:948-963 | Waking a list of blocked threads leaves every thread in one home, puts the woken ones at the tails of their ready lists in order, and changes nothing else. |
| KernelState.HomesUnlink | kernel/noza_os.c:1570-1579 | Taking a thread off a list keeps everyone else's home. |
| KernelState.HomesLink | kernel/noza_os.c:1554-1568 | Putting a homeless thread on a list gives it that list as its home and keeps all others. |
| KernelState.DetachPort | kernel/noza_os.c:1210-1261 | A thread taken off wherever it is leaves exactly the port waiters and the joiner it had, except itself. |
| KernelState.EndedCalm | kernel/noza_os.c:1272-1309 | An exit leaves no thread in the middle of a move and makes no port ready. |
| SchedLaws.WakeOneMeans | kernel/noza_os.c:1059-1083 | A woken thread leaves its list, loses its timeout and is the last of its ready list. |
| SchedLaws.WakeAllMeans | kernel/noza_os.c:1059-1083 | Threads woken one after the other are ready in that order among equals, behind those that were; no other thread moves. |
| SchedLaws.EndedMeans | kernel/noza_os.c:1272-1309 | A thread that ends is free if detached or joined, else a zombie; its joiner and whoever waited on its port are ready, all others as before. |
| SchedLaws.RendezvousMeans | kernel/noza_os.c:692-727 | Sender and receiver after they met, column by column and list by list. |
| SchedLaws.AcceptMeans | kernel/noza_os.c:738-753 | The oldest pending sender becomes the last of those owed a reply. |
| SchedLaws.SleepOnMeans | kernel/noza_os.c:1495-1534 | A sleeper stands before the first that expires later among all but the tail, else last. |
| SchedLaws.SleepPlaceUnique | kernel/noza_os.c:1495-1534 | There is one such place. |
| SchedLaws.BootMeans | kernel/noza_os.c:799-857 | At the start all threads are free in order of number and nothing runs or waits. |
| Kernel.Kernel.constructor | kernel/noza_os.c:799-857 | After initialisation every thread is free, no vid is taken, no core runs anything, and the kernel invariant holds. |
| Kernel.Kernel.CheckState | kernel/noza_os.c:1570-1575 | The list panic is raised exactly when the thread's state is not that of the list, whatever the list. |
| Kernel.Kernel.RemoveThread | kernel/noza_os.c:1570-1579 | After that test the thread is unlinked from a list it is on; the free and timeout lists are left in TakeFree and WakeTimedOut, behind the same test. |
| Kernel.Kernel.AddThread | kernel/noza_os.c:1554-1568 | A homeless thread enters a list, at the tail or by expiry for the sleep list, and takes that list's state. |
| Kernel.Kernel.AddFree | kernel/noza_os.c:1554-1568 | A thread entering the free list gives up its vid. |
| Kernel.Kernel.TakeFree | kernel/noza_os.c:928-946 | A thread leaves the free list and gets an unused vid; neither the list test nor the item pool can fail. |
| Kernel.Kernel.Send | kernel/noza_os.c:692-727 | A send to a dead thread fails, to a listening port blocks at the tail of the pending list, to a receiver is a rendezvous; the panic fires exactly for a ready port whose thread is not receiving, and then a signal once took that thread out of a receive. |
| Kernel.Kernel.NonblockSend | kernel/noza_os.c:729-736 | The non-blocking send meets a receiver or fails with EAGAIN. |
| Kernel.Kernel.Recv | kernel/noza_os.c:738-753 | The oldest pending sender's own message is handed over and that sender moves to the reply list, or the caller blocks with its port ready; nothing else changes. |
| Kernel.Kernel.NonblockRecv | kernel/noza_os.c:755-763 | The oldest pending sender is served or EAGAIN returned; nothing else changes. |
| Kernel.Kernel.Reply | kernel/noza_os.c:765-794 | A reply wakes exactly the addressed thread if it is on the caller's reply list; otherwise, or with the port ready, the kernel panics. |
| Kernel.Kernel.ReleaseWaitersFromPort | kernel/noza_os.c:948-963 | Everyone on the pending list and then on the reply list of a thread becomes ready, in order, with the error code. |
| Syscalls.ExitTrapsMean | kernel/noza_os.c:1263-1290 | On an exit the joiner is told the exit code, every thread waiting on the port is told EINTR, and no other trap frame changes. |
| Kernel.Kernel.WaitQueueRemove | kernel/noza_os.c:1034-1047 | A waiting thread leaves its queue. |
| Kernel.Kernel.WaitQueueWake | kernel/noza_os.c:1059-1083 | Waking n threads of a queue wakes exactly its first min(n, length) threads in order, off the timeout list too. |
| Kernel.Kernel.WaitQueueSleep | kernel/noza_os.c:1085-1121 | The running thread enters the queue, with a timeout on the timeout list; a zero timeout returns at once. |
| Kernel.Kernel.WaitIn | kernel/noza_os.c:1085-1121 | A caller enters a queue with or without a timeout, or with timeout 0 is told ETIMEDOUT at once; nothing else changes. |
| Kernel.Kernel.Interrupt | kernel/noza_os.c:1123-1150 | Only a thread that waits in a queue, receives or sleeps is interrupted, becoming ready with EINTR; nothing else changes, so an interrupted receiver's port stays marked ready. |
| Kernel.Kernel.SignalSend | kernel/noza_os.c:1152-1162 | Signals 1 to 32 set their pending bit and interrupt the target, others do nothing; nothing else changes. |
| Kernel.Kernel.FindPortWaitOwner | kernel/noza_os.c:1164-1194 | The port list that holds a waiting thread is found. |
| Kernel.Kernel.FindJoinOwner | kernel/noza_os.c:1196-1208 | The thread that a joiner waits for is found. |
| Kernel.Kernel.DetachBlocked | kernel/noza_os.c:1210-1261 | A thread is taken off whatever list, queue, join or core it is on; dead threads and threads running elsewhere are refused. |
| Kernel.Kernel.FinalizeExit | kernel/noza_os.c:1272-1290 | The exit of a detached or joined thread frees it, any other becomes a zombie, and its waiters are released first. |
| Kernel.Kernel.Terminate | kernel/noza_os.c:1292-1309 | The whole exit as one state change with its trap frames and vid effect, refused exactly for dead threads and threads running on another core. |
| Kernel.Kernel.Join | kernel/noza_os.c:1846-1878 | A zombie gives up its exit code and vid, a live undetached thread without joiner gets one, all else is refused; nothing else changes. |
| Kernel.Kernel.DetachThread | kernel/noza_os.c:1880-1902 | A live thread is marked detached, a zombie is reaped with EINVAL; nothing else changes. |
| Kernel.Kernel.ChangePriority | kernel/noza_os.c:1904-1930 | A ready thread is requeued under its new priority, any other just gets it. |
| Kernel.Kernel.StopThread | kernel/noza_os.c:1676-1702 | A ready thread or the caller itself moves to the stopped list, one running elsewhere is refused, all others are left alone; nothing else changes. |
| Kernel.Kernel.ContinueThread | kernel/noza_os.c:1704-1711 | A stopped thread becomes ready; nothing else changes. |
| Kernel.Kernel.AlarmThread | kernel/noza_os.c:1713-1756 | A sleeper learns the time left, a receiver or queue waiter is interrupted, IPC partners are left alone, all others find the signal pending; nothing else changes. |
| Kernel.Kernel.Kill | kernel/noza_os.c:1758-1828 | Numbers 1 to 13, 15, 16, 24 to 27, 30 and 31 end any target but a zombie or one running elsewhere, with exit code 128 + number; 18 makes a stopped target ready; 19 and 20 stop a ready one; 0, 17, 21 to 23, 28 and 29 move no thread; a negative number leaves the handler table; the complete effect is that of CallLaws. |
| Kernel.Kernel.SleepThread | kernel/noza_os.c:1648-1661 | A positive duration puts the running thread on the sleep list with its expiry, any other yields; nothing else changes. |
| Kernel.Kernel.Wakeup | kernel/noza_os.c:2273-2292 | Exactly the expired prefix of the sleep list becomes ready. |
| Kernel.Kernel.WakeTimedOut | kernel/noza_os.c:2300-2313 | The head of the timeout list becomes ready with ETIMEDOUT and leaves its queue; the list test that precedes cannot fail. |
| Kernel.Kernel.WakeupSync | kernel/noza_os.c:2294-2318 | Exactly the expired prefix of the timeout list becomes ready with ETIMEDOUT, off its queues too. |
| VidIndex.VidTable.Lookup | kernel/noza_os.c:1800-1812 | The chained search finds the thread indexed under a vid, or nothing if there is none. |
| VidIndex.VidTable.Insert | kernel/noza_os.c:869-883 | Binding an unused vid to an unbound thread adds exactly that entry; the item pool cannot be empty. |
| VidIndex.VidTable.Remove | kernel/noza_os.c:902-925 | Unbinding a thread removes exactly its entry and returns its item. |
| VidIndex.VidTable.FreshVid | kernel/noza_os.c:885-900 | The circular search returns the first unused vid and stops after at most 32 tries. |
| Circular.TriedBound | kernel/noza_os.c:885-900 | Consecutively tried ids that are all in use are no more than the ids in use. |
| Kernel.Kernel.FindThread | kernel/noza_os.c:1800-1812 | A vid leads to the unique thread that is not free and has it, or to none. |
| Kernel.Kernel.FreeItems | kernel/noza_os.c:869-946 | There are as many free vid items as free threads. |
| Kernel.Kernel.CreateThread | kernel/noza_os.c:1600-1637 | The oldest free thread becomes ready under a vid nobody has, the reserved one whenever that is free; the error cases change nothing. |
| Kernel.Kernel.ThreadCreate | kernel/noza_os.c:1830-1844 | The complete effect of a creation, with EINVAL and EAGAIN changing nothing else. |
| FutexTable.Table.GetQueue | kernel/noza_os.c:1319-1353 | With linear probing and no deletion, an address has one slot for ever, a lookup without create finds it if and only if it is present, and a create fails only on a full table. |
| FutexTable.OneSlot | kernel/noza_os.c:1319-1353 | No address is in two slots. |
| Kernel.Kernel.FutexWait | kernel/noza_os.c:1991-2033 | The caller blocks in the queue of its address exactly when the word has the expected value, a slot is there and the timeout is not 0; of the table only the slot of that address changes. |
| Kernel.Kernel.FutexWake | kernel/noza_os.c:2035-2064 | A wake of n releases exactly the min(n, waiting) oldest waiters of that address and no others. |
| TimerTable.FiredOnce | kernel/noza_os.c:1462-1480 | One firing uses up exactly one of the firings due and leads to the same final state. |
| TimerTable.AfterTickNotDue | kernel/noza_os.c:1482-1493 | A timer after its tick is not due. |
| TimerTable.PeriodicTick | kernel/noza_os.c:1474-1493 | From the fields of a due timer with odd flags and a period: the number of its firings and its next deadline, within one period after now. |
| TimerTable.OneShotTick | kernel/noza_os.c:1474-1493 | From the fields: any other due timer fires once and is disarmed, and a timer not due is left alone. |
| TimerTable.ChronicleMeans | kernel/noza_os.c:1482-1493 | Each firing in the log was due at the deadline of its timer plus as many periods as that timer had fired before, in order of time. |
| TimerTable.FiredTotal | kernel/noza_os.c:1482-1493 | Every firing lowers the measure of the drain loop by one. |
| TimerTable.DrainStep | kernel/noza_os.c:1482-1493 | Firing the earliest due timer keeps the log in deadline order and each timer's account exact. |
| TimerTable.RingInsert | kernel/noza_os.c:1364-1404 | Arming a timer keeps the ring equal to the armed set in deadline order. |
| TimerTable.RingRemove | kernel/noza_os.c:1355-1362 | Disarming a timer keeps the ring equal to the armed set in deadline order. |
| TimerTable.Earliest | kernel/noza_os.c:2343-2348 | The least deadline of the armed timers, and none exactly if no timer is armed. |
| TimerTable.Table.Alloc | kernel/noza_os.c:1419-1442 | The first unused entry is taken under the next non-zero id, and none only when all are in use. |
| TimerTable.Table.Lookup | kernel/noza_os.c:1406-1417 | The first timer in use with the id is found. |
| Kernel.Kernel.TimerFire | kernel/noza_os.c:1462-1480 | One firing wakes the oldest waiter or is kept as pending; with the low bit of the flags set and a period the timer is armed again one period later, and otherwise it stays disarmed. |
| Kernel.Kernel.TimerTick | kernel/noza_os.c:1482-1493 | The drain loop ends and timers fire in non-decreasing deadline order. A due timer with odd flags and a period fires (now - deadline) / period + 1 times and is armed for a deadline within one period after now; any other due timer fires once and is disarmed; none else fires. Each firing is one woken waiter or one pending fire; nothing armed is due afterwards. |
| Kernel.Kernel.TimerCreate | kernel/noza_os.c:2066-2075 | The first unused entry goes to the caller under the next id, ENOMEM only if all are in use; nothing else changes. |
| Kernel.Kernel.TimerDelete | kernel/noza_os.c:2077-2092 | Deleting an owned timer cancels all its waiters and clears the entry; others are refused. |
| Kernel.Kernel.TimerArm | kernel/noza_os.c:2094-2123 | Arming sets deadline, period, flags and pending of an owned timer. |
| Syscalls.ArmedFires | kernel/noza_os.c:2094-2123 | A timer armed for a duration and ticked later has fired once for every whole duration passed if its flags are odd, and is still armed; with even flags once if the duration has passed. |
| Syscalls.TimersTicked | kernel/noza_os.c:1482-1493 | From the relation of the tick alone: count, deadline, armed state and pending fires of every timer, in terms of its fields. |
| Kernel.Kernel.TimerCancel | kernel/noza_os.c:2125-2141 | Cancelling disarms an owned timer. |
| Kernel.Kernel.TimerWait | kernel/noza_os.c:2143-2173 | A wait uses up a pending fire, or blocks in the timer's queue. |
| Kernel.Kernel.NextEventDeadline | kernel/noza_os.c:2328-2350 | The least of the heads of the sleep and timeout lists and of all armed timers, with 0 for none; so never later than any armed timer. |
| Kernel.Kernel.ArmDeadline | kernel/noza_os.c:2352-2375 | The tick of that core alone is armed, for the next event or for the end of the quantum if a peer is ready; never later than either. |
| IrqTable.Table.Isr | kernel/noza_os.c:512-532 | An interrupt latches its event, masks its line and sets its bit; with disciplined use nothing is overwritten. |
| IrqTable.Table.Take | kernel/noza_os.c:429-449 | Handing over a queued event makes it in flight and counts one delivery. |
| IrqTable.Table.Acknowledge | kernel/noza_os.c:491-510 | A reply ends the flight and unmasks the line. |
| IrqTable.NextEventFirst | kernel/noza_os.c:475-489 | The event taken is the one of the lowest deliverable line. |
| Kernel.Kernel.IrqDeliver | kernel/noza_os.c:429-449 | An event is handed over exactly when it is queued, not in flight, and the IRQ server waits in a receive. |
| Kernel.Kernel.IrqProcessPending | kernel/noza_os.c:465-473 | Draining the bitmap hands over the lowest deliverable event to a waiting server and leaves no server waiting beside an event. |
| Kernel.Kernel.ReceiveCall | kernel/noza_os.c:1939-1949 | The IRQ server gets the lowest deliverable event first, so a busy server loses none; failing that, and for others, the oldest sender is served or the caller blocks; nothing else changes. |
| Kernel.Kernel.IrqReply | kernel/noza_os.c:491-510 | The line's flight ends and it is unmasked, an event queued meanwhile goes to a waiting server, and the discipline of the lines is kept exactly if the line was in flight; nothing else changes. |
| Kernel.Kernel.ReplyCall | kernel/noza_os.c:1951-1960 | A reply goes to an interrupt line or to a thread on the reply list, by its address, with the complete effect of either, or panics. |
| Kernel.Kernel.SendCall | kernel/noza_os.c:1962-1972 | The complete effect of a call by vid: ESRCH, blocking, rendezvous, or the panic, which needs a target once taken out of a receive. |
| Kernel.Kernel.NonblockSendCall | kernel/noza_os.c:1974-1984 | The complete effect of the non-blocking call, which passes its first two registers on as message and size. |
| Kernel.Kernel.TerminateCall | kernel/noza_os.c:1932-1937 | A thread's own exit cannot fail and has the whole exit effect. |
| Kernel.Kernel.PriorityCall | kernel/noza_os.c:1904-1930 | The low eight bits of the register become the priority, moving a ready thread to the list of it; a priority without ready list ends the model. |
| Kernel.Kernel.SignalCall | kernel/noza_os.c:2196-2213 | The target, if there is one and the number is from 1 to 32, finds the signal pending and is interrupted; nothing else changes. |
| Kernel.Kernel.SignalTake | kernel/noza_os.c:2215-2220 | The pending signals are returned and cleared. |
| Kernel.Kernel.ClockCall | kernel/noza_os.c:2175-2194 | The two words returned are those of the clock in nanoseconds, and nothing else changes. |
| Syscalls.ClockWords | kernel/noza_os.c:2189-2193 | The two words of a clock reading make up the 64-bit value. |
| Kernel.Kernel.ThreadCall | kernel/noza_os.c:2222-2270 | Numbers that are 0 to 6 in eight bits have exactly the effect the table gives them, and keep the invariant. |
| Kernel.Kernel.MessageCall | kernel/noza_os.c:2222-2270 | Numbers that are 7 to 11 in eight bits have exactly the effect the table gives them, and keep the invariant. |
| Kernel.Kernel.WaitCall | kernel/noza_os.c:2222-2270 | Numbers that are 12 to 21 in eight bits have exactly the effect the table gives them, and keep the invariant; none can panic. |
| Kernel.Kernel.ServeCall | kernel/noza_os.c:2421-2427 | Any trap frame is served with the effect of its number in eight bits; other cores go on running what they ran, and only numbers 1 and 20 take a thread out of a receive. |
| Kernel.Kernel.TrapInfo | kernel/noza_os.c:2504-2530 | A trap leaves its registers in the frame of the running thread and changes nothing else. |
| Kernel.Kernel.CheckOutput | kernel/noza_os.c:2412-2419 | A finished call's results are handed out once and nothing else changes. |
| Kernel.Kernel.PickReady | kernel/noza_os.c:2398-2410 | The oldest thread of the most urgent non-empty ready list runs next. |
| Kernel.Kernel.HigherReady | kernel/noza_os.c:2429-2437 | Whether a more urgent thread is ready. |
| Kernel.Kernel.Schedule | kernel/noza_os.c:2456-2499 | One round of the outer scheduler loop: what is due happens, then the oldest of the most urgent ready threads takes the core, and the tick is armed no later than any timer. |
| Kernel.Kernel.RunNext | kernel/noza_os.c:2466-2483 | The oldest of the most urgent ready threads takes the core, gets what its call returned, and the tick is armed; with none ready only the tick is armed. |
| Kernel.Kernel.Enter | kernel/noza_os.c:2466-2494 | One round of the inner scheduler loop is a tick, the effect of the pending call, and then going on, blocking or making way; no other core is disturbed. |
| Kernel.Kernel.Resumed | kernel/noza_os.c:2474-2494 | The thread makes way exactly if a more urgent one is ready or a peer is and the quantum is over, and then queues behind its peers; otherwise it goes on. |
| Kernel.Kernel.Step | kernel/noza_os.c:2439-2500 | Every trap, kernel entry and interrupt is a step of the transition relation, and keeps the invariant or stops the kernel for a reason a thread can bring about. |
| Syscalls.StepPlain | kernel/noza_os.c:2439-2500 | Of all steps only a served reply to a line not in flight breaks the discipline of the lines, and only a served kill or signal call takes a thread out of a receive. |
| Kernel.Kernel.Run | kernel/noza_os.c:2439-2500 | Every sequence of events gives a run, state by state, of the transition relation, and keeps the invariant until it stops. |
| Syscalls.RunDiscipline | kernel/noza_os.c:406-532 | Over every run the lines keep their discipline if and only if no reply to a line misses an event in flight. |
| Syscalls.RunWithoutSignals | kernel/noza_os.c:1123-1150 | Over every run in which no thread makes a kill or signal call, no thread is ever taken out of a receive. |
| Kernel.Start | kernel/noza_os.c:799-867 | The state at power-on: the root thread ready, everything else at rest. |
| Kernel.PowerOn | kernel/noza_os.c:799-867 | From power-on, over every run: the panics for a wrong list, a missing vid item and a failed exit never happen; those for sending or replying at the wrong time do not while no thread makes a kill or signal call; and the interrupt lines stay disciplined if and only if every reply to a line finds it in flight. |
| Kernel.Kernel.Meaning | kernel/noza_os.c:692-794 | In every reachable state: one place per thread agreeing with its state, timeout list and flag agree, nobody waits for a dead thread, a receiver has no pending sender, a vid belongs to one live thread, without signals to receivers a port is ready exactly for receivers, and with disciplined lines each is masked exactly while an event is queued or in flight, never both, and each latched event was delivered once unless it is the queued one. |
| Scenario.CallStops | kernel/noza_os.c:705-717 | A run of ten events from power-on in which a server is signalled out of its receive and then called ends in the send panic. |
| Scenario.ReplyStops | kernel/noza_os.c:765-775 | A run of eleven events from power-on in which a server signalled out of its receive replies ends in the reply panic. |
| Scenario.Panics | kernel/noza_os.c:692-794 | The kernel does stop in these two ways. |
| Kernel.Kernel.KillThread | kernel/noza_os.c:1669-1674 | The kill handler ends any thread but a zombie or one running elsewhere, with the whole exit effect, and only a caller that survives is told 0. |
| Syscalls.KilledRuns | kernel/noza_os.c:1814-1828 | From the effect of a kill alone: it disturbs no other core, and takes a thread out of a receive only if its number is 14, the alarm. |
| CallLaws.KillEnds | kernel/noza_os.c:1669-1674 | Signals 1 to 13, 15, 16, 24 to 27, 30 and 31: a zombie answers ESRCH, one running elsewhere EBUSY, any other target has ended with 128 + number, its joiner told the code and its port waiters interrupted. |
| CallLaws.KillContinues | kernel/noza_os.c:1704-1711 | Signal 18: a stopped thread is ready, last among its peers, and no other moves. |
| CallLaws.KillStops | kernel/noza_os.c:1676-1702 | Signals 19 and 20: a ready thread is last on the stopped list, one running elsewhere answers EBUSY, all others are left alone. |
| CallLaws.KillStopsSelf | kernel/noza_os.c:1676-1702 | Signals 19 and 20 to the caller stop it and empty its core. |
| CallLaws.KillCutsSleep | kernel/noza_os.c:1713-1756 | Signal 14 makes a sleeper ready with EINTR and the time left, high word first. |
| CallLaws.KillInterrupts | kernel/noza_os.c:1713-1756 | Signal 14 makes a receiver or queue waiter ready with EINTR. |
| CallLaws.KillPends | kernel/noza_os.c:1713-1756 | Signal 14 leaves IPC partners alone and sets bit 13 of the pending signals of all others. |
| CallLaws.KillIgnored | kernel/noza_os.c:1663-1667 | Signals 0, 17, 21 to 23, 28 and 29 only return 0. |
| CallLaws.KillRefused | kernel/noza_os.c:1814-1828 | An unknown target answers ESRCH and a number from 32 up EINVAL, unless it is negative as an int. |
| Kernel.Kernel.OtherCall | kernel/noza_os.c:2252-2270 | 255 in eight bits ends the thread; for any other number outside the table ENOSYS is put in the frame, which is marked done, so that it is never handed out. |
| Syscalls.CallRuns | kernel/noza_os.c:2222-2270 | From the call table alone: no call disturbs what another core runs. |
| Syscalls.CallPlain | kernel/noza_os.c:2222-2270 | From the call table alone: only numbers 1 and 20 take a thread out of a receive, only a reply to a line not in flight breaks the discipline of the lines, and no call makes a frame pending. |
| CallLaws.CallNumbers | kernel/noza_os.c:2222-2270 | Which call each number is, and which register is which argument of it. |
| CallLaws.ExitLaw | kernel/noza_os.c:1932-1937 | The caller ends with the code it gives, and its core is empty. |
| CallLaws.SleepLaw | kernel/noza_os.c:1648-1661 | The registers are a signed 64-bit duration, high word first: a positive one puts the caller into the sleep list to expire that much later, any other puts it behind its peers. |
| CallLaws.CreateLaw | kernel/noza_os.c:1830-1844 | The oldest free thread is ready, last among its peers, under a vid nobody had. |
| CallLaws.CreateVidLaw | kernel/noza_os.c:1600-1637 | The vid is the reserved one if that is free, else one of 1 to 65535; the reserved vid 0 is given once. |
| CallLaws.PriorityLaw | kernel/noza_os.c:1904-1930 | A ready thread stands last on the list of its new priority. |
| CallLaws.JoinLaw | kernel/noza_os.c:1846-1878 | Which of the answers a join gets, and what it does to the joined thread and the caller. |
| CallLaws.DetachLaw | kernel/noza_os.c:1880-1902 | A live thread is detached; a zombie is freed, with EINVAL. |
| CallLaws.ReceiveLaw | kernel/noza_os.c:738-753 | The oldest pending sender's vid, pointer and size are received and that sender is owed a reply, or the caller waits with its port ready. |
| CallLaws.ReceiveEventLaw | kernel/noza_os.c:1939-1949 | The thread with vid 65000 receives the lowest line that has an event and none in flight, as 0xFFFF0000 + line. |
| CallLaws.ReplyLaw | kernel/noza_os.c:765-794 | A thread owed a reply is ready with pointer and size, last among its peers; any other reply stops the kernel. |
| CallLaws.ReplyLineLaw | kernel/noza_os.c:491-510 | A reply to 0xFFFF0000 + line ends the flight and unmasks the line, and hands a queued event to a waiting server. |
| CallLaws.SendLaw | kernel/noza_os.c:692-727 | A caller of a thread that does not listen is last in its pending list with its message; a ready port without receiver stops the kernel. |
| CallLaws.MeetLaw | kernel/noza_os.c:692-727 | A caller of a receiving thread hands over vid, pointer and size and is last among those owed a reply. |
| CallLaws.ExchangeLaw | kernel/noza_os.c:692-794 | A call and the reply to the vid it was received under: the receiver gets what was sent and the caller what was replied, whatever happened in between. |
| CallLaws.PollLaw | kernel/noza_os.c:755-763 | The oldest pending sender is received or EAGAIN returned. |
| CallLaws.OfferLaw | kernel/noza_os.c:1974-1984 | A receiving thread gets the target's vid as pointer and the pointer as size; a target that does not listen is EAGAIN, and a ready port without receiver stops the kernel. |
| CallLaws.FutexWaitLaw | kernel/noza_os.c:1991-2033 | When the caller waits, in the queue of its address and with which expiry, and every refusal. |
| CallLaws.FutexWakeLaw | kernel/noza_os.c:2035-2064 | Exactly the oldest min(n, waiting) waiters are ready with 0, in order, behind those that were; the caller gets their number. |
| CallLaws.TimerCreateLaw | kernel/noza_os.c:2066-2075 | The lowest unused entry goes to the caller under the next id. |
| CallLaws.TimerDeniedLaw | kernel/noza_os.c:2077-2173 | An id that no timer has is ESRCH, the timer of another thread EPERM, and nothing else changes. |
| CallLaws.TimerDeleteLaw | kernel/noza_os.c:2077-2092 | All waiters are ready with ECANCELED and the entry is unused. |
| CallLaws.TimerArmLaw | kernel/noza_os.c:2094-2123 | The deadline is now + duration, and the period is the duration if the flags are odd and 0 if not. |
| CallLaws.TimerWaitLaw | kernel/noza_os.c:2143-2173 | A pending fire is used up, else the caller waits in the timer's queue. |
| CallLaws.ClockLaw | kernel/noza_os.c:2175-2194 | The registers hold the time in nanoseconds, high word first; clock 0 adds the offset. |
| CallLaws.SignalLaw | kernel/noza_os.c:2196-2213 | Bit number - 1 of the target's pending signals is set, and a queue waiter, receiver or sleeper is ready with EINTR. |
| CallLaws.NextEventLaw | kernel/noza_os.c:2328-2350 | The next event is the least of the first sleep, the first timeout and all armed timers, 0 exactly for none. |
| CallLaws.ArmedLaw | kernel/noza_os.c:2352-2375 | The tick is the next event, or 10000 from now if that is earlier and a peer is ready. |
| CallLaws.PickLaw | kernel/noza_os.c:2398-2419 | The head of the most urgent non-empty ready list runs, with what its call returned. |
| CallLaws.TickLaw | kernel/noza_os.c:2273-2318 | With no timer due, the expired front of the sleep list is ready with 0, that of the timeout list with ETIMEDOUT, and no other thread is touched. |
| Kernel.Kernel.FireTimers | kernel/noza_os.c:1482-1493 | The drain loop as a relation on the whole state: who is woken with what, and each timer's new deadline and pending count. |
| Kernel.Kernel.Tick | kernel/noza_os.c:2439-2465 | Timers fire, expired sleepers wake, late waiters time out, in this order and with no other effect; no armed timer is due afterwards. |
| Kernel.Kernel.FlushIrqs | kernel/noza_os.c:465-473 | Draining the bitmap changes the state only by handing the lowest deliverable event to a waiting server. |
| Kernel.Kernel.IrqRaised | kernel/noza_os.c:512-532 | A raised line has its event latched and is masked; the invariant is kept while the server waits. |
| TinyAlloc.TinyAlloc.constructor | 3rd_party/tinyalloc_port/tinyalloc.c:93-113 | The empty heap satisfies the invariant with all descriptors fresh. |
| TinyAlloc.TinyAlloc.InsertBlock | 3rd_party/tinyalloc_port/tinyalloc.c:18-45 | A block and its descriptor go before the first block that does not lie lower. |
| TinyAlloc.TinyAlloc.ReleaseBlocks | 3rd_party/tinyalloc_port/tinyalloc.c:48-60 | The descriptors of a merged run go to the head of the fresh list, one after the other. |
| TinyAlloc.TinyAlloc.Compact | 3rd_party/tinyalloc_port/tinyalloc.c:62-90 | In-place coalescing makes every maximal run of touching blocks one block; no descriptor is lost or doubled between free and fresh list. |
| TinyAlloc.OneList | 3rd_party/tinyalloc_port/tinyalloc.c:18-193 | By the invariant every descriptor is on exactly one of the free, used and fresh lists, and once. |
| TinyAlloc.CompactedCount | 3rd_party/tinyalloc_port/tinyalloc.c:62-90 | Coalescing covers exactly the same addresses. |
| TinyAlloc.CompactedSpaced | 3rd_party/tinyalloc_port/tinyalloc.c:62-90 | After coalescing an ordered list no two blocks touch. |
| TinyAlloc.CoverDetermines | 3rd_party/tinyalloc_port/tinyalloc.c:62-90 | A free list whose blocks do not touch is determined by the addresses it covers, so that the used blocks and the top determine it. |
| TinyAlloc.TinyAlloc.Free | 3rd_party/tinyalloc_port/tinyalloc.c:115-135 | Freeing succeeds exactly for the address of a used block, and that block alone goes back; tiling, order, spacing, alignment and descriptor count are kept. |
| TinyAlloc.FreeTiles | 3rd_party/tinyalloc_port/tinyalloc.c:115-135 | Putting a used block back keeps the exact tiling and leaves no two free blocks touching. |
| TinyAlloc.SplitTiles | 3rd_party/tinyalloc_port/tinyalloc.c:156-175 | Splitting a free block keeps the exact tiling. |
| TinyAlloc.TopTiles | 3rd_party/tinyalloc_port/tinyalloc.c:153-155 | Resizing the last block moves the top and keeps the exact tiling. |
| TinyAlloc.NewTiles | 3rd_party/tinyalloc_port/tinyalloc.c:182-191 | A new block above the top keeps the exact tiling. |
| TinyAlloc.TinyAlloc.Take | 3rd_party/tinyalloc_port/tinyalloc.c:145-176 | Cutting a block from a free one shrinks or grows the last block, splits one with enough to spare, or gives it whole. |
| TinyAlloc.TinyAlloc.SplitOff | 3rd_party/tinyalloc_port/tinyalloc.c:166-173 | What is left of a split block goes back among the free ones under a fresh descriptor. |
| TinyAlloc.TinyAlloc.AllocBlock | 3rd_party/tinyalloc_port/tinyalloc.c:137-193 | First fit, then a new block; what is returned is aligned, long enough, inside the limit and apart from all used blocks, and a failure with a fresh descriptor left means no room. |
| TinyAlloc.TinyAlloc.Alloc | 3rd_party/tinyalloc_port/tinyalloc.c:142-201 | If some free block holds the rounded size, or ends the heap and can be resized to it, the address returned is that of such a block and no such block lies lower; it is cut to length exactly if it ends the heap or has the threshold to spare and a descriptor is fresh. Otherwise the bytes are those at the top, and nothing is returned only without a descriptor or room there. |
| TinyAlloc.LowestFit | 3rd_party/tinyalloc_port/tinyalloc.c:142-146 | First fit on the ordered list is the fitting block at the lowest address. |
| TinyAlloc.NoRoom | 3rd_party/tinyalloc_port/tinyalloc.c:142-193 | Completeness: with no fitting block and no room above the top, every interval of the rounded size below the limit meets a used block. |
| TinyAlloc.AllFree | 3rd_party/tinyalloc_port/tinyalloc.c:62-90 | With nothing used the free list is empty or one block spanning the whole tile. |
| TinyAlloc.TinyAlloc.Check | 3rd_party/tinyalloc_port/tinyalloc.c:247-249 | The consistency check always succeeds. |
| Romfs.Image.Pad | util/romfs/romfs_util.c:47-54 | Padding reaches the next multiple of four and changes nothing before it, whatever bytes it writes. |
| Romfs.Image.WriteName | util/romfs/romfs_util.c:59-78 | A name is appended and its table slot leads to it; nothing else changes. |
| Romfs.Image.WriteFile | util/romfs/romfs_util.c:83-123 | A 4-aligned file record is appended and its table slot leads to it; nothing else changes. |
| Romfs.Image.BuildNames | util/romfs/romfs_util.c:56-81 | All names of a directory can be read through its table. |
| Romfs.Image.BuildFiles | util/romfs/romfs_util.c:114-124 | All files of a directory can be read through its table, and its names still can. |
| Romfs.Image.BuildTrees | util/romfs/romfs_util.c:127-140 | All subdirectories can be read through the table, and names and files still can. |
| Romfs.Image.SerializeTree | util/romfs/romfs_util.c:142-159 | Serialising keeps the earlier image and makes the tree readable from where it starts. |
| Romfs.ReadsKeeps | util/romfs/romfs_util.c:56-140 | Neither back-patching earlier tables nor appending changes what a directory record leads to. |
| Romfs.ReadsUnique | util/romfs/romfs_util.c:227-251 | Following the offsets gives one tree only. |
| Romfs.RecordBytes | util/romfs/romfs_util.c:142-159 | A directory record begins with its two counts, two bytes each, the lower first. |
| Romfs.DirectoryBytes | util/romfs/romfs_util.c:127-140 | The eight table bytes of a subdirectory are the offsets of its zero-terminated name and of its record, four bytes each, the lowest first. |
| Romfs.FileNameBytes | util/romfs/romfs_util.c:56-81 | The same for the name of a file. |
| Romfs.FileBytes | util/romfs/romfs_util.c:83-123 | A file record is 4-aligned and holds the size in four bytes and then the bytes. |
| Romfs.Serialize | util/romfs/romfs_util.c:215-225 | Round trip: an image within 32-bit offsets reads back as its tree and as no other. |
| AvlTree.InsertBalanced | service/name_lookup/int_map.c:51-73 | Insertion keeps stored heights exact and the balance within one. |
| AvlTree.InsertAdds | service/name_lookup/int_map.c:51-73 | Insertion keeps search order and adds exactly the given key with its value in the given node. |
| AvlTree.RemoveBalanced | service/name_lookup/int_map.c:81-121 | Removal keeps stored heights exact and the balance within one. |
| AvlTree.RemoveDrops | service/name_lookup/int_map.c:81-121 | Removal keeps search order, removes exactly the given key and frees exactly one node; the successor of a two-child node takes over its value. |
| AvlTree.RemoveExactly | service/name_lookup/int_map.c:93-98 | Removal is exact as a finite map if and only if the node had not two children or its successor held the same value. |
| AvlTree.RemoveSwapsValue | service/name_lookup/int_map.c:93-98 | A tree of three nodes whose last key is left with the value of the removed one. |
| AvlTree.RotateRightSame | service/name_lookup/int_map.c:31-39 | A right turn keeps keys, nodes, order and every lookup. |
| AvlTree.RotateLeftSame | service/name_lookup/int_map.c:41-49 | A left turn keeps keys, nodes, order and every lookup. |
| AvlTree.FibBound | service/name_lookup/int_map.c:51-121 | A tree of height h has at least Fib(h + 2) - 1 nodes. |
| AvlTree.DepthBound | service/name_lookup/string_map.c:48-136 | Sixteen nodes are at most five deep. |
| StringMap.SiMap.RotateRightAt | service/name_lookup/string_map.c:28-36 | The pointer rotation makes the rotated tree and touches two nodes only. |
| StringMap.SiMap.RotateLeftAt | service/name_lookup/string_map.c:38-46 | The pointer rotation makes the rotated tree and touches two nodes only. |
| StringMap.SiMap.InsertValue | service/name_lookup/string_map.c:48-84 | The in-place insertion builds the inserted tree from the same nodes and one pool node. |
| StringMap.SiMap.RemoveValue | service/name_lookup/string_map.c:92-136 | The in-place removal builds the removed tree and returns one node to the pool. |
| StringMap.SiMap.MinNode | service/name_lookup/string_map.c:86-90 | The leftmost node holds the least key. |
| StringMap.SiMap.GetValue | service/name_lookup/string_map.c:145-158 | The search returns what the tree holds under the key. |
| StringMap.SiMap.SetValue | service/name_lookup/string_map.c:160-173 | A new key is added unless the pool is empty; a known one is refused; all other lookups stay. |
| StringMap.SiMap.Clear | service/name_lookup/string_map.c:175-181 | A known key is removed and its node freed; an unknown one is refused. |
| StringMap.SiMap.Shallow | service/name_lookup/string_map.c:145-158 | A search over sixteen nodes goes at most five levels down. |
| NameServer.CodeOrder | service/name_lookup/string_map.c:54-58 | The integer key of a name orders names as strncmp over sixteen bytes does. |
| NameServer.KeyInjective | service/name_lookup/string_map.c:54-58 | Different valid names have different keys. |
| NameServer.AgreesBind | service/name_lookup/name_lookup_server.c:134-178 | A registration keeps the index in agreement with the table. |
| NameServer.AgreesRelease | service/name_lookup/name_lookup_server.c:207-226 | A release keeps them in agreement if and only if the node of the name had not two children. |
| NameServer.AgreedName | service/name_lookup/name_lookup_server.c:207-226 | Under agreement the index leads from a bound name to its own binding. |
| NameServer.LedTo | service/name_lookup/name_lookup_server.c:71-82 | An id leads to a binding exactly if it is the id of that binding. |
| NameServer.Server.ById | service/name_lookup/name_lookup_server.c:71-82 | The first binding with a non-zero id is found. |
| NameServer.Server.ByName | service/name_lookup/name_lookup_server.c:121-132 | The binding with that name is found. |
| NameServer.Server.AllocateId | service/name_lookup/name_lookup_server.c:95-107 | The first unused non-zero id in the circle from the next one on, found within 17 of the 64 tries; the one after it is tried next. |
| NameServer.Server.IndexName | service/name_lookup/name_lookup_server.c:174-175 | The index insertion never fails, because the table had room. |
| NameServer.Server.Register | service/name_lookup/name_lookup_server.c:134-178 | Every outcome of a registration, with names and ids unique and the index keys equal to the bound names before and after; agreement of index and table is kept. |
| NameServer.Server.ResolveName | service/name_lookup/name_lookup_server.c:180-195 | The answer is that of the one binding with the name. |
| NameServer.Server.ResolveId | service/name_lookup/name_lookup_server.c:197-205 | The answer is that of the one binding with the id. |
| NameServer.Server.Release | service/name_lookup/name_lookup_server.c:84-93 | The binding goes together with its index key, and agreement is kept exactly if the node of the name had not two children. |
| NameServer.Server.Unregister | service/name_lookup/name_lookup_server.c:207-226 | By id exactly that binding goes; by name the named binding goes if and only if the index has its id for it, which under agreement it has; every other case is stated too. |
| NameServer.Misled | service/name_lookup/name_lookup_server.c:207-226 | A run of calls after which a bound name is not found by unregister, and then another service is unregistered in its place. |
| AppLauncher.Launcher.FindWaitTarget | service/app_launcher/app_launcher.c:189-216 | The lowest exited child to take is found, else a live child to wait for, else none. |
| AppLauncher.StatusDecodes | user/sys/wait.h:7-10 | The macros of wait.h read back from a status word what the record says: a signal exactly if one of its low seven bits is set, and without a signal the low byte of the exit code. |
| AppLauncher.VerdictReaps | service/app_launcher/app_launcher.c:156-216 | A wait is answered with the pid and the status word, signal & 0x7f or exit code << 8, of the lowest exited child it asks for. |
| AppLauncher.VerdictWaits | service/app_launcher/app_launcher.c:189-216 | Without such a child it stays open exactly while a child it asks for lives, if it asks for one pid or for -1; otherwise it is told that there is none. |
| AppLauncher.Launcher.RecordProcess | service/app_launcher/app_launcher.c:99-131 | The record of a process goes to its own, an unused, or a not running entry, and only an exit can give a pending wait something to take. |
| AppLauncher.RecordedAgain | service/app_launcher/app_launcher.c:99-131 | A known process keeps its entry, and its parent unless a new one is given. |
| AppLauncher.RecordedNew | service/app_launcher/app_launcher.c:83-131 | A new process goes to the lowest unused entry, else in place of the lowest not running; with all running it is not recorded. |
| AppLauncher.Launcher.ServeOne | service/app_launcher/app_launcher.c:223-255 | A pending wait is answered exactly when it has a child to take or none to wait for, with that verdict, and its node goes back to the pool. |
| AppLauncher.Launcher.ServiceWaits | service/app_launcher/app_launcher.c:218-256 | One pass leaves no pending wait with a child to take; with steady parents a second pass does nothing; every answer tells a waiter of an exited child it asked for, whose record is gone, or that it has none; exit records and answers balance, and every waiter is pending or answered once. |
| AppLauncher.Launcher.ExitNotify | service/app_launcher/app_launcher.c:450-461 | An exit is recorded and the waits are serviced, back to rest; every answer then sent is justified by the recorded table. |
| AppLauncher.Launcher.SignalNotify | service/app_launcher/app_launcher.c:463-497 | Stop, continue and kill signals change the recorded state; a kill services the waits. |
| AppLauncher.Launcher.Wait | service/app_launcher/app_launcher.c:499-548 | The outcome is determined by the table: the lowest exited child is reaped, no child is reported only if there is none, and otherwise the wait returns at once, lacks a node, or is left pending newest first. |
| AppLauncher.PoolTake | service/app_launcher/app_launcher.c:167-177 | Taking a node for a wait keeps free and pending nodes a partition of the pool. |
| AppLauncher.PoolGive | service/app_launcher/app_launcher.c:179-187 | Returning a node keeps free and pending nodes a partition of the pool. |
| SyncServer.Server.Enqueue | service/sync/sync_serv.c:49-69 | A request enters the tail of a queue in a pool node; nodes and requests are conserved. |
| SyncServer.Server.Dequeue | service/sync/sync_serv.c:71-98 | The oldest request leaves a queue and its node returns to the pool. |
| SyncServer.Server.Lock | service/sync/sync_serv.c:142-160 | A free mutex is granted at once, a locked one queues the request or refuses it for lack of a node. |
| SyncServer.Server.TryLock | service/sync/sync_serv.c:162-173 | The mutex is granted if free. |
| SyncServer.Server.Unlock | service/sync/sync_serv.c:175-198 | The oldest waiter is granted the mutex, or it becomes free; with only holders unlocking there is at most one holder. |
| SyncServer.Server.Wait | service/sync/sync_serv.c:483-516 | A positive value is taken, else the request queues. |
| SyncServer.Server.TryWait | service/sync/sync_serv.c:518-529 | A positive value is taken, else the request fails. |
| SyncServer.Server.Post | service/sync/sync_serv.c:531-546 | The oldest waiter is served or the value goes up; initial value plus posts equals value plus successful waits. |
| SyncServer.Server.GetValue | service/sync/sync_serv.c:548-555 | The value is reported. |
| SyncServer.Server.Process | service/sync/sync_serv.c:557-610 | Requests with a wrong id, a wrong token or an unknown command are refused without effect, all others have exactly the effect of their command. |
| SyncServer.Server.Meaning | service/sync/sync_serv.c:142-198 | Between requests: an unlocked mutex has no waiters, one that only holders unlocked has one holder exactly when locked, initial value plus posts equals value plus successful waits, waiting is only at value 0, service is in order of arrival, no node is lost, every request is answered once or waits. |
| SyncServer.Server.Run | service/sync/sync_serv.c:200-249 | Every run of requests keeps the invariant, and each of its requests has been answered once or is waiting. |
| Vfs.OverlapSymmetric | service/fs/vfs.c:112-126 | Overlap does not depend on the order of the two paths. |
| Vfs.CoversIff | service/fs/vfs.c:136-142 | A mount point takes exactly its own path and what continues it with a slash. |
| Vfs.OverlapIff | service/fs/vfs.c:112-126 | Two paths other than the root overlap if and only if they are equal or one continues the other with a slash. |
| Vfs.CoversOverlap | service/fs/vfs.c:112-153 | Two mount points that take the same path overlap. |
| Vfs.CoverUnique | service/fs/vfs.c:128-153 | At most one mount point takes a path. |
| Vfs.MatchOrderFree | service/fs/vfs.c:128-153 | The match does not depend on the order of the mount list. |
| Vfs.MountTable.MountAt | service/fs/vfs.c:193-239 | Every outcome of a mount: a path is refused as existing exactly if it is the root, is mounted, or continues a mounted path with a slash or the other way round; mounted paths stay pairwise non-overlapping. |
| Vfs.MountTable.Unmount | service/fs/vfs.c:241-270 | Exactly the mount point with that path goes. |
| Vfs.MountTable.MatchMount | service/fs/vfs.c:128-153 | A mount point is the match if and only if the path is its path or its path, a slash and more; the rest is then empty or what follows that slash. Without a match the rest is what follows the leading slash. |
| Vfs.NormalRebuilds | service/fs/vfs.c:395-419 | On absolute paths normalising equals splitting at slashes, dropping empty parts and joining. |
| Vfs.NormalIdempotent | service/fs/vfs.c:395-419 | Normalising an absolute path twice is normalising it once. |
| Vfs.Normalize | service/fs/vfs.c:395-419 | The in-place buffer edit computes the normalised path. |
| Loader.BitsWritten | service/loader/loader.c:129-157 | What is written into a branch is read back as its low 25 bits with bit 0 cleared. |
| Loader.DisplacementWritten | service/loader/loader.c:129-157 | The displacement read back is the one written, bit 0 cleared, if and only if that fits signed 25 bits. |
| Loader.OpcodeKept | service/loader/loader.c:150-156 | The opcode bits of a branch stay. |
| Loader.DisplacementImm11 | service/loader/loader.c:137-145 | Bits 1 to 11 of a displacement are the instruction's imm11, and bit 0 is clear. |
| Loader.DisplacementImm10 | service/loader/loader.c:137-145 | Bits 12 to 21 of a displacement are the instruction's imm10. |
| Loader.DisplacementJ | service/loader/loader.c:134-145 | Bits 22 and 23 of a displacement are set exactly if J2 and J1 agree with S. |
| Loader.DisplacementSign | service/loader/loader.c:133-145 | The bits from 24 up are all S. |
| Loader.BranchMoves | service/loader/loader.c:129-157 | A relocated branch has displacement old + symbol - address, bit 0 cleared, if and only if that fits signed 25 bits, and keeps its opcode bits. |
| Loader.WordHalves | service/loader/loader.c:163-168 | A word lies in memory with its low half first. |
| Loader.WordGains | service/loader/loader.c:163-168 | An absolute word becomes itself plus the symbol's address. |
| Loader.RelocateSymbol | service/loader/loader.c:159-181 | One site is patched in place and nothing else changes; an unknown type is refused. |
| Loader.Relocate | service/loader/loader.c:214-250 | Every absolute word before the first unworkable entry has gained its symbol's address, every branch has displacement old + symbol - address if and only if that fits, with its opcode kept, and nothing else has changed. |

## Left out

- Assembly context switching, idle contexts, stacks, the multi-core lock and platform timers: hardware.
- Message buffers in user memory, caller identities and `pending_recv_msg`: copied data without effect on scheduling.
- Kernel.Kernel.ArmDeadline: the delay handed to the tick hardware, which is cut to 32 bits, is not modelled.
- Kernel.Kernel.RemoveThread: not for the free and timeout lists, which a thread leaves together with its vid binding or its queue.
- Kernel.Kernel.TimerTick: pending fires are counted without 32-bit wrap-around, and time is not bounded to 64 bits.
- Kernel.Kernel.Schedule: says that the picked thread runs, not how long; round-robin fairness is not claimed because the quantum is re-armed on every return to user code.
- Kernel.Kernel.Wakeup: claims the expired prefix of the sleep list only, since the code does not keep that list sorted.
- Kernel.Kernel.SendCall: at a panic the lists, frames and messages are left open, as in Kernel.Kernel.ReplyCall; nothing happens afterwards.
- Kernel.Kernel.PriorityCall: ends the model at a priority of 8 or more, before the code uses it as an index.
- Condition variables of the synchronisation server.
- SyncServer.Server.Process: without the acquire and release commands, which lose pending nodes; SyncServer.Server.Run starts from acquired objects.
- SyncServer.Server.Post: the semaphore value is a mathematical integer without wrap-around.
- StringMap.SiMap.InsertValue: takes the null-guarded rebalancing tests of `int_map.c`; `string_map.c` reads the child's key before it knows that there is a child.
- The app table, spawning, listing and path fields of the app launcher: they do not take part in waiting.
- TinyAlloc.TinyAlloc.Alloc: addresses do not overflow; `ta_calloc` and its clearing loop are not modelled.
- ROMFS path lookup, file descriptors and the host directory scan.
- ELF parsing, symbol lookup and section loading around the relocation loop; a relocation entry carries its site and its symbol's address.
- Loader.Relocate: sites are pairs of halfwords inside memory and disjoint, as the loader takes them to be.
- The TLSF allocator, device file systems, the shell, libc and test drivers.
