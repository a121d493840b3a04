# SkywalkerM4 remote control: kernel IPC, serial link and control loops, proved in Dafny

The model covers the RT-Thread IPC kernel that the transmitter and the receiver run on, the framing
protocol between them and the flight controller, and the loops of the transmitter that carry real
arithmetic or promise something about a whole sequence of inputs.

## How the model is built

**Kernel.** Every section that runs with interrupts disabled is one atomic step. A thread is named by
the address of its control block; the control-block fields an operation touches (`error`,
`current_priority`, `event_set`, `event_info`) are functions from thread names to values. `IpcObject`
is the part all IPC objects embed: a wait list, and the threads that were resumed or timed out and have
not run on yet. A blocking call is cut where the thread is descheduled: one section up to the
suspension, one from the moment the thread runs on.

Each object comes three times: as a `class` with the fields of the C struct, whose methods are the
sections; as functions on a value, to which the methods are proved equal; and as a machine whose
actions are those functions, applied by any number of threads in any order, together with timer
expiries and resets. The theorems are about every state the machine can reach, and say for each
call exactly when it succeeds, is refused or waits, and what it changes. The classes carry
the state of the machine as a ghost field, and every method keeps its invariant, so the theorems hold of the objects
after any calls; for the event, as long as every receive asked for AND or OR.

- `RtList`, `SList`, `WaitList`, `IpcObject`: the intrusive lists on real links, the suspend and resume
  routines on them, and the order in which waiters are served.
- `Semaphore`, `Mutex`, `Event`, `Mailbox`: conservation of units, ownership and priority
  inheritance, delivery of flags, the ring buffer as a double-ended queue.
- `MessageQueue`, `MessageQueueInv`, `MessageQueueRuns`, `MessageQueueDelivery`, `MessageQueueOutcome`,
  `MessageQueueTransfer`, `MessagePool`: the message queue. Its two
  copies run with interrupts enabled, so each copied byte is a step of its own and the node a call holds
  between its two sections is part of the state. `MessagePool` is the same queue on its `next` fields.
- `Timeout`: the timeout arithmetic of the retry loops on a 32-bit tick counter.

**Link.** `Datalink` is the byte-at-a-time parser, `DatalinkStream` the builder, the drain loop and the
properties of whole streams.

**Loops.** `Button`, `ButtonList`, `Line`, `Normalize`, `Battery`.

## What is not as one might expect

- `Button`: the press counter has 4 bits. With 16 presses in one excursion it is 0 again and no gesture is
  reported; with 17 it is 1, reported as a single click or, on a late release, not at all.
  `Button.OneGesture` has the exact condition, on the samples; `Button.BurstTold` and `Button.LateBurstTold`
  give the samples. The comment at
  `software/remoter/Firmware/applications/button.c:59` speaks of three readings; two are enough, and
  `Button.LevelIsLastPair` follows the code.
- `Button`: the tick counter has 16 bits. A repeated press held for 65536 samples counts as quick again
  (`Button.RepeatReleased`).
- `Line`: the loop counter has 16 bits. For an axis distance of 65534 or 65535 the loop never ends
  (`Line.LoopEndsExactlyIf`) and draws on beyond the end point (`Line.DrawLine`).
- Link: the builder writes frames with 0 or 1 payload bytes as well, but the parser always waits for a type
  and one data byte, so such a frame swallows the start of the next
  (`DatalinkStream.BuilderMeetsParser`). A length byte above 32 makes the parser run past its packet
  (`DatalinkStream.LengthBound`), and a received packet with such a length makes the builder copy past its own
  (`DatalinkStream.Radio.OnPacket`).
- `Timeout`: the recomputed timeout is right exactly as long as a thread does not oversleep it by more than
  2^31 ticks (`Timeout.RemainingIsRest`).
- `Normalize`: calibration stores any reading as the middle, even one outside the range swept before
  (`Normalize.CalibrationGives`). The output still stays in its range and monotone, but the ends or the middle are
  missed (`Normalize.ScaledExact`), and the scaling divides by zero when the middle was calibrated at the maximum
  and the stick gets there (`Normalize.DivisionDefined`, `Normalize.CalibrationDivides`).
- `Event`: no wake-up is lost in runs whose receives ask for AND or OR. The code only asserts that they do, and the
  assertion is compiled out; options with neither are never safe (`Event.SafeOptions`): such a waiter keeps
  satisfied threads behind it asleep (`Event.MalformedWaiterHidesOthers`).
- `Battery`: the comment promises the index of the voltage; the fixed strides end up to 2 below or 3 above it
  (`Battery.LevelNear`, `Battery.BoundAttained`), and on it for 32 of the 100 (`Battery.LevelExact`).
- The mailbox is compiled out in both configurations; it is modelled from its source.

## Model

| member | source | states |
|---|---|---|
| RtList.InsertAfter | software/remoter/rt-thread/include/rtservice.h:58-65 | from any well-formed ring, the new node stands right behind the given one (node or head), and both directions still agree |
| RtList.InsertBefore | software/remoter/rt-thread/include/rtservice.h:73-80 | the same in front of the given node; in front of the head means at the end |
| RtList.Remove | software/remoter/rt-thread/include/rtservice.h:86-92 | the ring closes over the node, which is left as a ring of its own |
| RtList.IsEmpty | software/remoter/rt-thread/include/rtservice.h:98-101 | true exactly for the ring that holds no node |
| RtList.Len | software/remoter/rt-thread/include/rtservice.h:107-118 | the walk ends, with the number of nodes in the ring |
| RtList.RingInverse | software/remoter/rt-thread/include/rtservice.h:58-92 | in a well-formed ring next and prev undo each other at every node and lead to nodes of the ring |
| RtList.RingUnique | software/remoter/rt-thread/include/rtservice.h:58-118 | the links determine the sequence: no ring can be read as two different lists |
| RtList.ListSuspend | software/remoter/rt-thread/src/ipc.c:122-171 | on the real links: FIFO appends, PRIO stops in front of the first less urgent waiter, and the ring is the old one with the node at that place |
| RtList.FindSlot | software/remoter/rt-thread/src/ipc.c:141-165 | the scan ends at the first waiter whose priority number is greater, or at the head |
| RtList.ListResume | software/remoter/rt-thread/src/ipc.c:191-204 | the first waiter leaves the ring, the others stay in order |
| RtList.ListResumeAll | software/remoter/rt-thread/src/ipc.c:220-248 | the loop ends; the list is empty, every former waiter is detached and holds -RT_ERROR |
| RtList.SuspendIsEnqueue | software/remoter/rt-thread/src/ipc.c:129-168 | read as the names of its threads, the ring after a suspension is the wait list the IPC objects compute with |
| RtList.RemoveIsWithout | software/remoter/rt-thread/include/rtservice.h:86-92 | and so is the ring after a node left it, from the front or from anywhere |
| SList.Append | software/remoter/rt-thread/include/rtservice.h:194-204 | the node becomes the last, the rest is unchanged |
| SList.Insert | software/remoter/rt-thread/include/rtservice.h:206-210 | the node becomes the first, the rest is unchanged |
| SList.Len | software/remoter/rt-thread/include/rtservice.h:212-223 | the walk ends, with the number of nodes |
| SList.Remove | software/remoter/rt-thread/include/rtservice.h:225-235 | a node of the list is unlinked and the others keep their order; removing an absent node changes no link |
| SList.Tail | software/remoter/rt-thread/include/rtservice.h:242-247 | the last node, or the head of an empty list |
| WaitList.EnqueueOrdered | software/remoter/rt-thread/src/ipc.c:129-168 | suspending the newest arrival keeps the service order of the flag, adds that thread and moves no other |
| WaitList.WithoutOrdered | software/remoter/rt-thread/src/thread.c:142-146 | a thread that leaves from anywhere in the list leaves the others in service order |
| WaitList.HeadIsNext | software/remoter/rt-thread/src/ipc.c:195-201 | the thread a resume picks comes before every other waiter: earliest under FIFO, most urgent and then earliest under PRIO |
| IpcObject.ServiceOrder | software/remoter/rt-thread/src/ipc.c:122-248 | over every run of suspensions, resumes, timeouts and wake-all the list stays in service order and its head is the thread served first |
| IpcObject.ResumeAllEffect | software/remoter/rt-thread/src/ipc.c:226-245 | waking everybody empties the list, makes exactly the waiters ready, gives exactly them -RT_ERROR |
| IpcObject.ResumeAllLoop | software/remoter/rt-thread/src/ipc.c:226-245 | the loop computes the wake-all of the machine |
| IpcObject.ResumeThreadValid | software/remoter/rt-thread/src/thread.c:126-152 | a timeout or an out-of-order resume takes exactly one thread off the list |
| IpcObject.SuspendJoins | software/remoter/rt-thread/src/ipc.c:122-171 | a suspension puts the caller, and nobody else, behind all under FIFO, behind exactly those that are not less urgent under PRIO, with its error cleared |
| IpcObject.ExpireTimesOut | software/remoter/rt-thread/src/thread.c:126-152 | a thread whose time is up, and nobody else, leaves the list, and its error is -RT_ETIMEOUT |
| IpcObject.CauseReported | software/remoter/rt-thread/src/ipc.c:175-248 | over every run of list operations a thread that runs on finds in its error why it left: RT_EOK, -RT_ETIMEOUT or -RT_ERROR |
| Semaphore.Semaphore.TakeEnter | software/remoter/rt-thread/src/ipc.c:484-553 | a unit is taken, or -RT_ETIMEOUT for no waiting, or the caller joins the wait list with its error cleared; the books of the machine stay true |
| Semaphore.Semaphore.TakeLeave | software/remoter/rt-thread/src/ipc.c:555-564 | the resumed taker returns its error field |
| Semaphore.Semaphore.Put | software/remoter/rt-thread/src/ipc.c:606-653 | the section is the machine's release, which Semaphore.ReleaseOutcome determines; the books stay true |
| Semaphore.Semaphore.Control | software/remoter/rt-thread/src/ipc.c:672-700 | reset wakes everybody with -RT_ERROR and sets the value truncated to 16 bits |
| Semaphore.Conservation | software/remoter/rt-thread/src/ipc.c:503-564 | in every reachable state: initial value plus releases (plus what resets wrote) is the value plus the grants; grants are the successful takes plus the units still on their way; nobody sleeps while the value is positive |
| Semaphore.BlockedTakeResult | software/remoter/rt-thread/src/ipc.c:627-653 | in every reachable state a resumed take returns RT_EOK exactly when a release handed it a unit |
| Semaphore.ApplyInv | software/remoter/rt-thread/src/ipc.c:484-700 | every section of every call, and every timeout, keeps the books of the semaphore |
| Semaphore.TakeOutcome | software/remoter/rt-thread/src/ipc.c:503-553 | a take succeeds at once exactly when the value is positive, and then takes one unit; else it is refused without a trace when it does not wait, and suspended when it does |
| Semaphore.ReleaseOutcome | software/remoter/rt-thread/src/ipc.c:627-653 | a release fails exactly with nobody waiting at the limit; else the first waiter, and nobody else, becomes ready, or the value grows by one |
| Semaphore.ResetOutcome | software/remoter/rt-thread/src/ipc.c:684-700 | everybody waiting gets -RT_ERROR; the value is the new one, modulo 2^16 |
| Semaphore.ReleasedUnitIsTaken | software/remoter/rt-thread/src/ipc.c:503-644 | over every run, after a release nobody waited for, the next take succeeds at once |
| Semaphore.HandedUnitIsReceived | software/remoter/rt-thread/src/ipc.c:555-634 | over every run, the waiter a release resumed returns RT_EOK, whatever happens before it runs on |
| Semaphore.TimedOutTake | software/remoter/rt-thread/src/thread.c:126-152 | over every run, a take whose time is up returns -RT_ETIMEOUT, whatever happens before it runs on |
| Mutex.Mutex.TakeEnter | software/remoter/rt-thread/src/ipc.c:914-1020 | the section is the machine's take, which Mutex.TakeOutcome, TakeFree, TakeOwn, TakeRefused and TakeWaits determine; the invariant of the machine holds again |
| Mutex.Mutex.TakeLeave | software/remoter/rt-thread/src/ipc.c:1022-1044 | the resumed taker returns its error field |
| Mutex.Mutex.ReleaseEnter | software/remoter/rt-thread/src/ipc.c:1090-1197 | refusal of a stranger, one hold less, or the priority put back and the mutex handed to the first waiter or freed; the invariant of the machine holds again |
| Mutex.OwnershipHolds | software/remoter/rt-thread/src/ipc.c:942-1044 | in every reachable state: value is 0 or 1; value 1, no owner and hold 0 are the same; only an owned mutex has waiters; hold is the takes of the owner minus its releases and every other balance is 0 |
| Mutex.BlockedTakeResult | software/remoter/rt-thread/src/ipc.c:1022-1044 | a blocked take returns RT_EOK exactly to the thread that owns the mutex by hand-off |
| Mutex.OverflowOnlyRecursive | software/remoter/rt-thread/src/ipc.c:944-975 | -RT_EFULL comes from a take exactly when the owner already holds 255, and never from a release |
| Mutex.PriorityInheritance | software/remoter/rt-thread/src/ipc.c:991-1009 | in every reachable state the owner is at least as urgent as every waiter, runs at exactly the most urgent of its own priority and those that pressed on it since it acquired the mutex, and every other thread runs at its own |
| Mutex.FinalRelease | software/remoter/rt-thread/src/ipc.c:1128-1188 | the last release restores the releasing thread and hands the mutex to the most urgent waiter, or frees it |
| Mutex.ApplyInv | software/remoter/rt-thread/src/ipc.c:914-1197 | every section of every call, and every timeout, keeps ownership and inheritance |
| Mutex.TakeOutcome | software/remoter/rt-thread/src/ipc.c:942-1020 | a take succeeds at once exactly when the mutex is free or the caller's with hold below 255; another's is refused without waiting and waited for otherwise |
| Mutex.TakeFree | software/remoter/rt-thread/src/ipc.c:958-977 | a free mutex becomes the caller's, with hold 1 and its own priority saved, nobody else changed |
| Mutex.TakeOwn | software/remoter/rt-thread/src/ipc.c:942-956 | the owner's take adds one to hold and changes nothing else |
| Mutex.TakeRefused | software/remoter/rt-thread/src/ipc.c:981-990 | another's mutex stays as it is, the caller's error is -RT_ETIMEOUT |
| Mutex.TakeWaits | software/remoter/rt-thread/src/ipc.c:991-1009 | the caller joins the list, the owner runs at the more urgent of the two priorities, everybody else at the old one |
| Mutex.ReleaseOutcome | software/remoter/rt-thread/src/ipc.c:1107-1127 | a release succeeds exactly for the owner; a stranger's changes nothing; one that is not the last takes one off hold and nothing else |
| Mutex.LastRelease | software/remoter/rt-thread/src/ipc.c:1128-1188 | after the last release everybody runs at its own priority, and the mutex is the first waiter's, held once, or free |
| Mutex.ReleasedIsTaken | software/remoter/rt-thread/src/ipc.c:942-1188 | over every run, a mutex given back with nobody waiting is taken by the next take, whatever its timeout |
| Mutex.TakesAndReleases | software/remoter/rt-thread/src/ipc.c:942-1127 | n more takes of the owner and n releases leave hold, owner and waiters as they were |
| Mutex.TimedOutTake | software/remoter/rt-thread/src/thread.c:126-152 | over every run, a take whose time is up returns -RT_ETIMEOUT, whatever happens before it runs on |
| Event.Event.Put | software/remoter/rt-thread/src/ipc.c:1440-1533 | the scan over the shrinking wait list computes the machine's send, which Event.SendOutcome, SendFlags and ScanDelivers determine; nobody is left asleep on met conditions while every receive was proper |
| Event.Event.Get | software/remoter/rt-thread/src/ipc.c:1565-1661 | immediate delivery, refusal, or suspension with the request stored in the control block; from then on the class promises the machine's invariant only if the options had AND or OR |
| Event.Event.GetLeave | software/remoter/rt-thread/src/ipc.c:1663-1685 | the resumed receiver stores event_set and returns its error |
| Event.Event.Control | software/remoter/rt-thread/src/ipc.c:1703-1730 | reset wakes everybody with -RT_ERROR and clears all flags |
| Event.Event.TimeOut | software/remoter/rt-thread/src/thread.c:126-152 | an expiring timer takes one waiter off the list and keeps the invariant |
| Event.DeliverMeets | software/remoter/rt-thread/src/ipc.c:1475-1510 | a delivery is non-empty, part of the request and of the flags, and the whole request for AND |
| Event.ImmediateDelivers | software/remoter/rt-thread/src/ipc.c:1597-1634 | a receive that need not block stores and clears exactly what the reference delivery says, and blocks exactly when that gives nothing and waiting is allowed |
| Event.ScanDelivers | software/remoter/rt-thread/src/ipc.c:1463-1519 | a send serves the waiters in list order by the same reference, each on the flags its predecessors left; exactly the satisfied ones are resumed |
| Event.SendLeavesNobody | software/remoter/rt-thread/src/ipc.c:1463-1519 | a waiter a send leaves behind is not satisfied by the final flags, although flags were cleared during the scan |
| Event.NoLostWakeUp | software/remoter/rt-thread/src/ipc.c:1460-1647 | in every reachable state of a run whose receives ask for AND or OR, no suspended thread has its condition met |
| Event.BlockedReceive | software/remoter/rt-thread/src/ipc.c:1663-1685 | a blocked receive that succeeds stores what the send that resumed it delivered: non-empty, part of the request, all of it for AND |
| Event.MalformedWaiterHidesOthers | software/remoter/rt-thread/src/ipc.c:1493-1499 | reached by the calls of the interface alone: after any options with neither AND nor OR have queued in front of an OR waiter, under either queueing, a send returns -RT_EINVAL and the satisfied thread sleeps on |
| Event.SafeOptions | software/remoter/rt-thread/src/ipc.c:1493-1499 | options are safe to pass in every run whose other receives are well formed exactly when they ask for AND or OR |
| Event.SatisfiedMeans | software/remoter/rt-thread/src/ipc.c:1475-1499 | the condition is all of the flags under AND, also together with OR, one of them under OR, never without either |
| Event.SendOutcome | software/remoter/rt-thread/src/ipc.c:1451-1533 | a send fails exactly without flags, which changes nothing, or with -RT_EINVAL when a waiter has neither AND nor OR |
| Event.SendFlags | software/remoter/rt-thread/src/ipc.c:1461-1519 | after a send the flags are the old and the new ones less what the resumed CLEAR waiters were given; with nobody waiting all of them, and nothing else changes |
| Event.RecvOutcome | software/remoter/rt-thread/src/ipc.c:1588-1661 | a receive fails without flags to wait for, is satisfied at once exactly if its condition is met, else is refused or suspended by its timeout; other threads' requests are untouched |
| Event.FlagStep | software/remoter/rt-thread/src/ipc.c:1461-1647 | a flag is set after any step exactly if it was set or is sent in it and the step does not take it away by a CLEAR delivery or a reset |
| Event.SentIsReceived | software/remoter/rt-thread/src/ipc.c:1461-1647 | over every run, a flag sent, until a CLEAR delivery of it or a reset, is returned at once to any receive for it |
| Event.TimedOutRecv | software/remoter/rt-thread/src/thread.c:126-152 | over every run, a receive whose time is up returns -RT_ETIMEOUT, whatever happens before it runs on |
| Mailbox.Mailbox.PushBack | software/remoter/rt-thread/src/ipc.c:2085-2106 | the ring content grows by the mail at the back, across any wrap-around; the overflow exit is not taken |
| Mailbox.Mailbox.PushFront | software/remoter/rt-thread/src/ipc.c:2183-2197 | the ring content grows by the mail at the front, across any wrap-around |
| Mailbox.Mailbox.PopFront | software/remoter/rt-thread/src/ipc.c:2340-2352 | the front mail is taken, the rest is unchanged, across any wrap-around |
| Mailbox.WrapIsModulo | software/remoter/rt-thread/src/ipc.c:2087-2089 | the offset arithmetic is addition modulo size; with the class invariant, in_offset is out_offset plus entry modulo size |
| Mailbox.Mailbox.Send | software/remoter/rt-thread/src/ipc.c:1991-2125 | append and resume a receiver, or refuse, or suspend the sender; the invariant of the machine holds again |
| Mailbox.Mailbox.SendWoken | software/remoter/rt-thread/src/ipc.c:2060-2083 | a resumed sender returns its error or goes round the loop again |
| Mailbox.Mailbox.SendUrgent | software/remoter/rt-thread/src/ipc.c:2164-2217 | prepend and resume a receiver, or refuse |
| Mailbox.Mailbox.Recv | software/remoter/rt-thread/src/ipc.c:2245-2374 | take the front and resume a sender, or refuse, or suspend the receiver; the invariant of the machine holds again |
| Mailbox.Mailbox.RecvWoken | software/remoter/rt-thread/src/ipc.c:2315-2338 | a resumed receiver returns its error or goes round the loop again |
| Mailbox.Mailbox.Control | software/remoter/rt-thread/src/ipc.c:2393-2422 | reset empties the box and wakes both lists with -RT_ERROR |
| Mailbox.Mailbox.TimeOut | software/remoter/rt-thread/src/thread.c:126-152 | an expiring timer takes one waiter off its list and keeps the invariant |
| Mailbox.NoLostWakeUp | software/remoter/rt-thread/src/ipc.c:2108-2365 | in every reachable state the box holds at most size mails; while receivers sleep every mail, and while senders sleep every free slot, has a resumed thread on its way to it |
| Mailbox.FirstInFirstOut | software/remoter/rt-thread/src/ipc.c:1991-2374 | without urgent mails and resets, over every interleaving the mails received are the mails sent, in order, the rest being in the box |
| Mailbox.NothingLost | software/remoter/rt-thread/src/ipc.c:1991-2374 | with urgent mails too, every mail sent is received exactly once or still in the box |
| Mailbox.SendOutcome | software/remoter/rt-thread/src/ipc.c:2015-2125 | a send succeeds exactly while there is room, appending its mail and waking the first receiver; on a full box it is refused without a trace, or suspended |
| Mailbox.UrgentOutcome | software/remoter/rt-thread/src/ipc.c:2174-2217 | an urgent send succeeds exactly while there is room, and its mail is the first |
| Mailbox.RecvOutcome | software/remoter/rt-thread/src/ipc.c:2270-2374 | a receive succeeds exactly while there is a mail, and takes the first and wakes the first sender; else it is refused without a trace, or suspended |
| Mailbox.SendResumeOutcome | software/remoter/rt-thread/src/ipc.c:2060-2083 | a woken sender returns its error, or tries again as a new one would |
| Mailbox.RecvResumeOutcome | software/remoter/rt-thread/src/ipc.c:2315-2338 | a woken receiver returns its error, or tries again as a new one would |
| Mailbox.StepRefines | software/remoter/rt-thread/src/ipc.c:1991-2414 | every section is the operation on a bounded double-ended queue that the box in front of it calls for, and the mails sent and received are those pushed and popped |
| Mailbox.RunRefines | software/remoter/rt-thread/src/ipc.c:1991-2414 | over every run the box holds what the double-ended queue holds |
| Mailbox.TimedOutCall | software/remoter/rt-thread/src/thread.c:126-152 | over every run, a call whose time is up returns -RT_ETIMEOUT, whatever happens before it runs on |
| MessagePool.Queue.constructor | software/remoter/rt-thread/src/ipc.c:2486-2540 | the loop chains all nodes into the free list, last node first, and the invariant of the machine holds |
| MessagePool.Queue.SendFirst | software/remoter/rt-thread/src/ipc.c:2749-2859 | the first section of a send on the links: refusals, suspension, or the head of the free list |
| MessagePool.Queue.SendAgain | software/remoter/rt-thread/src/ipc.c:2831-2859 | a resumed sender returns its error or goes round the loop again |
| MessagePool.Queue.UrgentFirst | software/remoter/rt-thread/src/ipc.c:2960-2993 | the first section of an urgent send |
| MessagePool.Queue.EndNode | software/remoter/rt-thread/src/ipc.c:2864-2865 | the unlocked write to next touches neither list |
| MessagePool.Queue.CopyByteIn | software/remoter/rt-thread/src/ipc.c:2866-2867 | one byte of the unlocked copy changes one byte of one node |
| MessagePool.Queue.LinkTail | software/remoter/rt-thread/src/ipc.c:2869-2912 | the node becomes the tail: head, tail and next fields again chain the queue, entry counts it, a receiver is resumed |
| MessagePool.Queue.LinkHead | software/remoter/rt-thread/src/ipc.c:3001-3037 | the node becomes the head, and the tail of an empty queue |
| MessagePool.Queue.RecvFirst | software/remoter/rt-thread/src/ipc.c:3068-3181 | the first section of a receive on the links is the machine's, which MessageQueueOutcome.RecvOutcome determines: refusal, suspension, or the unlinked head; tail becomes null with the last node |
| MessagePool.Queue.RecvAgain | software/remoter/rt-thread/src/ipc.c:3143-3181 | a resumed receiver returns its error or goes round the loop again |
| MessagePool.Queue.CopyByteOut | software/remoter/rt-thread/src/ipc.c:3186-3187 | one byte of the unlocked copy out |
| MessagePool.Queue.GiveBack | software/remoter/rt-thread/src/ipc.c:3189-3213 | the node becomes the head of the free list, a sender is resumed |
| MessagePool.Queue.Control | software/remoter/rt-thread/src/ipc.c:3234-3283 | the loop moves every queued node to the free list and ends; nodes of calls in flight are left alone |
| MessagePool.Queue.TimeOut | software/remoter/rt-thread/src/thread.c:126-152 | an expiring timer takes one waiter off its list and keeps the invariant |
| MessagePool.LinksOf | software/remoter/rt-thread/src/ipc.c:2520-2531 | on the links, after any methods: head and tail are null together, exactly when entry is 0; next leads from head through entry different nodes to the tail and ends; the free list is acyclic as well and shares no node with the queue |
| MessageQueueRuns.PoolConservation | software/remoter/rt-thread/src/ipc.c:2520-2531 | over every interleaving of sends, urgent sends, receives, timeouts and resets, with every byte of the unlocked copies a step of its own: each node is on the free list, in the queue or in one call, never in two, never twice, none lost; entry is the length of the queue |
| MessageQueueRuns.LinkNeverOverflows | software/remoter/rt-thread/src/ipc.c:2880-2890 | the entry overflow exits of both sends cannot be reached |
| MessageQueueRuns.NoLostWakeUp | software/remoter/rt-thread/src/ipc.c:2892-3203 | in every reachable state, while receivers sleep every queued message, and while senders sleep every free node, has a resumed thread on its way to it |
| MessageQueueRuns.StepRefines | software/remoter/rt-thread/src/ipc.c:2869-3193 | each section is one operation of a double-ended queue of messages, each copy step none |
| MessageQueueRuns.RunRefines | software/remoter/rt-thread/src/ipc.c:2749-3271 | over every run the queued messages are those of the double-ended queue run on the same operations |
| MessageQueueRuns.TakesFront | software/remoter/rt-thread/src/ipc.c:3168-3175 | a receiver takes the message at the front |
| MessageQueueRuns.MessageKept | software/remoter/rt-thread/src/ipc.c:3183-3193 | no step of any thread changes the message a receiver took before its second section |
| MessageQueueRuns.DeliveredIntact | software/remoter/rt-thread/src/ipc.c:3186-3187 | a completed receive has stored min(size, msg_size) bytes that agree with the message as its sender passed it, up to the smaller length |
| MessageQueueRuns.QueuedBytesStable | software/remoter/rt-thread/src/ipc.c:2862-2867 | no byte of a node changes while it is queued |
| MessageQueueRuns.FirstInFirstOut | software/remoter/rt-thread/src/ipc.c:2869-3175 | without urgent messages and resets the messages are taken in the order of their link sections, none lost or doubled |
| MessageQueueRuns.NothingLost | software/remoter/rt-thread/src/ipc.c:2869-3175 | with urgent messages too, every message linked is taken exactly once or still queued |
| MessageQueueDelivery.DeliversTaken | software/remoter/rt-thread/src/ipc.c:3168-3193 | over every run each completed receive stored min(size, msg_size) bytes that are its message's as far as that goes, and the messages delivered with those still in receivers' hands are the messages taken, each once |
| MessageQueueDelivery.DeliversLinked | software/remoter/rt-thread/src/ipc.c:2864-3193 | without resets every message linked was delivered once, or is in one receiver's hands, or is queued |
| MessageQueueOutcome.SendOutcome | software/remoter/rt-thread/src/ipc.c:2768-2862 | a send fails exactly when the message is too long or no node is free and it does not wait; it gets a node exactly when one is free, and sleeps otherwise |
| MessageQueueOutcome.UrgentOutcome | software/remoter/rt-thread/src/ipc.c:2960-2993 | an urgent send gets a node exactly when one is free and the message fits |
| MessageQueueOutcome.SendResumeOutcome | software/remoter/rt-thread/src/ipc.c:2831-2859 | a woken sender returns its error, or tries again as a new one would |
| MessageQueueOutcome.LinkOutcome | software/remoter/rt-thread/src/ipc.c:2869-2912 | the end of a send returns RT_EOK with its message counted, at the back or urgent at the front, and the first receiver awake |
| MessageQueueOutcome.RecvOutcome | software/remoter/rt-thread/src/ipc.c:3097-3175 | a receive takes a message exactly when there is one, whatever its timeout; else it is refused without a trace, or sleeps |
| MessageQueueOutcome.RecvResumeOutcome | software/remoter/rt-thread/src/ipc.c:3143-3175 | a woken receiver returns its error, or takes a message exactly when there is one |
| MessageQueueOutcome.PutBackOutcome | software/remoter/rt-thread/src/ipc.c:3189-3213 | the end of a receive returns RT_EOK with its node free again and the first sender awake |
| MessageQueueOutcome.ResetOutcome | software/remoter/rt-thread/src/ipc.c:3234-3283 | a reset frees exactly the queued nodes and wakes everybody with -RT_ERROR |
| MessageQueueOutcome.TimedOutCall | software/remoter/rt-thread/src/thread.c:126-152 | over every run, a call whose time is up returns -RT_ETIMEOUT, whatever happens before it runs on |
| MessageQueueTransfer.SendArrives | software/remoter/rt-thread/src/ipc.c:2749-2912 | the steps of a send that finds a node lead to its message at the back of the queue and touch no other call |
| MessageQueueTransfer.UrgentArrives | software/remoter/rt-thread/src/ipc.c:2960-3037 | those of an urgent send to its message at the front |
| MessageQueueTransfer.RecvDelivers | software/remoter/rt-thread/src/ipc.c:3068-3213 | the steps of a receive that finds a message lead to as much of the first one as fits, and leave the rest |
| MessageQueueTransfer.SendThenRecv | software/remoter/rt-thread/src/ipc.c:2749-3213 | a message sent through an empty queue comes out as it went in |
| MessageQueueInv.ApplyInv | software/remoter/rt-thread/src/ipc.c:2749-3283 | every step keeps the pool, the contents of nodes and copies, the wait lists and the wake-up accounting |
| MessageQueueInv.ResetInv | software/remoter/rt-thread/src/ipc.c:3234-3283 | a reset keeps the invariant with calls in flight on either side of their copies |
| Timeout.Retry | software/remoter/rt-thread/src/ipc.c:2300-2338 | the retry loop shared by the four blocking calls computes the recursion the theorems are about |
| Timeout.TickDeltaIsElapsed | software/remoter/rt-thread/src/ipc.c:2331-2333 | the unsigned difference of two readings is the time slept, across a wrap of the counter |
| Timeout.RemainingIsRest | software/remoter/rt-thread/src/ipc.c:2077-2082 | the recomputed timeout is the rest of it, or 0, exactly when the thread did not oversleep by more than 2^31 ticks |
| Timeout.TimeIsKept | software/remoter/rt-thread/src/ipc.c:2024-2083 | over any number of suspensions the timeout is the initial one less all time slept; the call sleeps on exactly while there is no error, no resource and time left |
| Timeout.ForeverNeverGivesUp | software/remoter/rt-thread/src/ipc.c:2077-2082 | a negative timeout never ends in a timeout |
| Timeout.ForeverEndsRight | software/remoter/rt-thread/src/ipc.c:2060-2083 | a call that waits forever ends with the first error it is resumed with or the first resume that finds the resource, whichever is first, and not before |
| Datalink.Checksum | software/remoter/Receiver/applications/datalink.c:20-29 | the loop computes the sum of the bytes modulo 256 |
| Datalink.SumIsTotal | software/remoter/Receiver/applications/datalink.c:20-29 | that sum, built up with 8-bit additions, is the arithmetic sum modulo 256 |
| Datalink.SumDetects | software/remoter/Receiver/applications/datalink.c:20-29 | a single changed byte changes the checksum |
| DatalinkStream.Link.ParseChar | software/remoter/Receiver/applications/datalink.c:31-82 | on any byte in any state it can be in, the parser in place takes exactly the step of the model, or is about to store outside the packet, which needs a length byte above 32 |
| DatalinkStream.Link.Drain | software/remoter/Receiver/drivers/drv_radio.c:154-165 | over any bytes the loop consumes them up to the first complete frame, or all of them, or up to the first store outside the packet |
| DatalinkStream.SoundStep | software/remoter/Receiver/applications/datalink.c:37-64 | every byte keeps index and sum consistent with the state, and only a length byte above 32 leads outside the packet |
| DatalinkStream.Radio.OnPacket | software/remoter/Receiver/drivers/drv_radio.c:62-82 | a bind packet is dropped while the link is down; any other of at most 32 bytes is written as magic, checksum, rssi, len, payload and nothing else of the buffer; for a longer one, and no other, the copy leaves the buffer |
| Datalink.FrameOutcome | software/remoter/Receiver/applications/datalink.c:33-80 | any frame of length at most 32 brings the parser back to SYNC at byte 4 + max(len, 2), delivered exactly if its checksum fits, else counted once |
| DatalinkStream.NoEarlySync | software/remoter/Receiver/applications/datalink.c:33-80 | and not before that byte |
| DatalinkStream.BuilderMeetsParser | software/remoter/Receiver/drivers/drv_radio.c:72-80 | the parser completes what the builder wrote, with its rssi and payload, exactly when the payload has at least two bytes; after a shorter one it is not back in SYNC |
| DatalinkStream.RoundTrip | software/remoter/Receiver/applications/datalink.c:31-82 | over any stream of frames and stray bytes other than the magic, a frame is delivered exactly at the last byte of each frame sent, equal to it, and the parser ends in SYNC without an error counted |
| DatalinkStream.CorruptionDetected | software/remoter/Receiver/applications/datalink.c:64-71 | changing one checksum, type or data byte of a frame: nothing delivered, one error, back in SYNC |
| DatalinkStream.LengthBound | software/remoter/Receiver/applications/datalink.c:61-64 | the parser stays inside the packet for a whole frame exactly when its length byte is at most 32 |
| DatalinkStream.FramesAccounted | software/remoter/Receiver/applications/datalink.c:64-75 | over any bytes the frames that ended are those delivered plus those counted as errors, modulo 2^32 |
| Button.Button.Handler | software/remoter/Firmware/applications/button.c:51-154 | the handler in place takes exactly the step of the model, with its callbacks in order |
| Button.LevelIsLastPair | software/remoter/Firmware/applications/button.c:58-67 | over any samples a settled level is that of the last two equal samples in a row: a lone differing sample never changes it |
| Button.SecondSampleSettles | software/remoter/Firmware/applications/button.c:58-67 | the level of a new button is that of its second sample |
| Button.PressesAlternate | software/remoter/Firmware/applications/button.c:70-153 | over any samples PRESS_DOWN and PRESS_UP strictly alternate, PRESS_DOWN first |
| Button.ExcursionReports | software/remoter/Firmware/applications/button.c:70-153 | what an excursion from state 0 and back reports, for any number of presses, by how it ended |
| Button.LevelInside | software/remoter/Firmware/applications/button.c:58-141 | at every sample of an excursion the button is in a held state exactly while the debounced level is Down, and the PRESS_DOWN calls are the rises of that level |
| Button.GestureTold | software/remoter/Firmware/applications/button.c:98-141 | which gesture the samples of an excursion give, for any number of presses, released in time or late |
| Button.OneGesture | software/remoter/Firmware/applications/button.c:98-141 | by the samples alone: exactly one of single click, long press and repeat is reported, unless the 4-bit press count wrapped to 0, or to 1 with a late release, when none is; below 16 presses a double click exactly for two |
| Button.BurstTold | software/remoter/Firmware/applications/button.c:98-118 | n quick clicks on a new button are an excursion of n presses, of which nothing is reported when n is a multiple of 16 |
| Button.LateBurstTold | software/remoter/Firmware/applications/button.c:120-139 | n quick clicks and one held too long are n + 1 presses ending in a late release, of which nothing is reported when n is a multiple of 16 |
| Button.HeldTimeline | software/remoter/Firmware/applications/button.c:84-95 | a first press held is silent for 75 samples, a long press at sample 76, LONG_HOLD at every sample after it |
| Button.ReleasedTimeline | software/remoter/Firmware/applications/button.c:98-118 | a release not followed by a press is silent for 15 samples, and its gesture comes at sample 16 |
| Button.RepeatReleased | software/remoter/Firmware/applications/button.c:120-139 | a repeated press is released in time exactly if held for less than 15 samples, modulo the 65536 of the tick counter |
| Button.EventIsLastCall | software/remoter/Firmware/applications/button.c:40-154 | the event a button reports when asked is the last call made in the step, or the one before |
| Button.TimeStarts | software/remoter/Firmware/applications/button.c:72-139 | the time is counted from every change of the level in an excursion, and a press when it comes, the first as 1 |
| ButtonList.List.Start | software/remoter/Firmware/applications/button.c:161-171 | a listed button is refused with -1, any other becomes the first |
| ButtonList.List.Stop | software/remoter/Firmware/applications/button.c:178-188 | the button is unlinked, the others keep their order; an absent button changes nothing |
| Line.DrawLine | software/remoter/Firmware/drivers/drv_lcd.c:377-411 | for any end points and any number of rounds: each pixel is at the closed form of its round; the loop ends after distance + 2 of them, or never when the distance is 65534 or more |
| Line.StepsAreCeiling | software/remoter/Firmware/drivers/drv_lcd.c:400-411 | after t rounds an axis of length d has made ceil(t * d / distance) - 1 steps |
| Line.MajorAxis | software/remoter/Firmware/drivers/drv_lcd.c:400-411 | the longer axis makes a step in every round but the first |
| Line.LineConnects | software/remoter/Firmware/drivers/drv_lcd.c:377-411 | the line starts and ends at the end points, consecutive pixels are equal or touch, all lie in the box of the end points |
| Line.Deviation | software/remoter/Firmware/drivers/drv_lcd.c:400-411 | no pixel is a whole pixel away from the ideal line |
| Line.LoopEndsExactlyIf | software/remoter/Firmware/drivers/drv_lcd.c:395 | the 16-bit counter can leave the loop exactly for distances up to 65533 |
| Normalize.RadioDataNormalize | software/remoter/Firmware/applications/radio_thread.c:33-53 | clamping and the two branches compute the value that Normalize.ScaledOnLine determines, wherever the middle lies; the 16-bit assignment loses nothing |
| Normalize.ScaledBounds | software/remoter/Firmware/applications/radio_thread.c:33-53 | the result lies in the output range, and on its side of the output middle, wherever the middle of the input lies |
| Normalize.ScaledExact | software/remoter/Firmware/applications/radio_thread.c:43-50 | the maximum is reached exactly if the middle is not above it, the minimum exactly if the middle is above it, and the middle is exact exactly if it is not above the maximum nor too far below the minimum |
| Normalize.ScaledOnLine | software/remoter/Firmware/applications/radio_thread.c:43-50 | the result is the floor of the line through the calibration points at the clamped reading; Normalize.OnLineUnique: no other value is |
| Normalize.ProductsFit | software/remoter/Firmware/applications/radio_thread.c:45-49 | the products formed fit a 32-bit int |
| Normalize.ScaledMonotone | software/remoter/Firmware/applications/radio_thread.c:33-53 | a higher reading never gives a lower value, wherever the middle lies |
| Normalize.DivisionDefined | software/remoter/Firmware/applications/radio_thread.c:43-50 | the division by zero happens exactly when the middle was calibrated at the maximum and the clamped reading reaches it |
| Normalize.CalibrationGives | software/remoter/Firmware/applications/radio_thread.c:20-29 | any sweep and any last reading leave an ordered range that covers the sweep, with the last reading as middle |
| Normalize.CalibrationDivides | software/remoter/Firmware/applications/radio_thread.c:20-50 | a calibrated stick has a reading that divides by zero exactly when the last reading of the second step is the maximum of the sweep, and after every sweep that can happen |
| Normalize.Report | software/remoter/Firmware/applications/radio_thread.c:245-261 | for any calibration and readings that do not divide by zero: each stick is scaled by its calibration, roll and throttle reversed, other channels copied; the report carries the 11-bit value of each channel |
| Normalize.SticksInRange | software/remoter/Firmware/applications/radio_thread.c:245-252 | every stick channel lies between 1000 and 2000, wherever its middle was calibrated |
| Normalize.SticksTurned | software/remoter/Firmware/applications/radio_thread.c:245-251 | moved up, roll and throttle go down, pitch and yaw up, with the ends of their travel at 1000 and 2000 |
| Normalize.OthersPassed | software/remoter/Firmware/applications/radio_thread.c:254-256 | every other channel carries its word |
| Normalize.SplitCarries | software/remoter/Firmware/applications/radio_thread.c:259-260 | low byte and three high bits reassemble the 11-bit value |
| Battery.GetLevel | software/remoter/Firmware/applications/battery.c:34-63 | the loop ends and computes the recursive search |
| Battery.SixRounds | software/remoter/Firmware/applications/battery.c:44-61 | for a voltage inside the table the search makes exactly six rounds |
| Battery.LevelNear | software/remoter/Firmware/applications/battery.c:34-63 | the level is at most 2 below and 3 above the true charge |
| Battery.BoundAttained | software/remoter/Firmware/applications/battery.c:34-63 | both ends of that bound are reached, whatever the table: 47 is shown at 49 percent, 3 just above empty |
| Battery.LevelExact | software/remoter/Firmware/applications/battery.c:34-63 | the level is the true charge exactly at the empty end and for the charges the walk can end on |
| Battery.LevelShown | software/remoter/Firmware/applications/battery.c:34-63 | what the gauge shows for every voltage, in closed form |
| Battery.LevelMonotone | software/remoter/Firmware/applications/battery.c:34-63 | more voltage never shows less charge |

## Left out

- Scheduler, timer lists, object registry, hooks, debug output: only their effect on a thread is modelled, as
  a suspension, a resume, or a timer expiry that may come at any moment.
- `rt_xxx_create`, `rt_xxx_delete`, `rt_xxx_detach`: the first two need the heap, which is off; they repeat
  initialisation and the wake-all that reset already has.
- `rt_xxx_trytake`, `rt_mb_send`, `rt_mq_send`: calls of the modelled functions with timeout 0.
- Several mutexes held by one thread, and priorities changed from outside while a thread waits or owns: the
  saved priority is per mutex and promises nothing there.
- Signals and other kernel services that resume a waiting thread.
- SMP locking: compiled out.
- Class fields `parent` and `senders` hold the wait lists as sequences of names; that the links of `RtList` carry those
  sequences is proved once, by its last two lemmas, and not again inside each object.
- Event.Event.Put: flag words are sets of bit positions, not bounded to 32 of them.
- MessagePool.Queue.constructor: starts from a pool already cut into nodes; the alignment of the message size and the
  division of the pool size by the node size are not modelled.
- MessagePool.Queue.CopyByteIn: the copy goes byte by byte in ascending order; word copies are several such steps
  at once.
- Timeout.Retry: one loop stands for the four of the source, and the sleeps it goes through are given as a list.
- Mailbox.Mailbox.SendWoken: the mail and the remaining timeout are parameters, being local variables of the call.
- DatalinkStream.Link.ParseChar, DatalinkStream.Radio.OnPacket: what a store behind the packet does to the memory
  there is not modelled; it is a result of its own, at which the model stops.
- Line.DrawLine: the row and the column are unbounded integers; in the loop that never ends they would leave their
  32 bits after some 2^31 rounds.
- Battery.GetLevel: voltages are real numbers, not floats, and the table is any strictly increasing one of 101 entries
  from 3.2 to 4.2; the 101 constants of the firmware are not repeated.
- Normalize.RadioDataNormalize: requires a minimum not above its maximum and an ordered output, as calibration and
  the fixed output ranges give, products that fit a 32-bit int, and a divisor that is not 0.
- The timing of the calibration steps, flight-mode encoder, sounds, display pages, USB, radio and register access: interface code
  or foreign libraries.
- `button_process`, `button_attach`, `get_button_event`: a walk that calls the handler, and two accessors.
