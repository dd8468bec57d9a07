# Verification model of the coroutine web server

The repository is a C++ web server on stackful coroutines: one scheduler per thread over epoll, channels, buffered
TCP connections, a WebSocket codec and an HTTP/1.1 layer. This project models the parts in which state, interleaving
or framing make mistakes easy, and proves what those parts promise. `dafny verify dfyconfig.toml` checks it.

## How it is laid out

| files | component |
|---|---|
| Machine, Invariants, Scheduling | one scheduler thread as a step machine, its global invariant, and what holds over whole runs |
| TimerHeap, Scheduler, Turns, Runtime | the heap, the Scheduler and Channel objects, and the loop of `run()` over them, tied to the machine |
| PostProtocol, RoundRobin | posting from other threads (interleaving machine) and the choice of the scheduler |
| StreamCursor, Connection | the specification of buffered reading and the Connection object |
| FrameCodec, FrameReading, WebSocket | RFC 6455 framing, its meaning byte by byte, and the endpoint |
| Bytes, HttpText, UrlCodec, HttpParser, Pipelining, Routing, HttpServer | the HTTP layer, from characters to the keep-alive loop |

Code that changes fields is a class with those fields; each method is proved against a function of the old state, and
the theorems are about these functions. The main chains:

- **Scheduler.** A step of `Machine` ends where control passes between the loop and a coroutine. A coroutine is an
  arbitrary script of calls; a `Coroutine` is an entry, by pointer, of a map of live objects, so `delete` is a step
  too. The invariant comes in layers, each with no more premise than it needs: `Safe` and `Accounted` hold in every
  run, `Registered` with one coroutine per fd, `InOrder` of a channel if and only if its own rule is kept, and `Inv`,
  where nobody is stranded, under the whole discipline. `Runtime.Thread.RunLoop` is the loop of `run()` on the objects
  themselves, with the calls of the coroutines, the clock, the answers of epoll_wait and the posted jobs as arbitrary
  inputs; the objects are always where the thread's history of machine steps leads (`LeadsToSafety`), and that history,
  with the jobs and the bodies of the coroutines, is told turn by turn (`Turns`).
- **Streams.** The kernel is an arbitrary schedule of chunks, EAGAINs, closings and errors. The buffered reads answer
  as a cursor over the whole stream does, so chunking cannot be observed. On the cursor, parsing undoes printing for
  frames and for requests; `ReceiveStream` and `ServeStream` put the two together for whole sessions.

## Assumptions

- One coroutine per file descriptor, one parked sender and one parked receiver per channel. The source does not enforce
  this (`ChatRoom::broadcast`, ws/chat_room.h:34-42, can break it), and no theorem assumes more of it than it needs:
  sleeping, being in at most one place, and the value a woken receiver finds need none of it, registrations need the
  rule for fds, a channel its own rule for senders, and only that nobody is stranded needs all of it. Every way of
  breaking it costs a coroutine its wake-up for good: `OverwriteStrandsForever`, `SecondWaitIsDisarmed`,
  `PipeWaitsForever` and `ChannelStrandsForever`; `StrandingIsReachable`, `DisarmingIsReachable` and
  `ChannelStrandingIsReachable` are runs from the start that do.
- epoll_ctl fails only on an fd that is already registered (ADD) or not registered (MOD, DEL). A registered fd other
  than the pipe is reported at most once per arming, the pipe whenever it is readable. The pipe holds at least one byte.
- What a coroutine's own stack holds between two switches is the field `at`: the scheduler call it is suspended in.
- `now_ms()`, the pages written by `send_error`, handlers and middlewares are parameters. Handlers and middlewares
  write to the connection; they do not read from it and do not change the request.
- Byte strings are sequences of characters below 256; letters and spaces are those of the C locale.
- std::push_heap and std::pop_heap leave the order of equal deadlines open; the invariant and the theorems about runs
  allow every order, the heap functions pick one.

## Where the code and its documentation disagree

The model follows the code.

- The repository's README.md:69 gives the loop of `run()` an end condition; the code (core/coroutine.cpp:246) loops forever.
- http/http_parser.h:17-18 says that `parse` refuses a broken connection. `CutHeadIsAccepted` and `CutBodyIsReachable`
  are accepted inputs that the stream cuts short; `CutIsAcceptedIff` says of every such stream whether it is accepted.
- http/http_parser.h:13 says that the body is read by its Content-Length. A length of 2^31 or more is taken for a
  missing one, so that the body is left to be read as the next request (`AnnouncedLength`, `LengthIsHonouredIff`).
- net/connection.h:57 says that `write` returns -1 on an error. It does so if and only if no byte was sent before
  (`ErrorIsReportedIff`); `PartThenError` is the other case.
- http/http_server.cpp:15 says that `*` must be the last segment. Segments behind a `*` are accepted and ignored
  (`BehindStarIsIgnored`).
- Path parameters do not always identify the path: `RepeatedNameForgets` is a counterexample. `SubstitutionRestoresIff`
  is the exact condition on a pattern and a path, `RestoresAllIff` the one on a pattern alone.
- Round-robin ends with the 2^31-th post: `InRangeIff` says which tickets hit a scheduler, `WrapMisses` is one that does not.

## Model

| member | source | states |
|---|---|---|
| `Invariants.SafeStep` | core/coroutine.cpp:142-311 | Every step, whatever the coroutines call, keeps: whoever a container names is alive, tagged for that place and named once; pointers are numbered in sequence; sender and receiver fields exclude each other |
| `Invariants.SafeRun` | core/coroutine.cpp:241-312 | So does every run, without any discipline |
| `Invariants.AccountedRun` | core/coroutine.cpp:142-147 | Over every run each pointer handed out is alive or was deleted exactly once, and none is handed out twice |
| `Invariants.RegisteredStep` | core/coroutine.cpp:188-308 | Every step that keeps to one coroutine per fd, whatever the channels do, keeps the registrations in agreement with who waits, who was woken and which events are left |
| `Invariants.RegisteredRun` | core/coroutine.cpp:188-308 | So does every run with one coroutine per fd |
| `Invariants.InOrderStep` | core/coroutine.h:140-193 | Every step in which no send on this channel meets a parked sender keeps the channel complete and in order |
| `Invariants.StepHolds` | core/coroutine.cpp:142-311 | Under the whole discipline every step keeps the joined invariant, in which moreover each live coroutine is held in the place its tag names |
| `Invariants.RunHolds` | core/coroutine.cpp:241-312 | The joined invariant holds after every disciplined run from any state that has it |
| `Invariants.StartHolds` | core/coroutine.cpp:48-70 | A new scheduler with unused channels has the invariant |
| `Invariants.FireTimersPops` | core/coroutine.cpp:350-356 | An expiry pass takes exactly the fired entries out of the heap |
| `Invariants.FireTimersQueues` | core/coroutine.cpp:350-356 | An expiry pass appends the sleepers to the ready queue in firing order |
| `Scheduling.AtMostOnePlaceEver` | core/coroutine.cpp:142-260 | In every run of a new thread, disciplined or not: a coroutine is in at most one place, is then alive, tagged for that place and not deleted, and nothing is deleted twice |
| `Scheduling.ExactlyOnePlace` | core/coroutine.cpp:142-237 | Under the invariant a live coroutine is in exactly one of processor, ready queue, waiting map, heap, sender or receiver field, at one position, and its tag names that kind of place |
| `Scheduling.DeadAreNowhere` | core/coroutine.cpp:256-260 | Without any discipline: a deleted coroutine is alive nowhere and in no container |
| `Scheduling.NoLostWakeUpEver` | core/coroutine.cpp:188-308 | In every run of a new thread with one coroutine per fd, whatever the channels do: a waiting fd is armed or reported, never both or neither, the registered fds are exactly the pipe, the waiting and the woken ones, and the MOD fallbacks are taken only for an fd somebody is inside wait_event on |
| `Scheduling.NoLostWakeUp` | core/coroutine.cpp:188-218 | The same of any state in which the registrations agree |
| `Scheduling.AddedIffUnused` | core/coroutine.cpp:199-207 | While the registrations agree, the MOD fallbacks are taken exactly when somebody is already inside wait_event on that fd |
| `Scheduling.WaitArms` | core/coroutine.cpp:199-213 | In any state: after a wait its fd is armed, re-armed where it was registered and disarmed, and the other fds are left alone; only an fd that a waiter is on record for and that is not registered stays unregistered |
| `Scheduling.EventWakes` | core/coroutine.cpp:300-307 | While the registrations agree, an event other than the pipe's always finds its waiter and queues it last |
| `Scheduling.PipeWatchedRun` | core/coroutine.cpp:64-69 | Whatever the coroutines do, the wake-up pipe stays registered |
| `Scheduling.WaitRegistersIff` | core/coroutine.cpp:199-213 | A wait keeps the registrations in agreement if and only if nobody is inside wait_event on that fd |
| `Scheduling.WaitKeepsIff` | core/coroutine.cpp:199-213 | wait_event keeps the invariant if and only if nobody is inside wait_event on that fd; the next rows say what breaks otherwise |
| `Scheduling.SendKeepsIff` | core/coroutine.h:140-167 | send keeps the invariant if and only if a receiver is parked or no sender is |
| `Scheduling.RecvKeepsIff` | core/coroutine.h:169-193 | recv keeps the invariant if and only if a sender is parked or no receiver is |
| `Scheduling.OverwriteStrands` | core/coroutine.cpp:209-213 | If the earlier waiter is still parked: the second wait leaves it alive, tagged WAITING, and held nowhere |
| `Scheduling.OverwriteStrandsForever` | core/coroutine.cpp:209-213 | And so it stays in every further run, disciplined or not |
| `Scheduling.SecondWaitIsDisarmed` | core/coroutine.cpp:199-216 | If the earlier waiter is woken but not yet resumed: whatever runs until it resumes, its DEL then takes the registration away from the new waiter, and in every further run the fd is waited for, not registered, and without an event on its way |
| `Scheduling.PipeWaitsForever` | core/coroutine.cpp:287-297 | If the fd is the wake-up pipe: the wait never ends, in any run |
| `Scheduling.LostForever` | core/coroutine.cpp:241-312 | A coroutine that no container names keeps its tag and is never resumed, in any run |
| `Scheduling.ChannelStrandsForever` | core/coroutine.h:155-191 | A send over a parked sender, or a receive over a parked receiver, strands the earlier one for good |
| `Scheduling.StrandingIsReachable` | core/coroutine.cpp:209-213 | A run of a new scheduler in which the earlier waiter is stranded |
| `Scheduling.DisarmingIsReachable` | core/coroutine.cpp:199-216 | One in which the later waiter ends up on an fd that is not registered |
| `Scheduling.ChannelStrandingIsReachable` | core/coroutine.h:155-191 | One for two sends, and one for two receives, on an unused channel |
| `Scheduling.RunConcat` | core/coroutine.cpp:241-312 | Runs compose, and so does their discipline |
| `Scheduling.RunAppends` | core/coroutine.cpp:249-261 | Over any run, disciplined or not, the dispatch log followed by the ready queue only grows at its end |
| `Scheduling.YieldsToAll` | core/coroutine.cpp:175-230 | A yield, or a sleep that is not positive, sets no timer, gives up the processor and queues the caller last: everybody who was ready is dispatched first, in order, and then the caller, whatever runs in between |
| `Scheduling.BoundedWaiting` | core/coroutine.cpp:249-261 | The coroutine at index k of the ready queue is the one dispatched after exactly k others, and not before |
| `Scheduling.SenderFollowsReceiver` | core/coroutine.h:144-153 | A send that meets a parked receiver gets control back only after that receiver has been dispatched |
| `Scheduling.ReceiverGoesOn` | core/coroutine.h:171-182 | A receive that meets a parked sender keeps the processor and has the sender's value; the sender is queued last, and the value counts as handed over |
| `Scheduling.CallerParks` | core/coroutine.h:155-191 | A send without a receiver parks with its value, a receive without a sender parks; the caller is queued nowhere and nothing is handed over |
| `Scheduling.ParkedSendIsReceived` | core/coroutine.h:155-165 | A parked sender stays parked until its value, and no other, is the next one handed to a receiver; given only that no send on this channel meets a parked sender |
| `Scheduling.ResultWaits` | core/coroutine.h:184-191 | In every run the value written for a woken receiver is untouched until that receiver resumes |
| `Scheduling.ReceiverGetsValue` | core/coroutine.h:144-153 | What a send hands to a parked receiver is what the receiver finds when it resumes, whatever runs in between, disciplined or not |
| `Scheduling.ReadyStays` | core/coroutine.cpp:249-261 | A ready coroutine keeps its tag and its suspended call until it is dispatched |
| `Scheduling.ShapesAlways` | core/coroutine.h:140-193 | Without any discipline: never a sender and a receiver parked together, and recv_slot_ is set exactly when recv_waiter_ is |
| `Scheduling.InOrderIff` | core/coroutine.h:140-193 | From any state in which a channel is complete and in order, after any run whatever: it still is if and only if no send on it met a parked sender |
| `Scheduling.DeliveredInOrder` | core/coroutine.h:140-193 | From the first use of a channel on, after any run: the values sent are the values handed over, in order and once each, plus the one a parked sender holds, if and only if no send on this channel met a parked sender |
| `Scheduling.FireIsExact` | core/coroutine.cpp:346-358 | Without any discipline: an expiry pass wakes a sleeper if and only if it is due, in deadline order, behind everybody already ready |
| `Scheduling.SleepsUntilDue` | core/coroutine.cpp:222-237 | In no run, disciplined or not, does a sleeper wake before an expiry pass at or after its deadline |
| `Scheduling.SleepLasts` | core/coroutine.cpp:222-237 | A sleep of ms milliseconds outlasts every expiry pass before now + ms, whatever else runs |
| `TimerHeap.SiftUp` | core/coroutine.cpp:324-332 | Restores the heap from one entry that may be too early for its place, keeping the multiset |
| `TimerHeap.SiftDown` | core/coroutine.cpp:334-344 | Restores the heap from one entry that may be too late for its place, keeping the multiset |
| `TimerHeap.PushHeap` | core/coroutine.cpp:324-332 | A heap followed by any entry becomes a heap of the same entries |
| `TimerHeap.PopHeap` | core/coroutine.cpp:334-344 | The top goes to the back, the others form a heap, nothing is lost |
| `TimerHeap.TopIsEarliest` | core/coroutine.cpp:350-352 | No entry of a heap is due before the one at its front |
| `Schedulers.Scheduler.constructor` | core/coroutine.cpp:48-70 | The new object shows the start state of the machine |
| `Schedulers.Scheduler.Create` | core/coroutine.cpp:142-147 | Queues a new READY coroutine, bound to its function under a fresh pointer |
| `Schedulers.Scheduler.Post` | core/coroutine.cpp:149-159 | The job is queued last, and the pipe is readable afterwards even if the write failed on a full pipe; from any state of the posting protocol that the object stands for, it then stands for the one after push and write |
| `Schedulers.Scheduler.DrainPostQueue` | core/coroutine.cpp:161-171 | Every posted job becomes a coroutine running that job, in posting order, and the queue is empty |
| `Schedulers.Scheduler.Yield` | core/coroutine.cpp:175-184 | Does to the object what the yield step does to the machine |
| `Schedulers.Scheduler.EpollAdd` | core/coroutine.cpp:205-206 | Registers and arms an unregistered fd, fails on a registered one without effect |
| `Schedulers.Scheduler.EpollMod` | core/coroutine.cpp:201-206 | Arms a registered fd, has no effect on another |
| `Schedulers.Scheduler.WaitEvent` | core/coroutine.cpp:188-213 | Does to the object what the wait step does to the machine, through its three epoll_ctl branches |
| `Schedulers.Scheduler.Sleep` | core/coroutine.cpp:222-237 | Does to the object what the sleep step does to the machine, with a real heap for the multiset of timers |
| `Schedulers.Scheduler.PushTimer` | core/coroutine.cpp:324-332 | Adds one entry to the multiset and keeps the heap |
| `Schedulers.Scheduler.PopTimer` | core/coroutine.cpp:334-344 | Returns an entry of least deadline, takes exactly it out, keeps the heap |
| `Schedulers.Scheduler.FireTimers` | core/coroutine.cpp:346-358 | Pops exactly the due entries, in deadline order, leaves only later ones, queues the sleepers in that order behind everybody ready, and counts them |
| `Schedulers.Scheduler.NextTimeoutMs` | core/coroutine.cpp:360-366 | The remaining time of the front entry narrowed to 32 bits; -1 without timers |
| `Schedulers.Scheduler.PollTimeout` | core/coroutine.cpp:270-271 | The timeout of epoll_wait: 50 ms without timers; else exactly the time left to the earliest deadline, 0 if that has passed, for everything below 2^31 ms, and beyond that its low 32 bits, or 50 ms where bit 31 is set; never negative and never beyond any deadline |
| `Schedulers.NarrowedIsNotLater` | core/coroutine.cpp:365-365 | Narrowing modulo 2^32, with negatives read as 50, never lengthens a wait |
| `Schedulers.Scheduler.EpollWait` | core/coroutine.cpp:269-271 | Reports distinct fds, at most 64: armed ones, and the pipe only while it is readable; disarms the one-shot ones, and leaves one out only when 64 are reported |
| `Schedulers.Scheduler.Dispatch` | core/coroutine.cpp:251-255 | Does to the object what the dispatch step does to the machine, including the DEL of a resumed wait_event |
| `Schedulers.Scheduler.Finish` | core/coroutine.cpp:119-136 | A body that returned or threw leaves its coroutine DONE and still current |
| `Schedulers.Scheduler.Reap` | core/coroutine.cpp:256-260 | Deletes the current coroutine exactly if it is DONE and clears the processor |
| `Schedulers.Scheduler.EmptyPipe` | core/coroutine.cpp:291-294 | Reading 64 bytes at a time leaves the pipe empty |
| `Schedulers.Scheduler.HandleNext` | core/coroutine.cpp:285-307 | The pipe event empties the pipe and takes all posted jobs; another event wakes its waiter; nothing else changes; the state of the posting protocol that the object stands for goes to the one after a drain, or stays |
| `Schedulers.Scheduler.HandleEvents` | core/coroutine.cpp:282-308 | The whole epoll result is handled; with the pipe in it every posted job becomes a coroutine that runs it, in order, and without it the queue and the pipe are left alone |
| `Schedulers.HandleAllIsRun` | core/coroutine.cpp:282-308 | Handling the whole result is a run of event steps, to which no discipline applies, and keeps the invariant |
| `Schedulers.HandleAllWakes` | core/coroutine.cpp:300-307 | Without any discipline: every coroutine whose fd was reported is ready when the result has been handled |
| `Schedulers.WokenInOrder` | core/coroutine.cpp:300-307 | The waiters of the reported fds are queued behind everybody ready, in the order of the report |
| `Schedulers.Channel.Send` | core/coroutine.h:140-167 | Does to the two objects what the send step does to scheduler and channel |
| `Schedulers.Channel.Recv` | core/coroutine.h:169-193 | Does to the two objects what the receive step does, and returns the parked value if there is one |
| `Turns.CallIsTold` | core/coroutine.cpp:251-260 | A call in a slice is recorded as one step, behind those of everything before it in the slice and ahead of those after it; a create adds the body of the new coroutine at that place |
| `Turns.PostIsTold` | core/coroutine.cpp:149-159 | A job posted during a slice is recorded behind all earlier jobs, and as no step |
| `Turns.FirstPartFirst` | core/coroutine.cpp:248-261 | The record of phase 1 begins with the dispatch and the calls of the first coroutine, with its end if its body ended, and goes on with the others |
| `Turns.FirstTurnFirst` | core/coroutine.cpp:246-311 | The record of a run begins with its first turn and goes on with the others |
| `Runtime.LeadsToSafety` | core/coroutine.cpp:241-312 | What is true of a thread of objects after any history: safety, accounting and a registered pipe always; agreeing registrations with one coroutine per fd; each channel complete and in order if and only if its rule was kept; the joined invariant under the whole discipline |
| `Runtime.Thread.Call` | core/coroutine.cpp:142-237 | Any call on the objects, disciplined or not, is the machine's step, and is recorded as that step; a create binds its function to the new coroutine |
| `Runtime.Thread.Post` | core/coroutine.cpp:149-159 | At any moment a post queues its job and keeps the rule that a non-empty queue means a readable pipe |
| `Runtime.Thread.RunSlice` | core/coroutine.cpp:251-260 | A dispatched coroutine makes the calls of its slice in order, with posts by anybody in between, up to one that parks it, or all of them, and is then finished and deleted; the record tells exactly that, and the loop has control again |
| `Runtime.Thread.RunReady` | core/coroutine.cpp:248-261 | Phase 1 leaves the ready queue empty; everybody who was ready is dispatched, in order; the record tells each dispatch with its slice; nobody leaves the heap. It stops early only where a slice is missing or names a channel that does not exist |
| `Runtime.Thread.Fire` | core/coroutine.cpp:264-264 | An expiry pass pops exactly the due sleepers, queues them in deadline order behind everybody ready, leaves only later ones in the heap, and is recorded |
| `Runtime.Thread.Wait` | core/coroutine.cpp:269-280 | Phase 3 is a poll step; only active fds and the pipe are reported; an active armed fd, or a readable pipe, is missed only if 64 others are reported |
| `Runtime.Thread.WakeReported` | core/coroutine.cpp:282-308 | After phase 4 everybody whose fd, other than the pipe, was reported is ready and no longer waits for it, and if the pipe was, every posted job has a coroutine that runs it, in order, and the queue is empty |
| `Runtime.Thread.PollPhase` | core/coroutine.cpp:268-308 | The timeout is right for the heap; a job posted before epoll_wait makes the pipe reported unless 64 other fds are; then all jobs, those posted before the events are handled included, become coroutines in order |
| `Runtime.Thread.FireAndPoll` | core/coroutine.cpp:263-310 | epoll_wait is skipped if and only if the pass before it wakes somebody; otherwise both passes are made, each waking exactly who is due |
| `Runtime.Thread.RunTurn` | core/coroutine.cpp:246-311 | One whole turn: everybody ready is dispatched in order; a sleeper is queued, in deadline order, by the first pass at which it is due, and nobody who is due is left in the heap; epoll_wait is skipped exactly if the first pass wakes somebody, and otherwise gets the right timeout; no active armed fd and no posted job is passed over unless 64 others are reported; the record tells all of it in order |
| `Runtime.Thread.RunLoop` | core/coroutine.cpp:241-312 | Every turn is made, one after the other, with arbitrary calls of the coroutines, clocks, epoll answers, and posts between any two calls; the record tells the turns in order, and the objects are where its history leads. It stops early only where a turn does not say what the next coroutine does |
| `PostProtocol.StepHolds` | core/coroutine.cpp:149-171 | Every step of any poster or of the loop keeps the invariant: what was pushed is what was created, the batch and the queue in order, and a non-empty queue will be noticed |
| `PostProtocol.RunHolds` | core/coroutine.cpp:149-171 | So does every interleaving |
| `PostProtocol.ExactlyOnce` | core/coroutine.cpp:149-171 | A posted job is in the queue, in the batch or created, once in all; a job not posted is nowhere |
| `PostProtocol.InPosterOrder` | core/coroutine.cpp:161-171 | Each poster's jobs are created in its own order without a gap |
| `PostProtocol.NeverStranded` | core/coroutine.cpp:288-297 | A queued job with no poster and no drain under way means a readable pipe, even if writes failed |
| `PostProtocol.CatchesUp` | core/coroutine.cpp:288-297 | Once no poster is between push and write, the loop alone turns everything posted into coroutines |
| `PostProtocol.PostIsRun` | core/coroutine.cpp:149-159 | Push and write with nothing in between are a run of the protocol that queues the job and leaves at least one byte if the pipe holds one |
| `PostProtocol.DrainIsRun` | core/coroutine.cpp:288-297 | A pipe event with nothing in between is a run of the loop that empties the pipe and creates the whole queue in order |
| `RoundRobin.MultiScheduler.Post` | core/coroutine.cpp:387-392 | One ticket, one push on the scheduler it names; for the first 2^31 posts the queues hold exactly their shares |
| `RoundRobin.TicketAdvances` | core/coroutine.cpp:390-390 | The wrapping counter holds the t-th ticket after t posts |
| `RoundRobin.InRangeIff` | core/coroutine.cpp:390-390 | The index is valid if and only if the ticket is before a wrap to the negatives or divisible by the size |
| `RoundRobin.WrapMisses` | core/coroutine.cpp:390-390 | Ticket 2^31 with three schedulers gives a negative index |
| `RoundRobin.FairShare` | core/coroutine.cpp:387-392 | Before the wrap, any k consecutive tickets give each of n schedulers k/n jobs, rounded down or up |
| `StreamCursor.ReplayConserves` | net/connection.cpp:139-182 | Returned bytes and remaining bytes together are the stream, for any sequence of calls |
| `StreamCursor.ApplyReturns` | net/connection.cpp:139-182 | read_until returns up to and including the first delimiter, read_exact n bytes; both return everything and close just when the stream does not hold that much |
| `StreamCursor.ApplyIsLocal` | net/connection.cpp:139-182 | A call that the end of the stream does not cut short answers the same on every longer stream |
| `Connections.Socket.Recv` | net/connection.cpp:61-61 | The kernel's side of recv: some bytes of the stream in order, EOF, EAGAIN or an error |
| `Connections.Socket.Send` | net/connection.cpp:105-105 | The kernel's side of send: takes a prefix, nothing, or fails |
| `Connections.Connection.Read` | net/connection.cpp:55-85 | Returns the next bytes of the stream, and the empty string exactly at its end, through any number of EAGAINs and with a close by another coroutine in between |
| `Connections.LiveIs` | net/connection.cpp:61-83 | The stream that the reads see is what the chunks hold, up to the first error or close during a wait |
| `Connections.Connection.ReadUntil` | net/connection.cpp:139-160 | Answers as the cursor does for every chunking, delimiters split across chunks included; the buffer is empty once EOF is seen |
| `Connections.Connection.ReadExact` | net/connection.cpp:164-182 | Answers as the cursor does for every chunking; the buffer is empty once EOF is seen |
| `Connections.Connection.Replay` | net/connection.cpp:139-182 | Any sequence of reads answers as the cursor does, and loses no byte |
| `Connections.Connection.Write` | net/connection.cpp:96-125 | What the kernel took is the prefix of the data whose length is returned; the full length unless the connection fails or closes; -1 exactly if an error comes before any byte; for every kernel the result and the closing are determined |
| `Connections.WriteEnds` | net/connection.cpp:96-125 | For every kernel: a write goes on over EAGAINs and parts until all is sent, or until a close during a wait, an error or a send of 0, and then returns what was taken, with -1 for an error or a 0 if that is nothing, and closes |
| `Connections.ErrorIsReportedIff` | net/connection.cpp:119-121 | A write that meets a hard error returns -1 if and only if no byte was sent before it |
| `Connections.PartThenError` | net/connection.cpp:119-121 | The other case: k of n bytes, then an error, returns k and closes |
| `FrameCodec.XorAt` | ws/websocket.cpp:171-172 | Each bit of the exclusive or is set exactly when one operand has it and the other has not |
| `FrameCodec.MaskedTwice` | ws/websocket.cpp:168-173 | Masking with the same key undoes masking |
| `FrameCodec.MaskedUnmasks` | ws/websocket.cpp:168-173 | Bit k of payload byte i after unmasking is the exclusive or of bit k of wire byte i and bit k of key byte i mod 4 |
| `FrameReading.ReceiveReadsAs` | ws/websocket.cpp:106-177 | What a successful receive says, field by field from the bytes on the wire: FIN, opcode and mask bits, the length in its three forms, the key behind it and each payload bit |
| `FrameReading.MaskedHello` | ws/websocket.cpp:152-175 | The masked frame of section 5.7 of RFC 6455 is received as the text Hello |
| `FrameReading.PlainHello` | ws/websocket.cpp:106-177 | So is the unmasked one |
| `FrameReading.LongExamples` | ws/websocket.cpp:125-146 | And the frames of 256 bytes and of 64 KiB of that section are received with their payloads |
| `FrameCodec.ValueOfBigEndian` | ws/websocket.cpp:196-206 | Reading a length in network byte order gives back the length that was written |
| `FrameCodec.BigEndianOfValue` | ws/websocket.cpp:135-145 | Every string of length bytes is the encoding of the value read from it |
| `FrameCodec.ReceiveOfEncode` | ws/websocket.cpp:106-177 | A frame of at most 10 MiB, masked or not, in any length form that fits, is received with its FIN, opcode and payload, and the reader stops right behind it |
| `FrameCodec.ReceiveAllOfEncodeAll` | ws/websocket.cpp:106-177 | A stream of such frames is received as exactly these frames, then the stream has ended |
| `FrameCodec.ReceiveIsSound` | ws/websocket.cpp:106-177 | A successful receive has consumed the encoding of a valid frame and says what that frame says |
| `FrameCodec.ReceiveAllIsSound` | ws/websocket.cpp:106-177 | What is received of any byte stream is what the frames at its front say |
| `WebSockets.WebSocket.RecvFrame` | ws/websocket.cpp:106-177 | Receives on any connection as on the cursor, and every field and payload bit is what the bytes on the wire say; a failed receive leaves the payload of the record alone, and the other fields too unless the two header bytes were read, which then set them |
| `WebSockets.WebSocket.RecvLength` | ws/websocket.cpp:125-146 | The 7, 16 or 64-bit length in network byte order, or failure on a short stream |
| `WebSockets.WebSocket.Accumulate` | ws/websocket.cpp:143-145 | Eight shifts in 64-bit arithmetic give the big-endian value without losing a bit |
| `WebSockets.WebSocket.RecvPayload` | ws/websocket.cpp:163-175 | The loop that unmasks in place: each payload bit is the exclusive or of the wire bit and the bit of key byte i mod 4; an unmasked payload is left as it is |
| `WebSockets.WebSocket.RecvAll` | main.cpp:80-80 | A receive loop yields the frames of the stream in order until it ends or breaks |
| `WebSockets.ReceiveStream` | ws/websocket.cpp:106-177 | From a new connection, however the kernel chops a stream of frames, exactly those frames come out |
| `WebSockets.WebSocket.Build` | ws/websocket.cpp:182-208 | Header, shifted length bytes and payload make up the encoding of the frame, for every length below 2^64 |
| `WebSockets.WireBytes` | ws/websocket.cpp:182-208 | Byte by byte: FIN with the opcode and nothing else, the length in the shortest of three forms and in network order without the mask bit, then the payload |
| `WebSockets.WebSocket.SendFrame` | ws/websocket.cpp:180-210 | A prefix of the frame's bytes reaches the kernel, all of them unless the connection fails or closes |
| `FrameCodec.SentFrameIsShortest` | ws/websocket.cpp:190-206 | No other encoding of the same opcode and payload is shorter than the form send_frame picks |
| `WebSockets.WebSocket.SendText` | ws/websocket.cpp:212-215 | On a healthy connection the text frame reaches the kernel whole |
| `WebSockets.WebSocket.SendClose` | ws/websocket.cpp:217-221 | The connection is closed, on a healthy one after an empty close frame |
| `WebSockets.WireIsReceived` | ws/websocket.cpp:180-210 | What send_frame writes, up to 10 MiB, the receiver reads back as that final unmasked frame, whatever follows |
| `WebSockets.OversizeIsRefused` | ws/websocket.cpp:148-150 | What send_frame writes above 10 MiB, the receiver refuses |
| `WebSockets.SendStream` | ws/websocket.cpp:180-210 | Frames sent one after the other are on the wire as the concatenation of their encodings, in whatever parts the kernel takes the writes |
| `WebSockets.Exchange` | ws/websocket.cpp:106-210 | What one endpoint sends another receives, opcode by opcode and payload by payload, for every way the kernel takes the writes and chops the stream |
| `UrlCodec.UrlDecode` | http/http_parser.cpp:30-49 | The index loop computes the decoding |
| `UrlCodec.DecodeOfEncoded` | http/http_parser.cpp:30-49 | Decoding undoes every encoder that escapes % and + and otherwise writes bytes plainly, escaped in either case, or a space as + |
| `UrlCodec.DecodeAny` | http/http_parser.cpp:30-49 | What every byte of any text becomes: a % with two hexadecimal digits behind it the byte they spell, any other % itself, a + a space, everything else itself |
| `UrlCodec.AnythingCanBeEncoded` | http/http_parser.cpp:30-49 | For every byte string there is such an encoding that avoids any given reserved bytes |
| `UrlCodec.ParseQueryString` | http/http_parser.cpp:58-76 | The getline loop sets each key of the text to its decoded value, in order, as `QueryAny` says of every text |
| `UrlCodec.QueryAny` | http/http_parser.cpp:58-76 | Piece by piece, for every text: an empty piece changes nothing, one without = is a key with the empty value, another is split at its first = |
| `UrlCodec.QueryRoundTrip` | http/http_parser.cpp:58-76 | Parsing an encoded list of pairs gives the map it means, the last of equal keys winning |
| `UrlCodec.MapRoundTrip` | http/http_parser.cpp:58-76 | Any map, listed in any order under any encoder, is parsed back |
| `HttpText.CaseIsIgnored` | http/http_parser.cpp:15-20 | Texts that differ in case only have the same lower-case form |
| `HttpText.CaseAt` | http/http_parser.cpp:15-20 | Lowering and raising change the 26 letters, by 32, and nothing else |
| `HttpText.TrimOf` | http/http_parser.cpp:8-13 | Trimming removes exactly the white space around a text |
| `HttpText.TrimIs` | http/http_parser.cpp:8-13 | Of every text: what trimming cuts off at both ends is tabs, line ends and spaces only, and what is left begins and ends with none of them |
| `HttpText.WordOf` | http/http_parser.cpp:90-94 | Stream extraction reads a word up to the white space behind it |
| `HttpText.WordIs` | http/http_parser.cpp:90-94 | Of every text: a word is what stands between white space, which is skipped first; what is left begins with white space or is empty |
| `HttpText.StoiOfDecimal` | http/http_request.cpp:50-58 | Reading a printed number gives the number if it is at most 2^31 - 1, and fails if and only if it is not |
| `HttpText.StoiOfSigned` | http/http_request.cpp:50-58 | A sign and leading white space are understood, trailing text is ignored |
| `HttpText.StoiOfNothing` | http/http_request.cpp:50-58 | A text without digits is no number |
| `HttpParser.ParseRequestLine` | http/http_parser.cpp:88-114 | Accepts and fills in exactly what the line says; in the method each letter a to z has become its capital and nothing else has changed; an accepted path holds no two dots in a row |
| `HttpParser.ParseHeaderLine` | http/http_parser.cpp:125-137 | Adds the lower-cased name with its trimmed value, or changes nothing |
| `HttpParser.SplitLines` | http/http_parser.cpp:160-168 | The lines of the block without their line ends |
| `HttpParser.LinesAre` | http/http_parser.cpp:159-168 | Of every text: a line ends at the line feed, one carriage return before it is dropped, and an unfinished last line counts |
| `HttpParser.ParseHead` | http/http_parser.cpp:155-179 | The request line and the headers up to the first empty line |
| `HttpParser.Parse` | http/http_parser.cpp:150-190 | Parses from any connection what the cursor specification reads, and leaves the stream where it leaves it |
| `Pipelining.HeadEnds` | http/http_parser.cpp:152-157 | The head of a printed request ends at its own blank line even if the body holds others |
| `Pipelining.LinesOfJoined` | http/http_parser.cpp:159-168 | Splitting joined lines gives the lines back |
| `Pipelining.ReadOfPrint` | http/http_parser.cpp:150-190 | A well-formed printed request is read as what it means, with exactly its body, and the parser stops right behind it |
| `Pipelining.CutIsAcceptedIff` | http/http_parser.cpp:152-186 | A stream that ends inside its first request, before the blank line or before the announced end of the body, is accepted if and only if it is not empty, what there is of the head parses, and the length it announces is at most 10 MiB |
| `Pipelining.ClosedIffCut` | http/http_parser.cpp:152-186 | After a successful parse the connection is closed exactly if the stream ended inside the request |
| `Pipelining.CutBodyIsAccepted` | http/http_parser.cpp:185-186 | A well-formed request whose body is cut at any place is accepted with the part that is there |
| `Pipelining.CutBodyIsReachable` | http/http_parser.cpp:185-186 | An input: one byte of a body of two |
| `Pipelining.CutHeadIsAccepted` | http/http_parser.cpp:152-157 | A head cut off before its blank line loses four bytes and is accepted |
| `Pipelining.RequestLineRoundTrip` | http/http_parser.cpp:88-114 | A printed request line, its method in any case, is read back with the method in capitals, the decoded path, the query and the version |
| `Pipelining.MethodCaseIsIgnored` | http/http_parser.cpp:96-98 | Two lines that differ only in the case of the method are read as the same request |
| `Pipelining.TooFewWords` | http/http_parser.cpp:90-94 | A line of fewer than three words is refused |
| `Pipelining.AcceptedPathIsSafe` | http/http_parser.cpp:109-111 | No accepted line yields a decoded path with two dots in a row at any position |
| `Pipelining.ServeIsSafe` | http/http_server.cpp:146-184 | Nor does any request of any session, whatever the client sends |
| `Pipelining.HeaderRoundTrip` | http/http_parser.cpp:125-137 | A header line with any padding sets the lower-cased name to exactly the value |
| `Pipelining.OtherLinesAreSkipped` | http/http_parser.cpp:125-137 | A header line without a colon, or with a blank name, changes nothing |
| `Pipelining.EmptyLineEnds` | http/http_parser.cpp:170-179 | Nothing behind the first empty line is a header |
| `Pipelining.ConnectionDecides` | http/http_request.cpp:32-43 | A Connection header, in any case and padding, ends the session with close, keeps it with keep-alive, and otherwise leaves it to the version |
| `Pipelining.VersionDecides` | http/http_request.cpp:32-43 | Without the header exactly HTTP/1.1 keeps the session |
| `Pipelining.StandardIsWellFormed` | http/http_parser.cpp:150-190 | Every request printed with its Content-Length, any body up to 10 MiB, is well-formed and means what was printed |
| `Pipelining.AnnouncedLength` | http/http_parser.cpp:181-189 | For every printed head and every number it announces: up to 10 MiB that many bytes, or all there are, become the body; up to 2^31 - 1 the request is refused; beyond, it is accepted with an empty body and the stream is left where the body begins |
| `Pipelining.LengthIsHonouredIff` | http/http_request.cpp:50-58 | The announced length is honoured, by a refusal, a body of that length or the end of the stream, if and only if it is at most 2^31 - 1 |
| `Pipelining.ServePrefix` | http/http_server.cpp:146-184 | Pipelined keep-alive requests are read one by one, whatever follows them |
| `Pipelining.ServeAll` | http/http_server.cpp:146-184 | A stream of them is read as exactly these requests, and its end is not an error |
| `Pipelining.ServeToClose` | http/http_server.cpp:180-182 | After a request that asks to close nothing more is read |
| `Pipelining.BadHeadIsRefused` | http/http_server.cpp:153-160 | A request whose first line is refused ends the session with a 400, before any request behind it |
| `Pipelining.LongBodyIsRefused` | http/http_parser.cpp:181-184 | So does one that announces more than 10 MiB, up to 2^31 - 1 |
| `Pipelining.ServeSession` | http/http_server.cpp:146-184 | A session of keep-alive requests, ended by the client or by a last request that asks to close, is read as exactly these requests and without an error |
| `Pipelining.SessionIsWhole` | http/http_server.cpp:146-184 | None of these requests is cut by the end of the stream |
| `Routing.Split` | http/http_server.cpp:28-37 | The non-empty segments, in order |
| `Routing.Match` | http/http_server.cpp:24-77 | Matches if and only if the path is the pattern filled with values, with one or more segments in the place of a *; for every such filling with distinct names it binds each name to its value and * to its segments joined by slashes |
| `Routing.MatchParts` | http/http_server.cpp:42-76 | The same on segment lists |
| `Routing.MatchesIff` | http/http_server.cpp:42-76 | On segments: a match is a filling and a filling is a match |
| `Routing.FilledBinds` | http/http_server.cpp:47-64 | A pattern filled with any values for distinct names binds exactly those |
| `Routing.StarTakesMore` | http/http_server.cpp:46-58 | A match that ends in a * survives any segments appended to the path |
| `Routing.SegmentsAre` | http/http_server.cpp:28-37 | Segments are the texts between slashes; empty ones are dropped |
| `Routing.BehindStarIsIgnored` | http/http_server.cpp:47-58 | Segments behind the first * of a pattern change neither what matches nor what is bound |
| `Routing.SubstitutionRestoresIff` | http/http_server.cpp:24-77 | The parameters of a match, filled into the pattern, give the path's segments back if and only if segments of the same name agree, and agree with what the * took if a parameter in front of it is called * |
| `Routing.RestoresAllIff` | http/http_server.cpp:24-77 | A pattern restores every path it matches if and only if the names before the first * are distinct and, if there is a *, none of them is * |
| `Routing.SubstitutionRestores` | http/http_server.cpp:24-77 | With such names the parameters determine the path |
| `Routing.RepeatedNameForgets` | http/http_server.cpp:60-64 | An input where they do not: /:a/:a and /1/2 |
| `HttpServers.DispatchedIsUnique` | http/http_server.cpp:188-199 | The documented rules leave exactly one outcome for a request |
| `HttpServers.HttpServer.FindRoute` | http/http_server.cpp:202-220 | The loop finds the earliest route that fits path and method with that route's parameters only; 405 exactly if only paths fit, 404 exactly if none does; a single route answers every method if it is registered with *, and otherwise its own alone |
| `HttpServers.HttpServer.Invoke` | http/http_server.cpp:216-233 | One handler call; its reply is delivered, followed by the 500 page if it threw and the connection is still open |
| `HttpServers.HttpServer.Dispatch` | http/http_server.cpp:200-246 | Exactly one handler call for the route found, none otherwise. On a healthy open connection: the 405 page if some path fits and no route does, the 404 page if no path fits, and else the reply of the earliest fitting route's handler, followed by the 500 page exactly if it threw |
| `HttpServers.AnswerIsAnswer` | http/http_server.cpp:162-246 | The bytes for a request by the middlewares and the route table alone: what the middlewares write up to the first refusal, then, if there is none, the 405 or 404 page or the reply of the earliest fitting route |
| `HttpServers.HttpServer.AskMiddlewares` | http/http_server.cpp:163-172 | The middlewares are asked in order up to the first refusal, and what they write is delivered in that order |
| `HttpServers.HttpServer.Handle` | http/http_server.cpp:162-178 | The first refusal ends the request, dispatch runs only if all pass; what is delivered are the middlewares' writes and then the reply |
| `HttpServers.HttpServer.ServeNext` | http/http_server.cpp:148-183 | One turn serves the first request on the stream, or ends with the 400 decision |
| `HttpServers.HttpServer.Turn` | http/http_server.cpp:148-183 | Each turn keeps the record of the session: requests, handler calls and delivered answers in order |
| `HttpServers.HttpServer.HandleConnection` | http/http_server.cpp:146-184 | For every stream and kernel: the requests served are a prefix of what the stream holds, with one handler call for each that found its route, in order, and never with two dots in a row in its path. Without a failing write they are all of it, and the bytes delivered are, in order, one answer for each by the middlewares and the route table, then the 400 page if the session ended in a refused parse on an open connection; a request that the end of the stream cut short gets no answer |
| `HttpServers.ServeStream` | http/http_server.cpp:146-184 | On a new connection, however the kernel chops the printed requests and takes the writes, and whether the client ends the session or asks to close: exactly these requests are served, in order, with their bodies, each by its route, and the client receives exactly one answer for each, by the middlewares and the route table |
| `HttpServers.RouteAdded` | http/http_server.cpp:101-107 | A route registered later never takes a request from an earlier one; it gets the requests that no earlier route fits, and turns 404 into 405 where only its path fits |
| `HttpServers.MiddlewareAdded` | http/http_server.cpp:109-113 | A middleware added later is asked last, only about requests that all others pass, and only its refusal changes an outcome |

## Left out

- ucontext switching, stacks and the splitting of pointers (core/coroutine.cpp:13-36, 113-138): a switch is a step boundary.
- `Scheduler::~Scheduler`, `MultiScheduler::run` and its threads: only the posting protocol between threads is modelled.
- The mutex itself: a push and a swap are single steps. In `RunLoop` a post is one step; its interleaving with the
  drain, byte by byte, is the subject of `PostProtocol`.
- Real sockets, `TcpServer`, moves of `Connection`, and the reuse of an fd number after close, which also drops it from epoll.
- EINTR and other failures of epoll_wait; failures of epoll_ctl for other reasons than the registration.
- Deadlines, coroutine ids and byte counts are unbounded integers; 64-bit overflow is not modelled.
- Starvation and termination: a coroutine that always yields keeps phase 1 running, and `run()` never returns, so nothing of the kind is claimed.
- Connections.Connection.Close: the descriptor itself is not modelled, so a close without a descriptor is not told apart.
- Fragment reassembly, PONG replies and the chat session around the receive loop (main.cpp:60-105), `ChatRoom`.
- SHA-1, Base64 and the handshake (ws/websocket.cpp:18-78).
- A close by another coroutine while a reader or writer is parked and before its event has fired: the close takes the fd
  out of epoll and the parked coroutine stays parked. `ParkThenClosed` and `FullThenClosed` are closes after the wake-up.
- A middleware that throws: http/http_server.cpp:165-172 has no handler for it, and the exception ends the coroutine.
- Handlers and middlewares that read the connection, change the request or suspend inside another request's turn.
- Response formatting, MIME types, file serving, JSON strings, logging, the database layer, the benchmark script.
