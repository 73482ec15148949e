# KZevent: a verified model

KZevent is an epoll event loop with stream, timer and UDP layers. This project models its protocols and stateful
structures in Dafny and proves what they keep over whole runs. `dafny verify dfyconfig.toml` checks everything.

Code that changes state step by step is a class whose methods follow the C++ bodies (`StreamBuffer`, `StreamSession`,
`StreamClient`, `EventTable`, `LoopChannel`, `Loop`, `HeavyQueue`, `StreamServer`, `Timer`, `UdpServer`). Concurrency is a step
relation: `LoopProtocol` (posting threads, executor, eventfd, epoll batch, fd numbers the kernel reuses),
`HeavyQueues` (mutex and condition variable), `SendPath` (one endpoint and an edge-triggered socket), `LoopChannels`
(ownership of fds by channel objects) and `SessionTables`. The methods of `Loop`, `HeavyQueue`, `StreamSession`, `StreamClient`, `StreamServer`, `LoopChannel` and `Timer` are tied to these
relations by their postconditions, so the theorems about runs speak about those methods. Kernel answers, clock readings and
thread interleavings are arbitrary.

How the files fit together:

| file | content |
|---|---|
| `EventTable`, `FdLives`, `LoopChannel`, `LoopProtocol`, `LoopTheorems`, `LoopCallbacks`, `ChannelsOnLoop`, `Loop` | registration tasks, ownership and incarnations of fds, the io executor and the callbacks it calls |
| `HeavyQueue` | the heavy thread and its shutdown |
| `StreamBuffer`, `SendPath`, `Framing`, `Codecs`, `StreamSession`, `SessionTable` | the stream layer |
| `EndToEnd`, `PacketDelivery` | composition: from posting a message to the receiver's fragment callback |
| `TimerBooks`, `Timer`, `UdpSessions`, `InetAddr` | timers, UDP session table, addresses |

## Results that differ from what the code suggests

- A notify of `stop()` for the heavy thread is lost exactly when it falls between the thread's check of its wait
  predicate and its sleep, because the state changes without the mutex (`StopIsLostIff`; `StopCanHang` is a run). The
  io half of `stop()` has no such gap: its wake-up is never lost and the io thread can always exit (`StopIsNeverLost`,
  `StopCanFinish`).
- `~Loop` closes an fd exactly when its register task has run; an fd whose register task is still queued stays open
  (`ClosedExactlyOnce`; `DestructionCanLeak` is a run).
- The timer's wake-up is on time exactly when the delay between its clock reading and `timerfd_settime` fits into what
  the truncation to milliseconds cut off. `Timer.Valid` says which deadline is armed for which entry, `ArmedInTime` is
  the condition in every state between the steps of the loop, and `ArmingCanBeLate` builds a timer that is late.
- A cancel leaves its id in the cancel set for good exactly when the entry was out of the queue already as it ran
  (`CancelLeavesItsIdIff`; `LateCancelHappens` is a run).
- A `uint64_t` timeout becomes a signed duration: dispatched time stamps never go back exactly when no timeout reaches
  2^63 ms (`OrderIffTimeouts`), and from there on a repeating task can keep the expiry handler busy without end
  (`FireShrinksDueIff`, `ExpiryCanSpin`). Spacing, cancellation and conservation hold for all timeouts.
- Without `read_cb_` a UDP packet does not refresh its session, so a client that keeps sending is swept
  (`SweptEarlyIff`, `SendingClientIsSwept`). The error of 10% that the constructor of
  `UdpServer` promises is kept exactly from a timeout of one second on (`OvershootOfServerIff`, with a history for every
  shorter timeout).
- The length-prefix callback of the TCP example adds the header in 32 bits: framing is exact iff every payload is at
  most 2^32 - 5 bytes (`PacketRoundTripIff`; a payload of 2^32 - 4 is never split off, `OversizedPayloadIsStuck`).
- An empty message that the kernel refuses asks for a write event with nothing to write; otherwise a connected endpoint
  asks for the write event exactly while bytes wait (`WritesAskedIffQueued`, `EmptyPostAsksForWrites`).
- A write error clears the receive buffer, not the send buffer, so complete frames that an event finds are lost exactly
  when one of its branches fails (`FramesAreLostIff`, `WriteErrorLosesFrame`).
- SO_ERROR never makes a client let its peer go, unlike a session (`StreamClient.OnEvent`, `StreamSession.OnEvent`).
- Equality of IPv6 addresses leaves out the scope id (`ScopeIsIgnored`); a default-constructed address does not equal
  itself (`ReflexiveIff`, `DefaultIsUnequal`); a path that begins with `@` prints like an abstract name
  (`PrintedAlikeIff`, `PrintedNamesCollide`).

## Model

| member | source | states |
|---|---|---|
| EventTables.EventTable.RegisterTask | src/core.cpp:204-219 | the queued body grows the table by half or to fit and marks the fd registered, as `RegisterFd` says |
| EventTables.EventTable.UnregisterTask | src/core.cpp:221-246 | closes exactly a registered fd and resets its entry; an unregistered fd is left alone, and when close() fails the entry stays as it was |
| EventTables.EventTable.EnableTask | src/core.cpp:248-321 | both overloads with the EEXIST and ENOENT fallbacks: success iff the first or the fallback call succeeds, and then flag, interest and callback are as requested |
| EventTables.EventTable.DisableTask | src/core.cpp:323-340 | removes fd from the kernel set and its callback, ENOENT being accepted |
| EventTables.RegisterReachesFd | src/core.cpp:204-216 | growth always reaches the fd, keeps every other entry and adds only unused ones |
| EventTables.EnableEstablishesRequest | src/core.cpp:248-321 | after a successful enable the kernel interest equals the request even if the flag had disagreed with the kernel; a failed one changes nothing |
| EventTables.FailedCloseIsRecoverable | src/core.cpp:234-284 | an fd whose close() failed stays registered with a stale flag, and a later enable watches it again |
| FdLives.ExecuteKeepsConsistent | src/core.cpp:204-340 | running a task that continues its channel's life keeps the table, the open fds and the lives in agreement (a callback implies in_epoll implies in_register) and indexes within range |
| FdLives.ExecuteKeepsCallback | src/core.cpp:204-340 | a task for another fd or for the same incarnation never installs another incarnation's callback |
| FdLives.ExecuteServes | src/core.cpp:204-340 | after every task in its turn, the kernel's interest and the callback in the table are what each registered channel's tasks have asked for: the types of the last enable, and a callback iff one was given since the last disable |
| FdLives.QueuedTasksAreAlive | src/core.cpp:436-445 | every queued task of a channel is for an incarnation not yet closed, under that incarnation's fd number |
| FdLives.RegisteredFromIsExact | src/core.cpp:127-135 | the closing loop of the destructor visits each registered fd exactly once |
| LoopChannels.PostsAreLegal | src/core.cpp:436-488 | however channels are constructed, moved, swapped and destroyed, each posts only what the loop accepts from its incarnation |
| LoopChannels.RegisteredIffOwned | src/core.cpp:436-461 | a registered fd is unregistered exactly when no channel owns it any more |
| LoopChannels.UnregisteredOnce | src/core.cpp:441-461 | each registered fd gets one unregister task, when its last owner is destroyed, and never a second |
| LoopChannels.PostsAskAsWanted | src/core.cpp:441-488 | over every run the tasks posted for an incarnation ask for what the successive owners of it have wanted last: the types of the last update, a callback iff one was given since the last disable, nothing after the end |
| LoopChannels.LastEnableIsLastUpdate | src/core.cpp:463-473 | over every run the last enable task of an incarnation carries the types and the callback of the last update made through its owner |
| LoopChannels.LoopChannel.Move | src/core.cpp:447-451 | the MoveConstruct step: ownership passes to the new channel, the old one owns nothing, the recorded interest stays behind |
| LoopChannels.LoopChannel.Assign | src/core.cpp:453-461 | the MoveAssign step: the owned fds are swapped and the recorded interests stay in place |
| LoopChannels.LoopChannel.Destruct | src/core.cpp:441-445 | the Destruct step: one unregister task for the owned fd iff the channel owns one |
| LoopChannels.LoopChannel.UpdateEvent | src/core.cpp:463-473 | the UpdateEvent step: iff the channel owns an fd, it posts one enable task with exactly these types and this callback, and records the types |
| LoopChannels.LoopChannel.DisableEvent | src/core.cpp:480-488 | the DisableEvent step: one disable task for the owned fd iff the channel owns one |
| LoopProtocol.PushKeepsInv | src/core.cpp:351-357 | a post by any thread at any moment keeps the loop invariant |
| LoopProtocol.CollectKeepsInv | src/core.cpp:372-384 | the events of a batch are for the incarnations open at that moment, whose callbacks are the only ones on their fds |
| LoopProtocol.SwapKeepsBatch | src/core.cpp:394-397 | no task of the swapped queue can give an fd of the running batch to another incarnation |
| LoopProtocol.RunTaskKeepsInv | src/core.cpp:398-401 | one task keeps queue order, lives, batch safety and close accounting |
| LoopProtocol.ExecuteCloses | src/core.cpp:221-246 | exactly an unregister task closes an incarnation, and it closes its own |
| LoopProtocol.NextKeepsInv | src/core.cpp:100-202 | every step, including stop, start and destruction, keeps the invariant |
| LoopTheorems.EventsReachTheirOwnChannel | src/core.cpp:372-413 | over every interleaving an event collected for one incarnation of an fd only runs that incarnation's callback, and no index is out of range |
| LoopTheorems.ClosedExactlyOnce | src/core.cpp:100-138 | no fd is closed twice, and after destruction an fd has been closed iff its register task ran |
| LoopTheorems.DestructionCanLeak | src/core.cpp:100-138 | a run that destroys the loop with a register task still queued and leaves the fd open |
| LoopTheorems.TasksRunOnceInOrder | src/core.cpp:351-403 | across stop and start cycles, tasks run followed by tasks pending equal the tasks pushed, in order |
| LoopTheorems.NoLostWakeup | src/core.cpp:342-403 | a non-empty buffer queue has a write under way, a pending edge, or an executor between wake event and swap; a waiting executor can always be woken |
| LoopTheorems.EveryPostedTaskCanRun | src/core.cpp:342-413 | from every reachable state before destruction there is a continuation, without further posts and without an interrupted wait, in which all tasks posted have run |
| LoopTheorems.StopIsNeverLost | src/core.cpp:176-190 | an executor that waits although the loop is stopping has a write under way or a pending edge, and can be woken |
| LoopTheorems.StopCanFinish | src/core.cpp:176-190 | from every reachable state of a stopping loop the io thread can exit and be joined, without a post and without an interrupted wait |
| LoopTheorems.DisableSilences | src/core.cpp:323-340 | after a disable or unregister task no callback of the fd runs until an enable task with a callback has run |
| LoopCallbacks.DeedsAreTheTasksRun | src/core.cpp:398-401 | the history the two theorems below speak of is that of the tasks run |
| LoopCallbacks.ChannelsAreServed | src/core.cpp:204-340 | over every run the kernel watches each registered fd for what the tasks run so far have asked for, and the table holds the callback asked for |
| LoopCallbacks.DispatchCallsBack | src/core.cpp:405-408 | over every run, a dispatched event leads to exactly one call, of its own channel's callback, iff that channel's tasks have installed one and neither disabled nor ended it since; otherwise to none |
| ChannelsOnLoop.PostIsAccepted | src/core.cpp:436-488 | every post of a channel is a push the loop accepts, and keeps channels and loop in agreement |
| ChannelsOnLoop.RunIsLoopRun | src/core.cpp:351-488 | every run of a loop with its channels is a run of the loop protocol, with no assumption on the posts |
| ChannelsOnLoop.ChannelsKeepEventsApart | src/core.cpp:372-488 | however channels are used, indices stay in range and events reach the channel they were collected for |
| ChannelsOnLoop.UnownedFdsAreClosed | src/core.cpp:221-246 | with no post outstanding, exactly the registered fds that no channel owns have been closed, each once |
| ChannelsOnLoop.ChannelsGetWhatTheyAsk | src/core.cpp:204-488 | once all posted tasks have run and epoll refused none, the kernel watches the fd of each channel for exactly the types of the last update through its owner, and its callback is in the table iff one was given since the last disable |
| ChannelsOnLoop.EventsCallAsAsked | src/core.cpp:405-488 | an event dispatched then calls back its own channel, once, iff the channel was given a callback since its last disable and still has an owner |
| Loops.Loop.WakeIoUp | src/core.cpp:342-349 | the eventfd write, saturating, is the Kick step |
| Loops.Loop.PostIoTask | src/core.cpp:351-357 | post_io_task is a Push step followed by a Kick step |
| Loops.Loop.RunTask | src/core.cpp:398-400 | the body of each kind of task acts on the table as the protocol step says |
| Loops.Loop.RunQueue | src/core.cpp:398-401 | the loop over the swapped queue runs each task once, in order, and clears the queue |
| Loops.Loop.DrainEventfd | src/core.cpp:386-391 | reads until the counter is zero |
| Loops.Loop.ServeWake | src/core.cpp:385-403 | drain, swap, run, clear: with no post in between everything posted has run |
| Loops.Loop.DispatchEvent | src/core.cpp:405-408 | calls exactly the callback the table has for the event's fd, once, or nothing if there is none; it belongs to the incarnation the event was collected for |
| Loops.Loop.Turn | src/core.cpp:372-410 | one iteration is a run of protocol steps; the callbacks called are those of the batch in order, by the old table up to the wake event and by the new one after it; a batch with the wake event leaves nothing unrun |
| Loops.Loop.StopIo | src/core.cpp:176-190 | stop() up to the join, in every state of the loop: a Stop step, followed by a Kick step when there is a thread to join |
| HeavyQueues.NextKeepsInv | src/core.cpp:359-367 | every step of posters and heavy thread keeps order and the wake-up invariant |
| HeavyQueues.HeavyTasksRunInOrder | src/core.cpp:359-433 | tasks run followed by tasks pending equal the tasks pushed in the run, in order, and a thread asleep over a buffered task has a notify coming |
| HeavyQueues.PostedTasksCanRun | src/core.cpp:415-430 | while the loop is running, all heavy tasks posted so far can run without any further post |
| HeavyQueues.StopIsLostIff | src/core.cpp:176-199 | after the notify of stop() the thread may hang iff it was between the check and the sleep |
| HeavyQueues.StopCanHang | src/core.cpp:176-199 | a concrete run in which stop() waits for ever |
| HeavyQueues.HeavyQueue.PostHeavyTask | src/core.cpp:359-367 | post_heavy_task appends the task: a Push step followed by a Notify step |
| HeavyQueues.HeavyQueue.Turn | src/core.cpp:415-430 | sleeps iff nothing is buffered and the loop is running; otherwise runs exactly the buffered tasks, in order |
| StreamBuffers.StreamBuffer.Insert | include/kzevent/stream_buffer.hpp:71-90 | appends the data and grows the storage to exactly fit when the tail is short |
| StreamBuffers.StreamBuffer.Push | src/stream_buffer.cpp:21 | the bytes written behind the data become part of it |
| StreamBuffers.StreamBuffer.Pop | src/stream_buffer.cpp:23-38 | drops min(len, size) bytes; moves data iff the gap would exceed half of the storage, and then fewer bytes than the gap |
| StreamBuffers.StreamBuffer.Clear | src/stream_buffer.cpp:42-45 | empties the content and keeps the storage |
| StreamBuffers.StreamBuffer.Compact | src/stream_buffer.cpp:47-56 | moves the live bytes to the front between disjoint ranges |
| StreamBuffers.StreamBuffer.Shrink | src/stream_buffer.cpp:58-77 | follows the shrink schedule: halved on the eleventh drain, never below the initial size |
| StreamBuffers.ElevenDrainsHalve | src/stream_buffer.cpp:58-77 | eleven drains at least halve the excess over the initial size, whatever the counter was |
| StreamBuffers.TenDrainsKeep | src/stream_buffer.cpp:58-77 | ten drains keep the storage of a burst and the eleventh halves it, never below the initial size |
| StreamBuffers.DrainsRestoreInitialSize | src/stream_buffer.cpp:58-77 | 11 * k drains give back any excess below 2^k |
| StreamBuffers.ReadInto | src/net/inet.cpp:655-701 | the scatter read appends exactly the bytes read, whether or not the stack buffer was used |
| StreamBuffers.Replay | src/stream_buffer.cpp:9-77 | every run holds what a plain byte queue holds, in storage of at most max(initial size, 2 * largest backlog), and moves no more bytes than were popped |
| Framing.ParseReassembles | src/net/inet.cpp:970-984 | frames followed by residue are the bytes parsed |
| Framing.ParseIsComplete | src/net/inet.cpp:970-984 | no complete frame is left behind and no frame is empty |
| Framing.ParseAppend | src/net/inet.cpp:970-984 | a parse is resumed from its residue when more bytes arrive |
| Framing.ChunkingInvariance | src/net/inet.cpp:874-984 | any partition into reads yields the frames and residue of one greedy parse |
| Framing.ChunkingInvariantIffPrefixStable | src/net/inet.cpp:970-984 | chunking never matters exactly for the prefix-stable split callbacks |
| Framing.ParseConcat | src/net/inet.cpp:970-984 | frames recognised at their own end come out as they went in |
| Framing.ParseConcatConverse | src/net/inet.cpp:970-984 | frames that come out as they went in were recognised at their own end |
| Framing.PrefixGivesFirstFrames | src/net/inet.cpp:970-984 | whatever part of a framed stream has arrived, its frames are the first ones sent |
| Codecs.DecodeEncodeWord | examples/tcp_example.cpp:15-18 | the copied length is read back |
| Codecs.DataToPacket | examples/tcp_example.cpp:12-21 | the appended bytes are the packet of the data, with the length truncated to 32 bits |
| Codecs.PacketLayout | examples/tcp_example.cpp:12-21 | on a little-endian host a packet is its length, least significant byte first, and then the data |
| Codecs.LengthSplitIsStable | examples/tcp_example.cpp:42-51 | the length-prefix callback stays within the slice and is prefix-stable |
| Codecs.PacketIsFrameIff | examples/tcp_example.cpp:45-50 | a packet is its own frame iff the payload is at most 2^32 - 5 bytes |
| Codecs.PacketRoundTripIff | examples/tcp_example.cpp:12-51 | a list of packets is split back exactly iff every payload is at most 2^32 - 5 bytes |
| Codecs.OversizedPayloadIsStuck | examples/tcp_example.cpp:45-50 | a payload of 2^32 - 4 bytes makes the 32-bit sum 0, so nothing is split off whatever follows |
| Codecs.DelimiterSplitIsStable | examples/pressure_example.cpp:20-28 | the delimiter callback stays within the slice and is prefix-stable |
| Codecs.RequestIsFrameIff | examples/pressure_example.cpp:20-28 | a request is its own frame iff its only delimiter is its end |
| Codecs.RequestRoundTripIff | examples/pressure_example.cpp:20-28 | a stream of requests is split back exactly iff each has its only delimiter at its end |
| SendPath.PostKeepsInv | include/kzevent/net/inet.hpp:363-418 | a send task, direct or queued, keeps conservation and the coming wake-up |
| SendPath.WriteEventKeepsInv | src/net/inet.cpp:908-949 | a write event, partial or complete, keeps them |
| SendPath.SendOrderPreserved | include/kzevent/net/inet.hpp:359-484 | before the first error, bytes accepted followed by bytes queued equal the posted data in task order; queued bytes keep the write interest |
| SendPath.QueuedBytesCanLeave | src/net/inet.cpp:908-949 | from every reachable state the loop and a reading peer can deliver all posted bytes without a further post |
| SendPath.ReadsStayOn | src/net/inet.cpp:908-949 | over every run a connected endpoint keeps reads and errors in its recorded interest and in every enable task on its way, hence in the kernel once they have run |
| SendPath.WritesAskedIffQueued | include/kzevent/net/inet.hpp:363-418 | over every run whose sends carry data, a connected endpoint asks for the write event iff bytes wait |
| SendPath.EmptyPostAsksForWrites | include/kzevent/net/inet.hpp:363-418 | a run in which a refused empty message asks for the write event with nothing to write |
| SendPath.FlushStopsWrites | src/net/inet.cpp:915-923 | a write event removes exactly Write from the interest iff it empties the queue, and posts that interest |
| SendPath.DirectSendIffIdle | include/kzevent/net/inet.hpp:363-418 | only a connected endpoint with nothing queued sends at once; what the kernel leaves is queued and the write event asked for |
| StreamSessions.StreamSend | src/net/inet.cpp:629-653 | removes exactly the accepted bytes and maps the kernel's answer to a status |
| StreamSessions.StreamRecv | src/net/inet.cpp:655-701 | appends exactly the bytes read and maps the kernel's answer to a status |
| StreamSessions.ReadLoop | src/net/inet.cpp:874-906 | reads of any size append all input before the refusal |
| StreamSessions.SendLoop | src/net/inet.cpp:908-949 | sends until the buffer is empty or the kernel refuses |
| StreamSessions.SplitLoop | src/net/inet.cpp:970-984 | the loop on the buffer is one greedy parse |
| StreamSessions.StreamSession.PostSendTask | include/kzevent/net/inet.hpp:359-421 | a server session's send acts on buffer and interest as `SendPath.Post` says |
| StreamSessions.StreamSession.OnEvent | src/net/inet.cpp:864-992 | the event handler: all complete frames are handed over before a disconnect clears the buffers, the exact effect of each error, and Write leaves the interest, alone, iff everything queued was sent |
| StreamSessions.ReceiveStream | src/net/inet.cpp:864-992 | over a whole connection, with sends and write events in between, the fragments are those of one greedy parse of all bytes read, also when the last bytes come with the event that shows the peer gone |
| StreamSessions.FramesAreLostIff | src/net/inet.cpp:893-991 | complete frames that an event finds are not handed over iff one of its branches fails |
| StreamSessions.WriteErrorLosesFrame | src/net/inet.cpp:937-949 | a session in which a failing write event loses a frame read in the same event |
| StreamSessions.StreamClient.PostSendTask | include/kzevent/net/inet.hpp:428-484 | a client's send queues until connected, then acts as `SendPath.Post` says |
| StreamSessions.StreamClient.Connect | src/net/inet.cpp:1123-1144 | only an unconnected client tries; the effect of success, refusal and an attempt in progress |
| StreamSessions.StreamClient.OnConnectEvent | src/net/inet.cpp:1149-1170 | a failed attempt reports its error and disconnects; a completed one starts reading, and writing iff bytes are waiting |
| StreamSessions.StreamClient.OnConnectTimeout | src/net/inet.cpp:1176-1191 | a timeout reports its error and disconnects unless the client is connected |
| StreamSessions.StreamClient.OnEvent | src/net/inet.cpp:1212-1332 | the handler of a client: as for a session, interest included, except that SO_ERROR never lets the peer go |
| SessionTables.AcceptFindsKeyAbsent | src/net/inet.cpp:1064-1070 | whatever fd accept returns, the table has no entry for it and the new session is entered |
| SessionTables.EraseSparesOthers | src/net/inet.cpp:1009-1021 | an erase task, first or repeated, removes at most its own session |
| SessionTables.EntriesOwnTheirFd | src/net/inet.cpp:1064-1070 | every entry names the living session that owns the open fd |
| SessionTables.ErasedStaysErased | src/net/inet.cpp:1009-1021 | a session that has left the table never comes back, even when its fd number does |
| SessionTables.StoppedLeavesTable | src/net/inet.cpp:1009-1021 | stopping a session queues its erase, and in every run it is out of the table once its queued erases have run |
| SessionTables.FdsAreGivenBack | src/core.cpp:441-445 | an fd of a session is open exactly while the session lives or its unregister task is queued |
| SessionTables.StreamServer.OnReadable | src/net/inet.cpp:1042-1073 | the accept loop is a run of Accept steps: whatever accept returns, each session is entered and the others are kept |
| SessionTables.StreamServer.PostErase | src/net/inet.cpp:1009-1021 | stop() appends one erase task for the session: the StopSession step |
| SessionTables.StreamServer.EraseTask | src/net/inet.cpp:1012-1018 | the life-checked erase by fd is the RunErase step: exactly the entry of the session that posted it goes |
| EndToEnd.NextKeepsInv | src/net/inet.cpp:864-992 | every step of sender, socket, receiver and heavy thread keeps the composed invariant |
| EndToEnd.MessagesArriveInOrder | src/net/inet.cpp:970-984 | the fragments handled are the first messages posted, whole, in order, without repetition; all of them when nothing is under way |
| EndToEnd.EveryMessageCanArrive | src/core.cpp:342-433 | from every reachable state with a running heavy thread all posted messages can still be handled without a further post, by steps of a living io thread |
| PacketDelivery.PacketsArriveInOrder | examples/tcp_example.cpp:12-51 | end-to-end order for length-prefixed packets, whatever the payloads contain |
| Timers.ArmDelayBounds | src/timer/timer.cpp:125-153 | the value written is a valid, never disarming time, less than a millisecond early and never late relative to the clock reading |
| Timers.ArmedInTimeIff | src/timer/timer.cpp:125-153 | the deadline of one arming is within the time stamp iff the delay before arming fits what truncation cut off |
| Timers.WakeDelay | src/timer/timer.cpp:126-145 | the branches that fill the timespec compute that delay, never zero and less than a millisecond early |
| Timers.Timer.ArmedInTime | src/timer/timer.cpp:70-73 | in every state between the steps of the loop the wake-up for the earliest entry is on time iff the arming was quick enough |
| Timers.ArmingCanBeLate | src/timer/timer.cpp:125-153 | a timer, reached by one post, whose wake-up is late by a nanosecond of delay |
| TimerBooks.PostKeepsSound | src/timer/timer.cpp:60-74 | a post keeps order, spacing, conservation and silence |
| TimerBooks.DropKeepsSound | src/timer/timer.cpp:186-192 | dropping a cancelled entry keeps them |
| TimerBooks.NextKeepsSound | src/timer/timer.cpp:176-217 | every effect, dispatch and re-post included, keeps them |
| TimerBooks.DispatchGuarantees | src/timer/timer.cpp:155-221 | over whole runs nothing is dispatched early, dispatches of one repeating task are its interval apart, a one-shot task is in exactly one place, and time stamps do not decrease as long as no post is for the past |
| TimerBooks.TimelyIff | src/timer/timer.cpp:60-64 | a post is for the past iff its timeout is 2^63 ms or more |
| TimerBooks.EntryForIs | src/timer/timer.cpp:60-64 | a post is due a million nanoseconds per millisecond of the signed timeout after the clock reading |
| TimerBooks.TimeoutIsKept | src/timer/timer.cpp:60-217 | over every run no dispatch of a task comes before the post's clock plus the timeout, and those of a repeating task are the timeout apart |
| TimerBooks.TimeoutIsServed | src/timer/timer.cpp:163-217 | a handler pass that samples the clock from then on dispatches the task, unless it was dispatched or cancelled before |
| TimerBooks.OrderIffTimeouts | src/timer/timer.cpp:52-107 | dispatched time stamps never go back in any run iff no timeout reaches 2^63 ms |
| TimerBooks.NegativeTimeoutBreaksOrder | src/timer/timer.cpp:60-64 | for every larger timeout, a run in which they do |
| TimerBooks.CancelIsFinal | src/timer/timer.cpp:109-114 | once the cancel task of a queued id has run that id is never dispatched again, repeating or not |
| TimerBooks.LateCancelIsKept | src/timer/timer.cpp:186-192 | the id of a cancel that comes too late stays in the cancel set |
| TimerBooks.CancelLeavesItsIdIff | src/timer/timer.cpp:109-192 | once a cancelled task is out of the queue, its id is still in the cancel set iff it was out of the queue as the cancel ran |
| TimerBooks.LateCancelHappens | src/timer/timer.cpp:109-192 | a run in which the cancel comes after the dispatch |
| TimerBooks.PassFires | src/timer/timer.cpp:195-216 | a dispatch keeps the account of a pass and leaves fewer entries due, although a repeating one is queued again |
| TimerBooks.PassServes | src/timer/timer.cpp:177-217 | a pass that leaves nothing due has dispatched every due entry that was not cancelled and dropped the others |
| TimerBooks.FireShrinksDueIff | src/timer/timer.cpp:202-212 | a dispatch leaves fewer entries due iff the entry does not come back due |
| TimerBooks.ExpiryCanSpin | src/timer/timer.cpp:177-217 | with a timeout of 2^63 ms or more a pass can dispatch a repeating task any number of times and find it still due |
| Timers.Timer.PostTask | src/timer/timer.cpp:52-107 | both post functions queue the entry at the clock plus 1 000 000 ns per millisecond of the signed timeout, with that as interval if repeating, and set the timerfd again iff it is among the earliest |
| Timers.Timer.CancelTask | src/timer/timer.cpp:109-114 | the cancel task only records the id |
| Timers.Timer.SetNextWakeTime | src/timer/timer.cpp:125-153 | the timerfd is armed for exactly the time of arming plus the delay computed from the clock reading |
| Timers.Timer.FireTop | src/timer/timer.cpp:195-216 | the earliest entry leaves the queue, comes back one interval after a new clock reading if it repeats, and is posted to the heavy queue once |
| Timers.Timer.OnExpiry | src/timer/timer.cpp:163-218 | a pass terminates, leaves nothing due, dispatches each due entry once unless cancelled, touches nothing else, and leaves the timer armed |
| InetAddrs.StripNuls | src/net/inet.cpp:305-323 | the loops remove exactly the trailing NULs |
| InetAddrs.MakeFromSockaddr | src/net/inet.cpp:261-334 | decoding, with every rejected length and name |
| InetAddrs.DecodesToPeerIff | src/net/inet.cpp:261-334 | a sockaddr is accepted iff its bytes stand for a port and ip, a path or an abstract name followed by NULs, and the address made stands for just that peer |
| InetAddrs.MadePeers | src/net/inet.cpp:145-259 | each factory makes an address that stands for what it was given, in the layout of the Linux structures; names are refused iff empty, longer than 107 bytes or with a NUL |
| InetAddrs.RoundTripIff | src/net/inet.cpp:145-334 | the addresses the factories make are exactly those that decoding their own sockaddr gives back, bit for bit |
| InetAddrs.PaddingIsIgnoredIff | src/net/inet.cpp:288-328 | a longer unix sockaddr decodes alike iff the rest is NUL padding |
| InetAddrs.PortRoundTrip | src/net/inet.cpp:404-421 | get_port gives back the port |
| InetAddrs.EqualIffSamePeer | src/net/inet.cpp:37-91 | addresses from the factories are equal iff they stand for the same port and ip, path or abstract name |
| InetAddrs.ReflexiveIff | src/net/inet.cpp:37-91 | exactly which addresses equal themselves |
| InetAddrs.ScopeIsIgnored | src/net/inet.cpp:57-68 | addresses that differ in the scope id alone are different and compare equal |
| InetAddrs.DefaultIsUnequal | include/kzevent/net/inet.hpp:63-69 | a default-constructed address does not equal itself |
| InetAddrs.Hash | src/net/inet.cpp:97-142 | the accumulating code computes `HashOf` |
| InetAddrs.SamePeerHashAlike | src/net/inet.cpp:97-142 | addresses of the same peer hash alike, whatever std::hash does |
| InetAddrs.HashAlikeIff | src/net/inet.cpp:97-142 | addresses hash alike under every std::hash iff they stand for the same peer, so every part of it reaches the hash |
| InetAddrs.PrintedNameIs | src/net/inet.cpp:377-397 | a path prints as itself, an abstract name with `@` in front |
| InetAddrs.PrintedAlikeIff | src/net/inet.cpp:377-397 | two unix addresses print alike iff they are equal or one is a path of `@` and the other's abstract name |
| InetAddrs.PrintedNamesCollide | src/net/inet.cpp:377-397 | for every abstract name short enough there is a path that prints like it |
| UdpSessions.TableIsHistory | src/net/udp_socket.cpp:275-325 | in every run the table is determined by the history: an address has a session iff no sweep came too late for its last stamping packet, and carries its time |
| UdpSessions.NewSessionIff | src/net/udp_socket.cpp:275-310 | with read_cb_ set a packet opens a session iff its address has not been heard of since it was last swept |
| UdpSessions.EveryPacketDelivered | src/net/udp_socket.cpp:275-325 | with read_cb_ set every packet is posted to the heavy thread once, in order |
| UdpSessions.PacketIsPosted | src/net/udp_socket.cpp:287-325 | which packets are posted, to which callback and with which session, and that no other session is touched |
| UdpSessions.PostsCarryTheirSession | src/net/udp_socket.cpp:287-325 | in every run each post carries its packet's data and the session its source has right after the packet |
| UdpSessions.SessionsStayApart | src/net/udp_socket.cpp:287-325 | in every run the posts are the delivered packets in order, and posts that name the same session come from the same source |
| UdpSessions.SweptEarlyIff | src/net/udp_socket.cpp:312-316 | exactly when a session is swept although its last packet is within the timeout |
| UdpSessions.SendingClientIsSwept | src/net/udp_socket.cpp:312-316 | a concrete client swept 26 seconds after its last packet under a timeout of 60 |
| UdpSessions.IdleIsSwept | src/net/udp_socket.cpp:216-227 | a sweep later than the timeout after an address's last packet has removed its session, whatever callbacks are set |
| UdpSessions.IdleSessionIsGone | src/net/udp_socket.cpp:216-227 | with punctual ticks an idle session is gone by the timeout plus one scan interval |
| UdpSessions.OvershootIff | src/net/udp_socket.cpp:253-265 | the interval is at most a tenth of the timeout iff the timeout is at least 1000 ms |
| UdpSessions.OvershootOfServerIff | src/net/udp_socket.cpp:253-265 | under a punctual timer no session is ever kept for 11/10 of the timeout iff the timeout is at least 1000 ms |
| UdpSessions.UdpServer.MakeUdpServer | src/net/udp_socket.cpp:171-196 | refuses exactly other families and a timeout of 0 |
| UdpSessions.UdpServer.OnRead | src/net/udp_socket.cpp:275-325 | a packet extends the history and refreshes the stamp iff it opens the session or read_cb_ is set; the one post it may add carries its data with the session of its own source, to the new-session callback iff it opened the session with that callback set |
| UdpSessions.UdpServer.OnScan | src/net/udp_socket.cpp:208-228 | the sweep keeps exactly the sessions with now - stamp <= timeout, unchanged |

## Left out

- System calls: their documented results are parameters or nondeterministic steps; `timerfd_settime` and the allocation
  of memory are taken to succeed, and so is `close` in the runs of the loop.
- Integer widths: `ssize_t` and clock counts are unbounded, so neither the wrap of the timer id counter to 0 nor the
  overflow of a duration in nanoseconds is modelled; the signed conversion of timer timeouts, the 32-bit sums of the
  codec and the eventfd counter are.
- UdpSessions.UdpServer.MakeUdpServer: a session timeout of 2^63 ms or more, which turns negative, is taken as it is.
- The masks of `EventType` and `EventMode` as bits: an interest is a set of event kinds, and the mode is not modelled.
- `src/net/tcp_socket.cpp` and `src/net/unix_socket.cpp`: only that `on_fragment` posts to the heavy queue in order.
  Callbacks that are not set, and owners that have expired, make posted work do nothing; the dispatch log of the timer
  and the heavy queue record the post.
- The thread on which a synchronous connect runs, and what the callbacks of a client do: `on_error` is recorded. The
  runs of `SendPath` start with an attempt in progress and follow it to completion.
- Datagram send and receive, multicast, socket options, `inet_pton` and `inet_ntop` (their result is a parameter),
  the IP text form of `get_ip_or_path`, logging and exceptions from constructors.
- `stop` and `start` called from an executor thread or concurrently; in `HeavyQueues`, a call of `stop` when the loop is
  not running. Liveness of the heavy thread after `stop` is claimed only as far as `StopIsLostIff` goes.
- Send order after an error, a disconnect or a stop: the code drops or clears data there.
- `Timer::stop` and starting a timer twice.
- EndToEnd.MessagesArriveInOrder: the endpoint's enable tasks and write events are separate steps of a living io thread
  rather than entries of the sender's task queue, which allows more interleavings than the code has; the receiver's io loop appears as read
  steps.
- EndToEnd.EveryMessageCanArrive: a possible continuation, not a fairness argument, with the same separation of steps.
- LoopTheorems.EveryPostedTaskCanRun: a possible continuation; scheduling fairness is not modelled.
- Timers.Timer.OnExpiry: claimed while no pending interval has turned negative, since the handler need not terminate
  otherwise (`ExpiryCanSpin`); the priority queue is its standard contract, a multiset with a minimum, ties broken in any
  way.
