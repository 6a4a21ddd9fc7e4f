# RingleaderNIC: a verified model

This project models the parts of RingleaderNIC whose correctness rests on an argument across several
functions, and proves that argument. It has seven parts.

* **Packet buffers and rings.** The user-space driver shares reference-counted packet buffers between a
  pool, an RX ring, a TX ring and the application, and detects completions by a flag in memory instead of
  a NIC register. The model keeps the source's free-running 32-bit pointers in its objects and unbounded
  counters beside them, proves who owns every buffer in every run, and that the echo application never
  runs its pool dry. (`Mempool`, `Pointers`, `RxRing`, `TxRing`, `Driver`, `RxQueue`, `TxQueue`, `Echo`,
  `EchoWorker`)
* **TCP connection set-up.** Any number of hosts run the peer with its four maps, its listeners and its
  active openers over a network that loses, duplicates and reorders. Every assertion on the maps is shown to hold
  in every reachable state, the two ends of every completed handshake are shown to agree, and handshakes
  are shown to complete. (`Tcp`, `TcpPeer`, `TcpWorld`, `TcpHandshake`, `TcpSockets`, `TcpHost`)
* **Wire formats.** Ethernet, IPv4 and TCP headers are written in place and parsed back; the model says
  exactly where each field lies, what the parsers accept, for which headers the two are inverse, and what
  the TCP checksum detects. Every segment the handshake sends makes it through these bytes unchanged.
  (`Checksum`, `TcpWire`, `Frame`, `TcpSegments`)
* **Times.** Shift-and-subtract remainders of seconds and nanoseconds in 64-bit integers, and the
  alignment of a periodic schedule. (`Timespec`)
* **Flash.** Two drivers over a NOR device whose cells only lose bits until they are erased, the loops
  that feed them, and the programming of an image into one or two devices. (`Flash`, `FlashDriver`,
  `FlashObject`, `Firmware`, `Bitfile`)
* **Core allocator.** Bit masks and bounded message channels shared by all cores. (`CoreAllocator`)
* **Scheduler and timer.** Pages of task bits with priorities, and the heap of waiting futures.
  (`Scheduler`, `Timer`)

Each stateful part has a value model (datatypes, functions, invariants, whole runs) and a class or
methods in the source's own form, proved to refine the value model. Logs and histories (`history` in the
rings, `log` in the TCP peer, `delivered` and `history` in the core allocator) are part of the value
models only; no operation reads them.

Reading conventions. Bit fields and masks by powers of two are written with `/` and `%`. Machine integers
appear where their width matters: 32-bit pointers as `Wrap32`, the checksum accumulator as `u32`, times as
64-bit `long`, windows as 16- and 32-bit shifts. Values the source takes from elsewhere are parameters:
what the NIC writes, sequence numbers from the generator, whether a link address is known, the slot a slab
picks, what a polled task does, whether a flash device accepts a command.

Where the code does not do what its name or comments suggest, the code is followed:

* `timespec_mod` is right for every dividend of at most LONG_MAX - 2 seconds (`Timespec.ModWorksInRange`);
  beyond that it is wrong for some divisors. `Timespec.Mod` and `Timespec.ModWorksExactly` say for which,
  and `Timespec.ModFailsAtTheEdge` gives an input.
* The parallel flash driver halves addresses and lengths, so odd ones are not programmed as asked;
  `FlashDriver.WordsExact` is the exact condition.
* A written IPv4 header comes back only if the buffer did not hold 0xffff where the checksum belongs,
  because nothing writes that field; see `Ipv4Wire.RoundTrip` and `Frame.FrameRoundTrip`.
* The window towards the side that opened a connection is computed in 16 bits there and in 32 bits by the
  listener; `Tcp.HandshakeMirrors` says when the two are equal.
* Connecting to a closed port is not refused: the reset it is answered with acknowledges nothing, and the
  opener ignores it until its timeout; see `TcpPeer.ClosedPortAnswers`.
* A failed `connect` leaves its descriptor in the connecting state for good; `TcpWorld.PollFailureSticks`
  says when, `TcpWorld.StuckHappens` gives a run, and `TcpWorld.StuckForever` says that no later call
  revives it.
* A half-open connection that timed out is reported as an error but keeps its place in the backlog;
  `TcpWorld.StrandedUntilAcknowledged` says for how long and `TcpWorld.StrandedHappens` gives a run.
* A scheduler pass forgets that a handle was dropped in two cases: for every task of the page it serves,
  and for the task in slot zero of a page it passes. `Scheduler.DropFate` is the exact condition,
  `Scheduler.DropIsLost` and `Scheduler.ZeroDropIsLost` give inputs, and `Scheduler.LostDropLeaks` says
  that the slot then stays occupied for good.
* Merging a split image restores all of it only if its last 0x68 bytes are blank; see
  `Firmware.MergeSplit`.

## Model

| member | source | states |
|---|---|---|
| Mempool.AllocFrom | driver/src/memory.c:126-143 | fails exactly on an empty free stack; otherwise hands out a buffer nobody references, now with one reference, and keeps the pool consistent |
| Mempool.Release | driver/src/memory.c:145-154 | refused exactly for a buffer with no reference (double free); otherwise one reference less, back on the stack with the last one |
| Mempool.PoolConservation | driver/src/memory.c:94-154 | free entries plus referenced buffers are all buffers, in every consistent pool |
| Mempool.PacketPool.constructor | driver/src/memory.c:94-124 | a fresh pool holds every entry once, unreferenced |
| Mempool.PacketPool.Alloc | driver/src/memory.c:126-143 | the stack and count arrays change exactly as `AllocFrom` says |
| Mempool.PacketPool.Free | driver/src/memory.c:145-154 | the arrays change exactly as `Release` says, and the abort on a double free is reported |
| Pointers.WrapKeepsSlot | driver/src/driver/mqnic.c:201-222 | masking a wrapped 32-bit pointer selects the same ring slot and the same 16-bit hardware pointer as the unbounded counter |
| Pointers.WrapDistance | driver/src/driver/mqnic.c:830-833 | 32-bit differences and equality tests are right while two counters are less than 2^32 apart |
| Pointers.WidenRecovers | driver/src/driver/mqnic.c:798-828 | the masked 16-bit update recovers the true pointer if and only if it advanced by less than 65536 |
| Pointers.WidenDistance | hardware/modules/mqnic/mqnic_cq.c:144-152 | what the masked difference computes is the true advance modulo 65536 |
| RxRing.PostKeeps | driver/src/driver/mqnic.c:210-216 | a refill never overwrites an occupied slot and keeps the ring invariant |
| RxRing.NicCompleteKeeps | driver/src/driver/mqnic.c:860-873 | with completions in any order the completion queue never overflows: the entry the NIC writes next is always free |
| RxRing.ReadyMeans | driver/src/driver/mqnic.c:863-882 | the length flag is set exactly when the NIC's head register would differ from the tail, and the completion then names an outstanding descriptor with its buffer |
| RxRing.ConsumeOneKeeps | driver/src/driver/mqnic.c:871-906 | consuming a completion marks exactly that descriptor as consumed |
| RxRing.ConsumePacket | driver/src/driver/mqnic.c:871-925 | packet i of a batch is the buffer and length of the i-th completion in arrival order |
| RxRing.CleanFindsOldest | driver/src/driver/mqnic.c:946-960 | the clean loop stops at the oldest outstanding descriptor or at its limit, whichever comes first |
| RxRing.CountReachesOldest | driver/src/driver/mqnic.c:940-944 | the count of completions, which is not a position, is never short of the oldest outstanding descriptor |
| RxRing.DriversAgree | hardware/modules/mqnic/mqnic_rx.c:364-383 | the count-based loop and the kernel's register-based loop compute the same clean pointer |
| RxRing.CleanKeeps | driver/src/driver/mqnic.c:946-960 | after cleaning, the clean pointer is exactly the oldest outstanding descriptor |
| RxRing.DrainKeeps | driver/src/driver/mqnic.c:860-960 | one batch keeps the invariant, leaves at most 32 completions unreported and an exact clean pointer |
| RxRing.ReceivePacket | driver/src/driver/mqnic.c:845-977 | a receive call returns completions in arrival order, refill included |
| RxRing.ReceiveKeeps | driver/src/driver/mqnic.c:845-977 | a receive call keeps every ring invariant, advances the count by the packets returned, and leaves the head where it was if fewer than 8 descriptors are missing and else 256 above the clean pointer |
| RxRing.RefillStocks | driver/src/driver/mqnic.c:201-222 | every descriptor a refill adds holds a buffer nobody referenced before and only the slot references now, all different; the free stack shrinks by exactly that many |
| RxRing.ReceiveStocks | driver/src/driver/mqnic.c:845-977 | the same when the whole receive call returns |
| TxRing.NicSentKeeps | driver/src/driver/mqnic.c:989-1002 | the completion entry the NIC writes is always free, with completions in order |
| TxRing.RetireKeeps | driver/src/driver/mqnic.c:989-1027 | the length flag is the head register test, and the completion names the oldest posted slot |
| TxRing.RetireBacked | driver/src/driver/mqnic.c:1006-1012 | the freed buffer has a reference to give back, so the free never aborts, and nobody else's count changes |
| TxRing.TxCleanReachesTail | driver/src/driver/mqnic.c:1041-1060 | the clean loop always reaches the tail: the error exit is dead code under in-order completion |
| TxRing.TxPostKeeps | driver/src/driver/mqnic.c:1077-1102 | posting never overwrites an occupied slot and adds exactly the ring's own reference |
| TxRing.PostAllOrder | driver/src/driver/mqnic.c:1077-1102 | buffers occupy consecutive slots in the order given, and posted slots are untouched |
| TxRing.PostAllKeeps | driver/src/driver/mqnic.c:1077-1102 | posting a batch that fits keeps pool and ring consistent and leaves all other references alone |
| TxRing.TransmitKeeps | driver/src/driver/mqnic.c:1066-1107 | a transmit call reclaims up to 64 completed buffers, posts as many as fit half the ring, and leaves every reference but the ring's own alone |
| TxRing.TransmitCarries | driver/src/driver/mqnic.c:989-1107 | the ring always carries, in order, the part of everything ever posted that is not yet reclaimed; a transmit call appends exactly the buffers it accepts |
| Driver.StepKeeps | driver/src/driver/mqnic.c:845-1107 | every driver, application or NIC step keeps ref_count = application references + RX slots + TX slots for every buffer; only a receive can abort |
| Driver.TransmitStep | driver/src/driver/mqnic.c:1066-1107 | transmitting owned buffers always succeeds and keeps the ownership equation |
| Driver.ReceiveOwns | driver/src/driver/mqnic.c:845-977 | a receive call hands the references of consumed slots to the application and those of refilled slots to the ring, none lost, none added |
| Driver.ReceiveCallStocks | driver/src/driver/mqnic.c:845-977 | the same of the receive step of the system; the NIC may write into every descriptor added |
| Driver.InitInv | driver/src/driver/mqnic.c:268-471 | empty rings over a fresh pool satisfy the system invariant |
| Driver.Run | driver/src/driver/mqnic.c:845-1107 | ownership holds after every run of calls and completions |
| Driver.AllocatedIsUnshared | driver/src/memory.c:126-143 | a newly allocated buffer is held by nobody: not the application, not a slot of either ring |
| Driver.PendingBufferIsSafe | driver/src/driver/mqnic.c:250-266 | a buffer the NIC may still write is in exactly one slot, not free and not in the application's hands |
| Driver.UnsentBufferIsSafe | driver/src/driver/mqnic.c:1077-1102 | a buffer the NIC may still read is not free |
| RxQueueObject.RxQueue.constructor | driver/src/driver/mqnic.c:381-471 | a fresh receive queue is blank |
| RxQueueObject.RxQueue.PostOne | driver/src/driver/mqnic.c:250-266 | one descriptor posted at the 32-bit head pointer, or nothing if the pool is empty |
| RxQueueObject.RxQueue.Refill | driver/src/driver/mqnic.c:201-222 | the refill loop with its threshold of eight refines the value model, and the head register holds the head modulo 65536 |
| RxQueueObject.RxQueue.HeadIsTold | driver/src/driver/mqnic.c:219-222 | a NIC that widens the register from a head it knew recovers the 32-bit head |
| RxQueueObject.RxQueue.TakeBatch | driver/src/driver/mqnic.c:860-925 | the completion loop on arrays and wrapped pointers delivers exactly the model's packets |
| RxQueueObject.RxQueue.AdvanceClean | driver/src/driver/mqnic.c:938-960 | the clean loop on wrapped pointers computes the model's clean pointer |
| RxQueueObject.RxQueue.Drain | driver/src/driver/mqnic.c:860-960 | batch, tail report after more than 32 completions, and cleaning together refine the model |
| RxQueueObject.RxQueue.Receive | driver/src/driver/mqnic.c:845-977 | the whole receive call refines the value model; packets land in the caller's array from the given index; a NIC that knew the head before recovers it from the register |
| TxQueueObject.TxQueue.constructor | driver/src/driver/mqnic.c:268-361 | a fresh transmit queue is blank |
| TxQueueObject.TxQueue.RetireBatch | driver/src/driver/mqnic.c:989-1027 | the completion loop frees and clears slots exactly as the model, without ever aborting |
| TxQueueObject.TxQueue.ProcessCq | driver/src/driver/mqnic.c:980-1061 | reclaiming with its clean loop refines the model, the tail register holds the completions taken modulo 65536, and the error exit is never taken |
| TxQueueObject.TxQueue.PostBatch | driver/src/driver/mqnic.c:1073-1106 | the posting loop stops exactly when the ring is half full, and the head register holds the new head modulo 65536 |
| TxQueueObject.TxQueue.Transmit | driver/src/driver/mqnic.c:1066-1107 | the whole transmit call refines the value model and never aborts; a NIC that knew both pointers before recovers both from the registers |
| TxQueueObject.TxQueue.PointersAreTold | driver/src/driver/mqnic.c:1030-1105 | a NIC that widens the two registers from values it knew recovers the head and the tail |
| Echo.PullRing | driver/src/app/ixy-throughput.c:98-147 | pulling a batch keeps the worker ring's counters and contents consistent |
| Echo.PullWaiting | driver/src/app/ixy-throughput.c:98-147 | the buffers waiting in the ring grow by exactly those received |
| Echo.WorkRing | driver/src/app/ixy-throughput.c:149-191 | processing moves counters only; the waiting buffers are the same |
| Echo.FeedbackRing | driver/src/app/ixy-throughput.c:193-202 | feedback changes no buffer |
| Echo.SendRing | driver/src/app/ixy-throughput.c:204-228 | sending from the tail keeps the ring consistent and never passes the array end |
| Echo.SendWaiting | driver/src/app/ixy-throughput.c:204-228 | the buffers leaving the ring are its oldest, and they were waiting |
| Echo.PoolNeverDry | driver/src/driver/mqnic.c:164-171 | with at most 128 application references at least 3456 of 4096 buffers are free |
| Echo.PullKeeps | driver/src/app/ixy-throughput.c:98-147 | receiving never aborts in the echo loop and keeps its invariant |
| Echo.SendKeeps | driver/src/app/ixy-throughput.c:204-228 | transmitting and freeing never aborts in the echo loop and keeps its invariant |
| Echo.EchoRun | driver/src/app/ixy-throughput.c:230-274 | in every run empty + unprocessed + unsent = 128 and the posted buffers are a prefix of those received, in order |
| Echo.EchoKeepsOrder | driver/src/app/ixy-throughput.c:230-274 | in every run from a blank start the p-th transmit descriptor ever posted holds the p-th packet ever received, until it is reclaimed |
| Echo.PullProgress | driver/src/app/ixy-throughput.c:98-147 | with fewer than five packets waiting a pull takes all that have arrived, up to 16 and the end of the array |
| Echo.SendProgress | driver/src/app/ixy-throughput.c:204-228 | with room in the transmit ring a send posts exactly the oldest ready packet |
| Echo.EchoDrains | driver/src/app/ixy-throughput.c:230-274 | working on everything and then sending everything posts every packet received, if the transmit ring has room |
| EchoObject.EchoWorker.constructor | driver/src/app/ixy-throughput.c:75-96 | a fresh worker satisfies the invariant |
| EchoObject.EchoWorker.PullRx | driver/src/app/ixy-throughput.c:98-147 | the method on real arrays refines the model and never reports an abort |
| EchoObject.EchoWorker.DoWork | driver/src/app/ixy-throughput.c:149-191 | the counters change as in the model |
| EchoObject.EchoWorker.SendFeedback | driver/src/app/ixy-throughput.c:193-202 | the counters change as in the model |
| EchoObject.EchoWorker.SendTx | driver/src/app/ixy-throughput.c:204-228 | transmit, free and account refine the model, with no abort |
| Tcp.ScanOptions | demikernel/catnip/src/protocols/tcp/passive_open.rs:228-243 | the option loop finds the last segment size (or the fallback 536) and the last window scale |
| Tcp.AdvertiseScan | demikernel/catnip/src/protocols/tcp/passive_open.rs:286-292 | what one side advertises is what the other side reads, the size cut to 16 bits |
| Tcp.HandshakeMirrors | demikernel/catnip/src/protocols/tcp/active_open.rs:107-220 | a SYN and its SYN+ACK lead to mirrored control blocks with each other's segment size; one window always agrees, the other exactly when the scaled value fits 16 bits |
| Tcp.HandshakeCompletes | demikernel/catnip/src/protocols/tcp/active_open.rs:107-170 | the SYN+ACK for a SYN is the answer its sender waits for; the acknowledgment carries the numbers of both blocks, and at any listener that still has the half-open connection it ends it and queues the connection |
| Tcp.UnscaledHandshake | demikernel/catnip/src/protocols/tcp/active_open.rs:172-204 | without a window-scale option from the other side neither side scales its windows |
| Tcp.ResetRefuses | demikernel/catnip/src/protocols/tcp/active_open.rs:107-131 | a reset refuses an opening exactly if it acknowledges the SYN |
| TcpPeer.ListenerReceiveKeeps | demikernel/catnip/src/protocols/tcp/passive_open.rs:125-254 | half-open and queued remotes stay disjoint and within the backlog, the queue assertion holds, and a window panic happens exactly for an out-of-range shift |
| TcpPeer.ListenerPollKeeps | demikernel/catnip/src/protocols/tcp/passive_open.rs:70-82 | taking a result returns the oldest one, removes exactly its remote, and the set assertion holds |
| TcpPeer.ListenerTasksKeep | demikernel/catnip/src/protocols/tcp/passive_open.rs:256-309 | resending changes nothing but the tries; giving up queues a timeout, keeps the half-open entry and ends the task |
| TcpPeer.NewSocketKeeps | demikernel/catnip/src/protocols/tcp/peer.rs:46-54 | a new descriptor is never in the map already |
| TcpPeer.BindKeeps | demikernel/catnip/src/protocols/tcp/peer.rs:56-72 | binding keeps bound ports below the private range |
| TcpPeer.ListenKeeps | demikernel/catnip/src/protocols/tcp/peer.rs:78-99 | listening keeps every invariant and its map assertion holds |
| TcpPeer.AcceptListener | demikernel/catnip/src/protocols/tcp/passive_open.rs:70-82 | accepting moves a remote from queued to established and from nowhere else |
| TcpPeer.InstallKeeps | demikernel/catnip/src/protocols/tcp/peer.rs:127-138 | the two map assertions of accepting hold |
| TcpPeer.AcceptKeeps | demikernel/catnip/src/protocols/tcp/peer.rs:101-139 | accepting never panics and keeps every invariant |
| TcpPeer.TakePort | demikernel/catnip/src/protocols/ip/port.rs:43-57 | a private port is handed out once and never again |
| TcpPeer.ConnectKeeps | demikernel/catnip/src/protocols/tcp/peer.rs:148-187 | opening uses a key that is new in every map, so its assertion holds |
| TcpPeer.PollConnectKeeps | demikernel/catnip/src/protocols/tcp/peer.rs:497-536 | finishing an opening never panics; success and failure both keep every invariant |
| TcpPeer.ActiveTasksKeep | demikernel/catnip/src/protocols/tcp/active_open.rs:222-277 | resending SYN and timing out keep every invariant, and every SYN carries the logged sequence number |
| TcpPeer.ListenerTasksHold | demikernel/catnip/src/protocols/tcp/passive_open.rs:256-309 | every SYN+ACK repeats the one offer made to that remote |
| TcpPeer.NeverOffered | demikernel/catnip/src/protocols/tcp/passive_open.rs:204-254 | a SYN is answered with one sequence number only, ever: answered remotes are never forgotten |
| TcpPeer.ToConnectingKeeps | demikernel/catnip/src/protocols/tcp/active_open.rs:107-220 | a segment for a connection being opened keeps every invariant |
| TcpPeer.ToListenerKeeps | demikernel/catnip/src/protocols/tcp/passive_open.rs:125-254 | a segment for a listener keeps every invariant |
| TcpPeer.ReceiveKeeps | demikernel/catnip/src/protocols/tcp/peer.rs:432-467 | routing any segment keeps every invariant and trips no assertion on the maps |
| TcpPeer.ReceivePanics | demikernel/catnip/src/protocols/tcp/peer.rs:432-467 | a peer panics on a segment if and only if it completes an opening whose link address is unknown or whose window scales are out of range, or a half-open connection whose shifts are out of range |
| TcpPeer.BadSourceIs | demikernel/catnip/src/protocols/tcp/peer.rs:439-444 | refused sources are the unspecified, the broadcast and the multicast addresses |
| TcpPeer.PollConnectTells | demikernel/catnip/src/protocols/tcp/peer.rs:497-536 | asking about an opening says pending, its failure, or done, and then the connection is established with the block that was built |
| TcpPeer.ClosedPortAnswers | demikernel/catnip/src/protocols/tcp/peer.rs:461-495 | a segment without a socket is answered by a reset, if the link is known; it acknowledges nothing, so an opener ignores it |
| TcpWorld.PerformKeeps | demikernel/catnip/src/protocols/tcp/peer.rs:46-187 | every call, task turn and arrival keeps the peer's invariants, adds to its log only, and panics, if at all, on an arrival and not about the maps |
| TcpWorld.RunPeerSafe | demikernel/catnip/src/protocols/tcp/peer.rs:46-536 | in every run: half-open, queued and established remotes of a listener are disjoint, queued ones are exactly those with a finished entry, their number respects the backlog, and no map assertion can fail next |
| TcpWorld.PollFailureSticks | demikernel/catnip/src/protocols/tcp/peer.rs:497-536 | asking about an opening leaves its descriptor connecting with nothing being opened exactly when an error result is waiting, and exactly when the call reports failure |
| TcpWorld.StuckHappens | demikernel/catnip/src/protocols/tcp/active_open.rs:222-277 | with one retry, a run from a new peer that ends there: the SYN goes unanswered, the task gives up, and the caller asks |
| TcpWorld.StuckForever | demikernel/catnip/src/protocols/tcp/peer.rs:497-536 | such a descriptor never becomes usable again, in any run |
| TcpWorld.StrandedStep | demikernel/catnip/src/protocols/tcp/passive_open.rs:125-254 | a step that does not panic ends such a place if and only if it is the arrival of the acknowledgment from a usable address, and the connection is then no longer half open |
| TcpWorld.SettledForever | demikernel/catnip/src/protocols/tcp/passive_open.rs:205-254 | a connection that was answered and is no longer half open never becomes half open again |
| TcpWorld.StrandedUntilAcknowledged | demikernel/catnip/src/protocols/tcp/passive_open.rs:256-309 | a half-open connection whose task gave up holds its place in the backlog at the end of a run, with nothing resent for it, if and only if its acknowledgment did not arrive in the run or comes from an unusable address |
| TcpWorld.StrandedHappens | demikernel/catnip/src/protocols/tcp/passive_open.rs:256-309 | with one retry, a run from a new peer that ends there: socket, bind, listen, a SYN, one SYN+ACK, the timeout, and the accept that reports it |
| TcpWorld.BuildsGood | demikernel/catnip/src/protocols/tcp/active_open.rs:107-220 | an accepted SYN+ACK is the one the remote listener offered |
| TcpWorld.CompletesGood | demikernel/catnip/src/protocols/tcp/passive_open.rs:134-203 | an acknowledgment that completes a half-open connection comes from a host that accepted the offer |
| TcpWorld.StepKeeps | demikernel/catnip/src/protocols/tcp/peer.rs:432-495 | every step of any host, and anything foreign hosts send, keeps the world's invariant |
| TcpWorld.NetworkKeeps | demikernel/catnip/src/protocols/tcp/active_open.rs:255-269 | what was sent stays available for delivery, and what a host, an established connection or a foreign host sends joins it |
| TcpWorld.AgreementAt | demikernel/catnip/src/protocols/tcp/passive_open.rs:134-203 | whenever a listener has completed a connection with a host of the model, that host built the mirrored control block |
| TcpWorld.AcceptedIsCompleted | demikernel/catnip/src/protocols/tcp/peer.rs:101-139 | a connection that came out of `accept` is a completed one, so agreement covers it |
| TcpWorld.RunAgrees | demikernel/catnip/src/protocols/tcp/active_open.rs:107-277 | agreement holds in every world reachable over a losing, duplicating, reordering network |
| TcpWorld.FreshRunAgrees | demikernel/catnip/src/protocols/tcp/peer.rs:411-430 | the same, starting from freshly created peers |
| TcpHandshake.HandshakeHappens | demikernel/catnip/src/protocols/tcp/peer.rs:46-536 | two fresh hosts can connect: socket, bind, listen, socket, connect, SYN, SYN+ACK, ACK, poll and accept are possible one after the other and end with the connection established on both sides, in agreement |
| TcpWorld.SegmentsAreSafe | demikernel/catnip/src/protocols/tcp/active_open.rs:107-197 | a host panics on a segment of a modelled host if and only if it answers an opening and the link address is unknown; the window-scale assertions always hold |
| TcpSockets.PassiveSocket.Receive | demikernel/catnip/src/protocols/tcp/passive_open.rs:125-254 | the mutable listener changes exactly as the value model, in every branch |
| TcpSockets.PassiveSocket.PollAccept | demikernel/catnip/src/protocols/tcp/passive_open.rs:70-82 | the queue and the endpoint set change exactly as the value model, the assertion that the remote is among the endpoints included |
| TcpSockets.PassiveSocket.Answer | demikernel/catnip/src/protocols/tcp/passive_open.rs:270-305 | one try used, and the SYN+ACK that is sent |
| TcpSockets.PassiveSocket.Expire | demikernel/catnip/src/protocols/tcp/passive_open.rs:306-307 | an error is queued, the half-open entry stays |
| TcpSockets.ActiveSocket.Receive | demikernel/catnip/src/protocols/tcp/active_open.rs:107-220 | the mutable opener changes exactly as the value model, and the acknowledgment it sends |
| TcpSockets.ActiveSocket.Try | demikernel/catnip/src/protocols/tcp/active_open.rs:236-269 | one try used, and the SYN that is sent |
| TcpSockets.ActiveSocket.Expire | demikernel/catnip/src/protocols/tcp/active_open.rs:270-275 | whatever result was waiting is replaced by a timeout |
| TcpHost.Host.constructor | demikernel/catnip/src/protocols/tcp/peer.rs:412-430 | a fresh peer satisfies every invariant |
| TcpHost.Host.NewDescriptor | demikernel/catnip/src/protocols/tcp/peer.rs:46-54 | refines the value model with its assertion proved in place |
| TcpHost.Host.BindTo | demikernel/catnip/src/protocols/tcp/peer.rs:56-72 | refines the value model |
| TcpHost.Host.ListenOn | demikernel/catnip/src/protocols/tcp/peer.rs:78-99 | refines the value model; the new listener is a fresh object |
| TcpHost.Host.AcceptOn | demikernel/catnip/src/protocols/tcp/peer.rs:101-139 | refines the value model with its assertions proved in place |
| TcpHost.Host.ConnectTo | demikernel/catnip/src/protocols/tcp/peer.rs:148-187 | refines the value model with its assertion proved in place |
| TcpHost.Host.PollConnectOn | demikernel/catnip/src/protocols/tcp/peer.rs:497-536 | refines the value model with its assertion proved in place |
| TcpHost.Host.ReceiveSegment | demikernel/catnip/src/protocols/tcp/peer.rs:432-495 | routing a segment for an own or the broadcast address, on the mutable maps and sockets, refines the value model |
| Checksum.OnesSumFolds | demikernel/catnip/src/protocols/tcp/segment.rs:580-587 | the end-around-carry sum of RFC 1071 (section 1) is the plain sum reduced to 1..0xffff |
| Checksum.AddChunks | demikernel/catnip/src/protocols/tcp/segment.rs:565-578 | the word loop adds every 16-bit word, an odd last byte as a high byte, without overflow |
| Checksum.AddFixed | demikernel/catnip/src/protocols/tcp/segment.rs:511-560 | the unrolled additions sum the pseudo header and the fixed header without the checksum field |
| Checksum.Reduce | demikernel/catnip/src/protocols/tcp/segment.rs:584-586 | repeated subtraction of 0xffff gives the folded sum |
| Checksum.TcpChecksum | demikernel/catnip/src/protocols/tcp/segment.rs:511-588 | the program's checksum is the one's-complement checksum of pseudo header, header and data, and its 32-bit accumulator never overflows for segments below 64 KiB |
| Checksum.ReceiverCheck | demikernel/catnip/src/protocols/tcp/segment.rs:511-588 | pseudo header and segment, field included, add up to a multiple of 0xffff if and only if the field is the checksum, or all ones where the checksum is zero |
| Checksum.ChangeIsSeen | demikernel/catnip/src/protocols/tcp/segment.rs:511-588 | changing one covered word leaves the checksum alone if and only if the words are congruent modulo 0xffff |
| TcpWire.ScanOptions | demikernel/catnip/src/protocols/tcp/segment.rs:305-388 | the cursor loop computes the recursive parse of the option bytes, every error included |
| TcpWire.OptionRoundTrip | demikernel/catnip/src/protocols/tcp/segment.rs:119-183 | one written option parses back to itself, except an empty SACK option, which is refused |
| TcpWire.OptionsRoundTrip | demikernel/catnip/src/protocols/tcp/segment.rs:305-388 | a written option list parses back to the list without padding options, or is refused for an empty SACK option |
| TcpWire.NothingLost | demikernel/catnip/src/protocols/tcp/segment.rs:310-313 | nothing is lost exactly when there are no padding options |
| TcpWire.FlagsRoundTrip | demikernel/catnip/src/protocols/tcp/segment.rs:278-287 | each flag is read back from its own bit |
| TcpWire.OffsetRoundTrip | demikernel/catnip/src/protocols/tcp/segment.rs:427-430 | the four-bit data offset recovers the header size modulo 64 |
| TcpWire.ChecksumMatches | demikernel/catnip/src/protocols/tcp/segment.rs:476-482 | the checksum that is written is the checksum of what is written |
| TcpWire.ParseSegment | demikernel/catnip/src/protocols/tcp/segment.rs:242-411 | the parser with its loops computes the functional parse, error branches in order; if it accepts, every field is the big-endian number at its offset |
| TcpWire.ParseExactly | demikernel/catnip/src/protocols/tcp/segment.rs:242-411 | the parser accepts a segment if and only if its bytes say something, and then says that: ports, numbers, offset, flags, window and urgent pointer at their offsets, the options by kind and length, the data behind the offset, and a matching checksum |
| TcpWire.AreaIs | demikernel/catnip/src/protocols/tcp/segment.rs:305-388 | the option bytes are read exactly as their kinds, lengths and contents say; padding is skipped, and the end mark ends them |
| TcpWire.HeaderWritten | demikernel/catnip/src/protocols/tcp/segment.rs:413-485 | a written header has every field at its offset as a big-endian number, each option with its kind, length and contents in order, an end mark and zeros |
| TcpWire.ParseWritten | demikernel/catnip/src/protocols/tcp/segment.rs:242-485 | any header of at most 60 bytes comes back with all fields and exactly the data, if its checksum field passes; an offloaded checksum passes a checking receiver exactly when the true one is zero |
| TcpWire.ParseOversized | demikernel/catnip/src/protocols/tcp/segment.rs:427-430 | a larger header never comes back with the right amount of data |
| TcpWire.RoundTrip | demikernel/catnip/src/protocols/tcp/segment.rs:242-499 | writing and parsing a segment are inverse if and only if the header fits 60 bytes, has neither padding nor empty SACK options, and its checksum field passes, for every combination of checksum offloads |
| TcpWire.CorruptionIsRefused | demikernel/catnip/src/protocols/tcp/segment.rs:289-296 | a parsed segment with one word changed is refused unless the change is invisible modulo 0xffff; for data words this is exact |
| Ipv4Wire.ParseWritten | demikernel/catnip/src/protocols/ipv4/datagram.rs:106-207 | what the parser makes of any written header, payload and padding |
| Ipv4Wire.RoundTrip | demikernel/catnip/src/protocols/ipv4/datagram.rs:106-229 | writing and parsing are inverse, whatever padding follows, if and only if all fields are in range, the length fits 16 bits and the stale checksum bytes are not 0xffff |
| Ipv4Wire.ParseExactly | demikernel/catnip/src/protocols/ipv4/datagram.rs:106-207 | a datagram is accepted if and only if its bytes say something, and then that is said: version and length, total length, identification, flags, protocol and addresses at their offsets |
| Ipv4Wire.HeaderWritten | demikernel/catnip/src/protocols/ipv4/datagram.rs:209-229 | a written header has every field at its offset as a big-endian number |
| Frame.EthRoundTrip | demikernel/catnip/src/protocols/ethernet2/frame.rs:56-81 | a written Ethernet header parses back with the rest of the frame |
| Frame.ParseEthExactly | demikernel/catnip/src/protocols/ethernet2/frame.rs:56-74 | destination, source and one of the two types at their offsets, or refused |
| Frame.FrameRoundTrip | demikernel/catnip/src/protocols/tcp/segment.rs:54-77 | a written frame with data and any padding parses back to the same three headers and exactly the data, if and only if the segment fits its fields and its checksum field passes, for every combination of checksum offloads |
| TcpSegments.SegmentTravels | demikernel/catnip/src/protocols/tcp/segment.rs:54-77 | a segment of the handshake, written as a frame with any padding behind it and parsed by the other side, is the same segment for its peer |
| TcpSegments.SentTravels | demikernel/catnip/src/protocols/tcp/peer.rs:432-495 | every segment any step of a peer sends fits its fields and makes it through: what is delivered between the hosts is what the bytes say |
| Frame.WriteEth | demikernel/catnip/src/protocols/ethernet2/frame.rs:76-81 | fourteen bytes written in place, the rest of the buffer untouched |
| Frame.WriteIpv4 | demikernel/catnip/src/protocols/ipv4/datagram.rs:209-229 | eighteen of twenty bytes written in place; the checksum bytes keep what the buffer held |
| Frame.WriteOptions | demikernel/catnip/src/protocols/tcp/segment.rs:460-473 | the option loop, end mark and padding fill exactly the option area |
| Frame.WriteTcp | demikernel/catnip/src/protocols/tcp/segment.rs:413-485 | the TCP header in place; the checksum does not depend on what its field held before |
| Frame.WriteHeader | demikernel/catnip/src/protocols/tcp/segment.rs:54-77 | all three headers in place in front of the data, nothing else changed; every field lies at its offset as a big-endian number, and the checksum is that of the bytes there |
| Timespec.NormalIsUnique | hardware/utils/timespec.c:319-353 | a time has one normal form |
| Timespec.Normalise | hardware/utils/timespec.c:319-353 | the loops end, the value is unchanged and the result is in normal form, with no overflow when the seconds can take the carry |
| Timespec.Add | hardware/utils/timespec.c:70-82 | the exact sum, in normal form, whenever it fits |
| Timespec.Sub | hardware/utils/timespec.c:87-99 | the exact difference, in normal form, whenever it fits |
| Timespec.GeIsByValue | hardware/utils/timespec.c:213-216 | the comparison orders by value even against a divisor that holds a full second of nanoseconds |
| Timespec.ShiftUp | hardware/utils/timespec.c:139-150 | the shift loop ends without overflow and has multiplied the divisor by a power of two |
| Timespec.Divide | hardware/utils/timespec.c:152-174 | the subtraction loop returns to the divisor and leaves a congruent remainder on the same side of it as the dividend was of twice the shifted divisor |
| Timespec.SignedIs | hardware/utils/timespec.c:176-191 | the sign fix-up gives the floored remainder exactly when the magnitude was reduced far enough |
| Timespec.Mod | hardware/utils/timespec.c:104-192 | normal result and no overflow for operands whose seconds can be negated; equal to the floored remainder if and only if the dividend is below twice the shifted divisor (or equal to it with different signs); a zero divisor returns the dividend |
| Timespec.ModWorksInRange | hardware/utils/timespec.c:104-192 | that condition holds for every dividend of at most LONG_MAX - 2 seconds |
| Timespec.ModWorksExactly | hardware/utils/timespec.c:139-150 | the condition by the operands alone: no doubling of the divisor that reaches half of the range of seconds leaves the dividend at or above its double (above it, with different signs) |
| Timespec.ModFailsAtTheEdge | hardware/utils/timespec.c:139-150 | a dividend and divisor for which it does not hold |
| Timespec.AlignPast | hardware/utils/mqnic-config.c:222-234 | a start in the past becomes its phase plus the beginning of the current period |
| Timespec.Align | hardware/utils/mqnic-config.c:210-234 | the schedule start keeps its position in the period and, if it was past, lies less than one period from now |
| Nor.EraseThenProgram | hardware/utils/mqnic-fw.c:1032-1047 | programming an erased range stores the image and changes nothing else |
| ErasePlan.PlanTiles | hardware/utils/flash_spi.c:506-526 | the chosen blocks tile the range exactly when both ends are on 4 KiB boundaries |
| ErasePlan.PlanIsShortest | hardware/utils/flash_spi.c:506-526 | no tiling by aligned 4 KiB and 64 KiB blocks uses fewer erase commands |
| FlashDriver.WordsExact | hardware/utils/flash_bpi.c:580-609 | the word driver programs what it is given if and only if address and length are even |
| FlashDriver.OddLengthDropsLast | hardware/utils/flash_bpi.c:580-609 | with an odd length the last byte is never programmed |
| FlashDriver.OddAddressMisplaces | hardware/utils/flash_bpi.c:580-609 | from an odd address the bytes end up elsewhere |
| FlashDriver.SegmentDivides | hardware/utils/mqnic-fw.c:144-162 | progress steps keep block and word alignment |
| FlashObject.Flash.SpiRead | hardware/utils/flash_spi.c:371-429 | the bytes of the range |
| FlashObject.Flash.SpiWrite | hardware/utils/flash_spi.c:431-500 | every page program stays inside its page; the range is programmed, or a prefix of it if the device stops answering |
| FlashObject.Flash.SpiErase | hardware/utils/flash_spi.c:502-585 | exactly the planned blocks are erased; on any failure only a prefix of the range; aligned requests are never refused |
| FlashObject.Flash.BpiRead | hardware/utils/flash_bpi.c:545-578 | the bytes of the range, odd ends included |
| FlashObject.Flash.BpiWrite | hardware/utils/flash_bpi.c:580-609 | every buffered program stays inside the write buffer; what is programmed is the word model |
| FlashObject.Flash.BlockSizeAt | hardware/utils/flash_bpi.c:620-627 | the region scan finds the block size at an address |
| FlashObject.Flash.BpiErase | hardware/utils/flash_bpi.c:611-662 | the range is erased or, on failure, nothing outside it has changed; block-aligned requests inside the regions are never refused |
| FlashObject.Flash.ReadProgress | hardware/utils/mqnic-fw.c:134-182 | the chunked read is one read |
| FlashObject.Flash.WriteProgress | hardware/utils/mqnic-fw.c:184-234 | the chunked write is one write, with either driver; a device error is reported exactly if the device refused a command |
| FlashObject.Flash.EraseProgress | hardware/utils/mqnic-fw.c:236-285 | the chunked erase is one erase and never breaks a block; a device error is reported exactly if the device refused a command |
| Firmware.RoundUpIs | hardware/utils/mqnic-fw.c:1026-1030 | the rounded length is the least that ends on a block boundary, and stays inside the segment |
| Firmware.ProgramImage | hardware/utils/mqnic-fw.c:1023-1077 | programming succeeds if and only if the device refuses no command, and then the range holds the image; nothing outside the rounded range ever changes; verification never fails |
| Firmware.Split | hardware/utils/mqnic-fw.c:903-926 | the loop deals the image out to two buffers |
| Firmware.SplitPlaces | hardware/utils/mqnic-fw.c:903-926 | the first device gets the head and the low four bits of every byte, the second a blank head and the high four bits |
| Firmware.HalfLengthIs | hardware/utils/mqnic-fw.c:908-913 | what is written holds the image, but for the last byte of one of odd length |
| Firmware.Merge | hardware/utils/mqnic-fw.c:1098-1111 | the loop puts an image together from two buffers |
| Firmware.MergeSplit | hardware/utils/mqnic-fw.c:1098-1111 | merging undoes splitting up to the last 0x68 bytes, and entirely if and only if those are blank |
| Firmware.ProgramDual | hardware/utils/mqnic-fw.c:903-1010 | programming succeeds unless a device refuses a command or the second one has larger blocks or shorter regions; each device then holds its half, and reading and merging both gives the image up to the written length, less the part never stored; verification never fails |
| Bitfile.Stristr | hardware/utils/mqnic-fw.c:79-119 | terminates and returns the first occurrence, letter case aside, or none |
| Bitfile.PartMatches | hardware/utils/mqnic-fw.c:817-824 | comparing the result with the start of the text is a prefix test |
| CoreAllocator.RegisterKeeps | demikernel/catnip/src/libos.rs:510-525 | registering keeps masks, messages and histories consistent |
| CoreAllocator.RegisterIs | demikernel/catnip/src/libos.rs:510-525 | registering sets exactly the bit of that core and application; numbers out of range are refused |
| CoreAllocator.ScaleUpIs | demikernel/catnip/src/libos.rs:528-588 | takes the lowest free usable core, changes no other bit and tells that core; fails exactly when every usable core is taken, and warns channel 15 |
| CoreAllocator.ScalingRefused | demikernel/catnip/src/libos.rs:528-643 | another application only gets a warning; scaling panics exactly without both applications, or down for another one |
| CoreAllocator.ScaleDownIs | demikernel/catnip/src/libos.rs:591-643 | takes the highest usable core, and none exactly when at most one is left; the message carries the number of cores held |
| CoreAllocator.SenderMovesOn | demikernel/catnip/src/libos.rs:571-588 | a sender's message fits into its channel, or does once the receiving core has taken one |
| CoreAllocator.RunKeeps | demikernel/catnip/src/libos.rs:52-97 | masks, messages and histories agree after every run |
| CoreAllocator.MaskIsReplay | demikernel/catnip/src/libos.rs:571-643 | for every core the messages delivered, queued or being sent are the allocations and releases of its history in order, the last event of the history decides its bit, and no channel exceeds two messages |
| CoreAllocator.ChangesAlternate | demikernel/catnip/src/libos.rs:571-643 | in a core's history, which also holds its registrations, a message is always the opposite of the event before it |
| CoreAllocator.MessagesReplay | demikernel/catnip/src/libos.rs:528-643 | in every run after registration, for every core: the messages for application 1 strictly alternate, the first is a release exactly if the core held its bit, and following them, delivered then queued, gives its bit in the mask |
| CoreAllocator.ScalingRunHolds | demikernel/catnip/src/libos.rs:528-643 | in every run after registration application 1 keeps a usable core, never leaves the usable cores, a prefix stays a prefix, and application 2's mask is unchanged |
| CoreAllocator.Allocator.RegisterApp | demikernel/catnip/src/libos.rs:510-525 | refines the value model |
| CoreAllocator.Allocator.SelectScaleUp | demikernel/catnip/src/libos.rs:528-588 | the upward scan refines the value model |
| CoreAllocator.Allocator.SelectScaleDown | demikernel/catnip/src/libos.rs:591-643 | the count and the downward scan refine the value model |
| CoreAllocator.Allocator.TryReceive | demikernel/catnip/src/libos.rs:655-666 | messages are taken in order |
| Scheduler.InsertKeeps | demikernel/catnip/src/scheduler.rs:273-298 | inserting keeps every bit tied to a live task of its page |
| Scheduler.TakeKeeps | demikernel/catnip/src/scheduler.rs:142-150 | taking a task clears all its bits |
| Scheduler.StepBits | demikernel/catnip/src/collections/waker_page.rs:58-113 | outside passes a task's bits change only by the call that names it |
| Scheduler.StepSlab | demikernel/catnip/src/scheduler.rs:142-187 | a slot is taken by an insertion, for the page asked and notified, freed by taking its task, and otherwise as it was |
| Scheduler.EffectsAdd | demikernel/catnip/src/scheduler.rs:216-225 | whatever a polled task does, it removes no task, no notification and no completion of another |
| Scheduler.ServeKeeps | demikernel/catnip/src/scheduler.rs:205-230 | every slot looked up in a page is occupied by an unfinished task, in ascending order, each once |
| Scheduler.TurnsChain | demikernel/catnip/src/scheduler.rs:205-230 | the polls happen: each finds the state the one before it left, and the page ends in what the last one left |
| Scheduler.CleanedIs | demikernel/catnip/src/scheduler.rs:232-241 | removing dropped tasks removes exactly those of the passed pages, slot zero excepted |
| Scheduler.PollServes | demikernel/catnip/src/scheduler.rs:189-247 | a pass serves exactly the unmasked notifications of the lowest page that has any; higher notifications and completions survive; a dropped task is removed if and only if its page lies below the served one and its slot is not zero |
| Scheduler.PassBits | demikernel/catnip/src/scheduler.rs:189-247 | after a pass a task that was not removed is notified exactly if its page lies above the served one and it was, or a polled task woke it; its handle is marked likewise; it is finished exactly if it was, or the pass polled it and it returned ready |
| Scheduler.PassSlab | demikernel/catnip/src/scheduler.rs:189-247 | after a pass exactly those slots are taken that were and were not removed, and those a polled task spawned into, for the page asked, notified and not finished |
| Scheduler.RunIsSafe | demikernel/catnip/src/scheduler.rs:142-247 | in every run the next pass finds every task it looks up, and none of them is finished |
| Scheduler.ServeElsewhere | demikernel/catnip/src/scheduler.rs:205-230 | serving one page finishes no task of another page |
| Scheduler.ServeKeepsMark | demikernel/catnip/src/scheduler.rs:205-230 | serving any page sets no mark of a dropped handle, takes none away and removes no task, unless a polled task drops that handle |
| Scheduler.DropFate | demikernel/catnip/src/scheduler.rs:189-247 | a dropped task leaves the slab in a pass exactly if its page lies below the served one and its slot is not zero; otherwise it stays, and its mark is kept for a later pass exactly if its page lies above the served one |
| Scheduler.UnmarkedStays | demikernel/catnip/src/scheduler.rs:189-247 | a task without a mark stays in the slab, unmarked, through every run that neither takes it nor drops its handle |
| Scheduler.LostDropLeaks | demikernel/catnip/src/scheduler.rs:189-247 | after a pass that loses a drop the slot stays occupied in every run that goes on without that handle |
| Scheduler.DropIsLost | demikernel/catnip/src/scheduler.rs:205-230 | a run that loses the drop of a task in the served page |
| Scheduler.ZeroDropIsLost | demikernel/catnip/src/scheduler.rs:232-241 | a run that loses the drop of the task in slot zero of a passed page |
| Scheduler.PassReaches | demikernel/catnip/src/scheduler.rs:189-231 | a waiting task whose handle is held is never passed over: the next pass polls it exactly if no lower page has work |
| Scheduler.WaitsBelow | demikernel/catnip/src/scheduler.rs:189-247 | a notification of an unfinished task survives, dropped handle or not, every run whose passes all end in lower pages and that does not take the task |
| Scheduler.NotificationSurvives | demikernel/catnip/src/scheduler.rs:189-247 | in every run that neither takes a notified task nor drops its handle, some pass polls the task or its notification is still there at the end |
| Scheduler.FinishedForGood | demikernel/catnip/src/collections/waker_page.rs:66-113 | in every run a finished task stays finished while it is in the slab, and no pass polls it |
| SchedulerObject.Executor.InsertPage | demikernel/catnip/src/scheduler.rs:288-298 | the page loop and the initial bits refine the value model; the key combines slot and page |
| SchedulerObject.Executor.TakeTask | demikernel/catnip/src/scheduler.rs:142-150 | refines the value model |
| SchedulerObject.Executor.ServePage | demikernel/catnip/src/scheduler.rs:208-230 | the inner loop refines the value model with its lookup proved |
| SchedulerObject.Executor.Poll | demikernel/catnip/src/scheduler.rs:189-247 | the nested loops refine the value model |
| Timer.PollKeeps | demikernel/catnip/src/timer.rs:147-192 | an uncompleted future is ready if and only if its expiry has been reached; a pending one is in the heap with the waker of its last poll; no other future changes |
| Timer.WaitKeeps | demikernel/catnip/src/timer.rs:120-136 | a new future expires when asked, and no other future changes |
| Timer.DropKeeps | demikernel/catnip/src/timer.rs:201-217 | a dropped future is in no heap, and no other future changes |
| Timer.AdvanceKeeps | demikernel/catnip/src/timer.rs:95-114 | after the clock moves, waiting futures are exactly those still to come |
| Timer.RunTellsTime | demikernel/catnip/src/timer.rs:95-217 | in every run the heap holds exactly the registered futures and polling tells the time |
| Timer.WaitsUntil | demikernel/catnip/src/timer.rs:120-192 | a future asked to wait is ready exactly from that time on, after every run that does not drop it |
| Timer.Clock.PeekMin | demikernel/catnip/src/timer.rs:99-103 | an entry with the least expiry |
| Timer.Clock.AdvanceClock | demikernel/catnip/src/timer.rs:95-114 | exactly the newly due futures are woken, each once, through its last waker, in the order of expiry |
| Timer.Clock.PollFuture | demikernel/catnip/src/timer.rs:147-192 | refines the value model and tells the time |
| Timer.Clock.DropFuture | demikernel/catnip/src/timer.rs:201-217 | refines the value model |

## Left out

- NIC hints: the `rx_hash` field of a completion and the hint arrays of the receive call are not modelled.
- Register reads of the head and tail pointers: the driver is built with the memory-flag variants, and those are modelled; the register variant appears only as the reference in `RxRing.ReadyMeans` and `RxRing.DriversAgree`.
- Memory ordering between CPU and NIC, PCIe, VFIO, DMA addresses and descriptor contents other than buffer, index and length.
- Out-of-order transmit completions: the transmit side assumes completions in posting order, as the source's error exit does.
- Packet contents: the header rewriting of the echo application and the copying of payloads.
- EchoObject.EchoWorker.DoWork: states the counters only, not the bytes it rewrites.
- More than one RX or TX queue; each queue has its own pool and rings, so one worker is modelled.
- Established TCP connections: data transfer, congestion control, retransmission and closing; an established connection may send any segment without SYN.
- ARP: whether a link address is known is a parameter, and an unknown one in a handshake is the panic of the source.
- TCP sequence numbers: the generator is a parameter; nothing is claimed about collisions.
- Descriptor numbers are not cut to 32 bits, and the file table is only asked for new entries.
- TcpWorld.SegmentsAreSafe: is about segments of hosts in the model; other hosts may send any window scale, and `TcpPeer.ReceivePanics` is the condition for theirs.
- The IPv4 header checksum, whose computation and check are commented out in the source.
- UDP, ICMP and ARP formats, and IPv4 fragments and options, which the source refuses.
- TcpWire.ParseSegment: requires a segment below 64 KiB, which every IPv4 payload is.
- Frame.WriteTcp: with a computed checksum, requires a segment below 64 KiB, the largest an IPv4 datagram can carry.
- Frame.WriteHeader: the same bound when the checksum is computed.
- Conversions of times to floating point, milliseconds and `timeval`.
- Timespec.Align: the clock is required to read at least 10,000,000,001 seconds below the largest `long`, so that the aligned start fits; a PTP clock has 48 bits of seconds.
- Timespec.AlignPast: the same requirement on the clock.
- Flash commands below a page program or block erase (opcodes, address width, status polling), bit reversal of images, and file formats.
- FlashObject.Flash.BpiRead: requires a non-empty request at an odd address, because the source's length counter would otherwise wrap.
- Device geometry: write buffers, erase blocks and region boundaries are powers of two and multiples as on real devices; the source's masks rely on it.
- FlashObject.Flash.WriteProgress: with the parallel driver, states the result for even addresses and lengths, the only ones for which `FlashDriver.WordsExact` allows it.
- Firmware.ProgramImage: segments start and end on erase-block boundaries, as the flash layouts in the source do.
- Firmware.ProgramDual: the rounded length uses the erase-block size of the first device, as in the source; if the second device has larger blocks its erase may be refused, which is the `EraseFailed` outcome.
- Datagrams for other addresses never reach the TCP peer; `demikernel/catnip/src/protocols/ipv4/peer.rs`, lines 42 to 44, drops them.
- Core counts of 64: the source's shift by 64 overflows, so the core allocator is modelled below that.
- Time stamps and statistics in the core allocator, and other applications than 1 and 2.
- A core that sends into its own full channel waits for itself; the model shows the message as pending, and `CoreAllocator.SenderMovesOn` does not help a core that waits for itself.
- Schedulers with more than 64 tasks in the slab, where slot numbers of different tasks coincide within a page, and wakers used after their task was taken.
- Raw-pointer tagging and reference counts of waker pages, and the pairing heap itself, which is a set with a least element here.
- The Verilog design, the kernel module apart from the receive clean loop and pointer widening, and all command-line front ends.
