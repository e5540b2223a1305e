# Verified models of the Windows PV driver core and the V4V drivers

This project models the parts of the repository where many things can happen in many orders, or where
memory is cut up and put together in place, and proves what they are meant to guarantee. Everything is
written in Dafny 4.11; `dafny verify dfyconfig.toml` checks all of it.

| file | what it models |
|---|---|
| `quiesce.dfy` | stopping all CPUs (`windows/xenutil/suspend.c`): a barrier with back-off over a shared count, for any number of CPUs and any interleaving |
| `quiesce_progress.dfy` | when such a round can be completed |
| `suspend_token.dfy` | suspend tokens against the suspend thread (`windows/xenutil/suspend.c`) |
| `dpc_port.dfy` | an event-channel port whose handler runs in a DPC (`windows/xenutil/evtchn.c`): Xen, interrupt, DPC, local raiser and port stop, one access to shared memory at a time |
| `dpc_progress.dfy` | what such a port can still do from every state: return from a stop, come to rest |
| `chunks.dfy` | how an area is cut up: what the two allocators share |
| `subheap.dfy` | the small allocator on one page, with boundary tags in an array of words (`windows/xenutil/austere.c`) |
| `page_runs.dfy` | the big allocator, with its table, roving cursor and compaction (`windows/xenutil/austere.c`) |
| `subheap_links.dfy` | the links of the list of sub-heaps, and what becomes of them (`windows/xenutil/austere.c`) |
| `austere_heap.dfy` | the heap made of these |
| `bytes.dfy`, `xenbus_ring.dfy` | byte streams through circular buffers (`windows/xenutil/xenbus.c`) |
| `xenbus_tx.dfy` | transmission of scatter-gather requests to xenstored |
| `xenbus_rx.dfy` | reception from xenstored, compared with an automaton that takes one byte at a time |
| `xenbus_rx_runs.dfy` | whole runs of it, with requests submitted in between |
| `reset_requests.dfy` | the list of requests after a suspend, taken apart and relinked in place |
| `digits.dfy` | reading and printing numbers |
| `xenv4v.dfy`, `csq.dfy` | the queue of pending IRPs and its summary by destination (`windows/xenv4v/csq.c`) |
| `syn_backlog.dfy` | the backlog of a listening context (`windows/xenv4v/rw.c`, `windows/xenv4v/ioctl.c`) |
| `v4v_handshake.dfy` | connection set-up between Linux V4V endpoints (`linux/v4v.c`), under any delay, reordering and loss of messages |
| `v4v_closing.dfy` | how the ends of such a connection learn that the other one is gone |
| `v4v_half_open.dfy` | exactly when they do |
| `v4v_completing.dfy` | connections that nobody disturbs |
| `v4v_stream.dfy` | one direction of a Linux V4V stream |
| `base.dfy` | a few definitions that several of these need |

Concurrent parts are step relations, and their theorems are about every state of every run. Objects that the
sources update in place are classes; their methods are proved against functions of their old state, or against
an abstract state that an invariant ties to the fields.

## What the proofs turned up

- **A second caller of `QuiesceSystem` can hang the machine.** It spins for the lock at `DISPATCH_LEVEL`, where its
  own CPU's DPC cannot run, while the first caller waits for exactly that DPC
  (`Quiesce.SecondCallerBlocksRound`). Nothing else can block a round (`QuiesceProgress.RoundCompletesIff`).
- **Suspend tokens protect their holders exactly if `suspend_thread` is set before the thread runs.**
  `LaunchSuspendThread` sets it afterwards (`SuspendToken.TokensWorkIffPublished`, `SuspendToken.UnpublishedCaught`).
  Anonymous tokens are counted up when they are released as well, so that one of them blocks every suspend until
  the 32-bit counter wraps (`SuspendToken.AnonymousTokenBlocksSuspend`).
- **An event that is pending when a DPC port is registered may never be served.** `register_handler` unmasks with a
  plain store and does not look at the pending bit again. Events are served for certain exactly if the port was clear
  (`DpcPort.EventsServedIffClearAtRegistration`); if it was not, then without a local raise or another port that shares
  the selector word the handler is never called, however often Xen raises the port
  (`DpcPort.PendingAtRegistrationIgnored`).
- **The list of sub-heaps breaks when a sub-heap other than its head is used.** No store ever sets a `prev` link
  (`SubheapLinks.PrevStaysNull`), so that pulling a sub-heap to the front leaves the one before it pointing to it, and
  emptying one leaves a link to a page that has been given back. The links describe the list that is meant exactly if
  every sub-heap that serves a request, keeps blocks after a free or is emptied is new or the head
  (`SubheapLinks.DescribedIffAtFront`). Otherwise a search that finds nothing goes round for ever among some of them and
  never reaches the others (`SubheapLinks.PulledGoesRound`), or comes to the page that was given back
  (`SubheapLinks.DroppedStillReached`). Two sub-heaps are enough (`SubheapLinks.CycleExample`). The theorems about the
  heap are about lists that have not been broken so, and say of each operation exactly when it breaks them.
- **A double free is not always recognised.** When a block is freed that has a free chunk below it, its header keeps its
  old size, and freeing it once more counts its bytes again (`SubHeap.Page.FreeTwice`, `SubHeap.MissedDoubleFree`). The
  big allocator recognises every double free (`PageRuns.BigHeap.Free`).
- **`BigAllocation` can scan for ever.** It does so exactly if no run fits, more than one page is wanted, and both
  the run at the cursor and the one before it are free, so that compaction absorbs the run at the cursor
  (`PageRuns.BigHeap.Allocate`, `PageRuns.SpinExample`).
- **An assertion of `TrySmallAllocation` is too strict** for requests of 4073 to 4075 bytes, which are routed there
  and do fit (`AustereHeap.SizeAssertionIff`).
- **A request can stall transmission for good.** If its bytes fill the ring exactly and its last segment is empty,
  `advance_tx_req` leaves it current, and never reports progress again (`XenbusTx.Transport.Advance`,
  `XenbusTx.StallExample`). Only such requests can stall (`XenbusTx.Transport.StalledHasEmptyEnd`). Xenstored has all of
  it and can answer; then the assertion fails that an answered request is not the current one, and for no other request
  (`XenbusTx.Transport.AnswerableIff`, `XenbusTx.Transport.Unhook`).
- **A reply without payload ends the receive loop early**: `receive_from_xenstored` marks it and reports no progress
  (`XenbusRx.Receiver.Receive`). While bytes are to be discarded, it reports progress even if there are none.
- **A watch event with more than 1008 bytes of payload stops reception for good**: its frame never fits the ring, and
  watch events are only taken whole (`XenbusRxRuns.StuckIff`).
- **A watch event whose identifier is not terminated is read beyond its frame**, and whether it counts as malformed
  depends on what is there (`XenbusRx.BeyondMattersIff`).
- **The first record of the SYN backlog keeps a stale `last` link** when the one before it is taken
  (`SynBacklog.Threaded` leaves that link open).
- **A read with `MSG_WAITALL` waits although it has all it wanted**, unless more is queued already: the length is
  only tested after the wait. A read of no bytes waits in the same way (`V4vStream.Stream.Receive` says exactly when).
- **An RST with an id that neither of two connecting rings uses never dies**: each answers it with an RST to the
  other. No other RST goes on for ever (`V4vHandshake.BouncesIffStray`, `V4vHandshake.StrayResetArises`).
- **A socket may never learn that its connector is gone.** There are four ways: the connector's call times out, which
  tells nobody; its RST is lost; the RST overtakes the SYN before it and is dropped; or it comes after `v4v_accept` has
  taken the SYN off the list of pending requests and before it has put the new socket on the ring's list, so that
  `listener_interrupt` finds it in neither. If none of these happens to a connection, both its ends do learn; if any of
  them may happen, there is a run in which the socket does not (`V4vHalfOpen.AcceptorsKnowIff`). Connectors learn
  exactly if the RSTs to them are not lost (`V4vHalfOpen.ConnectorsKnowIff`).

Where comments and code disagree the model follows the code. The comment at `windows/xenutil/austere.c:201` gives
the size of a sub-heap's header, from which the 32-bit layout follows.

## Model

| member | source | states |
|---|---|---|
| Quiesce.RunInv | windows/xenutil/suspend.c:177-438 | in every state of every run, each CPU's program point fits the round's stage, and the counters count what they stand for |
| Quiesce.CountIsNonHolders | windows/xenutil/suspend.c:177-233 | while CPUs are being captured, the shared count is the number of CPUs not holding a decrement, and every holder is at HIGH_LEVEL |
| Quiesce.LeftLoopMeansAllRaised | windows/xenutil/suspend.c:193-230 | once one CPU has left the gather loop, all CPUs are at HIGH_LEVEL and hold a decrement |
| Quiesce.ZeroSticks | windows/xenutil/suspend.c:203-225 | no step lifts the count from zero; the back-off exchange never does |
| Quiesce.CountNeverDangles | windows/xenutil/suspend.c:267-272 | a CPU about to use the leader's local count finds it still there |
| Quiesce.ReturnMeansQuiescent | windows/xenutil/suspend.c:375-402 | when QuiesceSystem returns, every other CPU is past its last use of the count, at HIGH_LEVEL, and does nothing until the phase is lowered |
| Quiesce.PhaseRaisedOnFreshDpcs | windows/xenutil/suspend.c:343-368 | the phase is raised only when every other CPU waits at the start of this round's DPC, none being left over from an earlier round |
| Quiesce.AssertionsHold | windows/xenutil/suspend.c:250-274 | the assertions about phase and counters hold whenever they are reached |
| Quiesce.SecondCallerBlocksRound | windows/xenutil/suspend.c:290-357 | a CPU that spins for the lock while another opens a round keeps that round from ever getting to its next phase |
| QuiesceProgress.RoundCompletesIff | windows/xenutil/suspend.c:177-402 | in every state of every run, the CPUs can still bring the round under way to the return of QuiesceSystem exactly if none of them spins for the lock |
| QuiesceProgress.Moves | windows/xenutil/suspend.c:177-402 | in every state of a round without second callers some CPU has a step that brings the end nearer, back-offs included |
| SuspendToken.HolderExcludesSuspend | windows/xenutil/suspend.c:918-956 | with the thread published, no holder of a named token coexists with DoSuspend in any interleaving, and no holder of an anonymous one unless 2^32 of them have been counted |
| SuspendToken.SafeOncePublished | windows/xenutil/suspend.c:918-956 | the same for a thread that is published later, for all tokens whose allocation has not returned by then |
| SuspendToken.SuspendsIffNoTokens | windows/xenutil/suspend.c:713-737 | in every state of every run in which the thread has not begun to check, the thread left to itself suspends exactly if no named token is out and the anonymous counter is zero |
| SuspendToken.TokensWorkIffPublished | windows/xenutil/suspend.c:838-850 | tokens protect their holders in every interleaving exactly if the thread is published before it runs |
| SuspendToken.UnpublishedCaught | windows/xenutil/suspend.c:713-737 | a run in which a holder is caught by a suspend, the thread not being published |
| SuspendToken.AnonymousTokenBlocksSuspend | windows/xenutil/suspend.c:958-987 | after an anonymous token, even a released one, no suspend happens until the counter has wrapped |
| DpcPort.NoEventLost | windows/xenutil/evtchn.c:538-624 | in every interleaving, a masked port has its DPC queued or running, insert_count is queued plus running, between zero and two, and if the port was clear when it was registered, a pending unmasked one has an upcall outstanding or somebody about to look |
| DpcPort.EventsServedIffClearAtRegistration | windows/xenutil/evtchn.c:346-374 | whenever the open port comes to rest, a handler call has begun after the last raise, in all runs exactly if the port was not pending when it was registered |
| DpcPort.PendingAtRegistrationIgnored | windows/xenutil/evtchn.c:346-374 | if it was pending, then in every run without local raises and other ports on the selector word the handler is never called, and the port stays pending |
| DpcProgress.OwedEventServed | windows/xenutil/evtchn.c:538-724 | from every state of every run of a port that was clear when it was registered, without any further raise, an open port can come to rest, with a handler call begun after the last raise |
| DpcPort.StoppedStaysQuiet | windows/xenutil/evtchn.c:636-724 | no step from a stopped state on calls the handler |
| DpcPort.StopIsBarrier | windows/xenutil/evtchn.c:450-528 | once EvtchnPortStop has returned, no interrupt or DPC calls the handler again, not even one that had cached the pointer |
| DpcProgress.StopCanReturn | windows/xenutil/evtchn.c:450-528 | from every state of every run, interrupt and DPC can end and let EvtchnPortStop return |
| DpcPort.AssertionsHold | windows/xenutil/evtchn.c:601-624 | the assertions of FireHandler and DpcPortDpcHandler hold: no insertion into a stopping port, no call without a handler, and insert_count goes down only from a positive value |
| Chunks.LiveApart | windows/xenutil/austere.c:217-306 | blocks in use never overlap |
| SubHeap.Page.constructor | windows/xenutil/austere.c:294-306 | a new sub-heap is one free chunk |
| SubHeap.Page.TryAllocation | windows/xenutil/austere.c:217-292 | first fit; the chunk is split if more than 64 bytes would be wasted; chunks go on tiling the page, tags match, the count is right, no neighbours are both free, and no live block is touched; NULL exactly if nothing fits |
| SubHeap.Page.Free | windows/xenutil/austere.c:365-450 | a chunk that is free already is recognised and nothing changes; otherwise the chunk and its free neighbours become one, all other live blocks are untouched, the page is given back exactly if the count says so, and the size that is left at the freed address is known |
| SubHeap.Page.FreeTwice | windows/xenutil/austere.c:365-439 | a repeated free is recognised exactly if the first one left the page in use and the chunk below was in use then; otherwise the bytes are counted twice |
| SubHeap.MissedDoubleFree | windows/xenutil/austere.c:421-439 | three blocks, of which the first two are freed in order and the second once more, which is not recognised |
| SubHeap.Page.MergeUp | windows/xenutil/austere.c:408-418 | the chunk takes in the free chunk above it, and nothing else changes |
| SubHeap.Page.MergeDownAndFree | windows/xenutil/austere.c:421-439 | the chunk goes into the free chunk below it and is marked free, and nothing else changes |
| SubHeap.LastBlock | windows/xenutil/austere.c:387-402 | the count of free bytes gets to the page's size exactly when the last live block goes |
| SubHeap.CarveLive | windows/xenutil/austere.c:262-292 | an allocation adds exactly one live block |
| SubHeap.ReleaseLive | windows/xenutil/austere.c:405-439 | a free removes exactly the freed block |
| SubHeap.ReleaseUndoesCarve | windows/xenutil/austere.c:217-450 | freeing what has just been allocated restores the chunks |
| PageRuns.BigHeap.constructor | windows/xenutil/austere.c:557-571 | the heap starts as one free run |
| PageRuns.BigHeap.Compact | windows/xenutil/austere.c:100-124 | terminates with every two free neighbours merged; reports whether there were any; the entries it merges away stay in the table |
| PageRuns.MergeCoalesces | windows/xenutil/austere.c:100-124 | compaction leaves no two adjacent free runs, and changes nothing exactly if there were none |
| PageRuns.MergeKeeps | windows/xenutil/austere.c:100-124 | compaction frees nothing and loses nothing |
| PageRuns.BigHeap.Scan | windows/xenutil/austere.c:141-149 | finds a run that fits exactly if there is one, the nearest ahead of the cursor, also from a cursor whose run has been absorbed |
| PageRuns.BigHeap.Find | windows/xenutil/austere.c:128-161 | scans a second time only after a compaction that changed something, for more than one page |
| PageRuns.BigHeap.Allocate | windows/xenutil/austere.c:128-181 | succeeds exactly if that many pages in a row are free, with pages that were free and are disjoint from all live runs; scans for ever exactly under the condition given above; otherwise NULL |
| PageRuns.RoomMeansFit | windows/xenutil/austere.c:150-160 | where enough pages in a row are free, a compacted list has a free run of that length, so NULL means that there are none |
| PageRuns.AstrayForever | windows/xenutil/austere.c:141-149 | from a cursor that is no longer at a run, with nothing that fits, the scan meets neither of its stop tests, however long it goes on |
| PageRuns.AbsorbedIff | windows/xenutil/austere.c:100-124 | compaction absorbs the run at the cursor exactly if it and the one before it are free |
| PageRuns.SpinExample | windows/xenutil/austere.c:128-199 | a heap of three pages; all are handed out, two given back, and a request for three does not return |
| PageRuns.BigHeap.Free | windows/xenutil/austere.c:183-199 | the run goes free and the cursor to it; an address outside the heap, and one at which a run has ever started and that has been freed, are recognised and change nothing, even if the run has been absorbed since |
| AustereHeap.FreshFits | windows/xenutil/austere.c:453-469 | every request routed to the small allocator fits into a new sub-heap |
| AustereHeap.SizeAssertionIff | windows/xenutil/austere.c:217-229 | the assertion on the padded size fails exactly for the three largest sizes |
| AustereHeap.WordOf | windows/xenutil/austere.c:545-554 | a small block is never on a page boundary, and its address tells its page and place |
| SubheapLinks.PrevStaysNull | windows/xenutil/austere.c:294-306 | in every run of the operations on the list of sub-heaps, every `prev` is NULL |
| SubheapLinks.StepDescribedIff | windows/xenutil/austere.c:351-360 | an operation on a sub-heap leaves links that describe the list as it is meant to be exactly if the sub-heap is new or the head |
| SubheapLinks.DescribedIffAtFront | windows/xenutil/austere.c:294-450 | so in a whole run they do so throughout exactly if all the sub-heaps operated on were |
| SubheapLinks.PulledGoesRound | windows/xenutil/austere.c:321-360 | after a pull from within the list a search visits the sub-heaps up to the pulled one round and round, and never the others |
| SubheapLinks.DroppedStillReached | windows/xenutil/austere.c:387-399 | after a sub-heap within the list has been emptied, a search still comes to its page |
| SubheapLinks.CycleExample | windows/xenutil/austere.c:440-449 | two sub-heaps that lead to each other, so that a search that neither serves does not end |
| AustereHeap.BlocksApart | windows/xenutil/austere.c:204-450 | live blocks are pairwise disjoint, whichever allocator they come from, in every state of a heap whose list has not been broken |
| AustereHeap.Heap.SmallAllocation | windows/xenutil/austere.c:308-363 | exactly one block with room for the request comes into use, and nothing else changes; NULL only if no sub-heap serves the request and no page is free; the list survives exactly if the first sub-heap that serves it is the head, or none does |
| AustereHeap.Heap.AllocateExisting | windows/xenutil/austere.c:321-360 | following the links, succeeds exactly if some sub-heap with more free bytes than asked has a chunk that fits, and takes no page; the list survives exactly if that is the head, or there is none |
| AustereHeap.Heap.AllocateFresh | windows/xenutil/austere.c:332-346 | a new sub-heap is made on a free page and serves the request |
| AustereHeap.Heap.Allocate | windows/xenutil/austere.c:453-478 | as above for both kinds of requests; the address is off a page boundary exactly for small ones; exactly when it does not return, and exactly when the list survives |
| AustereHeap.Heap.Free | windows/xenutil/austere.c:545-554 | the address picks the allocator the block came from, and exactly that block goes out of use; the list survives exactly if the block is a big one or in the head |
| XenbusRing.WriteExtends | windows/xenutil/xenbus.c:351-368 | bytes copied into free space prolong the stream and overwrite nothing that has not been consumed |
| XenbusRing.ReadGives | windows/xenutil/xenbus.c:372-389 | bytes copied out are the next ones of the stream |
| XenbusRing.CopyToRing | windows/xenutil/xenbus.c:351-368 | the bytes go to consecutive slots, round the end of the ring, and no other slot changes |
| XenbusRing.CopyFromRing | windows/xenutil/xenbus.c:372-389 | the bytes of consecutive slots, round the end of the ring |
| XenbusTx.Transport.Submit | windows/xenutil/xenbus.c:527-556 | the request joins the queue behind the others |
| XenbusTx.Transport.Advance | windows/xenutil/xenbus.c:684-735 | as many of the request's bytes as there is room for follow what was sent before; progress exactly if there was room and something left; the request is finished with exactly unless it fills the ring and ends with an empty segment |
| XenbusTx.Transport.Transmit | windows/xenutil/xenbus.c:1567-1574 | goes on until all requests are through, the ring is full or the current request is stalled; a stalled request stays stalled |
| XenbusTx.Transport.Consume | windows/xenutil/xenbus.c:684-735 | whatever xenstored takes is the next part of what has been sent |
| XenbusTx.Transport.InOrder | windows/xenutil/xenbus.c:684-735 | what has been sent is a prefix of all messages in the order of submission, and all of them if no request is current |
| XenbusTx.Transport.StalledHasEmptyEnd | windows/xenutil/xenbus.c:702-724 | only a request whose last segment is empty can stall |
| XenbusTx.Transport.AnswerableIff | windows/xenutil/xenbus.c:684-735 | all bytes of a request are sent exactly if it is before the current one, or is the current one and stalled |
| XenbusTx.Transport.Unhook | windows/xenutil/xenbus.c:646-664 | for an answered request the assertion that it is not the current one fails exactly if it is stalled; otherwise taking it off the list leaves the order of the rest and the stream as they are |
| XenbusTx.StallExample | windows/xenutil/xenbus.c:702-735 | a request of which xenstored gets all, that no later round makes progress with, and that is still current when it is answered |
| XenbusRx.Receiver.Receive | windows/xenutil/xenbus.c:1350-1551 | however the bytes come in, the state is what feeding the consumed ones one at a time leads to; no progress is reported exactly if there is nothing to skip and nothing complete is there, or a reply without payload was begun by the call before |
| XenbusRx.Receiver.TakeReply | windows/xenutil/xenbus.c:1384-1421 | bulk reception of a reply's bytes agrees with the automaton |
| XenbusRx.Receiver.TakeDiscard | windows/xenutil/xenbus.c:1369-1382 | so does skipping a reply that nobody waits for |
| XenbusRx.Receiver.TakeWatch | windows/xenutil/xenbus.c:1437-1500 | a watch event is taken whole or not at all |
| XenbusRx.Receiver.BeginReply | windows/xenutil/xenbus.c:1501-1541 | an ordinary header starts a reply or a skip |
| XenbusRx.ReplyFrame | windows/xenutil/xenbus.c:1384-1421 | a reply reaches the request with its id and no other, with the first min(length, buffer size) bytes of its payload |
| XenbusRx.UnknownFrame | windows/xenutil/xenbus.c:1510-1520 | a reply with an unknown id is passed over whole and changes nothing |
| XenbusRx.WholeWatch | windows/xenutil/xenbus.c:1437-1500 | a watch event adds its payload to those delivered, in stream order |
| XenbusRx.StarvedPlaceUnique | windows/xenutil/xenbus.c:1576-1578 | the place where the receiver has to stop, and so its state there, depends on the bytes alone, not on how they were cut up |
| XenbusRxRuns.AskedAtStart | windows/xenutil/xenbus.c:1384-1541 | the order of submissions and of bytes that do not answer them does not matter: the automaton may as well have had all requests from the start |
| XenbusRxRuns.SameEnd | windows/xenutil/xenbus.c:1576-1578 | the same bytes and requests, cut and mixed in any two ways, lead to the same place and state when nothing more can be taken |
| XenbusRxRuns.Run | windows/xenutil/xenbus.c:1350-1551 | after any run of arriving bytes, submissions and calls of the receiver that does not end in a bug check, its state is that of the automaton on what was consumed and submitted, in that order |
| XenbusRxRuns.TwoRuns | windows/xenutil/xenbus.c:1350-1551 | two receivers of the same bytes and requests, run in any two ways, that both wait for more are in the same state |
| XenbusRxRuns.StuckIff | windows/xenutil/xenbus.c:1437-1451 | reception can never go on at a watch event exactly if its frame is larger than the ring |
| XenbusRx.BeyondMattersIff | windows/xenutil/xenbus.c:1455-1488 | the byte after a watch event's frame matters exactly if the path is terminated and the identifier is not |
| XenbusRx.Receiver.ParseWatch | windows/xenutil/xenbus.c:1452-1496 | path and identifier are what the payload says, whatever the place in the ring |
| ResetRequests.Queue.Reset | windows/xenutil/xenbus.c:2055-2124 | the list becomes the replied requests, then the others, both in their old order, with consistent links both ways; the others are rewound and the first of them is current |
| ResetRequests.Split | windows/xenutil/xenbus.c:2074-2101 | the loop makes two well-formed lists, a stable partition; only requests without a reply are rewound |
| ResetRequests.ThoseAll | windows/xenutil/xenbus.c:2055-2124 | no request is lost and none comes in |
| Digits.StrToLL | windows/xenutil/xenbus.c:1270-1303 | no error exactly if the text, but for one nul at its end, is all digits and its value fits 64 bits; then that value |
| Digits.OverflowTests | windows/xenutil/xenbus.c:1294-1299 | the two overflow tests together are exact |
| Digits.Lutoa | windows/xenutil/austere.c:598-647 | the numeral, as far as there is room, for base 10 and 16 |
| Digits.NumeralsRead | windows/xenutil/austere.c:598-647 | a numeral is all digits and stands for the number it was made from |
| Digits.PrintAndRead | windows/xenutil/xenbus.c:1270-1303 | reading inverts printing, on every number of up to 64 bits |
| Csq.ChainIrp | windows/xenv4v/csq.c:95-127 | the chain gets the IRP at its end, or at its front with the length updated |
| Csq.UnchainIrp | windows/xenv4v/csq.c:129-168 | the chain without the IRP, and the length of its new first one |
| Csq.Extension.Insert | windows/xenv4v/csq.c:284-319 | after every insert each record's chain is exactly the pending writes for its destination in queue order, with their number and the first one's length, and records are distinct and nonempty; the three outcomes have exact conditions |
| Csq.Extension.Remove | windows/xenv4v/csq.c:321-341 | the same after every removal |
| Csq.Extension.Link | windows/xenv4v/csq.c:170-241 | the IRP is chained on its destination's record, or gets a new one |
| Csq.UnchainExisting | windows/xenv4v/csq.c:243-282 | the IRP leaves its record, which goes with its last IRP |
| Csq.Extension.EmptyMeansNoDests | windows/xenv4v/csq.c:290-340 | what insertion and removal assert: without pending IRPs there are no records |
| Csq.Extension.PeekNext | windows/xenv4v/csq.c:343-385 | the first IRP from the given place on that passes the test |
| Csq.Extension.CopyRingData | windows/xenv4v/csq.c:443-481 | one entry for every destination with pending writes, with the length of the first of them |
| SynBacklog.Listen | windows/xenv4v/ioctl.c:468-512 | the backlog is as asked, zero meaning the largest; the error cases |
| SynBacklog.FreeSlot | windows/xenv4v/rw.c:973-981 | below the limit a free record is always found |
| SynBacklog.Listener.Push | windows/xenv4v/rw.c:956-1002 | a request joins the end of the queue, or is reset exactly if the backlog is full |
| SynBacklog.Listener.Pop | windows/xenv4v/ioctl.c:125-149 | the oldest request leaves the queue |
| SynBacklog.Listener.DoAccepts | windows/xenv4v/ioctl.c:92-160 | accepters get requests in the order of arrival, as many as there are of both; the event tells whether requests are left |
| V4vHandshake.ConnectedHasAcceptor | linux/v4v.c:1309-1354 | a connector that is CONNECTED with an id has an acceptor with that id, made on the ring it connects to and for its own ring |
| V4vHandshake.AcceptedOnce | linux/v4v.c:2631-2786 | an id is accepted at most once, also with several calls of v4v_accept under way |
| V4vHandshake.ReceiveOk | linux/v4v.c:1372-1571 | whatever a ring does with a message leaves its ids in order, and only RSTs come out of it, for the sender |
| V4vHandshake.MessagesFromPeer | linux/v4v.c:1407-1430 | what a connector takes for its connection comes from the ring it connects to, although it looks only at the id |
| V4vHandshake.ResetAnsweredIff | linux/v4v.c:1407-1412 | an RST is answered with an RST exactly if it gets to a connector, not BOUND, that uses another id |
| V4vHandshake.StrayReset | linux/v4v.c:1407-1412 | after two such answers everything is as it was |
| V4vHandshake.BouncesIffStray | linux/v4v.c:1372-1571 | an RST goes back and forth for ever exactly if both rings are such connectors |
| V4vHandshake.StrayResetArises | linux/v4v.c:2441-2566 | a run that leads to such an RST |
| V4vClosing.ConnectorLearns | linux/v4v.c:2988-3095 | if no RST to this connector is lost, under any delay, reordering and other loss: a connector that is connected has its socket at the other end, in use, or the RST that tells it otherwise is on its way |
| V4vClosing.AcceptorLearns | linux/v4v.c:1361-1571 | whatever happens to other connections: if the call of its connector does not time out, and the connector's RST is not lost, does not overtake its SYN and does not come while the request is being accepted, an accepted socket in use has its connector, or the RST that tells it otherwise is on its way |
| V4vClosing.ServesStays | linux/v4v.c:3024-3056 | an accepted socket stays in use until its peer resets it or it is closed, which the peer is told |
| V4vClosing.ResetTaken | linux/v4v.c:1511-1545 | but for these cases, an RST from the connector clears request and socket at the listening end, whichever there is |
| V4vHalfOpen.AcceptorsKnowIff | linux/v4v.c:2660-2763 | over all runs in which these four things may or may not happen to a connection, its accepted socket always has its connector, or the RST on its way, exactly if none of them may |
| V4vHalfOpen.ConnectorsKnowIff | linux/v4v.c:1309-1354 | over all runs in which RSTs to the connector may or may not be lost, it always has its socket, or the RST on its way, exactly if they may not |
| V4vHalfOpen.HalfOpenAfterTimeout | linux/v4v.c:2441-2448 | a run with only a timeout that leaves an accepted socket whose connector is gone, with nothing on the way to tell it |
| V4vHalfOpen.HalfOpenAfterLoss | linux/v4v.c:3024-3030 | one with only a lost RST |
| V4vHalfOpen.HalfOpenAfterOvertaking | linux/v4v.c:1511-1545 | one with only an RST that overtakes its SYN |
| V4vHalfOpen.HalfOpenBetween | linux/v4v.c:2660-2746 | one with only an RST that comes between the two parts of v4v_accept |
| V4vCompleting.NothingRefused | linux/v4v.c:1309-1571 | in every run in which nothing is closed, no call times out and connections are only asked of listening sockets, with whatever delay, reordering and loss, no RST is ever sent, no connection ends, and every accepted one is in use |
| V4vCompleting.ConnectionPossible | linux/v4v.c:2450-2786 | in every state of every run, a free connector can get a connection from any listening socket whose queue is not full |
| V4vStream.Stream.Send | linux/v4v.c:2300-2393 | the lumps before the first failing send are in the ring, in order, and they are the bytes reported sent; error cases; a nonblocking send tries one lump |
| V4vStream.LumpsWhole | linux/v4v.c:2311-2330 | cutting loses nothing, and no lump is empty or too long |
| V4vStream.Stream.Interrupt | linux/v4v.c:1068-1125 | the first message is queued, or refused exactly if more than MAX_PENDING_RECVS are queued or memory is short, and then stays in the ring |
| V4vStream.Stream.ReadAll | linux/v4v.c:2197-2247 | the next unread bytes, as many as wanted or all there are; messages that have been read go; when the interrupt handler is to look again |
| V4vStream.Stream.Receive | linux/v4v.c:2167-2296 | a read gets the next bytes of the stream, however often it sleeps and whatever happens meanwhile; when it ends, and with what result, including exactly when it sleeps |
| V4vStream.ReadTwice | linux/v4v.c:2197-2247 | it does not matter how a read is split |
| V4vStream.ReadTakes | linux/v4v.c:2197-2247 | a read takes the first queued bytes and leaves the others |
| V4vStream.Stream.Faithful | linux/v4v.c:2167-2393 | what has been read is a prefix of what has been reported sent, and at most MAX_PENDING_RECVS + 1 messages are queued |

## Left out

- Hypercalls, plug-and-play and power handling, registry and version probing, debug dumps and user-mode wrappers.
- Memory ordering weaker than one access at a time, time-stamp warnings, and interrupt levels beyond raised or not.
- Xen's side of the event channels is what its interface promises: it sets pending, then the selector and the upcall
  if the port is unmasked. One local raiser is modelled besides it.
- SuspendToken: the list of tokens is a set, and reading control/shutdown and running DoSuspend are one step each.
- DpcPort: one port; ports that share the selector word only add upcalls, which the model allows at any time.
- AustereHeap.Heap: operations on small blocks after the list of sub-heaps has been broken; clearing the new block; and
  the assertion that allocation succeeds, which fails whenever the heap is full.
- PageRuns.BigHeap.Scan: the original has no third outcome; where the model's loop reports one, the original goes on
  for ever, as is proved beside it. Byte counts within a page of 2^32, whose rounding wraps, are not considered.
- PageRuns.BigHeap.Free: for addresses outside the heap, and those at which a run has started at some time.
- SubHeap.Page.Free: for addresses at which a chunk starts; the chunk's place is a ghost argument. Addresses at which none
  does any more are the subject of SubHeap.Page.FreeTwice.
- XenbusTx.Transport and XenbusRx.Receiver: ring indices do not wrap at 2^32. The receive code compares them
  (`windows/xenutil/xenbus.c:1450`) and would have to.
- XenbusRx.Receiver.Receive: a bug check, and an identifier that is too long, are outcomes. Two pending requests with
  the same id, which the source rules out by assumption, are not considered.
- XenbusTx.Transport.Unhook: for requests all of whose bytes have been sent, as those that are answered have been.
- Csq.UnchainIrp: the invalid pointer left for debugging in a record that is then freed is null here.
- Csq.Extension: cancellation and the spin lock; each operation is one step.
- SynBacklog.Listener.DoAccepts: matching accept IRPs are a given sequence of accepters.
- V4vHandshake: data messages are recognised but not kept, control messages do not fail to be queued, ids are fresh
  where the source draws random ones, and a message to a ring that is gone stays undelivered. Putting a new socket on the
  ring's list and queueing its ACK is one step, and so is closing a socket. A listening socket is not released while a
  call of `v4v_accept` on it is under way, as the kernel's reference to the file ensures.
- V4vStream.Stream.Receive: faults in copying to the caller's memory, and a second thread that connects the socket
  anew while the reader sleeps.
- V4vStream.Stream.Send: whether a single send succeeds, also after waiting for room, is given.
- V4vStream: the ring is a queue of messages. Pending transmits of the Linux driver and requeued writes of the Windows
  driver can overtake each other, so no order is claimed for those.
- `windows/xenevtchn/dma.c`, the log ring, the search for spare ports, the bitmap of the IO hole, error-code tables and
  the formatter beyond its digit printers.
