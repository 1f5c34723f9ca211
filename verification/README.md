# tcpAsio: queues, receive path, send path and event loop

This project models the parts of the tcpAsio repository that its users rely on without
seeing: the two lock-free queues that threads talk through, the way a byte stream is
buffered and cut into frames on either end, the way replies are sent piece by piece, the
event loop that ties them together, and the small rings and buffers beside them.

How it is laid out:

- **Paged queue `srt_queue`.** `SrtProtocol` is a state machine in which every access to
  shared memory is a step: the two counter reads of the capacity test, the
  fetch-and-increment, every access of the double-checked page look-up and its mutex, each
  word of a message, the flag, and the freeing of a page. Addresses are never reused, so a
  use after free, a null access or a double free raises `fault`. `SrtSafety` holds the
  invariant, `SrtAdmission` counts how far producers can overshoot the capacity test,
  `SrtLoss` builds the run that loses a message, and `SrtQueue` is the same code as a class
  over arrays of pages, refining a bounded FIFO.
- **Append-only queue `drb_queue`.** `DrbProtocol`, `DrbSafety`, `DrbGrowth`, `DrbQueue`, in
  the same way.
- **Receiving.** `Framing` has the 8-byte header and the greedy parse; `ServerReceive` and
  `ClientReceive` prove what the two receivers make of a stream, `ServerReads` what the
  server's read loop does with whatever the kernel returns; the classes in `ServerCell` and
  `ClientReceive` are the source's loops, proved equal to those functions.
- **Sending.** `SendRing` is the ring of partially sent cells with `doSend`.
- **Event loop.** `EventLoop` is one cell manager as a state machine, with the acceptor and
  the senders stepping at any moment and each client's ring and receive buffer in it. All its
  runs are covered by `EventOrder` (callbacks, write interest), `EventRings` (rings, empty
  payloads), `EventStreams` (bytes sent), `EventReissue` (when reissuing descriptors is safe),
  `EventReceive` (frames received) and `EventProgress` (what is sure to get done).
  `ClientCell` and `CellManager` are the objects: the manager's table holds clients with their
  own ring and buffer, its handlers run the loops of `SendRing` and `ServerCell` on them, and
  `Run` proves that every state it passes belongs to a run of the state machine; `EventTurns`
  says which.
- **Small structures.** `SendCell`, `MicroBuffer`, `RingBuffer`.

`Arith` defines division and remainder by repeated subtraction and proves them equal to
Dafny's operators; it stands for the shifts and masks of the source.

What came out, beyond the promises that hold as documented:

- base/src/mqueue.h:86-90 calls `push` safe from any number of threads. It is, for one and
  two producers. With three or more, whatever the page and table sizes, there is a run in
  which a push returns true and its message is lost: three producers pass the capacity test
  together, the last ticket lands on a table entry that still holds an older page, and the
  message goes when that page is freed (`SrtLoss.NothingLostIffTwoProducers`).
- base/src/mqueue.h:205-206 says the `drb_queue` table is extended when necessary. The loop
  at line 322 tests `>` where `>=` is needed, so a page number equal to a doubling of the
  table still lies outside it. No run reaches that case exactly when at most
  (initial table entries) x (page size) threads push at once (`DrbGrowth.NoOverflowIff`).
- The receive buffers compact only from half their size on. They never fill up under any
  cut of the stream exactly when frames are at most half the buffer plus one byte
  (`ServerReceive.NeverJamsIff`, `ClientReceive.AlwaysRoomIff`). A sender that waits for each
  frame to be taken may use all of the server's buffer (`ServerReceive.ServesWaitingIff`), but
  not all of the client's (`ClientReceive.IdleTakesIff`).
- A frame with an empty payload, which the header allows, stalls its connection's parser for
  good: of the frames sent, exactly those before it arrive (`ServerReceive.SentIsReceived`).
- The client closes the connection when one `recv` completes no frame, although the comment
  at base/src/tcp_client/tcpClient.cpp:137 promises to reassemble split packets
  (`ClientReceive.SplitFrameCloses`).
- A payload of length zero that gets into a ring blocks its connection for good. A client
  that takes everything is served to the end exactly when no such payload was ever kept for it
  (`EventRings.DrainsIffNoEmptyPayload`, `EventRings.EmptyPayloadBlocksForEver`).
- Accepting a connection on a reissued descriptor leaves all streams intact exactly when no
  queued payload still names that descriptor (`EventReissue.HarmlessIffCareful`). Otherwise
  the former owner's payload can reach the new client, down to its socket. Nothing in the
  source checks this, and only a task queue of at most one task would make it unnecessary
  (`EventReissue.NeverMisdeliversIff`).
- `micro_buffer` moves bytes between overlapping ranges with `memcpy` exactly when its capacity
  is odd and not 1
  (`MicroBuffers.DisjointIffEven`).

## Model

| member | source | states |
|---|---|---|
| SrtProtocol.StepKeepsShape | base/src/mqueue.h:90-171 | Each atomic step of push, pop and page look-up is defined wherever it is enabled: table, page and message sizes never change and the consumer's counter never passes the producers', so the step relation leaves no behaviour out |
| SrtProtocol.RunsKeepShape | base/src/mqueue.h:69-133 | The same for every state of every run |
| SrtSafety.LivePage | base/src/mqueue.h:95-100 | In the ticket window every undelivered ticket lies on one of the C pages starting at the consumer's |
| SrtSafety.OnePagePerEntry | base/src/mqueue.h:100 | Two different pages of that window never share an entry of the circular table |
| SrtSafety.InitInv | base/src/mqueue.h:69-85 | A freshly initialised queue satisfies the invariant |
| SrtSafety.LookMemory | base/src/mqueue.h:157-171 | A step of the double-checked look-up installs at most one page, never overwrites one, and leads every caller to the page of its own ticket |
| SrtSafety.NonNullIsResident | base/src/mqueue.h:162-164 | A non-null entry of a wanted page holds exactly that page, not one of an earlier lap and not a freed one |
| SrtSafety.OthersLook | base/src/mqueue.h:162-169 | A look-up step never spoils another thread's look-up, in particular one that found null before taking the mutex |
| SrtSafety.NotGone | base/src/mqueue.h:124-127 | A page being freed holds no ticket whose producer is still writing |
| SrtSafety.DrawStep | base/src/mqueue.h:99 | Drawing a ticket inside the window keeps the invariant |
| SrtSafety.PLookStep | base/src/mqueue.h:100 | So does each look-up step of a producer |
| SrtSafety.PFetchStep | base/src/mqueue.h:170 | After the look-up the entry is not null and is the page of the producer's ticket |
| SrtSafety.WriteWordStep | base/src/mqueue.h:101 | Storing one word of a message reaches live memory and disturbs no other ticket's slot and no copy in progress |
| SrtSafety.SetFlagStep | base/src/mqueue.h:103-105 | Raising the flag publishes exactly the whole message of that ticket |
| SrtSafety.CLookStep | base/src/mqueue.h:119-120 | The consumer's look-up keeps the invariant beside the producers' |
| SrtSafety.PopSeesItsOwnTicket | base/src/mqueue.h:122 | The consumer finds the flag up iff the producer of exactly that ticket has finished: no stale flag of an earlier lap is ever seen |
| SrtSafety.CopyWordStep | base/src/mqueue.h:123 | Each word copied is the corresponding word of the ticket's message: no torn message |
| SrtSafety.DeleteStep | base/src/mqueue.h:124-125 | Freeing a page keeps every unread message and every producer's page in memory |
| SrtSafety.ClearStep | base/src/mqueue.h:126 | Clearing the table entry after the page is freed keeps the invariant in between as well |
| SrtSafety.AdvanceStep | base/src/mqueue.h:128-129 | Advancing the consumer moves the window and keeps the invariant |
| SrtSafety.StepInv | base/src/mqueue.h:90-171 | Every step of every thread that stays in the window keeps the invariant |
| SrtSafety.WindowRun | base/src/mqueue.h:90-133 | Every run that stays in the window, with any number of producers, ends in the invariant |
| SrtSafety.InvIsSafe | base/src/mqueue.h:86-133 | The invariant means: popped messages are those of tickets 0 to get-1, whole and in order; what came from one producer is a prefix of what it was told was accepted; every accepted message not yet popped is stored and flagged; no bad memory access |
| SrtAdmission.FullIsLimit | base/src/mqueue.h:95 | With consistent counters the shift-based test reports full iff at least (C-1)*M tickets are out |
| SrtAdmission.AdmittedIff | base/src/mqueue.h:95-97 | A push that meets nobody between its two counter reads, in either order, is admitted iff fewer than (C-1)*M tickets are out, and changes nothing else |
| SrtAdmission.Overshoot | base/src/mqueue.h:95-99 | In every run, with each test reading the two counters at different moments, tickets out plus producers admitted but not yet drawn are at most (C-1)*M - 1 + k |
| SrtAdmission.SmallOvershootFits | base/src/mqueue.h:95-100 | One ticket more than the limit still lies in the window, at any consumer offset |
| SrtAdmission.TwoProducersStayInWindow | base/src/mqueue.h:95-100 | With at most two producers every state of every run is in the window |
| SrtAdmission.TwoProducersAreSafe | base/src/mqueue.h:86-133 | With at most two producers every run is FIFO, loses nothing and makes no bad access |
| SrtLoss.ThreeProducersLose | base/src/mqueue.h:95-105 | With three or more producers, for every page size, table size and message size, a reachable quiet state has a message whose push returned true, that is not popped and not stored |
| SrtLoss.NothingLostIffTwoProducers | base/src/mqueue.h:86-106 | No reachable state has lost an accepted message iff there are at most two producers |
| SrtQueues.SrtQueue.constructor | base/src/mqueue.h:50-85 | A new queue is empty, with page 0 allocated |
| SrtQueues.SrtQueue.GetPage | base/src/mqueue.h:157-171 | Returns the page of a live ticket; a page that was there is unchanged, a missing one is allocated blank; contents unchanged |
| SrtQueues.SrtQueue.Push | base/src/mqueue.h:90-106 | From one thread: appends the message, and fails iff exactly (C-1)*M messages are held, through any number of laps of the table |
| SrtQueues.SrtQueue.Pop | base/src/mqueue.h:111-133 | From one thread: takes the oldest message and fails iff there is none, freeing pages as it goes |
| SrtQueues.SrtQueue.Size | base/src/mqueue.h:135-137 | The number of messages held |
| DrbProtocol.MakeFits | base/src/mqueue.h:251-339 | Every step of push, get and look-up keeps the sizes the next step needs |
| DrbSafety.GetPageInv | base/src/mqueue.h:310-339 | A look-up returns the page of the requested number, keeps all messages, and goes out of bounds iff the grown table does not reach that number |
| DrbSafety.LookupInv | base/src/mqueue.h:256 | A producer's look-up, when inside the table, keeps the invariant |
| DrbSafety.StoreInv | base/src/mqueue.h:257-259 | Storing words and raising the flag touches only the producer's own slot |
| DrbSafety.ReturnInv | base/src/mqueue.h:261-263 | Counting the finished push keeps write_index + pushes in flight = post |
| DrbSafety.MakeInv | base/src/mqueue.h:251-286 | Every step that stays inside the table keeps the invariant, which contains write_index + pushes in flight = post_index |
| DrbSafety.TestIsExact | base/src/mqueue.h:281 | The reader finds the flag up iff the producer of that position has raised it |
| DrbSafety.StaysReadable | base/src/mqueue.h:270-286 | A step of any thread leaves a position that passes both tests of `get`, against write_index and against the flag, passing them, with the same message |
| DrbSafety.QuietIsComplete | base/src/mqueue.h:274-290 | With no push in flight every position below size() is present, flagged and holds its ticket's message |
| DrbGrowth.ExtendMisses | base/src/mqueue.h:321-324 | The growth loop ends with a size that does not exceed the page number iff the page number is a doubling of the size it started from |
| DrbGrowth.GrowthMissesIff | base/src/mqueue.h:319-331 | Growth keeps the old entries and leaves the requested page outside the new table iff its number is the doubled table size times a power of two |
| DrbGrowth.BeyondTable | base/src/mqueue.h:251-263 | Tickets beyond the table all belong to different pushes in flight, and no finished push is beyond it |
| DrbGrowth.ReaderNeverOverflows | base/src/mqueue.h:274-279 | `get` never grows the table and never reads outside it |
| DrbGrowth.FewProducersFit | base/src/mqueue.h:255-256 | With at most start*M producers one doubling suffices and the look-up stays inside |
| DrbGrowth.NoOverflowIff | base/src/mqueue.h:204-209 | No reachable state has accessed memory outside the table iff the number of producers is at most (initial entries)*(page size) |
| DrbGrowth.GetSucceedsIff | base/src/mqueue.h:270-286 | Left alone, `get` is refused by the first test iff the position is not below write_index, then always finds its page, and returns true iff that position's flag is up as well |
| DrbGrowth.ReadableForEver | base/src/mqueue.h:270-286 | Under that bound, in every run, a position that passes both tests at some moment passes them, with the same message, at every later one |
| DrbGrowth.AnsweredForEver | base/src/mqueue.h:270-286 | Under that bound, once `get` has returned true for a position, then at every later moment of the run, wherever the reader stands in a `get` of that position, its next step goes on towards returning true with the same message: not refused, page found, flag up, each word copied the right one |
| DrbGrowth.AnswersAreRight | base/src/mqueue.h:251-290 | Under that bound write_index + pushes in flight = post, and every `get` that returned true gave its position's message |
| DrbQueues.PageBits | base/src/mqueue.h:215-219 | The page size is the least power of two from 2 up that is not below the requested one |
| DrbQueues.DrbQueue.constructor | base/src/mqueue.h:208-246 | A new queue is empty with that page size and the given table length |
| DrbQueues.DrbQueue.Extend | base/src/mqueue.h:321-330 | Growth copies the old table and leaves the new entries null |
| DrbQueues.DrbQueue.GetPage | base/src/mqueue.h:310-339 | From one thread the requested page is always inside a table at most twice as long |
| DrbQueues.DrbQueue.Push | base/src/mqueue.h:251-264 | From one thread: always succeeds and appends |
| DrbQueues.DrbQueue.Get | base/src/mqueue.h:270-286 | From one thread: succeeds iff the position was pushed, with its message, changing no contents |
| Framing.IntRoundTrip | common/src/tcp_struct.h:15-24 | A 32-bit int written to and read from four bytes is itself, negative values included |
| Framing.IntInMemory | common/src/tcp_struct.h:15-24 | Byte i of an int in memory counts 256^i, in two's complement: what reading and writing mean, each by itself |
| Framing.Layout | common/src/tcp_struct.h:15-24 | A frame is its type in four bytes, its payload size in four, and the payload |
| Framing.IntTestIsComplete | common/src/tcp_server_notify.cpp:59-65 | For buffers below 2^31 bytes the parser's comparisons, made on values cut to int, hold iff header and payload are wholly there and the size is positive |
| Framing.LoopRound | common/src/tcp_server_notify.cpp:59-96 | What one turn of the parsing loop does to the outcome from its read position on |
| Framing.ParseExtends | common/src/tcp_server_notify.cpp:58-97 | Parsing a longer buffer is parsing the shorter one and then its rest followed by the new bytes |
| Framing.RestIsSuffix | common/src/tcp_server_notify.cpp:97 | What parsing leaves is a suffix that starts no complete frame |
| Framing.ParseEncoded | common/test/tcpserver/main.cpp:61-65 | Parsing encoded frames gives back those before the first empty one; all of them, with nothing left over, iff none is empty |
| Framing.EmptyFrameStalls | common/src/tcp_server_notify.cpp:61-63 | A frame with an empty payload is never parsed, nor is anything behind it, however the stream goes on |
| Framing.RestIsPartialFrame | common/src/tcp_server_notify.cpp:59-97 | What is left of any prefix of well-formed frames is shorter than the longest frame |
| Framing.HandleIsParse | common/src/tcp_server_notify.cpp:81-86 | Whatever the callback refuses, the frames accepted and then the parse of the unused bytes make the parse of the buffer, however it goes on |
| Framing.WillingHandle | common/src/tcp_server_notify.cpp:81-82 | A callback that refuses nothing gets the whole parse |
| Framing.HandleTakes | common/src/tcp_server_notify.cpp:59-97 | One call accepts exactly the frames before the first the callback refuses; each is offered once, in order, and the refused one will be offered again |
| ServerReceive.ReceiveAccounts | base/src/tcp_server/cell_manager.cpp:352-362 | One read keeps: accepted frames plus whatever the unread bytes will parse to is the parse of the stream |
| ServerReceive.AcceptedIsParse | base/src/tcp_server/cell_manager.cpp:325-373 | For every stream, every cut into reads and every pattern of refusals the accepted frames are a prefix of the greedy parse of all bytes read, and all of it if nothing is refused |
| ServerReceive.ChunkingDoesNotMatter | base/src/tcp_server/cell_manager.cpp:325-373 | Two cuts of the same stream give the same accepted frames |
| ServerReceive.SentIsReceived | common/test/tcpserver/main.cpp:61-65 | What an encoder sent arrives frame by frame under every cut, up to the first frame with an empty payload: all of it iff there is none |
| ServerReceive.TooLongJams | base/src/tcp_server/cell_manager.cpp:358-369 | With a frame one byte longer than half the buffer plus one, some cut reaches the buffer-full branch |
| ServerReceive.NeverJamsIff | base/src/tcp_server/cell_manager.cpp:352-369 | For a callback that never refuses, no cut of frames of at most F bytes reaches the buffer-full branch iff F is at most half the buffer plus one |
| ServerReceive.NothingUnreadFreesAll | base/src/tcp_server/cell_manager.cpp:355-357 | Whenever reads leave nothing unread, the whole buffer is free again |
| ServerReceive.FrameTaken | base/src/tcp_server/cell_manager.cpp:325-373 | Into an empty buffer goes a frame as long as the buffer, under every cut: all pieces fit, the frame is accepted exactly when the last has come, and the buffer is empty again |
| ServerReceive.WaitingIsServed | base/src/tcp_server/cell_manager.cpp:325-373 | From an empty buffer, a sender whose frames each come in pieces of their own has all of them accepted, in order, however long it goes on |
| ServerReceive.ServesWaitingIff | base/src/tcp_server/cell_manager.cpp:352-369 | Every such sender of frames up to F bytes is served without ever filling the buffer iff F is at most the buffer size |
| ServerCells.OnRecvData | common/src/tcp_server_notify.cpp:47-98 | The parsing loop returns exactly the outcome of the recursive parser, callback by callback |
| ServerCells.ServerCell.Take | base/src/tcp_server/cell_manager.cpp:327-348 | Bytes read are appended behind the unread region, which is unchanged |
| ServerCells.ServerCell.CompactBuffer | base/src/tcp_server/cell_manager.cpp:353-362 | Reset or move to the front leaves the unread bytes the same; with nothing unread both cursors go to 0 |
| ServerCells.ServerCell.ReadData | base/src/tcp_server/cell_manager.cpp:327-362 | One successful read of at most the room left, parsed and compacted; nothing of the stream is lost |
| ServerReads.ReadsFeed | base/src/tcp_server/cell_manager.cpp:325-373 | For every finite script of read results the bytes read are chunks that each fit, one callback each; the buffer is the one those chunks lead to, stream = bytes read + what is left, the loop reads again only after a chunk that took all the room there was, and it stops only on a fatal answer, a full buffer, a short read or an empty script |
| ServerReads.ReadsStop | base/src/tcp_server/cell_manager.cpp:329-384 | The full-buffer error is reported iff the buffer has become full, deletion is asked for iff an answer used up was an error or end of file, and a full buffer is never read into again |
| ServerReads.RetriesDoNotMatter | base/src/tcp_server/cell_manager.cpp:329-332 | EINTR and EAGAIN, wherever they come, change neither buffer, bytes read, callbacks nor the two errors: the loop goes on as if they had not come |
| ServerCells.ServerCell.HandOn | base/src/tcp_server/cell_manager.cpp:352-353 | The callback gets the unread bytes and the cursor moves past what it used |
| ServerCells.ServerCell.DoRecv | base/src/tcp_server/cell_manager.cpp:317-385 | The loop over the fixed buffer has exactly that outcome: buffer, bytes read, callbacks, error -2 and deletion |
| ClientReceive.RecvInStep | base/src/tcp_client/tcpClient.cpp:147-161 | RecvData returns 0 iff the chunk completes a frame, and either way has handled exactly the parse of all bytes received, with the rest unread |
| ClientReceive.HandledIsParse | base/src/tcp_client/tcpClient.cpp:138-162 | The same over every sequence of chunks |
| ClientReceive.SplitFrameCloses | base/src/tcp_client/tcpClient.cpp:148-151 | A first read that stops inside a frame makes RecvData return -1, for every frame and every cut |
| ClientReceive.TooLongFills | base/src/tcp_client/tcpClient.cpp:156-160 | A frame one byte above the bound has a cut that returns 0 and leaves no room |
| ClientReceive.AlwaysRoomIff | base/src/tcp_client/tcpClient.cpp:138-162 | While every call returns 0 there is room to receive iff frames are at most half the buffer plus one byte |
| ClientReceive.IdleTakesIff | base/src/tcp_client/tcpClient.cpp:140-161 | Whatever came before, when nothing is unread a whole frame of up to F bytes is sure to fit and be handled iff F is at most half the buffer plus one byte: unlike the server, the client does not go back to the front of its buffer |
| EasyTcpClients.EasyTcpClient.constructor | base/src/tcp_client/tcpClient.h:28-33 | A new client has an empty zeroed buffer of 51200 bytes |
| EasyTcpClients.EasyTcpClient.CopyPayload | common/src/tcp_client_notify.cpp:65-70 | The payload reaches the handler whole and zero-terminated, in the cache iff it fits there with its terminator, else in memory of its own of just that size |
| EasyTcpClients.EasyTcpClient.OnRecvData | common/src/tcp_client_notify.cpp:45-86 | The client's parsing loop is the recursive parser with a handler that cannot refuse, and the messages are read back from the copies |
| EasyTcpClients.EasyTcpClient.RecvData | base/src/tcp_client/tcpClient.cpp:138-162 | Buffer, cursors and return value after one recv are those of the specification |
| SendModel.TurnConserves | base/src/tcp_server/cell_manager.cpp:404-433 | One write moves exactly the bytes it accepted from the ring to the wire |
| SendModel.SendConserves | base/src/tcp_server/cell_manager.cpp:388-437 | For every pattern of write results: bytes written plus bytes still queued are the same sequence as before, at most the allowed number of writes is made, and what remains is a suffix whose first payload alone may be shortened |
| SendModel.WillingSocketTakes | base/src/tcp_server/cell_manager.cpp:401-433 | A socket that takes whole payloads whenever it answers gets exactly the payloads before the first empty one, as far as it answers within the turn limit; EINTR and EAGAIN cost a turn each and nothing else |
| SendModel.DrainsIff | base/src/tcp_server/cell_manager.cpp:401-433 | If such a socket answers at least once per payload within the turn limit, the queue drains iff no queued payload is empty |
| SendModel.GoesThrough | base/src/tcp_server/cell_manager.cpp:401-434 | As long as results are EINTR, EAGAIN or take a whole payload, doSend goes on: after k of them the payloads taken are gone from the ring, written whole, with k writes made |
| SendModel.StopsAt | base/src/tcp_server/cell_manager.cpp:401-436 | The exact outcome: if the first other result is number k, exactly k + 1 writes are made, the payload in turn is cut where that write ended, and the rest stays |
| SendModel.EmptyPayloadBlocks | base/src/tcp_server/cell_manager.cpp:415-418 | A payload of length zero at the head is never removed and stops everything behind it |
| SendRings.SendRing.Enqueue | base/src/tcp_server/cell_manager.cpp:162-179 | Appends the payload's cell, and refuses iff all slots but one are used |
| SendRings.SendRing.DropHead | base/src/tcp_server/cell_manager.cpp:427-432 | Frees the oldest cell, which had not been freed before, and leaves its slot null |
| SendRings.SendRing.WriteHead | base/src/tcp_server/cell_manager.cpp:404-434 | One write of the oldest cell's unsent bytes: what goes out is what the result says; the cell is freed iff it was sent to its end, and the loop goes on iff it was or the result is EINTR or EAGAIN |
| SendRings.SendRing.DoSend | base/src/tcp_server/cell_manager.cpp:399-436 | The loop over the array has the specified outcome with at most 1000 writes; the cells that left are exactly the ones freed, live cells stay distinct and non-null |
| SendRings.SendRing.Destroy | base/src/tcp_server/client_cell.cpp:26-40 | The destructor's loop ends and frees exactly the cells still queued |
| EventOrder.StageAfterCalls | base/src/tcp_server/cell_manager.cpp:352-368 | Any number of data callbacks, with or without a final error callback, keeps a connected client connected |
| EventOrder.HandleAddInv | base/src/tcp_server/cell_manager.cpp:134-152 | Registering a client keeps the invariant and starts its callbacks with OnConnect |
| EventOrder.HandleDelInv | base/src/tcp_server/cell_manager.cpp:194-205 | Deleting a client keeps the invariant |
| EventOrder.CheckWriteInv | base/src/tcp_server/cell_manager.cpp:233-265 | After checkWrite write interest agrees with the rings |
| EventOrder.DoRecvInv | base/src/tcp_server/cell_manager.cpp:317-385 | Receiving keeps the invariant and queues at most one deletion |
| EventOrder.ServeInv | base/src/tcp_server/cell_manager.cpp:302-315 | Serving one reported event queues at most one deletion for that client and keeps the invariant |
| EventOrder.StepInv | base/src/tcp_server/cell_manager.cpp:83-315 | Every step of the acceptor, the senders and the loop keeps the invariant |
| EventOrder.CallbackOrder | base/src/tcp_server/notify.h:29 | In every state of every run each descriptor's callbacks are a prefix of (OnConnect (OnRecvData or OnError)* OnDisconnect)*, and at most one deletion per client is queued |
| EventOrder.WriteInterest | base/src/tcp_server/cell_manager.cpp:233-265 | Whenever the loop waits in epoll_wait, a registered client's kernel mask equals its m_Events and contains EPOLLOUT iff its ring is not empty |
| EventRings.StepInv | base/src/tcp_server/cell_manager.cpp:83-437 | Every step keeps: connections numbered apart, rings one slot short of full, and an empty payload in a ring iff one was ever kept for that client |
| EventRings.RingsNeverOverflow | base/src/tcp_server/cell_manager.cpp:162-179 | In every run a ring holds at most one payload less than it has slots |
| EventRings.DrainsIffNoEmptyPayload | base/src/tcp_server/cell_manager.cpp:388-437 | In every state of every run, a socket that takes whole payloads whenever it answers, at least once per payload held within the 1000 turns, lets one doSend drain the ring iff no empty payload was ever kept for that client |
| EventRings.EmptyPayloadBlocksForEver | base/src/tcp_server/cell_manager.cpp:415-418 | Once an empty payload leads a client's ring, no further byte is written to that client in any continuation of any run |
| EventRings.EmptyPayloadGetsIn | base/src/tcp_server/cell_manager.cpp:104-181 | Such a state is reached, with every queue and every ring of two slots or more, by sending a zero-length payload to a new client |
| EventStreams.HandleSendInv | base/src/tcp_server/cell_manager.cpp:154-181 | Taking a payload from the queue appends it to its own client's stream or drops it on a full ring, recorded as such |
| EventStreams.DoSendInv | base/src/tcp_server/cell_manager.cpp:388-437 | Sending moves bytes between ring and wire of that client only |
| EventStreams.StreamsArrive | base/src/tcp_server/cell_manager.cpp:104-181 | In every run that reissues descriptors only when no queued payload names them: bytes written to a client are a prefix of its accepted payloads in ticket order, less those dropped on a full ring; while it is connected nothing is missing, handled and queued payloads are all that were accepted, and wire plus ring are all that were kept |
| EventReissue.BackToTasks | base/src/tcp_server/cell_manager.cpp:280-300 | From whatever phase, the loop gets back to handleTask with the queued tasks still there and an untouched connection still untouched |
| EventReissue.Misdelivers | base/src/tcp_server/cell_manager.cpp:154-178 | From every state in which a queued payload names the descriptor of an untouched connection, some continuation hands it to that connection, though nothing was sent to it |
| EventReissue.HarmlessIffCareful | base/src/tcp_server/cell_manager.cpp:83-89 | After any careful run, accepting a connection leaves every connection's stream its own in every careful continuation iff no queued payload names the descriptor |
| EventReissue.ReissueReachesWire | base/src/tcp_server/cell_manager.cpp:104-181 | After any run, if the queue has room for the registration, rings have two slots or more and the queued payloads for that descriptor are not empty, some continuation writes bytes to the new connection though nothing was sent to it |
| EventReissue.ReissueMisdelivers | base/src/tcp_server/cell_manager.cpp:154-176 | For every queue of at least two tasks, every ring of at least two slots and every non-empty payload there is a run that does this from the start |
| EventReissue.NeverMisdeliversIff | base/src/tcp_server/cell_manager.cpp:83-181 | With no care about descriptors at all, no run misdelivers iff the task queue holds at most one task |
| EventReceive.ReadsAccount | base/src/tcp_server/cell_manager.cpp:325-373 | One doRecv keeps the account of the stream read from a socket and, for a callback that accepts, a buffer with room |
| EventReceive.FramesArrive | base/src/tcp_server/cell_manager.cpp:317-385 | In every state of every run, for every connection ever accepted, the frames accepted are a prefix of the greedy parse of the bytes read from its socket, and all of it if the callback refuses nothing |
| EventReceive.NeverFullIff | base/src/tcp_server/cell_manager.cpp:352-369 | Over whole runs with any number of clients and a callback that refuses nothing: no buffer whose bytes so far begin a sequence of frames of at most F bytes is ever full iff F is at most half the buffer plus one |
| EventProgress.SendTaskAnswer | base/src/tcp_server/cell_manager.cpp:104-132 | sendTask returns success iff the client is in the table and the queue has room, which is iff exactly this payload is added both to what was sent to the connection and to what is queued for it; otherwise nothing changes |
| EventProgress.SentIsSuccesses | base/src/tcp_server/cell_manager.cpp:104-132 | In every run, what the other theorems call sent to a connection is the payloads of exactly those sendTask calls that returned success, in order |
| EventProgress.ServeCauses | base/src/tcp_server/cell_manager.cpp:302-437 | What serving one event causes. Hang-up: a deletion and nothing else. Otherwise, each whether or not the other is reported: if readable, the reads, one data callback each, and an error callback iff the buffer has become full; if writable, the writes; a deletion iff the reads met an error or end of file; no other client is touched |
| EventProgress.OrdersQueued | base/src/tcp_server/cell_manager.cpp:83-132 | What every step of every thread does to the task queue: an accept adds the registration, a sendTask to a known client the payload, an event that is to end a client its deletion, each iff there is room; nothing else is added, and only the loop takes tasks, from the front |
| EventProgress.PopDoes | base/src/tcp_server/cell_manager.cpp:134-205 | A task taken off the queue is carried out: the client registered and announced, or closed and reported, or the payload handled for the connection that has the descriptor, kept iff two slots are free |
| EventProgress.OrdersAreCarriedOut | base/src/tcp_server/cell_manager.cpp:83-231 | In every run, what a step orders while the queue has room has been carried out when the loop next leaves handleTask: accepted clients are connected, payloads whose sendTask succeeded are handled, and clients that hung up or whose read met an error or end of file are closed and reported disconnected |
| EventProgress.EverythingWritten | base/src/tcp_server/cell_manager.cpp:233-437 | In every careful run, after a writable socket that takes whole payloads, and answers often enough, has been served, all that was ever kept for the client is on the wire unless an empty payload was among it; if nothing was dropped or is still queued, that is all that was sent |
| EventTurns.DrainAllInv | base/src/tcp_server/cell_manager.cpp:207-231 | Draining ends although an orphaned add queues a deletion, and keeps the invariant |
| EventTurns.TurnSetsInterest | base/src/tcp_server/cell_manager.cpp:285-288 | From any invariant state a turn up to epoll_wait empties the task queue and sets EPOLLOUT exactly on clients with pending bytes |
| EventTurns.ReportedOnce | base/src/tcp_server/cell_manager.cpp:288 | What is taken to be reported are registered descriptors, each once |
| EventTurns.ReportedAll | base/src/tcp_server/cell_manager.cpp:288 | and none that is offered and registered is left out |
| ClientCells.ClientCell.constructor | base/src/tcp_server/client_cell.h:40-65 | A new client has an empty ring of 1048576 slots, an empty buffer of 1048576 bytes and an event mask left as it comes |
| ClientCells.ClientCell.Enqueue | base/src/tcp_server/cell_manager.cpp:162-179 | Through the real ring: the payload is kept, last, iff more than one slot is free |
| ClientCells.ClientCell.DoSend | base/src/tcp_server/cell_manager.cpp:399-436 | Runs the ring's send loop; ring and bytes written are those of the specification |
| ClientCells.ClientCell.DoRecv | base/src/tcp_server/cell_manager.cpp:322-385 | Runs the buffer's receive loop; buffer, callbacks, full and fatal are those of the specification |
| ClientCells.ClientCell.Destroy | base/src/tcp_server/client_cell.cpp:26-40 | Frees exactly the cells still queued |
| CellManagers.CellManager.AddTask | base/src/tcp_server/cell_manager.cpp:83-89 | A client object enters the table at once, the task only if the queue has room |
| CellManagers.CellManager.DelTask | base/src/tcp_server/cell_manager.cpp:91-97 | Queues a deletion, lost if the queue is full |
| CellManagers.CellManager.SendTask | base/src/tcp_server/cell_manager.cpp:104-132 | Returns success iff the client is known and the queue has room, and then the payload is queued; otherwise nothing changes |
| CellManagers.CellManager.HandleAdd | base/src/tcp_server/cell_manager.cpp:134-152 | The handler on the client object is the registering step of the state machine |
| CellManagers.CellManager.HandleSend | base/src/tcp_server/cell_manager.cpp:154-181 | What the real ring accepts or refuses is the queueing step of the state machine |
| CellManagers.CellManager.HandleDel | base/src/tcp_server/cell_manager.cpp:183-205 | Destroying the client object and taking it out is the deleting step of the state machine |
| CellManagers.CellManager.DoRecv | base/src/tcp_server/cell_manager.cpp:317-385 | The receive loop run on the client's own buffer, its callbacks and the deletion task are the receiving step |
| CellManagers.CellManager.DoSend | base/src/tcp_server/cell_manager.cpp:388-437 | The send loop run on the client's own ring and the bytes it writes are the sending step |
| CellManagers.CellManager.CheckWrite | base/src/tcp_server/cell_manager.cpp:233-265 | In whatever order the table yields the clients, the outcome is the one simultaneous update |
| CellManagers.CellManager.DoEvent | base/src/tcp_server/cell_manager.cpp:302-315 | Hang-up first and alone, otherwise read, then write |
| CellManagers.CellManager.HandleTask | base/src/tcp_server/cell_manager.cpp:207-231 | The loop ends, equals handling the tasks one by one including those it queues itself, and its states extend a run of the state machine |
| CellManagers.CellManager.EpollWait | base/src/tcp_server/cell_manager.cpp:288 | Reports the offered events of registered descriptors, each descriptor once |
| CellManagers.CellManager.Prepare | base/src/tcp_server/cell_manager.cpp:285-288 | handleTask and checkWrite lead to an epoll_wait with EPOLLOUT set exactly on the registered clients with pending bytes |
| CellManagers.CellManager.ServeAll | base/src/tcp_server/cell_manager.cpp:295-297 | The loop over the events serves each once, in order |
| CellManagers.CellManager.Run | base/src/tcp_server/cell_manager.cpp:280-300 | For every number of turns, with arbitrary accepts and sends before each, arbitrary events, read results, write results and refusals: all states passed are a run of the state machine, the final state is the stated function of the input, the invariant holds, every epoll_wait is entered with the right write interest, and callbacks are in order |
| SendCells.Unit.constructor | base/src/tcp_common/send_cell.cpp:39-47 | Header and body are copied inside the least whole number of units that leaves a byte to spare |
| SendCells.RoundedUp | base/src/tcp_common/send_cell.cpp:41 | The buffer size is a multiple of the unit, above the package size by at most one unit |
| SendCells.SendCell.constructor | base/src/tcp_common/send_cell.cpp:6-10 | A new ring is empty although its slots are not initialised |
| SendCells.SendCell.IsEmpty | base/src/tcp_common/send_cell.cpp:55-58 | The counters agree modulo the ring size iff nothing is held |
| SendCells.SendCell.IsFull | base/src/tcp_common/send_cell.cpp:61-64 | The full test holds iff all slots but one are used |
| SendCells.SendCell.WriteCache | base/src/tcp_common/send_cell.cpp:32-53 | Appends header and body as one package, and refuses iff N-1 packages are held; bytes accepted = bytes read + bytes pending is kept |
| SendCells.SendCell.EnableRead | base/src/tcp_common/send_cell.cpp:66-80 | A read is possible iff a package is held |
| SendCells.SendCell.ReadCache | base/src/tcp_common/send_cell.cpp:82-91 | The returned memory starts with the oldest package's unread bytes, null iff nothing is held |
| SendCells.SendCell.ReadEnableLen | base/src/tcp_common/send_cell.cpp:93-102 | The number of those bytes, zero iff nothing is held |
| SendCells.SendCell.HasRead | base/src/tcp_common/send_cell.cpp:105-118 | Reading n bytes takes exactly those from the stream; a package is freed, once, iff it is read to its end |
| SendCells.SendCell.Clear | base/src/tcp_common/send_cell.cpp:12-26 | The loop ends and frees exactly the packages held |
| MicroBuffers.DisjointIffEven | base/src/tcp_common/micro_buffer.cpp:24-33 | No sequence of legal operations makes the compaction move bytes between overlapping ranges iff the capacity is even (or 1, where a byte stays in place) |
| MicroBuffers.MovesAtHalf | base/src/tcp_common/micro_buffer.cpp:24-33 | After any sequence of legal operations, has_read moves the bytes left iff half the capacity or more has been read by then; the cursor itself always stays below half |
| MicroBuffers.MicroBuffer.constructor | base/src/tcp_common/micro_buffer.cpp:5-11 | A new buffer is empty and zeroed |
| MicroBuffers.MicroBuffer.HasWrite | base/src/tcp_common/micro_buffer.h:30-32 | The unread bytes grow by what was placed at the write position |
| MicroBuffers.MicroBuffer.HasRead | base/src/tcp_common/micro_buffer.cpp:24-33 | The unread bytes lose exactly the first n; they move to the front iff half the capacity has been read; no room to write is left only if more than half the buffer is unread |
| RingProtocol.FullIsExact | common/test/tcpserver/ring_buffer/ringBuffer.h:25-35 | Interleaved with the consumer, the producer finds the ring full iff size-1 values are in it at that moment |
| RingProtocol.TestsAreExact | common/test/tcpserver/ring_buffer/ringBuffer.h:30-57 | Interleaved, a push goes ahead iff fewer than size-1 values are held at its test, and a pop iff a finished push is not yet popped |
| RingProtocol.StepInv | common/test/tcpserver/ring_buffer/ringBuffer.h:30-61 | Each statement of push and pop keeps the invariant at every interleaving |
| RingProtocol.SingleProducerSingleConsumer | common/test/tcpserver/ring_buffer/Readme.txt:1 | In every run popped values are a prefix of pushed ones, at most size-1 are held, and no slot is read while it is written |
| RingBuffers.RingBuffer.Push | common/test/tcpserver/ring_buffer/ringBuffer.h:30-39 | From one thread: appends, and fails iff size-1 values are held |
| RingBuffers.RingBuffer.Pop | common/test/tcpserver/ring_buffer/ringBuffer.h:52-61 | From one thread: takes the oldest value, and fails iff there is none, leaving the caller's variable alone |

## Left out

- Weak memory, fences and the wrap-around of 64-bit tickets: the state machines assume sequential consistency and unbounded counters.
- `initialized_`, `init` called twice, and `release`: initialisation is part of the constructors, and freeing everything at the end is not modelled.
- DrbProtocol.MakeFits: a page look-up of `drb_queue`, growth included, is one step. The source reads the table and its length without the mutex while another thread may replace them, and frees no outgrown table.
- DrbQueues.PageBits: requests above 2^30 messages a page, where the source shifts a 32-bit int out of range.
- SrtAdmission.FullIsLimit: the parameters are the page and table sizes themselves, powers of two in the source; nothing proved needs them to be.
- ServerReceive.NeverJamsIff: stated for even capacities of at least 20 bytes, which includes both of the source's; a smaller buffer cannot hold the frames of the counterexample.
- ClientReceive.AlwaysRoomIff: the same range of capacities.
- ServerReads.ReadsFeed: read results come from a finite script, because the source retries EAGAIN for ever; `-1` from the parser for a missing buffer or a client id of zero cannot occur there.
- Framing.IntRoundTrip: the host is little-endian and `int` has 32 bits.
- The `USE_DISPATCH` branch of the server's parser, which is not built, and what `on_read` and `handle_msg` do with a payload.
- CellManagers.CellManager.SendTask: the queued task holds the payload as a value, and its cell is allocated when the payload is put into the ring; the source allocates it earlier and hands over the pointer.
- CellManagers.CellManager.Run: one thread; other threads act between turns there. That they may act at any moment is in the state machine's runs.
- EventOrder.CallbackOrder: pushes to the task queue and `handleDel` are atomic and in ticket order, `accept` returns only closed descriptors, `epoll_wait` reports registered descriptors once each. Unlocked access to the client table from several threads is outside the model.
- EventRings.DrainsIffNoEmptyPayload: one doSend makes at most 1000 writes, so a longer ring takes several; nothing is said about how often epoll reports a socket writable.
- EventProgress.OrdersAreCarriedOut: says what has happened when the loop leaves handleTask; that the loop thread keeps running, and that other threads pause often enough for the queue to be empty once, is not stated.
- ServerReceive.ServesWaitingIff: for buffers that hold at least a header, and without refusals.
- ClientReceive.IdleTakesIff: the same range of capacities as `AlwaysRoomIff`.
- MicroBuffers.DisjointIffEven: with capacity 1 the source calls `memcpy` to copy a byte onto itself.
- EventReissue.ReissueReachesWire: if the queue is full at the accept, the registration is lost and nothing is written; the payload is then still handed to the wrong connection.
- EventOrder.WriteInterest: speaks of registered clients; one whose add task was dropped by a full queue is never registered and never written to.
- EventOrder.StepInv: `epoll_ctl` is taken to succeed, and a failed `epoll_wait`, which serves nothing, is an empty batch.
- Memory that the source never frees: tasks and payloads refused by a full queue or ring.
- SendCells.SendCell.WriteCache: one thread at a time. With several writers the full test and the counter are not one step, and a counter can pass a slot that is not set yet. Header length, unit size and slot count are parameters, since the files that define them are not part of this model; the sizes are not cut to `int`.
- MicroBuffers.MicroBuffer.HasRead: copies in ascending order. For an odd capacity the source's `memcpy` of overlapping ranges is undefined.
- RingBuffers.RingBuffer.Push: the overload taking a pointer does the same. A size of zero, for which the source divides by zero, is excluded.
- Sockets, threads, start and stop, the listening server and its thread count, tracing, error codes, and the missing return value of `tcpServer::SendData`.
- `message_center`, the dispatcher, the hashing and comparison macros, and the stress programs: not modelled.
