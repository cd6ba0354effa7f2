# Verified model of the network layer

A Dafny model of the hand-written transport code in `primus/bench/network`: the
framed byte stream over a web socket, the reorder buffer and reply demultiplexer
behind it, the incremental SHA-1 of the handshake, the life of proxied-call
records, and the rendezvous of grouped connections. `dafny verify dfyconfig.toml`
checks it.

## How it is built

Code that changes things in place is modelled in place: linked lists are relinked
node by node (`LinkedList.dfy`), buffers are arrays that are copied, masked and
hashed over (`SendBuffer.dfy`, `Masking.dfy`, `Sha1.dfy`), the bitmap is an array
of words searched in a loop (`PortMap.dfy`). The contract of such a method gives
its whole new state, by a function on values or an abstract step, and the
theorems are about those. What several threads do to shared state is a state
machine whose steps are the regions that a lock makes atomic; its theorems hold
for every sequence of steps, so for every interleaving.

| file | what it models |
|---|---|
| `Bytes.dfy`, `Memory.dfy` | octets, integers in either byte order, raw copies |
| `SocketStream.dfy`, `FrameHeader.dfy`, `Masking.dfy` | reading ahead from the socket, RFC 6455 headers, masking |
| `LinkedList.dfy` | the singly linked lists of all contexts |
| `SendBuffer.dfy`, `Sender.dfy` | the coalescing buffer; cutting a stream into frames, sent or queued |
| `RecvCtx.dfy`, `Receiver.dfy`, `InOrderReading.dfy` | chunk list and cursor; both receive functions; the stream reader behind an in-order wire |
| `StreamChannel.dfy` | whole runs of writer, flusher thread, wire and reader |
| `Endpoints.dfy` | two endpoints and the question of deadlock |
| `ReorderRuns.dfy` | the receive context with arrivals in any order, and the close |
| `Demultiplexer.dfy` | replies and the calls that wait for them |
| `Sha1Spec.dfy`, `Sha1.dfy` | FIPS 180-4, and the code against it |
| `CallRecords.dfy`, `ProxyClient.dfy`, `NetworkThread.dfy` | who frees a call record and when the destructor ends, in every interleaving; the same steps in place; a whole pass of the network thread |
| `PortMap.dfy`, `Rendezvous.dfy` | the number allocator; the rendezvous protocol |
| `KnownAnswers.dfy` | the examples that FIPS 180 and RFC 6455 give |

## Results worth knowing

- What the far end reads is a prefix of what was written, whatever the write
  sizes, flushes, read sizes and thread interleaving, and whenever async mode is
  started or stopped.
- Two programs on such a channel can deadlock exactly when they could on one that
  delivers every send at once; dual exchanges and `sync()` calls in any order
  never do, wherever either side flushes or switches async mode.
- `GenWebSocketHeader` writes a proper header if and only if the memory it is
  given has clear rsv bits and, without a key, a clear mask bit. The send buffer
  clears it first, at creation and at every reset.
- A stream that ends inside a frame is always noticed, except in frames of 2^32
  octets or more, when the missing number of octets is a multiple of 2^32.
- `SHA1Update` is right exactly as long as the 32-bit sum of buffered and new
  octets does not wrap.
- Every proxied-call record is freed exactly once, also when a reply arrives
  while its waiter is giving up. But the destructor waits forever if the network
  thread has returned while the sending thread waits for a reply or has a send in
  its queue: it joins the sending thread before it cancels waits. It also waits
  forever if the last error that the receiving thread was told is EAGAIN or EINTR,
  as that thread then repeats its call whenever a wait is cancelled.
- A read of the reordering receiver ends exactly if the peer has closed or all it
  asks for has come without a gap, and returns the octets up to the first missing
  id, as many as it asked for.
- A connection group can have up to 256 connections and no more, because the
  slot is sent as one octet. Up to 256, accepted groups are whole and in order;
  beyond that, nothing is ever accepted.
- Every client can get through as long as no first connection asks while 1023
  numbers are taken. If one does, its search never ends, `accept` cannot free a
  number, and no group is accepted any more.

Both ends are taken to be little-endian machines; the 16 octets of id and length
in front of a payload are in host order.

## Model

| member | source | states |
|---|---|---|
| `Bytes.Ntoh64Loads` | primus/bench/network/ws.cpp:25-27 | loading eight wire octets and applying `ntoh64` yields the big-endian number they spell, through the two swapped 32-bit halves |
| `Bytes.Hton64Stores` | primus/bench/network/ws.cpp:22-27 | storing `hton64(x)` leaves the eight octets of `x` most significant first, for every 64-bit `x` |
| `FrameHeaders.HeaderRoundTrip` | primus/bench/network/ws.cpp:325-348 | for every 64-bit length, optional key and following octets, parsing what generation writes recovers length, mask flag and key, and consumes exactly the header |
| `FrameHeaders.HeaderIsShortest` | primus/bench/network/ws.cpp:331-341 | section 5.2 of RFC 6455: no parseable header with the same length and mask flag is shorter than the generated one |
| `FrameHeaders.HeaderUnique` | primus/bench/network/ws.cpp:325-348 | two generated headers that begin one stream are the same header: the header code is uniquely decodable |
| `FrameHeaders.HeaderOctets` | primus/bench/network/ws.cpp:325-348 | octet by octet: fin and binary opcode, mask bit, the shortest of the three length forms with its octets most significant first, and the key in host order |
| `FrameHeaders.ParseReads` | primus/bench/network/ws.cpp:685-724 | octet by octet, for every stream: how many octets the first two announce, and what length, mask flag and key are read from which of them |
| `FrameHeaders.HeaderIntoCleared` | primus/bench/network/ws.cpp:325-348 | written over memory with first octets `b0`, `b1`, the result is a proper header if and only if the rsv bits were clear and there is a key or the mask bit was clear; hence the callers' zeroing |
| `FrameHeaders.GenWebSocketHeader` | primus/bench/network/ws.cpp:325-348 | in place: the header for the length and key over the old rsv and mask bits, returning its length, every octet behind it untouched |
| `FrameHeaders.DecodeHeader` | primus/bench/network/ws.cpp:685-724 | what the byte-swapping and pointer arithmetic extract from a complete header is exactly what `ParseHeader` reads |
| `FrameHeaders.RecvMessageHeader` | primus/bench/network/ws.cpp:676-728 | for every stream and every way the socket splits it: reports the parse of the stream and consumes exactly the header, or fails with the stream drained when the peer closes inside it |
| `Masking.MaskingIsInvolutive` | primus/bench/network/ws.cpp:455-468 | masking twice with one key gives back the octets |
| `Masking.MaskedWord` | primus/bench/network/ws.cpp:458-460 | xor of one little-endian 32-bit word with the key is, octet by octet, the rule of section 5.3 of RFC 6455 |
| `Masking.XorIsBitwise` | primus/bench/network/ws.cpp:458-466 | the arithmetic exclusive or sets exactly the bits in which its operands differ, for operands of any width |
| `Masking.BitsOf` | primus/bench/network/ws.cpp:458-466 | every number below 2^k is given by k bits, so that law covers every octet and word |
| `Masking.MaskWord` | primus/bench/network/ws.cpp:458-460 | in place: one word at any offset is masked by the octet-wise rule |
| `Masking.MaskSplit` | primus/bench/network/ws.cpp:455-468 | masking up to any word boundary and then the rest with the key restarted is masking the whole |
| `Masking.UnMaskData` | primus/bench/network/ws.cpp:455-468 | for every length: each octet of the range, also the last one to three behind the words, is combined with the key octet of its position mod 4, and every octet outside stays |
| `Masking.WebSocketMessageUnmaskPayload` | primus/bench/network/ws.cpp:230-247 | the same, octet by octet, even where `~3u` cuts a 64-bit length to 32 bits and the octet loop has to do what the word loop leaves |
| `SocketStreams.SocketStream.Refill` | primus/bench/network/ws.h:440-446 | read-ahead followed by the unread stream is conserved; an empty receive means the stream is at its end |
| `SocketStreams.SocketStream.RecvEx` | primus/bench/network/ws.h:430-450 | however the socket splits the stream, delivers exactly the next `nbytes` octets, or all that is left at close, into the right place, and leaves exactly the rest pending |
| `LinkedLists.LinkedList.Append` | primus/bench/network/ws.cpp:636-656 | relinks the list so that its items are the old ones followed by the new one |
| `LinkedLists.LinkedList.PopFront` | primus/bench/network/ws.cpp:657-663 | takes the first item and leaves the others in order; nothing exactly when the list is empty |
| `LinkedLists.LinkedList.InsertSorted` | primus/bench/network/ws.cpp:481-509 | links the chunk in front of the first larger id, behind all others, and keeps every other item |
| `LinkedLists.LinkedList.Take` | primus/bench/network/proxy_client.cpp:112-129 | unlinks the first item with the key wherever it stands, and leaves the list alone when there is none |
| `LinkedLists.LinkedList.TakeSorted` | primus/bench/network/ws.cpp:591-619 | the same result with the early exit at the first larger id, on a sorted list |
| `LinkedLists.PositionMeans` | primus/bench/network/ws.cpp:488-504 | the insertion point: everything before it has a key up to the new one and what stands there has a larger one |
| `LinkedLists.InsertAdds` | primus/bench/network/ws.cpp:481-509 | insertion adds exactly the new item, duplicates included |
| `LinkedLists.InsertKeepsSorted` | primus/bench/network/ws.cpp:481-509 | a sorted list stays sorted |
| `LinkedLists.WithoutKeepsSorted` | primus/bench/network/ws.cpp:591-619 | and stays sorted when an item is unlinked |
| `LinkedLists.AbsentFromSorted` | primus/bench/network/ws.cpp:598-611 | the early exit is right: a larger key before any match means that the id is nowhere in a sorted list |
| `SendBuffers.FrameOctets` | primus/bench/network/ws.h:123-150 | octet by octet: where header, id, length and payload are in a frame, for every id and payload, with id and length as little-endian numbers |
| `SendBuffers.SendBuffer.constructor` | primus/bench/network/ws.h:67-85 | a zeroed buffer of the stated size with an empty payload behind the room for header, id and length |
| `SendBuffers.SendBuffer.TakingIdOf` | primus/bench/network/ws.h:67-84 | an oversize buffer starts from the sender's counter and advances that counter, so that ids stay consecutive |
| `SendBuffers.SendBuffer.Put` | primus/bench/network/ws.h:99-111 | the payload grows by exactly the data, every write in bounds, in place while it fits strictly and in a resized buffer otherwise; the header octets stay clear |
| `SendBuffers.SendBuffer.Resize` | primus/bench/network/ws.h:152-155 | keeps the contents and the cleared header octets |
| `SendBuffers.SendBuffer.SetExtraHeader` | primus/bench/network/ws.h:138-150 | the generated header ends up adjacent to the id, and `packed_offset` points at its start |
| `SendBuffers.SendBuffer.PackedLayout` | primus/bench/network/ws.h:123-150 | overlapping stores and the move leave header, id, length and payload adjacent with no stale octet between them |
| `SendBuffers.SendBuffer.Pack` | primus/bench/network/ws.h:93-97 | `data()`/`size()` is exactly one frame: header, the next id, length, payload; the payload is unchanged |
| `SendBuffers.SendBuffer.Reset` | primus/bench/network/ws.h:118-121 | empties the payload and clears the header octets again |
| `Senders.SendConserves` | primus/bench/network/ws.cpp:350-416 | a call neither loses, reorders nor duplicates an octet: payloads emitted, then what stays buffered, equal what was buffered, then the data; no emitted payload is empty; the counter advances by the frames emitted; a call without data leaves nothing behind |
| `Senders.EmitsOnlyIfFull` | primus/bench/network/ws.cpp:350-380 | a call emits nothing if and only if all fits, strictly, in 32 KiB; 32 KiB or more at once are a frame of their own, last, behind what was buffered |
| `Senders.FramesAppend` | primus/bench/network/ws.cpp:350-416 | the frames of two batches of payloads are those of both: ids go on where they stopped |
| `Senders.FrameIds` | primus/bench/network/ws.h:123-126 | from a fresh counter frame `i` carries id `i + 1`: 1, 2, 3, ... |
| `Senders.CallsAreNumbered` | primus/bench/network/ws.cpp:350-416 | over any sequence of writes and flushes the frames are numbered without a gap, across buffered and oversize frames, and their payloads and what is still buffered are the octets of all calls in order |
| `Senders.FramesOfCut` | primus/bench/network/ws.cpp:358-378 | a call that cannot just buffer emits first the buffered frame and then the oversize one, with the ids in that order |
| `Senders.BufferedFrameIsShort` | primus/bench/network/ws.cpp:312-319 | a frame packed from the 32 KiB buffer has at most four header octets: never the 64-bit length form |
| `Senders.SendMessage` | primus/bench/network/ws.cpp:350-380 | for every state and data: the new sender state, and exactly the frames of the cut appended to the wire |
| `Senders.AsyncSendMessage` | primus/bench/network/ws.cpp:382-416 | the same state and the same frames, appended to the flush queue instead |
| `Senders.AsyncFlushMessage` | primus/bench/network/ws.cpp:418-437 | the oldest queued frame, if any, goes out whole and leaves the queue; the others stay in order |
| `RecvContexts.RecvCtx.PutToRecvCtx` | primus/bench/network/ws.cpp:481-527 | the chunk is in its place; in stream mode the cursor moves to the head if it was not valid and the head is next in line |
| `RecvContexts.RecvCtx.EmptyRecvCtx` | primus/bench/network/ws.cpp:545-556 | true exactly when nothing can be delivered at once, in either mode |
| `RecvContexts.RecvCtx.RecvFromRecvCtx` | primus/bench/network/ws.cpp:557-590 | delivers the front of the current chunk, retires a finished one and looks for the next |
| `RecvContexts.RecvCtx.TakeById` | primus/bench/network/ws.cpp:591-619 | takes the reply with that id out of the sorted stash if and only if it is there; every other reply stays |
| `Receivers.FetchInvertsFrame` | primus/bench/network/ws.cpp:789-824 | whatever follows, the frame that the sender packed is fetched back as its id, length and payload |
| `Receivers.StreamChunkReads` | primus/bench/network/ws.cpp:810-824 | octet by octet: id and length are little-endian numbers at the start of a payload, and the chunk is exactly the octets behind them |
| `Receivers.ReplyIsWhole` | primus/bench/network/ws.cpp:747-763 | a reply is filed with all its octets, under the signed 32-bit number that its first four spell |
| `Receivers.RecvPayload` | primus/bench/network/ws.cpp:810-820 | the payload, unmasked if the header says so; when the stream ends inside it, the reader fails if and only if what came differs from what was announced in the low 32 bits |
| `Receivers.RecvFrame` | primus/bench/network/ws.cpp:799-820 | header, payload and unmasking together fetch the first frame of every stream; without a whole frame the stream is drained and the call fails if and only if the cut is noticed |
| `Receivers.CutsOfLongFramesOnly` | primus/bench/network/ws.cpp:815 | a cut can go unnoticed only inside a frame of 2^32 octets or more, and there it can: an example |
| `Receivers.RecvMessage` | primus/bench/network/ws.cpp:788-825 | the loop over cursor and stream computes `ReadStream` of the old receive state and the old stream: same octets, same state, same rest |
| `Receivers.RecvMessageById` | primus/bench/network/ws.cpp:729-768 | the loop over stash and stream computes `AwaitReply`, and keeps the stash sorted; `ReplyIsWhole` and `AwaitConserves` say what that means for the octets of the replies |
| `InOrderReading.TurnInOrder` | primus/bench/network/ws.cpp:790-824 | one turn behind an in-order wire: enough is at hand, or exactly one frame is fetched, and that only with every fetched octet delivered; the list never holds more than one chunk |
| `InOrderReading.ReadInOrder` | primus/bench/network/ws.cpp:769-827 | a read of `n` octets succeeds if and only if that many are held or on the wire, delivers exactly the next `n`, and fetches no frame that it does not need; failing at the close it has taken all there was |
| `StreamChannels.Step` | primus/bench/network/websocket_io_channel.cpp:195-270 | the transitions of writer, flusher and reader; a call puts its frames one by one, each in a step of its own (no contract of its own: the lemmas below are about it) |
| `StreamChannels.WritesAreKept` | primus/bench/network/websocket_io_channel.cpp:222-227 | the history of what was written is, for every sequence of events, the data of exactly those writes that were made while the sending thread was in no other call |
| `StreamChannels.SendKeeps` | primus/bench/network/websocket_io_channel.cpp:201-226 | the start of a write or flush in either mode keeps: read, undelivered, wire, queue, frames still to be put, and buffer, decoded in that order, are everything written |
| `StreamChannels.PutKeeps` | primus/bench/network/ws.cpp:399-413 | so does every single frame that a call queues or sends, whatever the flusher did since the last one |
| `StreamChannels.FlusherKeeps` | primus/bench/network/websocket_io_channel.cpp:195-199 | so does every step of the flusher thread |
| `StreamChannels.ReadKeeps` | primus/bench/network/ws.cpp:769-827 | and every read at the far end, of any size |
| `StreamChannels.RunKeeps` | primus/bench/network/websocket_io_channel.cpp:195-270 | the invariant holds in every state of every interleaving of writes, flushes, single frames, starts and stops of async mode, flusher steps and reads |
| `StreamChannels.DeliveredIsPrefix` | primus/bench/network/websocket_io_channel.cpp:201-270 | in every interleaving, what the far end was given is a prefix of the data of the writes, in order |
| `StreamChannels.FinishEnds` | primus/bench/network/ws.cpp:382-416 | a call in progress comes to its end by its own steps alone |
| `StreamChannels.FlushSendsAll` | primus/bench/network/websocket_io_channel.h:167-177 | outside async mode, once a flush has put its frames, a read of any size is served exactly if the data of all writes holds that many octets more, and gives the next ones |
| `StreamChannels.StartSendsAll` | primus/bench/network/websocket_io_channel.h:118-124 | starting async mode at any point does the same before the mode is on, so its flusher starts with nothing left to do |
| `StreamChannels.AsyncFlushSendsAll` | primus/bench/network/websocket_io_channel.cpp:195-226 | in async mode the same holds of a flush and a stated number of flusher steps |
| `StreamChannels.FlusherReturns` | primus/bench/network/websocket_io_channel.h:126-139 | a flusher told to stop empties the queue and returns after a stated number of its own steps, so the join ends |
| `StreamChannels.FlusherDrains` | primus/bench/network/websocket_io_channel.cpp:195-199 | while async mode is on, the flusher alone brings the whole queue to the wire, in order |
| `StreamChannels.StopSendsAll` | primus/bench/network/websocket_io_channel.h:126-139 | stopping at any point: a stated number of flusher steps, the join and the last flush later the data of all writes can be read, and async mode is off |
| `Endpoints.CountsMatchSender` | primus/bench/network/ws.cpp:350-416 | the octet counts of the deadlock model are those of the byte-level sender |
| `Endpoints.EmitAdds` | primus/bench/network/websocket_io_channel.cpp:222-229 | a send accounts for every octet as buffered, queued or sent; a flush leaves nothing buffered |
| `Endpoints.OperationsDo` | primus/bench/network/websocket_io_channel.cpp:201-270 | what each operation of a program promises: a flush leaves nothing buffered, a switch does what it says behind a flush, a receive flushes what was sent before it and ends exactly when it has its octets |
| `Endpoints.MoveKeeps` | primus/bench/network/websocket_io_channel.cpp:201-270 | every move of either program or flusher keeps the accounts, and `!has_sent` implies an empty send buffer; after destruction every octet sent is on the wire |
| `Endpoints.RunKeeps` | primus/bench/network/websocket_io_channel.cpp:201-270 | for whole runs, with a bound on their length: nothing goes on forever |
| `Endpoints.RunStops` | primus/bench/network/websocket_io_channel.cpp:242-266 | no run gets past a pair of positions that wait for each other |
| `Endpoints.RunsToTheEnd` | primus/bench/network/websocket_io_channel.cpp:201-270 | every state can be run until no move is left |
| `Endpoints.NoDeadlockIffCompatible` | primus/bench/network/websocket_io_channel.cpp:201-270 | with either end in either send mode, switching it wherever its script says so, every run that can go no further has finished both scripts if and only if no position leaves the two waiting for each other on a channel that delivers every send at once: buffering, flusher threads and the joins add no deadlock and remove none |
| `Endpoints.DirectNeverStuckIff` | primus/bench/network/websocket_io_channel.cpp:201-270 | the same condition characterises, on a channel that delivers every send at once, that only the end stops the two programs |
| `Endpoints.BufferingAddsNoDeadlock` | primus/bench/network/websocket_io_channel.cpp:201-270 | so two programs can get stuck on the buffered channel, with its flusher threads and in any modes, if and only if they can on that simple one |
| `Endpoints.SwitchKeeps` | primus/bench/network/websocket_io_channel.h:118-139 | starting async mode flushes first, stopping it flushes behind the join, and neither loses or adds an octet; in async mode or not, nothing is queued without a flusher |
| `Endpoints.DualIsCompatible` | primus/bench/network/websocket_io_channel.cpp:201-270 | dual scripts meet that condition, so they never deadlock |
| `Endpoints.CompatibleInSequence` | primus/bench/network/websocket_io_channel.cpp:201-270 | compatible scripts can follow each other, whatever the first ones left unread |
| `Endpoints.SyncIsCompatible` | primus/bench/network/websocket_io_channel.h:104-114 | the two sides of `sync()` never wait for each other |
| `Endpoints.SyncKeepsCompatible` | primus/bench/network/websocket_io_channel.h:104-114 | `sync()` behind compatible scripts keeps them compatible |
| `Endpoints.CompatibleIffData` | primus/bench/network/websocket_io_channel.h:118-177 | whether two scripts are compatible depends on their sends and receives alone: flushes, starts and stops of async mode can be put in or left out anywhere |
| `Endpoints.ProtocolsNeverDeadlock` | primus/bench/network/websocket_io_channel.h:104-139 | two programs whose sends and receives are those of dual exchanges and `sync()` calls in any number and order, with flushes and mode switches wherever each likes: no run ends before both are through |
| `ReorderRuns.Step` | primus/bench/network/proxy_client.cpp:870-900 | the transitions of arrivals, close and the receive loop, one lock region each (no contract of its own: the lemmas below are about it) |
| `ReorderRuns.ArrivalsAreKept` | primus/bench/network/ws.cpp:481-527 | the history of arrivals is, for every sequence of events, the first non-empty payload for each id up to the close |
| `ReorderRuns.PutBehind` | primus/bench/network/ws.cpp:481-527 | an arrival behind a valid cursor changes nothing that was delivered or is next |
| `ReorderRuns.PutWhileInvalid` | primus/bench/network/ws.cpp:510-527 | an arrival with the cursor invalid makes it valid exactly if it is the awaited id |
| `ReorderRuns.ReadRest` | primus/bench/network/ws.cpp:567-588 | finishing a chunk completes its id and moves the cursor on exactly if the next id is queued |
| `ReorderRuns.RunKeeps` | primus/bench/network/ws.cpp:481-590 | the class invariant in every run: strictly sorted list, every id above `prev_id`, cursor in the head iff the head is next, and what was delivered is the payloads of ids 1 to `prev_id` and the part of the next one |
| `ReorderRuns.CursorIsExact` | primus/bench/network/ws.cpp:510-526 | in every run the cursor is valid if and only if id `prev_id + 1` is queued |
| `ReorderRuns.DeliveredInIdOrder` | primus/bench/network/ws.cpp:557-590 | for every order of arrival and all read sizes, delivered octets are a prefix of the payloads in id order, up to the first missing id |
| `ReorderRuns.ShortOnlyAfterDrain` | primus/bench/network/proxy_client.cpp:882-900 | a receive returns short only after the close and with every contiguous octet delivered; the loop reads the cursor only when it is valid, and each such read makes progress |
| `ReorderRuns.CallEndsIff` | primus/bench/network/proxy_client.cpp:882-900 | in every run: with no more chunks coming a call ends if and only if the peer has closed or all it asks for has come without a gap; it then takes at most one pass more than chunks are queued, and returns exactly the next octets up to the first missing id, as many as it asked for |
| `ReorderRuns.CallReturns` | primus/bench/network/proxy_client.cpp:882-900 | the same for a whole call from its start, by the number of octets it asks for |
| `ReorderRuns.CloseEndsCall` | primus/bench/network/proxy_client.cpp:891-899 | at the close a pass with the cursor invalid is the last, and the call returns what it has |
| `Demultiplexers.FetchInvertsReply` | primus/bench/network/ws.cpp:737-763 | a framed reply, masked or not, is fetched as what the server sent |
| `Demultiplexers.AnsweredMeans` | primus/bench/network/ws.cpp:735-763 | there is a reply to a call if and only if one is stashed under its id or one on the wire starts with it |
| `Demultiplexers.AwaitConserves` | primus/bench/network/ws.cpp:729-768 | a wait succeeds if and only if there is such a reply; the octets of the one returned, those stashed and those still on the wire are, as a multiset, the octets stashed before and those the server sent; what is returned starts with the id asked for |
| `Demultiplexers.EveryCallGetsItsReply` | primus/bench/network/proxy_client.cpp:234-260 | calls with distinct ids, served in any order, get the replies that start with their ids, whole; no reply is lost, cut, duplicated or handed to another call |
| `Sha1Code.SwapMakesBigEndian` | primus/bench/network/sha1.cpp:33-34 | the rotated and masked little-endian load is the big-endian word of the specification |
| `Sha1Code.RoundFunctions` | primus/bench/network/sha1.cpp:46-57 | the choice and majority expressions of the macros are the functions of section 4.1.1 of FIPS 180-4 |
| `Sha1Code.Slots` | primus/bench/network/sha1.cpp:40-43 | slot arithmetic modulo 16: where word `t` goes, and that words up to 16 back are still there |
| `Sha1Code.MixIsNextWord` | primus/bench/network/sha1.cpp:40-43 | the four slots that `blk` reads hold the words 3, 8, 14 and 16 back, so it computes the next word of the 80-word schedule |
| `Sha1Code.Blk0` | primus/bench/network/sha1.cpp:33-34 | swapping in place on first use makes the block hold one schedule word more |
| `Sha1Code.Blk` | primus/bench/network/sha1.cpp:40-43 | replacing the oldest word does the same for the words from 16 on |
| `Sha1Code.MacroIsRound` | primus/bench/network/sha1.cpp:46-60 | the new `z` and `w`, with the names rotated, are one round of section 6.1.2 of FIPS 180-4 |
| `Sha1Code.R0` | primus/bench/network/sha1.cpp:46-48 | rounds 0-15 advance the specification's working variables by one round |
| `Sha1Code.R1` | primus/bench/network/sha1.cpp:49-51 | so do rounds 16-19 |
| `Sha1Code.R2` | primus/bench/network/sha1.cpp:52-54 | so do rounds 20-39 |
| `Sha1Code.R3` | primus/bench/network/sha1.cpp:55-57 | so do rounds 40-59 |
| `Sha1Code.R4` | primus/bench/network/sha1.cpp:58-60 | so do rounds 60-79 |
| `Sha1Code.Rounds0To19` | primus/bench/network/sha1.cpp:91-110 | twenty unrolled rounds with their permuted arguments are rounds 0-19, names back in place |
| `Sha1Code.Rounds20To39` | primus/bench/network/sha1.cpp:111-130 | rounds 20-39 |
| `Sha1Code.Rounds40To59` | primus/bench/network/sha1.cpp:131-150 | rounds 40-59 |
| `Sha1Code.Rounds60To79` | primus/bench/network/sha1.cpp:151-170 | rounds 60-79 |
| `Sha1Code.SHA1Transform` | primus/bench/network/sha1.cpp:64-182 | for every state and block, the compression function with the 80-word schedule |
| `Sha1Code.CountAdds` | primus/bench/network/sha1.cpp:203-206 | the carry test and the two shifts add 8 times the length modulo 2^64 |
| `Sha1Code.CountOfBuffered` | primus/bench/network/sha1.cpp:207 | bits 3 to 8 of the count are the number of buffered octets |
| `Sha1Code.Sha1Ctx.HashFull` | primus/bench/network/sha1.cpp:208-214 | fills the buffer, hashes it and then every whole block that follows |
| `Sha1Code.Sha1Ctx.HashWhole` | primus/bench/network/sha1.cpp:211-213 | the loop hashes exactly the whole blocks, and its 32-bit test never wraps |
| `Sha1Code.Sha1Ctx.SHA1Update` | primus/bench/network/sha1.cpp:198-218 | a context that stands for `m` stands for `m + data` afterwards: whole blocks hashed, remainder buffered, bits counted; for all lengths for which the 32-bit `j + len` is exact |
| `Sha1Code.WrappedSumOverruns` | primus/bench/network/sha1.cpp:208 | for all other lengths the test takes the data for what the buffer has room for, and it is not |
| `Sha1Code.ChunkingDoesNotMatter` | primus/bench/network/sha1.cpp:198-218 | two contexts that were given the same message, cut in whatever way, agree in state, count and buffered octets |
| `Sha1Code.Sha1Ctx.FinalCount` | primus/bench/network/sha1.cpp:246-250 | the eight octets are the big-endian bit length modulo 2^64 |
| `Sha1Spec.LengthSpellsBits` | primus/bench/network/sha1.cpp:246-250 | the length field spells the bit count modulo 2^64, most significant octet first |
| `Sha1Spec.PaddingIsLeast` | primus/bench/network/sha1.cpp:252-258 | section 5.1.1 of FIPS 180-4: the padding ends on a block boundary and its number of zero bits is the least that does |
| `Sha1Code.PaddingStops` | primus/bench/network/sha1.cpp:254 | the loop test stops after exactly that many zero octets |
| `Sha1Code.Sha1Ctx.FeedZeros` | primus/bench/network/sha1.cpp:254-257 | the loop ends, having fed exactly those zeros |
| `Sha1Code.Sha1Ctx.Pad` | primus/bench/network/sha1.cpp:252-258 | 0x80, zeros and length: the state is then the specification's hash of the padded message |
| `Sha1Code.DigestAt` | primus/bench/network/sha1.cpp:259-261 | octet `i` of the digest comes from the word and shift that the loop uses |
| `Sha1Spec.DigestSpellsWords` | primus/bench/network/sha1.cpp:259-261 | the digest spells the five words of the state in order, each as a big-endian word |
| `Sha1Code.Sha1Ctx.SHA1Final` | primus/bench/network/sha1.cpp:222-265 | the digest of everything fed equals the one-shot specification, and state, count and buffer are wiped |
| `Sha1Code.SHA1` | primus/bench/network/sha1.cpp:267-276 | the octet-at-a-time loop yields the one-shot digest of the first `len` octets, terminated by 0 |
| `KnownAnswers.Sha1OfAbc` | primus/bench/network/sha1.cpp:7-8 | the hash of "abc" is A9993E36 4706816A BA3E2571 7850C26C 9CD0D89D, through all 80 rounds: constants, octet orders and padding are those of the standard |
| `KnownAnswers.HelloFetched` | primus/bench/network/ws.cpp:789-820 | the masked frame of section 5.7 of RFC 6455 is fetched as "Hello" |
| `KnownAnswers.BinaryHeaders` | primus/bench/network/ws.cpp:325-348 | the headers of that section for binary messages of 256 octets and of 64 KiB |
| `ProxyClients.ErrorReplyAnswers` | primus/bench/network/proxy_client.cpp:147-152 | the substitute for a reply without a whole header carries the id of the call that was waited for |
| `ProxyClients.ErrorReplyFails` | primus/bench/network/proxy_client.cpp:147-152 | the substitute is an error to the receiving thread, to be repeated if the errno in it is 4 or 11 |
| `ProxyClients.ReplyIdReads` | primus/bench/network/proxy_client.cpp:154-156 | the call id is the signed little-endian number in the first four octets |
| `ProxyClients.ResultReads` | primus/bench/network/proxy_client.cpp:324-329 | a reply says exactly one thing, by its fields at octets 4 and 8: data if the result is positive, the close if it is 0, otherwise an error, to be repeated if it is -1 with errno 4 or 11 |
| `ProxyClients.ProxyClientCtx.AllocateCallResult` | primus/bench/network/proxy_client.cpp:83-104 | a new record with an id of its own, last in the list; carries out the step `Allocate` of `CallRecords` |
| `ProxyClients.ProxyClientCtx.PutToSendProxyCtx` | primus/bench/network/proxy_client.cpp:816-831 | the send is last in the queue of the sending thread; carries out `Enqueue` |
| `ProxyClients.ProxyClientCtx.GetFromSendProxyCtx` | primus/bench/network/proxy_client.cpp:833-846 | sends are waited for in the order in which they were queued, and nothing is returned exactly when the queue is empty; carries out `Dequeue` |
| `ProxyClients.ProxyClientCtx.PutCallId` | primus/bench/network/proxy_client.cpp:263-279 | the id joins the queue; carries out `StartWait` |
| `ProxyClients.ProxyClientCtx.EndWait` | primus/bench/network/proxy_client.cpp:213-221 | tells whether the call completed, and marks it given up if not, which ends the receiving thread unless its errno makes it repeat; carries out `EndWait` |
| `ProxyClients.ProxyClientCtx.FreeCallResult` | primus/bench/network/proxy_client.cpp:742-756 | the caller of a completed call reads the reply to that call, and by its result and errno fields the receiving thread goes on, leaves, or has to repeat; carries out `Finish` |
| `ProxyClients.ProxyClientCtx.NextCallId` | primus/bench/network/proxy_client.cpp:236-246 | call ids are served in the order in which the waits began; carries out `TakeId` |
| `ProxyClients.ProxyClientCtx.PopCallResult` | primus/bench/network/proxy_client.cpp:112-129 | unlinks the record of that call if there is one, all others stay; for the reply waited for it carries out `TakeReply` |
| `ProxyClients.ProxyClientCtx.StoreReply` | primus/bench/network/proxy_client.cpp:169-179 | the reply is in the record, and the assertion on the flag holds; carries out `FillData` |
| `ProxyClients.ProxyClientCtx.CompleteCall` | primus/bench/network/proxy_client.cpp:181-188 | completes the call, or has the record freed if its waiter gave up; carries out `Complete` |
| `ProxyClients.ProxyClientCtx.BridgeSocketOnMessage` | primus/bench/network/proxy_client.cpp:146-191 | for every reply of any length, short, unmatched or as expected: which record it meets and what becomes of it, no other record touched; the comparison with the expected length is that of its low 32 bits as a signed number; the expected reply always meets its record, and unless too short carries out `TakeReply`, `FillData` and `Complete` |
| `ProxyClients.ProxyClientCtx.CancelWaits` | primus/bench/network/proxy_client.cpp:224-228 | waits are cancelled; carries out the destructor's step behind the join of the sending thread |
| `ProxyClients.ProxyClientCtx.PopAllCallResults` | primus/bench/network/proxy_client.cpp:131-144 | frees exactly the records in the list, in order; carries out the destructor's last step |
| `NetworkThreads.AwaitAnswers` | primus/bench/network/ws.cpp:729-768 | as long as every stashed reply is filed under the sign-extended id it starts with, so is every reply stashed during a wait, and the one found starts with the id that was asked for |
| `NetworkThreads.AnswersCall` | primus/bench/network/proxy_client.cpp:146-156 | the header of that reply, or of the error that stands in for a short one, names the call that was waited for |
| `NetworkThreads.ProcessNetworkPass` | primus/bench/network/proxy_client.cpp:234-260 | one pass of the loop over stash and wire: no call, no reply, or the reply to the call whose id was taken meets that call's record, and the pass is `TakeId`, `TakeReply`, `FillData`, `Complete`; the stash stays right |
| `CallRecords.Step` | primus/bench/network/proxy_client.cpp:83-345 | the transitions of client, sending, receiving and network thread, the sending thread's queue, cancellation and destructor, one lock region each (no contract of its own: the lemmas below are about it) |
| `CallRecords.EnqueueKeeps` | primus/bench/network/proxy_client.cpp:693-712 | queueing a send, once its request is out, keeps the ownership invariant: no send is queued twice, and what is queued is still to be answered |
| `CallRecords.DequeueKeeps` | primus/bench/network/proxy_client.cpp:305-310 | so does the sending thread when it takes the oldest send |
| `CallRecords.TakeIdKeeps` | primus/bench/network/proxy_client.cpp:236-246 | the network thread may take an id and receive while waits end and calls begin |
| `CallRecords.TakeKeeps` | primus/bench/network/proxy_client.cpp:156-161 | every reply the network thread takes finds its record in the list |
| `CallRecords.EndWaitKeeps` | primus/bench/network/proxy_client.cpp:213-221 | leaving a wait, completed or given up, leaves every record with exactly one party that frees it |
| `CallRecords.CompleteKeeps` | primus/bench/network/proxy_client.cpp:181-188 | so does completing a call whose waiter may have given up in between |
| `CallRecords.SweepKeeps` | primus/bench/network/proxy_client.cpp:131-144 | the records still in the list when all threads are joined are nobody else's |
| `CallRecords.RunKeeps` | primus/bench/network/proxy_client.cpp:83-345 | the ownership invariant in every run |
| `CallRecords.NeverUsedAfterFree` | primus/bench/network/proxy_client.cpp:83-261 | in no run is a record used, be it by walking the list or by looking at its flag in a wait, after it was freed, or freed twice; no assertion of the code fails, and a caller told that its call completed reads the reply to that very call |
| `CallRecords.FreedExactlyOnce` | primus/bench/network/proxy_client.cpp:788-815 | once the destructor is through, every record ever allocated was freed exactly once |
| `CallRecords.OneCallEach` | primus/bench/network/proxy_client.cpp:305-345 | in every run the sending thread waits for one send at a time, and the receiving thread for one reply |
| `CallRecords.NetworkServesAll` | primus/bench/network/proxy_client.cpp:234-255 | in every run in which no receive fails, the network thread returns only at the end and with no call id left in its queue |
| `CallRecords.BlockedForever` | primus/bench/network/proxy_client.cpp:788-800 | no continuation ends the destructor if the network thread has returned while, before waits are cancelled, the client or its sending thread needs a reply, be it to a send still in the queue, or while the receiving thread repeats its call because its errno says so |
| `CallRecords.QueuedSendBlocks` | primus/bench/network/proxy_client.cpp:788-793 | an instance: after the receiving thread's first reply failed to come (`ReplyIsLost`), one send queued is enough |
| `CallRecords.DestructorEndsIffNotBlocked` | primus/bench/network/proxy_client.cpp:788-815 | a run can be continued until the destructor is through if and only if it is not in one of these situations |
| `PortMaps.TestIsBit` | primus/bench/network/io_manager.cpp:18 | the test of the shifted mask is the test of that bit |
| `PortMaps.BitsAfter` | primus/bench/network/io_manager.cpp:19-34 | setting and clearing through `|=` and `&= ~` change that bit and no other |
| `PortMaps.PortMap.GetUnusedPort` | primus/bench/network/io_manager.cpp:12-28 | for every bitmap and any number of turns of the loop: a number is found if and only if one of that many next numbers is free; it is then free, in 1..1023, every number from the cursor up to it, around the end, is taken, exactly it is added to the set, and the cursor stands behind it. One cyclic sweep is enough if any number is free; if none is, no number of turns is |
| `PortMaps.PortMap.FreeUsedPort` | primus/bench/network/io_manager.cpp:30-35 | takes exactly that number out of the set, undoing the allocation |
| `Rendezvous.Step` | primus/bench/network/io_manager.cpp:120-285 | the transitions of clients, server threads and the accepting thread, one lock region or message each; a search that finds nothing keeps `port_mtx`, and an `accept` that then wants to free a number keeps `io_map_mtx` (no contract of its own: the lemmas below are about it) |
| `Rendezvous.AllocateKeeps` | primus/bench/network/io_manager.cpp:131 | only a client's first connection takes a number, and it is no live group's |
| `Rendezvous.LiveUntilJoined` | primus/bench/network/io_manager.cpp:146-147 | when a connection is filed, its number is live and the group under it is its client's own |
| `Rendezvous.FiledGroup` | primus/bench/network/io_manager.cpp:147-161 | filing writes in range and marks the group with one more null exactly when it is complete |
| `Rendezvous.AcceptKeeps` | primus/bench/network/io_manager.cpp:202-221 | accepting takes a complete group of one client out and releases its number, or waits for ever for a search to end |
| `Rendezvous.RunKeeps` | primus/bench/network/io_manager.cpp:120-285 | the invariant in every run with up to 256 connections a client |
| `Rendezvous.AcceptedGroupsAreWhole` | primus/bench/network/io_manager.cpp:202-226 | in every run each accepted group is all `num` connections of one client, slot `i` its `i`-th, no client twice; no write misses its group; no number is 0 |
| `Rendezvous.NumbersInTurn` | primus/bench/network/io_manager.cpp:22-24 | in every run the cursor stands behind the number taken last, from 1 to 1023 and around again |
| `Rendezvous.LiveNumbersAreDistinct` | primus/bench/network/io_manager.cpp:120-167 | clients whose groups were not accepted yet never share a number, and a number that a client has learnt is its own and still taken |
| `Rendezvous.AcceptFindsFullGroups` | primus/bench/network/io_manager.cpp:205-206 | a client whose connections are all filed has its own group accepted, or under its number whole and large enough for `accept` |
| `Rendezvous.GetsThrough` | primus/bench/network/io_manager.cpp:256-285 | while nobody searches in vain, a client that has a number, or finds one free, gets its whole group accepted by its own steps and those of `accept` |
| `Rendezvous.EveryClientGetsThrough` | primus/bench/network/io_manager.cpp:120-285 | from every state of every run in which nobody searches in vain each client can get its whole group accepted, without another client being added; also with all numbers taken |
| `Rendezvous.SearchingForever` | primus/bench/network/io_manager.cpp:12-35 | once a search finds no number free, nothing is ever accepted again |
| `Rendezvous.GetsThroughIffNoneSearches` | primus/bench/network/io_manager.cpp:120-285 | in every state of every run: the group of a client can still be accepted if and only if it was already, or nobody searches in vain |
| `Rendezvous.SearchesIffAskedWhenFull` | primus/bench/network/io_manager.cpp:12-28 | somebody searches in vain if and only if a first connection asked while 1023 numbers were taken: what a caller has to avoid, and all of it |
| `Rendezvous.GetsThroughIffNoneAskedWhenFull` | primus/bench/network/io_manager.cpp:12-285 | both together, by the events of the run alone: a client can still get through if and only if it did already, or no first connection asked while 1023 numbers were taken |
| `Rendezvous.SlotsAreDistinctIff` | primus/bench/network/io_manager.cpp:311 | `uint8_t has_number = i` tells a client's connections apart if and only if there are at most 256 |
| `Rendezvous.TooManyNeverMeet` | primus/bench/network/io_manager.cpp:146-147 | with more than 256 connections no run ever accepts anything |

## Left out

- Senders.SendMessage: sends are complete and succeed; failing or partial sends and the negative return values are not modelled. Writes are limited to 2^61 octets, where the 64-bit size arithmetic cannot wrap.
- SendBuffers.SendBuffer.Put: the same limit on sizes; allocation does not fail. `ENABLE_MASK` is 0, as the source sets it, so senders do not mask.
- Receivers.RecvMessage: every complete frame is taken to hold an id, a length and at least that many octets, and a cut to be noticed (`StreamFramed`). The code does not look: with less it would read behind the frame. Memory for a payload is always found.
- Receivers.RecvMessageById: likewise every reply is taken to hold at least its call id (`ReplyFramed`).
- InOrderReading.ReadInOrder: a read of 0 octets with nothing at hand waits for a frame, as the code does.
- RecvContexts.RecvCtx.RecvFromRecvCtx: the cursor holds a copy of its chunk's payload where the code keeps a pointer into the chunk; that the two stay the same is the invariant of `ReorderRuns`, not aliasing.
- ReorderRuns.Step: chunks have ids of their own, from 1 on, and non-empty payloads, as the sending side guarantees; the counter does not wrap within a run.
- Endpoints.NoDeadlockIffCompatible: receives ask for at least one octet; a receive of 0 octets with nothing at hand would wait for a frame. A call is one move, because a program inside it waits for nobody.
- Sha1Code.Sha1Ctx.SHA1Update: lengths for which `j + len` wraps, where the code would overrun its buffer (`WrappedSumOverruns`). Clearing the local copies of a block is not modelled.
- ProxyClients.ProxyClientCtx.BridgeSocketOnMessage: an unmatched reply and one shorter than the call expects are reported where the code asserts; what a build without assertions does with the record afterwards is not followed.
- CallRecords.Step: the native build only; one reply for each call, as long as the call expects. Call ids do not wrap. Threads start as `connect3` starts them, sends follow it, and the destructor follows the client's last call. Exceptions end calls of the client before the request is out; in the receiving thread one would end the program. Only replies change the errno of the receiving thread, and EINTR and EAGAIN are 4 and 11, as on Linux.
- NetworkThreads.ProcessNetworkPass: one pass; the loop around it is the network thread of `CallRecords.Run`. After a reply shorter than the call expects nothing is said about the records.
- PortMaps.PortMap.GetUnusedPort: the loop is cut off after a given number of turns, for every such number; that a search without a free number keeps its lock is the event `Search` of `Rendezvous`.
- Rendezvous.Step: runs without expiry of groups and without connection errors; client and server use the same number of connections, as both compute it with `get_pado_io_num`.
- Locks and condition variables: a region under a lock is one step, and a wait is a step that is not yet possible. The unlocked reads of `async` and of the completion flag are taken as atomic.
- `clear_pado_io` and `check_exception_frequency`: expiry and rate limiting by the clock.
- Sockets, TLS (`SSLStream`, `SSLClient`), DNS, `FileStream`, time-outs, timing and performance counters: foreign calls. A stream of octets that arrives in arbitrary pieces stands for them.
- `WebSocketHasFullHeader` and the other helpers around it: used by nothing that is modelled.
- `base64_encode` and the handshake messages: a table lookup and string formatting around the hash that is modelled.
- The Emscripten branches, and `primus/bench/zk_tls`: calls into code that is not in the repository.
