/** Cutting a byte stream into frames, sent directly or queued for the flusher. */
module Senders {
  import opened Bytes
  import opened LinkedLists
  import opened SocketStreams
  import opened SendBuffers

  /** Payload room of the sender's buffer. */
  const ROOM: nat := 32 * 1024

  /** What a sender remembers between calls: the last frame id used and the unsent payload. */
  datatype SendState = SendState(id: u64, pending: seq<byte>)

  /** The data fits behind what is buffered, strictly, and the call ends there. */
  predicate Buffers(s: SendState, data: seq<byte>) {
    data != [] && |s.pending| + |data| < ROOM
  }

  /** The payloads of the frames that a call with `data` emits; no data means flush. */
  function Cut(s: SendState, data: seq<byte>): (payloads: seq<seq<byte>>) {
    if Buffers(s, data) then []
    else (if s.pending != [] then [s.pending] else []) + (if |data| >= ROOM then [data] else [])
  }

  function After(s: SendState, data: seq<byte>): SendState {
    if Buffers(s, data) then s.(pending := s.pending + data)
    else SendState(Advance(s.id, |Cut(s, data)|), if |data| < ROOM then data else [])
  }

  /** The counter after `n` more frames. */
  function Advance(id: u64, n: nat): u64 {
    (id + n) % 0x1_0000_0000_0000_0000
  }

  /** The frames that carry the payloads, with the ids that follow `id`. */
  function Frames(id: u64, payloads: seq<seq<byte>>): (r: seq<seq<byte>>)
    ensures |r| == |payloads|
    decreases payloads
  {
    if payloads == [] then []
    else [Frame(NextId(id), payloads[0])] + Frames(NextId(id), payloads[1..])
  }

  predicate Bounded(payloads: seq<seq<byte>>) {
    forall i :: 0 <= i < |payloads| ==> |payloads[i]| <= MAX_SIZE
  }

  /** Frame `i` carries payload `i` and the `i + 1`st id after `id`: from the start 1, 2, 3, ... */
  lemma {:induction false} FrameIds(id: u64, payloads: seq<seq<byte>>, i: nat)
    requires i < |payloads|
    ensures Frames(id, payloads)[i] == Frame(Advance(id, i + 1), payloads[i])
    decreases payloads
  {
    hide Frame, Advance, NextId;
    AdvanceTwice(id, 0, 1);
    if i > 0 {
      AdvanceNext(id, i);
      FrameIds(NextId(id), payloads[1..], i - 1);
    }
  }

  lemma {:induction false} FramesAppend(id: u64, a: seq<seq<byte>>, b: seq<seq<byte>>)
    ensures Frames(id, a + b) == Frames(id, a) + Frames(Advance(id, |a|), b)
    decreases a
  {
    AdvanceTwice(id, 0, 0);
    if a == [] {
      assert a + b == b;
      assert Frames(id, a) == [];
    } else {
      var next, t := NextId(id), a[1..];
      AdvanceNext(id, |t|);
      FramesAppend(next, t, b);
      assert (a + b)[0] == a[0] && (a + b)[1..] == t + b;
      assert Frames(id, a + b) == [Frame(next, a[0])] + Frames(next, t + b);
    }
  }

  lemma AdvanceNext(id: u64, n: nat)
    ensures Advance(NextId(id), n) == Advance(id, n + 1)
  {
  }

  lemma AdvanceTwice(id: u64, m: nat, n: nat)
    ensures Advance(Advance(id, m), n) == Advance(id, m + n)
    ensures Advance(id, 0) == id && Advance(id, 1) == NextId(id)
  {
  }

  /** A call neither loses, reorders nor duplicates octets, and a flush leaves nothing behind. */
  lemma SendConserves(s: SendState, data: seq<byte>)
    requires |s.pending| < ROOM
    ensures Flatten(Cut(s, data)) + After(s, data).pending == s.pending + data
    ensures |After(s, data).pending| < ROOM
    ensures After(s, data).id == Advance(s.id, |Cut(s, data)|)
    ensures data == [] ==> After(s, data).pending == []
    ensures forall i :: 0 <= i < |Cut(s, data)| ==> Cut(s, data)[i] != []
    ensures |data| <= MAX_SIZE ==> Bounded(Cut(s, data))
  {
    if !Buffers(s, data) {
      var a := if s.pending != [] then [s.pending] else [];
      var b := if |data| >= ROOM then [data] else [];
      FlattenAppend(a, b);
      FlattenOne(s.pending);
      FlattenOne(data);
      assert Flatten(a) == s.pending;
      assert Flatten(b) == if |data| >= ROOM then data else [];
    }
  }

  /** Nothing is emitted exactly as long as all fits, strictly, in 32 KiB; more than that at once is a frame of its own. */
  lemma EmitsOnlyIfFull(s: SendState, data: seq<byte>)
    requires |s.pending| < 32768
    ensures Cut(s, data) == [] <==> |s.pending| + |data| < 32768 && (data != [] || s.pending == [])
    ensures |Cut(s, data)| == 2 <==> s.pending != [] && |data| >= 32768
    ensures |data| >= 32768 ==> Cut(s, data)[|Cut(s, data)| - 1] == data
    ensures Cut(s, data) != [] && s.pending != [] ==> Cut(s, data)[0] == s.pending
  {
  }

  lemma Associative<T>(a: seq<T>, b: seq<T>, c: seq<T>)
    ensures (a + b) + c == a + (b + c)
  {
  }

  /** The sender after a sequence of calls. */
  function AfterCalls(s: SendState, calls: seq<seq<byte>>): SendState
    decreases calls
  {
    if calls == [] then s else AfterCalls(After(s, calls[0]), calls[1..])
  }

  /** The frames a sequence of calls emits, call by call. */
  function FramesOfCalls(s: SendState, calls: seq<seq<byte>>): seq<seq<byte>>
    decreases calls
  {
    if calls == [] then [] else Frames(s.id, Cut(s, calls[0])) + FramesOfCalls(After(s, calls[0]), calls[1..])
  }

  /**
   Over any sequence of writes and flushes the frames are numbered without a
   gap, across buffered and oversize frames, and their payloads and what is
   still buffered are the octets of all calls in order.
   */
  lemma {:induction false} CallsAreNumbered(s: SendState, calls: seq<seq<byte>>) returns (payloads: seq<seq<byte>>)
    requires |s.pending| < ROOM
    ensures FramesOfCalls(s, calls) == Frames(s.id, payloads)
    ensures AfterCalls(s, calls).id == Advance(s.id, |payloads|) && |AfterCalls(s, calls).pending| < ROOM
    ensures Flatten(payloads) + AfterCalls(s, calls).pending == s.pending + Flatten(calls)
    decreases calls
  {
    hide Cut, After, Advance, Frames;
    if calls == [] {
      payloads := [];
      AdvanceTwice(s.id, 0, 0);
      NothingFramed(s.id);
    } else {
      var cut, t := Cut(s, calls[0]), After(s, calls[0]);
      SendConserves(s, calls[0]);
      var rest := CallsAreNumbered(t, calls[1..]);
      payloads := cut + rest;
      FramesAppend(s.id, cut, rest);
      AdvanceTwice(s.id, |cut|, |rest|);
      FlattenAppend(cut, rest);
      var end := AfterCalls(t, calls[1..]).pending;
      Associative(Flatten(cut), Flatten(rest), end);
      Associative(Flatten(cut), t.pending, Flatten(calls[1..]));
      Associative(s.pending, calls[0], Flatten(calls[1..]));
    }
  }

  lemma NothingFramed(id: u64)
    ensures Frames(id, []) == [] && Flatten([]) == []
  {
  }

  /** The sender once what was buffered is on its way. */
  function Flushed(s: SendState): SendState {
    if s.pending == [] then s else SendState(NextId(s.id), [])
  }

  function FlushFrames(s: SendState): seq<seq<byte>> {
    if s.pending == [] then [] else [Frame(NextId(s.id), s.pending)]
  }

  function OversizeFrames(id: u64, data: seq<byte>): seq<seq<byte>> {
    if |data| < ROOM then [] else [Frame(NextId(id), data)]
  }

  /** A call that does not just buffer emits what was buffered, and then the data if it is large. */
  lemma FramesOfCut(s: SendState, data: seq<byte>)
    requires !Buffers(s, data)
    ensures Frames(s.id, Cut(s, data)) == FlushFrames(s) + OversizeFrames(Flushed(s).id, data)
    ensures After(s, data) == if |data| < ROOM then SendState(Flushed(s).id, data) else SendState(NextId(Flushed(s).id), [])
  {
    AdvanceTwice(s.id, 0, 0);
    AdvanceNext(s.id, 1);
    AdvanceTwice(NextId(s.id), 0, 0);
    if s.pending != [] {
      assert Frames(s.id, [s.pending]) == [Frame(NextId(s.id), s.pending)];
      if |data| >= ROOM {
        assert ([s.pending] + [data])[1..] == [data];
        assert Frames(NextId(s.id), [data]) == [Frame(NextId(NextId(s.id)), data)];
      }
    } else if |data| >= ROOM {
      assert [] + [data] == [data];
      assert Frames(s.id, [data]) == [Frame(NextId(s.id), data)];
    }
  }

  /** A frame packed from the sender's own buffer never takes the 64-bit length form. */
  lemma BufferedFrameIsShort(id: u64, payload: seq<byte>)
    requires |payload| < ROOM
    ensures |Frame(id, payload)| <= 4 + 16 + |payload|
  {
  }

  class SendCtx {
    const buffer: SendBuffer
    const flush: LinkedList<seq<byte>>
    var async: bool

    ghost predicate Valid()
      reads buffer, buffer.buffer
    {
      && buffer.Valid() && buffer.Cleared()
      && buffer.bufferSize == BODY + ROOM
      && |buffer.Payload()| < ROOM
    }

    ghost function State(): SendState
      requires buffer.Valid()
      reads buffer, buffer.buffer
    {
      SendState(buffer.sendId, buffer.Payload())
    }

    constructor ()
      ensures Valid() && flush.Valid() && fresh(buffer) && fresh(buffer.buffer) && fresh(flush) && flush.repr == {}
      ensures State() == SendState(0, []) && flush.Items() == [] && !async
    {
      buffer := new SendBuffer(ROOM);
      flush := new LinkedList();
      async := false;
    }
  }

  /** Packs and clears the buffer; its frame is left to the caller. */
  method TakeFrame(ctx: SendCtx) returns (frame: seq<byte>)
    requires ctx.Valid()
    modifies ctx.buffer, ctx.buffer.buffer
    ensures ctx.Valid() && ctx.buffer.buffer == old(ctx.buffer.buffer)
    ensures frame == Frame(NextId(old(ctx.State()).id), old(ctx.State()).pending)
    ensures ctx.State() == SendState(NextId(old(ctx.State()).id), [])
  {
    ctx.buffer.Pack();
    frame := ctx.buffer.Data();
    ctx.buffer.Reset();
  }

  /** Packs data that the buffer has no room for into a frame of its own. */
  method OversizeFrame(ctx: SendCtx, data: seq<byte>) returns (frame: seq<byte>)
    requires ctx.Valid() && 0 < |data| <= MAX_SIZE
    modifies ctx.buffer`sendId
    ensures ctx.Valid()
    ensures frame == Frame(NextId(old(ctx.State()).id), data)
    ensures ctx.State() == SendState(NextId(old(ctx.State()).id), old(ctx.State()).pending)
  {
    var tmp := new SendBuffer.TakingIdOf(|data|, ctx.buffer);
    tmp.Put(data);
    assert tmp.Payload() == data;
    tmp.Pack();
    frame := tmp.Data();
  }

  /** Buffers the data, or sends what is buffered first and then the data if it is large. */
  method SendMessage(ctx: SendCtx, data: seq<byte>, stream: SocketStream)
    requires ctx.Valid() && |data| <= MAX_SIZE
    modifies ctx.buffer, ctx.buffer.buffer, stream`sent
    ensures ctx.Valid() && ctx.buffer.buffer == old(ctx.buffer.buffer)
    ensures ctx.State() == After(old(ctx.State()), data)
    ensures stream.sent == old(stream.sent) + Flatten(Frames(old(ctx.State()).id, Cut(old(ctx.State()), data)))
  {
    ghost var s, was := ctx.State(), stream.sent;
    if |data| > 0 && ctx.buffer.CanPut(|data|) {
      ctx.buffer.Put(data);
      return;
    }
    SendBuffered(ctx, stream);
    PutOrSend(ctx, data, stream);
    FramesOfCut(s, data);
    FlattenAppend(FlushFrames(s), OversizeFrames(Flushed(s).id, data));
    Associative(was, Flatten(FlushFrames(s)), Flatten(OversizeFrames(Flushed(s).id, data)));
  }

  /** Sends what is buffered, if anything. */
  method SendBuffered(ctx: SendCtx, stream: SocketStream)
    requires ctx.Valid()
    modifies ctx.buffer, ctx.buffer.buffer, stream`sent
    ensures ctx.Valid() && ctx.buffer.buffer == old(ctx.buffer.buffer)
    ensures ctx.State() == Flushed(old(ctx.State()))
    ensures stream.sent == old(stream.sent) + Flatten(FlushFrames(old(ctx.State())))
  {
    if !ctx.buffer.Empty() {
      var frame := TakeFrame(ctx);
      FlattenOne(frame);
      stream.SendEx(frame);
    }
  }

  /** With nothing buffered any more, buffers the data or sends it as a frame of its own. */
  method PutOrSend(ctx: SendCtx, data: seq<byte>, stream: SocketStream)
    requires ctx.Valid() && |data| <= MAX_SIZE && ctx.State().pending == []
    modifies ctx.buffer, ctx.buffer.buffer, stream`sent
    ensures ctx.Valid() && ctx.buffer.buffer == old(ctx.buffer.buffer)
    ensures
      var id := old(ctx.State().id);
      && ctx.State() == (if |data| < ROOM then SendState(id, data) else SendState(NextId(id), []))
      && stream.sent == old(stream.sent) + Flatten(OversizeFrames(id, data))
  {
    if |data| > 0 && ctx.buffer.CanPut(|data|) {
      ctx.buffer.Put(data);
    } else if |data| > 0 {
      var frame := OversizeFrame(ctx, data);
      FlattenOne(frame);
      stream.SendEx(frame);
    }
  }

  /** The same with whole frames going to the flush queue; a call without data is decided first. */
  method AsyncSendMessage(ctx: SendCtx, data: seq<byte>)
    requires ctx.Valid() && ctx.flush.Valid() && |data| <= MAX_SIZE
    modifies ctx.buffer, ctx.buffer.buffer, ctx.flush, ctx.flush.repr
    ensures ctx.Valid() && ctx.flush.Valid() && ctx.buffer.buffer == old(ctx.buffer.buffer)
    ensures fresh(ctx.flush.repr - old(ctx.flush.repr))
    ensures ctx.State() == After(old(ctx.State()), data)
    ensures ctx.flush.Items() == old(ctx.flush.Items()) + Frames(old(ctx.State()).id, Cut(old(ctx.State()), data))
  {
    if |data| == 0 {
      FramesOfCut(ctx.State(), data);
      QueueBuffered(ctx);
    } else if |data| > 0 && ctx.buffer.CanPut(|data|) {
      ctx.buffer.Put(data);
    } else {
      QueueThenPut(ctx, data);
    }
  }

  method QueueThenPut(ctx: SendCtx, data: seq<byte>)
    requires ctx.Valid() && ctx.flush.Valid() && |data| <= MAX_SIZE && !Buffers(ctx.State(), data)
    modifies ctx.buffer, ctx.buffer.buffer, ctx.flush, ctx.flush.repr
    ensures ctx.Valid() && ctx.flush.Valid() && ctx.buffer.buffer == old(ctx.buffer.buffer)
    ensures fresh(ctx.flush.repr - old(ctx.flush.repr))
    ensures ctx.State() == After(old(ctx.State()), data)
    ensures ctx.flush.Items() == old(ctx.flush.Items()) + Frames(old(ctx.State()).id, Cut(old(ctx.State()), data))
  {
    ghost var s, was := ctx.State(), ctx.flush.Items();
    QueueBuffered(ctx);
    PutOrQueue(ctx, data);
    FramesOfCut(s, data);
    Associative(was, FlushFrames(s), OversizeFrames(Flushed(s).id, data));
  }

  method QueueBuffered(ctx: SendCtx)
    requires ctx.Valid() && ctx.flush.Valid()
    modifies ctx.buffer, ctx.buffer.buffer, ctx.flush, ctx.flush.repr
    ensures ctx.Valid() && ctx.flush.Valid() && ctx.buffer.buffer == old(ctx.buffer.buffer)
    ensures fresh(ctx.flush.repr - old(ctx.flush.repr))
    ensures ctx.State() == Flushed(old(ctx.State()))
    ensures ctx.flush.Items() == old(ctx.flush.Items()) + FlushFrames(old(ctx.State()))
  {
    if !ctx.buffer.Empty() {
      var frame := TakeFrame(ctx);
      ctx.flush.Append(frame);
    }
  }

  method PutOrQueue(ctx: SendCtx, data: seq<byte>)
    requires ctx.Valid() && ctx.flush.Valid() && |data| <= MAX_SIZE && ctx.State().pending == []
    modifies ctx.buffer, ctx.buffer.buffer, ctx.flush, ctx.flush.repr
    ensures ctx.Valid() && ctx.flush.Valid() && ctx.buffer.buffer == old(ctx.buffer.buffer)
    ensures fresh(ctx.flush.repr - old(ctx.flush.repr))
    ensures
      var id := old(ctx.State().id);
      && ctx.State() == (if |data| < ROOM then SendState(id, data) else SendState(NextId(id), []))
      && ctx.flush.Items() == old(ctx.flush.Items()) + OversizeFrames(id, data)
  {
    if |data| > 0 && ctx.buffer.CanPut(|data|) {
      ctx.buffer.Put(data);
    } else if |data| > 0 {
      var frame := OversizeFrame(ctx, data);
      ctx.flush.Append(frame);
    }
  }

  /** One pass of the flusher under the queue's lock: the oldest frame, if any, goes out whole. */
  method AsyncFlushMessage(ctx: SendCtx, stream: SocketStream)
    requires ctx.flush.Valid()
    modifies ctx.flush, stream`sent
    ensures ctx.flush.Valid() && ctx.flush.repr == old(ctx.flush.repr)
    ensures
      var queue := old(ctx.flush.Items());
      if queue == [] then stream.sent == old(stream.sent) && ctx.flush.Items() == []
      else stream.sent == old(stream.sent) + queue[0] && ctx.flush.Items() == queue[1..]
  {
    ghost var queue := ctx.flush.Items();
    var list := ctx.flush.PopFront();
    if list.Some? {
      assert queue[0] == list.value && queue[1..] == ctx.flush.Items();
      stream.SendEx(list.value);
    }
  }
}
