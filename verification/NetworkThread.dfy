/** The network thread: one call id, one reply, one record at a time. */
module NetworkThreads {
  import opened Bytes
  import opened Memory
  import opened LinkedLists
  import opened SocketStreams
  import opened RecvContexts
  import opened ProxyClients
  import Receivers
  import CallRecords

  /** Every stashed reply is filed under the sign-extended id that it starts with. */
  ghost predicate StashOk(stash: seq<Chunk>) {
    forall i :: 0 <= i < |stash| ==> ChunkOk(stash[i])
  }

  predicate ChunkOk(c: Chunk) {
    Receivers.IsReplyBody(c.payload) && c == Receivers.ReplyChunk(c.payload)
  }

  /** A wait keeps that, and what it finds is the reply with the id it was asked for. */
  lemma {:induction false} AwaitAnswers(stash: seq<Chunk>, bytes: seq<byte>, id: u64)
    requires StashOk(stash) && Receivers.ReplyFramed(bytes)
    ensures
      var r := Receivers.AwaitReply(stash, bytes, id);
      && StashOk(r.stash) && Receivers.ReplyFramed(r.rest)
      && (r.reply.Some? ==> ChunkOk(r.reply.value) && r.reply.value.id == id)
    decreases |bytes|
  {
    hide ChunkOk, Receivers.FetchFrame, Receivers.CutUnnoticed, Insert;
    var i := IndexOf(stash, IdOf, id);
    if i < |stash| {
      assert IdOf(stash[i]) == id;
      assert forall k :: 0 <= k < |stash| - 1 ==> Without(stash, i)[k] == stash[if k < i then k else k + 1];
    } else {
      var r := Receivers.FetchFrame(bytes);
      if r.Some? {
        var c := Receivers.ReplyChunk(r.value.payload);
        FiledUnderItsId(r.value.payload);
        InsertKeepsOk(stash, c);
        AwaitAnswers(Insert(stash, IdOf, c), r.value.rest, id);
      } else {
        NothingFollows();
      }
    }
  }

  lemma FiledUnderItsId(p: seq<byte>)
    requires Receivers.IsReplyBody(p)
    ensures ChunkOk(Receivers.ReplyChunk(p))
  {
  }

  lemma InsertKeepsOk(stash: seq<Chunk>, c: Chunk)
    requires StashOk(stash) && ChunkOk(c)
    ensures StashOk(Insert(stash, IdOf, c))
  {
    hide ChunkOk;
  }

  lemma NothingFollows()
    ensures Receivers.ReplyFramed([])
  {
  }

  /** The header of such a reply, or the error that stands in for it, carries the id of the call. */
  lemma AnswersCall(c: Chunk, errno: seq<byte>)
    requires ChunkOk(c) && c.id < 0x8000_0000 && |errno| == 4
    ensures ReplyId(Received(c.payload, c.id, errno)) == c.id
  {
    ErrorReplyAnswers(c.id, errno);
  }

  datatype Pass = NoCall | NoReply | Served | Dropped

  /** The call whose id is first in the queue. */
  function FirstCall(ids: seq<nat>): u64 {
    if ids != [] && ids[0] < TWO_64 then ids[0] else 0
  }

  /** The reply to the call meets its record. */
  method ServeReply(ctx: ProxyClientCtx, c: Chunk, errno: seq<byte>) returns (pass: Pass)
    requires ctx.Valid() && ctx.Expects(c.id) && ChunkOk(c) && c.id < 0x8000_0000 && |errno| == 4
    modifies ctx`world, ctx.callResults, ctx.callResults.repr, ctx.callResults.Items()
    ensures pass == Served || pass == Dropped
    ensures pass == Served ==>
      ctx.Coupled() &&
      ctx.world == CallRecords.Run(old(ctx.world), [CallRecords.TakeReply, CallRecords.FillData, CallRecords.Complete])
  {
    hide CallRecords.Step, ProxyClientCtx.Coupled, ProxyClientCtx.Valid, ProxyClientCtx.Expects, ReplyId, Received, ChunkOk, Popped;
    AnswersCall(c, errno);
    ThreeSteps(ctx.world, CallRecords.TakeReply, CallRecords.FillData, CallRecords.Complete);
    var b, outcome := ctx.BridgeSocketOnMessage(c.payload, c.id, errno);
    pass := if outcome == TooShort then Dropped else Served;
  }

  lemma ThreeSteps(w: CallRecords.World, a: CallRecords.Event, b: CallRecords.Event, c: CallRecords.Event)
    ensures CallRecords.Run(w, [a, b, c]) == CallRecords.Step(CallRecords.Step(CallRecords.Step(w, a), b), c)
    ensures CallRecords.Run(w, [a, b]) == CallRecords.Step(CallRecords.Step(w, a), b)
  {
    hide CallRecords.Step, CallRecords.Run;
    var v := CallRecords.Step(w, a);
    assert [a, b, c] == [a] + [b, c] && [a, b] == [a] + [b] && [b, c] == [b] + [c];
    RunFirst(w, a, [b, c]);
    RunFirst(w, a, [b]);
    RunFirst(v, b, [c]);
    RunOne(v, b);
    RunOne(CallRecords.Step(v, b), c);
  }

  lemma RunOne(w: CallRecords.World, e: CallRecords.Event)
    ensures CallRecords.Run(w, [e]) == CallRecords.Step(w, e)
  {
    hide CallRecords.Step;
    assert [e][1..] == [];
  }

  lemma RunFirst(w: CallRecords.World, e: CallRecords.Event, rest: seq<CallRecords.Event>)
    ensures CallRecords.Run(w, [e] + rest) == CallRecords.Run(CallRecords.Step(w, e), rest)
  {
    hide CallRecords.Step;
    assert ([e] + rest)[1..] == rest;
  }

  lemma IdInRange(w: CallRecords.World)
    requires CallRecords.Inv(w) && w.network.Fetching?
    ensures w.network.id < w.nextId
  {
  }

  /** The receive context and the stream as the network thread needs them. */
  ghost predicate Receiving(recv: RecvCtx, stream: SocketStream)
    reads recv, recv.list, recv.list.repr, stream, stream.buf
  {
    && recv.Valid() && recv.isChunk && Sorted(recv.State().list, IdOf) && StashOk(recv.State().list)
    && stream.Valid() && Receivers.ReplyFramed(stream.Pending())
  }

  /** Neither the stash nor the wire has a reply to this call. */
  ghost predicate NoReplyTo(recv: RecvCtx, stream: SocketStream, id: u64)
    requires Receiving(recv, stream)
    reads recv, recv.list, recv.list.repr, stream, stream.buf
  {
    Receivers.AwaitReply(recv.State().list, stream.Pending(), id).reply.None?
  }

  /** Waits for the reply to a call, and keeps all others. */
  method AwaitCall(ctx: ProxyClientCtx, recv: RecvCtx, stream: SocketStream, id: u64) returns (reply: Option<Chunk>)
    requires ctx.Coupled() && Receiving(recv, stream)
    modifies recv`info, recv.list, recv.list.repr
    modifies stream`size, stream`offset, stream`incoming, stream.buf
    ensures ctx.Coupled() && Receiving(recv, stream)
    ensures reply.None? <==> old(NoReplyTo(recv, stream, id))
    ensures reply.Some? ==> ChunkOk(reply.value) && reply.value.id == id
  {
    hide CallRecords.Inv, Sorted, StashOk, Receivers.ReplyFramed, Receivers.AwaitReply, ChunkOk;
    hide LinkedList.Valid, LinkedList.Items, IdsOk, Indexed, Lists;
    AwaitAnswers(recv.State().list, stream.Pending(), id);
    reply := Receivers.RecvMessageById(recv, id, stream);
  }

  lemma CoupledId(ctx: ProxyClientCtx)
    requires ctx.Coupled() && ctx.world.network.Fetching?
    ensures ctx.world.network.id < ctx.nextId
  {
    IdInRange(ctx.world);
  }

  lemma CoupledExpects(ctx: ProxyClientCtx, id: nat)
    requires ctx.Coupled() && ctx.world.network == CallRecords.Fetching(id)
    ensures ctx.Valid() && ctx.Expects(id)
  {
  }

  /** The rest of a pass, with the id of a call in hand. */
  method ServeCall(ctx: ProxyClientCtx, recv: RecvCtx, stream: SocketStream, id: u64, errno: seq<byte>) returns (pass: Pass)
    requires ctx.Coupled() && ctx.world.network == CallRecords.Fetching(id) && id < 0x8000_0000 && |errno| == 4
    requires Receiving(recv, stream)
    modifies ctx`world, ctx.callResults, ctx.callResults.repr, ctx.callResults.Items()
    modifies recv`info, recv.list, recv.list.repr
    modifies stream`size, stream`offset, stream`incoming, stream.buf
    ensures Receiving(recv, stream) && (pass != Dropped ==> ctx.Coupled())
    ensures pass != NoCall && (pass == NoReply <==> old(NoReplyTo(recv, stream, id)))
    ensures pass == NoReply ==> ctx.world == CallRecords.Step(old(ctx.world), CallRecords.FailReceive)
    ensures pass == Served ==>
      ctx.world == CallRecords.Run(old(ctx.world), [CallRecords.TakeReply, CallRecords.FillData, CallRecords.Complete])
  {
    hide CallRecords.Step, CallRecords.Run, NoReplyTo, Receiving, ProxyClientCtx.Coupled, ProxyClientCtx.Valid, LinkedList.Items;
    var reply := AwaitCall(ctx, recv, stream, id);
    if reply.None? {
      ctx.ReceiveFailed();
      return NoReply;
    }
    CoupledExpects(ctx, id);
    pass := ServeReply(ctx, reply.value, errno);
  }

  /**
   One pass of `process_network`. The reply that comes, from the stash or the
   wire, is that of the call whose id was taken, and it meets that call's record:
   the pass is `TakeId`, `TakeReply`, `FillData` and `Complete`, unless no reply
   comes, or one shorter than the call expects.
   */
  method ProcessNetworkPass(ctx: ProxyClientCtx, recv: RecvCtx, stream: SocketStream, errno: seq<byte>)
    returns (pass: Pass)
    requires ctx.Coupled() && ctx.world.network.Idle? && ctx.nextId <= 0x8000_0000 && |errno| == 4
    requires Receiving(recv, stream)
    modifies ctx`world, ctx.callIds, ctx.callResults, ctx.callResults.repr, ctx.callResults.Items()
    modifies recv`info, recv.list, recv.list.repr
    modifies stream`size, stream`offset, stream`incoming, stream.buf
    ensures Receiving(recv, stream) && (pass != Dropped ==> ctx.Coupled())
    ensures pass == NoCall <==> old(ctx.callIds.Items()) == []
    ensures pass == NoReply <==>
      old(ctx.callIds.Items()) != [] && old(NoReplyTo(recv, stream, FirstCall(ctx.callIds.Items())))
    ensures pass == NoCall ==> ctx.world == old(ctx.world)
    ensures pass == NoReply ==>
      ctx.world == CallRecords.Run(old(ctx.world), [CallRecords.TakeId, CallRecords.FailReceive])
    ensures pass == Served ==>
      ctx.world == CallRecords.Run(old(ctx.world),
        [CallRecords.TakeId] + [CallRecords.TakeReply, CallRecords.FillData, CallRecords.Complete])
  {
    hide CallRecords.Step, CallRecords.Run, NoReplyTo, Receiving, ProxyClientCtx.Coupled, ProxyClientCtx.Valid, LinkedList.Items;
    ghost var w, ids := ctx.world, ctx.callIds.Items();
    RunFirst(w, CallRecords.TakeId, [CallRecords.TakeReply, CallRecords.FillData, CallRecords.Complete]);
    ThreeSteps(w, CallRecords.TakeId, CallRecords.FailReceive, CallRecords.FailReceive);
    var id := ctx.NextCallId();
    assert Receiving(recv, stream);
    if id.None? {
      return NoCall;
    }
    CoupledId(ctx);
    assert ids[0] == id.value && FirstCall(ids) == id.value;
    pass := ServeCall(ctx, recv, stream, id.value, errno);
  }
}
