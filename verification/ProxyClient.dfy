/**
 The pending calls of the proxied sockets, in place: the record list, the
 call-id queue and the completion flags. Each region that a lock makes atomic
 is a method, and carries out one step of `CallRecords`.
 */
module ProxyClients {
  import opened Bytes
  import opened Memory
  import opened LinkedLists
  import opened CallRecords

  /** A `PosixSocketCallResult`: its call, how far it is, and the reply once it is there. */
  class CallResult {
    const callId: nat
    const expectedBytes: nat
    var operationCompleted: nat
    var data: Option<seq<byte>>

    constructor (callId: nat, expectedBytes: nat)
      ensures this.callId == callId && this.expectedBytes == expectedBytes && operationCompleted == 0 && data == None
    {
      this.callId, this.expectedBytes := callId, expectedBytes;
      operationCompleted, data := 0, None;
    }
  }

  const CallIdOf: CallResult -> int := (b: CallResult) => b.callId

  /** `sizeof(SocketCallResultHeader)`: call id, result and errno. */
  const RESULT_HEADER: nat := 12

  /** A 32-bit field read as a signed number. */
  function Signed(x: u32): int {
    if x < 0x8000_0000 then x else x - TWO_32
  }

  /** `header->callId`. */
  function ReplyId(reply: seq<byte>): int
    requires |reply| >= RESULT_HEADER
  {
    Spans();
    UnLERoundTrip(reply[..4]);
    Signed(UnLE(reply[..4]))
  }

  /** The first four octets as a signed little-endian number. */
  lemma ReplyIdReads(reply: seq<byte>)
    requires |reply| >= RESULT_HEADER
    ensures
      var n := Number(reply[3], reply[2], reply[1], reply[0]);
      ReplyId(reply) == if n < 0x8000_0000 then n else n - 0x1_0000_0000
  {
    hide UnLE, Number;
    LESpells(reply[..4]);
  }

  /** What stands in for a reply without a whole header: the call's id, result -1, and whatever is in errno. */
  function ErrorReply(callId: u64, errno: seq<byte>): (r: seq<byte>)
    requires |errno| == 4
    ensures |r| == RESULT_HEADER
  {
    LE(callId % TWO_32, 4) + LE(TWO_32 - 1, 4) + errno
  }

  function Received(reply: seq<byte>, callId: u64, errno: seq<byte>): (r: seq<byte>)
    requires |errno| == 4
    ensures |r| >= RESULT_HEADER && (|reply| >= RESULT_HEADER ==> r == reply)
  {
    if |reply| < RESULT_HEADER then ErrorReply(callId, errno) else reply
  }

  /** The substitute answers the call that was waited for. */
  lemma ErrorReplyAnswers(callId: u64, errno: seq<byte>)
    requires |errno| == 4
    ensures ReplyId(ErrorReply(callId, errno)) == Signed(callId % TWO_32)
    ensures callId < 0x8000_0000 ==> ReplyId(ErrorReply(callId, errno)) == callId
  {
    Spans();
    LERoundTrip(callId % TWO_32, 4);
    assert ErrorReply(callId, errno)[..4] == LE(callId % TWO_32, 4);
  }

  const EINTR: nat := 4
  const EAGAIN: nat := 11

  /** What a reply says to the receiving thread: `ret`, and `errno` when that is negative. */
  function ResultOf(reply: seq<byte>): Result
    requires |reply| >= RESULT_HEADER
  {
    Spans();
    UnLERoundTrip(reply[4..8]);
    var ret, errno := Signed(UnLE(reply[4..8])), UnLE(reply[8..12]);
    if ret > 0 then Data else if ret == 0 then Closed else Failed(ret == -1 && (errno == EAGAIN || errno == EINTR))
  }

  /** The two little-endian fields behind the call id, and what they mean to the receiving thread. */
  predicate Says(reply: seq<byte>, result: Result)
    requires |reply| >= RESULT_HEADER
  {
    var ret, errno := Number(reply[7], reply[6], reply[5], reply[4]), Number(reply[11], reply[10], reply[9], reply[8]);
    match result
    case Data => 0 < ret < 0x8000_0000
    case Closed => ret == 0
    case Failed(again) => ret >= 0x8000_0000 && (again <==> ret == 0xFFFF_FFFF && (errno == 4 || errno == 11))
  }

  /** Every reply says exactly one thing, and the substitute reply is an error. */
  lemma ResultReads(reply: seq<byte>, result: Result)
    requires |reply| >= RESULT_HEADER
    ensures ResultOf(reply) == result <==> Says(reply, result)
  {
    hide UnLE, Number;
    LESpells(reply[4..8]);
    LESpells(reply[8..12]);
    NumberIsSmall(reply[7], reply[6], reply[5], reply[4]);
  }

  lemma NumberIsSmall(a: byte, b: byte, c: byte, d: byte)
    ensures Number(a, b, c, d) < TWO_32
  {
  }

  lemma ErrorReplyFails(callId: u64, errno: seq<byte>)
    requires |errno| == 4
    ensures ResultOf(ErrorReply(callId, errno)) ==
      Failed(Number(errno[3], errno[2], errno[1], errno[0]) in {4, 11})
  {
    hide LE, Number;
    var r := ErrorReply(callId, errno);
    assert r[4..8] == LE(TWO_32 - 1, 4) && r[8..12] == errno;
    Spans();
    LERoundTrip(TWO_32 - 1, 4);
    LESpells(errno);
  }

  datatype Outcome = Unmatched | TooShort | Completed | FreedByNetwork

  /** The record object holds what the abstract record says. */
  predicate Matches(b: CallResult, r: Record)
    reads b
  {
    && b.operationCompleted == r.flag && (b.data.None? <==> r.reply.None?)
    && (b.data.Some? ==> |b.data.value| >= RESULT_HEADER && ReplyId(b.data.value) == r.reply.value)
  }

  /** Every record by its id. */
  ghost predicate Indexed(objects: map<nat, CallResult>, records: map<nat, Record>)
    reads objects.Values
  {
    && objects.Keys == records.Keys
    && forall id :: id in objects ==> objects[id].callId == id && Matches(objects[id], records[id])
  }

  /** The same for all records but one, without looking at that one. */
  ghost predicate IndexedBut(objects: map<nat, CallResult>, records: map<nat, Record>, x: nat)
    requires x in objects
    reads objects.Values - {objects[x]}
  {
    && objects.Keys == records.Keys && objects[x].callId == x
    && forall id :: id in objects && id != x ==>
         objects[id] in objects.Values && objects[id] != objects[x] && objects[id].callId == id && Matches(objects[id], records[id])
  }

  lemma IndexedWithout(objects: map<nat, CallResult>, records: map<nat, Record>, x: nat)
    requires Indexed(objects, records) && x in objects
    ensures IndexedBut(objects, records, x) && Matches(objects[x], records[x]) && objects[x].callId == x && x in records
  {
  }

  lemma IndexedAgain(objects: map<nat, CallResult>, records: map<nat, Record>, x: nat, r: Record)
    requires x in objects && IndexedBut(objects, records, x) && Matches(objects[x], r)
    ensures Indexed(objects, records[x := r])
  {
  }

  lemma IndexedAdds(objects: map<nat, CallResult>, records: map<nat, Record>, b: CallResult, r: Record)
    requires Indexed(objects, records) && b.callId !in records && Matches(b, r)
    ensures Indexed(objects[b.callId := b], records[b.callId := r])
  {
  }

  /** The list holds the pending records. */
  ghost predicate Lists(items: seq<CallResult>, objects: map<nat, CallResult>, pending: seq<nat>) {
    && |items| == |pending|
    && forall i :: 0 <= i < |items| ==> pending[i] in objects && items[i] == objects[pending[i]] && items[i].callId == pending[i]
  }

  lemma ListsAppend(items: seq<CallResult>, objects: map<nat, CallResult>, pending: seq<nat>, b: CallResult)
    requires Lists(items, objects, pending) && b.callId !in objects
    ensures Lists(items + [b], objects[b.callId := b], pending + [b.callId])
  {
  }

  lemma ListsGrow(items: seq<CallResult>, objects: map<nat, CallResult>, pending: seq<nat>, b: CallResult)
    requires Lists(items, objects, pending) && b.callId !in objects
    ensures Lists(items, objects[b.callId := b], pending)
  {
  }

  lemma ListsMore(items: seq<CallResult>, objects: map<nat, CallResult>, pending: seq<nat>, b: CallResult)
    requires Lists(items, objects, pending) && b.callId in objects && objects[b.callId] == b
    ensures Lists(items + [b], objects, pending + [b.callId])
  {
  }

  lemma ListsTail(b: CallResult, items: seq<CallResult>, objects: map<nat, CallResult>, pending: seq<nat>)
    requires Lists([b] + items, objects, pending)
    ensures pending != [] && pending[0] == b.callId && b.callId in objects && objects[b.callId] == b
    ensures Lists(items, objects, pending[1..])
  {
    assert ([b] + items)[0] == b;
    assert forall i :: 0 <= i < |items| ==> items[i] == ([b] + items)[i + 1];
  }

  lemma ListsNone(objects: map<nat, CallResult>, pending: seq<nat>)
    requires Lists([], objects, pending)
    ensures pending == []
  {
  }

  lemma ListsWithout(items: seq<CallResult>, objects: map<nat, CallResult>, pending: seq<nat>, i: nat)
    requires Lists(items, objects, pending) && i < |items|
    ensures Lists(Without(items, i), objects, Without(pending, i))
  {
    var x, p := Without(items, i), Without(pending, i);
    forall k | 0 <= k < |x|
      ensures p[k] in objects && x[k] == objects[p[k]] && x[k].callId == p[k]
    {
      var l := if k < i then k else k + 1;
      assert x[k] == items[l] && p[k] == pending[l];
    }
  }

  /** Looking in the list is looking among the pending ids. */
  lemma ListsFind(items: seq<CallResult>, objects: map<nat, CallResult>, pending: seq<nat>, id: nat)
    requires Lists(items, objects, pending)
    ensures
      var i := IndexOf(items, CallIdOf, id);
      && i == IndexOf(pending, IdKey, id) && |items| == |pending|
      && (i < |items| ==> id in objects && items[i] == objects[id] && Lists(Without(items, i), objects, Without(pending, i)))
  {
    hide Without, IndexOf;
    var i := IndexOf(pending, IdKey, id);
    forall k | 0 <= k < i
      ensures CallIdOf(items[k]) != id
    {
      assert IdKey(pending[k]) != id;
      assert items[k].callId == pending[k];
    }
    if i < |items| {
      assert IdKey(pending[i]) == id;
      ListsWithout(items, objects, pending, i);
    }
    IndexOfIs(items, CallIdOf, id, i);
  }

  lemma FreshMatches(b: CallResult, owner: Owner)
    requires b.operationCompleted == 0 && b.data == None
    ensures Matches(b, Record(owner, Allocated, 0, None, 0))
  {
  }

  class ProxyClientCtx {
    const callResults: LinkedList<CallResult>
    const callIds: LinkedList<nat>
    /** Sends whose completion the sending thread has still to wait for. */
    const sendList: LinkedList<CallResult>
    var nextId: nat
    var waitOperationCompleted: bool
    /** All records ever allocated, and the abstract state. */
    ghost var objects: map<nat, CallResult>
    ghost var world: World

    /** All ids in the list were handed out, each once. */
    ghost predicate Valid()
      reads this, callResults, callResults.repr, callIds, callIds.repr, sendList, sendList.repr
    {
      && callResults.Valid() && callIds.Valid() && IdsOk(callResults.Items(), nextId)
      && sendList.Valid() && sendList != callResults && sendList.repr !! callResults.repr
    }

    /** The fields are those of the abstract state. */
    ghost predicate Coupled()
      reads this, callResults, callResults.repr, callIds, callIds.repr, sendList, sendList.repr, objects.Values
    {
      && Valid() && Inv(world)
      && nextId == world.nextId && waitOperationCompleted == world.waitEnabled && callIds.Items() == world.callIds
      && Indexed(objects, world.records) && Lists(callResults.Items(), objects, world.pending)
      && Lists(sendList.Items(), objects, world.sendQueue)
    }

    constructor ()
      ensures Coupled() && world == START && objects == map[]
      ensures fresh(callResults) && fresh(callIds) && fresh(sendList)
      ensures callResults.repr == {} && callIds.repr == {} && sendList.repr == {}
    {
      callResults := new LinkedList();
      callIds := new LinkedList();
      sendList := new LinkedList();
      nextId, waitOperationCompleted := 1, true;
      objects, world := map[], START;
    }

    /** Links a new record behind the others; nothing else changes. */
    method AppendResult(b: CallResult)
      requires callResults.Valid() && callIds.Valid()
      requires sendList.Valid() && sendList != callResults && sendList.repr !! callResults.repr
      modifies callResults, callResults.repr
      ensures callResults.Valid() && fresh(callResults.repr - old(callResults.repr))
      ensures callResults.Items() == old(callResults.Items()) + [b]
      ensures callIds.Valid() && callIds.Items() == old(callIds.Items())
      ensures sendList.Valid() && sendList.repr !! callResults.repr && sendList.Items() == old(sendList.Items())
    {
      hide LinkedList.Valid, LinkedList.Items;
      callResults.Append(b);
    }

    /** A record with an id of its own, last in the list. */
    method AllocateCallResult(expectedBytes: nat, ghost owner: Owner) returns (b: CallResult)
      requires Coupled() && MayAllocate(world, owner)
      modifies this`nextId, this`objects, this`world, callResults, callResults.repr
      ensures Coupled() && fresh(callResults.repr - old(callResults.repr))
      ensures world == Step(old(world), Allocate(owner))
      ensures fresh(b) && b.callId == old(nextId) && b.expectedBytes == expectedBytes && b.data == None
      ensures callResults.Items() == old(callResults.Items()) + [b] && objects == old(objects)[b.callId := b]
    {
      hide Inv, Step, Indexed, Lists, IdsOk, Matches, LinkedList.Valid, LinkedList.Items;
      AllocateKeeps(world, owner);
      AllocateAdds(world, owner);
      NextIdIsNew(world);
      SameKeys(objects, world.records);
      b := new CallResult(nextId, expectedBytes);
      NewIdIsNew(callResults.Items(), nextId, b);
      ListsAppend(callResults.Items(), objects, world.pending, b);
      ListsGrow(sendList.Items(), objects, world.sendQueue, b);
      FreshMatches(b, owner);
      IndexedAdds(objects, world.records, b, Record(owner, Allocated, 0, None, 0));
      nextId := nextId + 1;
      AppendResult(b);
      ghost var r := Record(owner, Allocated, 0, None, 0);
      assert Indexed(objects[b.callId := b], world.records[b.callId := r]);
      objects, world := objects[b.callId := b], Step(world, Allocate(owner));
      assert Valid();
      assert Indexed(objects, world.records);
    }

    /** The request went out; from here on the call waits. */
    ghost method SendRequest(b: CallResult)
      requires Coupled() && b.callId in world.records && world.records[b.callId].caller.Allocated?
      modifies this`world
      ensures Coupled() && world == Step(old(world), Request(b.callId))
    {
      hide Inv, Indexed, Lists, IdsOk, LinkedList.Valid, LinkedList.Items;
      EarlyKeeps(world, Request(b.callId));
      ChangeCaller(objects, world.records, b.callId, Requested);
      world := Step(world, Request(b.callId));
    }

    /** `PutToSendProxyCtx`: the sending thread is to wait for this send. */
    method PutToSendProxyCtx(b: CallResult)
      requires Coupled() && b.callId in world.records && objects[b.callId] == b
      requires world.records[b.callId].caller.Requested? && world.records[b.callId].owner.Sender?
      modifies this`world, sendList, sendList.repr
      ensures Coupled() && fresh(sendList.repr - old(sendList.repr))
      ensures world == Step(old(world), Enqueue(b.callId)) && sendList.Items() == old(sendList.Items()) + [b]
    {
      hide Inv, Indexed, Lists, IdsOk, LinkedList.Valid, LinkedList.Items;
      EnqueueKeeps(world, b.callId);
      SameKeys(objects, world.records);
      ChangeCaller(objects, world.records, b.callId, Queued);
      ListsMore(sendList.Items(), objects, world.sendQueue, b);
      sendList.Append(b);
      assert callResults.Valid() && callResults.Items() == old(callResults.Items());
      assert callIds.Valid() && callIds.Items() == old(callIds.Items());
      assert Valid();
      world := Step(world, Enqueue(b.callId));
    }

    /** `GetFromSendProxyCtx`: the oldest send, or nothing. */
    method GetFromSendProxyCtx() returns (r: Option<CallResult>)
      requires Coupled() && !Busy(world, Sender)
      modifies this`world, sendList
      ensures Coupled() && world == Step(old(world), Dequeue)
      ensures r.Some? ==>
        && old(sendList.Items()) == [r.value] + sendList.Items()
        && r.value.callId in world.records && world.records[r.value.callId].caller.Taken?
      ensures r.None? ==> old(sendList.Items()) == [] && world == old(world)
    {
      hide Inv, Indexed, Lists, IdsOk, LinkedList.Valid, LinkedList.Items, Busy;
      DequeueKeeps(world);
      QueueHead(world);
      SameKeys(objects, world.records);
      r := sendList.PopFront();
      assert callResults.Valid() && callResults.Items() == old(callResults.Items());
      assert callIds.Valid() && callIds.Items() == old(callIds.Items());
      assert Valid();
      if r.Some? {
        ListsTail(r.value, sendList.Items(), objects, world.sendQueue);
        ChangeCaller(objects, world.records, r.value.callId, Taken);
      } else {
        ListsNone(objects, world.sendQueue);
      }
      world := Step(world, Dequeue);
    }

    /** The start of `wait_for_call_result`: the id joins the network thread's queue. */
    method PutCallId(b: CallResult)
      requires Coupled() && b.callId in world.records && MayWait(world.records[b.callId])
      modifies this`world, callIds, callIds.repr
      ensures Coupled() && fresh(callIds.repr - old(callIds.repr))
      ensures world == Step(old(world), StartWait(b.callId)) && callIds.Items() == old(callIds.Items()) + [b.callId]
    {
      hide Inv, Step, Indexed, Lists, IdsOk, Matches, LinkedList.Valid, LinkedList.Items;
      StartWaitKeeps(world, b.callId);
      StartWaitQueues(world, b.callId);
      ChangeCaller(objects, world.records, b.callId, Waiting);
      callIds.Append(b.callId);
      assert callResults.Valid() && callResults.Items() == old(callResults.Items());
      assert sendList.Valid() && sendList.Items() == old(sendList.Items());
      world := Step(world, StartWait(b.callId));
    }

    /** Its end, under the lock, once the call is complete or waits are cancelled. */
    method EndWait(b: CallResult) returns (normal: bool)
      requires Coupled() && b.callId in world.records && objects[b.callId] == b && world.records[b.callId].caller.Waiting?
      requires !waitOperationCompleted || b.operationCompleted != 0
      modifies this`world, b`operationCompleted
      ensures Coupled() && world == Step(old(world), CallRecords.EndWait(b.callId))
      ensures normal <==> old(b.operationCompleted) == 1
      ensures
        var was := old(world.receiver);
        world.receiver ==
          if !normal && old(world.records[b.callId].owner.Receiver?) && was == Looping(false) then Left else was
      ensures b.operationCompleted == if normal then 1 else 2
    {
      hide Inv, Step, Indexed, IndexedBut, Lists, IdsOk, LinkedList.Valid, LinkedList.Items;
      var id := b.callId;
      EndWaitKeeps(world, id);
      SameKeys(objects, world.records);
      IndexedWithout(objects, world.records, id);
      EndWaitTells(world, id);
      normal := b.operationCompleted == 1;
      if !normal {
        b.operationCompleted := 2;
      }
      var v := Step(world, CallRecords.EndWait(id));
      IndexedAgain(objects, world.records, id, v.records[id]);
      world := v;
    }

    /** What a caller does with a completed call: it reads the reply and frees the record. */
    method FreeCallResult(b: CallResult) returns (reply: seq<byte>)
      requires Coupled() && b.callId in world.records && objects[b.callId] == b && world.records[b.callId].caller.Owning?
      modifies this`world
      ensures Coupled() && |reply| >= RESULT_HEADER && ReplyId(reply) == b.callId && b.data == Some(reply)
      ensures world == Step(old(world), Finish(b.callId, ResultOf(reply)))
      ensures
        var was := old(world.receiver);
        world.receiver ==
          if !old(world.records[b.callId].owner.Receiver?) || Says(reply, Data) then was
          else if Says(reply, Failed(true)) then Looping(true) else Left
    {
      hide Inv, Step, Indexed, IndexedBut, Lists, IdsOk, LinkedList.Valid, LinkedList.Items, Says, ResultOf;
      var id := b.callId;
      CompletedHasReply(world, id);
      SameKeys(objects, world.records);
      IndexedWithout(objects, world.records, id);
      reply := b.data.value;
      ghost var result := ResultOf(reply);
      ReplyTells(world, world.records[id].owner, reply);
      FinishKeeps(world, id, result);
      FinishFrees(world, id, result);
      ghost var v := Step(world, Finish(id, result));
      IndexedAgain(objects, world.records, id, v.records[id]);
      world := v;
    }

    /** The head of the id queue, as the network thread takes it. */
    method NextCallId() returns (r: Option<nat>)
      requires Coupled() && world.network.Idle?
      modifies this`world, callIds
      ensures Coupled() && callIds.repr == old(callIds.repr)
      ensures world == Step(old(world), TakeId)
      ensures if r.Some? then old(callIds.Items()) == [r.value] + callIds.Items() && world.network == Fetching(r.value)
              else old(callIds.Items()) == [] && world == old(world)
    {
      hide Inv, Indexed, Lists, IdsOk, LinkedList.Valid, LinkedList.Items;
      TakeIdKeeps(world);
      ghost var was := callIds.Items();
      r := callIds.PopFront();
      assert callResults.Valid() && callResults.Items() == old(callResults.Items());
      assert sendList.Valid() && sendList.Items() == old(sendList.Items());
      assert r.Some? ==> was[1..] == callIds.Items();
      world := Step(world, TakeId);
    }

    /** No reply comes, and the network thread returns. */
    ghost method ReceiveFailed()
      requires Coupled()
      modifies this`world
      ensures Coupled() && world == Step(old(world), FailReceive)
    {
      hide Inv, Indexed, Lists, IdsOk, LinkedList.Valid, LinkedList.Items;
      NetworkStopKeeps(world, FailReceive);
      world := Step(world, FailReceive);
    }

    /** The record of this call, unlinked. */
    method PopCallResult(callId: int) returns (r: Option<CallResult>)
      requires Valid()
      modifies this`world, callResults, callResults.repr
      ensures Valid() && callResults.repr == old(callResults.repr)
      ensures Popped(r, callId, old(callResults.Items()), callResults.Items())
      ensures old(Expects(callId)) ==> r.Some? && Holds(r.value, false) && world == Step(old(world), TakeReply)
      ensures !old(Expects(callId)) ==> world == old(world)
    {
      hide Inv, Step, Indexed, Lists, IdsOk, LinkedList.Valid, LinkedList.Items, Popped;
      ghost var was, expected := callResults.Items(), Expects(callId);
      ghost var i := IndexOf(was, CallIdOf, callId);
      if expected {
        TakeKeeps(world);
        TakeFinds(world);
        SameKeys(objects, world.records);
        ListsFind(was, objects, world.pending, callId);
      }
      r := callResults.Take(callId, CallIdOf);
      TakesOne(was, callId, nextId);
      assert callIds.Valid() && callIds.Items() == old(callIds.Items());
      assert sendList.Valid() && sendList.Items() == old(sendList.Items());
      assert Valid();
      if expected {
        assert Indexed(objects, world.records) && Lists(callResults.Items(), objects, Without(world.pending, i));
        world := Step(world, TakeReply);
      }
    }

    /** The reply goes into the popped record; the flag is looked at without the lock. */
    method StoreReply(b: CallResult, reply: seq<byte>) returns (asserted: bool)
      requires Valid()
      modifies this`world, b`data
      ensures Valid() && b.data == Some(reply) && asserted == (b.operationCompleted == 0 || b.operationCompleted == 2)
      ensures old(Holds(b, false)) && |reply| >= RESULT_HEADER && ReplyId(reply) == b.callId ==>
        Holds(b, true) && world == Step(old(world), FillData) && asserted
    {
      hide Inv, Step, Indexed, IndexedBut, Lists, IdsOk, LinkedList.Valid, LinkedList.Items, ReplyId;
      ghost var id, held := b.callId, Holds(b, false) && |reply| >= RESULT_HEADER && ReplyId(reply) == b.callId;
      if held {
        FillKeeps(world);
        FillStores(world);
        IndexedWithout(objects, world.records, id);
      }
      b.data := Some(reply);
      asserted := b.operationCompleted == 0 || b.operationCompleted == 2;
      if held {
        IndexedAgain(objects, world.records, id, world.records[id].(reply := Some(id)));
        world := Step(world, FillData);
      }
    }

    /** Under the lock: the call is complete, or its waiter gave up and the record is freed. */
    method CompleteCall(b: CallResult) returns (freed: bool)
      requires Valid()
      modifies this`world, b`operationCompleted
      ensures Valid() && freed == (old(b.operationCompleted) != 0)
      ensures b.operationCompleted == if freed then old(b.operationCompleted) else 1
      ensures old(Holds(b, true)) ==> Coupled() && world == Step(old(world), Complete) && objects == old(objects)
    {
      hide Inv, Step, Indexed, IndexedBut, Lists, IdsOk, LinkedList.Valid, LinkedList.Items;
      ghost var id, held := b.callId, Holds(b, true);
      if held {
        CompleteKeeps(world);
        CompleteTells(world);
        IndexedWithout(objects, world.records, id);
      }
      freed := b.operationCompleted != 0;
      if !freed {
        b.operationCompleted := 1;
      }
      if held {
        ghost var v := Step(world, Complete);
        IndexedAgain(objects, world.records, id, v.records[id]);
        world := v;
      }
    }

    /**
     A reply meets its record, whatever came: too short a reply is replaced by an
     error for the call that was waited for, an unmatched one and one shorter than
     the call expects, by its length as a 32-bit int, are dropped where the code
     asserts. The expected, well-sized reply is the abstract reply, stored and
     completed.
     */
    method BridgeSocketOnMessage(data: seq<byte>, callId: u64, errno: seq<byte>)
      returns (b: Option<CallResult>, outcome: Outcome)
      requires Valid() && |errno| == 4
      modifies this`world, callResults, callResults.repr, callResults.Items()
      ensures Valid() && callResults.repr == old(callResults.repr)
      ensures Popped(b, ReplyId(Received(data, callId, errno)), old(callResults.Items()), callResults.Items())
      ensures outcome == Unmatched <==> b.None?
      ensures b.Some? ==>
        var n := |Received(data, callId, errno)| % 0x1_0000_0000;
        outcome == TooShort <==> n >= 0x8000_0000 || n < b.value.expectedBytes
      ensures b.Some? && outcome != TooShort ==>
        b.value.data == Some(Received(data, callId, errno)) && (|data| >= RESULT_HEADER ==> b.value.data == Some(data)) &&
        (outcome == Completed <==> old(b.value.operationCompleted) == 0) &&
        b.value.operationCompleted == if outcome == Completed then 1 else old(b.value.operationCompleted)
      ensures forall c :: c in old(callResults.Items()) && Some(c) != b ==> unchanged(c)
      ensures old(Expects(ReplyId(Received(data, callId, errno)))) ==> b.Some?
      ensures old(Expects(ReplyId(Received(data, callId, errno)))) && outcome != TooShort ==>
        Coupled() && world == Step(Step(Step(old(world), TakeReply), FillData), Complete)
    {
      hide Step, Coupled, Valid, Expects, Holds, ReplyId, Received;
      var reply := Received(data, callId, errno);
      ghost var expected := Expects(ReplyId(reply));
      b := PopCallResult(ReplyId(reply));
      if b.None? {
        return b, Unmatched;
      }
      if Signed(|reply| % TWO_32) < b.value.expectedBytes {
        return b, TooShort;
      }
      var asserted := StoreReply(b.value, reply);
      var freed := CompleteCall(b.value);
      outcome := if freed then FreedByNetwork else Completed;
    }

    /** `cancel_wait_for_call_result`, once the sending thread is joined. */
    method CancelWaits()
      requires Coupled() && world.stage == StoppingSender && !Busy(world, Sender) && sendList.Items() == []
      modifies this`world, this`waitOperationCompleted
      ensures Coupled() && world == Step(old(world), Advance) && !waitOperationCompleted
    {
      hide Inv, Indexed, Lists, IdsOk, LinkedList.Valid, LinkedList.Items;
      ListsNone(objects, world.sendQueue);
      JoinKeeps(world);
      waitOperationCompleted := false;
      world := Step(world, Advance);
    }

    /** Frees all records left in the list, first to last, once all threads are joined. */
    method PopAllCallResults() returns (freed: seq<CallResult>)
      requires Coupled() && world.stage == StoppingNetwork && world.network.Stopped?
      modifies this`world, callResults
      ensures Coupled() && world == Step(old(world), Advance)
      ensures freed == old(callResults.Items()) && callResults.Items() == []
    {
      hide Inv, Step, Indexed, Lists, IdsOk, LinkedList.Valid, LinkedList.Items;
      ghost var was := callResults.Items();
      SweepKeeps(world);
      SweepFrees(world);
      AllFreed(objects, world.records, world.pending);
      freed := [];
      while true
        invariant callResults.Valid() && callResults.repr == old(callResults.repr)
        invariant freed + callResults.Items() == was
        invariant callIds.Valid() && callIds.Items() == old(callIds.Items()) && world == old(world)
        invariant sendList.Valid() && sendList.Items() == old(sendList.Items())
        decreases |callResults.Items()|
      {
        var h := callResults.PopFront();
        if h.None? {
          break;
        }
        freed := freed + [h.value];
      }
      NothingListed(objects, nextId);
      assert Valid() && Indexed(objects, Swept(world.records, world.pending));
      world := Step(world, Advance);
    }

    /** The network thread is about to store the reply in this record, or, `filled`, has done so. */
    ghost predicate Holds(b: CallResult, filled: bool)
      reads this, callResults, callResults.repr, callIds, callIds.repr, sendList, sendList.repr, objects.Values
    {
      Coupled() && world.network == Holding(b.callId, b.callId, filled) && b.callId in objects && objects[b.callId] == b
    }

    /** The network thread waits for this reply. */
    ghost predicate Expects(callId: int)
      reads this, callResults, callResults.repr, callIds, callIds.repr, sendList, sendList.repr, objects.Values
    {
      Coupled() && callId >= 0 && world.network == Fetching(callId)
    }
  }

  /** What popping a record does to the list. */
  ghost predicate Popped(r: Option<CallResult>, callId: int, was: seq<CallResult>, items: seq<CallResult>) {
    && (r.None? <==> forall b :: b in was ==> b.callId != callId)
    && (r.None? ==> items == was)
    && (r.Some? ==> r.value.callId == callId && r.value in was && r.value !in items)
    && (r.Some? ==> forall b :: b in items ==> b in was)
    && (r.Some? ==> forall b :: b in was && b != r.value ==> b in items)
    && (r.Some? ==> exists i :: TakenAt(was, i, r.value, items))
  }

  /** The others keep their order. */
  ghost predicate TakenAt(was: seq<CallResult>, i: nat, b: CallResult, items: seq<CallResult>) {
    i < |was| && was[i] == b && items == was[..i] + was[i + 1..]
  }

  lemma TakesOne(s: seq<CallResult>, callId: int, n: nat)
    requires IdsOk(s, n)
    ensures
      var i := IndexOf(s, CallIdOf, callId);
      if i < |s| then Popped(Some(s[i]), callId, s, Without(s, i)) && IdsOk(Without(s, i), n) else Popped(None, callId, s, s)
  {
    var i := IndexOf(s, CallIdOf, callId);
    FoundByKey(s, callId);
    if i < |s| {
      WithoutOne(s, i, n);
      assert CallIdOf(s[i]) == callId && s[i] in s;
      assert TakenAt(s, i, s[i], Without(s, i));
    }
  }

  lemma SameKeys(objects: map<nat, CallResult>, records: map<nat, Record>)
    requires Indexed(objects, records)
    ensures objects.Keys == records.Keys
  {
  }

  lemma ChangeCaller(objects: map<nat, CallResult>, records: map<nat, Record>, id: nat, caller: Caller)
    requires Indexed(objects, records) && id in records
    ensures Indexed(objects, records[id := records[id].(caller := caller)])
  {
  }

  // What the abstract steps come to while the invariant holds.

  lemma StartWaitQueues(w: World, id: nat)
    requires Inv(w) && id in w.records && MayWait(w.records[id])
    ensures
      Step(w, StartWait(id)) ==
        w.(records := w.records[id := w.records[id].(caller := Waiting)], callIds := w.callIds + [id])
  {
    assert RecordOk(w, id);
  }

  lemma EndWaitTells(w: World, id: nat)
    requires Inv(w) && id in w.records && w.records[id].caller.Waiting? && (!w.waitEnabled || w.records[id].flag != 0)
    ensures
      var r := w.records[id];
      Step(w, CallRecords.EndWait(id)) ==
        (if r.flag == 1 then w.(records := w.records[id := r.(caller := Owning)])
         else w.(records := w.records[id := r.(caller := GaveUp, flag := 2)], receiver := AfterFailure(w, r.owner)))
  {
    assert RecordOk(w, id);
  }

  lemma CompletedHasReply(w: World, id: nat)
    requires Inv(w) && id in w.records && w.records[id].caller.Owning?
    ensures w.records[id].reply == Some(id)
  {
    assert RecordOk(w, id);
  }

  lemma FinishFrees(w: World, id: nat, result: Result)
    requires Inv(w) && id in w.records && w.records[id].caller.Owning?
    ensures w.records[id].reply == Some(id)
    ensures
      Step(w, Finish(id, result)) ==
        w.(records := w.records[id := Free(w.records[id].(caller := Finished))],
           receiver := AfterReply(w, w.records[id].owner, result))
  {
    assert RecordOk(w, id);
  }

  lemma ReplyTells(w: World, owner: Owner, reply: seq<byte>)
    requires |reply| >= RESULT_HEADER
    ensures AfterReply(w, owner, ResultOf(reply)) ==
      if !owner.Receiver? || Says(reply, Data) then w.receiver
      else if Says(reply, Failed(true)) then Looping(true) else Left
  {
    hide Says, ResultOf;
    ResultReads(reply, Data);
    ResultReads(reply, Failed(true));
    ResultReads(reply, ResultOf(reply));
  }

  lemma QueueHead(w: World)
    requires Inv(w)
    ensures w.sendQueue != [] ==> w.sendQueue[0] in w.records
  {
    if w.sendQueue != [] {
      assert w.sendQueue[0] in w.sendQueue;
    }
  }

  lemma TakeFinds(w: World)
    requires Inv(w) && w.network.Fetching?
    ensures
      var id := w.network.id;
      var i := IndexOf(w.pending, IdKey, id);
      && i < |w.pending| && id in w.records
      && Step(w, TakeReply) == w.(pending := Without(w.pending, i), network := Holding(id, id, false))
  {
    assert RecordOk(w, w.network.id);
    FoundAt(w.pending, w.network.id);
  }

  /** The records with those of the list freed. */
  function Swept(records: map<nat, Record>, pending: seq<nat>): map<nat, Record> {
    map id | id in records :: if id in pending then Free(records[id]) else records[id]
  }

  lemma SweepFrees(w: World)
    requires Inv(w) && w.stage == StoppingNetwork && w.network.Stopped?
    ensures Step(w, Advance) == w.(records := Swept(w.records, w.pending), pending := [], stage := Destroyed)
  {
    assert forall id :: id in w.pending ==> id in w.records && RecordOk(w, id);
  }

  lemma AllFreed(objects: map<nat, CallResult>, records: map<nat, Record>, pending: seq<nat>)
    requires Indexed(objects, records)
    ensures Indexed(objects, Swept(records, pending))
  {
  }

  lemma NothingListed(objects: map<nat, CallResult>, n: nat)
    ensures Lists([], objects, []) && IdsOk([], n)
  {
  }

  lemma FillStores(w: World)
    requires Inv(w) && w.network.Holding? && !w.network.filled
    ensures
      var id := w.network.id;
      && id in w.records && (w.records[id].flag == 0 || w.records[id].flag == 2)
      && Step(w, FillData) ==
        w.(records := w.records[id := w.records[id].(reply := Some(id))], network := w.network.(filled := true))
  {
    assert RecordOk(w, w.network.id);
  }

  lemma CompleteTells(w: World)
    requires Inv(w) && w.network.Holding? && w.network.filled
    ensures
      var id := w.network.id;
      && id in w.records
      && Step(w, Complete) ==
        w.(records := w.records[id := if w.records[id].flag == 0 then w.records[id].(flag := 1) else Free(w.records[id])],
           network := Idle)
  {
    assert RecordOk(w, w.network.id);
  }

  lemma AllocateAdds(w: World, owner: Owner)
    requires MayAllocate(w, owner)
    ensures
      Step(w, Allocate(owner)) ==
        w.(records := w.records[w.nextId := Record(owner, Allocated, 0, None, 0)],
           pending := w.pending + [w.nextId], nextId := w.nextId + 1)
  {
  }

  ghost predicate IdsOk(s: seq<CallResult>, n: nat) {
    && (forall i :: 0 <= i < |s| ==> s[i].callId < n)
    && forall i, j :: 0 <= i < j < |s| ==> s[i].callId != s[j].callId
  }

  lemma NewIdIsNew(s: seq<CallResult>, n: nat, b: CallResult)
    requires IdsOk(s, n) && b.callId == n
    ensures IdsOk(s + [b], n + 1) && IndexOf(s, CallIdOf, n) == |s|
  {
    FoundByKey(s, n);
  }

  lemma FoundByKey(s: seq<CallResult>, id: int)
    ensures IndexOf(s, CallIdOf, id) == |s| <==> forall b :: b in s ==> b.callId != id
  {
    var i := IndexOf(s, CallIdOf, id);
    if i < |s| {
      assert CallIdOf(s[i]) == id && s[i] in s;
    }
  }

  lemma WithoutOne(s: seq<CallResult>, i: nat, n: nat)
    requires IdsOk(s, n) && i < |s|
    ensures IdsOk(Without(s, i), n)
    ensures forall b :: b in Without(s, i) <==> b in s && b != s[i]
  {
    var r := Without(s, i);
    forall b | b in s && b != s[i]
      ensures b in r
    {
      var k :| 0 <= k < |s| && s[k] == b;
      assert r[if k < i then k else k - 1] == b;
    }
  }
}
