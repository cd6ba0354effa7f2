/**
 The life of call records: callers that wait, the network thread that
 completes calls, cancellation, and the destructor. Who frees a record is
 decided by its completion flag; here are all interleavings of the steps that
 the locks make atomic. `ProxyClients` carries the steps out in place.
 */
module CallRecords {
  import opened LinkedLists
  import opened Memory

  /** The thread that waits for a call: the client's own, the sender's or the receiver's. */
  datatype Owner = Main | Sender | Receiver

  /** Where the caller is with its record. */
  datatype Caller =
    | Allocated                 // in the list, the request not yet out: an exception can still end the call
    | Requested                 // the request is out: the wait, or the sender's queue, comes next for certain
    | Queued                    // in the sender's queue
    | Taken                     // taken from it by the sending thread
    | Waiting                   // in wait_for_call_result, the id is with the network thread
    | Owning                    // told that the call completed
    | GaveUp                    // told that it did not
    | Abandoned                 // left by an exception
    | Finished                  // freed the record

  /** `operationCompleted` is 0, 1 or 2; `reply` is the call the stored data answers; `frees` counts calls of
      `free_call_result`. */
  datatype Record = Record(owner: Owner, caller: Caller, flag: nat, reply: Option<nat>, frees: nat)

  /**
   The network thread: waiting for a call id, receiving the reply to a call,
   with a record it took off the list, or returned.
   */
  datatype Network = Idle | Fetching(id: nat) | Holding(id: nat, reply: nat, filled: bool) | Stopped

  /** The receiving thread: `again` tells that its errno is EAGAIN or EINTR, which makes it repeat a failed call. */
  datatype RecvThread = NotStarted | Looping(again: bool) | Left

  /** What a reply to the receiving thread says: octets, the peer's close, or an error, which sets errno. */
  datatype Result = Data | Closed | Failed(again: bool)

  /** How far the destructor is: each stage begins when the threads of the one before are joined. */
  datatype Stage = Running | StoppingSender | StoppingReceiver | StoppingNetwork | Destroyed

  datatype World = World(
    records: map<nat, Record>,
    nextId: nat,
    pending: seq<nat>,
    sendQueue: seq<nat>,
    callIds: seq<nat>,
    network: Network,
    receiver: RecvThread,
    waitEnabled: bool,
    stage: Stage,
    /** Set when a freed record is touched or one of the code's assertions fails. */
    bad: bool)

  datatype Event =
    | Connect
    | Allocate(owner: Owner)
    | Abandon(id: nat)
    | Request(id: nat)
    | Enqueue(id: nat)
    | Dequeue
    | StartWait(id: nat)
    | EndWait(id: nat)
    | Finish(id: nat, result: Result)
    | TakeId
    | TakeReply
    | FillData
    | Complete
    | StopNetwork
    | FailReceive
    | Advance

  const START := World(map[], 1, [], [], [], Idle, NotStarted, true, Running, false)

  const IdKey: nat -> int := (id: nat) => id

  /** Whether a thread runs; the sending and the receiving thread start together. */
  predicate Alive(w: World, thread: Owner) {
    match thread
    case Main => w.stage == Running
    case Sender => w.receiver != NotStarted && (w.stage == Running || w.stage == StoppingSender)
    case Receiver => w.receiver.Looping?
  }

  /** A thread inside a call with this record; a send is the client's call until it is queued. */
  predicate InCall(r: Record, thread: Owner) {
    match thread
    case Main =>
      || (r.owner.Main? && (r.caller.Allocated? || r.caller.Requested? || r.caller.Waiting? || r.caller.Owning?))
      || (r.owner.Sender? && (r.caller.Allocated? || r.caller.Requested?))
    case Sender =>
      r.owner.Sender? && (r.caller.Taken? || r.caller.Waiting? || r.caller.Owning?)
    case Receiver =>
      r.owner.Receiver? && (r.caller.Allocated? || r.caller.Requested? || r.caller.Waiting? || r.caller.Owning?)
  }

  predicate Busy(w: World, thread: Owner) {
    exists id :: id in w.records && InCall(w.records[id], thread)
  }

  /** Calls are made by running threads; sends follow the connect, and the receiving thread makes one call at a time. */
  predicate MayAllocate(w: World, owner: Owner) {
    match owner
    case Main => Alive(w, Main)
    case Sender => Alive(w, Main) && w.receiver != NotStarted
    case Receiver => Alive(w, Receiver) && !Busy(w, Receiver)
  }

  predicate MayWait(r: Record) {
    r.caller.Taken? || (r.caller.Requested? && !r.owner.Sender?)
  }

  /** A wait can end: the call is complete, or waits are cancelled. */
  predicate WaitIsOver(w: World, r: Record) {
    r.caller.Waiting? && (!w.waitEnabled || r.flag != 0)
  }

  /** A record about to be used: fine as long as it was not freed. */
  predicate Live(w: World, id: nat) {
    id in w.records && w.records[id].frees == 0
  }

  function Put(w: World, id: nat, r: Record): World {
    w.(records := w.records[id := r])
  }

  function Free(r: Record): Record {
    r.(frees := r.frees + 1)
  }

  /** A receive call that gave up returns -1, and errno decides whether the loop goes on. */
  function AfterFailure(w: World, owner: Owner): RecvThread {
    if owner.Receiver? && w.receiver.Looping? && !w.receiver.again then Left else w.receiver
  }

  function AfterReply(w: World, owner: Owner, result: Result): RecvThread {
    if !owner.Receiver? then w.receiver else
    match result
    case Data => w.receiver
    case Closed => Left
    case Failed(again) => if again then Looping(true) else Left
  }

  /** One step of one thread; a step that is not possible changes nothing. */
  function Step(w: World, e: Event): World {
    match e
    case Connect =>
      if Alive(w, Main) && w.receiver == NotStarted then w.(receiver := Looping(false)) else w
    case Allocate(owner) =>
      if MayAllocate(w, owner)
      then w.(records := w.records[w.nextId := Record(owner, Allocated, 0, None, 0)],
              pending := w.pending + [w.nextId], nextId := w.nextId + 1)
      else w
    case Abandon(id) =>
      // by an exception that the client catches; in the receiving thread it would end the program
      if id in w.records && w.records[id].caller.Allocated? && !w.records[id].owner.Receiver?
      then Put(w, id, w.records[id].(caller := Abandoned))
      else w
    case Request(id) =>
      if id in w.records && w.records[id].caller.Allocated?
      then Put(w, id, w.records[id].(caller := Requested))
      else w
    case Enqueue(id) =>
      if id in w.records && w.records[id].caller.Requested? && w.records[id].owner.Sender?
      then Put(w.(sendQueue := w.sendQueue + [id]), id, w.records[id].(caller := Queued))
      else w
    case Dequeue =>
      if w.sendQueue != [] && w.sendQueue[0] in w.records && !Busy(w, Sender)
      then Put(w.(sendQueue := w.sendQueue[1..]), w.sendQueue[0], w.records[w.sendQueue[0]].(caller := Taken))
      else w
    case StartWait(id) =>
      if id in w.records && MayWait(w.records[id])
      then Put(w.(callIds := w.callIds + [id], bad := w.bad || !Live(w, id)), id, w.records[id].(caller := Waiting))
      else w
    case EndWait(id) =>
      if id in w.records && WaitIsOver(w, w.records[id]) then
        var r, v := w.records[id], w.(bad := w.bad || !Live(w, id));
        if r.flag == 1 then Put(v, id, r.(caller := Owning))
        else Put(v.(receiver := AfterFailure(w, r.owner)), id, r.(caller := GaveUp, flag := 2))
      else w
    case Finish(id, result) =>
      if id in w.records && w.records[id].caller.Owning? then
        var r := w.records[id];
        Put(w.(bad := w.bad || !Live(w, id) || r.reply.None?, receiver := AfterReply(w, r.owner, result)), id,
            Free(r.(caller := Finished)))
      else w
    case TakeId =>
      if w.network.Idle? && w.callIds != [] then w.(callIds := w.callIds[1..], network := Fetching(w.callIds[0])) else w
    case TakeReply =>
      // the reply to the call has come, and its record is looked for
      if w.network.Fetching? then
        var id, i := w.network.id, IndexOf(w.pending, IdKey, w.network.id);
        if i < |w.pending| then w.(pending := Without(w.pending, i), network := Holding(w.pending[i], id, false))
        else w.(bad := true)
      else w
    case FillData =>
      if w.network.Holding? && !w.network.filled then
        var id := w.network.id;
        if !Live(w, id) then w.(bad := true) else
        // the data is stored and then the flag is looked at, both without the lock
        var r := w.records[id];
        Put(w.(network := w.network.(filled := true), bad := w.bad || (r.flag != 0 && r.flag != 2)), id, r.(reply := Some(w.network.reply)))
      else w
    case Complete =>
      if w.network.Holding? && w.network.filled then
        var id := w.network.id;
        if !Live(w, id) then w.(bad := true) else
        var r := w.records[id];
        Put(w.(network := Idle), id, if r.flag == 0 then r.(flag := 1) else Free(r))
      else w
    case StopNetwork =>
      // the destructor asked and no id is queued
      if w.network.Idle? && w.stage == StoppingNetwork && w.callIds == [] then w.(network := Stopped) else w
    case FailReceive =>
      // no reply comes for the call
      if w.network.Fetching? then w.(network := Stopped) else w
    case Advance =>
      match w.stage
      case Running => if Busy(w, Main) then w else w.(stage := StoppingSender)
      case StoppingSender => if Busy(w, Sender) || w.sendQueue != [] then w else w.(stage := StoppingReceiver, waitEnabled := false)
      case StoppingReceiver => if w.receiver.Looping? then w else w.(stage := StoppingNetwork)
      case StoppingNetwork =>
        if !w.network.Stopped? then w else
        w.(records := map id | id in w.records :: if id in w.pending then Free(w.records[id]) else w.records[id],
           bad := w.bad || exists id :: id in w.pending && !Live(w, id),
           pending := [], stage := Destroyed)
      case Destroyed => w
  }

  function Run(w: World, events: seq<Event>): World
    decreases |events|
  {
    if events == [] then w else Run(Step(w, events[0]), events[1..])
  }

  predicate Distinct(s: seq<nat>) {
    forall i, j :: 0 <= i < j < |s| ==> s[i] != s[j]
  }

  /** Before the network thread hears of the call. */
  predicate Early(caller: Caller) {
    caller.Allocated? || caller.Requested? || caller.Queued? || caller.Taken?
  }

  /** Who answers for a record, by where it is and what its flag says. */
  predicate Accounted(r: Record, id: nat, listed: bool, queued: bool, asked: bool, held: bool, filled: bool, serving: bool, destroyed: bool) {
    && (Early(r.caller) || r.caller.Abandoned? ==> r.flag == 0 && !held && !asked)
    && (r.caller.Queued? <==> queued) && (r.caller.Queued? || r.caller.Taken? ==> r.owner.Sender?)
    && (r.caller.Waiting? ==> r.flag <= 1)
    && (r.caller.Waiting? && r.flag == 0 && serving ==> asked || held)
    && (r.caller.Owning? || r.caller.Finished? ==> r.flag == 1)
    && (r.caller.GaveUp? ==> r.flag == 2)
    && (asked ==> (listed || destroyed) && (r.caller.Waiting? || r.caller.GaveUp?))
    && (r.flag == 1 ==> r.reply == Some(id))
    && if listed then
         // nobody's yet: freed with the list at the latest
         !held && r.frees == 0 && r.flag != 1 && !destroyed
       else if held then
         // the network thread's
         r.frees == 0 && r.flag != 1 && !destroyed && (filled ==> r.reply == Some(id))
       else if r.flag == 1 then
         // the caller's
         r.frees == if r.caller.Finished? then 1 else 0
       else
         // freed: by the network thread after the caller gave up, or with the list
         r.frees == 1 && !r.caller.Waiting? && (r.caller.GaveUp? || destroyed)
  }

  /** The network thread is to fetch the reply to this call, or does so now. */
  predicate Asked(w: World, id: nat) {
    id in w.callIds || (w.network.Fetching? && w.network.id == id)
  }

  predicate Held(w: World, id: nat) {
    w.network.Holding? && w.network.id == id
  }

  predicate RecordOk(w: World, id: nat)
    requires id in w.records
  {
    Accounted(w.records[id], id, id in w.pending, id in w.sendQueue, Asked(w, id), Held(w, id), Held(w, id) && w.network.filled,
              !w.network.Stopped?, w.stage == Destroyed)
  }

  /** A thread that is not started, or was joined, is in no call, and no send waits for it. */
  predicate OwnerOk(w: World, r: Record) {
    && (InCall(r, Main) ==> Alive(w, Main)) && (InCall(r, Sender) ==> Alive(w, Sender)) && (InCall(r, Receiver) ==> Alive(w, Receiver))
    && (r.caller.Queued? ==> Alive(w, Sender)) && (r.owner.Sender? ==> w.receiver != NotStarted)
  }

  /** The receiving thread is in one call at most. */
  ghost predicate OneReceive(records: map<nat, Record>) {
    forall x, y :: x in records && y in records && InCall(records[x], Receiver) && InCall(records[y], Receiver) ==> x == y
  }

  ghost predicate ListsOk(w: World) {
    && (forall id :: id in w.pending || id in w.sendQueue || id in w.callIds ==> id in w.records)
    && Distinct(w.pending) && Distinct(w.sendQueue) && Distinct(w.callIds)
    && (w.network.Fetching? ==> w.network.id in w.records && w.network.id !in w.callIds)
    && (w.network.Holding? ==> w.network.id in w.records && w.network.reply == w.network.id)
    && (w.waitEnabled <==> w.stage == Running || w.stage == StoppingSender)
    && (w.receiver.Looping? ==> w.waitEnabled || w.stage == StoppingReceiver)
    && (w.stage == Destroyed ==> w.network.Stopped?)
  }

  ghost predicate Inv(w: World) {
    && !w.bad
    && ListsOk(w) && OneReceive(w.records)
    && (forall id :: id in w.records ==> id < w.nextId && RecordOk(w, id) && OwnerOk(w, w.records[id]))
  }

  lemma StartsWell()
    ensures Inv(START)
  {
  }

  lemma NextIdIsNew(w: World)
    requires Inv(w)
    ensures w.nextId !in w.records && w.nextId !in w.pending && w.nextId !in w.sendQueue && !Asked(w, w.nextId) && !Held(w, w.nextId)
  {
  }

  /**
   One record changes, or appears; the lists may change as long as no other
   record enters or leaves them.
   */
  lemma OneRecord(w: World, v: World, id: nat, r: Record)
    requires Inv(w) && !v.bad && ListsOk(v)
    requires v.records == w.records[id := r] && v.stage == w.stage && v.nextId >= w.nextId && id < v.nextId
    requires forall x :: x != id ==> (x in v.pending <==> x in w.pending) && (Asked(v, x) <==> Asked(w, x))
    requires forall x :: x != id ==> (x in v.sendQueue <==> x in w.sendQueue)
    requires w.receiver != NotStarted ==> v.receiver != NotStarted
    requires v.receiver.Looping? || forall x :: x in w.records && x != id ==> !InCall(w.records[x], Receiver)
    requires InCall(r, Receiver) ==> forall x :: x in w.records && x != id ==> !InCall(w.records[x], Receiver)
    requires v.network.Stopped? == w.network.Stopped?
    requires forall x :: x in w.records && x != id && (Held(v, x) || Held(w, x)) ==> v.network == w.network
    requires RecordOk(v, id) && OwnerOk(v, r)
    ensures Inv(v)
  {
    hide Accounted, InCall;
    forall x | x in v.records
      ensures x < v.nextId && RecordOk(v, x) && OwnerOk(v, v.records[x])
    {
      assert x != id ==> RecordOk(w, x) && OwnerOk(w, w.records[x]);
    }
  }

  /** Whichever thread made the call. */
  lemma Others(w: World, id: nat)
    requires Inv(w) && id in w.records
    ensures InCall(w.records[id], Receiver) ==> forall x :: x in w.records && x != id ==> !InCall(w.records[x], Receiver)
  {
    hide InCall, Accounted, Distinct;
  }

  lemma ConnectKeeps(w: World)
    requires Inv(w)
    ensures Inv(Step(w, Connect))
  {
    hide Accounted, Distinct, InCall;
    var v := Step(w, Connect);
    forall id | id in v.records
      ensures RecordOk(v, id) && OwnerOk(v, v.records[id])
    {
      assert RecordOk(w, id) && OwnerOk(w, w.records[id]);
    }
  }

  lemma AllocateKeeps(w: World, owner: Owner)
    requires Inv(w)
    ensures Inv(Step(w, Allocate(owner)))
  {
    hide Distinct;
    var v := Step(w, Allocate(owner));
    if v != w {
      NextIdIsNew(w);
      Appended(w.pending, w.nextId);
      NobodyReceives(w);
      OneRecord(w, v, w.nextId, v.records[w.nextId]);
    }
  }

  lemma Appended(s: seq<nat>, id: nat)
    requires Distinct(s) && id !in s
    ensures Distinct(s + [id]) && forall x :: x in s + [id] <==> x in s || x == id
  {
  }

  lemma NobodyReceives(w: World)
    requires Inv(w)
    ensures !w.receiver.Looping? || !Busy(w, Receiver) ==> forall x :: x in w.records ==> !InCall(w.records[x], Receiver)
  {
    hide Accounted, Distinct, InCall;
    assert forall x :: x in w.records ==> OwnerOk(w, w.records[x]);
  }

  /** A record whose thread stays in its call, or leaves it. */
  lemma CallerKeeps(w: World, v: World, id: nat)
    requires Inv(w) && id in w.records && id in v.records && v.records == w.records[id := v.records[id]]
    requires v == w.(records := v.records, sendQueue := v.sendQueue, callIds := v.callIds, receiver := v.receiver)
    requires ListsOk(v) && RecordOk(v, id) && OwnerOk(v, v.records[id])
    requires forall x :: x != id ==> (x in v.sendQueue <==> x in w.sendQueue) && (x in v.callIds <==> x in w.callIds)
    requires InCall(v.records[id], Receiver) ==> InCall(w.records[id], Receiver)
    requires v.receiver == w.receiver || (v.receiver != NotStarted && InCall(w.records[id], Receiver))
    ensures Inv(v)
  {
    hide Accounted, Distinct, InCall, RecordOk, ListsOk;
    NobodyReceives(w);
    Others(w, id);
    OneRecord(w, v, id, v.records[id]);
  }

  lemma EarlyKeeps(w: World, e: Event)
    requires Inv(w) && (e.Abandon? || e.Request?)
    ensures Inv(Step(w, e))
  {
    hide Distinct;
    var v := Step(w, e);
    if v != w {
      assert RecordOk(w, e.id) && OwnerOk(w, w.records[e.id]);
      CallerKeeps(w, v, e.id);
    }
  }

  lemma EnqueueKeeps(w: World, id: nat)
    requires Inv(w)
    ensures Inv(Step(w, Enqueue(id)))
  {
    hide Distinct;
    var v := Step(w, Enqueue(id));
    if v != w {
      assert RecordOk(w, id) && OwnerOk(w, w.records[id]);
      Appended(w.sendQueue, id);
      CallerKeeps(w, v, id);
    }
  }

  lemma DequeueKeeps(w: World)
    requires Inv(w)
    ensures Inv(Step(w, Dequeue))
  {
    hide Distinct;
    var v := Step(w, Dequeue);
    if v != w {
      var id := w.sendQueue[0];
      assert RecordOk(w, id) && OwnerOk(w, w.records[id]);
      TailMembers(w.sendQueue);
      CallerKeeps(w, v, id);
    }
  }

  lemma StartWaitKeeps(w: World, id: nat)
    requires Inv(w)
    ensures Inv(Step(w, StartWait(id)))
  {
    hide Distinct;
    var v := Step(w, StartWait(id));
    if v != w {
      assert RecordOk(w, id) && OwnerOk(w, w.records[id]);
      Appended(w.callIds, id);
      CallerKeeps(w, v, id);
    }
  }

  lemma EndWaitKeeps(w: World, id: nat)
    requires Inv(w)
    ensures Inv(Step(w, EndWait(id)))
  {
    hide Distinct;
    var v := Step(w, EndWait(id));
    if v != w {
      assert RecordOk(w, id) && OwnerOk(w, w.records[id]);
      CallerKeeps(w, v, id);
    }
  }

  lemma FinishKeeps(w: World, id: nat, result: Result)
    requires Inv(w)
    ensures Inv(Step(w, Finish(id, result)))
  {
    hide Distinct;
    var v := Step(w, Finish(id, result));
    if v != w {
      assert RecordOk(w, id) && OwnerOk(w, w.records[id]);
      CallerKeeps(w, v, id);
    }
  }

  lemma FoundAt(s: seq<nat>, id: nat)
    requires id in s
    ensures IndexOf(s, IdKey, id) < |s| && s[IndexOf(s, IdKey, id)] == id
  {
    var k :| 0 <= k < |s| && s[k] == id;
    assert IdKey(s[k]) == id;
    assert IdKey(s[IndexOf(s, IdKey, id)]) == id;
  }

  lemma TailMembers(s: seq<nat>)
    requires s != [] && Distinct(s)
    ensures forall x :: x in s[1..] <==> x in s && x != s[0]
    ensures Distinct(s[1..])
  {
  }

  lemma MembersWithout(s: seq<nat>, i: nat)
    requires i < |s| && Distinct(s)
    ensures forall x :: x in Without(s, i) <==> x in s && x != s[i]
    ensures Distinct(Without(s, i))
  {
    var r := Without(s, i);
    forall x | x in s && x != s[i]
      ensures x in r
    {
      var k :| 0 <= k < |s| && s[k] == x;
      assert r[if k < i then k else k - 1] == x;
    }
  }

  lemma TakeIdKeeps(w: World)
    requires Inv(w)
    ensures Inv(Step(w, TakeId))
  {
    if w.network.Idle? && w.callIds != [] {
      var id := w.callIds[0];
      assert id in w.callIds && RecordOk(w, id) && OwnerOk(w, w.records[id]);
      TailMembers(w.callIds);
      NobodyReceives(w);
      Others(w, id);
      OneRecord(w, Step(w, TakeId), id, w.records[id]);
    }
  }

  /** The network thread finds the record of every reply it takes. */
  lemma TakeKeeps(w: World)
    requires Inv(w)
    ensures Inv(Step(w, TakeReply))
  {
    if w.network.Fetching? {
      var id, i := w.network.id, IndexOf(w.pending, IdKey, w.network.id);
      assert RecordOk(w, id) && OwnerOk(w, w.records[id]);
      FoundAt(w.pending, id);
      MembersWithout(w.pending, i);
      NobodyReceives(w);
      Others(w, id);
      OneRecord(w, Step(w, TakeReply), id, w.records[id]);
    }
  }

  lemma FillKeeps(w: World)
    requires Inv(w)
    ensures Inv(Step(w, FillData))
  {
    if w.network.Holding? && !w.network.filled {
      var id := w.network.id;
      assert RecordOk(w, id) && OwnerOk(w, w.records[id]);
      NobodyReceives(w);
      Others(w, id);
      OneRecord(w, Step(w, FillData), id, w.records[id].(reply := Some(w.network.reply)));
    }
  }

  lemma CompleteKeeps(w: World)
    requires Inv(w)
    ensures Inv(Step(w, Complete))
  {
    if w.network.Holding? && w.network.filled {
      var id, v := w.network.id, Step(w, Complete);
      assert RecordOk(w, id) && OwnerOk(w, w.records[id]);
      NobodyReceives(w);
      Others(w, id);
      OneRecord(w, v, id, v.records[id]);
    }
  }

  lemma NetworkStopKeeps(w: World, e: Event)
    requires Inv(w) && (e.StopNetwork? || e.FailReceive?)
    ensures Inv(Step(w, e))
  {
    var v := Step(w, e);
    forall id | id in v.records
      ensures RecordOk(v, id)
    {
      assert RecordOk(w, id) && OwnerOk(w, w.records[id]);
    }
  }

  lemma QueuedIsIn(w: World, id: nat)
    requires Inv(w) && id in w.records
    ensures w.records[id].caller.Queued? <==> id in w.sendQueue
  {
    assert RecordOk(w, id);
  }

  /** The destructor joins the sending, the receiving and the network thread in turn. */
  lemma JoinKeeps(w: World)
    requires Inv(w) && w.stage != StoppingNetwork
    ensures Inv(Step(w, Advance))
  {
    hide Accounted, Distinct, InCall;
    var v := Step(w, Advance);
    assert v.records == w.records;
    forall id | id in v.records
      ensures RecordOk(v, id) && OwnerOk(v, v.records[id])
    {
      assert RecordOk(w, id) && OwnerOk(w, w.records[id]);
      QueuedIsIn(w, id);
    }
  }

  /** A record that no thread is in a call with, once the list is swept. */
  lemma SweptAccounted(r: Record, id: nat, listed: bool, asked: bool)
    requires Accounted(r, id, listed, false, asked, false, false, false, false)
    requires !InCall(r, Main) && !InCall(r, Sender) && !InCall(r, Receiver)
    ensures Accounted(if listed then Free(r) else r, id, false, false, asked, false, false, false, true)
  {
  }

  lemma SameThread(r: Record, t: Owner)
    ensures InCall(Free(r), t) == InCall(r, t)
  {
  }

  /** All records that no thread is in a call with. */
  lemma NobodyCalls(w: World, id: nat)
    requires Inv(w) && w.stage == StoppingNetwork && id in w.records
    ensures !InCall(w.records[id], Main) && !InCall(w.records[id], Sender) && !InCall(w.records[id], Receiver)
    ensures w.sendQueue == []
  {
    hide Accounted, Distinct, InCall;
    assert OwnerOk(w, w.records[id]);
    NobodyQueued(w);
  }

  lemma NobodyQueued(w: World)
    requires Inv(w) && w.stage == StoppingNetwork
    ensures w.sendQueue == []
  {
    hide Accounted, Distinct, InCall;
    if w.sendQueue != [] {
      QueuedIsIn(w, w.sendQueue[0]);
      assert false;
    }
  }

  /** Only then are the records still in the list freed. */
  lemma SweepKeeps(w: World)
    requires Inv(w) && w.stage == StoppingNetwork
    ensures Inv(Step(w, Advance))
  {
    hide Busy, Accounted, InCall;
    if w.network.Stopped? {
      NobodyQueued(w);
      var v := Step(w, Advance);
      forall id | id in v.records
        ensures RecordOk(v, id) && OwnerOk(v, v.records[id])
      {
        assert RecordOk(w, id) && OwnerOk(w, w.records[id]);
        NobodyCalls(w, id);
        SweptAccounted(w.records[id], id, id in w.pending, Asked(w, id));
        SameThread(w.records[id], Main);
        SameThread(w.records[id], Sender);
        SameThread(w.records[id], Receiver);
      }
      ListedAreLive(w);
    }
  }

  lemma ListedAreLive(w: World)
    requires Inv(w)
    ensures forall id :: id in w.pending ==> Live(w, id)
  {
    forall id | id in w.pending
      ensures Live(w, id)
    {
      assert RecordOk(w, id);
    }
  }

  lemma StepKeeps(w: World, e: Event)
    requires Inv(w)
    ensures Inv(Step(w, e))
  {
    hide *;
    match e
    case Connect => ConnectKeeps(w);
    case Allocate(owner) => AllocateKeeps(w, owner);
    case Abandon(_) => EarlyKeeps(w, e);
    case Request(_) => EarlyKeeps(w, e);
    case Enqueue(id) => EnqueueKeeps(w, id);
    case Dequeue => DequeueKeeps(w);
    case StartWait(id) => StartWaitKeeps(w, id);
    case EndWait(id) => EndWaitKeeps(w, id);
    case Finish(id, result) => FinishKeeps(w, id, result);
    case TakeId => TakeIdKeeps(w);
    case TakeReply => TakeKeeps(w);
    case FillData => FillKeeps(w);
    case Complete => CompleteKeeps(w);
    case StopNetwork => NetworkStopKeeps(w, e);
    case FailReceive => NetworkStopKeeps(w, e);
    case Advance => if w.stage == StoppingNetwork { SweepKeeps(w); } else { JoinKeeps(w); }
  }

  lemma {:induction false} RunKeeps(w: World, events: seq<Event>)
    requires Inv(w)
    ensures Inv(Run(w, events))
    decreases |events|
  {
    if events != [] {
      StepKeeps(w, events[0]);
      RunKeeps(Step(w, events[0]), events[1..]);
    }
  }

  /**
   In no run is a record used after it was freed, be it only while the list is
   walked or the flag is looked at in a wait, or freed twice; no assertion of the
   code fails, every reply finds its record, and a caller that is told its call
   completed finds the reply to that very call in a record not yet freed.
   */
  lemma NeverUsedAfterFree(events: seq<Event>, id: nat)
    requires id in Run(START, events).records
    ensures
      var w := Run(START, events);
      !w.bad && w.records[id].frees <= 1 && (id in w.pending ==> w.records[id].frees == 0) &&
      (w.records[id].caller.Waiting? ==> w.records[id].frees == 0) &&
      (w.records[id].caller.Owning? ==> w.records[id].reply == Some(id) && w.records[id].frees == 0)
  {
    StartsWell();
    RunKeeps(START, events);
    assert RecordOk(Run(START, events), id);
  }

  /** Once the destructor is through, every record was freed exactly once. */
  lemma FreedExactlyOnce(events: seq<Event>, id: nat)
    requires Run(START, events).stage == Destroyed && id in Run(START, events).records
    ensures Run(START, events).records[id].frees == 1
  {
    var w := Run(START, events);
    StartsWell();
    RunKeeps(START, events);
    assert RecordOk(w, id) && OwnerOk(w, w.records[id]);
  }

  // ----- one send after another

  ghost predicate OneSend(records: map<nat, Record>) {
    forall x, y :: x in records && y in records && InCall(records[x], Sender) && InCall(records[y], Sender) ==> x == y
  }

  /** Only taking a send from the queue puts the sending thread into a call. */
  lemma SenderCalls(w: World, e: Event, x: nat)
    requires x in Step(w, e).records && InCall(Step(w, e).records[x], Sender)
    ensures (x in w.records && InCall(w.records[x], Sender)) || (e.Dequeue? && w.sendQueue != [] && x == w.sendQueue[0])
  {
    hide Busy, MayAllocate;
  }

  lemma OneSendStays(w: World, e: Event)
    requires OneSend(w.records)
    ensures OneSend(Step(w, e).records)
  {
    hide Step, InCall;
    var v := Step(w, e);
    if e.Dequeue? && v != w {
      DequeueIsAlone(w);
    }
    forall x, y | x in v.records && y in v.records && InCall(v.records[x], Sender) && InCall(v.records[y], Sender)
      ensures x == y
    {
      SenderCalls(w, e, x);
      SenderCalls(w, e, y);
    }
  }

  lemma DequeueIsAlone(w: World)
    requires Step(w, Dequeue) != w
    ensures forall x :: x in w.records ==> !InCall(w.records[x], Sender)
  {
  }

  lemma {:induction false} OneSendHolds(w: World, events: seq<Event>)
    requires OneSend(w.records)
    ensures OneSend(Run(w, events).records)
    decreases |events|
  {
    hide Step, OneSend;
    if events != [] {
      OneSendStays(w, events[0]);
      OneSendHolds(Step(w, events[0]), events[1..]);
    }
  }

  /** In every run the sending thread waits for one send at a time, and the receiving thread for one reply. */
  lemma OneCallEach(events: seq<Event>)
    ensures OneSend(Run(START, events).records) && OneReceive(Run(START, events).records)
  {
    hide Run, ListsOk, OneSend, OneReceive;
    NoSendYet();
    OneSendHolds(START, events);
    StartsWell();
    RunKeeps(START, events);
  }

  lemma NoSendYet()
    ensures OneSend(START.records)
  {
  }

  // ----- the network thread serves all that is asked for

  predicate Fails(events: seq<Event>) {
    FailReceive in events
  }

  /** It has returned at the end only, and with nothing queued. */
  predicate ServedAll(w: World) {
    w.network.Stopped? ==> w.callIds == [] && (w.stage == StoppingNetwork || w.stage == Destroyed)
  }

  /** By then no thread begins to wait any more. */
  lemma NobodyWaitsLate(w: World, id: nat)
    requires Inv(w) && id in w.records && (w.stage == StoppingNetwork || w.stage == Destroyed)
    ensures !MayWait(w.records[id])
  {
    hide Accounted;
    assert OwnerOk(w, w.records[id]) && RecordOk(w, id);
    EarlyFacts(w, id);
  }

  lemma ServedAllStays(w: World, e: Event)
    requires Inv(w) && ServedAll(w) && !e.FailReceive?
    ensures ServedAll(Step(w, e))
  {
    hide Inv, Busy, MayWait, WaitIsOver, MayAllocate;
    if e.StartWait? && e.id in w.records && w.network.Stopped? {
      NobodyWaitsLate(w, e.id);
    }
  }

  lemma {:induction false} ServedAllHolds(w: World, events: seq<Event>)
    requires Inv(w) && ServedAll(w) && !Fails(events)
    ensures ServedAll(Run(w, events))
    decreases |events|
  {
    hide Inv, ServedAll, Step;
    if events != [] {
      assert events[0] in events;
      StepKeeps(w, events[0]);
      ServedAllStays(w, events[0]);
      ServedAllHolds(Step(w, events[0]), events[1..]);
    }
  }

  /** In every run in which no receive fails, the network thread has fetched the replies to all calls when it returns. */
  lemma NetworkServesAll(events: seq<Event>)
    requires !Fails(events)
    ensures
      var w := Run(START, events);
      w.network.Stopped? ==> w.callIds == [] && (w.stage == StoppingNetwork || w.stage == Destroyed)
  {
    hide Run, Inv;
    StartsWell();
    ServedAllHolds(START, events);
  }

  // ----- whether the destructor ends

  /** A call of the client or its sending thread that will wait, or waits, and has no reply yet. */
  predicate NeedsReply(r: Record) {
    && !r.owner.Receiver?
    && (r.caller.Requested? || r.caller.Queued? || r.caller.Taken? || (r.caller.Waiting? && r.flag == 0))
  }

  /** A completed call of the receiving thread. */
  predicate GotReply(r: Record) {
    r.owner.Receiver? && (r.caller.Waiting? || r.caller.Owning?) && r.flag == 1
  }

  /** The client or its sending thread needs a reply, and waits are not cancelled before it has it. */
  predicate SendBlocked(w: World) {
    w.waitEnabled && exists id :: id in w.records && NeedsReply(w.records[id])
  }

  /** The receiving thread repeats its call for ever, because errno stays as it is without a reply. */
  predicate ReceiveBlocked(w: World) {
    w.receiver == Looping(true) && forall id :: id in w.records ==> !GotReply(w.records[id])
  }

  predicate Blocked(w: World) {
    w.network.Stopped? && (SendBlocked(w) || ReceiveBlocked(w))
  }

  lemma EarlyFacts(w: World, id: nat)
    requires Inv(w) && id in w.records
    ensures
      var r := w.records[id];
      && (Early(r.caller) ==> r.flag == 0 && !Asked(w, id) && !Held(w, id))
      && (r.caller.Queued? || r.caller.Taken? ==> r.owner.Sender?)
      && (Held(w, id) ==> r.caller.Waiting? || r.caller.GaveUp?)
  {
    assert RecordOk(w, id);
  }

  /** Nobody can help: the destructor joins the sending thread before it cancels waits. */
  lemma SendBlockedStays(w: World, e: Event)
    requires Inv(w) && w.network.Stopped? && SendBlocked(w)
    ensures Step(w, e).network.Stopped? && SendBlocked(Step(w, e))
  {
    hide Accounted, Distinct;
    var id :| id in w.records && NeedsReply(w.records[id]);
    var v := Step(w, e);
    assert OwnerOk(w, w.records[id]);
    QueuedIsIn(w, id);
    EarlyFacts(w, id);
    if e.Allocate? {
      NextIdIsNew(w);
    } else if e.Advance? {
      assert InCall(w.records[id], Main) || InCall(w.records[id], Sender) || id in w.sendQueue;
      assert v.records == w.records && v.waitEnabled;
    }
    assert v.network.Stopped? && v.waitEnabled && id in v.records && NeedsReply(v.records[id]);
  }

  lemma ReceiveBlockedStays(w: World, e: Event)
    requires Inv(w) && w.network.Stopped? && ReceiveBlocked(w)
    ensures Step(w, e).network.Stopped? && ReceiveBlocked(Step(w, e))
  {
    hide Distinct, Busy, InCall;
    var v := Step(w, e);
    assert forall id :: id in w.records ==> RecordOk(w, id);
    forall id | id in v.records
      ensures !GotReply(v.records[id])
    {
      assert id in w.records ==> !GotReply(w.records[id]);
    }
  }

  lemma {:induction false} BlockedForever(w: World, events: seq<Event>)
    requires Inv(w) && Blocked(w)
    ensures Run(w, events).stage != Destroyed
    decreases |events|
  {
    hide Step, SendBlocked, ReceiveBlocked, Inv;
    if events == [] {
      BlockedIsEarly(w);
    } else {
      if SendBlocked(w) {
        SendBlockedStays(w, events[0]);
      } else {
        ReceiveBlockedStays(w, events[0]);
      }
      StepKeeps(w, events[0]);
      BlockedForever(Step(w, events[0]), events[1..]);
    }
  }

  lemma BlockedIsEarly(w: World)
    requires Inv(w) && Blocked(w)
    ensures w.stage != Destroyed
  {
  }

  // What is left: calls to end, replies to deliver, threads to join.

  function Rank(caller: Caller): nat {
    match caller
    case Allocated => 6
    case Requested => 5
    case Queued => 4
    case Taken => 3
    case Waiting => 2
    case Owning => 1
    case _ => 0
  }

  /** The sum of ranks of the records with ids below `n`. */
  function Ranks(records: map<nat, Record>, n: nat): nat {
    if n == 0 then 0
    else Ranks(records, n - 1) + if n - 1 in records then Rank(records[n - 1].caller) else 0
  }

  lemma {:induction false} RanksAfter(records: map<nat, Record>, n: nat, id: nat, r: Record)
    requires id in records
    ensures Ranks(records[id := r], n) + (if id < n then Rank(records[id].caller) else 0)
         == Ranks(records, n) + (if id < n then Rank(r.caller) else 0)
  {
    if n > 0 {
      RanksAfter(records, n - 1, id, r);
    }
  }

  lemma {:induction false} SameRanks(x: map<nat, Record>, y: map<nat, Record>, n: nat)
    requires x.Keys == y.Keys && forall id :: id in x ==> y[id].caller == x[id].caller
    ensures Ranks(x, n) == Ranks(y, n)
  {
    if n > 0 {
      SameRanks(x, y, n - 1);
    }
  }

  /** Whether the receiving thread has a call to make, or to end. */
  function ReceiveWork(w: World): nat {
    if !w.receiver.Looping? then 0 else if Busy(w, Receiver) then 1 else 2
  }

  function NetworkWork(w: World): nat {
    match w.network
    case Idle => 4 * |w.callIds| + 1
    case Fetching(_) => 4 * |w.callIds| + 4
    case Holding(_, _, filled) => 4 * |w.callIds| + if filled then 2 else 3
    case Stopped => 0
  }

  function StagesLeft(stage: Stage): nat {
    match stage
    case Running => 4
    case StoppingSender => 3
    case StoppingReceiver => 2
    case StoppingNetwork => 1
    case Destroyed => 0
  }

  /** Less of it is left in `v` than in `w`. */
  predicate Less(v: World, w: World) {
    var x, y := Ranks(v.records, v.nextId), Ranks(w.records, w.nextId);
    || ReceiveWork(v) < ReceiveWork(w)
    || (ReceiveWork(v) == ReceiveWork(w) && x < y)
    || (ReceiveWork(v) == ReceiveWork(w) && x == y && NetworkWork(v) < NetworkWork(w))
    || (ReceiveWork(v) == ReceiveWork(w) && x == y && NetworkWork(v) == NetworkWork(w) && StagesLeft(v.stage) < StagesLeft(w.stage))
  }

  /** A call goes on: its record's rank falls, and its thread stays in it or leaves the loop. */
  lemma CallGoesOn(w: World, v: World, id: nat, r: Record)
    requires Inv(w) && id in w.records && v.records == w.records[id := r] && v.nextId == w.nextId
    requires Rank(r.caller) < Rank(w.records[id].caller)
    requires !v.receiver.Looping? || (v.receiver == w.receiver && InCall(r, Receiver) == InCall(w.records[id], Receiver))
    ensures Less(v, w)
  {
    hide InCall, Rank, NetworkWork, Inv;
    IdsAreBelow(w, id);
    RanksAfter(w.records, w.nextId, id, r);
    if v.receiver.Looping? {
      assert Busy(w, Receiver) ==> Busy(v, Receiver) by {
        if x :| x in w.records && InCall(w.records[x], Receiver) {
          assert x in v.records && InCall(v.records[x], Receiver);
        }
      }
      assert Busy(v, Receiver) ==> Busy(w, Receiver) by {
        if x :| x in v.records && InCall(v.records[x], Receiver) {
          assert x in w.records && InCall(w.records[x], Receiver);
        }
      }
    }
  }

  lemma IdsAreBelow(w: World, id: nat)
    requires Inv(w) && id in w.records
    ensures id < w.nextId
  {
  }

  /** The blocked states look at replies needed and received only. */
  lemma NotBlockedBy(w: World, v: World)
    requires !Blocked(w) && v.network == w.network && (v.waitEnabled ==> w.waitEnabled)
    requires forall id :: id in v.records && NeedsReply(v.records[id]) ==> id in w.records && NeedsReply(w.records[id])
    requires v.receiver == Looping(true) ==>
      w.receiver == Looping(true) &&
      forall id :: id in w.records && GotReply(w.records[id]) ==> id in v.records && GotReply(v.records[id])
    ensures !Blocked(v)
  {
  }

  /** The step for a record in a call: what it was waiting for is there. */
  function NextOf(w: World, id: nat): Event
    requires id in w.records
  {
    var r := w.records[id];
    match r.caller
    case Allocated => if r.owner.Receiver? then Request(id) else Abandon(id)
    case Requested => if r.owner.Sender? then Enqueue(id) else StartWait(id)
    case Taken => StartWait(id)
    case Waiting => EndWait(id)
    case _ => Finish(id, Closed)
  }

  /** A call that the network thread need not help. */
  predicate Ready(w: World, r: Record) {
    || r.caller.Allocated? || r.caller.Requested? || r.caller.Taken? || r.caller.Owning?
    || (r.caller.Waiting? && (r.flag != 0 || (!w.waitEnabled && w.receiver != Looping(true))))
  }

  lemma EarlyGoesOn(w: World, id: nat)
    requires Inv(w) && !Blocked(w) && id in w.records
    requires w.records[id].caller.Allocated? || w.records[id].caller.Requested? || w.records[id].caller.Taken?
    ensures Less(Step(w, NextOf(w, id)), w) && !Blocked(Step(w, NextOf(w, id)))
  {
    hide Distinct, Less, Accounted, RecordOk;
    var v := Step(w, NextOf(w, id));
    EarlyFacts(w, id);
    CallGoesOn(w, v, id, v.records[id]);
    hide Step, InCall;
    NotBlockedBy(w, v);
  }

  lemma WaitGoesOn(w: World, id: nat)
    requires Inv(w) && !Blocked(w) && id in w.records && w.records[id].caller.Waiting? && Ready(w, w.records[id])
    ensures Less(Step(w, EndWait(id)), w) && !Blocked(Step(w, EndWait(id)))
  {
    hide Distinct, Less;
    var v := Step(w, EndWait(id));
    assert RecordOk(w, id) && OwnerOk(w, w.records[id]);
    CallGoesOn(w, v, id, v.records[id]);
    hide Step, Accounted, InCall;
    NotBlockedBy(w, v);
  }

  lemma OwnerGoesOn(w: World, id: nat)
    requires Inv(w) && !Blocked(w) && id in w.records && w.records[id].caller.Owning?
    ensures Less(Step(w, Finish(id, Closed)), w) && !Blocked(Step(w, Finish(id, Closed)))
  {
    hide Distinct, Less, Accounted, RecordOk;
    var v := Step(w, Finish(id, Closed));
    CallGoesOn(w, v, id, v.records[id]);
    hide Step, InCall;
    NotBlockedBy(w, v);
  }

  lemma ReadyGoesOn(w: World, id: nat)
    requires Inv(w) && !Blocked(w) && id in w.records && Ready(w, w.records[id])
    ensures Less(Step(w, NextOf(w, id)), w) && !Blocked(Step(w, NextOf(w, id)))
  {
    hide Inv, Less, Step, Blocked;
    match w.records[id].caller
    case Waiting => WaitGoesOn(w, id);
    case Owning => OwnerGoesOn(w, id);
    case _ => EarlyGoesOn(w, id);
  }

  lemma ServesNextId(w: World)
    requires w.network.Idle? && w.callIds != []
    ensures Less(Step(w, TakeId), w) && !Step(w, TakeId).network.Stopped?
  {
    hide Ranks, ReceiveWork, Busy, InCall;
    SameCallers(w, Step(w, TakeId));
  }

  lemma ServesReply(w: World)
    requires Inv(w) && w.network.Fetching?
    ensures Less(Step(w, TakeReply), w) && !Step(w, TakeReply).network.Stopped?
  {
    hide Inv, Ranks, ReceiveWork, Busy, InCall;
    ReplyFindsRecord(w);
    SameCallers(w, Step(w, TakeReply));
  }

  lemma ServesRecord(w: World, e: Event)
    requires Inv(w) && w.network.Holding? && e == if w.network.filled then Complete else FillData
    ensures Less(Step(w, e), w) && !Step(w, e).network.Stopped?
  {
    hide Inv, Ranks, ReceiveWork, Busy, InCall;
    ReplyFindsRecord(w);
    SameCallers(w, Step(w, e));
  }

  /** The network thread serves its calls as long as there are any. */
  lemma NetworkServes(w: World) returns (e: Event)
    requires Inv(w) && !w.network.Stopped? && (w.network.Idle? ==> w.callIds != [])
    ensures Less(Step(w, e), w) && !Step(w, e).network.Stopped?
  {
    hide Inv, Step, Less;
    match w.network
    case Idle =>
      e := TakeId;
      ServesNextId(w);
    case Fetching(_) =>
      e := TakeReply;
      ServesReply(w);
    case Holding(_, _, filled) =>
      e := if filled then Complete else FillData;
      ServesRecord(w, e);
  }

  lemma ReplyFindsRecord(w: World)
    requires Inv(w)
    ensures w.network.Fetching? ==> IndexOf(w.pending, IdKey, w.network.id) < |w.pending|
    ensures w.network.Holding? ==> w.network.id in w.records && Live(w, w.network.id)
  {
    if w.network.Fetching? {
      assert RecordOk(w, w.network.id);
      FoundAt(w.pending, w.network.id);
    } else if w.network.Holding? {
      assert RecordOk(w, w.network.id);
    }
  }

  /** The work of callers is told by owners and callers alone. */
  lemma SameCallers(w: World, v: World)
    requires w.records.Keys == v.records.Keys && v.nextId == w.nextId && v.receiver == w.receiver
    requires forall id :: id in w.records ==> v.records[id].caller == w.records[id].caller && v.records[id].owner == w.records[id].owner
    ensures Ranks(v.records, v.nextId) == Ranks(w.records, w.nextId) && ReceiveWork(v) == ReceiveWork(w)
  {
    SameRanks(w.records, v.records, w.nextId);
    forall id | id in w.records
      ensures InCall(v.records[id], Receiver) == InCall(w.records[id], Receiver)
    {
      assert v.records[id].caller == w.records[id].caller;
    }
    hide InCall;
    if x :| x in w.records && InCall(w.records[x], Receiver) {
      assert x in v.records && InCall(v.records[x], Receiver);
    } else if x :| x in v.records && InCall(v.records[x], Receiver) {
      assert x in w.records && InCall(w.records[x], Receiver);
    }
  }

  /** Only cancelled waits are left to the receiving thread, and it makes one more call. */
  lemma ReceiverGoesOn(w: World)
    requires Inv(w) && !Blocked(w) && w.receiver.Looping? && !Busy(w, Receiver)
    ensures Less(Step(w, Allocate(Receiver)), w) && !Blocked(Step(w, Allocate(Receiver)))
  {
    hide Accounted, Distinct;
    var v := Step(w, Allocate(Receiver));
    NextIdIsNew(w);
    assert w.nextId in v.records && InCall(v.records[w.nextId], Receiver);
    NotBlockedBy(w, v);
  }

  /** The sending thread takes the next send. */
  lemma SenderGoesOn(w: World)
    requires Inv(w) && !Blocked(w) && w.sendQueue != [] && !Busy(w, Sender)
    ensures Less(Step(w, Dequeue), w) && !Blocked(Step(w, Dequeue))
  {
    hide Distinct, Less;
    var v, id := Step(w, Dequeue), w.sendQueue[0];
    assert RecordOk(w, id) && OwnerOk(w, w.records[id]);
    CallGoesOn(w, v, id, v.records[id]);
    hide Step, Accounted;
    NotBlockedBy(w, v);
  }

  lemma StopsNetwork(w: World)
    requires Inv(w) && w.stage == StoppingNetwork && w.network.Idle? && w.callIds == []
    ensures Less(Step(w, StopNetwork), w) && !Blocked(Step(w, StopNetwork))
  {
    hide Accounted, Distinct;
    SameCallers(w, Step(w, StopNetwork));
  }

  /** Nothing holds the next join back. */
  predicate FreeToJoin(w: World) {
    && (w.stage == Running ==> !Busy(w, Main))
    && (w.stage == StoppingSender ==> !Busy(w, Sender) && w.sendQueue == [])
    && (w.stage == StoppingReceiver ==> !w.receiver.Looping?)
    && (w.stage == StoppingNetwork ==> w.network.Stopped?)
  }

  lemma JoinsNext(w: World)
    requires Inv(w) && !Blocked(w) && w.stage != Destroyed && FreeToJoin(w)
    ensures Less(Step(w, Advance), w) && !Blocked(Step(w, Advance))
  {
    hide Accounted, Distinct, Busy;
    var v := Step(w, Advance);
    SameCallers(w, v);
    assert v.stage != Destroyed ==> v.records == w.records;
    hide Step;
    if v.stage != Destroyed {
      NotBlockedBy(w, v);
    }
  }

  /** With no call ready and the network thread idle, all waits are for a network thread that has returned. */
  lemma OnlyLostWaits(w: World, id: nat)
    requires Inv(w) && !Blocked(w) && id in w.records && !Ready(w, w.records[id])
    requires w.network.Stopped? || (w.network.Idle? && w.callIds == [])
    ensures !InCall(w.records[id], Main) && !InCall(w.records[id], Sender)
    ensures InCall(w.records[id], Receiver) ==> w.network.Stopped? && w.records[id].caller.Waiting? && w.records[id].flag == 0
    ensures w.records[id].caller.Queued? ==> !w.network.Stopped?
  {
    assert RecordOk(w, id) && OwnerOk(w, w.records[id]);
    assert NeedsReply(w.records[id]) || !NeedsReply(w.records[id]);
  }

  /** Such a wait of the receiving thread is cancelled in time, unless errno makes it start over. */
  lemma NoLostReceive(w: World)
    requires Inv(w) && !Blocked(w) && w.stage == StoppingReceiver && w.receiver.Looping?
    requires forall id :: id in w.records ==> !Ready(w, w.records[id])
    requires w.network.Stopped? || (w.network.Idle? && w.callIds == [])
    ensures !Busy(w, Receiver)
  {
    hide Accounted, Distinct, InCall;
    if id :| id in w.records && InCall(w.records[id], Receiver) {
      OnlyLostWaits(w, id);
      assert false;
    }
  }

  /** There is always something to do until the destructor is through. */
  lemma SomethingToDo(w: World) returns (e: Event)
    requires Inv(w) && !Blocked(w) && w.stage != Destroyed
    ensures Less(Step(w, e), w) && !Blocked(Step(w, e))
  {
    hide Inv, Step, Less, Blocked, Ready, InCall;
    if id :| id in w.records && Ready(w, w.records[id]) {
      e := NextOf(w, id);
      ReadyGoesOn(w, id);
    } else if !w.network.Stopped? && (w.network.Idle? ==> w.callIds != []) {
      e := NetworkServes(w);
      ServingIsNotBlocked(Step(w, e));
    } else {
      forall id | id in w.records
        ensures !InCall(w.records[id], Main) && !InCall(w.records[id], Sender)
      {
        OnlyLostWaits(w, id);
      }
      e := DestructorGoesOn(w);
    }
  }

  lemma ServingIsNotBlocked(w: World)
    requires !w.network.Stopped?
    ensures !Blocked(w)
  {
  }

  /** With no call ready and the network thread idle, the destructor and what it waits for go on. */
  lemma DestructorGoesOn(w: World) returns (e: Event)
    requires Inv(w) && !Blocked(w) && w.stage != Destroyed && !Busy(w, Main) && !Busy(w, Sender)
    requires forall id :: id in w.records ==> !Ready(w, w.records[id])
    requires w.network.Stopped? || (w.network.Idle? && w.callIds == [])
    ensures Less(Step(w, e), w) && !Blocked(Step(w, e))
  {
    hide Inv, Step, Less, Blocked, Ready, Busy;
    if w.sendQueue != [] {
      e := Dequeue;
      SenderGoesOn(w);
    } else if w.stage == StoppingReceiver && w.receiver.Looping? {
      e := Allocate(Receiver);
      NoLostReceive(w);
      ReceiverGoesOn(w);
    } else if w.stage == StoppingNetwork && !w.network.Stopped? {
      e := StopNetwork;
      StopsNetwork(w);
    } else {
      e := Advance;
      JoinsNext(w);
    }
  }

  lemma {:induction false} RunsToDestroyed(w: World) returns (more: seq<Event>)
    requires Inv(w) && !Blocked(w)
    ensures Run(w, more).stage == Destroyed
    decreases ReceiveWork(w), Ranks(w.records, w.nextId), NetworkWork(w), StagesLeft(w.stage)
  {
    hide Inv, Step, Blocked, ReceiveWork, Ranks, NetworkWork, StagesLeft;
    more := [];
    if w.stage != Destroyed {
      var e := SomethingToDo(w);
      StepKeeps(w, e);
      var rest := RunsToDestroyed(Step(w, e));
      more := [e] + rest;
      assert more[1..] == rest;
    }
  }

  /**
   A run can be continued until the destructor is through if and only if it is
   not blocked by a network thread that has returned: with the client or its
   sending thread in need of a reply before waits are cancelled, be it for a send
   still in the queue, or with the receiving thread bound to repeat its call.
   */
  lemma DestructorEndsIffNotBlocked(events: seq<Event>)
    ensures (exists more :: Run(Run(START, events), more).stage == Destroyed) <==> !Blocked(Run(START, events))
  {
    hide Blocked, Inv;
    StartsWell();
    RunKeeps(START, events);
    var w := Run(START, events);
    if Blocked(w) {
      forall more
        ensures Run(w, more).stage != Destroyed
      {
        BlockedForever(w, more);
      }
    } else {
      var more := RunsToDestroyed(w);
    }
  }

  // ----- a run that blocks

  lemma RunOn(w: World, e: Event, rest: seq<Event>)
    ensures Run(w, [e] + rest) == Run(Step(w, e), rest)
  {
    hide Step;
    assert ([e] + rest)[1..] == rest;
  }

  /** The receiving thread waits for a reply that does not come. */
  ghost const LOST: World :=
    World(map[1 := Record(Receiver, Waiting, 0, None, 0)], 2, [1], [], [], Stopped, Looping(false), true, Running, false)

  lemma ReplyIsLost()
    ensures Run(START, [Connect, Allocate(Receiver), Request(1), StartWait(1), TakeId, FailReceive]) == LOST
  {
    var a := START.(receiver := Looping(false));
    assert Step(START, Connect) == a;
    var b := a.(records := map[1 := Record(Receiver, Allocated, 0, None, 0)], pending := [1], nextId := 2);
    assert Step(a, Allocate(Receiver)) == b;
    var c := b.(records := map[1 := Record(Receiver, Requested, 0, None, 0)]);
    assert Step(b, Request(1)) == c;
    var d := c.(records := LOST.records, callIds := [1]);
    assert Step(c, StartWait(1)) == d;
    var e := d.(callIds := [], network := Fetching(1));
    assert Step(d, TakeId) == e;
    assert Step(e, FailReceive) == LOST;
    hide Step;
    RunOn(START, Connect, [Allocate(Receiver), Request(1), StartWait(1), TakeId, FailReceive]);
    RunOn(a, Allocate(Receiver), [Request(1), StartWait(1), TakeId, FailReceive]);
    RunOn(b, Request(1), [StartWait(1), TakeId, FailReceive]);
    RunOn(c, StartWait(1), [TakeId, FailReceive]);
    RunOn(d, TakeId, [FailReceive]);
    RunOn(e, FailReceive, []);
  }

  /** Then a send is queued. */
  lemma QueuedSendBlocks()
    ensures Blocked(Run(LOST, [Allocate(Sender), Request(2), Enqueue(2)]))
  {
    var r := Record(Sender, Allocated, 0, None, 0);
    var a := Step(LOST, Allocate(Sender));
    assert 2 in a.records && a.records[2] == r && a.network.Stopped? && a.waitEnabled;
    var b := Step(a, Request(2));
    assert 2 in b.records && b.records[2] == r.(caller := Requested) && b.network.Stopped? && b.waitEnabled;
    var c := Step(b, Enqueue(2));
    assert 2 in c.records && c.records[2] == r.(caller := Queued) && c.network.Stopped? && c.waitEnabled;
    hide Step;
    RunOn(LOST, Allocate(Sender), [Request(2), Enqueue(2)]);
    RunOn(a, Request(2), [Enqueue(2)]);
    RunOn(b, Enqueue(2), []);
  }
}
