/**
 One direction of a channel over whole runs: the sending thread, the flusher
 thread, the wire and the reader at the far end, interleaved in any way.
 */
module StreamChannels {
  import opened Bytes
  import opened SendBuffers
  import opened Senders
  import opened Memory
  import opened RecvContexts
  import opened Receivers
  import opened InOrderReading

  /** Where the flusher thread is: at its loop test, inside `AsyncFlushMessage`, returned, or not started. */
  datatype Flusher = Off | AtLoop | Flushing | Exited

  /** Where the sending thread is: in `start_async_flush`, in `stop_async_flush` before the join, or in neither. */
  datatype Phase = Plain | Starting | Stopping

  datatype World = World(
    sender: SendState,
    async: bool,
    phase: Phase,
    /** Frames of the call in progress that are still to be queued or sent. */
    putting: seq<seq<byte>>,
    flusher: Flusher,
    queue: seq<seq<byte>>,
    wire: seq<byte>,
    reader: RecvState,
    /** History: everything the application wrote, and everything the far end was given. */
    written: seq<byte>,
    read: seq<byte>)

  datatype Event =
    | Write(data: seq<byte>)
    | Flush
    | PutFrame
    | StartAsync
    | Started
    | StopAsync
    | Join
    | FlusherStep
    | Read(n: nat)

  const START := World(SendState(0, []), false, Plain, [], Off, [], [], RecvState([], None), [], [])

  /** The sending thread is in no call. */
  predicate Free(w: World) {
    w.phase == Plain && w.putting == []
  }

  /** `send_data_internal` begins: what it will buffer and the frames it will put, one after the other. */
  function Send(w: World, data: seq<byte>): World {
    w.(sender := After(w.sender, data), written := w.written + data, putting := Frames(w.sender.id, Cut(w.sender, data)))
  }

  /** One frame of the call goes to the queue in async mode and to the wire otherwise. */
  function Put(w: World): World
    requires w.putting != []
  {
    var v := w.(putting := w.putting[1..]);
    if w.async then v.(queue := w.queue + [w.putting[0]]) else v.(wire := w.wire + w.putting[0])
  }

  /** One step of `async_flush`; waiting for work is a step that changes nothing. */
  function StepFlusher(w: World): World {
    match w.flusher
    case AtLoop => w.(flusher := if w.async || w.queue != [] then Flushing else Exited)
    case Flushing =>
      if w.queue != [] then w.(queue := w.queue[1..], wire := w.wire + w.queue[0], flusher := AtLoop)
      else if w.async then w
      else w.(flusher := AtLoop)
    case _ => w
  }

  /** One event; an event that cannot happen yet changes nothing. */
  function Step(w: World, e: Event): World {
    match e
    case Write(data) => if !Free(w) || data == [] then w else Send(w, data)
    case Flush => if !Free(w) then w else Send(w, [])
    case PutFrame => if w.putting == [] then w else Put(w)
    case StartAsync => if !Free(w) || w.async then w else Send(w, []).(phase := Starting)
    case Started =>
      if w.phase == Starting && w.putting == [] then w.(phase := Plain, async := true, flusher := AtLoop) else w
    case StopAsync => if !Free(w) || !w.async then w else w.(async := false, phase := Stopping)
    case Join =>
      if w.phase == Stopping && w.flusher == Exited then Send(w.(phase := Plain, flusher := Off), []) else w
    case FlusherStep => StepFlusher(w)
    case Read(n) =>
      // the first case never arises: by `Inv` the reader is sane and the wire framed
      if !w.reader.Sane() || !StreamFramed(w.wire) then w else
      var r := ReadStream(w.reader, w.wire, n);
      if r.ok then w.(reader := r.state, wire := r.rest, read := w.read + r.data) else w
  }

  function Run(w: World, events: seq<Event>): World
    decreases |events|
  {
    if events == [] then w else Run(Step(w, events[0]), events[1..])
  }

  /** What the application wrote: the data of all writes made while the sending thread was in no other call. */
  function WrittenBy(w: World, events: seq<Event>): seq<byte>
    decreases |events|
  {
    if events == [] then []
    else (if events[0].Write? && Free(w) then events[0].data else []) + WrittenBy(Step(w, events[0]), events[1..])
  }

  lemma StepWrites(w: World, e: Event)
    ensures Step(w, e).written == w.written + if e.Write? && Free(w) then e.data else []
  {
    hide After, Cut, Frames, ReadStream, StreamFramed;
  }

  /** The history is just that. */
  lemma {:induction false} WritesAreKept(w: World, events: seq<Event>)
    ensures Run(w, events).written == w.written + WrittenBy(w, events)
    decreases |events|
  {
    if events != [] {
      StepWrites(w, events[0]);
      hide Step;
      var first := if events[0].Write? && Free(w) then events[0].data else [];
      WritesAreKept(Step(w, events[0]), events[1..]);
      Associative(w.written, first, WrittenBy(Step(w, events[0]), events[1..]));
    }
  }

  lemma HistoryFromStart(events: seq<Event>)
    ensures Run(START, events).written == WrittenBy(START, events)
  {
    hide Run, WrittenBy;
    WritesAreKept(START, events);
    assert [] + WrittenBy(START, events) == WrittenBy(START, events);
  }

  /** Writes within the range of the 64-bit size arithmetic. */
  predicate Small(events: seq<Event>) {
    forall e :: e in events && e.Write? ==> |e.data| <= MAX_SIZE
  }

  /** The payloads underway: in frames on the wire, in the queue, and still to be put. */
  datatype Underway = Underway(onWire: seq<seq<byte>>, queued: seq<seq<byte>>, held: seq<seq<byte>>)

  predicate Inv(w: World, u: Underway) {
    && InOrder(w.reader) && Sendable(u.onWire) && Sendable(u.queued) && Sendable(u.held)
    && w.wire == Wire(LastId(w.reader), u.onWire)
    && w.queue == Frames(Advance(LastId(w.reader), |u.onWire|), u.queued)
    && w.putting == Frames(Advance(LastId(w.reader), |u.onWire| + |u.queued|), u.held)
    && w.sender.id == Advance(LastId(w.reader), |u.onWire| + |u.queued| + |u.held|)
    && |w.sender.pending| < ROOM
    && w.read + Undelivered(w.reader) + Flatten(u.onWire) + Flatten(u.queued) + Flatten(u.held) + w.sender.pending == w.written
    && Threads(w)
  }

  /** The flusher runs exactly from start to join, and never returns with work left. */
  predicate Threads(w: World) {
    && (w.async ==> w.phase == Plain && w.flusher != Off && w.flusher != Exited)
    && (w.phase == Stopping ==> w.flusher != Off && w.putting == [])
    && (!w.async && w.phase != Stopping ==> w.flusher == Off && w.queue == [])
    && (w.flusher == Exited ==> w.queue == [])
  }

  lemma StartsWell()
    ensures Inv(START, Underway([], [], []))
  {
  }

  /** Moving the first of `b` behind `a` moves its frame, and changes neither ids nor octets. */
  lemma MoveFirst(at: u64, a: seq<seq<byte>>, b: seq<seq<byte>>)
    requires b != []
    ensures Frames(at, a + [b[0]]) == Frames(at, a) + [Frames(Advance(at, |a|), b)[0]]
    ensures Frames(Advance(at, |a|), b)[1..] == Frames(Advance(at, |a| + 1), b[1..])
    ensures Flatten(a + [b[0]]) + Flatten(b[1..]) == Flatten(a) + Flatten(b)
  {
    hide Frame, Advance, Flatten, NextId;
    var id := Advance(at, |a|);
    AdvanceTwice(at, |a|, 1);
    AdvanceTwice(id, 0, 1);
    FramesAppend(at, a, [b[0]]);
    var one := [b[0]];
    assert one[1..] == [];
    assert b == [b[0]] + b[1..];
    FlattenAppend([b[0]], b[1..]);
    FlattenAppend(a, [b[0]]);
  }

  lemma MoveFirstOfWire(at: u64, a: seq<seq<byte>>, b: seq<seq<byte>>)
    requires b != []
    ensures Wire(at, a + [b[0]]) == Wire(at, a) + Frames(Advance(at, |a|), b)[0]
  {
    hide Frame, Advance, NextId;
    MoveFirst(at, a, b);
    FlattenAppend(Frames(at, a), [Frames(Advance(at, |a|), b)[0]]);
    FlattenOne(Frames(Advance(at, |a|), b)[0]);
  }

  lemma SendableMoves(a: seq<seq<byte>>, b: seq<seq<byte>>)
    requires b != [] && Sendable(a) && Sendable(b)
    ensures Sendable(a + [b[0]]) && Sendable(b[1..])
  {
  }

  lemma CutIsSendable(s: SendState, data: seq<byte>)
    requires |s.pending| < ROOM && |data| <= MAX_SIZE
    ensures Sendable(Cut(s, data))
  {
  }

  /** `x` and `y` after `d` more was written, of which `c` is in frames. */
  lemma Regroup(x: seq<byte>, c: seq<byte>, y: seq<byte>, p: seq<byte>, d: seq<byte>)
    requires c + y == p + d
    ensures x + c + y == x + p + d
  {
    assert x + c + y == x + (c + y);
    assert x + p + d == x + (p + d);
  }

  /** A call to the send functions begins: its frames follow everything already underway. */
  lemma SendKeeps(w: World, data: seq<byte>, u: Underway) returns (u': Underway)
    requires Inv(w, u) && |data| <= MAX_SIZE && w.putting == [] && (w.phase == Stopping ==> Cut(w.sender, data) == [])
    ensures Inv(Send(w, data), u') && |u'.held| == |Send(w, data).putting|
    ensures data == [] ==> Send(w, data).sender.pending == []
  {
    hide InOrder, Sendable, Cut, After, Advance, Wire, Flatten;
    var cut, last := Cut(w.sender, data), LastId(w.reader);
    u' := u.(held := cut);
    SendConserves(w.sender, data);
    CutIsSendable(w.sender, data);
    assert u.held == [];
    AdvanceTwice(last, |u.onWire| + |u.queued|, |cut|);
    NothingFlat();
    Regroup(w.read + Undelivered(w.reader) + Flatten(u.onWire) + Flatten(u.queued), Flatten(cut),
            After(w.sender, data).pending, w.sender.pending, data);
  }

  lemma NothingFlat()
    ensures Flatten([]) == []
  {
  }

  /** The call's next frame is put where it belongs. */
  lemma PutKeeps(w: World, u: Underway) returns (u': Underway)
    requires Inv(w, u) && w.putting != []
    ensures Inv(Put(w), u')
  {
    hide InOrder, Sendable, Advance, Wire, Flatten, Frames;
    var last := LastId(w.reader);
    var at := Advance(last, |u.onWire|);
    AdvanceTwice(last, |u.onWire|, |u.queued|);
    AdvanceTwice(last, |u.onWire|, |u.queued| + 1);
    var held := w.read + Undelivered(w.reader);
    if w.async {
      SendableMoves(u.queued, u.held);
      MoveFirst(at, u.queued, u.held);
      u' := u.(queued := u.queued + [u.held[0]], held := u.held[1..]);
      Associative(held + Flatten(u.onWire), Flatten(u.queued), Flatten(u.held));
      Associative(held + Flatten(u.onWire), Flatten(u'.queued), Flatten(u'.held));
    } else {
      assert u.queued == [];
      SendableMoves(u.onWire, u.held);
      MoveFirst(last, u.onWire, u.held);
      MoveFirstOfWire(last, u.onWire, u.held);
      u' := u.(onWire := u.onWire + [u.held[0]], held := u.held[1..]);
      NothingFlat();
      NoFrames(Advance(last, |u'.onWire|));
      assert held + Flatten(u.onWire) + Flatten(u.queued) == held + Flatten(u.onWire);
      assert held + Flatten(u'.onWire) + Flatten(u'.queued) == held + Flatten(u'.onWire);
      Associative(held, Flatten(u.onWire), Flatten(u.held));
      Associative(held, Flatten(u'.onWire), Flatten(u'.held));
    }
  }

  lemma NoFrames(id: u64)
    ensures Frames(id, []) == []
  {
  }

  /** The flusher moves the oldest frame from the queue to the wire and changes nothing else. */
  lemma FlusherKeeps(w: World, u: Underway) returns (u': Underway)
    requires Inv(w, u)
    ensures Inv(StepFlusher(w), u')
  {
    hide InOrder, Sendable, Advance, Wire, Flatten, Frames;
    u' := u;
    if w.flusher == Flushing && w.queue != [] {
      var last := LastId(w.reader);
      SendableMoves(u.onWire, u.queued);
      MoveFirst(last, u.onWire, u.queued);
      MoveFirstOfWire(last, u.onWire, u.queued);
      u' := u.(onWire := u.onWire + [u.queued[0]], queued := u.queued[1..]);
      var held := w.read + Undelivered(w.reader);
      Associative(held, Flatten(u.onWire), Flatten(u.queued));
      Associative(held, Flatten(u'.onWire), Flatten(u'.queued));
    }
  }

  /** A read takes a prefix of what is underway. */
  lemma ReadKeeps(w: World, n: nat, u: Underway) returns (u': Underway)
    requires Inv(w, u)
    ensures Inv(Step(w, Read(n)), u')
  {
    hide ReadStream, StreamFramed, InOrder, Wire, Advance, Frames, Flatten, Undelivered, LastId;
    var k := ReadInOrder(w.reader, u.onWire, n);
    u' := u;
    var r := ReadStream(w.reader, w.wire, n);
    if r.ok {
      u' := u.(onWire := u.onWire[k..]);
      var last, m := LastId(w.reader), |u'.onWire|;
      AdvanceTwice(last, k, m);
      AdvanceTwice(last, k, m + |u.queued|);
      AdvanceTwice(last, k, m + |u.queued| + |u.held|);
      var all := Undelivered(w.reader) + Flatten(u.onWire);
      assert all == all[..n] + all[n..];
      Delivered(w.read, Undelivered(w.reader), Flatten(u.onWire), r.data, Undelivered(r.state), Flatten(u'.onWire));
    }
  }

  lemma Delivered(r: seq<byte>, u: seq<byte>, a: seq<byte>, d: seq<byte>, u': seq<byte>, a': seq<byte>)
    requires u + a == d + (u' + a')
    ensures r + d + u' + a' == r + u + a
  {
    assert r + d + u' + a' == r + (d + (u' + a')) == r + (u + a) == r + u + a;
  }

  lemma StepKeeps(w: World, e: Event, u: Underway) returns (u': Underway)
    requires Inv(w, u) && (e.Write? ==> |e.data| <= MAX_SIZE)
    ensures Inv(Step(w, e), u')
  {
    hide InOrder, Wire, Advance, ReadStream, StreamFramed, Sendable, Frames, Cut, After, Flatten;
    u' := u;
    match e
    case Write(data) => if Free(w) && data != [] { u' := SendKeeps(w, data, u); }
    case Flush => if Free(w) { u' := SendKeeps(w, [], u); }
    case PutFrame => if w.putting != [] { u' := PutKeeps(w, u); }
    case StartAsync =>
      if Free(w) && !w.async {
        u' := SendKeeps(w, [], u);
      }
    case Started =>
    case StopAsync =>
    case Join =>
      if w.phase == Stopping && w.flusher == Exited {
        u' := SendKeeps(w.(phase := Plain, flusher := Off), [], u);
      }
    case FlusherStep => u' := FlusherKeeps(w, u);
    case Read(n) => u' := ReadKeeps(w, n, u);
  }

  /** The invariant holds in every state that any interleaving reaches. */
  lemma {:induction false} RunKeeps(w: World, events: seq<Event>, u: Underway) returns (u': Underway)
    requires Inv(w, u) && Small(events)
    ensures Inv(Run(w, events), u')
    decreases |events|
  {
    hide Inv, Step;
    if events == [] {
      u' := u;
    } else {
      assert events[0] in events;
      var v := StepKeeps(w, events[0], u);
      u' := RunKeeps(Step(w, events[0]), events[1..], v);
    }
  }

  lemma ReadIsPrefix(w: World, u: Underway)
    requires Inv(w, u)
    ensures w.read <= w.written
  {
    hide InOrder, Wire, Frames, Sendable, Flatten, Advance;
    assert w.written
        == w.read + (Undelivered(w.reader) + Flatten(u.onWire) + Flatten(u.queued) + Flatten(u.held) + w.sender.pending);
  }

  /** In every interleaving, what the far end was given is a prefix of what was written. */
  lemma DeliveredIsPrefix(events: seq<Event>)
    requires Small(events)
    ensures Run(START, events).read <= WrittenBy(START, events)
  {
    hide Inv, Step, Run, WrittenBy;
    StartsWell();
    var u := RunKeeps(START, events, Underway([], [], []));
    ReadIsPrefix(Run(START, events), u);
    HistoryFromStart(events);
  }

  /**
   With `data` written, nothing is held back: a read of `n` octets is served
   exactly when that many are left, and gives the far end the next `n` of them.
   */
  ghost predicate AllSent(w: World, data: seq<byte>) {
    && Free(w) && w.queue == [] && w.sender.pending == []
    && forall n :: 0 < n ==>
         Step(w, Read(n)).read == if |w.read| + n <= |data| then data[..|w.read| + n] else w.read
  }

  lemma NothingHeldBack(w: World, u: Underway)
    requires Inv(w, u) && w.sender.pending == [] && Free(w) && w.queue == []
    ensures AllSent(w, w.written)
  {
    hide ReadStream, StreamFramed, InOrder, Wire, Advance, ReadLeaves;
    assert u.queued == [] && u.held == [];
    forall n | 0 < n
      ensures Step(w, Read(n)).read == if |w.read| + n <= |w.written| then w.written[..|w.read| + n] else w.read
    {
      var k := ReadInOrder(w.reader, u.onWire, n);
      GivenInOrder(w, u, n, k);
    }
  }

  lemma GivenInOrder(w: World, u: Underway, n: nat, k: nat)
    requires Inv(w, u) && u.queued == [] && u.held == [] && w.sender.pending == [] && 0 < n
    requires w.reader.Sane() && StreamFramed(w.wire) && k <= |u.onWire|
    requires
      var r := ReadStream(w.reader, w.wire, n);
      && (r.ok <==> n <= |Undelivered(w.reader) + Flatten(u.onWire)|)
      && (r.ok ==> ReadLeaves(w.reader, u.onWire, n, k, r))
    ensures Step(w, Read(n)).read == if |w.read| + n <= |w.written| then w.written[..|w.read| + n] else w.read
  {
    hide ReadStream, StreamFramed, InOrder, Wire, Advance, Frames, Sendable;
    var all := Undelivered(w.reader) + Flatten(u.onWire);
    assert w.written == w.read + all;
  }

  function Puts(k: nat): (s: seq<Event>)
    ensures |s| == k && forall i :: 0 <= i < k ==> s[i] == PutFrame
  {
    seq(k, _ => PutFrame)
  }

  /** The call in progress puts all its frames. */
  function Finish(w: World): World {
    Run(w, Puts(|w.putting|))
  }

  /** A call in progress always comes to its end, by its own steps alone. */
  lemma {:induction false} FinishEnds(w: World)
    ensures
      var v := Finish(w);
      && v.putting == [] && v.phase == w.phase && v.async == w.async && v.flusher == w.flusher
      && v.sender == w.sender && v.written == w.written && (!w.async ==> v.queue == w.queue)
    decreases |w.putting|
  {
    var k := |w.putting|;
    if k > 0 {
      assert Puts(k)[0] == PutFrame && Puts(k)[1..] == Puts(k - 1);
      FinishEnds(Put(w));
    }
  }

  /** Outside async mode a flush puts everything written so far within the reader's reach. */
  lemma FlushSendsAll(events: seq<Event>)
    requires Small(events)
    ensures
      var w := Run(START, events);
      var v := Finish(Step(w, Flush));
      !w.async && Free(w) ==> AllSent(v, WrittenBy(START, events))
  {
    hide Inv, AllSent, WrittenBy;
    HistoryFromStart(events);
    StartsWell();
    var u := RunKeeps(START, events, Underway([], [], []));
    var w := Run(START, events);
    if !w.async && Free(w) {
      ThreadsOf(w, u);
      FlushFrom(w, u);
    }
  }

  /** The frames of a flush, once put, leave nothing behind. */
  lemma FlushFrom(w: World, u: Underway)
    requires Inv(w, u) && !w.async && Free(w)
    ensures
      var v := Finish(Send(w, []));
      AllSent(v, w.written) && !v.async && v.flusher == w.flusher
  {
    hide Run, Small, AllSent, Inv;
    ThreadsOf(w, u);
    var x := Send(w, []);
    var a := SendKeeps(w, [], u);
    FinishEnds(x);
    PutsAreSmall(|x.putting|);
    var b := RunKeeps(x, Puts(|x.putting|), a);
    NothingHeldBack(Finish(x), b);
    assert x.written == w.written;
  }

  lemma PutsAreSmall(k: nat)
    ensures Small(Puts(k))
  {
  }

  lemma StartingStays(w: World, e: Event)
    requires w.phase == Starting ==> w.sender.pending == []
    ensures Step(w, e).phase == Starting ==> Step(w, e).sender.pending == []
  {
    hide ReadStream, StreamFramed, Frames;
  }

  lemma {:induction false} StartingHolds(w: World, events: seq<Event>)
    requires w.phase == Starting ==> w.sender.pending == []
    ensures Run(w, events).phase == Starting ==> Run(w, events).sender.pending == []
    decreases |events|
  {
    hide Step;
    if events != [] {
      StartingStays(w, events[0]);
      StartingHolds(Step(w, events[0]), events[1..]);
    }
  }

  /** So does the start of async mode, from wherever it is tried, before the mode is on. */
  lemma StartSendsAll(events: seq<Event>)
    requires Small(events)
    ensures
      var w := Run(START, events);
      var v := Step(Finish(Step(w, StartAsync)), Started);
      !w.async && Free(w) ==> v.async && v.flusher == AtLoop && AllSent(v, WrittenBy(START, events))
    ensures
      var w := Run(START, events);
      var v := Step(w, Started);
      !w.async && v.async ==> v.flusher == AtLoop && AllSent(v, WrittenBy(START, events))
  {
    hide Inv, AllSent, WrittenBy, Run, Finish;
    HistoryFromStart(events);
    StartsWell();
    var u := RunKeeps(START, events, Underway([], [], []));
    StartingHolds(START, events);
    var w := Run(START, events);
    ThreadsOf(w, u);
    if w.phase == Starting && w.putting == [] {
      StartedFrom(w, u);
    }
    if !w.async && Free(w) {
      var x := Step(w, StartAsync);
      var a := StepKeeps(w, StartAsync, u);
      AfterFlush(w.sender);
      FinishEnds(x);
      PutsAreSmall(|x.putting|);
      var b := FinishKeeps(x, a);
      assert x.written == w.written;
      StartedFrom(Finish(x), b);
    }
  }

  lemma AfterFlush(s: SendState)
    ensures After(s, []).pending == []
  {
  }

  lemma FinishKeeps(w: World, u: Underway) returns (v: Underway)
    requires Inv(w, u)
    ensures Inv(Finish(w), v)
  {
    hide Inv;
    PutsAreSmall(|w.putting|);
    v := RunKeeps(w, Puts(|w.putting|), u);
  }

  lemma StartedFrom(w: World, u: Underway)
    requires Inv(w, u) && w.phase == Starting && w.putting == [] && w.sender.pending == []
    ensures
      var v := Step(w, Started);
      v.async && v.flusher == AtLoop && AllSent(v, w.written)
  {
    hide Inv, AllSent;
    ThreadsOf(w, u);
    var a := StepKeeps(w, Started, u);
    NothingHeldBack(Step(w, Started), a);
  }

  function Steps(k: nat): seq<Event> {
    seq(k, _ => FlusherStep)
  }

  lemma StepsAreSmall(k: nat)
    ensures Small(Steps(k))
  {
  }

  /** Flusher steps needed to see the queue empty and return: two per frame, and the way out. */
  function StepsLeft(w: World): nat {
    match w.flusher
    case AtLoop => 2 * |w.queue| + 1
    case Flushing => 2 * |w.queue| + if w.queue == [] then 2 else 0
    case _ => 0
  }

  /** A flusher told to stop is never stuck: so many of its own steps later it has returned. */
  lemma {:induction false} FlusherReturns(w: World)
    requires Threads(w) && w.phase == Stopping
    ensures
      var v := Run(w, Steps(StepsLeft(w)));
      && v.flusher == Exited && v.queue == [] && v.phase == Stopping && !v.async
      && v.written == w.written && v.putting == []
    decreases StepsLeft(w)
  {
    var k := StepsLeft(w);
    if w.flusher != Exited {
      assert Steps(k)[0] == FlusherStep && Steps(k)[1..] == Steps(k - 1);
      var v := StepFlusher(w);
      assert StepsLeft(v) == k - 1;
      FlusherReturns(v);
    }
  }

  function StepsToDrain(w: World): nat {
    if w.queue == [] then 0 else 2 * |w.queue| - if w.flusher == Flushing then 1 else 0
  }

  /** In async mode, too, the flusher by itself brings the whole queue to the wire, in order. */
  lemma {:induction false} FlusherDrains(w: World)
    requires w.flusher == AtLoop || w.flusher == Flushing
    ensures
      var v := Run(w, Steps(StepsToDrain(w)));
      v.queue == [] && v.wire == w.wire + Flatten(w.queue) && v.sender == w.sender && v.written == w.written
    decreases StepsToDrain(w)
  {
    var k := StepsToDrain(w);
    if k > 0 {
      assert Steps(k)[0] == FlusherStep && Steps(k)[1..] == Steps(k - 1);
      FlusherDrains(StepFlusher(w));
    }
  }

  /** The flusher steps it takes, the join, and the frames of the last flush. */
  function Stopped(w: World): World {
    Finish(Step(Run(w, Steps(StepsLeft(w))), Join))
  }

  lemma StopFrom(w: World, u: Underway)
    requires Inv(w, u) && w.phase == Stopping
    ensures
      var v := Stopped(w);
      AllSent(v, w.written) && !v.async && v.flusher == Off
  {
    hide AllSent, Inv, Finish;
    ThreadsOf(w, u);
    FlusherReturns(w);
    var steps := Steps(StepsLeft(w));
    StepsAreSmall(StepsLeft(w));
    var a := RunKeeps(w, steps, u);
    JoinKeeps(Run(w, steps), a);
    FlushFrom(Run(w, steps).(phase := Plain, flusher := Off), a);
  }

  /**
   Stopping at any point: the flusher returns by itself, and once it is joined
   and the final flush is through, everything written is on the wire and async
   mode is off.
   */
  lemma StopSendsAll(events: seq<Event>)
    requires Small(events)
    ensures
      var w := Run(START, events);
      var v := Stopped(Step(w, StopAsync));
      w.async && Free(w) ==> AllSent(v, WrittenBy(START, events)) && !v.async && v.flusher == Off
    ensures
      var w := Run(START, events);
      var v := Stopped(w);
      w.phase == Stopping ==> AllSent(v, WrittenBy(START, events)) && !v.async && v.flusher == Off
  {
    hide AllSent, Inv, Stopped, Run, WrittenBy;
    HistoryFromStart(events);
    StartsWell();
    var u := RunKeeps(START, events, Underway([], [], []));
    var w := Run(START, events);
    if w.phase == Stopping {
      StopFrom(w, u);
    }
    if w.async && Free(w) {
      var a := StepKeeps(w, StopAsync, u);
      StopFrom(Step(w, StopAsync), a);
    }
  }

  /** In async mode, too, a flush and so many steps of the flusher send everything. */
  lemma AsyncFlushSendsAll(events: seq<Event>)
    requires Small(events)
    ensures
      var w := Run(START, events);
      var x := Finish(Step(w, Flush));
      var v := Run(x, Steps(StepsToDrain(x)));
      w.async && Free(w) ==> AllSent(v, WrittenBy(START, events)) && v.async
  {
    hide AllSent, Inv, Run, WrittenBy, Finish;
    HistoryFromStart(events);
    StartsWell();
    var u := RunKeeps(START, events, Underway([], [], []));
    var w := Run(START, events);
    if w.async && Free(w) {
      ThreadsOf(w, u);
      var y := Step(w, Flush);
      var a := StepKeeps(w, Flush, u);
      AfterFlush(w.sender);
      FinishEnds(y);
      var x := Finish(y);
      var b := FinishKeeps(y, a);
      assert y.written == w.written;
      var k := StepsToDrain(x);
      FlusherDrains(x);
      StepsAreSmall(k);
      var c := RunKeeps(x, Steps(k), b);
      FlusherOnly(x, k);
      NothingHeldBack(Run(x, Steps(k)), c);
    }
  }

  /** The flusher's steps leave the sending thread where it is. */
  lemma {:induction false} FlusherOnly(w: World, k: nat)
    ensures
      var v := Run(w, Steps(k));
      v.phase == w.phase && v.putting == w.putting && v.async == w.async
    decreases k
  {
    if k > 0 {
      assert Steps(k)[0] == FlusherStep && Steps(k)[1..] == Steps(k - 1);
      FlusherOnly(StepFlusher(w), k - 1);
    }
  }

  lemma ThreadsOf(w: World, u: Underway)
    requires Inv(w, u)
    ensures Threads(w)
  {
  }

  lemma JoinKeeps(w: World, u: Underway)
    requires Inv(w, u) && w.phase == Stopping && w.flusher == Exited
    ensures Inv(w.(phase := Plain, flusher := Off), u)
  {
  }
}
