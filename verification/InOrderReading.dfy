/** A reader behind an in-order wire: it never holds more than one chunk. */
module InOrderReading {
  import opened Bytes
  import opened Memory
  import opened LinkedLists
  import opened SocketStreams
  import opened FrameHeaders
  import opened SendBuffers
  import opened Senders
  import opened RecvContexts
  import opened Receivers

  /** Nothing queued, or exactly the chunk the cursor stands in, with something left of it. */
  predicate InOrder(s: RecvState) {
    if s.Valid() then
      var i := s.info.value;
      s.list == [Chunk(i.id, i.payload)] && i.length == |i.payload| && i.offset < i.length
    else
      s.list == []
  }

  /** The id of the last frame fetched. */
  function LastId(s: RecvState): u64 {
    if s.info.None? then 0 else if s.Valid() then s.info.value.id else s.info.value.prevId
  }

  /** What was fetched and not delivered. */
  function Undelivered(s: RecvState): seq<byte>
    requires InOrder(s)
  {
    if s.Valid() then s.info.value.payload[s.info.value.offset..] else []
  }

  /** Payloads that senders put into frames. */
  predicate Sendable(payloads: seq<seq<byte>>) {
    forall i :: 0 <= i < |payloads| ==> payloads[i] != [] && |payloads[i]| <= MAX_SIZE
  }

  /** The octets of the frames that follow frame `id`. */
  function Wire(id: u64, payloads: seq<seq<byte>>): seq<byte> {
    Flatten(Frames(id, payloads))
  }

  lemma WireUnfolds(id: u64, payloads: seq<seq<byte>>)
    requires payloads != []
    ensures Wire(id, payloads) == Frame(NextId(id), payloads[0]) + Wire(NextId(id), payloads[1..])
  {
    hide Frame;
  }

  lemma WireSteps(id: u64, payloads: seq<seq<byte>>)
    requires payloads != [] && Sendable(payloads)
    ensures FetchFrame(Wire(id, payloads)) == Some(Fetched(Body(NextId(id), payloads[0]), Wire(NextId(id), payloads[1..])))
    ensures !CutUnnoticed(Wire(id, payloads))
  {
    hide ParseHeader, FetchFrame, Frame, Wire;
    WireUnfolds(id, payloads);
    FetchInvertsFrame(NextId(id), payloads[0], Wire(NextId(id), payloads[1..]));
    WholeIsNotCut(Wire(id, payloads));
  }

  lemma {:induction false} WireIsFramed(id: u64, payloads: seq<seq<byte>>)
    requires Sendable(payloads)
    ensures StreamFramed(Wire(id, payloads))
    decreases payloads
  {
    hide FetchFrame, CutUnnoticed, ParseHeader, Wire;
    if payloads == [] {
      WireIsEmpty(id);
      EmptyWire();
    } else {
      WireSteps(id, payloads);
      WireIsFramed(NextId(id), payloads[1..]);
      StreamChunkInvertsBody(NextId(id), payloads[0]);
    }
  }

  lemma EmptyWire()
    ensures FetchFrame([]) == None && !CutUnnoticed([])
  {
  }

  /** Queuing the next frame's chunk makes it the current one. */
  lemma PutNext(s: RecvState, payload: seq<byte>)
    requires InOrder(s) && !s.Valid() && payload != []
    ensures
      var t := PutChunk(s, Chunk(NextId(LastId(s)), payload));
      t.Valid() && InOrder(t) && Undelivered(t) == payload && LastId(t) == NextId(LastId(s))
  {
    var c := Chunk(NextId(LastId(s)), payload);
    assert Insert([], IdOf, c) == [c];
  }

  /** The cursor delivers the front of its chunk, and the chunk leaves with its last octet. */
  lemma ReadHead(s: RecvState, n: nat)
    requires InOrder(s) && s.Valid()
    ensures
      var (t, out) := ReadSome(s, n);
      var k := Min(n, |Undelivered(s)|);
      && InOrder(t) && LastId(t) == LastId(s)
      && out == Undelivered(s)[..k] && Undelivered(t) == Undelivered(s)[k..]
      && (t.Valid() <==> n < |Undelivered(s)|)
  {
  }

  /** What a read leaves behind when it took `n` octets and `k` frames. */
  predicate ReadLeaves(s: RecvState, payloads: seq<seq<byte>>, n: nat, k: nat, r: ReadResult)
    requires InOrder(s) && k <= |payloads| && n <= |Undelivered(s) + Flatten(payloads)|
  {
    var all := Undelivered(s) + Flatten(payloads);
    && r.ok && r.data == all[..n]
    && InOrder(r.state) && LastId(r.state) == Advance(LastId(s), k)
    && r.rest == Wire(LastId(r.state), payloads[k..])
    && Undelivered(r.state) + Flatten(payloads[k..]) == all[n..]
  }

  lemma WireIsEmpty(id: u64)
    ensures Wire(id, []) == []
  {
  }

  /** One turn: enough is at hand, or nothing more comes, or exactly one frame is fetched. */
  lemma TurnInOrder(s: RecvState, payloads: seq<seq<byte>>, n: nat)
    requires InOrder(s) && Sendable(payloads)
    ensures s.Sane() && StreamFramed(Wire(LastId(s), payloads)) && (!s.Valid() ==> Undelivered(s) == [])
    ensures
      var t := ReadTurn(s, Wire(LastId(s), payloads), n);
      if s.Valid() && n <= |Undelivered(s)| then
        && t.round == Done && t.out == Undelivered(s)[..n] && t.rest == Wire(LastId(s), payloads)
        && InOrder(t.state) && LastId(t.state) == LastId(s) && Undelivered(t.state) == Undelivered(s)[n..]
      else if payloads == [] then
        t.round == Closed && t.out == Undelivered(s) && t.rest == []
      else
        && t.round == More && t.out == Undelivered(s) && t.rest == Wire(NextId(LastId(s)), payloads[1..])
        && InOrder(t.state) && LastId(t.state) == NextId(LastId(s)) && Undelivered(t.state) == payloads[0]
        && t.state.Valid()
  {
    hide ParseHeader, FetchFrame, CutUnnoticed, Body, Wire, PutChunk;
    WireIsFramed(LastId(s), payloads);
    if s.Valid() {
      ReadHead(s, n);
    }
    hide ReadSome;
    if payloads == [] {
      WireIsEmpty(LastId(s));
      EmptyWire();
    } else {
      var (t, out) := Drain(s, n);
      WireSteps(LastId(s), payloads);
      StreamChunkInvertsBody(NextId(LastId(s)), payloads[0]);
      if !t.Valid() {
        PutNext(t, payloads[0]);
      }
    }
  }

  /** When enough is held, a read takes no frame. */
  lemma LeavesAtOnce(s: RecvState, payloads: seq<seq<byte>>, n: nat, r: ReadResult)
    requires InOrder(s) && InOrder(r.state) && n <= |Undelivered(s)|
    requires r.ok && r.data == Undelivered(s)[..n] && Undelivered(r.state) == Undelivered(s)[n..]
    requires LastId(r.state) == LastId(s) && r.rest == Wire(LastId(s), payloads)
    ensures ReadLeaves(s, payloads, n, 0, r)
  {
    hide InOrder, Wire, Undelivered, LastId;
    var held, all := Undelivered(s), Undelivered(s) + Flatten(payloads);
    assert payloads[0..] == payloads;
    assert all[..n] == held[..n] && all[n..] == held[n..] + Flatten(payloads);
  }

  /** Taking all that is held and then reading from the next chunk is one read. */
  lemma LeavesCompose(s: RecvState, payloads: seq<seq<byte>>, n: nat, t: RecvState, j: nat, r: ReadResult)
    requires InOrder(s) && payloads != [] && |Undelivered(s)| <= n
    requires InOrder(t) && LastId(t) == NextId(LastId(s)) && Undelivered(t) == payloads[0]
    requires j < |payloads| && n - |Undelivered(s)| <= |Undelivered(t) + Flatten(payloads[1..])|
    requires ReadLeaves(t, payloads[1..], n - |Undelivered(s)|, j, r)
    ensures n <= |Undelivered(s) + Flatten(payloads)|
    ensures ReadLeaves(s, payloads, n, j + 1, Prefixed(Undelivered(s), r))
  {
    hide InOrder, Wire, Undelivered, LastId, Advance, NextId;
    var held, rest := Undelivered(s), payloads[1..];
    AdvanceNext(LastId(s), j);
    assert rest[j..] == payloads[j + 1..];
    BehindHeld(held, payloads[0], Flatten(rest), n);
  }

  lemma BehindHeld(held: seq<byte>, first: seq<byte>, rest: seq<byte>, n: nat)
    requires |held| <= n <= |held + (first + rest)|
    ensures (held + (first + rest))[..n] == held + (first + rest)[..n - |held|]
    ensures (held + (first + rest))[n..] == (first + rest)[n - |held|..]
  {
  }

  /**
   Reading `n` octets off a wire that carries `payloads`: it succeeds just when
   that many are there (and a read of nothing when there is a chunk to look
   at), it delivers exactly the next octets in order, and it fetches a frame
   only when all it holds already is not enough. Otherwise it has taken all there
   was when the peer's close makes it fail.
   */
  lemma {:induction false} ReadInOrder(s: RecvState, payloads: seq<seq<byte>>, n: nat) returns (k: nat)
    requires InOrder(s) && Sendable(payloads)
    ensures s.Sane() && StreamFramed(Wire(LastId(s), payloads)) && k <= |payloads|
    ensures
      var r := ReadStream(s, Wire(LastId(s), payloads), n);
      && (r.ok <==> n <= |Undelivered(s) + Flatten(payloads)| && (n > 0 || s.Valid() || payloads != []))
      && (r.ok ==> ReadLeaves(s, payloads, n, k, r))
      && (!r.ok ==> r.data == Undelivered(s) + Flatten(payloads) && r.rest == [])
    ensures k > 0 && n > 0 ==> |Undelivered(s) + Flatten(payloads[..k - 1])| < n
    decreases payloads
  {
    hide ReadTurn, InOrder, Wire, StreamFramed, Undelivered, LastId, ReadLeaves, ParseHeader, FetchFrame, NextId;
    TurnInOrder(s, payloads, n);
    var held := Undelivered(s);
    if s.Valid() && n <= |held| {
      k := 0;
      LeavesAtOnce(s, payloads, n, ReadStream(s, Wire(LastId(s), payloads), n));
    } else if payloads == [] {
      k := 0;
      assert held + [] == held;
    } else {
      var t := ReadTurn(s, Wire(LastId(s), payloads), n);
      var rest := payloads[1..];
      var j := ReadInOrder(t.state, rest, n - |held|);
      k := j + 1;
      assert Flatten(payloads) == payloads[0] + Flatten(rest);
      var r := ReadStream(t.state, Wire(LastId(t.state), rest), n - |held|);
      assert (held + payloads[0]) + Flatten(rest) == held + Flatten(payloads);
      if r.ok {
        LeavesCompose(s, payloads, n, t.state, j, r);
      }
      if j > 0 {
        assert payloads[..j][1..] == rest[..j - 1];
        assert payloads[..j][0] == payloads[0];
      }
    }
  }
}
