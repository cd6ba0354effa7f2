/** Reading frames off the socket: the stream reader and the reader that waits for one reply. */
module Receivers {
  import opened Bytes
  import opened Memory
  import opened Masking
  import opened LinkedLists
  import opened SocketStreams
  import opened FrameHeaders
  import opened SendBuffers
  import opened RecvContexts

  /** A frame's payload, unmasked, and the stream behind it. */
  datatype Fetched = Fetched(payload: seq<byte>, rest: seq<byte>)

  /** The first frame of a stream; None when the stream ends inside it. */
  function FetchFrame(bytes: seq<byte>): (r: Option<Fetched>)
    ensures r.Some? ==> |r.value.rest| < |bytes|
  {
    match ParseHeader(bytes)
    case None => None
    case Some(h) =>
      if |bytes| < h.used + h.length then None else
      Some(Fetched(Unmasked(bytes[h.used..h.used + h.length], h), bytes[h.used + h.length..]))
  }

  function Unmasked(data: seq<byte>, h: HeaderInfo): (r: seq<byte>)
    ensures |r| == |data|
  {
    if h.masked then Masked(data, h.key) else data
  }

  /** What the sender's `Frame` puts on the wire is fetched again, whatever follows it. */
  lemma FetchInvertsFrame(id: u64, payload: seq<byte>, rest: seq<byte>)
    requires |payload| <= MAX_SIZE
    ensures FetchFrame(Frame(id, payload) + rest) == Some(Fetched(Body(id, payload), rest))
  {
    var body := Body(id, payload);
    var h := Header(|body|, None);
    assert Frame(id, payload) + rest == h + (body + rest);
    HeaderRoundTrip(|body|, None, body + rest);
  }

  /**
   The stream ends inside the first frame, and the number of payload octets
   that came agrees with the announced one in its low 32 bits: the reader, which
   compares these only, takes the frame for complete.
   */
  predicate CutUnnoticed(bytes: seq<byte>) {
    match ParseHeader(bytes)
    case None => false
    case Some(h) => |bytes| - h.used < h.length && (|bytes| - h.used) % TWO_32 == h.length % TWO_32
  }

  /** It takes a frame of 2^32 octets or more, and then it does happen. */
  lemma CutsOfLongFramesOnly(bytes: seq<byte>)
    ensures CutUnnoticed(bytes) ==> ParseHeader(bytes).value.length >= TWO_32
    ensures CutUnnoticed(Header(TWO_32, None)) && FetchFrame(Header(TWO_32, None)) == None
  {
    hide ParseHeader;
    HeaderRoundTrip(TWO_32, None, []);
    assert Header(TWO_32, None) + [] == Header(TWO_32, None);
  }

  lemma WholeIsNotCut(bytes: seq<byte>)
    requires FetchFrame(bytes).Some?
    ensures !CutUnnoticed(bytes)
  {
  }

  /** Reads and unmasks `h.length` octets; a short read is noticed by its low 32 bits, or not at all. */
  method RecvPayload(stream: SocketStream, h: HeaderInfo) returns (r: Option<seq<byte>>)
    requires stream.Valid()
    modifies stream`size, stream`offset, stream`incoming, stream.buf
    ensures stream.Valid()
    ensures
      var all := old(stream.Pending());
      if h.length <= |all| then r == Some(Unmasked(all[..h.length], h)) && stream.Pending() == all[h.length..]
      else stream.Pending() == [] && (r.Some? <==> |all| % TWO_32 == h.length % TWO_32)
  {
    hide Overwrite, Masked;
    var data := new byte[h.length];
    ghost var blank, all := data[..], stream.Pending();
    var ret := stream.RecvEx(data, 0, h.length);
    ghost var got := data[..];
    if h.masked {
      assert got[0..h.length] == got;
      UnMaskData(data, 0, h.length, h.key);
      OverwriteAll(got, Masked(got, h.key));
    }
    if ret % TWO_32 != h.length % TWO_32 {
      return None;
    }
    if ret == h.length {
      OverwriteAll(blank, all[..ret]);
    }
    assert data[..] == Unmasked(got, h);
    r := Some(data[..]);
  }

  lemma OverwriteAll(m: seq<byte>, s: seq<byte>)
    requires |s| == |m|
    ensures Overwrite(m, 0, s) == s
  {
  }

  /**
   The frame reader both receive functions share: header, payload, unmasking.
   Without a whole frame it drains the stream and fails, unless the cut goes unnoticed.
   */
  method RecvFrame(stream: SocketStream) returns (r: Option<seq<byte>>)
    requires stream.Valid()
    modifies stream`size, stream`offset, stream`incoming, stream.buf
    ensures stream.Valid()
    ensures match FetchFrame(old(stream.Pending()))
      case Some(f) => r == Some(f.payload) && stream.Pending() == f.rest
      case None => stream.Pending() == [] && (r.Some? <==> CutUnnoticed(old(stream.Pending())))
  {
    hide ParseHeader, Unmasked, FetchFrame, CutUnnoticed;
    ghost var all := stream.Pending();
    var header := RecvMessageHeader(stream);
    if header.None? {
      NoHeader(all);
      return None;
    }
    var h := header.value;
    BehindHeader(all, h);
    r := RecvPayload(stream, h);
  }

  lemma NoHeader(all: seq<byte>)
    requires ParseHeader(all).None?
    ensures FetchFrame(all).None? && !CutUnnoticed(all)
  {
  }

  /** A frame is fetched from what follows its header. */
  lemma BehindHeader(all: seq<byte>, h: HeaderInfo)
    requires ParseHeader(all) == Some(h)
    ensures
      var body := all[h.used..];
      && FetchFrame(all) ==
        (if h.length <= |body| then Some(Fetched(Unmasked(body[..h.length], h), body[h.length..])) else None)
      && (CutUnnoticed(all) <==> |body| < h.length && |body| % TWO_32 == h.length % TWO_32)
  {
    hide ParseHeader, Unmasked;
    var body := all[h.used..];
    if h.length <= |body| {
      assert body[..h.length] == all[h.used..h.used + h.length] && body[h.length..] == all[h.used + h.length..];
    }
  }

  // ----- stream mode

  /** A stream payload holds an id, a length and at least that many octets. */
  predicate IsStreamBody(p: seq<byte>) {
    |p| >= 16 && UnLE(p[8..16]) <= |p| - 16
  }

  /** Every complete frame carries a stream payload, and a cut behind the last one is noticed. */
  predicate StreamFramed(bytes: seq<byte>)
    decreases |bytes|
  {
    && !CutUnnoticed(bytes)
    && match FetchFrame(bytes)
       case None => true
       case Some(f) => IsStreamBody(f.payload) && StreamFramed(f.rest)
  }

  /** The payload seen through `RecvBuffer`. */
  function StreamChunk(p: seq<byte>): Chunk
    requires IsStreamBody(p)
  {
    Spans();
    UnLERoundTrip(p[..8]);
    Chunk(UnLE(p[..8]), p[16..16 + UnLE(p[8..16])])
  }

  lemma StreamChunkInvertsBody(id: u64, payload: seq<byte>)
    requires |payload| <= MAX_SIZE
    ensures IsStreamBody(Body(id, payload))
    ensures StreamChunk(Body(id, payload)) == Chunk(id, payload)
  {
    var p := Body(id, payload);
    assert p[..8] == LE(id, 8) && p[8..16] == LE(|payload|, 8) && p[16..] == payload;
    Spans();
    LERoundTrip(id, 8);
    LERoundTrip(|payload|, 8);
  }

  /** Seen octet by octet: id and length are little-endian numbers, and the payload follows them. */
  lemma StreamChunkReads(p: seq<byte>)
    requires IsStreamBody(p)
    ensures
      var c, n := StreamChunk(p), TWO_32 * Number(p[15], p[14], p[13], p[12]) + Number(p[11], p[10], p[9], p[8]);
      && c.id == TWO_32 * Number(p[7], p[6], p[5], p[4]) + Number(p[3], p[2], p[1], p[0])
      && n <= |p| - 16 && c.payload == p[16..16 + n]
  {
    hide Number, UnLE;
    LESpells(p[..8]);
    LESpells(p[8..16]);
  }

  /** What the cursor can deliver at once. */
  function Drain(s: RecvState, n: nat): (r: (RecvState, seq<byte>))
    requires s.Sane()
    ensures r.0.Sane() && |r.1| <= n
  {
    if s.Valid() then ReadSome(s, n) else (s, [])
  }

  datatype ReadResult = ReadResult(ok: bool, data: seq<byte>, state: RecvState, rest: seq<byte>)

  function Prefixed(data: seq<byte>, r: ReadResult): ReadResult {
    r.(data := data + r.data)
  }

  lemma PrefixedTwice(a: seq<byte>, b: seq<byte>, r: ReadResult)
    ensures Prefixed(a, Prefixed(b, r)) == Prefixed(a + b, r)
  {
    assert a + (b + r.data) == (a + b) + r.data;
  }

  datatype Round = Done | More | Closed

  datatype Turn = Turn(out: seq<byte>, round: Round, state: RecvState, rest: seq<byte>)

  /** One turn of the receive loop: read from the cursor, and fetch a frame if that was not enough. */
  function ReadTurn(s: RecvState, bytes: seq<byte>, n: nat): (r: Turn)
    requires s.Sane() && StreamFramed(bytes)
    ensures r.state.Sane() && |r.out| <= n && (r.round == More ==> |r.rest| < |bytes| && StreamFramed(r.rest))
  {
    var (t, out) := Drain(s, n);
    if s.Valid() && |out| == n then Turn(out, Done, t, bytes)
    else match FetchFrame(bytes)
    case None => Turn(out, Closed, t, [])
    case Some(f) => Turn(out, More, PutChunk(t, StreamChunk(f.payload)), f.rest)
  }

  /** Reading `n` octets: turn after turn until one succeeds or the stream ends. */
  function ReadStream(s: RecvState, bytes: seq<byte>, n: nat): (r: ReadResult)
    requires s.Sane() && StreamFramed(bytes)
    ensures r.state.Sane()
    decreases |bytes|
  {
    var t := ReadTurn(s, bytes, n);
    if t.round == More then Prefixed(t.out, ReadStream(t.state, t.rest, n - |t.out|))
    else ReadResult(t.round == Done, t.out, t.state, t.rest)
  }

  method RecvRound(ctx: RecvCtx, need: nat, stream: SocketStream) returns (out: seq<byte>, round: Round)
    requires ctx.Valid() && !ctx.isChunk && ctx.State().Sane()
    requires stream.Valid() && StreamFramed(stream.Pending())
    modifies ctx`info, ctx.list, ctx.list.repr
    modifies stream`size, stream`offset, stream`incoming, stream.buf
    ensures ctx.Valid() && stream.Valid() && fresh(ctx.list.repr - old(ctx.list.repr))
    ensures Turn(out, round, ctx.State(), stream.Pending()) == ReadTurn(old(ctx.State()), old(stream.Pending()), need)
  {
    ghost var s := ctx.State();
    out := [];
    if ctx.info.Some? && ctx.info.value.valid {
      out := ctx.RecvFromRecvCtx(need);
      if |out| == need {
        return out, Done;
      }
    }
    assert (ctx.State(), out) == Drain(s, need);
    var ok := FetchInto(ctx, stream);
    round := if ok then More else Closed;
  }

  /** Queues the next frame's chunk. */
  method FetchInto(ctx: RecvCtx, stream: SocketStream) returns (ok: bool)
    requires ctx.Valid() && !ctx.isChunk && ctx.State().Sane()
    requires stream.Valid() && StreamFramed(stream.Pending())
    modifies ctx`info, ctx.list, ctx.list.repr
    modifies stream`size, stream`offset, stream`incoming, stream.buf
    ensures ctx.Valid() && stream.Valid() && fresh(ctx.list.repr - old(ctx.list.repr))
    ensures match FetchFrame(old(stream.Pending()))
      case None => !ok && stream.Pending() == [] && ctx.State() == old(ctx.State())
      case Some(f) => ok && stream.Pending() == f.rest && ctx.State() == PutChunk(old(ctx.State()), StreamChunk(f.payload))
  {
    hide ParseHeader, FetchFrame, CutUnnoticed, PutChunk, StreamChunk;
    var frame := RecvFrame(stream);
    if frame.None? {
      return false;
    }
    ctx.PutToRecvCtx(StreamChunk(frame.value));
    ok := true;
  }

  /** Delivers exactly `len` octets, fetching frames as needed; fails when the peer closes first. */
  method RecvMessage(ctx: RecvCtx, len: nat, stream: SocketStream) returns (ok: bool, data: seq<byte>)
    requires ctx.Valid() && !ctx.isChunk && ctx.State().Sane()
    requires stream.Valid() && StreamFramed(stream.Pending())
    modifies ctx`info, ctx.list, ctx.list.repr
    modifies stream`size, stream`offset, stream`incoming, stream.buf
    ensures ctx.Valid() && stream.Valid() && fresh(ctx.list.repr - old(ctx.list.repr))
    ensures ReadResult(ok, data, ctx.State(), stream.Pending()) == ReadStream(old(ctx.State()), old(stream.Pending()), len)
  {
    data := [];
    hide ReadTurn;
    var need: nat, round := len, More;
    ghost var todo := ReadStream(ctx.State(), stream.Pending(), len);
    ghost var all := todo;
    while round == More
      invariant ctx.Valid() && stream.Valid() && fresh(ctx.list.repr - old(ctx.list.repr))
      invariant round == More ==> ctx.State().Sane() && StreamFramed(stream.Pending())
      invariant all == Prefixed(data, todo)
      invariant todo ==
        if round == More then ReadStream(ctx.State(), stream.Pending(), need)
        else ReadResult(round == Done, [], ctx.State(), stream.Pending())
      decreases round == More, |stream.Pending()|
    {
      ghost var before := todo;
      var out;
      out, round := RecvRound(ctx, need, stream);
      need := need - |out|;
      todo := if round == More then ReadStream(ctx.State(), stream.Pending(), need)
              else ReadResult(round == Done, [], ctx.State(), stream.Pending());
      assert before == Prefixed(out, todo);
      PrefixedTwice(data, out, todo);
      data := data + out;
    }
    ok := round == Done;
  }

  // ----- reply mode

  predicate IsReplyBody(p: seq<byte>) {
    |p| >= 4
  }

  predicate ReplyFramed(bytes: seq<byte>)
    decreases |bytes|
  {
    && !CutUnnoticed(bytes)
    && match FetchFrame(bytes)
       case None => true
       case Some(f) => IsReplyBody(f.payload) && ReplyFramed(f.rest)
  }

  /** A 32-bit int stored into a 64-bit unsigned field. */
  function SignExtend(x: u32): u64 {
    if x < 0x8000_0000 then x else x + 0xFFFF_FFFF_0000_0000
  }

  /** A whole reply, filed under the call id it starts with. */
  function ReplyChunk(p: seq<byte>): Chunk
    requires IsReplyBody(p)
  {
    Spans();
    UnLERoundTrip(p[..4]);
    Chunk(SignExtend(UnLE(p[..4])), p)
  }

  /**
   The payload starts with this call id: a signed 32-bit number in its first
   four octets, kept in an unsigned 64-bit field.
   */
  predicate Carries(p: seq<byte>, id: u64) {
    && |p| >= 4
    && var n := Number(p[3], p[2], p[1], p[0]);
       id == if n < 0x8000_0000 then n else 0x1_0000_0000_0000_0000 - (0x1_0000_0000 - n)
  }

  /** Nothing of a reply is left out, and no other id is read from it. */
  lemma ReplyIsWhole(p: seq<byte>, id: u64)
    requires IsReplyBody(p)
    ensures ReplyChunk(p).payload == p && (Carries(p, id) <==> ReplyChunk(p).id == id)
  {
    hide UnLE;
    LESpells(p[..4]);
  }

  datatype ReplyResult = ReplyResult(reply: Option<Chunk>, stash: seq<Chunk>, rest: seq<byte>)

  /** Waiting for the reply with this id: from the stash, or else frame after frame into the stash. */
  function AwaitReply(stash: seq<Chunk>, bytes: seq<byte>, id: u64): (r: ReplyResult)
    requires ReplyFramed(bytes)
    decreases |bytes|
  {
    var i := IndexOf(stash, IdOf, id);
    if i < |stash| then ReplyResult(Some(stash[i]), Without(stash, i), bytes)
    else match FetchFrame(bytes)
    case None => ReplyResult(None, stash, [])
    case Some(f) => AwaitReply(Insert(stash, IdOf, ReplyChunk(f.payload)), f.rest, id)
  }

  /** Stashes the next reply. */
  method FetchReply(ctx: RecvCtx, stream: SocketStream) returns (ok: bool)
    requires ctx.Valid() && ctx.isChunk
    requires stream.Valid() && ReplyFramed(stream.Pending())
    modifies ctx`info, ctx.list, ctx.list.repr
    modifies stream`size, stream`offset, stream`incoming, stream.buf
    ensures ctx.Valid() && stream.Valid() && fresh(ctx.list.repr - old(ctx.list.repr))
    ensures match FetchFrame(old(stream.Pending()))
      case None => !ok && stream.Pending() == [] && ctx.State() == old(ctx.State())
      case Some(f) =>
        && ok && stream.Pending() == f.rest
        && ctx.State().list == Insert(old(ctx.State()).list, IdOf, ReplyChunk(f.payload))
        && ReplyChunk(f.payload).payload == f.payload && Carries(f.payload, ReplyChunk(f.payload).id)
  {
    hide ParseHeader, FetchFrame, CutUnnoticed, Insert, ReplyChunk;
    var frame := RecvFrame(stream);
    if frame.None? {
      return false;
    }
    ctx.PutToRecvCtx(ReplyChunk(frame.value));
    ReplyIsWhole(frame.value, ReplyChunk(frame.value).id);
    ok := true;
  }

  /** What one failed look at the stash and one more frame come to. */
  lemma AwaitMore(stash: seq<Chunk>, bytes: seq<byte>, id: u64)
    requires ReplyFramed(bytes) && Sorted(stash, IdOf) && IndexOf(stash, IdOf, id) == |stash|
    ensures match FetchFrame(bytes)
      case None => AwaitReply(stash, bytes, id) == ReplyResult(None, stash, [])
      case Some(f) =>
        var stash' := Insert(stash, IdOf, ReplyChunk(f.payload));
        Sorted(stash', IdOf) && ReplyFramed(f.rest) && AwaitReply(stash, bytes, id) == AwaitReply(stash', f.rest, id)
  {
    var r := FetchFrame(bytes);
    if r.Some? {
      InsertKeepsSorted(stash, IdOf, ReplyChunk(r.value.payload));
    }
  }

  /** One turn of the loop: look in the stash, and fetch a reply if it is not there. */
  method ReplyRound(ctx: RecvCtx, id: u64, stream: SocketStream) returns (res: Option<Chunk>, round: Round)
    requires ctx.Valid() && ctx.isChunk && Sorted(ctx.State().list, IdOf)
    requires stream.Valid() && ReplyFramed(stream.Pending())
    modifies ctx`info, ctx.list, ctx.list.repr
    modifies stream`size, stream`offset, stream`incoming, stream.buf
    ensures ctx.Valid() && stream.Valid() && fresh(ctx.list.repr - old(ctx.list.repr))
    ensures Sorted(ctx.State().list, IdOf)
    ensures
      var r := AwaitReply(old(ctx.State()).list, old(stream.Pending()), id);
      if round == More
      then ReplyFramed(stream.Pending()) && r == AwaitReply(ctx.State().list, stream.Pending(), id)
      else r == ReplyResult(res, ctx.State().list, stream.Pending())
    ensures round == More ==> |stream.Pending()| < |old(stream.Pending())|
  {
    ghost var stash, bytes := ctx.State().list, stream.Pending();
    res := ctx.TakeById(id);
    if res.Some? {
      WithoutKeepsSorted(stash, IdOf, IndexOf(stash, IdOf, id));
      return res, Done;
    }
    AwaitMore(stash, bytes, id);
    var ok := FetchReply(ctx, stream);
    round := if ok then More else Closed;
  }

  /** The receive function of the network thread. */
  method RecvMessageById(ctx: RecvCtx, id: u64, stream: SocketStream) returns (res: Option<Chunk>)
    requires ctx.Valid() && ctx.isChunk && Sorted(ctx.State().list, IdOf)
    requires stream.Valid() && ReplyFramed(stream.Pending())
    modifies ctx`info, ctx.list, ctx.list.repr
    modifies stream`size, stream`offset, stream`incoming, stream.buf
    ensures ctx.Valid() && stream.Valid() && fresh(ctx.list.repr - old(ctx.list.repr))
    ensures Sorted(ctx.State().list, IdOf)
    ensures ReplyResult(res, ctx.State().list, stream.Pending()) == AwaitReply(old(ctx.State()).list, old(stream.Pending()), id)
  {
    ghost var all := AwaitReply(ctx.State().list, stream.Pending(), id);
    while true
      invariant ctx.Valid() && stream.Valid() && fresh(ctx.list.repr - old(ctx.list.repr))
      invariant Sorted(ctx.State().list, IdOf) && ReplyFramed(stream.Pending())
      invariant all == AwaitReply(ctx.State().list, stream.Pending(), id)
      decreases |stream.Pending()|
    {
      var round;
      res, round := ReplyRound(ctx, id, stream);
      if round != More {
        return;
      }
    }
  }
}
