/** The coalescing send buffer: room for a header, an id and a length in front of the payload. */
module SendBuffers {
  import opened Bytes
  import opened Memory
  import opened FrameHeaders

  const EXTRA_HEADER_SIZE: nat := 14
  const BODY: nat := 30
  const SEND_BUFFER_SIZE: nat := 0x10_0000
  /** Buffer sizes and writes beyond this would overflow the 64-bit size arithmetic. */
  const MAX_SIZE: nat := 0x2000_0000_0000_0000

  /** The 64-bit counter's next value. */
  function NextId(id: u64): u64 {
    (id + 1) % 0x1_0000_0000_0000_0000
  }

  /** One frame on the wire: header, id, length and payload. */
  function Frame(id: u64, payload: seq<byte>): seq<byte> {
    Header(16 + |payload|, None) + Body(id, payload)
  }

  /** The framed part: what `RecvBuffer` lays over it on the other side. */
  function Body(id: u64, payload: seq<byte>): (s: seq<byte>)
    ensures |s| == 16 + |payload|
  {
    LE(id, 8) + LE(|payload|, 8) + payload
  }

  /** A frame octet by octet: its header, the id and the length as little-endian numbers, and the payload. */
  lemma FrameOctets(id: u64, payload: seq<byte>)
    requires |payload| <= MAX_SIZE
    ensures
      var f := Frame(id, payload);
      var at := if |payload| < 110 then 2 else if |payload| <= 65519 then 4 else 10;
      && |f| == at + 16 + |payload| && f[..at] == Header(16 + |payload|, None) && f[at + 16..] == payload
      && id == TWO_32 * Number(f[at + 7], f[at + 6], f[at + 5], f[at + 4]) +
               Number(f[at + 3], f[at + 2], f[at + 1], f[at])
      && |payload| == TWO_32 * Number(f[at + 15], f[at + 14], f[at + 13], f[at + 12]) +
                      Number(f[at + 11], f[at + 10], f[at + 9], f[at + 8])
  {
    hide Header, Number, LE, UnLE;
    var f, h := Frame(id, payload), Header(16 + |payload|, None);
    HeaderOctets(16 + |payload|, None);
    Spans();
    LERoundTrip(id, 8);
    LERoundTrip(|payload|, 8);
    LESpells(LE(id, 8));
    LESpells(LE(|payload|, 8));
    assert f == h + LE(id, 8) + LE(|payload|, 8) + payload;
  }

  class SendBuffer {
    var buffer: array<byte>
    var offset: nat
    var sendId: u64
    var bufferSize: nat
    var packedOffset: nat

    ghost predicate Valid()
      reads this
    {
      && buffer.Length == bufferSize <= 3 * MAX_SIZE
      && BODY <= offset <= bufferSize
      && offset <= BODY + MAX_SIZE
      && packedOffset <= EXTRA_HEADER_SIZE
    }

    /** The header octets are clear, as header generation needs them. */
    ghost predicate Cleared()
      requires Valid()
      reads this, buffer
    {
      buffer[0] == 0 && buffer[1] == 0
    }

    ghost function Payload(): seq<byte>
      requires Valid()
      reads this, buffer
    {
      buffer[BODY..offset]
    }

    /** A payload size of 0 asks for the default size. */
    constructor (payloadSize: nat)
      requires payloadSize <= MAX_SIZE
      ensures Valid() && fresh(buffer) && Cleared() && Payload() == []
      ensures bufferSize == if payloadSize == 0 then SEND_BUFFER_SIZE else BODY + payloadSize
      ensures sendId == 0
    {
      var size := if payloadSize == 0 then SEND_BUFFER_SIZE else EXTRA_HEADER_SIZE + 16 + payloadSize;
      bufferSize := size;
      buffer := new byte[size](_ => 0);
      offset := EXTRA_HEADER_SIZE + 16;
      packedOffset := 0;
      sendId := 0;
    }

    /** A buffer whose frame takes the next id of another buffer. */
    constructor TakingIdOf(payloadSize: nat, from: SendBuffer)
      requires 0 < payloadSize <= MAX_SIZE
      modifies from`sendId
      ensures Valid() && fresh(buffer) && Cleared() && Payload() == []
      ensures bufferSize == BODY + payloadSize
      ensures sendId == old(from.sendId) && from.sendId == NextId(old(from.sendId))
    {
      var size := EXTRA_HEADER_SIZE + 16 + payloadSize;
      bufferSize := size;
      buffer := new byte[size](_ => 0);
      offset := EXTRA_HEADER_SIZE + 16;
      packedOffset := 0;
      sendId := from.sendId;
      new;
      from.sendId := NextId(from.sendId);
    }

    predicate CanPut(n: nat)
      reads this
    {
      offset + n < bufferSize
    }

    predicate Empty()
      reads this
    {
      offset <= BODY
    }

    function Size(): int
      reads this
    {
      offset - packedOffset
    }

    function Data(): (s: seq<byte>)
      requires Valid()
      reads this, buffer
      ensures |s| == Size()
    {
      buffer[packedOffset..offset]
    }

    /** Appends to the payload, in a larger buffer when it would not fit strictly. */
    method Put(data: seq<byte>)
      requires Valid()
      requires offset + |data| <= BODY + MAX_SIZE && bufferSize <= BODY + MAX_SIZE
      modifies this`offset, this`buffer, this`bufferSize, buffer
      ensures Valid() && (buffer == old(buffer) || fresh(buffer))
      ensures old(CanPut(|data|)) ==> buffer == old(buffer) && bufferSize == old(bufferSize)
      ensures Payload() == old(Payload()) + data
      ensures old(Cleared()) ==> Cleared()
    {
      ghost var was := Payload();
      if !CanPut(|data|) {
        Resize(bufferSize + if bufferSize > |data| then bufferSize else |data|);
      }
      ghost var mid := buffer[..];
      assert mid[BODY..offset] == was;
      Copy(buffer, offset, data);
      offset := offset + |data|;
      assert buffer[..][BODY..offset] == was + data;
    }

    /** `realloc`: keeps the contents and leaves the new octets arbitrary. */
    method Resize(len: nat)
      requires Valid() && bufferSize <= len <= 3 * MAX_SIZE
      modifies this`buffer, this`bufferSize
      ensures Valid() && fresh(buffer) && bufferSize == len
      ensures buffer[..offset] == old(buffer[..offset])
      ensures Payload() == old(Payload()) && (old(Cleared()) ==> Cleared())
    {
      var larger := new byte[len];
      Copy(larger, 0, buffer[..]);
      buffer, bufferSize := larger, len;
    }

    method SetSendIdAndLength()
      requires Valid()
      modifies this`sendId, buffer
      ensures sendId == NextId(old(sendId))
      ensures buffer[..] == Overwrite(old(buffer[..]), EXTRA_HEADER_SIZE, LE(sendId, 8) + LE(offset - BODY, 8))
    {
      sendId := NextId(sendId);
      var payloadLength := offset - 16 - EXTRA_HEADER_SIZE;
      OverwriteTwice(buffer[..], EXTRA_HEADER_SIZE, LE(sendId, 8), LE(payloadLength, 8));
      Copy(buffer, EXTRA_HEADER_SIZE, LE(sendId, 8));
      Copy(buffer, EXTRA_HEADER_SIZE + 8, LE(payloadLength, 8));
    }

    /** Generates the header at the start of the buffer and moves it up against the id. */
    method SetExtraHeader()
      requires Valid() && Cleared()
      modifies this`packedOffset, buffer
      ensures
        var h := Header(16 + (offset - BODY), None);
        && packedOffset == EXTRA_HEADER_SIZE - |h|
        && buffer[..] == Overwrite(Overwrite(old(buffer[..]), 0, h), packedOffset, h)
    {
      var payloadLength := 16 + (offset - BODY);
      HeaderIntoCleared(buffer[0], buffer[1], payloadLength, None);
      var headerBytes := GenWebSocketHeader(buffer, payloadLength, None);
      ghost var mid := buffer[..];
      assert buffer[..headerBytes] == mid[..headerBytes] == Header(payloadLength, None);
      packedOffset := EXTRA_HEADER_SIZE - headerBytes;
      Copy(buffer, packedOffset, buffer[..headerBytes]);
    }

    /** Completes the frame in place: id, length and header in front of the payload. */
    method Pack()
      requires Valid() && Cleared()
      modifies this`sendId, this`packedOffset, buffer
      ensures Valid() && Payload() == old(Payload())
      ensures sendId == NextId(old(sendId))
      ensures Data() == Frame(sendId, Payload())
    {
      hide Overwrite, Header, LE;
      ghost var was := buffer[..];
      SetSendIdAndLength();
      ghost var prefix := LE(sendId, 8) + LE(offset - BODY, 8);
      FrontStays(was, prefix);
      assert buffer[0] == buffer[..][0] && buffer[1] == buffer[..][1];
      SetExtraHeader();
      ghost var m := buffer[..];
      assert was[BODY..offset] == old(Payload());
      PackedLayout(was, prefix, Header(16 + (offset - BODY), None), offset);
      assert m[BODY..offset] == Payload() && m[packedOffset..offset] == Data();
    }

    lemma FrontStays(was: seq<byte>, prefix: seq<byte>)
      requires EXTRA_HEADER_SIZE + |prefix| <= |was|
      ensures forall k :: 0 <= k < EXTRA_HEADER_SIZE ==> Overwrite(was, EXTRA_HEADER_SIZE, prefix)[k] == was[k]
    {
    }

    /** The stores of `Pack` leave header, id, length and payload adjacent. */
    lemma PackedLayout(was: seq<byte>, prefix: seq<byte>, header: seq<byte>, end: nat)
      requires |prefix| == 16 && 2 <= |header| <= EXTRA_HEADER_SIZE && BODY <= end <= |was|
      ensures
        var at := EXTRA_HEADER_SIZE - |header|;
        var r := Overwrite(Overwrite(Overwrite(was, EXTRA_HEADER_SIZE, prefix), 0, header), at, header);
        && r[at..end] == header + (prefix + was[BODY..end])
        && r[BODY..end] == was[BODY..end]
    {
      hide Overwrite;
      var prefixed := Overwrite(was, EXTRA_HEADER_SIZE, prefix);
      var m := Overwrite(prefixed, 0, header);
      var at := EXTRA_HEADER_SIZE - |header|;
      var r := Overwrite(m, at, header);
      Behind(was, EXTRA_HEADER_SIZE, prefix, BODY, end);
      Behind(prefixed, 0, header, EXTRA_HEADER_SIZE, BODY);
      Behind(prefixed, 0, header, BODY, end);
      Behind(m, at, header, EXTRA_HEADER_SIZE, BODY);
      Behind(m, at, header, BODY, end);
      Adjacent(r, at, EXTRA_HEADER_SIZE, BODY, end);
    }

    /** What lies behind a store stays. */
    lemma Behind(m: seq<byte>, at: nat, s: seq<byte>, i: nat, j: nat)
      requires at + |s| <= i <= j <= |m|
      ensures Overwrite(m, at, s)[i..j] == m[i..j]
    {
    }

    lemma Adjacent(s: seq<byte>, i: nat, j: nat, k: nat, l: nat)
      requires i <= j <= k <= l <= |s|
      ensures s[i..l] == s[i..j] + (s[j..k] + s[k..l])
    {
    }

    method Reset()
      requires Valid()
      modifies this`offset, buffer
      ensures Valid() && Cleared() && Payload() == []
    {
      offset := EXTRA_HEADER_SIZE + 16;
      Copy(buffer, 0, seq(offset, _ => 0));
    }
  }
}
