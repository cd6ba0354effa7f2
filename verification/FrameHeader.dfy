/** The RFC 6455 frame header: generation in place, and parsing from the stream. */
module FrameHeaders {
  import opened Bytes
  import opened Memory
  import opened SocketStreams

  /** Two fixed octets, eight octets of length and four of masking key. */
  const MAX_HEADER_SIZE: nat := 14

  datatype HeaderInfo = HeaderInfo(length: nat, masked: bool, key: u32, used: nat)

  /** Octets of the extended length field that the 7-bit length announces. */
  function ExtraLength(len7: nat): (r: nat) {
    if len7 == 126 then 2 else if len7 == 127 then 8 else 0
  }

  /** The 7-bit length field for a payload of `n` octets. */
  function ShortLength(n: nat): (r: nat)
    ensures r < 128
  {
    if n < 126 then n else if n <= 65535 then 126 else 127
  }

  function LengthField(n: nat): (s: seq<byte>)
    ensures |s| == ExtraLength(ShortLength(n))
  {
    BE(n, ExtraLength(ShortLength(n)))
  }

  function KeyField(key: Option<u32>): (s: seq<byte>)
    ensures |s| == if key.Some? then 4 else 0
  {
    if key.Some? then LE(key.value, 4) else []
  }

  /** A final binary frame's header for `n` payload octets: opcode 2, fin set, rsv clear. */
  function Header(n: nat, key: Option<u32>): (s: seq<byte>)
    ensures 2 <= |s| <= MAX_HEADER_SIZE
    ensures |s| == 2 + ExtraLength(ShortLength(n)) + if key.Some? then 4 else 0
  {
    [0x82, ShortLength(n) + if key.Some? then 0x80 else 0] + LengthField(n) + KeyField(key)
  }

  /** What a reader makes of a stream that starts with a header; None when it ends too early. */
  function ParseHeader(s: seq<byte>): (r: Option<HeaderInfo>)
    ensures r.Some? ==> 2 <= r.value.used <= |s| && r.value.used <= MAX_HEADER_SIZE
    ensures r.Some? ==> r.value.length < TWO_64
  {
    if |s| < 2 then None else
    var masked, len7 := s[1] / 0x80 == 1, s[1] % 0x80;
    var lengthEnd := 2 + ExtraLength(len7);
    var used := lengthEnd + if masked then 4 else 0;
    if |s| < used then None else
    Spans();
    UnBEBound(s[2..lengthEnd]);
    UnLERoundTrip(s[lengthEnd..used]);
    Some(HeaderInfo(
      if len7 < 126 then len7 else UnBE(s[2..lengthEnd]),
      masked,
      if masked then UnLE(s[lengthEnd..used]) else 0,
      used))
  }

  /** Parsing inverts generation for every length and every optional key. */
  lemma HeaderRoundTrip(n: u64, key: Option<u32>, rest: seq<byte>)
    ensures ParseHeader(Header(n, key) + rest)
         == Some(HeaderInfo(n, key.Some?, if key.Some? then key.value else 0, |Header(n, key)|))
  {
    hide BE, LE, UnBE, UnLE;
    HeaderParts(n, key, rest);
    Spans();
    if n >= 126 {
      BERoundTrip(n, ExtraLength(ShortLength(n)));
    }
    if key.Some? {
      LERoundTrip(key.value, 4);
    }
  }

  /** Where the parts of a header are in a stream that starts with it. */
  lemma HeaderParts(n: u64, key: Option<u32>, rest: seq<byte>)
    ensures
      var s := Header(n, key) + rest;
      var lengthEnd := 2 + ExtraLength(ShortLength(n));
      && s[1] % 0x80 == ShortLength(n) && (s[1] / 0x80 == 1 <==> key.Some?)
      && s[2..lengthEnd] == LengthField(n) && s[lengthEnd..|Header(n, key)|] == KeyField(key)
  {
    hide LengthField, KeyField, ExtraLength, ShortLength;
    var head := [0x82, ShortLength(n) + if key.Some? then 0x80 else 0];
    FlagAndLength(ShortLength(n), key.Some?);
    ThreeParts(head, LengthField(n), KeyField(key), rest);
  }

  lemma FlagAndLength(len7: nat, flag: bool)
    requires len7 < 0x80
    ensures
      var b := len7 + if flag then 0x80 else 0;
      b % 0x80 == len7 && (b / 0x80 == 1 <==> flag)
  {
  }

  lemma ThreeParts(a: seq<byte>, b: seq<byte>, c: seq<byte>, rest: seq<byte>)
    ensures
      var s := a + b + c + rest;
      && s[..|a|] == a && s[|a|..|a| + |b|] == b && s[|a| + |b|..|a| + |b| + |c|] == c
  {
  }

  /**
   Section 5.2 of RFC 6455, octet by octet: what a reader takes from a header,
   and that it takes it from every stream that is long enough.
   */
  lemma ParseReads(s: seq<byte>)
    ensures
      var r := ParseHeader(s);
      if |s| < 2 then r == None else
      var len7, masked := s[1] % 0x80, s[1] >= 0x80;
      var end := if len7 == 126 then 4 else if len7 == 127 then 10 else 2;
      var used := if masked then end + 4 else end;
      if |s| < used then r == None else
      && r.Some? && r.value.used == used && r.value.masked == masked
      && r.value.length == (
        if len7 == 126 then Number(0, 0, s[2], s[3])
        else if len7 == 127 then TWO_32 * Number(s[2], s[3], s[4], s[5]) + Number(s[6], s[7], s[8], s[9])
        else len7)
      && r.value.key == if masked then Number(s[end + 3], s[end + 2], s[end + 1], s[end]) else 0
  {
    hide UnBE, UnLE, Number;
    if |s| >= 2 {
      var end := 2 + ExtraLength(s[1] % 0x80);
      if |s| >= end {
        BESpells(s[2..end]);
      }
      if |s| >= end + 4 {
        LESpells(s[end..end + 4]);
      }
    }
  }

  /** And what a generated header looks like: a final binary frame, in the shortest of the three forms. */
  lemma HeaderOctets(n: u64, key: Option<u32>)
    ensures
      var h := Header(n, key);
      var end := if n < 126 then 2 else if n <= 65535 then 4 else 10;
      && |h| == (if key.Some? then end + 4 else end)
      && h[0] == 0x82 && (h[1] >= 0x80 <==> key.Some?)
      && h[1] % 0x80 == (if n < 126 then n else if n <= 65535 then 126 else 127)
      && (end == 4 ==> n == Number(0, 0, h[2], h[3]))
      && (end == 10 ==> n == TWO_32 * Number(h[2], h[3], h[4], h[5]) + Number(h[6], h[7], h[8], h[9]))
      && (key.Some? ==> key.value == Number(h[end + 3], h[end + 2], h[end + 1], h[end]))
  {
    hide ParseHeader, Number, BE, LE;
    var h := Header(n, key);
    HeaderRoundTrip(n, key, []);
    assert h + [] == h;
    ParseReads(h);
  }

  /** Section 5.2 of RFC 6455: no header with the same meaning is shorter. */
  lemma HeaderIsShortest(s: seq<byte>, n: u64, key: Option<u32>)
    requires var p := ParseHeader(s);
      p.Some? && p.value.length == n && p.value.masked == key.Some?
    ensures |Header(n, key)| <= ParseHeader(s).value.used
  {
    Spans();
    var len7 := s[1] % 0x80;
    if len7 == 126 {
      UnBEBound(s[2..4]);
    }
  }

  /** Two headers that begin the same stream are the same header. */
  lemma HeaderUnique(n: u64, key: Option<u32>, n': u64, key': Option<u32>, rest: seq<byte>, rest': seq<byte>)
    requires Header(n, key) + rest == Header(n', key') + rest'
    ensures n == n' && key == key' && rest == rest'
  {
    HeaderRoundTrip(n, key, rest);
    HeaderRoundTrip(n', key', rest');
    assert (Header(n, key) + rest)[|Header(n, key)|..] == rest;
    assert (Header(n', key') + rest')[|Header(n', key')|..] == rest';
  }

  /**
   A header written over memory whose first two octets were `b0` and `b1`: the
   bit fields opcode, fin and length are assigned, while the rsv bits, and the
   mask bit when there is no key, keep what was there.
   */
  function HeaderInto(b0: byte, b1: byte, n: u64, key: Option<u32>): (s: seq<byte>)
    ensures |s| == |Header(n, key)|
  {
    var maskBit := if key.Some? then 0x80 else b1 / 0x80 * 0x80;
    [0x82 + b0 / 16 % 8 * 16, ShortLength(n) + maskBit] + LengthField(n) + KeyField(key)
  }

  /** Memory that was cleared first holds a proper header afterwards, and only then. */
  lemma HeaderIntoCleared(b0: byte, b1: byte, n: u64, key: Option<u32>)
    ensures HeaderInto(b0, b1, n, key) == Header(n, key)
       <==> b0 / 16 % 8 == 0 && (key.Some? || b1 < 0x80)
  {
    hide ShortLength, LengthField, KeyField;
    var maskBit := if key.Some? then 0x80 else b1 / 0x80 * 0x80;
    SameParts(0x82 + b0 / 16 % 8 * 16, ShortLength(n) + maskBit, 0x82, ShortLength(n) + if key.Some? then 0x80 else 0,
              LengthField(n), KeyField(key));
    MaskBitClear(b1);
  }

  lemma SameParts(a: byte, b: byte, c: byte, d: byte, l: seq<byte>, k: seq<byte>)
    ensures [a, b] + l + k == [c, d] + l + k <==> a == c && b == d
  {
    assert ([a, b] + l + k)[0] == a && ([a, b] + l + k)[1] == b;
    assert ([c, d] + l + k)[0] == c && ([c, d] + l + k)[1] == d;
  }

  lemma MaskBitClear(b1: byte)
    ensures b1 / 0x80 * 0x80 == 0 <==> b1 < 0x80
  {
  }

  /** Stores the length fields of `numBytes` and tells where they end. */
  method SetLength(header: array<byte>, numBytes: u64) returns (headerBytes: nat)
    requires MAX_HEADER_SIZE <= header.Length
    modifies header
    ensures headerBytes == 2 + ExtraLength(ShortLength(numBytes))
    ensures header[..] == Overwrite(old(header[..]), 0,
      [old(header[0]), ShortLength(numBytes) + old(header[1]) / 0x80 * 0x80] + LengthField(numBytes))
  {
    headerBytes := 2;
    if numBytes < 126 {
      header[1] := header[1] / 0x80 * 0x80 + numBytes;
    } else if numBytes <= 65535 {
      header[1] := header[1] / 0x80 * 0x80 + 126;
      SwapOrderStores(numBytes, 2);
      Copy(header, headerBytes, LE(SwapOrder(numBytes, 2), 2));
      headerBytes := headerBytes + 2;
    } else {
      header[1] := header[1] / 0x80 * 0x80 + 127;
      Hton64Stores(numBytes);
      Copy(header, headerBytes, LE(Ntoh64(numBytes), 8));
      headerBytes := headerBytes + 8;
    }
  }

  method SetOpcodeAndFin(header: array<byte>)
    requires 2 <= header.Length
    modifies header
    ensures header[..] == old(header[..])[0 := 0x82 + old(header[0]) / 16 % 8 * 16]
  {
    BitFields(header[0], 0, 0);
    header[0] := header[0] / 16 * 16 + 0x02;
    header[0] := header[0] % 0x80 + 0x80;
  }

  /** Sets the mask bit and stores the key where the length fields end. */
  method SetKey(header: array<byte>, at: nat, key: u32)
    requires 2 <= at && at + 4 <= header.Length
    modifies header
    ensures header[..] == Overwrite(old(header[..])[1 := old(header[1]) % 0x80 + 0x80], at, LE(key, 4))
  {
    header[1] := header[1] % 0x80 + 0x80;
    Copy(header, at, LE(key, 4));
  }

  /** Writes a header at the start of `header` and returns how many octets it takes. */
  method GenWebSocketHeader(header: array<byte>, numBytes: u64, key: Option<u32>) returns (headerBytes: nat)
    requires MAX_HEADER_SIZE <= header.Length
    modifies header
    ensures headerBytes == |Header(numBytes, key)|
    ensures header[..] == Overwrite(old(header[..]), 0,
      HeaderInto(old(header[0]), old(header[1]), numBytes, key))
  {
    hide Overwrite, ShortLength, LE, BE;
    ghost var was := header[..];
    SetOpcodeAndFin(header);
    ghost var b0, b1 := header[0], ShortLength(numBytes) + was[1] / 0x80 * 0x80;
    ghost var fixed := [b0, b1] + LengthField(numBytes);
    OverwriteFirst(was, b0, fixed);
    headerBytes := SetLength(header, numBytes);
    assert header[..] == Overwrite(was, 0, fixed);
    if key.Some? {
      SecondOctet(was, fixed);
      SetKey(header, headerBytes, key.value);
      BitFields(was[0], ShortLength(numBytes), was[1] / 0x80);
      AssembleKey(was, b0, b1, LengthField(numBytes), ShortLength(numBytes) + 0x80, KeyField(key));
      headerBytes := headerBytes + 4;
    }
    assert fixed + [] == fixed;
  }

  lemma OverwriteFirst(m: seq<byte>, x: byte, s: seq<byte>)
    requires 0 < |s| <= |m|
    ensures Overwrite(m[0 := x], 0, s) == Overwrite(m, 0, s)
  {
  }

  lemma SecondOctet(m: seq<byte>, s: seq<byte>)
    requires 2 <= |s| <= |m|
    ensures Overwrite(m, 0, s)[1] == s[1]
  {
  }

  /** A header stored in two steps, the second one setting the mask bit and adding the key. */
  lemma AssembleKey(was: seq<byte>, b0: byte, b1: byte, length: seq<byte>, b1': byte, key: seq<byte>)
    requires 2 + |length| + |key| <= |was|
    ensures Overwrite(Overwrite(was, 0, [b0, b1] + length)[1 := b1'], 2 + |length|, key)
         == Overwrite(was, 0, [b0, b1'] + length + key)
  {
    var mid := Overwrite(was, 0, [b0, b1] + length)[1 := b1'];
    assert mid == Overwrite(was, 0, [b0, b1'] + length);
    OverwriteTwice(was, 0, [b0, b1'] + length, key);
  }

  /** Assigning opcode and fin, and assigning the mask bit over a stored length. */
  lemma BitFields(b0: byte, len7: nat, b: nat)
    requires len7 < 0x80 && b <= 1
    ensures (b0 / 16 * 16 + 0x02) % 0x80 + 0x80 == 0x82 + b0 / 16 % 8 * 16
    ensures (len7 + b * 0x80) % 0x80 + 0x80 == len7 + 0x80
  {
  }

  /** How many octets the two fixed ones announce behind them. */
  function Announced(b1: byte): (n: nat)
    ensures n <= MAX_HEADER_SIZE - 2
  {
    ExtraLength(b1 % 0x80) + if b1 / 0x80 == 1 then 4 else 0
  }

  /** Parsing looks at nothing behind the header. */
  lemma ParseLocal(s: seq<byte>)
    requires |s| >= 2
    ensures ParseHeader(s).Some? <==> 2 + Announced(s[1]) <= |s|
    ensures ParseHeader(s).Some? ==>
      ParseHeader(s).value.used == 2 + Announced(s[1]) && ParseHeader(s) == ParseHeader(s[..2 + Announced(s[1])])
  {
    hide UnBE, UnLE;
    if 2 + Announced(s[1]) <= |s| {
      var end, lengthEnd := 2 + Announced(s[1]), 2 + ExtraLength(s[1] % 0x80);
      SliceOfPrefix(s, end, 2, lengthEnd);
      SliceOfPrefix(s, end, lengthEnd, end);
    }
  }

  lemma SliceOfPrefix(s: seq<byte>, n: nat, i: nat, j: nat)
    requires i <= j <= n <= |s|
    ensures s[..n][i..j] == s[i..j]
  {
  }

  /** Interprets a complete header in a buffer: byte-swapped length, then the key as stored. */
  method DecodeHeader(headerData: array<byte>) returns (info: HeaderInfo)
    requires headerData.Length == MAX_HEADER_SIZE
    ensures Some(info) == ParseHeader(headerData[..2 + Announced(headerData[1])])
  {
    var masked := headerData[1] / 0x80 == 1;
    var dataLen: nat := headerData[1] % 0x80;
    var maskData: u32 := 0;
    var maskOffset := 2;
    ghost var h := headerData[..2 + Announced(headerData[1])];
    match headerData[1] % 0x80 {
      case 126 =>
        LoadsSwapped(headerData[2..4]);
        assert h[2..4] == headerData[2..4];
        dataLen := SwapOrder(UnLE(headerData[2..4]), 2);
        maskOffset := maskOffset + 2;
      case 127 =>
        Ntoh64Loads(headerData[2..10]);
        assert h[2..10] == headerData[2..10];
        dataLen := Ntoh64(UnLE(headerData[2..10]));
        maskOffset := maskOffset + 8;
      case _ =>
    }
    if masked {
      Spans();
      UnLERoundTrip(headerData[maskOffset..maskOffset + 4]);
      assert h[maskOffset..maskOffset + 4] == headerData[maskOffset..maskOffset + 4];
      maskData := UnLE(headerData[maskOffset..maskOffset + 4]);
    }
    info := HeaderInfo(dataLen, masked, maskData, maskOffset + if masked then 4 else 0);
  }

  /**
   Reads a header from the stream: two octets, then the extended length and
   masking key these announce. Reports what `ParseHeader` makes of the stream
   and consumes exactly the header, or everything when the peer closes inside it.
   */
  method RecvMessageHeader(stream: SocketStream) returns (r: Option<HeaderInfo>)
    requires stream.Valid()
    modifies stream`size, stream`offset, stream`incoming, stream.buf
    ensures stream.Valid()
    ensures r == ParseHeader(old(stream.Pending()))
    ensures stream.Pending() == if r.Some? then old(stream.Pending())[r.value.used..] else []
  {
    hide ParseHeader;
    ghost var all := stream.Pending();
    var headerData := new byte[MAX_HEADER_SIZE];
    var ret := stream.RecvEx(headerData, 0, 2);
    if ret != 2 {
      TooShort(all);
      return None;
    }
    ParseLocal(all);
    assert headerData[..2] == all[..2] && headerData[1] == all[1];
    var extra := ExtraOctets(headerData);
    if extra > 0 {
      ret := stream.RecvEx(headerData, 2, extra);
      if ret != extra {
        return None;
      }
      Consecutive(all, 2, extra);
    }
    assert headerData[..2 + extra] == all[..2 + extra];
    var info := DecodeHeader(headerData);
    r := Some(info);
  }

  lemma TooShort(s: seq<byte>)
    requires |s| < 2
    ensures ParseHeader(s).None?
  {
  }

  lemma Consecutive(s: seq<byte>, n: nat, k: nat)
    requires n + k <= |s|
    ensures s[..n] + s[n..][..k] == s[..n + k] && s[n..][k..] == s[n + k..]
  {
  }

  /** How much more to read: the extended length and the masking key that the first two octets announce. */
  method ExtraOctets(headerData: array<byte>) returns (extra: nat)
    requires headerData.Length == MAX_HEADER_SIZE
    ensures extra == Announced(headerData[1])
  {
    var lengthSize := match headerData[1] % 0x80
      case 126 => 2
      case 127 => 8
      case _ => 0;
    extra := lengthSize + if headerData[1] / 0x80 == 1 then 4 else 0;
  }
}
