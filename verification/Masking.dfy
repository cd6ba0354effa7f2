/** Payload masking: the octet rule of RFC 6455 and the word-at-a-time loops that apply it. */
module Masking {
  import opened Bytes
  import opened Memory

  /** Exclusive or of the low `k` bits. */
  function XorBits(a: nat, b: nat, k: nat): (r: nat)
    ensures r < Pow2(k)
  {
    if k == 0 then 0 else (a + b) % 2 + 2 * XorBits(a / 2, b / 2, k - 1)
  }

  function Xor(a: byte, b: byte): byte {
    assert Pow2(8) == 256;
    XorBits(a, b, 8)
  }

  lemma {:induction false} XorBitsInvolutive(a: nat, b: nat, k: nat)
    requires a < Pow2(k)
    ensures XorBits(XorBits(a, b, k), b, k) == a
  {
    if k > 0 {
      XorBitsInvolutive(a / 2, b / 2, k - 1);
      LowBit(a, b, XorBits(a / 2, b / 2, k - 1));
    }
  }

  lemma LowBit(a: nat, b: nat, h: nat)
    ensures ((a + b) % 2 + 2 * h) / 2 == h
    ensures (((a + b) % 2 + 2 * h) + b) % 2 == a % 2
  {
  }

  /** A `j`-bit low part and a high part are combined independently. */
  lemma {:induction false} XorBitsSplit(a: nat, b: nat, c: nat, d: nat, j: nat, k: nat, m: nat)
    requires m == Pow2(j) && a < m && b < m
    ensures XorBits(a + m * c, b + m * d, j + k) == XorBits(a, b, j) + m * XorBits(c, d, k)
  {
    hide XorBits, Pow2;
    if j == 0 {
      Pow2Steps(0);
      XorSteps(a, b, 0);
    } else {
      var p := Pow2(j - 1);
      Pow2Steps(j);
      Doubled(p, m, c);
      Doubled(p, m, d);
      XorOfDoubled(a, b, p * c, p * d, j + k);
      XorBitsSplit(a / 2, b / 2, c, d, j - 1, k, p);
      XorSteps(a, b, j);
      Doubled(p, m, XorBits(c, d, k));
    }
  }

  lemma Pow2Steps(j: nat)
    ensures Pow2(j) == if j == 0 then 1 else 2 * Pow2(j - 1)
  {
  }

  lemma XorSteps(a: nat, b: nat, k: nat)
    ensures XorBits(a, b, k) == if k == 0 then 0 else (a + b) % 2 + 2 * XorBits(a / 2, b / 2, k - 1)
  {
  }

  lemma Doubled(p: nat, m: nat, n: nat)
    requires m == 2 * p
    ensures m * n == 2 * (p * n) && p * n >= 0
  {
    MulRegroup(2, p, n);
    MulRegroup(1, p, n);
  }

  /** The number with these bits, least significant first. */
  function OfBits(bits: seq<bool>): nat {
    if bits == [] then 0 else (if bits[0] then 1 else 0) + 2 * OfBits(bits[1..])
  }

  function Differ(x: seq<bool>, y: seq<bool>): seq<bool>
    requires |x| == |y|
  {
    seq(|x|, i requires 0 <= i < |x| => x[i] != y[i])
  }

  /** `^` on numbers given by their bits: a bit is set where the two differ. */
  lemma {:induction false} XorIsBitwise(x: seq<bool>, y: seq<bool>)
    requires |x| == |y|
    ensures XorBits(OfBits(x), OfBits(y), |x|) == OfBits(Differ(x, y))
  {
    hide XorBits, OfBits, Differ;
    XorSteps(OfBits(x), OfBits(y), |x|);
    if x == [] {
      NoBits(x, y);
    } else {
      XorIsBitwise(x[1..], y[1..]);
      BitAndRest(x);
      BitAndRest(y);
      DifferSteps(x, y);
      BitAndRest(Differ(x, y));
    }
  }

  lemma NoBits(x: seq<bool>, y: seq<bool>)
    requires x == y == []
    ensures OfBits(Differ(x, y)) == 0
  {
  }

  lemma DifferSteps(x: seq<bool>, y: seq<bool>)
    requires |x| == |y| > 0
    ensures Differ(x, y) != [] && Differ(x, y)[0] == (x[0] != y[0]) && Differ(x, y)[1..] == Differ(x[1..], y[1..])
  {
  }

  lemma BitAndRest(x: seq<bool>)
    requires x != []
    ensures OfBits(x) == (if x[0] then 1 else 0) + 2 * OfBits(x[1..])
    ensures OfBits(x) / 2 == OfBits(x[1..]) && OfBits(x) % 2 == if x[0] then 1 else 0
  {
  }

  /** Every octet is given by eight bits. */
  lemma {:induction false} BitsOf(n: nat, k: nat) returns (bits: seq<bool>)
    requires n < Pow2(k)
    ensures |bits| == k && OfBits(bits) == n
  {
    bits := [];
    if k > 0 {
      var rest := BitsOf(n / 2, k - 1);
      bits := [n % 2 == 1] + rest;
      assert bits[1..] == rest;
    }
  }

  /** Even parts above the lowest bit. */
  lemma XorOfDoubled(a: nat, b: nat, x: nat, y: nat, n: nat)
    requires n > 0
    ensures XorBits(a + 2 * x, b + 2 * y, n) == (a + b) % 2 + 2 * XorBits(a / 2 + x, b / 2 + y, n - 1)
  {
    hide XorBits;
    XorSteps(a + 2 * x, b + 2 * y, n);
    Halves(a, x);
    Halves(b, y);
    Halves(a + b, x + y);
  }

  lemma Halves(a: nat, h: nat)
    ensures (a + 2 * h) / 2 == a / 2 + h && (a + 2 * h) % 2 == a % 2
  {
  }

  /** Octet-wise exclusive or of two equally long strings. */
  function XorOctets(s: seq<byte>, t: seq<byte>): (r: seq<byte>)
    requires |s| == |t|
    ensures |r| == |s|
  {
    seq(|s|, i requires 0 <= i < |s| => Xor(s[i], t[i]))
  }

  /** A wide exclusive or of two little-endian words is octet-wise. */
  lemma {:induction false} WideXor(s: seq<byte>, t: seq<byte>)
    requires |s| == |t|
    ensures XorBits(UnLE(s), UnLE(t), 8 * |s|) == UnLE(XorOctets(s, t))
  {
    hide XorBits, Pow2, UnLE, XorOctets;
    if s == [] {
      XorOfNothing();
    } else {
      Pow2Of8();
      WideXor(s[1..], t[1..]);
      UnLESteps(s);
      UnLESteps(t);
      UnLESteps(XorOctets(s, t));
      XorBitsSplit(s[0], t[0], UnLE(s[1..]), UnLE(t[1..]), 8, 8 * |s[1..]|, 256);
      XorTail(s, t);
    }
  }

  lemma XorOfNothing()
    ensures XorBits(UnLE([]), UnLE([]), 0) == UnLE(XorOctets([], []))
  {
  }

  lemma UnLESteps(s: seq<byte>)
    requires s != []
    ensures UnLE(s) == s[0] + 256 * UnLE(s[1..])
  {
  }

  lemma Pow2Of8()
    ensures Pow2(8) == 256
  {
  }

  lemma XorTail(s: seq<byte>, t: seq<byte>)
    requires |s| == |t| > 0
    ensures XorOctets(s, t)[0] == XorBits(s[0], t[0], 8) && XorOctets(s, t)[1..] == XorOctets(s[1..], t[1..])
  {
    hide XorBits;
  }

  /** Section 5.3 of RFC 6455: octet `i` is combined with octet `i mod 4` of the key. */
  function Masked(s: seq<byte>, key: u32): (r: seq<byte>)
    ensures |r| == |s|
  {
    seq(|s|, i requires 0 <= i < |s| => Xor(s[i], LE(key, 4)[i % 4]))
  }

  lemma MaskingIsInvolutive(s: seq<byte>, key: u32)
    ensures Masked(Masked(s, key), key) == s
  {
    forall i | 0 <= i < |s|
      ensures Masked(Masked(s, key), key)[i] == s[i]
    {
      assert Pow2(8) == 256;
      XorBitsInvolutive(s[i], LE(key, 4)[i % 4], 8);
    }
  }

  /** The four octets that combining one 32-bit word with the key leaves in memory. */
  lemma MaskedWord(w: seq<byte>, key: u32)
    requires |w| == 4
    ensures LE(XorBits(UnLE(w), key, 32), 4) == Masked(w, key)
  {
    hide XorBits, Xor, UnLE, LE, XorOctets, Masked;
    var k := LE(key, 4);
    Spans();
    LERoundTrip(key, 4);
    WideXor(w, k);
    UnLERoundTrip(XorOctets(w, k));
    FourMasked(w, key);
  }

  lemma FourMasked(w: seq<byte>, key: u32)
    requires |w| == 4
    ensures XorOctets(w, LE(key, 4)) == Masked(w, key)
  {
    forall i | 0 <= i < 4
      ensures XorOctets(w, LE(key, 4))[i] == Masked(w, key)[i]
    {
      OneMasked(w, key, i);
    }
  }

  lemma OneMasked(w: seq<byte>, key: u32, i: nat)
    requires |w| == 4 && i < 4
    ensures XorOctets(w, LE(key, 4))[i] == Masked(w, key)[i]
  {
    hide Xor, LE;
    assert i % 4 == i;
  }

  /** Masking can stop after any number of whole words and start over. */
  lemma MaskedInParts(s: seq<byte>, t: seq<byte>, key: u32)
    requires |s| % 4 == 0
    ensures Masked(s + t, key) == Masked(s, key) + Masked(t, key)
  {
    hide Xor, LE;
    forall i | |s| <= i < |s| + |t|
      ensures Masked(s + t, key)[i] == Masked(t, key)[i - |s|]
    {
      SameKeyOctet(i, |s|);
    }
  }

  lemma SameKeyOctet(i: nat, n: nat)
    requires n <= i && n % 4 == 0
    ensures i % 4 == (i - n) % 4
  {
  }

  /** Masking up to any word boundary and then the rest masks the whole. */
  lemma MaskSplit(was: seq<byte>, at: nat, cut: nat, len: nat, key: u32)
    requires cut <= len && at + len <= |was| && cut % 4 == 0
    ensures
      var mid := Overwrite(was, at, Masked(was[at..at + cut], key));
      Overwrite(mid, at + cut, Masked(mid[at + cut..at + len], key))
      == Overwrite(was, at, Masked(was[at..at + len], key))
  {
    var mid := Overwrite(was, at, Masked(was[at..at + cut], key));
    assert mid[at + cut..at + len] == was[at + cut..at + len];
    MaskedInParts(was[at..at + cut], was[at + cut..at + len], key);
    assert was[at..at + cut] + was[at + cut..at + len] == was[at..at + len];
    OverwriteTwice(was, at, Masked(was[at..at + cut], key), Masked(was[at + cut..at + len], key));
  }

  lemma NothingMasked(was: seq<byte>, at: nat, key: u32)
    requires at <= |was|
    ensures Overwrite(was, at, Masked(was[at..at], key)) == was
  {
  }

  /** `*p ^= key` for the word at `at`. */
  method MaskWord(buf: array<byte>, at: nat, key: u32)
    requires at + 4 <= buf.Length
    modifies buf
    ensures buf[..] == Overwrite(old(buf[..]), at, Masked(old(buf[..])[at..at + 4], key))
  {
    hide Overwrite, Masked, XorBits, LE, UnLE;
    ghost var was := buf[..];
    var w := buf[at..at + 4];
    assert w == was[at..at + 4];
    MaskedWord(w, key);
    Copy(buf, at, LE(XorBits(UnLE(w), key, 32), 4));
  }

  /** Combines `n` consecutive words of the buffer with the key. */
  method MaskWords(buf: array<byte>, at: nat, n: nat, key: u32)
    requires at + 4 * n <= buf.Length
    modifies buf
    ensures buf[..] == Overwrite(old(buf[..]), at, Masked(old(buf[..])[at..at + 4 * n], key))
  {
    hide Overwrite, Masked, XorBits, LE, UnLE;
    ghost var was := buf[..];
    var i, done := 0, 0;
    NothingMasked(was, at, key);
    while i < n
      invariant i <= n && done == 4 * i
      invariant buf[..] == Overwrite(was, at, Masked(was[at..at + done], key))
    {
      MaskSplit(was, at, done, done + 4, key);
      MaskWord(buf, at + done, key);
      i, done := i + 1, done + 4;
    }
  }

  /** Masks octets `from..len` one at a time, octet `from` with the key's first octet. */
  method MaskOctets(buf: array<byte>, at: nat, from: nat, len: nat, key: u32)
    requires from <= len && at + len <= buf.Length && from % 4 == 0
    modifies buf
    ensures buf[..] == Overwrite(old(buf[..]), at + from, Masked(old(buf[..])[at + from..at + len], key))
  {
    var key8 := LE(key, 4);
    ghost var was := buf[..];
    ghost var s := was[at + from..at + len];
    var i := from;
    while i < len
      invariant from <= i <= len
      invariant forall j :: 0 <= j < |was| ==>
        buf[j] == if at + from <= j < at + i then Masked(s, key)[j - at - from] else was[j]
    {
      SameKeyOctet(i, from);
      buf[at + i] := Xor(buf[at + i], key8[i % 4]);
      i := i + 1;
    }
  }

  /** `words` whole words first, then the octets left, which restart the key. */
  method MaskWordsThenOctets(buf: array<byte>, at: nat, words: nat, len: nat, key: u32)
    requires 4 * words <= len && at + len <= buf.Length
    modifies buf
    ensures buf[..] == Overwrite(old(buf[..]), at, Masked(old(buf[..])[at..at + len], key))
  {
    var cut := 4 * words;
    ghost var was := buf[..];
    MaskWords(buf, at, words, key);
    ghost var mid := buf[..];
    assert mid == Overwrite(was, at, Masked(was[at..at + cut], key));
    MaskOctets(buf, at, cut, len, key);
    assert buf[..] == Overwrite(mid, at + cut, Masked(mid[at + cut..at + len], key));
    MaskSplit(was, at, cut, len, key);
  }

  /** Seen octet by octet. */
  lemma OctetsAfter(was: seq<byte>, at: nat, len: nat, key: u32)
    requires at + len <= |was|
    ensures
      var r := Overwrite(was, at, Masked(was[at..at + len], key));
      && (forall j :: at <= j < at + len ==> r[j] == Xor(was[j], LE(key, 4)[(j - at) % 4]))
      && (forall j :: 0 <= j < |was| && !(at <= j < at + len) ==> r[j] == was[j])
  {
    hide Xor, LE;
  }

  method UnMaskData(buf: array<byte>, at: nat, len: nat, key: u32)
    requires at + len <= buf.Length
    modifies buf
    ensures forall j :: at <= j < at + len ==> buf[j] == Xor(old(buf[j]), LE(key, 4)[(j - at) % 4])
    ensures forall j :: 0 <= j < buf.Length && !(at <= j < at + len) ==> buf[j] == old(buf[j])
    ensures buf[..] == Overwrite(old(buf[..]), at, Masked(old(buf[..])[at..at + len], key))
  {
    hide Overwrite, Masked, Xor, LE;
    OctetsAfter(buf[..], at, len, key);
    ghost var was := buf[..];
    MaskWordsThenOctets(buf, at, len / 4, len, key);
    assert forall j :: 0 <= j < buf.Length ==> buf[j] == buf[..][j] && old(buf[j]) == was[j];
  }

  /**
   The same with the length cut to its low 32 bits before rounding down to
   words: beyond 4 GiB the octet loop does all that the word loop leaves.
   */
  method WebSocketMessageUnmaskPayload(buf: array<byte>, at: nat, len: u64, key: u32)
    requires at + len <= buf.Length
    modifies buf
    ensures forall j :: at <= j < at + len ==> buf[j] == Xor(old(buf[j]), LE(key, 4)[(j - at) % 4])
    ensures forall j :: 0 <= j < buf.Length && !(at <= j < at + len) ==> buf[j] == old(buf[j])
    ensures buf[..] == Overwrite(old(buf[..]), at, Masked(old(buf[..])[at..at + len], key))
  {
    hide Overwrite, Masked, Xor, LE;
    OctetsAfter(buf[..], at, len, key);
    ghost var was := buf[..];
    MaskWordsThenOctets(buf, at, len % TWO_32 / 4, len, key);
    assert forall j :: 0 <= j < buf.Length ==> buf[j] == buf[..][j] && old(buf[j]) == was[j];
  }
}
