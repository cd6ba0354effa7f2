/** The hash of FIPS 180-4, sections 4.1.1, 4.2.1, 5.1.1, 5.2.1, 5.3.1, 6.1.2: one-shot, 80-word schedule. */
module Sha1Spec {
  import opened Bytes

  type octet = bv8
  type word = bv32

  /** ROTL^1, ROTL^5 and ROTL^30. */
  function Rotl1(x: word): word { (x << 1) | (x >> 31) }
  function Rotl5(x: word): word { (x << 5) | (x >> 27) }
  function Rotl30(x: word): word { (x << 30) | (x >> 2) }

  function Choose(x: word, y: word, z: word): word { (x & y) ^ (!x & z) }
  function Parity(x: word, y: word, z: word): word { x ^ y ^ z }
  function Majority(x: word, y: word, z: word): word { (x & y) ^ (x & z) ^ (y & z) }

  function F(t: nat, x: word, y: word, z: word): word {
    if t < 20 then Choose(x, y, z)
    else if t < 40 then Parity(x, y, z)
    else if t < 60 then Majority(x, y, z)
    else Parity(x, y, z)
  }

  function K(t: nat): word {
    if t < 20 then 0x5A827999 else if t < 40 then 0x6ED9EBA1 else if t < 60 then 0x8F1BBCDC else 0xCA62C1D6
  }

  /** A big-endian word. */
  function Word(b: seq<octet>): word
    requires |b| == 4
  {
    ((b[0] as word) << 24) | ((b[1] as word) << 16) | ((b[2] as word) << 8) | (b[3] as word)
  }

  function Words(block: seq<octet>): (m: seq<word>)
    requires |block| == 64
    ensures |m| == 16
  {
    seq(16, k requires 0 <= k < 16 => Word(block[4 * k..4 * k + 4]))
  }

  function Xor4(a: word, b: word, c: word, d: word): word { a ^ b ^ c ^ d }

  /** Addition modulo 2^32, of two and of five words. */
  function Add(a: word, b: word): word { a + b }
  function Sum5(a: word, b: word, c: word, d: word, e: word): word { a + b + c + d + e }

  /** The message schedule. */
  function W(m: seq<word>, t: nat): word
    requires |m| == 16
    decreases t
  {
    if t < 16 then m[t]
    else Rotl1(Xor4(W(m, t - 3), W(m, t - 8), W(m, t - 14), W(m, t - 16)))
  }

  datatype Regs = Regs(a: word, b: word, c: word, d: word, e: word)

  function Round(r: Regs, t: nat, w: word): Regs {
    Regs(Sum5(Rotl5(r.a), F(t, r.b, r.c, r.d), r.e, K(t), w), r.a, Rotl30(r.b), r.c, r.d)
  }

  function Schedule(m: seq<word>): (s: seq<word>)
    requires |m| == 16
    ensures |s| == 80
  {
    seq(80, t requires 0 <= t < 80 => W(m, t))
  }

  /** The working variables after one round for each word of `s`. */
  function Rounds(h: Regs, s: seq<word>): Regs {
    if s == [] then h
    else
      var t := |s| - 1;
      Round(Rounds(h, s[..t]), t, s[t])
  }

  function Plus(x: Regs, y: Regs): Regs {
    Regs(Add(x.a, y.a), Add(x.b, y.b), Add(x.c, y.c), Add(x.d, y.d), Add(x.e, y.e))
  }

  function Compress(h: Regs, block: seq<octet>): Regs
    requires |block| == 64
  {
    Plus(h, Rounds(h, Schedule(Words(block))))
  }

  /** The chaining value after a whole number of blocks. */
  function HashBlocks(h: Regs, data: seq<octet>): Regs
    requires |data| % 64 == 0
    decreases |data|
  {
    if data == [] then h else HashBlocks(Compress(h, data[..64]), data[64..])
  }

  const IV := Regs(0x67452301, 0xEFCDAB89, 0x98BADCFE, 0x10325476, 0xC3D2E1F0)

  /** Zero octets between the 0x80 octet and the length. */
  function ZeroOctets(l: nat): nat {
    (119 - l % 64) % 64
  }

  /** The bit length as a 64-bit big-endian number. */
  function LengthOctets(l: nat): (s: seq<octet>)
    ensures |s| == 8
  {
    seq(8, i requires 0 <= i < 8 => Digit(8 * l % TWO_64, 7 - i) as octet)
  }

  function Zeros(n: nat): (s: seq<octet>)
    ensures |s| == n
  {
    seq(n, _ => 0)
  }

  function Padding(l: nat): seq<octet> {
    [0x80] + Zeros(ZeroOctets(l)) + LengthOctets(l)
  }

  /**
   Section 5.1.1: the number of zero bits, seven of them in the octet 0x80, is
   the least that makes the length field end on a block boundary.
   */
  lemma PaddingIsLeast(l: nat, k: nat)
    ensures (l + |Padding(l)|) % 64 == 0
    ensures (8 * l + 1 + (7 + 8 * ZeroOctets(l))) % 512 == 448
    ensures (8 * l + 1 + k) % 512 == 448 ==> 7 + 8 * ZeroOctets(l) <= k
  {
    hide LengthOctets, Zeros;
    ZerosByRest(l);
    LeastZeros(l / 64, l % 64, ZeroOctets(l), k);
  }

  lemma ZerosByRest(l: nat)
    ensures ZeroOctets(l) == if l % 64 <= 55 then 55 - l % 64 else 119 - l % 64
  {
  }

  lemma LeastZeros(q: nat, r: nat, z: nat, k: nat)
    requires r < 64 && z == if r <= 55 then 55 - r else 119 - r
    ensures (64 * q + r + 9 + z) % 64 == 0
    ensures (8 * (64 * q + r) + 1 + (7 + 8 * z)) % 512 == 448
    ensures (8 * (64 * q + r) + 1 + k) % 512 == 448 ==> 7 + 8 * z <= k
  {
    Remainder(q, 8 * r + 1 + k);
    Remainder(q, 8 * r + 8 + 8 * z);
    assert 64 * q + r + 9 + z == 64 * if r <= 55 then q + 1 else q + 2;
  }

  lemma Remainder(q: nat, v: nat)
    ensures (512 * q + v) % 512 == v % 512
    ensures v < 448 || 449 <= v < 960 ==> v % 512 != 448
  {
  }

  /** Octet `k` of a word, most significant first. */
  function OctetOf(w: word, k: nat): octet
    requires k < 4
  {
    match k
    case 0 => ((w >> 24) & 0xFF) as octet
    case 1 => ((w >> 16) & 0xFF) as octet
    case 2 => ((w >> 8) & 0xFF) as octet
    case 3 => (w & 0xFF) as octet
  }

  function Bytes4(w: word): (s: seq<octet>)
    ensures |s| == 4
  {
    [OctetOf(w, 0), OctetOf(w, 1), OctetOf(w, 2), OctetOf(w, 3)]
  }

  function Digest(h: Regs): (s: seq<octet>)
    ensures |s| == 20
  {
    Bytes4(h.a) + Bytes4(h.b) + Bytes4(h.c) + Bytes4(h.d) + Bytes4(h.e)
  }

  /** A word's octets are those that it is loaded from. */
  lemma WordOfOctets(w: word)
    ensures Word(Bytes4(w)) == w
  {
  }

  /** The digest spells the five words in order, as big-endian words. */
  lemma DigestSpellsWords(h: Regs, k: nat)
    requires k < 5
    ensures Word(Digest(h)[4 * k..4 * k + 4]) == [h.a, h.b, h.c, h.d, h.e][k]
  {
    hide Bytes4, Word;
    FourOfTwenty(Bytes4(h.a), Bytes4(h.b), Bytes4(h.c), Bytes4(h.d), Bytes4(h.e), k);
    WordOfOctets([h.a, h.b, h.c, h.d, h.e][k]);
  }

  lemma FourOfTwenty(a: seq<octet>, b: seq<octet>, c: seq<octet>, d: seq<octet>, e: seq<octet>, k: nat)
    requires |a| == |b| == |c| == |d| == |e| == 4 && k < 5
    ensures (a + b + c + d + e)[4 * k..4 * k + 4] == [a, b, c, d, e][k]
  {
  }

  /** The length field spells the bit count modulo 2^64, most significant octet first. */
  lemma LengthSpellsBits(l: nat) returns (s: seq<byte>)
    ensures |s| == 8 && forall i :: 0 <= i < 8 ==> LengthOctets(l)[i] == s[i] as octet
    ensures 8 * l % 0x1_0000_0000_0000_0000 ==
      0x1_0000_0000 * Number(s[0], s[1], s[2], s[3]) + Number(s[4], s[5], s[6], s[7])
  {
    hide Digit;
    var n := 8 * l % TWO_64;
    s := BE(n, 8);
    Spans();
    BERoundTrip(n, 8);
    BESpells(s);
  }

  /** The hash of a message, given all at once. */
  function Sha1(msg: seq<octet>): (s: seq<octet>)
    ensures |s| == 20
  {
    PaddingIsLeast(|msg|, 0);
    Digest(HashBlocks(IV, msg + Padding(|msg|)))
  }

  lemma {:induction false} HashBlocksAppend(h: Regs, a: seq<octet>, b: seq<octet>)
    requires |a| % 64 == 0 && |b| % 64 == 0
    ensures HashBlocks(h, a + b) == HashBlocks(HashBlocks(h, a), b)
    decreases |a|
  {
    hide Compress;
    if a == [] {
      assert a + b == b;
    } else {
      assert (a + b)[..64] == a[..64] && (a + b)[64..] == a[64..] + b;
      HashBlocksAppend(Compress(h, a[..64]), a[64..], b);
    }
  }
}
