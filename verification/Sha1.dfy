/** The incremental hash: in-place schedule, unrolled rounds, 64-octet buffer, two-word bit counter. */
module Sha1Code {
  import opened Bytes
  import opened Sha1Spec

  /** The `rol` macro. */
  function Rol(value: word, bits: word): word
    requires 0 < bits < 32
  {
    (value << bits) | (value >> (32 - bits))
  }

  /** Four octets as a little-endian host loads them. */
  function Load(b: seq<octet>): word
    requires |b| == 4
  {
    (b[0] as word) | ((b[1] as word) << 8) | ((b[2] as word) << 16) | ((b[3] as word) << 24)
  }

  /** The byte swap in `blk0`. */
  function Swap(x: word): word {
    (Rol(x, 24) & 0xFF00FF00) | (Rol(x, 8) & 0x00FF00FF)
  }

  lemma SwapMakesBigEndian(b: seq<octet>)
    requires |b| == 4
    ensures Swap(Load(b)) == Word(b)
  {
  }

  lemma RolIsRotation(x: word)
    ensures Rol(x, 1) == Rotl1(x) && Rol(x, 5) == Rotl5(x) && Rol(x, 30) == Rotl30(x)
  {
  }

  /** The choice function as R0 and R1 write it. */
  function Mux(w: word, x: word, y: word): word { (w & (x ^ y)) ^ y }

  /** The majority function as R3 writes it. */
  function TwoOf(w: word, x: word, y: word): word { ((w | x) & y) | (w & x) }

  /** What the macros add to `z`. */
  function AddUp(z: word, f: word, w: word, k: word, rot: word): word { z + (f + w + k + rot) }

  lemma RoundFunctions(w: word, x: word, y: word)
    ensures Mux(w, x, y) == Choose(w, x, y)
    ensures TwoOf(w, x, y) == Majority(w, x, y)
  {
    ChoiceBits(w, x, y);
    MajorityBits(w, x, y);
  }

  lemma ChoiceBits(w: word, x: word, y: word)
    ensures (w & (x ^ y)) ^ y == (w & x) ^ (!w & y)
  {
  }

  lemma MajorityBits(w: word, x: word, y: word)
    ensures ((w | x) & y) | (w & x) == (w & x) ^ (w & y) ^ (x & y)
  {
  }

  /** The last of the words 0..t-1 that goes to slot `k`, negative if none does. */
  function Last(t: nat, k: nat): int {
    t - 1 - (t - 1 - k) % 16
  }

  lemma ModOf(x: int, q: int, r: int)
    requires 0 <= r < 16 && x == 16 * q + r
    ensures x % 16 == r
  {
  }

  /** Word `t` goes to slot `t mod 16`, and slot `t - back` modulo 16 still holds word `t - back`. */
  lemma Slots(t: nat, k: nat, back: nat)
    requires k < 16 && 0 < back <= 16 <= t + 16
    ensures Last(t + 1, k) == if k == t % 16 then t else Last(t, k)
    ensures Last(t, (t + 16 - back) % 16) == t - back
    ensures Last(t, k) < t && (Last(t, k) < 0 <==> t <= k)
  {
    var p, s := t / 16, t % 16;
    // t == 16 * p + s
    ModOf(t - 1 - k, if s - 1 >= k then p else p - 1, if s - 1 >= k then s - 1 - k else s + 15 - k);
    ModOf(t - k, if s >= k then p else p - 1, if s >= k then s - k else s + 16 - k);
    var j := (t + 16 - back) % 16;
    ModOf(t + 16 - back, if s >= back then p + 1 else p, if s >= back then s - back else s + 16 - back);
    ModOf(t - 1 - j, if s >= back then p else p - 1, back - 1);
  }

  /** What slot `k` of the block holds after `t` schedule words. */
  function Slot(buffer: seq<octet>, t: nat, k: nat): word
    requires |buffer| == 64 && k < 16
  {
    if Last(t, k) >= 0 then W(Words(buffer), Last(t, k)) else Load(buffer[4 * k..4 * k + 4])
  }

  ghost predicate Scheduled(block: seq<word>, buffer: seq<octet>, t: nat)
    requires |buffer| == 64
  {
    |block| == 16 && forall k :: 0 <= k < 16 ==> block[k] == Slot(buffer, t, k)
  }

  /** Putting word `t` in its slot makes the block hold one word more. */
  lemma NextScheduled(block: seq<word>, buffer: seq<octet>, t: nat)
    requires |buffer| == 64 && Scheduled(block, buffer, t)
    ensures Scheduled(block[t % 16 := W(Words(buffer), t)], buffer, t + 1)
  {
    hide W;
    hide Words;
    hide Load;
    hide Last;
    var w := W(Words(buffer), t);
    var next := block[t % 16 := w];
    forall k | 0 <= k < 16
      ensures next[k] == Slot(buffer, t + 1, k)
    {
      Slots(t, k, 1);
    }
  }

  lemma SwapIsWord(block: seq<word>, buffer: seq<octet>, i: nat)
    requires |buffer| == 64 && i < 16 && Scheduled(block, buffer, i)
    ensures Swap(block[i]) == W(Words(buffer), i)
  {
    Slots(i, i, 1);
    SwapMakesBigEndian(buffer[4 * i..4 * i + 4]);
  }

  /** `blk0(i)`: swaps a loaded word in place. */
  method Blk0(block: array<word>, i: nat, ghost buffer: seq<octet>) returns (w: word)
    requires |buffer| == 64 && block.Length == 16 && i < 16 && Scheduled(block[..], buffer, i)
    modifies block
    ensures Scheduled(block[..], buffer, i + 1) && w == W(Words(buffer), i)
  {
    hide Scheduled;
    hide Swap;
    hide W;
    SwapIsWord(block[..], buffer, i);
    NextScheduled(block[..], buffer, i);
    block[i] := Swap(block[i]);
    w := block[i];
  }

  function Mix(block: seq<word>, i: nat): word
    requires |block| == 16
  {
    Rol(Xor4(block[(i + 13) % 16], block[(i + 8) % 16], block[(i + 2) % 16], block[i % 16]), 1)
  }

  lemma WSteps(m: seq<word>, i: nat)
    requires |m| == 16 && 16 <= i
    ensures W(m, i) == Rotl1(Xor4(W(m, i - 3), W(m, i - 8), W(m, i - 14), W(m, i - 16)))
  {
  }

  /** The slot that the word `back` words ago went to still holds it. */
  lemma SlotHolds(block: seq<word>, buffer: seq<octet>, i: nat, back: nat, k: nat)
    requires |buffer| == 64 && 16 <= i && Scheduled(block, buffer, i)
    requires 0 < back <= 16 && k == (i + 16 - back) % 16
    ensures block[k] == W(Words(buffer), i - back)
  {
    hide W;
    hide Words;
    hide Load;
    Slots(i, k, back);
  }

  /** The four slots that the macro reads hold the words 3, 8, 14 and 16 back. */
  lemma MixIsNextWord(block: seq<word>, buffer: seq<octet>, i: nat)
    requires |buffer| == 64 && 16 <= i && Scheduled(block, buffer, i)
    ensures Mix(block, i) == W(Words(buffer), i)
  {
    hide W;
    hide Words;
    hide Rol;
    hide Rotl1;
    hide Xor4;
    hide Slot;
    var m := Words(buffer);
    SlotHolds(block, buffer, i, 3, (i + 13) % 16);
    SlotHolds(block, buffer, i, 8, (i + 8) % 16);
    SlotHolds(block, buffer, i, 14, (i + 2) % 16);
    SlotHolds(block, buffer, i, 16, i % 16);
    WSteps(m, i);
    RolIsRotation(Xor4(W(m, i - 3), W(m, i - 8), W(m, i - 14), W(m, i - 16)));
  }

  /** `blk(i)`: replaces the oldest schedule word by the next one. */
  method Blk(block: array<word>, i: nat, ghost buffer: seq<octet>) returns (w: word)
    requires |buffer| == 64 && block.Length == 16 && 16 <= i && Scheduled(block[..], buffer, i)
    modifies block
    ensures Scheduled(block[..], buffer, i + 1) && w == W(Words(buffer), i)
  {
    hide Scheduled;
    hide W;
    MixIsNextWord(block[..], buffer, i);
    NextScheduled(block[..], buffer, i);
    block[i % 16] := Rol(block[(i + 13) % 16] ^ block[(i + 8) % 16] ^ block[(i + 2) % 16] ^ block[i % 16], 1);
    w := block[i % 16];
  }

  /** The working variables after `t` rounds on a block. */
  function After(h: Regs, buffer: seq<octet>, t: nat): Regs
    requires |buffer| == 64 && t <= 80
  {
    Rounds(h, Schedule(Words(buffer))[..t])
  }

  /** The round function, the rotations and the sum as the macros write them. */
  lemma MacroIsRound(r: Regs, t: nat, f: word, w: word, k: word)
    requires f == F(t, r.b, r.c, r.d) && k == K(t)
    ensures Regs(AddUp(r.e, f, w, k, Rol(r.a, 5)), r.a, Rol(r.b, 30), r.c, r.d) == Round(r, t, w)
  {
    RolIsRotation(r.a);
    RolIsRotation(r.b);
    SumReorders(Rotl5(r.a), f, r.e, k, w);
    hide Rol;
    hide Rotl5;
    hide Rotl30;
    hide AddUp;
    hide Sum5;
    hide F;
    hide K;
  }

  lemma SumReorders(a: word, f: word, e: word, k: word, w: word)
    ensures AddUp(e, f, w, k, a) == Sum5(a, f, e, k, w)
  {
  }

  lemma AfterSteps(h: Regs, buffer: seq<octet>, t: nat)
    requires |buffer| == 64 && t < 80
    ensures After(h, buffer, t + 1) == Round(After(h, buffer, t), t, W(Words(buffer), t))
  {
    hide W;
    hide Words;
    var s := Schedule(Words(buffer));
    assert s[..t + 1][..t] == s[..t];
  }

  // The macros R0 to R4: the new values of `w` and `z`, which the source assigns in place.

  method R0(block: array<word>, v: word, w: word, x: word, y: word, z: word, i: nat,
            ghost h: Regs, ghost buffer: seq<octet>) returns (w': word, z': word)
    requires |buffer| == 64 && block.Length == 16 && Scheduled(block[..], buffer, i) && i < 16
    requires Regs(v, w, x, y, z) == After(h, buffer, i)
    modifies block
    ensures Scheduled(block[..], buffer, i + 1)
    ensures Regs(z', v, w', x, y) == After(h, buffer, i + 1)
  {
    hide Scheduled;
    hide After;
    hide Rol;
    hide W;
    hide Mux;
    hide Choose;
    hide AddUp;
    var f := Mux(w, x, y);
    RoundFunctions(w, x, y);
    AfterSteps(h, buffer, i);
    var word := Blk0(block, i, buffer);
    MacroIsRound(Regs(v, w, x, y, z), i, f, word, 0x5A827999);
    z' := AddUp(z, f, word, 0x5A827999, Rol(v, 5));
    w' := Rol(w, 30);
  }

  method R1(block: array<word>, v: word, w: word, x: word, y: word, z: word, i: nat,
            ghost h: Regs, ghost buffer: seq<octet>) returns (w': word, z': word)
    requires |buffer| == 64 && block.Length == 16 && Scheduled(block[..], buffer, i) && 16 <= i < 20
    requires Regs(v, w, x, y, z) == After(h, buffer, i)
    modifies block
    ensures Scheduled(block[..], buffer, i + 1)
    ensures Regs(z', v, w', x, y) == After(h, buffer, i + 1)
  {
    hide Scheduled;
    hide After;
    hide Rol;
    hide W;
    hide Mux;
    hide Choose;
    hide AddUp;
    var f := Mux(w, x, y);
    RoundFunctions(w, x, y);
    AfterSteps(h, buffer, i);
    var word := Blk(block, i, buffer);
    MacroIsRound(Regs(v, w, x, y, z), i, f, word, 0x5A827999);
    z' := AddUp(z, f, word, 0x5A827999, Rol(v, 5));
    w' := Rol(w, 30);
  }

  method R2(block: array<word>, v: word, w: word, x: word, y: word, z: word, i: nat,
            ghost h: Regs, ghost buffer: seq<octet>) returns (w': word, z': word)
    requires |buffer| == 64 && block.Length == 16 && Scheduled(block[..], buffer, i) && 20 <= i < 40
    requires Regs(v, w, x, y, z) == After(h, buffer, i)
    modifies block
    ensures Scheduled(block[..], buffer, i + 1)
    ensures Regs(z', v, w', x, y) == After(h, buffer, i + 1)
  {
    hide Scheduled;
    hide After;
    hide Rol;
    hide W;
    hide Parity;
    hide AddUp;
    var f := Parity(w, x, y);
    AfterSteps(h, buffer, i);
    var word := Blk(block, i, buffer);
    MacroIsRound(Regs(v, w, x, y, z), i, f, word, 0x6ED9EBA1);
    z' := AddUp(z, f, word, 0x6ED9EBA1, Rol(v, 5));
    w' := Rol(w, 30);
  }

  method R3(block: array<word>, v: word, w: word, x: word, y: word, z: word, i: nat,
            ghost h: Regs, ghost buffer: seq<octet>) returns (w': word, z': word)
    requires |buffer| == 64 && block.Length == 16 && Scheduled(block[..], buffer, i) && 40 <= i < 60
    requires Regs(v, w, x, y, z) == After(h, buffer, i)
    modifies block
    ensures Scheduled(block[..], buffer, i + 1)
    ensures Regs(z', v, w', x, y) == After(h, buffer, i + 1)
  {
    hide Scheduled;
    hide After;
    hide Rol;
    hide W;
    hide TwoOf;
    hide Majority;
    hide AddUp;
    var f := TwoOf(w, x, y);
    RoundFunctions(w, x, y);
    AfterSteps(h, buffer, i);
    var word := Blk(block, i, buffer);
    MacroIsRound(Regs(v, w, x, y, z), i, f, word, 0x8F1BBCDC);
    z' := AddUp(z, f, word, 0x8F1BBCDC, Rol(v, 5));
    w' := Rol(w, 30);
  }

  method R4(block: array<word>, v: word, w: word, x: word, y: word, z: word, i: nat,
            ghost h: Regs, ghost buffer: seq<octet>) returns (w': word, z': word)
    requires |buffer| == 64 && block.Length == 16 && Scheduled(block[..], buffer, i) && 60 <= i < 80
    requires Regs(v, w, x, y, z) == After(h, buffer, i)
    modifies block
    ensures Scheduled(block[..], buffer, i + 1)
    ensures Regs(z', v, w', x, y) == After(h, buffer, i + 1)
  {
    hide Scheduled;
    hide After;
    hide Rol;
    hide W;
    hide Parity;
    hide AddUp;
    var f := Parity(w, x, y);
    AfterSteps(h, buffer, i);
    var word := Blk(block, i, buffer);
    MacroIsRound(Regs(v, w, x, y, z), i, f, word, 0xCA62C1D6);
    z' := AddUp(z, f, word, 0xCA62C1D6, Rol(v, 5));
    w' := Rol(w, 30);
  }

  // The unrolled rounds, twenty at a time: after each twenty the register names are back in place.

  method Rounds0To19(block: array<word>, r: Regs, ghost h: Regs, ghost buffer: seq<octet>) returns (r': Regs)
    requires |buffer| == 64 && block.Length == 16 && Scheduled(block[..], buffer, 0) && r == After(h, buffer, 0)
    modifies block
    ensures Scheduled(block[..], buffer, 20) && r' == After(h, buffer, 20)
  {
    hide Scheduled;
    hide After;
    var Regs(a, b, c, d, e) := r;
    b, e := R0(block, a, b, c, d, e, 0, h, buffer);
    a, d := R0(block, e, a, b, c, d, 1, h, buffer);
    e, c := R0(block, d, e, a, b, c, 2, h, buffer);
    d, b := R0(block, c, d, e, a, b, 3, h, buffer);
    c, a := R0(block, b, c, d, e, a, 4, h, buffer);
    b, e := R0(block, a, b, c, d, e, 5, h, buffer);
    a, d := R0(block, e, a, b, c, d, 6, h, buffer);
    e, c := R0(block, d, e, a, b, c, 7, h, buffer);
    d, b := R0(block, c, d, e, a, b, 8, h, buffer);
    c, a := R0(block, b, c, d, e, a, 9, h, buffer);
    b, e := R0(block, a, b, c, d, e, 10, h, buffer);
    a, d := R0(block, e, a, b, c, d, 11, h, buffer);
    e, c := R0(block, d, e, a, b, c, 12, h, buffer);
    d, b := R0(block, c, d, e, a, b, 13, h, buffer);
    c, a := R0(block, b, c, d, e, a, 14, h, buffer);
    b, e := R0(block, a, b, c, d, e, 15, h, buffer);
    a, d := R1(block, e, a, b, c, d, 16, h, buffer);
    e, c := R1(block, d, e, a, b, c, 17, h, buffer);
    d, b := R1(block, c, d, e, a, b, 18, h, buffer);
    c, a := R1(block, b, c, d, e, a, 19, h, buffer);
    r' := Regs(a, b, c, d, e);
  }

  method Rounds20To39(block: array<word>, r: Regs, ghost h: Regs, ghost buffer: seq<octet>) returns (r': Regs)
    requires |buffer| == 64 && block.Length == 16 && Scheduled(block[..], buffer, 20) && r == After(h, buffer, 20)
    modifies block
    ensures Scheduled(block[..], buffer, 40) && r' == After(h, buffer, 40)
  {
    hide Scheduled;
    hide After;
    var Regs(a, b, c, d, e) := r;
    b, e := R2(block, a, b, c, d, e, 20, h, buffer);
    a, d := R2(block, e, a, b, c, d, 21, h, buffer);
    e, c := R2(block, d, e, a, b, c, 22, h, buffer);
    d, b := R2(block, c, d, e, a, b, 23, h, buffer);
    c, a := R2(block, b, c, d, e, a, 24, h, buffer);
    b, e := R2(block, a, b, c, d, e, 25, h, buffer);
    a, d := R2(block, e, a, b, c, d, 26, h, buffer);
    e, c := R2(block, d, e, a, b, c, 27, h, buffer);
    d, b := R2(block, c, d, e, a, b, 28, h, buffer);
    c, a := R2(block, b, c, d, e, a, 29, h, buffer);
    b, e := R2(block, a, b, c, d, e, 30, h, buffer);
    a, d := R2(block, e, a, b, c, d, 31, h, buffer);
    e, c := R2(block, d, e, a, b, c, 32, h, buffer);
    d, b := R2(block, c, d, e, a, b, 33, h, buffer);
    c, a := R2(block, b, c, d, e, a, 34, h, buffer);
    b, e := R2(block, a, b, c, d, e, 35, h, buffer);
    a, d := R2(block, e, a, b, c, d, 36, h, buffer);
    e, c := R2(block, d, e, a, b, c, 37, h, buffer);
    d, b := R2(block, c, d, e, a, b, 38, h, buffer);
    c, a := R2(block, b, c, d, e, a, 39, h, buffer);
    r' := Regs(a, b, c, d, e);
  }

  method Rounds40To59(block: array<word>, r: Regs, ghost h: Regs, ghost buffer: seq<octet>) returns (r': Regs)
    requires |buffer| == 64 && block.Length == 16 && Scheduled(block[..], buffer, 40) && r == After(h, buffer, 40)
    modifies block
    ensures Scheduled(block[..], buffer, 60) && r' == After(h, buffer, 60)
  {
    hide Scheduled;
    hide After;
    var Regs(a, b, c, d, e) := r;
    b, e := R3(block, a, b, c, d, e, 40, h, buffer);
    a, d := R3(block, e, a, b, c, d, 41, h, buffer);
    e, c := R3(block, d, e, a, b, c, 42, h, buffer);
    d, b := R3(block, c, d, e, a, b, 43, h, buffer);
    c, a := R3(block, b, c, d, e, a, 44, h, buffer);
    b, e := R3(block, a, b, c, d, e, 45, h, buffer);
    a, d := R3(block, e, a, b, c, d, 46, h, buffer);
    e, c := R3(block, d, e, a, b, c, 47, h, buffer);
    d, b := R3(block, c, d, e, a, b, 48, h, buffer);
    c, a := R3(block, b, c, d, e, a, 49, h, buffer);
    b, e := R3(block, a, b, c, d, e, 50, h, buffer);
    a, d := R3(block, e, a, b, c, d, 51, h, buffer);
    e, c := R3(block, d, e, a, b, c, 52, h, buffer);
    d, b := R3(block, c, d, e, a, b, 53, h, buffer);
    c, a := R3(block, b, c, d, e, a, 54, h, buffer);
    b, e := R3(block, a, b, c, d, e, 55, h, buffer);
    a, d := R3(block, e, a, b, c, d, 56, h, buffer);
    e, c := R3(block, d, e, a, b, c, 57, h, buffer);
    d, b := R3(block, c, d, e, a, b, 58, h, buffer);
    c, a := R3(block, b, c, d, e, a, 59, h, buffer);
    r' := Regs(a, b, c, d, e);
  }

  method Rounds60To79(block: array<word>, r: Regs, ghost h: Regs, ghost buffer: seq<octet>) returns (r': Regs)
    requires |buffer| == 64 && block.Length == 16 && Scheduled(block[..], buffer, 60) && r == After(h, buffer, 60)
    modifies block
    ensures Scheduled(block[..], buffer, 80) && r' == After(h, buffer, 80)
  {
    hide Scheduled;
    hide After;
    var Regs(a, b, c, d, e) := r;
    b, e := R4(block, a, b, c, d, e, 60, h, buffer);
    a, d := R4(block, e, a, b, c, d, 61, h, buffer);
    e, c := R4(block, d, e, a, b, c, 62, h, buffer);
    d, b := R4(block, c, d, e, a, b, 63, h, buffer);
    c, a := R4(block, b, c, d, e, a, 64, h, buffer);
    b, e := R4(block, a, b, c, d, e, 65, h, buffer);
    a, d := R4(block, e, a, b, c, d, 66, h, buffer);
    e, c := R4(block, d, e, a, b, c, 67, h, buffer);
    d, b := R4(block, c, d, e, a, b, 68, h, buffer);
    c, a := R4(block, b, c, d, e, a, 69, h, buffer);
    b, e := R4(block, a, b, c, d, e, 70, h, buffer);
    a, d := R4(block, e, a, b, c, d, 71, h, buffer);
    e, c := R4(block, d, e, a, b, c, 72, h, buffer);
    d, b := R4(block, c, d, e, a, b, 73, h, buffer);
    c, a := R4(block, b, c, d, e, a, 74, h, buffer);
    b, e := R4(block, a, b, c, d, e, 75, h, buffer);
    a, d := R4(block, e, a, b, c, d, 76, h, buffer);
    e, c := R4(block, d, e, a, b, c, 77, h, buffer);
    d, b := R4(block, c, d, e, a, b, 78, h, buffer);
    c, a := R4(block, b, c, d, e, a, 79, h, buffer);
    r' := Regs(a, b, c, d, e);
  }

  /** The chaining variables in an array, as `state` holds them. */
  function RegsOf(state: seq<word>): Regs
    requires |state| == 5
  {
    Regs(state[0], state[1], state[2], state[3], state[4])
  }

  lemma BlockIsLoaded(block: seq<word>, buffer: seq<octet>)
    requires |buffer| == 64 && |block| == 16
    requires forall k :: 0 <= k < 16 ==> block[k] == Load(buffer[4 * k..4 * k + 4])
    ensures Scheduled(block, buffer, 0)
  {
    hide W;
    hide Load;
    forall k | 0 <= k < 16
      ensures block[k] == Slot(buffer, 0, k)
    {
      Slots(0, k, 1);
    }
  }

  lemma FirstAndLast(h: Regs, buffer: seq<octet>)
    requires |buffer| == 64
    ensures After(h, buffer, 0) == h
    ensures Plus(h, After(h, buffer, 80)) == Compress(h, buffer)
  {
    hide Round;
    hide W;
    hide Words;
    assert Schedule(Words(buffer))[..80] == Schedule(Words(buffer));
  }

  /** Hashes one block into the state. */
  method SHA1Transform(state: array<word>, buffer: seq<octet>)
    requires state.Length == 5 && |buffer| == 64
    modifies state
    ensures RegsOf(state[..]) == Compress(old(RegsOf(state[..])), buffer)
  {
    hide Scheduled;
    hide After;
    hide Compress;
    hide Load;
    hide Plus;
    var block := new word[16](k requires 0 <= k < 16 => Load(buffer[4 * k..4 * k + 4]));
    ghost var h := RegsOf(state[..]);
    BlockIsLoaded(block[..], buffer);
    FirstAndLast(h, buffer);
    var r := Regs(state[0], state[1], state[2], state[3], state[4]);
    r := Rounds0To19(block, r, h, buffer);
    r := Rounds20To39(block, r, h, buffer);
    r := Rounds40To59(block, r, h, buffer);
    r := Rounds60To79(block, r, h, buffer);
    AddInto(state, r);
  }

  /** Adds the working variables back into the state. */
  method AddInto(state: array<word>, r: Regs)
    requires state.Length == 5
    modifies state
    ensures RegsOf(state[..]) == Plus(old(RegsOf(state[..])), r)
  {
    hide Add;
    state[0] := Add(state[0], r.a);
    state[1] := Add(state[1], r.b);
    state[2] := Add(state[2], r.c);
    state[3] := Add(state[3], r.d);
    state[4] := Add(state[4], r.e);
  }

  // ----- the incremental interface

  /** Hashing one block more. */
  lemma HashOneMore(data: seq<octet>, p: nat)
    requires p % 64 == 0 && p + 64 <= |data|
    ensures HashBlocks(IV, data[..p + 64]) == Compress(HashBlocks(IV, data[..p]), data[p..p + 64])
  {
    hide Compress;
    var block := data[p..p + 64];
    assert data[..p + 64] == data[..p] + block;
    HashBlocksAppend(IV, data[..p], block);
    assert block[..64] == block && block[64..] == [];
    assert HashBlocks(HashBlocks(IV, data[..p]), block) == Compress(HashBlocks(IV, data[..p]), block);
  }

  /** Adding `len` octets to the two-word bit count, with the carry found by comparison. */
  lemma CountAdds(c0: u32, c1: u32, n: nat, len: u32)
    requires c0 + TWO_32 * c1 == 8 * n % TWO_64
    ensures
      var c0' := (c0 + len * 8 % TWO_32) % TWO_32;
      var c1' := ((if c0' < c0 then (c1 + 1) % TWO_32 else c1) + len / 0x2000_0000) % TWO_32;
      c0' + TWO_32 * c1' == 8 * (n + len) % TWO_64
  {
    var low, high := len * 8 % TWO_32, len / 0x2000_0000;
    assert 8 * len == low + TWO_32 * high;
    var c0' := (c0 + low) % TWO_32;
    var carry := if c0' < c0 then 1 else 0;
    assert c0 + low == c0' + TWO_32 * carry;
    var sum := c1 + carry + high;
    CarryThenAdd(c1, high);
    assert c0 + TWO_32 * c1 + 8 * len == c0' + TWO_32 * sum;
    WordsOfSum(c0', sum);
    SumModulo(8 * n, 8 * len);
  }

  lemma WordsOfSum(lo: u32, sum: nat)
    ensures lo + TWO_32 * (sum % TWO_32) == (lo + TWO_32 * sum) % TWO_64
  {
    assert sum == sum % TWO_32 + TWO_32 * (sum / TWO_32);
  }

  lemma SumModulo(a: nat, b: nat)
    ensures (a % TWO_64 + b) % TWO_64 == (a + b) % TWO_64
  {
  }

  lemma CarryThenAdd(c: u32, h: nat)
    ensures ((c + 1) % TWO_32 + h) % TWO_32 == (c + 1 + h) % TWO_32
  {
  }

  /** The buffered octets are counted by bits 3 to 8 of the count. */
  lemma CountOfBuffered(c0: u32, c1: u32, n: nat)
    requires c0 + TWO_32 * c1 == 8 * n % TWO_64
    ensures c0 / 8 % 64 == n % 64
  {
    var z := 8 * n / TWO_64;
    assert c0 + TWO_32 * c1 + TWO_64 * z == 8 * n;
    LowPart(c0 / 8, c0 % 8, 0x80_0000 * c1 + 0x80_0000_0000_0000 * z, n);
  }

  lemma LowPart(a: nat, r: nat, u: nat, n: nat)
    requires r < 8 && 8 * a + r + 512 * u == 8 * n
    ensures a % 64 == n % 64
  {
    assert n == a + 64 * u;
  }

  /** If `j + len` wraps, the test takes the data for what the buffer has room for, and it is not. */
  lemma WrappedSumOverruns(j: nat, len: u32)
    requires j < 64 && j + len >= TWO_32
    ensures (j + len) % TWO_32 <= 63 && j + len > 64
  {
    assert (j + len) % TWO_32 == j + len - TWO_32;
  }

  /** Octet `k` of a two-word number. */
  lemma DigitOfWords(lo: u32, hi: u32, k: nat)
    requires k < 8
    ensures Digit(lo + TWO_32 * hi, k) == if k < 4 then Digit(lo, k) else Digit(hi, k - 4)
  {
    DigitSplits(lo, hi, 4, TWO_32, k);
  }

  lemma {:induction false} DigitSplits(lo: nat, hi: nat, n: nat, m: nat, k: nat)
    requires m == Span(n) && lo < m
    ensures Digit(lo + m * hi, k) == if k < n then Digit(lo, k) else Digit(hi, k - n)
    decreases n
  {
    if n > 0 {
      var m' := Span(n - 1);
      MulRegroup(256, m', hi);
      assert (lo + 256 * (m' * hi)) / 256 == lo / 256 + m' * hi;
      assert (lo + 256 * (m' * hi)) % 256 == lo % 256;
      if k > 0 {
        DigitSplits(lo / 256, hi, n - 1, m', k - 1);
      }
    }
  }

  /** Feeding 0x80 and then `k` zeros stops when the count says 56 octets are buffered. */
  lemma PaddingStops(n: nat, k: nat)
    requires k <= ZeroOctets(n)
    ensures (n + 1 + k) % 64 == 56 <==> k == ZeroOctets(n)
  {
    ZerosByRest(n);
    StopsAt(n / 64, n % 64, ZeroOctets(n), k);
  }

  lemma StopsAt(q: nat, r: nat, z: nat, k: nat)
    requires r < 64 && k <= z == if r <= 55 then 55 - r else 119 - r
    ensures (64 * q + r + 1 + k) % 64 == 56 <==> k == z
  {
    var v := r + 1 + k;
    assert (64 * q + v) % 64 == if v < 64 then v else v - 64;
  }

  /** `SHA1_CTX`. */
  class Sha1Ctx {
    const state: array<word>
    var count0: u32
    var count1: u32
    const buffer: array<octet>

    ghost predicate Valid() {
      state.Length == 5 && buffer.Length == 64
    }

    /** The context stands for having been given `m`: whole blocks hashed, the rest buffered, bits counted. */
    ghost predicate Holds(m: seq<octet>)
      requires Valid()
      reads this, state, buffer
    {
      var rest := |m| % 64;
      && RegsOf(state[..]) == HashBlocks(IV, m[..|m| - rest])
      && buffer[..rest] == m[|m| - rest..]
      && count0 + TWO_32 * count1 == 8 * |m| % TWO_64
    }

    /** `SHA1Init`. */
    constructor ()
      ensures Valid() && fresh(state) && fresh(buffer)
      ensures RegsOf(state[..]) == IV && count0 == count1 == 0
    {
      state := new word[5];
      buffer := new octet[64];
      count0, count1 := 0, 0;
      new;
      state[0] := 0x67452301;
      state[1] := 0xEFCDAB89;
      state[2] := 0x98BADCFE;
      state[3] := 0x10325476;
      state[4] := 0xC3D2E1F0;
      assert state[..] == [0x67452301, 0xEFCDAB89, 0x98BADCFE, 0x10325476, 0xC3D2E1F0];
    }

    lemma FreshHoldsNothing()
      requires Valid() && RegsOf(state[..]) == IV && count0 == count1 == 0
      ensures Holds([])
    {
    }

    method CopyIn(at: nat, data: seq<octet>)
      requires Valid() && at + |data| <= 64
      modifies buffer
      ensures buffer[..at + |data|] == old(buffer[..at]) + data
    {
      forall k | 0 <= k < |data| {
        buffer[at + k] := data[k];
      }
    }

    method AddCount(len: u32, ghost n: nat)
      requires count0 + TWO_32 * count1 == 8 * n % TWO_64
      modifies this`count0, this`count1
      ensures count0 + TWO_32 * count1 == 8 * (n + len) % TWO_64
    {
      CountAdds(count0, count1, n, len);
      var j := count0;
      count0 := (count0 + len * 8 % TWO_32) % TWO_32;
      if count0 < j {
        count1 := (count1 + 1) % TWO_32;
      }
      count1 := (count1 + len / 0x2000_0000) % TWO_32;
    }

    /** Hashes the whole blocks of `data` from octet `i` on; `all` is everything so far and `p` what is hashed. */
    method HashWhole(data: seq<octet>, i0: nat, ghost all: seq<octet>, ghost p0: nat, ghost j: nat) returns (i: nat)
      requires Valid() && i0 <= |data| && (i0 + j) % 64 == 0 && |data| + j < TWO_32
      requires p0 <= |all| && p0 % 64 == 0 && all[p0..] == data[i0..]
      requires RegsOf(state[..]) == HashBlocks(IV, all[..p0])
      modifies state
      ensures i0 <= i <= |data| < i + 64 && (i - i0) % 64 == 0
      ensures RegsOf(state[..]) == HashBlocks(IV, all[..p0 + (i - i0)])
    {
      hide HashBlocks;
      hide Compress;
      i := i0;
      ghost var p := p0;
      NoWrap(i, j, |data|);
      while i + 63 < |data|
        invariant i + 63 < TWO_32
        invariant i0 <= i <= |data| && p == p0 + (i - i0) && p % 64 == 0 && (i - i0) % 64 == 0
        invariant all[p..] == data[i..]
        invariant RegsOf(state[..]) == HashBlocks(IV, all[..p])
      {
        HashOneMore(all, p);
        assert all[p..p + 64] == all[p..][..64] == data[i..i + 64];
        SHA1Transform(state, data[i..i + 64]);
        i, p := i + 64, p + 64;
        NoWrap(i, j, |data|);
      }
    }

    /** The 32-bit sum in the loop test is exact. */
    lemma NoWrap(i: nat, j: nat, len: nat)
      requires i <= len && (i + j) % 64 == 0 && len + j < TWO_32
      ensures i + 63 < TWO_32
    {
    }

    lemma Seam(m: seq<octet>, data: seq<octet>, p: nat, i: nat)
      requires p <= |m| && i <= |data|
      ensures
        var all := m + data;
        all[..p] == m[..p] && all[p..|m| + i] == m[p..] + data[..i] && all[|m| + i..] == data[i..]
    {
    }

    /** Fills the buffer up from the data, hashes it, and then hashes all whole blocks that follow. */
    method HashFull(data: seq<octet>, j: nat, ghost m: seq<octet>) returns (i: nat)
      requires Valid() && j == |m| % 64 && 64 <= j + |data| < TWO_32
      requires RegsOf(state[..]) == HashBlocks(IV, m[..|m| - j]) && buffer[..j] == m[|m| - j..]
      modifies state, buffer
      ensures 0 < i <= |data| < i + 64 && (|m| + i) % 64 == 0
      ensures RegsOf(state[..]) == HashBlocks(IV, (m + data)[..|m| + i])
    {
      hide HashBlocks;
      hide Compress;
      ghost var all, p := m + data, |m| - j;
      i := 64 - j;
      CopyIn(j, data[..i]);
      Seam(m, data, p, i);
      assert buffer[..] == buffer[..64];
      HashOneMore(all, p);
      SHA1Transform(state, buffer[..]);
      i := HashWhole(data, i, all, p + 64, j);
    }

    /** `SHA1Update`, as long as the 32-bit sum `j + len` does not wrap. No other sum wraps then. */
    method SHA1Update(data: seq<octet>, ghost m: seq<octet>)
      requires Valid() && Holds(m) && |m| % 64 + |data| < TWO_32
      modifies this`count0, this`count1, state, buffer
      ensures Holds(m + data)
    {
      hide HashBlocks;
      CountOfBuffered(count0, count1, |m|);
      var j := count0 / 8 % 64;
      AddCount(|data|, |m|);
      var i := 0;
      if j + |data| > 63 {
        i := HashFull(data, j, m);
        j := 0;
      }
      ghost var kept := buffer[..j];
      CopyIn(j, data[i..]);
      UpdateEnds(m, data, i, j);
    }

    /** Where an update leaves off: `i` octets of the data hashed with what was buffered, or none. */
    lemma UpdateEnds(m: seq<octet>, data: seq<octet>, i: nat, j: nat)
      requires i <= |data|
      requires if j == 0 && i > 0 then (|m| + i) % 64 == 0 && |data| < i + 64 else i == 0 && j == |m| % 64 && j + |data| <= 63
      ensures
        var all := m + data;
        var rest := |all| % 64;
        && rest == j + |data| - i
        && all[|all| - rest..] == (if i > 0 then [] else m[|m| - j..]) + data[i..]
        && all[..|all| - rest] == if i > 0 then all[..|m| + i] else m[..|m| - j]
    {
      RestIs(|m|, |data|, i, j);
      if i > 0 {
        Seam(m, data, |m|, i);
      } else {
        Seam(m, data, |m| - j, |data|);
      }
    }

    lemma RestIs(m: nat, len: nat, i: nat, j: nat)
      requires i <= len
      requires if j == 0 && i > 0 then (m + i) % 64 == 0 && len < i + 64 else i == 0 && j == m % 64 && j + len <= 63
      ensures (m + len) % 64 == j + len - i
    {
      var q := (m + i - j) / 64;
      assert m + i - j == 64 * q;
      Sixtyfourths(q, j + len - i);
    }

    lemma Sixtyfourths(q: nat, r: nat)
      requires r < 64
      ensures (64 * q + r) % 64 == r
    {
    }

    /** The bit count as eight octets, most significant first. */
    method FinalCount(ghost n: nat) returns (finalcount: array<octet>)
      requires count0 + TWO_32 * count1 == 8 * n % TWO_64
      ensures fresh(finalcount) && finalcount[..] == LengthOctets(n)
    {
      hide Digit;
      finalcount := new octet[8];
      var i := 0;
      while i < 8
        invariant 0 <= i <= 8
        invariant forall k :: 0 <= k < i ==> finalcount[k] == LengthOctets(n)[k]
      {
        DigitOfWords(count0, count1, 7 - i);
        finalcount[i] := Digit(if i >= 4 then count0 else count1, 3 - i % 4) as octet;
        i := i + 1;
      }
    }

    /** `SHA1Final`: pads, extracts the digest, and wipes the context. */
    method SHA1Final(digest: array<octet>, ghost m: seq<octet>)
      requires Valid() && Holds(m) && 20 <= digest.Length && digest != buffer
      modifies this`count0, this`count1, state, buffer, digest
      ensures digest[..20] == Sha1(m) && digest[20..] == old(digest[20..])
      ensures count0 == count1 == 0
      ensures (forall k :: 0 <= k < 5 ==> state[k] == 0) && (forall k :: 0 <= k < 64 ==> buffer[k] == 0)
    {
      Pad(m);
      WriteDigest(digest);
      assert digest[..20] == Sha1(m);
      count0, count1 := 0, 0;
      forall k | 0 <= k < 5 {
        state[k] := 0;
      }
      forall k | 0 <= k < 64 {
        buffer[k] := 0;
      }
    }

    /** Feeds 0x80, zeros up to eight octets before a block boundary, and the count from before. */
    method Pad(ghost m: seq<octet>)
      requires Valid() && Holds(m)
      modifies this`count0, this`count1, state, buffer
      ensures (|m| + |Padding(|m|)|) % 64 == 0
      ensures RegsOf(state[..]) == HashBlocks(IV, m + Padding(|m|))
    {
      hide HashBlocks;
      hide Holds;
      HoldsCount(m);
      var finalcount := FinalCount(|m|);
      SHA1Update([0x80], m);
      FeedZeros(|m|, m + [0x80]);
      ghost var fed := m + [0x80] + Zeros(ZeroOctets(|m|));
      SHA1Update(finalcount[..], fed);
      PaddingIsLeast(|m|, 0);
      assert fed + LengthOctets(|m|) == m + Padding(|m|);
      HoldsWhole(m + Padding(|m|));
    }

    method FeedZeros(ghost n: nat, ghost m: seq<octet>)
      requires Valid() && Holds(m) && |m| == n + 1
      modifies this`count0, this`count1, state, buffer
      ensures Holds(m + Zeros(ZeroOctets(n)))
    {
      hide Holds;
      ghost var k, z := 0, ZeroOctets(n);
      assert m + Zeros(0) == m;
      HoldsCount(m);
      PaddingStops(n, 0);
      while count0 / 8 % 64 * 8 != 448
        invariant k <= z && Holds(m + Zeros(k))
        invariant count0 / 8 % 64 == 56 <==> k == z
        decreases z - k
      {
        SHA1Update([0], m + Zeros(k));
        assert m + Zeros(k) + [0] == m + Zeros(k + 1);
        k := k + 1;
        HoldsCount(m + Zeros(k));
        PaddingStops(n, k);
      }
    }

    lemma HoldsCount(m: seq<octet>)
      requires Valid() && Holds(m)
      ensures count0 + TWO_32 * count1 == 8 * |m| % TWO_64 && count0 / 8 % 64 == |m| % 64
    {
      CountOfBuffered(count0, count1, |m|);
    }

    lemma HoldsWhole(m: seq<octet>)
      requires Valid() && Holds(m) && |m| % 64 == 0
      ensures RegsOf(state[..]) == HashBlocks(IV, m)
    {
      assert m[..|m| - 0] == m;
    }

    method WriteDigest(digest: array<octet>)
      requires Valid() && 20 <= digest.Length && digest != buffer
      modifies digest
      ensures digest[..20] == Digest(RegsOf(state[..])) && digest[20..] == old(digest[20..])
    {
      ghost var d := Digest(RegsOf(state[..]));
      var i := 0;
      while i < 20
        invariant 0 <= i <= 20
        invariant forall k :: 0 <= k < i ==> digest[k] == d[k]
        invariant digest[20..] == old(digest[20..])
      {
        DigestAt(state[..], i);
        digest[i] := OctetOf(state[i / 4], i % 4);
        i := i + 1;
      }
    }
  }

  lemma DigestAt(state: seq<word>, i: nat)
    requires |state| == 5 && i < 20
    ensures Digest(RegsOf(state))[i] == OctetOf(state[i / 4], i % 4)
  {
    hide Bytes4;
    hide OctetOf;
    var h := RegsOf(state);
    FiveWords(Bytes4(h.a), Bytes4(h.b), Bytes4(h.c), Bytes4(h.d), Bytes4(h.e), i);
    Bytes4At(state[i / 4], i % 4);
  }

  lemma FiveWords(a: seq<octet>, b: seq<octet>, c: seq<octet>, d: seq<octet>, e: seq<octet>, i: nat)
    requires |a| == |b| == |c| == |d| == |e| == 4 && i < 20
    ensures (a + b + c + d + e)[i] == (match i / 4 case 0 => a case 1 => b case 2 => c case 3 => d case _ => e)[i % 4]
  {
  }

  lemma Bytes4At(w: word, k: nat)
    requires k < 4
    ensures Bytes4(w)[k] == OctetOf(w, k)
  {
    hide OctetOf;
  }

  /** However a message was cut into updates, the context ends up the same. */
  lemma ChunkingDoesNotMatter(x: Sha1Ctx, y: Sha1Ctx, m: seq<octet>)
    requires x.Valid() && y.Valid() && x.Holds(m) && y.Holds(m)
    ensures x.state[..] == y.state[..] && x.count0 == y.count0 && x.count1 == y.count1
    ensures x.buffer[..|m| % 64] == y.buffer[..|m| % 64]
  {
    hide HashBlocks;
    var s, t := x.state[..], y.state[..];
    assert RegsOf(s) == RegsOf(t);
    assert forall k :: 0 <= k < 5 ==> s[k] == t[k];
  }

  method HashOctets(hashOut: array<octet>, str: seq<octet>)
    requires 20 <= hashOut.Length
    modifies hashOut
    ensures hashOut[..20] == Sha1(str) && hashOut[20..] == old(hashOut[20..])
  {
    hide Sha1;
    hide Sha1Ctx.Holds;
    var ctx := new Sha1Ctx();
    ctx.FreshHoldsNothing();
    FeedOctets(ctx, str);
    ctx.SHA1Final(hashOut, str);
  }

  /** `SHA1`: one octet at a time, a negative length counting as 0, and a terminator behind the digest. */
  method SHA1(hashOut: array<octet>, str: seq<octet>, len: int)
    requires 21 <= hashOut.Length && len <= |str|
    modifies hashOut
    ensures hashOut[..20] == Sha1(str[..if len < 0 then 0 else len]) && hashOut[20] == 0
    ensures hashOut[21..] == old(hashOut[21..])
  {
    hide Sha1;
    HashOctets(hashOut, str[..if len < 0 then 0 else len]);
    ghost var out := hashOut[..];
    hashOut[20] := 0;
    assert hashOut[..20] == out[..20] && hashOut[21..] == out[21..] == out[20..][1..];
  }

  /** The loop of `SHA1`: one update for each octet. */
  method FeedOctets(ctx: Sha1Ctx, str: seq<octet>)
    requires ctx.Valid() && ctx.Holds([])
    modifies ctx`count0, ctx`count1, ctx.state, ctx.buffer
    ensures ctx.Holds(str)
  {
    hide Sha1Ctx.Holds;
    var ii := 0;
    ghost var fed := str[..0];
    while ii < |str|
      invariant 0 <= ii <= |str| && fed == str[..ii] && ctx.Holds(fed)
    {
      OneMore(str, ii);
      ctx.SHA1Update(str[ii..ii + 1], fed);
      fed, ii := str[..ii + 1], ii + 1;
    }
    assert fed == str;
  }

  lemma OneMore(s: seq<octet>, i: nat)
    requires i < |s|
    ensures s[..i] + s[i..i + 1] == s[..i + 1]
  {
  }
}
