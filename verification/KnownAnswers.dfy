/**
 Answers that the standards themselves give: the first example of FIPS 180 for
 the hash, and those of section 5.7 of RFC 6455 for headers and masking.
 */
module KnownAnswers {
  import opened Bytes
  import opened Memory
  import opened Sha1Spec
  import Masking
  import FrameHeaders
  import Receivers

  // ----- SHA-1 of "abc"

  const ABC: seq<octet> := [0x61, 0x62, 0x63]

  /** The words of its only block: the message, the first padding octet, and the length 24. */
  predicate IsAbc(m: seq<word>) {
    && |m| == 16 && m[0] == 0x61626380 && m[15] == 24
    && forall k :: 1 <= k < 15 ==> m[k] == 0
  }

  lemma AbcLength()
    ensures LengthOctets(3) == [0, 0, 0, 0, 0, 0, 0, 24]
  {
    var s := LengthOctets(3);
    assert Digit(24, 0) == 24;
    forall i | 0 <= i < 7
      ensures s[i] == 0
    {
      HighDigits(7 - i);
    }
  }

  lemma HighDigits(i: nat)
    requires i > 0
    ensures Digit(24, i) == 0
  {
    NoDigits(i - 1);
  }

  lemma {:induction false} NoDigits(i: nat)
    ensures Digit(0, i) == 0
  {
    if i > 0 {
      NoDigits(i - 1);
    }
  }

  lemma AbcBlock() returns (block: seq<octet>)
    ensures block == ABC + Padding(3) && |block| == 64
    ensures block[0] == 0x61 && block[1] == 0x62 && block[2] == 0x63 && block[3] == 0x80 && block[63] == 24
    ensures forall k :: 4 <= k < 63 ==> block[k] == 0
  {
    hide LengthOctets;
    AbcLength();
    block := ABC + Padding(3);
    assert ZeroOctets(3) == 52;
  }

  lemma AbcWords() returns (m: seq<word>)
    ensures |ABC + Padding(3)| == 64 && m == Words(ABC + Padding(3)) && IsAbc(m)
  {
    hide Padding;
    var block := AbcBlock();
    m := Words(block);
    forall k | 0 <= k < 16
      ensures m[k] == if k == 0 then 0x61626380 else if k == 15 then 24 else 0
    {
      var b := block[4 * k..4 * k + 4];
      assert b[0] == block[4 * k] && b[1] == block[4 * k + 1] && b[2] == block[4 * k + 2] && b[3] == block[4 * k + 3];
    }
  }

  lemma NextWord(m: seq<word>, t: nat)
    requires |m| == 16 && 16 <= t
    ensures W(m, t) == Rotl1(Xor4(W(m, t - 3), W(m, t - 8), W(m, t - 14), W(m, t - 16)))
  {
  }

  lemma AbcSchedule0(m: seq<word>)
    requires IsAbc(m)
    ensures
      && W(m, 0) == 0x61626380 && W(m, 1) == 0x00000000 && W(m, 2) == 0x00000000 && W(m, 3) == 0x00000000
      && W(m, 4) == 0x00000000 && W(m, 5) == 0x00000000 && W(m, 6) == 0x00000000 && W(m, 7) == 0x00000000
      && W(m, 8) == 0x00000000 && W(m, 9) == 0x00000000 && W(m, 10) == 0x00000000 && W(m, 11) == 0x00000000
      && W(m, 12) == 0x00000000 && W(m, 13) == 0x00000000 && W(m, 14) == 0x00000000 && W(m, 15) == 0x00000018
  {
  }

  lemma AbcSchedule16(m: seq<word>)
    requires |m| == 16
    requires
      && W(m, 0) == 0x61626380 && W(m, 1) == 0x00000000 && W(m, 2) == 0x00000000 && W(m, 3) == 0x00000000
      && W(m, 4) == 0x00000000 && W(m, 5) == 0x00000000 && W(m, 6) == 0x00000000 && W(m, 7) == 0x00000000
      && W(m, 8) == 0x00000000 && W(m, 9) == 0x00000000 && W(m, 10) == 0x00000000 && W(m, 11) == 0x00000000
      && W(m, 12) == 0x00000000 && W(m, 13) == 0x00000000 && W(m, 14) == 0x00000000 && W(m, 15) == 0x00000018
    ensures
      && W(m, 16) == 0xC2C4C700 && W(m, 17) == 0x00000000 && W(m, 18) == 0x00000030 && W(m, 19) == 0x85898E01
      && W(m, 20) == 0x00000000 && W(m, 21) == 0x00000060 && W(m, 22) == 0x0B131C03 && W(m, 23) == 0x00000030
      && W(m, 24) == 0x85898EC1 && W(m, 25) == 0x16263806 && W(m, 26) == 0x00000000 && W(m, 27) == 0x00000180
      && W(m, 28) == 0x2C4C700C && W(m, 29) == 0x000000F0 && W(m, 30) == 0x93AFB507 && W(m, 31) == 0x5898E048
  {
    hide W;
    NextWord(m, 16); NextWord(m, 17); NextWord(m, 18); NextWord(m, 19);
    NextWord(m, 20); NextWord(m, 21); NextWord(m, 22); NextWord(m, 23);
    NextWord(m, 24); NextWord(m, 25); NextWord(m, 26); NextWord(m, 27);
    NextWord(m, 28); NextWord(m, 29); NextWord(m, 30); NextWord(m, 31);
  }

  lemma AbcSchedule32(m: seq<word>)
    requires |m| == 16
    requires
      && W(m, 16) == 0xC2C4C700 && W(m, 17) == 0x00000000 && W(m, 18) == 0x00000030 && W(m, 19) == 0x85898E01
      && W(m, 20) == 0x00000000 && W(m, 21) == 0x00000060 && W(m, 22) == 0x0B131C03 && W(m, 23) == 0x00000030
      && W(m, 24) == 0x85898EC1 && W(m, 25) == 0x16263806 && W(m, 26) == 0x00000000 && W(m, 27) == 0x00000180
      && W(m, 28) == 0x2C4C700C && W(m, 29) == 0x000000F0 && W(m, 30) == 0x93AFB507 && W(m, 31) == 0x5898E048
    ensures
      && W(m, 32) == 0x8E9A9202 && W(m, 33) == 0x00000600 && W(m, 34) == 0xB131C0F0 && W(m, 35) == 0x16263BC6
      && W(m, 36) == 0x4EBED41E && W(m, 37) == 0x626380A1 && W(m, 38) == 0x16263806 && W(m, 39) == 0x000018C0
      && W(m, 40) == 0xD2E138C4 && W(m, 41) == 0x00000F00 && W(m, 42) == 0x3AFB5079 && W(m, 43) == 0x898E04E5
      && W(m, 44) == 0xE2BA3C2B && W(m, 45) == 0x000060C0 && W(m, 46) == 0x053A37CD && W(m, 47) == 0x74458547
  {
    hide W;
    NextWord(m, 32); NextWord(m, 33); NextWord(m, 34); NextWord(m, 35);
    NextWord(m, 36); NextWord(m, 37); NextWord(m, 38); NextWord(m, 39);
    NextWord(m, 40); NextWord(m, 41); NextWord(m, 42); NextWord(m, 43);
    NextWord(m, 44); NextWord(m, 45); NextWord(m, 46); NextWord(m, 47);
  }

  lemma AbcSchedule48(m: seq<word>)
    requires |m| == 16
    requires
      && W(m, 32) == 0x8E9A9202 && W(m, 33) == 0x00000600 && W(m, 34) == 0xB131C0F0 && W(m, 35) == 0x16263BC6
      && W(m, 36) == 0x4EBED41E && W(m, 37) == 0x626380A1 && W(m, 38) == 0x16263806 && W(m, 39) == 0x000018C0
      && W(m, 40) == 0xD2E138C4 && W(m, 41) == 0x00000F00 && W(m, 42) == 0x3AFB5079 && W(m, 43) == 0x898E04E5
      && W(m, 44) == 0xE2BA3C2B && W(m, 45) == 0x000060C0 && W(m, 46) == 0x053A37CD && W(m, 47) == 0x74458547
    ensures
      && W(m, 48) == 0xDA9415ED && W(m, 49) == 0x26380A16 && W(m, 50) == 0x626383A1 && W(m, 51) == 0x4EBF54DE
      && W(m, 52) == 0x3835B44B && W(m, 53) == 0x0000F600 && W(m, 54) == 0x1E84C7A3 && W(m, 55) == 0x98E04D98
      && W(m, 56) == 0x651D16A0 && W(m, 57) == 0x62658CA1 && W(m, 58) == 0x458544D6 && W(m, 59) == 0x44584CB7
      && W(m, 60) == 0x7BA06619 && W(m, 61) == 0x6380AEA2 && W(m, 62) == 0x0AE55269 && W(m, 63) == 0x627B49A1
  {
    hide W;
    NextWord(m, 48); NextWord(m, 49); NextWord(m, 50); NextWord(m, 51);
    NextWord(m, 52); NextWord(m, 53); NextWord(m, 54); NextWord(m, 55);
    NextWord(m, 56); NextWord(m, 57); NextWord(m, 58); NextWord(m, 59);
    NextWord(m, 60); NextWord(m, 61); NextWord(m, 62); NextWord(m, 63);
  }

  lemma AbcSchedule64(m: seq<word>)
    requires |m| == 16
    requires
      && W(m, 48) == 0xDA9415ED && W(m, 49) == 0x26380A16 && W(m, 50) == 0x626383A1 && W(m, 51) == 0x4EBF54DE
      && W(m, 52) == 0x3835B44B && W(m, 53) == 0x0000F600 && W(m, 54) == 0x1E84C7A3 && W(m, 55) == 0x98E04D98
      && W(m, 56) == 0x651D16A0 && W(m, 57) == 0x62658CA1 && W(m, 58) == 0x458544D6 && W(m, 59) == 0x44584CB7
      && W(m, 60) == 0x7BA06619 && W(m, 61) == 0x6380AEA2 && W(m, 62) == 0x0AE55269 && W(m, 63) == 0x627B49A1
    ensures
      && W(m, 64) == 0x7CD45C9D && W(m, 65) == 0x000F0000 && W(m, 66) == 0xFB50753A && W(m, 67) == 0xEC6765E8
      && W(m, 68) == 0xBA3C2BE2 && W(m, 69) == 0x0060C000 && W(m, 70) == 0x3A37CD05 && W(m, 71) == 0x458546F4
      && W(m, 72) == 0xB8599DD6 && W(m, 73) == 0x380A1A26 && W(m, 74) == 0x01E02203 && W(m, 75) == 0xE7CC3456
      && W(m, 76) == 0xE6E60B69 && W(m, 77) == 0x00F60A00 && W(m, 78) == 0x5795EF4F && W(m, 79) == 0x822E0879
  {
    hide W;
    NextWord(m, 64); NextWord(m, 65); NextWord(m, 66); NextWord(m, 67);
    NextWord(m, 68); NextWord(m, 69); NextWord(m, 70); NextWord(m, 71);
    NextWord(m, 72); NextWord(m, 73); NextWord(m, 74); NextWord(m, 75);
    NextWord(m, 76); NextWord(m, 77); NextWord(m, 78); NextWord(m, 79);
  }

  /** The working variables after the first `t` rounds. */
  function After(m: seq<word>, t: nat): Regs
    requires |m| == 16 && t <= 80
  {
    Rounds(IV, Schedule(m)[..t])
  }

  lemma NextRound(m: seq<word>, t: nat)
    requires |m| == 16 && t < 80
    ensures After(m, t + 1) == Round(After(m, t), t, W(m, t))
  {
    hide Round, W;
    assert Schedule(m)[..t + 1][..t] == Schedule(m)[..t];
  }

  lemma AbcRounds0(m: seq<word>)
    requires |m| == 16
    requires
      && W(m, 0) == 0x61626380 && W(m, 1) == 0x00000000 && W(m, 2) == 0x00000000 && W(m, 3) == 0x00000000
      && W(m, 4) == 0x00000000 && W(m, 5) == 0x00000000 && W(m, 6) == 0x00000000 && W(m, 7) == 0x00000000
      && W(m, 8) == 0x00000000 && W(m, 9) == 0x00000000
    requires After(m, 0) == Regs(0x67452301, 0xEFCDAB89, 0x98BADCFE, 0x10325476, 0xC3D2E1F0)
    ensures After(m, 10) == Regs(0x8351F929, 0x4B6AE328, 0x27A301F5, 0x664F8C30, 0x0FF1F290)
  {
    hide W, After;
    NextRound(m, 0); NextRound(m, 1); NextRound(m, 2); NextRound(m, 3); NextRound(m, 4);
    NextRound(m, 5); NextRound(m, 6); NextRound(m, 7); NextRound(m, 8); NextRound(m, 9);
  }

  lemma AbcRounds10(m: seq<word>)
    requires |m| == 16
    requires
      && W(m, 10) == 0x00000000 && W(m, 11) == 0x00000000 && W(m, 12) == 0x00000000 && W(m, 13) == 0x00000000
      && W(m, 14) == 0x00000000 && W(m, 15) == 0x00000018 && W(m, 16) == 0xC2C4C700 && W(m, 17) == 0x00000000
      && W(m, 18) == 0x00000030 && W(m, 19) == 0x85898E01
    requires After(m, 10) == Regs(0x8351F929, 0x4B6AE328, 0x27A301F5, 0x664F8C30, 0x0FF1F290)
    ensures After(m, 20) == Regs(0xFD9E1D7D, 0xDC64901D, 0x20AA99CA, 0xD3A49608, 0xC82F758B)
  {
    hide W, After;
    NextRound(m, 10); NextRound(m, 11); NextRound(m, 12); NextRound(m, 13); NextRound(m, 14);
    NextRound(m, 15); NextRound(m, 16); NextRound(m, 17); NextRound(m, 18); NextRound(m, 19);
  }

  lemma AbcRounds20(m: seq<word>)
    requires |m| == 16
    requires
      && W(m, 20) == 0x00000000 && W(m, 21) == 0x00000060 && W(m, 22) == 0x0B131C03 && W(m, 23) == 0x00000030
      && W(m, 24) == 0x85898EC1 && W(m, 25) == 0x16263806 && W(m, 26) == 0x00000000 && W(m, 27) == 0x00000180
      && W(m, 28) == 0x2C4C700C && W(m, 29) == 0x000000F0
    requires After(m, 20) == Regs(0xFD9E1D7D, 0xDC64901D, 0x20AA99CA, 0xD3A49608, 0xC82F758B)
    ensures After(m, 30) == Regs(0xC5FBAF5D, 0x8370B52E, 0xD2AA1365, 0x6F8D7EF5, 0x12104EE9)
  {
    hide W, After;
    NextRound(m, 20); NextRound(m, 21); NextRound(m, 22); NextRound(m, 23); NextRound(m, 24);
    NextRound(m, 25); NextRound(m, 26); NextRound(m, 27); NextRound(m, 28); NextRound(m, 29);
  }

  lemma AbcRounds30(m: seq<word>)
    requires |m| == 16
    requires
      && W(m, 30) == 0x93AFB507 && W(m, 31) == 0x5898E048 && W(m, 32) == 0x8E9A9202 && W(m, 33) == 0x00000600
      && W(m, 34) == 0xB131C0F0 && W(m, 35) == 0x16263BC6 && W(m, 36) == 0x4EBED41E && W(m, 37) == 0x626380A1
      && W(m, 38) == 0x16263806 && W(m, 39) == 0x000018C0
    requires After(m, 30) == Regs(0xC5FBAF5D, 0x8370B52E, 0xD2AA1365, 0x6F8D7EF5, 0x12104EE9)
    ensures After(m, 40) == Regs(0x32DE1CBA, 0x4C986405, 0xF718E5CF, 0x03D447F6, 0xF72EEC32)
  {
    hide W, After;
    NextRound(m, 30); NextRound(m, 31); NextRound(m, 32); NextRound(m, 33); NextRound(m, 34);
    NextRound(m, 35); NextRound(m, 36); NextRound(m, 37); NextRound(m, 38); NextRound(m, 39);
  }

  lemma AbcRounds40(m: seq<word>)
    requires |m| == 16
    requires
      && W(m, 40) == 0xD2E138C4 && W(m, 41) == 0x00000F00 && W(m, 42) == 0x3AFB5079 && W(m, 43) == 0x898E04E5
      && W(m, 44) == 0xE2BA3C2B && W(m, 45) == 0x000060C0 && W(m, 46) == 0x053A37CD && W(m, 47) == 0x74458547
      && W(m, 48) == 0xDA9415ED && W(m, 49) == 0x26380A16
    requires After(m, 40) == Regs(0x32DE1CBA, 0x4C986405, 0xF718E5CF, 0x03D447F6, 0xF72EEC32)
    ensures After(m, 50) == Regs(0x120731C5, 0xBAF39337, 0xAFAB40B2, 0x2806E11B, 0x8714787C)
  {
    hide W, After;
    NextRound(m, 40); NextRound(m, 41); NextRound(m, 42); NextRound(m, 43); NextRound(m, 44);
    NextRound(m, 45); NextRound(m, 46); NextRound(m, 47); NextRound(m, 48); NextRound(m, 49);
  }

  lemma AbcRounds50(m: seq<word>)
    requires |m| == 16
    requires
      && W(m, 50) == 0x626383A1 && W(m, 51) == 0x4EBF54DE && W(m, 52) == 0x3835B44B && W(m, 53) == 0x0000F600
      && W(m, 54) == 0x1E84C7A3 && W(m, 55) == 0x98E04D98 && W(m, 56) == 0x651D16A0 && W(m, 57) == 0x62658CA1
      && W(m, 58) == 0x458544D6 && W(m, 59) == 0x44584CB7
    requires After(m, 50) == Regs(0x120731C5, 0xBAF39337, 0xAFAB40B2, 0x2806E11B, 0x8714787C)
    ensures After(m, 60) == Regs(0x3F52DE5A, 0x09D785FD, 0x3498BFD4, 0xF211824F, 0xD79915AB)
  {
    hide W, After;
    NextRound(m, 50); NextRound(m, 51); NextRound(m, 52); NextRound(m, 53); NextRound(m, 54);
    NextRound(m, 55); NextRound(m, 56); NextRound(m, 57); NextRound(m, 58); NextRound(m, 59);
  }

  lemma AbcRounds60(m: seq<word>)
    requires |m| == 16
    requires
      && W(m, 60) == 0x7BA06619 && W(m, 61) == 0x6380AEA2 && W(m, 62) == 0x0AE55269 && W(m, 63) == 0x627B49A1
      && W(m, 64) == 0x7CD45C9D && W(m, 65) == 0x000F0000 && W(m, 66) == 0xFB50753A && W(m, 67) == 0xEC6765E8
      && W(m, 68) == 0xBA3C2BE2 && W(m, 69) == 0x0060C000
    requires After(m, 60) == Regs(0x3F52DE5A, 0x09D785FD, 0x3498BFD4, 0xF211824F, 0xD79915AB)
    ensures After(m, 70) == Regs(0x3F2588C2, 0x497093C0, 0xDE37534A, 0x030F7CAD, 0x4405957E)
  {
    hide W, After;
    NextRound(m, 60); NextRound(m, 61); NextRound(m, 62); NextRound(m, 63); NextRound(m, 64);
    NextRound(m, 65); NextRound(m, 66); NextRound(m, 67); NextRound(m, 68); NextRound(m, 69);
  }

  lemma AbcRounds70(m: seq<word>)
    requires |m| == 16
    requires
      && W(m, 70) == 0x3A37CD05 && W(m, 71) == 0x458546F4 && W(m, 72) == 0xB8599DD6 && W(m, 73) == 0x380A1A26
      && W(m, 74) == 0x01E02203 && W(m, 75) == 0xE7CC3456 && W(m, 76) == 0xE6E60B69 && W(m, 77) == 0x00F60A00
      && W(m, 78) == 0x5795EF4F && W(m, 79) == 0x822E0879
    requires After(m, 70) == Regs(0x3F2588C2, 0x497093C0, 0xDE37534A, 0x030F7CAD, 0x4405957E)
    ensures After(m, 80) == Regs(0x42541B35, 0x5738D5E1, 0x21834873, 0x681E6DF6, 0xD8FDF6AD)
  {
    hide W, After;
    NextRound(m, 70); NextRound(m, 71); NextRound(m, 72); NextRound(m, 73); NextRound(m, 74);
    NextRound(m, 75); NextRound(m, 76); NextRound(m, 77); NextRound(m, 78); NextRound(m, 79);
  }

  lemma AbcCompress(m: seq<word>)
    requires IsAbc(m)
    ensures Plus(IV, Rounds(IV, Schedule(m))) == Regs(0xA9993E36, 0x4706816A, 0xBA3E2571, 0x7850C26C, 0x9CD0D89D)
  {
    hide W, Round, Rounds;
    NoRounds(m);
    AbcSchedule0(m);
    AbcSchedule16(m);
    AbcSchedule32(m);
    AbcSchedule48(m);
    AbcSchedule64(m);
    AbcRounds0(m);
    AbcRounds10(m);
    AbcRounds20(m);
    AbcRounds30(m);
    AbcRounds40(m);
    AbcRounds50(m);
    AbcRounds60(m);
    AbcRounds70(m);
    assert Schedule(m)[..80] == Schedule(m);
  }

  lemma NoRounds(m: seq<word>)
    requires |m| == 16
    ensures After(m, 0) == IV == Regs(0x67452301, 0xEFCDAB89, 0x98BADCFE, 0x10325476, 0xC3D2E1F0)
  {
  }

  lemma OneBlock(h: Regs, block: seq<octet>)
    requires |block| == 64
    ensures HashBlocks(h, block) == Plus(h, Rounds(h, Schedule(Words(block))))
  {
    hide Rounds, Schedule, Words;
    assert block[..64] == block && block[64..] == [];
  }

  /** A9993E36 4706816A BA3E2571 7850C26C 9CD0D89D */
  lemma Sha1OfAbc()
    ensures Sha1([0x61, 0x62, 0x63]) ==
      [0xA9, 0x99, 0x3E, 0x36, 0x47, 0x06, 0x81, 0x6A, 0xBA, 0x3E,
       0x25, 0x71, 0x78, 0x50, 0xC2, 0x6C, 0x9C, 0xD0, 0xD8, 0x9D]
  {
    hide W, Rounds, Schedule, Words, Padding, IsAbc, HashBlocks;
    var m := AbcWords();
    OneBlock(IV, ABC + Padding(3));
    AbcCompress(m);
  }

  // ----- section 5.7 of RFC 6455

  const HELLO: seq<byte> := [0x48, 0x65, 0x6C, 0x6C, 0x6F]
  const MASKED_HELLO: seq<byte> := [0x7F, 0x9F, 0x4D, 0x51, 0x58]

  /** A key whose octets are 37 FA 21 3D. */
  const KEY: u32 := 0x3D21FA37

  lemma KeyOctets()
    ensures LE(KEY, 4) == [0x37, 0xFA, 0x21, 0x3D] && UnLE([0x37, 0xFA, 0x21, 0x3D]) == KEY
  {
    FourSpell([0x37, 0xFA, 0x21, 0x3D]);
    UnLERoundTrip([0x37, 0xFA, 0x21, 0x3D]);
  }

  predicate IsXor(a: nat, b: nat, c: nat, k: nat) {
    if k == 0 then c == 0 else c % 2 == (a + b) % 2 && IsXor(a / 2, b / 2, c / 2, k - 1)
  }

  lemma {:induction false} XorIs(a: nat, b: nat, c: nat, k: nat)
    requires IsXor(a, b, c, k)
    ensures Masking.XorBits(a, b, k) == c
  {
    if k > 0 {
      XorIs(a / 2, b / 2, c / 2, k - 1);
    }
  }

  lemma HelloXors()
    ensures Masking.Xor(0x48, 0x37) == 0x7F && Masking.Xor(0x65, 0xFA) == 0x9F && Masking.Xor(0x6C, 0x21) == 0x4D
    ensures Masking.Xor(0x6C, 0x3D) == 0x51 && Masking.Xor(0x6F, 0x37) == 0x58
  {
    hide Masking.XorBits;
    XorIs(0x48, 0x37, 0x7F, 8);
    XorIs(0x65, 0xFA, 0x9F, 8);
    XorIs(0x6C, 0x21, 0x4D, 8);
    XorIs(0x6C, 0x3D, 0x51, 8);
    XorIs(0x6F, 0x37, 0x58, 8);
  }

  /** Five octets, so that the last one is left over by the word loop. */
  lemma HelloMasked()
    ensures Masking.Masked(HELLO, KEY) == MASKED_HELLO
  {
    hide LE, Masking.Xor;
    KeyOctets();
    HelloXors();
  }

  /** The masked single-frame message is fetched as "Hello". */
  lemma HelloFetched()
    ensures Receivers.FetchFrame([0x81, 0x85, 0x37, 0xFA, 0x21, 0x3D] + MASKED_HELLO) == Some(Receivers.Fetched(HELLO, []))
  {
    hide LE, UnLE, Masking.Masked;
    var s := [0x81, 0x85, 0x37, 0xFA, 0x21, 0x3D] + MASKED_HELLO;
    KeyOctets();
    assert s[2..6] == [0x37, 0xFA, 0x21, 0x3D];
    assert FrameHeaders.ParseHeader(s) == Some(FrameHeaders.HeaderInfo(5, true, KEY, 6));
    assert s[6..11] == MASKED_HELLO && s[11..] == [];
    HelloMasked();
    Masking.MaskingIsInvolutive(HELLO, KEY);
  }

  /** The headers of binary messages of 256 octets and of 64 KiB. */
  lemma BinaryHeaders()
    ensures FrameHeaders.Header(256, None) == [0x82, 0x7E, 0x01, 0x00]
    ensures FrameHeaders.Header(65536, None) == [0x82, 0x7F, 0, 0, 0, 0, 0, 0x01, 0, 0]
  {
    assert Digit(256, 0) == 0 && Digit(256, 1) == 1;
    assert Digit(65536, 0) == Digit(65536, 1) == 0 && Digit(65536, 2) == 1;
    forall i | 3 <= i < 8
      ensures Digit(65536, i) == 0
    {
      NoDigits(i - 3);
      assert Digit(65536, i) == Digit(256, i - 1) == Digit(1, i - 2) == Digit(0, i - 3);
    }
  }
}
