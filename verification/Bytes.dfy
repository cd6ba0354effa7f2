/** Octets, fixed-width integers and the byte orders the transport layer uses. */
module Bytes {

  type byte = x: int | 0 <= x < 0x100

  const TWO_32: nat := 0x1_0000_0000
  const TWO_64: nat := 0x1_0000_0000_0000_0000

  type u32 = x: int | 0 <= x < 0x1_0000_0000
  type u64 = x: int | 0 <= x < 0x1_0000_0000_0000_0000

  /** 2 to the power `k`; in the code also `1ULL << k`. */
  function Pow2(k: nat): (r: nat)
    ensures r > 0
  {
    if k == 0 then 1 else 2 * Pow2(k - 1)
  }

  /** 256 to the power `k`: how many values `k` octets hold. */
  function Span(k: nat): (r: nat)
    ensures r > 0
  {
    if k == 0 then 1 else 256 * Span(k - 1)
  }

  /** Octet `i` of `n`, counting from the least significant. */
  function Digit(n: nat, i: nat): byte {
    if i == 0 then n % 256 else Digit(n / 256, i - 1)
  }

  /** What a `k`-octet little-endian store of `n` leaves in memory. */
  function LE(n: nat, k: nat): (s: seq<byte>)
    ensures |s| == k
  {
    seq(k, i requires 0 <= i < k => Digit(n, i))
  }

  lemma LESteps(n: nat, k: nat)
    requires k > 0
    ensures LE(n, k) == [n % 256] + LE(n / 256, k - 1)
  {
    var r := [n % 256] + LE(n / 256, k - 1);
    forall i | 0 <= i < k
      ensures LE(n, k)[i] == r[i]
    {
      if i > 0 {
        assert LE(n / 256, k - 1)[i - 1] == Digit(n / 256, i - 1);
      }
    }
  }

  /** A little-endian load. */
  function UnLE(s: seq<byte>): nat {
    if s == [] then 0 else s[0] + 256 * UnLE(s[1..])
  }

  /** Network byte order: most significant octet first. */
  function BE(n: nat, k: nat): (s: seq<byte>)
    ensures |s| == k
  {
    seq(k, i requires 0 <= i < k => Digit(n, k - 1 - i))
  }

  lemma BESteps(n: nat, k: nat)
    requires k > 0
    ensures BE(n, k) == BE(n / 256, k - 1) + [n % 256]
  {
    var r := BE(n / 256, k - 1) + [n % 256];
    forall i | 0 <= i < k
      ensures BE(n, k)[i] == r[i]
    {
      var d := k - 1 - i;
      assert BE(n, k)[i] == Digit(n, d);
      if d > 0 {
        assert Digit(n, d) == Digit(n / 256, d - 1);
      }
    }
  }

  function UnBE(s: seq<byte>): nat {
    if s == [] then 0 else 256 * UnBE(s[..|s| - 1]) + s[|s| - 1]
  }

  lemma {:induction false} LERoundTrip(n: nat, k: nat)
    requires n < Span(k)
    ensures UnLE(LE(n, k)) == n
  {
    if k > 0 {
      LERoundTrip(n / 256, k - 1);
      LESteps(n, k);
      assert LE(n, k)[1..] == LE(n / 256, k - 1);
    }
  }

  lemma {:induction false} UnLERoundTrip(s: seq<byte>)
    ensures UnLE(s) < Span(|s|)
    ensures LE(UnLE(s), |s|) == s
  {
    if s != [] {
      UnLERoundTrip(s[1..]);
      LESteps(UnLE(s), |s|);
    }
  }

  lemma {:induction false} BERoundTrip(n: nat, k: nat)
    requires n < Span(k)
    ensures UnBE(BE(n, k)) == n
  {
    if k > 0 {
      BERoundTrip(n / 256, k - 1);
      BESteps(n, k);
      assert BE(n, k)[..k - 1] == BE(n / 256, k - 1);
    }
  }

  lemma {:induction false} UnBEBound(s: seq<byte>)
    ensures UnBE(s) < Span(|s|)
  {
    if s != [] {
      UnBEBound(s[..|s| - 1]);
    }
  }

  lemma Spans()
    ensures Span(2) == 0x1_0000 && Span(4) == TWO_32 && Span(8) == TWO_64
  {
    assert Span(4) == 0x1_0000_0000;
    assert Span(6) == 0x1_0000_0000_0000;
  }

  /** The concatenation of a sequence of byte strings. */
  function Flatten(parts: seq<seq<byte>>): seq<byte> {
    if parts == [] then [] else parts[0] + Flatten(parts[1..])
  }

  lemma {:induction false} FlattenAppend(a: seq<seq<byte>>, b: seq<seq<byte>>)
    ensures Flatten(a + b) == Flatten(a) + Flatten(b)
  {
    if a == [] {
      assert a + b == b;
    } else {
      calc {
        Flatten(a + b);
      == { assert (a + b)[0] == a[0] && (a + b)[1..] == a[1..] + b; }
        a[0] + Flatten(a[1..] + b);
      == { FlattenAppend(a[1..], b); }
        a[0] + (Flatten(a[1..]) + Flatten(b));
      == 
        Flatten(a) + Flatten(b);
      }
    }
  }

  lemma FlattenOne(a: seq<byte>)
    ensures Flatten([a]) == a
  {
    assert [a][1..] == [];
    assert a + [] == a;
  }

  lemma {:induction false} UnLEConcat(a: seq<byte>, b: seq<byte>)
    ensures UnLE(a + b) == UnLE(a) + Span(|a|) * UnLE(b)
  {
    if a == [] {
      assert a + b == b;
    } else {
      var t := a[1..];
      calc {
        UnLE(a + b);
      == { assert (a + b)[1..] == t + b; }
        a[0] + 256 * UnLE(t + b);
      == { UnLEConcat(t, b); }
        a[0] + 256 * (UnLE(t) + Span(|t|) * UnLE(b));
      == { MulRegroup(256, Span(|t|), UnLE(b)); }
        UnLE(a) + Span(|a|) * UnLE(b);
      }
    }
  }

  lemma {:induction false} UnBEConcat(a: seq<byte>, b: seq<byte>)
    ensures UnBE(a + b) == UnBE(a) * Span(|b|) + UnBE(b)
  {
    if b == [] {
      assert a + b == a;
    } else {
      var c, z := b[..|b| - 1], b[|b| - 1];
      calc {
        UnBE(a + b);
      == { assert (a + b)[..|a + b| - 1] == a + c; }
        256 * UnBE(a + c) + z;
      == { UnBEConcat(a, c); }
        256 * (UnBE(a) * Span(|c|) + UnBE(c)) + z;
      == { MulRegroup(256, Span(|c|), UnBE(a)); }
        UnBE(a) * Span(|b|) + UnBE(b);
      }
    }
  }

  lemma MulRegroup(k: nat, m: nat, n: nat)
    ensures k * (m * n) == (k * m) * n == n * (k * m)
    ensures m * n == n * m >= 0
  {
  }

  function Reverse(s: seq<byte>): (r: seq<byte>)
    ensures |r| == |s|
  {
    if s == [] then [] else Reverse(s[1..]) + [s[0]]
  }

  lemma {:induction false} ReversedOrder(n: nat, k: nat)
    ensures Reverse(LE(n, k)) == BE(n, k)
  {
    if k > 0 {
      ReversedOrder(n / 256, k - 1);
      LESteps(n, k);
      BESteps(n, k);
      assert LE(n, k)[1..] == LE(n / 256, k - 1);
    }
  }

  lemma {:induction false} UnReversed(s: seq<byte>)
    ensures UnLE(Reverse(s)) == UnBE(s)
  {
    if s != [] {
      var a, z := s[..|s| - 1], s[|s| - 1];
      UnReversed(a);
      ReverseLast(a, z);
      assert s == a + [z];
    }
  }

  lemma {:induction false} ReverseLast(a: seq<byte>, z: byte)
    ensures Reverse(a + [z]) == [z] + Reverse(a)
  {
    if a == [] {
      assert a + [z] == [z];
      assert [z][1..] == [];
    } else {
      ReverseLast(a[1..], z);
      assert (a + [z])[1..] == a[1..] + [z];
    }
  }

  /** The place values of four octets, most significant first. */
  function Number(a: nat, b: nat, c: nat, d: nat): nat {
    0x100_0000 * a + 0x1_0000 * b + 0x100 * c + d
  }

  /** What four and eight octets spell, the least significant first. */
  lemma LESpells(s: seq<byte>)
    ensures |s| == 4 ==> UnLE(s) == Number(s[3], s[2], s[1], s[0])
    ensures |s| == 8 ==>
      UnLE(s) == 0x1_0000_0000 * Number(s[7], s[6], s[5], s[4]) + Number(s[3], s[2], s[1], s[0])
  {
    if |s| == 4 {
      FourSpell(s);
    } else if |s| == 8 {
      assert s == s[..4] + s[4..];
      UnLEConcat(s[..4], s[4..]);
      FourSpell(s[..4]);
      FourSpell(s[4..]);
      Spans();
    }
  }

  lemma FourSpell(s: seq<byte>)
    requires |s| == 4
    ensures UnLE(s) == Number(s[3], s[2], s[1], s[0])
  {
    assert UnLE(s[3..]) == s[3];
    assert UnLE(s[2..]) == s[2] + 256 * UnLE(s[3..]);
    assert UnLE(s[1..]) == s[1] + 256 * UnLE(s[2..]);
  }

  /** What two and eight octets spell, the most significant first. */
  lemma BESpells(s: seq<byte>)
    ensures |s| == 2 ==> UnBE(s) == Number(0, 0, s[0], s[1])
    ensures |s| == 8 ==>
      UnBE(s) == 0x1_0000_0000 * Number(s[0], s[1], s[2], s[3]) + Number(s[4], s[5], s[6], s[7])
  {
    if |s| == 2 {
      assert UnBE(s[..1]) == s[0];
    } else if |s| == 8 {
      assert s == s[..4] + s[4..];
      UnBEConcat(s[..4], s[4..]);
      FourSpellBack(s[..4]);
      FourSpellBack(s[4..]);
      Spans();
    }
  }

  lemma FourSpellBack(s: seq<byte>)
    requires |s| == 4
    ensures UnBE(s) == Number(s[0], s[1], s[2], s[3])
  {
    assert s[..3][..2] == s[..2] && s[..2][..1] == s[..1];
    assert UnBE(s[..1]) == s[0];
    assert UnBE(s[..2]) == 256 * UnBE(s[..1]) + s[1];
    assert UnBE(s[..3]) == 256 * UnBE(s[..2]) + s[2];
  }

  /** `ntohl` and its kin on a little-endian host: the same `k` octets read in network order. */
  function SwapOrder(x: nat, k: nat): nat {
    UnBE(LE(x, k))
  }

  /** The two `k`-octet halves exchanged, each byte-swapped. */
  function SwapHalves(x: nat, k: nat): nat {
    var m := Span(k);
    QuotientIsNat(x, m);
    var hi, lo := SwapOrder(x / m, k), SwapOrder(x % m, k);
    MulRegroup(1, lo, m);
    hi + lo * m
  }

  lemma QuotientIsNat(x: nat, m: nat)
    requires m > 0
    ensures x / m >= 0 && x % m >= 0
  {
  }

  /** `ntoh64`, and under its other name `hton64`: two `ntohl` calls. */
  function Ntoh64(x: nat): nat {
    SwapHalves(x, 4)
  }

  lemma DivMod(lo: nat, hi: nat, m: nat)
    requires lo < m
    ensures (lo + m * hi) / m == hi && (lo + m * hi) % m == lo
  {
    var x := lo + m * hi;
    var d: int := x / m - hi;
    assert m * d == m * (x / m) - m * hi;
    assert d >= 1 ==> m * d >= m;
    assert d <= -1 ==> m * d + m <= 0;
  }

  /** Swapping halves that are themselves swapped reads the whole in network order. */
  lemma SwapHalvesReads(s: seq<byte>, k: nat)
    requires |s| == 2 * k
    ensures SwapHalves(UnLE(s), k) == UnBE(s)
  {
    var lo, hi := s[..k], s[k..];
    assert s == lo + hi;
    UnLEConcat(lo, hi);
    UnBEConcat(lo, hi);
    UnLERoundTrip(lo);
    UnLERoundTrip(hi);
    DivMod(UnLE(lo), UnLE(hi), Span(k));
  }

  /** Loading eight octets and converting them reads network order. */
  lemma Ntoh64Loads(s: seq<byte>)
    requires |s| == 8
    ensures Ntoh64(UnLE(s)) == UnBE(s)
  {
    SwapHalvesReads(s, 4);
  }

  /** `ntohs` of a load reads network order. */
  lemma LoadsSwapped(s: seq<byte>)
    ensures SwapOrder(UnLE(s), |s|) == UnBE(s)
  {
    UnLERoundTrip(s);
  }

  /** Byte-swapping and then storing leaves network order in memory. */
  lemma SwapOrderStores(x: nat, k: nat)
    ensures LE(SwapOrder(x, k), k) == BE(x, k)
  {
    var s := LE(x, k);
    UnReversed(s);
    UnLERoundTrip(Reverse(s));
    ReversedOrder(x, k);
  }

  lemma Hton64Stores(x: nat)
    requires x < TWO_64
    ensures LE(Ntoh64(x), 8) == BE(x, 8)
  {
    Spans();
    LERoundTrip(x, 8);
    Ntoh64Loads(LE(x, 8));
    SwapOrderStores(x, 8);
  }
}
