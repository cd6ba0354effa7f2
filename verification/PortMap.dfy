/** The number allocator of the connection manager: a bitmap searched cyclically. */
module PortMaps {
  import opened Bytes
  import opened Memory

  const PORT_MAP_SIZE: nat := 16
  const MAX_PORT_SEQ: nat := 1024

  /** A `uint64_t` word of the bitmap. */
  type mapword = x: int | 0 <= x < 0x1_0000_0000_0000_0000

  /** The operators `&`, `|` and `~` on the low `n` bits. */
  function And(a: nat, b: nat, n: nat): (r: nat)
    ensures r < Pow2(n)
  {
    if n == 0 then 0 else
    var rest := And(a / 2, b / 2, n - 1);
    var low := if a % 2 == 1 && b % 2 == 1 then 1 else 0;
    low + 2 * rest
  }

  function Or(a: nat, b: nat, n: nat): (r: nat)
    ensures r < Pow2(n)
  {
    if n == 0 then 0 else
    var rest := Or(a / 2, b / 2, n - 1);
    var low := if a % 2 == 1 || b % 2 == 1 then 1 else 0;
    low + 2 * rest
  }

  function Not(b: nat, n: nat): (r: nat)
    ensures r < Pow2(n)
  {
    if n == 0 then 0 else
    var rest := Not(b / 2, n - 1);
    1 - b % 2 + 2 * rest
  }

  lemma WordSize()
    ensures Pow2(64) == 0x1_0000_0000_0000_0000
  {
    FourOn(0);
    FourOn(4);
    FourOn(8);
    FourOn(12);
    FourOn(16);
    FourOn(20);
    FourOn(24);
    FourOn(28);
    FourOn(32);
    FourOn(36);
    FourOn(40);
    FourOn(44);
    FourOn(48);
    FourOn(52);
    FourOn(56);
    FourOn(60);
  }

  lemma FourOn(j: nat)
    ensures Pow2(j + 4) == 16 * Pow2(j)
  {
    assert Pow2(j + 2) == 2 * Pow2(j + 1);
    assert Pow2(j + 4) == 2 * Pow2(j + 3);
  }

  /** Bit `k` of a number. */
  predicate Bit(a: nat, k: nat) {
    if k == 0 then a % 2 == 1 else Bit(a / 2, k - 1)
  }

  /** The operators work bit by bit. */
  lemma {:induction false} BitOfAnd(a: nat, b: nat, n: nat, k: nat)
    requires k < n
    ensures Bit(And(a, b, n), k) <==> Bit(a, k) && Bit(b, k)
  {
    if k > 0 {
      BitOfAnd(a / 2, b / 2, n - 1, k - 1);
    }
  }

  lemma {:induction false} BitOfOr(a: nat, b: nat, n: nat, k: nat)
    requires k < n
    ensures Bit(Or(a, b, n), k) <==> Bit(a, k) || Bit(b, k)
  {
    if k > 0 {
      BitOfOr(a / 2, b / 2, n - 1, k - 1);
    }
  }

  lemma {:induction false} BitOfNot(b: nat, n: nat, k: nat)
    requires k < n
    ensures Bit(Not(b, n), k) <==> !Bit(b, k)
  {
    if k > 0 {
      BitOfNot(b / 2, n - 1, k - 1);
    }
  }

  /** `1ULL << j` has exactly one bit. */
  lemma {:induction false} BitOfPow2(j: nat, k: nat)
    ensures Bit(Pow2(j), k) <==> j == k
  {
    if j == 0 && k > 0 {
      NoBitOfZero(k - 1);
    } else if j > 0 && k > 0 {
      BitOfPow2(j - 1, k - 1);
    }
  }

  lemma {:induction false} NoBitOfZero(k: nat)
    ensures !Bit(0, k)
  {
    if k > 0 {
      NoBitOfZero(k - 1);
    }
  }

  /** The test `w & (1ULL << j)` looks at bit `j`. */
  lemma {:induction false} TestIsBit(w: nat, j: nat, n: nat)
    requires j < n
    ensures And(w, Pow2(j), n) != 0 <==> Bit(w, j)
  {
    if j == 0 {
      AndZero(w / 2, n - 1);
    } else {
      TestIsBit(w / 2, j - 1, n - 1);
    }
  }

  lemma {:induction false} AndZero(w: nat, n: nat)
    ensures And(w, 0, n) == 0
  {
    if n > 0 {
      AndZero(w / 2, n - 1);
    }
  }

  /** Setting and clearing bit `j` of a word, seen at bit `k`. */
  lemma BitsAfter(w: nat, j: nat, k: nat)
    requires j < 64 && k < 64
    ensures Bit(Or(w, Pow2(j), 64), k) <==> j == k || Bit(w, k)
    ensures Bit(And(w, Not(Pow2(j), 64), 64), k) <==> j != k && Bit(w, k)
  {
    hide Bit, And, Or, Not, Pow2;
    BitOfOr(w, Pow2(j), 64, k);
    BitOfNot(Pow2(j), 64, k);
    BitOfAnd(w, Not(Pow2(j), 64), 64, k);
    BitOfPow2(j, k);
  }

  /** How far `port` is ahead of `from` in the cyclic order 1..1023. */
  function Ahead(from: nat, port: nat): int
    requires 1 <= from < MAX_PORT_SEQ && 1 <= port < MAX_PORT_SEQ
  {
    if port >= from then port - from else port - from + (MAX_PORT_SEQ - 1)
  }

  function Following(port: nat): nat {
    if port + 1 == MAX_PORT_SEQ then 1 else port + 1
  }

  /** The first number from `from` on, in cyclic order, that is not taken; never 0. */
  ghost predicate IsNextFree(used: set<nat>, from: nat, port: nat)
    requires 1 <= from < MAX_PORT_SEQ
  {
    && 1 <= port < MAX_PORT_SEQ && port !in used
    && forall q: nat :: 1 <= q < MAX_PORT_SEQ && Ahead(from, q) < Ahead(from, port) ==> q in used
  }

  ghost predicate SomeFree(used: set<nat>) {
    exists n: nat :: 1 <= n < MAX_PORT_SEQ && n !in used
  }

  /** One of the next `turns` numbers is not taken. */
  ghost predicate FreeWithin(used: set<nat>, from: nat, turns: nat)
    requires 1 <= from < MAX_PORT_SEQ
  {
    exists q: nat :: 1 <= q < MAX_PORT_SEQ && q !in used && Ahead(from, q) < turns
  }

  /** The number reached from `from` after `turns` turns. */
  function Further(from: nat, turns: nat): (port: nat)
    requires 1 <= from < MAX_PORT_SEQ
    ensures 1 <= port < MAX_PORT_SEQ
  {
    (from - 1 + turns) % (MAX_PORT_SEQ - 1) + 1
  }

  /** The first 1023 turns visit every number once, in the cyclic order. */
  lemma AheadOfFurther(from: nat, turns: nat, port: nat)
    requires 1 <= from < MAX_PORT_SEQ && port == Further(from, turns)
    ensures Following(port) == Further(from, turns + 1)
    ensures turns < MAX_PORT_SEQ - 1 ==> Ahead(from, port) == turns
    ensures forall q: nat :: 1 <= q < MAX_PORT_SEQ && Ahead(from, q) == Ahead(from, port) ==> q == port
  {
  }

  class PortMap {
    const portMap: array<mapword>
    var portSeq: nat

    ghost predicate Valid()
      reads this
    {
      portMap.Length == PORT_MAP_SIZE && 1 <= portSeq < MAX_PORT_SEQ
    }

    predicate InUse(port: nat)
      requires portMap.Length == PORT_MAP_SIZE && port < MAX_PORT_SEQ
      reads this, portMap
    {
      Bit(portMap[port / 64], port % 64)
    }

    /** The set the bitmap stands for. */
    ghost function Used(): set<nat>
      requires portMap.Length == PORT_MAP_SIZE
      reads this, portMap
    {
      set port: nat | port < MAX_PORT_SEQ && InUse(port)
    }

    constructor ()
      ensures Valid() && Used() == {} && portSeq == 1 && fresh(portMap)
    {
      portMap := new mapword[PORT_MAP_SIZE](_ => 0);
      portSeq := 1;
      new;
      forall q: nat | q < MAX_PORT_SEQ
        ensures !InUse(q)
      {
        NoBitOfZero(q % 64);
      }
    }

    method SetPort(port: nat)
      requires Valid() && port < MAX_PORT_SEQ
      modifies portMap
      ensures Used() == old(Used()) + {port}
    {
      hide Bit;
      ghost var w := portMap[port / 64];
      WordSize();
      portMap[port / 64] := Or(portMap[port / 64], Pow2(port % 64), 64);
      forall q: nat | q < MAX_PORT_SEQ
        ensures InUse(q) <==> q == port || old(InUse(q))
      {
        BitsAfter(w, port % 64, q % 64);
      }
    }

    /** `free_used_port`. */
    method FreeUsedPort(port: nat)
      requires Valid() && port < MAX_PORT_SEQ
      modifies portMap
      ensures Used() == old(Used()) - {port}
    {
      hide Bit;
      ghost var w := portMap[port / 64];
      WordSize();
      portMap[port / 64] := And(portMap[port / 64], Not(Pow2(port % 64), 64), 64);
      forall q: nat | q < MAX_PORT_SEQ
        ensures InUse(q) <==> q != port && old(InUse(q))
      {
        BitsAfter(w, port % 64, q % 64);
      }
    }

    /**
     `get_unused_port`, cut off after `turns` turns of its loop: takes the first
     free number in cyclic order, which is never 0. The loop has no other end: as
     long as no number is free, it is cut off after any number of turns.
     */
    method GetUnusedPort(turns: nat) returns (port: Option<nat>)
      requires Valid()
      modifies this`portSeq, portMap
      ensures Valid()
      ensures port.Some? <==> FreeWithin(old(Used()), old(portSeq), turns)
      ensures turns >= MAX_PORT_SEQ - 1 ==> (port.Some? <==> SomeFree(old(Used())))
      ensures port.Some? ==> IsNextFree(old(Used()), old(portSeq), port.value) && portSeq == Following(port.value)
      ensures port.Some? ==> Used() == old(Used()) + {port.value}
      ensures port.None? ==> Used() == old(Used()) && portSeq == Further(old(portSeq), turns)
      ensures port.Some? ==>
        && 1 <= port.value <= 1023 && port.value !in old(Used()) && portSeq == (if port.value == 1023 then 1 else port.value + 1)
        && forall q: nat ::
             (if old(portSeq) <= port.value then old(portSeq) <= q < port.value
              else old(portSeq) <= q <= 1023 || 1 <= q < port.value) ==> q in old(Used())
    {
      hide Bit, And, Pow2;
      ghost var from := portSeq;
      for i := 0 to turns
        invariant Valid() && Used() == old(Used()) && portSeq == Further(from, i)
        invariant forall q: nat :: 1 <= q < MAX_PORT_SEQ && Ahead(from, q) < i ==> q in old(Used())
      {
        var p := portSeq;
        TestIsBit(portMap[p / 64], p % 64, 64);
        var found := And(portMap[p / 64], Pow2(p % 64), 64) == 0;
        if found {
          SetPort(p);
        }
        portSeq := portSeq + 1;
        if portSeq == MAX_PORT_SEQ {
          portSeq := 1;
        }
        AheadOfFurther(from, i, p);
        if found {
          return Some(p);
        }
      }
      return None;
    }
  }
}
