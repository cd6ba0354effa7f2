/** Raw buffers: `memcpy` and `memset` over arrays of octets. */
module Memory {
  import opened Bytes

  datatype Option<+T> = None | Some(value: T)

  /** A buffer's contents once `s` has been copied over it at offset `at`. */
  function Overwrite(m: seq<byte>, at: nat, s: seq<byte>): (r: seq<byte>)
    requires at + |s| <= |m|
    ensures |r| == |m| && r[at..at + |s|] == s && r[..at] == m[..at] && r[at + |s|..] == m[at + |s|..]
  {
    m[..at] + s + m[at + |s|..]
  }

  /** Two adjacent copies are one copy of both pieces. */
  lemma OverwriteTwice(m: seq<byte>, at: nat, s: seq<byte>, t: seq<byte>)
    requires at + |s| + |t| <= |m|
    ensures Overwrite(Overwrite(m, at, s), at + |s|, t) == Overwrite(m, at, s + t)
  {
    assert Overwrite(m, at, s)[..at + |s|] == m[..at] + s;
  }

  method Copy(dst: array<byte>, at: nat, src: seq<byte>)
    requires at + |src| <= dst.Length
    modifies dst
    ensures dst[..] == Overwrite(old(dst[..]), at, src)
  {
    forall k | 0 <= k < |src| {
      dst[at + k] := src[k];
    }
  }
}
