/**
 The receiving half of a socket behind its read-ahead buffer, and the octets
 handed to the socket for sending. How many octets one `recv` returns is
 chosen by the network, so every split is covered.
 */
module SocketStreams {
  import opened Bytes
  import opened Memory

  const RECV_BUFFER_SIZE: nat := 0x10_0000

  function Min(a: nat, b: nat): nat {
    if a <= b then a else b
  }

  class SocketStream {
    /** Read-ahead buffer: octets `offset..size` are received and not yet delivered. */
    const buf: array<byte>
    var size: nat
    var offset: nat
    /** What the peer sends from here on until it closes. */
    var incoming: seq<byte>
    /** Everything sent so far. */
    var sent: seq<byte>

    ghost predicate Valid()
      reads this
    {
      buf.Length == RECV_BUFFER_SIZE && offset <= size <= buf.Length
    }

    /** The octets the application has not received yet. */
    ghost function Pending(): seq<byte>
      requires Valid()
      reads this, buf
    {
      buf[offset..size] + incoming
    }

    constructor (incoming: seq<byte>)
      ensures Valid() && fresh(buf)
      ensures Pending() == incoming && sent == []
    {
      buf := new byte[RECV_BUFFER_SIZE];
      size, offset := 0, 0;
      this.incoming := incoming;
      sent := [];
    }

    method SendEx(data: seq<byte>)
      modifies this`sent
      ensures sent == old(sent) + data
    {
      sent := sent + data;
    }

    /** One `recv` into the read-ahead buffer: at least one octet, or 0 at close. */
    method Recv() returns (ret: nat)
      requires Valid()
      modifies this`incoming, buf
      ensures ret == 0 <==> old(incoming) == []
      ensures ret <= buf.Length && ret <= |old(incoming)|
      ensures incoming == old(incoming)[ret..]
      ensures buf[..] == Overwrite(old(buf[..]), 0, old(incoming)[..ret])
    {
      ret := 0;
      if incoming != [] {
        var most := Min(|incoming|, buf.Length);
        assert 1 <= most;
        ret :| 1 <= ret <= most;
      }
      Copy(buf, 0, incoming[..ret]);
      incoming := incoming[ret..];
    }

    /** Moves `n` buffered octets to `dst`. */
    method Deliver(dst: array<byte>, at: nat, n: nat)
      requires Valid() && dst != buf && at + n <= dst.Length && n <= size - offset
      modifies this`offset, dst
      ensures Valid() && offset == old(offset) + n
      ensures dst[..] == Overwrite(old(dst[..]), at, old(Pending())[..n])
      ensures Pending() == old(Pending())[n..]
    {
      assert Pending()[..n] == buf[offset..offset + n];
      Copy(dst, at, buf[offset..offset + n]);
      offset := offset + n;
    }

    /** Replaces an exhausted read-ahead buffer by the next piece from the network. */
    method Refill() returns (ret: nat)
      requires Valid() && offset == size
      modifies this`offset, this`size, this`incoming, buf
      ensures Valid() && Pending() == old(Pending())
      ensures ret == 0 ==> Pending() == []
      ensures ret != 0 ==> |incoming| < old(|incoming|)
    {
      ghost var all := incoming;
      ret := Recv();
      if ret != 0 {
        offset, size := 0, ret;
        assert buf[..ret] == all[..ret];
        assert all == all[..ret] + all[ret..];
      }
    }

    lemma Advance(was: seq<byte>, at: nat, all: seq<byte>, done: nat, n: nat)
      requires done + n <= |all| && at + done + n <= |was|
      ensures all[done..][n..] == all[done + n..]
      ensures Overwrite(Overwrite(was, at, all[..done]), at + done, all[done..][..n])
           == Overwrite(was, at, all[..done + n])
    {
      OverwriteTwice(was, at, all[..done], all[done..][..n]);
      assert all[..done] + all[done..][..n] == all[..done + n];
    }

    /** Copies what is read ahead, as far as it is wanted; after less than `nbytes` nothing is left of it. */
    method TakeAvailable(dst: array<byte>, at: nat, nbytes: nat, done: nat, ghost was: seq<byte>, ghost all: seq<byte>)
      returns (received: nat)
      requires Valid() && dst != buf && at + nbytes <= dst.Length == |was| && done <= nbytes && done <= |all|
      requires dst[..] == Overwrite(was, at, all[..done]) && Pending() == all[done..]
      modifies this`offset, dst
      ensures Valid() && done <= received <= nbytes && received <= |all|
      ensures dst[..] == Overwrite(was, at, all[..received]) && Pending() == all[received..]
      ensures received < nbytes ==> offset == size
    {
      hide Overwrite;
      received := done;
      var toRead := Min(size - offset, nbytes - done);
      if toRead > 0 {
        Deliver(dst, at + done, toRead);
        Advance(was, at, all, done, toRead);
        received := done + toRead;
      }
    }

    /**
     Fills `dst` from `at` with the next `nbytes` octets of the stream, however
     the socket splits it, or with all that is left when the peer has closed.
     */
    method RecvEx(dst: array<byte>, at: nat, nbytes: nat) returns (received: nat)
      requires Valid() && dst != buf && at + nbytes <= dst.Length
      modifies this`size, this`offset, this`incoming, buf, dst
      ensures Valid()
      ensures received == Min(nbytes, |old(Pending())|)
      ensures dst[..] == Overwrite(old(dst[..]), at, old(Pending())[..received])
      ensures Pending() == old(Pending())[received..]
    {
      received := 0;
      ghost var all, was := Pending(), dst[..];
      assert was == Overwrite(was, at, all[..0]);
      hide Overwrite;
      while true
        invariant Valid() && received <= nbytes && received <= |all|
        invariant dst[..] == Overwrite(was, at, all[..received]) && Pending() == all[received..]
        decreases |incoming|
      {
        received := TakeAvailable(dst, at, nbytes, received, was, all);
        if received >= nbytes {
          return;
        }
        var ret := Refill();
        if ret == 0 {
          return;
        }
      }
    }
  }
}
