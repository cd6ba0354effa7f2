/**
 The receive context: chunks sorted by id, and a cursor over the chunk that is
 next in line. The value-level operations come first; the class carries them
 out on a linked list.
 */
module RecvContexts {
  import opened Bytes
  import opened Memory
  import opened LinkedLists
  import opened SocketStreams
  import opened SendBuffers

  datatype Chunk = Chunk(id: u64, payload: seq<byte>)

  /** The cursor: where reading continues, or, when not valid, the last id that was finished. */
  datatype RecvInfo = RecvInfo(id: u64, payload: seq<byte>, offset: nat, length: nat, prevId: u64, valid: bool)

  datatype RecvState = RecvState(list: seq<Chunk>, info: Option<RecvInfo>)
  {
    predicate Valid() {
      info.Some? && info.value.valid
    }

    /** A valid cursor stands inside its payload, and there is a chunk to retire. */
    predicate Sane() {
      Valid() ==> list != [] && info.value.length == |info.value.payload| && info.value.offset <= info.value.length
    }
  }

  const IdOf: Chunk -> int := (c: Chunk) => c.id

  /** A cursor that is not valid moves to the head of the list if that is the next id. */
  function Select(list: seq<Chunk>, info: RecvInfo): RecvInfo {
    if !info.valid && list != [] && NextId(info.prevId) == list[0].id
    then RecvInfo(list[0].id, list[0].payload, 0, |list[0].payload|, info.prevId, true)
    else info
  }

  const NO_CURSOR := RecvInfo(0, [], 0, 0, 0, false)

  /** Stream mode: queue a chunk and let the cursor look at it. */
  function PutChunk(s: RecvState, c: Chunk): (r: RecvState)
    ensures s.Sane() ==> r.Sane()
  {
    var list := Insert(s.list, IdOf, c);
    RecvState(list, Some(Select(list, if s.info.Some? then s.info.value else NO_CURSOR)))
  }

  /** Read at most `n` octets of the current chunk; a finished chunk leaves the list. */
  function ReadSome(s: RecvState, n: nat): (r: (RecvState, seq<byte>))
    requires s.Valid() && s.Sane()
    ensures r.0.Sane() && r.0.info.Some? && |r.1| <= n
  {
    var info := s.info.value;
    if info.offset < info.length then
      var k := Min(info.length - info.offset, n);
      var out := info.payload[info.offset..info.offset + k];
      if info.offset + k == info.length then
        var list := s.list[1..];
        var retired := info.(offset := info.offset + k, prevId := s.list[0].id, valid := false);
        (RecvState(list, Some(Select(list, retired))), out)
      else
        (s.(info := Some(info.(offset := info.offset + k))), out)
    else
      (s, [])
  }

  /** Nothing that the cursor could deliver at once. */
  predicate Empty(s: RecvState) {
    !(s.list != [] && s.Valid() && s.info.value.offset < s.info.value.length)
  }

  class RecvCtx {
    const list: LinkedList<Chunk>
    var info: Option<RecvInfo>
    const isChunk: bool
    var recvZero: bool

    ghost predicate Valid()
      reads this, list, list.repr
    {
      list.Valid()
    }

    ghost function State(): RecvState
      reads this, list, list.repr
    {
      RecvState(list.Items(), info)
    }

    constructor (isChunk: bool)
      ensures Valid() && fresh(list) && list.repr == {}
      ensures State() == RecvState([], None) && this.isChunk == isChunk && !recvZero
    {
      list := new LinkedList();
      info := None;
      this.isChunk := isChunk;
      recvZero := false;
    }

    /** Moves a cursor that is not valid to the head of the list if that is next in line. */
    method SelectHead()
      requires Valid() && info.Some?
      modifies this`info
      ensures State() == RecvState(old(State()).list, Some(Select(old(State()).list, old(info.value))))
    {
      if !info.value.valid && list.head != null {
        var b := list.head.item;
        if NextId(info.value.prevId) == b.id {
          info := Some(RecvInfo(b.id, b.payload, 0, |b.payload|, info.value.prevId, true));
        }
      }
    }

    method PutToRecvCtx(c: Chunk)
      requires Valid()
      modifies this`info, list, list.repr
      ensures Valid() && fresh(list.repr - old(list.repr))
      ensures State() == if isChunk then RecvState(Insert(old(State()).list, IdOf, c), old(info)) else PutChunk(old(State()), c)
    {
      list.InsertSorted(c, IdOf);
      if isChunk {
        return;
      }
      if info.None? {
        info := Some(NO_CURSOR);
      }
      SelectHead();
    }

    method EmptyRecvCtx() returns (b: bool)
      requires Valid()
      ensures b <==> if isChunk then State().list == [] else Empty(State())
    {
      if isChunk {
        return list.head == null;
      }
      if list.head == null || info.None? {
        return true;
      }
      return !(info.value.valid && info.value.offset < info.value.length);
    }

    method RecvFromRecvCtx(len: nat) returns (out: seq<byte>)
      requires Valid() && State().Valid() && State().Sane()
      modifies this`info, list
      ensures Valid() && list.repr == old(list.repr)
      ensures (State(), out) == ReadSome(old(State()), len)
    {
      out := [];
      if info.value.offset < info.value.length {
        var minLen := Min(info.value.length - info.value.offset, len);
        out := info.value.payload[info.value.offset..info.value.offset + minLen];
        info := Some(info.value.(offset := info.value.offset + minLen));
        if info.value.offset == info.value.length {
          ghost var was := list.Items();
          var tmp := list.PopFront();
          assert list.Items() == was[1..];
          info := Some(info.value.(prevId := tmp.value.id, valid := false));
        }
      }
      SelectHead();
    }

    /** Reply mode: unlinks the chunk with this id, if it is there. */
    method TakeById(id: u64) returns (r: Option<Chunk>)
      requires Valid() && Sorted(State().list, IdOf)
      modifies list, list.repr
      ensures Valid() && list.repr == old(list.repr)
      ensures var i := IndexOf(old(State()).list, IdOf, id);
        if i < |old(State()).list|
        then r == Some(old(State()).list[i]) && State() == RecvState(Without(old(State()).list, i), info)
        else r == None && State() == old(State())
    {
      r := list.TakeSorted(id, IdOf);
    }
  }
}
