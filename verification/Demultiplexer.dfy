/** Handing replies to the calls that wait for them, whatever order they come in. */
module Demultiplexers {
  import opened Bytes
  import opened Memory
  import opened Masking
  import opened LinkedLists
  import opened FrameHeaders
  import opened RecvContexts
  import opened Receivers

  /** A reply as the proxy server frames it, masked or not. */
  datatype Reply = Reply(payload: seq<byte>, key: Option<u32>)

  /** A reply starts with a call id, and its length fits the header. */
  predicate ReplyOk(r: Reply) {
    4 <= |r.payload| < TWO_64
  }

  predicate RepliesOk(rs: seq<Reply>) {
    forall i :: 0 <= i < |rs| ==> ReplyOk(rs[i])
  }

  function ReplyFrame(r: Reply): seq<byte> {
    Header(|r.payload|, r.key) + if r.key.Some? then Masked(r.payload, r.key.value) else r.payload
  }

  function ReplyWire(rs: seq<Reply>): seq<byte> {
    if rs == [] then [] else ReplyFrame(rs[0]) + ReplyWire(rs[1..])
  }

  function Chunks(rs: seq<Reply>): seq<Chunk>
    requires RepliesOk(rs)
  {
    if rs == [] then [] else [ReplyChunk(rs[0].payload)] + Chunks(rs[1..])
  }

  /** A framed reply is fetched and unmasked to what the server sent. */
  lemma FetchInvertsReply(r: Reply, rest: seq<byte>)
    requires ReplyOk(r)
    ensures !CutUnnoticed(ReplyFrame(r) + rest)
    ensures FetchFrame(ReplyFrame(r) + rest) == Some(Fetched(r.payload, rest))
  {
    hide ParseHeader, Header, Masked;
    var h := Header(|r.payload|, r.key);
    var body := if r.key.Some? then Masked(r.payload, r.key.value) else r.payload;
    var s := ReplyFrame(r) + rest;
    assert s == h + (body + rest);
    HeaderRoundTrip(|r.payload|, r.key, body + rest);
    assert s[|h|..|h| + |body|] == body && s[|h| + |body|..] == rest;
    if r.key.Some? {
      MaskingIsInvolutive(r.payload, r.key.value);
    }
  }

  lemma NothingToFetch()
    ensures FetchFrame([]) == None && ReplyFramed([])
  {
  }

  lemma {:induction false} ReplyWireIsFramed(rs: seq<Reply>)
    requires RepliesOk(rs)
    ensures ReplyFramed(ReplyWire(rs))
  {
    hide ParseHeader;
    hide FetchFrame;
    if rs == [] {
      NothingToFetch();
    } else {
      FetchInvertsReply(rs[0], ReplyWire(rs[1..]));
      ReplyWireIsFramed(rs[1..]);
    }
  }

  /** The octets of replies, stashed or sent by the server. */
  function Octets(chunks: seq<Chunk>): seq<seq<byte>> {
    seq(|chunks|, i requires 0 <= i < |chunks| => chunks[i].payload)
  }

  function Sent(rs: seq<Reply>): seq<seq<byte>> {
    seq(|rs|, i requires 0 <= i < |rs| => rs[i].payload)
  }

  lemma OctetsAppend(a: seq<Chunk>, b: seq<Chunk>)
    ensures Octets(a + b) == Octets(a) + Octets(b)
  {
  }

  /** A stash that holds replies under the ids they start with. */
  predicate Filed(stash: seq<Chunk>) {
    forall i :: 0 <= i < |stash| ==> Carries(stash[i].payload, stash[i].id)
  }

  /** One chunk into the stash, or out of it, takes its octets along. */
  lemma OctetsOfInsert(stash: seq<Chunk>, c: Chunk)
    ensures multiset(Octets(Insert(stash, IdOf, c))) == multiset(Octets(stash)) + multiset{c.payload}
    ensures Filed(stash) && Carries(c.payload, c.id) ==> Filed(Insert(stash, IdOf, c))
  {
    hide Carries;
    var i := Position(stash, IdOf, IdOf(c));
    assert stash == stash[..i] + stash[i..];
    OctetsAppend(stash[..i], stash[i..]);
    OctetsAppend(stash[..i] + [c], stash[i..]);
    OctetsAppend(stash[..i], [c]);
    assert Octets([c]) == [c.payload];
  }

  lemma OctetsOfTake(stash: seq<Chunk>, i: nat)
    requires i < |stash|
    ensures multiset(Octets(stash)) == multiset{stash[i].payload} + multiset(Octets(Without(stash, i)))
    ensures Filed(stash) ==> Filed(Without(stash, i))
  {
    hide Carries;
    assert stash == stash[..i] + [stash[i]] + stash[i + 1..];
    OctetsAppend(stash[..i] + [stash[i]], stash[i + 1..]);
    OctetsAppend(stash[..i], [stash[i]]);
    OctetsAppend(stash[..i], stash[i + 1..]);
    assert Octets([stash[i]]) == [stash[i].payload];
  }

  lemma SentSplits(rs: seq<Reply>)
    requires rs != []
    ensures multiset(Sent(rs)) == multiset{rs[0].payload} + multiset(Sent(rs[1..]))
  {
    assert Sent(rs) == [rs[0].payload] + Sent(rs[1..]);
  }

  /** Everything known of replies: those stashed and those still on the wire. */
  function Known(stash: seq<Chunk>, rs: seq<Reply>): multiset<Chunk>
    requires RepliesOk(rs)
  {
    multiset(stash) + multiset(Chunks(rs))
  }

  ghost predicate Answered(m: multiset<Chunk>, id: u64) {
    exists c :: c in m && c.id == id
  }

  /** A reply to this call is stashed, or among those on the wire. */
  ghost predicate HasReply(stash: seq<Chunk>, rs: seq<Reply>, id: u64) {
    || (exists i :: 0 <= i < |stash| && stash[i].id == id)
    || (exists i :: 0 <= i < |rs| && Carries(rs[i].payload, id))
  }

  lemma {:induction false} ChunksAre(rs: seq<Reply>)
    requires RepliesOk(rs)
    ensures |Chunks(rs)| == |rs| && forall i :: 0 <= i < |rs| ==> Chunks(rs)[i] == ReplyChunk(rs[i].payload)
  {
    if rs != [] {
      ChunksAre(rs[1..]);
    }
  }

  lemma AnsweredMeans(stash: seq<Chunk>, rs: seq<Reply>, id: u64)
    requires RepliesOk(rs)
    ensures Answered(Known(stash, rs), id) <==> HasReply(stash, rs, id)
  {
    hide Carries, ReplyChunk;
    ChunksAre(rs);
    forall i | 0 <= i < |rs|
      ensures Carries(rs[i].payload, id) <==> Chunks(rs)[i].id == id
    {
      ReplyIsWhole(rs[i].payload, id);
    }
    hide Chunks;
    if c :| c in Known(stash, rs) && c.id == id {
      assert c in stash || c in Chunks(rs);
    }
    if i :| 0 <= i < |stash| && stash[i].id == id {
      assert stash[i] in Known(stash, rs);
    }
    if i :| 0 <= i < |rs| && Carries(rs[i].payload, id) {
      assert Chunks(rs)[i] in Known(stash, rs);
    }
  }

  /**
   From the first stash and wire to what was served and the second ones no reply
   was lost, cut or duplicated, and all is filed under the ids it starts with.
   */
  ghost predicate OctetsKept(stash: seq<Chunk>, rs: seq<Reply>, served: seq<Chunk>, stash': seq<Chunk>, rs': seq<Reply>) {
    && multiset(Octets(stash)) + multiset(Sent(rs)) ==
       multiset(Octets(served)) + multiset(Octets(stash')) + multiset(Sent(rs'))
    && (Filed(stash) ==> Filed(served) && Filed(stash'))
  }

  lemma KeptAsIs(stash: seq<Chunk>, rs: seq<Reply>)
    ensures OctetsKept(stash, rs, [], stash, rs)
  {
    hide Carries;
    assert Octets([]) == [];
  }

  lemma KeptByTake(stash: seq<Chunk>, rs: seq<Reply>, i: nat)
    requires i < |stash|
    ensures OctetsKept(stash, rs, [stash[i]], Without(stash, i), rs)
  {
    hide Carries, Without;
    OctetsOfTake(stash, i);
    assert Octets([stash[i]]) == [stash[i].payload];
  }

  lemma KeptByFetch(stash: seq<Chunk>, rs: seq<Reply>, c: Chunk, served: seq<Chunk>, stash': seq<Chunk>, rs': seq<Reply>)
    requires rs != [] && ReplyOk(rs[0]) && c == ReplyChunk(rs[0].payload)
    requires OctetsKept(Insert(stash, IdOf, c), rs[1..], served, stash', rs')
    ensures OctetsKept(stash, rs, served, stash', rs')
  {
    hide Carries, Insert, ReplyChunk, Octets, Sent, Filed;
    ReplyIsWhole(rs[0].payload, c.id);
    OctetsOfInsert(stash, c);
    SentSplits(rs);
  }

  lemma KeptTwice(stash: seq<Chunk>, rs: seq<Reply>, c: Chunk, stash': seq<Chunk>, rs': seq<Reply>,
                  served: seq<Chunk>, stash'': seq<Chunk>, rs'': seq<Reply>)
    requires OctetsKept(stash, rs, [c], stash', rs') && OctetsKept(stash', rs', served, stash'', rs'')
    ensures OctetsKept(stash, rs, [c] + served, stash'', rs'')
  {
    hide Octets, Sent, Filed;
    OctetsAppend([c], served);
    MultisetOfBoth(Octets([c]), Octets(served));
    var m := multiset(Octets([c]));
    assert m + multiset(Octets(stash')) + multiset(Sent(rs')) == m + (multiset(Octets(stash')) + multiset(Sent(rs')));
    assert m + (multiset(Octets(served)) + multiset(Octets(stash'')) + multiset(Sent(rs''))) ==
      m + multiset(Octets(served)) + multiset(Octets(stash'')) + multiset(Sent(rs''));
    if Filed(stash) {
      FiledAppend(c, served);
    }
  }

  lemma MultisetOfBoth<T>(a: seq<T>, b: seq<T>)
    ensures multiset(a + b) == multiset(a) + multiset(b)
  {
  }

  lemma FiledAppend(c: Chunk, served: seq<Chunk>)
    requires Filed([c]) && Filed(served)
    ensures Filed([c] + served)
  {
    hide Carries;
    var s := [c] + served;
    forall i | 0 <= i < |s|
      ensures Carries(s[i].payload, s[i].id)
    {
      assert s[i] == if i == 0 then [c][0] else served[i - 1];
    }
  }

  lemma KnownByTake(stash: seq<Chunk>, rs: seq<Reply>, i: nat)
    requires RepliesOk(rs) && i < |stash|
    ensures Known(stash, rs) == multiset{stash[i]} + Known(Without(stash, i), rs) && stash[i] in Known(stash, rs)
  {
    hide Without, Chunks;
    TakeOne(stash, i);
  }

  lemma KnownByFetch(stash: seq<Chunk>, rs: seq<Reply>)
    requires RepliesOk(rs) && rs != []
    ensures Known(stash, rs) == Known(Insert(stash, IdOf, ReplyChunk(rs[0].payload)), rs[1..])
  {
    hide Insert, ReplyChunk;
    InsertAdds(stash, IdOf, ReplyChunk(rs[0].payload));
  }

  lemma KnownStash(stash: seq<Chunk>)
    ensures Known(stash, []) == multiset(stash) == multiset{} + Known(stash, [])
  {
  }

  /** What one wait does, by what is known of replies and by their octets. */
  ghost predicate Awaited(stash: seq<Chunk>, rs: seq<Reply>, id: u64, r: ReplyResult, rs': seq<Reply>)
    requires RepliesOk(rs) && RepliesOk(rs')
  {
    && r.rest == ReplyWire(rs')
    && (r.reply.Some? <==> Answered(Known(stash, rs), id))
    && (r.reply.Some? ==> r.reply.value.id == id)
    && Known(stash, rs) == (if r.reply.Some? then multiset{r.reply.value} else multiset{}) + Known(r.stash, rs')
    && OctetsKept(stash, rs, if r.reply.Some? then [r.reply.value] else [], r.stash, rs')
  }

  lemma AwaitedInStash(stash: seq<Chunk>, rs: seq<Reply>, id: u64, i: nat)
    requires RepliesOk(rs) && i < |stash| && stash[i].id == id
    ensures Awaited(stash, rs, id, ReplyResult(Some(stash[i]), Without(stash, i), ReplyWire(rs)), rs)
  {
    hide Known, OctetsKept, Without, ReplyWire;
    KnownByTake(stash, rs, i);
    KeptByTake(stash, rs, i);
  }

  lemma AwaitedInVain(stash: seq<Chunk>, id: u64)
    requires IndexOf(stash, IdOf, id) == |stash|
    ensures Awaited(stash, [], id, ReplyResult(None, stash, []), [])
  {
    hide Known, OctetsKept;
    KnownStash(stash);
    NotInStash(stash, id);
    KeptAsIs(stash, []);
  }

  lemma AwaitedBehind(stash: seq<Chunk>, rs: seq<Reply>, id: u64, c: Chunk, r: ReplyResult, rs': seq<Reply>)
    requires RepliesOk(rs) && RepliesOk(rs') && rs != [] && c == ReplyChunk(rs[0].payload)
    requires Awaited(Insert(stash, IdOf, c), rs[1..], id, r, rs')
    ensures Awaited(stash, rs, id, r, rs')
  {
    hide Known, OctetsKept, Insert, ReplyWire, ReplyChunk, Answered;
    KnownByFetch(stash, rs);
    KeptByFetch(stash, rs, c, if r.reply.Some? then [r.reply.value] else [], r.stash, rs');
  }

  lemma {:induction false} AwaitOne(stash: seq<Chunk>, rs: seq<Reply>, id: u64) returns (k: nat)
    requires RepliesOk(rs)
    ensures k <= |rs| && ReplyFramed(ReplyWire(rs))
    ensures Awaited(stash, rs, id, AwaitReply(stash, ReplyWire(rs), id), rs[k..])
    decreases rs
  {
    hide FetchFrame, Insert, Carries, ReplyChunk, ReplyFrame, Without, Awaited;
    ReplyWireIsFramed(rs);
    assert rs[0..] == rs;
    k := 0;
    var i := IndexOf(stash, IdOf, id);
    if i < |stash| {
      assert IdOf(stash[i]) == id;
      AwaitedInStash(stash, rs, id, i);
    } else if rs == [] {
      NothingToFetch();
      AwaitedInVain(stash, id);
    } else {
      FetchInvertsReply(rs[0], ReplyWire(rs[1..]));
      var c := ReplyChunk(rs[0].payload);
      var j := AwaitOne(Insert(stash, IdOf, c), rs[1..], id);
      k := j + 1;
      assert rs[1..][j..] == rs[k..];
      AwaitedBehind(stash, rs, id, c, AwaitReply(stash, ReplyWire(rs), id), rs[k..]);
    }
  }

  /**
   Waiting for one reply: it comes exactly if there is one that starts with that
   id, whole, and every other reply is still there with all its octets, in the
   stash or on the wire. Without one, everything ends up in the stash.
   */
  lemma AwaitConserves(stash: seq<Chunk>, rs: seq<Reply>, id: u64) returns (k: nat)
    requires RepliesOk(rs)
    ensures k <= |rs| && ReplyFramed(ReplyWire(rs))
    ensures
      var r := AwaitReply(stash, ReplyWire(rs), id);
      && (r.reply.Some? <==> HasReply(stash, rs, id))
      && r.rest == ReplyWire(rs[k..])
      && (r.reply.Some? ==> r.reply.value.id == id && (Filed(stash) ==> Carries(r.reply.value.payload, id)))
      && (Filed(stash) ==> Filed(r.stash))
      && multiset(Octets(stash)) + multiset(Sent(rs)) ==
         (if r.reply.Some? then multiset{r.reply.value.payload} else multiset{}) +
         multiset(Octets(r.stash)) + multiset(Sent(rs[k..]))
  {
    hide AwaitReply, Known, Answered, HasReply, Carries, ReplyWire;
    k := AwaitOne(stash, rs, id);
    AnsweredMeans(stash, rs, id);
    var r := AwaitReply(stash, ReplyWire(rs), id);
    if r.reply.Some? {
      var c := r.reply.value;
      assert [c][0] == c && Octets([c]) == [c.payload];
    }
  }

  lemma TakeOne<T>(s: seq<T>, i: nat)
    requires i < |s|
    ensures multiset(s) == multiset{s[i]} + multiset(Without(s, i))
  {
    assert s == s[..i] + [s[i]] + s[i + 1..];
  }

  lemma NotInStash(stash: seq<Chunk>, id: u64)
    requires IndexOf(stash, IdOf, id) == |stash|
    ensures !Answered(multiset(stash), id)
  {
    forall c | c in multiset(stash)
      ensures c.id != id
    {
      var k :| 0 <= k < |stash| && stash[k] == c;
      assert IdOf(stash[k]) != id;
    }
  }

  /** The network thread: one wait after another, as long as replies come. */
  function ServeAll(stash: seq<Chunk>, bytes: seq<byte>, ids: seq<u64>): (r: (seq<Chunk>, seq<Chunk>, seq<byte>))
    requires ReplyFramed(bytes)
    ensures |r.0| <= |ids|
    decreases |ids|
  {
    if ids == [] then ([], stash, bytes) else
    var first := AwaitReply(stash, bytes, ids[0]);
    if first.reply.None? || !ReplyFramed(first.rest) then ([], first.stash, first.rest) else
    var (served, stash', rest) := ServeAll(first.stash, first.rest, ids[1..]);
    ([first.reply.value] + served, stash', rest)
  }

  ghost predicate AllAnswered(m: multiset<Chunk>, ids: seq<u64>) {
    forall i :: 0 <= i < |ids| ==> Answered(m, ids[i])
  }

  /** Taking one reply out leaves the replies of all other calls. */
  lemma OthersStay(m: multiset<Chunk>, c: Chunk, m': multiset<Chunk>, ids: seq<u64>)
    requires m == multiset{c} + m' && ids != [] && c.id == ids[0] && Distinct(ids) && AllAnswered(m, ids)
    ensures AllAnswered(m', ids[1..]) && Distinct(ids[1..])
  {
    forall i | 0 <= i < |ids[1..]|
      ensures Answered(m', ids[1..][i])
    {
      assert Answered(m, ids[i + 1]);
      var d :| d in m && d.id == ids[i + 1];
      assert d != c;
    }
  }

  predicate Distinct(ids: seq<u64>) {
    forall i, j :: 0 <= i < j < |ids| ==> ids[i] != ids[j]
  }

  /** All calls, served one after the other. */
  lemma {:induction false} ServeInTurn(stash: seq<Chunk>, rs: seq<Reply>, ids: seq<u64>) returns (k: nat)
    requires RepliesOk(rs) && Distinct(ids)
    requires AllAnswered(Known(stash, rs), ids)
    ensures k <= |rs| && ReplyFramed(ReplyWire(rs))
    ensures
      var (served, stash', rest) := ServeAll(stash, ReplyWire(rs), ids);
      && |served| == |ids| && (forall i :: 0 <= i < |ids| ==> served[i].id == ids[i])
      && rest == ReplyWire(rs[k..])
      && OctetsKept(stash, rs, served, stash', rs[k..])
    decreases |ids|
  {
    hide AwaitReply, Known, Answered, Distinct, ReplyWire, ReplyFramed, OctetsKept;
    ReplyWireIsFramed(rs);
    if ids == [] {
      k := 0;
      assert rs[0..] == rs;
      KeptAsIs(stash, rs);
    } else {
      var j := AwaitOne(stash, rs, ids[0]);
      var first := AwaitReply(stash, ReplyWire(rs), ids[0]);
      assert Answered(Known(stash, rs), ids[0]);
      var c := first.reply.value;
      OthersStay(Known(stash, rs), c, Known(first.stash, rs[j..]), ids);
      ReplyWireIsFramed(rs[j..]);
      var l := ServeInTurn(first.stash, rs[j..], ids[1..]);
      k := j + l;
      assert rs[j..][l..] == rs[k..];
      var (served, stash', rest) := ServeAll(first.stash, first.rest, ids[1..]);
      KeptTwice(stash, rs, c, first.stash, rs[j..], served, stash', rs[k..]);
    }
  }

  /**
   Calls served in any order get the replies that start with their ids, whole,
   and no reply is lost, cut, duplicated or handed to another call.
   */
  lemma EveryCallGetsItsReply(stash: seq<Chunk>, rs: seq<Reply>, ids: seq<u64>) returns (k: nat)
    requires RepliesOk(rs) && Distinct(ids) && Filed(stash)
    requires forall i :: 0 <= i < |ids| ==> HasReply(stash, rs, ids[i])
    ensures k <= |rs| && ReplyFramed(ReplyWire(rs))
    ensures
      var (served, stash', rest) := ServeAll(stash, ReplyWire(rs), ids);
      && |served| == |ids| && (forall i :: 0 <= i < |ids| ==> Carries(served[i].payload, ids[i]))
      && rest == ReplyWire(rs[k..]) && Filed(stash')
      && multiset(Octets(stash)) + multiset(Sent(rs)) ==
         multiset(Octets(served)) + multiset(Octets(stash')) + multiset(Sent(rs[k..]))
  {
    hide ServeAll, Known, Answered, HasReply, Carries, ReplyWire;
    forall i | 0 <= i < |ids|
      ensures Answered(Known(stash, rs), ids[i])
    {
      AnsweredMeans(stash, rs, ids[i]);
    }
    k := ServeInTurn(stash, rs, ids);
  }
}
