/**
 The receive context over whole runs: chunks arrive in any order, the peer
 closes at some point, and a reader takes octets in calls of any size.
 */
module ReorderRuns {
  import opened Bytes
  import opened Memory
  import opened LinkedLists
  import opened RecvContexts

  /** A reader outside `RecvFromRecvProxyCtx`, with what its last call returned, or inside it with what it has so far. */
  datatype Reader = Idle(result: seq<byte>) | InCall(len: nat, got: seq<byte>)

  datatype World = World(
    ctx: RecvState,
    /** `recv_zero`: no chunk comes any more. */
    closed: bool,
    reader: Reader,
    /** History: payloads by id, and all octets given to the reader. */
    arrived: map<u64, seq<byte>>,
    delivered: seq<byte>)

  datatype Event = Arrive(id: u64, payload: seq<byte>) | Close | Call(len: nat) | Turn

  const START := World(RecvState([], None), false, Idle([]), map[], [])

  /** Chunks have non-empty payloads and ids of their own, counted from 1. */
  predicate Arrives(w: World, id: u64, payload: seq<byte>) {
    id > 0 && id !in w.arrived && payload != []
  }

  /** `cond.wait` in the receive loop holds the reader back. */
  predicate Waiting(w: World) {
    !w.ctx.Valid() && !w.closed
  }

  /** One event; an event that cannot happen changes nothing. A turn is one pass of the loop under the lock. */
  function Step(w: World, e: Event): World {
    match e
    case Arrive(id, payload) =>
      if !w.closed && Arrives(w, id, payload)
      then w.(ctx := PutChunk(w.ctx, Chunk(id, payload)), arrived := w.arrived[id := payload])
      else w
    case Close => w.(closed := true)
    case Call(len) => if w.reader.Idle? then w.(reader := InCall(len, [])) else w
    case Turn =>
      if w.reader.Idle? then w
      else if |w.reader.got| >= w.reader.len then w.(reader := Idle(w.reader.got))
      else if Waiting(w) then w
      else if w.closed && Empty(w.ctx) then w.(reader := Idle(w.reader.got))
      // never arises: `ShortOnlyAfterDrain` shows that here the cursor is valid and inside its chunk
      else if !w.ctx.Valid() || !w.ctx.Sane() then w
      else
        var (ctx, out) := ReadSome(w.ctx, w.reader.len - |w.reader.got|);
        w.(ctx := ctx, delivered := w.delivered + out, reader := w.reader.(got := w.reader.got + out))
  }

  function Run(w: World, events: seq<Event>): World
    decreases |events|
  {
    if events == [] then w else Run(Step(w, events[0]), events[1..])
  }

  /** What arrived: the first non-empty payload for each id other than 0, up to the close. */
  function ArrivedBy(arrived: map<u64, seq<byte>>, closed: bool, events: seq<Event>): map<u64, seq<byte>>
    decreases |events|
  {
    if events == [] then arrived
    else match events[0]
      case Arrive(id, payload) =>
        var counts := !closed && id > 0 && id !in arrived && payload != [];
        ArrivedBy(if counts then arrived[id := payload] else arrived, closed, events[1..])
      case Close => ArrivedBy(arrived, true, events[1..])
      case _ => ArrivedBy(arrived, closed, events[1..])
  }

  /** The history is just that. */
  lemma {:induction false} ArrivalsAreKept(w: World, events: seq<Event>)
    ensures Run(w, events).arrived == ArrivedBy(w.arrived, w.closed, events)
    decreases |events|
  {
    hide PutChunk, ReadSome, Empty;
    if events != [] {
      ArrivalsAreKept(Step(w, events[0]), events[1..]);
    }
  }

  /** The last id that was finished. */
  function Prev(s: RecvState): u64 {
    if s.info.None? then 0 else s.info.value.prevId
  }

  /** All of the ids 1..k. */
  predicate Has(arrived: map<u64, seq<byte>>, k: nat) {
    k < TWO_64 && forall i :: 1 <= i <= k ==> i in arrived
  }

  /** The payloads of ids 1..k in id order. */
  function Prefix(arrived: map<u64, seq<byte>>, k: nat): seq<byte>
    requires Has(arrived, k)
  {
    if k == 0 then [] else Prefix(arrived, k - 1) + arrived[k]
  }

  /** The ids up to `k` are there and the next one is missing. */
  predicate Horizon(arrived: map<u64, seq<byte>>, k: nat) {
    Has(arrived, k) && k + 1 !in arrived
  }

  /** The list holds exactly the chunks that arrived after the last finished one, strictly sorted. */
  ghost predicate Queued(list: seq<Chunk>, prev: u64, arrived: map<u64, seq<byte>>) {
    && StrictlySorted(list)
    && (forall c :: c in list ==> c.id > prev && c.id in arrived && arrived[c.id] == c.payload)
    && (forall id :: id in arrived && id > prev ==> Chunk(id, arrived[id]) in list)
  }

  /** The cursor stands in the head of the list exactly when that is the next id. */
  predicate CursorOk(s: RecvState) {
    if s.Valid() then
      var i := s.info.value;
      && s.list != [] && s.list[0].id == Prev(s) + 1
      && i.payload == s.list[0].payload && i.length == |i.payload| && i.offset < i.length
    else
      s.list == [] || s.list[0].id != Prev(s) + 1
  }

  function Partial(s: RecvState): seq<byte>
    requires CursorOk(s)
  {
    if s.Valid() then s.info.value.payload[..s.info.value.offset] else []
  }

  /** The receive context holds what arrived and was not delivered. */
  ghost predicate CtxOk(s: RecvState, arrived: map<u64, seq<byte>>) {
    && (forall id :: id in arrived ==> id > 0 && arrived[id] != [])
    && Queued(s.list, Prev(s), arrived)
    && Has(arrived, Prev(s))
    && CursorOk(s)
  }

  /** The octets delivered by the time the context is in this state. */
  ghost function Content(s: RecvState, arrived: map<u64, seq<byte>>): seq<byte>
    requires CtxOk(s, arrived)
  {
    Prefix(arrived, Prev(s)) + Partial(s)
  }

  ghost predicate Inv(w: World) {
    CtxOk(w.ctx, w.arrived) && w.delivered == Content(w.ctx, w.arrived) && CallOk(w)
  }

  /** The current call has collected the last octets delivered, and no more than it was asked for. */
  predicate CallOk(w: World) {
    w.reader.InCall? ==>
      |w.reader.got| <= w.reader.len && EndsWith(w.delivered, w.reader.got)
  }

  predicate EndsWith(s: seq<byte>, t: seq<byte>) {
    |t| <= |s| && s[|s| - |t|..] == t
  }

  lemma StartsWell()
    ensures Inv(START)
  {
  }

  lemma {:induction false} PrefixStable(arrived: map<u64, seq<byte>>, id: u64, payload: seq<byte>, k: nat)
    requires Has(arrived, k) && id !in arrived
    ensures Has(arrived[id := payload], k)
    ensures Prefix(arrived[id := payload], k) == Prefix(arrived, k)
  {
    if k > 0 {
      PrefixStable(arrived, id, payload, k - 1);
    }
  }

  ghost predicate StrictlySorted(list: seq<Chunk>) {
    forall i, j :: 0 <= i < j < |list| ==> list[i].id < list[j].id
  }

  /** A new id splits a sorted list into smaller and larger ids. */
  lemma SplitsAt(list: seq<Chunk>, c: Chunk) returns (i: nat)
    requires StrictlySorted(list) && forall x :: x in list ==> x.id != c.id
    ensures i <= |list| && Insert(list, IdOf, c) == list[..i] + [c] + list[i..]
    ensures forall k :: 0 <= k < i ==> list[k].id < c.id
    ensures forall k :: i <= k < |list| ==> c.id < list[k].id
  {
    PositionMeans(list, IdOf, c.id);
    i := Position(list, IdOf, c.id);
    forall k | 0 <= k < i
      ensures list[k].id < c.id
    {
      assert IdOf(list[k]) <= c.id;
      assert list[k] in list;
    }
    assert i < |list| ==> c.id < IdOf(list[i]);
  }

  lemma SplicedSorted(list: seq<Chunk>, c: Chunk, i: nat)
    requires StrictlySorted(list) && i <= |list|
    requires forall k :: 0 <= k < i ==> list[k].id < c.id
    requires forall k :: i <= k < |list| ==> c.id < list[k].id
    ensures StrictlySorted(list[..i] + [c] + list[i..])
  {
    var r := list[..i] + [c] + list[i..];
    forall a, b | 0 <= a < b < |r|
      ensures r[a].id < r[b].id
    {
      assert r[a] == if a < i then list[a] else if a == i then c else list[a - 1];
      assert r[b] == if b < i then list[b] else if b == i then c else list[b - 1];
    }
  }

  lemma SplicedMembers(list: seq<Chunk>, c: Chunk, i: nat, x: Chunk)
    requires i <= |list|
    ensures x in list[..i] + [c] + list[i..] <==> x == c || x in list
  {
    assert list == list[..i] + list[i..];
  }

  /** A new chunk goes to its place in the list. */
  lemma InsertQueues(list: seq<Chunk>, prev: u64, arrived: map<u64, seq<byte>>, c: Chunk)
    requires Queued(list, prev, arrived) && c.id > prev && c.id !in arrived
    ensures Queued(Insert(list, IdOf, c), prev, arrived[c.id := c.payload])
    ensures Insert(list, IdOf, c)[0] == if list != [] && list[0].id < c.id then list[0] else c
  {
    hide Insert, StrictlySorted;
    var i := SplitsAt(list, c);
    var r := Insert(list, IdOf, c);
    SplicedSorted(list, c, i);
    forall x
      ensures x in r <==> x == c || x in list
    {
      SplicedMembers(list, c, i, x);
    }
    var arrived' := arrived[c.id := c.payload];
    forall id | id in arrived' && id > prev
      ensures Chunk(id, arrived'[id]) in r
    {
      assert id == c.id || Chunk(id, arrived[id]) in list;
    }
  }

  /** Once the cursor is looked at again it is valid exactly when the next id heads the list. */
  lemma SelectIsOk(list: seq<Chunk>, info: RecvInfo)
    requires !info.valid && forall c :: c in list ==> c.id > info.prevId && c.payload != []
    ensures
      var s := RecvState(list, Some(Select(list, info)));
      && CursorOk(s) && Prev(s) == info.prevId && Partial(s) == []
      && (s.Valid() <==> list != [] && list[0].id == info.prevId + 1)
  {
    if list != [] {
      assert list[0] in list;
    }
  }

  /** An arrival behind a valid cursor leaves the cursor where it is. */
  lemma PutBehind(s: RecvState, arrived: map<u64, seq<byte>>, c: Chunk)
    requires CtxOk(s, arrived) && s.Valid() && c.id > 0 && c.id !in arrived && c.payload != []
    ensures
      var t, m := PutChunk(s, c), arrived[c.id := c.payload];
      CtxOk(t, m) && Content(t, m) == Content(s, arrived)
  {
    hide Insert;
    InsertQueues(s.list, Prev(s), arrived, c);
    PrefixStable(arrived, c.id, c.payload, Prev(s));
    assert s.list[0] in s.list;
  }

  /** An arrival with the cursor invalid may be the one it waits for. */
  lemma PutWhileInvalid(s: RecvState, arrived: map<u64, seq<byte>>, c: Chunk)
    requires CtxOk(s, arrived) && !s.Valid() && c.id > 0 && c.id !in arrived && c.payload != []
    ensures
      var t, m := PutChunk(s, c), arrived[c.id := c.payload];
      CtxOk(t, m) && Content(t, m) == Content(s, arrived)
  {
    hide Insert;
    InsertQueues(s.list, Prev(s), arrived, c);
    PrefixStable(arrived, c.id, c.payload, Prev(s));
    SelectIsOk(Insert(s.list, IdOf, c), if s.info.Some? then s.info.value else NO_CURSOR);
  }

  /** Reading part of the current chunk moves the cursor along. */
  lemma ReadPart(s: RecvState, arrived: map<u64, seq<byte>>, n: nat)
    requires CtxOk(s, arrived) && s.Valid() && 0 < n < s.info.value.length - s.info.value.offset
    ensures
      var (t, out) := ReadSome(s, n);
      CtxOk(t, arrived) && Content(t, arrived) == Content(s, arrived) + out && out != []
  {
    var i := s.info.value;
    assert i.payload[..i.offset] + i.payload[i.offset..i.offset + n] == i.payload[..i.offset + n];
  }

  /** Reading the rest of the current chunk finishes its id. */
  lemma ReadRest(s: RecvState, arrived: map<u64, seq<byte>>, n: nat)
    requires CtxOk(s, arrived) && s.Valid() && s.info.value.length - s.info.value.offset <= n
    ensures
      var (t, out) := ReadSome(s, n);
      CtxOk(t, arrived) && Content(t, arrived) == Content(s, arrived) + out && out != []
  {
    var i, prev := s.info.value, Prev(s);
    assert s.list[0] in s.list;
    assert Has(arrived, prev + 1);
    PrefixSteps(arrived, prev);
    RestQueued(s.list, prev, arrived);
    SelectIsOk(s.list[1..], i.(offset := i.length, prevId := s.list[0].id, valid := false));
    hide Queued, Prefix, Select, Has;
    WholePayload(Prefix(arrived, prev), i.payload, i.offset);
  }

  lemma PrefixSteps(arrived: map<u64, seq<byte>>, k: nat)
    requires Has(arrived, k + 1)
    ensures Prefix(arrived, k + 1) == Prefix(arrived, k) + arrived[k + 1]
  {
  }

  lemma WholePayload(front: seq<byte>, payload: seq<byte>, offset: nat)
    requires offset <= |payload|
    ensures front + payload + [] == front + payload[..offset] + payload[offset..|payload|]
  {
    assert payload == payload[..offset] + payload[offset..|payload|];
  }

  lemma TurnKeeps(w: World)
    requires Inv(w)
    ensures Inv(Step(w, Turn))
    ensures
      w.reader.InCall? && |w.reader.got| < w.reader.len && w.ctx.Valid() ==>
        !Empty(w.ctx) && |Step(w, Turn).delivered| > |w.delivered|
  {
    hide CtxOk, ReadSome, Content;
    CursorInside(w);
    if w.reader.InCall? && |w.reader.got| < w.reader.len && w.ctx.Valid() {
      var n := w.reader.len - |w.reader.got|;
      if n < w.ctx.info.value.length - w.ctx.info.value.offset {
        ReadPart(w.ctx, w.arrived, n);
      } else {
        ReadRest(w.ctx, w.arrived, n);
      }
    }
  }

  lemma CursorInside(w: World)
    requires Inv(w)
    ensures CursorOk(w.ctx) && w.ctx.Sane() && (w.ctx.Valid() ==> !Empty(w.ctx))
  {
  }

  /** With its head finished, the rest of the list is what arrived after it. */
  lemma RestQueued(list: seq<Chunk>, prev: u64, arrived: map<u64, seq<byte>>)
    requires Queued(list, prev, arrived) && list != [] && list[0].id == prev + 1
    ensures Queued(list[1..], prev + 1, arrived)
  {
    forall id | id in arrived && id > prev + 1
      ensures Chunk(id, arrived[id]) in list[1..]
    {
      assert Chunk(id, arrived[id]) in list && Chunk(id, arrived[id]) != list[0];
    }
    forall c | c in list[1..]
      ensures c.id > prev + 1
    {
      var k :| 1 <= k < |list| && list[k] == c;
    }
  }

  lemma {:induction false} RunKeeps(w: World, events: seq<Event>)
    requires Inv(w)
    ensures Inv(Run(w, events))
    decreases |events|
  {
    hide Inv;
    hide Step;
    if events != [] {
      StepKeeps(w, events[0]);
      RunKeeps(Step(w, events[0]), events[1..]);
    }
  }

  lemma StepKeeps(w: World, e: Event)
    requires Inv(w)
    ensures Inv(Step(w, e))
  {
    hide CtxOk, Content, PutChunk, ReadSome;
    match e
    case Arrive(id, payload) =>
      if Arrives(w, id, payload) {
        if w.ctx.Valid() {
          PutBehind(w.ctx, w.arrived, Chunk(id, payload));
        } else {
          PutWhileInvalid(w.ctx, w.arrived, Chunk(id, payload));
        }
      }
    case Turn => TurnKeeps(w);
    case _ =>
  }

  /** In every run the cursor is valid exactly when the id after the last finished one is queued. */
  lemma CursorIsExact(events: seq<Event>)
    ensures
      var w := Run(START, events);
      w.ctx.Valid() <==> exists c :: c in w.ctx.list && c.id == Prev(w.ctx) + 1
  {
    StartsWell();
    RunKeeps(START, events);
    var w := Run(START, events);
    if w.ctx.Valid() {
      assert w.ctx.list[0] in w.ctx.list && w.ctx.list[0].id == Prev(w.ctx) + 1;
    }
    if c :| c in w.ctx.list && c.id == Prev(w.ctx) + 1 {
      NextIsHead(w);
    }
  }

  /** `k` is where the ids without a gap end; what precedes any earlier point is a prefix of it. */
  lemma {:induction false} PrefixGrows(arrived: map<u64, seq<byte>>, j: nat, k: nat)
    requires j <= k && Has(arrived, k)
    ensures Prefix(arrived, j) <= Prefix(arrived, k)
    decreases k - j
  {
    if j < k {
      PrefixGrows(arrived, j, k - 1);
    }
  }

  /** Delivery follows the ids and never crosses a gap, whatever the order of arrival. */
  lemma DeliveredInIdOrder(events: seq<Event>, k: nat)
    requires Horizon(ArrivedBy(map[], false, events), k)
    ensures Run(START, events).delivered <= Prefix(ArrivedBy(map[], false, events), k)
  {
    hide ArrivedBy;
    StartsWell();
    RunKeeps(START, events);
    ArrivalsAreKept(START, events);
    ReachesHorizon(Run(START, events), k);
  }

  /** There always is a first missing id. */
  lemma HorizonExists(arrived: map<u64, seq<byte>>, from: nat) returns (k: nat)
    requires Has(arrived, from)
    ensures Horizon(arrived, k)
    decreases TWO_64 - from
  {
    k := from;
    if k + 1 in arrived {
      k := HorizonExists(arrived, k + 1);
    }
  }

  /** Delivery stops at the gap, and with the cursor invalid it has got all the way there. */
  lemma ReachesHorizon(w: World, k: nat)
    requires Inv(w) && Horizon(w.arrived, k)
    ensures w.delivered <= Prefix(w.arrived, k)
    ensures !w.ctx.Valid() ==> w.delivered == Prefix(w.arrived, k)
  {
    var prev := Prev(w.ctx);
    assert prev <= k;
    if w.ctx.Valid() {
      assert w.ctx.list[0] in w.ctx.list;
      assert Has(w.arrived, prev + 1);
      PrefixGrows(w.arrived, prev + 1, k);
    } else if prev < k {
      NextIsHead(w);
    }
  }

  /** If the id after the last finished one has arrived, it heads the list. */
  lemma NextIsHead(w: World)
    requires Inv(w) && Prev(w.ctx) + 1 in w.arrived
    ensures w.ctx.list != [] && w.ctx.list[0].id == Prev(w.ctx) + 1 && w.ctx.Valid()
  {
    var id := Prev(w.ctx) + 1;
    assert Chunk(id, w.arrived[id]) in w.ctx.list;
    assert w.ctx.list[0] in w.ctx.list;
  }

  lemma ShortFromInv(w: World, k: nat)
    requires Inv(w) && w.reader.InCall? && |w.reader.got| < w.reader.len && Horizon(w.arrived, k)
    ensures
      var v := Step(w, Turn);
      && (v.reader.Idle? ==> w.closed && w.delivered == Prefix(w.arrived, k) && EndsWith(w.delivered, w.reader.got))
      && (!Waiting(w) && !(w.closed && Empty(w.ctx)) ==> w.ctx.Valid() && w.ctx.Sane() && |v.delivered| > |w.delivered|)
  {
    hide CtxOk;
    hide ReadSome;
    ReachesHorizon(w, k);
    TurnKeeps(w);
    CursorInside(w);
  }

  /**
   A call that returns less than it was asked for does so after the close, with
   every octet up to the first missing id delivered; and the loop reads the
   cursor only when it is valid, and then gets at least one octet.
   */
  lemma ShortOnlyAfterDrain(events: seq<Event>, k: nat)
    requires
      var w := Run(START, events);
      w.reader.InCall? && |w.reader.got| < w.reader.len && Horizon(w.arrived, k)
    ensures
      var w := Run(START, events);
      var v := Step(w, Turn);
      && (v.reader.Idle? ==> w.closed && w.delivered == Prefix(w.arrived, k) && EndsWith(w.delivered, w.reader.got))
      && (!Waiting(w) && !(w.closed && Empty(w.ctx)) ==> w.ctx.Valid() && w.ctx.Sane() && |v.delivered| > |w.delivered|)
  {
    hide Inv;
    hide Step;
    StartsWell();
    RunKeeps(START, events);
    ShortFromInv(Run(START, events), k);
  }

  // ----- when a call ends

  function Turns(n: nat): (s: seq<Event>)
    ensures |s| == n && forall i :: 0 <= i < n ==> s[i] == Turn
  {
    seq(n, _ => Turn)
  }

  lemma {:induction false} IdleStays(w: World, n: nat)
    requires w.reader.Idle?
    ensures Run(w, Turns(n)) == w
  {
    if n > 0 {
      assert Turns(n)[1..] == Turns(n - 1);
      IdleStays(w, n - 1);
    }
  }

  /** What a call has, and the octets that follow up to the first missing id. */
  function Within(w: World, k: nat): seq<byte>
    requires w.reader.InCall? && Has(w.arrived, k)
  {
    var all := Prefix(w.arrived, k);
    w.reader.got + if |w.delivered| <= |all| then all[|w.delivered|..] else []
  }

  function AtMost(s: seq<byte>, n: nat): seq<byte> {
    if |s| <= n then s else s[..n]
  }

  /** It can end: the peer closed, or all that it asks for is there. */
  predicate CanEnd(w: World, k: nat)
    requires w.reader.InCall? && Has(w.arrived, k)
  {
    w.closed || |Within(w, k)| >= w.reader.len
  }

  lemma ReadTakes(s: RecvState, n: nat)
    requires CursorOk(s) && s.Valid() && s.Sane() && n > 0
    ensures s.list != [] && (|ReadSome(s, n).1| == n || |ReadSome(s, n).0.list| < |s.list|)
  {
  }

  /** What was taken out of the rest is a prefix of it. */
  lemma TakenFromRest(all: seq<byte>, was: seq<byte>, out: seq<byte>, got: seq<byte>)
    requires was + out <= all
    ensures got + out + all[|was + out|..] == got + all[|was|..]
  {
    assert all[|was|..] == out + all[|was + out|..];
  }

  /** A pass that reads takes the next octets, and finishes a chunk or the call's share. */
  lemma TurnReads(w: World, k: nat)
    requires Inv(w) && w.reader.InCall? && |w.reader.got| < w.reader.len && w.ctx.Valid() && Horizon(w.arrived, k)
    ensures
      var v := Step(w, Turn);
      && v.closed == w.closed && v.arrived == w.arrived && w.ctx.list != []
      && v.reader.InCall? && v.reader.len == w.reader.len && Within(v, k) == Within(w, k)
      && (|v.reader.got| == v.reader.len || |v.ctx.list| < |w.ctx.list|)
  {
    hide CtxOk, Content, Prefix, ReadSome, CursorOk;
    ReachesHorizon(w, k);
    CursorInside(w);
    TurnKeeps(w);
    var v, n := Step(w, Turn), w.reader.len - |w.reader.got|;
    ReadTakes(w.ctx, n);
    ReachesHorizon(v, k);
    TakenFromRest(Prefix(w.arrived, k), w.delivered, ReadSome(w.ctx, n).1, w.reader.got);
  }

  /** Every other pass ends the call, if it can end. */
  lemma LastTurn(w: World, k: nat)
    requires Inv(w) && w.reader.InCall? && Horizon(w.arrived, k)
    requires |w.reader.got| >= w.reader.len || !w.ctx.Valid()
    ensures CanEnd(w, k) ==> Step(w, Turn).reader == Idle(AtMost(Within(w, k), w.reader.len))
    ensures !CanEnd(w, k) ==> Step(w, Turn) == w
  {
    hide CtxOk, Content, Prefix, ReadSome, CursorOk;
    ReachesHorizon(w, k);
    CursorInside(w);
    var all := Prefix(w.arrived, k);
    if |w.reader.got| >= w.reader.len {
      assert |w.reader.got| == w.reader.len;
      assert (w.reader.got + all[|w.delivered|..])[..w.reader.len] == w.reader.got;
    } else {
      assert w.reader.got + all[|all|..] == w.reader.got;
    }
  }

  /** Passes a call still needs. */
  function TurnsLeft(w: World): nat
    requires w.reader.InCall?
  {
    if |w.reader.got| >= w.reader.len then 1 else |w.ctx.list| + 1
  }

  lemma {:induction false} CallEnds(w: World, k: nat, n: nat)
    requires Inv(w) && w.reader.InCall? && Horizon(w.arrived, k) && CanEnd(w, k) && n >= TurnsLeft(w)
    ensures Run(w, Turns(n)).reader == Idle(AtMost(Within(w, k), w.reader.len))
    decreases n
  {
    hide Inv, Step, Within;
    assert Turns(n)[0] == Turn && Turns(n)[1..] == Turns(n - 1);
    StepKeeps(w, Turn);
    var v := Step(w, Turn);
    if |w.reader.got| >= w.reader.len || !w.ctx.Valid() {
      LastTurn(w, k);
      IdleStays(v, n - 1);
    } else {
      TurnReads(w, k);
      CallEnds(v, k, n - 1);
    }
  }

  lemma {:induction false} CallWaits(w: World, k: nat, n: nat)
    requires Inv(w) && w.reader.InCall? && Horizon(w.arrived, k) && !CanEnd(w, k)
    ensures Run(w, Turns(n)).reader.InCall?
    decreases n
  {
    hide Inv, Step, Within;
    if n > 0 {
      assert Turns(n)[0] == Turn && Turns(n)[1..] == Turns(n - 1);
      StepKeeps(w, Turn);
      if |w.reader.got| >= w.reader.len || !w.ctx.Valid() {
        LastTurn(w, k);
      } else {
        TurnReads(w, k);
      }
      CallWaits(Step(w, Turn), k, n - 1);
    }
  }

  lemma CallFrom(w: World, k: nat)
    requires Inv(w) && Horizon(w.arrived, k) && w.reader.InCall?
    ensures
      var all := Prefix(w.arrived, k);
      && w.delivered <= all
      && var rest := w.reader.got + all[|w.delivered|..];
         if w.closed || |rest| >= w.reader.len
         then Run(w, Turns(|w.ctx.list| + 1)).reader == Idle(if |rest| <= w.reader.len then rest else rest[..w.reader.len])
         else forall n :: Run(w, Turns(n)).reader.InCall?
  {
    hide Step, Run, Inv, Prefix;
    ReachesHorizon(w, k);
    if CanEnd(w, k) {
      CallEnds(w, k, |w.ctx.list| + 1);
    } else {
      forall n
        ensures Run(w, Turns(n)).reader.InCall?
      {
        CallWaits(w, k, n);
      }
    }
  }

  /**
   With no more chunks coming from here on, a call ends if and only if the peer has
   closed or all that it asks for has come without a gap. It then takes at most one
   pass more than chunks are queued, and returns exactly the next octets up to the
   first missing id, as many as it asked for.
   */
  lemma CallEndsIff(events: seq<Event>, k: nat)
    requires Horizon(ArrivedBy(map[], false, events), k) && Run(START, events).reader.InCall?
    ensures
      var w := Run(START, events);
      var all := Prefix(ArrivedBy(map[], false, events), k);
      && w.delivered <= all
      && var rest := w.reader.got + all[|w.delivered|..];
         if w.closed || |rest| >= w.reader.len
         then Run(w, Turns(|w.ctx.list| + 1)).reader == Idle(if |rest| <= w.reader.len then rest else rest[..w.reader.len])
         else forall n :: Run(w, Turns(n)).reader.InCall?
  {
    hide ArrivedBy, Step, Run, Inv, Prefix;
    StartsWell();
    RunKeeps(START, events);
    ArrivalsAreKept(START, events);
    CallFrom(Run(START, events), k);
  }

  lemma RunFirst(w: World, e: Event, rest: seq<Event>)
    ensures Run(w, [e] + rest) == Run(Step(w, e), rest)
  {
    hide Step;
    assert ([e] + rest)[1..] == rest;
  }

  /**
   A whole call: for `len` octets it returns the next ones in id order, as many
   of the `len` as there are up to the first missing id, if and only if that is
   all of them or the peer has closed.
   */
  lemma CallReturns(events: seq<Event>, len: nat, k: nat)
    requires Horizon(ArrivedBy(map[], false, events), k) && Run(START, events).reader.Idle?
    ensures
      var w := Run(START, events);
      var all := Prefix(ArrivedBy(map[], false, events), k);
      && w.delivered <= all
      && var left := all[|w.delivered|..];
         if w.closed || |left| >= len
         then Run(w, [Call(len)] + Turns(|w.ctx.list| + 1)).reader == Idle(if |left| <= len then left else left[..len])
         else forall n :: Run(w, [Call(len)] + Turns(n)).reader.InCall?
  {
    hide ArrivedBy, Run, Inv, Prefix;
    StartsWell();
    RunKeeps(START, events);
    ArrivalsAreKept(START, events);
    var w := Run(START, events);
    var v := Step(w, Call(len));
    StepKeeps(w, Call(len));
    CallFrom(v, k);
    var left := Prefix(w.arrived, k)[|w.delivered|..];
    assert v.reader.got + left == left;
    forall n
      ensures Run(w, [Call(len)] + Turns(n)) == Run(v, Turns(n))
    {
      RunFirst(w, Call(len), Turns(n));
    }
  }

  /** At the close a pass with the cursor invalid is the last. */
  lemma CloseEndsCall(events: seq<Event>)
    requires var w := Run(START, events); w.closed && w.reader.InCall? && !w.ctx.Valid()
    ensures Step(Run(START, events), Turn).reader == Idle(Run(START, events).reader.got)
  {
    hide Run, Inv;
    StartsWell();
    RunKeeps(START, events);
  }
}
