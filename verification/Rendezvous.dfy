/**
 Several connections of one client meet again on the server: the first asks
 for a number, the others quote it, and the server files each connection under
 the number and its slot. All interleavings of any number of clients, the
 server's threads and its accepting thread, as long as nothing expires.
 */
module Rendezvous {
  import opened Memory
  import opened PortMaps

  /** The `index`-th connection that a client opens. */
  datatype Conn = Conn(client: nat, index: nat)

  /** How far a connection is, with the number the server knows for it or is about to hear. */
  datatype Link =
    | Start
    | Numbered(number: nat)    // the server took a number for it
    | Grouped(number: nat)     // and made the group
    | Sent(number: nat)        // the client quoted its number
    | Ready(number: nat)       // the server has the number, and the client was told it
    | Joined(number: nat)      // filed

  /** `number` is the variable the client's threads share; 0 means not known yet. */
  datatype Client = Client(number: nat, links: seq<Link>)

  datatype World = World(
    /** The connections of a group, the same on both sides. */
    num: nat,
    used: set<nat>,
    portSeq: nat,
    groups: map<nat, seq<Option<Conn>>>,
    clients: map<nat, Client>,
    /** What `accept` returned, in order. */
    accepted: seq<seq<Option<Conn>>>,
    /** A search found no number free: it goes on for ever, holding `port_mtx`. */
    searching: bool,
    /** `accept` waits for that lock, holding `io_map_mtx`. */
    mapHeld: bool,
    /** Whose request took a number; no step depends on it. */
    owner: map<nat, nat>,
    /** Set when a connection is written outside its group. */
    bad: bool)

  datatype Event =
    | Open(k: nat)
    | Allocate(k: nat, i: nat, n: nat)
    | Search(k: nat, i: nat)
    | MakeGroup(k: nat, i: nat)
    | Tell(k: nat, i: nat)
    | Learn(k: nat, i: nat)
    | Quote(k: nat, i: nat)
    | Hear(k: nat, i: nat)
    | File(k: nat, i: nat)
    | Accept

  /** `uint8_t has_number = i` */
  function Slot(i: nat): (r: nat)
    ensures r < 256
  {
    i % 256
  }

  /** The slots of a client's connections differ exactly as long as they fit in one octet. */
  lemma SlotsAreDistinctIff(num: nat)
    ensures (forall i, j :: 0 <= i < j < num ==> Slot(i) != Slot(j)) <==> num <= 256
  {
    if num > 256 {
      assert Slot(0) == Slot(256);
    }
  }

  function Begin(num: nat): World {
    World(num, {}, 1, map[], map[], [], false, false, map[], false)
  }

  predicate Has(w: World, k: nat, i: nat) {
    k in w.clients && i < |w.clients[k].links|
  }

  function LinkOf(w: World, k: nat, i: nat): Link
    requires Has(w, k, i)
  {
    w.clients[k].links[i]
  }

  function SetLink(w: World, k: nat, i: nat, l: Link): World
    requires Has(w, k, i)
  {
    w.(clients := w.clients[k := w.clients[k].(links := w.clients[k].links[i := l])])
  }

  function Nulls(n: nat): (r: seq<Option<Conn>>)
    ensures |r| == n && forall i :: 0 <= i < n ==> r[i] == None
  {
    seq(n, _ => None)
  }

  /** Writes slot `s`, and marks a group without gaps with one more null. */
  function Filed(g: seq<Option<Conn>>, s: nat, c: Conn): seq<Option<Conn>>
    requires s < |g|
  {
    var r := g[s := Some(c)];
    if None in r then r else r + [None]
  }

  /** The group with the least number among those `accept` may take. */
  function FirstFull(w: World, from: nat): (r: Option<nat>)
    ensures r.Some? ==> r.value in w.groups && |w.groups[r.value]| > w.num
    ensures forall n :: from <= n < (if r.Some? then r.value else MAX_PORT_SEQ) && n in w.groups ==> |w.groups[n]| <= w.num
    decreases MAX_PORT_SEQ - from
  {
    if from >= MAX_PORT_SEQ then None
    else if from in w.groups && |w.groups[from]| > w.num then Some(from)
    else FirstFull(w, from + 1)
  }

  /** The first connection of a client asks for a number. */
  predicate Asks(w: World, k: nat, i: nat) {
    Has(w, k, i) && Slot(i) == 0 && LinkOf(w, k, i).Start?
  }

  /**
   One step; a step that is not possible changes nothing. The search for a
   number is one step, as it holds its lock: it takes the next free one, or there
   is none and it keeps the lock. The group of an `accept` that then waits for
   the lock stays where it is, as nobody can look at the groups any more.
   */
  ghost function Step(w: World, e: Event): World {
    match e
    case Open(k) =>
      if k !in w.clients then w.(clients := w.clients[k := Client(0, seq(w.num, _ => Start))]) else w
    case Allocate(k, i, n) =>
      if Asks(w, k, i) && !w.searching && 1 <= w.portSeq < MAX_PORT_SEQ && IsNextFree(w.used, w.portSeq, n)
      then SetLink(w.(used := w.used + {n}, portSeq := Following(n), owner := w.owner[n := k]), k, i, Numbered(n))
      else w
    case Search(k, i) =>
      if Asks(w, k, i) && !SomeFree(w.used) then w.(searching := true) else w
    case MakeGroup(k, i) =>
      if !w.mapHeld && Has(w, k, i) && LinkOf(w, k, i).Numbered? then
        var n := LinkOf(w, k, i).number;
        var g := if n in w.groups then w.groups[n] else [];
        SetLink(w.(groups := w.groups[n := g + Nulls(w.num)]), k, i, Grouped(n))
      else w
    case Tell(k, i) =>
      if Has(w, k, i) && LinkOf(w, k, i).Grouped? then SetLink(w, k, i, Ready(LinkOf(w, k, i).number)) else w
    case Learn(k, i) =>
      if Has(w, k, i) && Slot(i) == 0 && (LinkOf(w, k, i).Ready? || LinkOf(w, k, i).Joined?)
      then w.(clients := w.clients[k := w.clients[k].(number := LinkOf(w, k, i).number)])
      else w
    case Quote(k, i) =>
      if Has(w, k, i) && Slot(i) != 0 && LinkOf(w, k, i).Start? && w.clients[k].number != 0
      then SetLink(w, k, i, Sent(w.clients[k].number))
      else w
    case Hear(k, i) =>
      if Has(w, k, i) && LinkOf(w, k, i).Sent? then SetLink(w, k, i, Ready(LinkOf(w, k, i).number)) else w
    case File(k, i) =>
      if !w.mapHeld && Has(w, k, i) && LinkOf(w, k, i).Ready? then
        var n := LinkOf(w, k, i).number;
        if n in w.groups && Slot(i) < |w.groups[n]|
        then SetLink(w.(groups := w.groups[n := Filed(w.groups[n], Slot(i), Conn(k, i))]), k, i, Joined(n))
        else w.(bad := true)
      else w
    case Accept =>
      match FirstFull(w, 0)
      case None => w
      case Some(n) =>
        if w.searching then w.(mapHeld := true) else
        w.(accepted := w.accepted + [w.groups[n][..w.num]], groups := w.groups - {n},
           used := w.used - {n}, owner := w.owner - {n})
  }

  ghost function Run(w: World, events: seq<Event>): World
    decreases |events|
  {
    if events == [] then w else Run(Step(w, events[0]), events[1..])
  }

  // ----- the invariant

  /** The number that was taken for a client. */
  function Lead(c: Client): Option<nat> {
    if c.links == [] || c.links[0].Start? then None else Some(c.links[0].number)
  }

  predicate AllJoined(c: Client) {
    forall i :: 0 <= i < |c.links| ==> c.links[i].Joined?
  }

  /** The first connection gets the number, the client learns it from there, and the others quote it. */
  predicate ClientOk(num: nat, c: Client) {
    && |c.links| == num > 0
    && !c.links[0].Sent? && Lead(c) != Some(0)
    && (c.number != 0 ==> (c.links[0].Ready? || c.links[0].Joined?) && c.number == c.links[0].number)
    && forall i :: 0 < i < num ==> FollowerOk(c, c.links[i])
  }

  predicate FollowerOk(c: Client, l: Link) {
    l.Start? || ((l.Sent? || l.Ready? || l.Joined?) && c.number != 0 && l.number == c.number)
  }

  /** A client whose group is still to be made. */
  predicate Early(c: Client) {
    c.links != [] && c.links[0].Numbered?
  }

  /** The slots of a group hold the owner's connections that were filed, each at its index. */
  predicate GroupOk(g: seq<Option<Conn>>, k: nat, c: Client) {
    && |g| == |c.links| + (if AllJoined(c) then 1 else 0)
    && forall i :: 0 <= i < |c.links| ==> g[i] == if c.links[i].Joined? then Some(Conn(k, i)) else None
  }

  predicate NumberOk(w: World, n: nat)
    requires n in w.owner
  {
    var k := w.owner[n];
    && 1 <= n < MAX_PORT_SEQ && k in w.clients && Lead(w.clients[k]) == Some(n)
    && (n in w.groups <==> !Early(w.clients[k]))
    && (n in w.groups ==> GroupOk(w.groups[n], k, w.clients[k]))
  }

  /** All connections of one client, each in its slot. */
  function FullGroup(k: nat, num: nat): (r: seq<Option<Conn>>)
    ensures |r| == num && forall i :: 0 <= i < num ==> r[i] == Some(Conn(k, i))
  {
    seq(num, (i: nat) => Some(Conn(k, i)))
  }

  predicate Owns(w: World, k: nat)
    requires k in w.clients
  {
    var l := Lead(w.clients[k]);
    l.Some? && l.value in w.owner && w.owner[l.value] == k
  }

  /** A client with a number owns it until its group was accepted. */
  predicate Settled(w: World, k: nat)
    requires k in w.clients
  {
    Lead(w.clients[k]).Some? && !Owns(w, k) ==> AllJoined(w.clients[k]) && FullGroup(k, w.num) in w.accepted
  }

  predicate AcceptedOk(w: World, g: seq<Option<Conn>>) {
    && |g| == w.num > 0 && g[0].Some?
    && var k := g[0].value.client;
       g == FullGroup(k, w.num) && k in w.clients && Lead(w.clients[k]).Some? && !Owns(w, k)
  }

  ghost predicate Distinct(s: seq<seq<Option<Conn>>>) {
    forall i, j :: 0 <= i < j < |s| ==> s[i] != s[j]
  }

  ghost predicate Inv(w: World) {
    && !w.bad && 1 <= w.num <= 256 && 1 <= w.portSeq < MAX_PORT_SEQ
    && w.used == w.owner.Keys && w.groups.Keys <= w.owner.Keys
    && (w.mapHeld ==> w.searching) && (w.searching ==> !SomeFree(w.used))
    && (forall k :: k in w.clients ==> ClientOk(w.num, w.clients[k]) && Settled(w, k))
    && (forall n :: n in w.owner ==> NumberOk(w, n))
    && (forall g :: g in w.accepted ==> AcceptedOk(w, g))
    && Distinct(w.accepted)
  }

  lemma StartsWell(num: nat)
    requires 1 <= num <= 256
    ensures Inv(Begin(num))
  {
  }

  lemma GroupStays(g: seq<Option<Conn>>, k: nat, c: Client, d: Client)
    requires GroupOk(g, k, c) && |d.links| == |c.links|
    requires forall i :: 0 <= i < |c.links| ==> c.links[i].Joined? == d.links[i].Joined?
    ensures GroupOk(g, k, d) && AllJoined(c) == AllJoined(d)
  {
  }

  /** A step of client `k`: it may take a number and change its own group, and nothing of anyone else. */
  ghost predicate StepOf(w: World, v: World, k: nat) {
    && k in w.clients && k in v.clients && v.clients == w.clients[k := v.clients[k]]
    && v.num == w.num && v.accepted == w.accepted && v.searching == w.searching && v.mapHeld == w.mapHeld
    && (w.searching ==> v.used == w.used) && !v.bad && 1 <= v.portSeq < MAX_PORT_SEQ
    && v.used == v.owner.Keys && v.groups.Keys <= v.owner.Keys
    && (forall n :: n in w.owner ==> n in v.owner && v.owner[n] == w.owner[n])
    && (forall n :: n in v.owner && v.owner[n] != k ==> n in w.owner)
    && (forall n :: n in w.owner && w.owner[n] != k ==> (n in v.groups <==> n in w.groups))
    && (forall n :: n in w.owner && w.owner[n] != k && n in w.groups ==> v.groups[n] == w.groups[n])
  }

  /** It is enough to look at that client and its number. */
  lemma StepOfKeeps(w: World, v: World, k: nat)
    requires Inv(w) && StepOf(w, v, k)
    requires ClientOk(w.num, v.clients[k]) && Settled(v, k)
    requires forall n :: n in v.owner && v.owner[n] == k ==> NumberOk(v, n)
    requires Lead(w.clients[k]).Some? && !Owns(w, k) ==> Lead(v.clients[k]).Some? && !Owns(v, k)
    ensures Inv(v)
  {
    hide AllJoined, FullGroup, ClientOk, Lead, Early, GroupOk, Distinct;
    forall x | x in v.clients
      ensures ClientOk(v.num, v.clients[x]) && Settled(v, x)
    {
      assert Settled(w, x);
    }
    forall n | n in v.owner
      ensures NumberOk(v, n)
    {
      assert v.owner[n] != k ==> NumberOk(w, n);
    }
    forall g | g in v.accepted
      ensures AcceptedOk(v, g)
    {
      assert AcceptedOk(w, g);
    }
  }

  /** From `c` to `d` nothing happened that the rest can see: no number taken, no group made, nothing filed. */
  ghost predicate Quiet(num: nat, c: Client, d: Client) {
    && ClientOk(num, d) && |d.links| == |c.links|
    && Lead(d) == Lead(c) && Early(d) == Early(c)
    && forall i :: 0 <= i < |c.links| ==> d.links[i].Joined? == c.links[i].Joined?
  }

  lemma QuietStep(w: World, v: World, k: nat, c: Client)
    requires Inv(w) && k in w.clients && v == w.(clients := w.clients[k := c]) && Quiet(w.num, w.clients[k], c)
    ensures Inv(v)
  {
    assert AllJoined(c) == AllJoined(w.clients[k]);
    hide AllJoined, FullGroup, ClientOk, Lead, Early, GroupOk, Distinct, AcceptedOk;
    assert Settled(w, k);
    forall n | n in v.owner && v.owner[n] == k
      ensures NumberOk(v, n)
    {
      assert NumberOk(w, n);
      if n in w.groups {
        GroupStays(w.groups[n], k, w.clients[k], c);
      }
    }
    StepOfKeeps(w, v, k);
  }

  /** The server answers the first connection with the number. */
  lemma TellIsQuiet(num: nat, c: Client, i: nat)
    requires ClientOk(num, c) && i < num && c.links[i].Grouped?
    ensures Quiet(num, c, c.(links := c.links[i := Ready(c.links[i].number)]))
  {
    assert i != 0 ==> FollowerOk(c, c.links[i]);
    var d := c.(links := c.links[i := Ready(c.links[i].number)]);
    assert forall j :: 0 < j < num ==> FollowerOk(c, c.links[j]);
  }

  /** The client notes it. */
  lemma LearnIsQuiet(num: nat, c: Client, i: nat)
    requires num <= 256 && ClientOk(num, c) && i < num && Slot(i) == 0 && (c.links[i].Ready? || c.links[i].Joined?)
    ensures Quiet(num, c, c.(number := c.links[i].number))
  {
    assert i == 0;
    assert forall j :: 0 < j < num ==> FollowerOk(c, c.links[j]);
  }

  /** The other connections quote it. */
  lemma QuoteIsQuiet(num: nat, c: Client, i: nat)
    requires ClientOk(num, c) && i < num && Slot(i) != 0 && c.links[i].Start? && c.number != 0
    ensures Quiet(num, c, c.(links := c.links[i := Sent(c.number)]))
  {
    assert forall j :: 0 < j < num ==> FollowerOk(c, c.links[j]);
  }

  /** And the server hears it. */
  lemma HearIsQuiet(num: nat, c: Client, i: nat)
    requires ClientOk(num, c) && i < num && c.links[i].Sent?
    ensures Quiet(num, c, c.(links := c.links[i := Ready(c.links[i].number)]))
  {
    assert forall j :: 0 < j < num ==> FollowerOk(c, c.links[j]);
  }

  lemma TalkKeeps(w: World, e: Event)
    requires Inv(w) && (e.Tell? || e.Learn? || e.Quote? || e.Hear?)
    ensures Inv(Step(w, e))
  {
    hide NumberOk, AcceptedOk, Settled, Distinct, AllJoined, GroupOk, FirstFull, Filed, IsNextFree, Quiet, Slot, FollowerOk, Lead;
    if Step(w, e) != w {
      var c := w.clients[e.k];
      assert ClientOk(w.num, c);
      match e {
        case Tell(k, i) => TellIsQuiet(w.num, c, i);
        case Learn(k, i) => LearnIsQuiet(w.num, c, i);
        case Quote(k, i) => QuoteIsQuiet(w.num, c, i);
        case Hear(k, i) => HearIsQuiet(w.num, c, i);
      }
      QuietStep(w, Step(w, e), e.k, Step(w, e).clients[e.k]);
    }
  }

  lemma OpenKeeps(w: World, k: nat)
    requires Inv(w)
    ensures Inv(Step(w, Open(k)))
  {
    hide AllJoined, FullGroup, IsNextFree, Early, GroupOk, FirstFull, Filed, Distinct;
    var v := Step(w, Open(k));
    if v != w {
      forall x | x in v.clients
        ensures ClientOk(v.num, v.clients[x]) && Settled(v, x)
      {
        assert x in w.clients ==> ClientOk(w.num, w.clients[x]) && Settled(w, x);
      }
      forall n | n in v.owner
        ensures NumberOk(v, n)
      {
        assert NumberOk(w, n);
      }
      forall g | g in v.accepted
        ensures AcceptedOk(v, g)
      {
        assert AcceptedOk(w, g);
      }
    }
  }

  lemma NumberedClient(num: nat, c: Client, i: nat, n: nat)
    requires num <= 256 && ClientOk(num, c) && i < num && Slot(i) == 0 && c.links[i].Start? && n > 0
    ensures i == 0 && Lead(c) == None && c.number == 0
    ensures
      var d := c.(links := c.links[0 := Numbered(n)]);
      ClientOk(num, d) && Lead(d) == Some(n) && Early(d)
  {
    assert forall j :: 0 < j < num ==> FollowerOk(c, c.links[j]);
  }

  /** Only the first connection asks, and the number is nobody else's. */
  lemma AllocateKeeps(w: World, k: nat, i: nat, n: nat)
    requires Inv(w)
    ensures Inv(Step(w, Allocate(k, i, n)))
  {
    hide FullGroup, GroupOk, FirstFull, Filed, Distinct, AcceptedOk, IsNextFree, Following, AllJoined, FollowerOk;
    var v := Step(w, Allocate(k, i, n));
    if v != w {
      assert ClientOk(w.num, w.clients[k]);
      TakenNumber(w.used, w.portSeq, n);
      NumberedClient(w.num, w.clients[k], i, n);
      hide ClientOk, Lead, Early, Slot;
      forall m | m in w.owner
        ensures w.owner[m] != k
      {
        assert NumberOk(w, m);
      }
      StepOfKeeps(w, v, k);
    }
  }

  lemma TakenNumber(used: set<nat>, from: nat, n: nat)
    requires 1 <= from < MAX_PORT_SEQ && IsNextFree(used, from, n)
    ensures 1 <= n < MAX_PORT_SEQ && n !in used && 1 <= Following(n) < MAX_PORT_SEQ
  {
  }

  /** A new group of empty slots is right: none of the client's connections was filed. */
  lemma EmptyGroup(num: nat, k: nat, c: Client)
    requires ClientOk(num, c) && c.links[0].Numbered?
    ensures
      var d := c.(links := c.links[0 := Grouped(c.links[0].number)]);
      GroupOk([] + Nulls(num), k, d) && ClientOk(num, d) && Lead(d) == Lead(c) && !Early(d) && !AllJoined(c)
  {
    var d := c.(links := c.links[0 := Grouped(c.links[0].number)]);
    assert !c.links[0].Joined? && !d.links[0].Joined?;
    assert forall i :: 0 < i < num ==> FollowerOk(c, c.links[i]);
  }

  /** A client owns no number but the one that was taken for it. */
  lemma OnlyNumber(w: World, k: nat, n: nat)
    requires Inv(w) && k in w.clients && Lead(w.clients[k]) == Some(n)
    ensures forall m :: m in w.owner && w.owner[m] == k ==> m == n
  {
    hide Lead, GroupOk, ClientOk, Settled, AcceptedOk, Distinct, Early;
    forall m | m in w.owner && w.owner[m] == k
      ensures m == n
    {
      assert NumberOk(w, m);
    }
  }

  /** What making the group does to the client. */
  lemma GroupedClient(w: World, k: nat, i: nat)
    requires Inv(w) && Has(w, k, i) && LinkOf(w, k, i).Numbered?
    ensures
      var n := LinkOf(w, k, i).number;
      var c := w.clients[k];
      var d := c.(links := c.links[i := Grouped(n)]);
      && Lead(c) == Some(n) == Lead(d) && ClientOk(w.num, d) && Owns(w, k) && 1 <= n < MAX_PORT_SEQ && !Early(d)
      && n !in w.groups && GroupOk([] + Nulls(w.num), k, d)
  {
    hide FullGroup, IsNextFree, FirstFull, Filed, Distinct, AcceptedOk, GroupOk, AllJoined;
    assert ClientOk(w.num, w.clients[k]) && Settled(w, k);
    assert i != 0 ==> FollowerOk(w.clients[k], w.clients[k].links[i]);
    EmptyGroup(w.num, k, w.clients[k]);
    assert NumberOk(w, LinkOf(w, k, 0).number);
  }

  lemma MakeGroupKeeps(w: World, k: nat, i: nat)
    requires Inv(w)
    ensures Inv(Step(w, MakeGroup(k, i)))
  {
    hide FullGroup, FirstFull, Filed, Distinct, AcceptedOk, GroupOk, AllJoined, ClientOk, Lead, Early, SomeFree, IsNextFree, Nulls;
    if Has(w, k, i) && LinkOf(w, k, i).Numbered? && !w.mapHeld {
      GroupedClient(w, k, i);
      OnlyNumber(w, k, LinkOf(w, k, i).number);
      StepOfKeeps(w, Step(w, MakeGroup(k, i)), k);
    }
  }

  /** Filing one connection keeps the group right, and marks it exactly when it is complete. */
  lemma FiledGroup(num: nat, k: nat, c: Client, i: nat, g: seq<Option<Conn>>)
    requires 1 <= num <= 256 && ClientOk(num, c) && i < num && c.links[i].Ready? && GroupOk(g, k, c)
    ensures Slot(i) == i < |g|
    ensures
      var d := c.(links := c.links[i := Joined(c.links[i].number)]);
      GroupOk(Filed(g, i, Conn(k, i)), k, d) && ClientOk(num, d) && Lead(d) == Lead(c) && !Early(d) && !Early(c)
    ensures !AllJoined(c)
  {
    var d := c.(links := c.links[i := Joined(c.links[i].number)]);
    assert !c.links[i].Joined? && |g| == num;
    assert forall x :: 0 < x < num ==> FollowerOk(c, c.links[x]);
    var r := g[i := Some(Conn(k, i))];
    forall x | 0 <= x < num
      ensures r[x] == if d.links[x].Joined? then Some(Conn(k, x)) else None
    {
    }
    if None in r {
      var x :| 0 <= x < num && r[x] == None;
      assert !d.links[x].Joined?;
    } else {
      assert forall x :: 0 <= x < num ==> r[x] in r;
    }
  }

  /** What filing does to the client and its group. */
  lemma FiledClient(w: World, k: nat, i: nat)
    requires Inv(w) && Has(w, k, i) && LinkOf(w, k, i).Ready?
    ensures
      var n := LinkOf(w, k, i).number;
      var c := w.clients[k];
      var d := c.(links := c.links[i := Joined(n)]);
      && Lead(c) == Some(n) == Lead(d) && ClientOk(w.num, d) && Owns(w, k) && 1 <= n < MAX_PORT_SEQ && !Early(d)
      && n in w.groups && Slot(i) < |w.groups[n]| && GroupOk(Filed(w.groups[n], Slot(i), Conn(k, i)), k, d)
  {
    hide FullGroup, FirstFull, Filed, Distinct, AcceptedOk, GroupOk, AllJoined;
    assert ClientOk(w.num, w.clients[k]) && Settled(w, k);
    assert i != 0 ==> FollowerOk(w.clients[k], w.clients[k].links[i]);
    var n := LinkOf(w, k, i).number;
    assert Lead(w.clients[k]) == Some(n);
    LiveUntilJoined(w, k, i, n);
    NumberInRange(w, n);
    FiledGroup(w.num, k, w.clients[k], i, w.groups[n]);
  }

  /** Every number the server hears is live, and its group has room for the slot. */
  lemma FileKeeps(w: World, k: nat, i: nat)
    requires Inv(w)
    ensures Inv(Step(w, File(k, i)))
  {
    hide FullGroup, FirstFull, Filed, Distinct, AcceptedOk, GroupOk, AllJoined, ClientOk, Lead, Early, SomeFree, IsNextFree;
    if Has(w, k, i) && LinkOf(w, k, i).Ready? && !w.mapHeld {
      FiledClient(w, k, i);
      OnlyNumber(w, k, LinkOf(w, k, i).number);
      StepOfKeeps(w, Step(w, File(k, i)), k);
    }
  }

  /** A client with a connection still to be filed owns its number, and the group exists. */
  lemma LiveUntilJoined(w: World, k: nat, i: nat, n: nat)
    requires Inv(w) && Has(w, k, i) && LinkOf(w, k, i).Ready? && Lead(w.clients[k]) == Some(n)
    ensures n in w.owner && w.owner[n] == k && n in w.groups && GroupOk(w.groups[n], k, w.clients[k])
  {
    hide FullGroup, GroupOk, Distinct;
    assert ClientOk(w.num, w.clients[k]) && Settled(w, k);
    assert !w.clients[k].links[i].Joined?;
    assert Owns(w, k) && NumberOk(w, n);
    assert i != 0 ==> FollowerOk(w.clients[k], w.clients[k].links[i]);
  }

  /** A group larger than `num` holds exactly the connections of its owner. */
  lemma FullIsFull(g: seq<Option<Conn>>, k: nat, c: Client)
    requires GroupOk(g, k, c) && |g| > |c.links|
    ensures AllJoined(c) && g[..|c.links|] == FullGroup(k, |c.links|)
  {
  }

  lemma AcceptKeeps(w: World)
    requires Inv(w)
    ensures Inv(Step(w, Accept))
  {
    hide FirstFull, IsNextFree, Filed, GroupOk, AllJoined, Early, Lead, Distinct;
    var f := FirstFull(w, 0);
    if f.Some? {
      var n := f.value;
      var k := w.owner[n];
      assert NumberOk(w, n) && ClientOk(w.num, w.clients[k]);
      FullIsFull(w.groups[n], k, w.clients[k]);
      hide ClientOk, FullGroup;
      assert FullGroup(k, w.num) in w.accepted ==> AcceptedOk(w, FullGroup(k, w.num));
      if w.searching {
        LocksDoNotMatter(w, Step(w, Accept));
      } else {
        OneMore(w.accepted, FullGroup(k, w.num));
        Released(w, Step(w, Accept), n, k);
      }
    }
  }

  /** The rest of the invariant does not look at the locks. */
  lemma LocksDoNotMatter(w: World, v: World)
    requires Inv(w) && v == w.(searching := v.searching, mapHeld := v.mapHeld)
    requires (v.mapHeld ==> v.searching) && (v.searching ==> !SomeFree(v.used))
    ensures Inv(v)
  {
    hide GroupOk, AllJoined, Early, Lead, ClientOk, FullGroup, Distinct, SomeFree;
    forall m | m in v.owner
      ensures NumberOk(v, m)
    {
      assert NumberOk(w, m);
    }
    forall x | x in v.clients
      ensures ClientOk(v.num, v.clients[x]) && Settled(v, x)
    {
      assert Settled(w, x);
    }
    forall g | g in v.accepted
      ensures AcceptedOk(v, g)
    {
      assert AcceptedOk(w, g);
    }
  }

  lemma SearchKeeps(w: World, k: nat, i: nat)
    requires Inv(w)
    ensures Inv(Step(w, Search(k, i)))
  {
    hide Asks, NumberOk, ClientOk, Settled, AcceptedOk, Distinct, SomeFree;
    LocksDoNotMatter(w, Step(w, Search(k, i)));
  }

  lemma OneMore(s: seq<seq<Option<Conn>>>, g: seq<Option<Conn>>)
    requires Distinct(s) && g !in s
    ensures Distinct(s + [g])
  {
  }

  /** The owner of a number lost it to a full group of its own. */
  lemma Released(w: World, v: World, n: nat, k: nat)
    requires Inv(w) && n in w.owner && w.owner[n] == k && k in w.clients && AllJoined(w.clients[k])
    requires Lead(w.clients[k]) == Some(n) && Distinct(w.accepted + [FullGroup(k, w.num)]) && !w.searching
    requires v == w.(accepted := w.accepted + [FullGroup(k, w.num)], groups := w.groups - {n}, used := w.used - {n}, owner := w.owner - {n})
    ensures Inv(v)
  {
    hide GroupOk, AllJoined, Early, Lead, ClientOk, FullGroup, Distinct;
    forall m | m in v.owner
      ensures NumberOk(v, m)
    {
      assert NumberOk(w, m);
    }
    forall x | x in v.clients
      ensures ClientOk(v.num, v.clients[x]) && Settled(v, x)
    {
      assert Settled(w, x);
    }
    forall g | g in v.accepted
      ensures AcceptedOk(v, g)
    {
      assert g in w.accepted ==> AcceptedOk(w, g);
    }
  }

  lemma StepKeeps(w: World, e: Event)
    requires Inv(w)
    ensures Inv(Step(w, e))
  {
    hide *;
    match e
    case Open(k) => OpenKeeps(w, k);
    case Allocate(k, i, n) => AllocateKeeps(w, k, i, n);
    case Search(k, i) => SearchKeeps(w, k, i);
    case MakeGroup(k, i) => MakeGroupKeeps(w, k, i);
    case Tell(_, _) => TalkKeeps(w, e);
    case Learn(_, _) => TalkKeeps(w, e);
    case Quote(_, _) => TalkKeeps(w, e);
    case Hear(_, _) => TalkKeeps(w, e);
    case File(k, i) => FileKeeps(w, k, i);
    case Accept => AcceptKeeps(w);
  }

  lemma SameNum(w: World, e: Event)
    ensures Step(w, e).num == w.num
  {
  }

  lemma {:induction false} RunKeeps(w: World, events: seq<Event>)
    requires Inv(w)
    ensures Inv(Run(w, events)) && Run(w, events).num == w.num
    decreases |events|
  {
    if events != [] {
      hide Inv, Step;
      StepKeeps(w, events[0]);
      SameNum(w, events[0]);
      RunKeeps(Step(w, events[0]), events[1..]);
    }
  }

  /** All connections of client `k`, and connection `i` in slot `i`. */
  predicate IsGroupOf(g: seq<Option<Conn>>, k: nat, num: nat) {
    |g| == num && forall i :: 0 <= i < num ==> g[i] == Some(Conn(k, i))
  }

  lemma GroupIs(g: seq<Option<Conn>>, k: nat, num: nat)
    ensures IsGroupOf(g, k, num) <==> g == FullGroup(k, num)
  {
  }

  ghost predicate OfOneClient(w: World, g: seq<Option<Conn>>) {
    exists k :: k in w.clients && IsGroupOf(g, k, w.num)
  }

  lemma AcceptedIsFull(w: World, g: seq<Option<Conn>>)
    requires AcceptedOk(w, g)
    ensures OfOneClient(w, g)
  {
    GroupIs(g, g[0].value.client, w.num);
  }

  lemma NumberIsPositive(w: World, n: nat)
    requires n in w.owner && NumberOk(w, n)
    ensures 1 <= n < MAX_PORT_SEQ
  {
  }

  /**
   In every run: no connection is ever written outside its group; what
   `accept` returned are the connections of single clients, each in its slot,
   and no client's were returned twice; and no number is 0.
   */
  lemma AcceptedGroupsAreWhole(num: nat, events: seq<Event>)
    requires 1 <= num <= 256
    ensures
      var w := Run(Begin(num), events);
      && !w.bad
      && w.num == num && (forall i :: 0 <= i < |w.accepted| ==> OfOneClient(w, w.accepted[i]))
      && Distinct(w.accepted)
      && (forall n :: n in w.used ==> 1 <= n < MAX_PORT_SEQ)
  {
    StartsWell(num);
    RunKeeps(Begin(num), events);
    var w := Run(Begin(num), events);
    hide Run, FullGroup, Step, Distinct, NumberOk, ClientOk, Settled, AcceptedOk, OfOneClient;
    forall i | 0 <= i < |w.accepted|
      ensures OfOneClient(w, w.accepted[i])
    {
      AcceptedIsFull(w, w.accepted[i]);
    }
    forall n | n in w.used
      ensures 1 <= n < MAX_PORT_SEQ
    {
      NumberIsPositive(w, n);
    }
  }

  /** Two clients that still wait for their groups never share a number, and a number a client learnt is its own. */
  lemma LiveNumbersAreDistinct(num: nat, events: seq<Event>, k: nat, l: nat)
    requires 1 <= num <= 256 && k != l
    requires
      var w := Run(Begin(num), events);
      k in w.clients && l in w.clients && FullGroup(k, num) !in w.accepted && FullGroup(l, num) !in w.accepted
    ensures
      var w := Run(Begin(num), events);
      && (Lead(w.clients[k]).Some? ==> Lead(w.clients[k]) != Lead(w.clients[l]))
      && (w.clients[k].number != 0 ==> Lead(w.clients[k]) == Some(w.clients[k].number) && w.clients[k].number in w.used)
  {
    StartsWell(num);
    RunKeeps(Begin(num), events);
    var w := Run(Begin(num), events);
    hide Run, FullGroup, Step;
    assert ClientOk(w.num, w.clients[k]) && Settled(w, k) && Settled(w, l);
  }

  /** Once all connections of a client are filed, `accept` may take its group, until it did. */
  lemma AcceptFindsFullGroups(num: nat, events: seq<Event>, k: nat)
    requires 1 <= num <= 256
    requires var w := Run(Begin(num), events); k in w.clients && AllJoined(w.clients[k])
    ensures
      var w := Run(Begin(num), events);
      FullGroup(k, num) in w.accepted || FullGroupWaits(w, k)
  {
    StartsWell(num);
    RunKeeps(Begin(num), events);
    hide Run;
    GroupIsFull(Run(Begin(num), events), k);
  }

  /** The group under the client's number is one that `accept` may take. */
  predicate FullGroupWaits(w: World, k: nat)
    requires k in w.clients
  {
    var l := Lead(w.clients[k]);
    l.Some? && l.value in w.groups && |w.groups[l.value]| > w.num && w.groups[l.value][..w.num] == FullGroup(k, w.num)
  }

  lemma GroupIsFull(w: World, k: nat)
    requires Inv(w) && k in w.clients && AllJoined(w.clients[k])
    ensures FullGroup(k, w.num) in w.accepted || FullGroupWaits(w, k)
  {
    hide FullGroup, Step, Distinct;
    var c := w.clients[k];
    assert ClientOk(w.num, c) && Settled(w, k);
    assert c.links[0].Joined?;
    if Owns(w, k) {
      var n := c.links[0].number;
      assert NumberOk(w, n);
      FullIsFull(w.groups[n], k, c);
    }
  }

  // ----- numbers in turn

  /** The number taken last in a run, and `last` if none was. */
  ghost function LastTaken(w: World, events: seq<Event>, last: nat): nat
    decreases |events|
  {
    if events == [] then last else
    var e := events[0];
    LastTaken(Step(w, e), events[1..], if e.Allocate? && e.n !in w.used && e.n in Step(w, e).used then e.n else last)
  }

  /** Each is the first free one behind the one before, from 1 to 1023 and around again. */
  lemma {:induction false} NumbersInTurn(w: World, events: seq<Event>, last: nat)
    requires last <= 1023 && w.portSeq == if last == 1023 then 1 else last + 1
    ensures
      var n := LastTaken(w, events, last);
      n <= 1023 && Run(w, events).portSeq == if n == 1023 then 1 else n + 1
    decreases |events|
  {
    if events != [] {
      TakenIsLast(w, events[0], last);
      hide Step, LastTaken;
      LastTakenSteps(w, events, last);
      var e := events[0];
      NumbersInTurn(Step(w, e), events[1..], if e.Allocate? && e.n !in w.used && e.n in Step(w, e).used then e.n else last);
    }
  }

  lemma LastTakenSteps(w: World, events: seq<Event>, last: nat)
    requires events != []
    ensures
      var e := events[0];
      LastTaken(w, events, last) ==
        LastTaken(Step(w, e), events[1..], if e.Allocate? && e.n !in w.used && e.n in Step(w, e).used then e.n else last)
  {
  }

  lemma TakenIsLast(w: World, e: Event, last: nat)
    requires last <= 1023 && w.portSeq == if last == 1023 then 1 else last + 1
    ensures
      var n := if e.Allocate? && e.n !in w.used && e.n in Step(w, e).used then e.n else last;
      n <= 1023 && Step(w, e).portSeq == if n == 1023 then 1 else n + 1
  {
    hide FirstFull, Filed, IsNextFree, SomeFree;
    if e.Allocate? && Step(w, e) != w {
      TakenNumber(w.used, w.portSeq, e.n);
    }
  }

  // ----- every client gets through

  /** The steps of one client's connections, on either side, and those of `accept`. */
  predicate StepOfClient(e: Event, k: nat) {
    match e
    case Open(_) => false
    case Accept => true
    case _ => e.k == k
  }

  /** Steps a connection still has to take. */
  function LinkWork(l: Link): nat {
    match l
    case Start => 4
    case Numbered(_) => 3
    case Grouped(_) => 2
    case Sent(_) => 2
    case Ready(_) => 1
    case Joined(_) => 0
  }

  function LinksWork(links: seq<Link>): nat {
    if links == [] then 0 else LinkWork(links[0]) + LinksWork(links[1..])
  }

  lemma {:induction false} LinksWorkAfter(links: seq<Link>, i: nat, l: Link)
    requires i < |links|
    ensures LinksWork(links[i := l]) + LinkWork(links[i]) == LinksWork(links) + LinkWork(l)
  {
    if i > 0 {
      LinksWorkAfter(links[1..], i - 1, l);
      assert links[i := l][1..] == links[1..][i - 1 := l];
    }
  }

  /** What is left to do for a client: its connections' steps, and learning the number. */
  function Work(c: Client): nat {
    LinksWork(c.links) + if c.number == 0 then 1 else 0
  }

  /** The search of `get_unused_port` has a result whenever some number is free. */
  lemma SomeNextFree(used: set<nat>, from: nat, free: nat) returns (n: nat)
    requires 1 <= from < MAX_PORT_SEQ && 1 <= free < MAX_PORT_SEQ && free !in used
    ensures IsNextFree(used, from, n)
    decreases Ahead(from, free)
  {
    if q: nat :| 1 <= q < MAX_PORT_SEQ && Ahead(from, q) < Ahead(from, free) && q !in used {
      n := SomeNextFree(used, from, q);
    } else {
      n := free;
    }
  }

  /** A number is free, or is not needed any more. */
  ghost predicate CanGoOn(w: World, k: nat)
    requires k in w.clients
  {
    Lead(w.clients[k]).Some? || SomeFree(w.used)
  }

  /** A step of client `k` that leaves it less to do, and the accepted groups as they are. */
  ghost predicate GetsOn(w: World, e: Event, k: nat)
    requires k in w.clients
  {
    var v := Step(w, e);
    && StepOfClient(e, k) && v.num == w.num && v.accepted == w.accepted && !v.searching
    && k in v.clients && Work(v.clients[k]) < Work(w.clients[k]) && Lead(v.clients[k]).Some?
  }

  lemma LessWork(c: Client, i: nat, l: Link)
    requires i < |c.links| && LinkWork(l) < LinkWork(c.links[i]) && !l.Start? && !c.links[0].Start?
    ensures Work(c.(links := c.links[i := l])) < Work(c) && Lead(c.(links := c.links[i := l])).Some?
  {
    LinksWorkAfter(c.links, i, l);
  }

  /** A connection that is not yet filed goes on. */
  lemma LinkGoesOn(w: World, k: nat, i: nat) returns (e: Event)
    requires Inv(w) && !w.searching && Has(w, k, i) && !LinkOf(w, k, i).Joined? && !LinkOf(w, k, 0).Start?
    requires i != 0 ==> w.clients[k].number != 0
    ensures GetsOn(w, e, k)
  {
    hide Settled, NumberOk, AcceptedOk, Distinct, Filed, FirstFull, IsNextFree, Work, Lead, FullGroup, GroupOk;
    var c := w.clients[k];
    assert ClientOk(w.num, c);
    assert i != 0 ==> FollowerOk(c, c.links[i]);
    match c.links[i]
    case Start =>
      e := Quote(k, i);
      LessWork(c, i, Sent(c.number));
    case Numbered(n) =>
      e := MakeGroup(k, i);
      LessWork(c, i, Grouped(n));
    case Grouped(n) =>
      e := Tell(k, i);
      LessWork(c, i, Ready(n));
    case Sent(n) =>
      e := Hear(k, i);
      LessWork(c, i, Ready(n));
    case Ready(n) =>
      e := File(k, i);
      StepKeeps(w, e);
      LessWork(c, i, Joined(n));
  }

  /** So does a client, until all its connections are filed. */
  lemma ClientGoesOn(w: World, k: nat) returns (e: Event)
    requires Inv(w) && !w.searching && k in w.clients && CanGoOn(w, k) && !AllJoined(w.clients[k])
    ensures GetsOn(w, e, k)
  {
    hide NumberOk, AcceptedOk, Settled, Distinct, FirstFull, IsNextFree, Filed, FullGroup, GroupOk, LinksWork;
    var c := w.clients[k];
    assert ClientOk(w.num, c);
    if c.links[0].Start? {
      var free: nat :| 1 <= free < MAX_PORT_SEQ && free !in w.used;
      var n := SomeNextFree(w.used, w.portSeq, free);
      e := Allocate(k, 0, n);
      LinksWorkAfter(c.links, 0, Numbered(n));
    } else if !c.links[0].Joined? {
      e := LinkGoesOn(w, k, 0);
    } else if c.number == 0 {
      e := Learn(k, 0);
    } else {
      var i: nat :| 0 < i < w.num && !c.links[i].Joined?;
      e := LinkGoesOn(w, k, i);
    }
  }

  lemma NumberInRange(w: World, n: nat)
    requires Inv(w) && n in w.groups
    ensures 1 <= n < MAX_PORT_SEQ
  {
    assert n in w.groups.Keys;
    assert NumberOk(w, n);
  }

  /** `accept` takes one full group out and frees its number. */
  lemma AcceptTakes(w: World, n: nat)
    requires Inv(w) && !w.searching && FirstFull(w, 0) == Some(n)
    ensures
      var v := Step(w, Accept);
      && v.num == w.num && v.clients == w.clients && v.groups == w.groups - {n} && |v.groups| < |w.groups|
      && v.accepted == w.accepted + [w.groups[n][..w.num]] && SomeFree(v.used) && !v.searching
  {
    hide Inv, FirstFull;
    var v := Step(w, Accept);
    NumberInRange(w, n);
    assert n !in v.used;
    assert v.groups.Keys == w.groups.Keys - {n};
    assert |v.groups.Keys| == |v.groups| && |w.groups.Keys| == |w.groups|;
  }

  /** It takes this client's group or one of the others that are full. */
  lemma AcceptGoesOn(w: World, k: nat)
    requires Inv(w) && !w.searching && k in w.clients && FullGroupWaits(w, k)
    ensures
      var v := Step(w, Accept);
      && v.num == w.num && v.clients == w.clients && |v.groups| < |w.groups| && Lead(w.clients[k]).Some?
      && (FullGroup(k, w.num) in v.accepted || FullGroupWaits(v, k)) && SomeFree(v.used) && !v.searching
  {
    hide FullGroup, Inv, Lead, FirstFull, SomeFree;
    NumberInRange(w, Lead(w.clients[k]).value);
    var n := FirstFull(w, 0).value;
    AcceptTakes(w, n);
    hide Step;
    var v := Step(w, Accept);
    assert v.accepted[|w.accepted|] == w.groups[n][..w.num];
  }

  predicate StepsOfClient(events: seq<Event>, k: nat) {
    forall i :: 0 <= i < |events| ==> StepOfClient(events[i], k)
  }

  /** As long as no search goes on for ever, client `k` gets through by its own steps and those of `accept`. */
  lemma {:induction false} GetsThrough(w: World, k: nat) returns (more: seq<Event>)
    requires Inv(w) && k in w.clients && CanGoOn(w, k) && !w.searching
    ensures StepsOfClient(more, k) && FullGroup(k, w.num) in Run(w, more).accepted && !Run(w, more).searching
    ensures FullGroup(k, w.num) in w.accepted || SomeFree(Run(w, more).used)
    decreases Work(w.clients[k]), |w.groups|
  {
    hide Inv, Step, FullGroup, AllJoined, FullGroupWaits, Lead, Work, SomeFree;
    more := [];
    if FullGroup(k, w.num) !in w.accepted {
      var e := Accept;
      if AllJoined(w.clients[k]) {
        GroupIsFull(w, k);
        AcceptGoesOn(w, k);
      } else {
        e := ClientGoesOn(w, k);
      }
      StepKeeps(w, e);
      SameNum(w, e);
      var rest := [];
      if FullGroup(k, w.num) !in Step(w, e).accepted {
        rest := GetsThrough(Step(w, e), k);
      }
      more := [e] + rest;
      assert more[1..] == rest;
    }
  }

  lemma {:induction false} RunAppend(w: World, a: seq<Event>, b: seq<Event>)
    ensures Run(w, a + b) == Run(Run(w, a), b)
    decreases a
  {
    hide Step;
    if a == [] {
      assert a + b == b;
    } else {
      assert (a + b)[0] == a[0] && (a + b)[1..] == a[1..] + b;
      RunAppend(Step(w, a[0]), a[1..], b);
    }
  }

  lemma ClientStays(w: World, e: Event, k: nat)
    requires k in w.clients
    ensures k in Step(w, e).clients
  {
  }

  lemma {:induction false} ClientsStay(w: World, events: seq<Event>, k: nat)
    requires k in w.clients
    ensures k in Run(w, events).clients
    decreases events
  {
    if events != [] {
      ClientStays(w, events[0], k);
      ClientsStay(Step(w, events[0]), events[1..], k);
    }
  }

  /** With all numbers taken, one of the clients that have them can go on instead. */
  lemma SomeoneGoesOn(w: World) returns (l: nat)
    requires Inv(w) && !SomeFree(w.used)
    ensures l in w.clients && Lead(w.clients[l]).Some? && FullGroup(l, w.num) !in w.accepted
  {
    assert 1 in w.used;
    l := w.owner[1];
    assert NumberOk(w, 1);
    assert FullGroup(l, w.num) in w.accepted ==> AcceptedOk(w, FullGroup(l, w.num));
  }

  predicate NoOpens(events: seq<Event>) {
    forall i :: 0 <= i < |events| ==> !events[i].Open?
  }

  /**
   Every client gets through from every state of every run in which no search
   goes on for ever, without a client being added: by steps of its own connections
   and of `accept` alone if it has a number already or some number is free, and
   otherwise after another client did.
   */
  lemma EveryClientGetsThrough(num: nat, events: seq<Event>, k: nat) returns (more: seq<Event>)
    requires 1 <= num <= 256 && k in Run(Begin(num), events).clients && !Run(Begin(num), events).searching
    ensures
      var w := Run(Begin(num), events);
      && NoOpens(more) && (CanGoOn(w, k) ==> StepsOfClient(more, k))
      && FullGroup(k, num) in Run(w, more).accepted && !Run(w, more).searching
  {
    hide Run, Step, FullGroup, Inv, Lead, SomeFree;
    StartsWell(num);
    RunKeeps(Begin(num), events);
    var w := Run(Begin(num), events);
    if CanGoOn(w, k) {
      more := GetsThrough(w, k);
    } else {
      var l := SomeoneGoesOn(w);
      var first := GetsThrough(w, l);
      RunKeeps(w, first);
      ClientsStay(w, first, k);
      var second := GetsThrough(Run(w, first), k);
      more := first + second;
      RunAppend(w, first, second);
    }
  }

  // ----- a search that goes on for ever

  lemma NothingMore(w: World, e: Event)
    requires w.searching
    ensures Step(w, e).searching && Step(w, e).accepted == w.accepted
  {
    hide IsNextFree, FirstFull, Filed, SomeFree;
  }

  /** From then on nothing is accepted. */
  lemma {:induction false} SearchingForever(w: World, events: seq<Event>)
    requires w.searching
    ensures Run(w, events).searching && Run(w, events).accepted == w.accepted
    decreases |events|
  {
    hide Step;
    if events != [] {
      NothingMore(w, events[0]);
      SearchingForever(Step(w, events[0]), events[1..]);
    }
  }

  ghost predicate GotThrough(w: World, k: nat) {
    exists g :: g in w.accepted && IsGroupOf(g, k, w.num)
  }

  lemma GotThroughIs(w: World, k: nat)
    ensures GotThrough(w, k) <==> FullGroup(k, w.num) in w.accepted
  {
    hide FullGroup;
    GroupIs(FullGroup(k, w.num), k, w.num);
    if g :| g in w.accepted && IsGroupOf(g, k, w.num) {
      GroupIs(g, k, w.num);
    }
  }

  ghost predicate MayGetThrough(w: World, k: nat) {
    exists more: seq<Event> :: GotThrough(Run(w, more), k)
  }

  /** A client's group can still be accepted if and only if it was already, or no search goes on for ever. */
  lemma GetsThroughIffNoneSearches(num: nat, events: seq<Event>, k: nat)
    requires 1 <= num <= 256 && k in Run(Begin(num), events).clients
    ensures
      var w := Run(Begin(num), events);
      MayGetThrough(w, k) <==> GotThrough(w, k) || !w.searching
  {
    StartsWell(num);
    RunKeeps(Begin(num), events);
    var w := Run(Begin(num), events);
    assert Run(w, []) == w;
    hide Run, FullGroup, Step, Inv, CanGoOn, GotThrough;
    if !w.searching {
      var more := EveryClientGetsThrough(num, events, k);
      RunKeeps(w, more);
      GotThroughIs(Run(w, more), k);
    } else if more: seq<Event> :| GotThrough(Run(w, more), k) {
      RunKeeps(w, more);
      SearchingForever(w, more);
    }
  }

  function Numbers(n: nat): (r: set<nat>)
    ensures |r| == n && forall x: nat :: x in r <==> 1 <= x <= n
  {
    if n == 0 then {} else Numbers(n - 1) + {n}
  }

  lemma SubsetSize(a: set<nat>, b: set<nat>)
    requires a <= b
    ensures |a| <= |b| && (|a| == |b| <==> a == b)
  {
    assert b == a + (b - a);
    assert |b| == |a| + |b - a|;
  }

  /** No number is free exactly if 1023 are taken. */
  lemma FullIff(w: World)
    requires Inv(w)
    ensures |w.used| < MAX_PORT_SEQ && (SomeFree(w.used) <==> |w.used| < MAX_PORT_SEQ - 1)
  {
    var all := Numbers(MAX_PORT_SEQ - 1);
    forall n | n in w.used
      ensures n in all
    {
      assert NumberOk(w, n);
    }
    hide Inv;
    SubsetSize(w.used, all);
    if |w.used| < MAX_PORT_SEQ - 1 {
      var n :| n in all && n !in w.used;
    }
  }

  /** A first connection asks while 1023 numbers are taken. */
  ghost predicate AsksWhenFull(w: World, e: Event) {
    e.Search? && Asks(w, e.k, e.i) && |w.used| == MAX_PORT_SEQ - 1
  }

  /** The event after the first `i` is such a request. */
  ghost predicate AsksAt(w: World, events: seq<Event>, i: nat) {
    i < |events| && AsksWhenFull(Run(w, events[..i]), events[i])
  }

  ghost predicate SomeoneAsksWhenFull(w: World, events: seq<Event>) {
    exists i :: AsksAt(w, events, i)
  }

  lemma StartsSearching(w: World, e: Event)
    requires Inv(w)
    ensures Step(w, e).searching <==> w.searching || AsksWhenFull(w, e)
  {
    hide IsNextFree, FirstFull, Filed, Asks, NumberOk, ClientOk, Settled, AcceptedOk, Distinct;
    FullIff(w);
  }

  lemma RunTake(w: World, events: seq<Event>, i: nat)
    requires 0 < i <= |events|
    ensures Run(w, events[..i]) == Run(Step(w, events[0]), events[1..][..i - 1])
  {
    assert events[..i][0] == events[0] && events[..i][1..] == events[1..][..i - 1];
  }

  /** A search goes on for ever exactly if some first connection asked while 1023 numbers were taken. */
  lemma {:induction false} SearchesIffAskedWhenFull(w: World, events: seq<Event>)
    requires Inv(w)
    ensures Run(w, events).searching <==> w.searching || SomeoneAsksWhenFull(w, events)
    decreases |events|
  {
    hide Inv, Step, AsksWhenFull;
    if events != [] {
      var v := Step(w, events[0]);
      StepKeeps(w, events[0]);
      StartsSearching(w, events[0]);
      SearchesIffAskedWhenFull(v, events[1..]);
      assert events[..0] == [] && Run(w, events[..0]) == w;
      assert AsksAt(w, events, 0) <==> AsksWhenFull(w, events[0]);
      if i: nat :| AsksAt(v, events[1..], i) {
        RunTake(w, events, i + 1);
        assert AsksAt(w, events, i + 1);
      }
      if i: nat :| AsksAt(w, events, i) && i > 0 {
        RunTake(w, events, i);
        assert AsksAt(v, events[1..], i - 1);
      }
    }
  }

  /**
   In every state of every run: a client's group can still be accepted if and only
   if it was already, or no first connection asked while 1023 numbers were taken.
   */
  lemma GetsThroughIffNoneAskedWhenFull(num: nat, events: seq<Event>, k: nat)
    requires 1 <= num <= 256 && k in Run(Begin(num), events).clients
    ensures
      var w := Run(Begin(num), events);
      MayGetThrough(w, k) <==> GotThrough(w, k) || !SomeoneAsksWhenFull(Begin(num), events)
  {
    hide Run, Inv, MayGetThrough, GotThrough, SomeoneAsksWhenFull;
    StartsWell(num);
    GetsThroughIffNoneSearches(num, events, k);
    SearchesIffAskedWhenFull(Begin(num), events);
  }

  // ----- more connections than one octet can tell apart

  predicate PendingNumber(w: World, k: nat, i: nat) {
    Has(w, k, i) && LinkOf(w, k, i).Numbered?
  }

  /** The last slot of every group stays empty, because no connection names it. */
  ghost predicate Stalled(w: World) {
    && w.num > 256 && w.accepted == [] && w.groups.Keys <= w.used
    && (forall n :: n in w.groups ==> |w.groups[n]| == w.num && w.groups[n][w.num - 1] == None)
    && (forall k, i :: PendingNumber(w, k, i) ==> LinkOf(w, k, i).number in w.used - w.groups.Keys)
    && (forall k, i, l, j :: PendingNumber(w, k, i) && PendingNumber(w, l, j) && LinkOf(w, k, i) == LinkOf(w, l, j) ==>
      k == l && i == j)
  }

  /** Moving on from anywhere to anywhere but `Numbered` adds no pending number. */
  lemma NothingPends(w: World, k: nat, i: nat, l: Link, x: nat, y: nat)
    requires Has(w, k, i) && !l.Numbered? && PendingNumber(SetLink(w, k, i, l), x, y)
    ensures PendingNumber(w, x, y) && LinkOf(SetLink(w, k, i, l), x, y) == LinkOf(w, x, y) && (x != k || y != i)
  {
  }

  lemma StalledByMove(w: World, k: nat, i: nat, l: Link)
    requires Stalled(w) && Has(w, k, i) && !l.Numbered?
    ensures Stalled(SetLink(w, k, i, l))
  {
    hide Stalled;
    var v := SetLink(w, k, i, l);
    forall x, y | PendingNumber(v, x, y)
      ensures PendingNumber(w, x, y) && LinkOf(v, x, y) == LinkOf(w, x, y)
    {
      NothingPends(w, k, i, l, x, y);
    }
    hide SetLink;
    StalledSame(w, v);
  }

  /** Steps that touch neither numbers nor groups. */
  lemma StalledByTalk(w: World, e: Event)
    requires Stalled(w) && (e.Tell? || e.Quote? || e.Hear?)
    ensures Stalled(Step(w, e))
  {
    hide Stalled, FirstFull, Filed, IsNextFree, Slot, SetLink;
    if Step(w, e) != w {
      StalledByMove(w, e.k, e.i, if e.Quote? then Sent(w.clients[e.k].number) else Ready(LinkOf(w, e.k, e.i).number));
    }
  }

  lemma SamePending(w: World, v: World, x: nat, y: nat)
    requires v.clients == w.clients
    ensures PendingNumber(v, x, y) == PendingNumber(w, x, y)
  {
  }

  lemma StalledBySearch(w: World, k: nat, i: nat)
    requires Stalled(w)
    ensures Stalled(Step(w, Search(k, i)))
  {
    hide Stalled, SomeFree, Asks, PendingNumber;
    var v := Step(w, Search(k, i));
    forall x, y
      ensures PendingNumber(v, x, y) == PendingNumber(w, x, y)
    {
      SamePending(w, v, x, y);
    }
    PendingIsHere(w);
    StalledSame(w, v);
  }

  lemma PendingIsHere(w: World)
    ensures forall x, y :: PendingNumber(w, x, y) ==> Has(w, x, y)
  {
  }

  lemma StalledByClient(w: World, e: Event)
    requires Stalled(w) && (e.Open? || e.Learn?)
    ensures Stalled(Step(w, e))
  {
    hide Stalled, Slot;
    var v := Step(w, e);
    forall x, y | PendingNumber(v, x, y)
      ensures PendingNumber(w, x, y) && LinkOf(v, x, y) == LinkOf(w, x, y)
    {
    }
    StalledSame(w, v);
  }

  lemma StalledSame(w: World, v: World)
    requires Stalled(w) && v.num == w.num && v.accepted == w.accepted && v.groups == w.groups && v.used == w.used
    requires forall x, y :: PendingNumber(v, x, y) ==> PendingNumber(w, x, y) && LinkOf(v, x, y) == LinkOf(w, x, y)
    ensures Stalled(v)
  {
    hide PendingNumber;
  }

  lemma StalledByNumber(w: World, k: nat, i: nat, n: nat)
    requires Stalled(w)
    ensures Stalled(Step(w, Allocate(k, i, n)))
  {
    hide Filed, FirstFull;
    var v := Step(w, Allocate(k, i, n));
    if v != w {
      TakenNumber(w.used, w.portSeq, n);
      hide IsNextFree, Following;
      forall x, y | PendingNumber(v, x, y) && (x != k || y != i)
        ensures PendingNumber(w, x, y) && LinkOf(v, x, y) == LinkOf(w, x, y)
      {
      }
    }
  }

  lemma StalledByGroup(w: World, k: nat, i: nat)
    requires Stalled(w)
    ensures Stalled(Step(w, MakeGroup(k, i)))
  {
    hide Filed, FirstFull, IsNextFree;
    var v := Step(w, MakeGroup(k, i));
    if v != w {
      var n := LinkOf(w, k, i).number;
      assert PendingNumber(w, k, i);
      forall x, y | PendingNumber(v, x, y)
        ensures PendingNumber(w, x, y) && LinkOf(v, x, y) == LinkOf(w, x, y) && (x != k || y != i)
      {
        NothingPends(w.(groups := w.groups[n := [] + Nulls(w.num)]), k, i, Grouped(n), x, y);
      }
    }
  }

  predicate LastSlotEmpty(g: seq<Option<Conn>>, num: nat) {
    |g| == num > 256 && g[num - 1] == None
  }

  lemma StalledGroup(w: World, n: nat)
    requires Stalled(w) && n in w.groups
    ensures LastSlotEmpty(w.groups[n], w.num)
  {
    hide PendingNumber;
  }

  lemma StalledWith(w: World, n: nat, g: seq<Option<Conn>>)
    requires Stalled(w) && n in w.groups && LastSlotEmpty(g, w.num)
    ensures Stalled(w.(groups := w.groups[n := g]))
  {
    hide PendingNumber;
    var v := w.(groups := w.groups[n := g]);
    assert v.groups.Keys == w.groups.Keys;
    assert forall x, y :: PendingNumber(v, x, y) == PendingNumber(w, x, y) by {
      hide Stalled;
      forall x, y
        ensures PendingNumber(v, x, y) == PendingNumber(w, x, y)
      {
        SamePending(w, v, x, y);
      }
    }
  }

  lemma StalledByFiling(w: World, k: nat, i: nat)
    requires Stalled(w)
    ensures Stalled(Step(w, File(k, i)))
  {
    hide Stalled, Filed, FirstFull, SetLink;
    if Has(w, k, i) && LinkOf(w, k, i).Ready? && !w.mapHeld {
      var n := LinkOf(w, k, i).number;
      if n in w.groups {
        StalledGroup(w, n);
        var g := Filed(w.groups[n], Slot(i), Conn(k, i));
        LastSlotStays(w.groups[n], Slot(i), Conn(k, i));
        StalledWith(w, n, g);
        StalledByMove(w.(groups := w.groups[n := g]), k, i, Joined(n));
      } else {
        StalledSame(w, Step(w, File(k, i)));
      }
    }
  }

  lemma NothingToAccept(w: World)
    requires Stalled(w)
    ensures Step(w, Accept) == w
  {
    assert FirstFull(w, 0) == None;
  }

  lemma LastSlotStays(g: seq<Option<Conn>>, s: nat, c: Conn)
    requires s + 1 < |g| && g[|g| - 1] == None
    ensures |Filed(g, s, c)| == |g| && Filed(g, s, c)[|g| - 1] == None
  {
    var r := g[s := Some(c)];
    assert r[|g| - 1] == None;
  }

  /** With more than 256 connections no group ever fills up: `accept` never returns. */
  lemma TooManyNeverMeet(num: nat, events: seq<Event>)
    requires num > 256
    ensures Run(Begin(num), events).accepted == []
  {
    StaysStalled(Begin(num), events);
  }

  lemma {:induction false} StaysStalled(w: World, events: seq<Event>)
    requires Stalled(w)
    ensures Run(w, events).accepted == []
    decreases |events|
  {
    if events != [] {
      hide Stalled, Step;
      match events[0] {
        case Allocate(k, i, n) => StalledByNumber(w, k, i, n);
        case MakeGroup(k, i) => StalledByGroup(w, k, i);
        case File(k, i) => StalledByFiling(w, k, i);
        case Accept => NothingToAccept(w);
        case Open(_) => StalledByClient(w, events[0]);
        case Learn(_, _) => StalledByClient(w, events[0]);
        case Search(k, i) => StalledBySearch(w, k, i);
        case e => StalledByTalk(w, e);
      }
      StaysStalled(Step(w, events[0]), events[1..]);
    }
  }
}
