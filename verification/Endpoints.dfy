/**
 Two endpoints that talk over a pair of buffered channels: when can both end
 up waiting for each other? Only octet counts matter here.
 */
module Endpoints {
  import opened Bytes
  import opened Memory
  import opened Senders

  /** What an endpoint's program does: `send_data`, `recv_data`, `flush`, `start_async_flush` and `stop_async_flush` calls. */
  datatype Op = Send(n: Count) | Recv(n: Count) | Flush | StartAsync | StopAsync

  /** Sends and receives move at least one octet. */
  type Count = n: nat | n > 0 witness 1

  type Script = seq<Op>

  /** Octets a script has sent, or been given, before position `i`. */
  function Sent(s: Script, i: nat): nat
    requires i <= |s|
  {
    if i == 0 then 0 else Sent(s, i - 1) + if s[i - 1].Send? then s[i - 1].n else 0
  }

  function Got(s: Script, i: nat): nat
    requires i <= |s|
  {
    if i == 0 then 0 else Got(s, i - 1) + if s[i - 1].Recv? then s[i - 1].n else 0
  }

  /** Octets left in the send buffer, and octets emitted, by a call with `n` octets on `b` buffered ones. */
  function Left(b: nat, n: nat): nat {
    if n > 0 && b + n < ROOM then b + n else if n < ROOM then n else 0
  }

  function Emitted(b: nat, n: nat): nat {
    b + n - Left(b, n)
  }

  /** These are the counts of the byte-level sender. */
  lemma CountsMatchSender(s: SendState, data: seq<byte>)
    requires |s.pending| < ROOM
    ensures |After(s, data).pending| == Left(|s.pending|, |data|)
    ensures |Flatten(Cut(s, data))| == Emitted(|s.pending|, |data|)
  {
    SendConserves(s, data);
    assert |Flatten(Cut(s, data)) + After(s, data).pending| == |s.pending + data|;
  }

  /** One endpoint: where its program is, its buffer, its flush queue, and what reached the wire. */
  datatype End = End(pos: nat, hasSent: bool, async: bool, buffered: nat, queued: nat, sent: nat, got: nat, done: bool)

  /**
   `send_data_internal` with `n` octets. The frames of one call are put one by
   one, but a program inside the call waits for nobody, and the flusher may take
   its time: one move stands for them all.
   */
  function Emit(e: End, n: nat): End {
    var k := Emitted(e.buffered, n);
    var f := e.(buffered := Left(e.buffered, n), hasSent := e.hasSent || n > 0);
    if e.async then f.(queued := e.queued + k) else f.(sent := e.sent + k)
  }

  /** The flush that `recv_data_internal` starts with. */
  function FlushIfSent(e: End): End {
    if e.hasSent then Emit(e, 0).(hasSent := false) else e
  }

  /** `start_async_flush` and `stop_async_flush`, the latter behind the join of the flusher. */
  function SwitchedOn(e: End): End {
    if e.async then e else Emit(e, 0).(async := true)
  }

  function SwitchedOff(e: End): End {
    if e.async then Emit(e.(async := false), 0) else e
  }

  /** One step of the program; a receive that has to wait may still flush. The last step is destruction. */
  function StepApp(script: Script, e: End, peer: End): End {
    if e.pos >= |script| then Emit(SwitchedOff(e), 0).(done := true)
    else match script[e.pos]
      case Send(n) => Emit(e, n).(pos := e.pos + 1)
      case Flush => Emit(e, 0).(pos := e.pos + 1)
      case StartAsync => SwitchedOn(e).(pos := e.pos + 1)
      case StopAsync => SwitchedOff(e).(pos := e.pos + 1)
      case Recv(n) =>
        var f := FlushIfSent(e);
        if peer.sent - e.got >= n then f.(pos := e.pos + 1, got := e.got + n) else f
  }

  /** The flusher has emptied its queue and can be joined. */
  predicate CanJoin(e: End) {
    e.async ==> e.queued == 0
  }

  /** The program can take a step that gets it anywhere. */
  predicate CanStep(script: Script, e: End, peer: End) {
    if e.pos >= |script| then !e.done && CanJoin(e)
    else
      && (script[e.pos].Recv? ==> e.hasSent || peer.sent - e.got >= script[e.pos].n)
      && (script[e.pos].StopAsync? ==> CanJoin(e))
  }

  datatype Move = AppA | AppB | FlushA(k: nat) | FlushB(k: nat)

  datatype State = State(a: End, b: End)

  predicate Enabled(p: Script, q: Script, s: State, m: Move) {
    match m
    case AppA => CanStep(p, s.a, s.b)
    case AppB => CanStep(q, s.b, s.a)
    case FlushA(k) => 0 < k <= s.a.queued
    case FlushB(k) => 0 < k <= s.b.queued
  }

  /** A flusher brings some of what is queued to the wire. */
  function Drain(e: End, k: nat): End
    requires k <= e.queued
  {
    e.(queued := e.queued - k, sent := e.sent + k)
  }

  function Next(p: Script, q: Script, s: State, m: Move): State
    requires Enabled(p, q, s, m)
  {
    match m
    case AppA => s.(a := StepApp(p, s.a, s.b))
    case AppB => s.(b := StepApp(q, s.b, s.a))
    case FlushA(k) => s.(a := Drain(s.a, k))
    case FlushB(k) => s.(b := Drain(s.b, k))
  }

  function Initial(async: bool): End {
    End(0, false, async, 0, 0, 0, 0, false)
  }

  /** The state after a sequence of moves, if each of them is enabled when its turn comes. */
  function Run(p: Script, q: Script, s: State, moves: seq<Move>): Option<State>
    decreases |moves|
  {
    if moves == [] then Some(s)
    else if Enabled(p, q, s, moves[0]) then Run(p, q, Next(p, q, s, moves[0]), moves[1..])
    else None
  }

  /**
   Every octet sent is buffered, queued or on the wire, and on the wire after
   destruction; and only a sender that said so has octets buffered.
   */
  predicate EndOk(script: Script, e: End) {
    && e.pos <= |script|
    && e.sent + e.queued + e.buffered == Sent(script, e.pos)
    && e.got == Got(script, e.pos)
    && (!e.hasSent ==> e.buffered == 0)
    && (e.done ==> e.pos == |script| && e.buffered == 0 && !e.async)
    && (!e.async ==> e.queued == 0)
    && e.buffered < ROOM
  }

  lemma EmitAdds(e: End, n: nat)
    requires e.buffered < ROOM
    ensures
      var f := Emit(e, n);
      && f.sent + f.queued + f.buffered == e.sent + e.queued + e.buffered + n
      && f.sent >= e.sent && f.buffered < ROOM && (n == 0 ==> f.buffered == 0)
      && (if e.async then f.sent == e.sent else f.queued == e.queued) && f.hasSent == (e.hasSent || n > 0)
      && f.pos == e.pos && f.async == e.async && f.got == e.got && f.done == e.done
  {
  }

  predicate Switched(e: End, f: End) {
    && f.sent + f.queued + f.buffered == e.sent + e.queued + e.buffered
    && f.sent >= e.sent && f.buffered < ROOM && f.hasSent == e.hasSent && f.pos == e.pos && f.got == e.got && f.done == e.done
    && (!f.hasSent ==> f.buffered == 0) && (!f.async ==> f.queued == 0)
  }

  /** Switching loses nothing, whatever the mode was. */
  lemma SwitchKeeps(e: End)
    requires e.buffered < ROOM && (!e.async ==> e.queued == 0) && (!e.hasSent ==> e.buffered == 0)
    ensures Switched(e, SwitchedOn(e)) && SwitchedOn(e).async
    ensures CanJoin(e) ==> Switched(e, SwitchedOff(e)) && !SwitchedOff(e).async
  {
    hide Emit;
    EmitAdds(e, 0);
    EmitAdds(e.(async := false), 0);
  }

  lemma StepAppKeeps(script: Script, e: End, peer: End)
    requires EndOk(script, e) && CanStep(script, e, peer)
    ensures EndOk(script, StepApp(script, e, peer))
    ensures StepApp(script, e, peer).sent >= e.sent
  {
    hide Emit, SwitchedOn, SwitchedOff;
    EmitAdds(e, 0);
    SwitchKeeps(e);
    if CanJoin(e) {
      EmitAdds(SwitchedOff(e), 0);
    }
    if e.pos < |script| && script[e.pos].Send? {
      EmitAdds(e, script[e.pos].n);
    }
  }

  /**
   What the operations promise: a flush leaves nothing buffered, switching does
   what it says behind a flush, and a receive flushes what was sent before it and
   ends exactly when it has its octets.
   */
  lemma OperationsDo(script: Script, e: End, peer: End)
    requires EndOk(script, e) && CanStep(script, e, peer) && e.pos < |script|
    ensures
      var o, f := script[e.pos], StepApp(script, e, peer);
      && (f.pos == e.pos + 1 <==> (o.Recv? ==> peer.sent - e.got >= o.n))
      && (o.Flush? || o.Recv? ==> f.buffered == 0 && f.async == e.async)
      && (o.Recv? ==> !f.hasSent && f.got == e.got + if f.pos > e.pos then o.n else 0)
      && (o.StartAsync? ==> f.async && (!e.async ==> f.buffered == f.queued == 0))
      && (o.StopAsync? ==> !f.async && (e.async ==> f.buffered == f.queued == 0))
      && (o.Send? ==> f.hasSent && f.async == e.async)
  {
    hide Emit;
    EmitAdds(e, 0);
    EmitAdds(e.(async := false), 0);
    if script[e.pos].Send? {
      EmitAdds(e, script[e.pos].n);
    }
  }

  /** With nothing buffered anywhere, a script at `i` whose peer is at `j` has to wait, or has ended. */
  predicate Waits(s: Script, i: nat, peer: Script, j: nat)
    requires i <= |s| && j <= |peer|
  {
    i == |s| || (s[i].Recv? && Got(s, i) + s[i].n > Sent(peer, j))
  }

  predicate BothWait(p: Script, i: nat, q: Script, j: nat)
    requires i <= |p| && j <= |q|
  {
    Waits(p, i, q, j) && Waits(q, j, p, i)
  }

  /** Two scripts that no position leaves waiting for each other, were every octet sent delivered at once. */
  ghost predicate Compatible(p: Script, q: Script) {
    forall i, j | 0 <= i <= |p| && 0 <= j <= |q| && BothWait(p, i, q, j) :: i == |p| && j == |q|
  }

  ghost predicate Stuck(p: Script, q: Script, s: State) {
    forall m :: !Enabled(p, q, s, m)
  }

  predicate Finished(s: State) {
    s.a.done && s.b.done
  }

  lemma StuckEnd(script: Script, e: End, peer: End)
    requires EndOk(script, e) && !CanStep(script, e, peer) && e.queued == 0
    ensures e.sent == Sent(script, e.pos) && (e.pos == |script| ==> e.done)
    ensures e.pos < |script| ==> script[e.pos].Recv? && e.got + script[e.pos].n > peer.sent
  {
  }

  lemma StuckBothWait(p: Script, q: Script, s: State)
    requires EndOk(p, s.a) && EndOk(q, s.b) && Stuck(p, q, s)
    ensures BothWait(p, s.a.pos, q, s.b.pos)
    ensures s.a.pos == |p| && s.b.pos == |q| ==> Finished(s)
  {
    assert !Enabled(p, q, s, AppA) && !Enabled(p, q, s, AppB);
    assert !Enabled(p, q, s, FlushA(1)) && !Enabled(p, q, s, FlushB(1));
    StuckEnd(p, s.a, s.b);
    StuckEnd(q, s.b, s.a);
  }

  lemma {:induction false} SentGrows(s: Script, i: nat, j: nat)
    requires i <= j <= |s|
    ensures Sent(s, i) <= Sent(s, j) && Got(s, i) <= Got(s, j)
    decreases j - i
  {
    if i < j {
      SentGrows(s, i, j - 1);
    }
  }

  predicate StateOk(p: Script, q: Script, s: State) {
    EndOk(p, s.a) && EndOk(q, s.b)
  }

  lemma MoveKeeps(p: Script, q: Script, s: State, m: Move)
    requires StateOk(p, q, s) && Enabled(p, q, s, m)
    ensures StateOk(p, q, Next(p, q, s, m))
  {
    match m
    case AppA => StepAppKeeps(p, s.a, s.b);
    case AppB => StepAppKeeps(q, s.b, s.a);
    case _ =>
  }

  /** Work left at one end: program steps, a flush a receive still owes, octets not yet on the wire. */
  function Work(script: Script, e: End): int
    requires e.pos <= |script|
  {
    2 * (|script| - e.pos) + (if e.done then 0 else 1) + (if e.hasSent then 1 else 0) + Sent(script, |script|) - e.sent
  }

  lemma WorkIsNat(script: Script, e: End)
    requires EndOk(script, e)
    ensures Work(script, e) >= 0
  {
    SentGrows(script, e.pos, |script|);
  }

  lemma StepAppWorks(script: Script, e: End, peer: End)
    requires EndOk(script, e) && CanStep(script, e, peer)
    ensures StepApp(script, e, peer).pos <= |script|
    ensures Work(script, StepApp(script, e, peer)) < Work(script, e)
  {
    StepAppKeeps(script, e, peer);
  }

  /** Every move does some of the work. */
  lemma MoveWorks(p: Script, q: Script, s: State, m: Move)
    requires StateOk(p, q, s) && Enabled(p, q, s, m)
    ensures
      var t := Next(p, q, s, m);
      t.a.pos <= |p| && t.b.pos <= |q| && Work(p, t.a) + Work(q, t.b) < Work(p, s.a) + Work(q, s.b)
  {
    hide StepApp;
    match m
    case AppA => StepAppWorks(p, s.a, s.b);
    case AppB => StepAppWorks(q, s.b, s.a);
    case _ =>
  }

  /** Every run keeps the accounts, and no run has more moves than there is work. */
  lemma {:induction false} RunKeeps(p: Script, q: Script, s: State, moves: seq<Move>)
    requires StateOk(p, q, s) && Run(p, q, s, moves).Some?
    ensures
      var t := Run(p, q, s, moves).value;
      && StateOk(p, q, t)
      && |moves| + Work(p, t.a) + Work(q, t.b) <= Work(p, s.a) + Work(q, s.b)
    decreases |moves|
  {
    hide StateOk;
    hide Work;
    hide Next;
    hide Enabled;
    if moves != [] {
      MoveKeeps(p, q, s, moves[0]);
      MoveWorks(p, q, s, moves[0]);
      RunKeeps(p, q, Next(p, q, s, moves[0]), moves[1..]);
    }
  }

  /** A program does not pass a receive that its peer, at most at `j`, never serves. */
  lemma WaitHolds(p: Script, e: End, i: nat, q: Script, peer: End, j: nat)
    requires EndOk(p, e) && EndOk(q, peer) && i <= |p| && j <= |q| && Waits(p, i, q, j)
    requires e.pos <= i && peer.pos <= j && CanStep(p, e, peer)
    ensures StepApp(p, e, peer).pos <= i
  {
    hide Emit, SwitchedOn, SwitchedOff;
    EmitAdds(e, 0);
    SwitchKeeps(e);
    if CanJoin(e) {
      EmitAdds(SwitchedOff(e), 0);
    }
    if e.pos < |p| && p[e.pos].Send? {
      EmitAdds(e, p[e.pos].n);
    }
    SentGrows(q, peer.pos, j);
  }

  /** No move passes a position where both scripts wait. */
  lemma MoveStops(p: Script, q: Script, s: State, m: Move, i: nat, j: nat)
    requires StateOk(p, q, s) && Enabled(p, q, s, m)
    requires i <= |p| && j <= |q| && BothWait(p, i, q, j) && s.a.pos <= i && s.b.pos <= j
    ensures Next(p, q, s, m).a.pos <= i && Next(p, q, s, m).b.pos <= j
  {
    hide StepApp, EndOk, Waits, CanStep;
    match m
    case AppA => WaitHolds(p, s.a, i, q, s.b, j);
    case AppB => WaitHolds(q, s.b, j, p, s.a, i);
    case _ =>
  }

  /** No run passes a position where both scripts wait. */
  lemma {:induction false} RunStops(p: Script, q: Script, s: State, moves: seq<Move>, i: nat, j: nat)
    requires StateOk(p, q, s) && Run(p, q, s, moves).Some?
    requires i <= |p| && j <= |q| && BothWait(p, i, q, j) && s.a.pos <= i && s.b.pos <= j
    ensures
      var t := Run(p, q, s, moves).value;
      t.a.pos <= i && t.b.pos <= j
    decreases |moves|
  {
    if moves != [] {
      hide StateOk, Next, Enabled, BothWait;
      var m := moves[0];
      MoveKeeps(p, q, s, m);
      MoveStops(p, q, s, m, i, j);
      RunStops(p, q, Next(p, q, s, m), moves[1..], i, j);
    }
  }

  /** Every run can be continued until nothing can move. */
  lemma {:induction false} RunsToTheEnd(p: Script, q: Script, s: State) returns (moves: seq<Move>)
    requires StateOk(p, q, s)
    ensures Run(p, q, s, moves).Some? && Stuck(p, q, Run(p, q, s, moves).value)
    decreases Work(p, s.a) + Work(q, s.b)
  {
    hide StateOk;
    hide Next;
    hide Enabled;
    hide Work;
    moves := [];
    if m :| Enabled(p, q, s, m) {
      WorkOfBoth(p, q, s);
      MoveKeeps(p, q, s, m);
      MoveWorks(p, q, s, m);
      var rest := RunsToTheEnd(p, q, Next(p, q, s, m));
      moves := [m] + rest;
      assert moves[1..] == rest;
    }
  }

  lemma WorkOfBoth(p: Script, q: Script, s: State)
    requires StateOk(p, q, s)
    ensures s.a.pos <= |p| && s.b.pos <= |q| && Work(p, s.a) >= 0 && Work(q, s.b) >= 0
  {
    WorkIsNat(p, s.a);
    WorkIsNat(q, s.b);
  }

  function Start(x: bool, y: bool): State {
    State(Initial(x), Initial(y))
  }

  /**
   Buffering adds no deadlock and removes none: with either end in either send
   mode and switching it whenever its script says so, every run that can go no
   further has finished both scripts exactly when no position leaves the two
   waiting for each other on a channel that delivers every send at once.
   */
  lemma NoDeadlockIffCompatible(p: Script, q: Script, x: bool, y: bool)
    ensures Compatible(p, q) <==>
      forall moves :: Run(p, q, Start(x, y), moves).Some? && Stuck(p, q, Run(p, q, Start(x, y), moves).value)
        ==> Finished(Run(p, q, Start(x, y), moves).value)
  {
    var s := Start(x, y);
    if Compatible(p, q) {
      forall moves | Run(p, q, s, moves).Some? && Stuck(p, q, Run(p, q, s, moves).value)
        ensures Finished(Run(p, q, s, moves).value)
      {
        RunKeeps(p, q, s, moves);
        StuckBothWait(p, q, Run(p, q, s, moves).value);
      }
    } else {
      var i, j :| 0 <= i <= |p| && 0 <= j <= |q| && BothWait(p, i, q, j) && !(i == |p| && j == |q|);
      var moves := RunsToTheEnd(p, q, s);
      RunStops(p, q, s, moves, i, j);
      RunKeeps(p, q, s, moves);
    }
  }

  // ----- a channel that delivers every send at once

  /** Where the two programs are, and the octets that each has been sent and not yet read. */
  datatype Direct = Direct(i: nat, j: nat, unreadA: nat, unreadB: nat)

  /** The next operation does not have to wait. */
  predicate Goes(s: Script, i: nat, unread: nat) {
    i < |s| && (s[i].Recv? ==> s[i].n <= unread)
  }

  /** A send delivers its octets, a receive takes them, and nothing else does anything. */
  function StepDirect(p: Script, q: Script, s: Direct, left: bool): Direct
    requires if left then Goes(p, s.i, s.unreadA) else Goes(q, s.j, s.unreadB)
  {
    if left then
      match p[s.i]
      case Send(n) => s.(i := s.i + 1, unreadB := s.unreadB + n)
      case Recv(n) => s.(i := s.i + 1, unreadA := s.unreadA - n)
      case _ => s.(i := s.i + 1)
    else
      match q[s.j]
      case Send(n) => s.(j := s.j + 1, unreadA := s.unreadA + n)
      case Recv(n) => s.(j := s.j + 1, unreadB := s.unreadB - n)
      case _ => s.(j := s.j + 1)
  }

  function RunDirect(p: Script, q: Script, s: Direct, moves: seq<bool>): Option<Direct>
    decreases |moves|
  {
    if moves == [] then Some(s)
    else if if moves[0] then Goes(p, s.i, s.unreadA) else Goes(q, s.j, s.unreadB)
    then RunDirect(p, q, StepDirect(p, q, s, moves[0]), moves[1..])
    else None
  }

  predicate DirectOk(p: Script, q: Script, s: Direct) {
    && s.i <= |p| && s.j <= |q|
    && s.unreadA + Got(p, s.i) == Sent(q, s.j) && s.unreadB + Got(q, s.j) == Sent(p, s.i)
  }

  predicate DirectStuck(p: Script, q: Script, s: Direct) {
    !Goes(p, s.i, s.unreadA) && !Goes(q, s.j, s.unreadB)
  }

  const AT_START := Direct(0, 0, 0, 0)

  lemma DirectKeeps(p: Script, q: Script, s: Direct, left: bool)
    requires DirectOk(p, q, s) && if left then Goes(p, s.i, s.unreadA) else Goes(q, s.j, s.unreadB)
    ensures DirectOk(p, q, StepDirect(p, q, s, left))
  {
  }

  lemma {:induction false} DirectRunKeeps(p: Script, q: Script, s: Direct, moves: seq<bool>)
    requires DirectOk(p, q, s) && RunDirect(p, q, s, moves).Some?
    ensures DirectOk(p, q, RunDirect(p, q, s, moves).value)
    decreases |moves|
  {
    hide DirectOk, StepDirect, Goes;
    if moves != [] {
      DirectKeeps(p, q, s, moves[0]);
      DirectRunKeeps(p, q, StepDirect(p, q, s, moves[0]), moves[1..]);
    }
  }

  /** A stuck pair of programs waits, and one that waits is stuck. */
  lemma DirectStuckIff(p: Script, q: Script, s: Direct)
    requires DirectOk(p, q, s)
    ensures DirectStuck(p, q, s) <==> BothWait(p, s.i, q, s.j)
  {
  }

  /** No run gets past positions where both wait. */
  lemma {:induction false} DirectStops(p: Script, q: Script, s: Direct, i: nat, j: nat) returns (moves: seq<bool>)
    requires DirectOk(p, q, s) && i <= |p| && j <= |q| && BothWait(p, i, q, j) && s.i <= i && s.j <= j
    ensures
      var r := RunDirect(p, q, s, moves);
      r.Some? && DirectStuck(p, q, r.value) && r.value.i <= i && r.value.j <= j
    decreases |p| - s.i + |q| - s.j
  {
    hide StepDirect, DirectOk, Waits;
    moves := [];
    if !DirectStuck(p, q, s) {
      var left := Goes(p, s.i, s.unreadA);
      DirectKeeps(p, q, s, left);
      DirectBounded(p, q, s, left, i, j);
      var rest := DirectStops(p, q, StepDirect(p, q, s, left), i, j);
      moves := [left] + rest;
      assert moves[1..] == rest;
    }
  }

  lemma DirectBounded(p: Script, q: Script, s: Direct, left: bool, i: nat, j: nat)
    requires DirectOk(p, q, s) && i <= |p| && j <= |q| && BothWait(p, i, q, j) && s.i <= i && s.j <= j
    requires if left then Goes(p, s.i, s.unreadA) else Goes(q, s.j, s.unreadB)
    ensures
      var t := StepDirect(p, q, s, left);
      t.i <= i && t.j <= j && |p| - t.i + |q| - t.j == |p| - s.i + |q| - s.j - 1
  {
    SentGrows(q, s.j, j);
    SentGrows(p, s.i, i);
  }

  /** On such a channel nothing but the end stops two programs exactly if they are compatible. */
  lemma DirectNeverStuckIff(p: Script, q: Script)
    ensures Compatible(p, q) <==>
      forall moves :: RunDirect(p, q, AT_START, moves).Some? && DirectStuck(p, q, RunDirect(p, q, AT_START, moves).value)
        ==> RunDirect(p, q, AT_START, moves).value.i == |p| && RunDirect(p, q, AT_START, moves).value.j == |q|
  {
    if Compatible(p, q) {
      forall moves | RunDirect(p, q, AT_START, moves).Some? && DirectStuck(p, q, RunDirect(p, q, AT_START, moves).value)
        ensures RunDirect(p, q, AT_START, moves).value.i == |p| && RunDirect(p, q, AT_START, moves).value.j == |q|
      {
        DirectRunKeeps(p, q, AT_START, moves);
        DirectStuckIff(p, q, RunDirect(p, q, AT_START, moves).value);
      }
    } else {
      var i, j :| 0 <= i <= |p| && 0 <= j <= |q| && BothWait(p, i, q, j) && !(i == |p| && j == |q|);
      var moves := DirectStops(p, q, AT_START, i, j);
    }
  }

  /**
   Two programs can get stuck on the buffered channel, with flusher threads and
   in any modes, exactly if they can on one that delivers every send at once.
   */
  lemma BufferingAddsNoDeadlock(p: Script, q: Script, x: bool, y: bool)
    ensures
      (forall moves :: Run(p, q, Start(x, y), moves).Some? && Stuck(p, q, Run(p, q, Start(x, y), moves).value)
        ==> Finished(Run(p, q, Start(x, y), moves).value))
      <==>
      (forall moves :: RunDirect(p, q, AT_START, moves).Some? && DirectStuck(p, q, RunDirect(p, q, AT_START, moves).value)
        ==> RunDirect(p, q, AT_START, moves).value.i == |p| && RunDirect(p, q, AT_START, moves).value.j == |q|)
  {
    hide Compatible, Run, RunDirect, Stuck, DirectStuck, Finished;
    NoDeadlockIffCompatible(p, q, x, y);
    DirectNeverStuckIff(p, q);
  }

  /** The other side of a script: receives for sends and sends for receives. */
  function Dual(s: Script): (r: Script)
    ensures |r| == |s|
  {
    seq(|s|, i requires 0 <= i < |s| => match s[i] case Send(n) => Recv(n) case Recv(n) => Send(n) case o => o)
  }

  lemma {:induction false} DualCounts(s: Script, i: nat)
    requires i <= |s|
    ensures Sent(Dual(s), i) == Got(s, i) && Got(Dual(s), i) == Sent(s, i)
    decreases i
  {
    if i > 0 {
      DualCounts(s, i - 1);
    }
  }

  /** Dual scripts never deadlock. */
  lemma DualIsCompatible(s: Script)
    ensures Compatible(s, Dual(s))
  {
    forall i, j | 0 <= i <= |s| && 0 <= j <= |s| && BothWait(s, i, Dual(s), j)
      ensures i == |s| && j == |s|
    {
      DualCounts(s, i);
      DualCounts(s, j);
      if i < j {
        DualCounts(s, i + 1);
        SentGrows(Dual(s), i + 1, j);
      } else if j < i {
        DualCounts(s, j + 1);
        SentGrows(s, j + 1, i);
      }
    }
  }

  // ----- one exchange after another

  lemma {:induction false} CountsOfPrefix(s: Script, t: Script, i: nat)
    requires i <= |s|
    ensures Sent(s + t, i) == Sent(s, i) && Got(s + t, i) == Got(s, i)
    decreases i
  {
    if i > 0 {
      CountsOfPrefix(s, t, i - 1);
    }
  }

  /** Compatible scripts leave no read unserved in the end. */
  lemma {:induction false} ReadsAreCovered(p: Script, q: Script, i: nat)
    requires Compatible(p, q) && i <= |p|
    ensures Got(p, i) <= Sent(q, |q|)
    decreases i
  {
    if i > 0 {
      ReadsAreCovered(p, q, i - 1);
      assert p[i - 1].Recv? && Got(p, i) > Sent(q, |q|) ==> BothWait(p, i - 1, q, |q|);
    }
  }

  lemma CompatibleFlips(p: Script, q: Script)
    requires Compatible(p, q)
    ensures Compatible(q, p)
  {
    forall i, j | 0 <= i <= |q| && 0 <= j <= |p| && BothWait(q, i, p, j)
      ensures i == |q| && j == |p|
    {
      assert BothWait(p, j, q, i);
    }
  }

  /** A script that waits inside `p` is not helped by what its peer does after the end of `q`. */
  lemma WaitsInPrefix(p: Script, t: Script, q: Script, u: Script, i: nat, j: nat)
    requires i < |p| && j <= |q| + |u| && Waits(p + t, i, q + u, j)
    ensures Waits(p, i, q, if j <= |q| then j else |q|)
  {
    CountsOfPrefix(p, t, i);
    CountsOfPrefix(q, u, if j <= |q| then j else |q|);
    SentGrows(q + u, if j <= |q| then j else |q|, j);
  }

  lemma {:induction false} CountsOfSuffix(s: Script, t: Script, i: nat)
    requires i <= |t|
    ensures Sent(s + t, |s| + i) == Sent(s, |s|) + Sent(t, i) && Got(s + t, |s| + i) == Got(s, |s|) + Got(t, i)
    decreases i
  {
    if i == 0 {
      CountsOfPrefix(s, t, |s|);
    } else {
      CountsOfSuffix(s, t, i - 1);
    }
  }

  /** A script that waits behind `p`, whose reads are covered by `q`, waits in `t` for `u`. */
  lemma WaitsInSuffix(p: Script, t: Script, q: Script, u: Script, i: nat, j: nat)
    requires i <= |t| && j <= |u| && Got(p, |p|) <= Sent(q, |q|)
    requires Waits(p + t, |p| + i, q + u, |q| + j)
    ensures Waits(t, i, u, j)
  {
    CountsOfSuffix(p, t, i);
    CountsOfSuffix(q, u, j);
    assert i < |t| ==> (p + t)[|p| + i] == t[i];
  }

  /** Compatible scripts can follow each other, whatever the first ones left unread. */
  lemma CompatibleInSequence(p: Script, q: Script, t: Script, u: Script)
    requires Compatible(p, q) && Compatible(t, u)
    ensures Compatible(p + t, q + u)
  {
    CompatibleFlips(p, q);
    ReadsAreCovered(p, q, |p|);
    ReadsAreCovered(q, p, |q|);
    forall i, j | 0 <= i <= |p + t| && 0 <= j <= |q + u| && BothWait(p + t, i, q + u, j)
      ensures i == |p + t| && j == |q + u|
    {
      if i < |p| || j < |q| {
        WaitInFirst(p, t, q, u, i, j);
      } else {
        WaitsInSuffix(p, t, q, u, i - |p|, j - |q|);
        WaitsInSuffix(q, u, p, t, j - |q|, i - |p|);
        assert BothWait(t, i - |p|, u, j - |q|);
      }
    }
  }

  /** Nobody waits for each other while one of them is still in the first scripts. */
  lemma WaitInFirst(p: Script, t: Script, q: Script, u: Script, i: nat, j: nat)
    requires Compatible(p, q) && i <= |p + t| && j <= |q + u| && (i < |p| || j < |q|)
    ensures !BothWait(p + t, i, q + u, j)
  {
    if BothWait(p + t, i, q + u, j) {
      var i', j' := if i <= |p| then i else |p|, if j <= |q| then j else |q|;
      if i < |p| {
        WaitsInPrefix(p, t, q, u, i, j);
      }
      if j < |q| {
        WaitsInPrefix(q, u, p, t, j, i);
      }
      assert BothWait(p, i', q, j');
    }
  }

  // ----- sync()

  const SYNC_SERVER: Script := [Send(1), Recv(1)]
  const SYNC_CLIENT: Script := [Recv(1), Send(1), Flush]

  lemma SyncIsCompatible()
    ensures Compatible(SYNC_SERVER, SYNC_CLIENT)
  {
    var s, c := SYNC_SERVER, SYNC_CLIENT;
    assert Sent(s, 0) == 0 && Sent(s, 1) == 1 && Sent(s, 2) == 1 && Got(s, 0) == 0 && Got(s, 1) == 0;
    assert Sent(c, 0) == 0 && Sent(c, 1) == 0 && Sent(c, 2) == 1 && Sent(c, 3) == 1 && Got(c, 0) == 0;
    forall i, j | 0 <= i <= |s| && 0 <= j <= |c| && BothWait(s, i, c, j)
      ensures i == |s| && j == |c|
    {
    }
  }

  /** `sync()` behind compatible scripts. */
  lemma SyncKeepsCompatible(p: Script, q: Script)
    requires Compatible(p, q)
    ensures Compatible(p + SYNC_SERVER, q + SYNC_CLIENT)
  {
    hide Compatible;
    SyncIsCompatible();
    CompatibleInSequence(p, q, SYNC_SERVER, SYNC_CLIENT);
  }

  /** A piece of a protocol: one side's script, the other being its dual, or `sync()` with this side as server or not. */
  datatype Piece = Exchange(script: Script) | Sync(server: bool)

  function Mine(piece: Piece): Script {
    match piece
    case Exchange(s) => s
    case Sync(server) => if server then SYNC_SERVER else SYNC_CLIENT
  }

  function Theirs(piece: Piece): Script {
    match piece
    case Exchange(s) => Dual(s)
    case Sync(server) => if server then SYNC_CLIENT else SYNC_SERVER
  }

  function Here(pieces: seq<Piece>): Script {
    if pieces == [] then [] else Mine(pieces[0]) + Here(pieces[1..])
  }

  function There(pieces: seq<Piece>): Script {
    if pieces == [] then [] else Theirs(pieces[0]) + There(pieces[1..])
  }

  lemma PieceIsCompatible(piece: Piece)
    ensures Compatible(Mine(piece), Theirs(piece))
  {
    hide Compatible;
    match piece
    case Exchange(s) => DualIsCompatible(s);
    case Sync(server) =>
      SyncIsCompatible();
      CompatibleFlips(SYNC_SERVER, SYNC_CLIENT);
  }

  lemma {:induction false} PiecesAreCompatible(pieces: seq<Piece>)
    ensures Compatible(Here(pieces), There(pieces))
    decreases pieces
  {
    hide Compatible, Mine, Theirs;
    if pieces == [] {
      DualIsCompatible([]);
      assert Dual([]) == [];
    } else {
      PieceIsCompatible(pieces[0]);
      PiecesAreCompatible(pieces[1..]);
      CompatibleInSequence(Mine(pieces[0]), Theirs(pieces[0]), Here(pieces[1..]), There(pieces[1..]));
    }
  }

  // ----- flushes and mode switches anywhere

  predicate IsData(o: Op) {
    o.Send? || o.Recv?
  }

  /** The sends and receives among the first `i` operations. */
  function Data(s: Script, i: nat): Script
    requires i <= |s|
  {
    if i == 0 then [] else Data(s, i - 1) + if IsData(s[i - 1]) then [s[i - 1]] else []
  }

  function DataOf(s: Script): Script {
    Data(s, |s|)
  }

  lemma {:induction false} DataGrows(s: Script, i: nat, j: nat)
    requires i <= j <= |s|
    ensures Data(s, i) <= Data(s, j)
    decreases j - i
  {
    if i < j {
      DataGrows(s, i, j - 1);
    }
  }

  /** What a script sent and got before a position depends on its sends and receives only. */
  lemma {:induction false} CountsOfData(s: Script, i: nat)
    requires i <= |s|
    ensures |Data(s, i)| <= |DataOf(s)|
    ensures Sent(DataOf(s), |Data(s, i)|) == Sent(s, i) && Got(DataOf(s), |Data(s, i)|) == Got(s, i)
  {
    DataGrows(s, i, |s|);
    var rest := DataOf(s)[|Data(s, i)|..];
    assert DataOf(s) == Data(s, i) + rest;
    CountsOfPrefix(Data(s, i), rest, |Data(s, i)|);
    CountsWithin(s, i);
  }

  lemma {:induction false} CountsWithin(s: Script, i: nat)
    requires i <= |s|
    ensures Sent(Data(s, i), |Data(s, i)|) == Sent(s, i) && Got(Data(s, i), |Data(s, i)|) == Got(s, i)
    decreases i
  {
    if i > 0 {
      CountsWithin(s, i - 1);
      CountsOfPrefix(Data(s, i - 1), if IsData(s[i - 1]) then [s[i - 1]] else [], |Data(s, i - 1)|);
    }
  }

  /** A send or receive stands behind those before it. */
  lemma DataAt(s: Script, i: nat)
    requires i < |s| && IsData(s[i])
    ensures |Data(s, i)| < |DataOf(s)| && DataOf(s)[|Data(s, i)|] == s[i]
  {
    DataGrows(s, i + 1, |s|);
  }

  /** And so every send and receive has its place in the script. */
  lemma {:induction false} PlaceOf(s: Script, n: nat, x: nat) returns (i: nat)
    requires n <= |s| && x < |Data(s, n)|
    ensures i < n && IsData(s[i]) && |Data(s, i)| == x
    decreases n
  {
    if x < |Data(s, n - 1)| {
      i := PlaceOf(s, n - 1, x);
    } else {
      i := n - 1;
    }
  }

  /** Whether a script waits does not depend on the other operations. */
  lemma WaitsByData(p: Script, i: nat, q: Script, j: nat)
    requires i <= |p| && j <= |q| && (i == |p| || IsData(p[i]))
    ensures |Data(p, i)| <= |DataOf(p)| && |Data(q, j)| <= |DataOf(q)|
    ensures Waits(p, i, q, j) <==> Waits(DataOf(p), |Data(p, i)|, DataOf(q), |Data(q, j)|)
    ensures i == |p| <==> |Data(p, i)| == |DataOf(p)|
  {
    hide Data, Sent, Got;
    CountsOfData(p, i);
    CountsOfData(q, j);
    if i < |p| {
      DataAt(p, i);
    }
  }

  /** The place of a position among the sends and receives: that of its operation, or the end. */
  lemma PlaceOrEnd(s: Script, x: nat) returns (i: nat)
    requires x <= |DataOf(s)|
    ensures i <= |s| && |Data(s, i)| == x && (i == |s| || IsData(s[i]))
  {
    if x == |DataOf(s)| {
      i := |s|;
    } else {
      i := PlaceOf(s, |s|, x);
    }
  }

  /** Whether scripts are compatible depends on their sends and receives only, not on flushes and switches. */
  lemma CompatibleIffData(p: Script, q: Script)
    ensures Compatible(p, q) <==> Compatible(DataOf(p), DataOf(q))
  {
    hide DataOf, Data;
    var d, e := DataOf(p), DataOf(q);
    if Compatible(d, e) {
      forall i, j | 0 <= i <= |p| && 0 <= j <= |q| && BothWait(p, i, q, j)
        ensures i == |p| && j == |q|
      {
        WaitsByData(p, i, q, j);
        WaitsByData(q, j, p, i);
        assert BothWait(d, |Data(p, i)|, e, |Data(q, j)|);
      }
    }
    if Compatible(p, q) {
      forall x, y | 0 <= x <= |d| && 0 <= y <= |e| && BothWait(d, x, e, y)
        ensures x == |d| && y == |e|
      {
        var i := PlaceOrEnd(p, x);
        var j := PlaceOrEnd(q, y);
        WaitsByData(p, i, q, j);
        WaitsByData(q, j, p, i);
        assert BothWait(p, i, q, j);
      }
    }
  }

  /**
   Two programs whose sends and receives are those of a protocol of dual
   exchanges and `sync()` calls, in any number and order, flushing and switching
   their send modes wherever they like: no run ends before both are through.
   */
  lemma ProtocolsNeverDeadlock(pieces: seq<Piece>, p: Script, q: Script, x: bool, y: bool, moves: seq<Move>)
    requires DataOf(p) == DataOf(Here(pieces)) && DataOf(q) == DataOf(There(pieces))
    requires Run(p, q, Start(x, y), moves).Some? && Stuck(p, q, Run(p, q, Start(x, y), moves).value)
    ensures Finished(Run(p, q, Start(x, y), moves).value)
  {
    hide Compatible, Run, Stuck, Finished, DataOf;
    PiecesAreCompatible(pieces);
    CompatibleIffData(Here(pieces), There(pieces));
    CompatibleIffData(p, q);
    NoDeadlockIffCompatible(p, q, x, y);
  }
}
