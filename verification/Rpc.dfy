/** endlab's remote calls: client.c, client_stub.c, server_stub.c and server.c as four
    processes joined by two typed message queues and a packet channel each way.

    There is one client, and the stubs see each other's packets exactly once. The client stub's
    `pcap_next` may time out at any moment; it then goes back to its message queue. Whatever C
    leaves uninitialised is arbitrary. */
module Rpc {
  import opened Machine
  import opened Options
  import opened TypedQueue
  import opened Wire

  datatype Call = Add(a: int, b: int) | Subtract(a: int, b: int)

  predicate CInts(c: Call) { Int32(c.a) && Int32(c.b) }

  function Name(c: Call): seq<Byte> { if c.Add? then ADD else SUBTRACT }

  /** What the caller asks for. */
  function Exact(c: Call): int { if c.Add? then c.a + c.b else c.a - c.b }

  type Packet = p: seq<Byte> | |p| == PACKET witness seq(PACKET, _ => 0)

  datatype ClientStub = CsIdle | CsRequest(h: Hdr) | CsWait | CsReply(h: Hdr)
  datatype ServerStub = SsIdle | SsRequest(h: Hdr) | SsWait | SsReply(h: Hdr)
  datatype Server = SvIdle | SvRequest(h: Hdr)

  datatype Printed = Printed(call: Call, result: int)

  /** `waiting` is the client's call in progress; `printed` is its output so far. */
  datatype State = State(
    waiting: Option<Call>, clientQueue: seq<Msg<Hdr>>, cs: ClientStub, toServer: seq<Packet>, toClient: seq<Packet>,
    ss: ServerStub, serverQueue: seq<Msg<Hdr>>, sv: Server, calls: seq<Call>, printed: seq<Printed>)

  const Init := State(None, [], CsIdle, [], [], SsIdle, [], SvIdle, [], [])

  /** The moves; `stale` and `junk` stand for uninitialised memory. */
  datatype Move =
    | Request(call: Call, stale: int)
    | ClientReads
    | ClientStubStep(junk: Packet)
    | Timeout
    | ServerStubStep(junk: Packet, junkReturn: int)
    | ServerStep

  /** client.c: `add` or `subtract` up to its `msgsnd`. */
  function Send1(s: State, c: Call, stale: int): State {
    if s.waiting.Some? || !CInts(c) then s
    else
      var h := Hdr(Name(c), Htons(1), stale, Htons(c.a), Htons(c.b));
      s.(waiting := Some(c), calls := s.calls + [c], clientQueue := Send(s.clientQueue, 1, h))
  }

  /** ... and from its `msgrcv` on. */
  function Print(s: State): State {
    if s.waiting.None? || OfType(s.clientQueue, 4) == [] then s
    else
      var (h, rest) := Receive(s.clientQueue, 4);
      s.(waiting := None, clientQueue := rest, printed := s.printed + [Printed(s.waiting.value, h.returnVal)])
  }

  function RunClientStub(s: State, junk: Packet): State {
    match s.cs
    case CsIdle =>
      if OfType(s.clientQueue, 1) == [] then s
      else
        var (h, rest) := Receive(s.clientQueue, 1);
        s.(clientQueue := rest, cs := CsRequest(h))
    case CsRequest(h) =>
      if !CString(h.name) then s else s.(toServer := s.toServer + [Filled(junk, h, false)], cs := CsWait)
    case CsWait =>
      if s.toClient == [] then s else s.(toClient := s.toClient[1..], cs := CsReply(Extracted(s.toClient[0])))
    case CsReply(h) => s.(clientQueue := Send(s.clientQueue, 4, h), cs := CsIdle)
  }

  function RunServerStub(s: State, junk: Packet, junkReturn: int): State {
    match s.ss
    case SsIdle =>
      if s.toServer == [] then s
      else
        // the server stub's extract_rpc leaves return_val as it was
        var h := Extracted(s.toServer[0]);
        s.(toServer := s.toServer[1..], ss := SsRequest(h.(returnVal := junkReturn)))
    case SsRequest(h) => s.(serverQueue := Send(s.serverQueue, 2, h), ss := SsWait)
    case SsWait =>
      if OfType(s.serverQueue, 3) == [] then s
      else
        var (h, rest) := Receive(s.serverQueue, 3);
        s.(serverQueue := rest, ss := SsReply(h))
    case SsReply(h) =>
      if !CString(h.name) then s else s.(toClient := s.toClient + [Filled(junk, h, true)], ss := SsIdle)
  }

  /** The dispatch of server.c. */
  function Serve(h: Hdr): Hdr {
    if h.name == ADD then h.(returnVal := Htons(h.arg1 + h.arg2), opcode := Htons(2))
    else if h.name == SUBTRACT then h.(returnVal := Htons(h.arg1 - h.arg2), opcode := Htons(2))
    else h.(returnVal := -1, opcode := Htons(2))
  }

  function RunServer(s: State): State {
    match s.sv
    case SvIdle =>
      if OfType(s.serverQueue, 2) == [] then s
      else
        var (h, rest) := Receive(s.serverQueue, 2);
        s.(serverQueue := rest, sv := SvRequest(h))
    case SvRequest(h) => s.(serverQueue := Send(s.serverQueue, 3, Serve(h)), sv := SvIdle)
  }

  /** `pcap_next` timed out. */
  function GiveUp(s: State): State {
    if s.cs == CsWait then s.(cs := CsIdle) else s
  }

  function Step(s: State, m: Move): State {
    match m
    case Request(c, stale) => Send1(s, c, stale)
    case ClientReads => Print(s)
    case ClientStubStep(junk) => RunClientStub(s, junk)
    case Timeout => GiveUp(s)
    case ServerStubStep(junk, junkReturn) => RunServerStub(s, junk, junkReturn)
    case ServerStep => RunServer(s)
  }

  function Run(moves: seq<Move>): State {
    if moves == [] then Init
    else
      var n := |moves| - 1;
      Step(Run(moves[..n]), moves[n])
  }

  ghost predicate Reachable(s: State) {
    exists moves :: Run(moves) == s
  }

  /** The request as the client sends it, as the server sees it, and the replies. */
  predicate RequestOut(h: Hdr, c: Call) {
    h.name == Name(c) && h.opcode == Htons(1) && h.arg1 == Htons(c.a) && h.arg2 == Htons(c.b)
  }

  predicate RequestIn(h: Hdr, c: Call) {
    h.name == Name(c) && h.opcode == Low16(1) && h.arg1 == Low16(c.a) && h.arg2 == Low16(c.b)
  }

  predicate ReplyOut(h: Hdr, c: Call) {
    h.name == Name(c) && h.opcode == Htons(2) && h.returnVal == Htons(Exact(c)) && Int32(h.arg1) && Int32(h.arg2)
  }

  predicate ReplyIn(h: Hdr, c: Call) {
    h.name == Name(c) && h.opcode == Low16(2) && h.returnVal == Low16(Exact(c))
  }

  /** The request is in exactly one place, and carries the right content there. */
  datatype Place = InClientQueue | AtClientStub | OnWire | AtServerStub | InServerQueue | AtServer
                 | ReplyQueued | ReplyAtServerStub | ReplyOnWire | ReplyAtClientStub | ReplyInClientQueue

  ghost predicate At(s: State, c: Call, p: Place) {
    // elsewhere: everything that is not this place is empty or idle
    && (p != InClientQueue && p != ReplyInClientQueue ==> s.clientQueue == [])
    && (p != InServerQueue && p != ReplyQueued ==> s.serverQueue == [])
    && (p != OnWire ==> s.toServer == [])
    && (p != ReplyOnWire ==> s.toClient == [])
    && (p != AtServer ==> s.sv == SvIdle)
    && (match p
        case AtServerStub => s.ss.SsRequest? && RequestIn(s.ss.h, c)
        case InServerQueue => s.ss == SsWait
        case AtServer => s.ss == SsWait && s.sv.SvRequest? && RequestIn(s.sv.h, c)
        case ReplyQueued => s.ss == SsWait
        case ReplyAtServerStub => s.ss.SsReply? && ReplyOut(s.ss.h, c)
        case _ => s.ss == SsIdle)
    && (match p
        case InClientQueue =>
          && s.cs == CsIdle
          && |s.clientQueue| == 1 && s.clientQueue[0].mtype == 1 && RequestOut(s.clientQueue[0].body, c)
        case AtClientStub => s.cs.CsRequest? && RequestOut(s.cs.h, c)
        case ReplyAtClientStub => s.cs.CsReply? && ReplyIn(s.cs.h, c)
        case ReplyInClientQueue =>
          && s.cs == CsIdle
          && |s.clientQueue| == 1 && s.clientQueue[0].mtype == 4 && ReplyIn(s.clientQueue[0].body, c)
        case _ => s.cs == CsWait || s.cs == CsIdle)
    && (p == OnWire ==> |s.toServer| == 1 && RequestIn(Extracted(s.toServer[0]), c))
    && (p == ReplyOnWire ==> |s.toClient| == 1 && ReplyIn(Extracted(s.toClient[0]), c))
    && (p == InServerQueue ==>
          |s.serverQueue| == 1 && s.serverQueue[0].mtype == 2 && RequestIn(s.serverQueue[0].body, c))
    && (p == ReplyQueued ==>
          |s.serverQueue| == 1 && s.serverQueue[0].mtype == 3 && ReplyOut(s.serverQueue[0].body, c))
  }

  ghost predicate Somewhere(s: State, c: Call) {
    exists p :: At(s, c, p)
  }

  ghost predicate Quiet(s: State) {
    && s.clientQueue == [] && s.serverQueue == [] && s.toServer == [] && s.toClient == []
    && s.cs == CsIdle && s.ss == SsIdle && s.sv == SvIdle
  }

  /** Everything printed so far answers the calls so far, in order. */
  ghost predicate PrintedInv(waiting: Option<Call>, calls: seq<Call>, printed: seq<Printed>) {
    && |calls| == |printed| + (if waiting.Some? then 1 else 0)
    && (waiting.Some? ==> calls[|printed|] == waiting.value && CInts(waiting.value))
    && forall k: nat :: k < |printed| ==> printed[k] == Printed(calls[k], Low16(Exact(calls[k])))
  }

  ghost predicate Inv(s: State) {
    && PrintedInv(s.waiting, s.calls, s.printed)
    && (if s.waiting.None? then Quiet(s) else Somewhere(s, s.waiting.value))
  }

  /** A queue of one message. */
  lemma Single(q: seq<Msg<Hdr>>, t: nat)
    requires |q| == 1
    ensures OfType(q, t) == if q[0].mtype == t then [q[0].body] else []
    ensures q[0].mtype == t ==> Receive(q, t) == (q[0].body, [])
  {
    assert q[1..] == [];
    if q[0].mtype == t {
      assert First(q, t) == 0 && q[..0] + q[0 + 1..] == [];
    }
  }

  lemma FieldCrosses(x: int, sent: int, got: int)
    requires sent == Htons(x) && got == Htons(sent)
    ensures got == Low16(x)
  {
    SwapTwice(x);
  }

  /** A request and a reply cross the wire. */
  lemma RequestCrosses(b: Packet, h: Hdr, c: Call)
    requires RequestOut(h, c)
    ensures CString(h.name) && RequestIn(Extracted(Filled(b, h, false)), c)
  {
    WireRoundTrip(b, h, false);
    var r := Extracted(Filled(b, h, false));
    FieldCrosses(1, h.opcode, r.opcode);
    FieldCrosses(c.a, h.arg1, r.arg1);
    FieldCrosses(c.b, h.arg2, r.arg2);
  }

  lemma ReplyCrosses(b: Packet, h: Hdr, c: Call)
    requires ReplyOut(h, c)
    ensures CString(h.name) && ReplyIn(Extracted(Filled(b, h, true)), c)
  {
    WireRoundTrip(b, h, true);
    var r := Extracted(Filled(b, h, true));
    FieldCrosses(2, h.opcode, r.opcode);
    FieldCrosses(Exact(c), h.returnVal, r.returnVal);
  }

  lemma RequestInv(s: State, c: Call, stale: int)
    requires Inv(s) && s.waiting.None? && CInts(c)
    ensures Inv(Send1(s, c, stale))
  {
    assert At(Send1(s, c, stale), c, InClientQueue);
  }

  lemma PrintInv(s: State, p: Place)
    requires s.waiting.Some? && PrintedInv(s.waiting, s.calls, s.printed) && At(s, s.waiting.value, p)
    ensures Inv(Print(s))
  {
    if p == ReplyInClientQueue {
      Single(s.clientQueue, 4);
      PrintedGrows(s.waiting.value, s.calls, s.printed, s.clientQueue[0].body.returnVal);
    } else {
      if |s.clientQueue| == 1 { Single(s.clientQueue, 4); }
      assert Print(s) == s;
    }
  }

  lemma PrintedGrows(c: Call, calls: seq<Call>, printed: seq<Printed>, x: int)
    requires PrintedInv(Some(c), calls, printed) && x == Low16(Exact(c))
    ensures PrintedInv(None, calls, printed + [Printed(c, x)])
  {
  }

  /** The client stub takes the request ... */
  lemma RequestTaken(s: State, junk: Packet)
    requires s.waiting.Some? && At(s, s.waiting.value, InClientQueue)
    ensures At(RunClientStub(s, junk), s.waiting.value, AtClientStub)
  {
    Single(s.clientQueue, 1);
  }

  /** ... sends it ... */
  lemma RequestSent(s: State, junk: Packet)
    requires s.waiting.Some? && CInts(s.waiting.value) && At(s, s.waiting.value, AtClientStub)
    ensures At(RunClientStub(s, junk), s.waiting.value, OnWire)
  {
    RequestCrosses(junk, s.cs.h, s.waiting.value);
    assert RunClientStub(s, junk).toServer == [Filled(junk, s.cs.h, false)];
  }

  /** ... has the reply, if it still waits ... */
  lemma ReplyTaken(s: State, junk: Packet)
    requires s.waiting.Some? && At(s, s.waiting.value, ReplyOnWire) && s.cs == CsWait
    ensures At(RunClientStub(s, junk), s.waiting.value, ReplyAtClientStub)
  {
  }

  /** ... and hands it on. */
  lemma ReplyDelivered(s: State, junk: Packet)
    requires s.waiting.Some? && At(s, s.waiting.value, ReplyAtClientStub)
    ensures At(RunClientStub(s, junk), s.waiting.value, ReplyInClientQueue)
  {
  }

  /** Elsewhere it has nothing to do. */
  lemma ClientStubWaits(s: State, junk: Packet, p: Place)
    requires s.waiting.Some? && At(s, s.waiting.value, p) && (p == ReplyOnWire ==> s.cs == CsIdle)
    requires p != InClientQueue && p != AtClientStub && p != ReplyAtClientStub
    ensures RunClientStub(s, junk) == s
  {
    if |s.clientQueue| == 1 { Single(s.clientQueue, 1); }
  }

  lemma ClientStubMoves(s: State, junk: Packet, p: Place)
    requires s.waiting.Some? && CInts(s.waiting.value) && At(s, s.waiting.value, p)
    ensures Somewhere(RunClientStub(s, junk), s.waiting.value)
  {
    if p == InClientQueue {
      RequestTaken(s, junk);
    } else if p == AtClientStub {
      RequestSent(s, junk);
    } else if p == ReplyOnWire && s.cs == CsWait {
      ReplyTaken(s, junk);
    } else if p == ReplyAtClientStub {
      ReplyDelivered(s, junk);
    } else {
      ClientStubWaits(s, junk, p);
    }
  }

  /** The server stub has the request ... */
  lemma RequestArrives(s: State, junk: Packet, junkReturn: int)
    requires s.waiting.Some? && At(s, s.waiting.value, OnWire)
    ensures At(RunServerStub(s, junk, junkReturn), s.waiting.value, AtServerStub)
  {
  }

  /** ... queues it for the server ... */
  lemma RequestQueued(s: State, junk: Packet, junkReturn: int)
    requires s.waiting.Some? && At(s, s.waiting.value, AtServerStub)
    ensures At(RunServerStub(s, junk, junkReturn), s.waiting.value, InServerQueue)
  {
  }

  /** ... takes the reply ... */
  lemma ReplyFetched(s: State, junk: Packet, junkReturn: int)
    requires s.waiting.Some? && At(s, s.waiting.value, ReplyQueued)
    ensures At(RunServerStub(s, junk, junkReturn), s.waiting.value, ReplyAtServerStub)
  {
    Single(s.serverQueue, 3);
  }

  /** ... and sends it. */
  lemma ReplySent(s: State, junk: Packet, junkReturn: int)
    requires s.waiting.Some? && At(s, s.waiting.value, ReplyAtServerStub)
    ensures At(RunServerStub(s, junk, junkReturn), s.waiting.value, ReplyOnWire)
  {
    ReplyCrosses(junk, s.ss.h, s.waiting.value);
    assert RunServerStub(s, junk, junkReturn).toClient == [Filled(junk, s.ss.h, true)];
  }

  /** Elsewhere it has nothing to do. */
  lemma ServerStubWaits(s: State, junk: Packet, junkReturn: int, p: Place)
    requires s.waiting.Some? && At(s, s.waiting.value, p)
    requires p != OnWire && p != AtServerStub && p != ReplyQueued && p != ReplyAtServerStub
    ensures RunServerStub(s, junk, junkReturn) == s
  {
    if |s.serverQueue| == 1 { Single(s.serverQueue, 3); }
  }

  lemma ServerStubMoves(s: State, junk: Packet, junkReturn: int, p: Place)
    requires s.waiting.Some? && At(s, s.waiting.value, p)
    ensures Somewhere(RunServerStub(s, junk, junkReturn), s.waiting.value)
  {
    if p == OnWire {
      RequestArrives(s, junk, junkReturn);
    } else if p == AtServerStub {
      RequestQueued(s, junk, junkReturn);
    } else if p == ReplyQueued {
      ReplyFetched(s, junk, junkReturn);
    } else if p == ReplyAtServerStub {
      ReplySent(s, junk, junkReturn);
    } else {
      ServerStubWaits(s, junk, junkReturn, p);
    }
  }

  lemma ServerMoves(s: State, p: Place)
    requires s.waiting.Some? && CInts(s.waiting.value) && At(s, s.waiting.value, p)
    ensures Somewhere(RunServer(s), s.waiting.value)
  {
    var t, c := RunServer(s), s.waiting.value;
    if p == InServerQueue {
      Single(s.serverQueue, 2);
      assert At(t, c, AtServer);
    } else if p == AtServer {
      ServeCorrect(s.sv.h, c);
      assert At(t, c, ReplyQueued);
    } else {
      if |s.serverQueue| == 1 { Single(s.serverQueue, 2); }
      assert t == s;
      assert At(t, c, p);
    }
  }

  /** The server works on the low halves; so does the caller's answer. */
  lemma ServeCorrect(h: Hdr, c: Call)
    requires RequestIn(h, c)
    ensures ReplyOut(Serve(h), c)
  {
    if c.Add? {
      SumServed(c.a, c.b, h.arg1, h.arg2);
    } else {
      assert h.name[0] != ADD[0];
      DifferenceServed(c.a, c.b, h.arg1, h.arg2);
    }
  }

  /** Whatever the request, the server answers with its name and arguments unchanged; a function it
      does not know gets -1. */
  lemma ServeOtherwise(h: Hdr)
    ensures var r := Serve(h);
      && r.name == h.name && r.arg1 == h.arg1 && r.arg2 == h.arg2 && Htons(r.opcode) == 2
      && (h.name != ADD && h.name != SUBTRACT ==> r.returnVal == -1)
  {
    SwapTwice(2);
  }

  lemma SumServed(a: int, b: int, x: int, y: int)
    requires x == Low16(a) && y == Low16(b)
    ensures Htons(x + y) == Htons(a + b) && Int32(x) && Int32(y)
  {
    LowOfSum(a, b);
    HtonsCuts(x + y, a + b);
  }

  lemma DifferenceServed(a: int, b: int, x: int, y: int)
    requires x == Low16(a) && y == Low16(b)
    ensures Htons(x - y) == Htons(a - b) && Int32(x) && Int32(y)
  {
    LowOfSum(a, b);
    HtonsCuts(x - y, a - b);
  }

  lemma HtonsCuts(x: int, y: int)
    requires Low16(x) == Low16(y)
    ensures Htons(x) == Htons(y)
  {
  }

  lemma LowOfSum(a: int, b: int)
    ensures Low16(Low16(a) + Low16(b)) == Low16(a + b)
    ensures Low16(Low16(a) - Low16(b)) == Low16(a - b)
  {
    var la, lb := Low16(a), Low16(b);
    Low16IsMod(a);
    Low16IsMod(b);
    Low16IsMod(a + b);
    Low16IsMod(la + lb);
    Low16IsMod(a - b);
    Low16IsMod(la - lb);
    var x, y := a / 0x1_0000, b / 0x1_0000;
    ModShift(la + lb, x + y);
    ModShift(la - lb, x - y);
    assert a + b == (la + lb) + 0x1_0000 * (x + y);
    assert a - b == (la - lb) + 0x1_0000 * (x - y);
  }

  lemma GiveUpMoves(s: State, p: Place)
    requires s.waiting.Some? && At(s, s.waiting.value, p)
    ensures Somewhere(GiveUp(s), s.waiting.value)
  {
    assert At(GiveUp(s), s.waiting.value, p);
  }

  /** The request and the reply move; what the client has printed does not. */
  predicate SameClient(s: State, t: State) {
    t.waiting == s.waiting && t.calls == s.calls && t.printed == s.printed
  }

  lemma InvKept(s: State, t: State)
    requires Inv(s) && SameClient(s, t)
    requires if s.waiting.None? then t == s else Somewhere(t, s.waiting.value)
    ensures Inv(t)
  {
  }

  lemma ClientStubInv(s: State, junk: Packet)
    requires Inv(s)
    ensures Inv(RunClientStub(s, junk))
  {
    var t := RunClientStub(s, junk);
    if s.waiting.Some? {
      var p :| At(s, s.waiting.value, p);
      ClientStubMoves(s, junk, p);
    }
    InvKept(s, t);
  }

  lemma ServerStubInv(s: State, junk: Packet, junkReturn: int)
    requires Inv(s)
    ensures Inv(RunServerStub(s, junk, junkReturn))
  {
    var t := RunServerStub(s, junk, junkReturn);
    if s.waiting.Some? {
      var p :| At(s, s.waiting.value, p);
      ServerStubMoves(s, junk, junkReturn, p);
    }
    InvKept(s, t);
  }

  lemma OtherInv(s: State, m: Move)
    requires Inv(s) && (m.ServerStep? || m.Timeout?)
    ensures Inv(Step(s, m))
  {
    var t := Step(s, m);
    assert SameClient(s, t);
    if s.waiting.Some? {
      var p :| At(s, s.waiting.value, p);
      if m.ServerStep? {
        ServerMoves(s, p);
      } else {
        GiveUpMoves(s, p);
      }
    }
    InvKept(s, t);
  }

  lemma ClientInv(s: State, m: Move)
    requires Inv(s) && (m.Request? || m.ClientReads?)
    ensures Inv(Step(s, m))
  {
    if m.Request? {
      if s.waiting.None? && CInts(m.call) {
        RequestInv(s, m.call, m.stale);
      }
    } else if s.waiting.Some? {
      var p :| At(s, s.waiting.value, p);
      PrintInv(s, p);
    }
  }

  lemma StepInv(s: State, m: Move)
    requires Inv(s)
    ensures Inv(Step(s, m))
  {
    match m
    case ClientStubStep(junk) => ClientStubInv(s, junk);
    case ServerStubStep(junk, junkReturn) => ServerStubInv(s, junk, junkReturn);
    case Request(_, _) => ClientInv(s, m);
    case ClientReads => ClientInv(s, m);
    case _ => OtherInv(s, m);
  }

  lemma {:induction false} RunInv(moves: seq<Move>)
    ensures Inv(Run(moves))
  {
    if moves != [] {
      var n := |moves| - 1;
      RunInv(moves[..n]);
      StepInv(Run(moves[..n]), moves[n]);
    }
  }

  /** In every run, the k-th result printed belongs to the k-th call and is its exact value
      modulo 65536, so it is the exact value precisely when that lies in 0..65535. */
  lemma ResultsBelongToCalls(s: State, k: nat)
    requires Reachable(s) && k < |s.printed|
    ensures |s.printed| <= |s.calls|
    ensures var p := s.printed[k];
            && p.call == s.calls[k]
            && p.result == Exact(p.call) % 0x1_0000
            && (p.result == Exact(p.call) <==> 0 <= Exact(p.call) <= 0xFFFF)
    ensures match s.calls[k]
            case Add(a, b) => s.printed[k].result == (a + b) % 0x1_0000
            case Subtract(a, b) => s.printed[k].result == (a - b) % 0x1_0000
  {
    var moves :| Run(moves) == s;
    RunPrinted(moves);
    Low16IsMod(Exact(s.calls[k]));
  }

  lemma RunPrinted(moves: seq<Move>)
    ensures var s := Run(moves); PrintedInv(s.waiting, s.calls, s.printed)
  {
    RunInv(moves);
  }

  /** The client stub gave up waiting, and the reply it no longer expects is or will be on the wire. */
  predicate GaveUp(s: State) { s.waiting.Some? && s.cs == CsIdle && s.clientQueue == [] }

  ghost predicate CanMove(s: State) {
    exists m :: Step(s, m) != s
  }

  /** A call in progress can always be moved on, except when the client stub timed out and the
      reply has reached the wire: then nothing will ever deliver it. */
  lemma CallProgress(s: State)
    requires Reachable(s) && s.waiting.Some?
    ensures !CanMove(s) <==> GaveUp(s) && s.toClient != []
  {
    var moves :| Run(moves) == s;
    RunInv(moves);
    var p :| At(s, s.waiting.value, p);
    if GaveUp(s) && s.toClient != [] {
      assert p == ReplyOnWire;
    } else {
      var m := Mover(s, p);
    }
  }

  /** The process that has the call, and no timeout. */
  lemma Mover(s: State, p: Place) returns (m: Move)
    requires s.waiting.Some? && At(s, s.waiting.value, p) && !(p == ReplyOnWire && s.cs == CsIdle)
    ensures Step(s, m) != s && !m.Request? && !m.Timeout?
  {
    var z: Packet := seq(PACKET, _ => 0);
    match p
    case InClientQueue | AtClientStub | ReplyOnWire | ReplyAtClientStub =>
      m := ClientStubStep(z);
      ClientStubCanMove(s, p, m);
    case OnWire | AtServerStub | ReplyQueued | ReplyAtServerStub =>
      m := ServerStubStep(z, 0);
      ServerStubCanMove(s, p, m);
    case _ =>
      m := if p == ReplyInClientQueue then ClientReads else ServerStep;
      OthersCanMove(s, p, m);
  }

  lemma ClientStubCanMove(s: State, p: Place, m: Move)
    requires s.waiting.Some? && At(s, s.waiting.value, p) && (p == ReplyOnWire ==> s.cs == CsWait) && m.ClientStubStep?
    requires p == InClientQueue || p == AtClientStub || p == ReplyOnWire || p == ReplyAtClientStub
    ensures Step(s, m) != s
  {
    if p == InClientQueue {
      Single(s.clientQueue, 1);
    } else if p == AtClientStub {
      NameFits(s.waiting.value);
    }
  }

  lemma ServerStubCanMove(s: State, p: Place, m: Move)
    requires s.waiting.Some? && At(s, s.waiting.value, p) && m.ServerStubStep?
    requires p == OnWire || p == AtServerStub || p == ReplyQueued || p == ReplyAtServerStub
    ensures Step(s, m) != s
  {
    if p == ReplyQueued {
      Single(s.serverQueue, 3);
    } else if p == ReplyAtServerStub {
      NameFits(s.waiting.value);
    }
  }

  lemma OthersCanMove(s: State, p: Place, m: Move)
    requires s.waiting.Some? && At(s, s.waiting.value, p)
    requires p == InServerQueue || p == AtServer || p == ReplyInClientQueue
    requires m == if p == ReplyInClientQueue then ClientReads else ServerStep
    ensures Step(s, m) != s
  {
    if p == InServerQueue {
      Single(s.serverQueue, 2);
    } else if p == ReplyInClientQueue {
      Single(s.clientQueue, 4);
    }
  }

  lemma NameFits(c: Call)
    ensures CString(Name(c))
  {
  }

  // ---- how long a call takes ----

  /** What is left to do at each station of a call. */
  function QueueFuel(q: seq<Msg<Hdr>>, t: nat, first: nat, second: nat): nat {
    if q == [] then 0 else if q[0].mtype == t then first else second
  }

  function StubFuel(cs: ClientStub): nat { match cs case CsRequest(_) => 10 case CsReply(_) => 2 case _ => 0 }

  function ServerStubFuel(ss: ServerStub): nat { match ss case SsRequest(_) => 8 case SsReply(_) => 4 case _ => 0 }

  /** Steps left at most, timeouts apart. */
  function Fuel(s: State): nat {
    QueueFuel(s.clientQueue, 1, 11, 1) + StubFuel(s.cs) + (if s.toServer == [] then 0 else 9)
    + ServerStubFuel(s.ss) + QueueFuel(s.serverQueue, 2, 7, 5) + (if s.sv == SvIdle then 0 else 6)
    + (if s.toClient == [] then 0 else 3)
  }

  function Weight(p: Place): nat {
    match p
    case InClientQueue => 11
    case AtClientStub => 10
    case OnWire => 9
    case AtServerStub => 8
    case InServerQueue => 7
    case AtServer => 6
    case ReplyQueued => 5
    case ReplyAtServerStub => 4
    case ReplyOnWire => 3
    case ReplyAtClientStub => 2
    case ReplyInClientQueue => 1
  }

  lemma FuelAt(s: State, c: Call, p: Place)
    requires At(s, c, p)
    ensures Fuel(s) == Weight(p)
  {
  }

  lemma ClientStubFalls(s: State, junk: Packet, p: Place)
    requires s.waiting.Some? && CInts(s.waiting.value) && At(s, s.waiting.value, p) && RunClientStub(s, junk) != s
    ensures Fuel(RunClientStub(s, junk)) < Fuel(s)
  {
    var t, c := RunClientStub(s, junk), s.waiting.value;
    FuelAt(s, c, p);
    if p == InClientQueue {
      RequestTaken(s, junk);
      FuelAt(t, c, AtClientStub);
    } else if p == AtClientStub {
      RequestSent(s, junk);
      FuelAt(t, c, OnWire);
    } else if p == ReplyOnWire && s.cs == CsWait {
      ReplyTaken(s, junk);
      FuelAt(t, c, ReplyAtClientStub);
    } else if p == ReplyAtClientStub {
      ReplyDelivered(s, junk);
      FuelAt(t, c, ReplyInClientQueue);
    } else {
      ClientStubWaits(s, junk, p);
    }
  }

  lemma ServerStubFalls(s: State, junk: Packet, junkReturn: int, p: Place)
    requires s.waiting.Some? && At(s, s.waiting.value, p) && RunServerStub(s, junk, junkReturn) != s
    ensures Fuel(RunServerStub(s, junk, junkReturn)) < Fuel(s)
  {
    var t, c := RunServerStub(s, junk, junkReturn), s.waiting.value;
    FuelAt(s, c, p);
    if p == OnWire {
      RequestArrives(s, junk, junkReturn);
      FuelAt(t, c, AtServerStub);
    } else if p == AtServerStub {
      RequestQueued(s, junk, junkReturn);
      FuelAt(t, c, InServerQueue);
    } else if p == ReplyQueued {
      ReplyFetched(s, junk, junkReturn);
      FuelAt(t, c, ReplyAtServerStub);
    } else if p == ReplyAtServerStub {
      ReplySent(s, junk, junkReturn);
      FuelAt(t, c, ReplyOnWire);
    } else {
      ServerStubWaits(s, junk, junkReturn, p);
    }
  }

  lemma OthersFall(s: State, p: Place)
    requires s.waiting.Some? && At(s, s.waiting.value, p)
    ensures RunServer(s) != s ==> Fuel(RunServer(s)) < Fuel(s)
    ensures Print(s) != s ==> Fuel(Print(s)) < Fuel(s)
  {
    if |s.serverQueue| == 1 { Single(s.serverQueue, 2); }
    if |s.clientQueue| == 1 { Single(s.clientQueue, 4); }
  }

  lemma QuietStays(s: State, m: Move)
    requires s.waiting.None? && Quiet(s) && !m.Request?
    ensures Step(s, m) == s
  {
  }

  lemma WorkFalls(s: State, m: Move, p: Place)
    requires s.waiting.Some? && CInts(s.waiting.value) && At(s, s.waiting.value, p)
    requires Step(s, m) != s && !m.Request? && !m.Timeout?
    ensures Fuel(Step(s, m)) < Fuel(s)
  {
    match m
    case ClientStubStep(junk) => ClientStubFalls(s, junk, p);
    case ServerStubStep(junk, junkReturn) => ServerStubFalls(s, junk, junkReturn, p);
    case ServerStep => OthersFall(s, p);
    case ClientReads => OthersFall(s, p);
  }

  /** Every step that changes something brings the call nearer to its end; a timeout leaves it
      where it is, a new call starts at 11. */
  lemma FuelFalls(s: State, m: Move)
    requires Inv(s) && Step(s, m) != s
    ensures !m.Request? && !m.Timeout? ==> Fuel(Step(s, m)) < Fuel(s)
    ensures m.Timeout? ==> Fuel(Step(s, m)) == Fuel(s)
    ensures m.Request? ==> Fuel(Step(s, m)) <= Fuel(s) + 11 && |Step(s, m).calls| == |s.calls| + 1
    ensures !m.Request? ==> Step(s, m).calls == s.calls
  {
    if m.Request? || m.Timeout? {
      assert s.waiting.None? && !m.Timeout? ==> s.clientQueue == [];
    } else if s.waiting.None? {
      QuietStays(s, m);
    } else {
      var p :| At(s, s.waiting.value, p);
      WorkFalls(s, m, p);
    }
  }

  /** How many steps of a run changed something, new calls and timeouts apart. */
  function Work(moves: seq<Move>): nat {
    if moves == [] then 0
    else
      var n := |moves| - 1;
      var s, m := Run(moves[..n]), moves[n];
      Work(moves[..n]) + (if Step(s, m) == s || m.Request? || m.Timeout? then 0 else 1)
  }

  /** A run does at most eleven steps of work for each call. */
  lemma {:induction false} RunsEnd(moves: seq<Move>)
    ensures Work(moves) + Fuel(Run(moves)) <= 11 * |Run(moves).calls|
  {
    if moves != [] {
      var n := |moves| - 1;
      var s, m := Run(moves[..n]), moves[n];
      RunsEnd(moves[..n]);
      RunInv(moves[..n]);
      if Step(s, m) != s { FuelFalls(s, m); }
    }
  }

  // ---- how a call may end ----

  /** The state some moves later. */
  function After(s: State, moves: seq<Move>): State
    decreases |moves|
  {
    if moves == [] then s else After(Step(s, moves[0]), moves[1..])
  }

  lemma AfterFirst(s: State, m: Move, moves: seq<Move>)
    ensures After(s, [m] + moves) == After(Step(s, m), moves)
  {
    assert ([m] + moves)[1..] == moves;
  }

  lemma {:induction false} AfterReachable(s: State, moves: seq<Move>)
    requires Reachable(s)
    ensures Reachable(After(s, moves))
    decreases |moves|
  {
    if moves != [] {
      var past :| Run(past) == s;
      var m := moves[0];
      assert (past + [m])[..|past|] == past;
      assert Run(past + [m]) == Step(s, m);
      AfterReachable(Step(s, m), moves[1..]);
    }
  }

  /** A call the stub gave up is never answered. */
  lemma {:induction false} NeverAnswered(s: State, moves: seq<Move>)
    requires GaveUp(s)
    ensures GaveUp(After(s, moves)) && After(s, moves).waiting == s.waiting && After(s, moves).printed == s.printed
    decreases |moves|
  {
    if moves != [] {
      NeverAnswered(Step(s, moves[0]), moves[1..]);
    }
  }

  /** One more step towards the answer. */
  lemma StillWaiting(s: State, m: Move, p: Place)
    requires s.waiting.Some? && At(s, s.waiting.value, p) && !GaveUp(s)
    requires Step(s, m) != s && !m.Request? && !m.Timeout?
    ensures var t := Step(s, m);
      if t.waiting.Some? then SameClient(s, t) && !GaveUp(t)
      else exists x :: t.printed == s.printed + [Printed(s.waiting.value, x)]
  {
    if |s.clientQueue| == 1 {
      Single(s.clientQueue, 1);
      Single(s.clientQueue, 4);
    }
  }

  /** Any other call may be. */
  lemma {:induction false} MayBeAnswered(s: State) returns (moves: seq<Move>)
    requires Inv(s) && s.waiting.Some? && !GaveUp(s)
    ensures var t := After(s, moves);
      && t.waiting.None? && t.printed == s.printed + [Printed(s.waiting.value, Low16(Exact(s.waiting.value)))]
    decreases Fuel(s)
  {
    var p :| At(s, s.waiting.value, p);
    var m := Mover(s, p);
    var t := Step(s, m);
    StepInv(s, m);
    FuelFalls(s, m);
    StillWaiting(s, m, p);
    if t.waiting.Some? {
      var rest := MayBeAnswered(t);
      moves := [m] + rest;
      AfterFirst(s, m, rest);
    } else {
      moves := [m];
      AfterFirst(s, m, []);
      LastPrinted(s, t);
    }
  }

  lemma LastPrinted(s: State, t: State)
    requires Inv(s) && Inv(t) && s.waiting.Some? && t.calls == s.calls
    requires exists x :: t.printed == s.printed + [Printed(s.waiting.value, x)]
    ensures t.printed == s.printed + [Printed(s.waiting.value, Low16(Exact(s.waiting.value)))]
  {
    var x :| t.printed == s.printed + [Printed(s.waiting.value, x)];
    var k: nat := |s.printed|;
    assert t.printed[k] == Printed(s.waiting.value, x);
  }

  ghost predicate Answerable(s: State) {
    exists moves :: After(s, moves).waiting.None?
  }

  /** From any point of any run: the call in progress can still be answered unless the client
      stub has given up waiting for it. */
  lemma AnswerableExactly(s: State)
    requires Reachable(s) && s.waiting.Some?
    ensures Answerable(s) <==> !GaveUp(s)
  {
    if GaveUp(s) {
      forall moves ensures After(s, moves).waiting.Some? {
        NeverAnswered(s, moves);
      }
    } else {
      var past :| Run(past) == s;
      RunInv(past);
      var moves := MayBeAnswered(s);
    }
  }

  /** Whatever has been called before, every next call can be answered, with its value modulo
      65536, and can be given up. */
  lemma BothEndsOccur(s: State, c: Call)
    requires Reachable(s) && s.waiting.None? && CInts(c)
    ensures exists t :: Reachable(t) && t.printed == s.printed + [Printed(c, Low16(Exact(c)))]
    ensures exists t :: Reachable(t) && t.waiting == Some(c) && t.printed == s.printed && GaveUp(t)
  {
    var r := Requested(s, c);
    var moves := MayBeAnswered(r);
    AfterReachable(r, moves);
    GivenUp(r);
  }

  lemma Requested(s: State, c: Call) returns (r: State)
    requires Reachable(s) && s.waiting.None? && CInts(c)
    ensures Reachable(r) && Inv(r) && r.waiting == Some(c) && r.printed == s.printed
    ensures !GaveUp(r) && At(r, c, InClientQueue)
  {
    var past :| Run(past) == s;
    RunInv(past);
    r := Send1(s, c, 0);
    RequestInv(s, c, 0);
    AfterFirst(s, Request(c, 0), []);
    AfterReachable(s, [Request(c, 0)] + []);
  }

  /** Sent, passed on and timed out. */
  lemma GivenUp(r: State)
    requires Reachable(r) && r.waiting.Some? && At(r, r.waiting.value, InClientQueue)
    ensures exists t :: Reachable(t) && t.waiting == r.waiting && t.printed == r.printed && GaveUp(t)
  {
    var z: Packet := seq(PACKET, _ => 0);
    var m := ClientStubStep(z);
    Single(r.clientQueue, 1);
    NameFits(r.waiting.value);
    var t1 := Step(r, m);
    var t2 := Step(t1, m);
    var t3 := Step(t2, Timeout);
    AfterFirst(t2, Timeout, []);
    AfterFirst(t1, m, [Timeout]);
    AfterFirst(r, m, [m] + [Timeout]);
    AfterReachable(r, [m] + ([m] + [Timeout]));
  }
}
