/** The signal ring of 12-1-22/circular_signal: after a rendezvous, P1 sends a number of rounds of
    SIGUSR1 around P1 -> P2 -> P3 -> P4 -> P1, as many of SIGUSR2 the other way, and a last
    SIGUSR2 that ends P2, P3 and P4 in turn. The programs fix three rounds.

    A handler that forwards a signal takes two steps, so other processes run in between.
    `kill` followed by `pause` is modelled as it is: if the answer comes back before `pause`
    is entered, P1 misses it. The waits `while (pid == -1) pause()` of the rendezvous are one
    atomic step. */
module RingSignal {
  import opened TypedQueue
  import opened FourProcesses
  import opened Options

  /** Program counters, and P1's loop variable. */
  datatype Pcs = Pcs(p1: nat, p2: nat, p3: nat, p4: nat, round: nat)

  /** Pending signals: SIGUSR1 with its sender, SIGUSR2. */
  datatype Pending = Pending(u1: Option<int>, u2: Option<int>, u3: Option<int>, u4: Option<int>,
                             v1: bool, v2: bool, v3: bool, v4: bool)

  /** A forwarding handler between its counter update and its `kill`; `Last` also ends the process. */
  datatype Handler = Idle | Fwd1 | Fwd2 | Last

  datatype Handlers = Handlers(h2: Handler, h3: Handler, h4: Handler)

  /** How often each handler has run: `sigusr1_count`, `sigusr2_count`; b1 counts P1's lines. */
  datatype Counts = Counts(a1: nat, a2: nat, a3: nat, a4: nat, b1: nat, b2: nat, b3: nat, b4: nat)

  /** The pids learnt, -1 or 0 before that, and three marks of things going wrong: a kill that
      names no process, a signal sent to a process that already had one of its kind pending or
      had exited, a signal handled inside a blocked receive. */
  datatype Pids = Pids(pid2At1: int, pid4At1: int, pid1At2: int, pid3At2: int, pid2At3: int, pid4At3: int,
                       pid3At4: int, pid1At4: int, stray: bool, lost: bool, broken: bool)

  datatype State = State(q: seq<Msg<int>>, pc: Pcs, sig: Pending, h: Handlers, n: Counts, g: Pids)

  function Init(): State {
    State([], Pcs(0, 0, 0, 0, 0), Pending(None, None, None, None, false, false, false, false),
          Handlers(Idle, Idle, Idle), Counts(0, 0, 0, 0, 0, 0, 0, 0),
          Pids(0, -1, -1, 0, -1, 0, -1, 0, false, false, false))
  }

  predicate Exited2(rounds: nat, s: State) { s.n.b2 == rounds + 1 && s.h.h2 == Idle }
  predicate Exited3(rounds: nat, s: State) { s.n.b3 == rounds + 1 && s.h.h3 == Idle }
  predicate Exited4(rounds: nat, s: State) { s.n.b4 == rounds + 1 }

  /** `kill(target, SIGUSR1)`. */
  function Kill1(rounds: nat, ids: Ids, s: State, sender: int, target: int): State {
    var u, g := s.sig, s.g;
    if target == ids.p1 then s.(sig := u.(u1 := Some(sender)), g := g.(lost := g.lost || u.u1.Some?))
    else if target == ids.p2 then
      s.(sig := u.(u2 := Some(sender)), g := g.(lost := g.lost || u.u2.Some? || Exited2(rounds, s)))
    else if target == ids.p3 then
      s.(sig := u.(u3 := Some(sender)), g := g.(lost := g.lost || u.u3.Some? || Exited3(rounds, s)))
    else if target == ids.p4 then
      s.(sig := u.(u4 := Some(sender)), g := g.(lost := g.lost || u.u4.Some? || Exited4(rounds, s)))
    else s.(g := g.(stray := true))
  }

  /** `kill(target, SIGUSR2)`. */
  function Kill2(rounds: nat, ids: Ids, s: State, target: int): State {
    var u, g := s.sig, s.g;
    if target == ids.p1 then s.(sig := u.(v1 := true), g := g.(lost := g.lost || u.v1))
    else if target == ids.p2 then s.(sig := u.(v2 := true), g := g.(lost := g.lost || u.v2 || Exited2(rounds, s)))
    else if target == ids.p3 then s.(sig := u.(v3 := true), g := g.(lost := g.lost || u.v3 || Exited3(rounds, s)))
    else if target == ids.p4 then s.(sig := u.(v4 := true), g := g.(lost := g.lost || u.v4 || Exited4(rounds, s)))
    else s.(g := g.(stray := true))
  }

  function Post(s: State, t: nat, body: int): State { s.(q := Send(s.q, t, body)) }

  /** p1.c: 0 receive type 2; 1 kill P2; 2 wait for P4; 3 forward loop test and kill; 4 before
      its pause; 5 in it; 6 reverse loop test and kill; 7 before its pause; 8 in it; 9 last
      kill; 10 end. */
  function Main1(rounds: nat, ids: Ids, s: State): State {
    var pc := s.pc.p1;
    var s' := s.(pc := s.pc.(p1 := pc + 1));
    if pc == 0 then
      if OfType(s.q, 2) == [] then s
      else s'.(q := Receive(s.q, 2).1, g := s.g.(pid2At1 := Receive(s.q, 2).0))
    else if pc == 1 then Kill1(rounds, ids, s', ids.p1, s.g.pid2At1)
    else if pc == 2 then (if s.g.pid4At1 == -1 then s else s')
    else if pc == 3 then
      if s.pc.round < rounds then Kill1(rounds, ids, s', ids.p1, s.g.pid2At1)
      else s.(pc := s.pc.(p1 := 6, round := 0))
    else if pc == 6 then
      if s.pc.round < rounds then Kill2(rounds, ids, s', s.g.pid4At1)
      else s.(pc := s.pc.(p1 := 9))
    else if pc == 4 || pc == 7 then s'
    else if pc == 9 then Kill2(rounds, ids, s', s.g.pid2At1)
    else s
  }

  /** p2.c: 0 send own pid as type 2; 1 wait for P1; 2 receive type 3; 3 send P1's pid as
      type 1; 4 kill P3; 5 idle. */
  function Main2(rounds: nat, ids: Ids, s: State): State {
    var pc := s.pc.p2;
    var s' := s.(pc := s.pc.(p2 := pc + 1));
    if s.h.h2 != Idle || Exited2(rounds, s) then s
    else if pc == 0 then Post(s', 2, ids.p2)
    else if pc == 1 then (if s.g.pid1At2 == -1 then s else s')
    else if pc == 2 then
      if OfType(s.q, 3) == [] then s
      else s'.(q := Receive(s.q, 3).1, g := s.g.(pid3At2 := Receive(s.q, 3).0))
    else if pc == 3 then Post(s', 1, s.g.pid1At2)
    else if pc == 4 then Kill1(rounds, ids, s', ids.p2, s.g.pid3At2)
    else s
  }

  /** p3.c: 0 send own pid as type 3; 1 wait for P2; 2 receive type 4; 3 kill P4; 4 idle. */
  function Main3(rounds: nat, ids: Ids, s: State): State {
    var pc := s.pc.p3;
    var s' := s.(pc := s.pc.(p3 := pc + 1));
    if s.h.h3 != Idle || Exited3(rounds, s) then s
    else if pc == 0 then Post(s', 3, ids.p3)
    else if pc == 1 then (if s.g.pid2At3 == -1 then s else s')
    else if pc == 2 then
      if OfType(s.q, 4) == [] then s
      else s'.(q := Receive(s.q, 4).1, g := s.g.(pid4At3 := Receive(s.q, 4).0))
    else if pc == 3 then Kill1(rounds, ids, s', ids.p3, s.g.pid4At3)
    else s
  }

  /** p4.c: 0 send own pid as type 4; 1 wait for P3; 2 receive type 1; 3 kill P1; 4 idle. */
  function Main4(rounds: nat, ids: Ids, s: State): State {
    var pc := s.pc.p4;
    var s' := s.(pc := s.pc.(p4 := pc + 1));
    if s.h.h4 != Idle || Exited4(rounds, s) then s
    else if pc == 0 then Post(s', 4, ids.p4)
    else if pc == 1 then (if s.g.pid3At4 == -1 then s else s')
    else if pc == 2 then
      if OfType(s.q, 1) == [] then s
      else s'.(q := Receive(s.q, 1).1, g := s.g.(pid1At4 := Receive(s.q, 1).0))
    else if pc == 3 then Kill1(rounds, ids, s', ids.p4, s.g.pid1At4)
    else s
  }

  /** A handler that finishes in P1 ends the pause P1 is in; one that runs before `pause` does not. */
  function Wake(s: State): State {
    if s.pc.p1 == 5 then s.(pc := s.pc.(p1 := 3, round := s.pc.round + 1))
    else if s.pc.p1 == 8 then s.(pc := s.pc.(p1 := 6, round := s.pc.round + 1))
    else s
  }

  function Usr1At1(s: State): State {
    if s.sig.u1.None? then s
    else Wake(s.(sig := s.sig.(u1 := None), n := s.n.(a1 := s.n.a1 + 1),
                 g := s.g.(pid4At1 := if s.n.a1 == 0 then s.sig.u1.value else s.g.pid4At1,
                           broken := s.g.broken || s.pc.p1 == 0)))
  }

  function Usr2At1(s: State): State {
    if !s.sig.v1 then s
    else Wake(s.(sig := s.sig.(v1 := false), n := s.n.(b1 := s.n.b1 + 1),
                 g := s.g.(broken := s.g.broken || s.pc.p1 == 0)))
  }

  /** The SIGUSR1 handlers of P2, P3 and P4 from entry to the counter test. */
  function Entered1(rounds: nat, count: nat): Handler { if 2 <= count <= rounds + 1 then Fwd1 else Idle }

  function Usr1At2(rounds: nat, s: State): State {
    if s.sig.u2.None? || s.h.h2 != Idle || Exited2(rounds, s) then s
    else
      var a := s.n.a2 + 1;
      s.(sig := s.sig.(u2 := None), n := s.n.(a2 := a), h := s.h.(h2 := Entered1(rounds, a)),
         g := s.g.(pid1At2 := if a == 1 then s.sig.u2.value else s.g.pid1At2, broken := s.g.broken || s.pc.p2 == 2))
  }

  function Usr1At3(rounds: nat, s: State): State {
    if s.sig.u3.None? || s.h.h3 != Idle || Exited3(rounds, s) then s
    else
      var a := s.n.a3 + 1;
      s.(sig := s.sig.(u3 := None), n := s.n.(a3 := a), h := s.h.(h3 := Entered1(rounds, a)),
         g := s.g.(pid2At3 := if a == 1 then s.sig.u3.value else s.g.pid2At3, broken := s.g.broken || s.pc.p3 == 2))
  }

  function Usr1At4(rounds: nat, s: State): State {
    if s.sig.u4.None? || s.h.h4 != Idle || Exited4(rounds, s) then s
    else
      var a := s.n.a4 + 1;
      s.(sig := s.sig.(u4 := None), n := s.n.(a4 := a), h := s.h.(h4 := Entered1(rounds, a)),
         g := s.g.(pid3At4 := if a == 1 then s.sig.u4.value else s.g.pid3At4, broken := s.g.broken || s.pc.p4 == 2))
  }

  /** The SIGUSR2 handlers; P4's last one only ends the process. */
  function Entered2(rounds: nat, count: nat): Handler { if 1 <= count <= rounds then Fwd2 else Last }

  function Usr2At2(rounds: nat, s: State): State {
    if !s.sig.v2 || s.h.h2 != Idle || Exited2(rounds, s) then s
    else s.(sig := s.sig.(v2 := false), n := s.n.(b2 := s.n.b2 + 1), h := s.h.(h2 := Entered2(rounds, s.n.b2 + 1)),
            g := s.g.(broken := s.g.broken || s.pc.p2 == 2))
  }

  function Usr2At3(rounds: nat, s: State): State {
    if !s.sig.v3 || s.h.h3 != Idle || Exited3(rounds, s) then s
    else s.(sig := s.sig.(v3 := false), n := s.n.(b3 := s.n.b3 + 1), h := s.h.(h3 := Entered2(rounds, s.n.b3 + 1)),
            g := s.g.(broken := s.g.broken || s.pc.p3 == 2))
  }

  function Usr2At4(rounds: nat, s: State): State {
    if !s.sig.v4 || s.h.h4 != Idle || Exited4(rounds, s) then s
    else s.(sig := s.sig.(v4 := false), n := s.n.(b4 := s.n.b4 + 1),
            h := s.h.(h4 := if s.n.b4 + 1 <= rounds then Fwd2 else Idle),
            g := s.g.(broken := s.g.broken || s.pc.p4 == 2))
  }

  /** The rest of a handler: its `kill`. */
  function Forward2(rounds: nat, ids: Ids, s: State): State {
    var s' := s.(h := s.h.(h2 := Idle));
    match s.h.h2
    case Idle => s
    case Fwd1 => Kill1(rounds, ids, s', ids.p2, s.g.pid3At2)
    case Fwd2 => Kill2(rounds, ids, s', s.g.pid1At2)
    case Last => Kill2(rounds, ids, s', s.g.pid3At2)
  }

  function Forward3(rounds: nat, ids: Ids, s: State): State {
    var s' := s.(h := s.h.(h3 := Idle));
    match s.h.h3
    case Idle => s
    case Fwd1 => Kill1(rounds, ids, s', ids.p3, s.g.pid4At3)
    case Fwd2 => Kill2(rounds, ids, s', s.g.pid2At3)
    case Last => Kill2(rounds, ids, s', s.g.pid4At3)
  }

  function Forward4(rounds: nat, ids: Ids, s: State): State {
    var s' := s.(h := s.h.(h4 := Idle));
    match s.h.h4
    case Idle => s
    case Fwd1 => Kill1(rounds, ids, s', ids.p4, s.g.pid1At4)
    case Fwd2 => Kill2(rounds, ids, s', s.g.pid3At4)
    case Last => s'
  }

  datatype Move = Main(k: nat) | Usr1(k: nat) | Usr2(k: nat) | Forward(k: nat)

  function Step(rounds: nat, ids: Ids, s: State, m: Move): State {
    match m
    case Main(k) =>
      if k == 1 then Main1(rounds, ids, s) else if k == 2 then Main2(rounds, ids, s)
      else if k == 3 then Main3(rounds, ids, s) else if k == 4 then Main4(rounds, ids, s) else s
    case Usr1(k) =>
      if k == 1 then Usr1At1(s) else if k == 2 then Usr1At2(rounds, s)
      else if k == 3 then Usr1At3(rounds, s) else if k == 4 then Usr1At4(rounds, s) else s
    case Usr2(k) =>
      if k == 1 then Usr2At1(s) else if k == 2 then Usr2At2(rounds, s)
      else if k == 3 then Usr2At3(rounds, s) else if k == 4 then Usr2At4(rounds, s) else s
    case Forward(k) =>
      if k == 2 then Forward2(rounds, ids, s) else if k == 3 then Forward3(rounds, ids, s)
      else if k == 4 then Forward4(rounds, ids, s) else s
  }

  function Run(rounds: nat, ids: Ids, moves: seq<Move>): State {
    if moves == [] then Init()
    else
      var n := |moves| - 1;
      Step(rounds, ids, Run(rounds, ids, moves[..n]), moves[n])
  }

  ghost predicate Reachable(rounds: nat, ids: Ids, s: State) {
    exists moves :: Run(rounds, ids, moves) == s
  }

  function One(c: bool): nat { if c then 1 else 0 }

  ghost predicate QueueInv(ids: Ids, q: seq<Msg<int>>, pc: Pcs) {
    && OfType(q, 1) == If(pc.p2 > 3 && pc.p4 <= 2, ids.p1)
    && OfType(q, 2) == If(pc.p2 > 0 && pc.p1 == 0, ids.p2)
    && OfType(q, 3) == If(pc.p3 > 0 && pc.p2 <= 2, ids.p3)
    && OfType(q, 4) == If(pc.p4 > 0 && pc.p3 <= 2, ids.p4)
  }

  /** The rendezvous: who must have done what before whom. */
  ghost predicate OrderInv(rounds: nat, pc: Pcs, n: Counts) {
    && pc.p1 <= 10 && pc.p2 <= 5 && pc.p3 <= 4 && pc.p4 <= 4
    && (pc.p2 > 1 ==> n.a2 >= 1)
    && (pc.p3 > 1 ==> n.a3 >= 1)
    && (pc.p4 > 1 ==> n.a4 >= 1)
    && (pc.p1 > 2 ==> n.a1 >= 1)
    && (n.a2 >= 1 ==> pc.p1 > 1)
    && (n.a3 >= 1 ==> pc.p2 == 5)
    && (n.a4 >= 1 ==> pc.p3 == 4)
    && (n.a1 >= 1 ==> pc.p4 == 4)
    && (pc.p1 > 0 ==> pc.p2 > 0)
    && (pc.p2 > 2 ==> pc.p3 > 0)
    && (pc.p3 > 2 ==> pc.p4 > 0)
    && (pc.p1 < 3 ==> pc.round == 0)
    && (pc.p1 == 4 || pc.p1 == 5 || pc.p1 == 7 || pc.p1 == 8 ==> pc.round < rounds)
    && pc.round <= rounds
  }

  /** SIGUSR1 and SIGUSR2 signals P1 has started around the ring. */
  function Started1(rounds: nat, pc: Pcs): nat {
    if pc.p1 < 3 then 0 else if pc.p1 == 3 then pc.round else if pc.p1 <= 5 then pc.round + 1 else rounds
  }
  function Started2(rounds: nat, pc: Pcs): nat {
    if pc.p1 < 6 then 0 else if pc.p1 == 6 then pc.round else if pc.p1 <= 8 then pc.round + 1 else rounds
  }

  function Pred(a: nat): nat { if a == 0 then 0 else a - 1 }
  function Min(a: nat, b: nat): nat { if a <= b then a else b }

  /** On every link, signals sent are signals handled plus the one pending: SIGUSR1. */
  ghost predicate Links1(rounds: nat, pc: Pcs, sig: Pending, h: Handlers, n: Counts) {
    && n.a2 + One(sig.u2.Some?) == One(pc.p1 > 1) + Started1(rounds, pc)
    && n.a3 + One(sig.u3.Some?) == One(pc.p2 > 4) + Pred(n.a2) - One(h.h2 == Fwd1)
    && n.a4 + One(sig.u4.Some?) == One(pc.p3 > 3) + Pred(n.a3) - One(h.h3 == Fwd1)
    && n.a1 + One(sig.u1.Some?) == One(pc.p4 > 3) + Pred(n.a4) - One(h.h4 == Fwd1)
    && (pc.p1 == 3 ==> n.a1 == pc.round + 1)
    && (pc.p1 == 4 || pc.p1 == 5 ==> n.a1 == pc.round + 1 || n.a1 == pc.round + 2)
    && (pc.p1 >= 6 ==> n.a1 == rounds + 1)
  }

  /** ... and SIGUSR2, with the final cascade. */
  ghost predicate Links2(rounds: nat, pc: Pcs, sig: Pending, h: Handlers, n: Counts) {
    && n.b2 <= rounds + 1 && n.b3 <= rounds + 1 && n.b4 <= rounds + 1
    && n.b4 + One(sig.v4) == Started2(rounds, pc) + One(n.b3 == rounds + 1 && h.h3 != Last)
    && n.b3 + One(sig.v3) == Min(n.b4, rounds) - One(h.h4 == Fwd2) + One(n.b2 == rounds + 1 && h.h2 != Last)
    && n.b2 + One(sig.v2) == Min(n.b3, rounds) - One(h.h3 == Fwd2) + One(pc.p1 == 10)
    && n.b1 + One(sig.v1) == Min(n.b2, rounds) - One(h.h2 == Fwd2)
    && (pc.p1 == 6 ==> n.b1 == pc.round)
    && (pc.p1 == 7 || pc.p1 == 8 ==> n.b1 == pc.round || n.b1 == pc.round + 1)
    && (pc.p1 >= 9 ==> n.b1 == rounds)
  }

  ghost predicate HandlerInv(rounds: nat, h: Handlers, n: Counts) {
    && (h.h2 == Fwd1 ==> n.a2 >= 2) && (h.h3 == Fwd1 ==> n.a3 >= 2) && (h.h4 == Fwd1 ==> n.a4 >= 2)
    && (h.h2 == Fwd2 ==> n.b2 >= 1) && (h.h3 == Fwd2 ==> n.b3 >= 1) && (h.h4 == Fwd2 ==> n.b4 >= 1)
    && (h.h2 == Last ==> n.b2 == rounds + 1) && (h.h3 == Last ==> n.b3 == rounds + 1) && h.h4 != Last
  }

  ghost predicate PidInv(ids: Ids, pc: Pcs, sig: Pending, n: Counts, g: Pids) {
    && (pc.p1 > 0 ==> g.pid2At1 == ids.p2)
    && g.pid4At1 == (if n.a1 >= 1 then ids.p4 else -1)
    && g.pid1At2 == (if n.a2 >= 1 then ids.p1 else -1)
    && g.pid2At3 == (if n.a3 >= 1 then ids.p2 else -1)
    && g.pid3At4 == (if n.a4 >= 1 then ids.p3 else -1)
    && (pc.p2 > 2 ==> g.pid3At2 == ids.p3)
    && (pc.p3 > 2 ==> g.pid4At3 == ids.p4)
    && (pc.p4 > 2 ==> g.pid1At4 == ids.p1)
    && (sig.u1.Some? ==> sig.u1.value == ids.p4)
    && (sig.u2.Some? ==> sig.u2.value == ids.p1)
    && (sig.u3.Some? ==> sig.u3.value == ids.p2)
    && (sig.u4.Some? ==> sig.u4.value == ids.p3)
    && !g.stray && !g.lost && !g.broken
  }

  ghost predicate Inv(rounds: nat, ids: Ids, s: State) {
    && QueueInv(ids, s.q, s.pc)
    && OrderInv(rounds, s.pc, s.n)
    && Links1(rounds, s.pc, s.sig, s.h, s.n)
    && Links2(rounds, s.pc, s.sig, s.h, s.n)
    && HandlerInv(rounds, s.h, s.n)
    && PidInv(ids, s.pc, s.sig, s.n, s.g)
  }

  lemma Main1SetupInv(rounds: nat, ids: Ids, s: State)
    requires Distinct(ids) && Inv(rounds, ids, s) && s.pc.p1 < 3
    ensures Inv(rounds, ids, Main1(rounds, ids, s))
  {
    if s.pc.p1 == 0 && OfType(s.q, 2) != [] { ReceiveAll(s.q, 2); }
  }

  lemma Main1ForwardInv(rounds: nat, ids: Ids, s: State)
    requires Distinct(ids) && Inv(rounds, ids, s) && s.pc.p1 == 3
    ensures Inv(rounds, ids, Main1(rounds, ids, s))
  {
  }

  lemma Main1ReverseInv(rounds: nat, ids: Ids, s: State)
    requires Distinct(ids) && Inv(rounds, ids, s) && s.pc.p1 == 6
    ensures Inv(rounds, ids, Main1(rounds, ids, s))
  {
  }

  lemma Main1LastInv(rounds: nat, ids: Ids, s: State)
    requires Distinct(ids) && Inv(rounds, ids, s) && s.pc.p1 == 9
    ensures Inv(rounds, ids, Main1(rounds, ids, s))
  {
  }

  lemma Main1PauseInv(rounds: nat, ids: Ids, s: State)
    requires Distinct(ids) && Inv(rounds, ids, s) && s.pc.p1 in {4, 5, 7, 8, 10}
    ensures Inv(rounds, ids, Main1(rounds, ids, s))
  {
  }

  lemma Main2QueueInv(rounds: nat, ids: Ids, s: State)
    requires Distinct(ids) && Inv(rounds, ids, s) && s.pc.p2 in {0, 2, 3}
    ensures Inv(rounds, ids, Main2(rounds, ids, s))
  {
    if s.pc.p2 == 0 { SendAll(s.q, 2, ids.p2); }
    if s.pc.p2 == 2 && OfType(s.q, 3) != [] { ReceiveAll(s.q, 3); }
    if s.pc.p2 == 3 { SendAll(s.q, 1, s.g.pid1At2); }
  }

  lemma Main2KillInv(rounds: nat, ids: Ids, s: State)
    requires Distinct(ids) && Inv(rounds, ids, s) && s.pc.p2 == 4
    ensures Inv(rounds, ids, Main2(rounds, ids, s))
  {
  }

  lemma Main2OtherInv(rounds: nat, ids: Ids, s: State)
    requires Distinct(ids) && Inv(rounds, ids, s) && s.pc.p2 !in {0, 2, 3}
    ensures Inv(rounds, ids, Main2(rounds, ids, s))
  {
    if s.pc.p2 == 4 { Main2KillInv(rounds, ids, s); }
  }

  lemma Main3KillInv(rounds: nat, ids: Ids, s: State)
    requires Distinct(ids) && Inv(rounds, ids, s) && s.pc.p3 == 3
    ensures Inv(rounds, ids, Main3(rounds, ids, s))
  {
  }

  lemma Main3QueueInv(rounds: nat, ids: Ids, s: State)
    requires Distinct(ids) && Inv(rounds, ids, s) && s.pc.p3 != 3
    ensures Inv(rounds, ids, Main3(rounds, ids, s))
  {
    if s.pc.p3 == 0 { SendAll(s.q, 3, ids.p3); }
    if s.pc.p3 == 2 && OfType(s.q, 4) != [] { ReceiveAll(s.q, 4); }
  }

  lemma Main3Inv(rounds: nat, ids: Ids, s: State)
    requires Distinct(ids) && Inv(rounds, ids, s)
    ensures Inv(rounds, ids, Main3(rounds, ids, s))
  {
    if s.pc.p3 == 3 { Main3KillInv(rounds, ids, s); } else { Main3QueueInv(rounds, ids, s); }
  }

  lemma Main4KillInv(rounds: nat, ids: Ids, s: State)
    requires Distinct(ids) && Inv(rounds, ids, s) && s.pc.p4 == 3
    ensures Inv(rounds, ids, Main4(rounds, ids, s))
  {
  }

  lemma Main4QueueInv(rounds: nat, ids: Ids, s: State)
    requires Distinct(ids) && Inv(rounds, ids, s) && s.pc.p4 != 3
    ensures Inv(rounds, ids, Main4(rounds, ids, s))
  {
    if s.pc.p4 == 0 { SendAll(s.q, 4, ids.p4); }
    if s.pc.p4 == 2 && OfType(s.q, 1) != [] { ReceiveAll(s.q, 1); }
  }

  lemma Main4Inv(rounds: nat, ids: Ids, s: State)
    requires Distinct(ids) && Inv(rounds, ids, s)
    ensures Inv(rounds, ids, Main4(rounds, ids, s))
  {
    if s.pc.p4 == 3 { Main4KillInv(rounds, ids, s); } else { Main4QueueInv(rounds, ids, s); }
  }

  lemma Usr1At1SetupInv(rounds: nat, ids: Ids, s: State)
    requires Distinct(ids) && Inv(rounds, ids, s) && s.pc.p1 < 3
    ensures Inv(rounds, ids, Usr1At1(s))
  {
  }

  lemma Usr1At1RoundInv(rounds: nat, ids: Ids, s: State)
    requires Distinct(ids) && Inv(rounds, ids, s) && s.pc.p1 >= 3 && s.sig.u1.Some?
    ensures Inv(rounds, ids, Usr1At1(s))
  {
    assert s.pc.p1 == 4 || s.pc.p1 == 5;
    assert s.n.a1 == s.pc.round + 1 && s.n.a4 == s.n.a1 + 1;
  }

  lemma Usr1At1Inv(rounds: nat, ids: Ids, s: State)
    requires Distinct(ids) && Inv(rounds, ids, s)
    ensures Inv(rounds, ids, Usr1At1(s))
  {
    if s.pc.p1 < 3 {
      Usr1At1SetupInv(rounds, ids, s);
    } else if s.sig.u1.Some? {
      Usr1At1RoundInv(rounds, ids, s);
    }
  }

  lemma Usr2At1Inv(rounds: nat, ids: Ids, s: State)
    requires Distinct(ids) && Inv(rounds, ids, s)
    ensures Inv(rounds, ids, Usr2At1(s))
  {
    if s.sig.v1 {
      assert s.pc.p1 == 7 || s.pc.p1 == 8;
      assert s.n.b1 == s.pc.round && s.n.b2 == s.n.b1 + 1;
    }
  }

  lemma Usr1At2Inv(rounds: nat, ids: Ids, s: State)
    requires Distinct(ids) && Inv(rounds, ids, s)
    ensures Inv(rounds, ids, Usr1At2(rounds, s))
  {
  }

  lemma Usr2At2Inv(rounds: nat, ids: Ids, s: State)
    requires Distinct(ids) && Inv(rounds, ids, s)
    ensures Inv(rounds, ids, Usr2At2(rounds, s))
  {
  }

  lemma Usr1At3Inv(rounds: nat, ids: Ids, s: State)
    requires Distinct(ids) && Inv(rounds, ids, s)
    ensures Inv(rounds, ids, Usr1At3(rounds, s))
  {
  }

  lemma Usr2At3RoundInv(rounds: nat, ids: Ids, s: State)
    requires Distinct(ids) && Inv(rounds, ids, s) && s.pc.p1 < 10
    ensures Inv(rounds, ids, Usr2At3(rounds, s))
  {
  }

  lemma Usr2At3LastInv(rounds: nat, ids: Ids, s: State)
    requires Distinct(ids) && Inv(rounds, ids, s) && s.pc.p1 == 10
    ensures Inv(rounds, ids, Usr2At3(rounds, s))
  {
  }

  lemma Usr2At3Inv(rounds: nat, ids: Ids, s: State)
    requires Distinct(ids) && Inv(rounds, ids, s)
    ensures Inv(rounds, ids, Usr2At3(rounds, s))
  {
    if s.pc.p1 < 10 { Usr2At3RoundInv(rounds, ids, s); } else { Usr2At3LastInv(rounds, ids, s); }
  }

  lemma Usr1At4Inv(rounds: nat, ids: Ids, s: State)
    requires Distinct(ids) && Inv(rounds, ids, s)
    ensures Inv(rounds, ids, Usr1At4(rounds, s))
  {
  }

  lemma Usr2At4RoundInv(rounds: nat, ids: Ids, s: State)
    requires Distinct(ids) && Inv(rounds, ids, s) && s.pc.p1 < 10
    ensures Inv(rounds, ids, Usr2At4(rounds, s))
  {
  }

  lemma Usr2At4LastInv(rounds: nat, ids: Ids, s: State)
    requires Distinct(ids) && Inv(rounds, ids, s) && s.pc.p1 == 10
    ensures Inv(rounds, ids, Usr2At4(rounds, s))
  {
  }

  lemma Usr2At4Inv(rounds: nat, ids: Ids, s: State)
    requires Distinct(ids) && Inv(rounds, ids, s)
    ensures Inv(rounds, ids, Usr2At4(rounds, s))
  {
    if s.pc.p1 < 10 { Usr2At4RoundInv(rounds, ids, s); } else { Usr2At4LastInv(rounds, ids, s); }
  }

  lemma Forward2Usr1Inv(rounds: nat, ids: Ids, s: State)
    requires Distinct(ids) && Inv(rounds, ids, s) && s.h.h2 == Fwd1
    ensures Inv(rounds, ids, Forward2(rounds, ids, s))
  {
  }

  lemma Forward2Usr2Inv(rounds: nat, ids: Ids, s: State)
    requires Distinct(ids) && Inv(rounds, ids, s) && s.h.h2 != Fwd1
    ensures Inv(rounds, ids, Forward2(rounds, ids, s))
  {
  }

  lemma Forward3Usr1Inv(rounds: nat, ids: Ids, s: State)
    requires Distinct(ids) && Inv(rounds, ids, s) && s.h.h3 == Fwd1
    ensures Inv(rounds, ids, Forward3(rounds, ids, s))
  {
  }

  lemma Forward3Usr2Inv(rounds: nat, ids: Ids, s: State)
    requires Distinct(ids) && Inv(rounds, ids, s) && (s.h.h3 == Fwd2 || s.h.h3 == Last)
    ensures Inv(rounds, ids, Forward3(rounds, ids, s))
  {
  }

  lemma Forward4Usr1Inv(rounds: nat, ids: Ids, s: State)
    requires Distinct(ids) && Inv(rounds, ids, s) && s.h.h4 == Fwd1
    ensures Inv(rounds, ids, Forward4(rounds, ids, s))
  {
  }

  lemma Forward4Usr2Inv(rounds: nat, ids: Ids, s: State)
    requires Distinct(ids) && Inv(rounds, ids, s) && s.h.h4 != Fwd1
    ensures Inv(rounds, ids, Forward4(rounds, ids, s))
  {
  }

  lemma MainInv(rounds: nat, ids: Ids, s: State, k: nat)
    requires Distinct(ids) && Inv(rounds, ids, s)
    ensures Inv(rounds, ids, Step(rounds, ids, s, Main(k)))
  {
    if k == 1 {
      if s.pc.p1 < 3 { Main1SetupInv(rounds, ids, s); }
      else if s.pc.p1 == 3 { Main1ForwardInv(rounds, ids, s); }
      else if s.pc.p1 == 6 { Main1ReverseInv(rounds, ids, s); }
      else if s.pc.p1 == 9 { Main1LastInv(rounds, ids, s); }
      else { Main1PauseInv(rounds, ids, s); }
    } else if k == 2 {
      if s.pc.p2 in {0, 2, 3} { Main2QueueInv(rounds, ids, s); } else { Main2OtherInv(rounds, ids, s); }
    } else if k == 3 {
      Main3Inv(rounds, ids, s);
    } else if k == 4 {
      Main4Inv(rounds, ids, s);
    }
  }

  lemma Usr1StepInv(rounds: nat, ids: Ids, s: State, k: nat)
    requires Distinct(ids) && Inv(rounds, ids, s)
    ensures Inv(rounds, ids, Step(rounds, ids, s, Usr1(k)))
  {
    if k == 1 { Usr1At1Inv(rounds, ids, s); }
    else if k == 2 { Usr1At2Inv(rounds, ids, s); }
    else if k == 3 { Usr1At3Inv(rounds, ids, s); }
    else if k == 4 { Usr1At4Inv(rounds, ids, s); }
  }

  lemma Usr2StepInv(rounds: nat, ids: Ids, s: State, k: nat)
    requires Distinct(ids) && Inv(rounds, ids, s)
    ensures Inv(rounds, ids, Step(rounds, ids, s, Usr2(k)))
  {
    if k == 1 { Usr2At1Inv(rounds, ids, s); }
    else if k == 2 { Usr2At2Inv(rounds, ids, s); }
    else if k == 3 { Usr2At3Inv(rounds, ids, s); }
    else if k == 4 { Usr2At4Inv(rounds, ids, s); }
  }

  lemma ForwardStepInv(rounds: nat, ids: Ids, s: State, k: nat)
    requires Distinct(ids) && Inv(rounds, ids, s)
    ensures Inv(rounds, ids, Step(rounds, ids, s, Forward(k)))
  {
    if k == 2 {
      if s.h.h2 == Fwd1 { Forward2Usr1Inv(rounds, ids, s); } else { Forward2Usr2Inv(rounds, ids, s); }
    } else if k == 3 {
      if s.h.h3 == Fwd1 { Forward3Usr1Inv(rounds, ids, s); } else if s.h.h3 != Idle { Forward3Usr2Inv(rounds, ids, s); }
    } else if k == 4 {
      if s.h.h4 == Fwd1 { Forward4Usr1Inv(rounds, ids, s); } else { Forward4Usr2Inv(rounds, ids, s); }
    }
  }

  lemma {:induction false} RunInv(rounds: nat, ids: Ids, moves: seq<Move>)
    requires Distinct(ids)
    ensures Inv(rounds, ids, Run(rounds, ids, moves))
  {
    if moves != [] {
      var n := |moves| - 1;
      var s := Run(rounds, ids, moves[..n]);
      RunInv(rounds, ids, moves[..n]);
      match moves[n]
      case Main(k) => MainInv(rounds, ids, s, k);
      case Usr1(k) => Usr1StepInv(rounds, ids, s, k);
      case Usr2(k) => Usr2StepInv(rounds, ids, s, k);
      case Forward(k) => ForwardStepInv(rounds, ids, s, k);
    }
  }

  /** Signals under way: pending, or in a handler that has yet to pass them on. */
  function InFlight(s: State): nat {
    One(s.sig.u1.Some?) + One(s.sig.u2.Some?) + One(s.sig.u3.Some?) + One(s.sig.u4.Some?)
    + One(s.sig.v1) + One(s.sig.v2) + One(s.sig.v3) + One(s.sig.v4)
    + One(s.h.h2 != Idle) + One(s.h.h3 != Idle) + One(s.h.h4 != Idle)
  }

  /** In every run at most one signal is under way, so none can coalesce with another; each
      kill names the intended process, alive and with nothing of that kind pending; and no
      handler interrupts a receive. */
  lemma AtMostOneInFlight(rounds: nat, ids: Ids, s: State)
    requires Distinct(ids) && Reachable(rounds, ids, s)
    ensures InFlight(s) <= 1
    ensures !s.g.stray && !s.g.lost && !s.g.broken
  {
    var moves :| Run(rounds, ids, moves) == s;
    RunInv(rounds, ids, moves);
    if s.pc.p1 < 3 { SetupInFlight(rounds, ids, s); }
  }

  lemma SetupInFlight(rounds: nat, ids: Ids, s: State)
    requires Inv(rounds, ids, s) && s.pc.p1 < 3
    ensures InFlight(s) <= 1
  {
  }

  predicate Apart(a: nat, b: nat) { -1 <= a - b <= 1 }

  /** Neighbouring handlers never drift apart by more than one signal, the final cascade
      included, and a forwarding handler knows the pid it forwards to. Up to P1's last signal
      each one is also at most as far as the one before it in the direction of the signal. */
  lemma HandlersInStep(rounds: nat, ids: Ids, s: State)
    requires Distinct(ids) && Reachable(rounds, ids, s)
    ensures Apart(s.n.a1, s.n.a2) && Apart(s.n.a2, s.n.a3) && Apart(s.n.a3, s.n.a4) && Apart(s.n.a4, s.n.a1)
    ensures Apart(s.n.b1, s.n.b2) && Apart(s.n.b2, s.n.b3) && Apart(s.n.b3, s.n.b4) && Apart(s.n.b4, s.n.b1)
    ensures s.n.a1 <= s.n.a4 <= s.n.a3 <= s.n.a2
    ensures s.pc.p1 < 10 ==> s.n.b1 <= s.n.b2 <= s.n.b3 <= s.n.b4
    ensures s.h.h2 != Idle ==> s.g.pid3At2 == ids.p3 && s.g.pid1At2 == ids.p1
    ensures s.h.h3 != Idle ==> s.g.pid4At3 == ids.p4 && s.g.pid2At3 == ids.p2
    ensures s.h.h4 != Idle ==> s.g.pid1At4 == ids.p1 && s.g.pid3At4 == ids.p3
  {
    var moves :| Run(rounds, ids, moves) == s;
    RunInv(rounds, ids, moves);
  }

  /** P1 waits in `pause` for a signal that was handled before it got there. */
  predicate MissedWakeup(s: State) {
    (s.pc.p1 == 5 && s.n.a1 == s.pc.round + 2) || (s.pc.p1 == 8 && s.n.b1 == s.pc.round + 1)
  }

  /** The normal end: P1 has returned, and the others have seen every round and exited. */
  predicate AllDone(rounds: nat, s: State) {
    && s.pc.p1 == 10 && Exited2(rounds, s) && Exited3(rounds, s) && Exited4(rounds, s)
    && s.n.a2 == s.n.a3 == s.n.a4 == rounds + 1
    && s.n.b2 == s.n.b3 == s.n.b4 == rounds + 1
  }

  /** A run that can go no further has either drained the final cascade, every handler having
      run rounds + 1 times for each signal, or P1 has missed a wake-up; and conversely. */
  lemma EndStates(rounds: nat, ids: Ids, s: State)
    requires Distinct(ids) && Reachable(rounds, ids, s)
    ensures (forall m :: Step(rounds, ids, s, m) == s) <==> AllDone(rounds, s) || MissedWakeup(s)
  {
    var moves :| Run(rounds, ids, moves) == s;
    RunInv(rounds, ids, moves);
    if AllDone(rounds, s) || MissedWakeup(s) {
      EndIsStuck(rounds, ids, s);
    } else if InFlight(s) > 0 {
      ChosenDelivers(rounds, ids, s);
    } else {
      ChosenRuns(rounds, ids, s);
    }
  }

  lemma EndIsStuck(rounds: nat, ids: Ids, s: State)
    requires Distinct(ids) && Inv(rounds, ids, s) && (AllDone(rounds, s) || MissedWakeup(s))
    ensures forall m :: Step(rounds, ids, s, m) == s
  {
    assert s.h == Handlers(Idle, Idle, Idle);
    assert s.sig == Pending(None, None, None, None, false, false, false, false);
    assert s.pc.p2 == 5 && s.pc.p3 == 4 && s.pc.p4 == 4;
  }

  function Chosen(s: State): Move {
    if s.h.h2 != Idle then Forward(2) else if s.h.h3 != Idle then Forward(3) else if s.h.h4 != Idle then Forward(4)
    else if s.sig.u1.Some? then Usr1(1) else if s.sig.u2.Some? then Usr1(2)
    else if s.sig.u3.Some? then Usr1(3) else if s.sig.u4.Some? then Usr1(4)
    else if s.sig.v1 then Usr2(1) else if s.sig.v2 then Usr2(2)
    else if s.sig.v3 then Usr2(3) else if s.sig.v4 then Usr2(4)
    else if s.pc.p2 == 0 then Main(2) else if s.pc.p3 == 0 then Main(3) else if s.pc.p4 == 0 then Main(4)
    else if s.pc.p1 != 2 || s.g.pid4At1 != -1 then Main(1)
    else if s.pc.p2 < 5 then Main(2) else if s.pc.p3 < 4 then Main(3) else Main(4)
  }

  lemma ForwardLeavesHandler(rounds: nat, ids: Ids, s: State)
    ensures Forward2(rounds, ids, s).h.h2 == Idle && Forward3(rounds, ids, s).h.h3 == Idle
    ensures Forward4(rounds, ids, s).h.h4 == Idle
  {
  }

  lemma Usr1Accepted(rounds: nat, ids: Ids, s: State)
    requires Inv(rounds, ids, s) && s.h == Handlers(Idle, Idle, Idle)
    ensures s.sig.u1.Some? ==> Usr1At1(s).sig.u1.None?
    ensures s.sig.u2.Some? ==> Usr1At2(rounds, s).sig.u2.None?
    ensures s.sig.u3.Some? ==> Usr1At3(rounds, s).sig.u3.None?
    ensures s.sig.u4.Some? ==> Usr1At4(rounds, s).sig.u4.None?
  {
  }

  lemma Usr2Accepted(rounds: nat, ids: Ids, s: State)
    requires Inv(rounds, ids, s) && s.h == Handlers(Idle, Idle, Idle)
    ensures s.sig.v1 ==> !Usr2At1(s).sig.v1
    ensures s.sig.v2 ==> !Usr2At2(rounds, s).sig.v2
    ensures s.sig.v3 ==> !Usr2At3(rounds, s).sig.v3
    ensures s.sig.v4 ==> !Usr2At4(rounds, s).sig.v4
  {
  }

  lemma ChosenDelivers(rounds: nat, ids: Ids, s: State)
    requires Distinct(ids) && Inv(rounds, ids, s) && InFlight(s) > 0
    ensures Step(rounds, ids, s, Chosen(s)) != s
  {
    ForwardLeavesHandler(rounds, ids, s);
    if s.h == Handlers(Idle, Idle, Idle) {
      Usr1Accepted(rounds, ids, s);
      Usr2Accepted(rounds, ids, s);
    }
  }

  lemma ChosenRuns(rounds: nat, ids: Ids, s: State)
    requires Distinct(ids) && Inv(rounds, ids, s) && InFlight(s) == 0 && !AllDone(rounds, s) && !MissedWakeup(s)
    ensures Step(rounds, ids, s, Chosen(s)) != s
  {
    assert Chosen(s).Main?;
    assert Step(rounds, ids, s, Chosen(s)).pc != s.pc;
  }

  // ---- how long a run can be ----

  /** How far P1 is. */
  function Position1(rounds: nat, pc: Pcs): int {
    if pc.p1 < 3 then pc.p1
    else if pc.p1 <= 5 then 3 * pc.round + pc.p1
    else if pc.p1 <= 8 then 3 * rounds + 3 * pc.round + pc.p1 - 2
    else 6 * rounds + pc.p1 - 4
  }

  function Handled(n: Counts): nat { n.a1 + n.a2 + n.a3 + n.a4 + n.b1 + n.b2 + n.b3 + n.b4 }

  function Busy(h: Handlers): nat { One(h.h2 != Idle) + One(h.h3 != Idle) + One(h.h4 != Idle) }

  /** Statements executed; a signal handled counts twice, less while its handler runs. */
  function Progress(rounds: nat, s: State): int {
    Position1(rounds, s.pc) + s.pc.p2 + s.pc.p3 + s.pc.p4 + 2 * Handled(s.n) - Busy(s.h)
  }

  lemma KillsOnlySignal(rounds: nat, ids: Ids, s: State, sender: int, target: int)
    ensures var t := Kill1(rounds, ids, s, sender, target); t.pc == s.pc && t.h == s.h && t.n == s.n
    ensures var t := Kill2(rounds, ids, s, target); t.pc == s.pc && t.h == s.h && t.n == s.n
  {
  }

  lemma Main1Progress(rounds: nat, ids: Ids, s: State)
    requires s.pc.round <= rounds && s.pc.p1 <= 10
    ensures var t := Main1(rounds, ids, s); t == s || Progress(rounds, t) > Progress(rounds, s)
  {
    var s' := s.(pc := s.pc.(p1 := s.pc.p1 + 1));
    KillsOnlySignal(rounds, ids, s', ids.p1, s.g.pid2At1);
    KillsOnlySignal(rounds, ids, s', ids.p1, s.g.pid4At1);
  }

  /** A statement of P2, P3 or P4. */
  predicate Ran(s: State, t: State) {
    && t.n == s.n && t.h == s.h && t.pc.p1 == s.pc.p1 && t.pc.round == s.pc.round
    && t.pc.p2 + t.pc.p3 + t.pc.p4 == s.pc.p2 + s.pc.p3 + s.pc.p4 + 1
  }

  lemma Main2Ran(rounds: nat, ids: Ids, s: State)
    ensures Main2(rounds, ids, s) == s || Ran(s, Main2(rounds, ids, s))
  {
    KillsOnlySignal(rounds, ids, s.(pc := s.pc.(p2 := s.pc.p2 + 1)), ids.p2, s.g.pid3At2);
  }

  lemma Main3Ran(rounds: nat, ids: Ids, s: State)
    ensures Main3(rounds, ids, s) == s || Ran(s, Main3(rounds, ids, s))
  {
    KillsOnlySignal(rounds, ids, s.(pc := s.pc.(p3 := s.pc.p3 + 1)), ids.p3, s.g.pid4At3);
  }

  lemma Main4Ran(rounds: nat, ids: Ids, s: State)
    ensures Main4(rounds, ids, s) == s || Ran(s, Main4(rounds, ids, s))
  {
    KillsOnlySignal(rounds, ids, s.(pc := s.pc.(p4 := s.pc.p4 + 1)), ids.p4, s.g.pid1At4);
  }

  lemma OtherMains(rounds: nat, ids: Ids, s: State, k: nat)
    requires k != 1
    ensures var t := Step(rounds, ids, s, Main(k)); t == s || Ran(s, t)
  {
    Main2Ran(rounds, ids, s);
    Main3Ran(rounds, ids, s);
    Main4Ran(rounds, ids, s);
  }

  /** A handler passed its signal on. */
  predicate Passed(s: State, t: State) { t.pc == s.pc && t.n == s.n && Busy(t.h) == Busy(s.h) - 1 }

  lemma Forwards(rounds: nat, ids: Ids, s: State, k: nat)
    ensures var t := Step(rounds, ids, s, Forward(k)); t == s || Passed(s, t)
  {
    var s2, s3, s4 := s.(h := s.h.(h2 := Idle)), s.(h := s.h.(h3 := Idle)), s.(h := s.h.(h4 := Idle));
    KillsOnlySignal(rounds, ids, s2, ids.p2, s.g.pid3At2);
    KillsOnlySignal(rounds, ids, s2, ids.p2, s.g.pid1At2);
    KillsOnlySignal(rounds, ids, s3, ids.p3, s.g.pid4At3);
    KillsOnlySignal(rounds, ids, s3, ids.p3, s.g.pid2At3);
    KillsOnlySignal(rounds, ids, s4, ids.p4, s.g.pid1At4);
    KillsOnlySignal(rounds, ids, s4, ids.p4, s.g.pid3At4);
  }

  /** A handler of P2, P3 or P4 was entered. */
  predicate Entered(s: State, t: State) {
    t.pc == s.pc && Handled(t.n) == Handled(s.n) + 1 && Busy(t.h) <= Busy(s.h) + 1
  }

  lemma Usr1Enters(rounds: nat, ids: Ids, s: State, k: nat)
    requires k != 1
    ensures var t := Step(rounds, ids, s, Usr1(k)); t == s || Entered(s, t)
  {
  }

  lemma Usr2Enters(rounds: nat, ids: Ids, s: State, k: nat)
    requires k != 1
    ensures var t := Step(rounds, ids, s, Usr2(k)); t == s || Entered(s, t)
  {
  }

  lemma WakeKeeps(rounds: nat, s: State)
    ensures var t := Wake(s);
      && Position1(rounds, t.pc) >= Position1(rounds, s.pc)
      && t.pc.p2 == s.pc.p2 && t.pc.p3 == s.pc.p3 && t.pc.p4 == s.pc.p4 && t.n == s.n && t.h == s.h && t.g == s.g
  {
  }

  lemma Usr1At1Progress(rounds: nat, s: State)
    ensures Usr1At1(s) == s || Progress(rounds, Usr1At1(s)) > Progress(rounds, s)
  {
    if s.sig.u1.Some? {
      WakeKeeps(rounds, s.(sig := s.sig.(u1 := None), n := s.n.(a1 := s.n.a1 + 1),
                      g := s.g.(pid4At1 := if s.n.a1 == 0 then s.sig.u1.value else s.g.pid4At1,
                                broken := s.g.broken || s.pc.p1 == 0)));
    }
  }

  lemma Usr2At1Progress(rounds: nat, s: State)
    ensures Usr2At1(s) == s || Progress(rounds, Usr2At1(s)) > Progress(rounds, s)
  {
    if s.sig.v1 {
      WakeKeeps(rounds, s.(sig := s.sig.(v1 := false), n := s.n.(b1 := s.n.b1 + 1),
                      g := s.g.(broken := s.g.broken || s.pc.p1 == 0)));
    }
  }

  /** Every step that changes something is progress. */
  lemma StepProgress(rounds: nat, ids: Ids, s: State, m: Move)
    requires Inv(rounds, ids, s) && Step(rounds, ids, s, m) != s
    ensures Progress(rounds, Step(rounds, ids, s, m)) > Progress(rounds, s)
  {
    match m
    case Main(k) => if k == 1 { Main1Progress(rounds, ids, s); } else { OtherMains(rounds, ids, s, k); }
    case Forward(k) => Forwards(rounds, ids, s, k);
    case Usr1(k) => if k == 1 { Usr1At1Progress(rounds, s); } else { Usr1Enters(rounds, ids, s, k); }
    case Usr2(k) => if k == 1 { Usr2At1Progress(rounds, s); } else { Usr2Enters(rounds, ids, s, k); }
  }

  lemma ProgressBounded(rounds: nat, ids: Ids, s: State)
    requires Inv(rounds, ids, s)
    ensures Progress(rounds, s) <= 22 * rounds + 35
  {
    CountsBounded(rounds, ids, s);
    assert Position1(rounds, s.pc) <= 6 * rounds + 6;
  }

  lemma CountsBounded(rounds: nat, ids: Ids, s: State)
    requires Inv(rounds, ids, s)
    ensures s.n.a1 <= rounds + 1 && s.n.a2 <= rounds + 1 && s.n.a3 <= rounds + 1 && s.n.a4 <= rounds + 1
    ensures s.n.b1 <= rounds + 1 && s.n.b2 <= rounds + 1 && s.n.b3 <= rounds + 1 && s.n.b4 <= rounds + 1
  {
  }

  /** Every move changes something. */
  ghost predicate Effective(rounds: nat, ids: Ids, moves: seq<Move>) {
    forall k: nat :: k < |moves| ==> Run(rounds, ids, moves[..k]) != Run(rounds, ids, moves[..k + 1])
  }

  /** Runs are bounded: with EndStates, every one that goes on as long as it can ends in the
      normal end or a missed wake-up. */
  lemma {:induction false} RunsEnd(rounds: nat, ids: Ids, moves: seq<Move>)
    requires Distinct(ids) && Effective(rounds, ids, moves)
    ensures |moves| <= Progress(rounds, Run(rounds, ids, moves)) <= 22 * rounds + 35
  {
    RunProgress(rounds, ids, moves);
    if moves != [] {
      var n := |moves| - 1;
      var before := moves[..n];
      assert forall k: nat :: k <= n ==> before[..k] == moves[..k];
      RunsEnd(rounds, ids, before);
      assert moves[..n + 1] == moves;
    }
  }

  lemma RunProgress(rounds: nat, ids: Ids, moves: seq<Move>)
    requires Distinct(ids)
    ensures Progress(rounds, Run(rounds, ids, moves)) <= 22 * rounds + 35
    ensures moves != [] ==>
      var s, t := Run(rounds, ids, moves[..|moves| - 1]), Run(rounds, ids, moves);
      t == s || Progress(rounds, t) > Progress(rounds, s)
  {
    RunInv(rounds, ids, moves);
    ProgressBounded(rounds, ids, Run(rounds, ids, moves));
    if moves != [] {
      var n := |moves| - 1;
      RunInv(rounds, ids, moves[..n]);
      var s := Run(rounds, ids, moves[..n]);
      if Run(rounds, ids, moves) != s { StepProgress(rounds, ids, s, moves[n]); }
    }
  }

  // ---- which ends occur ----

  lemma ReachableStep(rounds: nat, ids: Ids, s: State, m: Move)
    requires Distinct(ids) && Reachable(rounds, ids, s)
    ensures Reachable(rounds, ids, Step(rounds, ids, s, m))
    ensures Inv(rounds, ids, s) && Inv(rounds, ids, Step(rounds, ids, s, m))
  {
    var moves :| Run(rounds, ids, moves) == s;
    assert (moves + [m])[..|moves|] == moves;
    assert Run(rounds, ids, moves + [m]) == Step(rounds, ids, s, m);
    RunInv(rounds, ids, moves);
    RunInv(rounds, ids, moves + [m]);
  }

  /** The wake-up P1 needs next is still to come. */
  predicate Prompt(s: State) {
    && (s.pc.p1 == 4 || s.pc.p1 == 5 ==> s.n.a1 != s.pc.round + 2)
    && (s.pc.p1 == 7 || s.pc.p1 == 8 ==> s.n.b1 != s.pc.round + 1)
  }

  /** It stays so if P1 goes from `kill` to `pause` at once. */
  lemma PromptMain(rounds: nat, ids: Ids, s: State, k: nat)
    requires Inv(rounds, ids, s) && Prompt(s)
    ensures Prompt(Step(rounds, ids, s, Main(k)))
  {
    if k == 1 {
      var s1 := s.(pc := s.pc.(p1 := s.pc.p1 + 1));
      KillsOnlySignal(rounds, ids, s1, ids.p1, s.g.pid2At1);
      KillsOnlySignal(rounds, ids, s1, ids.p1, s.g.pid4At1);
    } else {
      OtherMains(rounds, ids, s, k);
    }
  }

  lemma PromptHandler(rounds: nat, ids: Ids, s: State, m: Move)
    requires Inv(rounds, ids, s) && Prompt(s) && s.pc.p1 != 4 && s.pc.p1 != 7 && (m.Usr1? || m.Usr2?)
    ensures Prompt(Step(rounds, ids, s, m))
  {
  }

  lemma PromptKept(rounds: nat, ids: Ids, s: State, m: Move)
    requires Inv(rounds, ids, s) && Prompt(s) && (s.pc.p1 == 4 || s.pc.p1 == 7 ==> m == Main(1))
    ensures Prompt(Step(rounds, ids, s, m))
  {
    match m
    case Main(k) => PromptMain(rounds, ids, s, k);
    case Forward(k) => Forwards(rounds, ids, s, k);
    case _ => PromptHandler(rounds, ids, s, m);
  }

  lemma ChosenMoves(rounds: nat, ids: Ids, s: State)
    requires Distinct(ids) && Inv(rounds, ids, s) && !AllDone(rounds, s) && !MissedWakeup(s)
    ensures Step(rounds, ids, s, Chosen(s)) != s
  {
    if InFlight(s) > 0 { ChosenDelivers(rounds, ids, s); } else { ChosenRuns(rounds, ids, s); }
  }

  lemma PromptMove(rounds: nat, ids: Ids, s: State) returns (m: Move)
    requires Distinct(ids) && Inv(rounds, ids, s) && Prompt(s) && !AllDone(rounds, s)
    ensures Prompt(Step(rounds, ids, s, m)) && Progress(rounds, Step(rounds, ids, s, m)) > Progress(rounds, s)
  {
    if s.pc.p1 == 4 || s.pc.p1 == 7 {
      m := Main(1);
      assert Step(rounds, ids, s, m).pc != s.pc;
    } else {
      m := Chosen(s);
      ChosenMoves(rounds, ids, s);
    }
    PromptKept(rounds, ids, s, m);
    StepProgress(rounds, ids, s, m);
  }

  /** From any state in which nothing is missed, the normal end can be reached. */
  lemma {:induction false} NormalEnd(rounds: nat, ids: Ids, s: State) returns (t: State)
    requires Distinct(ids) && Reachable(rounds, ids, s) && Prompt(s)
    ensures Reachable(rounds, ids, t) && AllDone(rounds, t)
    decreases 22 * rounds + 35 - Progress(rounds, s)
  {
    if AllDone(rounds, s) {
      t := s;
    } else {
      ReachableStep(rounds, ids, s, Main(1));
      var m := PromptMove(rounds, ids, s);
      var next := Step(rounds, ids, s, m);
      ReachableStep(rounds, ids, s, m);
      ProgressBounded(rounds, ids, next);
      t := NormalEnd(rounds, ids, next);
    }
  }

  /** P1 has sent its first signal at most, and is not in `pause` unless that came back before. */
  predicate Slow(s: State) {
    s.pc.round == 0 && (s.pc.p1 <= 4 || (s.pc.p1 == 5 && s.n.a1 == 2))
  }

  lemma SlowOther(rounds: nat, ids: Ids, s: State, m: Move)
    requires Slow(s) && s.pc.p1 <= 4 && m != Main(1)
    ensures Slow(Step(rounds, ids, s, m))
  {
    if m.Main? {
      OtherMains(rounds, ids, s, m.k);
    } else if m.Forward? {
      Forwards(rounds, ids, s, m.k);
    }
  }

  /** P1 enters `pause` only after everything under way has been delivered. */
  lemma SlowMain(rounds: nat, ids: Ids, s: State)
    requires rounds >= 1 && Inv(rounds, ids, s) && Slow(s) && s.pc.p1 <= 4 && (s.pc.p1 == 4 ==> InFlight(s) == 0)
    ensures Slow(Main1(rounds, ids, s))
  {
    KillsOnlySignal(rounds, ids, s.(pc := s.pc.(p1 := s.pc.p1 + 1)), ids.p1, s.g.pid2At1);
  }

  lemma {:induction false} EarlyStop(rounds: nat, ids: Ids, s: State) returns (t: State)
    requires rounds >= 1 && Distinct(ids) && Reachable(rounds, ids, s) && Slow(s)
    ensures Reachable(rounds, ids, t) && MissedWakeup(t)
    decreases 22 * rounds + 35 - Progress(rounds, s)
  {
    var m := Chosen(s);
    var next := Step(rounds, ids, s, m);
    ReachableStep(rounds, ids, s, m);
    ProgressBounded(rounds, ids, s);
    if s.pc.p1 == 5 {
      t := s;
    } else {
      ChosenMoves(rounds, ids, s);
      if m == Main(1) { SlowMain(rounds, ids, s); } else { SlowOther(rounds, ids, s, m); }
      StepProgress(rounds, ids, s, m);
      ProgressBounded(rounds, ids, next);
      t := EarlyStop(rounds, ids, next);
    }
  }

  /** For every number of rounds the normal end can be reached; P1 can also stop early, exactly
      when there is a round at all. */
  lemma EarlyStopExactly(rounds: nat, ids: Ids)
    requires Distinct(ids)
    ensures exists s :: Reachable(rounds, ids, s) && AllDone(rounds, s)
    ensures (exists s :: Reachable(rounds, ids, s) && MissedWakeup(s)) <==> rounds >= 1
  {
    assert Run(rounds, ids, []) == Init();
    var t := NormalEnd(rounds, ids, Init());
    if rounds >= 1 {
      var e := EarlyStop(rounds, ids, Init());
    } else if s :| Reachable(rounds, ids, s) && MissedWakeup(s) {
      var moves :| Run(rounds, ids, moves) == s;
      RunInv(rounds, ids, moves);
    }
  }
}
