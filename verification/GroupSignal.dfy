/** The rendezvous of 12-1-22/group_signal: four processes learn each other's pids through
    one typed message queue and SIGUSR1, then the leader hands out a group id.

    A process is a program counter over the statements that matter. The waits
    `while (pid == -1) pause()` are one atomic step. Signals are pending bits, a second one of
    a kind coalescing with the first. A message queue receive that is blocked fails when a
    signal is handled, or when the leader has removed the queue; the process then exits.
    `setpgid` is refused for processes that are neither the caller nor its children, so which
    processes are in the leader's group depends on how they were started; it is left open. */
module GroupSignal {
  import opened TypedQueue
  import opened FourProcesses
  import opened Options

  /** Program counters of the four processes. */
  datatype Pcs = Pcs(p1: nat, p2: nat, p3: nat, p4: nat)

  /** Senders of the pending SIGUSR1 signals. */
  datatype Pending = Pending(p1: Option<int>, p2: Option<int>, p3: Option<int>, p4: Option<int>)

  /** The globals of the four programs, and two marks: a kill that named no process, a SIGUSR1
      sent to a process that already had one pending. */
  datatype Globals = Globals(
    count1: nat, pid2At1: int, pid3At1: int, pid4At1: int,
    pid1At2: int, pid3At2: int, group2: int,
    pid2At3: int, pid4At3: int, group3: int,
    pid3At4: int, pid1At4: int, group4: int,
    stray: bool, lost: bool)

  /** `usr2` and `failed` are the processes with a pending SIGUSR2 and those that gave up; `handled`
      and `merged` count, for each process, the SIGUSR2 it has handled and those that met one
      already pending there. */
  datatype State = State(
    q: seq<Msg<int>>, removed: bool, pc: Pcs, usr1: Pending, g: Globals, usr2: set<nat>, failed: set<nat>,
    handled: multiset<nat>, merged: multiset<nat>)

  function Init(): State {
    State([], false, Pcs(0, 0, 0, 0), Pending(None, None, None, None),
          Globals(0, 0, 0, -1, -1, 0, 0, -1, 0, 0, -1, 0, 0, false, false), {}, {}, multiset{}, multiset{})
  }

  /** `msgsnd`. */
  function Post(s: State, t: nat, body: int): State { s.(q := Send(s.q, t, body)) }

  /** `kill(target, SIGUSR1)`. */
  function Kill(ids: Ids, s: State, sender: int, target: int): State {
    var u, lost := s.usr1, s.g.lost;
    if target == ids.p1 then s.(usr1 := u.(p1 := Some(sender)), g := s.g.(lost := lost || u.p1.Some?))
    else if target == ids.p2 then s.(usr1 := u.(p2 := Some(sender)), g := s.g.(lost := lost || u.p2.Some?))
    else if target == ids.p3 then s.(usr1 := u.(p3 := Some(sender)), g := s.g.(lost := lost || u.p3.Some?))
    else if target == ids.p4 then s.(usr1 := u.(p4 := Some(sender)), g := s.g.(lost := lost || u.p4.Some?))
    else s.(g := s.g.(stray := true))
  }

  /** `killpg(target, SIGUSR2)`, group being the processes in the leader's group. */
  function KillGroup(ids: Ids, group: set<nat>, s: State, target: int): State {
    if target == ids.p1 then s.(usr2 := s.usr2 + group, merged := s.merged + multiset(s.usr2 * group))
    else s.(g := s.g.(stray := true))
  }

  /** The type a process waits for in `msgrcv` at its program counter, 0 when it is elsewhere. */
  function Wants1(pc: nat): nat { if pc == 0 then 2 else if 3 <= pc <= 5 then 18 else 0 }
  function Wants2(pc: nat): nat { if pc == 2 then 3 else if pc == 6 then 2 else 0 }
  function Wants3(pc: nat): nat { if pc == 3 then 4 else if pc == 5 then 3 else 0 }
  function Wants4(pc: nat): nat { if pc == 3 then 1 else if pc == 5 then 4 else 0 }

  function Fail(s: State, k: nat): State { s.(failed := s.failed + {k}) }

  /** p1.c: 0 receive type 2; 1 kill P2; 2 wait for P4; 3-5 receive type 18 three times;
      6 setpgid; 7-9 send the group id as types 2, 3, 4; 10 scanf; 11 queue removed. */
  function Main1(ids: Ids, s: State): State {
    var pc, t := s.pc.p1, Wants1(s.pc.p1);
    var s' := s.(pc := s.pc.(p1 := pc + 1));
    if 1 in s.failed then s
    else if t != 0 && s.removed then Fail(s, 1)
    else if t != 0 && OfType(s.q, t) == [] then s
    else if t != 0 then
      var (body, rest) := Receive(s.q, t);
      if pc == 0 then s'.(q := rest, g := s.g.(pid2At1 := body))
      else if pc == 4 then s'.(q := rest, g := s.g.(pid3At1 := body))
      else if pc == 5 then s'.(q := rest, g := s.g.(pid4At1 := body))
      else s'.(q := rest)
    else if pc == 1 then Kill(ids, s', ids.p1, s.g.pid2At1)
    else if pc == 2 then (if s.g.pid4At1 == -1 then s else s')
    else if pc == 6 then s'
    else if 7 <= pc <= 9 then Post(s', pc - 5, ids.p1)
    else if pc == 10 then s'.(removed := true)
    else s
  }

  /** p2.c: 0 send own pid as type 2; 1 wait for P1; 2 receive type 3; 3 send P1's pid as
      type 1; 4 send own pid as type 18; 5 kill P3; 6 receive type 2; 7 killpg; 8 end. */
  function Main2(ids: Ids, group: set<nat>, s: State): State {
    var pc, t := s.pc.p2, Wants2(s.pc.p2);
    var s' := s.(pc := s.pc.(p2 := pc + 1));
    if 2 in s.failed then s
    else if t != 0 && s.removed then Fail(s, 2)
    else if t != 0 && OfType(s.q, t) == [] then s
    else if t != 0 then
      var (body, rest) := Receive(s.q, t);
      s'.(q := rest, g := if pc == 2 then s.g.(pid3At2 := body) else s.g.(group2 := body))
    else if pc == 0 then Post(s', 2, ids.p2)
    else if pc == 1 then (if s.g.pid1At2 == -1 then s else s')
    else if pc == 3 then Post(s', 1, s.g.pid1At2)
    else if pc == 4 then Post(s', 18, ids.p2)
    else if pc == 5 then Kill(ids, s', ids.p2, s.g.pid3At2)
    else if pc == 7 then KillGroup(ids, group, s', s.g.group2)
    else s
  }

  /** p3.c: 0 send own pid as type 3; 1 wait for P2; 2 send own pid as type 18; 3 receive
      type 4; 4 kill P4; 5 receive type 3; 6 killpg; 7 end. */
  function Main3(ids: Ids, group: set<nat>, s: State): State {
    var pc, t := s.pc.p3, Wants3(s.pc.p3);
    var s' := s.(pc := s.pc.(p3 := pc + 1));
    if 3 in s.failed then s
    else if t != 0 && s.removed then Fail(s, 3)
    else if t != 0 && OfType(s.q, t) == [] then s
    else if t != 0 then
      var (body, rest) := Receive(s.q, t);
      s'.(q := rest, g := if pc == 3 then s.g.(pid4At3 := body) else s.g.(group3 := body))
    else if pc == 0 then Post(s', 3, ids.p3)
    else if pc == 1 then (if s.g.pid2At3 == -1 then s else s')
    else if pc == 2 then Post(s', 18, ids.p3)
    else if pc == 4 then Kill(ids, s', ids.p3, s.g.pid4At3)
    else if pc == 6 then KillGroup(ids, group, s', s.g.group3)
    else s
  }

  /** p4.c: 0 send own pid as type 4; 1 wait for P3; 2 send own pid as type 18; 3 receive
      type 1; 4 kill P1; 5 receive type 4; 6 killpg; 7 end. */
  function Main4(ids: Ids, group: set<nat>, s: State): State {
    var pc, t := s.pc.p4, Wants4(s.pc.p4);
    var s' := s.(pc := s.pc.(p4 := pc + 1));
    if 4 in s.failed then s
    else if t != 0 && s.removed then Fail(s, 4)
    else if t != 0 && OfType(s.q, t) == [] then s
    else if t != 0 then
      var (body, rest) := Receive(s.q, t);
      s'.(q := rest, g := if pc == 3 then s.g.(pid1At4 := body) else s.g.(group4 := body))
    else if pc == 0 then Post(s', 4, ids.p4)
    else if pc == 1 then (if s.g.pid3At4 == -1 then s else s')
    else if pc == 2 then Post(s', 18, ids.p4)
    else if pc == 4 then Kill(ids, s', ids.p4, s.g.pid1At4)
    else if pc == 6 then KillGroup(ids, group, s', s.g.group4)
    else s
  }

  function Sender(u: Pending, k: nat): Option<int> {
    if k == 1 then u.p1 else if k == 2 then u.p2 else if k == 3 then u.p3 else if k == 4 then u.p4 else None
  }

  /** SIGUSR1 reaches process k, whose handler stores the sender. */
  function Usr1(s: State, k: nat): State
    requires Sender(s.usr1, k).Some?
  {
    var pid, u, g := Sender(s.usr1, k).value, s.usr1, s.g;
    if k == 1 then
      s.(usr1 := u.(p1 := None), g := g.(count1 := g.count1 + 1, pid4At1 := if g.count1 == 0 then pid else g.pid4At1))
    else if k == 2 then s.(usr1 := u.(p2 := None), g := g.(pid1At2 := pid))
    else if k == 3 then s.(usr1 := u.(p3 := None), g := g.(pid2At3 := pid))
    else s.(usr1 := u.(p4 := None), g := g.(pid3At4 := pid))
  }

  /** SIGUSR2 reaches process k. */
  function Usr2(s: State, k: nat): State { s.(usr2 := s.usr2 - {k}, handled := s.handled + multiset{k}) }

  /** The type process k is blocked on, if it is. */
  function Wants(pc: Pcs, k: nat): nat {
    if k == 1 then Wants1(pc.p1) else if k == 2 then Wants2(pc.p2) else if k == 3 then Wants3(pc.p3)
    else if k == 4 then Wants4(pc.p4) else 0
  }

  /** A process blocked in `msgrcv` is failed by a handled signal. */
  function Interrupt(s: State, k: nat): State {
    if Wants(s.pc, k) != 0 && OfType(s.q, Wants(s.pc, k)) == [] then Fail(s, k) else s
  }

  /** What may happen next: process k runs, or a signal is handled in it, with or without
      failing a blocked receive. */
  datatype Move = Main(k: nat) | Signal1(k: nat, interrupts: bool) | Signal2(k: nat, interrupts: bool)

  function Step(ids: Ids, group: set<nat>, s: State, m: Move): State {
    match m
    case Main(k) =>
      if k == 1 then Main1(ids, s)
      else if k == 2 then Main2(ids, group, s)
      else if k == 3 then Main3(ids, group, s)
      else if k == 4 then Main4(ids, group, s)
      else s
    case Signal1(k, interrupts) =>
      if Sender(s.usr1, k).None? || k in s.failed then s
      else if interrupts then Interrupt(Usr1(s, k), k) else Usr1(s, k)
    case Signal2(k, interrupts) =>
      // the SIGUSR2 handler only prints
      if k !in s.usr2 || k in s.failed then s
      else if interrupts then Interrupt(Usr2(s, k), k) else Usr2(s, k)
  }

  function Run(ids: Ids, group: set<nat>, moves: seq<Move>): State {
    if moves == [] then Init()
    else
      var n := |moves| - 1;
      Step(ids, group, Run(ids, group, moves[..n]), moves[n])
  }

  ghost predicate Reachable(ids: Ids, group: set<nat>, s: State) {
    exists moves :: Run(ids, group, moves) == s
  }

  /** What the queue holds, type by type, as a function of how far everyone is. */
  ghost predicate QueueInv(ids: Ids, q: seq<Msg<int>>, pc: Pcs) {
    && OfType(q, 1) == If(pc.p2 > 3 && pc.p4 <= 3, ids.p1)
    && OfType(q, 2) == If(pc.p2 > 0 && pc.p1 == 0, ids.p2) + If(pc.p1 > 7 && pc.p2 <= 6, ids.p1)
    && OfType(q, 3) == If(pc.p3 > 0 && pc.p2 <= 2, ids.p3) + If(pc.p1 > 8 && pc.p3 <= 5, ids.p1)
    && OfType(q, 4) == If(pc.p4 > 0 && pc.p3 <= 3, ids.p4) + If(pc.p1 > 9 && pc.p4 <= 5, ids.p1)
    && OfType(q, 18) == If(pc.p2 > 4 && pc.p1 <= 3, ids.p2) + If(pc.p3 > 2 && pc.p1 <= 4, ids.p3)
                        + If(pc.p4 > 2 && pc.p1 <= 5, ids.p4)
  }

  /** Who must have done what before whom. */
  ghost predicate OrderInv(pc: Pcs) {
    && (pc.p1 > 0 ==> pc.p2 > 0)
    && (pc.p2 > 1 ==> pc.p1 > 1)
    && (pc.p2 > 2 ==> pc.p3 > 0)
    && (pc.p3 > 1 ==> pc.p2 > 5)
    && (pc.p3 > 3 ==> pc.p4 > 0)
    && (pc.p4 > 1 ==> pc.p3 > 4)
    && (pc.p1 > 2 ==> pc.p4 > 4)
    && (pc.p2 > 6 ==> pc.p1 > 7)
    && (pc.p3 > 5 ==> pc.p1 > 8)
    && (pc.p4 > 5 ==> pc.p1 > 9)
  }

  /** Each SIGUSR1 is pending or has been handled exactly when it has been sent. */
  ghost predicate SignalInv(ids: Ids, pc: Pcs, u: Pending, g: Globals) {
    && !g.stray && !g.lost
    && (u.p2 == (if pc.p1 > 1 && g.pid1At2 == -1 then Some(ids.p1) else None))
    && (g.pid1At2 == -1 || (g.pid1At2 == ids.p1 && pc.p1 > 1))
    && (pc.p2 > 1 ==> g.pid1At2 == ids.p1)
    && (u.p3 == (if pc.p2 > 5 && g.pid2At3 == -1 then Some(ids.p2) else None))
    && (g.pid2At3 == -1 || (g.pid2At3 == ids.p2 && pc.p2 > 5))
    && (pc.p3 > 1 ==> g.pid2At3 == ids.p2)
    && (u.p4 == (if pc.p3 > 4 && g.pid3At4 == -1 then Some(ids.p3) else None))
    && (g.pid3At4 == -1 || (g.pid3At4 == ids.p3 && pc.p3 > 4))
    && (pc.p4 > 1 ==> g.pid3At4 == ids.p3)
    && (u.p1 == (if pc.p4 > 4 && g.count1 == 0 then Some(ids.p4) else None))
    && (g.count1 == 0 || (g.count1 == 1 && pc.p4 > 4))
    && (g.pid4At1 == if g.count1 == 0 then -1 else ids.p4)
    && (pc.p1 > 2 ==> g.count1 == 1)
  }

  /** Every receive has returned the intended message. */
  ghost predicate Intended(ids: Ids, pc: Pcs, g: Globals) {
    && (pc.p1 > 0 ==> g.pid2At1 == ids.p2)
    && (pc.p1 > 4 ==> g.pid3At1 == ids.p3)
    && (pc.p1 > 5 ==> g.pid4At1 == ids.p4)
    && (pc.p2 > 2 ==> g.pid3At2 == ids.p3)
    && (pc.p2 > 6 ==> g.group2 == ids.p1)
    && (pc.p3 > 3 ==> g.pid4At3 == ids.p4)
    && (pc.p3 > 5 ==> g.group3 == ids.p1)
    && (pc.p4 > 3 ==> g.pid1At4 == ids.p1)
    && (pc.p4 > 5 ==> g.group4 == ids.p1)
  }

  ghost predicate Inv(ids: Ids, s: State) {
    && s.pc.p1 <= 11 && s.pc.p2 <= 8 && s.pc.p3 <= 7 && s.pc.p4 <= 7
    && QueueInv(ids, s.q, s.pc) && OrderInv(s.pc) && SignalInv(ids, s.pc, s.usr1, s.g) && Intended(ids, s.pc, s.g)
    && (s.removed <==> s.pc.p1 == 11)
  }

  lemma Main1First(ids: Ids, s: State)
    requires Distinct(ids) && Inv(ids, s) && s.pc.p1 == 0
    ensures Inv(ids, Main1(ids, s))
  {
    if OfType(s.q, 2) != [] { ReceiveAll(s.q, 2); }
  }

  lemma Main1Receive(ids: Ids, s: State)
    requires Distinct(ids) && Inv(ids, s) && 3 <= s.pc.p1 <= 5
    ensures Inv(ids, Main1(ids, s))
  {
    if OfType(s.q, 18) != [] { ReceiveAll(s.q, 18); }
  }

  lemma Main1Post2(ids: Ids, s: State)
    requires Distinct(ids) && Inv(ids, s) && s.pc.p1 == 7
    ensures Inv(ids, Main1(ids, s))
  {
    SendAll(s.q, 2, ids.p1);
  }

  lemma Main1Post3(ids: Ids, s: State)
    requires Distinct(ids) && Inv(ids, s) && s.pc.p1 == 8
    ensures Inv(ids, Main1(ids, s))
  {
    SendAll(s.q, 3, ids.p1);
  }

  lemma Main1Post4(ids: Ids, s: State)
    requires Distinct(ids) && Inv(ids, s) && s.pc.p1 == 9
    ensures Inv(ids, Main1(ids, s))
  {
    SendAll(s.q, 4, ids.p1);
  }

  lemma Main1Kill(ids: Ids, s: State)
    requires Distinct(ids) && Inv(ids, s) && s.pc.p1 == 1
    ensures Inv(ids, Main1(ids, s))
  {
  }

  lemma Main1Other(ids: Ids, s: State)
    requires Distinct(ids) && Inv(ids, s) && (s.pc.p1 == 2 || s.pc.p1 == 6 || s.pc.p1 >= 10)
    ensures Inv(ids, Main1(ids, s))
  {
  }

  lemma Main1Inv(ids: Ids, s: State)
    requires Distinct(ids) && Inv(ids, s)
    ensures Inv(ids, Main1(ids, s))
  {
    if s.pc.p1 == 0 { Main1First(ids, s); }
    else if 3 <= s.pc.p1 <= 5 { Main1Receive(ids, s); }
    else if s.pc.p1 == 1 { Main1Kill(ids, s); }
    else if s.pc.p1 == 7 { Main1Post2(ids, s); }
    else if s.pc.p1 == 8 { Main1Post3(ids, s); }
    else if s.pc.p1 == 9 { Main1Post4(ids, s); }
    else { Main1Other(ids, s); }
  }

  lemma Main2Receive(ids: Ids, group: set<nat>, s: State)
    requires Distinct(ids) && Inv(ids, s) && Wants2(s.pc.p2) != 0
    ensures Inv(ids, Main2(ids, group, s))
  {
    var t := Wants2(s.pc.p2);
    if OfType(s.q, t) != [] { ReceiveAll(s.q, t); }
  }

  lemma Main2Announce(ids: Ids, group: set<nat>, s: State)
    requires Distinct(ids) && Inv(ids, s) && s.pc.p2 == 0
    ensures Inv(ids, Main2(ids, group, s))
  {
    SendAll(s.q, 2, ids.p2);
  }

  lemma Main2Post1(ids: Ids, group: set<nat>, s: State)
    requires Distinct(ids) && Inv(ids, s) && s.pc.p2 == 3
    ensures Inv(ids, Main2(ids, group, s))
  {
    SendAll(s.q, 1, s.g.pid1At2);
  }

  lemma Main2Post18(ids: Ids, group: set<nat>, s: State)
    requires Distinct(ids) && Inv(ids, s) && s.pc.p2 == 4
    ensures Inv(ids, Main2(ids, group, s))
  {
    SendAll(s.q, 18, ids.p2);
  }

  lemma Main2Other(ids: Ids, group: set<nat>, s: State)
    requires Distinct(ids) && Inv(ids, s) && Wants2(s.pc.p2) == 0 && s.pc.p2 !in {0, 3, 4}
    ensures Inv(ids, Main2(ids, group, s))
  {
  }

  lemma Main3Receive(ids: Ids, group: set<nat>, s: State)
    requires Distinct(ids) && Inv(ids, s) && Wants3(s.pc.p3) != 0
    ensures Inv(ids, Main3(ids, group, s))
  {
    var t := Wants3(s.pc.p3);
    if OfType(s.q, t) != [] { ReceiveAll(s.q, t); }
  }

  lemma Main3Post(ids: Ids, group: set<nat>, s: State)
    requires Distinct(ids) && Inv(ids, s) && s.pc.p3 in {0, 2}
    ensures Inv(ids, Main3(ids, group, s))
  {
    if s.pc.p3 == 0 { SendAll(s.q, 3, ids.p3); }
    if s.pc.p3 == 2 { SendAll(s.q, 18, ids.p3); }
  }

  lemma Main3Other(ids: Ids, group: set<nat>, s: State)
    requires Distinct(ids) && Inv(ids, s) && Wants3(s.pc.p3) == 0 && s.pc.p3 !in {0, 2}
    ensures Inv(ids, Main3(ids, group, s))
  {
  }

  lemma Main4Receive(ids: Ids, group: set<nat>, s: State)
    requires Distinct(ids) && Inv(ids, s) && Wants4(s.pc.p4) != 0
    ensures Inv(ids, Main4(ids, group, s))
  {
    var t := Wants4(s.pc.p4);
    if OfType(s.q, t) != [] { ReceiveAll(s.q, t); }
  }

  lemma Main4Post(ids: Ids, group: set<nat>, s: State)
    requires Distinct(ids) && Inv(ids, s) && s.pc.p4 in {0, 2}
    ensures Inv(ids, Main4(ids, group, s))
  {
    if s.pc.p4 == 0 { SendAll(s.q, 4, ids.p4); }
    if s.pc.p4 == 2 { SendAll(s.q, 18, ids.p4); }
  }

  lemma Main4Other(ids: Ids, group: set<nat>, s: State)
    requires Distinct(ids) && Inv(ids, s) && Wants4(s.pc.p4) == 0 && s.pc.p4 !in {0, 2}
    ensures Inv(ids, Main4(ids, group, s))
  {
  }

  lemma MainInv(ids: Ids, group: set<nat>, s: State, k: nat)
    requires Distinct(ids) && Inv(ids, s)
    ensures Inv(ids, Step(ids, group, s, Main(k)))
  {
    if k == 1 {
      Main1Inv(ids, s);
    } else if k == 2 {
      Main2Inv(ids, group, s);
    } else if k == 3 {
      if Wants3(s.pc.p3) != 0 { Main3Receive(ids, group, s); }
      else if s.pc.p3 in {0, 2} { Main3Post(ids, group, s); }
      else { Main3Other(ids, group, s); }
    } else if k == 4 {
      if Wants4(s.pc.p4) != 0 { Main4Receive(ids, group, s); }
      else if s.pc.p4 in {0, 2} { Main4Post(ids, group, s); }
      else { Main4Other(ids, group, s); }
    }
  }

  lemma Main2Inv(ids: Ids, group: set<nat>, s: State)
    requires Distinct(ids) && Inv(ids, s)
    ensures Inv(ids, Main2(ids, group, s))
  {
    if Wants2(s.pc.p2) != 0 { Main2Receive(ids, group, s); }
    else if s.pc.p2 == 0 { Main2Announce(ids, group, s); }
    else if s.pc.p2 == 3 { Main2Post1(ids, group, s); }
    else if s.pc.p2 == 4 { Main2Post18(ids, group, s); }
    else { Main2Other(ids, group, s); }
  }

  lemma Usr1Inv(ids: Ids, s: State, k: nat)
    requires Distinct(ids) && Inv(ids, s) && Sender(s.usr1, k).Some?
    ensures Inv(ids, Usr1(s, k))
  {
  }

  lemma SignalStepInv(ids: Ids, group: set<nat>, s: State, m: Move)
    requires Distinct(ids) && Inv(ids, s) && !m.Main?
    ensures Inv(ids, Step(ids, group, s, m))
  {
    if m.Signal1? && Sender(s.usr1, m.k).Some? { Usr1Inv(ids, s, m.k); }
  }

  lemma {:induction false} RunInv(ids: Ids, group: set<nat>, moves: seq<Move>)
    requires Distinct(ids)
    ensures Inv(ids, Run(ids, group, moves))
  {
    if moves != [] {
      var n := |moves| - 1;
      var s, m := Run(ids, group, moves[..n]), moves[n];
      RunInv(ids, group, moves[..n]);
      if m.Main? { MainInv(ids, group, s, m.k); } else { SignalStepInv(ids, group, s, m); }
    }
  }

  /** In every run, whatever the scheduling, the interruptions and the outcome of `setpgid`:
      each receive that has returned gave the intended pid, P2, P3 and P4 have P1's group id
      and never their own pid, no SIGUSR1 names a wrong process or meets another one pending, and
      no `killpg` names a wrong group. */
  lemma EveryReceiveIntended(ids: Ids, group: set<nat>, s: State)
    requires Distinct(ids) && Reachable(ids, group, s)
    ensures Intended(ids, s.pc, s.g) && !s.g.stray && !s.g.lost
    ensures s.pc.p2 > 6 ==> s.g.group2 != ids.p2
    ensures s.pc.p3 > 5 ==> s.g.group3 != ids.p3
    ensures s.pc.p4 > 5 ==> s.g.group4 != ids.p4
  {
    var moves :| Run(ids, group, moves) == s;
    RunInv(ids, group, moves);
  }

  /** Everyone has what it came for; P1 sits in scanf or has removed the queue. */
  predicate Complete(s: State) {
    s.pc.p1 >= 10 && s.pc.p2 == 8 && s.pc.p3 == 7 && s.pc.p4 == 7
  }

  /** As long as no receive has failed and the queue stands, someone can move until all four
      are done: the order of receives cannot deadlock. */
  lemma SomeoneMoves(ids: Ids, group: set<nat>, s: State) returns (m: Move)
    requires Distinct(ids) && Reachable(ids, group, s)
    requires s.failed == {} && !s.removed && !Complete(s)
    ensures Step(ids, group, s, m) != s && !(m.Main? && m.k == 1 && s.pc.p1 == 10) && m == Chosen(s)
  {
    var moves :| Run(ids, group, moves) == s;
    RunInv(ids, group, moves);
    m := Chosen(s);
    if m.Main? { ChosenRuns(ids, group, s); } else { ChosenHandles(ids, group, s); }
  }

  lemma ChosenHandles(ids: Ids, group: set<nat>, s: State)
    requires s.failed == {} && !Chosen(s).Main?
    ensures Step(ids, group, s, Chosen(s)).usr1 != s.usr1
  {
  }

  lemma ChosenRuns(ids: Ids, group: set<nat>, s: State)
    requires Distinct(ids) && Inv(ids, s) && s.failed == {} && !s.removed && !Complete(s) && Chosen(s).Main?
    ensures Step(ids, group, s, Chosen(s)) != s
    ensures !(Chosen(s).k == 1 && s.pc.p1 == 10)
  {
    if Chosen(s).k == 1 { ChosenRuns1(ids, group, s); }
    else if Chosen(s).k == 2 { ChosenRuns2(ids, group, s); }
    else if Chosen(s).k == 3 { ChosenRuns3(ids, group, s); }
    else { ChosenRuns4(ids, group, s); }
  }

  lemma ChosenRuns1(ids: Ids, group: set<nat>, s: State)
    requires Distinct(ids) && Inv(ids, s) && s.failed == {} && !s.removed && !Complete(s) && Chosen(s) == Main(1)
    ensures Main1(ids, s).pc != s.pc && s.pc.p1 != 10
  {
  }

  lemma ChosenRuns2(ids: Ids, group: set<nat>, s: State)
    requires Distinct(ids) && Inv(ids, s) && s.failed == {} && !s.removed && !Complete(s) && Chosen(s) == Main(2)
    ensures Main2(ids, group, s).pc != s.pc
  {
  }

  lemma ChosenRuns3(ids: Ids, group: set<nat>, s: State)
    requires Distinct(ids) && Inv(ids, s) && s.failed == {} && !s.removed && !Complete(s) && Chosen(s) == Main(3)
    ensures Main3(ids, group, s).pc != s.pc
  {
  }

  lemma ChosenRuns4(ids: Ids, group: set<nat>, s: State)
    requires Distinct(ids) && Inv(ids, s) && s.failed == {} && !s.removed && !Complete(s) && Chosen(s) == Main(4)
    ensures Main4(ids, group, s).pc != s.pc
  {
  }

  /** Signals first, then the earliest process in the chain that has work. */
  function Chosen(s: State): Move {
    if s.usr1.p1.Some? then Signal1(1, false)
    else if s.usr1.p2.Some? then Signal1(2, false)
    else if s.usr1.p3.Some? then Signal1(3, false)
    else if s.usr1.p4.Some? then Signal1(4, false)
    else if s.pc.p2 == 0 then Main(2)
    else if s.pc.p3 == 0 then Main(3)
    else if s.pc.p4 == 0 then Main(4)
    else if s.pc.p1 < 10 && (s.pc.p1 == 2 ==> s.g.pid4At1 != -1) then Main(1)
    else if s.pc.p2 <= 5 || (s.pc.p1 == 10 && s.pc.p2 < 8) then Main(2)
    else if s.pc.p3 <= 4 || (s.pc.p1 == 10 && s.pc.p3 < 7) then Main(3)
    else Main(4)
  }

  // ---- when a receive can fail ----

  /** SIGUSR2 only goes to the group, and only once the leader has handed out its first id; until
      then no receive can be interrupted. */
  ghost predicate GroupInv(group: set<nat>, s: State) {
    && s.usr2 <= group
    && (s.usr2 != {} ==> s.pc.p1 > 7)
  }

  /** P3 and P4 are out of the group, or no failure has happened but by the queue's removal. */
  ghost predicate Unharmed(group: set<nat>, s: State) {
    GroupInv(group, s) && (!s.removed ==> s.failed == {})
  }

  lemma UnharmedMain(ids: Ids, group: set<nat>, s: State, k: nat)
    requires Distinct(ids) && Inv(ids, s) && Unharmed(group, s)
    ensures Unharmed(group, Step(ids, group, s, Main(k)))
  {
    if k == 1 {
      UnharmedMain1(ids, group, s);
    } else if k == 2 {
      UnharmedMain2(ids, group, s);
    } else if k == 3 {
      UnharmedMain3(ids, group, s);
    } else if k == 4 {
      UnharmedMain4(ids, group, s);
    }
  }

  lemma UnharmedMain1(ids: Ids, group: set<nat>, s: State)
    requires Distinct(ids) && Inv(ids, s) && Unharmed(group, s)
    ensures Unharmed(group, Main1(ids, s))
  {
  }

  lemma UnharmedMain2(ids: Ids, group: set<nat>, s: State)
    requires Distinct(ids) && Inv(ids, s) && Unharmed(group, s)
    ensures Unharmed(group, Main2(ids, group, s))
  {
    KillKeeps(ids, s.(pc := s.pc.(p2 := s.pc.p2 + 1)), ids.p2, s.g.pid3At2);
    if s.pc.p2 == 7 {
      assert s.pc.p1 > 7;
    } else {
      UnharmedMain2Other(ids, group, s);
    }
  }

  lemma UnharmedMain2Other(ids: Ids, group: set<nat>, s: State)
    requires Unharmed(group, s) && s.pc.p2 != 7
    ensures Unharmed(group, Main2(ids, group, s))
  {
    KillKeeps(ids, s.(pc := s.pc.(p2 := s.pc.p2 + 1)), ids.p2, s.g.pid3At2);
  }

  lemma UnharmedMain3(ids: Ids, group: set<nat>, s: State)
    requires Distinct(ids) && Inv(ids, s) && Unharmed(group, s)
    ensures Unharmed(group, Main3(ids, group, s))
  {
  }

  lemma UnharmedMain4(ids: Ids, group: set<nat>, s: State)
    requires Distinct(ids) && Inv(ids, s) && Unharmed(group, s)
    ensures Unharmed(group, Main4(ids, group, s))
  {
  }

  /** A pending SIGUSR1 finds its process outside any receive. */
  lemma UnharmedSignal1(ids: Ids, group: set<nat>, s: State, k: nat, interrupts: bool)
    requires Distinct(ids) && Inv(ids, s) && Unharmed(group, s)
    ensures Unharmed(group, Step(ids, group, s, Signal1(k, interrupts)))
  {
  }

  /** A pending SIGUSR2 finds P1 and P2 with nothing to wait for. */
  lemma UnharmedSignal2(ids: Ids, group: set<nat>, s: State, k: nat, interrupts: bool)
    requires Distinct(ids) && Inv(ids, s) && Unharmed(group, s) && 3 !in group && 4 !in group
    ensures Unharmed(group, Step(ids, group, s, Signal2(k, interrupts)))
  {
    if k in s.usr2 && k == 2 && s.pc.p2 == 6 {
      assert OfType(s.q, 2) == [ids.p1];
    }
  }

  lemma {:induction false} RunUnharmed(ids: Ids, group: set<nat>, moves: seq<Move>)
    requires Distinct(ids) && 3 !in group && 4 !in group
    ensures Unharmed(group, Run(ids, group, moves))
  {
    if moves != [] {
      var n := |moves| - 1;
      var s := Run(ids, group, moves[..n]);
      RunUnharmed(ids, group, moves[..n]);
      RunInv(ids, group, moves[..n]);
      match moves[n]
      case Main(k) => UnharmedMain(ids, group, s, k);
      case Signal1(k, interrupts) => UnharmedSignal1(ids, group, s, k, interrupts);
      case Signal2(k, interrupts) => UnharmedSignal2(ids, group, s, k, interrupts);
    }
  }

  // ---- how long a run can be ----

  function Pending1(u: Pending): nat {
    (if u.p1.Some? then 1 else 0) + (if u.p2.Some? then 1 else 0)
    + (if u.p3.Some? then 1 else 0) + (if u.p4.Some? then 1 else 0)
  }

  /** Statements executed and processes that gave up; signals pending. */
  function Done(s: State): nat { s.pc.p1 + s.pc.p2 + s.pc.p3 + s.pc.p4 + |s.failed| }

  function Waiting(s: State): nat { Pending1(s.usr1) + |s.usr2| }

  /** A statement counts for itself and for the signals it may send. */
  function Progress(group: set<nat>, s: State): int { (|group| + 2) * Done(s) - Waiting(s) }

  lemma UnionSize(a: set<nat>, b: set<nat>)
    ensures |a + b| <= |a| + |b|
  {
    assert |a + b| + |a * b| == |a| + |b|;
  }

  /** A process ran one statement, or gave up. */
  predicate Ran(group: set<nat>, s: State, t: State) {
    if t.failed == s.failed then
      && t.pc.p1 + t.pc.p2 + t.pc.p3 + t.pc.p4 == s.pc.p1 + s.pc.p2 + s.pc.p3 + s.pc.p4 + 1
      && Pending1(t.usr1) <= Pending1(s.usr1) + 1 && (t.usr2 == s.usr2 || t.usr2 == s.usr2 + group)
    else t.pc == s.pc && |t.failed| == |s.failed| + 1 && t.usr1 == s.usr1 && t.usr2 == s.usr2
  }

  lemma KillKeeps(ids: Ids, s: State, sender: int, target: int)
    ensures var t := Kill(ids, s, sender, target);
      t.pc == s.pc && t.failed == s.failed && t.usr2 == s.usr2 && t.q == s.q && t.removed == s.removed
  {
  }

  lemma KillPending(ids: Ids, s: State, sender: int, target: int)
    ensures var t := Kill(ids, s, sender, target);
      t.pc == s.pc && t.failed == s.failed && t.usr2 == s.usr2 && Pending1(t.usr1) <= Pending1(s.usr1) + 1
  {
    KillKeeps(ids, s, sender, target);
  }

  lemma FailRan(group: set<nat>, s: State, k: nat)
    requires k !in s.failed
    ensures Ran(group, s, Fail(s, k))
  {
    assert k in Fail(s, k).failed;
  }

  lemma Main1Ran(ids: Ids, group: set<nat>, s: State)
    ensures Main1(ids, s) == s || Ran(group, s, Main1(ids, s))
  {
    if 1 !in s.failed { FailRan(group, s, 1); }
    KillPending(ids, s.(pc := s.pc.(p1 := s.pc.p1 + 1)), ids.p1, s.g.pid2At1);
  }

  lemma Main2Ran(ids: Ids, group: set<nat>, s: State)
    ensures Main2(ids, group, s) == s || Ran(group, s, Main2(ids, group, s))
  {
    if 2 !in s.failed { FailRan(group, s, 2); }
    KillPending(ids, s.(pc := s.pc.(p2 := s.pc.p2 + 1)), ids.p2, s.g.pid3At2);
  }

  lemma Main3Ran(ids: Ids, group: set<nat>, s: State)
    ensures Main3(ids, group, s) == s || Ran(group, s, Main3(ids, group, s))
  {
    if 3 !in s.failed { FailRan(group, s, 3); }
    KillPending(ids, s.(pc := s.pc.(p3 := s.pc.p3 + 1)), ids.p3, s.g.pid4At3);
  }

  lemma Main4Ran(ids: Ids, group: set<nat>, s: State)
    ensures Main4(ids, group, s) == s || Ran(group, s, Main4(ids, group, s))
  {
    if 4 !in s.failed { FailRan(group, s, 4); }
    KillPending(ids, s.(pc := s.pc.(p4 := s.pc.p4 + 1)), ids.p4, s.g.pid1At4);
  }

  /** A signal was handled; that may fail a receive. */
  predicate Handled(s: State, t: State) {
    && t.pc == s.pc && |t.failed| >= |s.failed|
    && Waiting(t) == Waiting(s) - 1
  }

  lemma InterruptKeeps(s: State, k: nat)
    ensures var t := Interrupt(s, k);
      && t.pc == s.pc && t.usr1 == s.usr1 && t.usr2 == s.usr2
      && s.failed <= t.failed <= s.failed + {k} && |t.failed| >= |s.failed|
  {
    SubsetSize(s.failed, Interrupt(s, k).failed);
  }

  lemma Usr1Handled(s: State, k: nat)
    requires Sender(s.usr1, k).Some?
    ensures Handled(s, Usr1(s, k)) && Usr1(s, k).failed == s.failed
  {
  }

  lemma SignalHandled(ids: Ids, group: set<nat>, s: State, m: Move)
    requires !m.Main?
    ensures Step(ids, group, s, m) == s || Handled(s, Step(ids, group, s, m))
  {
    if m.Signal1? && Sender(s.usr1, m.k).Some? {
      Usr1Handled(s, m.k);
      InterruptKeeps(Usr1(s, m.k), m.k);
    } else if m.Signal2? && m.k in s.usr2 {
      var t := Usr2(s, m.k);
      assert |t.usr2| == |s.usr2| - 1;
      InterruptKeeps(t, m.k);
    }
  }

  lemma MoreDone(w: nat, d: nat, e: nat)
    requires d <= e
    ensures w * d <= w * e && w * (d + 1) == w * d + w
  {
  }

  /** Every step that changes something is progress. */
  lemma StepProgress(ids: Ids, group: set<nat>, s: State, m: Move)
    requires Step(ids, group, s, m) != s
    ensures Progress(group, Step(ids, group, s, m)) > Progress(group, s)
  {
    if m.Main? {
      Main1Ran(ids, group, s);
      Main2Ran(ids, group, s);
      Main3Ran(ids, group, s);
      Main4Ran(ids, group, s);
    } else {
      SignalHandled(ids, group, s, m);
    }
    Raises(group, s, Step(ids, group, s, m));
  }

  lemma Raises(group: set<nat>, s: State, t: State)
    requires Ran(group, s, t) || Handled(s, t)
    ensures Progress(group, t) > Progress(group, s)
  {
    UnionSize(s.usr2, group);
    if Ran(group, s, t) {
      assert Done(t) == Done(s) + 1;
      MoreDone(|group| + 2, Done(s), Done(t));
    } else {
      MoreDone(|group| + 2, Done(s), Done(t));
    }
  }

  lemma MainFailed(ids: Ids, group: set<nat>, s: State, k: nat)
    ensures Step(ids, group, s, Main(k)).failed <= s.failed + {1, 2, 3, 4}
  {
  }

  lemma SignalFailed(ids: Ids, group: set<nat>, s: State, m: Move)
    requires !m.Main?
    ensures Step(ids, group, s, m).failed <= s.failed + {1, 2, 3, 4}
  {
    if m.Signal1? && Sender(s.usr1, m.k).Some? { Usr1Handled(s, m.k); }
  }

  lemma {:induction false} FailedAmongFour(ids: Ids, group: set<nat>, moves: seq<Move>)
    ensures Run(ids, group, moves).failed <= {1, 2, 3, 4}
  {
    if moves != [] {
      var n := |moves| - 1;
      var s, m := Run(ids, group, moves[..n]), moves[n];
      FailedAmongFour(ids, group, moves[..n]);
      if m.Main? { MainFailed(ids, group, s, m.k); } else { SignalFailed(ids, group, s, m); }
    }
  }

  const ALL_DONE := 37

  lemma RunProgress(ids: Ids, group: set<nat>, moves: seq<Move>)
    requires Distinct(ids)
    ensures Progress(group, Run(ids, group, moves)) <= (|group| + 2) * ALL_DONE
  {
    var s := Run(ids, group, moves);
    RunInv(ids, group, moves);
    FailedAmongFour(ids, group, moves);
    assert |s.failed| <= 4 by { SubsetSize(s.failed, {1, 2, 3, 4}); }
    MoreDone(|group| + 2, Done(s), ALL_DONE);
  }

  lemma {:induction false} SubsetSize(a: set<nat>, b: set<nat>)
    requires a <= b
    ensures |a| <= |b|
  {
    assert |b - a| + |a| == |b| by { assert b == (b - a) + a; }
  }

  /** Every move changes something. */
  ghost predicate Effective(ids: Ids, group: set<nat>, moves: seq<Move>) {
    forall k: nat :: k < |moves| ==> Run(ids, group, moves[..k]) != Run(ids, group, moves[..k + 1])
  }

  /** Runs are bounded: none has more than so many moves that change something. */
  lemma {:induction false} RunsEnd(ids: Ids, group: set<nat>, moves: seq<Move>)
    requires Distinct(ids) && Effective(ids, group, moves)
    ensures |moves| <= Progress(group, Run(ids, group, moves)) <= (|group| + 2) * ALL_DONE
  {
    RunProgress(ids, group, moves);
    if moves != [] {
      var n := |moves| - 1;
      var before := moves[..n];
      assert forall k: nat :: k <= n ==> before[..k] == moves[..k];
      RunsEnd(ids, group, before);
      assert moves[..n + 1] == moves;
      StepProgress(ids, group, Run(ids, group, before), moves[n]);
    }
  }

  lemma ReachableStep(ids: Ids, group: set<nat>, s: State, m: Move)
    requires Reachable(ids, group, s)
    ensures Reachable(ids, group, Step(ids, group, s, m))
  {
    var moves :| Run(ids, group, moves) == s;
    assert (moves + [m])[..|moves|] == moves;
    assert Run(ids, group, moves + [m]) == Step(ids, group, s, m);
  }

  lemma ReachableFacts(ids: Ids, group: set<nat>, s: State)
    requires Distinct(ids) && Reachable(ids, group, s)
    ensures Inv(ids, s) && Progress(group, s) <= (|group| + 2) * ALL_DONE
  {
    var moves :| Run(ids, group, moves) == s;
    RunInv(ids, group, moves);
    RunProgress(ids, group, moves);
  }

  // ---- exactly when a receive can fail ----

  /** The chosen moves lead to the leader's first group message without any failure. */
  lemma {:induction false} FirstHandedOut(ids: Ids, group: set<nat>, s: State) returns (t: State)
    requires Distinct(ids) && Reachable(ids, group, s) && s.failed == {} && s.usr2 == {} && s.pc.p1 <= 8
    requires s.pc.p2 <= 6
    ensures Reachable(ids, group, t) && t.failed == {} && t.usr2 == {} && t.pc.p1 == 8 && t.pc.p2 <= 6
    decreases (|group| + 2) * ALL_DONE - Progress(group, s)
  {
    ReachableFacts(ids, group, s);
    if s.pc.p1 == 8 {
      t := s;
    } else {
      var m := SomeoneMoves(ids, group, s);
      assert m == Chosen(s);
      var next := Step(ids, group, s, m);
      QuietStep(ids, group, s);
      ChosenKeepsQueue(ids, group, s);
      StepProgress(ids, group, s, m);
      ReachableStep(ids, group, s, m);
      ReachableFacts(ids, group, next);
      t := FirstHandedOut(ids, group, next);
    }
  }

  /** Up to then no statement signals the group, and P1 and P2 move one at a time. */
  predicate Quiet(s: State, t: State) {
    && t.usr2 == s.usr2
    && (t.pc.p1 == s.pc.p1 || (t.pc.p1 == s.pc.p1 + 1 && t.pc.p2 == s.pc.p2))
  }

  lemma Main1Quiet(ids: Ids, s: State)
    requires s.pc.p1 < 8
    ensures Quiet(s, Main1(ids, s))
  {
    KillKeeps(ids, s.(pc := s.pc.(p1 := s.pc.p1 + 1)), ids.p1, s.g.pid2At1);
  }

  lemma Main2Quiet(ids: Ids, group: set<nat>, s: State)
    requires s.pc.p2 <= 6
    ensures Quiet(s, Main2(ids, group, s))
  {
    KillKeeps(ids, s.(pc := s.pc.(p2 := s.pc.p2 + 1)), ids.p2, s.g.pid3At2);
  }

  lemma Main3Quiet(ids: Ids, group: set<nat>, s: State)
    requires s.pc.p3 <= 5
    ensures Quiet(s, Main3(ids, group, s))
  {
    KillKeeps(ids, s.(pc := s.pc.(p3 := s.pc.p3 + 1)), ids.p3, s.g.pid4At3);
  }

  lemma Main4Quiet(ids: Ids, group: set<nat>, s: State)
    requires s.pc.p4 <= 5
    ensures Quiet(s, Main4(ids, group, s))
  {
    KillKeeps(ids, s.(pc := s.pc.(p4 := s.pc.p4 + 1)), ids.p4, s.g.pid1At4);
  }

  lemma SignalQuiet(ids: Ids, group: set<nat>, s: State, k: nat)
    ensures Quiet(s, Step(ids, group, s, Signal1(k, false)))
  {
    if Sender(s.usr1, k).Some? { Usr1Handled(s, k); }
  }

  lemma QuietStep(ids: Ids, group: set<nat>, s: State)
    requires OrderInv(s.pc) && s.pc.p1 < 8
    ensures Quiet(s, Step(ids, group, s, Chosen(s)))
  {
    match Chosen(s)
    case Main(k) =>
      if k == 1 { Main1Quiet(ids, s); }
      else if k == 2 { Main2Quiet(ids, group, s); }
      else if k == 3 { Main3Quiet(ids, group, s); }
      else if k == 4 { Main4Quiet(ids, group, s); }
    case Signal1(k, _) => SignalQuiet(ids, group, s, k);
    case Signal2(_, _) =>
  }

  /** P2 receives its group id and signals the group while P3 and P4 wait for theirs. */
  lemma GroupSignalled(ids: Ids, group: set<nat>) returns (t: State)
    requires Distinct(ids)
    ensures Reachable(ids, group, t) && Inv(ids, t) && t.usr2 == group && t.failed == {} && t.pc.p1 == 8
  {
    assert Run(ids, group, []) == Init();
    var s := FirstHandedOut(ids, group, Init());
    ReachableFacts(ids, group, s);
    var s1 := Step(ids, group, s, Main(2));
    ReachableStep(ids, group, s, Main(2));
    ReachableFacts(ids, group, s1);
    GroupKnown(ids, group, s);
    t := Step(ids, group, s1, Main(2));
    ReachableStep(ids, group, s1, Main(2));
    ReachableFacts(ids, group, t);
    GroupTold(ids, group, s1);
  }

  lemma GroupKnown(ids: Ids, group: set<nat>, s: State)
    requires Distinct(ids) && Inv(ids, s) && s.failed == {} && s.usr2 == {} && s.pc.p1 == 8 && s.pc.p2 <= 6
    ensures var t := Main2(ids, group, s); t.failed == {} && t.usr2 == {} && t.pc.p1 == 8 && t.pc.p2 == 7
  {
    assert OfType(s.q, 2) == [ids.p1];
  }

  lemma GroupTold(ids: Ids, group: set<nat>, s: State)
    requires Distinct(ids) && Inv(ids, s) && s.failed == {} && s.usr2 == {} && s.pc.p1 == 8 && s.pc.p2 == 7
    ensures var t := Main2(ids, group, s); t.failed == {} && t.usr2 == group && t.pc.p1 == 8
  {
  }

  lemma Harmed(ids: Ids, group: set<nat>, k: nat) returns (t: State)
    requires Distinct(ids) && k in group && (k == 3 || k == 4)
    ensures Reachable(ids, group, t) && !t.removed && k in t.failed
  {
    var s := GroupSignalled(ids, group);
    t := Step(ids, group, s, Signal2(k, true));
    ReachableStep(ids, group, s, Signal2(k, true));
    Blocked(ids, s);
  }

  lemma Blocked(ids: Ids, s: State)
    requires Inv(ids, s) && s.pc.p1 == 8
    ensures Wants(s.pc, 3) == 3 && OfType(s.q, 3) == [] && Wants(s.pc, 4) == 4 && OfType(s.q, 4) == [] && !s.removed
  {
  }

  ghost predicate CanFail(ids: Ids, group: set<nat>) {
    exists s :: Reachable(ids, group, s) && !s.removed && s.failed != {}
  }

  /** Some run loses a receive to a signal, with the queue still there, exactly when P3 or P4 is
      in the leader's group. */
  lemma FailureExactly(ids: Ids, group: set<nat>)
    requires Distinct(ids)
    ensures CanFail(ids, group) <==> 3 in group || 4 in group
  {
    if 3 in group {
      var t := Harmed(ids, group, 3);
    } else if 4 in group {
      var t := Harmed(ids, group, 4);
    } else if s :| Reachable(ids, group, s) && !s.removed && s.failed != {} {
      var moves :| Run(ids, group, moves) == s;
      RunUnharmed(ids, group, moves);
    }
  }

  lemma ChosenKeepsQueue(ids: Ids, group: set<nat>, s: State)
    requires s.failed == {} && !s.removed && (Chosen(s) == Main(1) ==> s.pc.p1 != 10)
    ensures var t := Step(ids, group, s, Chosen(s)); t.failed == {} && !t.removed
  {
  }

  /** Whatever the group, the end with everyone served can be reached. */
  lemma {:induction false} EndReachable(ids: Ids, group: set<nat>, s: State) returns (t: State)
    requires Distinct(ids) && Reachable(ids, group, s) && s.failed == {} && !s.removed
    ensures Reachable(ids, group, t) && Complete(t) && t.failed == {} && !t.removed
    decreases (|group| + 2) * ALL_DONE - Progress(group, s)
  {
    ReachableFacts(ids, group, s);
    if Complete(s) {
      t := s;
    } else {
      var m := SomeoneMoves(ids, group, s);
      var next := Step(ids, group, s, m);
      ChosenKeepsQueue(ids, group, s);
      StepProgress(ids, group, s, m);
      ReachableStep(ids, group, s, m);
      ReachableFacts(ids, group, next);
      t := EndReachable(ids, group, next);
    }
  }

  /** Without them, a run that stops short of removing the queue has served everyone. */
  lemma StopsComplete(ids: Ids, group: set<nat>, s: State)
    requires Distinct(ids) && Reachable(ids, group, s) && 3 !in group && 4 !in group && !s.removed
    requires forall m :: Step(ids, group, s, m) != s ==> m == Main(1) && s.pc.p1 == 10
    ensures Complete(s)
  {
    FailureExactly(ids, group);
    if !Complete(s) {
      var m := SomeoneMoves(ids, group, s);
    }
  }

  // ---- exactly when a SIGUSR2 is swallowed ----

  lemma MainMerged(ids: Ids, group: set<nat>, s: State, k: nat)
    requires group == {}
    ensures Step(ids, group, s, Main(k)).merged == s.merged
  {
  }

  lemma SignalMerged(ids: Ids, group: set<nat>, s: State, m: Move)
    requires !m.Main?
    ensures Step(ids, group, s, m).merged == s.merged
  {
  }

  lemma {:induction false} RunMerged(ids: Ids, group: set<nat>, moves: seq<Move>)
    requires group == {}
    ensures Run(ids, group, moves).merged == multiset{}
  {
    if moves != [] {
      var n := |moves| - 1;
      var s, m := Run(ids, group, moves[..n]), moves[n];
      RunMerged(ids, group, moves[..n]);
      if m.Main? { MainMerged(ids, group, s, m.k); } else { SignalMerged(ids, group, s, m); }
    }
  }

  /** P2 has signalled the group and nobody has handled it yet: P3 gets its id and signals too. */
  lemma SignalledTwice(ids: Ids, group: set<nat>) returns (t: State)
    requires Distinct(ids) && group != {}
    ensures Reachable(ids, group, t) && t.merged != multiset{}
  {
    var s := GroupSignalled(ids, group);
    var s1 := Step(ids, group, s, Main(1));
    ReachableStep(ids, group, s, Main(1));
    ReachableFacts(ids, group, s1);
    LeaderPosts(ids, s);
    var s2 := Step(ids, group, s1, Main(3));
    ReachableStep(ids, group, s1, Main(3));
    ReachableFacts(ids, group, s2);
    ThirdKnows(ids, group, s1);
    t := Step(ids, group, s2, Main(3));
    ReachableStep(ids, group, s2, Main(3));
    ThirdTells(ids, group, s2);
  }

  lemma LeaderPosts(ids: Ids, s: State)
    requires Inv(ids, s) && s.failed == {} && s.pc.p1 == 8
    ensures var t := Main1(ids, s); t.failed == {} && t.usr2 == s.usr2 && t.pc.p1 == 9 && t.pc.p3 == 5
  {
  }

  lemma ThirdKnows(ids: Ids, group: set<nat>, s: State)
    requires Inv(ids, s) && s.failed == {} && s.pc.p1 == 9 && s.pc.p3 == 5
    ensures var t := Main3(ids, group, s); t.failed == {} && t.usr2 == s.usr2 && t.pc.p1 == 9 && t.pc.p3 == 6
  {
    assert OfType(s.q, 3) == [ids.p1];
  }

  lemma ThirdTells(ids: Ids, group: set<nat>, s: State)
    requires Inv(ids, s) && s.failed == {} && s.pc.p3 == 6 && s.usr2 == group && group != {}
    ensures Main3(ids, group, s).merged != multiset{}
  {
    assert s.usr2 * group == group && s.g.group3 == ids.p1;
    var k :| k in group;
    assert Main3(ids, group, s).merged[k] >= multiset(group)[k] == 1;
  }

  ghost predicate CanMerge(ids: Ids, group: set<nat>) {
    exists s :: Reachable(ids, group, s) && s.merged != multiset{}
  }

  /** Three processes signal the group; two of these signals can become one for a process as
      soon as there is one in it. */
  lemma MergeExactly(ids: Ids, group: set<nat>)
    requires Distinct(ids)
    ensures CanMerge(ids, group) <==> group != {}
  {
    if group != {} {
      var t := SignalledTwice(ids, group);
    } else if s :| Reachable(ids, group, s) && s.merged != multiset{} {
      var moves :| Run(ids, group, moves) == s;
      RunMerged(ids, group, moves);
    }
  }

  // ---- every SIGUSR2 accounted for ----

  /** How many of P2, P3 and P4 have signalled the group. */
  function Signallers(pc: Pcs): nat {
    (if pc.p2 == 8 then 1 else 0) + (if pc.p3 == 7 then 1 else 0) + (if pc.p4 == 7 then 1 else 0)
  }

  /** What has become of the SIGUSR2 sent to process k. */
  function Received(s: State, k: nat): nat { s.handled[k] + (if k in s.usr2 then 1 else 0) + s.merged[k] }

  ghost predicate Account(group: set<nat>, s: State) {
    forall k: nat :: Received(s, k) == if k in group then Signallers(s.pc) else 0
  }

  lemma GroupSent(ids: Ids, group: set<nat>, s: State, k: nat)
    ensures var t := KillGroup(ids, group, s, ids.p1);
      Received(t, k) == Received(s, k) + (if k in group then 1 else 0)
  {
  }

  /** A process that signals sends to everyone in the group; no other statement does. */
  lemma Main1Account(ids: Ids, group: set<nat>, s: State)
    requires Account(group, s)
    ensures Account(group, Main1(ids, s))
  {
    var s' := s.(pc := s.pc.(p1 := s.pc.p1 + 1));
    KillAccount(ids, s', ids.p1, s.g.pid2At1);
    SameAccount(group, s, Main1(ids, s));
  }

  lemma KillAccount(ids: Ids, s: State, sender: int, target: int)
    ensures var t := Kill(ids, s, sender, target);
      t.pc == s.pc && t.usr2 == s.usr2 && t.handled == s.handled && t.merged == s.merged
  {
  }

  lemma SameAccount(group: set<nat>, s: State, t: State)
    requires Account(group, s) && t.usr2 == s.usr2 && t.handled == s.handled && t.merged == s.merged
    requires Signallers(t.pc) == Signallers(s.pc)
    ensures Account(group, t)
  {
    forall k: nat ensures Received(t, k) == if k in group then Signallers(t.pc) else 0 {
      assert Received(t, k) == Received(s, k);
    }
  }

  lemma MoreAccount(ids: Ids, group: set<nat>, s: State, t: State)
    requires Account(group, s) && Signallers(t.pc) == Signallers(s.pc) + 1
    requires var u := KillGroup(ids, group, s, ids.p1);
      t.usr2 == u.usr2 && t.handled == u.handled && t.merged == u.merged
    ensures Account(group, t)
  {
    forall k: nat ensures Received(t, k) == if k in group then Signallers(t.pc) else 0 {
      GroupSent(ids, group, s, k);
      assert Received(t, k) == Received(KillGroup(ids, group, s, ids.p1), k);
    }
  }

  lemma Main2Account(ids: Ids, group: set<nat>, s: State)
    requires Account(group, s) && s.pc.p2 <= 8 && (s.pc.p2 == 7 ==> s.g.group2 == ids.p1)
    ensures Account(group, Main2(ids, group, s))
  {
    KillAccount(ids, s.(pc := s.pc.(p2 := s.pc.p2 + 1)), ids.p2, s.g.pid3At2);
    var t := Main2(ids, group, s);
    if s.pc.p2 == 7 && 2 !in s.failed { MoreAccount(ids, group, s, t); } else { SameAccount(group, s, t); }
  }

  lemma Main3Account(ids: Ids, group: set<nat>, s: State)
    requires Account(group, s) && s.pc.p3 <= 7 && (s.pc.p3 == 6 ==> s.g.group3 == ids.p1)
    ensures Account(group, Main3(ids, group, s))
  {
    KillAccount(ids, s.(pc := s.pc.(p3 := s.pc.p3 + 1)), ids.p3, s.g.pid4At3);
    var t := Main3(ids, group, s);
    if s.pc.p3 == 6 && 3 !in s.failed { MoreAccount(ids, group, s, t); } else { SameAccount(group, s, t); }
  }

  lemma Main4Account(ids: Ids, group: set<nat>, s: State)
    requires Account(group, s) && s.pc.p4 <= 7 && (s.pc.p4 == 6 ==> s.g.group4 == ids.p1)
    ensures Account(group, Main4(ids, group, s))
  {
    KillAccount(ids, s.(pc := s.pc.(p4 := s.pc.p4 + 1)), ids.p4, s.g.pid1At4);
    var t := Main4(ids, group, s);
    if s.pc.p4 == 6 && 4 !in s.failed { MoreAccount(ids, group, s, t); } else { SameAccount(group, s, t); }
  }

  lemma Usr2Account(group: set<nat>, s: State, k: nat)
    requires Account(group, s) && k in s.usr2
    ensures Account(group, Usr2(s, k))
  {
    var t := Usr2(s, k);
    forall j: nat ensures Received(t, j) == if j in group then Signallers(t.pc) else 0 {
      assert Received(t, j) == Received(s, j);
    }
  }

  lemma SignalAccount(ids: Ids, group: set<nat>, s: State, m: Move)
    requires Account(group, s) && !m.Main?
    ensures Account(group, Step(ids, group, s, m))
  {
    if m.Signal1? && Sender(s.usr1, m.k).Some? {
      SameAccount(group, s, Step(ids, group, s, m));
    } else if m.Signal2? && m.k in s.usr2 && m.k !in s.failed {
      Usr2Account(group, s, m.k);
      SameAccount(group, Usr2(s, m.k), Step(ids, group, s, m));
    }
  }

  lemma {:induction false} RunAccount(ids: Ids, group: set<nat>, moves: seq<Move>)
    requires Distinct(ids)
    ensures Account(group, Run(ids, group, moves))
  {
    if moves != [] {
      var n := |moves| - 1;
      var s, m := Run(ids, group, moves[..n]), moves[n];
      RunAccount(ids, group, moves[..n]);
      if m.Main? { MainAccount(ids, group, moves[..n], m.k); } else { SignalAccount(ids, group, s, m); }
    }
  }

  lemma MainAccount(ids: Ids, group: set<nat>, moves: seq<Move>, k: nat)
    requires Distinct(ids) && Account(group, Run(ids, group, moves))
    ensures Account(group, Step(ids, group, Run(ids, group, moves), Main(k)))
  {
    var s := Run(ids, group, moves);
    RunInv(ids, group, moves);
    if k == 1 { Main1Account(ids, group, s); }
    else if k == 2 { Main2Account(ids, group, s); }
    else if k == 3 { Main3Account(ids, group, s); }
    else if k == 4 { Main4Account(ids, group, s); }
  }

  /** In every run, the SIGUSR2 that a member of the group has handled, has pending or has had
      merged are as many as the processes past their `killpg`: three once everyone is done. A
      process outside the group gets none. */
  lemma EverySignalAccounted(ids: Ids, group: set<nat>, s: State, k: nat)
    requires Distinct(ids) && Reachable(ids, group, s)
    ensures s.handled[k] + (if k in s.usr2 then 1 else 0) + s.merged[k]
         == if k in group then (if s.pc.p2 == 8 then 1 else 0) + (if s.pc.p3 == 7 then 1 else 0)
                               + (if s.pc.p4 == 7 then 1 else 0)
            else 0
    ensures Complete(s) && k in group ==> s.handled[k] + (if k in s.usr2 then 1 else 0) + s.merged[k] == 3
  {
    var moves :| Run(ids, group, moves) == s;
    RunAccount(ids, group, moves);
    assert Received(s, k) == if k in group then Signallers(s.pc) else 0;
  }

  // ---- after the queue is gone ----

  lemma OutOrDone2(ids: Ids, group: set<nat>, s: State)
    requires Inv(ids, s) && s.pc.p1 == 11 && s.removed && Main2(ids, group, s) == s
    ensures 2 in s.failed || s.pc.p2 == 8
  {
  }

  lemma OutOrDone3(ids: Ids, group: set<nat>, s: State)
    requires Inv(ids, s) && s.pc.p1 == 11 && s.removed && Main3(ids, group, s) == s
    ensures 3 in s.failed || s.pc.p3 == 7
  {
  }

  lemma OutOrDone4(ids: Ids, group: set<nat>, s: State)
    requires Inv(ids, s) && s.pc.p1 == 11 && s.removed && Main4(ids, group, s) == s
    ensures 4 in s.failed || s.pc.p4 == 7
  {
  }

  /** Once the leader has removed the queue nobody waits for ever: a run that can go no further
      has each of the others done or out with an error. */
  lemma RemovalReleases(ids: Ids, group: set<nat>, s: State)
    requires Distinct(ids) && Reachable(ids, group, s) && s.removed && forall m :: Step(ids, group, s, m) == s
    ensures 2 in s.failed || s.pc.p2 == 8
    ensures 3 in s.failed || s.pc.p3 == 7
    ensures 4 in s.failed || s.pc.p4 == 7
  {
    ReachableFacts(ids, group, s);
    assert Step(ids, group, s, Main(2)) == s && Step(ids, group, s, Main(3)) == s && Step(ids, group, s, Main(4)) == s;
    OutOrDone2(ids, group, s);
    OutOrDone3(ids, group, s);
    OutOrDone4(ids, group, s);
  }
}
