/** The hand-over of one server connection among clients (22-3-22_RAW/ESS): C.c queues its
    pid, waits to be signalled, connects to the signalling client's socket and receives the
    connection there; first_client.c opens it. The wait for SIGUSR1 is one atomic step.
    Any number of C.c clients may start at any time. */
module Ess {
  import opened Options

  type Pid = nat

  /** Where a client stands.
      Fresh: not queued; Queued: pid sent, waiting for the signal; Woken: past the wait;
      Linked: connected to the socket of `peer`; Received: has the connection;
      Serving: `i_am_running` set; Stopped: first client, flag cleared before it looks for a
      successor; Chose: C.c, successor taken from the queue while running; Quiet: successor
      known, flag cleared; Listening: socket bound; Calling: successor signalled;
      Accepted: `accept` returned `peer`; Gone: connection passed on, exited;
      Broken: `connect` or `recv_fd` failed. */
  datatype Phase =
    | Fresh | Queued | Woken | Linked(peer: Pid) | Received | Serving | Stopped | Chose | Quiet
    | Listening | Calling | Accepted(peer: Pid) | Gone | Broken

  /** `caller` is who sent SIGUSR1, `next` is `next_client_pid`. */
  datatype Client = Client(phase: Phase, running: bool, caller: Option<Pid>, next: Option<Pid>)

  /** `queue` is the message queue, `listener` the process bound to the socket path, `backlog`
      its pending connections, `inFlight` the clients a connection has been sent to but not yet
      received; `enqueued` and `granted` record who queued and who got the connection, in order. */
  datatype State = State(
    clients: map<Pid, Client>, queue: seq<Pid>, listener: Option<Pid>, backlog: seq<Pid>,
    inFlight: seq<Pid>, enqueued: seq<Pid>, granted: seq<Pid>)

  function Start(first: Pid, others: set<Pid>): State {
    State(map p | p in others + {first} ::
            if p == first then Client(Serving, true, None, None) else Client(Fresh, false, None, None),
          [], None, [], [], [], [])
  }

  function Put(s: State, c: Pid, r: Client): State { s.(clients := s.clients[c := r]) }

  /** `msgrcv` of the next pid. */
  function TakeNext(s: State, c: Pid, phase: Phase): State
    requires c in s.clients
  {
    if s.queue == [] then s
    else Put(s.(queue := s.queue[1..]), c, s.clients[c].(phase := phase, next := Some(s.queue[0])))
  }

  /** `kill(next_client_pid, SIGUSR1)`. */
  function Signal(s: State, c: Pid): State
    requires c in s.clients && s.clients[c].next.Some?
  {
    var t := s.clients[c].next.value;
    var s' := Put(s, c, s.clients[c].(phase := Calling));
    if t in s'.clients then Put(s', t, s'.clients[t].(caller := Some(c))) else s'
  }

  /** One step of client c. */
  function Step(first: Pid, s: State, c: Pid): State {
    if c !in s.clients then s else
    var r := s.clients[c];
    match r.phase
    case Fresh => Put(s.(queue := s.queue + [c], enqueued := s.enqueued + [c]), c, r.(phase := Queued))
    case Queued => if r.caller.None? then s else Put(s, c, r.(phase := Woken))
    case Woken =>
      if s.listener.None? then Put(s, c, r.(phase := Broken))
      else Put(s.(backlog := s.backlog + [c]), c, r.(phase := Linked(s.listener.value)))
    case Linked(peer) =>
      if s.inFlight != [] && s.inFlight[0] == c then
        Put(s.(inFlight := s.inFlight[1..], granted := s.granted + [c]), c, r.(phase := Received))
      else if peer !in s.clients || s.clients[peer].phase == Gone then Put(s, c, r.(phase := Broken))
      else s
    case Received => Put(s, c, r.(phase := Serving, running := true))
    case Serving => if c == first then Put(s, c, r.(phase := Stopped, running := false)) else TakeNext(s, c, Chose)
    case Stopped => TakeNext(s, c, Quiet)
    case Chose => Put(s, c, r.(phase := Quiet, running := false))
    case Quiet => Put(s.(listener := Some(c), backlog := []), c, r.(phase := Listening))
    case Listening => if r.next.None? then s else Signal(s, c)
    case Calling =>
      if s.backlog == [] then s
      else Put(s.(backlog := s.backlog[1..]), c, r.(phase := Accepted(s.backlog[0])))
    case Accepted(peer) =>
      Put(s.(inFlight := s.inFlight + [peer], listener := if s.listener == Some(c) then None else s.listener),
          c, r.(phase := Gone))
    case Gone => s
    case Broken => s
  }

  function Run(first: Pid, others: set<Pid>, schedule: seq<Pid>): State {
    if schedule == [] then Start(first, others)
    else
      var n := |schedule| - 1;
      Step(first, Run(first, others, schedule[..n]), schedule[n])
  }

  ghost predicate Reachable(first: Pid, others: set<Pid>, s: State) {
    exists schedule :: Run(first, others, schedule) == s
  }

  /** The client may use the connection. */
  predicate Holding(r: Client) {
    r.phase.Received? || r.phase.Serving? || r.phase.Stopped? || r.phase.Chose? || r.phase.Quiet?
    || r.phase.Listening? || r.phase.Calling? || r.phase.Accepted?
  }

  /** The holder has taken a successor from the queue. */
  predicate HasNext(r: Client) {
    r.phase.Chose? || r.phase.Quiet? || r.phase.Listening? || r.phase.Calling? || r.phase.Accepted?
  }

  ghost predicate NoDup(q: seq<Pid>) {
    forall i, j :: 0 <= i < j < |q| ==> q[i] != q[j]
  }

  /** A client that is neither the holder nor its successor. */
  ghost predicate Bystander(s: State, p: Pid)
    requires p in s.clients
  {
    var r := s.clients[p];
    && !r.running && (r.phase.Fresh? || r.phase.Queued? || r.phase.Gone?)
    && (r.phase.Fresh? ==> r.caller.None? && p !in s.enqueued)
    && (r.phase.Queued? ==> r.caller.None? && p in s.queue)
  }

  ghost predicate Queue(s: State, busy: set<Pid>) {
    && NoDup(s.enqueued)
    && (forall p :: p in s.enqueued ==> p in s.clients)
    && (forall p :: p in s.queue ==> p in s.clients && s.clients[p].phase.Queued? && p !in busy)
    && (forall p :: p in s.clients && p !in busy ==> Bystander(s, p))
  }

  /** Where the successor of a holder may be. */
  ghost predicate Successor(s: State, h: Pid, t: Pid)
    requires h in s.clients && t in s.clients
  {
    var a, r := s.clients[h].phase, s.clients[t];
    && !r.running
    && (a.Chose? || a.Quiet? || a.Listening? ==> r.phase.Queued? && r.caller.None?)
    && (a.Calling? ==> r.caller == Some(h))
    && (a.Calling? ==>
          || ((r.phase.Queued? || r.phase.Woken?) && s.backlog == [])
          || (r.phase == Linked(h) && s.backlog == [t]))
    && (a.Listening? ==> s.backlog == [])
    && (a.Accepted? ==> a.peer == t && r.caller == Some(h) && r.phase == Linked(h) && s.backlog == [])
  }

  /** The connection is with client h. */
  ghost predicate HolderInv(first: Pid, s: State, h: Pid) {
    && h in s.clients && Holding(s.clients[h]) && s.inFlight == []
    && var r := s.clients[h];
    && (r.running <==> r.phase.Serving? || r.phase.Chose?)
    && (r.phase.Stopped? ==> h == first) && (r.phase.Chose? ==> h != first)
    && (s.listener == if r.phase.Listening? || r.phase.Calling? || r.phase.Accepted? then Some(h) else None)
    && (HasNext(r) ==> r.next.Some? && r.next.value in s.clients && r.next.value != h)
    && (if HasNext(r) then
          && Queue(s, {h, r.next.value}) && Successor(s, h, r.next.value)
          && s.enqueued == s.granted + [r.next.value] + s.queue
        else Queue(s, {h}) && s.enqueued == s.granted + s.queue)
  }

  /** The connection is on its way to client t, sent by the client that signalled it. */
  ghost predicate FlightInv(first: Pid, s: State, t: Pid) {
    && t in s.clients && s.inFlight == [t] && s.listener == None
    && var r := s.clients[t];
    && r.phase.Linked? && !r.running && r.caller == Some(r.phase.peer)
    && Queue(s, {t}) && s.enqueued == s.granted + [t] + s.queue
  }

  ghost predicate Inv(first: Pid, s: State) {
    (exists h :: HolderInv(first, s, h)) || (exists t :: FlightInv(first, s, t))
  }

  /** Taking the head of a queue without repetitions leaves the others in it. */
  lemma HeadTaken(a: seq<Pid>, q: seq<Pid>)
    requires q != [] && NoDup(a + q)
    ensures q[0] !in q[1..] && forall p :: p in q && p != q[0] ==> p in q[1..]
    ensures a + q == a + [q[0]] + q[1..]
  {
    forall i | 0 <= i < |q[1..]| ensures q[1..][i] != q[0] {
      assert (a + q)[|a|] == q[0] && (a + q)[|a| + 1 + i] == q[1..][i];
    }
    assert q == [q[0]] + q[1..];
  }

  /** The holder takes its successor from the queue. */
  lemma HolderTakes(first: Pid, s: State, h: Pid, phase: Phase)
    requires HolderInv(first, s, h) && !HasNext(s.clients[h])
    requires phase == (if s.clients[h].phase.Stopped? then Quiet else Chose)
    requires s.clients[h].phase.Stopped? || (s.clients[h].phase.Serving? && h != first)
    ensures HolderInv(first, TakeNext(s, h, phase), h)
  {
    if s.queue != [] { HeadTaken(s.granted, s.queue); }
  }

  /** The holder passes the connection on. */
  lemma HolderPasses(first: Pid, s: State, h: Pid)
    requires HolderInv(first, s, h) && s.clients[h].phase.Accepted?
    ensures FlightInv(first, Step(first, s, h), s.clients[h].next.value)
  {
    assert Step(first, s, h).inFlight == [s.clients[h].phase.peer];
  }

  /** The holder signals its successor. */
  lemma HolderSignals(first: Pid, s: State, h: Pid)
    requires HolderInv(first, s, h) && s.clients[h].phase.Listening?
    ensures HolderInv(first, Step(first, s, h), h)
  {
  }

  /** Any other step of the holder. */
  lemma HolderMoves(first: Pid, s: State, h: Pid)
    requires HolderInv(first, s, h)
    ensures Inv(first, Step(first, s, h))
  {
    var s', r := Step(first, s, h), s.clients[h];
    if r.phase.Accepted? {
      HolderPasses(first, s, h);
    } else if r.phase.Stopped? || (r.phase.Serving? && h != first) {
      HolderTakes(first, s, h, if r.phase.Stopped? then Quiet else Chose);
    } else if r.phase.Listening? {
      HolderSignals(first, s, h);
    } else {
      assert HolderInv(first, s', h);
    }
  }

  /** The successor wakes up and connects to the socket of the client that signalled it. */
  lemma SuccessorMoves(first: Pid, s: State, h: Pid)
    requires HolderInv(first, s, h) && HasNext(s.clients[h])
    ensures HolderInv(first, Step(first, s, s.clients[h].next.value), h)
  {
  }

  /** A bystander can only join the queue. */
  lemma BystanderJoins(s: State, p: Pid, busy: set<Pid>)
    requires Queue(s, busy) && p in s.clients && p !in busy && s.clients[p].phase.Fresh?
    ensures var t := s.(queue := s.queue + [p], enqueued := s.enqueued + [p]);
      Queue(Put(t, p, s.clients[p].(phase := Queued)), busy)
  {
  }

  lemma OtherMovesHeld(first: Pid, s: State, h: Pid, p: Pid)
    requires HolderInv(first, s, h) && p in s.clients && p != h
    requires HasNext(s.clients[h]) ==> p != s.clients[h].next.value
    ensures HolderInv(first, Step(first, s, p), h)
  {
    var r := s.clients[h];
    assert Bystander(s, p);
    if s.clients[p].phase.Fresh? {
      BystanderJoins(s, p, if HasNext(r) then {h, r.next.value} else {h});
      assert s.granted + (s.queue + [p]) == (s.granted + s.queue) + [p];
    }
  }

  /** The connection arrives. */
  lemma TargetReceives(first: Pid, s: State, t: Pid)
    requires FlightInv(first, s, t)
    ensures HolderInv(first, Step(first, s, t), t)
  {
  }

  lemma OtherMovesInFlight(first: Pid, s: State, t: Pid, p: Pid)
    requires FlightInv(first, s, t) && p in s.clients && p != t
    ensures FlightInv(first, Step(first, s, p), t)
  {
    assert Bystander(s, p);
    if s.clients[p].phase.Fresh? { BystanderJoins(s, p, {t}); }
  }

  lemma StepInv(first: Pid, s: State, c: Pid)
    requires Inv(first, s)
    ensures Inv(first, Step(first, s, c))
  {
    if c in s.clients {
      if h :| HolderInv(first, s, h) {
        if c == h { HolderMoves(first, s, h); }
        else if HasNext(s.clients[h]) && c == s.clients[h].next.value { SuccessorMoves(first, s, h); }
        else { OtherMovesHeld(first, s, h, c); }
      } else {
        var t :| FlightInv(first, s, t);
        if c == t { TargetReceives(first, s, t); } else { OtherMovesInFlight(first, s, t, c); }
      }
    }
  }

  lemma {:induction false} RunInv(first: Pid, others: set<Pid>, schedule: seq<Pid>)
    ensures Inv(first, Run(first, others, schedule))
  {
    if schedule == [] {
      assert HolderInv(first, Start(first, others), first);
    } else {
      var n := |schedule| - 1;
      RunInv(first, others, schedule[..n]);
      StepInv(first, Run(first, others, schedule[..n]), schedule[n]);
    }
  }

  lemma ReachableInv(first: Pid, others: set<Pid>, s: State)
    requires Reachable(first, others, s)
    ensures Inv(first, s)
  {
    var schedule :| Run(first, others, schedule) == s;
    RunInv(first, others, schedule);
  }

  /** In every run the connection is with exactly one client or on its way to exactly one,
      and at most one client believes it is running, and that one holds the connection. */
  lemma OneOwner(first: Pid, others: set<Pid>, s: State)
    requires Reachable(first, others, s)
    ensures |s.inFlight| <= 1
    ensures forall p, q :: p in s.clients && q in s.clients && Holding(s.clients[p]) && Holding(s.clients[q]) ==> p == q
    ensures (exists p :: p in s.clients && Holding(s.clients[p])) <==> s.inFlight == []
    ensures forall p :: p in s.clients && s.clients[p].running ==> Holding(s.clients[p])
  {
    ReachableInv(first, others, s);
    if h :| HolderInv(first, s, h) {
      OnlyHolder(first, s, h);
    } else {
      var t :| FlightInv(first, s, t);
      NoHolder(first, s, t);
    }
  }

  lemma OnlyHolder(first: Pid, s: State, h: Pid)
    requires HolderInv(first, s, h)
    ensures Holding(s.clients[h])
    ensures forall p :: p in s.clients && p != h ==> !Holding(s.clients[p]) && !s.clients[p].running
  {
    forall p | p in s.clients && p != h ensures !Holding(s.clients[p]) && !s.clients[p].running {
      if !(HasNext(s.clients[h]) && p == s.clients[h].next.value) { assert Bystander(s, p); }
    }
  }

  lemma NoHolder(first: Pid, s: State, t: Pid)
    requires FlightInv(first, s, t)
    ensures forall p :: p in s.clients ==> !Holding(s.clients[p]) && !s.clients[p].running
  {
    forall p | p in s.clients ensures !Holding(s.clients[p]) && !s.clients[p].running {
      if p != t { assert Bystander(s, p); }
    }
  }

  /** A connecting client is at the socket of the client that signalled it; `accept` returns
      the very client that was signalled; no connect or receive ever fails. */
  lemma MeetsItsCaller(first: Pid, others: set<Pid>, s: State, c: Pid)
    requires Reachable(first, others, s) && c in s.clients
    ensures !s.clients[c].phase.Broken?
    ensures s.clients[c].phase.Linked? ==> s.clients[c].caller == Some(s.clients[c].phase.peer)
    ensures s.clients[c].phase.Accepted? ==> s.clients[c].next == Some(s.clients[c].phase.peer)
    ensures s.clients[c].phase.Woken? ==> s.listener.Some? && s.clients[c].caller == s.listener
  {
    ReachableInv(first, others, s);
    if h :| HolderInv(first, s, h) {
      if c != h && !(HasNext(s.clients[h]) && c == s.clients[h].next.value) { assert Bystander(s, c); }
    } else {
      var t :| FlightInv(first, s, t);
      if c != t { assert Bystander(s, c); }
    }
  }

  /** The connection is granted in message-queue order, to nobody twice. */
  lemma ServedInOrder(first: Pid, others: set<Pid>, s: State)
    requires Reachable(first, others, s)
    ensures s.granted <= s.enqueued && NoDup(s.granted)
  {
    ReachableInv(first, others, s);
    assert s.granted <= s.enqueued;
    forall i, j | 0 <= i < j < |s.granted| ensures s.granted[i] != s.granted[j] {
      assert s.enqueued[i] == s.granted[i] && s.enqueued[j] == s.granted[j];
    }
  }

  /** A run that can go no further has served everyone: only the last holder is left, waiting
      for a successor. */
  lemma StuckMeansAllServed(first: Pid, others: set<Pid>, s: State)
    requires Reachable(first, others, s) && forall c :: Step(first, s, c) == s
    ensures exists h :: h in s.clients && (s.clients[h].phase.Serving? || s.clients[h].phase.Stopped?)
                   && forall p :: p in s.clients && p != h ==> s.clients[p].phase.Gone?
    ensures s.granted == s.enqueued
  {
    ReachableInv(first, others, s);
    forall c | c in s.clients ensures Step(first, s, c).clients[c] == s.clients[c] {
      assert Step(first, s, c) == s;
    }
    if h :| HolderInv(first, s, h) {
      HolderStuck(first, s, h);
      forall p | p in s.clients && p != h ensures s.clients[p].phase.Gone? {
        assert Bystander(s, p);
      }
    }
  }

  lemma HolderStuck(first: Pid, s: State, h: Pid)
    requires HolderInv(first, s, h)
    requires forall c :: c in s.clients ==> Step(first, s, c).clients[c] == s.clients[c]
    ensures !HasNext(s.clients[h]) && s.queue == []
    ensures s.clients[h].phase.Serving? || s.clients[h].phase.Stopped?
  {
    assert Step(first, s, h).clients[h] == s.clients[h];
  }

  // ---- how long a run can be ----

  function Rank(p: Phase): nat {
    match p
    case Fresh => 0
    case Queued => 1
    case Woken => 2
    case Linked(_) => 3
    case Received => 4
    case Serving => 5
    case Stopped => 6
    case Chose => 6
    case Quiet => 7
    case Listening => 8
    case Calling => 9
    case Accepted(_) => 10
    case Gone => 11
    case Broken => 11
  }

  /** A step that changes something takes its client further ... */
  lemma StepClimbs(first: Pid, s: State, c: Pid)
    requires c in s.clients
    ensures var t := Step(first, s, c);
      c in t.clients && (t == s || Rank(t.clients[c].phase) > Rank(s.clients[c].phase))
  {
    if Holding(s.clients[c]) { HolderClimbs(first, s, c); }
  }

  lemma HolderClimbs(first: Pid, s: State, c: Pid)
    requires c in s.clients && Holding(s.clients[c])
    ensures var t := Step(first, s, c);
      c in t.clients && (t == s || Rank(t.clients[c].phase) > Rank(s.clients[c].phase))
  {
  }

  /** ... and leaves the others where they are. */
  lemma OthersStay(first: Pid, s: State, c: Pid, p: Pid)
    requires p != c && p in s.clients
    ensures var t := Step(first, s, c); p in t.clients && t.clients[p].phase == s.clients[p].phase
  {
  }

  /** How many steps of client p changed something. */
  function Steps(first: Pid, others: set<Pid>, schedule: seq<Pid>, p: Pid): nat {
    if schedule == [] then 0
    else
      var n := |schedule| - 1;
      var s := Run(first, others, schedule[..n]);
      Steps(first, others, schedule[..n], p) + (if schedule[n] == p && Step(first, s, p) != s then 1 else 0)
  }

  /** No client takes more than eleven, so every run ends; by StuckMeansAllServed, with everyone
      served. */
  lemma {:induction false} RunsEnd(first: Pid, others: set<Pid>, schedule: seq<Pid>, p: Pid)
    requires p == first || p in others
    ensures var s := Run(first, others, schedule);
      p in s.clients && Steps(first, others, schedule, p) <= Rank(s.clients[p].phase) <= 11
  {
    if schedule != [] {
      var n := |schedule| - 1;
      RunsEnd(first, others, schedule[..n], p);
      var s := Run(first, others, schedule[..n]);
      if schedule[n] == p { StepClimbs(first, s, p); } else { OthersStay(first, s, schedule[n], p); }
    }
  }

  // ---- the order, client by client ----

  /** Whoever has left Fresh has queued, and whoever has got past Linked has been granted the
      connection. */
  ghost predicate History(first: Pid, s: State) {
    forall p :: p in s.clients && p != first ==>
      && (p in s.enqueued <==> Rank(s.clients[p].phase) > 0)
      && (p in s.granted <==> Rank(s.clients[p].phase) >= 4)
  }

  /** What one step of c does to the two records. */
  lemma StepRecords(first: Pid, s: State, c: Pid)
    requires c in s.clients && c != first && !Step(first, s, c).clients[c].phase.Broken?
    ensures var t, r := Step(first, s, c), s.clients[c].phase;
      && t.enqueued == (if r.Fresh? then s.enqueued + [c] else s.enqueued)
      && (t.granted == s.granted || t.granted == s.granted + [c])
      && (Rank(r) < 4 ==> (t.granted != s.granted <==> Rank(t.clients[c].phase) >= 4))
      && (Rank(r) >= 4 ==> t.granted == s.granted)
  {
  }

  lemma FirstRecords(first: Pid, s: State)
    requires first in s.clients && Rank(s.clients[first].phase) >= 4
    ensures Step(first, s, first).enqueued == s.enqueued && Step(first, s, first).granted == s.granted
  {
  }

  lemma StepHistory(first: Pid, s: State, c: Pid)
    requires History(first, s) && c in s.clients && !Step(first, s, c).clients[c].phase.Broken?
    requires first in s.clients && Rank(s.clients[first].phase) >= 4
    ensures History(first, Step(first, s, c))
  {
    var t := Step(first, s, c);
    if c == first { FirstRecords(first, s); } else { StepRecords(first, s, c); }
    StepClimbs(first, s, c);
    forall p | p in t.clients && p != first
      ensures p in t.enqueued <==> Rank(t.clients[p].phase) > 0
      ensures p in t.granted <==> Rank(t.clients[p].phase) >= 4
    {
      if p != c { OthersStay(first, s, c, p); }
    }
  }

  lemma {:induction false} RunHistory(first: Pid, others: set<Pid>, schedule: seq<Pid>)
    ensures var s := Run(first, others, schedule);
      History(first, s) && first in s.clients && Rank(s.clients[first].phase) >= 4
  {
    if schedule != [] {
      var n := |schedule| - 1;
      var s, c := Run(first, others, schedule[..n]), schedule[n];
      RunHistory(first, others, schedule[..n]);
      if c in s.clients {
        MeetsItsCaller(first, others, Run(first, others, schedule), c);
        StepHistory(first, s, c);
        if c == first { StepClimbs(first, s, first); } else { OthersStay(first, s, c, first); }
      }
    }
  }

  /** The state some steps later. */
  function After(first: Pid, s: State, schedule: seq<Pid>): State
    decreases |schedule|
  {
    if schedule == [] then s else After(first, Step(first, s, schedule[0]), schedule[1..])
  }

  lemma {:induction false} AfterReachable(first: Pid, others: set<Pid>, s: State, schedule: seq<Pid>)
    requires Reachable(first, others, s)
    ensures Reachable(first, others, After(first, s, schedule))
    decreases |schedule|
  {
    if schedule != [] {
      var past :| Run(first, others, past) == s;
      var c := schedule[0];
      assert (past + [c])[..|past|] == past;
      assert Run(first, others, past + [c]) == Step(first, s, c);
      AfterReachable(first, others, Step(first, s, c), schedule[1..]);
    }
  }

  lemma StepEnqueues(first: Pid, s: State, c: Pid)
    ensures s.enqueued <= Step(first, s, c).enqueued && Step(first, s, c).clients.Keys == s.clients.Keys
  {
  }

  lemma {:induction false} AfterEnqueues(first: Pid, s: State, schedule: seq<Pid>)
    ensures s.enqueued <= After(first, s, schedule).enqueued
    ensures After(first, s, schedule).clients.Keys == s.clients.Keys
    decreases |schedule|
  {
    if schedule != [] {
      StepEnqueues(first, s, schedule[0]);
      AfterEnqueues(first, Step(first, s, schedule[0]), schedule[1..]);
    }
  }

  /** The client has the connection or has passed it on. */
  predicate HasHeld(r: Client) { Holding(r) || r.phase.Gone? }

  /** First come, first served: if p has queued while q has not, then at any later time q has had
      the connection only if p has had it. */
  lemma FirstComeFirstServed(first: Pid, others: set<Pid>, s: State, schedule: seq<Pid>, p: Pid, q: Pid)
    requires Reachable(first, others, s) && p in s.clients && q in s.clients
    requires !s.clients[p].phase.Fresh? && s.clients[q].phase.Fresh?
    ensures var t := After(first, s, schedule);
      p in t.clients && q in t.clients && (HasHeld(t.clients[q]) ==> HasHeld(t.clients[p]))
  {
    var t := After(first, s, schedule);
    AfterReachable(first, others, s, schedule);
    AfterEnqueues(first, s, schedule);
    QueuedExactly(first, others, s, p);
    QueuedExactly(first, others, s, q);
    HeldExactly(first, others, t, p);
    HeldExactly(first, others, t, q);
    ServedInOrder(first, others, t);
    EnqueuedOnce(first, others, t);
    if HasHeld(t.clients[q]) && p != first {
      EarlierGranted(s.enqueued, t.enqueued, t.granted, p, q);
    }
  }

  lemma QueuedExactly(first: Pid, others: set<Pid>, s: State, p: Pid)
    requires Reachable(first, others, s) && p in s.clients
    ensures p == first ==> !s.clients[p].phase.Fresh?
    ensures p != first ==> (p in s.enqueued <==> !s.clients[p].phase.Fresh?)
  {
    ReachableHistory(first, others, s);
  }

  lemma HeldExactly(first: Pid, others: set<Pid>, s: State, p: Pid)
    requires Reachable(first, others, s) && p in s.clients
    ensures p == first ==> HasHeld(s.clients[p])
    ensures p != first ==> (p in s.granted <==> HasHeld(s.clients[p]))
  {
    ReachableHistory(first, others, s);
    MeetsItsCaller(first, others, s, p);
  }

  lemma ReachableHistory(first: Pid, others: set<Pid>, s: State)
    requires Reachable(first, others, s)
    ensures History(first, s) && first in s.clients && Rank(s.clients[first].phase) >= 4
  {
    var schedule :| Run(first, others, schedule) == s;
    RunHistory(first, others, schedule);
  }

  lemma EnqueuedOnce(first: Pid, others: set<Pid>, s: State)
    requires Reachable(first, others, s)
    ensures NoDup(s.enqueued)
  {
    ReachableInv(first, others, s);
  }

  lemma EarlierGranted(before: seq<Pid>, enqueued: seq<Pid>, granted: seq<Pid>, p: Pid, q: Pid)
    requires before <= enqueued && granted <= enqueued && NoDup(enqueued)
    requires p in before && q !in before && q in granted
    ensures p in granted
  {
    var i :| 0 <= i < |before| && before[i] == p;
    var j :| 0 <= j < |granted| && granted[j] == q;
    assert enqueued[i] == p && enqueued[j] == q;
    assert granted[i] == p;
  }
}
