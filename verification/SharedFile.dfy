/** The two processes of 10-2-22/pass_fd, which share one open file description, and so
    one file offset, and hand each other the turn to read five characters through two
    semaphores. Each `read`, `sem_post` and `sem_wait` is one step. */
module SharedFile {

  const CHUNK := 5

  /** Where a process stands: reading its (i+1)-th character, about to post after a full
      chunk, waiting for its semaphore, about to post after end of file, or gone. */
  datatype Pc = Reading(i: nat) | Posting | Waiting | AtEof | Gone

  datatype Who = Server | Client

  /** `seen` is what has been read so far, in time order, with its reader. */
  datatype State = State(sem1: nat, sem2: nat, server: Pc, client: Pc, seen: seq<(Who, char)>)

  /** Semaphores as found; server.c enters its loop reading, client.c waiting. */
  function Start(sem1: nat, sem2: nat): State {
    State(sem1, sem2, Reading(0), Waiting, [])
  }

  predicate Enabled(s: State, who: Who) {
    var pc := if who == Server then s.server else s.client;
    pc != Gone && (pc == Waiting ==> (if who == Server then s.sem2 else s.sem1) > 0)
  }

  /** The offset is how much has been read; a read at the end of the file returns 0. */
  function AfterRead(file: string, offset: nat, i: nat): Pc {
    if offset >= |file| then AtEof
    else if i + 1 < CHUNK then Reading(i + 1)
    else Posting
  }

  function Seen(file: string, s: State, who: Who): seq<(Who, char)> {
    if |s.seen| < |file| then s.seen + [(who, file[|s.seen|])] else s.seen
  }

  function Step(file: string, s: State, who: Who): State {
    if !Enabled(s, who) then s
    else if who == Server then
      match s.server
      case Reading(i) => s.(server := AfterRead(file, |s.seen|, i), seen := Seen(file, s, Server))
      case Posting => s.(sem1 := s.sem1 + 1, server := Waiting)
      case Waiting => s.(sem2 := s.sem2 - 1, server := Reading(0))
      case AtEof => s.(sem1 := s.sem1 + 1, server := Gone)
      case Gone => s
    else
      match s.client
      case Reading(i) => s.(client := AfterRead(file, |s.seen|, i), seen := Seen(file, s, Client))
      case Posting => s.(sem2 := s.sem2 + 1, client := Waiting)
      case Waiting => s.(sem1 := s.sem1 - 1, client := Reading(0))
      case AtEof => s.(sem2 := s.sem2 + 1, client := Gone)
      case Gone => s
  }

  function Run(file: string, start: State, schedule: seq<Who>): State {
    if schedule == [] then start
    else
      var n := |schedule| - 1;
      Step(file, Run(file, start, schedule[..n]), schedule[n])
  }

  ghost predicate Reachable(file: string, start: State, s: State) {
    exists schedule :: Run(file, start, schedule) == s
  }

  lemma ReachableStep(file: string, start: State, s: State, who: Who)
    requires Reachable(file, start, s)
    ensures Reachable(file, start, Step(file, s, who))
  {
    var w :| Run(file, start, w) == s;
    assert (w + [who])[..|w|] == w;
    assert Run(file, start, w + [who]) == Step(file, s, who);
  }

  /** A process is in its stretch when it may read or is about to hand over. */
  predicate Active(pc: Pc) { pc.Reading? || pc.Posting? || pc.AtEof? }

  function Turns(s: State): nat {
    (if Active(s.server) then 1 else 0) + s.sem1 + (if Active(s.client) then 1 else 0) + s.sem2
  }

  /** Whose turn the k-th character of the file is. */
  function ReaderOf(k: nat): Who {
    if k / CHUNK % 2 == 0 then Server else Client
  }

  ghost predicate Faithful(file: string, s: State) {
    && |s.seen| <= |file|
    && forall k: nat :: k < |s.seen| ==> s.seen[k] == (ReaderOf(k), file[k])
  }

  ghost predicate Inv(file: string, s: State) {
    var n := |s.seen|;
    && Faithful(file, s)
    && Turns(s) == 1
    && (s.server.Reading? ==> s.server.i < CHUNK && (n % 10 == s.server.i || (n == |file| && s.client == Gone)))
    && (s.server.Posting? ==> n % 10 == 5)
    && (s.client.Reading? ==> s.client.i < CHUNK && (n % 10 == 5 + s.client.i || (n == |file| && s.server == Gone)))
    && (s.client.Posting? ==> n % 10 == 0)
    && (s.sem1 == 1 ==> n % 10 == 5 || s.server == Gone)
    && (s.sem2 == 1 ==> n % 10 == 0 || s.client == Gone)
    && (s.server == Gone || s.server == AtEof || s.client == Gone || s.client == AtEof ==> n == |file|)
    && (s.client == Gone && (s.sem1 == 1 || Active(s.client)) ==> s.server == Gone)
    && (s.server == Gone && s.sem2 == 1 ==> s.client == Gone)
    && (s.client == Gone ==> s.server != Posting)
    && (s.server == Gone ==> s.client != Posting)
    && LastTurn(s)
  }

  /** Who leaves first is whose turn the end of the file is. */
  predicate LastTurn(s: State) {
    var serverFirst := |s.seen| % 10 < 5;
    && (s.server == AtEof && s.client != Gone ==> serverFirst)
    && (s.client == AtEof && s.server != Gone ==> !serverFirst)
    && (s.server == Gone && s.client != Gone ==> serverFirst)
    && (s.client == Gone && s.server != Gone ==> !serverFirst)
    && (s.server == Gone && s.client == Gone ==> (s.sem2 == 1 <==> serverFirst))
  }

  lemma StartInv(file: string)
    ensures Inv(file, Start(0, 0))
  {
  }

  lemma ServerInv(file: string, s: State)
    requires Inv(file, s)
    ensures Inv(file, Step(file, s, Server))
  {
    if s.server.Reading? {
      ServerReads(file, s);
    }
  }

  lemma ServerReads(file: string, s: State)
    requires Inv(file, s) && s.server.Reading?
    ensures Inv(file, Step(file, s, Server))
  {
    NextTurn(|s.seen|);
    SeenFaithful(file, s, Server);
  }

  lemma ClientInv(file: string, s: State)
    requires Inv(file, s)
    ensures Inv(file, Step(file, s, Client))
  {
    if s.client.Reading? {
      ClientReads(file, s);
    }
  }

  lemma ClientReads(file: string, s: State)
    requires Inv(file, s) && s.client.Reading?
    ensures Inv(file, Step(file, s, Client))
  {
    NextTurn(|s.seen|);
    SeenFaithful(file, s, Client);
  }

  lemma NextTurn(n: nat)
    ensures (n + 1) % 10 == if n % 10 == 9 then 0 else n % 10 + 1
    ensures ReaderOf(n) == if n % 10 < 5 then Server else Client
  {
    assert n == 10 * (n / 10) + n % 10;
    assert n / CHUNK == 2 * (n / 10) + (if n % 10 < 5 then 0 else 1);
  }

  lemma SeenFaithful(file: string, s: State, who: Who)
    requires Faithful(file, s) && (|s.seen| < |file| ==> who == ReaderOf(|s.seen|))
    ensures Faithful(file, s.(seen := Seen(file, s, who)))
  {
  }

  lemma {:induction false} RunInv(file: string, schedule: seq<Who>)
    ensures Inv(file, Run(file, Start(0, 0), schedule))
  {
    if schedule == [] {
      StartInv(file);
    } else {
      var n := |schedule| - 1;
      var s := Run(file, Start(0, 0), schedule[..n]);
      RunInv(file, schedule[..n]);
      if schedule[n] == Server { ServerInv(file, s); } else { ClientInv(file, s); }
    }
  }

  /** With fresh semaphores, in every run: the two never read at the same time, and what
      has been read, in time order, is the file from its beginning, five characters to
      each process in turn. */
  lemma AlternatingRead(file: string, s: State)
    requires Reachable(file, Start(0, 0), s)
    ensures !(Active(s.server) && Active(s.client))
    ensures |s.seen| <= |file| && forall k: nat :: k < |s.seen| ==> s.seen[k] == (ReaderOf(k), file[k])
  {
    var schedule :| Run(file, Start(0, 0), schedule) == s;
    RunInv(file, schedule);
  }

  predicate Finished(s: State) { s.server == Gone && s.client == Gone }

  /** No run gets stuck, and a finished run has read the whole file and leaves exactly one
      of the two semaphores at 1: sem2 if the end of the file fell into the server's turn, sem1
      if into the client's. */
  lemma EndsAtEof(file: string, s: State)
    requires Reachable(file, Start(0, 0), s)
    ensures Finished(s) || Enabled(s, Server) || Enabled(s, Client)
    ensures Finished(s) ==> |s.seen| == |file|
    ensures Finished(s) ==> (s.sem1, s.sem2) == if |file| % 10 < 5 then (0, 1) else (1, 0)
  {
    var schedule :| Run(file, Start(0, 0), schedule) == s;
    RunInv(file, schedule);
  }

  /** Steps left at most. */
  function Rank(pc: Pc): nat {
    match pc
    case Reading(i) => 3
    case AtEof => 1
    case Posting => 5
    case Waiting => 4
    case Gone => 0
  }

  function Fuel(file: string, s: State): int {
    7 * (|file| - |s.seen|) + Rank(s.server) + Rank(s.client)
  }

  lemma FuelFalls(file: string, s: State, who: Who)
    requires Inv(file, s) && Enabled(s, who)
    ensures 0 <= Fuel(file, Step(file, s, who)) < Fuel(file, s)
  {
    if who == Server { ServerInv(file, s); } else { ClientInv(file, s); }
  }

  /** No run takes more than so many steps that change anything. */
  lemma {:induction false} RunsEnd(file: string, schedule: seq<Who>)
    requires forall k: nat :: k < |schedule| ==>
      Run(file, Start(0, 0), schedule[..k]) != Run(file, Start(0, 0), schedule[..k + 1])
    ensures 0 <= Fuel(file, Run(file, Start(0, 0), schedule)) <= 7 * |file| + 7 - |schedule|
  {
    if schedule != [] {
      var n := |schedule| - 1;
      var before := schedule[..n];
      assert forall k: nat :: k <= n ==> before[..k] == schedule[..k];
      RunsEnd(file, before);
      RunInv(file, before);
      assert schedule[..n + 1] == schedule;
      FuelFalls(file, Run(file, Start(0, 0), before), schedule[n]);
    }
  }

  /** Both loops under any scheduler that picks a process able to move. */
  method ReadTogether(file: string) returns (seen: seq<(Who, char)>, sem1: nat, sem2: nat)
    ensures |seen| == |file| && forall k: nat :: k < |file| ==> seen[k] == (ReaderOf(k), file[k])
    ensures (sem1, sem2) == if |file| % 10 < 5 then (0, 1) else (1, 0)
  {
    var s := Start(0, 0);
    while !Finished(s)
      invariant Inv(file, s)
      decreases Fuel(file, s)
    {
      if
      case Enabled(s, Server) =>
        FuelFalls(file, s, Server);
        ServerInv(file, s);
        s := Step(file, s, Server);
      case Enabled(s, Client) =>
        FuelFalls(file, s, Client);
        ClientInv(file, s);
        s := Step(file, s, Client);
    }
    seen, sem1, sem2 := s.seen, s.sem1, s.sem2;
  }

  /** Neither program unlinks its named semaphores, so the next run starts from what this one
      left. The turns stay exclusive exactly when sem1 starts at 0 and sem2 does too, or the
      file is too short for the server to finish one chunk. */
  ghost predicate Exclusive(file: string, start: State) {
    forall s :: Reachable(file, start, s) ==> !(Active(s.server) && Active(s.client))
  }

  lemma ExclusiveExactly(file: string, sem1: nat, sem2: nat)
    ensures Exclusive(file, Start(sem1, sem2)) <==> sem1 == 0 && (sem2 == 0 || |file| < CHUNK)
  {
    var start := Start(sem1, sem2);
    if sem1 > 0 {
      assert Run(file, start, []) == start;
      ReachableStep(file, start, start, Client);
      assert !Exclusive(file, start);
    } else if sem2 > 0 && |file| >= CHUNK {
      SecondTurnTooEarly(file, sem2);
    } else if sem2 == 0 {
      forall s | Reachable(file, start, s) ensures !(Active(s.server) && Active(s.client)) {
        AlternatingRead(file, s);
      }
    } else {
      forall s | Reachable(file, start, s) ensures !(Active(s.server) && Active(s.client)) {
        var schedule :| Run(file, start, schedule) == s;
        ShortRunInv(file, sem2, schedule);
      }
    }
  }

  /** A leftover sem2 lets the server start its second chunk while the client reads. */
  lemma SecondTurnTooEarly(file: string, sem2: nat)
    requires sem2 > 0 && |file| >= CHUNK
    ensures !Exclusive(file, Start(0, sem2))
  {
    var start := Start(0, sem2);
    var s0 := start;
    assert Run(file, start, []) == s0;
    ReachableStep(file, start, s0, Server);
    var s1 := Step(file, s0, Server);
    ReachableStep(file, start, s1, Server);
    var s2 := Step(file, s1, Server);
    ReachableStep(file, start, s2, Server);
    var s3 := Step(file, s2, Server);
    ReachableStep(file, start, s3, Server);
    var s4 := Step(file, s3, Server);
    ReachableStep(file, start, s4, Server);
    var s5 := Step(file, s4, Server);
    assert s5.server == Posting && s5.sem1 == 0 && s5.sem2 == sem2;
    ReachableStep(file, start, s5, Server);
    var s6 := Step(file, s5, Server);
    ReachableStep(file, start, s6, Server);
    var s7 := Step(file, s6, Server);
    ReachableStep(file, start, s7, Client);
    var s8 := Step(file, s7, Client);
    assert Active(s8.server) && Active(s8.client);
  }

  lemma {:induction false} ShortRunInv(file: string, sem2: nat, schedule: seq<Who>)
    requires |file| < CHUNK
    ensures var s := Run(file, Start(0, sem2), schedule);
            && (s.server == Gone || (s.client == Waiting && s.sem1 == 0))
            && (s.server.Reading? ==> s.server.i == |s.seen|)
            && s.server != Posting && s.server != Waiting && |s.seen| <= |file|
  {
    if schedule != [] {
      ShortRunInv(file, sem2, schedule[..|schedule| - 1]);
    }
  }

  /** So a second run, on the semaphores the first one leaves, keeps the turns apart exactly when
      the first file ended in the server's turn and the second is shorter than a chunk. */
  lemma NextRunExclusive(file: string, s: State, next: string)
    requires Reachable(file, Start(0, 0), s) && Finished(s)
    ensures Exclusive(next, Start(s.sem1, s.sem2)) <==> |file| % 10 < 5 && |next| < CHUNK
  {
    EndsAtEof(file, s);
    ExclusiveExactly(next, s.sem1, s.sem2);
  }
}
