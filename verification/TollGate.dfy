/** The toll plaza of midlab/toll_gate: gates (g1.c, g2.c, g3.c), the manager TM.c and the
    FastTag checker FT.c, which broadcasts each verdict as two packets that every gate reads
    from its own position.

    Each send and receive is one step. Stream and datagram channels are first-in first-out
    and reliable; all gates listen before the first vehicle; vehicle numbers are never reused.
    The number of gates is a parameter (the programs have three). */
module TollGate {

  /** A vehicle: its port, and whether `getpeername` works on its socket. */
  datatype Vehicle = Vehicle(port: nat, readable: bool)

  /** `fast_tag_id`: the port, or -1 when it cannot be read. */
  function Tag(v: Vehicle): int { if v.readable then v.port else -1 }

  /** What FT.c decides. */
  predicate Valid(tag: int) { tag % 3 == 0 }

  /** `sprintf(valid, "%d", ...)`. */
  function Text(valid: bool): string { if valid then "1" else "0" }

  /** `atoi` on a text without blanks or sign. */
  function ParseNat(t: string, acc: nat): nat
    decreases |t|
  {
    if t == "" || !('0' <= t[0] <= '9') then acc
    else ParseNat(t[1..], 10 * acc + (t[0] as int - '0' as int))
  }

  /** Between a gate and the manager: a passed descriptor, then the number. */
  datatype Item = Fd(port: Vehicle) | Num(number: string)

  /** Between the manager and the checker. */
  datatype Datagram = Id(tag: int) | No(number: string)

  /** Free: polling; Came: number received from the vehicle; SentFd: descriptor passed on;
      Wait1: both passed on, before the first packet of a pair; Wait2: `first` read, before the
      second; Decided: pair found; Answered: vehicle told, signal to the manager to come. */
  datatype GatePc = Free | Came | SentFd | Wait1 | Wait2(first: string) | Decided(valid: bool) | Answered(valid: bool)

  /** `cursor` is how many broadcast packets the gate has read; `wheels` is 0 or 1. */
  datatype Gate = Gate(pc: GatePc, cursor: nat, number: string, wheels: nat)

  datatype TmPc =
    | TmPoll | TmFd(gate: nat, port: Vehicle) | TmBoth(port: Vehicle, number: string) | TmSentId(number: string)
    | TmDead

  datatype FtPc =
    | FtIdle | FtId(tag: int) | FtBoth(tag: int, number: string) | FtSentNumber(tag: int, number: string) | FtDead

  datatype Answer = Answer(number: string, wheels: nat, valid: bool)

  /** Per kind of vehicle: the manager's counter, its pending signal, signals that met one
      already pending, and signals sent. */
  datatype Tally = Tally(count: nat, pending: bool, lost: nat, sent: nat)

  /** `seen` and `answers` record the arrivals and the verdicts told to vehicles. */
  datatype State = State(
    gates: seq<Gate>, channels: seq<seq<Item>>, tm: TmPc, datagrams: seq<Datagram>, ft: FtPc, log: seq<string>,
    two: Tally, four: Tally, seen: map<string, Vehicle>, answers: seq<Answer>)

  function Start(n: nat): State {
    State(seq(n, _ => Gate(Free, 0, "", 0)), seq(n, _ => []), TmPoll, [], FtIdle, [],
          Tally(0, false, 0, 0), Tally(0, false, 0, 0), map[], [])
  }

  datatype Move =
    | Arrive(gate: nat, number: string, vehicle: Vehicle, wheels: nat)
    | GateStep(gate: nat)
    | Poll(gate: nat)
    | TmStep
    | FtStep
    | Handle(wheels: nat)

  function Pass(s: State, g: nat, r: Gate, item: Item): State
    requires g < |s.gates| && g < |s.channels|
  {
    s.(gates := s.gates[g := r], channels := s.channels[g := s.channels[g] + [item]])
  }

  function Kill(t: Tally): Tally {
    t.(pending := true, lost := t.lost + (if t.pending then 1 else 0), sent := t.sent + 1)
  }

  /** One step of a gate that has a vehicle. */
  function RunGate(s: State, g: nat): State
    requires |s.gates| == |s.channels|
  {
    if g >= |s.gates| then s else
    var r := s.gates[g];
    match r.pc
    case Free => s
    case Came => if r.number in s.seen then Pass(s, g, r.(pc := SentFd), Fd(s.seen[r.number])) else s
    case SentFd => Pass(s, g, r.(pc := Wait1), Num(r.number))
    case Wait1 =>
      if r.cursor >= |s.log| then s
      else s.(gates := s.gates[g := r.(pc := Wait2(s.log[r.cursor]), cursor := r.cursor + 1)])
    case Wait2(first) =>
      if r.cursor >= |s.log| then s
      else
        var pc := if first == r.number then Decided(ParseNat(s.log[r.cursor], 0) != 0) else Wait1;
        s.(gates := s.gates[g := r.(pc := pc, cursor := r.cursor + 1)])
    case Decided(valid) =>
      s.(gates := s.gates[g := r.(pc := Answered(valid))], answers := s.answers + [Answer(r.number, r.wheels, valid)])
    case Answered(valid) =>
      var s' := s.(gates := s.gates[g := r.(pc := Free)]);
      if !valid then s' else if r.wheels == 0 then s'.(two := Kill(s.two)) else s'.(four := Kill(s.four))
  }

  function Step(s: State, m: Move): State
    requires |s.gates| == |s.channels|
    ensures |Step(s, m).gates| == |s.gates| && |Step(s, m).channels| == |s.channels|
  {
    match m
    case Arrive(g, number, vehicle, wheels) =>
      if g >= |s.gates| || s.gates[g].pc != Free || number in s.seen || wheels > 1 then s
      else s.(gates := s.gates[g := s.gates[g].(pc := Came, number := number, wheels := wheels)],
              seen := s.seen[number := vehicle])
    case GateStep(g) => RunGate(s, g)
    case Poll(g) =>
      if s.tm != TmPoll || g >= |s.channels| || s.channels[g] == [] then s
      else
        var item, rest := s.channels[g][0], s.channels[g][1..];
        s.(channels := s.channels[g := rest], tm := if item.Fd? then TmFd(g, item.port) else TmDead)
    case TmStep => RunTm(s)
    case FtStep => RunFt(s)
    case Handle(wheels) =>
      if wheels == 0 then (if !s.two.pending then s else s.(two := s.two.(pending := false, count := s.two.count + 1)))
      else if !s.four.pending then s else s.(four := s.four.(pending := false, count := s.four.count + 1))
  }

  function RunTm(s: State): (r: State)
    ensures |r.gates| == |s.gates| && |r.channels| == |s.channels|
  {
    match s.tm
    case TmFd(g, port) =>
      if g >= |s.channels| || s.channels[g] == [] || s.channels[g][0].Fd? then s
      else s.(channels := s.channels[g := s.channels[g][1..]], tm := TmBoth(port, s.channels[g][0].number))
    case TmBoth(port, number) => s.(datagrams := s.datagrams + [Id(Tag(port))], tm := TmSentId(number))
    case TmSentId(number) => s.(datagrams := s.datagrams + [No(number)], tm := TmPoll)
    case _ => s
  }

  function RunFt(s: State): (r: State)
    ensures |r.gates| == |s.gates| && |r.channels| == |s.channels|
  {
    match s.ft
    case FtIdle =>
      if s.datagrams == [] then s
      else s.(ft := if s.datagrams[0].Id? then FtId(s.datagrams[0].tag) else FtDead, datagrams := s.datagrams[1..])
    case FtId(tag) =>
      if s.datagrams == [] then s
      else s.(ft := if s.datagrams[0].No? then FtBoth(tag, s.datagrams[0].number) else FtDead,
              datagrams := s.datagrams[1..])
    case FtBoth(tag, number) => s.(log := s.log + [number], ft := FtSentNumber(tag, number))
    case FtSentNumber(tag, number) => s.(log := s.log + [Text(Valid(tag))], ft := FtIdle)
    case FtDead => s
  }

  function Run(n: nat, moves: seq<Move>): (s: State)
    ensures |s.gates| == |s.channels| == n
  {
    if moves == [] then Start(n)
    else
      var k := |moves| - 1;
      Step(Run(n, moves[..k]), moves[k])
  }

  ghost predicate Reachable(n: nat, s: State) {
    exists moves :: Run(n, moves) == s
  }

  /** The verdict text belongs to the number before it. */
  ghost predicate Pair(seen: map<string, Vehicle>, number: string, text: string) {
    number in seen && text == Text(Valid(Tag(seen[number])))
  }

  ghost predicate LogInv(seen: map<string, Vehicle>, log: seq<string>, ft: FtPc) {
    && |log| % 2 == (if ft.FtSentNumber? then 1 else 0)
    && (forall i: nat :: i % 2 == 0 && i + 1 < |log| ==> Pair(seen, log[i], log[i + 1]))
    && (ft.FtSentNumber? ==> log[|log| - 1] == ft.number)
    && (ft.FtBoth? || ft.FtSentNumber? ==> ft.number in seen && ft.tag == Tag(seen[ft.number]))
    && ft != FtDead
  }

  /** Everything between the manager's lookup and the checker, completed to whole pairs. */
  function Pipe(s: State): seq<Datagram> {
    (if s.ft.FtId? then [Id(s.ft.tag)] else []) + s.datagrams + (if s.tm.TmSentId? then [No(s.tm.number)] else [])
  }

  predicate PipePair(seen: map<string, Vehicle>, a: Datagram, b: Datagram) {
    b.No? && b.number in seen && a == Id(Tag(seen[b.number]))
  }

  ghost predicate Paired(seen: map<string, Vehicle>, pipe: seq<Datagram>) {
    && |pipe| % 2 == 0
    && forall i: nat :: i % 2 == 0 && i + 1 < |pipe| ==> PipePair(seen, pipe[i], pipe[i + 1])
  }

  ghost predicate TmInv(s: State) {
    match s.tm
    case TmFd(g, port) => g < |s.gates|
    case TmBoth(port, number) => number in s.seen && s.seen[number] == port
    case TmSentId(number) => true
    case TmPoll => true
    case TmDead => false
  }

  predicate Held(s: State, g: nat) { s.tm.TmFd? && s.tm.gate == g }

  /** The number is with the manager, in the pipe, with the checker or in the broadcast. */
  ghost predicate Beyond(s: State, number: string) {
    || (s.tm.TmBoth? && s.tm.number == number)
    || No(number) in Pipe(s)
    || (s.ft.FtBoth? && s.ft.number == number)
    || InLog(s.log, number, 0)
  }

  /** ... and if it has been broadcast, not behind the given position. */
  ghost predicate Ahead(s: State, number: string, cursor: nat) {
    || (s.tm.TmBoth? && s.tm.number == number)
    || No(number) in Pipe(s)
    || (s.ft.FtBoth? && s.ft.number == number)
    || InLog(s.log, number, cursor)
  }

  ghost predicate InLog(log: seq<string>, number: string, from: nat) {
    exists i: nat :: from <= i < |log| && i % 2 == 0 && log[i] == number
  }

  /** Where the pair being read starts. */
  function PairStart(r: Gate): nat { if r.pc.Wait2? && r.cursor > 0 then r.cursor - 1 else r.cursor }

  predicate Waiting(r: Gate) { r.pc.Wait1? || r.pc.Wait2? }

  /** Where the vehicle of gate g is, channel c being the gate's. */
  ghost predicate Placed(s: State, g: nat, r: Gate, c: seq<Item>)
    requires r.number in s.seen
  {
    var v := s.seen[r.number];
    match r.pc
    case Came => c == [] && !Held(s, g) && !Beyond(s, r.number)
    case SentFd => ((c == [Fd(v)] && !Held(s, g)) || (c == [] && s.tm == TmFd(g, v))) && !Beyond(s, r.number)
    case Wait1 => PlacedWaiting(s, g, r, c, v)
    case Wait2(_) => PlacedWaiting(s, g, r, c, v)
    case _ => c == [] && !Held(s, g)
  }

  ghost predicate PlacedWaiting(s: State, g: nat, r: Gate, c: seq<Item>, v: Vehicle) {
    if c == [] then
      && !Held(s, g) && Ahead(s, r.number, PairStart(r))
      && forall i: nat :: i % 2 == 0 && i < PairStart(r) && i < |s.log| ==> s.log[i] != r.number
    else
      && ((c == [Fd(v), Num(r.number)] && !Held(s, g)) || (c == [Num(r.number)] && s.tm == TmFd(g, v)))
      && !Beyond(s, r.number)
  }

  ghost predicate GateInv(s: State, g: nat)
    requires g < |s.gates| == |s.channels|
  {
    var r, c := s.gates[g], s.channels[g];
    && r.cursor <= |s.log| && PairStart(r) % 2 == 0 && r.wheels <= 1
    && (r.pc.Wait2? ==> r.cursor > 0 && s.log[r.cursor - 1] == r.pc.first)
    && (r.pc == Free ==> c == [] && !Held(s, g))
    && (r.pc != Free ==> r.number in s.seen && Placed(s, g, r, c))
    && (r.pc.Decided? || r.pc.Answered? ==> r.pc.valid == Valid(Tag(s.seen[r.number])))
  }

  /** Two busy gates never hold the same vehicle. */
  ghost predicate Distinct(gates: seq<Gate>) {
    forall g: nat, h: nat :: g < h < |gates| && gates[g].pc != Free && gates[h].pc != Free ==>
      gates[g].number != gates[h].number
  }

  /** Gates that owe the manager a signal of one kind. */
  function Owing(gates: seq<Gate>, wheels: nat): nat {
    if gates == [] then 0
    else Owing(gates[1..], wheels) + (if gates[0].pc == Answered(true) && gates[0].wheels == wheels then 1 else 0)
  }

  function Approved(answers: seq<Answer>, wheels: nat): nat {
    if answers == [] then 0
    else
      var k := |answers| - 1;
      Approved(answers[..k], wheels) + (if answers[k].valid && answers[k].wheels == wheels then 1 else 0)
  }

  ghost predicate TallyInv(t: Tally, gates: seq<Gate>, answers: seq<Answer>, wheels: nat) {
    && t.count + (if t.pending then 1 else 0) + t.lost == t.sent
    && t.sent + Owing(gates, wheels) == Approved(answers, wheels)
  }

  ghost predicate AnswersInv(seen: map<string, Vehicle>, answers: seq<Answer>) {
    forall k: nat :: k < |answers| ==>
      answers[k].number in seen && answers[k].valid == Valid(Tag(seen[answers[k].number]))
  }

  ghost predicate Inv(s: State) {
    && |s.gates| == |s.channels|
    && LogInv(s.seen, s.log, s.ft)
    && Paired(s.seen, Pipe(s))
    && TmInv(s)
    && (forall g: nat :: g < |s.gates| ==> GateInv(s, g))
    && Distinct(s.gates)
    && AnswersInv(s.seen, s.answers)
    && TallyInv(s.two, s.gates, s.answers, 0)
    && TallyInv(s.four, s.gates, s.answers, 1)
  }

  predicate Owes(r: Gate, wheels: nat) { r.pc == Answered(true) && r.wheels == wheels }

  lemma {:induction false} OwingUpdate(gates: seq<Gate>, g: nat, r: Gate, wheels: nat)
    requires g < |gates|
    ensures Owing(gates[g := r], wheels) == Owing(gates, wheels)
          - (if Owes(gates[g], wheels) then 1 else 0) + (if Owes(r, wheels) then 1 else 0)
  {
    if g > 0 {
      assert gates[g := r][1..] == gates[1..][g - 1 := r];
      OwingUpdate(gates[1..], g - 1, r, wheels);
    } else {
      assert gates[0 := r][1..] == gates[1..];
    }
  }

  /** Only vehicles that have arrived are beyond their gate. */
  lemma BeyondIsSeen(s: State, number: string)
    requires Inv(s) && Beyond(s, number)
    ensures number in s.seen
  {
    if No(number) in Pipe(s) {
      var i: nat :| i < |Pipe(s)| && Pipe(s)[i] == No(number);
      var j: nat := i - i % 2;
      assert PipePair(s.seen, Pipe(s)[j], Pipe(s)[j + 1]);
    } else if InLog(s.log, number, 0) {
      var i: nat :| i < |s.log| && i % 2 == 0 && s.log[i] == number;
      if i + 1 < |s.log| { assert Pair(s.seen, s.log[i], s.log[i + 1]); }
    }
  }

  /** A gate that does not move keeps its place when nothing it looks at changes. */
  lemma GateFrame(s: State, t: State, h: nat)
    requires h < |s.gates| == |s.channels| && |t.gates| == |t.channels| == |s.gates|
    requires t.gates[h] == s.gates[h] && t.channels[h] == s.channels[h] && t.log == s.log
    requires t.tm == s.tm && t.datagrams == s.datagrams && t.ft == s.ft
    requires forall v :: v in s.seen ==> v in t.seen && t.seen[v] == s.seen[v]
    requires GateInv(s, h)
    ensures GateInv(t, h)
  {
    assert Pipe(t) == Pipe(s);
    forall number ensures Beyond(t, number) <==> Beyond(s, number) {}
  }

  /** Gate g moves, perhaps with its channel: the others keep their places. */
  lemma OthersKeep(s: State, t: State, g: nat)
    requires Inv(s) && g < |s.gates| == |t.gates| && |t.channels| == |s.channels|
    requires t.gates == s.gates[g := t.gates[g]]
    requires forall h: nat :: h < |s.channels| && h != g ==> t.channels[h] == s.channels[h]
    requires t.log == s.log && t.tm == s.tm && t.datagrams == s.datagrams && t.ft == s.ft
    requires forall v :: v in s.seen ==> v in t.seen && t.seen[v] == s.seen[v]
    ensures forall h: nat :: h < |t.gates| && h != g ==> GateInv(t, h)
    ensures Pipe(t) == Pipe(s)
  {
    forall h: nat | h < |t.gates| && h != g ensures GateInv(t, h) {
      GateFrame(s, t, h);
    }
  }

  lemma DistinctUpdate(gates: seq<Gate>, g: nat, r: Gate)
    requires Distinct(gates) && g < |gates|
    requires r.pc == Free || (gates[g].pc != Free && r.number == gates[g].number)
          || (forall h: nat :: h < |gates| && h != g && gates[h].pc != Free ==> gates[h].number != r.number)
    ensures Distinct(gates[g := r])
  {
  }

  lemma OwingBoth(s: State, g: nat, r: Gate)
    requires g < |s.gates|
    ensures Owing(s.gates[g := r], 0)
         == Owing(s.gates, 0) - (if Owes(s.gates[g], 0) then 1 else 0) + (if Owes(r, 0) then 1 else 0)
    ensures Owing(s.gates[g := r], 1)
         == Owing(s.gates, 1) - (if Owes(s.gates[g], 1) then 1 else 0) + (if Owes(r, 1) then 1 else 0)
  {
    OwingUpdate(s.gates, g, r, 0);
    OwingUpdate(s.gates, g, r, 1);
  }

  lemma ArriveInv(s: State, g: nat, number: string, vehicle: Vehicle, wheels: nat)
    requires Inv(s)
    ensures Inv(Step(s, Arrive(g, number, vehicle, wheels)))
  {
    var t := Step(s, Arrive(g, number, vehicle, wheels));
    if t != s {
      OwingBoth(s, g, t.gates[g]);
      OthersKeep(s, t, g);
      forall h: nat | h < |s.gates| && h != g && s.gates[h].pc != Free ensures s.gates[h].number != number {
        assert GateInv(s, h);
      }
      DistinctUpdate(s.gates, g, t.gates[g]);
      NewcomerPlaced(s, t, g, number);
      assert LogInv(t.seen, t.log, t.ft) && Paired(t.seen, Pipe(t)) && TmInv(t);
    }
  }

  /** A new number is nowhere in the plaza. */
  lemma NewcomerPlaced(s: State, t: State, g: nat, number: string)
    requires Inv(s) && g < |s.gates| == |t.gates| && s.gates[g].pc == Free && number !in s.seen && number in t.seen
    requires t.channels == s.channels
    requires t.gates == s.gates[g := s.gates[g].(pc := Came, number := number, wheels := t.gates[g].wheels)]
    requires t.gates[g].wheels <= 1
    requires t.log == s.log && t.tm == s.tm && t.datagrams == s.datagrams && t.ft == s.ft
    ensures GateInv(t, g)
  {
    assert GateInv(s, g);
    assert Pipe(t) == Pipe(s);
    if Beyond(t, number) { assert Beyond(s, number); BeyondIsSeen(s, number); }
  }

  /** The gate passes the descriptor and the number on. */
  lemma GatePassesInv(s: State, g: nat)
    requires Inv(s) && g < |s.gates| && (s.gates[g].pc.Came? || s.gates[g].pc.SentFd?)
    ensures Inv(RunGate(s, g))
  {
    var t := RunGate(s, g);
    assert GateInv(s, g);
    OwingBoth(s, g, t.gates[g]);
    OthersKeep(s, t, g);
    DistinctUpdate(s.gates, g, t.gates[g]);
    assert Beyond(t, s.gates[g].number) <==> Beyond(s, s.gates[g].number);
  }

  /** `atoi` reads back what `sprintf` wrote. */
  lemma VerdictParses(valid: bool)
    ensures ParseNat(Text(valid), 0) == if valid then 1 else 0
  {
    assert Text(valid)[1..] == "";
  }

  /** The gate reads one packet of the broadcast. */
  lemma GateReadsInv(s: State, g: nat)
    requires Inv(s) && g < |s.gates| && Waiting(s.gates[g])
    ensures Inv(RunGate(s, g))
  {
    var t := RunGate(s, g);
    if s.gates[g].cursor < |s.log| {
      OwingBoth(s, g, t.gates[g]);
      OthersKeep(s, t, g);
      DistinctUpdate(s.gates, g, t.gates[g]);
      if s.gates[g].pc.Wait1? { FirstPacket(s, g); } else { SecondPacket(s, g); }
    }
  }

  lemma FirstPacket(s: State, g: nat)
    requires Inv(s) && g < |s.gates| && s.gates[g].pc.Wait1? && s.gates[g].cursor < |s.log|
    ensures GateInv(RunGate(s, g), g)
  {
    assert GateInv(s, g);
    var t := RunGate(s, g);
    assert Pipe(t) == Pipe(s);
    assert Beyond(t, s.gates[g].number) <==> Beyond(s, s.gates[g].number);
  }

  lemma SecondPacket(s: State, g: nat)
    requires Inv(s) && g < |s.gates| && s.gates[g].pc.Wait2? && s.gates[g].cursor < |s.log|
    ensures GateInv(RunGate(s, g), g)
  {
    assert GateInv(s, g);
    var t, r := RunGate(s, g), s.gates[g];
    var i: nat := r.cursor - 1;
    assert Pair(s.seen, s.log[i], s.log[i + 1]);
    VerdictParses(Valid(Tag(s.seen[s.log[i]])));
    assert Pipe(t) == Pipe(s);
    assert Beyond(t, r.number) <==> Beyond(s, r.number);
    if r.pc.first == r.number { assert InLog(s.log, r.number, 0); }
  }

  /** The gate tells the vehicle. */
  lemma GateTellsInv(s: State, g: nat)
    requires Inv(s) && g < |s.gates| && s.gates[g].pc.Decided?
    ensures Inv(RunGate(s, g))
  {
    var t := RunGate(s, g);
    assert GateInv(s, g);
    OwingBoth(s, g, t.gates[g]);
    OthersKeep(s, t, g);
    DistinctUpdate(s.gates, g, t.gates[g]);
    assert GateInv(t, g);
    assert t.answers[..|t.answers| - 1] == s.answers;
    assert Approved(t.answers, 0) == Approved(s.answers, 0) + (if Owes(t.gates[g], 0) then 1 else 0);
    assert Approved(t.answers, 1) == Approved(s.answers, 1) + (if Owes(t.gates[g], 1) then 1 else 0);
  }

  /** ... then signals the manager. */
  lemma GateSignalsInv(s: State, g: nat)
    requires Inv(s) && g < |s.gates| && s.gates[g].pc.Answered?
    ensures Inv(RunGate(s, g))
  {
    var t := RunGate(s, g);
    assert GateInv(s, g);
    OwingBoth(s, g, t.gates[g]);
    OthersKeep(s, t, g);
    DistinctUpdate(s.gates, g, t.gates[g]);
    assert GateInv(t, g);
  }

  /** The manager takes a descriptor from a gate. */
  lemma PollInv(s: State, g: nat)
    requires Inv(s)
    ensures Inv(Step(s, Poll(g)))
  {
    var t := Step(s, Poll(g));
    if t != s {
      assert GateInv(s, g);
      assert Pipe(t) == Pipe(s);
      forall h: nat | h < |t.gates| ensures GateInv(t, h) {
        assert GateInv(s, h);
        assert Beyond(t, s.gates[h].number) <==> Beyond(s, s.gates[h].number);
      }
    }
  }

  /** The manager has both: the number leaves its gate's channel. */
  lemma TmTakesNumberInv(s: State)
    requires Inv(s) && s.tm.TmFd?
    ensures Inv(RunTm(s))
  {
    var t, g := RunTm(s), s.tm.gate;
    assert GateInv(s, g);
    if t != s {
      var v := s.gates[g].number;
      assert t.tm == TmBoth(s.seen[v], v);
      assert Pipe(t) == Pipe(s);
      forall h: nat | h < |t.gates| ensures GateInv(t, h) {
        assert GateInv(s, h);
        assert s.gates[h].number != v ==> (Beyond(t, s.gates[h].number) <==> Beyond(s, s.gates[h].number));
      }
    }
  }

  /** The pipe only changes its split between manager and checker, or grows by one pair. */
  lemma TmSendsInv(s: State)
    requires Inv(s) && (s.tm.TmBoth? || s.tm.TmSentId?)
    ensures Inv(RunTm(s))
  {
    var t := RunTm(s);
    if s.tm.TmBoth? {
      assert Pipe(t) == Pipe(s) + [Id(Tag(s.tm.port)), No(s.tm.number)];
      PipeGrows(s.seen, Pipe(s), s.tm.port, s.tm.number);
    } else {
      assert Pipe(t) == Pipe(s);
    }
    forall h: nat | h < |t.gates| ensures GateInv(t, h) {
      assert GateInv(s, h);
      assert Beyond(t, s.gates[h].number) <==> Beyond(s, s.gates[h].number);
    }
  }

  lemma PipeGrows(seen: map<string, Vehicle>, pipe: seq<Datagram>, port: Vehicle, number: string)
    requires Paired(seen, pipe) && number in seen && seen[number] == port
    ensures Paired(seen, pipe + [Id(Tag(port)), No(number)])
  {
    var q := pipe + [Id(Tag(port)), No(number)];
    forall i: nat | i % 2 == 0 && i + 1 < |q| ensures PipePair(seen, q[i], q[i + 1]) {
      if i + 1 < |pipe| { assert PipePair(seen, pipe[i], pipe[i + 1]); }
    }
  }

  /** The checker takes the first half of a pair: the pipe stays whole. */
  lemma FtTakesIdInv(s: State)
    requires Inv(s) && s.ft.FtIdle?
    ensures Inv(RunFt(s))
  {
    var t := RunFt(s);
    if s.datagrams != [] {
      var p := Pipe(s);
      assert p[0] == s.datagrams[0];
      assert PipePair(s.seen, p[0], p[1]);
      assert [s.datagrams[0]] + s.datagrams[1..] == s.datagrams;
      assert Pipe(t) == p;
      forall h: nat | h < |t.gates| ensures GateInv(t, h) {
        assert GateInv(s, h);
        assert Beyond(t, s.gates[h].number) <==> Beyond(s, s.gates[h].number);
      }
    }
  }

  /** ... and the second half: one pair leaves the pipe. */
  lemma FtTakesNumberInv(s: State)
    requires Inv(s) && s.ft.FtId?
    ensures Inv(RunFt(s))
  {
    var t := RunFt(s);
    if s.datagrams != [] {
      var p, q := Pipe(s), Pipe(t);
      assert p[1] == s.datagrams[0];
      assert PipePair(s.seen, p[0], p[1]);
      assert p == [p[0], p[1]] + q;
      forall i: nat | i % 2 == 0 && i + 1 < |q| ensures PipePair(s.seen, q[i], q[i + 1]) {
        assert PipePair(s.seen, p[i + 2], p[i + 2 + 1]);
      }
      forall h: nat | h < |t.gates| ensures GateInv(t, h) {
        assert GateInv(s, h);
        assert forall number :: No(number) in p <==> number == t.ft.number || No(number) in q;
        assert Beyond(t, s.gates[h].number) <==> Beyond(s, s.gates[h].number);
      }
    }
  }

  /** The checker broadcasts the number, at an even position. */
  lemma FtSendsNumberInv(s: State)
    requires Inv(s) && s.ft.FtBoth?
    ensures Inv(RunFt(s))
  {
    var t, v := RunFt(s), s.ft.number;
    assert Pipe(t) == Pipe(s);
    forall i: nat | i % 2 == 0 && i + 1 < |t.log| ensures Pair(t.seen, t.log[i], t.log[i + 1]) {
      assert Pair(s.seen, s.log[i], s.log[i + 1]);
    }
    LogGrows(s.log, v);
    forall h: nat | h < |t.gates| ensures GateInv(t, h) {
      assert GateInv(s, h);
      assert Beyond(t, s.gates[h].number) <==> Beyond(s, s.gates[h].number);
      if s.gates[h].pc != Free && Ahead(s, s.gates[h].number, PairStart(s.gates[h])) {
        assert Ahead(t, s.gates[h].number, PairStart(s.gates[h]));
      }
    }
  }

  /** One more packet: at an even position it makes one more number findable, from anywhere. */
  lemma LogGrows(log: seq<string>, packet: string)
    ensures forall number, from: nat :: from <= |log| ==>
               (InLog(log + [packet], number, from)
                <==> InLog(log, number, from) || (|log| % 2 == 0 && number == packet))
  {
    forall number, from: nat | from <= |log|
      ensures InLog(log + [packet], number, from) <==> InLog(log, number, from) || (|log| % 2 == 0 && number == packet)
    {
      var q := log + [packet];
      if InLog(log, number, from) {
        var i: nat :| from <= i < |log| && i % 2 == 0 && log[i] == number;
        assert q[i] == number;
      }
      if |log| % 2 == 0 && number == packet { assert q[|log|] == number; }
      if InLog(q, number, from) {
        var i: nat :| from <= i < |q| && i % 2 == 0 && q[i] == number;
        if i < |log| { assert log[i] == number; }
      }
    }
  }

  /** ... and its verdict, at an odd one. */
  lemma FtSendsVerdictInv(s: State)
    requires Inv(s) && s.ft.FtSentNumber?
    ensures Inv(RunFt(s))
  {
    var t := RunFt(s);
    assert Pipe(t) == Pipe(s);
    forall i: nat | i % 2 == 0 && i + 1 < |t.log| ensures Pair(t.seen, t.log[i], t.log[i + 1]) {
      if i + 1 < |s.log| { assert Pair(s.seen, s.log[i], s.log[i + 1]); }
    }
    LogGrows(s.log, Text(Valid(s.ft.tag)));
    forall h: nat | h < |t.gates| ensures GateInv(t, h) {
      assert GateInv(s, h);
      assert Beyond(t, s.gates[h].number) <==> Beyond(s, s.gates[h].number);
      if s.gates[h].pc != Free && Ahead(s, s.gates[h].number, PairStart(s.gates[h])) {
        assert Ahead(t, s.gates[h].number, PairStart(s.gates[h]));
      }
    }
  }

  lemma HandleInv(s: State, wheels: nat)
    requires Inv(s)
    ensures Inv(Step(s, Handle(wheels)))
  {
    var t := Step(s, Handle(wheels));
    assert Pipe(t) == Pipe(s);
    forall h: nat | h < |t.gates| ensures GateInv(t, h) {
      GateFrame(s, t, h);
    }
  }

  lemma StepInv(s: State, m: Move)
    requires Inv(s)
    ensures Inv(Step(s, m))
  {
    match m
    case Arrive(g, number, vehicle, wheels) => ArriveInv(s, g, number, vehicle, wheels);
    case GateStep(g) =>
      if g < |s.gates| {
        if s.gates[g].pc.Came? || s.gates[g].pc.SentFd? { GatePassesInv(s, g); }
        else if Waiting(s.gates[g]) { GateReadsInv(s, g); }
        else if s.gates[g].pc.Decided? { GateTellsInv(s, g); }
        else if s.gates[g].pc.Answered? { GateSignalsInv(s, g); }
      }
    case Poll(g) => PollInv(s, g);
    case TmStep =>
      if s.tm.TmFd? { TmTakesNumberInv(s); } else if s.tm.TmBoth? || s.tm.TmSentId? { TmSendsInv(s); }
    case FtStep =>
      if s.ft.FtIdle? { FtTakesIdInv(s); } else if s.ft.FtId? { FtTakesNumberInv(s); }
      else if s.ft.FtBoth? { FtSendsNumberInv(s); } else if s.ft.FtSentNumber? { FtSendsVerdictInv(s); }
    case Handle(wheels) => HandleInv(s, wheels);
  }

  lemma {:induction false} NobodyOwes(n: nat, wheels: nat)
    ensures Owing(seq(n, _ => Gate(Free, 0, "", 0)), wheels) == 0
  {
    if n > 0 {
      assert seq(n, _ => Gate(Free, 0, "", 0))[1..] == seq(n - 1, _ => Gate(Free, 0, "", 0));
      NobodyOwes(n - 1, wheels);
    }
  }

  lemma {:induction false} RunInv(n: nat, moves: seq<Move>)
    ensures Inv(Run(n, moves))
  {
    if moves == [] {
      NobodyOwes(n, 0);
      NobodyOwes(n, 1);
      assert Pipe(Start(n)) == [];
    } else {
      var k := |moves| - 1;
      RunInv(n, moves[..k]);
      StepInv(Run(n, moves[..k]), moves[k]);
    }
  }

  lemma ReachableInv(n: nat, s: State)
    requires Reachable(n, s)
    ensures Inv(s)
  {
    var moves :| Run(n, moves) == s;
    RunInv(n, moves);
  }

  /** In every run, every verdict told to a vehicle is its own: valid exactly when its port was
      readable and is a multiple of three. */
  lemma OwnVerdict(n: nat, s: State, k: nat)
    requires Reachable(n, s) && k < |s.answers|
    ensures var a := s.answers[k];
            a.number in s.seen && (a.valid <==> s.seen[a.number].readable && s.seen[a.number].port % 3 == 0)
  {
    ReachableInv(n, s);
  }

  /** Every gate reads the broadcast in whole pairs, (number, verdict), and the pair a gate
      waits for is never behind its cursor. */
  lemma PairsStayAligned(n: nat, s: State, g: nat)
    requires Reachable(n, s) && g < |s.gates|
    ensures s.gates[g].cursor <= |s.log| && s.gates[g].cursor % 2 == (if s.gates[g].pc.Wait2? then 1 else 0)
    ensures Waiting(s.gates[g]) ==>
      forall i: nat :: i % 2 == 0 && i < PairStart(s.gates[g]) ==> s.log[i] != s.gates[g].number
    ensures forall i: nat :: i % 2 == 0 && i + 1 < |s.log| ==> Pair(s.seen, s.log[i], s.log[i + 1])
    ensures s.tm != TmDead && s.ft != FtDead
  {
    ReachableInv(n, s);
    assert GateInv(s, g);
    CursorAligned(s, g);
    if Waiting(s.gates[g]) { NeverBehind(s, g); }
  }

  lemma CursorAligned(s: State, g: nat)
    requires g < |s.gates| == |s.channels| && GateInv(s, g)
    ensures s.gates[g].cursor <= |s.log| && s.gates[g].cursor % 2 == (if s.gates[g].pc.Wait2? then 1 else 0)
  {
  }

  lemma NeverBehind(s: State, g: nat)
    requires g < |s.gates| == |s.channels| && GateInv(s, g) && Waiting(s.gates[g])
    ensures forall i: nat :: i % 2 == 0 && i < PairStart(s.gates[g]) ==> s.log[i] != s.gates[g].number
  {
    if s.channels[g] != [] {
      assert !InLog(s.log, s.gates[g].number, 0);
    }
  }

  /** Every signal sent is counted, pending or lost to coalescing, and signals are only sent
      for approved vehicles: a counter with its pending signal never exceeds the approvals. */
  lemma CountersBounded(n: nat, s: State)
    requires Reachable(n, s)
    ensures s.two.count + (if s.two.pending then 1 else 0) + s.two.lost + Owing(s.gates, 0) == Approved(s.answers, 0)
    ensures s.four.count + (if s.four.pending then 1 else 0) + s.four.lost + Owing(s.gates, 1) == Approved(s.answers, 1)
  {
    ReachableInv(n, s);
  }

  /** A busy gate is never left waiting for good: some process other than an arriving vehicle
      can move. */
  lemma BusyGateProgress(n: nat, s: State, g: nat) returns (m: Move)
    requires Reachable(n, s) && g < |s.gates| && s.gates[g].pc != Free
    ensures !m.Arrive? && !m.Handle? && Step(s, m) != s
  {
    ReachableInv(n, s);
    assert GateInv(s, g);
    if s.ft.FtBoth? || s.ft.FtSentNumber? {
      m := FtStep;
      assert RunFt(s).log != s.log;
    } else if s.datagrams != [] {
      m := FtStep;
      assert RunFt(s).datagrams != s.datagrams;
    } else if s.tm.TmBoth? || s.tm.TmSentId? {
      m := TmStep;
      assert RunTm(s).datagrams != s.datagrams;
    } else if s.tm.TmFd? {
      m := ManagerHasFd(s);
    } else {
      m := IdlePipe(s, g);
    }
  }

  lemma ManagerHasFd(s: State) returns (m: Move)
    requires Inv(s) && s.tm.TmFd?
    ensures !m.Arrive? && !m.Handle? && Step(s, m) != s
  {
    var h := s.tm.gate;
    assert GateInv(s, h);
    if s.channels[h] == [] {
      m := GateStep(h);
      assert RunGate(s, h).gates[h] != s.gates[h];
    } else {
      m := TmStep;
      assert RunTm(s).tm != s.tm;
    }
  }

  lemma IdlePipe(s: State, g: nat) returns (m: Move)
    requires Inv(s) && g < |s.gates| && s.gates[g].pc != Free
    requires s.tm == TmPoll && s.datagrams == [] && !s.ft.FtBoth? && !s.ft.FtSentNumber?
    ensures !m.Arrive? && !m.Handle? && Step(s, m) != s
  {
    assert GateInv(s, g);
    assert s.ft != FtDead && |Pipe(s)| % 2 == 0;
    assert Pipe(s) == [];
    if Waiting(s.gates[g]) && s.channels[g] != [] {
      m := Poll(g);
      assert Step(s, m).tm != s.tm;
    } else {
      m := GateStep(g);
      assert RunGate(s, g).gates[g] != s.gates[g];
    }
  }

  // ---- how long the plaza can be busy ----

  /** What is left to do, n being the number of gates: the packets a gate has still to read, and
      for every vehicle the steps it has still to cause. */
  function GateFuel(n: nat, packets: nat, r: Gate): int {
    packets - r.cursor
    + match r.pc
      case Free => 0
      case Came => 2 * n + 13
      case SentFd => 2 * n + 11
      case Answered(_) => 2
      case _ => 3
  }

  function GatesFuel(n: nat, packets: nat, gates: seq<Gate>): int {
    if gates == [] then 0 else GateFuel(n, packets, gates[0]) + GatesFuel(n, packets, gates[1..])
  }

  function ItemFuel(n: nat, item: Item): nat { if item.Fd? then 1 else 2 * n + 7 }

  function ChannelFuel(n: nat, c: seq<Item>): nat {
    if c == [] then 0 else ItemFuel(n, c[0]) + ChannelFuel(n, c[1..])
  }

  function ChannelsFuel(n: nat, cs: seq<seq<Item>>): nat {
    if cs == [] then 0 else ChannelFuel(n, cs[0]) + ChannelsFuel(n, cs[1..])
  }

  function DatagramFuel(n: nat, d: Datagram): nat { if d.Id? then 1 else 2 * n + 3 }

  function DatagramsFuel(n: nat, ds: seq<Datagram>): nat {
    if ds == [] then 0 else DatagramFuel(n, ds[0]) + DatagramsFuel(n, ds[1..])
  }

  function TmFuel(n: nat, tm: TmPc): nat {
    if tm.TmBoth? then 2 * n + 6 else if tm.TmSentId? then 2 * n + 4 else 0
  }

  function FtFuel(n: nat, ft: FtPc): nat {
    if ft.FtBoth? then 2 * n + 2 else if ft.FtSentNumber? then n + 1 else 0
  }

  function PendingFuel(t: Tally): nat { if t.pending then 1 else 0 }

  function Fuel(n: nat, s: State): int {
    GatesFuel(n, |s.log|, s.gates) + ChannelsFuel(n, s.channels) + TmFuel(n, s.tm) + DatagramsFuel(n, s.datagrams)
    + FtFuel(n, s.ft) + PendingFuel(s.two) + PendingFuel(s.four)
  }

  lemma {:induction false} GatesFuelUpdate(n: nat, packets: nat, gates: seq<Gate>, g: nat, r: Gate)
    requires g < |gates|
    ensures GatesFuel(n, packets, gates[g := r])
         == GatesFuel(n, packets, gates) - GateFuel(n, packets, gates[g]) + GateFuel(n, packets, r)
  {
    if g > 0 {
      assert gates[g := r][1..] == gates[1..][g - 1 := r];
      GatesFuelUpdate(n, packets, gates[1..], g - 1, r);
    } else {
      assert gates[g := r][1..] == gates[1..];
    }
  }

  /** One more packet is one more to read for every gate. */
  lemma {:induction false} GatesFuelLog(n: nat, packets: nat, gates: seq<Gate>)
    ensures GatesFuel(n, packets + 1, gates) == GatesFuel(n, packets, gates) + |gates|
  {
    if gates != [] {
      GatesFuelLog(n, packets, gates[1..]);
    }
  }

  lemma {:induction false} GatesFuelPositive(n: nat, packets: nat, gates: seq<Gate>)
    requires forall g: nat :: g < |gates| ==> gates[g].cursor <= packets
    ensures GatesFuel(n, packets, gates) >= 0
  {
    if gates != [] {
      assert forall g: nat :: g < |gates[1..]| ==> gates[1..][g] == gates[g + 1];
      GatesFuelPositive(n, packets, gates[1..]);
    }
  }

  lemma {:induction false} ChannelsFuelUpdate(n: nat, cs: seq<seq<Item>>, g: nat, c: seq<Item>)
    requires g < |cs|
    ensures ChannelsFuel(n, cs[g := c]) == ChannelsFuel(n, cs) - ChannelFuel(n, cs[g]) + ChannelFuel(n, c)
  {
    if g > 0 {
      assert cs[g := c][1..] == cs[1..][g - 1 := c];
      ChannelsFuelUpdate(n, cs[1..], g - 1, c);
    } else {
      assert cs[g := c][1..] == cs[1..];
    }
  }

  lemma {:induction false} ChannelFuelSend(n: nat, c: seq<Item>, item: Item)
    ensures ChannelFuel(n, c + [item]) == ChannelFuel(n, c) + ItemFuel(n, item)
  {
    if c == [] {
      assert c + [item] == [item] && [item][1..] == [];
    } else {
      assert (c + [item])[1..] == c[1..] + [item];
      ChannelFuelSend(n, c[1..], item);
    }
  }

  lemma {:induction false} DatagramsFuelSend(n: nat, ds: seq<Datagram>, d: Datagram)
    ensures DatagramsFuel(n, ds + [d]) == DatagramsFuel(n, ds) + DatagramFuel(n, d)
  {
    if ds == [] {
      assert ds + [d] == [d] && [d][1..] == [];
    } else {
      assert (ds + [d])[1..] == ds[1..] + [d];
      DatagramsFuelSend(n, ds[1..], d);
    }
  }

  /** A gate moves without touching its channel. */
  lemma GateFalls(n: nat, s: State, g: nat)
    requires |s.gates| == |s.channels| == n && g < n && !s.gates[g].pc.Came? && !s.gates[g].pc.SentFd?
    requires RunGate(s, g) != s
    ensures Fuel(n, RunGate(s, g)) < Fuel(n, s)
  {
    if s.gates[g].pc.Answered? { LastFalls(n, s, g); } else { ReadFalls(n, s, g); }
  }

  /** It reads a packet or tells the vehicle. */
  lemma ReadFalls(n: nat, s: State, g: nat)
    requires |s.gates| == |s.channels| == n && g < n
    requires Waiting(s.gates[g]) || s.gates[g].pc.Decided?
    requires RunGate(s, g) != s
    ensures Fuel(n, RunGate(s, g)) < Fuel(n, s)
  {
    var t := RunGate(s, g);
    var r := t.gates[g];
    assert t.gates == s.gates[g := r];
    assert GateFuel(n, |s.log|, r) < GateFuel(n, |s.log|, s.gates[g]);
    GatesFuelUpdate(n, |s.log|, s.gates, g, r);
  }

  /** It is done with its vehicle, and may signal. */
  lemma LastFalls(n: nat, s: State, g: nat)
    requires |s.gates| == |s.channels| == n && g < n && s.gates[g].pc.Answered?
    ensures Fuel(n, RunGate(s, g)) < Fuel(n, s)
  {
    GatesFuelUpdate(n, |s.log|, s.gates, g, s.gates[g].(pc := Free));
  }

  /** A gate passes something on. */
  lemma PassFalls(n: nat, s: State, g: nat)
    requires |s.gates| == |s.channels| == n && g < n && (s.gates[g].pc.Came? || s.gates[g].pc.SentFd?)
    requires RunGate(s, g) != s
    ensures Fuel(n, RunGate(s, g)) < Fuel(n, s)
  {
    var t := RunGate(s, g);
    var c := s.channels[g];
    var item := t.channels[g][|c|];
    assert t.channels == s.channels[g := c + [item]];
    GatesFuelUpdate(n, |s.log|, s.gates, g, t.gates[g]);
    ChannelsFuelUpdate(n, s.channels, g, c + [item]);
    ChannelFuelSend(n, c, item);
  }

  lemma PollFalls(n: nat, s: State, g: nat)
    requires |s.gates| == |s.channels| == n && Step(s, Poll(g)) != s
    ensures Fuel(n, Step(s, Poll(g))) < Fuel(n, s)
  {
    ChannelsFuelUpdate(n, s.channels, g, s.channels[g][1..]);
  }

  lemma TmFalls(n: nat, s: State)
    requires |s.gates| == |s.channels| == n && RunTm(s) != s
    ensures Fuel(n, RunTm(s)) < Fuel(n, s)
  {
    match s.tm
    case TmFd(g, _) => ChannelsFuelUpdate(n, s.channels, g, s.channels[g][1..]);
    case TmBoth(port, _) => DatagramsFuelSend(n, s.datagrams, Id(Tag(port)));
    case TmSentId(number) => DatagramsFuelSend(n, s.datagrams, No(number));
    case _ =>
  }

  lemma FtFalls(n: nat, s: State)
    requires |s.gates| == |s.channels| == n && RunFt(s) != s
    ensures Fuel(n, RunFt(s)) < Fuel(n, s)
  {
    GatesFuelLog(n, |s.log|, s.gates);
  }

  lemma ArriveRaises(n: nat, s: State, m: Move)
    requires |s.gates| == |s.channels| == n && m.Arrive? && Step(s, m) != s
    ensures Fuel(n, Step(s, m)) <= Fuel(n, s) + 2 * n + 13 && |Step(s, m).seen| == |s.seen| + 1
  {
    GatesFuelUpdate(n, |s.log|, s.gates, m.gate, Step(s, m).gates[m.gate]);
    assert Step(s, m).seen.Keys == s.seen.Keys + {m.number};
  }

  /** Every step that changes something, but for an arrival, leaves less to do. */
  lemma FuelFalls(n: nat, s: State, m: Move)
    requires |s.gates| == |s.channels| == n && !m.Arrive? && Step(s, m) != s
    ensures Fuel(n, Step(s, m)) < Fuel(n, s) && Step(s, m).seen == s.seen
  {
    match m
    case GateStep(g) =>
      if s.gates[g].pc.Came? || s.gates[g].pc.SentFd? { PassFalls(n, s, g); } else { GateFalls(n, s, g); }
    case Poll(g) => PollFalls(n, s, g);
    case TmStep => TmFalls(n, s);
    case FtStep => FtFalls(n, s);
    case Handle(_) =>
  }

  lemma {:induction false} StartFuel(n: nat, k: nat)
    requires k <= n
    ensures GatesFuel(n, 0, seq(k, _ => Gate(Free, 0, "", 0))) == 0 && ChannelsFuel(n, seq(k, _ => [])) == 0
  {
    if k > 0 {
      assert seq(k, _ => Gate(Free, 0, "", 0))[1..] == seq(k - 1, _ => Gate(Free, 0, "", 0));
      var none: seq<seq<Item>> := seq(k, _ => []);
      assert none[1..] == seq(k - 1, _ => []);
      StartFuel(n, k - 1);
    }
  }

  /** How many steps of a run changed something, arrivals apart. */
  function Work(n: nat, moves: seq<Move>): nat {
    if moves == [] then 0
    else
      var k := |moves| - 1;
      var s, m := Run(n, moves[..k]), moves[k];
      Work(n, moves[..k]) + (if m.Arrive? || Step(s, m) == s then 0 else 1)
  }

  lemma {:induction false} WorkBounded(n: nat, moves: seq<Move>)
    ensures Work(n, moves) + Fuel(n, Run(n, moves)) <= (2 * n + 13) * |Run(n, moves).seen|
  {
    if moves == [] {
      StartFuel(n, n);
    } else {
      var k := |moves| - 1;
      var s, m := Run(n, moves[..k]), moves[k];
      WorkBounded(n, moves[..k]);
      WorkStep(n, s, m, 2 * n + 13);
    }
  }

  lemma WorkStep(n: nat, s: State, m: Move, w: nat)
    requires |s.gates| == |s.channels| == n && w == 2 * n + 13
    ensures var t := Step(s, m);
      Fuel(n, t) + (if m.Arrive? || t == s then 0 else 1) - w * |t.seen| <= Fuel(n, s) - w * |s.seen|
  {
    if Step(s, m) != s {
      if m.Arrive? {
        ArriveRaises(n, s, m);
        OneMore(w, |s.seen|);
      } else {
        FuelFalls(n, s, m);
      }
    }
  }

  lemma OneMore(w: nat, k: nat)
    ensures w * (k + 1) == w * k + w
  {
  }

  /** With n gates, a run does at most 2n + 13 steps of work for each vehicle. */
  lemma RunsEnd(n: nat, moves: seq<Move>)
    ensures Work(n, moves) <= (2 * n + 13) * |Run(n, moves).seen|
  {
    WorkBounded(n, moves);
    RunInv(n, moves);
    FuelPositive(n, Run(n, moves));
  }

  lemma FuelPositive(n: nat, s: State)
    requires Inv(s)
    ensures Fuel(n, s) >= 0
  {
    forall g: nat | g < |s.gates| ensures s.gates[g].cursor <= |s.log| {
      assert GateInv(s, g);
    }
    GatesFuelPositive(n, |s.log|, s.gates);
  }

  // ---- nobody is forgotten ----

  predicate Told(answers: seq<Answer>, number: string) {
    exists k: nat :: k < |answers| && answers[k].number == number
  }

  predicate Untold(r: Gate, number: string) { r.pc != Free && !r.pc.Answered? && r.number == number }

  predicate AtGate(gates: seq<Gate>, number: string) {
    exists g: nat :: g < |gates| && Untold(gates[g], number)
  }

  /** A vehicle that has come is at a gate until it has been told. */
  ghost predicate Served(s: State) {
    forall number :: number in s.seen ==> Told(s.answers, number) || AtGate(s.gates, number)
  }

  lemma GateServed(s: State, g: nat)
    requires |s.gates| == |s.channels| && Served(s)
    ensures Served(RunGate(s, g))
  {
    var t := RunGate(s, g);
    if t != s {
      forall number | number in t.seen ensures Told(t.answers, number) || AtGate(t.gates, number) {
        if Told(s.answers, number) {
          var k: nat :| k < |s.answers| && s.answers[k].number == number;
          assert t.answers[k].number == number;
        } else {
          var h: nat :| h < |s.gates| && Untold(s.gates[h], number);
          if h == g && s.gates[g].pc.Decided? {
            assert t.answers[|s.answers|].number == number;
          } else {
            assert Untold(t.gates[h], number);
          }
        }
      }
    }
  }

  lemma ArriveServed(s: State, m: Move)
    requires |s.gates| == |s.channels| && Served(s) && m.Arrive?
    ensures Served(Step(s, m))
  {
    var t := Step(s, m);
    if t != s {
      forall number | number in t.seen ensures Told(t.answers, number) || AtGate(t.gates, number) {
        if number == m.number {
          assert Untold(t.gates[m.gate], number);
        } else if !Told(s.answers, number) {
          var h: nat :| h < |s.gates| && Untold(s.gates[h], number);
          assert t.gates[h] == s.gates[h];
        }
      }
    }
  }

  lemma {:induction false} RunServed(n: nat, moves: seq<Move>)
    ensures Served(Run(n, moves))
  {
    if moves != [] {
      var k := |moves| - 1;
      var s, m := Run(n, moves[..k]), moves[k];
      RunServed(n, moves[..k]);
      if m.Arrive? { ArriveServed(s, m); } else if m.GateStep? { GateServed(s, m.gate); } else {
        assert Step(s, m).seen == s.seen && Step(s, m).answers == s.answers && Step(s, m).gates == s.gates;
      }
    }
  }

  /** When nothing is left to do but to wait for the next vehicle, all gates are free and every
      vehicle that came has been told a verdict. */
  lemma QuietMeansServed(n: nat, s: State)
    requires Reachable(n, s) && forall m: Move :: !m.Arrive? && !m.Handle? ==> Step(s, m) == s
    ensures forall g: nat :: g < |s.gates| ==> s.gates[g].pc == Free
    ensures forall number :: number in s.seen ==> Told(s.answers, number)
  {
    forall g: nat | g < |s.gates| ensures s.gates[g].pc == Free {
      if s.gates[g].pc != Free {
        var m := BusyGateProgress(n, s, g);
      }
    }
    var moves :| Run(n, moves) == s;
    RunServed(n, moves);
  }

  // ---- when the counts fall short ----

  lemma ReachableStep(n: nat, s: State, m: Move)
    requires Reachable(n, s) && |s.gates| == |s.channels|
    ensures Reachable(n, Step(s, m))
  {
    var moves :| Run(n, moves) == s;
    assert (moves + [m])[..|moves|] == moves;
    assert Run(n, moves + [m]) == Step(s, m);
  }

  /** Nothing is going on, and gate 0 has read the whole broadcast. */
  predicate Idle(s: State) {
    && |s.gates| == |s.channels| > 0
    && s.gates[0].pc == Free && s.gates[0].cursor == |s.log| && s.channels[0] == []
    && s.tm == TmPoll && s.datagrams == [] && s.ft == FtIdle
  }

  const GOOD := Vehicle(0, true)

  function TallyOf(s: State, wheels: nat): Tally { if wheels == 0 then s.two else s.four }

  /** A vehicle with a good tag passes gate 0: it is handed on ... */
  lemma HandedOn(n: nat, s: State, number: string, wheels: nat) returns (t: State)
    requires Reachable(n, s) && Idle(s) && number !in s.seen && wheels <= 1
    ensures Reachable(n, t)
    ensures t == s.(gates := s.gates[0 := Gate(Wait1, |s.log|, number, wheels)],
                    channels := s.channels[0 := [Fd(GOOD), Num(number)]], seen := s.seen[number := GOOD])
  {
    var s1 := Step(s, Arrive(0, number, GOOD, wheels));
    ReachableStep(n, s, Arrive(0, number, GOOD, wheels));
    var s2 := Step(s1, GateStep(0));
    ReachableStep(n, s1, GateStep(0));
    t := Step(s2, GateStep(0));
    ReachableStep(n, s2, GateStep(0));
    assert t.channels[0] == [Fd(GOOD), Num(number)];
    assert t.channels == s.channels[0 := [Fd(GOOD), Num(number)]];
  }

  /** ... taken by the manager ... */
  lemma Taken(n: nat, s: State, number: string) returns (t: State)
    requires Reachable(n, s) && |s.gates| == |s.channels| > 0
    requires s.channels[0] == [Fd(GOOD), Num(number)] && s.tm == TmPoll
    ensures Reachable(n, t) && t == s.(channels := s.channels[0 := []], tm := TmBoth(GOOD, number))
  {
    var s1 := Step(s, Poll(0));
    ReachableStep(n, s, Poll(0));
    assert s.channels[0][1..] == [Num(number)];
    assert s1 == s.(channels := s.channels[0 := [Num(number)]], tm := TmFd(0, GOOD));
    t := Step(s1, TmStep);
    ReachableStep(n, s1, TmStep);
    assert s1.channels[0][1..] == [];
    assert t.channels == s.channels[0 := []];
  }

  /** ... passed on ... */
  lemma PassedOn(n: nat, s: State, number: string) returns (t: State)
    requires Reachable(n, s) && |s.gates| == |s.channels| && s.tm == TmBoth(GOOD, number) && s.datagrams == []
    ensures Reachable(n, t) && t == s.(tm := TmPoll, datagrams := [Id(0), No(number)])
  {
    var s1 := Step(s, TmStep);
    ReachableStep(n, s, TmStep);
    t := Step(s1, TmStep);
    ReachableStep(n, s1, TmStep);
    assert t.datagrams == [Id(0), No(number)];
  }

  /** ... judged ... */
  lemma Judged(n: nat, s: State, number: string) returns (t: State)
    requires Reachable(n, s) && |s.gates| == |s.channels| && s.datagrams == [Id(0), No(number)] && s.ft == FtIdle
    ensures Reachable(n, t) && t == s.(datagrams := [], log := s.log + [number, "1"])
  {
    var s1 := Step(s, FtStep);
    ReachableStep(n, s, FtStep);
    assert s1.datagrams == [No(number)];
    var s2 := Step(s1, FtStep);
    ReachableStep(n, s1, FtStep);
    var s3 := Step(s2, FtStep);
    ReachableStep(n, s2, FtStep);
    t := Step(s3, FtStep);
    ReachableStep(n, s3, FtStep);
    assert t.log == s.log + [number, "1"];
  }

  /** ... found in the broadcast ... */
  lemma Found(n: nat, s: State, number: string, wheels: nat) returns (t: State)
    requires Reachable(n, s) && |s.gates| == |s.channels| > 0 && |s.log| >= 2
    requires s.gates[0] == Gate(Wait1, |s.log| - 2, number, wheels) && s.log[|s.log| - 2..] == [number, "1"]
    ensures Reachable(n, t) && t == s.(gates := s.gates[0 := Gate(Decided(true), |s.log|, number, wheels)])
  {
    var s1 := Step(s, GateStep(0));
    ReachableStep(n, s, GateStep(0));
    assert s.log[|s.log| - 2] == s.log[|s.log| - 2..][0] && s.log[|s.log| - 1] == s.log[|s.log| - 2..][1];
    t := Step(s1, GateStep(0));
    ReachableStep(n, s1, GateStep(0));
    VerdictParses(true);
    assert t.gates == s.gates[0 := Gate(Decided(true), |s.log|, number, wheels)];
  }

  /** ... told, and signalled to the manager. */
  lemma Signalled(n: nat, s: State, number: string, wheels: nat) returns (t: State)
    requires Reachable(n, s) && |s.gates| == |s.channels| > 0
    requires s.gates[0] == Gate(Decided(true), |s.log|, number, wheels)
    ensures Reachable(n, t) && t.seen == s.seen && TallyOf(t, wheels) == Kill(TallyOf(s, wheels))
    ensures |t.gates| == |s.gates| && t.gates[0].pc == Free && t.gates[0].cursor == |s.log|
    ensures t.channels == s.channels && t.tm == s.tm && t.datagrams == s.datagrams && t.ft == s.ft && t.log == s.log
  {
    var s1 := Step(s, GateStep(0));
    ReachableStep(n, s, GateStep(0));
    t := Step(s1, GateStep(0));
    ReachableStep(n, s1, GateStep(0));
  }

  lemma OnePasses(n: nat, s: State, number: string, wheels: nat) returns (t: State)
    requires Reachable(n, s) && Idle(s) && number !in s.seen && wheels <= 1
    ensures Reachable(n, t) && Idle(t) && t.seen == s.seen[number := GOOD]
    ensures TallyOf(t, wheels) == Kill(TallyOf(s, wheels))
  {
    var s1 := HandedOn(n, s, number, wheels);
    var s2 := Taken(n, s1, number);
    var s3 := PassedOn(n, s2, number);
    var s4 := Judged(n, s3, number);
    var s5 := Found(n, s4, number, wheels);
    t := Signalled(n, s5, number, wheels);
  }

  ghost predicate CanLose(n: nat, wheels: nat) {
    exists s :: Reachable(n, s) && TallyOf(s, wheels).lost > 0
  }

  /** As soon as there is a gate, two vehicles of a kind that it approves before the manager has
      handled the first signal count as one. */
  lemma LossExactly(n: nat, wheels: nat)
    requires wheels <= 1
    ensures CanLose(n, wheels) <==> n >= 1
  {
    if n >= 1 {
      assert Run(n, []) == Start(n);
      var s := OnePasses(n, Start(n), "A", wheels);
      var t := OnePasses(n, s, "B", wheels);
    } else if s :| Reachable(n, s) && TallyOf(s, wheels).lost > 0 {
      ReachableInv(n, s);
      var moves :| Run(n, moves) == s;
      NoGatesNoAnswers(moves);
    }
  }

  lemma {:induction false} NoGatesNoAnswers(moves: seq<Move>)
    ensures Run(0, moves).answers == []
  {
    if moves != [] {
      NoGatesNoAnswers(moves[..|moves| - 1]);
    }
  }

  /** A count is exact when no signal of its kind is on the way and none has been lost. */
  lemma CountExactly(n: nat, s: State)
    requires Reachable(n, s)
    ensures s.two.count == Approved(s.answers, 0)
       <==> !s.two.pending && s.two.lost == 0 && Owing(s.gates, 0) == 0
    ensures s.four.count == Approved(s.answers, 1)
       <==> !s.four.pending && s.four.lost == 0 && Owing(s.gates, 1) == 0
  {
    CountersBounded(n, s);
  }

  // ---- every vehicle gets in and gets its verdict ----

  /** The state some moves later. */
  function After(s: State, moves: seq<Move>): (t: State)
    requires |s.gates| == |s.channels|
    ensures |t.gates| == |t.channels| == |s.gates|
    decreases |moves|
  {
    if moves == [] then s else After(Step(s, moves[0]), moves[1..])
  }

  lemma AfterFirst(s: State, m: Move, moves: seq<Move>)
    requires |s.gates| == |s.channels|
    ensures After(s, [m] + moves) == After(Step(s, m), moves)
  {
    assert ([m] + moves)[1..] == moves;
  }

  /** A free gate takes any vehicle that has not been there, whatever its tag. */
  lemma ArrivalTaken(s: State, g: nat, number: string, vehicle: Vehicle, wheels: nat)
    requires |s.gates| == |s.channels| && g < |s.gates| && s.gates[g].pc == Free && number !in s.seen && wheels <= 1
    ensures var t := Step(s, Arrive(g, number, vehicle, wheels));
      && t.gates[g].pc == Came && t.gates[g].number == number && t.gates[g].wheels == wheels
      && number in t.seen && t.seen[number] == vehicle && t.answers == s.answers
      && (forall other :: other in s.seen ==> other in t.seen && t.seen[other] == s.seen[other])
      && (forall h: nat :: h < |s.gates| && h != g ==> t.gates[h] == s.gates[h])
  {
  }

  /** A vehicle at a gate stays there as it is, or is told the verdict decided on. */
  predicate Stays(r: Gate, t: Gate) { Untold(t, r.number) && t.wheels == r.wheels }

  lemma StaysAtGate(s: State, g: nat)
    requires |s.gates| == |s.channels| && g < |s.gates| && s.gates[g].pc != Free && !s.gates[g].pc.Answered?
    ensures var t, r := RunGate(s, g), s.gates[g];
      if r.pc.Decided? then t.answers == s.answers + [Answer(r.number, r.wheels, r.pc.valid)]
      else Stays(r, t.gates[g]) && t.answers == s.answers
  {
  }

  lemma StaysElsewhere(s: State, m: Move, g: nat)
    requires |s.gates| == |s.channels| && g < |s.gates| && !m.Arrive? && m != GateStep(g)
    ensures Step(s, m).gates[g] == s.gates[g] && s.answers <= Step(s, m).answers
  {
  }

  lemma SeenKept(s: State, m: Move)
    requires |s.gates| == |s.channels| && !m.Arrive?
    ensures Step(s, m).seen == s.seen
  {
  }

  /** From any point of any run, a vehicle at a gate can be brought to its verdict. */
  lemma {:induction false} WillBeTold(n: nat, s: State, g: nat) returns (moves: seq<Move>)
    requires Reachable(n, s) && |s.gates| == |s.channels| == n && g < n
    requires s.gates[g].pc != Free && !s.gates[g].pc.Answered?
    ensures s.gates[g].number in s.seen
    ensures var r := s.gates[g];
      Answer(r.number, r.wheels, Valid(Tag(s.seen[r.number]))) in After(s, moves).answers
    decreases Fuel(n, s)
  {
    ReachableInv(n, s);
    assert GateInv(s, g);
    var r := s.gates[g];
    if r.pc.Decided? {
      StaysAtGate(s, g);
      moves := [GateStep(g)] + [];
      AfterFirst(s, GateStep(g), []);
    } else {
      var m := BusyGateProgress(n, s, g);
      var t := Step(s, m);
      FuelFalls(n, s, m);
      ReachableStep(n, s, m);
      ReachableInv(n, t);
      FuelPositive(n, t);
      SeenKept(s, m);
      if m == GateStep(g) { StaysAtGate(s, g); } else { StaysElsewhere(s, m, g); }
      assert Stays(r, t.gates[g]);
      var rest := WillBeTold(n, t, g);
      moves := [m] + rest;
      AfterFirst(s, m, rest);
    }
  }

  ghost predicate CanBeTold(s: State, arrival: Move, answer: Answer)
    requires |s.gates| == |s.channels|
  {
    exists moves :: moves != [] && moves[0] == arrival && answer in After(s, moves).answers
  }

  /** After any past, at every free gate, every new vehicle gets in and can be told, with its own
      number and wheels: valid if its port is readable and a multiple of three, invalid if not. */
  lemma EveryVehicleTold(n: nat, s: State, g: nat, number: string, vehicle: Vehicle, wheels: nat)
    requires Reachable(n, s) && |s.gates| == |s.channels| == n && g < n && s.gates[g].pc == Free
    requires number !in s.seen && wheels <= 1
    ensures CanBeTold(s, Arrive(g, number, vehicle, wheels),
                      Answer(number, wheels, vehicle.readable && vehicle.port % 3 == 0))
  {
    var m := Arrive(g, number, vehicle, wheels);
    var t := Step(s, m);
    ReachableStep(n, s, m);
    ArrivalTaken(s, g, number, vehicle, wheels);
    var rest := WillBeTold(n, t, g);
    VerdictOn(vehicle);
    ToldLater(s, m, rest, Answer(number, wheels, Valid(Tag(vehicle))));
  }

  lemma VerdictOn(v: Vehicle)
    ensures Valid(Tag(v)) <==> v.readable && v.port % 3 == 0
  {
  }

  lemma ToldLater(s: State, m: Move, rest: seq<Move>, answer: Answer)
    requires |s.gates| == |s.channels| && answer in After(Step(s, m), rest).answers
    ensures CanBeTold(s, m, answer)
  {
    AfterFirst(s, m, rest);
    assert ([m] + rest)[0] == m;
  }
}
