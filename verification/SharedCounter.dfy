/** The two processes of 12-1-22/q4, which take turns on two shared cells through two
    semaphores. Every access to a cell or a semaphore is one step; both initial stores have
    happened, and both semaphores start at 0. */
module SharedCounter {

  datatype Pc1 = ReadY | WriteX(t: int) | PostS1 | TestX | WaitS2 | Stopped1
  datatype Pc2 = TestLimit | WaitS1 | ReadX | WriteY(t: int) | PostS2 | Stopped2

  datatype State = State(x: int, y: int, s1: nat, s2: nat, pc1: Pc1, pc2: Pc2)

  const Init := State(1, 1, 0, 0, ReadY, TestLimit)

  predicate Enabled1(s: State) {
    s.pc1 != Stopped1 && (s.pc1 == WaitS2 ==> s.s2 > 0)
  }

  predicate Enabled2(s: State) {
    s.pc2 != Stopped2 && (s.pc2 == WaitS1 ==> s.s1 > 0)
  }

  /** One step of p1.c; a blocked or stopped process stays put. */
  function Step1(limit: int, s: State): State {
    if !Enabled1(s) then s else
    match s.pc1
    case ReadY => s.(pc1 := WriteX(s.y))
    case WriteX(t) => s.(x := t + 1, pc1 := PostS1)
    case PostS1 => s.(s1 := s.s1 + 1, pc1 := TestX)
    case TestX => s.(pc1 := if s.x >= limit then Stopped1 else WaitS2)
    case WaitS2 => s.(s2 := s.s2 - 1, pc1 := ReadY)
    case Stopped1 => s
  }

  /** One step of p2.c. */
  function Step2(limit: int, s: State): State {
    if !Enabled2(s) then s else
    match s.pc2
    case TestLimit => s.(pc2 := if s.x >= limit then Stopped2 else WaitS1)
    case WaitS1 => s.(s1 := s.s1 - 1, pc2 := ReadX)
    case ReadX => s.(pc2 := WriteY(s.x))
    case WriteY(t) => s.(y := t + 1, pc2 := PostS2)
    case PostS2 => s.(s2 := s.s2 + 1, pc2 := TestLimit)
    case Stopped2 => s
  }

  function Step(limit: int, s: State, p1: bool): State {
    if p1 then Step1(limit, s) else Step2(limit, s)
  }

  /** A run: who moves at each instant, true for p1. */
  function Run(limit: int, schedule: seq<bool>): State {
    if schedule == [] then Init
    else
      var n := |schedule| - 1;
      Step(limit, Run(limit, schedule[..n]), schedule[n])
  }

  ghost predicate Reachable(limit: int, s: State) {
    exists schedule :: Run(limit, schedule) == s
  }

  /** The stretches of code that read one cell and write the other. */
  predicate Writing1(s: State) { s.pc1.ReadY? || s.pc1.WriteX? || s.pc1.PostS1? }
  predicate Writing2(s: State) { s.pc2.ReadX? || s.pc2.WriteY? || s.pc2.PostS2? }

  /** The right to write: with p1, with p2, or posted to one of them. */
  function Turns(s: State): nat {
    (if Writing1(s) then 1 else 0) + s.s1 + (if Writing2(s) then 1 else 0) + s.s2
  }

  ghost predicate Inv(limit: int, s: State) {
    && Turns(s) == 1
    && ((s.x == 1 && s.y == 1 && Writing1(s) && !s.pc1.PostS1?) || (s.x >= 2 && s.x % 2 == 0))
    && (s.x > 2 ==> s.x - 2 < limit)
    && (s.pc1.ReadY? || s.pc1.WriteX? ==> (s.x == 1 && s.y == 1) || (s.y == s.x + 1 && s.x < limit))
    && (s.pc1.WriteX? ==> s.pc1.t == s.y)
    && (s.pc1.PostS1? || s.s1 == 1 || s.pc2.ReadX? || s.pc2.WriteY? ==> s.y == s.x - 1)
    && (s.pc2.WriteY? ==> s.pc2.t == s.x)
    && (s.pc2.PostS2? || s.s2 == 1 ==> s.y == s.x + 1)
    && (s.pc1.WaitS2? ==> s.x < limit)
    && (s.pc1.Stopped1? ==> s.x >= limit)
    && (s.pc2.Stopped2? ==> s.x >= limit)
    && (s.pc2.WaitS1? && s.s2 == 1 ==> s.x < limit)
    && (limit <= 1 ==> s.s2 == 0 && (s.pc2.TestLimit? || s.pc2.Stopped2?))
  }

  lemma Step1Inv(limit: int, s: State)
    requires Inv(limit, s)
    ensures Inv(limit, Step1(limit, s))
  {
  }

  lemma Step2Inv(limit: int, s: State)
    requires Inv(limit, s)
    ensures Inv(limit, Step2(limit, s))
  {
  }

  lemma {:induction false} RunInv(limit: int, schedule: seq<bool>)
    ensures Inv(limit, Run(limit, schedule))
  {
    if schedule != [] {
      var before := schedule[..|schedule| - 1];
      RunInv(limit, before);
      Step1Inv(limit, Run(limit, before));
      Step2Inv(limit, Run(limit, before));
    }
  }

  lemma ReachableInv(limit: int, s: State)
    requires Reachable(limit, s)
    ensures Inv(limit, s)
  {
    var schedule :| Run(limit, schedule) == s;
    RunInv(limit, schedule);
  }

  lemma ReachableStep(limit: int, s: State, p1: bool)
    requires Reachable(limit, s)
    ensures Reachable(limit, Step(limit, s, p1))
  {
    var schedule :| Run(limit, schedule) == s;
    assert (schedule + [p1])[..|schedule|] == schedule;
    assert Run(limit, schedule + [p1]) == Step(limit, s, p1);
  }

  /** In no run are both processes in their writing stretch. */
  lemma NeverBothWriting(limit: int, s: State)
    requires Reachable(limit, s)
    ensures !(Writing1(s) && Writing2(s))
  {
    ReachableInv(limit, s);
  }

  predicate Finished(s: State) { s.pc1 == Stopped1 && s.pc2 == Stopped2 }

  /** No run gets stuck before both have stopped. */
  lemma NoDeadlock(limit: int, s: State)
    requires Reachable(limit, s)
    ensures Finished(s) || Enabled1(s) || Enabled2(s)
  {
    ReachableInv(limit, s);
  }

  predicate EvenBound(limit: int, e: int) {
    e % 2 == 0 && e >= 2 && e >= limit
  }

  /** The least even number that is at least 2 and at least the limit. */
  function LeastEven(limit: int): (e: int)
    ensures EvenBound(limit, e)
    ensures forall d :: EvenBound(limit, d) ==> e <= d
  {
    if limit <= 2 then 2 else limit + limit % 2
  }

  /** Every finished run ends with the same x and one of two values of y; only with a limit
      that x does not meet from the start can y be the larger one. */
  lemma FinalValues(limit: int, s: State)
    requires Reachable(limit, s) && Finished(s)
    ensures s.x == LeastEven(limit) && (s.y == s.x - 1 || (limit >= 2 && s.y == s.x + 1))
  {
    ReachableInv(limit, s);
  }

  /** Steps left at most; every step of an enabled process uses one up. */
  function Fuel(limit: int, s: State): int {
    5 * (2 * LeastEven(limit) + 1 - s.x - s.y)
    + (match s.pc1 case PostS1 => 4 case TestX => 3 case WaitS2 => 2 case ReadY => 1 case _ => 0)
    + (match s.pc2 case PostS2 => 4 case TestLimit => 3 case WaitS1 => 2 case ReadX => 1 case _ => 0)
  }

  lemma FuelFalls(limit: int, s: State)
    requires Inv(limit, s)
    ensures Fuel(limit, s) >= 0
    ensures Enabled1(s) ==> Fuel(limit, Step1(limit, s)) < Fuel(limit, s)
    ensures Enabled2(s) ==> Fuel(limit, Step2(limit, s)) < Fuel(limit, s)
  {
    FuelFalls1(limit, s);
    FuelFalls2(limit, s);
  }

  lemma FuelFalls1(limit: int, s: State)
    requires Inv(limit, s)
    ensures Enabled1(s) ==> Fuel(limit, Step1(limit, s)) < Fuel(limit, s)
  {
    Step1Inv(limit, s);
  }

  lemma FuelFalls2(limit: int, s: State)
    requires Inv(limit, s)
    ensures Enabled2(s) ==> Fuel(limit, Step2(limit, s)) < Fuel(limit, s)
  {
    Step2Inv(limit, s);
  }

  /** Any scheduler that keeps choosing a process able to move drives both to their end:
      termination, freedom from deadlock and the final values in one loop. */
  method RunToEnd(limit: int) returns (x: int, y: int)
    ensures x == LeastEven(limit) && (y == x - 1 || (limit >= 2 && y == x + 1))
  {
    var s := Init;
    while !Finished(s)
      invariant Inv(limit, s)
      decreases Fuel(limit, s)
    {
      Step1Inv(limit, s);
      Step2Inv(limit, s);
      FuelFalls(limit, s);
      if
      case Enabled1(s) => s := Step1(limit, s);
      case Enabled2(s) => s := Step2(limit, s);
    }
    x, y := s.x, s.y;
  }

  lemma Go(limit: int, s: State, p1: bool, t: State)
    requires Reachable(limit, s) && Step(limit, s, p1) == t
    ensures Reachable(limit, t)
  {
    ReachableStep(limit, s, p1);
  }

  /** p1 has just made x == e and posted; p2 has yet to test x, or has tested it and waits. */
  function Posted(e: int, pc2: Pc2): State { State(e, e - 1, 1, 0, TestX, pc2) }

  lemma P1Writes(limit: int, x: int, y: int, pc2: Pc2)
    requires Reachable(limit, State(x, y, 0, 0, ReadY, pc2))
    ensures Reachable(limit, Posted(y + 1, pc2))
  {
    Go(limit, State(x, y, 0, 0, ReadY, pc2), true, State(x, y, 0, 0, WriteX(y), pc2));
    Go(limit, State(x, y, 0, 0, WriteX(y), pc2), true, State(y + 1, y, 0, 0, PostS1, pc2));
    Go(limit, State(y + 1, y, 0, 0, PostS1, pc2), true, Posted(y + 1, pc2));
  }

  /** p2 writes e + 1, with p1 anywhere. */
  lemma P2Writes(limit: int, e: int, pc1: Pc1)
    requires Reachable(limit, State(e, e - 1, 1, 0, pc1, WaitS1))
    ensures Reachable(limit, State(e, e + 1, 0, 1, pc1, TestLimit))
  {
    Go(limit, State(e, e - 1, 1, 0, pc1, WaitS1), false, State(e, e - 1, 0, 0, pc1, ReadX));
    Go(limit, State(e, e - 1, 0, 0, pc1, ReadX), false, State(e, e - 1, 0, 0, pc1, WriteY(e)));
    Go(limit, State(e, e - 1, 0, 0, pc1, WriteY(e)), false, State(e, e + 1, 0, 0, pc1, PostS2));
    Go(limit, State(e, e + 1, 0, 0, pc1, PostS2), false, State(e, e + 1, 0, 1, pc1, TestLimit));
  }

  /** One round: p2 may test x before p1's next write, or after it. */
  lemma Round(limit: int, e: int)
    requires e < limit && Reachable(limit, Posted(e, TestLimit))
    ensures Reachable(limit, Posted(e + 2, TestLimit)) && Reachable(limit, Posted(e + 2, WaitS1))
  {
    Go(limit, Posted(e, TestLimit), true, State(e, e - 1, 1, 0, WaitS2, TestLimit));
    Go(limit, State(e, e - 1, 1, 0, WaitS2, TestLimit), false, State(e, e - 1, 1, 0, WaitS2, WaitS1));
    P2Writes(limit, e, WaitS2);
    Go(limit, State(e, e + 1, 0, 1, WaitS2, TestLimit), true, State(e, e + 1, 0, 0, ReadY, TestLimit));
    P1Writes(limit, e, e + 1, TestLimit);
    Go(limit, State(e, e + 1, 0, 0, ReadY, TestLimit), false, State(e, e + 1, 0, 0, ReadY, WaitS1));
    P1Writes(limit, e, e + 1, WaitS1);
  }

  lemma {:induction false} Rounds(limit: int, e: int)
    requires e >= 2 && e % 2 == 0 && (e > 2 ==> e - 2 < limit)
    ensures Reachable(limit, Posted(e, TestLimit)) && (limit >= 2 ==> Reachable(limit, Posted(e, WaitS1)))
    decreases e
  {
    if e == 2 {
      assert Run(limit, []) == Init;
      P1Writes(limit, 1, 1, TestLimit);
      if limit >= 2 {
        Go(limit, Init, false, State(1, 1, 0, 0, ReadY, WaitS1));
        P1Writes(limit, 1, 1, WaitS1);
      }
    } else {
      Rounds(limit, e - 2);
      Round(limit, e - 2);
    }
  }

  /** For every limit: the smaller final y is always possible, the larger one exactly when the
      limit is at least 2. It depends on whether p2 tests x before or after p1's last write. */
  lemma OutcomesExactly(limit: int)
    ensures exists s :: Reachable(limit, s) && Finished(s) && s.y == LeastEven(limit) - 1
    ensures (exists s :: Reachable(limit, s) && Finished(s) && s.y == LeastEven(limit) + 1) <==> limit >= 2
  {
    var e := LeastEven(limit);
    Rounds(limit, e);
    Go(limit, Posted(e, TestLimit), true, State(e, e - 1, 1, 0, Stopped1, TestLimit));
    Go(limit, State(e, e - 1, 1, 0, Stopped1, TestLimit), false, State(e, e - 1, 1, 0, Stopped1, Stopped2));
    assert Finished(State(e, e - 1, 1, 0, Stopped1, Stopped2));
    if limit >= 2 {
      Go(limit, Posted(e, WaitS1), true, State(e, e - 1, 1, 0, Stopped1, WaitS1));
      P2Writes(limit, e, Stopped1);
      Go(limit, State(e, e + 1, 0, 1, Stopped1, TestLimit), false, State(e, e + 1, 0, 1, Stopped1, Stopped2));
      assert Finished(State(e, e + 1, 0, 1, Stopped1, Stopped2));
    } else if s :| Reachable(limit, s) && Finished(s) && s.y == e + 1 {
      FinalValues(limit, s);
    }
  }

  /** No run takes more than so many steps that change anything. */
  lemma {:induction false} RunsEnd(limit: int, schedule: seq<bool>)
    requires forall k: nat :: k < |schedule| ==> Run(limit, schedule[..k]) != Run(limit, schedule[..k + 1])
    ensures |schedule| + Fuel(limit, Run(limit, schedule)) <= Fuel(limit, Init)
    ensures |schedule| <= Fuel(limit, Init)
  {
    if schedule == [] {
      FuelFalls(limit, Init);
    } else {
      var n := |schedule| - 1;
      var before := schedule[..n];
      assert forall k: nat :: k <= n ==> before[..k] == schedule[..k];
      RunsEnd(limit, before);
      RunInv(limit, before);
      assert schedule[..n + 1] == schedule;
      FuelFalls(limit, Run(limit, before));
      RunInv(limit, schedule);
      FuelFalls(limit, Run(limit, schedule));
    }
  }
}
