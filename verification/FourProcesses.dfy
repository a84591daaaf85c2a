/** The four processes of the two signal exercises: their pids, and what a message queue they
    share holds for each of them. */
module FourProcesses {
  import opened TypedQueue

  /** The four pids. */
  datatype Ids = Ids(p1: int, p2: int, p3: int, p4: int)

  predicate Distinct(ids: Ids) {
    && ids.p1 > 0 && ids.p2 > 0 && ids.p3 > 0 && ids.p4 > 0
    && ids.p1 != ids.p2 && ids.p1 != ids.p3 && ids.p1 != ids.p4
    && ids.p2 != ids.p3 && ids.p2 != ids.p4 && ids.p3 != ids.p4
  }

  function If(c: bool, x: int): seq<int> { if c then [x] else [] }

  /** A send, seen at each of the five types in use. */
  lemma SendAll(q: seq<Msg<int>>, t: nat, body: int)
    ensures OfType(Send(q, t, body), 1) == OfType(q, 1) + If(t == 1, body)
    ensures OfType(Send(q, t, body), 2) == OfType(q, 2) + If(t == 2, body)
    ensures OfType(Send(q, t, body), 3) == OfType(q, 3) + If(t == 3, body)
    ensures OfType(Send(q, t, body), 4) == OfType(q, 4) + If(t == 4, body)
    ensures OfType(Send(q, t, body), 18) == OfType(q, 18) + If(t == 18, body)
  {
    SendOfType(q, t, body, 1);
    SendOfType(q, t, body, 2);
    SendOfType(q, t, body, 3);
    SendOfType(q, t, body, 4);
    SendOfType(q, t, body, 18);
  }

  /** What a receive of type t leaves of type u. */
  function Left(q: seq<Msg<int>>, t: nat, u: nat): seq<int>
    requires OfType(q, t) != []
  {
    if t == u then OfType(q, t)[1..] else OfType(q, u)
  }

  lemma ReceiveAll(q: seq<Msg<int>>, t: nat)
    requires OfType(q, t) != []
    ensures OfType(Receive(q, t).1, 1) == Left(q, t, 1)
    ensures OfType(Receive(q, t).1, 2) == Left(q, t, 2)
    ensures OfType(Receive(q, t).1, 3) == Left(q, t, 3)
    ensures OfType(Receive(q, t).1, 4) == Left(q, t, 4)
    ensures OfType(Receive(q, t).1, 18) == Left(q, t, 18)
  {
    ReceiveOfType(q, t, 1);
    ReceiveOfType(q, t, 2);
    ReceiveOfType(q, t, 3);
    ReceiveOfType(q, t, 4);
    ReceiveOfType(q, t, 18);
  }
}
