/** A System V message queue read by type, as `msgsnd` and `msgrcv` with a positive type
    use it: messages stay in sending order and a receive takes the first of its type. */
module TypedQueue {

  datatype Msg<T> = Msg(mtype: nat, body: T)

  /** The bodies of the messages of one type, in sending order. */
  function OfType<T>(q: seq<Msg<T>>, t: nat): seq<T> {
    if q == [] then []
    else (if q[0].mtype == t then [q[0].body] else []) + OfType(q[1..], t)
  }

  function Send<T>(q: seq<Msg<T>>, t: nat, body: T): seq<Msg<T>> {
    q + [Msg(t, body)]
  }

  /** Index of the message a receive of type t would take. */
  function First<T>(q: seq<Msg<T>>, t: nat): (i: nat)
    requires OfType(q, t) != []
    ensures i < |q| && q[i].mtype == t && q[i].body == OfType(q, t)[0]
  {
    if q[0].mtype == t then 0 else 1 + First(q[1..], t)
  }

  function Receive<T>(q: seq<Msg<T>>, t: nat): (r: (T, seq<Msg<T>>))
    requires OfType(q, t) != []
    ensures r.0 == OfType(q, t)[0]
  {
    var i := First(q, t);
    (q[i].body, q[..i] + q[i + 1..])
  }

  /** A send appends to its own type and touches no other. */
  lemma {:induction false} SendOfType<T>(q: seq<Msg<T>>, t: nat, body: T, u: nat)
    ensures OfType(Send(q, t, body), u) == OfType(q, u) + (if t == u then [body] else [])
  {
    if q == [] {
      assert Send(q, t, body) == [Msg(t, body)] && [Msg(t, body)][1..] == [];
    } else {
      var h, tail := if q[0].mtype == u then [q[0].body] else [], if t == u then [body] else [];
      var sent := Send(q, t, body);
      assert sent[0] == q[0] && sent[1..] == Send(q[1..], t, body);
      SendOfType(q[1..], t, body, u);
      assert h + (OfType(q[1..], u) + tail) == (h + OfType(q[1..], u)) + tail;
    }
  }

  /** A receive removes the head of its own type and touches no other. */
  lemma {:induction false} ReceiveOfType<T>(q: seq<Msg<T>>, t: nat, u: nat)
    requires OfType(q, t) != []
    ensures OfType(Receive(q, t).1, u) == if t == u then OfType(q, t)[1..] else OfType(q, u)
  {
    var rest := Receive(q, t).1;
    if q[0].mtype == t {
      assert rest == q[1..];
    } else {
      ReceiveOfType(q[1..], t, u);
      assert rest == [q[0]] + Receive(q[1..], t).1;
      assert rest[1..] == Receive(q[1..], t).1;
    }
  }
}
