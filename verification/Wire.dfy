/** The RPC header of endlab/rpc.h as the two stubs marshal it: C integers cut to 16 bits by
    `htons`, stored as 32-bit little-endian fields of a packet, and read back by `ntohs`. */
module Wire {

  import opened Machine

  /** Conversion to an unsigned 16-bit type: 65536 is added or subtracted until the value fits. */
  function Low16(x: int): (w: nat)
    ensures w < 0x1_0000
    decreases if x < 0 then 0x1_0000 - x else x
  {
    if x < 0 then Low16(x + 0x1_0000) else if x < 0x1_0000 then x else Low16(x - 0x1_0000)
  }

  lemma {:induction false} Low16IsMod(x: int)
    ensures Low16(x) == x % 0x1_0000
    decreases if x < 0 then 0x1_0000 - x else x
  {
    if x < 0 {
      Low16IsMod(x + 0x1_0000);
      ModShift(x, 1);
    } else if x >= 0x1_0000 {
      Low16IsMod(x - 0x1_0000);
      ModShift(x - 0x1_0000, 1);
    }
  }

  lemma ModShift(r: int, q: int)
    ensures (r + 0x1_0000 * q) % 0x1_0000 == r % 0x1_0000
  {
    assert r + 0x1_0000 * q == 0x1_0000 * (r / 0x1_0000 + q) + r % 0x1_0000;
  }

  /** `htons` and `ntohs` take a 16-bit argument, so an int is cut first. */
  function Htons(x: int): (r: nat)
    ensures r < 0x1_0000
  {
    Swap16(Low16(x))
  }

  /** A value that goes out through `htons` and in through `ntohs` keeps its low 16 bits. */
  lemma SwapTwice(x: int)
    ensures Htons(Htons(x)) == Low16(x)
  {
    var w := Low16(x);
    Halves(w / 256, w % 256);
    Halves(w % 256, w / 256);
  }

  lemma Halves(hi: nat, lo: nat)
    requires hi < 256 && lo < 256
    ensures (hi * 256 + lo) / 256 == hi && (hi * 256 + lo) % 256 == lo && hi * 256 + lo < 0x1_0000
  {
  }

  /** `struct rpc_hdr`. */
  datatype Hdr = Hdr(name: seq<Byte>, opcode: int, returnVal: int, arg1: int, arg2: int)

  const ADD: seq<Byte> := [97, 100, 100]
  const SUBTRACT: seq<Byte> := [115, 117, 98, 116, 114, 97, 99, 116]

  /** The Ethernet, IP and TCP headers come first; then `char function_name[10]`, two bytes of
      padding and four ints. */
  const RPC := 54
  const NAME_SIZE := 10
  const OPCODE := RPC + 12
  const RETURN_VAL := RPC + 16
  const ARG1 := RPC + 20
  const ARG2 := RPC + 24
  const PACKET := RPC + 28

  predicate CString(name: seq<Byte>) {
    |name| < NAME_SIZE && forall i :: 0 <= i < |name| ==> name[i] != 0
  }

  function Size(n: nat): (r: nat)
    ensures r > 0
  {
    if n == 0 then 1 else 256 * Size(n - 1)
  }

  /** The n low bytes of u, least significant first, and their value. */
  function Store(b: seq<Byte>, at: nat, u: nat, n: nat): (r: seq<Byte>)
    requires at + n <= |b|
    ensures |r| == |b|
    ensures forall i :: 0 <= i < |b| && !(at <= i < at + n) ==> r[i] == b[i]
    decreases n
  {
    if n == 0 then b else Store(b[at := u % 256], at + 1, u / 256, n - 1)
  }

  function Load(b: seq<Byte>, at: nat, n: nat): (u: nat)
    requires at + n <= |b|
    ensures u < Size(n)
    decreases n
  {
    if n == 0 then 0 else b[at] as nat + 256 * Load(b, at + 1, n - 1)
  }

  lemma {:induction false} LoadStore(b: seq<Byte>, at: nat, u: nat, n: nat)
    requires at + n <= |b| && u < Size(n)
    ensures Load(Store(b, at, u, n), at, n) == u
    decreases n
  {
    if n != 0 {
      LoadStore(b[at := u % 256], at + 1, u / 256, n - 1);
    }
  }

  lemma {:induction false} LoadSame(b: seq<Byte>, c: seq<Byte>, at: nat, n: nat)
    requires at + n <= |b| == |c| && forall i :: at <= i < at + n ==> b[i] == c[i]
    ensures Load(b, at, n) == Load(c, at, n)
    decreases n
  {
    if n != 0 {
      LoadSame(b, c, at + 1, n - 1);
    }
  }

  lemma FourBytes()
    ensures Size(4) == 0x1_0000_0000
  {
    assert Size(1) == 256 && Size(2) == 0x1_0000 && Size(3) == 0x100_0000;
  }

  /** Storing and loading an `int` field, in two's complement. */
  function Put(b: seq<Byte>, at: nat, x: int): (r: seq<Byte>)
    requires at + 4 <= |b|
    ensures |r| == |b|
    ensures forall i :: 0 <= i < |b| && !(at <= i < at + 4) ==> r[i] == b[i]
  {
    Store(b, at, x % 0x1_0000_0000, 4)
  }

  function Get(b: seq<Byte>, at: nat): (x: int)
    requires at + 4 <= |b|
    ensures Int32(x)
  {
    FourBytes();
    var u := Load(b, at, 4);
    if u < 0x8000_0000 then u else u - 0x1_0000_0000
  }

  lemma GetPut(b: seq<Byte>, at: nat, x: int)
    requires at + 4 <= |b| && Int32(x)
    ensures Get(Put(b, at, x), at) == x
  {
    FourBytes();
    LoadStore(b, at, x % 0x1_0000_0000, 4);
  }

  lemma GetSame(b: seq<Byte>, c: seq<Byte>, at: nat)
    requires at + 4 <= |b| == |c| && forall i :: at <= i < at + 4 ==> b[i] == c[i]
    ensures Get(b, at) == Get(c, at)
  {
    LoadSame(b, c, at, 4);
  }

  /** A stored field reads back as long as its four bytes are left alone. */
  lemma PutSticks(b: seq<Byte>, at: nat, x: int, f: seq<Byte>)
    requires at + 4 <= |b| == |f| && Int32(x) && forall i :: at <= i < at + 4 ==> f[i] == Put(b, at, x)[i]
    ensures Get(f, at) == x
  {
    GetPut(b, at, x);
    GetSame(Put(b, at, x), f, at);
  }

  /** In the packet a converted value stands in network byte order, its high byte first; the
      upper half of the 32-bit field is zero. */
  lemma NetworkOrder(b: seq<Byte>, at: nat, x: int)
    requires at + 4 <= |b|
    ensures var r := Put(b, at, Htons(x));
            r[at] == Low16(x) / 256 && r[at + 1] == Low16(x) % 256 && r[at + 2] == 0 && r[at + 3] == 0
  {
    var w := Low16(x);
    var u := Htons(x);
    Halves(w % 256, w / 256);
    assert u % 256 == w / 256 && u / 256 == w % 256;
    assert u % 0x1_0000_0000 == u;
    StoredLow(b, at, u);
  }

  lemma StoredLow(b: seq<Byte>, at: nat, u: nat)
    requires at + 4 <= |b| && u < 0x1_0000
    ensures var r := Store(b, at, u, 4);
            r[at] == u % 256 && r[at + 1] == u / 256 && r[at + 2] == 0 && r[at + 3] == 0
  {
    var c := b[at := u % 256];
    var d := c[at + 1 := u / 256];
    StoreByte(b, at, u, 4);
    StoreByte(c, at + 1, u / 256, 3);
    StoreByte(d, at + 2, 0, 2);
    StoreByte(d[at + 2 := 0], at + 3, 0, 1);
  }

  /** The first byte stored, and the rest. */
  lemma StoreByte(b: seq<Byte>, at: nat, u: nat, n: nat)
    requires n >= 1 && at + n <= |b|
    ensures Store(b, at, u, n)[at] == u % 256
    ensures Store(b, at, u, n) == Store(b[at := u % 256], at + 1, u / 256, n - 1)
  {
  }

  /** `strcpy` into the name field. */
  function PutName(b: seq<Byte>, name: seq<Byte>): (r: seq<Byte>)
    requires |b| == PACKET && CString(name)
    ensures |r| == PACKET
  {
    b[..RPC] + name + [0] + b[RPC + |name| + 1..]
  }

  /** The name field up to its terminator. */
  function GetName(b: seq<Byte>, at: nat): (name: seq<Byte>)
    requires at <= |b|
    decreases |b| - at
  {
    if at == |b| || b[at] == 0 then [] else [b[at]] + GetName(b, at + 1)
  }

  lemma {:induction false} GetNameOf(b: seq<Byte>, at: nat, name: seq<Byte>)
    requires at + |name| < |b| && b[at..at + |name|] == name && b[at + |name|] == 0
    requires forall i :: 0 <= i < |name| ==> name[i] != 0
    ensures GetName(b, at) == name
    decreases |name|
  {
    if name != [] {
      assert b[at] == name[0];
      assert b[at + 1..at + 1 + |name[1..]|] == name[1..];
      GetNameOf(b, at + 1, name[1..]);
    }
  }

  lemma NameSticks(b: seq<Byte>, name: seq<Byte>, f: seq<Byte>)
    requires |b| == |f| == PACKET && CString(name)
    requires forall i :: 0 <= i < OPCODE ==> f[i] == PutName(b, name)[i]
    ensures GetName(f, RPC) == name
  {
    var p := PutName(b, name);
    assert p[RPC..RPC + |name|] == name && p[RPC + |name|] == 0;
    assert f[RPC..RPC + |name|] == p[RPC..RPC + |name|];
    GetNameOf(f, RPC, name);
  }

  function Numbered(b: seq<Byte>, msg: Hdr, reply: bool): (r: seq<Byte>)
    requires |b| == PACKET
    ensures |r| == PACKET && forall i :: 0 <= i < OPCODE ==> r[i] == b[i]
  {
    var h := Put(Put(Put(b, OPCODE, msg.opcode), ARG1, msg.arg1), ARG2, msg.arg2);
    if reply then Put(h, RETURN_VAL, msg.returnVal) else h
  }

  /** What `send_pcap_packet` leaves in the packet; the client's does not write `return_val`. */
  function Filled(b: seq<Byte>, msg: Hdr, reply: bool): (r: seq<Byte>)
    requires |b| == PACKET && CString(msg.name)
    ensures |r| == PACKET
  {
    Numbered(PutName(b, msg.name), msg, reply)
  }

  /** What `extract_rpc` reads. */
  function Extracted(b: seq<Byte>): Hdr
    requires |b| == PACKET
  {
    Hdr(GetName(b, RPC), Htons(Get(b, OPCODE)), Htons(Get(b, RETURN_VAL)), Htons(Get(b, ARG1)), Htons(Get(b, ARG2)))
  }

  lemma FieldsStick(b1: seq<Byte>, msg: Hdr, reply: bool, f: seq<Byte>)
    requires |b1| == PACKET && f == Numbered(b1, msg, reply)
    requires Int32(msg.opcode) && Int32(msg.arg1) && Int32(msg.arg2) && (reply ==> Int32(msg.returnVal))
    ensures Get(f, OPCODE) == msg.opcode && Get(f, ARG1) == msg.arg1 && Get(f, ARG2) == msg.arg2
    ensures reply ==> Get(f, RETURN_VAL) == msg.returnVal
  {
    var b2 := Put(b1, OPCODE, msg.opcode);
    var b3 := Put(b2, ARG1, msg.arg1);
    var b4 := Put(b3, ARG2, msg.arg2);
    PutSticks(b1, OPCODE, msg.opcode, f);
    PutSticks(b2, ARG1, msg.arg1, f);
    PutSticks(b3, ARG2, msg.arg2, f);
    if reply {
      PutSticks(b4, RETURN_VAL, msg.returnVal, f);
    }
  }

  /** Through the wire, the name survives and every field is swapped once more. */
  lemma WireRoundTrip(b: seq<Byte>, msg: Hdr, reply: bool)
    requires |b| == PACKET && CString(msg.name)
    requires Int32(msg.opcode) && Int32(msg.arg1) && Int32(msg.arg2) && (reply ==> Int32(msg.returnVal))
    ensures var r := Extracted(Filled(b, msg, reply));
            && r.name == msg.name && r.opcode == Htons(msg.opcode)
            && r.arg1 == Htons(msg.arg1) && r.arg2 == Htons(msg.arg2)
            && (reply ==> r.returnVal == Htons(msg.returnVal))
  {
    var f := Filled(b, msg, reply);
    FieldsStick(PutName(b, msg.name), msg, reply, f);
    NameSticks(b, msg.name, f);
  }

  /** The packet by byte offsets: 54 bytes of other headers, the name with its terminator at 54,
      then the four ints from 66 on; nothing else is written. */
  lemma PacketLayout(b: seq<Byte>, msg: Hdr, reply: bool)
    requires |b| == 82 && CString(msg.name)
    requires Int32(msg.opcode) && Int32(msg.arg1) && Int32(msg.arg2) && (reply ==> Int32(msg.returnVal))
    ensures var f := Filled(b, msg, reply);
      && |f| == 82 && f[..54] == b[..54]
      && f[54..54 + |msg.name|] == msg.name && f[54 + |msg.name|] == 0
      && f[54 + |msg.name| + 1..66] == b[54 + |msg.name| + 1..66]
      && Get(f, 66) == msg.opcode && Get(f, 74) == msg.arg1 && Get(f, 78) == msg.arg2
      && (if reply then Get(f, 70) == msg.returnVal else f[70..74] == b[70..74])
  {
    var f, p := Filled(b, msg, reply), PutName(b, msg.name);
    FieldsStick(p, msg, reply, f);
    NameLayout(b, msg.name, f);
    if !reply {
      assert forall i :: 70 <= i < 74 ==> f[i] == p[i] && p[i] == b[i];
      assert f[70..74] == b[70..74];
    }
  }

  lemma NameLayout(b: seq<Byte>, name: seq<Byte>, f: seq<Byte>)
    requires |b| == |f| == 82 && CString(name) && forall i :: 0 <= i < 66 ==> f[i] == PutName(b, name)[i]
    ensures f[..54] == b[..54] && f[54..54 + |name|] == name && f[54 + |name|] == 0
    ensures f[54 + |name| + 1..66] == b[54 + |name| + 1..66]
  {
    var p := PutName(b, name);
    assert p[..54] == b[..54] && p[54..54 + |name|] == name && p[54 + |name|] == 0;
    assert p[54 + |name| + 1..66] == b[54 + |name| + 1..66];
    assert f[..54] == p[..54] && f[54..54 + |name|] == p[54..54 + |name|];
    assert f[54 + |name| + 1..66] == p[54 + |name| + 1..66];
  }

  /** The function names by which the server dispatches. */
  lemma NamesSpelled()
    ensures |ADD| == |"add"| && forall i :: 0 <= i < |ADD| ==> ADD[i] == "add"[i] as int
    ensures |SUBTRACT| == |"subtract"| && forall i :: 0 <= i < |SUBTRACT| ==> SUBTRACT[i] == "subtract"[i] as int
  {
  }

  /** `strcpy(rpc->function_name, ...)`. */
  method CopyName(buff: array<Byte>, name: seq<Byte>)
    requires buff.Length == PACKET && CString(name)
    modifies buff
    ensures buff[..] == PutName(old(buff[..]), name)
  {
    ghost var b := buff[..];
    for i := 0 to |name|
      invariant buff[..] == b[..RPC] + name[..i] + b[RPC + i..]
    {
      buff[RPC + i] := name[i];
    }
    buff[RPC + |name|] := 0;
  }

  /** `send_pcap_packet`, the RPC part: the packet buffer is written in place. */
  method SendPcapPacket(buff: array<Byte>, msg: Hdr, reply: bool)
    requires buff.Length == PACKET && CString(msg.name)
    modifies buff
    ensures buff[..] == Filled(old(buff[..]), msg, reply)
  {
    CopyName(buff, msg.name);
    StoreInt(buff, OPCODE, msg.opcode);
    StoreInt(buff, ARG1, msg.arg1);
    StoreInt(buff, ARG2, msg.arg2);
    if reply {
      StoreInt(buff, RETURN_VAL, msg.returnVal);
    }
  }

  method StoreInt(buff: array<Byte>, at: nat, x: int)
    requires at + 4 <= buff.Length
    modifies buff
    ensures buff[..] == Put(old(buff[..]), at, x)
  {
    var u: nat := x % 0x1_0000_0000;
    ghost var full := Put(buff[..], at, x);
    for k := 0 to 4
      invariant buff.Length == |full| && Store(buff[..], at + k, u, 4 - k) == full
    {
      buff[at + k] := u % 256;
      u := u / 256;
    }
  }

  /** `extract_rpc` of the client stub; the server stub's leaves `return_val` alone. */
  method ExtractRpc(buffer: seq<Byte>) returns (rpc: Hdr)
    requires |buffer| == PACKET
    ensures rpc == Extracted(buffer)
  {
    var name, k := [], RPC;
    while k < |buffer| && buffer[k] != 0
      invariant RPC <= k <= |buffer| && GetName(buffer, RPC) == name + GetName(buffer, k)
    {
      assert name + ([buffer[k]] + GetName(buffer, k + 1)) == (name + [buffer[k]]) + GetName(buffer, k + 1);
      name := name + [buffer[k]];
      k := k + 1;
    }
    rpc := Hdr(name, Htons(Get(buffer, OPCODE)), Htons(Get(buffer, RETURN_VAL)),
               Htons(Get(buffer, ARG1)), Htons(Get(buffer, ARG2)));
  }
}
