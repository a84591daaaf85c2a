/** The two raw-socket senders that fill an IPv4 header (RFC 791, section 3.1) and its
    checksum in place: `send_packet` of 02-04-22_print_tcp_header/s.c and `send_message`
    of Functions/IPHeader.c. */
module Headers {
  import opened Machine
  import opened InternetChecksum

  const BUFFER_SIZE := 1024
  const CHECK_OFFSET := 10

  /** `htonl` on a little-endian host. */
  function Htonl(x: nat): (r: nat)
    requires x < 0x1_0000_0000
    ensures r < 0x1_0000_0000
  {
    (x % 0x100) * 0x100_0000 + (x / 0x100 % 0x100) * 0x1_0000 + (x / 0x1_0000 % 0x100) * 0x100 + x / 0x100_0000
  }

  function Lo(x: nat): Byte { x % 256 }

  function Hi(x: nat): Byte { x / 256 % 256 }

  /** The 20 header bytes both senders lay out; lengths stay in host order, as they are written. */
  function IpHeader(totLen: nat, id: nat, protocol: nat, check: nat, src: seq<Byte>, dst: seq<Byte>): (h: seq<Byte>)
    requires |src| == |dst| == 4
    ensures |h| == 20
  {
    [0x45, 0, Lo(totLen), Hi(totLen), Lo(id), Hi(id), 0, 0, 255, Lo(protocol), Lo(check), Hi(check)] + src + dst
  }

  /** The header with its checksum field filled in. */
  function Sealed(totLen: nat, id: nat, protocol: nat, src: seq<Byte>, dst: seq<Byte>): (h: seq<Byte>)
    requires |src| == |dst| == 4
    ensures |h| == 20
  {
    IpHeader(totLen, id, protocol, Checksum(IpHeader(totLen, id, protocol, 0, src, dst)), src, dst)
  }

  /** A sealed header verifies at the receiver. */
  lemma SealedVerifies(totLen: nat, id: nat, protocol: nat, src: seq<Byte>, dst: seq<Byte>)
    requires |src| == |dst| == 4
    ensures Checksum(Sealed(totLen, id, protocol, src, dst)) == 0
  {
    var h := IpHeader(totLen, id, protocol, 0, src, dst);
    var c := Checksum(h);
    assert Sealed(totLen, id, protocol, src, dst) == Store(h, CHECK_OFFSET, c);
    StoredChecksumVerifies(h, CHECK_OFFSET);
  }

  /** Summing past the header into bytes that are still zero changes nothing, which is why
      the length the senders pass does not matter as long as it covers the header. */
  lemma ZeroTailIgnored(buffer: seq<Byte>, n: nat)
    requires 20 <= n <= |buffer|
    requires forall k :: 20 <= k < n ==> buffer[k] == 0
    ensures Checksum(buffer[..n]) == Checksum(buffer[..20])
  {
    assert buffer[..n] == buffer[..20] + buffer[20..n];
    SumConcat(buffer[..20], buffer[20..n]);
    SumOfZeros(buffer[20..n]);
  }

  /** `iph->id = htonl(54321)` keeps 16 bits of a 32-bit swap: the field is always 0. */
  lemma IdFieldIsZero()
    ensures Htonl(54321) % 0x1_0000 == 0 && Htonl(65535) % 0x1_0000 == 0
  {
    assert Htonl(54321) == 0x31D4 * 0x1_0000;
    assert Htonl(65535) == 0xFFFF * 0x1_0000;
  }

  /** The identification field of a packet, and the window of a TCP packet, as the receiver reads
      them. */
  function IdOf(packet: seq<Byte>): int
    requires |packet| >= 20
  {
    Le(packet[5], packet[4])
  }

  function WindowOf(packet: seq<Byte>): int
    requires |packet| >= 40
  {
    Le(packet[35], packet[34])
  }

  /** `strcpy(dst + at, src)`. */
  method CopyString(dst: array<Byte>, at: nat, src: seq<Byte>)
    requires at + |src| + 1 <= dst.Length
    modifies dst
    ensures dst[..] == old(dst[..at]) + src + [0] + old(dst[at + |src| + 1..])
  {
    ghost var head, tail := dst[..at], dst[at + |src| + 1..];
    for i := 0 to |src|
      invariant dst[..at] == head && dst[at..at + i] == src[..i] && dst[at + |src| + 1..] == tail
    {
      dst[at + i] := src[i];
    }
    dst[at + |src|] := 0;
    assert dst[..] == dst[..at] + dst[at..at + |src|] + [dst[at + |src|]] + dst[at + |src| + 1..];
  }

  /** A 32-bit address store. */
  method WriteAddress(packet: array<Byte>, at: nat, address: seq<Byte>)
    requires at + 4 <= packet.Length && |address| == 4
    modifies packet
    ensures packet[..] == old(packet[..at]) + address + old(packet[at + 4..])
  {
    packet[at], packet[at + 1] := address[0], address[1];
    packet[at + 2], packet[at + 3] := address[2], address[3];
  }

  /** The header fields, written one after the other into a zeroed buffer. */
  method WriteIpHeader(packet: array<Byte>, totLen: nat, id: nat, protocol: nat, src: seq<Byte>, dst: seq<Byte>)
    requires packet.Length == BUFFER_SIZE && |src| == |dst| == 4
    requires forall k :: 0 <= k < BUFFER_SIZE ==> packet[k] == 0
    modifies packet
    ensures packet[..20] == IpHeader(totLen, id, protocol, 0, src, dst)
    ensures packet[0] == 0x45 && packet[2] == Lo(totLen) && packet[3] == Hi(totLen)
    ensures packet[4] == Lo(id) && packet[5] == Hi(id) && packet[8] == 255 && packet[9] == Lo(protocol)
    ensures packet[1] == packet[6] == packet[7] == packet[10] == packet[11] == 0
    ensures packet[12..16] == src && packet[16..20] == dst
    ensures forall k :: 20 <= k < BUFFER_SIZE ==> packet[k] == 0
  {
    WriteFields(packet, totLen, id, protocol);
    ghost var front := packet[..12];
    WriteAddress(packet, 12, src);
    assert packet[..16] == front + src;
    WriteAddress(packet, 16, dst);
    assert packet[..20] == front + src + dst;
  }

  /** The fields before the addresses. */
  method WriteFields(packet: array<Byte>, totLen: nat, id: nat, protocol: nat)
    requires packet.Length == BUFFER_SIZE
    modifies packet
    ensures packet[..12]
         == [0x45, 0, Lo(totLen), Hi(totLen), Lo(id), Hi(id), 0, 0, 255, Lo(protocol), Lo(0), Hi(0)]
    ensures forall k :: 12 <= k < BUFFER_SIZE ==> packet[k] == old(packet[k])
  {
    packet[0] := 0x45;
    packet[1] := 0;
    packet[2], packet[3] := Lo(totLen), Hi(totLen);
    packet[4], packet[5] := Lo(id), Hi(id);
    packet[6], packet[7] := 0, 0;
    packet[8] := 255;
    packet[9] := Lo(protocol);
    packet[10], packet[11] := 0, 0;
    assert Lo(0) == 0 && Hi(0) == 0;
  }

  /** `iph->check = ...` */
  method WriteCheck(packet: array<Byte>, totLen: nat, id: nat, protocol: nat, src: seq<Byte>, dst: seq<Byte>,
                    check: nat)
    requires packet.Length == BUFFER_SIZE && |src| == |dst| == 4
    requires packet[..20] == IpHeader(totLen, id, protocol, 0, src, dst)
    requires check == Checksum(packet[..20])
    modifies packet
    ensures packet[..20] == Sealed(totLen, id, protocol, src, dst)
    ensures forall k :: 20 <= k < BUFFER_SIZE ==> packet[k] == old(packet[k])
  {
    ghost var h: seq<Byte> := packet[..20];
    packet[CHECK_OFFSET], packet[CHECK_OFFSET + 1] := Lo(check), Hi(check);
    assert packet[..20] == h[10 := Lo(check)][11 := Hi(check)];
  }

  /** The TCP header of `send_packet`: SYN, every 32-bit conversion cut to 16 bits as there. */
  function SynHeader(): (h: seq<Byte>)
    ensures |h| == 20
  {
    [0xCA, 0x09, 0x27, 0x11] + [0, 0, 0, 0] + [0, 0, 0, 0]
    + [0, 0x02, Lo(Htonl(65535)), Hi(Htonl(65535)), 0, 0, 0, 0]
  }

  lemma IdReadsZero(packet: seq<Byte>, totLen: nat, protocol: nat, src: seq<Byte>, dst: seq<Byte>)
    requires |packet| >= 20 && |src| == |dst| == 4
    requires packet[..20] == Sealed(totLen, Htonl(54321), protocol, src, dst)
    ensures IdOf(packet) == 0
  {
    var id := Htonl(54321);
    var c := Checksum(IpHeader(totLen, id, protocol, 0, src, dst));
    IdBytes(totLen, id, protocol, c, src, dst);
    assert packet[4] == packet[..20][4] && packet[5] == packet[..20][5];
    ZeroBytes(id);
  }

  lemma IdBytes(totLen: nat, id: nat, protocol: nat, check: nat, src: seq<Byte>, dst: seq<Byte>)
    requires |src| == |dst| == 4
    ensures var h := IpHeader(totLen, id, protocol, check, src, dst); h[4] == Lo(id) && h[5] == Hi(id)
  {
  }

  lemma ZeroBytes(x: nat)
    requires x == Htonl(54321) || x == Htonl(65535)
    ensures Lo(x) == 0 && Hi(x) == 0
  {
    IdFieldIsZero();
    LowHalfZero(x);
  }

  lemma LowHalfZero(x: nat)
    requires x % 0x1_0000 == 0
    ensures Lo(x) == 0 && Hi(x) == 0
  {
    var q := x / 0x1_0000;
    assert x == 256 * (256 * q);
  }

  lemma WindowReadsZero(packet: seq<Byte>)
    requires |packet| >= 40 && packet[20..40] == SynHeader()
    ensures WindowOf(packet) == 0
  {
    ZeroBytes(Htonl(65535));
    assert packet[34] == packet[20..40][14] && packet[35] == packet[20..40][15];
  }

  /** Header and checksum, the sum taken over (40 + payload) / 2 bytes. */
  method SealByBytes(packet: array<Byte>, totLen: nat, id: nat, protocol: nat, src: seq<Byte>, dst: seq<Byte>)
    requires packet.Length == BUFFER_SIZE && |src| == |dst| == 4 && 40 <= totLen <= BUFFER_SIZE
    requires forall k :: 0 <= k < BUFFER_SIZE ==> packet[k] == 0
    modifies packet
    ensures packet[..20] == Sealed(totLen, id, protocol, src, dst)
    ensures forall k :: 20 <= k < BUFFER_SIZE ==> packet[k] == 0
  {
    WriteIpHeader(packet, totLen, id, protocol, src, dst);
    var check := CsumBytes(packet[..], totLen / 2);
    ZeroTailIgnored(packet[..], totLen / 2);
    assert packet[..][..20] == packet[..20];
    WriteCheck(packet, totLen, id, protocol, src, dst, check);
  }

  /** Header and checksum, the sum taken over (20 + payload) / 2 words. */
  method SealByWords(packet: array<Byte>, ipLen: nat, id: nat, protocol: nat, src: seq<Byte>, dst: seq<Byte>)
    requires packet.Length == BUFFER_SIZE && |src| == |dst| == 4 && 20 <= ipLen <= BUFFER_SIZE
    requires forall k :: 0 <= k < BUFFER_SIZE ==> packet[k] == 0
    modifies packet
    ensures packet[..20] == Sealed(ipLen, id, protocol, src, dst)
    ensures forall k :: 20 <= k < BUFFER_SIZE ==> packet[k] == 0
  {
    WriteIpHeader(packet, ipLen, id, protocol, src, dst);
    var check := CsumWords(packet[..], ipLen / 2);
    ZeroTailIgnored(packet[..], 2 * (ipLen / 2));
    assert packet[..][..20] == packet[..20];
    WriteCheck(packet, ipLen, id, protocol, src, dst, check);
  }

  /** The fixed TCP header. */
  method WriteTcpHeader(packet: array<Byte>)
    requires packet.Length == BUFFER_SIZE
    modifies packet
    ensures packet[20..40] == SynHeader()
    ensures forall k :: 0 <= k < 20 || 40 <= k < BUFFER_SIZE ==> packet[k] == old(packet[k])
  {
    var tcp := SynHeader();
    for i := 0 to 20
      invariant packet[20..20 + i] == tcp[..i]
      invariant forall k :: 0 <= k < 20 || 40 <= k < BUFFER_SIZE ==> packet[k] == old(packet[k])
    {
      packet[20 + i] := tcp[i];
    }
  }

  /** `send_packet`: what goes to the socket carries a header that verifies, the payload
      unchanged, whatever its length. */
  method SendPacket(buf: seq<Byte>) returns (sent: seq<Byte>)
    requires 40 + |buf| + 1 <= BUFFER_SIZE
    ensures |sent| == 40 + |buf| && sent[20..40] == SynHeader() && sent[40..] == buf
    ensures sent[..20] == Sealed(40 + |buf|, Htonl(54321), 6, [1, 2, 3, 4], [127, 0, 0, 1])
    ensures Checksum(sent[..20]) == 0 && IdOf(sent) == 0 && WindowOf(sent) == 0
    // version 4 and five words of header; length, in host order; lifetime; TCP; 1.2.3.4 to 127.0.0.1
    ensures sent[0] == 0x45 && sent[2] as int + 256 * sent[3] as int == |sent| && sent[8] == 255 && sent[9] == 6
    ensures sent[1] == sent[6] == sent[7] == 0
    ensures sent[12..16] == [1, 2, 3, 4] && sent[16..20] == [127, 0, 0, 1]
    // ports, high byte first; numbers 0; of the flags only SYN
    ensures 256 * sent[20] as int + sent[21] as int == 51721 && 256 * sent[22] as int + sent[23] as int == 10001
    ensures forall k :: 24 <= k < 33 ==> sent[k] == 0
    ensures sent[33] == 0x02 && forall k :: 34 <= k < 40 ==> sent[k] == 0
  {
    var packet := new Byte[BUFFER_SIZE](_ => 0);
    var totLen, src, dst := 40 + |buf|, [1, 2, 3, 4], [127, 0, 0, 1];
    SealByBytes(packet, totLen, Htonl(54321), 6, src, dst);
    ghost var header := packet[..20];
    WriteTcpHeader(packet);
    assert packet[..20] == header;
    ghost var headers := packet[..40];
    assert headers == header + SynHeader();
    CopyString(packet, 40, buf);
    sent := packet[..totLen];
    assert sent == headers + buf;
    Parts(header, SynHeader(), buf);
    SealedVerifies(totLen, Htonl(54321), 6, src, dst);
    IdReadsZero(sent, totLen, 6, src, dst);
    WindowReadsZero(sent);
    HeaderReads(sent, totLen, 6, src, dst);
    TcpReads(sent);
  }

  /** What a receiver reads at the fixed places of an IPv4 header. */
  lemma HeaderReads(packet: seq<Byte>, totLen: nat, protocol: nat, src: seq<Byte>, dst: seq<Byte>)
    requires |packet| >= 20 && |src| == |dst| == 4 && totLen < 0x1_0000
    requires packet[..20] == Sealed(totLen, Htonl(54321), protocol, src, dst)
    ensures packet[0] == 0x45 && packet[2] as int + 256 * packet[3] as int == totLen
    ensures packet[1] == packet[6] == packet[7] == 0 && packet[8] == 255 && packet[9] as int == protocol % 256
    ensures packet[12..16] == src && packet[16..20] == dst
  {
    var id := Htonl(54321);
    var h := packet[..20];
    HeaderBytes(totLen, id, protocol, Checksum(IpHeader(totLen, id, protocol, 0, src, dst)), src, dst);
    assert forall k :: 0 <= k < 20 ==> packet[k] == h[k];
    assert packet[12..16] == h[12..16] && packet[16..20] == h[16..20];
  }

  lemma HeaderBytes(totLen: nat, id: nat, protocol: nat, check: nat, src: seq<Byte>, dst: seq<Byte>)
    requires |src| == |dst| == 4 && totLen < 0x1_0000
    ensures var h := IpHeader(totLen, id, protocol, check, src, dst);
      && h[0] == 0x45 && h[2] as int + 256 * h[3] as int == totLen
      && h[1] == h[6] == h[7] == 0 && h[8] == 255 && h[9] as int == protocol % 256
      && h[12..16] == src && h[16..20] == dst
  {
  }

  /** ... and of a TCP header. */
  lemma TcpReads(packet: seq<Byte>)
    requires |packet| >= 40 && packet[20..40] == SynHeader()
    ensures 256 * packet[20] as int + packet[21] as int == 51721
    ensures 256 * packet[22] as int + packet[23] as int == 10001
    ensures forall k :: 24 <= k < 33 ==> packet[k] == 0
    ensures packet[33] == 0x02 && forall k :: 34 <= k < 40 ==> packet[k] == 0
  {
    ZeroBytes(Htonl(65535));
    var t := SynHeader();
    assert forall k :: 0 <= k < 20 ==> packet[20 + k] == packet[20..40][k];
    assert forall k :: 20 <= k < 40 ==> packet[k] == t[k - 20];
  }

  lemma Parts(header: seq<Byte>, tcp: seq<Byte>, buf: seq<Byte>)
    requires |header| == |tcp| == 20
    ensures var sent := header + tcp + buf; sent[..20] == header && sent[20..40] == tcp && sent[40..] == buf
  {
  }

  /** `send_message`: the same for a sender that counts words, covers the payload area too
      and sends the whole buffer. */
  method SendMessage(protocol: nat, msg: seq<Byte>) returns (datagram: seq<Byte>)
    requires 20 + |msg| + 1 <= BUFFER_SIZE
    ensures |datagram| == BUFFER_SIZE && datagram[20..20 + |msg|] == msg
    ensures datagram[..20] == Sealed(20 + |msg|, Htonl(54321), protocol, [192, 168, 192, 140], [192, 168, 192, 118])
    ensures Checksum(datagram[..20]) == 0 && IdOf(datagram) == 0
    // version 4 and five words of header; length, in host order; lifetime; protocol
    ensures datagram[0] == 0x45 && datagram[2] as int + 256 * datagram[3] as int == 20 + |msg|
    ensures datagram[1] == datagram[6] == datagram[7] == 0 && datagram[8] == 255 && datagram[9] as int == protocol % 256
    // 192.168.192.140 to 192.168.192.118
    ensures datagram[12..16] == [192, 168, 192, 140] && datagram[16..20] == [192, 168, 192, 118]
    ensures forall k :: 20 + |msg| <= k < BUFFER_SIZE ==> datagram[k] == 0
  {
    var packet := new Byte[BUFFER_SIZE](_ => 0);
    var ipLen, src, dst := 20 + |msg|, [192, 168, 192, 140], [192, 168, 192, 118];
    SealByWords(packet, ipLen, Htonl(54321), protocol, src, dst);
    ghost var header, zeros := packet[..20], packet[20 + |msg| + 1..];
    CopyString(packet, 20, msg);
    datagram := packet[..];
    MessageParts(header, msg, zeros);
    SealedVerifies(ipLen, Htonl(54321), protocol, src, dst);
    IdReadsZero(datagram, ipLen, protocol, src, dst);
    HeaderReads(datagram, ipLen, protocol, src, dst);
  }

  lemma MessageParts(header: seq<Byte>, msg: seq<Byte>, zeros: seq<Byte>)
    requires |header| == 20 && forall k :: 0 <= k < |zeros| ==> zeros[k] == 0
    ensures var datagram := header + msg + [0] + zeros;
      && datagram[..20] == header && datagram[20..20 + |msg|] == msg
      && forall k :: 20 + |msg| <= k < |datagram| ==> datagram[k] == 0
  {
  }
}
