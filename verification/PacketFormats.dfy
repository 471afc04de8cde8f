/**
 Packets as they are built on the wire (section 3.1 of RFC 791, the Echo message of RFC 792,
 section 3.1 of RFC 9293), to say what the fixed offsets of the reply test and of the TUN reader mean.
 Checksums, identification and fragment fields are zero.
 */
module PacketFormats {
  import opened Basics
  import opened Packets
  import N = NodeModel

  type Options = o: Bytes | |o| % 4 == 0 && |o| <= 40 witness []

  function Be16(x: uint16): Bytes {
    [x / 0x100, x % 0x100]
  }

  /** An IPv4 header with options, followed by the payload. */
  function Ipv4Packet(protocol: byte, src: Ipv4, dst: Ipv4, options: Options, payload: Bytes): Bytes
    requires 20 + |options| + |payload| < 0x1_0000
  {
    [0x45 + |options| / 4, 0] + Be16(20 + |options| + |payload|) + [0, 0, 0, 0, 64, protocol, 0, 0] +
    Be32(src) + Be32(dst) + options + payload
  }

  const ECHO_REPLY: byte := 0

  function Echo(kind: byte, id: uint16, number: uint16, data: Bytes): Bytes {
    [kind, 0, 0, 0] + Be16(id) + Be16(number) + data
  }

  function Tcp(srcPort: uint16, dstPort: uint16, number: Ipv4, ack: Ipv4, flags: byte, window: uint16,
               data: Bytes): Bytes {
    Be16(srcPort) + Be16(dstPort) + Be32(number) + Be32(ack) + [0x50, flags] + Be16(window) + [0, 0, 0, 0] + data
  }

  lemma HeaderFields(protocol: byte, src: Ipv4, dst: Ipv4, options: Options, payload: Bytes)
    requires 20 + |options| + |payload| < 0x1_0000
    ensures var raw := Ipv4Packet(protocol, src, dst, options, payload);
            |raw| == 20 + |options| + |payload| && raw[0] / 0x10 == 4 && raw[9] == protocol &&
            raw[16..20] == Be32(dst) && raw[20..] == options + payload
  {
    var raw := Ipv4Packet(protocol, src, dst, options, payload);
    var length := Be16(20 + |options| + |payload|);
    assert raw == [0x45 + |options| / 4, 0] +
                  (length + ([0, 0, 0, 0, 64, protocol, 0, 0] + (Be32(src) + (Be32(dst) + (options + payload)))));
  }

  /** The TUN reader sends a packet to its destination field, whatever its options. */
  lemma TunTargetIsDestination(cfg: N.Config, protocol: byte, src: Ipv4, dst: Ipv4, options: Options, payload: Bytes)
    requires 20 + |options| + |payload| < 0x1_0000
    ensures N.TunTarget(cfg, Ipv4Packet(protocol, src, dst, options, payload)) ==
            if dst == cfg.vpnIP then None else Some(dst)
  {
    HeaderFields(protocol, src, dst, options, payload);
    FromBe32OfBe32(dst);
  }

  /** An echo request is a new call exactly when its header has no options, or the first option byte happens to be 8. */
  lemma EchoRequestIsNewCallIff(src: Ipv4, dst: Ipv4, options: Options, id: uint16, number: uint16, data: Bytes)
    requires 28 + |options| + |data| < 0x1_0000
    ensures !IsReplyPacket(Ipv4Packet(ICMP, src, dst, options, Echo(ECHO_REQUEST, id, number, data))) <==>
            options == [] || options[0] == ECHO_REQUEST
  {
    var payload := Echo(ECHO_REQUEST, id, number, data);
    HeaderFields(ICMP, src, dst, options, payload);
    var raw := Ipv4Packet(ICMP, src, dst, options, payload);
    assert raw[20] == raw[20..][0];
  }

  /** An echo reply is a reply exactly when its header has no options, or the first option byte is not 8. */
  lemma EchoReplyIsReplyIff(src: Ipv4, dst: Ipv4, options: Options, id: uint16, number: uint16, data: Bytes)
    requires 28 + |options| + |data| < 0x1_0000
    ensures IsReplyPacket(Ipv4Packet(ICMP, src, dst, options, Echo(ECHO_REPLY, id, number, data))) <==>
            options == [] || options[0] != ECHO_REQUEST
  {
    var payload := Echo(ECHO_REPLY, id, number, data);
    HeaderFields(ICMP, src, dst, options, payload);
    var raw := Ipv4Packet(ICMP, src, dst, options, payload);
    assert raw[20] == raw[20..][0];
  }

  lemma TcpFlags(srcPort: uint16, dstPort: uint16, number: Ipv4, ack: Ipv4, flags: byte, window: uint16, data: Bytes)
    ensures var segment := Tcp(srcPort, dstPort, number, ack, flags, window, data);
            |segment| == 20 + |data| && segment[13] == flags
  {
    var head := Be16(srcPort) + Be16(dstPort) + Be32(number) + Be32(ack) + [0x50, flags];
    assert |head| == 14 && head[13] == flags;
    assert Tcp(srcPort, dstPort, number, ack, flags, window, data) == head + (Be16(window) + [0, 0, 0, 0] + data);
  }

  /** A TCP packet is a new call exactly when the byte 13 places behind the fixed header shows SYN without ACK. */
  lemma TcpNewCallIff(src: Ipv4, dst: Ipv4, options: Options, srcPort: uint16, dstPort: uint16, number: Ipv4, ack: Ipv4,
                      flags: byte, window: uint16, data: Bytes)
    requires 40 + |options| + |data| < 0x1_0000
    ensures var segment := Tcp(srcPort, dstPort, number, ack, flags, window, data);
            var seen := (options + segment)[13];
            (!IsReplyPacket(Ipv4Packet(TCP, src, dst, options, segment)) <==>
             HasFlag(seen, SYN) && !HasFlag(seen, ACK)) &&
            (options == [] ==> seen == flags)
  {
    var segment := Tcp(srcPort, dstPort, number, ack, flags, window, data);
    HeaderFields(TCP, src, dst, options, segment);
    var raw := Ipv4Packet(TCP, src, dst, options, segment);
    TcpFlags(srcPort, dstPort, number, ack, flags, window, data);
    assert raw[33] == raw[20..][13];
    assert options == [] ==> options + segment == segment;
  }

  /** A SYN behind four bytes of padding options passes for a reply when its sequence number is 0. */
  lemma SynBehindOptionsIsReply(src: Ipv4, dst: Ipv4, srcPort: uint16, dstPort: uint16, window: uint16)
    ensures IsReplyPacket(Ipv4Packet(TCP, src, dst, [1, 1, 1, 1], Tcp(srcPort, dstPort, 0, 0, SYN, window, [])))
  {
    TcpNewCallIff(src, dst, [1, 1, 1, 1], srcPort, dstPort, 0, 0, SYN, window, []);
    var segment := Tcp(srcPort, dstPort, 0, 0, SYN, window, []);
    assert segment == Be16(srcPort) + Be16(dstPort) +
                      ([0, 0, 0, 0] + ([0, 0, 0, 0] + ([0x50, SYN] + Be16(window) + [0, 0, 0, 0])));
    assert ([1, 1, 1, 1] + segment)[13] == segment[9] == 0;
  }

  /** What is too short or not IPv4, or ends before the byte that is looked at, is a new call. */
  lemma UnreadablePacketsAreNewCalls(raw: Bytes)
    requires |raw| < 21 || raw[0] / 0x10 != 4 || (raw[9] == TCP && |raw| < 34)
    ensures !IsReplyPacket(raw)
  {
  }

  /** Any other protocol is a new call. */
  lemma OtherProtocolsAreNewCalls(protocol: byte, src: Ipv4, dst: Ipv4, options: Options, payload: Bytes)
    requires 20 + |options| + |payload| < 0x1_0000 && protocol != ICMP && protocol != TCP
    ensures !IsReplyPacket(Ipv4Packet(protocol, src, dst, options, payload))
  {
    HeaderFields(protocol, src, dst, options, payload);
  }
}
