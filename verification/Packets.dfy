/**
 The reply-or-new-call test on raw IPv4 packets (internal/node/packets.go).
 Header fields: section 3.1 of RFC 791, the Echo message of RFC 792 and
 section 3.1 of RFC 9293.  Bit tests are written arithmetically.
 */
module Packets {
  import opened Basics

  const ICMP := 1
  const TCP := 6
  const ECHO_REQUEST := 8
  const SYN := 0x02
  const ACK := 0x10

  predicate HasFlag(flags: byte, flag: byte)
    requires flag > 0
  {
    flags / flag % 2 == 1
  }

  predicate IsIcmpReply(raw: Bytes) {
    |raw| >= 21 && raw[20] != ECHO_REQUEST
  }

  predicate IsTcpReply(raw: Bytes) {
    |raw| >= 34 && !(HasFlag(raw[33], SYN) && !HasFlag(raw[33], ACK))
  }

  predicate IsReplyPacket(raw: Bytes) {
    if |raw| < 20 || raw[0] / 0x10 != 4 then false
    else if raw[9] == ICMP then IsIcmpReply(raw)
    else if raw[9] == TCP then IsTcpReply(raw)
    else false
  }

  /** The arithmetic test is the bit test. */
  lemma FlagIsBit(flags: bv8)
    ensures HasFlag(flags as int, SYN) <==> flags & 0x02 != 0
    ensures HasFlag(flags as int, ACK) <==> flags & 0x10 != 0
  {
  }
}
