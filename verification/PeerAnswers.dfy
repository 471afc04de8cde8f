/** The peer answer codec (internal/protocol/signed.go). */
module PeerAnswers {
  import opened Basics
  import opened Signed

  /** `addr` is None for the zero AddrPort. */
  datatype PeerAnswer = PeerAnswer(found: bool, hasAddr: bool, canCall: bool, canCallBack: bool,
                                   addr: Option<Endpoint>, signPub: Bytes, exchPub: Bytes)

  const NOT_FOUND := PeerAnswer(false, false, false, false, None, [], [])

  function BoolByte(b: bool): byte {
    if b then 1 else 0
  }

  function Port16(port: uint16): Bytes {
    [port / 0x100, port % 0x100]
  }

  /** The zero AddrPort is written as 0.0.0.0:0. */
  function AddrPort(a: Option<Endpoint>): (b: Bytes)
    ensures |b| == 6
  {
    match a
    case Some(ep) => Be32(ep.ip) + Port16(ep.port)
    case None => [0, 0, 0, 0, 0, 0]
  }

  function EncodeAnswer(a: PeerAnswer): Bytes {
    if !a.found then [0]
    else [1, BoolByte(a.hasAddr), BoolByte(a.canCall), BoolByte(a.canCallBack)]
         + (if a.hasAddr then AddrPort(a.addr) else []) + a.signPub + a.exchPub
  }

  function ParseAnswer(payload: Bytes): Result<PeerAnswer, CodecError> {
    if |payload| < 1 then Err(TooShort)
    else if payload[0] == 0 then Ok(NOT_FOUND)
    else if |payload| < 4 then Err(TooShort)
    else if payload[1] == 1 && |payload| < 4 + 4 + 2 + PUBLIC_BLOB_SIZE then Err(BadLength)
    else
      var hasAddr := payload[1] == 1;
      var offset := if hasAddr then 10 else 4;
      if |payload| != offset + PUBLIC_BLOB_SIZE then Err(BadLength)
      else Ok(PeerAnswer(true, hasAddr, payload[2] == 1, payload[3] == 1,
                         if hasAddr then Some(Endpoint(FromBe32(payload[4..8]), FromBe16(payload[8], payload[9])))
                         else None,
                         payload[offset..offset + KEY_SIZE], payload[offset + KEY_SIZE..]))
  }

  /** MarshalPeerAnswer appends field by field. */
  method MarshalPeerAnswer(a: PeerAnswer) returns (out: Bytes)
    ensures out == EncodeAnswer(a)
  {
    if !a.found {
      return [0];
    }
    out := [];
    out := out + [1];
    out := out + [BoolByte(a.hasAddr), BoolByte(a.canCall), BoolByte(a.canCallBack)];
    if a.hasAddr {
      var ip := Addr4(if a.addr.Some? then Some(a.addr.value.ip) else None);
      out := out + ip;
      var port: uint16 := if a.addr.Some? then a.addr.value.port else 0;
      out := out + [port / 0x100, port % 0x100];
      assert ip + [port / 0x100, port % 0x100] == AddrPort(a.addr);
    }
    out := out + a.signPub;
    out := out + a.exchPub;
  }

  /** ParsePeerAnswer advances an offset past the optional address. */
  method ParsePeerAnswer(payload: Bytes) returns (r: Result<PeerAnswer, CodecError>)
    ensures r == ParseAnswer(payload)
  {
    if |payload| < 1 {
      return Err(TooShort);
    }
    if payload[0] == 0 {
      return Ok(NOT_FOUND);
    }
    if |payload| < 4 {
      return Err(TooShort);
    }
    var a := PeerAnswer(true, payload[1] == 1, payload[2] == 1, payload[3] == 1, None, [], []);
    var offset := 4;
    if a.hasAddr {
      if |payload| < 4 + 4 + 2 + PUBLIC_BLOB_SIZE {
        return Err(BadLength);
      }
      a := a.(addr := Some(Endpoint(FromBe32(payload[4..8]), FromBe16(payload[8], payload[9]))));
      offset := 10;
    }
    if |payload| != offset + PUBLIC_BLOB_SIZE {
      return Err(BadLength);
    }
    return Ok(a.(signPub := payload[offset..offset + KEY_SIZE], exchPub := payload[offset + KEY_SIZE..]));
  }

  /** The three shapes that survive the wire: not found, found without and found with an address. */
  predicate Canonical(a: PeerAnswer) {
    a == NOT_FOUND ||
    (a.found && |a.signPub| == KEY_SIZE && |a.exchPub| == KEY_SIZE && a.hasAddr == a.addr.Some?)
  }

  function KeyOffset(a: PeerAnswer): (n: nat) {
    if a.hasAddr then 10 else 4
  }

  /** Where the fields of a found answer lie. */
  lemma FoundLayout(a: PeerAnswer)
    requires a.found
    ensures var p, n := EncodeAnswer(a), KeyOffset(a);
            |p| == n + |a.signPub| + |a.exchPub| && p[0] == 1 && p[1] == BoolByte(a.hasAddr) &&
            p[2] == BoolByte(a.canCall) && p[3] == BoolByte(a.canCallBack) &&
            p[n..] == a.signPub + a.exchPub && (a.hasAddr ==> p[4..10] == AddrPort(a.addr))
  {
    var head := [1, BoolByte(a.hasAddr), BoolByte(a.canCall), BoolByte(a.canCallBack)];
    assert EncodeAnswer(a) == head + ((if a.hasAddr then AddrPort(a.addr) else []) + (a.signPub + a.exchPub));
  }

  lemma AddrPortRoundTrip(p: Bytes, ep: Endpoint)
    requires |p| >= 10 && p[4..10] == AddrPort(Some(ep))
    ensures Endpoint(FromBe32(p[4..8]), FromBe16(p[8], p[9])) == ep
  {
    assert p[4..8] == p[4..10][..4] == Be32(ep.ip);
    assert p[8] == p[4..10][4] == Port16(ep.port)[0];
    assert p[9] == p[4..10][5] == Port16(ep.port)[1];
    FromBe32OfBe32(ep.ip);
  }

  lemma KeysRoundTrip(p: Bytes, n: nat, signPub: Bytes, exchPub: Bytes)
    requires n <= |p| && p[n..] == signPub + exchPub && |p| == n + PUBLIC_BLOB_SIZE
    ensures p[n..n + KEY_SIZE] == signPub && p[n + KEY_SIZE..] == exchPub <==> |signPub| == KEY_SIZE
  {
    assert p[n..n + KEY_SIZE] == p[n..][..KEY_SIZE];
    assert p[n + KEY_SIZE..] == p[n..][KEY_SIZE..];
  }

  /** An answer comes back from the wire unchanged exactly when it has one of the three shapes. */
  lemma ParseOfEncode(a: PeerAnswer)
    ensures ParseAnswer(EncodeAnswer(a)) == Ok(a) <==> Canonical(a)
  {
    if a.found {
      FoundLayout(a);
      if |a.signPub| + |a.exchPub| == PUBLIC_BLOB_SIZE {
        KeysRoundTrip(EncodeAnswer(a), KeyOffset(a), a.signPub, a.exchPub);
        if a.hasAddr && a.addr.Some? {
          AddrPortRoundTrip(EncodeAnswer(a), a.addr.value);
        }
      }
    }
  }

  /** Re-encoding and re-parsing an accepted payload changes nothing in the answer. */
  lemma ReparseIsStable(payload: Bytes)
    requires ParseAnswer(payload).Ok?
    ensures Canonical(ParseAnswer(payload).value)
    ensures ParseAnswer(EncodeAnswer(ParseAnswer(payload).value)) == ParseAnswer(payload)
  {
    ParseOfEncode(ParseAnswer(payload).value);
  }
}
