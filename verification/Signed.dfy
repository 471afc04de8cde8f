/** Signed messages and discovery payloads (internal/protocol/signed.go). */
module Signed {
  import opened Basics

  const SIGN_OFFSET := 9
  const SIGNATURE_SIZE := 64
  const KEY_SIZE := 32
  const PUBLIC_BLOB_SIZE := 64

  datatype SignedMessage = SignedMessage(typ: byte, srcIP: Option<Ipv4>, dstIP: Option<Ipv4>, payload: Bytes)

  datatype CodecError = TooShort | BadLength

  /** A zero address is sent as 0.0.0.0. */
  function Addr4(a: Option<Ipv4>): (b: Bytes)
    ensures |b| == 4
  {
    if a.Some? then Be32(a.value) else [0, 0, 0, 0]
  }

  function SignBytes(m: SignedMessage): Bytes {
    [m.typ] + Addr4(m.srcIP) + Addr4(m.dstIP) + m.payload
  }

  function EncodeSigned(m: SignedMessage, sign: Bytes -> Bytes): Bytes {
    SignBytes(m) + sign(SignBytes(m))
  }

  function ParseSigned(data: Bytes): Result<(SignedMessage, Bytes), CodecError> {
    if |data| < SIGN_OFFSET + SIGNATURE_SIZE then Err(TooShort)
    else
      var signed := data[..|data| - SIGNATURE_SIZE];
      Ok((SignedMessage(signed[0], Some(FromBe32(signed[1..5])), Some(FromBe32(signed[5..9])), signed[SIGN_OFFSET..]),
          data[|data| - SIGNATURE_SIZE..]))
  }

  /** signBytes builds its buffer by successive appends. */
  method BuildSignBytes(m: SignedMessage) returns (out: Bytes)
    ensures out == SignBytes(m)
  {
    out := [];
    out := out + [m.typ];
    out := out + Addr4(m.srcIP);
    out := out + Addr4(m.dstIP);
    out := out + m.payload;
  }

  method MarshalSigned(m: SignedMessage, sign: Bytes -> Bytes) returns (out: Bytes)
    ensures out == EncodeSigned(m, sign)
  {
    var signed := BuildSignBytes(m);
    var sig := sign(signed);
    out := [];
    out := out + signed;
    out := out + sig;
  }

  lemma SignBytesSlices(m: SignedMessage)
    ensures var s := SignBytes(m);
            |s| == SIGN_OFFSET + |m.payload| && s[0] == m.typ && s[1..5] == Addr4(m.srcIP) &&
            s[5..9] == Addr4(m.dstIP) && s[SIGN_OFFSET..] == m.payload
  {
    var s := SignBytes(m);
    assert s == [m.typ] + (Addr4(m.srcIP) + (Addr4(m.dstIP) + m.payload));
  }

  /** A marshalled message parses back exactly when both addresses are IPv4 (64-byte signatures). */
  lemma ParseOfMarshal(m: SignedMessage, sign: Bytes -> Bytes)
    requires |sign(SignBytes(m))| == SIGNATURE_SIZE
    ensures ParseSigned(EncodeSigned(m, sign)) == Ok((m, sign(SignBytes(m)))) <==> m.srcIP.Some? && m.dstIP.Some?
    ensures ParseSigned(EncodeSigned(m, sign)).Ok?
  {
    var data := EncodeSigned(m, sign);
    SignBytesSlices(m);
    assert data[..|data| - SIGNATURE_SIZE] == SignBytes(m);
    assert data[|data| - SIGNATURE_SIZE..] == sign(SignBytes(m));
    if m.srcIP.Some? {
      FromBe32OfBe32(m.srcIP.value);
    }
    if m.dstIP.Some? {
      FromBe32OfBe32(m.dstIP.value);
    }
  }

  /** Whatever is accepted is exactly the signed bytes followed by the signature. */
  lemma MarshalOfParse(data: Bytes)
    ensures ParseSigned(data).Ok? <==> |data| >= SIGN_OFFSET + SIGNATURE_SIZE
    ensures ParseSigned(data).Ok? ==>
              var (m, sig) := ParseSigned(data).value; SignBytes(m) + sig == data && |sig| == SIGNATURE_SIZE
  {
    if ParseSigned(data).Ok? {
      var signed := data[..|data| - SIGNATURE_SIZE];
      Be32OfFromBe32(signed[1..5]);
      Be32OfFromBe32(signed[5..9]);
      assert signed == [signed[0]] + signed[1..5] + signed[5..9] + signed[9..];
      assert data == signed + data[|data| - SIGNATURE_SIZE..];
    }
  }

  function PeerQueryPayload(target: Ipv4): Bytes {
    Be32(target)
  }

  function ParsePeerQuery(payload: Bytes): Result<Ipv4, CodecError> {
    if |payload| != 4 then Err(BadLength) else Ok(FromBe32(payload))
  }

  lemma PeerQueryRoundTrip(target: Ipv4, payload: Bytes)
    ensures ParsePeerQuery(payload) == Ok(target) <==> payload == PeerQueryPayload(target)
  {
    FromBe32OfBe32(target);
    if |payload| == 4 {
      Be32OfFromBe32(payload);
    }
  }
}
