/**
 The datagram envelope (internal/protocol/protocol.go): version, type, 32-bit
 body length and body.
 */
module Envelopes {
  import opened Basics

  const VERSION: byte := 0x03
  const HEADER_LEN := 6
  const TWO_32 := 0x1_0000_0000

  const TYPE_KEEP_ALIVE: byte := 0x10
  const TYPE_DATA: byte := 0x11
  const TYPE_RELAY_DATA: byte := 0x12
  const TYPE_PEER_QUERY: byte := 0x20
  const TYPE_PEER_QUERY_RPY: byte := 0x21
  const TYPE_PEER_INTRO: byte := 0x22
  const TYPE_MACHINE_LIST: byte := 0x30
  const TYPE_ADMIN_REQUEST: byte := 0x32
  const TYPE_POLICY_CHANGED: byte := 0x34

  datatype Envelope = Envelope(typ: byte, body: Bytes)

  datatype EnvelopeError = TooShort | BadVersion | BadLength

  /** Go's uint32(n): the length field silently wraps. */
  function Uint32(n: nat): Ipv4 {
    n % TWO_32
  }

  function Encode(env: Envelope): Bytes {
    [VERSION, env.typ] + Be32(Uint32(|env.body|)) + env.body
  }

  function Decode(data: Bytes): Result<Envelope, EnvelopeError> {
    if |data| < HEADER_LEN then Err(TooShort)
    else if data[0] != VERSION then Err(BadVersion)
    else if Uint32(|data| - HEADER_LEN) != FromBe32(data[2..6]) then Err(BadLength)
    else Ok(Envelope(data[1], data[6..6 + FromBe32(data[2..6])]))
  }

  /** An encoded envelope decodes to itself exactly when its body length fits the length field. */
  lemma DecodeOfEncode(env: Envelope)
    ensures Decode(Encode(env)) == Ok(env) <==> |env.body| < TWO_32
    ensures Decode(Encode(env)) == Ok(env.(body := env.body[..Uint32(|env.body|)]))
  {
    var data := Encode(env);
    assert data[2..6] == Be32(Uint32(|env.body|));
    FromBe32OfBe32(Uint32(|env.body|));
    assert data[6..] == env.body;
    assert data[6..6 + Uint32(|env.body|)] == env.body[..Uint32(|env.body|)];
    if |env.body| < TWO_32 {
      assert env.body[..|env.body|] == env.body;
    }
  }

  /** An accepted datagram is the encoding of its envelope exactly when the length comparison did not wrap. */
  lemma EncodeOfDecode(data: Bytes)
    requires Decode(data).Ok?
    ensures Encode(Decode(data).value) == data <==> |data| < HEADER_LEN + TWO_32
  {
    var env := Decode(data).value;
    Be32OfFromBe32(data[2..6]);
    if |data| < HEADER_LEN + TWO_32 {
      assert env.body == data[6..];
      assert Encode(env) == [data[0], data[1]] + data[2..6] + data[6..];
    }
  }

  /** Below 2^32 body bytes the codec is a bijection onto the accepted datagrams. */
  lemma EnvelopeBijection(data: Bytes)
    requires |data| < HEADER_LEN + TWO_32
    ensures Decode(data).Ok? <==> exists env: Envelope :: |env.body| < TWO_32 && Encode(env) == data
    ensures forall env: Envelope, env': Envelope ::
              |env.body| < TWO_32 && |env'.body| < TWO_32 && Encode(env) == data && Encode(env') == data ==> env == env'
  {
    if Decode(data).Ok? {
      EncodeOfDecode(data);
    }
    forall env: Envelope | |env.body| < TWO_32 && Encode(env) == data
      ensures Decode(data) == Ok(env)
    {
      DecodeOfEncode(env);
    }
  }

  /** binary.BigEndian.PutUint32 at offset `at`. */
  method PutUint32(out: array<byte>, at: nat, x: Ipv4)
    requires at + 4 <= out.Length
    modifies out
    ensures out[at..at + 4] == Be32(x)
    ensures out[..at] == old(out[..at]) && out[at + 4..] == old(out[at + 4..])
  {
    out[at], out[at + 1], out[at + 2], out[at + 3] :=
      x / 0x100_0000, x / 0x1_0000 % 0x100, x / 0x100 % 0x100, x % 0x100;
  }

  /** Go's copy(out[at:], src): as many bytes as fit. */
  method CopyInto(out: array<byte>, at: nat, src: Bytes)
    requires at <= out.Length
    modifies out
    ensures var n := if |src| < out.Length - at then |src| else out.Length - at;
            out[at..at + n] == src[..n] && out[..at] == old(out[..at]) && out[at + n..] == old(out[at + n..])
  {
    var n := if |src| < out.Length - at then |src| else out.Length - at;
    for i := 0 to n
      invariant out[at..at + i] == src[..i]
      invariant out[..at] == old(out[..at])
      invariant out[at + i..] == old(out[at + i..])
    {
      out[at + i] := src[i];
      assert out[at..at + i + 1] == out[at..at + i] + [src[i]];
      assert out[at + i + 1..] == old(out[at + i..])[1..];
    }
  }

  method Marshal(env: Envelope) returns (out: array<byte>)
    ensures fresh(out) && out[..] == Encode(env)
  {
    out := new byte[HEADER_LEN + |env.body|];
    out[0] := VERSION;
    out[1] := env.typ;
    PutUint32(out, 2, Uint32(|env.body|));
    assert out[..2] == [VERSION, env.typ];
    assert out[..6] == out[..2] + out[2..6];
    CopyInto(out, 6, env.body);
    assert out[..] == out[..6] + out[6..];
    assert out[6..6 + |env.body|] == out[6..];
  }

  method Unmarshal(data: Bytes) returns (r: Result<Envelope, EnvelopeError>)
    ensures r == Decode(data)
  {
    if |data| < HEADER_LEN {
      return Err(TooShort);
    }
    if data[0] != VERSION {
      return Err(BadVersion);
    }
    var bodyLen := FromBe32(data[2..6]);
    if Uint32(|data| - HEADER_LEN) != bodyLen {
      return Err(BadLength);
    }
    var body := new byte[bodyLen];
    CopyInto(body, 0, data[6..]);
    assert body[..] == body[0..bodyLen] == data[6..][..bodyLen] == data[6..6 + bodyLen];
    return Ok(Envelope(data[1], body[..]));
  }
}
