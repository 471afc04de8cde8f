/** The bytes of the datagram formats, against the positional value of a byte string. */
module Layouts {
  import opened Basics
  import opened Envelopes
  import opened Signed
  import opened Transcripts
  import opened PeerAnswers

  /** The number written in base 256, most significant byte first. */
  function BigEndian(b: Bytes): nat {
    if b == [] then 0 else BigEndian(b[..|b| - 1]) * 256 + b[|b| - 1]
  }

  lemma BigEndianTwo(b: Bytes)
    requires |b| == 2
    ensures BigEndian(b) == b[0] as int * 0x100 + b[1] as int
  {
    assert BigEndian(b[..1]) == BigEndian(b[..1][..0]) * 256 + b[0];
  }

  lemma BigEndianFour(b: Bytes)
    requires |b| == 4
    ensures BigEndian(b) == FromBe32(b)
  {
    BigEndianTwo(b[..2]);
    assert b[..3][..2] == b[..2];
    assert BigEndian(b[..3]) == BigEndian(b[..2]) * 256 + b[2];
  }

  /** An address is written as its four-byte number, the zero address as 0. */
  lemma AddressBytes(a: Option<Ipv4>)
    ensures BigEndian(Addr4(a)) == if a.Some? then a.value else 0
  {
    BigEndianFour(Addr4(a));
    if a.Some? {
      FromBe32OfBe32(a.value);
    }
  }

  /** Version 3, the type, the body length modulo 2^32 and the body. */
  lemma EnvelopeLayout(env: Envelope)
    ensures var data := Encode(env);
            |data| == 6 + |env.body| && data[0] == 3 && data[1] == env.typ &&
            BigEndian(data[2..6]) == |env.body| % 0x1_0000_0000 && data[6..] == env.body
  {
    var data, n := Encode(env), Uint32(|env.body|);
    assert data[2..6] == Be32(n);
    BigEndianFour(Be32(n));
    FromBe32OfBe32(n);
  }

  /** Type, source, destination and payload, then the signature over all of them. */
  lemma SignedLayout(m: SignedMessage, sign: Bytes -> Bytes)
    ensures var body, n := EncodeSigned(m, sign), 9 + |m.payload|;
            && |body| == n + |sign(body[..n])| && body[0] == m.typ
            && BigEndian(body[1..5]) == (if m.srcIP.Some? then m.srcIP.value else 0)
            && BigEndian(body[5..9]) == (if m.dstIP.Some? then m.dstIP.value else 0)
            && body[9..n] == m.payload && body[n..] == sign(body[..n])
  {
    var body, signed := EncodeSigned(m, sign), SignBytes(m);
    SignBytesSlices(m);
    assert body[..|signed|] == signed;
    assert body[1..5] == signed[1..5] && body[5..9] == signed[5..9] && body[9..|signed|] == signed[9..];
    AddressBytes(m.srcIP);
    AddressBytes(m.dstIP);
  }

  /** The nonce, the user and the machine each ended by a zero byte, and the public blob. */
  lemma TranscriptLayout(nonce: Bytes, user: Name, machine: Name, public: Bytes)
    ensures var t, i := Transcript(nonce, user, machine, public), |nonce|;
            var j := i + |user| + 1;
            var k := j + |machine| + 1;
            && |t| == k + |public| && t[..i] == nonce && t[i..j] == user + [0] && t[j..k] == machine + [0]
            && t[k..] == public
  {
    var t := Transcript(nonce, user, machine, public);
    assert t == nonce + ((user + [0]) + ((machine + [0]) + public));
  }

  /** A single zero byte, or the flags, the address if there is one, and the two keys. */
  lemma AnswerLayout(a: PeerAnswer)
    ensures var p := EncodeAnswer(a);
            if !a.found then p == [0]
            else
              var n := if a.hasAddr then 10 else 4;
              && |p| == n + |a.signPub| + |a.exchPub| && p[0] == 1
              && p[1] == (if a.hasAddr then 1 else 0)
              && p[2] == (if a.canCall then 1 else 0)
              && p[3] == (if a.canCallBack then 1 else 0)
              && p[n..n + |a.signPub|] == a.signPub && p[n + |a.signPub|..] == a.exchPub
              && (a.hasAddr ==>
                    BigEndian(p[4..8]) == (if a.addr.Some? then a.addr.value.ip else 0) &&
                    BigEndian(p[8..10]) == (if a.addr.Some? then a.addr.value.port else 0))
  {
    if a.found {
      FoundLayout(a);
      var p, n := EncodeAnswer(a), if a.hasAddr then 10 else 4;
      assert p[n..n + |a.signPub|] == p[n..][..|a.signPub|];
      assert p[n + |a.signPub|..] == p[n..][|a.signPub|..];
      if a.hasAddr {
        var ip := Addr4(if a.addr.Some? then Some(a.addr.value.ip) else None);
        assert p[4..8] == p[4..10][..4] == ip;
        AddressBytes(if a.addr.Some? then Some(a.addr.value.ip) else None);
        assert p[8] == p[4..10][4] && p[9] == p[4..10][5];
        BigEndianTwo(p[8..10]);
      }
    }
  }

  /** Where an accepted answer's fields are in its bytes, and which bytes are accepted. */
  lemma AnswerRead(p: Bytes)
    ensures ParseAnswer(p).Ok? <==> |p| > 0 && (p[0] == 0 || (|p| == 68 && p[1] != 1) || (|p| == 74 && p[1] == 1))
    ensures ParseAnswer(p).Ok? ==>
              var a := ParseAnswer(p).value;
              && (a.found <==> p[0] != 0)
              && (a.found ==>
                    && (a.hasAddr <==> p[1] == 1) && (a.canCall <==> p[2] == 1) && (a.canCallBack <==> p[3] == 1)
                    && a.signPub == p[|p| - 64..|p| - 32] && a.exchPub == p[|p| - 32..]
                    && (a.hasAddr ==> a.addr.Some? && BigEndian(p[4..8]) == a.addr.value.ip &&
                                      BigEndian(p[8..10]) == a.addr.value.port))
  {
    if ParseAnswer(p).Ok? && ParseAnswer(p).value.hasAddr {
      BigEndianFour(p[4..8]);
      BigEndianTwo(p[8..10]);
    }
  }
}
