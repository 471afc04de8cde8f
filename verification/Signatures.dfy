/** What it means that a body is signed, on the raw bytes: section 5.1 of RFC 8032 fixes the sizes. */
module Signatures {
  import opened Basics
  import opened Registry
  import opened Primitives
  import opened Signed

  /** The last 64 bytes are a signature over all bytes before them, under a 32-byte key. */
  predicate SignedBy(crypto: Crypto, key: Bytes, body: Bytes) {
    |key| == 32 && |body| >= 64 && crypto.verify(key, body[..|body| - 64], body[|body| - 64..])
  }

  /** The key is the first half of the machine's public blob. */
  predicate SignedByMachine(crypto: Crypto, row: Machine, body: Bytes) {
    |row.public| == 64 && SignedBy(crypto, row.public[..32], body)
  }

  /** The check on the parsed message is the check on the received bytes. */
  lemma VerifiedIff(crypto: Crypto, key: Bytes, body: Bytes)
    requires ParseSigned(body).Ok?
    ensures var (m, sig) := ParseSigned(body).value;
            crypto.VerifySigned(m, sig, key) <==> SignedBy(crypto, key, body)
  {
    MarshalOfParse(body);
    var (m, sig) := ParseSigned(body).value;
    assert body[..|body| - 64] == SignBytes(m) && body[|body| - 64..] == sig;
  }
}
