/**
 The cryptographic primitives as functions the model is parametric in, with the
 laws it uses: a made signature verifies, sealing is undone by opening, and the
 session key of a pair is the same on both sides.  Unforgeability is not assumed.
 */
module Primitives {
  import opened Basics
  import opened Transcripts
  import Signed

  datatype Crypto = Crypto(
    signPub: Bytes -> Bytes,
    sign: (Bytes, Bytes) -> Bytes,
    verify: (Bytes, Bytes, Bytes) -> bool,
    exchPub: Bytes -> Bytes,
    sharedKey: (Bytes, Bytes) -> Option<Bytes>,
    seal: (Bytes, Bytes, Bytes) -> Option<Bytes>,
    open: (Bytes, Bytes) -> Option<Bytes>,
    mac: MacFunction
  ) {
    ghost predicate SignaturesVerify() {
      forall sk, m :: |sign(sk, m)| == Signed.SIGNATURE_SIZE && verify(signPub(sk), m, sign(sk, m))
    }

    ghost predicate KeysHaveFixedSize() {
      && (forall sk :: |signPub(sk)| == Signed.KEY_SIZE)
      && (forall xk :: |exchPub(xk)| == Signed.KEY_SIZE)
    }

    ghost predicate SharedKeysAgree() {
      forall xk, xk' :: sharedKey(xk, exchPub(xk')).Some? && sharedKey(xk, exchPub(xk')) == sharedKey(xk', exchPub(xk))
    }

    ghost predicate OpenUndoesSeal() {
      forall key, nonce, plain :: seal(key, nonce, plain).Some? ==>
        open(key, seal(key, nonce, plain).value) == Some(plain)
    }

    ghost predicate Lawful() {
      SignaturesVerify() && KeysHaveFixedSize() && SharedKeysAgree() && OpenUndoesSeal()
    }

    /** Public blob of an identity: signing key, then exchange key. */
    function PublicBlob(sk: Bytes, xk: Bytes): Bytes {
      signPub(sk) + exchPub(xk)
    }

    /** VerifySigned checks the sizes before the signature. */
    predicate VerifySigned(m: Signed.SignedMessage, sig: Bytes, key: Bytes) {
      |key| == Signed.KEY_SIZE && |sig| == Signed.SIGNATURE_SIZE && verify(key, Signed.SignBytes(m), sig)
    }

    function Signer(sk: Bytes): Bytes -> Bytes {
      m => sign(sk, m)
    }

    predicate VerifyProof(verifier: Bytes, proof: Bytes, nonce: Bytes, user: Name, machine: Name, public: Bytes) {
      proof == mac(verifier, Transcript(nonce, user, machine, public))
    }
  }

  /** The laws are consistent. */
  lemma LawfulPrimitivesExist()
    ensures exists c: Crypto :: c.Lawful()
  {
    var key: Bytes := seq(Signed.KEY_SIZE, _ => 0);
    var sig: Bytes := seq(Signed.SIGNATURE_SIZE, _ => 0);
    var c := Crypto(_ => key, (_, _) => sig, (_, _, _) => true, _ => key, (_, _) => Some(key),
                    (_, _, plain) => Some(plain), (_, blob) => Some(blob), (v, x) => v + x);
    assert c.Lawful();
  }
}
