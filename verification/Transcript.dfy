/** The join proof transcript (internal/protocol/protocol.go). */
module Transcripts {
  import opened Basics

  type MacFunction = (Bytes, Bytes) -> Bytes

  /** The bytes a join proof authenticates. */
  function Transcript(nonce: Bytes, user: Name, machine: Name, public: Bytes): Bytes {
    nonce + user + [NUL] + machine + [NUL] + public
  }

  /** Proof feeds a running MAC field by field. */
  method Proof(mac: MacFunction, verifier: Bytes, nonce: Bytes, user: Name, machine: Name, public: Bytes)
    returns (r: Bytes)
    ensures r == mac(verifier, Transcript(nonce, user, machine, public))
  {
    var fed := nonce;
    fed := fed + user;
    fed := fed + [NUL];
    fed := fed + machine;
    fed := fed + [NUL];
    fed := fed + public;
    r := mac(verifier, fed);
  }

  /** Equal-length nonces and NUL-free names make the transcript injective. */
  lemma TranscriptInjective(nonce: Bytes, user: Name, machine: Name, public: Bytes,
                            nonce': Bytes, user': Name, machine': Name, public': Bytes)
    requires |nonce| == |nonce'|
    requires NUL !in user && NUL !in user' && NUL !in machine && NUL !in machine'
    ensures Transcript(nonce, user, machine, public) == Transcript(nonce', user', machine', public')
            <==> nonce == nonce' && user == user' && machine == machine' && public == public'
  {
    var t, t' := Transcript(nonce, user, machine, public), Transcript(nonce', user', machine', public');
    if t == t' {
      assert nonce == t[..|nonce|] && nonce' == t'[..|nonce|];
      var rest, rest' := machine + [NUL] + public, machine' + [NUL] + public';
      assert t[|nonce|..] == user + [NUL] + rest;
      assert t'[|nonce|..] == user' + [NUL] + rest';
      SplitAtSeparator(NUL, user, user', rest, rest');
      SplitAtSeparator(NUL, machine, machine', public, public');
    }
  }

  /** The index of a NUL. */
  lemma NulIndex(x: Bytes) returns (i: nat)
    requires NUL in x
    ensures i < |x| && x == x[..i] + [NUL] + x[i + 1..]
  {
    i :| 0 <= i < |x| && x[i] == NUL;
  }

  /** NUL-free fields are read back from the bytes in one way only, whatever the other fields may hold. */
  lemma NulFreeFieldsAreUnique(nonce: Bytes, user: Name, machine: Name, public: Bytes,
                               user': Name, machine': Name, public': Bytes)
    requires NUL !in user && NUL !in machine && NUL !in public
    requires Transcript(nonce, user', machine', public') == Transcript(nonce, user, machine, public)
    ensures user' == user && machine' == machine && public' == public
  {
    var t, t' := Transcript(nonce, user, machine, public), Transcript(nonce, user', machine', public');
    var rest, rest' := machine + [NUL] + public, machine' + [NUL] + public';
    var a, b := |user|, |user| + 1 + |machine|;
    var s := t[|nonce|..];
    assert s == user + [NUL] + rest;
    assert t'[|nonce|..] == user' + [NUL] + rest';
    assert forall i :: 0 <= i < |s| && s[i] == NUL ==> i == a || i == b by {
      assert forall i :: 0 <= i < a ==> s[i] == user[i];
      assert forall i :: a < i < b ==> s[i] == machine[i - a - 1];
      assert forall i :: b < i < |s| ==> s[i] == public[i - b - 1];
    }
    var a', b' := |user'|, |user'| + 1 + |machine'|;
    assert s[a'] == NUL && s[b'] == NUL;
    assert user' == s[..a'] && user == s[..a];
    assert machine' == s[a' + 1..b'] && machine == s[a + 1..b];
    assert public' == s[b' + 1..] && public == s[b + 1..];
  }

  /** Another user, machine and key share the transcript exactly when one of the fields contains a NUL. */
  lemma TranscriptAmbiguousIff(nonce: Bytes, user: Name, machine: Name, public: Bytes)
    ensures (exists user', machine', public' ::
               !(user' == user && machine' == machine && public' == public) &&
               Transcript(nonce, user', machine', public') == Transcript(nonce, user, machine, public))
            <==> NUL in user || NUL in machine || NUL in public
  {
    if NUL in user {
      var i := NulIndex(user);
      var rest := machine + [NUL] + public;
      assert Transcript(nonce, user[..i], user[i + 1..], rest) == Transcript(nonce, user, machine, public);
    } else if NUL in machine {
      var i := NulIndex(machine);
      var rest := machine[i + 1..] + [NUL] + public;
      assert Transcript(nonce, user, machine[..i], rest) == Transcript(nonce, user, machine, public);
    } else if NUL in public {
      var i := NulIndex(public);
      var both := user + [NUL] + machine;
      assert Transcript(nonce, both, public[..i], public[i + 1..]) == Transcript(nonce, user, machine, public);
    } else {
      forall user', machine', public' |
        Transcript(nonce, user', machine', public') == Transcript(nonce, user, machine, public)
        ensures user' == user && machine' == machine && public' == public
      {
        NulFreeFieldsAreUnique(nonce, user, machine, public, user', machine', public');
      }
    }
  }
}
