/** Challenges and proofs over whole runs: the nonce table against the history of join events. */
module Challenges {
  import opened Basics
  import opened Registry
  import opened Transcripts
  import opened Primitives
  import opened ServerModel
  import opened ServerFrames

  /** Event `e` issues a challenge for `key` in state `s`. */
  predicate Issues(s: ServerState, e: Event, key: Bytes) {
    e.JoinRequestEvent? && e.req.user != [] && e.req.machine != [] && e.req.public != [] && e.nonce.Some? &&
    JoinKey(e.req.user, e.req.machine) == key && GetUser(s.table, e.req.user).Some?
  }

  /** Event `e` uses up the outstanding challenge of `key`, whether or not the proof is right. */
  predicate Consumes(s: ServerState, e: Event, key: Bytes) {
    e.JoinProofEvent? && JoinKey(e.msg.user, e.msg.machine) == key && GetUser(s.table, e.msg.user).Some?
  }

  predicate Accepts(cfg: Config, s: ServerState, e: Event) {
    e.JoinProofEvent? && ProofAccepted(cfg, s, e.msg)
  }

  /** The event that issued the challenge still outstanding for `key`, read off the history. */
  function Outstanding(cfg: Config, t: Table, run: seq<Timed>, key: Bytes): Option<nat> {
    if run == [] then None
    else
      var front, e := run[..|run| - 1], run[|run| - 1].event;
      var s := After(cfg, t, front);
      if Issues(s, e, key) then Some(|run| - 1)
      else if Consumes(s, e, key) then None
      else Outstanding(cfg, t, front, key)
  }

  lemma RequestNonces(cfg: Config, s: ServerState, req: JoinRequest, nonce: Option<Bytes>, remote: Endpoint)
    ensures HandleJoinRequest(cfg, s, req, nonce, remote).state.nonces ==
            if Issues(s, JoinRequestEvent(req, nonce, remote), JoinKey(req.user, req.machine))
            then s.nonces[JoinKey(req.user, req.machine) := nonce.value] else s.nonces
  {
  }

  lemma ProofNonces(cfg: Config, s: ServerState, msg: JoinProof, remote: Endpoint)
    ensures HandleJoinProof(cfg, s, msg, remote).state.nonces ==
            if GetUser(s.table, msg.user).Some? then s.nonces - {JoinKey(msg.user, msg.machine)} else s.nonces
  {
  }

  lemma StepNonces(cfg: Config, s: ServerState, e: Timed, key: Bytes)
    ensures var nonces := ServerStep(cfg, s, e).state.nonces;
            if Issues(s, e.event, key) then key in nonces && nonces[key] == e.event.nonce.value
            else if Consumes(s, e.event, key) then key !in nonces
            else (key in nonces <==> key in s.nonces) && (key in nonces ==> nonces[key] == s.nonces[key])
  {
    match e.event
    case JoinRequestEvent(req, nonce, remote) => RequestNonces(cfg, s, req, nonce, remote);
    case JoinProofEvent(msg, remote) => ProofNonces(cfg, s, msg, remote);
    case SignedEvent(env, remote) => SignedFrame(cfg, s, env, remote, e.at);
    case AdminEvent(command, subject, to) => AdminCommandFrame(cfg, s, command, subject, to);
    case ReloadEvent(salt, verifier) =>
  }

  /** The nonce table holds exactly the outstanding challenges of the history. */
  lemma {:induction false} NoncesRefineHistory(cfg: Config, t: Table, run: seq<Timed>, key: Bytes)
    ensures var nonces, i := After(cfg, t, run).nonces, Outstanding(cfg, t, run, key);
            (key in nonces <==> i.Some?) &&
            (i.Some? ==> i.value < |run| && Issues(Before(cfg, t, run, i.value), run[i.value].event, key) &&
                         nonces[key] == run[i.value].event.nonce.value)
  {
    if run == [] {
    } else {
      var front, e := run[..|run| - 1], run[|run| - 1];
      var s := After(cfg, t, front);
      NoncesRefineHistory(cfg, t, front, key);
      StepNonces(cfg, s, e, key);
      var i := Outstanding(cfg, t, run, key);
      if i.Some? && i.value < |front| {
        assert front[..i.value] == run[..i.value];
      }
    }
  }

  /** One event issues the outstanding challenge, uses it up or leaves it. */
  lemma OutstandingStep(cfg: Config, t: Table, run: seq<Timed>, n: nat, key: Bytes)
    requires n < |run|
    ensures Outstanding(cfg, t, run[..n + 1], key) in {Some(n), None, Outstanding(cfg, t, run[..n], key)}
  {
    assert run[..n + 1][..n] == run[..n];
  }

  /** A challenge outstanding at `n` but not at the earlier `m` was issued in between. */
  lemma {:induction false} OutstandingIsRecent(cfg: Config, t: Table, run: seq<Timed>, m: nat, n: nat, key: Bytes)
    requires m <= n <= |run| && Outstanding(cfg, t, run[..m], key).None?
    ensures Outstanding(cfg, t, run[..n], key).Some? ==> Outstanding(cfg, t, run[..n], key).value >= m
    decreases n
  {
    if m == n {
    } else {
      OutstandingIsRecent(cfg, t, run, m, n - 1, key);
      OutstandingStep(cfg, t, run, n - 1, key);
    }
  }

  /** The challenge that the proof at event `j` answers. */
  function ChallengeOf(cfg: Config, t: Table, run: seq<Timed>, j: nat): Option<nat>
    requires j < |run| && run[j].event.JoinProofEvent?
  {
    Outstanding(cfg, t, run[..j], JoinKey(run[j].event.msg.user, run[j].event.msg.machine))
  }

  /** An accepted proof answers an earlier challenge issued for the same join key, and verifies against its nonce. */
  lemma AcceptedProofHasChallenge(cfg: Config, t: Table, run: seq<Timed>, j: nat)
    requires j < |run| && Accepts(cfg, Before(cfg, t, run, j), run[j].event)
    ensures var msg, s, i := run[j].event.msg, Before(cfg, t, run, j), ChallengeOf(cfg, t, run, j);
            && i.Some? && i.value < j
            && Issues(Before(cfg, t, run, i.value), run[i.value].event, JoinKey(msg.user, msg.machine))
            && cfg.crypto.VerifyProof(GetUser(s.table, msg.user).value.verifier, msg.proof,
                                      run[i.value].event.nonce.value, msg.user, msg.machine, msg.public)
  {
    var msg := run[j].event.msg;
    NoncesRefineHistory(cfg, t, run[..j], JoinKey(msg.user, msg.machine));
    var i := ChallengeOf(cfg, t, run, j);
    assert run[..j][..i.value] == run[..i.value];
  }

  /** An accepted proof uses up its challenge. */
  lemma AcceptedProofUsesItUp(cfg: Config, t: Table, run: seq<Timed>, j: nat)
    requires j < |run| && Accepts(cfg, Before(cfg, t, run, j), run[j].event)
    ensures Outstanding(cfg, t, run[..j + 1], JoinKey(run[j].event.msg.user, run[j].event.msg.machine)).None?
  {
    assert run[..j + 1][..j] == run[..j];
  }

  /** Each challenge authorises at most one accepted proof: the map from proofs to challenges is injective. */
  lemma ChallengeAuthorisesOnce(cfg: Config, t: Table, run: seq<Timed>, j: nat, j': nat)
    requires j < j' < |run|
    requires Accepts(cfg, Before(cfg, t, run, j), run[j].event) && Accepts(cfg, Before(cfg, t, run, j'), run[j'].event)
    ensures ChallengeOf(cfg, t, run, j) != ChallengeOf(cfg, t, run, j')
  {
    AcceptedProofHasChallenge(cfg, t, run, j);
    AcceptedProofHasChallenge(cfg, t, run, j');
    var msg, msg' := run[j].event.msg, run[j'].event.msg;
    var key := JoinKey(msg.user, msg.machine);
    if key == JoinKey(msg'.user, msg'.machine) {
      AcceptedProofUsesItUp(cfg, t, run, j);
      OutstandingIsRecent(cfg, t, run, j + 1, j', key);
    }
  }

  /** A proof without an outstanding challenge, or with a wrong answer, leaves the whole registry alone. */
  lemma RejectedProofChangesNothing(cfg: Config, t: Table, run: seq<Timed>, j: nat)
    requires j < |run| && run[j].event.JoinProofEvent? && !Accepts(cfg, Before(cfg, t, run, j), run[j].event)
    ensures Before(cfg, t, run, j + 1).table == Before(cfg, t, run, j).table
  {
    BeforeStep(cfg, t, run, j);
  }

  /** The step drew a nonce. */
  predicate Offers(e: Event) {
    e.JoinRequestEvent? && e.nonce.Some?
  }

  ghost predicate FreshNonces(run: seq<Timed>) {
    && (forall i :: 0 <= i < |run| && Offers(run[i].event) ==> |run[i].event.nonce.value| == 32)
    && (forall i, j :: 0 <= i < j < |run| && Offers(run[i].event) && Offers(run[j].event) ==>
          run[i].event.nonce != run[j].event.nonce)
  }

  /** The verifier and the transcript over which the server computes the MAC that `msg` has to match. */
  function MacInput(s: ServerState, msg: JoinProof): (Bytes, Bytes)
    requires GetUser(s.table, msg.user).Some? && JoinKey(msg.user, msg.machine) in s.nonces
  {
    (GetUser(s.table, msg.user).value.verifier,
     Transcript(s.nonces[JoinKey(msg.user, msg.machine)], msg.user, msg.machine, msg.public))
  }

  /** Two different MAC inputs with one MAC. */
  predicate Collide(mac: MacFunction, x: (Bytes, Bytes), y: (Bytes, Bytes)) {
    x != y && mac(x.0, x.1) == mac(y.0, y.1)
  }

  /** The first 32 bytes of an accepted proof's transcript are the nonce of its challenge. */
  lemma ProofUsesNonce(cfg: Config, t: Table, run: seq<Timed>, j: nat)
    requires FreshNonces(run) && j < |run| && Accepts(cfg, Before(cfg, t, run, j), run[j].event)
    ensures var i, x := ChallengeOf(cfg, t, run, j), MacInput(Before(cfg, t, run, j), run[j].event.msg);
            i.Some? && i.value < j && Offers(run[i.value].event) &&
            |x.1| >= 32 && Some(x.1[..32]) == run[i.value].event.nonce &&
            run[j].event.msg.proof == cfg.crypto.mac(x.0, x.1)
  {
    AcceptedProofHasChallenge(cfg, t, run, j);
    var msg := run[j].event.msg;
    NoncesRefineHistory(cfg, t, run[..j], JoinKey(msg.user, msg.machine));
    var nonce := run[ChallengeOf(cfg, t, run, j).value].event.nonce.value;
    assert Transcript(nonce, msg.user, msg.machine, msg.public)[..32] == nonce;
  }

  /**
   With fresh nonces the server computes every accepted proof from a transcript of its own: one proof accepted
   twice in a run is a collision between the two MAC inputs it computed.
   */
  lemma ProofAcceptedTwiceCollides(cfg: Config, t: Table, run: seq<Timed>, j: nat, j': nat)
    requires FreshNonces(run) && j < j' < |run|
    requires Accepts(cfg, Before(cfg, t, run, j), run[j].event) && Accepts(cfg, Before(cfg, t, run, j'), run[j'].event)
    ensures var x := MacInput(Before(cfg, t, run, j), run[j].event.msg);
            var y := MacInput(Before(cfg, t, run, j'), run[j'].event.msg);
            x.1 != y.1 && (run[j].event.msg.proof == run[j'].event.msg.proof <==> Collide(cfg.crypto.mac, x, y))
  {
    ChallengeAuthorisesOnce(cfg, t, run, j, j');
    ProofUsesNonce(cfg, t, run, j);
    ProofUsesNonce(cfg, t, run, j');
  }

  /**
   A proof made for some verifier, nonce, user, machine and key is accepted for exactly those, or else the two MAC
   inputs collide.
   */
  lemma ProofBindsIdentity(cfg: Config, s: ServerState, msg: JoinProof, verifier: Bytes,
                           nonce: Bytes, user: Name, machine: Name, public: Bytes)
    requires GetUser(s.table, msg.user).Some? && JoinKey(msg.user, msg.machine) in s.nonces
    requires msg.proof == cfg.crypto.mac(verifier, Transcript(nonce, user, machine, public))
    requires |nonce| == |s.nonces[JoinKey(msg.user, msg.machine)]|
    requires NUL !in user && NUL !in machine && NUL !in msg.user && NUL !in msg.machine
    ensures ProofAccepted(cfg, s, msg) <==>
            (nonce == s.nonces[JoinKey(msg.user, msg.machine)] && user == msg.user && machine == msg.machine &&
             public == msg.public && verifier == GetUser(s.table, msg.user).value.verifier) ||
            Collide(cfg.crypto.mac, (verifier, Transcript(nonce, user, machine, public)), MacInput(s, msg))
  {
    TranscriptInjective(nonce, user, machine, public,
                        s.nonces[JoinKey(msg.user, msg.machine)], msg.user, msg.machine, msg.public);
  }

  // The honest node (internal/node/node.go).

  function HonestProof(crypto: Crypto, verifier: Bytes, nonce: Bytes, user: Name, machine: Name, public: Bytes,
                       desired: int): JoinProof {
    JoinProof(user, machine, public, crypto.mac(verifier, Transcript(nonce, user, machine, public)), desired)
  }

  /** The answer to the current challenge is accepted whenever the stored verifier is the node's. */
  lemma HonestProofAccepted(cfg: Config, t: Table, run: seq<Timed>, j: nat, verifier: Bytes)
    requires j < |run| && run[j].event.JoinProofEvent?
    requires var msg, i := run[j].event.msg, ChallengeOf(cfg, t, run, j);
             i.Some? && i.value < j && run[i.value].event.JoinRequestEvent? && run[i.value].event.nonce.Some? &&
             msg == HonestProof(cfg.crypto, verifier, run[i.value].event.nonce.value,
                                msg.user, msg.machine, msg.public, msg.desired)
    requires var u := GetUser(Before(cfg, t, run, j).table, run[j].event.msg.user);
             u.Some? && u.value.verifier == verifier
    ensures Accepts(cfg, Before(cfg, t, run, j), run[j].event)
  {
    NoncesRefineHistory(cfg, t, run[..j], JoinKey(run[j].event.msg.user, run[j].event.msg.machine));
  }

  /** First contact registers the verifier; the same node asking again is challenged and its answer is accepted. */
  lemma HonestRejoinAccepted(cfg: Config, s: ServerState, req: JoinRequest, nonce: Bytes, remote: Endpoint)
    requires req.user != [] && req.machine != [] && req.public != [] && req.salt != [] && req.verifier != []
    requires GetUser(s.table, req.user).None?
    ensures var first := HandleJoinRequest(cfg, s, req, None, remote).state;
            var second := HandleJoinRequest(cfg, first, req, Some(nonce), remote);
            second.outs == [Send(remote, Challenge(nonce))] &&
            ProofAccepted(cfg, second.state,
                          HonestProof(cfg.crypto, req.verifier, nonce, req.user, req.machine, req.public, req.desired))
  {
    var first := HandleJoinRequest(cfg, s, req, None, remote).state;
    var us, n := first.table.users, |s.table.users|;
    assert NamedUser(req.user)(us[n]);
    forall j | 0 <= j < n
      ensures !NamedUser(req.user)(us[j])
    {
      assert us[j] == s.table.users[j];
    }
    assert FindUser(first.table, req.user) == n;
  }

  /**
   A reload of the admin password takes effect on challenges already out: a proof under the new verifier is accepted,
   one under another verifier only if the two MACs of its transcript collide.
   */
  lemma ReloadSwitchesPassword(cfg: Config, s: ServerState, salt: Bytes, verifier: Bytes, at: nat,
                               tried: Bytes, machine: Name, public: Bytes, desired: int)
    requires GetUser(s.table, cfg.admin).Some? && JoinKey(cfg.admin, machine) in s.nonces
    ensures var s' := ServerStep(cfg, s, Timed(ReloadEvent(salt, verifier), at)).state;
            var nonce := s.nonces[JoinKey(cfg.admin, machine)];
            var answer := HonestProof(cfg.crypto, tried, nonce, cfg.admin, machine, public, desired);
            var x := Transcript(nonce, cfg.admin, machine, public);
            ProofAccepted(cfg, s', answer) <==>
              tried == verifier || Collide(cfg.crypto.mac, (tried, x), (verifier, x))
  {
    var s' := ServerStep(cfg, s, Timed(ReloadEvent(salt, verifier), at)).state;
    var i := FindUser(s.table, cfg.admin);
    assert NamedUser(cfg.admin)(s.table.users[i]) && NamedUser(cfg.admin)(s'.table.users[i]);
    assert forall j :: 0 <= j < i ==> !NamedUser(cfg.admin)(s.table.users[j]) && s'.table.users[j] == s.table.users[j];
    assert FindUser(s'.table, cfg.admin) == i;
  }
}
