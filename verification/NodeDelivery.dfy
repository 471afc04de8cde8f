/** What a node sends and delivers for certain: the direct copy, the dropped entry, and every queued packet. */
module NodeDelivery {
  import opened Basics
  import opened Envelopes
  import opened Signed
  import opened Packets
  import opened PeerAnswers
  import opened NodeModel
  import opened NodeSafety
  import opened NodeAnswers
  import opened Signatures

  // Sending.

  /**
   A packet that may go out goes to the peer's address when that is known and the pair is open both ways, and to the
   server for relaying unless a datagram came over that direct path within the last ten seconds.
   */
  lemma CopiesSentIff(cfg: Config, s: NodeState, dst: Ipv4, raw: Bytes, answer: Option<PeerAnswer>, nonce: Bytes,
                      now: nat, to: Endpoint)
    requires !s.blocked && EnsurePeer(cfg, s, dst, answer, now).1.Some?
    requires var p := EnsurePeer(cfg, s, dst, answer, now).1.value;
             (p.canCall || IsReplyPacket(raw)) && SealedBody(cfg, p, dst, raw, nonce).Some?
    ensures var p := EnsurePeer(cfg, s, dst, answer, now).1.value;
            var outs := SendTo(cfg, s, dst, raw, answer, nonce, now).outs;
            var body := SealedBody(cfg, p, dst, raw, nonce).value;
            && (Udp(to, Envelope(0x11, body)) in outs <==> p.canCall && p.canCallBack && p.realAddr == Some(to))
            && (Udp(cfg.serverAddr, Envelope(0x12, body)) in outs <==>
                !(p.canCall && p.canCallBack && p.directOK && now - p.lastSeen < 10_000_000_000))
  {
    var p := EnsurePeer(cfg, s, dst, answer, now).1.value;
    var body := SealedBody(cfg, p, dst, raw, nonce).value;
    if BothWays(p) && p.realAddr.Some? {
      assert Transmit(cfg, p, body, now)[0] == Udp(p.realAddr.value, Envelope(TYPE_DATA, body));
    }
    if !DirectOnly(p, now) {
      var outs := Transmit(cfg, p, body, now);
      assert outs[|outs| - 1] == Udp(cfg.serverAddr, Envelope(TYPE_RELAY_DATA, body));
    }
  }

  /** The server's entry always serves, any other while it is less than a second old, whatever an answer would say. */
  lemma FreshEntryServes(cfg: Config, s: NodeState, dst: Ipv4, answer: Option<PeerAnswer>, now: nat)
    requires dst in s.peers && (dst == ServerVpn(cfg) || now - s.peers[dst].lastSeen < 1_000_000_000)
    ensures EnsurePeer(cfg, s, dst, answer, now) == (s, Some(s.peers[dst]))
  {
  }

  /**
   Otherwise there is an entry exactly when an answer comes that knows the peer and yields a key: it is made from that
   answer, starts with the address in it, and replaces the old one.
   */
  lemma AnswerReplacesEntryIff(cfg: Config, s: NodeState, dst: Ipv4, answer: Option<PeerAnswer>, now: nat)
    requires dst != ServerVpn(cfg) && (dst in s.peers ==> now - s.peers[dst].lastSeen >= 1_000_000_000)
    ensures var (s', p) := EnsurePeer(cfg, s, dst, answer, now);
            && (p.Some? <==>
                answer.Some? && answer.value.found && cfg.crypto.sharedKey(cfg.exchKey, answer.value.exchPub).Some?)
            && (p.None? ==> s' == s)
            && (p.Some? ==>
                  && s' == s.(peers := s.peers[dst := p.value]) && MadeFrom(cfg, p.value, answer.value)
                  && !p.value.directOK && p.value.lastSeen == now
                  && p.value.realAddr == if answer.value.hasAddr then answer.value.addr else None)
  {
  }

  /** A call that the sender's half of the policy forbids is not sent, and the entry is asked for anew next time. */
  lemma ForbiddenCallDropsEntry(cfg: Config, s: NodeState, dst: Ipv4, raw: Bytes, answer: Option<PeerAnswer>,
                                nonce: Bytes, now: nat)
    requires !s.blocked && EnsurePeer(cfg, s, dst, answer, now).1.Some?
    requires !EnsurePeer(cfg, s, dst, answer, now).1.value.canCall && !IsReplyPacket(raw)
    ensures var step := SendTo(cfg, s, dst, raw, answer, nonce, now);
            step.outs == [] && dst !in step.state.peers &&
            forall ip :: ip != dst && ip in s.peers ==> ip in step.state.peers && step.state.peers[ip] == s.peers[ip]
  {
  }

  /** Sending touches the entry of its destination only, and leaves it in place unless the call is forbidden. */
  lemma SendTouchesOneEntry(cfg: Config, s: NodeState, dst: Ipv4, raw: Bytes, answer: Option<PeerAnswer>, nonce: Bytes,
                            now: nat)
    ensures var s', p := SendTo(cfg, s, dst, raw, answer, nonce, now).state, EnsurePeer(cfg, s, dst, answer, now).1;
            && s'.pending == s.pending && s'.blocked == s.blocked
            && (forall ip :: ip != dst ==>
                  (ip in s'.peers <==> ip in s.peers) && (ip in s.peers ==> s'.peers[ip] == s.peers[ip]))
            && (s.blocked || p.None? ==> s' == s)
            && (!s.blocked && p.Some? && (p.value.canCall || IsReplyPacket(raw)) ==>
                  dst in s'.peers && s'.peers[dst] == p.value)
  {
  }

  /** A TUN packet is sent on exactly when it is an IPv4 packet for somebody else. */
  lemma TunTargetIff(cfg: Config, raw: Bytes, dst: Ipv4)
    ensures TunTarget(cfg, raw) == Some(dst) <==>
            |raw| >= 20 && raw[0] / 0x10 == 4 && FromBe32(raw[16..20]) == dst && dst != cfg.vpnIP
  {
  }

  // Receiving.

  /** `env` passes the tests for a peer with these keys and this permission, and opens to `plain`. */
  ghost predicate Passes(cfg: Config, p: Peer, env: Envelope, plain: Bytes) {
    && ParseSigned(env.body).Ok? && SignedBy(cfg.crypto, p.signPub, env.body)
    && var m := ParseSigned(env.body).value.0;
       && m.srcIP != Some(cfg.vpnIP) && m.dstIP == Some(cfg.vpnIP)
       && cfg.crypto.open(p.key, m.payload) == Some(plain)
       && (p.canCallBack || IsReplyPacket(plain))
  }

  /** A datagram of a known peer is delivered exactly when it passes. */
  lemma DeliveredIff(cfg: Config, s: NodeState, env: Envelope, from: Endpoint, now: nat, plain: Bytes)
    requires !s.blocked && Names(env).Some? && Names(env).value in s.peers
    ensures HandleData(cfg, s, env, from, now).outs == [] ||
            exists x :: HandleData(cfg, s, env, from, now).outs == [Tun(x)]
    ensures Passes(cfg, s.peers[Names(env).value], env, plain) <==>
            HandleData(cfg, s, env, from, now).outs == [Tun(plain)]
  {
    var p := s.peers[Names(env).value];
    VerifiedIff(cfg.crypto, p.signPub, env.body);
    var outs := HandleData(cfg, s, env, from, now).outs;
    if outs != [] {
      assert outs == [Tun(outs[0].plain)];
    }
  }

  /** It moves the direct path to where it came from, unless that is the server, and changes nothing else. */
  lemma DatagramMovesPath(cfg: Config, s: NodeState, env: Envelope, from: Endpoint, now: nat)
    requires !s.blocked && Names(env).Some? && Names(env).value in s.peers
    ensures var s', ip := HandleData(cfg, s, env, from, now).state, Names(env).value;
            && s' == s.(peers := s'.peers) && s'.peers.Keys == s.peers.Keys
            && (forall x :: x in s.peers && (x != ip || from == cfg.serverAddr) ==> s'.peers[x] == s.peers[x])
            && (from != cfg.serverAddr ==>
                  SamePeer(s.peers[ip], s'.peers[ip]) && s'.peers[ip].realAddr == Some(from) &&
                  s'.peers[ip].directOK && s'.peers[ip].lastSeen == now)
  {
  }

  /** Every datagram of a queue that passes is delivered when the queue is handled. */
  lemma {:induction false} QueueDeliversAll(cfg: Config, s: NodeState, q: seq<Cached>, now: nat, ip: Ipv4, c: Cached,
                                            plain: Bytes)
    requires !s.blocked && ip in s.peers && forall x :: x in q ==> Names(x.env) == Some(ip)
    requires c in q && Passes(cfg, s.peers[ip], c.env, plain)
    ensures Tun(plain) in HandleAll(cfg, s, q, now).outs
  {
    if q == [] {
    } else {
      var front, last := q[..|q| - 1], q[|q| - 1];
      assert q == front + [last] && last in q && forall x :: x in front ==> x in q;
      if c in front {
        QueueDeliversAll(cfg, s, front, now, ip, c, plain);
      } else {
        HandleAllTouches(cfg, s, front, ip, now);
        DeliveredIff(cfg, HandleAll(cfg, s, front, now).state, last.env, last.from, now, plain);
      }
    }
  }

  /** A flush that finds the peer leaves no queue, and delivers every queued datagram that passes under its entry. */
  lemma FlushDeliversAll(cfg: Config, s: NodeState, ip: Ipv4, answer: Option<PeerAnswer>, now: nat, c: Cached,
                         plain: Bytes)
    requires !s.blocked && QueuesNamed(s) && c in Queue(s, ip)
    requires EnsurePeer(cfg, s, ip, answer, now).1.Some?
    requires Passes(cfg, EnsurePeer(cfg, s, ip, answer, now).1.value, c.env, plain)
    ensures var step := EnsurePeerThenFlush(cfg, s, ip, answer, now);
            Tun(plain) in step.outs && ip !in step.state.pending
  {
    EnsurePeerKeepsQueues(cfg, s, ip, answer, now);
    var s1 := EnsurePeer(cfg, s, ip, answer, now).0;
    var start := s1.(pending := s1.pending - {ip});
    assert ip in s1.peers && s1.peers[ip] == EnsurePeer(cfg, s, ip, answer, now).1.value;
    QueueDeliversAll(cfg, start, Queue(s1, ip), now, ip, c, plain);
    HandleAllTouches(cfg, start, Queue(s1, ip), ip, now);
  }

  /** A datagram of an unknown peer waits, unless four are waiting already. */
  lemma UnknownPeerWaits(cfg: Config, s: NodeState, env: Envelope, from: Endpoint, now: nat)
    requires !s.blocked && Names(env).Some? && Names(env).value !in s.peers
    ensures var ip, step := Names(env).value, HandleData(cfg, s, env, from, now);
            && step.outs == [] && step.state.peers == s.peers
            && (forall x :: x != ip ==> Queue(step.state, x) == Queue(s, x))
            && Queue(step.state, ip) == Queue(s, ip) + if |Queue(s, ip)| < 4 then [Cached(env, from)] else []
  {
  }

  /** A notice signed by the server drops every entry but the server's and sets its status; any other does nothing. */
  lemma NoticeEffect(cfg: Config, s: NodeState, env: Envelope)
    ensures var s', signed := HandlePolicyChanged(cfg, s, env),
                              |env.body| >= 73 && SignedBy(cfg.crypto, cfg.serverSignPub, env.body);
            if !signed then s' == s
            else
              var status := cfg.isBlocked(env.body[9..|env.body| - 64]);
              && s'.pending == s.pending
              && s'.blocked == (if status.Some? then status.value else s.blocked)
              && (forall ip :: ip in s'.peers <==> ip in s.peers && ip == ServerVpn(cfg))
              && (ServerVpn(cfg) in s.peers ==> s'.peers[ServerVpn(cfg)] == s.peers[ServerVpn(cfg)])
  {
    if ParseSigned(env.body).Ok? {
      VerifiedIff(cfg.crypto, cfg.serverSignPub, env.body);
      assert env.body[..|env.body| - 64][9..] == env.body[9..|env.body| - 64];
    }
  }
}
