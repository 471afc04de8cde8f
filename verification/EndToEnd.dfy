/**
 From one machine to another through the relay: both ends learn the policy from the server's answers, apply the
 same test to a packet, and what is delivered is the sender's packet byte for byte.
 */
module EndToEnd {
  import opened Basics
  import opened Prefixes
  import opened Registry
  import opened Policy
  import opened Primitives
  import opened Signed
  import opened Envelopes
  import opened Packets
  import opened PeerAnswers
  import opened NodeAnswers
  import opened Signatures
  import opened Authentication
  import opened Grants
  import opened AdminEffects
  import RelaySafety
  import S = ServerModel
  import N = NodeModel

  /** The node is the active machine registered for its address. */
  ghost predicate Joined(cfg: S.Config, t: Table, node: N.Config, row: Machine) {
    && FindMachineByIP(t, node.vpnIP) == Some(row) && row.status == Active
    && row.public == cfg.crypto.PublicBlob(node.signKey, node.exchKey)
    && node.crypto == cfg.crypto
  }

  /** What a packet signed by the server carries, from the address after the one written in the subnet. */
  lemma ServerSignedReads(cfg: S.Config, typ: byte, dst: Option<Ipv4>, payload: Bytes)
    requires cfg.crypto.Lawful()
    ensures var packet := S.ServerSigned(cfg, typ, dst, payload);
            packet.Wire? && packet.env.typ == typ && ParseSigned(packet.env.body).Ok? &&
            SignedBy(cfg.crypto, cfg.crypto.signPub(cfg.signKey), packet.env.body) &&
            var m := ParseSigned(packet.env.body).value.0;
            m.typ == typ && m.payload == payload && m.dstIP == Some(if dst.Some? then dst.value else 0) &&
            m.srcIP == Some(if cfg.subnet.addr == 0xffff_ffff then 0 else cfg.subnet.addr + 1)
  {
    var m := SignedMessage(typ, ServerIP(cfg.subnet), dst, payload);
    var sig := cfg.crypto.sign(cfg.signKey, SignBytes(m));
    assert |sig| == SIGNATURE_SIZE && |cfg.crypto.signPub(cfg.signKey)| == KEY_SIZE;
    assert cfg.crypto.verify(cfg.crypto.signPub(cfg.signKey), SignBytes(m), sig);
    var body := EncodeSigned(m, cfg.crypto.Signer(cfg.signKey));
    SignBytesSlices(m);
    assert body[..|body| - 64] == SignBytes(m) && body[|body| - 64..] == sig;
    FromBe32OfBe32(if dst.Some? then dst.value else 0);
    FromBe32OfBe32(if cfg.subnet.addr == 0xffff_ffff then 0 else cfg.subnet.addr + 1);
  }

  /** What `node` receives when it asks about `target`. */
  function AnswerTo(cfg: S.Config, s: S.ServerState, row: Machine, target: Ipv4): Result<PeerAnswer, CodecError> {
    ParseAnswer(EncodeAnswer(S.PeerAnswerFor(cfg, s, row, target)))
  }

  /**
   A query is answered to the asker's endpoint, and the reply verifies under the server's key and carries that answer.
   */
  lemma AnswerTravels(cfg: S.Config, s: S.ServerState, row: Machine, asker: Ipv4, target: Ipv4, remote: Endpoint)
    requires cfg.crypto.Lawful() && asker in s.ipEndpoints && ServerIP(cfg.subnet).Some?
    ensures var outs := S.PeerQuery(cfg, s, row, asker, PeerQueryPayload(target), remote);
            |outs| > 0 && outs[0].Send? && outs[0].to == s.ipEndpoints[asker] && outs[0].packet.Wire? &&
            outs[0].packet.env.typ == TYPE_PEER_QUERY_RPY &&
            var parsed := ParseSigned(outs[0].packet.env.body);
            parsed.Ok? && SignedBy(cfg.crypto, cfg.crypto.signPub(cfg.signKey), outs[0].packet.env.body) &&
            parsed.value.0.dstIP == Some(asker) && ParseAnswer(parsed.value.0.payload) == AnswerTo(cfg, s, row, target)
  {
    PeerQueryRoundTrip(target, PeerQueryPayload(target));
    ServerSignedReads(cfg, TYPE_PEER_QUERY_RPY, Some(asker), EncodeAnswer(S.PeerAnswerFor(cfg, s, row, target)));
  }

  lemma KeysOfBlob(crypto: Crypto, sk: Bytes, xk: Bytes, row: Machine)
    requires crypto.Lawful() && row.public == crypto.PublicBlob(sk, xk)
    ensures S.MachineKeys(row) == (crypto.signPub(sk), crypto.exchPub(xk))
    ensures |S.MachineKeys(row).0| == KEY_SIZE && |S.MachineKeys(row).1| == KEY_SIZE
  {
    assert |crypto.signPub(sk)| == KEY_SIZE && |crypto.exchPub(xk)| == KEY_SIZE;
    assert row.public[..KEY_SIZE] == crypto.signPub(sk);
    assert row.public[KEY_SIZE..] == crypto.exchPub(xk);
  }

  /** The answer about a joined machine survives the wire and carries its keys and both directions of the policy. */
  lemma AnswerAboutJoined(cfg: S.Config, s: S.ServerState, row: Machine, node: N.Config, target: Machine)
    requires cfg.crypto.Lawful() && Joined(cfg, s.table, node, target)
    ensures var r := AnswerTo(cfg, s, row, node.vpnIP);
            r.Ok? && r.value.found
            && r.value.signPub == cfg.crypto.signPub(node.signKey) &&
               r.value.exchPub == cfg.crypto.exchPub(node.exchKey)
            && (r.value.canCall <==> row.status == Active && AllowRelay(cfg.admin, s.table, row, target))
            && (r.value.canCallBack <==> AllowRelay(cfg.admin, s.table, target, row))
            && (r.value.hasAddr ==> AllowP2P(cfg.admin, s.table, row, target))
  {
    KeysOfBlob(cfg.crypto, node.signKey, node.exchKey, target);
    ParseOfEncode(S.PeerAnswerFor(cfg, s, row, node.vpnIP));
  }

  /**
   Two joined machines that ask under one policy: the permission A holds for calls from B is the one B holds for
   calls to A, and both derive the same session key.
   */
  lemma TheTwoEndsAgree(cfg: S.Config, s: S.ServerState, s': S.ServerState,
                        a: N.Config, rowA: Machine, b: N.Config, rowB: Machine)
    requires cfg.crypto.Lawful() && s.table == s'.table
    requires Joined(cfg, s.table, a, rowA) && Joined(cfg, s.table, b, rowB)
    ensures var atA, atB := AnswerTo(cfg, s, rowA, b.vpnIP), AnswerTo(cfg, s', rowB, a.vpnIP);
            atA.Ok? && atB.Ok?
            && (atA.value.canCallBack <==> atB.value.canCall) && (atA.value.canCall <==> atB.value.canCallBack)
            && (atB.value.canCall <==> AllowRelay(cfg.admin, s.table, rowB, rowA))
            && cfg.crypto.sharedKey(a.exchKey, atA.value.exchPub).Some?
            && cfg.crypto.sharedKey(a.exchKey, atA.value.exchPub) == cfg.crypto.sharedKey(b.exchKey, atB.value.exchPub)
  {
    AnswerAboutJoined(cfg, s, rowA, b, rowB);
    AnswerAboutJoined(cfg, s', rowB, a, rowA);
  }

  /** A packet passes the sender's test at B exactly when it passes the receiver's test at A. */
  lemma CallTestsAgree(cfg: S.Config, s: S.ServerState, s': S.ServerState,
                       a: N.Config, rowA: Machine, b: N.Config, rowB: Machine,
                       entryAtA: N.Peer, entryAtB: N.Peer, raw: Bytes)
    requires cfg.crypto.Lawful() && s.table == s'.table
    requires Joined(cfg, s.table, a, rowA) && Joined(cfg, s.table, b, rowB)
    requires AnswerTo(cfg, s, rowA, b.vpnIP).Ok? && MadeFrom(a, entryAtA, AnswerTo(cfg, s, rowA, b.vpnIP).value)
    requires AnswerTo(cfg, s', rowB, a.vpnIP).Ok? && MadeFrom(b, entryAtB, AnswerTo(cfg, s', rowB, a.vpnIP).value)
    ensures N.MaySend(entryAtB, raw) <==> N.MayReceive(entryAtA, raw)
    ensures N.MaySend(entryAtB, raw) <==> AllowRelay(cfg.admin, s.table, rowB, rowA) || IsReplyPacket(raw)
    ensures entryAtA.key == entryAtB.key && entryAtA.signPub == cfg.crypto.signPub(b.signKey)
  {
    TheTwoEndsAgree(cfg, s, s', a, rowA, b, rowB);
    AnswerAboutJoined(cfg, s, rowA, b, rowB);
  }

  /** Any body B seals for A opens at A to B's packet, whatever envelope and path carried it. */
  lemma DeliveredByteForByte(a: N.Config, b: N.Config, entryAtA: N.Peer, entryAtB: N.Peer, raw: Bytes, nonce: Bytes)
    requires b.crypto.Lawful() && a.crypto == b.crypto && a.vpnIP != b.vpnIP
    requires entryAtA.key == entryAtB.key && entryAtA.signPub == b.crypto.signPub(b.signKey)
    requires N.SealedBody(b, entryAtB, a.vpnIP, raw, nonce).Some?
    ensures var body := N.SealedBody(b, entryAtB, a.vpnIP, raw, nonce).value;
            ParseSigned(body).Ok? && ParseSigned(body).value.0.srcIP == Some(b.vpnIP) &&
            ParseSigned(body).value.0.dstIP == Some(a.vpnIP) &&
            SignedBy(b.crypto, b.crypto.signPub(b.signKey), body) &&
            N.Deliver(a, entryAtA, ParseSigned(body).value.0, ParseSigned(body).value.1) ==
            if N.MayReceive(entryAtA, raw) then [N.Tun(raw)] else []
  {
    var cipher := b.crypto.seal(entryAtB.key, nonce, raw).value;
    var m := SignedMessage(TYPE_DATA, Some(b.vpnIP), Some(a.vpnIP), cipher);
    var sig := b.crypto.sign(b.signKey, SignBytes(m));
    assert |sig| == SIGNATURE_SIZE && |b.crypto.signPub(b.signKey)| == KEY_SIZE;
    ParseOfMarshal(m, b.crypto.Signer(b.signKey));
    assert b.crypto.verify(b.crypto.signPub(b.signKey), SignBytes(m), sig);
    assert b.crypto.open(entryAtB.key, cipher) == Some(raw);
    VerifiedIff(b.crypto, b.crypto.signPub(b.signKey), EncodeSigned(m, b.crypto.Signer(b.signKey)));
  }

  /** What the server does with the relay copy of that body. */
  lemma ServerRelays(cfg: S.Config, s: S.ServerState, rowA: Machine, rowB: Machine, a: N.Config, b: N.Config,
                     body: Bytes, remote: Endpoint, now: nat)
    requires cfg.crypto.Lawful() && Joined(cfg, s.table, a, rowA) && Joined(cfg, s.table, b, rowB)
    requires ParseSigned(body).Ok? && ParseSigned(body).value.0.srcIP == Some(b.vpnIP) &&
             ParseSigned(body).value.0.dstIP == Some(a.vpnIP)
    requires SignedBy(cfg.crypto, cfg.crypto.signPub(b.signKey), body)
    requires a.vpnIP != b.vpnIP && a.vpnIP in s.ipEndpoints
    ensures S.HandleSigned(cfg, s, Envelope(TYPE_RELAY_DATA, body), remote, now).outs ==
            if AllowRelay(cfg.admin, s.table, rowB, rowA) || S.RecentFlow(s.flows, b.vpnIP, a.vpnIP, now)
            then [S.Send(s.ipEndpoints[a.vpnIP], S.Wire(Envelope(TYPE_RELAY_DATA, body)))] else []
  {
    KeysOfBlob(cfg.crypto, b.signKey, b.exchKey, rowB);
    var env := Envelope(TYPE_RELAY_DATA, body);
    VerifiedIff(cfg.crypto, cfg.crypto.signPub(b.signKey), body);
    assert S.Authenticated(cfg, s.table, env) == Some((ParseSigned(body).value.0, rowB));
    RelaySafety.SignedForwards(cfg, s, env, remote, now);
  }

  /** A freshly made entry is not on the direct path, so a relay copy goes out. */
  lemma SenderRelays(b: N.Config, s: N.NodeState, dst: Ipv4, raw: Bytes, nonce: Bytes, now: nat)
    requires !s.blocked && dst in s.peers && N.Fresh(s.peers[dst], now) && !s.peers[dst].directOK
    requires N.SealedBody(b, s.peers[dst], dst, raw, nonce).Some?
    ensures var outs := N.SendTo(b, s, dst, raw, None, nonce, now).outs;
            var body := N.SealedBody(b, s.peers[dst], dst, raw, nonce).value;
            (N.MaySend(s.peers[dst], raw) ==> N.Udp(b.serverAddr, Envelope(TYPE_RELAY_DATA, body)) in outs) &&
            (!N.MaySend(s.peers[dst], raw) ==> outs == [])
  {
    var p := s.peers[dst];
    var body := N.SealedBody(b, p, dst, raw, nonce).value;
    if N.MaySend(p, raw) {
      var outs := N.Transmit(b, p, body, now);
      assert outs[|outs| - 1] == N.Udp(b.serverAddr, Envelope(TYPE_RELAY_DATA, body));
    }
  }

  /** What A writes to its TUN device when the relay hands it such a body. */
  lemma ReceiverWrites(a: N.Config, nodeA: N.NodeState, b: N.Config, entryAtB: N.Peer, raw: Bytes, nonce: Bytes,
                       now: nat)
    requires b.crypto.Lawful() && a.crypto == b.crypto && a.vpnIP != b.vpnIP && !nodeA.blocked && b.vpnIP in nodeA.peers
    requires nodeA.peers[b.vpnIP].key == entryAtB.key && nodeA.peers[b.vpnIP].signPub == b.crypto.signPub(b.signKey)
    requires N.SealedBody(b, entryAtB, a.vpnIP, raw, nonce).Some?
    ensures var copy := Envelope(TYPE_RELAY_DATA, N.SealedBody(b, entryAtB, a.vpnIP, raw, nonce).value);
            N.HandleData(a, nodeA, copy, a.serverAddr, now).outs ==
            if N.MayReceive(nodeA.peers[b.vpnIP], raw) then [N.Tun(raw)] else []
  {
    DeliveredByteForByte(a, b, nodeA.peers[b.vpnIP], entryAtB, raw, nonce);
  }

  /**
   End to end over the relay, under one policy.  B offers `raw` for A: B emits a relay copy exactly when the policy
   lets B call A or the packet is a reply; the server passes that copy to A exactly when the policy lets B call A or
   A had an allowed packet to B in the last 60 s; and what the server passes on, A writes to its TUN device unchanged.
   */
  lemma RelayEndToEnd(cfg: S.Config, s: S.ServerState, asked: S.ServerState, asked': S.ServerState,
                      a: N.Config, rowA: Machine, b: N.Config, rowB: Machine,
                      nodeA: N.NodeState, nodeB: N.NodeState, raw: Bytes, nonce: Bytes, remote: Endpoint, now: nat)
    requires cfg.crypto.Lawful() && a.vpnIP != b.vpnIP
    requires asked.table == s.table && asked'.table == s.table
    requires Joined(cfg, s.table, a, rowA) && Joined(cfg, s.table, b, rowB)
    requires a.vpnIP in s.ipEndpoints
    requires AnswerTo(cfg, asked, rowA, b.vpnIP).Ok? && b.vpnIP in nodeA.peers && !nodeA.blocked
    requires MadeFrom(a, nodeA.peers[b.vpnIP], AnswerTo(cfg, asked, rowA, b.vpnIP).value)
    requires AnswerTo(cfg, asked', rowB, a.vpnIP).Ok? && a.vpnIP in nodeB.peers && !nodeB.blocked
    requires MadeFrom(b, nodeB.peers[a.vpnIP], AnswerTo(cfg, asked', rowB, a.vpnIP).value)
    requires N.Fresh(nodeB.peers[a.vpnIP], now) && !nodeB.peers[a.vpnIP].directOK
    requires b.crypto.seal(nodeB.peers[a.vpnIP].key, nonce, raw).Some?
    ensures var allowed := AllowRelay(cfg.admin, s.table, rowB, rowA);
            var fromB := N.SendTo(b, nodeB, a.vpnIP, raw, None, nonce, now).outs;
            var copy := Envelope(TYPE_RELAY_DATA, N.SealedBody(b, nodeB.peers[a.vpnIP], a.vpnIP, raw, nonce).value);
            var fromServer := S.HandleSigned(cfg, s, copy, remote, now).outs;
            && (N.Udp(b.serverAddr, copy) in fromB <==> allowed || IsReplyPacket(raw))
            && (S.Send(s.ipEndpoints[a.vpnIP], S.Wire(copy)) in fromServer <==>
                  allowed || S.RecentFlow(s.flows, b.vpnIP, a.vpnIP, now))
            && (allowed || IsReplyPacket(raw) ==>
                  N.HandleData(a, nodeA, copy, a.serverAddr, now).outs == [N.Tun(raw)])
  {
    var entryAtA, entryAtB := nodeA.peers[b.vpnIP], nodeB.peers[a.vpnIP];
    CallTestsAgree(cfg, asked, asked', a, rowA, b, rowB, entryAtA, entryAtB, raw);
    DeliveredByteForByte(a, b, entryAtA, entryAtB, raw, nonce);
    ReceiverWrites(a, nodeA, b, entryAtB, raw, nonce, now);
    SenderRelays(b, nodeB, a.vpnIP, raw, nonce, now);
    var body := N.SealedBody(b, entryAtB, a.vpnIP, raw, nonce).value;
    ServerRelays(cfg, s, rowA, rowB, a, b, body, remote, now);
  }

  /**
   Data for the server: what a node seals under the server's key comes out unchanged exactly when policy allows it.
   */
  lemma ServerReceivesByteForByte(cfg: S.Config, s: S.ServerState, b: N.Config, rowB: Machine, p: N.Peer,
                                  raw: Bytes, nonce: Bytes, dst: Ipv4, remote: Endpoint, now: nat)
    requires cfg.crypto.Lawful() && Joined(cfg, s.table, b, rowB)
    requires b.serverExchPub == cfg.crypto.exchPub(cfg.exchKey)
    requires cfg.crypto.sharedKey(b.exchKey, b.serverExchPub) == Some(p.key)
    requires N.SealedBody(b, p, dst, raw, nonce).Some?
    ensures S.HandleSigned(cfg, s, Envelope(TYPE_DATA, N.SealedBody(b, p, dst, raw, nonce).value), remote, now).outs ==
            if AllowRelay(cfg.admin, s.table, rowB, ServerMachine(cfg.admin)) then [S.ToTun(raw)] else []
  {
    var cipher := b.crypto.seal(p.key, nonce, raw).value;
    var m := SignedMessage(TYPE_DATA, Some(b.vpnIP), Some(dst), cipher);
    var sig := b.crypto.sign(b.signKey, SignBytes(m));
    assert |sig| == SIGNATURE_SIZE;
    KeysOfBlob(cfg.crypto, b.signKey, b.exchKey, rowB);
    ParseOfMarshal(m, b.crypto.Signer(b.signKey));
    assert b.crypto.verify(b.crypto.signPub(b.signKey), SignBytes(m), sig);
    assert b.crypto.open(p.key, cipher) == Some(raw);
    assert cfg.crypto.sharedKey(cfg.exchKey, S.MachineKeys(rowB).1) == Some(p.key);
    var env := Envelope(TYPE_DATA, N.SealedBody(b, p, dst, raw, nonce).value);
    assert S.Authenticated(cfg, s.table, env) == Some((m, rowB));
  }

  /** One-way pairs never learn addresses: no answer or introduction carries one. */
  lemma OneWayPairLearnsNoAddress(cfg: S.Config, s: S.ServerState, src: Machine, srcIP: Ipv4, target: Ipv4,
                                  payload: Bytes, remote: Endpoint)
    requires FindMachineByIP(s.table, target).Some? && payload == PeerQueryPayload(target)
    requires var dst := FindMachineByIP(s.table, target).value;
             !MayCall(cfg.admin, s.table, src, dst) || !MayCall(cfg.admin, s.table, dst, src)
    ensures var answer := S.PeerAnswerFor(cfg, s, src, target);
            answer.addr.None? &&
            (ParseAnswer(EncodeAnswer(answer)).Ok? ==> ParseAnswer(EncodeAnswer(answer)).value.addr.None?) &&
            forall o :: o in S.PeerQuery(cfg, s, src, srcIP, payload, remote) ==>
              o.Send? && o.packet.Wire? && o.packet.env.typ != TYPE_PEER_INTRO
  {
    PeerQueryRoundTrip(target, payload);
    AllowP2PIff(cfg.admin, s.table, src, FindMachineByIP(s.table, target).value);
    var answer := S.PeerAnswerFor(cfg, s, src, target);
    if answer.found {
      FoundLayout(answer);
    }
  }

  predicate IsIntroduction(o: S.Output) {
    o.Send? && o.packet.Wire? && o.packet.env.typ == TYPE_PEER_INTRO
  }

  /** An introduction: signed by the server, for `target`, about a machine at `caller` and its endpoint. */
  ghost predicate Introduces(cfg: S.Config, packet: S.Packet, target: Ipv4, caller: Option<Ipv4>, addr: Endpoint) {
    packet.Wire? && packet.env.typ == 0x22 && ParseSigned(packet.env.body).Ok? &&
    SignedBy(cfg.crypto, cfg.crypto.signPub(cfg.signKey), packet.env.body) &&
    ParseSigned(packet.env.body).value.0.dstIP == Some(target) &&
    ParseSigned(packet.env.body).value.0.payload == cfg.encodeIntro(caller, addr)
  }

  /** Active target, both directions open, endpoint known. */
  ghost predicate Reachable(cfg: S.Config, t: Table, known: map<Ipv4, Endpoint>, src: Machine, target: Ipv4) {
    var dst := FindMachineByIP(t, target);
    dst.Some? && dst.value.status == Active && target in known &&
    MayCall(cfg.admin, t, src, dst.value) && MayCall(cfg.admin, t, dst.value, src)
  }

  lemma QueryTeachesIff(cfg: S.Config, s: S.ServerState, src: Machine, srcIP: Ipv4, payload: Bytes, remote: Endpoint,
                        target: Ipv4)
    requires payload == PeerQueryPayload(target)
    ensures var learns := Reachable(cfg, s.table, s.ipEndpoints, src, target);
            var answer := S.PeerAnswerFor(cfg, s, src, target);
            var outs := S.PeerQuery(cfg, s, src, srcIP, payload, remote);
            && (answer.hasAddr <==> learns) && (learns ==> answer.addr == Some(s.ipEndpoints[target]))
            && ((exists o :: o in outs && IsIntroduction(o)) <==> learns)
            && (cfg.crypto.Lawful() ==> forall o :: o in outs && IsIntroduction(o) ==>
                  o.to == s.ipEndpoints[target] && Introduces(cfg, o.packet, target, src.vpnIP, remote))
  {
    PeerQueryRoundTrip(target, payload);
    var answer := S.PeerAnswerFor(cfg, s, src, target);
    if FindMachineByIP(s.table, target).Some? {
      AllowP2PIff(cfg.admin, s.table, src, FindMachineByIP(s.table, target).value);
    }
    if cfg.crypto.Lawful() {
      ServerSignedReads(cfg, TYPE_PEER_INTRO, Some(target), cfg.encodeIntro(src.vpnIP, remote));
    }
    if answer.hasAddr {
      assert IsIntroduction(S.Send(s.ipEndpoints[target], S.Introduction(cfg, target, src, remote)));
    }
  }

  /**
   A verified query teaches the asker the target's endpoint, and the target the asker's, exactly when the target is
   active, the pair is open both ways and the endpoint is known.  The status of the asker plays no part: a denied
   machine still learns addresses, and its peers are still introduced to it.
   */
  lemma AddressLearntIff(cfg: S.Config, s: S.ServerState, env: Envelope, remote: Endpoint, now: nat,
                         m: SignedMessage, src: Machine, target: Ipv4)
    requires env.typ == TYPE_PEER_QUERY && S.Authenticated(cfg, s.table, env) == Some((m, src))
    requires m.payload == PeerQueryPayload(target)
    ensures m.srcIP.Some? &&
            var known := s.ipEndpoints[m.srcIP.value := remote];
            var learns := Reachable(cfg, s.table, known, src, target);
            var answer := S.PeerAnswerFor(cfg, S.RememberIPEndpoint(s, m.srcIP.value, remote), src, target);
            var outs := S.HandleSigned(cfg, s, env, remote, now).outs;
            && (answer.hasAddr <==> learns) && (learns ==> answer.addr == Some(known[target]))
            && ((exists o :: o in outs && IsIntroduction(o)) <==> learns)
            && (cfg.crypto.Lawful() ==> forall o :: o in outs && IsIntroduction(o) ==>
                  o.to == known[target] && Introduces(cfg, o.packet, target, src.vpnIP, remote))
  {
    var s1 := S.RememberIPEndpoint(s, m.srcIP.value, remote);
    assert S.HandleSigned(cfg, s, env, remote, now).outs == S.PeerQuery(cfg, s1, src, m.srcIP.value, m.payload, remote);
    QueryTeachesIff(cfg, s1, src, m.srcIP.value, m.payload, remote, target);
  }

  /** An accepted query is answered to where it came from, signed for its source and about the address it asks for. */
  lemma QueryIsAnswered(cfg: S.Config, s: S.ServerState, env: Envelope, remote: Endpoint, now: nat, m: SignedMessage,
                        src: Machine)
    requires cfg.crypto.Lawful() && env.typ == 0x20 && S.Authenticated(cfg, s.table, env) == Some((m, src))
    ensures var outs, body := S.HandleSigned(cfg, s, env, remote, now).outs, env.body;
            var srcIP, asked := FromBe32(body[1..5]), body[9..|body| - 64];
            var known := s.(ipEndpoints := s.ipEndpoints[srcIP := remote]);
            if |asked| != 4 then outs == []
            else
              |outs| > 0 && outs[0].Send? && outs[0].to == remote && outs[0].packet.Wire? &&
              outs[0].packet.env.typ == 0x21 &&
              SignedBy(cfg.crypto, cfg.crypto.signPub(cfg.signKey), outs[0].packet.env.body) &&
              var parsed := ParseSigned(outs[0].packet.env.body);
              parsed.Ok? && parsed.value.0.dstIP == Some(srcIP) &&
              ParseAnswer(parsed.value.0.payload) == AnswerTo(cfg, known, src, FromBe32(asked))
  {
    AuthenticatedIff(cfg, s.table, env, m, src);
    MessageFields(env.body);
    if |m.payload| == 4 {
      var known, target := S.RememberIPEndpoint(s, m.srcIP.value, remote), FromBe32(m.payload);
      ServerSignedReads(cfg, TYPE_PEER_QUERY_RPY, m.srcIP, EncodeAnswer(S.PeerAnswerFor(cfg, known, src, target)));
    }
  }

  /** A target is found exactly when an active machine holds the address; the answer about any other is "not found". */
  lemma AnswerFoundIff(cfg: S.Config, s: S.ServerState, row: Machine, target: Ipv4)
    ensures var dst := FindMachineByIP(s.table, target);
            var answer := S.PeerAnswerFor(cfg, s, row, target);
            (answer.found <==> dst.Some? && dst.value.status == Active) &&
            (!answer.found ==> answer == NOT_FOUND && AnswerTo(cfg, s, row, target) == Ok(NOT_FOUND))
  {
    ParseOfEncode(NOT_FOUND);
  }

  // Policy notices.

  /** The node holds the server's signing key and reads what the server writes into a notice. */
  ghost predicate ReadsNotices(cfg: S.Config, node: N.Config) {
    && node.crypto == cfg.crypto && node.serverSignPub == cfg.crypto.signPub(cfg.signKey)
    && forall status :: node.isBlocked(cfg.encodeStatus(status)) == Some(status == Blocked)
  }

  /** A notice verifies at the node, although its empty destination comes back as 0.0.0.0, and carries the status. */
  lemma NoticeIsRead(cfg: S.Config, node: N.Config, status: Status)
    requires cfg.crypto.Lawful() && ReadsNotices(cfg, node)
    ensures var env := S.PolicyNotice(cfg, status).env;
            IsNotice(node, N.PolicyEvent(env)) &&
            node.isBlocked(ParseSigned(env.body).value.0.payload) == Some(status == Blocked)
  {
    ServerSignedReads(cfg, TYPE_POLICY_CHANGED, None, cfg.encodeStatus(status));
  }

  /** Between two notices the node acts on the earlier one. */
  lemma {:induction false} StatusSinceNotice(node: N.Config, run: seq<N.Timed>, i: nat, status: bool)
    requires i < |run| && IsNotice(node, run[i].event)
    requires node.isBlocked(ParseSigned(run[i].event.env.body).value.0.payload) == Some(status)
    requires forall j :: i < j < |run| ==> !IsNotice(node, run[j].event)
    ensures LastStatus(node, run) == status
  {
    if i == |run| - 1 {
    } else {
      StatusSinceNotice(node, run[..|run| - 1], i, status);
    }
  }

  /** A node that receives the notice for a blocked machine neither sends nor delivers until the next notice. */
  lemma BlockingNoticeSilencesNode(cfg: S.Config, node: N.Config, run: seq<N.Timed>, i: nat, k: nat)
    requires cfg.crypto.Lawful() && ReadsNotices(cfg, node)
    requires i < k < |run| && run[i].event == N.PolicyEvent(S.PolicyNotice(cfg, Blocked).env)
    requires forall j :: i < j < k ==> !IsNotice(node, run[j].event)
    ensures N.OutputsAt(node, run, k) == []
  {
    NoticeIsRead(cfg, node, Blocked);
    StatusSinceNotice(node, run[..k], i, true);
    BlockedNodeIsSilent(node, run, k);
  }

  lemma BlockedRowStays(t: Table, disk: Disk, user: Name, machine: Name, row: Machine)
    requires ActiveSubject(t, user, machine) && RevocationsWritten(t, disk, S.Subject(user, machine))
    requires row in t.machines
    requires if machine == [] then row.user == user else GetMachine(t, user, machine) == Some(row)
    ensures row.(status := Blocked) in S.ServerDeny(t, disk, user, machine, []).0.machines
  {
    var ms' := S.ServerDeny(t, disk, user, machine, []).0.machines;
    var i :| 0 <= i < |t.machines| && t.machines[i] == row;
    if machine == [] {
      DenyBlocksActiveUserIff(t, disk, user);
      assert row.status.Pending? || row.status.Active? || row.status.Blocked?;
      assert ms'[i] == row.(status := Blocked);
    } else {
      DenyBlocksActiveMachineIff(t, disk, user, machine);
      assert ms'[FindMachine(t, user, machine)] == row.(status := Blocked);
    }
  }

  /** Denying an active user or machine, with every write coming off, sends that notice to each machine it blocks. */
  lemma DenyNotifiesBlocked(cfg: S.Config, s: S.ServerState, user: Name, machine: Name, row: Machine)
    requires user != [] && SLASH !in user && ActiveSubject(s.table, user, machine)
    requires RevocationsWritten(s.table, cfg.disk, S.Subject(user, machine))
    requires cfg.disk(s.table.writes + |GrantsOf(s.table.grants, S.Subject(user, machine))|)
    requires row in s.table.machines && row.vpnIP.Some? && row.vpnIP.value in s.ipEndpoints
    requires if machine == [] then row.user == user else GetMachine(s.table, user, machine) == Some(row)
    ensures var step := S.AdminCommand(cfg, s, S.DenyCommand, S.Subject(user, machine), []);
            step.outcome.Done? &&
            S.Send(s.ipEndpoints[row.vpnIP.value], S.PolicyNotice(cfg, Blocked)) in step.outs
  {
    DenyDoneIff(s.table, cfg.disk, user, machine);
    DenyIsBroadcast(cfg, s, user, machine);
    BlockedRowStays(s.table, cfg.disk, user, machine, row);
    BroadcastReachesExactly(cfg, S.ServerDeny(s.table, cfg.disk, user, machine, []).0.machines, s.ipEndpoints,
                            S.Send(s.ipEndpoints[row.vpnIP.value], S.PolicyNotice(cfg, Blocked)));
    assert row.(status := Blocked) in S.ServerDeny(s.table, cfg.disk, user, machine, []).0.machines;
  }

  /** The node's idea of the server's address is right exactly when the subnet is written as the node's own /24. */
  lemma NodeFindsServerIff(cfg: S.Config, node: N.Config)
    ensures ServerIP(cfg.subnet) == Some(N.ServerVpn(node)) <==> cfg.subnet.addr == node.vpnIP - node.vpnIP % 0x100
  {
  }

  /** The server holds no row for its own address, so a query about it is answered "not found". */
  lemma ServerIsNotFound(cfg: S.Config, s: S.ServerState, row: Machine, server: Ipv4)
    requires FindMachineByIP(s.table, server).None?
    ensures AnswerTo(cfg, s, row, server) == Ok(NOT_FOUND)
  {
    ParseOfEncode(NOT_FOUND);
  }

  /** `answer` is what the server answers about `ip` in some state in which no machine holds `ip`. */
  ghost predicate AnsweredWithoutHolder(cfg: S.Config, ip: Ipv4, answer: PeerAnswer) {
    exists s: S.ServerState, row: Machine ::
      FindMachineByIP(s.table, ip).None? && AnswerTo(cfg, s, row, ip) == Ok(answer)
  }

  /** A node that looks for the server elsewhere never sends anything to the server's true address. */
  lemma TrueServerOutOfReach(cfg: S.Config, node: N.Config, run: seq<N.Timed>, i: nat, server: Ipv4)
    requires ServerIP(cfg.subnet) == Some(server) && server != N.ServerVpn(node)
    requires i < |run| && run[i].event.TunEvent? && N.TunTarget(node, run[i].event.raw) == Some(server)
    requires forall k :: 0 <= k <= i && AnswerAbout(node, run[k].event, server).Some? ==>
               AnsweredWithoutHolder(cfg, server, AnswerAbout(node, run[k].event, server).value)
    ensures N.OutputsAt(node, run, i) == []
  {
    forall k | 0 <= k <= i && AnswerAbout(node, run[k].event, server).Some?
      ensures !AnswerAbout(node, run[k].event, server).value.found
    {
      var answer := AnswerAbout(node, run[k].event, server).value;
      var s: S.ServerState, row: Machine :|
        FindMachineByIP(s.table, server).None? && AnswerTo(cfg, s, row, server) == Ok(answer);
      ServerIsNotFound(cfg, s, row, server);
    }
    UnfoundPeerGetsNothing(node, run, i, server);
  }

  /**
   A machine at the first address of B's /24 is taken for the server: whatever B sends there is one body sealed under
   the server's key, and the copy that is not for relaying ends at the server's own TUN device, if B may reach it.
   */
  lemma MachineTakenForServer(cfg: S.Config, s: S.ServerState, b: N.Config, rowB: Machine, nodeB: N.NodeState,
                              raw: Bytes, answer: Option<PeerAnswer>, nonce: Bytes, remote: Endpoint, now: nat)
    requires cfg.crypto.Lawful() && Joined(cfg, s.table, b, rowB)
    requires b.serverExchPub == cfg.crypto.exchPub(cfg.exchKey) && ServerEntryIntact(b, nodeB)
    ensures var p := N.EnsurePeer(b, nodeB, N.ServerVpn(b), answer, now).1;
            p.Some? && cfg.crypto.sharedKey(b.exchKey, b.serverExchPub) == Some(p.value.key) &&
            var body := N.SealedBody(b, p.value, N.ServerVpn(b), raw, nonce);
            (forall o :: o in N.SendTo(b, nodeB, N.ServerVpn(b), raw, answer, nonce, now).outs ==>
               o.Udp? && Some(o.env.body) == body) &&
            (body.Some? ==>
               S.HandleSigned(cfg, s, Envelope(TYPE_DATA, body.value), remote, now).outs ==
               if AllowRelay(cfg.admin, s.table, rowB, ServerMachine(cfg.admin)) then [S.ToTun(raw)] else [])
  {
    EnsurePeerKeepsServer(b, nodeB, N.ServerVpn(b), answer, now);
    var p := N.EnsurePeer(b, nodeB, N.ServerVpn(b), answer, now).1;
    if N.SealedBody(b, p.value, N.ServerVpn(b), raw, nonce).Some? {
      ServerReceivesByteForByte(cfg, s, b, rowB, p.value, raw, nonce, N.ServerVpn(b), remote, now);
    }
  }
}
