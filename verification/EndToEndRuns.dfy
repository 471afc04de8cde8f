/** The relay end to end over a run of the server and a run of each node. */
module EndToEndRuns {
  import opened Basics
  import opened Prefixes
  import opened Registry
  import opened Policy
  import opened Signed
  import opened Envelopes
  import opened Packets
  import opened PeerAnswers
  import opened NodeAnswers
  import opened Signatures
  import E = EndToEnd
  import S = ServerModel
  import N = NodeModel

  /** The output is a reply to a peer query that verifies under the server's key and carries `answer`. */
  predicate Carries(cfg: S.Config, o: S.Output, answer: PeerAnswer) {
    o.Send? && o.packet.Wire? && o.packet.env.typ == TYPE_PEER_QUERY_RPY && ParseSigned(o.packet.env.body).Ok? &&
    SignedBy(cfg.crypto, cfg.crypto.signPub(cfg.signKey), o.packet.env.body) &&
    ParseAnswer(ParseSigned(o.packet.env.body).value.0.payload) == Ok(answer)
  }

  /** In state `s` the server replies to a query of `row`, at address `asker`, about `target` with `answer`. */
  ghost predicate Served(cfg: S.Config, s: S.ServerState, row: Machine, asker: Ipv4, target: Ipv4, answer: PeerAnswer) {
    asker in s.ipEndpoints &&
    exists remote, o ::
      o in S.PeerQuery(cfg, s, row, asker, PeerQueryPayload(target), remote) && Carries(cfg, o, answer)
  }

  /** The one reply among the packets a query causes is the first. */
  lemma FirstIsTheReply(cfg: S.Config, s: S.ServerState, row: Machine, asker: Ipv4, target: Ipv4, remote: Endpoint,
                        o: S.Output)
    requires asker in s.ipEndpoints
    requires o in S.PeerQuery(cfg, s, row, asker, PeerQueryPayload(target), remote)
    requires o.Send? && o.packet.Wire? && o.packet.env.typ == TYPE_PEER_QUERY_RPY
    ensures o == S.PeerQuery(cfg, s, row, asker, PeerQueryPayload(target), remote)[0]
  {
    PeerQueryRoundTrip(target, PeerQueryPayload(target));
  }

  lemma ServedAnswer(cfg: S.Config, s: S.ServerState, row: Machine, asker: Ipv4, target: Ipv4, answer: PeerAnswer)
    requires cfg.crypto.Lawful() && ServerIP(cfg.subnet).Some? && Served(cfg, s, row, asker, target, answer)
    ensures E.AnswerTo(cfg, s, row, target) == Ok(answer)
  {
    var remote, o :| o in S.PeerQuery(cfg, s, row, asker, PeerQueryPayload(target), remote) && Carries(cfg, o, answer);
    FirstIsTheReply(cfg, s, row, asker, target, remote, o);
    E.AnswerTravels(cfg, s, row, asker, target, remote);
  }

  /** The answer that `node` took last about `target` is a reply of the server, given under the table `t`. */
  ghost predicate AskedUnder(cfg: S.Config, saved: Table, serverRun: seq<S.Timed>, t: Table,
                             node: N.Config, run: seq<N.Timed>, row: Machine, target: Ipv4) {
    exists k :: 0 <= k <= |serverRun| && S.Before(cfg, saved, serverRun, k).table == t &&
                (LastAnswer(node, run, target).Some? ==>
                   Served(cfg, S.Before(cfg, saved, serverRun, k), row, node.vpnIP, target,
                          LastAnswer(node, run, target).value))
  }

  /** The entry a node holds for a peer is made from that reply. */
  lemma EntryIsServed(cfg: S.Config, saved: Table, serverRun: seq<S.Timed>, t: Table,
                      node: N.Config, run: seq<N.Timed>, row: Machine, target: Ipv4) returns (asked: S.ServerState)
    requires cfg.crypto.Lawful() && ServerIP(cfg.subnet).Some?
    requires AskedUnder(cfg, saved, serverRun, t, node, run, row, target)
    requires target != N.ServerVpn(node) && target in N.After(node, run).peers
    ensures asked.table == t && E.AnswerTo(cfg, asked, row, target).Ok?
    ensures MadeFrom(node, N.After(node, run).peers[target], E.AnswerTo(cfg, asked, row, target).value)
  {
    EntriesAreLastAnswers(node, run, target);
    var answer := LastAnswer(node, run, target).value;
    var k :| 0 <= k <= |serverRun| && S.Before(cfg, saved, serverRun, k).table == t &&
             Served(cfg, S.Before(cfg, saved, serverRun, k), row, node.vpnIP, target, answer);
    asked := S.Before(cfg, saved, serverRun, k);
    ServedAnswer(cfg, asked, row, node.vpnIP, target, answer);
  }

  /**
   The relay end to end over runs.  Two joined nodes, neither of which takes the other for the server, hold entries for
   each other, last answered under the registry the server has now.  B emits a relay copy of `raw` exactly when the
   policy lets B call A or the packet is a reply; the server passes it on exactly when the policy lets B call A or A had
   an allowed packet to B in the last 60 s; and A, unless it was told that it is blocked, then writes B's packet.
   */
  lemma RelayEndToEndOverRuns(cfg: S.Config, saved: Table, serverRun: seq<S.Timed>, k: nat,
                              a: N.Config, rowA: Machine, runA: seq<N.Timed>,
                              b: N.Config, rowB: Machine, runB: seq<N.Timed>,
                              raw: Bytes, nonce: Bytes, remote: Endpoint, now: nat)
    requires cfg.crypto.Lawful() && ServerIP(cfg.subnet).Some? && k <= |serverRun|
    requires a.vpnIP != b.vpnIP && b.vpnIP != N.ServerVpn(a) && a.vpnIP != N.ServerVpn(b)
    requires var t := S.Before(cfg, saved, serverRun, k).table;
             && E.Joined(cfg, t, a, rowA) && E.Joined(cfg, t, b, rowB)
             && AskedUnder(cfg, saved, serverRun, t, a, runA, rowA, b.vpnIP)
             && AskedUnder(cfg, saved, serverRun, t, b, runB, rowB, a.vpnIP)
    requires a.vpnIP in S.Before(cfg, saved, serverRun, k).ipEndpoints
    requires !LastStatus(a, runA) && b.vpnIP in N.After(a, runA).peers
    requires !LastStatus(b, runB) && a.vpnIP in N.After(b, runB).peers
    requires N.Fresh(N.After(b, runB).peers[a.vpnIP], now) && !N.After(b, runB).peers[a.vpnIP].directOK
    requires b.crypto.seal(N.After(b, runB).peers[a.vpnIP].key, nonce, raw).Some?
    ensures var s, nodeB := S.Before(cfg, saved, serverRun, k), N.After(b, runB);
            var allowed := AllowRelay(cfg.admin, s.table, rowB, rowA);
            var copy := Envelope(TYPE_RELAY_DATA, N.SealedBody(b, nodeB.peers[a.vpnIP], a.vpnIP, raw, nonce).value);
            && (N.Udp(b.serverAddr, copy) in N.SendTo(b, nodeB, a.vpnIP, raw, None, nonce, now).outs <==>
                  allowed || IsReplyPacket(raw))
            && (S.Send(s.ipEndpoints[a.vpnIP], S.Wire(copy)) in S.HandleSigned(cfg, s, copy, remote, now).outs <==>
                  allowed || S.RecentFlow(s.flows, b.vpnIP, a.vpnIP, now))
            && (allowed || IsReplyPacket(raw) ==>
                  N.HandleData(a, N.After(a, runA), copy, a.serverAddr, now).outs == [N.Tun(raw)])
  {
    var s := S.Before(cfg, saved, serverRun, k);
    var asked := EntryIsServed(cfg, saved, serverRun, s.table, a, runA, rowA, b.vpnIP);
    var asked' := EntryIsServed(cfg, saved, serverRun, s.table, b, runB, rowB, a.vpnIP);
    BlockedIsLastStatus(a, runA);
    BlockedIsLastStatus(b, runB);
    E.RelayEndToEnd(cfg, s, asked, asked', a, rowA, b, rowB, N.After(a, runA), N.After(b, runB),
                    raw, nonce, remote, now);
  }
}
