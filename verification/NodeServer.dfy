/** Data that a node sends to the server: how it leaves, over whole runs, and what the server makes of it. */
module NodeServer {
  import opened Basics
  import opened Registry
  import opened Envelopes
  import opened PeerAnswers
  import opened NodeModel
  import opened NodeSafety
  import opened NodeAnswers
  import S = ServerModel
  import E = EndToEnd
  import D = ServerData

  /** The sealed body of a packet for the server. */
  function BodyForServer(cfg: Config, raw: Bytes, nonce: Bytes): Option<Bytes> {
    match cfg.crypto.sharedKey(cfg.exchKey, cfg.serverExchPub)
    case None => None
    case Some(key) => SealedBody(cfg, ServerPeer(cfg, key, 0), ServerVpn(cfg), raw, nonce)
  }

  /** The server's entry, if there is one, has its keys and still the path to the server's own endpoint. */
  ghost predicate PathIntact(cfg: Config, s: NodeState) {
    ServerEntryIntact(cfg, s) &&
    (ServerVpn(cfg) in s.peers ==>
       s.peers[ServerVpn(cfg)].realAddr == Some(cfg.serverAddr) && !s.peers[ServerVpn(cfg)].directOK)
  }

  /** First contact: without an entry for it, data for the server goes to its endpoint, as data and as a relay copy. */
  lemma FirstDataForServer(cfg: Config, s: NodeState, raw: Bytes, answer: Option<PeerAnswer>, nonce: Bytes, now: nat)
    requires !s.blocked && ServerVpn(cfg) !in s.peers && BodyForServer(cfg, raw, nonce).Some?
    ensures SendTo(cfg, s, ServerVpn(cfg), raw, answer, nonce, now).outs ==
            [Udp(cfg.serverAddr, Envelope(0x11, BodyForServer(cfg, raw, nonce).value)),
             Udp(cfg.serverAddr, Envelope(0x12, BodyForServer(cfg, raw, nonce).value))]
  {
  }

  /** And so it does later, while nothing has moved the path. */
  lemma DataForServer(cfg: Config, s: NodeState, raw: Bytes, answer: Option<PeerAnswer>, nonce: Bytes, now: nat)
    requires !s.blocked && PathIntact(cfg, s) && BodyForServer(cfg, raw, nonce).Some?
    ensures SendTo(cfg, s, ServerVpn(cfg), raw, answer, nonce, now).outs ==
            [Udp(cfg.serverAddr, Envelope(0x11, BodyForServer(cfg, raw, nonce).value)),
             Udp(cfg.serverAddr, Envelope(0x12, BodyForServer(cfg, raw, nonce).value))]
  {
    if ServerVpn(cfg) !in s.peers {
      FirstDataForServer(cfg, s, raw, answer, nonce, now);
    }
  }

  // The path over runs.

  /** Event `e` handles a datagram that names the server's address and came from elsewhere. */
  ghost predicate MovesServerPath(cfg: Config, s: NodeState, e: Event) {
    exists from :: from != cfg.serverAddr && Handled(s, e, ServerVpn(cfg), from)
  }

  lemma EnsurePeerKeepsPath(cfg: Config, s: NodeState, dst: Ipv4, answer: Option<PeerAnswer>, now: nat)
    requires PathIntact(cfg, s)
    ensures PathIntact(cfg, EnsurePeer(cfg, s, dst, answer, now).0)
  {
  }

  lemma DataKeepsPath(cfg: Config, s: NodeState, env: Envelope, from: Endpoint, now: nat)
    requires PathIntact(cfg, s) && !(Names(env) == Some(ServerVpn(cfg)) && from != cfg.serverAddr)
    ensures PathIntact(cfg, HandleData(cfg, s, env, from, now).state)
  {
  }

  lemma {:induction false} QueueKeepsPath(cfg: Config, s: NodeState, q: seq<Cached>, now: nat)
    requires PathIntact(cfg, s)
    requires forall c :: c in q ==> !(Names(c.env) == Some(ServerVpn(cfg)) && c.from != cfg.serverAddr)
    ensures PathIntact(cfg, HandleAll(cfg, s, q, now).state)
  {
    if q == [] {
    } else {
      var front, last := q[..|q| - 1], q[|q| - 1];
      assert last in q && forall c :: c in front ==> c in q;
      QueueKeepsPath(cfg, s, front, now);
      DataKeepsPath(cfg, HandleAll(cfg, s, front, now).state, last.env, last.from, now);
    }
  }

  lemma FlushKeepsPath(cfg: Config, s: NodeState, ip: Ipv4, answer: Option<PeerAnswer>, now: nat)
    requires PathIntact(cfg, s) && QueuesNamed(s) && !MovesServerPath(cfg, s, FlushEvent(ip, answer))
    ensures PathIntact(cfg, EnsurePeerThenFlush(cfg, s, ip, answer, now).state)
  {
    EnsurePeerKeepsPath(cfg, s, ip, answer, now);
    EnsurePeerKeepsQueues(cfg, s, ip, answer, now);
    var (s1, p) := EnsurePeer(cfg, s, ip, answer, now);
    if p.Some? {
      forall c | c in Queue(s1, ip)
        ensures !(Names(c.env) == Some(ServerVpn(cfg)) && c.from != cfg.serverAddr)
      {
        if ip == ServerVpn(cfg) && c.from != cfg.serverAddr {
          assert Handled(s, FlushEvent(ip, answer), ip, c.from);
        }
      }
      QueueKeepsPath(cfg, s1.(pending := s1.pending - {ip}), Queue(s1, ip), now);
    }
  }

  lemma SendKeepsPath(cfg: Config, s: NodeState, raw: Bytes, answer: Option<PeerAnswer>, nonce: Bytes, now: nat)
    requires PathIntact(cfg, s)
    ensures PathIntact(cfg, ReadTun(cfg, s, raw, answer, nonce, now).state)
  {
    if TunTarget(cfg, raw).Some? {
      EnsurePeerKeepsPath(cfg, s, TunTarget(cfg, raw).value, answer, now);
    }
  }

  lemma StepKeepsPath(cfg: Config, s: NodeState, e: Timed)
    requires PathIntact(cfg, s) && QueuesNamed(s) && !MovesServerPath(cfg, s, e.event)
    ensures PathIntact(cfg, NodeStep(cfg, s, e).state)
  {
    match e.event
    case TunEvent(raw, answer, nonce) => SendKeepsPath(cfg, s, raw, answer, nonce, e.at);
    case DataEvent(env, from) =>
      assert Names(env) == Some(ServerVpn(cfg)) && from != cfg.serverAddr ==> Handled(s, e.event, ServerVpn(cfg), from);
      DataKeepsPath(cfg, s, env, from, e.at);
    case FlushEvent(ip, answer) => FlushKeepsPath(cfg, s, ip, answer, e.at);
    case RefreshEvent(ip, answer) => EnsurePeerKeepsPath(cfg, s, ip, answer, e.at);
    case PolicyEvent(env) =>
  }

  lemma {:induction false} PathIntactOverRuns(cfg: Config, run: seq<Timed>)
    requires forall j :: 0 <= j < |run| ==> !MovesServerPath(cfg, Before(cfg, run, j), run[j].event)
    ensures PathIntact(cfg, After(cfg, run))
  {
    if run == [] {
    } else {
      var front := run[..|run| - 1];
      forall j | 0 <= j < |front|
        ensures !MovesServerPath(cfg, Before(cfg, front, j), front[j].event)
      {
        assert front[..j] == run[..j] && !MovesServerPath(cfg, Before(cfg, run, j), run[j].event);
      }
      assert front == run[..|run| - 1];
      PathIntactOverRuns(cfg, front);
      ReachableQueuesNamed(cfg, front);
      StepKeepsPath(cfg, After(cfg, front), run[|run| - 1]);
    }
  }

  /**
   In every run in which nothing has moved the path, a packet for the server leaves as data to the server's endpoint,
   unless the last notice said blocked; and when that datagram reaches the server, it writes the packet to its TUN
   device exactly when the node is of the admin, or "server" is granted to it.
   */
  lemma DataReachesServer(cfg: S.Config, s: S.ServerState, node: Config, row: Machine, run: seq<Timed>, i: nat,
                          remote: Endpoint, now: nat)
    requires cfg.crypto.Lawful() && E.Joined(cfg, s.table, node, row)
    requires node.serverExchPub == cfg.crypto.exchPub(cfg.exchKey)
    requires i < |run| && run[i].event.TunEvent? && TunTarget(node, run[i].event.raw) == Some(ServerVpn(node))
    requires !LastStatus(node, run[..i])
    requires forall j :: 0 <= j < i ==> !MovesServerPath(node, Before(node, run, j), run[j].event)
    ensures var raw, nonce := run[i].event.raw, run[i].event.nonce;
            var body := BodyForServer(node, raw, nonce);
            body.Some? ==>
              Udp(node.serverAddr, Envelope(0x11, body.value)) in OutputsAt(node, run, i) &&
              S.HandleSigned(cfg, s, Envelope(0x11, body.value), remote, now).outs ==
              if D.MayReachServer(cfg.admin, s.table, row) then [S.ToTun(raw)] else []
  {
    var e, before := run[i].event, Before(node, run, i);
    forall j | 0 <= j < i
      ensures !MovesServerPath(node, Before(node, run[..i], j), run[..i][j].event)
    {
      assert run[..i][..j] == run[..j] && !MovesServerPath(node, Before(node, run, j), run[j].event);
    }
    PathIntactOverRuns(node, run[..i]);
    BlockedIsLastStatus(node, run[..i]);
    if BodyForServer(node, e.raw, e.nonce).Some? {
      DataForServer(node, before, e.raw, e.answer, e.nonce, run[i].at);
      var p := ServerPeer(node, node.crypto.sharedKey(node.exchKey, node.serverExchPub).value, 0);
      E.ServerReceivesByteForByte(cfg, s, node, row, p, e.raw, e.nonce, ServerVpn(node), remote, now);
      D.ServerIsReachedIff(cfg.admin, s.table, row);
    }
  }
}
