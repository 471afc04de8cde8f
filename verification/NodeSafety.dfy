/** The node over whole runs: which path data takes, and what reaches the TUN device. */
module NodeSafety {
  import opened Basics
  import opened Envelopes
  import opened PeerAnswers
  import opened NodeModel

  // Queued packets.

  /** A queue holds at most four datagrams, and each names the address it waits for. */
  ghost predicate QueuesNamed(s: NodeState) {
    && (forall ip :: ip in s.pending ==> |s.pending[ip]| <= 4)
    && (forall ip, c :: ip in s.pending && c in s.pending[ip] ==> Names(c.env) == Some(ip))
  }

  lemma EnsurePeerKeepsQueues(cfg: Config, s: NodeState, dst: Ipv4, answer: Option<PeerAnswer>, now: nat)
    ensures var s' := EnsurePeer(cfg, s, dst, answer, now).0; s'.pending == s.pending && s'.blocked == s.blocked
  {
  }

  /** Same keys and permissions; the path fields may differ. */
  predicate SamePeer(p: Peer, p': Peer) {
    p' == p.(realAddr := p'.realAddr, directOK := p'.directOK, lastSeen := p'.lastSeen)
  }

  /** `s'` differs from `s` in the path fields of peer `ip` only. */
  ghost predicate OnlyPath(s: NodeState, s': NodeState, ip: Ipv4) {
    ip in s.peers && ip in s'.peers && s' == s.(peers := s.peers[ip := s'.peers[ip]]) &&
    SamePeer(s.peers[ip], s'.peers[ip])
  }

  lemma HandleOneTouches(cfg: Config, s: NodeState, c: Cached, ip: Ipv4, now: nat)
    requires ip in s.peers && Names(c.env) == Some(ip)
    ensures var s' := HandleData(cfg, s, c.env, c.from, now).state;
            OnlyPath(s, s', ip) && s'.peers[ip] in {s.peers[ip], Observe(cfg, s.peers[ip], c.from, now)}
  {
    assert s.peers[ip := s.peers[ip]] == s.peers;
  }

  /** The direct path of `p` was set at `now` by a packet of the queue. */
  ghost predicate ObservedIn(cfg: Config, p: Peer, q: seq<Cached>, now: nat) {
    p.lastSeen == now && exists c :: c in q && p.realAddr == Some(c.from) && c.from != cfg.serverAddr
  }

  /** Handling a queue of a known peer changes only that peer's path. */
  lemma {:induction false} HandleAllTouches(cfg: Config, s: NodeState, q: seq<Cached>, ip: Ipv4, now: nat)
    requires ip in s.peers && forall c :: c in q ==> Names(c.env) == Some(ip)
    ensures var s' := HandleAll(cfg, s, q, now).state;
            OnlyPath(s, s', ip) && (s'.peers[ip] == s.peers[ip] || ObservedIn(cfg, s'.peers[ip], q, now))
  {
    if q == [] {
      assert s.peers[ip := s.peers[ip]] == s.peers;
    } else {
      var front, last := q[..|q| - 1], q[|q| - 1];
      assert last in q && forall c :: c in front ==> c in q;
      HandleAllTouches(cfg, s, front, ip, now);
      HandleOneTouches(cfg, HandleAll(cfg, s, front, now).state, last, ip, now);
    }
  }

  lemma StepKeepsQueuesNamed(cfg: Config, s: NodeState, e: Timed)
    requires QueuesNamed(s)
    ensures QueuesNamed(NodeStep(cfg, s, e).state)
  {
    match e.event
    case TunEvent(raw, answer, nonce) =>
      var dst := TunTarget(cfg, raw);
      if dst.Some? {
        EnsurePeerKeepsQueues(cfg, s, dst.value, answer, e.at);
      }
    case FlushEvent(ip, answer) =>
      EnsurePeerKeepsQueues(cfg, s, ip, answer, e.at);
      var (s1, p) := EnsurePeer(cfg, s, ip, answer, e.at);
      if p.Some? {
        HandleAllTouches(cfg, s1.(pending := s1.pending - {ip}), Queue(s1, ip), ip, e.at);
      }
    case _ =>
  }

  lemma {:induction false} ReachableQueuesNamed(cfg: Config, run: seq<Timed>)
    ensures QueuesNamed(After(cfg, run))
  {
    if run == [] {
    } else {
      ReachableQueuesNamed(cfg, run[..|run| - 1]);
      StepKeepsQueuesNamed(cfg, After(cfg, run[..|run| - 1]), run[|run| - 1]);
    }
  }

  lemma StepQueueGrowth(cfg: Config, s: NodeState, e: Timed, ip: Ipv4, c: Cached)
    requires QueuesNamed(s) && c in Queue(NodeStep(cfg, s, e).state, ip)
    ensures c in Queue(s, ip) || e.event == DataEvent(c.env, c.from)
  {
    match e.event
    case TunEvent(raw, answer, nonce) =>
      var dst := TunTarget(cfg, raw);
      if dst.Some? {
        EnsurePeerKeepsQueues(cfg, s, dst.value, answer, e.at);
      }
    case FlushEvent(dst, answer) =>
      EnsurePeerKeepsQueues(cfg, s, dst, answer, e.at);
      var (s1, p) := EnsurePeer(cfg, s, dst, answer, e.at);
      if p.Some? {
        HandleAllTouches(cfg, s1.(pending := s1.pending - {dst}), Queue(s1, dst), dst, e.at);
      }
    case _ =>
  }

  /** A queued packet arrived earlier in the run. */
  lemma {:induction false} QueuedPacketArrived(cfg: Config, run: seq<Timed>, ip: Ipv4, c: Cached) returns (a: nat)
    requires c in Queue(After(cfg, run), ip)
    ensures a < |run| && run[a].event == DataEvent(c.env, c.from)
  {
    var front, e := run[..|run| - 1], run[|run| - 1];
    ReachableQueuesNamed(cfg, front);
    StepQueueGrowth(cfg, After(cfg, front), e, ip, c);
    if c in Queue(After(cfg, front), ip) {
      a := QueuedPacketArrived(cfg, front, ip, c);
    } else {
      a := |run| - 1;
    }
  }

  // The direct path.

  /** Event `e` handles a datagram naming `ip` that came from `from`: on arrival, or when its queue is flushed. */
  ghost predicate Handled(s: NodeState, e: Event, ip: Ipv4, from: Endpoint) {
    match e
    case DataEvent(env, source) => Names(env) == Some(ip) && source == from
    case FlushEvent(dst, _) => dst == ip && exists c :: c in Queue(s, ip) && c.from == from
    case _ => false
  }

  /** The direct path of `ip` was set by a datagram handled at `e`. */
  ghost predicate SetBy(cfg: Config, s: NodeState, e: Timed, ip: Ipv4, p: Peer) {
    p.realAddr.Some? && p.realAddr.value != cfg.serverAddr && p.lastSeen == e.at &&
    Handled(s, e.event, ip, p.realAddr.value)
  }

  lemma EnsurePeerSetsNoPath(cfg: Config, s: NodeState, dst: Ipv4, answer: Option<PeerAnswer>, now: nat, x: Ipv4)
    ensures var s' := EnsurePeer(cfg, s, dst, answer, now).0;
            x in s'.peers && s'.peers[x].directOK ==> x in s.peers && s.peers[x] == s'.peers[x]
  {
  }

  lemma FlushSetsDirectPath(cfg: Config, s: NodeState, ip: Ipv4, answer: Option<PeerAnswer>, now: nat, x: Ipv4)
    requires QueuesNamed(s)
    requires var s' := EnsurePeerThenFlush(cfg, s, ip, answer, now).state; x in s'.peers && s'.peers[x].directOK
    ensures var s' := EnsurePeerThenFlush(cfg, s, ip, answer, now).state;
            (x in s.peers && s.peers[x] == s'.peers[x]) ||
            SetBy(cfg, s, Timed(FlushEvent(ip, answer), now), x, s'.peers[x])
  {
    EnsurePeerKeepsQueues(cfg, s, ip, answer, now);
    EnsurePeerSetsNoPath(cfg, s, ip, answer, now, x);
    var (s1, p) := EnsurePeer(cfg, s, ip, answer, now);
    if p.Some? {
      HandleAllTouches(cfg, s1.(pending := s1.pending - {ip}), Queue(s1, ip), ip, now);
    }
  }

  lemma StepDirectPath(cfg: Config, s: NodeState, e: Timed, x: Ipv4)
    requires QueuesNamed(s)
    requires var s' := NodeStep(cfg, s, e).state; x in s'.peers && s'.peers[x].directOK
    ensures var s' := NodeStep(cfg, s, e).state;
            (x in s.peers && s.peers[x] == s'.peers[x]) || SetBy(cfg, s, e, x, s'.peers[x])
  {
    match e.event
    case TunEvent(raw, answer, nonce) =>
      if TunTarget(cfg, raw).Some? {
        EnsurePeerSetsNoPath(cfg, s, TunTarget(cfg, raw).value, answer, e.at, x);
      }
    case FlushEvent(ip, answer) => FlushSetsDirectPath(cfg, s, ip, answer, e.at, x);
    case RefreshEvent(ip, answer) => EnsurePeerSetsNoPath(cfg, s, ip, answer, e.at, x);
    case _ =>
  }

  /** A direct path in use was set by a datagram handled at the time the entry carries. */
  lemma {:induction false} DirectPathSource(cfg: Config, run: seq<Timed>, ip: Ipv4) returns (j: nat)
    requires ip in After(cfg, run).peers && After(cfg, run).peers[ip].directOK
    ensures j < |run| && SetBy(cfg, Before(cfg, run, j), run[j], ip, After(cfg, run).peers[ip])
  {
    var front, e := run[..|run| - 1], run[|run| - 1];
    var s := After(cfg, front);
    ReachableQueuesNamed(cfg, front);
    StepDirectPath(cfg, s, e, ip);
    if ip in s.peers && s.peers[ip] == After(cfg, run).peers[ip] {
      j := DirectPathSource(cfg, front, ip);
      assert front[..j] == run[..j];
    } else {
      j := |run| - 1;
    }
  }

  /** Event `i` sends data for `dst` and makes no relay copy. */
  ghost predicate RelayCopyOmitted(cfg: Config, run: seq<Timed>, i: nat, dst: Ipv4)
    requires i < |run|
  {
    run[i].event.TunEvent? && TunTarget(cfg, run[i].event.raw) == Some(dst) && OutputsAt(cfg, run, i) != [] &&
    forall o :: o in OutputsAt(cfg, run, i) ==> o.Udp? && o.env.typ != TYPE_RELAY_DATA
  }

  /** For how many nanoseconds a datagram keeps the relay copy away: the server's own entry is never refreshed. */
  function PathWindow(cfg: Config, dst: Ipv4): nat {
    if dst == ServerVpn(cfg) then 10_000_000_000 else 1_000_000_000
  }

  lemma OmittedMeansDirect(cfg: Config, run: seq<Timed>, i: nat, dst: Ipv4)
    requires i < |run| && RelayCopyOmitted(cfg, run, i, dst)
    ensures var s := Before(cfg, run, i);
            dst in s.peers && s.peers[dst].directOK && s.peers[dst].realAddr.Some? &&
            run[i].at - s.peers[dst].lastSeen < PathWindow(cfg, dst) &&
            |OutputsAt(cfg, run, i)| == 1 && OutputsAt(cfg, run, i)[0].to == s.peers[dst].realAddr.value
  {
    var e, s := run[i], Before(cfg, run, i);
    var outs := SendTo(cfg, s, dst, e.event.raw, e.event.answer, e.event.nonce, e.at).outs;
    assert outs == OutputsAt(cfg, run, i);
    assert outs[|outs| - 1] in outs;
  }

  /**
   The relay copy is omitted only if a datagram naming that peer, from an endpoint that is not the server's, was
   handled less than one second ago, or less than ten when the peer is the server itself, whose entry is never
   refreshed; the packet goes to that endpoint.
   */
  lemma RelayCopyOmittedOnlyIfDirect(cfg: Config, run: seq<Timed>, i: nat, dst: Ipv4) returns (j: nat, from: Endpoint)
    requires i < |run| && RelayCopyOmitted(cfg, run, i, dst)
    ensures j < i && from != cfg.serverAddr && Handled(Before(cfg, run, j), run[j].event, dst, from)
    ensures run[i].at - run[j].at < PathWindow(cfg, dst)
    ensures forall o :: o in OutputsAt(cfg, run, i) ==> o.to == from
  {
    OmittedMeansDirect(cfg, run, i, dst);
    j := DirectPathSource(cfg, run[..i], dst);
    from := Before(cfg, run, i).peers[dst].realAddr.value;
    assert run[..i][..j] == run[..j];
  }

  /** The datagram behind an omitted relay copy arrived within the window, or was flushed from the queue in it. */
  lemma OmittedCopyArrival(cfg: Config, run: seq<Timed>, i: nat, dst: Ipv4) returns (j: nat, a: nat)
    requires i < |run| && RelayCopyOmitted(cfg, run, i, dst)
    ensures a <= j < i && run[a].event.DataEvent? && Names(run[a].event.env) == Some(dst)
    ensures run[a].event.from != cfg.serverAddr && run[i].at - run[j].at < PathWindow(cfg, dst)
    ensures a == j || run[j].event.FlushEvent?
  {
    var from;
    j, from := RelayCopyOmittedOnlyIfDirect(cfg, run, i, dst);
    if run[j].event.FlushEvent? {
      var c :| c in Queue(Before(cfg, run, j), dst) && c.from == from;
      ReachableQueuesNamed(cfg, run[..j]);
      a := QueuedPacketArrived(cfg, run[..j], dst, c);
    } else {
      a := j;
    }
  }

  /** Event `e` flushes a queue of `dst` that holds a packet from off the server. */
  ghost predicate FlushesDirect(cfg: Config, s: NodeState, e: Event, dst: Ipv4) {
    e.FlushEvent? && e.ip == dst && exists c :: c in Queue(s, dst) && c.from != cfg.serverAddr
  }

  /** So the datagram arrived within the window unless a queued one from off the server was flushed in it. */
  lemma OmittedCopyArrivedRecently(cfg: Config, run: seq<Timed>, i: nat, dst: Ipv4) returns (a: nat)
    requires i < |run| && RelayCopyOmitted(cfg, run, i, dst)
    requires forall j :: 0 <= j < i && run[i].at - run[j].at < PathWindow(cfg, dst) ==>
               !FlushesDirect(cfg, Before(cfg, run, j), run[j].event, dst)
    ensures a < i && run[a].event.DataEvent? && Names(run[a].event.env) == Some(dst)
    ensures run[a].event.from != cfg.serverAddr && run[i].at - run[a].at < PathWindow(cfg, dst)
  {
    var from;
    a, from := RelayCopyOmittedOnlyIfDirect(cfg, run, i, dst);
  }

  lemma RunStep(cfg: Config, run: seq<Timed>, e: Timed)
    ensures After(cfg, run + [e]) == NodeStep(cfg, After(cfg, run), e).state
  {
    assert (run + [e])[..|run|] == run;
  }

  lemma DirectSend(cfg: Config, s: NodeState, dst: Ipv4, raw: Bytes, answer: Option<PeerAnswer>, nonce: Bytes, now: nat)
    requires !s.blocked && dst in s.peers && dst != ServerVpn(cfg) && Fresh(s.peers[dst], now) &&
             now >= s.peers[dst].lastSeen
    requires BothWays(s.peers[dst]) && s.peers[dst].directOK && s.peers[dst].realAddr.Some?
    requires SealedBody(cfg, s.peers[dst], dst, raw, nonce).Some?
    ensures SendTo(cfg, s, dst, raw, answer, nonce, now).outs ==
            [Udp(s.peers[dst].realAddr.value,
                 Envelope(TYPE_DATA, SealedBody(cfg, s.peers[dst], dst, raw, nonce).value))]
  {
  }

  lemma UnknownSenderQueues(cfg: Config, s: NodeState, env: Envelope, from: Endpoint, now: nat)
    requires !s.blocked && Names(env).Some? && Names(env).value !in s.peers &&
             |Queue(s, Names(env).value)| < QUEUE_LIMIT
    ensures var ip := Names(env).value;
            NodeStep(cfg, s, Timed(DataEvent(env, from), now)).state ==
            s.(pending := s.pending[ip := Queue(s, ip) + [Cached(env, from)]])
  {
  }

  lemma FailedQueryFlushesNothing(cfg: Config, s: NodeState, ip: Ipv4, now: nat)
    requires ip != ServerVpn(cfg) && ip !in s.peers
    ensures NodeStep(cfg, s, Timed(FlushEvent(ip, None), now)).state == s
  {
  }

  /** The first two events leave the sender unknown and its datagram queued. */
  lemma OldDatagramQueued(cfg: Config, run: seq<Timed>, direct: Envelope, from: Endpoint)
    requires Names(direct).Some? && Names(direct).value != ServerVpn(cfg) && |run| >= 2
    requires run[0] == Timed(DataEvent(direct, from), 0) && run[1] == Timed(FlushEvent(Names(direct).value, None), 0)
    ensures After(cfg, run[..2]) == START.(pending := map[Names(direct).value := [Cached(direct, from)]])
  {
    var ip := Names(direct).value;
    var s1 := START.(pending := map[ip := [Cached(direct, from)]]);
    assert run[..0] == [] && run[..0] + [run[0]] == run[..1] && run[..1] + [run[1]] == run[..2];
    UnknownSenderQueues(cfg, START, direct, from, 0);
    assert [] + [Cached(direct, from)] == [Cached(direct, from)];
    RunStep(cfg, run[..0], run[0]);
    assert After(cfg, run[..1]) == s1;
    FailedQueryFlushesNothing(cfg, s1, ip, 0);
    RunStep(cfg, run[..1], run[1]);
  }

  /** The third queues a second one behind it. */
  lemma OldDatagramWaits(cfg: Config, run: seq<Timed>, direct: Envelope, from: Endpoint, delay: nat)
    requires Names(direct).Some? && Names(direct).value != ServerVpn(cfg) && |run| >= 3
    requires run[0] == Timed(DataEvent(direct, from), 0) && run[1] == Timed(FlushEvent(Names(direct).value, None), 0)
    requires run[2] == Timed(DataEvent(direct, cfg.serverAddr), delay)
    ensures After(cfg, run[..3]) ==
            START.(pending := map[Names(direct).value := [Cached(direct, from), Cached(direct, cfg.serverAddr)]])
  {
    var ip := Names(direct).value;
    var s1 := START.(pending := map[ip := [Cached(direct, from)]]);
    OldDatagramQueued(cfg, run, direct, from);
    assert run[..2] + [run[2]] == run[..3];
    UnknownSenderQueues(cfg, s1, direct, cfg.serverAddr, delay);
    RunStep(cfg, run[..2], run[2]);
    var both := [Cached(direct, from), Cached(direct, cfg.serverAddr)];
    assert [Cached(direct, from)] + [Cached(direct, cfg.serverAddr)] == both;
    assert s1.pending[ip := both] == map[ip := both];
  }

  function OldDatagramRun(cfg: Config, direct: Envelope, from: Endpoint, a: PeerAnswer,
                          raw: Bytes, nonce: Bytes, delay: nat): (run: seq<Timed>)
    requires Names(direct).Some?
    ensures |run| == 5
  {
    var ip := Names(direct).value;
    [Timed(DataEvent(direct, from), 0), Timed(FlushEvent(ip, None), 0), Timed(DataEvent(direct, cfg.serverAddr), delay),
     Timed(FlushEvent(ip, Some(a)), delay), Timed(TunEvent(raw, None, nonce), delay)]
  }

  lemma HandleOldQueue(cfg: Config, s: NodeState, direct: Envelope, from: Endpoint, now: nat)
    requires Names(direct).Some? && Names(direct).value in s.peers && from != cfg.serverAddr && !s.blocked
    ensures var ip := Names(direct).value;
            HandleAll(cfg, s, [Cached(direct, from), Cached(direct, cfg.serverAddr)], now).state ==
            s.(peers := s.peers[ip := Observe(cfg, s.peers[ip], from, now)])
  {
    var q := [Cached(direct, from), Cached(direct, cfg.serverAddr)];
    var head := [Cached(direct, from)];
    assert q[..1] == head && head[..0] == [];
    var p := Observe(cfg, s.peers[Names(direct).value], from, now);
    assert s.peers[Names(direct).value := p][Names(direct).value := p] == s.peers[Names(direct).value := p];
    assert HandleAll(cfg, s, head, now).state == HandleData(cfg, s, direct, from, now).state;
  }

  /** The successful flush: both datagrams are handled, the old one sets the path. */
  lemma FlushOldQueue(cfg: Config, direct: Envelope, from: Endpoint, a: PeerAnswer, now: nat)
    requires Names(direct).Some? && Names(direct).value != ServerVpn(cfg) && from != cfg.serverAddr
    requires a.found && cfg.crypto.sharedKey(cfg.exchKey, a.exchPub).Some?
    ensures var ip := Names(direct).value;
            var p := PeerOf(a, cfg.crypto.sharedKey(cfg.exchKey, a.exchPub).value, now);
            var waiting := START.(pending := map[ip := [Cached(direct, from), Cached(direct, cfg.serverAddr)]]);
            EnsurePeerThenFlush(cfg, waiting, ip, Some(a), now).state ==
            NodeState(map[ip := Observe(cfg, p, from, now)], map[], false)
  {
    var ip := Names(direct).value;
    var p := PeerOf(a, cfg.crypto.sharedKey(cfg.exchKey, a.exchPub).value, now);
    var q := [Cached(direct, from), Cached(direct, cfg.serverAddr)];
    var s := NodeState(map[ip := p], map[], false);
    assert map[ip := q] - {ip} == map[] && START.peers[ip := p] == map[ip := p];
    HandleOldQueue(cfg, s, direct, from, now);
    assert s.peers[ip := Observe(cfg, p, from, now)] == map[ip := Observe(cfg, p, from, now)];
  }

  /**
   The window in the claim above is not one of arrival: a datagram queued while its sender was unknown sets the
   direct path when it is flushed.  Here a first query fails, the next datagram comes by relay `delay` later, and
   then data for the peer goes out directly, with no relay copy, on the strength of the old datagram alone.
   */
  lemma QueuedDatagramCanBeOld(cfg: Config, direct: Envelope, from: Endpoint, a: PeerAnswer,
                               raw: Bytes, nonce: Bytes, delay: nat)
    requires Names(direct).Some? && Names(direct).value != ServerVpn(cfg) && from != cfg.serverAddr
    requires a.found && a.canCall && a.canCallBack && cfg.crypto.sharedKey(cfg.exchKey, a.exchPub).Some?
    requires TunTarget(cfg, raw) == Names(direct)
    requires cfg.crypto.seal(cfg.crypto.sharedKey(cfg.exchKey, a.exchPub).value, nonce, raw).Some?
    ensures var run := OldDatagramRun(cfg, direct, from, a, raw, nonce, delay);
            RelayCopyOmitted(cfg, run, 4, Names(direct).value) &&
            forall j :: 0 <= j < 4 && run[j].event.DataEvent? && run[j].event.from != cfg.serverAddr ==>
              run[4].at - run[j].at >= delay
  {
    var ip := Names(direct).value;
    var run := OldDatagramRun(cfg, direct, from, a, raw, nonce, delay);
    OldDatagramWaits(cfg, run, direct, from, delay);
    FlushOldQueue(cfg, direct, from, a, delay);
    RunStep(cfg, run[..3], run[3]);
    assert run[..3] + [run[3]] == run[..4];
    var p := Observe(cfg, PeerOf(a, cfg.crypto.sharedKey(cfg.exchKey, a.exchPub).value, delay), from, delay);
    var s := NodeState(map[ip := p], map[], false);
    assert After(cfg, run[..4]) == s;
    DirectSend(cfg, s, ip, raw, None, nonce, delay);
  }
}
