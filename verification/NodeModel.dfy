/**
 The node's forwarding as a step function over values (internal/node/data.go).  A peer query
 and its reply are one step: the reply is the `answer` of the event, None when the query failed.
 */
module NodeModel {
  import opened Basics
  import opened Envelopes
  import opened Signed
  import opened Packets
  import opened Primitives
  import opened PeerAnswers

  const SECOND := 1_000_000_000
  const P2P_FRESH_AFTER := 10 * SECOND
  const PEER_REFRESH_AFTER := SECOND
  const QUEUE_LIMIT := 4

  datatype Peer = Peer(signPub: Bytes, exchPub: Bytes, key: Bytes, realAddr: Option<Endpoint>,
                       canCall: bool, canCallBack: bool, directOK: bool, lastSeen: nat)

  datatype Cached = Cached(env: Envelope, from: Endpoint)

  datatype NodeState = NodeState(peers: map<Ipv4, Peer>, pending: map<Ipv4, seq<Cached>>, blocked: bool)

  /** Fixed while joined. `isBlocked` decodes the status of a policy notice. */
  datatype Config = Config(vpnIP: Ipv4, serverAddr: Endpoint, signKey: Bytes, exchKey: Bytes,
                           serverSignPub: Bytes, serverExchPub: Bytes, crypto: Crypto,
                           isBlocked: Bytes -> Option<bool>)

  datatype Output = Udp(to: Endpoint, env: Envelope) | Tun(plain: Bytes)

  datatype Event =
    | TunEvent(raw: Bytes, answer: Option<PeerAnswer>, nonce: Bytes)
    | DataEvent(env: Envelope, from: Endpoint)
    | FlushEvent(ip: Ipv4, answer: Option<PeerAnswer>)
    | RefreshEvent(ip: Ipv4, answer: Option<PeerAnswer>)
    | PolicyEvent(env: Envelope)

  datatype Step = Step(state: NodeState, outs: seq<Output>)

  /** The node takes the first address of its own /24 for the server's. */
  function ServerVpn(cfg: Config): Ipv4 {
    cfg.vpnIP - cfg.vpnIP % 0x100 + 1
  }

  predicate Fresh(p: Peer, now: int) {
    now - p.lastSeen < PEER_REFRESH_AFTER
  }

  /** The cache entry made from an answer. */
  function PeerOf(a: PeerAnswer, key: Bytes, now: nat): Peer {
    Peer(a.signPub, a.exchPub, key, if a.hasAddr then a.addr else None, a.canCall, a.canCallBack, false, now)
  }

  function ServerPeer(cfg: Config, key: Bytes, now: nat): Peer {
    Peer(cfg.serverSignPub, cfg.serverExchPub, key, Some(cfg.serverAddr), true, true, false, now)
  }

  function EnsureServerPeer(cfg: Config, s: NodeState, now: nat): (NodeState, Option<Peer>) {
    var ip := ServerVpn(cfg);
    if ip in s.peers then (s, Some(s.peers[ip]))
    else
      match cfg.crypto.sharedKey(cfg.exchKey, cfg.serverExchPub)
      case None => (s, None)
      case Some(key) =>
        var p := ServerPeer(cfg, key, now);
        (s.(peers := s.peers[ip := p]), Some(p))
  }

  /** The answer that replaces the cache entry of `dst`, when the entry is missing or stale and the query succeeds. */
  function Installed(cfg: Config, s: NodeState, dst: Ipv4, answer: Option<PeerAnswer>, now: nat): Option<PeerAnswer> {
    if dst == ServerVpn(cfg) || (dst in s.peers && Fresh(s.peers[dst], now)) then None
    else if answer.None? || !answer.value.found then None
    else if cfg.crypto.sharedKey(cfg.exchKey, answer.value.exchPub).None? then None
    else answer
  }

  function EnsurePeer(cfg: Config, s: NodeState, dst: Ipv4, answer: Option<PeerAnswer>, now: nat):
    (NodeState, Option<Peer>)
  {
    if dst == ServerVpn(cfg) then EnsureServerPeer(cfg, s, now)
    else if dst in s.peers && Fresh(s.peers[dst], now) then (s, Some(s.peers[dst]))
    else
      match Installed(cfg, s, dst, answer, now)
      case None => (s, None)
      case Some(a) =>
        var p := PeerOf(a, cfg.crypto.sharedKey(cfg.exchKey, a.exchPub).value, now);
        (s.(peers := s.peers[dst := p]), Some(p))
  }

  // Sending.

  /** The signed body of a data packet, None when sealing fails. */
  function SealedBody(cfg: Config, p: Peer, dst: Ipv4, raw: Bytes, nonce: Bytes): Option<Bytes> {
    match cfg.crypto.seal(p.key, nonce, raw)
    case None => None
    case Some(cipher) =>
      Some(EncodeSigned(SignedMessage(TYPE_DATA, Some(cfg.vpnIP), Some(dst), cipher), cfg.crypto.Signer(cfg.signKey)))
  }

  predicate BothWays(p: Peer) {
    p.canCall && p.canCallBack
  }

  /** Whether the direct path alone is used. */
  predicate DirectOnly(p: Peer, now: nat) {
    BothWays(p) && p.directOK && now - p.lastSeen < P2P_FRESH_AFTER
  }

  function Direct(p: Peer, body: Bytes): seq<Output> {
    if p.realAddr.Some? then [Udp(p.realAddr.value, Envelope(TYPE_DATA, body))] else []
  }

  function Transmit(cfg: Config, p: Peer, body: Bytes, now: nat): seq<Output> {
    if DirectOnly(p, now) then Direct(p, body)
    else (if BothWays(p) then Direct(p, body) else []) + [Udp(cfg.serverAddr, Envelope(TYPE_RELAY_DATA, body))]
  }

  /** The sender's half of the call test. */
  predicate MaySend(p: Peer, raw: Bytes) {
    p.canCall || IsReplyPacket(raw)
  }

  function SendTo(cfg: Config, s: NodeState, dst: Ipv4, raw: Bytes, answer: Option<PeerAnswer>, nonce: Bytes,
                  now: nat): Step {
    if s.blocked then Step(s, [])
    else
      var (s1, p) := EnsurePeer(cfg, s, dst, answer, now);
      if p.None? then Step(s1, [])
      else if !MaySend(p.value, raw) then Step(s1.(peers := s1.peers - {dst}), [])
      else
        match SealedBody(cfg, p.value, dst, raw, nonce)
        case None => Step(s1, [])
        case Some(body) => Step(s1, Transmit(cfg, p.value, body, now))
  }

  /** Destination of a packet read from the TUN device, None when the packet is skipped. */
  function TunTarget(cfg: Config, raw: Bytes): Option<Ipv4> {
    if |raw| < 20 || raw[0] / 0x10 != 4 then None
    else
      var dst := FromBe32(raw[16..20]);
      if dst == cfg.vpnIP then None else Some(dst)
  }

  function ReadTun(cfg: Config, s: NodeState, raw: Bytes, answer: Option<PeerAnswer>, nonce: Bytes, now: nat): Step {
    match TunTarget(cfg, raw)
    case None => Step(s, [])
    case Some(dst) => SendTo(cfg, s, dst, raw, answer, nonce, now)
  }

  // Receiving.

  function CachePacket(s: NodeState, ip: Ipv4, pkt: Cached): NodeState {
    var q := if ip in s.pending then s.pending[ip] else [];
    if |q| >= QUEUE_LIMIT then s else s.(pending := s.pending[ip := q + [pkt]])
  }

  /** A datagram from anywhere but the server moves the direct path there, before its signature is looked at. */
  function Observe(cfg: Config, p: Peer, from: Endpoint, now: nat): Peer {
    if from == cfg.serverAddr then p else p.(realAddr := Some(from), directOK := true, lastSeen := now)
  }

  /** The receiver's half of the call test. */
  predicate MayReceive(p: Peer, plain: Bytes) {
    p.canCallBack || IsReplyPacket(plain)
  }

  /** What a datagram from a known peer writes to the TUN device. */
  function Deliver(cfg: Config, p: Peer, m: SignedMessage, sig: Bytes): seq<Output> {
    if !cfg.crypto.VerifySigned(m, sig, p.signPub) then []
    else if m.srcIP == Some(cfg.vpnIP) || m.dstIP != Some(cfg.vpnIP) then []
    else
      match cfg.crypto.open(p.key, m.payload)
      case None => []
      case Some(plain) => if MayReceive(p, plain) then [Tun(plain)] else []
  }

  /** The source a datagram names. */
  function Names(env: Envelope): Option<Ipv4> {
    match ParseSigned(env.body)
    case Err(_) => None
    case Ok((m, _)) => m.srcIP
  }

  function HandleData(cfg: Config, s: NodeState, env: Envelope, from: Endpoint, now: nat): Step {
    if s.blocked || Names(env).None? then Step(s, [])
    else
      var (m, sig) := ParseSigned(env.body).value;
      var src := m.srcIP.value;
      if src !in s.peers then Step(CachePacket(s, src, Cached(env, from)), [])
      else
        var p := Observe(cfg, s.peers[src], from, now);
        Step(s.(peers := s.peers[src := p]), Deliver(cfg, p, m, sig))
  }

  function HandleAll(cfg: Config, s: NodeState, q: seq<Cached>, now: nat): Step {
    if q == [] then Step(s, [])
    else
      var front := HandleAll(cfg, s, q[..|q| - 1], now);
      var last := HandleData(cfg, front.state, q[|q| - 1].env, q[|q| - 1].from, now);
      Step(last.state, front.outs + last.outs)
  }

  function Queue(s: NodeState, ip: Ipv4): seq<Cached> {
    if ip in s.pending then s.pending[ip] else []
  }

  function EnsurePeerThenFlush(cfg: Config, s: NodeState, ip: Ipv4, answer: Option<PeerAnswer>, now: nat): Step {
    var (s1, p) := EnsurePeer(cfg, s, ip, answer, now);
    if p.None? then Step(s1, [])
    else HandleAll(cfg, s1.(pending := s1.pending - {ip}), Queue(s1, ip), now)
  }

  function DropAllPeers(cfg: Config, s: NodeState): NodeState {
    s.(peers := map ip | ip in s.peers && ip == ServerVpn(cfg) :: s.peers[ip])
  }

  function HandlePolicyChanged(cfg: Config, s: NodeState, env: Envelope): NodeState {
    match ParseSigned(env.body)
    case Err(_) => s
    case Ok((m, sig)) =>
      if !cfg.crypto.VerifySigned(m, sig, cfg.serverSignPub) then s
      else
        var status := cfg.isBlocked(m.payload);
        DropAllPeers(cfg, if status.Some? then s.(blocked := status.value) else s)
  }

  // Runs.

  datatype Timed = Timed(event: Event, at: nat)

  function NodeStep(cfg: Config, s: NodeState, e: Timed): Step {
    match e.event
    case TunEvent(raw, answer, nonce) => ReadTun(cfg, s, raw, answer, nonce, e.at)
    case DataEvent(env, from) => HandleData(cfg, s, env, from, e.at)
    case FlushEvent(ip, answer) => EnsurePeerThenFlush(cfg, s, ip, answer, e.at)
    case RefreshEvent(ip, answer) => Step(EnsurePeer(cfg, s, ip, answer, e.at).0, [])
    case PolicyEvent(env) => Step(HandlePolicyChanged(cfg, s, env), [])
  }

  const START := NodeState(map[], map[], false)

  function After(cfg: Config, run: seq<Timed>): NodeState {
    if run == [] then START
    else NodeStep(cfg, After(cfg, run[..|run| - 1]), run[|run| - 1]).state
  }

  function Before(cfg: Config, run: seq<Timed>, i: nat): NodeState
    requires i <= |run|
  {
    After(cfg, run[..i])
  }

  function OutputsAt(cfg: Config, run: seq<Timed>, i: nat): seq<Output>
    requires i < |run|
  {
    NodeStep(cfg, Before(cfg, run, i), run[i]).outs
  }

  predicate Monotone(run: seq<Timed>) {
    forall i, j :: 0 <= i < j < |run| ==> run[i].at <= run[j].at
  }
}
