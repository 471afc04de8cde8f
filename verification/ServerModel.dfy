/**
 The server as a step function over values (internal/server/server.go and
 internal/server/data.go).  One handler or admin command is one step.
 */
module ServerModel {
  import opened Basics
  import opened Prefixes
  import opened Registry
  import opened Policy
  import opened Primitives
  import opened Signed
  import opened Envelopes
  import PeerAnswers

  const SECOND := 1_000_000_000
  const FLOW_TTL := 60 * SECOND

  datatype Command = AllowCommand | DenyCommand | UsersCommand | OtherCommand

  datatype AdminRequest = AdminRequest(command: Command, target: Bytes, to: Name)

  /**
   What stays fixed during one server run. The JSON codecs are parameters: `decodeAdmin` of admin requests,
   `encodeStatus` of policy notices and `encodeIntro` of introductions.
   */
  datatype Config = Config(subnet: Prefix, admin: Name, disk: Disk, crypto: Crypto, signKey: Bytes, exchKey: Bytes,
                           decodeAdmin: Bytes -> Option<AdminRequest>, encodeStatus: Status -> Bytes,
                           encodeIntro: (Option<Ipv4>, Endpoint) -> Bytes)

  datatype ServerState = ServerState(table: Table, nonces: map<Bytes, Bytes>, endpoints: map<Bytes, Endpoint>,
                                     ipEndpoints: map<Ipv4, Endpoint>, flows: map<(Ipv4, Ipv4), nat>)

  /** Signed packets are exact bytes, except the replies whose contents are left out; join packets stay structured. */
  datatype Packet =
    | Wire(env: Envelope)
    | Challenge(nonce: Bytes)
    | JoinReply(result: Result<Status, Error>, vpnIP: Option<Ipv4>)
    | ApproveNotify(vpnIP': Ipv4)
    | MachineListReply
    | AdminReply(ok: bool)

  datatype Output = Send(to: Endpoint, packet: Packet) | ToTun(plain: Bytes)

  datatype JoinRequest = JoinRequest(user: Name, machine: Name, public: Bytes, salt: Bytes, verifier: Bytes,
                                     desired: int)

  datatype JoinProof = JoinProof(user: Name, machine: Name, public: Bytes, proof: Bytes, desired: int)

  datatype Event =
    | JoinRequestEvent(req: JoinRequest, nonce: Option<Bytes>, remote: Endpoint)
    | JoinProofEvent(msg: JoinProof, remote: Endpoint)
    | SignedEvent(env: Envelope, remote: Endpoint)
    | AdminEvent(command: Command, subject: Bytes, to: Name)
    | ReloadEvent(salt: Bytes, verifier: Bytes)

  datatype Step = Step(state: ServerState, outs: seq<Output>)

  datatype AdminStep = AdminStep(state: ServerState, outs: seq<Output>, outcome: Outcome)

  // Addresses of machines.

  /** Allocate an address and bind it. */
  function MoveAddress(cfg: Config, t: Table, user: Name, machine: Name, desired: int): (Table, Outcome) {
    match Allocate(t, cfg.subnet, desired)
    case Err(e) => (t, Failed(e))
    case Ok(ip) => SetMachineIP(t, cfg.disk, user, machine, ip)
  }

  function EnsureInSubnet(cfg: Config, t: Table, user: Name, machine: Name): Table {
    match GetMachine(t, user, machine)
    case None => t
    case Some(m) =>
      if m.vpnIP.None? || Contains(cfg.subnet, m.vpnIP.value) then t
      else MoveAddress(cfg, t, user, machine, m.desired).0
  }

  function RebindDesired(cfg: Config, t: Table, user: Name, machine: Name, desired: int): Table {
    if desired == 0 then t
    else
      match GetMachine(t, user, machine)
      case None => t
      case Some(m) =>
        if m.vpnIP.None? || LastOctet(m.vpnIP.value) == desired then t
        else MoveAddress(cfg, t, user, machine, desired).0
  }

  /** The two address checks after a registration. */
  function Upkeep(cfg: Config, t: Table, user: Name, machine: Name, desired: int): Table {
    RebindDesired(cfg, EnsureInSubnet(cfg, t, user, machine), user, machine, desired)
  }

  function DesiredOf(t: Table, user: Name, machine: Name): int {
    match GetMachine(t, user, machine)
    case None => 0
    case Some(m) => m.desired
  }

  function AutoApproveAdmin(cfg: Config, t: Table, user: Name, machine: Name): (Table, bool) {
    if user != cfg.admin then (t, false)
    else
      var (t1, allowed) := Allow(t, cfg.disk, user, machine);
      if allowed.Failed? then (t1, false)
      else
        var (t2, moved) := MoveAddress(cfg, t1, user, machine, DesiredOf(t1, user, machine));
        (t2, moved.Done?)
  }

  // Joining.

  function RememberEndpoint(s: ServerState, user: Name, machine: Name, remote: Endpoint): ServerState {
    s.(endpoints := s.endpoints[JoinKey(user, machine) := remote])
  }

  function RememberIPEndpoint(s: ServerState, ip: Ipv4, remote: Endpoint): ServerState {
    s.(ipEndpoints := s.ipEndpoints[ip := remote])
  }

  function SendJoinReply(s: ServerState, remote: Endpoint, result: Result<Status, Error>, vpnIP: Option<Ipv4>): Step {
    Step(if vpnIP.Some? then RememberIPEndpoint(s, vpnIP.value, remote) else s,
         [Send(remote, JoinReply(result, vpnIP))])
  }

  function HandleJoinRequest(cfg: Config, s: ServerState, req: JoinRequest, nonce: Option<Bytes>,
                             remote: Endpoint): Step {
    if req.user == [] || req.machine == [] || req.public == [] then SendJoinReply(s, remote, Err(FieldsMissing), None)
    else
      var s1 := RememberEndpoint(s, req.user, req.machine, remote);
      if GetUser(s1.table, req.user).None? then
        var (t, r) := RegisterJoin(s1.table, cfg.disk, req.user, req.machine, req.public, req.salt, req.verifier,
                                   req.desired);
        SendJoinReply(s1.(table := t), remote, r, None)
      else if nonce.None? then Step(s1, [])
      else Step(s1.(nonces := s1.nonces[JoinKey(req.user, req.machine) := nonce.value]),
                [Send(remote, Challenge(nonce.value))])
  }

  /** What RegisterJoin, the address upkeep and the admin rule do to the table after an accepted proof. */
  function JoinTable(cfg: Config, t: Table, msg: JoinProof): (Table, Result<Status, Error>) {
    var (t1, r) := RegisterJoin(t, cfg.disk, msg.user, msg.machine, msg.public, [], [], msg.desired);
    if r.Err? then (t1, r)
    else
      var t3 := Upkeep(cfg, t1, msg.user, msg.machine, msg.desired);
      if r.value != Pending then (t3, r)
      else
        var (t4, approved) := AutoApproveAdmin(cfg, t3, msg.user, msg.machine);
        (t4, if approved then Ok(Active) else r)
  }

  /** The proof answers the outstanding challenge of its join key. */
  predicate ProofAccepted(cfg: Config, s: ServerState, msg: JoinProof) {
    var key := JoinKey(msg.user, msg.machine);
    var u := GetUser(s.table, msg.user);
    u.Some? && key in s.nonces &&
    cfg.crypto.VerifyProof(u.value.verifier, msg.proof, s.nonces[key], msg.user, msg.machine, msg.public)
  }

  /** After the proof has been verified. */
  function AdmitJoin(cfg: Config, s: ServerState, msg: JoinProof, remote: Endpoint): Step {
    var s1 := RememberEndpoint(s, msg.user, msg.machine, remote);
    var (t, r) := JoinTable(cfg, s1.table, msg);
    var m := GetMachine(t, msg.user, msg.machine);
    SendJoinReply(s1.(table := t), remote, r, if r.Ok? && m.Some? then m.value.vpnIP else None)
  }

  function HandleJoinProof(cfg: Config, s: ServerState, msg: JoinProof, remote: Endpoint): Step {
    var key := JoinKey(msg.user, msg.machine);
    if GetUser(s.table, msg.user).None? then SendJoinReply(s, remote, Err(UnknownUser), None)
    else
      var s1 := s.(nonces := s.nonces - {key});
      if key !in s.nonces then SendJoinReply(s1, remote, Err(NoChallenge), None)
      else if !ProofAccepted(cfg, s, msg) then SendJoinReply(s1, remote, Err(ProofRejected), None)
      else AdmitJoin(cfg, s1, msg, remote)
  }

  // Admin commands.

  function NotifyApprove(s: ServerState, user: Name, machine: Name): Step {
    var m := GetMachine(s.table, user, machine);
    var key := JoinKey(user, machine);
    if m.None? || m.value.vpnIP.None? || key !in s.endpoints then Step(s, [])
    else
      var ip := m.value.vpnIP.value;
      Step(RememberIPEndpoint(s, ip, s.endpoints[key]), [Send(s.endpoints[key], ApproveNotify(ip))])
  }

  function ApproveMachine(cfg: Config, s: ServerState, user: Name, machine: Name): AdminStep {
    match GetMachine(s.table, user, machine)
    case None => AdminStep(s, [], Done)
    case Some(m) =>
      var (t, outcome) :=
        if m.vpnIP.None? then MoveAddress(cfg, s.table, user, machine, m.desired) else (s.table, Done);
      var s1 := s.(table := t);
      if outcome.Failed? then AdminStep(s1, [], outcome)
      else
        var notified := NotifyApprove(s1, user, machine);
        AdminStep(notified.state, notified.outs, Done)
  }

  function WithTable(s: ServerState, r: (Table, Outcome)): AdminStep {
    AdminStep(s.(table := r.0), [], r.1)
  }

  function AllowUser(cfg: Config, s: ServerState, user: Name, to: Name): AdminStep {
    match GetUser(s.table, user)
    case None => AdminStep(s, [], Failed(UserNotFound))
    case Some(u) =>
      match u.status {
        case Pending => WithTable(s, Allow(s.table, cfg.disk, user, []))
        case Blocked => WithTable(s, Unblock(s.table, cfg.disk, user, []))
        case Active => WithTable(s, GrantTo(s.table, cfg.disk, user, to))
      }
  }

  function AllowMachine(cfg: Config, s: ServerState, user: Name, machine: Name, to: Name): AdminStep {
    match GetMachine(s.table, user, machine)
    case None => AdminStep(s, [], Failed(MachineNotFound))
    case Some(m) =>
      match m.status {
        case Pending =>
          var allowed := WithTable(s, Allow(s.table, cfg.disk, user, machine));
          if allowed.outcome.Failed? then allowed else ApproveMachine(cfg, allowed.state, user, machine)
        case Blocked => WithTable(s, Unblock(s.table, cfg.disk, user, machine))
        case Active => WithTable(s, GrantTo(s.table, cfg.disk, JoinKey(user, machine), to))
      }
  }

  function ServerAllow(cfg: Config, s: ServerState, user: Name, machine: Name, to: Name): AdminStep {
    if machine == [] then AllowUser(cfg, s, user, to) else AllowMachine(cfg, s, user, machine, to)
  }

  /** Revokes the listed targets one by one and stops at the first failed write. */
  function RevokeAll(t: Table, disk: Disk, subject: Bytes, targets: seq<Name>): (Table, Outcome)
    decreases |targets|
  {
    if targets == [] then (t, Done)
    else
      var (t1, outcome) := Revoke(t, disk, subject, targets[0]);
      if outcome.Failed? then (t1, outcome) else RevokeAll(t1, disk, subject, targets[1..])
  }

  function Subject(user: Name, machine: Name): Bytes {
    if machine == [] then user else JoinKey(user, machine)
  }

  /** The status part of deny: a pending row goes away, an active one is blocked. */
  function DenyRow(t: Table, disk: Disk, user: Name, machine: Name): (Table, Outcome) {
    if machine == [] then
      match GetUser(t, user)
      case None => (t, Failed(UserNotFound))
      case Some(u) =>
        match u.status {
          case Pending => Deny(t, disk, user, [])
          case Blocked => (t, Done)
          case Active => Block(t, disk, user, [])
        }
    else
      match GetMachine(t, user, machine)
      case None => (t, Failed(MachineNotFound))
      case Some(m) =>
        match m.status {
          case Pending => Deny(t, disk, user, machine)
          case Blocked => (t, Done)
          case Active => Block(t, disk, user, machine)
        }
  }

  function ServerDeny(t: Table, disk: Disk, user: Name, machine: Name, to: Name): (Table, Outcome) {
    var subject := Subject(user, machine);
    if to != [] then Revoke(t, disk, subject, to)
    else
      var (t1, outcome) := RevokeAll(t, disk, subject, GrantsOf(t.grants, subject));
      if outcome.Failed? then (t1, outcome) else DenyRow(t1, disk, user, machine)
  }

  /** A message signed by the server, in its envelope. */
  function ServerSigned(cfg: Config, typ: byte, dst: Option<Ipv4>, payload: Bytes): Packet {
    Wire(Envelope(typ, EncodeSigned(SignedMessage(typ, ServerIP(cfg.subnet), dst, payload),
                                    cfg.crypto.Signer(cfg.signKey))))
  }

  /** A policy notice carries the status of the machine it goes to, and no destination address. */
  function PolicyNotice(cfg: Config, status: Status): Packet {
    ServerSigned(cfg, TYPE_POLICY_CHANGED, None, cfg.encodeStatus(status))
  }

  /** Every machine with a known endpoint is told its own status. */
  function Broadcast(cfg: Config, ms: seq<Machine>, ipEndpoints: map<Ipv4, Endpoint>): seq<Output> {
    if ms == [] then []
    else
      var m := ms[|ms| - 1];
      Broadcast(cfg, ms[..|ms| - 1], ipEndpoints) +
      if m.vpnIP.Some? && m.vpnIP.value in ipEndpoints
      then [Send(ipEndpoints[m.vpnIP.value], PolicyNotice(cfg, m.status))] else []
  }

  function AdminCommand(cfg: Config, s: ServerState, command: Command, subject: Bytes, to: Name): AdminStep {
    match ParseTarget(subject)
    case Err(e) => AdminStep(s, [], Failed(e))
    case Ok((user, machine)) =>
      if command == AllowCommand || command == DenyCommand then
        var step := if command == AllowCommand then ServerAllow(cfg, s, user, machine, to)
                    else WithTable(s, ServerDeny(s.table, cfg.disk, user, machine, to));
        if step.outcome.Failed? then step
        else step.(outs := step.outs + Broadcast(cfg, step.state.table.machines, step.state.ipEndpoints))
      else AdminStep(s, [], Failed(UnknownCommand))
  }

  // Signed messages.

  function MachineKeys(m: Machine): (Bytes, Bytes) {
    if |m.public| != PUBLIC_BLOB_SIZE then ([], []) else (m.public[..KEY_SIZE], m.public[KEY_SIZE..])
  }

  /** The row bound to the claimed source address, when the message verifies under its key. */
  function VerifyMachine(cfg: Config, t: Table, m: SignedMessage, sig: Bytes): Option<Machine> {
    if m.srcIP.None? then None
    else
      match FindMachineByIP(t, m.srcIP.value)
      case None => None
      case Some(row) => if cfg.crypto.VerifySigned(m, sig, MachineKeys(row).0) then Some(row) else None
  }

  function SendTo(ipEndpoints: map<Ipv4, Endpoint>, ip: Ipv4, packet: Packet): seq<Output> {
    if ip in ipEndpoints then [Send(ipEndpoints[ip], packet)] else []
  }

  /** The flow lookup of hasRecentFlow: dst sent to src at most FLOW_TTL ago. */
  predicate RecentFlow(flows: map<(Ipv4, Ipv4), nat>, src: Ipv4, dst: Ipv4, now: nat) {
    (dst, src) in flows && now - flows[(dst, src)] <= FLOW_TTL
  }

  /** hasRecentFlow deletes an expired entry it meets. */
  function ForgetExpired(flows: map<(Ipv4, Ipv4), nat>, src: Ipv4, dst: Ipv4, now: nat): map<(Ipv4, Ipv4), nat> {
    if RecentFlow(flows, src, dst, now) then flows else flows - {(dst, src)}
  }

  function RelayData(cfg: Config, s: ServerState, src: Machine, srcIP: Ipv4, dstIP: Ipv4, raw: Bytes, now: nat): Step {
    match FindMachineByIP(s.table, dstIP)
    case None => Step(s, [])
    case Some(dst) =>
      if dst.status != Active then Step(s, [])
      else
        var forward := SendTo(s.ipEndpoints, dstIP, Wire(Envelope(TYPE_RELAY_DATA, raw)));
        if AllowRelay(cfg.admin, s.table, src, dst) then Step(s.(flows := s.flows[(srcIP, dstIP) := now]), forward)
        else Step(s.(flows := ForgetExpired(s.flows, srcIP, dstIP, now)),
                  if RecentFlow(s.flows, srcIP, dstIP, now) then forward else [])
  }

  function LocalData(cfg: Config, s: ServerState, src: Machine, payload: Bytes): seq<Output> {
    if !AllowRelay(cfg.admin, s.table, src, ServerMachine(cfg.admin)) then []
    else
      match cfg.crypto.sharedKey(cfg.exchKey, MachineKeys(src).1)
      case None => []
      case Some(key) =>
        match cfg.crypto.open(key, payload)
        case None => []
        case Some(plain) => [ToTun(plain)]
  }

  /** The answer to a discovery query of `src` about `target`. */
  function PeerAnswerFor(cfg: Config, s: ServerState, src: Machine, target: Ipv4): PeerAnswers.PeerAnswer {
    match FindMachineByIP(s.table, target)
    case None => PeerAnswers.NOT_FOUND
    case Some(dst) =>
      if dst.status != Active then PeerAnswers.NOT_FOUND
      else
        var hasAddr := AllowP2P(cfg.admin, s.table, src, dst) && target in s.ipEndpoints;
        PeerAnswers.PeerAnswer(
          true, hasAddr,
          src.status == Active && AllowRelay(cfg.admin, s.table, src, dst),
          AllowRelay(cfg.admin, s.table, dst, src),
          if hasAddr then Some(s.ipEndpoints[target]) else None,
          MachineKeys(dst).0, MachineKeys(dst).1)
  }

  /** Tells `target` the endpoint from which `src` asked about it. */
  function Introduction(cfg: Config, target: Ipv4, src: Machine, remote: Endpoint): Packet {
    ServerSigned(cfg, TYPE_PEER_INTRO, Some(target), cfg.encodeIntro(src.vpnIP, remote))
  }

  function PeerQuery(cfg: Config, s: ServerState, src: Machine, srcIP: Ipv4, payload: Bytes,
                     remote: Endpoint): seq<Output> {
    match ParsePeerQuery(payload)
    case Err(_) => []
    case Ok(target) =>
      var answer := PeerAnswerFor(cfg, s, src, target);
      SendTo(s.ipEndpoints, srcIP,
             ServerSigned(cfg, TYPE_PEER_QUERY_RPY, Some(srcIP), PeerAnswers.EncodeAnswer(answer))) +
      if answer.hasAddr then SendTo(s.ipEndpoints, target, Introduction(cfg, target, src, remote)) else []
  }

  function HandleAdminRequest(cfg: Config, s: ServerState, src: Machine, srcIP: Ipv4, payload: Bytes): Step {
    match cfg.decodeAdmin(payload)
    case None => Step(s, [])
    case Some(req) =>
      if req.command == UsersCommand then Step(s, SendTo(s.ipEndpoints, srcIP, AdminReply(true)))
      else if src.user != cfg.admin then Step(s, SendTo(s.ipEndpoints, srcIP, AdminReply(false)))
      else
        var step := AdminCommand(cfg, s, req.command, req.target, req.to);
        Step(step.state, step.outs + SendTo(step.state.ipEndpoints, srcIP, AdminReply(step.outcome.Done?)))
  }

  predicate IsSignedType(typ: byte) {
    typ in {TYPE_DATA, TYPE_RELAY_DATA, TYPE_PEER_QUERY, TYPE_MACHINE_LIST, TYPE_KEEP_ALIVE, TYPE_ADMIN_REQUEST}
  }

  predicate IsDataPlane(typ: byte) {
    typ == TYPE_RELAY_DATA || typ == TYPE_DATA
  }

  /** The message and the row it verifies under, when the server acts on the datagram at all. */
  function Authenticated(cfg: Config, t: Table, env: Envelope): Option<(SignedMessage, Machine)> {
    if !IsSignedType(env.typ) then None
    else
      match ParseSigned(env.body)
      case Err(_) => None
      case Ok((m, sig)) =>
        match VerifyMachine(cfg, t, m, sig)
        case None => None
        case Some(src) => if IsDataPlane(env.typ) && src.status != Active then None else Some((m, src))
  }

  function Dispatch(cfg: Config, s: ServerState, env: Envelope, m: SignedMessage, src: Machine, remote: Endpoint,
                    now: nat): Step {
    if m.srcIP.None? || m.dstIP.None? then Step(s, [])
    else
      var srcIP, dstIP := m.srcIP.value, m.dstIP.value;
      var s1 := RememberIPEndpoint(s, srcIP, remote);
      if env.typ == TYPE_RELAY_DATA then RelayData(cfg, s1, src, srcIP, dstIP, env.body, now)
      else if env.typ == TYPE_DATA then Step(s1, LocalData(cfg, s1, src, m.payload))
      else if env.typ == TYPE_PEER_QUERY then Step(s1, PeerQuery(cfg, s1, src, srcIP, m.payload, remote))
      else if env.typ == TYPE_MACHINE_LIST then Step(s1, SendTo(s1.ipEndpoints, srcIP, MachineListReply))
      else if env.typ == TYPE_ADMIN_REQUEST then HandleAdminRequest(cfg, s1, src, srcIP, m.payload)
      else Step(s1, [Send(remote, ServerSigned(cfg, TYPE_KEEP_ALIVE, Some(srcIP), []))])
  }

  function HandleSigned(cfg: Config, s: ServerState, env: Envelope, remote: Endpoint, now: nat): Step {
    match Authenticated(cfg, s.table, env)
    case None => Step(s, [])
    case Some((m, src)) => Dispatch(cfg, s, env, m, src, remote, now)
  }

  // Runs.

  datatype Timed = Timed(event: Event, at: nat)

  function ServerStep(cfg: Config, s: ServerState, e: Timed): Step {
    match e.event
    case JoinRequestEvent(req, nonce, remote) => HandleJoinRequest(cfg, s, req, nonce, remote)
    case JoinProofEvent(msg, remote) => HandleJoinProof(cfg, s, msg, remote)
    case SignedEvent(env, remote) => HandleSigned(cfg, s, env, remote, e.at)
    case AdminEvent(command, subject, to) =>
      var step := AdminCommand(cfg, s, command, subject, to);
      Step(step.state, step.outs)
    case ReloadEvent(salt, verifier) =>
      Step(s.(table := SetVerifier(s.table, cfg.disk, cfg.admin, salt, verifier).0), [])
  }

  /** A server that has just been started on a saved table. */
  function Started(t: Table): ServerState {
    ServerState(t, map[], map[], map[], map[])
  }

  /** The state after the events `run`. */
  function After(cfg: Config, t: Table, run: seq<Timed>): ServerState {
    if run == [] then Started(t)
    else ServerStep(cfg, After(cfg, t, run[..|run| - 1]), run[|run| - 1]).state
  }

  /** The state before event `i` and what event `i` sends. */
  function Before(cfg: Config, t: Table, run: seq<Timed>, i: nat): ServerState
    requires i <= |run|
  {
    After(cfg, t, run[..i])
  }

  function OutputsAt(cfg: Config, t: Table, run: seq<Timed>, i: nat): seq<Output>
    requires i < |run|
  {
    ServerStep(cfg, Before(cfg, t, run, i), run[i]).outs
  }

  /** The clock never runs backwards. */
  predicate Monotone(run: seq<Timed>) {
    forall i, j :: 0 <= i < j < |run| ==> run[i].at <= run[j].at
  }

  lemma BeforeStep(cfg: Config, t: Table, run: seq<Timed>, i: nat)
    requires i < |run|
    ensures Before(cfg, t, run, i + 1) == ServerStep(cfg, Before(cfg, t, run, i), run[i]).state
  {
    assert run[..i + 1][..i] == run[..i];
  }
}
