/** Which parts of the server state, and which packets, each kind of step can touch. */
module ServerFrames {
  import opened Basics
  import opened Registry
  import opened Signed
  import opened Envelopes
  import opened ServerModel

  predicate IsRelayOutput(o: Output) {
    o.Send? && o.packet.Wire? && o.packet.env.typ == TYPE_RELAY_DATA
  }

  ghost predicate NoRelay(outs: seq<Output>) {
    forall o :: o in outs ==> !IsRelayOutput(o)
  }

  /** Admin commands change the table and the endpoints by address, nothing else, and relay nothing. */
  ghost predicate AdminFrame(s: ServerState, step: AdminStep) {
    step.state == s.(table := step.state.table, ipEndpoints := step.state.ipEndpoints) && NoRelay(step.outs)
  }

  lemma {:induction false} BroadcastHasNoRelay(cfg: Config, ms: seq<Machine>, ipEndpoints: map<Ipv4, Endpoint>)
    ensures NoRelay(Broadcast(cfg, ms, ipEndpoints))
  {
    if ms == [] {
    } else {
      BroadcastHasNoRelay(cfg, ms[..|ms| - 1], ipEndpoints);
    }
  }

  lemma ApproveFrame(cfg: Config, s: ServerState, user: Name, machine: Name)
    ensures AdminFrame(s, ApproveMachine(cfg, s, user, machine))
  {
  }

  lemma AllowUserFrame(cfg: Config, s: ServerState, user: Name, to: Name)
    ensures AdminFrame(s, AllowUser(cfg, s, user, to))
  {
  }

  lemma AllowMachineFrame(cfg: Config, s: ServerState, user: Name, machine: Name, to: Name)
    ensures AdminFrame(s, AllowMachine(cfg, s, user, machine, to))
  {
    var allowed := WithTable(s, Allow(s.table, cfg.disk, user, machine));
    ApproveFrame(cfg, allowed.state, user, machine);
  }

  lemma AdminCommandFrame(cfg: Config, s: ServerState, command: Command, subject: Bytes, to: Name)
    ensures AdminFrame(s, AdminCommand(cfg, s, command, subject, to))
  {
    if ParseTarget(subject).Ok? {
      var (user, machine) := ParseTarget(subject).value;
      AllowUserFrame(cfg, s, user, to);
      AllowMachineFrame(cfg, s, user, machine, to);
      var s' := AdminCommand(cfg, s, command, subject, to).state;
      BroadcastHasNoRelay(cfg, s'.table.machines, s'.ipEndpoints);
    }
  }

  lemma AdminRequestFrame(cfg: Config, s: ServerState, src: Machine, srcIP: Ipv4, payload: Bytes)
    ensures var step := HandleAdminRequest(cfg, s, src, srcIP, payload);
            AdminFrame(s, AdminStep(step.state, step.outs, Done))
  {
    var req := cfg.decodeAdmin(payload);
    if req.Some? {
      AdminCommandFrame(cfg, s, req.value.command, req.value.target, req.value.to);
    }
  }

  /** Signed messages keep nonces and join endpoints; only relay data touches flows, only admin requests the table. */
  lemma DispatchFrame(cfg: Config, s: ServerState, env: Envelope, m: SignedMessage, src: Machine, remote: Endpoint,
                      now: nat)
    ensures var step := Dispatch(cfg, s, env, m, src, remote, now);
            && step.state.nonces == s.nonces && step.state.endpoints == s.endpoints
            && (env.typ != TYPE_RELAY_DATA ==> step.state.flows == s.flows && NoRelay(step.outs))
            && (env.typ != TYPE_ADMIN_REQUEST ==> step.state.table == s.table)
  {
    if m.srcIP.Some? && env.typ == TYPE_ADMIN_REQUEST {
      AdminRequestFrame(cfg, RememberIPEndpoint(s, m.srcIP.value, remote), src, m.srcIP.value, m.payload);
    }
  }

  lemma SignedFrame(cfg: Config, s: ServerState, env: Envelope, remote: Endpoint, now: nat)
    ensures var step := HandleSigned(cfg, s, env, remote, now);
            && step.state.nonces == s.nonces && step.state.endpoints == s.endpoints
            && (env.typ != TYPE_RELAY_DATA ==> step.state.flows == s.flows && NoRelay(step.outs))
            && (env.typ != TYPE_ADMIN_REQUEST ==> step.state.table == s.table)
  {
    var auth := Authenticated(cfg, s.table, env);
    if auth.Some? {
      DispatchFrame(cfg, s, env, auth.value.0, auth.value.1, remote, now);
    }
  }

  /** Joins relay nothing and keep the flows. */
  lemma JoinFrame(cfg: Config, s: ServerState, req: JoinRequest, nonce: Option<Bytes>, msg: JoinProof, remote: Endpoint)
    ensures var step := HandleJoinRequest(cfg, s, req, nonce, remote); step.state.flows == s.flows && NoRelay(step.outs)
    ensures var step := HandleJoinProof(cfg, s, msg, remote); step.state.flows == s.flows && NoRelay(step.outs)
  {
  }

  // Orders of the administrator.

  /** The allow or deny that event `e` makes the server carry out: typed locally, or in a verified admin request. */
  function AdminOrder(cfg: Config, t: Table, e: Event): Option<AdminRequest> {
    match e
    case AdminEvent(command, subject, to) => Some(AdminRequest(command, subject, to))
    case SignedEvent(env, _) =>
      if env.typ != TYPE_ADMIN_REQUEST then None
      else
        match Authenticated(cfg, t, env) {
          case None => None
          case Some((m, src)) =>
            if m.srcIP.None? || m.dstIP.None? || src.user != cfg.admin then None
            else
              var req := cfg.decodeAdmin(m.payload);
              if req.None? || req.value.command == UsersCommand then None else req
        }
    case _ => None
  }

  /** The table an order leaves behind in state `s`. */
  function OrderedTable(cfg: Config, s: ServerState, order: AdminRequest): Table {
    match ParseTarget(order.target)
    case Err(_) => s.table
    case Ok((user, machine)) =>
      if order.command == AllowCommand then ServerAllow(cfg, s, user, machine, order.to).state.table
      else if order.command == DenyCommand then ServerDeny(s.table, cfg.disk, user, machine, order.to).0
      else s.table
  }

  lemma CommandTable(cfg: Config, s: ServerState, order: AdminRequest)
    ensures AdminCommand(cfg, s, order.command, order.target, order.to).state.table == OrderedTable(cfg, s, order)
  {
  }

  lemma RequestDecidesTable(cfg: Config, s: ServerState, src: Machine, srcIP: Ipv4, payload: Bytes)
    ensures var req := cfg.decodeAdmin(payload);
            HandleAdminRequest(cfg, s, src, srcIP, payload).state.table ==
            if req.Some? && req.value.command != UsersCommand && src.user == cfg.admin
            then OrderedTable(cfg, s, req.value) else s.table
  {
    if cfg.decodeAdmin(payload).Some? {
      CommandTable(cfg, s, cfg.decodeAdmin(payload).value);
    }
  }

  /** A step that is neither a join nor a reload leaves the table of its order, or the old one. */
  lemma OrderDecidesTable(cfg: Config, s: ServerState, e: Timed) returns (s': ServerState)
    requires e.event.SignedEvent? || e.event.AdminEvent?
    ensures s'.table == s.table
    ensures ServerStep(cfg, s, e).state.table ==
            match AdminOrder(cfg, s.table, e.event)
            case None => s.table
            case Some(order) => OrderedTable(cfg, s', order)
  {
    s' := s;
    match e.event
    case AdminEvent(command, subject, to) =>
      CommandTable(cfg, s, AdminRequest(command, subject, to));
    case SignedEvent(env, remote) =>
      var auth := Authenticated(cfg, s.table, env);
      if env.typ != TYPE_ADMIN_REQUEST {
        SignedFrame(cfg, s, env, remote, e.at);
      } else if auth.Some? && auth.value.0.srcIP.Some? {
        s' := RememberIPEndpoint(s, auth.value.0.srcIP.value, remote);
        RequestDecidesTable(cfg, s', auth.value.1, auth.value.0.srcIP.value, auth.value.0.payload);
      }
  }
}
