/** Data addressed to the server: exactly what it writes to its TUN device, and when that stops. */
module ServerData {
  import opened Basics
  import opened Registry
  import opened Policy
  import opened Envelopes
  import opened Signed
  import opened Signatures
  import opened Authentication
  import opened ServerModel
  import opened RegistryRuns
  import opened Silence
  import opened MachineSilence

  /** The machine that holds the source address written in the datagram. */
  function SourceRow(t: Table, env: Envelope): Option<Machine> {
    if |env.body| < 73 then None else FindMachineByIP(t, FromBe32(env.body[1..5]))
  }

  /** Machines of the admin, and those to which "server" is granted. */
  ghost predicate MayReachServer(admin: Name, t: Table, src: Machine) {
    || src.user == admin
    || exists g :: g in t.grants && g.target == [0x73, 0x65, 0x72, 0x76, 0x65, 0x72] &&
                   (g.subject == src.user || g.subject == src.user + [SLASH] + src.name)
  }

  lemma ServerIsReachedIff(admin: Name, t: Table, src: Machine)
    ensures AllowRelay(admin, t, src, ServerMachine(admin)) <==> MayReachServer(admin, t, src)
  {
    AllowRelayIff(admin, t, src, ServerMachine(admin));
  }

  /** Data for the server: signed by the active machine that holds its source, allowed, and it opens to `plain`. */
  ghost predicate CarriesData(cfg: Config, t: Table, env: Envelope, plain: Bytes) {
    var row := SourceRow(t, env);
    && env.typ == 0x11 && row.Some? && row.value.status == Active
    && SignedByMachine(cfg.crypto, row.value, env.body) && MayReachServer(cfg.admin, t, row.value)
    && var key := cfg.crypto.sharedKey(cfg.exchKey, row.value.public[32..]);
       key.Some? && cfg.crypto.open(key.value, env.body[9..|env.body| - 64]) == Some(plain)
  }

  predicate NoTun(outs: seq<Output>) {
    forall o :: o in outs ==> o.Send?
  }

  lemma {:induction false} BroadcastWritesNothing(cfg: Config, ms: seq<Machine>, ipEndpoints: map<Ipv4, Endpoint>)
    ensures NoTun(Broadcast(cfg, ms, ipEndpoints))
  {
    if ms == [] {
    } else {
      BroadcastWritesNothing(cfg, ms[..|ms| - 1], ipEndpoints);
    }
  }

  lemma AllowWritesNothing(cfg: Config, s: ServerState, user: Name, machine: Name, to: Name)
    ensures NoTun(ServerAllow(cfg, s, user, machine, to).outs)
  {
  }

  lemma CommandWritesNothing(cfg: Config, s: ServerState, command: Command, subject: Bytes, to: Name)
    ensures NoTun(AdminCommand(cfg, s, command, subject, to).outs)
  {
    if ParseTarget(subject).Ok? {
      var (user, machine) := ParseTarget(subject).value;
      AllowWritesNothing(cfg, s, user, machine, to);
      var s' := AdminCommand(cfg, s, command, subject, to).state;
      BroadcastWritesNothing(cfg, s'.table.machines, s'.ipEndpoints);
    }
  }

  lemma RequestWritesNothing(cfg: Config, s: ServerState, src: Machine, srcIP: Ipv4, payload: Bytes)
    ensures NoTun(HandleAdminRequest(cfg, s, src, srcIP, payload).outs)
  {
    var req := cfg.decodeAdmin(payload);
    if req.Some? {
      CommandWritesNothing(cfg, s, req.value.command, req.value.target, req.value.to);
    }
  }

  lemma RelayWritesNothing(cfg: Config, s: ServerState, src: Machine, srcIP: Ipv4, dstIP: Ipv4, raw: Bytes, now: nat)
    ensures NoTun(RelayData(cfg, s, src, srcIP, dstIP, raw, now).outs)
  {
  }

  lemma OtherMessagesWriteNothing(cfg: Config, s: ServerState, env: Envelope, remote: Endpoint, now: nat)
    requires env.typ != 0x11
    ensures NoTun(HandleSigned(cfg, s, env, remote, now).outs)
  {
    var auth := Authenticated(cfg, s.table, env);
    if auth.Some? && auth.value.0.srcIP.Some? && auth.value.0.dstIP.Some? {
      var (m, src) := auth.value;
      var s1 := RememberIPEndpoint(s, m.srcIP.value, remote);
      RequestWritesNothing(cfg, s1, src, m.srcIP.value, m.payload);
      RelayWritesNothing(cfg, s1, src, m.srcIP.value, m.dstIP.value, env.body, now);
    }
  }

  /** What LocalData writes for an active machine's payload. */
  lemma LocalDataIff(cfg: Config, s: ServerState, src: Machine, payload: Bytes, plain: Bytes)
    requires |src.public| == 64
    ensures ToTun(plain) in LocalData(cfg, s, src, payload) <==>
            MayReachServer(cfg.admin, s.table, src) &&
            var key := cfg.crypto.sharedKey(cfg.exchKey, src.public[32..]);
            key.Some? && cfg.crypto.open(key.value, payload) == Some(plain)
  {
    ServerIsReachedIff(cfg.admin, s.table, src);
  }

  lemma DataMessageIff(cfg: Config, s: ServerState, env: Envelope, remote: Endpoint, now: nat, plain: Bytes)
    requires env.typ == 0x11
    ensures ToTun(plain) in HandleSigned(cfg, s, env, remote, now).outs <==> CarriesData(cfg, s.table, env, plain)
  {
    if |env.body| >= 73 {
      MessageFields(env.body);
      var m, row := ParseSigned(env.body).value.0, SourceRow(s.table, env);
      if row.Some? {
        AuthenticatedIff(cfg, s.table, env, m, row.value);
        if |row.value.public| == 64 {
          var s1 := RememberIPEndpoint(s, m.srcIP.value, remote);
          LocalDataIff(cfg, s1, row.value, m.payload, plain);
        }
      }
      var auth := Authenticated(cfg, s.table, env);
      if auth.Some? {
        AuthenticatedIff(cfg, s.table, env, auth.value.0, auth.value.1);
      }
    }
  }

  /** The server writes `plain` to its TUN device exactly when the event is a datagram that carries it. */
  lemma TunWriteIff(cfg: Config, s: ServerState, e: Timed, plain: Bytes)
    ensures ToTun(plain) in ServerStep(cfg, s, e).outs <==>
            e.event.SignedEvent? && CarriesData(cfg, s.table, e.event.env, plain)
  {
    match e.event
    case SignedEvent(env, remote) =>
      if env.typ == 0x11 {
        DataMessageIff(cfg, s, env, remote, e.at, plain);
      } else {
        OtherMessagesWriteNothing(cfg, s, env, remote, e.at);
      }
    case AdminEvent(command, subject, to) => CommandWritesNothing(cfg, s, command, subject, to);
    case _ =>
  }

  lemma SourceHoldsAddress(t: Table, env: Envelope)
    requires SourceRow(t, env).Some?
    ensures SourceRow(t, env).value in t.machines
  {
    FoundByIP(t, FromBe32(env.body[1..5]));
  }

  /** Data of a denied user does not reach the server until an accepted order allows the user or one of its machines. */
  lemma DeniedUserDataStops(cfg: Config, t: Table, run: seq<Timed>, i: nat, j: nat, user: Name, plain: Bytes)
    requires Good(cfg, t, None) && i < j < |run| && Denies(cfg, Before(cfg, t, run, i).table, run[i].event, user)
    requires GetUser(Before(cfg, t, run, i).table, user).Some? &&
             GetUser(Before(cfg, t, run, i).table, user).value.status == Active
    requires forall k :: i < k < j ==> !Allows(cfg, Before(cfg, t, run, k).table, run[k].event, user)
    requires ToTun(plain) in OutputsAt(cfg, t, run, j)
    ensures run[j].event.SignedEvent?
    ensures var row := SourceRow(Before(cfg, t, run, j).table, run[j].event.env); row.Some? && row.value.user != user
  {
    DeniedUserStaysBlocked(cfg, t, run, i, j, user);
    TunWriteIff(cfg, Before(cfg, t, run, j), run[j], plain);
    SourceHoldsAddress(Before(cfg, t, run, j).table, run[j].event.env);
  }

  /** Likewise data of a denied machine. */
  lemma DeniedMachineDataStops(cfg: Config, t: Table, run: seq<Timed>, i: nat, j: nat,
                               user: Name, machine: Name, denied: Machine, plain: Bytes)
    requires Good(cfg, t, None) && i < j < |run|
    requires DeniesMachine(cfg, Before(cfg, t, run, i).table, run[i].event, user, machine)
    requires GetMachine(Before(cfg, t, run, i).table, user, machine) == Some(denied) && denied.status == Active
    requires forall k :: i < k < j ==>
               !Ends(cfg, Before(cfg, t, run, k).table, run[k].event, Label(user, denied.public, machine))
    requires ToTun(plain) in OutputsAt(cfg, t, run, j)
    ensures run[j].event.SignedEvent?
    ensures var row := SourceRow(Before(cfg, t, run, j).table, run[j].event.env);
            row.Some? && !(row.value.user == user && row.value.public == denied.public)
  {
    DeniedMachineStaysBlocked(cfg, t, run, i, j, user, machine, denied);
    var before := Before(cfg, t, run, j).table;
    TunWriteIff(cfg, Before(cfg, t, run, j), run[j], plain);
    SourceHoldsAddress(before, run[j].event.env);
    var m :| m in before.machines && Is(m, Label(user, denied.public, machine)) && m.status == Blocked;
  }
}
