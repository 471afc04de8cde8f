/** The endpoints the server answers to, over whole runs, against the history of joins, pushes and messages. */
module Endpoints {
  import opened Basics
  import opened Registry
  import opened Signed
  import opened Envelopes
  import opened ServerModel
  import opened ServerFrames

  // What was said last.

  function Lookup<K, V>(m: map<K, V>, key: K): Option<V> {
    if key in m then Some(m[key]) else None
  }

  /** Event `i` said `ep`, and nothing was said between `i` and `n`. */
  predicate LastSaid(said: nat -> Option<Endpoint>, n: nat, i: nat, ep: Endpoint) {
    i < n && said(i) == Some(ep) && forall j :: i < j < n ==> said(j).None?
  }

  ghost predicate Follows(value: nat -> Option<Endpoint>, said: nat -> Option<Endpoint>, n: nat) {
    forall i: nat :: i < n ==> value(i + 1) == if said(i).Some? then said(i) else value(i)
  }

  /** A value that follows what is said, and stays while nothing is, is what was said last. */
  lemma {:induction false} LastWins(value: nat -> Option<Endpoint>, said: nat -> Option<Endpoint>, n: nat, ep: Endpoint)
    requires value(0).None? && Follows(value, said, n)
    ensures value(n) == Some(ep) <==> exists i :: LastSaid(said, n, i, ep)
  {
    if n > 0 {
      var m: nat := n - 1;
      LastWins(value, said, m, ep);
      assert value(m + 1) == value(n);
      if said(m) == Some(ep) {
        assert LastSaid(said, n, m, ep);
      } else if said(m).None? {
        if i: nat :| LastSaid(said, m, i, ep) {
          assert LastSaid(said, n, i, ep);
        }
        assert forall i :: LastSaid(said, n, i, ep) ==> LastSaid(said, m, i, ep);
      } else {
        assert forall i :: LastSaid(said, n, i, ep) ==> i == m;
      }
    }
  }

  // Endpoints by join key.

  /** From where event `e` joined under `key`: a join request with all its fields, or an accepted proof. */
  function JoinedFrom(cfg: Config, s: ServerState, e: Event, key: Bytes): Option<Endpoint> {
    match e
    case JoinRequestEvent(req, _, remote) =>
      if JoinKey(req.user, req.machine) == key && req.user != [] && req.machine != [] && req.public != []
      then Some(remote) else None
    case JoinProofEvent(msg, remote) =>
      if JoinKey(msg.user, msg.machine) == key && ProofAccepted(cfg, s, msg) then Some(remote) else None
    case _ => None
  }

  lemma RequestEndpoints(cfg: Config, s: ServerState, req: JoinRequest, nonce: Option<Bytes>, remote: Endpoint)
    ensures HandleJoinRequest(cfg, s, req, nonce, remote).state.endpoints ==
            if req.user == [] || req.machine == [] || req.public == [] then s.endpoints
            else s.endpoints[JoinKey(req.user, req.machine) := remote]
  {
  }

  lemma ProofEndpoints(cfg: Config, s: ServerState, msg: JoinProof, remote: Endpoint)
    ensures HandleJoinProof(cfg, s, msg, remote).state.endpoints ==
            if ProofAccepted(cfg, s, msg) then s.endpoints[JoinKey(msg.user, msg.machine) := remote] else s.endpoints
  {
  }

  lemma StepEndpoint(cfg: Config, s: ServerState, e: Timed, key: Bytes)
    ensures var from := JoinedFrom(cfg, s, e.event, key);
            Lookup(ServerStep(cfg, s, e).state.endpoints, key) ==
            if from.Some? then from else Lookup(s.endpoints, key)
  {
    match e.event
    case JoinRequestEvent(req, nonce, remote) => RequestEndpoints(cfg, s, req, nonce, remote);
    case JoinProofEvent(msg, remote) => ProofEndpoints(cfg, s, msg, remote);
    case SignedEvent(env, remote) => SignedFrame(cfg, s, env, remote, e.at);
    case AdminEvent(command, subject, to) => AdminCommandFrame(cfg, s, command, subject, to);
    case ReloadEvent(salt, verifier) =>
  }

  /** From where event `i` of the run joined under `key`. */
  function JoinedAt(cfg: Config, t: Table, run: seq<Timed>, key: Bytes): nat -> Option<Endpoint> {
    (i: nat) => if i < |run| then JoinedFrom(cfg, Before(cfg, t, run, i), run[i].event, key) else None
  }

  function EndpointAt(cfg: Config, t: Table, run: seq<Timed>, key: Bytes): nat -> Option<Endpoint> {
    (i: nat) => if i <= |run| then Lookup(Before(cfg, t, run, i).endpoints, key) else None
  }

  lemma EndpointFollows(cfg: Config, t: Table, run: seq<Timed>, key: Bytes, i: nat)
    requires i < |run|
    ensures var said, value := JoinedAt(cfg, t, run, key), EndpointAt(cfg, t, run, key);
            value(i + 1) == if said(i).Some? then said(i) else value(i)
  {
    BeforeStep(cfg, t, run, i);
    StepEndpoint(cfg, Before(cfg, t, run, i), run[i], key);
  }

  lemma EndpointFollowsAll(cfg: Config, t: Table, run: seq<Timed>, key: Bytes)
    ensures Follows(EndpointAt(cfg, t, run, key), JoinedAt(cfg, t, run, key), |run|)
  {
    forall i: nat | i < |run| {
      EndpointFollows(cfg, t, run, key, i);
    }
  }

  /** The endpoint kept under a join key is where the last join under that key came from. */
  lemma EndpointIsLastJoin(cfg: Config, t: Table, run: seq<Timed>, key: Bytes, ep: Endpoint)
    ensures var m := After(cfg, t, run).endpoints;
            key in m && m[key] == ep <==> exists i :: LastSaid(JoinedAt(cfg, t, run, key), |run|, i, ep)
  {
    EndpointFollowsAll(cfg, t, run, key);
    LastWins(EndpointAt(cfg, t, run, key), JoinedAt(cfg, t, run, key), |run|, ep);
    assert run[..|run|] == run;
  }

  // Endpoints by address.

  ghost predicate Pushed(outs: seq<Output>, ip: Ipv4) {
    exists ep :: Send(ep, ApproveNotify(ip)) in outs
  }

  ghost predicate Replied(outs: seq<Output>, ip: Ipv4) {
    exists ep, result :: Send(ep, JoinReply(result, Some(ip))) in outs
  }

  /** A signed message the server accepts, with both addresses, from `ip`. */
  predicate SpokenBy(cfg: Config, t: Table, env: Envelope, ip: Ipv4) {
    var auth := Authenticated(cfg, t, env);
    auth.Some? && auth.value.0.srcIP == Some(ip) && auth.value.0.dstIP.Some?
  }

  /** Where `ip` was heard of: an approval of it was pushed there, a join reply naming it went there, or it spoke. */
  ghost function HeardFrom(cfg: Config, s: ServerState, e: Timed, ip: Ipv4): Option<Endpoint> {
    var outs := ServerStep(cfg, s, e).outs;
    if Pushed(outs, ip) then
      var ep :| Send(ep, ApproveNotify(ip)) in outs;
      Some(ep)
    else if Replied(outs, ip) then
      var ep, result :| Send(ep, JoinReply(result, Some(ip))) in outs;
      Some(ep)
    else if e.event.SignedEvent? && SpokenBy(cfg, s.table, e.event.env, ip) then Some(e.event.remote)
    else None
  }

  ghost predicate NoJoinReply(outs: seq<Output>) {
    forall o :: o in outs ==> !(o.Send? && o.packet.JoinReply?)
  }

  /** Addresses named in pushed approvals take the endpoint pushed to, the others keep theirs. */
  ghost predicate PushFrame(m: map<Ipv4, Endpoint>, m': map<Ipv4, Endpoint>, outs: seq<Output>) {
    && NoJoinReply(outs)
    && (forall ip, ep :: Send(ep, ApproveNotify(ip)) in outs ==> Lookup(m', ip) == Some(ep))
    && (forall ip :: !Pushed(outs, ip) ==> Lookup(m', ip) == Lookup(m, ip))
  }

  ghost predicate PushesNothing(outs: seq<Output>) {
    forall o :: o in outs ==> !(o.Send? && (o.packet.JoinReply? || o.packet.ApproveNotify?))
  }

  lemma {:induction false} BroadcastPushesNothing(cfg: Config, ms: seq<Machine>, ipEndpoints: map<Ipv4, Endpoint>)
    ensures PushesNothing(Broadcast(cfg, ms, ipEndpoints))
  {
    if ms != [] {
      BroadcastPushesNothing(cfg, ms[..|ms| - 1], ipEndpoints);
    }
  }

  lemma PushFrameExtends(m: map<Ipv4, Endpoint>, m': map<Ipv4, Endpoint>, outs: seq<Output>, more: seq<Output>)
    requires PushFrame(m, m', outs) && PushesNothing(more)
    ensures PushFrame(m, m', outs + more)
  {
    forall ip: Ipv4
      ensures Pushed(outs + more, ip) <==> Pushed(outs, ip)
    {
    }
  }

  lemma NotifyPushes(s: ServerState, user: Name, machine: Name)
    ensures var step := NotifyApprove(s, user, machine);
            PushFrame(s.ipEndpoints, step.state.ipEndpoints, step.outs)
  {
    var step := NotifyApprove(s, user, machine);
    if step.outs != [] {
      var o := step.outs[0];
      assert Send(o.to, ApproveNotify(o.packet.vpnIP')) in step.outs;
    }
  }

  lemma ApprovePushes(cfg: Config, s: ServerState, user: Name, machine: Name)
    ensures var step := ApproveMachine(cfg, s, user, machine);
            PushFrame(s.ipEndpoints, step.state.ipEndpoints, step.outs)
  {
    var row := GetMachine(s.table, user, machine);
    if row.Some? {
      var t := if row.value.vpnIP.None? then MoveAddress(cfg, s.table, user, machine, row.value.desired).0
               else s.table;
      NotifyPushes(s.(table := t), user, machine);
    }
  }

  lemma AllowPushes(cfg: Config, s: ServerState, user: Name, machine: Name, to: Name)
    ensures var step := ServerAllow(cfg, s, user, machine, to);
            PushFrame(s.ipEndpoints, step.state.ipEndpoints, step.outs)
  {
    var m := GetMachine(s.table, user, machine);
    if machine != [] && m.Some? && m.value.status == Pending {
      ApprovePushes(cfg, WithTable(s, Allow(s.table, cfg.disk, user, machine)).state, user, machine);
    }
  }

  lemma CommandPushes(cfg: Config, s: ServerState, command: Command, subject: Bytes, to: Name)
    ensures var step := AdminCommand(cfg, s, command, subject, to);
            PushFrame(s.ipEndpoints, step.state.ipEndpoints, step.outs)
  {
    if ParseTarget(subject).Ok? {
      var (user, machine) := ParseTarget(subject).value;
      AllowPushes(cfg, s, user, machine, to);
      var step := if command == AllowCommand then ServerAllow(cfg, s, user, machine, to)
                  else WithTable(s, ServerDeny(s.table, cfg.disk, user, machine, to));
      var more := Broadcast(cfg, step.state.table.machines, step.state.ipEndpoints);
      BroadcastPushesNothing(cfg, step.state.table.machines, step.state.ipEndpoints);
      PushFrameExtends(s.ipEndpoints, step.state.ipEndpoints, step.outs, more);
    }
  }

  lemma RequestPushes(cfg: Config, s: ServerState, src: Machine, srcIP: Ipv4, payload: Bytes)
    ensures var step := HandleAdminRequest(cfg, s, src, srcIP, payload);
            PushFrame(s.ipEndpoints, step.state.ipEndpoints, step.outs)
  {
    var req := cfg.decodeAdmin(payload);
    if req.Some? && req.value.command != UsersCommand && src.user == cfg.admin {
      var step := AdminCommand(cfg, s, req.value.command, req.value.target, req.value.to);
      CommandPushes(cfg, s, req.value.command, req.value.target, req.value.to);
      PushFrameExtends(s.ipEndpoints, step.state.ipEndpoints, step.outs,
                       SendTo(step.state.ipEndpoints, srcIP, AdminReply(step.outcome.Done?)));
    }
  }

  lemma RelayPushesNothing(cfg: Config, s: ServerState, src: Machine, srcIP: Ipv4, dstIP: Ipv4, raw: Bytes, now: nat)
    ensures var step := RelayData(cfg, s, src, srcIP, dstIP, raw, now);
            PushesNothing(step.outs) && step.state.ipEndpoints == s.ipEndpoints
  {
  }

  lemma OthersPushNothing(cfg: Config, s: ServerState, env: Envelope, m: SignedMessage, src: Machine, remote: Endpoint,
                          now: nat)
    requires m.srcIP.Some? && m.dstIP.Some? && env.typ != TYPE_ADMIN_REQUEST
    ensures var step := Dispatch(cfg, s, env, m, src, remote, now);
            PushesNothing(step.outs) && step.state.ipEndpoints == s.ipEndpoints[m.srcIP.value := remote]
  {
    RelayPushesNothing(cfg, RememberIPEndpoint(s, m.srcIP.value, remote), src, m.srcIP.value, m.dstIP.value, env.body,
                       now);
  }

  lemma DispatchPushes(cfg: Config, s: ServerState, env: Envelope, m: SignedMessage, src: Machine, remote: Endpoint,
                       now: nat)
    requires m.srcIP.Some? && m.dstIP.Some?
    ensures var step := Dispatch(cfg, s, env, m, src, remote, now);
            PushFrame(s.ipEndpoints[m.srcIP.value := remote], step.state.ipEndpoints, step.outs)
  {
    if env.typ == TYPE_ADMIN_REQUEST {
      RequestPushes(cfg, RememberIPEndpoint(s, m.srcIP.value, remote), src, m.srcIP.value, m.payload);
    } else {
      OthersPushNothing(cfg, s, env, m, src, remote, now);
    }
  }

  lemma SignedPushes(cfg: Config, s: ServerState, env: Envelope, remote: Endpoint, now: nat, ip: Ipv4)
    ensures var step := HandleSigned(cfg, s, env, remote, now);
            && NoJoinReply(step.outs)
            && (forall ep :: Send(ep, ApproveNotify(ip)) in step.outs ==>
                  Lookup(step.state.ipEndpoints, ip) == Some(ep))
            && (!Pushed(step.outs, ip) ==>
                  Lookup(step.state.ipEndpoints, ip) ==
                  if SpokenBy(cfg, s.table, env, ip) then Some(remote) else Lookup(s.ipEndpoints, ip))
  {
    var auth := Authenticated(cfg, s.table, env);
    if auth.Some? && auth.value.0.srcIP.Some? && auth.value.0.dstIP.Some? {
      DispatchPushes(cfg, s, env, auth.value.0, auth.value.1, remote, now);
    }
  }

  lemma ProofReplies(cfg: Config, s: ServerState, msg: JoinProof, remote: Endpoint, ip: Ipv4)
    ensures var step := HandleJoinProof(cfg, s, msg, remote);
            && (forall o :: o in step.outs ==> o.Send? && o.to == remote && o.packet.JoinReply?)
            && Lookup(step.state.ipEndpoints, ip) ==
               if Replied(step.outs, ip) then Some(remote) else Lookup(s.ipEndpoints, ip)
  {
    var outs := HandleJoinProof(cfg, s, msg, remote).outs;
    var o := outs[0];
    assert outs == [Send(remote, JoinReply(o.packet.result, o.packet.vpnIP))];
    assert Replied(outs, ip) <==> o.packet.vpnIP == Some(ip);
  }

  lemma StepHeard(cfg: Config, s: ServerState, e: Timed, ip: Ipv4)
    ensures var from := HeardFrom(cfg, s, e, ip);
            Lookup(ServerStep(cfg, s, e).state.ipEndpoints, ip) ==
            if from.Some? then from else Lookup(s.ipEndpoints, ip)
  {
    match e.event
    case JoinRequestEvent(req, nonce, remote) =>
    case JoinProofEvent(msg, remote) =>
      ProofReplies(cfg, s, msg, remote, ip);
    case SignedEvent(env, remote) =>
      SignedPushes(cfg, s, env, remote, e.at, ip);
    case AdminEvent(command, subject, to) => CommandPushes(cfg, s, command, subject, to);
    case ReloadEvent(salt, verifier) =>
  }

  /** Where event `i` of the run heard of `ip`. */
  ghost function HeardAt(cfg: Config, t: Table, run: seq<Timed>, ip: Ipv4): nat -> Option<Endpoint> {
    (i: nat) => if i < |run| then HeardFrom(cfg, Before(cfg, t, run, i), run[i], ip) else None
  }

  function IPEndpointAt(cfg: Config, t: Table, run: seq<Timed>, ip: Ipv4): nat -> Option<Endpoint> {
    (i: nat) => if i <= |run| then Lookup(Before(cfg, t, run, i).ipEndpoints, ip) else None
  }

  lemma IPEndpointFollows(cfg: Config, t: Table, run: seq<Timed>, ip: Ipv4, i: nat)
    requires i < |run|
    ensures var said, value := HeardAt(cfg, t, run, ip), IPEndpointAt(cfg, t, run, ip);
            value(i + 1) == if said(i).Some? then said(i) else value(i)
  {
    BeforeStep(cfg, t, run, i);
    StepHeard(cfg, Before(cfg, t, run, i), run[i], ip);
  }

  lemma IPEndpointFollowsAll(cfg: Config, t: Table, run: seq<Timed>, ip: Ipv4)
    ensures Follows(IPEndpointAt(cfg, t, run, ip), HeardAt(cfg, t, run, ip), |run|)
  {
    forall i: nat | i < |run| {
      IPEndpointFollows(cfg, t, run, ip, i);
    }
  }

  /** The endpoint kept for an address is where it was last heard of. */
  lemma EndpointIsLastHeard(cfg: Config, t: Table, run: seq<Timed>, ip: Ipv4, ep: Endpoint)
    ensures var m := After(cfg, t, run).ipEndpoints;
            ip in m && m[ip] == ep <==> exists i :: LastSaid(HeardAt(cfg, t, run, ip), |run|, i, ep)
  {
    IPEndpointFollowsAll(cfg, t, run, ip);
    LastWins(IPEndpointAt(cfg, t, run, ip), HeardAt(cfg, t, run, ip), |run|, ep);
    assert run[..|run|] == run;
  }
}
