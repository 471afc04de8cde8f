/**
 The mutable server (internal/server/server.go and internal/server/data.go).
 Every handler is proved to reach the state, and send the packets, that the
 step function of ServerModel names.
 */
module Servers {
  import opened Basics
  import opened Prefixes
  import opened Registry
  import opened Policy
  import opened Signed
  import opened Envelopes
  import opened Transcripts
  import PeerAnswers
  import States
  import M = ServerModel

  class Server {
    const cfg: M.Config
    const st: States.State
    var nonces: map<Bytes, Bytes>
    var endpoints: map<Bytes, Endpoint>
    var ipEndpoints: map<Ipv4, Endpoint>
    var flows: map<(Ipv4, Ipv4), nat>

    ghost predicate Valid()
      reads this, st, st.users, st.machines
    {
      st.Valid() && st.disk == cfg.disk && this !in st.Repr()
    }

    ghost function View(): M.ServerState
      reads this, st, st.users, st.machines, st.users.data, st.machines.data
      requires Valid()
    {
      M.ServerState(st.View(), nonces, endpoints, ipEndpoints, flows)
    }

    constructor (cfg: M.Config, st: States.State)
      requires st.Valid() && st.disk == cfg.disk
      ensures Valid() && View() == M.Started(st.View()) && this.cfg == cfg && this.st == st
    {
      this.cfg := cfg;
      this.st := st;
      nonces, endpoints, ipEndpoints, flows := map[], map[], map[], map[];
    }

    // Joining.

    method SendJoinReply(remote: Endpoint, result: Result<Status, Error>, vpnIP: Option<Ipv4>)
      returns (outs: seq<M.Output>)
      requires Valid()
      modifies this
      ensures Valid() && M.Step(View(), outs) == M.SendJoinReply(old(View()), remote, result, vpnIP)
    {
      if vpnIP.Some? {
        ipEndpoints := ipEndpoints[vpnIP.value := remote];
      }
      outs := [M.Send(remote, M.JoinReply(result, vpnIP))];
    }

    method HandleJoinRequest(req: M.JoinRequest, nonce: Option<Bytes>, remote: Endpoint) returns (outs: seq<M.Output>)
      requires Valid()
      modifies this, st.Repr()
      ensures Valid() && fresh(st.Repr() - old(st.Repr()))
      ensures M.Step(View(), outs) == M.HandleJoinRequest(cfg, old(View()), req, nonce, remote)
    {
      if req.user == [] || req.machine == [] || req.public == [] {
        outs := SendJoinReply(remote, Err(FieldsMissing), None);
        return;
      }
      endpoints := endpoints[JoinKey(req.user, req.machine) := remote];
      var u := st.GetUser(req.user);
      if u.None? {
        var r := st.RegisterJoin(req.user, req.machine, req.public, req.salt, req.verifier, req.desired);
        outs := SendJoinReply(remote, r, None);
        return;
      }
      if nonce.None? {
        return [];
      }
      nonces := nonces[JoinKey(req.user, req.machine) := nonce.value];
      outs := [M.Send(remote, M.Challenge(nonce.value))];
    }

    method MoveAddress(user: Name, machine: Name, desired: int) returns (r: Outcome)
      requires Valid()
      modifies st.Repr()
      ensures Valid() && fresh(st.Repr() - old(st.Repr()))
      ensures (st.View(), r) == M.MoveAddress(cfg, old(st.View()), user, machine, desired)
    {
      var ip := st.AllocateIP(cfg.subnet, desired);
      if ip.Err? {
        return Failed(ip.error);
      }
      r := st.SetMachineIP(user, machine, ip.value);
    }

    method EnsureInSubnet(user: Name, machine: Name)
      requires Valid()
      modifies st.Repr()
      ensures Valid() && fresh(st.Repr() - old(st.Repr()))
      ensures st.View() == M.EnsureInSubnet(cfg, old(st.View()), user, machine)
    {
      var m := st.GetMachine(user, machine);
      if m.None? || m.value.vpnIP.None? {
        return;
      }
      if Contains(cfg.subnet, m.value.vpnIP.value) {
        return;
      }
      var r := MoveAddress(user, machine, m.value.desired);
    }

    method RebindDesired(user: Name, machine: Name, desired: int)
      requires Valid()
      modifies st.Repr()
      ensures Valid() && fresh(st.Repr() - old(st.Repr()))
      ensures st.View() == M.RebindDesired(cfg, old(st.View()), user, machine, desired)
    {
      if desired == 0 {
        return;
      }
      var m := st.GetMachine(user, machine);
      if m.None? || m.value.vpnIP.None? {
        return;
      }
      if LastOctet(m.value.vpnIP.value) == desired {
        return;
      }
      var r := MoveAddress(user, machine, desired);
    }

    method Upkeep(user: Name, machine: Name, desired: int)
      requires Valid()
      modifies st.Repr()
      ensures Valid() && fresh(st.Repr() - old(st.Repr()))
      ensures st.View() == M.Upkeep(cfg, old(st.View()), user, machine, desired)
    {
      EnsureInSubnet(user, machine);
      RebindDesired(user, machine, desired);
    }

    method AutoApproveAdmin(user: Name, machine: Name) returns (approved: bool)
      requires Valid()
      modifies st.Repr()
      ensures Valid() && fresh(st.Repr() - old(st.Repr()))
      ensures (st.View(), approved) == M.AutoApproveAdmin(cfg, old(st.View()), user, machine)
    {
      if user != cfg.admin {
        return false;
      }
      var allowed := st.Allow(user, machine);
      if allowed.Failed? {
        return false;
      }
      var m := st.GetMachine(user, machine);
      var moved := MoveAddress(user, machine, if m.None? then 0 else m.value.desired);
      return moved.Done?;
    }

    /** The table part of an accepted proof. */
    method Join(msg: M.JoinProof) returns (r: Result<Status, Error>)
      requires Valid()
      modifies st.Repr()
      ensures Valid() && fresh(st.Repr() - old(st.Repr()))
      ensures (st.View(), r) == M.JoinTable(cfg, old(st.View()), msg)
    {
      r := st.RegisterJoin(msg.user, msg.machine, msg.public, [], [], msg.desired);
      if r.Err? {
        return;
      }
      Upkeep(msg.user, msg.machine, msg.desired);
      if r.value == Pending {
        var approved := AutoApproveAdmin(msg.user, msg.machine);
        if approved {
          r := Ok(Active);
        }
      }
    }

    /** The part of handleJoinProof after the proof has been verified. */
    method AdmitJoin(msg: M.JoinProof, remote: Endpoint) returns (outs: seq<M.Output>)
      requires Valid()
      modifies this, st.Repr()
      ensures Valid() && fresh(st.Repr() - old(st.Repr()))
      ensures M.Step(View(), outs) == M.AdmitJoin(cfg, old(View()), msg, remote)
    {
      endpoints := endpoints[JoinKey(msg.user, msg.machine) := remote];
      var r := Join(msg);
      if r.Err? {
        outs := SendJoinReply(remote, r, None);
        return;
      }
      var m := st.GetMachine(msg.user, msg.machine);
      outs := SendJoinReply(remote, r, if m.Some? then m.value.vpnIP else None);
    }

    method HandleJoinProof(msg: M.JoinProof, remote: Endpoint) returns (outs: seq<M.Output>)
      requires Valid()
      modifies this, st.Repr()
      ensures Valid() && fresh(st.Repr() - old(st.Repr()))
      ensures M.Step(View(), outs) == M.HandleJoinProof(cfg, old(View()), msg, remote)
    {
      var u := st.GetUser(msg.user);
      if u.None? {
        outs := SendJoinReply(remote, Err(UnknownUser), None);
        return;
      }
      var key := JoinKey(msg.user, msg.machine);
      var nonce := if key in nonces then Some(nonces[key]) else None;
      nonces := nonces - {key};
      if nonce.None? {
        outs := SendJoinReply(remote, Err(NoChallenge), None);
        return;
      }
      var expected := Proof(cfg.crypto.mac, u.value.verifier, nonce.value, msg.user, msg.machine, msg.public);
      if msg.proof != expected {
        outs := SendJoinReply(remote, Err(ProofRejected), None);
        return;
      }
      outs := AdmitJoin(msg, remote);
    }

    // Admin commands.

    method NotifyApprove(user: Name, machine: Name) returns (outs: seq<M.Output>)
      requires Valid()
      modifies this
      ensures Valid() && M.Step(View(), outs) == M.NotifyApprove(old(View()), user, machine)
    {
      var m := st.GetMachine(user, machine);
      if m.None? || m.value.vpnIP.None? {
        return [];
      }
      var key := JoinKey(user, machine);
      if key !in endpoints {
        return [];
      }
      outs := [M.Send(endpoints[key], M.ApproveNotify(m.value.vpnIP.value))];
      ipEndpoints := ipEndpoints[m.value.vpnIP.value := endpoints[key]];
    }

    method ApproveMachine(user: Name, machine: Name) returns (outs: seq<M.Output>, r: Outcome)
      requires Valid()
      modifies this, st.Repr()
      ensures Valid() && fresh(st.Repr() - old(st.Repr()))
      ensures M.AdminStep(View(), outs, r) == M.ApproveMachine(cfg, old(View()), user, machine)
    {
      outs, r := [], Done;
      var m := st.GetMachine(user, machine);
      if m.None? {
        return;
      }
      if m.value.vpnIP.None? {
        r := MoveAddress(user, machine, m.value.desired);
        if r.Failed? {
          return;
        }
      }
      outs := NotifyApprove(user, machine);
    }

    method AllowUser(user: Name, to: Name) returns (outs: seq<M.Output>, r: Outcome)
      requires Valid()
      modifies this, st.Repr()
      ensures Valid() && fresh(st.Repr() - old(st.Repr()))
      ensures M.AdminStep(View(), outs, r) == M.AllowUser(cfg, old(View()), user, to)
    {
      outs := [];
      var u := st.GetUser(user);
      if u.None? {
        return [], Failed(UserNotFound);
      }
      match u.value.status
      case Pending => r := st.Allow(user, []);
      case Blocked => r := st.Unblock(user, []);
      case Active => r := st.Grant(user, to);
    }

    method AllowMachine(user: Name, machine: Name, to: Name) returns (outs: seq<M.Output>, r: Outcome)
      requires Valid()
      modifies this, st.Repr()
      ensures Valid() && fresh(st.Repr() - old(st.Repr()))
      ensures M.AdminStep(View(), outs, r) == M.AllowMachine(cfg, old(View()), user, machine, to)
    {
      outs := [];
      var m := st.GetMachine(user, machine);
      if m.None? {
        return [], Failed(MachineNotFound);
      }
      match m.value.status
      case Pending =>
        r := st.Allow(user, machine);
        if r.Done? {
          outs, r := ApproveMachine(user, machine);
        }
      case Blocked => r := st.Unblock(user, machine);
      case Active => r := st.Grant(JoinKey(user, machine), to);
    }

    /** The loop of deny over the targets of a subject. */
    method RevokeAll(subject: Bytes) returns (r: Outcome)
      requires Valid()
      modifies st.Repr()
      ensures Valid() && fresh(st.Repr() - old(st.Repr()))
      ensures (st.View(), r) == M.RevokeAll(old(st.View()), cfg.disk, subject, GrantsOf(old(st.grants), subject))
    {
      var targets := st.GrantsOf(subject);
      for i := 0 to |targets|
        invariant Valid() && fresh(st.Repr() - old(st.Repr()))
        invariant M.RevokeAll(old(st.View()), cfg.disk, subject, targets) ==
                  M.RevokeAll(st.View(), cfg.disk, subject, targets[i..])
      {
        assert targets[i..][0] == targets[i] && targets[i..][1..] == targets[i + 1..];
        r := st.Revoke(subject, targets[i]);
        if r.Failed? {
          return;
        }
      }
      return Done;
    }

    method DenyRow(user: Name, machine: Name) returns (r: Outcome)
      requires Valid()
      modifies st.Repr()
      ensures Valid() && fresh(st.Repr() - old(st.Repr()))
      ensures (st.View(), r) == M.DenyRow(old(st.View()), cfg.disk, user, machine)
    {
      if machine == [] {
        var u := st.GetUser(user);
        if u.None? {
          return Failed(UserNotFound);
        }
        match u.value.status
        case Pending => r := st.Deny(user, []);
        case Blocked => r := Done;
        case Active => r := st.Block(user, []);
      } else {
        var m := st.GetMachine(user, machine);
        if m.None? {
          return Failed(MachineNotFound);
        }
        match m.value.status
        case Pending => r := st.Deny(user, machine);
        case Blocked => r := Done;
        case Active => r := st.Block(user, machine);
      }
    }

    method Deny(user: Name, machine: Name, to: Name) returns (r: Outcome)
      requires Valid()
      modifies st.Repr()
      ensures Valid() && fresh(st.Repr() - old(st.Repr()))
      ensures (st.View(), r) == M.ServerDeny(old(st.View()), cfg.disk, user, machine, to)
    {
      var subject := if machine == [] then user else JoinKey(user, machine);
      if to != [] {
        r := st.Revoke(subject, to);
        return;
      }
      r := RevokeAll(subject);
      if r.Failed? {
        return;
      }
      r := DenyRow(user, machine);
    }

    /** A message signed by the server. */
    method SendSigned(typ: byte, dst: Option<Ipv4>, payload: Bytes) returns (packet: M.Packet)
      ensures packet == M.ServerSigned(cfg, typ, dst, payload)
    {
      var body := MarshalSigned(SignedMessage(typ, ServerIP(cfg.subnet), dst, payload), cfg.crypto.Signer(cfg.signKey));
      packet := M.Wire(Envelope(typ, body));
    }

    method BroadcastPolicyChanged() returns (outs: seq<M.Output>)
      requires Valid()
      ensures outs == M.Broadcast(cfg, st.machines.Contents(), ipEndpoints)
    {
      var us, ms := st.Snapshot();
      outs := [];
      for i := 0 to ms.Length
        invariant ms[..] == st.machines.Contents()
        invariant outs == M.Broadcast(cfg, ms[..i], ipEndpoints)
      {
        assert ms[..i + 1][..i] == ms[..i];
        if ms[i].vpnIP.None? {
          continue;
        }
        if ms[i].vpnIP.value !in ipEndpoints {
          continue;
        }
        var packet := SendSigned(TYPE_POLICY_CHANGED, None, cfg.encodeStatus(ms[i].status));
        outs := outs + [M.Send(ipEndpoints[ms[i].vpnIP.value], packet)];
      }
      assert ms[..ms.Length] == ms[..];
    }

    method AdminCommand(command: M.Command, subject: Bytes, to: Name) returns (outs: seq<M.Output>, r: Outcome)
      requires Valid()
      modifies this, st.Repr()
      ensures Valid() && fresh(st.Repr() - old(st.Repr()))
      ensures M.AdminStep(View(), outs, r) == M.AdminCommand(cfg, old(View()), command, subject, to)
    {
      outs := [];
      var target := ParseTarget(subject);
      if target.Err? {
        return [], Failed(target.error);
      }
      var (user, machine) := target.value;
      if command == M.AllowCommand {
        if machine == [] {
          outs, r := AllowUser(user, to);
        } else {
          outs, r := AllowMachine(user, machine, to);
        }
      } else if command == M.DenyCommand {
        r := Deny(user, machine, to);
      } else {
        return [], Failed(UnknownCommand);
      }
      if r.Done? {
        var told := BroadcastPolicyChanged();
        outs := outs + told;
      }
    }

    // Signed messages.

    method VerifyMachine(m: SignedMessage, sig: Bytes) returns (r: Option<Machine>)
      requires Valid()
      ensures r == M.VerifyMachine(cfg, st.View(), m, sig)
    {
      if m.srcIP.None? {
        return None;
      }
      var row := st.FindMachineByIP(m.srcIP.value);
      if row.None? || !cfg.crypto.VerifySigned(m, sig, M.MachineKeys(row.value).0) {
        return None;
      }
      return row;
    }

    method AllowRelay(src: Machine, dst: Machine) returns (r: bool)
      requires Valid()
      ensures r == Policy.AllowRelay(cfg.admin, st.View(), src, dst)
    {
      if src.user == cfg.admin {
        return true;
      }
      if src.user == dst.user {
        return true;
      }
      if dst.user == cfg.admin {
        r := st.IsGranted(src.user, src.name, dst.name);
        return;
      }
      return false;
    }

    method NoteFlow(src: Ipv4, dst: Ipv4, now: nat)
      modifies `flows
      ensures flows == old(flows)[(src, dst) := now]
    {
      flows := flows[(src, dst) := now];
    }

    /** A lookup that deletes the entry it finds expired. */
    method HasRecentFlow(src: Ipv4, dst: Ipv4, now: nat) returns (r: bool)
      modifies `flows
      ensures r == M.RecentFlow(old(flows), src, dst, now)
      ensures flows == M.ForgetExpired(old(flows), src, dst, now)
    {
      if (dst, src) !in flows {
        assert flows - {(dst, src)} == flows;
        return false;
      }
      if now - flows[(dst, src)] > M.FLOW_TTL {
        flows := flows - {(dst, src)};
        return false;
      }
      return true;
    }

    method RelayData(src: Machine, srcIP: Ipv4, dstIP: Ipv4, raw: Bytes, now: nat) returns (outs: seq<M.Output>)
      requires Valid()
      modifies this
      ensures Valid() && M.Step(View(), outs) == M.RelayData(cfg, old(View()), src, srcIP, dstIP, raw, now)
    {
      var dst := st.FindMachineByIP(dstIP);
      if dst.None? || dst.value.status != Active {
        return [];
      }
      var allowed := AllowRelay(src, dst.value);
      if allowed {
        NoteFlow(srcIP, dstIP, now);
      } else {
        var recent := HasRecentFlow(srcIP, dstIP, now);
        if !recent {
          return [];
        }
      }
      outs := M.SendTo(ipEndpoints, dstIP, M.Wire(Envelope(TYPE_RELAY_DATA, raw)));
    }

    method LocalData(src: Machine, payload: Bytes) returns (outs: seq<M.Output>)
      requires Valid()
      ensures outs == M.LocalData(cfg, View(), src, payload)
    {
      var allowed := AllowRelay(src, ServerMachine(cfg.admin));
      if !allowed {
        return [];
      }
      var key := cfg.crypto.sharedKey(cfg.exchKey, M.MachineKeys(src).1);
      if key.None? {
        return [];
      }
      var plain := cfg.crypto.open(key.value, payload);
      if plain.None? {
        return [];
      }
      return [M.ToTun(plain.value)];
    }

    method PeerAnswerFor(src: Machine, target: Ipv4) returns (answer: PeerAnswers.PeerAnswer)
      requires Valid()
      ensures answer == M.PeerAnswerFor(cfg, View(), src, target)
    {
      answer := PeerAnswers.NOT_FOUND;
      var dst := st.FindMachineByIP(target);
      if dst.Some? && dst.value.status == Active {
        var canCall := AllowRelay(src, dst.value);
        var canCallBack := AllowRelay(dst.value, src);
        var (signPub, exchPub) := M.MachineKeys(dst.value);
        answer := PeerAnswers.PeerAnswer(true, false, src.status == Active && canCall, canCallBack, None,
                                         signPub, exchPub);
        if canCall && canCallBack && target in ipEndpoints {
          answer := answer.(hasAddr := true, addr := Some(ipEndpoints[target]));
        }
      }
    }

    method HandlePeerQuery(src: Machine, srcIP: Ipv4, payload: Bytes, remote: Endpoint) returns (outs: seq<M.Output>)
      requires Valid()
      ensures outs == M.PeerQuery(cfg, View(), src, srcIP, payload, remote)
    {
      var target := ParsePeerQuery(payload);
      if target.Err? {
        return [];
      }
      var answer := PeerAnswerFor(src, target.value);
      var encoded := PeerAnswers.MarshalPeerAnswer(answer);
      var packet := SendSigned(TYPE_PEER_QUERY_RPY, Some(srcIP), encoded);
      outs := M.SendTo(ipEndpoints, srcIP, packet);
      if answer.hasAddr {
        var intro := SendSigned(TYPE_PEER_INTRO, Some(target.value), cfg.encodeIntro(src.vpnIP, remote));
        outs := outs + M.SendTo(ipEndpoints, target.value, intro);
      }
    }

    method HandleAdminRequest(src: Machine, srcIP: Ipv4, payload: Bytes) returns (outs: seq<M.Output>)
      requires Valid()
      modifies this, st.Repr()
      ensures Valid() && fresh(st.Repr() - old(st.Repr()))
      ensures M.Step(View(), outs) == M.HandleAdminRequest(cfg, old(View()), src, srcIP, payload)
    {
      var req := cfg.decodeAdmin(payload);
      if req.None? {
        return [];
      }
      if req.value.command == M.UsersCommand {
        return M.SendTo(ipEndpoints, srcIP, M.AdminReply(true));
      }
      if src.user != cfg.admin {
        return M.SendTo(ipEndpoints, srcIP, M.AdminReply(false));
      }
      var r: Outcome;
      outs, r := AdminCommand(req.value.command, req.value.target, req.value.to);
      outs := outs + M.SendTo(ipEndpoints, srcIP, M.AdminReply(r.Done?));
    }

    method Dispatch(env: Envelope, m: SignedMessage, src: Machine, remote: Endpoint, now: nat)
      returns (outs: seq<M.Output>)
      requires Valid()
      modifies this, st.Repr()
      ensures Valid() && fresh(st.Repr() - old(st.Repr()))
      ensures M.Step(View(), outs) == M.Dispatch(cfg, old(View()), env, m, src, remote, now)
    {
      if m.srcIP.None? || m.dstIP.None? {
        return [];
      }
      var srcIP := m.srcIP.value;
      ipEndpoints := ipEndpoints[srcIP := remote];
      if env.typ == TYPE_RELAY_DATA {
        outs := RelayData(src, srcIP, m.dstIP.value, env.body, now);
      } else if env.typ == TYPE_DATA {
        outs := LocalData(src, m.payload);
      } else if env.typ == TYPE_PEER_QUERY {
        outs := HandlePeerQuery(src, srcIP, m.payload, remote);
      } else if env.typ == TYPE_MACHINE_LIST {
        outs := M.SendTo(ipEndpoints, srcIP, M.MachineListReply);
      } else if env.typ == TYPE_ADMIN_REQUEST {
        outs := HandleAdminRequest(src, srcIP, m.payload);
      } else {
        var packet := SendSigned(TYPE_KEEP_ALIVE, Some(srcIP), []);
        outs := [M.Send(remote, packet)];
      }
    }

    method HandleSigned(env: Envelope, remote: Endpoint, now: nat) returns (outs: seq<M.Output>)
      requires Valid()
      modifies this, st.Repr()
      ensures Valid() && fresh(st.Repr() - old(st.Repr()))
      ensures M.Step(View(), outs) == M.HandleSigned(cfg, old(View()), env, remote, now)
    {
      if !M.IsSignedType(env.typ) {
        return [];
      }
      var parsed := ParseSigned(env.body);
      if parsed.Err? {
        return [];
      }
      var (m, sig) := parsed.value;
      var src := VerifyMachine(m, sig);
      if src.None? {
        return [];
      }
      if M.IsDataPlane(env.typ) && src.value.status != Active {
        return [];
      }
      outs := Dispatch(env, m, src.value, remote, now);
    }

    // One event.

    method Handle(e: M.Timed) returns (outs: seq<M.Output>)
      requires Valid()
      modifies this, st.Repr()
      ensures Valid() && fresh(st.Repr() - old(st.Repr()))
      ensures M.Step(View(), outs) == M.ServerStep(cfg, old(View()), e)
    {
      match e.event
      case JoinRequestEvent(req, nonce, remote) =>
        outs := HandleJoinRequest(req, nonce, remote);
      case JoinProofEvent(msg, remote) =>
        outs := HandleJoinProof(msg, remote);
      case SignedEvent(env, remote) =>
        outs := HandleSigned(env, remote, e.at);
      case AdminEvent(command, subject, to) =>
        var r: Outcome;
        outs, r := AdminCommand(command, subject, to);
      case ReloadEvent(salt, verifier) =>
        var r := st.SetVerifier(cfg.admin, salt, verifier);
        outs := [];
    }
  }
}
