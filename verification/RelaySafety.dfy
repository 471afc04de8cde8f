/**
 The relay over whole runs: the flow table against the full log of allowed packets, and what is
 forwarded.  Flows are keyed by address, so the claims are per address pair.
 */
module RelaySafety {
  import opened Basics
  import opened Registry
  import opened Policy
  import opened Signed
  import opened Envelopes
  import opened ServerModel
  import opened ServerFrames
  import opened Signatures
  import opened Authentication

  /** A relay datagram from an active machine to an active machine, and whether policy allows the direction. */
  datatype RelayRequest = RelayRequest(src: Machine, dst: Machine, srcIP: Ipv4, dstIP: Ipv4, raw: Bytes, allowed: bool)

  function RequestOf(cfg: Config, t: Table, e: Event): Option<RelayRequest> {
    if !e.SignedEvent? || e.env.typ != TYPE_RELAY_DATA then None
    else
      match Authenticated(cfg, t, e.env)
      case None => None
      case Some((m, src)) =>
        if m.srcIP.None? || m.dstIP.None? then None
        else
          match FindMachineByIP(t, m.dstIP.value)
          case None => None
          case Some(dst) =>
            if dst.status != Active then None
            else Some(RelayRequest(src, dst, m.srcIP.value, m.dstIP.value, e.env.body,
                                   AllowRelay(cfg.admin, t, src, dst)))
  }

  /**
   A datagram is a relay request exactly when it has the relay type and 73 bytes or more, both its addresses are bound
   to active machines, and it is signed by the machine bound to its source.
   */
  lemma RequestIsAuthenticIff(cfg: Config, t: Table, e: Event, r: RelayRequest)
    ensures RequestOf(cfg, t, e) == Some(r) <==>
            && e.SignedEvent? && e.env.typ == 0x12 && r.raw == e.env.body && |r.raw| >= 73
            && r.srcIP == FromBe32(r.raw[1..5]) && r.dstIP == FromBe32(r.raw[5..9])
            && FindMachineByIP(t, r.srcIP) == Some(r.src) && r.src.status == Active
            && FindMachineByIP(t, r.dstIP) == Some(r.dst) && r.dst.status == Active
            && SignedByMachine(cfg.crypto, r.src, r.raw)
            && (r.allowed <==> MayCall(cfg.admin, t, r.src, r.dst))
  {
    if e.SignedEvent? && |e.env.body| >= 73 {
      MessageFields(e.env.body);
      AuthenticatedIff(cfg, t, e.env, ParseSigned(e.env.body).value.0, r.src);
      AllowRelayIff(cfg.admin, t, r.src, r.dst);
    }
    if RequestOf(cfg, t, e).Some? {
      var (m, src) := Authenticated(cfg, t, e.env).value;
      AuthenticatedIff(cfg, t, e.env, m, src);
      MessageFields(e.env.body);
      AllowRelayIff(cfg.admin, t, RequestOf(cfg, t, e).value.src, RequestOf(cfg, t, e).value.dst);
    }
  }

  /** Both ends are registered, active and bound to the addresses, and the body is signed by the source. */
  lemma RequestIsAuthentic(cfg: Config, t: Table, e: Event)
    requires RequestOf(cfg, t, e).Some?
    ensures var r := RequestOf(cfg, t, e).value;
            && r.src in t.machines && r.src.vpnIP == Some(r.srcIP) && r.src.status == Active
            && r.dst in t.machines && r.dst.vpnIP == Some(r.dstIP) && r.dst.status == Active
            && r.raw == e.env.body && |r.raw| >= 73 && SignedByMachine(cfg.crypto, r.src, r.raw)
            && r.srcIP == FromBe32(r.raw[1..5]) && r.dstIP == FromBe32(r.raw[5..9])
            && (r.allowed <==> MayCall(cfg.admin, t, r.src, r.dst))
  {
    var r := RequestOf(cfg, t, e).value;
    RequestIsAuthenticIff(cfg, t, e, r);
    FoundByIP(t, r.srcIP);
    FoundByIP(t, r.dstIP);
  }

  // The full log of allowed packets.

  datatype Entry = Entry(src: Ipv4, dst: Ipv4, at: nat)

  function LogEntry(cfg: Config, t: Table, e: Timed): seq<Entry> {
    match RequestOf(cfg, t, e.event)
    case None => []
    case Some(r) => if r.allowed then [Entry(r.srcIP, r.dstIP, e.at)] else []
  }

  /** Every packet accepted under the policy so far; nothing is overwritten or dropped. */
  function Log(cfg: Config, t: Table, run: seq<Timed>): seq<Entry> {
    if run == [] then []
    else
      var front := run[..|run| - 1];
      Log(cfg, t, front) + LogEntry(cfg, After(cfg, t, front).table, run[|run| - 1])
  }

  /** An entry for the pair is at most 60 seconds old. */
  ghost predicate LoggedSince(log: seq<Entry>, src: Ipv4, dst: Ipv4, now: nat) {
    exists x :: x in log && x.src == src && x.dst == dst && now - x.at <= 60_000_000_000
  }

  /** From `now` on the flow table gives the log's answer for every pair. */
  ghost predicate FlowsAgree(flows: map<(Ipv4, Ipv4), nat>, log: seq<Entry>, now: nat) {
    forall src, dst, later: nat :: now <= later ==>
      (RecentFlow(flows, src, dst, later) <==> LoggedSince(log, dst, src, later))
  }

  /** What event `j` of the run adds to the log. */
  function EntryAt(cfg: Config, t: Table, run: seq<Timed>, j: nat): seq<Entry>
    requires j < |run|
  {
    LogEntry(cfg, Before(cfg, t, run, j).table, run[j])
  }

  lemma LogStep(cfg: Config, t: Table, run: seq<Timed>)
    requires run != []
    ensures Log(cfg, t, run) == Log(cfg, t, run[..|run| - 1]) + EntryAt(cfg, t, run, |run| - 1)
  {
  }

  lemma EntryAtFront(cfg: Config, t: Table, run: seq<Timed>, j: nat)
    requires j + 1 < |run|
    ensures EntryAt(cfg, t, run[..|run| - 1], j) == EntryAt(cfg, t, run, j)
  {
    assert run[..|run| - 1][..j] == run[..j];
  }

  /** An entry that the last event did not add was there before. */
  lemma LogBefore(cfg: Config, t: Table, run: seq<Timed>, x: Entry)
    requires run != [] && x in Log(cfg, t, run) && x !in EntryAt(cfg, t, run, |run| - 1)
    ensures x in Log(cfg, t, run[..|run| - 1])
  {
    LogStep(cfg, t, run);
  }

  lemma {:induction false} LogSource(cfg: Config, t: Table, run: seq<Timed>, x: Entry) returns (j: nat)
    requires x in Log(cfg, t, run)
    ensures j < |run| && x in EntryAt(cfg, t, run, j)
  {
    if x in EntryAt(cfg, t, run, |run| - 1) {
      j := |run| - 1;
    } else {
      LogBefore(cfg, t, run, x);
      j := LogSource(cfg, t, run[..|run| - 1], x);
      EntryAtFront(cfg, t, run, j);
    }
  }

  lemma {:induction false} LogHas(cfg: Config, t: Table, run: seq<Timed>, x: Entry, j: nat)
    requires j < |run| && x in EntryAt(cfg, t, run, j)
    ensures x in Log(cfg, t, run)
  {
    LogStep(cfg, t, run);
    if j == |run| - 1 {
    } else {
      EntryAtFront(cfg, t, run, j);
      LogHas(cfg, t, run[..|run| - 1], x, j);
    }
  }

  /** Event `j` of the run is a request that the policy allows, and `x` records it. */
  ghost predicate AllowedAt(cfg: Config, t: Table, run: seq<Timed>, j: nat, x: Entry)
    requires j < |run|
  {
    var before := Before(cfg, t, run, j).table;
    var request := RequestOf(cfg, before, run[j].event);
    request.Some? && MayCall(cfg.admin, before, request.value.src, request.value.dst) &&
    x == Entry(request.value.srcIP, request.value.dstIP, run[j].at)
  }

  lemma EntryIsAllowed(cfg: Config, t: Table, run: seq<Timed>, j: nat, x: Entry)
    requires j < |run|
    ensures x in EntryAt(cfg, t, run, j) <==> AllowedAt(cfg, t, run, j, x)
  {
    if RequestOf(cfg, Before(cfg, t, run, j).table, run[j].event).Some? {
      RequestIsAuthentic(cfg, Before(cfg, t, run, j).table, run[j].event);
    }
  }

  /** The entries of the log are the requests of the run that the policy allows. */
  lemma LogIsTheAllowedRequests(cfg: Config, t: Table, run: seq<Timed>, x: Entry)
    ensures x in Log(cfg, t, run) <==> exists j :: 0 <= j < |run| && AllowedAt(cfg, t, run, j, x)
  {
    if x in Log(cfg, t, run) {
      var j := LogSource(cfg, t, run, x);
      EntryIsAllowed(cfg, t, run, j, x);
    }
    forall j | 0 <= j < |run| && AllowedAt(cfg, t, run, j, x)
      ensures x in Log(cfg, t, run)
    {
      EntryIsAllowed(cfg, t, run, j, x);
      LogHas(cfg, t, run, x, j);
    }
  }

  // Steps.

  function FlowsAfter(cfg: Config, s: ServerState, e: Timed): map<(Ipv4, Ipv4), nat> {
    match RequestOf(cfg, s.table, e.event)
    case None => s.flows
    case Some(r) =>
      if r.allowed then s.flows[(r.srcIP, r.dstIP) := e.at] else ForgetExpired(s.flows, r.srcIP, r.dstIP, e.at)
  }

  /** A relay datagram that is not a request changes no flow and sends nothing; a request is handed to RelayData. */
  lemma SignedRelay(cfg: Config, s: ServerState, env: Envelope, remote: Endpoint, now: nat)
    requires env.typ == TYPE_RELAY_DATA
    ensures var request := RequestOf(cfg, s.table, SignedEvent(env, remote));
            var step := HandleSigned(cfg, s, env, remote, now);
            if request.None? then step.state.flows == s.flows && step.outs == []
            else
              var r := request.value;
              step == RelayData(cfg, RememberIPEndpoint(s, r.srcIP, remote), r.src, r.srcIP, r.dstIP, r.raw, now)
  {
  }

  lemma SignedFlows(cfg: Config, s: ServerState, env: Envelope, remote: Endpoint, now: nat)
    requires env.typ == TYPE_RELAY_DATA
    ensures HandleSigned(cfg, s, env, remote, now).state.flows ==
            FlowsAfter(cfg, s, Timed(SignedEvent(env, remote), now))
  {
    SignedRelay(cfg, s, env, remote, now);
  }

  /** Only relay requests touch the flow table. */
  lemma StepFlows(cfg: Config, s: ServerState, e: Timed)
    ensures ServerStep(cfg, s, e).state.flows == FlowsAfter(cfg, s, e)
  {
    match e.event
    case JoinRequestEvent(req, nonce, remote) =>
      JoinFrame(cfg, s, req, nonce, JoinProof([], [], [], [], 0), remote);
    case JoinProofEvent(msg, remote) =>
      JoinFrame(cfg, s, JoinRequest([], [], [], [], [], 0), None, msg, remote);
    case SignedEvent(env, remote) =>
      if env.typ == TYPE_RELAY_DATA {
        SignedFlows(cfg, s, env, remote, e.at);
      } else {
        SignedFrame(cfg, s, env, remote, e.at);
      }
    case AdminEvent(command, subject, to) =>
      AdminCommandFrame(cfg, s, command, subject, to);
    case ReloadEvent(salt, verifier) =>
  }

  /** A denied request that meets an entry older than 60 seconds deletes it, and no other. */
  lemma ExpiredFlowIsForgotten(cfg: Config, s: ServerState, e: Timed, r: RelayRequest)
    requires RequestOf(cfg, s.table, e.event) == Some(r) && !r.allowed && (r.dstIP, r.srcIP) in s.flows
    ensures ServerStep(cfg, s, e).state.flows ==
            if e.at - s.flows[(r.dstIP, r.srcIP)] > 60_000_000_000 then s.flows - {(r.dstIP, r.srcIP)} else s.flows
  {
    StepFlows(cfg, s, e);
  }

  lemma FlowsAgreeStep(flows: map<(Ipv4, Ipv4), nat>, log: seq<Entry>, now: nat, src: Ipv4, dst: Ipv4, at: nat)
    requires FlowsAgree(flows, log, now) && now <= at
    requires forall x :: x in log ==> x.at <= at
    ensures FlowsAgree(flows[(src, dst) := at], log + [Entry(src, dst, at)], at)
    ensures FlowsAgree(ForgetExpired(flows, src, dst, at), log, at)
  {
    var flows', log' := flows[(src, dst) := at], log + [Entry(src, dst, at)];
    forall a, b, later: nat | at <= later
      ensures RecentFlow(flows', a, b, later) <==> LoggedSince(log', b, a, later)
    {
      assert RecentFlow(flows, a, b, later) <==> LoggedSince(log, b, a, later);
      assert Entry(src, dst, at) in log';
      if LoggedSince(log, b, a, later) {
        var x :| x in log && x.src == b && x.dst == a && later - x.at <= 60_000_000_000;
        assert x in log';
      }
    }
    forall a, b, later: nat | at <= later
      ensures RecentFlow(ForgetExpired(flows, src, dst, at), a, b, later) <==> LoggedSince(log, b, a, later)
    {
      assert RecentFlow(flows, a, b, later) <==> LoggedSince(log, b, a, later);
    }
  }

  function Now(run: seq<Timed>): nat {
    if run == [] then 0 else run[|run| - 1].at
  }

  /** The flow table refines the full log, despite overwriting and lazy deletion. */
  lemma {:induction false} FlowsRefineLog(cfg: Config, t: Table, run: seq<Timed>)
    requires Monotone(run)
    ensures FlowsAgree(After(cfg, t, run).flows, Log(cfg, t, run), Now(run))
    ensures forall x :: x in Log(cfg, t, run) ==> x.at <= Now(run)
  {
    if run == [] {
    } else {
      var front, e := run[..|run| - 1], run[|run| - 1];
      var s := After(cfg, t, front);
      FlowsRefineLog(cfg, t, front);
      StepFlows(cfg, s, e);
      assert Now(front) <= e.at;
      var r := RequestOf(cfg, s.table, e.event);
      if r.Some? {
        FlowsAgreeStep(s.flows, Log(cfg, t, front), Now(front), r.value.srcIP, r.value.dstIP, e.at);
      }
    }
  }

  // What is forwarded.

  /** The packets the relay may send for a request in state `s`. */
  function Forwarded(s: ServerState, r: RelayRequest, now: nat): seq<Output> {
    if r.allowed || RecentFlow(s.flows, r.srcIP, r.dstIP, now)
    then SendTo(s.ipEndpoints, r.dstIP, Wire(Envelope(TYPE_RELAY_DATA, r.raw)))
    else []
  }

  lemma SignedForwards(cfg: Config, s: ServerState, env: Envelope, remote: Endpoint, now: nat)
    requires env.typ == TYPE_RELAY_DATA
    ensures var request := RequestOf(cfg, s.table, SignedEvent(env, remote));
            HandleSigned(cfg, s, env, remote, now).outs ==
            if request.Some? then Forwarded(RememberIPEndpoint(s, request.value.srcIP, remote), request.value, now)
            else []
  {
    SignedRelay(cfg, s, env, remote, now);
  }

  lemma StepForwards(cfg: Config, s: ServerState, e: Timed)
    ensures RequestOf(cfg, s.table, e.event).Some? ==>
              var r := RequestOf(cfg, s.table, e.event).value;
              ServerStep(cfg, s, e).outs == Forwarded(RememberIPEndpoint(s, r.srcIP, e.event.remote), r, e.at)
    ensures RequestOf(cfg, s.table, e.event).None? ==> NoRelay(ServerStep(cfg, s, e).outs)
  {
    match e.event
    case JoinRequestEvent(req, nonce, remote) =>
      JoinFrame(cfg, s, req, nonce, JoinProof([], [], [], [], 0), remote);
    case JoinProofEvent(msg, remote) =>
      JoinFrame(cfg, s, JoinRequest([], [], [], [], [], 0), None, msg, remote);
    case SignedEvent(env, remote) =>
      if env.typ == TYPE_RELAY_DATA {
        SignedForwards(cfg, s, env, remote, e.at);
      } else {
        SignedFrame(cfg, s, env, remote, e.at);
      }
    case AdminEvent(command, subject, to) =>
      AdminCommandFrame(cfg, s, command, subject, to);
    case ReloadEvent(salt, verifier) =>
  }

  /** The verdict on a request, from the policy and the full log alone. */
  ghost predicate MayPass(cfg: Config, t: Table, run: seq<Timed>, i: nat, r: RelayRequest)
    requires i < |run|
  {
    MayCall(cfg.admin, Before(cfg, t, run, i).table, r.src, r.dst) ||
    LoggedSince(Log(cfg, t, run[..i]), r.dstIP, r.srcIP, run[i].at)
  }

  /**
   Relay safety and completeness over every run: event `i` sends a relay packet to `to` exactly when it is an
   authentic request between active machines, its direction is allowed or an allowed packet went the other way
   at most 60 s earlier, and `to` is the known endpoint of the target; what is sent is the received body.
   */
  lemma RelayedIff(cfg: Config, t: Table, run: seq<Timed>, i: nat, to: Endpoint, body: Bytes)
    requires Monotone(run) && i < |run|
    ensures var s := Before(cfg, t, run, i);
            Send(to, Wire(Envelope(TYPE_RELAY_DATA, body))) in OutputsAt(cfg, t, run, i) <==>
            RequestOf(cfg, s.table, run[i].event).Some? &&
            var r := RequestOf(cfg, s.table, run[i].event).value;
            MayPass(cfg, t, run, i, r) && body == r.raw &&
            (if r.dstIP == r.srcIP then to == run[i].event.remote
             else r.dstIP in s.ipEndpoints && to == s.ipEndpoints[r.dstIP])
  {
    var s, e := Before(cfg, t, run, i), run[i];
    StepForwards(cfg, s, e);
    FlowsRefineLog(cfg, t, run[..i]);
    assert Now(run[..i]) <= e.at;
    if RequestOf(cfg, s.table, e.event).Some? {
      RequestIsAuthentic(cfg, s.table, e.event);
    }
    assert IsRelayOutput(Send(to, Wire(Envelope(TYPE_RELAY_DATA, body))));
  }

  /** A denied direction is silent once more than 60 s have passed since the last allowed packet the other way. */
  lemma DeniedDirectionGoesSilent(cfg: Config, t: Table, run: seq<Timed>, i: nat, a: Ipv4, b: Ipv4, last: nat)
    requires Monotone(run) && i < |run| && run[i].at > last + 60_000_000_000
    requires forall x :: x in Log(cfg, t, run[..i]) && x.src == b && x.dst == a ==> x.at <= last
    requires var request := RequestOf(cfg, Before(cfg, t, run, i).table, run[i].event);
             request.Some? && request.value.srcIP == a && request.value.dstIP == b && !request.value.allowed
    ensures OutputsAt(cfg, t, run, i) == []
  {
    var s := Before(cfg, t, run, i);
    StepForwards(cfg, s, run[i]);
    FlowsRefineLog(cfg, t, run[..i]);
    assert Now(run[..i]) <= run[i].at;
  }

  lemma RecentIffLogged(cfg: Config, t: Table, run: seq<Timed>, i: nat, src: Ipv4, dst: Ipv4)
    requires Monotone(run) && i < |run|
    ensures RecentFlow(Before(cfg, t, run, i).flows, src, dst, run[i].at) <==>
            LoggedSince(Log(cfg, t, run[..i]), dst, src, run[i].at)
  {
    FlowsRefineLog(cfg, t, run[..i]);
    assert Now(run[..i]) <= run[i].at;
  }

  lemma ImpassableIsSilent(cfg: Config, t: Table, run: seq<Timed>, i: nat)
    requires Monotone(run) && i < |run|
    requires var request := RequestOf(cfg, Before(cfg, t, run, i).table, run[i].event);
             request.Some? && !MayPass(cfg, t, run, i, request.value)
    ensures OutputsAt(cfg, t, run, i) == []
  {
    var s := Before(cfg, t, run, i);
    var r := RequestOf(cfg, s.table, run[i].event).value;
    StepForwards(cfg, s, run[i]);
    RequestIsAuthentic(cfg, s.table, run[i].event);
    RecentIffLogged(cfg, t, run, i, r.srcIP, r.dstIP);
  }

  /**
   Between machines of two users, neither of them the admin, nothing is relayed, unless the log holds an allowed packet
   the other way between the same addresses, at most 60 s old: one sent while they were bound to other machines.
   */
  lemma StrangersAreNotRelayed(cfg: Config, t: Table, run: seq<Timed>, i: nat)
    requires Monotone(run) && i < |run|
    requires var request := RequestOf(cfg, Before(cfg, t, run, i).table, run[i].event);
             request.Some? && request.value.src.user != cfg.admin && request.value.dst.user != cfg.admin &&
             request.value.src.user != request.value.dst.user &&
             !LoggedSince(Log(cfg, t, run[..i]), request.value.dstIP, request.value.srcIP, run[i].at)
    ensures OutputsAt(cfg, t, run, i) == []
  {
    ImpassableIsSilent(cfg, t, run, i);
  }
}
