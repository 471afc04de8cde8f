/** What a join request and a join proof achieve: rows, addresses and the reply. */
module JoinEffects {
  import opened Basics
  import opened Seqs
  import opened Prefixes
  import opened Registry
  import opened Allocation
  import opened TableInvariants
  import opened ServerModel
  import opened AdminEffects
  import opened AddressStability

  // Requests.

  predicate Complete(req: JoinRequest) {
    req.user != [] && req.machine != [] && req.public != []
  }

  /** First contact of an unknown user with a verifier registers it and its machine, both pending, and says so. */
  lemma FirstContactRegisters(cfg: Config, s: ServerState, req: JoinRequest, nonce: Option<Bytes>, remote: Endpoint)
    requires Complete(req) && GetUser(s.table, req.user).None? && req.salt != [] && req.verifier != []
    ensures var step := HandleJoinRequest(cfg, s, req, nonce, remote);
            var t' := step.state.table;
            && t'.users == s.table.users + [User(req.user, req.salt, req.verifier, Pending)]
            && t'.machines ==
                 s.table.machines + [Machine(req.user, req.machine, req.desired, req.public, None, Pending)]
            && t'.grants == s.table.grants
            && step.outs ==
                 [Send(remote, JoinReply(if cfg.disk(s.table.writes) then Ok(Pending) else Err(SaveFailed), None))]
  {
  }

  /** Every other request leaves the registry alone: it is refused, or a known user is challenged. */
  lemma OtherRequestsRegisterNothing(cfg: Config, s: ServerState, req: JoinRequest, nonce: Option<Bytes>,
                                     remote: Endpoint)
    requires !Complete(req) || GetUser(s.table, req.user).Some? || req.salt == [] || req.verifier == []
    ensures var step := HandleJoinRequest(cfg, s, req, nonce, remote);
            && step.state.table == s.table
            && step.outs ==
                 if !Complete(req) then [Send(remote, JoinReply(Err(FieldsMissing), None))]
                 else if GetUser(s.table, req.user).None? then [Send(remote, JoinReply(Err(VerifierMissing), None))]
                 else if nonce.Some? then [Send(remote, Challenge(nonce.value))] else []
  {
  }

  /** A proof that is not accepted is answered with the reason and changes nothing but the challenge. */
  lemma RefusedProofIsAnswered(cfg: Config, s: ServerState, msg: JoinProof, remote: Endpoint)
    requires !ProofAccepted(cfg, s, msg)
    ensures var step := HandleJoinProof(cfg, s, msg, remote);
            var reason := if GetUser(s.table, msg.user).None? then UnknownUser
                          else if JoinKey(msg.user, msg.machine) !in s.nonces then NoChallenge else ProofRejected;
            && step.state == s.(nonces := step.state.nonces)
            && step.outs == [Send(remote, JoinReply(Err(reason), None))]
  {
  }

  /** A reload stores both the salt and the verifier of the admin user, and nothing else. */
  lemma ReloadStoresBoth(cfg: Config, s: ServerState, salt: Bytes, verifier: Bytes, at: nat)
    requires GetUser(s.table, cfg.admin).Some?
    ensures var t' := ServerStep(cfg, s, Timed(ReloadEvent(salt, verifier), at)).state.table;
            GetUser(t', cfg.admin) == Some(GetUser(s.table, cfg.admin).value.(salt := salt, verifier := verifier)) &&
            t'.machines == s.table.machines && t'.grants == s.table.grants
  {
    var i := FindUser(s.table, cfg.admin);
    var t' := ServerStep(cfg, s, Timed(ReloadEvent(salt, verifier), at)).state.table;
    assert NamedUser(cfg.admin)(s.table.users[i]);
    UserReplaced(s.table, t', cfg.admin, s.table.users[i].(salt := salt, verifier := verifier));
  }

  // Addresses outside the subnet.

  lemma SameAddressesUsed(ms: seq<Machine>, ms': seq<Machine>)
    requires |ms| <= |ms'| && forall i :: 0 <= i < |ms| ==> ms'[i].vpnIP == ms[i].vpnIP
    requires forall i :: |ms| <= i < |ms'| ==> ms'[i].vpnIP.None?
    ensures Used(ms') == Used(ms)
  {
    forall ip
      ensures ip in Used(ms) <==> ip in Used(ms')
    {
      if ip in Used(ms) {
        var i :| 0 <= i < |ms| && ms[i].vpnIP == Some(ip);
        assert ms'[i] in ms' && ms'[i].vpnIP == Some(ip);
      }
      if ip in Used(ms') {
        var i :| 0 <= i < |ms'| && ms'[i].vpnIP == Some(ip);
        assert ms[i] in ms && ms[i].vpnIP == Some(ip);
      }
    }
  }

  lemma RegistrationUsesNoAddress(cfg: Config, t: Table, msg: JoinProof)
    ensures Used(Registered(cfg, t, msg).machines) == Used(t.machines)
  {
    SameAddressesUsed(t.machines, Registered(cfg, t, msg).machines);
  }

  /** The named row after the subnet check: a promised address when there is one, else the old row and table. */
  lemma SubnetCheckReplaces(cfg: Config, t: Table, user: Name, machine: Name)
    requires GetMachine(t, user, machine).Some? && GetMachine(t, user, machine).value.vpnIP.Some?
    requires !Contains(cfg.subnet, GetMachine(t, user, machine).value.vpnIP.value)
    ensures var m, t' := GetMachine(t, user, machine).value, EnsureInSubnet(cfg, t, user, machine);
            if AddressFree(t, cfg.subnet, m.desired) then
              var m' := GetMachine(t', user, machine);
              m'.Some? && m'.value.vpnIP.Some? && m'.value == m.(vpnIP := m'.value.vpnIP) &&
              Promised(t, cfg.subnet, m.desired, m'.value.vpnIP.value)
            else t' == t
  {
    var k, m := FindMachine(t, user, machine), GetMachine(t, user, machine).value;
    FoundMachine(t, user, machine);
    AllocatesIff(t, cfg.subnet, m.desired);
    ApprovedAllocation(t, k, cfg.subnet, m.desired);
    var ip := Allocate(t, cfg.subnet, m.desired);
    if ip.Ok? {
      FindMachineStable(t, k, m.(vpnIP := Some(ip.value)), user, machine);
    }
  }

  /** The pin has been served, or cannot be: the second check has nothing to do. */
  lemma PinCheckIdles(cfg: Config, t: Table, user: Name, machine: Name, desired: int)
    requires GetMachine(t, user, machine).Some? && GetMachine(t, user, machine).value.vpnIP.Some?
    requires desired != 0 ==>
               LastOctet(GetMachine(t, user, machine).value.vpnIP.value) == desired ||
               !AddressFree(t, cfg.subnet, desired)
    ensures RebindDesired(cfg, t, user, machine, desired) == t
  {
    if desired != 0 {
      AllocatesIff(t, cfg.subnet, desired);
    }
  }

  /** The pin a row has after a join: the asked one, if any, else its own. */
  function WantedPin(m: Machine, msg: JoinProof): int {
    if msg.desired != 0 then msg.desired else m.desired
  }

  /** The key of an active row of the asking user, found under the asked name, at an address outside the subnet. */
  ghost predicate Outside(cfg: Config, t: Table, msg: JoinProof) {
    var k := First(t.machines, HasPublic(msg.public));
    k < |t.machines| && t.machines[k].user == msg.user && t.machines[k].status == Active &&
    FindMachine(Registered(cfg, t, msg), msg.user, msg.machine) == k &&
    t.machines[k].vpnIP.Some? && !Contains(cfg.subnet, t.machines[k].vpnIP.value)
  }

  lemma OutsideRegistered(cfg: Config, t: Table, msg: JoinProof)
    requires Outside(cfg, t, msg)
    requires RegisterJoin(t, cfg.disk, msg.user, msg.machine, msg.public, [], [], msg.desired).1 == Ok(Active)
    ensures var k, t1 := First(t.machines, HasPublic(msg.public)), Registered(cfg, t, msg);
            GetMachine(t1, msg.user, msg.machine) ==
            Some(t.machines[k].(name := msg.machine, desired := WantedPin(t.machines[k], msg)))
  {
    var k := First(t.machines, HasPublic(msg.public));
    assert HasPublic(msg.public)(t.machines[k]);
  }

  /**
   An accepted join of a machine whose address is outside the subnet moves it exactly when an address can be allocated:
   to its pin, or without one to the lowest free address; otherwise it keeps the old one.
   */
  lemma OutsideAddressIsReplacedIff(cfg: Config, t: Table, msg: JoinProof)
    requires Outside(cfg, t, msg)
    requires RegisterJoin(t, cfg.disk, msg.user, msg.machine, msg.public, [], [], msg.desired).1 == Ok(Active)
    ensures var k, (t', r) := First(t.machines, HasPublic(msg.public)), JoinTable(cfg, t, msg);
            var was, m' := t.machines[k], GetMachine(t', msg.user, msg.machine);
            && r == Ok(Active) && m'.Some? && m'.value.public == msg.public && m'.value.status == Active
            && if AddressFree(t, cfg.subnet, WantedPin(was, msg)) then
                 m'.value.vpnIP.Some? && Promised(t, cfg.subnet, WantedPin(was, msg), m'.value.vpnIP.value)
               else m'.value.vpnIP == was.vpnIP
  {
    OutsideRegistered(cfg, t, msg);
    RegistrationUsesNoAddress(cfg, t, msg);
    var k, t1 := First(t.machines, HasPublic(msg.public)), Registered(cfg, t, msg);
    var pin := WantedPin(t.machines[k], msg);
    assert HasPublic(msg.public)(t.machines[k]);
    SameAddressesAllocateAlike(t, t1, cfg.subnet, pin);
    SubnetCheckReplaces(cfg, t1, msg.user, msg.machine);
    PinCheckIdles(cfg, EnsureInSubnet(cfg, t1, msg.user, msg.machine), msg.user, msg.machine, msg.desired);
  }

  /** The reply tells the machine its address, and what is sent to that address goes to the machine from then on. */
  lemma AdmissionIsAnswered(cfg: Config, s: ServerState, msg: JoinProof, remote: Endpoint)
    ensures var step := AdmitJoin(cfg, s, msg, remote);
            var (t', r) := JoinTable(cfg, s.table, msg);
            var m' := GetMachine(t', msg.user, msg.machine);
            var addr := if r.Ok? && m'.Some? then m'.value.vpnIP else None;
            && step.state.table == t' && step.outs == [Send(remote, JoinReply(r, addr))]
            && (addr.Some? ==> addr.value in step.state.ipEndpoints && step.state.ipEndpoints[addr.value] == remote)
            && (forall ip :: addr != Some(ip) && ip in s.ipEndpoints ==>
                  ip in step.state.ipEndpoints && step.state.ipEndpoints[ip] == s.ipEndpoints[ip])
  {
  }

  // The result of a join.

  /** The admin rule approves exactly a pending machine of the active admin, with both writes and an address. */
  lemma AdminRuleApprovesIff(cfg: Config, t: Table, user: Name, machine: Name)
    requires GetUser(t, cfg.admin).Some? && GetUser(t, cfg.admin).value.status == Active
    ensures var m := GetMachine(t, user, machine);
            AutoApproveAdmin(cfg, t, user, machine).1 <==>
            user == cfg.admin && machine != [] && m.Some? && m.value.status == Pending &&
            cfg.disk(t.writes) && AddressFree(t, cfg.subnet, m.value.desired) && cfg.disk(t.writes + 1)
  {
    var m := GetMachine(t, user, machine);
    if user == cfg.admin && machine != [] && m.Some? && m.value.status == Pending {
      AdminMachineApproved(cfg, t, machine);
      AllocatesIff(t, cfg.subnet, m.value.desired);
    }
  }

  /** The asked name is held by another key of the user, and is not the row's own. */
  ghost predicate NameRefused(t: Table, msg: JoinProof) {
    var k := First(t.machines, HasPublic(msg.public));
    (k < |t.machines| ==> t.machines[k].name != msg.machine) &&
    exists m :: m in t.machines && m.user == msg.user && m.name == msg.machine && m.public != msg.public
  }

  /** The status with which the registration of a known user ends. */
  lemma RegistrationResult(t: Table, disk: Disk, msg: JoinProof)
    requires GetUser(t, msg.user).Some?
    ensures var k, r := First(t.machines, HasPublic(msg.public)),
                        RegisterJoin(t, disk, msg.user, msg.machine, msg.public, [], [], msg.desired).1;
            r == if GetUser(t, msg.user).value.status == Blocked ||
                    (k < |t.machines| && t.machines[k].status == Blocked)
                 then Ok(Blocked)
                 else if NameRefused(t, msg) then Err(NameUsed)
                 else if !disk(t.writes) then Err(SaveFailed)
                 else Ok(if k < |t.machines| then t.machines[k].status else Pending)
  {
    var n := First(t.machines, UsesName(msg.user, msg.machine, msg.public));
    assert n < |t.machines| ==>
             UsesName(msg.user, msg.machine, msg.public)(t.machines[n]) && t.machines[n] in t.machines;
    assert forall j :: 0 <= j < n ==> !UsesName(msg.user, msg.machine, msg.public)(t.machines[j]);
  }

  /** The machine that an admin's join leaves pending is approved on the spot. */
  ghost predicate ApprovedOnJoin(cfg: Config, t: Table, msg: JoinProof) {
    var m := GetMachine(Registered(cfg, t, msg), msg.user, msg.machine);
    msg.user == cfg.admin && msg.machine != [] && m.Some? && m.value.status == Pending &&
    cfg.disk(t.writes + 1) && AddressFree(t, cfg.subnet, m.value.desired) && cfg.disk(t.writes + 2)
  }

  lemma MoveKeepsStatus(cfg: Config, t: Table, user: Name, machine: Name, desired: int)
    ensures var m := GetMachine(t, user, machine);
            var m' := GetMachine(MoveAddress(cfg, t, user, machine, desired).0, user, machine);
            (m.Some? <==> m'.Some?) && (m.Some? ==> m'.value.status == m.value.status)
  {
    var k, ip := FindMachine(t, user, machine), Allocate(t, cfg.subnet, desired);
    if k < |t.machines| && ip.Ok? {
      FindMachineStable(t, k, t.machines[k].(vpnIP := Some(ip.value)), user, machine);
    }
  }

  lemma UpkeepKeepsStatus(cfg: Config, t: Table, user: Name, machine: Name, desired: int)
    ensures var m := GetMachine(t, user, machine);
            var m' := GetMachine(Upkeep(cfg, t, user, machine, desired), user, machine);
            (m.Some? <==> m'.Some?) && (m.Some? ==> m'.value.status == m.value.status)
  {
    MoveKeepsStatus(cfg, t, user, machine, DesiredOf(t, user, machine));
    MoveKeepsStatus(cfg, EnsureInSubnet(cfg, t, user, machine), user, machine, desired);
  }

  lemma UpkeepKeepsUsers(cfg: Config, t: Table, user: Name, machine: Name, desired: int)
    ensures Upkeep(cfg, t, user, machine, desired).users == t.users
  {
  }

  /** Upkeep passes over a pending row: it has no address. */
  lemma UpkeepSkipsPending(cfg: Config, t: Table, user: Name, machine: Name, desired: int)
    requires Sound(t) && GetMachine(t, user, machine).Some? && GetMachine(t, user, machine).value.status == Pending
    ensures Upkeep(cfg, t, user, machine, desired) == t
  {
    FoundMachine(t, user, machine);
  }

  lemma RegistrationKeepsUsers(t: Table, disk: Disk, msg: JoinProof)
    requires GetUser(t, msg.user).Some?
    ensures var (t', r) := RegisterJoin(t, disk, msg.user, msg.machine, msg.public, [], [], msg.desired);
            t'.users == t.users && (r == Ok(Pending) ==> t'.writes == t.writes + 1)
  {
  }

  lemma SameUsersSameUser(t: Table, t': Table, name: Name)
    requires t'.users == t.users
    ensures GetUser(t', name) == GetUser(t, name)
  {
  }

  /** The row the registration leaves is pending: upkeep passes over it, and the rule looks at the same addresses. */
  lemma PendingRowApprovedIff(cfg: Config, t: Table, msg: JoinProof)
    requires Sound(t) && GetUser(t, msg.user).Some?
    requires GetUser(t, cfg.admin).Some? && GetUser(t, cfg.admin).value.status == Active
    requires RegisterJoin(t, cfg.disk, msg.user, msg.machine, msg.public, [], [], msg.desired).1 == Ok(Pending)
    requires var m := GetMachine(Registered(cfg, t, msg), msg.user, msg.machine); m.Some? && m.value.status == Pending
    ensures var t3 := Upkeep(cfg, Registered(cfg, t, msg), msg.user, msg.machine, msg.desired);
            AutoApproveAdmin(cfg, t3, msg.user, msg.machine).1 <==> ApprovedOnJoin(cfg, t, msg)
  {
    var t1 := Registered(cfg, t, msg);
    RegisterJoinKeeps(t, cfg.disk, msg.user, msg.machine, msg.public, [], [], msg.desired);
    RegistrationKeepsUsers(t, cfg.disk, msg);
    SameUsersSameUser(t, t1, cfg.admin);
    UpkeepSkipsPending(cfg, t1, msg.user, msg.machine, msg.desired);
    RegistrationUsesNoAddress(cfg, t, msg);
    SameAddressesAllocateAlike(t, t1, cfg.subnet, GetMachine(t1, msg.user, msg.machine).value.desired);
    AdminRuleApprovesIff(cfg, t1, msg.user, msg.machine);
  }

  lemma PendingJoinApprovedIff(cfg: Config, t: Table, msg: JoinProof)
    requires Sound(t) && GetUser(t, msg.user).Some?
    requires GetUser(t, cfg.admin).Some? && GetUser(t, cfg.admin).value.status == Active
    requires RegisterJoin(t, cfg.disk, msg.user, msg.machine, msg.public, [], [], msg.desired).1 == Ok(Pending)
    ensures var t3 := Upkeep(cfg, Registered(cfg, t, msg), msg.user, msg.machine, msg.desired);
            AutoApproveAdmin(cfg, t3, msg.user, msg.machine).1 <==> ApprovedOnJoin(cfg, t, msg)
  {
    var t1 := Registered(cfg, t, msg);
    var m := GetMachine(t1, msg.user, msg.machine);
    if m.Some? && m.value.status == Pending {
      PendingRowApprovedIff(cfg, t, msg);
    } else {
      var t3 := Upkeep(cfg, t1, msg.user, msg.machine, msg.desired);
      RegistrationKeepsUsers(t, cfg.disk, msg);
      UpkeepKeepsUsers(cfg, t1, msg.user, msg.machine, msg.desired);
      SameUsersSameUser(t, t3, cfg.admin);
      UpkeepKeepsStatus(cfg, t1, msg.user, msg.machine, msg.desired);
      AdminRuleApprovesIff(cfg, t3, msg.user, msg.machine);
    }
  }

  /** A join ends as its registration does, except that the admin's own machines are approved on the spot. */
  lemma JoinResult(cfg: Config, t: Table, msg: JoinProof)
    requires Sound(t) && GetUser(t, msg.user).Some?
    requires GetUser(t, cfg.admin).Some? && GetUser(t, cfg.admin).value.status == Active
    ensures var registered := RegisterJoin(t, cfg.disk, msg.user, msg.machine, msg.public, [], [], msg.desired).1;
            JoinTable(cfg, t, msg).1 ==
            if registered == Ok(Pending) && ApprovedOnJoin(cfg, t, msg) then Ok(Active) else registered
  {
    if RegisterJoin(t, cfg.disk, msg.user, msg.machine, msg.public, [], [], msg.desired).1 == Ok(Pending) {
      PendingJoinApprovedIff(cfg, t, msg);
    }
  }

  /** And when it is approved the row is active and holds the address that the reply tells. */
  lemma AdminJoinGetsAddress(cfg: Config, s: ServerState, msg: JoinProof, remote: Endpoint)
    requires Sound(s.table) && GetUser(s.table, cfg.admin).Some? && GetUser(s.table, cfg.admin).value.status == Active
    requires msg.user == cfg.admin && ApprovedOnJoin(cfg, s.table, msg)
    requires RegisterJoin(s.table, cfg.disk, msg.user, msg.machine, msg.public, [], [], msg.desired).1 == Ok(Pending)
    ensures var step := AdmitJoin(cfg, s, msg, remote);
            var m, pin := GetMachine(step.state.table, msg.user, msg.machine),
                          GetMachine(Registered(cfg, s.table, msg), msg.user, msg.machine).value.desired;
            m.Some? && m.value.status == Active && m.value.vpnIP.Some? &&
            Promised(s.table, cfg.subnet, pin, m.value.vpnIP.value) &&
            step.outs == [Send(remote, JoinReply(Ok(Active), m.value.vpnIP))]
  {
    var t, t1 := s.table, Registered(cfg, s.table, msg);
    RegisterJoinKeeps(t, cfg.disk, msg.user, msg.machine, msg.public, [], [], msg.desired);
    RegistrationKeepsUsers(t, cfg.disk, msg);
    SameUsersSameUser(t, t1, cfg.admin);
    UpkeepSkipsPending(cfg, t1, msg.user, msg.machine, msg.desired);
    RegistrationUsesNoAddress(cfg, t, msg);
    AdminMachineApproved(cfg, t1, msg.machine);
    AdminRuleApprovesIff(cfg, t1, msg.user, msg.machine);
    SameAddressesAllocateAlike(t, t1, cfg.subnet, GetMachine(t1, msg.user, msg.machine).value.desired);
    AllocatesIff(t1, cfg.subnet, GetMachine(t1, msg.user, msg.machine).value.desired);
    AdmissionIsAnswered(cfg, s, msg, remote);
    JoinResult(cfg, t, msg);
  }

  /** An accepted proof is admitted; what it does to the registry and what it sends are those of the admission. */
  lemma AcceptedProofIsAdmitted(cfg: Config, s: ServerState, msg: JoinProof, remote: Endpoint)
    requires ProofAccepted(cfg, s, msg)
    ensures HandleJoinProof(cfg, s, msg, remote) ==
            AdmitJoin(cfg, s.(nonces := s.nonces - {JoinKey(msg.user, msg.machine)}), msg, remote)
  {
  }

  /** So a machine left outside the subnet is moved by its next accepted proof, and told its new address. */
  lemma OutsideMachineIsMovedAndTold(cfg: Config, s: ServerState, msg: JoinProof, remote: Endpoint)
    requires ProofAccepted(cfg, s, msg) && Outside(cfg, s.table, msg)
    requires RegisterJoin(s.table, cfg.disk, msg.user, msg.machine, msg.public, [], [], msg.desired).1 == Ok(Active)
    ensures var was := s.table.machines[First(s.table.machines, HasPublic(msg.public))];
            var step := HandleJoinProof(cfg, s, msg, remote);
            exists ip: Ipv4 ::
              && step.outs == [Send(remote, JoinReply(Ok(Active), Some(ip)))]
              && ip in step.state.ipEndpoints && step.state.ipEndpoints[ip] == remote
              && if AddressFree(s.table, cfg.subnet, WantedPin(was, msg))
                 then Promised(s.table, cfg.subnet, WantedPin(was, msg), ip) else was.vpnIP == Some(ip)
  {
    AcceptedProofIsAdmitted(cfg, s, msg, remote);
    var s1 := s.(nonces := s.nonces - {JoinKey(msg.user, msg.machine)});
    AdmissionIsAnswered(cfg, s1, msg, remote);
    OutsideAddressIsReplacedIff(cfg, s.table, msg);
    var m' := GetMachine(JoinTable(cfg, s.table, msg).0, msg.user, msg.machine);
    assert HandleJoinProof(cfg, s, msg, remote).outs ==
           [Send(remote, JoinReply(Ok(Active), Some(m'.value.vpnIP.value)))];
  }
}
