/** What the allow and deny commands achieve beyond rows: grants, the broadcast and the reply. */
module Commands {
  import opened Basics
  import opened Seqs
  import opened Registry
  import opened Policy
  import opened Envelopes
  import opened Signed
  import opened Grants
  import opened ServerModel
  import opened Authentication
  import opened AdminEffects

  // Deny with a target.

  /** The grant that `deny user[/machine] --to target` names. */
  predicate IsNamedGrant(g: Grant, user: Name, machine: Name, target: Name) {
    g.target == target && g.subject == if machine == [] then user else user + [SLASH] + machine
  }

  /**
   Deny with a target takes away exactly the named grant and keeps every row; it succeeds exactly when its one write
   does, and an unknown subject or an absent grant is no error.
   */
  lemma DenyWithTargetRevokes(cfg: Config, s: ServerState, user: Name, machine: Name, to: Name)
    requires user != [] && SLASH !in user && to != []
    ensures var step := AdminCommand(cfg, s, DenyCommand, Subject(user, machine), to);
            var t' := step.state.table;
            && t'.users == s.table.users && t'.machines == s.table.machines
            && (forall g :: g in t'.grants <==> g in s.table.grants && !IsNamedGrant(g, user, machine, to))
            && (step.outcome.Done? <==> cfg.disk(s.table.writes))
  {
    ParseTargetOfSubject(user, machine);
    forall g
      ensures NotGrant(Subject(user, machine), to)(g) <==> !IsNamedGrant(g, user, machine, to)
    {
    }
  }

  /** What is left of a direction when the named grant is gone. */
  ghost predicate MayCallWithout(admin: Name, t: Table, src: Machine, dst: Machine,
                                 user: Name, machine: Name, to: Name) {
    || src.user == admin
    || src.user == dst.user
    || (dst.user == admin &&
        exists g :: g in t.grants && g.target == dst.name && !IsNamedGrant(g, user, machine, to) &&
                    (g.subject == src.user || g.subject == src.user + [SLASH] + src.name))
  }

  /** So a direction is open afterwards exactly when it is open without that grant. */
  lemma DenyWithTargetClosesIff(cfg: Config, s: ServerState, user: Name, machine: Name, to: Name,
                                src: Machine, dst: Machine)
    requires user != [] && SLASH !in user && to != []
    ensures var t' := AdminCommand(cfg, s, DenyCommand, Subject(user, machine), to).state.table;
            AllowRelay(cfg.admin, t', src, dst) <==> MayCallWithout(cfg.admin, s.table, src, dst, user, machine, to)
  {
    DenyWithTargetRevokes(cfg, s, user, machine, to);
    AllowRelayIff(cfg.admin, AdminCommand(cfg, s, DenyCommand, Subject(user, machine), to).state.table, src, dst);
  }

  /** In particular a machine that only this grant let in stays out. */
  lemma DenyWithTargetShutsOut(cfg: Config, s: ServerState, user: Name, to: Name, src: Machine)
    requires user != [] && SLASH !in user && to != [] && src.user == user && user != cfg.admin
    requires forall g :: g in s.table.grants && g.target == to ==> g.subject != user + [SLASH] + src.name
    ensures var t' := AdminCommand(cfg, s, DenyCommand, user, to).state.table;
            forall dst: Machine :: dst.user == cfg.admin && dst.name == to ==> !AllowRelay(cfg.admin, t', src, dst)
  {
    forall dst: Machine | dst.user == cfg.admin && dst.name == to
      ensures !AllowRelay(cfg.admin, AdminCommand(cfg, s, DenyCommand, user, to).state.table, src, dst)
    {
      DenyWithTargetClosesIff(cfg, s, user, [], to, src, dst);
    }
  }

  // Deny without a target.

  /** Deny without a target deals with the row in the registry that its revocations leave, once they are written. */
  lemma DenyReachesRow(t: Table, disk: Disk, user: Name, machine: Name)
    ensures var subject := Subject(user, machine);
            var revoked := RevokeAll(t, disk, subject, GrantsOf(t.grants, subject)).0;
            && revoked.users == t.users && revoked.machines == t.machines
            && (RevocationsWritten(t, disk, subject) ==> revoked.writes == t.writes + |GrantsOf(t.grants, subject)|)
            && (ServerDeny(t, disk, user, machine, []).1.Done? <==>
                RevocationsWritten(t, disk, subject) && DenyRow(revoked, disk, user, machine).1.Done?)
            && ServerDeny(t, disk, user, machine, []).0 ==
               if RevocationsWritten(t, disk, subject) then DenyRow(revoked, disk, user, machine).0 else revoked
  {
    var subject := Subject(user, machine);
    RevokeAllDoneIff(t, disk, subject, GrantsOf(t.grants, subject));
    RevokeAllTouchesGrantsOnly(t, disk, subject, GrantsOf(t.grants, subject));
  }

  /** Erasing the rows of a pending user or machine is one write. */
  lemma ErasingWritesOnce(t: Table, disk: Disk, user: Name, machine: Name)
    requires if machine == [] then GetUser(t, user).Some? && GetUser(t, user).value.status == Pending
             else GetMachine(t, user, machine).Some? && GetMachine(t, user, machine).value.status == Pending
    ensures DenyRow(t, disk, user, machine).1.Done? <==> disk(t.writes)
  {
  }

  /** Denying a pending user removes exactly its rows once its revocations are written, and until then no row. */
  lemma DenyPendingUserIff(t: Table, disk: Disk, user: Name)
    requires GetUser(t, user).Some? && GetUser(t, user).value.status == Pending
    ensures var (t', outcome) := ServerDeny(t, disk, user, [], []);
            && (if RevocationsWritten(t, disk, user)
                then (forall u :: u in t'.users <==> u in t.users && u.name != user) &&
                     (forall m :: m in t'.machines <==> m in t.machines && m.user != user)
                else t'.users == t.users && t'.machines == t.machines)
            && (outcome.Done? <==>
                RevocationsWritten(t, disk, user) && disk(t.writes + |GrantsOf(t.grants, user)|))
  {
    DenyReachesRow(t, disk, user, []);
    var revoked := RevokeAll(t, disk, user, GrantsOf(t.grants, user)).0;
    assert GetUser(revoked, user) == GetUser(t, user);
    ErasingWritesOnce(revoked, disk, user, []);
    DenyErasesPendingUser(revoked, disk, user);
  }

  /** Likewise a pending machine. */
  lemma DenyPendingMachineIff(t: Table, disk: Disk, user: Name, machine: Name)
    requires machine != [] && GetMachine(t, user, machine).Some? && GetMachine(t, user, machine).value.status == Pending
    ensures var (t', outcome), subject := ServerDeny(t, disk, user, machine, []), JoinKey(user, machine);
            && t'.users == t.users
            && (if RevocationsWritten(t, disk, subject)
                then forall m :: m in t'.machines <==> m in t.machines && !(m.user == user && m.name == machine)
                else t'.machines == t.machines)
            && (outcome.Done? <==>
                RevocationsWritten(t, disk, subject) && disk(t.writes + |GrantsOf(t.grants, subject)|))
  {
    var subject := Subject(user, machine);
    DenyReachesRow(t, disk, user, machine);
    var revoked := RevokeAll(t, disk, subject, GrantsOf(t.grants, subject)).0;
    assert GetMachine(revoked, user, machine) == GetMachine(t, user, machine);
    ErasingWritesOnce(revoked, disk, user, machine);
    DenyErasesPendingMachine(revoked, disk, user, machine);
  }

  /** The user, or the machine, that a command names is blocked. */
  predicate BlockedSubject(t: Table, user: Name, machine: Name) {
    if machine == [] then GetUser(t, user).Some? && GetUser(t, user).value.status == Blocked
    else GetMachine(t, user, machine).Some? && GetMachine(t, user, machine).value.status == Blocked
  }

  /** Denying what is blocked already only revokes. */
  lemma DenyBlockedOnlyRevokes(t: Table, disk: Disk, user: Name, machine: Name)
    requires BlockedSubject(t, user, machine)
    ensures var (t', outcome) := ServerDeny(t, disk, user, machine, []);
            && t'.users == t.users && t'.machines == t.machines
            && (outcome.Done? <==> RevocationsWritten(t, disk, Subject(user, machine)))
  {
    DenyReachesRow(t, disk, user, machine);
  }

  // Allow on rows that are not pending.

  /** Allowing a blocked machine makes that row active and changes nothing else; the target plays no part. */
  lemma AllowUnblocksMachine(cfg: Config, s: ServerState, user: Name, machine: Name, to: Name)
    requires user != [] && SLASH !in user && machine != []
    requires GetMachine(s.table, user, machine).Some? && GetMachine(s.table, user, machine).value.status == Blocked
    ensures var step := AdminCommand(cfg, s, AllowCommand, JoinKey(user, machine), to);
            var t', k := step.state.table, FindMachine(s.table, user, machine);
            && k < |s.table.machines| && t'.users == s.table.users && t'.grants == s.table.grants
            && t'.machines == s.table.machines[k := s.table.machines[k].(status := Active)]
            && (step.outcome.Done? <==> cfg.disk(s.table.writes))
  {
    ParseTargetOfMachine(user, machine);
  }

  lemma GrantedIff(t: Table, disk: Disk, subject: Bytes, to: Name, g: Grant)
    ensures g in GrantTo(t, disk, subject, to).0.grants <==> g in t.grants || g == Grant(subject, to)
  {
    var t' := GrantTo(t, disk, subject, to).0;
    if Grant(subject, to) !in t.grants {
      assert t'.grants[|t.grants|] == Grant(subject, to);
    }
  }

  lemma AllowUserLeavesGrants(cfg: Config, s: ServerState, user: Name, to: Name)
    ensures AllowUser(cfg, s, user, to).state.table.grants ==
            if ActiveSubject(s.table, user, []) then GrantTo(s.table, cfg.disk, user, to).0.grants else s.table.grants
  {
    StatusChangesKeepGrants(s.table, cfg.disk, user, []);
  }

  lemma AllowMachineLeavesGrants(cfg: Config, s: ServerState, user: Name, machine: Name, to: Name)
    requires machine != []
    ensures AllowMachine(cfg, s, user, machine, to).state.table.grants ==
            if ActiveSubject(s.table, user, machine)
            then GrantTo(s.table, cfg.disk, JoinKey(user, machine), to).0.grants
            else s.table.grants
  {
    StatusChangesKeepGrants(s.table, cfg.disk, user, machine);
    var m := GetMachine(s.table, user, machine);
    if m.Some? && m.value.status == Pending {
      var allowed := WithTable(s, Allow(s.table, cfg.disk, user, machine));
      ApproveKeepsGrants(cfg, allowed.state, user, machine);
    }
  }

  lemma CommandLeavesGrants(cfg: Config, s: ServerState, user: Name, machine: Name, to: Name)
    requires user != [] && SLASH !in user
    ensures AdminCommand(cfg, s, AllowCommand, Subject(user, machine), to).state.table.grants ==
            ServerAllow(cfg, s, user, machine, to).state.table.grants
  {
    ParseTargetOfSubject(user, machine);
  }

  /** Allow grants the target to an active subject only. */
  lemma AllowGrantsIff(cfg: Config, s: ServerState, user: Name, machine: Name, to: Name, g: Grant)
    requires user != [] && SLASH !in user
    ensures g in AdminCommand(cfg, s, AllowCommand, Subject(user, machine), to).state.table.grants <==>
            g in s.table.grants || (ActiveSubject(s.table, user, machine) && IsNamedGrant(g, user, machine, to))
  {
    CommandLeavesGrants(cfg, s, user, machine, to);
    if machine == [] {
      AllowUserLeavesGrants(cfg, s, user, to);
    } else {
      AllowMachineLeavesGrants(cfg, s, user, machine, to);
    }
    GrantedIff(s.table, cfg.disk, Subject(user, machine), to, g);
  }

  /** A command other than allow and deny, or a target that does not parse, does nothing and fails. */
  lemma BadCommandDoesNothing(cfg: Config, s: ServerState, command: Command, subject: Bytes, to: Name)
    requires ParseTarget(subject).Err? || (command != AllowCommand && command != DenyCommand)
    ensures var step := AdminCommand(cfg, s, command, subject, to);
            step.state == s && step.outs == [] && step.outcome.Failed?
  {
  }

  /** Naming an unknown subject changes no row and fails; a deny still takes away what was granted to it. */
  lemma UnknownSubjectFails(cfg: Config, s: ServerState, command: Command, user: Name, machine: Name, to: Name)
    requires user != [] && SLASH !in user
    requires if machine == [] then GetUser(s.table, user).None? else GetMachine(s.table, user, machine).None?
    requires command == AllowCommand || (command == DenyCommand && to == [])
    ensures var step := AdminCommand(cfg, s, command, Subject(user, machine), to);
            step.outcome.Failed? && step.outs == [] &&
            step.state.table.users == s.table.users && step.state.table.machines == s.table.machines
  {
    ParseTargetOfSubject(user, machine);
    var subject := Subject(user, machine);
    RevokeAllTouchesGrantsOnly(s.table, cfg.disk, subject, GrantsOf(s.table.grants, subject));
    var t1 := RevokeAll(s.table, cfg.disk, subject, GrantsOf(s.table.grants, subject)).0;
    assert GetUser(t1, user) == GetUser(s.table, user);
    assert GetMachine(t1, user, machine) == GetMachine(s.table, user, machine);
  }

  /** A target is cut at its first slash; without a user part it is refused. */
  lemma ParseTargetIff(target: Bytes, user: Name, machine: Name)
    ensures ParseTarget(target) == Ok((user, machine)) <==>
            user != [] && SLASH !in user &&
            (target == user + [SLASH] + machine || (target == user && machine == []))
  {
    var i := First(target, b => b == SLASH);
    assert forall k :: 0 <= k < i ==> target[k] != SLASH;
    if ParseTarget(target) == Ok((user, machine)) {
      assert user == target[..i];
      assert i < |target| ==> target == target[..i] + [target[i]] + target[i + 1..];
    }
    if user != [] && SLASH !in user {
      if target == user + [SLASH] + machine {
        ParseTargetOfMachine(user, machine);
      }
      if target == user && machine == [] {
        ParseTargetOfUser(user);
      }
    }
  }

  // The broadcast and the reply.

  predicate IsNotice(o: Output) {
    o.Send? && o.packet.Wire? && o.packet.env.typ == 0x34
  }

  /** Every machine of the table with a known endpoint is sent its own status, and nobody anything else of that type. */
  ghost predicate NoticesMatch(cfg: Config, s: ServerState, outs: seq<Output>) {
    forall o :: IsNotice(o) ==>
      (o in outs <==>
       exists m :: m in s.table.machines && m.vpnIP.Some? && m.vpnIP.value in s.ipEndpoints &&
                   o == Send(s.ipEndpoints[m.vpnIP.value], PolicyNotice(cfg, m.status)))
  }

  ghost predicate NoNotice(outs: seq<Output>) {
    forall o :: o in outs ==> !IsNotice(o)
  }

  lemma ApprovalSendsNoNotice(cfg: Config, s: ServerState, user: Name, machine: Name)
    ensures NoNotice(ApproveMachine(cfg, s, user, machine).outs)
  {
  }

  lemma AllowSendsNoNotice(cfg: Config, s: ServerState, user: Name, machine: Name, to: Name)
    ensures NoNotice(ServerAllow(cfg, s, user, machine, to).outs)
  {
    if machine != [] && GetMachine(s.table, user, machine).Some? {
      ApprovalSendsNoNotice(cfg, s.(table := Allow(s.table, cfg.disk, user, machine).0), user, machine);
    }
  }

  /** A command that succeeds is broadcast under the registry it leaves, and one that fails is not. */
  lemma CommandIsBroadcastIff(cfg: Config, s: ServerState, command: Command, subject: Bytes, to: Name)
    ensures var step := AdminCommand(cfg, s, command, subject, to);
            if step.outcome.Done? then NoticesMatch(cfg, step.state, step.outs) else NoNotice(step.outs)
  {
    var step := AdminCommand(cfg, s, command, subject, to);
    if ParseTarget(subject).Ok? {
      var (user, machine) := ParseTarget(subject).value;
      AllowSendsNoNotice(cfg, s, user, machine, to);
    }
    if step.outcome.Done? {
      forall o | IsNotice(o)
        ensures o in step.outs <==> o in Broadcast(cfg, step.state.table.machines, step.state.ipEndpoints)
      {
      }
      forall o | IsNotice(o)
        ensures o in step.outs <==>
                exists m ::
                  m in step.state.table.machines && m.vpnIP.Some? && m.vpnIP.value in step.state.ipEndpoints &&
                  o == Send(step.state.ipEndpoints[m.vpnIP.value], PolicyNotice(cfg, m.status))
      {
        BroadcastReachesExactly(cfg, step.state.table.machines, step.state.ipEndpoints, o);
      }
    }
  }

  lemma {:induction false} BroadcastHasNoReply(cfg: Config, ms: seq<Machine>, ipEndpoints: map<Ipv4, Endpoint>)
    ensures forall o :: o in Broadcast(cfg, ms, ipEndpoints) ==> o.Send? && o.packet.Wire?
  {
    if ms == [] {
    } else {
      BroadcastHasNoReply(cfg, ms[..|ms| - 1], ipEndpoints);
    }
  }

  lemma ApprovalSendsNoReply(cfg: Config, s: ServerState, user: Name, machine: Name)
    ensures var step := ApproveMachine(cfg, s, user, machine);
            (forall o :: o in step.outs ==> o.Send? && o.packet.ApproveNotify?) &&
            (forall ip :: ip in s.ipEndpoints ==> ip in step.state.ipEndpoints)
  {
  }

  lemma AllowSendsNoReply(cfg: Config, s: ServerState, user: Name, machine: Name, to: Name)
    ensures var step := ServerAllow(cfg, s, user, machine, to);
            (forall o :: o in step.outs ==> o.Send? && o.packet.ApproveNotify?) &&
            (forall ip :: ip in s.ipEndpoints ==> ip in step.state.ipEndpoints)
  {
    if machine != [] && GetMachine(s.table, user, machine).Some? {
      ApprovalSendsNoReply(cfg, s.(table := Allow(s.table, cfg.disk, user, machine).0), user, machine);
    }
  }

  /** A command itself sends pushes and notices, no reply, and forgets no endpoint. */
  lemma CommandSendsNoReply(cfg: Config, s: ServerState, command: Command, subject: Bytes, to: Name)
    ensures var step := AdminCommand(cfg, s, command, subject, to);
            (forall o :: o in step.outs ==> o.Send? && !o.packet.AdminReply?) &&
            (forall ip :: ip in s.ipEndpoints ==> ip in step.state.ipEndpoints)
  {
    if ParseTarget(subject).Ok? {
      var (user, machine) := ParseTarget(subject).value;
      AllowSendsNoReply(cfg, s, user, machine, to);
      var s' := AdminCommand(cfg, s, command, subject, to).state;
      BroadcastHasNoReply(cfg, s'.table.machines, s'.ipEndpoints);
    }
  }

  /** The outcome of an admin request: the users view for everybody, commands for machines of the admin. */
  function RequestSucceeds(cfg: Config, s: ServerState, src: Machine, req: AdminRequest): bool {
    if req.command == UsersCommand then true
    else src.user == cfg.admin && AdminCommand(cfg, s, req.command, req.target, req.to).outcome.Done?
  }

  /**
   Every admin request that decodes is answered to the endpoint of its source address, with its outcome; one that does
   not decode is not answered.
   */
  lemma AdminRequestIsAnswered(cfg: Config, s: ServerState, src: Machine, srcIP: Ipv4, payload: Bytes)
    ensures var step := HandleAdminRequest(cfg, s, src, srcIP, payload);
            var req := cfg.decodeAdmin(payload);
            if req.None? then step == Step(s, [])
            else
              (forall o :: o in step.outs && o.Send? && o.packet.AdminReply? ==>
                 o.packet.ok == RequestSucceeds(cfg, s, src, req.value)) &&
              (srcIP in s.ipEndpoints ==>
                 srcIP in step.state.ipEndpoints &&
                 Send(step.state.ipEndpoints[srcIP], AdminReply(RequestSucceeds(cfg, s, src, req.value))) in step.outs)
  {
    var req := cfg.decodeAdmin(payload);
    if req.Some? {
      CommandSendsNoReply(cfg, s, req.value.command, req.value.target, req.value.to);
    }
  }

  /** So the datagram that brings it is answered: the request is what is signed, the answer goes to its source. */
  lemma SignedRequestIsAnswered(cfg: Config, s: ServerState, env: Envelope, remote: Endpoint, now: nat,
                                m: SignedMessage, src: Machine)
    requires env.typ == 0x32 && Authenticated(cfg, s.table, env) == Some((m, src))
    ensures var step, body := HandleSigned(cfg, s, env, remote, now), env.body;
            var srcIP, req := FromBe32(body[1..5]), cfg.decodeAdmin(body[9..|body| - 64]);
            var known := s.(ipEndpoints := s.ipEndpoints[srcIP := remote]);
            if req.None? then step == Step(known, [])
            else
              srcIP in step.state.ipEndpoints &&
              Send(step.state.ipEndpoints[srcIP], AdminReply(RequestSucceeds(cfg, known, src, req.value))) in step.outs
  {
    AuthenticatedIff(cfg, s.table, env, m, src);
    MessageFields(env.body);
    AdminRequestIsAnswered(cfg, RememberIPEndpoint(s, m.srcIP.value, remote), src, m.srcIP.value, m.payload);
  }
}
