/** What the admin commands and a registration achieve, across the handlers that use them. */
module AdminEffects {
  import opened Basics
  import opened Seqs
  import opened Prefixes
  import opened Registry
  import opened Allocation
  import opened Policy
  import opened TableInvariants
  import opened Grants
  import opened ServerModel

  /**
   Denying an active user without a target blocks it, and all its machines, exactly when every revocation was written.
   */
  lemma DenyBlocksActiveUserIff(t: Table, disk: Disk, user: Name)
    requires GetUser(t, user).Some? && GetUser(t, user).value.status == Active
    ensures var t' := ServerDeny(t, disk, user, [], []).0;
            GetUser(t', user).Some? &&
            (GetUser(t', user).value.status == Blocked <==> RevocationsWritten(t, disk, user)) &&
            t'.machines == if RevocationsWritten(t, disk, user)
                           then Restatus(t.machines, user, {Pending, Active, Blocked}, Blocked) else t.machines
  {
    var targets := GrantsOf(t.grants, user);
    var (t1, outcome) := RevokeAll(t, disk, user, targets);
    RevokeAllDoneIff(t, disk, user, targets);
    RevokeAllEffect(t, disk, user, targets);
    var i := FindUser(t, user);
    assert NamedUser(user)(t.users[i]);
    if outcome.Done? {
      var t' := Block(t1, disk, user, []).0;
      assert NamedUser(user)(t'.users[i]);
      assert forall j :: 0 <= j < i ==> !NamedUser(user)(t'.users[j]);
      assert FindUser(t', user) == i;
    }
  }

  /** Denying an active machine without a target blocks that row, and nothing else, under the same condition. */
  lemma DenyBlocksActiveMachineIff(t: Table, disk: Disk, user: Name, machine: Name)
    requires machine != [] && GetMachine(t, user, machine).Some? && GetMachine(t, user, machine).value.status == Active
    ensures var t', k := ServerDeny(t, disk, user, machine, []).0, FindMachine(t, user, machine);
            k < |t.machines| && t'.users == t.users &&
            t'.machines == if RevocationsWritten(t, disk, JoinKey(user, machine))
                           then t.machines[k := t.machines[k].(status := Blocked)] else t.machines
  {
    var subject := JoinKey(user, machine);
    RevokeAllDoneIff(t, disk, subject, GrantsOf(t.grants, subject));
    RevokeAllEffect(t, disk, subject, GrantsOf(t.grants, subject));
    var t1 := RevokeAll(t, disk, subject, GrantsOf(t.grants, subject)).0;
    assert GetMachine(t1, user, machine) == GetMachine(t, user, machine);
  }

  /** Denying a pending machine removes exactly the rows of that user and name. */
  lemma DenyErasesPendingMachine(t: Table, disk: Disk, user: Name, machine: Name)
    requires machine != [] && GetMachine(t, user, machine).Some? && GetMachine(t, user, machine).value.status == Pending
    ensures var t' := DenyRow(t, disk, user, machine).0;
            && t'.users == t.users && t'.grants == t.grants && GetMachine(t', user, machine).None?
            && (forall m :: m in t'.machines <==> m in t.machines && !(m.user == user && m.name == machine))
  {
    var t' := DenyRow(t, disk, user, machine).0;
    assert t'.machines == Filter(t.machines, NotMachine(user, machine));
    assert forall m :: NotMachine(user, machine)(m) <==> !(m.user == user && m.name == machine);
    if GetMachine(t', user, machine).Some? {
      FoundMachine(t', user, machine);
    }
  }

  /** The user, or the machine, that an allow command names is active. */
  predicate ActiveSubject(t: Table, user: Name, machine: Name) {
    if machine == [] then GetUser(t, user).Some? && GetUser(t, user).value.status == Active
    else GetMachine(t, user, machine).Some? && GetMachine(t, user, machine).value.status == Active
  }

  lemma BlockingWritesOnce(t: Table, disk: Disk, user: Name, machine: Name)
    requires ActiveSubject(t, user, machine)
    ensures DenyRow(t, disk, user, machine).1.Done? <==> disk(t.writes)
  {
  }

  lemma SameRowsSameSubject(t: Table, t': Table, user: Name, machine: Name)
    requires t'.users == t.users && t'.machines == t.machines
    ensures ActiveSubject(t', user, machine) <==> ActiveSubject(t, user, machine)
  {
  }

  /** Denying an active user or machine makes one write for each grant and one for the row. */
  lemma DenyDoneIff(t: Table, disk: Disk, user: Name, machine: Name)
    requires ActiveSubject(t, user, machine)
    ensures ServerDeny(t, disk, user, machine, []).1.Done? <==>
            RevocationsWritten(t, disk, Subject(user, machine)) &&
            disk(t.writes + |GrantsOf(t.grants, Subject(user, machine))|)
  {
    var subject := Subject(user, machine);
    var targets := GrantsOf(t.grants, subject);
    RevokeAllDoneIff(t, disk, subject, targets);
    RevokeAllTouchesGrantsOnly(t, disk, subject, targets);
    var t1 := RevokeAll(t, disk, subject, targets).0;
    SameRowsSameSubject(t, t1, user, machine);
    BlockingWritesOnce(t1, disk, user, machine);
  }

  lemma BlockedThenActive(ms: seq<Machine>, user: Name)
    ensures var ms' := Restatus(Restatus(ms, user, {Pending, Active, Blocked}, Blocked), user, {Blocked}, Active);
            |ms'| == |ms| && forall j :: 0 <= j < |ms| ==>
              ms'[j] == if ms[j].user == user then ms[j].(status := Active) else ms[j]
  {
    var blocked := Restatus(ms, user, {Pending, Active, Blocked}, Blocked);
    forall j | 0 <= j < |ms|
      ensures blocked[j] == if ms[j].user == user then ms[j].(status := Blocked) else ms[j]
    {
      assert ms[j].status.Pending? || ms[j].status.Active? || ms[j].status.Blocked?;
    }
  }

  /** Unblocking undoes blocking exactly for an active user all of whose machines were active. */
  lemma UnblockUndoesBlockIff(t: Table, disk: Disk, user: Name)
    requires GetUser(t, user).Some?
    ensures var t' := Unblock(Block(t, disk, user, []).0, disk, user, []).0;
            t'.users == t.users && t'.machines == t.machines <==>
            GetUser(t, user).value.status == Active &&
            forall m :: m in t.machines && m.user == user ==> m.status == Active
  {
    var i := FindUser(t, user);
    assert NamedUser(user)(t.users[i]);
    var t1 := Block(t, disk, user, []).0;
    assert NamedUser(user)(t1.users[i]);
    assert forall j :: 0 <= j < i ==> !NamedUser(user)(t.users[j]) && t1.users[j] == t.users[j];
    assert FindUser(t1, user) == i;
    var t' := Unblock(t1, disk, user, []).0;
    assert t'.users == t.users[i := t.users[i].(status := Active)];
    BlockedThenActive(t.machines, user);
    assert t'.users[i] == t.users[i].(status := Active);
    if t'.machines == t.machines {
      forall m | m in t.machines && m.user == user
        ensures m.status == Active
      {
        var j :| 0 <= j < |t.machines| && t.machines[j] == m;
        assert t'.machines[j].status == Active;
      }
    }
  }

  lemma StatusKeepsUsed(t: Table, i: nat, status: Status)
    requires i < |t.machines|
    ensures Used(t.machines[i := t.machines[i].(status := status)]) == Used(t.machines)
  {
    var ms, ms' := t.machines, t.machines[i := t.machines[i].(status := status)];
    forall ip
      ensures ip in Used(ms) <==> ip in Used(ms')
    {
      if ip in Used(ms) {
        var j :| 0 <= j < |ms| && ms[j].vpnIP == Some(ip);
        assert ms'[j] in ms' && ms'[j].vpnIP == Some(ip);
      }
      if ip in Used(ms') {
        var j :| 0 <= j < |ms'| && ms'[j].vpnIP == Some(ip);
        assert ms[j] in ms && ms[j].vpnIP == Some(ip);
      }
    }
  }

  /** The address allocation has for a pin: the pinned one, or without a pin the lowest free one. */
  ghost predicate Promised(t: Table, p: Prefix, desired: int, a: Ipv4) {
    Contains(p, a) && a !in Used(t.machines) && Some(a) != ServerIP(p) &&
    if desired != 0 then LastOctet(a) == desired
    else Candidate(p, a) && forall b: Ipv4 :: Candidate(p, b) && b < a ==> b in Used(t.machines)
  }

  /** There is such an address: the pin is usable and free, or without a pin the block is not full. */
  ghost predicate AddressAvailable(t: Table, p: Prefix, desired: int) {
    if desired == 0 then Holders(t.machines) < Capacity(p) else PinFree(t, p, desired)
  }

  /** Allocation after a pending row has become active is the allocation before. */
  lemma ApprovedAllocation(t: Table, i: nat, p: Prefix, desired: int)
    requires i < |t.machines|
    ensures var t1 := SetMachine(t, i, t.machines[i].(status := Active));
            (Allocate(t1, p, desired).Ok? <==> Allocate(t, p, desired).Ok?) &&
            (Allocate(t, p, desired).Ok? ==> Allocate(t1, p, desired) == Allocate(t, p, desired) &&
                                             Promised(t, p, desired, Allocate(t, p, desired).value)) &&
            (AddressAvailable(t, p, desired) ==> Allocate(t, p, desired).Ok?)
  {
    StatusKeepsUsed(t, i, Active);
    AutomaticAllocationExact(t, p);
    if Allocate(t, p, desired).Ok? {
      AllocationSound(t, p, desired);
    }
    if desired != 0 {
      PinFreeIff(t, p, desired);
    } else if AddressAvailable(t, p, desired) {
      AllocationSucceedsBelowCapacity(t, p);
    }
  }

  /** What becomes of a pending row that is approved: active, with the promised address once that write comes off. */
  ghost predicate Approved(cfg: Config, t: Table, m: Option<Machine>, was: Machine, addressed: bool) {
    m.Some? && m.value == was.(status := Active, vpnIP := m.value.vpnIP) &&
    if addressed then m.value.vpnIP.Some? && Promised(t, cfg.subnet, was.desired, m.value.vpnIP.value)
    else m.value.vpnIP == was.vpnIP
  }

  /** The two writes of an approval: the status, then the address. */
  lemma ApproveAndMove(cfg: Config, t: Table, user: Name, machine: Name)
    requires machine != [] && GetUser(t, user).Some? && GetUser(t, user).value.status == Active
    requires GetMachine(t, user, machine).Some? && GetMachine(t, user, machine).value.status == Pending
    ensures var was, (t1, allowed) := GetMachine(t, user, machine).value, Allow(t, cfg.disk, user, machine);
            var (t2, moved) := MoveAddress(cfg, t1, user, machine, was.desired);
            var found := Allocate(t, cfg.subnet, was.desired).Ok?;
            && GetMachine(t1, user, machine) == Some(was.(status := Active))
            && (allowed.Done? <==> cfg.disk(t.writes)) && (moved.Done? <==> found && cfg.disk(t.writes + 1))
            && Approved(cfg, t, GetMachine(t2, user, machine), was, found)
            && (AddressAvailable(t, cfg.subnet, was.desired) ==> found)
  {
    var i := FindMachine(t, user, machine);
    FoundMachine(t, user, machine);
    var t1 := Allow(t, cfg.disk, user, machine).0;
    FindMachineStable(t, i, t.machines[i].(status := Active), user, machine);
    ApprovedAllocation(t, i, cfg.subnet, t.machines[i].desired);
    var ip := Allocate(t1, cfg.subnet, t.machines[i].desired);
    if ip.Ok? {
      FindMachineStable(t1, i, t1.machines[i].(vpnIP := Some(ip.value)), user, machine);
    }
  }

  /**
   Approving a pending machine of an active user: it becomes active; if that write succeeds and an address can be
   allocated it gets it; the command succeeds exactly when the address was written too.
   */
  lemma ApprovalGivesAddress(cfg: Config, s: ServerState, user: Name, machine: Name, to: Name)
    requires machine != []
    requires GetUser(s.table, user).Some? && GetUser(s.table, user).value.status == Active
    requires var m := GetMachine(s.table, user, machine); m.Some? && m.value.status == Pending && m.value.vpnIP.None?
    ensures var was, step := GetMachine(s.table, user, machine).value, AllowMachine(cfg, s, user, machine, to);
            var found := Allocate(s.table, cfg.subnet, was.desired).Ok?;
            Approved(cfg, s.table, GetMachine(step.state.table, user, machine), was,
                     cfg.disk(s.table.writes) && found) &&
            (step.outcome.Done? <==> cfg.disk(s.table.writes) && found && cfg.disk(s.table.writes + 1)) &&
            (AddressAvailable(s.table, cfg.subnet, was.desired) ==> found)
  {
    ApproveAndMove(cfg, s.table, user, machine);
  }

  /** That approval is pushed to the endpoint the machine joined from, which becomes the endpoint of its address. */
  lemma ApprovalIsPushed(cfg: Config, s: ServerState, user: Name, machine: Name)
    requires GetMachine(s.table, user, machine).Some? && JoinKey(user, machine) in s.endpoints
    requires ApproveMachine(cfg, s, user, machine).outcome.Done?
    ensures var step := ApproveMachine(cfg, s, user, machine);
            var m, to := GetMachine(step.state.table, user, machine), s.endpoints[JoinKey(user, machine)];
            m.Some? && m.value.vpnIP.Some? && step.outs == [Send(to, ApproveNotify(m.value.vpnIP.value))] &&
            m.value.vpnIP.value in step.state.ipEndpoints && step.state.ipEndpoints[m.value.vpnIP.value] == to
  {
    var t, i := s.table, FindMachine(s.table, user, machine);
    FoundMachine(t, user, machine);
    var m := t.machines[i];
    if m.vpnIP.None? {
      FindMachineStable(t, i, m.(vpnIP := Some(Allocate(t, cfg.subnet, m.desired).value)), user, machine);
    }
  }

  /** The same for a pending machine of the active admin user as it joins, with no order of the administrator. */
  lemma AdminMachineApproved(cfg: Config, t: Table, machine: Name)
    requires machine != []
    requires GetUser(t, cfg.admin).Some? && GetUser(t, cfg.admin).value.status == Active
    requires var m := GetMachine(t, cfg.admin, machine); m.Some? && m.value.status == Pending
    ensures var was := GetMachine(t, cfg.admin, machine).value;
            var (t', approved) := AutoApproveAdmin(cfg, t, cfg.admin, machine);
            var found := Allocate(t, cfg.subnet, was.desired).Ok?;
            Approved(cfg, t, GetMachine(t', cfg.admin, machine), was, cfg.disk(t.writes) && found) &&
            (approved <==> cfg.disk(t.writes) && found && cfg.disk(t.writes + 1)) &&
            (AddressAvailable(t, cfg.subnet, was.desired) ==> found)
  {
    ApproveAndMove(cfg, t, cfg.admin, machine);
  }

  lemma UserReplaced(t: Table, t': Table, name: Name, u: User)
    requires GetUser(t, name).Some? && u.name == name
    requires var i := FindUser(t, name); i < |t.users| && t'.users == t.users[i := u]
    ensures GetUser(t', name) == Some(u)
  {
    var i := FindUser(t, name);
    assert NamedUser(name)(t'.users[i]);
    assert forall j :: 0 <= j < i ==> !NamedUser(name)(t.users[j]) && t'.users[j] == t.users[j];
    assert FindUser(t', name) == i;
  }

  /** Allowing a known user puts it among the active ones. */
  lemma AllowedUser(cfg: Config, s: ServerState, user: Name, to: Name)
    requires GetUser(s.table, user).Some?
    ensures var was := GetUser(s.table, user).value;
            GetUser(AllowUser(cfg, s, user, to).state.table, user) == Some(was.(status := Active))
  {
    var t, i := s.table, FindUser(s.table, user);
    assert NamedUser(user)(t.users[i]);
    assert t.users[i := t.users[i]] == t.users;
    UserReplaced(t, AllowUser(cfg, s, user, to).state.table, user, t.users[i].(status := Active));
  }

  /**
   After `allow user` a known user is active; machines change only if it was blocked, and only from blocked to active.
   */
  lemma AllowUserActivates(cfg: Config, s: ServerState, user: Name, to: Name)
    requires GetUser(s.table, user).Some?
    ensures var was, t' := GetUser(s.table, user).value, AllowUser(cfg, s, user, to).state.table;
            GetUser(t', user) == Some(was.(status := Active)) && |t'.machines| == |s.table.machines| &&
            forall i :: 0 <= i < |t'.machines| ==>
              t'.machines[i] ==
                if was.status == Blocked && s.table.machines[i].user == user && s.table.machines[i].status == Blocked
                then s.table.machines[i].(status := Active) else s.table.machines[i]
  {
    AllowedUser(cfg, s, user, to);
    assert AllowUser(cfg, s, user, to).state.table.machines ==
           if GetUser(s.table, user).value.status == Blocked then Restatus(s.table.machines, user, {Blocked}, Active)
           else s.table.machines;
  }

  /** Denying a pending user leaves no trace of it and every other row as it was. */
  lemma DenyErasesPendingUser(t: Table, disk: Disk, user: Name)
    requires GetUser(t, user).Some? && GetUser(t, user).value.status == Pending
    ensures var t' := DenyRow(t, disk, user, []).0;
            (forall u :: u in t'.users <==> u in t.users && u.name != user) &&
            (forall m :: m in t'.machines <==> m in t.machines && m.user != user) && t'.grants == t.grants
  {
    var t' := DenyRow(t, disk, user, []).0;
    assert t'.users == Filter(t.users, NotNamedUser(user)) && t'.machines == Filter(t.machines, NotOfUser(user));
    assert forall u :: NotNamedUser(user)(u) <==> u.name != user;
    assert forall m :: NotOfUser(user)(m) <==> m.user != user;
  }

  /** The machines a subject stands for. */
  predicate Covers(user: Name, machine: Name, src: Machine) {
    src.user == user && (machine == [] || src.name == machine)
  }

  lemma ParseTargetOfSubject(user: Name, machine: Name)
    requires user != [] && SLASH !in user
    ensures ParseTarget(Subject(user, machine)) == Ok((user, machine))
  {
    if machine == [] {
      ParseTargetOfUser(user);
    } else {
      ParseTargetOfMachine(user, machine);
    }
  }

  /**
   Allow with a target opens, for the active user or machine, exactly its direction to the admin machines so named.
   */
  lemma GrantCommandOpensDirection(cfg: Config, s: ServerState, user: Name, machine: Name, to: Name, src: Machine,
                                   dst: Machine)
    requires user != [] && SLASH !in user && SLASH !in src.user && ActiveSubject(s.table, user, machine)
    ensures var t' := AdminCommand(cfg, s, AllowCommand, Subject(user, machine), to).state.table;
            AllowRelay(cfg.admin, t', src, dst) <==>
            AllowRelay(cfg.admin, s.table, src, dst) ||
            (Covers(user, machine, src) && dst.user == cfg.admin && dst.name == to)
  {
    ParseTargetOfSubject(user, machine);
    GrantEffect(s.table, cfg.disk, user, machine, to, src.user, src.name, dst.name);
  }

  /** It opens the direction to the server exactly when the target is the server's name, or the direction was open. */
  lemma GrantOpensServerIff(cfg: Config, s: ServerState, user: Name, machine: Name, to: Name, src: Machine)
    requires user != [] && SLASH !in user && ActiveSubject(s.table, user, machine) && Covers(user, machine, src)
    ensures var t' := AdminCommand(cfg, s, AllowCommand, Subject(user, machine), to).state.table;
            var server := ServerMachine(cfg.admin);
            AllowRelay(cfg.admin, t', src, server) <==> to == SERVER_NAME || AllowRelay(cfg.admin, s.table, src, server)
  {
    GrantCommandOpensDirection(cfg, s, user, machine, to, src, ServerMachine(cfg.admin));
  }

  /** An empty target is no name for the server: a direction that was closed stays closed. */
  lemma EmptyTargetIsNotTheServer(cfg: Config, s: ServerState, user: Name, machine: Name, src: Machine)
    requires user != [] && SLASH !in user && ActiveSubject(s.table, user, machine) && Covers(user, machine, src)
    requires !AllowRelay(cfg.admin, s.table, src, ServerMachine(cfg.admin))
    ensures var empty := AdminCommand(cfg, s, AllowCommand, Subject(user, machine), []).state.table;
            var named := AdminCommand(cfg, s, AllowCommand, Subject(user, machine), SERVER_NAME).state.table;
            !AllowRelay(cfg.admin, empty, src, ServerMachine(cfg.admin)) &&
            AllowRelay(cfg.admin, named, src, ServerMachine(cfg.admin))
  {
    GrantOpensServerIff(cfg, s, user, machine, [], src);
    GrantOpensServerIff(cfg, s, user, machine, SERVER_NAME, src);
  }

  /**
   A join of a known user that is not refused touches one row: it has the key, the replied status and the asked name.
   */
  lemma RegistrationEffect(t: Table, disk: Disk, user: Name, machine: Name, public: Bytes, desired: int)
    requires GetUser(t, user).Some? && GetUser(t, user).value.status != Blocked
    requires RegisterJoin(t, disk, user, machine, public, [], [], desired).1.Ok?
    ensures var (t', r) := RegisterJoin(t, disk, user, machine, public, [], [], desired);
            var k := First(t.machines, HasPublic(public));
            && k < |t'.machines| && t'.users == t.users && t'.machines[k].public == public
            && t'.machines[k].status == r.value
            && (r.value != Blocked ==> t'.machines[k].name == machine)
            && (r.value != Blocked && desired != 0 ==> t'.machines[k].desired == desired)
            && (k < |t.machines| ==> |t'.machines| == |t.machines| && t'.machines[k].user == t.machines[k].user &&
                                     t'.machines[k].status == t.machines[k].status &&
                                     t'.machines[k].vpnIP == t.machines[k].vpnIP)
            && (k == |t.machines| ==> |t'.machines| == k + 1 &&
                                      t'.machines[k] == Machine(user, machine, desired, public, None, Pending))
            && (forall i :: 0 <= i < |t.machines| && i != k ==> t'.machines[i] == t.machines[i])
  {
    var k := First(t.machines, HasPublic(public));
    if k < |t.machines| {
      assert HasPublic(public)(t.machines[k]);
    }
  }

  /** The policy notice goes to exactly the machines with a known endpoint, each with its own status. */
  lemma {:induction false} BroadcastReachesExactly(cfg: Config, ms: seq<Machine>, ipEndpoints: map<Ipv4, Endpoint>,
                                                   o: Output)
    ensures o in Broadcast(cfg, ms, ipEndpoints) <==>
            exists m :: m in ms && m.vpnIP.Some? && m.vpnIP.value in ipEndpoints &&
                        o == Send(ipEndpoints[m.vpnIP.value], PolicyNotice(cfg, m.status))
  {
    if ms == [] {
    } else {
      var front, last := ms[..|ms| - 1], ms[|ms| - 1];
      BroadcastReachesExactly(cfg, front, ipEndpoints, o);
      assert ms == front + [last];
    }
  }

  /** A deny that is carried out is broadcast under the table it leaves. */
  lemma DenyIsBroadcast(cfg: Config, s: ServerState, user: Name, machine: Name)
    requires user != [] && SLASH !in user && ServerDeny(s.table, cfg.disk, user, machine, []).1.Done?
    ensures var step := AdminCommand(cfg, s, DenyCommand, Subject(user, machine), []);
            step.outcome.Done? && step.state.table == ServerDeny(s.table, cfg.disk, user, machine, []).0 &&
            step.outs == Broadcast(cfg, step.state.table.machines, s.ipEndpoints)
  {
    ParseTargetOfSubject(user, machine);
  }
}
