/** The grant list refines a set of (subject, target) pairs. */
module Grants {
  import opened Basics
  import opened Seqs
  import opened Registry
  import opened ServerModel
  import opened ServerFrames

  ghost predicate NoDuplicates(gs: seq<Grant>) {
    forall i, j :: 0 <= i < j < |gs| ==> gs[i] != gs[j]
  }

  function GrantSet(gs: seq<Grant>): set<Grant> {
    set g | g in gs
  }

  lemma FilterKeepsNoDuplicates(gs: seq<Grant>, keep: Grant -> bool)
    requires NoDuplicates(gs)
    ensures NoDuplicates(Filter(gs, keep))
  {
    var at := FilterPositions(gs, keep);
  }

  /** Grant adds one pair to the set and keeps the list free of duplicates. */
  lemma GrantRefinesInsert(t: Table, disk: Disk, subject: Bytes, target: Name)
    requires NoDuplicates(t.grants)
    ensures var gs' := GrantTo(t, disk, subject, target).0.grants;
            NoDuplicates(gs') && GrantSet(gs') == GrantSet(t.grants) + {Grant(subject, target)} && t.grants <= gs'
  {
  }

  /** Revoke takes one pair out of the set and keeps the order of the rest. */
  lemma RevokeRefinesRemove(t: Table, disk: Disk, subject: Bytes, target: Name)
    requires NoDuplicates(t.grants)
    ensures var gs' := Revoke(t, disk, subject, target).0.grants;
            NoDuplicates(gs') && GrantSet(gs') == GrantSet(t.grants) - {Grant(subject, target)}
  {
    FilterKeepsNoDuplicates(t.grants, NotGrant(subject, target));
    forall g
      ensures g in Filter(t.grants, NotGrant(subject, target)) <==> g in t.grants && g != Grant(subject, target)
    {
    }
  }

  /** Granting again changes nothing and writes nothing. */
  lemma GrantIdempotent(t: Table, disk: Disk, subject: Bytes, target: Name)
    ensures var once := GrantTo(t, disk, subject, target).0; GrantTo(once, disk, subject, target) == (once, Done)
  {
    var once := GrantTo(t, disk, subject, target).0;
    if Grant(subject, target) !in t.grants {
      assert once.grants[|t.grants|] == Grant(subject, target);
    }
  }

  predicate UserGranted(t: Table, user: Name, target: Name) {
    Grant(user, target) in t.grants
  }

  predicate MachineGranted(t: Table, user: Name, machine: Name, target: Name) {
    Grant(JoinKey(user, machine), target) in t.grants
  }

  lemma GrantedByUserOrMachine(t: Table, user: Name, machine: Name, target: Name)
    ensures IsGranted(t, user, machine, target) <==>
            UserGranted(t, user, target) || MachineGranted(t, user, machine, target)
  {
  }

  /** Subjects of slash-free users denote one user, or one machine of one user. */
  lemma SubjectsUnambiguous(user: Name, machine: Name, user': Name, machine': Name)
    requires SLASH !in user && SLASH !in user'
    ensures Subject(user, machine) == user' <==> user == user' && machine == []
    ensures Subject(user, machine) == JoinKey(user', machine') <==>
            user == user' && machine == machine' && machine != []
  {
    JoinKeyInjective(user, machine, user', machine');
    assert JoinKey(user, machine)[|user|] == SLASH;
    assert JoinKey(user', machine')[|user'|] == SLASH;
  }

  /** A grant opens exactly the named target, to the named machine or to every machine of the named user. */
  lemma GrantEffect(t: Table, disk: Disk, user: Name, machine: Name, target: Name, u: Name, m: Name, x: Name)
    requires SLASH !in user && SLASH !in u
    ensures IsGranted(GrantTo(t, disk, Subject(user, machine), target).0, u, m, x) <==>
            IsGranted(t, u, m, x) || (x == target && u == user && (machine == [] || m == machine))
  {
    var t' := GrantTo(t, disk, Subject(user, machine), target).0;
    GrantedByUserOrMachine(t, u, m, x);
    GrantedByUserOrMachine(t', u, m, x);
    SubjectsUnambiguous(user, machine, u, m);
    assert forall g :: g in t'.grants <==> g in t.grants || g == Grant(Subject(user, machine), target) by {
      if Grant(Subject(user, machine), target) !in t.grants {
        assert t'.grants[|t.grants|] == Grant(Subject(user, machine), target);
      }
    }
  }

  /** A revocation takes away exactly the named pair: the other level of grant still counts. */
  lemma RevokeEffect(t: Table, disk: Disk, user: Name, machine: Name, target: Name, u: Name, m: Name, x: Name)
    requires SLASH !in user && SLASH !in u
    ensures IsGranted(Revoke(t, disk, Subject(user, machine), target).0, u, m, x) <==>
            (UserGranted(t, u, x) && !(x == target && u == user && machine == [])) ||
            (MachineGranted(t, u, m, x) && !(x == target && u == user && m == machine && machine != []))
  {
    var t' := Revoke(t, disk, Subject(user, machine), target).0;
    GrantedByUserOrMachine(t', u, m, x);
    SubjectsUnambiguous(user, machine, u, m);
  }

  lemma {:induction false} RevokeAllTouchesGrantsOnly(t: Table, disk: Disk, subject: Bytes, targets: seq<Name>)
    ensures var t' := RevokeAll(t, disk, subject, targets).0; t'.users == t.users && t'.machines == t.machines
    decreases |targets|
  {
    if targets == [] {
    } else {
      RevokeAllTouchesGrantsOnly(Revoke(t, disk, subject, targets[0]).0, disk, subject, targets[1..]);
    }
  }

  /** What a series of revocations of one subject leaves, finished or stopped by a failed write. */
  lemma {:induction false} RevokeAllEffect(t: Table, disk: Disk, subject: Bytes, targets: seq<Name>)
    ensures var (t', outcome) := RevokeAll(t, disk, subject, targets);
            && t'.users == t.users && t'.machines == t.machines
            && Filter(t'.grants, NotOfSubject(subject)) == Filter(t.grants, NotOfSubject(subject))
            && (forall g :: g in t'.grants ==> g in t.grants)
            && (outcome.Done? ==> forall target :: target in targets ==> Grant(subject, target) !in t'.grants)
    decreases |targets|
  {
    if targets == [] {
    } else {
      var (t1, outcome) := Revoke(t, disk, subject, targets[0]);
      FilterAfterWeaker(t.grants, NotGrant(subject, targets[0]), NotOfSubject(subject));
      assert Grant(subject, targets[0]) !in t1.grants;
      if outcome.Done? {
        RevokeAllEffect(t1, disk, subject, targets[1..]);
      }
    }
  }

  /** Revoking the listed targets finishes exactly when each of its writes succeeds. */
  lemma {:induction false} RevokeAllDoneIff(t: Table, disk: Disk, subject: Bytes, targets: seq<Name>)
    ensures var (t', outcome) := RevokeAll(t, disk, subject, targets);
            (outcome.Done? <==> forall n :: t.writes <= n < t.writes + |targets| ==> disk(n)) &&
            (outcome.Done? ==> t'.writes == t.writes + |targets|)
    decreases |targets|
  {
    if targets == [] {
    } else {
      var (t1, outcome) := Revoke(t, disk, subject, targets[0]);
      assert t1.writes == t.writes + 1 && (outcome.Done? <==> disk(t.writes));
      if outcome.Done? {
        RevokeAllDoneIff(t1, disk, subject, targets[1..]);
      }
    }
  }

  /** The disk takes every write that revoking all grants of `subject` makes. */
  ghost predicate RevocationsWritten(t: Table, disk: Disk, subject: Bytes) {
    forall n :: t.writes <= n < t.writes + |GrantsOf(t.grants, subject)| ==> disk(n)
  }

  lemma DenyRowKeepsGrants(t: Table, disk: Disk, user: Name, machine: Name)
    ensures DenyRow(t, disk, user, machine).0.grants == t.grants
  {
  }

  lemma {:induction false} NoGrantsOf(gs: seq<Grant>, subject: Bytes)
    requires forall g :: g in gs ==> g.subject != subject
    ensures GrantsOf(gs, subject) == []
  {
    if gs == [] {
    } else {
      NoGrantsOf(gs[..|gs| - 1], subject);
    }
  }

  /**
   Deny without a target: the grants of every other subject stay, in order; once all revocations are
   written the subject has none left, and what remains is exactly the others.
   */
  lemma DenyWithoutTargetClearsSubject(t: Table, disk: Disk, user: Name, machine: Name)
    ensures var subject := Subject(user, machine);
            var t' := ServerDeny(t, disk, user, machine, []).0;
            && Filter(t'.grants, NotOfSubject(subject)) == Filter(t.grants, NotOfSubject(subject))
            && (RevocationsWritten(t, disk, subject) ==>
                  t'.grants == Filter(t.grants, NotOfSubject(subject)) && GrantsOf(t'.grants, subject) == [])
  {
    var subject := Subject(user, machine);
    var targets := GrantsOf(t.grants, subject);
    var (t1, outcome) := RevokeAll(t, disk, subject, targets);
    RevokeAllDoneIff(t, disk, subject, targets);
    RevokeAllEffect(t, disk, subject, targets);
    DenyRowKeepsGrants(t1, disk, user, machine);
    if outcome.Done? {
      assert forall g :: g in t1.grants && g.subject == subject ==> g == Grant(subject, g.target);
      FilterAll(t1.grants, NotOfSubject(subject));
      NoGrantsOf(t1.grants, subject);
    }
  }

  // Over runs.

  lemma {:induction false} RevokeAllKeepsNoDuplicates(t: Table, disk: Disk, subject: Bytes, targets: seq<Name>)
    requires NoDuplicates(t.grants)
    ensures NoDuplicates(RevokeAll(t, disk, subject, targets).0.grants)
    decreases |targets|
  {
    if targets == [] {
    } else {
      FilterKeepsNoDuplicates(t.grants, NotGrant(subject, targets[0]));
      RevokeAllKeepsNoDuplicates(Revoke(t, disk, subject, targets[0]).0, disk, subject, targets[1..]);
    }
  }

  lemma MoveKeepsGrants(cfg: Config, t: Table, user: Name, machine: Name, desired: int)
    ensures MoveAddress(cfg, t, user, machine, desired).0.grants == t.grants
  {
  }

  lemma StatusChangesKeepGrants(t: Table, disk: Disk, user: Name, machine: Name)
    ensures Allow(t, disk, user, machine).0.grants == t.grants
    ensures Unblock(t, disk, user, machine).0.grants == t.grants
  {
  }

  lemma AllowUserGrants(cfg: Config, s: ServerState, user: Name, to: Name)
    ensures AllowUser(cfg, s, user, to).state.table.grants in
            {s.table.grants, GrantTo(s.table, cfg.disk, user, to).0.grants}
  {
    StatusChangesKeepGrants(s.table, cfg.disk, user, []);
  }

  lemma ApproveKeepsGrants(cfg: Config, s: ServerState, user: Name, machine: Name)
    ensures ApproveMachine(cfg, s, user, machine).state.table.grants == s.table.grants
  {
    var m := GetMachine(s.table, user, machine);
    if m.Some? {
      MoveKeepsGrants(cfg, s.table, user, machine, m.value.desired);
    }
  }

  lemma AllowMachineGrants(cfg: Config, s: ServerState, user: Name, machine: Name, to: Name)
    ensures AllowMachine(cfg, s, user, machine, to).state.table.grants in
            {s.table.grants, GrantTo(s.table, cfg.disk, JoinKey(user, machine), to).0.grants}
  {
    StatusChangesKeepGrants(s.table, cfg.disk, user, machine);
    ApproveKeepsGrants(cfg, s.(table := Allow(s.table, cfg.disk, user, machine).0), user, machine);
  }

  lemma AllowKeepsNoDuplicates(cfg: Config, s: ServerState, user: Name, machine: Name, to: Name)
    requires NoDuplicates(s.table.grants)
    ensures NoDuplicates(ServerAllow(cfg, s, user, machine, to).state.table.grants)
  {
    GrantRefinesInsert(s.table, cfg.disk, Subject(user, machine), to);
    if machine == [] {
      AllowUserGrants(cfg, s, user, to);
    } else {
      AllowMachineGrants(cfg, s, user, machine, to);
    }
  }

  lemma DenyKeepsNoDuplicates(t: Table, disk: Disk, user: Name, machine: Name, to: Name)
    requires NoDuplicates(t.grants)
    ensures NoDuplicates(ServerDeny(t, disk, user, machine, to).0.grants)
  {
    var subject := Subject(user, machine);
    RevokeRefinesRemove(t, disk, subject, to);
    RevokeAllKeepsNoDuplicates(t, disk, subject, GrantsOf(t.grants, subject));
    DenyRowKeepsGrants(RevokeAll(t, disk, subject, GrantsOf(t.grants, subject)).0, disk, user, machine);
  }

  lemma AdminKeepsNoDuplicates(cfg: Config, s: ServerState, command: Command, subject: Bytes, to: Name)
    requires NoDuplicates(s.table.grants)
    ensures NoDuplicates(AdminCommand(cfg, s, command, subject, to).state.table.grants)
  {
    if ParseTarget(subject).Ok? {
      var (user, machine) := ParseTarget(subject).value;
      AllowKeepsNoDuplicates(cfg, s, user, machine, to);
      DenyKeepsNoDuplicates(s.table, cfg.disk, user, machine, to);
    }
  }

  lemma RegisterKeepsGrants(t: Table, disk: Disk, user: Name, machine: Name, public: Bytes,
                            salt: Bytes, verifier: Bytes, desired: int)
    ensures RegisterJoin(t, disk, user, machine, public, salt, verifier, desired).0.grants == t.grants
  {
  }

  lemma UpkeepKeepsGrants(cfg: Config, t: Table, user: Name, machine: Name, desired: int)
    ensures EnsureInSubnet(cfg, t, user, machine).grants == t.grants
    ensures RebindDesired(cfg, t, user, machine, desired).grants == t.grants
  {
    MoveKeepsGrants(cfg, t, user, machine, DesiredOf(t, user, machine));
    MoveKeepsGrants(cfg, t, user, machine, desired);
  }

  lemma JoinKeepsGrants(cfg: Config, t: Table, msg: JoinProof)
    ensures JoinTable(cfg, t, msg).0.grants == t.grants
  {
    RegisterKeepsGrants(t, cfg.disk, msg.user, msg.machine, msg.public, [], [], msg.desired);
    var t1 := RegisterJoin(t, cfg.disk, msg.user, msg.machine, msg.public, [], [], msg.desired).0;
    UpkeepKeepsGrants(cfg, t1, msg.user, msg.machine, msg.desired);
    var t2 := EnsureInSubnet(cfg, t1, msg.user, msg.machine);
    UpkeepKeepsGrants(cfg, t2, msg.user, msg.machine, msg.desired);
    var t3 := RebindDesired(cfg, t2, msg.user, msg.machine, msg.desired);
    StatusChangesKeepGrants(t3, cfg.disk, msg.user, msg.machine);
    var t4 := Allow(t3, cfg.disk, msg.user, msg.machine).0;
    MoveKeepsGrants(cfg, t4, msg.user, msg.machine, DesiredOf(t4, msg.user, msg.machine));
    assert AutoApproveAdmin(cfg, t3, msg.user, msg.machine).0.grants == t3.grants;
  }

  lemma AdminRequestKeepsNoDuplicates(cfg: Config, s: ServerState, src: Machine, srcIP: Ipv4, payload: Bytes)
    requires NoDuplicates(s.table.grants)
    ensures NoDuplicates(HandleAdminRequest(cfg, s, src, srcIP, payload).state.table.grants)
  {
    var req := cfg.decodeAdmin(payload);
    if req.Some? {
      AdminKeepsNoDuplicates(cfg, s, req.value.command, req.value.target, req.value.to);
    }
  }

  lemma SignedKeepsNoDuplicates(cfg: Config, s: ServerState, env: Envelopes.Envelope, remote: Endpoint, now: nat)
    requires NoDuplicates(s.table.grants)
    ensures NoDuplicates(HandleSigned(cfg, s, env, remote, now).state.table.grants)
  {
    if env.typ != Envelopes.TYPE_ADMIN_REQUEST {
      SignedFrame(cfg, s, env, remote, now);
    } else {
      var auth := Authenticated(cfg, s.table, env);
      if auth.Some? && auth.value.0.srcIP.Some? {
        var (m, src) := auth.value;
        AdminRequestKeepsNoDuplicates(cfg, RememberIPEndpoint(s, m.srcIP.value, remote), src, m.srcIP.value, m.payload);
      }
    }
  }

  lemma RequestKeepsGrants(cfg: Config, s: ServerState, req: JoinRequest, nonce: Option<Bytes>, remote: Endpoint)
    ensures HandleJoinRequest(cfg, s, req, nonce, remote).state.table.grants == s.table.grants
  {
    RegisterKeepsGrants(s.table, cfg.disk, req.user, req.machine, req.public, req.salt, req.verifier, req.desired);
  }

  lemma StepKeepsNoDuplicates(cfg: Config, s: ServerState, e: Timed)
    requires NoDuplicates(s.table.grants)
    ensures NoDuplicates(ServerStep(cfg, s, e).state.table.grants)
  {
    match e.event
    case JoinRequestEvent(req, nonce, remote) =>
      RequestKeepsGrants(cfg, s, req, nonce, remote);
    case JoinProofEvent(msg, remote) =>
      JoinKeepsGrants(cfg, s.table, msg);
    case SignedEvent(env, remote) =>
      SignedKeepsNoDuplicates(cfg, s, env, remote, e.at);
    case AdminEvent(command, subject, to) =>
      AdminKeepsNoDuplicates(cfg, s, command, subject, to);
    case ReloadEvent(salt, verifier) =>
  }

  lemma {:induction false} ReachableGrantsHaveNoDuplicates(cfg: Config, t: Table, run: seq<Timed>)
    requires NoDuplicates(t.grants)
    ensures NoDuplicates(After(cfg, t, run).table.grants)
  {
    if run == [] {
    } else {
      ReachableGrantsHaveNoDuplicates(cfg, t, run[..|run| - 1]);
      StepKeepsNoDuplicates(cfg, After(cfg, t, run[..|run| - 1]), run[|run| - 1]);
    }
  }
}
