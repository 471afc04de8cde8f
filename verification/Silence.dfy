/**
 A blocked user over server runs: nothing from or to its machines is relayed until an accepted order allows it again.
 */
module Silence {
  import opened Basics
  import opened Seqs
  import opened Registry
  import opened TableInvariants
  import opened Grants
  import opened ServerModel
  import opened ServerFrames
  import opened RegistryRuns
  import opened AdminEffects
  import opened RelaySafety
  import opened Envelopes
  import opened Signed

  ghost predicate BlockedUser(us: seq<User>, user: Name) {
    exists u :: u in us && u.name == user && u.status == Blocked
  }

  ghost predicate AllBlocked(ms: seq<Machine>, user: Name) {
    forall m :: m in ms && m.user == user ==> m.status == Blocked
  }

  ghost predicate Silenced(t: Table, user: Name) {
    BlockedUser(t.users, user) && AllBlocked(t.machines, user)
  }

  // Elementary changes.

  lemma OtherUserKeepsBlocked(us: seq<User>, i: nat, u: User, user: Name)
    requires i < |us| && u.name == us[i].name && BlockedUser(us, user)
    requires u.name == user && us[i].status == Blocked ==> u.status == Blocked
    ensures BlockedUser(us[i := u], user)
  {
    var x :| x in us && x.name == user && x.status == Blocked;
    var j :| 0 <= j < |us| && us[j] == x;
    assert us[i := u][j] in us[i := u];
  }

  lemma RowKeepsAllBlocked(ms: seq<Machine>, i: nat, m: Machine, user: Name)
    requires i < |ms| && m.user == ms[i].user && AllBlocked(ms, user)
    requires m.user == user && ms[i].status == Blocked ==> m.status == Blocked
    ensures AllBlocked(ms[i := m], user)
  {
    assert ms[i] in ms;
    assert forall x :: x in ms[i := m] ==> x == m || x in ms;
  }

  // Operations.

  lemma MoveKeepsSilence(cfg: Config, t: Table, u: Name, machine: Name, desired: int, user: Name)
    requires Silenced(t, user)
    ensures Silenced(MoveAddress(cfg, t, u, machine, desired).0, user)
  {
    var i := FindMachine(t, u, machine);
    if i < |t.machines| && Allocate(t, cfg.subnet, desired).Ok? {
      RowKeepsAllBlocked(t.machines, i, t.machines[i].(vpnIP := Some(Allocate(t, cfg.subnet, desired).value)), user);
    }
  }

  lemma UpkeepKeepsSilence(cfg: Config, t: Table, u: Name, machine: Name, desired: int, user: Name)
    requires Silenced(t, user)
    ensures Silenced(Upkeep(cfg, t, u, machine, desired), user)
  {
    MoveKeepsSilence(cfg, t, u, machine, DesiredOf(t, u, machine), user);
    MoveKeepsSilence(cfg, EnsureInSubnet(cfg, t, u, machine), u, machine, desired, user);
  }

  /** Approving or unblocking somebody else. */
  lemma AllowKeepsSilence(t: Table, disk: Disk, u: Name, machine: Name, user: Name)
    requires Silenced(t, user) && u != user
    ensures Silenced(Allow(t, disk, u, machine).0, user)
    ensures Silenced(Unblock(t, disk, u, machine).0, user)
  {
    var i, k := FindUser(t, u), FindMachine(t, u, machine);
    if i < |t.users| {
      assert NamedUser(u)(t.users[i]);
      OtherUserKeepsBlocked(t.users, i, t.users[i].(status := Active), user);
      assert t.users[i := t.users[i]] == t.users;
    }
    if k < |t.machines| {
      assert IsMachine(u, machine)(t.machines[k]);
      RowKeepsAllBlocked(t.machines, k, t.machines[k].(status := Active), user);
      assert t.machines[k := t.machines[k]] == t.machines;
    }
  }

  lemma BlockKeepsSilence(t: Table, disk: Disk, u: Name, machine: Name, user: Name)
    requires Silenced(t, user)
    ensures Silenced(Block(t, disk, u, machine).0, user)
  {
    var i, k := FindUser(t, u), FindMachine(t, u, machine);
    if i < |t.users| {
      OtherUserKeepsBlocked(t.users, i, t.users[i].(status := Blocked), user);
    }
    if k < |t.machines| {
      RowKeepsAllBlocked(t.machines, k, t.machines[k].(status := Blocked), user);
    }
  }

  lemma AutoApproveKeepsSilence(cfg: Config, t: Table, u: Name, machine: Name, user: Name)
    requires Silenced(t, user) && u != user
    ensures Silenced(AutoApproveAdmin(cfg, t, u, machine).0, user)
  {
    AllowKeepsSilence(t, cfg.disk, u, machine, user);
    var t1 := Allow(t, cfg.disk, u, machine).0;
    MoveKeepsSilence(cfg, t1, u, machine, DesiredOf(t1, u, machine), user);
  }

  /** A blocked user joins in vain; others do not reach its rows, which are blocked too. */
  lemma RegisterKeepsSilence(t: Table, disk: Disk, u: Name, machine: Name, public: Bytes,
                             salt: Bytes, verifier: Bytes, desired: int, user: Name)
    requires UniqueUsers(t.users) && Silenced(t, user)
    ensures var (t', r) := RegisterJoin(t, disk, u, machine, public, salt, verifier, desired);
            Silenced(t', user) && (u == user ==> r == Ok(Blocked))
  {
    FoundUser(t, user);
    var x :| x in t.users && x.name == user && x.status == Blocked;
    var t' := RegisterJoin(t, disk, u, machine, public, salt, verifier, desired).0;
    if u != user {
      var k := First(t.machines, HasPublic(public));
      if FindUser(t, u) == |t.users| {
        assert x in t.users + [User(u, salt, verifier, Pending)];
      } else if k < |t.machines| {
        var m := t.machines[k];
        RowKeepsAllBlocked(t.machines, k, m.(name := machine, desired := if desired != 0 then desired else m.desired),
                           user);
      }
    }
  }

  lemma JoinKeepsSilence(cfg: Config, t: Table, msg: JoinProof, user: Name)
    requires UniqueUsers(t.users) && Silenced(t, user)
    ensures Silenced(JoinTable(cfg, t, msg).0, user)
  {
    RegisterKeepsSilence(t, cfg.disk, msg.user, msg.machine, msg.public, [], [], msg.desired, user);
    var t1 := RegisterJoin(t, cfg.disk, msg.user, msg.machine, msg.public, [], [], msg.desired).0;
    UpkeepKeepsSilence(cfg, t1, msg.user, msg.machine, msg.desired, user);
    if msg.user != user {
      var t2 := Upkeep(cfg, t1, msg.user, msg.machine, msg.desired);
      AutoApproveKeepsSilence(cfg, t2, msg.user, msg.machine, user);
    }
  }

  lemma ApproveKeepsSilence(cfg: Config, s: ServerState, u: Name, machine: Name, user: Name)
    requires Silenced(s.table, user)
    ensures Silenced(ApproveMachine(cfg, s, u, machine).state.table, user)
  {
    MoveKeepsSilence(cfg, s.table, u, machine, DesiredOf(s.table, u, machine), user);
  }

  lemma AllowUserKeepsSilence(cfg: Config, s: ServerState, u: Name, to: Name, user: Name)
    requires Silenced(s.table, user) && u != user
    ensures Silenced(AllowUser(cfg, s, u, to).state.table, user)
  {
    AllowKeepsSilence(s.table, cfg.disk, u, [], user);
  }

  lemma AllowMachineKeepsSilence(cfg: Config, s: ServerState, u: Name, machine: Name, to: Name, user: Name)
    requires Silenced(s.table, user) && u != user
    ensures Silenced(AllowMachine(cfg, s, u, machine, to).state.table, user)
  {
    var m := GetMachine(s.table, u, machine);
    if m.Some? {
      match m.value.status
      case Pending =>
        AllowKeepsSilence(s.table, cfg.disk, u, machine, user);
        var allowed := WithTable(s, Allow(s.table, cfg.disk, u, machine));
        if allowed.outcome.Done? {
          ApproveKeepsSilence(cfg, allowed.state, u, machine, user);
        }
      case Blocked => AllowKeepsSilence(s.table, cfg.disk, u, machine, user);
      case Active =>
    }
  }

  lemma DenyRowKeepsSilence(t: Table, disk: Disk, u: Name, machine: Name, user: Name)
    requires UniqueUsers(t.users) && Silenced(t, user)
    ensures Silenced(DenyRow(t, disk, u, machine).0, user)
  {
    FoundUser(t, user);
    var x :| x in t.users && x.name == user && x.status == Blocked;
    BlockKeepsSilence(t, disk, u, machine, user);
    if u != user {
      assert x in Filter(t.users, NotNamedUser(u));
    }
  }

  lemma ServerDenyKeepsSilence(t: Table, disk: Disk, u: Name, machine: Name, to: Name, user: Name)
    requires UniqueUsers(t.users) && Silenced(t, user)
    ensures Silenced(ServerDeny(t, disk, u, machine, to).0, user)
  {
    var subject := Subject(u, machine);
    RevokeAllTouchesGrantsOnly(t, disk, subject, GrantsOf(t.grants, subject));
    DenyRowKeepsSilence(RevokeAll(t, disk, subject, GrantsOf(t.grants, subject)).0, disk, u, machine, user);
  }

  // Steps and runs.

  /** Event `e` is an order to allow `user` or one of its machines. */
  predicate Allows(cfg: Config, t: Table, e: Event, user: Name) {
    var order := AdminOrder(cfg, t, e);
    order.Some? && order.value.command == AllowCommand &&
    ParseTarget(order.value.target).Ok? && ParseTarget(order.value.target).value.0 == user
  }

  lemma OrderKeepsSilence(cfg: Config, s: ServerState, order: AdminRequest, user: Name)
    requires UniqueUsers(s.table.users) && Silenced(s.table, user)
    requires order.command == AllowCommand && ParseTarget(order.target).Ok? ==>
             ParseTarget(order.target).value.0 != user
    ensures Silenced(OrderedTable(cfg, s, order), user)
  {
    if ParseTarget(order.target).Ok? {
      var (u, machine) := ParseTarget(order.target).value;
      if order.command == AllowCommand {
        AllowUserKeepsSilence(cfg, s, u, order.to, user);
        AllowMachineKeepsSilence(cfg, s, u, machine, order.to, user);
      } else {
        ServerDenyKeepsSilence(s.table, cfg.disk, u, machine, order.to, user);
      }
    }
  }

  lemma ReloadKeepsSilence(t: Table, disk: Disk, name: Name, salt: Bytes, verifier: Bytes, user: Name)
    requires Silenced(t, user)
    ensures Silenced(SetVerifier(t, disk, name, salt, verifier).0, user)
  {
    var i := FindUser(t, name);
    if i < |t.users| {
      OtherUserKeepsBlocked(t.users, i, t.users[i].(salt := salt, verifier := verifier), user);
    }
  }

  lemma StepKeepsSilence(cfg: Config, s: ServerState, e: Timed, user: Name)
    requires UniqueUsers(s.table.users) && Silenced(s.table, user) && !Allows(cfg, s.table, e.event, user)
    ensures Silenced(ServerStep(cfg, s, e).state.table, user)
  {
    match e.event
    case JoinRequestEvent(req, nonce, remote) =>
      RegisterKeepsSilence(s.table, cfg.disk, req.user, req.machine, req.public, req.salt, req.verifier, req.desired,
                           user);
    case JoinProofEvent(msg, remote) =>
      JoinKeepsSilence(cfg, s.table, msg, user);
    case ReloadEvent(salt, verifier) =>
      ReloadKeepsSilence(s.table, cfg.disk, cfg.admin, salt, verifier, user);
    case _ =>
      var s' := OrderDecidesTable(cfg, s, e);
      var order := AdminOrder(cfg, s.table, e.event);
      if order.Some? {
        OrderKeepsSilence(cfg, s', order.value, user);
      }
  }

  lemma {:induction false} SilencedUntilAllowed(cfg: Config, t: Table, run: seq<Timed>, i: nat, j: nat, user: Name)
    requires Good(cfg, t, None) && i <= j <= |run| && Silenced(Before(cfg, t, run, i).table, user)
    requires forall k :: i <= k < j ==> !Allows(cfg, Before(cfg, t, run, k).table, run[k].event, user)
    ensures Silenced(Before(cfg, t, run, j).table, user)
    decreases j
  {
    if i == j {
    } else {
      SilencedUntilAllowed(cfg, t, run, i, j - 1, user);
      RunKeeps(cfg, t, run[..j - 1], None);
      BeforeStep(cfg, t, run, j - 1);
      StepKeepsSilence(cfg, Before(cfg, t, run, j - 1), run[j - 1], user);
    }
  }

  /** Event `e` denies `user` without a target and all revocations are written. */
  ghost predicate Denies(cfg: Config, t: Table, e: Event, user: Name) {
    var order := AdminOrder(cfg, t, e);
    order.Some? && order.value.command == DenyCommand && order.value.to == [] &&
    ParseTarget(order.value.target) == Ok((user, [])) && RevocationsWritten(t, cfg.disk, user)
  }

  lemma DenySilences(cfg: Config, s: ServerState, e: Timed, user: Name)
    requires Denies(cfg, s.table, e.event, user)
    requires GetUser(s.table, user).Some? && GetUser(s.table, user).value.status == Active
    ensures Silenced(ServerStep(cfg, s, e).state.table, user)
  {
    var s' := OrderDecidesTable(cfg, s, e);
    DenyBlocksActiveUserIff(s.table, cfg.disk, user);
    var t' := ServerStep(cfg, s, e).state.table;
    var i := FindUser(t', user);
    assert NamedUser(user)(t'.users[i]) && t'.users[i] in t'.users;
  }

  /** Once an active user has been denied and its grants are off the disk, it stays blocked until it is allowed. */
  lemma DeniedUserStaysBlocked(cfg: Config, t: Table, run: seq<Timed>, i: nat, j: nat, user: Name)
    requires Good(cfg, t, None) && i < j <= |run| && Denies(cfg, Before(cfg, t, run, i).table, run[i].event, user)
    requires GetUser(Before(cfg, t, run, i).table, user).Some? &&
             GetUser(Before(cfg, t, run, i).table, user).value.status == Active
    requires forall k :: i < k < j ==> !Allows(cfg, Before(cfg, t, run, k).table, run[k].event, user)
    ensures Silenced(Before(cfg, t, run, j).table, user)
  {
    BeforeStep(cfg, t, run, i);
    DenySilences(cfg, Before(cfg, t, run, i), run[i], user);
    SilencedUntilAllowed(cfg, t, run, i + 1, j, user);
  }

  /** So no relay request from or to its machines is honoured until an accepted order allows it or one of them. */
  lemma DeniedUserStaysSilent(cfg: Config, t: Table, run: seq<Timed>, i: nat, j: nat, user: Name)
    requires Good(cfg, t, None) && i < j < |run| && Denies(cfg, Before(cfg, t, run, i).table, run[i].event, user)
    requires GetUser(Before(cfg, t, run, i).table, user).Some? &&
             GetUser(Before(cfg, t, run, i).table, user).value.status == Active
    requires forall k :: i < k < j ==> !Allows(cfg, Before(cfg, t, run, k).table, run[k].event, user)
    ensures var request := RequestOf(cfg, Before(cfg, t, run, j).table, run[j].event);
            request.Some? ==> request.value.src.user != user && request.value.dst.user != user
  {
    DeniedUserStaysBlocked(cfg, t, run, i, j, user);
    var before := Before(cfg, t, run, j).table;
    if RequestOf(cfg, before, run[j].event).Some? {
      RequestIsAuthentic(cfg, before, run[j].event);
    }
  }

  // Who can give such an order.

  /** A message that verifies under a machine of another user than the admin leaves the registry alone. */
  lemma OthersGiveNoOrders(cfg: Config, s: ServerState, env: Envelope, remote: Endpoint, at: nat, m: SignedMessage,
                           src: Machine)
    requires Authenticated(cfg, s.table, env) == Some((m, src)) && src.user != cfg.admin
    ensures var e := Timed(SignedEvent(env, remote), at);
            AdminOrder(cfg, s.table, e.event).None? && ServerStep(cfg, s, e).state.table == s.table
  {
    var s' := OrderDecidesTable(cfg, s, Timed(SignedEvent(env, remote), at));
  }

  /**
   Admin requests are taken from blocked machines too: a blocked machine that asks to be allowed becomes active
   exactly when it belongs to the admin user.
   */
  lemma BlockedMachineAllowsItselfIff(cfg: Config, s: ServerState, env: Envelope, remote: Endpoint, at: nat,
                                      m: SignedMessage, src: Machine, to: Name)
    requires env.typ == TYPE_ADMIN_REQUEST && Authenticated(cfg, s.table, env) == Some((m, src)) &&
             src.status == Blocked
    requires cfg.decodeAdmin(m.payload) == Some(AdminRequest(AllowCommand, JoinKey(src.user, src.name), to))
    requires src.user != [] && SLASH !in src.user && src.name != []
    requires GetMachine(s.table, src.user, src.name) == Some(src)
    ensures var t' := ServerStep(cfg, s, Timed(SignedEvent(env, remote), at)).state.table;
            var row := GetMachine(t', src.user, src.name);
            row.Some? && (row.value.status == Active <==> src.user == cfg.admin)
  {
    var e := Timed(SignedEvent(env, remote), at);
    if src.user != cfg.admin {
      OthersGiveNoOrders(cfg, s, env, remote, at, m, src);
    } else {
      ParseTargetOfMachine(src.user, src.name);
      var s' := OrderDecidesTable(cfg, s, e);
      FoundMachine(s.table, src.user, src.name);
      FindMachineStable(s.table, FindMachine(s.table, src.user, src.name), src.(status := Active), src.user, src.name);
    }
  }
}
