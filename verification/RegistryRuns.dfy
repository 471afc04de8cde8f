/**
 The registry over whole server runs.  `owner` is Some when every key is presented for one user only:
 it names that user.  Without the assumption the label claims are dropped and everything else stands.
 */
module RegistryRuns {
  import opened Basics
  import opened Seqs
  import opened Registry
  import opened Allocation
  import opened TableInvariants
  import opened TableHistory
  import opened ServerModel
  import opened ServerFrames
  import opened Grants
  import opened Envelopes
  import opened Signatures
  import opened Authentication

  type Owner = Option<Bytes -> Name>

  ghost predicate Good(cfg: Config, t: Table, owner: Owner) {
    && Sound(t)
    && ApprovedUser(t.users, cfg.admin)
    && (owner.Some? ==> Labelled(t.machines, owner.value))
  }

  /** No approved user and no approved row is lost. */
  ghost predicate Kept(t: Table, t': Table) {
    UsersPersist(t.users, t'.users) && MachinesPersist(t.machines, t'.machines)
  }

  /** No approved user is lost, and an approved row exactly when `lost`. */
  ghost predicate KeptUnless(t: Table, t': Table, lost: bool) {
    UsersPersist(t.users, t'.users) && (MachinesPersist(t.machines, t'.machines) <==> !lost)
  }

  lemma SameLabelsGood(cfg: Config, t: Table, t': Table, owner: Owner)
    requires Good(cfg, t, owner) && Sound(t')
    requires UsersPersist(t.users, t'.users) && SameLabels(t.machines, t'.machines)
    ensures Good(cfg, t', owner)
  {
    if owner.Some? {
      SameLabelsKeep(t.machines, t'.machines, owner.value);
    }
  }

  // Address upkeep.

  lemma MoveAddressKeeps(cfg: Config, t: Table, user: Name, machine: Name, desired: int, owner: Owner)
    requires Good(cfg, t, owner)
    requires GetMachine(t, user, machine).Some? ==> GetMachine(t, user, machine).value.status != Pending
    ensures var t' := MoveAddress(cfg, t, user, machine, desired).0; Good(cfg, t', owner) && Kept(t, t')
  {
    if Allocate(t, cfg.subnet, desired).Ok? {
      var ip := Allocate(t, cfg.subnet, desired).value;
      AllocationSound(t, cfg.subnet, desired);
      SetMachineIPKeeps(t, cfg.disk, user, machine, ip);
      SetMachineIPPersists(t, cfg.disk, user, machine, ip);
      SameLabelsGood(cfg, t, SetMachineIP(t, cfg.disk, user, machine, ip).0, owner);
    }
  }

  /** Address upkeep after a join moves only machines that hold an address, and those are not pending. */
  lemma UpkeepKeeps(cfg: Config, t: Table, user: Name, machine: Name, desired: int, owner: Owner)
    requires Good(cfg, t, owner)
    ensures var t' := EnsureInSubnet(cfg, t, user, machine); Good(cfg, t', owner) && Kept(t, t')
    ensures var t' := RebindDesired(cfg, t, user, machine, desired); Good(cfg, t', owner) && Kept(t, t')
  {
    var m := GetMachine(t, user, machine);
    if m.Some? && m.value.vpnIP.Some? {
      FoundMachine(t, user, machine);
      MoveAddressKeeps(cfg, t, user, machine, m.value.desired, owner);
      MoveAddressKeeps(cfg, t, user, machine, desired, owner);
    }
  }

  lemma AllowGood(cfg: Config, t: Table, user: Name, machine: Name, owner: Owner)
    requires Good(cfg, t, owner)
    ensures var t' := Allow(t, cfg.disk, user, machine).0; Good(cfg, t', owner) && Kept(t, t')
  {
    AllowKeeps(t, cfg.disk, user, machine);
    AllowPersists(t, cfg.disk, user, machine);
    SameLabelsGood(cfg, t, Allow(t, cfg.disk, user, machine).0, owner);
  }

  /** After a machine approval the named machine is active. */
  lemma AllowedIsActive(t: Table, disk: Disk, user: Name, machine: Name)
    requires machine != [] && Allow(t, disk, user, machine).1.Done?
    ensures var m := GetMachine(Allow(t, disk, user, machine).0, user, machine); m.Some? && m.value.status == Active
  {
    var i := FindMachine(t, user, machine);
    FoundMachine(t, user, machine);
    FindMachineStable(t, i, t.machines[i].(status := Active), user, machine);
  }

  /** The admin user has been approved, so an admin join can only approve a machine. */
  lemma AutoApproveKeeps(cfg: Config, t: Table, user: Name, machine: Name, owner: Owner)
    requires Good(cfg, t, owner)
    ensures var t' := AutoApproveAdmin(cfg, t, user, machine).0; Good(cfg, t', owner) && Kept(t, t')
  {
    AllowGood(cfg, t, user, machine, owner);
    FoundUser(t, cfg.admin);
    var (t1, allowed) := Allow(t, cfg.disk, user, machine);
    if user == cfg.admin && allowed.Done? {
      AllowedIsActive(t, cfg.disk, user, machine);
      MoveAddressKeeps(cfg, t1, user, machine, DesiredOf(t1, user, machine), owner);
    }
  }

  lemma RegisterJoinGood(cfg: Config, t: Table, user: Name, machine: Name, public: Bytes,
                         salt: Bytes, verifier: Bytes, desired: int, owner: Owner)
    requires Good(cfg, t, owner) && (owner.Some? ==> owner.value(public) == user)
    ensures var t' := RegisterJoin(t, cfg.disk, user, machine, public, salt, verifier, desired).0;
            Good(cfg, t', owner) && Kept(t, t')
  {
    RegisterJoinKeeps(t, cfg.disk, user, machine, public, salt, verifier, desired);
    RegisterJoinPersists(t, cfg.disk, user, machine, public, salt, verifier, desired);
    if owner.Some? {
      RegisterJoinKeepsLabels(t, cfg.disk, user, machine, public, salt, verifier, desired, owner.value);
    }
  }

  lemma JoinTableKeeps(cfg: Config, t: Table, msg: JoinProof, owner: Owner)
    requires Good(cfg, t, owner) && (owner.Some? ==> owner.value(msg.public) == msg.user)
    ensures var t' := JoinTable(cfg, t, msg).0; Good(cfg, t', owner) && Kept(t, t')
  {
    RegisterJoinGood(cfg, t, msg.user, msg.machine, msg.public, [], [], msg.desired, owner);
    var t1 := RegisterJoin(t, cfg.disk, msg.user, msg.machine, msg.public, [], [], msg.desired).0;
    UpkeepKeeps(cfg, t1, msg.user, msg.machine, msg.desired, owner);
    var t2 := EnsureInSubnet(cfg, t1, msg.user, msg.machine);
    UpkeepKeeps(cfg, t2, msg.user, msg.machine, msg.desired, owner);
    AutoApproveKeeps(cfg, RebindDesired(cfg, t2, msg.user, msg.machine, msg.desired), msg.user, msg.machine, owner);
  }

  // Admin commands.

  lemma GrantsGood(cfg: Config, t: Table, t': Table, owner: Owner)
    requires Good(cfg, t, owner) && t'.users == t.users && t'.machines == t.machines
    ensures Good(cfg, t', owner) && Kept(t, t')
  {
  }

  lemma UnblockGood(cfg: Config, t: Table, user: Name, machine: Name, owner: Owner)
    requires Good(cfg, t, owner)
    requires machine == [] ==> GetUser(t, user).Some? ==> GetUser(t, user).value.status != Pending
    ensures var t' := Unblock(t, cfg.disk, user, machine).0; Good(cfg, t', owner) && Kept(t, t')
  {
    UnblockKeeps(t, cfg.disk, user, machine);
    UnblockPersists(t, cfg.disk, user, machine);
    SameLabelsGood(cfg, t, Unblock(t, cfg.disk, user, machine).0, owner);
  }

  lemma BlockGood(cfg: Config, t: Table, user: Name, machine: Name, owner: Owner)
    requires Good(cfg, t, owner)
    requires machine == [] || (GetMachine(t, user, machine).Some? ==>
                               GetMachine(t, user, machine).value.status != Pending)
    ensures var t' := Block(t, cfg.disk, user, machine).0; Good(cfg, t', owner) && Kept(t, t')
  {
    BlockKeeps(t, cfg.disk, user, machine);
    BlockPersists(t, cfg.disk, user, machine);
    SameLabelsGood(cfg, t, Block(t, cfg.disk, user, machine).0, owner);
  }

  lemma ApproveMachineKeeps(cfg: Config, s: ServerState, user: Name, machine: Name, owner: Owner)
    requires Good(cfg, s.table, owner)
    requires GetMachine(s.table, user, machine).Some? ==> GetMachine(s.table, user, machine).value.status != Pending
    ensures var t' := ApproveMachine(cfg, s, user, machine).state.table; Good(cfg, t', owner) && Kept(s.table, t')
  {
    var m := GetMachine(s.table, user, machine);
    if m.Some? && m.value.vpnIP.None? {
      MoveAddressKeeps(cfg, s.table, user, machine, m.value.desired, owner);
    }
  }

  lemma AllowUserKeeps(cfg: Config, s: ServerState, user: Name, to: Name, owner: Owner)
    requires Good(cfg, s.table, owner)
    ensures var t' := AllowUser(cfg, s, user, to).state.table; Good(cfg, t', owner) && Kept(s.table, t')
  {
    var u := GetUser(s.table, user);
    if u.Some? {
      match u.value.status
      case Pending => AllowGood(cfg, s.table, user, [], owner);
      case Blocked => UnblockGood(cfg, s.table, user, [], owner);
      case Active => GrantsGood(cfg, s.table, GrantTo(s.table, cfg.disk, user, to).0, owner);
    }
  }

  lemma AllowMachineKeeps(cfg: Config, s: ServerState, user: Name, machine: Name, to: Name, owner: Owner)
    requires Good(cfg, s.table, owner) && machine != []
    ensures var t' := AllowMachine(cfg, s, user, machine, to).state.table;
            Good(cfg, t', owner) && Kept(s.table, t')
  {
    var t, m := s.table, GetMachine(s.table, user, machine);
    if m.Some? {
      match m.value.status
      case Pending =>
        AllowGood(cfg, t, user, machine, owner);
        var allowed := WithTable(s, Allow(t, cfg.disk, user, machine));
        if allowed.outcome.Done? {
          AllowedIsActive(t, cfg.disk, user, machine);
          ApproveMachineKeeps(cfg, allowed.state, user, machine, owner);
        }
      case Blocked => UnblockGood(cfg, t, user, machine, owner);
      case Active => GrantsGood(cfg, t, GrantTo(t, cfg.disk, JoinKey(user, machine), to).0, owner);
    }
  }

  lemma ServerAllowKeeps(cfg: Config, s: ServerState, user: Name, machine: Name, to: Name, owner: Owner)
    requires Good(cfg, s.table, owner)
    ensures var t' := ServerAllow(cfg, s, user, machine, to).state.table;
            Good(cfg, t', owner) && Kept(s.table, t')
  {
    if machine == [] {
      AllowUserKeeps(cfg, s, user, to, owner);
    } else {
      AllowMachineKeeps(cfg, s, user, machine, to, owner);
    }
  }

  /** Denying user/machine meets a pending row first, and another row of that name is approved. */
  ghost predicate LosingRow(t: Table, user: Name, machine: Name) {
    machine != [] && GetMachine(t, user, machine).Some? && GetMachine(t, user, machine).value.status == Pending &&
    exists m :: m in t.machines && m.user == user && m.name == machine && m.status != Pending
  }

  lemma SameRowsSameLoss(t: Table, t': Table, user: Name, machine: Name)
    requires t'.machines == t.machines
    ensures LosingRow(t', user, machine) <==> LosingRow(t, user, machine)
  {
    assert GetMachine(t', user, machine) == GetMachine(t, user, machine);
  }

  /** With labels a name belongs to one row. */
  lemma LabelledLosesNothing(t: Table, user: Name, machine: Name, owner: Bytes -> Name)
    requires Labelled(t.machines, owner)
    ensures !LosingRow(t, user, machine)
  {
    forall m | m in t.machines && m.user == user && m.name == machine && GetMachine(t, user, machine).Some?
      ensures GetMachine(t, user, machine) == Some(m)
    {
      FoundMachine(t, user, machine);
      var i :| 0 <= i < |t.machines| && t.machines[i] == m;
      assert i == FindMachine(t, user, machine);
    }
  }

  lemma DenyRowKeeps(cfg: Config, t: Table, user: Name, machine: Name, owner: Owner)
    requires Good(cfg, t, owner)
    ensures var t' := DenyRow(t, cfg.disk, user, machine).0;
            Good(cfg, t', owner) && KeptUnless(t, t', LosingRow(t, user, machine))
  {
    DenyKeeps(t, cfg.disk, user, machine);
    if machine == [] {
      if GetUser(t, user).Some? && GetUser(t, user).value.status == Pending {
        DenyUserPersists(t, cfg.disk, user);
        if owner.Some? {
          FilterKeepsLabels(t.machines, NotOfUser(user), owner.value);
        }
      } else {
        BlockGood(cfg, t, user, machine, owner);
      }
    } else if GetMachine(t, user, machine).Some? {
      if GetMachine(t, user, machine).value.status == Pending {
        DenyMachineRemovesOnlyPendingIff(t, cfg.disk, user, machine);
        if owner.Some? {
          FilterKeepsLabels(t.machines, NotMachine(user, machine), owner.value);
        }
      } else {
        BlockGood(cfg, t, user, machine, owner);
      }
    }
  }

  /** A deny without target gets as far as such a row when all its revocations are written. */
  ghost predicate LosingTarget(t: Table, disk: Disk, user: Name, machine: Name, to: Name) {
    to == [] && RevocationsWritten(t, disk, Subject(user, machine)) && LosingRow(t, user, machine)
  }

  /** A deny that stays with the grants. */
  lemma RevocationKeeps(cfg: Config, t: Table, subject: Bytes, to: Name, targets: seq<Name>, owner: Owner)
    requires Good(cfg, t, owner)
    ensures var t' := Revoke(t, cfg.disk, subject, to).0; Good(cfg, t', owner) && Kept(t, t')
    ensures var t' := RevokeAll(t, cfg.disk, subject, targets).0;
            Good(cfg, t', owner) && Kept(t, t') && t'.machines == t.machines && t'.users == t.users
  {
    GrantsGood(cfg, t, Revoke(t, cfg.disk, subject, to).0, owner);
    RevokeAllTouchesGrantsOnly(t, cfg.disk, subject, targets);
    GrantsGood(cfg, t, RevokeAll(t, cfg.disk, subject, targets).0, owner);
  }

  /** A deny that gets as far as the row. */
  lemma WrittenDenyKeeps(cfg: Config, t: Table, user: Name, machine: Name, owner: Owner)
    requires Good(cfg, t, owner) && RevocationsWritten(t, cfg.disk, Subject(user, machine))
    ensures var t' := ServerDeny(t, cfg.disk, user, machine, []).0;
            Good(cfg, t', owner) && KeptUnless(t, t', LosingRow(t, user, machine))
  {
    var subject := Subject(user, machine);
    var targets := GrantsOf(t.grants, subject);
    RevokeAllDoneIff(t, cfg.disk, subject, targets);
    RevocationKeeps(cfg, t, subject, [], targets, owner);
    var t1 := RevokeAll(t, cfg.disk, subject, targets).0;
    SameRowsSameLoss(t, t1, user, machine);
    DenyRowKeeps(cfg, t1, user, machine, owner);
  }

  lemma ServerDenyKeeps(cfg: Config, t: Table, user: Name, machine: Name, to: Name, owner: Owner)
    requires Good(cfg, t, owner)
    ensures var t' := ServerDeny(t, cfg.disk, user, machine, to).0;
            Good(cfg, t', owner) && KeptUnless(t, t', LosingTarget(t, cfg.disk, user, machine, to))
  {
    var subject := Subject(user, machine);
    var targets := GrantsOf(t.grants, subject);
    if to == [] && RevocationsWritten(t, cfg.disk, subject) {
      WrittenDenyKeeps(cfg, t, user, machine, owner);
    } else {
      RevokeAllDoneIff(t, cfg.disk, subject, targets);
      RevocationKeeps(cfg, t, subject, to, targets, owner);
    }
  }

  ghost predicate LosingOrder(cfg: Config, t: Table, order: AdminRequest) {
    order.command == DenyCommand && ParseTarget(order.target).Ok? &&
    LosingTarget(t, cfg.disk, ParseTarget(order.target).value.0, ParseTarget(order.target).value.1, order.to)
  }

  lemma OrderKeeps(cfg: Config, s: ServerState, order: AdminRequest, owner: Owner)
    requires Good(cfg, s.table, owner)
    ensures var t' := OrderedTable(cfg, s, order);
            Good(cfg, t', owner) && KeptUnless(s.table, t', LosingOrder(cfg, s.table, order))
  {
    if ParseTarget(order.target).Ok? {
      var (user, machine) := ParseTarget(order.target).value;
      ServerAllowKeeps(cfg, s, user, machine, order.to, owner);
      ServerDenyKeeps(cfg, s.table, user, machine, order.to, owner);
    }
  }

  // Steps and runs.

  /** The step presents its key for the key's only user. */
  predicate PresentedFor(e: Event, owner: Bytes -> Name) {
    (e.JoinRequestEvent? ==> owner(e.req.public) == e.req.user) &&
    (e.JoinProofEvent? ==> owner(e.msg.public) == e.msg.user)
  }

  lemma RequestKeeps(cfg: Config, s: ServerState, req: JoinRequest, nonce: Option<Bytes>, remote: Endpoint,
                     owner: Owner)
    requires Good(cfg, s.table, owner) && (owner.Some? ==> owner.value(req.public) == req.user)
    ensures var t' := HandleJoinRequest(cfg, s, req, nonce, remote).state.table;
            Good(cfg, t', owner) && Kept(s.table, t')
  {
    RegisterJoinGood(cfg, s.table, req.user, req.machine, req.public, req.salt, req.verifier, req.desired, owner);
  }

  lemma ProofKeeps(cfg: Config, s: ServerState, msg: JoinProof, remote: Endpoint, owner: Owner)
    requires Good(cfg, s.table, owner) && (owner.Some? ==> owner.value(msg.public) == msg.user)
    ensures var t' := HandleJoinProof(cfg, s, msg, remote).state.table; Good(cfg, t', owner) && Kept(s.table, t')
  {
    JoinTableKeeps(cfg, s.table, msg, owner);
  }

  lemma ReloadKeeps(cfg: Config, t: Table, salt: Bytes, verifier: Bytes, owner: Owner)
    requires Good(cfg, t, owner)
    ensures var t' := SetVerifier(t, cfg.disk, cfg.admin, salt, verifier).0; Good(cfg, t', owner) && Kept(t, t')
  {
    SetVerifierKeeps(t, cfg.disk, cfg.admin, salt, verifier);
    var i := FindUser(t, cfg.admin);
    if i < |t.users| {
      SetUserPersists(t.users, i, t.users[i].(salt := salt, verifier := verifier));
    }
  }

  /**
   The one kind of step that loses an approved row: an accepted deny of user/machine without target, whose
   revocations are written and whose first row is pending while another row of that name is not.
   */
  ghost predicate LosingDeny(cfg: Config, t: Table, e: Event) {
    var order := AdminOrder(cfg, t, e);
    order.Some? && LosingOrder(cfg, t, order.value)
  }

  lemma StepKeeps(cfg: Config, s: ServerState, e: Timed, owner: Owner)
    requires Good(cfg, s.table, owner) && (owner.Some? ==> PresentedFor(e.event, owner.value))
    ensures var t' := ServerStep(cfg, s, e).state.table;
            Good(cfg, t', owner) && KeptUnless(s.table, t', LosingDeny(cfg, s.table, e.event))
  {
    match e.event
    case JoinRequestEvent(req, nonce, remote) =>
      RequestKeeps(cfg, s, req, nonce, remote, owner);
    case JoinProofEvent(msg, remote) =>
      ProofKeeps(cfg, s, msg, remote, owner);
    case ReloadEvent(salt, verifier) =>
      ReloadKeeps(cfg, s.table, salt, verifier, owner);
    case _ =>
      var s' := OrderDecidesTable(cfg, s, e);
      var order := AdminOrder(cfg, s.table, e.event);
      if order.Some? {
        OrderKeeps(cfg, s', order.value, owner);
      }
  }

  /** A losing deny takes away the rows of the name and leaves every other row as it is. */
  lemma LosingStep(cfg: Config, s: ServerState, e: Timed)
    requires LosingDeny(cfg, s.table, e.event)
    ensures var (user, machine) := ParseTarget(AdminOrder(cfg, s.table, e.event).value.target).value;
            ServerStep(cfg, s, e).state.table.machines == Filter(s.table.machines, NotMachine(user, machine))
  {
    var s' := OrderDecidesTable(cfg, s, e);
    var (user, machine) := ParseTarget(AdminOrder(cfg, s.table, e.event).value.target).value;
    var t, subject := s.table, Subject(user, machine);
    RevokeAllTouchesGrantsOnly(t, cfg.disk, subject, GrantsOf(t.grants, subject));
    RevokeAllDoneIff(t, cfg.disk, subject, GrantsOf(t.grants, subject));
    var t1 := RevokeAll(t, cfg.disk, subject, GrantsOf(t.grants, subject)).0;
    assert GetMachine(t1, user, machine) == GetMachine(t, user, machine);
  }

  lemma StepMovesForward(cfg: Config, s: ServerState, e: Timed)
    requires Good(cfg, s.table, None)
    ensures StatusesForward(s.table.machines, ServerStep(cfg, s, e).state.table.machines)
  {
    if LosingDeny(cfg, s.table, e.event) {
      LosingStep(cfg, s, e);
      var (user, machine) := ParseTarget(AdminOrder(cfg, s.table, e.event).value.target).value;
      SurvivorsMoveForward(s.table.machines, NotMachine(user, machine));
    } else {
      StepKeeps(cfg, s, e, None);
      PersistentRowsMoveForward(s.table.machines, ServerStep(cfg, s, e).state.table.machines);
    }
  }

  /** In every step surviving rows move forward, and approved rows are lost exactly by a losing deny. */
  lemma StepLosesIff(cfg: Config, s: ServerState, e: Timed)
    requires Good(cfg, s.table, None)
    ensures var ms, ms' := s.table.machines, ServerStep(cfg, s, e).state.table.machines;
            StatusesForward(ms, ms') && (MachinesPersist(ms, ms') <==> !LosingDeny(cfg, s.table, e.event))
  {
    StepKeeps(cfg, s, e, None);
    StepMovesForward(cfg, s, e);
  }

  /** Every reachable table is good. */
  lemma {:induction false} RunKeeps(cfg: Config, t: Table, run: seq<Timed>, owner: Owner)
    requires Good(cfg, t, owner)
    requires owner.Some? ==> forall e :: e in run ==> PresentedFor(e.event, owner.value)
    ensures Good(cfg, After(cfg, t, run).table, owner)
  {
    if run == [] {
    } else {
      var front := run[..|run| - 1];
      RunKeeps(cfg, t, front, owner);
      StepKeeps(cfg, After(cfg, t, front), run[|run| - 1], owner);
    }
  }

  /** A run starts once the admin user has been ensured. */
  lemma StartIsGood(cfg: Config, saved: Table, salt: Bytes, verifier: Bytes, owner: Owner)
    requires Sound(saved) && (owner.Some? ==> Labelled(saved.machines, owner.value))
    ensures var t := EnsureAdmin(saved, cfg.disk, cfg.admin, salt, verifier).0;
            Good(cfg, t, owner) && GetUser(t, cfg.admin).Some? &&
            GetUser(t, cfg.admin).value ==
              if GetUser(saved, cfg.admin).Some? then GetUser(saved, cfg.admin).value.(status := Active)
              else User(cfg.admin, salt, verifier, Active)
  {
    EnsureAdminKeeps(saved, cfg.disk, cfg.admin, salt, verifier);
    var t := EnsureAdmin(saved, cfg.disk, cfg.admin, salt, verifier).0;
    FoundUser(saved, cfg.admin);
    FoundUser(t, cfg.admin);
    var i := FindUser(saved, cfg.admin);
    if i == |saved.users| {
      assert t.users[i] in t.users;
    } else {
      assert NamedUser(cfg.admin)(saved.users[i]);
      assert t.users[i] in t.users;
    }
  }

  /** The identity, lifecycle and address invariants hold after every run from a sound saved table. */
  lemma ReachableTablesAreSound(cfg: Config, saved: Table, salt: Bytes, verifier: Bytes, run: seq<Timed>)
    requires Sound(saved)
    ensures Sound(After(cfg, EnsureAdmin(saved, cfg.disk, cfg.admin, salt, verifier).0, run).table)
  {
    StartIsGood(cfg, saved, salt, verifier, None);
    RunKeeps(cfg, EnsureAdmin(saved, cfg.disk, cfg.admin, salt, verifier).0, run, None);
  }

  /** When each key is presented for one user only, keys are unique and names are unique per user, renames included. */
  lemma ReachableLabelsAreUnique(cfg: Config, saved: Table, salt: Bytes, verifier: Bytes, run: seq<Timed>,
                                 owner: Bytes -> Name)
    requires Sound(saved) && Labelled(saved.machines, owner)
    requires forall e :: e in run ==> PresentedFor(e.event, owner)
    ensures var ms := After(cfg, EnsureAdmin(saved, cfg.disk, cfg.admin, salt, verifier).0, run).table.machines;
            forall i, j :: 0 <= i < j < |ms| ==>
              ms[i].public != ms[j].public && !(ms[i].user == ms[j].user && ms[i].name == ms[j].name)
  {
    var t := EnsureAdmin(saved, cfg.disk, cfg.admin, salt, verifier).0;
    StartIsGood(cfg, saved, salt, verifier, Some(owner));
    RunKeeps(cfg, t, run, Some(owner));
    KeysUnique(After(cfg, t, run).table.machines, owner);
  }

  /** The approved row `m` has the user and the name of a losing deny. */
  ghost predicate TakenAway(cfg: Config, t: Table, e: Event, m: Machine) {
    LosingDeny(cfg, t, e) && m in t.machines && m.status != Pending &&
    ParseTarget(AdminOrder(cfg, t, e).value.target) == Ok((m.user, m.name))
  }

  lemma StepLosesRow(cfg: Config, s: ServerState, e: Timed, user: Name, public: Bytes) returns (m: Machine)
    requires Good(cfg, s.table, None)
    requires ApprovedRow(s.table.machines, user, public)
    requires !ApprovedRow(ServerStep(cfg, s, e).state.table.machines, user, public)
    ensures m.user == user && m.public == public && TakenAway(cfg, s.table, e.event, m)
  {
    StepLosesIff(cfg, s, e);
    LosingStep(cfg, s, e);
    m :| m in s.table.machines && m.user == user && m.public == public && m.status != Pending;
    assert m !in ServerStep(cfg, s, e).state.table.machines;
  }

  /** What holds at `i` and no longer at `j` was lost in one step in between. */
  lemma {:induction false} LostAtSomeStep(holds: nat -> bool, i: nat, j: nat) returns (k: nat)
    requires i < j && holds(i) && !holds(j)
    ensures i <= k < j && holds(k) && !holds(k + 1)
    decreases j
  {
    if holds(j - 1) {
      k := j - 1;
    } else {
      k := LostAtSomeStep(holds, i, j - 1);
    }
  }

  /** An approved row that is gone was taken away by a losing deny of its user and of the name it then had. */
  lemma LostRowWasDenied(cfg: Config, t: Table, run: seq<Timed>, i: nat, j: nat, user: Name, public: Bytes)
    returns (k: nat, m: Machine)
    requires Good(cfg, t, None) && i < j <= |run|
    requires ApprovedRow(Before(cfg, t, run, i).table.machines, user, public)
    requires !ApprovedRow(Before(cfg, t, run, j).table.machines, user, public)
    ensures i <= k < j && m.user == user && m.public == public
    ensures TakenAway(cfg, Before(cfg, t, run, k).table, run[k].event, m)
  {
    var present := (n: nat) => n <= |run| && ApprovedRow(Before(cfg, t, run, n).table.machines, user, public);
    k := LostAtSomeStep(present, i, j);
    RunKeeps(cfg, t, run[..k], None);
    BeforeStep(cfg, t, run, k);
    m := StepLosesRow(cfg, Before(cfg, t, run, k), run[k], user, public);
  }

  lemma ApprovedUsersStayOnce(cfg: Config, t: Table, run: seq<Timed>, k: nat)
    requires Good(cfg, t, None) && k < |run|
    ensures UsersPersist(Before(cfg, t, run, k).table.users, Before(cfg, t, run, k + 1).table.users)
  {
    RunKeeps(cfg, t, run[..k], None);
    BeforeStep(cfg, t, run, k);
    StepKeeps(cfg, Before(cfg, t, run, k), run[k], None);
  }

  lemma {:induction false} ApprovedUsersStay(cfg: Config, t: Table, run: seq<Timed>, i: nat, j: nat)
    requires Good(cfg, t, None) && i <= j <= |run|
    ensures UsersPersist(Before(cfg, t, run, i).table.users, Before(cfg, t, run, j).table.users)
    decreases j
  {
    if i == j {
    } else {
      ApprovedUsersStay(cfg, t, run, i, j - 1);
      ApprovedUsersStayOnce(cfg, t, run, j - 1);
    }
  }

  /** Events `i` to `j` of the run contain no losing deny. */
  ghost predicate LosesNothing(cfg: Config, t: Table, run: seq<Timed>, i: nat, j: nat)
    requires j <= |run|
  {
    forall k :: i <= k < j ==> !LosingDeny(cfg, Before(cfg, t, run, k).table, run[k].event)
  }

  /**
   Once a user has been approved it is never removed and never pending again; likewise a machine, as long as no
   deny hits its name through another, pending row.
   */
  lemma ApprovalIsPermanent(cfg: Config, t: Table, run: seq<Timed>, i: nat, j: nat)
    requires Good(cfg, t, None) && i <= j <= |run|
    ensures UsersPersist(Before(cfg, t, run, i).table.users, Before(cfg, t, run, j).table.users)
    ensures LosesNothing(cfg, t, run, i, j) ==>
              var ms, ms' := Before(cfg, t, run, i).table.machines, Before(cfg, t, run, j).table.machines;
              MachinesPersist(ms, ms') && StatusesForward(ms, ms')
  {
    ApprovedUsersStay(cfg, t, run, i, j);
    RunKeeps(cfg, t, run[..j], None);
    var ms, ms' := Before(cfg, t, run, i).table.machines, Before(cfg, t, run, j).table.machines;
    if LosesNothing(cfg, t, run, i, j) {
      forall user, public | ApprovedRow(ms, user, public)
        ensures ApprovedRow(ms', user, public)
      {
        if i < j && !ApprovedRow(ms', user, public) {
          var k, m := LostRowWasDenied(cfg, t, run, i, j, user, public);
        }
      }
      PersistentRowsMoveForward(ms, ms');
    }
  }

  /** When each key is presented for one user only, no run contains a losing deny. */
  lemma LabelledRunsLoseNothing(cfg: Config, t: Table, run: seq<Timed>, i: nat, j: nat, owner: Bytes -> Name)
    requires Good(cfg, t, Some(owner)) && j <= |run|
    requires forall e :: e in run ==> PresentedFor(e.event, owner)
    ensures LosesNothing(cfg, t, run, i, j)
  {
    forall k | i <= k < j
      ensures !LosingDeny(cfg, Before(cfg, t, run, k).table, run[k].event)
    {
      RunKeeps(cfg, t, run[..k], Some(owner));
      var before := Before(cfg, t, run, k).table;
      var order := AdminOrder(cfg, before, run[k].event);
      if order.Some? && ParseTarget(order.value.target).Ok? {
        var (user, machine) := ParseTarget(order.value.target).value;
        LabelledLosesNothing(before, user, machine, owner);
      }
    }
  }

  /** Row by row, nothing leaves pending; extra rows are pending. */
  lemma RowsApproveNobody(ms: seq<Machine>, ms': seq<Machine>, user: Name, public: Bytes)
    requires |ms| <= |ms'|
    requires forall i :: 0 <= i < |ms| ==>
               ms'[i].user == ms[i].user && ms'[i].public == ms[i].public && ms'[i].status == ms[i].status
    requires forall i :: |ms| <= i < |ms'| ==> ms'[i].status == Pending
    ensures ApprovedRow(ms', user, public) ==> ApprovedRow(ms, user, public)
  {
    if ApprovedRow(ms', user, public) {
      var m :| m in ms' && m.user == user && m.public == public && m.status != Pending;
      var i :| 0 <= i < |ms'| && ms'[i] == m;
      assert ms[i] in ms;
    }
  }

  lemma RegistrationApprovesNobody(t: Table, disk: Disk, user: Name, machine: Name, public: Bytes,
                                   salt: Bytes, verifier: Bytes, desired: int, u: Name, k: Bytes)
    ensures var t' := RegisterJoin(t, disk, user, machine, public, salt, verifier, desired).0;
            (ApprovedUser(t'.users, u) ==> ApprovedUser(t.users, u)) &&
            (ApprovedRow(t'.machines, u, k) ==> ApprovedRow(t.machines, u, k))
  {
    RowsApproveNobody(t.machines, RegisterJoin(t, disk, user, machine, public, salt, verifier, desired).0.machines, u,
                      k);
  }

  lemma MoveApprovesNobody(cfg: Config, t: Table, user: Name, machine: Name, desired: int, u: Name, k: Bytes)
    ensures var t' := MoveAddress(cfg, t, user, machine, desired).0;
            t'.users == t.users && (ApprovedRow(t'.machines, u, k) ==> ApprovedRow(t.machines, u, k))
  {
    RowsApproveNobody(t.machines, MoveAddress(cfg, t, user, machine, desired).0.machines, u, k);
  }

  lemma UpkeepApprovesNobody(cfg: Config, t: Table, user: Name, machine: Name, desired: int, u: Name, k: Bytes)
    ensures var t' := Upkeep(cfg, t, user, machine, desired);
            t'.users == t.users && (ApprovedRow(t'.machines, u, k) ==> ApprovedRow(t.machines, u, k))
  {
    MoveApprovesNobody(cfg, t, user, machine, DesiredOf(t, user, machine), u, k);
    MoveApprovesNobody(cfg, EnsureInSubnet(cfg, t, user, machine), user, machine, desired, u, k);
  }

  lemma AutoApproveApprovesAdmin(cfg: Config, t: Table, user: Name, machine: Name, u: Name, k: Bytes)
    requires Good(cfg, t, None)
    ensures var t' := AutoApproveAdmin(cfg, t, user, machine).0;
            t'.users == t.users && (ApprovedRow(t'.machines, u, k) ==> ApprovedRow(t.machines, u, k) || u == cfg.admin)
  {
    FoundUser(t, cfg.admin);
    var t1 := Allow(t, cfg.disk, user, machine).0;
    if user == cfg.admin && machine != [] {
      MoveApprovesNobody(cfg, t1, user, machine, DesiredOf(t1, user, machine), u, k);
      if u != cfg.admin && ApprovedRow(t1.machines, u, k) {
        var m :| m in t1.machines && m.user == u && m.public == k && m.status != Pending;
        assert m in t.machines;
      }
    }
  }

  lemma JoinTableApprovesAdmin(cfg: Config, t: Table, msg: JoinProof, user: Name, public: Bytes)
    requires Good(cfg, t, None)
    ensures var t' := JoinTable(cfg, t, msg).0;
            (ApprovedUser(t'.users, user) ==> ApprovedUser(t.users, user)) &&
            (ApprovedRow(t'.machines, user, public) ==> ApprovedRow(t.machines, user, public) || user == cfg.admin)
  {
    RegistrationApprovesNobody(t, cfg.disk, msg.user, msg.machine, msg.public, [], [], msg.desired, user, public);
    RegisterJoinGood(cfg, t, msg.user, msg.machine, msg.public, [], [], msg.desired, None);
    var t1 := RegisterJoin(t, cfg.disk, msg.user, msg.machine, msg.public, [], [], msg.desired).0;
    UpkeepApprovesNobody(cfg, t1, msg.user, msg.machine, msg.desired, user, public);
    UpkeepKeeps(cfg, t1, msg.user, msg.machine, msg.desired, None);
    UpkeepKeeps(cfg, EnsureInSubnet(cfg, t1, msg.user, msg.machine), msg.user, msg.machine, msg.desired, None);
    AutoApproveApprovesAdmin(cfg, Upkeep(cfg, t1, msg.user, msg.machine, msg.desired), msg.user, msg.machine, user,
                             public);
  }

  lemma RequestApprovesNobody(cfg: Config, s: ServerState, req: JoinRequest, nonce: Option<Bytes>, remote: Endpoint,
                              u: Name, k: Bytes)
    ensures var t' := HandleJoinRequest(cfg, s, req, nonce, remote).state.table;
            (ApprovedUser(t'.users, u) ==> ApprovedUser(s.table.users, u)) &&
            (ApprovedRow(t'.machines, u, k) ==> ApprovedRow(s.table.machines, u, k))
  {
    RegistrationApprovesNobody(s.table, cfg.disk, req.user, req.machine, req.public, req.salt, req.verifier,
                               req.desired, u, k);
  }

  /** Joins approve nobody, except machines of the admin user. */
  lemma JoinsApproveOnlyAdminMachines(cfg: Config, s: ServerState, e: Timed, user: Name, public: Bytes)
    requires Good(cfg, s.table, None) && (e.event.JoinRequestEvent? || e.event.JoinProofEvent?)
    ensures var t' := ServerStep(cfg, s, e).state.table;
            (ApprovedUser(t'.users, user) ==> ApprovedUser(s.table.users, user)) &&
            (ApprovedRow(t'.machines, user, public) ==>
             ApprovedRow(s.table.machines, user, public) || user == cfg.admin)
  {
    match e.event
    case JoinRequestEvent(req, nonce, remote) =>
      RequestApprovesNobody(cfg, s, req, nonce, remote, user, public);
    case JoinProofEvent(msg, remote) =>
      JoinTableApprovesAdmin(cfg, s.table, msg, user, public);
  }

  lemma ChangingMessage(cfg: Config, s: ServerState, env: Envelope, remote: Endpoint, now: nat)
    requires HandleSigned(cfg, s, env, remote, now).state.table != s.table
    ensures var auth := Authenticated(cfg, s.table, env);
            env.typ == TYPE_ADMIN_REQUEST && auth.Some? && auth.value.1.user == cfg.admin
  {
    var s' := OrderDecidesTable(cfg, s, Timed(SignedEvent(env, remote), now));
  }

  /** A message changes the registry only as an admin request signed by the admin machine that holds its source. */
  lemma OnlyAdminsManage(cfg: Config, s: ServerState, env: Envelope, remote: Endpoint, now: nat)
    requires HandleSigned(cfg, s, env, remote, now).state.table != s.table
    ensures env.typ == 0x32 && |env.body| >= 73
    ensures var row := FindMachineByIP(s.table, FromBe32(env.body[1..5]));
            row.Some? && row.value in s.table.machines && row.value.user == cfg.admin &&
            SignedByMachine(cfg.crypto, row.value, env.body)
  {
    ChangingMessage(cfg, s, env, remote, now);
    var (m, src) := Authenticated(cfg, s.table, env).value;
    AuthenticatedIff(cfg, s.table, env, m, src);
    FoundByIP(s.table, FromBe32(env.body[1..5]));
  }

  /** A machine that is not pending belongs to a registered user that is not pending. */
  lemma NonPendingMachineHasApprovedUser(cfg: Config, t: Table, run: seq<Timed>, m: Machine)
    requires Good(cfg, t, None)
    requires m in After(cfg, t, run).table.machines && m.status != Pending
    ensures ApprovedUser(After(cfg, t, run).table.users, m.user)
  {
    RunKeeps(cfg, t, run, None);
    var t' := After(cfg, t, run).table;
    var u :| u in t'.users && u.name == m.user;
    assert Compatible(u, m);
  }
}
