/**
 The server's own address over whole runs, from any saved table.  After the subnet was changed a saved table may
 hold it already; no step gives it to a machine that did not have it.
 */
module ServerAddress {
  import opened Basics
  import opened Seqs
  import opened Prefixes
  import opened Registry
  import opened Allocation
  import opened TableInvariants
  import opened ServerModel
  import opened ServerFrames
  import opened Grants
  import opened AddressStability

  predicate Holds(p: Prefix, m: Machine) {
    ServerIP(p).Some? && m.vpnIP == ServerIP(p)
  }

  ghost predicate HeldBy(p: Prefix, ms: seq<Machine>, user: Name, public: Bytes) {
    exists m :: m in ms && m.user == user && m.public == public && Holds(p, m)
  }

  /** Every user and key that hold the server's address did so before. */
  ghost predicate OnlyOldHolders(p: Prefix, ms: seq<Machine>, ms': seq<Machine>) {
    forall user, public :: HeldBy(p, ms', user, public) ==> HeldBy(p, ms, user, public)
  }

  lemma RowByRow(p: Prefix, ms: seq<Machine>, ms': seq<Machine>)
    requires forall i :: 0 <= i < |ms'| && Holds(p, ms'[i]) ==>
               i < |ms| && Holds(p, ms[i]) && ms'[i].user == ms[i].user && ms'[i].public == ms[i].public
    ensures OnlyOldHolders(p, ms, ms')
  {
    forall user, public | HeldBy(p, ms', user, public)
      ensures HeldBy(p, ms, user, public)
    {
      var m :| m in ms' && m.user == user && m.public == public && Holds(p, m);
      var i :| 0 <= i < |ms'| && ms'[i] == m;
      assert ms[i] in ms;
    }
  }

  lemma FewerRows(p: Prefix, ms: seq<Machine>, keep: Machine -> bool)
    ensures OnlyOldHolders(p, ms, Filter(ms, keep))
  {
    forall user, public | HeldBy(p, Filter(ms, keep), user, public)
      ensures HeldBy(p, ms, user, public)
    {
      var m :| m in Filter(ms, keep) && m.user == user && m.public == public && Holds(p, m);
      assert m in ms;
    }
  }

  // Operations.

  lemma MoveGivesNoServerAddress(cfg: Config, t: Table, user: Name, machine: Name, desired: int)
    ensures OnlyOldHolders(cfg.subnet, t.machines, MoveAddress(cfg, t, user, machine, desired).0.machines)
  {
    if Allocate(t, cfg.subnet, desired).Ok? {
      AllocationSound(t, cfg.subnet, desired);
    }
    RowByRow(cfg.subnet, t.machines, MoveAddress(cfg, t, user, machine, desired).0.machines);
  }

  lemma UpkeepGivesNoServerAddress(cfg: Config, t: Table, user: Name, machine: Name, desired: int)
    ensures OnlyOldHolders(cfg.subnet, t.machines, Upkeep(cfg, t, user, machine, desired).machines)
  {
    MoveGivesNoServerAddress(cfg, t, user, machine, DesiredOf(t, user, machine));
    MoveGivesNoServerAddress(cfg, EnsureInSubnet(cfg, t, user, machine), user, machine, desired);
  }

  lemma AllowGivesNoAddress(p: Prefix, t: Table, disk: Disk, user: Name, machine: Name)
    ensures OnlyOldHolders(p, t.machines, Allow(t, disk, user, machine).0.machines)
  {
    RowByRow(p, t.machines, Allow(t, disk, user, machine).0.machines);
  }

  lemma BlockGivesNoAddress(p: Prefix, t: Table, disk: Disk, user: Name, machine: Name)
    ensures OnlyOldHolders(p, t.machines, Block(t, disk, user, machine).0.machines)
  {
    RowByRow(p, t.machines, Block(t, disk, user, machine).0.machines);
  }

  lemma UnblockGivesNoAddress(p: Prefix, t: Table, disk: Disk, user: Name, machine: Name)
    ensures OnlyOldHolders(p, t.machines, Unblock(t, disk, user, machine).0.machines)
  {
    RowByRow(p, t.machines, Unblock(t, disk, user, machine).0.machines);
  }

  lemma AutoApproveGivesNoServerAddress(cfg: Config, t: Table, user: Name, machine: Name)
    ensures OnlyOldHolders(cfg.subnet, t.machines, AutoApproveAdmin(cfg, t, user, machine).0.machines)
  {
    AllowGivesNoAddress(cfg.subnet, t, cfg.disk, user, machine);
    var t1 := Allow(t, cfg.disk, user, machine).0;
    MoveGivesNoServerAddress(cfg, t1, user, machine, DesiredOf(t1, user, machine));
  }

  lemma RegistrationGivesNoAddress(p: Prefix, t: Table, disk: Disk, user: Name, machine: Name, public: Bytes,
                                   salt: Bytes, verifier: Bytes, desired: int)
    ensures OnlyOldHolders(p, t.machines,
                           RegisterJoin(t, disk, user, machine, public, salt, verifier, desired).0.machines)
  {
    RowByRow(p, t.machines, RegisterJoin(t, disk, user, machine, public, salt, verifier, desired).0.machines);
  }

  lemma JoinGivesNoServerAddress(cfg: Config, t: Table, msg: JoinProof)
    ensures OnlyOldHolders(cfg.subnet, t.machines, JoinTable(cfg, t, msg).0.machines)
  {
    RegistrationGivesNoAddress(cfg.subnet, t, cfg.disk, msg.user, msg.machine, msg.public, [], [], msg.desired);
    var t1 := Registered(cfg, t, msg);
    UpkeepGivesNoServerAddress(cfg, t1, msg.user, msg.machine, msg.desired);
    AutoApproveGivesNoServerAddress(cfg, Upkeep(cfg, t1, msg.user, msg.machine, msg.desired), msg.user, msg.machine);
  }

  lemma AllowUserGivesNoAddress(cfg: Config, s: ServerState, user: Name, to: Name)
    ensures OnlyOldHolders(cfg.subnet, s.table.machines, AllowUser(cfg, s, user, to).state.table.machines)
  {
    AllowGivesNoAddress(cfg.subnet, s.table, cfg.disk, user, []);
    UnblockGivesNoAddress(cfg.subnet, s.table, cfg.disk, user, []);
  }

  lemma ApproveGivesNoServerAddress(cfg: Config, s: ServerState, user: Name, machine: Name)
    ensures OnlyOldHolders(cfg.subnet, s.table.machines, ApproveMachine(cfg, s, user, machine).state.table.machines)
  {
    MoveGivesNoServerAddress(cfg, s.table, user, machine, DesiredOf(s.table, user, machine));
  }

  lemma AllowMachineGivesNoServerAddress(cfg: Config, s: ServerState, user: Name, machine: Name, to: Name)
    ensures OnlyOldHolders(cfg.subnet, s.table.machines, AllowMachine(cfg, s, user, machine, to).state.table.machines)
  {
    var m := GetMachine(s.table, user, machine);
    if m.Some? {
      match m.value.status
      case Pending =>
        AllowGivesNoAddress(cfg.subnet, s.table, cfg.disk, user, machine);
        var allowed := WithTable(s, Allow(s.table, cfg.disk, user, machine));
        if allowed.outcome.Done? {
          ApproveGivesNoServerAddress(cfg, allowed.state, user, machine);
        }
      case Blocked => UnblockGivesNoAddress(cfg.subnet, s.table, cfg.disk, user, machine);
      case Active =>
    }
  }

  lemma DenyRowGivesNoAddress(p: Prefix, t: Table, disk: Disk, user: Name, machine: Name)
    ensures OnlyOldHolders(p, t.machines, DenyRow(t, disk, user, machine).0.machines)
  {
    BlockGivesNoAddress(p, t, disk, user, machine);
    FewerRows(p, t.machines, NotOfUser(user));
    FewerRows(p, t.machines, NotMachine(user, machine));
  }

  lemma DenyGivesNoAddress(p: Prefix, t: Table, disk: Disk, user: Name, machine: Name, to: Name)
    ensures OnlyOldHolders(p, t.machines, ServerDeny(t, disk, user, machine, to).0.machines)
  {
    var subject := Subject(user, machine);
    RevokeAllTouchesGrantsOnly(t, disk, subject, GrantsOf(t.grants, subject));
    DenyRowGivesNoAddress(p, RevokeAll(t, disk, subject, GrantsOf(t.grants, subject)).0, disk, user, machine);
  }

  lemma OrderGivesNoServerAddress(cfg: Config, s: ServerState, order: AdminRequest)
    ensures OnlyOldHolders(cfg.subnet, s.table.machines, OrderedTable(cfg, s, order).machines)
  {
    if ParseTarget(order.target).Ok? {
      var (user, machine) := ParseTarget(order.target).value;
      AllowUserGivesNoAddress(cfg, s, user, order.to);
      AllowMachineGivesNoServerAddress(cfg, s, user, machine, order.to);
      DenyGivesNoAddress(cfg.subnet, s.table, cfg.disk, user, machine, order.to);
    }
  }

  // Steps and runs.

  lemma StepGivesNoServerAddress(cfg: Config, s: ServerState, e: Timed)
    ensures OnlyOldHolders(cfg.subnet, s.table.machines, ServerStep(cfg, s, e).state.table.machines)
  {
    match e.event
    case JoinRequestEvent(req, nonce, remote) =>
      RegistrationGivesNoAddress(cfg.subnet, s.table, cfg.disk, req.user, req.machine, req.public, req.salt,
                                 req.verifier, req.desired);
    case JoinProofEvent(msg, remote) => JoinGivesNoServerAddress(cfg, s.table, msg);
    case ReloadEvent(salt, verifier) =>
    case _ =>
      var s' := OrderDecidesTable(cfg, s, e);
      var order := AdminOrder(cfg, s.table, e.event);
      if order.Some? {
        OrderGivesNoServerAddress(cfg, s', order.value);
      }
  }

  /** Whoever holds the server's address after a run, from whatever saved table, held it in that table. */
  lemma {:induction false} ServerAddressIsNeverGiven(cfg: Config, t: Table, run: seq<Timed>)
    ensures OnlyOldHolders(cfg.subnet, t.machines, After(cfg, t, run).table.machines)
  {
    if run == [] {
    } else {
      ServerAddressIsNeverGiven(cfg, t, run[..|run| - 1]);
      StepGivesNoServerAddress(cfg, After(cfg, t, run[..|run| - 1]), run[|run| - 1]);
    }
  }

  ghost predicate NobodyHolds(p: Prefix, ms: seq<Machine>) {
    forall m :: m in ms ==> !Holds(p, m)
  }

  /** In no run from `t` does a machine hold the server's address. */
  ghost predicate AlwaysFree(cfg: Config, t: Table) {
    forall run: seq<Timed> :: NobodyHolds(cfg.subnet, After(cfg, t, run).table.machines)
  }

  lemma FreeAfterRun(cfg: Config, t: Table, run: seq<Timed>)
    requires NobodyHolds(cfg.subnet, t.machines)
    ensures NobodyHolds(cfg.subnet, After(cfg, t, run).table.machines)
  {
    ServerAddressIsNeverGiven(cfg, t, run);
    forall m | m in After(cfg, t, run).table.machines
      ensures !Holds(cfg.subnet, m)
    {
      assert Holds(cfg.subnet, m) ==> HeldBy(cfg.subnet, After(cfg, t, run).table.machines, m.user, m.public);
    }
  }

  /** The server's address stays free in every run exactly when no machine of the saved table holds it. */
  lemma ServerAddressStaysFreeIff(cfg: Config, saved: Table, salt: Bytes, verifier: Bytes)
    ensures NobodyHolds(cfg.subnet, saved.machines) <==>
            AlwaysFree(cfg, EnsureAdmin(saved, cfg.disk, cfg.admin, salt, verifier).0)
  {
    var t := EnsureAdmin(saved, cfg.disk, cfg.admin, salt, verifier).0;
    assert t.machines == saved.machines;
    if NobodyHolds(cfg.subnet, saved.machines) {
      forall run: seq<Timed>
        ensures NobodyHolds(cfg.subnet, After(cfg, t, run).table.machines)
      {
        FreeAfterRun(cfg, t, run);
      }
    }
    if AlwaysFree(cfg, t) {
      assert NobodyHolds(cfg.subnet, After(cfg, t, []).table.machines);
    }
  }

  /**
   The move to a new subnet does not free it: a machine bound to 10.0.5.1 under 10.0.0.0/16 keeps that address
   when it rejoins without a pin under 10.0.5.0/24, where it is the server's.
   */
  lemma RejoinKeepsServerAddress(cfg: Config, proof: Bytes)
    requires cfg.subnet == Prefix(0x0A00_0500, 24)
    ensures var b, x, k := [2], [10], [5];
            var t := Table([User(b, [1], [1], Active)], [Machine(b, x, 0, k, Some(0x0A00_0501), Active)], [], 0);
            var was := Prefix(0x0A00_0000, 16);
            && Sound(t) && NobodyHolds(was, t.machines) && Contains(was, 0x0A00_0501)
            && ServerIP(cfg.subnet) == Some(0x0A00_0501)
            && JoinTable(cfg, t, JoinProof(b, x, k, proof, 0)).0.machines == t.machines
  {
    var b, x, k := [2], [10], [5];
    var user, row := User(b, [1], [1], Active), Machine(b, x, 0, k, Some(0x0A00_0501), Active);
    var t, msg := Table([user], [row], [], 0), JoinProof(b, x, k, proof, 0);
    Pow2Divides(16, 8);
    assert Pow2(8) == 0x100;
    assert t.users[0] == user && HasUser(t.users, b);
    assert FindUser(t, b) == 0 by {
      assert NamedUser(b)(t.users[0]);
    }
    assert First(t.machines, HasPublic(k)) == 0 by {
      assert HasPublic(k)(t.machines[0]);
    }
    assert Registered(cfg, t, msg).machines == [row];
    assert FindMachine(Registered(cfg, t, msg), b, x) == 0 by {
      assert IsMachine(b, x)(row);
    }
  }
}
