/** A blocked machine over server runs: nothing from or to it is relayed until an accepted order lifts the block. */
module MachineSilence {
  import opened Basics
  import opened Seqs
  import opened Registry
  import opened TableInvariants
  import opened Grants
  import opened ServerModel
  import opened ServerFrames
  import opened RegistryRuns
  import opened AdminEffects
  import opened RelaySafety

  /** What identifies a machine, and the name by which orders address it. */
  datatype Label = Label(user: Name, public: Bytes, name: Name)

  predicate Is(m: Machine, id: Label) {
    m.user == id.user && m.public == id.public && m.name == id.name
  }

  ghost predicate RowBlocked(ms: seq<Machine>, id: Label) {
    exists m :: m in ms && Is(m, id) && m.status == Blocked
  }

  // Elementary changes.

  lemma ChangedRowKeepsBlock(ms: seq<Machine>, ms': seq<Machine>, id: Label)
    requires RowBlocked(ms, id) && |ms| <= |ms'|
    requires forall i :: 0 <= i < |ms| && Is(ms[i], id) && ms[i].status == Blocked ==>
             Is(ms'[i], id) && ms'[i].status == Blocked
    ensures RowBlocked(ms', id)
  {
    var m :| m in ms && Is(m, id) && m.status == Blocked;
    var i :| 0 <= i < |ms| && ms[i] == m;
    assert ms'[i] in ms';
  }

  lemma FilterKeepsBlock(ms: seq<Machine>, keep: Machine -> bool, id: Label)
    requires RowBlocked(ms, id)
    requires forall m :: m in ms && Is(m, id) && m.status == Blocked ==> keep(m)
    ensures RowBlocked(Filter(ms, keep), id)
  {
    var m :| m in ms && Is(m, id) && m.status == Blocked;
    assert m in Filter(ms, keep);
  }

  // Operations.

  lemma MoveKeepsBlock(cfg: Config, t: Table, user: Name, machine: Name, desired: int, id: Label)
    requires RowBlocked(t.machines, id)
    ensures RowBlocked(MoveAddress(cfg, t, user, machine, desired).0.machines, id)
  {
    ChangedRowKeepsBlock(t.machines, MoveAddress(cfg, t, user, machine, desired).0.machines, id);
  }

  lemma UpkeepKeepsBlock(cfg: Config, t: Table, user: Name, machine: Name, desired: int, id: Label)
    requires RowBlocked(t.machines, id)
    ensures RowBlocked(Upkeep(cfg, t, user, machine, desired).machines, id)
  {
    MoveKeepsBlock(cfg, t, user, machine, DesiredOf(t, user, machine), id);
    MoveKeepsBlock(cfg, EnsureInSubnet(cfg, t, user, machine), user, machine, desired, id);
  }

  lemma AllowKeepsBlock(t: Table, disk: Disk, user: Name, machine: Name, id: Label)
    requires RowBlocked(t.machines, id)
    ensures RowBlocked(Allow(t, disk, user, machine).0.machines, id)
  {
    ChangedRowKeepsBlock(t.machines, Allow(t, disk, user, machine).0.machines, id);
  }

  lemma BlockKeepsBlock(t: Table, disk: Disk, user: Name, machine: Name, id: Label)
    requires RowBlocked(t.machines, id)
    ensures RowBlocked(Block(t, disk, user, machine).0.machines, id)
  {
    ChangedRowKeepsBlock(t.machines, Block(t, disk, user, machine).0.machines, id);
  }

  lemma UnblockOfOthersKeepsBlock(t: Table, disk: Disk, user: Name, machine: Name, id: Label)
    requires RowBlocked(t.machines, id) && (user != id.user || (machine != [] && machine != id.name))
    ensures RowBlocked(Unblock(t, disk, user, machine).0.machines, id)
  {
    var i := FindMachine(t, user, machine);
    assert i < |t.machines| ==> IsMachine(user, machine)(t.machines[i]);
    ChangedRowKeepsBlock(t.machines, Unblock(t, disk, user, machine).0.machines, id);
  }

  lemma RegistrationKeepsBlock(t: Table, disk: Disk, user: Name, machine: Name, public: Bytes,
                               salt: Bytes, verifier: Bytes, desired: int, id: Label)
    requires RowBlocked(t.machines, id)
    ensures RowBlocked(RegisterJoin(t, disk, user, machine, public, salt, verifier, desired).0.machines, id)
  {
    ChangedRowKeepsBlock(t.machines, RegisterJoin(t, disk, user, machine, public, salt, verifier, desired).0.machines,
                         id);
  }

  lemma AutoApproveKeepsBlock(cfg: Config, t: Table, user: Name, machine: Name, id: Label)
    requires RowBlocked(t.machines, id)
    ensures RowBlocked(AutoApproveAdmin(cfg, t, user, machine).0.machines, id)
  {
    AllowKeepsBlock(t, cfg.disk, user, machine, id);
    var t1 := Allow(t, cfg.disk, user, machine).0;
    MoveKeepsBlock(cfg, t1, user, machine, DesiredOf(t1, user, machine), id);
  }

  lemma JoinKeepsBlock(cfg: Config, t: Table, msg: JoinProof, id: Label)
    requires RowBlocked(t.machines, id)
    ensures RowBlocked(JoinTable(cfg, t, msg).0.machines, id)
  {
    RegistrationKeepsBlock(t, cfg.disk, msg.user, msg.machine, msg.public, [], [], msg.desired, id);
    var t1 := RegisterJoin(t, cfg.disk, msg.user, msg.machine, msg.public, [], [], msg.desired).0;
    UpkeepKeepsBlock(cfg, t1, msg.user, msg.machine, msg.desired, id);
    AutoApproveKeepsBlock(cfg, Upkeep(cfg, t1, msg.user, msg.machine, msg.desired), msg.user, msg.machine, id);
  }

  // Orders.

  /**
   Allowing user/machine lifts the block of a machine with that name; allowing a blocked user lifts all its blocks.
   */
  predicate LiftsFor(t: Table, user: Name, machine: Name, id: Label) {
    user == id.user &&
    (machine == id.name || (machine == [] && GetUser(t, user).Some? && GetUser(t, user).value.status == Blocked))
  }

  lemma AllowUserKeepsBlock(cfg: Config, s: ServerState, user: Name, to: Name, id: Label)
    requires RowBlocked(s.table.machines, id) && !LiftsFor(s.table, user, [], id)
    ensures RowBlocked(AllowUser(cfg, s, user, to).state.table.machines, id)
  {
    var u := GetUser(s.table, user);
    if u.Some? {
      match u.value.status
      case Pending => AllowKeepsBlock(s.table, cfg.disk, user, [], id);
      case Blocked => UnblockOfOthersKeepsBlock(s.table, cfg.disk, user, [], id);
      case Active =>
    }
  }

  lemma ApproveKeepsBlock(cfg: Config, s: ServerState, user: Name, machine: Name, id: Label)
    requires RowBlocked(s.table.machines, id)
    ensures RowBlocked(ApproveMachine(cfg, s, user, machine).state.table.machines, id)
  {
    MoveKeepsBlock(cfg, s.table, user, machine, DesiredOf(s.table, user, machine), id);
  }

  lemma AllowMachineKeepsBlock(cfg: Config, s: ServerState, user: Name, machine: Name, to: Name, id: Label)
    requires RowBlocked(s.table.machines, id) && machine != [] && !LiftsFor(s.table, user, machine, id)
    ensures RowBlocked(AllowMachine(cfg, s, user, machine, to).state.table.machines, id)
  {
    var m := GetMachine(s.table, user, machine);
    if m.Some? {
      match m.value.status
      case Pending =>
        AllowKeepsBlock(s.table, cfg.disk, user, machine, id);
        var allowed := WithTable(s, Allow(s.table, cfg.disk, user, machine));
        if allowed.outcome.Done? {
          ApproveKeepsBlock(cfg, allowed.state, user, machine, id);
        }
      case Blocked => UnblockOfOthersKeepsBlock(s.table, cfg.disk, user, machine, id);
      case Active =>
    }
  }

  lemma DenyRowKeepsBlock(t: Table, disk: Disk, user: Name, machine: Name, id: Label)
    requires Sound(t) && RowBlocked(t.machines, id)
    requires !(user == id.user && machine == id.name && LosingRow(t, user, machine))
    ensures RowBlocked(DenyRow(t, disk, user, machine).0.machines, id)
  {
    BlockKeepsBlock(t, disk, user, machine, id);
    if machine == [] {
      FoundUser(t, user);
      var u := GetUser(t, user);
      if u.Some? && u.value.status == Pending {
        assert forall m :: m in t.machines ==> Compatible(u.value, m);
        FilterKeepsBlock(t.machines, NotOfUser(user), id);
      }
    } else if GetMachine(t, user, machine).Some? && GetMachine(t, user, machine).value.status == Pending {
      FilterKeepsBlock(t.machines, NotMachine(user, machine), id);
    }
  }

  lemma ServerDenyKeepsBlock(t: Table, disk: Disk, user: Name, machine: Name, to: Name, id: Label)
    requires Sound(t) && RowBlocked(t.machines, id)
    requires !(user == id.user && machine == id.name && LosingTarget(t, disk, user, machine, to))
    ensures RowBlocked(ServerDeny(t, disk, user, machine, to).0.machines, id)
  {
    var subject := Subject(user, machine);
    var targets := GrantsOf(t.grants, subject);
    RevokeAllTouchesGrantsOnly(t, disk, subject, targets);
    RevokeAllDoneIff(t, disk, subject, targets);
    var (t1, outcome) := RevokeAll(t, disk, subject, targets);
    if to == [] && outcome.Done? {
      SameRowsSameLoss(t, t1, user, machine);
      DenyRowKeepsBlock(t1, disk, user, machine, id);
    }
  }

  /** The order lifts the block of `id`. */
  predicate OrderLifts(t: Table, order: AdminRequest, id: Label) {
    order.command == AllowCommand && ParseTarget(order.target).Ok? &&
    LiftsFor(t, ParseTarget(order.target).value.0, ParseTarget(order.target).value.1, id)
  }

  /** The order is a losing deny of the name of `id`. */
  ghost predicate OrderRemoves(cfg: Config, t: Table, order: AdminRequest, id: Label) {
    LosingOrder(cfg, t, order) && ParseTarget(order.target) == Ok((id.user, id.name))
  }

  lemma OrderKeepsBlock(cfg: Config, s: ServerState, order: AdminRequest, id: Label)
    requires Sound(s.table) && RowBlocked(s.table.machines, id)
    requires !OrderLifts(s.table, order, id) && !OrderRemoves(cfg, s.table, order, id)
    ensures RowBlocked(OrderedTable(cfg, s, order).machines, id)
  {
    if ParseTarget(order.target).Ok? {
      var (user, machine) := ParseTarget(order.target).value;
      if order.command == AllowCommand {
        if machine == [] {
          AllowUserKeepsBlock(cfg, s, user, order.to, id);
        } else {
          AllowMachineKeepsBlock(cfg, s, user, machine, order.to, id);
        }
      } else if order.command == DenyCommand {
        ServerDenyKeepsBlock(s.table, cfg.disk, user, machine, order.to, id);
      }
    }
  }

  // Steps and runs.

  /** Event `e` is an order that lifts the block of `id`, or a losing deny that removes its row. */
  ghost predicate Ends(cfg: Config, t: Table, e: Event, id: Label) {
    var order := AdminOrder(cfg, t, e);
    order.Some? && (OrderLifts(t, order.value, id) || OrderRemoves(cfg, t, order.value, id))
  }

  lemma StepKeepsBlock(cfg: Config, s: ServerState, e: Timed, id: Label)
    requires Sound(s.table) && RowBlocked(s.table.machines, id) && !Ends(cfg, s.table, e.event, id)
    ensures RowBlocked(ServerStep(cfg, s, e).state.table.machines, id)
  {
    match e.event
    case JoinRequestEvent(req, nonce, remote) =>
      RegistrationKeepsBlock(s.table, cfg.disk, req.user, req.machine, req.public, req.salt, req.verifier, req.desired,
                             id);
    case JoinProofEvent(msg, remote) => JoinKeepsBlock(cfg, s.table, msg, id);
    case ReloadEvent(salt, verifier) =>
    case _ =>
      var s' := OrderDecidesTable(cfg, s, e);
      var order := AdminOrder(cfg, s.table, e.event);
      if order.Some? {
        OrderKeepsBlock(cfg, s', order.value, id);
      }
  }

  lemma BlockStaysOnce(cfg: Config, t: Table, run: seq<Timed>, k: nat, id: Label)
    requires Good(cfg, t, None) && k < |run| && RowBlocked(Before(cfg, t, run, k).table.machines, id)
    requires !Ends(cfg, Before(cfg, t, run, k).table, run[k].event, id)
    ensures RowBlocked(Before(cfg, t, run, k + 1).table.machines, id)
  {
    RunKeeps(cfg, t, run[..k], None);
    BeforeStep(cfg, t, run, k);
    StepKeepsBlock(cfg, Before(cfg, t, run, k), run[k], id);
  }

  /** A blocked machine keeps its name and stays blocked until an order lifts the block or a losing deny removes it. */
  lemma BlockedUntilLifted(cfg: Config, t: Table, run: seq<Timed>, i: nat, j: nat, id: Label)
    requires Good(cfg, t, None) && i <= j <= |run| && RowBlocked(Before(cfg, t, run, i).table.machines, id)
    requires forall k :: i <= k < j ==> !Ends(cfg, Before(cfg, t, run, k).table, run[k].event, id)
    ensures RowBlocked(Before(cfg, t, run, j).table.machines, id)
  {
    if i < j && !RowBlocked(Before(cfg, t, run, j).table.machines, id) {
      var blocked := (n: nat) => n <= |run| && RowBlocked(Before(cfg, t, run, n).table.machines, id);
      var k := LostAtSomeStep(blocked, i, j);
      BlockStaysOnce(cfg, t, run, k, id);
    }
  }

  /** While it is blocked no relay request from or to it is honoured. */
  lemma BlockedMachineIsSilent(cfg: Config, t: Table, e: Event, id: Label)
    requires Sound(t) && RowBlocked(t.machines, id)
    ensures var request := RequestOf(cfg, t, e);
            request.Some? ==>
              !(request.value.src.user == id.user && request.value.src.public == id.public) &&
              !(request.value.dst.user == id.user && request.value.dst.public == id.public)
  {
    if RequestOf(cfg, t, e).Some? {
      RequestIsAuthentic(cfg, t, e);
      var m :| m in t.machines && Is(m, id) && m.status == Blocked;
    }
  }

  /** Event `e` denies user/machine without a target and all revocations are written. */
  ghost predicate DeniesMachine(cfg: Config, t: Table, e: Event, user: Name, machine: Name) {
    var order := AdminOrder(cfg, t, e);
    machine != [] && order.Some? && order.value.command == DenyCommand && order.value.to == [] &&
    ParseTarget(order.value.target) == Ok((user, machine)) && RevocationsWritten(t, cfg.disk, JoinKey(user, machine))
  }

  lemma DenyBlocksRow(cfg: Config, s: ServerState, e: Timed, user: Name, machine: Name, row: Machine)
    requires DeniesMachine(cfg, s.table, e.event, user, machine)
    requires GetMachine(s.table, user, machine) == Some(row) && row.status == Active
    ensures RowBlocked(ServerStep(cfg, s, e).state.table.machines, Label(user, row.public, machine))
  {
    var s' := OrderDecidesTable(cfg, s, e);
    FoundMachine(s.table, user, machine);
    DenyBlocksActiveMachineIff(s.table, cfg.disk, user, machine);
    var k, ms' := FindMachine(s.table, user, machine), ServerStep(cfg, s, e).state.table.machines;
    assert ms'[k] == row.(status := Blocked) && ms'[k] in ms';
  }

  /** Once an active machine has been denied and its grants are gone from the disk, it stays blocked until that ends. */
  lemma DeniedMachineStaysBlocked(cfg: Config, t: Table, run: seq<Timed>, i: nat, j: nat,
                                  user: Name, machine: Name, row: Machine)
    requires Good(cfg, t, None) && i < j <= |run|
    requires DeniesMachine(cfg, Before(cfg, t, run, i).table, run[i].event, user, machine)
    requires GetMachine(Before(cfg, t, run, i).table, user, machine) == Some(row) && row.status == Active
    requires forall k :: i < k < j ==>
               !Ends(cfg, Before(cfg, t, run, k).table, run[k].event, Label(user, row.public, machine))
    ensures Sound(Before(cfg, t, run, j).table)
    ensures RowBlocked(Before(cfg, t, run, j).table.machines, Label(user, row.public, machine))
  {
    var id := Label(user, row.public, machine);
    BeforeStep(cfg, t, run, i);
    DenyBlocksRow(cfg, Before(cfg, t, run, i), run[i], user, machine, row);
    BlockedUntilLifted(cfg, t, run, i + 1, j, id);
    RunKeeps(cfg, t, run[..j], None);
  }

  /**
   Once an active machine has been denied, and its grants are gone from the disk, no relay request from or to it is
   honoured until an accepted order allows it by name, or allows its user while that is blocked too, or a deny of a
   pending machine of the same name takes its row away.
   */
  lemma DeniedMachineStaysSilent(cfg: Config, t: Table, run: seq<Timed>, i: nat, j: nat,
                                 user: Name, machine: Name, row: Machine)
    requires Good(cfg, t, None) && i < j < |run|
    requires DeniesMachine(cfg, Before(cfg, t, run, i).table, run[i].event, user, machine)
    requires GetMachine(Before(cfg, t, run, i).table, user, machine) == Some(row) && row.status == Active
    requires forall k :: i < k < j ==>
               !Ends(cfg, Before(cfg, t, run, k).table, run[k].event, Label(user, row.public, machine))
    ensures var request := RequestOf(cfg, Before(cfg, t, run, j).table, run[j].event);
            request.Some? ==>
              !(request.value.src.user == user && request.value.src.public == row.public) &&
              !(request.value.dst.user == user && request.value.dst.public == row.public)
  {
    DeniedMachineStaysBlocked(cfg, t, run, i, j, user, machine, row);
    BlockedMachineIsSilent(cfg, Before(cfg, t, run, j).table, run[j].event, Label(user, row.public, machine));
  }
}
