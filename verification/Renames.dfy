/** Joins that change labels: what a rename does to grants, and a key that is presented for another user. */
module Renames {
  import opened Basics
  import opened Seqs
  import opened Registry
  import opened Policy
  import opened TableInvariants
  import opened Grants
  import opened AdminEffects
  import opened ServerModel

  // Renaming.

  /** No grant is needed from `user` to `dst`, or none counts. */
  predicate GrantsIrrelevant(admin: Name, user: Name, dst: Machine) {
    user == admin || user == dst.user || dst.user != admin
  }

  /**
   Grants go by name.  A rename of the source leaves a direction as it was exactly when no grant is looked at, the
   whole user holds one, or both names do or do not hold one; a rename of an admin machine under the same terms.
   */
  lemma RenameKeepsDirectionIff(admin: Name, t: Table, row: Machine, name: Name, other: Machine)
    ensures AllowRelay(admin, t, row.(name := name), other) == AllowRelay(admin, t, row, other) <==>
            GrantsIrrelevant(admin, row.user, other) || UserGranted(t, row.user, other.name) ||
            MachineGranted(t, row.user, name, other.name) == MachineGranted(t, row.user, row.name, other.name)
    ensures AllowRelay(admin, t, other, row.(name := name)) == AllowRelay(admin, t, other, row) <==>
            GrantsIrrelevant(admin, other.user, row) ||
            IsGranted(t, other.user, other.name, name) == IsGranted(t, other.user, other.name, row.name)
  {
    GrantedByUserOrMachine(t, row.user, row.name, other.name);
    GrantedByUserOrMachine(t, row.user, name, other.name);
  }

  /** So it is with the row that a join renames: the join itself leaves the grants alone. */
  lemma RenamingJoinKeepsDirectionIff(admin: Name, t: Table, disk: Disk, user: Name, machine: Name, public: Bytes,
                                      desired: int, other: Machine)
    requires GetUser(t, user).Some? && GetUser(t, user).value.status != Blocked
    requires First(t.machines, HasPublic(public)) < |t.machines|
    requires RegisterJoin(t, disk, user, machine, public, [], [], desired).1.Ok? &&
             RegisterJoin(t, disk, user, machine, public, [], [], desired).1.value != Blocked
    ensures var k := First(t.machines, HasPublic(public));
            var t' := RegisterJoin(t, disk, user, machine, public, [], [], desired).0;
            var row := t.machines[k];
            k < |t'.machines| &&
            (AllowRelay(admin, t', t'.machines[k], other) == AllowRelay(admin, t, row, other) <==>
               GrantsIrrelevant(admin, row.user, other) || UserGranted(t, row.user, other.name) ||
               MachineGranted(t, row.user, machine, other.name) == MachineGranted(t, row.user, row.name, other.name))
  {
    var k, t' := First(t.machines, HasPublic(public)), RegisterJoin(t, disk, user, machine, public, [], [], desired).0;
    RegistrationEffect(t, disk, user, machine, public, desired);
    RenameKeepsDirectionIff(admin, t, t.machines[k], machine, other);
    assert t'.grants == t.grants;
  }

  /** A machine that joins again under another name loses the direction its old name was granted. */
  lemma RenameCanCloseDirection(cfg: Config)
    requires cfg.admin == [1]
    ensures var b, x, y, k := [2], [10], [11], [5];
            var t := Table([User(cfg.admin, [1], [1], Active), User(b, [1], [1], Active)],
                           [Machine(b, x, 0, k, Some(9), Active)], [Grant(JoinKey(b, x), SERVER_NAME)], 0);
            var t' := RegisterJoin(t, cfg.disk, b, y, k, [], [], 0).0;
            && Sound(t) && t'.machines == [t.machines[0].(name := y)] && t'.grants == t.grants
            && AllowRelay(cfg.admin, t, t.machines[0], ServerMachine(cfg.admin))
            && !AllowRelay(cfg.admin, t', t'.machines[0], ServerMachine(cfg.admin))
  {
    var b, x, y, k := [2], [10], [11], [5];
    var row := Machine(b, x, 0, k, Some(9), Active);
    var users := [User(cfg.admin, [1], [1], Active), User(b, [1], [1], Active)];
    var t := Table(users, [row], [Grant(JoinKey(b, x), SERVER_NAME)], 0);
    assert users[1] in users && HasUser(users, b);
    assert FindUser(t, b) == 1 by {
      assert NamedUser(b)(users[1]) && !NamedUser(b)(users[0]);
    }
    assert First(t.machines, HasPublic(k)) == 0 by {
      assert HasPublic(k)(t.machines[0]);
    }
    assert First(t.machines, UsesName(b, y, k)) == 1 by {
      assert !UsesName(b, y, k)(t.machines[0]);
    }
    assert t.grants[0] in t.grants;
    assert JoinKey(b, x)[2] == 10 && JoinKey(b, y)[2] == 11 && |JoinKey(b, x)| == 3;
  }

  // Keys presented for another user.

  /** Another key of the asking user already has the asked name. */
  predicate NameHeld(t: Table, msg: JoinProof) {
    exists m :: m in t.machines && m.user == msg.user && m.name == msg.machine && m.public != msg.public
  }

  /** Row `i` is the first with the key of `msg`, and the join changes a field of it. */
  predicate RewritesForeignRow(t: Table, msg: JoinProof, i: nat)
    requires i < |t.machines|
  {
    var m, u := t.machines[i], GetUser(t, msg.user);
    && u.Some? && u.value.status != Blocked
    && m.public == msg.public && (forall j :: 0 <= j < i ==> t.machines[j].public != msg.public) && m.status != Blocked
    && (m.name != msg.machine ==> !NameHeld(t, msg))
    && (m.name != msg.machine || (msg.desired != 0 && msg.desired != m.desired))
  }

  lemma RegistrationRewritesIff(t: Table, disk: Disk, msg: JoinProof, i: nat)
    requires i < |t.machines| && t.machines[i].user != msg.user
    ensures var ms := RegisterJoin(t, disk, msg.user, msg.machine, msg.public, [], [], msg.desired).0.machines;
            i < |ms| && ms[i].user == t.machines[i].user &&
            ms[i] == if RewritesForeignRow(t, msg, i)
                     then t.machines[i].(name := msg.machine,
                                         desired := if msg.desired != 0 then msg.desired else t.machines[i].desired)
                     else t.machines[i]
  {
    var ms := t.machines;
    var k, n := First(ms, HasPublic(msg.public)), First(ms, UsesName(msg.user, msg.machine, msg.public));
    assert k < |ms| ==> HasPublic(msg.public)(ms[k]);
    assert forall j :: 0 <= j < k ==> !HasPublic(msg.public)(ms[j]);
    assert n < |ms| ==> UsesName(msg.user, msg.machine, msg.public)(ms[n]) && ms[n] in ms;
    assert forall j :: 0 <= j < n ==> !UsesName(msg.user, msg.machine, msg.public)(ms[j]);
    assert n < |ms| <==> NameHeld(t, msg);
  }

  lemma MoveSparesOthers(cfg: Config, t: Table, user: Name, machine: Name, desired: int, i: nat)
    requires i < |t.machines| && t.machines[i].user != user
    ensures var ms := MoveAddress(cfg, t, user, machine, desired).0.machines; i < |ms| && ms[i] == t.machines[i]
  {
    var k := FindMachine(t, user, machine);
    assert k < |t.machines| ==> IsMachine(user, machine)(t.machines[k]);
  }

  lemma UpkeepSparesOthers(cfg: Config, t: Table, user: Name, machine: Name, desired: int, i: nat)
    requires i < |t.machines| && t.machines[i].user != user
    ensures var ms := Upkeep(cfg, t, user, machine, desired).machines; i < |ms| && ms[i] == t.machines[i]
  {
    MoveSparesOthers(cfg, t, user, machine, DesiredOf(t, user, machine), i);
    MoveSparesOthers(cfg, EnsureInSubnet(cfg, t, user, machine), user, machine, desired, i);
  }

  lemma AdminRuleSparesOthers(cfg: Config, t: Table, user: Name, machine: Name, i: nat)
    requires i < |t.machines| && t.machines[i].user != user
    ensures var ms := AutoApproveAdmin(cfg, t, user, machine).0.machines; i < |ms| && ms[i] == t.machines[i]
  {
    var k := FindMachine(t, user, machine);
    assert k < |t.machines| ==> IsMachine(user, machine)(t.machines[k]);
    var t1 := Allow(t, cfg.disk, user, machine).0;
    MoveSparesOthers(cfg, t1, user, machine, DesiredOf(t1, user, machine), i);
  }

  /**
   A join proof changes a row of another user exactly when that row is the first with the presented key, it and the
   asking user are not blocked, and the join is not refused and asks for something new; then the row takes the
   asked name and pin and stays with its user.
   */
  lemma JoinRewritesForeignRowIff(cfg: Config, t: Table, msg: JoinProof, i: nat)
    requires i < |t.machines| && t.machines[i].user != msg.user
    ensures var ms := JoinTable(cfg, t, msg).0.machines;
            i < |ms| && (ms[i] != t.machines[i] <==> RewritesForeignRow(t, msg, i)) &&
            (RewritesForeignRow(t, msg, i) ==>
               ms[i] == t.machines[i].(name := msg.machine,
                                       desired := if msg.desired != 0 then msg.desired else t.machines[i].desired))
  {
    RegistrationRewritesIff(t, cfg.disk, msg, i);
    var t1 := RegisterJoin(t, cfg.disk, msg.user, msg.machine, msg.public, [], [], msg.desired).0;
    UpkeepSparesOthers(cfg, t1, msg.user, msg.machine, msg.desired, i);
    AdminRuleSparesOthers(cfg, Upkeep(cfg, t1, msg.user, msg.machine, msg.desired), msg.user, msg.machine, i);
  }
}
