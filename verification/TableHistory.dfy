/**
 What an operation may take away, and the labels of rows.

 Approved rows persist: a user or machine that has left pending stays in the table and never returns to pending.
 Labels: when each key is presented for one user only, keys and per-user machine names are unique.
 */
module TableHistory {
  import opened Basics
  import opened Seqs
  import opened Registry
  import opened TableInvariants

  ghost predicate ApprovedUser(us: seq<User>, name: Name) {
    exists u :: u in us && u.name == name && u.status != Pending
  }

  ghost predicate ApprovedRow(ms: seq<Machine>, user: Name, public: Bytes) {
    exists m :: m in ms && m.user == user && m.public == public && m.status != Pending
  }

  ghost predicate UsersPersist(us: seq<User>, us': seq<User>) {
    forall name :: ApprovedUser(us, name) ==> ApprovedUser(us', name)
  }

  ghost predicate MachinesPersist(ms: seq<Machine>, ms': seq<Machine>) {
    forall user, public :: ApprovedRow(ms, user, public) ==> ApprovedRow(ms', user, public)
  }

  /** `owner` names the only user each key is presented for. */
  ghost predicate Labelled(ms: seq<Machine>, owner: Bytes -> Name) {
    && (forall m :: m in ms ==> m.user == owner(m.public))
    && (forall i, j :: 0 <= i < j < |ms| ==> !(ms[i].user == ms[j].user && ms[i].name == ms[j].name))
  }

  ghost predicate SameLabels(ms: seq<Machine>, ms': seq<Machine>) {
    |ms| == |ms'| &&
    forall i :: 0 <= i < |ms| ==>
      ms'[i].user == ms[i].user && ms'[i].name == ms[i].name && ms'[i].public == ms[i].public
  }

  /** No row that was approved and is still there is pending again. */
  ghost predicate StatusesForward(ms: seq<Machine>, ms': seq<Machine>) {
    forall m, m' :: m in ms && m' in ms' && m.user == m'.user && m.public == m'.public && m.status != Pending ==>
      m'.status != Pending
  }

  lemma PersistentRowsMoveForward(ms: seq<Machine>, ms': seq<Machine>)
    requires NoRowTwice(ms') && MachinesPersist(ms, ms')
    ensures StatusesForward(ms, ms')
  {
    forall m, m' | m in ms && m' in ms' && m.user == m'.user && m.public == m'.public && m.status != Pending
      ensures m'.status != Pending
    {
      assert ApprovedRow(ms, m.user, m.public);
      var x :| x in ms' && x.user == m.user && x.public == m.public && x.status != Pending;
      assert x == m';
    }
  }

  lemma SurvivorsMoveForward(ms: seq<Machine>, keep: Machine -> bool)
    requires NoRowTwice(ms)
    ensures StatusesForward(ms, Filter(ms, keep))
  {
    forall m, m' | m in ms && m' in Filter(ms, keep) && m.user == m'.user && m.public == m'.public
      ensures m == m'
    {
      assert m' in ms;
    }
  }

  lemma SameLabelsKeep(ms: seq<Machine>, ms': seq<Machine>, owner: Bytes -> Name)
    requires SameLabels(ms, ms') && Labelled(ms, owner)
    ensures Labelled(ms', owner)
  {
    forall m | m in ms'
      ensures m.user == owner(m.public)
    {
      var i :| 0 <= i < |ms'| && ms'[i] == m;
      assert ms[i] in ms;
    }
  }

  lemma SetUserPersists(us: seq<User>, i: nat, u: User)
    requires i < |us| && u.name == us[i].name && (us[i].status != Pending ==> u.status != Pending)
    ensures UsersPersist(us, us[i := u])
  {
    forall name | ApprovedUser(us, name)
      ensures ApprovedUser(us[i := u], name)
    {
      var x :| x in us && x.name == name && x.status != Pending;
      var j :| 0 <= j < |us| && us[j] == x;
      assert us[i := u][j] in us[i := u];
    }
  }

  lemma RowsPersist(ms: seq<Machine>, ms': seq<Machine>)
    requires |ms| <= |ms'|
    requires forall i :: 0 <= i < |ms| ==>
               ms'[i].user == ms[i].user && ms'[i].public == ms[i].public &&
               (ms[i].status != Pending ==> ms'[i].status != Pending)
    ensures MachinesPersist(ms, ms')
  {
    forall user, public | ApprovedRow(ms, user, public)
      ensures ApprovedRow(ms', user, public)
    {
      var x :| x in ms && x.user == user && x.public == public && x.status != Pending;
      var j :| 0 <= j < |ms| && ms[j] == x;
      assert ms'[j] in ms';
    }
  }

  lemma FilterUsersPersist(us: seq<User>, keep: User -> bool)
    requires forall u :: u in us && !keep(u) ==> u.status == Pending
    ensures UsersPersist(us, Filter(us, keep))
  {
    forall name | ApprovedUser(us, name)
      ensures ApprovedUser(Filter(us, keep), name)
    {
      var u :| u in us && u.name == name && u.status != Pending;
      assert u in Filter(us, keep);
    }
  }

  lemma FilterMachinesPersist(ms: seq<Machine>, keep: Machine -> bool)
    requires forall m :: m in ms && !keep(m) ==> m.status == Pending
    ensures MachinesPersist(ms, Filter(ms, keep))
  {
    forall user, public | ApprovedRow(ms, user, public)
      ensures ApprovedRow(Filter(ms, keep), user, public)
    {
      var m :| m in ms && m.user == user && m.public == public && m.status != Pending;
      assert m in Filter(ms, keep);
    }
  }

  lemma FilterKeepsLabels(ms: seq<Machine>, keep: Machine -> bool, owner: Bytes -> Name)
    requires Labelled(ms, owner)
    ensures Labelled(Filter(ms, keep), owner)
  {
    var at := FilterPositions(ms, keep);
  }

  lemma KeysUnique(ms: seq<Machine>, owner: Bytes -> Name)
    requires NoRowTwice(ms) && Labelled(ms, owner)
    ensures forall i, j :: 0 <= i < j < |ms| ==> ms[i].public != ms[j].public
  {
    assert forall i :: 0 <= i < |ms| ==> ms[i] in ms;
  }

  /** Removing every row named user/machine keeps the approved rows exactly when none of them has that name. */
  lemma DenyMachineRemovesOnlyPendingIff(t: Table, disk: Disk, user: Name, machine: Name)
    requires NoRowTwice(t.machines) && machine != []
    requires GetMachine(t, user, machine).Some?
    ensures MachinesPersist(t.machines, Deny(t, disk, user, machine).0.machines)
            <==> forall m :: m in t.machines && m.user == user && m.name == machine ==> m.status == Pending
  {
    var keep := NotMachine(user, machine);
    var ms' := Filter(t.machines, keep);
    if forall m :: m in t.machines && m.user == user && m.name == machine ==> m.status == Pending {
      FilterMachinesPersist(t.machines, keep);
    } else {
      var m :| m in t.machines && m.user == user && m.name == machine && m.status != Pending;
      assert ApprovedRow(t.machines, m.user, m.public);
      assert !ApprovedRow(ms', m.user, m.public) by {
        assert forall x :: x in ms' && x.user == m.user && x.public == m.public ==> x == m && keep(x);
      }
    }
  }

  /**
   A key presented for a second user renames the row of the first user, so two rows of one user can carry
   one name; denying the pending one then removes the active one as well.
   */
  lemma DenyCanRemoveAnActiveRow(disk: Disk)
    ensures var b, c, x, y, k1, k2 := [2], [3], [10], [11], [1], [2];
            var t := Table([User(b, [1], [1], Active), User(c, [1], [1], Pending)],
                           [Machine(b, x, 0, k1, None, Pending), Machine(b, y, 0, k2, Some(7), Active)], [], 0);
            var renamed := RegisterJoin(t, disk, c, x, k2, [], [], 0).0;
            && Sound(t)
            && GetMachine(renamed, b, x).Some? && GetMachine(renamed, b, x).value.status == Pending
            && !MachinesPersist(renamed.machines, Deny(renamed, disk, b, x).0.machines)
  {
    var b, c, x, y, k1, k2 := [2], [3], [10], [11], [1], [2];
    var rowX, rowY := Machine(b, x, 0, k1, None, Pending), Machine(b, y, 0, k2, Some(7), Active);
    var userB, userC := User(b, [1], [1], Active), User(c, [1], [1], Pending);
    var t := Table([userB, userC], [rowX, rowY], [], 0);
    assert t.users[0] == userB && t.machines[0] == rowX;
    assert HasUser(t.users, b);
    assert FindUser(t, c) == 1 by {
      assert NamedUser(c)(t.users[1]) && !NamedUser(c)(t.users[0]);
    }
    assert First(t.machines, HasPublic(k2)) == 1 by {
      assert HasPublic(k2)(t.machines[1]) && !HasPublic(k2)(t.machines[0]);
    }
    assert First(t.machines, UsesName(c, x, k2)) == 2 by {
      assert !UsesName(c, x, k2)(t.machines[0]) && !UsesName(c, x, k2)(t.machines[1]);
    }
    var renamed := RegisterJoin(t, disk, c, x, k2, [], [], 0).0;
    assert renamed.machines == [rowX, rowY.(name := x)];
    assert FindMachine(renamed, b, x) == 0 by {
      assert IsMachine(b, x)(renamed.machines[0]);
    }
    assert renamed.machines[1] in renamed.machines;
    DenyMachineRemovesOnlyPendingIff(renamed, disk, b, x);
  }

  // Each operation.

  lemma AllowPersists(t: Table, disk: Disk, user: Name, machine: Name)
    ensures var t' := Allow(t, disk, user, machine).0;
            UsersPersist(t.users, t'.users) && MachinesPersist(t.machines, t'.machines) &&
            SameLabels(t.machines, t'.machines)
  {
    var t' := Allow(t, disk, user, machine).0;
    var u := FindUser(t, user);
    if machine == [] && u < |t.users| {
      SetUserPersists(t.users, u, t.users[u].(status := Active));
    }
    RowsPersist(t.machines, t'.machines);
  }

  lemma BlockPersists(t: Table, disk: Disk, user: Name, machine: Name)
    ensures var t' := Block(t, disk, user, machine).0;
            UsersPersist(t.users, t'.users) && MachinesPersist(t.machines, t'.machines) &&
            SameLabels(t.machines, t'.machines)
  {
    var t' := Block(t, disk, user, machine).0;
    var u := FindUser(t, user);
    if machine == [] && u < |t.users| {
      SetUserPersists(t.users, u, t.users[u].(status := Blocked));
    }
    RowsPersist(t.machines, t'.machines);
  }

  lemma UnblockPersists(t: Table, disk: Disk, user: Name, machine: Name)
    ensures var t' := Unblock(t, disk, user, machine).0;
            UsersPersist(t.users, t'.users) && MachinesPersist(t.machines, t'.machines) &&
            SameLabels(t.machines, t'.machines)
  {
    var t' := Unblock(t, disk, user, machine).0;
    var u := FindUser(t, user);
    if machine == [] && u < |t.users| {
      SetUserPersists(t.users, u, if t.users[u].status == Blocked then t.users[u].(status := Active) else t.users[u]);
    }
    RowsPersist(t.machines, t'.machines);
  }

  lemma SetMachineIPPersists(t: Table, disk: Disk, user: Name, machine: Name, ip: Ipv4)
    ensures var t' := SetMachineIP(t, disk, user, machine, ip).0;
            t'.users == t.users && MachinesPersist(t.machines, t'.machines) && SameLabels(t.machines, t'.machines)
  {
    RowsPersist(t.machines, SetMachineIP(t, disk, user, machine, ip).0.machines);
  }

  /** Denying a user in pending removes no approved row. */
  lemma DenyUserPersists(t: Table, disk: Disk, user: Name)
    requires Identity(t) && Lifecycle(t)
    requires GetUser(t, user).Some? && GetUser(t, user).value.status == Pending
    ensures var t' := Deny(t, disk, user, []).0;
            UsersPersist(t.users, t'.users) && MachinesPersist(t.machines, t'.machines)
  {
    FoundUser(t, user);
    FilterUsersPersist(t.users, NotNamedUser(user));
    var u := GetUser(t, user).value;
    forall m | m in t.machines && !NotOfUser(user)(m)
      ensures m.status == Pending
    {
      assert Compatible(u, m);
    }
    FilterMachinesPersist(t.machines, NotOfUser(user));
  }

  lemma RegisterJoinPersists(t: Table, disk: Disk, user: Name, machine: Name, public: Bytes,
                             salt: Bytes, verifier: Bytes, desired: int)
    ensures var t' := RegisterJoin(t, disk, user, machine, public, salt, verifier, desired).0;
            UsersPersist(t.users, t'.users) && MachinesPersist(t.machines, t'.machines)
  {
    RowsPersist(t.machines, RegisterJoin(t, disk, user, machine, public, salt, verifier, desired).0.machines);
  }

  /** A key presented for its own user keeps names unique, also when the row is renamed. */
  lemma RegisterJoinKeepsLabels(t: Table, disk: Disk, user: Name, machine: Name, public: Bytes,
                                salt: Bytes, verifier: Bytes, desired: int, owner: Bytes -> Name)
    requires Identity(t) && Labelled(t.machines, owner) && owner(public) == user
    ensures Labelled(RegisterJoin(t, disk, user, machine, public, salt, verifier, desired).0.machines, owner)
  {
    var ms := t.machines;
    var ms' := RegisterJoin(t, disk, user, machine, public, salt, verifier, desired).0.machines;
    var u, i := FindUser(t, user), First(ms, HasPublic(public));
    assert forall j :: 0 <= j < |ms| ==> ms[j] in ms;
    FoundUser(t, user);
    if i < |ms| {
      assert HasPublic(public)(ms[i]);
      KeysUnique(ms, owner);
    }
    if First(ms, UsesName(user, machine, public)) == |ms| {
      assert forall j :: 0 <= j < |ms| ==> !UsesName(user, machine, public)(ms[j]);
    }
    assert forall j :: 0 <= j < i ==> !HasPublic(public)(ms[j]);
  }
}
