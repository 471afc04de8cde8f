/**
 The registry invariants and how each operation keeps them.

 Identity: user names are unique, every machine's user is registered, no user has two rows with one key.
 Lifecycle: a pending user has only pending machines, a blocked user has no pending machine.
 Addresses: no two machines share an address, a pending machine has none.
 */
module TableInvariants {
  import opened Basics
  import opened Seqs
  import opened Registry

  ghost predicate HasUser(us: seq<User>, name: Name) {
    exists u :: u in us && u.name == name
  }

  ghost predicate UniqueUsers(us: seq<User>) {
    forall i, j :: 0 <= i < j < |us| ==> us[i].name != us[j].name
  }

  ghost predicate NoRowTwice(ms: seq<Machine>) {
    forall i, j :: 0 <= i < j < |ms| ==> !(ms[i].user == ms[j].user && ms[i].public == ms[j].public)
  }

  ghost predicate Identity(t: Table) {
    && UniqueUsers(t.users)
    && (forall m :: m in t.machines ==> HasUser(t.users, m.user))
    && NoRowTwice(t.machines)
  }

  predicate Compatible(u: User, m: Machine) {
    m.user == u.name ==>
      (u.status == Pending ==> m.status == Pending) && (u.status == Blocked ==> m.status != Pending)
  }

  ghost predicate Lifecycle(t: Table) {
    forall u, m :: u in t.users && m in t.machines ==> Compatible(u, m)
  }

  ghost predicate DistinctAddresses(ms: seq<Machine>) {
    forall i, j :: 0 <= i < j < |ms| && ms[i].vpnIP.Some? ==> ms[i].vpnIP != ms[j].vpnIP
  }

  predicate AddressFits(m: Machine) {
    m.status == Pending ==> m.vpnIP.None?
  }

  ghost predicate Addresses(t: Table) {
    DistinctAddresses(t.machines) && forall m :: m in t.machines ==> AddressFits(m)
  }

  ghost predicate Sound(t: Table) {
    Identity(t) && Lifecycle(t) && Addresses(t)
  }

  lemma EmptyIsSound()
    ensures Sound(EMPTY)
  {
  }

  // Lookups under the invariants.

  lemma FoundUser(t: Table, name: Name)
    requires UniqueUsers(t.users)
    ensures GetUser(t, name).Some? <==> HasUser(t.users, name)
    ensures forall u :: u in t.users && u.name == name ==> GetUser(t, name) == Some(u)
    ensures GetUser(t, name).Some? ==> GetUser(t, name).value in t.users && GetUser(t, name).value.name == name
  {
    var i := FindUser(t, name);
    forall u | u in t.users && u.name == name
      ensures i < |t.users| && t.users[i] == u
    {
      var j :| 0 <= j < |t.users| && t.users[j] == u;
      assert NamedUser(name)(t.users[j]);
    }
    if i < |t.users| {
      assert NamedUser(name)(t.users[i]);
    }
  }

  lemma FoundMachine(t: Table, user: Name, machine: Name)
    requires GetMachine(t, user, machine).Some?
    ensures var i := FindMachine(t, user, machine);
            i < |t.machines| && t.machines[i] in t.machines &&
            t.machines[i].user == user && t.machines[i].name == machine &&
            GetMachine(t, user, machine) == Some(t.machines[i])
  {
    var i := FindMachine(t, user, machine);
    assert IsMachine(user, machine)(t.machines[i]);
  }

  /** Changing fields other than user and name does not move the first match. */
  lemma FindMachineStable(t: Table, i: nat, m: Machine, user: Name, machine: Name)
    requires i < |t.machines| && m.user == t.machines[i].user && m.name == t.machines[i].name
    ensures FindMachine(SetMachine(t, i, m), user, machine) == FindMachine(t, user, machine)
  {
    var ms, ms' := t.machines, t.machines[i := m];
    assert forall j :: 0 <= j < |ms| ==> IsMachine(user, machine)(ms'[j]) == IsMachine(user, machine)(ms[j]);
  }

  // Elementary changes.

  /**
   A row may change anything but its user and key, as long as its status moves forward and its address stays legal.
   */
  lemma SetMachineKeeps(t: Table, i: nat, m: Machine)
    requires Sound(t) && i < |t.machines|
    requires m.user == t.machines[i].user && m.public == t.machines[i].public
    requires AddressFits(m) && (m.vpnIP == t.machines[i].vpnIP || m.vpnIP.None? || m.vpnIP.value !in Used(t.machines))
    requires m.status == Pending ==> t.machines[i].status == Pending
    requires m.status != Pending && t.machines[i].status == Pending ==>
               forall u :: u in t.users && u.name == m.user ==> u.status != Pending
    ensures Sound(SetMachine(t, i, m))
  {
    var ms, ms' := t.machines, t.machines[i := m];
    assert forall x :: x in ms' ==> x == m || x in ms;
    assert t.machines[i] in ms;
    if m.vpnIP != ms[i].vpnIP && m.vpnIP.Some? {
      assert forall j :: 0 <= j < |ms| ==> ms[j] in ms && ms[j].vpnIP != m.vpnIP;
    }
  }

  /** Setting the status of a user away from pending, when its machines already agree with the new status. */
  lemma SetUserKeeps(t: Table, i: nat, u: User)
    requires Sound(t) && i < |t.users| && u.name == t.users[i].name
    requires forall m :: m in t.machines ==> Compatible(u, m)
    ensures Sound(SetUser(t, i, u))
  {
    var us, us' := t.users, t.users[i := u];
    assert forall x :: x in us' ==> x == u || x in us;
    forall m | m in t.machines
      ensures HasUser(us', m.user)
    {
      var x :| x in us && x.name == m.user;
      var j :| 0 <= j < |us| && us[j] == x;
      assert us'[j] in us' && us'[j].name == m.user;
    }
  }

  lemma {:induction false} FilterMachinesKeeps(ms: seq<Machine>, keep: Machine -> bool)
    requires DistinctAddresses(ms) && NoRowTwice(ms)
    ensures DistinctAddresses(Filter(ms, keep)) && NoRowTwice(Filter(ms, keep))
  {
    var at := FilterPositions(ms, keep);
  }

  lemma FilterUsersKeeps(us: seq<User>, keep: User -> bool)
    requires UniqueUsers(us)
    ensures UniqueUsers(Filter(us, keep))
  {
    var at := FilterPositions(us, keep);
  }

  lemma DenyKeeps(t: Table, disk: Disk, user: Name, machine: Name)
    requires Sound(t)
    ensures Sound(Deny(t, disk, user, machine).0)
  {
    if machine == [] {
      var us, ms := Filter(t.users, NotNamedUser(user)), Filter(t.machines, NotOfUser(user));
      FilterUsersKeeps(t.users, NotNamedUser(user));
      FilterMachinesKeeps(t.machines, NotOfUser(user));
      forall m | m in ms
        ensures HasUser(us, m.user)
      {
        assert NotOfUser(user)(m);
        var u :| u in t.users && u.name == m.user;
        assert NotNamedUser(user)(u);
        assert u in us;
      }
    } else {
      FilterMachinesKeeps(t.machines, NotMachine(user, machine));
    }
  }

  // Operations as the server uses them.

  lemma AllowKeeps(t: Table, disk: Disk, user: Name, machine: Name)
    requires Sound(t)
    ensures Sound(Allow(t, disk, user, machine).0)
  {
    var u := FindUser(t, user);
    if u < |t.users| {
      assert NamedUser(user)(t.users[u]);
      FoundUser(t, user);
      if machine == [] {
        if t.users[u].status == Pending {
          SetUserKeeps(t, u, t.users[u].(status := Active));
        }
      } else if t.users[u].status == Active && GetMachine(t, user, machine).Some? {
        FoundMachine(t, user, machine);
        var i := FindMachine(t, user, machine);
        assert t.machines[i] in t.machines;
        if t.machines[i].status == Pending {
          SetMachineKeeps(t, i, t.machines[i].(status := Active));
        }
      }
    }
  }

  lemma OtherUsers(us: seq<User>, i: nat, u: User)
    requires UniqueUsers(us) && i < |us| && u.name == us[i].name
    ensures forall y :: y in us[i := u] ==> y == u || (y in us && y.name != u.name)
  {
    forall y | y in us[i := u]
      ensures y == u || (y in us && y.name != u.name)
    {
      var l :| 0 <= l < |us| && us[i := u][l] == y;
    }
  }

  /** A user and all its machines change status together. */
  lemma RestatusKeeps(t: Table, i: nat, u: User, from: set<Status>, to: Status)
    requires Sound(t) && i < |t.users| && u.name == t.users[i].name
    requires u.status != Pending && to != Pending
    requires u.status == Blocked ==> Pending in from
    ensures Sound(SetUser(t, i, u).(machines := Restatus(t.machines, u.name, from, to)))
  {
    var ms, ms' := t.machines, Restatus(t.machines, u.name, from, to);
    var us' := t.users[i := u];
    forall m | m in ms'
      ensures HasUser(us', m.user) && AddressFits(m) && forall x :: x in us' ==> Compatible(x, m)
    {
      var k :| 0 <= k < |ms'| && ms'[k] == m;
      assert ms[k] in ms;
      var x :| x in t.users && x.name == ms[k].user;
      var j :| 0 <= j < |t.users| && t.users[j] == x;
      assert us'[j] in us' && us'[j].name == m.user;
      OtherUsers(t.users, i, u);
      assert forall y :: y in t.users ==> Compatible(y, ms[k]);
    }
  }

  /** Blocking a user that is not pending, or a machine that is not pending. */
  lemma BlockKeeps(t: Table, disk: Disk, user: Name, machine: Name)
    requires Sound(t)
    requires machine == [] || (GetMachine(t, user, machine).Some? ==>
                               GetMachine(t, user, machine).value.status != Pending)
    ensures Sound(Block(t, disk, user, machine).0)
  {
    if machine == [] {
      var u := FindUser(t, user);
      if u < |t.users| {
        RestatusKeeps(t, u, t.users[u].(status := Blocked), {Pending, Active, Blocked}, Blocked);
      }
    } else if GetMachine(t, user, machine).Some? {
      FoundMachine(t, user, machine);
      var i := FindMachine(t, user, machine);
      SetMachineKeeps(t, i, t.machines[i].(status := Blocked));
    }
  }

  lemma UnblockKeeps(t: Table, disk: Disk, user: Name, machine: Name)
    requires Sound(t)
    requires machine == [] ==> GetUser(t, user).Some? ==> GetUser(t, user).value.status != Pending
    ensures Sound(Unblock(t, disk, user, machine).0)
  {
    if machine == [] {
      var u := FindUser(t, user);
      if u < |t.users| {
        var unblocked := if t.users[u].status == Blocked then t.users[u].(status := Active) else t.users[u];
        RestatusKeeps(t, u, unblocked, {Blocked}, Active);
      }
    } else if GetMachine(t, user, machine).Some? {
      FoundMachine(t, user, machine);
      var i := FindMachine(t, user, machine);
      var unblocked := if t.machines[i].status == Blocked then t.machines[i].(status := Active) else t.machines[i];
      SetMachineKeeps(t, i, unblocked);
    }
  }

  lemma AppendUserKeeps(t: Table, u: User)
    requires Sound(t) && !HasUser(t.users, u.name)
    ensures Sound(t.(users := t.users + [u]))
  {
    var us := t.users + [u];
    forall m | m in t.machines
      ensures HasUser(us, m.user) && m.user != u.name
    {
      var x :| x in t.users && x.name == m.user;
      assert x in us;
    }
    forall i | 0 <= i < |t.users|
      ensures t.users[i].name != u.name
    {
      assert t.users[i] in t.users;
    }
  }

  /** A new pending row: its user is registered and not blocked, and has no row with this key. */
  lemma AppendMachineKeeps(t: Table, m: Machine)
    requires Sound(t) && HasUser(t.users, m.user)
    requires m.status == Pending && m.vpnIP.None?
    requires forall u :: u in t.users && u.name == m.user ==> u.status != Blocked
    requires forall j :: 0 <= j < |t.machines| ==> !(t.machines[j].user == m.user && t.machines[j].public == m.public)
    ensures Sound(t.(machines := t.machines + [m]))
  {
  }

  lemma RegisterJoinKeeps(t: Table, disk: Disk, user: Name, machine: Name, public: Bytes,
                          salt: Bytes, verifier: Bytes, desired: int)
    requires Sound(t)
    ensures Sound(RegisterJoin(t, disk, user, machine, public, salt, verifier, desired).0)
  {
    var u := FindUser(t, user);
    var i := First(t.machines, HasPublic(public));
    FoundUser(t, user);
    if u == |t.users| {
      AppendUserKeeps(t, User(user, salt, verifier, Pending));
      var t1 := t.(users := t.users + [User(user, salt, verifier, Pending)]);
      AppendMachineKeeps(t1, Machine(user, machine, desired, public, None, Pending));
    } else if t.users[u].status != Blocked {
      if i < |t.machines| {
        var m := t.machines[i];
        assert m in t.machines;
        SetMachineKeeps(t, i, m.(name := machine, desired := if desired != 0 then desired else m.desired));
      } else {
        forall j | 0 <= j < |t.machines|
          ensures t.machines[j].public != public
        {
          assert !HasPublic(public)(t.machines[j]);
        }
        AppendMachineKeeps(t, Machine(user, machine, desired, public, None, Pending));
      }
    }
  }

  lemma SetMachineIPKeeps(t: Table, disk: Disk, user: Name, machine: Name, ip: Ipv4)
    requires Sound(t)
    requires GetMachine(t, user, machine).Some? ==> GetMachine(t, user, machine).value.status != Pending
    requires ip !in Used(t.machines)
    ensures Sound(SetMachineIP(t, disk, user, machine, ip).0)
  {
    if GetMachine(t, user, machine).Some? {
      FoundMachine(t, user, machine);
      var i := FindMachine(t, user, machine);
      SetMachineKeeps(t, i, t.machines[i].(vpnIP := Some(ip)));
    }
  }

  lemma SetVerifierKeeps(t: Table, disk: Disk, name: Name, salt: Bytes, verifier: Bytes)
    requires Sound(t)
    ensures Sound(SetVerifier(t, disk, name, salt, verifier).0)
  {
    var i := FindUser(t, name);
    if i < |t.users| {
      assert t.users[i] in t.users;
      SetUserKeeps(t, i, t.users[i].(salt := salt, verifier := verifier));
    }
  }

  /** Start-up: a missing admin has no machines yet, a present one becomes active. */
  lemma EnsureAdminKeeps(t: Table, disk: Disk, name: Name, salt: Bytes, verifier: Bytes)
    requires Sound(t)
    ensures Sound(EnsureAdmin(t, disk, name, salt, verifier).0)
  {
    var i := FindUser(t, name);
    FoundUser(t, name);
    if i == |t.users| {
      AppendUserKeeps(t, User(name, salt, verifier, Active));
    } else {
      SetUserKeeps(t, i, t.users[i].(status := Active));
    }
  }
}
