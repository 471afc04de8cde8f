/**
 The mutable registry (internal/state/state.go).  Every method is proved to
 leave the table, and report the result, that the Registry function names.
 */
module States {
  import opened Basics
  import opened Seqs
  import opened Prefixes
  import opened RowSlices
  import R = Registry

  class State {
    const users: Rows<R.User>
    const machines: Rows<R.Machine>
    const disk: R.Disk
    var grants: seq<R.Grant>
    var writes: nat

    ghost function Repr(): set<object>
      reads this, users, machines
    {
      {this, users, machines, users.data, machines.data}
    }

    ghost predicate Valid()
      reads this, users, machines
    {
      users.Valid() && machines.Valid()
    }

    ghost function View(): R.Table
      reads this, users, machines, users.data, machines.data
      requires Valid()
    {
      R.Table(users.Contents(), machines.Contents(), grants, writes)
    }

    constructor (disk: R.Disk)
      ensures Valid() && fresh(Repr()) && View() == R.EMPTY && this.disk == disk
    {
      users := new Rows();
      machines := new Rows();
      this.disk := disk;
      grants := [];
      writes := 0;
    }

    method Save() returns (r: R.Outcome)
      requires Valid()
      modifies `writes
      ensures Valid() && (View(), r) == R.Save(old(View()), disk)
    {
      r := if disk(writes) then R.Done else R.Failed(R.SaveFailed);
      writes := writes + 1;
    }

    method FindUser(name: Name) returns (i: nat)
      requires Valid()
      ensures i == R.FindUser(View(), name) <= users.len
    {
      ghost var rows := users.Contents();
      i := 0;
      while i < users.len && users.data[i].name != name
        invariant i <= users.len
        invariant FirstFrom(rows, R.NamedUser(name), 0) == FirstFrom(rows, R.NamedUser(name), i)
      {
        assert rows[i] == users.data[i];
        i := i + 1;
      }
      assert i < users.len ==> rows[i] == users.data[i];
    }

    method FirstMachine(p: R.Machine -> bool) returns (i: nat)
      requires Valid()
      ensures i == First(machines.Contents(), p) <= machines.len
    {
      ghost var rows := machines.Contents();
      i := 0;
      while i < machines.len && !p(machines.data[i])
        invariant i <= machines.len
        invariant FirstFrom(rows, p, 0) == FirstFrom(rows, p, i)
      {
        assert rows[i] == machines.data[i];
        i := i + 1;
      }
      assert i < machines.len ==> rows[i] == machines.data[i];
    }

    method SetUser(i: nat, u: R.User)
      requires Valid() && i < users.len
      modifies users.data
      ensures View() == R.SetUser(old(View()), i, u)
    {
      users.data[i] := u;
      assert users.Contents() == old(users.Contents())[i := u];
    }

    method SetMachine(i: nat, m: R.Machine)
      requires Valid() && i < machines.len
      modifies machines.data
      ensures View() == R.SetMachine(old(View()), i, m)
    {
      machines.data[i] := m;
      assert machines.Contents() == old(machines.Contents())[i := m];
    }

    /** The loop of Block and Unblock over the machines of a user. */
    method Restatus(user: Name, from: set<R.Status>, to: R.Status)
      requires Valid()
      modifies machines.data
      ensures View() == old(View()).(machines := R.Restatus(old(machines.Contents()), user, from, to))
    {
      ghost var rows := machines.Contents();
      for i := 0 to machines.len
        modifies machines.data
        invariant forall j :: 0 <= j < i ==> machines.data[j] == R.Restatus(rows, user, from, to)[j]
        invariant forall j :: i <= j < machines.len ==> machines.data[j] == rows[j]
      {
        if machines.data[i].user == user && machines.data[i].status in from {
          machines.data[i] := machines.data[i].(status := to);
        }
      }
      assert machines.Contents() == R.Restatus(rows, user, from, to);
    }

    method Allow(user: Name, machine: Name) returns (r: R.Outcome)
      requires Valid()
      modifies Repr()
      ensures Valid() && fresh(Repr() - old(Repr()))
      ensures (View(), r) == R.Allow(old(View()), disk, user, machine)
    {
      if machine == [] {
        var u := FindUser(user);
        if u == users.len {
          return R.Failed(R.UserNotFound);
        }
        if users.data[u].status != R.Pending {
          return R.Failed(R.NotPending);
        }
        SetUser(u, users.data[u].(status := R.Active));
        r := Save();
      } else {
        var i := FirstMachine(R.IsMachine(user, machine));
        if i == machines.len {
          return R.Failed(R.MachineNotFound);
        }
        if machines.data[i].status != R.Pending {
          return R.Failed(R.NotPending);
        }
        var u := FindUser(user);
        if u == users.len || users.data[u].status != R.Active {
          return R.Failed(R.UserNotActive);
        }
        SetMachine(i, machines.data[i].(status := R.Active));
        r := Save();
      }
    }

    method Deny(user: Name, machine: Name) returns (r: R.Outcome)
      requires Valid()
      modifies Repr()
      ensures Valid() && fresh(Repr() - old(Repr()))
      ensures (View(), r) == R.Deny(old(View()), disk, user, machine)
    {
      if machine == [] {
        var u := FindUser(user);
        if u == users.len {
          return R.Failed(R.UserNotFound);
        }
        users.Compact(R.NotNamedUser(user));
        machines.Compact(R.NotOfUser(user));
      } else {
        var i := FirstMachine(R.IsMachine(user, machine));
        if i == machines.len {
          return R.Failed(R.MachineNotFound);
        }
        machines.Compact(R.NotMachine(user, machine));
      }
      r := Save();
    }

    method Block(user: Name, machine: Name) returns (r: R.Outcome)
      requires Valid()
      modifies Repr()
      ensures Valid() && fresh(Repr() - old(Repr()))
      ensures (View(), r) == R.Block(old(View()), disk, user, machine)
    {
      if machine == [] {
        var u := FindUser(user);
        if u == users.len {
          return R.Failed(R.UserNotFound);
        }
        SetUser(u, users.data[u].(status := R.Blocked));
        Restatus(user, {R.Pending, R.Active, R.Blocked}, R.Blocked);
      } else {
        var i := FirstMachine(R.IsMachine(user, machine));
        if i == machines.len {
          return R.Failed(R.MachineNotFound);
        }
        SetMachine(i, machines.data[i].(status := R.Blocked));
      }
      r := Save();
    }

    method Unblock(user: Name, machine: Name) returns (r: R.Outcome)
      requires Valid()
      modifies Repr()
      ensures Valid() && fresh(Repr() - old(Repr()))
      ensures (View(), r) == R.Unblock(old(View()), disk, user, machine)
    {
      if machine == [] {
        var u := FindUser(user);
        if u == users.len {
          return R.Failed(R.UserNotFound);
        }
        if users.data[u].status == R.Blocked {
          SetUser(u, users.data[u].(status := R.Active));
        }
        assert old(View()).users[u := users.data[u]] == View().users;
        Restatus(user, {R.Blocked}, R.Active);
      } else {
        var i := FirstMachine(R.IsMachine(user, machine));
        if i == machines.len {
          return R.Failed(R.MachineNotFound);
        }
        if machines.data[i].status == R.Blocked {
          SetMachine(i, machines.data[i].(status := R.Active));
        }
        assert old(View()).machines[i := machines.data[i]] == View().machines;
      }
      r := Save();
    }

    method GetUser(name: Name) returns (r: Option<R.User>)
      requires Valid()
      ensures r == R.GetUser(View(), name)
    {
      var i := FindUser(name);
      r := if i == users.len then None else Some(users.data[i]);
    }

    method GetMachine(user: Name, machine: Name) returns (r: Option<R.Machine>)
      requires Valid()
      ensures r == R.GetMachine(View(), user, machine)
    {
      var i := FirstMachine(R.IsMachine(user, machine));
      r := if i == machines.len then None else Some(machines.data[i]);
    }

    method FindMachineByIP(ip: Ipv4) returns (r: Option<R.Machine>)
      requires Valid()
      ensures r == R.FindMachineByIP(View(), ip)
    {
      var i := FirstMachine(R.HasIP(ip));
      r := if i == machines.len then None else Some(machines.data[i]);
    }

    method Grant(subject: Bytes, target: Name) returns (r: R.Outcome)
      requires Valid()
      modifies Repr()
      ensures Valid() && fresh(Repr() - old(Repr()))
      ensures (View(), r) == R.GrantTo(old(View()), disk, subject, target)
    {
      for i := 0 to |grants|
        invariant R.Grant(subject, target) !in grants[..i]
      {
        if grants[i].subject == subject && grants[i].target == target {
          return R.Done;
        }
      }
      assert grants[..|grants|] == grants;
      grants := grants + [R.Grant(subject, target)];
      r := Save();
    }

    /** The loop of Revoke. */
    static method WithoutGrant(gs: seq<R.Grant>, subject: Bytes, target: Name) returns (out: seq<R.Grant>)
      ensures out == Filter(gs, R.NotGrant(subject, target))
    {
      out := [];
      for i := 0 to |gs|
        invariant out == Filter(gs[..i], R.NotGrant(subject, target))
      {
        FilterStep(gs, R.NotGrant(subject, target), i);
        if gs[i].subject != subject || gs[i].target != target {
          out := out + [gs[i]];
        }
      }
      assert gs[..|gs|] == gs;
    }

    /** Revoke rebuilds the list in a new slice. */
    method Revoke(subject: Bytes, target: Name) returns (r: R.Outcome)
      requires Valid()
      modifies Repr()
      ensures Valid() && fresh(Repr() - old(Repr()))
      ensures (View(), r) == R.Revoke(old(View()), disk, subject, target)
    {
      grants := WithoutGrant(grants, subject, target);
      r := Save();
    }

    method GrantsOf(subject: Bytes) returns (out: seq<Name>)
      ensures out == R.GrantsOf(grants, subject)
    {
      out := [];
      for i := 0 to |grants|
        invariant out == R.GrantsOf(grants[..i], subject)
      {
        assert grants[..i + 1][..i] == grants[..i];
        if grants[i].subject == subject {
          out := out + [grants[i].target];
        }
      }
      assert grants[..|grants|] == grants;
    }

    method IsGranted(user: Name, machine: Name, target: Name) returns (r: bool)
      requires Valid()
      ensures r == R.IsGranted(View(), user, machine, target)
    {
      for i := 0 to |grants|
        invariant forall j :: 0 <= j < i ==>
                    !(grants[j].target == target &&
                      (grants[j].subject == user || grants[j].subject == JoinKey(user, machine)))
      {
        if grants[i].target != target {
          continue;
        }
        if grants[i].subject == user || grants[i].subject == JoinKey(user, machine) {
          return true;
        }
      }
      return false;
    }

    method Registered(status: R.Status) returns (r: Result<R.Status, R.Error>)
      requires Valid()
      modifies `writes
      ensures Valid() && (View(), r) == R.Saved(old(View()), disk, status)
    {
      var saved := Save();
      r := if saved.Done? then Ok(status) else Err(saved.error);
    }

    method MachineNameUsed(user: Name, machine: Name, public: Bytes) returns (r: bool)
      requires Valid()
      ensures r == (First(machines.Contents(), R.UsesName(user, machine, public)) < machines.len)
    {
      var i := FirstMachine(R.UsesName(user, machine, public));
      r := i < machines.len;
    }

    /** The loop body of RegisterJoin for the row that holds the key. */
    method RegisterKnownKey(i: nat, user: Name, machine: Name, public: Bytes, desired: int)
      returns (r: Result<R.Status, R.Error>)
      requires Valid()
      requires var u := R.FindUser(View(), user); u < |View().users| && View().users[u].status != R.Blocked
      requires i == First(machines.Contents(), R.HasPublic(public)) < machines.len
      modifies Repr()
      ensures Valid() && fresh(Repr() - old(Repr()))
      ensures (View(), r) == R.RegisterJoin(old(View()), disk, user, machine, public, [], [], desired)
    {
      var m := machines.data[i];
      if m.status == R.Blocked {
        return Ok(R.Blocked);
      }
      if m.name != machine {
        var used := MachineNameUsed(user, machine, public);
        if used {
          return Err(R.NameUsed);
        }
        m := m.(name := machine);
      }
      if desired != 0 {
        m := m.(desired := desired);
      }
      SetMachine(i, m);
      r := Registered(m.status);
    }

    /** The part of RegisterJoin for a user that is registered and not blocked. */
    method RegisterKnownUser(user: Name, machine: Name, public: Bytes, desired: int)
      returns (r: Result<R.Status, R.Error>)
      requires Valid()
      requires var u := R.FindUser(View(), user); u < |View().users| && View().users[u].status != R.Blocked
      modifies Repr()
      ensures Valid() && fresh(Repr() - old(Repr()))
      ensures (View(), r) == R.RegisterJoin(old(View()), disk, user, machine, public, [], [], desired)
    {
      var i := FirstMachine(R.HasPublic(public));
      if i < machines.len {
        r := RegisterKnownKey(i, user, machine, public, desired);
        return;
      }
      var used := MachineNameUsed(user, machine, public);
      if used {
        return Err(R.NameUsed);
      }
      machines.Append(R.Machine(user, machine, desired, public, None, R.Pending));
      r := Registered(R.Pending);
    }

    method RegisterJoin(user: Name, machine: Name, public: Bytes, salt: Bytes, verifier: Bytes, desired: int)
      returns (r: Result<R.Status, R.Error>)
      requires Valid()
      modifies Repr()
      ensures Valid() && fresh(Repr() - old(Repr()))
      ensures (View(), r) == R.RegisterJoin(old(View()), disk, user, machine, public, salt, verifier, desired)
    {
      var u := FindUser(user);
      if u == users.len {
        if |salt| == 0 || |verifier| == 0 {
          return Err(R.VerifierMissing);
        }
        users.Append(R.User(user, salt, verifier, R.Pending));
        machines.Append(R.Machine(user, machine, desired, public, None, R.Pending));
        r := Registered(R.Pending);
        return;
      }
      if users.data[u].status == R.Blocked {
        return Ok(R.Blocked);
      }
      r := RegisterKnownUser(user, machine, public, desired);
    }

    method SetVerifier(name: Name, salt: Bytes, verifier: Bytes) returns (r: R.Outcome)
      requires Valid()
      modifies Repr()
      ensures Valid() && fresh(Repr() - old(Repr()))
      ensures (View(), r) == R.SetVerifier(old(View()), disk, name, salt, verifier)
    {
      var u := FindUser(name);
      if u == users.len {
        return R.Failed(R.UserNotFound);
      }
      SetUser(u, users.data[u].(salt := salt, verifier := verifier));
      r := Save();
    }

    method SetMachineIP(user: Name, machine: Name, ip: Ipv4) returns (r: R.Outcome)
      requires Valid()
      modifies Repr()
      ensures Valid() && fresh(Repr() - old(Repr()))
      ensures (View(), r) == R.SetMachineIP(old(View()), disk, user, machine, ip)
    {
      var i := FirstMachine(R.IsMachine(user, machine));
      if i == machines.len {
        return R.Failed(R.MachineNotFound);
      }
      SetMachine(i, machines.data[i].(vpnIP := Some(ip)));
      r := Save();
    }

    /** The addresses in use, with the owner of each for the error message. */
    method UsedAddresses() returns (used: map<Ipv4, Bytes>)
      requires Valid()
      ensures used.Keys == R.Used(machines.Contents())
      ensures forall ip :: ip in used ==> used[ip] == R.OwnerOf(machines.Contents(), ip)
    {
      ghost var rows := machines.Contents();
      used := map[];
      for i := 0 to machines.len
        invariant used.Keys == R.Used(rows[..i])
        invariant forall ip :: ip in used ==> used[ip] == R.OwnerOf(rows[..i], ip)
      {
        var m := machines.data[i];
        assert rows[..i + 1] == rows[..i] + [m] && rows[..i + 1][..i] == rows[..i];
        if m.vpnIP.Some? {
          used := used[m.vpnIP.value := JoinKey(m.user, m.name)];
        }
      }
      assert rows[..machines.len] == rows;
    }

    method AllocateIP(p: Prefix, desired: int) returns (r: Result<Ipv4, R.Error>)
      requires Valid()
      ensures r == R.Allocate(View(), p, desired)
    {
      var used := UsedAddresses();
      var serverIP := ServerIP(p);
      if desired != 0 {
        if desired < 2 || desired > 254 {
          return Err(R.PinOutOfRange);
        }
        var base := Be32(p.addr);
        var addr := FromBe32([base[0], base[1], base[2], desired]);
        R.PinnedAddressBytes(p, desired);
        if !Contains(p, addr) || Some(addr) == serverIP {
          return Err(R.PinNotUsable);
        }
        if addr in used {
          return Err(R.AddressTaken(used[addr]));
        }
        return Ok(addr);
      }
      var addr := if serverIP.Some? then Next(serverIP.value) else None;
      while addr.Some? && Contains(p, addr.value)
        invariant R.Allocate(View(), p, 0) ==
                  match R.FirstFree(p, used.Keys, addr) { case Some(a) => Ok(a) case None => Err(R.NoFreeAddress) }
        decreases if addr.Some? then TOP - addr.value + 1 else 0
      {
        if addr == serverIP || addr.value in used {
          addr := Next(addr.value);
          continue;
        }
        return Ok(addr.value);
      }
      return Err(R.NoFreeAddress);
    }

    method EnsureAdmin(name: Name, salt: Bytes, verifier: Bytes) returns (r: R.Outcome)
      requires Valid()
      modifies Repr()
      ensures Valid() && fresh(Repr() - old(Repr()))
      ensures (View(), r) == R.EnsureAdmin(old(View()), disk, name, salt, verifier)
    {
      var u := FindUser(name);
      if u == users.len {
        users.Append(R.User(name, salt, verifier, R.Active));
        r := Save();
        return;
      }
      if users.data[u].status != R.Active {
        SetUser(u, users.data[u].(status := R.Active));
        r := Save();
        return;
      }
      return R.Done;
    }

    /** Copies of both tables. */
    method Snapshot() returns (us: array<R.User>, ms: array<R.Machine>)
      requires Valid()
      ensures fresh(us) && fresh(ms) && us[..] == View().users && ms[..] == View().machines
    {
      us := users.Snapshot();
      ms := machines.Snapshot();
    }

    /** A snapshot still shows the rows that a later Deny compacts away. */
    method SnapshotThenDeny(user: Name, machine: Name) returns (us: array<R.User>, ms: array<R.Machine>)
      requires Valid()
      modifies Repr()
      ensures Valid() && View() == R.Deny(old(View()), disk, user, machine).0
      ensures us[..] == old(View()).users && ms[..] == old(View()).machines
    {
      us, ms := Snapshot();
      var r := Deny(user, machine);
    }
  }
}
