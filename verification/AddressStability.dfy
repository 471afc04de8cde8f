/** When a machine's address can change. */
module AddressStability {
  import opened Basics
  import opened Seqs
  import opened Prefixes
  import opened Registry
  import opened Allocation
  import opened TableInvariants
  import opened ServerModel

  /** Every row but `k` keeps its place and its address. */
  ghost predicate OnlyMoves(ms: seq<Machine>, ms': seq<Machine>, k: nat) {
    |ms| <= |ms'| && forall i :: 0 <= i < |ms| && i != k ==> ms'[i].vpnIP == ms[i].vpnIP
  }

  /** The change touches addresses of the named row only, and the name still finds that row. */
  ghost predicate MovesNamed(t: Table, t': Table, user: Name, machine: Name) {
    var k := FindMachine(t, user, machine);
    |t'.machines| == |t.machines| && OnlyMoves(t.machines, t'.machines, k) && FindMachine(t', user, machine) == k
  }

  lemma MoveAddressMovesNamed(cfg: Config, t: Table, user: Name, machine: Name, desired: int)
    ensures MovesNamed(t, MoveAddress(cfg, t, user, machine, desired).0, user, machine)
  {
    var i := FindMachine(t, user, machine);
    if Allocate(t, cfg.subnet, desired).Ok? && i < |t.machines| {
      FindMachineStable(t, i, t.machines[i].(vpnIP := Some(Allocate(t, cfg.subnet, desired).value)), user, machine);
    }
  }

  lemma UpkeepMovesNamed(cfg: Config, t: Table, user: Name, machine: Name, desired: int)
    ensures MovesNamed(t, EnsureInSubnet(cfg, t, user, machine), user, machine)
    ensures MovesNamed(t, RebindDesired(cfg, t, user, machine, desired), user, machine)
  {
    MoveAddressMovesNamed(cfg, t, user, machine, DesiredOf(t, user, machine));
    MoveAddressMovesNamed(cfg, t, user, machine, desired);
  }

  lemma AllowMovesNamed(t: Table, disk: Disk, user: Name, machine: Name)
    ensures MovesNamed(t, Allow(t, disk, user, machine).0, user, machine)
  {
    var i := FindMachine(t, user, machine);
    if i < |t.machines| {
      FindMachineStable(t, i, t.machines[i].(status := Active), user, machine);
    }
  }

  lemma AutoApproveMovesNamed(cfg: Config, t: Table, user: Name, machine: Name)
    ensures MovesNamed(t, AutoApproveAdmin(cfg, t, user, machine).0, user, machine)
  {
    AllowMovesNamed(t, cfg.disk, user, machine);
    var t1 := Allow(t, cfg.disk, user, machine).0;
    MoveAddressMovesNamed(cfg, t1, user, machine, DesiredOf(t1, user, machine));
  }

  /** The table right after the registration part of an accepted proof. */
  function Registered(cfg: Config, t: Table, msg: JoinProof): Table {
    RegisterJoin(t, cfg.disk, msg.user, msg.machine, msg.public, [], [], msg.desired).0
  }

  lemma RegistrationMovesNone(cfg: Config, t: Table, msg: JoinProof)
    ensures |t.machines| <= |Registered(cfg, t, msg).machines|
    ensures forall i :: 0 <= i < |t.machines| ==> Registered(cfg, t, msg).machines[i].vpnIP == t.machines[i].vpnIP
  {
  }

  /** A join proof changes the address of at most one row: the one it names. */
  lemma JoinMovesAtMostOneRow(cfg: Config, t: Table, msg: JoinProof)
    ensures var k := FindMachine(Registered(cfg, t, msg), msg.user, msg.machine);
            OnlyMoves(t.machines, JoinTable(cfg, t, msg).0.machines, k) &&
            FindMachine(JoinTable(cfg, t, msg).0, msg.user, msg.machine) == k
  {
    RegistrationMovesNone(cfg, t, msg);
    var t1 := Registered(cfg, t, msg);
    UpkeepMovesNamed(cfg, t1, msg.user, msg.machine, msg.desired);
    var t2 := EnsureInSubnet(cfg, t1, msg.user, msg.machine);
    UpkeepMovesNamed(cfg, t2, msg.user, msg.machine, msg.desired);
    var t3 := RebindDesired(cfg, t2, msg.user, msg.machine, msg.desired);
    AutoApproveMovesNamed(cfg, t3, msg.user, msg.machine);
  }

  /** The named row holds an address in the subnet: the case in which reconnecting should reuse it. */
  ghost predicate Settled(cfg: Config, t: Table, msg: JoinProof) {
    var k := FindMachine(Registered(cfg, t, msg), msg.user, msg.machine);
    k < |t.machines| && t.machines[k].vpnIP.Some? && Contains(cfg.subnet, t.machines[k].vpnIP.value)
  }

  /** The named row of a settled join is not pending, and neither is its user, so the admin rule does not apply. */
  lemma AdminRuleNeedsPending(cfg: Config, t: Table, user: Name, machine: Name)
    requires Sound(t)
    requires GetMachine(t, user, machine).Some? && GetMachine(t, user, machine).value.status != Pending
    ensures AutoApproveAdmin(cfg, t, user, machine) == (t, false)
  {
    FoundMachine(t, user, machine);
    FoundUser(t, user);
    assert Compatible(GetUser(t, user).value, GetMachine(t, user, machine).value);
  }

  lemma RebindKeepsSound(cfg: Config, t: Table, user: Name, machine: Name, desired: int)
    requires Sound(t)
    requires GetMachine(t, user, machine).Some? && GetMachine(t, user, machine).value.status != Pending
    ensures var t' := RebindDesired(cfg, t, user, machine, desired);
            Sound(t') && GetMachine(t', user, machine).Some? &&
            GetMachine(t', user, machine).value.status != Pending
  {
    FoundMachine(t, user, machine);
    MoveAddressMovesNamed(cfg, t, user, machine, desired);
    if Allocate(t, cfg.subnet, desired).Ok? {
      AllocationSound(t, cfg.subnet, desired);
      SetMachineIPKeeps(t, cfg.disk, user, machine, Allocate(t, cfg.subnet, desired).value);
    }
  }

  lemma SettledJoin(cfg: Config, t: Table, msg: JoinProof)
    requires Sound(t) && Settled(cfg, t, msg)
    requires RegisterJoin(t, cfg.disk, msg.user, msg.machine, msg.public, [], [], msg.desired).1.Ok?
    ensures JoinTable(cfg, t, msg).0.machines ==
            RebindDesired(cfg, Registered(cfg, t, msg), msg.user, msg.machine, msg.desired).machines
  {
    RegistrationMovesNone(cfg, t, msg);
    RegisterJoinKeeps(t, cfg.disk, msg.user, msg.machine, msg.public, [], [], msg.desired);
    var t1 := Registered(cfg, t, msg);
    FoundMachine(t1, msg.user, msg.machine);
    assert EnsureInSubnet(cfg, t1, msg.user, msg.machine) == t1;
    var t3 := RebindDesired(cfg, t1, msg.user, msg.machine, msg.desired);
    RebindKeepsSound(cfg, t1, msg.user, msg.machine, msg.desired);
    AdminRuleNeedsPending(cfg, t3, msg.user, msg.machine);
  }

  /**
   What a join with pin `desired` makes of the address `ip` in the subnet: the pinned one, if that is another and
   free.
   */
  ghost predicate AddressAfterPin(cfg: Config, t: Table, ip: Ipv4, ip': Option<Ipv4>, desired: int) {
    ip' == if LastOctet(ip) != desired && PinFree(t, cfg.subnet, desired) then Some(PinnedAddress(cfg.subnet, desired))
           else Some(ip)
  }

  lemma RebindRow(cfg: Config, t: Table, user: Name, machine: Name, desired: int)
    requires GetMachine(t, user, machine).Some? && GetMachine(t, user, machine).value.vpnIP.Some?
    ensures var k := FindMachine(t, user, machine);
            var ms' := RebindDesired(cfg, t, user, machine, desired).machines;
            k < |ms'| && AddressAfterPin(cfg, t, t.machines[k].vpnIP.value, ms'[k].vpnIP, desired)
  {
    FoundMachine(t, user, machine);
    if desired != 0 {
      PinFreeIff(t, cfg.subnet, desired);
    }
  }

  lemma RegistrationFreesNoPin(cfg: Config, t: Table, msg: JoinProof)
    ensures PinFree(Registered(cfg, t, msg), cfg.subnet, msg.desired) <==> PinFree(t, cfg.subnet, msg.desired)
  {
    RegistrationMovesNone(cfg, t, msg);
    var t1 := Registered(cfg, t, msg);
    assert forall i :: 0 <= i < |t.machines| ==> t1.machines[i] in t1.machines && t.machines[i] in t.machines;
    assert forall i :: |t.machines| <= i < |t1.machines| ==> t1.machines[i].vpnIP.None?;
  }

  /**
   A settled row keeps its address unless the join asks for a pin that is not its present last octet and that names
   an address of the subnet which is not the server's and which no machine holds before the join; then it moves there.
   */
  lemma SettledRowKeepsAddressIff(cfg: Config, t: Table, msg: JoinProof)
    requires Sound(t) && Settled(cfg, t, msg)
    requires RegisterJoin(t, cfg.disk, msg.user, msg.machine, msg.public, [], [], msg.desired).1.Ok?
    ensures var k := FindMachine(Registered(cfg, t, msg), msg.user, msg.machine);
            var ms' := JoinTable(cfg, t, msg).0.machines;
            k < |ms'| && AddressAfterPin(cfg, t, t.machines[k].vpnIP.value, ms'[k].vpnIP, msg.desired) &&
            (ms'[k].vpnIP != t.machines[k].vpnIP <==>
               LastOctet(t.machines[k].vpnIP.value) != msg.desired && PinFree(t, cfg.subnet, msg.desired))
  {
    SettledJoin(cfg, t, msg);
    RegistrationMovesNone(cfg, t, msg);
    RegistrationFreesNoPin(cfg, t, msg);
    RebindRow(cfg, Registered(cfg, t, msg), msg.user, msg.machine, msg.desired);
    if PinFree(t, cfg.subnet, msg.desired) {
      PinFreeIff(t, cfg.subnet, msg.desired);
    }
  }

  /** A machine at 192.168.100.2 that reconnects with the pin 7 is moved to 192.168.100.7. */
  lemma ReconnectCanMove(cfg: Config, proof: Bytes)
    requires cfg.subnet == Prefix(0xC0A8_6400, 24) && cfg.disk(0)
    ensures var b, x, k := [2], [10], [5];
            var t := Table([User(b, [1], [1], Active)], [Machine(b, x, 0, k, Some(0xC0A8_6402), Active)], [], 0);
            var msg := JoinProof(b, x, k, proof, 7);
            Sound(t) && Settled(cfg, t, msg) &&
            var ms' := JoinTable(cfg, t, msg).0.machines; |ms'| == 1 && ms'[0].vpnIP == Some(0xC0A8_6407)
  {
    var b, x, k := [2], [10], [5];
    var user, row := User(b, [1], [1], Active), Machine(b, x, 0, k, Some(0xC0A8_6402), Active);
    var t, msg := Table([user], [row], [], 0), JoinProof(b, x, k, proof, 7);
    assert Pow2(8) == 0x100;
    assert t.users[0] == user && HasUser(t.users, b);
    assert FindUser(t, b) == 0 by {
      assert NamedUser(b)(t.users[0]);
    }
    assert First(t.machines, HasPublic(k)) == 0 by {
      assert HasPublic(k)(t.machines[0]);
    }
    assert Sound(t);
    var t1 := Registered(cfg, t, msg);
    assert t1.machines == [row.(desired := 7)];
    assert FindMachine(t1, b, x) == 0 by {
      assert IsMachine(b, x)(t1.machines[0]);
    }
    assert Used(t1.machines) == {0xC0A8_6402};
    SettledRowKeepsAddressIff(cfg, t, msg);
  }

  /** With no pin, or the pin it already has, a settled join moves no row at all. */
  lemma SettledJoinMovesNothing(cfg: Config, t: Table, msg: JoinProof)
    requires Sound(t) && Settled(cfg, t, msg)
    requires var k := FindMachine(Registered(cfg, t, msg), msg.user, msg.machine);
             msg.desired == 0 || LastOctet(t.machines[k].vpnIP.value) == msg.desired
    ensures var ms' := JoinTable(cfg, t, msg).0.machines;
            |t.machines| <= |ms'| && forall i :: 0 <= i < |t.machines| ==> ms'[i].vpnIP == t.machines[i].vpnIP
  {
    RegistrationMovesNone(cfg, t, msg);
    if RegisterJoin(t, cfg.disk, msg.user, msg.machine, msg.public, [], [], msg.desired).1.Ok? {
      SettledRowKeepsAddressIff(cfg, t, msg);
      JoinMovesAtMostOneRow(cfg, t, msg);
    }
  }

  // Blocking and unblocking.

  datatype Toggle = BlockIt(user: Name, machine: Name) | UnblockIt(user: Name, machine: Name)

  function ToggleOnce(t: Table, disk: Disk, toggle: Toggle): Table {
    match toggle
    case BlockIt(user, machine) => Block(t, disk, user, machine).0
    case UnblockIt(user, machine) => Unblock(t, disk, user, machine).0
  }

  function Toggled(t: Table, disk: Disk, toggles: seq<Toggle>): Table
    decreases |toggles|
  {
    if toggles == [] then t else Toggled(ToggleOnce(t, disk, toggles[0]), disk, toggles[1..])
  }

  /** No sequence of blocks and unblocks adds or drops a row, or changes anything but statuses. */
  lemma {:induction false} TogglesMoveNothing(t: Table, disk: Disk, toggles: seq<Toggle>)
    ensures var ms' := Toggled(t, disk, toggles).machines;
            |ms'| == |t.machines| &&
            forall i :: 0 <= i < |ms'| ==> ms'[i] == t.machines[i].(status := ms'[i].status)
    decreases |toggles|
  {
    if toggles == [] {
    } else {
      var next := ToggleOnce(t, disk, toggles[0]);
      assert |next.machines| == |t.machines|;
      assert forall i :: 0 <= i < |t.machines| ==>
        next.machines[i] == t.machines[i].(status := next.machines[i].status);
      TogglesMoveNothing(next, disk, toggles[1..]);
    }
  }
}
