/**
 The registry as a value (internal/state/state.go): users, machines and grants,
 and for every operation the table it leaves behind and the result it reports.

 Saving is an oracle: `disk(n)` says whether the n-th write of the state file
 succeeds, and a failed write is reported after the in-memory change was made.
 */
module Registry {
  import opened Basics
  import opened Seqs
  import opened Prefixes

  datatype Status = Pending | Active | Blocked

  datatype User = User(name: Name, salt: Bytes, verifier: Bytes, status: Status)

  /** `desired` is the pinned host number, 0 when there is none; `vpnIP` is None until one is bound. */
  datatype Machine = Machine(user: Name, name: Name, desired: int, public: Bytes, vpnIP: Option<Ipv4>, status: Status)

  datatype Grant = Grant(subject: Bytes, target: Name)

  datatype Table = Table(users: seq<User>, machines: seq<Machine>, grants: seq<Grant>, writes: nat)

  const EMPTY := Table([], [], [], 0)

  type Disk = nat -> bool

  datatype Error =
    | UserNotFound
    | MachineNotFound
    | NotPending
    | UserNotActive
    | VerifierMissing
    | NameUsed
    | PinOutOfRange
    | PinNotUsable
    | AddressTaken(owner: Bytes)
    | NoFreeAddress
    | BadTarget
    | SaveFailed
    | FieldsMissing
    | UnknownUser
    | NoChallenge
    | ProofRejected
    | UnknownCommand

  datatype Outcome = Done | Failed(error: Error)

  // Row tests.

  function NamedUser(name: Name): User -> bool {
    (u: User) => u.name == name
  }

  function IsMachine(user: Name, name: Name): Machine -> bool {
    (m: Machine) => m.user == user && m.name == name
  }

  function HasPublic(public: Bytes): Machine -> bool {
    (m: Machine) => m.public == public
  }

  function HasIP(ip: Ipv4): Machine -> bool {
    (m: Machine) => m.vpnIP == Some(ip)
  }

  function UsesName(user: Name, name: Name, public: Bytes): Machine -> bool {
    (m: Machine) => m.user == user && m.name == name && m.public != public
  }

  function NotNamedUser(name: Name): User -> bool {
    (u: User) => u.name != name
  }

  function NotOfUser(user: Name): Machine -> bool {
    (m: Machine) => m.user != user
  }

  function NotMachine(user: Name, name: Name): Machine -> bool {
    (m: Machine) => !(m.user == user && m.name == name)
  }

  function NotGrant(subject: Bytes, target: Name): Grant -> bool {
    (g: Grant) => g.subject != subject || g.target != target
  }

  function NotOfSubject(subject: Bytes): Grant -> bool {
    (g: Grant) => g.subject != subject
  }

  // Lookups.

  function FindUser(t: Table, name: Name): nat {
    First(t.users, NamedUser(name))
  }

  function FindMachine(t: Table, user: Name, name: Name): nat {
    First(t.machines, IsMachine(user, name))
  }

  function GetUser(t: Table, name: Name): Option<User> {
    var i := FindUser(t, name);
    if i == |t.users| then None else Some(t.users[i])
  }

  function GetMachine(t: Table, user: Name, name: Name): Option<Machine> {
    var i := FindMachine(t, user, name);
    if i == |t.machines| then None else Some(t.machines[i])
  }

  function FindMachineByIP(t: Table, ip: Ipv4): Option<Machine> {
    var i := First(t.machines, HasIP(ip));
    if i == |t.machines| then None else Some(t.machines[i])
  }

  // Updates.

  function Save(t: Table, disk: Disk): (Table, Outcome) {
    (t.(writes := t.writes + 1), if disk(t.writes) then Done else Failed(SaveFailed))
  }

  function SetUser(t: Table, i: nat, u: User): Table
    requires i < |t.users|
  {
    t.(users := t.users[i := u])
  }

  function SetMachine(t: Table, i: nat, m: Machine): Table
    requires i < |t.machines|
  {
    t.(machines := t.machines[i := m])
  }

  function Allow(t: Table, disk: Disk, user: Name, machine: Name): (Table, Outcome) {
    var u := FindUser(t, user);
    if machine == [] then
      if u == |t.users| then (t, Failed(UserNotFound))
      else if t.users[u].status != Pending then (t, Failed(NotPending))
      else Save(SetUser(t, u, t.users[u].(status := Active)), disk)
    else
      var i := FindMachine(t, user, machine);
      if i == |t.machines| then (t, Failed(MachineNotFound))
      else if t.machines[i].status != Pending then (t, Failed(NotPending))
      else if u == |t.users| || t.users[u].status != Active then (t, Failed(UserNotActive))
      else Save(SetMachine(t, i, t.machines[i].(status := Active)), disk)
  }

  function Deny(t: Table, disk: Disk, user: Name, machine: Name): (Table, Outcome) {
    if machine == [] then
      if FindUser(t, user) == |t.users| then (t, Failed(UserNotFound))
      else Save(t.(users := Filter(t.users, NotNamedUser(user)), machines := Filter(t.machines, NotOfUser(user))), disk)
    else
      if FindMachine(t, user, machine) == |t.machines| then (t, Failed(MachineNotFound))
      else Save(t.(machines := Filter(t.machines, NotMachine(user, machine))), disk)
  }

  /** Every machine of `user` whose status is in `from` takes status `to`. */
  function Restatus(ms: seq<Machine>, user: Name, from: set<Status>, to: Status): (r: seq<Machine>)
    ensures |r| == |ms|
    ensures forall i :: 0 <= i < |ms| ==>
              r[i] == if ms[i].user == user && ms[i].status in from then ms[i].(status := to) else ms[i]
  {
    seq(|ms|, i requires 0 <= i < |ms| =>
      if ms[i].user == user && ms[i].status in from then ms[i].(status := to) else ms[i])
  }

  function Block(t: Table, disk: Disk, user: Name, machine: Name): (Table, Outcome) {
    if machine == [] then
      var u := FindUser(t, user);
      if u == |t.users| then (t, Failed(UserNotFound))
      else Save(SetUser(t, u, t.users[u].(status := Blocked)).(
                  machines := Restatus(t.machines, user, {Pending, Active, Blocked}, Blocked)), disk)
    else
      var i := FindMachine(t, user, machine);
      if i == |t.machines| then (t, Failed(MachineNotFound))
      else Save(SetMachine(t, i, t.machines[i].(status := Blocked)), disk)
  }

  function Unblock(t: Table, disk: Disk, user: Name, machine: Name): (Table, Outcome) {
    if machine == [] then
      var u := FindUser(t, user);
      if u == |t.users| then (t, Failed(UserNotFound))
      else
        var unblocked := if t.users[u].status == Blocked then t.users[u].(status := Active) else t.users[u];
        Save(SetUser(t, u, unblocked).(machines := Restatus(t.machines, user, {Blocked}, Active)), disk)
    else
      var i := FindMachine(t, user, machine);
      if i == |t.machines| then (t, Failed(MachineNotFound))
      else
        var unblocked := if t.machines[i].status == Blocked then t.machines[i].(status := Active) else t.machines[i];
        Save(SetMachine(t, i, unblocked), disk)
  }

  function GrantTo(t: Table, disk: Disk, subject: Bytes, target: Name): (Table, Outcome) {
    if Grant(subject, target) in t.grants then (t, Done)
    else Save(t.(grants := t.grants + [Grant(subject, target)]), disk)
  }

  function Revoke(t: Table, disk: Disk, subject: Bytes, target: Name): (Table, Outcome) {
    Save(t.(grants := Filter(t.grants, NotGrant(subject, target))), disk)
  }

  /** The targets granted to `subject`, in order. */
  function GrantsOf(gs: seq<Grant>, subject: Bytes): (r: seq<Name>)
    ensures forall target :: target in r <==> Grant(subject, target) in gs
  {
    if gs == [] then []
    else
      var last := gs[|gs| - 1];
      var front := GrantsOf(gs[..|gs| - 1], subject);
      assert gs == gs[..|gs| - 1] + [last];
      if last.subject == subject then front + [last.target] else front
  }

  predicate IsGranted(t: Table, user: Name, machine: Name, target: Name) {
    exists g :: g in t.grants && g.target == target && (g.subject == user || g.subject == JoinKey(user, machine))
  }

  function Saved(t: Table, disk: Disk, status: Status): (Table, Result<Status, Error>) {
    var (t', outcome) := Save(t, disk);
    (t', if outcome.Done? then Ok(status) else Err(outcome.error))
  }

  function RegisterJoin(t: Table, disk: Disk, user: Name, machine: Name, public: Bytes,
                        salt: Bytes, verifier: Bytes, desired: int): (Table, Result<Status, Error>) {
    var u := FindUser(t, user);
    var row := Machine(user, machine, desired, public, None, Pending);
    if u == |t.users| then
      if salt == [] || verifier == [] then (t, Err(VerifierMissing))
      else Saved(t.(users := t.users + [User(user, salt, verifier, Pending)], machines := t.machines + [row]), disk,
                 Pending)
    else if t.users[u].status == Blocked then (t, Ok(Blocked))
    else
      var i := First(t.machines, HasPublic(public));
      var nameUsed := First(t.machines, UsesName(user, machine, public)) < |t.machines|;
      if i < |t.machines| then
        var m := t.machines[i];
        if m.status == Blocked then (t, Ok(Blocked))
        else if m.name != machine && nameUsed then (t, Err(NameUsed))
        else
          var m' := m.(name := machine, desired := if desired != 0 then desired else m.desired);
          Saved(SetMachine(t, i, m'), disk, m.status)
      else if nameUsed then (t, Err(NameUsed))
      else Saved(t.(machines := t.machines + [row]), disk, Pending)
  }

  function SetVerifier(t: Table, disk: Disk, name: Name, salt: Bytes, verifier: Bytes): (Table, Outcome) {
    var u := FindUser(t, name);
    if u == |t.users| then (t, Failed(UserNotFound))
    else Save(SetUser(t, u, t.users[u].(salt := salt, verifier := verifier)), disk)
  }

  function SetMachineIP(t: Table, disk: Disk, user: Name, machine: Name, ip: Ipv4): (Table, Outcome) {
    var i := FindMachine(t, user, machine);
    if i == |t.machines| then (t, Failed(MachineNotFound))
    else Save(SetMachine(t, i, t.machines[i].(vpnIP := Some(ip))), disk)
  }

  function EnsureAdmin(t: Table, disk: Disk, name: Name, salt: Bytes, verifier: Bytes): (Table, Outcome) {
    var u := FindUser(t, name);
    if u == |t.users| then Save(t.(users := t.users + [User(name, salt, verifier, Active)]), disk)
    else if t.users[u].status != Active then Save(SetUser(t, u, t.users[u].(status := Active)), disk)
    else (t, Done)
  }

  // Addresses.

  function Used(ms: seq<Machine>): set<Ipv4> {
    set m | m in ms && m.vpnIP.Some? :: m.vpnIP.value
  }

  /** The holder an address is put down to: the last row bound to it. */
  function OwnerOf(ms: seq<Machine>, ip: Ipv4): Bytes
    requires ip in Used(ms)
  {
    var last := ms[|ms| - 1];
    if last.vpnIP == Some(ip) then JoinKey(last.user, last.name)
    else
      assert ms == ms[..|ms| - 1] + [last];
      OwnerOf(ms[..|ms| - 1], ip)
  }

  /** The first address from `a` on that is inside the prefix and free. */
  function FirstFree(p: Prefix, used: set<Ipv4>, a: Option<Ipv4>): Option<Ipv4>
    decreases if a.Some? then TOP - a.value + 1 else 0
  {
    if a.None? || !Contains(p, a.value) then None
    else if a == ServerIP(p) || a.value in used then FirstFree(p, used, Next(a.value))
    else a
  }

  /** The pinned address shares the first three octets of the subnet address. */
  function PinnedAddress(p: Prefix, desired: int): Ipv4
    requires 2 <= desired <= 254
  {
    p.addr - p.addr % 0x100 + desired
  }

  /** Replacing the last of the four address bytes gives the pinned address. */
  lemma PinnedAddressBytes(p: Prefix, desired: int)
    requires 2 <= desired <= 254
    ensures var base := Be32(p.addr);
            FromBe32([base[0], base[1], base[2], desired]) == PinnedAddress(p, desired)
  {
    FromBe32OfBe32(p.addr);
  }

  function Allocate(t: Table, p: Prefix, desired: int): Result<Ipv4, Error> {
    if desired != 0 then
      if desired < 2 || desired > 254 then Err(PinOutOfRange)
      else
        var a := PinnedAddress(p, desired);
        if !Contains(p, a) || Some(a) == ServerIP(p) then Err(PinNotUsable)
        else if a in Used(t.machines) then Err(AddressTaken(OwnerOf(t.machines, a)))
        else Ok(a)
    else
      var start := if ServerIP(p).Some? then Next(ServerIP(p).value) else None;
      match FirstFree(p, Used(t.machines), start)
      case Some(a) => Ok(a)
      case None => Err(NoFreeAddress)
  }

  /** Cut at the first slash; an empty target or an empty user part is refused. */
  function ParseTarget(target: Bytes): Result<(Name, Name), Error> {
    var i := First(target, b => b == SLASH);
    if i == 0 then Err(BadTarget)
    else Ok((target[..i], if i < |target| then target[i + 1..] else []))
  }

  lemma ParseTargetOfUser(user: Name)
    requires user != [] && SLASH !in user
    ensures ParseTarget(user) == Ok((user, []))
  {
    assert user[..|user|] == user;
  }

  /** ParseTarget undoes the printed form of a machine when the user part has no slash. */
  lemma ParseTargetOfMachine(user: Name, machine: Name)
    requires user != [] && SLASH !in user
    ensures ParseTarget(JoinKey(user, machine)) == Ok((user, machine))
  {
    var target := JoinKey(user, machine);
    assert forall i :: 0 <= i < |user| ==> target[i] == user[i];
    assert target[|user|] == SLASH;
    assert target[..|user|] == user && target[|user| + 1..] == machine;
  }
}
