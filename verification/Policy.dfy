/** Who may send to whom (internal/server/policy.go). */
module Policy {
  import opened Basics
  import opened Registry

  /** The name "server". */
  const SERVER_NAME: Name := [0x73, 0x65, 0x72, 0x76, 0x65, 0x72]

  predicate AllowRelay(admin: Name, t: Table, src: Machine, dst: Machine) {
    if src.user == admin then true
    else if src.user == dst.user then true
    else if dst.user == admin then IsGranted(t, src.user, src.name, dst.name)
    else false
  }

  predicate AllowP2P(admin: Name, t: Table, a: Machine, b: Machine) {
    AllowRelay(admin, t, a, b) && AllowRelay(admin, t, b, a)
  }

  function ServerMachine(admin: Name): Machine {
    Machine(admin, SERVER_NAME, 0, [], None, Active)
  }

  // What the policy means.

  /**
   The access table: machines of the admin may call any machine, machines of one user may call each other, and any
   other machine may call an admin machine that a grant names for its user or for user/machine.
   */
  ghost predicate MayCall(admin: Name, t: Table, src: Machine, dst: Machine) {
    || src.user == admin
    || src.user == dst.user
    || (dst.user == admin &&
        exists g :: g in t.grants && g.target == dst.name &&
                    (g.subject == src.user || g.subject == src.user + [SLASH] + src.name))
  }

  lemma AllowRelayIff(admin: Name, t: Table, src: Machine, dst: Machine)
    ensures AllowRelay(admin, t, src, dst) <==> MayCall(admin, t, src, dst)
  {
  }

  lemma AllowP2PIff(admin: Name, t: Table, a: Machine, b: Machine)
    ensures AllowP2P(admin, t, a, b) <==> MayCall(admin, t, a, b) && MayCall(admin, t, b, a)
  {
    AllowRelayIff(admin, t, a, b);
    AllowRelayIff(admin, t, b, a);
  }

  /** Machines of two users, neither the admin, may not call each other, whatever is granted. */
  lemma StrangersMayNotCall(admin: Name, t: Table, src: Machine, dst: Machine)
    requires src.user != admin && dst.user != admin && src.user != dst.user
    ensures !AllowRelay(admin, t, src, dst)
  {
    AllowRelayIff(admin, t, src, dst);
  }
}
