/** When the server acts on a signed message, on the bytes of the datagram (verifyMachine and its callers). */
module Authentication {
  import opened Basics
  import opened Seqs
  import opened Registry
  import opened Envelopes
  import opened Signed
  import opened Signatures
  import opened ServerModel

  lemma FoundByIP(t: Table, ip: Ipv4)
    requires FindMachineByIP(t, ip).Some?
    ensures var m := FindMachineByIP(t, ip).value; m in t.machines && m.vpnIP == Some(ip)
  {
    var i := First(t.machines, HasIP(ip));
    assert HasIP(ip)(t.machines[i]);
  }

  lemma RowVerifiedIff(cfg: Config, row: Machine, body: Bytes)
    requires ParseSigned(body).Ok?
    ensures var (m, sig) := ParseSigned(body).value;
            cfg.crypto.VerifySigned(m, sig, MachineKeys(row).0) <==> SignedByMachine(cfg.crypto, row, body)
  {
    VerifiedIff(cfg.crypto, MachineKeys(row).0, body);
  }

  /** The row an address is found under is the one that holds it, when no two do. */
  lemma FoundByIPIff(t: Table, ip: Ipv4, m: Machine)
    requires forall i, j :: 0 <= i < j < |t.machines| && t.machines[i].vpnIP.Some? ==>
               t.machines[i].vpnIP != t.machines[j].vpnIP
    ensures FindMachineByIP(t, ip) == Some(m) <==> m in t.machines && m.vpnIP == Some(ip)
  {
    if FindMachineByIP(t, ip).Some? {
      FoundByIP(t, ip);
    }
    if m in t.machines && m.vpnIP == Some(ip) {
      var i :| 0 <= i < |t.machines| && t.machines[i] == m;
      assert HasIP(ip)(t.machines[i]);
    }
  }

  /** Keep-alive, data, relay data, peer query, machine list, admin request. */
  predicate TypeForServer(typ: byte) {
    typ == 0x10 || typ == 0x11 || typ == 0x12 || typ == 0x20 || typ == 0x30 || typ == 0x32
  }

  /**
   The server acts on a datagram for `src` exactly when it is one of six types, holds 73 bytes or more, names an address
   bound to `src` and is signed by it; data also needs `src` to be active.
   */
  lemma AuthenticatedIff(cfg: Config, t: Table, env: Envelope, m: SignedMessage, src: Machine)
    ensures Authenticated(cfg, t, env) == Some((m, src)) <==>
            && TypeForServer(env.typ) && |env.body| >= 73
            && ParseSigned(env.body).value.0 == m
            && FindMachineByIP(t, FromBe32(env.body[1..5])) == Some(src) && SignedByMachine(cfg.crypto, src, env.body)
            && (env.typ == 0x11 || env.typ == 0x12 ==> src.status == Active)
  {
    if ParseSigned(env.body).Ok? {
      var body := env.body;
      assert body[..|body| - 64][1..5] == body[1..5];
      RowVerifiedIff(cfg, src, body);
      var row := FindMachineByIP(t, FromBe32(body[1..5]));
      if row.Some? {
        RowVerifiedIff(cfg, row.value, body);
      }
    }
  }

  /** What the fields of an accepted message are in the datagram. */
  lemma MessageFields(body: Bytes)
    requires |body| >= 73
    ensures ParseSigned(body).Ok?
    ensures var m := ParseSigned(body).value.0;
            m.srcIP == Some(FromBe32(body[1..5])) && m.dstIP == Some(FromBe32(body[5..9])) && m.typ == body[0] &&
            m.payload == body[9..|body| - 64]
  {
    assert body[..|body| - 64][1..5] == body[1..5] && body[..|body| - 64][5..9] == body[5..9];
    assert body[..|body| - 64][9..] == body[9..|body| - 64];
  }

  // Messages that only need an answer.

  /** A keep-alive is answered to where it came from, with a signed keep-alive for its source address. */
  lemma KeepAliveIsAnswered(cfg: Config, s: ServerState, env: Envelope, remote: Endpoint, now: nat,
                            m: SignedMessage, src: Machine)
    requires env.typ == 0x10 && Authenticated(cfg, s.table, env) == Some((m, src))
    ensures HandleSigned(cfg, s, env, remote, now).outs ==
            [Send(remote, ServerSigned(cfg, 0x10, Some(FromBe32(env.body[1..5])), []))]
  {
    AuthenticatedIff(cfg, s.table, env, m, src);
    MessageFields(env.body);
  }

  /** A machine list request is answered to where it came from. */
  lemma MachineListIsAnswered(cfg: Config, s: ServerState, env: Envelope, remote: Endpoint, now: nat,
                              m: SignedMessage, src: Machine)
    requires env.typ == 0x30 && Authenticated(cfg, s.table, env) == Some((m, src))
    ensures HandleSigned(cfg, s, env, remote, now).outs == [Send(remote, MachineListReply)]
  {
    AuthenticatedIff(cfg, s.table, env, m, src);
    MessageFields(env.body);
  }
}
