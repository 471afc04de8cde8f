/**
 The mutable node (internal/node/data.go).  Peer entries are objects updated in place through
 the table; every handler is proved to reach the state, and send the packets, of NodeModel.
 */
module Nodes {
  import opened Basics
  import opened Envelopes
  import opened Signed
  import opened Packets
  import opened PeerAnswers
  import M = NodeModel

  class PeerEntry {
    var signPub: Bytes
    var exchPub: Bytes
    var key: Bytes
    var realAddr: Option<Endpoint>
    var canCall: bool
    var canCallBack: bool
    var directOK: bool
    var lastSeen: nat

    function Value(): M.Peer
      reads this
    {
      M.Peer(signPub, exchPub, key, realAddr, canCall, canCallBack, directOK, lastSeen)
    }

    constructor (p: M.Peer)
      ensures Value() == p
    {
      signPub, exchPub, key, realAddr := p.signPub, p.exchPub, p.key, p.realAddr;
      canCall, canCallBack, directOK, lastSeen := p.canCall, p.canCallBack, p.directOK, p.lastSeen;
    }

    method Install(a: PeerAnswer, key: Bytes, now: nat)
      modifies this
      ensures Value() == M.PeerOf(a, key, now)
    {
      signPub := a.signPub;
      exchPub := a.exchPub;
      this.key := key;
      canCall := a.canCall;
      canCallBack := a.canCallBack;
      directOK := false;
      lastSeen := now;
      realAddr := None;
      if a.hasAddr {
        realAddr := a.addr;
      }
    }
  }

  class Node {
    const cfg: M.Config
    var peers: map<Ipv4, PeerEntry>
    var pending: map<Ipv4, seq<M.Cached>>
    var blocked: bool

    /** No entry serves two addresses. */
    ghost predicate Valid()
      reads this
    {
      forall a, b :: a in peers && b in peers && a != b ==> peers[a] != peers[b]
    }

    ghost function Entries(): set<object>
      reads this
    {
      set ip | ip in peers :: peers[ip]
    }

    ghost function View(): M.NodeState
      reads this, Entries()
    {
      M.NodeState(map ip | ip in peers :: peers[ip].Value(), pending, blocked)
    }

    constructor (cfg: M.Config)
      ensures Valid() && View() == M.START && this.cfg == cfg && Entries() == {}
    {
      this.cfg := cfg;
      peers, pending, blocked := map[], map[], false;
    }

    method LookupPeer(ip: Ipv4) returns (p: PeerEntry?)
      requires Valid()
      ensures p == if ip in peers then peers[ip] else null
    {
      p := if ip in peers then peers[ip] else null;
    }

    /** Stores an entry that serves no other address. */
    method Put(ip: Ipv4, p: PeerEntry)
      requires Valid() && forall a :: a in peers && a != ip ==> peers[a] != p
      modifies `peers
      ensures Valid() && peers == old(peers)[ip := p] && Entries() <= old(Entries()) + {p}
      ensures View() == old(View()).(peers := old(View()).peers[ip := p.Value()])
    {
      peers := peers[ip := p];
      assert View().peers == old(View()).peers[ip := p.Value()];
    }

    method EnsureServerPeer(now: nat) returns (p: PeerEntry?)
      requires Valid()
      modifies this
      ensures Valid() && fresh(Entries() - old(Entries()))
      ensures (View(), if p == null then None else Some(p.Value())) == M.EnsureServerPeer(cfg, old(View()), now)
      ensures p != null ==> M.ServerVpn(cfg) in peers && peers[M.ServerVpn(cfg)] == p
    {
      var ip := M.ServerVpn(cfg);
      if ip in peers {
        return peers[ip];
      }
      var key := cfg.crypto.sharedKey(cfg.exchKey, cfg.serverExchPub);
      if key.None? {
        return null;
      }
      p := new PeerEntry(M.ServerPeer(cfg, key.value, now));
      assert View() == old(View());
      Put(ip, p);
    }

    /** Overwrites the fields of an entry already in the table. */
    method Refill(dst: Ipv4, a: PeerAnswer, key: Bytes, now: nat)
      requires Valid() && dst in peers
      modifies peers[dst]
      ensures peers[dst].Value() == M.PeerOf(a, key, now)
      ensures View() == old(View()).(peers := old(View()).peers[dst := M.PeerOf(a, key, now)])
    {
      peers[dst].Install(a, key, now);
      assert forall ip :: ip in peers && ip != dst ==> peers[ip].Value() == old(peers[ip].Value());
      assert View().peers == old(View()).peers[dst := M.PeerOf(a, key, now)];
    }

    /** The tail of ensurePeer: refills the entry of `dst`, or makes one. */
    method Store(dst: Ipv4, a: PeerAnswer, key: Bytes, now: nat) returns (p: PeerEntry)
      requires Valid()
      modifies this, Entries()
      ensures Valid() && fresh(Entries() - old(Entries()))
      ensures View() == old(View()).(peers := old(View()).peers[dst := M.PeerOf(a, key, now)])
      ensures dst in peers && peers[dst] == p && p.Value() == M.PeerOf(a, key, now)
    {
      if dst in peers {
        Refill(dst, a, key, now);
        p := peers[dst];
      } else {
        p := new PeerEntry(M.PeerOf(a, key, now));
        assert View() == old(View());
        Put(dst, p);
      }
    }

    method EnsurePeer(dst: Ipv4, answer: Option<PeerAnswer>, now: nat) returns (p: PeerEntry?)
      requires Valid()
      modifies this, Entries()
      ensures Valid() && fresh(Entries() - old(Entries()))
      ensures (View(), if p == null then None else Some(p.Value())) == M.EnsurePeer(cfg, old(View()), dst, answer, now)
      ensures p != null ==> dst in peers && peers[dst] == p
    {
      if dst == M.ServerVpn(cfg) {
        p := EnsureServerPeer(now);
        return;
      }
      p := LookupPeer(dst);
      if p != null && now - p.lastSeen < M.PEER_REFRESH_AFTER {
        return;
      }
      if answer.None? {
        return null;
      }
      var a := answer.value;
      if !a.found {
        return null;
      }
      var key := cfg.crypto.sharedKey(cfg.exchKey, a.exchPub);
      if key.None? {
        return null;
      }
      p := Store(dst, a, key.value, now);
    }

    method DropPeer(ip: Ipv4)
      requires Valid()
      modifies this
      ensures Valid() && Entries() <= old(Entries())
      ensures View() == old(View()).(peers := old(View()).peers - {ip})
    {
      peers := peers - {ip};
    }

    /** The part of sendTo after the policy test. */
    method Transmit(p: PeerEntry, dst: Ipv4, raw: Bytes, nonce: Bytes, now: nat) returns (outs: seq<M.Output>)
      ensures outs == match M.SealedBody(cfg, p.Value(), dst, raw, nonce)
                      case None => []
                      case Some(body) => M.Transmit(cfg, p.Value(), body, now)
    {
      var cipher := cfg.crypto.seal(p.key, nonce, raw);
      if cipher.None? {
        return [];
      }
      var body := MarshalSigned(SignedMessage(TYPE_DATA, Some(cfg.vpnIP), Some(dst), cipher.value),
                                cfg.crypto.Signer(cfg.signKey));
      var bothWays := p.canCall && p.canCallBack;
      outs := [];
      if bothWays && p.directOK && now - p.lastSeen < M.P2P_FRESH_AFTER {
        if p.realAddr.Some? {
          outs := [M.Udp(p.realAddr.value, Envelope(TYPE_DATA, body))];
        }
        return;
      }
      if bothWays && p.realAddr.Some? {
        outs := [M.Udp(p.realAddr.value, Envelope(TYPE_DATA, body))];
      }
      outs := outs + [M.Udp(cfg.serverAddr, Envelope(TYPE_RELAY_DATA, body))];
    }

    method SendTo(dst: Ipv4, raw: Bytes, answer: Option<PeerAnswer>, nonce: Bytes, now: nat)
      returns (outs: seq<M.Output>)
      requires Valid()
      modifies this, Entries()
      ensures Valid() && fresh(Entries() - old(Entries()))
      ensures M.Step(View(), outs) == M.SendTo(cfg, old(View()), dst, raw, answer, nonce, now)
    {
      if blocked {
        return [];
      }
      var p := EnsurePeer(dst, answer, now);
      if p == null {
        return [];
      }
      if !p.canCall && !IsReplyPacket(raw) {
        DropPeer(dst);
        return [];
      }
      outs := Transmit(p, dst, raw, nonce, now);
    }

    method CachePacket(ip: Ipv4, pkt: M.Cached)
      requires Valid()
      modifies `pending
      ensures Valid() && Entries() == old(Entries()) && View() == M.CachePacket(old(View()), ip, pkt)
    {
      var q := if ip in pending then pending[ip] else [];
      if |q| >= M.QUEUE_LIMIT {
        return;
      }
      pending := pending[ip := q + [pkt]];
    }

    /** A datagram from anywhere but the server moves the direct path. */
    method Observe(src: Ipv4, from: Endpoint, now: nat)
      requires Valid() && src in peers
      modifies peers[src]
      ensures var p := M.Observe(cfg, old(peers[src].Value()), from, now);
              View() == old(View()).(peers := old(View()).peers[src := p])
    {
      var p := peers[src];
      if from != cfg.serverAddr {
        p.realAddr := Some(from);
        p.directOK := true;
        p.lastSeen := now;
      }
      assert forall ip :: ip in peers && ip != src ==> peers[ip].Value() == old(peers[ip].Value());
      assert View().peers == old(View()).peers[src := M.Observe(cfg, old(p.Value()), from, now)];
    }

    method Deliver(p: PeerEntry, m: SignedMessage, sig: Bytes) returns (outs: seq<M.Output>)
      ensures outs == M.Deliver(cfg, p.Value(), m, sig)
    {
      if !cfg.crypto.VerifySigned(m, sig, p.signPub) {
        return [];
      }
      if m.srcIP == Some(cfg.vpnIP) || m.dstIP != Some(cfg.vpnIP) {
        return [];
      }
      var plain := cfg.crypto.open(p.key, m.payload);
      if plain.None? {
        return [];
      }
      if !p.canCallBack && !IsReplyPacket(plain.value) {
        return [];
      }
      return [M.Tun(plain.value)];
    }

    method HandleData(env: Envelope, from: Endpoint, now: nat) returns (outs: seq<M.Output>)
      requires Valid()
      modifies this, Entries()
      ensures Valid() && Entries() == old(Entries())
      ensures M.Step(View(), outs) == M.HandleData(cfg, old(View()), env, from, now)
    {
      if blocked {
        return [];
      }
      var parsed := ParseSigned(env.body);
      if parsed.Err? {
        return [];
      }
      var (m, sig) := parsed.value;
      var src := m.srcIP.value;
      var p := LookupPeer(src);
      if p == null {
        CachePacket(src, M.Cached(env, from));
        return [];
      }
      assert M.Names(env) == Some(src);
      Observe(src, from, now);
      outs := Deliver(p, m, sig);
    }

    /** The flush loop. */
    method HandleAll(q: seq<M.Cached>, now: nat) returns (outs: seq<M.Output>)
      requires Valid()
      modifies this, Entries()
      ensures Valid() && Entries() == old(Entries())
      ensures M.Step(View(), outs) == M.HandleAll(cfg, old(View()), q, now)
    {
      outs := [];
      for i := 0 to |q|
        invariant Valid() && Entries() == old(Entries())
        invariant M.Step(View(), outs) == M.HandleAll(cfg, old(View()), q[..i], now)
      {
        assert q[..i + 1][..i] == q[..i];
        var delivered := HandleData(q[i].env, q[i].from, now);
        outs := outs + delivered;
      }
      assert q[..|q|] == q;
    }

    /** The part of ensurePeerThenFlush under the queue lock. */
    method TakeQueue(ip: Ipv4) returns (q: seq<M.Cached>)
      requires Valid()
      modifies `pending
      ensures Valid() && Entries() == old(Entries()) && q == M.Queue(old(View()), ip)
      ensures View() == old(View()).(pending := old(View()).pending - {ip})
    {
      q := if ip in pending then pending[ip] else [];
      pending := pending - {ip};
    }

    method EnsurePeerThenFlush(ip: Ipv4, answer: Option<PeerAnswer>, now: nat) returns (outs: seq<M.Output>)
      requires Valid()
      modifies this, Entries()
      ensures Valid() && fresh(Entries() - old(Entries()))
      ensures M.Step(View(), outs) == M.EnsurePeerThenFlush(cfg, old(View()), ip, answer, now)
    {
      var p := EnsurePeer(ip, answer, now);
      if p == null {
        return [];
      }
      var q := TakeQueue(ip);
      outs := HandleAll(q, now);
    }

    method SetBlocked(status: Option<bool>)
      requires Valid()
      modifies `blocked
      ensures Valid() && Entries() == old(Entries())
      ensures View() == old(View()).(blocked := if status.Some? then status.value else old(blocked))
    {
      if status.Some? {
        blocked := status.value;
      }
    }

    /** Deletes every entry but the server's. */
    method DropAllPeers()
      requires Valid()
      modifies `peers
      ensures Valid() && Entries() <= old(Entries())
      ensures View() == M.DropAllPeers(cfg, old(View()))
    {
      var left := peers.Keys;
      while left != {}
        invariant left <= old(peers).Keys
        invariant forall ip :: ip in peers <==> ip in old(peers) && (ip in left || ip == M.ServerVpn(cfg))
        invariant forall ip :: ip in peers ==> peers[ip] == old(peers)[ip]
        decreases left
      {
        var ip :| ip in left;
        if ip != M.ServerVpn(cfg) {
          peers := peers - {ip};
        }
        left := left - {ip};
      }
      assert View().peers == M.DropAllPeers(cfg, old(View())).peers;
    }

    method HandlePolicyChanged(env: Envelope)
      requires Valid()
      modifies this
      ensures Valid() && Entries() <= old(Entries())
      ensures View() == M.HandlePolicyChanged(cfg, old(View()), env)
    {
      var parsed := ParseSigned(env.body);
      if parsed.Err? {
        return;
      }
      var (m, sig) := parsed.value;
      if !cfg.crypto.VerifySigned(m, sig, cfg.serverSignPub) {
        return;
      }
      SetBlocked(cfg.isBlocked(m.payload));
      DropAllPeers();
    }

    method ReadTun(raw: Bytes, answer: Option<PeerAnswer>, nonce: Bytes, now: nat) returns (outs: seq<M.Output>)
      requires Valid()
      modifies this, Entries()
      ensures Valid() && fresh(Entries() - old(Entries()))
      ensures M.Step(View(), outs) == M.ReadTun(cfg, old(View()), raw, answer, nonce, now)
    {
      if |raw| < 20 {
        return [];
      }
      if raw[0] / 0x10 != 4 {
        return [];
      }
      var dst := FromBe32(raw[16..20]);
      if dst == cfg.vpnIP {
        return [];
      }
      outs := SendTo(dst, raw, answer, nonce, now);
    }

    method Handle(e: M.Timed) returns (outs: seq<M.Output>)
      requires Valid()
      modifies this, Entries()
      ensures Valid() && fresh(Entries() - old(Entries()))
      ensures M.Step(View(), outs) == M.NodeStep(cfg, old(View()), e)
    {
      outs := [];
      match e.event
      case TunEvent(raw, answer, nonce) => outs := ReadTun(raw, answer, nonce, e.at);
      case DataEvent(env, from) => outs := HandleData(env, from, e.at);
      case FlushEvent(ip, answer) => outs := EnsurePeerThenFlush(ip, answer, e.at);
      case RefreshEvent(ip, answer) => var p := EnsurePeer(ip, answer, e.at);
      case PolicyEvent(env) => HandlePolicyChanged(env);
    }
  }
}
