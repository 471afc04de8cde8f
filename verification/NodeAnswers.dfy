/** The node's peer cache against the history of answers, and what follows for the packets it sends and delivers. */
module NodeAnswers {
  import opened Basics
  import opened Envelopes
  import opened Signed
  import opened Packets
  import opened PeerAnswers
  import opened NodeModel
  import opened NodeSafety
  import opened Signatures

  /** The answer that event `e` installs for `ip`, if it asks about `ip` and gets a usable reply. */
  function InstalledBy(cfg: Config, s: NodeState, e: Timed, ip: Ipv4): Option<PeerAnswer> {
    match e.event
    case TunEvent(raw, answer, _) =>
      if s.blocked || TunTarget(cfg, raw) != Some(ip) then None else Installed(cfg, s, ip, answer, e.at)
    case FlushEvent(dst, answer) => if dst == ip then Installed(cfg, s, ip, answer, e.at) else None
    case RefreshEvent(dst, answer) => if dst == ip then Installed(cfg, s, ip, answer, e.at) else None
    case _ => None
  }

  /** The last answer installed for `ip` in the run. */
  function LastAnswer(cfg: Config, run: seq<Timed>, ip: Ipv4): Option<PeerAnswer> {
    if run == [] then None
    else
      var front := run[..|run| - 1];
      var now := InstalledBy(cfg, After(cfg, front), run[|run| - 1], ip);
      if now.Some? then now else LastAnswer(cfg, front, ip)
  }

  /** Keys and permissions of the entry are those of the answer. */
  predicate MadeFrom(cfg: Config, p: Peer, a: PeerAnswer) {
    p.signPub == a.signPub && p.exchPub == a.exchPub && p.canCall == a.canCall && p.canCallBack == a.canCallBack &&
    cfg.crypto.sharedKey(cfg.exchKey, a.exchPub) == Some(p.key)
  }

  lemma EnsurePeerInstalls(cfg: Config, s: NodeState, dst: Ipv4, answer: Option<PeerAnswer>, now: nat, ip: Ipv4)
    requires ip != ServerVpn(cfg)
    ensures var (s', p) := EnsurePeer(cfg, s, dst, answer, now);
            var a := if dst == ip then Installed(cfg, s, ip, answer, now) else None;
            && (dst == ip && p.Some? ==> ip in s'.peers && s'.peers[ip] == p.value)
            && (if a.Some? then ip in s'.peers && MadeFrom(cfg, s'.peers[ip], a.value)
                else (ip in s'.peers <==> ip in s.peers) && (ip in s.peers ==> s'.peers[ip] == s.peers[ip]))
  {
  }

  /** After a step the entry of `ip` is made from the answer just installed, or is the old one up to its path. */
  ghost predicate Carried(cfg: Config, s: NodeState, s': NodeState, ip: Ipv4, a: Option<PeerAnswer>) {
    ip in s'.peers ==>
      if a.Some? then MadeFrom(cfg, s'.peers[ip], a.value) else ip in s.peers && SamePeer(s.peers[ip], s'.peers[ip])
  }

  lemma FlushCarries(cfg: Config, s: NodeState, dst: Ipv4, answer: Option<PeerAnswer>, now: nat, ip: Ipv4)
    requires ip != ServerVpn(cfg) && QueuesNamed(s)
    ensures Carried(cfg, s, EnsurePeerThenFlush(cfg, s, dst, answer, now).state, ip,
                    InstalledBy(cfg, s, Timed(FlushEvent(dst, answer), now), ip))
  {
    EnsurePeerInstalls(cfg, s, dst, answer, now, ip);
    EnsurePeerKeepsQueues(cfg, s, dst, answer, now);
    var (s1, p) := EnsurePeer(cfg, s, dst, answer, now);
    if p.Some? {
      HandleAllTouches(cfg, s1.(pending := s1.pending - {dst}), Queue(s1, dst), dst, now);
    }
  }

  lemma SendCarries(cfg: Config, s: NodeState, raw: Bytes, answer: Option<PeerAnswer>, nonce: Bytes, now: nat, ip: Ipv4)
    requires ip != ServerVpn(cfg)
    ensures Carried(cfg, s, ReadTun(cfg, s, raw, answer, nonce, now).state, ip,
                    InstalledBy(cfg, s, Timed(TunEvent(raw, answer, nonce), now), ip))
  {
    if TunTarget(cfg, raw).Some? {
      EnsurePeerInstalls(cfg, s, TunTarget(cfg, raw).value, answer, now, ip);
    }
  }

  lemma StepCarries(cfg: Config, s: NodeState, e: Timed, ip: Ipv4)
    requires ip != ServerVpn(cfg) && QueuesNamed(s)
    ensures Carried(cfg, s, NodeStep(cfg, s, e).state, ip, InstalledBy(cfg, s, e, ip))
  {
    match e.event
    case TunEvent(raw, answer, nonce) => SendCarries(cfg, s, raw, answer, nonce, e.at, ip);
    case DataEvent(env, from) =>
    case FlushEvent(dst, answer) => FlushCarries(cfg, s, dst, answer, e.at, ip);
    case RefreshEvent(dst, answer) => EnsurePeerInstalls(cfg, s, dst, answer, e.at, ip);
    case PolicyEvent(env) =>
  }

  /** Every cache entry but the server's has the keys and permissions of the last answer for its address. */
  lemma {:induction false} EntriesAreLastAnswers(cfg: Config, run: seq<Timed>, ip: Ipv4)
    requires ip != ServerVpn(cfg) && ip in After(cfg, run).peers
    ensures LastAnswer(cfg, run, ip).Some? && MadeFrom(cfg, After(cfg, run).peers[ip], LastAnswer(cfg, run, ip).value)
  {
    var front, e := run[..|run| - 1], run[|run| - 1];
    var s := After(cfg, front);
    ReachableQueuesNamed(cfg, front);
    StepCarries(cfg, s, e, ip);
    if InstalledBy(cfg, s, e, ip).None? {
      EntriesAreLastAnswers(cfg, front, ip);
    }
  }

  /** The server's entry is made from the keys received on joining, and may call both ways. */
  function ServerAnswer(cfg: Config): PeerAnswer {
    PeerAnswer(true, false, true, true, None, cfg.serverSignPub, cfg.serverExchPub)
  }

  ghost predicate ServerEntryIntact(cfg: Config, s: NodeState) {
    ServerVpn(cfg) in s.peers ==> MadeFrom(cfg, s.peers[ServerVpn(cfg)], ServerAnswer(cfg))
  }

  lemma EnsurePeerKeepsServer(cfg: Config, s: NodeState, dst: Ipv4, answer: Option<PeerAnswer>, now: nat)
    requires ServerEntryIntact(cfg, s)
    ensures ServerEntryIntact(cfg, EnsurePeer(cfg, s, dst, answer, now).0)
  {
  }

  lemma StepKeepsServer(cfg: Config, s: NodeState, e: Timed)
    requires QueuesNamed(s) && ServerEntryIntact(cfg, s)
    ensures ServerEntryIntact(cfg, NodeStep(cfg, s, e).state)
  {
    match e.event
    case TunEvent(raw, answer, nonce) =>
      if TunTarget(cfg, raw).Some? {
        EnsurePeerKeepsServer(cfg, s, TunTarget(cfg, raw).value, answer, e.at);
      }
    case DataEvent(env, from) =>
    case FlushEvent(dst, answer) =>
      EnsurePeerKeepsServer(cfg, s, dst, answer, e.at);
      EnsurePeerKeepsQueues(cfg, s, dst, answer, e.at);
      var (s1, p) := EnsurePeer(cfg, s, dst, answer, e.at);
      if p.Some? {
        HandleAllTouches(cfg, s1.(pending := s1.pending - {dst}), Queue(s1, dst), dst, e.at);
      }
    case RefreshEvent(dst, answer) => EnsurePeerKeepsServer(cfg, s, dst, answer, e.at);
    case PolicyEvent(env) =>
  }

  lemma {:induction false} ReachableServerEntryIntact(cfg: Config, run: seq<Timed>)
    ensures ServerEntryIntact(cfg, After(cfg, run))
  {
    if run == [] {
    } else {
      ReachableServerEntryIntact(cfg, run[..|run| - 1]);
      ReachableQueuesNamed(cfg, run[..|run| - 1]);
      StepKeepsServer(cfg, After(cfg, run[..|run| - 1]), run[|run| - 1]);
    }
  }

  /** What the cache entry of `ip` rests on: the last answer for it, or the keys received on joining. */
  function AnswerInForce(cfg: Config, run: seq<Timed>, ip: Ipv4): Option<PeerAnswer> {
    if ip == ServerVpn(cfg) then Some(ServerAnswer(cfg)) else LastAnswer(cfg, run, ip)
  }

  /** Every cache entry has the keys and permissions of the answer in force for its address. */
  lemma EntriesAreAnswersInForce(cfg: Config, run: seq<Timed>, ip: Ipv4)
    requires ip in After(cfg, run).peers
    ensures AnswerInForce(cfg, run, ip).Some? &&
            MadeFrom(cfg, After(cfg, run).peers[ip], AnswerInForce(cfg, run, ip).value)
  {
    if ip == ServerVpn(cfg) {
      ReachableServerEntryIntact(cfg, run);
    } else {
      EntriesAreLastAnswers(cfg, run, ip);
    }
  }

  /** A policy notice signed by the server. */
  predicate IsNotice(cfg: Config, e: Event) {
    e.PolicyEvent? && ParseSigned(e.env.body).Ok? && SignedBy(cfg.crypto, cfg.serverSignPub, e.env.body)
  }

  lemma NoticeDropsEntry(cfg: Config, s: NodeState, e: Timed, ip: Ipv4)
    requires IsNotice(cfg, e.event) && ip != ServerVpn(cfg)
    ensures ip !in NodeStep(cfg, s, e).state.peers
  {
    VerifiedIff(cfg.crypto, cfg.serverSignPub, e.event.env.body);
  }

  function InstalledAt(cfg: Config, run: seq<Timed>, k: nat, ip: Ipv4): Option<PeerAnswer>
    requires k < |run|
  {
    InstalledBy(cfg, Before(cfg, run, k), run[k], ip)
  }

  lemma InstalledAtFront(cfg: Config, run: seq<Timed>, k: nat, ip: Ipv4)
    requires k + 1 < |run|
    ensures InstalledAt(cfg, run[..|run| - 1], k, ip) == InstalledAt(cfg, run, k, ip)
  {
    assert run[..|run| - 1][..k] == run[..k];
  }

  lemma LastAnswerStep(cfg: Config, run: seq<Timed>, ip: Ipv4)
    requires run != []
    ensures var last := InstalledAt(cfg, run, |run| - 1, ip);
            LastAnswer(cfg, run, ip) == if last.Some? then last else LastAnswer(cfg, run[..|run| - 1], ip)
  {
  }

  /** A run without an installation since event `j`, a notice, has no entry left. */
  lemma {:induction false} NoticeLeavesNoEntry(cfg: Config, run: seq<Timed>, ip: Ipv4, j: nat)
    requires ip != ServerVpn(cfg) && j < |run| && IsNotice(cfg, run[j].event)
    requires forall k :: j < k < |run| ==> InstalledAt(cfg, run, k, ip).None?
    ensures ip !in After(cfg, run).peers
  {
    var front, e := run[..|run| - 1], run[|run| - 1];
    if j == |run| - 1 {
      NoticeDropsEntry(cfg, After(cfg, front), e, ip);
    } else {
      assert InstalledAt(cfg, run, |run| - 1, ip).None?;
      forall k | j < k < |front|
        ensures InstalledAt(cfg, front, k, ip).None?
      {
        InstalledAtFront(cfg, run, k, ip);
        assert InstalledAt(cfg, run, k, ip).None?;
      }
      NoticeLeavesNoEntry(cfg, front, ip, j);
      ReachableQueuesNamed(cfg, front);
      StepCarries(cfg, After(cfg, front), e, ip);
    }
  }

  lemma InstallationsOfFront(cfg: Config, run: seq<Timed>, ip: Ipv4)
    requires run != []
    ensures forall j :: 0 <= j < |run| - 1 ==>
              InstalledAt(cfg, run[..|run| - 1], j, ip) == InstalledAt(cfg, run, j, ip)
  {
    forall j | 0 <= j < |run| - 1
      ensures InstalledAt(cfg, run[..|run| - 1], j, ip) == InstalledAt(cfg, run, j, ip)
    {
      InstalledAtFront(cfg, run, j, ip);
    }
  }

  /** The last answer was installed at some event, and none later. */
  lemma {:induction false} LastAnswerInstalled(cfg: Config, run: seq<Timed>, ip: Ipv4) returns (k: nat)
    requires LastAnswer(cfg, run, ip).Some?
    ensures k < |run| && InstalledAt(cfg, run, k, ip) == LastAnswer(cfg, run, ip)
    ensures forall j :: k < j < |run| ==> InstalledAt(cfg, run, j, ip).None?
  {
    var front := run[..|run| - 1];
    LastAnswerStep(cfg, run, ip);
    if InstalledAt(cfg, run, |run| - 1, ip).Some? {
      k := |run| - 1;
    } else {
      k := LastAnswerInstalled(cfg, front, ip);
      InstallationsOfFront(cfg, run, ip);
    }
  }

  /** No cache entry but the server's outlives a policy notice: its answer was installed after the last one. */
  lemma NoticesDropAnswers(cfg: Config, run: seq<Timed>, ip: Ipv4) returns (k: nat)
    requires ip != ServerVpn(cfg) && ip in After(cfg, run).peers
    ensures k < |run| && InstalledAt(cfg, run, k, ip).Some? && InstalledAt(cfg, run, k, ip) == LastAnswer(cfg, run, ip)
    ensures forall j :: k < j < |run| ==> !IsNotice(cfg, run[j].event)
  {
    EntriesAreLastAnswers(cfg, run, ip);
    k := LastAnswerInstalled(cfg, run, ip);
    forall j | k < j < |run|
      ensures !IsNotice(cfg, run[j].event)
    {
      if IsNotice(cfg, run[j].event) {
        NoticeLeavesNoEntry(cfg, run, ip, j);
      }
    }
  }

  /** The status carried by the last policy notice that had one. */
  function LastStatus(cfg: Config, run: seq<Timed>): bool {
    if run == [] then false
    else
      var e := run[|run| - 1].event;
      if IsNotice(cfg, e) && cfg.isBlocked(ParseSigned(e.env.body).value.0.payload).Some?
      then cfg.isBlocked(ParseSigned(e.env.body).value.0.payload).value
      else LastStatus(cfg, run[..|run| - 1])
  }

  lemma StepStatus(cfg: Config, s: NodeState, e: Timed)
    requires QueuesNamed(s) && !e.event.PolicyEvent?
    ensures NodeStep(cfg, s, e).state.blocked == s.blocked
  {
    match e.event
    case TunEvent(raw, answer, nonce) =>
      if TunTarget(cfg, raw).Some? {
        EnsurePeerKeepsQueues(cfg, s, TunTarget(cfg, raw).value, answer, e.at);
      }
    case DataEvent(env, from) =>
    case FlushEvent(ip, answer) =>
      EnsurePeerKeepsQueues(cfg, s, ip, answer, e.at);
      var (s1, p) := EnsurePeer(cfg, s, ip, answer, e.at);
      if p.Some? {
        HandleAllTouches(cfg, s1.(pending := s1.pending - {ip}), Queue(s1, ip), ip, e.at);
      }
    case RefreshEvent(ip, answer) => EnsurePeerKeepsQueues(cfg, s, ip, answer, e.at);
  }

  lemma {:induction false} BlockedIsLastStatus(cfg: Config, run: seq<Timed>)
    ensures After(cfg, run).blocked == LastStatus(cfg, run)
  {
    if run == [] {
    } else {
      var front, e := run[..|run| - 1], run[|run| - 1];
      BlockedIsLastStatus(cfg, front);
      ReachableQueuesNamed(cfg, front);
      if !e.event.PolicyEvent? {
        StepStatus(cfg, After(cfg, front), e);
      } else if ParseSigned(e.event.env.body).Ok? {
        VerifiedIff(cfg.crypto, cfg.serverSignPub, e.event.env.body);
      }
    }
  }

  lemma {:induction false} BlockedQueueIsSilent(cfg: Config, s: NodeState, q: seq<Cached>, now: nat)
    requires s.blocked
    ensures HandleAll(cfg, s, q, now) == Step(s, [])
  {
    if q == [] {
    } else {
      BlockedQueueIsSilent(cfg, s, q[..|q| - 1], now);
    }
  }

  /** A node told that it is blocked neither sends nor delivers anything until it is told otherwise. */
  lemma BlockedNodeIsSilent(cfg: Config, run: seq<Timed>, i: nat)
    requires i < |run| && LastStatus(cfg, run[..i])
    ensures OutputsAt(cfg, run, i) == []
  {
    BlockedIsLastStatus(cfg, run[..i]);
    var s, e := Before(cfg, run, i), run[i];
    if e.event.FlushEvent? {
      var s1 := EnsurePeer(cfg, s, e.event.ip, e.event.answer, e.at).0;
      EnsurePeerKeepsQueues(cfg, s, e.event.ip, e.event.answer, e.at);
      BlockedQueueIsSilent(cfg, s1.(pending := s1.pending - {e.event.ip}), Queue(s1, e.event.ip), e.at);
    }
  }

  /** A packet sent for a peer is sealed under an entry that matches the last answer, this event's query included. */
  lemma SentUnderLastAnswer(cfg: Config, run: seq<Timed>, i: nat, dst: Ipv4) returns (p: Peer, body: Bytes)
    requires i < |run| && run[i].event.TunEvent? && TunTarget(cfg, run[i].event.raw) == Some(dst)
    requires dst != ServerVpn(cfg) && OutputsAt(cfg, run, i) != []
    ensures LastAnswer(cfg, run[..i + 1], dst).Some? && MadeFrom(cfg, p, LastAnswer(cfg, run[..i + 1], dst).value)
    ensures MaySend(p, run[i].event.raw) && OutputsAt(cfg, run, i) == Transmit(cfg, p, body, run[i].at)
    ensures SealedBody(cfg, p, dst, run[i].event.raw, run[i].event.nonce) == Some(body)
  {
    var e, s := run[i], Before(cfg, run, i);
    var (s1, found) := EnsurePeer(cfg, s, dst, e.event.answer, e.at);
    EnsurePeerInstalls(cfg, s, dst, e.event.answer, e.at, dst);
    p := found.value;
    body := SealedBody(cfg, p, dst, e.event.raw, e.event.nonce).value;
    assert run[..i + 1][..i] == run[..i];
    if InstalledBy(cfg, s, e, dst).None? {
      EntriesAreLastAnswers(cfg, run[..i], dst);
    }
  }

  lemma EnsurePeerAge(cfg: Config, s: NodeState, dst: Ipv4, answer: Option<PeerAnswer>, now: nat, ip: Ipv4)
    requires ip != ServerVpn(cfg)
    ensures var s' := EnsurePeer(cfg, s, dst, answer, now).0;
            var installed := dst == ip && Installed(cfg, s, ip, answer, now).Some?;
            ip in s'.peers ==>
              if installed then s'.peers[ip].lastSeen == now else ip in s.peers && s.peers[ip] == s'.peers[ip]
  {
  }

  /** After a queue was handled an entry without a set path is the one before. */
  lemma {:induction false} QueueSetsPath(cfg: Config, s: NodeState, q: seq<Cached>, ip: Ipv4, now: nat)
    requires ip in s.peers && forall c :: c in q ==> Names(c.env) == Some(ip)
    ensures var s' := HandleAll(cfg, s, q, now).state;
            ip in s'.peers && (!s'.peers[ip].directOK ==> s'.peers[ip] == s.peers[ip])
  {
    if q == [] {
    } else {
      var front, last := q[..|q| - 1], q[|q| - 1];
      assert last in q && forall c :: c in front ==> c in q;
      QueueSetsPath(cfg, s, front, ip, now);
      HandleOneTouches(cfg, HandleAll(cfg, s, front, now).state, last, ip, now);
    }
  }

  lemma StepUnset(cfg: Config, s: NodeState, e: Timed, ip: Ipv4)
    requires ip != ServerVpn(cfg) && QueuesNamed(s)
    requires var s' := NodeStep(cfg, s, e).state; ip in s'.peers && !s'.peers[ip].directOK
    ensures var p := NodeStep(cfg, s, e).state.peers[ip];
            if InstalledBy(cfg, s, e, ip).Some? then p.lastSeen == e.at else ip in s.peers && s.peers[ip] == p
  {
    match e.event
    case TunEvent(raw, answer, nonce) =>
      if TunTarget(cfg, raw).Some? {
        EnsurePeerAge(cfg, s, TunTarget(cfg, raw).value, answer, e.at, ip);
      }
    case DataEvent(env, from) =>
    case FlushEvent(dst, answer) =>
      EnsurePeerAge(cfg, s, dst, answer, e.at, ip);
      EnsurePeerKeepsQueues(cfg, s, dst, answer, e.at);
      var (s1, p) := EnsurePeer(cfg, s, dst, answer, e.at);
      if p.Some? {
        var start := s1.(pending := s1.pending - {dst});
        HandleAllTouches(cfg, start, Queue(s1, dst), dst, e.at);
        QueueSetsPath(cfg, start, Queue(s1, dst), dst, e.at);
      }
    case RefreshEvent(dst, answer) => EnsurePeerAge(cfg, s, dst, answer, e.at, ip);
    case PolicyEvent(env) =>
  }

  /** An entry whose path has not been set is as old as its installation. */
  lemma {:induction false} UnsetEntryAge(cfg: Config, run: seq<Timed>, ip: Ipv4) returns (j: nat)
    requires ip != ServerVpn(cfg) && ip in After(cfg, run).peers && !After(cfg, run).peers[ip].directOK
    ensures j < |run| && run[j].at == After(cfg, run).peers[ip].lastSeen && InstalledAt(cfg, run, j, ip).Some?
  {
    var front, e := run[..|run| - 1], run[|run| - 1];
    ReachableQueuesNamed(cfg, front);
    StepUnset(cfg, After(cfg, front), e, ip);
    if InstalledBy(cfg, After(cfg, front), e, ip).Some? {
      j := |run| - 1;
    } else {
      j := UnsetEntryAge(cfg, front, ip);
      InstalledAtFront(cfg, run, j, ip);
    }
  }

  /** The age of an entry is that of its last installation or of the last datagram that set its path. */
  lemma EntryAge(cfg: Config, run: seq<Timed>, ip: Ipv4) returns (j: nat)
    requires ip != ServerVpn(cfg) && ip in After(cfg, run).peers
    ensures j < |run| && run[j].at == After(cfg, run).peers[ip].lastSeen
    ensures InstalledAt(cfg, run, j, ip).Some? || SetBy(cfg, Before(cfg, run, j), run[j], ip, After(cfg, run).peers[ip])
  {
    if After(cfg, run).peers[ip].directOK {
      j := DirectPathSource(cfg, run, ip);
    } else {
      j := UnsetEntryAge(cfg, run, ip);
    }
  }

  lemma SentNeedsEntry(cfg: Config, s: NodeState, e: Timed, dst: Ipv4)
    requires e.event.TunEvent? && TunTarget(cfg, e.event.raw) == Some(dst) && dst != ServerVpn(cfg)
    requires NodeStep(cfg, s, e).outs != []
    ensures InstalledBy(cfg, s, e, dst).Some? || (dst in s.peers && Fresh(s.peers[dst], e.at))
  {
  }

  /**
   What is sent for a peer is sent under an entry less than one second old: its answer was installed, or a datagram
   naming the peer from off the server was handled, within the last second.
   */
  lemma SentUnderRecentEntry(cfg: Config, run: seq<Timed>, i: nat, dst: Ipv4) returns (j: nat)
    requires i < |run| && run[i].event.TunEvent? && TunTarget(cfg, run[i].event.raw) == Some(dst)
    requires dst != ServerVpn(cfg) && OutputsAt(cfg, run, i) != []
    ensures j <= i && run[i].at - run[j].at < 1_000_000_000
    ensures InstalledAt(cfg, run, j, dst).Some? ||
            exists from :: from != cfg.serverAddr && Handled(Before(cfg, run, j), run[j].event, dst, from)
  {
    var s, e := Before(cfg, run, i), run[i];
    SentNeedsEntry(cfg, s, e, dst);
    if InstalledBy(cfg, s, e, dst).Some? {
      j := i;
    } else {
      j := EntryAge(cfg, run[..i], dst);
      assert run[..i][..j] == run[..j];
    }
  }

  lemma SenderStays(cfg: Config, s: NodeState, e: Timed, dst: Ipv4)
    requires e.event.TunEvent? && TunTarget(cfg, e.event.raw) == Some(dst) && NodeStep(cfg, s, e).outs != []
    ensures dst in NodeStep(cfg, s, e).state.peers
  {
  }

  /** What is sent for a peer is sent under an answer given since the last policy notice. */
  lemma SentSinceLastNotice(cfg: Config, run: seq<Timed>, i: nat, dst: Ipv4) returns (k: nat)
    requires i < |run| && run[i].event.TunEvent? && TunTarget(cfg, run[i].event.raw) == Some(dst)
    requires dst != ServerVpn(cfg) && OutputsAt(cfg, run, i) != []
    ensures k <= i && InstalledAt(cfg, run, k, dst).Some?
    ensures InstalledAt(cfg, run, k, dst) == LastAnswer(cfg, run[..i + 1], dst)
    ensures forall j :: k < j <= i ==> !IsNotice(cfg, run[j].event)
  {
    var prefix := run[..i + 1];
    assert prefix[..i] == run[..i];
    SenderStays(cfg, Before(cfg, run, i), run[i], dst);
    k := NoticesDropAnswers(cfg, prefix, dst);
    assert prefix[..k] == run[..k];
    assert forall j :: 0 <= j <= i ==> prefix[j] == run[j];
  }

  /** The answer that event `e` brought about `ip`. */
  function AnswerAbout(cfg: Config, e: Event, ip: Ipv4): Option<PeerAnswer> {
    match e
    case TunEvent(raw, answer, _) => if TunTarget(cfg, raw) == Some(ip) then answer else None
    case FlushEvent(dst, answer) => if dst == ip then answer else None
    case RefreshEvent(dst, answer) => if dst == ip then answer else None
    case _ => None
  }

  /** A peer that no answer has found is sent nothing. */
  lemma UnfoundPeerGetsNothing(cfg: Config, run: seq<Timed>, i: nat, dst: Ipv4)
    requires i < |run| && run[i].event.TunEvent? && TunTarget(cfg, run[i].event.raw) == Some(dst)
    requires dst != ServerVpn(cfg)
    requires forall k :: 0 <= k <= i && AnswerAbout(cfg, run[k].event, dst).Some? ==>
               !AnswerAbout(cfg, run[k].event, dst).value.found
    ensures OutputsAt(cfg, run, i) == []
  {
    var prefix := run[..i + 1];
    forall k | 0 <= k <= i
      ensures InstalledAt(cfg, prefix, k, dst).None?
    {
      assert prefix[k] == run[k];
      assert AnswerAbout(cfg, run[k].event, dst).Some? ==> !AnswerAbout(cfg, run[k].event, dst).value.found;
    }
    if OutputsAt(cfg, run, i) != [] {
      var p, body := SentUnderLastAnswer(cfg, run, i, dst);
      var k := LastAnswerInstalled(cfg, prefix, dst);
    }
  }

  /** A pair that is not open both ways, by the last answer, sends nothing but relay copies to the server. */
  lemma OneWayPairStaysOnRelay(cfg: Config, run: seq<Timed>, i: nat, dst: Ipv4)
    requires i < |run| && run[i].event.TunEvent? && TunTarget(cfg, run[i].event.raw) == Some(dst)
    requires dst != ServerVpn(cfg)
    requires var a := LastAnswer(cfg, run[..i + 1], dst); a.Some? ==> !(a.value.canCall && a.value.canCallBack)
    ensures forall o :: o in OutputsAt(cfg, run, i) ==> o.Udp? && o.to == cfg.serverAddr && o.env.typ == TYPE_RELAY_DATA
  {
    if OutputsAt(cfg, run, i) != [] {
      var p, body := SentUnderLastAnswer(cfg, run, i, dst);
    }
  }

  // What reaches the TUN device.

  /** `plain` is the content of `env` under the keys and permissions of answer `a`. */
  ghost predicate Authentic(cfg: Config, a: PeerAnswer, env: Envelope, plain: Bytes) {
    ParseSigned(env.body).Ok? &&
    var (m, sig) := ParseSigned(env.body).value;
    && SignedBy(cfg.crypto, a.signPub, env.body)
    && m.dstIP == Some(cfg.vpnIP) && m.srcIP != Some(cfg.vpnIP)
    && cfg.crypto.sharedKey(cfg.exchKey, a.exchPub).Some?
    && cfg.crypto.open(cfg.crypto.sharedKey(cfg.exchKey, a.exchPub).value, m.payload) == Some(plain)
    && (a.canCallBack || IsReplyPacket(plain))
  }

  lemma DataDeliversAuthentic(cfg: Config, s: NodeState, env: Envelope, from: Endpoint, now: nat,
                              ip: Ipv4, a: PeerAnswer, plain: Bytes)
    requires Names(env) == Some(ip) && ip in s.peers && MadeFrom(cfg, s.peers[ip], a)
    requires Tun(plain) in HandleData(cfg, s, env, from, now).outs
    ensures Authentic(cfg, a, env, plain)
  {
    VerifiedIff(cfg.crypto, a.signPub, env.body);
  }

  lemma {:induction false} QueueDeliversAuthentic(cfg: Config, s: NodeState, q: seq<Cached>, now: nat,
                                                  ip: Ipv4, a: PeerAnswer, plain: Bytes)
    returns (env: Envelope)
    requires ip in s.peers && MadeFrom(cfg, s.peers[ip], a) && forall c :: c in q ==> Names(c.env) == Some(ip)
    requires Tun(plain) in HandleAll(cfg, s, q, now).outs
    ensures Authentic(cfg, a, env, plain) && exists c :: c in q && c.env == env
  {
    var front, last := q[..|q| - 1], q[|q| - 1];
    assert last in q && forall c :: c in front ==> c in q;
    if Tun(plain) in HandleAll(cfg, s, front, now).outs {
      env := QueueDeliversAuthentic(cfg, s, front, now, ip, a, plain);
    } else {
      HandleAllTouches(cfg, s, front, ip, now);
      env := last.env;
      DataDeliversAuthentic(cfg, HandleAll(cfg, s, front, now).state, env, last.from, now, ip, a, plain);
    }
  }

  /** The entry under which a flushed queue is handled is made from the answer in force, this event's included. */
  lemma FlushEntryInForce(cfg: Config, run: seq<Timed>, i: nat)
    requires i < |run| && run[i].event.FlushEvent?
    ensures var e, s := run[i], Before(cfg, run, i);
            var ip, (s1, p) := e.event.ip, EnsurePeer(cfg, s, e.event.ip, e.event.answer, e.at);
            p.Some? ==>
              ip in s1.peers && AnswerInForce(cfg, run[..i + 1], ip).Some? &&
              MadeFrom(cfg, s1.peers[ip], AnswerInForce(cfg, run[..i + 1], ip).value)
  {
    var e, s, ip := run[i], Before(cfg, run, i), run[i].event.ip;
    assert run[..i + 1][..i] == run[..i];
    if ip == ServerVpn(cfg) {
      ReachableServerEntryIntact(cfg, run[..i]);
      EnsurePeerKeepsServer(cfg, s, ip, e.event.answer, e.at);
    } else {
      EnsurePeerInstalls(cfg, s, ip, e.event.answer, e.at, ip);
      if InstalledBy(cfg, s, e, ip).None? && ip in s.peers {
        EntriesAreLastAnswers(cfg, run[..i], ip);
      }
    }
  }

  lemma FlushDeliversAuthentic(cfg: Config, run: seq<Timed>, i: nat, plain: Bytes) returns (env: Envelope)
    requires i < |run| && run[i].event.FlushEvent? && Tun(plain) in OutputsAt(cfg, run, i)
    ensures Names(env) == Some(run[i].event.ip)
    ensures exists c :: c in Queue(Before(cfg, run, i), run[i].event.ip) && c.env == env
    ensures AnswerInForce(cfg, run[..i + 1], run[i].event.ip).Some? &&
            Authentic(cfg, AnswerInForce(cfg, run[..i + 1], run[i].event.ip).value, env, plain)
  {
    var e, s, ip := run[i], Before(cfg, run, i), run[i].event.ip;
    ReachableQueuesNamed(cfg, run[..i]);
    EnsurePeerKeepsQueues(cfg, s, ip, e.event.answer, e.at);
    FlushEntryInForce(cfg, run, i);
    var s1 := EnsurePeer(cfg, s, ip, e.event.answer, e.at).0;
    var start := s1.(pending := s1.pending - {ip});
    env := QueueDeliversAuthentic(cfg, start, Queue(s1, ip), e.at, ip, AnswerInForce(cfg, run[..i + 1], ip).value,
                                  plain);
  }

  /**
   Every packet written to the TUN device arrived in a datagram that verifies under the signing key in force for its
   source, is addressed to this node, opens under the shared key, and is a reply unless that source may call.
   */
  lemma DeliveredPacketsAreAuthentic(cfg: Config, run: seq<Timed>, i: nat, plain: Bytes)
    returns (ip: Ipv4, env: Envelope)
    requires i < |run| && Tun(plain) in OutputsAt(cfg, run, i)
    ensures Names(env) == Some(ip) && exists j :: 0 <= j <= i && run[j].event.DataEvent? && run[j].event.env == env
    ensures AnswerInForce(cfg, run[..i + 1], ip).Some?
    ensures Authentic(cfg, AnswerInForce(cfg, run[..i + 1], ip).value, env, plain)
  {
    var e, s := run[i], Before(cfg, run, i);
    assert run[..i + 1][..i] == run[..i];
    match e.event
    case DataEvent(received, from) =>
      env, ip := received, Names(received).value;
      EntriesAreAnswersInForce(cfg, run[..i], ip);
      DataDeliversAuthentic(cfg, s, env, from, e.at, ip, AnswerInForce(cfg, run[..i], ip).value, plain);
    case FlushEvent(dst, answer) =>
      ip := dst;
      env := FlushDeliversAuthentic(cfg, run, i, plain);
      var c :| c in Queue(s, ip) && c.env == env;
      var j := QueuedPacketArrived(cfg, run[..i], ip, c);
      assert run[j].event.env == env;
  }
}
