# Verified model of nz

nz is an overlay network. One server keeps a registry of users, machines, addresses and grants, admits machines by
challenge and proof, and relays signed packets under a direction-sensitive policy. Nodes keep a short-lived cache of
peers and choose between the direct path and the relay.

The project has three layers.

- Specification functions over values: `Registry` (tables), `ServerModel` and `NodeModel` (one event is one step), the
  codecs in `Envelopes`, `Signed`, `PeerAnswers` and `Transcripts`, and the tests in `Packets` and `Policy`.
  `PacketFormats` builds packets from the header layouts of RFC 791, RFC 792 and RFC 9293 as a reference for the tests.
- Imperative code in the source's form: `RowSlices.Rows` (a Go slice over its backing array), `States.State`,
  `Servers.Server` and `Nodes.Node` with `PeerEntry` objects. Every method is proved to leave the state, and to return
  or send what the specification function says, loops and in-place updates included.
- Theorems about the specification functions, over all inputs and all runs.

The main results:

- `RelaySafety.RelayedIff` says exactly when a relay packet leaves the server in any run, from users, grants, the bytes
  received and a log that forgets nothing; `RelaySafety.FlowsRefineLog` shows that the overwritten, lazily expired flow
  table answers like the log.
- `RegistryRuns.ReachableTablesAreSound`, `ReachableLabelsAreUnique` and `ApprovalIsPermanent` are the registry
  invariants over every run of joins, signed messages and admin commands, whatever writes of the state file fail;
  `StepLosesIff` names the one kind of step that loses an approved row.
- `ServerAddress.ServerAddressIsNeverGiven`: no run gives the server's address to a machine that did not hold it.
- `Silence.DeniedUserStaysSilent`, `MachineSilence.DeniedMachineStaysSilent` and
  `EndToEnd.BlockingNoticeSilencesNode`: a denied user or machine is cut off at the relay until an accepted order allows
  it again, and at its own node until the next notice.
- `Endpoints.EndpointIsLastHeard` and `EndpointIsLastJoin`: the endpoints kept are those of the history.
- `NodeServer.DataReachesServer` and `ServerData.TunWriteIff`: data for the server, from the sender's run to the TUN device.
- `JoinEffects.OutsideMachineIsMovedAndTold`, `JoinResult` and `Commands.DenyWithTargetClosesIff`: what joins and orders
  achieve, on the rows, the grants and the directions they open or close.
- `Allocation.AutomaticAllocationExact` and `AllocationSucceedsBelowCapacity`: sound, lowest first, complete.
- `Challenges.ChallengeAuthorisesOnce` and `ProofAcceptedTwiceCollides`: at most one registration for each challenge.
- `NodeSafety.RelayCopyOmittedOnlyIfDirect` and `NodeAnswers.OneWayPairStaysOnRelay`: the choice of path.
- `EndToEndRuns.RelayEndToEndOverRuns`: both ends apply one test, and a delivered packet is the sender's packet.

Check it with `dafny verify dfyconfig.toml`.

## Reading the model

- One handler or one admin command is one atomic step. The admin name and subnet are constant during a run, and the
  clock never runs backwards. A run starts from any saved table that satisfies the invariants, after the admin user
  has been ensured; the empty table is one (`TableInvariants.EmptyIsSound`).
- Addresses are IPv4 numbers; the text form used by the source is canonical, so comparing texts is comparing numbers.
  Names are byte strings. `user/machine` keys are really concatenated, so claims that need them to be unambiguous
  assume that user names have no slash.
- Saving is an oracle: `disk(n)` decides whether the n-th write succeeds, after the change in memory was made.
- Cryptographic primitives are parameters. The laws used (`Primitives.Crypto.Lawful`) are that a made signature
  verifies, that opening undoes sealing and that the session key of a pair is the same on both sides;
  `Primitives.LawfulPrimitivesExist` shows that they are consistent. Unforgeability is not assumed: relay safety says
  that the bytes received verify under the key of their source. Nor is the MAC assumed to be free of collisions: the
  results on refused proofs are reductions, which name the two inputs that would have to collide.
- The JSON bodies inside signed messages go through codecs that are parameters. `EndToEnd.ReadsNotices` says what the
  two ends have to agree on for policy notices.
- A peer query and its reply are one step of the node. The reply is a parameter of the event;
  `EndToEnd.AnswerTravels` links it to what the server sends.
- The goroutines that handleData starts are events of their own, so flushes and refreshes may come at any time.

## Where the code and its documentation differ

- README.md says a pinned `ip` applies at first allocation only and that reconnects always reuse the address. The code
  moves a machine that reconnects with another usable pin: `AddressStability.ReconnectCanMove` is an instance and
  `SettledRowKeepsAddressIff` says exactly when.
- The comment on ensureInSubnet speaks of a move to the new subnet when an address fell out of it. An address that did
  not, but is the server's under the new subnet, stays with its machine: `ServerAddress.RejoinKeepsServerAddress`.
  `ServerAddressStaysFreeIff` says exactly when the server's address is free in every run.
- The comment on State.Deny speaks of a pending row, but every row with the name goes. When a key is presented for a
  second user (`Renames.JoinRewritesForeignRowIff`), names can repeat and an active row can go too:
  `TableHistory.DenyCanRemoveAnActiveRow`; `RegistryRuns.StepLosesIff` says exactly when.
- A datagram from a peer that is queued while its sender is unknown sets the direct path when it is flushed, so the
  freshness of the direct path counts from handling, not from arrival: `NodeSafety.QueuedDatagramCanBeOld`
  and, for the claim that does hold, `OmittedCopyArrivedRecently`.
- The comment on AdminCommand says that an empty `to` means the server. The code stores the empty target as it is
  (`AdminEffects.EmptyTargetIsNotTheServer`, `GrantOpensServerIff`); only the daemon in front of it fills in a name.
- README.md says under Security that grants use keys, so that renaming a machine changes nothing. Grants go by name:
  `Renames.RenameCanCloseDirection` is a rename that loses one, `RenamingJoinKeepsDirectionIff` says exactly when a
  direction stays.
- README.md says that everything but a TCP SYN or an ICMP request is an answer. The code takes every protocol but ICMP
  and TCP for a call start: `PacketFormats.OtherProtocolsAreNewCalls`.
- The reply test reads fixed offsets, so with IP options in the header an echo request usually counts as a reply, and a
  SYN can: `PacketFormats.SynBehindOptionsIsReply`; `EchoRequestIsNewCallIff` and `TcpNewCallIff` say exactly when.
- A node takes the first address of its own /24 for the server, the server uses the address after the one written in
  the subnet: `EndToEnd.NodeFindsServerIff`. Otherwise the node cannot reach the server (`TrueServerOutOfReach`) and takes
  a machine at that first address for it (`MachineTakenForServer`).

## Model

| member | source | states |
|---|---|---|
| Envelopes.DecodeOfEncode | internal/protocol/protocol.go:43-67 | An envelope decodes from its encoding exactly when its body is shorter than 2^32 bytes; a longer one is accepted with the body cut to the wrapped length |
| Envelopes.EncodeOfDecode | internal/protocol/protocol.go:53-67 | An accepted datagram is the encoding of its envelope exactly when the truncating length comparison did not wrap |
| Envelopes.EnvelopeBijection | internal/protocol/protocol.go:43-67 | Below 2^32 body bytes a datagram is accepted iff it encodes some envelope, and that envelope is unique |
| Envelopes.Marshal | internal/protocol/protocol.go:43-50 | Filling the buffer by index and copy yields the specified bytes in a new buffer |
| Envelopes.Unmarshal | internal/protocol/protocol.go:53-67 | The checks and the copy yield the specified envelope or error |
| Layouts.EnvelopeLayout | internal/protocol/protocol.go:43-50 | Version 3, the type, the body length modulo 2^32 in the positional sense, and the body |
| Transcripts.Proof | internal/protocol/protocol.go:125-134 | The running MAC covers exactly the transcript |
| Transcripts.TranscriptInjective | internal/protocol/protocol.go:125-134 | Equal-length nonces and NUL-free names: equal transcripts iff equal nonce, user, machine and key |
| Transcripts.TranscriptAmbiguousIff | internal/protocol/protocol.go:125-134 | A different user, machine and key share the transcript exactly when one of the fields contains a NUL |
| Layouts.TranscriptLayout | internal/protocol/protocol.go:125-134 | The nonce, then user and machine each ended by a zero byte, then the public blob |
| Signed.MarshalSigned | internal/protocol/signed.go:35-54 | Successive appends yield the signed bytes followed by their signature |
| Signed.ParseOfMarshal | internal/protocol/signed.go:47-72 | With 64-byte signatures parsing undoes marshalling exactly when both addresses are IPv4 |
| Signed.MarshalOfParse | internal/protocol/signed.go:57-72 | Input is accepted iff it has 73 bytes or more, and then signBytes plus signature is the received input |
| Signed.PeerQueryRoundTrip | internal/protocol/signed.go:150-164 | A query payload parses to a target iff it is that target's payload |
| Layouts.SignedLayout | internal/protocol/signed.go:35-54 | Type, source and destination as four-byte numbers, payload, then the signature over all of these |
| Signatures.VerifiedIff | internal/protocol/signed.go:57-81 | The check on the parsed message holds iff the key has 32 bytes and the last 64 bytes of the datagram body are a signature under it over all bytes before them |
| PeerAnswers.MarshalPeerAnswer | internal/protocol/signed.go:181-197 | The appended fields are the specified encoding |
| PeerAnswers.ParsePeerAnswer | internal/protocol/signed.go:207-242 | The offset-driven parse yields the specified answer or error |
| PeerAnswers.ParseOfEncode | internal/protocol/signed.go:181-242 | An answer survives the wire exactly in the three shapes: not found, found without address, found with address and 32-byte keys |
| PeerAnswers.ReparseIsStable | internal/protocol/signed.go:207-242 | Whatever is accepted has one of the three shapes, and re-encoding then re-parsing gives the same answer |
| Layouts.AnswerLayout | internal/protocol/signed.go:181-204 | A zero byte for an unknown peer, else the three flags, address and port as numbers if there are any, and the two keys |
| Layouts.AnswerRead | internal/protocol/signed.go:207-242 | An answer is accepted iff it starts with zero, or has 68 bytes without and 74 with the address flag; flags, address, port and keys are read from the stated bytes |
| Packets.FlagIsBit | internal/node/packets.go:28-35 | The arithmetic flag test of the model is the bit test of the source |
| PacketFormats.TunTargetIsDestination | internal/node/data.go:77-88 | The TUN reader sends a packet to the destination field of its header, whatever its options |
| PacketFormats.EchoRequestIsNewCallIff | internal/node/packets.go:3-26 | An echo request is a new call exactly when its header has no options or the first option byte happens to be 8 |
| PacketFormats.EchoReplyIsReplyIff | internal/node/packets.go:21-26 | An echo reply is a reply iff its header has no options or the first option byte is not 8 |
| PacketFormats.TcpNewCallIff | internal/node/packets.go:28-35 | A TCP packet is a new call iff byte 13 of options and segment together shows SYN without ACK; without options that byte is the flags |
| PacketFormats.SynBehindOptionsIsReply | internal/node/packets.go:28-35 | A SYN behind four option bytes with sequence number 0 counts as a reply |
| PacketFormats.OtherProtocolsAreNewCalls | internal/node/packets.go:6-19 | Every protocol but ICMP and TCP is a new call |
| PacketFormats.UnreadablePacketsAreNewCalls | internal/node/packets.go:6-35 | What is too short, not IPv4, or ends before the byte that is looked at is a new call |
| Prefixes.ContainsIsInterval | internal/state/state.go:574-583 | Prefix containment is an interval of addresses |
| RowSlices.Rows.Compact | internal/state/state.go:302-330 | In-place compaction equals the order-preserving filter of the old rows, in the same backing array |
| RowSlices.Rows.Snapshot | internal/state/state.go:141-145 | A snapshot is an equal copy in a new array |
| States.State.Allow | internal/state/state.go:148-175 | A pending user, or a pending machine of an active user, becomes active and nothing else changes; every other case is refused with the table unchanged |
| States.State.Deny | internal/state/state.go:178-194 | The user and all its machines, or every row with the machine name, are gone; all other rows stay in order |
| States.State.Block | internal/state/state.go:197-219 | The user and all its machines, or one machine, are blocked whatever their status was |
| States.State.Unblock | internal/state/state.go:223-249 | A blocked user and its blocked machines, or one blocked machine, become active; pending rows stay pending |
| States.State.GetUser | internal/state/state.go:333-341 | The first row with the user name, or none |
| States.State.GetMachine | internal/state/state.go:344-352 | The first row with user and machine name, or none |
| States.State.FindMachineByIP | internal/state/state.go:367-376 | The first row bound to the address, or none |
| States.State.Grant | internal/state/state.go:392-402 | The pair is appended unless it is already there, in which case nothing is written |
| States.State.Revoke | internal/state/state.go:405-416 | Exactly the occurrences of the pair disappear |
| States.State.GrantsOf | internal/state/state.go:426-436 | The targets of a subject in list order |
| States.State.IsGranted | internal/state/state.go:439-451 | True iff some grant names the target and the user or user/machine |
| States.State.RegisterJoin | internal/state/state.go:465-515 | New user: pending user and machine rows; known key: rename and pin of that row; new key: pending row; refusals for a missing verifier, a blocked user or row and a used name |
| States.State.SetVerifier | internal/state/state.go:527-537 | The first row of the user takes the salt and verifier |
| States.State.SetMachineIP | internal/state/state.go:540-549 | The first row with the name is bound to the address |
| States.State.AllocateIP | internal/state/state.go:554-589 | The used map with its owners and the scan compute the allocation of Registry.Allocate, refusals included; the Allocation lemmas state its meaning |
| States.State.EnsureAdmin | internal/state/state.go:594-612 | The admin user is present and active; verifier and salt are taken only when it is created |
| States.State.SnapshotThenDeny | internal/state/state.go:141-145 | A snapshot taken before a Deny still shows every old row afterwards |
| Registry.ParseTargetOfMachine | internal/state/state.go:91-100 | ParseTarget undoes user/machine for slash-free users |
| Commands.ParseTargetIff | internal/state/state.go:91-100 | A target parses to a user and a machine iff it is user/machine, or the user alone, for a user that is not empty and has no slash |
| Policy.AllowRelayIff | internal/server/policy.go:11-22 | A direction is open iff the source is the admin's, both ends have one user, or the target is the admin's and a grant names it for the source's user or user/machine |
| Policy.AllowP2PIff | internal/server/policy.go:24-28 | Direct paths are for pairs open in both directions |
| Policy.StrangersMayNotCall | internal/server/policy.go:11-22 | Machines of two users, neither the admin, may not call each other whatever is granted |
| Allocation.AutomaticAllocationExact | internal/state/state.go:582-588 | Automatic allocation gives the lowest free in-prefix address above the server, and fails only when all are taken |
| Allocation.AllocationSound | internal/state/state.go:554-589 | Every allocated address is in the prefix, unused and not the server's; a pin fixes its last octet and keeps the other three |
| Allocation.PinnedAllocationIff | internal/state/state.go:568-581 | A pin is honoured exactly when the address it names in the /24 of the subnet address is usable and free |
| Allocation.PinRefusal | internal/state/state.go:559-581 | A refused pin is out of range, or names an address outside the subnet or the server's, or one that is held, and the error says which |
| Allocation.TakenPinNamesHolder | internal/state/state.go:559-580 | A usable pin is refused exactly when a machine holds the address, and the refusal names a machine that does |
| Allocation.AllocationSucceedsBelowCapacity | internal/state/state.go:582-588 | Pigeonhole: fewer address holders than candidates implies success |
| Allocation.CandidatesAreAnInterval | internal/state/state.go:567-587 | The candidates are the stated number of consecutive addresses above the server |
| Allocation.AllocatesIff | internal/state/state.go:554-589 | An address is allocated iff the pinned one is free and usable, or without a pin some candidate is free |
| TableHistory.DenyCanRemoveAnActiveRow | internal/state/state.go:487-500 | A concrete table where a key presented for a second user renames a row and a later deny removes an active row |
| RegistryRuns.ReachableTablesAreSound | internal/server/server.go:100-307 | After every run from a saved table with these properties: unique users, registered owners, no key twice per user; pending users have only pending machines and blocked users none; addresses distinct, none on a pending machine |
| RegistryRuns.ReachableLabelsAreUnique | internal/state/state.go:487-524 | When each key is presented for one user only, keys and per-user names stay unique over every run, renames included |
| RegistryRuns.ApprovalIsPermanent | internal/server/server.go:236-307 | Between any two points of a run no approved user disappears or returns to pending; nor does an approved machine unless a losing deny lies in between |
| RegistryRuns.StepLosesIff | internal/server/server.go:217-307 | In every step surviving rows never return to pending, and an approved row is lost iff the step is an accepted deny of user/machine without target, with its revocations written, whose first row is pending while another row of that name is not |
| RegistryRuns.LostRowWasDenied | internal/server/server.go:217-307 | A machine approved at one point of a run and gone later was taken away by such a deny of its user and of the name it then had |
| RegistryRuns.LabelledRunsLoseNothing | internal/state/state.go:487-524 | When each key is presented for one user only, no such deny occurs in any run |
| RegistryRuns.NonPendingMachineHasApprovedUser | internal/state/state.go:169-172 | In every reachable table a machine that is not pending belongs to a registered user that is not pending |
| RegistryRuns.StartIsGood | internal/state/state.go:594-612 | Ensuring the admin at start makes it active, keeps an existing verifier, and establishes what every run keeps |
| RegistryRuns.JoinsApproveOnlyAdminMachines | internal/server/server.go:100-191 | A join approves no user, and no machine except one of the admin user |
| RegistryRuns.OnlyAdminsManage | internal/server/data.go:273-294 | A signed message changes the registry only as an admin request whose bytes are signed under the key of the admin machine that holds its source |
| ServerAddress.ServerAddressIsNeverGiven | internal/server/server.go:416-462 | In every run from any saved table whatever, a user and key that hold the server address held it in the saved table |
| ServerAddress.ServerAddressStaysFreeIff | internal/server/server.go:416-439 | The server address stays free in every run iff no machine of the saved table holds it |
| ServerAddress.RejoinKeepsServerAddress | internal/server/server.go:425-430 | After the subnet changed from 10.0.0.0/16 to 10.0.5.0/24 a machine at 10.0.5.1, now the server address, keeps it on rejoining without a pin |
| Grants.GrantRefinesInsert | internal/state/state.go:392-402 | Grant inserts into the set of pairs, keeps the list duplicate-free and the old list as prefix |
| Grants.RevokeRefinesRemove | internal/state/state.go:405-416 | Revoke removes from the set of pairs and keeps the list duplicate-free |
| Grants.GrantIdempotent | internal/state/state.go:392-402 | A second grant changes and writes nothing |
| Grants.GrantEffect | internal/state/state.go:392-451 | For slash-free users a grant opens exactly the named target to the named machine, or to all machines of the named user |
| Grants.RevokeEffect | internal/state/state.go:405-451 | A revocation takes away exactly the named pair; the other level of grant still counts |
| Grants.RevokeAllDoneIff | internal/server/server.go:276-280 | The revocation loop finishes exactly when each of its writes succeeds |
| Grants.DenyWithoutTargetClearsSubject | internal/server/server.go:268-280 | Deny without target keeps all other grants in order, and leaves the subject none when the disk takes the write of every revocation |
| Grants.ReachableGrantsHaveNoDuplicates | internal/server/server.go:217-307 | The grant list is duplicate-free in every reachable table |
| AddressStability.JoinMovesAtMostOneRow | internal/server/server.go:139-191 | An accepted proof changes the address of at most the row it names |
| AddressStability.SettledRowKeepsAddressIff | internal/server/server.go:418-462 | A row with an address in the subnet changes it iff the pin is not its last octet and names an address of the subnet that is neither the server address nor held by any machine before the join; it moves there |
| AddressStability.ReconnectCanMove | internal/server/server.go:442-462 | A machine at 192.168.100.2 that reconnects with the pin 7 is moved to 192.168.100.7 |
| AddressStability.SettledJoinMovesNothing | internal/server/server.go:418-462 | In the subnet with pin 0 or the present last octet no row's address changes |
| AddressStability.TogglesMoveNothing | internal/state/state.go:197-249 | Any sequence of blocks and unblocks changes nothing but statuses |
| AdminEffects.DenyBlocksActiveUserIff | internal/server/server.go:276-292 | Denying an active user blocks it and all its machines iff the disk takes the write of every revocation; otherwise no row changes |
| AdminEffects.DenyBlocksActiveMachineIff | internal/server/server.go:293-306 | Denying an active machine blocks that row and no other, under the same condition |
| AdminEffects.DenyDoneIff | internal/server/server.go:268-307 | Such a deny succeeds iff the writes of all revocations and the one of the row succeed |
| AdminEffects.UnblockUndoesBlockIff | internal/state/state.go:197-249 | Unblock restores what Block changed exactly when the user and all its machines were active |
| AdminEffects.ApprovalGivesAddress | internal/server/server.go:251-260 | An approved pending machine becomes active; it gets its pin, or else the lowest free address, iff the first write succeeds and there is one; the command succeeds iff the second write does too; below capacity there is one |
| AdminEffects.ApprovalIsPushed | internal/server/server.go:194-212 | An approval goes to the endpoint the machine joined from, which becomes the endpoint of its address |
| AdminEffects.AdminMachineApproved | internal/server/server.go:473-489 | The same for a pending machine of the active admin user as it joins |
| AdminEffects.AllowUserActivates | internal/server/server.go:237-250 | After allow a known user is active; machines change only if it was blocked, and only from blocked to active |
| AdminEffects.DenyErasesPendingUser | internal/server/server.go:281-288 | Denying a pending user removes exactly its rows |
| AdminEffects.GrantCommandOpensDirection | internal/server/server.go:217-266 | The allow command on an active user or machine changes AllowRelay for exactly its machines toward admin machines of the given name |
| AdminEffects.GrantOpensServerIff | internal/server/server.go:214-266 | It opens the direction to the server iff the target is the name server, or the direction was open |
| AdminEffects.EmptyTargetIsNotTheServer | internal/server/server.go:214-266 | With an empty target a direction to the server that was closed stays closed; with the target server it opens |
| Commands.DenyWithTargetRevokes | internal/server/server.go:268-275 | Deny with a target takes away exactly the named grant, keeps every row, and succeeds iff its one write does |
| Commands.DenyWithTargetClosesIff | internal/server/server.go:268-275 | Afterwards a direction is open iff the policy opens it without that grant |
| Commands.DenyWithTargetShutsOut | internal/server/server.go:268-275 | A machine that only the grant to its user let in is out, whatever other machine names were granted |
| Commands.AllowGrantsIff | internal/server/server.go:236-266 | After allow a grant is there iff it was, or it is the one named and the subject is active |
| Commands.AllowUnblocksMachine | internal/server/server.go:261-262 | Allowing a blocked machine makes that row active and changes nothing else, and succeeds iff its one write does |
| Commands.UnknownSubjectFails | internal/server/server.go:236-307 | An order about an unknown user or machine changes no row, sends nothing and fails |
| Commands.BadCommandDoesNothing | internal/server/server.go:217-233 | Another command, or a target that does not parse, does nothing and fails |
| Commands.CommandIsBroadcastIff | internal/server/server.go:217-233 | A command that succeeds sends every machine with a known endpoint its own status under the registry it leaves; one that fails sends no notice |
| Commands.AdminRequestIsAnswered | internal/server/data.go:273-302 | Every request that decodes is answered to the endpoint of its source: the users view for all, orders as they end for the admin's machines, refused for others |
| Commands.SignedRequestIsAnswered | internal/server/data.go:13-38 | So is the datagram that brings it, whose signed payload is the request |
| AdminEffects.DenyErasesPendingMachine | internal/server/server.go:293-301 | Denying a pending machine removes exactly the rows of that user and name |
| Commands.DenyPendingUserIff | internal/server/server.go:276-288 | The command removes exactly the rows of a pending user iff the disk takes its revocations, else no row; it succeeds iff that and one more write do |
| Commands.DenyPendingMachineIff | internal/server/server.go:276-301 | The same for a pending machine and the rows of its user and name |
| Commands.DenyBlockedOnlyRevokes | internal/server/server.go:276-307 | Denying what is blocked already changes no row and succeeds iff the revocations are written |
| AdminEffects.RegistrationEffect | internal/state/state.go:484-515 | A registration of a known user that is not refused touches one row, which has the key, the replied status and the asked name |
| JoinEffects.RegistrationResult | internal/state/state.go:465-515 | A registration of a known user ends as blocked, with a used name, with the save error, with the status of the row of the key, or pending, by the stated conditions on the table |
| JoinEffects.FirstContactRegisters | internal/server/server.go:100-126 | A complete request of an unknown user with salt and verifier appends one pending user and one pending machine, and says so |
| JoinEffects.OtherRequestsRegisterNothing | internal/server/server.go:100-137 | Every other request leaves the registry alone and gets the stated refusal, the challenge, or nothing when no nonce was drawn |
| JoinEffects.RefusedProofIsAnswered | internal/server/server.go:139-160 | A proof that is not accepted changes nothing but the challenge, and the reply says which of three reasons it was |
| JoinEffects.AcceptedProofIsAdmitted | internal/server/server.go:161-191 | An accepted proof uses up its challenge and is admitted |
| JoinEffects.AdmissionIsAnswered | internal/server/server.go:161-191 | The reply carries the result and the address of the named row, and what is sent to that address goes to the sender from then on |
| JoinEffects.JoinResult | internal/server/server.go:161-191 | The result of a join is that of its registration, except that a pending machine of the admin with an address to get and both writes is active |
| JoinEffects.AdminRuleApprovesIff | internal/server/server.go:473-489 | The admin rule approves iff the user is the admin, the row is pending, an address is free and both writes succeed |
| JoinEffects.AdminJoinGetsAddress | internal/server/server.go:161-191 | A machine approved as it joins is active, holds its pin or else the lowest free address, and is told so |
| JoinEffects.OutsideAddressIsReplacedIff | internal/server/server.go:418-439 | An accepted join of an active machine outside the subnet moves it to its pin or the lowest free address iff there is one to allocate; otherwise it keeps the old address |
| JoinEffects.OutsideMachineIsMovedAndTold | internal/server/server.go:139-191 | The handler does this and tells the machine the address it then holds |
| JoinEffects.ReloadStoresBoth | internal/state/state.go:527-537 | A reload stores salt and verifier of the admin and nothing else |
| AdminEffects.BroadcastReachesExactly | internal/server/server.go:312-332 | The signed policy notice goes to exactly the machines with a known endpoint, each with its own status |
| Silence.DeniedUserStaysSilent | internal/server/server.go:268-307 | In every run, after an active user is denied and its revocations are written, no relay request from or to its machines is honoured until an accepted allow of the user or one of its machines |
| ServerData.DeniedUserDataStops | internal/server/data.go:22-24 | In every run, from such a deny until such an allow, no data that names a machine of the user as its source reaches the server's TUN device |
| Silence.SilencedUntilAllowed | internal/state/state.go:465-515 | A blocked user with all machines blocked stays so through joins, signed messages, reloads and every order but an allow of that user |
| Silence.OthersGiveNoOrders | internal/server/data.go:287-290 | A message that verifies under a machine of another user than the admin changes nothing in the registry, so denied machines cannot lift their own block |
| Silence.BlockedMachineAllowsItselfIff | internal/server/data.go:13-45 | A blocked machine that sends an admin request to allow itself becomes active iff it belongs to the admin user |
| MachineSilence.DeniedMachineStaysSilent | internal/server/server.go:268-307 | In every run, after an active machine is denied and its revocations are written, no relay request from or to it is honoured until an accepted allow of its name, or of its user while that is blocked, or a losing deny of its name |
| ServerData.DeniedMachineDataStops | internal/server/data.go:22-24 | The same for a denied machine |
| MachineSilence.BlockedUntilLifted | internal/state/state.go:484-515 | Until then a blocked machine keeps its row, name and status through joins, signed messages, reloads and all other orders |
| Renames.RenamingJoinKeepsDirectionIff | internal/state/state.go:484-512 | A join that renames a machine leaves its direction to another as it was exactly when no grant is looked at, its user holds one, or both names do or do not hold one |
| Renames.RenameCanCloseDirection | internal/state/state.go:439-451 | A concrete rename that loses the direction granted to the old name |
| Renames.JoinRewritesForeignRowIff | internal/state/state.go:484-512 | A join proof changes a row of another user iff it is the first with the presented key, neither it nor the asking user is blocked, the asked name is free or already its own, and name or pin are new; the row then takes them and keeps its user |
| RelaySafety.FlowsRefineLog | internal/server/data.go:67-110 | At any later time the flow table says recent exactly when the full log holds an allowed opposite packet at most 60 s old, despite overwriting and lazy deletion |
| RelaySafety.ExpiredFlowIsForgotten | internal/server/data.go:78-91 | A denied request that meets an entry older than 60 s deletes it and no other |
| RelaySafety.LogIsTheAllowedRequests | internal/server/data.go:93-100 | The log is exactly the relay requests whose direction the policy opens, by event of the run |
| RelaySafety.RequestIsAuthenticIff | internal/server/data.go:13-61 | A datagram is a request iff it has the relay type and 73 bytes, its addresses are bound to active machines, and its last 64 bytes are a signature under the source's key over all bytes before them |
| RelaySafety.RequestIsAuthentic | internal/server/data.go:13-61 | Both ends are registered, active and bound to the addresses; the last 64 bytes verify under the source's key over all bytes before them; it is allowed iff the policy, spelled out in users and grants, opens the direction |
| RelaySafety.RelayedIff | internal/server/data.go:93-110 | Over every run a relay packet is sent iff it is an authentic request, opened by users and grants or answering such a packet at most 60 s old, to the target's known endpoint, with the received body |
| RelaySafety.StrangersAreNotRelayed | internal/server/data.go:93-110 | Between machines of two users, neither the admin, nothing is relayed in any run unless the log holds an allowed packet the other way between their addresses at most 60 s old |
| RelaySafety.DeniedDirectionGoesSilent | internal/server/data.go:78-103 | A denied direction sends nothing more than 60 s after the last allowed packet the other way; replies do not extend the window |
| Challenges.NoncesRefineHistory | internal/server/server.go:128-160 | The nonce table holds exactly the outstanding challenges of the history |
| Challenges.AcceptedProofHasChallenge | internal/server/server.go:151-168 | An accepted proof answers an earlier challenge of the same join key and verifies against its nonce |
| Challenges.ChallengeAuthorisesOnce | internal/server/server.go:151-168 | The map from accepted proofs to challenges is injective |
| Challenges.RejectedProofChangesNothing | internal/server/server.go:139-168 | A proof without challenge or with a wrong answer leaves users, machines and grants alone |
| Challenges.ProofAcceptedTwiceCollides | internal/protocol/protocol.go:125-139 | With fresh nonces two accepted proofs of a run are MACs of different transcripts; they are equal iff those two inputs collide |
| Challenges.ProofBindsIdentity | internal/protocol/protocol.go:125-139 | A proof made for some verifier, challenge, user, machine and key is accepted iff these are the ones asked for, or the two MAC inputs collide |
| Challenges.ReloadSwitchesPassword | internal/state/state.go:527-537 | After a reload an outstanding admin challenge accepts the proof under a verifier iff it is the new one, or the two MACs of the transcript collide |
| Challenges.HonestProofAccepted | internal/node/node.go:201-229 | An honest answer to the current challenge is accepted whenever the stored verifier is the node's |
| Challenges.HonestRejoinAccepted | internal/node/node.go:201-229 | After first contact the same node is challenged on its next request and its answer is accepted |
| Authentication.AuthenticatedIff | internal/server/data.go:13-66 | The server acts on a datagram for a machine iff it has one of six types and 73 bytes, names an address bound to the machine and is signed by it; data also needs it active |
| Authentication.KeepAliveIsAnswered | internal/server/data.go:39-44 | A keep-alive is answered to where it came from with a signed one for its source |
| Endpoints.EndpointIsLastJoin | internal/server/server.go:491-495 | Over every run the endpoint kept for a join key is where the last complete request or accepted proof under that key came from |
| Endpoints.EndpointIsLastHeard | internal/server/data.go:320-330 | Over every run the endpoint kept for an address is where it was last heard of: an approval of it pushed there, a join reply naming it sent there, or an accepted message from it received from there |
| ServerData.TunWriteIff | internal/server/data.go:112-131 | The server writes a packet iff the event is data signed by the active machine holding its source, which is the admin's or has the server granted, and whose payload opens to the packet |
| Servers.Server.HandleJoinRequest | internal/server/server.go:100-137 | The handler over the maps and tables takes the step ServerModel.HandleJoinRequest; see Challenges.NoncesRefineHistory and HonestRejoinAccepted |
| Servers.Server.HandleJoinProof | internal/server/server.go:139-191 | The handler, which deletes the challenge before it looks at the proof and then admits over the live tables, takes the step ServerModel.HandleJoinProof; see Challenges.ChallengeAuthorisesOnce and JoinEffects.OutsideMachineIsMovedAndTold |
| Servers.Server.NotifyApprove | internal/server/server.go:194-212 | Push and endpoint update over the maps are those of ServerModel.NotifyApprove; see AdminEffects.ApprovalIsPushed |
| Servers.Server.RevokeAll | internal/server/server.go:276-280 | The loop over the live grant list, stopping at the first failed write, leaves the grants of the recursive ServerModel.RevokeAll; see Grants.RevokeAllDoneIff |
| Servers.Server.BroadcastPolicyChanged | internal/server/server.go:312-332 | The loop over a snapshot builds the signed notices of ServerModel.Broadcast; see AdminEffects.BroadcastReachesExactly |
| Servers.Server.HandleSigned | internal/server/data.go:13-65 | Dispatch over the mutable server takes the step ServerModel.HandleSigned; see Authentication.AuthenticatedIff, RelaySafety.RequestIsAuthenticIff and RegistryRuns.OnlyAdminsManage |
| Servers.Server.HasRecentFlow | internal/server/data.go:78-91 | True iff the opposite pair is at most 60 s old; an older entry is deleted; see RelaySafety.FlowsRefineLog |
| Servers.Server.RelayData | internal/server/data.go:93-110 | Noting, looking up and deleting flows in the live map gives the step ServerModel.RelayData; see RelaySafety.RelayedIff and StrangersAreNotRelayed |
| Servers.Server.Handle | internal/server/server.go:88-98 | One event on the mutable server is the step of which the theorems over runs speak, orders included: see Commands.DenyWithTargetRevokes and Endpoints.EndpointIsLastHeard |
| Nodes.Node.EnsurePeer | internal/node/data.go:127-169 | Refilling the shared entry in place, or adding one, gives the cache of NodeModel.EnsurePeer, and no other entry object changes; see NodeAnswers.EntriesAreLastAnswers |
| Nodes.Node.EnsureServerPeer | internal/node/data.go:171-194 | The server's entry is made once and returned as the same object afterwards; see NodeServer.FirstDataForServer and DataReachesServer |
| Nodes.Node.SendTo | internal/node/data.go:92-123 | Sending over the mutable cache takes the step NodeModel.SendTo; see NodeDelivery.CopiesSentIff and NodeSafety.RelayCopyOmittedOnlyIfDirect |
| Nodes.Node.HandleData | internal/node/data.go:310-351 | Receiving updates the path fields of the entry object and takes the step NodeModel.HandleData; see NodeDelivery.DeliveredIff and NodeAnswers.DeliveredPacketsAreAuthentic |
| Nodes.Node.CachePacket | internal/node/data.go:393-401 | Appended to the queue of its source unless four are waiting |
| Nodes.Node.EnsurePeerThenFlush | internal/node/data.go:403-414 | The flush loop over the removed queue takes the step NodeModel.EnsurePeerThenFlush; see NodeDelivery.FlushDeliversAll |
| Nodes.Node.HandlePolicyChanged | internal/node/data.go:416-428 | The flag and the deletion loop leave the state of NodeModel.HandlePolicyChanged; see NodeAnswers.BlockedNodeIsSilent |
| Nodes.Node.DropAllPeers | internal/node/data.go:430-438 | Every entry but the server's goes |
| NodeSafety.RelayCopyOmittedOnlyIfDirect | internal/node/data.go:112-121 | The relay copy is omitted only if a datagram naming the peer, from an endpoint other than the server's, was handled less than one second ago, or ten for the server's own entry; the packet goes there |
| NodeSafety.OmittedCopyArrival | internal/node/data.go:318-330 | That datagram arrived then, or had arrived earlier and was flushed from the queue then |
| NodeSafety.OmittedCopyArrivedRecently | internal/node/data.go:318-330 | It arrived within that window unless a queue holding a datagram from off the server was flushed in it |
| NodeSafety.QueuedDatagramCanBeOld | internal/node/data.go:393-414 | A run in which the relay copy is omitted although the only such datagram arrived any given time ago |
| NodeSafety.ReachableQueuesNamed | internal/node/data.go:393-414 | In every run a queue holds at most four datagrams and each names the address it waits for |
| NodeSafety.QueuedPacketArrived | internal/node/data.go:393-401 | Every queued packet is a datagram received earlier in the run |
| NodeAnswers.EntriesAreLastAnswers | internal/node/data.go:127-169 | Every cache entry but the server's has the keys and permissions of the last answer for its address |
| NodeAnswers.EntriesAreAnswersInForce | internal/node/data.go:171-194 | The server's entry always has the keys received on joining and may call both ways; every other entry is as above |
| NodeAnswers.OneWayPairStaysOnRelay | internal/node/data.go:112-122 | A pair not open both ways by the last answer sends nothing but relay copies to the server |
| NodeAnswers.UnfoundPeerGetsNothing | internal/node/data.go:127-150 | A peer that no answer has found is sent nothing |
| NodeAnswers.SentSinceLastNotice | internal/node/data.go:416-438 | What is sent for a peer is sent under an answer installed since the last policy notice |
| NodeAnswers.SentUnderRecentEntry | internal/node/data.go:134-160 | What is sent for a peer rests on an answer installed, or a datagram of that peer from off the server handled, less than one second ago |
| NodeAnswers.BlockedNodeIsSilent | internal/node/data.go:416-427 | A node told that it is blocked neither sends nor delivers until told otherwise |
| NodeAnswers.DeliveredPacketsAreAuthentic | internal/node/data.go:310-351 | Every packet written to the TUN device, also one that names the server, came in a received datagram signed, on its raw bytes, under the key in force for its source, which opens and passes the test |
| NodeDelivery.CopiesSentIff | internal/node/data.go:112-122 | The direct copy is sent iff the pair is open both ways and the address known, the relay copy unless the direct path of such a pair was heard within ten seconds |
| NodeDelivery.FreshEntryServes | internal/node/data.go:134-139 | An entry less than a second old serves as it is, the server's always |
| NodeDelivery.AnswerReplacesEntryIff | internal/node/data.go:140-169 | Otherwise there is an entry iff an answer knows the peer and yields a key; it is made from that answer, address included |
| NodeDelivery.ForbiddenCallDropsEntry | internal/node/data.go:104-109 | A call the entry forbids is not sent and the entry is dropped, no other |
| NodeDelivery.SendTouchesOneEntry | internal/node/data.go:92-123 | Sending changes the entry of its destination only, nothing while blocked or without an entry, and keeps the entry of a call that may go out |
| NodeDelivery.DeliveredIff | internal/node/data.go:331-350 | A datagram of a known peer is written to the TUN device iff it is signed by it, is addressed to the node and not from it, opens to that packet, and is allowed or an answer |
| NodeDelivery.DatagramMovesPath | internal/node/data.go:318-330 | A datagram of a known peer moves its direct path to where it came from unless that is the server, and changes nothing else |
| NodeDelivery.FlushDeliversAll | internal/node/data.go:403-414 | A flush that has the peer empties the queue and delivers every queued datagram that passes |
| NodeDelivery.UnknownPeerWaits | internal/node/data.go:393-401 | A datagram of an unknown peer is queued last unless four are waiting, and nothing else changes |
| NodeDelivery.NoticeEffect | internal/node/data.go:416-438 | A notice signed by the server on its raw bytes drops every entry but the server's and sets the status it carries; any other changes nothing |
| EndToEnd.AnswerTravels | internal/server/data.go:133-164 | The reply to a query reaches the asker's endpoint, verifies under the server's key and carries the answer |
| EndToEnd.QueryIsAnswered | internal/server/data.go:133-164 | An accepted query of four bytes is answered to where it came from, signed, for its source and about the address it asks for; any other query is not answered |
| EndToEnd.ServerSignedReads | internal/server/data.go:304-318 | What the server signs is read back with its type, payload and destination, from the address after the one written in the subnet |
| EndToEnd.AnswerAboutJoined | internal/server/data.go:138-153 | An answer about an active machine survives the codec with its keys and both directions of the policy |
| EndToEnd.TheTwoEndsAgree | internal/server/data.go:141-146 | A's CanCallBack for B is B's CanCall for A after the codec, and both derive one session key |
| EndToEnd.CallTestsAgree | internal/node/data.go:100-111 | Under one policy a packet passes B's send test exactly when it passes A's delivery test |
| EndToEnd.DeliveredByteForByte | internal/node/data.go:331-350 | Whatever B seals for A opens at A to the same bytes |
| EndToEnd.RelayEndToEnd | internal/server/data.go:93-110 | B emits iff allowed or a reply, the server forwards iff allowed or recent, and A writes exactly B's packet |
| EndToEndRuns.RelayEndToEndOverRuns | internal/server/data.go:93-110 | The same for two nodes at any point of their runs and of the server run, when the last answers they took are replies the server gave under its present registry |
| EndToEnd.ServerReceivesByteForByte | internal/server/data.go:112-131 | Data sealed for the server reaches its TUN device unchanged exactly when policy lets the sender reach the server |
| NodeServer.FirstDataForServer | internal/node/data.go:171-194 | Without an entry for the server its data goes to the server's endpoint, as TYPE_DATA and as a relay copy |
| NodeServer.PathIntactOverRuns | internal/node/data.go:310-330 | In every run the path to the server stays the one received on joining until a datagram naming its address from elsewhere is handled |
| NodeServer.DataReachesServer | internal/node/data.go:92-123 | Over every such run a packet for the server leaves as data unless the last notice said blocked, and the server that gets it writes exactly that packet iff the node is the admin's or has the server granted |
| EndToEnd.OneWayPairLearnsNoAddress | internal/server/data.go:147-176 | A pair of which one direction is closed by users and grants gets no address in an answer and no introduction |
| EndToEnd.AddressLearntIff | internal/server/data.go:133-177 | A verified query gets the target endpoint, and the target an introduction, iff the target is active, users and grants open both directions and the endpoint is known, whatever the status of the asker |
| EndToEnd.AnswerFoundIff | internal/server/data.go:138-142 | The answer says found iff the target is bound to an active machine |
| EndToEnd.NoticeIsRead | internal/node/data.go:416-427 | A policy notice verifies at the node although its destination is empty, and carries the status |
| EndToEnd.DenyNotifiesBlocked | internal/server/server.go:309-332 | Denying an active user or machine, with all writes succeeding, sends each machine it blocks that has a known endpoint the notice that it is blocked |
| EndToEnd.BlockingNoticeSilencesNode | internal/node/data.go:416-427 | A node that receives that notice neither sends nor delivers anything until the next notice |
| EndToEnd.NodeFindsServerIff | internal/node/node.go:282 | The node's idea of the server address is right exactly when the subnet is written as the node's own /24 |
| EndToEnd.TrueServerOutOfReach | internal/node/data.go:127-150 | A node that looks for the server elsewhere never sends anything to the true server address, while no machine holds it |
| EndToEnd.MachineTakenForServer | internal/node/data.go:171-194 | What a node sends to a machine at the first address of its own /24 is sealed under the server key, and ends at the TUN device of the server iff policy lets the sender reach the server |

## Left out

- `Servers.Server.HandleSigned`: the contents of the machine list and of the users view are not modelled, because they only read the policy already covered; their packets are sent without contents.
- `Servers.Server.HandleJoinRequest`: JSON bodies stay structured values, because JSON and base64 encoding and decoding are taken to be inverse.
- `Nodes.Node.EnsurePeer`: the query datagram is not among the outputs and the reply channel, its timeout and its retries are one parameter, because a query and its reply are one step.
- `States.State.AllocateIP`: IPv6 subnets are left out and the subnet text is taken as parsed, because configuration checks are not modelled.
- `Registry.RegisterJoin`: the fingerprint, the trusted flag and the join and last-seen times are left out, because no decision reads them.
- Goroutine interleavings inside one handler, such as an admin command between AllocateIP and SetMachineIP.
- Packets the server itself sends from its TUN device, and a server without a TUN device.
- IPv6 endpoints, and the mapping of IPv4-mapped IPv6 addresses to IPv4.
- Joining on the node beyond its answer to a challenge: retries, waiting for approval, a changed server key, a changed address.
- NAT punching, keep-alive timers and the watch that rejoins a lost server: timing without decisions on data.
- The file format and the atomic rename of the state file, configuration checks, the daemon, the command line and service installation.
- Trust and Untrust: display only, not consulted by the policy.
- The mobile client: user interface, and an older protocol with a simpler codec.
