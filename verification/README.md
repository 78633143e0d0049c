# Verified models of the Codex Everywhere protocols

This project models, in Dafny, the parts of the system whose safety depends on every
interleaving, crash point or hostile schedule, and proves what they are for.

| files | what they model |
|---|---|
| `Lock.dfy`, `LockExact.dfy`, `LockSolo.dfy`, `LockFiles.dfy` | the cross-process lock made of hard links, renames and quarantine names, shared by the state lock and `ProcessLock` |
| `Records.dfy`, `Assembly.dfy`, `Streams.dfy`, `Delivery.dfy`, `SecureSession.dfy` | the secure message session: fragment records, reassembly with its timers and shared byte budget, delivery over a hostile network |
| `Capability.dfy`, `Relay.dfy`, `RelayHistory.dfy`, `RelayAnswers.dfy`, `RelayProvenance.dfy`, `RelayServer.dfy` | route capabilities and the Relay's authorization state machine, step by step and over whole runs: what it never does, when exactly it says yes, where all it holds comes from; and the server object that refines it |
| `RateLimiter.dfy` | the Relay's per-address rate limiter |
| `Connector.dfy`, `ConnectorRuns.dfy` | the Agent's connector and renewal together with a conforming Relay |
| `Queue.dfy`, `QueueView.dfy`, `QueueRuns.dfy`, `QueueOrder.dfy`, `QueueRegistry.dfy` | the durable queue: its transactions, its migration, what its users see, and what holds over every run |
| `StateStore.dfy`, `HostStateStore.dfy`, `LockedStore.dfy` | the host state store's transactions, interleaved between processes, alone and under the lock protocol with its commit fence |
| `Supervisor.dfy` | the app-server supervisor's reservation and owner record |
| `Renewal.dfy` | the renewal retry delay and loop |
| `Versions.dfy`, `Rounding.dfy`, `Text.dfy` | the comparison of Codex versions against Semantic Versioning 2.0.0 |
| `Options.dfy` | optional values |

Protocols are state machines over their atomic steps.  An event that is not possible in a
state leaves it unchanged, so a run is any sequence of events and the theorems quantify over
all of them.  Code that changes an object's fields is also given as a class.  Its methods are
proved to make the machine's steps, or runs of them, where there is a machine, and to compute
a function that is specified apart from them where there is none.  Ciphers, signatures and digests are ideal; times, jitter
samples, random ids, probes and failures are parameters or choices of the environment.

Run `dafny verify dfyconfig.toml` to check everything.

Some of the properties do not hold of the code without a condition, and each has a concrete
failing case beside the theorem that gives the condition:

- Mutual exclusion of the lock depends on what is put back while an acquisition reads the
  quarantine names it has listed after publishing.  It is kept exactly when of any two
  contenders one has yet to read a link, of either, that cannot go away
  (`LockExact.ExclusiveExactlyWhen`); nothing put back during a scan, and so scans taken as
  one step, is enough, and the owner of what is put back not contending is enough.  The
  comment in `apps/agent/src/host/process-files.ts:77-79` says that the check after publishing
  prevents two owners; `LockProtocol.CarelessRestorationRace` is a run in which it does not.
- One item at a time per queue thread needs that no item is added in front of a running one,
  and fails in some continuation whenever one is (`QueueOrder.HarmlessExactlyWhen`).  The time
  of an item is taken before its transaction, so an addition that commits late can do it, and
  so can two items of one millisecond (`QueueOrder.LateAdditionOverlaps`).
- Earlier items are settled when an item begins, except rows of an old Agent in quarantine
  (`QueueOrder.EarlierItemsAreDone`, `QueueOrder.QuarantineCanComeFirst`).
- Accepted generations do not go back as long as no unbounded one of the same owner has been
  accepted; once its route has gone idle and closed, anything that verifies is accepted
  (`RelayHistory.GenerationsNeverGoBack`, `RelayHistory.UnboundedIsForgotten`).
- The published database is a serial fold as long as the lock's restorations are harmless in
  that sense; after the race a second holder passes the fence and the ownership check and an
  update is lost (`LockedStore.CarelessRunLosesAnUpdate`).
- The rate limiter's bound needs a positive window, unless nothing can be admitted at all
  (`RateLimiter.LimitedExactlyWhen`).
- A short message that looks like a fragment record does not survive the secure session
  (`Delivery.RoundTripExactly`), and an item with the empty id would be listed differently
  from how it is shown (`Queue.EmptyIdListed`).
- Version comparison agrees with section 11 for all partners exactly when the version's
  numbers survive conversion to a double without sharing it with another number
  (`Versions.AgreesExactlyWhenSafe`).

## Model

| member | source | states |
|---|---|---|
| LockProtocol.Retention | apps/agent/src/host/state-lock.ts:68-135 | over every interleaving of link, rename, rm, stat and readdir steps and crashes, for both kinds of lock, a live owner that has published and not begun to relinquish keeps a link at the lock name or a quarantine name |
| LockProtocol.RunKeepsInv | apps/agent/src/host/state-lock.ts:155-199 | the invariant behind retention holds after any sequence of events: names are only removed when dead, own, or known to be linked at the lock name as well |
| LockProtocol.ThrowForgetsNoOwner | apps/agent/src/host/state-lock.ts:104-134 | an exception touches no link and forgets no owner: what has published relinquishes, a release that fails can be tried again, only what has not published is over |
| LockProtocol.KindsDifferInPatience | apps/agent/src/host/process-files.ts:60-95 | blocked, refused by a living owner or having put a foreign link back, a state lock tries again and a ProcessLock is over |
| LockProtocol.HeldUntilReleased | apps/agent/src/host/state-lock.ts:104-120 | a held lock ends only by its holder's release or crash, and a failed release only by another try |
| LockProtocol.FenceHoldsBack | apps/agent/src/host/state-lock.ts:68-79 | a blocking commit fence keeps a state lock from being acquired and reclaimed |
| LockProtocol.ScansAndSweepsByKind | apps/agent/src/host/process-files.ts:326-344 | only a ProcessLock ends its scan at the first living owner and may relinquish twice |
| LockProtocol.QuarantineStays | apps/agent/src/host/state-lock.ts:402-422 | no step other than a restoration takes a live published owner out of quarantine or puts it back at the lock name |
| LockProtocol.FreshScanSees | apps/agent/src/host/state-lock.ts:329-341 | of two contenders, one that starts its scan after publishing will read a quarantine link of one of them |
| LockExact.ExclusiveExactlyWhen | apps/agent/src/host/state-lock.ts:68-135 | from any state of the invariant, all continuations that put nothing back during a scan keep at most one live holder exactly when of any two contenders one has yet to read a quarantine link, of either, that cannot go away: nobody alive has it in hand, or its owner is not at the lock name and nobody alive is removing it |
| LockExact.RestorationIsHarmlessExactlyWhen | apps/agent/src/host/state-lock.ts:402-422 | a restoration, in the middle of any scan, is harmless exactly when it leaves the contenders in such a state |
| LockExact.IdleOwnerMayReturn | apps/agent/src/host/state-lock.ts:402-422 | putting back a link whose owner neither holds the lock nor is on its way to it is always harmless |
| LockProtocol.CarefulRunsExclude | apps/agent/src/host/process-files.ts:60-95 | at most one live acquisition holds a returned lock in every run whose restorations are harmless in this sense |
| LockProtocol.MutualExclusion | apps/agent/src/host/process-files.ts:60-95 | in particular in every run that puts nothing back during a scan |
| LockProtocol.AtomicScansAreDisciplined | apps/agent/src/host/process-files.ts:326-344 | runs in which each quarantine scan is one step are disciplined |
| LockProtocol.CarelessRestorationRace | apps/agent/src/host/process-files.ts:260-300 | a concrete run of either lock in which two stale reclaimers and a restoration during a scan leave two live holders |
| LockExact.RaceIsCareless | apps/agent/src/host/process-files.ts:366-389 | the restoration in that run does not meet the condition |
| LockSolo.HoldsExactlyWhenFree | apps/agent/src/host/state-lock.ts:68-135 | for both kinds of lock, an acquisition that moves alone can come to hold the lock exactly when no living owner is linked at the lock name or a quarantine name |
| LockSolo.NeverBeside | apps/agent/src/host/state-lock.ts:93-98 | beside a living owner's link no run of one acquisition alone ends in holding the lock |
| LockSolo.SoloAcquires | apps/agent/src/host/state-lock.ts:68-102 | with only dead owners linked, scanning, reclaiming and publishing lead to holding the lock |
| LockFiles.LockDirectory.HasBlockingQuarantine | apps/agent/src/host/state-lock.ts:329-341 | as a solo run of the protocol, the scan reports a block exactly when a living owner is quarantined, and removes the links of dead owners only |
| LockFiles.LockDirectory.Relinquish | apps/agent/src/host/state-lock.ts:305-327 | as a solo run of the protocol, a release removes every link of its owner and no other, and puts back a foreign lock it displaced |
| LockFiles.LockDirectory.ReclaimStale | apps/agent/src/host/state-lock.ts:155-199 | as a solo run of the protocol, a dead owner's lock is removed and a living owner's is left |
| LockFiles.LockDirectory.Acquire | apps/agent/src/host/state-lock.ts:68-102 | the acquisition is a solo run of the protocol that holds the lock exactly when no living owner had a link, and is then the only one linked |
| Records.RecordReadsBack | packages/crypto/src/index.ts:290-308 | every fragment record fits a Noise transport message and its header reads back as written |
| Records.ChunksRejoin | packages/crypto/src/index.ts:290-308 | the chunks of a message, in order, are the message |
| Records.LayoutOnTheWire | packages/crypto/src/index.ts:290-308 | a fragment record is the marker 00 43 45 01, then index, count and message length as four bytes each, most significant first, then the chunk |
| Records.ChunkIsSlice | packages/crypto/src/index.ts:290-308 | every chunk but the last carries the next 65503 bytes, and the last what is left |
| Records.FragmentByItsBytes | packages/crypto/src/index.ts:418-421 | what is taken for a fragment: at least 16 bytes that begin with the marker |
| Records.SplitByLength | packages/crypto/src/index.ts:280-308 | up to 65519 bytes go whole, more in two or more records in order |
| Assembly.AcceptIsSound | packages/crypto/src/index.ts:310-396 | any record at any moment keeps buffered bytes within declared ones and the armed timers exactly the idle and absolute timers of the current assembly, and changes the budget by exactly the change in declared size |
| Assembly.MalformedExactlyWhenRejected | packages/crypto/src/index.ts:326-340 | a record is rejected for its header exactly when it declares fewer than 2 or more than 513 fragments, an index beyond them, up to 65519 bytes or more than the receive limit; no assembly, timer or reservation is then left |
| Assembly.AnswersByPlace | packages/crypto/src/index.ts:341-396 | what becomes of any other record, by its place, the budget and the bytes received: each of the five further errors, waiting, or delivery of exactly the chunks in order |
| Assembly.RejectionLeavesNothing | packages/crypto/src/index.ts:310-325 | a whole message is delivered unless a fragment was due, and every rejection leaves no assembly or timer and gives back the reservation |
| Assembly.AcceptStaysWithin | packages/crypto/src/index.ts:326-340 | neither an assembly nor an assembled message exceeds the receive limit |
| Assembly.BudgetIsExact | packages/crypto/src/index.ts:46-75 | for any number of sessions and any order of records, timers and disposals, reserved bytes are the sum of the live assemblies' declared sizes and never exceed the maximum |
| Assembly.EventMeetsItsSession | packages/crypto/src/index.ts:402-415 | records and timers act on their own session and the shared budget only |
| Assembly.DisposalFreesEverything | packages/crypto/src/index.ts:398-415 | after any run, disposing of all sessions brings the reserved bytes back to zero |
| Delivery.OnlyTheNextFrameOpens | packages/crypto/src/index.ts:264-278 | a frame that is accepted carries the next record the sender made; every other frame changes nothing |
| Delivery.InOrderDelivery | packages/crypto/src/index.ts:264-396 | for every schedule of dropped, duplicated, reordered, altered or foreign frames, timer firings and budget refusals, the received messages are an unaltered in-order subsequence of those sent |
| Delivery.RunStaysLimited | packages/crypto/src/index.ts:326-340 | over every such schedule no assembly declares more than the receive limit, and no message longer than it and than one frame is received |
| Delivery.RoundTrip | packages/crypto/src/index.ts:280-396 | the frames made for any sequence of messages within both size limits, none mistakable for a fragment and with enough budget, fed in order to a receiver in step, deliver exactly those messages; every plaintext is within 65519 bytes, the receive counter ends equal to the send counter, the budget is unchanged and no assembly or timer is left |
| Delivery.SomeScheduleDelivers | packages/crypto/src/index.ts:280-396 | for any messages that fit there is a fair schedule by which a new session receives all of them |
| Delivery.EndingAnAssembly | packages/crypto/src/index.ts:398-415 | an armed timer or a disposal ends the assembly and nothing else; a timer that is not armed does nothing, and a message over 32 MiB is not sent |
| Delivery.FramesOpen | packages/crypto/src/index.ts:264-278 | frames under consecutive counters all open in order, and the receiver takes exactly their plaintexts |
| Delivery.OpensExactlyWhen | packages/crypto/src/index.ts:264-278 | a frame opens exactly when it names this session and the next counter and was sealed under them; any other changes nothing |
| Delivery.RoundTripExactly | packages/crypto/src/index.ts:418-421 | one message, sent as frames, is received exactly when it cannot be mistaken for a fragment |
| Delivery.LookalikesForgeAMessage | packages/crypto/src/index.ts:286-288 | the records of a long message, sent as short messages, are received as a message that was never sent |
| SecureSessions.SecureSession.Encrypt | packages/crypto/src/index.ts:250-262 | a frame under the next counter, or the length error and no change |
| SecureSessions.SecureSession.EncryptMessage | packages/crypto/src/index.ts:280-308 | exactly the message's records under consecutive counters, or the length error and no change |
| SecureSessions.FramesAreSent | packages/crypto/src/index.ts:280-308 | frames made by the session are what the link's sender makes for one more message |
| SecureSessions.SendAll | packages/crypto/src/index.ts:280-308 | repeated encryptMessage makes exactly the frames the round trip takes |
| SecureSessions.SecureSession.Decrypt | packages/crypto/src/index.ts:264-278 | the plaintext of the expected authentic frame; a refusal does not move the counter |
| SecureSessions.SecureSession.DecryptMessage | packages/crypto/src/index.ts:310-396 | session, budget and output become what the reassembly specification says of the decrypted record |
| SecureSessions.SecureSession.Fire | packages/crypto/src/index.ts:402-415 | an armed timer drops the assembly, both timers and the reservation |
| SecureSessions.SecureSession.Join | packages/crypto/src/index.ts:389-395 | the loop copies the parts into their concatenation |
| Capability.VerifiedIsUnexpired | packages/protocol/src/relay-capability.ts:332-369 | a verified capability is not expired as a whole, and a provisioned one has an owner and a finite expiration |
| Capability.VerifiesExactlyWhenGenuine | packages/protocol/src/relay-capability.ts:332-369 | verification accepts exactly the authentic tokens before each of their expirations and, if provisioned, of this installation |
| Capability.EffectiveIsEarliest | packages/protocol/src/relay-capability.ts:452-464 | the effective expiration is the earliest there is |
| Capability.OwnersAgreeExactlyWhen | packages/protocol/src/relay-capability.ts:285-306 | two provisioned capabilities have one owner exactly when installation, name and principal agree; others have none |
| Capability.LoginsAgreeExactlyWhen | packages/protocol/src/relay-capability.ts:262-283 | the login of a provisioned capability is its owner's, and never a legacy one's |
| Capability.GenerationsAgreeExactlyWhen | apps/relay/src/relay-server.ts:299-333 | two tokens give one generation exactly when owner, effective expiration, issue time and digest agree |
| Capability.ExpiredExactlyWhen | apps/relay/src/relay-server.ts:667-702 | a generation is expired from its expiration on, and never without one |
| Capability.MonotonicMeans | apps/relay/src/relay-server.ts:779-798 | the monotonicity check accepts exactly what does not go back in (expiration, issue time) and, on a tie, only the same capability |
| Capability.AtMostIsOrder | apps/relay/src/relay-server.ts:779-798 | the order of generations is a total preorder |
| Relay.StepKeepsInv | apps/relay/src/relay-server.ts:299-433 | every event keeps owner isolation, the login map's inverse, unique tunnels and the limits |
| Relay.RelayIsSound | apps/relay/src/relay-server.ts:521-640 | in every reachable state each route, pending connection, setup and tunnel has an authorization with the owner it was accepted under; logins are the exact inverse of the routes' login ids; a route has at most 32 connections in all and authorizations stay within capacity |
| RelayHistory.GenerationsNeverGoBack | apps/relay/src/relay-server.ts:340-352 | over a whole run, of two generations accepted for a route the later does not go back in expiration and issue time, and a tie is the same capability, unless an unbounded generation of the same owner was accepted since the earlier one |
| RelayHistory.ProvisionedNeverGoBack | apps/relay/src/relay-server.ts:340-352 | a provisioned generation is never gone back on, whatever was accepted in between |
| RelayHistory.UnboundedIsForgotten | apps/relay/src/relay-server.ts:744-761 | once the idle route of any unbounded generation closes, any capability that verifies and fits is accepted, however old |
| RelayHistory.LegacyCanGoBack | apps/relay/src/relay-server.ts:744-761 | a run in which an older unbounded capability is accepted after a newer one |
| RelayHistory.ExpiryRemovesEverything | apps/relay/src/relay-server.ts:704-742 | finding an authorization expired removes its route, logins, connections, setups and tunnels at once |
| RelayHistory.ExpiredSetupsStayDead | apps/relay/src/relay-server.ts:560-574 | a setup accepted before an expiry never becomes active afterwards |
| RelayHistory.ClosingFreesOne | apps/relay/src/relay-server.ts:601-608 | a closed tunnel or a cleared connection goes and takes exactly one off its own route's load |
| RelayHistory.FailingFreesOne | apps/relay/src/relay-server.ts:622-628 | so does a failed setup |
| RelayHistory.AcceptedExactlyWhen | apps/relay/src/relay-server.ts:299-369 | a registration is accepted exactly when it verifies and fits, yields to no authorization in force and has room; the route is then held by its socket under its generation |
| RelayHistory.TunnelOpens | apps/relay/src/relay-server.ts:382-433 | connect, accept and ready on a route with room give exactly one new tunnel under the route's owner and change nothing else |
| RelayAnswers.RegistersExactlyWhen | apps/relay/src/relay-server.ts:299-369 | in every reachable state a registration takes the route over, with all its effects, exactly when its socket has none yet, its token is genuine, the profile asked for is the token's, no other route has its login, the authorization in force is of the same owner and not ahead, and there is room; otherwise nothing changes |
| RelayAnswers.ConnectsExactlyWhen | apps/relay/src/relay-server.ts:382-433 | a browser is admitted exactly when the route is registered and in force, its control socket is open, and fewer than 1024 connections are pending and fewer than 32 are on the route |
| RelayAnswers.AcceptsExactlyWhen | apps/relay/src/relay-server.ts:521-559 | a pending connection becomes a setup exactly when the token is genuine and for its route and owner, the route is in force and the browser is still there |
| RelayAnswers.ReadyExactlyWhen | apps/relay/src/relay-server.ts:560-599 | a setup becomes a tunnel exactly when its route is in force and the browser is still there, and is gone otherwise |
| RelayAnswers.ClosingKeepsOnlyMarks | apps/relay/src/relay-server.ts:362-369 | closing a route's control socket removes the route and its login only; the authorization stays exactly while it has an expiration or anything on the route remains |
| RelayAnswers.StrangerCloses | apps/relay/src/relay-server.ts:362-369 | the closing of any other socket changes nothing |
| RelayProvenance.NothingComesFromForgery | apps/relay/src/relay-server.ts:299-369 | over every run, each accepted generation and each authorization comes from a registration of that run, each setup and tunnel from an accept, whose token was then authentic, before all its expirations and, if provisioned, of the Relay's installation |
| RelayServers.RelayServer.Handle | apps/relay/src/relay-server.ts:278-297 | every handler of the server object, at any time, makes exactly one step of the state machine |
| RelayServers.RelayServer.Register | apps/relay/src/relay-server.ts:299-380 | the registration handler makes the register step |
| RelayServers.RelayServer.Connect | apps/relay/src/relay-server.ts:382-433 | the connect handler, with its count over maps and its scan, makes the connect step |
| RelayServers.RelayServer.AcceptTunnel | apps/relay/src/relay-server.ts:521-559 | the accept handler makes the accept step; a setup it returns is new |
| RelayServers.RelayServer.TunnelReady | apps/relay/src/relay-server.ts:560-599 | the readiness handler makes the ready step |
| RelayServers.RelayServer.ExpireRouteAuthorization | apps/relay/src/relay-server.ts:704-742 | its loops leave exactly the expired state |
| RelayServers.RelayServer.PruneRouteAuthorization | apps/relay/src/relay-server.ts:744-761 | looking at index entries and scanning pending connections decides pruning as the specification does |
| RelayServers.RelayServer.PendingOn | apps/relay/src/relay-server.ts:404-406 | the scan counts a route's pending connections |
| RelayServers.RelayServer.RouteLoad | apps/relay/src/relay-server.ts:401-406 | tunnels, setups and pending connections add up to the route's load |
| RateLimiter.FirstTellsAll | apps/relay/src/relay-server.ts:507-513 | testing the first bucket is testing whether any bucket is stale |
| RateLimiter.RunKeepsOrder | apps/relay/src/relay-server.ts:492-519 | over every run map order is start order and the buckets never exceed the capacity |
| RateLimiter.AdmittedExactlyWhen | apps/relay/src/relay-server.ts:498-518 | a call is admitted exactly when its live bucket has count left or, without one, when there is room or any stale bucket |
| RateLimiter.AtMostTwiceTheMaximum | apps/relay/src/relay-server.ts:492-519 | for a positive window, any closed interval of one window length admits at most twice the maximum per address, over every run |
| RateLimiter.LimitedExactlyWhen | apps/relay/src/relay-server.ts:492-519 | that bound holds over every run exactly when the window is positive or nothing can be admitted at all |
| RateLimiter.AddressBudget.Consume | apps/relay/src/relay-server.ts:492-519 | the limiter object makes the specified step |
| Connector.NeverAhead | apps/agent/src/gateway/relay-connector.ts:77-187 | over every run with lost replies, late frames, reconnects and restarts of either side, the Relay's high-water generation does not exceed the connector's capability, nor that the one on disk |
| Connector.ReconnectionIsNeverARollback | apps/relay/src/relay-server.ts:340-352 | registering again with the connector's capability or the one on disk is accepted exactly when the token verifies and fits and there is room: never refused as a rollback |
| Connector.RotationSends | apps/agent/src/gateway/relay-connector.ts:100-137 | a rotation puts its candidate in force when the registration is sent |
| Connector.RefusalMustMeanRefused | apps/agent/src/gateway/relay-connector.ts:175-183 | if a Relay refused what it had installed, the restored capability would be a rollback |
| Connector.RegistrationTakesEffect | apps/agent/src/gateway/relay-connector.ts:136-187 | a registration that arrives in time installs the capability at the Relay, and the connector keeps it whether or not the answer arrives |
| Connector.GrantKeepsInv | apps/agent/src/runtime/relay-capability-renewal.ts:115-163 | a grant that extends the snapshot and is persisted by compare-and-set keeps the chain of generations |
| Connector.OtherRenewalKeepsInv | apps/agent/src/runtime/self-service-provisioning.ts:105-126 | so does a renewal by another process |
| Connector.GrantIsPersistedExactlyWhen | apps/agent/src/runtime/relay-capability-renewal.ts:122-163 | a grant is persisted and handed on exactly when it extends what was read and that is still on disk; else what was read is handed on, or nothing |
| Connector.ExtendsExactlyWhen | apps/agent/src/runtime/relay-capability-renewal.ts:125-151 | a grant extends a capability exactly when route, installation and name agree, it is a user's, and it expires strictly later |
| ConnectorRuns.FrameIsAnsweredExactlyWhen | apps/relay/src/relay-server.ts:299-380 | when exactly a registration frame, however late, is installed and answered |
| ConnectorRuns.RenewalTakesEffect | apps/agent/src/runtime/relay-capability-renewal.ts:245-297 | from any reachable state at rest, a renewal that nothing disturbs ends with the grant on disk, in the connector and at the Relay, connected over the new socket |
| ConnectorRuns.LostAnswerIsHarmless | apps/agent/src/gateway/relay-connector.ts:138-187 | when the answer to a registration is lost, the next attempt over another socket succeeds |
| ConnectorRuns.RestartConnects | apps/agent/src/gateway/relay-connector.ts:77-137 | whatever it was doing, an Agent that restarts connects with the capability on disk |
| ConnectorRuns.RelayRestartConnects | apps/agent/src/gateway/relay-connector.ts:100-137 | a Relay that has forgotten everything takes the connector back |
| ConnectorRuns.OtherRenewalIsPickedUp | apps/agent/src/runtime/relay-capability-renewal.ts:271-283 | what another process has renewed is what the connector opens for after the next check |
| ConnectorRuns.OthersGoOn | apps/agent/src/gateway/relay-connector.ts:155-160 | the Relay's other business and the loss of the control socket leave capability and transition alone |
| ConnectorRuns.OneTransitionAtATime | apps/agent/src/gateway/relay-connector.ts:83-98 | no transition begins before the previous one has ended |
| ConnectorRuns.RefusalRestores | apps/agent/src/gateway/relay-connector.ts:175-183 | any answer but the expected one restores the previous capability and keeps the control socket |
| Connector.RelayConnector.TransitionControl | apps/agent/src/gateway/relay-connector.ts:83-98 | a rotation takes its candidate, a reconnection the capability of the moment |
| Connector.RelayConnector.SendRegistration | apps/agent/src/gateway/relay-connector.ts:100-137 | sending the frame switches the capability and remembers the previous one |
| Connector.RelayConnector.Settle | apps/agent/src/gateway/relay-connector.ts:138-187 | acceptance, explicit rejection and silence end the transition as specified |
| Queue.ListedExactlyWhenNotDone | apps/agent/src/host/queue.ts:98-119 | for any tables and any id but the empty one, the query's filter selects an item exactly when its shown status is not done |
| QueueRuns.ListShowsWhatIsNotDone | apps/agent/src/host/queue.ts:98-119 | in every reachable state the filter selects exactly the items whose shown status is not done |
| Queue.EmptyIdListed | apps/agent/src/host/queue.ts:550-583 | for the empty id, when exactly filter and status agree |
| Queue.EarliestIsFirst | apps/agent/src/host/queue.ts:628-647 | the earliest item is the one unconsumed item that precedes all others of the thread, and is missing only when there is none |
| Queue.QueuedIsDelivered | apps/agent/src/host/queue.ts:60-96 | an item added to an idle thread is delivered by claiming, beginning and completing it |
| Queue.MigrationTidies | apps/agent/src/host/state-store.ts:242-291 | after any old-Agent run migration leaves all rows done and no item with both a state row and a claim, quarantines every touched row and leaves the rest alone |
| Queue.MigrationKeepsSettled | apps/agent/src/host/state-store.ts:279-282 | settled claims stay as they are |
| Queue.MigrationIsIdempotent | apps/agent/src/host/state-store.ts:184-205 | migrating twice is migrating once |
| Queue.StartupPausesEverything | apps/agent/src/host/queue.ts:501-522 | after startup nothing is running or delivering: what was delivered is uncertain, what was reserved is paused, everything else looks as before |
| QueueView.AddShows | apps/agent/src/host/queue.ts:60-96 | an addition succeeds exactly for a new id, which is then shown as pending; nothing else changes |
| QueueView.RemoveShows | apps/agent/src/host/queue.ts:135-162 | exactly what is shown as pending or paused can be removed, and exactly what is shown as indeterminate when that is acknowledged |
| QueueView.BeginShows | apps/agent/src/host/queue.ts:164-225 | exactly what is shown as running can be begun, by a caller that knows its thread and message, and is then delivering |
| QueueView.CompleteShows | apps/agent/src/host/queue.ts:227-256 | exactly what is shown as delivering can be completed, by the identity that began it, and is then done |
| QueueView.RepairShows | apps/agent/src/host/queue.ts:273-306 | the three results of a repair, and that only an unsettled claim changes, to indeterminate |
| QueueView.EnsureShows | apps/agent/src/host/queue.ts:311-356 | a missing claim is made up as indeterminate with the identity's fields; an existing one is repaired |
| QueueView.ReleaseShows | apps/agent/src/host/queue.ts:358-373 | exactly what is shown as running can be paused or given back |
| QueueView.ClaimNextShows | apps/agent/src/host/queue.ts:375-404 | an item is reserved exactly when nothing of its thread is delivering or indeterminate, it comes first of those that wait there, and it is pending |
| QueueView.ClaimForSteerShows | apps/agent/src/host/queue.ts:406-460 | so is a named item, also a paused one, and the result is the status to give back |
| QueueView.PausePendingShows | apps/agent/src/host/queue.ts:469-499 | exactly the pending items of the thread become paused |
| QueueView.MigrationShows | apps/agent/src/host/state-store.ts:242-291 | a row left undone is shown as indeterminate unless its claim is settled, under a made-up claim if there was none; all others look as before |
| QueueView.StatusFollowsItsWay | apps/agent/src/host/queue.ts:60-538 | in every reachable state every transaction moves every item along waiting, delivering, done, or to indeterminate; only what waits or is acknowledged as indeterminate is removed, and a claimed item stays done |
| QueueRuns.StepKeeps | apps/agent/src/host/queue.ts:135-356 | every published transaction keeps claims, moves outcomes only from open to completed or indeterminate and from indeterminate to abandoned, and keeps the tables tidy |
| QueueRuns.AlwaysTidy | apps/agent/src/host/queue.ts:73-95 | in every reachable state all physical rows are done and no item has both a state row and a claim |
| QueueRuns.BegunAtMostOnce | apps/agent/src/host/queue.ts:164-225 | consumption of an item begins at most once over every run, with restarts and transactions that publish but report failure |
| QueueRuns.OutcomesOnlyAdvance | apps/agent/src/host/queue.ts:227-306 | claims are never deleted or rewritten; completed and abandoned are final |
| QueueOrder.OneBusyItemPerThread | apps/agent/src/host/queue.ts:375-460 | over every run in which no item is added in front of a running one, only begun items get a tombstone, and old Agents, which may add and reopen rows, neither delete nor rewrite existing ones, each thread has at most one item running or delivering |
| QueueOrder.MigrationInOrder | apps/agent/src/host/state-store.ts:242-291 | whatever rows an old Agent adds or reopens, migration keeps one item at a time |
| QueueOrder.HarmlessExactlyWhen | apps/agent/src/host/queue.ts:60-96 | an addition keeps every continuation at one busy item per thread exactly when it does not sort in front of a running item of its thread |
| QueueOrder.LateAdditionOverlaps | apps/agent/src/host/queue.ts:65-72 | an item stamped earlier than a running one, or at the same time with a smaller id, and committed later leads to two running items |
| QueueOrder.EarlierItemsAreDone | apps/agent/src/host/queue.ts:613-647 | when an item begins, an earlier item of its thread is done exactly when it is not an old Agent's row in quarantine |
| QueueOrder.EarlierItemsAreSettled | apps/agent/src/host/queue.ts:613-647 | without old Agents, every earlier item still present is completed or abandoned |
| QueueOrder.QuarantineCanComeFirst | apps/agent/src/host/state-store.ts:242-291 | a run in which an old Agent's quarantined row precedes an item that begins |
| QueueRegistries.QueueRegistry.Add | apps/agent/src/host/queue.ts:60-96 | the transaction's effect and rollback |
| QueueRegistries.QueueRegistry.List | apps/agent/src/host/queue.ts:98-119 | exactly the selected items, each once, in order |
| QueueRegistries.QueueRegistry.Remove | apps/agent/src/host/queue.ts:135-162 | removal of a waiting item, or abandonment of an acknowledged uncertain one |
| QueueRegistries.QueueRegistry.Begin | apps/agent/src/host/queue.ts:164-225 | the reservation becomes a claim, or nothing changes |
| QueueRegistries.QueueRegistry.Complete | apps/agent/src/host/queue.ts:227-256 | the open claim is completed, or nothing changes |
| QueueRegistries.QueueRegistry.Repair | apps/agent/src/host/queue.ts:273-306 | missing stays missing, settled stays settled, the rest becomes indeterminate |
| QueueRegistries.QueueRegistry.Ensure | apps/agent/src/host/queue.ts:311-356 | a tombstone where there was no claim |
| QueueRegistries.QueueRegistry.PauseMissing | apps/agent/src/host/queue.ts:358-373 | an unclaimed reservation is paused |
| QueueRegistries.QueueRegistry.Restore | apps/agent/src/host/queue.ts:528-538 | an unclaimed reservation is given back |
| QueueRegistries.QueueRegistry.EarliestUnconsumed | apps/agent/src/host/queue.ts:628-647 | stepping through the ordered rows finds the earliest item of the thread |
| QueueRegistries.QueueRegistry.ClaimNext | apps/agent/src/host/queue.ts:375-404 | reserves the earliest item if it is pending and nothing is unresolved |
| QueueRegistries.QueueRegistry.ClaimForSteer | apps/agent/src/host/queue.ts:406-460 | reserves the named item if it is the earliest and nothing is unresolved |
| QueueRegistries.QueueRegistry.PausePending | apps/agent/src/host/queue.ts:469-499 | the loop pauses exactly the thread's pending items |
| QueueRegistries.QueueRegistry.PauseInterrupted | apps/agent/src/host/queue.ts:501-522 | on startup unsettled claims become indeterminate and reservations paused |
| QueueRegistries.QueueRegistry.Migrate | apps/agent/src/host/state-store.ts:251-291 | the row loop computes the migration |
| StateStore.PublishedIsASerialFold | apps/agent/src/host/state-store.ts:64-86 | over every interleaving, failure and crash in which no rename is of a database loaded before the last publication, the published database is the serial fold of the published callbacks, none twice, every acknowledged one among them and none both acknowledged and failed |
| StateStore.OneHolderPublishesSerially | apps/agent/src/host/state-store.ts:64-86 | with one holder of the lock at a time that is every run |
| StateStore.ReleaseReports | apps/agent/src/host/state-store.ts:64-86 | success is reported exactly when the commit was made durable, the lock was given up and nothing threw |
| StateStore.OneOperationAtATime | apps/agent/src/host/state-store.ts:64-94 | a store with an operation under way begins no other |
| StateStore.CrashForgets | apps/agent/src/host/state-store.ts:401-426 | a crash gives up the lock and the memory and nothing else, and the store opens again with what is published |
| LockedStore.CarefulRunsPublishSerially | apps/agent/src/host/state-store.ts:64-86 | lock protocol, commit fence, ownership check and any number of stores together: over every run whose restorations are harmless, the published database is the serial fold of the published callbacks, every acknowledged one once, and reads and callbacks saw published databases |
| LockedStore.CarelessRunLosesAnUpdate | apps/agent/src/host/state-store.ts:372-399 | after the race of two holders, two transactions pass the fence and the ownership check, both are acknowledged, and only the second one's update is left |
| LockedStore.UpdateIsLostExactlyWhen | apps/agent/src/host/state-store.ts:390-392 | a publication loses an update exactly when its callback, applied to what is published, would have left another database |
| LockedStore.OneCommitAtATime | apps/agent/src/host/state-store.ts:372-399 | over every run, even a careless one with two holders, the fence lets at most one store be between its rename and the end of its commit |
| LockedStore.DisplacedHolderPublishesNothing | apps/agent/src/host/state-store.ts:372-399 | a holder whose record is no longer at the public name, or that finds the fence taken, does not publish |
| LockedStore.DeathInTransaction | apps/agent/src/host/state-store.ts:372-399 | a process that dies in a transaction takes its acquisition along and leaves no fence of its own to block others for good; a failure leaves the acquisition alone |
| StateStore.NothingUnpublishedLeaks | apps/agent/src/host/state-store.ts:401-426 | the memory any read or callback ran on, with other stores publishing in between, had been published when it was reloaded |
| HostStateStores.TransactionIsARun | apps/agent/src/host/state-store.ts:64-86 | for each point of failure, the machine's steps of a transaction left alone have exactly the object's effect on disk and memory, and acknowledge exactly when it reports success |
| HostStateStores.ReadIsARun | apps/agent/src/host/state-store.ts:88-94 | so does a read |
| HostStateStores.HostStateStore.Transaction | apps/agent/src/host/state-store.ts:64-86 | disk, memory and answer are the specified effect: the callback gets what is published, never what an earlier failure left |
| HostStateStores.HostStateStore.Read | apps/agent/src/host/state-store.ts:88-94 | a read sees the published database |
| Supervisor.NeverTwoChildren | apps/agent/src/runtime/app-server-supervisor.ts:123-215 | for every crash point, child death, forced restart and reboot at most one child is alive, and it is named by the owner record or a reservation with its nonce and boot |
| Supervisor.NothingAlive | apps/agent/src/runtime/app-server-supervisor.ts:431-456 | when a reservation may be reclaimed nothing is alive |
| Supervisor.StartsExactlyWhen | apps/agent/src/runtime/app-server-supervisor.ts:123-215 | from any reachable state at rest, a start left alone ends with one recorded child and no reservation exactly when no recorded child is alive and a reservation is absent, of the recorded startup or of another boot; otherwise it takes away only a live child's own reservation |
| Supervisor.CrashedStartupBlocks | apps/agent/src/runtime/app-server-supervisor.ts:431-456 | a startup that crashes between reserving and recording blocks every further start on this boot |
| Supervisor.RebootRecovers | apps/agent/src/runtime/app-server-supervisor.ts:431-456 | from any state, after a reboot the next start succeeds |
| Supervisor.OperatorRecovers | apps/agent/src/runtime/app-server-supervisor.ts:431-456 | so it does after the operator removes the reservation once no child is left |
| Supervisor.LiveChildStays | apps/agent/src/runtime/app-server-supervisor.ts:129-141 | an ordinary start never replaces a live child |
| Supervisor.GivenUpStartup | apps/agent/src/runtime/app-server-supervisor.ts:501-534 | a startup given up leaves no child, record or reservation |
| Supervisor.ForcedRestart | apps/agent/src/runtime/app-server-supervisor.ts:233-309 | a forced restart of a live recorded child, once it has stopped, leaves no record and starts afresh, but never overrides another startup's reservation |
| Supervisor.RestartOfNothing | apps/agent/src/runtime/app-server-supervisor.ts:233-309 | without a live recorded child an answering endpoint is left alone, and a start follows exactly when no reservation is in the way |
| Supervisor.StubbornChildStays | apps/agent/src/runtime/app-server-supervisor.ts:255-297 | a child that does not stop is left as it is |
| Supervisor.AppServerSupervisor.Ensure | apps/agent/src/runtime/app-server-supervisor.ts:123-215 | a child is returned exactly when the endpoint does not answer, no recorded child is alive, no reservation is in the way, every write and the spawn succeed and a poll answers before any exit; child, record, reservation and live set are given in every case, and the run has no disaster and no death but this child's |
| Supervisor.AppServerSupervisor.Prepare | apps/agent/src/runtime/app-server-supervisor.ts:129-147 | the way is free exactly when the endpoint does not answer and the records allow a start |
| Supervisor.AppServerSupervisor.StartChild | apps/agent/src/runtime/app-server-supervisor.ts:148-214 | from there, when exactly a child results, and what is left when none does |
| Supervisor.AppServerSupervisor.Launch | apps/agent/src/runtime/app-server-supervisor.ts:148-184 | reservation, child and owner record in this order, each of which may fail |
| Supervisor.AppServerSupervisor.Conclude | apps/agent/src/runtime/app-server-supervisor.ts:185-214 | the child answers, or it is stopped and cleaned up after |
| Supervisor.AppServerSupervisor.ReclaimOrReject | apps/agent/src/runtime/app-server-supervisor.ts:431-456 | reclaims or refuses as the specification says |
| Supervisor.AppServerSupervisor.AwaitReady | apps/agent/src/runtime/app-server-supervisor.ts:185-209 | ready exactly when a poll answers before any exit; the loop is one of three named runs |
| Supervisor.AppServerSupervisor.Cleanup | apps/agent/src/runtime/app-server-supervisor.ts:501-534 | withdraws only this startup's record and reservation |
| Renewal.JitterBounds | apps/agent/src/runtime/relay-capability-renewal.ts:189-196 | jitter takes off less than a quarter |
| Renewal.ChecksKeepTheSafetyMargin | apps/agent/src/runtime/relay-capability-renewal.ts:204-208 | a check scheduled with more than 45 seconds left comes with at least 45 seconds left |
| Renewal.RetriesBeforeExpiry | apps/agent/src/runtime/relay-capability-renewal.ts:166-215 | a check is always scheduled before the capability expires |
| Renewal.DelayByTier | apps/agent/src/runtime/relay-capability-renewal.ts:166-215 | for every sample, with 30 to 7 days left the delay is 9 to 12 hours, to one day 45 to 60 minutes, in the last day up to 5 minutes, and before that a day or three quarters to the whole of the time to the window |
| Renewal.DelayAtTheEnd | apps/agent/src/runtime/relay-capability-renewal.ts:199-214 | the delay in the last minutes, at the safety margin and after expiry |
| Renewal.DelayWithout | apps/agent/src/runtime/relay-capability-renewal.ts:166-180 | 18 to 24 hours where nothing is known or provisioned, and the full tier without jitter |
| Renewal.JitterSpreads | apps/agent/src/runtime/relay-capability-renewal.ts:189-196 | different samples below a quarter of the tier give different delays |
| Renewal.InspectionIsWhatIsLeft | apps/agent/src/runtime/relay-capability-renewal.ts:64-90 | the inspection of a provisioned user capability is the time to its earliest expiration |
| Renewal.SpinsOnlyAtTheEnd | apps/agent/src/runtime/relay-capability-renewal.ts:199-214 | after an attempt the delay is zero exactly with one millisecond left |
| Renewal.FirstCheckInWindow | apps/agent/src/runtime/relay-capability-renewal.ts:64-90 | for any samples, a capability with more than 30 days left gets its first in-window check after finitely many checks, with at least 30 days less 5 minutes left |
| Renewal.ChecksFollow | apps/agent/src/runtime/relay-capability-renewal.ts:236-239 | each check is the previous one's delay later, with the next sample |
| Renewal.RenewalLoop.CheckNow | apps/agent/src/runtime/relay-capability-renewal.ts:240-245 | one check at a time, and none after closing |
| Renewal.RenewalLoop.Finish | apps/agent/src/runtime/relay-capability-renewal.ts:271-297 | until closed, the end of a check always sets the next timer, at the retry delay of the capability in force |
| Renewal.RenewalLoop.Close | apps/agent/src/runtime/relay-capability-renewal.ts:310-316 | closing leaves no timer |
| Versions.CompareCodexVersions | apps/agent/src/runtime/codex-install.ts:148-180 | the loops compute the specified comparison, NaN included; unreadable versions compare equal |
| Text.LessIsLexicographic | apps/agent/src/runtime/codex-install.ts:177 | identifiers compare as a proper prefix or at the first place where they differ |
| Versions.PrecedenceIsOrder | apps/agent/src/runtime/codex-install.ts:148-180 | the precedence of section 11 of Semantic Versioning 2.0.0 is an antisymmetric, transitive, total preorder |
| Versions.RoundedGrows | apps/agent/src/runtime/codex-install.ts:168-173 | conversion to a double never reverses an order |
| Rounding.RoundedIsNearest | apps/agent/src/runtime/codex-install.ts:168-173 | no double is nearer to a number than what it is converted to, and on a tie that one is even |
| Rounding.RoundedIsADouble | apps/agent/src/runtime/codex-install.ts:168-173 | what a number is converted to has at most 53 significant bits |
| Rounding.InfiniteExactlyWhen | apps/agent/src/runtime/codex-install.ts:168-173 | with the bound of the doubles at 2^(j+54), the conversion gives infinity exactly from 2^j below it on |
| Versions.AgreesExactlyWhenSafe | apps/agent/src/runtime/codex-install.ts:148-180 | the comparison of a valid version agrees with section 11 for every valid partner exactly when each of its numbers is below 2^53, or below 2^54 and 2 modulo 4 |
| Versions.ComparisonIsOrder | apps/agent/src/runtime/codex-install.ts:148-180 | on such versions it is an antisymmetric, transitive, total preorder that ignores build metadata |
| Versions.UnsafeIsNotTransitive | apps/agent/src/runtime/codex-install.ts:168-175 | any unsafe finite number gives three versions that break transitivity |
| Versions.InfiniteIsNotItself | apps/agent/src/runtime/codex-install.ts:152-155 | a version with a number beyond the range of doubles compares to itself as NaN |

## Left out

- Locks between different hosts, where a 60-second modification-time lease decides; on one host liveness is exact.
- The commit fence is a free choice of the environment wherever the lock code looks at it, and one value in module LockedStore; the renames by which a dead owner's fence is reclaimed are not modelled.
- LockFiles.LockDirectory.ReclaimStale: is the run in which no commit fence blocks; the protocol's steps allow for one.
- LockFiles.LockDirectory.Acquire: tries again once after reclaiming and does not wait, because with nobody else moving a wait changes nothing.
- The heartbeat of the lock and the bounded wait: a wait that times out is one of the ways a step may throw.
- Noise handshake, ChaChaPoly, HMAC and base64url: ideal functions. A ciphertext opens only under its key, counter and associated data; login ids and digests do not collide.
- Sockets, HTTP, process spawning, signals, SQL text, JSON and regular expressions: their results are events, maps and datatypes.
- Relay `close()`, heartbeats, tunnel byte budgets, socket limits per address and close codes: shutdown and plumbing.
- Capability issuing and the purpose field: a capability is read, not made; the purpose follows from its principal.
- Connector: capabilities for the route reach the Relay from this Agent only, and the configuration is changed by extending renewals only, as the design demands.
- QueueOrder.OneBusyItemPerThread: does not cover old Agents that delete or rewrite rows that are done, which they ignore by design.
- Queue: item payloads, workspace paths and update times are not kept, since no decision reads them; ids of new items are assumed fresh.
- State store: the other tables and the schema version check; `open` counts as reading the published file, and the file is not deleted behind the store.
- Supervisor: platforms without process start times and boot ids, where a record may match a reused process id.
- Renewal: timers are taken to be on time, and the loop's calls into the provisioner are events.
