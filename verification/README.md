# ironet in Dafny

A model of the control plane of ironet, a mesh VPN daemon, and of the tight data-plane
algorithms next to it, with proofs of what they keep over every run. Everything that
changes step by step in the daemon is either a class whose methods are proved against a
specification function, or a step system: a state, a total function that performs one
step of one task (and nothing when the step is not enabled), and theorems about the state
after any sequence of steps.

| module | what it models |
|---|---|
| `Membership` | the authority's peers and invite records and the transactions on them |
| `EnrollmentProtocol` | password enrollment between authority tasks and members, with loss, crashes, retries and expiry |
| `JoinWorkflow` | the member's join call, under any interference while it waits |
| `Listeners` | the enrollment listener set and its handover |
| `Supervisor` | the daemon's nested loop over generations, reloads, rollback, recovery and leases |
| `Coordination` | clients, supervisor and listener loop as concurrent tasks that wait for each other |
| `Refinement` | every interleaving of these tasks as a life of the sequential supervisor |
| `Reloads` | what both models of the supervisor share: clients and the pending reload |
| `EventLog` | the bounded replay log and its concurrent watchers |
| `Extensions`, `ExtensionRuns` | revisioned desired routes, idempotency records, leases, and whole runs of them |
| `Routes` | the operator's route registry, its canonical form and the composition of route sources |
| `Ownership` | the route-ownership part of configuration validation |
| `Buffers`, `BufferRuns` | recycling buffer pools and every interleaving with their readers |
| `Packet`, `Trace` | IP inspection, the IPv6 header walk, the hop-limit decrement, trace probes |
| `FileTransactions`, `Deployment`, `Storage` | captured multi-file updates, sealed configurations, product saves |
| `Installation`, `TextSurvival` | installing a configuration with its identity, and what becomes of the replaced text |
| `ReverseDns` | reverse-DNS routing domains of a prefix |
| `JsonLine` | bounded line frames over a chunked stream |
| `Outcomes`, `Text`, `Blocks` | shared values, ordered texts, aligned address blocks |

What the environment decides is a parameter: whether a save, a bind, a reload or a runtime
start succeeds, how a file write fails, how a stream is cut into chunks, what the clock
says, which ids are drawn. The parameter is universally quantified in every theorem.

Results that differ from what one might expect of the code:

- A peer that is added by hand again after its password enrollment ran out is removed by
  the next sweep that changes anything (`Membership.HandAddedPeerIsSwept`;
  `Membership.SweepRemovesExactly` states exactly whom a sweep removes).
- When a listener handover fails twice, or the new sockets were bound but do not report their
  addresses, nothing is listening, and asking for the same addresses again is acknowledged
  without repairing it (`Listeners.WildcardIsLost`, `Listeners.LossIsSilent`).
- The lease timer of the supervisor is polled again after it completed when an expiry pass
  found nothing to do, and that ends the supervisor (`Supervisor.SpentTimerIsFatal`;
  `Supervisor.SurvivesExactly` states exactly which traces the supervisor survives).
- Route keys join owner and name with a slash, which both may contain, so owners are isolated
  exactly when no item reaches across one (`ExtensionRuns.SlashesBreakIsolation`,
  `ExtensionRuns.IsolationExactly`).
- A full idempotency table evicts the smallest key, which may be the record just inserted
  (`ExtensionRuns.NewRecordKept`).
- The line writer accepts one byte more than the reader takes back
  (`JsonLine.RoundTripExactly`).
- The trace-probe parser slices out of bounds on exactly the packets that
  `Trace.OutOfBoundsExactly` describes, such as the one of `Trace.ShortTotalLeavesBounds`;
  inspection accepts none of them.
- Rolling a configuration back twice restores the disk only when both digests were
  written by a seal (`Deployment.RollbackTwiceSeals`, `Deployment.RollbackTwice`).
- An installation that is taken back can pass through a disk on which neither the destination
  nor the previous copy loads the replaced text, because the previous pair is restored first
  (`TextSurvival.FirstReplacementLoses`); `TextSurvival.InstallKeepsTextExactly` states exactly
  when it does.
- A failed restore can leave a member's state file without its configuration
  (`Storage.StateLeftBehind`); `Storage.StateAppearsLastExactly` states exactly when one does.

## Model

| member | source | states |
|---|---|---|
| Membership.Authority.CreateInvite | src/product/invites.rs:43-146 | an invite and, when its member is no peer yet, a peer are added together or not at all; every refusal and a failed save leave the records as they were |
| Membership.Authority.ConfirmPasswordEnrollment | src/product/invites.rs:150-180 | only the pending mark of that invite goes, and only for its own member, unrevoked and in time; confirming again succeeds without a save |
| Membership.Authority.ExpirePendingEnrollments | src/product/invites.rs:185-204 | the marking loop revokes exactly the overdue invites and reports whether there were any; peers follow the removal rule |
| Membership.Authority.RevokePasswordEnrollment | src/product/invites.rs:208-223 | the rollback of a failed activation revokes the invite and applies the removal rule, or changes nothing |
| Membership.Authority.RemoveUnadmittedPeers | src/product/invites.rs:225-246 | the two collecting passes and the filter keep exactly the admitted peers, in their order |
| Membership.Authority.OperatorRevoke | src/product/invites.rs:254-265 | the operator's revocation changes no peer and reports whether the invite was still standing |
| Membership.AdmittedExactly | src/product/invites.rs:225-246 | a peer goes if and only if a revoked, pending, provisioning invite names its endpoint and no unrevoked invite does |
| Membership.CommitEvolves | src/product/invites.rs:43-265 | no transaction deletes a record; pending ends only by confirming that unrevoked invite, and revocation comes only from an overdue sweep, a rollback or the operator |
| Membership.CommitAdmissible | src/product/invites.rs:43-265 | every transaction keeps peers and ids distinct and every unrevoked invite's member a peer |
| Membership.AdmissibleForever | src/product/invites.rs:43-265 | in every run of create, confirm, expire and revoke steps, each non-revoked invite's member is a peer |
| Membership.RecordsSurvive | src/product/invites.rs:43-265 | between any two points of a run, records stay in place and their flags only move forward |
| Membership.UnprovisionedPeersStay | src/product/invites.rs:76-90 | an endpoint never provisioned by a password invite is never removed by any run |
| Membership.ConfirmationExcludesExpiry | src/product/invites.rs:150-204 | over every run, confirmation and expiry of one invite exclude each other, whichever comes first |
| Membership.SweptEndpointsAreGone | src/product/invites.rs:185-246 | after a changing sweep, a password-admitted endpoint whose invites are all revoked and never confirmed is not a peer |
| Membership.SweepRemovesExactly | src/product/invites.rs:185-246 | whom a sweep removes, by the invites and the time alone: nobody when nothing is overdue, else exactly the peers with a pending provisioning invite that is revoked or overdue and with no other kind of invite |
| Membership.SweepsExactly | src/product/invites.rs:185-246 | the removal rule on the marked invites, in terms of the invites before the sweep |
| Membership.HandAddedPeerIsSwept | src/product/invites.rs:225-246 | a peer added by hand after its enrollment was revoked is removed when the enrollment of an unrelated node runs out |
| EnrollmentProtocol.EnrollmentAgreement | src/password_enrollment/workflow.rs:12-80 | in every run with loss, crashes, retries and sweeps, a member that cleared its pending mark is confirmed at the authority, revoked only if the operator did it, and otherwise a peer exactly once |
| EnrollmentProtocol.SectionsSerialise | src/password_enrollment/server.rs:315-432 | however handlers interleave, the records are the logged transactions applied one after another, no handed-out ticket lacks its record, and a rolled-back invite was never issued or confirmed |
| EnrollmentProtocol.ActKeeps | src/password_enrollment/server.rs:315-447 | every step of every task and member keeps the protocol invariant |
| EnrollmentProtocol.RunKeeps | src/password_enrollment/server.rs:315-447 | so does every run |
| EnrollmentProtocol.CommitKeepsPending | src/product/invites.rs:150-180 | only a confirmation of that very invite ends its pending state |
| EnrollmentProtocol.CommitKeepsUnrevoked | src/product/invites.rs:185-265 | a confirmed invite is revoked only by its rollback or by the operator |
| EnrollmentProtocol.AcceptedIsAdmitted | src/password_enrollment/server.rs:354-376 | an acceptance on the wire means a confirmed record and, unless the operator revoked it, one peer |
| EnrollmentProtocol.OutstandingCanComplete | src/password_enrollment/workflow.rs:21-40 | from every state with a free committer, an outstanding confirmation the authority would accept has a run that completes it |
| EnrollmentProtocol.CompletesExactly | src/password_enrollment/workflow.rs:21-40 | from every state the invariant allows, some run completes an outstanding confirmation if and only if its acceptance was sent or the authority would accept it now |
| EnrollmentProtocol.RefusedIsRefused | src/product/invites.rs:150-180 | a revoked or overdue pending invite is confirmed for nobody |
| EnrollmentProtocol.RefusedExactly | src/product/invites.rs:150-180 | for its own member an invite is refused if and only if it is revoked or pending and overdue |
| EnrollmentProtocol.RefusalIsKept | src/product/invites.rs:43-265 | no transaction makes a refused record confirmable again |
| EnrollmentProtocol.StrandedNeverCompletes | src/password_enrollment/workflow.rs:21-40 | a member whose invite is revoked or overdue, swept or not, with no acceptance sent stays pending in every continuation |
| JoinWorkflow.Workflow.JoinNetwork | src/password_enrollment/workflow.rs:12-80 | whatever others do while it waits, a call is a run of the protocol; success means nothing is pending and the authority admits that very invite; a call after completion is entirely local and fails only when its files cannot be read, an incomplete setup is refused, and retries keep identity and invite |
| JoinWorkflow.Workflow.FirstJoin | src/password_enrollment/workflow.rs:41-72 | a first call persists, enrolls, commits and confirms in this order, stopping at the first failure |
| JoinWorkflow.Workflow.AskConfirmation | src/password_enrollment/workflow.rs:25-38 | the confirmation is asked for with the local invite, and waiting leaves the member's own files alone |
| JoinWorkflow.Workflow.Enroll | src/password_enrollment/workflow.rs:41-50 | only a ticket for the persisted identity is taken up |
| JoinWorkflow.Workflow.Commit | src/product.rs:442-602 | the local commit joins with a pending mark exactly when the invite is still good and the bundle is written |
| JoinWorkflow.Workflow.ConfirmAndComplete | src/product.rs:604-623 | the pending mark is cleared exactly when an acceptance of this invite arrived and the save took effect |
| JoinWorkflow.CompletedIsAdmitted | src/password_enrollment/workflow.rs:12-80 | from every state the protocol allows, a completed member is admitted |
| JoinWorkflow.ElsewhereKeeps | src/password_enrollment/workflow.rs:12-80 | nobody else's steps change a host's own files |
| Listeners.ListenerSet.Reconcile | src/password_enrollment/server.rs:78-110 | the bind, handover and restore attempts end in the set the answers determine |
| Listeners.ListenerSet.Install | src/password_enrollment/server.rs:112-117 | a set replaces the old one only after its sockets report their addresses |
| Listeners.ListenerServer.Reconcile | src/password_enrollment/server.rs:165-174 | the server's configuration moves exactly with an accepted update, and the listener addresses are always the ones it asks for |
| Listeners.WildcardsAgree | src/password_enrollment/server.rs:455-497 | which sockets a configuration asks for: a wildcard of either family means the same pair, anything else itself |
| Listeners.ReconcileAllOrNothing | src/password_enrollment/server.rs:47-118 | an update leaves the asked-for set or the old one; a healthy set stays healthy if and only if the handover did not lose both |
| Listeners.LossIsSilent | src/password_enrollment/server.rs:78-110 | a lost set is not repaired by asking for the same addresses: the update is accepted and nothing listens |
| Listeners.WildcardIsLost | src/password_enrollment/server.rs:78-110 | a wildcard pair that moves to one address and is refused three times is lost, and asking for it again is accepted with nothing open |
| Supervisor.SupervisorSound | src/daemon.rs:138-405 | for every trace, at each turn of the active loop the running, published and listening configurations were one and no command was unanswered; every command taken has one reply in order but for the pending one; acknowledgements increase and ready events never go back; a pending reload and a recovery never coexist |
| Supervisor.LifeKeeps | src/daemon.rs:138-405 | the order behind it is kept from any state that has it, in either loop |
| Supervisor.LifeJoins | src/daemon.rs:138-405 | a life over two traces is the second lived where the first left off, in the loop it left off in |
| Supervisor.SurvivesExactly | src/daemon.rs:138-405 | the supervisor returns during a trace if and only if some event of it is fatal in the state and loop it meets |
| Supervisor.EndsExactly | src/daemon.rs:176-402 | which event ends the supervisor in which state, each loop by its own rule |
| Supervisor.SpentTimerIsFatal | src/daemon.rs:350-402 | from every steady state, a lease pass that finds nothing followed by another poll of the timer ends the supervisor |
| Supervisor.Supervise.Run | src/daemon.rs:138-405 | over every trace of events the nested loop lives the life the trace determines, with every observation of the three configurations and every reload command taken; so the active turns agreed, every command has its one reply in order, and a pending reload and a recovery never coexist |
| Supervisor.Supervise.RunActive | src/daemon.rs:263-403 | the active loop lives one event per turn and leaves the rest of the trace to be lived, observations and commands included |
| Supervisor.Supervise.Turn | src/daemon.rs:263-403 | one turn observes the three configurations, takes the command of a reload, moves as specified and stays in the loop exactly as specified |
| Supervisor.Supervise.TurnAt | src/daemon.rs:263-403 | the turn at one event leaves the rest of the trace |
| Supervisor.Supervise.ServeReload | src/daemon.rs:288-332 | a reload is taken once and answered at once or left pending with the previous generation kept for rollback |
| Supervisor.Supervise.ExpireLeases | src/daemon.rs:350-402 | a lease expiry leads to the next generation with reconciled listeners, or ends the supervisor |
| Supervisor.Supervise.PollLease | src/daemon.rs:350-402 | a poll of the lease timer: the end when it has already completed, nothing when no lease is over, else an expiry |
| Supervisor.Supervise.RecoverRuntime | src/daemon.rs:265-279 | a data plane that ends by itself is rebuilt as the next generation |
| Supervisor.Supervise.StartupReady | src/daemon.rs:218-237 | a started generation is published, a pending reload acknowledged with the next number, and the ready event announced |
| Supervisor.Supervise.StartupFailed | src/daemon.rs:185-216 | a failed start rolls a pending reload back, retries a recovery, or ends |
| Supervisor.Supervise.RollBack | src/daemon.rs:186-206 | the pending client is refused once, and the previous generation and its listeners return |
| Supervisor.ReloadAllOrNothing | src/daemon.rs:185-332 | from a steady state a reload ends steady with the new configuration and an acknowledgement, or with everything as before and a refusal, or the supervisor has given up |
| Supervisor.ReadyKeeps | src/daemon.rs:218-237 | starting a generation keeps the reply discipline: one reply per command in order, growing acknowledgements |
| Coordination.ActiveConsistency | src/daemon.rs:185-401 | in every reachable active state the running, published and listening configurations agree, a pending reload and a recovery never coexist, and without a double handover failure the open sockets are the configured ones |
| Coordination.NoDeadlock | src/password_enrollment/server.rs:157-216 | in every reachable state, whoever a blocked client waits on, for the committer, for room in the command channel or for its reply, can step itself, or the supervisor, listener loop or runtime can |
| Coordination.BlockedCanMove | src/password_enrollment/server.rs:434-447 | the same from the invariant alone, for any number of handlers and control clients |
| Coordination.ChainCanMove | src/daemon.rs:263-349 | while a command is queued or served, the supervisor, the listener loop or the runtime has a step |
| Coordination.UnblockedSteps | src/password_enrollment/server.rs:315-447 | a client can take its own step if and only if it is not blocked |
| Coordination.ServiceAdvances | src/daemon.rs:263-349 | no client step delays the command being served, and each effective supervisor, listener or runtime step brings its reply nearer |
| Coordination.BoundedService | src/daemon.rs:263-349 | a dequeued reload is answered within nine effective steps of the chain, however many steps clients take |
| Coordination.BoundedWait | src/daemon.rs:138-405 | while a command waits for its reply, the chain takes at most eleven effective steps for each place before it in the queue, ten for what is going on, and six for each crash or lease expiry in between |
| Coordination.RunKeeps | src/daemon.rs:138-405 | every interleaving keeps the wait-for invariant |
| Refinement.SupervisorRefined | src/daemon.rs:138-405 | for every interleaving there is a trace whose sequential life sends as many replies, has ended exactly when the supervisor has, and otherwise agrees with it on configurations, pending reload, recovery and listeners |
| Refinement.RunTracked | src/daemon.rs:138-405 | the trace is built action by action, from every state the two models agree on |
| EventLog.EventLog.PublishEvent | src/control.rs:75-100 | an event gets the next cursor and joins the history; the log retains exactly the newest events |
| EventLog.EventLog.Bounds | src/control.rs:102-111 | the reported cursors are the history's end and the first retained event |
| EventLog.EventLog.ReadAfter | src/control.rs:113-142 | the bounded log answers every cursor as the unbounded history would: invalid ahead of it, expired when the next event was evicted, else everything newer |
| EventLog.AfterIsOwed | src/control.rs:113-142 | the answer of the filter over the retained events is what the full history owes that cursor |
| EventLog.EvictedExactly | src/control.rs:92-95 | which cursors have lost their next event |
| EventLog.WatcherSound | src/control.rs:423-455 | under every interleaving of publishers and watchers, deliveries are the gap-free, duplicate-free run of history from the start cursor; a waiting watcher with events outstanding has a wake-up due, and with no publisher between push and notify has delivered everything |
| EventLog.ReadExactly | src/control.rs:432-455 | in every reachable state a read is refused as expired if and only if the next event has been evicted, and otherwise hands over everything after the cursor |
| EventLog.RunKeeps | src/control.rs:75-142 | every interleaving keeps log, history and watchers in agreement |
| Extensions.Apply | src/extensions.rs:127-196 | the loop over the request's items is the specified mutation, its rejections included |
| Extensions.Delete | src/extensions.rs:198-251 | likewise for deletion |
| Extensions.FinishMutation | src/extensions.rs:253-291 | generation, record and eviction are the specified ones; a dry run keeps the state |
| Extensions.EvictRecords | src/extensions.rs:279-283 | the eviction loop removes smallest keys until the table fits |
| Extensions.ListRoutes | src/extensions.rs:88-94 | the listing is the unexpired routes in key order |
| Extensions.NextExpiry | src/extensions.rs:317-323 | the earliest future expiry, or nothing when no lease ends |
| ExtensionRuns.LiveRoutesAdvance | src/extensions.rs:127-251 | a live key's route changes only to a larger revision |
| ExtensionRuns.GenerationCountsChanges | src/extensions.rs:253-291 | a persisted mutation raises the generation by one if and only if the route map changed |
| ExtensionRuns.RevisionsNeverDecrease | src/extensions.rs:127-313 | over every run under a non-decreasing clock, a key that stays live never loses revision, and its spec changes only with a larger one |
| ExtensionRuns.GenerationsCount | src/extensions.rs:127-313 | over a run the generation grows by exactly the number of changes of the route map |
| ExtensionRuns.RecordsKept | src/extensions.rs:253-291 | idempotency records never change while they are kept |
| ExtensionRuns.NewRecordKept | src/extensions.rs:253-291 | exactly when a new record survives its own insertion |
| ExtensionRuns.ReplaysExactly | src/extensions.rs:127-251 | after any run that retained the key, repeating the request returns its first result and changes nothing; a different request under the key is refused |
| ExtensionRuns.TableBounded | src/extensions.rs:279-283 | the idempotency table stays within its limit over every run |
| ExtensionRuns.SharedKeys | src/extensions.rs:424-426 | two routes share a key exactly when one is the other shifted across a slash |
| ExtensionRuns.IsolationExactly | src/extensions.rs:127-251 | an accepted request of another owner leaves an unexpired route alone if and only if none of its items reaches the route's key |
| ExtensionRuns.OwnersIsolated | src/extensions.rs:127-251 | with slash-free names one owner's request never changes another owner's unexpired routes |
| ExtensionRuns.OwnersIsolatedForever | src/extensions.rs:127-313 | the same over every run, until the lease ends |
| ExtensionRuns.SlashesBreakIsolation | src/extensions.rs:424-426 | a concrete owner deletes another owner's route through a slash |
| ExtensionRuns.DeletesByKey | src/extensions.rs:198-251 | a deletion takes the route under its joined key, whoever owns it |
| ExtensionRuns.ListingSteady | src/extensions.rs:317-323 | the listing does not change before the next expiry |
| ExtensionRuns.ListingChanges | src/extensions.rs:317-323 | at the next expiry it does |
| ExtensionRuns.ExpireExactly | src/extensions.rs:299-313 | an expiry pass finds nothing exactly when the listing omits no stored route, and otherwise returns exactly the omitted ones |
| Routes.RouteRegistry.Normalize | src/routes.rs:181-214 | the registry becomes the canonical one of the claims it denotes; a wrong version changes nothing and an empty owner empties it |
| Routes.RouteRegistry.Merge | src/routes.rs:126-129 | merging is the union of claims, normalized; a failed merge leaves what the draining loop left |
| Routes.RouteRegistry.Remove | src/routes.rs:131-146 | exactly the selected prefixes or owner go, and the count returned is what went |
| Routes.RegistryDenotes | src/routes.rs:181-214 | the canonical registry of a set of claims denotes that set |
| Routes.CanonicalUnique | src/routes.rs:181-214 | a canonical registry is determined by its claims |
| Routes.NormalizationIsCanonical | src/routes.rs:181-214 | normalizing keeps the claims, is idempotent, and gives equal results exactly for registries that denote the same set |
| Routes.CompositionCommutes | src/routes.rs:290-297 | the order of operator and extension routes does not matter |
| Routes.CompositionAssociates | src/routes.rs:290-297 | nor does the grouping of merges |
| Routes.EmbeddedMerged | src/routes.rs:302-317 | embedded routes join the dynamic ones as a union |
| Routes.EmbeddedAlone | src/routes.rs:302-309 | without dynamic routes the embedded ones are kept as written |
| Routes.RemovalExactly | src/routes.rs:131-146 | a claim survives removal exactly when it was there and not selected |
| Routes.RemovalKeepsCanonical | src/routes.rs:131-146 | removal keeps a canonical registry canonical |
| Ownership.ValidateOwnership | src/config.rs:976-1014 | the nested loops accept exactly the configurations without clash, duplicate, empty or disallowed prefix |
| Ownership.CheckOrigin | src/config.rs:989-1001 | one origin is accepted and its prefixes recorded exactly when they clash with no earlier owner |
| Ownership.CheckAdvertised | src/config.rs:1003-1014 | the local prefixes pass exactly when they clash with no remote one |
| Ownership.OverlapExactly | src/config.rs:1507-1510 | two prefixes overlap if and only if they share an address |
| Ownership.SharedMeansNested | src/config.rs:1507-1510 | prefixes that share an address are nested |
| Ownership.OwnershipUnambiguous | src/config.rs:976-1014 | a configuration passes if and only if its origins are well formed and every address has at most one owner among non-default remote prefixes and none beside a non-default local one |
| Buffers.PacketSlotPool.constructor | src/buffer.rs:123-152 | the pool starts with every buffer in one place, bounded, and every slot of full class length |
| Buffers.PacketSlotPool.DrainRecycled | src/buffer.rs:218-235 | the draining loop is the repeated single receive |
| Buffers.PacketSlotPool.Replacement | src/buffer.rs:184-205 | the replacement is the last buffer of the slot's own free list at class length, or a fresh zeroed one |
| Buffers.PacketSlotPool.Take | src/buffer.rs:184-205 | the slot is frozen for its reader and replaced from the free list of its class, or by a fresh zeroed buffer |
| Buffers.PacketSlotPool.RecycleEmpty | src/buffer.rs:207-216 | a slot regains its class length, in a fresh buffer if its own is too small |
| Buffers.RecyclingBytePool.constructor | src/buffer.rs:70-83 | the pool starts with every buffer in one place and within bounds |
| Buffers.RecyclingBytePool.DrainRecycled | src/buffer.rs:108-116 | the draining loop is the repeated single receive, up to the cache bound |
| Buffers.RecyclingBytePool.Build | src/buffer.rs:88-106 | an emptied slot with room is written and frozen, or returned when the writer fails |
| BufferRuns.SlotConservation | src/buffer.rs:184-235 | a step adds to the places only what it allocates and removes only what it frees; all else moves |
| BufferRuns.SlotRunKeeps | src/buffer.rs:184-235 | over every interleaving with readers, each buffer is in exactly one place and free lists and channel stay within their bounds |
| BufferRuns.TakeHandsOver | src/buffer.rs:184-205 | a buffer with readers is never handed out again, no other reader is disturbed, exactly the payload is shown, and the slot left behind has full class length |
| BufferRuns.ReadersUndisturbed | src/buffer.rs:25-40 | a reader's bytes stay what they are over every run, until it drops them |
| BufferRuns.DrainIsRun | src/buffer.rs:218-235 | the pool's draining is one of these runs |
| BufferRuns.CallsKeep | src/buffer.rs:179-235 | the pool's public calls keep ownership and bounds |
| BufferRuns.DropConserves | src/buffer.rs:25-31 | dropping frees a buffer exactly when the last reader meets a full channel |
| BufferRuns.ByteConservation | src/buffer.rs:88-116 | the conservation law for the record pool |
| BufferRuns.ByteRunKeeps | src/buffer.rs:69-117 | the same ownership and bounds over every run of the record pool |
| BufferRuns.BuildLikeFresh | src/buffer.rs:88-116 | after any run and the draining that comes first, a pooled build yields the bytes a fresh allocation would, in a buffer without readers, and disturbs no other reader |
| Packet.Ipv6TransportHeader | src/packet.rs:223-268 | the walk of eight turns equals the unbounded header chain, refused beyond seven extension headers, and never leaves the packet |
| Packet.TransportInside | src/packet.rs:223-268 | the transport header found lies inside the packet and is no extension header |
| Packet.DecrementHopLimit | src/packet.rs:97-124 | one hop in place succeeds exactly for well-formed packets with hops left, and otherwise touches nothing |
| Packet.OneHop | src/packet.rs:105-124 | a hop lowers the hop limit by one and changes no byte but it and the IPv4 checksum |
| Packet.HopKeepsInfo | src/packet.rs:97-187 | a hop changes nothing inspection reports, for both versions |
| Packet.HopKeepsChecksum | src/packet.rs:107-116 | the incremental update keeps the header checksum valid, and invalid ones invalid |
| Packet.ValidIsRecomputed | src/packet.rs:110-116 | a checksum is valid exactly when it is the recomputed one or the other zero of one's-complement arithmetic |
| Packet.Travels | src/packet.rs:97-187 | a packet survives n hops exactly when its hop limit exceeds n, and arrives with the limit lowered by n and the same description |
| Packet.TravelKeepsChecksum | src/packet.rs:97-124 | over any number of hops, for every header length, checksum validity is preserved both ways |
| Trace.ProbeAgrees | src/trace.rs:749-831 | on every accepted packet the probe parser stays in bounds and a recognised probe has the inspected addresses, protocol and ports |
| Trace.OutOfBoundsExactly | src/trace.rs:757-777 | exactly the packets on which the parser slices out of bounds, none of them accepted |
| Trace.ShortTotalLeavesBounds | src/trace.rs:757-777 | a packet of 24 bytes with a header length of 24 and a total length of 20 is one of them |
| Trace.ProbeTravels | src/trace.rs:749-831 | every hop of a path recognises the same probe, with that many fewer hops remaining |
| FileTransactions.FileSystem.AtomicWrite | src/deployment.rs:129-167 | a replacement happens or not as its fate says, never on a non-regular file |
| FileTransactions.FileSystem.RemoveIfExists | src/deployment.rs:298-310 | a removal happens or not as its fate says; an absent file is removed already |
| FileTransactions.FileSystem.CreateNew | src/identity.rs:60-104 | a new file is created with its text, or is not, or is left with whatever was written when it failed |
| FileTransactions.FileSystem.RemoveCreated | src/identity.rs:251-269 | only a file that still holds what was created is removed |
| FileTransactions.FileSystem.CaptureAll | src/deployment.rs:222-234 | one snapshot per distinct path in order, or none at all |
| FileTransactions.FileSystem.RestoreSnapshots | src/deployment.rs:243-258 | the snapshots are restored last to first, going on after failures |
| FileTransactions.CaptureFaithful | src/deployment.rs:222-284 | the snapshots hold what the disk held and cover every path |
| FileTransactions.FailureLeavesNoTrace | src/deployment.rs:206-296 | if any write fails and the restores succeed, the whole disk is as before, contents and absences |
| FileTransactions.WritesInOrder | src/deployment.rs:206-209 | every disk a crash can leave during the writes is a prefix of them applied |
| FileTransactions.CrashPoints | src/deployment.rs:206-296 | at every crash point, restores included, each path holds its old state or contents the transaction writes there |
| Deployment.WriteSealedConfig | src/deployment.rs:206-209 | the text is written first, then its digest |
| Deployment.RollbackConfig | src/deployment.rs:97-123 | rollback is the specified transaction that exchanges the two texts |
| Deployment.MixtureLoads | src/product/storage.rs:172-187 | with a collision-free digest, half-written pairs load as the old text, the new text or an integrity error |
| Deployment.CrashIntegrity | src/deployment.rs:206-296 | so does the destination at every crash point of a sealing transaction |
| Deployment.RollbackSwaps | src/deployment.rs:97-123 | a committed rollback exchanges the two texts, each newly sealed, and nothing else |
| Deployment.RollbackTwice | src/deployment.rs:97-123 | two rollbacks are the identity if and only if both digests were written by a seal |
| Deployment.RollbackTwiceSeals | src/deployment.rs:97-123 | on a disk whose destination has no digest both rollbacks commit and the disk differs |
| Deployment.RollbackCommitsExactly | src/deployment.rs:97-123 | a rollback commits exactly when the previous text loads and is accepted, there is a text to replace, and its four writes are done |
| Deployment.RollbackAgain | src/deployment.rs:97-123 | a second rollback is refused exactly when the replaced text is not acceptable |
| Installation.InstallConfig | src/deployment.rs:25-75 | install is the specified transaction: its refusals, the identity plan, the captured files and their writes |
| Installation.InstallNew | src/deployment.rs:46-64 | a first install creates the identity, writes the sealed configuration, and takes both back when a write fails |
| Installation.InstallOver | src/deployment.rs:51-64 | a later install keeps the current text as the previous one before it writes the candidate |
| Installation.InstallLeavesNoTrace | src/deployment.rs:25-75 | an install that was refused or taken back leaves the disk as it was, identity included |
| Installation.InstallCrash | src/deployment.rs:25-75 | at every crash point of an install the destination loads as before, as the candidate, or not at all |
| Installation.InstallCommits | src/deployment.rs:25-75 | a committed install loads as the candidate, keeps the replaced text loadable as the previous one, and has an identity that suits it, unchanged if there was one |
| Installation.IdentityKept | src/identity.rs:58-104 | an identity that is there is never changed, whatever becomes of the install |
| TextSurvival.WritesKeepText | src/deployment.rs:51-56 | at every crash point of the writes the replaced text loads from the destination or the previous copy |
| TextSurvival.TextSurvivesExactly | src/deployment.rs:243-258 | so it does at every crash point of the restores, exactly unless the fates lose it |
| TextSurvival.InstallKeepsTextExactly | src/deployment.rs:25-75 | exactly when an install keeps the replaced text loadable at every crash point, by the disk and the fates of its writes |
| TextSurvival.FirstReplacementLoses | src/deployment.rs:243-258 | in a first replacement whose digest cannot be written, neither copy loads for a while |
| Storage.SaveTransaction | src/product/storage.rs:54-79 | configuration, digest and state are saved as one specified transaction |
| Storage.UpdateConfigTransaction | src/product/storage.rs:141-170 | a verified configuration is changed, checked and saved, or nothing is touched |
| Storage.SaveIsAtomic | src/product/storage.rs:54-170 | a save is all or nothing unless taking it back fails, and loads as old, new or error at every crash point |
| Storage.WriteBundleFiles | src/product/storage.rs:81-123 | the bundle's writes happen in the source's order inside one transaction |
| Storage.StateAppearsLast | src/product/storage.rs:81-123 | during a bundle without an earlier state file, also while it is taken back, the state file exists only beside a sealed configuration that verifies, provided the restores succeed |
| Storage.StateAppearsLastExactly | src/product/storage.rs:81-123 | in a first bundle the state file stands alone at some moment if and only if its write reported a failure after taking effect, its removal fails, and a removal of the digest or the configuration does not |
| Storage.WritesEnd | src/product/storage.rs:81-123 | the state file is there after failed writes exactly when its own write reported a failure after taking effect |
| Storage.StateLeftBehind | src/product/storage.rs:81-123 | a concrete failure of a restore leaves the state file without its configuration |
| Storage.BundleLeavesNoTrace | src/product/storage.rs:81-123 | a bundle that is rolled back leaves the disk as it was |
| ReverseDns.NoOverflow | src/dns.rs:31-68 | no address computation leaves the family's range |
| ReverseDns.SameLabelsSameBlock | src/dns.rs:41-81 | names with equal labels are the same aligned block of addresses |
| ReverseDns.DomainsDisjoint | src/dns.rs:31-84 | distinct domains of one prefix share no address |
| ReverseDns.ExactCover | src/dns.rs:31-84 | an address is in the prefix if and only if it is in one of its domains |
| ReverseDns.Coarsest | src/dns.rs:22-84 | a name that stays inside the prefix lies inside a single domain of it |
| ReverseDns.FewestNames | src/dns.rs:22-84 | no cover of the prefix by names has fewer names than the prefix has domains |
| JsonLine.Reader.ReadBoundedLine | src/json_line.rs:34-65 | the frame depends on the bytes alone, for every chunking; no more than the maximum is ever taken or buffered, and the stream then stands just past the line |
| JsonLine.Reader.ReadChunk | src/json_line.rs:39-64 | one turn of the read loop answers, or moves newline-free bytes from the stream to the line within the maximum |
| JsonLine.Reader.ReadMessage | src/json_line.rs:34-65 | a framed message shorter than the maximum is read back, and nothing after it |
| JsonLine.Reader.ReadMessages | src/json_line.rs:34-65 | any sequence of newline-free messages shorter than the maximum is read back exactly, for every chunking |
| JsonLine.RoundTripExactly | src/json_line.rs:17-65 | writing then reading succeeds if and only if the length is below the maximum; at exactly the maximum it is written and refused |
| JsonLine.ReadingIsExact | src/json_line.rs:34-65 | a line, its newline and the rest make up the stream again |
| JsonLine.FramesUnique | src/json_line.rs:17-32 | two message sequences with the same bytes are the same sequence |

## Left out

- Cryptography: keys, signatures, password proofs and digests are abstract; messages are honest and the digest is collision-free.
- Invite tokens and their hashes, payload encoding and signature checks.
- An authority that stops in the middle of a save: in the enrollment protocol a save takes effect or leaves the old records, which `Storage.SaveIsAtomic` derives when restores succeed.
- The listener server's loop and the control server's watch loop as methods: their turns are steps of `Coordination`, `EnrollmentProtocol` and `EventLog`, where they interleave with other tasks.
- Several join processes on one host.
- Separate command-line processes that edit state while the daemon runs: the operator's steps happen only when the committer is free.
- Manual peer edits and node removal inside enrollment runs.
- A listener loop that ends on an accept error, the connection limit and protocol timeouts.
- Counter saturation: generations are unbounded numbers, event cursors stay below the 64-bit limit.
- Concurrent route mutations through the control socket, and the decoding of extension route texts into origins.
- Identity provisioning inside sealing, a concurrent creator of an identity, and the directories, file modes, owners and temporary files of a replacement.
- Digests, texts and labels are sequences of characters or numbers: character encodings and the decimal or hexadecimal spelling of reverse-DNS labels are not modelled.
- The remaining field checks of configuration validation, address pools and NAT64 synthesis.
- The V2 wire protocol with its cells, error correction, reassembly and policies.
- DERP transport, sockets, TUN devices, D-Bus, routing-table commands and system services.
- The terminal interface, command schema, display formatting and metrics.
- EventLog.EventLog.PublishEvent: does not model the emission time, resource and data of an event, which nothing here depends on.
- Storage.StateAppearsLast: does not cover a restore that fails, where it is false; `Storage.StateAppearsLastExactly` has the exact condition for a bundle that meets none of its files, as its preflight ensures. The files of a bundle are taken to be different files.
- Trace.ProbeAgrees: covers the parsers only, not the asynchronous prober and responder.
