# Verified model of the gateway control protocol

This project models the parts of the Ashrix zero-trust access system whose correctness rests
on protocol state, and proves what they promise: the delivery of events from the control
plane to its gateways, the way of a policy from an administrator's request to a decision on
a gateway, and the stream code that gateways and connectors share. `dafny verify
dfyconfig.toml` (Dafny 4.11) checks the whole project.

| file | models |
|---|---|
| `Events.dfy`, `Delivery.dfy`, `Senders.dfy`, `Wakeup.dfy` | the event log of a gateway, compaction, delivery rounds, several senders at once, and the dispatcher's wakeups |
| `Glob.dfy`, `GlobSlashes.dfy`, `Rules.dfy`, `Authoring.dfy` | path patterns, the policy compiler and matcher, and the way from a request to a compiled policy |
| `Decisions.dfy`, `Engine.dfy`, `Publication.dfy` | the two-level index and the decision, the engine on its store, and publication to concurrent evaluations |
| `PolicyRepo.dfy` | the policy tables and the mutation log that the control plane writes |
| `PolicyLog.dfy`, `PolicySync.dfy`, `LateBundles.dfy` | the mutation log, delta and snapshot bundles, the gateway's durable store, and the protocol between them with overlapping handlers |
| `Gateway.dfy` | the engine in the protocol: decisions as verdicts on the mutation log |
| `Offline.dfy`, `AccessLog.dfy` | the gateway's reconnect loop and its access-log batcher |
| `Bytes.dfy`, `Frame.dfy`, `Socks.dfy`, `WebSocketStream.dfy` | frames, signed byte strings, the SOCKS5 front end, and messages as a byte stream |
| `Relay.dfy`, `Retry.dfy` | the two-way relay and the startup retry loop |
| `Wrappers.dfy`, `Sequences.dfy` | optional values and outcomes, sequences of sequences |

Code that changes objects in place is a class or a method with loops, proved against a
function or predicate that says what it means; concurrent code is a step machine in which
every step is atomic and any order may happen, and the results hold in every state of every
run. Signatures, CIDR parsing, credentials and what the outside world does are parameters.

What came out different from what the code or its documentation promises, with the exact
condition where the code meets it:

- A gateway refuses a whole bundle when one of its rules does not compile (`engine.go:268-273`),
  and nothing on the way into the log looks at the network texts of a policy. A policy with a text
  such as `10.0.0.1`, which is no CIDR, therefore blocks the gateway below it for good; deltas
  repeat every mutation, so correcting or deleting the policy later does not help
  (`PolicySync.UncompilableBlocks`, `PolicySync.ReportedCheckpointConvergesIff`). A first snapshot
  is refused as long as one such policy is live and enabled (`PolicySync.FirstSnapshotTakenIff`).
- Overlapping policy deltas are not harmless. The store refuses a repeated upsert of a live
  policy and a repeated delete (`store.go:200-221`), so a re-sent delta is accepted only when
  every repeated policy has been deleted since and is repeated from an upsert on
  (`PolicyLog.OverlapAcceptedIff`). A delete carries version 0 (`policy_repo.go:629-640`), so
  tombstones never guard against older versions. The document
  `docs/04-security/policy-integrity.md` says that a delta collapses redundant mutations; the
  code does not.
- Handlers of bundles run as goroutines and test the checkpoint before they apply, not when they
  do. As long as no overtaken bundle is taken, in particular if handlers run one at a time, the
  gateway is always at a prefix of the log (`PolicySync.GatewayIsAlwaysAPrefix`), and its decisions
  are verdicts on that prefix (`Gateway.DecideOnTheLog`). An overtaken bundle can bring a deleted
  policy back for good (`LateBundles.LateBundleRevivesPolicy`); `LateBundles.LateBundleHarmlessIff`
  says exactly when it does no harm.
- A snapshot bundle leaves disabled policies out, while deltas carry them and the engine never
  looks at `enabled` (`PolicyLog.SnapshotSyncsIff`, `PolicySync.HoldsEverythingIff`); a snapshot
  does not remove anything either (`PolicyLog.SnapshotOnSyncedStore`).
- An update writes the app resources into the place of the app subjects
  (`policy_repo.go:124-125`), which keeps the meaning exactly when
  `Authoring.UpdateKeepsSubjectsIff` says.
- The reconciliation of a fresh connection and the dispatcher's worker may both send. No event is
  skipped then (`Senders.NothingSkippedBySenders`), but an old revocation list can overtake a
  newer one (`Delivery.TwoSendersConvergeIff`, `Delivery.StaleRevocationList`). A gateway that
  restarts gets no revocation list that it acknowledged before
  (`Delivery.RestartedGatewayConvergesIff`), and the connectors of a HelloAck, read from the
  database earlier, overwrite newer ones sent before it (`Delivery.HelloAckConvergesIff`).
- A second connection of the same gateway can take the place of the first in the registry, and the
  end of the first then removes the second from it, which stays open and hears of no further event
  (`Wakeup.DisplacedConnectionMissesEvents`).
- An event that cannot be built blocks everything behind it (`Delivery.UnbuildableBlocks`).
- Slashes around a pattern are ignored except next to a lone star or to white space
  (`GlobSlashes.SlashesOnPattern`), and the pattern `/` matches nothing
  (`Glob.AcceptsSomethingIff`).
- Updates of the engine that overlap can leave an older index published
  (`Publication.OverlappingUpdatesConvergeIff`), and a checkpoint that cannot be read counts as 0
  (`Engine.PolicyEngine.HandlePolicyUpdate`).
- The reconnect loop has one path without a wait; only the time each attempt takes bounds it
  (`Offline.RepeatedAttempt`).
- After "no acceptable method" the SOCKS5 server reads on (`Socks.OnlySuchClientsGetThrough`).
- A relay reports only errors its copies ran into that do not count as end of stream, so one that
  is cancelled from outside, or whose stream fails with such an error, may report none although
  bytes are missing (`Relay.SilentEndingsIff`).

## Model

| member | source | states |
|---|---|---|
| `Events.CompactGatewayEvents` | internal/cp/events/event_repository.go:155-197 | the two-pass map algorithm returns exactly the recursive meaning of compaction: an event goes iff a later event repeats its SNAPSHOT command |
| `Events.CompactionKeeps` | internal/cp/events/event_repository.go:155-197 | compaction keeps sequence order, every ACTION event, exactly one (the newest) event per SNAPSHOT command, and the last event, so the last sent sequence covers all dropped ones |
| `Events.CompactMembers` | internal/cp/events/event_repository.go:155-197 | an event survives compaction iff it is in the log and nothing newer repeats its SNAPSHOT command |
| `Events.CompactAppend` | internal/cp/events/event_repository.go:155-197 | compacting after appending to a compacted list gives what compacting everything gives; compaction is idempotent |
| `Events.CompactionPreservesRegisters` | internal/gateway/grpc_client/stream.go:449-461 | handling the compacted list leaves the revocation list and the authorized connectors exactly as handling the whole list does |
| `Events.RegistersAreLast` | internal/gateway/grpc_client/stream.go:449-461 | after any list of commands each register holds what the last command of its kind said |
| `Events.ConnectorsAsListed` | internal/gateway/grpc_client/stream.go:449-461 | the connectors register holds an identifier iff the last list of connectors has it, with the status of its last entry there |
| `Events.EventRepository.CreateEvent` | internal/cp/events/event_repository.go:43-137 | a committed event gets the next sequence number and the mode of its command at the end of the log; a rolled back one leaves no trace; numbering stays gapless |
| `Events.EventRepository.Ack` | internal/cp/platform/cp_grpc/stream_handler.go:197-272 | an acknowledgement is refused iff negative or beyond the newest event; the stored cursor is the maximum of those accepted |
| `Events.SendInOrder` | internal/cp/events/dispatcher.go:108-174 | the send loop sends exactly the longest prefix that can be built and that the connection takes, in order, and succeeds iff that is the whole list |
| `Events.DeliverPending` | internal/cp/events/dispatcher.go:108-174 | a round appends to the stream exactly a prefix of the compacted list after the cursor, and succeeds iff it is the whole list |
| `Delivery.DispatcherRoundIsARun` | internal/cp/events/dispatcher.go:108-174 | whatever prefix a round sends is a continuation of any run of the delivery machine, so every result about runs holds of the dispatcher's rounds |
| `Delivery.DeliveryConverges` | internal/cp/events/dispatcher.go:108-174 | in every run (partial sends, failures, redelivery, late acknowledgements, events created meanwhile), once a round has sent its whole list the stream leaves the registers as every event the round saw would, and every ACTION event it saw has been sent |
| `Delivery.ActionsNeverLost` | internal/cp/events/dispatcher.go:108-174 | at every moment of every run the cursor covers no unsent ACTION event, and first deliveries of ACTION events happen in sequence order |
| `Delivery.CursorCoversSnapshots` | internal/cp/events/dispatcher.go:108-174 | at every moment of every run a snapshot whose newest event is at or below the cursor is in force in the stream |
| `Delivery.CursorIsHighestAck` | internal/cp/platform/cp_grpc/stream_handler.go:197-272 | in every run the cursor never goes back and stays at or above every event acknowledged |
| `Delivery.UnbuildableBlocks` | internal/cp/events/event_cmd.go:53-157 | an event whose command cannot be built blocks the gateway's log for good: nothing after it is sent and the cursor never reaches it |
| `Delivery.RoundCompletesIff` | internal/cp/events/event_cmd.go:53-157 | a round can send its whole list iff every unacknowledged event can be built; compaction never hides one that cannot |
| `Delivery.TwoSendersConvergeIff` | internal/cp/platform/cp_grpc/stream_handler.go:466-559 | when the reconciliation of a fresh connection and the worker send at once, every interleaving leaves the registers right iff no snapshot the first still has to send is out of date when the second reads the log |
| `Delivery.StaleRevocationList` | internal/cp/platform/cp_grpc/stream_handler.go:466-559 | a schedule of the two senders that leaves the gateway with a revocation list without the newest revoked serial |
| `Delivery.RestartedGatewayConvergesIff` | internal/cp/platform/cp_grpc/stream_handler.go:95-181 | registers live in memory while the cursor is durable: after a restart, the round of the reconciliation and the HelloAck that follows it, the revocation list is what the log says iff its newest event is above the cursor, or there is none, or the gateway holds its content already; the connectors are what the HelloAck read, so right iff that is what the newest event says |
| `Delivery.HelloAckConvergesIff` | internal/gateway/grpc_client/stream.go:357-361 | with a connectors event in the log, commands around a HelloAck that leave the connectors as the log says still do with it iff a connectors command follows it or what it read from the database is what the newest one says; it never touches the revocation list |
| `Delivery.HelloAckLists` | internal/gateway/grpc_client/stream.go:357-361 | after a HelloAck with nothing behind it the connectors register is as its list says |
| `Senders.NothingSkippedBySenders` | internal/cp/platform/cp_grpc/stream_handler.go:466-559 | with any number of senders at once (worker rounds and reconciliations), in every interleaving the cursor covers no unsent ACTION event and no unsent newest SNAPSHOT event, and first deliveries of ACTION events happen in sequence order |
| `Senders.DoneSenderLeavesNothing` | internal/cp/platform/cp_grpc/stream_handler.go:466-559 | whatever other senders do, once one is through with its list every ACTION event and every newest SNAPSHOT event it read has been sent |
| `Senders.SenderIsARound` | internal/cp/events/dispatcher.go:108-174 | a sender that nothing interrupts sends a prefix of the compacted list after the cursor, as far as it can be built, and leaves all else alone |
| `Senders.CursorIsHighestAck` | internal/cp/platform/cp_grpc/stream_handler.go:197-272 | with any number of senders the cursor is 0 or the highest acknowledgement so far, and never goes back |
| `Wakeup.OneWorkerPerGateway` | internal/cp/events/dispatcher.go:43-106 | in every interleaving of Wakeup callers a gateway with a channel has exactly one worker, and a waiting token can be taken as soon as that worker is back |
| `Wakeup.NoWakeupLost` | internal/cp/events/dispatcher.go:43-106 | every finished Wakeup is followed by an iteration that takes a token and looks for the connection after it, and reads the log if there is one |
| `Wakeup.NoRoundUnasked` | internal/cp/events/dispatcher.go:43-106 | in every interleaving the worker of a gateway has taken at most one token for each finished Wakeup, looked exactly once for each token, and read the log at most once for each look |
| `Wakeup.NoEventFallsThrough` | internal/cp/events/dispatcher.go:66-106 | in every interleaving with connections that test, register, displace each other, reconcile and go, once the worker is idle every event committed before a finished Wakeup was read by a later worker iteration or is covered by the reconciliation of the connection registered now |
| `Wakeup.DisplacedConnectionMissesEvents` | internal/cp/platform/cp_grpc/registry/registry.go:86-116 | an interleaving in which the end of a displaced connection takes its successor out of the registry: the worker then finds no connection, and an event is read neither by it nor for the connection still open |
| `Wakeup.OpenConnectionIsRegistered` | internal/cp/platform/cp_grpc/stream_handler.go:101-119 | if nothing comes between the test and the registration of a connection, every open connection is the registered one of its gateway |
| `Glob.MatcherIsExact` | internal/gateway/policy/glob.go:36-70 | the recursive matcher accepts iff the remaining segments can be cut into pieces that fit the pattern segments; the trailing `**` shortcut is sound and complete |
| `Glob.MatchMeaning` | internal/gateway/policy/glob.go:26-70 | a compiled pattern accepts a path iff it is match-all or covers the segments of the path |
| `Glob.TextMeaning` | internal/gateway/policy/glob.go:14-70 | read off the two texts: without white space at its ends a pattern is a lone star, with or without a slash before it, or its slash-separated segments cover those of the path |
| `Glob.SpacesAreBlanks` | internal/gateway/policy/glob.go:14-24 | the white space that is trimmed is the one of the Go library, character by character |
| `Glob.AdjacentStarsCollapse` | internal/gateway/policy/glob.go:45-56 | adjacent `**` segments anywhere in a pattern are one |
| `Glob.SlashesOnPathIgnored` | internal/gateway/policy/glob.go:30-34 | a leading or trailing slash on the path never changes the result |
| `GlobSlashes.SlashesOnPattern` | internal/gateway/policy/glob.go:14-24 | a slash before a pattern keeps the accepted paths iff the trimmed pattern is not `/*` and the pattern is blank or does not begin with white space; one behind it iff the trimmed pattern is neither `*` nor `/*` and the pattern is blank or does not end in white space |
| `Glob.AcceptsSomethingIff` | internal/gateway/policy/glob.go:14-34 | a pattern accepts some path iff trimming white space and then slashes leaves something; so `/` accepts no path, the root path included |
| `Rules.CompileNetworks` | internal/gateway/policy/engine.go:102-177 | both network lists and countries, or the first text that does not parse and the list it is in |
| `Rules.Compile` | internal/gateway/policy/engine.go:102-177 | succeeds iff every network text parses, and then yields the compiled form (an unspecified effect compiles to ALLOW, no methods to every method); else it names the first bad text of the allowed list, or of the blocked one |
| `Rules.MatchesSubject` | internal/gateway/policy/compiledpolicy.go:38-62 | groups must intersect; a non-empty user set decides before source apps are looked at |
| `Rules.MatchesResource` | internal/gateway/policy/compiledpolicy.go:64-93 | app, method and path selectors, each admitting everything when empty, the first two with a wildcard |
| `Rules.MatchesConditions` | internal/gateway/policy/compiledpolicy.go:95-169 | MFA level, posture, Tor, country, network and schedule conditions all hold |
| `Authoring.PartitionSubjects` | internal/cp/policy/policy_repo.go:66-78 | users, groups and apps in order; subjects of any other type are dropped |
| `Authoring.PartitionResources` | internal/cp/policy/policy_repo.go:80-93 | app ids, paths and methods in order; resources of any other type are dropped |
| `Authoring.BuildSnapshotFromRequest` | internal/cp/policy/policy_repo.go:95-121 | the stored document of a create request |
| `Authoring.BuildSnapshotFromPolicy` | internal/cp/policy/policy_repo.go:123-148 | the stored document of an update, with the app resources in the place of the app subjects |
| `Authoring.ConditionsRoundTrip` | internal/cp/policy/policy_distribution.go:376-413 | conditions come back from the stored document, and come back absent iff all four were absent |
| `Authoring.SnapshotRoundTrip` | internal/cp/policy/policy_distribution.go:320-374 | reading a stored document returns every part that was written, the time of creation included, except that no mutation id is ever written |
| `Authoring.MissingFieldsAreEmpty` | internal/cp/policy/policy_distribution.go:320-374 | a document with nothing in it gives the empty rule: whatever is missing counts as empty, the effect as none |
| `Authoring.TextsOnly` | internal/cp/policy/policy_distribution.go:429-441 | a list in a document gives exactly its texts; items of another kind are skipped |
| `Authoring.CreatePreservesMeaning` | internal/cp/policy/policy_repo.go:95-121 | for every create request, the policy that comes out of partition, snapshot, rule and compiler exists iff its networks parse, and then matches exactly the requests that the typed subjects, resources and conditions describe (webauthn meets every MFA level, push all but webauthn, totp only itself and the unknown ones), enabled, with the requested effect, tenant, priority and version |
| `Authoring.UpdateKeepsSubjectsIff` | internal/cp/policy/policy_repo.go:123-148 | an updated policy admits the principals its subjects describe iff it names a user or its app subjects are its app resources |
| `Authoring.UpdateKeepsTheRest` | internal/cp/policy/policy_repo.go:123-148 | everything else about an updated policy is as described: it compiles iff its networks parse, and then has its resources, conditions, effect, priority, tenant and version, and is enabled as asked |
| `Authoring.SelectorMeaning` | internal/gateway/policy/compiledpolicy.go:38-62 | a rule compiled from a subject selector admits exactly the principals that selector lists |
| `Authoring.SameAdmissionIff` | internal/gateway/policy/compiledpolicy.go:38-62 | replacing the app list of a selector changes nothing for any principal iff a user is named or the two lists have the same members |
| `Decisions.BuildIndex` | internal/gateway/policy/engine.go:179-209 | the two-level index holds, for every tenant and app, exactly the compilable rules filed there, in rule order |
| `Decisions.CandidatesAreFlatSelection` | internal/gateway/policy/engine.go:336-344 | the candidates of a lookup are exactly the tenant's compilable policies whose app selector admits the app, each as often as it is listed |
| `Decisions.CandidateMembers` | internal/gateway/policy/engine.go:336-344 | looking only at candidates loses no applying policy and adds none |
| `Decisions.SortByPriority` | internal/gateway/policy/engine.go:346-349 | a permutation in descending priority |
| `Decisions.FirstMatch` | internal/gateway/policy/engine.go:351-400 | the first matching policy of an effect in the sorted list exists iff any matches, and none that matches outranks it |
| `Decisions.Evaluate` | internal/gateway/policy/engine.go:315-414 | DENY by a top matching DENY if any policy of the tenant that applies denies, else ALLOW by a top matching ALLOW, else default DENY: the verdict of a flat scan over every compiled rule |
| `Decisions.DecisionNamesARule` | internal/gateway/policy/engine.go:351-414 | field by field: if any rule applies, the decision carries the policy id, mutation id, version, effect and reason of one that applies, denies if any does, and is outranked by none of its effect; else those of the default DENY; user, app and tenant are always the request's |
| `Decisions.VerdictIgnoresRuleOrder` | internal/gateway/policy/engine.go:346-400 | for every permutation of the rules the same decisions are verdicts |
| `Decisions.OtherTenantsIrrelevant` | internal/gateway/policy/engine.go:336-344 | rule lists that agree on the rules of a tenant decide alike for it, whatever other tenants' rules they hold |
| `Decisions.DenyIsFinal` | internal/gateway/policy/engine.go:360-379 | a request that some rule denies stays denied by a rule whatever rules are added, at whatever priority |
| `PolicyRepo.PolicyRepository.Create` | internal/cp/policy/policy_repo.go:154-278 | a new policy enters the tables at version 1 and enabled, with one legal mutation more in the log, or nothing changes |
| `PolicyRepo.PolicyRepository.Update` | internal/cp/policy/policy_repo.go:445-599 | a live policy gets the change merged in at its next version, with one legal mutation more; any other is not found and nothing changes |
| `PolicyRepo.PolicyRepository.Delete` | internal/cp/policy/policy_repo.go:605-659 | a live policy leaves the tables with one legal mutation more, which repeats its newest document without a version; any other is not found |
| `PolicyRepo.UpsertKeeps` | internal/cp/policy/policy_repo.go:445-599 | the log stays legal, and the policies it amounts to stay exactly those of the tables, part by part |
| `PolicyRepo.DeleteKeeps` | internal/cp/policy/policy_repo.go:605-659 | the same for a deletion |
| `PolicyRepo.ChangesWhatItNames` | internal/cp/policy/policy_repo.go:445-505 | an update changes every part it names to what it says and no other part |
| `PolicyLog.KeyTextIsInjective` | internal/gateway/policy/store/store.go:68-71 | tenant and policy id joined by a slash identify both, if tenant ids contain no slash |
| `PolicyLog.BoltStore.ApplyDelta` | internal/gateway/policy/store/store.go:162-257 | records are applied in order with the version and tombstone checks, all of them with the checkpoint or none at all |
| `PolicyLog.BundleTakenIff` | internal/gateway/policy/store/store.go:162-257 | any records on any store are taken iff each names a policy and a known operation and may follow the last one of its policy (versions go up, nothing is deleted twice); each policy is then what its last record makes of it and every other one is untouched |
| `PolicyLog.SinceIsSuffix` | internal/cp/policy/policy_repo.go:665-701 | the mutations after a sequence are a suffix of a log numbered in order |
| `PolicyLog.CleanDeltaConverges` | internal/gateway/policy/store/store.go:162-257 | the store always accepts a delta that starts where it stands, which brings it to the end of the delta, so consecutive deltas compose; a policy the first snapshot left out arrives with its first mutation |
| `PolicyLog.OverlapAcceptedIff` | internal/gateway/policy/store/store.go:162-257 | the store accepts a delta that repeats mutations it has iff every repeated policy is deleted by now and is repeated from an upsert on; if accepted it converges, if not the store refuses every longer delta from the same point too |
| `PolicyLog.LiveOverlapRefused` | internal/gateway/policy/store/store.go:200-221 | a delta that repeats a mutation of a policy that is still live is refused |
| `PolicyLog.SnapshotSyncsIff` | internal/cp/policy/policy_distribution.go:128-172 | the records of a snapshot bundle fill an empty store with the live policies but for the disabled ones, so with all of them iff none is disabled |
| `PolicyLog.SnapshotOnSyncedStore` | internal/gateway/policy/store/store.go:162-257 | a filled store accepts the records of a snapshot iff every policy among them changed since, and then the policies deleted or disabled meanwhile stay |
| `PolicySync.DeliverIff` | internal/gateway/grpc_client/stream.go:515-553 | a bundle that ends at or above where the gateway stands is taken iff all its records compile and its overlap is replayable, and the gateway then stands where the bundle ends |
| `PolicySync.GatewayIsAlwaysAPrefix` | internal/gateway/grpc_client/stream.go:515-553 | from the first snapshot on, in every run of lost, late, refused and reordered bundles and acknowledgements with overlapping handlers in which no overtaken bundle is taken, the policies on the gateway are exactly those of the log up to its checkpoint but for untouched ones that were disabled at the snapshot, and the checkpoint never moves back |
| `PolicySync.OneAtATimeIsSafe` | internal/gateway/grpc_client/stream.go:515-553 | if handlers run one at a time no overtaken bundle is ever taken, so the gateway always holds such a prefix |
| `LateBundles.LateIff` | internal/gateway/policy/store/store.go:162-257 | a bundle that ends at or below where the gateway stands is taken iff it starts over only policies deleted by now; it then puts exactly those back to where they were |
| `LateBundles.LateBundleHarmlessIff` | internal/gateway/grpc_client/stream.go:515-553 | with one handler left, if the gateway holds what its checkpoint says in every continuation with handlers one at a time, then that handler's bundle was not overtaken, or is refused, or puts back only what nothing above it has changed and either deletes what it brings or comes below a mutation that does not compile; if one of these holds and nothing is in flight, the gateway does hold it |
| `LateBundles.LateBundleRevivesPolicy` | internal/gateway/grpc_client/stream.go:282-292 | a run of two overlapping handlers that reaches a state in which a late bundle brings a deleted policy back |
| `PolicySync.HoldsEverythingIff` | internal/cp/policy/policy_distribution.go:128-172 | a live policy is missing on the gateway iff it was live but not enabled at the first snapshot and is untouched since; the gateway holds every live policy iff every policy disabled then has been touched |
| `PolicySync.ReportedCheckpointConvergesIff` | internal/cp/policy/policy_distribution.go:115-126 | in every such run the delta from the checkpoint can be sent, and if it arrives and is handled with nothing in between, it brings the gateway to the end of the log, which is reported, iff every mutation above the checkpoint compiles; otherwise all is as before |
| `PolicySync.UncompilableBlocks` | internal/gateway/policy/engine.go:254-285 | a mutation that does not compile blocks the gateway for good: in every run, overlapping handlers included, the checkpoint never passes it and nothing above it is ever reported, whatever is written to the log later |
| `PolicySync.FirstSnapshotTakenIff` | internal/gateway/policy/engine.go:254-285 | a gateway takes its first snapshot iff every live enabled policy compiles, and then holds exactly those |
| `PolicySync.FurtherSnapshotTakenIff` | internal/gateway/policy/engine.go:254-285 | a snapshot on a filled gateway is taken iff every policy in it compiles and changed since |
| `Gateway.HandleDelta` | internal/gateway/grpc_client/stream.go:515-553 | the engine's handler, on its own, on a signed delta moves store and checkpoint exactly as the protocol's handler does, and an index in agreement with the store stays so |
| `Gateway.DecideOnTheLog` | internal/gateway/policy/engine.go:315-414 | in every run in which no overtaken bundle is taken, a decision of the gateway is the flat verdict on the policies of the log up to its checkpoint (but for untouched ones that were disabled at the snapshot), none of them skipped |
| `Gateway.EffectOnTheLog` | internal/gateway/policy/engine.go:315-414 | such a decision is ALLOW iff some policy the gateway holds of the log compiles to an ALLOW that applies to the request, and none to a DENY that does |
| `Engine.ApplyKeepsStore` | internal/gateway/policy/engine.go:254-285 | applying records that compile keeps every stored policy compilable and under its own key |
| `Engine.NothingSkipped` | internal/gateway/policy/engine.go:179-209 | when every rule compiles the index leaves none out |
| `Engine.ListingsAgree` | internal/gateway/policy/engine.go:286-307 | the verdict on the stored policies does not depend on the order they are listed in |
| `Engine.PolicyEngine.constructor` | internal/gateway/policy/engine.go:35-100 | the bootstrap goes through iff the store can be read and every stored signature verifies; the engine then serves exactly what is stored; with no stored policy its version is 0 whatever the checkpoint says |
| `Engine.PolicyEngine.UpdatePolicies` | internal/gateway/policy/engine.go:254-307 | records are persisted iff every one verifies, compiles and passes the store's checks; a refused update changes neither store nor index; a taken one is published unless the store cannot be read back |
| `Engine.PolicyEngine.ApplyVerifiedDelta` | internal/gateway/policy/engine.go:240-252 | as UpdatePolicies, for bundles whose own signature verifies; any other changes nothing |
| `Engine.PolicyEngine.HandlePolicyUpdate` | internal/gateway/grpc_client/stream.go:515-553 | a bundle not above the checkpoint, one whose signature fails, and one with a record whose signature or networks fail change nothing; every acknowledgement carries the checkpoint then stored and is sent iff there is room in the queue; the checkpoint goes back iff it could not be read and an older bundle was taken |
| `Engine.PolicyEngine.Decide` | internal/gateway/policy/engine.go:315-414 | a decision is the flat verdict on the rules last published |
| `Engine.DecisionIsOnStoredPolicies` | internal/gateway/policy/engine.go:315-414 | while index and store agree, a decision is the flat verdict on the stored policies, none of them skipped |
| `Publication.EvaluationsSeeOneStoreState` | internal/gateway/policy/engine.go:286-322 | in every interleaving of updates and evaluations, each evaluation decides on two maps built from one committed store state |
| `Publication.EvaluationAlone` | internal/gateway/policy/engine.go:315-344 | an evaluation that nothing interrupts, while no update swaps, decides on the two maps that are published and leaves everything as it was |
| `Publication.UpdatesPublishTheirOwn` | internal/gateway/policy/engine.go:286-307 | in every interleaving an update that is about to release the lock has published both maps it built and the version it came with |
| `Publication.SerialUpdatesStayFresh` | internal/gateway/policy/engine.go:286-307 | with updates one at a time the published index never goes back and, between updates, is that of the newest store state |
| `Publication.OverlappingUpdatesConvergeIff` | internal/gateway/policy/engine.go:286-307 | from a reachable state with no lock held, every schedule of the updates under way ends on the newest store state iff the index is the newest and at most one update, not yet committed, is under way, or some are under way, all committed, and those that have read the store back hold its newest state |
| `Publication.OverlappingUpdatesGoStale` | internal/gateway/policy/engine.go:286-307 | while one update has not committed, any other one can read the store back before it and publish after it, and an older index stays |
| `AccessLog.EveryEntryIsSomewhere` | internal/gateway/logging/access_logger.go:99-267 | in every interleaving of writers, start, stop, close and any number of flushers, the entries offered are exactly those in a writer's hand, queued (at most 1024), dropped, in a batch, accepted, or lost at a final flush; none is in two places or accepted twice |
| `AccessLog.SentInQueueOrder` | internal/gateway/logging/access_logger.go:177-259 | each flusher hands over entries in the order it took them; a single one in queue order |
| `AccessLog.LostOnlyAtStop` | internal/gateway/logging/access_logger.go:177-259 | entries are lost only by a flusher that was told to stop and has ended |
| `AccessLog.OutcomeDecides` | internal/gateway/logging/access_logger.go:177-259 | in every run the sender accepts entries from a flusher only when it sends (at a tick, at its end, or with 50 entries) successfully, and then exactly those in its hands; otherwise it keeps all of them, or loses exactly those if it ends |
| `AccessLog.DropsIffFull` | internal/gateway/logging/access_logger.go:99-127 | an entry is dropped iff 1024 are queued and joins the end of the queue otherwise; nothing else drops or queues one |
| `AccessLog.OpenTakesEveryEntry` | internal/gateway/logging/access_logger.go:99-127 | a closed logger takes no entry in and an open one every entry |
| `AccessLog.OnlyTheSessionGoesOn` | internal/gateway/logging/access_logger.go:129-175 | at every moment the only flusher that was not told to stop is that of the present session |
| `AccessLog.NothingPilesUp` | internal/gateway/logging/access_logger.go:177-259 | as long as every send goes through, no flusher ever holds 50 entries or loses one |
| `Offline.Run` | internal/gateway/grpc_client/stream.go:92-211 | the loop with its early returns, waits and cancellations in the middle of an iteration is the iterated transition function |
| `Offline.GivesUpExactlyWhenOffline` | internal/gateway/grpc_client/stream.go:92-211 | the loop gives up only when the offline period has passed since the last connected session ended, and at its top as soon as it has |
| `Offline.NeverMuchTooLate` | internal/gateway/grpc_client/stream.go:92-211 | when connections only fail within their deadlines, the loop is over by the offline period plus one retry interval (or the longest failing stream opening) |
| `Offline.AttemptsAreBounded` | internal/gateway/grpc_client/stream.go:92-211 | in every run of failing attempts, whatever renewals come between, each takes its duration and its wait off the remaining time; while the loop goes on all but the last have cost less than the period, and the number that waited is bounded |
| `Offline.KeepsTrying` | internal/gateway/grpc_client/stream.go:92-211 | in every run of attempts that nobody cancels, connected or not, the loop goes on as long as none has left the gateway offline for the whole period, and each took exactly its own time and, unless it renewed and reconnected, five seconds |
| `Offline.FailingLoopKeepsPace` | internal/gateway/grpc_client/stream.go:92-211 | attempts that only fail: the loop is still at it when they have taken less than the period, at exactly the time they took, five seconds of waiting each |
| `Offline.IterationEnds` | internal/gateway/grpc_client/stream.go:92-211 | after any run, an iteration gives up iff the gateway has been offline for the whole period at its top or before it would wait, and ends without an error iff the caller cancels before that, at that moment |
| `Offline.RepeatedAttempt` | internal/gateway/grpc_client/stream.go:92-211 | one failing attempt repeated goes on for ever iff it renews, refreshes and takes no time at all; any other is bounded by the period over its duration and wait |
| `Frame.WriteFrame` | pkg/frame/frame.go:33-58 | a payload over 16 MiB is refused and nothing is written; any other is appended with its length |
| `Frame.ReadFrame` | pkg/frame/frame.go:60-79 | succeeds iff the stream starts with a whole frame of at most 16 MiB, and then leaves what follows |
| `Frame.DecodeExactly` | pkg/frame/frame.go:33-79 | a stream is read as a frame and a rest iff it is the encoding of that frame followed by that rest |
| `Frame.FrameLayout` | pkg/frame/frame.go:33-58 | a frame is four bytes of length, the highest first, and the payload |
| `Frame.TruncatedFrameIsRefused` | pkg/frame/frame.go:60-79 | no proper prefix of an encoded frame is read as a frame |
| `Frame.WriteFrames` | pkg/frame/frame.go:33-58 | a sequence of payloads is written as the concatenation of their encodings |
| `Frame.ReadFrames` | pkg/frame/frame.go:60-79 | any sequence of payloads written is read back identically and the following bytes stay |
| `Frame.RecordPreimageInjective` | internal/cp/policy/policy_distribution.go:244-252 | two records with the same signed bytes agree in sequence, operation, time and rule hash |
| `Frame.RecordLayout` | internal/cp/policy/policy_distribution.go:244-252 | byte by byte: sequence in eight bytes, operation in four, time in eight, each in two's complement with the highest byte first, then the rule hash |
| `Frame.BundlePreimageInjective` | internal/cp/policy/policy_distribution.go:254-264 | with signatures of one length, a bundle's signed bytes fix its last sequence, issue time and record signatures in order |
| `Frame.BundleLayout` | internal/cp/policy/policy_distribution.go:254-264 | byte by byte: last sequence, issue time and number of records in eight bytes each, then the signatures in order |
| `Frame.VariableLengthIsAmbiguous` | internal/cp/policy/policy_distribution.go:254-264 | without one length they do not: any bytes can be cut into different signature lists with the same signed bytes |
| `Socks.Negotiate` | internal/connector/socks/protocol.go:67-104 | accepts exactly well-formed greetings and answers with the chosen method; without username/password it answers "no acceptable method" and reports no error |
| `Socks.ReadUserPass` | internal/connector/socks/protocol.go:111-169 | reads exactly one username/password message and leaves the bytes after it |
| `Socks.ReadHost` | internal/connector/socks/protocol.go:211-258 | reads an IPv4, domain or IPv6 address by its type byte, and nothing else |
| `Socks.ReadConnectRequest` | internal/connector/socks/protocol.go:180-269 | reads exactly one CONNECT request and leaves the bytes after it |
| `Socks.GreetingExactly` | internal/connector/socks/protocol.go:67-104 | parsing a greeting undoes encoding it, and every accepted input is such an encoding |
| `Socks.UserPassExactly` | internal/connector/socks/protocol.go:111-169 | the same for username/password messages |
| `Socks.ConnectExactly` | internal/connector/socks/protocol.go:180-269 | the same for CONNECT requests with all three address types |
| `Socks.HandleConnection` | internal/connector/socks/server.go:112-262 | the tunnel stream is opened iff the client authenticated and sent a CONNECT (and the gateway can be reached), for the application that authenticated; every byte answered, success or failure, is stated |
| `Socks.AnswerTellsTheOutcome` | internal/connector/socks/server.go:112-262 | byte by byte: a client hears 5 and 2 iff it offered username/password and else 5 and 255, then 1 and 0 iff its credentials were accepted and else 1 and 1, then ten bytes with reply 0 iff the relay runs, 1 iff its request was none, 2 iff the gateway said no |
| `Socks.WellFormedClientGetsThrough` | internal/connector/socks/server.go:112-262 | every well-formed client script followed by anything gets through with its own name and destination, and what follows is left for the relay |
| `Socks.OnlySuchClientsGetThrough` | internal/connector/socks/server.go:112-262 | whoever gets a stream sent exactly such a script, though perhaps without offering the username/password method |
| `WebSocketStream.ByteReader.Read` | internal/connector/transport/websocket.go:157-169 | returns the front of what is left of a message and reports the end iff nothing is left |
| `WebSocketStream.WsNetConn.Read` | internal/connector/transport/websocket.go:125-139 | returns the next bytes of the concatenated messages; a read without bytes and without error happens iff the current message is used up; fails iff every message was finished |
| `WebSocketStream.ReadAll` | internal/connector/transport/websocket.go:118-169 | reading on with any non-empty buffers delivers every byte of every message in order, and ends |
| `Relay.ReturnsOnlyWhenBothEnded` | pkg/flow/flow.go:54-78 | what comes out of one stream is always a prefix of what went into the other; on return both directions have ended, both write sides are closed and both counts are exact |
| `Relay.FirstErrorWins` | pkg/flow/flow.go:43-52 | the error reported is the first real one given to setErr, and there is none iff neither direction ended in a real error |
| `Relay.FallbackNeverMatters` | pkg/flow/flow.go:80-86 | the second look at the errors after the wait never changes the result |
| `Relay.CleanReportMeansDelivered` | pkg/flow/flow.go:28-89 | no error and no cancellation from outside means that each direction passed on everything, unless its stream failed with an error that counts as end of stream |
| `Relay.EveryEndIsExplained` | pkg/flow/flow.go:28-89 | in every run a direction that ended without an error passed on everything unless its own source was closed, and an error is what its source or its destination failed with unless that stream was closed |
| `Relay.SilentEndingsIff` | pkg/flow/flow.go:28-89 | a relay that returns without an error may have passed on, in each direction, exactly the prefixes of what went in, and less than everything iff it was cancelled from outside or that stream failed with an error that counts as end of stream |
| `Relay.CancelledRelayReturns` | pkg/flow/flow.go:36-52 | from every reachable state in which a real error was noted or the caller cancelled, the relay alone, with both peers silent, takes a bounded number of steps, and when it can take no more it has returned and closed both streams |
| `Relay.HangsIff` | pkg/flow/flow.go:28-89 | a reachable state in which the relay cannot go on alone has not returned iff a direction waits for a silent peer while no real error was met and nobody cancelled; if it has returned both streams are closed |
| `Retry.RetryWithBackoff` | internal/connector/startup/retry.go:18-53 | success is reported only for an attempt that succeeded, cancellation only when the context or the wait was cancelled, and the wait after failure k is min(2^k, 60) seconds |

## Left out

- HTTP handlers, DTO mapping, CLI commands, the web front end, templates, loggers and telemetry: plumbing without a property of this kind.
- Certificate issuing and rotation, admin login, TOTP and token refresh: mostly library calls.
- Connector registry routing, health and heartbeats: bookkeeping that none of the modelled protocols reads.
- Event payloads as JSON and event UUIDs: a job is a value with its command, and an unknown command is one that cannot be built.
- Order in which a gateway handles commands: the handlers run as goroutines and acknowledge without saying whether they applied, so the delivery results are about the stream in the order sent, not about what is applied when it is acknowledged.
- Sequence numbers of policy mutations under racing writers: they are read outside the transaction (policy_repo.go:162 and 464); PolicyRepo is about writers that run one after the other.
- Columns of the policy tables that no bundle reads (who changed what, from where, old documents), and their constraints: whether a transaction goes through is a parameter. That a new policy's UUID was never used before is required.
- A snapshot of no policy carries sequence 0 (policy_distribution.go:157-159) and is ignored by the gateway, so PolicySync's first snapshot is one that holds a policy; the model does not exclude the other.
- Stored record timestamps and signatures: whether the signature stored with a policy verifies is a parameter; a record without a rule is not modelled.
- Rule sequence in the signed bytes: snapshotToRule never sets it, so the signed record sequence is always 0; the injectivity result is about the byte string as a function of its fields.
- The map of schedules is never filled by the code and every schedule counts as active; the model takes the set of schedule names as a parameter.
- JSON text of snapshots: documents are trees with an enumeration of keys, and times are kept as their texts.
- The time of evaluation, the gateway id in a decision, and the branch for an engine without an index.
- The sequence of a snapshot bundle is read after its policies are listed (policy_distribution.go:129-134), so a mutation in between is missing from a bundle that claims it; the model takes both at one moment.
- Snapshots sent to a gateway that has one already (a delta that finds no mutation falls back to one, policy_distribution.go:73-87): PolicySync starts at the first snapshot and sends deltas; what a further snapshot does is PolicySync.FurtherSnapshotTakenIff and PolicyLog.SnapshotOnSyncedStore.
- Write errors of the SOCKS5 replies, the frame writer and the WebSocket connection; deadlines; the text form of addresses; the access to the credential store beyond its verdict.
- Buffering inside io.Copy: the relay reads and writes chunks of any size.
- An update that cannot read the store back after its commit leaves the index stale; Publication assumes that it can.
- Rules.CompileNetworks: the error is the text at fault and its list, without the wording of the CIDR library.
- Rules.MatchesConditions: the reason of a failed condition is not modelled; no caller reads it (engine.go:364-365 and 385-386).
- Engine.PolicyEngine.HandlePolicyUpdate: handles one bundle on its own; overlapping handlers are the subject of PolicySync and LateBundles (store and checkpoint) and of Publication (index).
- AccessLog.SentInQueueOrder: says nothing about the order between two flushers, which the code does not fix.
