# Weftlyflow core, modelled and proved in Dafny

Weftlyflow runs workflows: directed graphs of nodes that pass lists of items along
connections. This project models its hardest parts and proves what they promise, for
every input, every run and every reachable state.

- **Engine** (`WorkflowGraphs`, `Dispatching`, `Runtime`, `Executor`): graph validation,
  Kahn's sort, and the readiness loop with fan-in, parallel connections, disabled, pinned,
  continue-on-fail and fatal nodes. `Digraphs` and `Worklists` hold the graph theory both
  worklists share. `Dataflow` states what a workflow means and `FanIn` when the order of
  completion shows in it; `Deliveries` states what every port received, `RunProperties` what every
  execution satisfies; `SubWorkflows` is the return value of a child run.
- **Leases and claims** (`LeaseStore`, `LeaderElection`, `Idempotency`, `Nonces`): protocols
  over a `SET NX EX` store, as state machines over all interleavings with a real-valued clock.
- **Triggers** (`Paths`, `WebhookRegistries`, `Triggers`, `Activations`,
  `ActivationReports`, `FreeKeys`, `Deactivations`, `Restarts`, `TriggerManagers`): path normalisation, the two-index route table,
  and activation mirrored by persisted rows.
- **Text forms** (`Tokenizer`, `Templates`, `Resolving`, `StateTokens`, `OAuthBaseString`): the `{{ }}`
  tokenizer against a grammar, signed state tokens, and the OAuth 1.0a base string.

Objects whose fields the source updates are classes; each method is proved equal to a
function on values, and the theorems are about those functions. Loops are loops.

## Where the code does not do what one would expect

Each of these is proved: the exact condition under which the code does what one would expect,
and a failing input or the whole failing family.

- A node with the empty id can fail fatally while the execution reads as a success, because
  the final status tests the failed id for truth. The status is right in every run of a workflow
  exactly when that node cannot abort the run (`StatusReportsFailure`, `FailSilently`).
- A port lists what its feeders routed to it in the order they completed. All topological orders
  list them alike exactly when any two feeders of one port are joined by a path
  (`ListedAlikeIff`, `TwoFeedersShow`); then every order records the same data
  (`OrderIndependence`), and otherwise two orders can record different data, unless pins or
  disabled nodes mask it (`OrderShows`).
- The write of a lock refresh or release can break leader exclusion, at once or later, when it is
  paused beyond the lease: a refresh exactly when its late write is answered, a release exactly
  when its late delete arrives while another instance leads or has a prompt write pending
  (`ExpireSafeIffPrompt`, `PausedRefreshBreaksExclusion`, `DeleteSafeIffNoneElse`, `HarmfulDelete`,
  `PausedReleaseBreaksExclusion`).
- A claim that gets no answer from the store is treated as won. Task bodies then stay disjoint in
  every later run exactly when no other worker runs that execution and a claim that outlasts the
  hard limit of the new body is left in the store, or there is no other worker at all
  (`UnansweredClaimSafeIff`, `SecondBodyStarts`).
- State tokens live 600 seconds and nonces are remembered for 600 seconds; since expiry is
  compared in whole seconds, single acceptance needs 601 (`TokensOneShotIff`,
  `ShippedConstantsAcceptTwice`).
- A state token with a character outside ASCII raises an encoding error instead of the documented
  state error, exactly when it also has a dot (`NotAsciiIff`).
- One pass of path normalisation can leave a slash at an end (`"-/a"` gives `"/a"`), although
  the module describes the result as having none. The stored webhook is then filed under another
  key than requests look up, and another webhook may answer them (`FixedIff`,
  `UserSpellingMatchesIff`, `AnotherWebhookAnswers`).
- A registration that reuses an entry id under another workflow leaves a stale key in the
  workflow index (`RegisterAgreesIff`, `ReusedIdLeavesStaleKey`).
- Job ids of two workflows can be equal exactly when one workflow id continues the other after a
  colon (`JobIdsMeetIff`).
- A webhook row that the registry refuses stays in the table, and a restart from those tables
  fails. That happens exactly when a webhook of the activated workflow has no key, or shares its
  key with a stored or spelled webhook of another path or method; other activation errors do no
  harm (`NoneRefusedIff`, `RestartEquivalenceIff`, `UnsupportedWebhookBlocksRestart`).
- Deactivating a workflow with a refused row can take another workflow's webhook away, exactly
  when the refused row has the key of that webhook (`DeactivateRemovesOwnIff`,
  `DeactivateTakesAnother`).

In two places the code does more than a comment says, and the code is followed: a repeated
connection is accepted and delivers its items again, although the workflow class calls it a
validation error (`RepeatedConnection`); a disabled node emits run data, although the node class
says it emits none (`DisabledPassesMain`).

## Model

| member | source | states |
|---|---|---|
| WorkflowGraphs.BuildNodeIndex | src/weftlyflow/engine/graph.py:158-165 | succeeds exactly when ids are distinct, mapping each id to its node; otherwise names the first repeated id |
| WorkflowGraphs.ValidateConnection | src/weftlyflow/engine/graph.py:204-210 | reports a fault exactly when an end is unknown, the source first |
| WorkflowGraphs.BuildAdjacency | src/weftlyflow/engine/graph.py:168-201 | on success both views list exactly the declared connections of each node in declaration order; otherwise the first connection with an unknown end is reported |
| WorkflowGraphs.IncomingSources | src/weftlyflow/engine/graph.py:178-201 | the incoming view has exactly the declared unique sources of a node, and is empty exactly for roots |
| WorkflowGraphs.OutgoingTargets | src/weftlyflow/engine/graph.py:178-201 | the outgoing view mirrors the incoming one: an edge p to n is in one exactly when p is a declared source of n |
| WorkflowGraphs.ChildrenByNode | src/weftlyflow/engine/graph.py:226-235 | every child of every node is listed exactly once, in declaration order of the nodes, however many connections join them |
| WorkflowGraphs.Relax | src/weftlyflow/engine/graph.py:240-243 | indegrees count the unfinished unique parents, and exactly the newly parentless children are queued, once each |
| WorkflowGraphs.KahnSort | src/weftlyflow/engine/graph.py:213-250 | succeeds exactly when there is no directed cycle, with the one topological order that takes roots and ties first in, first out by declaration, sorted by longest-path depth; otherwise the sorted offenders are exactly the nodes on or reachable from a cycle |
| WorkflowGraphs.Build | src/weftlyflow/engine/graph.py:90-106 | succeeds exactly on well-formed acyclic workflows and yields a graph with mirrored adjacency, topological order and exactly the parentless roots in declaration order; otherwise each kind of fault is reported exactly when it applies |
| Worklists.StepWorklist | src/weftlyflow/engine/graph.py:237-243 | one round of either worklist keeps: the done part is a legal order and the queue holds exactly the other nodes whose parents are done, once each |
| Worklists.StepLevelled | src/weftlyflow/engine/graph.py:237-243 | level order survives a round: depths never fall along done and queue, and the queue spans at most the next level |
| Worklists.StepFifo | src/weftlyflow/engine/graph.py:237-243 | a round that queues what it releases by rank keeps the order first in, first out |
| Worklists.FifoUnique | src/weftlyflow/engine/graph.py:237-243 | at most one topological order is first in, first out for given ranks |
| Worklists.DrainedIffClear | src/weftlyflow/engine/graph.py:245-248 | a drained worklist has done a node exactly when no cycle reaches it |
| Worklists.DrainedMeansDone | src/weftlyflow/engine/executor.py:138-176 | the ready queue of an acyclic graph cannot drain before every node has run |
| Worklists.LevelsLineUp | src/weftlyflow/engine/executor.py:308-314 | two level-sorted topological orders hold nodes of equal depth at every position |
| Digraphs.LevelBoundsPaths | src/weftlyflow/engine/graph.py:221-243 | no path that ends at a node is longer than its level |
| Digraphs.LevelIsReached | src/weftlyflow/engine/graph.py:221-243 | some path that ends at a node is exactly as long as its level |
| Dispatching.Dispatch.constructor | src/weftlyflow/engine/executor.py:271-285 | roots are seeded on main, pending holds the unique parents, the queue holds the roots |
| Dispatching.Dispatch.PropagateOutputs | src/weftlyflow/engine/executor.py:288-298 | the inputs become those after every outgoing edge has delivered, in order |
| Dispatching.Dispatch.AdvanceReadiness | src/weftlyflow/engine/executor.py:301-314 | pending and queue become those after every outgoing edge has been advanced, in order |
| Dispatching.DeliveredItems | src/weftlyflow/engine/executor.py:288-320 | each port of each node grows by exactly what the edges route to it |
| Dispatching.AdvanceReleases | src/weftlyflow/engine/executor.py:301-314 | with parallel edges too, pending drops exactly the finished node and the queue gains each released node once, in the order of the first connection that reaches it |
| Runtime.RunState.Record | src/weftlyflow/engine/runtime.py:66-70 | appends the run data under its node, keeps first-recorded order, caches outputs unless empty and errored |
| Runtime.RunState.MarkFailed | src/weftlyflow/engine/runtime.py:72-75 | remembers the failed node |
| Runtime.RunState.BuildExecution | src/weftlyflow/engine/runtime.py:77-89 | status is error exactly when a failed id is set and not empty |
| Executor.RunOne | src/weftlyflow/engine/executor.py:189-212 | disabled, pinned, successful and raising nodes produce their run data; exactly a fatal failure marks the run failed |
| Executor.HandleNodeException | src/weftlyflow/engine/executor.py:234-268 | continue-on-fail yields one error item on the first output; otherwise no items and the run is marked failed |
| Executor.TakeTurn | src/weftlyflow/engine/executor.py:138-176 | one turn of the loop runs the front of the queue, records it, and routes its outputs unless it was fatal |
| Executor.TurnKeeps | src/weftlyflow/engine/executor.py:138-176 | every turn keeps the loop invariant (legal FIFO schedule in level order, exact pending sets, inputs equal to what recorded nodes route, records solve the dataflow equations) and records one new node |
| Executor.DeliverOne | src/weftlyflow/engine/executor.py:165-170 | delivering a node's outputs brings every waiting node's port map up to date |
| Executor.RunGraph | src/weftlyflow/engine/executor.py:121-178 | terminates with every recorded node run once, after its parents, in level order, on what they routed to it; complete or stopped at its only fatal node |
| Executor.Run | src/weftlyflow/engine/executor.py:93-187 | returns an execution with those guarantees, on the given items or one empty item, exactly for well-formed acyclic workflows |
| Dataflow.SolvesPush | src/weftlyflow/engine/executor.py:146-155 | running one more ready node keeps the dataflow equations solved |
| Dataflow.SolutionIsMeaning | src/weftlyflow/engine/executor.py:121-176 | whatever solves the equations records the recursive meaning of every node |
| Dataflow.Determinacy | src/weftlyflow/engine/executor.py:288-320 | legal runs that list the feeders of each port alike record the same data |
| Dataflow.ReplaySolves | src/weftlyflow/engine/executor.py:121-176 | every legal order has a run, and it solves the equations |
| Dataflow.RepeatedConnection | src/weftlyflow/engine/graph.py:178-197 | a repeated connection leaves the graph as it is and delivers its items once more |
| FanIn.ListedAlikeIff | src/weftlyflow/engine/executor.py:288-314 | all topological orders list the feeders of every port alike exactly when any two feeders of one port are joined by a path |
| FanIn.OrderIndependence | src/weftlyflow/engine/executor.py:288-320 | with feeders joined by paths, every complete legal run records the same data |
| FanIn.OrderShows | src/weftlyflow/engine/executor.py:288-320 | in every workflow, two feeders of one port that no path joins make two legal orders record different data for some implementations, if they decide what they emit and the fed node depends on the port |
| FanIn.OrderBlindIff | src/weftlyflow/engine/executor.py:288-320 | without pins and disabled nodes, the order never shows in the data exactly when feeders of one port are joined by paths |
| FanIn.TwoFeedersShow | src/weftlyflow/engine/executor.py:288-298 | a workflow with two roots on one port fails the condition |
| Dataflow.Conserved | src/weftlyflow/engine/executor.py:288-320 | what a port receives is, as a multiset, the sum over its incoming connections, each delivered once |
| RunProperties.RunIsMeaning | src/weftlyflow/engine/executor.py:121-176 | every node of every execution records exactly once the recursive meaning over the graph, parents taken in completion order |
| RunProperties.RunEqualsAnyOrder | src/weftlyflow/engine/executor.py:121-176 | with feeders joined by paths, the FIFO loop records what any legal order would |
| RunProperties.RunConserves | src/weftlyflow/engine/executor.py:271-278 | the inputs a node ran on are those its parents routed to it: a root ran on exactly the seeds, any other node on exactly the items of its incoming connections, each counted once |
| Deliveries.PortDeliveries | src/weftlyflow/engine/executor.py:288-320 | each port of a node held, one after the other, the list at its source index that each connection into the port brought: every connection once, by completion of the sources and then by declaration |
| Deliveries.SingleWireDelivers | src/weftlyflow/engine/executor.py:317-320 | a port fed by one connection held exactly the list its source recorded at the source index, or nothing where there is none |
| RunProperties.OneRunOrder | src/weftlyflow/engine/executor.py:123-176 | all runs of a workflow record its nodes in one order, and a run that stops records the start of it |
| RunProperties.RootsFirst | src/weftlyflow/engine/executor.py:123 | roots are recorded first, in the order the workflow lists its nodes |
| RunProperties.ReleaseOrder | src/weftlyflow/engine/executor.py:301-314 | of two other nodes the one whose last parent was recorded first comes first, and with the same last parent the one that the earlier connection from it reaches |
| RunProperties.RecordedOutcome | src/weftlyflow/engine/executor.py:189-268 | case by case what a recorded node holds: main passed through, its pins, what its implementation gave, one error item, or nothing; and exactly which nodes stop a run |
| RunProperties.AbortSafety | src/weftlyflow/engine/executor.py:161-163 | a fatal node is the last recorded, has no items, none of its descendants ran, and everything recorded has its parents recorded |
| RunProperties.StatusReportsFailure | src/weftlyflow/engine/runtime.py:77-79 | in every run of a workflow whose empty-id node cannot abort it, the status is error exactly when some node failed fatally |
| RunProperties.FailSilently | src/weftlyflow/engine/runtime.py:77-79 | every other acyclic workflow has a run that fails at the empty-id node and reads as a success |
| RunProperties.DisabledPassesMain | src/weftlyflow/engine/executor.py:198-199 | a disabled node is recorded once and passes what its main port received on its first output |
| RunProperties.OrdersLineUp | src/weftlyflow/engine/executor.py:123 | Kahn's order and the run order hold nodes of the same longest-path depth at every position |
| SubWorkflows.CollectTerminalItems | src/weftlyflow/engine/subworkflow.py:110-134 | collects first outputs in run order, skipping sources of main-port connections |
| SubWorkflows.TerminalsAreSinks | src/weftlyflow/engine/subworkflow.py:122-126 | the collected nodes are the sinks of the graph exactly when every node with a connection out has one on main |
| SubWorkflows.ReturnsSinks | src/weftlyflow/engine/subworkflow.py:110-134 | a child run without fatal failure returns output 0 of every sink, each once, exactly in run order, which is level-sorted |
| LeaderElection.RedisLeaderLock.Acquire | src/weftlyflow/triggers/leader.py:73-84 | is the acquire step of the protocol on the shared store, failures included |
| LeaderElection.RedisLeaderLock.Refresh | src/weftlyflow/triggers/leader.py:86-104 | a failed read changes nothing and answers false; a vanished entry is taken over with a full lease, another owner makes the lock step down, the own entry is extended; and this is the read step followed at once by the write step |
| LeaderElection.RedisLeaderLock.Release | src/weftlyflow/triggers/leader.py:106-118 | drops the flag always and deletes the visible entry exactly when held, owned and reached; and this is the read step followed at once by the delete step |
| LeaderElection.RedisLeaderLock.IsLeader | src/weftlyflow/triggers/leader.py:120-122 | answers the last observed flag without touching the store |
| LeaderElection.StepKeepsInv | src/weftlyflow/triggers/leader.py:73-118 | any prompt step of any instance, failed commands included, keeps: a leader within its lease owns the stored entry at least until the lease ends |
| LeaderElection.LeaderExclusion | src/weftlyflow/triggers/leader.py:73-122 | in every state of every run with split reads and writes and failing commands, if writes follow within the lease, at most one instance leads and the store names it |
| LeaderElection.ExpireSafeIffPrompt | src/weftlyflow/triggers/leader.py:88-104 | after any prompt run, the write of a refresh keeps exclusion in every prompt run that follows exactly when it fails or comes before the entry its read saw runs out |
| LeaderElection.DeleteSafeIffNoneElse | src/weftlyflow/triggers/leader.py:106-118 | after any prompt run, the delete of a release keeps exclusion in every prompt run that follows exactly when it does not reach the server, or no other instance leads or has a prompt write pending by then; promptness ensures that |
| LeaderElection.HarmfulDelete | src/weftlyflow/triggers/leader.py:106-118 | a delete while another instance leads or has a prompt write pending leads to a state that is not exclusive |
| LeaderElection.TimelyRefreshKeepsLeading | src/weftlyflow/triggers/constants.py:12-14 | after any prompt run, a leader that refreshes within the refresh interval finds itself owner and leads again |
| LeaderElection.RefreshTakesOver | src/weftlyflow/triggers/leader.py:86-94 | after any prompt run, an idle instance that refreshes when no entry is visible leads, owns an entry with a full lease, and exclusion stays |
| LeaderElection.RefreshYields | src/weftlyflow/triggers/leader.py:95-97 | an instance that refreshes while another owns the entry gives up its flag and leaves the entry alone |
| LeaderElection.ReleaseHandsOver | src/weftlyflow/triggers/leader.py:106-118 | a leader that releases lets any other idle instance lead at once |
| LeaderElection.PausedRefreshBreaksExclusion | src/weftlyflow/triggers/leader.py:88-104 | a run with a refresh paused for one TTL in which two instances lead |
| LeaderElection.PausedReleaseBreaksExclusion | src/weftlyflow/triggers/leader.py:106-118 | a run with a release paused for one TTL in which two other instances lead |
| Idempotency.IdempotencyGuard.Claim | src/weftlyflow/worker/idempotency.py:55-75 | wins exactly when no visible claim exists or the store gives no answer, and writes one if the store is reached |
| Idempotency.IdempotencyGuard.Release | src/weftlyflow/worker/idempotency.py:77-86 | deletes the claim whoever owns it; a failure is swallowed |
| Idempotency.StepKeepsInv | src/weftlyflow/worker/tasks.py:48-61 | every step with an answered claim, kills and failed releases included, keeps: the claim of each running body is its own and visible |
| Idempotency.ReleaseDeletesOwnClaim | src/weftlyflow/worker/tasks.py:60-61 | in every run the release meets a visible claim of the releaser's own |
| Idempotency.ClaimsDisjointIff | src/weftlyflow/worker/idempotency.py:27 | bodies of one execution never overlap in any run with answered claims if and only if the hard limit is below the claim TTL |
| Idempotency.UnansweredClaimSafeIff | src/weftlyflow/worker/idempotency.py:61-75 | after any such run, a claim without an answer keeps bodies disjoint in every later run exactly when the worker is alone, or no other worker runs that execution and the claim left in the store outlasts the hard limit of the new body |
| Idempotency.SecondBodyStarts | src/weftlyflow/worker/idempotency.py:61-75 | whenever the stored claim may run out before a running body does, a run exists in which a second body of the same execution starts |
| Idempotency.DefaultsAreSafe | src/weftlyflow/config/settings.py:119-127 | with the shipped limit and TTL bodies never overlap |
| Idempotency.SecondDeliveryRunsAgain | src/weftlyflow/worker/tasks.py:48-61 | a delivery after the release runs the same execution again |
| Nonces.InMemoryNonceStore.Consume | src/weftlyflow/auth/sso/nonce_store.py:80-91 | evicts lazily, answers and updates as the dict step |
| Nonces.RedisNonceStore.Consume | src/weftlyflow/auth/sso/nonce_store.py:127-139 | answers and updates as the `SET NX EX` step, and gives no answer on a store error |
| Nonces.SameAnswers | src/weftlyflow/auth/sso/nonce_store.py:80-139 | after any calls under a clock that never runs back, dict and Redis answer as a log that forgets nothing |
| Nonces.HandleCallback | src/weftlyflow/server/routers/sso.py:106-124 | a callback is honoured exactly when its token verifies, its nonce is a nonempty text and the store has not seen it |
| Nonces.NonceOfIff | src/weftlyflow/server/routers/sso.py:106-111 | the nonce a callback consumes is that of a verified token, exactly when it is a nonempty text |
| Nonces.StoresHonourAlike | src/weftlyflow/server/routers/sso.py:106-124 | over any callbacks both stores honour exactly what the full log would |
| Nonces.TokensOneShotIff | src/weftlyflow/auth/sso/state_token.py:55-58 | no made token, verified and consumed in any callbacks, is honoured twice by either store if and only if nonces are remembered one second longer than tokens live |
| Nonces.HonouredTwiceAtExpiry | src/weftlyflow/auth/sso/nonce_store.py:80-139 | at every site that remembers nonces no longer than tokens live, either store honours every made token at issue and at expiry |
| Nonces.ShippedConstantsAcceptTwice | src/weftlyflow/server/routers/sso.py:79 | with the shipped constants either store, at every site, honours every made token at issue and again in its last second |
| StateTokens.B64RoundTrip | src/weftlyflow/auth/sso/state_token.py:104-111 | re-padding and decoding inverts encoding and padding removal for every byte string |
| StateTokens.GroupSpells | src/weftlyflow/auth/sso/state_token.py:104-105 | four characters of the URL-safe alphabet spell the number that three bytes make |
| StateTokens.EncodeSpells | src/weftlyflow/auth/sso/state_token.py:104-105 | encoding goes group by group, and a short last group is filled with padding |
| StateTokens.EnvelopeSplits | src/weftlyflow/auth/sso/state_token.py:75-79 | the first dot of a token splits its payload from its signature |
| StateTokens.TokenRoundTrip | src/weftlyflow/auth/sso/state_token.py:67-97 | verifying a made token returns its claims while the expiry claim is fresh and reports expiry after |
| StateTokens.AcceptedIffSigned | src/weftlyflow/auth/sso/state_token.py:67-97 | a token is accepted exactly when it is the signed envelope of a payload with fresh claims |
| StateTokens.RefusalIs | src/weftlyflow/auth/sso/state_token.py:75-97 | which error a refused token gets: no dot, then foreign characters, signature, payload, expiry |
| StateTokens.PayloadHolds | src/weftlyflow/auth/sso/state_token.py:56-61 | a payload holds its nonce and expiry unless extra claims override them, every extra claim, and nothing else |
| StateTokens.MadeTokenLives | src/weftlyflow/auth/sso/state_token.py:36-64 | a token made without an expiry override is accepted up to and including its expiry second |
| StateTokens.NotAsciiIff | src/weftlyflow/auth/sso/state_token.py:75-85 | the encoding error that is no state error arises exactly for tokens with a dot and a character outside ASCII |
| Paths.ResultIsCanonical | src/weftlyflow/webhooks/paths.py:16-29 | every result is nonempty, in the alphabet and has no dash at either end |
| Text.BlanksAre | src/weftlyflow/webhooks/paths.py:23 | which characters stripping takes off, by code point |
| Paths.AlphabetIs | src/weftlyflow/webhooks/paths.py:13 | the canonical alphabet is letters, digits, dot, underscore, dash and slash |
| Paths.RunBecomesDash | src/weftlyflow/webhooks/paths.py:24 | every run of foreign characters becomes one dash and nothing else changes |
| Paths.NormalisePathIs | src/weftlyflow/webhooks/paths.py:23-29 | of any path in parts, blanks, then slashes, then dashes around the core are taken off |
| Paths.FixedIff | src/weftlyflow/webhooks/paths.py:23-29 | a result is a fixed point exactly when no slash is left at either end; otherwise the next result is shorter |
| Paths.NormalisationTerminates | src/weftlyflow/webhooks/paths.py:16-29 | repeated normalisation reaches a fixed point or the empty-path error |
| WebhookRegistries.WebhookRegistry.Register | src/weftlyflow/webhooks/registry.py:53-86 | files the entry under its normalised key in both indexes, or reports the fault and changes nothing |
| WebhookRegistries.WebhookRegistry.Unregister | src/weftlyflow/webhooks/registry.py:88-99 | removes and returns the entry at a key, dropping an emptied group |
| WebhookRegistries.WebhookRegistry.UnregisterWorkflow | src/weftlyflow/webhooks/registry.py:101-106 | drops every key of a workflow from both indexes and returns the removed entries, each once |
| WebhookRegistries.WebhookRegistry.Match | src/weftlyflow/webhooks/registry.py:108-115 | finds the entry at the normalised key, nothing for an empty path, and a fault for an unsupported method |
| WebhookRegistries.WebhookRegistry.Load | src/weftlyflow/webhooks/registry.py:128-137 | replaces the table; a refused entry leaves those before it registered |
| WebhookRegistries.MethodIff | src/weftlyflow/webhooks/registry.py:154-159 | a method is accepted exactly when it spells one of the seven names in any case, with blanks around it |
| WebhookRegistries.RefusedFor | src/weftlyflow/webhooks/registry.py:66-85 | a registration is refused for its path, then its method, then a key that another id holds, naming the holder; otherwise the entry is filed with every field kept |
| WebhookRegistries.RegisterAgreesIff | src/weftlyflow/webhooks/registry.py:76-86 | registering keeps the two indexes in agreement exactly when the key is new or belongs to the same workflow |
| WebhookRegistries.ReusedIdLeavesStaleKey | src/weftlyflow/webhooks/registry.py:76-86 | any entry registered again under another workflow leaves its key with both |
| WebhookRegistries.HistoryAgrees | src/weftlyflow/webhooks/registry.py:53-137 | after any operations, loads refused part way included, the workflow index is exactly the grouping of the key index if ids name one workflow |
| WebhookRegistries.LoadExact | src/weftlyflow/webhooks/registry.py:128-137 | a load of distinct ids that is not refused holds exactly those entries, one key each |
| WebhookRegistries.HistoryFiles | src/weftlyflow/webhooks/registry.py:66-86 | after any operations every entry is filed under its own path and method |
| WebhookRegistries.UserSpellingMatchesIff | src/weftlyflow/webhooks/registry.py:66-76 | over any history, the entry a request in the user's spelling finds is the webhook stored under its normalised path exactly when that path is a fixed point |
| WebhookRegistries.AnotherWebhookAnswers | src/weftlyflow/webhooks/registry.py:108-115 | for every path left with a leading slash there are two webhooks such that requests for one reach the other |
| Triggers.JobIdsMeetIff | src/weftlyflow/triggers/manager.py:264-265 | two workflows can share a job id exactly when one id continues the other after a colon |
| Triggers.JobIdInjective | src/weftlyflow/triggers/manager.py:264-265 | workflow ids that are apart in this sense keep all job ids apart |
| Triggers.AddScheduleIff | src/weftlyflow/triggers/manager.py:190-222 | a valid schedule keeps the jobs the mirror of the rows exactly when its job id is new |
| Triggers.MirrorUnique | src/weftlyflow/triggers/manager.py:141-159 | the tables determine the registry and jobs that mirror them |
| Triggers.DeactivateKeepsMirror | src/weftlyflow/triggers/manager.py:127-139 | deactivation keeps memory the mirror of the tables |
| Triggers.DeactivateRemovesExactly | src/weftlyflow/triggers/manager.py:127-139 | deactivation removes exactly the entries and jobs of that workflow |
| Triggers.RestartRebuilds | src/weftlyflow/triggers/manager.py:141-159 | loading the rows in any order into empty memory rebuilds exactly the mirrored memory |
| Triggers.RefusedBlocksLoad | src/weftlyflow/triggers/manager.py:141-159 | with a refused row among the stored ones, loading them fails in whatever order they come |
| TriggerManagers.ActiveTriggerManager.Activate | src/weftlyflow/triggers/manager.py:101-125 | registers every enabled trigger node in order and reports paths, job ids and failed nodes |
| TriggerManagers.ActiveTriggerManager.AddWebhookNode | src/weftlyflow/triggers/manager.py:161-188 | stores the row and registers it; a refused registration keeps the row |
| TriggerManagers.ActiveTriggerManager.AddScheduleNode | src/weftlyflow/triggers/manager.py:190-222 | stores a valid schedule and its job |
| TriggerManagers.ActiveTriggerManager.Deactivate | src/weftlyflow/triggers/manager.py:127-139 | unregisters the rows of the workflow in some order and drops rows and jobs, or stops at a row without a key before any table changes; on a mirrored state leaves exactly the world without that workflow |
| TriggerManagers.ActiveTriggerManager.WarmUp | src/weftlyflow/triggers/manager.py:141-159 | loads both tables in some order, stopping at a refused row or an invalid schedule; into an empty scheduler rebuilds any memory that mirrored the tables |
| TriggerManagers.InMemoryScheduler.AddJob | src/weftlyflow/triggers/scheduler.py:103-113 | stores a job exactly when it is a cron schedule with an expression or an interval schedule with a nonzero interval |
| TriggerManagers.InMemoryScheduler.RemoveJob | src/weftlyflow/triggers/scheduler.py:115-117 | drops the job if present |
| Activations.ApartMeansJobsFree | src/weftlyflow/triggers/manager.py:264-265 | a workflow whose id is apart from those of the stored schedules shares no job id with them |
| Activations.RegisterKeepsMirrorIff | src/weftlyflow/triggers/manager.py:161-188 | registering a webhook node under a new id keeps the mirror exactly when the registry accepts the row the table accepted |
| Activations.ActivateProgress | src/weftlyflow/triggers/manager.py:101-125 | activating an inactive workflow, errors included, adds only its rows, mirrors all but the refused ones, and reports exactly the paths and job ids of those |
| ActivationReports.ScheduleNodesActivated | src/weftlyflow/triggers/manager.py:190-222 | every enabled schedule node with a cron expression or a nonzero interval gets its row and its job with what its parameters say, and is reported; every other one is an error and has no row |
| ActivationReports.WebhookNodeActivated | src/weftlyflow/triggers/manager.py:161-188 | an enabled webhook or chat node without an addressable path, or stored already, is an error and changes nothing; otherwise its row, field by field, is stored, and reported if the registry accepts it |
| ActivationReports.OtherNodesPassedOver | src/weftlyflow/triggers/manager.py:105-114 | disabled nodes and nodes of other kinds are passed over |
| FreeKeys.NoneRefusedIff | src/weftlyflow/triggers/manager.py:161-188 | the activation stores no row that the registry refuses exactly when every webhook the workflow spells has a key and shares it only with stored or spelled webhooks of the same path and method |
| FreeKeys.ActivationKeepsMirrorIff | src/weftlyflow/triggers/manager.py:101-125 | activation keeps the mirror exactly when the keys the workflow spells are free in that sense; other errors do no harm |
| FreeKeys.ActivateDeactivate | src/weftlyflow/triggers/manager.py:101-139 | deactivating undoes an activation with free keys: tables, registry and jobs are back as they were |
| Deactivations.DeactivateRemovesOwnIff | src/weftlyflow/triggers/manager.py:127-134 | wherever memory mirrors all but refused rows, a deactivation fails exactly when a row of the workflow has no key, and otherwise removes exactly that workflow's entries if and only if none of its refused rows has the key of another workflow's entry |
| Deactivations.DeactivateTakesAnother | src/weftlyflow/triggers/manager.py:127-134 | for every canonical path there are two webhooks of different workflows such that deactivating one takes the other's entry away |
| Restarts.RestartEquivalence | src/weftlyflow/triggers/manager.py:101-222 | at any point of any history of activations with free keys, whatever other errors they meet, a restart rebuilds exactly the registry and jobs held, whatever order rows are listed in |
| Restarts.RestartEquivalenceIff | src/weftlyflow/triggers/manager.py:101-222 | after such a history and one more activation, a restart rebuilds exactly the memory held if and only if the workflow spells free keys; otherwise warm-up from those tables fails |
| Restarts.UnsupportedWebhookBlocksRestart | src/weftlyflow/triggers/manager.py:161-188 | activating one webhook of an unsupported method leaves tables from which every warm-up fails |
| Tokenizer.Tokenize | src/weftlyflow/expression/tokenizer.py:46-75 | the cursor loop computes the recursive tokenizer, errors and columns included |
| Tokenizer.TokenizerMeetsGrammar | src/weftlyflow/expression/tokenizer.py:46-75 | a template is accepted exactly when it has a good tiling by literals and expressions, and yields the chunks of that tiling |
| Tokenizer.RefusedAtFault | src/weftlyflow/expression/tokenizer.py:46-75 | a refused template is refused at its first fault, an unclosed or a blank expression after a good start, with the column of the brace that opens it |
| Templates.TokenizedIsGood | src/weftlyflow/expression/tokenizer.py:46-75 | literals are nonempty, free of `{{` and never adjacent; sources are nonempty, stripped and free of `}}` |
| Templates.PrintRoundTrip | src/weftlyflow/expression/tokenizer.py:46-75 | printing a tokenized template and tokenizing it again gives the same literals and sources |
| Templates.ShortcutAgrees | src/weftlyflow/expression/resolver.py:95-96 | text without `{{` resolves on the full path to itself |
| Templates.Resolve | src/weftlyflow/expression/resolver.py:86-111 | the resolver with its shortcut equals the full path on every template |
| Resolving.ContainsIff | src/weftlyflow/expression/tokenizer.py:88-94 | the shortcut looks for a doubled opening brace anywhere |
| Resolving.LoneExpression | src/weftlyflow/expression/resolver.py:98-102 | a template that is one expression resolves to the value itself or its failure |
| Resolving.MixedTemplate | src/weftlyflow/expression/resolver.py:104-111 | any other good template resolves to its literals with the text of each value in place, null as nothing, or to the first failure |
| Resolving.RefusedTemplate | src/weftlyflow/expression/resolver.py:98 | a template without a good tiling is a syntax error |
| Resolving.TreeResolves | src/weftlyflow/expression/resolver.py:114-129 | a tree resolves to a tree of the same shape with every text resolved and nothing else changed |
| Templates.BraceFreeIdentity | src/weftlyflow/expression/resolver.py:114-129 | a tree without `{{` resolves to itself |
| OAuthBaseString.CollectParams | src/weftlyflow/credentials/types/netsuite_api.py:99-106 | lists the OAuth parameters, then the query entries with lists flattened and absent values blank |
| OAuthBaseString.QueryEntryAdds | src/weftlyflow/credentials/types/netsuite_api.py:100-106 | one more query entry adds its values in order under its name, one blank value when it has none |
| OAuthBaseString.PercentSpells | src/weftlyflow/credentials/types/netsuite_api.py:135-136 | unreserved characters stand for themselves, every other byte for a percent sign and two capital hex digits |
| OAuthBaseString.PercentInjective | src/weftlyflow/credentials/types/netsuite_api.py:135-136 | percent-encoding never maps two byte strings to one text |
| OAuthBaseString.ParamStringIff | src/weftlyflow/credentials/types/netsuite_api.py:107-110 | two parameter lists normalise to one string exactly when they are equal as multisets |
| OAuthBaseString.ParamStringSpells | src/weftlyflow/credentials/types/netsuite_api.py:107-110 | the normalised string joins the encoded pairs in ascending code-point order of name, then value |
| OAuthBaseString.JoinSpells | src/weftlyflow/credentials/types/netsuite_api.py:110 | names come before values, an equals sign between them and an ampersand between pairs |
| OAuthBaseString.QueryOrderIrrelevant | src/weftlyflow/credentials/types/netsuite_api.py:99-106 | the order of query entries does not change which parameters are signed |
| OAuthBaseString.BaseStringIff | src/weftlyflow/credentials/types/netsuite_api.py:107-116 | two requests share a base string exactly when method, base URL and parameter multiset agree |
| OAuthBaseString.BaseStringReads | src/weftlyflow/credentials/types/netsuite_api.py:114-116 | three parts between ampersands: the method, what decodes to the base URL, and what decodes to the parameter string |

## Left out

- Node implementations, sandboxes and expression evaluation: a node is any function from its definition and port map to outputs or an error; it is taken to ignore the shared static data, and hooks not to raise.
- Timestamps, elapsed times, metrics, error redaction and lifecycle hooks: no bearing on what is proved.
- Sub-workflow calls inside a node: one abstract node execution; the loader and project checks are not modelled.
- FanIn.OrderBlindIff: the equivalence on data is for workflows without pinned or disabled nodes, because a pinned or disabled feeder may have nothing of its own to show; `ListedAlikeIff`, `OrderIndependence` and `OrderShows` hold for every well-formed acyclic workflow.
- JSON, HMAC and UTF-8: JSON and the keyed hash are functions with the one round trip assumed where it is used; texts are given as their UTF-8 bytes.
- StateTokens.AcceptedIffSigned: base64 text that the encoder never produces is refused, where the library skips foreign characters; claims that are not a JSON object and boolean expiry claims are not modelled.
- Nonces.TokensOneShotIff: token expiry and nonce store share one clock, where the source reads the wall clock for one and a monotonic or server clock for the other.
- Nonces.RedisNonceStore.Consume: a non-positive TTL, which the server refuses, is treated like any other.
- LeaderElection.LeaderExclusion: assumes that writes follow their reads within the lease, because without that the property is false, as `PausedRefreshBreaksExclusion` and `PausedReleaseBreaksExclusion` show.
- Idempotency.ClaimsDisjointIff: speaks of runs whose claims are answered, because a claim that fails open can lead to an overlap, as `UnansweredClaimSafeIff` shows.
- SQL sessions: tables are sets of rows with create, list and delete; a failed flush that poisons the rest of a session is not modelled.
- Restarts.RestartEquivalence: restricted to distinct node ids, fresh row ids, activations of inactive workflows that share no job id with a stored schedule (`AddScheduleIff` shows why), and free keys, because without them the restart fails, as `RestartEquivalenceIff` shows.
- Error texts of an activation: the report names the nodes that failed.
- Parsing of schedule parameters: an arbitrary function from parameters to an optional schedule.
- Upper-casing outside ASCII, dynamic webhook paths, the production scheduler backend, null guards and the in-process leader lock: easy members.
- HTTP API, credentials other than the OAuth 1.0a base string, binary storage, frontend: not part of this model.
