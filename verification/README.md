# LiteLLM control plane: a verified model

This project models the control plane as one relational database plus its external
effects (config files on disk, keys live on the proxies, a clock) and proves what its
runs keep. Each module follows one source file:

- `Schema`, `Store`, `Connection` (Database.dfy): tables, foreign keys, and every store call.
  Functions on the value `Db` say what a call does; the methods of class `Database` do it in
  place and are proved equal to those functions.
- `AuditReplay`: the audit log as an event source.
- `IsoTime`: the text of a timer and its order.
- `StateMachine`, `History`, `Ingestion`, `Probe`, `CooldownPass`, `CooldownExact`, `HealthRuns`,
  `HealthLocks`: account and endpoint health, callback batches, the cooldown reconciler, and runs
  that mix them.
- `Generator`, `Policy`, `Agreement`: which endpoints are routed, decided twice.
- `KeyManager`, `KeyLeaks`, `KeyAborts`: virtual keys, when one leaks, and key calls that raise.
- `Orchestrator`, `Reconcile`: rollouts, drift and its repair.
- `ControlPlane`: all of these in one state machine. `Failures`: runs of it at whose end a promise is
  broken.
- `Timeline`: the merged event list. `SecretCache`: the Doppler TTL cache.

The outside world enters as parameters. Probe outcomes, adapter replies, secrets, the
environment, hashing, YAML and clock readings are arguments of the steps, quantified over in
every theorem. A SELECT without ORDER BY takes its row order as an argument; theorems hold for
every order that lists each row once. A key minted by a proxy is fresh by construction.

Where the code does less than its documentation says, the model follows the code:

- `disabled` is not final under callbacks: a 429 moves it to `cooldown` and three transient
  failures to `degraded`. `HealthLocks.DisabledLock` gives the exact condition.
- Cooldown can be left through transient failures. `Ingestion.CooldownLock` gives the exact
  condition.
- A pass never provisions keys on nodes that are not active proxy or exit nodes, yet reports
  them missing for ever. `Reconcile.OnePassConvergesIff` gives the exact condition.
- A failed deploy without a master key, or whose restoring write fails, leaves the unverified
  file, and two nodes can write one file. `Orchestrator.StepAgreesIff` gives the exact condition for a
  step, `DiskFollowsHistoryIff` and `ControlPlane.FileAgreesIff` for runs.
- A failed first deploy can leave the unverified file too. `Orchestrator.FailedFirstDeployIff`
  gives the exact condition.
- Live keys can lose the row that could revoke them: a lost reply, a sync that raises, recovery over
  a live key, a failed revocation, the deletion of a pending row or of a node.
  `KeyLeaks.RunTracksIff` and `ControlPlane.LeaksIff` give the exact condition for every run,
  `KeyLeaks.FailureFreeRunsAreExactIff` for runs without failures.
- A removal that raises after a revocation brings an active row with a dead key back.
  `KeyAborts.ApiRemoveBackedIff` gives the exact condition for a call, `ControlPlane.DeadRowsIff` for
  runs.
- The timeline can lose an audit event newer than what it shows when the clock steps back.
  `Timeline.CuttingFirstIsRightIff` gives the exact condition.

## Model

| member | source | states |
|---|---|---|
| IsoTime.IsoOrderIsChronological | src/health/probe.py:126-142 | SQLite's text comparison of two `isoformat()` UTC timers is the comparison of the instants in microseconds, for all pairs, also when one text omits the microsecond part |
| IsoTime.FractionOrder | src/health/state_machine.py:55 | an omitted microsecond part sorts below every present one |
| IsoTime.ChronologicalOrder | src/health/state_machine.py:103 | comparing calendar fields most significant first is comparing microseconds since year 1, leap years included |
| IsoTime.Plus | src/health/state_machine.py:54-55 | adding a timer carries through minute, day, month and year and lands exactly that many microseconds later |
| Store.ApplyKeepsSound | src/registry/store.py:19-573 | every store call, accepted or refused, keeps every foreign key of the schema |
| Store.NodeDeletionIsExact | src/registry/store.py:45-52 | deleting a node removes the node and exactly its endpoints, keys and rollouts; every other row is unchanged |
| Store.ConsumerDeletionIsExact | src/registry/store.py:473-479 | deleting a consumer removes it and exactly its keys |
| Store.ProfileDeletionNullsNothing | src/registry/store.py:738-749 | profile deletion succeeds exactly if no consumer refers to the profile, and never nulls a consumer's profile |
| Store.CreateColumns | src/registry/store.py:19-503 | for each table: a create inserts exactly its row if the id is free and every reference exists, with no timer and no failures, and does nothing otherwise |
| Store.DeleteColumns | src/registry/store.py:104-391 | providers, models and accounts go exactly if nothing refers to them, endpoints and keys always, and nothing else goes with them |
| Store.PatchNodeColumns | src/registry/store.py:54-73 | each field that is given is written, each that is not is kept, and no other row changes |
| Store.PatchProviderColumns | src/registry/store.py:115-134 | the same for providers |
| Store.PatchModelColumns | src/registry/store.py:197-220 | the same for models |
| Store.PatchConsumerColumns | src/registry/store.py:448-471 | the same for consumers, budget and both rate limits each on its own; an unknown profile writes nothing |
| Store.PatchProfileColumns | src/registry/store.py:713-736 | the same for profiles |
| Store.AccountStatusColumns | src/registry/store.py:251-274 | an operator's status write: `active` clears timer and counter, any other status keeps both |
| Store.EndpointStatusColumns | src/registry/store.py:350-383 | the same for endpoints, also when only the override is given |
| Store.RoutingColumns | src/registry/store.py:325-348 | priority and weight each on its own |
| Store.CallsAreLogged | src/audit/logger.py:5-22 | every call that changes the registry logs one record with its actor, its action and the images of the row |
| Store.PatchIsLogged | src/registry/store.py:54-73 | a patch that changes anything logs one record with both images |
| Connection.Database.CreateNode | src/registry/store.py:19-33 | inserts and logs, or raises on a duplicate id |
| Connection.Database.CreateProvider | src/registry/store.py:78-92 | inserts and logs, or raises on a duplicate id |
| Connection.Database.CreateModel | src/registry/store.py:139-161 | inserts and logs, or raises on a duplicate id |
| Connection.Database.CreateAccount | src/registry/store.py:225-239 | raises unless the provider exists; timer and counter start at their defaults whatever the body says |
| Connection.Database.CreateEndpoint | src/registry/store.py:290-313 | raises unless node, account and model exist; timer and counter start at their defaults |
| Connection.Database.CreateConsumer | src/registry/store.py:414-436 | raises on a duplicate id or an unknown profile |
| Connection.Database.CreateConsumerKey | src/registry/store.py:484-503 | raises unless consumer and node exist and the pair is free |
| Connection.Database.CreatePolicyProfile | src/registry/store.py:682-701 | inserts and logs, or raises on a duplicate id |
| Connection.Database.DeleteNode | src/registry/store.py:45-52 | cascades to endpoints, keys and rollouts, and logs the node's last image |
| Connection.Database.DeleteProvider | src/registry/store.py:104-113 | refused while an account refers to it |
| Connection.Database.DeleteModel | src/registry/store.py:186-195 | refused while an endpoint refers to it |
| Connection.Database.DeleteAccount | src/registry/store.py:276-285 | refused while an endpoint refers to it |
| Connection.Database.DeleteEndpoint | src/registry/store.py:385-391 | deletes and logs the last image |
| Connection.Database.DeleteConsumer | src/registry/store.py:473-479 | cascades to the consumer's keys |
| Connection.Database.DeleteConsumerKey | src/registry/store.py:567-573 | deletes and logs the last image |
| Connection.Database.DeletePolicyProfile | src/registry/store.py:738-749 | refused while a consumer refers to it |
| Connection.Database.UpdateNode | src/registry/store.py:54-73 | writes the given fields and logs before and after; an empty body writes and logs nothing |
| Connection.Database.UpdateProvider | src/registry/store.py:115-134 | as for nodes |
| Connection.Database.UpdateModel | src/registry/store.py:197-220 | as for nodes |
| Connection.Database.UpdateConsumer | src/registry/store.py:448-471 | as for nodes, and raises on an unknown profile |
| Connection.Database.UpdatePolicyProfile | src/registry/store.py:713-736 | as for nodes |
| Connection.Database.UpdateEndpointRouting | src/registry/store.py:325-348 | writes priority and weight, keeping what is not given |
| Connection.Database.UpdateAccountStatus | src/registry/store.py:251-274 | `active` also clears timer and counter; other statuses leave both |
| Connection.Database.UpdateEndpointStatus | src/registry/store.py:350-383 | the same for endpoints, with the override |
| Connection.Database.UpdateConsumerKeyStatus | src/registry/store.py:521-541 | changes the status only |
| Connection.Database.UpdateConsumerKey | src/registry/store.py:543-565 | changes key and status together |
| Connection.Database.SetAccountCooldown | src/registry/store.py:577-597 | status and timer, one audit record |
| Connection.Database.SetEndpointCooldown | src/registry/store.py:599-619 | status and timer, one audit record |
| Connection.Database.IncrementAccountFailure | src/registry/store.py:621-624 | counts without an audit record; 0 for an unknown id |
| Connection.Database.IncrementEndpointFailure | src/registry/store.py:626-629 | counts without an audit record; 0 for an unknown id |
| Connection.Database.CreateIncident | src/registry/store.py:631-650 | appends one incident |
| Connection.Database.LogAudit | src/audit/logger.py:5-22 | appends one record |
| AuditReplay.ApplyFaithful | src/registry/store.py:19-573 | after any store call, replaying the log (creates, `after` images, deletes with the schema's cascades) gives back every registry and key table except the failure counters |
| AuditReplay.LogHealthFaithful | src/registry/store.py:577-619 | status and cooldown writes keep the log replayable |
| AuditReplay.DropMatches | src/config/schema.sql:44-103 | replayed deletes cascade as the database did |
| StateMachine.HandleIsReact | src/health/state_machine.py:117-211 | handling a signal in the database runs the entity's own automaton on its three health columns and changes no other cell |
| StateMachine.FailureColumns | src/health/state_machine.py:117-167 | from the error itself to the three columns: 401, 403 or an authentication text disables, also when the code is 429; else 429 or a rate-limit text enters cooldown for 30 seconds; anything else counts one and degrades from three on; no other row changes |
| StateMachine.SuccessColumns | src/health/state_machine.py:169-211 | degraded and recovered become active and clean, probe only for the actor "probe"; active loses its counted failures; every other status stays |
| StateMachine.TransitionAccountState | src/health/state_machine.py:14-60 | no-op for an unknown account or the same status; else one incident and one audited write |
| StateMachine.TransitionEndpointState | src/health/state_machine.py:62-108 | the same for endpoints |
| StateMachine.HandleAccountFailure | src/health/state_machine.py:117-141 | in place, with the columns of FailureColumns |
| StateMachine.HandleEndpointFailure | src/health/state_machine.py:143-167 | the same for endpoints |
| StateMachine.HandleAccountSuccess | src/health/state_machine.py:169-189 | never leaves cooldown; leaves probe only for the actor "probe" |
| StateMachine.HandleEndpointSuccess | src/health/state_machine.py:191-211 | the same for endpoints |
| Ingestion.NonInterference | src/events/ingestion.py:77-208 | after any batch each endpoint and account is where its own automaton ends on just the items that reach it, and nothing else changed |
| Ingestion.ItemColumns | src/events/ingestion.py:83-204 | from one item to the columns: `metadata` wins over `litellm_params`; a failure reaches the named endpoint, and the named account if it is an authentication error or no known endpoint is left; a success reaches both; nothing else changes |
| Ingestion.CountedIff | src/events/ingestion.py:88-118 | an item is counted exactly if an id is left after validation |
| Ingestion.IngestAppend | src/events/ingestion.py:77-208 | a batch may be cut anywhere: states compose and processed counts add up |
| Ingestion.OrderMattersOnlyPerEntity | src/events/ingestion.py:172-204 | two batches that give every entity the same signals in the same order leave the same tables |
| Ingestion.CooldownLock | src/health/state_machine.py:143-211 | a locked entity (cooldown or disabled), whatever its counter, stays locked throughout exactly if no transient failure arrives, or those that do leave the counter below three |
| Ingestion.CooldownLockInDatabase | src/health/state_machine.py:102-106 | the same if-and-only-if in the database, from a 429 on that enters cooldown from any other status, after every item of the batch; then, without an authentication error, the timer stays 30 seconds after entry |
| Ingestion.IngestItem | src/events/ingestion.py:80-206 | one item: metadata fallback, validation, scoping of the failure, and whether it is counted |
| Ingestion.IngestEventCallback | src/events/ingestion.py:65-208 | the batch loop and its count |
| History.TransitionHistory | src/health/state_machine.py:25-60 | a transition logs its incident and its audited status change, with the same statuses, or neither |
| HealthRuns.IncidentsAgreeWithAudit | src/health/state_machine.py:73-108 | over any run without operator changes of its status, an entity's incidents form a connected walk without self-loops from first to last status, and the changes in its update_status audit records are the same moves in the same order |
| Probe.RunProbe | src/health/probe.py:16-119 | the status sequence a probe drives for every outcome |
| Probe.RunReconcileCooldowns | src/health/probe.py:121-175 | the two loops of the pass |
| Probe.RunRevive | src/health/probe.py:144-175 | one expired account, through at most one of its endpoints |
| Probe.FirstCandidate | src/health/probe.py:150-154 | the probed endpoint belongs to the account and is not disabled, in cooldown or in probe; none is found only if there is none |
| Probe.FirstCandidateColumns | src/health/probe.py:150-154 | the pick is the first endpoint of the account in query order with status active, inactive, degraded or recovered |
| CooldownExact.ProbeColumns | src/health/probe.py:16-119 | from the outcome of a probe to the columns of its endpoint |
| CooldownExact.PassIsExact | src/health/probe.py:121-175 | the whole pass: it probes exactly the endpoints whose cooldown has a NULL or elapsed timer, then exactly the first open endpoint of each account that is due; such an account ends active and clean exactly if that probe passes, degraded with its old timer otherwise; every other row is untouched |
| CooldownPass.ProbeEffect | src/health/probe.py:16-119 | a probe changes exactly its endpoint's health columns, to active and clean if it passed |
| CooldownPass.PassClearsExpired | src/health/probe.py:121-175 | after a pass no entity is in cooldown with a NULL or elapsed timer; unexpired cooldowns and disabled entities are untouched; a released account is degraded, or active with an active endpoint of its own |
| CooldownPass.PassLogsExpiredAccount | src/health/probe.py:144-175 | an expired account is logged as cooldown, probe, then its final status, in incidents and audit alike |
| CooldownPass.PassLogsNoOtherAccount | src/health/probe.py:138-149 | an account that was not expired gets no incident and no status record |
| HealthRuns.ReachableInvariant | src/health/state_machine.py:14-211 | in every database reachable by operator calls, batches and passes: foreign keys hold, the audit log replays, and an active row has no timer and fewer than three failures |
| HealthRuns.TakeKeeps | src/registry/store.py:251-274 | each kind of step keeps that invariant |
| HealthLocks.DisabledLock | src/health/state_machine.py:154-167 | callbacks leave a disabled entity disabled throughout exactly if none is a rate limit and the transient ones do not reach the threshold |
| HealthLocks.DisabledLockInDatabase | src/health/state_machine.py:154-167 | the same if-and-only-if in the database, after every item and every step of any run of batches, passes and operator calls that do not enable the entity |
| HealthLocks.AuthFailureDisables | src/events/ingestion.py:185-204 | a batch with an authentication error that names the account leaves it disabled, if the items after it carry known endpoint ids |
| HealthLocks.AuthFailureLocksAccount | src/health/probe.py:139-142 | from such a batch on, the account is disabled at every point of any run of passes, callbacks with known endpoint ids, and operator calls that neither enable nor delete it |
| Generator.GenerateConfig | src/config/generator.py:21-120 | the row loop: exclusions, secret resolution, one entry per surviving row |
| Generator.ConfigColumns | src/config/generator.py:25-112 | a config holds an entry exactly if it is that of an endpoint of the node whose references exist and whose override and statuses are served: with no override only active, inactive, probe or recovered endpoints of active, degraded, probe or recovered accounts; with force-active any of an account not disabled or inactive; with force-disabled none |
| Generator.EmitColumns | src/config/generator.py:70-148 | every field of an entry: group, key, weight, order (1 if force-active), model string by provider kind, and API base with Doppler before the environment and the provider's id before its kind |
| Generator.ConfigKeepsOrder | src/config/generator.py:50-112 | entries stand in the order of the rows |
| Generator.StripApiSuffixMeaning | src/config/generator.py:99-102 | for ollama only trailing slashes and one `/api` before them are dropped |
| Generator.StripSlashesMeaning | src/config/generator.py:100 | exactly the trailing slashes go |
| Generator.CaseMeaning | src/config/generator.py:131-132 | kinds are compared in lower case and variable names built in upper case, letter by letter |
| Generator.ConfigHoldsOwnEndpoints | src/config/generator.py:25-112 | a node's config holds exactly the entries of its own routable endpoints; every API key in it belongs to an account of such an endpoint |
| Policy.GetCandidateEndpoints | src/policy/engine.py:10-84 | the consumer checks and the candidate loop |
| Policy.CandidatesColumns | src/policy/engine.py:19-84 | an endpoint is offered exactly if the consumer has status active and a profile that lists the group, the model is of the group, and override and statuses are served as for configs |
| Policy.CandidatesKeepOrder | src/policy/engine.py:64-84 | candidates stand in the order of the rows |
| Agreement.GeneratorAgreesWithPolicy | src/policy/engine.py:47-84 | for an allowed consumer the candidates whose secrets resolve give, as a multiset, exactly the entries all nodes' configs hold under the group, whatever the row orders |
| Agreement.CandidateEmittedIffResolvable | src/config/generator.py:70-78 | a candidate has an entry exactly if its secret resolves |
| Agreement.AuthFailureStopsRouting | src/config/generator.py:56-68 | from a batch with an authentication error on, throughout such a run, no endpoint of the named account, force-active or not, is generated or offered |
| Agreement.DisabledAccountIsRoutedNowhere | src/policy/engine.py:69-80 | an endpoint of a disabled account is in no config and no candidate list |
| Timeline.GetUnifiedTimeline | src/registry/store.py:809-872 | three cut queries appended, sorted and cut again |
| Timeline.UnionMeaning | src/registry/store.py:809-868 | the union holds every row of each of the three sources, with its id and timestamp, and nothing else |
| Timeline.TimelineIsNewestOfAll | src/registry/store.py:809-872 | cutting each source first loses nothing: the result is the beginning of the stable sort of the whole union, ties included |
| Timeline.TimelineShowsTheNewest | src/registry/store.py:870-872 | descending, min(limit, total) events, all from the union, none omitted that is strictly newer than one shown |
| Timeline.CuttingFirstIsRightIff | src/registry/store.py:814-872 | for any audit log and any limit, with the other two sources sorted, the timeline omits nothing newer than what it shows exactly if, for each audit row cut off, at least limit events read are stamped no earlier |
| Timeline.AuditAloneIsRightIff | src/registry/store.py:396-409 | for the audit log alone, cutting before sorting is right at every limit exactly if no row is stamped later than a row with a higher id |
| Timeline.InversionLosesEvents | src/registry/store.py:814-818 | any such row is lost at the limit that falls between the two |
| Timeline.SortSorts | src/registry/store.py:870-871 | the sort is a descending permutation |
| KeyManager.ActiveKeysAreLive | src/registry/key_manager.py:82-203 | over all runs and whatever adapters do, every active row holds a key live on its node, rows are active or pending only, and no two rows share a key |
| KeyManager.DropKeyBacked | src/registry/key_manager.py:174-194 | revoking one row's key cannot kill another row's |
| KeyManager.KeyRunsStayFaithful | src/registry/store.py:484-573 | the key table too can be replayed from the audit log, whatever adapters do |
| KeyLeaks.SyncTracksIff | src/registry/key_manager.py:91-166 | a sync of one row keeps every live key of a node held by a row exactly if no minted key was lost and no live key was overwritten by recovery |
| KeyLeaks.DropTracksIff | src/registry/key_manager.py:174-194 | deleting a key row keeps that exactly if its key was dead already, or the row was active and the revocation succeeded |
| KeyLeaks.StoreTracksIff | src/registry/store.py:45-52 | a registry call keeps that exactly if it deletes no node whose proxy has live keys and no consumer whose row there holds one |
| KeyLeaks.RunTracksIff | src/registry/key_manager.py:82-203 | over every run, whatever adapters do and whichever API calls raise, a node has no leaked key at the end exactly if it had none at the start and every elementary act met its condition: no later act mends a leak |
| KeyLeaks.ActDeadIff | src/registry/key_manager.py:174-194 | an active row comes to hold a dead key only by a removal that revoked it and then raised; a failed update, a deletion or a cascade ends that, and nothing else does |
| KeyLeaks.RunDeadIff | src/registry/key_manager.py:82-203 | over every run an active row holds a dead key at the end exactly if the last act that kills or ends it is such a removal |
| KeyLeaks.FailedUpdateLeaks | src/registry/key_manager.py:124-166 | a failed update followed by recovery leaks the old key for every run that follows |
| KeyLeaks.FailureFreeRunsAreExactIff | src/registry/key_manager.py:82-203 | in runs without adapter failures the live keys on each registered node are exactly those of its rows, all active, if and only if no node was deleted while keys were live on it, no consumer while its row held one, and no node was registered over live keys |
| KeyAborts.ApiSyncBacked | src/config/db.py:59-67 | a sync that raises on a missing master key, its rows rolled back, leaves every active row with a live key |
| KeyLeaks.AbortSyncTracksIff | src/registry/key_manager.py:86-122 | a sync that raises leaks on a node exactly if one of its completed rounds minted a key there |
| KeyLeaks.MintsAtIff | src/registry/key_manager.py:91-143 | whether a sync mints on a node can be read off its row and its reply before the call |
| KeyAborts.ApiRemoveBackedIff | src/registry/key_manager.py:174-194 | a consumer removal leaves every active row with a live key exactly if it does not raise, or no revocation had succeeded before it raised |
| KeyAborts.SyncRaisesIff | src/registry/key_manager.py:76-89 | a sync raises exactly if it reaches an active proxy or exit node without a master key |
| KeyAborts.RemoveRaisesIff | src/registry/key_manager.py:174-182 | a removal raises exactly if it reaches a row with a real key that is not pending, on a registered node without a master key |
| KeyAborts.RemoveColumns | src/registry/key_manager.py:169-194 | a removal deletes the consumer and all its rows, and revokes on each node exactly the real key of a row that is not pending, if the adapter succeeds |
| KeyManager.RunSync | src/registry/key_manager.py:68-86 | the loop over active proxy and exit nodes |
| KeyManager.RunSyncNode | src/registry/key_manager.py:91-166 | create, recover or update, with every failure branch |
| KeyManager.RunDropKey | src/rollout/orchestrator.py:280-295 | placeholders and pending rows are deleted without a remote call; real keys are revoked first |
| KeyManager.RunRemoveConsumer | src/registry/key_manager.py:169-194 | revokes and deletes all keys, then the consumer |
| KeyManager.RunReconcileAllKeys | src/registry/key_manager.py:196-203 | syncs each consumer with a pending row |
| KeyManager.Fleet.GenerateKey | src/registry/key_manager.py:99-122 | a fresh key live on the node, or a failure that may have minted one |
| KeyManager.Fleet.DeleteKey | src/registry/key_manager.py:181-187 | revokes, or fails without effect |
| Orchestrator.RolloutOrchestrator.DeployConfig | src/rollout/orchestrator.py:21-143 | every branch of a deploy: rows, file, remembered path and whether it raises |
| Orchestrator.DeploySucceedsIff | src/rollout/orchestrator.py:21-107 | a deploy succeeds exactly if the node exists, the content loads, the file opens, the master key is configured and some reply before the timeout is positive; the file then holds the content and one new success row says so |
| Orchestrator.DeployFailsEarly | src/rollout/orchestrator.py:28-89 | an unknown node or unloadable config changes nothing; an unwritable file leaves a failed row; a missing master key leaves the written file and an applying row |
| Orchestrator.DeployFailsVerification | src/rollout/orchestrator.py:107-143 | a failed row, and the latest success written back with a rolled-back row that repeats it, or else the earlier file, if it could be read |
| Orchestrator.ApiDeployColumns | src/config/db.py:59-67 | a deploy through the API keeps its rows exactly if it succeeds, and its file in either case |
| Orchestrator.RolloutOrchestrator.Advance | src/registry/store.py:772-785 | every status write is pending to applying, or applying to success or failed |
| Orchestrator.RolloutOrchestrator.Poll | src/rollout/orchestrator.py:92-98 | verified exactly if some reply before the timeout is positive |
| Orchestrator.DeployAppends | src/rollout/orchestrator.py:55-131 | earlier rows never change; a deploy adds one final row, a failed row with its rollback, or an applying row |
| Orchestrator.DeployKeepsHistory | src/rollout/orchestrator.py:55-131 | versions hash their content, and a rolled-back row repeats an earlier success of its node |
| Orchestrator.LatestSuccessMeaning | src/registry/store.py:793-800 | the latest success is a success row and no success is newer |
| Orchestrator.DeployAgreesIff | src/rollout/orchestrator.py:76-141 | disk and kept rows agree after a deploy: if the file was written, exactly if verification or repair worked, or the content is that of the latest success, or there is none; if not, exactly if they agreed before |
| Orchestrator.DiscardedRowsAgreeIff | src/config/db.py:59-67 | the same exact condition when get_db rolls the rows of a raising call back |
| Orchestrator.FailedFirstDeployIff | src/rollout/orchestrator.py:133-141 | without an earlier success, a failing deploy leaves the file as it was exactly if the write never happened, or verification failed and the earlier file could be read and restored, or the content is the same |
| Orchestrator.DiskFollowsHistoryIff | src/rollout/orchestrator.py:57-143 | in every run of API deploys, worker deploys and registry calls, to any paths, with secrets, environment and row order changing from step to step and any deploy failing anywhere: histories stay good, and the file at a path is a node's latest success exactly if the last step that touches either does it well |
| Orchestrator.StepAgreesIff | src/rollout/orchestrator.py:57-143 | the exact effect of one step on the agreement of one node with one file, shared paths included |
| Orchestrator.DiskFollowsHistory | src/rollout/orchestrator.py:57-143 | so over nodes with paths of their own, if every deploy can repair what it wrote, every node's file is its latest success throughout |
| Reconcile.RunDetectDrift | src/rollout/orchestrator.py:145-214 | the three drift checks |
| Reconcile.RunReconcileNode | src/rollout/orchestrator.py:216-305 | one pass: path lookup, drift, audit record, deploy, key repair |
| Reconcile.RunRepairKeys | src/rollout/orchestrator.py:269-296 | missing keys synced, then orphaned keys cleaned up |
| Reconcile.DetectMeaning | src/rollout/orchestrator.py:159-214 | no drift is reported exactly if the file loads to the generated config, every active consumer has an active key on the node, and no other consumer has one |
| Reconcile.DriftColumns | src/rollout/orchestrator.py:159-214 | config drift is a file that is absent, does not load or loads to another config; a key is missing for a consumer with status active and no active row; a key is orphaned whose consumer does not have status active |
| Reconcile.SyncColumns | src/registry/key_manager.py:68-166 | a sync reaches every node with status active and role proxy or exit, leaves there the row that status, reply and a fresh key give, and changes no other row |
| Reconcile.UnknownConsumerIsNotSynced | src/registry/key_manager.py:72-74 | a consumer that is not registered is not synced |
| Reconcile.GoodPassColumns | src/rollout/orchestrator.py:269-296 | after a pass that goes well no row of a disabled consumer is left on the node, and on an active proxy or exit node every active consumer has an active row |
| Reconcile.OrphansAreRevoked | src/rollout/orchestrator.py:279-295 | and the real key of an orphaned row that was not pending is dead, if its revocation succeeded |
| Reconcile.PassColumns | src/rollout/orchestrator.py:222-266 | the caller's path wins over the remembered one; without path, node or drift nothing happens; rollouts and files change exactly as the deploy does, if there is config drift |
| Reconcile.DriftIsLogged | src/rollout/orchestrator.py:245-254 | a pass that finds drift logs it first |
| Reconcile.OnePassConvergesIff | src/rollout/orchestrator.py:216-305 | one pass that goes well removes all drift exactly if the node is an active proxy or exit node or no key was missing |
| Reconcile.InSyncIsFixpoint | src/rollout/orchestrator.py:230-234 | a pass over a node without drift writes nothing, not even an audit record |
| Reconcile.SecondPassChangesNothingIff | src/rollout/orchestrator.py:230-234 | after such a pass over an active proxy or exit node, a second pass with its own oracles, secrets, environment and row order changes nothing at all exactly if it would generate the same config |
| Reconcile.RetryIsPointwise | src/registry/key_manager.py:196-203 | the whole effect of a retry on row statuses: consumers with a pending row are synced on every active proxy, each row by its own status and its own reply alone; every other row stays |
| Reconcile.RetryRecoversIff | src/registry/key_manager.py:124-143 | after one retry in which no adapter fails, a row is pending exactly if it was pending on a node that is not an active proxy or exit node |
| Reconcile.PassKeepsKeysBacked | src/rollout/orchestrator.py:269-296 | whatever fails, a pass keeps foreign keys and keeps every active key live |
| Reconcile.PassStaysFaithful | src/rollout/orchestrator.py:245-254 | the drift_detected record leaves the audit log replayable |
| ControlPlane.EveryRunKeepsTheInvariant | src/registry/store.py:19-873 | from the empty control plane, after every run that mixes operator calls, callback batches, cooldown passes, key calls, deploys to any path and worker passes, whatever fails and however secrets and environment change: foreign keys hold, the audit log rebuilds the registry, active rows are clean, key rows share no key, rollout histories are good; and, each as an if and only if over the run: any file is the latest success of any node, a node has no leaked key, an active key row holds a dead key. Only new rollout ids and later timestamps are asked |
| ControlPlane.NextKeepsCore | src/health/probe.py:121-175 | each kind of event keeps the part that never fails |
| ControlPlane.WorkerPassCore | src/rollout/orchestrator.py:216-305 | so does a reconcile pass, whichever deploy, restore, sync, revocation or master-key lookup in it fails |
| ControlPlane.ConfiguredPassIsWhole | src/rollout/orchestrator.py:269-298 | the pass that may stop early is the whole pass when every master key is configured |
| ControlPlane.DoneUntilStop | src/rollout/orchestrator.py:269-298 | the key repair of a pass does exactly the acts before the first that needs a missing master key |
| ControlPlane.StopsIff | src/registry/key_manager.py:86-89 | which is a sync of a registered consumer, or the revocation of a real key of a row that is not pending |
| ControlPlane.FileAgreesIff | src/config/db.py:59-67 | over mixed runs: the file at a path is a node's latest success exactly if the last event that touches either does it well |
| ControlPlane.LeaksIff | src/registry/key_manager.py:82-203 | over mixed runs: no key of a node is leaked exactly if none was and no act of any event leaks one |
| ControlPlane.DeadRowsIff | src/registry/key_manager.py:174-194 | over mixed runs: an active row holds a dead key exactly if the last act that kills or ends the row is a removal that revoked it and raised |
| ControlPlane.CleanRunsAgree | src/rollout/orchestrator.py:57-143 | so over nodes with paths of their own, when every deploy can repair what it wrote, each file is its node's latest success, whatever else happens |
| Failures.CooldownReleased | src/health/state_machine.py:143-167 | three transient failures and a 429, then one more transient failure: the row has left cooldown |
| Failures.DisabledRevived | src/health/state_machine.py:154-167 | an authentication failure, then a 429: the row is no longer disabled |
| Failures.PassDoesNotConverge | src/rollout/orchestrator.py:176-214 | a gateway node and one consumer: a pass that goes well in every way leaves drift |
| Failures.UnverifiedFileStays | src/rollout/orchestrator.py:89 | a first deploy without a master key: the unverified file is on disk and no row is left |
| Failures.FileIsNotLatestSuccess | src/rollout/orchestrator.py:76-89 | a success, then a deploy with another config and no master key: the file is not the latest success |
| Failures.RemovalLeavesDeadKey | src/registry/key_manager.py:174-190 | two proxies, the second without a master key: removing a synced consumer leaves an active row with a dead key |
| SecretCache.DopplerResolver.GetSecretsWithCache | src/secrets/doppler.py:99-113 | hit, miss, expiry and a fetch that raises |
| SecretCache.DopplerResolver.Resolve | src/secrets/doppler.py:115-174 | value, fallback or error in every case |
| SecretCache.ResolveColumns | src/secrets/doppler.py:115-174 | the named entry of what Doppler returns wins over the environment; without one a local variable is used exactly if the fallback is on; a malformed reference resolves to nothing |
| SecretCache.ReturnsFreshSecrets | src/secrets/doppler.py:99-113 | every map returned was fetched for that token at that moment or less than one TTL earlier |
| SecretCache.FetchesAreApart | src/secrets/doppler.py:99-113 | successful fetches for one token are at least one TTL apart |
| SecretCache.FetchRate | src/secrets/doppler.py:99-113 | a run of length T makes at most 1 + floor(T / ttl) successful fetches for one token |
| SecretCache.NoFallbackMeansDoppler | src/secrets/doppler.py:115-174 | with fallback off, a resolved value is always one Doppler returned within the TTL |

## Left out

- Text matching in `classify_error` and `is_auth_error`: an error is its code and whether its text mentions authentication or a rate limit; the precedence of the handlers is kept.
- HTTP, subprocesses, API routes, authentication of callers, metrics, logging, health summaries, bootstrap loading and URL formatting.
- Free-text columns (`reason`, `raw_response`, rollout error messages) and random row ids; audit and incident rows of the database carry no timestamp, and `Timeline` works on rows that do.
- The scope (models, budgets, rate limits) sent along with a key: only which keys are live is modelled.
- A consumer row that an API call writes before its key sync raises is rolled back with it; the write and the sync are two events here. `reconcile_all_keys`, which nothing calls, is modelled without a missing master key.
- Partial writes of a config file, and edits of the file by others.
- Concurrent connections: calls on the database are serial.
- Rows that fail pydantic validation when read back, and JSON columns that do not parse.
- Case folding outside ASCII in provider types and ids.
- The resolver's cache while a config is generated: within one call a secret reference resolves to one answer.
- Datetimes past the year 9998, where adding a timer could leave Python's range.
- Orchestrator.DiskFollowsHistoryIff: row timestamps increase strictly, because with two successes in the same instant the query may pick either.
- ControlPlane.EveryRunKeepsTheInvariant: row timestamps of rollouts increase strictly, for the same reason. One worker pass sees one view of secrets and environment in both its drift check and its deploy.
