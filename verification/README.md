# Telemetry manager: a verified model

The Kyma telemetry manager is a Kubernetes operator. Controllers for log, metric and trace
pipelines compete for slots in a lock, record the admitted pipelines in a shared coordination
ConfigMap, and a gateway controller renders what is recorded there. Around that core it
watches secrets, migrates stored API versions, converts between v1alpha1 and v1beta1, rotates
webhook certificates, and reports status. This project models these parts in Dafny and proves
what they promise, over every run, interleaving and input.

`dafny verify dfyconfig.toml` checks everything.

## How the cluster is modelled

The API server keeps the history of each object (`ApiStore.dfy`). A cached `Get` may return
any earlier version. `Update` commits only if the version it was computed from is the stored
one, `Create` only if there is no object. Read and commit are separate steps, so any number of
steps of others may lie between them. What the code cannot control (API errors, the clock,
probes, map iteration order, other clients) is a parameter or a nondeterministic choice.

| files | part |
|---|---|
| `ApiStore`, `ResourceLock`, `LockRuns` | the pipeline lock, and runs of lockers with the garbage collector |
| `CoordinationConfig` | the coordination ConfigMap |
| `Gateway`, `PipelineKind`, `Admission`, `GatewayBound` | the whole admission protocol and what the gateway renders |
| `GatewayResources` | what the gateway reconciler writes, and what a failed write leaves |
| `WatchIndex`, `SecretWatch` | the secret watch client, its specification, lifecycle and gauges |
| `StorageMigration` | the storage version migrator among concurrent writers |
| `NamespaceNames`, `LogSpecs`, `LogConversion`, `MetricConversion` | API conversion, with its shared heap objects |
| `WebhookCert` | certificate rotation in time |
| `Validation`, `Conditions`, `ReconcileStatus`, `TelemetryState` | decision, report, and module state |
| `ConfigChecksum` | the text the config checksum hashes |

Main results: `GatewayBound.RenderedLiveBounded`, `Admission.NoLostUpdates`,
`LockRuns.GrantedOwnersStayIff`, `GatewayBound.RendersExactlyCommitted`, `SecretWatch.RunCalls`,
`StorageMigration.Migrator.MigratePipelinesIfNeeded`, `LogConversion.SpokeHubSpoke`,
`LogSpecs.HubSpokeHub`, `WebhookCert.World.Run`, `ReconcileStatus.Reconciler.Reconcile`,
`TelemetryState.Telemetry.UpdateStatus`, `ConfigChecksum.ChecksumOrderFree`
and `ConfigChecksum.TextDeterminesDataOfShape`.

## Where a plain statement fails

Some properties one would expect do not hold of the code as it is. Each is shown to fail, and
next to it stands what does hold for all inputs.

- Granted owners stay in the lock: the library call that sets an owner reference matches by kind
  and name and overwrites the UID, so a reused name can evict a live owner
  (`ReusedNameEvictsLiveOwner`). It holds throughout a run if and only if no call of the run
  meets the guard of `Evicts` (`GrantedOwnersStayIff`).
- The gateway renders no more live pipelines than the limit: references carry no UID, so a reused
  name can exceed it (`ReusedNameBreaksBound`). The bound is proved, name by name, for all
  live pipelines whose own name had one bearer (`RenderedLiveBounded`).
- Up-conversion keeps the collected namespaces: not for an include list of which sanitizing
  leaves nothing (`InvalidIncludeWidens`). `UpKeepsCollection` is the exact condition.
- ConfigurationGenerated is True only for admitted pipelines with valid specs: not with an
  about-to-expire certificate, which ends validation early (`ExpiringCertMasks`). The exact
  conditions are in `ReconcilableExactly` and `Reconcile`, and those for the pipelines of the
  metric agent in `AgentServesExactly`.
- A v1alpha1 spec survives the round trip exactly: not an empty container list, which the encoded
  form does not tell from an absent one (`EmptyContainerListLost`). `RereadExactIff` is the exact condition with the saved
  copy, `PlainTripIff` the one without it, which the default selector does not meet
  (`DefaultSelectorLost`).
- After success the server certificate and its key fit: they do if and only if no save broke off
  between its two files, because only the certificate is looked at (`EnsureCertificate`,
  `ServesTornPair`).
- What runs always has its config map: exactly not after a delete that fails for the DaemonSet
  and not for the config map (`StaysConfiguredIff`, `LosesConfigMap`).
- The checksum input determines the data: not across different keys or value lengths
  (`ChecksumNotInjective`). Among inputs of one shape it does (`TextDeterminesDataOfShape`).

## Model

| member | source | states |
|---|---|---|
| `ResourceLock.Checker.HoldsReference` | internal/resourcelock/lock.go:64-68 | the loop over the owner references finds the owner if and only if name and UID are both among them |
| `ResourceLock.Checker.TryAcquireLock` | internal/resourcelock/lock.go:54-83 | new lock history and outcome are those of one optimistic attempt from any stale read: created, already held, refused at the limit, added, or a conflict that changes nothing |
| `LockRuns.AcquireOutcome` | internal/resourcelock/lock.go:54-83 | every outcome of one call, in numbers: the owner count read refuses a newcomer if and only if the limit is neither 0 nor -1 and the count has reached it |
| `LockRuns.FreshCallAdmittedIff` | internal/resourcelock/lock.go:70-82 | a call that reads the stored version is told nil if and only if there is no lock, it is an owner, the limit is 0 or -1, or fewer owners than the limit are stored; else it is told that the limit is exceeded |
| `LockRuns.NewcomerGrantedIff` | internal/resourcelock/lock.go:54-83 | over runs: whoever was never granted before is granted by a current call under exactly that condition |
| `ResourceLock.Checker.IsLockHolder` | internal/resourcelock/lock.go:85-100 | nil if and only if the version read holds the owner; a missing lock is an API error, never "limit exceeded" |
| `ResourceLock.SetOwnerReferenceMembers` | internal/resourcelock/lock.go:70-73 | adding an owner keeps exactly the owners of other names and adds this one, and names stay distinct |
| `LockRuns.GrantedOwnersStayIff` | internal/resourcelock/lock.go:54-83 | lock safety over whole runs of lockers, removals and garbage collection, with stale reads: at every point every owner that was ever told nil and lives is in the stored lock, if and only if no call of the run met the guard of eviction |
| `LockRuns.StepStoresIff` | internal/resourcelock/lock.go:64-80 | the same of one step of any kind, at any point of any run |
| `LockRuns.GrantedOwnersStay` | internal/resourcelock/lock.go:54-83 | runs that reuse no name never meet that guard, so in all their states every granted live owner is stored |
| `LockRuns.RunOwners` | internal/resourcelock/lock.go:54-83 | in every run the owners of all versions so far are exactly the callers that were told nil, and owner names are distinct in every version |
| `LockRuns.OwnerCountBounded` | internal/resourcelock/lock.go:70-82 | when every locker is limited, no version of the lock in any run has more owners than the limit; names may be reused |
| `LockRuns.LimitedLockerAmongOthers` | controllers/telemetry/logpipeline_controller.go:102-118 | sharing the lock with lockers of any limit and however stale its read, a limited locker never leaves more owners than its own limit by its own commit, and adds nobody to a stored lock at its limit |
| `LockRuns.AcquireEverHeld` | internal/resourcelock/lock.go:54-83 | after one call exactly the former owners, and the caller if it was told nil, have ever held the lock |
| `LockRuns.AcquireEvictsIff` | internal/resourcelock/lock.go:70-79 | one call drops owner p if and only if the caller has the name of p under another UID, reads the stored version, and is not refused |
| `LockRuns.AcquireRetains` | internal/resourcelock/lock.go:54-83 | a call keeps an owner of any past version stored or gone exactly if it does not drop it alive |
| `LockRuns.ReusedNameEvictsLiveOwner` | internal/resourcelock/lock.go:70-79 | a run in which a reused name evicts a live, granted owner: the hypothesis on names is needed |
| `CoordinationConfig.GatewayConfig.AddReference` | internal/resources/coordinationconfig/otlp_gateway.go:112-135 | the in-place update is the upsert of one entry of one list, and fails without effect for a signal without a list |
| `CoordinationConfig.GatewayConfig.RemoveReference` | internal/resources/coordinationconfig/otlp_gateway.go:139-158 | the filter loop removes exactly the entries of that name from that list |
| `CoordinationConfig.CoordinationConfigMap.ApplyConfigUpdate` | internal/resources/coordinationconfig/otlp_gateway.go:176-201 | one read-modify-write from any stale version: the new history is that of the optimistic commit, and a failed one changes nothing |
| `CoordinationConfig.CollectSecretVersions` | internal/resources/coordinationconfig/otlp_gateway.go:80-108 | fails if and only if a Get fails other than by not-found; otherwise the keys are exactly the existing secrets, each with its version (given slash-free namespaces) |
| `CoordinationConfig.MapKeyInjective` | internal/resources/coordinationconfig/otlp_gateway.go:103-104 | the text key identifies namespace and name |
| `CoordinationConfig.ApplyLookup` | internal/resources/coordinationconfig/otlp_gateway.go:112-158 | as a finite map over (signal, name) an update sets or clears its own entry and no other |
| `CoordinationConfig.ApplyByList` | internal/resources/coordinationconfig/otlp_gateway.go:112-158 | the same by the three lists: the trace, log or metric list changes only for its own signal, and there only in the entry of that name |
| `CoordinationConfig.CommitOutcome` | internal/resources/coordinationconfig/otlp_gateway.go:176-201 | one read-modify-write commits if and only if the signal has a list, what was read parses, and nothing was stored since; a missing or empty document counts as three empty lists |
| `CoordinationConfig.UpdatesCommute` | internal/resources/coordinationconfig/otlp_gateway.go:112-172 | updates of different (signal, name) commute as finite maps, and the list of a third signal is untouched |
| `CoordinationConfig.AddIdempotentRemoveUndoes` | internal/resources/coordinationconfig/otlp_gateway.go:112-158 | Add twice is Add once and Remove after Add is Remove, as lists, order included |
| `CoordinationConfig.FoldIsMap` | internal/resources/coordinationconfig/otlp_gateway.go:112-158 | after any log of updates each of the three lists has at most one entry per name |
| `CoordinationConfig.FoldLookup` | internal/resources/coordinationconfig/otlp_gateway.go:112-158 | after any log the entry of (signal, name) is what the last update that concerns it wrote |
| `CoordinationConfig.FoldMember` | internal/resources/coordinationconfig/otlp_gateway.go:112-158 | a reference is listed if and only if the last update of its (signal, name) added exactly it |
| `PipelineKind.LockKeeps` | internal/resourcelock/lock.go:54-83 | a lock attempt by a stored pipeline, from any stale read, keeps every lock owner a known pipeline and forgets nobody |
| `PipelineKind.LockRetains` | internal/resourcelock/lock.go:64-80 | it keeps a live owner in the stored lock if the name of that owner had one bearer, whatever happened to other names |
| `Admission.KindStep` | internal/reconciler/tracepipeline/reconciler.go:142-271 | every step of the protocol, of a worker, a user or the collector, keeps the invariants of every pipeline kind and loses no live owner |
| `Admission.WorkersStep` | internal/reconciler/tracepipeline/reconciler.go:213-240 | every step keeps: a worker past the lock acts for a stored pipeline version that owned the lock, and what it is about to write was approved by the validators and was not being deleted |
| `Admission.CommittedStep` | internal/reconciler/tracepipeline/reconciler.go:239-268 | every step keeps: each committed reference carries name and generation of a version that the validators approved for a lock owner |
| `Admission.RunInv` | internal/reconciler/tracepipeline/reconciler.go:142-271 | these invariants in every reachable state of every interleaving of workers of all three kinds, users and the collector |
| `Admission.RunRetainsOwner` | internal/reconciler/tracepipeline/reconciler.go:213-221 | in every run an owner whose own name had one bearer is in the stored lock or its pipeline is gone |
| `Admission.CommitFolds` | internal/resources/coordinationconfig/otlp_gateway.go:176-201 | a commit that succeeds appends exactly its own update to the fold, whatever version it was computed from; one that fails changes nothing |
| `Admission.DecisionReachesConfig` | internal/reconciler/tracepipeline/reconciler.go:223-268 | for a worker past the lock, whatever state the run is in: its decision, written without a conflict, leaves exactly its own reference at its own generation, or none, and every other entry of every signal as it was |
| `Admission.MissingReachesConfig` | internal/reconciler/tracepipeline/reconciler.go:154-171 | a pipeline that is gone loses exactly its own entry |
| `Admission.NoLostUpdates` | internal/resources/coordinationconfig/otlp_gateway.go:112-201 | in every reachable state the stored config, and each earlier version, is the fold of exactly the committed updates in commit order |
| `Gateway.FetchPipelines` | internal/reconciler/otlpgateway/reconciler.go:254-283 | the fetch loop returns the referenced, found, not deleting pipelines of matching generation, or fails (alike for the log and metric loops) |
| `GatewayResources.OtlpGateway.ApplyResources` | internal/resources/otelcollector/otlp_gateway.go:99-172 | exactly the writes before the first failing one take effect, and success means that none failed |
| `GatewayResources.OtlpGateway.DeleteResources` | internal/resources/otelcollector/otlp_gateway.go:175-257 | every deletion is tried; exactly the objects ahead of the first failure of their own call are gone, and success means that none failed |
| `GatewayResources.OtlpGateway.DoReconcile` | internal/reconciler/otlpgateway/reconciler.go:190-249 | a failure ahead of the first write changes nothing; otherwise the objects are what the apply or the delete leaves, failing where it fails; success leaves every required object written for the fetched pipelines, or all removed exactly if no reference of any kind in the config can be served |
| `GatewayResources.TargetMembers` | internal/reconciler/otlpgateway/reconciler.go:198-216 | list by list: a pipeline is rendered if and only if a reference of the same kind returned it, not deleting, at the recorded generation |
| `GatewayResources.TargetFails` | internal/reconciler/otlpgateway/reconciler.go:198-216 | nothing is rendered if and only if the config could not be read or a Get of one of the three lists failed other than by not-found |
| `GatewayResources.NothingIff` | internal/reconciler/otlpgateway/reconciler.go:218-220 | all three lists are empty if and only if no reference of any kind can be served |
| `GatewayResources.ApplyWritesExactly` | internal/resources/otelcollector/otlp_gateway.go:99-172 | exactly which objects an apply writes and which it removes, by Istio, the VPA CRD and the VPA switch |
| `GatewayResources.DeleteGroupsExactly` | internal/resources/otelcollector/otlp_gateway.go:175-257 | a delete covers exactly what an apply can write |
| `GatewayResources.SuccessComplete` | internal/reconciler/otlpgateway/reconciler.go:218-249 | success leaves every required object written for the rendered pipelines and removes the obsolete ones, or removes every object |
| `GatewayResources.SuccessSettles` | internal/reconciler/otlpgateway/reconciler.go:216-246 | success repairs whatever an earlier failure left: the outcome does not depend on the state before |
| `GatewayResources.StaysConfiguredIff` | internal/resources/otelcollector/otlp_gateway.go:99-213 | no failed apply leaves a DaemonSet without its config map, or newly written ahead of it; what runs loses its config map exactly by a delete that fails for the DaemonSet and not for the config map |
| `GatewayResources.NeedsComeFirst` | internal/resources/otelcollector/otlp_gateway.go:99-172 | wherever an apply breaks off, a role binding or DaemonSet that it changed finds the service account, role, secret and config map that it refers to up to date |
| `GatewayResources.LosesConfigMap` | internal/resources/otelcollector/otlp_gateway.go:175-213 | two calls, an apply and such a delete, after which the DaemonSet runs without its config map |
| `Gateway.FetchedFails` | internal/reconciler/otlpgateway/reconciler.go:254-283 | a fetch fails if and only if one of its Gets fails other than by not-found |
| `Gateway.FetchedMembers` | internal/reconciler/otlpgateway/reconciler.go:254-283 | a pipeline is fetched if and only if some reference returned it, not deleting, at the recorded generation |
| `Gateway.FetchedInOrder` | internal/reconciler/otlpgateway/reconciler.go:254-283 | what is rendered is placed, strictly increasing, in the order of the references |
| `Gateway.FetchedOnce` | internal/reconciler/otlpgateway/reconciler.go:254-283 | with distinct reference names no pipeline name is rendered twice |
| `GatewayBound.ReferencedLivePipelineIsOwner` | internal/reconciler/tracepipeline/reconciler.go:213-268 | in every run, every live pipeline that any version of the config references and whose own name had one bearer is an owner of the stored lock; other names may be reused |
| `GatewayBound.RunWithinLimit` | internal/resourcelock/lock.go:70-82 | in every run of the whole protocol the lock of a kind stays within the limit of its lockers |
| `GatewayBound.RenderedLiveBounded` | internal/reconciler/otlpgateway/reconciler.go:254-283 | the end-to-end bound: with limited lockers, at most the limit of the live pipelines rendered have a name of their own, for every interleaving, every config version read, every stale pipeline read, and whatever other names were reused |
| `GatewayBound.RenderedLiveBoundedWithoutReuse` | internal/reconciler/otlpgateway/reconciler.go:254-283 | so if no live pipeline rendered has a reused name, at most the limit of the pipelines rendered are live |
| `GatewayBound.RenderedLiveAtMostFive` | internal/resourcelock/lock.go:23-26 | with the limit of the code that is five |
| `GatewayBound.RendersExactlyCommitted` | internal/reconciler/otlpgateway/reconciler.go:254-283 | in every run a pipeline is rendered if and only if its read returned it, it is not deleting, and the last committed update of its name in the config version read added its generation |
| `GatewayBound.RenderedIsValidated` | internal/reconciler/otlpgateway/reconciler.go:254-283 | a rendered pipeline whose own name had one bearer is, spec included, a version that the validators approved for a lock owner |
| `GatewayBound.ReusedNameBreaksBound` | internal/resources/coordinationconfig/otlp_gateway.go:34-38 | a run with a limit of 1 and a reused name in which two live pipelines are rendered: references carry no UID |
| `WatchIndex.SyncedLinks` | internal/secretwatch/client.go:82-121 | after one sync the pipeline is linked to exactly its secrets, and every other pipeline exactly as before |
| `WatchIndex.SyncedIsInverse` | internal/secretwatch/client.go:82-138 | one call keeps the index the inverse of the desired relation, duplicate-free and without idle watchers |
| `WatchIndex.IndexIsInverse` | internal/secretwatch/client.go:82-192 | after any sequence of calls the index is the inverse of the last desired sets, and a secret is watched if and only if some pipeline wants it |
| `WatchIndex.SyncIdempotent` | internal/secretwatch/client.go:82-121 | syncing twice is syncing once, order of the links included |
| `WatchIndex.CountWithout` | internal/secretwatch/client.go:176-180 | unlinking a pipeline lowers the count of its kind by one and no other |
| `WatchIndex.LinkedToMembers` | internal/secretwatch/watcher.go:62-75 | linking adds exactly this pipeline where it is missing, keeps the order of the others, doubles nothing, and twice is once |
| `WatchIndex.WithoutMembers` | internal/secretwatch/watcher.go:88-97 | unlinking removes exactly this pipeline |
| `WatchIndex.WithoutUndoes` | internal/secretwatch/watcher.go:88-97 | it undoes linking |
| `WatchIndex.WithoutConcat` | internal/secretwatch/watcher.go:88-97 | it works link by link, so the rest keeps its order |
| `WatchIndex.EventNotifiesWanting` | internal/secretwatch/watcher.go:174-202 | at whatever point of whatever run of calls an event for a secret comes, it notifies exactly the pipelines that want the secret at that point, each once |
| `WatchIndex.RoutedOncePerWantedChange` | internal/secretwatch/watcher.go:174-202 | for every interleaving of the stream of a watcher with calls of the client, a pipeline is routed exactly once for each change that the stream delivers while the watcher serves and the pipeline wants the secret, and never otherwise, however late the stream of a dropped watcher ends |
| `SecretWatch.FollowWatcher` | internal/secretwatch/watcher.go:62-97 | the heap object behind that: through any run a watcher stays in the map exactly as long as its secret is watched without a break, never comes back, and always has exactly the links that the fan-out of its stream is stated for |
| `WatchIndex.StopFreezes` | internal/secretwatch/client.go:82-138 | after Stop no sequence of calls changes the index |
| `SecretWatch.Watcher.ProcessEventLoop` | internal/secretwatch/watcher.go:174-202 | the loop routes, for each secret event, the links as they are when it is handled, skips other objects, and ends at an error |
| `SecretWatch.Client.LinkSecret` | internal/secretwatch/client.go:96-115 | links one secret in place, starting a watcher where there is none, with exactly the gauge steps that go with it |
| `SecretWatch.Client.UnlinkSecret` | internal/secretwatch/client.go:166-190 | unlinks one secret in place, cancelling and deleting a watcher that is left empty, with exactly the gauge steps that go with it |
| `SecretWatch.Client.UnlinkPipelineFromWatchers` | internal/secretwatch/client.go:163-192 | for every iteration order the watcher map becomes the unlinked index, and lifecycle and gauges stay sound |
| `SecretWatch.Client.SyncWatchers` | internal/secretwatch/client.go:82-121 | for every iteration order and with duplicate secrets, the watcher map becomes the synced index; a stopped client is left alone and says so |
| `SecretWatch.Client.RemoveFromWatchers` | internal/secretwatch/client.go:127-138 | the same with no secrets |
| `SecretWatch.Client.Stop` | internal/secretwatch/client.go:194-231 | every watcher ever started is cancelled, and the map is not changed |
| `SecretWatch.RunCalls` | internal/secretwatch/client.go:82-231 | after any run of Sync, Remove, Stop and events on a new client: the heap of watchers is the inverse of the last desired sets before Stop, exactly the watchers in the map run, one per secret, and none after Stop, both gauges count them, calls are refused exactly after Stop, each event notified whom it should, and a late event of a dropped watcher nobody |
| `SecretWatch.LinkSound` | internal/secretwatch/client.go:99-118 | linking keeps: the active gauge is 1 exactly for watched secrets, and the linked gauge of (secret, kind) is the number of linked pipelines of that kind |
| `SecretWatch.UnlinkSound` | internal/secretwatch/client.go:163-192 | unlinking keeps the same |
| `StorageMigration.ApiServer.Interfere` | internal/storagemigration/migrator.go:66-120 | any number of creates, changes and deletes by others keep every state safe and list nothing anew |
| `StorageMigration.ActedExactly` | internal/storagemigration/migrator.go:136-156 | what a concurrent create, change or delete does to which object, and that it stores v1beta1 |
| `StorageMigration.Migrator.NeedsMigration` | internal/storagemigration/migrator.go:122-133 | "not needed" is definite even from a stale read; "needed" means that some state the cache could return lists v1alpha1 |
| `StorageMigration.Migrator.MigrateItem` | internal/storagemigration/migrator.go:143-153 | an object that was deleted in the meantime is no failure, and any other failure of its Update is; success leaves it not stored at v1alpha1 |
| `StorageMigration.Migrator.MigrateObjects` | internal/storagemigration/migrator.go:136-156 | it fails if and only if a List or an Update failed other than by not-found; success leaves no object of the kind stored at v1alpha1, with concurrent writes, deletes and failures; it succeeds when no call fails and others at most delete; every state on the way is safe (alike for the other three kinds) |
| `StorageMigration.Migrator.ClearStoredVersion` | internal/storagemigration/migrator.go:227-261 | never unlists a version while an object is stored at it, although the patch replaces the whole list by one from a stale read; no version but v1alpha1 is unlisted or listed; success leaves v1alpha1 unlisted, failure is that of a call, and nothing is written where no state the cache can return lists it |
| `StorageMigration.Migrator.MigratePipelinesIfNeeded` | internal/storagemigration/migrator.go:66-120 | every state of every run, failed ones included, is safe: each CRD lists the version of every object it stores, and its storage version; it fails if and only if a call failed other than by not-found, so it succeeds when no call fails and others at most delete; success leaves no CRD listing v1alpha1; nothing is written when no state the cache can return lists it |
| `StorageMigration.Migrator.MigrateAgain` | internal/storagemigration/migrator.go:66-90 | once the cache shows a successful run, a following run writes nothing |
| `StorageMigration.Migrator.Start` | internal/storagemigration/migrator.go:47-64 | safety over all retries, the meaning of the final success, that giving up takes a failed call in every attempt, and success at once when no call fails and others at most delete |
| `NamespaceNames.SanitizeNamespaceNames` | apis/telemetry/v1alpha1/shared_types_conversion.go:18-28 | the loop returns the valid names in order |
| `NamespaceNames.ValidNameExactly` | apis/telemetry/v1alpha1/shared_types_conversion.go:18-28 | a name is valid if and only if it matches [a-z0-9]([-a-z0-9]*[a-z0-9])? and has at most 63 characters |
| `NamespaceNames.SanitizedMembers` | apis/telemetry/v1alpha1/shared_types_conversion.go:18-28 | a name survives if and only if it is listed and a DNS label of at most 63 characters |
| `NamespaceNames.SanitizeIdempotent` | apis/telemetry/v1alpha1/shared_types_conversion.go:18-28 | sanitizing twice is sanitizing once |
| `LogSpecs.SanitizedSelects` | apis/telemetry/v1alpha1/shared_types_conversion.go:18-45 | sanitizing a selector keeps the selection of a legal namespace if and only if the include list keeps a valid name, is empty, or the namespace is excluded anyway |
| `LogSpecs.UpKeepsCollection` | apis/telemetry/v1alpha1/logpipeline_conversion.go:134-170 | up-conversion keeps what is collected from a legal namespace under exactly that condition, for nil, default, system and list selectors |
| `LogSpecs.InvalidIncludeWidens` | apis/telemetry/v1alpha1/logpipeline_conversion.go:134-170 | the failing family is inhabited: an include list of one invalid name turns into all namespaces |
| `LogSpecs.DownKeepsCollection` | apis/telemetry/v1alpha1/logpipeline_conversion.go:172-210 | down-conversion keeps what is collected for every name, with no condition |
| `LogSpecs.OtlpInputKeepsMeaning` | apis/telemetry/v1alpha1/shared_types_conversion.go:30-61 | OTLP selectors keep their meaning both ways under exactly the same condition, and the enabled value never changes |
| `LogSpecs.ConversionsCorrespond` | apis/telemetry/v1alpha1/logpipeline_conversion.go:76-210 | both directions respect one field-by-field correspondence of inputs and outputs, so no value ends up in another field |
| `LogSpecs.HubSpokeHub` | apis/telemetry/v1alpha1/logpipeline_conversion.go:76-210 | down and up again gives the normal form (defaults explicit, names sanitized, compression dropped, all else kept), a second trip changes nothing, and OTLP stays enabled or disabled |
| `LogConversion.MarshalData` | apis/telemetry/v1alpha1/logpipeline_conversion.go:214-236 | adds the encoded source under the data annotation, in the shared map if there is one |
| `LogConversion.UnmarshalData` | apis/telemetry/v1alpha1/logpipeline_conversion.go:239-255 | finds the saved source if and only if it is there and decodes, and then removes it from the map it was found in |
| `LogConversion.ConvertTo` | apis/telemetry/v1alpha1/logpipeline_conversion.go:31-46 | spec, generation and annotations of the destination, and which objects are shared or fresh |
| `LogConversion.ConvertFrom` | apis/telemetry/v1alpha1/logpipeline_conversion.go:48-74 | the saved spec is taken if and only if its generation is the current one; the annotation vanishes from source and destination alike; undecodable data is an error |
| `LogConversion.SpokeHubSpoke` | apis/telemetry/v1alpha1/logpipeline_conversion.go:31-74 | the round trip on the heap: without an edit the spec comes back as JSON reads it, after an edit of the generation the edited spec is converted and never overwritten, and the annotations come back without the data annotation |
| `LogConversion.RereadExactIff` | apis/telemetry/v1alpha1/logpipeline_conversion.go:214-255 | up to nil and empty lists elsewhere, which are one value here, the spec comes back exactly if and only if no container list is empty but not nil |
| `LogConversion.EmptyContainerListLost` | apis/telemetry/v1alpha1/logpipeline_conversion.go:214-255 | an empty container list does not come back |
| `LogSpecs.PlainTripIff` | apis/telemetry/v1alpha1/logpipeline_conversion.go:76-210 | without the saved copy a v1alpha1 spec survives up and down if and only if its application selector has system set exactly where both lists are empty, and all its namespace names are valid |
| `LogSpecs.DefaultSelectorLost` | apis/telemetry/v1alpha1/logpipeline_conversion.go:134-210 | the default selector does not survive it |
| `MetricConversion.ConvertRuntimeInput` | apis/telemetry/v1alpha1/metricpipeline_conversion.go:44-55 | source and destination share the selector, which is sanitized in place |
| `MetricConversion.ConvertRepeatedly` | apis/telemetry/v1alpha1/metricpipeline_conversion.go:44-55 | converting the same heap object any number of times yields equal results: the valid names of the original lists, in order |
| `MetricConversion.ConvertOtlpInput` | apis/telemetry/v1alpha1/shared_types_conversion.go:30-45 | the destination gets a new selector and the source keeps its lists |
| `WebhookCert.World.ProvideCaCert` | internal/webhookcert/ca_cert_provider.go:50-101 | it fails if and only if a call failed, and then keeps the secret; what is returned is the stored CA with its own key of the given length, and has more than 30 days left; a CA of which that holds for the whole call is never replaced |
| `WebhookCert.World.Save` | internal/webhookcert/server_cert_storage.go:36-47 | two writes: a failure leaves everything as it was, or the new certificate with the old key |
| `WebhookCert.World.ProvideServerCert` | internal/webhookcert/server_cert_provider.go:49-92 | the stored server certificate is signed by that CA, has more than a day left, and does not outlive it; one that is still good is kept unless its files could not be read, and then a success has replaced it; a key that does not fit is served only if an earlier save broke off |
| `WebhookCert.World.SetBundles` | internal/webhookcert/resources.go:45-56 | the loop sets the bundle of every entry and nothing else |
| `WebhookCert.World.ApplyWebhookConfigResources` | internal/webhookcert/resources.go:24-98 | success, which is that none of the four writes failed, leaves every webhook of both configurations as it was but for the bundle, and both CRDs with the given service, the path /convert, port 443, review version v1, and that bundle |
| `WebhookCert.World.EnsureCertificate` | internal/webhookcert/webhook_cert.go:40-59 | it fails if and only if a call failed; after success, CA and server certificate are chained and have more than 30 days and a day left, every webhook and both CRDs carry that CA, with service, path, port and review version as given, and the key file fits the certificate if and only if no save broke off between its files; failed calls keep the invariant; while both certificates are good the CA is kept, and so is the pair unless its files could not be read, in which case a successful call has replaced both |
| `WebhookCert.World.Run` | internal/webhookcert/webhook_cert.go:40-59 | the same after any sequence of calls, some of which fail, from empty storage; without faults the key fits throughout |
| `WebhookCert.ServesTornPair` | internal/webhookcert/server_cert_provider.go:49-92 | after a call that could not read the files and whose save broke off, a call without a fault succeeds and serves a certificate with a key that does not fit |
| `WebhookCert.FreshCaLasts` | internal/webhookcert/cert_expiry_checker.go:21-41 | a new CA passes its own check up to 334 days and 23 hours after it was issued, to the second, and never later |
| `WebhookCert.FreshServerLasts` | internal/webhookcert/server_cert_generator.go:45-46 | a new server certificate is dated an hour back, lasts 7 days, and is kept for 5 days and 23 hours, to the second |
| `WebhookCert.ServerWithinCa` | internal/webhookcert/server_cert_generator.go:45-46 | a new server certificate outlives no CA that passed its check within the last 23 days |
| `ReconcileStatus.PipelineResource.UpdateStatus` | internal/reconciler/tracepipeline/status.go:29-59 | the stored conditions change exactly if the pipeline is found, not deleting, and the status write succeeds; and exactly which failures are errors |
| `ReconcileStatus.StatusAfterFind` | internal/reconciler/tracepipeline/status.go:61-159 | what each of the four condition types holds afterwards, whatever was there before |
| `ReconcileStatus.ConfigReasonTells` | internal/reconciler/metricpipeline/status.go:105-142 | the reason of ConfigurationGenerated tells exactly which objection the validators had |
| `ReconcileStatus.WorkloadReasonsTell` | internal/reconciler/metricpipeline/status.go:61-90 | the reasons of GatewayHealthy and AgentHealthy tell exactly what the probes answered, and whether an agent is required |
| `ReconcileStatus.FlowReasonIsWorst` | internal/reconciler/metricpipeline/status.go:160-204 | the reason of FlowHealthy is the worst of what both flow probes found, gateway ahead of agent |
| `ReconcileStatus.FlowUnknownTells` | internal/reconciler/metricpipeline/status.go:160-187 | FlowHealthy is Unknown exactly if a flow probe was needed and did not answer, and the reason tells which one, or that there is no configuration |
| `ReconcileStatus.Reconciler.RecordDecision` | internal/reconciler/tracepipeline/reconciler.go:223-268 | the config changes exactly if the decision can be written, and then holds it: the reference at its generation, or none; no other entry changes |
| `ReconcileStatus.Reconciler.ReconcileAgents` | internal/reconciler/metricpipeline/reconciler.go:316-341 | exactly when the agent step succeeds, and that the agent then serves exactly the selected pipelines |
| `ReconcileStatus.Reconciler.DoReconcile` | internal/reconciler/metricpipeline/reconciler.go:259-342 | exactly when it succeeds, and exactly when the config changed: a failed reconcile has changed it exactly if only the agent step of a metric pipeline failed; a refused pipeline changes nothing |
| `ReconcileStatus.Reconciler.Reconcile` | internal/reconciler/tracepipeline/reconciler.go:187-199 | whenever the decision of an admitted pipeline was recorded and the report written, there is a stored reference if and only if ConfigurationGenerated is True, even if the agent step failed; True is reported exactly for an owner whose checks pass or whose first objection is an about-to-expire certificate, and for another pipeline exactly if that comes ahead of the lock; otherwise ConfigurationGenerated, GatewayHealthy and FlowHealthy are all False |
| `Validation.ReconcilableExactly` | internal/reconciler/tracepipeline/validator.go:77-123 | on the answers of the validators: no objection if and only if all that apply pass, and exactly which answers make an owner, or a pipeline that is none, reconcilable |
| `Validation.ExpiringHides` | internal/reconciler/tracepipeline/validator.go:77-123 | an about-to-expire certificate ahead of the lock hides the lock and every later validator |
| `Validation.ValidateIsFirst` | internal/reconciler/tracepipeline/validator.go:77-123 | the result is the first objection among the answers of the validators, in their order with the lock in its place |
| `Validation.DecisionExactly` | internal/reconciler/tracepipeline/reconciler.go:276-295 | what each result of the validators decides |
| `Validation.ExpiringCertMasks` | internal/reconciler/tracepipeline/validator.go:105-120 | a lock owner with invalid transforms that is reconcilable |
| `Validation.GetReconcilablePipelines` | internal/reconciler/metricpipeline/reconciler.go:345-361 | the loop selects the reconcilable pipelines in order, and fails exactly if the validation of one meets an API failure |
| `Validation.ReconcilableConcat` | internal/reconciler/metricpipeline/reconciler.go:345-361 | the selection works pipeline by pipeline, so order and repetition are kept |
| `Validation.AgentServesExactly` | internal/reconciler/metricpipeline/reconciler.go:317-339 | the metric agent serves exactly the pipelines that require it, are not deleting, and are owners with passing checks or an about-to-expire certificate as first objection; a pipeline that is no owner exactly if that comes ahead of the lock |
| `ReconcileStatus.TroubledExactly` | internal/reconciler/metricpipeline/status.go:28-204 | a pipeline keeps the module from being ready if and only if a validator objects, a workload probe fails, or an answered flow probe is bad |
| `Conditions.SetMembers` | internal/reconciler/telemetry/status.go:58-59 | upserting a condition keeps exactly the conditions of other types, one per type |
| `TelemetryState.FirstUnhealthy` | internal/reconciler/telemetry/metric_components_checker.go:68-92 | the nested search finds the first False condition by type priority and then list order, or none if and only if there is none |
| `TelemetryState.FirstUnhealthyUnique` | internal/reconciler/telemetry/metric_components_checker.go:68-92 | that priority determines the answer |
| `TelemetryState.FirstExpiring` | internal/reconciler/telemetry/metric_components_checker.go:52-66 | the first about-to-expire pipeline in list order, or none if and only if there is none |
| `TelemetryState.Check` | internal/reconciler/telemetry/metric_components_checker.go:20-50 | all branches of a checker, and outside deletion the condition is bad if and only if some pipeline is troubled |
| `TelemetryState.Telemetry.UpdateOverallState` | internal/reconciler/telemetry/status.go:64-87 | the loop decides Warning exactly if some condition is bad, and the deletion states |
| `TelemetryState.ResourcesExistExactly` | internal/reconciler/telemetry/status.go:225-232 | a List counts as something left if and only if it returned an item, or failed for want of the kind |
| `TelemetryState.Telemetry.UpdateComponentCondition` | internal/reconciler/telemetry/status.go:52-62 | one checker changes only its own condition, and a failed List changes nothing |
| `TelemetryState.Telemetry.UpdateStatus` | internal/reconciler/telemetry/status.go:26-46 | the stored status changes exactly if nothing fails; then each component condition tells of the pipelines of its own signal; outside deletion the stored state is Ready if and only if no pipeline of any signal is troubled and no condition of another type is bad; in deletion it is Warning exactly if something is left; and the endpoints of exactly the existing services are published |
| `TelemetryState.Telemetry.UpdateComponentConditions` | internal/reconciler/telemetry/status.go:29-33 | after the three checkers some condition is bad exactly if some pipeline is troubled or a condition of another type was bad |
| `TelemetryState.TroubleOrderFree` | internal/reconciler/telemetry/metric_components_checker.go:68-92 | that does not depend on the order of the lists |
| `ConfigChecksum.SortObjects` | internal/configchecksum/checksum.go:41-59 | a sorted permutation of the input |
| `ConfigChecksum.SortKeys` | internal/configchecksum/checksum.go:61-70 | the keys of the map, each once, in order, for every iteration order |
| `ConfigChecksum.Calculate` | internal/configchecksum/checksum.go:13-25 | the hash is fed the key and value texts of sorted config maps and then of sorted secrets |
| `ConfigChecksum.LessTotal` | internal/configchecksum/checksum.go:72-78 | less is a strict total order on (namespace, name) |
| `ConfigChecksum.StringLessExactly` | internal/configchecksum/checksum.go:72-78 | the order of texts: the first difference decides, and a proper prefix comes first |
| `ConfigChecksum.FedFormat` | internal/configchecksum/checksum.go:13-39 | config maps come ahead of secrets, by namespace and then by name |
| `ConfigChecksum.SortUnique` | internal/configchecksum/checksum.go:41-59 | with distinct (namespace, name) there is only one sorted arrangement |
| `ConfigChecksum.ChecksumOrderFree` | internal/configchecksum/checksum.go:13-78 | for every permutation of the inputs and every map iteration order the hash is fed the same text |
| `ConfigChecksum.TextDeterminesDataOfShape` | internal/configchecksum/checksum.go:13-39 | among inputs with the same objects, keys and value lengths, the hash is fed the same text if and only if the inputs hold the same config maps and secrets |
| `ConfigChecksum.ChecksumNotInjective` | internal/configchecksum/checksum.go:13-39 | two inputs with different config maps that feed the same text, for want of delimiters |

## Left out

- GatewayBound.RenderedLiveBounded: counts live pipelines only, because a removed pipeline may still be rendered from a stale read, and only those whose own name had one bearer; that a reused name exceeds the limit is shown by one run, not characterised.
- GatewayResources.OtlpGateway.DeleteResources: the network policies are listed as the two that the gateway has; one that disappears between the List and its deletion, which ends the call early, is not modelled. The legacy gateways that are cleaned up first are not modelled.
- StorageMigration.Migrator.MigrateObjects: assumes that every write stores v1beta1 and that a List returns every object still stored at v1alpha1; a List served from a stale cache is not modelled.
- WebhookCert.World.EnsureCertificate: remaining lifetimes are measured from the begin of the call, and "the server certificate never outlives the CA" assumes that no call took 23 days or longer.
- WebhookCert.World.Save: a file is written whole or not at all.
- WebhookCert.ServesTornPair: the effects of the two calls that lead there are written out, since which call fails is not a choice of the caller.
- LogConversion.SpokeHubSpoke: JSON is an abstract encoder and decoder of which only the inverse law is used, up to empty container lists; labels, owner references and the status are not modelled.
- LogConversion.RereadExactIff: a nil list and an empty one are one value except for container lists, so that the encoded form drops other empty lists is not visible.
- LogSpecs.HubSpokeHub: the conversion functions are modelled on values, not as writes to out-parameters; fields that are copied unchanged are grouped.
- MetricConversion.ConvertRuntimeInput: the shared resource switches of the runtime input are one map, which is copied.
- ReconcileStatus.Reconciler.Reconcile: one undisturbed reconcile, in which every read is current and the validators answer alike both times; races are the subject of Admission.
- ReconcileStatus.Reconciler.ReconcileAgents: what a broken-off write of the agent objects leaves is only marked as unsettled.
- ConfigChecksum.Calculate: the hash function is abstract, and secret bytes are text.
- ConfigChecksum.TextDeterminesDataOfShape: sufficient for a caller who knows the shape; which pairs of different shapes collide is not characterised.
- The log pipeline sub-reconcilers (their agents, Fluent Bit, and their own status conditions): log pipelines take part in Admission as a third kind of the same protocol.
- The pipeline syncer, a second lock without a limit: covered by the lock model with no limit, not as a separate step of the protocol.
- The validators, probers, config builders, manifests, overrides and node sizes: their answers are parameters.
- Network watch streams, reconnects, shutdown timeouts and locks of the secret watcher: only start, cancel and event fan-out are modelled; each call is atomic, as the mutex makes it.
- Real YAML, JSON, PEM, X.509, RSA and SHA-256; condition messages and info metrics.
- Deep copies, generated registration code, controller wiring and command line: they would only add easy members.
