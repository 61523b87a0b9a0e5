# Vault Secrets Operator: a verified model of its core

The Vault Secrets Operator keeps three things in step: the Vault clients it has cached, leases
and certificates that run out on a clock, and the Kubernetes Secrets it writes. This project
models the code that does so and proves what that code is for. It is self-contained;
`dafny verify dfyconfig.toml` checks all of it.

Two layers recur. Operations that change state are classes and methods in the order of the
source. Each is proved against a function on values, and the theorems are about those
functions: what each call decides, records and answers, spelled out on inputs and results
(`FactoryAnswers`, `DynamicOutcomes`, `PkiOutcomes`, `AuthOutcomes`), and whole runs of arbitrary
length. Outcomes of Vault, the Kubernetes
API, clocks and random draws are arguments, and every statement holds for all of them.

| files | what they model |
|---|---|
| `CacheKeys`, `ClientTiers`, `ClientCaches` | cache keys, and the two LRU tiers of Vault clients |
| `FactoryRuns`, `FactoryAnswers`, `StorageRuns`, `ClientFactories` | the caching client factory as a state machine and as an object |
| `Horizons`, `DynamicSecrets`, `DynamicOutcomes`, `DynamicRuns`, `StaticCreds` | leases: one reconciliation, whole runs, static credentials |
| `SyncRequests` | requested syncs, kept in memory |
| `PkiWindow`, `PkiReconciler`, `PkiOutcomes`, `PkiRuns` | certificates: the renewal window, one reconciliation, whole runs |
| `EventWatchers` | the event watchers as interleaved steps |
| `SecretSync`, `DriftDetection`, `Base64` | writing destination Secrets, ownership, drift |
| `AuthMerge`, `AuthOutcomes`, `VaultAuths` | merging a VaultAuthGlobal into a VaultAuth, and pruning the clients of older ones |
| `ClientStorage`, `StoredClients`, `Decimals` | persisted clients, and their part in the factory |
| `ReferenceCaches`, `DataSelection` | the reference index with its event handler, and data filtering |
| `Results` | Option and Result |

## Main results

- **No stale clone** (`NoStaleClone`): after any sequence of factory calls, every cached clone
  hangs off the very client cached under its parent key.
- **Answers** (`HandedOutAnswers`, `AskingAgainOverRuns`, `TokenComesBack`): what a caller is
  handed is in the namespace asked for and holds its cached parent's token, asking again gives
  the same client, and a saved client that left the cache comes back with its token.
- **Conservation** (`CachedOrClosedOnce`): over any run, every parent client that ever entered
  the cache is either still cached under its own key or was closed exactly once.
- **Lease liveness** (`RequeuedBeforeLeaseEnd`) and **certificate liveness**
  (`CheckedBeforeExpiration`): over whole runs, for every jitter draw and across restarts, each
  requeue falls no later than the end of the lease, or of the certificate, then on record. Static
  credentials are always revisited within 1.15 seconds of their rotation
  (`StaticCredsAreRevisited`).
- **Watcher safety** (`WatchersAreSafe`): under all disciplined interleavings, at most one live
  watcher per object, and each uncancelled one is registered.
- **Ownership and drift** (`OwnedSecretIsUntouched`, `DestinationHoldsUntilNextOwnCall`,
  `InSyncAfterEverySuccess`, `UpdateIsApplied`, `RepeatWritesIff`).
- **Merging** (`MergeIdempotent`, `MergeIsLocallyBiased`), **storage round trip**
  (`RestoreAfterStore`), and the key codec (`ParentOfClone`, `CloneOfParent`, `PrefixIsParent`).

## Where the code departs from what one would expect

Each is kept as the code has it, with the exact condition proved where it is about behaviour.

- AppRole keys are computed as `approle-...` but recognised as `appRole-...`, so exactly the
  AppRole clones (and namespaces with a newline) are not recognised and not cached:
  `ComputedKeyRecognisedIff`, `ComputedCloneRecognisedIff`.
- A comment says that the callback handler removes pruned clients from storage. It does so for
  finished lifetime watchers only: `PrunedEntryGoesIff`, `CallbackEntryGoesIff`. The
  configuration's `PruneStorageOnEvict` is never read; only a shutdown sets the switch:
  `SwitchOffUntilShutDown`.
- A lease that a renewal returns as not renewable is not requeued: `RenewalRequeuedIff`.
- After a restart, a lease outside its renewal window is requeued a second later at the least.
  That is in time iff a second lies between the start of the window and the end of the lease:
  `RestartSkipInTimeIff`, and `RoomyForEveryPercentageIff` for what that means in seconds.
- Requested syncs are kept in memory, so a restart loses them, unless the status shows another
  reason to sync: `RestartLosesRequestIff`, for dynamic secrets and for certificates.
- The MAC of static credentials covers stripped data, drift detection the whole Secret, so an
  unchanged Secret is written again unless none of the stripped keys occurs: `StaticCredsQuietIff`.
- An empty data map is read back as nil and is written again and again: `RepeatWritesIff`.
- The VaultAuth reconciler records the hash of a merged spec even when errors kept it from
  pruning, so clients of the previous spec can stay cached: `LeavesNoneStaleIff`,
  `FailureHidesChangeIff`.
- The PKI reconciler records the generation on failure paths, and while it waits for a
  destination, so some updates are forgotten: `UpdateForgottenIff`, `RecordedWithoutSync`.
- When a Secret's type changes and its deletion fails, the owner is refused from then on:
  `StrippedOwnerIsRefusedIff`, `StrippedStaysRefused`. A client's storage entry that cannot be recreated is lost:
  `FailedStoreLosesIff`.
- An expiryOffset below one second lets a check overshoot the expiration:
  `OneHopBeforeExpirationIff`, `SubSecondOffsetOvershoots`.
- A watcher that drains after `unWatchEvents` can delete its successor's registration:
  `DrainingWatcherOrphansSuccessor`. `SafeIffDisciplined` says which actions break safety, and
  `LaunchIsSafeIff` and `DeregisterIsSafeIff` when each step is harmless.
- A comment at `HashString` speaks of eight and four characters; the code takes seven and four
  bytes, which gives the 22 digits that the keys are recognised by.

## Model

| member | source | states |
|---|---|---|
| `CacheKeys.ComputeKey` | vault/cache_key.go:124-162 | succeeds exactly for a named method, three distinct 36-character UIDs and a key of at most 63 characters; otherwise lists exactly the kinds of failure there are; the result is the lower-cased method and digest |
| `CacheKeys.FirstMatchMatches` | vault/cache_key.go:22-31 | the recogniser finds a method iff some supported method followed by 22 hex digits starts the key |
| `CacheKeys.MethodOfMatch` | vault/cache_key.go:26-30 | at most one alternative can match, so the order of the methods does not matter |
| `CacheKeys.MethodOfExtended` | vault/cache_key.go:48-54 | appending to a recognised key changes neither its method nor its parent part |
| `CacheKeys.MethodOfTruncated` | vault/cache_key.go:48-54 | what `Parent` cuts off a key is itself a base key |
| `CacheKeys.BaseKeyIsNoClone` | vault/cache_key.go:42-54 | base keys are never clones and are their own parent |
| `CacheKeys.BaseKeyIff` | vault/cache_key.go:22-31 | a base key is a supported method, a dash and 22 hexadecimal digits |
| `CacheKeys.ParentOfClone` | vault/cache_key.go:166-176 | for every base key and non-empty newline-free namespace, the clone key is recognised and its parent is the base key |
| `CacheKeys.CloneOfParent` | vault/cache_key.go:42-54 | conversely every recognised clone is the clone of its parent |
| `CacheKeys.CloneInjective` | vault/cache_key.go:166-176 | a clone key determines parent and namespace |
| `CacheKeys.SiblingsIffSameBase` | vault/cache_key.go:57-68 | `SameParent` of clones, or of a clone and a base key, is equality of the base keys |
| `CacheKeys.PrefixIsParent` | vault/cache.go:168-182 | the prefix test of `pruneClones` coincides with parent equality |
| `CacheKeys.HashInputInjective` | vault/cache_key.go:152-154 | distinct identities are hashed from distinct texts |
| `CacheKeys.KeyDeterminesIdentity` | vault/cache_key.go:124-162 | without a digest collision, equal keys mean the same auth, connection, provider and generations |
| `CacheKeys.ComputedKeyRecognisedIff` | vault/cache_key.go:156-156 | for every method of a VaultAuth, what `ComputeKey` returns is a computed key, and it is recognised iff the method is not AppRole |
| `CacheKeys.ComputedCloneRecognisedIff` | vault/cache_key.go:166-176 | its clones are recognised iff the method is not AppRole and the namespace has no newline |
| `Decimals.AtoiFormatInt` | vault/cache_storage.go:412-428 | an int64 printed in decimal is parsed back unchanged |
| `Decimals.FormatIntInjective` | vault/cache_key.go:152-154 | decimal printing is injective |
| `ClientTiers.TouchedIsNewest` | vault/cache.go:72-90 | a hit makes the entry the newest one |
| `ClientTiers.InsertionAgesByOne` | vault/cache.go:94-122 | an addition under another key moves an entry back by at most one place and makes the added entry the newest |
| `ClientTiers.NewestSurvives` | vault/cache.go:94-122 | the client used last is not evicted by fewer than `size` additions under other keys |
| `ClientTiers.InsertedMembers` | vault/cache.go:94-122 | adding under a free key keeps keys unique and the bound, and loses at most the evicted entry |
| `ClientTiers.PrefixIsParentOfComputed` | vault/cache.go:168-182 | the prefix test is exact for every key the factory computes, AppRole included |
| `ClientTiers.DropKeepsCoherence` | vault/cache.go:147-182 | losing a parent together with its prefixed clones leaves every other clone linked |
| `ClientTiers.RemoveKeepsCoherence` | vault/cache.go:128-166 | `Remove` of any key keeps the tiers coherent and vacates a parent key |
| `ClientTiers.LookupKeepsCoherence` | vault/cache.go:72-90 | `Get` keeps coherence and changes only the order |
| `ClientTiers.LookupFinds` | vault/cache.go:72-90 | `Get` finds exactly the client that sits under the key in the tier of the key |
| `ClientTiers.LookupRenews` | vault/cache.go:72-90 | a hit makes the client the newest of its tier and leaves the other tier alone |
| `ClientTiers.RemoveLeaves` | vault/cache.go:128-182 | a clone goes alone, a parent takes exactly its clones along, all others stay |
| `ClientTiers.AddToRoom` | vault/cache.go:94-122 | an added parent is the newest, and with room nobody leaves |
| `ClientTiers.AddToFull` | vault/cache.go:94-122 | a full tier loses exactly the oldest parent, which is closed, with exactly its clones |
| `ClientTiers.AddParentKeepsCoherence` | vault/cache.go:94-122 | adding a parent under a free key keeps coherence, eviction and its cascade included |
| `ClientTiers.AddCloneKeepsCoherence` | vault/cache.go:94-122 | adding a clone of a cached parent keeps coherence |
| `ClientTiers.OverwriteBreaksCoherence` | vault/client_factory.go:583-588 | without the removal in `cacheClient`, overwriting a parent that has clones always breaks coherence |
| `ClientTiers.RemoveConserves` | vault/cache.go:147-166 | the multiset of cached and closed parents is unchanged by `Remove` |
| `ClientTiers.LookupConserves` | vault/cache.go:72-90 | and by `Get` |
| `ClientTiers.AddConserves` | vault/cache.go:94-122 | and grows by exactly the added parent |
| `ClientTiers.PrunedParents` | vault/cache.go:132-145 | after n keys `Prune` has filtered the first n parents and left the rest alone |
| `ClientTiers.SelectedMembers` | vault/cache.go:132-145 | the clients that `Prune` returns are exactly the cached ones that pass the filter |
| `ClientTiers.PruneExact` | vault/cache.go:132-182 | `Prune` closes exactly the selected parents, keeps the others in order, and keeps exactly the clones linked to those |
| `ClientTiers.NotAfterItsParent` | vault/cache.go:168-182 | in coherent tiers no clone survives the removal of all parents |
| `ClientTiers.PurgeEmptiesBothTiers` | vault/cache.go:45-59 | `Purge` visits only parents, yet leaves both tiers empty because of coherence, and closes every parent in order |
| `ClientCaches.Lru.Add` | vault/cache.go:94-122 | bounded recency-ordered insertion; overwriting is silent, overflow returns the oldest entry |
| `ClientCaches.Lru.Get` | vault/cache.go:72-90 | a hit returns the client and renews its recency |
| `ClientCaches.Lru.Peek` | vault/cache.go:132-166 | a lookup that changes nothing |
| `ClientCaches.Lru.Remove` | vault/cache.go:147-166 | removes the one entry of the key and returns it |
| `ClientCaches.Lru.Keys` | vault/cache.go:45-59 | keys from oldest to newest |
| `ClientCaches.EvictHandler.OnClientEvict` | vault/client_factory.go:255-267 | every evicted client is closed; its storage entry goes only with persistence and the switch on, and if the API lets it go |
| `ClientCaches.ClientCache.constructor` | vault/cache.go:197-253 | two empty tiers of the same size, wired to the handler |
| `ClientCaches.ClientCache.Get` | vault/cache.go:72-90 | the key's text selects the tier |
| `ClientCaches.ClientCache.Add` | vault/cache.go:94-122 | clones with unrecognised keys are refused; an evicted parent reaches the callback and takes its clones along |
| `ClientCaches.ClientCache.OnEvict` | vault/cache.go:186-230 | the callback closes the client, then prunes its clones |
| `ClientCaches.ClientCache.RemoveKey` | vault/cache.go:147-166 | removal with and without the peek, cascading from parents to clones |
| `ClientCaches.ClientCache.Remove` | vault/cache.go:128-130 | reports whether the key was cached |
| `ClientCaches.ClientCache.PruneClonesOf` | vault/cache.go:168-182 | walking a snapshot of the keys removes exactly the prefixed clones |
| `ClientCaches.ClientCache.Prune` | vault/cache.go:132-145 | removes and returns exactly the selected parents, oldest first |
| `ClientCaches.ClientCache.Purge` | vault/cache.go:45-59 | removes every parent and returns all their keys, although each is looked up first |
| `ClientCaches.RemoveAfterLookup` | vault/cache.go:45-59 | looking a key up before removing it makes no difference |
| `FactoryRuns.CacheParentKeepsInvariant` | vault/client_factory.go:575-615 | `cacheClient` of a fresh parent keeps the invariant under an occupied key too |
| `FactoryRuns.NamespacedKeepsInvariant` | vault/client_factory.go:381-408 | handing out a namespaced clone keeps the invariant whether or not its key is recognised |
| `FactoryRuns.GetKeepsInvariant` | vault/client_factory.go:337-469 | every path through `Get` keeps the invariant: hit, invalid hit, restoration, failed restoration, login |
| `FactoryRuns.RestoreKeepsInvariant` | vault/client_factory.go:271-296 | so does `Restore` |
| `FactoryRuns.PruneKeepsInvariant` | vault/client_factory.go:187-239 | so does `Prune` |
| `FactoryRuns.CallbackKeepsInvariant` | vault/client_factory.go:760-828 | so does the callback handler for any request, stale ones included |
| `FactoryRuns.ShutDownKeepsInvariant` | vault/client_factory.go:300-320 | so does `ShutDown` |
| `FactoryRuns.InvariantOverRuns` | vault/client_factory.go:337-469 | the invariant holds in every reachable state |
| `FactoryRuns.NoStaleClone` | vault/client_factory.go:381-469 | in every reachable state each cached clone was made from the client cached under its parent key, and holds that client's token |
| `FactoryRuns.CachedOrClosedOnce` | vault/client_factory.go:575-615 | every parent ever inserted is cached once under its own key or was closed once, never both, never neither |
| `FactoryRuns.OnlyInsertedAreClosed` | vault/client_factory.go:255-267 | nothing else is ever closed |
| `FactoryRuns.ShutDownClosesEverything` | vault/client_factory.go:300-320 | after a shutdown both tiers are empty and every parent ever inserted was closed exactly once |
| `StorageRuns.PrunedEntryGoesIff` | vault/client_factory.go:211-251 | before a shutdown `Prune` deletes a storage entry iff there is storage, the callbacks are skipped, a pruned client has the key and the API lets it go |
| `StorageRuns.CallbackEntryGoesIff` | vault/client_factory.go:795-822 | the callback handler deletes an entry iff there is storage, a lifetime watcher is done, the key is the client's or its parent's and the API lets it go; a removal request changes nothing |
| `StorageRuns.SwitchOffUntilShutDown` | vault/client_factory.go:300-316 | over every run, storage is not pruned on eviction before a shutdown |
| `StorageRuns.PrunedEntryGoesOverRunsIff` | vault/client_factory.go:187-251 | so the condition for `Prune` holds in every reachable state |
| `FactoryAnswers.FoundCloneAnswers` | vault/client_factory.go:385-392 | a clone found in the cache is in the namespace asked for and hangs off the cached parent |
| `FactoryAnswers.NewCloneAnswers` | vault/client_factory.go:394-405 | a new clone is in the namespace asked for, holds the parent's token, and is cached iff its key is recognised |
| `FactoryAnswers.GetAnswers` | vault/client_factory.go:337-469 | what `Get` hands out is in the namespace asked for; it is the cached parent where none, or the parent's own, was asked for, and else a clone of it with its token |
| `FactoryAnswers.HandedOutAnswers` | vault/client_factory.go:337-469 | so it is over every run |
| `FactoryAnswers.ValidHit` | vault/client_factory.go:411-428 | a valid hit is served from the cache with nothing inserted, closed, stored or announced, and fails iff a clone is needed, not cached and cannot be made |
| `FactoryAnswers.InvalidHit` | vault/client_factory.go:417-424 | an invalid hit is closed and announced once, and a login takes its place or nothing does |
| `FactoryAnswers.MissWithEntry` | vault/client_factory.go:429-436 | a miss with a usable entry restores the stored token without a login |
| `FactoryAnswers.MissWithoutEntry` | vault/client_factory.go:444-469 | any other miss lets in the client of the login, or answers with its failure |
| `FactoryAnswers.AskingAgain` | vault/client_factory.go:381-428 | asking again with a valid parent gives the very same client, unless it is a clone whose key is not recognised |
| `FactoryAnswers.AskingAgainOverRuns` | vault/client_factory.go:337-469 | so it does over every run |
| `FactoryAnswers.Refused` | vault/client_factory.go:338-362 | a shut down factory and a key that cannot be computed are refused without effect |
| `FactoryAnswers.RestoreAnswers` | vault/client_factory.go:271-296 | `Restore` gives a client iff a stored one can be restored, with its token and namespace |
| `FactoryAnswers.CallbackRemovesExactly` | vault/client_factory.go:795-822 | a finished lifetime watcher removes exactly its parent, which is closed |
| `FactoryAnswers.PruneAnnounces` | vault/client_factory.go:211-239 | `Prune` closes exactly the clients that pass the filter, and announces exactly those, in that order, unless told not to |
| `FactoryAnswers.ShutDownRevokes` | vault/client_factory.go:300-320 | a shutdown closes every parent, with revocation iff it was asked to |
| `FactoryAnswers.ShutDownStorage` | vault/client_factory.go:255-320 | a storage entry goes in a shutdown iff with revocation, a cached client and an API that lets it go |
| `FactoryAnswers.NoneRevokedBeforeShutDown` | vault/client_factory.go:255-267 | over every run, no client is closed with revocation before a shutdown |
| `StorageRuns.SavedTokenIsStored` | vault/client_factory.go:444-462 | a login that is saved leaves its token in storage |
| `StorageRuns.UndisturbedRun` | vault/client_factory.go:429-615 | over every run before a shutdown, a stored token changes only by a saved or lost login of its key, an unusable restoration, a pruning without callbacks or a finished lifetime watcher |
| `StorageRuns.RestoredAnswers` | vault/client_factory.go:431-436 | a miss that restores hands out the stored token in the namespace asked for |
| `StorageRuns.TokenComesBack` | vault/client_factory.go:337-469 | a client that logged in and was saved comes back with its token and key after any such run, in the namespace asked for |
| `StoredClients.StoringRepresents` | vault/client_factory.go:471-502 | storing a Secret, with each call of the API allowed to fail, is what the factory's steps do to their stored tokens |
| `StoredClients.RestoringRepresents` | vault/client_factory.go:504-540 | restoring gives back the stored token and identity iff the Secret can be read, and changes nothing |
| `StoredClients.RefusalRepresents` | vault/client_factory.go:542-553 | a refused restoration deletes the token with the Secret, or neither |
| `StoredClients.PruningFinds` | vault/client_factory.go:242-251 | pruning by cache key finds that key's Secret and no other |
| `StoredClients.PruningRepresents` | vault/client_factory.go:242-251 | deleting it, or failing to, is what the factory's steps do to their stored tokens |
| `VaultAuths.VaultAuthReconciler.Reconcile` | controllers/vaultauth_controller.go:60-196 | one reconciliation is the step below: merge, errors, hash, pruning, recorded hash, and the deletion |
| `VaultAuths.LeavesNoneStaleIff` | controllers/vaultauth_controller.go:131-171 | no client of an older VaultAuth or older merged spec stays cached iff there was none, or no error was met and the recorded hash differs or only older generations were stale |
| `VaultAuths.PrunesExactly` | controllers/vaultauth_controller.go:141-169 | a client goes iff it is of this VaultAuth, no error was met, and it is older or the hash changed |
| `VaultAuths.RecordsHash` | controllers/vaultauth_controller.go:131-185 | the hash of the merged spec is recorded after successes and failures alike; which are which |
| `VaultAuths.RepeatedSuccessIsQuiet` | controllers/vaultauth_controller.go:131-171 | after a recorded success, repeating it prunes and announces nothing and records the same |
| `VaultAuths.ClonesFollow` | controllers/vaultauth_controller.go:131-171 | the clones that stay hang off parents that stay |
| `VaultAuths.HashChangedIff` | controllers/vaultauth_controller.go:131-145 | with a collision-free hash, the recorded hash differs iff the merged spec does |
| `VaultAuths.FailureHidesChangeIff` | controllers/vaultauth_controller.go:139-174 | after a failed reconciliation that saw a changed merged spec, the next successful one leaves no stale client iff the hash was not recorded or none of the current generation was there |
| `VaultAuths.DeletionLeavesNone` | controllers/vaultauth_controller.go:222-240 | a deleted VaultAuth leaves none of its clients, and exactly the stuck ones of their storage entries |
| `ClientFactories.ClientFactory.CacheClient` | vault/client_factory.go:575-615 | removes an occupant first, adds, and stores if asked; a refused clone is no error |
| `ClientFactories.ClientFactory.NamespacedClient` | vault/client_factory.go:381-408 | returns the client itself, the cached clone, or a new clone |
| `ClientFactories.ClientFactory.Get` | vault/client_factory.go:337-469 | takes the step of the state machine and keeps the invariant |
| `ClientFactories.ClientFactory.RestoreOrLogin` | vault/client_factory.go:429-469 | after a miss: a restored client, or a login; an unusable entry is deleted, an unreadable one stays |
| `ClientFactories.ClientFactory.Restore` | vault/client_factory.go:531-564 | restores from storage; an unusable entry is deleted, an unreadable one stays |
| `ClientFactories.ClientFactory.Prune` | vault/client_factory.go:211-239 | one removal request per pruned client, or the storage entries go, by skipCallbacks; counts the pruned clients and fails iff an entry could not be deleted |
| `ClientFactories.ClientFactory.HandleCallback` | vault/client_factory.go:795-824 | a finished lifetime watcher removes the parent, and its storage entry if the API lets it go |
| `ClientFactories.ClientFactory.ShutDown` | vault/client_factory.go:300-320 | sets the switches and purges both tiers |
| `Horizons.Jitter` | controllers/common.go:67-77 | a draw below its bound, or zero |
| `Horizons.DynamicHorizonBounds` | controllers/common.go:97-122 | for every percentage and draw the horizon lies between the start of the renewal window and the end of the lease |
| `Horizons.DynamicHorizonRange` | controllers/common.go:97-122 | over all draws the horizon takes exactly the values in the tenth of the lease behind its renewal start |
| `Horizons.ErrorHorizonRange` | controllers/common.go:89-93 | over all draws the error horizon takes exactly the values between 80% and 90% |
| `Horizons.HorizonWithJitterBounds` | controllers/common.go:89-93 | the error horizon keeps between 80% and 90% of the duration |
| `DynamicSecrets.Reconciler.Reconcile` | controllers/vaultdynamicsecret_controller.go:99-325 | one reconciliation, all branches, is the step of the state machine; other objects' registry entries are untouched |
| `DynamicSecrets.Reconciler.UpdateStatus` | controllers/vaultdynamicsecret_controller.go:550-563 | generation and pod are recorded; a failed update changes nothing and is not an error |
| `DynamicSecrets.Reconciler.RecordRenewal` | controllers/vaultdynamicsecret_controller.go:217-245 | a renewed lease replaces the recorded one only if it is renewable and keeps its ID |
| `DynamicSecrets.Reconciler.SyncAndRecord` | controllers/vaultdynamicsecret_controller.go:263-325 | a failed sync is registered for another; a successful one clears the registry last |
| `DynamicOutcomes.BranchIff` | controllers/vaultdynamicsecret_controller.go:99-325 | each of the ten branches is taken exactly under its condition, spelled out on status and surroundings |
| `DynamicOutcomes.Records` | controllers/vaultdynamicsecret_controller.go:550-563 | a persisted sync, renewal or skip records generation, pod and client; every other step leaves the status |
| `DynamicOutcomes.SyncRecords` | controllers/vaultdynamicsecret_controller.go:294-299 | a sync records lease, time, credentials and MAC |
| `DynamicOutcomes.RenewalRecords` | controllers/vaultdynamicsecret_controller.go:229-234 | a renewal records lease and time and forgets the credentials; a skip records neither |
| `DynamicOutcomes.FailsIff` | controllers/vaultdynamicsecret_controller.go:99-325 | which steps return an error |
| `DynamicOutcomes.FailureRequeues` | controllers/vaultdynamicsecret_controller.go:99-299 | when the failing steps are tried again |
| `DynamicOutcomes.StaticSyncRequeues` | controllers/vaultdynamicsecret_controller.go:301-325 | a successful sync of static credentials is requeued iff they rotate, in [TTL, TTL + 0.65s), or [1s, 1.15s) without a TTL |
| `DynamicOutcomes.LeaseSyncRequeues` | controllers/vaultdynamicsecret_controller.go:301-325 | a synced lease is requeued within the tenth of it that follows its renewal start |
| `DynamicOutcomes.RenewalRequeues` | controllers/vaultdynamicsecret_controller.go:236-245 | so is a renewed one |
| `DynamicOutcomes.SkipRequeues` | controllers/vaultdynamicsecret_controller.go:183-213 | a skip is requeued when the credentials are due, not within a second, by at most 5% earlier for leases and 0.15s later for static credentials |
| `DynamicOutcomes.VisitStaysLive` | controllers/vaultdynamicsecret_controller.go:711-771 | every healthy reconciliation of static credentials leaves a requeue after the rotation on record and within 1.15s of the expected one |
| `DynamicOutcomes.StaticCredsAreRevisited` | controllers/vaultdynamicsecret_controller.go:183-325 | so it is over whole runs, for all draws, forced syncs and restarts |
| `DynamicRuns.GenerationMovesBySync` | controllers/vaultdynamicsecret_controller.go:550-563 | only a sync moves the recorded generation |
| `DynamicRuns.GenerationWasSynced` | controllers/vaultdynamicsecret_controller.go:153-315 | over every run, a recorded generation above zero was synced by an earlier step |
| `DynamicRuns.PendingStep` | controllers/vaultdynamicsecret_controller.go:153-245 | while pending, no step renews or skips, and the entry goes iff the step syncs successfully or handles a deletion |
| `SyncRequests.PendingIff` | controllers/registry.go:183-225 | over every run of any reconciler that keeps an entry, the entry is there iff it was made and nothing has cleared it since |
| `SyncRequests.PendingUntilCleared` | controllers/registry.go:200-225 | and it stays until an event clears it |
| `DynamicRuns.SyncPendingIff` | controllers/registry.go:183-225 | over every run, restarts included, a sync is pending iff one was requested that nothing has served or lost since |
| `DynamicRuns.PendingUntilServed` | controllers/registry.go:194-225 | over every run, a requested sync stays pending until it is served or the process restarts |
| `DynamicRuns.NoShortcutWhilePending` | controllers/vaultdynamicsecret_controller.go:183-245 | over every run, no renewal and no restart skip happens before that |
| `DynamicRuns.RestartLosesRequestIff` | controllers/vaultdynamicsecret_controller.go:153-213 | a restart loses a requested sync iff the status shows nothing else to sync for; the next step then skips or renews wherever it otherwise would |
| `DynamicRuns.LeaseKeptBetweenSyncs` | controllers/vaultdynamicsecret_controller.go:574-595 | between syncs the lease ID is constant and the recorded duration never decreases |
| `DynamicRuns.RestartSkipInTime` | controllers/vaultdynamicsecret_controller.go:835-887 | with a second between the start of the renewal window and lease end, a restart skip is requeued before the lease ends |
| `DynamicRuns.RestartSkipInTimeIff` | controllers/vaultdynamicsecret_controller.go:835-887 | every restart skip, for all times and draws, is requeued in time iff there is that second |
| `DynamicRuns.RoomyForEveryPercentageIff` | controllers/common.go:97-122 | there is, for every renewal percentage, iff the lease has at least ten seconds |
| `DynamicRuns.VisitStaysLive` | controllers/vaultdynamicsecret_controller.go:183-315 | every healthy reconciliation in time leaves a requeue before the lease ends |
| `DynamicRuns.TickStaysLive` | controllers/vaultdynamicsecret_controller.go:183-315 | so does every event, forced syncs and restarts included |
| `DynamicRuns.FirstSyncIsLive` | controllers/vaultdynamicsecret_controller.go:155-157 | the initial sync establishes this |
| `DynamicRuns.RequeuedBeforeLeaseEnd` | controllers/vaultdynamicsecret_controller.go:183-245 | over whole runs each requeue falls no later than lease end, for all draws, percentages, failing renewals, forced syncs and restarts that lose the registry |
| `DynamicRuns.NineSecondsAreTooFew` | controllers/vaultdynamicsecret_controller.go:874-887 | with nine seconds some restart skip comes too late at 90 percent, and none does at 80 |
| `DynamicRuns.RenewalRequeuedIff` | controllers/vaultdynamicsecret_controller.go:217-245 | a renewal is requeued iff the answer is still renewable |
| `StaticCreds.AwaitRotation` | controllers/vaultdynamicsecret_controller.go:459-548 | metadata is that of the response returned; the loop stops at the first acceptable answer, and an unmoved rotation then has a TTL above 2 and below the last one |
| `StaticCreds.ParsedFields` | controllers/vaultdynamicsecret_controller.go:889-937 | each field of the metadata is read from the field of its name, and reading fails iff one is malformed |
| `StaticCreds.MustWaitIff` | controllers/vaultdynamicsecret_controller.go:473-491 | the loop runs iff a schedule, the rotation and the schedule synced last are all unchanged |
| `StaticCreds.AcceptableIff` | controllers/vaultdynamicsecret_controller.go:499-548 | it goes on iff an answer fails, cannot be read, or shows the old rotation with a TTL of at most 2 or no less than the last one |
| `StaticCreds.PostSyncHorizonOfStaticCreds` | controllers/vaultdynamicsecret_controller.go:711-771 | the horizon lies in [TTL, TTL + 0.65s), or [1s, 1.15s) without a TTL |
| `StaticCreds.NoHorizonWithoutRotation` | controllers/vaultdynamicsecret_controller.go:711-754 | there is no periodic refresh iff the data carries no rotation |
| `PkiWindow.RenewalWindow` | controllers/vaultpkisecret_controller.go:458-497 | in the window iff less than a second remains to the rotation time; the horizon leads to the next check of the chain |
| `PkiWindow.NextCheckRange` | controllers/vaultpkisecret_controller.go:473-489 | the next check comes within 5% of the rotation time, before it without an offset and after it with one, or after 1 to 1.05s in the window |
| `PkiWindow.NextCheckAttains` | controllers/vaultpkisecret_controller.go:484-489 | and every such moment is drawn |
| `PkiWindow.HopWithoutOffset` | controllers/vaultpkisecret_controller.go:454-497 | without an offset, a check outside the window leaves less than 1/20 of the remaining time and does not pass the expiration |
| `PkiWindow.ChainWithoutOffset` | controllers/vaultpkisecret_controller.go:158-169 | n hops outside the window divide the remaining time by 20^n |
| `PkiWindow.EntersWindowWithinLogarithm` | controllers/vaultpkisecret_controller.go:158-169 | with less than 20^n seconds left the window is entered within n hops, not after expiration |
| `PkiWindow.EntersWindowInOneHop` | controllers/vaultpkisecret_controller.go:484-489 | with an offset the next check is in the window |
| `PkiWindow.OneHopBeforeExpirationIff` | controllers/vaultpkisecret_controller.go:454-497 | it comes before expiration for every draw iff the jitter bound fits the whole seconds of the offset |
| `PkiWindow.OneHopBeforeExpiration` | controllers/vaultpkisecret_controller.go:454-497 | which holds when the horizon is at most twenty times the whole seconds of the offset |
| `PkiWindow.SubSecondOffsetOvershoots` | controllers/vaultpkisecret_controller.go:472-478 | with an offset below a second some draw overshoots |
| `PkiReconciler.CertificateReconciler.Reconcile` | controllers/vaultpkisecret_controller.go:73-318 | one reconciliation, all branches, is the step of the state machine; other objects' registry entries are untouched |
| `PkiReconciler.CertificateReconciler.IssueCertificate` | controllers/vaultpkisecret_controller.go:171-318 | what each failure and success records, and what it does to the registry |
| `PkiReconciler.CertificateReconciler.UpdateStatus` | controllers/vaultpkisecret_controller.go:436-452 | the generation is recorded; a failed update or finalizer is an error |
| `PkiOutcomes.BranchIff` | controllers/vaultpkisecret_controller.go:73-318 | each branch is taken exactly under its condition, spelled out on status and surroundings |
| `PkiOutcomes.IssueRecords` | controllers/vaultpkisecret_controller.go:255-308 | a persisted issue records serial, expiration, MAC, time and generation |
| `PkiOutcomes.FailureRecords` | controllers/vaultpkisecret_controller.go:91-298 | failures record the generation, a failed write its MAC as well, and all other steps nothing |
| `PkiOutcomes.FailsIff` | controllers/vaultpkisecret_controller.go:73-318 | which steps return an error, and which ask for nothing |
| `PkiOutcomes.FailureRequeues` | controllers/vaultpkisecret_controller.go:91-298 | when the failing steps are tried again |
| `PkiOutcomes.CheckRequeues` | controllers/vaultpkisecret_controller.go:158-318 | otherwise the next check is that of the certificate on record, or of the new one |
| `PkiOutcomes.QuietUntilDue` | controllers/vaultpkisecret_controller.go:123-169 | with nothing but time passing, no number of reconciliations issues anything before the renewal window |
| `PkiOutcomes.QuietAfterIssue` | controllers/vaultpkisecret_controller.go:123-318 | in particular after an issue, by the MAC it recorded |
| `PkiReconciler.UpdateForgottenIff` | controllers/vaultpkisecret_controller.go:91-279 | an update that is not synced at once is forgotten, outside the renewal window, iff its step records the generation without a registry entry and the destination matches the MAC on record; without a rotation on record, iff no registry entry is left and the destination exists or need not |
| `PkiReconciler.RecordedWithoutSync` | controllers/vaultpkisecret_controller.go:91-279 | a step that does not sync records a new generation iff it waits for the destination or its attempt fails, and the status can be written |
| `PkiRuns.CertificateMovesByIssue` | controllers/vaultpkisecret_controller.go:300-308 | only an issued certificate replaces serial number and expiration, both together |
| `PkiRuns.CertificateWasIssued` | controllers/vaultpkisecret_controller.go:300-308 | over every run, the certificate on record was issued by an earlier step |
| `PkiRuns.PendingStep` | controllers/vaultpkisecret_controller.go:123-169 | a forced sync is not skipped by the window, and its entry goes iff the step syncs successfully or handles a deletion |
| `PkiRuns.SyncPendingIff` | controllers/registry.go:183-225 | over every run, restarts included, a sync is pending iff one was requested that nothing has served or lost since |
| `PkiRuns.PendingUntilServed` | controllers/vaultpkisecret_controller.go:123-310 | over every run, it stays pending, and no step passes it over, until it is served or the process restarts |
| `PkiRuns.RestartLosesRequestIff` | controllers/vaultpkisecret_controller.go:123-169 | a restart loses a requested sync iff nothing else asks for it; the next step then passes it over iff outside the window |
| `PkiRuns.NextCheckInTime` | controllers/vaultpkisecret_controller.go:458-497 | outside the window the next check comes no later than the expiration |
| `PkiRuns.VisitStaysLive` | controllers/vaultpkisecret_controller.go:73-318 | every healthy reconciliation in time leaves a check no later than the expiration |
| `PkiRuns.TickStaysLive` | controllers/vaultpkisecret_controller.go:73-318 | so does every event, forced syncs and restarts included |
| `PkiRuns.FirstIssueIsLive` | controllers/vaultpkisecret_controller.go:124-126 | the first certificate establishes this |
| `PkiRuns.CheckedBeforeExpiration` | controllers/vaultpkisecret_controller.go:158-318 | over whole runs each check falls no later than the expiration of the certificate then on record |
| `EventWatchers.EnsureKeepsSafe` | controllers/vaultstaticsecret_controller.go:252-281 | deciding to replace a watcher keeps the safety invariant |
| `EventWatchers.UnWatchKeepsSafe` | controllers/vaultstaticsecret_controller.go:307-316 | so does unwatching |
| `EventWatchers.LaunchKeepsSafe` | controllers/vaultstaticsecret_controller.go:282-303 | so does starting a watcher |
| `EventWatchers.FetchKeepsSafe` | controllers/event_watcher_registry.go:47-54 | so does reading the registry from a watcher |
| `EventWatchers.ReregisterKeepsSafe` | controllers/vaultstaticsecret_controller.go:390-400 | so does writing the metadata back, even after an unwatch in between |
| `EventWatchers.DeregisterKeepsSafe` | controllers/vaultstaticsecret_controller.go:323-326 | so does the deferred deletion |
| `EventWatchers.StepKeepsSafe` | controllers/vaultstaticsecret_controller.go:252-415 | so does every disciplined action |
| `EventWatchers.SafeIffDisciplined` | controllers/vaultstaticsecret_controller.go:252-415 | the discipline is exact: an action keeps a safe state safe iff it neither stops waiting for, nor watches again over, a watcher that still runs |
| `EventWatchers.WatchersAreSafe` | controllers/vaultstaticsecret_controller.go:252-415 | under all disciplined interleavings: at most one live watcher per object, and every live uncancelled one is registered |
| `EventWatchers.EnsureDecides` | controllers/vaultstaticsecret_controller.go:252-280 | a watcher is left alone iff it runs for the same generation and client; another one is cancelled and waited for |
| `EventWatchers.LaunchAchieves` | controllers/vaultstaticsecret_controller.go:281-303 | a started watcher is registered and runs, uncancelled, for its generation and client |
| `EventWatchers.WaitingAchieves` | controllers/vaultstaticsecret_controller.go:269-284 | after the wait the reconciliation starts a watcher, after a failed start it ends |
| `EventWatchers.UnWatchAchieves` | controllers/vaultstaticsecret_controller.go:307-316 | unwatching cancels the registered watcher and forgets it |
| `EventWatchers.ReregisterAchieves` | controllers/vaultstaticsecret_controller.go:390-400 | a watcher that reloads its client records the new one for itself |
| `EventWatchers.EndingAchieves` | controllers/vaultstaticsecret_controller.go:323-326 | a watcher that ends deletes its registration and then closes its channel |
| `EventWatchers.LaunchIsSafeIff` | controllers/vaultstaticsecret_controller.go:270-303 | starting a watcher keeps "at most one" iff none of the object is still live |
| `EventWatchers.DeregisterIsSafeIff` | controllers/vaultstaticsecret_controller.go:323-326 | ending one keeps the others findable iff the deleted entry is its own or not needed |
| `EventWatchers.DrainingWatcherOrphansSuccessor` | controllers/vaultstaticsecret_controller.go:307-326 | a concrete run in which an unwatched, draining watcher orphans its successor |
| `EventWatchers.GetEvents` | controllers/vaultstaticsecret_controller.go:320-415 | the loop ends quietly or requeues at the first turn that asks for it, and never survives five errors |
| `EventWatchers.GoesOnIff` | controllers/vaultstaticsecret_controller.go:335-402 | which turns the loop survives |
| `EventWatchers.QuietIff` | controllers/vaultstaticsecret_controller.go:335-415 | which others end it without a requeue |
| `Base64.DecodeEncode` | controllers/vaultstaticsecret_controller.go:175-175 | decoding undoes encoding, by section 4 of RFC 4648 |
| `SecretSync.SecretStore.PruneOrphans` | helpers/secrets.go:320-337 | removes exactly the owned Secrets other than the destination that can be deleted, and reports a failure iff there is one |
| `SecretSync.SecretStore.SyncSecret` | helpers/secrets.go:145-318 | every check, the recreation on a changed type, the pruning option and every point where the API may fail amount to one function of the store |
| `SecretSync.OwnerLabelsWin` | helpers/secrets.go:64-77 | owner labels win over configured ones, so the owner finds its Secret again |
| `SecretSync.CheckIff` | helpers/secrets.go:145-316 | a call is refused exactly for these reasons, spelled out on labels, owners, options and the API |
| `SecretSync.OrphanIff` | helpers/secrets.go:100-125 | the Secrets it prunes carry the owner labels, its UID and its sole owner reference, in its namespace, under another name |
| `SecretSync.SyncIsExact` | helpers/secrets.go:145-337 | after success the destination is, with create=true, the Secret asked for in data, type, labels, annotations and owner, and with create=false the old Secret with the new data; of the others exactly the owned ones that can be deleted are gone |
| `SecretSync.FailureIsLocal` | helpers/secrets.go:145-318 | a failing call leaves all other Secrets alone, and the destination too unless its type was to change; then it is gone iff its deletion worked |
| `SecretSync.StrippedOwnerIsRefusedIff` | helpers/secrets.go:277-293 | after a failed deletion for a new type the Secret has lost its labels, and its owner is refused in the next call iff it may not overwrite |
| `SecretSync.StrippedStaysRefused` | helpers/secrets.go:277-293 | over any run of calls that do not overwrite, that Secret stays as it is and every call that names it is refused |
| `SecretSync.ForeignSecretChangesIff` | helpers/secrets.go:422-444 | somebody else's Secret changes iff a create=false caller names it, and then its data alone, to what was synced; neither overwrite nor a failing API is an exception |
| `SecretSync.OwnedSecretIsUntouched` | helpers/secrets.go:145-337 | over any run of calls by other create=true objects, failing ones included, an owned Secret stays as it is |
| `SecretSync.DestinationHoldsUntilNextOwnCall` | helpers/secrets.go:145-337 | over any run, the Secret that an object asked for stays until its next call |
| `DriftDetection.EqualMACsIff` | helpers/hmac.go:39-133 | MACs are equal iff the data is what was recorded and the destination holds it |
| `DriftDetection.StaticSecretReconciler.Run` | controllers/vaultstaticsecret_controller.go:151-231 | the sync decision, the write and the recorded status are one step |
| `DriftDetection.SuccessMeansInSync` | controllers/vaultstaticsecret_controller.go:151-217 | success leaves the destination equal to the data, written or not, created by the operator or not |
| `DriftDetection.WroteIff` | controllers/vaultstaticsecret_controller.go:151-187 | a successful reconciliation wrote iff HMACs are off, the generation is not the one on record, the MAC is not that of the data, or the destination does not hold it |
| `DriftDetection.WroteEverything` | controllers/vaultstaticsecret_controller.go:182-187 | what it writes is the whole Secret asked for |
| `DriftDetection.SuccessRecords` | controllers/vaultstaticsecret_controller.go:171-231 | it records the generation and the MAC of the data |
| `DriftDetection.SucceedsIff` | controllers/vaultstaticsecret_controller.go:151-217 | when it succeeds |
| `DriftDetection.InSyncAfterEverySuccess` | controllers/vaultstaticsecret_controller.go:151-217 | over every run with failing calls, arbitrary outside edits, unsaved statuses and changing destinations |
| `DriftDetection.UpdateIsApplied` | controllers/vaultstaticsecret_controller.go:151-217 | over every run, a success at a generation that is not on record applies the whole update, whatever the MACs say |
| `DriftDetection.RepeatWritesIff` | helpers/hmac.go:39-133 | a repetition succeeds, and writes iff the data is the empty map |
| `DriftDetection.RepeatedReconcilesAreQuiet` | controllers/vaultstaticsecret_controller.go:169-175 | any number of repetitions leaves the state as it is |
| `DriftDetection.StaticCredsQuietIff` | controllers/vaultdynamicsecret_controller.go:422-437 | for static credentials a repetition is quiet iff the data holds none of the stripped keys and is not empty |
| `AuthMerge.MergeKubernetes` | api/v1beta1/vaultauth_types.go:31-65 | fills empty fields from the other configuration and fails iff the result is invalid |
| `AuthMerge.MergeJwt` | api/v1beta1/vaultauth_types.go:89-122 | the same for JWT |
| `AuthMerge.MergeAppRole` | api/v1beta1/vaultauth_types.go:139-167 | the same for AppRole |
| `AuthMerge.MergeAws` | api/v1beta1/vaultauth_types.go:206-248 | the same for AWS |
| `AuthMerge.MergeGcp` | api/v1beta1/vaultauth_types.go:278-314 | the same for GCP |
| `AuthMerge.FindDefault` | common/common.go:820-846 | the first namespace holding a default decides; empty and repeated ones do not matter |
| `AuthMerge.FirstNonZeroLenMap` | common/common.go:540-548 | the first non-empty map |
| `AuthMerge.MergeMaps` | common/common.go:522-530 | entry-wise union in which later maps win, in any iteration order |
| `AuthMerge.ResolveGlobal` | common/common.go:140-160 | which global object a reference means, and each error |
| `AuthMerge.MergeMethodSection` | common/common.go:316-467 | the five-way switch with each method's errors |
| `AuthMerge.MergeByStrategy` | common/common.go:483-514 | union, replace, none, or an error |
| `AuthMerge.MergeInVaultAuthGlobal` | common/common.go:230-520 | the field-by-field merge is the closed form the theorems are about |
| `AuthOutcomes.ReferenceMeans` | common/common.go:230-290 | which object a reference means: the named one in its own or the VaultAuth's namespace, else a default, the VaultAuth's namespace before the operator's; and each error |
| `AuthOutcomes.AllowedIff` | common/common.go:170-196 | from which namespaces it may be used |
| `AuthOutcomes.KubernetesMeans` | common/common.go:317-345 | the Kubernetes section: each field local or else global, and exactly when the merge is usable |
| `AuthOutcomes.JwtMeans` | common/common.go:346-374 | the JWT section |
| `AuthOutcomes.AppRoleMeans` | common/common.go:375-403 | the AppRole section |
| `AuthOutcomes.AwsMeans` | common/common.go:404-430 | the AWS section |
| `AuthOutcomes.GcpMeans` | common/common.go:431-459 | the GCP section |
| `AuthOutcomes.SectionErrors` | common/common.go:316-467 | which error a failed section gives |
| `AuthOutcomes.SharedMeans` | common/common.go:316-467 | mount, namespace, params and headers come from the global section of the method, and only five methods are supported |
| `AuthOutcomes.StrategyMeans` | common/common.go:483-514 | what each strategy makes of the three maps |
| `AuthOutcomes.MergedSettings` | common/common.go:469-519 | where every setting beside the section comes from, and that nothing else changes |
| `AuthOutcomes.MergeOkIff` | common/common.go:230-520 | when the merge succeeds |
| `AuthMerge.MergedSpecShape` | common/common.go:469-517 | every setting outside the sections in closed form: local, else section, else default |
| `AuthMerge.MergeIdempotent` | common/common.go:230-520 | merging a successful result again gives the same object |
| `AuthMerge.MergeIsLocallyBiased` | common/common.go:230-520 | every non-empty local field, map entry and section field survives |
| `AuthMerge.UnionTakesMostLocal` | common/common.go:522-530 | a union map takes each key from the most local map holding it, and holds nothing else |
| `AuthMerge.MergeIsUsable` | common/common.go:316-478 | a merged object names a mount and has the section of its method |
| `ClientStorage.Storage.StoreClient` | vault/cache_storage.go:172-313 | stores one Secret per key, replacing an old one; clones and missing encryption are refused, and each call of the API may fail |
| `ClientStorage.Storage.Restore` | vault/cache_storage.go:315-431 | restores, or deletes the entry on failure unless told otherwise; each call of the API may fail |
| `ClientStorage.Storage.Prune` | vault/cache_storage.go:433-469 | for any selector and filter, removes exactly the matching entries that are not spared and can be deleted, counts them, and reports failures |
| `ClientStorage.StoresIff` | vault/cache_storage.go:172-313 | a client is stored iff it is no clone, can be encrypted where it must, and the API does its part |
| `ClientStorage.RestoresIff` | vault/cache_storage.go:315-431 | a restoration succeeds iff the Secret can be read, its MAC, decryption, token and generations are right, and gives back what labels and data hold |
| `ClientStorage.MessageParts` | vault/cache_storage.go:552-558 | the MAC is taken of name, key and bytes in that order |
| `ClientStorage.GenerationRoundTrip` | vault/cache_storage.go:412-428 | generations survive printing and parsing |
| `ClientStorage.RestoreAfterStore` | vault/cache_storage.go:172-431 | restoring what was stored gives back token, UIDs, namespaces, provider and generations, encrypted or not |
| `ClientStorage.RestoreAfterRun` | vault/cache_storage.go:172-469 | and so it does over every run of operations, until the entry is written again, pruned or refused |
| `ClientStorage.OneEntryPerKey` | vault/cache_storage.go:207-241 | two entries with the same key label are the same entry |
| `ClientStorage.StaysIndexed` | vault/cache_storage.go:172-469 | over every run of operations each entry is under the name of its key |
| `ClientStorage.FailedRestoreDeletesIff` | vault/cache_storage.go:349-431 | a failing restore removes its entry iff the entry was read, may be pruned and can be deleted, and never another one |
| `ClientStorage.FailedStoreLosesIff` | vault/cache_storage.go:283-299 | a failing store changes nothing, except that it loses the old entry iff that was deleted and could not be created again |
| `ClientStorage.AcceptedIff` | vault/cache_storage.go:513-558 | an entry with a stored MAC is accepted iff key and bytes concatenate to the stored text; for keys of one length iff both are the stored ones |
| `ReferenceCaches.WithScopeTriples` | controllers/registry.go:84-180 | replacing one scope of the nested maps changes only that scope's triples and keeps no empty map |
| `ReferenceCaches.PruneScope` | controllers/registry.go:106-131 | deleting while walking in any order removes exactly the reference and counts the hits |
| `ReferenceCaches.ReferenceCache.Set` | controllers/registry.go:84-103 | replaces the triples of one referrer |
| `ReferenceCaches.ReferenceCache.Remove` | controllers/registry.go:154-171 | removes them and reports whether there were any |
| `ReferenceCaches.ReferenceCache.Prune` | controllers/registry.go:106-131 | removes the triples of one reference and counts exactly those |
| `ReferenceCaches.ReferenceCache.Get` | controllers/registry.go:134-151 | each referrer exactly once |
| `ReferenceCaches.RefRequestsHandler.Enqueue` | controllers/eventhandlers.go:87-128 | queues and registers each current referrer exactly once iff the object is valid |
| `ReferenceCaches.RefRequestsHandler.OnCreate` | controllers/eventhandlers.go:55-59 | a creation wakes the referrers |
| `ReferenceCaches.RefRequestsHandler.OnUpdate` | controllers/eventhandlers.go:61-74 | an update wakes them iff the generation changed |
| `ReferenceCaches.RefRequestsHandler.OnDelete` | controllers/eventhandlers.go:76-80 | a deletion forgets exactly the reference |
| `DataSelection.MatchAny` | helpers/template.go:374-394 | patterns are tried in order, a bad one fails |
| `DataSelection.ScanFindsMatch` | helpers/template.go:374-394 | with valid patterns only the set of patterns matters |
| `DataSelection.Exclude` | helpers/template.go:409-417 | copies exactly the fields no exclude matches, in any iteration order |
| `DataSelection.Include` | helpers/template.go:422-428 | deleting during the iteration leaves exactly the included fields |
| `DataSelection.ValidPatternsDecide` | helpers/template.go:399-431 | with valid patterns filtering never fails and is a property of the key alone |
| `DataSelection.FilterData` | helpers/template.go:399-431 | exactly the selected fields with their values, or an error iff a bad pattern is met |
| `DataSelection.MakeK8sData` | helpers/secrets.go:666-702 | each key comes from the raw response, else a template, else a selected field, nothing else appears; each error has its exact condition |
| `DataSelection.SourceMeans` | helpers/secrets.go:666-702 | with valid patterns: where each key comes from, with templates before fields, and that nothing else appears |
| `DataSelection.RawConflictIff` | helpers/secrets.go:666-680 | a conflict with the raw response is one of its name where it is not excluded |

## Left out

- The encryption client's setup goroutine with its timeout, and the factory's encrypted path: it can replace a client in the middle of a call.
- Lock-level races inside factory calls: every call is one atomic step.
- The effects of registered client callbacks beyond the requests sent to them.
- Metrics, logging, events, status conditions, finalizer helpers, rollout restarts and backoff arithmetic: they would only add easy members.
- The HCP Vault Secrets controller, which is mostly SDK types and paging.
- Go templates, JSON, regular expressions other than those of the cache keys, SHA-256, HMAC and Transit: functions handed in, with the assumptions stated in each contract.
- Reading the KV response, websocket messages and Kubernetes watches: their outcomes are arguments.
- Identity of client objects: a client is a value with a number, and `Close` is an entry in a log.
- The LRU library passes evicted entries to a callback; here the list returns them and the caller runs the callback.
- A typed object and its owner reference are taken to carry the same API version and kind.
- Float rounding: percentages are exact rationals that are truncated, and durations have no 64-bit bound.
- Negative lease durations and negative expiry offsets, which the API types or their parsers rule out.
- Nil and empty maps and lists are not told apart in the VaultAuth merge; they are in the data of Secrets.
- Base64.DecodeEncode: the decoder does not skip newlines as Go's does; no encoder output holds one.
- Conflicts and stale reads of the Kubernetes API: a call that succeeds sees and changes the current state.
