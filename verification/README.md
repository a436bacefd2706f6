# GoBeyond: verified models of its stateful cores

These modules model the parts of the GoBeyond repository whose promises span many calls, interleavings or inputs, and
prove those promises for all of them. `dafny verify dfyconfig.toml` checks everything.

| modules | what they model |
| --- | --- |
| `Dependencies`, `Store`, `Flights`, `CacheCoherence`, `CacheServing` | the request-time cache: dependency collection, the two-tier store, singleflight, the read, fill and fenced-write protocol as interleaved steps, and what it comes to serve |
| `Lists`, `Slru`, `Residency`, `ResidencyProtocol`, `ResidencyCache`, `ResidencyAnswers`, `Semaphore` | the residency cache: segmented LRU, negative cache, flights, idle sweep, what callers are answered, and the weighted semaphore |
| `Handoff`, `Slots` | Temporal recovery: the acknowledgement fence and the closable slot suppliers |
| `MetricSplit`, `MetricExporter`, `MetricDelivery`, `MetricDeadlines` | the metric exporter: splitting, the bounded retry queue, epochs and point sequences, what is taken and delivered, and epoch ends |
| `OAuth`, `OAuthAnswers` | code exchange, refresh, resolve and revoke over the atomic token store, and which requests are answered with a token |
| `Bytes`, `Sorting`, `Text`, `Pack`, `PackFormat`, `StaticKey` | the pack container, its format by position, and its canonical static-entry keys |
| `Router` | route patterns and the specificity-ordered table |
| `Trust` | contract-driven restoration of SafeHTML markers |
| `Markup`, `Renderer`, `Showing`, `RenderBuffer` | server rendering of plans into a bounded buffer, a relation that says what a plan shows, and a tokenizer that reads the markup back |

Where the code keeps mutable objects, a class holds the same fields and its methods are proved equal to step functions;
the step functions then carry the results over whole runs. Where several goroutines or requests interleave, a state
machine takes one step per critical section or store call and the results hold for every sequence of steps. Clocks,
networks, stores that fail, loaders, receivers and evaluators are parameters or event arguments, so nothing depends on
what they answer.

Eight statements one might expect of the code do not hold as such. Each is settled here by the exact condition under
which it does:

* A cache entry does not cover bumps of *every* tag in its record: what a nested load read is fenced by the nested
  load's own tags only (`NestedLoadsMustDeclareTheTag`, an equivalence). A read counts as made "since" a bump when it
  follows the bump's increment of the shared counter.
* Overlapping bumps of one tag leave the local tier serving an entry that a completed bump should fence, and do so for
  that tag only: a hit can be stale for a tag if and only if the tag's own bumps may overlap (`OnlyOverlapLeaks`).
* A local write-back can outlive the shared entry: it stays within it, whatever lifetime is granted, if and only if no
  time passes between taking the remaining lifetime and the local tier counting it (`WriteBackWithinIff`).
* The pack builder bounds records before compression only, so it accepts ones its reader refuses: exactly those stored
  in more than 2^30 bytes (`ReadsBackIff`, `OversizeIsRefused`). Empty records never reach it, as `AddPlan` and
  `AddStatic` parse an entry before adding it.
* The metric exporter compares a new epoch with the current one only. Along a list of epochs that became current, some
  run repeats a point identity if and only if the list names an epoch twice (`ReissueIff`).
* Points are checked against the end of the current epoch, but renewing an older queued body of an epoch of the same
  name then replaces the current grant by that body's. Along a list of epochs, some run admits a point under an epoch
  that ends before it if and only if, again, the list names an epoch twice (`LateIff`).
* A route of literals is not always what its own path resolves to: it is if and only if no registered route goes on from
  the same literals with an optional catch-all, which is longer and counts as more specific (`LiteralRouteWinsIff`).
* Trust restoration refuses some values the contract accepts exactly when some union has an enum variant
  (`RestoresIff`).

## Model

| member | source | states |
|---|---|---|
| Dependencies.MergeAllIsUnion | cache/computation.go:34-48 | the collected versions hold exactly the tags of everything merged, each with a version that was reported for it |
| Dependencies.SafeIffAgree | cache/computation.go:34-48 | a collector ends safe exactly when every snapshot was safe and no two disagree on a tag |
| Dependencies.MergeOrderIrrelevant | cache/computation.go:34-48 | the order in which concurrent nested loads report, and repetitions, do not change the outcome |
| Dependencies.Collector.Merge | cache/computation.go:34-48 | the loop over a snapshot's versions leaves exactly the merged snapshot |
| Dependencies.Collector.TakeSnapshot | cache/computation.go:50-58 | the copy holds what the collector holds |
| Store.WriteBackWithinIff | cache/tiered.go:86-92 | a write-back stays within the shared entry's expiry, whatever lifetime the local tier grants, if and only if no time passed before it is counted |
| Store.TieredStore.Get | cache/tiered.go:70-94 | a local hit asks nobody else; a shared hit is written back under the local compare-and-set, with a bound on its lifetime; an unreachable shared tier is an error and an absent one a miss |
| Store.TieredStore.Set | cache/tiered.go:96-109 | both tiers are attempted, each under its own compare-and-set; success means both accepted |
| Store.TieredStore.TagVersions | cache/tiered.go:122-133 | versions come from the shared tier when there is one |
| Store.TieredStore.BumpTag | cache/tiered.go:135-148 | after an error-free return neither tier serves a record fenced by an older version of the tag |
| Store.StoredIsServedIff | cache/store.go:46-63 | what a tier stored under current versions is served until its lifetime is over or one of its tags is bumped, through any other operations, and not longer |
| Store.FencedWriteIff | cache/store.go:50-63 | a write fenced by versions read earlier is taken if and only if none of its tags was bumped in between |
| Flights.OneFillPerKey | cache/flight.go:32-74 | in every interleaving two running fills are of different keys |
| Flights.ResultIsFixed | cache/flight.go:66-74 | a call's result is set once and never changes, so leader and waiters read the same |
| Flights.CallerIsAttached | cache/flight.go:52-64 | a caller leads or joins a running call of its own key |
| Flights.FlightGroup.BeginCall | cache/flight.go:52-64 | joins the running call or registers a new one as its leader |
| Flights.FlightGroup.EndCall | cache/flight.go:66-74 | publishes the result and removes only its own call |
| CacheCoherence.RunKeepsInv | cache/load.go:138-270 | every interleaving of loads, hits, joins, fills, write-backs and bumps, overlapping ones included, keeps every value's versions no newer than its reads and the flight table exact |
| CacheCoherence.RunKeepsTag | cache/tiered.go:135-148 | for each tag whose own bumps do not overlap, whatever other tags do, both tiers' counters, the entries and the writes under way stay in step |
| CacheCoherence.HitIsFresh | cache/load.go:138-236 | whatever a hit returns was stored under its key, its versions name every tag some reading computation declared, and for each of these whose own bumps do not overlap it holds only reads made no earlier than the tag's last completed bump |
| CacheCoherence.BumpFences | cache/store.go:59-63 | once a bump returned, no later hit in either tier is fenced by an older version of the tag or holds a read fenced by it from before, through every later write-back and straddling fill, however bumps of other tags overlap |
| CacheCoherence.OneFillPerKey | cache/load.go:179-200 | no key is computed for the cache twice at a time, in any run |
| CacheCoherence.NestedLoadsMustDeclareTheTag | cache/load.go:202-221 | a bump of an enclosing entry's tag reaches the nested bytes if and only if the nested load declares that tag |
| CacheCoherence.OverlappingBumpsLeak | cache/tiered.go:135-148 | for every tag a run, overlapping bumps of that tag only, after which the local tier serves an entry the second bump should fence |
| CacheCoherence.OnlyOverlapLeaks | cache/load.go:138-236 | where bumps overlap for given tags only, some run has a hit stale for a tag if and only if it is one of those tags |
| CacheServing.HitWasStorable | cache/load.go:202-236 | in every run whatever a tier serves was returned as storable by a cached computation of that key whose dependencies were known |
| CacheServing.FillIsServedIff | cache/load.go:202-236 | a storable fill, however late its write is performed, is served for the lifetime granted if and only if the counters of its dependencies still stand in that tier; otherwise the write changes nothing |
| CacheServing.UnstorableIsNotWritten | cache/load.go:202-236 | what is not storable, not cached or of unknown dependencies is written nowhere |
| Slru.EvictionKeepsLongestPrefix | residency/slru.go:59-82 | an eviction loop keeps the longest prefix of the recency order that meets its goal, and the representation with it |
| Slru.TrimIsShortest | residency/residency.go:370-381 | trimming removes the shortest run from reverse probation, then reverse protected, that meets the target, and everything for target zero |
| Slru.DemoteFacts | residency/slru.go:38-55 | demotion never changes the recency order, meets both protected budgets and never reaches the first key |
| Slru.TouchFacts | residency/slru.go:38-55 | a hit moves its key to the front of protected, where the demotions it causes cannot reach it; all budgets hold and no other entry changes |
| Slru.InsertFresh | residency/slru.go:22-31 | inserting a fresh key never evicts a protected entry, cuts only the end of probation, and keeps the new entry if and only if two entries fit or none is protected |
| Residency.EvictOldestFacts | residency/negative.go:59-80 | making room drops the oldest remembered failures, no more than needed |
| Residency.StoreNegativeFacts | residency/negative.go:59-80 | the negative cache never exceeds its bound and the new failure is its youngest |
| Residency.RetainKeepsInv | residency/residency.go:437-455 | an idle sweep leaves lists, map and byte counts in agreement |
| Residency.RetainRemove | residency/residency.go:437-455 | removing expired keys one by one, in any order, is keeping the unexpired ones in order |
| ResidencyProtocol.NextKeepsInv | residency/residency.go:250-455 | every step keeps the representation, both budgets, the negative bound and the disjointness of resident, failed and in-flight keys |
| ResidencyProtocol.LoadsAreExclusive | residency/residency.go:250-298 | in every run two running loads are of different keys, and a key being loaded is neither resident nor remembered as failed, so an insertion never replaces |
| ResidencyProtocol.OutcomesAreFixed | residency/residency.go:300-345 | every waiter that joined a flight gets that one load's result, for the key it asked for |
| ResidencyProtocol.NothingAfterClose | residency/residency.go:386-407 | after closing nothing is resident or remembered again, not even by loads that finish later |
| ResidencyProtocol.RunKeepsGenuine | residency/residency.go:324-345 | what the cache holds always came from a finished load of the same key |
| ResidencyProtocol.AnswersAreGenuine | residency/residency.go:250-298 | a value served or a failure remembered came from a finished load of that key, and only immutable failures are remembered |
| ResidencyAnswers.AnswerIff | residency/residency.go:250-298 | when a call is refused, served, answered with a remembered failure: each exactly, field by field |
| ResidencyAnswers.MissLoads | residency/residency.go:250-298 | any other call joins the one running load of its key, started now if there was none |
| ResidencyAnswers.FinishedLoadAnswers | residency/residency.go:324-345 | a finished load is handed to its waiters; a value is served from then on if and only if it is not oversized, can be kept beside the protected entries and was not idle too long, an immutable failure remembered if and only if there is a negative cache and its time is not over; otherwise the key is loaded again |
| ResidencyAnswers.HitRefreshes | residency/slru.go:38-55 | a served entry becomes the most recently used one as of now, and nothing else is touched |
| ResidencyAnswers.ScanResistance | residency/slru.go:22-82 | however many cold keys are missed and loaded, a protected entry goes on being answered as before |
| ResidencyAnswers.SweepIsInvisible | residency/residency.go:437-455 | whoever asks at the time of a sweep or later gets the answer they would have got without it |
| ResidencyAnswers.SweepLeavesAnswers | residency/residency.go:437-455 | a sweep leaves exactly the entries and failures that could still be answered |
| ResidencyAnswers.TrimKeepsRecent | residency/residency.go:370-381 | a trim keeps the longest prefix of the recency order within its target and touches nothing else |
| ResidencyAnswers.ClosedRefuses | residency/residency.go:386-407 | after closing every caller is refused, in every later state |
| ResidencyCache.LimitsFor | residency/residency.go:173-239 | the defaults always yield valid budgets, and say when expiry and the negative cache are off |
| ResidencyCache.Cache.constructor | residency/residency.go:173-239 | a new cache is empty and within its budgets |
| ResidencyCache.Cache.EvictOne | residency/slru.go:71-82 | removes the last of probation, else the last of protected, else nothing |
| ResidencyCache.Cache.EnforceBudgets | residency/slru.go:59-65 | the loop evicts until both budgets hold |
| ResidencyCache.Cache.InsertEntry | residency/slru.go:22-31 | the new state is the specified insertion |
| ResidencyCache.Cache.TouchEntry | residency/slru.go:38-55 | the new state is the specified touch, promotion and demotions included |
| ResidencyCache.Cache.RemoveEntry | residency/slru.go:86-95 | unlinks the key from its segment and takes back its weight |
| ResidencyCache.Cache.StoreFailure | residency/negative.go:59-80 | the new state is the specified store, eviction of the oldest included |
| ResidencyCache.Cache.Get | residency/residency.go:250-298 | the reply and the new state are those of the protocol's step |
| ResidencyCache.Cache.FinishLoad | residency/residency.go:324-345 | the flight is over and its outcome is kept, remembered or dropped as specified |
| ResidencyCache.Cache.Trim | residency/residency.go:370-381 | the new state is the specified trim |
| ResidencyCache.Cache.Close | residency/residency.go:386-407 | empties the cache once |
| ResidencyCache.Cache.SweepIdle | residency/residency.go:437-455 | both loops together keep exactly the unexpired entries and the unhealed failures |
| Semaphore.ServeFacts | residency/semaphore.go:56-73 | serving grants a prefix of the queue and stops exactly when nobody waits or the head does not fit |
| Semaphore.NoLostWakeup | residency/semaphore.go:33-73 | in every run the weight in use is what the holders hold and within the size, grants follow arrival order, and a waiter implies a holder it does not fit beside |
| Semaphore.DrainedWhenIdle | residency/semaphore.go:56-73 | with nobody holding, nobody waits and everyone who arrived was granted |
| Semaphore.WeightsAreCharged | residency/semaphore.go:33-73 | in every run each holder and waiter is charged exactly the weight its request asked for, bounded to 1 and the size |
| Semaphore.WeightedSemaphore.TryEnter | residency/semaphore.go:43-54 | enters at once exactly when nobody waits and the weight fits, else queues at the end |
| Semaphore.WeightedSemaphore.Leave | residency/semaphore.go:56-73 | gives the weight back and wakes waiters in order while they fit |
| Handoff.RunKeepsInv | adapters/temporal/recovery_handoff.go:30-143 | every interleaving of enqueues, deliveries and overlapping flushes keeps queues, tokens and fences sound |
| Handoff.AcknowledgedIsDurable | adapters/temporal/recovery_handoff.go:59-143 | when an acknowledgement is sent, a registration of the same kind, dedupe key, operation key and queue as every request made for its run before the fence passed was posted |
| Handoff.AcknowledgesOwnTask | adapters/temporal/recovery_handoff.go:59-143 | every acknowledgement is for the run its task's token named when the flush began |
| Handoff.FlushCompletes | adapters/temporal/recovery_handoff.go:59-120 | left to itself with posts that succeed, a flush posts everything pending for its run and is acknowledged |
| Handoff.PendingDiffer | adapters/temporal/recovery_handoff.go:30-43 | however often registrations are repeated, no two pending ones of a run agree in kind, dedupe key, operation key and queue |
| Handoff.EmptyQueueFences | adapters/temporal/recovery_handoff.go:59-120 | with nothing pending for a run, everything ever requested for it is durable |
| Handoff.EnqueueLeavesEqualPending | adapters/temporal/recovery_handoff.go:30-43 | a deduplicated enqueue has an equal-key registration still pending, any other its own |
| Handoff.QueuesConserve | adapters/temporal/recovery_handoff.go:30-120 | per run, what left the queue followed by what is pending is what was queued, in order, once each, and posted before it left; the counter is the total pending length; a run has at most one live token |
| Handoff.RecoveryTaskHandoff.EnqueueRegistration | adapters/temporal/recovery_handoff.go:30-43 | the scan and append are the specified enqueue |
| Handoff.RecoveryTaskHandoff.RememberTask | adapters/temporal/recovery_handoff.go:44-58 | the new delivery replaces every older token of its run |
| Handoff.RecoveryTaskHandoff.RemovePosted | adapters/temporal/recovery_handoff.go:59-120 | removes the head only if it is still the posted entry, and counts it |
| Handoff.RecoveryTaskHandoff.Flush | adapters/temporal/recovery_handoff.go:59-120 | an uninterrupted flush posts its run's queue in order, one entry for each successful post, leaves other runs alone, and succeeds if and only if the posts suffice for all |
| Slots.SupplierKeeps | adapters/temporal/recovery_slots.go:28-97 | channel tokens are issued permits plus reservations in transit, within capacity |
| Slots.NothingBlocks | adapters/temporal/recovery_slots.go:49-76 | a release and a refused issue always find a token to take, and a second release changes nothing |
| Slots.NoPermitAfterClose | adapters/temporal/recovery_slots.go:49-85 | in every interleaving no permit is issued once intake is closed |
| Slots.JudgementsStand | adapters/temporal/recovery_slots.go:133-170 | a supplier once found drained or accounted for stays so |
| Slots.DrainedForever | adapters/temporal/recovery_slots.go:133-143 | a yes from `drained` stays true from that moment, although suppliers are checked one by one |
| Slots.OnlyWorkflowTasksRemain | adapters/temporal/recovery_slots.go:151-170 | after a safe answer only executing workflow-task permits are out, at most as many as reported |
| Slots.RecoverySlots.IssuePermit | adapters/temporal/recovery_slots.go:49-59 | issues a fresh permit, or gives the token back when closed |
| Slots.RecoverySlots.ReleaseSlot | adapters/temporal/recovery_slots.go:69-76 | a known permit is forgotten and its token taken, an unknown one ignored |
| Slots.RecoverySlots.CloseIntake | adapters/temporal/recovery_slots.go:78-85 | closes once and keeps every permit |
| Slots.RecoveryTuner.IsDrained | adapters/temporal/recovery_slots.go:133-143 | yes exactly when every supplier present is closed and without permits |
| Slots.RecoveryTuner.AccountedAfterStop | adapters/temporal/recovery_slots.go:151-170 | safe exactly when coverage is confirmed and only executing workflow tasks remain, which it counts |
| MetricSplit.GreedySplits | telemetry/metrics_otlp.go:239-299 | for any size function, bodies hold the points in order, are nonempty and within both limits; failure names a point too large by itself |
| MetricSplit.RequestSplits | telemetry/metrics_otlp.go:239-299 | the same over every resource of a request |
| MetricSplit.GreedyCounts | telemetry/metrics_otlp.go:239-299 | for a monotone size, splitting succeeds if and only if every single point fits |
| MetricSplit.SplitIsOptimal | telemetry/metrics_otlp.go:239-299 | for a monotone size no way of cutting the points into bodies within the limits uses fewer bodies |
| MetricSplit.MetricRpcBodies | telemetry/metrics_otlp.go:239-299 | the nested loops compute exactly the specified bodies |
| MetricExporter.FlushFacts | telemetry/metrics_exporter.go:213-286 | a flush delivers a prefix of the queue and succeeds only when it is empty, whatever the receiver, grant service and clock answer |
| MetricExporter.RunConserves | telemetry/metrics_exporter.go:109-310 | over every run the admitted bodies are the delivered ones followed by the queue, unchanged and under grants of the identity they were admitted with; the byte count is exact and both ceilings hold |
| MetricExporter.NumberedRequest | telemetry/metrics_otlp.go:344-378 | numbering touches nothing but identities, dense from the next number over all points in order |
| MetricExporter.RunKeepsSequences | telemetry/metrics_exporter.go:109-212 | over every run in which no epoch became current twice, identities along the admitted bodies ascend within an epoch |
| MetricExporter.IdentitiesAreUnique | telemetry/metrics_otlp.go:341-378 | if no epoch became current twice, no two admitted points share an identity, and within an epoch numbers ascend up to 2^24 |
| MetricExporter.ReissueIff | telemetry/metrics_exporter.go:109-212 | some run through a given list of current epochs admits two points with one identity if and only if neighbours differ and the list names an epoch twice |
| MetricExporter.RunTrail | telemetry/metrics_exporter.go:109-212 | every run only extends the list of epochs that became current, each different from the one before |
| MetricDelivery.FlushIff | telemetry/metrics_exporter.go:213-286 | a flush delivers, in order, exactly the bodies that a pass of their own found accepted, in time, under their identity and with the token renewed where it was lapsing; it succeeds if and only if that was all, and otherwise the pass that stopped it and the error are determined and the rest stays queued |
| MetricDelivery.DeliveredIsAccepted | telemetry/metrics_exporter.go:109-310 | over every run whatever left the queue was accepted by the receiver, and no more left than it accepted |
| MetricDelivery.TakenIff | telemetry/metrics_exporter.go:109-212 | a collection is taken whole if and only if the exporter is open, a grant is in force, the points end in its time and can be numbered and split, and there is or can be made room; success means everything was delivered, and otherwise none of it is taken |
| MetricDeadlines.RunInTime | telemetry/metrics_exporter.go:109-286 | over every run in which no epoch became current twice, every admitted point ends by the end of the epoch it is sent under |
| MetricDeadlines.LateIff | telemetry/metrics_exporter.go:213-286 | some run through a given list of current epochs admits a point under an epoch that ends before it if and only if neighbours differ and the list names an epoch twice |
| MetricExporter.MetricsExporter.FlushQueue | telemetry/metrics_exporter.go:213-286 | the loop is the specified flush |
| MetricExporter.MetricsExporter.Measure | telemetry/metrics_exporter.go:109-212 | the byte sum stops at the first body that cannot fit, so nothing underflows |
| MetricExporter.MetricsExporter.EnqueueBodies | telemetry/metrics_exporter.go:109-212 | room is made only by delivering older bodies; then all bodies are admitted or none |
| MetricExporter.MetricsExporter.ExportCollection | telemetry/metrics_exporter.go:109-212 | renewal, rotation, numbering, splitting and admission in the specified order, keeping the accounts on every error path |
| MetricExporter.MetricsExporter.ShutdownExporter | telemetry/metrics_exporter.go:294-303 | closes first, then flushes |
| MetricExporter.MetricsExporter.PendingMetrics | telemetry/metrics_exporter.go:306-310 | reports the queue's length and the true sum of its bytes |
| OAuth.RunKeepsInv | agents/connections/oauth.go:301-415 | every interleaving of requests over the atomic store keeps token lineage, expiries and drawn secrets sound |
| OAuth.MintFacts | agents/connections/oauth.go:271-299 | access expiry is within refresh expiry, within grant expiry, within the predecessor's refresh expiry and the maxima, each the least of its bounds; client, grant, version and family are as given |
| OAuth.FamiliesStaySingle | agents/connections/oauth.go:90-108 | a family has at most one token neither rotated nor revoked; every token, dead ones included, has nested expiries that never grow along its lineage |
| OAuth.CodesYieldOneFamily | agents/connections/oauth.go:301-329 | every token stems from an exchanged code, and no two codes share a family or a code two families |
| OAuth.RotatedNeverLivesAgain | agents/connections/oauth.go:331-368 | a rotated or revoked token stays so |
| OAuth.ReplayEndsTheFamily | agents/connections/oauth.go:331-415 | after a reported replay or a confirmed revocation no token of the family is accepted again, nor one a concurrent refresh was about to store |
| OAuthAnswers.IssuedIsEarned | agents/connections/oauth.go:263-368 | in every run a token is issued only to a request that proved its code, or held a live refresh secret of its client, while it was good, for a grant that stood after that, and whose code or token the store took unused after that |
| OAuthAnswers.ExchangeIff | agents/connections/oauth.go:301-329 | among any other requests an exchange is answered with a token if and only if client, redirect and challenge are the code's, the grant stands when looked up, and the code is unconsumed and in time when the store is asked |
| OAuthAnswers.RefreshIff | agents/connections/oauth.go:331-368 | among any other requests a refresh is answered with a token if and only if the secret is of a live token of the client in time, the grant stands when looked up, and the token is still live and in time when the store is asked |
| OAuthAnswers.ReplayIff | agents/connections/oauth.go:331-368 | a rotated secret presented while it would be good is answered as a replay if and only if the store could revoke, and its family is then revoked |
| OAuthAnswers.RevokeIff | agents/connections/oauth.go:389-415 | a revocation is confirmed if and only if the secret is of the client's token and the store can be reached |
| OAuthAnswers.AccessIff | agents/connections/oauth.go:373-387 | in every run an access secret leads to the one token that has it |
| OAuth.Provider.ExchangeCode | agents/connections/oauth.go:301-329 | a token is issued if and only if client, redirect and challenge are the unconsumed code's, code and grant are in time and the grant is the one meant; the code is then consumed by the new family, and nothing changes otherwise |
| OAuth.Provider.Refresh | agents/connections/oauth.go:331-368 | a rotated token of the client revokes its family and is reported as a replay; a successor is issued if and only if the token is live, of the client and in time and its grant stands, and rotates it |
| OAuth.Provider.ResolveAccessToken | agents/connections/oauth.go:373-387 | access is granted exactly for a stored, live token of the client in time whose grant stands |
| OAuth.Provider.Revoke | agents/connections/oauth.go:389-415 | a token ends up revoked if and only if it was, or is of the family of the client's token presented by either secret; access to that family ends, nothing else changes, and a foreign or unknown secret changes nothing |
| Bytes.NumberOfBigEndian | pack/reader.go:296-318 | a number printed in enough bytes is read back |
| Bytes.BigEndianOfNumber | pack/pack.go:129-152 | bytes read as a number print as themselves |
| Pack.ReadHeaderIff | pack/reader.go:58-104 | the header parses to given values if and only if the file starts with their printed form and they are valid |
| Pack.ParseEntryIff | pack/reader.go:253-279 | an index entry parses to a record if and only if it is the record's printed form, within the limits |
| Pack.ReadEntriesIff | pack/reader.go:113-137 | the index parses to records if and only if it is their printed form, sorted, distinct and inside the record region |
| Pack.OverlapIff | pack/reader.go:139-153 | comparing neighbours in offset order finds exactly the overlapping files |
| Pack.OpenRawIff | pack/reader.go:52-153 | the reader accepts exactly the files of the described form, and returns what they describe |
| Pack.OpenedIsSound | pack/reader.go:52-170 | all accepted records lie in the record region, pairwise apart, under ascending keys; under the current weigher the header and index re-encode to the file's prefix |
| Pack.LookupIff | pack/reader.go:193-205 | a record is found under a key if and only if it is indexed under it |
| Pack.WrittenIsCanonical | pack/writer.go:121-162 | the file does not depend on the order in which records were added |
| Pack.ReadsBackIff | pack/writer.go:87-162 | reading back what the builder wrote succeeds if and only if no record is stored in more than 2^30 bytes, and then finds the written header and every record's bytes |
| Pack.OversizeIsRefused | pack/writer.go:87-115 | any record stored in one byte more than 2^30 is written by the builder and refused by the reader |
| Pack.Builder.AddEntry | pack/writer.go:52-85 | the wrong kind of pack, then an entry that does not parse, is refused before the record's own checks, so nothing empty is added |
| Pack.RecordsComeBack | pack/reader.go:212-225 | every added record is read back under its key with its lengths, weights and stored bytes, and no other key is found |
| Pack.Builder.Add | pack/writer.go:87-115 | the first failing check decides the error and changes nothing; otherwise the record is appended |
| Pack.Builder.WriteTo | pack/writer.go:121-162 | the loops emit the specified file |
| Pack.NewReader | pack/reader.go:52-170 | the loops accept, refuse and reweigh as specified, and index the keys |
| PackFormat.OpenIffPack | pack/reader.go:52-153 | exactly the files that start with a header and index whose keys ascend and whose records, of permitted sizes, lie apart behind the index and within the file are opened |
| PackFormat.HeaderAt | pack/pack.go:107-140 | which number or text of a header stands at which offset |
| PackFormat.EntryAt | pack/pack.go:142-152 | which number or text of an index entry stands at which offset |
| PackFormat.NumberCons | pack/pack.go:129-152 | numbers are read most significant byte first |
| PackFormat.WeightsIff | pack/reader.go:155-160 | weights of a foreign weigher are replaced by 5 and 8, or 3 and 5, times the encoded length; others stand |
| PackFormat.ReadRecordIff | pack/reader.go:212-225 | bytes are handed out for a key if and only if they are at the place it is indexed at and have the digest it is indexed with; a key that is not indexed is not found |
| Text.SplitJoin | router/pattern.go:84-91 | splitting undoes joining where no part holds the separator |
| Text.UnescapeQuery | pack/writer.go:220-233 | unescaping undoes query escaping for every byte string |
| Text.QueryEscapeKeeps | pack/writer.go:220-233 | letters, digits and `-_.~` stand for themselves |
| Text.QueryEscapeSpells | pack/writer.go:220-233 | a space becomes a plus sign, any other byte a percent sign and two upper-case digits |
| Text.UnescapeIff | router/pattern.go:204-222 | an escaped text is refused only over a percent sign without its two digits |
| Text.UnescapeReads | router/pattern.go:204-222 | digits of either case are read; any byte but the percent sign stands for itself in a path |
| StaticKey.KeyIsCanonical | pack/writer.go:220-233 | the key does not depend on the order in which the map is iterated |
| StaticKey.DecodesKey | pack/writer.go:220-233 | the route and the whole parameter map are recovered from the key, whatever bytes they hold |
| StaticKey.KeyIsInjective | pack/writer.go:220-233 | two keys are equal if and only if routes and parameters are |
| StaticKey.StaticEntryKey | pack/writer.go:220-233 | the string builder's loop yields the key |
| StaticKey.KeySpells | pack/writer.go:220-233 | the key is the route, a question mark and one escaped pair for each parameter, names ascending byte by byte |
| Router.ParsedPattern | router/pattern.go:30-64 | a parsed pattern is well formed and prints back to its trimmed source |
| Router.ParseIff | router/pattern.go:30-64 | a source parses to a pattern if and only if it starts with a slash and is, but for slashes around it, the writing of that pattern, whose segments can be written and of which only the last takes several parts |
| Router.TrimFacts | router/pattern.go:30-64 | trimming takes all slashes at the ends and nothing else |
| Router.SplitPathFacts | router/pattern.go:204-222 | decoded parts hold no slash, name no directory, and the last is not empty |
| Router.SplitPathIff | router/pattern.go:204-222 | a path is refused only over a missing slash, a backslash, a broken escape, or a part that decodes to a directory name or holds a slash; else its parts are decoded one by one |
| Router.EscapedPathSplits | router/pattern.go:204-222 | any list of nonempty parts that may occur is the list of some path's parts |
| Router.MatchIff | router/pattern.go:66-93 | a pattern matches if and only if its literals agree and the number of parts is one its last segment allows |
| Router.MatchBinds | router/pattern.go:66-93 | matching binds exactly the pattern's names |
| Router.FillUndoesMatch | router/pattern.go:66-93 | putting the parameters back into a pattern with distinct names rebuilds the path, catch-alls included |
| Router.MatchUndoesFill | router/pattern.go:66-93 | the parts a pattern stands for match it with the same parameters |
| Router.CheckIff | router/pattern.go:133-155 | a table is built if and only if routes are identified, parse, and have different patterns |
| Router.ResolveIsBest | router/pattern.go:157-164 | resolving on the sorted table finds what scanning the routes as registered for the most specific, earliest match would |
| Router.BestFacts | router/pattern.go:157-164 | nothing is found only if nothing matches; what is found matches, is maximal, and was registered before its equals |
| Router.ResolvesByPrecedence | router/pattern.go:95-164 | nothing is resolved only if nothing matches; what is resolved matches and, against every other matching route, either has a literal before a parameter before a catch-all before an optional one where they first differ, or goes on where the other ends, or has the same kinds and was registered first |
| Router.LiteralRouteWinsIff | router/pattern.go:95-164 | the path written for a route of literals resolves to these literals if and only if no registered route goes on from them with an optional catch-all |
| Router.OrderKeepsShape | router/pattern.go:133-164 | for any permutation of the routes the answer has the same segment kinds and literals |
| Router.ResolvedPathRebuilds | router/pattern.go:133-164 | end to end, a resolved path is its route's pattern filled with the returned parameters |
| Router.ParsePattern | router/pattern.go:30-64 | the loop parses as specified |
| Router.MatchPath | router/pattern.go:66-93 | the loop matches as specified |
| Router.CompareSpecificity | router/pattern.go:175-202 | comparing ranks padded with zeros is comparing patterns rank by rank |
| Router.NewTable | router/pattern.go:133-155 | the loop reports the first faulty route, else sorts stably |
| Router.ResolveRoute | router/pattern.go:157-164 | returns the first matching route of the table |
| Trust.RestoreOnlyMarks | codegen/trust.go:22-77 | whatever the contract, erasing the markers of a restored value gives back the input |
| Trust.MarksAreSafePositions | codegen/trust.go:22-77 | under a valid contract exactly the strings at safeHtml positions are marked |
| Trust.UnionAccepts | codegen/json.go:165-175 | a valid union accepts exactly the strings among its literals and enum values |
| Trust.AcceptedIsRestored | codegen/trust.go:22-77 | without enum variants in unions every accepted value is restored |
| Trust.EnumUnionReached | codegen/trust.go:79-111 | with one, some accepted value is refused |
| Trust.RestoresIff | codegen/trust.go:22-111 | every accepted value is restored if and only if no union has an enum variant |
| Trust.RestoreFailsIff | codegen/trust.go:22-77 | under a valid contract restoration fails if and only if somewhere markup is no string, a container is missing, or not exactly one variant matches |
| Trust.TrustValue | codegen/trust.go:22-77 | the recursion that overwrites fields and elements, in any field order, computes the specified restoration |
| Trust.TrustStaticSafeHtml | codegen/trust.go:13-20 | the first route with the id decides, whichever follow; without one it fails |
| Markup.TokenizePrint | renderer/render.go:267-353 | tokenizing printed markup gives exactly the tags, attributes and text of the tree |
| Markup.WellNested | renderer/render.go:267-353 | every non-void element is closed, in order |
| Markup.HtmlAgrees | renderer/render.go:267-353 | where no element has raw text, the HTML tokenizer reads the same tags and text, names folded and the first of repeated attributes kept |
| Markup.NoneDroppedIff | renderer/render.go:267-353 | it drops no attribute if and only if no two names of the tag differ in case only or not at all |
| Renderer.ExpandBuilt | renderer/render.go:109-353 | whatever the evaluator answers, expansion builds only elements of the plan and table bodies |
| Renderer.RenderingReadsBack | renderer/render.go:72-353 | the rendered text of a plan without raw markup reads back as exactly the expanded plan, well nested, with no tag but the plan's own |
| Renderer.RenderingReadsAsHtml | renderer/render.go:72-353 | for plans without raw-text elements an HTML tokenizer reads the rendered text as the expanded plan |
| Showing.ShowsIff | renderer/render.go:109-353 | expansion yields exactly what the plan shows: conditionals by null, false, zero and empty text, loops turn by turn with item and index bound and distinct keys, attributes, forms, table bodies and text each case by case; and it fails exactly where the plan shows nothing |
| Showing.RenderingShows | renderer/render.go:72-353 | the rendered text is that of what the plan shows, and there is none if and only if it shows nothing at all |
| Showing.RenderingReadsAsShown | renderer/render.go:72-353 | read back, the rendered text of a plan without raw markup is exactly what the plan shows |
| RenderBuffer.Buffer.WriteString | renderer/render.go:30-36 | a write that does not fit is refused whole and marks the buffer for good |
| RenderBuffer.RenderKids | renderer/render.go:238-265 | the children loop, row grouping and separators included, writes the specified children or stops |
| RenderBuffer.RenderItems | renderer/render.go:180-236 | the each loop writes the specified items, refusing null and duplicate keys |
| RenderBuffer.RenderElement | renderer/render.go:267-353 | writes the open tag, content and close tag of the specified element |
| RenderBuffer.RenderAt | renderer/render.go:72-100 | returns the text of what the plan shows if and only if it shows something and that fits in 8 MiB, and never a part of it |

## Left out

- Cache time, memoisation and decoding: in `CacheCoherence` freshness, storability and decoding are free choices of each step; `cache.Memo` reads are outside; an L1-only or L2-only deployment is a run in which the other tier's entries are dropped.
- Failing local bumps: a bump counts as completed only when both increments succeeded; bumps of other instances are not seen.
- CacheCoherence.HitIsFresh: speaks of the tags each reading computation declared, not of every tag of the record, because the latter fails (`NestedLoadsMustDeclareTheTag`), and for each of these assumes that the tag's own bumps do not overlap, which is exact (`OnlyOverlapLeaks`).
- `normalizeTags`, leases, tag-bump broadcasts and statistics counters: thin, or advisory to the results above.
- Linked lists: the residency lists hold keys rather than node pointers, so pointer surgery and aliasing are not captured; lock acquisition and the janitor goroutine are the atomicity of steps.
- The protected share 0.8 is taken as exactly four fifths, in integer floors; float rounding is not modelled.
- A disabled semaphore is simply absent; weights arrive clamped to 1 and the size, as `clamp` leaves them.
- Handoff gRPC details: request and reply shapes, logging, backoff and the deadline are not modelled; a cancelled flush is an event.
- `OAuth`: `Authorize` consent checks, client secrets, the HTTP handler and hashing; secrets are drawn fresh and a hash is identified with its secret.
- MetricExporter.IdentitiesAreUnique: assumes no epoch became current twice, because the exporter compares neighbours only; exact by `ReissueIff`; the instance id and the decoding of tokens and OTLP data are the environment's.
- MetricSplit.SplitIsOptimal: assumes that adding points never makes a body smaller; the protobuf encoder itself is a parameter.
- `Pack`: compression and the digest are functions given to the builder, and parsing is a predicate that no empty entry meets; nonempty input compresses to something; weighing, decompression, file handling and write errors are not modelled. Files stay below 2^63 bytes, as their size is a signed 64-bit number.
- MetricDeadlines.RunInTime: assumes no epoch became current twice; exact by `LateIff`.
- Router.FillUndoesMatch: assumes distinct parameter names, which `Parse` does not enforce.
- `Trust`: JSON text and error messages; numbers are compared as exact rationals; fields and elements are overwritten in fresh containers, so a partly restored value left behind by a failure is not captured.
- Trust.RestoresIff: assumes the contract's number literals are numbers and some timestamp exists.
- `renderer/eval.go`: expressions are evaluated by a parameter and every result holds for any evaluator, so its own arithmetic would add only easy members; style text, URL checks, number formatting and the SVG attribute table are parameters too.
- Renderer.RenderingReadsBack: its tokenizer is that of ordinary content and keeps repeated attributes; `RenderingReadsAsHtml` folds and drops names as HTML does, for plans without raw-text elements. Neither drops the newline after a `pre` start tag or folds Unicode.
- `renderplan.Validate` and its depth limit: rendering assumes what validation establishes of names; document heads and navigation locals are not modelled.
- `agents`' loops, voice and SIP, task-queue naming, build tooling and generated sources: thin, or without an invariant of their own.
