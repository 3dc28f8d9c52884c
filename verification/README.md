# Redkey operator: a verified model of its control protocol

The Redkey operator turns the spec of a `Redkey` object into a queue of numbered `RedkeyConfig` objects. An agent
called Robin works through the queue, and the operator mirrors the state of the active config back into the `Redkey`
status. This project models that protocol together with the admission rules that guard it, the fleet metrics, and the
drift repair of the Robin Deployment, and proves what holds over every run.

`dafny verify dfyconfig.toml` checks the whole project.

## The protocol

`Protocol` is a labelled step system over one API-server store.

- The **user** updates the spec through the admission rules; each accepted change bumps the generation.
- **Robin** is an adversary over config status: it may write any status to any config at any time, and never creates
  or deletes one.
- The **operator** runs `Reconcile`, split at every API call. It may fail or crash between any two calls, and its
  reads of the `Redkey` may lag behind the live object but never go back.

A run is a sequence of labels. `Safety` proves one invariant over all runs, and the other modules draw their theorems
from it. `Operator` is the imperative form: a class whose methods follow the source line by line, with interference and
faults at every call, proved to do nothing but runs of the step system.

| file | content |
|---|---|
| `Types`, `Text`, `Admission` | API objects, integer and name formatting, CEL rules |
| `Conditions`, `Queue` | condition aggregation, listing, creating, choosing and cleaning configs |
| `Protocol`, `Safety`, `Theorems` | the step system, its invariant, safety over all runs |
| `CalmRuns`, `Convergence`, `ScaleToZero` | uninterrupted reconciles: convergence measure, settled store, teardown |
| `MeasureLimits`, `StatusBounds`, `FirstReconcile` | when the measure rises, when status writes are refused, runs from a fresh Redkey |
| `Lock`, `LockDrift`, `LockRace` | the scale-from-zero topology lock: soundness, what it forces, how a topology goes unprotected |
| `LaggingCache`, `LostGeneration` | the protocol over a lagging config cache |
| `Operator` | `Reconcile` as a class, refining the step system |
| `Operations`, `Readiness`, `Metrics` | trackers, gauges and histograms against the history of calls |
| `MergePatch`, `RobinDeployment`, `EnvVars` | JSON merge patches, Deployment drift repair, environment merge |

## Assumptions

- One worker per key, and one lifetime of the `Redkey` object.
- Config lists are fresh, except in `LaggingCache` and `LostGeneration`, where every list may be an old version of the
  store as long as lists never go back; those runs contain no `deleteAllConfigs`.
- A Redkey has no status until the operator's first status write; this is the unset phase, which neither writer leaves.
- Generations stay within 64 bits; an update that would leave that range is not part of a run.
- A nil map and an empty map are one value, as the comparisons in the source treat them.
- Configs are keyed by sequence. `Text.ConfigNameInjective` shows that names say the same.
- Spec fields the operator only copies are one opaque `payload`; substatus and nodes are one opaque `detail`.
- Time is a parameter of each call, and the clock may return anything.
- "Uninterrupted" means no crash, no user update, no Robin write and up-to-date reads.

## Where the code and its comments differ

- `redkey_config.go:176-184` calls the topology lock race-free. It is sound once a topology is recorded
  (`Lock.LockRaceFree`). At zero, a scale-up is forced to a topology exactly when that topology is on record, apart from
  a missing status and from standalone mode (`Lock.ScaleUpForcedIff`). A topology Robin applied before the operator
  recorded it is lost by a scale-down from every reachable state (`LockRace.UnrecordedIsUnprotected`). Then the lock is
  open for good (`LockRace.LockCanBeOpen`) or forces an older topology (`LockRace.OlderTopologyForced`).
- `redkey_types.go:238-239` says that clusters created at zero are unaffected by the lock. The rules read through the
  status, and there is none before the operator's first status write; until then every scale-up of a storage cluster
  from zero is rejected (`Lock.NoRecordOpenIff`).
- `redkey_config.go:114-121` treats an existing config name as a harmless no-op. It is harmless to the store
  (`LaggingCache.CreateIsTopOrNoop`), but when the name belongs to another generation the status goes on to claim a
  generation that has no config: `LaggingCache.GenerationLostIff` is exact, `LostGeneration.GenerationCanBeLost` gives
  the run for every spec change, `LostGeneration.StuckRun` shows that nothing repairs it until the spec changes.
- `redkey_robin.go:284-286` rules out an endless patch loop. That holds exactly when the user's annotations do not name
  the revision key (`RobinDeployment.NoPatchLoopIff`). A concurrent first stamp of the revision is lost in one case
  (`RobinDeployment.PatchKeepsRevisionIff`).
- `redkey_robin.go:506-511` compares only pod fields that are set, so a field removed from the template does not by
  itself cause a patch and stays (`RobinDeployment.DroppedFieldStays`). It goes exactly when there is another reason
  to patch, because the patch then covers the whole template (`RobinDeployment.DroppedFieldRemovedIff`).
- The recorded fields are bounded in the status schema while the spec fields are not. Once Robin has applied an admitted
  topology outside the bounds, no status is stored while the spec is held and the config stays Applied
  (`StatusBounds.StatusFrozen`), and every such spec gets there (`StatusBounds.FrozenIsReachable`).
- Convergence needs more than a held spec: a zero version that the operator may still read wipes a non-empty store, even
  under a non-zero live spec (`MeasureLimits.MeasureNeverRisesIff`).

## Model

| member | source | states |
|---|---|---|
| `Text.ParseFormat` | internal/controller/redkey_config.go:47-48 | a written integer reads back as itself if and only if it fits in 64 bits; a plus sign makes no difference |
| `Text.ConfigNameInjective` | internal/controller/redkey_config.go:69 | a config name determines cluster and sequence, whatever dashes and digits cluster names contain |
| `Admission.LockIsPlainComparison` | api/v1beta1/redkey_types.go:247-248 | the two lock rules, read through has() and omitempty, hold if and only if a storage cluster leaving zero has a status and, if that has a record, asks for exactly the recorded pair |
| `Admission.StatusWriteRejectedOnlyByBounds` | api/v1beta1/redkey_types.go:203-212 | a status write passes admission if and only if both recorded fields lie between 0 and 100000; the lock rules never reject one |
| `Admission.AdmittedIff` | api/v1beta1/redkey_types.go:110-132 | an update of an admitted object is admitted if and only if mode, ephemeral flag and all storage fields stay, only an ephemeral cluster purges, standalone limits hold, and a storage cluster leaves zero only with a status and the recorded pair if there is one; the storage rule that is skipped when the field is absent loses nothing |
| `Admission.CreatableIff` | api/v1beta1/redkey_types.go:16-21 | a spec may be created if and only if it has storage exactly when not ephemeral, purges only when ephemeral and keeps the standalone limits |
| `Conditions.AggregateHealthConditions` | internal/controller/redkey_config.go:264-286 | the loop over the health types sets exactly the six updates of the specification, in order |
| `Conditions.AggregateConditions` | internal/controller/redkey_config.go:224-246 | Ready, ConfigPending and Error follow the config's phase and status, each health type is Robin's report once settled and Unknown before, with their reasons and messages; and the result is the aggregation whose laws follow |
| `Conditions.BasicAfterAggregate` | internal/controller/redkey_config.go:224-241 | for every prior list: Ready is True if and only if the phase is Applied or Superseded without an error, ConfigPending if and only if it is neither, Error if and only if it is one of them with an error |
| `Conditions.HealthAfterAggregate` | internal/controller/redkey_config.go:264-286 | for every prior list each health type is present: Robin's status, reason and message as they are once the config is terminal, Ready and reports it, Unknown otherwise |
| `Conditions.PhaseAfterAggregate` | internal/controller/redkey_config.go:288-320 | the phase is Configuring until the active config is Applied or Superseded, then Error or Ready as its status says; Ready and Error are never both True |
| `Conditions.PhaseAfterZero` | internal/controller/redkey_scale_zero.go:179-203 | Ready True, ConfigPending and Error False, every other kind untouched, and the stored phase is the one they compute to |
| `Conditions.AggregateFrame` | internal/controller/redkey_config.go:224-286 | transition times move exactly when a status does; unrelated conditions keep place and content |
| `Conditions.AggregateIdempotent` | internal/controller/redkey_config.go:224-286 | aggregating the same config again at any later time changes nothing |
| `Queue.MergeMeta` | internal/controller/redkey_robin.go:48-60 | internal entries always win; an override block replaces the user's entries entirely; nothing else appears |
| `Queue.NewConfigReadsBack` | internal/controller/redkey_config.go:59-77 | whatever labels and annotations the user sets, a new config is found by the selector and its annotation reads as its generation |
| `Queue.NewConfigMetadata` | internal/controller/redkey_config.go:71-76 | entry by entry, labels and annotations of a config are the user's with the operator's own entry on top |
| `Queue.NeedsNewConfigIff` | internal/controller/redkey_config.go:43-56 | a new config is needed if and only if the latest was built for an older generation, or carries no generation, and the status has not observed this one |
| `Queue.ListIsSelection` | internal/controller/redkey_config.go:26-40 | on every store the list has exactly the configs with the cluster's label, each once, ascending |
| `Queue.ListIsStore` | internal/controller/redkey_config.go:26-40 | on a store of labelled configs the list is the whole store, ascending by sequence |
| `Queue.SelectActive` | internal/controller/redkey_config.go:212-222 | the active config is the oldest InProgress one, or the oldest of all when none is InProgress; so an Applied active config is the oldest |
| `Queue.LastApplied` | internal/controller/redkey_config.go:331-337 | the newest Applied config of a list, or none |
| `Queue.CleanupKeeps` | internal/controller/redkey_config.go:324-356 | the highest config always stays last; if any config was read as Applied, exactly one Applied remains and it is first |
| `Safety.StepKeeps` | internal/controller/redkey_controller.go:61-164 | every step of every actor keeps the invariant |
| `Safety.CreateAddsTop` | internal/controller/redkey_config.go:59-135 | with a fresh list a create adds a new unique maximum built for the snapshot's generation, newer than every config present |
| `Safety.NoCreateMeansCurrent` | internal/controller/redkey_config.go:43-56 | a reconcile that decides not to create already has the config of its generation on top |
| `Safety.StoreRecords` | internal/controller/redkey_config.go:185-190 | what the aggregate writer records is the topology of a genuine, non-zero, Applied config, the oldest in the store and no older than the previous source |
| `Safety.Safe` | internal/controller/redkey_controller.go:61-164 | every state reachable from a fresh Redkey satisfies the invariant |
| `Theorems.QueueSamplesHistory` | internal/controller/redkey_config.go:26-104 | in every reachable state each config is keyed by its sequence, found by the selector and carries the spec of its annotated generation; sequences and generations are ordered alike, so a generation has at most one config |
| `Theorems.NoGenerationLost` | internal/controller/redkey_config.go:147-174 | a non-zero Redkey that claims its live generation has the highest config built for exactly that generation, however the spec moved during the reconcile |
| `Theorems.WrittenPhaseAgrees` | internal/controller/redkey_config.go:166-174 | in every written status the phase is the one its conditions compute to, and Ready and Error exclude each other |
| `Theorems.StoreMirrors` | internal/controller/redkey_config.go:166-197 | every aggregate write, in any phase of the active config, stores its status and detail, the live primaries as replicas, the snapshot's generation, the phase and basic conditions it implies, and its topology on record if and only if the cluster has storage and the config is Applied with primaries |
| `Theorems.ZeroWrites` | internal/controller/redkey_scale_zero.go:176-206 | every write of the scale-to-zero path stores Ready with 0 replicas, no status or detail, the generation, the three conditions, and keeps the record |
| `Theorems.RecordStep` | internal/controller/redkey_config.go:176-197 | a step changes the record only to the topology of a config in the store read as Applied with primaries, and the source generation never goes back |
| `Theorems.RecordNeverLost` | internal/controller/redkey_scale_zero.go:176-206 | over any run a record is never cleared and is always the topology of an admitted non-zero storage generation |
| `Theorems.NewestAppliedRecordedIff` | internal/controller/redkey_config.go:145-190 | over every run of a reconcile from the list it read to its end, with user updates, Robin writes and conflict retries in between: the record ends up at the newest Applied topology if and only if the cluster has storage, that topology is non-zero and within the schema bounds and nothing newer is InProgress, or it was on record already; otherwise it has not moved |
| `Theorems.CleanupStep` | internal/controller/redkey_config.go:343-353 | a delete, wherever the loop is interrupted, removes a config strictly older than the newest Applied one, never the highest, and leaves the decision to create unchanged for every generation |
| `CalmRuns.Finish` | internal/controller/redkey_controller.go:61-164 | from every reachable state the reconcile in progress can be carried to its end |
| `CalmRuns.CalmEnds` | internal/controller/redkey_controller.go:61-164 | every uninterrupted step lowers a rank, so uninterrupted reconciles terminate |
| `ScaleToZero.TeardownCompletes` | internal/controller/redkey_scale_zero.go:72-88 | from every state a failed teardown can leave, once Robin applied the highest zero config, uninterrupted reconciles reach no configs, no Deployment, no RBAC and Ready with 0 replicas, and keep the record |
| `ScaleToZero.CleanIsSeen` | internal/controller/redkey_scale_zero.go:72-88 | the state reached is one the next theorem starts from |
| `ScaleToZero.CleanForever` | internal/controller/redkey_scale_zero.go:32-48 | it stays so under crashes, restarts, Robin and lagging reads, until the user changes the spec |
| `ScaleToZero.ZeroConfigQueued` | internal/controller/redkey_scale_zero.go:54-68 | with any configs present, uninterrupted reconciles at zero leave a zero config on top and all of Robin's objects in place |
| `ScaleToZero.ScaleToZeroCompletes` | internal/controller/redkey_scale_zero.go:32-104 | both halves joined by Robin applying the highest config |
| `Convergence.MeasureStep` | internal/controller/redkey_controller.go:107-150 | with the spec held and no readable version at zero, no step raises (generations behind, configs) lexicographically, also while the operator works on older generations; a create closes the gap to its snapshot, every delete lowers the second component |
| `Convergence.MeasureNeverRises` | internal/controller/redkey_controller.go:107-150 | the same over any run without a user update |
| `MeasureLimits.MeasureNeverRisesIff` | internal/controller/redkey_scale_zero.go:32-104 | from any reachable state, no run without a user update ends with a higher measure if and only if the store is empty or no readable version is at zero |
| `StatusBounds.StatusFrozen` | api/v1beta1/redkey_types.go:203-212 | over every run in which the spec is held and an Applied config outside the schema bounds stays Applied, with crashes, lagging reads and retries, the stored status never changes |
| `StatusBounds.FrozenIsReachable` | api/v1beta1/redkey_types.go:203-212 | every admissible storage spec outside the bounds has a run from a fresh Redkey into such a state |
| `Convergence.ReconcileCatchesUp` | internal/controller/redkey_controller.go:107-150 | uninterrupted reconciles end with the live generation's config on top and, within bounds, that generation observed |
| `Convergence.ReconcileLeavesOne` | internal/controller/redkey_config.go:324-356 | once Robin applied the live generation's config, uninterrupted reconciles leave exactly it, with its topology on record for a storage cluster and a status that shows its state, phase, replicas and generation |
| `Convergence.SettledForever` | internal/controller/redkey_config.go:43-56 | from then on no reconcile creates or deletes a config until the user changes the spec, whatever Robin, crashes and lagging reads do |
| `Lock.ScaleUpRestoresRecord` | api/v1beta1/redkey_types.go:232-248 | at any interleaving point an admitted update from zero to non-zero restores exactly the recorded pair, which is that of an earlier generation |
| `Lock.NoRecordOpenIff` | api/v1beta1/redkey_types.go:247-248 | without a record every pair the other rules allow is admitted if and only if the cluster is ephemeral or has a status |
| `Lock.ScaleUpForcedIff` | api/v1beta1/redkey_types.go:232-248 | in every reachable zero state of a storage cluster a scale-up is forced to a topology if and only if that is on record, there is no status, or there is no record and standalone mode leaves no other |
| `Lock.LockNeverStrands` | api/v1beta1/redkey_types.go:16-21 | in every reachable zero state with a record, setting the recorded pair satisfies all rules |
| `Lock.LockRaceFree` | internal/controller/redkey_config.go:176-190 | from a steady state, over any interleaving of scale-downs and scale-ups with no reconcile in between, the record never moves and no other non-zero topology is ever stored |
| `Lock.SteadyAfterReconcile` | internal/controller/redkey_config.go:185-190 | one uninterrupted reconcile after Robin applied the live config makes a storage cluster steady |
| `LockDrift.PinnedRun` | internal/controller/redkey_config.go:185-190 | at zero, a record that every recordable config agrees with never moves |
| `LockDrift.RecordIsFinalIff` | internal/controller/redkey_config.go:176-190 | at zero the record can no longer move without a user update if and only if the cluster is ephemeral or every recordable config in the store has the recorded topology |
| `LockRace.LockCanBeOpen` | internal/controller/redkey_config.go:176-184 | for every storage spec a run with a status written, its topology applied by Robin, and the teardown complete, after which there is no record and every topology the other rules allow is admitted |
| `LockRace.UnrecordedIsUnprotected` | internal/controller/redkey_config.go:176-190 | from every reachable idle state of a storage cluster with its newest config in place there is a run in which Robin applies it, the user scales to zero and the teardown completes with the record unmoved; a scale-up is then forced to the applied topology if and only if it was on record before, or standalone mode leaves no choice |
| `LockRace.OlderTopologyForced` | internal/controller/redkey_config.go:176-190 | for every recordable spec and every admissible change to another, a run in which both are applied and which ends torn down with a lock that admits only the first |
| `LaggingCache.MoveKeeps` | internal/controller/redkey_controller.go:107-150 | every step over a lagging cache keeps the invariant; a readable version is never more than one config behind |
| `LaggingCache.CreateIsTopOrNoop` | internal/controller/redkey_config.go:59-123 | a create makes the new config the unique maximum if and only if its list showed the live maximum; otherwise it meets the live maximum and leaves the store unchanged |
| `LaggingCache.GenerationLostIff` | internal/controller/redkey_config.go:113-174 | a claimed generation has the newest config if and only if its create did not meet a name of another generation |
| `LostGeneration.StuckRun` | internal/controller/redkey_config.go:43-56 | after such a loss no run without a user update creates a config |
| `LostGeneration.StuckHasNoConfig` | internal/controller/redkey_config.go:43-56 | in such a state the live generation is claimed and the newest config belongs to another one |
| `LostGeneration.GenerationCanBeLost` | internal/controller/redkey_controller.go:119-133 | every admissible change between two non-zero specs has a run that loses its generation |
| `Operator.BuildConfig` | internal/controller/redkey_config.go:59-104 | the config is found by the selector, its annotation reads as the snapshot's generation, all other labels and annotations are the user's, its sequence is the next, and its spec gives back every field of the Redkey's except access modes and Robin's own settings |
| `Operator.FindLastApplied` | internal/controller/redkey_config.go:331-337 | the backward search finds the newest Applied config |
| `Operator.BuildStatus` | internal/controller/redkey_config.go:166-190 | status and detail of the active config, live primaries, given generation and time, the phase its phase and status imply, and the active pair on record if and only if the rule of recording holds, else the old record |
| `Operator.BuildZeroStatus` | internal/controller/redkey_scale_zero.go:179-203 | Ready with 0 replicas, no status or detail, the generation observed, the record kept, and the three conditions |
| `Operator.Operator.EnsureRobin` | internal/controller/redkey_robin.go:117-298 | on success all four objects exist; nothing is removed; the binding is never created before account and role, nor the Deployment before all three; every execution is a run of the step system |
| `Operator.Operator.CreateNewConfig` | internal/controller/redkey_config.go:106-135 | on success the next name is taken: by the new config if it was free, otherwise nothing is added; existing configs keep their contents |
| `Operator.Operator.CleanupSupersededConfigs` | internal/controller/redkey_config.go:324-356 | on success returns the list from the newest Applied config; on an error, from the config that could not be deleted |
| `Operator.Operator.FetchLatest` | internal/controller/redkey_config.go:160-164 | may read any stored version |
| `Operator.Operator.StoreStatus` | internal/controller/redkey_config.go:192-199 | a stale version conflicts and goes back to the fetch |
| `Operator.Operator.AggregateStatus` | internal/controller/redkey_config.go:140-206 | bounded retry; on success the last version is the one before with a status that mirrors the active config, field by field |
| `Operator.Operator.DeleteRobin` | internal/controller/redkey_scale_zero.go:107-149 | on success nothing is left; the binding goes only after the Deployment, the role after the binding, the account after the role |
| `Operator.Operator.DeleteAllConfigs` | internal/controller/redkey_scale_zero.go:152-173 | lists afresh and deletes in any order, never a config without the cluster's label; on success the store is empty |
| `Operator.Operator.UpdateStatusScaledToZero` | internal/controller/redkey_scale_zero.go:176-206 | writes without a refresh, so anything newer conflicts |
| `Operator.Operator.ReconcileScaleToZero` | internal/controller/redkey_scale_zero.go:32-104 | cases A to D with what each achieves: the zero status stored; a zero config of the snapshot's generation on top and Robin in place; nothing left and the zero status stored; Robin in place and the aggregate stored; the store at the start decides between A, B and the rest |
| `Operator.Operator.PrepareConfigs` | internal/controller/redkey_controller.go:107-133 | on success the list is the store and ends with the config of the snapshot's generation |
| `Operator.Operator.ReconcileConfigs` | internal/controller/redkey_controller.go:107-150 | on success the store is the list read from its newest Applied config on, the live status is the aggregate with the snapshot's generation, and the newest Applied topology is on record wherever the rules of recording allow |
| `Operator.Operator.Reconcile` | internal/controller/redkey_controller.go:61-164 | every execution under interference and faults is a run, the invariant holds after it, and success means exactly one complete reconcile |
| `Operations.EndingIffBlock` | internal/controller/metrics.go:201-226 | a sample is recorded if and only if an observation ends a maximal block of equal non-terminal status of its key, with that block's name and length; superseded if and only if another operation follows, an error if and only if the phase or status is Error, a success otherwise |
| `Operations.Conservation` | internal/controller/metrics.go:201-232 | operations started equal those recorded as success, error or superseded, plus forgotten, plus in flight |
| `Operations.OthersUntouched` | internal/controller/metrics.go:196-232 | an event of one key leaves the reading of every other key alone |
| `Operations.OpTracker.Observe` | internal/controller/metrics.go:201-226 | active entry, histogram and the counter of every label pair change exactly as the call demands, and are those of the history with this call appended |
| `Operations.OpTracker.Forget` | internal/controller/metrics.go:228-232 | drops the entry and records nothing |
| `Readiness.ReadyTracker.EnteredReady` | internal/controller/metrics.go:249-256 | true if and only if the phase is Ready and the remembered one is not, which is a rise into Ready since the key was last dropped |
| `Readiness.ReadyTracker.Forget` | internal/controller/metrics.go:258-262 | forgets the key's phases |
| `Metrics.SampledIff` | internal/controller/metrics.go:163-168 | a time-to-ready sample, the age of the active config, is taken if and only if a cluster with one is Ready and was not Ready at its previous observation with one since it was last deleted |
| `Metrics.LatestIff` | internal/controller/metrics.go:130-179 | the latest record of a key is the last change of that key, if it is a record |
| `Metrics.SeriesShow` | internal/controller/metrics.go:135-161 | the series of a key written out: the operation it runs, each of three phases and four config phases with 1 on the current one, none after a deletion, no config series without a config |
| `Metrics.OtherKeysKeep` | internal/controller/metrics.go:130-179 | changes of one cluster leave every reading of another alone |
| `Metrics.LatestIsLastView` | internal/controller/metrics.go:130-141 | the tracker's reading of a key ends with its latest record |
| `Metrics.SetStates` | internal/controller/metrics.go:143-161 | writes 1 on the active value and 0 on the rest, and touches no other series |
| `Metrics.FleetMetrics.Record` | internal/controller/metrics.go:130-169 | every series of every key is the one the history of calls prescribes |
| `Metrics.FleetMetrics.Delete` | internal/controller/metrics.go:172-179 | no series of the key is left, no sample is taken, and all series match the history |
| `Metrics.FleetMetrics.GaugeIsTracked` | internal/controller/metrics.go:135-141 | the in-progress gauge of a key shows exactly the tracked operation, or nothing |
| `MergePatch.RoundTrip` | internal/controller/redkey_robin.go:282-292 | applying the merge patch between two documents to the first gives the second |
| `MergePatch.PatchIsLocal` | internal/controller/redkey_robin.go:282-292 | a patch changes only fields in which the two documents differ: those become the goal's or go, every other field stays as it is live |
| `MergePatch.PatchCovers` | internal/controller/redkey_robin.go:282-292 | a patch computed before fields were added to the live document still leaves everything the goal sets in place |
| `MergePatch.PatchPrunes` | internal/controller/redkey_robin.go:282-292 | such a patch removes every field the goal no longer has; only concurrent additions can be left over |
| `MergePatch.CoversChain` | internal/controller/redkey_robin.go:506-511 | comparing only set fields is transitive, so defaulting on top of defaulting stays invisible |
| `MergePatch.CoversIff` | internal/controller/redkey_robin.go:506-511 | the comparison holds if and only if whatever stands at any path of the desired document stands there in the existing one |
| `RobinDeployment.StripManagedAnnotations` | internal/controller/redkey_robin.go:450-465 | exactly the revision key is gone |
| `RobinDeployment.Preserve` | internal/controller/redkey_robin.go:470-479 | the desired annotations with the revision carried over when present, and exactly the desired ones when not |
| `RobinDeployment.NeedsUpdateIff` | internal/controller/redkey_robin.go:482-514 | an update is needed if and only if the replicas differ, or a label, pod label, pod annotation or annotation other than the revision is missing, extra or different, or the revision is desired, or something desired in the pod spec is missing or different |
| `RobinDeployment.PatchKeepsRevisionIff` | internal/controller/redkey_robin.go:284-292 | a patch applied after a concurrent bump gives the desired annotations plus the live revision, except when it empties a non-empty annotation field that had no revision yet |
| `RobinDeployment.NoPatchLoopIff` | internal/controller/redkey_robin.go:257-298 | after a create or a patch no run of bumps and defaulting makes the operator patch again, if and only if the desired annotations do not name the revision key |
| `RobinDeployment.RevisionAlwaysDrifts` | internal/controller/redkey_robin.go:493-498 | desired annotations naming the revision key differ from every stored Deployment |
| `RobinDeployment.DroppedFieldRemovedIff` | internal/controller/redkey_robin.go:506-511 | a pod field that is no longer desired is never the reason for a patch, and is removed if and only if there is another one; then the pod spec is the desired one |
| `RobinDeployment.PatchLeavesNoLeftovers` | internal/controller/redkey_robin.go:282-292 | a patch leaves no field, at any depth, that is not desired and was there when the object was read |
| `RobinDeployment.DroppedFieldStays` | internal/controller/redkey_robin.go:506-511 | a Deployment with one pod field more than desired and no other drift keeps it through every run of bumps and defaulting, and is never patched |
| `RobinDeployment.DesiredMetadata` | internal/controller/redkey_robin.go:306-328 | entry by entry: the operator's two labels always win, the rest is the user's, a non-empty pod template block replaces the user's block on the pod, one replica, the pod spec as given |
| `RobinDeployment.Keeper.Ensure` | internal/controller/redkey_robin.go:257-298 | success leaves the desired replicas, labels, annotations apart from the revision, pod metadata and everything the desired pod sets; a matching Deployment is left alone; at most one write per call |
| `RobinDeployment.Keeper.EnsureRepeatedly` | internal/controller/redkey_robin.go:257-298 | any number of reconciles count at most one write, or one each when the revision key is desired |
| `EnvVars.MergeEnvVars` | internal/controller/redkey_robin.go:529-546 | for lists with repeated names too, the result reads as last-wins override; base names keep their places, new names follow in order of first appearance |
| `EnvVars.DoubleMerge` | internal/controller/redkey_robin.go:371-385 | the second merge puts CLUSTER_NAME and NAMESPACE first with the operator's values, and all names are distinct |
| `EnvVars.ValueIff` | internal/controller/redkey_robin.go:529-546 | the value of a name is that of its last entry |
| `EnvVars.RobinEnv` | internal/controller/redkey_robin.go:331-385 | the same for any user template, and every other name reads as the user set it last |

## Left out

- cmd/main.go: flags, TLS, profiling and manager wiring.
- api/v1beta1/zz_generated.deepcopy.go: generated copying; values are immutable here.
- Robin's internals: slot migration, rebalancing and upgrades are not in this repository.
- The field-by-field copy of the pod template in `buildDesiredRobinDeployment`: many easy branches; the pod spec is a document.
- Drift checks of RBAC objects: only their existence is modelled; the checks repeat one easy pattern.
- Logging, metric registration and histogram buckets; samples are kept as values.
- The counters for stage errors, config creations and deleted configs: plain increments.
- The observedGeneration field of a condition: neither writer sets it.
- The retry limit on status conflicts in the step system: a retry may go on or be cut short at any point; the class in `Operator` has the limit.
- Deleting and recreating a Redkey under the same name: depends on garbage-collector timing outside the code.
- NodesNeeded: a one-line arithmetic helper.
- Mutexes of the trackers: each call is one atomic step.
- test/, charts and docs: evidence of intent only.
