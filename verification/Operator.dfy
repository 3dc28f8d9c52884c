/** The reconciler itself, call by call: Reconcile, createNewConfig, cleanupSupersededConfigs,
    aggregateStatus and the scale-to-zero path, against an API server on which the user and Robin act
    between any two calls and any call may fail. Every execution is a run of the step system. */
module Operator {
  import opened Types
  import opened Text
  import opened Queue
  import opened Protocol
  import opened Safety
  import Admission
  import Conditions
  import Theorems

  /** retry.DefaultRetry. */
  const RETRY_STEPS := 5

  /** The config createNewConfig assembles: the next sequence, metadata under internal precedence, and
      the spec copied field by field. */
  method BuildConfig(cluster: string, snapshot: Redkey, highest: Option<Config>) returns (config: Config)
    ensures Labelled(config, cluster)
    ensures MIN_INT64 <= snapshot.generation <= MAX_INT64 ==> AnnotatedGeneration(config) == Some(snapshot.generation)
    ensures config.manifest.sequence == if highest.Some? then highest.value.manifest.sequence + 1 else 1
    ensures var c, s := config.manifest.spec, snapshot.spec;
            s == Spec(c.mode, c.primaries, c.replicas, c.ephemeral, c.storage, c.storageClass, s.accessModes,
                      c.purge, c.labels, c.annotations, c.payload, s.robin)
    ensures forall k: string | k != CLUSTER_LABEL :: Entry(config.manifest.labels, k) == Entry(snapshot.spec.labels, k)
    ensures forall k: string | k != GENERATION_ANNOTATION :: Entry(config.manifest.annotations, k) == Entry(snapshot.spec.annotations, k)
    ensures config.status == NEW_CONFIG_STATUS
    ensures config == NewConfig(cluster, snapshot.generation, snapshot.spec, highest)
  {
    hide ParseInt64, FormatInt;
    var sequence := 1;
    if highest.Some? {
      sequence := highest.value.manifest.sequence + 1;
    }
    var spec := snapshot.spec;
    config := Config(
      Manifest(sequence,
               MergeMeta(spec.labels, Meta(map[]), Meta(map[CLUSTER_LABEL := cluster])),
               MergeMeta(spec.annotations, Meta(map[]), Meta(map[GENERATION_ANNOTATION := FormatInt(snapshot.generation)])),
               ConfigSpec(spec.mode, spec.primaries, spec.replicas, spec.ephemeral, spec.storage, spec.storageClass,
                          spec.purge, spec.labels, spec.annotations, spec.payload)),
      NEW_CONFIG_STATUS);
    forall k: string { NewConfigMetadata(cluster, snapshot.generation, snapshot.spec, highest, k); }
    if MIN_INT64 <= snapshot.generation <= MAX_INT64 {
      NewConfigReadsBack(cluster, snapshot.generation, snapshot.spec, highest);
    }
  }

  /** The backward search of cleanupSupersededConfigs. */
  method FindLastApplied(list: seq<Config>) returns (last: int)
    ensures last == LastApplied(list)
  {
    last := -1;
    var i := |list| - 1;
    assert list[..i + 1] == list;
    while i >= 0
      invariant -1 <= i < |list|
      invariant last == -1 && LastApplied(list) == LastApplied(list[..i + 1])
    {
      if list[i].status.phase.ConfigPhaseApplied? {
        return i;
      }
      assert list[..i + 1][..i] == list[..i];
      i := i - 1;
    }
  }

  /** How the API server answers a status update. */
  datatype Answer = Stored | Conflict | Refused

  /** The status aggregateStatus assembles field by field on a copy of the fetched Redkey. */
  method BuildStatus(latest: Redkey, active: Config, observed: int, now: int) returns (status: Status)
    ensures status.status == active.status.status && status.detail == active.status.detail
    ensures status.replicas == latest.spec.primaries && status.observed == observed && status.updatedAt == now
    ensures var settled := active.status.phase.ConfigPhaseApplied? || active.status.phase.ConfigPhaseSuperseded?;
            status.phase == if !settled then PhaseConfiguring
                            else if active.status.status.ClusterStatusError? then PhaseError else PhaseReady
    ensures if !latest.spec.ephemeral && active.status.phase.ConfigPhaseApplied? && active.manifest.spec.primaries > 0
            then status.lastPrimaries == active.manifest.spec.primaries && status.lastReplicas == active.manifest.spec.replicas
            else status.lastPrimaries == latest.status.lastPrimaries && status.lastReplicas == latest.status.lastReplicas
    ensures status == AggregatedStatus(latest, active, observed, now)
  {
    hide Conditions.Aggregate, Conditions.ComputePhase, Conditions.Holds, Conditions.Find;
    Conditions.PhaseAfterAggregate(latest.status.conditions, active, now);
    var conditions := Conditions.AggregateConditions(latest.status.conditions, active, now);
    status := latest.status.(
      replicas := latest.spec.primaries, status := active.status.status, detail := active.status.detail,
      conditions := conditions, phase := Conditions.ComputePhase(conditions), updatedAt := now, observed := observed);
    if !latest.spec.ephemeral && active.status.phase.ConfigPhaseApplied? && active.manifest.spec.primaries > 0 {
      status := status.(lastPrimaries := active.manifest.spec.primaries, lastReplicas := active.manifest.spec.replicas);
    }
  }

  /** The status updateStatusScaledToZero assembles on the reconcile's own copy of the Redkey. */
  method BuildZeroStatus(snapshot: Redkey, now: int) returns (status: Status)
    ensures status.replicas == 0 && status.phase == PhaseReady && status.status == NoStatus && status.detail == ""
    ensures status.observed == snapshot.generation && status.updatedAt == now
    ensures status.lastPrimaries == snapshot.status.lastPrimaries && status.lastReplicas == snapshot.status.lastReplicas
    ensures Conditions.Holds(status.conditions, KindReady, ConditionTrue, "ScaledToZero", "")
    ensures Conditions.Holds(status.conditions, KindConfigPending, ConditionFalse, "ScaledToZero", "")
    ensures Conditions.Holds(status.conditions, KindError, ConditionFalse, "ScaledToZero", "")
    ensures status == ZeroedStatus(snapshot, now)
  {
    hide Conditions.Holds, Conditions.Find;
    Conditions.PhaseAfterZero(snapshot.status.conditions, now);
    hide Conditions.Set;
    var conditions := Conditions.Set(snapshot.status.conditions, Condition(KindReady, ConditionTrue, "ScaledToZero", "", 0), now);
    conditions := Conditions.Set(conditions, Condition(KindConfigPending, ConditionFalse, "ScaledToZero", "", 0), now);
    conditions := Conditions.Set(conditions, Condition(KindError, ConditionFalse, "ScaledToZero", "", 0), now);
    Conditions.SetThree(snapshot.status.conditions, Conditions.ZERO_UPDATES, now);
    status := snapshot.status.(
      replicas := 0, phase := PhaseReady, status := NoStatus, detail := "", updatedAt := now,
      observed := snapshot.generation, conditions := conditions);
  }

  /** Robin's ServiceAccount, Role, RoleBinding and Deployment all exist. */
  predicate AllThere(robin: set<RobinObject>) {
    forall i | 0 <= i < |ENSURE_ORDER| :: ENSURE_ORDER[i] in robin
  }

  /** The status of a cluster scaled to zero, written over the version the reconcile had read. */
  ghost predicate ZeroStored(log: seq<Redkey>, snapshot: Redkey) {
    |log| >= 2 && log[|log| - 2] == snapshot && Theorems.Zeroed(snapshot, log[|log| - 1])
  }

  /** The aggregate of a config, written over the version that was live. */
  ghost predicate AggregateStored(log: seq<Redkey>, active: Config, observed: int) {
    |log| >= 2 && Theorems.Mirrored(log[|log| - 2], active, observed, log[|log| - 1])
  }

  /** How a reconcile at zero ended. */
  datatype ZeroOutcome = NothingThere | ZeroQueued | TornDown | Waiting

  class Operator {
    const cluster: string
    // The API server's objects, and the operator's position in the Redkey's versions.
    var log: seq<Redkey>
    var configs: map<nat, Config>
    var robin: set<RobinObject>
    var seen: nat
    // The run of the step system that this execution is.
    ghost var pc: Pc
    ghost var history: seq<Spec>
    ghost var source: int
    ghost const start: State
    ghost var trace: seq<Label>

    ghost function Now(): State
      reads this
    {
      State(cluster, log, configs, robin, seen, pc, history, source)
    }

    /** What has happened so far is a run of the step system, and it has led here. */
    ghost predicate Valid()
      reads this
    {
      && Inv(start) && CanRun(start, trace) && After(start, trace) == Now()
      && |log| > 0 && seen < |log|
    }

    /** A freshly created Redkey. */
    constructor (cluster: string, spec: Spec)
      requires Admission.StaticRules(spec)
      ensures Valid() && pc == Idle && Now() == Initial(cluster, spec)
    {
      this.cluster := cluster;
      log, configs, robin, seen := [Redkey(1, spec, NEW_STATUS)], map[], {}, 0;
      pc, history, source := Idle, [spec], 0;
      start, trace := Initial(cluster, spec), [];
    }

    /** Book a step already made. */
    ghost method Book(before: State, l: Label)
      requires Inv(start) && CanRun(start, trace) && After(start, trace) == before && Enabled(before, l) && Now() == Do(before, l)
      modifies this`trace
      ensures Valid() && trace == old(trace) + [l]
    {
      hide Inv, CanRun, After, Do;
      RunExtend(start, trace, l);
      trace := trace + [l];
      BookedIsSeen(before, l);
    }

    static lemma BookedIsSeen(before: State, l: Label)
      requires Enabled(before, l)
      ensures |Do(before, l).log| > 0 && Do(before, l).seen < |Do(before, l).log|
    {
      hide AggregatedStatus, ZeroedStatus, ListConfigs, NewConfig, SelectActive, Admission.StatusUpdateAdmitted, NeedsNewConfig;
    }

    /** What has happened is a run from a good state, so the invariant holds here. */
    lemma Reached()
      requires Valid()
      ensures Inv(Now())
    {
      hide Inv, CanRun, After;
      RunKeeps(start, trace);
    }

    static lemma ZeroingIsEmpty(s: State)
      requires Inv(s) && s.pc.Zeroing?
      ensures s.configs == map[]
    {
    }

    /** A list about to be cleaned is the store, and ends with the snapshot's config. */
    static lemma CleaningIsCurrent(s: State, list: seq<Config>)
      requires Inv(s) && s.pc == Cleaning(list, 0)
      ensures list != [] && Keys(list) == s.configs.Keys && Gen(list[|list| - 1]) == Snap(s).generation
    {
      hide QueueInv, ObservedInv, RecordInv, SourceInv, PhaseInv, HistoryInv, Gen;
      assert list[0..] == list;
      LastIsTop(list, s.configs);
      SameGen(list[|list| - 1], Top(s.configs));
    }

    static lemma ListsStore(s: State)
      requires Inv(s)
      ensures var list := ListConfigs(s.configs, s.cluster);
              && (list == [] <==> s.configs == map[])
              && (list != [] ==> list[|list| - 1] == Top(s.configs) && Sorted(list) && Keys(list) == s.configs.Keys)
      ensures s.pc.Relisting? ==> s.configs != map[]
    {
      hide ListConfigs, ObservedInv, RecordInv, SourceInv, PhaseInv, HistoryInv, Sorted, Keys;
      StoreIsKeyed(s.configs, s.cluster, Snap(s).generation, s.history);
      ListMirrors(s.configs, s.cluster);
    }

    /** The run goes on within one reconcile: no crash, no new snapshot. */
    twostate predicate Continues()
      reads this
    {
      old(trace) <= trace && forall i | |old(trace)| <= i < |trace| :: !trace[i].Crash? && !trace[i].Snapshot?
    }

    /** What the environment cannot touch. */
    twostate predicate OnlyEnvironment()
      reads this
    {
      && pc == old(pc) && seen == old(seen) && robin == old(robin)
      && old(log) <= log && Restatused(old(configs), configs)
      && Continues()
    }

    /** Any number of user updates, other writes to the Redkey, and Robin status writes. */
    method Interfere()
      requires Valid()
      modifies this
      ensures Valid() && OnlyEnvironment()
    {
      hide Inv, CanRun, After, Admission.SpecUpdateAdmitted;
      var n: nat := *;
      while n > 0
        invariant Valid() && OnlyEnvironment()
      {
        ghost var before := Now();
        var live := log[|log| - 1];
        var who: nat := *;
        if who == 0 {
          var spec: Spec := *;
          if spec != live.spec && live.generation < MAX_INT64 && Admission.SpecUpdateAdmitted(live, spec) {
            log := log + [Redkey(live.generation + 1, spec, live.status)];
            history := history + [spec];
            Book(before, UserUpdate(spec));
          }
        } else if who == 1 {
          log := log + [live];
          Book(before, Touch);
        } else {
          var q: nat := *;
          var status: ConfigStatus := *;
          if q in configs {
            configs := configs[q := configs[q].(status := status)];
            Book(before, RobinWrite(q, status));
          }
        }
        n := n - 1;
      }
    }

    /** ensureRBAC and ensureRobinDeployment: create what is missing, one object at a time. */
    method EnsureRobin(ghost next: Next) returns (ok: bool)
      requires Valid() && pc == Ensuring(ENSURE_ORDER, next)
      modifies this
      ensures Valid() && Continues() && seen == old(seen) && old(log) <= log
      ensures ok ==> pc == (match next case ThenList => Listing case ThenCreate(h) => Creating(h) case ThenFetch(l) => Fetching(l))
      ensures Restatused(old(configs), configs) && old(robin) <= robin && (ok ==> AllThere(robin))
      ensures Deployment in robin - old(robin) ==> {ServiceAccount, Role, RoleBinding} <= robin
      ensures RoleBinding in robin - old(robin) ==> {ServiceAccount, Role} <= robin
    {
      hide Inv, CanRun, After, ListConfigs, NeedsNewConfig, NewConfig, SelectActive, AggregatedStatus, ZeroedStatus,
           Admission.SpecUpdateAdmitted, Admission.StatusUpdateAdmitted;
      var i := 0;
      while i < |ENSURE_ORDER|
        invariant 0 <= i <= |ENSURE_ORDER|
        invariant Valid() && Continues() && seen == old(seen) && old(log) <= log
        invariant Restatused(old(configs), configs) && old(robin) <= robin && forall j | 0 <= j < i :: ENSURE_ORDER[j] in robin
        invariant robin <= old(robin) + {ServiceAccount, Role, RoleBinding, Deployment}
        invariant Deployment in robin - old(robin) ==> i == 4
        invariant RoleBinding in robin - old(robin) ==> i >= 3
        invariant i >= 1 ==> ServiceAccount in robin
        invariant i >= 2 ==> Role in robin
        invariant i >= 3 ==> RoleBinding in robin
        invariant i < |ENSURE_ORDER| ==> pc == Ensuring(ENSURE_ORDER[i..], next)
        invariant i == |ENSURE_ORDER| ==>
                    pc == (match next case ThenList => Listing case ThenCreate(h) => Creating(h) case ThenFetch(l) => Fetching(l))
      {
        ok := EnsureObject(i, next);
        if !ok { return; }
        i := i + 1;
      }
      ok := true;
    }

    /** Create one of Robin's objects if it is missing. */
    method EnsureObject(i: nat, ghost next: Next) returns (ok: bool)
      requires Valid() && i < |ENSURE_ORDER| && pc == Ensuring(ENSURE_ORDER[i..], next)
      modifies this
      ensures Valid() && Continues() && seen == old(seen) && old(log) <= log
      ensures Restatused(old(configs), configs) && robin == if ok then old(robin) + {ENSURE_ORDER[i]} else old(robin)
      ensures ok ==> pc == if i + 1 < |ENSURE_ORDER| then Ensuring(ENSURE_ORDER[i + 1..], next)
                           else match next case ThenList => Listing case ThenCreate(h) => Creating(h) case ThenFetch(l) => Fetching(l)
    {
      hide Inv, CanRun, After, ListConfigs, NeedsNewConfig, NewConfig, SelectActive, AggregatedStatus, ZeroedStatus,
           Admission.SpecUpdateAdmitted, Admission.StatusUpdateAdmitted, Same;
      Interfere();
      var fault: bool := *;
      if fault { return false; }
      ghost var before := Now();
      if ENSURE_ORDER[i] !in robin {
        robin := robin + {ENSURE_ORDER[i]};
      }
      assert ENSURE_ORDER[i..][1..] == ENSURE_ORDER[i + 1..];
      pc := if i + 1 < |ENSURE_ORDER| then Ensuring(ENSURE_ORDER[i + 1..], next)
            else match next case ThenList => Listing case ThenCreate(h) => Creating(h) case ThenFetch(l) => Fetching(l);
      assert robin == before.robin + {ENSURE_ORDER[i]};
      Book(before, Ensure);
      ok := true;
    }

    /** createNewConfig: an existing name is a no-op. */
    method CreateNewConfig(snapshot: Redkey, highest: Option<Config>) returns (ok: bool)
      requires Valid() && pc == Creating(highest) && snapshot == log[seen]
      modifies this
      ensures Valid() && Continues() && seen == old(seen) && old(log) <= log
      ensures ok ==> pc == (if snapshot.spec.primaries == 0 then Idle else Relisting)
      ensures robin == old(robin) && forall q | q in old(configs) :: q in configs && Same(configs[q], old(configs)[q])
      ensures !ok ==> configs.Keys == old(configs).Keys
      ensures ok ==> var n := NextSequence(highest);
                     && configs.Keys == old(configs).Keys + {n}
                     && (n !in old(configs) ==> configs[n] == NewConfig(cluster, snapshot.generation, snapshot.spec, highest))
    {
      hide Inv, CanRun, After, NewConfig, ListConfigs, NeedsNewConfig, SelectActive, AggregatedStatus, ZeroedStatus,
           Admission.SpecUpdateAdmitted, Admission.StatusUpdateAdmitted;
      var config := BuildConfig(cluster, snapshot, highest);
      Interfere();
      var fault: bool := *;
      if fault { return false; }
      ghost var before := Now();
      if config.manifest.sequence !in configs {
        configs := configs[config.manifest.sequence := config];
      }
      pc := if snapshot.spec.primaries == 0 then Idle else Relisting;
      Book(before, Create);
      ok := true;
    }

    /** cleanupSupersededConfigs: delete everything older than the newest Applied config read. On an
        error the returned list starts at the config that could not be deleted. */
    method CleanupSupersededConfigs(list: seq<Config>) returns (kept: seq<Config>, ok: bool)
      requires Valid() && list != [] && pc == Cleaning(list, 0)
      modifies this
      ensures Valid() && Continues() && seen == old(seen) && old(log) <= log
      ensures ok ==> kept == list[CleanupCount(list)..] && pc == Fetching(kept)
      ensures !ok ==> exists i | 0 <= i < CleanupCount(list) :: kept == list[i..] && pc == Cleaning(list, i)
    {
      hide Inv, CanRun, After, ListConfigs, NeedsNewConfig, NewConfig, SelectActive, AggregatedStatus, ZeroedStatus,
           Admission.SpecUpdateAdmitted, Admission.StatusUpdateAdmitted;
      var lastApplied := -1;
      if |list| > 1 {
        lastApplied := FindLastApplied(list);
      }
      var j := 0;
      while j < lastApplied
        invariant 0 <= j <= CleanupCount(list)
        invariant CleanupCount(list) == if lastApplied <= 0 then 0 else lastApplied
        invariant Valid() && Continues() && seen == old(seen) && old(log) <= log
        invariant pc == Cleaning(list, j)
      {
        ok := DeleteSuperseded(list, j);
        if !ok { return list[j..], false; }
        j := j + 1;
      }
      ghost var before := Now();
      kept := if lastApplied <= 0 then list else list[lastApplied..];
      assert kept == list[CleanupCount(list)..];
      pc := Fetching(kept);
      Book(before, Clean);
      ok := true;
    }

    /** One delete of the clean-up; a config that is already gone is skipped. */
    method DeleteSuperseded(list: seq<Config>, j: nat) returns (ok: bool)
      requires Valid() && j < |list| && j < CleanupCount(list) && pc == Cleaning(list, j)
      modifies this
      ensures Valid() && Continues() && seen == old(seen) && old(log) <= log
      ensures pc == Cleaning(list, if ok then j + 1 else j)
    {
      hide Inv, CanRun, After, ListConfigs, NeedsNewConfig, NewConfig, SelectActive, AggregatedStatus, ZeroedStatus,
           Admission.SpecUpdateAdmitted, Admission.StatusUpdateAdmitted;
      Interfere();
      var fault: bool := *;
      if fault { return false; }
      ghost var before := Now();
      if list[j].manifest.sequence in configs {
        configs := configs - {list[j].manifest.sequence};
      }
      pc := Cleaning(list, j + 1);
      assert configs == before.configs - {list[j].manifest.sequence};
      Book(before, Clean);
      ok := true;
    }

    /** The Get inside aggregateStatus: any stored version, however old. */
    method FetchLatest(list: seq<Config>) returns (k: nat, ok: bool)
      requires Valid() && list != [] && pc == Fetching(list)
      modifies this
      ensures Valid() && Continues() && seen == old(seen) && old(log) <= log
      ensures ok ==> k < |log| && pc == Storing(list, k)
      ensures Restatused(old(configs), configs) && robin == old(robin)
    {
      hide Inv, CanRun, After, ListConfigs, NeedsNewConfig, NewConfig, SelectActive, AggregatedStatus, ZeroedStatus,
           Admission.SpecUpdateAdmitted, Admission.StatusUpdateAdmitted;
      Interfere();
      var fault: bool := *;
      if fault { return 0, false; }
      k := *;
      if k >= |log| { k := |log| - 1; }
      ghost var before := Now();
      pc := Storing(list, k);
      Book(before, Fetch(k));
      ok := true;
    }

    /** The status update inside aggregateStatus. */
    method StoreStatus(ghost list: seq<Config>, k: nat, latest: Redkey, active: Config, status: Status, ghost observed: int, ghost now: int)
      returns (answer: Answer)
      requires Valid() && list != [] && pc == Storing(list, k) && k < |log| && latest == log[k] && active == SelectActive(list)
      requires observed == log[seen].generation && status == AggregatedStatus(latest, active, observed, now)
      modifies this
      ensures Valid() && Continues() && seen == old(seen) && old(log) <= log
      ensures answer.Stored? ==> pc == Idle && |log| >= 2 && log[|log| - 2] == latest && log[|log| - 1] == latest.(status := status)
      ensures answer.Conflict? ==> pc == Fetching(list)
      ensures Restatused(old(configs), configs) && robin == old(robin)
    {
      hide Inv, CanRun, After, SelectActive, AggregatedStatus, Admission.StatusUpdateAdmitted, Gen, Records;
      Interfere();
      var fault: bool := *;
      if fault { return Refused; }
      ghost var before := Now();
      if k != |log| - 1 {
        pc := Fetching(list);
        answer := Conflict;
      } else if !Admission.StatusUpdateAdmitted(latest, status) {
        pc := Idle;
        answer := Refused;
      } else {
        log := log + [latest.(status := status)];
        source := if Records(latest, active) then Gen(active) else source;
        pc := Idle;
        answer := Stored;
        assert log[k] == latest;
      }
      Book(before, Store(now));
    }

    /** aggregateStatus: mirror the active config into the live Redkey, refreshing on conflict. The
        observed generation is the snapshot's, whatever the live one is by then. */
    method AggregateStatus(snapshot: Redkey, list: seq<Config>) returns (ok: bool)
      requires Valid() && list != [] && pc == Fetching(list) && snapshot == log[seen]
      modifies this
      ensures Valid() && Continues() && seen == old(seen) && old(log) <= log
      ensures ok ==> pc == Idle && AggregateStored(log, SelectActive(list), snapshot.generation)
      ensures Restatused(old(configs), configs) && robin == old(robin)
    {
      hide Inv, CanRun, After, SelectActive, AggregatedStatus, Theorems.Mirrored;
      var active := SelectActive(list);
      var attempt := 0;
      while attempt < RETRY_STEPS
        invariant Valid() && Continues() && seen == old(seen) && old(log) <= log
        invariant pc == Fetching(list) && Restatused(old(configs), configs) && robin == old(robin)
      {
        var k, fetched := FetchLatest(list);
        if !fetched { return false; }
        var latest, now: int := log[k], *;
        var status := BuildStatus(latest, active, snapshot.generation, now);
        var answer := StoreStatus(list, k, latest, active, status, snapshot.generation, now);
        Theorems.AggregateMirrors(latest, active, snapshot.generation, now);
        if !answer.Conflict? { return answer.Stored?; }
        attempt := attempt + 1;
      }
      ok := false;
    }

    /** deleteRobinDeployment and deleteRBAC: Deployment, RoleBinding, Role, ServiceAccount; what is
        already gone is skipped. */
    method DeleteRobin() returns (ok: bool)
      requires Valid() && pc == Tearing(TEARDOWN_ORDER)
      modifies this
      ensures Valid() && Continues() && seen == old(seen) && old(log) <= log
      ensures ok ==> pc == WipeListing && robin == {}
      ensures Restatused(old(configs), configs) && robin <= old(robin)
      ensures RoleBinding in old(robin) - robin ==> Deployment !in robin
      ensures Role in old(robin) - robin ==> RoleBinding !in robin
      ensures ServiceAccount in old(robin) - robin ==> Role !in robin
    {
      hide Inv, CanRun, After, ListConfigs, NeedsNewConfig, NewConfig, SelectActive, AggregatedStatus, ZeroedStatus,
           Admission.SpecUpdateAdmitted, Admission.StatusUpdateAdmitted;
      var i := 0;
      while i < |TEARDOWN_ORDER|
        invariant 0 <= i <= |TEARDOWN_ORDER|
        invariant Valid() && Continues() && seen == old(seen) && old(log) <= log
        invariant pc == if i < |TEARDOWN_ORDER| then Tearing(TEARDOWN_ORDER[i..]) else WipeListing
        invariant Restatused(old(configs), configs) && robin <= old(robin) && forall j | 0 <= j < i :: TEARDOWN_ORDER[j] !in robin
        invariant (RoleBinding in old(robin) - robin ==> i >= 2) && (Role in old(robin) - robin ==> i >= 3)
        invariant ServiceAccount in old(robin) - robin ==> i == 4
        invariant (i >= 1 ==> Deployment !in robin) && (i >= 2 ==> RoleBinding !in robin) && (i >= 3 ==> Role !in robin)
      {
        ok := DeleteObject(i);
        if !ok { return; }
        i := i + 1;
      }
      NothingLeft(robin);
      ok := true;
    }

    /** Delete one of Robin's objects unless it is gone already. */
    method DeleteObject(i: nat) returns (ok: bool)
      requires Valid() && i < |TEARDOWN_ORDER| && pc == Tearing(TEARDOWN_ORDER[i..])
      modifies this
      ensures Valid() && Continues() && seen == old(seen) && old(log) <= log
      ensures Restatused(old(configs), configs) && robin == if ok then old(robin) - {TEARDOWN_ORDER[i]} else old(robin)
      ensures ok ==> pc == if i + 1 < |TEARDOWN_ORDER| then Tearing(TEARDOWN_ORDER[i + 1..]) else WipeListing
    {
      hide Inv, CanRun, After, ListConfigs, NeedsNewConfig, NewConfig, SelectActive, AggregatedStatus, ZeroedStatus,
           Admission.SpecUpdateAdmitted, Admission.StatusUpdateAdmitted, Same;
      Interfere();
      var fault: bool := *;
      if fault { return false; }
      ghost var before := Now();
      if TEARDOWN_ORDER[i] in robin {
        robin := robin - {TEARDOWN_ORDER[i]};
      }
      assert TEARDOWN_ORDER[i..][1..] == TEARDOWN_ORDER[i + 1..];
      pc := if i + 1 < |TEARDOWN_ORDER| then Tearing(TEARDOWN_ORDER[i + 1..]) else WipeListing;
      assert robin == before.robin - {TEARDOWN_ORDER[i]};
      Book(before, Tear);
      ok := true;
    }

    static lemma NothingLeft(robin: set<RobinObject>)
      requires forall j | 0 <= j < |TEARDOWN_ORDER| :: TEARDOWN_ORDER[j] !in robin
      ensures robin == {}
    {
      forall o: RobinObject ensures o !in robin {
        match o
        case Deployment => assert TEARDOWN_ORDER[0] !in robin;
        case RoleBinding => assert TEARDOWN_ORDER[1] !in robin;
        case Role => assert TEARDOWN_ORDER[2] !in robin;
        case ServiceAccount => assert TEARDOWN_ORDER[3] !in robin;
      }
    }

    /** deleteAllConfigs: list afresh and delete in whatever order the list has. */
    method DeleteAllConfigs() returns (ok: bool)
      requires Valid() && pc == WipeListing
      modifies this
      ensures Valid() && Continues() && seen == old(seen) && old(log) <= log
      ensures robin == old(robin) && configs.Keys <= old(configs).Keys && (ok ==> pc == Zeroing && configs == map[])
      ensures forall q | q in old(configs) && !Labelled(old(configs)[q], cluster) :: q in configs
    {
      hide Inv, CanRun, After, ListConfigs, NeedsNewConfig, NewConfig, SelectActive, AggregatedStatus, ZeroedStatus,
           Admission.SpecUpdateAdmitted, Admission.StatusUpdateAdmitted;
      Interfere();
      var fault: bool := *;
      if fault { return false; }
      ghost var before := Now();
      var left := set q | q in configs && Labelled(configs[q], cluster);
      assert left == ListedSet(before);
      pc := if left == {} then Zeroing else Wiping(left);
      Book(before, WipeList);
      ok := DeleteConfigs(left);
      Reached();
      if ok { ZeroingIsEmpty(Now()); }
    }

    method DeleteConfigs(configSet: set<nat>) returns (ok: bool)
      requires Valid() && pc == if configSet == {} then Zeroing else Wiping(configSet)
      modifies this
      ensures Valid() && Continues() && seen == old(seen) && old(log) <= log
      ensures robin == old(robin) && configs.Keys <= old(configs).Keys && (ok ==> pc == Zeroing)
      ensures forall q | q in old(configs) && q !in configSet :: q in configs
    {
      hide Inv, CanRun, After, ListConfigs, NeedsNewConfig, NewConfig, SelectActive, AggregatedStatus, ZeroedStatus,
           Admission.SpecUpdateAdmitted, Admission.StatusUpdateAdmitted;
      var left := configSet;
      while left != {}
        invariant Valid() && Continues() && seen == old(seen) && old(log) <= log
        invariant robin == old(robin) && configs.Keys <= old(configs).Keys && left <= configSet
        invariant forall q | q in old(configs) && q !in configSet :: q in configs
        invariant pc == if left == {} then Zeroing else Wiping(left)
        decreases left
      {
        var q :| q in left;
        ok := DeleteConfig(left, q);
        if !ok { return; }
        left := left - {q};
      }
      ok := true;
    }

    /** One delete; a config that is already gone is skipped. */
    method DeleteConfig(ghost left: set<nat>, q: nat) returns (ok: bool)
      requires Valid() && pc == Wiping(left) && q in left
      modifies this
      ensures Valid() && Continues() && seen == old(seen) && old(log) <= log
      ensures robin == old(robin) && old(configs).Keys - {q} <= configs.Keys <= old(configs).Keys
      ensures ok ==> pc == if left == {q} then Zeroing else Wiping(left - {q})
    {
      hide Inv, CanRun, After, ListConfigs, NeedsNewConfig, NewConfig, SelectActive, AggregatedStatus, ZeroedStatus,
           Admission.SpecUpdateAdmitted, Admission.StatusUpdateAdmitted;
      Interfere();
      var fault: bool := *;
      if fault { return false; }
      ghost var before := Now();
      if q in configs {
        configs := configs - {q};
      }
      pc := if left - {q} == {} then Zeroing else Wiping(left - {q});
      assert configs == before.configs - {q};
      Book(before, Wipe(q));
      assert left - {q} == {} <==> left == {q};
      ok := true;
    }

    /** updateStatusScaledToZero: no refresh, so anything newer than the snapshot is a conflict. */
    method UpdateStatusScaledToZero(snapshot: Redkey) returns (ok: bool)
      requires Valid() && pc == Zeroing && snapshot == log[seen]
      modifies this
      ensures Valid() && Continues() && seen == old(seen) && old(log) <= log
      ensures ok ==> pc == Idle && ZeroStored(log, snapshot) && seen == |log| - 2
      ensures Restatused(old(configs), configs) && robin == old(robin)
    {
      hide Inv, CanRun, After, ZeroedStatus, Admission.StatusUpdateAdmitted, Theorems.Zeroed;
      var now: int := *;
      Theorems.ZeroedIsZero(snapshot, now);
      var status := BuildZeroStatus(snapshot, now);
      Interfere();
      var fault: bool := *;
      if fault { return false; }
      ghost var before := Now();
      ok := seen == |log| - 1 && Admission.StatusUpdateAdmitted(snapshot, status);
      if ok {
        log := log + [snapshot.(status := status)];
      }
      pc := Idle;
      Book(before, Zero(now));
    }

    /** Case B: keep Robin running and queue a zero config. */
    method QueueZeroConfig(snapshot: Redkey, latest: Config) returns (ok: bool)
      requires Valid() && pc == Ensuring(ENSURE_ORDER, ThenCreate(Some(latest))) && snapshot == log[seen] && snapshot.spec.primaries == 0
      modifies this
      ensures Valid() && Continues()
      ensures ok ==> pc == Idle && AllThere(robin) && ZeroOnTop(configs, snapshot) && old(configs).Keys < configs.Keys
    {
      hide Inv, CanRun, After, AllThere, NewConfig, ZeroOnTop, Same;
      ok := EnsureRobin(ThenCreate(Some(latest)));
      if ok {
        Reached();
        ghost var before := Now();
        ok := CreateNewConfig(snapshot, Some(latest));
        if ok { CreateTops(before, configs); }
      }
    }

    static predicate ZeroOnTop(configs: map<nat, Config>, snapshot: Redkey) {
      configs != map[] && Top(configs).manifest.spec == ConfigSpecOf(snapshot.spec) && Gen(Top(configs)) == snapshot.generation
    }

    static lemma CreateTops(s: State, configs: map<nat, Config>)
      requires Inv(s) && s.pc.Creating?
      requires var n := NextSequence(s.pc.highest);
               && configs.Keys == s.configs.Keys + {n}
               && (n !in s.configs ==> configs[n] == NewConfig(s.cluster, Snap(s).generation, Snap(s).spec, s.pc.highest))
      ensures ZeroOnTop(configs, Snap(s)) && s.configs.Keys < configs.Keys
    {
      hide QueueInv, ObservedInv, RecordInv, SourceInv, PhaseInv, HistoryInv, HighestInv, NewConfig, Gen, Genuine;
      var n := NextSequence(s.pc.highest);
      CreateAddsTop(s);
      NewConfigFields(s.cluster, Snap(s).generation, Snap(s).spec, s.pc.highest);
      assert n in configs.Keys;
      MaxIs(configs.Keys, n);
    }

    /** Case C: Robin is done, remove the operator's own objects. */
    method TearDown(snapshot: Redkey) returns (ok: bool)
      requires Valid() && pc == Tearing(TEARDOWN_ORDER) && snapshot == log[seen]
      modifies this
      ensures Valid() && Continues()
      ensures ok ==> pc == Idle && configs == map[] && robin == {} && ZeroStored(log, snapshot)
    {
      hide Inv, CanRun, After, ZeroedStatus, ZeroStored;
      ok := DeleteRobin();
      if ok { ok := DeleteAllConfigs(); }
      if ok { ok := UpdateStatusScaledToZero(snapshot); }
    }

    /** Case D: Robin is working on it. */
    method AwaitRobin(snapshot: Redkey, list: seq<Config>) returns (ok: bool)
      requires Valid() && list != [] && pc == Ensuring(ENSURE_ORDER, ThenFetch(list)) && snapshot == log[seen]
      modifies this
      ensures Valid() && Continues() && Restatused(old(configs), configs)
      ensures ok ==> pc == Idle && AllThere(robin) && AggregateStored(log, SelectActive(list), snapshot.generation)
    {
      hide Inv, CanRun, After, AggregatedStatus, SelectActive, AllThere, AggregateStored;
      ok := EnsureRobin(ThenFetch(list));
      if ok { ok := AggregateStatus(snapshot, list); }
    }

    /** What case of a reconcile at zero a store calls for, and what a successful one has achieved. */
    twostate predicate Achieved(outcome: ZeroOutcome, snapshot: Redkey)
      reads this
    {
      match outcome
      case NothingThere => old(configs) == map[] && configs == map[] && ZeroStored(log, snapshot)
      case ZeroQueued =>
        && old(configs) != map[] && Top(old(configs)).manifest.spec.primaries != 0
        && AllThere(robin) && ZeroOnTop(configs, snapshot) && old(configs).Keys < configs.Keys
      case TornDown =>
        && old(configs) != map[] && Top(old(configs)).manifest.spec.primaries == 0
        && configs == map[] && robin == {} && ZeroStored(log, snapshot)
      case Waiting =>
        && old(configs) != map[] && Top(old(configs)).manifest.spec.primaries == 0
        && AllThere(robin) && configs.Keys == old(configs).Keys
        && exists list: seq<Config> | list != [] && Sorted(list) && Keys(list) == configs.Keys ::
             AggregateStored(log, SelectActive(list), snapshot.generation)
    }

    /** The list, and the case it calls for. */
    method ListAtZero(snapshot: Redkey) returns (list: seq<Config>, ok: bool)
      requires Valid() && pc == Listing && snapshot == log[seen] && snapshot.spec.primaries == 0
      modifies this
      ensures Valid() && Continues() && snapshot == log[seen] && Restatused(old(configs), configs)
      ensures ok ==> (list == [] <==> configs == map[])
      ensures ok && list != [] ==> list[|list| - 1] == Top(configs) && Sorted(list) && Keys(list) == configs.Keys
      ensures ok ==> pc == if list == [] then Zeroing
                           else if list[|list| - 1].manifest.spec.primaries != 0
                           then Ensuring(ENSURE_ORDER, ThenCreate(Some(list[|list| - 1])))
                           else if list[|list| - 1].status.phase.ConfigPhaseApplied? then Tearing(TEARDOWN_ORDER)
                           else Ensuring(ENSURE_ORDER, ThenFetch(list))
    {
      hide Inv, CanRun, After, ListConfigs, NeedsNewConfig, Sorted, Keys;
      Interfere();
      var fault: bool := *;
      if fault { return [], false; }
      Reached();
      ListsStore(Now());
      ghost var before := Now();
      list := ListConfigs(configs, cluster);
      pc := if list == [] then Zeroing
            else if list[|list| - 1].manifest.spec.primaries != 0
            then Ensuring(ENSURE_ORDER, ThenCreate(Some(list[|list| - 1])))
            else if list[|list| - 1].status.phase.ConfigPhaseApplied? then Tearing(TEARDOWN_ORDER)
            else Ensuring(ENSURE_ORDER, ThenFetch(list));
      Book(before, List);
      ok := true;
    }

    /** reconcileScaleToZero, cases A to D. */
    method ReconcileScaleToZero(snapshot: Redkey) returns (ok: bool, ghost outcome: ZeroOutcome)
      requires Valid() && pc == Listing && snapshot == log[seen] && snapshot.spec.primaries == 0
      modifies this
      ensures Valid() && Continues()
      ensures ok ==> pc == Idle && Achieved(outcome, snapshot)
    {
      hide Inv, CanRun, After, SelectActive, AllThere, ZeroStored, AggregateStored, ZeroOnTop, Restatused, Sorted, Keys;
      outcome := NothingThere;
      var list;
      list, ok := ListAtZero(snapshot);
      if !ok { return; }
      SameTops(old(configs), configs);
      label listed:
      if |list| == 0 {
        ok := UpdateStatusScaledToZero(snapshot);
        SameTops(old@listed(configs), configs);
        return;
      }
      var latest := list[|list| - 1];
      if latest.manifest.spec.primaries != 0 {
        outcome := ZeroQueued;
        ok := QueueZeroConfig(snapshot, latest);
      } else if latest.status.phase.ConfigPhaseApplied? {
        outcome := TornDown;
        ok := TearDown(snapshot);
      } else {
        outcome := Waiting;
        ok := AwaitRobin(snapshot, list);
        SameTops(old@listed(configs), configs);
      }
    }

    static lemma SameTops(a: map<nat, Config>, b: map<nat, Config>)
      requires Restatused(a, b)
      ensures a.Keys == b.Keys && (a == map[] <==> b == map[])
      ensures a != map[] ==> Top(a).manifest == Top(b).manifest
    {
      if a != map[] { RestatusedTop(a, b); }
    }

    /** List the configs, create one if the generation needs it, and list again: the list is the store and
        ends with the snapshot's config. */
    method PrepareConfigs(snapshot: Redkey) returns (list: seq<Config>, ok: bool)
      requires Valid() && pc == Listing && snapshot == log[seen] && snapshot.spec.primaries != 0
      modifies this
      ensures Valid() && Continues() && seen == old(seen) && old(log) <= log
      ensures ok ==> pc == Cleaning(list, 0) && list != [] && Keys(list) == configs.Keys
      ensures ok ==> Gen(list[|list| - 1]) == snapshot.generation
    {
      hide Gen, Keys, Inv, CanRun, After;
      list, ok := ListOrCreate(snapshot);
      if ok {
        Reached();
        CleaningIsCurrent(Now(), list);
      }
    }

    method ListOrCreate(snapshot: Redkey) returns (list: seq<Config>, ok: bool)
      requires Valid() && pc == Listing && snapshot == log[seen] && snapshot.spec.primaries != 0
      modifies this
      ensures Valid() && Continues() && seen == old(seen) && old(log) <= log
      ensures ok ==> pc == Cleaning(list, 0)
    {
      hide Inv, CanRun, After, NeedsNewConfig, NewConfig, Restatused;
      list, ok := ListFirst(snapshot);
      if !ok { return; }
      var highest := if |list| > 0 then Some(list[|list| - 1]) else None;
      if |list| == 0 || NeedsNewConfig(snapshot.generation, snapshot.status.observed, highest) {
        ok := CreateNewConfig(snapshot, highest);
        if ok { list, ok := ListAgain(); }
      }
    }

    method ListFirst(snapshot: Redkey) returns (list: seq<Config>, ok: bool)
      requires Valid() && pc == Listing && snapshot == log[seen] && snapshot.spec.primaries != 0
      modifies this
      ensures Valid() && Continues() && seen == old(seen) && old(log) <= log
      ensures ok ==> var highest := if |list| > 0 then Some(list[|list| - 1]) else None;
                     pc == if |list| == 0 || NeedsNewConfig(snapshot.generation, snapshot.status.observed, highest)
                           then Creating(highest) else Cleaning(list, 0)
    {
      hide Inv, CanRun, After, ListConfigs, NeedsNewConfig, Restatused;
      Interfere();
      var fault: bool := *;
      if fault { return [], false; }
      ghost var before := Now();
      list := ListConfigs(configs, cluster);
      ghost var highest := if |list| > 0 then Some(list[|list| - 1]) else None;
      pc := if |list| == 0 || NeedsNewConfig(snapshot.generation, snapshot.status.observed, highest)
            then Creating(highest) else Cleaning(list, 0);
      Book(before, List);
      ok := true;
    }

    method ListAgain() returns (list: seq<Config>, ok: bool)
      requires Valid() && pc == Relisting
      modifies this
      ensures Valid() && Continues() && seen == old(seen) && old(log) <= log
      ensures ok ==> pc == Cleaning(list, 0)
    {
      hide Inv, CanRun, After, ListConfigs;
      Interfere();
      var fault: bool := *;
      if fault { return [], false; }
      Reached();
      ListsStore(Now());
      ghost var before := Now();
      list := ListConfigs(configs, cluster);
      pc := if |list| == 0 then Idle else Cleaning(list, 0);
      Book(before, Relist);
      ok := true;
    }

    /** The path of a non-zero snapshot once Robin's objects are in place. On success the list it read ends
        with the snapshot's config, the store is that list from its newest Applied config on, and the live
        status is the aggregate: the snapshot's generation is observed and, where the rules of recording
        allow it, the newest Applied topology is on record. */
    method ReconcileConfigs(snapshot: Redkey) returns (ok: bool, ghost read: seq<Config>)
      requires Valid() && pc == Listing && snapshot == log[seen] && snapshot.spec.primaries != 0
      modifies this
      ensures Valid() && Continues()
      ensures ok ==> pc == Idle && read != [] && Gen(read[|read| - 1]) == snapshot.generation
      ensures ok ==> configs.Keys == Keys(read[CleanupCount(read)..])
      ensures ok ==> AggregateStored(log, SelectActive(read[CleanupCount(read)..]), snapshot.generation)
      ensures ok && LastApplied(read) >= 0 && Theorems.RecordsNewest(log[|log| - 1], read) ==>
                Record(log[|log| - 1].status) == Topology(read[LastApplied(read)].manifest.spec)
    {
      hide Inv, CanRun, After, AggregatedStatus, CleanupCount, SelectActive, Gen, Keys, LastApplied, AggregateStored, Theorems.RecordsNewest;
      var list: seq<Config>;
      list, ok := PrepareConfigs(snapshot);
      read := list;
      if ok && |list| > 0 {
        list, ok := CleanupSupersededConfigs(list);
        if ok {
          Reached();
          FetchingIsStore(Now(), list);
          ok := AggregateStatus(snapshot, list);
          if ok && LastApplied(read) >= 0 && Theorems.RecordsNewest(log[|log| - 1], read) { AggregateRecords(log, read, snapshot.generation); }
        }
      }
    }

    static lemma FetchingIsStore(s: State, list: seq<Config>)
      requires Inv(s) && s.pc == Fetching(list)
      ensures Keys(list) == s.configs.Keys
    {
    }

    static lemma AggregateRecords(log: seq<Redkey>, read: seq<Config>, observed: int)
      requires LastApplied(read) >= 0 && AggregateStored(log, SelectActive(read[CleanupCount(read)..]), observed)
      requires Theorems.RecordsNewest(log[|log| - 1], read)
      ensures Record(log[|log| - 1].status) == Topology(read[LastApplied(read)].manifest.spec)
    {
      hide LastApplied, CleanupCount, SelectActive, Conditions.Aggregate, Conditions.ComputePhase;
      Theorems.ActiveAfterCleanup(read);
    }

    /** Exactly one snapshot and no crash: back at idle, this is one reconcile from beginning to end. */
    static ghost predicate OneReconcile(labels: seq<Label>) {
      exists i | 0 <= i < |labels| ::
        labels[i].Snapshot? && forall j | 0 <= j < |labels| && j != i :: !labels[j].Snapshot? && !labels[j].Crash?
    }

    static lemma OneSnapshot(labels: seq<Label>, i: nat)
      requires i < |labels| && labels[i].Snapshot?
      requires forall j | 0 <= j < |labels| && j != i :: !labels[j].Snapshot? && !labels[j].Crash?
      ensures OneReconcile(labels)
    {
    }

    /** Reconcile. Whatever the user and Robin do meanwhile, whichever call fails and whichever version
        of the Redkey the cache returns, what it does is a run of the step system that ends idle. */
    method Reconcile() returns (ok: bool)
      requires Valid() && pc == Idle
      modifies this
      ensures Valid() && pc == Idle && Inv(Now())
      ensures old(trace) <= trace && (ok ==> OneReconcile(trace[|old(trace)|..]))
    {
      hide Inv, CanRun, After;
      var snapshot;
      ghost var at;
      snapshot, ok, at := ReadSnapshot();
      if ok {
        ok := Dispatch(snapshot);
      }
      if ok { OneSnapshot(trace[|old(trace)|..], at - |old(trace)|); }
      if !ok {
        Abandon();
      }
      RunKeeps(start, trace);
    }

    /** Fetch the Redkey: any version not older than the last one seen. */
    method ReadSnapshot() returns (snapshot: Redkey, ok: bool, ghost at: nat)
      requires Valid() && pc == Idle
      modifies this
      ensures Valid() && old(trace) <= trace
      ensures ok ==> snapshot == log[seen] && pc == if snapshot.spec.primaries == 0 then Listing else Ensuring(ENSURE_ORDER, ThenList)
      ensures ok ==> |old(trace)| <= at == |trace| - 1 && trace[at].Snapshot?
      ensures forall i | |old(trace)| <= i < |trace| && (ok ==> i != at) :: !trace[i].Crash? && !trace[i].Snapshot?
    {
      hide Inv, CanRun, After;
      Interfere();
      snapshot, ok, at := log[|log| - 1], false, 0;
      var fault: bool := *;
      if !fault {
        var k: nat := *;
        if k < seen || k >= |log| { k := |log| - 1; }
        ghost var before := Now();
        snapshot, ok, at := log[k], true, |trace|;
        seen := k;
        pc := if snapshot.spec.primaries == 0 then Listing else Ensuring(ENSURE_ORDER, ThenList);
        Book(before, Snapshot(k));
      }
    }

    /** Zero primaries skip normal reconciliation. */
    method Dispatch(snapshot: Redkey) returns (ok: bool)
      requires Valid() && snapshot == log[seen]
      requires pc == if snapshot.spec.primaries == 0 then Listing else Ensuring(ENSURE_ORDER, ThenList)
      modifies this
      ensures Valid() && Continues()
      ensures ok ==> pc == Idle
    {
      hide Inv, CanRun, After;
      if snapshot.spec.primaries == 0 {
        ghost var outcome;
        ok, outcome := ReconcileScaleToZero(snapshot);
      } else {
        ok := EnsureRobin(ThenList);
        if ok {
          ghost var read;
          ok, read := ReconcileConfigs(snapshot);
        }
      }
    }

    /** An error return gives up the rest of the reconcile. */
    ghost method Abandon()
      requires Valid()
      modifies this`pc, this`trace
      ensures Valid() && pc == Idle && old(trace) <= trace
    {
      hide Inv, CanRun, After;
      var before := Now();
      pc := Idle;
      Book(before, Crash);
    }
  }
}
