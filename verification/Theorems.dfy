/** What the invariant says about every run: the queue, the observed generation, the recorded
    topology, the phase, and interrupted cleanup. */
module Theorems {
  import opened Types
  import opened Queue
  import opened Protocol
  import opened Safety
  import Admission
  import Conditions

  /** The config at q is found by the selector and carries the spec of its generation. */
  predicate Samples(configs: map<nat, Config>, cluster: string, history: seq<Spec>, q: nat)
    requires q in configs
  {
    var c := configs[q];
    && c.manifest.sequence == q
    && c in ListConfigs(configs, cluster)
    && AnnotatedGeneration(c) == Some(Gen(c)) && 1 <= Gen(c) <= |history|
    && c.manifest.spec == ConfigSpecOf(history[Gen(c) - 1])
  }

  lemma ListFinds(configs: map<nat, Config>, cluster: string, q: nat)
    requires Keyed(configs, cluster) && q in configs
    ensures configs[q] in ListConfigs(configs, cluster)
  {
    hide ListConfigs, Keys;
    ListIsStore(configs, cluster);
    var i := IndexOfKey(ListConfigs(configs, cluster), q);
  }

  lemma QueueSamples(configs: map<nat, Config>, cluster: string, floor: int, history: seq<Spec>, q: nat)
    requires QueueInv(configs, cluster, floor, history) && q in configs
    ensures Samples(configs, cluster, history, q)
  {
    hide ListConfigs;
    assert Genuine(q, configs[q], cluster, floor, history);
    StoreIsKeyed(configs, cluster, floor, history);
    ListFinds(configs, cluster, q);
  }

  /** The queue is an order-preserving sample of the spec history: in every reachable state each config
      is keyed by its sequence, is found by the cluster selector, and carries the spec of the
      generation its annotation reads as; sequences and generations are ordered alike, so a generation
      has at most one config. */
  lemma QueueSamplesHistory(cluster: string, spec: Spec, labels: seq<Label>)
    requires Admission.StaticRules(spec) && CanRun(Initial(cluster, spec), labels)
    ensures var s := After(Initial(cluster, spec), labels);
            && (forall q | q in s.configs :: Samples(s.configs, s.cluster, s.history, q))
            && (forall q, r | q in s.configs && r in s.configs :: q < r <==> Gen(s.configs[q]) < Gen(s.configs[r]))
  {
    hide Samples, CanRun, After, Gen, ObservedInv, RecordInv, PcInv, SourceInv;
    Safe(cluster, spec, labels);
    var s := After(Initial(cluster, spec), labels);
    forall q | q in s.configs ensures Samples(s.configs, s.cluster, s.history, q) {
      QueueSamples(s.configs, s.cluster, Snap(s).generation, s.history, q);
    }
    forall q, r | q in s.configs && r in s.configs
      ensures q < r <==> Gen(s.configs[q]) < Gen(s.configs[r])
    {
      if q < r { assert Older(s.configs, q, r); }
      if r < q { assert Older(s.configs, r, q); }
    }
  }

  /** No generation is lost: whenever a non-zero Redkey claims to have observed its live generation,
      the highest config was built for exactly that generation, however often the spec moved during the
      reconcile that wrote the claim. */
  lemma NoGenerationLost(cluster: string, spec: Spec, labels: seq<Label>)
    requires Admission.StaticRules(spec) && CanRun(Initial(cluster, spec), labels)
    ensures var s := After(Initial(cluster, spec), labels);
            && s.log != []
            && Live(s).status.observed <= Live(s).generation
            && (Live(s).status.observed == Live(s).generation && Live(s).spec.primaries != 0 ==>
                  s.configs != map[] && Gen(Top(s.configs)) == Live(s).generation)
  {
    hide CanRun, After, Gen;
    Safe(cluster, spec, labels);
    var s := After(Initial(cluster, spec), labels);
    assert Stored(Live(s), Snap(s).generation, s.history);
    assert NoLater(s.log, s.seen, |s.log| - 1);
    assert Live(s) == s.log[|s.log| - 1];
  }

  /** Every written status: the phase is the one its conditions compute to, and Ready and Error are
      never both True. */
  lemma WrittenPhaseAgrees(cluster: string, spec: Spec, labels: seq<Label>)
    requires Admission.StaticRules(spec) && CanRun(Initial(cluster, spec), labels)
    ensures var s := After(Initial(cluster, spec), labels);
            && s.log != []
            && var status := Live(s).status;
               !status.phase.PhaseUnset? ==>
                 && status.phase == Conditions.ComputePhase(status.conditions)
                 && !(Conditions.IsTrue(status.conditions, KindReady) && Conditions.IsTrue(status.conditions, KindError))
  {
    hide CanRun, After, Conditions.ComputePhase, Conditions.IsTrue;
    Safe(cluster, spec, labels);
  }

  // ---- What the two writers write ----

  /** `after` is `before` with a status that mirrors the active config. */
  predicate Mirrored(before: Redkey, active: Config, observed: int, after: Redkey) {
    var settled := active.status.phase.ConfigPhaseApplied? || active.status.phase.ConfigPhaseSuperseded?;
    var error := active.status.status.ClusterStatusError?;
    && after.generation == before.generation && after.spec == before.spec
    && after.status.status == active.status.status && after.status.detail == active.status.detail
    && after.status.replicas == before.spec.primaries && after.status.observed == observed
    && after.status.phase == (if !settled then PhaseConfiguring else if error then PhaseError else PhaseReady)
    && Conditions.Holds(after.status.conditions, KindReady, if settled && !error then ConditionTrue else ConditionFalse, "StatusAggregated", "")
    && Conditions.Holds(after.status.conditions, KindConfigPending, if settled then ConditionFalse else ConditionTrue, "StatusAggregated", "")
    && Conditions.Holds(after.status.conditions, KindError, if settled && error then ConditionTrue else ConditionFalse, "StatusAggregated", "")
    && if !before.spec.ephemeral && active.status.phase.ConfigPhaseApplied? && active.manifest.spec.primaries > 0
       then after.status.lastPrimaries == active.manifest.spec.primaries && after.status.lastReplicas == active.manifest.spec.replicas
       else after.status.lastPrimaries == before.status.lastPrimaries && after.status.lastReplicas == before.status.lastReplicas
  }

  /** Whatever is aggregated mirrors the active config, in any phase. */
  lemma AggregateMirrors(live: Redkey, active: Config, observed: int, now: int)
    ensures Mirrored(live, active, observed, live.(status := AggregatedStatus(live, active, observed, now)))
    ensures AggregatedStatus(live, active, observed, now).updatedAt == now
  {
    hide Conditions.Aggregate, Conditions.ComputePhase, Conditions.Holds, Conditions.Find;
    Conditions.BasicAfterAggregate(live.status.conditions, active, now);
    Conditions.PhaseAfterAggregate(live.status.conditions, active, now);
  }

  /** Every aggregate write over the live version, whatever phase the active config is in: the status
      mirrors it, and the record moves exactly when the rule of recording holds. */
  lemma StoreMirrors(s: State, now: int)
    requires Enabled(s, Store(now))
    ensures var t := DoStore(s, now);
            t.log != s.log ==>
              && t.log == s.log + [Live(t)] && Live(t).status.updatedAt == now
              && Mirrored(Live(s), SelectActive(s.pc.list), Snap(s).generation, Live(t))
  {
    hide AggregatedStatus, Mirrored, SelectActive, Admission.StatusUpdateAdmitted;
    AggregateMirrors(Live(s), SelectActive(s.pc.list), Snap(s).generation, now);
  }

  /** `after` is `before` with the status of a cluster scaled to zero: Ready with 0 replicas, nothing
      running, the generation observed, the record kept. */
  predicate Zeroed(before: Redkey, after: Redkey) {
    && after.generation == before.generation && after.spec == before.spec
    && after.status.phase == PhaseReady && after.status.replicas == 0
    && after.status.status == NoStatus && after.status.detail == ""
    && after.status.observed == before.generation
    && after.status.lastPrimaries == before.status.lastPrimaries && after.status.lastReplicas == before.status.lastReplicas
    && Conditions.Holds(after.status.conditions, KindReady, ConditionTrue, "ScaledToZero", "")
    && Conditions.Holds(after.status.conditions, KindConfigPending, ConditionFalse, "ScaledToZero", "")
    && Conditions.Holds(after.status.conditions, KindError, ConditionFalse, "ScaledToZero", "")
  }

  lemma ZeroedIsZero(r: Redkey, now: int)
    ensures Zeroed(r, r.(status := ZeroedStatus(r, now))) && ZeroedStatus(r, now).updatedAt == now
  {
    hide Conditions.Holds;
    Conditions.PhaseAfterZero(r.status.conditions, now);
  }

  /** Every write of the scale-to-zero path. */
  lemma ZeroWrites(s: State, now: int)
    requires Enabled(s, Zero(now))
    ensures var t := DoZero(s, now);
            t.log != s.log ==> t.log == s.log + [Live(t)] && Live(t).status.updatedAt == now && Zeroed(Live(s), Live(t))
  {
    hide ZeroedStatus, Zeroed, Admission.StatusUpdateAdmitted;
    ZeroedIsZero(Snap(s), now);
  }

  // ---- The recorded topology ----

  /** Both writers keep the record unless the aggregate writer replaces it by the topology of a config
      it read as Applied with primaries, and the generation it comes from never goes back, not even
      when the store is wiped and sequences start over. */
  lemma RecordStep(s: State, l: Label)
    requires Inv(s) && Enabled(s, l)
    ensures var t := Do(s, l);
            && t.log != []
            && s.source <= t.source
            && (t.source == s.source ==> Record(Live(t).status) == Record(Live(s).status))
            && (t.source != s.source ==>
                  && l.Store?
                  && var c := SelectActive(s.pc.list);
                     && c.status.phase.ConfigPhaseApplied? && c.manifest.spec.primaries > 0
                     && c.manifest.sequence in s.configs && Same(c, s.configs[c.manifest.sequence])
                     && t.source == Gen(c) && Record(Live(t).status) == Topology(c.manifest.spec))
  {
    hide QueueInv, ObservedInv, PhaseInv, SourceInv, Gen, HistoryInv, PcInv;
    var t := Do(s, l);
    StepKeeps(s, l);
    assert s.history <= t.history;
    if l.Store? {
      StoreRecords(s, l.now);
      if t.source != s.source { StoreSource(s, l.now); }
    }
    SameSourceSameRecord(s, t);
  }

  lemma StoreSource(s: State, now: int)
    requires Inv(s) && Enabled(s, Store(now)) && DoStore(s, now).source != s.source
    ensures var c := SelectActive(s.pc.list);
            && c.status.phase.ConfigPhaseApplied? && c.manifest.spec.primaries > 0
            && c.manifest.sequence in s.configs && Same(c, s.configs[c.manifest.sequence])
            && Record(Live(DoStore(s, now)).status) == Topology(c.manifest.spec)
  {
    hide ObservedInv, PhaseInv, SourceInv, Gen, HistoryInv, RecordInv, LogInv, Mirrors, SelectActive, Conditions.Aggregate, Conditions.ComputePhase;
    RecordedIsOldest(s.configs, s.pc.list);
  }

  lemma SameSourceSameRecord(s: State, t: State)
    requires s.log != [] && t.log != [] && s.seen < |s.log| && t.seen < |t.log|
    requires RecordInv(Live(s).status, s.source, Snap(s).generation, s.history)
    requires RecordInv(Live(t).status, t.source, Snap(t).generation, t.history)
    requires s.history <= t.history
    ensures t.source == s.source ==> Record(Live(t).status) == Record(Live(s).status)
  {
  }

  /** A record is the topology of an admitted, non-zero generation of a storage cluster. */
  predicate RecordIsHistoric(s: State)
    requires s.log != []
  {
    Live(s).status.lastPrimaries != 0 ==>
      && 1 <= s.source <= |s.history|
      && var spec := s.history[s.source - 1];
         && Admission.StaticRules(spec) && !spec.ephemeral && spec.primaries > 0
         && Record(Live(s).status) == (spec.primaries, spec.replicas)
  }

  lemma RecordMeaning(s: State)
    requires Inv(s)
    ensures s.log != [] && RecordIsHistoric(s) && (Live(s).status.lastPrimaries != 0 <==> s.source != 0)
  {
    hide QueueInv, ObservedInv, PhaseInv, SourceInv, PcInv;
  }

  /** Over any run from any reachable state a recorded topology is never cleared, stays a topology of
      the spec history, and its generation never goes back. */
  lemma {:induction false} RecordNeverLost(s: State, labels: seq<Label>)
    requires Inv(s) && CanRun(s, labels)
    ensures var t := After(s, labels);
            && t.log != [] && RecordIsHistoric(t)
            && s.source <= t.source
            && (Live(s).status.lastPrimaries != 0 ==> Live(t).status.lastPrimaries != 0)
  {
    hide Inv, RecordIsHistoric;
    RecordMeaning(s);
    RunKeeps(s, labels);
    RecordMeaning(After(s, labels));
    if labels != [] {
      var front := labels[..|labels| - 1];
      RecordNeverLost(s, front);
      RunKeeps(s, front);
      RecordMeaning(After(s, front));
      RecordStep(After(s, front), labels[|labels| - 1]);
    }
  }

  // ---- What a reconcile records ----

  /** The list's newest Applied config is what gets recorded: it has storage to protect, a topology the
      schema accepts, and nothing newer is InProgress. */
  predicate RecordsNewest(live: Redkey, list: seq<Config>)
    requires LastApplied(list) >= 0
  {
    && !live.spec.ephemeral && Recordable(list[LastApplied(list)])
    && forall i | LastApplied(list) < i < |list| :: !list[i].status.phase.ConfigPhaseInProgress?
  }

  function NextRecord(live: Redkey, list: seq<Config>): (int, int)
    requires LastApplied(list) >= 0
  {
    if RecordsNewest(live, list) then Topology(list[LastApplied(list)].manifest.spec) else Record(live.status)
  }

  /** After cleanup the newest Applied config is active, unless a newer one is InProgress. */
  lemma ActiveAfterCleanup(list: seq<Config>)
    requires LastApplied(list) >= 0
    ensures var kept := list[CleanupCount(list)..];
            && kept != []
            && if forall i | LastApplied(list) < i < |list| :: !list[i].status.phase.ConfigPhaseInProgress?
               then SelectActive(kept) == list[LastApplied(list)] else SelectActive(kept).status.phase.ConfigPhaseInProgress?
  {
    hide FirstInProgress, LastApplied;
    var last := LastApplied(list);
    var kept := list[last..];
    assert CleanupCount(list) == last && kept[0] == list[last];
    forall i | 0 <= i < |kept| ensures kept[i] == list[last + i] {
    }
    if i :| last < i < |list| && list[i].status.phase.ConfigPhaseInProgress? {
      assert kept[i - last].status.phase.ConfigPhaseInProgress?;
    }
  }

  /** A reconcile that has read `list`, at each of its control points. */
  predicate Aggregates(s: State, list: seq<Config>, live: Redkey)
    requires LastApplied(list) >= 0
  {
    && s.log != [] && Live(s).spec.ephemeral == live.spec.ephemeral
    && match s.pc
       case Cleaning(l, _) => l == list && Record(Live(s).status) == Record(live.status)
       case Fetching(l) => l == list[CleanupCount(list)..] && Record(Live(s).status) == Record(live.status)
       case Storing(l, _) => l == list[CleanupCount(list)..] && Record(Live(s).status) == Record(live.status)
       case Idle => Record(Live(s).status) == NextRecord(live, list)
       case _ => false
  }

  lemma AggregatesStore(s: State, list: seq<Config>, live: Redkey, now: int)
    requires Inv(s) && LastApplied(list) >= 0 && Aggregates(s, list, live) && Enabled(s, Store(now))
    ensures Aggregates(DoStore(s, now), list, live)
  {
    hide QueueInv, ObservedInv, SourceInv, PhaseInv, HistoryInv, PcInv, LogInv, LastApplied, CleanupCount, SelectActive,
         Conditions.Aggregate, Conditions.ComputePhase, Admission.StatusUpdateAdmitted;
    ActiveAfterCleanup(list);
    var status := AggregatedStatus(Live(s), SelectActive(s.pc.list), Snap(s).generation, now);
    Admission.StatusWriteRejectedOnlyByBounds(Live(s), status);
  }

  lemma AggregatesUpdate(s: State, list: seq<Config>, live: Redkey, spec: Spec)
    requires Inv(s) && LastApplied(list) >= 0 && Aggregates(s, list, live) && Enabled(s, UserUpdate(spec))
    ensures Aggregates(Do(s, UserUpdate(spec)), list, live)
  {
    hide QueueInv, ObservedInv, SourceInv, PhaseInv, HistoryInv, PcInv, LogInv, LastApplied, CleanupCount, NextRecord;
  }

  lemma AggregatesStep(s: State, list: seq<Config>, live: Redkey, l: Label)
    requires Inv(s) && LastApplied(list) >= 0 && Aggregates(s, list, live) && Enabled(s, l) && !l.Crash? && !l.Snapshot?
    ensures Aggregates(Do(s, l), list, live)
  {
    hide QueueInv, ObservedInv, SourceInv, PhaseInv, HistoryInv, PcInv, LogInv, LastApplied, NextRecord, DoStore, RecordInv;
    match l
    case UserUpdate(spec) => AggregatesUpdate(s, list, live, spec);
    case Store(now) => AggregatesStore(s, list, live, now);
    case _ =>
  }

  /** Neither a failure nor a new reconcile. */
  predicate WithinReconcile(labels: seq<Label>) {
    forall i | 0 <= i < |labels| :: !labels[i].Crash? && !labels[i].Snapshot?
  }

  lemma {:induction false} AggregatesRun(s: State, list: seq<Config>, live: Redkey, labels: seq<Label>)
    requires Inv(s) && LastApplied(list) >= 0 && Aggregates(s, list, live) && CanRun(s, labels) && WithinReconcile(labels)
    ensures Aggregates(After(s, labels), list, live)
  {
    hide Inv, Aggregates, Enabled, Do, LastApplied;
    if labels != [] {
      var front := labels[..|labels| - 1];
      AggregatesRun(s, list, live, front);
      RunKeeps(s, front);
      AggregatesStep(After(s, front), list, live, labels[|labels| - 1]);
    }
  }

  /** What a normal reconcile leaves on record. Take any reachable state in which it has read a list with
      some config Applied, and let it run to its end without failing, under any interleaving of user
      updates, Robin writes and conflict retries. The record is then the newest Applied topology if and
      only if the cluster has storage, that topology is non-zero and within the schema bounds, and
      nothing newer is InProgress, or it was on record before; otherwise the record has not moved. */
  lemma NewestAppliedRecordedIff(s: State, list: seq<Config>, labels: seq<Label>)
    requires Inv(s) && s.pc.Cleaning? && s.pc.list == list && LastApplied(list) >= 0
    requires CanRun(s, labels) && WithinReconcile(labels) && After(s, labels).pc.Idle?
    ensures var t, newest := After(s, labels), Topology(list[LastApplied(list)].manifest.spec);
            && t.log != [] && Record(Live(t).status) == NextRecord(Live(s), list)
            && (Record(Live(t).status) == newest <==> RecordsNewest(Live(s), list) || Record(Live(s).status) == newest)
  {
    hide CanRun, After, LastApplied, RecordsNewest, QueueInv, ObservedInv, SourceInv, PhaseInv, HistoryInv, PcInv;
    AggregatesRun(s, list, Live(s), labels);
  }

  // ---- Cleanup ----

  /** A delete of cleanup, wherever the loop is interrupted: the deleted config is strictly older than
      the newest one read as Applied, is not the highest, and the decision to create a config is the
      same for every generation before and after. */
  lemma CleanupStep(s: State)
    requires Inv(s) && s.pc.Cleaning? && s.pc.done < CleanupCount(s.pc.list)
    ensures var t := DoClean(s);
            var list := s.pc.list;
            var q := list[s.pc.done].manifest.sequence;
            && LastApplied(list) >= 0 && q < list[LastApplied(list)].manifest.sequence
            && q in s.configs && t.configs == s.configs - {q} && q < Max(s.configs.Keys)
            && t.configs != map[] && Top(t.configs) == Top(s.configs)
            && forall g, o :: NeedsNewConfig(g, o, Some(Top(t.configs))) == NeedsNewConfig(g, o, Some(Top(s.configs)))
  {
    hide ObservedInv, PhaseInv, SourceInv, Gen, HistoryInv, RecordInv, QueueInv, NeedsNewConfig;
    var list, i := s.pc.list, s.pc.done;
    var rest, q := list[i..], list[i].manifest.sequence;
    MirrorsTail(rest, s.configs);
    RemoveKeepsTop(s.configs, q);
    assert Below(rest, 0, LastApplied(list) - i);
    assert q in s.configs.Keys;
  }
}
