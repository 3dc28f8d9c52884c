/** Convergence with a spec held at non-zero primaries: a measure no step raises, what uninterrupted
    reconciles achieve, and a store that then stays as it is. */
module Convergence {
  import opened Types
  import opened Queue
  import opened Protocol
  import opened Safety
  import opened CalmRuns
  import Admission
  import Conditions

  /** The operator has read the live generation, and it is not zero. */
  predicate CaughtUp(s: State)
    requires s.seen < |s.log|
  {
    Live(s).spec.primaries != 0 && Snap(s).generation == Live(s).generation
  }

  /** How many generations the newest config is behind. */
  function Gap(s: State): int
    requires s.log != []
  {
    Live(s).generation - (if s.configs == map[] then 0 else Gen(Top(s.configs)))
  }

  lemma CaughtUpIsAhead(s: State)
    requires LogInv(s.log, s.seen, s.history) && CaughtUp(s)
    ensures NonZeroAhead(s)
  {
    forall k | s.seen <= k < |s.log| ensures s.log[k].spec.primaries != 0 {
      assert NoLater(s.log, s.seen, k) && NoLater(s.log, k, |s.log| - 1);
      assert Stored(s.log[k], Snap(s).generation, s.history);
      assert Stored(Live(s), Snap(s).generation, s.history);
    }
  }

  lemma StaysCaughtUp(s: State, l: Label)
    requires Inv(s) && Enabled(s, l) && !l.UserUpdate? && CaughtUp(s)
    ensures Do(s, l).seen < |Do(s, l).log| && CaughtUp(Do(s, l))
  {
    hide QueueInv, ObservedInv, RecordInv, SourceInv, PhaseInv, HistoryInv, PcInv, Do;
    SpecHeld(s, l);
    SeenStays(s, l);
  }

  /** No version the operator may still read is at zero. */
  predicate NonZeroAhead(s: State) {
    s.seen < |s.log| && forall k | s.seen <= k < |s.log| :: s.log[k].spec.primaries != 0
  }

  lemma StaysAhead(s: State, l: Label)
    requires NonZeroAhead(s) && Enabled(s, l) && !l.UserUpdate?
    ensures NonZeroAhead(Do(s, l))
  {
    hide AggregatedStatus, ZeroedStatus, ListConfigs, NewConfig, SelectActive, Admission.StatusUpdateAdmitted, NeedsNewConfig;
  }

  /** Which steps touch the set of configs under a non-zero snapshot: only a create, which closes the gap
      to the snapshot's generation, and a cleanup delete below the top. */
  lemma StoreStep(s: State, l: Label)
    requires Inv(s) && Enabled(s, l) && Snap(s).spec.primaries != 0
    ensures l.Create? ==> CreateAddsTopOf(s)
    ensures l.Clean? ==> Do(s, l).configs == s.configs || DeletesBelowTop(s, Do(s, l).configs)
    ensures l.RobinWrite? ==> Restatused(s.configs, Do(s, l).configs)
    ensures !l.Create? && !l.Clean? && !l.RobinWrite? ==> Do(s, l).configs == s.configs
  {
    hide QueueInv, ObservedInv, RecordInv, SourceInv, PhaseInv, HistoryInv, AggregatedStatus, ZeroedStatus,
         ListConfigs, NewConfig, SelectActive, Admission.StatusUpdateAdmitted, NeedsNewConfig, CreateAddsTopOf, DeletesBelowTop, Mirrors;
    if l.Create? {
      CreateCloses(s);
    } else if l.Clean? {
      if s.pc.done < CleanupCount(s.pc.list) { CleanDeletes(s); }
    }
  }

  predicate CreateAddsTopOf(s: State)
    requires s.seen < |s.log| && s.pc.Creating?
  {
    var t := DoCreate(s);
    && TopIs(t.configs, Snap(s).generation)
    && (s.configs != map[] ==> Gen(Top(s.configs)) < Snap(s).generation)
    && |t.configs| == |s.configs| + 1
  }

  predicate DeletesBelowTop(s: State, configs: map<nat, Config>) {
    s.configs != map[] && configs != map[] && Top(configs) == Top(s.configs) && |configs| == |s.configs| - 1
  }

  lemma CreateCloses(s: State)
    requires Inv(s) && s.pc.Creating?
    ensures CreateAddsTopOf(s)
  {
    hide QueueInv, ObservedInv, RecordInv, SourceInv, PhaseInv, HistoryInv, NewConfig, Top, Gen, Genuine;
    CreateAddsTop(s);
    var c := NewConfig(s.cluster, Snap(s).generation, Snap(s).spec, s.pc.highest);
    AddGrows(s.configs, c.manifest.sequence, c);
    if s.configs != map[] { SameGen(s.pc.highest.value, Top(s.configs)); }
  }

  lemma CleanDeletes(s: State)
    requires Inv(s) && s.pc.Cleaning? && s.pc.done < CleanupCount(s.pc.list)
    ensures DeletesBelowTop(s, DoClean(s).configs)
  {
    hide QueueInv, ObservedInv, RecordInv, SourceInv, PhaseInv, HistoryInv, Gen;
    var rest := s.pc.list[s.pc.done..];
    MirrorsTail(rest, s.configs);
    RemoveKeepsTop(s.configs, rest[0].manifest.sequence);
    RemoveShrinks(s.configs, rest[0].manifest.sequence);
  }

  /** The measure: while the spec is held and no readable version is at zero, no step of anybody raises
      the pair (generations behind, number of configs) in lexicographic order. This covers reconciles
      that still work on older generations. A create closes the gap up to its snapshot's generation, and
      every cleanup delete lowers the second component. */
  lemma MeasureStep(s: State, l: Label)
    requires Inv(s) && Enabled(s, l) && !l.UserUpdate? && NonZeroAhead(s)
    ensures var t := Do(s, l);
            && NonZeroAhead(t)
            && 0 <= Gap(t) <= Gap(s)
            && (Gap(t) == Gap(s) ==> |t.configs| <= |s.configs|)
            && (l.Create? ==> Gap(t) == Live(s).generation - Snap(s).generation < Gap(s))
            && (t.configs.Keys != s.configs.Keys ==> Gap(t) < Gap(s) || |t.configs| < |s.configs|)
  {
    hide QueueInv, ObservedInv, RecordInv, SourceInv, PhaseInv, HistoryInv, PcInv, Do, DoCreate, Gen;
    var t := Do(s, l);
    StaysAhead(s, l);
    SpecHeld(s, l);
    StepKeeps(s, l);
    GapBounds(s);
    GapBounds(t);
    StoreStep(s, l);
    if l.Create? {
      assert Stored(Snap(s), Snap(s).generation, s.history);
      CreateIsDo(s);
    } else if l.RobinWrite? {
      if s.configs != map[] { RestatusedTop(s.configs, t.configs); }
      SameKeysSameSize(s.configs, t.configs);
    }
  }

  lemma CreateIsDo(s: State)
    requires Enabled(s, Create)
    ensures Do(s, Create) == DoCreate(s)
  {
  }

  lemma SameKeysSameSize(a: map<nat, Config>, b: map<nat, Config>)
    requires a.Keys == b.Keys
    ensures |a| == |b| && (a == map[] <==> b == map[])
  {
    assert |a| == |a.Keys| && |b| == |b.Keys|;
  }

  /** The gap lies between 0 and the generation, which it reaches only with an empty store. */
  lemma GapBounds(s: State)
    requires Inv(s)
    ensures s.log != [] && 0 <= Gap(s) <= Live(s).generation && (s.configs == map[] <==> Gap(s) == Live(s).generation)
    ensures 0 < Live(s).generation
  {
    hide ObservedInv, RecordInv, SourceInv, PhaseInv, HistoryInv, PcInv, Gen;
    assert Stored(Live(s), Snap(s).generation, s.history);
    assert NoLater(s.log, s.seen, |s.log| - 1);
    if s.configs != map[] { TopIsGenuine(s.configs, s.cluster, Snap(s).generation, s.history); }
  }

  /** The measure of t is not above that of s. */
  predicate NotAbove(t: State, s: State) {
    t.log != [] && s.log != [] && (Gap(t) < Gap(s) || (Gap(t) == Gap(s) && |t.configs| <= |s.configs|))
  }

  /** Over any run without a user update. */
  lemma {:induction false} MeasureNeverRises(s: State, labels: seq<Label>)
    requires Inv(s) && NonZeroAhead(s) && CanRun(s, labels) && Held(labels)
    ensures var t := After(s, labels); NonZeroAhead(t) && NotAbove(t, s) && 0 <= Gap(t)
  {
    hide Inv, Enabled, Do, Gap;
    if labels == [] {
      GapBounds(s);
    } else {
      var front := labels[..|labels| - 1];
      MeasureNeverRises(s, front);
      RunKeeps(s, front);
      MeasureStep(After(s, front), labels[|labels| - 1]);
    }
  }

  // ---- Status writes that are rejected ----

  /** Every admitted spec so far stays within the bounds of the recorded fields. */
  predicate Bounded(history: seq<Spec>) {
    forall g | 0 <= g < |history| ::
      history[g].primaries <= Admission.MAX_RECORD && 0 <= history[g].replicas <= Admission.MAX_RECORD
  }

  /** The aggregate status is rejected exactly when it would record a topology outside the schema bounds
      of the recorded fields; the spec fields have no such bounds. */
  lemma StatusRejectedIff(live: Redkey, active: Config, observed: int, now: int)
    requires Admission.StatusFits(live.status)
    ensures !Admission.StatusUpdateAdmitted(live, AggregatedStatus(live, active, observed, now)) <==>
            && Records(live, active)
            && !(active.manifest.spec.primaries <= Admission.MAX_RECORD
                 && 0 <= active.manifest.spec.replicas <= Admission.MAX_RECORD)
  {
    hide Conditions.Aggregate, Conditions.ComputePhase;
    Admission.StatusWriteRejectedOnlyByBounds(live, AggregatedStatus(live, active, observed, now));
  }

  lemma BoundedIsAdmitted(s: State, now: int)
    requires Inv(s) && Enabled(s, Store(now)) && Bounded(s.history)
    ensures Admission.StatusUpdateAdmitted(Live(s), AggregatedStatus(Live(s), SelectActive(s.pc.list), Snap(s).generation, now))
  {
    hide Gen, LogInv, HistoryInv, ObservedInv, PhaseInv, Mirrors, SelectActive, AggregatedStatus, Admission.StatusUpdateAdmitted;
    var active := SelectActive(s.pc.list);
    StatusRejectedIff(Live(s), active, Snap(s).generation, now);
    if Records(Live(s), active) {
      RecordedIsOldest(s.configs, s.pc.list);
      var c := s.configs[active.manifest.sequence];
      assert Genuine(active.manifest.sequence, c, s.cluster, Snap(s).generation, s.history);
      GenuineTopology(s, c);
    }
  }

  // ---- Reconciling without interruption ----

  /** An uninterrupted run at a non-zero spec. */
  predicate CatchingUp(s: State) {
    && s.log != [] && Live(s).spec.primaries != 0
    && (!s.pc.Idle? ==> s.seen == |s.log| - 1)
    && match s.pc
       case Idle => TopIs(s.configs, Live(s).generation) && (Bounded(s.history) ==> Live(s).status.observed == Live(s).generation)
       case Storing(_, k) => k == |s.log| - 1
       case _ => true
  }

  lemma CatchUpStep(s: State, l: Label)
    requires Inv(s) && CatchingUp(s) && Enabled(s, l) && Calm(s, l)
    ensures CatchingUp(Do(s, l))
  {
    hide QueueInv, ObservedInv, RecordInv, SourceInv, PhaseInv, HistoryInv, ZeroedStatus, Gen, Top, Bounded,
         ListConfigs, NewConfig, SelectActive, Admission.StatusUpdateAdmitted, NeedsNewConfig, HighestInv, Mirrors, CleanupCount,
         Conditions.Aggregate, Conditions.ComputePhase;
    if l.Relist? { ListNotEmpty(s); }
    if l.Store? && Bounded(s.history) { BoundedIsAdmitted(s, l.now); }
  }

  lemma ListNotEmpty(s: State)
    requires Inv(s) && s.configs != map[]
    ensures ListConfigs(s.configs, s.cluster) != []
  {
    hide ObservedInv, RecordInv, SourceInv, PhaseInv, HistoryInv, PcInv, ListConfigs, Gen;
    StoreIsKeyed(s.configs, s.cluster, Snap(s).generation, s.history);
    ListMirrors(s.configs, s.cluster);
  }

  lemma {:induction false} CatchUpRun(s: State, labels: seq<Label>)
    requires Inv(s) && CatchingUp(s) && CanRun(s, labels) && CalmRun(s, labels)
    ensures CatchingUp(After(s, labels))
  {
    hide Inv, CatchingUp, Enabled, Do, Calm;
    if labels != [] {
      var front := labels[..|labels| - 1];
      CatchUpRun(s, front);
      RunKeeps(s, front);
      CatchUpStep(After(s, front), labels[|labels| - 1]);
    }
  }

  /** From any reachable idle state at a non-zero spec, every uninterrupted run of one or more
      reconciles ends with the live generation's config on top, and with that generation observed
      unless some topology lies outside the recordable bounds. */
  lemma ReconcileCatchesUp(s: State, labels: seq<Label>)
    requires Inv(s) && s.pc.Idle? && Live(s).spec.primaries != 0
    requires CanRun(s, labels) && CalmRun(s, labels) && labels != [] && After(s, labels).pc.Idle?
    ensures var t := After(s, labels);
            && t.log != [] && TopIs(t.configs, Live(t).generation)
            && (Bounded(t.history) ==> Live(t).status.observed == Live(t).generation)
  {
    hide ObservedInv, RecordInv, SourceInv, HistoryInv, QueueInv, PhaseInv, CanRun, After, CalmRun, TopIs, Bounded;
    CalmFirst(s, labels);
    StepKeeps(s, labels[0]);
    assert CatchingUp(Do(s, labels[0]));
    CatchUpRun(Do(s, labels[0]), labels[1..]);
  }

  // ---- One config left ----

  /** One config, of the live generation, which the operator has read. */
  predicate Settled(s: State, q: nat) {
    && s.seen < |s.log| && CaughtUp(s) && s.configs.Keys == {q} && TopIs(s.configs, Live(s).generation)
  }

  /** A storage cluster within bounds has the highest config's topology on record. */
  predicate TopRecorded(s: State) {
    s.log != [] && s.configs != map[] && !Live(s).spec.ephemeral && Bounded(s.history) ==>
      Record(Live(s).status) == Topology(Top(s.configs).manifest.spec)
  }

  /** The status of a Redkey shows what its config reports. */
  predicate Shows(r: Redkey, c: Config) {
    && r.status.status == c.status.status && r.status.detail == c.status.detail
    && r.status.phase == Conditions.PhaseOf(c)
    && r.status.replicas == r.spec.primaries && r.status.observed == r.generation
  }

  /** A cluster whose status writes are admitted shows the highest config. */
  predicate TopShown(s: State) {
    s.log != [] && s.configs != map[] && (Live(s).spec.ephemeral || Bounded(s.history)) ==> Shows(Live(s), Top(s.configs))
  }

  predicate TopApplied(configs: map<nat, Config>, q: nat) {
    configs != map[] && Max(configs.Keys) == q && Top(configs).status.phase.ConfigPhaseApplied?
  }

  /** An uninterrupted run after Robin has applied the highest config, q. */
  predicate Settling(s: State, q: nat) {
    && s.log != [] && Live(s).spec.primaries != 0
    && TopIs(s.configs, Live(s).generation) && TopApplied(s.configs, q)
    && s.seen < |s.log| && Snap(s).generation == Live(s).generation
    && (!s.pc.Idle? ==> s.seen == |s.log| - 1)
    && match s.pc
       case Idle => s.configs.Keys == {q} && TopRecorded(s) && TopShown(s)
       case Ensuring(_, ThenList) => true
       case Listing => true
       case Cleaning(list, i) => |list| > 0 && LastApplied(list) == |list| - 1 && list[|list| - 1] == Top(s.configs)
       case Fetching(list) => list == [Top(s.configs)]
       case Storing(list, k) => list == [Top(s.configs)] && k == |s.log| - 1
       case _ => false
  }

  lemma SingleKey(list: seq<Config>, configs: map<nat, Config>, q: nat)
    requires Mirrors(list, configs) && |list| == 1 && configs != map[] && Max(configs.Keys) == q
    ensures configs.Keys == {q}
  {
    LastIsTop(list, configs);
    assert list[1..] == [];
    assert Keys(list) == {list[0].manifest.sequence};
  }

  lemma SettlingList(s: State, q: nat)
    requires Inv(s) && Settling(s, q) && s.pc.Listing?
    ensures Settling(DoList(s), q)
  {
    hide ObservedInv, RecordInv, SourceInv, PhaseInv, HistoryInv, QueueInv, ListConfigs, Mirrors;
    StoreIsKeyed(s.configs, s.cluster, Snap(s).generation, s.history);
    ListMirrors(s.configs, s.cluster);
    assert Stored(Live(s), Snap(s).generation, s.history);
  }

  lemma SettlingClean(s: State, q: nat)
    requires Inv(s) && Settling(s, q) && s.pc.Cleaning?
    ensures Settling(DoClean(s), q)
  {
    hide ObservedInv, RecordInv, SourceInv, PhaseInv, HistoryInv, QueueInv, Gen;
    var list, i := s.pc.list, s.pc.done;
    if i < CleanupCount(list) {
      var rest := list[i..];
      MirrorsTail(rest, s.configs);
      RemoveKeepsTop(s.configs, list[i].manifest.sequence);
      assert (s.configs - {list[i].manifest.sequence}).Keys == s.configs.Keys - {list[i].manifest.sequence};
      MaxIs((s.configs - {list[i].manifest.sequence}).Keys, q);
    }
  }

  lemma SettlingStep(s: State, q: nat, l: Label)
    requires Inv(s) && Settling(s, q) && Enabled(s, l) && Calm(s, l)
    ensures Settling(Do(s, l), q)
  {
    hide QueueInv, ObservedInv, RecordInv, SourceInv, PhaseInv, HistoryInv, TopIs, TopApplied, DoList, DoClean, DoStore,
         Mirrors, ListConfigs, NewConfig, HighestInv, TopRecorded, TopShown;
    match l
    case List => SettlingList(s, q);
    case Clean => SettlingClean(s, q);
    case Store(now) => SettlingStore(s, q, now);
    case _ =>
  }

  lemma SettlingStore(s: State, q: nat, now: int)
    requires Inv(s) && Settling(s, q) && s.pc.Storing?
    ensures Settling(DoStore(s, now), q)
  {
    hide QueueInv, ObservedInv, RecordInv, SourceInv, PhaseInv, HistoryInv, TopIs, Bounded, Mirrors, LogInv,
         Conditions.Aggregate, Conditions.ComputePhase, Admission.StatusUpdateAdmitted;
    var list := s.pc.list;
    SingleKey(list, s.configs, q);
    LastIsTop(list, s.configs);
    assert s.configs[q].manifest.spec.primaries > 0 by { TopIsLive(s); }
    if Bounded(s.history) { BoundedIsAdmitted(s, now); }
    if Live(s).spec.ephemeral { EphemeralIsAdmitted(s, now); }
    AggregatedPhase(Live(s), list[0], Snap(s).generation, now);
  }

  lemma EphemeralIsAdmitted(s: State, now: int)
    requires Inv(s) && s.pc.Storing? && s.pc.list != [] && Live(s).spec.ephemeral
    ensures Admission.StatusUpdateAdmitted(Live(s), AggregatedStatus(Live(s), SelectActive(s.pc.list), Snap(s).generation, now))
  {
    hide QueueInv, ObservedInv, SourceInv, PhaseInv, HistoryInv, PcInv, Conditions.Aggregate, Conditions.ComputePhase;
    StatusRejectedIff(Live(s), SelectActive(s.pc.list), Snap(s).generation, now);
  }

  /** A top config of the live generation carries the live spec. */
  lemma TopIsLive(s: State)
    requires Inv(s) && TopIs(s.configs, Live(s).generation)
    ensures Top(s.configs).manifest.spec == ConfigSpecOf(Live(s).spec) && Live(s).spec.primaries >= 0
  {
    hide ObservedInv, RecordInv, SourceInv, PhaseInv, PcInv;
    TopIsGenuine(s.configs, s.cluster, Snap(s).generation, s.history);
    assert Stored(Live(s), Snap(s).generation, s.history);
    assert Admission.StaticRules(s.history[Live(s).generation - 1]);
  }

  lemma {:induction false} SettlingRun(s: State, q: nat, labels: seq<Label>)
    requires Inv(s) && Settling(s, q) && CanRun(s, labels) && CalmRun(s, labels)
    ensures Settling(After(s, labels), q)
  {
    hide Inv, Settling, Enabled, Do, Calm;
    if labels != [] {
      var front := labels[..|labels| - 1];
      SettlingRun(s, q, front);
      RunKeeps(s, front);
      SettlingStep(After(s, front), q, labels[|labels| - 1]);
    }
  }

  /** Once Robin has applied the highest config and it is the live generation's, every uninterrupted run
      of one or more reconciles leaves exactly that config, its topology on record when the cluster has
      storage, and a status that shows it. */
  lemma ReconcileLeavesOne(s: State, q: nat, labels: seq<Label>)
    requires Inv(s) && s.pc.Idle? && Live(s).spec.primaries != 0
    requires TopIs(s.configs, Live(s).generation) && TopApplied(s.configs, q)
    requires CanRun(s, labels) && CalmRun(s, labels) && labels != [] && After(s, labels).pc.Idle?
    ensures var t := After(s, labels);
            && t.configs.Keys == {q} && Settled(t, q)
            && (!Live(s).spec.ephemeral && Bounded(s.history) ==> Record(Live(t).status) == Topology(Top(t.configs).manifest.spec))
            && (Live(s).spec.ephemeral || Bounded(s.history) ==> Shows(Live(t), Top(t.configs)))
  {
    hide ObservedInv, RecordInv, SourceInv, HistoryInv, QueueInv, PhaseInv, CanRun, After, CalmRun, TopIs, TopApplied;
    CalmFirst(s, labels);
    StepKeeps(s, labels[0]);
    assert Settling(Do(s, labels[0]), q);
    SettlingRun(Do(s, labels[0]), q, labels[1..]);
    SpecHeldAlong(s, labels);
  }

  // ---- And it stays so ----

  lemma SettledStep(s: State, q: nat, l: Label)
    requires Inv(s) && Settled(s, q) && Enabled(s, l) && !l.UserUpdate?
    ensures Settled(Do(s, l), q)
  {
    hide QueueInv, ObservedInv, RecordInv, SourceInv, PhaseInv, HistoryInv, PcInv, Do, CreateAddsTopOf, CaughtUp, Gen;
    var t := Do(s, l);
    StaysCaughtUp(s, l);
    SpecHeld(s, l);
    CaughtUpIsAhead(s);
    StoreStep(s, l);
    MeasureStep(s, l);
    assert |s.configs| == 1 by { assert |s.configs| == |s.configs.Keys| == |{q}|; }
    if l.RobinWrite? { RestatusedTop(s.configs, t.configs); }
    if l.Clean? && t.configs != s.configs {
      SameKeysSameSize(t.configs, map[]);
    }
  }

  /** A settled store stays settled: whatever Robin writes, however often the operator crashes, restarts
      or reads old versions of the same generation, no reconcile creates or deletes a config until the
      user changes the spec. */
  lemma {:induction false} SettledForever(s: State, q: nat, labels: seq<Label>)
    requires Inv(s) && Settled(s, q) && CanRun(s, labels) && Held(labels)
    ensures Settled(After(s, labels), q)
  {
    hide Inv, Settled, Enabled, Do;
    if labels != [] {
      var front := labels[..|labels| - 1];
      SettledForever(s, q, front);
      RunKeeps(s, front);
      SettledStep(After(s, front), q, labels[|labels| - 1]);
    }
  }
}
