/** Exactly when the recorded topology of a cluster scaled to zero can still move. */
module LockDrift {
  import opened Types
  import opened Queue
  import opened Protocol
  import opened Safety
  import opened CalmRuns
  import Admission
  import Conditions
  import Convergence
  import ScaleToZero

  predicate OnlyRecords(configs: map<nat, Config>, r: (int, int)) {
    forall q | q in configs && Recordable(configs[q]) :: Topology(configs[q].manifest.spec) == r
  }

  // ---- It cannot move ----

  predicate Pinned(s: State, r: (int, int)) {
    ScaleToZero.ZeroSeen(s) && Record(Live(s).status) == r && (Live(s).spec.ephemeral || OnlyRecords(s.configs, r))
  }

  lemma PinnedStore(s: State, r: (int, int), now: int)
    requires Inv(s) && Pinned(s, r) && Enabled(s, Store(now))
    ensures Record(Live(DoStore(s, now)).status) == r
  {
    hide LogInv, HistoryInv, ObservedInv, PhaseInv, SourceInv, RecordInv, Mirrors, SelectActive, Gen, Conditions.Aggregate, Conditions.ComputePhase;
    var active := SelectActive(s.pc.list);
    if Records(Live(s), active) {
      RecordedIsOldest(s.configs, s.pc.list);
      var c := s.configs[active.manifest.sequence];
      assert Recordable(c) ==> Topology(c.manifest.spec) == r;
    }
  }

  lemma PinnedCreate(s: State, r: (int, int))
    requires s.seen < |s.log| && s.pc.Creating? && Snap(s).spec.primaries == 0 && OnlyRecords(s.configs, r)
    ensures OnlyRecords(DoCreate(s).configs, r)
  {
    hide NewConfig;
    NewConfigFields(s.cluster, Snap(s).generation, Snap(s).spec, s.pc.highest);
  }

  lemma SnapIsZero(s: State)
    requires LogInv(s.log, s.seen, s.history) && ScaleToZero.ZeroSeen(s)
    ensures Snap(s).spec == Live(s).spec
  {
    assert Stored(Snap(s), Snap(s).generation, s.history);
    assert Stored(Live(s), Snap(s).generation, s.history);
  }

  lemma PinnedRecord(s: State, r: (int, int), l: Label)
    requires Inv(s) && Pinned(s, r) && Enabled(s, l) && !l.UserUpdate?
    ensures Do(s, l).log != [] && Record(Live(Do(s, l)).status) == r
  {
    hide QueueInv, ObservedInv, RecordInv, SourceInv, PhaseInv, HistoryInv, PcInv, ListConfigs, NeedsNewConfig, NewConfig, DoStore, OnlyRecords,
         Conditions.SetAll, Admission.StatusUpdateAdmitted;
    SpecHeld(s, l);
    if l.Store? { PinnedStore(s, r, l.now); }
  }

  lemma PinnedConfigs(s: State, r: (int, int), l: Label)
    requires Enabled(s, l) && !l.UserUpdate? && Snap(s).spec.primaries == 0 && OnlyRecords(s.configs, r)
    ensures OnlyRecords(Do(s, l).configs, r)
  {
    hide ListConfigs, NeedsNewConfig, NewConfig, DoCreate, AggregatedStatus, ZeroedStatus, SelectActive, Admission.StatusUpdateAdmitted;
    if l.Create? { PinnedCreate(s, r); }
  }

  lemma PinnedStep(s: State, r: (int, int), l: Label)
    requires Inv(s) && Pinned(s, r) && Enabled(s, l) && !l.UserUpdate?
    ensures Pinned(Do(s, l), r)
  {
    hide QueueInv, ObservedInv, RecordInv, SourceInv, PhaseInv, HistoryInv, PcInv, Do, OnlyRecords;
    SpecHeld(s, l);
    SeenStays(s, l);
    SnapIsZero(s);
    PinnedRecord(s, r, l);
    if !Live(s).spec.ephemeral { PinnedConfigs(s, r, l); }
  }

  lemma {:induction false} PinnedRun(s: State, r: (int, int), labels: seq<Label>)
    requires Inv(s) && Pinned(s, r) && CanRun(s, labels) && Held(labels)
    ensures Pinned(After(s, labels), r)
  {
    hide Inv, Pinned, Enabled, Do;
    if labels != [] {
      var front := labels[..|labels| - 1];
      PinnedRun(s, r, front);
      RunKeeps(s, front);
      PinnedStep(After(s, front), r, labels[|labels| - 1]);
    }
  }

  // ---- It can move: reaching a store of one chosen config and a zero config ----

  /** The configs of a only gain company in b. */
  predicate Includes(a: map<nat, Config>, b: map<nat, Config>) {
    forall p | p in a :: p in b && b[p] == a[p]
  }

  lemma QueueingGrows(s: State, l: Label)
    requires Inv(s) && ScaleToZero.Queueing(s) && Enabled(s, l) && Calm(s, l)
    ensures Includes(s.configs, Do(s, l).configs)
  {
    hide QueueInv, ObservedInv, RecordInv, SourceInv, PhaseInv, HistoryInv, PcInv, ListConfigs, NeedsNewConfig, NewConfig, AggregatedStatus,
         SelectActive, Admission.StatusUpdateAdmitted, ScaleToZero.Present, ScaleToZero.TopZeroApplied;
  }

  lemma {:induction false} QueueingRunGrows(s: State, labels: seq<Label>)
    requires Inv(s) && ScaleToZero.Queueing(s) && CanRun(s, labels) && CalmRun(s, labels)
    ensures Includes(s.configs, After(s, labels).configs)
  {
    hide Inv, ScaleToZero.Queueing, Enabled, Do, Calm;
    if labels != [] {
      var front := labels[..|labels| - 1];
      QueueingRunGrows(s, front);
      RunKeeps(s, front);
      ScaleToZero.QueueingRun(s, front);
      QueueingGrows(After(s, front), labels[|labels| - 1]);
    }
  }

  /** Case B if need be: afterwards a zero config is on top and the old ones are untouched. */
  lemma GetZeroTop(s: State) returns (labels: seq<Label>)
    requires Inv(s) && s.pc.Idle? && ScaleToZero.ZeroSeen(s) && s.configs != map[]
    ensures CanRun(s, labels) && Held(labels)
    ensures var t := After(s, labels);
            && t.pc.Idle? && t.configs != map[] && Top(t.configs).manifest.spec.primaries == 0 && Includes(s.configs, t.configs)
  {
    hide QueueInv, ObservedInv, RecordInv, SourceInv, PhaseInv, HistoryInv, CanRun, After, CalmRun, Includes;
    if Top(s.configs).manifest.spec.primaries == 0 {
      labels := [];
      NoSteps(s);
      IncludesSelf(s.configs);
    } else {
      labels := OneReconcile(s);
      CalmIsHeld(s, labels);
      ScaleToZero.ZeroConfigQueued(s, labels);
      CalmFirst(s, labels);
      var t := Do(s, labels[0]);
      StepKeeps(s, labels[0]);
      assert ScaleToZero.Queueing(t);
      QueueingRunGrows(t, labels[1..]);
    }
  }

  lemma IncludesSelf(a: map<nat, Config>)
    ensures Includes(a, a)
  {
  }

  /** Case C up to the point where the configs are about to be deleted. */
  lemma {:induction false} GetWiping(s: State, record: (int, int)) returns (labels: seq<Label>)
    requires Inv(s) && ScaleToZero.TearingDown(s, record) && s.configs != map[] && !s.pc.Idle?
    ensures CanRun(s, labels) && CalmRun(s, labels)
    ensures After(s, labels).pc.Wiping? && After(s, labels).configs == s.configs
    decreases Rank(s)
  {
    hide Inv, Enabled, Do, Calm, Rank, CanRun, After, CalmRun, ScaleToZero.TearingDown;
    if s.pc.Wiping? {
      labels := [];
      NoSteps(s);
      CalmNoSteps(s);
    } else {
      var l := Progress(s);
      StepKeeps(s, l);
      ScaleToZero.TeardownStep(s, record, l);
      TearKeepsConfigs(s, record, l);
      var rest := GetWiping(Do(s, l), record);
      CalmStep(s, l);
      CalmConcat(s, [l], rest);
      labels := [l] + rest;
    }
  }

  lemma TearKeepsConfigs(s: State, record: (int, int), l: Label)
    requires Inv(s) && ScaleToZero.TearingDown(s, record) && s.configs != map[] && !s.pc.Idle? && !s.pc.Wiping?
    requires Enabled(s, l) && Calm(s, l)
    ensures Do(s, l).configs == s.configs && !Do(s, l).pc.Idle?
  {
    hide ObservedInv, RecordInv, SourceInv, PhaseInv, HistoryInv, QueueInv, ListConfigs;
    if l.List? {
      StoreIsKeyed(s.configs, s.cluster, Snap(s).generation, s.history);
      ListMirrors(s.configs, s.cluster);
    }
  }

  /** Delete down to a chosen non-empty set of configs, in an order the unsorted list allows. */
  lemma {:induction false} WipeTo(s: State, keep: set<nat>) returns (labels: seq<Label>)
    requires Inv(s) && s.pc.Wiping? && keep != {} && keep <= s.configs.Keys
    ensures CanRun(s, labels) && Held(labels)
    ensures var t := After(s, labels); t.configs.Keys == keep && Includes(t.configs, s.configs)
    decreases |s.configs|
  {
    hide QueueInv, ObservedInv, RecordInv, SourceInv, PhaseInv, HistoryInv, CanRun, After;
    if keep == s.configs.Keys {
      labels := [];
      NoSteps(s);
    } else {
      assert !(s.configs.Keys <= keep);
      var x :| x in s.configs.Keys && x !in keep;
      var l := Wipe(x);
      StepKeeps(s, l);
      var t := Do(s, l);
      assert t.configs.Keys == s.configs.Keys - {x};
      RemoveShrinks(s.configs, x);
      var k :| k in keep;
      assert k in t.configs.Keys;
      var rest := WipeTo(t, keep);
      OneStep(s, l);
      RunConcat(s, [l], rest);
      labels := [l] + rest;
    }
  }

  // ---- It can move: aggregating the chosen config ----

  /** The chosen config q is the oldest, Applied and recordable; the zero config on top is pending. */
  predicate Picks(configs: map<nat, Config>, q: nat) {
    && q in configs && Recordable(configs[q]) && configs[q].status.phase.ConfigPhaseApplied?
    && (forall p | p in configs :: q <= p && !configs[p].status.phase.ConfigPhaseInProgress?)
    && Top(configs).manifest.spec.primaries == 0 && !Top(configs).status.phase.ConfigPhaseApplied?
  }

  /** An uninterrupted reconcile over such a store. */
  predicate Aggregating(s: State, q: nat) {
    && s.log != [] && Live(s).spec.primaries == 0 && !Live(s).spec.ephemeral
    && (!s.pc.Idle? ==> s.seen == |s.log| - 1)
    && Picks(s.configs, q)
    && match s.pc
       case Idle => Record(Live(s).status) == Topology(s.configs[q].manifest.spec)
       case Listing => true
       case Ensuring(_, ThenFetch(list)) => list != [] && SelectActive(list) == s.configs[q]
       case Fetching(list) => list != [] && SelectActive(list) == s.configs[q]
       case Storing(list, k) => list != [] && SelectActive(list) == s.configs[q] && k == |s.log| - 1
       case _ => false
  }

  lemma ListPicks(configs: map<nat, Config>, cluster: string, q: nat)
    requires Keyed(configs, cluster) && Picks(configs, q)
    ensures var list := ListConfigs(configs, cluster); list != [] && SelectActive(list) == configs[q]
  {
    hide ListConfigs, Top, Recordable;
    ListIsStore(configs, cluster);
    var list := ListConfigs(configs, cluster);
    var i := IndexOfKey(list, q);
    FirstIsLowest(list, i);
    assert list[0] == configs[q];
  }

  lemma AggregatingList(s: State, q: nat)
    requires Inv(s) && Aggregating(s, q) && s.pc.Listing?
    ensures Aggregating(DoList(s), q)
  {
    hide ObservedInv, RecordInv, SourceInv, PhaseInv, HistoryInv, QueueInv, ListConfigs, Mirrors, NeedsNewConfig, SelectActive, Recordable;
    StoreIsKeyed(s.configs, s.cluster, Snap(s).generation, s.history);
    ListMirrors(s.configs, s.cluster);
    ListPicks(s.configs, s.cluster, q);
  }

  lemma AggregatingStore(s: State, q: nat, now: int)
    requires Inv(s) && Aggregating(s, q) && s.pc.Storing?
    ensures Aggregating(DoStore(s, now), q)
  {
    hide QueueInv, ObservedInv, SourceInv, PhaseInv, HistoryInv, LogInv, PcInv, SelectActive, Admission.StatusUpdateAdmitted,
         Conditions.Aggregate, Conditions.ComputePhase, Top;
    Convergence.StatusRejectedIff(Live(s), s.configs[q], Snap(s).generation, now);
  }

  lemma AggregatingStep(s: State, q: nat, l: Label)
    requires Inv(s) && Aggregating(s, q) && Enabled(s, l) && Calm(s, l)
    ensures Aggregating(Do(s, l), q)
  {
    hide QueueInv, ObservedInv, RecordInv, SourceInv, PhaseInv, HistoryInv, PcInv, DoList, DoStore, SelectActive, Picks;
    match l
    case List => AggregatingList(s, q);
    case Store(now) => AggregatingStore(s, q, now);
    case _ =>
  }

  lemma {:induction false} AggregatingRun(s: State, q: nat, labels: seq<Label>)
    requires Inv(s) && Aggregating(s, q) && CanRun(s, labels) && CalmRun(s, labels)
    ensures Aggregating(After(s, labels), q)
    ensures After(s, labels).configs == s.configs
  {
    hide Inv, Aggregating, Enabled, Do, Calm;
    if labels != [] {
      var front := labels[..|labels| - 1];
      AggregatingRun(s, q, front);
      RunKeeps(s, front);
      AggregatingStep(After(s, front), q, labels[|labels| - 1]);
      AggregatingFrame(After(s, front), q, labels[|labels| - 1]);
    }
  }

  lemma StoreFrame(s: State, now: int)
    requires Enabled(s, Store(now))
    ensures DoStore(s, now).configs == s.configs
  {
  }

  lemma AggregatingFrame(s: State, q: nat, l: Label)
    requires Aggregating(s, q) && Enabled(s, l) && Calm(s, l)
    ensures Do(s, l).configs == s.configs
  {
    hide ListConfigs, NeedsNewConfig, NewConfig, SelectActive, DoStore, ListedSet, Admission.SpecUpdateAdmitted, Picks, Record;
    if l.Store? { StoreFrame(s, l.now); }
  }

  /** From an idle store that picks q, one uninterrupted reconcile records q. */
  lemma RecordPicked(s: State, q: nat) returns (labels: seq<Label>)
    requires Inv(s) && s.pc.Idle? && Live(s).spec.primaries == 0 && !Live(s).spec.ephemeral && Picks(s.configs, q)
    ensures CanRun(s, labels) && Held(labels)
    ensures var t := After(s, labels); t.log != [] && Record(Live(t).status) == Topology(s.configs[q].manifest.spec)
  {
    hide QueueInv, ObservedInv, RecordInv, SourceInv, PhaseInv, HistoryInv, CanRun, After, CalmRun, Picks;
    labels := OneReconcile(s);
    CalmIsHeld(s, labels);
    CalmFirst(s, labels);
    var t := Do(s, labels[0]);
    StepKeeps(s, labels[0]);
    assert Aggregating(t, q);
    AggregatingRun(t, q, labels[1..]);
  }

  /** From a store with a zero config z on top, wipe everything but q and z and crash there. */
  lemma IsolatePair(s: State, q: nat) returns (labels: seq<Label>)
    requires Inv(s) && s.pc.Idle? && Live(s).spec.primaries == 0 && ScaleToZero.TopZeroApplied(s.configs) && q in s.configs
    ensures CanRun(s, labels) && Held(labels)
    ensures var t := After(s, labels);
            t.pc.Idle? && t.configs.Keys == {q, Max(s.configs.Keys)} && Includes(t.configs, s.configs)
  {
    hide QueueInv, ObservedInv, RecordInv, SourceInv, PhaseInv, HistoryInv, PcInv, CanRun, After, CalmRun, ScaleToZero.TopZeroApplied;
    var l, z := Snapshot(|s.log| - 1), Max(s.configs.Keys);
    StepKeeps(s, l);
    OneStep(s, l);
    var t := Do(s, l);
    assert ScaleToZero.TearingDown(t, Record(Live(s).status));
    TopAppliedNonEmpty(s.configs);
    var a := GetWiping(t, Record(Live(s).status));
    CalmIsHeld(t, a);
    RunKeeps(t, a);
    var u := After(t, a);
    assert {q, z} <= u.configs.Keys;
    var b := WipeTo(u, {q, z});
    RunConcat(t, a, b);
    RunConcat(s, [l], a + b);
    RunKeeps(s, [l] + (a + b));
    CrashAfter(s, [l] + (a + b));
    labels := [l] + (a + b) + [Crash];
  }

  lemma TopAppliedNonEmpty(configs: map<nat, Config>)
    requires ScaleToZero.TopZeroApplied(configs)
    ensures configs != map[]
  {
  }

  /** The run: queue a zero config, let Robin apply it, start the teardown and crash with only q and the
      zero config left, let Robin report q Applied and the zero config pending again, reconcile. */
  lemma Drift(s: State, q: nat) returns (labels: seq<Label>)
    requires Inv(s) && s.pc.Idle? && ScaleToZero.ZeroSeen(s) && !Live(s).spec.ephemeral && q in s.configs && Recordable(s.configs[q])
    ensures CanRun(s, labels) && Held(labels)
    ensures var t := After(s, labels); t.log != [] && Record(Live(t).status) == Topology(s.configs[q].manifest.spec)
  {
    hide Inv, CanRun, After, Recordable;
    assert s.configs != map[];
    var a := GetZeroTop(s);
    NoSteps(s);
    var s1 := Advance(s, [], a);
    assert [] + a == a;
    assert s1.configs.Keys != {};
    var z := Max(s1.configs.Keys);
    ZeroTopIsAnother(s1, q);
    var b := Write(s1, z, APPLIED);
    var s2 := Advance(s, a, b);
    ScaleToZero.TopWritten(s1.configs, z, APPLIED);
    var c := IsolatePair(s2, q);
    var s3 := Advance(s, a + b, c);
    var d := Write(s3, z, PENDING);
    var s4 := Advance(s, a + b + c, d);
    var e := Write(s4, q, APPLIED);
    var s5 := Advance(s, a + b + c + d, e);
    PairPicks(s3.configs, q, z);
    var f := RecordPicked(s5, q);
    var s6 := Advance(s, a + b + c + d + e, f);
    labels := a + b + c + d + e + f;
  }

  lemma ZeroTopIsAnother(s: State, q: nat)
    requires s.configs != map[] && Top(s.configs).manifest.spec.primaries == 0 && q in s.configs && Recordable(s.configs[q])
    ensures q < Max(s.configs.Keys)
  {
    assert q in s.configs.Keys;
  }

  lemma PairPicks(configs: map<nat, Config>, q: nat, z: nat)
    requires configs.Keys == {q, z} && q < z && Recordable(configs[q]) && configs[z].manifest.spec.primaries == 0
    ensures var b := configs[z := configs[z].(status := PENDING)];
            Picks(b[q := b[q].(status := APPLIED)], q)
  {
    var b := configs[z := configs[z].(status := PENDING)];
    var c := b[q := b[q].(status := APPLIED)];
    assert c.Keys == {q, z};
    MaxIs(c.Keys, z);
    forall p | p in c ensures q <= p && !c[p].status.phase.ConfigPhaseInProgress? {
      assert p in c.Keys;
    }
  }

  // ---- Exactly when ----

  predicate RecordHolds(s: State, labels: seq<Label>)
    requires s.log != [] && CanRun(s, labels)
  {
    After(s, labels).log != [] && Record(Live(After(s, labels)).status) == Record(Live(s).status)
  }

  /** The lock's record is final exactly when no recordable config in the store has another topology.
      Take any reachable idle state of a cluster at zero whose zero generation the operator has read.
      The record stays what it is in every continuation without a user update if and only if the cluster
      is ephemeral or every recordable config still in the store has the recorded topology. Whether that
      record is the topology Robin applied last is another matter: an empty store makes any record final. */
  lemma RecordIsFinalIff(s: State)
    requires Inv(s) && s.pc.Idle? && ScaleToZero.ZeroSeen(s)
    ensures (forall labels | CanRun(s, labels) && Held(labels) :: RecordHolds(s, labels)) <==>
            (Live(s).spec.ephemeral || OnlyRecords(s.configs, Record(Live(s).status)))
  {
    hide Inv, CanRun, After, Recordable, OnlyRecords;
    var r := Record(Live(s).status);
    if Live(s).spec.ephemeral || OnlyRecords(s.configs, r) {
      forall labels | CanRun(s, labels) && Held(labels) ensures RecordHolds(s, labels) {
        PinnedRun(s, r, labels);
      }
    } else {
      var q := Offender(s.configs, r);
      var labels := Drift(s, q);
      assert !RecordHolds(s, labels);
    }
  }

  lemma Offender(configs: map<nat, Config>, r: (int, int)) returns (q: nat)
    requires !OnlyRecords(configs, r)
    ensures q in configs && Recordable(configs[q]) && Topology(configs[q].manifest.spec) != r
  {
    q :| q in configs && Recordable(configs[q]) && Topology(configs[q].manifest.spec) != r;
  }
}
