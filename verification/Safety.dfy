/** The invariant holds in every reachable state, step by step, and what it means. */
module Safety {
  import opened Types
  import opened Text
  import opened Queue
  import opened Protocol
  import Admission
  import Conditions

  // ---- The store and its list ----

  lemma StoreIsKeyed(configs: map<nat, Config>, cluster: string, floor: int, history: seq<Spec>)
    requires QueueInv(configs, cluster, floor, history)
    ensures Keyed(configs, cluster)
  {
    forall q | q in configs ensures configs[q].manifest.sequence == q && Labelled(configs[q], cluster) {
      assert Genuine(q, configs[q], cluster, floor, history);
    }
  }

  lemma ListMirrors(configs: map<nat, Config>, cluster: string)
    requires Keyed(configs, cluster)
    ensures var list := ListConfigs(configs, cluster);
            if configs == map[] then list == [] else Mirrors(list, configs) && list[|list| - 1] == Top(configs)
  {
    ListIsStore(configs, cluster);
    MirrorsExact(ListConfigs(configs, cluster), configs);
  }

  lemma MirrorsExact(list: seq<Config>, configs: map<nat, Config>)
    requires Sorted(list) && Keys(list) == configs.Keys && |list| == |configs|
    requires forall i | 0 <= i < |list| :: list[i].manifest.sequence in configs && list[i] == configs[list[i].manifest.sequence]
    ensures if configs == map[] then list == [] else Mirrors(list, configs) && list[|list| - 1] == Top(configs)
  {
    if configs != map[] {
      LastIsTop(list, configs);
    }
  }

  lemma LastIsTop(list: seq<Config>, configs: map<nat, Config>)
    requires Mirrors(list, configs)
    ensures configs != map[] && Same(list[|list| - 1], Top(configs))
    ensures list[|list| - 1].manifest.sequence == Max(configs.Keys)
  {
    var last := list[|list| - 1];
    assert last.manifest.sequence in configs.Keys;
    forall k | k in configs.Keys ensures k <= last.manifest.sequence {
      var i := IndexOfKey(list, k);
      if i < |list| - 1 { assert Below(list, i, |list| - 1); }
    }
    MaxIs(configs.Keys, last.manifest.sequence);
  }

  lemma TopIsNewest(configs: map<nat, Config>)
    requires Increasing(configs) && configs != map[]
    ensures Max(configs.Keys) in configs
    ensures forall q | q in configs :: q <= Max(configs.Keys) && Gen(configs[q]) <= Gen(Top(configs))
  {
    forall q | q in configs ensures q <= Max(configs.Keys) && Gen(configs[q]) <= Gen(Top(configs)) {
      assert q in configs.Keys;
      if q < Max(configs.Keys) { assert Older(configs, q, Max(configs.Keys)); }
    }
  }

  lemma TopIsGenuine(configs: map<nat, Config>, cluster: string, floor: int, history: seq<Spec>)
    requires QueueInv(configs, cluster, floor, history) && configs != map[]
    ensures Genuine(Max(configs.Keys), Top(configs), cluster, floor, history)
  {
    assert Max(configs.Keys) in configs;
  }

  lemma MaxIs(ks: set<nat>, m: nat)
    requires m in ks && forall k | k in ks :: k <= m
    ensures Max(ks) == m
  {
  }

  lemma HigherFloor(configs: map<nat, Config>, cluster: string, floor: int, floor': int, history: seq<Spec>, history': seq<Spec>)
    requires QueueInv(configs, cluster, floor, history) && floor <= floor' && history <= history'
    ensures QueueInv(configs, cluster, floor', history')
  {
    forall q | q in configs ensures Genuine(q, configs[q], cluster, floor', history') {
      assert Genuine(q, configs[q], cluster, floor, history);
    }
  }

  // ---- Steps of the environment ----

  /** A version appended to the log: its generation is the last, its claim is covered. */
  lemma AppendVersion(log: seq<Redkey>, seen: nat, history: seq<Spec>, history': seq<Spec>, r: Redkey)
    requires LogInv(log, seen, history) && history <= history' && |history'| <= MAX_INT64
    requires r.generation == |history'| && Stored(r, log[seen].generation, history')
    ensures LogInv(log + [r], seen, history')
  {
    var log' := log + [r];
    forall k | 0 <= k < |log'| ensures Stored(log'[k], log'[seen].generation, history') {
      if k < |log| { assert Stored(log[k], log[seen].generation, history); }
    }
    forall j: nat, k: nat | j <= k < |log'| ensures NoLater(log', j, k) {
      if k < |log| { assert NoLater(log, j, k); }
      if j < |log| { assert Stored(log[j], log[seen].generation, history); }
    }
  }

  lemma AppendClaim(log: seq<Redkey>, seen: nat, configs: map<nat, Config>, r: Redkey)
    requires ObservedInv(log, seen, configs) && (Claims(r) ==> TopIs(configs, r.generation))
    ensures ObservedInv(log + [r], seen, configs)
  {
  }

  lemma UserUpdateKeeps(s: State, spec: Spec)
    requires Inv(s) && Enabled(s, UserUpdate(spec))
    ensures Inv(Do(s, UserUpdate(spec)))
  {
    var t := Do(s, UserUpdate(spec));
    var floor := Snap(s).generation;
    assert Stored(Live(s), floor, s.history);
    assert Stored(Snap(s), floor, s.history);
    AppendVersion(s.log, s.seen, s.history, t.history, Live(t));
    AppendClaim(s.log, s.seen, s.configs, Live(t));
    HigherFloor(s.configs, s.cluster, floor, floor, s.history, t.history);
    HistoryGrows(s.history, Live(s), spec);
  }

  lemma HistoryGrows(history: seq<Spec>, live: Redkey, spec: Spec)
    requires HistoryInv(history) && live.generation == |history| > 0 && live.spec == history[|history| - 1]
    requires Admission.SpecUpdateAdmitted(live, spec)
    ensures HistoryInv(history + [spec])
  {
    assert Admission.SameKind(history[0], live.spec);
    Admission.AdmittedKeepsKind(live, spec);
  }

  lemma TouchKeeps(s: State)
    requires Inv(s)
    ensures Inv(s.(log := s.log + [Live(s)]))
  {
    assert Stored(Live(s), Snap(s).generation, s.history);
    AppendVersion(s.log, s.seen, s.history, s.history, Live(s));
    AppendClaim(s.log, s.seen, s.configs, Live(s));
  }

  /** Only statuses differ. */
  predicate Restatused(a: map<nat, Config>, b: map<nat, Config>) {
    a.Keys == b.Keys && forall q | q in a :: Same(b[q], a[q])
  }

  lemma SameGen(a: Config, b: Config)
    requires Same(a, b)
    ensures Gen(a) == Gen(b)
  {
  }

  lemma RestatusedTop(a: map<nat, Config>, b: map<nat, Config>)
    requires Restatused(a, b) && a != map[]
    ensures b != map[] && Same(Top(b), Top(a)) && Gen(Top(b)) == Gen(Top(a))
  {
    assert a.Keys != {};
    assert Max(a.Keys) in a;
    assert b.Keys != {};
    SameGen(Top(b), Top(a));
  }

  lemma RestatusedQueue(a: map<nat, Config>, b: map<nat, Config>, cluster: string, floor: int, history: seq<Spec>, source: int)
    requires Restatused(a, b) && QueueInv(a, cluster, floor, history) && SourceInv(source, a)
    ensures QueueInv(b, cluster, floor, history) && SourceInv(source, b)
  {
    hide Gen;
    forall q | q in b ensures Gen(b[q]) == Gen(a[q]) && Genuine(q, b[q], cluster, floor, history) {
      assert Genuine(q, a[q], cluster, floor, history);
      SameGen(b[q], a[q]);
    }
  }

  lemma RestatusedObserved(a: map<nat, Config>, b: map<nat, Config>, log: seq<Redkey>, seen: nat)
    requires Restatused(a, b) && ObservedInv(log, seen, a)
    ensures ObservedInv(log, seen, b)
  {
    if a != map[] { RestatusedTop(a, b); }
  }

  lemma RestatusedMirrors(list: seq<Config>, a: map<nat, Config>, b: map<nat, Config>)
    requires Restatused(a, b) && Mirrors(list, a)
    ensures Mirrors(list, b)
  {
  }

  lemma RestatusedNext(next: Next, a: map<nat, Config>, b: map<nat, Config>, snap: Redkey)
    requires Restatused(a, b) && NextInv(next, a, snap)
    ensures NextInv(next, b, snap)
  {
    if a != map[] { RestatusedTop(a, b); }
    if next.ThenFetch? { RestatusedMirrors(next.list, a, b); }
  }

  lemma RestatusedPc(pc: Pc, a: map<nat, Config>, b: map<nat, Config>, snap: Redkey)
    requires Restatused(a, b) && PcInv(pc, a, snap)
    ensures PcInv(pc, b, snap)
  {
    if a != map[] { RestatusedTop(a, b); } else { assert b.Keys == {}; }
    match pc
    case Cleaning(list, i) => RestatusedMirrors(list[i..], a, b);
    case Fetching(list) => RestatusedMirrors(list, a, b);
    case Storing(list, _) => RestatusedMirrors(list, a, b);
    case Ensuring(_, next) => RestatusedNext(next, a, b, snap);
    case _ =>
  }

  lemma RobinWriteKeeps(s: State, q: nat, status: ConfigStatus)
    requires Inv(s) && q in s.configs
    ensures Inv(s.(configs := s.configs[q := s.configs[q].(status := status)]))
  {
    hide QueueInv, ObservedInv, RecordInv, SourceInv, PhaseInv, HistoryInv, PcInv;
    var configs := s.configs[q := s.configs[q].(status := status)];
    assert Restatused(s.configs, configs);
    RestatusedQueue(s.configs, configs, s.cluster, Snap(s).generation, s.history, s.source);
    RestatusedObserved(s.configs, configs, s.log, s.seen);
    RestatusedPc(s.pc, s.configs, configs, Snap(s));
  }

  // ---- Steps of the operator ----

  lemma SnapshotKeeps(s: State, k: nat)
    requires Inv(s) && s.seen <= k < |s.log|
    ensures Inv(DoSnapshot(s, k))
  {
    var t := DoSnapshot(s, k);
    var floor, floor' := Snap(s).generation, Snap(t).generation;
    assert NoLater(s.log, s.seen, k);
    forall j | 0 <= j < |t.log| ensures Stored(t.log[j], floor', t.history) { assert Stored(s.log[j], floor, s.history); }
    HigherFloor(s.configs, s.cluster, floor, floor', s.history, s.history);
  }

  lemma EnsureKeeps(s: State)
    requires Inv(s) && Enabled(s, Ensure)
    ensures Inv(DoEnsure(s))
  {
    hide QueueInv, ObservedInv, RecordInv, SourceInv, PhaseInv, HistoryInv, FetchInv, HighestInv;
  }

  /** A normal reconcile that decides not to create already has the config of its generation. */
  lemma NoCreateMeansCurrent(s: State)
    requires Inv(s) && s.configs != map[] && Snap(s).spec.primaries != 0
    requires !NeedsNewConfig(Snap(s).generation, Snap(s).status.observed, Some(Top(s.configs)))
    ensures TopIs(s.configs, Snap(s).generation)
  {
    TopIsGenuine(s.configs, s.cluster, Snap(s).generation, s.history);
    if Gen(Top(s.configs)) < Snap(s).generation {
      assert Claims(s.log[s.seen]);
    }
  }

  lemma NeededMeansOlder(snap: Redkey, latest: Config)
    requires 1 <= snap.generation && NeedsNewConfig(snap.generation, snap.status.observed, Some(latest))
    ensures Gen(latest) < snap.generation
  {
  }

  /** Case B: a non-zero highest config belongs to an older generation than the zero snapshot. */
  lemma NonZeroTopIsOlder(s: State)
    requires LogInv(s.log, s.seen, s.history) && QueueInv(s.configs, s.cluster, Snap(s).generation, s.history)
    requires s.configs != map[] && Snap(s).spec.primaries == 0 && Top(s.configs).manifest.spec.primaries != 0
    ensures Gen(Top(s.configs)) < Snap(s).generation
  {
    TopIsGenuine(s.configs, s.cluster, Snap(s).generation, s.history);
    assert Stored(Snap(s), Snap(s).generation, s.history);
  }

  lemma ListPc(s: State)
    requires Inv(s) && s.pc.Listing?
    ensures PcInv(DoList(s).pc, s.configs, Snap(s))
  {
    hide ObservedInv, RecordInv, SourceInv, PhaseInv, HistoryInv, QueueInv, ListConfigs, Mirrors, NeedsNewConfig, Gen;
    StoreIsKeyed(s.configs, s.cluster, Snap(s).generation, s.history);
    ListMirrors(s.configs, s.cluster);
    var list := ListConfigs(s.configs, s.cluster);
    if s.configs != map[] {
      assert list[0..] == list;
      assert Highest(list) == Some(Top(s.configs));
      if Snap(s).spec.primaries == 0 {
        if Top(s.configs).manifest.spec.primaries != 0 { NonZeroTopIsOlder(s); }
      } else if DoList(s).pc.Cleaning? {
        NoCreateMeansCurrent(s);
      } else {
        assert Stored(Snap(s), Snap(s).generation, s.history);
        NeededMeansOlder(Snap(s), Top(s.configs));
      }
    }
  }

  /** The new config: a fresh key above all others, built for the snapshot's generation. */
  lemma CreateAddsTop(s: State)
    requires LogInv(s.log, s.seen, s.history) && QueueInv(s.configs, s.cluster, Snap(s).generation, s.history)
    requires s.pc.Creating? && HighestInv(s.pc.highest, s.configs, Snap(s))
    ensures var c := NewConfig(s.cluster, Snap(s).generation, Snap(s).spec, s.pc.highest);
            && c.manifest.sequence !in s.configs
            && (forall q | q in s.configs :: q < c.manifest.sequence && Gen(s.configs[q]) < Gen(c))
            && Gen(c) == Snap(s).generation
            && DoCreate(s).configs == s.configs[c.manifest.sequence := c]
            && Top(DoCreate(s).configs) == c
            && Genuine(c.manifest.sequence, c, s.cluster, Snap(s).generation, s.history)
  {
    var c := NewConfig(s.cluster, Snap(s).generation, Snap(s).spec, s.pc.highest);
    assert Stored(Snap(s), Snap(s).generation, s.history);
    NewConfigReadsBack(s.cluster, Snap(s).generation, Snap(s).spec, s.pc.highest);
    if s.configs != map[] {
      TopIsNewest(s.configs);
      TopIsGenuine(s.configs, s.cluster, Snap(s).generation, s.history);
      SameGen(s.pc.highest.value, Top(s.configs));
    }
    var configs := s.configs[c.manifest.sequence := c];
    assert c.manifest.sequence in configs.Keys;
    MaxIs(configs.Keys, c.manifest.sequence);
  }

  lemma SourceIsSeen(status: Status, source: int, floor: int, history: seq<Spec>)
    requires RecordInv(status, source, floor, history) && 0 <= floor
    ensures source <= floor
  {
  }

  lemma AddTop(configs: map<nat, Config>, c: Config, cluster: string, floor: int, history: seq<Spec>, source: int)
    requires QueueInv(configs, cluster, floor, history) && SourceInv(source, configs)
    requires forall q | q in configs :: q < c.manifest.sequence && Gen(configs[q]) < Gen(c)
    requires Genuine(c.manifest.sequence, c, cluster, floor, history) && source <= Gen(c)
    ensures QueueInv(configs[c.manifest.sequence := c], cluster, floor, history)
    ensures SourceInv(source, configs[c.manifest.sequence := c])
  {
  }

  lemma ClaimsAtFloor(s: State, k: nat)
    requires LogInv(s.log, s.seen, s.history) && s.seen <= k < |s.log| && Claims(s.log[k])
    ensures s.log[k].generation == Snap(s).generation && Snap(s).spec.primaries != 0
  {
    assert NoLater(s.log, s.seen, k);
    assert Stored(s.log[k], Snap(s).generation, s.history);
    assert Stored(s.log[s.seen], Snap(s).generation, s.history);
  }

  /** Any store that has the snapshot's config, or any store at all under a zero snapshot, covers the
      claims of every version still readable. */
  lemma CoversFloor(s: State, configs: map<nat, Config>)
    requires LogInv(s.log, s.seen, s.history)
    requires Snap(s).spec.primaries == 0 || TopIs(configs, Snap(s).generation)
    ensures ObservedInv(s.log, s.seen, configs)
  {
    forall k | s.seen <= k < |s.log| && Claims(s.log[k]) ensures TopIs(configs, s.log[k].generation) {
      ClaimsAtFloor(s, k);
    }
  }

  lemma CreateKeeps(s: State)
    requires Inv(s) && s.pc.Creating?
    ensures Inv(DoCreate(s))
  {
    hide QueueInv, ObservedInv, RecordInv, SourceInv, PhaseInv, Genuine, NewConfig;
    var t := DoCreate(s);
    var c := NewConfig(s.cluster, Snap(s).generation, Snap(s).spec, s.pc.highest);
    CreateAddsTop(s);
    SourceIsSeen(Live(s).status, s.source, Snap(s).generation, s.history);
    AddTop(s.configs, c, s.cluster, Snap(s).generation, s.history, s.source);
    CoversFloor(s, t.configs);
  }

  lemma RelistPc(s: State)
    requires Inv(s) && s.pc.Relisting?
    ensures PcInv(DoRelist(s).pc, s.configs, Snap(s))
  {
    StoreIsKeyed(s.configs, s.cluster, Snap(s).generation, s.history);
    ListMirrors(s.configs, s.cluster);
    var list := ListConfigs(s.configs, s.cluster);
    assert list[0..] == list;
  }

  /** Removing keys: what stays is what it was. */
  lemma RemoveKeepsQueue(configs: map<nat, Config>, q: nat, cluster: string, floor: int, history: seq<Spec>, source: int)
    requires QueueInv(configs, cluster, floor, history) && SourceInv(source, configs)
    ensures QueueInv(configs - {q}, cluster, floor, history) && SourceInv(source, configs - {q})
  {
    var rest := configs - {q};
    forall r | r in rest ensures Genuine(r, rest[r], cluster, floor, history) {
      assert Genuine(r, configs[r], cluster, floor, history);
    }
  }

  lemma RemoveKeepsTop(configs: map<nat, Config>, q: nat)
    requires configs != map[] && q != Max(configs.Keys)
    ensures configs - {q} != map[] && Top(configs - {q}) == Top(configs)
  {
    var m := Max(configs.Keys);
    assert m in configs.Keys - {q};
    assert (configs - {q}).Keys == configs.Keys - {q};
    MaxIs((configs - {q}).Keys, m);
  }

  lemma MirrorsTail(list: seq<Config>, configs: map<nat, Config>)
    requires Mirrors(list, configs) && |list| > 1
    ensures Mirrors(list[1..], configs - {list[0].manifest.sequence})
    ensures list[0].manifest.sequence in configs && list[0].manifest.sequence != Max(configs.Keys)
  {
    KeysOfTail(list);
    LastIsTop(list, configs);
    assert Below(list, 0, |list| - 1);
    assert (configs - {list[0].manifest.sequence}).Keys == configs.Keys - {list[0].manifest.sequence};
    forall i | 0 <= i < |list| - 1
      ensures list[1..][i].manifest.sequence != list[0].manifest.sequence
    {
      assert Below(list, 0, i + 1);
    }
  }

  lemma CleanPc(list: seq<Config>, i: nat, configs: map<nat, Config>, snap: Redkey)
    requires i < CleanupCount(list) && PcInv(Cleaning(list, i), configs, snap)
    ensures PcInv(Cleaning(list, i + 1), configs - {list[i].manifest.sequence}, snap)
  {
    var rest := list[i..];
    MirrorsTail(rest, configs);
    assert rest[1..] == list[i + 1..];
    RemoveKeepsTop(configs, list[i].manifest.sequence);
  }

  lemma CleanKeeps(s: State)
    requires Inv(s) && Enabled(s, Clean)
    ensures Inv(DoClean(s))
  {
    hide QueueInv, ObservedInv, RecordInv, SourceInv, PhaseInv, HistoryInv, Mirrors, TopIs, Gen, CleanupCount;
    var list, i := s.pc.list, s.pc.done;
    if i < CleanupCount(list) {
      CleanPc(list, i, s.configs, Snap(s));
      RemoveKeepsQueue(s.configs, list[i].manifest.sequence, s.cluster, Snap(s).generation, s.history, s.source);
      CoversFloor(s, s.configs - {list[i].manifest.sequence});
    }
  }

  /** A recorded active config is the oldest in the store. */
  lemma RecordedIsOldest(configs: map<nat, Config>, list: seq<Config>)
    requires Increasing(configs) && Mirrors(list, configs) && SelectActive(list).status.phase.ConfigPhaseApplied?
    ensures var c := SelectActive(list);
            && c.manifest.sequence in configs && Same(c, configs[c.manifest.sequence]) && Gen(c) == Gen(configs[c.manifest.sequence])
            && (forall q | q in configs :: c.manifest.sequence <= q && Gen(c) <= Gen(configs[q]))
  {
    var c := list[0];
    SameGen(c, configs[c.manifest.sequence]);
    forall q | q in configs ensures c.manifest.sequence <= q {
      var i := IndexOfKey(list, q);
      FirstIsLowest(list, i);
    }
    forall q | q in configs ensures Gen(c) <= Gen(configs[q]) {
      if c.manifest.sequence < q { assert Older(configs, c.manifest.sequence, q); }
    }
  }

  /** A config in the store carries the topology of an admitted spec of the same kind. */
  lemma GenuineTopology(s: State, c: Config)
    requires LogInv(s.log, s.seen, s.history) && HistoryInv(s.history)
    requires Genuine(c.manifest.sequence, c, s.cluster, Snap(s).generation, s.history)
    ensures var spec := s.history[Gen(c) - 1];
            && Topology(c.manifest.spec) == (spec.primaries, spec.replicas)
            && spec.ephemeral == Live(s).spec.ephemeral
  {
    hide Gen;
    assert Stored(Live(s), Snap(s).generation, s.history);
    assert Admission.SameKind(s.history[0], Live(s).spec) && Admission.SameKind(s.history[0], s.history[Gen(c) - 1]);
  }

  function NewSource(s: State, active: Config): int
    requires s.log != []
  {
    if Records(Live(s), active) then Gen(active) else s.source
  }

  /** What the aggregate writer records comes from a genuine, non-zero, Applied config, the oldest in
      the store and no older than the previous source. */
  lemma StoreRecords(s: State, now: int)
    requires Inv(s) && Enabled(s, Store(now))
    ensures var active := SelectActive(s.pc.list);
            var status := AggregatedStatus(Live(s), active, Snap(s).generation, now);
            && s.source <= NewSource(s, active)
            && SourceInv(NewSource(s, active), s.configs)
            && (Admission.StatusFits(status) ==> RecordInv(status, NewSource(s, active), Snap(s).generation, s.history))
  {
    hide Gen, LogInv, HistoryInv, ObservedInv, PhaseInv, Mirrors, SelectActive, Conditions.Aggregate;
    var active := SelectActive(s.pc.list);
    if Records(Live(s), active) {
      RecordedIsOldest(s.configs, s.pc.list);
      var c := s.configs[active.manifest.sequence];
      assert Genuine(active.manifest.sequence, c, s.cluster, Snap(s).generation, s.history);
      GenuineTopology(s, c);
    }
  }

  lemma AggregatedPhase(live: Redkey, active: Config, observed: int, now: int)
    ensures PhaseInv(AggregatedStatus(live, active, observed, now))
    ensures AggregatedStatus(live, active, observed, now).phase == Conditions.PhaseOf(active)
  {
    Conditions.PhaseAfterAggregate(live.status.conditions, active, now);
  }

  /** A status write appends a version of the live generation whose claim is the snapshot's. */
  lemma StatusVersion(s: State, status: Status)
    requires LogInv(s.log, s.seen, s.history) && status.observed == Snap(s).generation
    requires Snap(s).spec.primaries == 0 || TopIs(s.configs, Snap(s).generation)
    ensures LogInv(s.log + [Live(s).(status := status)], s.seen, s.history)
    ensures ObservedInv(s.log + [Live(s).(status := status)], s.seen, s.configs)
  {
    var r := Live(s).(status := status);
    assert Stored(Live(s), Snap(s).generation, s.history);
    AppendVersion(s.log, s.seen, s.history, s.history, r);
    CoversFloor(s.(log := s.log + [r]), s.configs);
  }

  lemma StoreKeeps(s: State, now: int)
    requires Inv(s) && Enabled(s, Store(now))
    ensures Inv(DoStore(s, now))
  {
    hide QueueInv, ObservedInv, RecordInv, SourceInv, PhaseInv, HistoryInv, LogInv;
    var t := DoStore(s, now);
    if t.log != s.log {
      var active := SelectActive(s.pc.list);
      var status := AggregatedStatus(Live(s), active, Snap(s).generation, now);
      StatusVersion(s, status);
      AggregatedPhase(Live(s), active, Snap(s).generation, now);
      StoreRecords(s, now);
      assert Live(t) == Live(s).(status := status);
    }
  }

  lemma WipeListKeeps(s: State)
    requires Inv(s) && Enabled(s, WipeList)
    ensures Inv(Do(s, WipeList))
  {
    hide QueueInv, ObservedInv, RecordInv, SourceInv, PhaseInv, HistoryInv;
    StoreIsKeyed(s.configs, s.cluster, Snap(s).generation, s.history);
    assert ListedSet(s) == s.configs.Keys;
  }

  lemma WipeKeeps(s: State, q: nat)
    requires Inv(s) && Enabled(s, Wipe(q))
    ensures Inv(DoWipe(s, q))
  {
    hide QueueInv, ObservedInv, RecordInv, SourceInv, PhaseInv, HistoryInv;
    var t := DoWipe(s, q);
    assert t.configs.Keys == s.configs.Keys - {q};
    RemoveKeepsQueue(s.configs, q, s.cluster, Snap(s).generation, s.history, s.source);
    CoversFloor(s, t.configs);
  }

  lemma ZeroKeeps(s: State, now: int)
    requires Inv(s) && s.pc.Zeroing?
    ensures Inv(DoZero(s, now))
  {
    hide QueueInv, ObservedInv, SourceInv, HistoryInv;
    var t := DoZero(s, now);
    if t.log != s.log {
      StatusVersion(s, ZeroedStatus(Snap(s), now));
      Conditions.PhaseAfterZero(Snap(s).status.conditions, now);
    }
  }

  // ---- Every run ----

  lemma StepKeeps(s: State, l: Label)
    requires Inv(s) && Enabled(s, l)
    ensures Inv(Do(s, l))
  {
    hide QueueInv, ObservedInv, RecordInv, SourceInv, PhaseInv, HistoryInv, LogInv;
    match l
    case UserUpdate(spec) => UserUpdateKeeps(s, spec);
    case Touch => TouchKeeps(s);
    case RobinWrite(q, status) => RobinWriteKeeps(s, q, status);
    case Crash =>
    case Snapshot(k) => SnapshotKeeps(s, k);
    case Ensure => EnsureKeeps(s);
    case List => ListPc(s);
    case Create => CreateKeeps(s);
    case Relist => RelistPc(s);
    case Clean => CleanKeeps(s);
    case Fetch(k) =>
    case Store(now) => StoreKeeps(s, now);
    case Tear =>
    case WipeList => WipeListKeeps(s);
    case Wipe(q) => WipeKeeps(s, q);
    case Zero(now) => ZeroKeeps(s, now);
  }

  lemma {:induction false} RunKeeps(s: State, labels: seq<Label>)
    requires Inv(s) && CanRun(s, labels)
    ensures Inv(After(s, labels))
  {
    if labels != [] {
      RunKeeps(s, labels[..|labels| - 1]);
      StepKeeps(After(s, labels[..|labels| - 1]), labels[|labels| - 1]);
    }
  }

  /** Every state reachable from a freshly created Redkey satisfies the invariant, whatever the user,
      Robin, crashes and lagging reads do. */
  lemma Safe(cluster: string, spec: Spec, labels: seq<Label>)
    requires Admission.StaticRules(spec) && CanRun(Initial(cluster, spec), labels)
    ensures Inv(After(Initial(cluster, spec), labels))
  {
    RunKeeps(Initial(cluster, spec), labels);
  }
}
