/** The scale-from-zero topology lock over whole runs: what an admitted scale-up restores, exactly which
    topology it is forced to, why the lock never strands a cluster, and when it is race-free. */
module Lock {
  import opened Types
  import opened Queue
  import opened Protocol
  import opened Safety
  import opened CalmRuns
  import Admission
  import Conditions
  import Convergence

  function Pair(spec: Spec): (int, int) {
    (spec.primaries, spec.replicas)
  }

  lemma KindOfHistory(s: State)
    requires LogInv(s.log, s.seen, s.history) && HistoryInv(s.history)
    ensures Admission.StaticRules(Live(s).spec) && Live(s).generation == |s.history|
    ensures forall g | 0 <= g < |s.history| ::
              Admission.StaticRules(s.history[g]) && s.history[g].mode == Live(s).spec.mode && s.history[g].ephemeral == Live(s).spec.ephemeral
  {
    assert Stored(Live(s), Snap(s).generation, s.history);
    var live := Live(s).spec;
    assert Admission.SameKind(s.history[0], live);
  }

  /** At any interleaving point, an admitted update of a storage cluster from zero to non-zero primaries
      restores exactly the recorded pair, which is the pair of an earlier admitted generation. */
  lemma ScaleUpRestoresRecord(s: State, spec: Spec)
    requires Inv(s) && Enabled(s, UserUpdate(spec))
    requires Live(s).spec.primaries == 0 && spec.primaries != 0 && Live(s).status.lastPrimaries != 0
    ensures !spec.ephemeral && Pair(spec) == Record(Live(s).status)
    ensures 1 <= s.source < Live(s).generation && Pair(spec) == Pair(s.history[s.source - 1])
  {
    hide QueueInv, ObservedInv, SourceInv, PhaseInv, PcInv, Admission.LockRules;
    KindOfHistory(s);
    assert Stored(Live(s), Snap(s).generation, s.history);
    Admission.LockIsPlainComparison(Live(s), Live(s).(spec := spec));
  }

  /** Without a record: a scale-up to any pair the mode allows is admitted exactly when the cluster is
      ephemeral or has a status. So a storage cluster created at zero cannot be scaled up before the
      operator's first status write, and can be scaled up to anything after it. */
  lemma NoRecordOpenIff(s: State, spec: Spec)
    requires Inv(s) && Live(s).spec.primaries == 0 && Live(s).status.lastPrimaries == 0 && spec.primaries != 0
    requires Admission.StaticRules(spec) && Admission.TransitionRules(Live(s).spec, spec)
    ensures Admission.SpecUpdateAdmitted(Live(s), spec) <==> spec.ephemeral || Admission.Written(Live(s).status)
  {
    hide QueueInv, ObservedInv, SourceInv, PhaseInv, PcInv;
    Admission.LockIsPlainComparison(Live(s), Live(s).(spec := spec));
  }

  /** The lock never strands a cluster: in every reachable zero state with a record, setting primaries
      and replicas to the recorded pair passes every rule, standalone limits included, because the
      record came from an admitted spec of the same mode and storage kind. */
  lemma LockNeverStrands(s: State)
    requires Inv(s) && Live(s).spec.primaries == 0 && Live(s).status.lastPrimaries != 0
    ensures var r := Record(Live(s).status);
            Admission.SpecUpdateAdmitted(Live(s), Live(s).spec.(primaries := r.0, replicas := r.1))
  {
    hide QueueInv, ObservedInv, SourceInv, PhaseInv, PcInv;
    KindOfHistory(s);
    var r := Record(Live(s).status);
    assert Pair(s.history[s.source - 1]) == r;
  }

  /** What the lock protects. In every reachable state of a storage cluster at zero, and for every
      topology T: a scale-up is forced to T exactly when T is on record, when the cluster has no status
      yet and nothing is admitted at all, or when there is no record and the mode leaves no choice. */
  lemma ScaleUpForcedIff(s: State, topology: (int, int))
    requires Inv(s) && Live(s).spec.primaries == 0 && !Live(s).spec.ephemeral && topology.0 > 0
    ensures Forced(Live(s), topology) <==>
            || Record(Live(s).status) == topology
            || !Admission.Written(Live(s).status)
            || (Live(s).status.lastPrimaries == 0 && Live(s).spec.mode.ModeStandalone? && topology == (1, 0))
  {
    hide QueueInv, ObservedInv, SourceInv, PhaseInv, PcInv, Admission.LockRules;
    KindOfHistory(s);
    var live := Live(s);
    forall spec: Spec ensures var now := live.(spec := spec); Admission.LockRules(live, now) <==>
        (!spec.ephemeral && live.spec.primaries == 0 && spec.primaries != 0 ==>
           && Admission.Written(live.status)
           && (live.status.lastPrimaries != 0 ==> Pair(spec) == Record(live.status)))
    {
      Admission.LockIsPlainComparison(live, live.(spec := spec));
    }
    if live.status.lastPrimaries != 0 {
      LockNeverStrands(s);
      var back := live.spec.(primaries := Record(live.status).0, replicas := Record(live.status).1);
      assert Forced(live, topology) ==> Pair(back) == topology;
    } else if Admission.Written(live.status) {
      var one, two := live.spec.(primaries := 1, replicas := 0), live.spec.(primaries := 2, replicas := 0);
      assert Admission.SpecUpdateAdmitted(live, one);
      assert live.spec.mode.ModeCluster? ==> Admission.SpecUpdateAdmitted(live, two);
      assert Pair(one) != Pair(two);
    }
  }

  /** Every admitted update to a non-zero spec has this topology. */
  ghost predicate Forced(live: Redkey, topology: (int, int)) {
    forall spec: Spec | Admission.SpecUpdateAdmitted(live, spec) && spec.primaries != 0 :: Pair(spec) == topology
  }

  // ---- Race-free while the topology is settled ----

  predicate Agrees(pair: (int, int), r: (int, int)) {
    pair.0 != 0 ==> pair == r
  }

  /** A storage cluster whose record, readable versions and configs all have the one topology r or none. */
  predicate Steady(s: State, r: (int, int)) {
    && s.log != [] && s.seen < |s.log| && r.0 != 0
    && Record(Live(s).status) == r
    && (forall k | s.seen <= k < |s.log| :: Agrees(Pair(s.log[k].spec), r))
    && (forall q | q in s.configs :: Agrees(Topology(s.configs[q].manifest.spec), r))
  }

  /** The user may do anything at zero, and at r may only stay at r or go to zero. */
  predicate KeepsTopology(s: State, l: Label, r: (int, int)) {
    s.log != [] && l.UserUpdate? && Live(s).spec.primaries != 0 ==> Agrees(Pair(l.spec), r)
  }

  lemma SteadyUpdate(s: State, r: (int, int), spec: Spec)
    requires Inv(s) && Steady(s, r) && Enabled(s, UserUpdate(spec)) && KeepsTopology(s, UserUpdate(spec), r)
    ensures Steady(Do(s, UserUpdate(spec)), r)
  {
    hide QueueInv, ObservedInv, SourceInv, PhaseInv, PcInv;
    var t := Do(s, UserUpdate(spec));
    if Live(s).spec.primaries == 0 && spec.primaries != 0 { ScaleUpRestoresRecord(s, spec); }
    forall k | t.seen <= k < |t.log| ensures Agrees(Pair(t.log[k].spec), r) {
      if k < |s.log| { assert Agrees(Pair(s.log[k].spec), r); }
    }
  }

  /** A status write appends a version with the live spec. */
  lemma SteadyAppend(s: State, t: State, r: (int, int))
    requires Steady(s, r) && t.log != [] && t.seen == s.seen && t.configs == s.configs
    requires t.log == s.log + [Live(s).(status := Live(t).status)] && Record(Live(t).status) == r
    ensures Steady(t, r)
  {
    forall k | t.seen <= k < |t.log| ensures Agrees(Pair(t.log[k].spec), r) {
      if k < |s.log| { assert Agrees(Pair(s.log[k].spec), r); } else { assert Agrees(Pair(s.log[|s.log| - 1].spec), r); }
    }
  }

  lemma SteadyStore(s: State, r: (int, int), now: int)
    requires Inv(s) && Steady(s, r) && Enabled(s, Store(now))
    ensures Steady(DoStore(s, now), r)
  {
    hide LogInv, HistoryInv, ObservedInv, PhaseInv, SourceInv, RecordInv, Mirrors, SelectActive, Gen, Agrees, Conditions.Aggregate, Conditions.ComputePhase, Admission.StatusUpdateAdmitted;
    var t := DoStore(s, now);
    var active := SelectActive(s.pc.list);
    if t.log != s.log {
      if Records(Live(s), active) {
        RecordedIsOldest(s.configs, s.pc.list);
        assert Agrees(Topology(s.configs[active.manifest.sequence].manifest.spec), r);
        AgreesNonZero(active, s.configs[active.manifest.sequence], r);
      }
      SteadyAppend(s, t, r);
    }
  }

  lemma AgreesNonZero(a: Config, c: Config, r: (int, int))
    requires Same(a, c) && Agrees(Topology(c.manifest.spec), r) && a.manifest.spec.primaries > 0
    ensures Topology(a.manifest.spec) == r
  {
  }

  lemma SteadyCreate(s: State, r: (int, int))
    requires Steady(s, r) && s.pc.Creating?
    ensures Steady(DoCreate(s), r)
  {
    hide NewConfig;
    NewConfigFields(s.cluster, Snap(s).generation, Snap(s).spec, s.pc.highest);
    assert Agrees(Pair(s.log[s.seen].spec), r);
  }

  lemma SteadyStep(s: State, r: (int, int), l: Label)
    requires Inv(s) && Steady(s, r) && Enabled(s, l) && KeepsTopology(s, l, r)
    ensures Steady(Do(s, l), r)
  {
    hide Inv, DoStore, DoCreate, ListConfigs, NeedsNewConfig, Agrees, Conditions.SetAll, Admission.StatusUpdateAdmitted, Admission.SpecUpdateAdmitted;
    match l
    case UserUpdate(spec) => SteadyUpdate(s, r, spec);
    case Touch => SteadyAppend(s, Do(s, Touch), r);
    case Store(now) => SteadyStore(s, r, now);
    case Create => SteadyCreate(s, r);
    case Zero(now) =>
      var t := Do(s, l);
      if t.log != s.log { SteadyAppend(s, t, r); }
    case _ =>
  }

  /** Every label keeps the topology in the state it is taken in. */
  predicate KeepsAlong(s: State, labels: seq<Label>, r: (int, int))
    requires CanRun(s, labels)
  {
    labels == [] ||
    (KeepsAlong(s, labels[..|labels| - 1], r) && KeepsTopology(After(s, labels[..|labels| - 1]), labels[|labels| - 1], r))
  }

  /** Lock soundness over whole runs. From a steady state of a storage cluster, let the user scale to
      zero and back any number of times, asking for whatever they like at zero, with Robin, crashes and
      lagging reads interleaved anyhow: no reconcile is needed between scale-down and scale-up, the
      record never moves, and no version with any other non-zero topology is ever stored. */
  lemma {:induction false} LockRaceFree(s: State, r: (int, int), labels: seq<Label>)
    requires Inv(s) && Steady(s, r) && CanRun(s, labels) && KeepsAlong(s, labels, r)
    ensures Steady(After(s, labels), r)
  {
    hide Inv, Steady, Enabled, Do, KeepsTopology;
    if labels != [] {
      var front := labels[..|labels| - 1];
      LockRaceFree(s, r, front);
      RunKeeps(s, front);
      SteadyStep(After(s, front), r, labels[|labels| - 1]);
    }
  }

  /** How a cluster gets there: once Robin has applied the live generation's config and one
      uninterrupted reconcile has followed, a storage cluster within the recordable bounds is steady. */
  lemma SteadyAfterReconcile(s: State, q: nat, labels: seq<Label>)
    requires Inv(s) && s.pc.Idle? && Live(s).spec.primaries != 0 && !Live(s).spec.ephemeral
    requires TopIs(s.configs, Live(s).generation) && Convergence.TopApplied(s.configs, q) && Convergence.Bounded(s.history)
    requires CanRun(s, labels) && CalmRun(s, labels) && labels != [] && After(s, labels).pc.Idle?
    ensures Steady(After(s, labels), Pair(Live(s).spec))
  {
    hide QueueInv, ObservedInv, RecordInv, SourceInv, PhaseInv, HistoryInv, PcInv, CanRun, After, CalmRun, Convergence.Bounded, Convergence.TopApplied, Gen;
    var t := After(s, labels);
    Convergence.ReconcileLeavesOne(s, q, labels);
    SpecHeldAlong(s, labels);
    RunKeeps(s, labels);
    SettledIsSteady(t, q, Pair(Live(s).spec));
  }

  lemma SettledIsSteady(s: State, q: nat, r: (int, int))
    requires Inv(s) && Convergence.Settled(s, q) && r == Pair(Live(s).spec)
    requires Record(Live(s).status) == Topology(Top(s.configs).manifest.spec)
    ensures Steady(s, r)
  {
    hide ObservedInv, RecordInv, SourceInv, PhaseInv, HistoryInv, PcInv, Gen;
    TopIsGenuine(s.configs, s.cluster, Snap(s).generation, s.history);
    assert Stored(Live(s), Snap(s).generation, s.history);
    forall k | s.seen <= k < |s.log| ensures Agrees(Pair(s.log[k].spec), r) {
      assert Stored(s.log[k], Snap(s).generation, s.history);
      assert NoLater(s.log, s.seen, k) && NoLater(s.log, k, |s.log| - 1);
    }
    forall c | c in s.configs ensures Agrees(Topology(s.configs[c].manifest.spec), r) {
      assert c in s.configs.Keys && Max(s.configs.Keys) in s.configs.Keys;
    }
  }
}
