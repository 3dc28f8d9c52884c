/** Topologies that admission accepts and the status schema does not: once Robin has applied one, no
    aggregate status is ever stored again until the user or Robin changes something. */
module StatusBounds {
  import opened Types
  import opened Queue
  import opened Protocol
  import opened Safety
  import opened CalmRuns
  import opened Convergence
  import Admission
  import Conditions
  import FirstReconcile

  /** The one config, read as Applied. */
  predicate ReadsApplied(list: seq<Config>) {
    |list| == 1 && list[0].status.phase.ConfigPhaseApplied?
  }

  /** A storage cluster whose one config is the live generation's, Applied, and out of the bounds. */
  predicate Rejecting(s: State, q: nat) {
    && NonZeroAhead(s) && !Live(s).spec.ephemeral
    && s.configs.Keys == {q} && TopIs(s.configs, Live(s).generation)
    && s.configs[q].status.phase.ConfigPhaseApplied? && s.configs[q].manifest.spec.primaries > 0 && !Recordable(s.configs[q])
    && match s.pc
       case Idle => true
       case Ensuring(_, next) => next.ThenList?
       case Listing => true
       case Cleaning(list, _) => ReadsApplied(list)
       case Fetching(list) => ReadsApplied(list)
       case Storing(list, _) => ReadsApplied(list)
       case _ => false
  }

  /** The user holds still and Robin leaves the config Applied; anything else may happen. */
  predicate StaysApplied(l: Label) {
    !l.UserUpdate? && (l.RobinWrite? ==> l.status.phase.ConfigPhaseApplied?)
  }

  lemma RejectingList(s: State, q: nat)
    requires Inv(s) && Rejecting(s, q) && s.pc.Listing?
    ensures DoList(s) == s.(pc := DoList(s).pc) && DoList(s).pc.Cleaning? && ReadsApplied(DoList(s).pc.list)
  {
    hide ObservedInv, RecordInv, SourceInv, PhaseInv, HistoryInv, QueueInv, ListConfigs, Mirrors;
    StoreIsKeyed(s.configs, s.cluster, Snap(s).generation, s.history);
    ListIsStore(s.configs, s.cluster);
    ListMirrors(s.configs, s.cluster);
    assert |s.configs| == 1 by { assert |s.configs| == |s.configs.Keys| == |{q}|; }
    assert NoLater(s.log, s.seen, |s.log| - 1);
    assert Stored(Snap(s), Snap(s).generation, s.history);
  }

  lemma RejectingStore(s: State, q: nat, now: int)
    requires Inv(s) && Rejecting(s, q) && Enabled(s, Store(now))
    ensures DoStore(s, now) == s.(pc := DoStore(s, now).pc) && (DoStore(s, now).pc.Idle? || DoStore(s, now).pc == Fetching(s.pc.list))
  {
    hide QueueInv, ObservedInv, SourceInv, PhaseInv, HistoryInv, LogInv, Gen,
         Conditions.Aggregate, Conditions.ComputePhase, Admission.StatusUpdateAdmitted;
    var active := SelectActive(s.pc.list);
    assert active == s.pc.list[0];
    assert active.manifest.sequence in s.configs.Keys;
    StatusRejectedIff(Live(s), active, Snap(s).generation, now);
  }

  lemma RejectingWrite(s: State, q: nat, p: nat, status: ConfigStatus)
    requires Inv(s) && Rejecting(s, q) && p in s.configs && status.phase.ConfigPhaseApplied?
    ensures Rejecting(s.(configs := s.configs[p := s.configs[p].(status := status)]), q)
  {
    hide QueueInv, ObservedInv, RecordInv, SourceInv, PhaseInv, HistoryInv, PcInv, Gen;
    var configs := s.configs[p := s.configs[p].(status := status)];
    assert p in s.configs.Keys;
    assert configs.Keys == {q};
    RestatusedTop(s.configs, configs);
  }

  lemma RejectingStep(s: State, q: nat, l: Label)
    requires Inv(s) && Rejecting(s, q) && Enabled(s, l) && StaysApplied(l)
    ensures Rejecting(Do(s, l), q) && Live(Do(s, l)).status == Live(s).status
  {
    hide QueueInv, ObservedInv, RecordInv, SourceInv, PhaseInv, HistoryInv, LogInv, PcInv, DoList, DoStore, DoClean, DoCreate,
         DoZero, DoRelist, ListedSet, ReadsApplied, TopIs, Recordable, NewConfig, ListConfigs;
    StaysAhead(s, l);
    SpecHeld(s, l);
    match l
    case List => RejectingList(s, q);
    case Store(now) => RejectingStore(s, q, now);
    case Clean => CleanKeepsOne(s);
    case RobinWrite(p, status) => RejectingWrite(s, q, p, status);
    case _ =>
  }

  lemma CleanKeepsOne(s: State)
    requires s.pc.Cleaning? && ReadsApplied(s.pc.list)
    ensures DoClean(s) == s.(pc := Fetching(s.pc.list))
  {
    assert s.pc.list[0..] == s.pc.list;
  }

  /** No status write succeeds: over every run in which the spec is held and the config stays Applied,
      with crashes, lagging reads and retries, the stored status never changes. */
  lemma {:induction false} StatusFrozen(s: State, q: nat, labels: seq<Label>)
    requires Inv(s) && Rejecting(s, q) && CanRun(s, labels) && forall i | 0 <= i < |labels| :: StaysApplied(labels[i])
    ensures Rejecting(After(s, labels), q) && s.log != [] && Live(After(s, labels)).status == Live(s).status
  {
    hide Inv, Enabled, Do, StaysApplied, ReadsApplied, TopIs;
    InvMeansSeen(s);
    if labels != [] {
      var front := labels[..|labels| - 1];
      StatusFrozen(s, q, front);
      RunKeeps(s, front);
      RejectingStep(After(s, front), q, labels[|labels| - 1]);
    }
  }

  /** Every admissible storage spec outside the bounds gets there: its first config is created, the
      status says so, Robin applies the config, and the status stays what it was. */
  lemma FrozenIsReachable(cluster: string, spec: Spec) returns (labels: seq<Label>)
    requires Admission.StaticRules(spec) && !spec.ephemeral && spec.primaries != 0
    requires !WithinBounds((spec.primaries, spec.replicas))
    ensures CanRun(Initial(cluster, spec), labels) && Rejecting(After(Initial(cluster, spec), labels), 1)
  {
    hide CanRun, After, Admission.StaticRules, NonZeroAhead;
    var s := Initial(cluster, spec);
    var a := FirstReconcile.FirstStatus(cluster, spec);
    Safe(cluster, spec, a);
    var s1 := After(s, a);
    TopIsLive(s1);
    var b := Write(s1, 1, APPLIED);
    RunConcat(s, a, b);
    labels := a + b;
    var t := After(s, labels);
    AheadOfOne(t);
    RestatusedTop(s1.configs, t.configs);
  }

  lemma AheadOfOne(s: State)
    requires s.seen < |s.log| && LogInv(s.log, s.seen, s.history) && Live(s).generation == 1 && Live(s).spec.primaries != 0
    ensures NonZeroAhead(s)
  {
    forall k | s.seen <= k < |s.log| ensures s.log[k].spec.primaries != 0 {
      assert Stored(s.log[k], Snap(s).generation, s.history) && Stored(Live(s), Snap(s).generation, s.history);
    }
  }
}
