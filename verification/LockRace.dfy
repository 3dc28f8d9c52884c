/** Where the lock fails: a topology Robin applied and no reconcile recorded before the scale-down is
    lost. Once the teardown is over, the lock is open for good, or forces an older topology. */
module LockRace {
  import opened Types
  import opened Text
  import opened Queue
  import opened Protocol
  import opened Safety
  import opened CalmRuns
  import opened ScaleToZero
  import Admission
  import Convergence
  import FirstReconcile
  import Lock

  // ---- Scaling down before the operator records ----

  lemma ZeroIsAdmitted(live: Redkey)
    requires Admission.StaticRules(live.spec) && live.spec.primaries != 0
    ensures Admission.SpecUpdateAdmitted(live, live.spec.(primaries := 0))
  {
  }

  /** Robin applies the live topology, and the user scales to zero at once. */
  lemma ApplyThenZero(s: State) returns (labels: seq<Label>)
    requires Inv(s) && s.pc.Idle? && Live(s).spec.primaries != 0 && Live(s).generation < MAX_INT64
    requires TopIs(s.configs, Live(s).generation)
    ensures CanRun(s, labels) && labels != [] && labels[0] == RobinWrite(Max(s.configs.Keys), APPLIED)
    ensures var t := After(s, labels);
            && Inv(t) && t.pc.Idle? && t.configs != map[]
            && Live(t).spec == Live(s).spec.(primaries := 0) && Live(t).status == Live(s).status
            && Top(t.configs) == Top(s.configs).(status := APPLIED) && Top(t.configs).manifest.spec.primaries != 0
  {
    hide QueueInv, ObservedInv, RecordInv, SourceInv, PhaseInv, PcInv, CanRun, After, Gen, Admission.SpecUpdateAdmitted;
    Lock.KindOfHistory(s);
    Convergence.TopIsLive(s);
    var a := ApplyTop(s);
    RunKeeps(s, a);
    var t := After(s, a);
    ZeroIsAdmitted(Live(s));
    var zero := UserUpdate(Live(s).spec.(primaries := 0));
    OneStep(t, zero);
    RunConcat(s, a, [zero]);
    labels := a + [zero];
    RunKeeps(s, labels);
  }

  /** Case B, Robin applies the zero config, case C: nothing is left and the record has not moved. */
  lemma FinishScaleDown(s: State) returns (labels: seq<Label>)
    requires Inv(s) && s.pc.Idle? && Live(s).spec.primaries == 0 && s.configs != map[]
    requires Top(s.configs).manifest.spec.primaries != 0
    ensures CanRun(s, labels) && Held(labels)
    ensures var t := After(s, labels);
            CleanSeen(t) && Live(t).spec == Live(s).spec && Record(Live(t).status) == Record(Live(s).status)
  {
    hide Inv, CanRun, After, CalmRun, Clean0, Record;
    NoSteps(s);
    InvMeansSeen(s);
    var a := ReadZero(s, |s.log| - 1);
    var s1 := Advance(s, [], a);
    assert [] + a == a;
    InvMeansSeen(s1);
    var b := QueueZero(s1);
    var s2 := Advance(s, a, b);
    var c := ApplyTop(s2);
    var s3 := Advance(s, a + b, c);
    var d := OneReconcile(s3);
    CalmIsHeld(s3, d);
    TeardownCompletes(s3, d);
    CleanIsSeen(s3, d);
    var s4 := Advance(s, a + b + c, d);
    labels := a + b + c + d;
  }

  /** Every topology Robin applies can go unrecorded. From any reachable idle state of a storage cluster
      whose newest config is the live generation's there is a run in which Robin applies that config, the
      user scales to zero before the next reconcile, and the teardown completes. The record at the end is
      the one of the start, so a later scale-up is forced to the topology Robin had applied if and only
      if that topology was already on record, or the mode leaves no choice. */
  lemma UnrecordedIsUnprotected(s: State) returns (labels: seq<Label>)
    requires Inv(s) && s.pc.Idle? && Live(s).spec.primaries != 0 && Live(s).generation < MAX_INT64
    requires !Live(s).spec.ephemeral && TopIs(s.configs, Live(s).generation) && Admission.Written(Live(s).status)
    ensures CanRun(s, labels) && labels != [] && labels[0] == RobinWrite(Max(s.configs.Keys), APPLIED)
    ensures var t, applied := After(s, labels), Lock.Pair(Live(s).spec);
            && CleanSeen(t) && Inv(t) && Live(t).spec == Live(s).spec.(primaries := 0)
            && Record(Live(t).status) == Record(Live(s).status)
            && (Lock.Forced(Live(t), applied) <==>
                  || Record(Live(s).status) == applied
                  || (Live(s).status.lastPrimaries == 0 && Live(s).spec.mode.ModeStandalone?))
  {
    hide Inv, CanRun, After, Admission.Written, Record;
    InvMeansSeen(s);
    var a := ApplyThenZero(s);
    var s1 := After(s, a);
    var b := FinishScaleDown(s1);
    RunConcat(s, a, b);
    labels := a + b;
    RunKeeps(s, labels);
    var t := After(s, labels);
    assert Admission.Written(Live(t).status) by { CleanIsWritten(t); }
    NonZeroIsPositive(s);
    Lock.ScaleUpForcedIff(t, Lock.Pair(Live(s).spec));
    assert Record(Live(t).status) == Record(Live(s).status) ==> Live(t).status.lastPrimaries == Live(s).status.lastPrimaries by { SameFirst(Live(t).status, Live(s).status); }
  }

  lemma SameFirst(a: Status, b: Status)
    ensures Record(a) == Record(b) ==> a.lastPrimaries == b.lastPrimaries
  {
  }

  lemma CleanIsWritten(s: State)
    requires CleanSeen(s)
    ensures Admission.Written(Live(s).status)
  {
  }

  lemma NonZeroIsPositive(s: State)
    requires Inv(s) && Live(s).spec.primaries != 0
    ensures Live(s).spec.primaries > 0 && (Live(s).spec.mode.ModeStandalone? ==> Lock.Pair(Live(s).spec) == (1, 0))
  {
    hide QueueInv, ObservedInv, RecordInv, SourceInv, PhaseInv, PcInv;
    Lock.KindOfHistory(s);
  }

  // ---- Reaching an unrecorded topology ----

  /** The lock can stay open for good: for every admissible storage spec of a cluster there is a run from
      a fresh Redkey in which Robin applies its topology, and which ends at zero with nothing left, a
      status, no record, and every topology the other rules allow admitted. */
  lemma LockCanBeOpen(cluster: string, spec: Spec) returns (labels: seq<Label>)
    requires Admission.StaticRules(spec) && !spec.ephemeral && spec.primaries != 0
    ensures CanRun(Initial(cluster, spec), labels)
    ensures var t := After(Initial(cluster, spec), labels);
            && CleanSeen(t) && Live(t).status.lastPrimaries == 0
            && (forall other: Spec | Admission.StaticRules(other) && Admission.TransitionRules(spec, other) ::
                  Admission.SpecUpdateAdmitted(Live(t), other))
  {
    hide Inv, CanRun, After, Admission.SpecUpdateAdmitted, Admission.StaticRules, TopIs, Clean0;
    var s := Initial(cluster, spec);
    var a := FirstReconcile.FirstStatus(cluster, spec);
    Safe(cluster, spec, a);
    var s1 := After(s, a);
    var b := UnrecordedIsUnprotected(s1);
    RunConcat(s, a, b);
    labels := a + b;
    var t := After(s, labels);
    forall other: Spec | Admission.StaticRules(other) && Admission.TransitionRules(spec, other)
      ensures Admission.SpecUpdateAdmitted(Live(t), other)
    {
      CleanIsOpen(t, other);
    }
  }

  lemma CleanIsOpen(s: State, other: Spec)
    requires Inv(s) && CleanSeen(s) && Live(s).status.lastPrimaries == 0
    requires Admission.StaticRules(other) && Admission.TransitionRules(Live(s).spec, other)
    ensures Admission.SpecUpdateAdmitted(Live(s), other)
  {
    hide QueueInv, ObservedInv, RecordInv, SourceInv, PhaseInv, PcInv;
    if other.primaries != 0 { Lock.NoRecordOpenIff(s, other); }
  }

  // ---- Reaching an older record ----

  /** A normal reconcile up to the point where its generation's config is in the store. */
  lemma {:induction false} UntilCreated(s: State) returns (labels: seq<Label>)
    requires Inv(s) && Snap(s).spec.primaries != 0
    requires s.pc.Listing? || s.pc.Creating? || (s.pc.Ensuring? && s.pc.next.ThenList?)
    ensures CanRun(s, labels) && Held(labels)
    ensures var t := After(s, labels); t.log == s.log && t.seen == s.seen && (t.pc.Relisting? || t.pc.Cleaning?)
    decreases Rank(s)
  {
    hide Inv, CanRun, After, Rank, Do, Enabled, Calm;
    InvMeansSeen(s);
    var l := Progress(s);
    StepKeeps(s, l);
    OneStep(s, l);
    UntilCreatedStep(s, l);
    if Do(s, l).pc.Relisting? || Do(s, l).pc.Cleaning? {
      labels := [l];
    } else {
      var rest := UntilCreated(Do(s, l));
      RunConcat(s, [l], rest);
      labels := [l] + rest;
    }
  }

  lemma UntilCreatedStep(s: State, l: Label)
    requires s.seen < |s.log| && Snap(s).spec.primaries != 0 && Enabled(s, l) && Calm(s, l)
    requires s.pc.Listing? || s.pc.Creating? || (s.pc.Ensuring? && s.pc.next.ThenList?)
    ensures var t := Do(s, l);
            && t.log == s.log && t.seen == s.seen && !l.UserUpdate?
            && (t.pc.Relisting? || t.pc.Cleaning? || t.pc.Listing? || t.pc.Creating? || (t.pc.Ensuring? && t.pc.next.ThenList?))
  {
    hide ListConfigs, NeedsNewConfig, NewConfig;
  }

  lemma CreatedIsTop(s: State)
    requires Inv(s) && (s.pc.Relisting? || s.pc.Cleaning?)
    ensures s.seen < |s.log| && TopIs(s.configs, Snap(s).generation)
  {
  }

  /** The operator creates the live generation's config and fails before writing a status. */
  lemma CreateAndCrash(s: State) returns (labels: seq<Label>)
    requires Inv(s) && s.pc.Idle? && Live(s).spec.primaries != 0
    ensures CanRun(s, labels) && Held(labels)
    ensures var t := After(s, labels); t.pc.Idle? && t.log == s.log && TopIs(t.configs, Live(t).generation)
  {
    hide Inv, CanRun, After, TopIs;
    NoSteps(s);
    InvMeansSeen(s);
    var a := [Snapshot(|s.log| - 1)];
    OneStep(s, a[0]);
    assert [] + a == a;
    var s1 := Advance(s, [], a);
    var b := UntilCreated(s1);
    var s2 := Advance(s, a, b);
    CreatedIsTop(s2);
    CrashAfter(s, a + b);
    labels := a + b + [Crash];
  }

  /** A topology within the schema bounds is applied and recorded. */
  lemma FirstRecord(cluster: string, spec: Spec) returns (labels: seq<Label>)
    requires Admission.StaticRules(spec) && !spec.ephemeral && WithinBounds((spec.primaries, spec.replicas))
    ensures CanRun(Initial(cluster, spec), labels)
    ensures var s := After(Initial(cluster, spec), labels);
            && Inv(s) && s.pc.Idle? && Live(s).spec == spec && Live(s).generation == 1 && s.history == [spec]
            && Record(Live(s).status) == Lock.Pair(spec)
  {
    hide Inv, CanRun, After, CalmRun, TopIs, Admission.StaticRules;
    var s := Initial(cluster, spec);
    NoSteps(s);
    Safe(cluster, spec, []);
    var a := OneReconcile(s);
    RunKeeps(s, a);
    SpecHeldAlong(s, a);
    Convergence.ReconcileCatchesUp(s, a);
    var s1 := After(s, a);
    var b := TopHas(s1);
    var s2 := After(s1, b);
    RunKeeps(s1, b);
    var c := OneReconcile(s2);
    RunKeeps(s2, c);
    SpecHeldAlong(s2, c);
    Convergence.ReconcileLeavesOne(s2, Max(s2.configs.Keys), c);
    var s3 := After(s2, c);
    Convergence.TopIsLive(s3);
    RunConcat(s1, b, c);
    RunConcat(s, a, b + c);
    labels := a + (b + c);
  }

  /** Robin applies the live generation's config. */
  lemma TopHas(s: State) returns (labels: seq<Label>)
    requires Inv(s) && s.log != [] && TopIs(s.configs, Live(s).generation)
    ensures CanRun(s, labels)
    ensures var t := After(s, labels);
            && t == s.(configs := t.configs) && t.configs != map[]
            && TopIs(t.configs, Live(s).generation) && Convergence.TopApplied(t.configs, Max(t.configs.Keys))
  {
    hide Inv, CanRun, After;
    labels := ApplyTop(s);
    SameGen(Top(After(s, labels).configs), Top(s.configs));
  }

  lemma NonZeroUpdates(a: Redkey, b: Redkey, spec: Spec)
    requires a.spec == b.spec && a.spec.primaries != 0 && Admission.SpecUpdateAdmitted(a, spec)
    ensures Admission.SpecUpdateAdmitted(b, spec) && spec.ephemeral == a.spec.ephemeral
  {
  }

  /** The lock can force the wrong topology: for every recordable storage spec and every admissible change
      to another one there is a run from a fresh Redkey in which Robin applies the first, it is recorded,
      Robin applies the second, and which ends at zero with nothing left and a lock that admits only the
      first. */
  lemma OlderTopologyForced(cluster: string, first: Spec, second: Spec) returns (labels: seq<Label>, applied: nat)
    requires Admission.StaticRules(first) && !first.ephemeral && WithinBounds((first.primaries, first.replicas))
    requires second != first && second.primaries != 0 && Admission.SpecUpdateAdmitted(Redkey(1, first, NEW_STATUS), second)
    ensures CanRun(Initial(cluster, first), labels)
    ensures applied < |labels| && CanRun(Initial(cluster, first), labels[..applied])
    ensures var m := After(Initial(cluster, first), labels[..applied]);
            && m.configs != map[] && Top(m.configs).manifest.spec == ConfigSpecOf(second)
            && labels[applied] == RobinWrite(Max(m.configs.Keys), APPLIED)
    ensures var t := After(Initial(cluster, first), labels); CleanSeen(t) && Lock.Forced(Live(t), Lock.Pair(first))
  {
    hide Inv, CanRun, After, CalmRun, Admission.SpecUpdateAdmitted, Admission.StaticRules, Admission.Written, Lock.Forced, Clean0;
    var s := Initial(cluster, first);
    var a := FirstRecord(cluster, first);
    var s1 := After(s, a);
    InvMeansSeen(s1);
    NonZeroUpdates(Redkey(1, first, NEW_STATUS), Live(s1), second);
    OneStep(s1, UserUpdate(second));
    RunConcat(s, a, [UserUpdate(second)]);
    var b := a + [UserUpdate(second)];
    var s2 := After(s, b);
    Safe(cluster, first, b);
    var c := CreateAndCrash(s2);
    RunConcat(s, b, c);
    Safe(cluster, first, b + c);
    var s3 := After(s, b + c);
    Convergence.TopIsLive(s3);
    RecordIsWritten(s3);
    var d := UnrecordedIsUnprotected(s3);
    RunConcat(s, b + c, d);
    labels, applied := b + c + d, |b + c|;
    assert labels[..applied] == b + c;
    Lock.ScaleUpForcedIff(After(s, labels), Lock.Pair(first));
  }

  lemma RecordIsWritten(s: State)
    requires Inv(s) && Live(s).status.lastPrimaries != 0
    ensures Admission.Written(Live(s).status) && Admission.StaticRules(Live(s).spec)
  {
    hide QueueInv, ObservedInv, SourceInv, PhaseInv, PcInv, Admission.StaticRules;
    Lock.KindOfHistory(s);
  }
}
