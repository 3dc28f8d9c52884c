/** The first reconcile of a fresh Redkey, step by step: where runs that exhibit something start. */
module FirstReconcile {
  import opened Types
  import opened Queue
  import opened Protocol
  import opened Safety
  import opened CalmRuns
  import Admission
  import Conditions

  /** Robin's objects are put in place; nothing else changes. */
  lemma {:induction false} EnsureAll(s: State, labels: seq<Label>) returns (more: seq<Label>)
    requires CanRun(s, labels) && Enabled(After(s, labels), Crash)
    requires After(s, labels).pc.Ensuring? && After(s, labels).pc.todo != [] && After(s, labels).pc.next.ThenList?
    ensures CanRun(s, more)
    ensures After(s, more) == After(s, labels).(robin := After(s, more).robin, pc := Listing)
    decreases |After(s, labels).pc.todo|
  {
    hide CanRun, After;
    RunExtend(s, labels, Ensure);
    more := labels + [Ensure];
    if |After(s, labels).pc.todo| > 1 {
      more := EnsureAll(s, more);
    }
  }

  /** The first config is created. */
  lemma FirstConfig(cluster: string, spec: Spec) returns (labels: seq<Label>, c: Config)
    requires spec.primaries != 0
    ensures CanRun(Initial(cluster, spec), labels)
    ensures var s := After(Initial(cluster, spec), labels);
            s == Initial(cluster, spec).(robin := s.robin, configs := map[1 := c], pc := Relisting)
    ensures c.manifest.sequence == 1 && Labelled(c, cluster) && Gen(c) == 1 && c.status == NEW_CONFIG_STATUS
  {
    hide CanRun, After, ListConfigs, NewConfig;
    var s := Initial(cluster, spec);
    NoSteps(s);
    RunExtend(s, [], Snapshot(0));
    labels := EnsureAll(s, [] + [Snapshot(0)]);
    ListsEmpty(cluster);
    RunExtend(s, labels, List);
    labels := labels + [List];
    c := NewConfig(cluster, 1, spec, None);
    NewConfigReadsBack(cluster, 1, spec, None);
    NewConfigFields(cluster, 1, spec, None);
    RunExtend(s, labels, Create);
    labels := labels + [Create];
  }

  /** The relist shows it, and there is nothing to clean up. */
  lemma FirstRelist(cluster: string, spec: Spec) returns (labels: seq<Label>, c: Config)
    requires spec.primaries != 0
    ensures CanRun(Initial(cluster, spec), labels)
    ensures var s := After(Initial(cluster, spec), labels);
            s == Initial(cluster, spec).(robin := s.robin, configs := map[1 := c], pc := Fetching([c]))
    ensures c.manifest.sequence == 1 && Gen(c) == 1 && c.status == NEW_CONFIG_STATUS
  {
    hide CanRun, After, ListConfigs, Labelled, Gen;
    var s := Initial(cluster, spec);
    labels, c := FirstConfig(cluster, spec);
    ListsOne(c, cluster);
    RunExtend(s, labels, Relist);
    labels := labels + [Relist];
    RunExtend(s, labels, Clean);
    labels := labels + [Clean];
    assert [c][0..] == [c];
  }

  /** The rest of that reconcile, while Robin has not touched the config: a status without a record. */
  lemma FirstStatus(cluster: string, spec: Spec) returns (labels: seq<Label>)
    requires spec.primaries != 0
    ensures CanRun(Initial(cluster, spec), labels)
    ensures var s := After(Initial(cluster, spec), labels);
            && s.pc == Idle && s.log != [] && Live(s).spec == spec && Live(s).generation == 1
            && TopIs(s.configs, 1) && s.configs.Keys == {1}
            && Admission.Written(Live(s).status) && Record(Live(s).status) == (0, 0)
  {
    hide CanRun, After, Gen, Admission.StatusUpdateAdmitted, Conditions.Aggregate;
    var s := Initial(cluster, spec);
    var c;
    labels, c := FirstRelist(cluster, spec);
    RunExtend(s, labels, Fetch(0));
    labels := labels + [Fetch(0)];
    var live := Redkey(1, spec, NEW_STATUS);
    Admission.StatusWriteRejectedOnlyByBounds(live, AggregatedStatus(live, c, 1, 0));
    RunExtend(s, labels, Store(0));
    labels := labels + [Store(0)];
    assert map[1 := c].Keys == {1};
    MaxIs(map[1 := c].Keys, 1);
  }
}
