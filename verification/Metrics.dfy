/** The fleet metrics: gauges, the operation tracker and the time-to-ready histogram, refreshed by
    recordRedkeyMetrics and cleared by deleteRedkeyMetrics. Every series is a function of the history
    of these two calls. */
module Metrics {
  import opened Types
  import opened Operations
  import opened Readiness

  datatype ActiveConfig = ActiveConfig(phase: ConfigPhase, createdAt: int)

  datatype Change =
    | Recorded(key: Key, status: ClusterStatus, phase: Phase, config: Option<ActiveConfig>, now: int)
    | Deleted(key: Key)

  const PHASE_VALUES: seq<Phase> := [PhaseReady, PhaseConfiguring, PhaseError]
  const CONFIG_PHASE_VALUES: seq<ConfigPhase> :=
    [ConfigPhasePending, ConfigPhaseInProgress, ConfigPhaseSuperseded, ConfigPhaseApplied]

  /** A gauge vector: one value per label set, here a key and one more label. */
  type Gauge<!L(==)> = map<(Key, L), int>

  // ---- The declarative reading ----

  /** What the operation tracker is told. */
  function OpLog(changes: seq<Change>): seq<Event> {
    if changes == [] then []
    else
      var c := changes[|changes| - 1];
      OpLog(changes[..|changes| - 1])
      + [if c.Recorded? then Observed(c.key, c.status, c.phase, c.now) else Forgotten(c.key)]
  }

  /** What the readiness tracker is told: only observations with an active config. */
  function ReadyCalls(changes: seq<Change>): seq<Call> {
    if changes == [] then []
    else
      var rest, c := ReadyCalls(changes[..|changes| - 1]), changes[|changes| - 1];
      if c.Deleted? then rest + [Dropped(c.key)]
      else if c.config.Some? then rest + [Entered(c.key, c.phase)]
      else rest
  }

  /** The latest record of a key, unless it was deleted since. */
  function Latest(changes: seq<Change>, key: Key): (r: Option<Change>)
    ensures r.Some? ==> r.value.Recorded? && r.value.key == key
  {
    if changes == [] then None
    else
      var c := changes[|changes| - 1];
      if c.key != key then Latest(changes[..|changes| - 1], key) else if c.Recorded? then Some(c) else None
  }

  /** Time-to-ready samples: one per rising edge into Ready among the observations of a key that had an
      active config since it was last deleted, measured from that config's creation. */
  function ReadySamples(changes: seq<Change>): seq<int> {
    if changes == [] then []
    else
      var init, c := changes[..|changes| - 1], changes[|changes| - 1];
      ReadySamples(init)
      + if c.Recorded? && c.config.Some? && Rises(Phases(ReadyCalls(init), c.key), c.phase)
        then [c.now - c.config.value.createdAt] else []
  }

  /** The state-set series of a key: one per possible value, 1 on the active one, 0 on the rest. */
  ghost predicate StateSet<L(!new)>(gauge: Gauge<L>, key: Key, shown: bool, values: seq<L>, active: L) {
    forall l: L ::
      && ((key, l) in gauge <==> shown && l in values)
      && ((key, l) in gauge ==> gauge[(key, l)] == if l == active then 1 else 0)
  }

  ghost predicate InProgressIs(gauge: Gauge<string>, key: Key, status: ClusterStatus) {
    forall op: string ::
      && ((key, op) in gauge <==> status == Operation(op))
      && ((key, op) in gauge ==> gauge[(key, op)] == 1)
  }

  ghost predicate SeriesOf(inProgress: Gauge<string>, phases: Gauge<Phase>, configs: Gauge<ConfigPhase>,
                           latest: Option<Change>, key: Key)
    requires latest.Some? ==> latest.value.Recorded?
  {
    && InProgressIs(inProgress, key, if latest.Some? then latest.value.status else NoStatus)
    && StateSet(phases, key, latest.Some?, PHASE_VALUES, if latest.Some? then latest.value.phase else PhaseUnset)
    && StateSet(configs, key, latest.Some? && latest.value.config.Some?, CONFIG_PHASE_VALUES,
                if latest.Some? && latest.value.config.Some? then latest.value.config.value.phase else ConfigPhaseUnset)
  }

  /** changes[i] is the last change of its key, and a record. */
  predicate IsLatest(changes: seq<Change>, key: Key, i: nat) {
    && i < |changes| && changes[i].key == key && changes[i].Recorded?
    && forall j | i < j < |changes| :: changes[j].key != key
  }

  lemma {:induction false} LatestIff(changes: seq<Change>, key: Key, c: Change)
    ensures Latest(changes, key) == Some(c) <==> exists i: nat :: IsLatest(changes, key, i) && changes[i] == c
  {
    if changes != [] {
      var init, last := changes[..|changes| - 1], changes[|changes| - 1];
      if last.key == key {
        assert Latest(changes, key) == Some(c) ==> IsLatest(changes, key, |changes| - 1);
      } else {
        LatestIff(init, key, c);
        if i: nat :| IsLatest(init, key, i) && init[i] == c {
          assert IsLatest(changes, key, i) && changes[i] == c;
        }
        if i: nat :| IsLatest(changes, key, i) && changes[i] == c {
          assert IsLatest(init, key, i) && init[i] == c;
        }
      }
    }
  }

  lemma OpLogAppend(changes: seq<Change>, c: Change)
    ensures OpLog(changes + [c]) == OpLog(changes) + [if c.Recorded? then Observed(c.key, c.status, c.phase, c.now) else Forgotten(c.key)]
  {
    assert (changes + [c])[..|changes|] == changes;
  }

  lemma ReadyCallsAppend(changes: seq<Change>, c: Change)
    ensures ReadyCalls(changes + [c]) ==
            if c.Deleted? then ReadyCalls(changes) + [Dropped(c.key)]
            else if c.config.Some? then ReadyCalls(changes) + [Entered(c.key, c.phase)]
            else ReadyCalls(changes)
  {
    assert (changes + [c])[..|changes|] == changes;
  }

  lemma ReadySamplesAppend(changes: seq<Change>, c: Change)
    ensures ReadySamples(changes + [c]) ==
            if c.Recorded? && c.config.Some? && Rises(Phases(ReadyCalls(changes), c.key), c.phase)
            then ReadySamples(changes) + [c.now - c.config.value.createdAt] else ReadySamples(changes)
  {
    hide ReadyCalls, Phases, Rises;
    assert (changes + [c])[..|changes|] == changes;
  }

  lemma ChangesAppend(changes: seq<Change>, c: Change)
    ensures OpLog(changes + [c]) == OpLog(changes) + [if c.Recorded? then Observed(c.key, c.status, c.phase, c.now) else Forgotten(c.key)]
    ensures ReadyCalls(changes + [c]) ==
            if c.Deleted? then ReadyCalls(changes) + [Dropped(c.key)]
            else if c.config.Some? then ReadyCalls(changes) + [Entered(c.key, c.phase)]
            else ReadyCalls(changes)
    ensures ReadySamples(changes + [c]) ==
            if c.Recorded? && c.config.Some? && Rises(Phases(ReadyCalls(changes), c.key), c.phase)
            then ReadySamples(changes) + [c.now - c.config.value.createdAt] else ReadySamples(changes)
  {
    hide OpLog, ReadyCalls, ReadySamples, Phases, Rises;
    OpLogAppend(changes, c);
    ReadyCallsAppend(changes, c);
    ReadySamplesAppend(changes, c);
  }

  lemma LatestAppend(changes: seq<Change>, c: Change, key: Key)
    ensures Latest(changes + [c], key) ==
            if c.key != key then Latest(changes, key) else if c.Recorded? then Some(c) else None
  {
    assert (changes + [c])[..|changes|] == changes;
  }

  /** The tracker's reading of a key ends with the key's latest change. */
  lemma {:induction false} LatestIsLastView(changes: seq<Change>, key: Key)
    ensures var v, latest := View(OpLog(changes), key), Latest(changes, key);
            if latest.Some? then v != [] && v[|v| - 1] == Observed(key, latest.value.status, latest.value.phase, latest.value.now)
            else !Open(v)
  {
    if changes != [] {
      var init, c := changes[..|changes| - 1], changes[|changes| - 1];
      LatestIsLastView(init, key);
      assert changes == init + [c];
      ChangesAppend(init, c);
      OthersUntouched(OpLog(init), OpLog(changes)[|OpLog(changes)| - 1], key);
    }
  }

  /** The key's last observation with an active config was changes[i], reported Ready, and the key was
      not deleted since. */
  predicate StillReady(changes: seq<Change>, key: Key, i: nat) {
    && i < |changes| && changes[i].key == key
    && changes[i].Recorded? && changes[i].config.Some? && changes[i].phase.PhaseReady?
    && forall j | i < j < |changes| && changes[j].key == key :: changes[j].Recorded? && changes[j].config.None?
  }

  lemma StillReadyAppend(changes: seq<Change>, c: Change, key: Key, i: nat)
    ensures StillReady(changes + [c], key, i) <==>
            if i == |changes| then c.key == key && c.Recorded? && c.config.Some? && c.phase.PhaseReady?
            else StillReady(changes, key, i) && (c.key == key ==> c.Recorded? && c.config.None?)
  {
    var more := changes + [c];
    if StillReady(more, key, i) && i < |changes| {
      forall j | i < j < |changes| && changes[j].key == key ensures changes[j].Recorded? && changes[j].config.None? {
        assert more[j] == changes[j];
      }
      assert more[|changes|] == c;
    }
  }

  lemma {:induction false} ReadyIffStillReady(changes: seq<Change>, key: Key)
    ensures var phases := Phases(ReadyCalls(changes), key);
            phases != [] && phases[|phases| - 1].PhaseReady? <==> exists i: nat :: StillReady(changes, key, i)
  {
    hide StillReady;
    if changes == [] {
      assert forall i: nat :: !StillReady([], key, i) by { NoneReady(key); }
    } else {
      var init, c := changes[..|changes| - 1], changes[|changes| - 1];
      assert changes == init + [c];
      ReadyIffStillReady(init, key);
      ReadyCallsAppend(init, c);
      var calls := ReadyCalls(changes);
      if calls != ReadyCalls(init) { PhasesAppend(ReadyCalls(init), calls[|calls| - 1], key); }
      AnyStillReady(init, c, key);
    }
  }

  lemma NoneReady(key: Key)
    ensures forall i: nat :: !StillReady([], key, i)
  {
  }

  /** How one more change moves the declarative reading. */
  lemma AnyStillReady(changes: seq<Change>, c: Change, key: Key)
    ensures (exists i: nat :: StillReady(changes + [c], key, i)) <==>
            if c.key == key && !(c.Recorded? && c.config.None?) then c.Recorded? && c.phase.PhaseReady?
            else exists i: nat :: StillReady(changes, key, i)
  {
    forall i: nat { StillReadyAppend(changes, c, key, i); }
    if c.key == key && c.Recorded? && c.config.Some? && c.phase.PhaseReady? {
      assert StillReady(changes + [c], key, |changes|);
    } else if exists i: nat :: StillReady(changes, key, i) {
      var i: nat :| StillReady(changes, key, i);
      StillReadyAppend(changes, c, key, i);
    }
  }

  /** A time-to-ready sample, the age of the active config, is taken exactly when a cluster with an active config is Ready and was not
      already Ready at its previous observation with an active config since it was last deleted. */
  lemma SampledIff(changes: seq<Change>, c: Change)
    ensures ReadySamples(changes + [c]) ==
            if c.Recorded? && c.config.Some? && c.phase.PhaseReady? && !(exists i: nat :: StillReady(changes, c.key, i))
            then ReadySamples(changes) + [c.now - c.config.value.createdAt] else ReadySamples(changes)
  {
    hide ReadySamples, ReadyCalls, Phases;
    ReadySamplesAppend(changes, c);
    ReadyIffStillReady(changes, c.key);
  }

  /** Changes of one cluster leave the readings of every other alone. */
  lemma OtherKeysKeep(changes: seq<Change>, c: Change, key: Key)
    requires c.key != key
    ensures Latest(changes + [c], key) == Latest(changes, key)
    ensures View(OpLog(changes + [c]), key) == View(OpLog(changes), key)
    ensures Phases(ReadyCalls(changes + [c]), key) == Phases(ReadyCalls(changes), key)
  {
    ChangesAppend(changes, c);
    LatestAppend(changes, c, key);
    var ops, calls := OpLog(changes + [c]), ReadyCalls(changes + [c]);
    OthersUntouched(OpLog(changes), ops[|ops| - 1], key);
    if calls != ReadyCalls(changes) { PhasesAppend(ReadyCalls(changes), calls[|calls| - 1], key); }
  }

  // ---- Gauges ----

  /** DeletePartialMatch on the labels of a key. */
  function Without<L(==)>(gauge: Gauge<L>, key: Key): Gauge<L> {
    map s | s in gauge && s.0 != key :: gauge[s]
  }

  /** `out` is `gauge` with the state set of `key` written: 1 on the active value, 0 on the rest. */
  ghost predicate SetFor<L(!new)>(gauge: Gauge<L>, out: Gauge<L>, key: Key, values: seq<L>, active: L) {
    && out.Keys == gauge.Keys + (set v | v in values :: (key, v))
    && (forall v | v in values :: (key, v) in out && out[(key, v)] == if v == active then 1 else 0)
    && (forall s | s in gauge && !(s.0 == key && s.1 in values) :: s in out && out[s] == gauge[s])
  }

  method SetStates<L(==,!new)>(gauge: Gauge<L>, key: Key, values: seq<L>, active: L) returns (out: Gauge<L>)
    ensures SetFor(gauge, out, key, values, active)
  {
    out := gauge;
    for i := 0 to |values|
      invariant SetFor(gauge, out, key, values[..i], active)
    {
      assert values[..i + 1] == values[..i] + [values[i]];
      var value := if values[i] == active then 1 else 0;
      out := out[(key, values[i]) := value];
    }
    assert values[..|values|] == values;
  }

  lemma StateSetAfterSet<L(!new)>(gauge: Gauge<L>, out: Gauge<L>, key: Key, values: seq<L>, active: L, k: Key, shown: bool, was: L)
    requires SetFor(gauge, out, key, values, active) && StateSet(gauge, k, shown, values, was)
    ensures if k == key then StateSet(out, k, true, values, active) else StateSet(out, k, shown, values, was)
  {
    forall l: L ensures (k, l) in out <==> if k == key then l in values else shown && l in values {
      assert (k, l) in gauge <==> shown && l in values;
    }
  }

  lemma StateSetAfterDelete<L(!new)>(gauge: Gauge<L>, key: Key, values: seq<L>, active: L, k: Key, shown: bool, was: L)
    requires StateSet(gauge, k, shown, values, was)
    ensures if k == key then StateSet(Without(gauge, key), k, false, values, active)
            else StateSet(Without(gauge, key), k, shown, values, was)
  {
  }

  lemma InProgressAfter(gauge: Gauge<string>, key: Key, status: ClusterStatus, k: Key, was: ClusterStatus)
    requires InProgressIs(gauge, k, was)
    ensures var rest := Without(gauge, key);
            var out := if status.Operation? then rest[(key, status.name) := 1] else rest;
            InProgressIs(out, k, if k == key then status else was)
  {
  }

  ghost predicate Refreshed(inProgress: Gauge<string>, phases: Gauge<Phase>, configs: Gauge<ConfigPhase>,
                            inProgress': Gauge<string>, phases': Gauge<Phase>, configs': Gauge<ConfigPhase>, c: Change)
    requires c.Recorded?
  {
    && (var rest := Without(inProgress, c.key);
        inProgress' == if c.status.Operation? then rest[(c.key, c.status.name) := 1] else rest)
    && SetFor(phases, phases', c.key, PHASE_VALUES, c.phase)
    && (if c.config.None? then configs' == Without(configs, c.key)
        else SetFor(configs, configs', c.key, CONFIG_PHASE_VALUES, c.config.value.phase))
  }

  lemma SeriesAfter(inProgress: Gauge<string>, phases: Gauge<Phase>, configs: Gauge<ConfigPhase>,
                    inProgress': Gauge<string>, phases': Gauge<Phase>, configs': Gauge<ConfigPhase>, c: Change,
                    latest: Option<Change>, k: Key)
    requires c.Recorded? && (latest.Some? ==> latest.value.Recorded?)
    requires Refreshed(inProgress, phases, configs, inProgress', phases', configs', c)
    requires SeriesOf(inProgress, phases, configs, latest, k)
    ensures SeriesOf(inProgress', phases', configs', if k == c.key then Some(c) else latest, k)
  {
    hide SetFor, StateSet, InProgressIs, Without;
    var status := if latest.Some? then latest.value.status else NoStatus;
    var phase := if latest.Some? then latest.value.phase else PhaseUnset;
    var shown := latest.Some? && latest.value.config.Some?;
    var was := if shown then latest.value.config.value.phase else ConfigPhaseUnset;
    InProgressAfter(inProgress, c.key, c.status, k, status);
    StateSetAfterSet(phases, phases', c.key, PHASE_VALUES, c.phase, k, latest.Some?, phase);
    if c.config.None? {
      StateSetAfterDelete(configs, c.key, CONFIG_PHASE_VALUES, ConfigPhaseUnset, k, shown, was);
    } else {
      StateSetAfterSet(configs, configs', c.key, CONFIG_PHASE_VALUES, c.config.value.phase, k, shown, was);
    }
  }

  ghost predicate AllSeries(inProgress: Gauge<string>, phases: Gauge<Phase>, configs: Gauge<ConfigPhase>, changes: seq<Change>) {
    forall key: Key :: SeriesOf(inProgress, phases, configs, Latest(changes, key), key)
  }

  lemma RecordSeries(inProgress: Gauge<string>, phases: Gauge<Phase>, configs: Gauge<ConfigPhase>,
                     inProgress': Gauge<string>, phases': Gauge<Phase>, configs': Gauge<ConfigPhase>, changes: seq<Change>, c: Change)
    requires c.Recorded? && AllSeries(inProgress, phases, configs, changes)
    requires Refreshed(inProgress, phases, configs, inProgress', phases', configs', c)
    ensures AllSeries(inProgress', phases', configs', changes + [c])
  {
    hide Refreshed, SeriesOf, Latest;
    forall k: Key ensures SeriesOf(inProgress', phases', configs', Latest(changes + [c], k), k) {
      LatestAppend(changes, c, k);
      SeriesAfter(inProgress, phases, configs, inProgress', phases', configs', c, Latest(changes, k), k);
    }
  }

  lemma DeleteSeries(inProgress: Gauge<string>, phases: Gauge<Phase>, configs: Gauge<ConfigPhase>, changes: seq<Change>, key: Key)
    requires AllSeries(inProgress, phases, configs, changes)
    ensures AllSeries(Without(inProgress, key), Without(phases, key), Without(configs, key), changes + [Deleted(key)])
  {
    hide Latest, StateSet, InProgressIs, Without;
    forall k: Key
      ensures SeriesOf(Without(inProgress, key), Without(phases, key), Without(configs, key), Latest(changes + [Deleted(key)], k), k)
    {
      LatestAppend(changes, Deleted(key), k);
      var latest := Latest(changes, k);
      assert SeriesOf(inProgress, phases, configs, latest, k);
      var shown := latest.Some? && latest.value.config.Some?;
      InProgressAfter(inProgress, key, NoStatus, k, if latest.Some? then latest.value.status else NoStatus);
      StateSetAfterDelete(phases, key, PHASE_VALUES, PhaseUnset, k, latest.Some?, if latest.Some? then latest.value.phase else PhaseUnset);
      StateSetAfterDelete(configs, key, CONFIG_PHASE_VALUES, ConfigPhaseUnset, k, shown,
                          if shown then latest.value.config.value.phase else ConfigPhaseUnset);
    }
  }

  /** The series of a key, written out from its latest record. */
  lemma SeriesShow(inProgress: Gauge<string>, phases: Gauge<Phase>, configs: Gauge<ConfigPhase>, changes: seq<Change>, key: Key)
    requires AllSeries(inProgress, phases, configs, changes)
    ensures var r := Latest(changes, key);
            && (forall op: string :: (key, op) in inProgress <==> r.Some? && r.value.status == Operation(op))
            && (forall op: string | (key, op) in inProgress :: inProgress[(key, op)] == 1)
            && (forall p: Phase :: (key, p) in phases <==> r.Some? && (p.PhaseReady? || p.PhaseConfiguring? || p.PhaseError?))
            && (forall p: Phase | (key, p) in phases :: phases[(key, p)] == if p == r.value.phase then 1 else 0)
            && (forall p: ConfigPhase :: (key, p) in configs <==>
                  (&& r.Some? && r.value.config.Some?
                   && (p.ConfigPhasePending? || p.ConfigPhaseInProgress? || p.ConfigPhaseSuperseded? || p.ConfigPhaseApplied?)))
            && (forall p: ConfigPhase | (key, p) in configs :: configs[(key, p)] == if p == r.value.config.value.phase then 1 else 0)
  {
    hide Latest;
    var r := Latest(changes, key);
    assert SeriesOf(inProgress, phases, configs, r, key);
    forall p: Phase ensures p in PHASE_VALUES <==> p.PhaseReady? || p.PhaseConfiguring? || p.PhaseError? {
      assert PHASE_VALUES[0] == PhaseReady && PHASE_VALUES[1] == PhaseConfiguring && PHASE_VALUES[2] == PhaseError;
    }
    forall p: ConfigPhase
      ensures p in CONFIG_PHASE_VALUES <==>
              p.ConfigPhasePending? || p.ConfigPhaseInProgress? || p.ConfigPhaseSuperseded? || p.ConfigPhaseApplied?
    {
      assert CONFIG_PHASE_VALUES[0] == ConfigPhasePending && CONFIG_PHASE_VALUES[1] == ConfigPhaseInProgress;
      assert CONFIG_PHASE_VALUES[2] == ConfigPhaseSuperseded && CONFIG_PHASE_VALUES[3] == ConfigPhaseApplied;
    }
  }

  class FleetMetrics {
    const operations: OpTracker
    const readiness: ReadyTracker
    var inProgress: Gauge<string>
    var phases: Gauge<Phase>
    var configPhases: Gauge<ConfigPhase>
    var timeToReady: seq<int>
    ghost var changes: seq<Change>

    ghost predicate Valid()
      reads this, operations, readiness
    {
      && operations.Valid() && operations.log == OpLog(changes)
      && readiness.Valid() && readiness.calls == ReadyCalls(changes)
      && timeToReady == ReadySamples(changes)
      && AllSeries(inProgress, phases, configPhases, changes)
    }

    constructor ()
      ensures Valid() && changes == []
      ensures fresh(operations) && fresh(readiness)
    {
      operations := new OpTracker();
      readiness := new ReadyTracker();
      inProgress, phases, configPhases, timeToReady, changes := map[], map[], map[], [], [];
    }

    /** recordRedkeyMetrics. */
    method Record(key: Key, status: ClusterStatus, phase: Phase, config: Option<ActiveConfig>, now: int)
      requires Valid()
      modifies this, operations, readiness
      ensures Valid() && changes == old(changes) + [Recorded(key, status, phase, config, now)]
    {
      hide OpLog, ReadyCalls, ReadySamples, Latest, SeriesOf, Phases, SetFor, Without, Rises, OpTracker.Valid, ReadyTracker.Valid;
      ghost var c := Recorded(key, status, phase, config, now);
      ChangesAppend(changes, c);
      operations.Observe(key, status, phase, now);
      inProgress := Without(inProgress, key);
      if status.Operation? {
        inProgress := inProgress[(key, status.name) := 1];
      }
      phases := SetStates(phases, key, PHASE_VALUES, phase);
      if config.None? {
        configPhases := Without(configPhases, key);
      } else {
        configPhases := SetStates(configPhases, key, CONFIG_PHASE_VALUES, config.value.phase);
        var entered := readiness.EnteredReady(key, phase);
        if entered {
          timeToReady := timeToReady + [now - config.value.createdAt];
        }
      }
      changes := changes + [c];
      RecordSeries(old(inProgress), old(phases), old(configPhases), inProgress, phases, configPhases, old(changes), c);
    }

    /** deleteRedkeyMetrics. */
    method Delete(key: Key)
      requires Valid()
      modifies this, operations, readiness
      ensures Valid() && changes == old(changes) + [Deleted(key)]
      ensures (forall op: string :: (key, op) !in inProgress) && (forall p: Phase :: (key, p) !in phases)
      ensures forall p: ConfigPhase :: (key, p) !in configPhases
      ensures timeToReady == old(timeToReady)
    {
      hide OpLog, ReadyCalls, ReadySamples, Latest, SeriesOf, Phases, Without, OpTracker.Valid, ReadyTracker.Valid;
      ghost var c := Deleted(key);
      ChangesAppend(changes, c);
      phases := Without(phases, key);
      configPhases := Without(configPhases, key);
      inProgress := Without(inProgress, key);
      operations.Forget(key);
      readiness.Forget(key);
      changes := changes + [c];
      DeleteSeries(old(inProgress), old(phases), old(configPhases), old(changes), key);
      LatestAppend(old(changes), c, key);
      SeriesShow(inProgress, phases, configPhases, changes, key);
    }

    /** The in-progress gauge shows exactly the tracked operation of a key, or nothing. */
    lemma GaugeIsTracked(key: Key, op: string)
      requires Valid()
      ensures (key, op) in inProgress <==> key in operations.active && operations.active[key].operation == op
    {
      hide OpLog, Latest, BlockStart, View;
      LatestIsLastView(changes, key);
      assert Tracks(operations.active, operations.log, key);
      assert SeriesOf(inProgress, phases, configPhases, Latest(changes, key), key);
    }
  }
}
