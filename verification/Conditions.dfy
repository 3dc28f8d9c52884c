/** Status conditions: the list operations of apimachinery's meta package and the aggregation of a
    config's state into the conditions of its Redkey. */
module Conditions {
  import opened Types

  /** Index of the first condition of a kind, or the length of the list. */
  function IndexOf(cs: seq<Condition>, kind: Kind): (i: nat)
    ensures i <= |cs|
    ensures i < |cs| ==> cs[i].kind == kind
    ensures forall j | 0 <= j < i :: cs[j].kind != kind
  {
    if cs == [] || cs[0].kind == kind then 0 else 1 + IndexOf(cs[1..], kind)
  }

  function Find(cs: seq<Condition>, kind: Kind): Option<Condition> {
    var i := IndexOf(cs, kind);
    if i < |cs| then Some(cs[i]) else None
  }

  predicate IsTrue(cs: seq<Condition>, kind: Kind) {
    var c := Find(cs, kind);
    c.Some? && c.value.status.ConditionTrue?
  }

  /** The stored form of an update: the transition time moves only when the status does. */
  function Stamped(previous: Option<Condition>, update: Condition, now: int): Condition {
    update.(since := if previous.Some? && previous.value.status == update.status then previous.value.since else now)
  }

  /** meta.SetStatusCondition. */
  function Set(cs: seq<Condition>, update: Condition, now: int): seq<Condition> {
    var i := IndexOf(cs, update.kind);
    if i == |cs| then cs + [Stamped(None, update, now)]
    else cs[i := Stamped(Some(cs[i]), update, now)]
  }

  function SetAll(cs: seq<Condition>, updates: seq<Condition>, now: int): seq<Condition> {
    if updates == [] then cs
    else Set(SetAll(cs, updates[..|updates| - 1], now), updates[|updates| - 1], now)
  }

  predicate IsTerminal(phase: ConfigPhase) {
    phase.ConfigPhaseApplied? || phase.ConfigPhaseSuperseded?
  }

  predicate IsConfigReady(c: Config) {
    IsTerminal(c.status.phase) && !c.status.status.ClusterStatusError?
  }

  predicate HasConfigError(c: Config) {
    IsTerminal(c.status.phase) && c.status.status.ClusterStatusError?
  }

  predicate Settled(c: Config) {
    IsTerminal(c.status.phase) && c.status.status.ClusterStatusReady?
  }

  function ConditionStatus(b: bool): Truth {
    if b then ConditionTrue else ConditionFalse
  }

  const HEALTH_TYPES: seq<Health> :=
    [Healthy, MembershipHealthy, SlotsCovered, SlotsBalanced, ReplicasBalanced, ClusterCheckPassing]

  /** The update for one health type: Robin's own report when the config is settled and has one,
      Unknown otherwise. */
  function HealthUpdate(active: Config, h: Health): Condition {
    var src := Find(active.status.conditions, KindHealth(h));
    if Settled(active) && src.Some?
    then Condition(KindHealth(h), src.value.status, src.value.reason, src.value.message, 0)
    else Condition(KindHealth(h), ConditionUnknown, "Reconciling", "", 0)
  }

  function BasicUpdates(active: Config): seq<Condition> {
    [Condition(KindReady, ConditionStatus(IsConfigReady(active)), "StatusAggregated", "", 0),
     Condition(KindConfigPending, ConditionStatus(!IsTerminal(active.status.phase)), "StatusAggregated", "", 0),
     Condition(KindError, ConditionStatus(HasConfigError(active)), "StatusAggregated", "", 0)]
  }

  function HealthUpdates(active: Config, n: nat): (us: seq<Condition>)
    requires n <= |HEALTH_TYPES|
    ensures |us| == n
  {
    seq(n, i requires 0 <= i < n => HealthUpdate(active, HEALTH_TYPES[i]))
  }

  /** Everything one aggregation sets, in the order it is set. */
  function Updates(active: Config): seq<Condition> {
    BasicUpdates(active) + HealthUpdates(active, |HEALTH_TYPES|)
  }

  function Aggregate(cs: seq<Condition>, active: Config, now: int): seq<Condition> {
    SetAll(cs, Updates(active), now)
  }

  const ZERO_UPDATES: seq<Condition> :=
    [Condition(KindReady, ConditionTrue, "ScaledToZero", "", 0),
     Condition(KindConfigPending, ConditionFalse, "ScaledToZero", "", 0),
     Condition(KindError, ConditionFalse, "ScaledToZero", "", 0)]

  function ComputePhase(cs: seq<Condition>): Phase {
    if IsTrue(cs, KindError) then PhaseError
    else if IsTrue(cs, KindReady) then PhaseReady
    else PhaseConfiguring
  }

  /** The phase the active config alone determines. */
  function PhaseOf(active: Config): Phase {
    if !IsTerminal(active.status.phase) then PhaseConfiguring
    else if active.status.status.ClusterStatusError? then PhaseError
    else PhaseReady
  }

  /** aggregateHealthConditions: one in-place update per health type. */
  method AggregateHealthConditions(conditions: seq<Condition>, active: Config, now: int) returns (out: seq<Condition>)
    ensures out == SetAll(conditions, HealthUpdates(active, |HEALTH_TYPES|), now)
  {
    out := conditions;
    var settled := IsTerminal(active.status.phase) && active.status.status.ClusterStatusReady?;
    var i := 0;
    while i < |HEALTH_TYPES|
      invariant 0 <= i <= |HEALTH_TYPES|
      invariant out == SetAll(conditions, HealthUpdates(active, i), now)
    {
      var kind := KindHealth(HEALTH_TYPES[i]);
      assert HealthUpdates(active, i + 1)[..i] == HealthUpdates(active, i);
      var src := Find(active.status.conditions, kind);
      if settled && src.Some? {
        out := Set(out, Condition(kind, src.value.status, src.value.reason, src.value.message, 0), now);
      } else {
        out := Set(out, Condition(kind, ConditionUnknown, "Reconciling", "", 0), now);
      }
      i := i + 1;
    }
  }

  /** The list holds a condition of this kind with these contents. */
  predicate Holds(cs: seq<Condition>, kind: Kind, status: Truth, reason: string, message: string) {
    var c := Find(cs, kind);
    c.Some? && c.value.status == status && c.value.reason == reason && c.value.message == message
  }

  /** aggregateConditions. Ready, ConfigPending and Error follow the config's phase and status; each health
      type is Robin's own report once the config is terminal and Ready, and Unknown before. */
  method AggregateConditions(existing: seq<Condition>, active: Config, now: int) returns (out: seq<Condition>)
    ensures out == Aggregate(existing, active, now)
    ensures var terminal := active.status.phase.ConfigPhaseApplied? || active.status.phase.ConfigPhaseSuperseded?;
            var error := active.status.status.ClusterStatusError?;
            && Holds(out, KindReady, if terminal && !error then ConditionTrue else ConditionFalse, "StatusAggregated", "")
            && Holds(out, KindConfigPending, if terminal then ConditionFalse else ConditionTrue, "StatusAggregated", "")
            && Holds(out, KindError, if terminal && error then ConditionTrue else ConditionFalse, "StatusAggregated", "")
    ensures forall h: Health ::
              var terminal := active.status.phase.ConfigPhaseApplied? || active.status.phase.ConfigPhaseSuperseded?;
              var src := Find(active.status.conditions, KindHealth(h));
              if terminal && active.status.status.ClusterStatusReady? && src.Some?
              then Holds(out, KindHealth(h), src.value.status, src.value.reason, src.value.message)
              else Holds(out, KindHealth(h), ConditionUnknown, "Reconciling", "")
  {
    hide Holds, Find;
    out := Set(existing, Condition(KindReady, ConditionStatus(IsConfigReady(active)), "StatusAggregated", "", 0), now);
    out := Set(out, Condition(KindConfigPending, ConditionStatus(!IsTerminal(active.status.phase)), "StatusAggregated", "", 0), now);
    out := Set(out, Condition(KindError, ConditionStatus(HasConfigError(active)), "StatusAggregated", "", 0), now);
    SetThree(existing, BasicUpdates(active), now);
    out := AggregateHealthConditions(out, active, now);
    SetAllConcat(existing, BasicUpdates(active), HealthUpdates(active, |HEALTH_TYPES|), now);
    BasicAfterAggregate(existing, active, now);
    forall h: Health { HealthAfterAggregate(existing, active, now, h); }
  }

  lemma SetThree(cs: seq<Condition>, us: seq<Condition>, now: int)
    requires |us| == 3
    ensures SetAll(cs, us, now) == Set(Set(Set(cs, us[0], now), us[1], now), us[2], now)
  {
    assert us[..2][..1] == us[..1] && us[..1][..0] == [];
    assert SetAll(cs, us[..1], now) == Set(cs, us[0], now);
  }

  lemma {:induction false} SetAllConcat(cs: seq<Condition>, us: seq<Condition>, vs: seq<Condition>, now: int)
    ensures SetAll(cs, us + vs, now) == SetAll(SetAll(cs, us, now), vs, now)
  {
    if vs == [] {
      assert us + vs == us;
    } else {
      SetAllConcat(cs, us, vs[..|vs| - 1], now);
      assert (us + vs)[..|us + vs| - 1] == us + vs[..|vs| - 1];
    }
  }

  predicate DistinctKinds(us: seq<Condition>) {
    forall i, j | 0 <= i < j < |us| :: us[i].kind != us[j].kind
  }

  predicate Sets(us: seq<Condition>, kind: Kind) {
    exists i | 0 <= i < |us| :: us[i].kind == kind
  }

  lemma IndexUnique(cs: seq<Condition>, kind: Kind, i: nat)
    requires i <= |cs| && (i < |cs| ==> cs[i].kind == kind)
    requires forall j | 0 <= j < i :: cs[j].kind != kind
    ensures IndexOf(cs, kind) == i
  {
  }

  /** One update changes the entry of its own kind and nothing else. */
  lemma FindSet(cs: seq<Condition>, update: Condition, now: int, kind: Kind)
    ensures Find(Set(cs, update, now), kind) ==
            if kind == update.kind then Some(Stamped(Find(cs, kind), update, now)) else Find(cs, kind)
  {
    var out := Set(cs, update, now);
    var i := IndexOf(cs, kind);
    if kind == update.kind || i < |cs| {
      IndexUnique(out, kind, i);
    } else {
      IndexUnique(out, kind, |out|);
    }
  }

  /** After a batch of updates of distinct kinds, every updated kind holds its update, stamped
      against the list before the batch, and every other kind is as it was. */
  lemma {:induction false} FindSetAll(cs: seq<Condition>, us: seq<Condition>, now: int, kind: Kind)
    requires DistinctKinds(us)
    ensures forall i | 0 <= i < |us| && us[i].kind == kind ::
              Find(SetAll(cs, us, now), kind) == Some(Stamped(Find(cs, kind), us[i], now))
    ensures !Sets(us, kind) ==> Find(SetAll(cs, us, now), kind) == Find(cs, kind)
  {
    if us != [] {
      var front, last := us[..|us| - 1], us[|us| - 1];
      FindSetAll(cs, front, now, kind);
      FindSet(SetAll(cs, front, now), last, now, kind);
      assert Sets(front, kind) ==> Sets(us, kind);
      if last.kind == kind {
        assert !Sets(front, kind);
      }
    }
  }

  /** Setting what is already stored changes nothing, whatever the clock says. */
  lemma SetNoop(cs: seq<Condition>, update: Condition, now: int)
    requires Find(cs, update.kind) == Some(Stamped(Find(cs, update.kind), update, now))
    ensures Set(cs, update, now) == cs
  {
  }

  lemma {:induction false} SetAllNoop(cs: seq<Condition>, us: seq<Condition>, now: int)
    requires forall i | 0 <= i < |us| ::
               Find(cs, us[i].kind) == Some(Stamped(Find(cs, us[i].kind), us[i], now))
    ensures SetAll(cs, us, now) == cs
  {
    if us != [] {
      SetAllNoop(cs, us[..|us| - 1], now);
      SetNoop(cs, us[|us| - 1], now);
    }
  }

  /** Positional frame: entries of kinds the batch does not set stay where and what they are, entries
      keep their kinds, and whatever is appended has a kind the batch sets. */
  lemma {:induction false} SetAllFrame(cs: seq<Condition>, us: seq<Condition>, now: int)
    ensures |cs| <= |SetAll(cs, us, now)|
    ensures forall i | 0 <= i < |cs| ::
              SetAll(cs, us, now)[i].kind == cs[i].kind && (!Sets(us, cs[i].kind) ==> SetAll(cs, us, now)[i] == cs[i])
    ensures forall i | |cs| <= i < |SetAll(cs, us, now)| :: Sets(us, SetAll(cs, us, now)[i].kind)
  {
    if us != [] {
      var front := us[..|us| - 1];
      SetAllFrame(cs, front, now);
      forall k ensures Sets(us, k) <==> Sets(front, k) || us[|us| - 1].kind == k {
        if Sets(front, k) {
          var i :| 0 <= i < |front| && front[i].kind == k;
          assert us[i].kind == k;
        }
      }
    }
  }

  lemma UpdatesDistinct(active: Config)
    ensures DistinctKinds(Updates(active)) && |Updates(active)| == 9
    ensures Updates(active)[..3] == BasicUpdates(active)
    ensures forall i | 0 <= i < 6 :: Updates(active)[3 + i] == HealthUpdate(active, HEALTH_TYPES[i])
  {
    hide Settled, IsConfigReady, HasConfigError, IsTerminal, Find, IndexOf;
  }

  predicate Aggregated(kind: Kind) {
    kind.KindReady? || kind.KindConfigPending? || kind.KindError? || kind.KindHealth?
  }

  lemma SetsExactlyAggregated(active: Config, kind: Kind)
    ensures Sets(Updates(active), kind) <==> Aggregated(kind)
  {
    UpdatesDistinct(active);
    var us := Updates(active);
    assert us[0].kind == KindReady && us[1].kind == KindConfigPending && us[2].kind == KindError;
    if kind.KindHealth? {
      var h := kind.health;
      var i := match h
        case Healthy => 0 case MembershipHealthy => 1 case SlotsCovered => 2
        case SlotsBalanced => 3 case ReplicasBalanced => 4 case ClusterCheckPassing => 5;
      assert HEALTH_TYPES[i] == h;
      assert us[3 + i].kind == kind;
    }
  }

  /** The three basic conditions after aggregation, for every prior list: Ready means terminal without an
      error, ConfigPending means not terminal, Error means terminal with an error. */
  lemma BasicAfterAggregate(cs: seq<Condition>, active: Config, now: int)
    ensures var out := Aggregate(cs, active, now);
            var terminal := active.status.phase.ConfigPhaseApplied? || active.status.phase.ConfigPhaseSuperseded?;
            var error := active.status.status.ClusterStatusError?;
            && Holds(out, KindReady, if terminal && !error then ConditionTrue else ConditionFalse, "StatusAggregated", "")
            && Holds(out, KindConfigPending, if terminal then ConditionFalse else ConditionTrue, "StatusAggregated", "")
            && Holds(out, KindError, if terminal && error then ConditionTrue else ConditionFalse, "StatusAggregated", "")
  {
    hide Find, Updates;
    UpdatesDistinct(active);
    var us := Updates(active);
    assert us[0] == BasicUpdates(active)[0] && us[1] == BasicUpdates(active)[1] && us[2] == BasicUpdates(active)[2];
    FindSetAll(cs, us, now, KindReady);
    FindSetAll(cs, us, now, KindConfigPending);
    FindSetAll(cs, us, now, KindError);
  }

  /** Health after aggregation, for every prior list: each of the six types is present. While the config is
      terminal, Ready and reports it, the report is mirrored as it is; otherwise the type is Unknown. So it
      is True exactly when a terminal, Ready config reports True. */
  lemma HealthAfterAggregate(cs: seq<Condition>, active: Config, now: int, h: Health)
    ensures var out, src := Aggregate(cs, active, now), Find(active.status.conditions, KindHealth(h));
            var terminal := active.status.phase.ConfigPhaseApplied? || active.status.phase.ConfigPhaseSuperseded?;
            if terminal && active.status.status.ClusterStatusReady? && src.Some?
            then Holds(out, KindHealth(h), src.value.status, src.value.reason, src.value.message)
            else Holds(out, KindHealth(h), ConditionUnknown, "Reconciling", "")
    ensures IsTrue(Aggregate(cs, active, now), KindHealth(h)) <==>
            Settled(active) && IsTrue(active.status.conditions, KindHealth(h))
  {
    UpdatesDistinct(active);
    FindSetAll(cs, Updates(active), now, KindHealth(h));
    var i := match h
      case Healthy => 0 case MembershipHealthy => 1 case SlotsCovered => 2
      case SlotsBalanced => 3 case ReplicasBalanced => 4 case ClusterCheckPassing => 5;
    assert HEALTH_TYPES[i] == h;
    assert Updates(active)[3 + i].kind == KindHealth(h);
  }

  /** Whatever was stored before, the phase after aggregation is a function of the active config:
      Configuring until it is Applied or Superseded, then Error or Ready as its status says. Ready and
      Error are never both True. */
  lemma PhaseAfterAggregate(cs: seq<Condition>, active: Config, now: int)
    ensures var phase := ComputePhase(Aggregate(cs, active, now));
            && phase == PhaseOf(active)
            && (phase.PhaseConfiguring? <==> !active.status.phase.ConfigPhaseApplied? && !active.status.phase.ConfigPhaseSuperseded?)
            && (phase.PhaseError? <==> !phase.PhaseConfiguring? && active.status.status.ClusterStatusError?)
            && (phase.PhaseReady? <==> !phase.PhaseConfiguring? && !active.status.status.ClusterStatusError?)
    ensures !(IsTrue(Aggregate(cs, active, now), KindReady) && IsTrue(Aggregate(cs, active, now), KindError))
  {
    hide Find, Aggregate;
    BasicAfterAggregate(cs, active, now);
  }

  /** The scaled-to-zero writer agrees: its conditions always compute to the phase it stores, and it
      touches no other kind. */
  lemma PhaseAfterZero(cs: seq<Condition>, now: int)
    ensures var out := SetAll(cs, ZERO_UPDATES, now);
            && ComputePhase(out) == PhaseReady
            && Holds(out, KindReady, ConditionTrue, "ScaledToZero", "")
            && Holds(out, KindConfigPending, ConditionFalse, "ScaledToZero", "")
            && Holds(out, KindError, ConditionFalse, "ScaledToZero", "")
            && (forall kind: Kind | !kind.KindReady? && !kind.KindConfigPending? && !kind.KindError? :: Find(out, kind) == Find(cs, kind))
  {
    hide Find;
    var us := ZERO_UPDATES;
    assert us[0].kind == KindReady && us[1].kind == KindConfigPending && us[2].kind == KindError;
    FindSetAll(cs, us, now, KindReady);
    FindSetAll(cs, us, now, KindConfigPending);
    FindSetAll(cs, us, now, KindError);
    forall kind: Kind | !kind.KindReady? && !kind.KindConfigPending? && !kind.KindError?
      ensures Find(SetAll(cs, us, now), kind) == Find(cs, kind)
    {
      FindSetAll(cs, us, now, kind);
    }
  }

  /** Transition times move exactly when a status does (or an entry appears), and unrelated kinds
      keep their entries untouched and in place. */
  lemma AggregateFrame(cs: seq<Condition>, active: Config, now: int, kind: Kind)
    requires Aggregated(kind)
    ensures var before, after := Find(cs, kind), Find(Aggregate(cs, active, now), kind);
            && after.Some?
            && after.value.since ==
               (if before.Some? && before.value.status == after.value.status then before.value.since else now)
    ensures var out := Aggregate(cs, active, now);
            && |cs| <= |out|
            && (forall i | 0 <= i < |cs| && !Aggregated(cs[i].kind) :: out[i] == cs[i])
            && (forall i | |cs| <= i < |out| :: Aggregated(out[i].kind))
  {
    UpdatesDistinct(active);
    SetsExactlyAggregated(active, kind);
    FindSetAll(cs, Updates(active), now, kind);
    SetAllFrame(cs, Updates(active), now);
    forall k ensures Sets(Updates(active), k) <==> Aggregated(k) {
      SetsExactlyAggregated(active, k);
    }
  }

  /** Aggregating the same config again, at any later time, changes nothing at all. */
  lemma AggregateIdempotent(cs: seq<Condition>, active: Config, now: int, later: int)
    ensures Aggregate(Aggregate(cs, active, now), active, later) == Aggregate(cs, active, now)
  {
    UpdatesDistinct(active);
    var us := Updates(active);
    var out := Aggregate(cs, active, now);
    forall i | 0 <= i < |us|
      ensures Find(out, us[i].kind) == Some(Stamped(Find(out, us[i].kind), us[i], later))
    {
      FindSetAll(cs, us, now, us[i].kind);
    }
    SetAllNoop(out, us, later);
  }
}
