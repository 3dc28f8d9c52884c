/** Scale to zero: what uninterrupted reconciles achieve from any state, in particular from any state a
    failed or partial teardown leaves behind. */
module ScaleToZero {
  import opened Types
  import opened Queue
  import opened Protocol
  import opened Safety
  import opened CalmRuns
  import Admission
  import Conditions

  const ALL_OBJECTS: set<RobinObject> := {ServiceAccount, Role, RoleBinding, Deployment}

  /** Scaled to zero and nothing left: no configs, no Robin objects, Ready with 0 replicas. */
  predicate Clean0(s: State)
    requires s.log != []
  {
    && s.configs == map[] && s.robin == {}
    && Live(s).status.replicas == 0 && Live(s).status.phase.PhaseReady?
    && Conditions.IsTrue(Live(s).status.conditions, KindReady)
    && Live(s).status.observed == Live(s).generation
  }

  predicate TopZeroApplied(configs: map<nat, Config>) {
    configs != map[] && Top(configs).manifest.spec.primaries == 0 && Top(configs).status.phase.ConfigPhaseApplied?
  }

  /** Scaled to zero, and the operator has read that generation. */
  predicate ZeroSeen(s: State) {
    s.log != [] && s.seen < |s.log| && Live(s).spec.primaries == 0 && Snap(s).generation == Live(s).generation
  }

  /** An uninterrupted teardown, at each of its control points. */
  predicate TearingDown(s: State, record: (int, int)) {
    && s.log != [] && Live(s).spec.primaries == 0
    && Record(Live(s).status) == record
    && (!s.pc.Idle? ==> s.seen == |s.log| - 1)
    && match s.pc
       case Idle => Clean0(s)
       case Listing => TopZeroApplied(s.configs) || (s.configs == map[] && s.robin == {})
       case Tearing(todo) => forall o | o in s.robin :: o in todo
       case WipeListing => s.robin == {}
       case Wiping(_) => s.robin == {}
       case Zeroing => s.robin == {}
       case _ => false
  }

  lemma TeardownList(s: State, record: (int, int))
    requires Inv(s) && TearingDown(s, record) && s.pc.Listing?
    ensures TearingDown(DoList(s), record)
  {
    hide ObservedInv, RecordInv, SourceInv, PhaseInv, HistoryInv, QueueInv, ListConfigs, Mirrors, Record;
    StoreIsKeyed(s.configs, s.cluster, Snap(s).generation, s.history);
    ListMirrors(s.configs, s.cluster);
    var t := DoList(s);
    if s.configs != map[] {
      forall o | o in s.robin ensures o in TEARDOWN_ORDER {
        match o
        case ServiceAccount => assert TEARDOWN_ORDER[3] == o;
        case Role => assert TEARDOWN_ORDER[2] == o;
        case RoleBinding => assert TEARDOWN_ORDER[1] == o;
        case Deployment => assert TEARDOWN_ORDER[0] == o;
      }
    }
  }

  lemma TeardownZero(s: State, record: (int, int), now: int)
    requires Inv(s) && TearingDown(s, record) && s.pc.Zeroing?
    ensures TearingDown(DoZero(s, now), record)
  {
    hide ObservedInv, SourceInv, HistoryInv, QueueInv, PhaseInv;
    Conditions.FindSetAll(Snap(s).status.conditions, Conditions.ZERO_UPDATES, now, KindReady);
    assert Conditions.ZERO_UPDATES[0].kind == KindReady;
  }

  lemma TeardownStep(s: State, record: (int, int), l: Label)
    requires Inv(s) && TearingDown(s, record) && Enabled(s, l) && Calm(s, l)
    ensures TearingDown(Do(s, l), record)
  {
    hide ObservedInv, RecordInv, SourceInv, HistoryInv, QueueInv, PhaseInv, Record, DoList, DoZero;
    match l
    case List => TeardownList(s, record);
    case Zero(now) => TeardownZero(s, record, now);
    case Tear =>
      var rest := s.pc.todo[1..];
      assert forall o | o in s.pc.todo :: o == s.pc.todo[0] || o in rest;
    case _ =>
  }

  lemma {:induction false} TeardownRun(s: State, record: (int, int), labels: seq<Label>)
    requires Inv(s) && TearingDown(s, record) && CanRun(s, labels) && CalmRun(s, labels)
    ensures TearingDown(After(s, labels), record)
  {
    hide Inv, TearingDown, Enabled, Do, Calm;
    if labels != [] {
      var front := labels[..|labels| - 1];
      TeardownRun(s, record, front);
      RunKeeps(s, front);
      TeardownStep(After(s, front), record, labels[|labels| - 1]);
    }
  }

  /** Scale-to-zero survives interruption. Take any reachable idle state of a Redkey held at zero, in
      particular one left by a teardown that failed anywhere, whose highest config is the zero config
      Robin has applied. Every uninterrupted run of one or more reconciles ends with no configs, no
      Deployment, no RBAC and Ready with 0 replicas, and further reconciles keep it so. The record does
      not move on the way. */
  lemma TeardownCompletes(s: State, labels: seq<Label>)
    requires Inv(s) && s.pc.Idle? && Live(s).spec.primaries == 0 && TopZeroApplied(s.configs)
    requires CanRun(s, labels) && CalmRun(s, labels) && labels != [] && After(s, labels).pc.Idle?
    ensures var t := After(s, labels);
            t.log != [] && Clean0(t) && Record(Live(t).status) == Record(Live(s).status)
  {
    hide ObservedInv, RecordInv, SourceInv, HistoryInv, QueueInv, PhaseInv, Record, CanRun, After, CalmRun, TopZeroApplied;
    CalmFirst(s, labels);
    var t := Do(s, labels[0]);
    StepKeeps(s, labels[0]);
    assert labels[0].Snapshot?;
    assert TearingDown(t, Record(Live(s).status));
    TeardownRun(t, Record(Live(s).status), labels[1..]);
  }

  // ---- Before Robin is done ----

  /** The zero config is queued for Robin, and Robin is there to process it. */
  predicate Queued(s: State) {
    && s.configs != map[] && Top(s.configs).manifest.spec.primaries == 0
    && s.robin == ALL_OBJECTS
  }

  predicate Present(robin: set<RobinObject>, todo: seq<RobinObject>) {
    forall o | o in ALL_OBJECTS :: o in robin || o in todo
  }

  /** An uninterrupted run before the zero config is Applied, at each of its control points. */
  predicate Queueing(s: State) {
    && s.log != [] && Live(s).spec.primaries == 0
    && s.configs != map[] && !TopZeroApplied(s.configs)
    && (!s.pc.Idle? ==> s.seen == |s.log| - 1)
    && match s.pc
       case Idle => Queued(s)
       case Listing => true
       case Ensuring(todo, ThenCreate(_)) => Present(s.robin, todo)
       case Ensuring(todo, ThenFetch(_)) => Present(s.robin, todo) && Top(s.configs).manifest.spec.primaries == 0
       case Creating(_) => Present(s.robin, [])
       case Fetching(_) => Present(s.robin, []) && Top(s.configs).manifest.spec.primaries == 0
       case Storing(_, k) => Present(s.robin, []) && Top(s.configs).manifest.spec.primaries == 0 && k == |s.log| - 1
       case _ => false
  }

  lemma AllPresent(s: State)
    requires Present(s.robin, [])
    ensures s.robin == ALL_OBJECTS
  {
    forall o | o in s.robin ensures o in ALL_OBJECTS {
      match o case ServiceAccount => case Role => case RoleBinding => case Deployment =>
    }
    forall o | o in ALL_OBJECTS ensures o in s.robin {
    }
  }

  lemma OrderIsAll(o: RobinObject)
    ensures o in ENSURE_ORDER
  {
    match o
    case ServiceAccount => assert ENSURE_ORDER[0] == o;
    case Role => assert ENSURE_ORDER[1] == o;
    case RoleBinding => assert ENSURE_ORDER[2] == o;
    case Deployment => assert ENSURE_ORDER[3] == o;
  }

  lemma QueueingList(s: State)
    requires Inv(s) && Queueing(s) && s.pc.Listing?
    ensures Queueing(DoList(s))
  {
    hide ObservedInv, RecordInv, SourceInv, PhaseInv, HistoryInv, QueueInv, ListConfigs, Mirrors, NeedsNewConfig;
    StoreIsKeyed(s.configs, s.cluster, Snap(s).generation, s.history);
    ListMirrors(s.configs, s.cluster);
    forall o | o in ALL_OBJECTS ensures o in ENSURE_ORDER { OrderIsAll(o); }
  }

  lemma QueueingEnsure(s: State)
    requires Inv(s) && Queueing(s) && s.pc.Ensuring?
    ensures Queueing(DoEnsure(s))
  {
    hide ObservedInv, RecordInv, SourceInv, PhaseInv, HistoryInv, QueueInv, TopZeroApplied;
    var todo := s.pc.todo;
    var rest := todo[1..];
    assert forall o | o in todo :: o == todo[0] || o in rest;
  }

  lemma QueueingCreate(s: State)
    requires Inv(s) && Queueing(s) && s.pc.Creating?
    ensures Queueing(DoCreate(s))
  {
    hide ObservedInv, RecordInv, SourceInv, PhaseInv, HistoryInv, QueueInv, HighestInv, Top, Gen, Genuine, NewConfig, Present;
    CreateAddsTop(s);
    NewConfigFields(s.cluster, Snap(s).generation, Snap(s).spec, s.pc.highest);
    AllPresent(s);
  }

  lemma QueueingStep(s: State, l: Label)
    requires Inv(s) && Queueing(s) && Enabled(s, l) && Calm(s, l)
    ensures Queueing(Do(s, l))
  {
    hide ObservedInv, RecordInv, SourceInv, PhaseInv, HistoryInv, QueueInv, PcInv, TopZeroApplied, DoList, DoEnsure, DoCreate, Present, ALL_OBJECTS, AggregatedStatus, SelectActive, Admission.StatusUpdateAdmitted;
    match l
    case List => QueueingList(s);
    case Ensure => QueueingEnsure(s);
    case Create => QueueingCreate(s);
    case Store(_) => AllPresent(s);
    case _ =>
  }

  lemma {:induction false} QueueingRun(s: State, labels: seq<Label>)
    requires Inv(s) && Queueing(s) && CanRun(s, labels) && CalmRun(s, labels)
    ensures Queueing(After(s, labels))
  {
    hide Inv, Queueing, Enabled, Do, Calm;
    if labels != [] {
      var front := labels[..|labels| - 1];
      QueueingRun(s, front);
      RunKeeps(s, front);
      QueueingStep(After(s, front), labels[|labels| - 1]);
    }
  }

  /** Whatever configs are present, every uninterrupted run of one or more reconciles at zero leaves a
      zero config on top of the queue and all of Robin's objects in place, as long as Robin has not
      applied it. This covers a teardown that deleted the zero config but not the older ones. */
  lemma ZeroConfigQueued(s: State, labels: seq<Label>)
    requires Inv(s) && s.pc.Idle? && Live(s).spec.primaries == 0 && s.configs != map[] && !TopZeroApplied(s.configs)
    requires CanRun(s, labels) && CalmRun(s, labels) && labels != [] && After(s, labels).pc.Idle?
    ensures Queued(After(s, labels))
  {
    hide ObservedInv, RecordInv, SourceInv, HistoryInv, QueueInv, PhaseInv, CanRun, After, CalmRun, TopZeroApplied, Queued;
    CalmFirst(s, labels);
    var t := Do(s, labels[0]);
    StepKeeps(s, labels[0]);
    assert Queueing(t);
    QueueingRun(t, labels[1..]);
  }

  /** Both halves together: from any reachable idle state at zero with at least one config, reconcile
      without interruption, let Robin apply the highest config, reconcile without interruption again:
      everything is gone and the Redkey is Ready with 0 replicas. */
  lemma ScaleToZeroCompletes(s: State, first: seq<Label>, status: ConfigStatus, second: seq<Label>)
    requires Inv(s) && s.pc.Idle? && Live(s).spec.primaries == 0 && s.configs != map[] && !TopZeroApplied(s.configs)
    requires CanRun(s, first) && CalmRun(s, first) && first != [] && After(s, first).pc.Idle?
    requires status.phase.ConfigPhaseApplied?
    ensures var mid := After(s, first);
            && mid.log != [] && mid.seen < |mid.log| && mid.configs != map[]
            && var t := Do(mid, RobinWrite(Max(mid.configs.Keys), status));
               CanRun(t, second) && CalmRun(t, second) && second != [] && After(t, second).pc.Idle? ==>
                 After(t, second).log != [] && Clean0(After(t, second))
  {
    hide ObservedInv, RecordInv, SourceInv, HistoryInv, QueueInv, PhaseInv, CanRun, After, CalmRun, Clean0;
    ZeroConfigQueued(s, first);
    RunKeeps(s, first);
    SpecHeldAlong(s, first);
    var mid := After(s, first);
    var q := Max(mid.configs.Keys);
    assert q in mid.configs.Keys;
    var t := Do(mid, RobinWrite(q, status));
    StepKeeps(mid, RobinWrite(q, status));
    assert t.configs.Keys == mid.configs.Keys;
    if CanRun(t, second) && CalmRun(t, second) && second != [] && After(t, second).pc.Idle? {
      TeardownCompletes(t, second);
    }
  }

  lemma TopWritten(configs: map<nat, Config>, z: nat, status: ConfigStatus)
    requires configs != map[] && z == Max(configs.Keys) && Top(configs).manifest.spec.primaries == 0 && status.phase.ConfigPhaseApplied?
    ensures var b := configs[z := configs[z].(status := status)];
            b.Keys == configs.Keys && TopZeroApplied(b) && Max(b.Keys) == z
  {
    var b := configs[z := configs[z].(status := status)];
    assert b.Keys == configs.Keys;
  }

  // ---- And it stays so ----

  /** Nothing left, the zero generation read, and the operator where it can then be. */
  predicate CleanSeen(s: State) {
    ZeroSeen(s) && Clean0(s) && (s.pc.Idle? || s.pc.Listing? || s.pc.Zeroing?)
  }

  /** A calm teardown ends in such a state. */
  lemma CleanIsSeen(s: State, labels: seq<Label>)
    requires Inv(s) && s.pc.Idle? && Live(s).spec.primaries == 0 && TopZeroApplied(s.configs)
    requires CanRun(s, labels) && CalmRun(s, labels) && labels != [] && After(s, labels).pc.Idle?
    ensures CleanSeen(After(s, labels))
  {
    hide ObservedInv, RecordInv, SourceInv, HistoryInv, QueueInv, PhaseInv, CanRun, After, CalmRun, TopZeroApplied, Clean0;
    TeardownCompletes(s, labels);
    CalmFirst(s, labels);
    var t := Do(s, labels[0]);
    StepKeeps(s, labels[0]);
    SpecHeldAlong(s, labels);
    CalmIsHeld(t, labels[1..]);
    SeenAlong(t, labels[1..]);
  }

  lemma {:induction false} SeenAlong(s: State, labels: seq<Label>)
    requires Inv(s) && CanRun(s, labels) && Held(labels) && Snap(s).generation == Live(s).generation
    ensures var t := After(s, labels); t.seen < |t.log| && Snap(t).generation == Live(t).generation
  {
    hide Inv, Enabled, Do;
    if labels == [] {
      assert s.seen < |s.log| by { InvMeansSeen(s); }
    } else {
      var front := labels[..|labels| - 1];
      SeenAlong(s, front);
      RunKeeps(s, front);
      SeenStep(After(s, front), labels[|labels| - 1]);
    }
  }

  lemma SeenStep(s: State, l: Label)
    requires Inv(s) && Enabled(s, l) && !l.UserUpdate? && Snap(s).generation == Live(s).generation
    ensures Do(s, l).seen < |Do(s, l).log| && Snap(Do(s, l)).generation == Live(Do(s, l)).generation
  {
    hide QueueInv, ObservedInv, RecordInv, SourceInv, PhaseInv, HistoryInv, PcInv, Do;
    SeenStays(s, l);
  }

  lemma CleanZero(s: State, now: int)
    requires Inv(s) && CleanSeen(s) && s.pc.Zeroing?
    ensures Clean0(DoZero(s, now))
  {
    hide ObservedInv, SourceInv, HistoryInv, QueueInv, PhaseInv;
    Conditions.FindSetAll(Snap(s).status.conditions, Conditions.ZERO_UPDATES, now, KindReady);
    assert Conditions.ZERO_UPDATES[0].kind == KindReady;
  }

  lemma CleanStep(s: State, l: Label)
    requires Inv(s) && CleanSeen(s) && Enabled(s, l) && !l.UserUpdate?
    ensures CleanSeen(Do(s, l))
  {
    hide ObservedInv, RecordInv, SourceInv, HistoryInv, QueueInv, PhaseInv, DoZero, ListConfigs, Conditions.IsTrue;
    SpecHeld(s, l);
    SeenStep(s, l);
    ListIsStore(map[], s.cluster);
    if l.Zero? { CleanZero(s, l.now); ZeroKeepsStore(s, l.now); }
  }

  lemma ZeroKeepsStore(s: State, now: int)
    requires s.seen < |s.log|
    ensures DoZero(s, now).pc == Idle
  {
  }

  /** Nothing comes back: whatever Robin writes, however often the operator crashes, restarts or reads
      old versions of the same generation, a cluster torn down at zero stays without configs and Robin
      objects, Ready with 0 replicas, until the user changes the spec. */
  lemma {:induction false} CleanForever(s: State, labels: seq<Label>)
    requires Inv(s) && CleanSeen(s) && CanRun(s, labels) && Held(labels)
    ensures CleanSeen(After(s, labels))
  {
    hide Inv, CleanSeen, Enabled, Do;
    if labels != [] {
      var front := labels[..|labels| - 1];
      CleanForever(s, front);
      RunKeeps(s, front);
      CleanStep(After(s, front), labels[|labels| - 1]);
    }
  }

  // ---- Building scale-down runs ----

  /** Some readable version is at zero. */
  predicate ZeroAhead(s: State, j: nat) {
    s.seen <= j < |s.log| && s.log[j].spec.primaries == 0
  }

  /** Case B under a zero snapshot, to its end: a zero config is on top. */
  lemma {:induction false} QueueZero(s: State) returns (labels: seq<Label>)
    requires Inv(s) && s.configs != map[] && Snap(s).spec.primaries == 0
    requires s.pc.Creating? || (s.pc.Ensuring? && s.pc.next.ThenCreate?)
    ensures CanRun(s, labels) && Held(labels)
    ensures var t := After(s, labels);
            && t.pc.Idle? && t.configs != map[] && Top(t.configs).manifest.spec.primaries == 0
            && t.log == s.log && t.seen == s.seen
    decreases Rank(s)
  {
    hide Inv, CanRun, After, Rank, Do, Enabled, Calm;
    InvMeansSeen(s);
    var l := Progress(s);
    StepKeeps(s, l);
    OneStep(s, l);
    QueueZeroStep(s, l);
    if l.Create? {
      labels := [l];
    } else {
      var rest := QueueZero(Do(s, l));
      RunConcat(s, [l], rest);
      labels := [l] + rest;
    }
  }

  lemma QueueZeroStep(s: State, l: Label)
    requires Inv(s) && s.configs != map[] && Snap(s).spec.primaries == 0 && Enabled(s, l) && Calm(s, l)
    requires s.pc.Creating? || (s.pc.Ensuring? && s.pc.next.ThenCreate?)
    ensures Do(s, l).log == s.log && Do(s, l).seen == s.seen && !l.UserUpdate?
    ensures if l.Create? then Do(s, l).pc.Idle? && Do(s, l).configs != map[] && Top(Do(s, l).configs).manifest.spec.primaries == 0
            else Do(s, l).configs == s.configs && (Do(s, l).pc.Creating? || (Do(s, l).pc.Ensuring? && Do(s, l).pc.next.ThenCreate?))
  {
    hide QueueInv, ObservedInv, RecordInv, SourceInv, PhaseInv, HistoryInv, NewConfig, Gen, Genuine;
    if l.Create? {
      CreateAddsTop(s);
      NewConfigFields(s.cluster, Snap(s).generation, Snap(s).spec, s.pc.highest);
    }
  }

  /** Reading zero version j from an idle state: case B or case C, as the top config decides. */
  lemma ReadZero(s: State, j: nat) returns (labels: seq<Label>)
    requires Inv(s) && s.pc.Idle? && ZeroAhead(s, j) && s.configs != map[]
    requires Top(s.configs).manifest.spec.primaries != 0 || Top(s.configs).status.phase.ConfigPhaseApplied?
    ensures CanRun(s, labels) && Held(labels)
    ensures var t := After(s, labels);
            && t.configs == s.configs && t.log == s.log && t.seen == j
            && if Top(s.configs).manifest.spec.primaries != 0 then t.pc.Ensuring? && t.pc.next.ThenCreate? else t.pc.Tearing?
  {
    hide QueueInv, ObservedInv, RecordInv, SourceInv, PhaseInv, HistoryInv, CanRun, After, ListConfigs, Keyed, Mirrors;
    StepKeeps(s, Snapshot(j));
    OneStep(s, Snapshot(j));
    var t := Do(s, Snapshot(j));
    StoreIsKeyed(t.configs, t.cluster, Snap(t).generation, t.history);
    ListMirrors(t.configs, t.cluster);
    OneStep(t, List);
    RunConcat(s, [Snapshot(j)], [List]);
    labels := [Snapshot(j)] + [List];
  }

  /** Robin reports the top config Applied. */
  lemma ApplyTop(s: State) returns (labels: seq<Label>)
    requires Inv(s) && s.configs != map[]
    ensures CanRun(s, labels) && Held(labels)
    ensures var t := After(s, labels);
            && t == s.(configs := t.configs) && t.configs != map[] && t.configs.Keys == s.configs.Keys
            && Top(t.configs) == Top(s.configs).(status := APPLIED)
    ensures labels == [RobinWrite(Max(s.configs.Keys), APPLIED)]
  {
    hide Inv, CanRun, After;
    assert s.configs.Keys != {};
    assert Max(s.configs.Keys) in s.configs;
    labels := Write(s, Max(s.configs.Keys), APPLIED);
    var t := After(s, labels);
    assert t.configs.Keys == s.configs.Keys;
  }
}
