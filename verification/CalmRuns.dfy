/** Uninterrupted runs: operator steps that succeed and read the live Redkey. Such a run can always go
    on, and every reconcile in it ends. */
module CalmRuns {
  import opened Types
  import opened Queue
  import opened Protocol
  import opened Safety
  import Admission

  /** Operator steps that succeed and read the live Redkey. */
  predicate Calm(s: State, l: Label) {
    match l
    case UserUpdate(_) => false
    case Touch => false
    case RobinWrite(_, _) => false
    case Crash => false
    case Snapshot(k) => k == |s.log| - 1
    case Fetch(k) => k == |s.log| - 1
    case _ => true
  }

  predicate CalmRun(s: State, labels: seq<Label>)
    requires CanRun(s, labels)
  {
    labels == [] ||
    (CalmRun(s, labels[..|labels| - 1]) && Calm(After(s, labels[..|labels| - 1]), labels[|labels| - 1]))
  }

  lemma {:induction false} CalmFirst(s: State, labels: seq<Label>)
    requires CanRun(s, labels) && CalmRun(s, labels) && labels != []
    ensures Enabled(s, labels[0]) && Calm(s, labels[0])
    ensures CanRun(Do(s, labels[0]), labels[1..]) && CalmRun(Do(s, labels[0]), labels[1..])
    ensures After(Do(s, labels[0]), labels[1..]) == After(s, labels)
  {
    hide Enabled, Do, Calm;
    var front, l := labels[..|labels| - 1], labels[|labels| - 1];
    if front == [] {
      assert labels == [l];
    } else {
      CalmFirst(s, front);
      var t := Do(s, labels[0]);
      assert labels[1..] == front[1..] + [l];
      RunExtend(t, front[1..], l);
      assert labels[1..][..|labels| - 2] == front[1..];
    }
  }

  /** How far an operator step is from the end of its reconcile. */
  function Rank(s: State): nat {
    var n := |s.configs|;
    match s.pc
    case Idle => 0
    case Zeroing => 1
    case Wiping(left) => 1 + |left|
    case WipeListing => 2 + n
    case Tearing(todo) => 2 + n + |todo|
    case Storing(list, k) => if k == |s.log| - 1 then 1 else 3
    case Fetching(list) => 2
    case Cleaning(list, i) => 3 + (if i <= |list| then |list| - i else 0)
    case Relisting => 4 + n
    case Creating(_) => 6 + n
    case Ensuring(todo, ThenCreate(_)) => 6 + n + |todo|
    case Ensuring(todo, ThenFetch(_)) => 6 + n + |todo|
    case Listing => 12 + n
    case Ensuring(todo, ThenList) => 12 + n + |todo|
  }

  lemma RemoveShrinks(configs: map<nat, Config>, q: nat)
    requires q in configs
    ensures |configs - {q}| == |configs| - 1
  {
    assert (configs - {q}).Keys == configs.Keys - {q};
    assert |configs| == |configs.Keys| && |configs - {q}| == |(configs - {q}).Keys|;
  }

  lemma AddGrows(configs: map<nat, Config>, q: nat, c: Config)
    requires q !in configs
    ensures |configs[q := c]| == |configs| + 1
  {
    assert configs[q := c].Keys == configs.Keys + {q};
    assert |configs| == |configs.Keys| && |configs[q := c]| == |configs[q := c].Keys|;
  }

  lemma ListEnds(s: State)
    requires s.seen < |s.log| && Keyed(s.configs, s.cluster)
    ensures s.pc.Listing? ==> Rank(DoList(s)) < Rank(s)
    ensures s.pc.Relisting? ==> Rank(DoRelist(s)) < Rank(s)
  {
    hide ListConfigs, NeedsNewConfig;
    ListIsStore(s.configs, s.cluster);
  }

  lemma CreateEnds(s: State)
    requires Inv(s) && s.pc.Creating?
    ensures Rank(DoCreate(s)) < Rank(s)
  {
    hide QueueInv, ObservedInv, RecordInv, SourceInv, PhaseInv, HistoryInv, HighestInv, NewConfig, Top, Gen, Genuine;
    CreateAddsTop(s);
    var c := NewConfig(s.cluster, Snap(s).generation, Snap(s).spec, s.pc.highest);
    AddGrows(s.configs, c.manifest.sequence, c);
  }

  lemma CleanEnds(s: State)
    requires s.pc.Cleaning? && s.pc.list != []
    ensures Rank(DoClean(s)) < Rank(s)
  {
  }

  lemma WipeEnds(s: State, q: nat)
    requires s.pc.Wiping? && q in s.pc.left
    ensures Rank(DoWipe(s, q)) < Rank(s)
  {
  }

  lemma WipeListEnds(s: State)
    requires s.pc.WipeListing? && Keyed(s.configs, s.cluster)
    ensures |ListedSet(s)| == |s.configs|
  {
    assert ListedSet(s) == s.configs.Keys;
  }

  /** Reconciles end: from any reachable state inside a reconcile some uninterrupted step is possible,
      and every one of them brings the end nearer. */
  lemma CalmEnds(s: State, l: Label)
    requires Inv(s) && !s.pc.Idle? && Enabled(s, l) && Calm(s, l)
    ensures Rank(Do(s, l)) < Rank(s)
  {
    hide QueueInv, ObservedInv, RecordInv, SourceInv, PhaseInv, HistoryInv, PcInv, DoList, DoRelist, DoCreate, DoClean, DoWipe, ListedSet, Keyed;
    StoreIsKeyed(s.configs, s.cluster, Snap(s).generation, s.history);
    match l
    case List => ListEnds(s);
    case Relist => ListEnds(s);
    case Create => CreateEnds(s);
    case Clean => CleanEnds(s);
    case Wipe(q) => WipeEnds(s, q);
    case WipeList => WipeListEnds(s);
    case _ =>
  }

  function NextCalm(s: State): Label
    requires s.log != []
  {
    match s.pc
    case Idle => Snapshot(|s.log| - 1)
    case Ensuring(_, _) => Ensure
    case Listing => List
    case Creating(_) => Create
    case Relisting => Relist
    case Cleaning(_, _) => Clean
    case Fetching(_) => Fetch(|s.log| - 1)
    case Storing(_, _) => Store(0)
    case Tearing(_) => Tear
    case WipeListing => WipeList
    case Wiping(left) => Wipe(if left == {} then 0 else Max(left))
    case Zeroing => Zero(0)
  }

  lemma CalmEnabled(s: State)
    requires Inv(s)
    ensures Enabled(s, NextCalm(s)) && Calm(s, NextCalm(s))
  {
    hide QueueInv, ObservedInv, RecordInv, SourceInv, PhaseInv, HistoryInv, HighestInv, TopIs;
  }

  lemma {:induction false} CalmConcat(s: State, a: seq<Label>, b: seq<Label>)
    requires CanRun(s, a) && CalmRun(s, a) && CanRun(After(s, a), b) && CalmRun(After(s, a), b)
    ensures CanRun(s, a + b) && After(s, a + b) == After(After(s, a), b) && CalmRun(s, a + b)
  {
    hide Enabled, Do, Calm;
    RunConcat(s, a, b);
    if b == [] {
      assert a + b == a;
    } else {
      var front := b[..|b| - 1];
      CalmConcat(s, a, front);
      assert (a + b)[..|a + b| - 1] == a + front;
    }
  }

  lemma CalmStep(s: State, l: Label)
    requires Enabled(s, l) && Calm(s, l)
    ensures CanRun(s, [l]) && CalmRun(s, [l]) && After(s, [l]) == Do(s, l)
  {
    hide Enabled, Do, Calm;
    assert [l][..0] == [];
    assert CanRun(s, []);
  }

  /** A reconcile in progress can always be carried to its end without interruption. */
  lemma {:induction false} Finish(s: State) returns (labels: seq<Label>)
    requires Inv(s)
    ensures CanRun(s, labels) && CalmRun(s, labels) && After(s, labels).pc.Idle?
    decreases Rank(s)
  {
    hide Inv, Enabled, Do, Calm, Rank;
    if s.pc.Idle? {
      labels := [];
    } else {
      var l := Progress(s);
      StepKeeps(s, l);
      var rest := Finish(Do(s, l));
      CalmStep(s, l);
      CalmConcat(s, [l], rest);
      labels := [l] + rest;
    }
  }

  lemma Progress(s: State) returns (l: Label)
    requires Inv(s) && !s.pc.Idle?
    ensures Enabled(s, l) && Calm(s, l) && Rank(Do(s, l)) < Rank(s)
  {
    l := NextCalm(s);
    CalmEnabled(s);
    CalmEnds(s, l);
  }

  /** Without a user update the live spec and generation stay. */
  lemma SpecHeld(s: State, l: Label)
    requires Enabled(s, l) && !l.UserUpdate?
    ensures Do(s, l).log != [] && Live(Do(s, l)).spec == Live(s).spec && Live(Do(s, l)).generation == Live(s).generation
    ensures Do(s, l).history == s.history && Do(s, l).cluster == s.cluster && s.log <= Do(s, l).log
  {
    hide AggregatedStatus, ZeroedStatus, ListConfigs, NewConfig, SelectActive, Admission.StatusUpdateAdmitted, NeedsNewConfig;
  }

  lemma {:induction false} SpecHeldAlong(s: State, labels: seq<Label>)
    requires s.log != [] && CanRun(s, labels) && CalmRun(s, labels)
    ensures After(s, labels).log != [] && Live(After(s, labels)).spec == Live(s).spec
    ensures Live(After(s, labels)).generation == Live(s).generation && After(s, labels).history == s.history
  {
    hide Enabled, Do;
    if labels != [] {
      SpecHeldAlong(s, labels[..|labels| - 1]);
      SpecHeld(After(s, labels[..|labels| - 1]), labels[|labels| - 1]);
    }
  }

  /** Once the operator has read the live generation it keeps having read it until the next update. */
  lemma SeenStays(s: State, l: Label)
    requires LogInv(s.log, s.seen, s.history) && Enabled(s, l) && !l.UserUpdate? && Snap(s).generation == Live(s).generation
    ensures Do(s, l).seen < |Do(s, l).log| && Snap(Do(s, l)).generation == Live(Do(s, l)).generation
  {
    hide AggregatedStatus, ZeroedStatus, ListConfigs, NewConfig, SelectActive, Admission.StatusUpdateAdmitted, NeedsNewConfig;
    SpecHeld(s, l);
    if l.Snapshot? {
      assert NoLater(s.log, s.seen, l.version) && NoLater(s.log, l.version, |s.log| - 1);
    }
  }

  predicate Held(labels: seq<Label>) {
    forall i | 0 <= i < |labels| :: !labels[i].UserUpdate?
  }

  lemma {:induction false} CalmIsHeld(s: State, labels: seq<Label>)
    requires CanRun(s, labels) && CalmRun(s, labels)
    ensures Held(labels)
  {
    hide Enabled, Do;
    if labels != [] {
      CalmIsHeld(s, labels[..|labels| - 1]);
    }
  }

  // ---- Building runs ----

  const PENDING := ConfigStatus(ConfigPhasePending, NoStatus, "", [])
  const APPLIED := ConfigStatus(ConfigPhaseApplied, ClusterStatusReady, "", [])

  /** A whole uninterrupted reconcile from an idle state. */
  lemma OneReconcile(s: State) returns (labels: seq<Label>)
    requires Inv(s) && s.pc.Idle?
    ensures labels != [] && CanRun(s, labels) && CalmRun(s, labels) && After(s, labels).pc.Idle?
    ensures |labels| > 1 && labels[0] == Snapshot(|s.log| - 1)
  {
    hide QueueInv, ObservedInv, RecordInv, SourceInv, PhaseInv, HistoryInv, CanRun, After, CalmRun;
    var l := Snapshot(|s.log| - 1);
    StepKeeps(s, l);
    var t := Do(s, l);
    var rest := Finish(t);
    CalmStep(s, l);
    CalmConcat(s, [l], rest);
    labels := [l] + rest;
    assert rest != [] by { if rest == [] { NoSteps(t); } }
  }

  lemma NoSteps(s: State)
    ensures CanRun(s, []) && After(s, []) == s
  {
  }

  lemma CalmNoSteps(s: State)
    requires CanRun(s, [])
    ensures CalmRun(s, [])
  {
  }

  lemma OneStep(s: State, l: Label)
    requires Enabled(s, l)
    ensures CanRun(s, [l]) && After(s, [l]) == Do(s, l)
  {
    hide Enabled, Do;
    assert [l][..0] == [];
    NoSteps(s);
  }

  /** A Robin write as a one-step run. */
  lemma Write(s: State, q: nat, status: ConfigStatus) returns (labels: seq<Label>)
    requires Inv(s) && q in s.configs
    ensures CanRun(s, labels) && Held(labels)
    ensures After(s, labels) == s.(configs := s.configs[q := s.configs[q].(status := status)])
    ensures labels == [RobinWrite(q, status)]
  {
    hide QueueInv, ObservedInv, RecordInv, SourceInv, PhaseInv, HistoryInv, PcInv;
    labels := [RobinWrite(q, status)];
    OneStep(s, RobinWrite(q, status));
  }

  lemma CrashAfter(s: State, labels: seq<Label>)
    requires CanRun(s, labels) && Inv(After(s, labels))
    ensures CanRun(s, labels + [Crash]) && After(s, labels + [Crash]) == After(s, labels).(pc := Idle)
  {
    hide QueueInv, ObservedInv, RecordInv, SourceInv, PhaseInv, HistoryInv, PcInv, CanRun, After;
    RunExtend(s, labels, Crash);
  }

  /** Append a user-free run to another, and what stays on the way. */
  lemma Advance(s: State, a: seq<Label>, b: seq<Label>) returns (t: State)
    requires Inv(s) && CanRun(s, a) && CanRun(After(s, a), b) && Held(a) && Held(b)
    ensures CanRun(s, a + b) && Held(a + b) && t == After(s, a + b) == After(After(s, a), b) && Inv(t)
    ensures s.log != [] && t.log != [] && Live(t).spec == Live(s).spec && Live(t).generation == Live(s).generation
  {
    hide QueueInv, ObservedInv, RecordInv, SourceInv, PhaseInv, HistoryInv, PcInv, CanRun, After;
    RunConcat(s, a, b);
    t := After(s, a + b);
    RunKeeps(s, a + b);
    HeldSpec(s, a + b);
  }

  lemma {:induction false} HeldSpec(s: State, labels: seq<Label>)
    requires s.log != [] && CanRun(s, labels) && Held(labels)
    ensures After(s, labels).log != [] && Live(After(s, labels)).spec == Live(s).spec
    ensures Live(After(s, labels)).generation == Live(s).generation
  {
    hide Enabled, Do;
    if labels != [] {
      HeldSpec(s, labels[..|labels| - 1]);
      SpecHeld(After(s, labels[..|labels| - 1]), labels[|labels| - 1]);
    }
  }

  lemma InvMeansSeen(s: State)
    requires Inv(s)
    ensures s.seen < |s.log|
  {
  }
}
