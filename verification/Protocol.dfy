/** The control protocol as a labelled step system. Three actors share the API server: the user, whose
    spec updates pass admission; Robin, which may write any config status at any time; and the
    operator, whose Reconcile is split at every API call, may crash or fail between any two of them,
    and may read a Redkey version that lags behind the live one but never goes back. */
module Protocol {
  import opened Types
  import opened Text
  import opened Queue
  import Admission
  import Conditions

  /** Where the operator goes once Robin's objects are in place. */
  datatype Next = ThenList | ThenCreate(highest: Option<Config>) | ThenFetch(list: seq<Config>)

  /** The operator's control point with the values it has read. */
  datatype Pc =
    | Idle
    | Ensuring(todo: seq<RobinObject>, next: Next)
    | Listing
    | Creating(highest: Option<Config>)
    | Relisting
    | Cleaning(list: seq<Config>, done: nat)
    | Fetching(list: seq<Config>)
    | Storing(list: seq<Config>, version: nat)
    | Tearing(todo: seq<RobinObject>)
    | WipeListing
    | Wiping(left: set<nat>)
    | Zeroing

  /** `log` holds every stored version of the Redkey; an index is a resource version and the last
      entry is the live object. `seen` is the version of the operator's latest snapshot. `history` is
      the spec of each generation from 1, and `source` the generation of the config the recorded
      topology came from (0 when nothing is recorded); no step depends on these two. */
  datatype State = State(
    cluster: string,
    log: seq<Redkey>,
    configs: map<nat, Config>,
    robin: set<RobinObject>,
    seen: nat,
    pc: Pc,
    history: seq<Spec>,
    source: int)

  datatype Label =
    | UserUpdate(spec: Spec) | Touch
    | RobinWrite(sequence: nat, status: ConfigStatus)
    | Crash
    | Snapshot(version: nat)
    | Ensure | List | Create | Relist | Clean
    | Fetch(version: nat) | Store(now: int)
    | Tear | WipeList | Wipe(sequence: nat) | Zero(now: int)

  const ENSURE_ORDER: seq<RobinObject> := [ServiceAccount, Role, RoleBinding, Deployment]
  const TEARDOWN_ORDER: seq<RobinObject> := [Deployment, RoleBinding, Role, ServiceAccount]

  function Live(s: State): Redkey
    requires s.log != []
  {
    s.log[|s.log| - 1]
  }

  function Snap(s: State): Redkey
    requires s.seen < |s.log|
  {
    s.log[s.seen]
  }

  // ---- Status writes ----

  predicate Records(live: Redkey, active: Config) {
    !live.spec.ephemeral && active.status.phase.ConfigPhaseApplied? && active.manifest.spec.primaries > 0
  }

  /** A non-zero topology the status schema accepts. */
  predicate WithinBounds(topology: (int, int)) {
    0 < topology.0 <= Admission.MAX_RECORD && 0 <= topology.1 <= Admission.MAX_RECORD
  }

  predicate Recordable(c: Config) {
    WithinBounds(Topology(c.manifest.spec))
  }

  function AggregatedStatus(live: Redkey, active: Config, observed: int, now: int): Status {
    var conditions := Conditions.Aggregate(live.status.conditions, active, now);
    Status(live.spec.primaries, Conditions.ComputePhase(conditions), active.status.status, active.status.detail,
           conditions, now, observed,
           if Records(live, active) then active.manifest.spec.primaries else live.status.lastPrimaries,
           if Records(live, active) then active.manifest.spec.replicas else live.status.lastReplicas)
  }

  function ZeroedStatus(r: Redkey, now: int): Status {
    Status(0, PhaseReady, NoStatus, "", Conditions.SetAll(r.status.conditions, Conditions.ZERO_UPDATES, now),
           now, r.generation, r.status.lastPrimaries, r.status.lastReplicas)
  }

  // ---- Steps ----

  predicate Enabled(s: State, l: Label) {
    && s.log != [] && s.seen < |s.log|
    && match l
       case UserUpdate(spec) =>
         spec != Live(s).spec && Live(s).generation < MAX_INT64 && Admission.SpecUpdateAdmitted(Live(s), spec)
       case Touch => true
       case RobinWrite(q, _) => q in s.configs
       case Crash => true
       case Snapshot(k) => s.pc.Idle? && s.seen <= k < |s.log|
       case Ensure => s.pc.Ensuring? && s.pc.todo != []
       case List => s.pc.Listing?
       case Create => s.pc.Creating?
       case Relist => s.pc.Relisting?
       case Clean => s.pc.Cleaning? && s.pc.list != []
       case Fetch(k) => s.pc.Fetching? && k < |s.log|
       case Store(_) => s.pc.Storing? && s.pc.list != []
       case Tear => s.pc.Tearing? && s.pc.todo != []
       case WipeList => s.pc.WipeListing?
       case Wipe(q) => s.pc.Wiping? && q in s.pc.left
       case Zero(_) => s.pc.Zeroing?
  }

  function Do(s: State, l: Label): State
    requires Enabled(s, l)
  {
    match l
    case UserUpdate(spec) =>
      s.(log := s.log + [Redkey(Live(s).generation + 1, spec, Live(s).status)], history := s.history + [spec])
    case Touch => s.(log := s.log + [Live(s)])
    case RobinWrite(q, status) => s.(configs := s.configs[q := s.configs[q].(status := status)])
    case Crash => s.(pc := Idle)
    case Snapshot(k) => DoSnapshot(s, k)
    case Ensure => DoEnsure(s)
    case List => DoList(s)
    case Create => DoCreate(s)
    case Relist => DoRelist(s)
    case Clean => DoClean(s)
    case Fetch(k) => s.(pc := Storing(s.pc.list, k))
    case Store(now) => DoStore(s, now)
    case Tear => DoTear(s)
    case WipeList => s.(pc := if ListedSet(s) == {} then Zeroing else Wiping(ListedSet(s)))
    case Wipe(q) => DoWipe(s, q)
    case Zero(now) => DoZero(s, now)
  }

  /** Reconcile starts: read the Redkey, dispatch on zero primaries. */
  function DoSnapshot(s: State, k: nat): State
    requires k < |s.log|
  {
    s.(seen := k, pc := if s.log[k].spec.primaries == 0 then Listing else Ensuring(ENSURE_ORDER, ThenList))
  }

  /** ensureRBAC and ensureRobinDeployment, one object at a time. */
  function DoEnsure(s: State): State
    requires s.pc.Ensuring? && s.pc.todo != []
  {
    var rest := s.pc.todo[1..];
    s.(robin := s.robin + {s.pc.todo[0]},
       pc := if rest != [] then Ensuring(rest, s.pc.next)
             else match s.pc.next
                  case ThenList => Listing
                  case ThenCreate(highest) => Creating(highest)
                  case ThenFetch(list) => Fetching(list))
  }

  function Highest(list: seq<Config>): Option<Config> {
    if list == [] then None else Some(list[|list| - 1])
  }

  /** The list of a normal reconcile, or the four cases of scale-to-zero. */
  function DoList(s: State): State
    requires s.seen < |s.log|
  {
    var list := ListConfigs(s.configs, s.cluster);
    var highest := Highest(list);
    s.(pc :=
         if Snap(s).spec.primaries != 0 then
           if list == [] || NeedsNewConfig(Snap(s).generation, Snap(s).status.observed, highest)
           then Creating(highest) else Cleaning(list, 0)
         else if list == [] then Zeroing
         else if highest.value.manifest.spec.primaries != 0 then Ensuring(ENSURE_ORDER, ThenCreate(highest))
         else if highest.value.status.phase.ConfigPhaseApplied? then Tearing(TEARDOWN_ORDER)
         else Ensuring(ENSURE_ORDER, ThenFetch(list)))
  }

  /** Create, where an existing name is a no-op. Case B returns here; a normal reconcile lists again. */
  function DoCreate(s: State): State
    requires s.seen < |s.log| && s.pc.Creating?
  {
    var c := NewConfig(s.cluster, Snap(s).generation, Snap(s).spec, s.pc.highest);
    s.(configs := if c.manifest.sequence in s.configs then s.configs else s.configs[c.manifest.sequence := c],
       pc := if Snap(s).spec.primaries == 0 then Idle else Relisting)
  }

  function DoRelist(s: State): State {
    var list := ListConfigs(s.configs, s.cluster);
    s.(pc := if list == [] then Idle else Cleaning(list, 0))
  }

  /** One delete of cleanup, or its end. */
  function DoClean(s: State): State
    requires s.pc.Cleaning? && s.pc.list != []
  {
    var list, i := s.pc.list, s.pc.done;
    if i < CleanupCount(list)
    then s.(configs := s.configs - {list[i].manifest.sequence}, pc := Cleaning(list, i + 1))
    else s.(pc := Fetching(list[CleanupCount(list)..]))
  }

  /** The status update of aggregateStatus: a stale version conflicts and is fetched again, an
      inadmissible status is rejected. */
  function DoStore(s: State, now: int): State
    requires s.seen < |s.log| && s.pc.Storing? && s.pc.list != []
  {
    var live, active := Live(s), SelectActive(s.pc.list);
    var status := AggregatedStatus(live, active, Snap(s).generation, now);
    if s.pc.version != |s.log| - 1 then s.(pc := Fetching(s.pc.list))
    else if !Admission.StatusUpdateAdmitted(live, status) then s.(pc := Idle)
    else s.(log := s.log + [live.(status := status)],
            source := if Records(live, active) then Gen(active) else s.source,
            pc := Idle)
  }

  function DoTear(s: State): State
    requires s.pc.Tearing? && s.pc.todo != []
  {
    var rest := s.pc.todo[1..];
    s.(robin := s.robin - {s.pc.todo[0]}, pc := if rest == [] then WipeListing else Tearing(rest))
  }

  function ListedSet(s: State): set<nat> {
    set q | q in s.configs && Labelled(s.configs[q], s.cluster)
  }

  /** deleteAllConfigs deletes in the order of an unsorted list: any order. */
  function DoWipe(s: State, q: nat): State
    requires s.pc.Wiping?
  {
    var rest := s.pc.left - {q};
    s.(configs := s.configs - {q}, pc := if rest == {} then Zeroing else Wiping(rest))
  }

  /** updateStatusScaledToZero writes the snapshot back: anything newer than the snapshot conflicts. */
  function DoZero(s: State, now: int): State
    requires s.seen < |s.log|
  {
    var status := ZeroedStatus(Snap(s), now);
    if s.seen == |s.log| - 1 && Admission.StatusUpdateAdmitted(Snap(s), status)
    then s.(log := s.log + [Snap(s).(status := status)], pc := Idle)
    else s.(pc := Idle)
  }

  // ---- Runs ----

  /** A Redkey just created with an admissible spec. */
  function Initial(cluster: string, spec: Spec): State {
    State(cluster, [Redkey(1, spec, NEW_STATUS)], map[], {}, 0, Idle, [spec], 0)
  }

  predicate CanRun(s: State, labels: seq<Label>)
    decreases |labels|, 0
  {
    labels == [] || (CanRun(s, labels[..|labels| - 1]) && Enabled(After(s, labels[..|labels| - 1]), labels[|labels| - 1]))
  }

  function After(s: State, labels: seq<Label>): State
    requires CanRun(s, labels)
    decreases |labels|, 1
  {
    if labels == [] then s else Do(After(s, labels[..|labels| - 1]), labels[|labels| - 1])
  }

  lemma RunExtend(s: State, labels: seq<Label>, l: Label)
    requires CanRun(s, labels) && Enabled(After(s, labels), l)
    ensures CanRun(s, labels + [l]) && After(s, labels + [l]) == Do(After(s, labels), l)
  {
    assert (labels + [l])[..|labels|] == labels;
  }

  lemma {:induction false} RunConcat(s: State, a: seq<Label>, b: seq<Label>)
    requires CanRun(s, a) && CanRun(After(s, a), b)
    ensures CanRun(s, a + b) && After(s, a + b) == After(After(s, a), b)
  {
    if b == [] {
      assert a + b == a;
    } else {
      RunConcat(s, a, b[..|b| - 1]);
      assert (a + b)[..|a + b| - 1] == a + b[..|b| - 1];
    }
  }

  // ---- The invariant ----

  /** A stored version carries the spec of its generation, and claims to have observed no generation
      above the floor, the generation of the operator's latest snapshot. */
  predicate Stored(r: Redkey, floor: int, history: seq<Spec>) {
    && 1 <= r.generation <= |history|
    && r.spec == history[r.generation - 1]
    && r.status.observed <= floor
  }

  predicate NoLater(log: seq<Redkey>, j: nat, k: nat)
    requires j < |log| && k < |log|
  {
    log[j].generation <= log[k].generation
  }

  predicate LogInv(log: seq<Redkey>, seen: nat, history: seq<Spec>) {
    && seen < |log|
    && log[|log| - 1].generation == |history| <= MAX_INT64
    && (forall k | 0 <= k < |log| :: Stored(log[k], log[seen].generation, history))
    && (forall j: nat, k: nat | j <= k < |log| :: NoLater(log, j, k))
  }

  predicate HistoryInv(history: seq<Spec>) {
    forall g | 0 <= g < |history| :: Admission.StaticRules(history[g]) && Admission.SameKind(history[0], history[g])
  }

  /** A config keyed by its sequence, found by the selector, and carrying the spec of the generation
      its annotation names. */
  predicate Genuine(q: nat, c: Config, cluster: string, floor: int, history: seq<Spec>) {
    match c
    case Config(manifest, _) =>
      && manifest.sequence == q && q >= 1
      && Labelled(c, cluster)
      && 1 <= Gen(c) <= floor
      && Gen(c) <= |history|
      && manifest.spec == ConfigSpecOf(history[Gen(c) - 1])
  }

  predicate Older(configs: map<nat, Config>, q: nat, r: nat)
    requires q in configs && r in configs
  {
    Gen(configs[q]) < Gen(configs[r])
  }

  predicate Increasing(configs: map<nat, Config>) {
    forall q, r | q in configs && r in configs && q < r :: Older(configs, q, r)
  }

  predicate QueueInv(configs: map<nat, Config>, cluster: string, floor: int, history: seq<Spec>) {
    && (forall q | q in configs :: Genuine(q, configs[q], cluster, floor, history))
    && Increasing(configs)
  }

  function Top(configs: map<nat, Config>): Config
    requires configs != map[]
  {
    assert configs.Keys != {};
    configs[Max(configs.Keys)]
  }

  predicate TopIs(configs: map<nat, Config>, generation: int) {
    configs != map[] && Gen(Top(configs)) == generation
  }

  /** A non-zero version whose generation its status claims to have observed. */
  predicate Claims(r: Redkey) {
    r.spec.primaries != 0 && r.status.observed >= r.generation
  }

  /** Whatever version the operator may still read, a claimed generation is the newest config's. */
  predicate ObservedInv(log: seq<Redkey>, seen: nat, configs: map<nat, Config>) {
    forall k | seen <= k < |log| && Claims(log[k]) :: TopIs(configs, log[k].generation)
  }

  /** The recorded topology is that of an earlier generation of this storage cluster, `source`. */
  predicate RecordInv(status: Status, source: int, floor: int, history: seq<Spec>) {
    match status
    case Status(_, phase, _, _, _, _, _, lastPrimaries, lastReplicas) =>
      && Admission.StatusFits(status)
      && (source == 0 ==> lastPrimaries == 0 && lastReplicas == 0)
      && (source != 0 ==>
            && 1 <= source <= floor && source <= |history|
            && history[source - 1].primaries == lastPrimaries > 0
            && history[source - 1].replicas == lastReplicas
            && !phase.PhaseUnset?
            && !history[source - 1].ephemeral)
  }

  /** No config in the store is older than the source of the record. */
  predicate SourceInv(source: int, configs: map<nat, Config>) {
    forall q | q in configs :: source <= Gen(configs[q])
  }

  /** Once written, the phase is the one the conditions compute to, and Ready and Error exclude each other. */
  predicate PhaseInv(status: Status) {
    match status
    case Status(_, phase, _, _, conditions, _, _, _, _) =>
      !phase.PhaseUnset? ==>
        && phase == Conditions.ComputePhase(conditions)
        && !(Conditions.IsTrue(conditions, KindReady) && Conditions.IsTrue(conditions, KindError))
  }

  predicate Same(a: Config, b: Config) {
    match a case Config(manifest, _) => manifest == b.manifest
  }

  /** A list read earlier still is the store, up to statuses: only the operator adds or removes. */
  predicate Mirrors(list: seq<Config>, configs: map<nat, Config>) {
    && list != [] && Sorted(list) && Keys(list) == configs.Keys
    && forall i | 0 <= i < |list| :: list[i].manifest.sequence in configs && Same(list[i], configs[list[i].manifest.sequence])
  }

  predicate HighestInv(highest: Option<Config>, configs: map<nat, Config>, snap: Redkey) {
    if highest.None? then configs == map[]
    else configs != map[] && Same(highest.value, Top(configs)) && Gen(highest.value) < snap.generation
  }

  predicate FetchInv(list: seq<Config>, configs: map<nat, Config>, snap: Redkey) {
    Mirrors(list, configs) && (snap.spec.primaries == 0 || TopIs(configs, snap.generation))
  }

  predicate NextInv(next: Next, configs: map<nat, Config>, snap: Redkey) {
    match next
    case ThenList => snap.spec.primaries != 0
    case ThenCreate(highest) => snap.spec.primaries == 0 && highest.Some? && HighestInv(highest, configs, snap)
    case ThenFetch(list) => snap.spec.primaries == 0 && FetchInv(list, configs, snap)
  }

  /** What the operator knows at each control point, however stale the statuses it read. */
  predicate PcInv(pc: Pc, configs: map<nat, Config>, snap: Redkey) {
    var zero := snap.spec.primaries == 0;
    match pc
    case Idle => true
    case Ensuring(todo, next) => todo != [] && NextInv(next, configs, snap)
    case Listing => true
    case Creating(highest) => HighestInv(highest, configs, snap)
    case Relisting => !zero && TopIs(configs, snap.generation)
    case Cleaning(list, i) =>
      && !zero && list != [] && i <= CleanupCount(list)
      && Mirrors(list[i..], configs) && TopIs(configs, snap.generation)
    case Fetching(list) => FetchInv(list, configs, snap)
    case Storing(list, k) => FetchInv(list, configs, snap)
    case Tearing(todo) => zero && todo != []
    case WipeListing => zero
    case Wiping(left) => zero && left != {} && left == configs.Keys
    case Zeroing => zero && configs == map[]
  }

  predicate Inv(s: State) {
    && LogInv(s.log, s.seen, s.history)
    && HistoryInv(s.history)
    && QueueInv(s.configs, s.cluster, Snap(s).generation, s.history)
    && ObservedInv(s.log, s.seen, s.configs)
    && RecordInv(Live(s).status, s.source, Snap(s).generation, s.history)
    && SourceInv(s.source, s.configs)
    && PhaseInv(Live(s).status)
    && PcInv(s.pc, s.configs, Snap(s))
  }
}
