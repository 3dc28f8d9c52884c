/** The same protocol with a config cache that lags: every list is some past version of the store, no
    older than the last one listed. Runs contain no deleteAllConfigs. Creating from a lagging list is
    harmless to the store, but not always to the generation being created for. */
module LaggingCache {
  import opened Types
  import opened Queue
  import opened Protocol
  import opened Safety
  import Admission

  /** `versions` holds every state of the config store, the live one last; a list shows one from
      `cached` on. `missed` collects the generations whose create met an existing name that belongs to
      another generation; no step depends on it. */
  datatype Lagging = Lagging(p: State, versions: seq<map<nat, Config>>, cached: nat, missed: set<int>)

  datatype Move = Plain(step: Label) | ListFrom(version: nat)

  predicate CanMove(s: Lagging, m: Move) {
    && s.p.log != [] && s.p.seen < |s.p.log|
    && match m
       case Plain(l) => !l.List? && !l.Relist? && !l.WipeList? && Enabled(s.p, l)
       case ListFrom(k) => s.cached <= k < |s.versions| && (s.p.pc.Listing? || s.p.pc.Relisting?)
  }

  /** The create about to happen hits a name that another generation has taken. */
  predicate Masked(p: State)
    requires p.seen < |p.log| && p.pc.Creating?
  {
    var n := NextSequence(p.pc.highest);
    n in p.configs && Gen(p.configs[n]) != Snap(p).generation
  }

  function Missed(s: Lagging, l: Label): set<int>
    requires s.p.seen < |s.p.log| && Enabled(s.p, l)
  {
    if !l.Create? then s.missed
    else if Masked(s.p) then s.missed + {Snap(s.p).generation}
    else s.missed - {Snap(s.p).generation}
  }

  /** Where the protocol goes when it lists `shown` instead of the live store. */
  function PcAfterList(p: State, shown: map<nat, Config>): Pc
    requires p.seen < |p.log|
  {
    if p.pc.Listing? then DoList(p.(configs := shown)).pc else DoRelist(p.(configs := shown)).pc
  }

  function Moved(s: Lagging, m: Move): Lagging
    requires CanMove(s, m)
  {
    match m
    case Plain(l) => var p := Do(s.p, l); Lagging(p, s.versions + [p.configs], s.cached, Missed(s, l))
    case ListFrom(k) => s.(p := s.p.(pc := PcAfterList(s.p, s.versions[k])), cached := k)
  }

  predicate CanGo(s: Lagging, moves: seq<Move>)
    decreases |moves|, 0
  {
    moves == [] || (CanGo(s, moves[..|moves| - 1]) && CanMove(Gone(s, moves[..|moves| - 1]), moves[|moves| - 1]))
  }

  function Gone(s: Lagging, moves: seq<Move>): Lagging
    requires CanGo(s, moves)
    decreases |moves|, 1
  {
    if moves == [] then s else Moved(Gone(s, moves[..|moves| - 1]), moves[|moves| - 1])
  }

  function Start(cluster: string, spec: Spec): Lagging {
    Lagging(Initial(cluster, spec), [map[]], 0, {})
  }

  // ---- The invariant ----

  /** The highest sequence, 0 for an empty store. */
  function TopSeq(configs: map<nat, Config>): nat {
    if configs == map[] then 0 else assert configs.Keys != {}; Max(configs.Keys)
  }

  /** A version that may still be listed is at most one config behind the live store. */
  predicate Trails(shown: map<nat, Config>, live: map<nat, Config>, cluster: string) {
    && Keyed(shown, cluster)
    && TopSeq(shown) <= TopSeq(live) <= TopSeq(shown) + 1
    && (TopSeq(shown) == TopSeq(live) ==>
          (shown == map[] <==> live == map[]) && (shown != map[] ==> Same(Top(shown), Top(live))))
    && (TopSeq(shown) < TopSeq(live) && shown != map[] ==> live != map[] && Gen(Top(shown)) < Gen(Top(live)))
  }

  predicate VersionsInv(versions: seq<map<nat, Config>>, cached: nat, live: map<nat, Config>, cluster: string) {
    && cached < |versions| && versions[|versions| - 1] == live
    && (forall k | cached <= k < |versions| :: Trails(versions[k], live, cluster))
    && (forall j: nat, k: nat | cached <= j <= k < |versions| :: Rises(versions, j, k))
  }

  predicate Rises(versions: seq<map<nat, Config>>, j: nat, k: nat)
    requires j < |versions| && k < |versions|
  {
    TopSeq(versions[j]) <= TopSeq(versions[k])
  }

  /** Versions stay in order when every one of them trails the new live store. */
  lemma AppendRises(versions: seq<map<nat, Config>>, cached: nat, a: map<nat, Config>, b: map<nat, Config>, cluster: string)
    requires VersionsInv(versions, cached, a, cluster) && Keyed(b, cluster)
    requires forall k | cached <= k < |versions| :: Trails(versions[k], b, cluster)
    ensures VersionsInv(versions + [b], cached, b, cluster)
    ensures forall n | Reached(n, versions, cached) :: Reached(n, versions + [b], cached)
  {
    hide Keyed;
    TrailsSelf(b, cluster);
    var versions' := versions + [b];
    forall j: nat, k: nat | cached <= j <= k < |versions'| ensures Rises(versions', j, k) {
      if k < |versions| { assert Rises(versions, j, k); }
    }
    forall n | Reached(n, versions, cached) ensures Reached(n, versions', cached) {
      assert Rises(versions', |versions| - 1, |versions|);
    }
  }

  predicate Honest(configs: map<nat, Config>, generation: int, missed: set<int>) {
    TopIs(configs, generation) <==> generation !in missed
  }

  predicate ClaimsInv(log: seq<Redkey>, seen: nat, configs: map<nat, Config>, missed: set<int>) {
    forall k | seen <= k < |log| && Claims(log[k]) :: Honest(configs, log[k].generation, missed)
  }

  predicate MissedInv(configs: map<nat, Config>, missed: set<int>) {
    forall g | g in missed :: !TopIs(configs, g)
  }

  predicate Reached(n: nat, versions: seq<map<nat, Config>>, cached: nat) {
    forall k | cached <= k < |versions| :: n <= TopSeq(versions[k])
  }

  predicate CreateInv(highest: Option<Config>, s: Lagging)
    requires s.p.seen < |s.p.log|
  {
    var n := NextSequence(highest) - 1;
    && n <= TopSeq(s.p.configs) <= n + 1
    && Reached(n, s.versions, s.cached)
    && (TopSeq(s.p.configs) == n ==> HighestInv(highest, s.p.configs, Snap(s.p)))
  }

  predicate LagPc(s: Lagging)
    requires s.p.seen < |s.p.log|
  {
    var snap := Snap(s.p);
    var zero := snap.spec.primaries == 0;
    var honest := Honest(s.p.configs, snap.generation, s.missed);
    match s.p.pc
    case Idle => true
    case Ensuring(todo, next) =>
      && todo != []
      && (match next
          case ThenList => !zero
          case ThenCreate(highest) => CreateInv(highest, s)
          case ThenFetch(list) => zero && list != [])
    case Listing => true
    case Creating(highest) => CreateInv(highest, s)
    case Relisting => !zero && honest
    case Cleaning(list, i) =>
      && !zero && honest && list != [] && i <= CleanupCount(list) && Sorted(list)
      && Reached(list[|list| - 1].manifest.sequence, s.versions, s.cached)
    case Fetching(list) => list != [] && (zero || honest)
    case Storing(list, _) => list != [] && (zero || honest)
    case Tearing(todo) => zero && todo != []
    case WipeListing => zero
    case Wiping(_) => false
    case Zeroing => zero
  }

  predicate LagInv(s: Lagging) {
    && s.p.seen < |s.p.log|
    && LogInv(s.p.log, s.p.seen, s.p.history)
    && QueueInv(s.p.configs, s.p.cluster, Snap(s.p).generation, s.p.history)
    && VersionsInv(s.versions, s.cached, s.p.configs, s.p.cluster)
    && ClaimsInv(s.p.log, s.p.seen, s.p.configs, s.missed)
    && MissedInv(s.p.configs, s.missed)
    && LagPc(s)
  }

  // ---- Steps that leave the store alone ----

  lemma TrailsSelf(configs: map<nat, Config>, cluster: string)
    requires Keyed(configs, cluster)
    ensures Trails(configs, configs, cluster)
  {
    if configs != map[] { assert configs.Keys != {}; assert Max(configs.Keys) in configs; }
  }

  lemma LiveIsKeyed(s: Lagging)
    requires VersionsInv(s.versions, s.cached, s.p.configs, s.p.cluster)
    ensures Keyed(s.p.configs, s.p.cluster)
  {
    assert Trails(s.versions[|s.versions| - 1], s.p.configs, s.p.cluster);
  }

  lemma SameStoreVersions(s: Lagging)
    requires VersionsInv(s.versions, s.cached, s.p.configs, s.p.cluster)
    ensures VersionsInv(s.versions + [s.p.configs], s.cached, s.p.configs, s.p.cluster)
    ensures forall n | Reached(n, s.versions, s.cached) :: Reached(n, s.versions + [s.p.configs], s.cached)
  {
    hide Trails, Keyed;
    LiveIsKeyed(s);
    AppendRises(s.versions, s.cached, s.p.configs, s.p.configs, s.p.cluster);
  }

  lemma AppendHonest(s: Lagging, r: Redkey)
    requires ClaimsInv(s.p.log, s.p.seen, s.p.configs, s.missed)
    requires Claims(r) ==> Honest(s.p.configs, r.generation, s.missed)
    ensures ClaimsInv(s.p.log + [r], s.p.seen, s.p.configs, s.missed)
  {
  }

  /** A status write claims only the snapshot's generation. */
  lemma StatusVersionLag(s: Lagging, status: Status)
    requires LogInv(s.p.log, s.p.seen, s.p.history) && status.observed == Snap(s.p).generation
    requires ClaimsInv(s.p.log, s.p.seen, s.p.configs, s.missed)
    requires Snap(s.p).spec.primaries == 0 || Honest(s.p.configs, Snap(s.p).generation, s.missed)
    ensures LogInv(s.p.log + [Live(s.p).(status := status)], s.p.seen, s.p.history)
    ensures ClaimsInv(s.p.log + [Live(s.p).(status := status)], s.p.seen, s.p.configs, s.missed)
  {
    hide Honest, TopIs;
    var r := Live(s.p).(status := status);
    assert Stored(Live(s.p), Snap(s.p).generation, s.p.history);
    AppendVersion(s.p.log, s.p.seen, s.p.history, s.p.history, r);
    if Claims(r) {
      ClaimsAtFloor(s.p.(log := s.p.log + [r]), |s.p.log|);
    }
    AppendHonest(s, r);
  }

  /** Labels that touch neither the store nor the log. */
  lemma QuietKeeps(s: Lagging, l: Label)
    requires LagInv(s) && CanMove(s, Plain(l)) && (l.Crash? || l.Ensure? || l.Tear? || l.Fetch? || l.Snapshot?)
    ensures LagInv(Moved(s, Plain(l)))
  {
    hide QueueInv, VersionsInv, ClaimsInv, MissedInv, Reached, TopIs, HighestInv;
    SameStoreVersions(s);
    if l.Snapshot? {
      SnapshotLag(s, l.version);
    }
  }

  lemma SnapshotLag(s: Lagging, k: nat)
    requires LagInv(s) && s.p.seen <= k < |s.p.log|
    ensures var t := DoSnapshot(s.p, k);
            && LogInv(t.log, t.seen, t.history)
            && QueueInv(t.configs, t.cluster, Snap(t).generation, t.history)
            && ClaimsInv(t.log, t.seen, t.configs, s.missed)
  {
    hide VersionsInv, MissedInv, LagPc, Honest;
    var t := DoSnapshot(s.p, k);
    var floor, floor' := Snap(s.p).generation, Snap(t).generation;
    assert NoLater(s.p.log, s.p.seen, k);
    forall j | 0 <= j < |t.log| ensures Stored(t.log[j], floor', t.history) { assert Stored(s.p.log[j], floor, s.p.history); }
    HigherFloor(s.p.configs, s.p.cluster, floor, floor', s.p.history, s.p.history);
  }

  lemma LogKeeps(s: Lagging, l: Label)
    requires LagInv(s) && CanMove(s, Plain(l)) && (l.UserUpdate? || l.Touch?)
    ensures LagInv(Moved(s, Plain(l)))
  {
    hide VersionsInv, MissedInv, Reached, TopIs, HighestInv, Honest, QueueInv, Admission.SpecUpdateAdmitted;
    SameStoreVersions(s);
    var t := Do(s.p, l);
    var floor := Snap(s.p).generation;
    assert Stored(Live(s.p), floor, s.p.history);
    assert Stored(Snap(s.p), floor, s.p.history);
    AppendVersion(s.p.log, s.p.seen, s.p.history, t.history, Live(t));
    AppendHonest(s, Live(t));
    HigherFloor(s.p.configs, s.p.cluster, floor, floor, s.p.history, t.history);
  }

  lemma StatusKeeps(s: Lagging, l: Label)
    requires LagInv(s) && CanMove(s, Plain(l)) && (l.Store? || l.Zero?)
    ensures LagInv(Moved(s, Plain(l)))
  {
    hide VersionsInv, MissedInv, Reached, TopIs, HighestInv, Honest, QueueInv, LogInv, Admission.StatusUpdateAdmitted, SelectActive,
         ClaimsInv;
    SameStoreVersions(s);
    var t := Do(s.p, l);
    if t.log != s.p.log {
      StatusVersionLag(s, Live(t).status);
      assert t.log == s.p.log + [Live(s.p).(status := Live(t).status)];
    }
  }

  // ---- Steps that change the store ----

  /** A store whose top is the old one up to its status: everything said about tops still holds. */
  predicate SameTop(a: map<nat, Config>, b: map<nat, Config>) {
    (a == map[] <==> b == map[]) && (a != map[] ==> Max(a.Keys) == Max(b.Keys) && Same(Top(b), Top(a)))
  }

  lemma SameTopGen(a: map<nat, Config>, b: map<nat, Config>)
    requires SameTop(a, b) && a != map[]
    ensures Gen(Top(a)) == Gen(Top(b))
  {
    SameGen(Top(b), Top(a));
  }

  lemma SameTopTrails(shown: map<nat, Config>, a: map<nat, Config>, b: map<nat, Config>, cluster: string)
    requires SameTop(a, b) && Trails(shown, a, cluster)
    ensures Trails(shown, b, cluster)
  {
    hide Gen, Keyed;
    if a != map[] { SameTopGen(a, b); }
  }

  lemma SameTopVersions(s: Lagging, b: map<nat, Config>)
    requires VersionsInv(s.versions, s.cached, s.p.configs, s.p.cluster) && SameTop(s.p.configs, b) && Keyed(b, s.p.cluster)
    ensures VersionsInv(s.versions + [b], s.cached, b, s.p.cluster)
    ensures forall n | Reached(n, s.versions, s.cached) :: Reached(n, s.versions + [b], s.cached)
  {
    hide Trails, Keyed, SameTop;
    forall k | s.cached <= k < |s.versions| ensures Trails(s.versions[k], b, s.p.cluster) {
      SameTopTrails(s.versions[k], s.p.configs, b, s.p.cluster);
    }
    AppendRises(s.versions, s.cached, s.p.configs, b, s.p.cluster);
  }

  lemma SameTopKeeps(s: Lagging, b: map<nat, Config>)
    requires LagInv(s) && SameTop(s.p.configs, b)
    requires QueueInv(b, s.p.cluster, Snap(s.p).generation, s.p.history)
    ensures LagInv(s.(p := s.p.(configs := b), versions := s.versions + [b]))
  {
    hide Gen, LogInv, QueueInv, VersionsInv, Reached, Same;
    StoreIsKeyed(b, s.p.cluster, Snap(s.p).generation, s.p.history);
    SameTopVersions(s, b);
    if b != map[] { SameTopGen(s.p.configs, b); }
    SameTopPc(s, b);
  }

  lemma SameTopHighest(highest: Option<Config>, a: map<nat, Config>, b: map<nat, Config>, snap: Redkey)
    requires SameTop(a, b) && HighestInv(highest, a, snap)
    ensures HighestInv(highest, b, snap)
  {
  }

  lemma SameTopPc(s: Lagging, b: map<nat, Config>)
    requires s.p.seen < |s.p.log| && LagPc(s) && SameTop(s.p.configs, b)
    requires forall n | Reached(n, s.versions, s.cached) :: Reached(n, s.versions + [b], s.cached)
    ensures LagPc(s.(p := s.p.(configs := b), versions := s.versions + [b]))
  {
    hide Gen, Reached, HighestInv, Same;
    if b != map[] { SameTopGen(s.p.configs, b); }
    var highest := if s.p.pc.Creating? then s.p.pc.highest
                   else if s.p.pc.Ensuring? && s.p.pc.next.ThenCreate? then s.p.pc.next.highest else None;
    if HighestInv(highest, s.p.configs, Snap(s.p)) { SameTopHighest(highest, s.p.configs, b, Snap(s.p)); }
  }

  lemma RobinLag(s: Lagging, q: nat, status: ConfigStatus)
    requires LagInv(s) && q in s.p.configs
    ensures LagInv(Moved(s, Plain(RobinWrite(q, status))))
  {
    hide QueueInv, VersionsInv, ClaimsInv, MissedInv, LagPc, LogInv;
    var configs := s.p.configs[q := s.p.configs[q].(status := status)];
    assert Restatused(s.p.configs, configs);
    SourceBelow(s.p);
    RestatusedQueue(s.p.configs, configs, s.p.cluster, Snap(s.p).generation, s.p.history, 0);
    RestatusedTop(s.p.configs, configs);
    assert s.p.configs.Keys == configs.Keys;
    SameTopKeeps(s, configs);
  }

  lemma SourceBelow(p: State)
    requires p.seen < |p.log| && QueueInv(p.configs, p.cluster, Snap(p).generation, p.history)
    ensures SourceInv(0, p.configs)
  {
    forall q | q in p.configs ensures 0 <= Gen(p.configs[q]) {
      assert Genuine(q, p.configs[q], p.cluster, Snap(p).generation, p.history);
    }
  }

  /** Clean-up deletes below the highest config listed, so never the live top. */
  lemma DeletesBelowTop(s: Lagging)
    requires VersionsInv(s.versions, s.cached, s.p.configs, s.p.cluster)
    requires s.p.pc.Cleaning? && s.p.seen < |s.p.log| && LagPc(s) && s.p.pc.done < CleanupCount(s.p.pc.list)
    ensures s.p.pc.list[s.p.pc.done].manifest.sequence < TopSeq(s.p.configs)
  {
    hide Honest;
    var list := s.p.pc.list;
    assert Below(list, s.p.pc.done, |list| - 1);
    assert list[|list| - 1].manifest.sequence <= TopSeq(s.versions[|s.versions| - 1]);
  }

  lemma CleanLag(s: Lagging)
    requires LagInv(s) && CanMove(s, Plain(Clean))
    ensures LagInv(Moved(s, Plain(Clean)))
  {
    hide QueueInv, VersionsInv, ClaimsInv, MissedInv, LogInv, Reached, Honest, Sorted, SameTop;
    var list, i := s.p.pc.list, s.p.pc.done;
    SameStoreVersions(s);
    if i < CleanupCount(list) {
      var q := list[i].manifest.sequence;
      DeletesBelowTop(s);
      SourceBelow(s.p);
      RemoveKeepsQueue(s.p.configs, q, s.p.cluster, Snap(s.p).generation, s.p.history, 0);
      RemovedSameTop(s.p.configs, q);
      SameTopKeeps(s, s.p.configs - {q});
    }
  }

  lemma RemovedSameTop(configs: map<nat, Config>, q: nat)
    requires q < TopSeq(configs)
    ensures SameTop(configs, configs - {q})
  {
    RemoveKeepsTop(configs, q);
    var rest := configs - {q};
    assert rest.Keys == configs.Keys - {q};
    MaxIs(rest.Keys, Max(configs.Keys));
  }

  // ---- Create ----

  /** What a create does to the store: it lands on top when the list it came from was up to date, and
      otherwise meets the live top and changes nothing. */
  lemma CreateLands(s: Lagging)
    requires LagInv(s) && s.p.pc.Creating?
    ensures var n, configs := NextSequence(s.p.pc.highest), s.p.configs;
            && (n in configs <==> TopSeq(configs) == n)
            && (n !in configs <==> TopSeq(configs) == n - 1)
            && (n in configs ==> DoCreate(s.p).configs == configs)
            && (n !in configs ==> (forall q | q in configs :: q < n) && HighestInv(s.p.pc.highest, configs, Snap(s.p)))
  {
    hide QueueInv, VersionsInv, ClaimsInv, MissedInv, LogInv, Reached, HighestInv;
    var n, configs := NextSequence(s.p.pc.highest), s.p.configs;
    if configs != map[] { assert configs.Keys != {}; assert Max(configs.Keys) in configs; }
    forall q | q in configs ensures q <= TopSeq(configs) { assert q in configs.Keys; }
  }

  lemma AddTopVersions(s: Lagging, c: Config)
    requires LagInv(s) && s.p.pc.Creating? && TopSeq(s.p.configs) == NextSequence(s.p.pc.highest) - 1
    requires c.manifest.sequence == NextSequence(s.p.pc.highest) && Labelled(c, s.p.cluster)
    requires forall q | q in s.p.configs :: q < c.manifest.sequence && Gen(s.p.configs[q]) < Gen(c)
    ensures VersionsInv(s.versions + [s.p.configs[c.manifest.sequence := c]], s.cached,
                        s.p.configs[c.manifest.sequence := c], s.p.cluster)
  {
    hide QueueInv, ClaimsInv, MissedInv, LogInv, HighestInv, Gen, Labelled;
    var b := s.p.configs[c.manifest.sequence := c];
    assert c.manifest.sequence in b.Keys;
    MaxIs(b.Keys, c.manifest.sequence);
    LiveIsKeyed(s);
    forall k | s.cached <= k < |s.versions| ensures Trails(s.versions[k], b, s.p.cluster) {
      assert Trails(s.versions[k], s.p.configs, s.p.cluster);
      TopBelowNew(s.versions[k], s.p.configs, c, s.p.cluster);
    }
    AppendRises(s.versions, s.cached, s.p.configs, b, s.p.cluster);
  }

  lemma TopBelowNew(shown: map<nat, Config>, live: map<nat, Config>, c: Config, cluster: string)
    requires Trails(shown, live, cluster) && c.manifest.sequence == TopSeq(live) + 1 == TopSeq(shown) + 1
    requires forall q | q in live :: q < c.manifest.sequence && Gen(live[q]) < Gen(c)
    requires live[c.manifest.sequence := c] != map[] && Top(live[c.manifest.sequence := c]) == c
    requires TopSeq(live[c.manifest.sequence := c]) == c.manifest.sequence
    ensures Trails(shown, live[c.manifest.sequence := c], cluster)
  {
    hide Gen, Keyed;
    if shown != map[] {
      SameGen(Top(shown), Top(live));
      assert Max(live.Keys) in live;
    }
  }

  lemma CreateHonest(s: Lagging)
    requires LagInv(s) && s.p.pc.Creating?
    ensures var t := Moved(s, Plain(Create));
            && Honest(t.p.configs, Snap(t.p).generation, t.missed)
            && MissedInv(t.p.configs, t.missed)
  {
    hide QueueInv, VersionsInv, ClaimsInv, LogInv, Reached, HighestInv, NewConfig, Gen;
    var n := NextSequence(s.p.pc.highest);
    CreateLands(s);
    if n !in s.p.configs {
      CreateAddsTop(s.p);
    } else {
      assert s.p.configs[n] == Top(s.p.configs);
    }
  }

  lemma CreateLag(s: Lagging)
    requires LagInv(s) && s.p.pc.Creating?
    ensures LagInv(Moved(s, Plain(Create)))
  {
    hide QueueInv, VersionsInv, ClaimsInv, MissedInv, LogInv, Reached, HighestInv, NewConfig, Genuine, Gen, Honest;
    var t := Moved(s, Plain(Create));
    CreateLands(s);
    CreateHonest(s);
    SameStoreVersions(s);
    if NextSequence(s.p.pc.highest) !in s.p.configs {
      CreateAddsTop(s.p);
      SourceBelow(s.p);
      var c := NewConfig(s.p.cluster, Snap(s.p).generation, Snap(s.p).spec, s.p.pc.highest);
      NewConfigFields(s.p.cluster, Snap(s.p).generation, Snap(s.p).spec, s.p.pc.highest);
      assert Labelled(c, s.p.cluster) by { assert Genuine(c.manifest.sequence, c, s.p.cluster, Snap(s.p).generation, s.p.history); }
      AddTopLag(s, c);
    }
    HonestAtFloor(t.p, t.missed);
  }

  lemma HonestAtFloor(p: State, missed: set<int>)
    requires LogInv(p.log, p.seen, p.history) && Honest(p.configs, Snap(p).generation, missed)
    ensures ClaimsInv(p.log, p.seen, p.configs, missed)
  {
    hide TopIs;
    forall k | p.seen <= k < |p.log| && Claims(p.log[k]) ensures Honest(p.configs, p.log[k].generation, missed) {
      ClaimsAtFloor(p, k);
    }
  }

  lemma AddTopLag(s: Lagging, c: Config)
    requires LagInv(s) && s.p.pc.Creating? && TopSeq(s.p.configs) == NextSequence(s.p.pc.highest) - 1
    requires c.manifest.sequence == NextSequence(s.p.pc.highest) && Labelled(c, s.p.cluster) && Gen(c) == Snap(s.p).generation
    requires forall q | q in s.p.configs :: q < c.manifest.sequence && Gen(s.p.configs[q]) < Gen(c)
    requires Genuine(c.manifest.sequence, c, s.p.cluster, Snap(s.p).generation, s.p.history)
    ensures QueueInv(s.p.configs[c.manifest.sequence := c], s.p.cluster, Snap(s.p).generation, s.p.history)
    ensures VersionsInv(s.versions + [s.p.configs[c.manifest.sequence := c]], s.cached,
                        s.p.configs[c.manifest.sequence := c], s.p.cluster)
  {
    hide VersionsInv, ClaimsInv, MissedInv, LagPc, Gen, QueueInv;
    SourceBelow(s.p);
    assert Stored(Snap(s.p), Snap(s.p).generation, s.p.history);
    AddTop(s.p.configs, c, s.p.cluster, Snap(s.p).generation, s.p.history, 0);
    AddTopVersions(s, c);
  }

  // ---- Lists ----

  /** A list of an old version is that version, ascending, and every later list reaches as high. */
  lemma ShownList(s: Lagging, k: nat)
    requires VersionsInv(s.versions, s.cached, s.p.configs, s.p.cluster) && s.cached <= k < |s.versions|
    ensures var shown := s.versions[k]; var list := ListConfigs(shown, s.p.cluster);
            && (list == [] <==> shown == map[])
            && (shown != map[] ==> Sorted(list) && list[|list| - 1] == Top(shown) && Top(shown).manifest.sequence == TopSeq(shown))
            && Reached(TopSeq(shown), s.versions, k)
  {
    hide ListConfigs;
    assert Trails(s.versions[k], s.p.configs, s.p.cluster);
    ListMirrors(s.versions[k], s.p.cluster);
    if s.versions[k] != map[] { assert Max(s.versions[k].Keys) in s.versions[k]; }
    forall j | k <= j < |s.versions| ensures TopSeq(s.versions[k]) <= TopSeq(s.versions[j]) {
      assert Rises(s.versions, k, j);
    }
  }

  lemma FewerVersions(s: Lagging, k: nat)
    requires VersionsInv(s.versions, s.cached, s.p.configs, s.p.cluster) && s.cached <= k < |s.versions|
    ensures VersionsInv(s.versions, k, s.p.configs, s.p.cluster)
  {
  }

  /** The highest config of an old version, next to the live top: the same config, or an older one
      with the live top right above it. */
  lemma ShownTop(s: Lagging, k: nat)
    requires VersionsInv(s.versions, s.cached, s.p.configs, s.p.cluster) && s.cached <= k < |s.versions|
    requires s.versions[k] != map[]
    ensures s.p.configs != map[]
    ensures if TopSeq(s.p.configs) == TopSeq(s.versions[k])
            then Same(Top(s.versions[k]), Top(s.p.configs)) && Gen(Top(s.versions[k])) == Gen(Top(s.p.configs))
            else Gen(Top(s.versions[k])) < Gen(Top(s.p.configs))
  {
    assert Trails(s.versions[k], s.p.configs, s.p.cluster);
    if TopSeq(s.p.configs) == TopSeq(s.versions[k]) { SameGen(Top(s.versions[k]), Top(s.p.configs)); }
  }

  /** Not creating is justified by the live store, unless the generation was missed. */
  lemma NoCreateIsHonest(s: Lagging, k: nat)
    requires LagInv(s) && s.cached <= k < |s.versions| && s.versions[k] != map[] && Snap(s.p).spec.primaries != 0
    requires !NeedsNewConfig(Snap(s.p).generation, Snap(s.p).status.observed, Some(Top(s.versions[k])))
    ensures Honest(s.p.configs, Snap(s.p).generation, s.missed)
  {
    hide VersionsInv, LagPc;
    ShownTop(s, k);
    TopIsGenuine(s.p.configs, s.p.cluster, Snap(s.p).generation, s.p.history);
    if Gen(Top(s.versions[k])) >= Snap(s.p).generation {
      assert TopIs(s.p.configs, Snap(s.p).generation);
    } else {
      assert Claims(s.p.log[s.p.seen]);
    }
  }

  /** A create decided on an old list: its base is at most one below the live top, and equals it only
      if the live top is older than the snapshot. */
  lemma CreateDecided(s: Lagging, k: nat)
    requires LagInv(s) && s.p.pc.Listing? && s.cached <= k < |s.versions|
    requires var pc := PcAfterList(s.p, s.versions[k]); pc.Creating? || (pc.Ensuring? && pc.next.ThenCreate?)
    ensures CreateInv(Highest(ListConfigs(s.versions[k], s.p.cluster)), s.(cached := k))
  {
    hide ClaimsInv, MissedInv, LagPc, ListConfigs, NeedsNewConfig, Gen, Reached;
    var shown := s.versions[k];
    var highest := Highest(ListConfigs(shown, s.p.cluster));
    ShownList(s, k);
    assert Trails(shown, s.p.configs, s.p.cluster);
    if shown != map[] && TopSeq(shown) == TopSeq(s.p.configs) {
      ShownTop(s, k);
      if Snap(s.p).spec.primaries == 0 {
        NonZeroTopIsOlder(s.p);
      } else {
        assert Stored(Snap(s.p), Snap(s.p).generation, s.p.history);
        NeededMeansOlder(Snap(s.p), Top(shown));
      }
    }
  }

  lemma ListLag(s: Lagging, k: nat)
    requires LagInv(s) && CanMove(s, ListFrom(k))
    ensures LagInv(Moved(s, ListFrom(k)))
  {
    hide VersionsInv, ClaimsInv, MissedInv, ListConfigs, NeedsNewConfig, Gen, Reached, QueueInv, LogInv, Honest, CreateInv, Sorted;
    FewerVersions(s, k);
    ShownList(s, k);
    var pc := PcAfterList(s.p, s.versions[k]);
    if pc.Creating? || (pc.Ensuring? && pc.next.ThenCreate?) {
      CreateDecided(s, k);
      assert CreateInv(Highest(ListConfigs(s.versions[k], s.p.cluster)), s.(cached := k));
      CreateInvFrame(Highest(ListConfigs(s.versions[k], s.p.cluster)), s.(cached := k), Moved(s, ListFrom(k)));
    } else if pc.Cleaning? && s.p.pc.Listing? {
      NoCreateIsHonest(s, k);
    }
  }

  lemma CreateInvFrame(highest: Option<Config>, s: Lagging, t: Lagging)
    requires s.p.seen < |s.p.log| && CreateInv(highest, s)
    requires t.p.log == s.p.log && t.p.seen == s.p.seen && t.p.configs == s.p.configs && t.versions == s.versions && t.cached == s.cached
    ensures CreateInv(highest, t)
  {
  }

  // ---- Every run ----

  lemma MoveKeeps(s: Lagging, m: Move)
    requires LagInv(s) && CanMove(s, m)
    ensures LagInv(Moved(s, m))
  {
    hide LagInv, Moved;
    match m
    case ListFrom(k) => ListLag(s, k);
    case Plain(l) =>
      match l
      case UserUpdate(_) => LogKeeps(s, l);
      case Touch => LogKeeps(s, l);
      case RobinWrite(q, status) => RobinLag(s, q, status);
      case Create => CreateLag(s);
      case Clean => CleanLag(s);
      case Store(_) => StatusKeeps(s, l);
      case Zero(_) => StatusKeeps(s, l);
      case Wipe(_) => WipeUnreached(s, l);
      case _ => QuietKeeps(s, l);
  }

  lemma WipeUnreached(s: Lagging, l: Label)
    requires LagInv(s) && l.Wipe?
    ensures !CanMove(s, Plain(l))
  {
  }

  lemma {:induction false} MovesKeep(s: Lagging, moves: seq<Move>)
    requires LagInv(s) && CanGo(s, moves)
    ensures LagInv(Gone(s, moves))
  {
    hide LagInv, Moved, CanMove;
    if moves != [] {
      MovesKeep(s, moves[..|moves| - 1]);
      MoveKeeps(Gone(s, moves[..|moves| - 1]), moves[|moves| - 1]);
    }
  }

  lemma LaggingSafe(cluster: string, spec: Spec, moves: seq<Move>)
    requires CanGo(Start(cluster, spec), moves)
    ensures LagInv(Gone(Start(cluster, spec), moves))
  {
    TrailsSelf(map[], cluster);
    MovesKeep(Start(cluster, spec), moves);
  }

  /** However far the cache lags, a create either makes the new config the unique maximum of the store,
      and this is exactly when the list it was computed from already showed the live maximum, or it
      meets an existing name, the live maximum, and leaves the store unchanged. */
  lemma CreateIsTopOrNoop(cluster: string, spec: Spec, moves: seq<Move>)
    requires CanGo(Start(cluster, spec), moves) && Gone(Start(cluster, spec), moves).p.pc.Creating?
    ensures var s := Gone(Start(cluster, spec), moves);
            var n := NextSequence(s.p.pc.highest);
            var after := Moved(s, Plain(Create)).p.configs;
            && (n !in s.p.configs <==> (if s.p.pc.highest.Some? then s.p.pc.highest.value.manifest.sequence else 0) == TopSeq(s.p.configs))
            && (n !in s.p.configs ==>
                  && after.Keys == s.p.configs.Keys + {n}
                  && (forall q | q in s.p.configs :: q < n && after[q] == s.p.configs[q])
                  && Gen(after[n]) == Snap(s.p).generation)
            && (n in s.p.configs ==> after == s.p.configs && n == TopSeq(s.p.configs))
  {
    hide LagInv, CanGo, Gone, Gen, NewConfig;
    LaggingSafe(cluster, spec, moves);
    var s := Gone(Start(cluster, spec), moves);
    CreateLands(s);
    if NextSequence(s.p.pc.highest) !in s.p.configs { FreshCreate(s); }
  }

  lemma FreshCreate(s: Lagging)
    requires LagInv(s) && s.p.pc.Creating? && NextSequence(s.p.pc.highest) !in s.p.configs
    ensures var c := NewConfig(s.p.cluster, Snap(s.p).generation, Snap(s.p).spec, s.p.pc.highest);
            DoCreate(s.p).configs == s.p.configs[NextSequence(s.p.pc.highest) := c] && Gen(c) == Snap(s.p).generation
  {
    hide VersionsInv, ClaimsInv, MissedInv, Gen, LogInv, QueueInv, NewConfig;
    CreateLands(s);
    CreateAddsTop(s.p);
    NewConfigFields(s.p.cluster, Snap(s.p).generation, Snap(s.p).spec, s.p.pc.highest);
  }

  /** A generation the status claims to have observed has the newest config exactly when its create did
      not meet a name taken by another generation. */
  lemma GenerationLostIff(cluster: string, spec: Spec, moves: seq<Move>)
    requires CanGo(Start(cluster, spec), moves)
    ensures var s := Gone(Start(cluster, spec), moves);
            Claims(Live(s.p)) ==> (TopIs(s.p.configs, Live(s.p).generation) <==> Live(s.p).generation !in s.missed)
  {
    hide CanGo, Gone, TopIs;
    LaggingSafe(cluster, spec, moves);
  }
}
