/** The AlreadyExists no-op can lose a generation: a create computed from a lagging list is masked by
    the config of the previous generation, a fresher relist lets the status claim the new generation,
    and from then on nothing creates its config until the spec changes again. */
module LostGeneration {
  import opened Types
  import opened Queue
  import opened Protocol
  import opened Safety
  import opened LaggingCache
  import Admission
  import Conditions

  predicate AllClaim(log: seq<Redkey>, seen: nat, g: int) {
    forall k | seen <= k < |log| :: Claims(log[k]) && log[k].generation == g
  }

  predicate NoneEmpty(versions: seq<map<nat, Config>>, cached: nat) {
    forall k | cached <= k < |versions| :: versions[k] != map[]
  }

  predicate NotCreating(pc: Pc) {
    !pc.Creating? && !pc.Relisting? && (pc.Ensuring? ==> pc.next.ThenList?)
  }

  /** Every version the operator may still read claims generation g, which was missed. */
  predicate Stuck(s: Lagging, g: int) {
    && LagInv(s)
    && g in s.missed
    && AllClaim(s.p.log, s.p.seen, g)
    && NoneEmpty(s.versions, s.cached)
    && NotCreating(s.p.pc)
  }

  /** In such a state the newest config belongs to another generation. */
  lemma StuckHasNoConfig(s: Lagging, g: int)
    requires Stuck(s, g)
    ensures Live(s.p).generation == g && Claims(Live(s.p)) && !TopIs(s.p.configs, g)
  {
  }

  lemma {:induction false} StuckRun(s: Lagging, g: int, moves: seq<Move>)
    requires Stuck(s, g) && CanGo(s, moves) && forall i | 0 <= i < |moves| :: !(moves[i].Plain? && moves[i].step.UserUpdate?)
    ensures Stuck(Gone(s, moves), g)
    ensures Gone(s, moves).p.configs.Keys <= s.p.configs.Keys
  {
    hide Stuck, CanMove, Moved;
    if moves != [] {
      var init := moves[..|moves| - 1];
      StuckRun(s, g, init);
      StuckStays(Gone(s, init), g, moves[|moves| - 1]);
    }
  }

  lemma StuckStays(s: Lagging, g: int, m: Move)
    requires Stuck(s, g) && CanMove(s, m) && !(m.Plain? && m.step.UserUpdate?)
    ensures Stuck(Moved(s, m), g) && Moved(s, m).p.configs.Keys <= s.p.configs.Keys
  {
    hide LagInv, AllClaim, Do, Enabled, PcAfterList;
    MoveKeeps(s, m);
    if m.ListFrom? {
      StuckLists(s, g, m.version);
    } else {
      StuckSteps(s, g, m.step);
    }
  }

  lemma StuckLists(s: Lagging, g: int, k: nat)
    requires Stuck(s, g) && CanMove(s, ListFrom(k))
    ensures PcAfterList(s.p, s.versions[k]).Cleaning?
  {
    hide ListConfigs, ClaimsInv, MissedInv, QueueInv, LagPc;
    ShownList(s, k);
    assert Claims(s.p.log[s.p.seen]);
  }

  lemma LiveStuck(s: Lagging, g: int)
    requires Stuck(s, g)
    ensures s.p.configs != map[] && s.p.seen < |s.p.log|
    ensures Claims(Snap(s.p)) && Claims(Live(s.p)) && Snap(s.p).generation == Live(s.p).generation == g
  {
    hide QueueInv, ClaimsInv, MissedInv, LagPc;
    assert s.versions[|s.versions| - 1] != map[];
  }

  lemma AppendOne(log: seq<Redkey>, seen: nat, g: int, r: Redkey)
    requires AllClaim(log, seen, g) && Claims(r) && r.generation == g
    ensures AllClaim(log + [r], seen, g)
  {
  }

  /** Clean-up never empties the store. */
  lemma StuckCleans(s: Lagging, g: int)
    requires Stuck(s, g) && s.p.pc.Cleaning? && s.p.pc.list != []
    ensures DoClean(s.p).configs != map[]
  {
    hide QueueInv, ClaimsInv, MissedInv, AllClaim, Honest, Reached, Sorted;
    LiveStuck(s, g);
    if s.p.pc.done < CleanupCount(s.p.pc.list) {
      DeletesBelowTop(s);
      RemoveKeepsTop(s.p.configs, s.p.pc.list[s.p.pc.done].manifest.sequence);
    }
  }

  lemma StuckStores(s: Lagging, g: int, now: int)
    requires Stuck(s, g) && s.p.pc.Storing? && s.p.pc.list != [] && s.p.seen < |s.p.log|
    ensures AllClaim(DoStore(s.p, now).log, s.p.seen, g)
  {
    hide LagInv, AllClaim;
    LiveStuck(s, g);
    var t := DoStore(s.p, now);
    if t.log != s.p.log { AppendOne(s.p.log, s.p.seen, g, Live(t)); }
  }

  lemma NotZeroing(s: Lagging, g: int)
    requires Stuck(s, g)
    ensures !s.p.pc.Zeroing? && !s.p.pc.Wiping? && !s.p.pc.Tearing?
  {
    hide QueueInv, ClaimsInv, MissedInv, VersionsInv;
    LiveStuck(s, g);
  }

  lemma StuckSteps(s: Lagging, g: int, l: Label)
    requires Stuck(s, g) && CanMove(s, Plain(l)) && !l.UserUpdate?
    ensures var p := Do(s.p, l);
            && !l.Create? && p.configs != map[] && p.configs.Keys <= s.p.configs.Keys
            && AllClaim(p.log, p.seen, g) && NotCreating(p.pc)
  {
    hide LagInv, NoneEmpty, AggregatedStatus, ZeroedStatus, CleanupCount, SelectActive, Admission.StatusUpdateAdmitted, Claims;
    LiveStuck(s, g);
    NotZeroing(s, g);
    match l
    case Clean => StuckCleans(s, g);
    case Store(now) => StuckStores(s, g, now);
    case _ =>
  }

  // ---- A run that gets there ----

  lemma Extend(s: Lagging, moves: seq<Move>, m: Move)
    requires CanGo(s, moves) && CanMove(Gone(s, moves), m)
    ensures CanGo(s, moves + [m]) && Gone(s, moves + [m]) == Moved(Gone(s, moves), m)
  {
    assert (moves + [m])[..|moves|] == moves;
  }

  /** Robin's objects are put in place; the store and the Redkey stay as they are. */
  lemma {:induction false} EnsureAll(s: Lagging, moves: seq<Move>) returns (more: seq<Move>)
    requires CanGo(s, moves) && CanMove(Gone(s, moves), Plain(Crash))
    requires Gone(s, moves).p.pc.Ensuring? && Gone(s, moves).p.pc.todo != [] && Gone(s, moves).p.pc.next.ThenList?
    ensures CanGo(s, more)
    ensures var a, b := Gone(s, moves), Gone(s, more);
            b.p == a.p.(robin := b.p.robin, pc := Listing) && b.cached == a.cached && b.missed == a.missed && a.versions <= b.versions
    decreases |Gone(s, moves).p.pc.todo|
  {
    hide CanGo, Gone;
    Extend(s, moves, Plain(Ensure));
    more := moves + [Plain(Ensure)];
    if |Gone(s, moves).p.pc.todo| > 1 {
      more := EnsureAll(s, more);
    }
  }

  /** A reconcile that lists the empty version 0 goes on to create sequence 1. */
  lemma EmptyReconcile(s: Lagging, moves: seq<Move>, k: nat) returns (more: seq<Move>)
    requires CanGo(s, moves) && Gone(s, moves).p.pc.Idle? && Gone(s, moves).p.seen <= k < |Gone(s, moves).p.log|
    requires Gone(s, moves).p.log[k].spec.primaries != 0
    requires Gone(s, moves).cached == 0 && |Gone(s, moves).versions| > 0 && Gone(s, moves).versions[0] == map[]
    ensures CanGo(s, more)
    ensures var a, b := Gone(s, moves), Gone(s, more);
            && b.p == a.p.(robin := b.p.robin, seen := k, pc := Creating(None))
            && b.cached == 0 && b.missed == a.missed && a.versions <= b.versions
  {
    hide ListConfigs, CanGo, Gone;
    Extend(s, moves, Plain(Snapshot(k)));
    more := EnsureAll(s, moves + [Plain(Snapshot(k))]);
    ListsEmpty(Gone(s, more).p.cluster);
    Extend(s, more, ListFrom(0));
    more := more + [ListFrom(0)];
  }

  /** First reconcile: the config of generation 1 is created, and the relist does not show it yet. */
  lemma FirstReconcile(cluster: string, first: Spec) returns (moves: seq<Move>, c: Config)
    requires first.primaries != 0
    ensures CanGo(Start(cluster, first), moves)
    ensures var s := Gone(Start(cluster, first), moves);
            && s.p == Initial(cluster, first).(robin := s.p.robin, configs := map[1 := c])
            && s.cached == 0 && |s.versions| > 0 && s.versions[0] == map[] && s.missed == {}
    ensures c.manifest.sequence == 1 && Labelled(c, cluster) && Gen(c) == 1 && c.status == NEW_CONFIG_STATUS
  {
    hide ListConfigs, NewConfig;
    var s := Start(cluster, first);
    moves := EmptyReconcile(s, [], 0);
    c := NewConfig(cluster, 1, first, None);
    NewConfigReadsBack(cluster, 1, first, None);
    NewConfigFields(cluster, 1, first, None);
    Extend(s, moves, Plain(Create));
    moves := moves + [Plain(Create)];
    ListsEmpty(cluster);
    Extend(s, moves, ListFrom(0));
    moves := moves + [ListFrom(0)];
  }

  /** The spec changes, and the create for generation 2 is computed from the same old list. */
  lemma SecondReconcile(cluster: string, first: Spec, second: Spec) returns (moves: seq<Move>, c: Config)
    requires first.primaries != 0 && second.primaries != 0 && first != second
    requires Admission.SpecUpdateAdmitted(Redkey(1, first, NEW_STATUS), second)
    ensures CanGo(Start(cluster, first), moves)
    ensures var s := Gone(Start(cluster, first), moves);
            && s.p.log == [Redkey(1, first, NEW_STATUS), Redkey(2, second, NEW_STATUS)] && s.p.seen == 1
            && s.p.configs == map[1 := c] && s.p.pc == Relisting && s.p.cluster == cluster
            && s.missed == {2} && |s.versions| > 0 && s.versions[|s.versions| - 1] == map[1 := c] && s.cached == 0
    ensures c.manifest.sequence == 1 && Labelled(c, cluster) && Gen(c) == 1 && c.status == NEW_CONFIG_STATUS
  {
    hide ListConfigs, NewConfig, Admission.SpecUpdateAdmitted, CanGo, Gone;
    var s := Start(cluster, first);
    moves, c := FirstReconcile(cluster, first);
    Extend(s, moves, Plain(UserUpdate(second)));
    moves := EmptyReconcile(s, moves + [Plain(UserUpdate(second))], 1);
    NewConfigFields(cluster, 2, second, None);
    Extend(s, moves, Plain(Create));
    moves := moves + [Plain(Create)];
  }

  /** The relist shows the config of generation 1. */
  lemma RelistShowsOld(cluster: string, first: Spec, second: Spec) returns (moves: seq<Move>, c: Config)
    requires first.primaries != 0 && second.primaries != 0 && first != second
    requires Admission.SpecUpdateAdmitted(Redkey(1, first, NEW_STATUS), second)
    ensures CanGo(Start(cluster, first), moves)
    ensures var s := Gone(Start(cluster, first), moves);
            && s.p.log == [Redkey(1, first, NEW_STATUS), Redkey(2, second, NEW_STATUS)] && s.p.seen == 1
            && s.p.configs == map[1 := c] && s.p.pc == Fetching([c]) && c.status == NEW_CONFIG_STATUS && s.missed == {2}
            && s.cached < |s.versions| && (forall k | s.cached <= k < |s.versions| :: s.versions[k] == map[1 := c])
  {
    hide ListConfigs, Admission.SpecUpdateAdmitted, Labelled, Gen, CanGo, Gone;
    var s := Start(cluster, first);
    moves, c := SecondReconcile(cluster, first, second);
    ListsOne(c, cluster);
    var last := |Gone(s, moves).versions| - 1;
    Extend(s, moves, ListFrom(last));
    moves := moves + [ListFrom(last)];
    Extend(s, moves, Plain(Clean));
    moves := moves + [Plain(Clean)];
    assert [c][0..] == [c];
  }

  /** And the status claims generation 2. */
  lemma ClaimsAnyway(cluster: string, first: Spec, second: Spec) returns (moves: seq<Move>)
    requires first.primaries != 0 && second.primaries != 0 && first != second
    requires Admission.SpecUpdateAdmitted(Redkey(1, first, NEW_STATUS), second)
    ensures CanGo(Start(cluster, first), moves)
    ensures var s := Gone(Start(cluster, first), moves);
            && |s.p.log| == 3 && s.p.log[2].generation == 2 && Claims(s.p.log[2]) && s.p.seen <= 2
            && s.p.pc == Idle && s.missed == {2} && s.p.configs != map[]
            && s.cached < |s.versions| && (forall k | s.cached <= k < |s.versions| :: s.versions[k] == s.p.configs)
  {
    hide Admission.SpecUpdateAdmitted, Admission.StatusUpdateAdmitted, Conditions.Aggregate, Conditions.ComputePhase, CanGo, Gone;
    var s := Start(cluster, first);
    var c;
    moves, c := RelistShowsOld(cluster, first, second);
    Extend(s, moves, Plain(Fetch(1)));
    moves := moves + [Plain(Fetch(1))];
    var live := Redkey(2, second, NEW_STATUS);
    Admission.StatusWriteRejectedOnlyByBounds(live, AggregatedStatus(live, c, 2, 0));
    Extend(s, moves, Plain(Store(0)));
    moves := moves + [Plain(Store(0))];
    assert 1 in map[1 := c];
  }

  /** Every admissible change between two non-zero specs can be lost: some run from a fresh Redkey ends
      in a state that claims generation 2, has no config for it, and keeps it that way. */
  lemma GenerationCanBeLost(cluster: string, first: Spec, second: Spec) returns (moves: seq<Move>)
    requires first.primaries != 0 && second.primaries != 0 && first != second
    requires Admission.SpecUpdateAdmitted(Redkey(1, first, NEW_STATUS), second)
    ensures CanGo(Start(cluster, first), moves) && Stuck(Gone(Start(cluster, first), moves), 2)
  {
    hide LagInv, Admission.SpecUpdateAdmitted, Claims, CanGo, Gone;
    var s := Start(cluster, first);
    moves := ClaimsAnyway(cluster, first, second);
    Extend(s, moves, Plain(Snapshot(2)));
    moves := moves + [Plain(Snapshot(2))];
    LaggingSafe(cluster, first, moves);
  }
}
