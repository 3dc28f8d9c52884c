/** The config queue: listing, the decision to create, building a config, the choice of the active
    config, and what cleanup keeps. */
module Queue {
  import opened Types
  import opened Text

  /** The value of a label or annotation, if it is set. */
  function Entry(m: Meta, k: string): Option<string> {
    if k in m.entries then Some(m.entries[k]) else None
  }

  /** mergeMeta: an override block replaces the user's entries, internal entries always win. */
  function MergeMeta(spec: Meta, override: Meta, base: Meta): (out: Meta)
    ensures forall k | k in base.entries :: k in out.entries && out.entries[k] == base.entries[k]
    ensures forall k | k in out.entries && k !in base.entries ::
              if |override.entries| > 0 then k in override.entries && out.entries[k] == override.entries[k]
              else k in spec.entries && out.entries[k] == spec.entries[k]
    ensures out.entries.Keys == (if |override.entries| > 0 then override.entries.Keys else spec.entries.Keys) + base.entries.Keys
  {
    Meta((if |override.entries| > 0 then override.entries else spec.entries) + base.entries)
  }

  lemma MergedEntry(spec: Meta, override: Meta, base: Meta, k: string)
    ensures Entry(MergeMeta(spec, override, base), k) ==
            if Entry(base, k).Some? then Entry(base, k) else Entry(if override.entries == map[] then spec else override, k)
  {
  }

  predicate Labelled(c: Config, cluster: string) {
    CLUSTER_LABEL in c.manifest.labels.entries && c.manifest.labels.entries[CLUSTER_LABEL] == cluster
  }

  /** The generation annotation as needsNewConfig reads it. */
  function AnnotatedGeneration(c: Config): Option<int> {
    var annotations := c.manifest.annotations.entries;
    if GENERATION_ANNOTATION in annotations then ParseInt64(annotations[GENERATION_ANNOTATION]) else None
  }

  /** The same with 0 for an absent or unreadable annotation; generations start at 1. */
  function Gen(c: Config): int {
    var g := AnnotatedGeneration(c);
    if g.Some? then g.value else 0
  }

  predicate NeedsNewConfig(generation: int, observed: int, latest: Option<Config>) {
    if latest.Some? && AnnotatedGeneration(latest.value).Some? && AnnotatedGeneration(latest.value).value >= generation
    then false
    else observed < generation
  }

  function ConfigSpecOf(s: Spec): ConfigSpec {
    ConfigSpec(s.mode, s.primaries, s.replicas, s.ephemeral, s.storage, s.storageClass,
               s.purge, s.labels, s.annotations, s.payload)
  }

  function NextSequence(highest: Option<Config>): nat {
    if highest.Some? then highest.value.manifest.sequence + 1 else 1
  }

  function NewConfig(cluster: string, generation: int, spec: Spec, highest: Option<Config>): Config {
    Config(Manifest(NextSequence(highest),
                    MergeMeta(spec.labels, Meta(map[]), Meta(map[CLUSTER_LABEL := cluster])),
                    MergeMeta(spec.annotations, Meta(map[]), Meta(map[GENERATION_ANNOTATION := FormatInt(generation)])),
                    ConfigSpecOf(spec)),
           NEW_CONFIG_STATUS)
  }

  /** Whatever labels and annotations the user sets, a new config is found by the cluster selector
      and its annotation reads back as the generation it was built for. */
  lemma NewConfigReadsBack(cluster: string, generation: int, spec: Spec, highest: Option<Config>)
    requires MIN_INT64 <= generation <= MAX_INT64
    ensures Labelled(NewConfig(cluster, generation, spec, highest), cluster)
    ensures Gen(NewConfig(cluster, generation, spec, highest)) == generation
    ensures AnnotatedGeneration(NewConfig(cluster, generation, spec, highest)) == Some(generation)
  {
    ParseFormat(generation);
  }

  /** The decision to create, on the configs the operator builds: no config or one built for an older
      generation, and a status that has not observed the generation. An annotation that is absent, as on a
      config somebody else made, counts as no config. */
  lemma NeedsNewConfigIff(generation: int, observed: int, latest: Config)
    ensures NeedsNewConfig(generation, observed, None) <==> observed < generation
    ensures GENERATION_ANNOTATION !in latest.manifest.annotations.entries ==>
              (NeedsNewConfig(generation, observed, Some(latest)) <==> observed < generation)
    ensures forall built: int | MIN_INT64 <= built <= MAX_INT64
              && GENERATION_ANNOTATION in latest.manifest.annotations.entries
              && latest.manifest.annotations.entries[GENERATION_ANNOTATION] == FormatInt(built) ::
              NeedsNewConfig(generation, observed, Some(latest)) <==> built < generation && observed < generation
  {
    hide FormatInt, ParseInt64;
    forall built: int | MIN_INT64 <= built <= MAX_INT64 ensures ParseInt64(FormatInt(built)) == Some(built) {
      ParseFormat(built);
    }
  }

  /** The metadata of a new config is the user's, with the operator's own entry on top. */
  lemma NewConfigMetadata(cluster: string, generation: int, spec: Spec, highest: Option<Config>, k: string)
    ensures var m := NewConfig(cluster, generation, spec, highest).manifest;
            && Entry(m.labels, k) == (if k == CLUSTER_LABEL then Some(cluster) else Entry(spec.labels, k))
            && Entry(m.annotations, k) ==
               (if k == GENERATION_ANNOTATION then Some(FormatInt(generation)) else Entry(spec.annotations, k))
  {
    hide FormatInt;
  }

  lemma NewConfigFields(cluster: string, generation: int, spec: Spec, highest: Option<Config>)
    ensures var c := NewConfig(cluster, generation, spec, highest);
            && c.manifest.sequence == NextSequence(highest)
            && c.manifest.spec == ConfigSpecOf(spec) && c.status == NEW_CONFIG_STATUS
  {
  }

  // ---- Listing ----

  lemma {:induction false} HasMax(s: set<nat>) returns (m: nat)
    requires s != {}
    ensures m in s && forall n | n in s :: n <= m
  {
    m :| m in s;
    var rest := s - {m};
    if rest != {} {
      var b := HasMax(rest);
      forall n | n in s ensures n <= if m <= b then b else m {
        assert n == m || n in rest;
      }
      m := if m <= b then b else m;
    } else {
      assert s == {m};
    }
  }

  function Max(s: set<nat>): (m: nat)
    requires s != {}
    ensures m in s && forall n | n in s :: n <= m
  {
    assert exists m :: m in s && forall n | n in s :: n <= m by { var m := HasMax(s); }
    var m :| m in s && forall n | n in s :: n <= m;
    m
  }

  /** The members of a set in ascending order. */
  function Ascending(s: set<nat>): (r: seq<nat>)
    ensures forall i, j | 0 <= i < j < |r| :: r[i] < r[j]
    ensures forall n :: n in r <==> n in s
    ensures |r| == |s|
  {
    if s == {} then []
    else var m := Max(s); Ascending(s - {m}) + [m]
  }

  function ListedKeys(configs: map<nat, Config>, cluster: string): (keys: seq<nat>)
    ensures forall i, j | 0 <= i < j < |keys| :: keys[i] < keys[j]
    ensures forall i | 0 <= i < |keys| :: keys[i] in configs
  {
    var keys := Ascending(set q | q in configs && Labelled(configs[q], cluster));
    assert forall i | 0 <= i < |keys| :: keys[i] in keys;
    keys
  }

  /** listConfigs: the configs carrying the cluster label, ascending by sequence. The store is keyed
      by sequence, which config names encode injectively. */
  function ListConfigs(configs: map<nat, Config>, cluster: string): (list: seq<Config>) {
    var keys := ListedKeys(configs, cluster);
    seq(|keys|, i requires 0 <= i < |keys| => configs[keys[i]])
  }

  predicate Below(list: seq<Config>, i: nat, j: nat)
    requires i < |list| && j < |list|
  {
    list[i].manifest.sequence < list[j].manifest.sequence
  }

  predicate Sorted(list: seq<Config>) {
    forall i: nat, j: nat | i < j < |list| :: Below(list, i, j)
  }

  /** The sequences of a list. */
  function Keys(list: seq<Config>): set<nat> {
    if list == [] then {} else Keys(list[1..]) + {list[0].manifest.sequence}
  }

  lemma {:induction false} KeyAt(list: seq<Config>, i: nat)
    requires i < |list|
    ensures list[i].manifest.sequence in Keys(list)
  {
    if i > 0 { KeyAt(list[1..], i - 1); }
  }

  lemma {:induction false} IndexOfKey(list: seq<Config>, k: nat) returns (i: nat)
    requires k in Keys(list)
    ensures i < |list| && list[i].manifest.sequence == k
  {
    if k == list[0].manifest.sequence {
      i := 0;
    } else {
      var j := IndexOfKey(list[1..], k);
      i := j + 1;
    }
  }

  /** Keyed by sequence and all labelled: what every reachable store is. */
  predicate Keyed(configs: map<nat, Config>, cluster: string) {
    forall q | q in configs :: configs[q].manifest.sequence == q && Labelled(configs[q], cluster)
  }

  lemma AllKeysListed(configs: map<nat, Config>, cluster: string)
    requires Keyed(configs, cluster)
    ensures |ListedKeys(configs, cluster)| == |configs|
    ensures forall q | q in configs :: q in ListedKeys(configs, cluster)
  {
    var labelled := set q | q in configs && Labelled(configs[q], cluster);
    assert labelled == configs.Keys;
    assert ListedKeys(configs, cluster) == Ascending(labelled);
  }

  lemma ListByKeys(configs: map<nat, Config>, keys: seq<nat>, list: seq<Config>)
    requires |list| == |keys|
    requires forall i, j | 0 <= i < j < |keys| :: keys[i] < keys[j]
    requires forall i | 0 <= i < |keys| :: keys[i] in configs && list[i] == configs[keys[i]] && list[i].manifest.sequence == keys[i]
    requires forall q | q in configs :: q in keys
    ensures Sorted(list) && Keys(list) == configs.Keys
    ensures forall i | 0 <= i < |list| :: list[i].manifest.sequence in configs && list[i] == configs[list[i].manifest.sequence]
  {
    forall i: nat, j: nat | i < j < |list| ensures Below(list, i, j) {
    }
    forall q | q in configs.Keys ensures q in Keys(list) {
      var i :| 0 <= i < |keys| && keys[i] == q;
      KeyAt(list, i);
    }
    forall q | q in Keys(list) ensures q in configs.Keys {
      var i := IndexOfKey(list, q);
    }
  }

  /** On every store the list has exactly the configs that carry the cluster's label, each once, in the
      order of their keys. */
  lemma ListIsSelection(configs: map<nat, Config>, cluster: string)
    ensures var keys, list := ListedKeys(configs, cluster), ListConfigs(configs, cluster);
            && |list| == |keys|
            && (forall q :: q in keys <==> q in configs && Entry(configs[q].manifest.labels, CLUSTER_LABEL) == Some(cluster))
            && (forall i, j | 0 <= i < j < |keys| :: keys[i] < keys[j])
            && (forall i | 0 <= i < |list| :: list[i] == configs[keys[i]])
  {
    var labelled := set q | q in configs && Labelled(configs[q], cluster);
    assert ListedKeys(configs, cluster) == Ascending(labelled);
  }

  /** On such a store the list is the store: same configs, ascending. */
  lemma ListIsStore(configs: map<nat, Config>, cluster: string)
    requires Keyed(configs, cluster)
    ensures var list := ListConfigs(configs, cluster);
            && Sorted(list)
            && Keys(list) == configs.Keys
            && |list| == |configs|
            && (forall i | 0 <= i < |list| :: list[i].manifest.sequence in configs && list[i] == configs[list[i].manifest.sequence])
  {
    AllKeysListed(configs, cluster);
    ListByKeys(configs, ListedKeys(configs, cluster), ListConfigs(configs, cluster));
  }

  lemma ListsEmpty(cluster: string)
    ensures ListConfigs(map[], cluster) == []
  {
    ListIsStore(map[], cluster);
  }

  lemma ListsOne(c: Config, cluster: string)
    requires c.manifest.sequence == 1 && Labelled(c, cluster)
    ensures ListConfigs(map[1 := c], cluster) == [c]
  {
    ListIsStore(map[1 := c], cluster);
  }

  // ---- The active config ----

  function FirstInProgress(list: seq<Config>): (i: nat)
    ensures i <= |list|
    ensures i < |list| ==> list[i].status.phase.ConfigPhaseInProgress?
    ensures forall j | 0 <= j < i :: !list[j].status.phase.ConfigPhaseInProgress?
  {
    if list == [] || list[0].status.phase.ConfigPhaseInProgress? then 0 else 1 + FirstInProgress(list[1..])
  }

  /** The oldest config in progress, or the oldest config when none is. */
  function SelectActive(list: seq<Config>): (c: Config)
    requires list != []
    ensures c in list
    ensures c == if FirstInProgress(list) < |list| then list[FirstInProgress(list)] else list[0]
    ensures c.status.phase.ConfigPhaseApplied? ==> c == list[0]
  {
    var i := FirstInProgress(list);
    if |list| == 1 || i == |list| then list[0] else list[i]
  }

  // ---- Cleanup ----

  /** Index of the newest Applied config, or -1. */
  function LastApplied(list: seq<Config>): (i: int)
    ensures -1 <= i < |list|
    ensures i >= 0 ==> list[i].status.phase.ConfigPhaseApplied?
    ensures forall j | i < j < |list| :: !list[j].status.phase.ConfigPhaseApplied?
  {
    if list == [] then -1
    else if list[|list| - 1].status.phase.ConfigPhaseApplied? then |list| - 1
    else LastApplied(list[..|list| - 1])
  }

  /** How many of the oldest configs cleanup deletes. */
  function CleanupCount(list: seq<Config>): (n: nat)
    ensures n == 0 || n < |list|
  {
    if |list| <= 1 || LastApplied(list) <= 0 then 0 else LastApplied(list)
  }

  /** What cleanup keeps, for every list: nothing at or above the newest Applied config is dropped,
      the highest config stays last, and when some config was read as Applied the kept list has
      exactly one Applied config, its first. */
  lemma CleanupKeeps(list: seq<Config>)
    ensures var kept := list[CleanupCount(list)..];
            && (list != [] ==> kept != [] && kept[|kept| - 1] == list[|list| - 1])
            && (LastApplied(list) >= 0 ==> kept[0].status.phase.ConfigPhaseApplied? && kept[0] == list[LastApplied(list)])
            && (forall i | 1 <= i < |kept| && LastApplied(list) >= 0 :: !kept[i].status.phase.ConfigPhaseApplied?)
            && (LastApplied(list) < 0 ==> kept == list)
  {
  }

  lemma KeysOfTail(list: seq<Config>)
    requires Sorted(list) && list != []
    ensures Keys(list[1..]) == Keys(list) - {list[0].manifest.sequence}
    ensures Sorted(list[1..])
  {
    var tail := list[1..];
    forall i: nat, j: nat | i < j < |tail| ensures Below(tail, i, j) {
      assert Below(list, i + 1, j + 1);
    }
    forall k | k in Keys(tail) ensures k != list[0].manifest.sequence {
      var i := IndexOfKey(tail, k);
      assert Below(list, 0, i + 1);
    }
  }

  lemma FirstIsLowest(list: seq<Config>, i: nat)
    requires Sorted(list) && i < |list|
    ensures list[0].manifest.sequence <= list[i].manifest.sequence
  {
    if i > 0 { assert Below(list, 0, i); }
  }
}
