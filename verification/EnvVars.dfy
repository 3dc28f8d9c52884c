/** The environment of the Robin container: an in-place merge with an index by name. */
module EnvVars {
  import opened Types

  /** `value` stands for the value or the reference to take it from. */
  datatype EnvVar = EnvVar(name: string, value: string)

  // ---- Last wins ----

  /** What an environment gives a name: its last entry. */
  function ValueOf(env: seq<EnvVar>, name: string): Option<string> {
    if env == [] then None
    else if env[|env| - 1].name == name then Some(env[|env| - 1].value)
    else ValueOf(env[..|env| - 1], name)
  }

  function Names(env: seq<EnvVar>): seq<string> {
    if env == [] then [] else Names(env[..|env| - 1]) + [env[|env| - 1].name]
  }

  /** The names of env that are not in `seen`, in order of first appearance. */
  function NewNames(seen: seq<string>, env: seq<EnvVar>): seq<string> {
    if env == [] then []
    else
      var rest, name := NewNames(seen, env[..|env| - 1]), env[|env| - 1].name;
      if name in seen || name in rest then rest else rest + [name]
  }

  predicate Distinct(names: seq<string>) {
    names == [] || (names[|names| - 1] !in names[..|names| - 1] && Distinct(names[..|names| - 1]))
  }

  lemma ValueAppend(env: seq<EnvVar>, e: EnvVar, name: string)
    ensures ValueOf(env + [e], name) == if e.name == name then Some(e.value) else ValueOf(env, name)
    ensures Names(env + [e]) == Names(env) + [e.name]
  {
    assert (env + [e])[..|env|] == env;
  }

  // ---- One override ----

  /** Position i holds the last entry called name. */
  predicate IsLast(env: seq<EnvVar>, name: string, i: nat) {
    i < |env| && env[i].name == name && forall j | i < j < |env| :: env[j].name != name
  }

  /** The value of a name is that of its last entry. */
  lemma {:induction false} ValueIff(env: seq<EnvVar>, name: string, value: string)
    ensures ValueOf(env, name) == Some(value) <==> exists i: nat :: IsLast(env, name, i) && env[i].value == value
  {
    if env != [] {
      var init, last := env[..|env| - 1], env[|env| - 1];
      if last.name == name {
        assert IsLast(env, name, |env| - 1);
      } else {
        ValueIff(init, name, value);
        if i: nat :| IsLast(init, name, i) && init[i].value == value { assert IsLast(env, name, i); }
        if i: nat :| IsLast(env, name, i) && env[i].value == value { assert IsLast(init, name, i); }
      }
    }
  }

  /** Overriding the last entry of a name changes that name alone. */
  lemma {:induction false} ReplaceLast(env: seq<EnvVar>, e: EnvVar, i: nat, name: string)
    requires IsLast(env, e.name, i)
    ensures ValueOf(env[i := e], name) == if name == e.name then Some(e.value) else ValueOf(env, name)
    ensures Names(env[i := e]) == Names(env) && e.name in Names(env)
  {
    var init, last := env[..|env| - 1], env[|env| - 1];
    assert env == init + [last];
    ValueAppend(init, last, name);
    if i == |env| - 1 {
      assert env[i := e] == init + [e];
      ValueAppend(init, e, name);
    } else {
      ReplaceLast(init, e, i, name);
      assert env[i := e] == init[i := e] + [last];
      ValueAppend(init[i := e], last, name);
    }
  }

  // ---- The index ----

  /** The index knows exactly the names present, each by its last position. */
  ghost predicate Indexes(index: map<string, nat>, env: seq<EnvVar>) {
    && (forall name | name in index :: IsLast(env, name, index[name]))
    && (forall i | 0 <= i < |env| :: env[i].name in index)
  }

  lemma IndexAppend(index: map<string, nat>, env: seq<EnvVar>, e: EnvVar)
    requires Indexes(index, env)
    ensures Indexes(index[e.name := |env|], env + [e])
  {
    var more, index' := env + [e], index[e.name := |env|];
    forall name | name in index' ensures IsLast(more, name, index'[name]) {
      if name != e.name { assert IsLast(env, name, index[name]); }
    }
  }

  lemma {:induction false} IndexedName(index: map<string, nat>, env: seq<EnvVar>, name: string)
    requires forall i | 0 <= i < |env| :: env[i].name in index
    requires name !in index
    ensures name !in Names(env)
  {
    if env != [] {
      IndexedName(index, env[..|env| - 1], name);
      assert env[|env| - 1].name in index;
    }
  }

  // ---- mergeEnvVars ----

  /** The merge as it reads: overrides first, then the base; base names keep their places and new names
      follow in order of first appearance. */
  ghost predicate MergedIs(merged: seq<EnvVar>, base: seq<EnvVar>, overrides: seq<EnvVar>) {
    && (forall name :: ValueOf(merged, name) ==
                       if ValueOf(overrides, name).Some? then ValueOf(overrides, name) else ValueOf(base, name))
    && Names(merged) == Names(base) + NewNames(Names(base), overrides)
  }

  lemma MergedReplace(merged: seq<EnvVar>, base: seq<EnvVar>, overrides: seq<EnvVar>, e: EnvVar, i: nat)
    requires MergedIs(merged, base, overrides) && IsLast(merged, e.name, i)
    ensures MergedIs(merged[i := e], base, overrides + [e])
  {
    assert (overrides + [e])[..|overrides|] == overrides;
    ReplaceLast(merged, e, i, e.name);
    forall name ensures ValueOf(merged[i := e], name) ==
                        if ValueOf(overrides + [e], name).Some? then ValueOf(overrides + [e], name) else ValueOf(base, name)
    {
      ReplaceLast(merged, e, i, name);
      ValueAppend(overrides, e, name);
    }
  }

  lemma MergedAppend(merged: seq<EnvVar>, base: seq<EnvVar>, overrides: seq<EnvVar>, e: EnvVar)
    requires MergedIs(merged, base, overrides) && e.name !in Names(merged)
    ensures MergedIs(merged + [e], base, overrides + [e])
  {
    assert (overrides + [e])[..|overrides|] == overrides;
    ValueAppend(merged, e, e.name);
    forall name ensures ValueOf(merged + [e], name) ==
                        if ValueOf(overrides + [e], name).Some? then ValueOf(overrides + [e], name) else ValueOf(base, name)
    {
      ValueAppend(merged, e, name);
      ValueAppend(overrides, e, name);
    }
  }

  /** mergeEnvVars, for any lists, with repeated names too. */
  method MergeEnvVars(base: seq<EnvVar>, overrides: seq<EnvVar>) returns (merged: seq<EnvVar>)
    ensures MergedIs(merged, base, overrides)
  {
    hide MergedIs, Indexes;
    merged := base;
    var indexByName: map<string, nat> := map[];
    assert Indexes(indexByName, merged[..0]) && MergedIs(base, base, []) by { Nothing(base); }
    for i := 0 to |merged|
      invariant merged == base
      invariant Indexes(indexByName, merged[..i])
    {
      assert merged[..i + 1] == merged[..i] + [merged[i]];
      IndexAppend(indexByName, merged[..i], merged[i]);
      indexByName := indexByName[merged[i].name := i];
    }
    assert merged[..|merged|] == base;
    for i := 0 to |overrides|
      invariant Indexes(indexByName, merged)
      invariant MergedIs(merged, base, overrides[..i])
    {
      var e := overrides[i];
      assert overrides[..i + 1] == overrides[..i] + [e];
      IndexStep(indexByName, merged, e);
      if e.name in indexByName {
        MergedReplace(merged, base, overrides[..i], e, indexByName[e.name]);
        merged := merged[indexByName[e.name] := e];
      } else {
        MergedAppend(merged, base, overrides[..i], e);
        indexByName := indexByName[e.name := |merged|];
        merged := merged + [e];
      }
    }
    assert overrides[..|overrides|] == overrides;
  }

  lemma Nothing(base: seq<EnvVar>)
    ensures Indexes(map[], base[..0]) && MergedIs(base, base, [])
    ensures forall name :: ValueOf([], name) == None
  {
  }

  /** What the index tells about an override, and how it follows the list. */
  lemma IndexStep(index: map<string, nat>, env: seq<EnvVar>, e: EnvVar)
    requires Indexes(index, env)
    ensures e.name in index ==> IsLast(env, e.name, index[e.name]) && Indexes(index, env[index[e.name] := e])
    ensures e.name !in index ==> e.name !in Names(env) && Indexes(index[e.name := |env|], env + [e])
  {
    if e.name in index {
      var env' := env[index[e.name] := e];
      forall name | name in index ensures IsLast(env', name, index[name]) { assert IsLast(env, name, index[name]); }
    } else {
      IndexedName(index, env, e.name);
      IndexAppend(index, env, e);
    }
  }

  // ---- The double merge ----

  const CLUSTER_NAME := "CLUSTER_NAME"
  const NAMESPACE := "NAMESPACE"

  function Defaults(cluster: string, namespace: string): seq<EnvVar> {
    [EnvVar(CLUSTER_NAME, cluster), EnvVar(NAMESPACE, namespace)]
  }

  lemma {:induction false} NamesAt(env: seq<EnvVar>, i: nat)
    requires i < |env|
    ensures |Names(env)| == |env| && Names(env)[i] == env[i].name
  {
    var init := env[..|env| - 1];
    if init == [] {
      assert Names(init) == [];
    } else {
      NamesAt(init, if i < |init| then i else 0);
    }
  }

  /** New names are new and distinct. */
  lemma {:induction false} NewNamesFresh(seen: seq<string>, env: seq<EnvVar>)
    requires Distinct(seen)
    ensures Distinct(seen + NewNames(seen, env))
  {
    if env == [] {
      assert seen + [] == seen;
    } else {
      var init, name := env[..|env| - 1], env[|env| - 1].name;
      NewNamesFresh(seen, init);
      var rest := seen + NewNames(seen, init);
      if name !in rest {
        assert seen + NewNames(seen, env) == rest + [name];
        assert (rest + [name])[..|rest|] == rest;
      }
    }
  }

  /** With distinct names every entry is the one its name reads. */
  lemma {:induction false} DistinctValue(env: seq<EnvVar>, i: nat)
    requires i < |env| && Distinct(Names(env))
    ensures ValueOf(env, env[i].name) == Some(env[i].value)
  {
    var init := env[..|env| - 1];
    if i < |env| - 1 {
      assert Names(env)[..|Names(env)| - 1] == Names(init);
      NamesAt(init, i);
      assert Names(init)[i] in Names(init);
      DistinctValue(init, i);
    }
  }

  lemma {:induction false} DistinctNames(env: seq<EnvVar>, i: nat, j: nat)
    requires Distinct(Names(env)) && i < j < |env|
    ensures env[i].name != env[j].name
  {
    var init := env[..|env| - 1];
    assert Names(env)[..|Names(env)| - 1] == Names(init);
    if j == |env| - 1 {
      NamesAt(init, i);
      assert Names(init)[i] in Names(init);
    } else {
      DistinctNames(init, i, j);
    }
  }

  lemma DefaultsRead(cluster: string, namespace: string, name: string)
    ensures Names(Defaults(cluster, namespace)) == [CLUSTER_NAME, NAMESPACE] && Distinct([CLUSTER_NAME, NAMESPACE])
    ensures ValueOf(Defaults(cluster, namespace), name) ==
            if name == CLUSTER_NAME then Some(cluster) else if name == NAMESPACE then Some(namespace) else None
  {
    var c, n := EnvVar(CLUSTER_NAME, cluster), EnvVar(NAMESPACE, namespace);
    assert Defaults(cluster, namespace) == ([] + [c]) + [n];
    ValueAppend([] + [c], n, name);
    ValueAppend([], c, name);
    assert Distinct([CLUSTER_NAME]);
    assert [CLUSTER_NAME, NAMESPACE][..1] == [CLUSTER_NAME];
  }

  lemma NothingNew(seen: seq<string>, cluster: string, namespace: string)
    requires CLUSTER_NAME in seen && NAMESPACE in seen
    ensures NewNames(seen, Defaults(cluster, namespace)) == []
  {
    var env := Defaults(cluster, namespace);
    assert env[..1][..0] == [];
    assert NewNames(seen, env[..1]) == [];
  }

  lemma DefaultsTwice(cluster: string, namespace: string)
    ensures var d := Defaults(cluster, namespace); MergedIs(d, d, d)
  {
    DefaultsRead(cluster, namespace, CLUSTER_NAME);
    NothingNew([CLUSTER_NAME, NAMESPACE], cluster, namespace);
  }

  /** What the second merge makes of the first. */
  lemma DoubleMerge(cluster: string, namespace: string, user: seq<EnvVar>, once: seq<EnvVar>, twice: seq<EnvVar>)
    requires MergedIs(once, Defaults(cluster, namespace), user) && MergedIs(twice, once, Defaults(cluster, namespace))
    ensures |twice| >= 2 && twice[0] == EnvVar("CLUSTER_NAME", cluster) && twice[1] == EnvVar("NAMESPACE", namespace)
    ensures forall i, j | 0 <= i < j < |twice| :: twice[i].name != twice[j].name
    ensures Names(twice) == [CLUSTER_NAME, NAMESPACE] + NewNames([CLUSTER_NAME, NAMESPACE], user) && Distinct(Names(twice))
    ensures forall name | name != CLUSTER_NAME && name != NAMESPACE :: ValueOf(twice, name) == ValueOf(user, name)
  {
    var defaults := Defaults(cluster, namespace);
    DefaultsRead(cluster, namespace, CLUSTER_NAME);
    DefaultsRead(cluster, namespace, NAMESPACE);
    var names := [CLUSTER_NAME, NAMESPACE] + NewNames([CLUSTER_NAME, NAMESPACE], user);
    assert names[0] == CLUSTER_NAME && names[1] == NAMESPACE;
    NothingNew(names, cluster, namespace);
    assert Names(twice) == names;
    NewNamesFresh([CLUSTER_NAME, NAMESPACE], user);
    NamesAt(twice, 0);
    NamesAt(twice, 1);
    DistinctValue(twice, 0);
    DistinctValue(twice, 1);
    forall i, j | 0 <= i < j < |twice| ensures twice[i].name != twice[j].name { DistinctNames(twice, i, j); }
    forall name | name != CLUSTER_NAME && name != NAMESPACE ensures ValueOf(twice, name) == ValueOf(user, name) {
      DefaultsRead(cluster, namespace, name);
    }
  }

  /** The container's environment: defaults, then the first template container's variables, then the
      defaults once more so that the user cannot shadow them. The operator's two come first with its
      values, names are distinct, and every other name reads as the user set it last. */
  method RobinEnv(cluster: string, namespace: string, template: Option<seq<seq<EnvVar>>>) returns (env: seq<EnvVar>)
    ensures |env| >= 2 && env[0] == EnvVar("CLUSTER_NAME", cluster) && env[1] == EnvVar("NAMESPACE", namespace)
    ensures forall i, j | 0 <= i < j < |env| :: env[i].name != env[j].name
    ensures forall name | name != CLUSTER_NAME && name != NAMESPACE ::
              ValueOf(env, name) == if template.Some? && template.value != [] then ValueOf(template.value[0], name) else None
  {
    hide MergedIs, Names, ValueOf, Distinct;
    env := Defaults(cluster, namespace);
    ghost var user := if template.Some? && template.value != [] then template.value[0] else [];
    Nothing(env);
    DefaultsTwice(cluster, namespace);
    DoubleMerge(cluster, namespace, [], env, env);
    if template.Some? {
      if |template.value| > 0 && |template.value[0]| > 0 {
        env := MergeEnvVars(env, template.value[0]);
      }
      var once := env;
      env := MergeEnvVars(once, Defaults(cluster, namespace));
      DoubleMerge(cluster, namespace, user, once, env);
    }
  }
}
