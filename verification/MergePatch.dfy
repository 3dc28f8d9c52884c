/** JSON documents and merge patches (section 2 of RFC 7396), as client.MergeFrom produces and the API
    server applies them, and the comparison that ignores fields the left side does not set. */
module MergePatch {
  import opened Types

  /** A document without nulls: an unset field is absent. */
  datatype Json = Leaf(text: string) | Arr(items: seq<Json>) | Obj(fields: map<string, Json>)

  /** A patch: null removes, an object merges, anything else replaces. */
  datatype Patch = Remove | Put(value: Json) | Merge(fields: map<string, Patch>)

  type Fields = map<string, Json>

  function Get(fields: Fields, k: string): Option<Json> {
    if k in fields then Some(fields[k]) else None
  }

  function FieldsOf(target: Option<Json>): Fields {
    if target.Some? && target.value.Obj? then target.value.fields else map[]
  }

  // ---- Applying ----

  function Apply(target: Option<Json>, patch: Patch): Option<Json>
    decreases patch
  {
    match patch
    case Remove => None
    case Put(value) => Some(value)
    case Merge(fields) =>
      var base := FieldsOf(target);
      Some(Obj(map k | k in base.Keys + fields.Keys && (k in fields ==> Apply(Get(base, k), fields[k]).Some?)
               :: if k in fields then Apply(Get(base, k), fields[k]).value else base[k]))
  }

  /** What a merge leaves at one key. */
  lemma ApplyAt(target: Option<Json>, fields: map<string, Patch>, k: string)
    ensures var out := Apply(target, Merge(fields));
            && out.Some? && out.value.Obj?
            && Get(out.value.fields, k) == if k in fields then Apply(Get(FieldsOf(target), k), fields[k]) else Get(FieldsOf(target), k)
  {
  }

  // ---- Diffing ----

  /** A value written out as a patch. */
  function Whole(value: Json): Patch {
    match value
    case Obj(fields) => Merge(map k | k in fields :: Whole(fields[k]))
    case _ => Put(value)
  }

  /** The patch that turns a field into `goal`, when there is something to do. */
  function Diff(from: Option<Json>, goal: Json): Option<Patch>
    decreases goal
  {
    if from == Some(goal) then None
    else if goal.Obj? && from.Some? && from.value.Obj? then
      Some(Merge(map k | k in from.value.fields.Keys + goal.fields.Keys
                         && (k in goal.fields ==> Diff(Get(from.value.fields, k), goal.fields[k]).Some?)
                 :: if k in goal.fields then Diff(Get(from.value.fields, k), goal.fields[k]).value else Remove))
    else Some(Whole(goal))
  }

  /** The same for a field that may end up absent. */
  function DiffField(from: Option<Json>, goal: Option<Json>): Option<Patch> {
    if goal.Some? then Diff(from, goal.value) else if from.None? then None else Some(Remove)
  }

  function ApplyField(target: Option<Json>, patch: Option<Patch>): Option<Json> {
    if patch.None? then target else Apply(target, patch.value)
  }

  /** How an object diff treats one key. */
  lemma DiffAt(from: Fields, goal: Fields, k: string)
    requires from != goal
    ensures var d := Diff(Some(Obj(from)), Obj(goal));
            && d.Some? && d.value.Merge?
            && (k in d.value.fields <==> DiffField(Get(from, k), Get(goal, k)).Some?)
            && (k in d.value.fields ==> Some(d.value.fields[k]) == DiffField(Get(from, k), Get(goal, k)))
  {
  }

  // ---- Round trip and merging with concurrent changes ----

  lemma {:induction false} WholeIsValue(target: Option<Json>, value: Json)
    requires value.Obj? ==> target.None? || !target.value.Obj?
    ensures Apply(target, Whole(value)) == Some(value)
    decreases value
  {
    if value.Obj? {
      var out := Apply(target, Whole(value)).value.fields;
      forall k ensures Get(out, k) == Get(value.fields, k) {
        ApplyAt(target, Whole(value).fields, k);
        if k in value.fields { WholeIsValue(None, value.fields[k]); }
      }
      SameFields(out, value.fields);
    }
  }

  /** Applying the diff of two documents to the first gives the second. */
  lemma RoundTrip(from: Option<Json>, goal: Option<Json>)
    ensures ApplyField(from, DiffField(from, goal)) == goal
  {
    if goal.Some? { RoundTripValue(from, goal.value); }
  }

  lemma {:induction false} RoundTripValue(from: Option<Json>, goal: Json)
    ensures ApplyField(from, Diff(from, goal)) == Some(goal)
    decreases goal
  {
    if from != Some(goal) {
      if goal.Obj? && from.Some? && from.value.Obj? {
        RoundTripFields(from.value.fields, goal.fields);
      } else {
        WholeIsValue(from, goal);
      }
    }
  }

  lemma {:induction false} RoundTripFields(from: Fields, goal: Fields)
    requires from != goal
    ensures ApplyField(Some(Obj(from)), Diff(Some(Obj(from)), Obj(goal))) == Some(Obj(goal))
    decreases Obj(goal), 0
  {
    hide Diff, Apply;
    var d := Diff(Some(Obj(from)), Obj(goal));
    DiffAt(from, goal, "");
    ApplyAt(Some(Obj(from)), d.value.fields, "");
    var out := Apply(Some(Obj(from)), d.value).value.fields;
    forall k ensures Get(out, k) == Get(goal, k) {
      DiffAt(from, goal, k);
      ApplyAt(Some(Obj(from)), d.value.fields, k);
      if k in goal { RoundTripValue(Get(from, k), goal[k]); } else { RemovedField(Get(from, k)); }
    }
    SameFields(out, goal);
  }

  lemma RemoveLeavesNothing(target: Option<Json>)
    ensures Apply(target, Remove) == None
  {
  }

  lemma RemovedField(from: Option<Json>)
    ensures ApplyField(from, DiffField(from, None)) == None
  {
  }

  lemma SameFields(a: Fields, b: Fields)
    requires forall k :: Get(a, k) == Get(b, k)
    ensures a == b
  {
    assert forall k :: k in a <==> Get(a, k).Some?;
    assert forall k :: k in b <==> Get(b, k).Some?;
  }

  /** A patch touches only the fields in which the two documents differ: those become the goal's, every
      other field stays as it is live. */
  lemma PatchIsLocal(from: Fields, live: Fields, goal: Fields, k: string)
    ensures var out := ApplyField(Some(Obj(live)), Diff(Some(Obj(from)), Obj(goal)));
            && out.Some? && out.value.Obj?
            && (Get(from, k) == Get(goal, k) ==> Get(out.value.fields, k) == Get(live, k))
            && (k !in goal && k in from ==> k !in out.value.fields)
            && (k in goal && !goal[k].Obj? && Get(from, k) != Some(goal[k]) ==> Get(out.value.fields, k) == Some(goal[k]))
  {
    if from != goal {
      DiffAt(from, goal, k);
      ApplyAt(Some(Obj(live)), Diff(Some(Obj(from)), Obj(goal)).value.fields, k);
    }
  }

  // ---- Comparing only what is set ----

  /** DeepDerivative: every field d sets has that value in e; lists compare as prefixes. */
  predicate Covers(d: Json, e: Json) {
    match d
    case Leaf(_) => e == d
    case Arr(items) => e.Arr? && |items| <= |e.items| && forall i | 0 <= i < |items| :: Covers(items[i], e.items[i])
    case Obj(fields) => e.Obj? && forall k | k in fields :: k in e.fields && Covers(fields[k], e.fields[k])
  }

  /** One step into a document. */
  datatype Step = Field(name: string) | Item(index: nat)

  /** What stands at a path: a text, or the fact that there is a list or an object. */
  datatype Node = Text(text: string) | List | Object

  function NodeAt(j: Json, path: seq<Step>): Option<Node>
    decreases |path|
  {
    if path == [] then Some(match j case Leaf(text) => Text(text) case Arr(_) => List case Obj(_) => Object)
    else match path[0]
         case Field(name) => if j.Obj? && name in j.fields then NodeAt(j.fields[name], path[1..]) else None
         case Item(index) => if j.Arr? && index < |j.items| then NodeAt(j.items[index], path[1..]) else None
  }

  /** Comparing only what is set means exactly that: every text of d stands at the same path in e, and every
      list and object of d has a list and an object there. */
  lemma CoversIff(d: Json, e: Json)
    ensures Covers(d, e) <==> Agree(d, e)
  {
    if Covers(d, e) {
      forall path: seq<Step> | NodeAt(d, path).Some? ensures NodeAt(e, path) == NodeAt(d, path) { CoversAt(d, e, path); }
    }
    if Agree(d, e) { AtCovers(d, e); }
  }

  /** Something stands at this path of d that does not stand there in e. */
  predicate Misses(d: Json, e: Json, path: seq<Step>) {
    NodeAt(d, path).Some? && NodeAt(e, path) != NodeAt(d, path)
  }

  lemma NotCoveredIff(d: Json, e: Json)
    ensures !Covers(d, e) <==> exists path: seq<Step> :: Misses(d, e, path)
  {
    CoversIff(d, e);
    if !Agree(d, e) {
      var path: seq<Step> :| NodeAt(d, path).Some? && NodeAt(e, path) != NodeAt(d, path);
      assert Misses(d, e, path);
    }
  }

  /** Whatever stands at any path of d stands there in e. */
  ghost predicate Agree(d: Json, e: Json) {
    forall path: seq<Step> | NodeAt(d, path).Some? :: NodeAt(e, path) == NodeAt(d, path)
  }

  lemma {:induction false} CoversAt(d: Json, e: Json, path: seq<Step>)
    requires Covers(d, e) && NodeAt(d, path).Some?
    ensures NodeAt(e, path) == NodeAt(d, path)
    decreases |path|
  {
    if path != [] {
      match path[0]
      case Field(name) => CoversAt(d.fields[name], e.fields[name], path[1..]);
      case Item(index) => CoversAt(d.items[index], e.items[index], path[1..]);
    }
  }

  lemma {:induction false} AtCovers(d: Json, e: Json)
    requires Agree(d, e)
    ensures Covers(d, e)
    decreases d
  {
    assert NodeAt(d, []).Some? && NodeAt(e, []) == NodeAt(d, []);
    match d
    case Leaf(_) =>
    case Arr(items) =>
      if |items| > 0 { Inside(d, e, Item(|items| - 1)); }
      forall i | 0 <= i < |items| ensures Covers(items[i], e.items[i]) {
        Inside(d, e, Item(i));
        AtCovers(items[i], e.items[i]);
      }
    case Obj(fields) =>
      forall k | k in fields ensures k in e.fields && Covers(fields[k], e.fields[k]) {
        Inside(d, e, Field(k));
        AtCovers(fields[k], e.fields[k]);
      }
  }

  function Child(j: Json, step: Step): Option<Json> {
    match step
    case Field(name) => if j.Obj? && name in j.fields then Some(j.fields[name]) else None
    case Item(index) => if j.Arr? && index < |j.items| then Some(j.items[index]) else None
  }

  /** Agreement at every path carries over to the children. */
  lemma Inside(d: Json, e: Json, step: Step)
    requires Agree(d, e)
    requires Child(d, step).Some?
    ensures Child(e, step).Some?
    ensures var a, b := Child(d, step).value, Child(e, step).value;
            Agree(a, b)
  {
    Descend(d, step, []);
    Descend(e, step, []);
    assert NodeAt(d, [step] + []).Some?;
    var a, b := Child(d, step).value, Child(e, step).value;
    forall path: seq<Step> | NodeAt(a, path).Some? ensures NodeAt(b, path) == NodeAt(a, path) {
      Descend(d, step, path);
      Descend(e, step, path);
      assert NodeAt(d, [step] + path).Some?;
    }
  }

  lemma Descend(j: Json, step: Step, path: seq<Step>)
    ensures NodeAt(j, [step] + path) == if Child(j, step).Some? then NodeAt(Child(j, step).value, path) else None
  {
    assert ([step] + path)[0] == step && ([step] + path)[1..] == path;
  }

  lemma {:induction false} CoversSelf(d: Json)
    ensures Covers(d, d)
  {
    match d
    case Leaf(_) =>
    case Arr(items) => forall i | 0 <= i < |items| ensures Covers(items[i], items[i]) { CoversSelf(items[i]); }
    case Obj(fields) => forall k | k in fields ensures Covers(fields[k], fields[k]) { CoversSelf(fields[k]); }
  }

  lemma {:induction false} CoversChain(a: Json, b: Json, c: Json)
    requires Covers(a, b) && Covers(b, c)
    ensures Covers(a, c)
    decreases a
  {
    match a
    case Leaf(_) =>
    case Arr(items) =>
      forall i | 0 <= i < |items| ensures Covers(items[i], c.items[i]) { CoversChain(items[i], b.items[i], c.items[i]); }
    case Obj(fields) =>
      forall k | k in fields ensures Covers(fields[k], c.fields[k]) { CoversChain(fields[k], b.fields[k], c.fields[k]); }
  }

  /** A patch computed before fields were added to the live document still leaves everything the target
      sets in place. */
  lemma {:induction false} PatchCovers(from: Json, live: Json, goal: Json)
    requires Covers(from, live)
    ensures var out := ApplyField(Some(live), Diff(Some(from), goal)); out.Some? && Covers(goal, out.value)
    decreases goal
  {
    if from == goal {
    } else if goal.Obj? && from.Obj? {
      PatchCoversFields(from.fields, live.fields, goal.fields);
    } else if goal.Obj? {
      WholeIsValue(Some(live), goal);
      CoversSelf(goal);
    } else {
      CoversSelf(goal);
    }
  }

  lemma {:induction false} PatchCoversFields(from: Fields, live: Fields, goal: Fields)
    requires from != goal && Covers(Obj(from), Obj(live))
    ensures var out := ApplyField(Some(Obj(live)), Diff(Some(Obj(from)), Obj(goal))); out.Some? && Covers(Obj(goal), out.value)
    decreases Obj(goal), 0
  {
    hide Diff, Apply;
    var d := Diff(Some(Obj(from)), Obj(goal));
    DiffAt(from, goal, "");
    ApplyAt(Some(Obj(live)), d.value.fields, "");
    var out := Apply(Some(Obj(live)), d.value).value.fields;
    forall k | k in goal ensures k in out && Covers(goal[k], out[k]) {
      DiffAt(from, goal, k);
      ApplyAt(Some(Obj(live)), d.value.fields, k);
      if k in from {
        PatchCovers(from[k], live[k], goal[k]);
      } else {
        WholeCovers(Get(live, k), goal[k]);
        assert Diff(None, goal[k]) == Some(Whole(goal[k])) by { NewField(goal[k]); }
      }
      assert Get(out, k).Some?;
    }
  }

  lemma NewField(goal: Json)
    ensures Diff(None, goal) == Some(Whole(goal))
  {
  }

  /** A value written out over anything ends up covered. */
  lemma {:induction false} WholeCovers(target: Option<Json>, value: Json)
    ensures var out := Apply(target, Whole(value)); out.Some? && Covers(value, out.value)
    decreases value
  {
    match value
    case Leaf(_) =>
    case Arr(_) => CoversSelf(value);
    case Obj(fields) =>
      forall k | k in fields
        ensures var out := Apply(Get(FieldsOf(target), k), Whole(fields[k])); out.Some? && Covers(fields[k], out.value)
      {
        WholeCovers(Get(FieldsOf(target), k), fields[k]);
      }
  }

  // ---- What a patch removes ----

  /** Wherever all three are objects, a field of the result is one the goal has or one `from` did not. */
  predicate Prunes(goal: Json, from: Json, out: Json)
    decreases goal
  {
    goal.Obj? && from.Obj? && out.Obj? ==>
      forall k | k in out.fields ::
        if k in goal.fields then k in from.fields ==> Prunes(goal.fields[k], from.fields[k], out.fields[k])
        else k !in from.fields
  }

  lemma {:induction false} PrunesSelf(goal: Json, out: Json)
    ensures Prunes(goal, goal, out)
    decreases goal
  {
    if goal.Obj? && out.Obj? {
      forall k | k in out.fields && k in goal.fields ensures Prunes(goal.fields[k], goal.fields[k], out.fields[k]) {
        PrunesSelf(goal.fields[k], out.fields[k]);
      }
    }
  }

  /** A patch computed before fields were added to the live document removes every field the goal no
      longer has, at every depth; only concurrent additions can be left over. */
  lemma {:induction false} PatchPrunes(from: Json, live: Json, goal: Json)
    requires Covers(from, live)
    ensures var out := ApplyField(Some(live), Diff(Some(from), goal)); out.Some? && Prunes(goal, from, out.value)
    decreases goal
  {
    PatchCovers(from, live, goal);
    if from == goal {
      PrunesSelf(goal, live);
    } else if goal.Obj? && from.Obj? {
      PatchPrunesFields(from.fields, live.fields, goal.fields);
    }
  }

  lemma {:induction false} PatchPrunesFields(from: Fields, live: Fields, goal: Fields)
    requires from != goal && Covers(Obj(from), Obj(live))
    ensures var out := ApplyField(Some(Obj(live)), Diff(Some(Obj(from)), Obj(goal))); out.Some? && Prunes(Obj(goal), Obj(from), out.value)
    decreases Obj(goal), 0
  {
    hide Diff, Apply;
    var d := Diff(Some(Obj(from)), Obj(goal));
    DiffAt(from, goal, "");
    ApplyAt(Some(Obj(live)), d.value.fields, "");
    var out := Apply(Some(Obj(live)), d.value).value.fields;
    forall k | k in out && k !in goal ensures k !in from {
      DiffAt(from, goal, k);
      ApplyAt(Some(Obj(live)), d.value.fields, k);
      assert Get(out, k).Some?;
      RemoveLeavesNothing(Get(live, k));
    }
    forall k | k in out && k in goal && k in from ensures Prunes(goal[k], from[k], out[k]) {
      DiffAt(from, goal, k);
      ApplyAt(Some(Obj(live)), d.value.fields, k);
      PatchPrunes(from[k], live[k], goal[k]);
      assert Get(out, k) == Some(out[k]);
    }
  }
}
