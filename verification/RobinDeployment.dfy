/** Keeping the Robin Deployment in shape next to the Kubernetes Deployment controller, which stamps a
    revision annotation, and an API server that fills in defaults. */
module RobinDeployment {
  import opened Types
  import opened MergePatch
  import opened Queue

  const REVISION := "deployment.kubernetes.io/revision"
  const COMPONENT_LABEL := "redkey.inditex.dev/component"

  /** The parts of a Deployment the operator writes; `pod` is the pod template spec as a document. */
  datatype Deployment = Deploy(
    replicas: Option<int>, labels: Meta, annotations: Meta, podLabels: Meta, podAnnotations: Meta, pod: Fields)

  /** The labels the operator puts on everything of Robin's; the selector uses them. */
  function Own(cluster: string): Meta {
    Meta(map[CLUSTER_LABEL := cluster, COMPONENT_LABEL := "robin"])
  }

  /** The desired Deployment: user metadata under the operator's own labels. */
  function Desired(cluster: string, labels: Meta, annotations: Meta, podLabels: Meta, podAnnotations: Meta, pod: Fields): Deployment {
    var base, none := Own(cluster), Meta(map[]);
    Deploy(Some(1), MergeMeta(labels, none, base), MergeMeta(annotations, none, none),
               MergeMeta(labels, podLabels, base), MergeMeta(annotations, podAnnotations, none), pod)
  }

  // ---- Managed annotations ----

  function Strip(annotations: Meta): Meta {
    Meta(annotations.entries - {REVISION})
  }

  /** stripManagedAnnotations. */
  method StripManagedAnnotations(annotations: Meta) returns (out: Meta)
    ensures REVISION !in out.entries
    ensures forall k | k != REVISION :: k in out.entries <==> k in annotations.entries
    ensures forall k | k in out.entries :: out.entries[k] == annotations.entries[k]
    ensures out == Strip(annotations)
  {
    if REVISION !in annotations.entries {
      return annotations;
    }
    var copy: map<string, string> := map[];
    var left := annotations.entries.Keys;
    while left != {}
      invariant left <= annotations.entries.Keys
      invariant copy == map k | k in annotations.entries && k !in left && k != REVISION :: annotations.entries[k]
      decreases left
    {
      var k :| k in left;
      left := left - {k};
      if k != REVISION {
        copy := copy[k := annotations.entries[k]];
      }
    }
    out := Meta(copy);
  }

  /** preserveManagedAnnotations. */
  function Preserve(existing: Meta, desired: Meta): (out: Meta)
    ensures Strip(out) == Strip(desired)
    ensures REVISION in existing.entries ==> REVISION in out.entries && out.entries[REVISION] == existing.entries[REVISION]
    ensures REVISION !in existing.entries ==> out == desired
  {
    if REVISION in existing.entries
    then
      var out := Meta(desired.entries[REVISION := existing.entries[REVISION]]);
      assert Strip(out).entries == Strip(desired).entries;
      out
    else desired
  }

  /** robinDeploymentNeedsUpdate. Removed labels and annotations count, removed pod fields do not. */
  predicate NeedsUpdate(existing: Deployment, desired: Deployment) {
    || existing.replicas.None? || existing.replicas != desired.replicas
    || existing.labels != desired.labels
    || Strip(existing.annotations) != desired.annotations
    || existing.podLabels != desired.podLabels
    || existing.podAnnotations != desired.podAnnotations
    || !Covers(Obj(desired.pod), Obj(existing.pod))
  }

  // ---- The patch ----

  /** What ensureRobinDeployment wants the object it read to become. */
  function Modified(existing: Deployment, desired: Deployment): Deployment {
    desired.(annotations := Preserve(existing.annotations, desired.annotations))
  }

  /** Labels or annotations as a document field, absent when empty. */
  function MetaField(m: Meta): Option<Json> {
    if m.entries == map[] then None else Some(Obj(map k | k in m.entries :: Leaf(m.entries[k])))
  }

  function MetaOf(field: Option<Json>): Meta {
    var fields := FieldsOf(field);
    Meta(map k | k in fields && fields[k].Leaf? :: fields[k].text)
  }

  function PatchedMeta(live: Meta, from: Meta, goal: Meta): Meta {
    MetaOf(ApplyField(MetaField(live), DiffField(MetaField(from), MetaField(goal))))
  }

  function PatchedPod(live: Fields, from: Fields, goal: Fields): Fields {
    FieldsOf(ApplyField(Some(Obj(live)), Diff(Some(Obj(from)), Obj(goal))))
  }

  /** The merge patch from one Deployment to another, applied to the live one. */
  function Patched(live: Deployment, from: Deployment, goal: Deployment): Deployment {
    Deploy(if from.replicas == goal.replicas then live.replicas else goal.replicas,
               PatchedMeta(live.labels, from.labels, goal.labels),
               PatchedMeta(live.annotations, from.annotations, goal.annotations),
               PatchedMeta(live.podLabels, from.podLabels, goal.podLabels),
               PatchedMeta(live.podAnnotations, from.podAnnotations, goal.podAnnotations),
               PatchedPod(live.pod, from.pod, goal.pod))
  }

  lemma SameMeta(a: Meta, b: Meta)
    requires forall k :: Entry(a, k) == Entry(b, k)
    ensures a == b
  {
    assert forall k :: k in a.entries <==> Entry(a, k).Some?;
    assert forall k :: k in b.entries <==> Entry(b, k).Some?;
    assert forall k | k in a.entries :: a.entries[k] == Entry(a, k).value;
    assert a.entries == b.entries;
  }

  lemma FieldAt(m: Meta, k: string)
    ensures Get(FieldsOf(MetaField(m)), k) == if k in m.entries then Some(Leaf(m.entries[k])) else None
  {
  }

  /** How a metadata patch treats one key: a change wins, anything else stays as it is live; emptying
      the whole field removes it with everything in it. */
  lemma PatchedMetaAt(live: Meta, from: Meta, goal: Meta, k: string)
    ensures Entry(PatchedMeta(live, from, goal), k) ==
            if goal.entries == map[] && from.entries != map[] then None
            else if Entry(from, k) == Entry(goal, k) then Entry(live, k)
            else Entry(goal, k)
  {
    hide Diff, Apply, MetaField;
    FieldAt(live, k); FieldAt(from, k); FieldAt(goal, k);
    PatchCases(live, from, goal, k);
  }

  lemma PatchCases(live: Meta, from: Meta, goal: Meta, k: string)
    ensures var out := ApplyField(MetaField(live), DiffField(MetaField(from), MetaField(goal)));
            var was, want, now := Get(FieldsOf(MetaField(from)), k), Get(FieldsOf(MetaField(goal)), k), Get(FieldsOf(MetaField(live)), k);
            Get(FieldsOf(out), k) ==
            if goal.entries == map[] && from.entries != map[] then None else if was == want then now else want
  {
    var a, b := MetaField(from), MetaField(goal);
    if b.Some? && a != b {
      if a.Some? {
        DiffAt(a.value.fields, b.value.fields, k);
        ApplyAt(MetaField(live), Diff(a, b.value).value.fields, k);
      } else {
        assert Diff(a, b.value) == Some(Whole(b.value));
        ApplyAt(MetaField(live), Whole(b.value).fields, k);
        if k in goal.entries { assert Whole(b.value.fields[k]) == Put(Leaf(goal.entries[k])); }
      }
    }
  }

  /** A metadata patch applied to the object it was computed from gives the goal. */
  lemma PatchedMetaExact(live: Meta, goal: Meta)
    ensures PatchedMeta(live, live, goal) == goal
  {
    hide PatchedMeta;
    forall k ensures Entry(PatchedMeta(live, live, goal), k) == Entry(goal, k) { PatchedMetaAt(live, live, goal, k); }
    SameMeta(PatchedMeta(live, live, goal), goal);
  }

  // ---- What others do to the Deployment ----

  function Bumped(d: Deployment, revision: string): Deployment {
    d.(annotations := Meta(d.annotations.entries[REVISION := revision]))
  }

  /** The Deployment controller stamps a revision; the API server or a webhook fills in pod fields the
      operator did not set. */
  predicate Step(a: Deployment, b: Deployment) {
    || (REVISION in b.annotations.entries && b == Bumped(a, b.annotations.entries[REVISION]))
    || (b == a.(pod := b.pod) && Covers(Obj(a.pod), Obj(b.pod)))
  }

  predicate Steps(run: seq<Deployment>) {
    forall i | 0 <= i < |run| - 1 :: Step(run[i], run[i + 1])
  }

  /** What any number of such steps can do. */
  predicate Evolves(a: Deployment, b: Deployment) {
    && b == a.(annotations := b.annotations, pod := b.pod)
    && Strip(b.annotations) == Strip(a.annotations)
    && (REVISION in a.annotations.entries ==> REVISION in b.annotations.entries)
    && Covers(Obj(a.pod), Obj(b.pod))
  }

  lemma EvolvesSelf(a: Deployment)
    ensures Evolves(a, a)
  {
    CoversSelf(Obj(a.pod));
  }

  lemma EvolvesChain(a: Deployment, b: Deployment, c: Deployment)
    requires Evolves(a, b) && Evolves(b, c)
    ensures Evolves(a, c)
  {
    hide Covers;
    CoversChain(Obj(a.pod), Obj(b.pod), Obj(c.pod));
  }

  lemma StepEvolves(a: Deployment, b: Deployment)
    requires Step(a, b)
    ensures Evolves(a, b)
  {
    CoversSelf(Obj(a.pod));
    assert Strip(b.annotations).entries == Strip(a.annotations).entries;
  }

  lemma {:induction false} RunEvolves(run: seq<Deployment>)
    requires run != [] && Steps(run)
    ensures Evolves(run[0], run[|run| - 1])
  {
    hide Evolves, Step;
    if |run| == 1 {
      EvolvesSelf(run[0]);
    } else {
      var init := run[..|run| - 1];
      forall i | 0 <= i < |init| - 1 ensures Step(init[i], init[i + 1]) { assert Step(run[i], run[i + 1]); }
      RunEvolves(init);
      StepEvolves(run[|run| - 2], run[|run| - 1]);
      EvolvesChain(run[0], run[|run| - 2], run[|run| - 1]);
    }
  }

  // ---- The revision survives a concurrent bump ----

  /** A patch computed from a snapshot and applied after the revision was bumped, or first stamped:
      the result is the desired annotations plus the live revision, unless the operator empties a
      non-empty annotation field that had no revision yet, which removes the new revision with it. */
  lemma PatchKeepsRevisionIff(existing: Meta, desired: Meta, revision: string)
    requires REVISION !in desired.entries
    ensures var live := Meta(existing.entries[REVISION := revision]);
            PatchedMeta(live, existing, Preserve(existing, desired)) == Meta(desired.entries[REVISION := revision])
            <==> !(desired.entries == map[] && existing.entries != map[] && REVISION !in existing.entries)
  {
    hide PatchedMeta;
    var live, goal := Meta(existing.entries[REVISION := revision]), Preserve(existing, desired);
    var out, want := PatchedMeta(live, existing, goal), Meta(desired.entries[REVISION := revision]);
    PatchedMetaAt(live, existing, goal, REVISION);
    if !(goal.entries == map[] && existing.entries != map[]) {
      forall k ensures Entry(out, k) == Entry(want, k) { PatchedMetaAt(live, existing, goal, k); }
      SameMeta(out, want);
    } else {
      assert Entry(out, REVISION) == None && Entry(want, REVISION) == Some(revision);
    }
  }

  /** Whatever happened to the revision in between, the patch leaves the desired annotations. */
  lemma PatchedAnnotations(existing: Meta, live: Meta, desired: Meta)
    requires REVISION !in desired.entries && Strip(live) == Strip(existing)
    ensures Strip(PatchedMeta(live, existing, Preserve(existing, desired))) == desired
  {
    hide PatchedMeta;
    var goal := Preserve(existing, desired);
    var out := PatchedMeta(live, existing, goal);
    forall k ensures Entry(Strip(out), k) == Entry(desired, k) {
      PatchedMetaAt(live, existing, goal, k);
      assert k != REVISION ==> Entry(Strip(live), k) == Entry(live, k) && Entry(Strip(existing), k) == Entry(existing, k);
    }
    SameMeta(Strip(out), desired);
  }

  // ---- No patch loop ----

  lemma EvolvedIsQuiet(a: Deployment, b: Deployment, desired: Deployment)
    requires !NeedsUpdate(a, desired) && Evolves(a, b)
    ensures !NeedsUpdate(b, desired)
  {
    hide Covers;
    CoversChain(Obj(desired.pod), Obj(a.pod), Obj(b.pod));
  }

  lemma PatchedIsQuiet(existing: Deployment, live: Deployment, desired: Deployment)
    requires REVISION !in desired.annotations.entries && desired.replicas.Some? && Evolves(existing, live)
    ensures !NeedsUpdate(Patched(live, existing, Modified(existing, desired)), desired)
  {
    hide Covers, PatchedMeta, Strip, Preserve;
    PatchedMetaExact(existing.labels, desired.labels);
    PatchedMetaExact(existing.podLabels, desired.podLabels);
    PatchedMetaExact(existing.podAnnotations, desired.podAnnotations);
    PatchedAnnotations(existing.annotations, live.annotations, desired.annotations);
    PatchCovers(Obj(existing.pod), Obj(live.pod), Obj(desired.pod));
    assert Covers(Obj(desired.pod), Obj(PatchedPod(live.pod, existing.pod, desired.pod))) by { PodStaysObject(live.pod, existing.pod, desired.pod); }
  }

  lemma PodStaysObject(live: Fields, from: Fields, goal: Fields)
    ensures ApplyField(Some(Obj(live)), Diff(Some(Obj(from)), Obj(goal))) == Some(Obj(PatchedPod(live, from, goal)))
  {
  }

  lemma RevisionAlwaysDrifts(existing: Deployment, desired: Deployment)
    requires REVISION in desired.annotations.entries
    ensures NeedsUpdate(existing, desired)
  {
    assert REVISION !in Strip(existing.annotations).entries;
  }

  /** After a create, or after a patch computed from `existing` and applied to whatever the live object
      had become, no run of revision bumps and defaulting makes the operator patch again, exactly when
      the desired annotations do not name the revision key; otherwise it patches on every reconcile. */
  lemma NoPatchLoopIff(desired: Deployment, existing: Option<Deployment>, meanwhile: seq<Deployment>, after: seq<Deployment>)
    requires desired.replicas.Some?
    requires existing.Some? ==> meanwhile != [] && Steps(meanwhile) && meanwhile[0] == existing.value
    requires after != [] && Steps(after)
    requires after[0] == if existing.None? then desired
                         else Patched(meanwhile[|meanwhile| - 1], existing.value, Modified(existing.value, desired))
    ensures !NeedsUpdate(after[|after| - 1], desired) <==> REVISION !in desired.annotations.entries
  {
    hide NeedsUpdate, Patched, Modified, Evolves, Steps;
    if REVISION in desired.annotations.entries {
      RevisionAlwaysDrifts(after[|after| - 1], desired);
    } else {
      if existing.Some? {
        RunEvolves(meanwhile);
        PatchedIsQuiet(existing.value, meanwhile[|meanwhile| - 1], desired);
      } else {
        FreshIsQuiet(desired);
      }
      RunEvolves(after);
      EvolvedIsQuiet(after[0], after[|after| - 1], desired);
    }
  }

  lemma FreshIsQuiet(desired: Deployment)
    requires REVISION !in desired.annotations.entries && desired.replicas.Some?
    ensures !NeedsUpdate(desired, desired)
  {
    CoversSelf(Obj(desired.pod));
    assert Strip(desired.annotations).entries == desired.annotations.entries;
  }

  // ---- Pod fields that are no longer desired ----

  /** What one undisturbed call leaves of an existing Deployment. */
  function Ensured(existing: Deployment, desired: Deployment): Deployment {
    if NeedsUpdate(existing, desired) then Patched(existing, existing, Modified(existing, desired)) else existing
  }

  /** A pod field that is no longer desired is never itself the reason for a patch: the comparison comes
      out as if the field were already gone. It is removed exactly when there is another reason, and then
      the pod spec is the desired one. */
  lemma DroppedFieldRemovedIff(existing: Deployment, desired: Deployment, k: string)
    requires k in existing.pod && k !in desired.pod
    ensures NeedsUpdate(existing, desired) <==> NeedsUpdate(existing.(pod := existing.pod - {k}), desired)
    ensures k !in Ensured(existing, desired).pod <==> NeedsUpdate(existing.(pod := existing.pod - {k}), desired)
    ensures NeedsUpdate(existing, desired) ==> Ensured(existing, desired).pod == desired.pod
  {
    hide Diff, PatchedMeta, Strip;
    if NeedsUpdate(existing, desired) {
      assert existing.pod != desired.pod;
      RoundTripFields(existing.pod, desired.pod);
    }
  }

  /** When it does patch, whatever happened since the read, no dropped field survives at any depth:
      a field of the result is desired, or was added after the read. */
  lemma PatchLeavesNoLeftovers(existing: Deployment, live: Deployment, desired: Deployment)
    requires Evolves(existing, live)
    ensures Prunes(Obj(desired.pod), Obj(existing.pod), Obj(Patched(live, existing, Modified(existing, desired)).pod))
  {
    hide Covers, Diff, PatchedMeta, Strip, Preserve, Prunes;
    PatchPrunes(Obj(existing.pod), Obj(live.pod), Obj(desired.pod));
    PodStaysObject(live.pod, existing.pod, desired.pod);
  }

  /** And without other drift the field stays for good: a Deployment that has one field more than desired
      keeps it through every run of revision bumps and defaulting, and the operator never patches. */
  lemma DroppedFieldStays(desired: Deployment, k: string, value: Json, run: seq<Deployment>)
    requires REVISION !in desired.annotations.entries && desired.replicas.Some? && k !in desired.pod
    requires run != [] && Steps(run) && run[0] == desired.(pod := desired.pod[k := value])
    ensures var last := run[|run| - 1]; k in last.pod && Covers(value, last.pod[k]) && !NeedsUpdate(last, desired)
  {
    hide Steps;
    CoversSelf(Obj(desired.pod));
    FreshIsQuiet(desired);
    RunEvolves(run);
    EvolvedIsQuiet(run[0], run[|run| - 1], desired);
  }

  /** What the operator builds, entry by entry: its own two labels always win; other labels and annotations
      are the user's, except that a non-empty block in the pod template replaces the user's block on the
      pod; the pod spec is taken as it is. */
  lemma DesiredMetadata(cluster: string, labels: Meta, annotations: Meta, podLabels: Meta, podAnnotations: Meta, pod: Fields, k: string)
    ensures var d := Desired(cluster, labels, annotations, podLabels, podAnnotations, pod);
            var own := k == CLUSTER_LABEL || k == COMPONENT_LABEL;
            && d.replicas == Some(1) && d.pod == pod
            && (k == CLUSTER_LABEL ==> Entry(d.labels, k) == Some(cluster) && Entry(d.podLabels, k) == Some(cluster))
            && (k == COMPONENT_LABEL ==> Entry(d.labels, k) == Some("robin") && Entry(d.podLabels, k) == Some("robin"))
            && (!own ==> Entry(d.labels, k) == Entry(labels, k))
            && (!own ==> Entry(d.podLabels, k) == Entry(if podLabels.entries == map[] then labels else podLabels, k))
            && Entry(d.annotations, k) == Entry(annotations, k)
            && Entry(d.podAnnotations, k) == Entry(if podAnnotations.entries == map[] then annotations else podAnnotations, k)
  {
    hide MergeMeta, Own;
    OwnLabels(cluster, k);
    var base, none := Own(cluster), Meta(map[]);
    MergedEntry(labels, none, base, k);
    MergedEntry(annotations, none, none, k);
    MergedEntry(labels, podLabels, base, k);
    MergedEntry(annotations, podAnnotations, none, k);
  }

  lemma OwnLabels(cluster: string, k: string)
    ensures Entry(Own(cluster), k) ==
            if k == COMPONENT_LABEL then Some("robin") else if k == CLUSTER_LABEL then Some(cluster) else None
    ensures CLUSTER_LABEL != COMPONENT_LABEL
  {
    assert CLUSTER_LABEL[20] != COMPONENT_LABEL[20];
  }

  // ---- What counts as drift ----

  lemma DiffersAt(a: Meta, b: Meta)
    ensures a != b <==> exists k: string :: Entry(a, k) != Entry(b, k)
  {
    if forall k: string :: Entry(a, k) == Entry(b, k) { SameMeta(a, b); }
  }

  /** Every kind of drift alone forces a patch, and nothing else does: another replica count; a label, a pod
      label or a pod annotation that is missing, extra or different; such an annotation other than the
      revision; a desired revision; or a place in the pod spec where something desired is missing or different. */
  lemma NeedsUpdateIff(existing: Deployment, desired: Deployment)
    requires desired.replicas.Some?
    ensures NeedsUpdate(existing, desired) <==>
            || existing.replicas != desired.replicas
            || (exists k: string :: Entry(existing.labels, k) != Entry(desired.labels, k))
            || (exists k: string :: k != REVISION && Entry(existing.annotations, k) != Entry(desired.annotations, k))
            || REVISION in desired.annotations.entries
            || (exists k: string :: Entry(existing.podLabels, k) != Entry(desired.podLabels, k))
            || (exists k: string :: Entry(existing.podAnnotations, k) != Entry(desired.podAnnotations, k))
            || (exists path: seq<MergePatch.Step> :: Misses(Obj(desired.pod), Obj(existing.pod), path))
  {
    hide Covers, Misses;
    DiffersAt(existing.labels, desired.labels);
    DiffersAt(existing.podLabels, desired.podLabels);
    DiffersAt(existing.podAnnotations, desired.podAnnotations);
    AnnotationsDiffer(existing.annotations, desired.annotations);
    NotCoveredIff(Obj(desired.pod), Obj(existing.pod));
  }

  lemma AnnotationsDiffer(existing: Meta, desired: Meta)
    ensures Strip(existing) != desired <==>
            || REVISION in desired.entries
            || exists k: string :: k != REVISION && Entry(existing, k) != Entry(desired, k)
  {
    DiffersAt(Strip(existing), desired);
    forall k: string ensures Entry(Strip(existing), k) == if k == REVISION then None else Entry(existing, k) {
    }
    if k: string :| k != REVISION && Entry(existing, k) != Entry(desired, k) {
      assert Entry(Strip(existing), k) != Entry(desired, k);
    }
    if REVISION in desired.entries { assert Entry(Strip(existing), REVISION) != Entry(desired, REVISION); }
  }

  // ---- ensureRobinDeployment ----

  /** A Deployment that needs no update is the desired one, apart from the revision and pod fields that are
      not set. */
  lemma QuietMatches(d: Deployment, desired: Deployment)
    requires desired.replicas.Some? && !NeedsUpdate(d, desired)
    ensures d.replicas == desired.replicas && d.labels == desired.labels
    ensures d.podLabels == desired.podLabels && d.podAnnotations == desired.podAnnotations
    ensures forall k: string | k != REVISION :: Entry(d.annotations, k) == Entry(desired.annotations, k)
    ensures Covers(Obj(desired.pod), Obj(d.pod))
  {
    AnnotationsDiffer(d.annotations, desired.annotations);
  }

  class Keeper {
    var stored: Option<Deployment>
    var creates: nat
    var patches: nat

    constructor (initial: Option<Deployment>)
      ensures stored == initial && creates == patches == 0
    {
      stored, creates, patches := initial, 0, 0;
    }

    /** Revision bumps and defaulting, any number of them. */
    method Interfere()
      modifies this`stored
      ensures stored.Some? == old(stored).Some?
      ensures stored.Some? ==> Evolves(old(stored).value, stored.value)
    {
      hide Evolves, Covers;
      if stored.Some? {
        EvolvesSelf(stored.value);
        var n: nat := *;
        while n > 0
          invariant stored.Some? && Evolves(old(stored).value, stored.value)
        {
          var live := stored.value;
          var bump: bool := *;
          var revision: string, pod: Fields := *, *;
          if bump {
            stored := Some(Bumped(live, revision));
            StepEvolves(live, stored.value);
            EvolvesChain(old(stored).value, live, stored.value);
          } else if Covers(Obj(live.pod), Obj(pod)) {
            stored := Some(live.(pod := pod));
            StepEvolves(live, stored.value);
            EvolvesChain(old(stored).value, live, stored.value);
          }
          n := n - 1;
        }
      }
    }

    /** Create when missing, patch on drift; a write that reports an error may have landed all the same.
        Others may act before the read, between the read and the patch, and after the write. */
    method Ensure(desired: Deployment) returns (ok: bool)
      requires desired.replicas.Some?
      modifies this
      ensures old(stored).Some? || ok ==> stored.Some?
      ensures ok && REVISION !in desired.annotations.entries ==>
                && !NeedsUpdate(stored.value, desired)
                && stored.value.replicas == desired.replicas && stored.value.labels == desired.labels
                && stored.value.podLabels == desired.podLabels && stored.value.podAnnotations == desired.podAnnotations
                && (forall k: string | k != REVISION :: Entry(stored.value.annotations, k) == Entry(desired.annotations, k))
                && Covers(Obj(desired.pod), Obj(stored.value.pod))
      ensures old(creates + patches) <= creates + patches <= old(creates + patches) + 1
      ensures !ok ==> creates == old(creates) && patches == old(patches)
      ensures ok && REVISION in desired.annotations.entries ==> creates + patches == old(creates + patches) + 1
      ensures old(stored).Some? && !NeedsUpdate(old(stored).value, desired) ==>
                creates == old(creates) && patches == old(patches) && !NeedsUpdate(stored.value, desired)
    {
      hide Evolves, NeedsUpdate, Patched, Modified;
      QuietInterfere(desired);
      var existing := stored;
      var fault: bool, landed: bool := *, *;
      if existing.None? {
        if !fault || landed { stored := Some(desired); }
        if fault { return false; }
        creates := creates + 1;
        if REVISION !in desired.annotations.entries { FreshIsQuiet(desired); }
        QuietInterfere(desired);
        if REVISION !in desired.annotations.entries { QuietMatches(stored.value, desired); }
        return true;
      }
      if REVISION in desired.annotations.entries { RevisionAlwaysDrifts(existing.value, desired); }
      if NeedsUpdate(existing.value, desired) {
        Interfere();
        ghost var live := stored.value;
        if !fault || landed { stored := Some(Patched(stored.value, existing.value, Modified(existing.value, desired))); }
        if fault { return false; }
        patches := patches + 1;
        if REVISION !in desired.annotations.entries { PatchedIsQuiet(existing.value, live, desired); }
      }
      QuietInterfere(desired);
      ok := true;
      if REVISION !in desired.annotations.entries { QuietMatches(stored.value, desired); }
    }

    /** Interference never turns a matching Deployment into a drifted one. */
    method QuietInterfere(desired: Deployment)
      modifies this`stored
      ensures stored.Some? == old(stored).Some?
      ensures stored.Some? && !NeedsUpdate(old(stored).value, desired) ==> !NeedsUpdate(stored.value, desired)
    {
      hide Evolves, NeedsUpdate;
      Interfere();
      if stored.Some? && !NeedsUpdate(old(stored).value, desired) { EvolvedIsQuiet(old(stored).value, stored.value, desired); }
    }

    /** Any number of reconciles with the same desired Deployment: at most one of them counts a write, unless
        the desired annotations name the revision key, when every one that succeeds does. */
    method EnsureRepeatedly(desired: Deployment, n: nat) returns (succeeded: nat)
      requires desired.replicas.Some?
      modifies this
      ensures REVISION !in desired.annotations.entries ==> creates + patches <= old(creates + patches) + 1
      ensures REVISION in desired.annotations.entries ==> creates + patches >= old(creates + patches) + succeeded
    {
      hide NeedsUpdate;
      succeeded := 0;
      for i := 0 to n
        invariant creates + patches >= old(creates + patches)
        invariant REVISION !in desired.annotations.entries ==>
                    || creates + patches == old(creates + patches)
                    || (creates + patches == old(creates + patches) + 1 && stored.Some? && !NeedsUpdate(stored.value, desired))
        invariant REVISION in desired.annotations.entries ==> creates + patches >= old(creates + patches) + succeeded
      {
        var ok := Ensure(desired);
        if ok { succeeded := succeeded + 1; }
      }
    }
  }
}
