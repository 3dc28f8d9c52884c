/** The validation rules on Redkey objects: the CEL rules of the spec, the immutability rules of its
    fields, and the two root rules that lock the topology of a storage cluster scaled to zero. */
module Admission {
  import opened Types

  const MAX_INT32: int := 0x7FFF_FFFF
  const MAX_RECORD: int := 100000

  /** Rules that look at the new spec alone. */
  predicate StaticRules(s: Spec) {
    && 0 <= s.primaries <= MAX_INT32
    && -MAX_INT32 - 1 <= s.replicas <= MAX_INT32
    && (s.ephemeral || s.storage.Some?)
    && !(s.ephemeral && s.storage.Some?)
    && !(!s.ephemeral && s.purge)
    && (s.mode.ModeStandalone? ==> s.primaries <= 1)
    && (s.mode.ModeStandalone? ==> s.replicas == 0)
  }

  /** Rules that compare with the old spec. The storage rule is evaluated only when both specs carry
      the optional field. */
  predicate TransitionRules(old': Spec, new': Spec) {
    && new'.mode == old'.mode
    && new'.ephemeral == old'.ephemeral
    && (old'.storage.Some? && new'.storage.Some? ==> new'.storage == old'.storage)
    && new'.storageClass == old'.storageClass
    && new'.accessModes == old'.accessModes
  }

  /** An omitempty integer field is absent from the JSON object exactly when it is zero. */
  function Omitempty(n: int): Option<int> {
    if n == 0 then None else Some(n)
  }

  /** Whether the object has a status at all. */
  predicate Written(status: Status) {
    !status.phase.PhaseUnset?
  }

  /** Reading through an absent status is an evaluation error, which rejects the update unless an
      alternative that does not look at the status is true. */
  predicate LockPrimaries(old': Redkey, new': Redkey) {
    var has := Omitempty(new'.status.lastPrimaries);
    || new'.spec.ephemeral
    || old'.spec.primaries != 0
    || new'.spec.primaries == 0
    || (Written(new'.status) && (has.None? || new'.spec.primaries == has.value))
  }

  predicate LockReplicas(old': Redkey, new': Redkey) {
    var has := Omitempty(new'.status.lastReplicas);
    || new'.spec.ephemeral
    || old'.spec.primaries != 0
    || new'.spec.primaries == 0
    || (Written(new'.status)
        && (Omitempty(new'.status.lastPrimaries).None? || new'.spec.replicas == (if has.Some? then has.value else 0)))
  }

  predicate LockRules(old': Redkey, new': Redkey) {
    LockPrimaries(old', new') && LockReplicas(old', new')
  }

  /** A spec update keeps the stored status and is judged against it. */
  predicate SpecUpdateAdmitted(old': Redkey, spec: Spec) {
    && StaticRules(spec)
    && TransitionRules(old'.spec, spec)
    && LockRules(old', old'.(spec := spec))
  }

  /** The schema bounds of the two recorded fields. */
  predicate StatusFits(status: Status) {
    0 <= status.lastPrimaries <= MAX_RECORD && 0 <= status.lastReplicas <= MAX_RECORD
  }

  predicate StatusUpdateAdmitted(old': Redkey, status: Status) {
    StatusFits(status) && LockRules(old', old'.(status := status))
  }

  /** The has()/omitempty reading of the lock is the plain one: a scale-up of a storage cluster from zero
      needs a status, and if that status has a non-zero record, exactly the recorded pair. */
  lemma LockIsPlainComparison(old': Redkey, new': Redkey)
    ensures LockRules(old', new') <==>
            (!new'.spec.ephemeral && old'.spec.primaries == 0 && new'.spec.primaries != 0 ==>
               && Written(new'.status)
               && (new'.status.lastPrimaries != 0 ==> (new'.spec.primaries, new'.spec.replicas) == Record(new'.status)))
  {
  }

  /** Status writes leave the spec alone, so the lock rules never reject one: only the bounds can. */
  lemma StatusWriteRejectedOnlyByBounds(old': Redkey, status: Status)
    ensures StatusUpdateAdmitted(old', status) <==> StatusFits(status)
    ensures StatusUpdateAdmitted(old', status) <==> 0 <= status.lastPrimaries <= 100000 && 0 <= status.lastReplicas <= 100000
  {
    LockIsPlainComparison(old', old'.(status := status));
  }

  /** What admission fixes for the life of a Redkey. */
  predicate SameKind(a: Spec, b: Spec) {
    && a.mode == b.mode && a.ephemeral == b.ephemeral && a.storage == b.storage
    && a.storageClass == b.storageClass && a.accessModes == b.accessModes
  }

  lemma AdmittedKeepsKind(old': Redkey, spec: Spec)
    requires StaticRules(old'.spec) && SpecUpdateAdmitted(old', spec)
    ensures SameKind(old'.spec, spec)
  {
  }

  /** Which specs may be created: storage exactly when not ephemeral, and the limits below. */
  lemma CreatableIff(spec: Spec)
    ensures StaticRules(spec) <==>
            && (spec.storage.Some? <==> !spec.ephemeral) && (spec.purge ==> spec.ephemeral)
            && 0 <= spec.primaries < 0x8000_0000 && -0x8000_0000 <= spec.replicas < 0x8000_0000
            && (spec.mode == ModeStandalone ==> spec.primaries <= 1 && spec.replicas == 0)
  {
  }

  /** Which updates of an admitted object are admitted. Mode, ephemeral flag and all storage fields stay,
      the optional storage field too, although its own rule is skipped when it is absent: the other rules
      tie its presence to the ephemeral flag. Only an ephemeral cluster may purge keys, and a standalone
      one has at most one primary and no replicas. A storage cluster leaves zero only with a status and,
      if that has a record, with the recorded pair. */
  lemma AdmittedIff(old': Redkey, spec: Spec)
    requires StaticRules(old'.spec)
    ensures SpecUpdateAdmitted(old', spec) <==>
            && spec.mode == old'.spec.mode && spec.ephemeral == old'.spec.ephemeral && spec.storage == old'.spec.storage
            && spec.storageClass == old'.spec.storageClass && spec.accessModes == old'.spec.accessModes
            && (spec.purge ==> spec.ephemeral)
            && 0 <= spec.primaries < 0x8000_0000 && -0x8000_0000 <= spec.replicas < 0x8000_0000
            && (spec.mode == ModeStandalone ==> spec.primaries <= 1 && spec.replicas == 0)
            && (!spec.ephemeral && old'.spec.primaries == 0 && spec.primaries != 0 ==>
                  && !old'.status.phase.PhaseUnset?
                  && (old'.status.lastPrimaries != 0 ==>
                        spec.primaries == old'.status.lastPrimaries && spec.replicas == old'.status.lastReplicas))
  {
  }
}
