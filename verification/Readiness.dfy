/** The readiness tracker and the time-to-ready histogram it gates. */
module Readiness {
  import opened Types
  import opened Operations

  /** The calls the tracker receives. */
  datatype Call = Entered(key: Key, phase: Phase) | Dropped(key: Key)

  /** The phases of one key since it was last dropped. */
  function Phases(calls: seq<Call>, key: Key): seq<Phase> {
    if calls == [] then []
    else
      var rest, c := Phases(calls[..|calls| - 1], key), calls[|calls| - 1];
      if c.key != key then rest else if c.Dropped? then [] else rest + [c.phase]
  }

  /** The phase goes from something else, or from nothing, to Ready. */
  predicate Rises(phases: seq<Phase>, phase: Phase) {
    phase.PhaseReady? && (phases == [] || !phases[|phases| - 1].PhaseReady?)
  }

  predicate Remembers(lastPhase: map<Key, Phase>, calls: seq<Call>, key: Key) {
    var phases := Phases(calls, key);
    if phases == [] then key !in lastPhase else key in lastPhase && lastPhase[key] == phases[|phases| - 1]
  }

  lemma PhasesAppend(calls: seq<Call>, c: Call, key: Key)
    ensures Phases(calls + [c], key) ==
            if c.key != key then Phases(calls, key) else if c.Dropped? then [] else Phases(calls, key) + [c.phase]
  {
    assert (calls + [c])[..|calls|] == calls;
  }

  class ReadyTracker {
    var lastPhase: map<Key, Phase>
    ghost var calls: seq<Call>

    ghost predicate Valid()
      reads this
    {
      forall key: Key :: Remembers(lastPhase, calls, key)
    }

    constructor ()
      ensures Valid() && calls == []
    {
      lastPhase, calls := map[], [];
    }

    method EnteredReady(key: Key, phase: Phase) returns (entered: bool)
      requires Valid()
      modifies this
      ensures Valid() && calls == old(calls) + [Entered(key, phase)]
      ensures entered <==> Rises(Phases(old(calls), key), phase)
      ensures entered <==> phase == PhaseReady && !(key in old(lastPhase) && old(lastPhase)[key] == PhaseReady)
      ensures lastPhase == old(lastPhase)[key := phase]
    {
      hide Phases;
      assert Remembers(lastPhase, calls, key);
      ghost var c := Entered(key, phase);
      forall k: Key ensures Phases(calls + [c], k) == if k != key then Phases(calls, k) else Phases(calls, k) + [phase] {
        PhasesAppend(calls, c, k);
      }
      var previous := if key in lastPhase then lastPhase[key] else PhaseUnset;
      lastPhase := lastPhase[key := phase];
      entered := phase.PhaseReady? && !previous.PhaseReady?;
      calls := calls + [c];
      forall k: Key ensures Remembers(lastPhase, calls, k) { assert Remembers(old(lastPhase), old(calls), k); }
    }

    method Forget(key: Key)
      requires Valid()
      modifies this
      ensures Valid() && calls == old(calls) + [Dropped(key)] && lastPhase == old(lastPhase) - {key}
    {
      hide Phases;
      ghost var c := Dropped(key);
      forall k: Key ensures Phases(calls + [c], k) == if k != key then Phases(calls, k) else [] { PhasesAppend(calls, c, k); }
      lastPhase := lastPhase - {key};
      calls := calls + [c];
      forall k: Key ensures Remembers(lastPhase, calls, k) { assert Remembers(old(lastPhase), old(calls), k); }
    }
  }
}
