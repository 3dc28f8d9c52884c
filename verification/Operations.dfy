/** The operation tracker: an online state machine over status observations of many clusters, next to
    the declarative reading of the status history it refines. */
module Operations {
  import opened Types

  datatype Key = Key(namespace: string, name: string)

  /** The calls the tracker receives; `now` is the clock reading of the call. */
  datatype Event =
    | Observed(key: Key, status: ClusterStatus, phase: Phase, now: int)
    | Forgotten(key: Key)

  datatype Result = Succeeded | Failed | Superseded

  /** One duration sample together with the counter increment it goes with. */
  datatype Ending = Ending(operation: string, seconds: int, result: Result)

  // ---- The declarative reading ----

  /** The events of one key, in order. */
  function View(log: seq<Event>, key: Key): (v: seq<Event>)
    ensures forall i | 0 <= i < |v| :: v[i].key == key
  {
    if log == [] then []
    else
      var rest := View(log[..|log| - 1], key);
      if log[|log| - 1].key == key then rest + [log[|log| - 1]] else rest
  }

  predicate Running(e: Event) {
    e.Observed? && e.status.Operation?
  }

  /** Both report the same non-terminal status. */
  predicate SameOperation(a: Event, b: Event) {
    Running(a) && Running(b) && a.status == b.status
  }

  /** v[i..j] is a maximal block of equal non-terminal status that v[j] ends. */
  predicate Block(v: seq<Event>, i: nat, j: nat) {
    && i < j < |v|
    && Running(v[i])
    && (forall k | i <= k < j :: SameOperation(v[i], v[k]))
    && (i > 0 ==> !SameOperation(v[i - 1], v[i]))
    && !SameOperation(v[i], v[j])
  }

  function ResultOf(e: Event): Result
    requires e.Observed?
  {
    if Running(e) then Superseded
    else if e.phase.PhaseError? || e.status.ClusterStatusError? then Failed
    else Succeeded
  }

  /** Where the block that a running last event belongs to begins. */
  function BlockStart(v: seq<Event>): (i: nat)
    requires v != [] && Running(v[|v| - 1])
    ensures i < |v|
    ensures forall k | i <= k < |v| :: SameOperation(v[i], v[k])
    ensures i > 0 ==> !SameOperation(v[i - 1], v[i])
  {
    if |v| > 1 && SameOperation(v[|v| - 2], v[|v| - 1]) then BlockStart(v[..|v| - 1]) else |v| - 1
  }

  predicate Open(v: seq<Event>) {
    v != [] && Running(v[|v| - 1])
  }

  /** What event e adds when it follows the events v of its key. */
  function EndingOf(v: seq<Event>, e: Event): Option<Ending> {
    if Open(v) && e.Observed? && !SameOperation(v[|v| - 1], e)
    then Some(Ending(v[|v| - 1].status.name, e.now - v[BlockStart(v)].now, ResultOf(e)))
    else None
  }

  /** All samples of a log, in order. */
  function Endings(log: seq<Event>): seq<Ending> {
    if log == [] then []
    else
      var init, e := log[..|log| - 1], log[|log| - 1];
      var ending := EndingOf(View(init, e.key), e);
      Endings(init) + if ending.Some? then [ending.value] else []
  }

  /** Observation e ends the block that began at v[i], which `ending` describes: superseded when e reports
      another operation, an error when e is terminal with an Error phase or status, a success otherwise. */
  predicate Ends(v: seq<Event>, e: Event, i: nat, ending: Ending) {
    && e.Observed? && Block(v + [e], i, |v|)
    && ending.operation == v[i].status.name && ending.seconds == e.now - v[i].now
    && (ending.result.Superseded? <==> e.status.Operation?)
    && (ending.result.Failed? <==> !e.status.Operation? && (e.phase.PhaseError? || e.status.ClusterStatusError?))
    && (ending.result.Succeeded? <==> !e.status.Operation? && !e.phase.PhaseError? && !e.status.ClusterStatusError?)
  }

  /** A sample is recorded exactly when an observation ends a maximal block of equal non-terminal
      status of its key; it names that status, and its duration runs from the block's first
      observation to the one that ended it. */
  lemma EndingIffBlock(v: seq<Event>, e: Event, ending: Ending)
    ensures EndingOf(v, e) == Some(ending) <==>
            exists i: nat :: Ends(v, e, i, ending)
  {
    if EndingOf(v, e) == Some(ending) {
      assert Ends(v, e, BlockStart(v), ending);
    }
    if exists i: nat :: Ends(v, e, i, ending) {
      var i: nat :| Ends(v, e, i, ending);
      forall k | i <= k < |v| ensures SameOperation(v[i], v[k]) { assert SameOperation((v + [e])[i], (v + [e])[k]); }
      StartIsUnique(v, i);
    }
  }

  /** The block an event ends begins at one place only. */
  lemma {:induction false} StartIsUnique(v: seq<Event>, i: nat)
    requires i < |v| && Running(v[i]) && (i > 0 ==> !SameOperation(v[i - 1], v[i]))
    requires forall k | i <= k < |v| :: SameOperation(v[i], v[k])
    ensures Open(v) && BlockStart(v) == i
  {
    assert SameOperation(v[i], v[|v| - 1]);
    if i < |v| - 1 {
      assert SameOperation(v[i], v[|v| - 2]);
      StartIsUnique(v[..|v| - 1], i);
    }
  }

  // ---- Conservation ----

  /** The keys with an operation in flight. */
  function InFlight(log: seq<Event>): (s: set<Key>)
    ensures forall k :: k in s <==> Open(View(log, k))
  {
    if log == [] then {}
    else
      var e := log[|log| - 1];
      var rest := InFlight(log[..|log| - 1]) - {e.key};
      if Running(e) then rest + {e.key} else rest
  }

  /** Blocks begun: events that report an operation their key was not already running. */
  function Started(log: seq<Event>): nat {
    if log == [] then 0
    else
      var init, e := log[..|log| - 1], log[|log| - 1];
      var v := View(init, e.key);
      Started(init) + if Running(e) && !(v != [] && SameOperation(v[|v| - 1], e)) then 1 else 0
  }

  /** Operations dropped because their cluster went away. */
  function Dropped(log: seq<Event>): nat {
    if log == [] then 0
    else
      var init, e := log[..|log| - 1], log[|log| - 1];
      Dropped(init) + if e.Forgotten? && Open(View(init, e.key)) then 1 else 0
  }

  function CountResult(endings: seq<Ending>, result: Result): nat {
    if endings == [] then 0
    else CountResult(endings[..|endings| - 1], result) + if endings[|endings| - 1].result == result then 1 else 0
  }

  lemma CountAppend(endings: seq<Ending>, e: Ending, result: Result)
    ensures CountResult(endings + [e], result) == CountResult(endings, result) + if e.result == result then 1 else 0
  {
    assert (endings + [e])[..|endings|] == endings;
  }

  /** Every operation that started was recorded as a success, an error or superseded, was dropped with
      its cluster, or is still in flight. */
  lemma {:induction false} Conservation(log: seq<Event>)
    ensures Started(log) == Recorded(Endings(log)) + Dropped(log) + |InFlight(log)|
  {
    hide InFlight, Recorded, View;
    if log != [] {
      var init, e := log[..|log| - 1], log[|log| - 1];
      Conservation(init);
      InFlightStep(log);
      var ending := EndingOf(View(init, e.key), e);
      if ending.Some? { RecordedAppend(Endings(init), ending.value); } else { assert Endings(log) == Endings(init); }
    } else {
      assert |InFlight(log)| == 0 && Recorded(Endings(log)) == 0 by { RecordedNone(); }
    }
  }

  function Recorded(endings: seq<Ending>): nat {
    CountResult(endings, Succeeded) + CountResult(endings, Failed) + CountResult(endings, Superseded)
  }

  lemma RecordedNone()
    ensures Recorded([]) == 0 && |InFlight([])| == 0
  {
  }

  lemma RecordedAppend(endings: seq<Ending>, e: Ending)
    ensures Recorded(endings + [e]) == Recorded(endings) + 1
  {
    hide CountResult;
    CountAppend(endings, e, Succeeded);
    CountAppend(endings, e, Failed);
    CountAppend(endings, e, Superseded);
  }

  lemma InFlightStep(log: seq<Event>)
    requires log != []
    ensures var init, e := log[..|log| - 1], log[|log| - 1];
            |InFlight(log)| == |InFlight(init)| + (if Running(e) then 1 else 0) - (if Open(View(init, e.key)) then 1 else 0)
  {
    hide View;
    var init, e := log[..|log| - 1], log[|log| - 1];
    var rest := InFlight(init) - {e.key};
    assert e.key in InFlight(init) <==> Open(View(init, e.key));
    if e.key in InFlight(init) { assert InFlight(init) == rest + {e.key}; } else { assert rest == InFlight(init); }
  }

  // ---- The tracker ----

  datatype Active = Active(operation: string, startedAt: int)

  /** What the tracker holds for a key. */
  predicate Tracks(active: map<Key, Active>, log: seq<Event>, key: Key) {
    var v := View(log, key);
    if Open(v) then key in active && active[key] == Active(v[|v| - 1].status.name, v[BlockStart(v)].now)
    else key !in active
  }

  /** Appending an event leaves every other key's reading alone. */
  lemma OthersUntouched(log: seq<Event>, e: Event, key: Key)
    ensures View(log + [e], key) == if e.key == key then View(log, key) + [e] else View(log, key)
  {
    assert (log + [e])[..|log|] == log;
  }

  lemma EndingsAppend(log: seq<Event>, e: Event)
    ensures var x := EndingOf(View(log, e.key), e);
            Endings(log + [e]) == if x.Some? then Endings(log) + [x.value] else Endings(log)
  {
    assert (log + [e])[..|log|] == log;
  }

  /** How an event moves the open block of its key. */
  lemma TracksAfter(log: seq<Event>, e: Event)
    ensures var v, w := View(log, e.key), View(log, e.key) + [e];
            && Open(w) == Running(e)
            && (Running(e) && Open(v) && SameOperation(v[|v| - 1], e) ==> BlockStart(w) == BlockStart(v))
            && (Running(e) && !(Open(v) && SameOperation(v[|v| - 1], e)) ==> BlockStart(w) == |v|)
  {
    var v := View(log, e.key);
    assert (v + [e])[..|v|] == v;
  }

  /** The histogram's observations. */
  function Samples(endings: seq<Ending>): seq<(string, int)> {
    seq(|endings|, i requires 0 <= i < |endings| => (endings[i].operation, endings[i].seconds))
  }

  /** The counter's value for one pair of labels. */
  function Tally(endings: seq<Ending>, operation: string, result: Result): nat {
    if endings == [] then 0
    else
      var e := endings[|endings| - 1];
      Tally(endings[..|endings| - 1], operation, result) + if e.operation == operation && e.result == result then 1 else 0
  }

  function Total(totals: map<(string, Result), nat>, operation: string, result: Result): nat {
    if (operation, result) in totals then totals[(operation, result)] else 0
  }

  ghost predicate Counts(totals: map<(string, Result), nat>, endings: seq<Ending>) {
    forall op: string, r: Result :: Total(totals, op, r) == Tally(endings, op, r)
  }

  lemma CountOne(totals: map<(string, Result), nat>, endings: seq<Ending>, e: Ending)
    requires Counts(totals, endings)
    ensures Counts(totals[(e.operation, e.result) := Total(totals, e.operation, e.result) + 1], endings + [e])
    ensures Samples(endings + [e]) == Samples(endings) + [(e.operation, e.seconds)]
  {
    var totals' := totals[(e.operation, e.result) := Total(totals, e.operation, e.result) + 1];
    assert (endings + [e])[..|endings|] == endings;
    forall op: string, r: Result ensures Total(totals', op, r) == Tally(endings + [e], op, r) {
      assert Total(totals, op, r) == Tally(endings, op, r);
    }
  }

  class OpTracker {
    var active: map<Key, Active>
    var durations: seq<(string, int)>
    var totals: map<(string, Result), nat>
    ghost var log: seq<Event>

    /** The samples and the counters are those of the ended blocks, and each key's entry is its open
        block. */
    ghost predicate Valid()
      reads this
    {
      && durations == Samples(Endings(log))
      && Counts(totals, Endings(log))
      && (forall key: Key :: Tracks(active, log, key))
    }

    constructor ()
      ensures Valid() && log == []
    {
      active, durations, totals, log := map[], [], map[], [];
    }

    method Complete(op: Active, result: Result, now: int)
      modifies this`durations, this`totals
      ensures durations == old(durations) + [(op.operation, now - op.startedAt)]
      ensures totals == old(totals)[(op.operation, result) := Total(old(totals), op.operation, result) + 1]
    {
      durations := durations + [(op.operation, now - op.startedAt)];
      totals := totals[(op.operation, result) := Total(totals, op.operation, result) + 1];
    }

    method Observe(key: Key, status: ClusterStatus, phase: Phase, now: int)
      requires Valid()
      modifies this
      ensures Valid() && log == old(log) + [Observed(key, status, phase, now)]
      ensures var done := key in old(active) && status != Operation(old(active)[key].operation);
              && durations == old(durations) + (if done then [(old(active)[key].operation, now - old(active)[key].startedAt)] else [])
              && forall op: string, r: Result ::
                   Total(totals, op, r) == Total(old(totals), op, r) +
                     if done && op == old(active)[key].operation
                        && (match r
                            case Superseded => status.Operation?
                            case Failed => !status.Operation? && (phase.PhaseError? || status.ClusterStatusError?)
                            case Succeeded => !status.Operation? && !phase.PhaseError? && !status.ClusterStatusError?)
                     then 1 else 0
      ensures active == if !status.Operation? then old(active) - {key}
                        else if key in old(active) && old(active)[key].operation == status.name then old(active)
                        else old(active)[key := Active(status.name, now)]
    {
      hide View, Endings, BlockStart, Counts, Samples;
      ghost var e := Observed(key, status, phase, now);
      ghost var v := View(log, key);
      TracksAfter(log, e);
      assert Tracks(active, log, key);
      EndingsAppend(log, e);
      forall k: Key ensures View(log + [e], k) == if e.key == k then v + [e] else View(log, k) { OthersUntouched(log, e, k); }
      ghost var ending := EndingOf(v, e);
      if ending.Some? { CountOne(totals, Endings(log), ending.value); }
      if status.Operation? {
        if key !in active {
          active := active[key := Active(status.name, now)];
        } else if active[key].operation != status.name {
          Complete(active[key], Superseded, now);
          active := active[key := Active(status.name, now)];
        }
      } else if key in active {
        var result := if phase.PhaseError? || status.ClusterStatusError? then Failed else Succeeded;
        Complete(active[key], result, now);
        active := active - {key};
      }
      log := log + [e];
      forall k: Key ensures Tracks(active, log, k) { assert Tracks(old(active), old(log), k); }
    }

    method Forget(key: Key)
      requires Valid()
      modifies this
      ensures Valid() && log == old(log) + [Forgotten(key)]
      ensures active == old(active) - {key} && durations == old(durations) && totals == old(totals)
    {
      hide View, Endings, BlockStart, Counts, Samples;
      ghost var e := Forgotten(key);
      EndingsAppend(log, e);
      forall k: Key ensures View(log + [e], k) == if e.key == k then View(log, k) + [e] else View(log, k) { OthersUntouched(log, e, k); }
      active := active - {key};
      log := log + [e];
      forall k: Key ensures Tracks(active, log, k) { assert Tracks(old(active), old(log), k); }
    }
  }
}
