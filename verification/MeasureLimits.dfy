/** Exactly when the convergence measure can still rise without a user update: a zero version that the
    operator may yet read takes a non-empty store down, whatever the live spec is. */
module MeasureLimits {
  import opened Protocol
  import opened Safety
  import opened CalmRuns
  import opened Convergence
  import opened ScaleToZero

  /** A teardown under a zero snapshot, however old, empties the store. */
  lemma {:induction false} WipeOut(s: State) returns (labels: seq<Label>)
    requires Inv(s) && (s.pc.Tearing? || s.pc.WipeListing? || s.pc.Wiping? || s.pc.Zeroing?)
    ensures CanRun(s, labels) && Held(labels) && After(s, labels).configs == map[]
    decreases Rank(s)
  {
    hide Inv, CanRun, After, Rank, Do, Enabled, Calm;
    if s.pc.Zeroing? {
      labels := [];
      NoSteps(s);
      ZeroingIsEmpty(s);
    } else {
      var l := Progress(s);
      StepKeeps(s, l);
      OneStep(s, l);
      WipeOutStep(s, l);
      var rest := WipeOut(Do(s, l));
      RunConcat(s, [l], rest);
      labels := [l] + rest;
    }
  }

  lemma ZeroingIsEmpty(s: State)
    requires Inv(s) && s.pc.Zeroing?
    ensures s.configs == map[]
  {
  }

  lemma WipeOutStep(s: State, l: Label)
    requires s.pc.Tearing? || s.pc.WipeListing? || s.pc.Wiping?
    requires Enabled(s, l) && Calm(s, l)
    ensures Do(s, l).pc.Tearing? || Do(s, l).pc.WipeListing? || Do(s, l).pc.Wiping? || Do(s, l).pc.Zeroing?
    ensures !l.UserUpdate?
  {
  }

  /** Read the zero version, queue a zero config if there is none on top, let Robin apply it, read the
      zero version again: the store is wiped. */
  lemma Wiped(s: State, j: nat) returns (labels: seq<Label>)
    requires Inv(s) && ZeroAhead(s, j) && s.configs != map[]
    ensures CanRun(s, labels) && Held(labels) && After(s, labels).configs == map[]
  {
    hide Inv, CanRun, After;
    NoSteps(s);
    var a := [Crash];
    CrashAfter(s, []);
    assert [] + [Crash] == a;
    var s1 := Advance(s, [], a);
    var b := ApplyTop(s1);
    var s2 := Advance(s, a, b);
    var c := ReadZero(s2, j);
    var s3 := Advance(s, a + b, c);
    if s3.pc.Tearing? {
      var d := WipeOut(s3);
      var s4 := Advance(s, a + b + c, d);
      labels := a + b + c + d;
    } else {
      var d := QueueZero(s3);
      var s4 := Advance(s, a + b + c, d);
      var e := ApplyTop(s4);
      var s5 := Advance(s, a + b + c + d, e);
      var f := ReadZero(s5, j);
      var s6 := Advance(s, a + b + c + d + e, f);
      var g := WipeOut(s6);
      var s7 := Advance(s, a + b + c + d + e + f, g);
      labels := a + b + c + d + e + f + g;
    }
  }

  lemma FindZero(s: State) returns (j: nat)
    requires s.seen < |s.log| && !NonZeroAhead(s)
    ensures ZeroAhead(s, j)
  {
    j :| s.seen <= j < |s.log| && s.log[j].spec.primaries == 0;
  }

  /** From any reachable state: no run without a user update ends with a higher measure, if and only if
      the store is empty or no version the operator may still read is at zero. */
  lemma MeasureNeverRisesIff(s: State)
    requires Inv(s)
    ensures (forall labels | CanRun(s, labels) && Held(labels) :: NotAbove(After(s, labels), s)) <==>
            (s.configs == map[] || NonZeroAhead(s))
  {
    hide Inv, CanRun, After, Gap;
    InvMeansSeen(s);
    GapBounds(s);
    if s.configs == map[] || NonZeroAhead(s) {
      forall labels | CanRun(s, labels) && Held(labels) ensures NotAbove(After(s, labels), s) {
        if NonZeroAhead(s) {
          MeasureNeverRises(s, labels);
        } else {
          RunKeeps(s, labels);
          GapBounds(After(s, labels));
          HeldSpec(s, labels);
        }
      }
    } else {
      var j := FindZero(s);
      var labels := Wiped(s, j);
      RunKeeps(s, labels);
      GapBounds(After(s, labels));
      HeldSpec(s, labels);
      assert !NotAbove(After(s, labels), s);
    }
  }
}
