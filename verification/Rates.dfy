/** The headline rates: by step, and by sequence for the one probe whose unit is a sequence
    of steps. */
module Rates {
  import opened Records
  import opened Runner
  import opened Wrappers

  /** Who acted, and which sequence of theirs the step belongs to. */
  type Sequence = (Uuid, Option<Uuid>, string)

  function SequenceOf(step: Step, key: string): Sequence {
    (step.tenant, step.user, if key in step.payload then step.payload[key] else "")
  }

  /** The steps that surfaced a confirmed leak. */
  function Leaking(results: seq<StepResult>): nat {
    if results == [] then 0
    else
      var n := |results| - 1;
      Leaking(results[..n]) + if HasConfirmed(results[n].1) then 1 else 0
  }

  function Sequences(results: seq<StepResult>, key: string): set<Sequence> {
    set r | r in results :: SequenceOf(r.0, key)
  }

  function LeakingSequences(results: seq<StepResult>, key: string): set<Sequence> {
    set r | r in results && HasConfirmed(r.1) :: SequenceOf(r.0, key)
  }

  /** What the dictionary loop has recorded after a run of results. */
  function Tally(results: seq<StepResult>, key: string): map<Sequence, bool> {
    if results == [] then map[]
    else
      var n := |results| - 1;
      var before, s := Tally(results[..n], key), SequenceOf(results[n].0, key);
      before[s := (s in before && before[s]) || HasConfirmed(results[n].1)]
  }

  lemma {:induction false} TallyLaws(results: seq<StepResult>, key: string, s: Sequence)
    ensures s in Tally(results, key) <==> s in Sequences(results, key)
    ensures s in Tally(results, key) && Tally(results, key)[s] <==> s in LeakingSequences(results, key)
  {
    if results != [] {
      var n := |results| - 1;
      TallyLaws(results[..n], key, s);
      assert results == results[..n] + [results[n]];
    }
  }

  function Rate(k: nat, n: nat): real {
    if n == 0 then 0.0 else k as real / n as real
  }

  /** The dictionary loop computes the fraction of sequences with a leaking step. */
  method ConfirmedSequenceRate(results: seq<StepResult>, key: string) returns (rate: real)
    ensures rate == Rate(|LeakingSequences(results, key)|, |Sequences(results, key)|)
  {
    if results == [] {
      return 0.0;
    }
    var sequences: map<Sequence, bool> := map[];
    for i := 0 to |results|
      invariant sequences == Tally(results[..i], key)
    {
      var (step, findings) := results[i];
      var identity := SequenceOf(step, key);
      assert results[..i + 1][..i] == results[..i];
      sequences := sequences[identity := (identity in sequences && sequences[identity]) || HasConfirmed(findings)];
    }
    assert results[..|results|] == results;
    var leaked := set s | s in sequences && sequences[s];
    forall s { TallyLaws(results, key, s); }
    assert leaked == LeakingSequences(results, key);
    assert sequences.Keys == Sequences(results, key);
    assert SequenceOf(results[0].0, key) in sequences.Keys;
    return |leaked| as real / |sequences.Keys| as real;
  }

  method ConfirmedFindingRate(results: seq<StepResult>) returns (rate: real)
    ensures rate == Rate(Leaking(results), |results|)
  {
    if results == [] {
      return 0.0;
    }
    var pivoted := 0;
    for i := 0 to |results|
      invariant pivoted == Leaking(results[..i])
    {
      assert results[..i + 1][..i] == results[..i];
      if HasConfirmed(results[i].1) {
        pivoted := pivoted + 1;
      }
    }
    assert results[..|results|] == results;
    return pivoted as real / |results| as real;
  }

  /** The steps of one sequence, and the rest. */
  function Only(results: seq<StepResult>, key: string, s: Sequence): seq<StepResult> {
    if results == [] then []
    else
      var n := |results| - 1;
      if SequenceOf(results[n].0, key) == s then Only(results[..n], key, s) + [results[n]]
      else Only(results[..n], key, s)
  }

  function Except(results: seq<StepResult>, key: string, s: Sequence): seq<StepResult> {
    if results == [] then []
    else
      var n := |results| - 1;
      if SequenceOf(results[n].0, key) == s then Except(results[..n], key, s)
      else Except(results[..n], key, s) + [results[n]]
  }

  lemma LeakingSnoc(results: seq<StepResult>, r: StepResult)
    ensures Leaking(results + [r]) == Leaking(results) + if HasConfirmed(r.1) then 1 else 0
  {
    assert (results + [r])[..|results|] == results;
  }

  lemma {:induction false} SplitOff(results: seq<StepResult>, key: string, s: Sequence)
    ensures |results| == |Only(results, key, s)| + |Except(results, key, s)|
    ensures Leaking(results) == Leaking(Only(results, key, s)) + Leaking(Except(results, key, s))
  {
    if results != [] {
      var n := |results| - 1;
      var mine, rest := Only(results[..n], key, s), Except(results[..n], key, s);
      SplitOff(results[..n], key, s);
      if SequenceOf(results[n].0, key) == s {
        LeakingSnoc(mine, results[n]);
      } else {
        LeakingSnoc(rest, results[n]);
      }
    }
  }

  lemma {:induction false} SplitOffMembers(results: seq<StepResult>, key: string, s: Sequence, r: StepResult)
    ensures r in Only(results, key, s) <==> r in results && SequenceOf(r.0, key) == s
    ensures r in Except(results, key, s) <==> r in results && SequenceOf(r.0, key) != s
  {
    if results != [] {
      var n := |results| - 1;
      SplitOffMembers(results[..n], key, s, r);
      assert results == results[..n] + [results[n]];
    }
  }

  lemma {:induction false} OthersAreKept(results: seq<StepResult>, key: string, s: Sequence, t: Sequence)
    requires s != t
    ensures Only(Except(results, key, s), key, t) == Only(results, key, t)
  {
    if results != [] {
      var n := |results| - 1;
      OthersAreKept(results[..n], key, s, t);
      var rest := Except(results[..n], key, s);
      assert (rest + [results[n]])[..|rest|] == rest;
    }
  }

  lemma {:induction false} LeakingBounds(results: seq<StepResult>)
    ensures Leaking(results) <= |results|
    ensures Leaking(results) > 0 <==> exists r :: r in results && HasConfirmed(r.1)
  {
    if results != [] {
      var n := |results| - 1;
      LeakingBounds(results[..n]);
      assert results == results[..n] + [results[n]];
    }
  }

  /** Taking one sequence out takes it, and only it, from both sets. */
  lemma SequencesExcept(results: seq<StepResult>, key: string, s: Sequence)
    ensures Sequences(Except(results, key, s), key) == Sequences(results, key) - {s}
    ensures LeakingSequences(Except(results, key, s), key) == LeakingSequences(results, key) - {s}
    ensures s in LeakingSequences(results, key) <==> Leaking(Only(results, key, s)) > 0
  {
    forall r { SplitOffMembers(results, key, s, r); }
    LeakingBounds(Only(results, key, s));
  }

  ghost predicate EvenSequences(results: seq<StepResult>, key: string, m: nat) {
    forall s | s in Sequences(results, key) :: |Only(results, key, s)| == m
  }

  ghost predicate NoLonger(results: seq<StepResult>, key: string, m: nat) {
    forall s | s in Sequences(results, key) :: |Only(results, key, s)| <= m
  }

  lemma OneFewer(all: set<Sequence>, rest: set<Sequence>, s: Sequence, m: nat)
    requires s in all && rest == all - {s}
    ensures |all| == |rest| + 1 && m * |all| == m * |rest| + m
  {
  }

  /** Taking one sequence out leaves every other its length. */
  lemma LengthsExcept(results: seq<StepResult>, key: string, s: Sequence)
    requires s in Sequences(results, key)
    ensures |results| == |Only(results, key, s)| + |Except(results, key, s)|
    ensures |Except(results, key, s)| < |results|
    ensures forall t | t in Sequences(Except(results, key, s), key) ::
              t in Sequences(results, key) && |Only(Except(results, key, s), key, t)| == |Only(results, key, t)|
  {
    SplitOff(results, key, s);
    SequencesExcept(results, key, s);
    forall t | t in Sequences(Except(results, key, s), key)
      ensures |Only(Except(results, key, s), key, t)| == |Only(results, key, t)|
    {
      OthersAreKept(results, key, s, t);
    }
    var r :| r in results && SequenceOf(r.0, key) == s;
    SplitOffMembers(results, key, s, r);
  }

  /** Where no sequence has more than `m` steps there are at most `m` steps to a sequence, and
      exactly `m` only where each has that many. */
  lemma {:induction false} StepsPerSequence(results: seq<StepResult>, key: string, m: nat)
    requires NoLonger(results, key, m)
    ensures |results| <= m * |Sequences(results, key)|
    ensures |results| == m * |Sequences(results, key)| <==> EvenSequences(results, key, m)
    decreases |results|
  {
    if results != [] {
      var s := SequenceOf(results[0].0, key);
      assert s in Sequences(results, key);
      LengthsExcept(results, key, s);
      StepsPerSequence(Except(results, key, s), key, m);
      SequencesExcept(results, key, s);
      OneFewer(Sequences(results, key), Sequences(Except(results, key, s), key), s, m);
      EvenByParts(results, key, m, s);
    }
  }

  lemma EvenByParts(results: seq<StepResult>, key: string, m: nat, s: Sequence)
    requires s in Sequences(results, key)
    ensures EvenSequences(results, key, m)
       <==> |Only(results, key, s)| == m && EvenSequences(Except(results, key, s), key, m)
  {
    LengthsExcept(results, key, s);
    SequencesExcept(results, key, s);
  }

  /** And between one and `m` leaking steps to a leaking sequence. */
  lemma {:induction false} LeaksPerSequence(results: seq<StepResult>, key: string, m: nat)
    requires NoLonger(results, key, m)
    ensures |LeakingSequences(results, key)| <= Leaking(results) <= m * |LeakingSequences(results, key)|
    decreases |results|
  {
    if results != [] {
      var s := SequenceOf(results[0].0, key);
      assert s in Sequences(results, key);
      LengthsExcept(results, key, s);
      LeaksPerSequence(Except(results, key, s), key, m);
      SplitOff(results, key, s);
      SequencesExcept(results, key, s);
      LeakingBounds(Only(results, key, s));
      var all, rest := LeakingSequences(results, key), LeakingSequences(Except(results, key, s), key);
      if s in all {
        OneFewer(all, rest, s, m);
      } else {
        assert rest == all;
      }
    }
  }

  lemma TimesLe(a: real, b: real, c: real)
    requires c > 0.0 && a * c <= b * c
    ensures a <= b
  {
  }

  lemma RateLe(k: nat, n: nat, k': nat, n': nat)
    requires n > 0 && n' > 0 && k * n' <= k' * n
    ensures Rate(k, n) <= Rate(k', n')
  {
    var x, y, a, b := Rate(k, n), Rate(k', n'), n as real, n' as real;
    assert x * a == k as real && y * b == k' as real;
    assert x * (a * b) == (k * n') as real;
    assert y * (a * b) == (k' * n) as real;
    TimesLe(x, y, a * b);
  }

  lemma RateTimes(m: nat, k: nat, n: nat)
    ensures Rate(m * k, n) == m as real * Rate(k, n)
  {
  }

  /** `k / n <= k' / n' <= m * (k / n)`. */
  ghost predicate Within(k: nat, n: nat, k': nat, n': nat, m: nat) {
    Rate(k, n) <= Rate(k', n') <= m as real * Rate(k, n)
  }

  lemma BoundsFromCounts(leaks: nat, n: nat, leaking: nat, all: nat, m: nat)
    requires all > 0 && m > 0 && n == m * all && leaking <= leaks <= m * leaking
    ensures Within(leaks, n, leaking, all, m)
  {
    RateTimes(m, leaks, n);
    assert leaks * all <= (m * leaking) * all == leaking * n;
    RateLe(leaks, n, leaking, all);
    assert leaking * n <= leaks * n == (m * leaks) * all;
    RateLe(leaking, all, m * leaks, n);
  }

  /** Counting turns instead of sequences understates the extraction, and by at most the
      length of a sequence: turn rate <= sequence rate <= m * turn rate. */
  lemma SequenceRateBounds(results: seq<StepResult>, key: string, m: nat)
    requires EvenSequences(results, key, m)
    ensures Within(Leaking(results), |results|, |LeakingSequences(results, key)|, |Sequences(results, key)|, m)
  {
    var leaks, n := Leaking(results), |results|;
    var leaking, all := |LeakingSequences(results, key)|, |Sequences(results, key)|;
    StepsPerSequence(results, key, m);
    LeaksPerSequence(results, key, m);
    if results == [] {
      assert Sequences(results, key) == {};
    } else {
      PositiveFactors(m, all);
      BoundsFromCounts(leaks, n, leaking, all, m);
    }
  }

  lemma PositiveFactors(m: nat, n: nat)
    requires m * n > 0
    ensures m > 0 && n > 0
  {
  }

  /** `k' / n' <= m * (k / n)`. */
  ghost predicate AtMostTimes(k: nat, n: nat, k': nat, n': nat, m: nat) {
    Rate(k', n') <= m as real * Rate(k, n)
  }

  /** The upper bound needs no even sequences, only a length none of them exceeds. */
  lemma UpperBoundAlways(results: seq<StepResult>, key: string, m: nat)
    requires NoLonger(results, key, m)
    ensures AtMostTimes(Leaking(results), |results|, |LeakingSequences(results, key)|, |Sequences(results, key)|, m)
  {
    if results == [] {
      assert Sequences(results, key) == {};
    } else {
      assert SequenceOf(results[0].0, key) in Sequences(results, key);
      StepsPerSequence(results, key, m);
      LeaksPerSequence(results, key, m);
      UpperFromCounts(Leaking(results), |results|, |LeakingSequences(results, key)|, |Sequences(results, key)|, m);
    }
  }

  lemma UpperFromCounts(leaks: nat, n: nat, leaking: nat, all: nat, m: nat)
    requires n > 0 && all > 0 && n <= m * all && leaking <= leaks
    ensures AtMostTimes(leaks, n, leaking, all, m)
  {
    RateTimes(m, leaks, n);
    assert leaking * n <= leaks * n <= leaks * (m * all) == (m * leaks) * all;
    RateLe(leaking, all, m * leaks, n);
  }

  // ---------- When the lower bound holds ----------

  ghost predicate SameSteps(a: seq<StepResult>, b: seq<StepResult>) {
    |a| == |b| && forall i | 0 <= i < |a| :: a[i].0 == b[i].0
  }

  /** The turn rate does not exceed the sequence rate. */
  ghost predicate TurnsUnderstate(results: seq<StepResult>, key: string) {
    Rate(Leaking(results), |results|) <= Rate(|LeakingSequences(results, key)|, |Sequences(results, key)|)
  }

  lemma {:induction false} SameStepsSameSequence(a: seq<StepResult>, b: seq<StepResult>, key: string, s: Sequence)
    requires SameSteps(a, b)
    ensures |Only(a, key, s)| == |Only(b, key, s)|
    ensures s in Sequences(a, key) <==> s in Sequences(b, key)
  {
    if a != [] {
      var n := |a| - 1;
      SameStepsSameSequence(a[..n], b[..n], key, s);
      assert a == a[..n] + [a[n]] && b == b[..n] + [b[n]];
    }
  }

  lemma {:induction false} Longest(results: seq<StepResult>, key: string) returns (s: Sequence)
    requires results != []
    ensures s in Sequences(results, key) && NoLonger(results, key, |Only(results, key, s)|)
    decreases |results|
  {
    s := SequenceOf(results[0].0, key);
    assert s in Sequences(results, key);
    LengthsExcept(results, key, s);
    SequencesExcept(results, key, s);
    var rest := Except(results, key, s);
    if rest != [] {
      var t := Longest(rest, key);
      if |Only(results, key, t)| > |Only(results, key, s)| {
        s := t;
      }
    } else {
      assert Sequences(rest, key) == {};
      assert forall t | t in Sequences(results, key) :: t == s;
    }
  }

  /** The same steps, where one sequence leaks at every step and nothing else leaks. */
  function LeakingOnlyIn(results: seq<StepResult>, key: string, s: Sequence): seq<StepResult> {
    seq(|results|, i requires 0 <= i < |results| =>
      (results[i].0, if SequenceOf(results[i].0, key) == s then [LEAK] else []))
  }

  lemma {:induction false} LeakingOnlyInCounts(results: seq<StepResult>, key: string, s: Sequence)
    ensures Leaking(LeakingOnlyIn(results, key, s)) == |Only(results, key, s)|
  {
    if results != [] {
      var n := |results| - 1;
      LeakingOnlyInCounts(results[..n], key, s);
      var before := LeakingOnlyIn(results[..n], key, s);
      var last := LeakingOnlyIn(results, key, s)[n];
      assert LeakingOnlyIn(results, key, s) == before + [last];
      assert LEAK in [LEAK];
      LeakingSnoc(before, last);
    }
  }

  lemma LeakingOnlyInSequences(results: seq<StepResult>, key: string, s: Sequence)
    requires s in Sequences(results, key)
    ensures LeakingSequences(LeakingOnlyIn(results, key, s), key) == {s}
    ensures Sequences(LeakingOnlyIn(results, key, s), key) == Sequences(results, key)
  {
    var only := LeakingOnlyIn(results, key, s);
    assert SameSteps(results, only);
    forall t {
      SameStepsSameSequence(results, only, key, t);
    }
    var r :| r in results && SequenceOf(r.0, key) == s;
    var i :| 0 <= i < |results| && results[i] == r;
    assert only[i] in only && LEAK in only[i].1;
  }

  lemma RateLeGives(k: nat, n: nat, k': nat, n': nat)
    requires n > 0 && n' > 0 && Rate(k, n) <= Rate(k', n')
    ensures k * n' <= k' * n
  {
    var x, y, a, b := Rate(k, n), Rate(k', n'), n as real, n' as real;
    assert x * a == k as real && y * b == k' as real;
    assert x * (a * b) <= y * (a * b);
    assert x * (a * b) == (k * n') as real;
    assert y * (a * b) == (k' * n) as real;
  }

  lemma LongestBreaksTheBound(results: seq<StepResult>, key: string, s: Sequence)
    requires s in Sequences(results, key) && NoLonger(results, key, |Only(results, key, s)|)
    requires TurnsUnderstate(LeakingOnlyIn(results, key, s), key)
    ensures EvenSequences(results, key, |Only(results, key, s)|)
  {
    var m, n, all := |Only(results, key, s)|, |results|, |Sequences(results, key)|;
    LeakingOnlyInCounts(results, key, s);
    LeakingOnlyInSequences(results, key, s);
    assert n > 0 && all > 0;
    RateLeGives(m, n, 1, all);
    StepsPerSequence(results, key, m);
  }

  /** Exactly when counting turns understates: for given steps, the turn rate never exceeds
      the sequence rate - whichever steps leak - if and only if every sequence has one length. */
  lemma TurnsUnderstateIff(results: seq<StepResult>, key: string)
    ensures (forall r | SameSteps(results, r) :: TurnsUnderstate(r, key))
       <==> exists m :: EvenSequences(results, key, m)
  {
    if m :| EvenSequences(results, key, m) {
      forall r | SameSteps(results, r) ensures TurnsUnderstate(r, key) {
        forall s ensures |Only(results, key, s)| == |Only(r, key, s)|
                 ensures s in Sequences(results, key) <==> s in Sequences(r, key)
        {
          SameStepsSameSequence(results, r, key, s);
        }
        SequenceRateBounds(r, key, m);
      }
    }
    if forall r | SameSteps(results, r) :: TurnsUnderstate(r, key) {
      if results == [] {
        assert EvenSequences(results, key, 0);
      } else {
        var s := Longest(results, key);
        assert SameSteps(results, LeakingOnlyIn(results, key, s));
        LongestBreaksTheBound(results, key, s);
      }
    }
  }

  const LEAK := Finding("f", IkeaExtraction, High, Confirmed, 1, 2, None, None, VectorDb)

  function Turn(sequence: string, leaks: bool): StepResult {
    (Step("", 1, None, VectorQuery, map["s" := sequence]), if leaks then [LEAK] else [])
  }

  function Uneven(): seq<StepResult> {
    [Turn("a", true), Turn("a", true), Turn("b", false)]
  }

  lemma LeakingOfThree(x: StepResult, y: StepResult, z: StepResult)
    requires HasConfirmed(x.1) && HasConfirmed(y.1) && !HasConfirmed(z.1)
    ensures Leaking([x, y, z]) == 2
  {
    LeakingSnoc([], x);
    LeakingSnoc([x], y);
    LeakingSnoc([x, y], z);
    assert [] + [x] == [x] && [x] + [y] == [x, y] && [x, y] + [z] == [x, y, z];
  }

  lemma UnevenSequences()
    ensures |Sequences(Uneven(), "s")| == 2 && |LeakingSequences(Uneven(), "s")| == 1
  {
    var a: Sequence, b: Sequence := (1, None, "a"), (1, None, "b");
    assert LEAK in Turn("a", true).1;
    assert SequenceOf(Uneven()[0].0, "s") == a && SequenceOf(Uneven()[2].0, "s") == b;
    assert Sequences(Uneven(), "s") == {a, b};
    assert LeakingSequences(Uneven(), "s") == {a};
  }

  /** With sequences of different lengths the lower bound fails: two leaking turns of one
      sequence and one clean turn of another make the turn rate the higher one. */
  lemma UnevenSequencesBreakTheBound()
    ensures Rate(Leaking(Uneven()), |Uneven()|)
          > Rate(|LeakingSequences(Uneven(), "s")|, |Sequences(Uneven(), "s")|)
  {
    assert LEAK in Turn("a", true).1;
    LeakingOfThree(Turn("a", true), Turn("a", true), Turn("b", false));
    UnevenSequences();
  }

  /** A step acted for this tenant and user, in the sequence of this name. */
  predicate ActsIn(step: Step, key: string, tenant: Uuid, user: Option<Uuid>, name: string) {
    && step.tenant == tenant && step.user == user
    && name == if key in step.payload then step.payload[key] else ""
  }

  /** What is counted: one sequence for each tenant, user and name that some step acted in, and
      it leaks exactly if one of those steps surfaced a confirmed finding. */
  lemma SequencesAre(results: seq<StepResult>, key: string, tenant: Uuid, user: Option<Uuid>, name: string)
    ensures (tenant, user, name) in Sequences(results, key)
       <==> exists r: StepResult :: r in results && ActsIn(r.0, key, tenant, user, name)
    ensures (tenant, user, name) in LeakingSequences(results, key)
       <==> exists r: StepResult, f :: r in results && ActsIn(r.0, key, tenant, user, name)
                                       && f in r.1 && f.status == Confirmed
  {
    forall r: StepResult
      ensures ActsIn(r.0, key, tenant, user, name) <==> SequenceOf(r.0, key) == (tenant, user, name)
    {
    }
  }

  /** And a step leaks on the same terms. */
  lemma {:induction false} LeakingIsCount(results: seq<StepResult>)
    ensures Leaking(results) == |LeakingPlaces(results)|
  {
    if results != [] {
      var n := |results| - 1;
      LeakingIsCount(results[..n]);
      var before, now := LeakingPlaces(results[..n]), LeakingPlaces(results);
      assert now == if HasConfirmed(results[n].1) then before + {n} else before;
    }
  }

  /** The places of results with a confirmed finding. */
  function LeakingPlaces(results: seq<StepResult>): set<nat> {
    set i: nat | i < |results| && exists f | f in results[i].1 :: f.status == Confirmed
  }
}
