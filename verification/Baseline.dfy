/** The run diff: every headline metric against its baseline, the finding-level diff, and
    what the later run no longer measures. The order of the metric lines is left out. */
module Baseline {
  import opened FindingDiffs
  import FindingDiffLaws
  import opened Records
  import opened Wrappers

  datatype MetricName =
    | ConfirmedFindings | PivotRate | PoisoningDelta | InversionRate | ExtractionEfficiency
    | ByModel(model: string) | PerProbe(probe: string) | Residue(surface: Surface)
    | EffectSize(pair: string) | Caveats(surface: Surface)

  datatype Delta = Delta(
    name: MetricName, baseline: real, current: real, informational: bool, keyLost: bool, bounded: bool)

  const TOLERANCE := 0.000000001

  predicate Worsened(d: Delta) {
    !d.informational && !d.bounded && d.current > d.baseline + TOLERANCE
  }

  /** The rate a record's own counts give, or what it asserts where it has no counts. */
  function RateFromCounts(k: nat, n: nat, asserted: Option<real>): Option<real> {
    if k > n then None
    else if n > 0 then Some(k as real / n as real)
    else asserted
  }

  function Pivot(m: Metrics): Option<real> {
    RateFromCounts(m.pivotK, m.pivotN, m.pivotRate)
  }

  function OrZero(rate: Option<real>): real {
    if rate.Some? then rate.value else 0.0
  }

  function RateDelta(name: MetricName, before: Option<real>, after: Option<real>): Delta {
    Delta(name, OrZero(before), OrZero(after), false, before.Some? && after.None?, false)
  }

  function At<K(==)>(m: map<K, real>, k: K): real {
    if k in m then m[k] else 0.0
  }

  /** One delta per key of either side; an absent key reads as zero. */
  function DictDeltas<K(==)>(
    name: K -> MetricName, before: map<K, real>, after: map<K, real>, informational: bool, absentWhenClean: bool,
    bounded: set<K>): set<Delta>
  {
    set k | k in before.Keys + after.Keys ::
      Delta(name(k), At(before, k), At(after, k), informational,
            !absentWhenClean && k in before && k !in after, k in bounded)
  }

  function AsReals<K(==)>(m: map<K, int>): map<K, real> {
    map k | k in m :: m[k] as real
  }

  function Headlines(before: Metrics, after: Metrics): set<Delta> {
    {Delta(ConfirmedFindings, before.confirmedFindings as real, after.confirmedFindings as real, false, false, false),
     RateDelta(PivotRate, Pivot(before), Pivot(after)),
     RateDelta(PoisoningDelta, before.poisoningDelta, after.poisoningDelta),
     RateDelta(InversionRate, before.inversionRate, after.inversionRate),
     RateDelta(ExtractionEfficiency, before.extractionEfficiency, after.extractionEfficiency)}
  }

  function ModelName(model: string): MetricName { ByModel(model) }
  function ProbeName(probe: string): MetricName { PerProbe(probe) }
  function ResidueName(surface: Surface): MetricName { Residue(surface) }
  function PairName(pair: string): MetricName { EffectSize(pair) }
  function CaveatName(surface: Surface): MetricName { Caveats(surface) }

  function Expanded(before: Metrics, after: Metrics): set<Delta> {
    DictDeltas(ModelName, before.rateByModel, after.rateByModel, false, false, {})
    + DictDeltas(ProbeName, AsReals(before.perProbeFindings), AsReals(after.perProbeFindings), false, true, {})
    + DictDeltas(ResidueName, AsReals(before.erasureResidue), AsReals(after.erasureResidue), false, false, {})
    + DictDeltas(PairName, before.effectSizes, after.effectSizes, false, false,
                 before.varianceFloored + after.varianceFloored)
    + DictDeltas(CaveatName, AsReals(before.erasureCaveats), AsReals(after.erasureCaveats), true, false, {})
  }

  function CompareMetrics(before: Metrics, after: Metrics): set<Delta> {
    Headlines(before, after) + Expanded(before, after)
  }

  predicate Headline(name: MetricName) {
    name.PivotRate? || name.PoisoningDelta? || name.InversionRate? || name.ExtractionEfficiency?
  }

  function HeadlineUnmeasured(deltas: set<Delta>): set<MetricName> {
    set d | d in deltas && d.keyLost && Headline(d.name) :: d.name
  }

  /** Counted before and not counted now, in any of the three ways a scan can stop. */
  function ErasureLost(earlier: Run, later: Run): set<Surface> {
    var scanned := earlier.metrics.erasureResidue.Keys + earlier.metrics.erasureCaveats.Keys;
    var stillScanned := later.metrics.erasureResidue.Keys + later.metrics.erasureCaveats.Keys;
    (scanned - stillScanned)
    + (earlier.metrics.erasureResidue.Keys - later.metrics.erasureResidue.Keys)
    + (set s | s in earlier.metrics.erasureCoverage && s in earlier.provenance && s !in later.provenance)
  }

  function ScopeLost(earlier: Run, later: Run): set<Surface> {
    set s | s in earlier.provenance && earlier.provenance[s].Live? &&
            !(s in later.provenance && later.provenance[s].Live?)
  }

  function CoverageLost(earlier: Run, later: Run): set<ProbeId> {
    Exercised(earlier) - Exercised(later)
  }

  /** Probe ids with a count now and none before. */
  function Begun(before: map<ProbeId, int>, after: map<ProbeId, int>): set<ProbeId> {
    set p | p in after && after[p] != 0 && !(p in before && before[p] != 0)
  }

  datatype RunDiff = RunDiff(
    deltas: set<Delta>,
    findings: FindingDiff,
    coverageLost: set<ProbeId>,
    scopeLost: set<Surface>,
    boundaryLost: set<ProbeId>,
    plantsLost: set<ProbeId>,
    erasureLost: set<Surface>,
    sideChannelLost: set<string>,
    scenarioChanged: bool,
    embedderChanged: Option<(string, string)>)

  /** `canonical` is the spelling-insensitive form of an embedder's name. */
  function DiffRuns(canonical: string -> string, earlier: Run, later: Run): RunDiff {
    RunDiff(
      CompareMetrics(earlier.metrics, later.metrics),
      Diff(earlier.findings, later.findings),
      CoverageLost(earlier, later),
      ScopeLost(earlier, later),
      Begun(earlier.metrics.userStepsDropped, later.metrics.userStepsDropped),
      Begun(earlier.metrics.unconfirmedPlants, later.metrics.unconfirmedPlants),
      ErasureLost(earlier, later),
      earlier.metrics.effectSizes.Keys - later.metrics.effectSizes.Keys,
      earlier.scenarioHash != later.scenarioHash,
      if earlier.vectorEmbedder.Some? && later.vectorEmbedder.Some?
         && canonical(earlier.vectorEmbedder.value) != canonical(later.vectorEmbedder.value)
      then Some((earlier.vectorEmbedder.value, later.vectorEmbedder.value)) else None)
  }

  predicate Regressed(d: RunDiff) {
    || (exists m | m in d.deltas :: Worsened(m))
    || d.findings.newlyConfirmed != []
    || Escalations(d.findings.changed) != []
    || d.coverageLost != {}
    || d.scopeLost != {}
    || d.boundaryLost != {}
    || d.plantsLost != {}
    || d.erasureLost != {}
    || d.sideChannelLost != {}
    || HeadlineUnmeasured(d.deltas) != {}
    || d.scenarioChanged
    || d.embedderChanged.Some?
  }

  // ---------- What passing the gate means ----------

  ghost predicate CountsHold<K(!new)>(before: map<K, int>, after: map<K, int>) {
    forall k :: (if k in after then after[k] else 0) <= (if k in before then before[k] else 0)
  }

  ghost predicate RatesHold<K(!new)>(before: map<K, real>, after: map<K, real>, except: set<K>) {
    forall k | k !in except :: At(after, k) <= At(before, k) + TOLERANCE
  }

  ghost predicate RateHolds(before: Option<real>, after: Option<real>) {
    (before.Some? ==> after.Some?) && OrZero(after) <= OrZero(before) + TOLERANCE
  }

  /** No number the gate reads has grown: counts exactly, rates within the tolerance, effect
      sizes where neither run's is a mere bound; and each headline rate is still measured. */
  ghost predicate NumbersHold(before: Metrics, after: Metrics) {
    && after.confirmedFindings <= before.confirmedFindings
    && RateHolds(Pivot(before), Pivot(after))
    && RateHolds(before.poisoningDelta, after.poisoningDelta)
    && RateHolds(before.inversionRate, after.inversionRate)
    && RateHolds(before.extractionEfficiency, after.extractionEfficiency)
    && RatesHold(before.rateByModel, after.rateByModel, {})
    && CountsHold(before.perProbeFindings, after.perProbeFindings)
    && CountsHold(before.erasureResidue, after.erasureResidue)
    && RatesHold(before.effectSizes, after.effectSizes, before.varianceFloored + after.varianceFloored)
  }

  /** Nothing the earlier run measured has stopped being measured. */
  ghost predicate StillMeasured(earlier: Run, later: Run) {
    && Exercised(earlier) <= Exercised(later)
    && LiveSurfaces(earlier) <= LiveSurfaces(later)
    && (forall p | p in later.metrics.userStepsDropped && later.metrics.userStepsDropped[p] != 0 ::
          p in earlier.metrics.userStepsDropped && earlier.metrics.userStepsDropped[p] != 0)
    && (forall p | p in later.metrics.unconfirmedPlants && later.metrics.unconfirmedPlants[p] != 0 ::
          p in earlier.metrics.unconfirmedPlants && earlier.metrics.unconfirmedPlants[p] != 0)
    && earlier.metrics.erasureResidue.Keys <= later.metrics.erasureResidue.Keys
    && earlier.metrics.erasureCaveats.Keys <= later.metrics.erasureResidue.Keys + later.metrics.erasureCaveats.Keys
    && (forall s | s in earlier.metrics.erasureCoverage && s in earlier.provenance :: s in later.provenance)
    && earlier.metrics.effectSizes.Keys <= later.metrics.effectSizes.Keys
  }

  ghost predicate SameGround(canonical: string -> string, earlier: Run, later: Run) {
    && earlier.scenarioHash == later.scenarioHash
    && (earlier.vectorEmbedder.Some? && later.vectorEmbedder.Some? ==>
          canonical(earlier.vectorEmbedder.value) == canonical(later.vectorEmbedder.value))
  }

  ghost predicate NoneWorsened(deltas: set<Delta>) {
    forall d | d in deltas :: !Worsened(d)
  }

  lemma DictDeltasHold<K(!new)>(
    name: K -> MetricName, before: map<K, real>, after: map<K, real>, absentWhenClean: bool, bounded: set<K>)
    ensures NoneWorsened(DictDeltas(name, before, after, false, absentWhenClean, bounded))
       <==> RatesHold(before, after, bounded)
  {
    var deltas := DictDeltas(name, before, after, false, absentWhenClean, bounded);
    if NoneWorsened(deltas) {
      forall k | k !in bounded ensures At(after, k) <= At(before, k) + TOLERANCE {
        if k in before.Keys + after.Keys {
          var d := Delta(name(k), At(before, k), At(after, k), false,
                         !absentWhenClean && k in before && k !in after, false);
          assert d in deltas;
          assert !Worsened(d);
        }
      }
    }
  }

  /** For whole counts the tolerance is no slack at all. */
  lemma CountDeltasHold<K(!new)>(name: K -> MetricName, before: map<K, int>, after: map<K, int>, absentWhenClean: bool)
    ensures NoneWorsened(DictDeltas(name, AsReals(before), AsReals(after), false, absentWhenClean, {}))
       <==> CountsHold(before, after)
  {
    DictDeltasHold(name, AsReals(before), AsReals(after), absentWhenClean, {});
    var b, a := AsReals(before), AsReals(after);
    forall k ensures At(a, k) <= At(b, k) + TOLERANCE
                <==> (if k in after then after[k] else 0) <= (if k in before then before[k] else 0) {
    }
  }

  lemma InformationalNeverWorsens<K>(name: K -> MetricName, before: map<K, real>, after: map<K, real>)
    ensures NoneWorsened(DictDeltas(name, before, after, true, false, {}))
  {
  }

  lemma NoneWorsenedUnion(a: set<Delta>, b: set<Delta>)
    ensures NoneWorsened(a + b) <==> NoneWorsened(a) && NoneWorsened(b)
  {
  }

  lemma RateDeltaHolds(name: MetricName, before: Option<real>, after: Option<real>)
    requires Headline(name)
    ensures !Worsened(RateDelta(name, before, after)) && HeadlineUnmeasured({RateDelta(name, before, after)}) == {}
       <==> RateHolds(before, after)
  {
    var d := RateDelta(name, before, after);
    if d.keyLost {
      assert d.name in HeadlineUnmeasured({d});
    }
  }

  lemma UnmeasuredUnion(a: set<Delta>, b: set<Delta>)
    ensures HeadlineUnmeasured(a + b) == HeadlineUnmeasured(a) + HeadlineUnmeasured(b)
  {
  }

  ghost predicate Holds(deltas: set<Delta>) {
    NoneWorsened(deltas) && HeadlineUnmeasured(deltas) == {}
  }

  lemma HoldsUnion(a: set<Delta>, b: set<Delta>)
    ensures Holds(a + b) <==> Holds(a) && Holds(b)
  {
    NoneWorsenedUnion(a, b);
    UnmeasuredUnion(a, b);
  }

  lemma HeadlinesHold(before: Metrics, after: Metrics)
    ensures Holds(Headlines(before, after)) <==>
              && after.confirmedFindings <= before.confirmedFindings
              && RateHolds(Pivot(before), Pivot(after))
              && RateHolds(before.poisoningDelta, after.poisoningDelta)
              && RateHolds(before.inversionRate, after.inversionRate)
              && RateHolds(before.extractionEfficiency, after.extractionEfficiency)
  {
    var c := Delta(ConfirmedFindings, before.confirmedFindings as real, after.confirmedFindings as real,
                   false, false, false);
    var p := RateDelta(PivotRate, Pivot(before), Pivot(after));
    var q := RateDelta(PoisoningDelta, before.poisoningDelta, after.poisoningDelta);
    var i := RateDelta(InversionRate, before.inversionRate, after.inversionRate);
    var e := RateDelta(ExtractionEfficiency, before.extractionEfficiency, after.extractionEfficiency);
    assert Headlines(before, after) == {c} + ({p} + ({q} + ({i} + {e})));
    HoldsUnion({c}, {p} + ({q} + ({i} + {e})));
    HoldsUnion({p}, {q} + ({i} + {e}));
    HoldsUnion({q}, {i} + {e});
    HoldsUnion({i}, {e});
    RateDeltaHolds(PivotRate, Pivot(before), Pivot(after));
    RateDeltaHolds(PoisoningDelta, before.poisoningDelta, after.poisoningDelta);
    RateDeltaHolds(InversionRate, before.inversionRate, after.inversionRate);
    RateDeltaHolds(ExtractionEfficiency, before.extractionEfficiency, after.extractionEfficiency);
  }

  lemma FiveHold(a: set<Delta>, b: set<Delta>, c: set<Delta>, d: set<Delta>, e: set<Delta>)
    ensures NoneWorsened(a + b + c + d + e)
       <==> NoneWorsened(a) && NoneWorsened(b) && NoneWorsened(c) && NoneWorsened(d) && NoneWorsened(e)
  {
    NoneWorsenedUnion(a + b + c + d, e);
    NoneWorsenedUnion(a + b + c, d);
    NoneWorsenedUnion(a + b, c);
    NoneWorsenedUnion(a, b);
  }

  lemma ExpandedIsNoHeadline(before: Metrics, after: Metrics)
    ensures HeadlineUnmeasured(Expanded(before, after)) == {}
  {
    forall d | d in Expanded(before, after) ensures !Headline(d.name) {
    }
  }

  ghost predicate ExpandedHolds(before: Metrics, after: Metrics) {
    && RatesHold(before.rateByModel, after.rateByModel, {})
    && CountsHold(before.perProbeFindings, after.perProbeFindings)
    && CountsHold(before.erasureResidue, after.erasureResidue)
    && RatesHold(before.effectSizes, after.effectSizes, before.varianceFloored + after.varianceFloored)
  }

  lemma ExpandedHold(before: Metrics, after: Metrics)
    ensures NoneWorsened(Expanded(before, after)) <==> ExpandedHolds(before, after)
  {
    var floored := before.varianceFloored + after.varianceFloored;
    FiveHold(
      DictDeltas(ModelName, before.rateByModel, after.rateByModel, false, false, {}),
      DictDeltas(ProbeName, AsReals(before.perProbeFindings), AsReals(after.perProbeFindings), false, true, {}),
      DictDeltas(ResidueName, AsReals(before.erasureResidue), AsReals(after.erasureResidue), false, false, {}),
      DictDeltas(PairName, before.effectSizes, after.effectSizes, false, false, floored),
      DictDeltas(CaveatName, AsReals(before.erasureCaveats), AsReals(after.erasureCaveats), true, false, {}));
    DictDeltasHold(ModelName, before.rateByModel, after.rateByModel, false, {});
    CountDeltasHold(ProbeName, before.perProbeFindings, after.perProbeFindings, true);
    CountDeltasHold(ResidueName, before.erasureResidue, after.erasureResidue, false);
    DictDeltasHold(PairName, before.effectSizes, after.effectSizes, false, floored);
    InformationalNeverWorsens(CaveatName, AsReals(before.erasureCaveats), AsReals(after.erasureCaveats));
  }

  lemma MetricsHoldIff(before: Metrics, after: Metrics)
    ensures Holds(CompareMetrics(before, after)) <==> NumbersHold(before, after)
  {
    HoldsUnion(Headlines(before, after), Expanded(before, after));
    HeadlinesHold(before, after);
    ExpandedHold(before, after);
    ExpandedIsNoHeadline(before, after);
  }

  ghost predicate NothingLost(earlier: Run, later: Run) {
    && CoverageLost(earlier, later) == {}
    && ScopeLost(earlier, later) == {}
    && Begun(earlier.metrics.userStepsDropped, later.metrics.userStepsDropped) == {}
    && Begun(earlier.metrics.unconfirmedPlants, later.metrics.unconfirmedPlants) == {}
    && ErasureLost(earlier, later) == {}
    && earlier.metrics.effectSizes.Keys - later.metrics.effectSizes.Keys == {}
  }

  lemma NoneMissingIff<T>(a: set<T>, b: set<T>)
    ensures a - b == {} <==> a <= b
  {
    forall x | x in a && x !in b ensures x in a - b {
    }
  }

  lemma ScopeLostIff(earlier: Run, later: Run)
    ensures ScopeLost(earlier, later) == {} <==> LiveSurfaces(earlier) <= LiveSurfaces(later)
  {
    assert ScopeLost(earlier, later) == LiveSurfaces(earlier) - LiveSurfaces(later);
    NoneMissingIff(LiveSurfaces(earlier), LiveSurfaces(later));
  }

  lemma NothingLostIff(earlier: Run, later: Run)
    ensures NothingLost(earlier, later) <==> StillMeasured(earlier, later)
  {
    NoneMissingIff(Exercised(earlier), Exercised(later));
    ScopeLostIff(earlier, later);
    BegunIff(earlier.metrics.userStepsDropped, later.metrics.userStepsDropped);
    BegunIff(earlier.metrics.unconfirmedPlants, later.metrics.unconfirmedPlants);
    ErasureLostIff(earlier, later);
    NoneMissingIff(earlier.metrics.effectSizes.Keys, later.metrics.effectSizes.Keys);
  }

  lemma BegunIff(before: map<ProbeId, int>, after: map<ProbeId, int>)
    ensures Begun(before, after) == {} <==>
              forall p | p in after && after[p] != 0 :: p in before && before[p] != 0
  {
    forall p | p in after && after[p] != 0 && !(p in before && before[p] != 0) ensures p in Begun(before, after) {
    }
  }

  lemma ErasureLostIff(earlier: Run, later: Run)
    ensures ErasureLost(earlier, later) == {} <==>
              && earlier.metrics.erasureResidue.Keys <= later.metrics.erasureResidue.Keys
              && earlier.metrics.erasureCaveats.Keys
                 <= later.metrics.erasureResidue.Keys + later.metrics.erasureCaveats.Keys
              && forall s | s in earlier.metrics.erasureCoverage && s in earlier.provenance :: s in later.provenance
  {
    var lost := ErasureLost(earlier, later);
    forall s | s in earlier.metrics.erasureResidue && s !in later.metrics.erasureResidue ensures s in lost {
    }
    forall s | s in earlier.metrics.erasureCaveats && s !in later.metrics.erasureResidue
               && s !in later.metrics.erasureCaveats
      ensures s in lost
    {
    }
    forall s | s in earlier.metrics.erasureCoverage && s in earlier.provenance && s !in later.provenance
      ensures s in lost
    {
    }
  }

  /** Exactly what a diff that does not regress says, for any two records: both finding gates
      are quiet, no gated number grew, everything once measured still is, and the two runs
      were taken on the same ground. */
  lemma NoRegressionIff(canonical: string -> string, earlier: Run, later: Run)
    ensures !Regressed(DiffRuns(canonical, earlier, later)) <==>
              && Quiet(earlier.findings, later.findings)
              && NumbersHold(earlier.metrics, later.metrics)
              && StillMeasured(earlier, later)
              && SameGround(canonical, earlier, later)
  {
    var d := DiffRuns(canonical, earlier, later);
    MetricsHoldIff(earlier.metrics, later.metrics);
    NothingLostIff(earlier, later);
    assert Holds(d.deltas) <==> !(exists m | m in d.deltas :: Worsened(m)) && HeadlineUnmeasured(d.deltas) == {};
  }

  /** No record regresses against itself - repeated ids, floored effect sizes, incoherent
      counts and all. */
  lemma NeverAgainstItself(canonical: string -> string, run: Run)
    ensures !Regressed(DiffRuns(canonical, run, run))
  {
    NoRegressionIff(canonical, run, run);
    FindingDiffLaws.QuietOnItself(run.findings);
  }
}
