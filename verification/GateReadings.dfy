/** The run diff's gate in the numbers of the records: which rate a record's counts give, and
    exactly how much growth the gate lets through. */
module GateReadings {
  import opened Baseline
  import FindingDiffLaws
  import opened FindingDiffs
  import opened Records
  import opened Wrappers

  /** One part in a billion, by which a rate may grow. */
  const SLACK := 1.0 / 1000000000.0

  /** The pivot rate a record is held to: its counts' wherever there are counts, and none where
      they are impossible. */
  function PivotOf(m: Metrics): Option<real> {
    if m.pivotN == 0 && m.pivotK == 0 then m.pivotRate
    else if m.pivotK <= m.pivotN then Some(m.pivotK as real / m.pivotN as real)
    else None
  }

  lemma PivotIsCounted(m: Metrics)
    ensures Pivot(m) == PivotOf(m)
  {
  }

  /** A rate measured before is measured after, and has grown by no more than the slack; one
      not measured reads as zero. */
  predicate Steady(before: Option<real>, after: Option<real>) {
    match (before, after)
    case (None, None) => true
    case (Some(b), None) => false
    case (None, Some(a)) => a <= SLACK
    case (Some(b), Some(a)) => a <= b + SLACK
  }

  lemma SteadyIff(before: Option<real>, after: Option<real>)
    ensures RateHolds(before, after) <==> Steady(before, after)
  {
  }

  function ValueAt<K(==)>(m: map<K, real>, k: K): real {
    if k in m then m[k] else 0.0
  }

  lemma SameFindingsQuiet(findings: seq<Finding>)
    ensures Quiet(findings, findings)
  {
    FindingDiffLaws.QuietOnItself(findings);
  }

  /** Nothing once measured is missing from these metrics. */
  predicate StillThere(before: Metrics, after: Metrics) {
    && after.userStepsDropped == before.userStepsDropped && after.unconfirmedPlants == before.unconfirmedPlants
    && before.erasureResidue.Keys <= after.erasureResidue.Keys
    && before.erasureCaveats.Keys <= after.erasureCaveats.Keys
    && before.effectSizes.Keys <= after.effectSizes.Keys
  }

  /** A run measured as before regresses on its numbers alone. */
  lemma OnlyNumbersMatter(canonical: string -> string, run: Run, metrics: Metrics)
    requires StillThere(run.metrics, metrics)
    ensures Regressed(DiffRuns(canonical, run, run.(metrics := metrics))) <==> !NumbersHold(run.metrics, metrics)
  {
    NoRegressionIff(canonical, run, run.(metrics := metrics));
    SameFindingsQuiet(run.findings);
  }

  /** A run whose every other field is as before regresses exactly on a rate that grows by more
      than the slack, or is no longer measured. */
  lemma PoisoningRegressesIff(canonical: string -> string, run: Run, rate: Option<real>)
    ensures Regressed(DiffRuns(canonical, run, run.(metrics := run.metrics.(poisoningDelta := rate))))
       <==> !Steady(run.metrics.poisoningDelta, rate)
  {
    OnlyNumbersMatter(canonical, run, run.metrics.(poisoningDelta := rate));
    SteadyIff(run.metrics.poisoningDelta, rate);
  }

  lemma InversionRegressesIff(canonical: string -> string, run: Run, rate: Option<real>)
    ensures Regressed(DiffRuns(canonical, run, run.(metrics := run.metrics.(inversionRate := rate))))
       <==> !Steady(run.metrics.inversionRate, rate)
  {
    OnlyNumbersMatter(canonical, run, run.metrics.(inversionRate := rate));
    SteadyIff(run.metrics.inversionRate, rate);
  }

  lemma ExtractionRegressesIff(canonical: string -> string, run: Run, rate: Option<real>)
    ensures Regressed(DiffRuns(canonical, run, run.(metrics := run.metrics.(extractionEfficiency := rate))))
       <==> !Steady(run.metrics.extractionEfficiency, rate)
  {
    OnlyNumbersMatter(canonical, run, run.metrics.(extractionEfficiency := rate));
    SteadyIff(run.metrics.extractionEfficiency, rate);
  }

  /** New counts and a new asserted pivot rate: only what the counts give matters. */
  lemma PivotRegressesIff(canonical: string -> string, run: Run, k: nat, n: nat, asserted: Option<real>)
    ensures
      var metrics := run.metrics.(pivotK := k, pivotN := n, pivotRate := asserted);
      Regressed(DiffRuns(canonical, run, run.(metrics := metrics))) <==>
        !Steady(PivotOf(run.metrics), PivotOf(metrics))
  {
    var metrics := run.metrics.(pivotK := k, pivotN := n, pivotRate := asserted);
    OnlyNumbersMatter(canonical, run, metrics);
    PivotIsCounted(run.metrics);
    PivotIsCounted(metrics);
    SteadyIff(Pivot(run.metrics), Pivot(metrics));
  }

  /** One model's rate or one pair's effect size set anew: a key the earlier record has not
      reads as zero there, and a floored effect size is no number to compare. */
  lemma RateByModelRegressesIff(canonical: string -> string, run: Run, model: string, rate: real)
    ensures
      var metrics := run.metrics.(rateByModel := run.metrics.rateByModel[model := rate]);
      Regressed(DiffRuns(canonical, run, run.(metrics := metrics))) <==>
        rate > ValueAt(run.metrics.rateByModel, model) + SLACK
  {
    var rates := run.metrics.rateByModel;
    OnlyNumbersMatter(canonical, run, run.metrics.(rateByModel := rates[model := rate]));
    OneMoreRate(rates, model, rate, {});
  }

  lemma EffectSizeRegressesIff(canonical: string -> string, run: Run, pair: string, size: real)
    ensures
      var metrics := run.metrics.(effectSizes := run.metrics.effectSizes[pair := size]);
      Regressed(DiffRuns(canonical, run, run.(metrics := metrics))) <==>
        pair !in run.metrics.varianceFloored && size > ValueAt(run.metrics.effectSizes, pair) + SLACK
  {
    var sizes, floored := run.metrics.effectSizes, run.metrics.varianceFloored;
    OnlyNumbersMatter(canonical, run, run.metrics.(effectSizes := sizes[pair := size]));
    assert floored + floored == floored;
    OneMoreRate(sizes, pair, size, floored);
  }

  lemma OneMoreRate(rates: map<string, real>, key: string, rate: real, except: set<string>)
    ensures RatesHold(rates, rates[key := rate], except)
       <==> key in except || rate <= ValueAt(rates, key) + SLACK
  {
    var after := rates[key := rate];
    assert At(after, key) == rate && At(rates, key) == ValueAt(rates, key);
    forall k | k != key ensures At(after, k) == At(rates, k) {
    }
  }

  lemma OneMoreCount(counts: map<Surface, int>, s: Surface, count: int)
    ensures CountsHold(counts, counts[s := count]) <==> count <= if s in counts then counts[s] else 0
  {
    var now := counts[s := count];
    assert (if s in now then now[s] else 0) == count;
    forall k | k != s ensures (if k in now then now[k] else 0) == if k in counts then counts[k] else 0 {
    }
  }

  /** A count has no slack: any growth regresses, and a caveat is not gated by its count. */
  lemma ConfirmedFindingsRegressIff(canonical: string -> string, run: Run, count: int)
    ensures Regressed(DiffRuns(canonical, run, run.(metrics := run.metrics.(confirmedFindings := count))))
       <==> count > run.metrics.confirmedFindings
  {
    OnlyNumbersMatter(canonical, run, run.metrics.(confirmedFindings := count));
  }

  lemma ResidueRegressesIff(canonical: string -> string, run: Run, s: Surface, count: int)
    ensures
      var residue := run.metrics.erasureResidue;
      Regressed(DiffRuns(canonical, run, run.(metrics := run.metrics.(erasureResidue := residue[s := count])))) <==>
        count > if s in residue then residue[s] else 0
  {
    var residue := run.metrics.erasureResidue;
    OnlyNumbersMatter(canonical, run, run.metrics.(erasureResidue := residue[s := count]));
    OneMoreCount(residue, s, count);
  }

  lemma CaveatsNeverRegress(canonical: string -> string, run: Run, s: Surface, count: int)
    ensures
      var metrics := run.metrics.(erasureCaveats := run.metrics.erasureCaveats[s := count]);
      !Regressed(DiffRuns(canonical, run, run.(metrics := metrics)))
  {
    var metrics := run.metrics.(erasureCaveats := run.metrics.erasureCaveats[s := count]);
    OnlyNumbersMatter(canonical, run, metrics);
  }

  /** Losing what was live: a surface that was live and no longer is, whether its provenance is
      gone or now says it was a fake, is a regression by itself. */
  lemma LosingLiveRegresses(canonical: string -> string, earlier: Run, later: Run, s: Surface)
    requires s in earlier.provenance && earlier.provenance[s] == Live
    requires s in later.provenance ==> later.provenance[s] != Live
    ensures Regressed(DiffRuns(canonical, earlier, later))
  {
    NoRegressionIff(canonical, earlier, later);
    assert s in LiveSurfaces(earlier) && s !in LiveSurfaces(later);
  }

  /** So is a probe that left any trace before - in the bookkeeping or in a finding - and none now. */
  lemma LosingAProbeRegresses(canonical: string -> string, earlier: Run, later: Run, p: ProbeId)
    requires p in earlier.probeVersions || exists f :: f in earlier.findings && f.probeId == p
    requires p !in later.probeVersions && forall f | f in later.findings :: f.probeId != p
    ensures Regressed(DiffRuns(canonical, earlier, later))
  {
    NoRegressionIff(canonical, earlier, later);
    assert p in Exercised(earlier) && p !in Exercised(later);
  }

  /** The severities above one. */
  function Above(s: Severity): set<Severity> {
    match s
    case Info => {Low, Medium, High, Critical}
    case Low => {Medium, High, Critical}
    case Medium => {High, Critical}
    case High => {Critical}
    case Critical => {}
  }

  lemma OneFindingQuietIff(f: Finding, severity: Severity)
    requires f.status == Confirmed
    ensures Quiet([f], [f.(severity := severity)]) <==> severity !in Above(f.severity)
  {
    var later := [f.(severity := severity)];
    FindingDiffLaws.QuietIffKnown([f], later);
    assert FindingDiffLaws.Known([f], later[0]) <==> severity !in Above(f.severity) by {
      assert f in [f];
    }
  }

  /** A run of the same probes regresses on its findings alone. */
  lemma OnlyFindingsMatter(canonical: string -> string, run: Run, findings: seq<Finding>)
    requires Exercised(run) == Exercised(run.(findings := findings))
    ensures Regressed(DiffRuns(canonical, run, run.(findings := findings))) <==> !Quiet(run.findings, findings)
  {
    NoRegressionIff(canonical, run, run.(findings := findings));
  }

  lemma SameProbe(run: Run, f: Finding, g: Finding)
    requires run.findings == [f] && g.probeId == f.probeId
    ensures Exercised(run) == Exercised(run.(findings := [g]))
  {
    assert f in run.findings && g in [g];
  }

  /** A record of one confirmed finding, and the same with another severity: a regression
      exactly where it is a higher one. */
  lemma SeverityRegressesIff(canonical: string -> string, run: Run, f: Finding, severity: Severity)
    requires run.findings == [f] && f.status == Confirmed
    ensures Regressed(DiffRuns(canonical, run, run.(findings := [f.(severity := severity)]))) <==>
              severity in Above(f.severity)
  {
    SameProbe(run, f, f.(severity := severity));
    OnlyFindingsMatter(canonical, run, [f.(severity := severity)]);
    OneFindingQuietIff(f, severity);
  }

  // ---------- Every line of the comparison ----------

  ghost predicate Reports(deltas: set<Delta>, name: MetricName, before: real, after: real) {
    exists d :: d in deltas && d.name == name && d.baseline == before && d.current == after
  }

  lemma DictReports<K(!new)>(
    deltas: set<Delta>, name: K -> MetricName, before: map<K, real>, after: map<K, real>, informational: bool,
    absentWhenClean: bool, bounded: set<K>, k: K)
    requires DictDeltas(name, before, after, informational, absentWhenClean, bounded) <= deltas
    requires k in before || k in after
    ensures Reports(deltas, name(k), ValueAt(before, k), ValueAt(after, k))
  {
    assert k in before.Keys + after.Keys;
    var d := Delta(name(k), At(before, k), At(after, k), informational,
                   !absentWhenClean && k in before && k !in after, k in bounded);
    assert d in DictDeltas(name, before, after, informational, absentWhenClean, bounded);
  }

  function CountAt<K(==)>(m: map<K, int>, k: K): real {
    if k in m then m[k] as real else 0.0
  }

  lemma ExpandedIsCompared(before: Metrics, after: Metrics)
    ensures DictDeltas(ModelName, before.rateByModel, after.rateByModel, false, false, {})
         <= CompareMetrics(before, after)
    ensures DictDeltas(ProbeName, AsReals(before.perProbeFindings), AsReals(after.perProbeFindings), false, true, {})
         <= CompareMetrics(before, after)
    ensures DictDeltas(ResidueName, AsReals(before.erasureResidue), AsReals(after.erasureResidue), false, false, {})
         <= CompareMetrics(before, after)
    ensures DictDeltas(PairName, before.effectSizes, after.effectSizes, false, false,
                       before.varianceFloored + after.varianceFloored)
         <= CompareMetrics(before, after)
    ensures DictDeltas(CaveatName, AsReals(before.erasureCaveats), AsReals(after.erasureCaveats), true, false, {})
         <= CompareMetrics(before, after)
  {
  }

  /** The comparison reports every surface that either record has a number for, with both
      numbers and zero for an absent one - caveats too, though they gate nothing. */
  lemma EverySurfaceIsReported(before: Metrics, after: Metrics, s: Surface)
    ensures
      var deltas := CompareMetrics(before, after);
      && (s in before.erasureResidue || s in after.erasureResidue ==>
            Reports(deltas, Residue(s), CountAt(before.erasureResidue, s), CountAt(after.erasureResidue, s)))
      && (s in before.erasureCaveats || s in after.erasureCaveats ==>
            Reports(deltas, Caveats(s), CountAt(before.erasureCaveats, s), CountAt(after.erasureCaveats, s)))
  {
    var deltas := CompareMetrics(before, after);
    ExpandedIsCompared(before, after);
    if s in before.erasureResidue || s in after.erasureResidue {
      DictReports(deltas, ResidueName, AsReals(before.erasureResidue), AsReals(after.erasureResidue),
                  false, false, {}, s);
    }
    if s in before.erasureCaveats || s in after.erasureCaveats {
      DictReports(deltas, CaveatName, AsReals(before.erasureCaveats), AsReals(after.erasureCaveats),
                  true, false, {}, s);
    }
  }

  /** And so every model, probe and pair. */
  lemma EveryNameIsReported(before: Metrics, after: Metrics, name: string)
    ensures
      var deltas := CompareMetrics(before, after);
      && (name in before.rateByModel || name in after.rateByModel ==>
            Reports(deltas, ByModel(name), ValueAt(before.rateByModel, name), ValueAt(after.rateByModel, name)))
      && (name in before.perProbeFindings || name in after.perProbeFindings ==>
            Reports(deltas, PerProbe(name), CountAt(before.perProbeFindings, name),
                    CountAt(after.perProbeFindings, name)))
      && (name in before.effectSizes || name in after.effectSizes ==>
            Reports(deltas, EffectSize(name), ValueAt(before.effectSizes, name), ValueAt(after.effectSizes, name)))
  {
    var deltas := CompareMetrics(before, after);
    ExpandedIsCompared(before, after);
    if name in before.rateByModel || name in after.rateByModel {
      DictReports(deltas, ModelName, before.rateByModel, after.rateByModel, false, false, {}, name);
    }
    if name in before.perProbeFindings || name in after.perProbeFindings {
      DictReports(deltas, ProbeName, AsReals(before.perProbeFindings), AsReals(after.perProbeFindings),
                  false, true, {}, name);
    }
    if name in before.effectSizes || name in after.effectSizes {
      DictReports(deltas, PairName, before.effectSizes, after.effectSizes, false, false,
                  before.varianceFloored + after.varianceFloored, name);
    }
  }
}
