/** The published scale: thresholds as ratios, what each class weighs and caps at, and which
    probes each surface can speak for. */
module LetterFacts {
  import opened Letters
  import opened Records
  import opened RecordReadings
  import opened Score
  import opened ScoreLaws
  import opened Wrappers

  function Ratio(part: nat, whole: nat): real
    requires whole > 0
  {
    part as real / whole as real
  }

  lemma RatioAtLeast(part: nat, whole: nat, percent: nat)
    requires whole > 0
    ensures Ratio(part, whole) >= percent as real / 100.0 <==> 100 * part >= percent * whole
  {
    var r, p := Ratio(part, whole), percent as real / 100.0;
    assert r * whole as real == part as real;
    assert p * 100.0 == percent as real;
    if r >= p {
      assert (r - p) * whole as real >= 0.0;
      assert r * whole as real >= p * whole as real;
      assert 100.0 * (part as real) >= percent as real * whole as real;
    } else {
      assert (p - r) * whole as real > 0.0;
      assert p * whole as real > r * whole as real;
      assert 100.0 * (part as real) < percent as real * whole as real;
    }
  }

  /** Cross-multiplying whole weights decides as the published thresholds on the weighted score
      and on the coverage do. */
  lemma ThresholdsAreRatios(passed: nat, covered: nat, total: nat)
    requires covered > 0 && total > 0
    ensures
      var score := Ratio(passed, covered);
      GradeFor(passed, covered) ==
        if score >= 95.0 / 100.0 then A else if score >= 85.0 / 100.0 then B else if score >= 70.0 / 100.0 then C
        else if score >= 50.0 / 100.0 then D else F
    ensures
      var coverage := Ratio(covered, total);
      ConfidenceFor(covered, total) ==
        if coverage >= 85.0 / 100.0 then HighConfidence
        else if coverage >= 60.0 / 100.0 then MediumConfidence else LowConfidence
  {
    RatioAtLeast(passed, covered, 95);
    RatioAtLeast(passed, covered, 85);
    RatioAtLeast(passed, covered, 70);
    RatioAtLeast(passed, covered, 50);
    RatioAtLeast(covered, total, 85);
    RatioAtLeast(covered, total, 60);
  }

  // ---------- The bands ----------

  /** Probes whose leak shows foreign content in ordinary use. */
  const CRITICAL_PROBES: set<ProbeId> :=
    {TenantBoundaryFetch, RagEntityBleed, RagPipelineBleed, AgentToolHijack, AgentFrameworkHijack,
     MemoryContamination, MultimodalRagBleed}

  /** Probes whose leak takes an adversarial step or a derived surface. */
  const HIGH_PROBES: set<ProbeId> :=
    {RagPoisoning, SemanticCacheContamination, EmbeddingInversion, LoraCrossTenant, IkeaExtraction}

  lemma BandOfProbe(i: nat, p: ProbeId)
    requires i < |CATALOG| && p in CATALOG[i].probes
    ensures CATALOG[i].severity
         == if p in CRITICAL_PROBES then Critical else if p in HIGH_PROBES then High else Medium
    ensures p in CRITICAL_PROBES + HIGH_PROBES + {KvCacheTiming}
  {
  }

  /** The two bands no catalog class has. */
  lemma UnusedBands(i: nat)
    requires i < |CATALOG|
    ensures CATALOG[i].severity !in {Low, Info}
    ensures Weight(Low) == 1 && Cap(Low) == Some(B) && Weight(Info) == 0 && Cap(Info) == None
  {
  }

  lemma TotalStep(catalog: seq<CatalogClass>, k: nat)
    requires k < |catalog|
    ensures TotalWeight(catalog[k..]) == Weight(catalog[k].severity) + TotalWeight(catalog[k + 1..])
  {
    assert catalog[k..][1..] == catalog[k + 1..];
  }

  lemma TotalOfFour(catalog: seq<CatalogClass>, k: nat)
    requires k + 4 <= |catalog|
    ensures TotalWeight(catalog[k..])
         == Weight(catalog[k].severity) + Weight(catalog[k + 1].severity) + Weight(catalog[k + 2].severity)
            + Weight(catalog[k + 3].severity) + TotalWeight(catalog[k + 4..])
  {
    TotalStep(catalog, k);
    TotalStep(catalog, k + 1);
    TotalStep(catalog, k + 2);
    TotalStep(catalog, k + 3);
  }

  lemma TotalOfEleven(catalog: seq<CatalogClass>)
    requires |catalog| == 11
    requires forall i | 0 <= i < 11 ::
               catalog[i].severity == if i == 4 then Medium else if i in {2, 3, 5, 8, 9} then High else Critical
    ensures TotalWeight(catalog) == 41
  {
    assert catalog[0..] == catalog && catalog[11..] == [];
    TotalOfFour(catalog, 0);
    TotalOfFour(catalog, 4);
    TotalStep(catalog, 8);
    TotalStep(catalog, 9);
    TotalStep(catalog, 10);
  }

  lemma WholeCatalog()
    ensures TotalWeight(CATALOG) == 41
  {
    TotalOfEleven(CATALOG);
  }

  lemma {:induction false} AllCovered(entries: seq<CatalogClass>, classes: seq<ClassScore>)
    requires |entries| == |classes|
    requires forall i | 0 <= i < |entries| ::
               classes[i].severity == entries[i].severity && classes[i].verdict != NotGraded
    ensures CoveredWeight(classes) == TotalWeight(entries)
  {
    if entries != [] {
      AllCovered(entries[1..], classes[1..]);
    }
  }

  /** All classes of a run are graded, and the one in place `j` is the only one that fails. */
  ghost predicate OneFails(catalog: seq<CatalogClass>, run: Run, j: nat) {
    && j < |catalog| && Fails(catalog[j], run)
    && forall i | 0 <= i < |catalog| && i != j :: Passes(catalog[i], run)
  }

  lemma OneFailureWeights(catalog: seq<CatalogClass>, run: Run, card: Scorecard, j: nat)
    requires GoodCatalog(catalog) && Scored(catalog, run, card) && OneFails(catalog, run, j)
    ensures card.covered == TotalWeight(catalog)
    ensures card.passed + Weight(catalog[j].severity) == card.covered
    ensures card.cappedBy == Some(catalog[j].severity)
  {
    forall i | 0 <= i < |catalog|
      ensures card.classes[i].severity == catalog[i].severity
      ensures card.classes[i].verdict == if i == j then Fail else Pass
    {
      VerdictClosedForm(catalog[i], run);
    }
    AllCovered(catalog, card.classes);
    var clean := card.classes[j := card.classes[j].(verdict := Pass)];
    AllCovered(catalog, clean);
    PassedAtMostCovered(clean);
    SumsWithOneChanged(clean, card.classes, j);
    OnlyBandAtFault(catalog, run, card.cappedBy, j);
  }

  lemma OnlyBandAtFault(catalog: seq<CatalogClass>, run: Run, band: Option<Severity>, j: nat)
    requires IsWorstBandAtFault(band, catalog, run) && OneFails(catalog, run, j)
    ensures band == Some(catalog[j].severity)
  {
    assert catalog[j] in catalog && AtFault(catalog[j], run);
    forall e | e in catalog && AtFault(e, run) ensures e == catalog[j] {
      var i :| 0 <= i < |catalog| && catalog[i] == e;
    }
  }

  predicate CostsItsBand(card: Scorecard, p: ProbeId) {
    && card.covered == card.total == 41 && card.confidence == HighConfidence
    && (p in CRITICAL_PROBES ==> card.passed == 36 && card.grade == F)
    && (p in HIGH_PROBES ==> card.passed == 38 && card.grade == D)
    && (p == KvCacheTiming ==> card.passed == 40 && card.grade == C)
  }

  lemma LetterOfOneBand(card: Scorecard, p: ProbeId)
    requires card.covered == card.total == 41 && card.confidence == ConfidenceFor(41, 41)
    requires card.cappedBy.Some? && card.passed + Weight(card.cappedBy.value) == 41
    requires card.grade == FinalGrade(GradeFor(card.passed, card.covered), card.cappedBy)
    requires card.cappedBy.value
          == if p in CRITICAL_PROBES then Critical else if p in HIGH_PROBES then High else Medium
    ensures CostsItsBand(card, p)
  {
  }

  ghost predicate HasTotals(card: Scorecard, catalog: seq<CatalogClass>) {
    card.total == TotalWeight(catalog) && card.confidence == ConfidenceFor(card.covered, card.total)
  }

  ghost predicate IsCard(run: Run, entries: seq<CatalogClass>, card: Scorecard) {
    |entries| == |card.classes| && card == CardOf(run, entries, card.classes)
  }

  lemma TotalsOfCard(run: Run, entries: seq<CatalogClass>, card: Scorecard)
    requires IsCard(run, entries, card)
    ensures HasTotals(card, entries)
  {
  }

  lemma ScoreIsCard(run: Run, entries: seq<CatalogClass>)
    requires ScoreCatalog(run, entries).Ok?
    ensures IsCard(run, entries, ScoreCatalog(run, entries).value)
  {
  }

  /** What one failing class costs a run that covers the whole catalog, by any probe of the
      class: content that shows in ordinary use is an F and leaves 36 of 41, a leak that takes
      an adversary a D and 38, and a timing channel a C and 40. */
  lemma OneFailureLetter(run: Run, j: nat, p: ProbeId)
    requires ScoreRun(run).Ok? && OneFails(CATALOG, run, j) && p in CATALOG[j].probes
    ensures CostsItsBand(ScoreRun(run).value, p)
  {
    ScorecardParts(run);
    WholeCatalog();
    ScoreIsCard(run, CATALOG);
    TotalsOfCard(run, CATALOG, ScoreRun(run).value);
    OneFailureWeights(CATALOG, run, ScoreRun(run).value, j);
    BandOfProbe(j, p);
    LetterOfOneBand(ScoreRun(run).value, p);
  }

  // ---------- The slots ----------

  /** The probes each surface can speak for. */
  function ProbesOn(s: Surface): set<ProbeId> {
    match s
    case VectorDb | Api =>
      {TenantBoundaryFetch, RagEntityBleed, RagPoisoning, EmbeddingInversion, IkeaExtraction, MultimodalRagBleed}
    case RagPipeline => {RagPipelineBleed}
    case SemanticCache => {SemanticCacheContamination}
    case ModelAdapter => {KvCacheTiming, LoraCrossTenant}
    case Mcp => {AgentToolHijack}
    case AgentFramework => {AgentFrameworkHijack}
    case AgentMemory => {MemoryContamination}
    case _ => {}
  }

  /** On a run whose live surfaces are given, the classes that can be graded are exactly those
      with a probe that ran on one of them. */
  lemma PlacedBySurfaces(run: Run, e: CatalogClass)
    requires exists s :: IsLive(run, s)
    ensures Placeable(e, run) <==>
              exists p, s :: p in e.probes && ProbeRan(run, p) && p in ProbesOn(s) && IsLive(run, s)
  {
    PlaceableOnLive(run, e);
    forall p, s ensures s in ProbeSurfaces(p) <==> p in ProbesOn(s) {
      SlotBothWays(p, s);
    }
  }

  lemma SlotBothWays(p: ProbeId, s: Surface)
    ensures s in ProbeSurfaces(p) <==> p in ProbesOn(s)
  {
  }
}
