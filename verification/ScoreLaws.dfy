/** What the scorecard's rules promise, proved of every record: what caps a letter, what an
    A means, and which changes to a record can and cannot improve its letter. */
module ScoreLaws {
  import opened Labels
  import opened Records
  import opened Score
  import opened Wrappers

  /** A confirmed finding of this class that the record does not place on a withheld fake. */
  ghost predicate AtFault(entry: CatalogClass, run: Run) {
    exists f | f in run.findings :: InClass(entry, f) && BackingSurface(f) !in Withheld(run)
  }

  /** A confirmed finding of this class on a surface that counts: recorded and not withheld,
      or anywhere when the record has no provenance at all. */
  ghost predicate Attributable(entry: CatalogClass, run: Run) {
    exists f | f in run.findings ::
      && InClass(entry, f) && BackingSurface(f) !in Withheld(run)
      && (run.provenance == map[] || BackingSurface(f) in run.provenance)
  }

  /** The class's own slot, as the run exercised it, is one the scorecard may speak about. */
  ghost predicate Placeable(entry: CatalogClass, run: Run) {
    var backing := AcceptedSurfaces(Ran(entry, run)) * run.provenance.Keys;
    && Ran(entry, run) != {}
    && (run.provenance != map[] ==> backing != {} && !(backing <= Withheld(run)))
  }

  /** What the proofs need of a catalog: every probe has a surface, no two classes share a
      probe, and every band weighs something and caps at C or worse. */
  ghost predicate GoodCatalog(catalog: seq<CatalogClass>) {
    && (forall i, p | 0 <= i < |catalog| && p in catalog[i].probes :: ProbeSurfaces(p) != {})
    && (forall i, j | 0 <= i < j < |catalog| :: catalog[i].probes !! catalog[j].probes)
    && (forall i | 0 <= i < |catalog| :: catalog[i].severity in {Medium, High, Critical})
  }

  /** The position of the one class a probe belongs to. */
  function ClassOf(p: ProbeId): Option<nat> {
    match p
    case TenantBoundaryFetch => Some(0)
    case RagEntityBleed => Some(1)
    case RagPipelineBleed => Some(1)
    case RagPoisoning => Some(2)
    case SemanticCacheContamination => Some(3)
    case KvCacheTiming => Some(4)
    case EmbeddingInversion => Some(5)
    case AgentToolHijack => Some(6)
    case AgentFrameworkHijack => Some(6)
    case MemoryContamination => Some(7)
    case LoraCrossTenant => Some(8)
    case IkeaExtraction => Some(9)
    case MultimodalRagBleed => Some(10)
    case _ => None
  }

  lemma ClassOfIsTheClass(p: ProbeId, i: nat)
    requires i < |CATALOG|
    ensures p in CATALOG[i].probes <==> ClassOf(p) == Some(i)
    ensures CATALOG[i].severity in {Medium, High, Critical}
    ensures CATALOG[i].id == 2 <==> i == 1
  {
  }

  lemma GoodIfIndexed(catalog: seq<CatalogClass>)
    requires forall i, p | 0 <= i < |catalog| :: p in catalog[i].probes <==> ClassOf(p) == Some(i)
    requires forall i | 0 <= i < |catalog| :: catalog[i].severity in {Medium, High, Critical}
    ensures GoodCatalog(catalog)
  {
    forall i, p | 0 <= i < |catalog| && p in catalog[i].probes ensures ProbeSurfaces(p) != {} {
      assert ClassOf(p).Some?;
    }
    forall i, j | 0 <= i < j < |catalog| ensures catalog[i].probes !! catalog[j].probes {
      forall p | p in catalog[i].probes ensures p !in catalog[j].probes {
        assert ClassOf(p) == Some(i);
      }
    }
  }

  lemma CatalogIsGood()
    ensures GoodCatalog(CATALOG)
  {
    forall i, p | 0 <= i < |CATALOG| ensures p in CATALOG[i].probes <==> ClassOf(p) == Some(i) {
      ClassOfIsTheClass(p, i);
    }
    forall i | 0 <= i < |CATALOG| ensures CATALOG[i].severity in {Medium, High, Critical} {
      ClassOfIsTheClass(TenantBoundaryFetch, i);
    }
    GoodIfIndexed(CATALOG);
  }

  // ---------- Counting ----------

  lemma {:induction false} CountPositive(findings: seq<Finding>, entry: CatalogClass, surfaces: set<Surface>)
    ensures Count(findings, entry, surfaces) > 0
       <==> exists f | f in findings :: InClass(entry, f) && BackingSurface(f) in surfaces
  {
    if findings != [] {
      CountPositive(findings[1..], entry, surfaces);
      assert findings == [findings[0]] + findings[1..];
    }
  }

  lemma {:induction false} CountSplit(
    findings: seq<Finding>, entry: CatalogClass, whole: set<Surface>, part: set<Surface>)
    requires part <= whole
    ensures Count(findings, entry, whole)
         == Count(findings, entry, part) + Count(findings, entry, whole - part)
  {
    if findings != [] {
      CountSplit(findings[1..], entry, whole, part);
    }
  }

  lemma EverySurface(s: Surface)
    ensures s in ALL_SURFACES
  {
  }

  lemma KeysLessWithheld(run: Run)
    ensures ALL_SURFACES - Withheld(run) - (ALL_SURFACES - run.provenance.Keys)
         == run.provenance.Keys - Withheld(run)
  {
    forall s | s in run.provenance.Keys - Withheld(run) ensures s in ALL_SURFACES {
      EverySurface(s);
    }
  }

  /** The subtraction of counts leaves exactly the findings that are attributable. */
  lemma CountsDecide(entry: CatalogClass, run: Run)
    ensures
      var w, unattributed := Withheld(run), UnattributedInClass(entry, run);
      var confirmed := ConfirmedInClass(entry, run) - Count(run.findings, entry, w) - unattributed;
      && confirmed >= 0
      && (confirmed != 0 <==> Attributable(entry, run))
      && (AtFault(entry, run) <==> confirmed != 0 || unattributed != 0)
  {
    var w := Withheld(run);
    forall s | s in w ensures s in ALL_SURFACES {
      EverySurface(s);
    }
    CountSplit(run.findings, entry, ALL_SURFACES, w);
    CountPositive(run.findings, entry, ALL_SURFACES - w);
    if run.provenance != map[] {
      var unrecorded := ALL_SURFACES - run.provenance.Keys;
      assert unrecorded <= ALL_SURFACES - w;
      CountSplit(run.findings, entry, ALL_SURFACES - w, unrecorded);
      KeysLessWithheld(run);
      CountPositive(run.findings, entry, run.provenance.Keys - w);
      CountPositive(run.findings, entry, unrecorded);
    }
  }

  lemma RanHasSurfaces(entry: CatalogClass, run: Run)
    requires forall p | p in entry.probes :: ProbeSurfaces(p) != {}
    requires Ran(entry, run) != {}
    ensures AcceptedSurfaces(Ran(entry, run)) != {}
  {
    var p :| p in Ran(entry, run);
    var s :| s in ProbeSurfaces(p);
    assert s in AcceptedSurfaces(Ran(entry, run));
  }

  /** The class's verdict in closed form: the slot rules come first, then whether any
      attributable finding is left. A class with a finding at fault never passes. */
  lemma VerdictClosedForm(entry: CatalogClass, run: Run)
    requires forall p | p in entry.probes :: ProbeSurfaces(p) != {}
    requires ScoreClass(entry, run, Withheld(run)).Ok?
    ensures
      var c := ScoreClass(entry, run, Withheld(run)).value;
      && c.severity == entry.severity
      && (c.verdict == Fail <==> Placeable(entry, run) && Attributable(entry, run))
      && (c.verdict == Pass <==> Placeable(entry, run) && !AtFault(entry, run))
  {
    CountsDecide(entry, run);
    if Ran(entry, run) != {} {
      RanHasSurfaces(entry, run);
    }
  }

  /** A run is refused for its counts exactly when class 2 would have been graded. */
  lemma RefusedForCounts(entry: CatalogClass, run: Run)
    requires forall p | p in entry.probes :: ProbeSurfaces(p) != {}
    ensures ScoreClass(entry, run, Withheld(run)).Err?
       <==> entry.id == 2 && run.metrics.pivotK > run.metrics.pivotN && Placeable(entry, run) &&
            (AtFault(entry, run) ==> Attributable(entry, run))
  {
    CountsDecide(entry, run);
    if Ran(entry, run) != {} {
      RanHasSurfaces(entry, run);
    }
  }

  // ---------- What caps the letter ----------

  /** A finding at fault always caps: its class is either failed or left ungraded, and an
      ungraded class caps by the same findings. Nothing else does. */
  lemma CappingIffAtFault(entry: CatalogClass, run: Run)
    requires forall p | p in entry.probes :: ProbeSurfaces(p) != {}
    requires ScoreClass(entry, run, Withheld(run)).Ok?
    ensures Capping(run, entry, ScoreClass(entry, run, Withheld(run)).value) <==> AtFault(entry, run)
  {
    VerdictClosedForm(entry, run);
    CountsDecide(entry, run);
    if AtFault(entry, run) {
      var f :| f in run.findings && InClass(entry, f) && BackingSurface(f) !in Withheld(run);
      assert f.probeId in Ran(entry, run);
    }
  }

  /** `band` is the worst of the bands of the classes among `entries` holding a finding at
      fault; `None` when there is none. */
  ghost predicate IsWorstBandAtFault(band: Option<Severity>, entries: seq<CatalogClass>, run: Run) {
    && (band.None? ==> forall e | e in entries :: !AtFault(e, run))
    && (band.Some? ==>
          && (exists e | e in entries :: AtFault(e, run) && e.severity == band.value)
          && (forall e | e in entries && AtFault(e, run) :: e.severity.Rank() <= band.value.Rank()))
  }

  lemma {:induction false} CapClosedForm(run: Run, entries: seq<CatalogClass>, classes: seq<ClassScore>)
    requires |entries| == |classes|
    requires forall i, p | 0 <= i < |entries| && p in entries[i].probes :: ProbeSurfaces(p) != {}
    requires forall i | 0 <= i < |entries| :: ScoreClass(entries[i], run, Withheld(run)) == Ok(classes[i])
    ensures IsWorstBandAtFault(CappedBy(run, entries, classes), entries, run)
  {
    if entries != [] {
      var n := |entries| - 1;
      CapClosedForm(run, entries[..n], classes[..n]);
      CappingIffAtFault(entries[n], run);
      assert entries == entries[..n] + [entries[n]];
    }
  }

  // ---------- What a letter means ----------

  function PassedOf(c: ClassScore): nat {
    if c.verdict == Pass then Weight(c.severity) else 0
  }

  function CoveredOf(c: ClassScore): nat {
    if c.verdict == NotGraded then 0 else Weight(c.severity)
  }

  lemma {:induction false} PassedAtMostCovered(classes: seq<ClassScore>)
    ensures PassedWeight(classes) <= CoveredWeight(classes)
    ensures (forall c | c in classes :: c.verdict != Fail) ==> PassedWeight(classes) == CoveredWeight(classes)
  {
    if classes != [] {
      PassedAtMostCovered(classes[1..]);
    }
  }

  /** Everything a scorecard is made of: each class's own verdict, the cap in closed form, and
      the letter as the worse of the weighted grade and the cap. */
  ghost predicate Scored(catalog: seq<CatalogClass>, run: Run, card: Scorecard) {
    && |card.classes| == |catalog|
    && (forall i | 0 <= i < |catalog| :: ScoreClass(catalog[i], run, Withheld(run)) == Ok(card.classes[i]))
    && card.passed == PassedWeight(card.classes) && card.covered == CoveredWeight(card.classes)
    && 0 < card.covered
    && IsWorstBandAtFault(card.cappedBy, catalog, run)
    && card.grade == FinalGrade(GradeFor(card.passed, card.covered), card.cappedBy)
  }

  lemma ClassesAreScores(catalog: seq<CatalogClass>, run: Run, classes: seq<ClassScore>)
    requires ScoreClasses(catalog, run) == Ok(classes)
    ensures |classes| == |catalog|
    ensures forall i | 0 <= i < |catalog| :: ScoreClass(catalog[i], run, Withheld(run)) == Ok(classes[i])
  {
  }

  lemma CapOfClasses(catalog: seq<CatalogClass>, run: Run, classes: seq<ClassScore>)
    requires GoodCatalog(catalog) && ScoreClasses(catalog, run) == Ok(classes)
    ensures |classes| == |catalog| && IsWorstBandAtFault(CappedBy(run, catalog, classes), catalog, run)
  {
    ClassesAreScores(catalog, run, classes);
    CapClosedForm(run, catalog, classes);
  }

  lemma ScorecardParts(run: Run)
    requires ScoreRun(run).Ok?
    ensures GoodCatalog(CATALOG) && Scored(CATALOG, run, ScoreRun(run).value)
  {
    CatalogIsGood();
    ClassesAreScores(CATALOG, run, ScoreRun(run).value.classes);
    CapOfClasses(CATALOG, run, ScoreRun(run).value.classes);
  }

  ghost predicate Clean(catalog: seq<CatalogClass>, run: Run) {
    forall e | e in catalog :: !AtFault(e, run)
  }

  lemma CleanMeansFullMarks(catalog: seq<CatalogClass>, run: Run, card: Scorecard)
    requires GoodCatalog(catalog) && Scored(catalog, run, card) && Clean(catalog, run)
    ensures card.passed == card.covered && card.grade == A && card.cappedBy == None
  {
    forall c | c in card.classes ensures c.verdict != Fail {
      var i :| 0 <= i < |card.classes| && card.classes[i] == c;
      assert catalog[i] in catalog;
      VerdictClosedForm(catalog[i], run);
    }
    PassedAtMostCovered(card.classes);
  }

  /** The cap is some catalog band, and no better than that of any class at fault. */
  lemma CapBoundsBand(catalog: seq<CatalogClass>, run: Run, band: Option<Severity>, e: CatalogClass)
    requires GoodCatalog(catalog) && IsWorstBandAtFault(band, catalog, run)
    requires e in catalog && AtFault(e, run)
    ensures band.Some? && e.severity in {Medium, High, Critical} && band.value in {Medium, High, Critical}
    ensures e.severity.Rank() <= band.value.Rank()
  {
    var worst :| worst in catalog && worst.severity == band.value;
  }

  lemma LetterUnderBand(weighted: Grade, band: Severity, s: Severity)
    requires s in {Medium, High, Critical} && band in {Medium, High, Critical} && s.Rank() <= band.Rank()
    ensures FinalGrade(weighted, Some(band)) !in {A, B}
    ensures Cap(s).Some? && Cap(s).value.Rank() <= FinalGrade(weighted, Some(band)).Rank()
  {
  }

  lemma FaultCapsAtItsBand(catalog: seq<CatalogClass>, run: Run, card: Scorecard, e: CatalogClass)
    requires GoodCatalog(catalog) && Scored(catalog, run, card)
    requires e in catalog && AtFault(e, run)
    ensures card.cappedBy.Some? && card.grade !in {A, B}
    ensures Cap(e.severity).Some? && Cap(e.severity).value.Rank() <= card.grade.Rank()
  {
    CapBoundsBand(catalog, run, card.cappedBy, e);
    LetterUnderBand(GradeFor(card.passed, card.covered), card.cappedBy.value, e.severity);
  }

  /** An A is exactly a record with no confirmed finding outside the withheld fakes; any such
      finding holds the letter at its band's cap or worse; and a B is never given. */
  lemma LetterMeaning(run: Run)
    requires ScoreRun(run).Ok?
    ensures
      var card := ScoreRun(run).value;
      && (card.grade == A <==> Clean(CATALOG, run))
      && (card.cappedBy == None <==> Clean(CATALOG, run))
      && IsWorstBandAtFault(card.cappedBy, CATALOG, run)
      && (forall e | e in CATALOG && AtFault(e, run) ::
            Cap(e.severity).Some? && Cap(e.severity).value.Rank() <= card.grade.Rank())
      && card.grade != B
  {
    ScorecardParts(run);
    LetterMeaningFor(CATALOG, run, ScoreRun(run).value);
  }

  lemma LetterMeaningFor(catalog: seq<CatalogClass>, run: Run, card: Scorecard)
    requires GoodCatalog(catalog) && Scored(catalog, run, card)
    ensures card.grade == A <==> Clean(catalog, run)
    ensures card.cappedBy == None <==> Clean(catalog, run)
    ensures forall e | e in catalog && AtFault(e, run) ::
              Cap(e.severity).Some? && Cap(e.severity).value.Rank() <= card.grade.Rank()
    ensures card.grade != B
  {
    if Clean(catalog, run) {
      CleanMeansFullMarks(catalog, run, card);
    } else {
      forall e | e in catalog && AtFault(e, run)
        ensures card.cappedBy.Some? && card.grade !in {A, B}
        ensures Cap(e.severity).Some? && Cap(e.severity).value.Rank() <= card.grade.Rank()
      {
        FaultCapsAtItsBand(catalog, run, card, e);
      }
    }
  }

  // ---------- Changes to a record ----------

  /** The only verdict changes that can raise the weighted score are excluded: nothing else
      becomes a pass, and no failed class leaves the denominator. */
  predicate NoBetter(c: Verdict, d: Verdict) {
    && (d == Pass ==> c == Pass)
    && (c == Fail ==> d == Fail)
  }

  lemma {:induction false} SumsWithOneChanged(cs: seq<ClassScore>, ds: seq<ClassScore>, j: nat)
    requires |cs| == |ds| && j < |cs|
    requires forall i | 0 <= i < |cs| && i != j ::
               cs[i].verdict == ds[i].verdict && cs[i].severity == ds[i].severity
    ensures PassedWeight(ds) == PassedWeight(cs) - PassedOf(cs[j]) + PassedOf(ds[j])
    ensures CoveredWeight(ds) == CoveredWeight(cs) - CoveredOf(cs[j]) + CoveredOf(ds[j])
  {
    if j > 0 {
      SumsWithOneChanged(cs[1..], ds[1..], j - 1);
    } else {
      SumsOfEqualVerdicts(cs[1..], ds[1..]);
    }
  }

  lemma {:induction false} SumsOfEqualVerdicts(cs: seq<ClassScore>, ds: seq<ClassScore>)
    requires |cs| == |ds|
    requires forall i | 0 <= i < |cs| ::
               cs[i].verdict == ds[i].verdict && cs[i].severity == ds[i].severity
    ensures PassedWeight(ds) == PassedWeight(cs) && CoveredWeight(ds) == CoveredWeight(cs)
  {
    if cs != [] {
      SumsOfEqualVerdicts(cs[1..], ds[1..]);
    }
  }

  /** Dropping a passed weight from both terms, from the numerator alone, or adding to the
      denominator alone never raises the fraction's grade. */
  lemma WeightedGradeNoBetter(passed: nat, covered: nat, p: nat, c: nat, w: nat)
    requires passed <= covered
    requires || (p == passed && c == covered)
             || (p == passed - w && c == covered)
             || (p == passed - w && c == covered - w)
             || (p == passed && c == covered + w)
    ensures GradeFor(passed, covered).Rank() <= GradeFor(p, c).Rank()
  {
  }

  lemma FinalGradeMonotone(g: Grade, band: Option<Severity>, g': Grade, band': Option<Severity>)
    requires g.Rank() <= g'.Rank()
    requires band.Some? ==> band'.Some? && band.value.Rank() <= band'.value.Rank()
    ensures FinalGrade(g, band).Rank() <= FinalGrade(g', band').Rank()
  {
  }

  /** Where bands at fault only accumulate, the cap only worsens. */
  lemma CapNoBetter(catalog: seq<CatalogClass>, run: Run, run': Run, band: Option<Severity>, band': Option<Severity>)
    requires IsWorstBandAtFault(band, catalog, run) && IsWorstBandAtFault(band', catalog, run')
    requires forall e | e in catalog && AtFault(e, run) :: AtFault(e, run')
    ensures band.Some? ==> band'.Some? && band.value.Rank() <= band'.value.Rank()
  {
  }

  function WithFinding(run: Run, at: nat, f: Finding): Run
    requires at <= |run.findings|
  {
    run.(findings := run.findings[..at] + [f] + run.findings[at..])
  }

  lemma FindingsAfterInsert(run: Run, at: nat, f: Finding)
    requires at <= |run.findings|
    ensures forall g :: g in WithFinding(run, at, f).findings <==> g == f || g in run.findings
  {
    assert run.findings == run.findings[..at] + run.findings[at..];
  }

  lemma OtherClassUnmoved(entry: CatalogClass, run: Run, at: nat, f: Finding)
    requires at <= |run.findings| && f.probeId !in entry.probes
    ensures var run' := WithFinding(run, at, f);
            && Ran(entry, run') == Ran(entry, run)
            && (AtFault(entry, run') <==> AtFault(entry, run))
            && (Attributable(entry, run') <==> Attributable(entry, run))
  {
    FindingsAfterInsert(run, at, f);
  }

  /** One class gains a confirmed finding outside the withheld fakes: it fails, or is left
      ungraded where it was not failed before. */
  lemma OwnClassNoBetter(entry: CatalogClass, run: Run, at: nat, f: Finding)
    requires forall p | p in entry.probes :: ProbeSurfaces(p) != {}
    requires at <= |run.findings| && InClass(entry, f) && BackingSurface(f) !in Withheld(run)
    requires ScoreClass(entry, run, Withheld(run)).Ok?
    requires ScoreClass(entry, WithFinding(run, at, f), Withheld(run)).Ok?
    ensures AtFault(entry, WithFinding(run, at, f))
    ensures NoBetter(ScoreClass(entry, run, Withheld(run)).value.verdict,
                     ScoreClass(entry, WithFinding(run, at, f), Withheld(run)).value.verdict)
  {
    var run' := WithFinding(run, at, f);
    FindingsAfterInsert(run, at, f);
    VerdictClosedForm(entry, run);
    VerdictClosedForm(entry, run');
    assert f in run'.findings;
    assert Ran(entry, run) <= Ran(entry, run');
    assert AcceptedSurfaces(Ran(entry, run)) <= AcceptedSurfaces(Ran(entry, run'));
  }

  lemma OnlyOwnClassMoves(
    catalog: seq<CatalogClass>, run: Run, at: nat, f: Finding, j: nat, card: Scorecard, card': Scorecard)
    requires GoodCatalog(catalog) && j < |catalog| && f.probeId in catalog[j].probes
    requires at <= |run.findings| && f.status == Confirmed && BackingSurface(f) !in Withheld(run)
    requires Scored(catalog, run, card) && Scored(catalog, WithFinding(run, at, f), card')
    ensures forall i | 0 <= i < |catalog| && i != j ::
              card.classes[i].verdict == card'.classes[i].verdict
    ensures forall i | 0 <= i < |catalog| :: card.classes[i].severity == card'.classes[i].severity
    ensures card.classes[j].severity == catalog[j].severity
    ensures NoBetter(card.classes[j].verdict, card'.classes[j].verdict)
    ensures forall e | e in catalog && AtFault(e, run) :: AtFault(e, WithFinding(run, at, f))
  {
    var run' := WithFinding(run, at, f);
    forall i | 0 <= i < |catalog|
      ensures i != j ==> card.classes[i].verdict == card'.classes[i].verdict
      ensures card.classes[i].severity == card'.classes[i].severity == catalog[i].severity
    {
      VerdictClosedForm(catalog[i], run);
      VerdictClosedForm(catalog[i], run');
      if i != j {
        assert catalog[i].probes !! catalog[j].probes;
        OtherClassUnmoved(catalog[i], run, at, f);
      }
    }
    OwnClassNoBetter(catalog[j], run, at, f);
    FindingsAfterInsert(run, at, f);
  }

  lemma MoreEvidenceNoBetterFor(
    catalog: seq<CatalogClass>, run: Run, at: nat, f: Finding, j: nat, card: Scorecard, card': Scorecard)
    requires GoodCatalog(catalog) && j < |catalog| && f.probeId in catalog[j].probes
    requires at <= |run.findings| && f.status == Confirmed && BackingSurface(f) !in Withheld(run)
    requires Scored(catalog, run, card) && Scored(catalog, WithFinding(run, at, f), card')
    ensures card.grade.Rank() <= card'.grade.Rank()
  {
    var run' := WithFinding(run, at, f);
    OnlyOwnClassMoves(catalog, run, at, f, j, card, card');
    SumsWithOneChanged(card.classes, card'.classes, j);
    PassedAtMostCovered(card.classes);
    WeightedGradeNoBetter(card.passed, card.covered, card'.passed, card'.covered,
                          Weight(catalog[j].severity));
    CapNoBetter(catalog, run, run', card.cappedBy, card'.cappedBy);
    FinalGradeMonotone(GradeFor(card.passed, card.covered), card.cappedBy,
                       GradeFor(card'.passed, card'.covered), card'.cappedBy);
  }

  /** Monotone grading: one more confirmed finding of a catalog probe, anywhere in the record,
      on a surface that is not withheld, never improves the letter. */
  lemma MoreEvidenceNoBetter(run: Run, at: nat, f: Finding)
    requires at <= |run.findings|
    requires f.status == Confirmed && BackingSurface(f) !in Withheld(run)
    requires ScoreRun(run).Ok? && ScoreRun(WithFinding(run, at, f)).Ok?
    ensures ScoreRun(run).value.grade.Rank() <= ScoreRun(WithFinding(run, at, f)).value.grade.Rank()
  {
    ScorecardParts(run);
    ScorecardParts(WithFinding(run, at, f));
    FindingsAfterInsert(run, at, f);
    assert f in WithFinding(run, at, f).findings;
    assert f.probeId in CatalogProbes();
    var j: nat :| j < |CATALOG| && f.probeId in CATALOG[j].probes;
    MoreEvidenceNoBetterFor(CATALOG, run, at, f, j,
                            ScoreRun(run).value, ScoreRun(WithFinding(run, at, f)).value);
  }

  ghost predicate Submap(small: map<Surface, Provenance>, large: map<Surface, Provenance>) {
    forall s | s in small :: s in large && small[s] == large[s]
  }

  lemma SubmapWithholdsLess(run: Run, run': Run)
    requires run' == run.(provenance := run'.provenance) && Submap(run'.provenance, run.provenance)
    ensures Withheld(run') <= Withheld(run)
    ensures forall e | AtFault(e, run) :: AtFault(e, run')
  {
    forall s | s in Withheld(run') ensures s in Withheld(run) {
      var t :| t in LiveSurfaces(run');
      assert t in LiveSurfaces(run);
    }
    forall e | AtFault(e, run) ensures AtFault(e, run') {
      var f :| f in run.findings && InClass(e, f) && BackingSurface(f) !in Withheld(run);
      assert f in run'.findings && BackingSurface(f) !in Withheld(run');
    }
  }

  lemma DeletingFor(catalog: seq<CatalogClass>, run: Run, run': Run, card: Scorecard, card': Scorecard)
    requires GoodCatalog(catalog) && Scored(catalog, run, card) && Scored(catalog, run', card')
    requires forall e | AtFault(e, run) :: AtFault(e, run')
    ensures card.cappedBy.Some? ==>
              card'.cappedBy.Some? && card.cappedBy.value.Rank() <= card'.cappedBy.value.Rank()
    ensures FinalGrade(A, card.cappedBy).Rank() <= card'.grade.Rank()
    ensures card.grade != A ==> card'.grade != A
    ensures card'.grade.Rank() < card.grade.Rank() ==>
              FinalGrade(A, card.cappedBy).Rank() < GradeFor(card.passed, card.covered).Rank()
  {
    CapNoBetter(catalog, run, run', card.cappedBy, card'.cappedBy);
    LetterMeaningFor(catalog, run, card);
    LetterMeaningFor(catalog, run', card');
    FinalGradeMonotone(A, card.cappedBy, GradeFor(card'.passed, card'.covered), card'.cappedBy);
  }

  /** Deleting provenance keys - any of them - never lifts the cap, and leaves the letter no
      better than the old cap: no other letter becomes an A, and the letter can improve only
      where the weighted grade, not the cap, had decided it. */
  lemma DeletingProvenanceNeverLiftsTheCap(run: Run, run': Run)
    requires run' == run.(provenance := run'.provenance) && Submap(run'.provenance, run.provenance)
    requires ScoreRun(run).Ok? && ScoreRun(run').Ok?
    ensures
      var card, card' := ScoreRun(run).value, ScoreRun(run').value;
      && (card.cappedBy.Some? ==>
            card'.cappedBy.Some? && card.cappedBy.value.Rank() <= card'.cappedBy.value.Rank())
      && FinalGrade(A, card.cappedBy).Rank() <= card'.grade.Rank()
      && (card.grade != A ==> card'.grade != A)
      && (card'.grade.Rank() < card.grade.Rank() ==>
            FinalGrade(A, card.cappedBy).Rank() < GradeFor(card.passed, card.covered).Rank())
  {
    ScorecardParts(run);
    ScorecardParts(run');
    SubmapWithholdsLess(run, run');
    DeletingFor(CATALOG, run, run', ScoreRun(run).value, ScoreRun(run').value);
  }
}
