/** Records that show where the scorecard's monotonicity ends: deleting a provenance key, adding
    a finding on a withheld fake, or adding an unverified one, can each take an F to a D. */
module ScoreExamples {
  import opened Labels
  import opened Records
  import opened Score
  import opened ScoreLaws
  import opened Wrappers

  const POISONED := Finding("f-1", RagPoisoning, High, Confirmed, 1, 2, None, None, VectorDb)

  const BLED := Finding("f-2", RagEntityBleed, Critical, Confirmed, 1, 2, None, None, RagPipeline)

  lemma NotRan(entry: CatalogClass, run: Run)
    requires entry.probes !! Exercised(run)
    ensures ScoreClass(entry, run, Withheld(run)) == Ok(ClassScore(entry.severity, NotGraded, 0))
  {
    assert Ran(entry, run) == {};
  }

  lemma {:induction false} NothingGraded(classes: seq<ClassScore>)
    requires forall c | c in classes :: c.verdict == NotGraded
    ensures PassedWeight(classes) == CoveredWeight(classes) == 0
  {
    if classes != [] {
      NothingGraded(classes[1..]);
    }
  }

  lemma TwoGraded(classes: seq<ClassScore>, i: nat, j: nat)
    requires i < j < |classes|
    requires forall k | 0 <= k < |classes| && k != i && k != j :: classes[k].verdict == NotGraded
    ensures PassedWeight(classes) == PassedOf(classes[i]) + PassedOf(classes[j])
    ensures CoveredWeight(classes) == CoveredOf(classes[i]) + CoveredOf(classes[j])
  {
    var one := classes[j := classes[j].(verdict := NotGraded)];
    var none := one[i := one[i].(verdict := NotGraded)];
    NothingGraded(none);
    SumsWithOneChanged(none, one, i);
    SumsWithOneChanged(one, classes, j);
  }

  /** A record that grades exactly two classes of a catalog, named by their positions: their
      bands and verdicts; every other class did not run. */
  ghost predicate GradesTwo(
    catalog: seq<CatalogClass>, run: Run, i: nat, j: nat, a: Severity, b: Severity, v: Verdict, w: Verdict)
  {
    && i < j < |catalog| && catalog[i].severity == a && catalog[j].severity == b
    && HasVerdict(catalog[i], run, v) && HasVerdict(catalog[j], run, w) && w != NotGraded
    && forall k | 0 <= k < |catalog| && k != i && k != j :: catalog[k].probes !! Exercised(run)
  }

  lemma TwoScores(
    catalog: seq<CatalogClass>, run: Run, i: nat, j: nat, a: Severity, b: Severity, v: Verdict, w: Verdict)
    requires GradesTwo(catalog, run, i, j, a, b, v, w)
    ensures ScoreClasses(catalog, run).Ok?
    ensures
      var classes := ScoreClasses(catalog, run).value;
      && |classes| == |catalog|
      && classes[j].verdict == w
      && PassedWeight(classes) == PassedOf(ClassScore(a, v, 0)) + PassedOf(ClassScore(b, w, 0))
      && CoveredWeight(classes) == CoveredOf(ClassScore(a, v, 0)) + CoveredOf(ClassScore(b, w, 0))
  {
    forall k | 0 <= k < |catalog| && k != i && k != j
      ensures ScoreClass(catalog[k], run, Withheld(run)) == Ok(ClassScore(catalog[k].severity, NotGraded, 0))
    {
      NotRan(catalog[k], run);
    }
    TwoGraded(ScoreClasses(catalog, run).value, i, j);
  }

  lemma ScoredClasses(catalog: seq<CatalogClass>, run: Run, card: Scorecard)
    requires Scored(catalog, run, card)
    ensures ScoreClasses(catalog, run) == Ok(card.classes)
  {
    assert ScoreClasses(catalog, run).value == card.classes;
  }

  lemma ScoresFromTwo(
    catalog: seq<CatalogClass>, run: Run, card: Scorecard, i: nat, j: nat, a: Severity, b: Severity,
    v: Verdict, w: Verdict)
    requires Scored(catalog, run, card) && GradesTwo(catalog, run, i, j, a, b, v, w)
    ensures card.passed == PassedOf(ClassScore(a, v, 0)) + PassedOf(ClassScore(b, w, 0))
    ensures card.covered == CoveredOf(ClassScore(a, v, 0)) + CoveredOf(ClassScore(b, w, 0))
  {
    TwoScores(catalog, run, i, j, a, b, v, w);
    ScoredClasses(catalog, run, card);
  }

  lemma LetterFromTwo(
    catalog: seq<CatalogClass>, run: Run, card: Scorecard, i: nat, j: nat, a: Severity, b: Severity,
    v: Verdict, w: Verdict)
    requires Scored(catalog, run, card) && GradesTwo(catalog, run, i, j, a, b, v, w) && HighAlone(catalog, run)
    ensures
      var c, d := ClassScore(a, v, 0), ClassScore(b, w, 0);
      card.grade == Worse(GradeFor(PassedOf(c) + PassedOf(d), CoveredOf(c) + CoveredOf(d)), D)
  {
    ScoresFromTwo(catalog, run, card, i, j, a, b, v, w);
    LetterUnderHighCap(catalog, run, card);
  }

  /** Some class is at fault, and every one that is has the high band. */
  ghost predicate HighAlone(catalog: seq<CatalogClass>, run: Run) {
    && (exists e | e in catalog :: AtFault(e, run))
    && (forall e | e in catalog && AtFault(e, run) :: e.severity == High)
  }

  predicate HasVerdict(entry: CatalogClass, run: Run, v: Verdict) {
    && ScoreClass(entry, run, Withheld(run)).Ok?
    && ScoreClass(entry, run, Withheld(run)).value.verdict == v
    && ScoreClass(entry, run, Withheld(run)).value.severity == entry.severity
  }

  /** One probe of a class ran, on a surface that counts. */
  lemma ClassOnCountedSurface(entry: CatalogClass, run: Run, p: ProbeId, s: Surface)
    requires entry.probes * Exercised(run) == {p} && run.metrics == EMPTY_METRICS
    requires forall q | q in entry.probes :: ProbeSurfaces(q) != {}
    requires s in ProbeSurfaces(p) && s in run.provenance && s !in Withheld(run)
    ensures Attributable(entry, run) ==> HasVerdict(entry, run, Fail)
    ensures !AtFault(entry, run) ==> HasVerdict(entry, run, Pass)
  {
    assert Ran(entry, run) == {p};
    AcceptedOfOne(p);
    assert s in AcceptedSurfaces(Ran(entry, run)) * run.provenance.Keys;
    RefusedForCounts(entry, run);
    VerdictClosedForm(entry, run);
  }

  /** One probe of a class ran, on no surface the record accounts for. */
  lemma ClassOnNoSurface(entry: CatalogClass, run: Run, p: ProbeId)
    requires entry.probes * Exercised(run) == {p}
    requires ProbeSurfaces(p) != {} && ProbeSurfaces(p) !! run.provenance.Keys && run.provenance != map[]
    ensures HasVerdict(entry, run, NotGraded)
  {
    assert Ran(entry, run) == {p};
    AcceptedOfOne(p);
    var s :| s in run.provenance;
    assert run.provenance.Keys != {};
  }

  lemma AcceptedOfOne(p: ProbeId)
    ensures AcceptedSurfaces({p}) == ProbeSurfaces(p)
  {
    forall s | s in ProbeSurfaces(p) ensures s in AcceptedSurfaces({p}) {
      assert p in {p};
    }
  }

  lemma OtherClass(run: Run, k: nat, i: nat, j: nat)
    requires k < |CATALOG| && k != i && k != j
    requires forall p | p in Exercised(run) :: ClassOf(p) in {Some(i), Some(j)}
    ensures CATALOG[k].probes !! Exercised(run)
  {
    forall p | p in Exercised(run) ensures p !in CATALOG[k].probes {
      ClassOfIsTheClass(p, k);
    }
  }

  lemma LetterUnderHighCap(catalog: seq<CatalogClass>, run: Run, card: Scorecard)
    requires Scored(catalog, run, card)
    requires HighAlone(catalog, run)
    ensures card.grade == Worse(GradeFor(card.passed, card.covered), D)
  {
  }

  /** A confirmed poisoning finding on the vector store, whatever its principals and severity. */
  predicate Poisoning(p: Finding) {
    p.probeId == RagPoisoning && p.status == Confirmed && p.surface == VectorDb
  }

  /** A poisoning finding, and nothing else confirmed outside the withheld fakes. */
  ghost predicate PoisonedAlone(run: Run, p: Finding) {
    && Poisoning(p) && p in run.findings && Withheld(run) !! {VectorDb}
    && forall f | f in run.findings && f != p && f.status == Confirmed :: BackingSurface(f) in Withheld(run)
  }

  lemma PoisonedFaults(entry: CatalogClass, run: Run, p: Finding)
    requires PoisonedAlone(run, p)
    ensures AtFault(entry, run) <==> RagPoisoning in entry.probes
    ensures VectorDb in run.provenance ==> (Attributable(entry, run) <==> RagPoisoning in entry.probes)
  {
  }

  lemma PoisonedBands(run: Run, p: Finding)
    requires PoisonedAlone(run, p)
    ensures HighAlone(CATALOG, run)
  {
    ClassOfIsTheClass(RagPoisoning, 2);
    PoisonedFaults(CATALOG[2], run, p);
    assert CATALOG[2] in CATALOG;
    forall e | e in CATALOG && AtFault(e, run) ensures e.severity == High {
      PoisonedFaults(e, run, p);
      var i :| 0 <= i < |CATALOG| && CATALOG[i] == e;
      ClassOfIsTheClass(RagPoisoning, i);
    }
  }

  predicate GetsLetter(run: Run, g: Grade) {
    ScoreRun(run).Ok? && ScoreRun(run).value.grade == g
  }

  lemma GradesAtAll(run: Run, j: nat, w: Verdict)
    requires forall f | f in run.findings :: f.probeId in CatalogProbes()
    requires ScoreClasses(CATALOG, run).Ok? && j < |ScoreClasses(CATALOG, run).value|
    requires ScoreClasses(CATALOG, run).value[j].verdict == w != NotGraded
    requires CoveredWeight(ScoreClasses(CATALOG, run).value) > 0
    ensures ScoreRun(run).Ok?
  {
  }

  /** Two classes graded and the poisoning finding alone at fault: their weights decide, and
      the cap is a D. */
  lemma LetterOfTwo(run: Run, p: Finding, i: nat, j: nat, a: Severity, b: Severity, v: Verdict, w: Verdict, g: Grade)
    requires GradesTwo(CATALOG, run, i, j, a, b, v, w) && b in {Medium, High}
    requires forall f | f in run.findings :: f.probeId in CatalogProbes()
    requires PoisonedAlone(run, p)
    requires
      var c, d := ClassScore(a, v, 0), ClassScore(b, w, 0);
      g == Worse(GradeFor(PassedOf(c) + PassedOf(d), CoveredOf(c) + CoveredOf(d)), D)
    ensures GetsLetter(run, g)
  {
    TwoScores(CATALOG, run, i, j, a, b, v, w);
    GradesAtAll(run, j, w);
    ScorecardParts(run);
    PoisonedBands(run, p);
    LetterFromTwo(CATALOG, run, ScoreRun(run).value, i, j, a, b, v, w);
  }

  /** A leaking live vector store beside a clean live model. */
  predicate LeakBesideClean(run: Run, p: Finding) {
    && Poisoning(p) && run.findings == [p] && run.metrics == EMPTY_METRICS
    && run.probeVersions == {RagPoisoning, KvCacheTiming}
  }

  const BOTH_KEYS: map<Surface, Provenance> := map[VectorDb := Live, ModelAdapter := Live]
  const ONE_KEY: map<Surface, Provenance> := map[ModelAdapter := Live]

  lemma TwoClassesRan(run: Run, p: Finding)
    requires LeakBesideClean(run, p)
    ensures CATALOG[2].probes * Exercised(run) == {RagPoisoning}
    ensures CATALOG[4].probes * Exercised(run) == {KvCacheTiming}
    ensures forall k | 0 <= k < |CATALOG| && k != 2 && k != 4 :: CATALOG[k].probes !! Exercised(run)
    ensures forall f | f in run.findings :: f.probeId in CatalogProbes()
  {
    forall k | 0 <= k < |CATALOG| && k != 2 && k != 4 ensures CATALOG[k].probes !! Exercised(run) {
      OtherClass(run, k, 2, 4);
    }
    assert p.probeId in CATALOG[2].probes;
  }

  lemma SlotsOfTwo()
    ensures CATALOG[2].severity == High && CATALOG[4].severity == Medium
    ensures CATALOG[2].probes == {RagPoisoning} && CATALOG[4].probes == {KvCacheTiming}
  {
  }

  lemma VerdictsWithKey(run: Run, p: Finding, e: CatalogClass, g: CatalogClass)
    requires LeakBesideClean(run, p) && run.provenance == BOTH_KEYS
    requires e.probes == {RagPoisoning} && g.probes == {KvCacheTiming}
    ensures PoisonedAlone(run, p) && HasVerdict(e, run, Fail) && HasVerdict(g, run, Pass)
  {
    assert Withheld(run) == {} && p in run.findings;
    PoisonedFaults(e, run, p);
    PoisonedFaults(g, run, p);
    ClassOnCountedSurface(e, run, RagPoisoning, VectorDb);
    ClassOnCountedSurface(g, run, KvCacheTiming, ModelAdapter);
  }

  lemma VerdictsWithoutKey(run: Run, p: Finding, e: CatalogClass, g: CatalogClass)
    requires LeakBesideClean(run, p) && run.provenance == ONE_KEY
    requires e.probes == {RagPoisoning} && g.probes == {KvCacheTiming}
    ensures PoisonedAlone(run, p) && HasVerdict(e, run, NotGraded) && HasVerdict(g, run, Pass)
  {
    assert Withheld(run) == {} && p in run.findings;
    assert ModelAdapter in run.provenance;
    PoisonedFaults(g, run, p);
    ClassOnCountedSurface(g, run, KvCacheTiming, ModelAdapter);
    ClassOnNoSurface(e, run, RagPoisoning);
  }

  lemma LetterWithKey(run: Run, p: Finding)
    requires LeakBesideClean(run, p) && run.provenance == BOTH_KEYS
    ensures GetsLetter(run, F)
  {
    SlotsOfTwo();
    VerdictsWithKey(run, p, CATALOG[2], CATALOG[4]);
    TwoClassesRan(run, p);
    LetterOfTwo(run, p, 2, 4, High, Medium, Fail, Pass, F);
  }

  lemma LetterWithoutKey(run: Run, p: Finding)
    requires LeakBesideClean(run, p) && run.provenance == ONE_KEY
    ensures GetsLetter(run, D)
  {
    SlotsOfTwo();
    VerdictsWithoutKey(run, p, CATALOG[2], CATALOG[4]);
    TwoClassesRan(run, p);
    LetterOfTwo(run, p, 2, 4, High, Medium, NotGraded, Pass, D);
  }

  /** Withholding can flatter the letter: deleting one provenance key takes such a record from
      F to D, because the failing class leaves the weighted score and only its cap remains. */
  lemma DeletingAKeyCanImprove(run: Run, less: Run, p: Finding)
    requires LeakBesideClean(run, p) && run.provenance == BOTH_KEYS && less == run.(provenance := ONE_KEY)
    ensures Submap(less.provenance, run.provenance)
    ensures GetsLetter(run, F) && GetsLetter(less, D)
  {
    LetterWithKey(run, p);
    LetterWithoutKey(less, p);
  }

  /** A mixed run: a live store that leaks, beside a built-in pipeline - with or without a
      finding on the pipeline. */
  predicate Mixed(run: Run) {
    && run.metrics == EMPTY_METRICS && run.provenance == map[VectorDb := Live, RagPipeline := Synthetic]
    && run.probeVersions == {RagPoisoning} && (run.findings == [POISONED] || run.findings == [POISONED, BLED])
  }

  lemma MixedClasses(run: Run)
    requires Mixed(run)
    ensures CATALOG[1].probes == {RagEntityBleed, RagPipelineBleed} && CATALOG[2].probes == {RagPoisoning}
    ensures CATALOG[1].severity == Critical && CATALOG[2].severity == High
    ensures CATALOG[2].probes * Exercised(run) == {RagPoisoning}
    ensures BLED in run.findings ==> CATALOG[1].probes * Exercised(run) == {RagEntityBleed}
    ensures BLED !in run.findings ==> CATALOG[1].probes !! Exercised(run)
    ensures forall k | 0 <= k < |CATALOG| && k != 1 && k != 2 :: CATALOG[k].probes !! Exercised(run)
    ensures forall f | f in run.findings :: f.probeId in CatalogProbes()
    ensures Withheld(run) == {RagPipeline} && PoisonedAlone(run, POISONED)
  {
    assert POISONED in [POISONED] && POISONED in [POISONED, BLED] && BLED in [POISONED, BLED];
    forall k | 0 <= k < |CATALOG| && k != 1 && k != 2 ensures CATALOG[k].probes !! Exercised(run) {
      OtherClass(run, k, 1, 2);
    }
    assert POISONED.probeId in CATALOG[2].probes && BLED.probeId in CATALOG[1].probes;
    assert VectorDb in LiveSurfaces(run);
  }

  lemma PoisonedFails(run: Run, g: CatalogClass)
    requires g.probes == {RagPoisoning} && Mixed(run) && PoisonedAlone(run, POISONED)
    ensures HasVerdict(g, run, Fail)
  {
    PoisonedFaults(g, run, POISONED);
    ClassOnCountedSurface(g, run, RagPoisoning, VectorDb);
  }

  lemma BledPasses(run: Run, e: CatalogClass)
    requires e.probes == {RagEntityBleed, RagPipelineBleed} && Mixed(run) && PoisonedAlone(run, POISONED)
    ensures HasVerdict(e, run, if run.findings == [POISONED] then NotGraded else Pass)
  {
    PoisonedFaults(e, run, POISONED);
    if run.findings == [POISONED] {
      NotRan(e, run);
    } else {
      assert BLED in run.findings;
      ClassOnCountedSurface(e, run, RagEntityBleed, VectorDb);
    }
  }

  lemma LetterMixed(run: Run)
    requires Mixed(run) && run.findings == [POISONED]
    ensures GetsLetter(run, F)
  {
    MixedClasses(run);
    PoisonedFails(run, CATALOG[2]);
    BledPasses(run, CATALOG[1]);
    LetterOfTwo(run, POISONED, 1, 2, Critical, High, NotGraded, Fail, F);
  }

  lemma LetterMixedWithFakeFinding(run: Run)
    requires Mixed(run) && run.findings == [POISONED, BLED]
    ensures GetsLetter(run, D)
  {
    MixedClasses(run);
    PoisonedFails(run, CATALOG[2]);
    BledPasses(run, CATALOG[1]);
    LetterOfTwo(run, POISONED, 1, 2, Critical, High, Pass, Fail, D);
  }

  /** Where the surface is withheld, one more confirmed finding can improve the letter: it
      proves its probe ran, and the class it brings into the score passes. */
  lemma WithheldEvidenceCanImprove(run: Run, more: Run)
    requires Mixed(run) && run.findings == [POISONED] && more == WithFinding(run, 1, BLED)
    ensures BLED.status == Confirmed && BackingSurface(BLED) in Withheld(run)
    ensures GetsLetter(run, F) && GetsLetter(more, D)
  {
    assert more.findings == [POISONED, BLED];
    MixedClasses(run);
    LetterMixed(run);
    LetterMixedWithFakeFinding(more);
  }

  const SEEN := Finding("f-3", TenantBoundaryFetch, Critical, Unverified, 1, 2, None, None, VectorDb)

  /** A live store that leaks, with or without an unverified finding of another class on it. */
  predicate LeakingStore(run: Run) {
    && run.metrics == EMPTY_METRICS && run.provenance == map[VectorDb := Live]
    && run.probeVersions == {RagPoisoning} && (run.findings == [POISONED] || run.findings == [POISONED, SEEN])
  }

  lemma StoreClasses(run: Run)
    requires LeakingStore(run)
    ensures CATALOG[0].probes == {TenantBoundaryFetch} && CATALOG[2].probes == {RagPoisoning}
    ensures CATALOG[0].severity == Critical && CATALOG[2].severity == High
    ensures forall k | 0 <= k < |CATALOG| && k != 0 && k != 2 :: CATALOG[k].probes !! Exercised(run)
    ensures forall f | f in run.findings :: f.probeId in CatalogProbes()
    ensures Withheld(run) == {} && PoisonedAlone(run, POISONED)
  {
    assert POISONED in [POISONED] && POISONED in [POISONED, SEEN] && SEEN in [POISONED, SEEN];
    forall k | 0 <= k < |CATALOG| && k != 0 && k != 2 ensures CATALOG[k].probes !! Exercised(run) {
      OtherClass(run, k, 0, 2);
    }
    assert POISONED.probeId in CATALOG[2].probes && SEEN.probeId in CATALOG[0].probes;
  }

  lemma StoreVerdicts(run: Run, e: CatalogClass, g: CatalogClass)
    requires e.probes == {TenantBoundaryFetch} && g.probes == {RagPoisoning}
    requires LeakingStore(run) && Withheld(run) == {} && PoisonedAlone(run, POISONED)
    ensures HasVerdict(g, run, Fail)
    ensures HasVerdict(e, run, if run.findings == [POISONED] then NotGraded else Pass)
  {
    assert POISONED in run.findings;
    PoisonedFaults(e, run, POISONED);
    PoisonedFaults(g, run, POISONED);
    ClassOnCountedSurface(g, run, RagPoisoning, VectorDb);
    if run.findings == [POISONED] {
      NotRan(e, run);
    } else {
      assert SEEN in run.findings;
      ClassOnCountedSurface(e, run, TenantBoundaryFetch, VectorDb);
    }
  }

  lemma LetterOfStore(run: Run)
    requires LeakingStore(run) && run.findings == [POISONED]
    ensures GetsLetter(run, F)
  {
    StoreClasses(run);
    StoreVerdicts(run, CATALOG[0], CATALOG[2]);
    LetterOfTwo(run, POISONED, 0, 2, Critical, High, NotGraded, Fail, F);
  }

  lemma LetterOfStoreSeen(run: Run)
    requires LeakingStore(run) && run.findings == [POISONED, SEEN]
    ensures GetsLetter(run, D)
  {
    StoreClasses(run);
    StoreVerdicts(run, CATALOG[0], CATALOG[2]);
    LetterOfTwo(run, POISONED, 0, 2, Critical, High, Pass, Fail, D);
  }

  /** An unverified finding can improve the letter: it fails no class, but it proves that its
      probe ran, and the class it brings into the score passes. */
  lemma UnverifiedFindingCanImprove(run: Run, more: Run)
    requires LeakingStore(run) && run.findings == [POISONED] && more == WithFinding(run, 1, SEEN)
    ensures SEEN.status == Unverified && GetsLetter(run, F) && GetsLetter(more, D)
  {
    assert more.findings == [POISONED, SEEN];
    LetterOfStore(run);
    LetterOfStoreSeen(more);
  }
}
