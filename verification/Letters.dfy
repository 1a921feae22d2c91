/** The letter as a function of three sets of classes - those that pass, those that fail, those
    at fault - and which records get one at all. */
module Letters {
  import opened Records
  import opened Score
  import opened ScoreLaws
  import opened Wrappers

  // ---------- The letter as a function of sets of classes ----------

  ghost predicate Passes(e: CatalogClass, run: Run) {
    Placeable(e, run) && !AtFault(e, run)
  }

  ghost predicate Fails(e: CatalogClass, run: Run) {
    Placeable(e, run) && Attributable(e, run)
  }

  ghost function Passing(catalog: seq<CatalogClass>, run: Run): set<CatalogClass> {
    set e | e in catalog && Passes(e, run)
  }

  ghost function Failing(catalog: seq<CatalogClass>, run: Run): set<CatalogClass> {
    set e | e in catalog && Fails(e, run)
  }

  ghost function Faulty(catalog: seq<CatalogClass>, run: Run): set<CatalogClass> {
    set e | e in catalog && AtFault(e, run)
  }

  function WeightOf(catalog: seq<CatalogClass>, which: set<CatalogClass>): nat {
    if catalog == [] then 0
    else (if catalog[0] in which then Weight(catalog[0].severity) else 0) + WeightOf(catalog[1..], which)
  }

  /** The worst band of a set of classes. */
  ghost predicate WorstOf(band: Option<Severity>, which: set<CatalogClass>) {
    && (band.None? <==> which == {})
    && (band.Some? ==>
          && (exists e | e in which :: e.severity == band.value)
          && (forall e | e in which :: e.severity.Rank() <= band.value.Rank()))
  }

  function Letter(passed: nat, failed: nat, band: Option<Severity>): Grade {
    FinalGrade(GradeFor(passed, passed + failed), band)
  }

  predicate Better(l: Grade, r: Grade) {
    l.Rank() < r.Rank()
  }

  lemma {:induction false} WeightOfUnion(catalog: seq<CatalogClass>, s: set<CatalogClass>, t: set<CatalogClass>)
    requires s !! t
    ensures WeightOf(catalog, s + t) == WeightOf(catalog, s) + WeightOf(catalog, t)
  {
    if catalog != [] {
      WeightOfUnion(catalog[1..], s, t);
    }
  }

  lemma WeightOfLess(catalog: seq<CatalogClass>, s: set<CatalogClass>, t: set<CatalogClass>)
    requires s <= t
    ensures WeightOf(catalog, t - s) == WeightOf(catalog, t) - WeightOf(catalog, s)
  {
    assert s + (t - s) == t;
    WeightOfUnion(catalog, s, t - s);
  }

  lemma {:induction false} NoWeightIffNone(catalog: seq<CatalogClass>, which: set<CatalogClass>)
    requires forall e | e in catalog :: Weight(e.severity) > 0
    ensures WeightOf(catalog, which) == 0 <==> forall e | e in catalog :: e !in which
  {
    if catalog != [] {
      NoWeightIffNone(catalog[1..], which);
      assert forall e :: e in catalog <==> e == catalog[0] || e in catalog[1..];
    }
  }

  lemma {:induction false} WeightOfOne(catalog: seq<CatalogClass>, j: nat)
    requires j < |catalog| && forall i | 0 <= i < |catalog| && i != j :: catalog[i] != catalog[j]
    ensures WeightOf(catalog, {catalog[j]}) == Weight(catalog[j].severity)
  {
    if j > 0 {
      assert catalog[j] == catalog[1..][j - 1];
      WeightOfOne(catalog[1..], j - 1);
    } else {
      WeightOfAbsent(catalog[1..], catalog[0]);
    }
  }

  lemma {:induction false} WeightOfAbsent(catalog: seq<CatalogClass>, e: CatalogClass)
    requires e !in catalog
    ensures WeightOf(catalog, {e}) == 0
  {
    if catalog != [] {
      WeightOfAbsent(catalog[1..], e);
    }
  }

  lemma {:induction false} SumsAreWeights(
    entries: seq<CatalogClass>, classes: seq<ClassScore>, pass: set<CatalogClass>, fail: set<CatalogClass>)
    requires |entries| == |classes|
    requires forall i | 0 <= i < |entries| ::
               && classes[i].severity == entries[i].severity
               && (classes[i].verdict == Pass <==> entries[i] in pass)
               && (classes[i].verdict == Fail <==> entries[i] in fail)
    ensures PassedWeight(classes) == WeightOf(entries, pass)
    ensures CoveredWeight(classes) == WeightOf(entries, pass) + WeightOf(entries, fail)
  {
    if entries != [] {
      SumsAreWeights(entries[1..], classes[1..], pass, fail);
    }
  }

  /** A scorecard, from the classes that pass, those that fail and those at fault. */
  ghost predicate MadeOf(
    card: Scorecard, catalog: seq<CatalogClass>, pass: set<CatalogClass>, fail: set<CatalogClass>,
    fault: set<CatalogClass>)
  {
    && card.passed == WeightOf(catalog, pass)
    && card.covered == WeightOf(catalog, pass) + WeightOf(catalog, fail)
    && WorstOf(card.cappedBy, fault)
    && card.grade == Letter(WeightOf(catalog, pass), WeightOf(catalog, fail), card.cappedBy)
  }

  lemma VerdictInSets(catalog: seq<CatalogClass>, run: Run, i: nat)
    requires GoodCatalog(catalog) && i < |catalog| && ScoreClass(catalog[i], run, Withheld(run)).Ok?
    ensures
      var c := ScoreClass(catalog[i], run, Withheld(run)).value;
      && c.severity == catalog[i].severity
      && (c.verdict == Pass <==> catalog[i] in Passing(catalog, run))
      && (c.verdict == Fail <==> catalog[i] in Failing(catalog, run))
  {
    VerdictClosedForm(catalog[i], run);
  }

  lemma ClassesInSets(catalog: seq<CatalogClass>, run: Run, classes: seq<ClassScore>)
    requires GoodCatalog(catalog) && |classes| == |catalog|
    requires forall i | 0 <= i < |catalog| :: ScoreClass(catalog[i], run, Withheld(run)) == Ok(classes[i])
    ensures PassedWeight(classes) == WeightOf(catalog, Passing(catalog, run))
    ensures CoveredWeight(classes)
         == WeightOf(catalog, Passing(catalog, run)) + WeightOf(catalog, Failing(catalog, run))
  {
    var pass, fail := Passing(catalog, run), Failing(catalog, run);
    forall i | 0 <= i < |catalog|
      ensures classes[i].severity == catalog[i].severity
      ensures classes[i].verdict == Pass <==> catalog[i] in pass
      ensures classes[i].verdict == Fail <==> catalog[i] in fail
    {
      VerdictInSets(catalog, run, i);
    }
    SumsAreWeights(catalog, classes, pass, fail);
  }

  lemma ScoredInSets(catalog: seq<CatalogClass>, run: Run, card: Scorecard)
    requires GoodCatalog(catalog) && Scored(catalog, run, card)
    ensures MadeOf(card, catalog, Passing(catalog, run), Failing(catalog, run), Faulty(catalog, run))
  {
    ClassesInSets(catalog, run, card.classes);
    WorstBandInSets(catalog, run, card.cappedBy);
    LetterOf(card, WeightOf(catalog, Passing(catalog, run)), WeightOf(catalog, Failing(catalog, run)));
  }

  lemma LetterOf(card: Scorecard, p: nat, q: nat)
    requires card.passed == p && card.covered == p + q
    requires card.grade == FinalGrade(GradeFor(card.passed, card.covered), card.cappedBy)
    ensures card.grade == Letter(p, q, card.cappedBy)
  {
  }

  lemma WorstBandInSets(catalog: seq<CatalogClass>, run: Run, band: Option<Severity>)
    requires IsWorstBandAtFault(band, catalog, run)
    ensures WorstOf(band, Faulty(catalog, run))
  {
    if band.Some? {
      var e :| e in catalog && AtFault(e, run) && e.severity == band.value;
      assert e in Faulty(catalog, run);
    }
  }

  /** The letter of any graded record: the weight of the classes whose slot counts and that
      hold no finding at fault, against that of the classes that fail, under the worst band at
      fault. */
  lemma LetterClosedForm(run: Run)
    requires ScoreRun(run).Ok?
    ensures MadeOf(ScoreRun(run).value, CATALOG,
                   Passing(CATALOG, run), Failing(CATALOG, run), Faulty(CATALOG, run))
  {
    ScorecardParts(run);
    ScoredInSets(CATALOG, run, ScoreRun(run).value);
  }

  // ---------- Which records get a letter ----------

  /** A class that gets a verdict: it passes or fails. */
  ghost predicate Graded(e: CatalogClass, run: Run) {
    Passes(e, run) || Fails(e, run)
  }

  predicate Stale(run: Run) {
    exists f | f in run.findings :: f.status == Confirmed && f.probeId !in CatalogProbes()
  }

  /** Class 2 is to be graded and its counts cannot be. */
  ghost predicate Incoherent(catalog: seq<CatalogClass>, run: Run) {
    run.metrics.pivotK > run.metrics.pivotN && exists e | e in catalog :: e.id == 2 && Graded(e, run)
  }

  lemma ClassRefusedIff(e: CatalogClass, run: Run)
    requires forall p | p in e.probes :: ProbeSurfaces(p) != {}
    ensures ScoreClass(e, run, Withheld(run)).Err?
       <==> e.id == 2 && run.metrics.pivotK > run.metrics.pivotN && Graded(e, run)
  {
    RefusedForCounts(e, run);
  }

  lemma ClassesRefusedIff(catalog: seq<CatalogClass>, run: Run)
    requires GoodCatalog(catalog)
    ensures ScoreClasses(catalog, run).Err? <==> Incoherent(catalog, run)
  {
    forall i | 0 <= i < |catalog|
      ensures ScoreClass(catalog[i], run, Withheld(run)).Err?
         <==> catalog[i].id == 2 && run.metrics.pivotK > run.metrics.pivotN && Graded(catalog[i], run)
    {
      ClassRefusedIff(catalog[i], run);
    }
  }

  ghost predicate NoneGraded(catalog: seq<CatalogClass>, run: Run) {
    forall e | e in catalog :: !Graded(e, run)
  }

  predicate AllUngraded(classes: seq<ClassScore>) {
    forall c | c in classes :: c.verdict == NotGraded
  }

  lemma VerdictsIffGraded(catalog: seq<CatalogClass>, run: Run)
    requires GoodCatalog(catalog) && ScoreClasses(catalog, run).Ok?
    ensures AllUngraded(ScoreClasses(catalog, run).value) <==> NoneGraded(catalog, run)
    ensures CoveredWeight(ScoreClasses(catalog, run).value) == 0 <==> NoneGraded(catalog, run)
  {
    var classes := ScoreClasses(catalog, run).value;
    var pass, fail := Passing(catalog, run), Failing(catalog, run);
    forall i | 0 <= i < |catalog|
      ensures classes[i].severity == catalog[i].severity
      ensures classes[i].verdict == Pass <==> catalog[i] in pass
      ensures classes[i].verdict == Fail <==> catalog[i] in fail
      ensures classes[i] in classes && catalog[i] in catalog
    {
      VerdictClosedForm(catalog[i], run);
    }
    SumsAreWeights(catalog, classes, pass, fail);
    NoWeightIffNone(catalog, pass);
    NoWeightIffNone(catalog, fail);
    NothingGradedIff(catalog, classes, run);
  }

  lemma NothingGradedIff(catalog: seq<CatalogClass>, classes: seq<ClassScore>, run: Run)
    requires |classes| == |catalog|
    requires forall i | 0 <= i < |catalog| :: classes[i].verdict == NotGraded <==> !Graded(catalog[i], run)
    ensures AllUngraded(classes) <==> NoneGraded(catalog, run)
  {
    forall e | e in catalog && Graded(e, run) ensures !AllUngraded(classes) {
      var i :| 0 <= i < |catalog| && catalog[i] == e;
      assert classes[i] in classes;
    }
    forall c | c in classes && c.verdict != NotGraded ensures !NoneGraded(catalog, run) {
      var i :| 0 <= i < |classes| && classes[i] == c;
      assert catalog[i] in catalog;
    }
  }

  lemma Outcome(run: Run, incoherent: bool, none: bool)
    requires ScoreClasses(CATALOG, run).Err? <==> incoherent
    requires !incoherent ==>
               && (AllUngraded(ScoreClasses(CATALOG, run).value) <==> none)
               && (CoveredWeight(ScoreClasses(CATALOG, run).value) == 0 <==> none)
    ensures ScoreRun(run) == Err(StaleCatalog) <==> Stale(run)
    ensures ScoreRun(run) == Err(IncoherentCounts) <==> !Stale(run) && incoherent
    ensures ScoreRun(run) == Err(NothingGradeable) <==> !Stale(run) && !incoherent && none
    ensures ScoreRun(run) != Err(ZeroWeight)
  {
  }

  /** Every record's outcome: refused for a confirmed finding no class knows, for counts that
      cannot be, or because no class can be graded - and for nothing else: the weight of the
      graded classes is never zero. */
  lemma ScoredOrRefused(run: Run)
    ensures ScoreRun(run) == Err(StaleCatalog) <==> Stale(run)
    ensures ScoreRun(run) == Err(IncoherentCounts) <==> !Stale(run) && Incoherent(CATALOG, run)
    ensures ScoreRun(run) == Err(NothingGradeable)
       <==> !Stale(run) && !Incoherent(CATALOG, run) && NoneGraded(CATALOG, run)
    ensures ScoreRun(run) != Err(ZeroWeight)
  {
    CatalogIsGood();
    ClassesRefusedIff(CATALOG, run);
    if ScoreClasses(CATALOG, run).Ok? {
      VerdictsIffGraded(CATALOG, run);
    }
    Outcome(run, Incoherent(CATALOG, run), NoneGraded(CATALOG, run));
  }

  lemma LetterIff(run: Run)
    ensures ScoreRun(run).Ok? <==> !Stale(run) && !Incoherent(CATALOG, run) && !NoneGraded(CATALOG, run)
  {
    ScoredOrRefused(run);
    OneOfFour(ScoreRun(run));
  }

  lemma OneOfFour(r: Result<Scorecard, ConfigError>)
    ensures r.Ok? <==> r != Err(StaleCatalog) && r != Err(IncoherentCounts) && r != Err(NothingGradeable) &&
                       r != Err(ZeroWeight)
  {
    match r
    case Ok(_) =>
    case Err(StaleCatalog) =>
    case Err(NothingGradeable) =>
    case Err(ZeroWeight) =>
    case Err(IncoherentCounts) =>
  }

  // ---------- Comparing two letters ----------

  lemma GradeNoBetter(p: nat, q: nat, p': nat, q': nat)
    requires p' <= p && q <= q'
    ensures GradeFor(p, p + q).Rank() <= GradeFor(p', p' + q').Rank()
  {
  }

  lemma WorstOfMore(band: Option<Severity>, band': Option<Severity>, s: set<CatalogClass>, s': set<CatalogClass>)
    requires WorstOf(band, s) && WorstOf(band', s') && s <= s'
    ensures band.Some? ==> band'.Some? && band.value.Rank() <= band'.value.Rank()
    ensures s == s' ==> band == band'
  {
  }

  lemma LetterNoBetter(
    p: nat, q: nat, band: Option<Severity>, p': nat, q': nat, band': Option<Severity>)
    requires p' <= p && q <= q'
    requires band.Some? ==> band'.Some? && band.value.Rank() <= band'.value.Rank()
    ensures !Better(Letter(p', q', band'), Letter(p, q, band))
  {
    GradeNoBetter(p, q, p', q');
    FinalGradeMonotone(GradeFor(p, p + q), band, GradeFor(p', p' + q'), band');
  }

  lemma MadeNoBetter(
    catalog: seq<CatalogClass>, card: Scorecard, card': Scorecard, pass: set<CatalogClass>, pass': set<CatalogClass>,
    fail: set<CatalogClass>, fail': set<CatalogClass>, fault: set<CatalogClass>, fault': set<CatalogClass>)
    requires MadeOf(card, catalog, pass, fail, fault) && MadeOf(card', catalog, pass', fail', fault')
    requires pass' <= pass && fail <= fail' && fault <= fault'
    ensures !Better(card'.grade, card.grade)
  {
    WeightOfLess(catalog, pass', pass);
    WeightOfLess(catalog, fail, fail');
    WorstOfMore(card.cappedBy, card'.cappedBy, fault, fault');
    LetterNoBetter(WeightOf(catalog, pass), WeightOf(catalog, fail), card.cappedBy,
                   WeightOf(catalog, pass'), WeightOf(catalog, fail'), card'.cappedBy);
  }
}
