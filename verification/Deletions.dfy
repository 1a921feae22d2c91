/** Deleting provenance keys from a record: exactly when its letter is better for it. A deletion
    keeps the record's scope, empties the block, or takes its last live key. */
module Deletions {
  import opened Labels
  import opened Letters
  import opened Records
  import opened Score
  import opened ScoreLaws
  import opened Wrappers

  /** The same record with some provenance keys deleted. */
  ghost predicate Deletion(run: Run, run': Run) {
    run' == run.(provenance := run'.provenance) && Submap(run'.provenance, run.provenance)
  }

  /** A deletion keeps the scope, empties the block, or takes the last live key away. */
  lemma DeletionScopes(run: Run, run': Run)
    requires Deletion(run, run')
    ensures || ScopeOf(run') == ScopeOf(run)
            || run'.provenance == map[]
            || (ScopeOf(run) == ConfiguredStack && ScopeOf(run') == SyntheticStack)
  {
    if s: Surface :| s in LiveSurfaces(run') {
      assert s in LiveSurfaces(run);
    }
  }

  /** Among `keys` there is a surface of the class's own slot that the letter may speak about. */
  ghost predicate SlotOn(e: CatalogClass, run: Run, keys: set<Surface>) {
    exists s | s in keys :: s in AcceptedSurfaces(Ran(e, run)) && s !in Withheld(run)
  }

  /** A confirmed finding of the class rests on one of `keys` that is not withheld. */
  ghost predicate FindingOn(e: CatalogClass, run: Run, keys: set<Surface>) {
    exists f | f in run.findings ::
      InClass(e, f) && BackingSurface(f) in keys && BackingSurface(f) !in Withheld(run)
  }

  /** A confirmed finding of the class rests on no surface that is both withheld and among
      `keys`. */
  ghost predicate FaultUnder(e: CatalogClass, run: Run, keys: set<Surface>) {
    exists f | f in run.findings :: InClass(e, f) && BackingSurface(f) !in Withheld(run) * keys
  }

  ghost predicate AnyFinding(e: CatalogClass, run: Run) {
    exists f | f in run.findings :: InClass(e, f)
  }

  lemma WithheldOnSameScope(run: Run, run': Run)
    requires Deletion(run, run') && ScopeOf(run') == ScopeOf(run)
    ensures Withheld(run') == Withheld(run) * run'.provenance.Keys
  {
  }

  /** What a class keeps of its slot and of its findings, on the remaining keys. */
  lemma SameScopeClass(e: CatalogClass, run: Run, run': Run)
    requires Deletion(run, run') && ScopeOf(run') == ScopeOf(run) && run'.provenance != map[]
    ensures Placeable(e, run') <==> SlotOn(e, run, run'.provenance.Keys)
    ensures Attributable(e, run') <==> FindingOn(e, run, run'.provenance.Keys)
    ensures Placeable(e, run') ==> Placeable(e, run)
    ensures Attributable(e, run') ==> Attributable(e, run)
    ensures AtFault(e, run') <==> FaultUnder(e, run, run'.provenance.Keys)
    ensures AtFault(e, run) ==> AtFault(e, run')
    ensures Withheld(run') == Withheld(run) ==> (AtFault(e, run') <==> AtFault(e, run))
  {
    WithheldOnSameScope(run, run');
    SameScopeSlot(e, run, run');
    SubmapWithholdsLess(run, run');
    if Attributable(e, run') {
      var f :| f in run'.findings && InClass(e, f) && BackingSurface(f) !in Withheld(run') &&
               BackingSurface(f) in run'.provenance;
      assert f in run.findings && BackingSurface(f) in run.provenance;
    }
  }

  lemma SameScopeSlot(e: CatalogClass, run: Run, run': Run)
    requires Deletion(run, run') && run'.provenance != map[]
    requires Withheld(run') == Withheld(run) * run'.provenance.Keys
    ensures Placeable(e, run') <==> SlotOn(e, run, run'.provenance.Keys)
    ensures Placeable(e, run') ==> Placeable(e, run)
  {
    assert Ran(e, run') == Ran(e, run);
    var accepted := AcceptedSurfaces(Ran(e, run));
    if SlotOn(e, run, run'.provenance.Keys) {
      var s :| s in run'.provenance.Keys && s in accepted && s !in Withheld(run);
      assert s in accepted * run'.provenance.Keys && s in accepted * run.provenance.Keys;
      assert Ran(e, run) != {};
    }
  }

  /** Every class that fails keeps, on the remaining keys, its slot and a finding. */
  ghost predicate FailuresKept(catalog: seq<CatalogClass>, run: Run, keys: set<Surface>) {
    forall e | e in catalog && Fails(e, run) :: SlotOn(e, run, keys) && FindingOn(e, run, keys)
  }

  /** The weight of the passing classes that lose their slot, or that a finding on a deleted
      fake is now held against. */
  ghost function LostPasses(catalog: seq<CatalogClass>, run: Run, keys: set<Surface>): nat {
    WeightOf(catalog, set e | e in catalog && Passes(e, run) && (SlotOn(e, run, keys) ==> FaultUnder(e, run, keys)))
  }

  ghost function FaultyUnder(catalog: seq<CatalogClass>, run: Run, keys: set<Surface>): set<CatalogClass> {
    set e | e in catalog && FaultUnder(e, run, keys)
  }

  /** The weight of the failing classes that lose their slot or every counted finding. */
  ghost function LostFailures(catalog: seq<CatalogClass>, run: Run, keys: set<Surface>): nat {
    WeightOf(catalog, set e | e in catalog && Fails(e, run) && !(SlotOn(e, run, keys) && FindingOn(e, run, keys)))
  }

  lemma SameScopePassing(catalog: seq<CatalogClass>, run: Run, run': Run)
    requires Deletion(run, run') && ScopeOf(run') == ScopeOf(run) && run'.provenance != map[]
    ensures Passing(catalog, run') <= Passing(catalog, run)
    ensures LostPasses(catalog, run, run'.provenance.Keys)
         == WeightOf(catalog, Passing(catalog, run) - Passing(catalog, run'))
  {
    var keys := run'.provenance.Keys;
    forall e: CatalogClass
      ensures Passes(e, run') ==> Passes(e, run)
      ensures Passes(e, run') <==> SlotOn(e, run, keys) && !FaultUnder(e, run, keys)
    {
      SameScopeClass(e, run, run');
    }
    assert Passing(catalog, run) - Passing(catalog, run')
        == set e | e in catalog && Passes(e, run) && (SlotOn(e, run, keys) ==> FaultUnder(e, run, keys));
  }

  lemma SameScopeFailing(catalog: seq<CatalogClass>, run: Run, run': Run)
    requires Deletion(run, run') && ScopeOf(run') == ScopeOf(run) && run'.provenance != map[]
    ensures Failing(catalog, run') <= Failing(catalog, run)
    ensures LostFailures(catalog, run, run'.provenance.Keys)
         == WeightOf(catalog, Failing(catalog, run) - Failing(catalog, run'))
    ensures FailuresKept(catalog, run, run'.provenance.Keys) <==> Failing(catalog, run) <= Failing(catalog, run')
  {
    var keys := run'.provenance.Keys;
    forall e: CatalogClass
      ensures Fails(e, run') ==> Fails(e, run)
      ensures Fails(e, run') <==> SlotOn(e, run, keys) && FindingOn(e, run, keys)
    {
      SameScopeClass(e, run, run');
    }
    assert Failing(catalog, run) - Failing(catalog, run')
        == set e | e in catalog && Fails(e, run) && !(SlotOn(e, run, keys) && FindingOn(e, run, keys));
    if FailuresKept(catalog, run, keys) {
      forall e | e in Failing(catalog, run) ensures e in Failing(catalog, run') {
        assert e in catalog && Fails(e, run);
      }
    }
    if Failing(catalog, run) <= Failing(catalog, run') {
      forall e | e in catalog && Fails(e, run) ensures SlotOn(e, run, keys) && FindingOn(e, run, keys) {
        assert e in Failing(catalog, run);
      }
    }
  }

  lemma SameScopeFaulty(catalog: seq<CatalogClass>, run: Run, run': Run)
    requires Deletion(run, run') && ScopeOf(run') == ScopeOf(run) && run'.provenance != map[]
    ensures Faulty(catalog, run) <= Faulty(catalog, run') == FaultyUnder(catalog, run, run'.provenance.Keys)
    ensures Withheld(run') == Withheld(run) ==> Faulty(catalog, run') == Faulty(catalog, run)
  {
    forall e: CatalogClass
      ensures AtFault(e, run') <==> FaultUnder(e, run, run'.provenance.Keys)
      ensures AtFault(e, run) ==> AtFault(e, run')
      ensures Withheld(run') == Withheld(run) ==> (AtFault(e, run') <==> AtFault(e, run))
    {
      SameScopeClass(e, run, run');
    }
  }

  /** A scorecard that has lost passes of weight `x` and failures of weight `y`. */
  predicate MovedBy(card: Scorecard, card': Scorecard, x: nat, y: nat) {
    && x <= card.passed && y <= card.covered - card.passed
    && card'.passed == card.passed - x && card'.covered == card.covered - x - y
    && card'.grade == FinalGrade(GradeFor(card.passed - x, card.covered - x - y), card'.cappedBy)
  }

  lemma MovedLetter(card: Scorecard, card': Scorecard, p': nat, q': nat, x: nat, y: nat)
    requires card.passed == p' + x && card.covered == p' + x + (q' + y)
    requires card'.passed == p' && card'.covered == p' + q' && card'.grade == Letter(p', q', card'.cappedBy)
    ensures MovedBy(card, card', x, y)
  {
    assert card.covered - x - y == p' + q';
  }

  lemma MadeOfLess(
    catalog: seq<CatalogClass>, card: Scorecard, card': Scorecard, pass: set<CatalogClass>, pass': set<CatalogClass>,
    fail: set<CatalogClass>, fail': set<CatalogClass>, fault: set<CatalogClass>, fault': set<CatalogClass>)
    requires MadeOf(card, catalog, pass, fail, fault) && MadeOf(card', catalog, pass', fail', fault')
    requires pass' <= pass && fail' <= fail
    ensures MovedBy(card, card', WeightOf(catalog, pass - pass'), WeightOf(catalog, fail - fail'))
  {
    WeightOfLess(catalog, pass', pass);
    WeightOfLess(catalog, fail', fail);
    MovedLetter(card, card', WeightOf(catalog, pass'), WeightOf(catalog, fail'),
                WeightOf(catalog, pass - pass'), WeightOf(catalog, fail - fail'));
  }

  lemma NoneLostIff(catalog: seq<CatalogClass>, fail: set<CatalogClass>, fail': set<CatalogClass>)
    requires GoodCatalog(catalog) && forall e | e in fail :: e in catalog
    ensures WeightOf(catalog, fail - fail') == 0 <==> fail <= fail'
  {
    forall e | e in catalog ensures Weight(e.severity) > 0 {
      var i :| 0 <= i < |catalog| && catalog[i] == e;
    }
    NoWeightIffNone(catalog, fail - fail');
  }

  lemma SameScopeFor(catalog: seq<CatalogClass>, run: Run, run': Run, card: Scorecard, card': Scorecard)
    requires GoodCatalog(catalog) && Scored(catalog, run, card) && Scored(catalog, run', card')
    requires Deletion(run, run') && ScopeOf(run') == ScopeOf(run) && run'.provenance != map[]
    ensures MovedBy(card, card', LostPasses(catalog, run, run'.provenance.Keys),
                    LostFailures(catalog, run, run'.provenance.Keys))
    ensures LostFailures(catalog, run, run'.provenance.Keys) == 0 <==> FailuresKept(catalog, run, run'.provenance.Keys)
    ensures FailuresKept(catalog, run, run'.provenance.Keys) ==> !Better(card'.grade, card.grade)
    ensures WorstOf(card'.cappedBy, FaultyUnder(catalog, run, run'.provenance.Keys))
    ensures Withheld(run') == Withheld(run) ==> card'.cappedBy == card.cappedBy
  {
    ScoredInSets(catalog, run, card);
    ScoredInSets(catalog, run', card');
    SameScopePassing(catalog, run, run');
    SameScopeFailing(catalog, run, run');
    SameScopeFaulty(catalog, run, run');
    MadeOfLess(catalog, card, card', Passing(catalog, run), Passing(catalog, run'),
               Failing(catalog, run), Failing(catalog, run'), Faulty(catalog, run), Faulty(catalog, run'));
    NoneLostIff(catalog, Failing(catalog, run), Failing(catalog, run'));
    WorstOfMore(card.cappedBy, card'.cappedBy, Faulty(catalog, run), Faulty(catalog, run'));
    if Failing(catalog, run) <= Failing(catalog, run') {
      MadeNoBetter(catalog, card, card', Passing(catalog, run), Passing(catalog, run'),
                   Failing(catalog, run), Failing(catalog, run'), Faulty(catalog, run), Faulty(catalog, run'));
    }
  }

  /** A set of classes has one worst band, if any. */
  lemma OneWorstBand(band: Option<Severity>, band': Option<Severity>, which: set<CatalogClass>)
    requires WorstOf(band, which) && WorstOf(band', which)
    ensures band == band'
  {
    WorstOfMore(band, band', which, which);
  }

  /** The new letter is better than the old if and only if the weighted grade beats the old one
      under the worst band of the classes at fault. */
  ghost predicate BetterUnder(card: Scorecard, card': Scorecard, weighted: Grade, fault: set<CatalogClass>) {
    forall band | WorstOf(band, fault) ::
      Better(card'.grade, card.grade) <==> Better(FinalGrade(weighted, band), card.grade)
  }

  lemma BetterUnderItsCap(card: Scorecard, card': Scorecard, weighted: Grade, fault: set<CatalogClass>)
    requires WorstOf(card'.cappedBy, fault) && card'.grade == FinalGrade(weighted, card'.cappedBy)
    ensures BetterUnder(card, card', weighted, fault)
  {
    forall band | WorstOf(band, fault) ensures band == card'.cappedBy {
      OneWorstBand(band, card'.cappedBy, fault);
    }
  }

  /** A scorecard after losing passes of weight `x` and failures of weight `y`, with `fault` the
      classes now at fault. */
  ghost predicate DeletedTo(card: Scorecard, card': Scorecard, x: nat, y: nat, fault: set<CatalogClass>) {
    && MovedBy(card, card', x, y) && WorstOf(card'.cappedBy, fault)
    && BetterUnder(card, card', GradeFor(card.passed - x, card.covered - x - y), fault)
    && (y == 0 ==> !Better(card'.grade, card.grade))
  }

  lemma MovedTo(card: Scorecard, card': Scorecard, x: nat, y: nat, fault: set<CatalogClass>)
    requires MovedBy(card, card', x, y) && WorstOf(card'.cappedBy, fault)
    requires y == 0 ==> !Better(card'.grade, card.grade)
    ensures DeletedTo(card, card', x, y, fault)
  {
    BetterUnderItsCap(card, card', GradeFor(card.passed - x, card.covered - x - y), fault);
  }

  lemma SameScopeLetter(catalog: seq<CatalogClass>, run: Run, run': Run, card: Scorecard, card': Scorecard)
    requires GoodCatalog(catalog) && Scored(catalog, run, card) && Scored(catalog, run', card')
    requires Deletion(run, run') && ScopeOf(run') == ScopeOf(run) && run'.provenance != map[]
    ensures
      var keys := run'.provenance.Keys;
      DeletedTo(card, card', LostPasses(catalog, run, keys), LostFailures(catalog, run, keys),
                FaultyUnder(catalog, run, keys))
  {
    var keys := run'.provenance.Keys;
    SameScopeFor(catalog, run, run', card, card');
    MovedTo(card, card', LostPasses(catalog, run, keys), LostFailures(catalog, run, keys),
            FaultyUnder(catalog, run, keys));
  }

  /** Deleting keys within one scope: the new scorecard, from the old record and the remaining
      keys alone. It loses exactly the weights of the classes that lose their slot or their
      findings, and is better if and only if the remaining weights beat it under the worst band
      at fault on those keys - the old cap, where the same fakes stay withheld. It never is
      where every failing class keeps a slot and a finding. */
  lemma SameScopeDeletion(run: Run, run': Run)
    requires Deletion(run, run') && ScopeOf(run') == ScopeOf(run) && run'.provenance != map[]
    requires ScoreRun(run).Ok? && ScoreRun(run').Ok?
    ensures
      var card, card', keys := ScoreRun(run).value, ScoreRun(run').value, run'.provenance.Keys;
      && DeletedTo(card, card', LostPasses(CATALOG, run, keys), LostFailures(CATALOG, run, keys),
                   FaultyUnder(CATALOG, run, keys))
      && (LostFailures(CATALOG, run, keys) == 0 <==> FailuresKept(CATALOG, run, keys))
      && (Withheld(run') == Withheld(run) ==> card'.cappedBy == card.cappedBy)
  {
    ScorecardParts(run);
    ScorecardParts(run');
    SameScopeFor(CATALOG, run, run', ScoreRun(run).value, ScoreRun(run').value);
    SameScopeLetter(CATALOG, run, run', ScoreRun(run).value, ScoreRun(run').value);
  }

  lemma NoWeightInSet(catalog: seq<CatalogClass>, which: set<CatalogClass>)
    requires GoodCatalog(catalog) && forall e | e in which :: e in catalog
    ensures WeightOf(catalog, which) == 0 <==> which == {}
  {
    NoneLostIff(catalog, which, {});
    assert which - {} == which;
  }

  lemma NoneGradedIff(catalog: seq<CatalogClass>, run: Run)
    requires GoodCatalog(catalog)
    ensures NoneGraded(catalog, run)
       <==> WeightOf(catalog, Passing(catalog, run)) + WeightOf(catalog, Failing(catalog, run)) == 0
  {
    NoWeightInSet(catalog, Passing(catalog, run));
    NoWeightInSet(catalog, Failing(catalog, run));
    if !NoneGraded(catalog, run) {
      var e :| e in catalog && Graded(e, run);
      assert e in Passing(catalog, run) || e in Failing(catalog, run);
    }
    if !(Passing(catalog, run) == {} && Failing(catalog, run) == {}) {
      var e :| e in Passing(catalog, run) || e in Failing(catalog, run);
      assert e in catalog && Graded(e, run);
    }
  }

  lemma SameScopeCoherent(catalog: seq<CatalogClass>, run: Run, run': Run)
    requires Deletion(run, run') && ScopeOf(run') == ScopeOf(run) && run'.provenance != map[]
    requires Incoherent(catalog, run')
    ensures Incoherent(catalog, run)
  {
    var e :| e in catalog && e.id == 2 && Graded(e, run');
    SameScopePassing(catalog, run, run');
    SameScopeFailing(catalog, run, run');
    assert e in Passing(catalog, run') || e in Failing(catalog, run');
  }

  lemma SameScopeLeftOver(catalog: seq<CatalogClass>, run: Run, run': Run, card: Scorecard)
    requires GoodCatalog(catalog) && Scored(catalog, run, card)
    requires Deletion(run, run') && ScopeOf(run') == ScopeOf(run) && run'.provenance != map[]
    ensures NoneGraded(catalog, run') <==>
              LostPasses(catalog, run, run'.provenance.Keys) + LostFailures(catalog, run, run'.provenance.Keys)
                == card.covered
  {
    ScoredInSets(catalog, run, card);
    SameScopePassing(catalog, run, run');
    SameScopeFailing(catalog, run, run');
    NoneGradedIff(catalog, run');
    WeightOfLess(catalog, Passing(catalog, run'), Passing(catalog, run));
    WeightOfLess(catalog, Failing(catalog, run'), Failing(catalog, run));
  }

  /** After such a deletion there is still a letter unless every graded class lost its slot or
      its findings. */
  lemma SameScopeStillGraded(run: Run, run': Run)
    requires Deletion(run, run') && ScopeOf(run') == ScopeOf(run) && run'.provenance != map[]
    requires ScoreRun(run).Ok?
    ensures ScoreRun(run').Ok? <==>
              LostPasses(CATALOG, run, run'.provenance.Keys) + LostFailures(CATALOG, run, run'.provenance.Keys)
              != ScoreRun(run).value.covered
  {
    ScorecardParts(run);
    SameScopeLeftOver(CATALOG, run, run', ScoreRun(run).value);
    if Incoherent(CATALOG, run') {
      SameScopeCoherent(CATALOG, run, run');
    }
    LetterIff(run);
    LetterIff(run');
    assert Stale(run') == Stale(run);
  }

  // ---------- Emptying the block ----------

  /** Classes that ran and hold no confirmed finding at all. */
  ghost function Spotless(catalog: seq<CatalogClass>, run: Run): set<CatalogClass> {
    set e | e in catalog && Ran(e, run) != {} && !AnyFinding(e, run)
  }

  ghost function WithFindings(catalog: seq<CatalogClass>, run: Run): set<CatalogClass> {
    set e | e in catalog && AnyFinding(e, run)
  }

  lemma UnrecordedClass(e: CatalogClass, run: Run, run': Run)
    requires Deletion(run, run') && run'.provenance == map[]
    ensures Passes(e, run') <==> Ran(e, run) != {} && !AnyFinding(e, run)
    ensures Fails(e, run') <==> AnyFinding(e, run)
    ensures AtFault(e, run') <==> AnyFinding(e, run)
  {
    assert Withheld(run') == {} && Ran(e, run') == Ran(e, run);
    if AnyFinding(e, run) {
      var f :| f in run.findings && InClass(e, f);
      assert f in run'.findings && f.probeId in Ran(e, run);
    }
  }

  lemma UnrecordedSets(catalog: seq<CatalogClass>, run: Run, run': Run)
    requires Deletion(run, run') && run'.provenance == map[]
    ensures Passing(catalog, run') == Spotless(catalog, run)
    ensures Failing(catalog, run') == WithFindings(catalog, run)
    ensures Faulty(catalog, run') == WithFindings(catalog, run)
  {
    forall e: CatalogClass
      ensures Passes(e, run') <==> Ran(e, run) != {} && !AnyFinding(e, run)
      ensures Fails(e, run') <==> AnyFinding(e, run)
      ensures AtFault(e, run') <==> AnyFinding(e, run)
    {
      UnrecordedClass(e, run, run');
    }
  }

  /** Whoever is failed, or at fault, has a confirmed finding. */
  lemma FaultsHaveFindings(catalog: seq<CatalogClass>, run: Run)
    ensures Failing(catalog, run) <= WithFindings(catalog, run)
    ensures Faulty(catalog, run) <= WithFindings(catalog, run)
    ensures forall e :: Placeable(e, run) && !AnyFinding(e, run) ==> Passes(e, run)
  {
    forall e | AtFault(e, run) || Attributable(e, run) ensures AnyFinding(e, run) {
    }
  }

  function Weighted(catalog: seq<CatalogClass>, pass: set<CatalogClass>, fail: set<CatalogClass>): Grade {
    GradeFor(WeightOf(catalog, pass), WeightOf(catalog, pass) + WeightOf(catalog, fail))
  }

  lemma MadeBetterIff(
    catalog: seq<CatalogClass>, card: Scorecard, card': Scorecard, pass: set<CatalogClass>, fail: set<CatalogClass>,
    fault: set<CatalogClass>)
    requires MadeOf(card', catalog, pass, fail, fault)
    ensures BetterUnder(card, card', Weighted(catalog, pass, fail), fault)
  {
    BetterUnderItsCap(card, card', Weighted(catalog, pass, fail), fault);
  }

  lemma EmptiedFor(catalog: seq<CatalogClass>, run: Run, run': Run, card: Scorecard, card': Scorecard)
    requires GoodCatalog(catalog) && Scored(catalog, run, card) && Scored(catalog, run', card')
    requires Deletion(run, run') && run'.provenance == map[]
    ensures MadeOf(card', catalog, Spotless(catalog, run), WithFindings(catalog, run), WithFindings(catalog, run))
    ensures (forall e | e in Spotless(catalog, run) :: Placeable(e, run)) ==> !Better(card'.grade, card.grade)
  {
    ScoredInSets(catalog, run, card);
    ScoredInSets(catalog, run', card');
    UnrecordedSets(catalog, run, run');
    FaultsHaveFindings(catalog, run);
    if forall e | e in Spotless(catalog, run) :: Placeable(e, run) {
      MadeNoBetter(catalog, card, card', Passing(catalog, run), Passing(catalog, run'),
                   Failing(catalog, run), Failing(catalog, run'), Faulty(catalog, run), Faulty(catalog, run'));
    }
  }

  /** Deleting every key: each class that ran is graded on all its confirmed findings, so the
      letter is better if and only if those weights, under the worst band with a finding, beat
      the old letter - which takes a spotless class that the record could not place before. */
  lemma EmptiedBlock(run: Run, run': Run)
    requires Deletion(run, run') && run'.provenance == map[]
    requires ScoreRun(run).Ok? && ScoreRun(run').Ok?
    ensures
      var card, card' := ScoreRun(run).value, ScoreRun(run').value;
      var clean, leaking := Spotless(CATALOG, run), WithFindings(CATALOG, run);
      && MadeOf(card', CATALOG, clean, leaking, leaking)
      && BetterUnder(card, card', Weighted(CATALOG, clean, leaking), leaking)
      && (Better(card'.grade, card.grade) ==> exists e | e in clean :: !Placeable(e, run))
  {
    ScorecardParts(run);
    ScorecardParts(run');
    var card, card' := ScoreRun(run).value, ScoreRun(run').value;
    EmptiedFor(CATALOG, run, run', card, card');
    MadeBetterIff(CATALOG, card, card', Spotless(CATALOG, run), WithFindings(CATALOG, run),
                  WithFindings(CATALOG, run));
  }

  // ---------- Deleting the last live key ----------

  /** A surface the class's slot accepts is among `keys`. */
  ghost predicate AcceptsOne(e: CatalogClass, run: Run, keys: set<Surface>) {
    exists s | s in keys :: s in AcceptedSurfaces(Ran(e, run))
  }

  ghost predicate LeaksOn(e: CatalogClass, run: Run, keys: set<Surface>) {
    exists f | f in run.findings :: InClass(e, f) && BackingSurface(f) in keys
  }

  ghost function SpotlessOn(catalog: seq<CatalogClass>, run: Run, keys: set<Surface>): set<CatalogClass> {
    set e | e in catalog && AcceptsOne(e, run, keys) && !AnyFinding(e, run)
  }

  ghost function LeakingOn(catalog: seq<CatalogClass>, run: Run, keys: set<Surface>): set<CatalogClass> {
    set e | e in catalog && AcceptsOne(e, run, keys) && LeaksOn(e, run, keys)
  }

  lemma AllFakeClass(e: CatalogClass, run: Run, run': Run)
    requires Deletion(run, run') && ScopeOf(run') == SyntheticStack
    ensures Placeable(e, run') <==> AcceptsOne(e, run, run'.provenance.Keys)
    ensures Attributable(e, run') <==> LeaksOn(e, run, run'.provenance.Keys)
    ensures AtFault(e, run') <==> AnyFinding(e, run)
  {
    assert Withheld(run') == {} && Ran(e, run') == Ran(e, run);
    if AcceptsOne(e, run, run'.provenance.Keys) {
      var s :| s in run'.provenance.Keys && s in AcceptedSurfaces(Ran(e, run));
      assert s in AcceptedSurfaces(Ran(e, run')) * run'.provenance.Keys;
    }
  }

  lemma AllFakeSets(catalog: seq<CatalogClass>, run: Run, run': Run)
    requires Deletion(run, run') && ScopeOf(run') == SyntheticStack
    ensures Passing(catalog, run') == SpotlessOn(catalog, run, run'.provenance.Keys)
    ensures Failing(catalog, run') == LeakingOn(catalog, run, run'.provenance.Keys)
    ensures Faulty(catalog, run') == WithFindings(catalog, run)
  {
    forall e: CatalogClass
      ensures Passes(e, run') <==> AcceptsOne(e, run, run'.provenance.Keys) && !AnyFinding(e, run)
      ensures Fails(e, run') <==> AcceptsOne(e, run, run'.provenance.Keys) && LeaksOn(e, run, run'.provenance.Keys)
      ensures AtFault(e, run') <==> AnyFinding(e, run)
    {
      AllFakeClass(e, run, run');
    }
  }

  lemma LastLiveKeyFor(catalog: seq<CatalogClass>, run: Run, run': Run, card: Scorecard, card': Scorecard)
    requires GoodCatalog(catalog) && Scored(catalog, run, card) && Scored(catalog, run', card')
    requires Deletion(run, run') && ScopeOf(run') == SyntheticStack
    ensures MadeOf(card', catalog, SpotlessOn(catalog, run, run'.provenance.Keys),
                   LeakingOn(catalog, run, run'.provenance.Keys), WithFindings(catalog, run))
    ensures (forall e | e in SpotlessOn(catalog, run, run'.provenance.Keys) :: Placeable(e, run)) &&
            Failing(catalog, run) <= LeakingOn(catalog, run, run'.provenance.Keys)
        ==> !Better(card'.grade, card.grade)
  {
    ScoredInSets(catalog, run, card);
    ScoredInSets(catalog, run', card');
    AllFakeSets(catalog, run, run');
    FaultsHaveFindings(catalog, run);
    var keys := run'.provenance.Keys;
    if (forall e | e in SpotlessOn(catalog, run, keys) :: Placeable(e, run)) &&
       Failing(catalog, run) <= LeakingOn(catalog, run, keys)
    {
      MadeNoBetter(catalog, card, card', Passing(catalog, run), Passing(catalog, run'),
                   Failing(catalog, run), Failing(catalog, run'), Faulty(catalog, run), Faulty(catalog, run'));
    }
  }

  /** Deleting the last live key: the record is now graded as one about the fakes, on what
      they accept and hold. The letter is better if and only if those weights, under the worst
      band with a finding, beat the old letter - which takes a spotless class that had only a
      fake, or a failing one that loses its slot or its findings. */
  lemma LastLiveKey(run: Run, run': Run)
    requires Deletion(run, run') && ScopeOf(run) == ConfiguredStack && ScopeOf(run') == SyntheticStack
    requires ScoreRun(run).Ok? && ScoreRun(run').Ok?
    ensures
      var card, card', keys := ScoreRun(run).value, ScoreRun(run').value, run'.provenance.Keys;
      var clean, leaking := SpotlessOn(CATALOG, run, keys), LeakingOn(CATALOG, run, keys);
      && MadeOf(card', CATALOG, clean, leaking, WithFindings(CATALOG, run))
      && BetterUnder(card, card', Weighted(CATALOG, clean, leaking), WithFindings(CATALOG, run))
      && (Better(card'.grade, card.grade) ==>
            || (exists e | e in clean :: !Placeable(e, run))
            || (exists e | e in Failing(CATALOG, run) :: e !in leaking))
  {
    ScorecardParts(run);
    ScorecardParts(run');
    var card, card', keys := ScoreRun(run).value, ScoreRun(run').value, run'.provenance.Keys;
    LastLiveKeyFor(CATALOG, run, run', card, card');
    MadeBetterIff(CATALOG, card, card', SpotlessOn(CATALOG, run, keys), LeakingOn(CATALOG, run, keys),
                  WithFindings(CATALOG, run));
  }
}
