/** One more finding in a record: exactly when its letter is better for one that holds nothing
    against any class - an unverified finding, or one on a withheld fake - and exactly when one
    more finding of any kind turns a letter into a refusal. */
module MoreFindings {
  import opened Labels
  import opened Letters
  import opened Records
  import opened Score
  import opened ScoreLaws
  import opened Wrappers

  /** One of the surfaces is recorded and not withheld. */
  ghost predicate SlotCounts(run: Run, surfaces: set<Surface>) {
    exists s | s in surfaces :: s in run.provenance && s !in Withheld(run)
  }

  /** The finding's probe brings its class a slot that counts, where no probe that ran had one;
      a record with no provenance asks only that some probe of the class ran. */
  ghost predicate Enters(e: CatalogClass, run: Run, f: Finding) {
    && f.probeId in e.probes
    && if run.provenance == map[] then Ran(e, run) == {}
       else SlotCounts(run, ProbeSurfaces(f.probeId)) && !SlotCounts(run, AcceptedSurfaces(Ran(e, run)))
  }

  lemma PlaceableIfCounted(e: CatalogClass, run: Run)
    ensures Placeable(e, run) <==>
              if run.provenance == map[] then Ran(e, run) != {} else SlotCounts(run, AcceptedSurfaces(Ran(e, run)))
  {
    var accepted := AcceptedSurfaces(Ran(e, run));
    if SlotCounts(run, accepted) {
      var s :| s in accepted && s in run.provenance && s !in Withheld(run);
      assert s in accepted * run.provenance.Keys;
      assert Ran(e, run) != {};
    }
  }

  lemma RanAfterInsert(e: CatalogClass, run: Run, at: nat, f: Finding)
    requires at <= |run.findings|
    ensures Ran(e, WithFinding(run, at, f)) == Ran(e, run) + {f.probeId} * e.probes
  {
    FindingsAfterInsert(run, at, f);
    assert f in WithFinding(run, at, f).findings;
    forall p | p in Exercised(WithFinding(run, at, f)) ensures p in Exercised(run) || p == f.probeId {
    }
    forall p | p in Exercised(run) ensures p in Exercised(WithFinding(run, at, f)) {
      if p !in run.probeVersions {
        var g :| g in run.findings && g.probeId == p;
        assert g in WithFinding(run, at, f).findings;
      }
    }
  }

  lemma AcceptedOfMore(e: CatalogClass, run: Run, at: nat, f: Finding)
    requires at <= |run.findings| && f.probeId in e.probes
    ensures AcceptedSurfaces(Ran(e, WithFinding(run, at, f)))
         == AcceptedSurfaces(Ran(e, run)) + ProbeSurfaces(f.probeId)
    ensures f.probeId in Ran(e, run) ==> ProbeSurfaces(f.probeId) <= AcceptedSurfaces(Ran(e, run))
  {
    RanAfterInsert(e, run, at, f);
    assert {f.probeId} * e.probes == {f.probeId};
  }

  /** One more finding, of any status and on any surface, places its own class if its probe
      brings a slot that counts where there was none, and moves no other. */
  lemma PlaceableAfterInsert(e: CatalogClass, run: Run, at: nat, f: Finding)
    requires at <= |run.findings|
    ensures Placeable(e, WithFinding(run, at, f)) <==> Placeable(e, run) || Enters(e, run, f)
    ensures Enters(e, run, f) ==> !Placeable(e, run) && f.probeId !in Exercised(run)
  {
    var run' := WithFinding(run, at, f);
    assert Withheld(run') == Withheld(run);
    PlaceableIfCounted(e, run);
    PlaceableIfCounted(e, run');
    RanAfterInsert(e, run, at, f);
    if f.probeId in e.probes {
      AcceptedOfMore(e, run, at, f);
      assert f.probeId in Exercised(run) ==> f.probeId in Ran(e, run);
    } else {
      assert Ran(e, run') == Ran(e, run);
    }
  }

  /** A finding that holds nothing against any class: unverified, or on a withheld fake. */
  predicate Harmless(run: Run, f: Finding) {
    f.status == Unverified || BackingSurface(f) in Withheld(run)
  }

  lemma HarmlessFindingClass(e: CatalogClass, run: Run, at: nat, f: Finding)
    requires at <= |run.findings| && Harmless(run, f)
    ensures var run' := WithFinding(run, at, f);
            && (AtFault(e, run') <==> AtFault(e, run))
            && (Attributable(e, run') <==> Attributable(e, run))
            && (Placeable(e, run') <==> Placeable(e, run) || Enters(e, run, f))
  {
    FindingsAfterInsert(run, at, f);
    assert Withheld(WithFinding(run, at, f)) == Withheld(run);
    PlaceableAfterInsert(e, run, at, f);
  }

  lemma EntryIsAlone(catalog: seq<CatalogClass>, e: CatalogClass, p: ProbeId)
    requires GoodCatalog(catalog) && e in catalog && p in e.probes
    ensures WeightOf(catalog, {e}) == Weight(e.severity)
    ensures forall d | d in catalog && p in d.probes :: d == e
  {
    var j: nat :| j < |catalog| && catalog[j] == e;
    forall i | 0 <= i < |catalog| && i != j ensures p !in catalog[i].probes {
      if i < j {
        assert catalog[i].probes !! catalog[j].probes;
      } else {
        assert catalog[j].probes !! catalog[i].probes;
      }
    }
    WeightOfOne(catalog, j);
  }

  lemma HarmlessFindingSets(catalog: seq<CatalogClass>, run: Run, at: nat, f: Finding, e: CatalogClass)
    requires GoodCatalog(catalog) && e in catalog && f.probeId in e.probes
    requires at <= |run.findings| && Harmless(run, f)
    ensures
      var run' := WithFinding(run, at, f);
      && Faulty(catalog, run') == Faulty(catalog, run)
      && Passing(catalog, run') - Passing(catalog, run)
         == (if Enters(e, run, f) && !AtFault(e, run) then {e} else {})
      && Failing(catalog, run') - Failing(catalog, run)
         == (if Enters(e, run, f) && Attributable(e, run) then {e} else {})
      && Passing(catalog, run) <= Passing(catalog, run') && Failing(catalog, run) <= Failing(catalog, run')
  {
    var run' := WithFinding(run, at, f);
    EntryIsAlone(catalog, e, f.probeId);
    forall d | d in catalog
      ensures AtFault(d, run') <==> AtFault(d, run)
      ensures Passes(d, run') <==> Passes(d, run) || (d == e && Enters(e, run, f) && !AtFault(e, run))
      ensures Fails(d, run') <==> Fails(d, run) || (d == e && Enters(e, run, f) && Attributable(e, run))
      ensures d == e && Enters(e, run, f) ==> !Passes(d, run) && !Fails(d, run)
    {
      HarmlessFindingClass(d, run, at, f);
      PlaceableAfterInsert(d, run, at, f);
    }
  }

  /** A scorecard that has gained passes of weight `x` and failures of weight `y`, under the
      same cap. */
  predicate GrownBy(card: Scorecard, card': Scorecard, x: nat, y: nat) {
    && card'.passed == card.passed + x && card'.covered == card.covered + x + y
    && card'.cappedBy == card.cappedBy
    && card'.grade == FinalGrade(GradeFor(card.passed + x, card.covered + x + y), card.cappedBy)
  }

  lemma GrownScore(card: Scorecard, card': Scorecard, p': nat, q': nat, x: nat, y: nat)
    requires x <= p' && y <= q' && card.passed == p' - x && card.covered == p' - x + (q' - y)
    requires card'.cappedBy == card.cappedBy
    requires card'.passed == p' && card'.covered == p' + q' && card'.grade == Letter(p', q', card'.cappedBy)
    ensures GrownBy(card, card', x, y)
  {
    assert card.covered + x + y == p' + q';
  }

  lemma MadeOfMore(
    catalog: seq<CatalogClass>, card: Scorecard, card': Scorecard, pass: set<CatalogClass>, pass': set<CatalogClass>,
    fail: set<CatalogClass>, fail': set<CatalogClass>, fault: set<CatalogClass>)
    requires MadeOf(card, catalog, pass, fail, fault) && MadeOf(card', catalog, pass', fail', fault)
    requires pass <= pass' && fail <= fail' && card'.cappedBy == card.cappedBy
    ensures GrownBy(card, card', WeightOf(catalog, pass' - pass), WeightOf(catalog, fail' - fail))
  {
    WeightOfLess(catalog, pass, pass');
    WeightOfLess(catalog, fail, fail');
    GrownScore(card, card', WeightOf(catalog, pass'), WeightOf(catalog, fail'),
               WeightOf(catalog, pass' - pass), WeightOf(catalog, fail' - fail));
  }

  lemma {:induction false} NoWeight(catalog: seq<CatalogClass>)
    ensures WeightOf(catalog, {}) == 0
  {
    if catalog != [] {
      NoWeight(catalog[1..]);
    }
  }

  lemma HarmlessFindingFor(
    catalog: seq<CatalogClass>, run: Run, at: nat, f: Finding, e: CatalogClass, card: Scorecard, card': Scorecard)
    requires GoodCatalog(catalog) && e in catalog && f.probeId in e.probes
    requires at <= |run.findings| && Harmless(run, f)
    requires Scored(catalog, run, card) && Scored(catalog, WithFinding(run, at, f), card')
    ensures GrownBy(card, card', if Enters(e, run, f) && !AtFault(e, run) then Weight(e.severity) else 0,
                    if Enters(e, run, f) && Attributable(e, run) then Weight(e.severity) else 0)
  {
    var run' := WithFinding(run, at, f);
    ScoredInSets(catalog, run, card);
    ScoredInSets(catalog, run', card');
    HarmlessFindingSets(catalog, run, at, f, e);
    EntryIsAlone(catalog, e, f.probeId);
    NoWeight(catalog);
    WorstOfMore(card.cappedBy, card'.cappedBy, Faulty(catalog, run), Faulty(catalog, run));
    MadeOfMore(catalog, card, card', Passing(catalog, run), Passing(catalog, run'),
               Failing(catalog, run), Failing(catalog, run'), Faulty(catalog, run));
  }

  /** Gaining a failure, or nothing, never improves a letter. */
  lemma GrownNoBetter(card: Scorecard, card': Scorecard, y: nat)
    requires card.passed <= card.covered
    requires card.grade == FinalGrade(GradeFor(card.passed, card.covered), card.cappedBy)
    requires GrownBy(card, card', 0, y)
    ensures !Better(card'.grade, card.grade)
    ensures y == 0 ==> card'.grade == card.grade
  {
    LetterNoBetter(card.passed, card.covered - card.passed, card.cappedBy,
                   card.passed, card.covered - card.passed + y, card.cappedBy);
  }

  /** How a class of weight `w` moves a letter when it may enter the score: not at all where
      it does not enter, and for the better if and only if it enters without fault and its
      weight lifts the grade past the cap. */
  predicate MovesByEntering(card: Scorecard, card': Scorecard, w: nat, enters: bool, fault: bool) {
    && card'.cappedBy == card.cappedBy
    && (!enters ==> card'.grade == card.grade)
    && (Better(card'.grade, card.grade)
        <==> enters && !fault &&
             Better(FinalGrade(GradeFor(card.passed + w, card.covered + w), card.cappedBy), card.grade))
  }

  lemma GrownLetter(card: Scorecard, card': Scorecard, w: nat, enters: bool, fault: bool, fails: bool)
    requires card.passed <= card.covered && (fails ==> fault)
    requires card.grade == FinalGrade(GradeFor(card.passed, card.covered), card.cappedBy)
    requires GrownBy(card, card', if enters && !fault then w else 0, if enters && fails then w else 0)
    ensures MovesByEntering(card, card', w, enters, fault)
  {
    if !enters || fault {
      GrownNoBetter(card, card', if enters && fails then w else 0);
    }
  }

  lemma AttributableIsAtFault(e: CatalogClass, run: Run)
    requires Attributable(e, run)
    ensures AtFault(e, run)
  {
  }

  lemma ScoredPasses(catalog: seq<CatalogClass>, run: Run, card: Scorecard)
    requires Scored(catalog, run, card)
    ensures card.passed <= card.covered
    ensures card.grade == FinalGrade(GradeFor(card.passed, card.covered), card.cappedBy)
  {
    PassedAtMostCovered(card.classes);
  }

  lemma HarmlessFindingLetter(
    catalog: seq<CatalogClass>, run: Run, at: nat, f: Finding, e: CatalogClass, card: Scorecard, card': Scorecard)
    requires GoodCatalog(catalog) && e in catalog && f.probeId in e.probes
    requires at <= |run.findings| && Harmless(run, f)
    requires Scored(catalog, run, card) && Scored(catalog, WithFinding(run, at, f), card')
    ensures MovesByEntering(card, card', Weight(e.severity), Enters(e, run, f), AtFault(e, run))
  {
    HarmlessFindingFor(catalog, run, at, f, e, card, card');
    ScoredPasses(catalog, run, card);
    if Attributable(e, run) {
      AttributableIsAtFault(e, run);
    }
    GrownLetter(card, card', Weight(e.severity), Enters(e, run, f), AtFault(e, run), Attributable(e, run));
  }

  /** One more unverified finding, or confirmed one on a withheld fake: the letter stays as it
      was unless the finding's class becomes placeable - its probe, new to the run, brings a slot
      that counts where the class had none. And it is better if and only if that class is without
      fault and its weight lifts the grade past the cap. */
  lemma HarmlessFinding(run: Run, at: nat, f: Finding, e: CatalogClass)
    requires at <= |run.findings| && Harmless(run, f) && e in CATALOG && f.probeId in e.probes
    requires ScoreRun(run).Ok? && ScoreRun(WithFinding(run, at, f)).Ok?
    ensures MovesByEntering(ScoreRun(run).value, ScoreRun(WithFinding(run, at, f)).value,
                            Weight(e.severity), Enters(e, run, f), AtFault(e, run))
    ensures Enters(e, run, f) <==> Placeable(e, WithFinding(run, at, f)) && !Placeable(e, run)
    ensures Enters(e, run, f) ==> f.probeId !in Exercised(run)
  {
    ScorecardParts(run);
    ScorecardParts(WithFinding(run, at, f));
    HarmlessFindingLetter(CATALOG, run, at, f, e, ScoreRun(run).value, ScoreRun(WithFinding(run, at, f)).value);
    PlaceableAfterInsert(e, run, at, f);
  }

  // ---------- When one more finding refuses the letter ----------

  lemma OnlyItsClassMoves(
    catalog: seq<CatalogClass>, run: Run, at: nat, f: Finding, e: CatalogClass, d: CatalogClass)
    requires GoodCatalog(catalog) && e in catalog && d in catalog && d != e
    requires at <= |run.findings| && f.probeId in e.probes
    ensures Graded(d, WithFinding(run, at, f)) <==> Graded(d, run)
  {
    EntryIsAlone(catalog, e, f.probeId);
    OtherClassUnmoved(d, run, at, f);
    PlaceableAfterInsert(d, run, at, f);
  }

  lemma RefusalsAfterInsert(catalog: seq<CatalogClass>, run: Run, at: nat, f: Finding, e: CatalogClass)
    requires GoodCatalog(catalog) && e in catalog && !Incoherent(catalog, run)
    requires at <= |run.findings| && f.probeId in e.probes
    ensures
      var run' := WithFinding(run, at, f);
      && (Incoherent(catalog, run')
          <==> run.metrics.pivotK > run.metrics.pivotN && e.id == 2 && Graded(e, run'))
      && (NoneGraded(catalog, run')
          <==> !Graded(e, run') && forall d | d in catalog && d != e :: !Graded(d, run))
  {
    forall d | d in catalog && d != e ensures Graded(d, WithFinding(run, at, f)) <==> Graded(d, run) {
      OnlyItsClassMoves(catalog, run, at, f, e, d);
    }
  }

  lemma StaleAfterInsert(run: Run, at: nat, f: Finding)
    requires at <= |run.findings| && !Stale(run)
    ensures Stale(WithFinding(run, at, f)) <==> f.status == Confirmed && f.probeId !in CatalogProbes()
  {
    FindingsAfterInsert(run, at, f);
    if f.status == Confirmed && f.probeId !in CatalogProbes() {
      assert f in WithFinding(run, at, f).findings;
    }
  }

  lemma ClassProbeIsCatalogProbe(e: CatalogClass, p: ProbeId)
    requires e in CATALOG && p in e.probes
    ensures p in CatalogProbes()
  {
    var i: nat :| i < |CATALOG| && CATALOG[i] == e;
  }

  /** Whether the finding's class has a verdict once the finding is there. A harmless finding
      decides it by its slot alone; any other is at fault, so it must also be attributable. */
  ghost predicate GradedWith(e: CatalogClass, run: Run, f: Finding) {
    && (Placeable(e, run) || Enters(e, run, f))
    && if Harmless(run, f) then AtFault(e, run) ==> Attributable(e, run)
       else Attributable(e, run) || run.provenance == map[] || BackingSurface(f) in run.provenance
  }

  lemma GradedAfterInsert(e: CatalogClass, run: Run, at: nat, f: Finding)
    requires at <= |run.findings| && f.probeId in e.probes
    ensures Graded(e, WithFinding(run, at, f)) <==> GradedWith(e, run, f)
  {
    var run' := WithFinding(run, at, f);
    PlaceableAfterInsert(e, run, at, f);
    if Harmless(run, f) {
      HarmlessFindingClass(e, run, at, f);
    } else {
      FindingsAfterInsert(run, at, f);
      assert Withheld(run') == Withheld(run) && f in run'.findings && InClass(e, f);
      assert AtFault(e, run');
    }
  }

  /** Exactly when a graded record with one more finding is refused: for a confirmed finding of
      a probe no class knows; for counts that cannot be, where the finding brings class 2 a
      verdict; and because nothing is graded any more, where the finding leaves the only graded
      class without one. */
  lemma RefusedWithFindingIff(run: Run, at: nat, f: Finding)
    requires at <= |run.findings| && ScoreRun(run).Ok?
    ensures ScoreRun(WithFinding(run, at, f)) == Err(StaleCatalog)
       <==> f.status == Confirmed && f.probeId !in CatalogProbes()
    ensures forall e | e in CATALOG && f.probeId in e.probes ::
              && (ScoreRun(WithFinding(run, at, f)) == Err(IncoherentCounts)
                  <==> run.metrics.pivotK > run.metrics.pivotN && e.id == 2 && GradedWith(e, run, f))
              && (ScoreRun(WithFinding(run, at, f)) == Err(NothingGradeable)
                  <==> !GradedWith(e, run, f) && forall d | d in CATALOG && d != e :: !Graded(d, run))
  {
    var run' := WithFinding(run, at, f);
    LetterIff(run);
    ScoredOrRefused(run');
    StaleAfterInsert(run, at, f);
    CatalogIsGood();
    forall e | e in CATALOG && f.probeId in e.probes
      ensures Incoherent(CATALOG, run') <==>
                run.metrics.pivotK > run.metrics.pivotN && e.id == 2 && GradedWith(e, run, f)
      ensures NoneGraded(CATALOG, run') <==>
                !GradedWith(e, run, f) && forall d | d in CATALOG && d != e :: !Graded(d, run)
      ensures !Stale(run')
    {
      ClassProbeIsCatalogProbe(e, f.probeId);
      GradedAfterInsert(e, run, at, f);
      RefusalsAfterInsert(CATALOG, run, at, f, e);
    }
  }

  lemma UnknownProbeMovesNothing(catalog: seq<CatalogClass>, run: Run, at: nat, f: Finding)
    requires at <= |run.findings| && forall e | e in catalog :: f.probeId !in e.probes
    ensures
      var run' := WithFinding(run, at, f);
      && Passing(catalog, run') == Passing(catalog, run) && Failing(catalog, run') == Failing(catalog, run)
      && Faulty(catalog, run') == Faulty(catalog, run)
  {
    forall e | e in catalog
      ensures Passes(e, WithFinding(run, at, f)) <==> Passes(e, run)
      ensures Fails(e, WithFinding(run, at, f)) <==> Fails(e, run)
      ensures AtFault(e, WithFinding(run, at, f)) <==> AtFault(e, run)
    {
      OtherClassUnmoved(e, run, at, f);
      PlaceableAfterInsert(e, run, at, f);
    }
  }

  lemma SameSetsSameLetter(
    catalog: seq<CatalogClass>, card: Scorecard, card': Scorecard, pass: set<CatalogClass>, fail: set<CatalogClass>,
    fault: set<CatalogClass>)
    requires MadeOf(card, catalog, pass, fail, fault) && MadeOf(card', catalog, pass, fail, fault)
    ensures card'.grade == card.grade && card'.cappedBy == card.cappedBy
  {
    WorstOfMore(card.cappedBy, card'.cappedBy, fault, fault);
  }

  /** A finding of a probe no class knows changes no letter that is still given. */
  lemma UnknownProbeKeepsLetter(run: Run, at: nat, f: Finding)
    requires at <= |run.findings| && forall e | e in CATALOG :: f.probeId !in e.probes
    requires ScoreRun(run).Ok? && ScoreRun(WithFinding(run, at, f)).Ok?
    ensures ScoreRun(WithFinding(run, at, f)).value.grade == ScoreRun(run).value.grade
  {
    var run' := WithFinding(run, at, f);
    LetterClosedForm(run);
    LetterClosedForm(run');
    UnknownProbeMovesNothing(CATALOG, run, at, f);
    SameSetsSameLetter(CATALOG, ScoreRun(run).value, ScoreRun(run').value, Passing(CATALOG, run),
                       Failing(CATALOG, run), Faulty(CATALOG, run));
  }
}
