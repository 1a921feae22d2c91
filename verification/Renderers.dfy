/** The scorecard, the control exporter and the signed assertions read one record; these are
    the conditions under which they say the same thing about it. */
module Renderers {
  import opened Controls
  import opened Labels
  import opened Oscal
  import opened Records
  import opened Score
  import opened ScoreLaws
  import opened Wrappers

  ghost predicate Emits(run: Run, requirement: Requirement, state: State) {
    exists c | c in Exported(run) :: c.requirement == requirement && c.state == state
  }

  ghost predicate Supports(run: Run, requirement: Requirement) {
    exists row | row in CONTROL_TABLE :: row.requirement == requirement && RunSupports(run, row)
  }

  lemma RowsHaveIds(i: nat)
    requires i < |CONTROL_TABLE|
    ensures CONTROL_TABLE[i].controlIds != []
  {
  }

  lemma EmittedIsSupported(run: Run, c: ControlFinding)
    requires c in Exported(run)
    ensures Supports(run, c.requirement)
    ensures c.state == StateOf(run, c.requirement) && !Withholds(run, c.requirement)
  {
    var rows := SupportedRows(run, CONTROL_TABLE);
    ExportedExactly(run, rows, c);
    SupportedRowsExactly(run, CONTROL_TABLE);
    var row :| row in rows && FromRow(c, row);
  }

  lemma SupportedIsEmitted(run: Run, row: Row)
    requires row in CONTROL_TABLE && RunSupports(run, row) && !Withholds(run, row.requirement)
    ensures Emits(run, row.requirement, StateOf(run, row.requirement))
  {
    var rows := SupportedRows(run, CONTROL_TABLE);
    SupportedRowsExactly(run, CONTROL_TABLE);
    var i :| 0 <= i < |CONTROL_TABLE| && CONTROL_TABLE[i] == row;
    RowsHaveIds(i);
    var c := ControlFinding(row.framework, row.controlIds[0], row.requirement, StateOf(run, row.requirement));
    assert row in rows && FromRow(c, row);
    ExportedExactly(run, rows, c);
  }

  lemma EmitsExactly(run: Run, requirement: Requirement, state: State)
    ensures Emits(run, requirement, state)
       <==> Supports(run, requirement) && StateOf(run, requirement) == state && !Withholds(run, requirement)
  {
    if Emits(run, requirement, state) {
      var c :| c in Exported(run) && c.requirement == requirement && c.state == state;
      EmittedIsSupported(run, c);
    }
    if Supports(run, requirement) && StateOf(run, requirement) == state && !Withholds(run, requirement) {
      var row :| row in CONTROL_TABLE && row.requirement == requirement && RunSupports(run, row);
      SupportedIsEmitted(run, row);
    }
  }

  /** A satisfied isolation control leaves a confirmed cross-principal finding only one place
      to rest: a surface the record itself calls a fake. */
  lemma SatisfiedIsolationIsSound(run: Run, f: Finding)
    requires Emits(run, Isolation, Satisfied)
    requires f in run.findings && f.status == Confirmed && IsCrossPrincipal(f)
    ensures ScopeOf(run) == ConfiguredStack
    ensures BackingSurface(f) in run.provenance && run.provenance[BackingSurface(f)] == Synthetic
    ensures BackingSurface(f) in Withheld(run)
  {
    EmitsExactly(run, Isolation, Satisfied);
    SupportedMeansLive(run);
    assert !HasConfirmedLeak(run) && !UnplaceableIsolation(run);
    assert BackingSurface(f) !in UnaccountedSurfaces(run);
  }

  lemma SupportedMeansLive(run: Run)
    requires Supports(run, Isolation)
    ensures IsolationSurfaces(run) != {} && ScopeOf(run) == ConfiguredStack
  {
    var row :| row in CONTROL_TABLE && row.requirement == Isolation && RunSupports(run, row);
    assert IsolationSurfaces(run) != {};
    var s :| s in IsolationSurfaces(run);
    assert s in LiveSurfaces(run);
  }

  /** A confirmed finding that crosses no principal boundary and is not on a withheld fake. */
  ghost predicate SamePrincipalFault(run: Run) {
    exists f | f in run.findings ::
      f.status == Confirmed && !IsCrossPrincipal(f) && BackingSurface(f) !in Withheld(run)
  }

  lemma FaultOfCatalogFinding(run: Run, f: Finding)
    requires f in run.findings && f.status == Confirmed && f.probeId in CatalogProbes()
    requires BackingSurface(f) !in Withheld(run)
    ensures !Clean(CATALOG, run)
  {
    var i: nat :| i < |CATALOG| && f.probeId in CATALOG[i].probes;
    assert CATALOG[i] in CATALOG && AtFault(CATALOG[i], run);
  }

  lemma GradedMeansCatalog(run: Run, f: Finding)
    requires ScoreRun(run).Ok? && f in run.findings && f.status == Confirmed
    ensures f.probeId in CatalogProbes()
  {
  }

  /** Where the exporter states a satisfied isolation control and the scorecard grades, the
      two disagree exactly over confirmed same-principal findings, which fail a class and are
      no leak to the exporter. */
  lemma RenderersDisagreeIff(run: Run)
    requires Emits(run, Isolation, Satisfied) && ScoreRun(run).Ok?
    ensures ScoreRun(run).value.grade != A <==> SamePrincipalFault(run)
    ensures ScoreRun(run).value.cappedBy.Some? <==> SamePrincipalFault(run)
  {
    LetterMeaning(run);
    if SamePrincipalFault(run) {
      var f :| f in run.findings && f.status == Confirmed && !IsCrossPrincipal(f) &&
               BackingSurface(f) !in Withheld(run);
      GradedMeansCatalog(run, f);
      FaultOfCatalogFinding(run, f);
    } else if !Clean(CATALOG, run) {
      var e :| e in CATALOG && AtFault(e, run);
      var f :| f in run.findings && InClass(e, f) && BackingSurface(f) !in Withheld(run);
      SatisfiedIsolationIsSound(run, f);
    }
  }

  ghost predicate AllCrossPrincipal(run: Run) {
    forall f | f in run.findings && f.status == Confirmed :: IsCrossPrincipal(f)
  }

  lemma DrivenSurfaceIsGraded(entry: CatalogClass, run: Run, p: ProbeId, s: Surface)
    requires p in entry.probes && p in Exercised(run) && s in ProbeSurfaces(p) && s in LiveSurfaces(run)
    ensures Placeable(entry, run)
  {
    assert p in Ran(entry, run);
    assert s in AcceptedSurfaces(Ran(entry, run)) * run.provenance.Keys;
    assert s !in Withheld(run);
  }

  lemma ProbeHasClass(p: ProbeId)
    requires ProbeSurfaces(p) != {}
    ensures ClassOf(p).Some? && ClassOf(p).value < |CATALOG| && p in CATALOG[ClassOf(p).value].probes
    ensures p !in ERASURE_WORKFLOWS
  {
  }

  lemma SomethingGraded(run: Run, classes: seq<ClassScore>, i: nat)
    requires GoodCatalog(CATALOG) && |classes| == |CATALOG| && i < |CATALOG|
    requires forall k | 0 <= k < |CATALOG| :: ScoreClass(CATALOG[k], run, Withheld(run)) == Ok(classes[k])
    requires Placeable(CATALOG[i], run) && !AtFault(CATALOG[i], run)
    ensures classes[i].verdict == Pass && CoveredWeight(classes) > 0
  {
    VerdictClosedForm(CATALOG[i], run);
    CoveredAtLeast(classes, i);
  }

  lemma {:induction false} CoveredAtLeast(classes: seq<ClassScore>, i: nat)
    requires i < |classes| && classes[i].verdict != NotGraded
    ensures CoveredWeight(classes) >= Weight(classes[i].severity)
  {
    if i > 0 {
      CoveredAtLeast(classes[1..], i - 1);
    }
  }

  /** Some class of the catalog was driven on a live surface whenever isolation is supported. */
  lemma SupportedClass(run: Run) returns (i: nat)
    requires Supports(run, Isolation)
    ensures i < |CATALOG| && Placeable(CATALOG[i], run)
  {
    SupportedMeansLive(run);
    var s :| s in IsolationSurfaces(run);
    var p :| p in Exercised(run) - ERASURE_WORKFLOWS && s in ProbeSurfaces(p);
    ProbeHasClass(p);
    i := ClassOf(p).value;
    DrivenSurfaceIsGraded(CATALOG[i], run, p, s);
  }

  lemma CleanUnderSatisfied(run: Run)
    requires Emits(run, Isolation, Satisfied) && AllCrossPrincipal(run)
    ensures Clean(CATALOG, run)
  {
    forall e | e in CATALOG ensures !AtFault(e, run) {
      if AtFault(e, run) {
        var f :| f in run.findings && InClass(e, f) && BackingSurface(f) !in Withheld(run);
        SatisfiedIsolationIsSound(run, f);
      }
    }
  }

  ghost predicate CatalogFindings(run: Run) {
    forall f | f in run.findings && f.status == Confirmed :: f.probeId in CatalogProbes()
  }

  lemma CoherentCountsScore(run: Run)
    requires run.metrics.pivotK <= run.metrics.pivotN
    ensures ScoreClasses(CATALOG, run).Ok?
  {
    CatalogIsGood();
    forall i | 0 <= i < |CATALOG| ensures ScoreClass(CATALOG[i], run, Withheld(run)).Ok? {
      RefusedForCounts(CATALOG[i], run);
    }
  }

  lemma GradesWhenClassPasses(run: Run, i: nat)
    requires CatalogFindings(run) && run.metrics.pivotK <= run.metrics.pivotN
    requires i < |CATALOG| && Placeable(CATALOG[i], run) && !AtFault(CATALOG[i], run)
    ensures ScoreRun(run).Ok?
  {
    CatalogIsGood();
    CoherentCountsScore(run);
    var classes := ScoreClasses(CATALOG, run).value;
    SomethingGraded(run, classes, i);
    assert classes[i] in classes;
  }

  /** Agreement: with every confirmed finding cross-principal and from a catalog probe, and
      class 2's counts possible, a satisfied isolation control means the scorecard grades,
      caps nothing and gives an A. */
  lemma SatisfiedMeansA(run: Run)
    requires Emits(run, Isolation, Satisfied)
    requires AllCrossPrincipal(run) && CatalogFindings(run) && run.metrics.pivotK <= run.metrics.pivotN
    ensures ScoreRun(run).Ok?
    ensures ScoreRun(run).value.grade == A && ScoreRun(run).value.cappedBy == None
  {
    EmitsExactly(run, Isolation, Satisfied);
    var i := SupportedClass(run);
    CleanUnderSatisfied(run);
    assert CATALOG[i] in CATALOG;
    GradesWhenClassPasses(run, i);
    LetterMeaning(run);
  }

  /** What an A means for the exporter, whatever the run scanned: no isolation control it
      states is failed, and it states one - satisfied - exactly where some live surface that the
      isolation probes drove was not scanned for erasure. */
  lemma AMeansNoFailure(run: Run)
    requires ScoreRun(run).Ok? && ScoreRun(run).value.grade == A
    ensures !Emits(run, Isolation, NotSatisfied)
    ensures Emits(run, Isolation, Satisfied) <==> IsolationSurfaces(run) != {}
  {
    NoLeakUnderA(run);
    if IsolationSurfaces(run) != {} {
      SurfacesMeanSupported(run);
    }
    if Supports(run, Isolation) {
      SupportedMeansLive(run);
    }
    EmitsExactly(run, Isolation, Satisfied);
    EmitsExactly(run, Isolation, NotSatisfied);
  }

  lemma NoLeakUnderA(run: Run)
    requires ScoreRun(run).Ok? && ScoreRun(run).value.grade == A
    ensures !HasConfirmedLeak(run) && !UnplaceableIsolation(run)
  {
    LetterMeaning(run);
    forall f | f in run.findings && f.status == Confirmed ensures BackingSurface(f) in Withheld(run) {
      GradedMeansCatalog(run, f);
      if BackingSurface(f) !in Withheld(run) {
        FaultOfCatalogFinding(run, f);
      }
    }
  }

  /** So for a run with live surfaces and no erasure scan an A means an isolation control is
      stated, and every one stated is satisfied. */
  lemma AMeansSatisfied(run: Run)
    requires ScoreRun(run).Ok? && ScoreRun(run).value.grade == A
    requires ScopeOf(run) == ConfiguredStack && run.metrics.erasureCoverage == map[]
    ensures Emits(run, Isolation, Satisfied) && !Emits(run, Isolation, NotSatisfied)
  {
    AMeansNoFailure(run);
    GradedHasSurfaces(run);
  }

  lemma GradedClassDroveLive(entry: CatalogClass, run: Run) returns (p: ProbeId, s: Surface)
    requires forall q | q in entry.probes :: ProbeSurfaces(q) != {}
    requires ScoreClass(entry, run, Withheld(run)).Ok? && ScopeOf(run) == ConfiguredStack
    requires ScoreClass(entry, run, Withheld(run)).value.verdict != NotGraded
    ensures p in Exercised(run) && s in ProbeSurfaces(p) && s in LiveSurfaces(run)
  {
    VerdictClosedForm(entry, run);
    var backing := AcceptedSurfaces(Ran(entry, run)) * run.provenance.Keys;
    s :| s in backing && s !in Withheld(run);
    p :| p in Ran(entry, run) && s in ProbeSurfaces(p);
  }

  lemma LiveProbeHasSurface(run: Run, p: ProbeId, s: Surface)
    requires run.metrics.erasureCoverage == map[]
    requires p in Exercised(run) && s in ProbeSurfaces(p) && s in LiveSurfaces(run)
    ensures s in IsolationSurfaces(run)
  {
    ProbeHasClass(p);
    assert p in Exercised(run) - ERASURE_WORKFLOWS;
    assert s in Drove(run) && s !in ErasureScannedSurfaces(run);
  }

  lemma SurfacesMeanSupported(run: Run)
    requires IsolationSurfaces(run) != {}
    ensures Supports(run, Isolation)
  {
    var s :| s in IsolationSurfaces(run);
    assert Exercised(run) - ERASURE_WORKFLOWS != {};
    Unrestricted();
    UnrestrictedRowSupported(run, CONTROL_TABLE[0], s);
    assert CONTROL_TABLE[0] in CONTROL_TABLE;
  }

  lemma UnrestrictedRowSupported(run: Run, row: Row, s: Surface)
    requires row.requirement == Isolation && row.surfaces == {} && s in IsolationSurfaces(run)
    requires Exercised(run) - ERASURE_WORKFLOWS != {}
    ensures RunSupports(run, row)
  {
    assert s in LiveSurfaces(run) * IsolationSurfaces(run);
  }

  lemma GradedHasSurfaces(run: Run)
    requires ScoreRun(run).Ok?
    requires ScopeOf(run) == ConfiguredStack && run.metrics.erasureCoverage == map[]
    ensures IsolationSurfaces(run) != {}
  {
    CatalogIsGood();
    var classes := ScoreClasses(CATALOG, run).value;
    var c :| c in classes && c.verdict != NotGraded;
    var i :| 0 <= i < |classes| && classes[i] == c;
    var p, s := GradedClassDroveLive(CATALOG[i], run);
    LiveProbeHasSurface(run, p, s);
  }

  lemma Unrestricted()
    ensures CONTROL_TABLE[0].requirement == Isolation && CONTROL_TABLE[0].surfaces == {}
  {
  }

  /** Verdict wording equals state: a stated erasure control is satisfied and leaves no doubt
      about a surface it calls erased, exactly when its signed assertion reads "verified". */
  lemma WordingMatchesState(run: Run, row: Row, mapping: Mapping)
    requires ValidMetrics(run.metrics)
    requires row in CONTROL_TABLE && row.requirement == Erasure && RunSupports(run, row)
    requires States(run, mapping, row)
    ensures mapping.assertion.failures == []
       <==> StateOf(run, Erasure) == Satisfied &&
            forall s | s in mapping.assertion.named && CoverageOf(run, s) == Erased :: UnverifiableOn(run, s) <= 0
  {
    ErasureSupportedIff(run, row);
    var named := mapping.assertion.named;
    var live := LiveSurfaces(run) * ERASURE_SURFACES;
    assert named <= live;
    if mapping.assertion.failures == [] {
      forall s | s in live ensures s !in ResidualSurfaces(run) {
        assert s !in Inconclusive(run, named);
      }
      assert ResidualSurfaces(run) == {};
      forall s | s in named ensures UnverifiableOn(run, s) <= 0 {
        assert s !in Inconclusive(run, named);
      }
    } else if ResidualSurfaces(run) == {} {
      forall s | s in live ensures CoverageOf(run, s) != NotCovered {
        assert s !in ResidualSurfaces(run);
      }
      forall s | s in named ensures CoverageOf(run, s) == Erased {
        assert s !in ResidualSurfaces(run);
      }
      assert Inconclusive(run, named) != {};
      var s :| s in Inconclusive(run, named);
    }
  }
}
