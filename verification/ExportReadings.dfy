/** The control exporter read in a record's own fields: in which state each requirement is
    stated, when it is not stated at all, and which controls there are to state. */
module ExportReadings {
  import opened Controls
  import opened Labels
  import opened Oscal
  import opened RecordReadings
  import opened Records
  import opened Renderers
  import opened Score

  /** The finding's two tenants differ, or both its users are named and differ. */
  predicate CrossesPrincipals(f: Finding) {
    f.ownerTenant != f.observedInTenant || CrossesUsers(f)
  }

  predicate CrossesUsers(f: Finding) {
    f.ownerUser.Some? && f.observedInUser.Some? && f.ownerUser.value != f.observedInUser.value
  }

  /** A live surface that some isolation probe of the run drove and that no erasure scan reached
      a verdict on. */
  ghost predicate DroveLive(run: Run, s: Surface) {
    && IsLive(run, s) && !ScannedForErasure(run, s)
    && exists p :: p != GdprErasure && p != GdprSubjectErasure && ProbeRan(run, p) && s in ProbeSurfaces(p)
  }

  predicate ScannedForErasure(run: Run, s: Surface) {
    s in run.metrics.erasureCoverage && run.metrics.erasureCoverage[s] != NotCovered
  }

  lemma ExercisedIsProbeRan(run: Run, p: ProbeId)
    ensures p in Exercised(run) <==> ProbeRan(run, p)
  {
    if ProbeRan(run, p) && p !in run.probeVersions {
      var f :| f in run.findings && f.probeId == p;
    }
  }

  lemma IsolationSurfacesInFields(run: Run, s: Surface)
    ensures s in IsolationSurfaces(run) <==> DroveLive(run, s)
  {
    forall p ensures p in Exercised(run) <==> ProbeRan(run, p) {
      ExercisedIsProbeRan(run, p);
    }
    if DroveLive(run, s) {
      var p :| p != GdprErasure && p != GdprSubjectErasure && ProbeRan(run, p) && s in ProbeSurfaces(p);
      assert p in Exercised(run) - ERASURE_WORKFLOWS;
      assert s in Drove(run);
    }
  }

  lemma SupportsIsolationInFields(run: Run)
    ensures Supports(run, Isolation) <==> exists s :: DroveLive(run, s)
  {
    forall s {
      IsolationSurfacesInFields(run, s);
    }
    if Supports(run, Isolation) {
      SupportedMeansLive(run);
      var s :| s in IsolationSurfaces(run);
      assert DroveLive(run, s);
    }
    if s :| DroveLive(run, s) {
      assert s in IsolationSurfaces(run);
      SurfacesMeanSupported(run);
    }
  }

  lemma LeakInFields(run: Run)
    ensures HasConfirmedLeak(run)
       <==> exists f | f in run.findings :: f.status == Confirmed && RestsOnLive(run, f) && CrossesPrincipals(f)
    ensures run.provenance != map[] ==>
              (UnplaceableIsolation(run) <==>
                exists f | f in run.findings :: f.status == Confirmed && RestsOnNothing(run, f) && CrossesPrincipals(f))
  {
    forall f {
      FindingRests(run, f);
    }
  }

  /** Isolation controls. Where some live surface was driven and left to them, they are stated
      not satisfied if and only if a confirmed finding rests on a live surface and crosses a
      tenant or a user boundary; they are stated satisfied if and only if there is none such and
      none on a surface the record does not account for; and where no surface was driven they
      are not stated. */
  lemma IsolationInFields(run: Run)
    ensures Emits(run, Isolation, NotSatisfied) <==>
              && (exists s :: DroveLive(run, s))
              && (exists f | f in run.findings :: f.status == Confirmed && RestsOnLive(run, f) && CrossesPrincipals(f))
    ensures Emits(run, Isolation, Satisfied) <==>
              && (exists s :: DroveLive(run, s))
              && (forall f | f in run.findings && f.status == Confirmed && CrossesPrincipals(f) :: RestsOnFake(run, f))
  {
    SupportsIsolationInFields(run);
    EmitsExactly(run, Isolation, Satisfied);
    EmitsExactly(run, Isolation, NotSatisfied);
    LeakInFields(run);
    forall f {
      FindingRests(run, f);
    }
    if s :| DroveLive(run, s) {
      assert run.provenance != map[];
    }
  }

  /** The surfaces no erasure scan reaches. */
  const OUT_OF_REACH: set<Surface> := {Api, RagPipeline, PromptLogs, KvCache, AgentFramework, Mcp}

  lemma ReachedIff(s: Surface)
    ensures s in ERASURE_SURFACES <==> s !in OUT_OF_REACH
  {
  }

  /** What the record says of a surface's erasure. */
  predicate CalledErased(run: Run, s: Surface) {
    s in run.metrics.erasureCoverage && run.metrics.erasureCoverage[s] == Erased
  }

  predicate ClearedOrResidual(run: Run, s: Surface) {
    IsLive(run, s) && s in run.metrics.erasureCoverage && run.metrics.erasureCoverage[s] in {Erased, Residual}
  }

  lemma SupportsErasureInFields(run: Run)
    ensures Supports(run, Erasure) <==> exists s :: ClearedOrResidual(run, s)
  {
    ErasureRows();
    if Supports(run, Erasure) {
      var row :| row in CONTROL_TABLE && row.requirement == Erasure && RunSupports(run, row);
      ErasureSupportedIff(run, row);
      var s :| s in ErasureScannedSurfaces(run) && CoverageOf(run, s) in {Erased, Residual};
      assert ClearedOrResidual(run, s);
    }
    if s :| ClearedOrResidual(run, s) {
      var row := CONTROL_TABLE[4];
      assert row in CONTROL_TABLE;
      ErasureSupportedIff(run, row);
      assert s in ErasureScannedSurfaces(run) && CoverageOf(run, s) in {Erased, Residual};
      assert RunSupports(run, row);
    }
  }

  lemma ErasureRows()
    ensures CONTROL_TABLE[4].requirement == Erasure
  {
  }

  lemma ResidueInFields(run: Run)
    requires run.metrics.erasureCoverage != map[]
    ensures ResidualSurfaces(run) != {} <==> exists s | s in ERASURE_SURFACES :: IsLive(run, s) && !CalledErased(run, s)
  {
    forall s ensures s in ResidualSurfaces(run) <==> s in ERASURE_SURFACES && IsLive(run, s) && !CalledErased(run, s) {
      if s in run.metrics.erasureCoverage {
        match run.metrics.erasureCoverage[s]
        case Erased =>
        case Residual =>
        case AttestableWithCaveat =>
        case NotCovered =>
      }
    }
  }

  /** Without an erasure scan there is nothing to call residue. */
  lemma NoScanNoResidue(run: Run)
    requires run.metrics.erasureCoverage == map[]
    ensures ResidualSurfaces(run) == {}
  {
  }

  /** Erasure controls. Where some live surface was cleared or shown to hold residue, they are
      stated not satisfied if and only if some live surface an erasure scan can reach is not
      called erased; they are stated satisfied if and only if all are, and no confirmed finding
      within one principal rests on such a surface that the record does not account for. */
  lemma ErasureInFields(run: Run)
    ensures Emits(run, Erasure, NotSatisfied) <==>
              && (exists s :: ClearedOrResidual(run, s))
              && (exists s | s in ERASURE_SURFACES :: IsLive(run, s) && !CalledErased(run, s))
    ensures Emits(run, Erasure, Satisfied) <==>
              && (exists s :: ClearedOrResidual(run, s))
              && (forall s | s in ERASURE_SURFACES && IsLive(run, s) :: CalledErased(run, s))
              && (forall f | f in run.findings && f.status == Confirmed && !CrossesPrincipals(f) ::
                    RestsOnNothing(run, f) ==> !(if f.surface == KvCache then ModelAdapter in ERASURE_SURFACES
                                                 else f.surface in ERASURE_SURFACES))
  {
    SupportsErasureInFields(run);
    EmitsExactly(run, Erasure, Satisfied);
    EmitsExactly(run, Erasure, NotSatisfied);
    if s :| ClearedOrResidual(run, s) {
      assert run.metrics.erasureCoverage != map[] && run.provenance != map[];
      ResidueInFields(run);
      WithheldErasureInFields(run);
    }
  }

  lemma WithheldErasureInFields(run: Run)
    requires run.provenance != map[]
    ensures UnplaceableErasure(run) <==>
              exists f | f in run.findings ::
                && f.status == Confirmed && !CrossesPrincipals(f) && RestsOnNothing(run, f)
                && (if f.surface == KvCache then ModelAdapter in ERASURE_SURFACES else f.surface in ERASURE_SURFACES)
  {
    forall f {
      FindingRests(run, f);
    }
    if UnplaceableErasure(run) {
      var f :| f in run.findings && Unplaceable(run, f) && !IsCrossPrincipal(f)
               && BackingSurface(f) in ERASURE_SURFACES;
      assert RestsOnNothing(run, f);
    }
  }

  // ---------- Which controls there are ----------

  lemma RowsByRequirement(i: nat)
    requires i < |CONTROL_TABLE|
    ensures CONTROL_TABLE[i].requirement == Erasure <==> i == 4 || i == 6
    ensures CONTROL_TABLE[4].framework == Gdpr && CONTROL_TABLE[4].controlIds == ["Article 17"]
    ensures CONTROL_TABLE[6].framework == Ccpa && CONTROL_TABLE[6].controlIds == ["1798.105"]
    ensures CONTROL_TABLE[i].framework == OwaspLlm <==> i == 10
    ensures CONTROL_TABLE[i].surfaces == if i == 10 then {VectorDb, Api, RagPipeline} else {}
  {
  }

  /** The two erasure controls there are, and no other control is ever stated for an erasure. */
  lemma ErasureControls(run: Run, c: ControlFinding)
    requires c in Exported(run) && c.requirement == Erasure
    ensures (c.framework, c.controlId) in {(Gdpr, "Article 17"), (Ccpa, "1798.105")}
  {
    var i := RowOfExported(run, c);
    RowsByRequirement(i);
  }

  lemma RowOfExported(run: Run, c: ControlFinding) returns (i: nat)
    requires c in Exported(run)
    ensures i < |CONTROL_TABLE| && RunSupports(run, CONTROL_TABLE[i]) && FromRow(c, CONTROL_TABLE[i])
  {
    SupportedRowsExactly(run, CONTROL_TABLE);
    ExportedExactly(run, SupportedRows(run, CONTROL_TABLE), c);
    var row :| row in SupportedRows(run, CONTROL_TABLE) && FromRow(c, row);
    i :| 0 <= i < |CONTROL_TABLE| && CONTROL_TABLE[i] == row;
  }

  lemma RestrictedRow(run: Run, row: Row)
    requires row.requirement == Isolation && row.surfaces != {} && RunSupports(run, row)
    ensures exists s :: s in row.surfaces && DroveLive(run, s)
  {
    var s :| s in Narrow(LiveSurfaces(run), row.surfaces) * IsolationSurfaces(run);
    IsolationSurfacesInFields(run, s);
  }

  /** The one control that is about retrieval is stated on the surfaces of retrieval alone. */
  lemma RetrievalControl(run: Run, c: ControlFinding)
    requires c in Exported(run) && c.framework == OwaspLlm
    ensures c.requirement == Isolation && exists s :: s in {VectorDb, Api, RagPipeline} && DroveLive(run, s)
  {
    var i := RowOfExported(run, c);
    RowsByRequirement(i);
    RestrictedRow(run, CONTROL_TABLE[i]);
  }

  // ---------- What of a finding is read ----------

  /** Findings the exporter cannot tell apart: alike to the scorecard, and of the same owners
      and observers. */
  predicate ExportAlike(f: Finding, g: Finding) {
    && ScoreAlike(f, g)
    && f.ownerTenant == g.ownerTenant && f.observedInTenant == g.observedInTenant
    && f.ownerUser == g.ownerUser && f.observedInUser == g.observedInUser
  }

  ghost predicate ExportAlikeRuns(run: Run, run': Run) {
    && run' == run.(findings := run'.findings) && |run'.findings| == |run.findings|
    && forall i | 0 <= i < |run.findings| :: ExportAlike(run.findings[i], run'.findings[i])
  }

  lemma Counterpart(run: Run, run': Run, f: Finding) returns (g: Finding)
    requires ExportAlikeRuns(run, run') && f in run.findings
    ensures g in run'.findings && ExportAlike(f, g)
  {
    var i :| 0 <= i < |run.findings| && run.findings[i] == f;
    g := run'.findings[i];
  }

  lemma AlikeBothWays(run: Run, run': Run)
    requires ExportAlikeRuns(run, run')
    ensures ExportAlikeRuns(run', run) && ScoreAlikeRuns(run, run')
  {
    forall i | 0 <= i < |run.findings| ensures ExportAlike(run'.findings[i], run.findings[i]) {
      assert ExportAlike(run.findings[i], run'.findings[i]);
    }
  }

  lemma FailuresCarryOver(run: Run, run': Run)
    requires ExportAlikeRuns(run, run')
    ensures HasConfirmedLeak(run) ==> HasConfirmedLeak(run')
    ensures UnplaceableIsolation(run) ==> UnplaceableIsolation(run')
    ensures UnplaceableErasure(run) ==> UnplaceableErasure(run')
  {
    if HasConfirmedLeak(run) {
      var f :| f in run.findings && Attested(run, f) && IsCrossPrincipal(f);
      var g := Counterpart(run, run', f);
      assert Attested(run', g) && IsCrossPrincipal(g);
    }
    if UnplaceableIsolation(run) {
      var f :| f in run.findings && Unplaceable(run, f) && IsCrossPrincipal(f);
      var g := Counterpart(run, run', f);
      assert Unplaceable(run', g) && IsCrossPrincipal(g);
    }
    if UnplaceableErasure(run) {
      var f :| f in run.findings && Unplaceable(run, f) && !IsCrossPrincipal(f)
               && BackingSurface(f) in ERASURE_SURFACES;
      var g := Counterpart(run, run', f);
      assert Unplaceable(run', g) && !IsCrossPrincipal(g) && BackingSurface(g) in ERASURE_SURFACES;
    }
  }

  lemma StatesAlike(run: Run, run': Run, requirement: Requirement)
    requires ExportAlikeRuns(run, run')
    ensures StateOf(run', requirement) == StateOf(run, requirement)
    ensures Withholds(run', requirement) == Withholds(run, requirement)
  {
    AlikeBothWays(run, run');
    FailuresCarryOver(run, run');
    FailuresCarryOver(run', run);
    assert ResidualSurfaces(run') == ResidualSurfaces(run);
  }

  lemma RowAlike(run: Run, run': Run, row: Row)
    requires ExportAlikeRuns(run, run')
    ensures RunSupports(run', row) == RunSupports(run, row)
    ensures FindingsOf(run', row) == FindingsOf(run, row)
  {
    AlikeBothWays(run, run');
    ExercisedAlike(run, run');
    StatesAlike(run, run', row.requirement);
    assert IsolationSurfaces(run') == IsolationSurfaces(run) && LiveSurfaces(run') == LiveSurfaces(run);
    assert Stated(run', row.framework, row.requirement, row.controlIds)
        == Stated(run, row.framework, row.requirement, row.controlIds);
  }

  lemma {:induction false} RowsAlike(run: Run, run': Run, rows: seq<Row>)
    requires ExportAlikeRuns(run, run')
    ensures SupportedRows(run', rows) == SupportedRows(run, rows)
    ensures ControlFindings(run', rows) == ControlFindings(run, rows)
  {
    if rows != [] {
      RowsAlike(run, run', rows[..|rows| - 1]);
      RowAlike(run, run', rows[|rows| - 1]);
    }
  }

  /** Records with findings alike, one by one, are exported alike, and graded alike: of a
      finding's surface nothing is read but whether it is the key-value cache or the model
      adapter, which are one, or which other surface it is. */
  lemma RecordsReadAlike(run: Run, run': Run)
    requires ExportAlikeRuns(run, run')
    ensures Exported(run') == Exported(run) && ScoreRun(run') == ScoreRun(run)
  {
    AlikeBothWays(run, run');
    RowsAlike(run, run', CONTROL_TABLE);
    RowsAlike(run, run', SupportedRows(run, CONTROL_TABLE));
    ScoreReadsAlike(run, run');
  }

  /** So a timing finding may name the cache or the model adapter: neither renderer can tell. */
  lemma CacheIsModelAdapter(run: Run, i: nat, named: Surface)
    requires i < |run.findings|
    requires run.findings[i].surface in {KvCache, ModelAdapter} && named in {KvCache, ModelAdapter}
    ensures
      var run' := run.(findings := run.findings[i := run.findings[i].(surface := named)]);
      Exported(run') == Exported(run) && ScoreRun(run') == ScoreRun(run)
  {
    var run' := run.(findings := run.findings[i := run.findings[i].(surface := named)]);
    forall j | 0 <= j < |run.findings| ensures ExportAlike(run.findings[j], run'.findings[j]) {
    }
    RecordsReadAlike(run, run');
  }

  // ---------- The wording of a deletion ----------

  predicate CannotTell(run: Run, s: Surface) {
    s in run.metrics.erasureUnverifiable && run.metrics.erasureUnverifiable[s] > 0
  }

  /** The surfaces a deletion is reported as not established on: live ones a scan can reach and
      has no verdict on, and named ones with a count that could not be verified. */
  lemma InconclusiveInFields(run: Run, named: set<Surface>, s: Surface)
    ensures s in Inconclusive(run, named) <==>
              || (IsLive(run, s) && s !in OUT_OF_REACH && !ScannedForErasure(run, s))
              || (s in named && CannotTell(run, s))
  {
    ReachedIff(s);
  }

  lemma UnqualifiedInFields(run: Run, named: set<Surface>)
    requires ValidMetrics(run.metrics)
    requires forall s :: s in named <==> IsLive(run, s) && ScannedForErasure(run, s)
    ensures ErasureUnqualified(run, named) <==>
              forall s | IsLive(run, s) && s !in OUT_OF_REACH :: CalledErased(run, s) && !CannotTell(run, s)
  {
    forall s
      ensures s in Inconclusive(run, named) <==>
                || (IsLive(run, s) && s !in OUT_OF_REACH && !ScannedForErasure(run, s))
                || (s in named && CannotTell(run, s))
      ensures s in ERASURE_SURFACES <==> s !in OUT_OF_REACH
    {
      InconclusiveInFields(run, named, s);
      ReachedIff(s);
    }
    if ErasureUnqualified(run, named) {
      forall s | IsLive(run, s) && s !in OUT_OF_REACH ensures CalledErased(run, s) && !CannotTell(run, s) {
        assert s !in Inconclusive(run, named) && s in named;
        OneOfFour(run.metrics.erasureCoverage[s]);
      }
    }
    if forall s | IsLive(run, s) && s !in OUT_OF_REACH :: CalledErased(run, s) && !CannotTell(run, s) {
      forall s | s in named ensures CalledErased(run, s) && !CannotTell(run, s) {
        assert s in run.metrics.erasureCoverage.Keys;
      }
      assert Inconclusive(run, named) == {};
    }
  }

  /** A deletion reads as verified exactly when every live surface a scan can reach is called
      erased and none of them has a count that could not be verified. */
  lemma VerifiedInFields(run: Run, row: Row, mapping: Mapping)
    requires ValidMetrics(run.metrics) && States(run, mapping, row)
    requires row in CONTROL_TABLE && row.requirement == Erasure
    ensures mapping.assertion.failures == [] <==>
              forall s | IsLive(run, s) && s !in OUT_OF_REACH :: CalledErased(run, s) && !CannotTell(run, s)
  {
    forall s ensures s in mapping.assertion.named <==> IsLive(run, s) && ScannedForErasure(run, s) {
      NamedForErasure(run, row, s);
    }
    UnqualifiedInFields(run, mapping.assertion.named);
  }

  lemma OneOfFour(c: Coverage)
    ensures c in {Erased, Residual, AttestableWithCaveat, NotCovered}
  {
  }

  lemma NamedForErasure(run: Run, row: Row, s: Surface)
    requires row in CONTROL_TABLE && row.requirement == Erasure
    ensures s in AssertedSurfaces(run, row.framework, row.controlIds) <==> IsLive(run, s) && ScannedForErasure(run, s)
  {
    var i :| 0 <= i < |CONTROL_TABLE| && CONTROL_TABLE[i] == row;
    OwnRow(i);
    ErasureRowsUnrestricted(i);
  }

  lemma ErasureRowsUnrestricted(i: nat)
    requires i < |CONTROL_TABLE| && CONTROL_TABLE[i].requirement == Erasure
    ensures CONTROL_TABLE[i].surfaces == {}
  {
  }

  /** The surfaces a record's findings rest on and its provenance, if it has any, leaves out. */
  lemma UnaccountedInFields(run: Run, s: Surface)
    ensures s in UnaccountedSurfaces(run) <==>
              && run.provenance != map[] && s !in run.provenance && s != KvCache
              && exists f | f in run.findings :: f.surface == s || (f.surface == KvCache && s == ModelAdapter)
  {
  }
}
