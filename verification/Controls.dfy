/** Which framework controls a run's evidence supports, and what the signed assertion beside
    each of them says. */
module Controls {
  import opened Records
  import opened Wrappers

  datatype Requirement = Isolation | Erasure

  datatype Framework =
    Soc2 | Iso27001 | Iso42001 | Gdpr | Ccpa | EuAiAct | Hipaa | NistAiRmf | OwaspLlm

  /** A row of the control table; an empty `surfaces` means any surface. */
  datatype Row = Row(framework: Framework, controlIds: seq<string>, requirement: Requirement, surfaces: set<Surface>)

  /** Why an erasure assertion does not read "verified". */
  datatype Failure =
    | ResidualRemains
    | PresumedRetained
    | NotEstablished(on: set<Surface>)

  /** An assertion: the table's sentence, qualified by what failed, over the named surfaces. */
  datatype Assertion = Assertion(failures: seq<Failure>, named: set<Surface>)

  datatype Mapping = Mapping(framework: Framework, controlIds: seq<string>, assertion: Assertion)

  const CONTROL_TABLE: seq<Row> := [
    Row(Soc2, ["CC6.1", "CC6.6", "CC6.7"], Isolation, {}),
    Row(Iso27001, ["A.5.15", "A.8.3", "A.8.12"], Isolation, {}),
    Row(Iso42001, ["A.6.2.6", "A.7.2", "A.7.5"], Isolation, {}),
    Row(Gdpr, ["Article 25", "Article 32"], Isolation, {}),
    Row(Gdpr, ["Article 17"], Erasure, {}),
    Row(Ccpa, ["1798.100", "1798.150"], Isolation, {}),
    Row(Ccpa, ["1798.105"], Erasure, {}),
    Row(EuAiAct, ["Article 15"], Isolation, {}),
    Row(Hipaa, ["164.312(a)(1)", "164.312(c)(1)", "164.312(e)(1)"], Isolation, {}),
    Row(NistAiRmf, ["MEASURE 2.7", "MANAGE 2.x"], Isolation, {}),
    Row(OwaspLlm, ["LLM08:2025"], Isolation, {VectorDb, Api, RagPipeline})
  ]

  /** Live erasure surfaces scanned to any verdict. */
  function ErasureScannedSurfaces(run: Run): set<Surface> {
    set s | s in run.metrics.erasureCoverage && s in LiveSurfaces(run) &&
            run.metrics.erasureCoverage[s] != NotCovered
  }

  function Drove(run: Run): set<Surface> {
    set p, s | p in Exercised(run) - ERASURE_WORKFLOWS && s in ProbeSurfaces(p) :: s
  }

  /** The live surfaces this run's isolation probes drove. */
  function IsolationSurfaces(run: Run): set<Surface> {
    (LiveSurfaces(run) - ErasureScannedSurfaces(run)) * Drove(run)
  }

  function Narrow(live: set<Surface>, surfaces: set<Surface>): set<Surface> {
    if surfaces == {} then live else live * surfaces
  }

  predicate RunSupports(run: Run, row: Row) {
    var live := Narrow(LiveSurfaces(run), row.surfaces);
    if row.requirement == Erasure then
      exists s | s in run.metrics.erasureCoverage ::
        run.metrics.erasureCoverage[s] in {Erased, Residual} && s in live
    else
      Exercised(run) - ERASURE_WORKFLOWS != {} && live * IsolationSurfaces(run) != {}
  }

  /** The table row a mapping came from, looked up by framework and control ids. */
  function RowOf(framework: Framework, controlIds: seq<string>, rows: seq<Row>): Option<Row> {
    if rows == [] then None
    else if rows[0].framework == framework && rows[0].controlIds == controlIds then Some(rows[0])
    else RowOf(framework, controlIds, rows[1..])
  }

  function MappingRequirement(framework: Framework, controlIds: seq<string>): Requirement {
    var row := RowOf(framework, controlIds, CONTROL_TABLE);
    if row.Some? then row.value.requirement else Isolation
  }

  /** The live surfaces an assertion speaks for. */
  function AssertedSurfaces(run: Run, framework: Framework, controlIds: seq<string>): set<Surface> {
    var row := RowOf(framework, controlIds, CONTROL_TABLE);
    var live := LiveSurfaces(run);
    if row.None? then live
    else if row.value.requirement == Erasure then
      Narrow(live, row.value.surfaces) * ErasureScannedSurfaces(run)
    else
      Narrow(live, row.value.surfaces) * IsolationSurfaces(run)
  }

  function CoverageOf(run: Run, s: Surface): Coverage {
    if s in run.metrics.erasureCoverage then run.metrics.erasureCoverage[s] else NotCovered
  }

  function UnverifiableOn(run: Run, s: Surface): int {
    if s in run.metrics.erasureUnverifiable then run.metrics.erasureUnverifiable[s] else 0
  }

  /** Surfaces on which the deletion could be neither confirmed nor refuted. */
  function Inconclusive(run: Run, named: set<Surface>): set<Surface> {
    (set s | s in LiveSurfaces(run) * ERASURE_SURFACES && CoverageOf(run, s) == NotCovered) +
    (set s | s in named && UnverifiableOn(run, s) > 0)
  }

  /** Compose the deletion assertion: every failure is named, none hides another. */
  method ErasureAssertion(run: Run, named: set<Surface>) returns (failures: seq<Failure>)
    ensures ResidualRemains in failures
       <==> exists s | s in named :: s in run.metrics.erasureCoverage && CoverageOf(run, s) == Residual
    ensures PresumedRetained in failures
       <==> exists s | s in named :: CoverageOf(run, s) == AttestableWithCaveat
    ensures forall x :: NotEstablished(x) in failures <==> x == Inconclusive(run, named) && x != {}
  {
    var inconclusive := set s | s in LiveSurfaces(run) * ERASURE_SURFACES && CoverageOf(run, s) == NotCovered;
    var verdicts := set s | s in named && s in run.metrics.erasureCoverage :: CoverageOf(run, s);
    failures := [];
    if Residual in verdicts {
      failures := failures + [ResidualRemains];
    }
    if AttestableWithCaveat in verdicts {
      failures := failures + [PresumedRetained];
    }
    var unestablished := set s | s in named && UnverifiableOn(run, s) > 0;
    inconclusive := inconclusive + unestablished;
    if inconclusive != {} {
      failures := failures + [NotEstablished(inconclusive)];
    }
  }

  /** The rows a run supports, in table order. */
  function SupportedRows(run: Run, rows: seq<Row>): seq<Row> {
    if rows == [] then []
    else
      var n := |rows| - 1;
      SupportedRows(run, rows[..n]) + if RunSupports(run, rows[n]) then [rows[n]] else []
  }

  /** A mapping states its row: same controls, the surfaces it was granted on, and a failure
      exactly where its own requirement is an erasure the run could not verify. */
  ghost predicate States(run: Run, mapping: Mapping, row: Row) {
    && mapping.framework == row.framework && mapping.controlIds == row.controlIds
    && mapping.assertion.named == AssertedSurfaces(run, row.framework, row.controlIds)
    && (row.requirement == Isolation ==> mapping.assertion.failures == [])
    && (row.requirement == Erasure ==>
          (mapping.assertion.failures == [] <==> ErasureUnqualified(run, mapping.assertion.named)))
  }

  ghost predicate ErasureUnqualified(run: Run, named: set<Surface>) {
    && (forall s | s in named && s in run.metrics.erasureCoverage ::
          run.metrics.erasureCoverage[s] !in {Residual, AttestableWithCaveat})
    && Inconclusive(run, named) == {}
  }

  method ControlMappings(run: Run) returns (mappings: seq<Mapping>)
    ensures |mappings| == |SupportedRows(run, CONTROL_TABLE)|
    ensures forall i | 0 <= i < |mappings| :: States(run, mappings[i], SupportedRows(run, CONTROL_TABLE)[i])
  {
    mappings := [];
    for i := 0 to |CONTROL_TABLE|
      invariant |mappings| == |SupportedRows(run, CONTROL_TABLE[..i])|
      invariant forall k | 0 <= k < |mappings| ::
                  States(run, mappings[k], SupportedRows(run, CONTROL_TABLE[..i])[k])
    {
      var row := CONTROL_TABLE[i];
      assert CONTROL_TABLE[..i + 1][..i] == CONTROL_TABLE[..i];
      if !RunSupports(run, row) {
        continue;
      }
      var named := AssertedSurfaces(run, row.framework, row.controlIds);
      var failures := [];
      if row.requirement == Erasure {
        failures := ErasureAssertion(run, named);
        NoFailures(run, named, failures);
      }
      mappings := mappings + [Mapping(row.framework, row.controlIds, Assertion(failures, named))];
    }
    assert CONTROL_TABLE[..|CONTROL_TABLE|] == CONTROL_TABLE;
  }

  lemma NoFailures(run: Run, named: set<Surface>, failures: seq<Failure>)
    requires ResidualRemains in failures
        <==> exists s | s in named :: s in run.metrics.erasureCoverage && CoverageOf(run, s) == Residual
    requires PresumedRetained in failures
        <==> exists s | s in named :: CoverageOf(run, s) == AttestableWithCaveat
    requires forall x :: NotEstablished(x) in failures <==> x == Inconclusive(run, named) && x != {}
    ensures failures == [] <==> ErasureUnqualified(run, named)
  {
    if failures == [] {
      assert NotEstablished(Inconclusive(run, named)) !in failures;
      forall s | s in named && s in run.metrics.erasureCoverage
        ensures run.metrics.erasureCoverage[s] !in {Residual, AttestableWithCaveat}
      {
        assert CoverageOf(run, s) == run.metrics.erasureCoverage[s];
      }
    } else {
      assert failures[0] in failures;
      match failures[0]
      case ResidualRemains =>
        var s :| s in named && s in run.metrics.erasureCoverage && CoverageOf(run, s) == Residual;
      case PresumedRetained =>
        var s :| s in named && CoverageOf(run, s) == AttestableWithCaveat;
      case NotEstablished(x) =>
        assert x == Inconclusive(run, named);
    }
  }

  // ---------- The table ----------

  lemma OwnRow(i: nat)
    requires i < |CONTROL_TABLE|
    ensures RowOf(CONTROL_TABLE[i].framework, CONTROL_TABLE[i].controlIds, CONTROL_TABLE)
         == Some(CONTROL_TABLE[i])
  {
    LookupFrom(i, 0);
    assert CONTROL_TABLE[0..] == CONTROL_TABLE;
  }

  lemma {:induction false} LookupFrom(i: nat, from: nat)
    requires from <= i < |CONTROL_TABLE|
    ensures RowOf(CONTROL_TABLE[i].framework, CONTROL_TABLE[i].controlIds, CONTROL_TABLE[from..])
         == Some(CONTROL_TABLE[i])
    decreases i - from
  {
    if from < i {
      RowsDiffer(from, i);
      LookupFrom(i, from + 1);
      assert CONTROL_TABLE[from..][1..] == CONTROL_TABLE[from + 1..];
    }
  }

  lemma RowsDiffer(i: nat, j: nat)
    requires i < j < |CONTROL_TABLE|
    ensures CONTROL_TABLE[i].framework != CONTROL_TABLE[j].framework
         || |CONTROL_TABLE[i].controlIds| != |CONTROL_TABLE[j].controlIds|
  {
  }

  lemma {:induction false} SupportedRowsExactly(run: Run, rows: seq<Row>)
    ensures forall row :: row in SupportedRows(run, rows) <==> row in rows && RunSupports(run, row)
  {
    if rows != [] {
      var n := |rows| - 1;
      SupportedRowsExactly(run, rows[..n]);
      assert rows == rows[..n] + [rows[n]];
    }
  }

  /** An isolation row is asserted exactly when there is a surface for it to name. */
  lemma IsolationSupportedIffNamed(run: Run, row: Row)
    requires row in CONTROL_TABLE && row.requirement == Isolation
    ensures RunSupports(run, row) <==> AssertedSurfaces(run, row.framework, row.controlIds) != {}
  {
    var i :| 0 <= i < |CONTROL_TABLE| && CONTROL_TABLE[i] == row;
    OwnRow(i);
    if s :| s in AssertedSurfaces(run, row.framework, row.controlIds) {
      assert s in Drove(run);
    }
  }

  /** An erasure row is asserted exactly when some surface it names was cleared or shown to
      hold residue; a run that only met caveats names surfaces and asserts nothing. */
  lemma ErasureSupportedIff(run: Run, row: Row)
    requires row in CONTROL_TABLE && row.requirement == Erasure
    ensures AssertedSurfaces(run, row.framework, row.controlIds) == ErasureScannedSurfaces(run)
    ensures RunSupports(run, row)
       <==> exists s | s in ErasureScannedSurfaces(run) :: CoverageOf(run, s) in {Erased, Residual}
  {
    var i :| 0 <= i < |CONTROL_TABLE| && CONTROL_TABLE[i] == row;
    OwnRow(i);
    ErasureRowsAreUnrestricted(i);
    if s :| s in run.metrics.erasureCoverage && run.metrics.erasureCoverage[s] in {Erased, Residual} &&
            s in LiveSurfaces(run)
    {
      assert s in ErasureScannedSurfaces(run);
    }
  }

  lemma ErasureRowsAreUnrestricted(i: nat)
    requires i < |CONTROL_TABLE| && CONTROL_TABLE[i].requirement == Erasure
    ensures CONTROL_TABLE[i].surfaces == {}
  {
  }
}
