/** The control exporter: which control findings a run projects, and in which state. */
module Oscal {
  import opened Controls
  import opened Labels
  import opened Records

  datatype State = Satisfied | NotSatisfied

  datatype ControlFinding = ControlFinding(
    framework: Framework, controlId: string, requirement: Requirement, state: State)

  predicate Attested(run: Run, f: Finding) {
    f.status == Confirmed && BackingSurface(f) in LiveSurfaces(run)
  }

  predicate HasConfirmedLeak(run: Run) {
    exists f | f in run.findings :: Attested(run, f) && IsCrossPrincipal(f)
  }

  /** Live erasure surfaces on which the erasure is anything but verified; none on a run that
      scanned no erasure at all. */
  function ResidualSurfaces(run: Run): set<Surface> {
    if run.metrics.erasureCoverage == map[] then {}
    else
      set s | s in LiveSurfaces(run) * ERASURE_SURFACES &&
              ((s in ErasureScannedSurfaces(run) && CoverageOf(run, s) != Erased) ||
               CoverageOf(run, s) == NotCovered)
  }

  /** A confirmed finding on a surface the provenance block never recorded. */
  predicate Unplaceable(run: Run, f: Finding) {
    f.status == Confirmed && BackingSurface(f) in UnaccountedSurfaces(run)
  }

  predicate UnplaceableIsolation(run: Run) {
    exists f | f in run.findings :: Unplaceable(run, f) && IsCrossPrincipal(f)
  }

  predicate UnplaceableErasure(run: Run) {
    exists f | f in run.findings ::
      Unplaceable(run, f) && !IsCrossPrincipal(f) && BackingSurface(f) in ERASURE_SURFACES
  }

  predicate Failed(run: Run, requirement: Requirement) {
    if requirement == Erasure then ResidualSurfaces(run) != {} else HasConfirmedLeak(run)
  }

  /** A control that would read satisfied is not stated over evidence nobody can place. */
  predicate Withholds(run: Run, requirement: Requirement) {
    && (if requirement == Erasure then UnplaceableErasure(run) else UnplaceableIsolation(run))
    && !Failed(run, requirement)
  }

  function StateOf(run: Run, requirement: Requirement): State {
    if Failed(run, requirement) then NotSatisfied else Satisfied
  }

  function Stated(run: Run, framework: Framework, requirement: Requirement, ids: seq<string>)
    : (all: seq<ControlFinding>)
    ensures |all| == |ids|
    ensures forall i | 0 <= i < |ids| ::
              all[i] == ControlFinding(framework, ids[i], requirement, StateOf(run, requirement))
  {
    if ids == [] then []
    else
      var n := |ids| - 1;
      Stated(run, framework, requirement, ids[..n]) +
      [ControlFinding(framework, ids[n], requirement, StateOf(run, requirement))]
  }

  function FindingsOf(run: Run, row: Row): seq<ControlFinding> {
    if Withholds(run, row.requirement) then []
    else Stated(run, row.framework, row.requirement, row.controlIds)
  }

  function ControlFindings(run: Run, rows: seq<Row>): seq<ControlFinding> {
    if rows == [] then []
    else ControlFindings(run, rows[..|rows| - 1]) + FindingsOf(run, rows[|rows| - 1])
  }

  function Exported(run: Run): seq<ControlFinding> {
    ControlFindings(run, SupportedRows(run, CONTROL_TABLE))
  }

  /** The control ids of the rows that are withheld, or of those that are not, each once. */
  ghost predicate Lists(ids: seq<string>, run: Run, rows: seq<Row>, held: bool) {
    && NoRepeats(ids)
    && (forall id :: id in ids <==> HeldId(run, rows, held, id))
  }

  ghost predicate HeldId(run: Run, rows: seq<Row>, held: bool, id: string) {
    exists row | row in rows :: Withholds(run, row.requirement) == held && id in row.controlIds
  }

  lemma HeldIdStep(run: Run, rows: seq<Row>, i: nat, held: bool)
    requires i < |rows|
    ensures forall id :: HeldId(run, rows[..i + 1], held, id)
                    <==> HeldId(run, rows[..i], held, id) ||
                         (Withholds(run, rows[i].requirement) == held && id in rows[i].controlIds)
  {
    assert rows[..i + 1] == rows[..i] + [rows[i]];
  }

  /** A mapping carries a row's controls, and its requirement is the row's. */
  ghost predicate Carries(mapping: Mapping, row: Row) {
    && mapping.framework == row.framework && mapping.controlIds == row.controlIds
    && MappingRequirement(mapping.framework, mapping.controlIds) == row.requirement
  }

  method ProjectMappings(run: Run, mappings: seq<Mapping>, ghost rows: seq<Row>)
    returns (findings: seq<ControlFinding>, reviewed: seq<string>, withheld: seq<string>)
    requires |mappings| == |rows| && forall i | 0 <= i < |rows| :: Carries(mappings[i], rows[i])
    ensures findings == ControlFindings(run, rows)
    ensures Lists(reviewed, run, rows, false)
    ensures Lists(withheld, run, rows, true)
  {
    findings, reviewed, withheld := [], [], [];
    for i := 0 to |mappings|
      invariant findings == ControlFindings(run, rows[..i])
      invariant Lists(reviewed, run, rows[..i], false)
      invariant Lists(withheld, run, rows[..i], true)
    {
      var mapping := mappings[i];
      assert Carries(mapping, rows[i]);
      assert rows[..i + 1][..i] == rows[..i];
      HeldIdStep(run, rows, i, true);
      HeldIdStep(run, rows, i, false);
      var requirement := MappingRequirement(mapping.framework, mapping.controlIds);
      if Withholds(run, requirement) {
        withheld := AddNew(withheld, mapping.controlIds);
        continue;
      }
      var more;
      more, reviewed := StateMapping(run, mapping, requirement, reviewed);
      findings := findings + more;
    }
    assert rows[..|mappings|] == rows;
  }

  /** Project the run's control findings. The reviewed ids are exactly those of supported
      controls with a stated finding, the withheld ids those of supported controls without. */
  method RunToOscal(run: Run)
    returns (findings: seq<ControlFinding>, reviewed: seq<string>, withheld: seq<string>)
    ensures findings == Exported(run)
    ensures Lists(reviewed, run, SupportedRows(run, CONTROL_TABLE), false)
    ensures Lists(withheld, run, SupportedRows(run, CONTROL_TABLE), true)
  {
    var mappings := ControlMappings(run);
    forall i | 0 <= i < |mappings| ensures Carries(mappings[i], SupportedRows(run, CONTROL_TABLE)[i]) {
      SupportedRowKnowsItsRequirement(run, i);
      assert States(run, mappings[i], SupportedRows(run, CONTROL_TABLE)[i]);
    }
    findings, reviewed, withheld := ProjectMappings(run, mappings, SupportedRows(run, CONTROL_TABLE));
  }

  /** State every control of one mapping, and note each as reviewed. */
  method StateMapping(run: Run, mapping: Mapping, requirement: Requirement, before: seq<string>)
    returns (findings: seq<ControlFinding>, reviewed: seq<string>)
    requires NoRepeats(before)
    ensures findings == Stated(run, mapping.framework, requirement, mapping.controlIds)
    ensures NoRepeats(reviewed)
    ensures forall id :: id in reviewed <==> id in before || id in mapping.controlIds
  {
    findings, reviewed := [], before;
    for j := 0 to |mapping.controlIds|
      invariant findings == Stated(run, mapping.framework, requirement, mapping.controlIds[..j])
      invariant NoRepeats(reviewed)
      invariant forall id :: id in reviewed <==> id in before || id in mapping.controlIds[..j]
    {
      var controlId := mapping.controlIds[j];
      assert mapping.controlIds[..j + 1][..j] == mapping.controlIds[..j];
      if controlId !in reviewed {
        reviewed := reviewed + [controlId];
      }
      findings := findings +
        [ControlFinding(mapping.framework, controlId, requirement, StateOf(run, requirement))];
    }
    assert mapping.controlIds[..|mapping.controlIds|] == mapping.controlIds;
  }

  method AddNew(ids: seq<string>, more: seq<string>) returns (all: seq<string>)
    requires NoRepeats(ids)
    ensures NoRepeats(all)
    ensures forall id :: id in all <==> id in ids || id in more
  {
    all := ids;
    for i := 0 to |more|
      invariant NoRepeats(all)
      invariant forall id :: id in all <==> id in ids || id in more[..i]
    {
      if more[i] !in all {
        all := all + [more[i]];
      }
    }
  }

  ghost predicate NoRepeats(ids: seq<string>) {
    forall i, j | 0 <= i < j < |ids| :: ids[i] != ids[j]
  }

  lemma SupportedRowKnowsItsRequirement(run: Run, i: nat)
    requires i < |SupportedRows(run, CONTROL_TABLE)|
    ensures var row := SupportedRows(run, CONTROL_TABLE)[i];
            MappingRequirement(row.framework, row.controlIds) == row.requirement
  {
    var row := SupportedRows(run, CONTROL_TABLE)[i];
    SupportedRowsExactly(run, CONTROL_TABLE);
    assert row in SupportedRows(run, CONTROL_TABLE);
    var k :| 0 <= k < |CONTROL_TABLE| && CONTROL_TABLE[k] == row;
    OwnRow(k);
  }

  /** A finding is exported exactly for each control id of each supported, unwithheld row, in
      the one state its requirement has in this run. */
  lemma {:induction false} ExportedExactly(run: Run, rows: seq<Row>, c: ControlFinding)
    ensures c in ControlFindings(run, rows)
       <==> c.state == StateOf(run, c.requirement) && !Withholds(run, c.requirement) && FromRows(c, rows)
  {
    if rows != [] {
      var n := |rows| - 1;
      ExportedExactly(run, rows[..n], c);
      FindingOfRow(run, rows[n], c);
      assert rows == rows[..n] + [rows[n]];
    }
  }

  ghost predicate FromRow(c: ControlFinding, row: Row) {
    row.requirement == c.requirement && row.framework == c.framework && c.controlId in row.controlIds
  }

  ghost predicate FromRows(c: ControlFinding, rows: seq<Row>) {
    exists row | row in rows :: FromRow(c, row)
  }

  lemma FindingOfRow(run: Run, row: Row, c: ControlFinding)
    ensures c in FindingsOf(run, row)
       <==> c.state == StateOf(run, c.requirement) && !Withholds(run, c.requirement) && FromRow(c, row)
  {
    if FromRow(c, row) && !Withholds(run, row.requirement) {
      var i :| 0 <= i < |row.controlIds| && row.controlIds[i] == c.controlId;
      assert FindingsOf(run, row)[i].controlId == c.controlId;
    }
  }
}
