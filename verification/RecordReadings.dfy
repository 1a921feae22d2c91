/** The scorecard read in a record's own fields: what fails and what passes a class, and what of
    a finding the letter depends on at all. */
module RecordReadings {
  import opened Labels
  import opened Records
  import opened Score
  import opened ScoreLaws

  ghost predicate ProbeRan(run: Run, p: ProbeId) {
    p in run.probeVersions || exists f | f in run.findings :: f.probeId == p
  }

  predicate IsLive(run: Run, s: Surface) {
    s in run.provenance && run.provenance[s] == Live
  }

  predicate IsFake(run: Run, s: Surface) {
    s in run.provenance && run.provenance[s] == Synthetic
  }

  /** The finding's surface is of a kind; a finding on the key-value cache was timed through the
      model adapter, and rests on that. */
  predicate RestsOnLive(run: Run, f: Finding) {
    if f.surface == KvCache then IsLive(run, ModelAdapter) else IsLive(run, f.surface)
  }

  predicate RestsOnFake(run: Run, f: Finding) {
    if f.surface == KvCache then IsFake(run, ModelAdapter) else IsFake(run, f.surface)
  }

  predicate RestsOnNothing(run: Run, f: Finding) {
    if f.surface == KvCache then ModelAdapter !in run.provenance else f.surface !in run.provenance
  }

  ghost predicate Leaks(e: CatalogClass, f: Finding) {
    f.status == Confirmed && f.probeId in e.probes
  }

  lemma FindingRests(run: Run, f: Finding)
    ensures RestsOnLive(run, f) <==> BackingSurface(f) in LiveSurfaces(run)
    ensures RestsOnFake(run, f) <==> BackingSurface(f) in SyntheticSurfaces(run)
    ensures RestsOnNothing(run, f) <==> BackingSurface(f) !in run.provenance
    ensures RestsOnLive(run, f) || RestsOnFake(run, f) || RestsOnNothing(run, f)
  {
    var s := BackingSurface(f);
    if s in run.provenance {
      match run.provenance[s]
      case Live =>
      case Synthetic =>
    }
  }

  /** Some probe of the class ran whose slot accepts a live surface of the run, or any recorded
      one. */
  ghost predicate LiveSlot(run: Run, e: CatalogClass) {
    exists p, s :: p in e.probes && ProbeRan(run, p) && s in ProbeSurfaces(p) && IsLive(run, s)
  }

  ghost predicate RecordedSlot(run: Run, e: CatalogClass) {
    exists p, s :: p in e.probes && ProbeRan(run, p) && s in ProbeSurfaces(p) && s in run.provenance
  }

  lemma RanIsProbeRan(run: Run, e: CatalogClass, p: ProbeId)
    ensures p in Ran(e, run) <==> p in e.probes && ProbeRan(run, p)
  {
    if p in e.probes && ProbeRan(run, p) && p !in run.probeVersions {
      var f :| f in run.findings && f.probeId == p;
      assert p in Exercised(run);
    }
  }

  lemma AcceptedByProbe(run: Run, e: CatalogClass, s: Surface)
    ensures s in AcceptedSurfaces(Ran(e, run))
       <==> exists p :: p in e.probes && ProbeRan(run, p) && s in ProbeSurfaces(p)
  {
    forall p ensures p in Ran(e, run) <==> p in e.probes && ProbeRan(run, p) {
      RanIsProbeRan(run, e, p);
    }
    if p :| p in e.probes && ProbeRan(run, p) && s in ProbeSurfaces(p) {
      assert p in Ran(e, run);
    }
  }

  lemma PlaceableOnLive(run: Run, e: CatalogClass)
    requires exists s :: IsLive(run, s)
    ensures ScopeOf(run) == ConfiguredStack
    ensures Placeable(e, run) <==> LiveSlot(run, e)
  {
    var t :| IsLive(run, t);
    assert t in LiveSurfaces(run);
    var accepted := AcceptedSurfaces(Ran(e, run));
    if LiveSlot(run, e) {
      var p, s :| p in e.probes && ProbeRan(run, p) && s in ProbeSurfaces(p) && IsLive(run, s);
      AcceptedByProbe(run, e, s);
      RanIsProbeRan(run, e, p);
      assert s in accepted * run.provenance.Keys && s !in Withheld(run);
    }
    if Placeable(e, run) {
      var s :| s in accepted * run.provenance.Keys && s !in Withheld(run);
      AcceptedByProbe(run, e, s);
      FakeOrLive(run, s);
    }
  }

  lemma FakeOrLive(run: Run, s: Surface)
    requires s in run.provenance
    ensures IsLive(run, s) <==> !IsFake(run, s)
  {
    match run.provenance[s]
    case Live =>
    case Synthetic =>
  }

  lemma PlaceableOnFakes(run: Run, e: CatalogClass)
    requires run.provenance != map[] && forall s :: !IsLive(run, s)
    ensures Withheld(run) == {}
    ensures Placeable(e, run) <==> RecordedSlot(run, e)
  {
    forall s | s in LiveSurfaces(run) ensures IsLive(run, s) {
    }
    assert LiveSurfaces(run) == {};
    var accepted := AcceptedSurfaces(Ran(e, run));
    if RecordedSlot(run, e) {
      var p, s :| p in e.probes && ProbeRan(run, p) && s in ProbeSurfaces(p) && s in run.provenance;
      AcceptedByProbe(run, e, s);
      RanIsProbeRan(run, e, p);
      assert s in accepted * run.provenance.Keys;
    }
    if Placeable(e, run) {
      var s :| s in accepted * run.provenance.Keys;
      AcceptedByProbe(run, e, s);
    }
  }

  /** A run with live surfaces. A class whose slot some live surface fills fails if and only if
      a confirmed finding of it rests on a live surface, and passes if and only if every
      confirmed finding of it rests on a recorded fake; no other class has a verdict. */
  lemma VerdictOnLiveRun(run: Run, e: CatalogClass)
    requires forall p | p in e.probes :: ProbeSurfaces(p) != {}
    requires ScoreClass(e, run, Withheld(run)).Ok? && exists s :: IsLive(run, s)
    ensures
      var verdict := ScoreClass(e, run, Withheld(run)).value.verdict;
      && (verdict == Fail <==> LiveSlot(run, e) && exists f | f in run.findings :: Leaks(e, f) && RestsOnLive(run, f))
      && (verdict == Pass <==> LiveSlot(run, e) && forall f | f in run.findings && Leaks(e, f) :: RestsOnFake(run, f))
  {
    PlaceableOnLive(run, e);
    VerdictClosedForm(e, run);
    forall f {
      FindingRests(run, f);
    }
    if f :| f in run.findings && Leaks(e, f) && RestsOnLive(run, f) {
      assert InClass(e, f) && BackingSurface(f) !in Withheld(run);
    }
    if f :| f in run.findings && Leaks(e, f) && !RestsOnFake(run, f) {
      assert InClass(e, f) && BackingSurface(f) !in Withheld(run);
    }
  }

  /** A run of fakes alone: a class whose slot is recorded fails if and only if a confirmed
      finding of it rests on a recorded surface, and passes if and only if it has none. */
  lemma VerdictOnFakes(run: Run, e: CatalogClass)
    requires forall p | p in e.probes :: ProbeSurfaces(p) != {}
    requires ScoreClass(e, run, Withheld(run)).Ok?
    requires run.provenance != map[] && forall s :: !IsLive(run, s)
    ensures
      var verdict := ScoreClass(e, run, Withheld(run)).value.verdict;
      && (verdict == Fail <==>
            RecordedSlot(run, e) && exists f | f in run.findings :: Leaks(e, f) && RestsOnFake(run, f))
      && (verdict == Pass <==> RecordedSlot(run, e) && forall f | f in run.findings :: !Leaks(e, f))
  {
    PlaceableOnFakes(run, e);
    VerdictClosedForm(e, run);
    forall f {
      FindingRests(run, f);
    }
    if f :| f in run.findings && Leaks(e, f) {
      assert InClass(e, f);
    }
  }

  /** A run with no provenance: a class that ran fails if and only if it has a confirmed
      finding, and passes if and only if it has none. */
  lemma VerdictUnrecorded(run: Run, e: CatalogClass)
    requires forall p | p in e.probes :: ProbeSurfaces(p) != {}
    requires ScoreClass(e, run, Withheld(run)).Ok? && run.provenance == map[]
    ensures
      var verdict := ScoreClass(e, run, Withheld(run)).value.verdict;
      && (verdict == Fail <==> exists f | f in run.findings :: Leaks(e, f))
      && (verdict == Pass <==>
            (exists p :: p in e.probes && ProbeRan(run, p)) && forall f | f in run.findings :: !Leaks(e, f))
  {
    assert Withheld(run) == {};
    VerdictClosedForm(e, run);
    forall p {
      RanIsProbeRan(run, e, p);
    }
    if f :| f in run.findings && Leaks(e, f) {
      assert InClass(e, f) && ProbeRan(run, f.probeId);
    }
    if p :| p in e.probes && ProbeRan(run, p) {
      assert p in Ran(e, run);
    }
  }

  // ---------- What of a finding is read ----------

  /** Findings the scorecard cannot tell apart: one probe, one status, and one surface - or the
      key-value cache for the one and the model adapter for the other. Principals, severities
      and ids are not read. */
  predicate ScoreAlike(f: Finding, g: Finding) {
    && f.probeId == g.probeId && f.status == g.status
    && (f.surface == g.surface || (f.surface in {KvCache, ModelAdapter} && g.surface in {KvCache, ModelAdapter}))
  }

  ghost predicate ScoreAlikeRuns(run: Run, run': Run) {
    && run' == run.(findings := run'.findings) && |run'.findings| == |run.findings|
    && forall i | 0 <= i < |run.findings| :: ScoreAlike(run.findings[i], run'.findings[i])
  }

  lemma {:induction false} CountAlike(a: seq<Finding>, b: seq<Finding>, e: CatalogClass, surfaces: set<Surface>)
    requires |a| == |b| && forall i | 0 <= i < |a| :: ScoreAlike(a[i], b[i])
    ensures Count(a, e, surfaces) == Count(b, e, surfaces)
  {
    if a != [] {
      CountAlike(a[1..], b[1..], e, surfaces);
      assert ScoreAlike(a[0], b[0]);
    }
  }

  lemma ExercisedAlike(run: Run, run': Run)
    requires ScoreAlikeRuns(run, run')
    ensures Exercised(run') == Exercised(run)
  {
    forall f | f in run.findings ensures exists g | g in run'.findings :: g.probeId == f.probeId {
      var i :| 0 <= i < |run.findings| && run.findings[i] == f;
      assert run'.findings[i] in run'.findings;
    }
    forall g | g in run'.findings ensures exists f | f in run.findings :: f.probeId == g.probeId {
      var i :| 0 <= i < |run.findings| && run'.findings[i] == g;
      assert run.findings[i] in run.findings;
    }
  }

  lemma ClassAlike(run: Run, run': Run, e: CatalogClass)
    requires ScoreAlikeRuns(run, run')
    ensures ScoreClass(e, run', Withheld(run')) == ScoreClass(e, run, Withheld(run))
    ensures UncappedConfirmed(run', e, Withheld(run')) <==> UncappedConfirmed(run, e, Withheld(run))
  {
    ExercisedAlike(run, run');
    assert Ran(e, run') == Ran(e, run) && Withheld(run') == Withheld(run);
    forall surfaces {
      CountAlike(run.findings, run'.findings, e, surfaces);
    }
    UncappedAlike(run, run', e);
  }

  lemma UncappedAlike(run: Run, run': Run, e: CatalogClass)
    requires ScoreAlikeRuns(run, run')
    ensures UncappedConfirmed(run', e, Withheld(run')) <==> UncappedConfirmed(run, e, Withheld(run))
  {
    if UncappedConfirmed(run, e, Withheld(run)) {
      var f :| f in run.findings && InClass(e, f) && BackingSurface(f) !in Withheld(run);
      var i :| 0 <= i < |run.findings| && run.findings[i] == f;
      assert ScoreAlike(f, run'.findings[i]) && run'.findings[i] in run'.findings;
    }
    if UncappedConfirmed(run', e, Withheld(run')) {
      var f :| f in run'.findings && InClass(e, f) && BackingSurface(f) !in Withheld(run');
      var i :| 0 <= i < |run.findings| && run'.findings[i] == f;
      assert ScoreAlike(run.findings[i], f) && run.findings[i] in run.findings;
    }
  }

  lemma {:induction false} CapAlike(run: Run, run': Run, entries: seq<CatalogClass>, classes: seq<ClassScore>)
    requires ScoreAlikeRuns(run, run') && |entries| == |classes|
    ensures CappedBy(run', entries, classes) == CappedBy(run, entries, classes)
  {
    if entries != [] {
      var n := |entries| - 1;
      CapAlike(run, run', entries[..n], classes[..n]);
      UncappedAlike(run, run', entries[n]);
    }
  }

  lemma ClassesAlike(run: Run, run': Run, entries: seq<CatalogClass>)
    requires ScoreAlikeRuns(run, run')
    ensures ScoreClasses(entries, run') == ScoreClasses(entries, run)
  {
    forall i | 0 <= i < |entries|
      ensures ScoreClass(entries[i], run', Withheld(run')) == ScoreClass(entries[i], run, Withheld(run))
    {
      ClassAlike(run, run', entries[i]);
    }
    var a, b := ScoreClasses(entries, run), ScoreClasses(entries, run');
    assert a.Err? <==> b.Err?;
    if a.Ok? {
      assert a.value == b.value;
    }
  }

  lemma StaleAlike(run: Run, run': Run)
    requires ScoreAlikeRuns(run, run')
    ensures (exists f | f in run'.findings :: f.status == Confirmed && f.probeId !in CatalogProbes())
       <==> (exists f | f in run.findings :: f.status == Confirmed && f.probeId !in CatalogProbes())
  {
    if f :| f in run.findings && f.status == Confirmed && f.probeId !in CatalogProbes() {
      var i :| 0 <= i < |run.findings| && run.findings[i] == f;
      assert ScoreAlike(f, run'.findings[i]) && run'.findings[i] in run'.findings;
    }
    if f :| f in run'.findings && f.status == Confirmed && f.probeId !in CatalogProbes() {
      var i :| 0 <= i < |run.findings| && run'.findings[i] == f;
      assert ScoreAlike(run.findings[i], f) && run.findings[i] in run.findings;
    }
  }

  lemma ScopeAlike(run: Run, run': Run)
    requires ScoreAlikeRuns(run, run')
    ensures ScopeOf(run') == ScopeOf(run)
  {
  }

  /** Records with findings alike, one by one, get the same scorecard or the same refusal: the
      letter reads no severity, no principal and no id, and a finding on the key-value cache
      and one on the model adapter are the same to it. */
  lemma ScoreReadsAlike(run: Run, run': Run)
    requires ScoreAlikeRuns(run, run')
    ensures ScoreRun(run') == ScoreRun(run)
  {
    StaleAlike(run, run');
    ClassesAlike(run, run', CATALOG);
    ScopeAlike(run, run');
    var classes := ScoreClasses(CATALOG, run);
    if classes.Ok? {
      CapAlike(run, run', CATALOG, classes.value);
    }
  }
}
