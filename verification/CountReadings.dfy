/** The number beside each class's verdict: how many of the record's findings it counts. */
module CountReadings {
  import opened Labels
  import opened RecordReadings
  import opened Records
  import opened Score
  import opened ScoreLaws

  /** The places of a record that hold a finding of some kind. */
  function PlacesOf(findings: seq<Finding>, kind: Finding -> bool): set<nat> {
    set i: nat | i < |findings| && kind(findings[i])
  }

  ghost function Leaking(e: CatalogClass): Finding -> bool {
    f => Leaks(e, f)
  }

  ghost function LeakingUnrecorded(run: Run, e: CatalogClass): Finding -> bool {
    f => Leaks(e, f) && RestsOnNothing(run, f)
  }

  /** Leaking where the run's verdicts are about: anywhere on a run with no provenance, on
      something live where anything is, and on a fake where all are. */
  ghost function LeakingInScope(run: Run, e: CatalogClass): Finding -> bool {
    f => && Leaks(e, f)
         && (run.provenance == map[]
             || (if exists s :: IsLive(run, s) then RestsOnLive(run, f) else RestsOnFake(run, f)))
  }

  lemma {:induction false} CountSnoc(
    findings: seq<Finding>, f: Finding, e: CatalogClass, surfaces: set<Surface>)
    ensures Count(findings + [f], e, surfaces)
         == Count(findings, e, surfaces) + if InClass(e, f) && BackingSurface(f) in surfaces then 1 else 0
  {
    if findings == [] {
      assert [] + [f] == [f] && [f][1..] == [];
    } else {
      assert (findings + [f])[1..] == findings[1..] + [f];
      CountSnoc(findings[1..], f, e, surfaces);
    }
  }

  lemma {:induction false} CountIsPlaces(
    findings: seq<Finding>, e: CatalogClass, surfaces: set<Surface>, kind: Finding -> bool)
    requires forall f :: kind(f) <==> InClass(e, f) && BackingSurface(f) in surfaces
    ensures Count(findings, e, surfaces) == |PlacesOf(findings, kind)|
  {
    if findings != [] {
      var n := |findings| - 1;
      var before, now := PlacesOf(findings[..n], kind), PlacesOf(findings, kind);
      CountIsPlaces(findings[..n], e, surfaces, kind);
      CountSnoc(findings[..n], findings[n], e, surfaces);
      assert findings == findings[..n] + [findings[n]];
      assert now == if kind(findings[n]) then before + {n} else before;
    }
  }

  /** Where the verdicts of a run are about. */
  function Counting(run: Run): set<Surface> {
    if run.provenance == map[] then ALL_SURFACES else run.provenance.Keys - Withheld(run)
  }

  lemma CountsInScope(e: CatalogClass, run: Run)
    ensures ConfirmedInClass(e, run) - Count(run.findings, e, Withheld(run)) - UnattributedInClass(e, run)
         == Count(run.findings, e, Counting(run))
  {
    var w := Withheld(run);
    forall s | s in w ensures s in ALL_SURFACES {
      EverySurface(s);
    }
    CountSplit(run.findings, e, ALL_SURFACES, w);
    if run.provenance == map[] {
      assert ALL_SURFACES - w == ALL_SURFACES;
    } else {
      CountSplit(run.findings, e, ALL_SURFACES - w, ALL_SURFACES - run.provenance.Keys);
      KeysLessWithheld(run);
    }
  }

  lemma CountingInFields(run: Run, f: Finding)
    ensures BackingSurface(f) in Counting(run) <==>
              || run.provenance == map[]
              || (if exists s :: IsLive(run, s) then RestsOnLive(run, f) else RestsOnFake(run, f))
  {
    EverySurface(BackingSurface(f));
    FindingRests(run, f);
    if s :| IsLive(run, s) {
      assert s in LiveSurfaces(run);
      if BackingSurface(f) in run.provenance {
        FakeOrLive(run, BackingSurface(f));
      }
    } else {
      forall s | s in LiveSurfaces(run) ensures IsLive(run, s) {
      }
      assert LiveSurfaces(run) == {} && Withheld(run) == {};
    }
  }

  /** What a class's line counts. With a verdict, the confirmed findings of the class where the
      run's verdicts are about. Without one: none if no probe of it ran; every one of them if
      its slot is not such a place; and else those on surfaces the record does not account for. */
  lemma ClassCount(e: CatalogClass, run: Run)
    requires forall p | p in e.probes :: ProbeSurfaces(p) != {}
    requires ScoreClass(e, run, Withheld(run)).Ok?
    ensures
      var c := ScoreClass(e, run, Withheld(run)).value;
      c.confirmed ==
        if c.verdict != NotGraded then |PlacesOf(run.findings, LeakingInScope(run, e))|
        else if forall p | p in e.probes :: !ProbeRan(run, p) then 0
        else if !Placeable(e, run) then |PlacesOf(run.findings, Leaking(e))|
        else |PlacesOf(run.findings, LeakingUnrecorded(run, e))|
  {
    CountsInScope(e, run);
    CountsDecide(e, run);
    forall f
      ensures LeakingInScope(run, e)(f) <==> InClass(e, f) && BackingSurface(f) in Counting(run)
      ensures Leaking(e)(f) <==> InClass(e, f) && BackingSurface(f) in ALL_SURFACES
      ensures LeakingUnrecorded(run, e)(f)
         <==> InClass(e, f) && BackingSurface(f) in ALL_SURFACES - run.provenance.Keys
    {
      CountingInFields(run, f);
      EverySurface(BackingSurface(f));
      FindingRests(run, f);
    }
    CountIsPlaces(run.findings, e, Counting(run), LeakingInScope(run, e));
    CountIsPlaces(run.findings, e, ALL_SURFACES, Leaking(e));
    CountIsPlaces(run.findings, e, ALL_SURFACES - run.provenance.Keys, LeakingUnrecorded(run, e));
    RanIff(e, run);
    if Ran(e, run) != {} {
      RanHasSurfaces(e, run);
    }
  }

  lemma RanIff(e: CatalogClass, run: Run)
    ensures Ran(e, run) == {} <==> forall p | p in e.probes :: !ProbeRan(run, p)
  {
    forall p ensures p in Ran(e, run) <==> p in e.probes && ProbeRan(run, p) {
      RanIsProbeRan(run, e, p);
    }
  }
}
