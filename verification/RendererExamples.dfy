/** Records on which the two renderers agree, and on which they do not. */
module RendererExamples {
  import opened Controls
  import opened Labels
  import opened Oscal
  import opened Records
  import opened Renderers
  import opened Score
  import opened ScoreExamples

  lemma LiveModelIsSupported(run: Run)
    requires run.provenance == BOTH_KEYS && run.metrics == EMPTY_METRICS && KvCacheTiming in run.probeVersions
    ensures Supports(run, Isolation)
  {
    assert ModelAdapter in LiveSurfaces(run);
    LiveProbeHasSurface(run, KvCacheTiming, ModelAdapter);
    SurfacesMeanSupported(run);
  }

  lemma ExportedState(run: Run, p: Finding)
    requires LeakBesideClean(run, p) && run.provenance == BOTH_KEYS
    ensures !Withholds(run, Isolation)
    ensures StateOf(run, Isolation) == if IsCrossPrincipal(p) then NotSatisfied else Satisfied
  {
    assert p in run.findings && VectorDb in LiveSurfaces(run);
    assert Attested(run, p);
    assert HasConfirmedLeak(run) <==> IsCrossPrincipal(p);
    assert !UnplaceableIsolation(run);
  }

  lemma StateIsEmitted(run: Run, p: Finding)
    requires LeakBesideClean(run, p) && run.provenance == BOTH_KEYS
    ensures Emits(run, Isolation, if IsCrossPrincipal(p) then NotSatisfied else Satisfied)
  {
    LiveModelIsSupported(run);
    ExportedState(run, p);
    EmitsExactly(run, Isolation, if IsCrossPrincipal(p) then NotSatisfied else Satisfied);
  }

  /** A leaking store beside a clean model is an F to the scorecard whoever the finding is
      about; the exporter states isolation not satisfied if it crosses a principal, and
      satisfied - over the same record - if it does not. */
  lemma RenderersCanDisagree(run: Run, p: Finding)
    requires LeakBesideClean(run, p) && run.provenance == BOTH_KEYS
    ensures GetsLetter(run, F)
    ensures Emits(run, Isolation, if IsCrossPrincipal(p) then NotSatisfied else Satisfied)
  {
    LetterWithKey(run, p);
    StateIsEmitted(run, p);
  }

  /** The same run without the finding: satisfied, and an A. */
  lemma CleanRunAgrees(run: Run)
    requires run.findings == [] && run.metrics == EMPTY_METRICS && run.provenance == BOTH_KEYS
    requires run.probeVersions == {RagPoisoning, KvCacheTiming}
    ensures Emits(run, Isolation, Satisfied) && GetsLetter(run, A)
  {
    LiveModelIsSupported(run);
    EmitsExactly(run, Isolation, Satisfied);
    SatisfiedMeansA(run);
  }
}
