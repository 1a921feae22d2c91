/** What a finding is and what its verdict rests on; shared by the scorecard and the control
    exporter. */
module Labels {
  import opened Records

  /** The provenance key a finding's verdict rests on: a timing finding names the cache, but
      the model adapter is what was driven. */
  function BackingSurface(f: Finding): Surface {
    if f.surface == KvCache then ModelAdapter else f.surface
  }

  /** Surfaces the findings rest on that a non-empty provenance block never recorded. */
  function UnaccountedSurfaces(run: Run): set<Surface> {
    if run.provenance == map[] then {}
    else (set f | f in run.findings :: BackingSurface(f)) - run.provenance.Keys
  }

  /** Whether a finding crosses a tenant or a user boundary, rather than being residue. */
  predicate IsCrossPrincipal(f: Finding) {
    || f.ownerTenant != f.observedInTenant
    || (f.ownerUser.Some? && f.observedInUser.Some? && f.ownerUser != f.observedInUser)
  }
}
