/** The run record: what a probe run found, what it ran against, and what it measured. */
module Records {
  import opened Wrappers

  datatype Severity = Info | Low | Medium | High | Critical {
    function Rank(): nat {
      match this
      case Info => 0
      case Low => 1
      case Medium => 2
      case High => 3
      case Critical => 4
    }
  }

  datatype Status = Confirmed | Unverified

  datatype Surface =
    | Api | VectorDb | RagPipeline | PromptLogs | SemanticCache | KvCache | AgentMemory
    | AgentFramework | Mcp | ModelAdapter | EvalSet | Backup | SearchIndex | Tracing

  const ALL_SURFACES: set<Surface> :=
    {Api, VectorDb, RagPipeline, PromptLogs, SemanticCache, KvCache, AgentMemory,
     AgentFramework, Mcp, ModelAdapter, EvalSet, Backup, SearchIndex, Tracing}

  datatype Provenance = Live | Synthetic

  datatype Coverage = Erased | Residual | AttestableWithCaveat | NotCovered

  /** A probe id: the thirteen isolation probes, the two erasure workflows, or any other
      string a record may carry. */
  datatype ProbeId =
    | TenantBoundaryFetch | RagEntityBleed | RagPipelineBleed | RagPoisoning
    | SemanticCacheContamination | KvCacheTiming | EmbeddingInversion | AgentToolHijack
    | AgentFrameworkHijack | MemoryContamination | LoraCrossTenant | IkeaExtraction
    | MultimodalRagBleed
    | GdprErasure | GdprSubjectErasure
    | OtherProbe(name: string)

  const ERASURE_WORKFLOWS: set<ProbeId> := {GdprErasure, GdprSubjectErasure}

  const ERASURE_SURFACES: set<Surface> :=
    {VectorDb, Tracing, AgentMemory, SemanticCache, ModelAdapter, SearchIndex, EvalSet, Backup}

  /** Tenants and users are identified by UUIDs; only their equality matters here. */
  type Uuid = nat

  datatype Finding = Finding(
    findingId: string,
    probeId: ProbeId,
    severity: Severity,
    status: Status,
    ownerTenant: Uuid,
    observedInTenant: Uuid,
    ownerUser: Option<Uuid>,
    observedInUser: Option<Uuid>,
    surface: Surface)

  datatype Metrics = Metrics(
    confirmedFindings: int,
    pivotRate: Option<real>,
    pivotK: nat,
    pivotN: nat,
    poisoningDelta: Option<real>,
    inversionRate: Option<real>,
    extractionEfficiency: Option<real>,
    rateByModel: map<string, real>,
    perProbeFindings: map<string, int>,
    erasureResidue: map<Surface, int>,
    erasureCaveats: map<Surface, int>,
    erasureUnverifiable: map<Surface, int>,
    erasureCoverage: map<Surface, Coverage>,
    effectSizes: map<string, real>,
    varianceFloored: set<string>,
    userStepsDropped: map<ProbeId, int>,
    unconfirmedPlants: map<ProbeId, int>)

  datatype Run = Run(
    scenarioHash: string,
    provenance: map<Surface, Provenance>,
    probeVersions: set<ProbeId>,
    findings: seq<Finding>,
    metrics: Metrics,
    vectorEmbedder: Option<string>)

  /** What the record's own validators enforce on the erasure blocks. */
  ghost predicate ValidMetrics(m: Metrics) {
    && m.erasureCoverage.Keys <= ERASURE_SURFACES
    && m.erasureResidue.Keys <= ERASURE_SURFACES
    && m.erasureCaveats.Keys <= ERASURE_SURFACES
    && m.erasureUnverifiable.Keys <= ERASURE_SURFACES
  }

  const EMPTY_METRICS := Metrics(
    0, None, 0, 0, None, None, None, map[], map[], map[], map[], map[], map[], map[], {}, map[], map[])

  /** The probes a record shows to have run: its bookkeeping, and every finding it carries. */
  function Exercised(run: Run): set<ProbeId> {
    run.probeVersions + set f | f in run.findings :: f.probeId
  }

  function LiveSurfaces(run: Run): set<Surface> {
    set s | s in run.provenance && run.provenance[s] == Live
  }

  /** The surfaces a probe's adapter slot may speak for; empty for a probe the table omits.
      The scorecard and the control exporter each keep a copy of this one table. */
  function ProbeSurfaces(p: ProbeId): set<Surface> {
    match p
    case TenantBoundaryFetch => {VectorDb, Api}
    case RagEntityBleed => {VectorDb, Api}
    case RagPipelineBleed => {RagPipeline}
    case RagPoisoning => {VectorDb, Api}
    case SemanticCacheContamination => {SemanticCache}
    case KvCacheTiming => {ModelAdapter}
    case EmbeddingInversion => {VectorDb, Api}
    case AgentToolHijack => {Mcp}
    case AgentFrameworkHijack => {AgentFramework}
    case MemoryContamination => {AgentMemory}
    case LoraCrossTenant => {ModelAdapter}
    case IkeaExtraction => {VectorDb, Api}
    case MultimodalRagBleed => {VectorDb, Api}
    case _ => {}
  }
}
