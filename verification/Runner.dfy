/** The scenario runner: it plans a probe, filters the plan against what each adapter can
    carry, drives the steps that survive, and keeps two counters of what it did not run. The
    stack under test is arbitrary: each answer may depend on every call made before it. */
module Runner {
  import opened Records
  import opened Wrappers

  datatype Family = Vectors | Cache | Model | Mcp | Memory | Rag | Observability | Agent

  /** The actions a step may name. Any other string names at most a configured family, which
      is all the filter looks at, and no step of one can be executed. */
  datatype Action =
    | VectorQuery | VectorFetch | VectorUpsert | CacheSet | CacheGet | ModelTrain | ModelInfer
    | McpInvoke | MemoryWrite | MemoryRecall | RagAsk | ObservabilitySearch | AgentRun
    | OtherAction(family: Option<Family>)

  datatype Step = Step(id: string, tenant: Uuid, user: Option<Uuid>, action: Action, payload: map<string, string>)

  datatype Observation = Observation(response: string)

  datatype Error = ConfigError | AdapterError | OtherError

  datatype Probe = Probe(
    id: string, needs: seq<Family>, plan: seq<Step>, detect: (Step, Observation) -> seq<Finding>)

  /** What was asked of the stack, in order: a step executed, or a plant looked for and whether
      it landed. Training is taken to have. */
  datatype Call = Executed(step: Step) | ReadBack(step: Step, landed: bool)

  /** The stack: what executing a step comes to, which texts a read-back returns (a fetch or a
      cache get at most one), and the shared residue test. */
  datatype Stack = Stack(
    execute: (seq<Call>, Step) -> Result<Observation, Error>,
    readBack: (seq<Call>, Step) -> Result<seq<string>, Error>,
    residual: (string, string) -> bool)

  /** The configured adapters, and whether each carries a user. */
  type Adapters = map<Family, bool>

  type StepResult = (Step, seq<Finding>)

  predicate IsPlant(step: Step) {
    step.action.VectorUpsert? || step.action.CacheSet? || step.action.ModelTrain? || step.action.MemoryWrite?
  }

  predicate HasConfirmed(findings: seq<Finding>) {
    exists f | f in findings :: f.status.Confirmed?
  }

  function FamilyOf(action: Action): Option<Family> {
    match action
    case VectorQuery | VectorFetch | VectorUpsert => Some(Vectors)
    case CacheSet | CacheGet => Some(Cache)
    case ModelTrain | ModelInfer => Some(Model)
    case McpInvoke => Some(Family.Mcp)
    case MemoryWrite | MemoryRecall => Some(Memory)
    case RagAsk => Some(Rag)
    case ObservabilitySearch => Some(Observability)
    case AgentRun => Some(Agent)
    case OtherAction(family) => family
  }

  /** Whether the action's adapter carries a user; it is an error for there to be none. */
  function CarriesUser(adapters: Adapters, action: Action): Result<bool, Error> {
    var family := FamilyOf(action);
    if family.Some? && family.value in adapters then Ok(adapters[family.value]) else Err(AdapterError)
  }

  /** A tenant-level step is never droppable, whatever adapter it names. */
  function Droppable(adapters: Adapters, step: Step): Result<bool, Error> {
    if step.user.None? then Ok(false)
    else
      var carries := CarriesUser(adapters, step.action);
      if carries.Err? then Err(carries.error) else Ok(!carries.value)
  }

  function Judged(plan: seq<Step>): seq<Step> {
    if plan == [] then []
    else if IsPlant(plan[0]) then Judged(plan[1..])
    else [plan[0]] + Judged(plan[1..])
  }

  /** `all`, which stops at the first step that is not droppable. */
  function AllDroppable(adapters: Adapters, steps: seq<Step>): Result<bool, Error> {
    if steps == [] then Ok(true)
    else
      var first := Droppable(adapters, steps[0]);
      if first.Err? || !first.value then first else AllDroppable(adapters, steps[1..])
  }

  function DropsWholeProbe(adapters: Adapters, plan: seq<Step>): Result<bool, Error> {
    if Judged(plan) == [] then Ok(false) else AllDroppable(adapters, Judged(plan))
  }

  /** A step as it is sent, or nothing for one the runner drops. */
  function AsSent(adapters: Adapters, step: Step): Result<Option<Step>, Error> {
    var droppable := Droppable(adapters, step);
    if droppable.Err? then Err(droppable.error)
    else if !droppable.value then Ok(Some(step))
    else if IsPlant(step) then Ok(Some(step.(user := None)))
    else Ok(None)
  }

  function Sent(adapters: Adapters, plan: seq<Step>): Result<seq<Step>, Error> {
    if plan == [] then Ok([])
    else
      var n := |plan| - 1;
      var before, last := Sent(adapters, plan[..n]), AsSent(adapters, plan[n]);
      if before.Err? then before
      else if last.Err? then Err(last.error)
      else if last.value.None? then before
      else Ok(before.value + [last.value.value])
  }

  predicate PreflightFails(adapters: Adapters, probe: Probe) {
    exists f | f in probe.needs :: f !in adapters
  }

  function StepsToSend(adapters: Adapters, probe: Probe): Result<seq<Step>, Error> {
    if PreflightFails(adapters, probe) then Err(ConfigError)
    else
      var whole := DropsWholeProbe(adapters, probe.plan);
      if whole.Err? then Err(whole.error)
      else if whole.value then Ok([])
      else Sent(adapters, probe.plan)
  }

  /** Executing a step whose action the runner does not know, or whose adapter is missing,
      never reaches the stack. */
  function Execute(stack: Stack, adapters: Adapters, log: seq<Call>, step: Step): Result<Observation, Error> {
    if step.action.OtherAction? || CarriesUser(adapters, step.action).Err? then Err(AdapterError)
    else stack.execute(log, step)
  }

  /** The payload keys naming what to read back and what must be in it. */
  function ReadBackKeys(action: Action): Option<(string, string)> {
    match action
    case VectorUpsert => Some(("doc_id", "content"))
    case CacheSet => Some(("key", "value"))
    case MemoryWrite => Some(("text", "text"))
    case _ => None
  }

  /** Whether a plant reads back to the principal that planted it. A stack that cannot answer
      has not confirmed it; a training step is exempt. */
  function PlantLanded(stack: Stack, log: seq<Call>, step: Step): Result<bool, Error> {
    var keys := ReadBackKeys(step.action);
    if keys.None? then Ok(true)
    else if keys.value.0 !in step.payload then Ok(false)
    else
      var back := stack.readBack(log, step);
      if back.Err? then (if back.error.AdapterError? then Ok(false) else Err(back.error))
      else if keys.value.1 !in step.payload then Ok(false)
      else Ok(exists hit | hit in back.value :: stack.residual(step.payload[keys.value.1], hit))
  }

  /** What driving a plan up to some step has come to. */
  datatype Driven = Driven(
    results: seq<StepResult>, dropped: nat, planted: nat, unconfirmed: nat, log: seq<Call>,
    failure: Option<Error>)

  function DriveStep(stack: Stack, adapters: Adapters, probe: Probe, d: Driven, step: Step): Driven {
    if d.failure.Some? then d
    else
      var sent := AsSent(adapters, step);
      if sent.Err? then d.(failure := Some(sent.error))
      else if sent.value.None? then d.(dropped := d.dropped + 1)
      else DriveSent(stack, adapters, probe, d, sent.value.value)
  }

  function DriveSent(stack: Stack, adapters: Adapters, probe: Probe, d: Driven, sent: Step): Driven {
    var observation := Execute(stack, adapters, d.log, sent);
    var log := d.log + [Executed(sent)];
    if observation.Err? then d.(log := log, failure := Some(observation.error))
    else
      var result := (sent, probe.detect(sent, observation.value));
      if !IsPlant(sent) then d.(results := d.results + [result], log := log)
      else
        var landed := PlantLanded(stack, log, sent);
        if landed.Err? then d.(planted := d.planted + 1, log := log, failure := Some(landed.error))
        else d.(
          results := d.results + [result], planted := d.planted + 1,
          unconfirmed := d.unconfirmed + if landed.value then 0 else 1,
          log := log + [ReadBack(sent, landed.value)])
  }

  function Drive(stack: Stack, adapters: Adapters, probe: Probe, log: seq<Call>, plan: seq<Step>): Driven {
    if plan == [] then Driven([], 0, 0, 0, log, None)
    else
      var n := |plan| - 1;
      DriveStep(stack, adapters, probe, Drive(stack, adapters, probe, log, plan[..n]), plan[n])
  }

  predicate Observed(results: seq<StepResult>) {
    exists r | r in results :: HasConfirmed(r.1)
  }

  /** Every plant vanished and nothing was seen, so the reads looked for nothing. */
  predicate Discards(d: Driven) {
    d.planted > 0 && d.unconfirmed == d.planted && !Observed(d.results)
  }

  function UserLevel(plan: seq<Step>): nat {
    if plan == [] then 0 else UserLevel(plan[1..]) + if plan[0].user.Some? then 1 else 0
  }

  type Counts = map<string, nat>

  function CountOf(counts: Counts, id: string): nat {
    if id in counts then counts[id] else 0
  }

  function Add(counts: Counts, id: string, more: nat): Counts {
    counts[id := CountOf(counts, id) + more]
  }

  /** The counters are written only where there is something to disclose. */
  function AddAny(counts: Counts, id: string, more: nat): Counts {
    if more > 0 then Add(counts, id, more) else counts
  }

  datatype State = State(dropped: Counts, unconfirmed: Counts, log: seq<Call>)

  function AfterRun(stack: Stack, adapters: Adapters, s: State, probe: Probe): (State, Result<seq<StepResult>, Error>) {
    var whole := DropsWholeProbe(adapters, probe.plan);
    if PreflightFails(adapters, probe) then (s, Err(ConfigError))
    else if whole.Err? then (s, Err(whole.error))
    else if whole.value then (s.(dropped := Add(s.dropped, probe.id, UserLevel(probe.plan))), Ok([]))
    else AfterDriven(s, probe, Drive(stack, adapters, probe, s.log, probe.plan))
  }

  function AfterDriven(s: State, probe: Probe, d: Driven): (State, Result<seq<StepResult>, Error>) {
    if d.failure.Some? then (s.(log := d.log), Err(d.failure.value))
    else
      var after := State(AddAny(s.dropped, probe.id, d.dropped), AddAny(s.unconfirmed, probe.id, d.unconfirmed), d.log);
      (after, Ok(if Discards(d) then [] else d.results))
  }

  class ScenarioRunner {
    const stack: Stack
    const adapters: Adapters
    var droppedUserSteps: Counts
    var unconfirmedPlants: Counts
    var log: seq<Call>

    function Abstract(): State
      reads this
    {
      State(droppedUserSteps, unconfirmedPlants, log)
    }

    constructor (stack: Stack, adapters: Adapters)
      ensures this.stack == stack && this.adapters == adapters && Abstract() == State(map[], map[], [])
    {
      this.stack, this.adapters := stack, adapters;
      droppedUserSteps, unconfirmedPlants, log := map[], map[], [];
    }

    method Preflight(probe: Probe) returns (failure: Option<Error>)
      ensures failure == if PreflightFails(adapters, probe) then Some(ConfigError) else None
    {
      var missing: seq<Family> := [];
      for i := 0 to |probe.needs|
        invariant missing == [] <==> forall j | 0 <= j < i :: probe.needs[j] in adapters
      {
        if probe.needs[i] !in adapters {
          missing := missing + [probe.needs[i]];
        }
      }
      return if missing != [] then Some(ConfigError) else None;
    }

    /** One planned step of the loop, against the running totals in `d`. */
    method SendStep(probe: Probe, d: Driven, step: Step) returns (after: Driven)
      requires d.failure.None? && d.log == log
      modifies this`log
      ensures after == DriveStep(stack, adapters, probe, d, step) && log == after.log
    {
      var sent := AsSent(adapters, step);
      if sent.Err? {
        return d.(failure := Some(sent.error));
      }
      if sent.value.None? {
        return d.(dropped := d.dropped + 1);
      }
      var request := sent.value.value;
      var observation := Execute(stack, adapters, log, request);
      log := log + [Executed(request)];
      after := d.(log := log);
      if observation.Err? {
        return after.(failure := Some(observation.error));
      }
      if IsPlant(request) {
        after := after.(planted := after.planted + 1);
        var landed := PlantLanded(stack, log, request);
        if landed.Err? {
          return after.(failure := Some(landed.error));
        }
        log := log + [ReadBack(request, landed.value)];
        after := after.(log := log);
        if !landed.value {
          after := after.(unconfirmed := after.unconfirmed + 1);
        }
      }
      after := after.(results := after.results + [(request, probe.detect(request, observation.value))]);
    }

    method RunPerStep(probe: Probe) returns (r: Result<seq<StepResult>, Error>)
      modifies this
      ensures (Abstract(), r) == AfterRun(stack, adapters, old(Abstract()), probe)
    {
      var failure := Preflight(probe);
      if failure.Some? {
        return Err(failure.value);
      }
      var whole := DropsWholeProbe(adapters, probe.plan);
      if whole.Err? {
        return Err(whole.error);
      }
      if whole.value {
        droppedUserSteps := Add(droppedUserSteps, probe.id, UserLevel(probe.plan));
        return Ok([]);
      }
      var d := Driven([], 0, 0, 0, log, None);
      var i := 0;
      while i < |probe.plan|
        invariant 0 <= i <= |probe.plan|
        invariant d == Drive(stack, adapters, probe, old(log), probe.plan[..i])
        invariant d.failure.None? && log == d.log
        invariant droppedUserSteps == old(droppedUserSteps) && unconfirmedPlants == old(unconfirmedPlants)
      {
        var before := d;
        assert probe.plan[..i + 1][..i] == probe.plan[..i];
        d := SendStep(probe, before, probe.plan[i]);
        i := i + 1;
        if d.failure.Some? {
          FailureStays(stack, adapters, probe, old(log), probe.plan, i);
          return Err(d.failure.value);
        }
      }
      assert probe.plan[..i] == probe.plan;
      droppedUserSteps := AddAny(droppedUserSteps, probe.id, d.dropped);
      unconfirmedPlants := AddAny(unconfirmedPlants, probe.id, d.unconfirmed);
      return Ok(if Discards(d) then [] else d.results);
    }
  }

  /** Nothing follows the first error. */
  lemma {:induction false} FailureStays(
    stack: Stack, adapters: Adapters, probe: Probe, log: seq<Call>, plan: seq<Step>, i: nat)
    requires i <= |plan| && Drive(stack, adapters, probe, log, plan[..i]).failure.Some?
    ensures Drive(stack, adapters, probe, log, plan) == Drive(stack, adapters, probe, log, plan[..i])
  {
    if i == |plan| {
      assert plan[..i] == plan;
    } else {
      var n := |plan| - 1;
      assert plan[..n][..i] == plan[..i];
      FailureStays(stack, adapters, probe, log, plan[..n], i);
    }
  }
}
