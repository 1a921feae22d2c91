/** The runner's two disclosures in the terms of what was planned and what the stack answered:
    which steps are dropped for want of a user, and which plants are lost. */
module PlantLaws {
  import opened Records
  import opened Runner
  import opened RunnerLaws
  import opened Wrappers

  // ---------- Plants that vanish ----------

  /** The plants that are looked for: every one but a training step. */
  predicate IsLookedFor(step: Step) {
    step.action.VectorUpsert? || step.action.CacheSet? || step.action.MemoryWrite?
  }

  predicate HasFields(step: Step) {
    && (step.action.VectorUpsert? ==> "doc_id" in step.payload && "content" in step.payload)
    && (step.action.CacheSet? ==> "key" in step.payload && "value" in step.payload)
    && (step.action.MemoryWrite? ==> "text" in step.payload)
  }

  function PlantedText(step: Step): string
    requires IsLookedFor(step) && HasFields(step)
  {
    match step.action
    case VectorUpsert => step.payload["content"]
    case CacheSet => step.payload["value"]
    case MemoryWrite => step.payload["text"]
  }

  /** Some text the stack gave back holds what was planted. */
  predicate GivenBack(stack: Stack, log: seq<Call>, step: Step)
    requires IsLookedFor(step) && HasFields(step)
  {
    var back := stack.readBack(log, step);
    back.Ok? && exists text | text in back.value :: stack.residual(PlantedText(step), text)
  }

  /** A plant is lost when it cannot be looked for, the stack cannot answer, or nothing the
      stack returns holds it. */
  predicate Vanished(stack: Stack, log: seq<Call>, step: Step) {
    IsLookedFor(step) && (!HasFields(step) || !GivenBack(stack, log, step))
  }

  /** What a recorded read-back says: the plant before it has landed or, by the stack's answer
      at that moment, has vanished. */
  predicate RecordsAnswer(stack: Stack, calls: seq<Call>, i: nat)
    requires i < |calls|
  {
    calls[i].ReadBack? ==>
      && i > 0 && calls[i - 1] == Executed(calls[i].step)
      && (IsLookedFor(calls[i].step) || calls[i].step.action.ModelTrain?)
      && (calls[i].landed <==> !Vanished(stack, calls[..i], calls[i].step))
  }

  lemma LandedUnlessVanished(stack: Stack, log: seq<Call>, step: Step)
    requires PlantLanded(stack, log, step).Ok?
    ensures PlantLanded(stack, log, step).value <==> !Vanished(stack, log, step)
  {
  }

  lemma KeepsRecords(stack: Stack, calls: seq<Call>, more: seq<Call>, from: nat)
    requires from <= |calls| && forall i | from <= i < |calls| :: RecordsAnswer(stack, calls, i)
    requires forall i | |calls| <= i < |calls + more| :: RecordsAnswer(stack, calls + more, i)
    ensures forall i | from <= i < |calls + more| :: RecordsAnswer(stack, calls + more, i)
  {
    forall i | from <= i < |calls + more| ensures RecordsAnswer(stack, calls + more, i) {
      if i < |calls| {
        assert RecordsAnswer(stack, calls, i);
        assert (calls + more)[..i] == calls[..i];
      }
    }
  }

  lemma SentRecordsAnswer(stack: Stack, adapters: Adapters, probe: Probe, d: Driven, sent: Step, from: nat)
    requires from <= |d.log| && forall i | from <= i < |d.log| :: RecordsAnswer(stack, d.log, i)
    ensures
      var after := DriveSent(stack, adapters, probe, d, sent).log;
      && from <= |after| && (forall i | from <= i < |after| :: RecordsAnswer(stack, after, i))
      && d.log + [Executed(sent)] <= after
  {
    var executed := d.log + [Executed(sent)];
    KeepsRecords(stack, d.log, [Executed(sent)], from);
    var landed := PlantLanded(stack, executed, sent);
    if IsPlant(sent) && landed.Ok? {
      LandedUnlessVanished(stack, executed, sent);
      var more := [ReadBack(sent, landed.value)];
      assert (executed + more)[..|executed|] == executed;
      assert executed[|executed| - 1] == Executed(sent);
      KeepsRecords(stack, executed, more, from);
    }
  }

  /** Every read-back of a run, failed or not, records the stack's own answer. */
  lemma {:induction false} ReadBacksAreAnswers(
    stack: Stack, adapters: Adapters, probe: Probe, log: seq<Call>, plan: seq<Step>)
    ensures
      var calls := Drive(stack, adapters, probe, log, plan).log;
      && |log| <= |calls| && (forall i | |log| <= i < |calls| :: RecordsAnswer(stack, calls, i))
      && (|log| < |calls| ==> calls[|log|].Executed?)
  {
    if plan != [] {
      var n := |plan| - 1;
      ReadBacksAreAnswers(stack, adapters, probe, log, plan[..n]);
      var d := Drive(stack, adapters, probe, log, plan[..n]);
      var sent := AsSent(adapters, plan[n]);
      if d.failure.None? && sent.Ok? && sent.value.Some? {
        SentRecordsAnswer(stack, adapters, probe, d, sent.value.value, |log|);
      }
    }
  }

  /** How many of the plants read back in `calls`, from place `from` on, had vanished. */
  function VanishedIn(stack: Stack, calls: seq<Call>, from: nat): nat
    requires from <= |calls|
    decreases |calls|
  {
    if from == |calls| then 0
    else
      var n := |calls| - 1;
      VanishedIn(stack, calls[..n], from)
      + if calls[n].ReadBack? && Vanished(stack, calls[..n], calls[n].step) then 1 else 0
  }

  lemma {:induction false} LostIsVanished(stack: Stack, calls: seq<Call>, from: nat)
    requires from <= |calls| && forall i | from <= i < |calls| :: RecordsAnswer(stack, calls, i)
    ensures LostIn(calls[from..]) == VanishedIn(stack, calls, from)
    decreases |calls|
  {
    if from < |calls| {
      var n := |calls| - 1;
      forall i | from <= i < n ensures RecordsAnswer(stack, calls[..n], i) {
        assert RecordsAnswer(stack, calls, i);
        assert calls[..n][..i] == calls[..i];
      }
      LostIsVanished(stack, calls[..n], from);
      assert RecordsAnswer(stack, calls, n);
      assert calls[from..] == calls[..n][from..] + [calls[n]];
      CallsSnoc(calls[..n][from..], calls[n]);
    }
  }

  /** A completed run counts a sent plant as unconfirmed exactly when it vanished, and throws
      its results away exactly when there were plants, each vanished, and no executed step
      surfaced a confirmed finding. */
  lemma UnconfirmedIffVanished(stack: Stack, adapters: Adapters, s: State, probe: Probe)
    requires AfterRun(stack, adapters, s, probe).1.Ok? && DropsWholeProbe(adapters, probe.plan) == Ok(false)
    ensures
      var (after, r) := AfterRun(stack, adapters, s, probe);
      var d := Drive(stack, adapters, probe, s.log, probe.plan);
      && after.log == d.log && |s.log| <= |d.log|
      && CountOf(after.unconfirmed, probe.id)
         == CountOf(s.unconfirmed, probe.id) + VanishedIn(stack, d.log, |s.log|)
      && (r.value == d.results || r.value == [])
      && (r.value != d.results <==>
            && (exists i :: |s.log| <= i < |d.log| && d.log[i].ReadBack?)
            && (forall i | |s.log| <= i < |d.log| && d.log[i].ReadBack? :: Vanished(stack, d.log[..i], d.log[i].step))
            && !exists e, f :: e in d.results && f in e.1 && f.status == Confirmed)
  {
    var d := Drive(stack, adapters, probe, s.log, probe.plan);
    DriveAccounts(stack, adapters, probe, s.log, probe.plan);
    ReadBacksAreAnswers(stack, adapters, probe, s.log, probe.plan);
    LostIsVanished(stack, d.log, |s.log|);
    DiscardedIff(stack, adapters, s, probe);
    var calls := d.log[|s.log|..];
    assert CallsOf(stack, adapters, s, probe) == calls;
    EveryCallVanished(stack, d.log, |s.log|);
  }

  lemma EveryCallVanished(stack: Stack, calls: seq<Call>, from: nat)
    requires from <= |calls| && forall i | from <= i < |calls| :: RecordsAnswer(stack, calls, i)
    ensures (exists c :: c in calls[from..] && c.ReadBack?) <==> exists i :: from <= i < |calls| && calls[i].ReadBack?
    ensures (forall c | c in calls[from..] && c.ReadBack? :: !c.landed)
       <==> forall i | from <= i < |calls| && calls[i].ReadBack? :: Vanished(stack, calls[..i], calls[i].step)
  {
    forall i | from <= i < |calls| ensures calls[i] in calls[from..] {
      assert calls[i] == calls[from..][i - from];
    }
    forall c | c in calls[from..] ensures exists i :: from <= i < |calls| && calls[i] == c {
      var j :| 0 <= j < |calls[from..]| && calls[from..][j] == c;
      assert calls[from + j] == c;
    }
    if forall c | c in calls[from..] && c.ReadBack? :: !c.landed {
      forall i | from <= i < |calls| && calls[i].ReadBack? ensures Vanished(stack, calls[..i], calls[i].step) {
        assert RecordsAnswer(stack, calls, i);
      }
    }
    if forall i | from <= i < |calls| && calls[i].ReadBack? :: Vanished(stack, calls[..i], calls[i].step) {
      forall c | c in calls[from..] && c.ReadBack? ensures !c.landed {
        var i :| from <= i < |calls| && calls[i] == c;
        assert RecordsAnswer(stack, calls, i);
      }
    }
  }

  // ---------- A stack that gives back what was planted ----------

  ghost predicate GivesBack(stack: Stack) {
    forall log, step | IsLookedFor(step) && HasFields(step) :: GivenBack(stack, log + [Executed(step)], step)
  }

  ghost predicate CarriesFields(probe: Probe) {
    forall step | step in probe.plan :: HasFields(step)
  }

  lemma AsSentCarriesFields(adapters: Adapters, step: Step)
    requires HasFields(step) && AsSent(adapters, step).Ok? && AsSent(adapters, step).value.Some?
    ensures HasFields(AsSent(adapters, step).value.value)
  {
  }

  lemma {:induction false} SentCarryFields(adapters: Adapters, plan: seq<Step>)
    requires Sent(adapters, plan).Ok? && forall step | step in plan :: HasFields(step)
    ensures forall step | step in Sent(adapters, plan).value :: HasFields(step)
  {
    if plan != [] {
      var n := |plan| - 1;
      assert plan == plan[..n] + [plan[n]];
      SentCarryFields(adapters, plan[..n]);
      var last := AsSent(adapters, plan[n]).value;
      if last.Some? {
        AsSentCarriesFields(adapters, plan[n]);
        assert Sent(adapters, plan).value == Sent(adapters, plan[..n]).value + [last.value];
      }
    }
  }

  lemma {:induction false} ExecutedInHolds(calls: seq<Call>, i: nat)
    requires i < |calls| && calls[i].Executed?
    ensures calls[i].step in ExecutedIn(calls)
  {
    var n := |calls| - 1;
    if i < n {
      ExecutedInHolds(calls[..n], i);
    }
  }

  lemma ReadBackCarriesFields(stack: Stack, adapters: Adapters, probe: Probe, log: seq<Call>, i: nat)
    requires CarriesFields(probe)
    requires
      var d := Drive(stack, adapters, probe, log, probe.plan);
      d.failure.None? && |log| <= i < |d.log| && d.log[i].Executed?
    ensures HasFields(Drive(stack, adapters, probe, log, probe.plan).log[i].step)
  {
    var d := Drive(stack, adapters, probe, log, probe.plan);
    DriveAccounts(stack, adapters, probe, log, probe.plan);
    assert d.log[|log|..][i - |log|] == d.log[i];
    ExecutedInHolds(d.log[|log|..], i - |log|);
    SentCarryFields(adapters, probe.plan);
  }

  lemma GivenBackAt(stack: Stack, calls: seq<Call>, i: nat)
    requires GivesBack(stack) && i < |calls| && RecordsAnswer(stack, calls, i)
    requires calls[i].ReadBack? && HasFields(calls[i].step)
    ensures !Vanished(stack, calls[..i], calls[i].step)
  {
    var step := calls[i].step;
    assert calls[..i] == calls[..i - 1] + [Executed(step)];
    if IsLookedFor(step) {
      assert GivenBack(stack, calls[..i - 1] + [Executed(step)], step);
    }
  }

  lemma NothingVanishes(stack: Stack, adapters: Adapters, probe: Probe, log: seq<Call>, i: nat)
    requires GivesBack(stack) && CarriesFields(probe)
    requires
      var d := Drive(stack, adapters, probe, log, probe.plan);
      d.failure.None? && |log| <= i < |d.log| && d.log[i].ReadBack?
    ensures
      var d := Drive(stack, adapters, probe, log, probe.plan);
      !Vanished(stack, d.log[..i], d.log[i].step)
  {
    var calls := Drive(stack, adapters, probe, log, probe.plan).log;
    ReadBacksAreAnswers(stack, adapters, probe, log, probe.plan);
    assert RecordsAnswer(stack, calls, i);
    ReadBackCarriesFields(stack, adapters, probe, log, i - 1);
    GivenBackAt(stack, calls, i);
  }

  lemma {:induction false} NoneVanished(stack: Stack, calls: seq<Call>, from: nat)
    requires from <= |calls|
    requires forall i | from <= i < |calls| && calls[i].ReadBack? :: !Vanished(stack, calls[..i], calls[i].step)
    ensures VanishedIn(stack, calls, from) == 0
    decreases |calls|
  {
    if from < |calls| {
      var n := |calls| - 1;
      forall i | from <= i < n && calls[..n][i].ReadBack?
        ensures !Vanished(stack, calls[..n][..i], calls[..n][i].step)
      {
        assert calls[..n][..i] == calls[..i];
      }
      NoneVanished(stack, calls[..n], from);
    }
  }

  /** A completed run that was not dropped whole returns everything it drove. */
  ghost predicate KeepsResults(stack: Stack, adapters: Adapters, s: State, probe: Probe) {
    var r := AfterRun(stack, adapters, s, probe).1;
    r.Ok? && DropsWholeProbe(adapters, probe.plan) == Ok(false) ==>
      r.value == Drive(stack, adapters, probe, s.log, probe.plan).results
  }

  /** One run on a stack that gives back what it was given: every result is kept and no plant
      is counted. */
  lemma NothingIsLostInARun(stack: Stack, adapters: Adapters, s: State, probe: Probe)
    requires GivesBack(stack) && CarriesFields(probe)
    ensures AfterRun(stack, adapters, s, probe).0.unconfirmed == s.unconfirmed
    ensures KeepsResults(stack, adapters, s, probe)
  {
    var (after, r) := AfterRun(stack, adapters, s, probe);
    if r.Ok? && DropsWholeProbe(adapters, probe.plan) == Ok(false) {
      var d := Drive(stack, adapters, probe, s.log, probe.plan);
      UnconfirmedIffVanished(stack, adapters, s, probe);
      forall i | |s.log| <= i < |d.log| && d.log[i].ReadBack?
        ensures !Vanished(stack, d.log[..i], d.log[i].step)
      {
        NothingVanishes(stack, adapters, probe, s.log, i);
      }
      NoneVanished(stack, d.log, |s.log|);
      DriveAccounts(stack, adapters, probe, s.log, probe.plan);
      ReadBacksAreAnswers(stack, adapters, probe, s.log, probe.plan);
      LostIsVanished(stack, d.log, |s.log|);
    }
  }

  lemma {:induction false} NothingIsCounted(stack: Stack, adapters: Adapters, probes: seq<Probe>)
    requires GivesBack(stack) && forall p | p in probes :: CarriesFields(p)
    ensures AfterProbes(stack, adapters, probes).unconfirmed == map[]
  {
    if probes != [] {
      var n := |probes| - 1;
      NothingIsCounted(stack, adapters, probes[..n]);
      NothingIsLostInARun(stack, adapters, AfterProbes(stack, adapters, probes[..n]), probes[n]);
    }
  }

  /** Over any sequence of probes, failing ones included, such a stack never has a plant
      counted and never has results thrown away. */
  lemma NothingIsLost(stack: Stack, adapters: Adapters, probes: seq<Probe>)
    requires GivesBack(stack) && forall p | p in probes :: CarriesFields(p)
    ensures AfterProbes(stack, adapters, probes).unconfirmed == map[]
    ensures forall n | 0 <= n < |probes| ::
              KeepsResults(stack, adapters, AfterProbes(stack, adapters, probes[..n]), probes[n])
  {
    NothingIsCounted(stack, adapters, probes);
    forall n | 0 <= n < |probes|
      ensures KeepsResults(stack, adapters, AfterProbes(stack, adapters, probes[..n]), probes[n])
    {
      NothingIsLostInARun(stack, adapters, AfterProbes(stack, adapters, probes[..n]), probes[n]);
    }
  }

  // ---------- Steps dropped for want of a user ----------

  /** The part of an action's name before the dot. */
  function SlotName(family: Family): string {
    match family
    case Vectors => "vector"
    case Cache => "cache"
    case Model => "model"
    case Mcp => "mcp"
    case Memory => "memory"
    case Rag => "rag"
    case Observability => "observability"
    case Agent => "agent"
  }

  function ActionName(action: Action): string
    requires !action.OtherAction?
  {
    match action
    case VectorQuery => "vector.query"
    case VectorFetch => "vector.fetch"
    case VectorUpsert => "vector.upsert"
    case CacheSet => "cache.set"
    case CacheGet => "cache.get"
    case ModelTrain => "model.train"
    case ModelInfer => "model.infer"
    case McpInvoke => "mcp.invoke"
    case MemoryWrite => "memory.write"
    case MemoryRecall => "memory.recall"
    case RagAsk => "rag.ask"
    case ObservabilitySearch => "observability.search"
    case AgentRun => "agent.run"
  }

  lemma OwnSlot(action: Action)
    requires !action.OtherAction?
    ensures FamilyOf(action).Some? && SlotName(FamilyOf(action).value) + "." <= ActionName(action)
  {
  }

  lemma SlotsDiffer(a: Family, b: Family)
    ensures |SlotName(a)| >= 2
    ensures SlotName(a)[..2] == SlotName(b)[..2] <==> a == b
  {
    assert SlotName(a)[..2] == [SlotName(a)[0], SlotName(a)[1]];
    assert SlotName(b)[..2] == [SlotName(b)[0], SlotName(b)[1]];
  }

  /** The adapter an action is for is the one its name starts with. */
  lemma FamilyIsPrefix(action: Action, family: Family)
    ensures FamilyOf(action) == Some(family) <==>
              if action.OtherAction? then action.family == Some(family)
              else SlotName(family) + "." <= ActionName(action)
  {
    if !action.OtherAction? {
      OwnSlot(action);
      var own, name := FamilyOf(action).value, ActionName(action);
      SlotsDiffer(own, family);
      SlotsDiffer(family, own);
      assert (SlotName(own) + ".")[..2] == SlotName(own)[..2] == name[..2];
      if SlotName(family) + "." <= name {
        assert (SlotName(family) + ".")[..2] == SlotName(family)[..2] == name[..2];
      }
    }
  }

  /** The configured adapter of a step's action carries no user, and the step has one. */
  predicate LacksUser(adapters: Adapters, step: Step) {
    var family := FamilyOf(step.action);
    step.user.Some? && family.Some? && family.value in adapters && !adapters[family.value]
  }

  predicate IsConfigured(adapters: Adapters, step: Step) {
    FamilyOf(step.action).Some? && FamilyOf(step.action).value in adapters
  }

  predicate IsJudged(step: Step) {
    !IsLookedFor(step) && !step.action.ModelTrain?
  }

  lemma {:induction false} JudgedHolds(plan: seq<Step>, step: Step)
    ensures step in Judged(plan) <==> step in plan && IsJudged(step)
  {
    if plan != [] {
      JudgedHolds(plan[1..], step);
      assert plan == [plan[0]] + plan[1..];
    }
  }

  lemma {:induction false} AllDroppableIff(adapters: Adapters, steps: seq<Step>)
    ensures AllDroppable(adapters, steps) == Ok(true) <==> forall step | step in steps :: LacksUser(adapters, step)
  {
    if steps != [] {
      assert Droppable(adapters, steps[0]) == Ok(true) <==> LacksUser(adapters, steps[0]);
      AllDroppableIff(adapters, steps[1..]);
      assert steps == [steps[0]] + steps[1..];
    }
  }

  /** A probe is dropped whole exactly when it judges something and every judged step names a
      user its adapter cannot carry. */
  lemma DropsWholeIff(adapters: Adapters, plan: seq<Step>)
    ensures DropsWholeProbe(adapters, plan) == Ok(true) <==>
              && (exists step :: step in plan && IsJudged(step))
              && forall step | step in plan && IsJudged(step) :: LacksUser(adapters, step)
  {
    AllDroppableIff(adapters, Judged(plan));
    forall step ensures step in Judged(plan) <==> step in plan && IsJudged(step) {
      JudgedHolds(plan, step);
    }
    if Judged(plan) != [] {
      assert Judged(plan)[0] in Judged(plan);
    }
  }

  /** The places of a plan that hold a step of some kind. */
  function Places(plan: seq<Step>, kind: Step -> bool): set<nat> {
    set i: nat | i < |plan| && kind(plan[i])
  }

  lemma {:induction false} PlacesSnoc(plan: seq<Step>, kind: Step -> bool)
    requires plan != []
    ensures
      var n := |plan| - 1;
      |Places(plan, kind)| == |Places(plan[..n], kind)| + if kind(plan[n]) then 1 else 0
  {
    var n := |plan| - 1;
    forall i: nat ensures i in Places(plan, kind) <==> i in Places(plan[..n], kind) || (i == n && kind(plan[n])) {
    }
    if kind(plan[n]) {
      assert Places(plan, kind) == Places(plan[..n], kind) + {n};
    } else {
      assert Places(plan, kind) == Places(plan[..n], kind);
    }
  }

  predicate NamesUser(step: Step) {
    step.user.Some?
  }

  function Unserved(adapters: Adapters): Step -> bool {
    (step: Step) => IsJudged(step) && LacksUser(adapters, step)
  }

  /** What a run leaves out: the judged steps whose adapter carries no user. */
  lemma {:induction false} NotRunIsCount(adapters: Adapters, plan: seq<Step>)
    ensures NotRun(adapters, plan) == |Places(plan, Unserved(adapters))|
  {
    if plan != [] {
      PlacesSnoc(plan, Unserved(adapters));
      NotRunIsCount(adapters, plan[..|plan| - 1]);
    }
  }

  lemma {:induction false} UserLevelIsCount(plan: seq<Step>)
    ensures UserLevel(plan) == |Places(plan, NamesUser)|
  {
    if plan != [] {
      var n := |plan| - 1;
      PlacesSnoc(plan, NamesUser);
      UserLevelSnoc(plan[..n], plan[n]);
      assert plan == plan[..n] + [plan[n]];
      UserLevelIsCount(plan[..n]);
    }
  }

  lemma {:induction false} UserLevelSnoc(plan: seq<Step>, step: Step)
    ensures UserLevel(plan + [step]) == UserLevel(plan) + if step.user.Some? then 1 else 0
  {
    if plan != [] {
      UserLevelSnoc(plan[1..], step);
      assert (plan + [step])[1..] == plan[1..] + [step];
    }
  }

  /** A plan can be sent when every user it names is of a configured adapter, and a judged step
      is then sent, as it is, exactly when its adapter carries whom it names. */
  lemma {:induction false} SentIff(adapters: Adapters, plan: seq<Step>)
    ensures Sent(adapters, plan).Ok? <==>
              forall step | step in plan && step.user.Some? :: IsConfigured(adapters, step)
    ensures Sent(adapters, plan).Ok? ==>
              forall step | IsJudged(step) ::
                step in Sent(adapters, plan).value <==> step in plan && !LacksUser(adapters, step)
  {
    if plan != [] {
      var n := |plan| - 1;
      assert plan == plan[..n] + [plan[n]];
      SentIff(adapters, plan[..n]);
    }
  }

  // ---------- What a result is ----------

  /** A result is the probe's judgement of what the stack answered the step, given every call
      made before; an action the runner does not know, or has no adapter for, gets none. */
  ghost predicate JudgesAnswer(stack: Stack, adapters: Adapters, probe: Probe, calls: seq<Call>, r: StepResult) {
    exists i :: 0 <= i < |calls| && AnsweredAt(stack, adapters, probe, calls, r, i)
  }

  predicate AnsweredAt(stack: Stack, adapters: Adapters, probe: Probe, calls: seq<Call>, r: StepResult, i: nat)
    requires i < |calls|
  {
    var answer := stack.execute(calls[..i], r.0);
    && calls[i] == Executed(r.0) && IsConfigured(adapters, r.0) && !r.0.action.OtherAction?
    && answer.Ok? && r.1 == probe.detect(r.0, answer.value)
  }

  lemma StillJudges(stack: Stack, adapters: Adapters, probe: Probe, calls: seq<Call>, more: seq<Call>, r: StepResult)
    requires JudgesAnswer(stack, adapters, probe, calls, r)
    ensures JudgesAnswer(stack, adapters, probe, calls + more, r)
  {
    var i :| 0 <= i < |calls| && AnsweredAt(stack, adapters, probe, calls, r, i);
    assert (calls + more)[..i] == calls[..i];
    assert AnsweredAt(stack, adapters, probe, calls + more, r, i);
  }

  lemma SentIsJudged(stack: Stack, adapters: Adapters, probe: Probe, d: Driven, sent: Step)
    requires DriveSent(stack, adapters, probe, d, sent).failure.None?
    requires forall r | r in d.results :: JudgesAnswer(stack, adapters, probe, d.log, r)
    ensures
      var after := DriveSent(stack, adapters, probe, d, sent);
      forall r | r in after.results :: JudgesAnswer(stack, adapters, probe, after.log, r)
  {
    DriveSentShape(stack, adapters, probe, d, sent);
    var after, more := DriveSent(stack, adapters, probe, d, sent), CallsFor(stack, d.log, sent);
    forall r | r in d.results ensures JudgesAnswer(stack, adapters, probe, after.log, r) {
      StillJudges(stack, adapters, probe, d.log, more, r);
    }
    assert after.log[..|d.log|] == d.log;
    assert AnsweredAt(stack, adapters, probe, after.log, after.results[|d.results|], |d.log|);
  }

  lemma {:induction false} ResultsAreJudgements(
    stack: Stack, adapters: Adapters, probe: Probe, log: seq<Call>, plan: seq<Step>)
    requires Drive(stack, adapters, probe, log, plan).failure.None?
    ensures
      var d := Drive(stack, adapters, probe, log, plan);
      forall r | r in d.results :: JudgesAnswer(stack, adapters, probe, d.log, r)
  {
    if plan != [] {
      var n := |plan| - 1;
      ResultsAreJudgements(stack, adapters, probe, log, plan[..n]);
      var sent := AsSent(adapters, plan[n]).value;
      if sent.Some? {
        SentIsJudged(stack, adapters, probe, Drive(stack, adapters, probe, log, plan[..n]), sent.value);
      }
    }
  }

  /** Whether a plant names what to look for. */
  predicate CanBeAskedFor(step: Step) {
    || (step.action.VectorUpsert? && "doc_id" in step.payload)
    || (step.action.CacheSet? && "key" in step.payload)
    || (step.action.MemoryWrite? && "text" in step.payload)
  }

  /** What ends a run at a sent step: no adapter to execute it, the stack's own error, or an
      error of the read-back that is not an adapter's. */
  lemma SentFailsWith(stack: Stack, adapters: Adapters, probe: Probe, d: Driven, sent: Step)
    requires d.failure.None?
    ensures
      var answer := stack.execute(d.log, sent);
      var back := stack.readBack(d.log + [Executed(sent)], sent);
      DriveSent(stack, adapters, probe, d, sent).failure ==
        if sent.action.OtherAction? || !IsConfigured(adapters, sent) then Some(AdapterError)
        else if answer.Err? then Some(answer.error)
        else if CanBeAskedFor(sent) && back.Err? && back.error != AdapterError then Some(back.error)
        else None
  {
  }

  /** What a caller preparing for a run is told: that an adapter is missing, that nothing will
      be sent, or what will be; and a run over missing adapters raises the same. */
  lemma PreparesAsItRuns(stack: Stack, adapters: Adapters, s: State, probe: Probe)
    ensures (exists f | f in probe.needs :: f !in adapters) ==>
              && StepsToSend(adapters, probe) == Err(ConfigError)
              && AfterRun(stack, adapters, s, probe) == (s, Err(ConfigError))
    ensures (forall f | f in probe.needs :: f in adapters) ==>
              && (DropsWholeProbe(adapters, probe.plan) == Ok(true) ==>
                    StepsToSend(adapters, probe) == Ok([]) && AfterRun(stack, adapters, s, probe).1 == Ok([]))
              && (DropsWholeProbe(adapters, probe.plan) == Ok(false) ==>
                    StepsToSend(adapters, probe) == Sent(adapters, probe.plan))
              && (DropsWholeProbe(adapters, probe.plan).Err? ==>
                    StepsToSend(adapters, probe).Err? && AfterRun(stack, adapters, s, probe).1.Err?)
  {
  }
}
