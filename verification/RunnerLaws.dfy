/** What the runner accounts for: which steps are sent, what a run may discard, and what the
    two counters add up to over any sequence of probes on any stack. */
module RunnerLaws {
  import opened Runner
  import opened Wrappers

  function Steps(results: seq<StepResult>): seq<Step> {
    seq(|results|, i requires 0 <= i < |results| => results[i].0)
  }

  function Plants(plan: seq<Step>): seq<Step> {
    if plan == [] then []
    else
      var n := |plan| - 1;
      if IsPlant(plan[n]) then Plants(plan[..n]) + [plan[n]] else Plants(plan[..n])
  }

  /** The judged steps whose adapter can carry whom they name. */
  function Runnable(adapters: Adapters, plan: seq<Step>): seq<Step> {
    if plan == [] then []
    else
      var n := |plan| - 1;
      if !IsPlant(plan[n]) && Droppable(adapters, plan[n]) == Ok(false)
      then Runnable(adapters, plan[..n]) + [plan[n]]
      else Runnable(adapters, plan[..n])
  }

  function NotRun(adapters: Adapters, plan: seq<Step>): nat {
    if plan == [] then 0
    else
      var n := |plan| - 1;
      NotRun(adapters, plan[..n]) + if !IsPlant(plan[n]) && Droppable(adapters, plan[n]) == Ok(true) then 1 else 0
  }

  function AsTenant(adapters: Adapters, step: Step): Step {
    if Droppable(adapters, step) == Ok(true) then step.(user := None) else step
  }

  lemma PlantsSnoc(plan: seq<Step>, step: Step)
    ensures Plants(plan + [step]) == if IsPlant(step) then Plants(plan) + [step] else Plants(plan)
  {
    assert (plan + [step])[..|plan|] == plan;
  }

  lemma RunnableSnoc(adapters: Adapters, plan: seq<Step>, step: Step)
    requires !IsPlant(step) && Droppable(adapters, step) == Ok(false)
    ensures Runnable(adapters, plan + [step]) == Runnable(adapters, plan) + [step]
  {
    assert (plan + [step])[..|plan|] == plan;
  }

  lemma RunnableSkips(adapters: Adapters, plan: seq<Step>, step: Step)
    requires IsPlant(step)
    ensures Runnable(adapters, plan + [step]) == Runnable(adapters, plan)
  {
    assert (plan + [step])[..|plan|] == plan;
  }

  function AsTenants(adapters: Adapters, steps: seq<Step>): seq<Step> {
    seq(|steps|, i requires 0 <= i < |steps| => AsTenant(adapters, steps[i]))
  }

  lemma SentStep(adapters: Adapters, before: seq<Step>, step: Step, plants: seq<Step>)
    requires AsSent(adapters, step).Ok? && Plants(before) == AsTenants(adapters, plants)
    ensures
      var sent := AsSent(adapters, step).value;
      Plants(if sent.None? then before else before + [sent.value])
        == AsTenants(adapters, if IsPlant(step) then plants + [step] else plants)
  {
    var sent := AsSent(adapters, step).value;
    if sent.Some? {
      PlantsSnoc(before, sent.value);
      if IsPlant(step) {
        assert sent.value == AsTenant(adapters, step);
      }
    }
  }

  /** Every plant is sent, in order: as itself, or as its tenant where its adapter carries no
      user. */
  lemma {:induction false} EveryPlantIsSent(adapters: Adapters, plan: seq<Step>)
    requires Sent(adapters, plan).Ok?
    ensures Plants(Sent(adapters, plan).value) == AsTenants(adapters, Plants(plan))
  {
    if plan != [] {
      var n := |plan| - 1;
      EveryPlantIsSent(adapters, plan[..n]);
      SentStep(adapters, Sent(adapters, plan[..n]).value, plan[n], Plants(plan[..n]));
    }
  }

  /** The judged steps sent are exactly the runnable ones, unchanged and in order. */
  lemma {:induction false} RunnableStepsAreSent(adapters: Adapters, plan: seq<Step>)
    requires Sent(adapters, plan).Ok?
    ensures Runnable(adapters, Sent(adapters, plan).value) == Runnable(adapters, plan)
  {
    if plan != [] {
      var n := |plan| - 1;
      RunnableStepsAreSent(adapters, plan[..n]);
      var before, step := Sent(adapters, plan[..n]).value, AsSent(adapters, plan[n]).value;
      if step.Some? {
        if IsPlant(plan[n]) {
          RunnableSkips(adapters, before, step.value);
        } else {
          RunnableSnoc(adapters, before, step.value);
        }
      }
    }
  }

  /** What is planned is what is sent plus what is dropped. */
  lemma {:induction false} PlannedIsSentPlusDropped(adapters: Adapters, plan: seq<Step>)
    requires Sent(adapters, plan).Ok?
    ensures |plan| == |Sent(adapters, plan).value| + NotRun(adapters, plan)
  {
    if plan != [] {
      PlannedIsSentPlusDropped(adapters, plan[..|plan| - 1]);
    }
  }

  /** No step is sent as a user its adapter cannot carry. */
  lemma {:induction false} NoUserIsMadeUp(adapters: Adapters, plan: seq<Step>)
    requires Sent(adapters, plan).Ok?
    ensures forall s | s in Sent(adapters, plan).value :: s.user.None? || CarriesUser(adapters, s.action) == Ok(true)
  {
    if plan != [] {
      NoUserIsMadeUp(adapters, plan[..|plan| - 1]);
    }
  }

  /** The calls of one kind in a stretch of the log. */
  function ExecutedIn(calls: seq<Call>): seq<Step> {
    if calls == [] then []
    else
      var n := |calls| - 1;
      if calls[n].Executed? then ExecutedIn(calls[..n]) + [calls[n].step] else ExecutedIn(calls[..n])
  }

  function ReadBacksIn(calls: seq<Call>): nat {
    if calls == [] then 0 else ReadBacksIn(calls[..|calls| - 1]) + if calls[|calls| - 1].ReadBack? then 1 else 0
  }

  predicate Lost(call: Call) {
    call.ReadBack? && !call.landed
  }

  function LostIn(calls: seq<Call>): nat {
    if calls == [] then 0 else LostIn(calls[..|calls| - 1]) + if Lost(calls[|calls| - 1]) then 1 else 0
  }

  lemma CallsSnoc(calls: seq<Call>, call: Call)
    ensures ExecutedIn(calls + [call]) == if call.Executed? then ExecutedIn(calls) + [call.step] else ExecutedIn(calls)
    ensures ReadBacksIn(calls + [call]) == ReadBacksIn(calls) + if call.ReadBack? then 1 else 0
    ensures LostIn(calls + [call]) == LostIn(calls) + if Lost(call) then 1 else 0
  {
    assert (calls + [call])[..|calls|] == calls;
  }

  /** What driving has come to, told from the calls it made. */
  ghost predicate Accounted(d: Driven, log: seq<Call>) {
    && log <= d.log
    && ExecutedIn(d.log[|log|..]) == Steps(d.results)
    && d.planted == ReadBacksIn(d.log[|log|..]) == |Plants(Steps(d.results))|
    && d.unconfirmed == LostIn(d.log[|log|..])
  }

  /** Whether a sent step reads back; one that does not plant has nothing to lose. */
  predicate Landed(stack: Stack, log: seq<Call>, sent: Step) {
    PlantLanded(stack, log + [Executed(sent)], sent) == Ok(true)
  }

  /** The calls one sent step makes: it is executed and, if it plants, read back. */
  function CallsFor(stack: Stack, log: seq<Call>, sent: Step): seq<Call> {
    if IsPlant(sent) then [Executed(sent), ReadBack(sent, Landed(stack, log, sent))] else [Executed(sent)]
  }

  lemma DriveSentShape(stack: Stack, adapters: Adapters, probe: Probe, d: Driven, sent: Step)
    requires DriveSent(stack, adapters, probe, d, sent).failure.None?
    ensures
      var observation := Execute(stack, adapters, d.log, sent);
      var plants := if IsPlant(sent) then 1 else 0;
      var lost := if IsPlant(sent) && !Landed(stack, d.log, sent) then 1 else 0;
      && observation.Ok?
      && DriveSent(stack, adapters, probe, d, sent)
         == Driven(d.results + [(sent, probe.detect(sent, observation.value))], d.dropped,
                   d.planted + plants, d.unconfirmed + lost, d.log + CallsFor(stack, d.log, sent), d.failure)
  {
    if IsPlant(sent) {
      var executed := d.log + [Executed(sent)];
      assert executed + [ReadBack(sent, Landed(stack, d.log, sent))] == d.log + CallsFor(stack, d.log, sent);
    }
  }

  lemma CallsForCounts(stack: Stack, log: seq<Call>, sent: Step, calls: seq<Call>)
    ensures
      var more := CallsFor(stack, log, sent);
      && ExecutedIn(calls + more) == ExecutedIn(calls) + [sent]
      && ReadBacksIn(calls + more) == ReadBacksIn(calls) + (if IsPlant(sent) then 1 else 0)
      && LostIn(calls + more) == LostIn(calls) + (if IsPlant(sent) && !Landed(stack, log, sent) then 1 else 0)
  {
    var executed := Executed(sent);
    CallsSnoc(calls, executed);
    if IsPlant(sent) {
      var back := ReadBack(sent, Landed(stack, log, sent));
      CallsSnoc(calls + [executed], back);
      assert calls + [executed, back] == calls + [executed] + [back];
    }
  }

  lemma DriveSentAccounts(stack: Stack, adapters: Adapters, probe: Probe, d: Driven, sent: Step, log: seq<Call>)
    requires Accounted(d, log) && DriveSent(stack, adapters, probe, d, sent).failure.None?
    ensures
      var after := DriveSent(stack, adapters, probe, d, sent);
      Accounted(after, log) && after.dropped == d.dropped && Steps(after.results) == Steps(d.results) + [sent]
  {
    var calls, more := d.log[|log|..], CallsFor(stack, d.log, sent);
    DriveSentShape(stack, adapters, probe, d, sent);
    CallsForCounts(stack, d.log, sent, calls);
    assert (d.log + more)[|log|..] == calls + more;
    PlantsSnoc(Steps(d.results), sent);
    assert Steps(DriveSent(stack, adapters, probe, d, sent).results) == Steps(d.results) + [sent];
  }

  /** A plan driven to its end has executed exactly the steps the filter sends, in order. */
  lemma {:induction false} DriveAccounts(
    stack: Stack, adapters: Adapters, probe: Probe, log: seq<Call>, plan: seq<Step>)
    requires Drive(stack, adapters, probe, log, plan).failure.None?
    ensures
      var d := Drive(stack, adapters, probe, log, plan);
      && Accounted(d, log)
      && Sent(adapters, plan) == Ok(Steps(d.results))
      && d.dropped == NotRun(adapters, plan)
  {
    if plan == [] {
      assert log[|log|..] == [];
    } else {
      var n := |plan| - 1;
      var before := Drive(stack, adapters, probe, log, plan[..n]);
      DriveAccounts(stack, adapters, probe, log, plan[..n]);
      var sent := AsSent(adapters, plan[n]).value;
      if sent.Some? {
        DriveSentAccounts(stack, adapters, probe, before, sent.value, log);
      }
    }
  }

  /** A plan the filter refuses cannot be driven to its end. */
  lemma {:induction false} RefusedPlanFails(
    stack: Stack, adapters: Adapters, probe: Probe, log: seq<Call>, plan: seq<Step>)
    requires Sent(adapters, plan).Err?
    ensures Drive(stack, adapters, probe, log, plan).failure.Some?
  {
    if Drive(stack, adapters, probe, log, plan).failure.None? {
      DriveAccounts(stack, adapters, probe, log, plan);
    }
  }

  /** What a run returns: nothing, or exactly the steps `steps_to_send` names, in order; and
      it raises wherever `steps_to_send` does. */
  lemma RunReturnsTheSentSteps(stack: Stack, adapters: Adapters, s: State, probe: Probe)
    ensures
      var r := AfterRun(stack, adapters, s, probe).1;
      var sending := StepsToSend(adapters, probe);
      && (r.Ok? ==> sending.Ok? && (r.value == [] || Steps(r.value) == sending.value))
      && (sending.Err? ==> r.Err?)
  {
    if !PreflightFails(adapters, probe) && DropsWholeProbe(adapters, probe.plan) == Ok(false) {
      if Sent(adapters, probe.plan).Err? {
        RefusedPlanFails(stack, adapters, probe, s.log, probe.plan);
      } else if Drive(stack, adapters, probe, s.log, probe.plan).failure.None? {
        DriveAccounts(stack, adapters, probe, s.log, probe.plan);
      }
    }
  }

  /** The calls one run adds to the log. */
  function CallsOf(stack: Stack, adapters: Adapters, s: State, probe: Probe): seq<Call> {
    var after := AfterRun(stack, adapters, s, probe).0.log;
    if |s.log| <= |after| then after[|s.log|..] else []
  }

  lemma {:induction false} AllLostIff(calls: seq<Call>)
    ensures LostIn(calls) <= ReadBacksIn(calls)
    ensures LostIn(calls) == ReadBacksIn(calls) <==> forall c | c in calls && c.ReadBack? :: !c.landed
    ensures ReadBacksIn(calls) > 0 <==> exists c :: c in calls && c.ReadBack?
  {
    if calls != [] {
      var n := |calls| - 1;
      AllLostIff(calls[..n]);
      assert calls == calls[..n] + [calls[n]];
      if calls[n].ReadBack? {
        assert calls[n] in calls;
      }
    }
  }

  /** When executed results are thrown away: exactly when there were plants, every one of them
      failed to read back, and no executed step surfaced a confirmed leak. */
  lemma DiscardedIff(stack: Stack, adapters: Adapters, s: State, probe: Probe)
    requires AfterRun(stack, adapters, s, probe).1.Ok? && DropsWholeProbe(adapters, probe.plan) == Ok(false)
    ensures
      var results := AfterRun(stack, adapters, s, probe).1.value;
      var executed := Drive(stack, adapters, probe, s.log, probe.plan).results;
      var calls := CallsOf(stack, adapters, s, probe);
      && ExecutedIn(calls) == Steps(executed)
      && (results == executed || results == [])
      && (results != executed <==>
            && (exists c :: c in calls && c.ReadBack?)
            && (forall c | c in calls && c.ReadBack? :: !c.landed)
            && !Observed(executed))
  {
    DriveAccounts(stack, adapters, probe, s.log, probe.plan);
    AllLostIff(CallsOf(stack, adapters, s, probe));
    var executed := Drive(stack, adapters, probe, s.log, probe.plan).results;
    if executed == [] {
      assert Plants(Steps(executed)) == [];
    }
  }

  /** A training step is taken to have landed, so a probe that trains is never discarded. */
  lemma {:induction false} TrainingIsExempt(
    stack: Stack, adapters: Adapters, probe: Probe, log: seq<Call>, plan: seq<Step>, step: Step)
    requires Drive(stack, adapters, probe, log, plan).failure.None?
    requires step in plan && step.action.ModelTrain?
    ensures !Discards(Drive(stack, adapters, probe, log, plan))
  {
    TrainingLeavesAMargin(stack, adapters, probe, log, plan);
  }

  lemma OneStepsMargin(stack: Stack, adapters: Adapters, probe: Probe, d: Driven, step: Step)
    requires DriveStep(stack, adapters, probe, d, step).failure.None?
    ensures
      var after := DriveStep(stack, adapters, probe, d, step);
      && d.failure.None?
      && after.planted - after.unconfirmed >= d.planted - d.unconfirmed + if step.action.ModelTrain? then 1 else 0
  {
  }

  lemma {:induction false} TrainingLeavesAMargin(
    stack: Stack, adapters: Adapters, probe: Probe, log: seq<Call>, plan: seq<Step>)
    requires Drive(stack, adapters, probe, log, plan).failure.None?
    ensures
      var d := Drive(stack, adapters, probe, log, plan);
      && d.unconfirmed <= d.planted
      && ((exists step :: step in plan && step.action.ModelTrain?) ==> d.unconfirmed < d.planted)
  {
    if plan != [] {
      var n := |plan| - 1;
      assert plan == plan[..n] + [plan[n]];
      OneStepsMargin(stack, adapters, probe, Drive(stack, adapters, probe, log, plan[..n]), plan[n]);
      TrainingLeavesAMargin(stack, adapters, probe, log, plan[..n]);
    }
  }

  // ---------- Counters over any sequence of probes ----------

  function AfterProbes(stack: Stack, adapters: Adapters, probes: seq<Probe>): State {
    if probes == [] then State(map[], map[], [])
    else
      var n := |probes| - 1;
      AfterRun(stack, adapters, AfterProbes(stack, adapters, probes[..n]), probes[n]).0
  }

  /** The user-level steps a completed run leaves out. */
  function LeftOut(adapters: Adapters, plan: seq<Step>): nat {
    if DropsWholeProbe(adapters, plan) == Ok(true) then UserLevel(plan) else NotRun(adapters, plan)
  }

  function DroppedTotal(stack: Stack, adapters: Adapters, probes: seq<Probe>, id: string): nat {
    if probes == [] then 0
    else
      var n := |probes| - 1;
      var before := AfterProbes(stack, adapters, probes[..n]);
      DroppedTotal(stack, adapters, probes[..n], id)
      + if probes[n].id == id && AfterRun(stack, adapters, before, probes[n]).1.Ok?
        then LeftOut(adapters, probes[n].plan) else 0
  }

  function LostTotal(stack: Stack, adapters: Adapters, probes: seq<Probe>, id: string): nat {
    if probes == [] then 0
    else
      var n := |probes| - 1;
      var before := AfterProbes(stack, adapters, probes[..n]);
      LostTotal(stack, adapters, probes[..n], id)
      + if probes[n].id == id && AfterRun(stack, adapters, before, probes[n]).1.Ok?
        then LostIn(CallsOf(stack, adapters, before, probes[n])) else 0
  }

  ghost predicate NoZeroes(counts: Counts) {
    forall id | id in counts :: counts[id] > 0
  }

  lemma {:induction false} AllDroppableHaveUsers(adapters: Adapters, plan: seq<Step>)
    requires Judged(plan) != [] && AllDroppable(adapters, Judged(plan)) == Ok(true)
    ensures UserLevel(plan) > 0
  {
    if IsPlant(plan[0]) {
      AllDroppableHaveUsers(adapters, plan[1..]);
    }
  }

  lemma AddedCount(counts: Counts, id: string, more: nat, other: string)
    requires NoZeroes(counts)
    ensures NoZeroes(AddAny(counts, id, more))
    ensures CountOf(AddAny(counts, id, more), other) == CountOf(counts, other) + if other == id then more else 0
  {
  }

  /** One run adds to each counter what it should, under the probe's own id and no other. */
  lemma OneRunCounts(stack: Stack, adapters: Adapters, s: State, probe: Probe, id: string)
    requires NoZeroes(s.dropped) && NoZeroes(s.unconfirmed)
    ensures
      var (after, r) := AfterRun(stack, adapters, s, probe);
      var mine := id == probe.id && r.Ok?;
      && NoZeroes(after.dropped) && NoZeroes(after.unconfirmed)
      && CountOf(after.dropped, id) == CountOf(s.dropped, id) + (if mine then LeftOut(adapters, probe.plan) else 0)
      && CountOf(after.unconfirmed, id)
         == CountOf(s.unconfirmed, id) + (if mine then LostIn(CallsOf(stack, adapters, s, probe)) else 0)
  {
    var whole := DropsWholeProbe(adapters, probe.plan);
    if whole == Ok(true) {
      AllDroppableHaveUsers(adapters, probe.plan);
      AddedCount(s.dropped, probe.id, UserLevel(probe.plan), id);
    } else if !PreflightFails(adapters, probe) && whole == Ok(false) {
      var d := Drive(stack, adapters, probe, s.log, probe.plan);
      if d.failure.None? {
        DriveAccounts(stack, adapters, probe, s.log, probe.plan);
        AddedCount(s.dropped, probe.id, d.dropped, id);
        AddedCount(s.unconfirmed, probe.id, d.unconfirmed, id);
      }
    }
  }

  /** Over any sequence of probes, failing ones included: each counter is, for every probe id,
      the exact total over the completed runs of that id, and it names an id exactly where
      that total is not zero. */
  lemma {:induction false} CountersAreTotals(stack: Stack, adapters: Adapters, probes: seq<Probe>, id: string)
    ensures
      var s := AfterProbes(stack, adapters, probes);
      && CountOf(s.dropped, id) == DroppedTotal(stack, adapters, probes, id)
      && CountOf(s.unconfirmed, id) == LostTotal(stack, adapters, probes, id)
      && NoZeroes(s.dropped) && NoZeroes(s.unconfirmed)
      && (id in s.dropped <==> DroppedTotal(stack, adapters, probes, id) > 0)
      && (id in s.unconfirmed <==> LostTotal(stack, adapters, probes, id) > 0)
  {
    if probes != [] {
      var n := |probes| - 1;
      CountersAreTotals(stack, adapters, probes[..n], id);
      OneRunCounts(stack, adapters, AfterProbes(stack, adapters, probes[..n]), probes[n], id);
    }
  }
}
