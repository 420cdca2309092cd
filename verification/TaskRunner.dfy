// runPlanned and runStep of task.go as an object that mutates its completed set.
// The conductor, planner, reflector, context and router answer arbitrarily.
module TaskRunner {
  import opened Prelude
  import opened PlanDag
  import opened PlanRun

  class TaskRun {
    const maxRetries: int
    const maxReplans: int
    const hasReflector: bool
    const planModel: string
    const execModel: string

    var plan: Plan
    var completed: Done
    var aborted: bool
    var paused: bool
    var replanPlan: Option<Plan>
    var replans: nat
    var reflections: seq<string>
    var activeModel: string

    ghost var past: seq<Era>                // the plans given up for a re-derived one
    ghost var carried: set<string>
    ghost var started: seq<PlanStep>
    ghost var tries: seq<seq<Attempt>>
    ghost var sawCancel: bool               // some context poll reported cancellation
    ghost var switchFailed: bool            // some mid-loop model switch failed
    ghost var offered: seq<Plan>            // the planner's plans: the first, and those re-derived on advice
    ghost var polls: seq<bool>              // what the context said in front of every wave

    constructor (maxRetries: int, maxReplans: int, hasReflector: bool, planModel: string, execModel: string,
        activeModel: string)
      ensures this.maxRetries == maxRetries && this.maxReplans == maxReplans && this.hasReflector == hasReflector
      ensures this.planModel == planModel && this.execModel == execModel && this.activeModel == activeModel
      ensures past == [] && started == [] && tries == [] && carried == {} && completed == map[] && replans == 0
      ensures !aborted && !paused && replanPlan.None? && !sawCancel && !switchFailed && reflections == [] && offered == []
      ensures polls == []
    {
      this.maxRetries, this.maxReplans, this.hasReflector := maxRetries, maxReplans, hasReflector;
      this.planModel, this.execModel, this.activeModel := planModel, execModel, activeModel;
      plan, completed, aborted, paused, replanPlan := Plan([]), map[], false, false, None;
      replans, reflections := 0, [];
      past, carried, started, tries, sawCancel, switchFailed, offered, polls := [], {}, [], [], false, false, [], [];
    }

    function Budget(): int { maxRetries + 1 }

    ghost function Current(): Era
      reads this
    {
      Era(plan, carried, started, tries)
    }

    // Steps run on the execution model unless a switch failed.
    ghost predicate OnExecModel()
      reads this
    {
      execModel != "" && !switchFailed ==> activeModel == execModel
    }

    // The answers of the environment.
    method ConductorRun() returns (o: Outcome) { o := *; }
    method ContextErr() returns (cancelled: bool) { cancelled := *; }
    method ReflectorAnswer() returns (a: ReflectAnswer) { a := *; }
    method PlannerAnswer() returns (p: Option<Plan>) { p := *; }

    method SetModel(model: string) returns (ok: bool)
      modifies this`activeModel
      ensures activeModel == if ok then model else old(activeModel)
    {
      ok := *;
      if ok { activeModel := model; }
    }

    // A failed mid-loop switch is reported and survived.
    method SwitchModelMidLoop(model: string)
      modifies this`activeModel, this`switchFailed
      ensures old(switchFailed) ==> switchFailed
      ensures !switchFailed ==> activeModel == model
    {
      var ok := SetModel(model);
      if !ok { switchFailed := true; }
    }

    // Reflection after a failed attempt; whatever is decided, the execution model is back in force.
    method Reflect() returns (d: Decision, ghost a: Advice)
      requires hasReflector && OnExecModel()
      modifies this`activeModel, this`switchFailed, this`reflections
      ensures OnExecModel() && (old(switchFailed) ==> switchFailed)
      ensures d.AbortRun? <==> a.SaysAbort()
      ensures d.Replan? <==> a.OffersPlan()
      ensures d.Replan? ==> d.plan == a.next.value
      ensures reflections == old(reflections) + if a.answer.Reflected? then [a.answer.action] else []
      ensures planModel != "" && execModel != "" && !switchFailed ==> a.model == planModel
    {
      d := Retry;
      ghost var next: Option<Plan> := None;
      if planModel != "" && execModel != "" {
        SwitchModelMidLoop(planModel);
      }
      ghost var on := activeModel;
      var answer := ReflectorAnswer();
      if answer.Reflected? {
        reflections := reflections + [answer.action];
        if answer.action == "abort" {
          d := AbortRun;
        } else if answer.action == "replan" {
          var p := PlannerAnswer();
          next := p;
          if p.Some? {
            d := Replan(p.value);
          }
        }
      }
      if planModel != "" && execModel != "" {
        SwitchModelMidLoop(execModel);
      }
      a := Advice(answer, next, on);
    }

    // Reflection, and what follows from its advice.
    method Consult(step: PlanStep) returns (over: bool, ghost a: Advice)
      requires hasReflector && OnExecModel() && !aborted && replanPlan.None?
      modifies this`completed, this`aborted, this`replanPlan, this`reflections, this`activeModel, this`switchFailed, this`offered
      ensures OnExecModel() && (old(switchFailed) ==> switchFailed)
      ensures reflections == old(reflections) + Actions([a])
      ensures planModel != "" && execModel != "" && !switchFailed ==> a.model == planModel
      ensures over <==> a.SaysAbort() || a.OffersPlan()
      ensures aborted == a.SaysAbort() && replanPlan == (if a.OffersPlan() then a.next else None)
      ensures offered == old(offered) + if a.OffersPlan() then [a.next.value] else []
      ensures completed == if aborted then old(completed)[step.id := CompletedStep(step.id, "", Some("aborted by reflection"))]
                           else old(completed)
    {
      var d;
      d, a := Reflect();
      assert [a][..0] == [];
      if d.AbortRun? {
        aborted := true;
        completed := completed[step.id := CompletedStep(step.id, "", Some("aborted by reflection"))];
        return true, a;
      }
      if d.Replan? {
        replanPlan := Some(d.plan);
        offered := offered + [d.plan];
        return true, a;
      }
      over := false;
    }

    // One attempt at a step, and the reflection on it; `cancelled` ends the retries.
    method TryStep(step: PlanStep, attempt: nat, lastErrMsg: string)
        returns (over: bool, cancelled: bool, msg: string, ghost a: Attempt, ghost advice: seq<Advice>)
      requires OnExecModel() && !aborted && !paused && replanPlan.None?
      modifies this`completed, this`aborted, this`paused, this`replanPlan, this`reflections,
               this`activeModel, this`sawCancel, this`switchFailed, this`offered
      ensures OnExecModel() && (old(switchFailed) ==> switchFailed) && sawCancel == (old(sawCancel) || cancelled)
      ensures a.stepId == step.id && a.model == old(activeModel) && msg == Message(a.outcome, lastErrMsg)
      ensures Tried(a, advice, attempt <= maxRetries && hasReflector, over, cancelled)
      ensures paused == (!a.outcome.Succeeded() && a.outcome.Suspended())
      // only a result that says so, without an error, completes the step; only one that says so pauses the run
      ensures match a.outcome
              case Outcome(None, Some(ConductorResult(Success, output))) =>
                over && !paused && completed == old(completed)[step.id := CompletedStep(step.id, output, None)]
              case Outcome(_, Some(ConductorResult(Paused, _))) => over && paused && completed == old(completed)
              case _ => !paused && (advice == [] ==> !over && completed == old(completed))
      ensures aborted == (advice != [] && advice[0].SaysAbort())
      ensures replanPlan == if advice != [] && advice[0].OffersPlan() then advice[0].next else None
      ensures offered == old(offered) + if replanPlan.Some? then [replanPlan.value] else []
      ensures reflections == old(reflections) + Actions(advice)
      ensures planModel != "" && execModel != "" && !switchFailed ==> AdvisedOn(advice, planModel)
      ensures completed == After(a, advice, old(completed))
    {
      var o := ConductorRun();
      a, advice := Attempt(step.id, activeModel, o), [];
      msg := lastErrMsg;
      if o.Succeeded() {
        completed := completed[step.id := CompletedStep(step.id, o.result.value.output, None)];
        msg := Message(o, lastErrMsg);
        return true, false, msg, a, advice;
      }
      if o.Suspended() {
        paused := true;
        msg := Message(o, lastErrMsg);
        return true, false, msg, a, advice;
      }
      if o.err.Some? {
        msg := o.err.value;
      } else if o.result.Some? {
        msg := o.result.value.output;
      }
      cancelled := ContextErr();
      if cancelled {
        sawCancel := true;
        return false, true, msg, a, advice;
      }
      over := false;
      if attempt <= maxRetries && hasReflector {
        ghost var b;
        over, b := Consult(step);
        advice := [b];
      }
    }

    // Runs one step with its retry budget. Exactly one entry of completed may change, and a
    // pause or a replan leaves it out.
    method RunStep(step: PlanStep) returns (ghost v: StepVerdict, ghost att: seq<Attempt>, ghost advice: seq<Advice>)
      requires !aborted && !paused && replanPlan.None? && OnExecModel()
      modifies this`completed, this`aborted, this`paused, this`replanPlan, this`reflections,
               this`activeModel, this`sawCancel, this`switchFailed, this`offered
      ensures OnExecModel() && (old(switchFailed) ==> switchFailed) && (old(sawCancel) ==> sawCancel)
      ensures Report(v, step.id, att, advice, maxRetries, hasReflector, old(completed), completed)
      ensures execModel != "" && !switchFailed ==> OnModel(att, execModel)
      ensures aborted == v.StepAborted? && paused == v.StepPaused? && replanPlan.Some? == v.StepReplanned?
      ensures v.StepFailed? && !sawCancel ==> |att| == if Budget() < 0 then 0 else Budget()
      ensures reflections == old(reflections) + Actions(advice)
      ensures offered == old(offered) + if replanPlan.Some? then [replanPlan.value] else []
      ensures v.StepReplanned? ==> advice != [] && replanPlan == advice[|advice| - 1].next
      ensures planModel != "" && execModel != "" && !switchFailed ==> AdvisedOn(advice, planModel)
    {
      hide LastMessage, OnModel, Actions, AdvisedOn, Unheeded, Report, AllFailed, Message, Tried, After;
      var maxAttempts := maxRetries + 1;
      NoAttempts(step.id, execModel, planModel);
      var lastErrMsg := "max retries exceeded";
      att, advice := [], [];
      var attempt := 1;
      while attempt <= maxAttempts
        invariant 1 <= attempt && |att| == attempt - 1 && (attempt == 1 || attempt <= maxAttempts + 1)
        invariant OnExecModel() && (old(switchFailed) ==> switchFailed) && (old(sawCancel) ==> sawCancel)
        invariant completed == old(completed) && !aborted && !paused && replanPlan.None? && offered == old(offered)
        invariant AllFailed(att, step.id) && lastErrMsg == LastMessage(att)
        invariant execModel != "" && !switchFailed ==> OnModel(att, execModel)
        invariant reflections == old(reflections) + Actions(advice) && Unheeded(advice)
        invariant |advice| == if !hasReflector || att == [] then 0 else if attempt <= maxAttempts then |att| else |att| - 1
        invariant planModel != "" && execModel != "" && !switchFailed ==> AdvisedOn(advice, planModel)
        decreases maxAttempts - attempt
      {
        var over, cancelled;
        ghost var a, more;
        over, cancelled, lastErrMsg, a, more := TryStep(step, attempt, lastErrMsg);
        v := TriedAgain(att, a, advice, more, maxRetries, hasReflector, over, cancelled, old(completed), execModel, planModel);
        att, advice := att + [a], advice + more;
        if over {
          return;
        }
        if cancelled {
          break;
        }
        attempt := attempt + 1;
      }
      ReportFailed(att, step.id, advice, maxRetries, hasReflector, completed);
      completed := completed[step.id := CompletedStep(step.id, "", Some("failed after retries: " + lastErrMsg))];
      v := StepFailed;
    }

    // Along every run: each plan obeyed dependency order and attempt budget, within the replan budget.
    ghost predicate Valid()
      reads this
    {
      && RunOk(Current(), past, completed, maxRetries)
      && |past| == replans
      && (replans > 0 ==> replans <= maxReplans)
      && OnExecModel()
    }

    // The run is aborted exactly when a reflection said so, and its plans are those the planner gave, in order; the
    // last one may still wait to be adopted.
    ghost predicate Advised()
      reads this
    {
      && (aborted <==> "abort" in reflections)
      && |past| == replans && |offered| == replans + (if replanPlan.Some? then 2 else 1)
      && (replanPlan.Some? ==> offered[replans + 1] == replanPlan.value)
      && PlansFollow(past, plan, offered)
    }

    lemma AdviceTaken(v: StepVerdict, advice: seq<Advice>, before: seq<string>, was: seq<Plan>)
      requires Heeded(v, advice) && reflections == before + Actions(advice) && "abort" !in before
      requires aborted == v.StepAborted? && replanPlan.Some? == v.StepReplanned?
      requires offered == was + (if replanPlan.Some? then [replanPlan.value] else [])
      requires |past| == replans == |was| - 1 && PlansFollow(past, plan, was)
      ensures Advised()
    {
      AbortsInActions(advice);
    }

    // Executes the ready steps in order until one of them stops the wave.
    method RunWave(ready: seq<PlanStep>)
      requires Valid() && Advised() && !aborted && !paused && replanPlan.None?
      requires ready == ReadySteps(plan.steps, completed)
      modifies this`completed, this`aborted, this`paused, this`replanPlan, this`reflections,
               this`activeModel, this`started, this`tries, this`sawCancel, this`switchFailed, this`offered
      ensures OnExecModel() && (old(sawCancel) ==> sawCancel)
      ensures !aborted && !paused && replanPlan.None? ==>
        Valid() && (ready != [] ==> old(completed.Keys) < completed.Keys)
      ensures aborted || paused || replanPlan.Some? ==> StoppedOk(Current(), past, completed, maxRetries)
      ensures replanPlan.Some? ==> !aborted && !paused && hasReflector && |completed| < |plan.steps|
      ensures Advised() && old(offered) <= offered
    {
      hide RunOk, WaveInv, StoppedOk, ReadySteps, StepEffect;
      ghost var first, done := started, completed;
      WaveStart(Current(), past, completed, maxRetries, ready);
      for i := 0 to |ready|
        invariant !aborted && !paused && replanPlan.None? && OnExecModel() && Advised() && offered == old(offered)
        invariant WaveInv(Current(), past, completed, maxRetries, first, done, ready, i)
        invariant old(sawCancel) ==> sawCancel
      {
        ghost var e, before := Current(), completed;
        ghost var said, was := reflections, offered;
        ghost var v, att, advice := RunStep(ready[i]);
        AdviceTaken(v, advice, said, was);
        WaveStep(e, past, before, maxRetries, first, done, ready, i, v, att, completed);
        WaveUnfinished(e, past, before, maxRetries, first, done, ready, i);
        ReplanLeaves(v, ready[i].id, att, before, completed);
        started := started + [ready[i]];
        tries := tries + [att];
        if aborted || paused || replanPlan.Some? {
          return;
        }
      }
      WaveEnd(Current(), past, completed, maxRetries, first, done, ready);
    }

    // Adopts a re-derived plan, carrying forward the results it still supports.
    method AdoptReplan(next: Plan)
      requires StoppedOk(Current(), past, completed, maxRetries)
      requires replanPlan == Some(next) && |past| == replans < maxReplans && OnExecModel() && Advised()
      modifies this
      ensures Valid() && Advised() && replans == old(replans) + 1 && plan == next && replanPlan.None?
      ensures past == old(past) + [old(Current())]
      ensures started == [] && tries == [] && carried == completed.Keys
      ensures TheCarry(InOrder(old(completed), old(plan).steps), next, completed)
      ensures polls == old(polls) && offered == old(offered)
      ensures aborted == old(aborted) && paused == old(paused) && sawCancel == old(sawCancel) && switchFailed == old(switchFailed)
    {
      hide RunOk, StoppedOk, TheCarry, InOrder, PlansFollow;
      ghost var keys;
      var inOrder;
      inOrder, keys := CompletedInOrder(completed, Some(plan));
      var c := BuildCarryForward(inOrder, next);
      var survivors := if c.Some? then c.value else map[];
      FreshEra(Current(), past, completed, next, survivors, maxRetries);
      PlanFollows(past, Current(), offered, next);
      BeginEra(next, survivors);
    }

    method BeginEra(next: Plan, survivors: Done)
      requires RunOk(Era(next, survivors.Keys, [], []), past + [Current()], survivors, maxRetries)
      requires replanPlan == Some(next) && |past| == replans < maxReplans && OnExecModel() && Advised()
      requires PlansFollow(past + [Current()], next, offered)
      modifies `past, `completed, `replans, `plan, `replanPlan, `carried, `started, `tries
      ensures Valid() && Advised() && replans == old(replans) + 1 && plan == next && replanPlan.None?
      ensures past == old(past) + [old(Current())] && completed == survivors
      ensures started == [] && tries == [] && carried == completed.Keys
    {
      hide RunOk, PlansFollow;
      past := past + [Current()];
      completed := survivors;
      replans := replans + 1;
      plan, replanPlan := next, None;
      carried, started, tries := completed.Keys, [], [];
    }

    // How a stopped loop left the run.
    ghost predicate StopState(stop: Stop)
      reads this
    {
      match stop
      case Drained => Valid() && !aborted && !paused && ReadySteps(plan.steps, completed) == []
      case Cancelled => Valid() && !aborted && !paused && sawCancel
      case WasAborted => StoppedOk(Current(), past, completed, maxRetries) && aborted
      case WasPaused => StoppedOk(Current(), past, completed, maxRetries) && paused && !aborted
      case ReplanRefused =>
        && StoppedOk(Current(), past, completed, maxRetries) && !aborted && !paused
        && replans >= maxReplans && replanPlan.Some? && hasReflector && |completed| < |plan.steps|
    }

    lemma NoAdvice()
      requires past == [] && replans == 0 && reflections == [] && offered == [plan] && !aborted && replanPlan.None?
      ensures Advised()
    {
    }

    lemma StopStatus(stop: Stop)
      requires StopState(stop) && Advised() && (replanPlan.Some? <==> stop.ReplanRefused?)
      ensures var s := PlanCompletionStatus(completed, plan, aborted, paused);
              StatusFits(stop, s.0, s.1) && (s.0.Aborted? <==> "abort" in reflections)
      ensures |offered| == |past| + (if stop.ReplanRefused? then 2 else 1) && PlansFollow(past, plan, offered)
    {
      hide StoppedOk, RunOk;
      if stop.ReplanRefused? {
        UnfinishedStatus(plan, completed);
      }
    }

    // Acts on what stopped a wave, if anything did; a replan is adopted while the budget lasts.
    method Settle() returns (stop: Option<Stop>)
      requires aborted || paused || replanPlan.Some? ==> StoppedOk(Current(), past, completed, maxRetries)
      requires !aborted && !paused && replanPlan.None? ==> Valid()
      requires replanPlan.Some? ==> !aborted && !paused && hasReflector && |completed| < |plan.steps|
      requires |past| == replans && OnExecModel() && Advised()
      modifies this
      ensures |past| == replans && OnExecModel() && Advised()
      ensures stop.Some? ==> (replanPlan.Some? <==> stop.value.ReplanRefused?) && !stop.value.Cancelled?
      ensures stop.Some? ==> replans == old(replans) && plan == old(plan) && past == old(past) && StopState(stop.value)
      ensures stop.None? ==> Valid() && !aborted && !paused && replanPlan.None?
      ensures stop.None? && old(replanPlan.None?) ==> unchanged(this)
      ensures polls == old(polls) && offered == old(offered)
      ensures stop.None? && old(replanPlan.Some?) ==> old(replans) < replans <= maxReplans
    {
      hide RunOk, StoppedOk, ReadySteps, TheCarry, InOrder, Ids;
      if aborted {
        return Some(WasAborted);
      }
      if paused {
        return Some(WasPaused);
      }
      if replanPlan.Some? {
        if replans >= maxReplans {
          return Some(ReplanRefused);
        }
        AdoptReplan(replanPlan.value);
      }
      stop := None;
    }

    // Asks the context in front of a wave.
    method Poll() returns (cancelled: bool)
      requires Valid() && Advised()
      modifies this`polls, this`sawCancel
      ensures Valid() && Advised() && polls == old(polls) + [cancelled] && (cancelled ==> sawCancel)
    {
      hide RunOk, PlansFollow;
      cancelled := ContextErr();
      polls := polls + [cancelled];
      if cancelled {
        sawCancel := true;
      }
    }

    // One round of the loop: adopts one of at most maxReplans plans, or completes another step
    // of the current one, or stops.
    method Round() returns (stop: Option<Stop>)
      requires Valid() && Advised() && !aborted && !paused && replanPlan.None?
      modifies this
      ensures |past| == replans && replans >= old(replans) && (replans > old(replans) ==> replans <= maxReplans)
      ensures OnExecModel() && Advised()
      ensures stop.Some? ==> (replanPlan.Some? <==> stop.value.ReplanRefused?)
      ensures stop.Some? ==> replans == old(replans) && plan == old(plan) && past == old(past) && StopState(stop.value)
      ensures stop.None? ==> Valid() && !aborted && !paused && replanPlan.None?
      ensures polls == old(polls) + [stop == Some(Cancelled)] && old(offered) <= offered
      ensures stop.None? && replans == old(replans) ==>
        plan == old(plan) && past == old(past)
        && |Ids(plan) - completed.Keys| < old(|Ids(plan) - completed.Keys|)
    {
      hide RunOk, StoppedOk, ReadySteps, Ids, PlansFollow;
      var cancelled := Poll();
      if cancelled {
        return Some(Cancelled);
      }
      var ready := FindReadySteps(plan, completed);
      if |ready| == 0 {
        return Some(Drained);
      }
      stop := Advance(ready);
    }

    // Executes a wave and acts on what stopped it.
    method Advance(ready: seq<PlanStep>) returns (stop: Option<Stop>)
      requires Valid() && Advised() && !aborted && !paused && replanPlan.None?
      requires ready == ReadySteps(plan.steps, completed) && ready != []
      modifies this
      ensures |past| == replans && replans >= old(replans) && (replans > old(replans) ==> replans <= maxReplans)
      ensures OnExecModel() && Advised()
      ensures stop.Some? ==> (replanPlan.Some? <==> stop.value.ReplanRefused?) && !stop.value.Cancelled?
      ensures stop.Some? ==> replans == old(replans) && plan == old(plan) && past == old(past) && StopState(stop.value)
      ensures stop.None? ==> Valid() && !aborted && !paused && replanPlan.None?
      ensures polls == old(polls) && old(offered) <= offered
      ensures stop.None? && replans == old(replans) ==>
        plan == old(plan) && past == old(past)
        && |Ids(plan) - completed.Keys| < old(|Ids(plan) - completed.Keys|)
    {
      hide RunOk, StoppedOk, ReadySteps, Ids, PlansFollow;
      ghost var before := completed;
      RunWave(ready);
      if !aborted && !paused && replanPlan.None? {
        KeysInPlan(Current(), past, completed, maxRetries);
        Progress(Ids(plan), before.Keys, completed.Keys);
      }
      stop := Settle();
    }

    // The wave loop; it ends for every sequence of answers.
    method Loop() returns (stop: Stop)
      requires Valid() && Advised() && past == [] && replans == 0 && !aborted && !paused && replanPlan.None? && polls == []
      modifies this
      ensures Advised() && (replanPlan.Some? <==> stop.ReplanRefused?)
      ensures replans <= (if maxReplans < 0 then 0 else maxReplans) && |past| == replans
      ensures OnExecModel() && StopState(stop)
      ensures (stop.Cancelled? <==> true in polls) && old(offered) <= offered
      ensures past == [] ==> plan == old(plan)
    {
      hide RunOk, StoppedOk, ReadySteps, StopState, Ids;
      while true
        invariant Valid() && Advised() && !aborted && !paused && replanPlan.None?
        invariant replans <= (if maxReplans < 0 then 0 else maxReplans) && true !in polls && old(offered) <= offered
        invariant past == [] ==> plan == old(plan)
        decreases (if maxReplans < 0 then 0 else maxReplans) - replans, |Ids(plan) - completed.Keys|
      {
        var s := Round();
        if s.Some? {
          return s.value;
        }
      }
    }

    // Plans on the planning model and turns to the execution model; says what failed, if anything.
    method Prepare() returns (refusal: Option<string>, ghost first: Option<Plan>)
      modifies this`plan, this`offered, this`activeModel
      ensures refusal.None? ==> first == Some(plan) && offered == [plan] && (execModel != "" ==> activeModel == execModel)
      ensures refusal.None? && execModel == "" && planModel != "" ==> activeModel == planModel
      ensures first.None? ==> refusal.Some? && plan == old(plan) && offered == old(offered)
      ensures refusal.Some? && first.Some? ==> refusal.value == "switch to exec model" && execModel != ""
      ensures refusal.Some? && first.None? ==> refusal.value == "plan" || (refusal.value == "switch to plan model" && planModel != "")
    {
      first := None;
      if planModel != "" {
        var ok := SetModel(planModel);
        if !ok { return Some("switch to plan model"), None; }
      }
      var p := PlannerAnswer();
      first := p;
      if p.None? {
        return Some("plan"), first;
      }
      plan := p.value;
      offered := [plan];
      if execModel != "" {
        var ok := SetModel(execModel);
        if !ok { return Some("switch to exec model"), first; }
      }
      refusal := None;
    }

    // Plans, executes and classifies.
    method RunPlanned() returns (r: PlannedResult, ghost first: Option<Plan>)
      requires past == [] && started == [] && tries == [] && carried == {} && completed == map[] && replans == 0
      requires !aborted && !paused && replanPlan.None? && !sawCancel && !switchFailed && reflections == [] && offered == []
      requires polls == []
      modifies this
      // at most maxReplans plans are adopted after the first
      ensures |past| <= if maxReplans < 0 then 0 else maxReplans
      // under every plan: dependency order, no surplus start, at most maxRetries + 1 attempts a start
      ensures r.Executed? ==> EraOk(Current(), maxRetries + 1) && forall e :: e in past ==> EraOk(e, maxRetries + 1)
      ensures r.Executed? ==> (r.status, r.failed, r.incomplete) == PlanCompletionStatus(completed, plan, aborted, paused)
      ensures r.Executed? ==> completed.Keys <= Ids(plan) && Keyed(completed)
      // a drained Partial is explained by the plan graph, and a sound plan that drains without failure succeeds
      ensures r.Executed? && r.stop.Drained? && r.status.Partial? ==>
        !DistinctIds(plan) || DanglingIn(plan, Unrun(plan, completed)) || CycleIn(plan, Unrun(plan, completed))
      ensures r.Executed? && r.stop.Drained? && r.failed == 0 && WellFormed(plan) ==> r.status.Success?
      // with every attempt a success and no cancellation there is one plan, and Success means it is well formed
      ensures r.Executed? && Spotless(Current(), past, maxRetries) && !r.stop.Cancelled? ==>
        past == [] && carried == {} && r.stop.Drained? && r.failed == 0 && (r.status.Success? <==> WellFormed(plan))
      ensures r.Executed? ==> StatusFits(r.stop, r.status, r.failed)
      // it is aborted exactly when a reflection said so, and cancelled exactly when the context said so in front of a
      // wave; its plans are those the planner gave, in order, of which it refuses at most the last
      ensures r.Executed? ==> (r.status.Aborted? <==> "abort" in reflections)
      ensures r.Executed? ==> |offered| == |past| + (if r.stop.ReplanRefused? then 2 else 1)
      ensures r.Executed? ==> PlansFollow(past, plan, offered) && first == Some(offered[0])
      ensures r.Executed? ==> (r.stop.Cancelled? <==> true in polls)
      // and Success means that every step of the last plan ran exactly once, or was carried over
      ensures r.Executed? && r.stop.Drained? && r.status.Success? ==> EachOnce(Current())
      ensures r.Executed? && planModel != "" && execModel != "" && !switchFailed ==> activeModel == planModel
      // a run that is rejected has started nothing
      ensures first.None? ==> r.Rejected?
      ensures r.Rejected? ==> started == [] && completed == map[] && past == []
    {
      hide EachOnce, RunOk, StoppedOk, ReadySteps, EraOk, WellFormed, CycleIn, DanglingIn, DistinctIds, PlanCompletionStatus, Keyed, Spotless,
        StatusFits, PlansFollow, Advised;
      var refusal;
      refusal, first := Prepare();
      if refusal.Some? {
        return Rejected(refusal.value), first;
      }
      EmptyRun(plan, maxRetries);
      NoAdvice();
      var stop := Loop();
      StopStatus(stop);
      if execModel != "" && planModel != "" {
        SwitchModelMidLoop(planModel);
      }
      var (status, failed, incomplete) := PlanCompletionStatus(completed, plan, aborted, paused);
      if stop.Drained? || stop.Cancelled? {
        RunEnd(Current(), past, completed, maxRetries, stop.Drained?);
      } else {
        StoppedEnd(Current(), past, completed, maxRetries);
      }
      r := Executed(status, failed, incomplete, stop);
    }
  }

  // The plans of a run are those the planner gave, in order.
  ghost predicate PlansFollow(past: seq<Era>, plan: Plan, offered: seq<Plan>) {
    && |past| < |offered| && plan == offered[|past|]
    && forall k :: 0 <= k < |past| ==> past[k].plan == offered[k]
  }

  lemma PlanFollows(past: seq<Era>, e: Era, offered: seq<Plan>, next: Plan)
    requires PlansFollow(past, e.plan, offered) && |past| + 1 < |offered| && offered[|past| + 1] == next
    ensures PlansFollow(past + [e], next, offered)
  {
  }

  // An abort and a pause are reported as such; behind a refused replan no run is reported a success.
  predicate StatusFits(stop: Stop, status: Status, failed: nat) {
    match stop
    case WasAborted => status.Aborted?
    case WasPaused => status.Paused?
    case ReplanRefused => if failed > 0 then status.Failed? else status.Partial?
    case _ => true
  }

  // The facts of a run between two steps.
  ghost predicate RunOk(e: Era, past: seq<Era>, completed: Done, maxRetries: int) {
    && LedgerOk(e, completed)
    && EraOk(e, maxRetries + 1)
    && (forall p :: p in past ==> EraOk(p, maxRetries + 1))
    && (Spotless(e, past, maxRetries) ==> past == [] && e.carried == {} && FailedIds(completed) == {})
  }

  // The facts after a step that stopped the run: at least one attempt was not a success.
  ghost predicate StoppedOk(e: Era, past: seq<Era>, completed: Done, maxRetries: int) {
    && Keyed(completed)
    && completed.Keys <= Ids(e.plan)
    && EraOk(e, maxRetries + 1)
    && (forall p :: p in past ==> EraOk(p, maxRetries + 1))
    && !Spotless(e, past, maxRetries)
  }

  ghost predicate WaveInv(e: Era, past: seq<Era>, completed: Done, maxRetries: int,
                          first: seq<PlanStep>, done: Done, ready: seq<PlanStep>, i: nat)
  {
    && RunOk(e, past, completed, maxRetries)
    && i <= |ready| && ready == ReadySteps(e.plan.steps, done)
    && e.started == first + ready[..i]
    && StartBound(e.plan, first) && Names(first) <= done.Keys && e.carried <= done.Keys
    && Preserves(done, completed)
    && (i > 0 ==> ready[0].id in completed)
  }

  lemma WaveStart(e: Era, past: seq<Era>, completed: Done, maxRetries: int, ready: seq<PlanStep>)
    requires RunOk(e, past, completed, maxRetries) && ready == ReadySteps(e.plan.steps, completed)
    ensures WaveInv(e, past, completed, maxRetries, e.started, completed, ready, 0)
  {
  }

  lemma WaveEnd(e: Era, past: seq<Era>, completed: Done, maxRetries: int,
                first: seq<PlanStep>, done: Done, ready: seq<PlanStep>)
    requires WaveInv(e, past, completed, maxRetries, first, done, ready, |ready|)
    ensures RunOk(e, past, completed, maxRetries)
    ensures ready != [] ==> done.Keys < completed.Keys
  {
    if ready != [] {
      ReadyIff(e.plan.steps, done);
      assert ready[0] in ready;
      assert ready[0].id in completed.Keys && ready[0].id !in done.Keys;
    }
  }

  // completed is what was carried plus what was started, keyed by step id; the carried part is error-free.
  ghost predicate LedgerOk(e: Era, completed: Done) {
    && Keyed(completed)
    && completed.Keys <= Ids(e.plan)
    && completed.Keys == e.carried + Names(e.started)
    && (forall k :: k in e.carried ==> completed[k].error.None?)
  }

  // The retry budget is not empty and every attempt of the whole run succeeded.
  ghost predicate Spotless(e: Era, past: seq<Era>, maxRetries: int) {
    maxRetries >= 0 && AllSucceeded(e) && (forall p :: p in past ==> AllSucceeded(p))
  }

  ghost predicate Preserves(before: Done, after: Done) {
    forall k :: k in before ==> k in after && after[k] == before[k]
  }

  // One step of a wave: the wave continues, or the run has stopped.
  lemma WaveStep(e: Era, past: seq<Era>, before: Done, maxRetries: int, first: seq<PlanStep>, done: Done,
                 ready: seq<PlanStep>, i: nat, v: StepVerdict, att: seq<Attempt>, after: Done)
    requires WaveInv(e, past, before, maxRetries, first, done, ready, i) && i < |ready|
    requires TriesOk(ready[i].id, att, maxRetries + 1) && StepEffect(v, ready[i].id, att, before, after)
    requires att == [] ==> maxRetries < 0
    ensures var n := Era(e.plan, e.carried, e.started + [ready[i]], e.tries + [att]);
            && (v.StepSucceeded? || v.StepFailed? ==> WaveInv(n, past, after, maxRetries, first, done, ready, i + 1))
            && (v.StepAborted? || v.StepPaused? || v.StepReplanned? ==> StoppedOk(n, past, after, maxRetries))
  {
    hide EraOk, LedgerOk, StartOrder, StartBound, Spotless, FailedIds, TriesOk;
    ReadyIff(e.plan.steps, done);
    assert ready[i] in ready;
    IdInPlan(e.plan, ready[i]);
    assert e.started + [ready[i]] == first + ready[..i + 1];
    WaveBound(e.plan, done, first, i + 1);
    StartStep(e, past, done, before, after, ready[i], v, att, maxRetries);
  }

  lemma ReplanLeaves(v: StepVerdict, id: string, att: seq<Attempt>, before: Done, after: Done)
    requires StepEffect(v, id, att, before, after)
    ensures v.StepReplanned? ==> after == before
  {
  }

  // Before the i-th step of a wave starts, not every step of the plan has completed.
  lemma WaveUnfinished(e: Era, past: seq<Era>, completed: Done, maxRetries: int,
                       first: seq<PlanStep>, done: Done, ready: seq<PlanStep>, i: nat)
    requires WaveInv(e, past, completed, maxRetries, first, done, ready, i) && i < |ready|
    ensures |completed| < |e.plan.steps|
  {
    hide EraOk, Spotless, StartBound, ReadySteps, Ids, Names, DistinctIds;
    IdsCard(e.plan);
    assert |completed.Keys| == |completed|;
    SubsetCard(completed.Keys, Ids(e.plan));
    if DistinctIds(e.plan) {
      var id := ready[i].id;
      assert id in Ids(e.plan) && id !in done by {
        ReadyIff(e.plan.steps, done);
        assert ready[i] in ready;
        IdInPlan(e.plan, ready[i]);
      }
      NotStartedYet(e.plan, done, i);
      NamesConcat(first, ready[..i]);
      assert id !in completed.Keys;
    }
  }

  // With unique ids no earlier step of a wave has the id of the i-th.
  lemma NotStartedYet(plan: Plan, done: Done, i: nat)
    requires DistinctIds(plan) && i < |ReadySteps(plan.steps, done)|
    ensures var ready := ReadySteps(plan.steps, done); ready[i].id !in Names(ready[..i])
  {
    hide ReadySteps, DistinctIds;
    var ready := ReadySteps(plan.steps, done);
    if ready[i].id in Names(ready[..i]) {
      var k :| 0 <= k < i && ready[..i][k].id == ready[i].id;
      CountTwice(ready, k, i);
      ReadyCount(plan.steps, done, ready[i].id);
      DistinctCount(plan, ready[i].id);
    }
  }

  lemma NamesConcat(a: seq<PlanStep>, b: seq<PlanStep>)
    ensures Names(a + b) <= Names(a) + Names(b)
  {
    forall x | x in Names(a + b) ensures x in Names(a) + Names(b) {
      var i :| 0 <= i < |a + b| && (a + b)[i].id == x;
      if i < |a| { assert a[i].id == x; } else { assert b[i - |a|].id == x; }
    }
  }

  ghost predicate AllFailed(att: seq<Attempt>, id: string) {
    forall k :: 0 <= k < |att| ==> att[k].stepId == id && !att[k].outcome.Succeeded() && !att[k].outcome.Suspended()
  }

  ghost predicate OnModel(att: seq<Attempt>, model: string) {
    forall k :: 0 <= k < |att| ==> att[k].model == model
  }

  // How a verdict shows in the completed set.
  ghost predicate StepEffect(v: StepVerdict, id: string, att: seq<Attempt>, before: Done, after: Done) {
    match v
    case StepSucceeded =>
      && att != [] && Last(att).outcome.Succeeded()
      && after == before[id := CompletedStep(id, Last(att).outcome.result.value.output, None)]
    case StepPaused => att != [] && Last(att).outcome.Suspended() && !Last(att).outcome.Succeeded() && after == before
    case StepReplanned => att != [] && AllFailed(att, id) && after == before
    case StepAborted => AllFailed(att, id) && after == before[id := CompletedStep(id, "", Some("aborted by reflection"))]
    case StepFailed =>
      AllFailed(att, id) && after == before[id := CompletedStep(id, "", Some("failed after retries: " + LastMessage(att)))]
  }

  lemma NoAttempts(id: string, model: string, planModel: string)
    ensures LastMessage([]) == "max retries exceeded" && OnModel([], model) && AllFailed([], id)
    ensures Actions([]) == [] && AdvisedOn([], planModel) && Unheeded([])
  {
  }

  // What an attempt leaves as the reason of a failure; one that says nothing leaves the reason before it.
  function Message(o: Outcome, before: string): string {
    if o.err.Some? then o.err.value else if o.result.Some? then o.result.value.output else before
  }

  // The attempt that ends a step, the cancellation that ends its retries, and otherwise the reflection, if any.
  ghost predicate Tried(a: Attempt, advice: seq<Advice>, reflects: bool, over: bool, cancelled: bool) {
    && |advice| <= 1
    && (over <==> a.outcome.Succeeded() || a.outcome.Suspended() || (advice != [] && (advice[0].SaysAbort() || advice[0].OffersPlan())))
    && (cancelled ==> !over)
    && (advice != [] <==> !a.outcome.Succeeded() && !a.outcome.Suspended() && !cancelled && reflects)
  }

  // The results behind an attempt and its reflection.
  function After(a: Attempt, advice: seq<Advice>, before: Done): Done {
    if a.outcome.Succeeded() then before[a.stepId := CompletedStep(a.stepId, a.outcome.result.value.output, None)]
    else if advice != [] && advice[0].SaysAbort() then before[a.stepId := CompletedStep(a.stepId, "", Some("aborted by reflection"))]
    else before
  }

  lemma TriedAgain(att: seq<Attempt>, a: Attempt, advice: seq<Advice>, more: seq<Advice>, retries: int, reflects: bool,
                   over: bool, cancelled: bool, before: Done, execModel: string, planModel: string)
      returns (v: StepVerdict)
    requires AllFailed(att, a.stepId) && |att| <= retries && Unheeded(advice) && |advice| == if reflects then |att| else 0
    requires Tried(a, more, |att| + 1 <= retries && reflects, over, cancelled)
    ensures LastMessage(att + [a]) == Message(a.outcome, LastMessage(att))
    ensures OnModel(att, execModel) && a.model == execModel ==> OnModel(att + [a], execModel)
    ensures AdvisedOn(advice, planModel) && AdvisedOn(more, planModel) ==> AdvisedOn(advice + more, planModel)
    ensures Actions(advice + more) == Actions(advice) + Actions(more)
    ensures over ==> Report(v, a.stepId, att + [a], advice + more, retries, reflects, before, After(a, more, before))
    ensures over ==> (v.StepAborted? <==> more != [] && more[0].SaysAbort()) && !v.StepFailed?
    ensures over ==> (v.StepReplanned? <==> more != [] && more[0].OffersPlan())
    ensures over ==> (v.StepPaused? <==> !a.outcome.Succeeded() && a.outcome.Suspended())
    ensures !over ==> AllFailed(att + [a], a.stepId) && Unheeded(advice + more) && After(a, more, before) == before
    ensures !over ==> |more| == if |att| + 1 <= retries && reflects && !cancelled then 1 else 0
    ensures more != [] ==> (advice + more)[|advice + more| - 1] == more[0]
  {
    assert (att + [a])[..|att|] == att;
    if more != [] {
      var b := more[0];
      assert more == [b] && [b][..0] == [];
      AdviceSnoc(advice, b, planModel);
      v := if b.SaysAbort() then StepAborted else StepReplanned;
      hide OnModel, LastMessage, AdvisedOn, Actions;
      ReportEnded(att, a, a.stepId, advice, retries, reflects, before);
      if over {
        ReportOver(att + [a], a.stepId, advice, b, retries, before);
      }
    } else {
      assert advice + more == advice && Actions([]) == [];
      v := if a.outcome.Succeeded() then StepSucceeded else StepPaused;
      hide OnModel, LastMessage, AdvisedOn, Actions;
      ReportEnded(att, a, a.stepId, advice, retries, reflects, before);
    }
  }

  ghost predicate AdvisedOn(advice: seq<Advice>, model: string) { forall k :: 0 <= k < |advice| ==> advice[k].model == model }

  ghost predicate Unheeded(advice: seq<Advice>) {
    forall k :: 0 <= k < |advice| ==> !advice[k].SaysAbort() && !advice[k].OffersPlan()
  }

  // What a step reports. Every failed attempt within the retries is reflected on, and the advice is taken: there is no
  // attempt behind an abort or an offered plan.
  ghost predicate Report(v: StepVerdict, id: string, att: seq<Attempt>, advice: seq<Advice>, retries: int, reflects: bool,
                         before: Done, after: Done)
  {
    && TriesOk(id, att, retries + 1) && (att == [] ==> retries < 0)
    && StepEffect(v, id, att, before, after)
    && Heeded(v, advice)
    && (v.StepAborted? || v.StepReplanned? ==> reflects && |att| <= retries)
    && |advice| == if !reflects || att == [] then 0 else if v.StepAborted? || v.StepReplanned? then |att| else |att| - 1
  }

  // One more attempt on top of failed ones.
  lemma ReportEnded(att: seq<Attempt>, a: Attempt, id: string, advice: seq<Advice>, retries: int, reflects: bool, before: Done)
    requires AllFailed(att, id) && a.stepId == id && |att| <= retries && Unheeded(advice)
    requires |advice| == if reflects then |att| else 0
    ensures a.outcome.Succeeded() ==>
      Report(StepSucceeded, id, att + [a], advice, retries, reflects, before,
             before[id := CompletedStep(id, a.outcome.result.value.output, None)])
    ensures !a.outcome.Succeeded() && a.outcome.Suspended() ==>
      Report(StepPaused, id, att + [a], advice, retries, reflects, before, before)
    ensures !a.outcome.Succeeded() && !a.outcome.Suspended() ==> AllFailed(att + [a], id)
  {
    NothingHeeded(advice);
  }

  lemma ReportOver(att: seq<Attempt>, id: string, advice: seq<Advice>, a: Advice, retries: int, before: Done)
    requires AllFailed(att, id) && att != [] && |att| <= retries && Unheeded(advice) && |advice| == |att| - 1
    ensures a.SaysAbort() ==>
      Report(StepAborted, id, att, advice + [a], retries, true, before, before[id := CompletedStep(id, "", Some("aborted by reflection"))])
    ensures a.OffersPlan() ==> Report(StepReplanned, id, att, advice + [a], retries, true, before, before)
  {
    AdviceSnoc(advice, a, "");
  }

  lemma ReportFailed(att: seq<Attempt>, id: string, advice: seq<Advice>, retries: int, reflects: bool, before: Done)
    requires AllFailed(att, id) && |att| <= (if retries < 0 then 0 else retries + 1) && Unheeded(advice) && (att == [] ==> retries < 0)
    requires |advice| == if !reflects || att == [] then 0 else |att| - 1
    ensures Report(StepFailed, id, att, advice, retries, reflects, before,
                   before[id := CompletedStep(id, "", Some("failed after retries: " + LastMessage(att)))])
  {
    NothingHeeded(advice);
  }

  lemma NothingHeeded(advice: seq<Advice>)
    requires Unheeded(advice)
    ensures forall v: StepVerdict :: v.StepSucceeded? || v.StepPaused? || v.StepFailed? ==> Heeded(v, advice)
  {
  }

  lemma AdviceSnoc(advice: seq<Advice>, a: Advice, model: string)
    requires Unheeded(advice)
    ensures Actions(advice + [a]) == Actions(advice) + if a.answer.Reflected? then [a.answer.action] else []
    ensures AdvisedOn(advice, model) && a.model == model ==> AdvisedOn(advice + [a], model)
    ensures !a.SaysAbort() && !a.OffersPlan() ==> Unheeded(advice + [a])
    ensures a.SaysAbort() ==> Heeded(StepAborted, advice + [a])
    ensures a.OffersPlan() ==> Heeded(StepReplanned, advice + [a])
  {
    assert (advice + [a])[..|advice|] == advice;
  }

  function LastMessage(att: seq<Attempt>): string {
    if att == [] then "max retries exceeded" else Message(att[|att| - 1].outcome, LastMessage(att[..|att| - 1]))
  }

  // The suggested actions, one for every reflection that came.
  function Actions(advice: seq<Advice>): seq<string> {
    if advice == [] then []
    else
      var a := advice[|advice| - 1];
      Actions(advice[..|advice| - 1]) + if a.answer.Reflected? then [a.answer.action] else []
  }

  // The first advice to abort, and the first plan offered, end the step; no other advice does.
  ghost predicate Heeded(v: StepVerdict, advice: seq<Advice>) {
    && (forall k :: 0 <= k < |advice| - 1 ==> !advice[k].SaysAbort() && !advice[k].OffersPlan())
    && (v.StepAborted? <==> advice != [] && advice[|advice| - 1].SaysAbort())
    && (v.StepReplanned? <==> advice != [] && advice[|advice| - 1].OffersPlan())
  }

  lemma {:induction false} AbortsInActions(advice: seq<Advice>)
    ensures "abort" in Actions(advice) <==> exists k :: 0 <= k < |advice| && advice[k].SaysAbort()
  {
    if advice != [] {
      var n := |advice| - 1;
      AbortsInActions(advice[..n]);
      assert forall k :: 0 <= k < n ==> advice[..n][k] == advice[k];
    }
  }

  ghost function Last<T>(s: seq<T>): T
    requires s != []
  {
    s[|s| - 1]
  }

  lemma AllSucceededAppend(e: Era, step: PlanStep, att: seq<Attempt>)
    ensures AllSucceeded(Era(e.plan, e.carried, e.started + [step], e.tries + [att]))
        <==> AllSucceeded(e) && forall k :: 0 <= k < |att| ==> att[k].outcome.Succeeded()
  {
    var t := e.tries + [att];
    assert t[|e.tries|] == att;
    assert forall i :: 0 <= i < |e.tries| ==> t[i] == e.tries[i];
    var n := Era(e.plan, e.carried, e.started + [step], t);
    if AllSucceeded(n) {
      forall i, k | 0 <= i < |e.tries| && 0 <= k < |e.tries[i]| ensures e.tries[i][k].outcome.Succeeded() {
        assert n.tries[i][k].outcome.Succeeded();
      }
      forall k | 0 <= k < |att| ensures att[k].outcome.Succeeded() {
        assert n.tries[|e.tries|][k].outcome.Succeeded();
      }
    }
  }

  lemma StartEra(e: Era, done: Done, before: Done, step: PlanStep, att: seq<Attempt>, budget: int)
    requires EraOk(e, budget) && LedgerOk(e, before)
    requires StartBound(e.plan, e.started + [step]) && DepsDone(step, before)
    requires TriesOk(step.id, att, budget)
    ensures EraOk(Era(e.plan, e.carried, e.started + [step], e.tries + [att]), budget)
  {
    StartOrderAppend(e.carried, e.started, step);
    var n := Era(e.plan, e.carried, e.started + [step], e.tries + [att]);
    forall i | 0 <= i < |n.tries| ensures TriesOk(n.started[i].id, n.tries[i], budget) {
      if i < |e.tries| {
        assert n.tries[i] == e.tries[i] && n.started[i] == e.started[i];
      }
    }
  }

  lemma StartLedger(e: Era, done: Done, before: Done, after: Done, step: PlanStep, v: StepVerdict,
                    att: seq<Attempt>, tries: seq<seq<Attempt>>)
    requires LedgerOk(e, before) && Preserves(done, before) && e.carried <= done.Keys
    requires step.id in Ids(e.plan) && step.id !in done
    requires StepEffect(v, step.id, att, before, after)
    ensures Keyed(after) && after.Keys <= Ids(e.plan) && Preserves(done, after)
    ensures v.StepSucceeded? || v.StepFailed? ==>
      LedgerOk(Era(e.plan, e.carried, e.started + [step], tries), after) && step.id in after
    ensures v.StepSucceeded? && FailedIds(before) == {} ==> FailedIds(after) == {}
  {
    hide Ids;
    NamesAppend(e.started, step);
    if v.StepSucceeded? {
      assert forall k :: k in FailedIds(after) ==> k in FailedIds(before);
    }
  }

  // One started step extends the era and, unless it stopped the run, the ledger.
  lemma StartStep(e: Era, past: seq<Era>, done: Done, before: Done, after: Done, step: PlanStep,
                  v: StepVerdict, att: seq<Attempt>, maxRetries: int)
    requires EraOk(e, maxRetries + 1) && LedgerOk(e, before) && Preserves(done, before)
    requires StartBound(e.plan, e.started + [step]) && step.id in Ids(e.plan) && step.id !in done && e.carried <= done.Keys
    requires DepsDone(step, before)
    requires TriesOk(step.id, att, maxRetries + 1) && StepEffect(v, step.id, att, before, after)
    requires att == [] ==> maxRetries < 0
    requires Spotless(e, past, maxRetries) ==> past == [] && e.carried == {} && FailedIds(before) == {}
    ensures var n := Era(e.plan, e.carried, e.started + [step], e.tries + [att]);
            && EraOk(n, maxRetries + 1)
            && Keyed(after) && after.Keys <= Ids(e.plan)
            && Preserves(done, after)
            && (v.StepSucceeded? || v.StepFailed? ==> LedgerOk(n, after) && step.id in after)
            && (Spotless(n, past, maxRetries) ==> v.StepSucceeded? && past == [] && e.carried == {} && FailedIds(after) == {})
  {
    hide EraOk, LedgerOk, StartBound, Keyed, Preserves, FailedIds, Ids, DepsDone, AllSucceeded;
    StartEra(e, done, before, step, att, maxRetries + 1);
    StartLedger(e, done, before, after, step, v, att, e.tries + [att]);
    AllSucceededAppend(e, step, att);
    if !v.StepSucceeded? && att != [] {
      assert !att[|att| - 1].outcome.Succeeded();
    }
  }

  lemma EmptyRun(plan: Plan, maxRetries: int)
    ensures RunOk(Era(plan, {}, [], []), [], map[], maxRetries)
  {
    forall id ensures Count([], id) <= Count(plan.steps, id) {
    }
    assert Names([]) == {};
    assert FailedIds(map[]) == {};
  }

  lemma FreshEra(e: Era, past: seq<Era>, completed: Done, next: Plan, c: Done, maxRetries: int)
    requires StoppedOk(e, past, completed, maxRetries)
    requires TheCarry(InOrder(completed, e.plan.steps), next, c)
    ensures RunOk(Era(next, c.Keys, [], []), past + [e], c, maxRetries)
  {
    hide InOrder, TheCarry, DependencyClosed;
    forall id ensures Count([], id) <= Count(next.steps, id) {
    }
    assert Names([]) == {};
    CarryKeyed(InOrder(completed, e.plan.steps), next, c);
    assert e in past + [e];
    assert forall p :: p in past + [e] ==> p in past || p == e;
    assert forall p :: p in past ==> p in past + [e];
  }

  lemma CarryKeyed(completed: seq<CompletedStep>, next: Plan, c: Done)
    requires TheCarry(completed, next, c)
    ensures Keyed(c) && c.Keys <= Ids(next) && forall k :: k in c ==> c[k].error.None?
  {
  }

  lemma Progress(ids: set<string>, before: set<string>, after: set<string>)
    requires after <= ids && before < after
    ensures |ids - after| < |ids - before|
  {
    var x :| x in after && x !in before;
    assert ids - after <= ids - before - {x};
    SubsetCard(ids - after, ids - before - {x});
  }

  lemma KeysInPlan(e: Era, past: seq<Era>, completed: Done, maxRetries: int)
    requires RunOk(e, past, completed, maxRetries)
    ensures completed.Keys <= Ids(e.plan)
  {
  }

  // The verdict on a run that ended between two waves.
  lemma RunEnd(e: Era, past: seq<Era>, completed: Done, maxRetries: int, drained: bool)
    requires RunOk(e, past, completed, maxRetries)
    requires drained ==> ReadySteps(e.plan.steps, completed) == []
    ensures EraOk(e, maxRetries + 1) && (forall p :: p in past ==> EraOk(p, maxRetries + 1))
    ensures completed.Keys <= Ids(e.plan) && Keyed(completed)
    ensures var s := PlanCompletionStatus(completed, e.plan, false, false);
            && (drained && s.0.Partial? ==> !DistinctIds(e.plan) || DanglingIn(e.plan, Unrun(e.plan, completed))
                                            || CycleIn(e.plan, Unrun(e.plan, completed)))
            && (drained && s.1 == 0 && WellFormed(e.plan) ==> s.0.Success?)
            && (drained && Spotless(e, past, maxRetries) ==>
                  past == [] && e.carried == {} && s.1 == 0 && (s.0.Success? <==> WellFormed(e.plan)))
            && (drained && s.0.Success? ==> EachOnce(e))
  {
    hide EachOnce, ReadySteps, DistinctIds, DanglingIn, CycleIn, WellFormed, EraOk, Spotless;
    if PlanCompletionStatus(completed, e.plan, false, false).0.Success? {
      SuccessRunsEachOnce(e, completed, maxRetries + 1);
    }
    if drained && FailedIds(completed) == {} {
      if PlanCompletionStatus(completed, e.plan, false, false).0.Partial? {
        PartialExplained(e.plan, completed);
        if WellFormed(e.plan) {
          WellFormedNotStuck(e.plan, Unrun(e.plan, completed));
          WellFormedDistinct(e.plan);
        }
      }
      if Spotless(e, past, maxRetries) {
        EraStarts(e, maxRetries + 1);
        SuccessIffWellFormed(e.plan, completed, e.started);
      }
    }
  }

  lemma WellFormedDistinct(plan: Plan)
    requires WellFormed(plan)
    ensures DistinctIds(plan)
  {
  }

  lemma EraStarts(e: Era, budget: int)
    requires EraOk(e, budget)
    ensures StartOrder(e.carried, e.started) && forall s :: s in e.started ==> s in e.plan.steps
  {
  }

  // The verdict on a run stopped by a step.
  lemma StoppedEnd(e: Era, past: seq<Era>, completed: Done, maxRetries: int)
    requires StoppedOk(e, past, completed, maxRetries)
    ensures EraOk(e, maxRetries + 1) && (forall p :: p in past ==> EraOk(p, maxRetries + 1))
    ensures completed.Keys <= Ids(e.plan) && Keyed(completed) && !Spotless(e, past, maxRetries)
  {
  }
}
