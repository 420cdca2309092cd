// The Plan-Execute-Reflect loop of task.go: runPlanned, runStep and planCompletionStatus.
module PlanRun {
  import opened Prelude
  import opened PlanDag

  datatype Status = Success | Partial | Failed | Aborted | Paused

  datatype ConductorResult = ConductorResult(status: Status, output: string)

  // What one conductor run returned: an error, a result, or both.
  datatype Outcome = Outcome(err: Option<string>, result: Option<ConductorResult>) {
    predicate Succeeded() { err.None? && result.Some? && result.value.status.Success? }
    predicate Suspended() { result.Some? && result.value.status.Paused? }
  }

  datatype Attempt = Attempt(stepId: string, model: string, outcome: Outcome)

  datatype ReflectAnswer = ReflectError | Reflected(action: string)

  // A reflection: the reflector's answer, the plan re-derived on its advice, if one was asked for and came, and the
  // model it ran on.
  datatype Advice = Advice(answer: ReflectAnswer, next: Option<Plan>, model: string) {
    predicate SaysAbort() { answer == Reflected("abort") }
    predicate OffersPlan() { answer == Reflected("replan") && next.Some? }
  }

  datatype Decision = Retry | AbortRun | Replan(plan: Plan)

  datatype Stop = Drained | Cancelled | WasAborted | WasPaused | ReplanRefused

  datatype PlannedResult =
    | Rejected(reason: string)
    | Executed(status: Status, failed: nat, incomplete: bool, stop: Stop)

  datatype StepVerdict = StepSucceeded | StepFailed | StepAborted | StepPaused | StepReplanned

  // Everything that happened under one adopted plan: the ids carried into it, the steps
  // started in order, and for each of them its attempts.
  datatype Era = Era(plan: Plan, carried: set<string>, started: seq<PlanStep>, tries: seq<seq<Attempt>>)

  function Names(steps: seq<PlanStep>): set<string> {
    set i | 0 <= i < |steps| :: steps[i].id
  }

  function FailedIds(completed: Done): set<string> {
    set k | k in completed && completed[k].error.Some?
  }

  // aborted > paused > failed > partial > success.
  function PlanCompletionStatus(completed: Done, plan: Plan, aborted: bool, paused: bool): (r: (Status, nat, bool))
    ensures r.1 == |FailedIds(completed)|
    ensures r.2 <==> r.0.Partial?
    ensures r.0.Success? ==> forall k :: k in completed ==> completed[k].error.None?
  {
    var failed := |FailedIds(completed)|;
    assert failed == 0 ==> FailedIds(completed) == {};
    assert forall k :: k in completed && completed[k].error.Some? ==> k in FailedIds(completed);
    if aborted then (Aborted, failed, false)
    else if paused then (Paused, failed, false)
    else if failed > 0 then (Failed, failed, false)
    else if |completed| < |plan.steps| then (Partial, failed, true)
    else (Success, failed, false)
  }

  // ---------------------------------------------------------------------
  // Completed steps in plan order
  // ---------------------------------------------------------------------

  function InOrder(completed: Done, steps: seq<PlanStep>): seq<CompletedStep> {
    if steps == [] then []
    else
      var init := InOrder(completed, steps[..|steps| - 1]);
      var id := steps[|steps| - 1].id;
      if id in completed then init + [completed[id]] else init
  }

  // The results under the given keys, in that order.
  ghost predicate Lists(completed: Done, keys: seq<string>, out: seq<CompletedStep>) {
    |out| == |keys| && forall i :: 0 <= i < |keys| ==> keys[i] in completed && out[i] == completed[keys[i]]
  }

  // In plan order; without a plan, every result once, in whatever order the map is walked.
  method CompletedInOrder(completed: Done, plan: Option<Plan>) returns (out: seq<CompletedStep>, ghost keys: seq<string>)
    ensures plan.Some? ==> out == InOrder(completed, plan.value.steps)
    ensures plan.None? ==> Lists(completed, keys, out) && Distinct(keys) && Elems(keys) == completed.Keys
  {
    out, keys := [], [];
    if plan.None? {
      var rest := completed.Keys;
      while rest != {}
        invariant rest <= completed.Keys && Lists(completed, keys, out) && Distinct(keys)
        invariant Elems(keys) == completed.Keys - rest
        decreases rest
      {
        var k :| k in rest;
        rest := rest - {k};
        ghost var was := keys;
        out, keys := out + [completed[k]], keys + [k];
        assert k !in Elems(was) && Elems(keys) == Elems(was) + {k};
      }
      return;
    }
    var steps := plan.value.steps;
    for i := 0 to |steps|
      invariant out == InOrder(completed, steps[..i])
    {
      assert steps[..i + 1][..i] == steps[..i];
      if steps[i].id in completed {
        out := out + [completed[steps[i].id]];
      }
    }
    assert steps[..|steps|] == steps;
  }

  ghost predicate Keyed(completed: Done) {
    forall k :: k in completed ==> completed[k].stepId == k
  }

  // Results listed in plan order offer for carrying exactly the error-free results of steps
  // known to both plans.
  lemma {:induction false} CandidatesInOrder(completed: Done, steps: seq<PlanStep>, next: Plan)
    requires Keyed(completed)
    ensures Candidates(InOrder(completed, steps), next)
         == map k | k in completed && k in Names(steps) && k in Ids(next) && completed[k].error.None? :: completed[k]
  {
    hide Ids;
    if steps != [] {
      var init := steps[..|steps| - 1];
      var last := steps[|steps| - 1];
      CandidatesInOrder(completed, init, next);
      NamesAppend(init, last);
      assert steps == init + [last];
      hide Names;
      var l := InOrder(completed, init);
      if last.id in completed {
        assert (l + [completed[last.id]])[..|l|] == l;
      }
    }
  }

  // ---------------------------------------------------------------------
  // Order and multiplicity of starts
  // ---------------------------------------------------------------------

  // Each step starts only after all its dependencies: carried, or started earlier.
  ghost predicate StartOrder(carried: set<string>, started: seq<PlanStep>) {
    forall i, d :: 0 <= i < |started| && d in started[i].dependsOn ==> d in carried || d in Names(started[..i])
  }

  // No step starts more often than the plan lists it.
  ghost predicate StartBound(plan: Plan, started: seq<PlanStep>) {
    && (forall s :: s in started ==> s in plan.steps)
    && forall id :: Count(started, id) <= Count(plan.steps, id)
  }

  // The attempts at one start of a step: at most budget, and only the last one may succeed or pause.
  ghost predicate TriesOk(id: string, att: seq<Attempt>, budget: int) {
    && |att| <= (if budget < 0 then 0 else budget)
    && (forall k :: 0 <= k < |att| ==> att[k].stepId == id)
    && (forall k :: 0 <= k < |att| - 1 ==> !att[k].outcome.Succeeded() && !att[k].outcome.Suspended())
  }

  ghost predicate EraOk(e: Era, budget: int) {
    && StartOrder(e.carried, e.started)
    && StartBound(e.plan, e.started)
    && |e.tries| == |e.started|
    && forall i :: 0 <= i < |e.tries| ==> TriesOk(e.started[i].id, e.tries[i], budget)
  }

  ghost predicate AllSucceeded(e: Era) {
    forall i, k :: 0 <= i < |e.tries| && 0 <= k < |e.tries[i]| ==> e.tries[i][k].outcome.Succeeded()
  }

  lemma {:induction false} CountNames(steps: seq<PlanStep>, id: string)
    ensures Count(steps, id) > 0 <==> id in Names(steps)
  {
    if steps != [] {
      var init := steps[..|steps| - 1];
      CountNames(init, id);
      if id in Names(init) {
        var i :| 0 <= i < |init| && init[i].id == id;
        assert steps[i].id == id;
      }
      if id in Names(steps) {
        var i :| 0 <= i < |steps| && steps[i].id == id;
        if i < |init| { assert init[i].id == id; }
      }
    }
  }

  lemma NamesAppend(started: seq<PlanStep>, s: PlanStep)
    ensures Names(started + [s]) == Names(started) + {s.id}
  {
    var t := started + [s];
    assert t[|started|].id == s.id;
    forall x | x in Names(started) ensures x in Names(t) {
      var i :| 0 <= i < |started| && started[i].id == x;
      assert t[i].id == x;
    }
  }

  lemma StartOrderAppend(carried: set<string>, started: seq<PlanStep>, s: PlanStep)
    requires StartOrder(carried, started)
    requires forall d :: d in s.dependsOn ==> d in carried || d in Names(started)
    ensures StartOrder(carried, started + [s])
  {
    var t := started + [s];
    forall i, d | 0 <= i < |t| && d in t[i].dependsOn ensures d in carried || d in Names(t[..i]) {
      if i < |started| {
        assert t[i] == started[i] && t[..i] == started[..i];
      } else {
        assert t[..i] == started;
      }
    }
  }

  // Starting the k-th step of a wave keeps the multiplicity bound.
  lemma WaveBound(plan: Plan, completed: Done, before: seq<PlanStep>, k: nat)
    requires StartBound(plan, before) && Names(before) <= completed.Keys
    requires k <= |ReadySteps(plan.steps, completed)|
    ensures StartBound(plan, before + ReadySteps(plan.steps, completed)[..k])
  {
    var ready := ReadySteps(plan.steps, completed);
    ReadyIff(plan.steps, completed);
    forall s | s in before + ready[..k] ensures s in plan.steps {
      assert s in before || s in ready;
    }
    forall id ensures Count(before + ready[..k], id) <= Count(plan.steps, id) {
      CountConcat(before, ready[..k], id);
      CountPrefix(ready, k, id);
      ReadyCount(plan.steps, completed, id);
      CountNames(before, id);
      CountNames(ready[..k], id);
      if id in Names(ready[..k]) {
        var i :| 0 <= i < k && ready[i].id == id;
        assert ready[i] in ready;
      }
    }
  }

  lemma {:induction false} CountConcat(a: seq<PlanStep>, b: seq<PlanStep>, id: string)
    ensures Count(a + b, id) == Count(a, id) + Count(b, id)
  {
    if b == [] {
      assert a + b == a;
    } else {
      CountConcat(a, b[..|b| - 1], id);
      assert (a + b)[..|a + b| - 1] == a + b[..|b| - 1];
    }
  }

  lemma DistinctCount(plan: Plan, id: string)
    requires DistinctIds(plan)
    ensures Count(plan.steps, id) <= 1
    decreases |plan.steps|
  {
    if plan.steps != [] {
      var init := plan.steps[..|plan.steps| - 1];
      DistinctCount(Plan(init), id);
      CountNames(init, id);
      if id in Names(init) {
        var i :| 0 <= i < |init| && init[i].id == id;
        assert plan.steps[i].id == id;
      }
    }
  }

  lemma {:induction false} CountTwice(steps: seq<PlanStep>, i: nat, j: nat)
    requires i < j < |steps| && steps[i].id == steps[j].id
    ensures Count(steps, steps[i].id) >= 2
  {
    var init := steps[..|steps| - 1];
    if j == |steps| - 1 {
      assert init[i].id in Names(init);
      CountNames(init, steps[i].id);
    } else {
      CountTwice(init, i, j);
    }
  }

  // Under a plan with unique ids no step starts twice.
  lemma StartsDistinct(e: Era, budget: int)
    requires EraOk(e, budget) && DistinctIds(e.plan)
    ensures forall i, j :: 0 <= i < j < |e.started| ==> e.started[i].id != e.started[j].id
  {
    forall i, j | 0 <= i < j < |e.started| ensures e.started[i].id != e.started[j].id {
      if e.started[i].id == e.started[j].id {
        CountTwice(e.started, i, j);
        DistinctCount(e.plan, e.started[i].id);
      }
    }
  }

  // ---------------------------------------------------------------------
  // What a drained run says about the plan graph
  // ---------------------------------------------------------------------

  function Unrun(plan: Plan, completed: Done): set<string> {
    Ids(plan) - completed.Keys
  }

  lemma DrainedIsStuck(plan: Plan, completed: Done)
    requires ReadySteps(plan.steps, completed) == []
    requires FailedIds(completed) == {} && completed.Keys <= Ids(plan)
    ensures Stuck(plan, Unrun(plan, completed))
  {
    ReadyIff(plan.steps, completed);
    forall a | a in Unrun(plan, completed)
      ensures exists b :: Edge(plan, a, b) && (b !in Ids(plan) || b in Unrun(plan, completed))
    {
      var s := StepOfId(plan, a);
      assert s !in ReadySteps(plan.steps, completed);
      var b :| b in s.dependsOn && !(b in completed && completed[b].error.None?);
      assert b in completed ==> b in FailedIds(completed);
      assert Edge(plan, a, b);
    }
  }

  lemma IdsCard(plan: Plan)
    ensures |Ids(plan)| <= |plan.steps|
    ensures |Ids(plan)| == |plan.steps| <==> DistinctIds(plan)
  {
    var ids := seq(|plan.steps|, i requires 0 <= i < |plan.steps| => plan.steps[i].id);
    assert Elems(ids) == Ids(plan) by {
      forall x | x in Ids(plan) ensures x in ids {
        var i :| 0 <= i < |plan.steps| && plan.steps[i].id == x;
        assert ids[i] == x;
      }
    }
    ElemsCardAtMost(ids);
    if DistinctIds(plan) {
      DistinctCard(ids);
    }
    if |Ids(plan)| == |plan.steps| {
      CardDistinct(ids);
      forall i, j | 0 <= i < j < |plan.steps| ensures plan.steps[i].id != plan.steps[j].id {
        assert ids[i] != ids[j];
      }
    }
  }

  // A drained run without failure that reports Partial has a duplicate id in its plan, or a
  // dangling dependency or dependency cycle among the steps that never ran.
  lemma PartialExplained(plan: Plan, completed: Done)
    requires ReadySteps(plan.steps, completed) == []
    requires FailedIds(completed) == {} && completed.Keys <= Ids(plan)
    requires PlanCompletionStatus(completed, plan, false, false).0.Partial?
    ensures !DistinctIds(plan) || DanglingIn(plan, Unrun(plan, completed)) || CycleIn(plan, Unrun(plan, completed))
  {
    IdsCard(plan);
    assert |completed.Keys| == |completed|;
    if DistinctIds(plan) {
      SubsetCard(completed.Keys, Ids(plan));
      assert Unrun(plan, completed) != {};
      DrainedIsStuck(plan, completed);
      StuckHasCycle(plan, Unrun(plan, completed));
    }
  }

  // A run that left a step out never reports Success: Failed if some step failed, else Partial.
  lemma UnfinishedStatus(plan: Plan, completed: Done)
    requires |completed| < |plan.steps|
    ensures var s := PlanCompletionStatus(completed, plan, false, false);
            if s.1 > 0 then s.0.Failed? else s.0.Partial?
  {
  }

  // Duplicate ids alone make an otherwise complete run report Partial.
  lemma DuplicateIdsReportPartial(plan: Plan, completed: Done)
    requires completed.Keys == Ids(plan) && FailedIds(completed) == {}
    ensures PlanCompletionStatus(completed, plan, false, false).0.Partial? <==> !DistinctIds(plan)
  {
    IdsCard(plan);
    assert |completed.Keys| == |completed|;
  }

  // Starts in dependency order that cover the plan prove it closed and acyclic.
  lemma CoveringStartsWellFormed(plan: Plan, started: seq<PlanStep>)
    requires DistinctIds(plan) && StartOrder({}, started) && Names(started) == Ids(plan)
    requires forall s :: s in started ==> s in plan.steps
    ensures WellFormed(plan)
  {
    var order := seq(|started|, i requires 0 <= i < |started| => started[i].id);
    forall a, b | Edge(plan, a, b) ensures b in Ids(plan) {
      var i := StartOf(plan, started, a, b);
      SubNames(started, i);
    }
    forall i, b | 0 <= i < |order| && Edge(plan, order[i], b) && b in Ids(plan) ensures b in order[..i] {
      var k := StartAt(plan, started, i, b);
      assert order[..i][k] == b;
    }
    forall x | x in Ids(plan) ensures x in order {
      var i :| 0 <= i < |started| && started[i].id == x;
      assert order[i] == x;
    }
    TopologicalAcyclic(plan, order);
  }

  lemma SubNames(started: seq<PlanStep>, i: nat)
    requires i <= |started|
    ensures Names(started[..i]) <= Names(started)
  {
    forall x | x in Names(started[..i]) ensures x in Names(started) {
      var k :| 0 <= k < i && started[..i][k].id == x;
      assert started[k].id == x;
    }
  }

  // With unique ids the edge a -> b belongs to the one step named a.
  lemma EdgeOfStart(plan: Plan, s: PlanStep, b: string)
    requires DistinctIds(plan) && s in plan.steps && Edge(plan, s.id, b)
    ensures b in s.dependsOn
  {
    var t :| t in plan.steps && t.id == s.id && b in t.dependsOn;
    var i :| 0 <= i < |plan.steps| && plan.steps[i] == s;
    var j :| 0 <= j < |plan.steps| && plan.steps[j] == t;
    assert i == j;
  }

  lemma StartOf(plan: Plan, started: seq<PlanStep>, a: string, b: string) returns (i: nat)
    requires DistinctIds(plan) && StartOrder({}, started) && Names(started) == Ids(plan)
    requires forall s :: s in started ==> s in plan.steps
    requires Edge(plan, a, b)
    ensures i < |started| && b in Names(started[..i])
  {
    var t :| t in plan.steps && t.id == a && b in t.dependsOn;
    IdInPlan(plan, t);
    i :| 0 <= i < |started| && started[i].id == a;
    assert started[i] in started;
    EdgeOfStart(plan, started[i], b);
    StartDep({}, started, i, b);
  }

  lemma StartDep(carried: set<string>, started: seq<PlanStep>, i: nat, d: string)
    requires StartOrder(carried, started) && i < |started| && d in started[i].dependsOn
    ensures d in carried || d in Names(started[..i])
  {
  }

  lemma StartAt(plan: Plan, started: seq<PlanStep>, i: nat, b: string) returns (k: nat)
    requires DistinctIds(plan) && StartOrder({}, started)
    requires forall s :: s in started ==> s in plan.steps
    requires i < |started| && Edge(plan, started[i].id, b)
    ensures k < i && started[k].id == b
  {
    assert started[i] in started;
    EdgeOfStart(plan, started[i], b);
    StartDep({}, started, i, b);
    k :| 0 <= k < i && started[..i][k].id == b;
  }

  // With every attempt a success, Success means exactly that the plan is well formed.
  lemma SuccessIffWellFormed(plan: Plan, completed: Done, started: seq<PlanStep>)
    requires ReadySteps(plan.steps, completed) == []
    requires FailedIds(completed) == {} && completed.Keys == Names(started) && completed.Keys <= Ids(plan)
    requires StartOrder({}, started) && forall s :: s in started ==> s in plan.steps
    ensures PlanCompletionStatus(completed, plan, false, false).0.Success? <==> WellFormed(plan)
  {
    IdsCard(plan);
    assert |completed.Keys| == |completed|;
    SubsetCard(completed.Keys, Ids(plan));
    if PlanCompletionStatus(completed, plan, false, false).0.Success? {
      CoveringStartsWellFormed(plan, started);
    } else {
      if WellFormed(plan) {
        PartialExplained(plan, completed);
        WellFormedNotStuck(plan, Unrun(plan, completed));
      }
    }
  }

  // A validated plan whose attempts all succeed reports Success exactly when it leans on no id of a previous plan:
  // the run resolves dependencies against its own steps alone.
  lemma AcceptedSucceedsIff(plan: Plan, known: set<string>, completed: Done, started: seq<PlanStep>)
    requires Accepts(plan, known)
    requires ReadySteps(plan.steps, completed) == []
    requires FailedIds(completed) == {} && completed.Keys == Names(started) && completed.Keys <= Ids(plan)
    requires StartOrder({}, started) && forall s :: s in started ==> s in plan.steps
    ensures PlanCompletionStatus(completed, plan, false, false).0.Success? <==> Closed(plan)
    ensures known == {} ==> Closed(plan)
  {
    hide ReadySteps, PlanCompletionStatus, Acyclic, DistinctIds, Closed;
    AcceptsWellFormed(plan);
    SuccessIffWellFormed(plan, completed, started);
    assert WellFormed(plan) ==> Closed(plan);
  }

  // Every step of the plan was carried over or started, and none was started twice.
  ghost predicate EachOnce(e: Era) {
    && DistinctIds(e.plan) && e.carried + Names(e.started) == Ids(e.plan)
    && forall i, j :: 0 <= i < j < |e.started| ==> e.started[i].id != e.started[j].id
  }

  // Success means that every step ran, once.
  lemma SuccessRunsEachOnce(e: Era, completed: Done, budget: int)
    requires EraOk(e, budget) && completed.Keys == e.carried + Names(e.started) && completed.Keys <= Ids(e.plan)
    requires PlanCompletionStatus(completed, e.plan, false, false).0.Success?
    ensures EachOnce(e)
  {
    hide EraOk, DistinctIds;
    IdsCard(e.plan);
    assert |completed.Keys| == |completed|;
    SubsetCard(completed.Keys, Ids(e.plan));
    StartsDistinct(e, budget);
  }

  lemma WellFormedNotStuck(plan: Plan, ids: set<string>)
    requires WellFormed(plan)
    ensures !DanglingIn(plan, ids) && !CycleIn(plan, ids)
  {
  }
}
