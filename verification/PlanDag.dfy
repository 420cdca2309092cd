// The plan graph: orchestration/dag.go and validatePlanDAG of planner/planner.go.
module PlanDag {
  import opened Prelude

  datatype PlanStep = PlanStep(id: string, dependsOn: seq<string>)

  datatype Plan = Plan(steps: seq<PlanStep>)

  datatype CompletedStep = CompletedStep(stepId: string, output: string, error: Option<string>)

  type Done = map<string, CompletedStep>

  function Ids(plan: Plan): set<string> {
    set i | 0 <= i < |plan.steps| :: plan.steps[i].id
  }

  ghost predicate DistinctIds(plan: Plan) {
    forall i, j :: 0 <= i < j < |plan.steps| ==> plan.steps[i].id != plan.steps[j].id
  }

  // Step a names b among its dependencies.
  ghost predicate Edge(plan: Plan, a: string, b: string) {
    exists s :: s in plan.steps && s.id == a && b in s.dependsOn
  }

  // Every dependency names a step of the plan.
  ghost predicate Closed(plan: Plan) {
    forall a, b :: Edge(plan, a, b) ==> b in Ids(plan)
  }

  // Consecutive nodes are joined by edges.
  ghost predicate IsWalk(plan: Plan, p: seq<string>) {
    forall i :: 0 <= i < |p| - 1 ==> Edge(plan, p[i], p[i + 1])
  }

  ghost predicate IsCycle(plan: Plan, p: seq<string>) {
    |p| >= 2 && p[0] == p[|p| - 1] && IsWalk(plan, p)
  }

  ghost predicate Acyclic(plan: Plan) {
    forall p :: !IsCycle(plan, p)
  }

  ghost predicate WellFormed(plan: Plan) {
    DistinctIds(plan) && Closed(plan) && Acyclic(plan)
  }

  // Dependencies of the plan resolve to its own ids or to the ids of the previous plan.
  ghost predicate ClosedOver(plan: Plan, known: set<string>) {
    forall a, b :: Edge(plan, a, b) ==> b in Ids(plan) || b in known
  }

  // What validation asks of a plan.
  ghost predicate Accepts(plan: Plan, known: set<string>) {
    DistinctIds(plan) && ClosedOver(plan, known) && Acyclic(plan)
  }

  // Without a previous plan, exactly the well-formed plans pass; with one, those that lean on none of its ids are
  // well formed.
  lemma AcceptsWellFormed(plan: Plan)
    ensures Accepts(plan, {}) <==> WellFormed(plan)
    ensures forall known :: Accepts(plan, known) ==> (WellFormed(plan) <==> Closed(plan))
  {
    hide Acyclic, DistinctIds;
  }

  lemma IdInPlan(plan: Plan, s: PlanStep)
    requires s in plan.steps
    ensures s.id in Ids(plan)
  {
    var i :| 0 <= i < |plan.steps| && plan.steps[i] == s;
  }

  lemma StepOfId(plan: Plan, id: string) returns (s: PlanStep)
    requires id in Ids(plan)
    ensures s in plan.steps && s.id == id
  {
    var i :| 0 <= i < |plan.steps| && plan.steps[i].id == id;
    s := plan.steps[i];
  }

  // ---------------------------------------------------------------------
  // FindReadySteps
  // ---------------------------------------------------------------------

  predicate DepsDone(s: PlanStep, completed: Done) {
    forall d :: d in s.dependsOn ==> d in completed && completed[d].error.None?
  }

  predicate IsReady(s: PlanStep, completed: Done) {
    s.id !in completed && DepsDone(s, completed)
  }

  // The ready steps, in plan order and with their multiplicity.
  function ReadySteps(steps: seq<PlanStep>, completed: Done): seq<PlanStep> {
    if steps == [] then []
    else
      var last := steps[|steps| - 1];
      var r := ReadySteps(steps[..|steps| - 1], completed);
      if IsReady(last, completed) then r + [last] else r
  }

  // Ready are exactly the steps not completed whose dependencies all completed without error.
  lemma {:induction false} ReadyIff(steps: seq<PlanStep>, completed: Done)
    ensures forall s :: s in ReadySteps(steps, completed) <==> s in steps && IsReady(s, completed)
  {
    if steps != [] {
      ReadyIff(steps[..|steps| - 1], completed);
      assert steps == steps[..|steps| - 1] + [steps[|steps| - 1]];
    }
  }

  lemma ReadySnoc(steps: seq<PlanStep>, i: nat, completed: Done)
    requires i < |steps|
    ensures ReadySteps(steps[..i + 1], completed)
         == ReadySteps(steps[..i], completed) + (if IsReady(steps[i], completed) then [steps[i]] else [])
  {
    assert steps[..i + 1][..i] == steps[..i];
  }

  method AllDepsComplete(step: PlanStep, completed: Done) returns (ok: bool)
    ensures ok == DepsDone(step, completed)
  {
    for k := 0 to |step.dependsOn|
      invariant forall j :: 0 <= j < k ==> step.dependsOn[j] in completed && completed[step.dependsOn[j]].error.None?
    {
      var depID := step.dependsOn[k];
      if depID !in completed || completed[depID].error.Some? {
        return false;
      }
    }
    return true;
  }

  method FindReadySteps(plan: Plan, completed: Done) returns (ready: seq<PlanStep>)
    ensures ready == ReadySteps(plan.steps, completed)
  {
    ready := [];
    for i := 0 to |plan.steps|
      invariant ready == ReadySteps(plan.steps[..i], completed)
    {
      var step := plan.steps[i];
      ReadySnoc(plan.steps, i, completed);
      if step.id in completed {
        continue;
      }
      var allDepsComplete := AllDepsComplete(step, completed);
      if allDepsComplete {
        ready := ready + [step];
      }
    }
    assert plan.steps[..|plan.steps|] == plan.steps;
  }

  function Count(steps: seq<PlanStep>, id: string): nat {
    if steps == [] then 0
    else (if steps[|steps| - 1].id == id then 1 else 0) + Count(steps[..|steps| - 1], id)
  }

  lemma {:induction false} ReadyCount(steps: seq<PlanStep>, completed: Done, id: string)
    ensures Count(ReadySteps(steps, completed), id) <= Count(steps, id)
  {
    if steps != [] {
      var init := steps[..|steps| - 1];
      ReadyCount(init, completed, id);
      var r := ReadySteps(init, completed);
      assert (r + [steps[|steps| - 1]])[..|r|] == r;
    }
  }

  lemma {:induction false} CountAppend(a: seq<PlanStep>, s: PlanStep, id: string)
    ensures Count(a + [s], id) == Count(a, id) + (if s.id == id then 1 else 0)
  {
    assert (a + [s])[..|a|] == a;
  }

  lemma {:induction false} CountPrefix(steps: seq<PlanStep>, k: nat, id: string)
    requires k <= |steps|
    ensures Count(steps[..k], id) <= Count(steps, id)
    decreases |steps| - k
  {
    if k < |steps| {
      assert steps[..k + 1] == steps[..k] + [steps[k]];
      CountAppend(steps[..k], steps[k], id);
      CountPrefix(steps, k + 1, id);
    } else {
      assert steps[..k] == steps;
    }
  }

  // ---------------------------------------------------------------------
  // BuildCarryForward
  // ---------------------------------------------------------------------

  // Old results that survive by name: the last error-free entry per id of the new plan.
  function Candidates(completed: seq<CompletedStep>, plan: Plan): (m: Done)
    ensures forall k :: k in m ==> k in Ids(plan) && m[k].stepId == k && m[k].error.None? && m[k] in completed
  {
    if completed == [] then map[]
    else
      var cs := completed[|completed| - 1];
      var m := Candidates(completed[..|completed| - 1], plan);
      if cs.stepId in Ids(plan) && cs.error.None? then m[cs.stepId := cs] else m
  }

  // A set of ids whose in-plan dependencies stay inside the set.
  ghost predicate DependencyClosed(plan: Plan, ids: set<string>) {
    forall s, d :: s in plan.steps && s.id in ids && d in s.dependsOn && d in Ids(plan) ==> d in ids
  }

  // m keeps the largest dependency-closed part of the candidates, with their results.
  ghost predicate GreatestCarry(completed: seq<CompletedStep>, plan: Plan, m: Done) {
    var c := Candidates(completed, plan);
    && m.Keys <= c.Keys
    && (forall k :: k in m ==> m[k] == c[k])
    && DependencyClosed(plan, m.Keys)
    && (forall ids: set<string> :: ids <= c.Keys && DependencyClosed(plan, ids) ==> ids <= m.Keys)
  }

  // m is the only such part: the order in which steps are dropped cannot matter.
  ghost predicate TheCarry(completed: seq<CompletedStep>, plan: Plan, m: Done) {
    GreatestCarry(completed, plan, m) && forall n :: GreatestCarry(completed, plan, n) ==> n == m
  }

  lemma GreatestCarryUnique(completed: seq<CompletedStep>, plan: Plan, m: Done)
    requires GreatestCarry(completed, plan, m)
    ensures TheCarry(completed, plan, m)
  {
    hide Candidates, DependencyClosed;
    forall n | GreatestCarry(completed, plan, n) ensures n == m {
      assert m.Keys <= n.Keys && n.Keys <= m.Keys;
    }
  }

  // No dependency-closed set of candidates reaches outside the survivors.
  ghost predicate Covers(plan: Plan, cand: set<string>, kept: set<string>) {
    forall ids: set<string> :: ids <= cand && DependencyClosed(plan, ids) ==> ids <= kept
  }

  // A step with a dependency outside the survivors belongs to no dependency-closed set.
  lemma DropStep(plan: Plan, cand: set<string>, kept: set<string>, s: PlanStep, dep: string)
    requires s in plan.steps && dep in s.dependsOn && dep in Ids(plan) && dep !in kept
    requires Covers(plan, cand, kept)
    ensures Covers(plan, cand, kept - {s.id})
  {
    forall ids: set<string> | ids <= cand && DependencyClosed(plan, ids)
      ensures ids <= kept - {s.id}
    {
      assert s.id in ids ==> dep in ids;
    }
  }

  // Every in-plan dependency of s is kept.
  predicate DepsKept(s: PlanStep, ids: set<string>, kept: set<string>) {
    forall d :: d in s.dependsOn && d in ids ==> d in kept
  }

  method HasDroppedDep(s: PlanStep, ids: set<string>, carried: Done) returns (r: Option<string>)
    ensures r.None? <==> DepsKept(s, ids, carried.Keys)
    ensures r.Some? ==> r.value in s.dependsOn && r.value in ids && r.value !in carried
  {
    for k := 0 to |s.dependsOn|
      invariant forall j :: 0 <= j < k && s.dependsOn[j] in ids ==> s.dependsOn[j] in carried
    {
      if s.dependsOn[k] in ids && s.dependsOn[k] !in carried {
        return Some(s.dependsOn[k]);
      }
    }
    return None;
  }

  // One sweep over the plan: drops steps that lost a dependency.
  method PrunePass(plan: Plan, ghost cand: set<string>, before: Done) returns (carried: Done, changed: bool)
    requires Covers(plan, cand, before.Keys)
    ensures carried.Keys <= before.Keys && Covers(plan, cand, carried.Keys)
    ensures forall k :: k in carried ==> carried[k] == before[k]
    ensures changed ==> |carried.Keys| < |before.Keys|
    ensures !changed ==> carried == before && DependencyClosed(plan, carried.Keys)
  {
    carried, changed := before, false;
    var ids := Ids(plan);
    for i := 0 to |plan.steps|
      invariant carried.Keys <= before.Keys && Covers(plan, cand, carried.Keys)
      invariant forall k :: k in carried ==> carried[k] == before[k]
      invariant changed ==> |carried.Keys| < |before.Keys|
      invariant !changed ==> carried == before
      invariant !changed ==> forall j :: 0 <= j < i && plan.steps[j].id in carried ==> DepsKept(plan.steps[j], ids, carried.Keys)
    {
      var s := plan.steps[i];
      if s.id !in carried {
        continue;
      }
      var dropped := HasDroppedDep(s, ids, carried);
      if dropped.Some? {
        DropStep(plan, cand, carried.Keys, s, dropped.value);
        var rest := carried - {s.id};
        assert rest.Keys == carried.Keys - {s.id};
        SubsetCard(carried.Keys, before.Keys);
        carried, changed := rest, true;
      }
    }
    if !changed {
      SweptClosed(plan, carried.Keys);
    }
  }

  lemma SweptClosed(plan: Plan, kept: set<string>)
    requires forall j :: 0 <= j < |plan.steps| && plan.steps[j].id in kept ==> DepsKept(plan.steps[j], Ids(plan), kept)
    ensures DependencyClosed(plan, kept)
  {
    forall s, d | s in plan.steps && s.id in kept && d in s.dependsOn && d in Ids(plan) ensures d in kept {
      var j :| 0 <= j < |plan.steps| && plan.steps[j] == s;
    }
  }

  method CollectCandidates(completed: seq<CompletedStep>, newPlan: Plan) returns (carried: Done)
    ensures carried == Candidates(completed, newPlan)
  {
    var newStepIDs := Ids(newPlan);
    carried := map[];
    for i := 0 to |completed|
      invariant carried == Candidates(completed[..i], newPlan)
    {
      var cs := completed[i];
      assert completed[..i + 1][..i] == completed[..i];
      if cs.stepId in newStepIDs && cs.error.None? {
        carried := carried[cs.stepId := cs];
      }
    }
    assert completed[..|completed|] == completed;
  }

  // None stands for the nil map returned when nothing survives.
  method BuildCarryForward(completed: seq<CompletedStep>, newPlan: Plan) returns (r: Option<Done>)
    ensures r.Some? ==> r.value != map[] && TheCarry(completed, newPlan, r.value)
    ensures r.None? ==> TheCarry(completed, newPlan, map[])
  {
    var carried := CollectCandidates(completed, newPlan);
    ghost var cand := carried;
    var changed := true;
    while changed
      invariant carried.Keys <= cand.Keys
      invariant forall k :: k in carried ==> carried[k] == cand[k]
      invariant Covers(newPlan, cand.Keys, carried.Keys)
      invariant !changed ==> DependencyClosed(newPlan, carried.Keys)
      decreases |carried.Keys|, changed
    {
      carried, changed := PrunePass(newPlan, cand.Keys, carried);
    }
    GreatestCarryUnique(completed, newPlan, carried);
    if |carried| == 0 {
      assert carried == map[];
      r := None;
    } else {
      r := Some(carried);
    }
  }

  // ---------------------------------------------------------------------
  // A stuck set of steps contains a dangling dependency or a cycle
  // ---------------------------------------------------------------------

  // Every id of the set has a dependency that is dangling or again in the set.
  ghost predicate Stuck(plan: Plan, ids: set<string>) {
    forall a :: a in ids ==> exists b :: Edge(plan, a, b) && (b !in Ids(plan) || b in ids)
  }

  ghost predicate DanglingIn(plan: Plan, ids: set<string>) {
    exists a, b :: a in ids && Edge(plan, a, b) && b !in Ids(plan)
  }

  ghost predicate CycleIn(plan: Plan, ids: set<string>) {
    exists p :: IsCycle(plan, p) && Elems(p) <= ids
  }

  lemma WalkCons(plan: Plan, a: string, q: seq<string>)
    requires IsWalk(plan, q) && q != [] && Edge(plan, a, q[0])
    ensures IsWalk(plan, [a] + q)
  {
    var p := [a] + q;
    forall i | 0 <= i < |p| - 1 ensures Edge(plan, p[i], p[i + 1]) {
      if i > 0 { assert p[i] == q[i - 1] && p[i + 1] == q[i]; }
    }
  }

  lemma WalkSlice(plan: Plan, p: seq<string>, i: nat, j: nat)
    requires IsWalk(plan, p) && i < j <= |p|
    ensures IsWalk(plan, p[i..j])
  {
    var c := p[i..j];
    forall k | 0 <= k < |c| - 1 ensures Edge(plan, c[k], c[k + 1]) {
      assert c[k] == p[i + k] && c[k + 1] == p[i + k + 1];
    }
  }

  // The walk that follows a chosen successor of every node, n edges long.
  ghost function Follow(next: map<string, string>, a: string, n: nat): (p: seq<string>)
    requires a in next && next.Values <= next.Keys
    ensures |p| == n + 1 && p[0] == a && Elems(p) <= next.Keys
    decreases n
  {
    if n == 0 then [a] else [a] + Follow(next, next[a], n - 1)
  }

  lemma {:induction false} FollowIsWalk(plan: Plan, next: map<string, string>, a: string, n: nat)
    requires a in next && next.Values <= next.Keys
    requires forall x :: x in next ==> Edge(plan, x, next[x])
    ensures IsWalk(plan, Follow(next, a, n))
    decreases n
  {
    if n > 0 {
      FollowIsWalk(plan, next, next[a], n - 1);
      WalkCons(plan, a, Follow(next, next[a], n - 1));
    }
  }

  ghost function StuckStep(plan: Plan, ids: set<string>, a: string): (b: string)
    requires Stuck(plan, ids) && !DanglingIn(plan, ids) && a in ids
    ensures Edge(plan, a, b) && b in ids
  {
    var b :| Edge(plan, a, b) && (b !in Ids(plan) || b in ids);
    b
  }

  lemma CutCycle(plan: Plan, p: seq<string>, ids: set<string>)
    requires IsWalk(plan, p) && Elems(p) <= ids && |p| > |ids|
    ensures CycleIn(plan, ids)
  {
    var i, j := Pigeonhole(p, ids);
    var c := p[i..j + 1];
    WalkSlice(plan, p, i, j + 1);
    assert c[0] == p[i] && c[|c| - 1] == p[j];
    assert IsCycle(plan, c) && Elems(c) <= ids;
  }

  lemma StuckHasCycle(plan: Plan, ids: set<string>)
    requires Stuck(plan, ids) && ids != {}
    ensures DanglingIn(plan, ids) || CycleIn(plan, ids)
  {
    if !DanglingIn(plan, ids) {
      var start :| start in ids;
      var next := map a | a in ids :: StuckStep(plan, ids, a);
      FollowIsWalk(plan, next, start, |ids|);
      CutCycle(plan, Follow(next, start, |ids|), ids);
    }
  }

  // ---------------------------------------------------------------------
  // Topological orders
  // ---------------------------------------------------------------------

  // Every in-plan dependency of an entry occurs earlier in the order.
  ghost predicate Topological(plan: Plan, order: seq<string>) {
    forall i, b :: 0 <= i < |order| && Edge(plan, order[i], b) && b in Ids(plan) ==> b in order[..i]
  }

  // The first position at which x occurs.
  ghost function Rank(order: seq<string>, x: string): (i: nat)
    requires x in order
    ensures i < |order| && order[i] == x && forall k :: 0 <= k < i ==> order[k] != x
  {
    if order[0] == x then 0
    else 1 + Rank(order[1..], x)
  }

  lemma RankStep(plan: Plan, order: seq<string>, a: string, b: string)
    requires Topological(plan, order) && Edge(plan, a, b) && b in Ids(plan) && a in order
    ensures b in order && Rank(order, b) < Rank(order, a)
  {
    var r := Rank(order, a);
    assert b in order[..r];
    var k :| 0 <= k < r && order[k] == b;
  }

  lemma {:induction false} RankDescends(plan: Plan, order: seq<string>, p: seq<string>)
    requires Topological(plan, order)
    requires IsWalk(plan, p) && |p| >= 1
    requires forall x :: x in p ==> x in Ids(plan) && x in order
    ensures Rank(order, p[|p| - 1]) <= Rank(order, p[0]) - (|p| - 1)
  {
    if |p| > 1 {
      WalkSlice(plan, p, 1, |p|);
      RankDescends(plan, order, p[1..]);
      assert Edge(plan, p[0], p[1]) && p[1] in p;
      RankStep(plan, order, p[0], p[1]);
    }
  }

  lemma TopologicalAcyclic(plan: Plan, order: seq<string>)
    requires Topological(plan, order) && Ids(plan) <= Elems(order)
    ensures Acyclic(plan)
  {
    forall p | IsCycle(plan, p) ensures false {
      forall x | x in p ensures x in Ids(plan) {
        var i :| 0 <= i < |p| && p[i] == x;
        var e := if i < |p| - 1 then i else 0;
        assert Edge(plan, p[e], p[e + 1]);
        var s :| s in plan.steps && s.id == p[e];
        IdInPlan(plan, s);
        assert x in Ids(plan);
      }
      RankDescends(plan, order, p);
    }
  }
}
