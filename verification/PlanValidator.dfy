// validatePlanDAG of planner/planner.go: the structural check every generated plan passes.
module PlanValidator {
  import opened Prelude
  import opened PlanDag

  datatype Verdict = Accepted | DuplicateId | UnknownDependency | CycleFound

  datatype Color = Gray | Black

  // deps lists exactly the in-plan dependencies of every step.
  ghost predicate DepsTable(plan: Plan, deps: map<string, seq<string>>) {
    && deps.Keys == Ids(plan)
    && forall a, b :: a in deps && b in deps[a] <==> Edge(plan, a, b) && b in Ids(plan)
  }

  ghost function Colored(color: map<string, Color>, c: Color): set<string> {
    set x | x in color && color[x] == c
  }

  // Grey nodes form a walk, black nodes a topological order.
  ghost predicate Coherent(plan: Plan, deps: map<string, seq<string>>, color: map<string, Color>,
                           path: seq<string>, order: seq<string>)
  {
    && DepsTable(plan, deps)
    && color.Keys <= deps.Keys
    && Elems(path) == Colored(color, Gray)
    && Elems(order) == Colored(color, Black)
    && IsWalk(plan, path)
    && Topological(plan, order)
  }

  // c extends b: no colour is lost or changed.
  ghost predicate Extends(b: map<string, Color>, c: map<string, Color>) {
    forall x :: x in b ==> x in c && c[x] == b[x]
  }

  // The depth-first search: colours absent from the map are white.
  class Search {
    const plan: Plan
    const deps: map<string, seq<string>>
    var color: map<string, Color>
    ghost var path: seq<string>   // the grey nodes, from the root to the one being visited
    ghost var order: seq<string>  // the black nodes, in finishing order

    constructor (plan: Plan, deps: map<string, seq<string>>)
      requires DepsTable(plan, deps)
      ensures Valid() && this.plan == plan && this.deps == deps
      ensures color == map[] && path == []
    {
      this.plan, this.deps := plan, deps;
      color, path, order := map[], [], [];
    }

    ghost predicate Valid()
      reads this
    {
      Coherent(plan, deps, color, path, order)
    }

    // Accepts exactly when no cycle is met below id; the grey path is restored.
    method Visit(id: string) returns (ok: bool)
      requires Valid() && id in deps
      requires path != [] ==> Edge(plan, path[|path| - 1], id)
      modifies this`color, this`path, this`order
      ensures ok ==> Valid() && path == old(path) && id in color && color[id] == Black
      ensures ok ==> Extends(old(color), color)
      ensures !ok ==> !Acyclic(plan)
      decreases deps.Keys - color.Keys, 0
    {
      if id in color {
        if color[id] == Gray {
          GreyHit(plan, deps, color, path, order, id);
          return false;
        }
        return true;
      }
      ghost var outer, before := path, color;
      EnterNode(plan, deps, color, path, order, id);
      color := color[id := Gray];
      path := path + [id];
      ghost var entered := color;
      assert id in deps.Keys - before.Keys && deps.Keys - color.Keys < deps.Keys - before.Keys;
      ok := VisitAll(id);
      if ok {
        FinishNode(plan, deps, before, entered, color, outer, order, id);
        color := color[id := Black];
        path := outer;
        order := order + [id];
      }
    }

    // Visits the dependencies of the node at the end of the grey path.
    method VisitAll(id: string) returns (ok: bool)
      requires Valid() && id in deps
      requires path != [] && path[|path| - 1] == id
      modifies this`color, this`path, this`order
      ensures ok ==> Valid() && path == old(path)
      ensures ok ==> Extends(old(color), color)
      ensures ok ==> forall b :: b in deps[id] ==> b in order
      ensures !ok ==> !Acyclic(plan)
      decreases deps.Keys - color.Keys, 1
    {
      hide DepsTable, IsWalk, Topological, Edge;
      for k := 0 to |deps[id]|
        invariant Valid() && path == old(path)
        invariant Extends(old(color), color)
        invariant forall j :: 0 <= j < k ==> deps[id][j] in color && color[deps[id][j]] == Black
      {
        DepIsEdge(plan, deps, id, deps[id][k]);
        ok := Visit(deps[id][k]);
        if !ok {
          return;
        }
      }
      forall b | b in deps[id] ensures b in order {
        assert b in Colored(color, Black);
      }
      ok := true;
    }
  }

  lemma DepIsEdge(plan: Plan, deps: map<string, seq<string>>, a: string, b: string)
    requires DepsTable(plan, deps) && a in deps && b in deps[a]
    ensures Edge(plan, a, b) && b in deps
  {
  }

  lemma GreyHit(plan: Plan, deps: map<string, seq<string>>, color: map<string, Color>,
                path: seq<string>, order: seq<string>, id: string)
    requires Coherent(plan, deps, color, path, order) && id in color && color[id] == Gray
    requires path != [] ==> Edge(plan, path[|path| - 1], id)
    ensures !Acyclic(plan)
  {
    assert id in Colored(color, Gray) && id in path;
    var i :| 0 <= i < |path| && path[i] == id;
    WalkSlice(plan, path, i, |path|);
    var c := path[i..];
    WalkSnoc(plan, c, id);
    assert IsCycle(plan, c + [id]);
  }

  lemma WalkSnoc(plan: Plan, p: seq<string>, b: string)
    requires IsWalk(plan, p) && (p != [] ==> Edge(plan, p[|p| - 1], b))
    ensures IsWalk(plan, p + [b])
  {
    var q := p + [b];
    forall i | 0 <= i < |q| - 1 ensures Edge(plan, q[i], q[i + 1]) {
      assert q[i] == p[i];
      if i < |p| - 1 { assert q[i + 1] == p[i + 1]; }
    }
  }

  lemma EnterNode(plan: Plan, deps: map<string, seq<string>>, color: map<string, Color>,
                  path: seq<string>, order: seq<string>, id: string)
    requires Coherent(plan, deps, color, path, order) && id in deps && id !in color
    requires path != [] ==> Edge(plan, path[|path| - 1], id)
    ensures Coherent(plan, deps, color[id := Gray], path + [id], order)
  {
    WalkSnoc(plan, path, id);
    assert Colored(color[id := Gray], Gray) == Colored(color, Gray) + {id};
    assert Colored(color[id := Gray], Black) == Colored(color, Black);
    assert Elems(path + [id]) == Elems(path) + {id};
  }

  lemma TopologicalSnoc(plan: Plan, order: seq<string>, id: string)
    requires Topological(plan, order)
    requires forall b :: Edge(plan, id, b) && b in Ids(plan) ==> b in order
    ensures Topological(plan, order + [id])
  {
    var o := order + [id];
    forall i, b | 0 <= i < |o| && Edge(plan, o[i], b) && b in Ids(plan) ensures b in o[..i] {
      if i < |order| {
        assert o[i] == order[i] && o[..i] == order[..i];
      } else {
        assert o[..i] == order;
      }
    }
  }

  lemma FinishNode(plan: Plan, deps: map<string, seq<string>>, before: map<string, Color>, entered: map<string, Color>,
                   color: map<string, Color>, outer: seq<string>, order: seq<string>, id: string)
    requires Coherent(plan, deps, color, outer + [id], order) && id in deps && id !in before
    requires entered == before[id := Gray] && Extends(entered, color)
    requires Elems(outer) <= before.Keys
    requires forall b :: b in deps[id] ==> b in order
    ensures Coherent(plan, deps, color[id := Black], outer, order + [id])
    ensures Extends(before, color[id := Black])
  {
    TopologicalSnoc(plan, order, id);
    if outer != [] {
      WalkSlice(plan, outer + [id], 0, |outer|);
    }
    assert (outer + [id])[..|outer|] == outer;
    assert Elems(outer + [id]) == Elems(outer) + {id};
    assert Elems(order + [id]) == Elems(order) + {id};
    assert Colored(color[id := Black], Gray) == Colored(color, Gray) - {id};
    assert Colored(color[id := Black], Black) == Colored(color, Black) + {id};
  }

  method HasDuplicate(plan: Plan) returns (dup: bool)
    ensures dup <==> !DistinctIds(plan)
  {
    var ids: set<string> := {};
    for i := 0 to |plan.steps|
      invariant ids == set j | 0 <= j < i :: plan.steps[j].id
      invariant forall j, k :: 0 <= j < k < i ==> plan.steps[j].id != plan.steps[k].id
    {
      if plan.steps[i].id in ids {
        return true;
      }
      ids := ids + {plan.steps[i].id};
    }
    return false;
  }

  method HasUnknown(plan: Plan, known: set<string>) returns (unknown: bool)
    ensures unknown <==> !ClosedOver(plan, known)
  {
    var ids := Ids(plan);
    for i := 0 to |plan.steps|
      invariant forall j, b :: 0 <= j < i && b in plan.steps[j].dependsOn ==> b in ids || b in known
    {
      var step := plan.steps[i];
      for k := 0 to |step.dependsOn|
        invariant forall j :: 0 <= j < k ==> step.dependsOn[j] in ids || step.dependsOn[j] in known
      {
        if step.dependsOn[k] !in ids && step.dependsOn[k] !in known {
          assert Edge(plan, step.id, step.dependsOn[k]);
          return true;
        }
      }
    }
    return false;
  }

  function InPlan(deps: seq<string>, ids: set<string>): (r: seq<string>)
    ensures forall b :: b in r <==> b in deps && b in ids
  {
    if deps == [] then []
    else (if deps[0] in ids then [deps[0]] else []) + InPlan(deps[1..], ids)
  }

  method BuildDeps(plan: Plan) returns (deps: map<string, seq<string>>)
    requires DistinctIds(plan)
    ensures DepsTable(plan, deps)
  {
    var ids := Ids(plan);
    deps := map[];
    for i := 0 to |plan.steps|
      invariant deps.Keys == set j | 0 <= j < i :: plan.steps[j].id
      invariant forall j :: 0 <= j < i ==> deps[plan.steps[j].id] == InPlan(plan.steps[j].dependsOn, ids)
    {
      deps := deps[plan.steps[i].id := InPlan(plan.steps[i].dependsOn, ids)];
    }
    TableFilled(plan, deps);
  }

  lemma TableFilled(plan: Plan, deps: map<string, seq<string>>)
    requires DistinctIds(plan) && deps.Keys == Ids(plan)
    requires forall j :: 0 <= j < |plan.steps| ==> deps[plan.steps[j].id] == InPlan(plan.steps[j].dependsOn, Ids(plan))
    ensures DepsTable(plan, deps)
  {
    hide DistinctIds;
    forall a, b ensures a in deps && b in deps[a] <==> Edge(plan, a, b) && b in Ids(plan) {
      if a in deps && b in deps[a] {
        var s := StepOfId(plan, a);
        var j :| 0 <= j < |plan.steps| && plan.steps[j] == s;
      }
      if Edge(plan, a, b) && b in Ids(plan) {
        var s :| s in plan.steps && s.id == a && b in s.dependsOn;
        var j :| 0 <= j < |plan.steps| && plan.steps[j] == s;
        IdInPlan(plan, s);
      }
    }
  }

  // The validator accepts exactly the plans with unique ids, resolvable dependencies and no cycle.
  method ValidatePlanDAG(plan: Plan, known: set<string>) returns (v: Verdict)
    ensures v.Accepted? <==> Accepts(plan, known)
    ensures known == {} ==> (v.Accepted? <==> WellFormed(plan))
    ensures v.DuplicateId? <==> !DistinctIds(plan)
    ensures v.UnknownDependency? <==> DistinctIds(plan) && !ClosedOver(plan, known)
  {
    AcceptsWellFormed(plan);
    var dup := HasDuplicate(plan);
    if dup {
      return DuplicateId;
    }
    var unknown := HasUnknown(plan, known);
    if unknown {
      return UnknownDependency;
    }
    var deps := BuildDeps(plan);
    var search := new Search(plan, deps);
    for i := 0 to |plan.steps|
      invariant search.Valid() && search.plan == plan && search.deps == deps && search.path == []
      invariant fresh(search)
      invariant forall j :: 0 <= j < i ==> plan.steps[j].id in search.color && search.color[plan.steps[j].id] == Black
    {
      IdInPlan(plan, plan.steps[i]);
      var ok := search.Visit(plan.steps[i].id);
      if !ok {
        return CycleFound;
      }
    }
    assert Ids(plan) <= Colored(search.color, Black);
    TopologicalAcyclic(plan, search.order);
    return Accepted;
  }
}
