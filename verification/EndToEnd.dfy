/** From a project to a run: the planner's plan, the execution graph built from it, and the engine
    running that graph under the session's locks. */
module EndToEnd {
  import opened Nodes
  import opened Digraph
  import opened Wrappers
  import opened Planner
  import BuildSpec
  import BuildInvariant
  import BuildSafety
  import BuildResults
  import Dag
  import ExecutionGraph
  import Engine
  import EngineLocks
  import EngineSafety
  import Walk
  import S = Session

  // ---- Planning and building ---------------------------------------------------------

  lemma ShapeKids(project: Project, requested: seq<Name>, plan: Plan, n: Name, k: Name)
    requires IsPlanFor(project, requested, plan) && n in plan.targets
    ensures k in BuildSpec.Kids(ExecutionGraph.ShapeOf(plan)[n]) ==> k in Kids(project[n])
  {
    assert n in Elems(plan.order);
    var item, list := ExecutionGraph.ShapeOf(plan)[n], ChildList(project[n]);
    if k in item.steps {
      ChildrenInPlanOrder(project, requested, plan, n, PipelineStep);
      SameMembers(item.steps, Declared(list, PipelineStep));
      DeclaredMember(list, PipelineStep, k);
    } else if k in item.members {
      ChildrenInPlanOrder(project, requested, plan, n, GroupMember);
      SameMembers(item.members, Declared(list, GroupMember));
      DeclaredMember(list, GroupMember, k);
    }
  }

  lemma PlannedIff(project: Project, requested: seq<Name>, plan: Plan, n: Name)
    requires IsPlanFor(project, requested, plan)
    ensures n in plan.targets <==> n in plan.order
  {
    assert n in plan.order <==> n in Elems(plan.order);
  }

  lemma KidRanked(project: Project, requested: seq<Name>, plan: Plan, n: Name, k: Name)
    requires IsPlanFor(project, requested, plan)
    ensures BuildResults.KidFirst(ExecutionGraph.ShapeOf(plan), plan.order, n, k)
  {
    if n in plan.targets && k in BuildSpec.Kids(ExecutionGraph.ShapeOf(plan)[n]) {
      ShapeKids(project, requested, plan, n, k);
      PlannedIff(project, requested, plan, n);
      KidsBefore(project, requested, plan, n, k);
      PlannedIff(project, requested, plan, k);
    }
  }

  lemma RequestedPlanned(project: Project, requested: seq<Name>, plan: Plan, n: Name)
    requires IsPlanFor(project, requested, plan) && n in requested
    ensures n in plan.targets
  {
    ReachRefl(Feeds(project), n);
    assert NeededBy(Feeds(project), n, requested);
    PlannedIff(project, requested, plan, n);
  }

  lemma AllKidsRanked(project: Project, requested: seq<Name>, plan: Plan)
    requires IsPlanFor(project, requested, plan)
    ensures BuildResults.KidsFirst(ExecutionGraph.ShapeOf(plan), plan.order)
  {
    forall n, k
      ensures BuildResults.KidFirst(ExecutionGraph.ShapeOf(plan), plan.order, n, k)
    {
      KidRanked(project, requested, plan, n, k);
    }
  }

  lemma AllRequestedPlanned(project: Project, requested: seq<Name>, plan: Plan)
    requires IsPlanFor(project, requested, plan)
    ensures forall n :: n in requested ==> n in plan.targets
  {
    forall n | n in requested
      ensures n in plan.targets
    {
      RequestedPlanned(project, requested, plan, n);
    }
  }

  lemma ShapeKeys(project: Project, requested: seq<Name>, plan: Plan)
    requires IsPlanFor(project, requested, plan)
    ensures ExecutionGraph.ShapeOf(plan).Keys == Elems(plan.order)
  {
    assert ExecutionGraph.ShapeOf(plan).Keys == plan.targets.Keys;
  }

  /** A plan ranks everything a target names before it. */
  lemma PlanIsRanked(project: Project, requested: seq<Name>, plan: Plan)
    requires IsPlanFor(project, requested, plan)
    ensures BuildResults.Ranked(ExecutionGraph.ShapeOf(plan), plan.order)
  {
    ShapeKeys(project, requested, plan);
    AllKidsRanked(project, requested, plan);
  }

  /** A planned target whose children are declared in plan order, as the graph builder sees it. */
  lemma ItemAsDeclared(project: Project, requested: seq<Name>, plan: Plan, n: Name)
    requires IsPlanFor(project, requested, plan) && n in plan.order
    requires InPlanOrder(plan.order, Declared(ChildList(project[n]), PipelineStep))
    requires InPlanOrder(plan.order, Declared(ChildList(project[n]), GroupMember))
    ensures n in plan.targets && ExecutionGraph.ShapeOf(plan)[n] == BuildSpec.Item(
      project[n].dependsOn, Declared(ChildList(project[n]), PipelineStep), Declared(ChildList(project[n]), GroupMember))
    ensures plan.targets[n].lock == project[n].lock
  {
    PlannedIff(project, requested, plan, n);
    KeptIfInOrder(project, requested, plan, n, PipelineStep);
    KeptIfInOrder(project, requested, plan, n, GroupMember);
  }

  /** Every plan the planner accepts is built. */
  lemma PlanBuilds(project: Project, requested: seq<Name>, plan: Plan)
    requires IsPlanFor(project, requested, plan)
    ensures BuildSpec.Build(ExecutionGraph.ShapeOf(plan), plan.requested).Some?
  {
    PlanIsRanked(project, requested, plan);
    AllRequestedPlanned(project, requested, plan);
    BuildResults.BuildSucceeds(ExecutionGraph.ShapeOf(plan), plan.order, plan.requested);
  }

  /** Planning, then building: building fails on no plan. */
  method PlanAndBuild(project: Project, names: seq<Option<Name>>)
    returns (plan: Option<Plan>, builder: Option<ExecutionGraph.Builder>)
    ensures plan.Some? <==> (exists n :: Some(n) in names) && forall n :: Some(n) in names ==> !Broken(project, n)
    ensures plan.Some? <==> builder.Some?
    ensures plan.Some? ==> IsPlanFor(project, Canonical(names), plan.value)
    ensures plan.Some? ==> Mentions(names, plan.value.requested)
    ensures plan.Some? ==> forall n :: Some(n) in names ==> n in plan.value.order
    ensures plan.Some? ==>
      BuildSpec.Build(ExecutionGraph.ShapeOf(plan.value), plan.value.requested) == Some(builder.value.View())
  {
    plan := BuildPlanForTargets(project, names);
    if plan.None? {
      return None, None;
    }
    var ok, graph := ExecutionGraph.BuildExecutionGraph(plan.value);
    PlanBuilds(project, Canonical(names), plan.value);
    builder := Some(graph);
  }

  // ---- The machine that runs a graph -----------------------------------------------------

  /** An accepted plan with its execution graph. */
  ghost predicate Built(project: Project, requested: seq<Name>, plan: Plan, b: BuildSpec.B) {
    && IsPlanFor(project, requested, plan)
    && BuildSpec.Build(ExecutionGraph.ShapeOf(plan), plan.requested) == Some(b)
  }

  lemma GraphOf(project: Project, requested: seq<Name>, plan: Plan) returns (b: BuildSpec.B)
    requires IsPlanFor(project, requested, plan)
    ensures Built(project, requested, plan, b)
  {
    PlanBuilds(project, requested, plan);
    b := BuildSpec.Build(ExecutionGraph.ShapeOf(plan), plan.requested).value;
  }

  ghost predicate AreMembers(b: BuildSpec.B, r: map<Node, set<Name>>) {
    && r.Keys == b.vertices
    && forall v, p {:trigger (v, p) in b.members} :: v in r ==> (p in r[v] <==> (v, p) in b.members)
  }

  lemma MembersExist(b: BuildSpec.B) returns (r: map<Node, set<Name>>)
    ensures AreMembers(b, r)
  {
    r := map v | v in b.vertices :: set e | e in b.members && e.0 == v :: e.1;
    forall v, p | v in r
      ensures p in r[v] <==> (v, p) in b.members
    {
      assert (v, p) in b.members ==> (v, p).0 == v && (v, p).1 == p;
    }
  }

  ghost function MembersOf(b: BuildSpec.B): (r: map<Node, set<Name>>)
    ensures AreMembers(b, r)
  {
    assert exists r :: AreMembers(b, r) by { var r := MembersExist(b); }
    var r :| AreMembers(b, r);
    r
  }

  /** What the session sees of the plan and the graph. */
  ghost function SystemOf(plan: Plan, b: BuildSpec.B): S.System {
    S.System(
      set n | n in plan.targets && BuildSpec.HasScope(ExecutionGraph.ShapeOf(plan)[n]),
      map n | n in plan.targets :: plan.targets[n].lock,
      MembersOf(b))
  }

  /** Walk is given the whole graph and, for blocked vertices, the session's wait channel. */
  ghost function ConfigOf(plan: Plan, b: BuildSpec.B, parallelism: int): Engine.Config {
    Engine.Config(Walk.Config(b.vertices, b.edges, parallelism, true), SystemOf(plan, b))
  }

  lemma BuiltInv(project: Project, requested: seq<Name>, plan: Plan, b: BuildSpec.B)
    requires Built(project, requested, plan, b)
    ensures BuildInvariant.Inv(ExecutionGraph.ShapeOf(plan), b, {})
    ensures forall n :: n in requested ==> n in b.closed
  {
    BuildResults.BuildKeeps(ExecutionGraph.ShapeOf(plan), plan.requested);
  }

  /** Every child is a step or a member, as it is for the built-in target types. A child of another
      kind is planned but takes no part in the graph. */
  ghost predicate KnownKinds(project: Project) {
    forall n, ch :: n in project && ch in ChildList(project[n]) ==> ch.kind != OtherKind
  }

  lemma {:induction false} DeclaredHas(list: seq<Child>, ch: Child)
    requires ch in list
    ensures ch.target in Declared(list, ch.kind)
  {
    var init, last := list[..|list| - 1], list[|list| - 1];
    if last != ch {
      InitLast(list);
      DeclaredHas(init, ch);
    }
  }

  lemma KidsInShape(project: Project, requested: seq<Name>, plan: Plan, n: Name, k: Name)
    requires IsPlanFor(project, requested, plan) && KnownKinds(project)
    requires n in plan.targets && k in Kids(project[n])
    ensures k in BuildSpec.Kids(ExecutionGraph.ShapeOf(plan)[n])
  {
    assert n in Elems(plan.order);
    var list := ChildList(project[n]);
    if k !in project[n].dependsOn {
      var i :| 0 <= i < |list| && ChildNames(list)[i] == k;
      assert list[i] in list;
      DeclaredHas(list, list[i]);
      ChildrenInPlanOrder(project, requested, plan, n, list[i].kind);
      SameMembers(Select(plan.compositeEdges, n, list[i].kind), Declared(list, list[i].kind));
    }
  }

  /** The graph holds exactly the planned targets. */
  lemma EveryTargetBuilt(project: Project, requested: seq<Name>, plan: Plan, b: BuildSpec.B, n: Name)
    requires Built(project, requested, plan, b) && KnownKinds(project)
    ensures n in b.closed <==> n in plan.order
    ensures Target(n) in b.vertices <==> n in plan.order
  {
    var t := ExecutionGraph.ShapeOf(plan);
    BuiltInv(project, requested, plan, b);
    if n in plan.order {
      var r :| r in requested && Reach(Feeds(project), n, r);
      NeedsBuilt(project, requested, plan, b, n, r);
      assert BuildInvariant.Finished(t, b, n);
    }
    if Target(n) in b.vertices {
      assert BuildInvariant.Known(t, b.closed, Target(n));
    }
    assert n in b.closed ==> n in Elems(plan.order);
  }

  /** Whatever a built target needs is built. */
  lemma NeedsBuilt(project: Project, requested: seq<Name>, plan: Plan, b: BuildSpec.B, x: Name, n: Name)
    requires Built(project, requested, plan, b) && KnownKinds(project) && n in b.closed && Reach(Feeds(project), x, n)
    ensures x in b.closed
  {
    BuiltInv(project, requested, plan, b);
    forall u, v | (u, v) in Feeds(project) && v in b.closed
      ensures u in b.closed
    {
      KidsInShape(project, requested, plan, v, u);
    }
    ReachComesFrom(Feeds(project), b.closed, x, n);
  }

  // ---- The graph suits the engine ------------------------------------------------------------

  lemma BuiltIsOrdered(project: Project, requested: seq<Name>, plan: Plan)
    requires IsPlanFor(project, requested, plan)
    ensures Acyclic(BuildSpec.Feeds(ExecutionGraph.ShapeOf(plan)))
  {
    var t := ExecutionGraph.ShapeOf(plan);
    PlanIsRanked(project, requested, plan);
    forall k, n | (k, n) in BuildSpec.Feeds(t)
      ensures !Reach(BuildSpec.Feeds(t), n, k)
    {
      if Reach(BuildSpec.Feeds(t), n, k) {
        assert BuildResults.KidFirst(t, plan.order, n, k);
        RanksRise(t, plan.order, n, k);
      }
    }
  }

  lemma {:induction false} PathRises(t: BuildSpec.Shape, order: seq<Name>, path: seq<Name>, a: Name, c: Name)
    requires BuildResults.Ranked(t, order) && Joins(BuildSpec.Feeds(t), path, a, c)
    ensures Position(order, a) <= Position(order, c)
    decreases |path|
  {
    if |path| > 1 {
      PathRises(t, order, path[1..], path[1], c);
      assert (a, path[1]) in BuildSpec.Feeds(t) && BuildResults.KidFirst(t, order, path[1], a);
    }
  }

  lemma RanksRise(t: BuildSpec.Shape, order: seq<Name>, a: Name, c: Name)
    requires BuildResults.Ranked(t, order) && Reach(BuildSpec.Feeds(t), a, c)
    ensures Position(order, a) <= Position(order, c)
  {
    var path :| Joins(BuildSpec.Feeds(t), path, a, c);
    PathRises(t, order, path, a, c);
  }

  lemma EdgesWithin(t: BuildSpec.Shape, b: BuildSpec.B)
    requires BuildInvariant.Inv(t, b, {})
    ensures Walk.WellFormed(Walk.Config(b.vertices, b.edges, 0, true))
  {
    forall u, v | (u, v) in b.edges
      ensures u in b.vertices && v in b.vertices && u != v
    {
      ReachRefl(b.edges, v);
    }
  }

  lemma StartHasScope(t: BuildSpec.Shape, b: BuildSpec.B, p: Name)
    requires BuildInvariant.Inv(t, b, {}) && ScopeStart(p) in b.vertices
    ensures p in t && BuildSpec.HasScope(t[p]) && p in b.closed && Reach(b.edges, ScopeStart(p), Target(p))
  {
    assert BuildInvariant.Known(t, b.closed, ScopeStart(p));
    BuildResults.StartPrecedesEnd(t, b, p);
    ReachEdge(b.edges, ScopeStart(p), Target(p));
  }

  lemma ScopeHasStart(t: BuildSpec.Shape, b: BuildSpec.B, p: Name)
    requires BuildInvariant.Inv(t, b, {}) && Target(p) in b.vertices && p in t && BuildSpec.HasScope(t[p])
    ensures ScopeStart(p) in b.vertices
  {
    assert BuildInvariant.Known(t, b.closed, Target(p)) && BuildInvariant.Finished(t, b, p);
  }

  /** What Walk and the session assume of the graph holds of every graph built from a plan. */
  lemma BuiltSuitsEngine(project: Project, requested: seq<Name>, plan: Plan, b: BuildSpec.B, parallelism: int)
    requires Built(project, requested, plan, b)
    ensures EngineLocks.WellFormed(ConfigOf(plan, b, parallelism))
  {
    var t := ExecutionGraph.ShapeOf(plan);
    BuiltInv(project, requested, plan, b);
    EdgesWithin(t, b);
    forall p | ScopeStart(p) in b.vertices
      ensures p in SystemOf(plan, b).scopes && Reach(b.edges, ScopeStart(p), Target(p))
    {
      StartHasScope(t, b, p);
    }
    forall p | p in SystemOf(plan, b).scopes && Target(p) in b.vertices
      ensures ScopeStart(p) in b.vertices
    {
      ScopeHasStart(t, b, p);
    }
  }

  /** Every pipeline ends after everything its steps need. */
  ghost predicate AllEndLast(plan: Plan, b: BuildSpec.B) {
    forall p :: p in plan.targets && p in b.closed ==> BuildResults.EndsLast(ExecutionGraph.ShapeOf(plan), b.edges, p)
  }

  /** What the plan shows of it: the pipeline is the only composite and each of its gaps is bridged, or other
      composites overlap it only as a whole and each step is new when its turn comes. */
  ghost predicate PlannedToEndLast(t: BuildSpec.Shape, p: Name)
    requires p in t
  {
    || t[p].steps == []
    || (BuildInvariant.Alone(t, p) && BuildResults.GapsBridged(t, p))
    || (BuildInvariant.Nested(t, p) && StepsAreNew(t, p))
  }

  ghost predicate StepsAreNew(t: BuildSpec.Shape, p: Name)
    requires p in t
  {
    forall j :: 0 < j < |t[p].steps| ==> t[p].steps[j] !in BuildSpec.Prev(t, p, j)
  }

  lemma PlannedEndsLast(project: Project, requested: seq<Name>, plan: Plan, b: BuildSpec.B, p: Name)
    requires Built(project, requested, plan, b) && p in plan.targets && p in b.closed
    requires PlannedToEndLast(ExecutionGraph.ShapeOf(plan), p)
    ensures BuildResults.EndsLast(ExecutionGraph.ShapeOf(plan), b.edges, p)
  {
    var t := ExecutionGraph.ShapeOf(plan);
    BuiltInv(project, requested, plan, b);
    BuiltIsOrdered(project, requested, plan);
    if BuildInvariant.Alone(t, p) && BuildResults.GapsBridged(t, p) {
      BuildResults.LonePipelineEndsLastIff(t, b, p);
    } else if t[p].steps != [] {
      forall i, x | 0 <= i < |t[p].steps| && x in BuildSpec.Cl(t, t[p].steps[i])
        ensures Reach(b.edges, Target(x), Target(p))
      {
        BuildResults.NestedPipelineEndsLast(t, b, p, i, x);
      }
    }
  }

  /** No composite is a step or member of a composite that declares the same lock. */
  ghost predicate NoSharedNesting(plan: Plan) {
    forall p, q :: p in plan.targets && q in plan.targets
      && q in BuildInvariant.Children(ExecutionGraph.ShapeOf(plan)[p])
      && BuildSpec.HasScope(ExecutionGraph.ShapeOf(plan)[q]) && plan.targets[q].lock != NoLock
      ==> plan.targets[p].lock != plan.targets[q].lock
  }

  lemma MemberPair(plan: Plan, b: BuildSpec.B, v: Node, p: Name)
    requires p in S.MemberScopes(SystemOf(plan, b), v)
    ensures v in b.vertices && (v, p) in b.members
  {
  }

  /** A scope start is a member only of the composites it is a direct child of. */
  lemma StartIsChild(t: BuildSpec.Shape, b: BuildSpec.B, p: Name, q: Name)
    requires BuildInvariant.Inv(t, b, {}) && (ScopeStart(q), p) in b.members && ScopeStart(q) in b.vertices
    ensures p in t && q in t && q in BuildInvariant.Children(t[p]) && BuildSpec.HasScope(t[q])
  {
    assert BuildInvariant.MemberFor(t, b.closed, ScopeStart(q), p);
    assert BuildInvariant.Known(t, b.closed, ScopeStart(q));
  }

  lemma NestingIsExcluded(project: Project, requested: seq<Name>, plan: Plan, b: BuildSpec.B, parallelism: int)
    requires Built(project, requested, plan, b) && NoSharedNesting(plan)
    ensures EngineSafety.NoNestedLock(ConfigOf(plan, b, parallelism))
  {
    var t, sys := ExecutionGraph.ShapeOf(plan), SystemOf(plan, b);
    BuiltInv(project, requested, plan, b);
    forall q, p | p in S.MemberScopes(sys, ScopeStart(q)) && S.LockOf(sys, q) != NoLock
      ensures S.LockOf(sys, p) != S.LockOf(sys, q)
    {
      MemberPair(plan, b, ScopeStart(q), p);
      StartIsChild(t, b, p, q);
    }
  }

  lemma ScopesOutlastMembers(project: Project, requested: seq<Name>, plan: Plan, b: BuildSpec.B, parallelism: int)
    requires Built(project, requested, plan, b) && AllEndLast(plan, b)
    ensures EngineSafety.MembersEnd(ConfigOf(plan, b, parallelism))
  {
    var t, c := ExecutionGraph.ShapeOf(plan), ConfigOf(plan, b, parallelism);
    BuiltInv(project, requested, plan, b);
    BuiltIsOrdered(project, requested, plan);
    forall v, p | v in b.vertices && EngineSafety.SharesLock(c, v, p)
      ensures v != Target(p) && Reach(b.edges, v, Target(p))
    {
      MemberPair(plan, b, v, p);
      assert BuildInvariant.MemberFor(t, b.closed, v, p) && ScopeStart(p) in b.vertices;
      assert BuildInvariant.Known(t, b.closed, ScopeStart(p));
      BuildResults.MembersPrecedeEnd(t, b, p, v.name);
      NotOwnMember(t, b, p, v);
    }
  }

  lemma NotOwnMember(t: BuildSpec.Shape, b: BuildSpec.B, p: Name, v: Node)
    requires Acyclic(BuildSpec.Feeds(t)) && BuildInvariant.MemberFor(t, b.closed, v, p) && v.Target?
    ensures v.name != p
  {
    var kid :| kid in BuildInvariant.Children(t[p]) && BuildInvariant.Enters(t, b.closed, kid, v);
    assert kid in BuildSpec.Kids(t[p]) && (kid, p) in BuildSpec.Feeds(t);
  }

  // ---- What a run of a plan guarantees -----------------------------------------------------------

  /** A run of the engine over the graph of an accepted plan. */
  ghost predicate Runs(project: Project, requested: seq<Name>, plan: Plan, b: BuildSpec.B, parallelism: int,
                       run: seq<Engine.State>)
  {
    Built(project, requested, plan, b) && EngineLocks.IsRun(ConfigOf(plan, b, parallelism), run)
  }

  /** A vertex starts only after Run has returned nil for every vertex that leads to it. */
  lemma StartsAfter(project: Project, requested: seq<Name>, plan: Plan, b: BuildSpec.B, parallelism: int,
                    run: seq<Engine.State>, i: nat, u: Node, v: Node) returns (k: nat)
    requires Runs(project, requested, plan, b, parallelism, run)
    requires Walk.StartsAt(EngineLocks.WalkRun(run), i, v) && Reach(b.edges, u, v) && u != v
    ensures k < i && Walk.ReturnsAt(EngineLocks.WalkRun(run), k, u, true)
  {
    var c := ConfigOf(plan, b, parallelism);
    BuiltSuitsEngine(project, requested, plan, b, parallelism);
    EngineLocks.RunRefinesWalk(c, run);
    k := Walk.StartsAfterAncestors(c.walk, EngineLocks.WalkRun(run), i, v, u);
  }

  /** Dependencies first: a target starts after each target it depends on has succeeded, and so does
      its scope, if it has one. */
  lemma DependenciesFirst(project: Project, requested: seq<Name>, plan: Plan, b: BuildSpec.B, parallelism: int,
                          run: seq<Engine.State>, i: nat, n: Name, d: Name, v: Node) returns (k: nat)
    requires Runs(project, requested, plan, b, parallelism, run)
    requires n in plan.targets && n in b.closed && d in plan.targets[n].dependsOn
    requires v == Target(n) || v == BuildSpec.Root(ExecutionGraph.ShapeOf(plan), n)
    requires Walk.StartsAt(EngineLocks.WalkRun(run), i, v)
    ensures k < i && Walk.ReturnsAt(EngineLocks.WalkRun(run), k, Target(d), true)
  {
    var t := ExecutionGraph.ShapeOf(plan);
    BuiltInv(project, requested, plan, b);
    BuildResults.DependencyPrecedes(t, b, n, d);
    ReachEdge(b.edges, Target(d), v);
    ReachRefl(b.edges, v);
    k := StartsAfter(project, requested, plan, b, parallelism, run, i, Target(d), v);
  }

  /** A group's own vertex starts only after everything its members need has succeeded. */
  lemma GroupRunsLast(project: Project, requested: seq<Name>, plan: Plan, b: BuildSpec.B, parallelism: int,
                      run: seq<Engine.State>, i: nat, g: Name, m: Name, x: Name) returns (k: nat)
    requires Runs(project, requested, plan, b, parallelism, run) && g in plan.targets && g in b.closed
    requires m in ExecutionGraph.ShapeOf(plan)[g].members && x in BuildSpec.Cl(ExecutionGraph.ShapeOf(plan), m)
    requires Walk.StartsAt(EngineLocks.WalkRun(run), i, Target(g))
    ensures k < i && Walk.ReturnsAt(EngineLocks.WalkRun(run), k, Target(x), true)
  {
    var t := ExecutionGraph.ShapeOf(plan);
    BuiltInv(project, requested, plan, b);
    BuildResults.GroupWaitsForMembers(t, b, g, m, x);
    ReachEdge(b.edges, Target(x), Target(g));
    ReachRefl(b.edges, Target(g));
    k := StartsAfter(project, requested, plan, b, parallelism, run, i, Target(x), Target(g));
  }

  /** A pipeline that other composites overlap only as a whole runs its steps one after another: what
      step s needs for the first time starts after everything step s - 1 needs has succeeded. */
  lemma StepsRunInTurn(project: Project, requested: seq<Name>, plan: Plan, b: BuildSpec.B, parallelism: int,
                       run: seq<Engine.State>, i: nat, p: Name, s: nat, y: Name, x: Name) returns (k: nat)
    requires Runs(project, requested, plan, b, parallelism, run) && p in plan.targets && p in b.closed
    requires var t := ExecutionGraph.ShapeOf(plan);
      && BuildInvariant.Nested(t, p) && 0 < s < |t[p].steps|
      && y in BuildSpec.Cl(t, t[p].steps[s - 1]) && x in BuildSpec.Cl(t, t[p].steps[s])
      && (forall d :: d in t[p].deps ==> x !in BuildSpec.Cl(t, d))
      && forall r :: 0 <= r < s ==> x !in BuildSpec.Cl(t, t[p].steps[r])
    requires Walk.StartsAt(EngineLocks.WalkRun(run), i, Target(x))
    ensures k < i && Walk.ReturnsAt(EngineLocks.WalkRun(run), k, Target(y), true)
  {
    var t := ExecutionGraph.ShapeOf(plan);
    BuiltInv(project, requested, plan, b);
    NotInPrev(t, p, s, x);
    BuildResults.StepsInSequence(t, b, p, s, y, x);
    StepInPast(t, p, s, y);
    k := StartsAfter(project, requested, plan, b, parallelism, run, i, Target(y), Target(x));
  }

  lemma NotInPrev(t: BuildSpec.Shape, p: Name, s: nat, x: Name)
    requires p in t && s <= |t[p].steps|
    requires forall d :: d in t[p].deps ==> x !in BuildSpec.Cl(t, d)
    requires forall r :: 0 <= r < s ==> x !in BuildSpec.Cl(t, t[p].steps[r])
    ensures x !in BuildSpec.Prev(t, p, s)
  {
    BuildInvariant.InClosures(t, t[p].deps, x);
    BuildInvariant.InClosures(t, t[p].steps[..s], x);
  }

  lemma StepInPast(t: BuildSpec.Shape, p: Name, s: nat, y: Name)
    requires p in t && 0 < s <= |t[p].steps| && y in BuildSpec.Cl(t, t[p].steps[s - 1])
    ensures y in BuildSpec.Prev(t, p, s)
  {
    BuildSafety.StepInPrev(t, p, s, s - 1, y);
  }

  /** The body of a target without steps and members, which declares the lock, is at work. */
  ghost predicate AtWork(plan: Plan, e: Engine.State, n: Name, lock: Lock) {
    && n in plan.targets && plan.targets[n].lock == lock && lock != NoLock
    && ExecutionGraph.ShapeOf(plan)[n].steps == [] && ExecutionGraph.ShapeOf(plan)[n].members == []
    && Target(n) in e.stage && e.stage[Target(n)] == Engine.Running
  }

  lemma WorksUnderItsLock(plan: Plan, b: BuildSpec.B, parallelism: int, e: Engine.State, n: Name, lock: Lock)
    requires AtWork(plan, e, n, lock)
    ensures EngineSafety.WorksUnder(ConfigOf(plan, b, parallelism), e, Target(n), lock)
  {
  }

  /** Two targets with the same lock never work at the same time, except inside one open scope that
      holds the lock, provided no composite is nested directly in one with its lock and every pipeline
      ends last. */
  lemma LocksExclude(project: Project, requested: seq<Name>, plan: Plan, b: BuildSpec.B, parallelism: int,
                     run: seq<Engine.State>, i: nat, m: Name, n: Name, lock: Lock) returns (p: Name)
    requires Runs(project, requested, plan, b, parallelism, run) && i < |run|
    requires NoSharedNesting(plan) && AllEndLast(plan, b)
    requires m != n && AtWork(plan, run[i], m, lock) && AtWork(plan, run[i], n, lock)
    ensures p in run[i].ses.scopes && p in plan.targets && plan.targets[p].lock == lock
    ensures (Target(m), p) in b.members && (Target(n), p) in b.members
  {
    var c := ConfigOf(plan, b, parallelism);
    BuiltSuitsEngine(project, requested, plan, b, parallelism);
    NestingIsExcluded(project, requested, plan, b, parallelism);
    ScopesOutlastMembers(project, requested, plan, b, parallelism);
    WorksUnderItsLock(plan, b, parallelism, run[i], m, lock);
    WorksUnderItsLock(plan, b, parallelism, run[i], n, lock);
    p := EngineSafety.MutualExclusion(c, run, i, Target(m), Target(n), lock);
    MemberPair(plan, b, Target(m), p);
    MemberPair(plan, b, Target(n), p);
  }

  /** ... and so in every run of a plan whose pipelines are planned to end last. A plan without pipelines is one. */
  lemma PlannedLocksExclude(project: Project, requested: seq<Name>, plan: Plan, b: BuildSpec.B, parallelism: int,
                            run: seq<Engine.State>, i: nat, m: Name, n: Name, lock: Lock) returns (p: Name)
    requires Runs(project, requested, plan, b, parallelism, run) && i < |run| && NoSharedNesting(plan)
    requires forall q :: q in plan.targets ==> PlannedToEndLast(ExecutionGraph.ShapeOf(plan), q)
    requires m != n && AtWork(plan, run[i], m, lock) && AtWork(plan, run[i], n, lock)
    ensures p in run[i].ses.scopes && p in plan.targets && plan.targets[p].lock == lock
    ensures (Target(m), p) in b.members && (Target(n), p) in b.members
  {
    forall q | q in plan.targets && q in b.closed
      ensures BuildResults.EndsLast(ExecutionGraph.ShapeOf(plan), b.edges, q)
    {
      PlannedEndsLast(project, requested, plan, b, q);
    }
    p := LocksExclude(project, requested, plan, b, parallelism, run, i, m, n, lock);
  }

  /** When runExecutionGraph is done, nothing is reserved, and closing the open scopes frees every
      lock; on success every planned target has run and succeeded. */
  lemma RunEnds(project: Project, requested: seq<Name>, plan: Plan, b: BuildSpec.B, parallelism: int,
                run: seq<Engine.State>, i: nat)
    requires Runs(project, requested, plan, b, parallelism, run) && KnownKinds(project)
    requires i < |run| && run[i].walk.pc.Returned?
    ensures run[i].ses.reserved == map[]
    ensures forall lock :: lock in run[i].ses.held ==>
      exists p :: p in run[i].ses.scopes && p in plan.targets && plan.targets[p].lock == lock
    ensures run[i].walk.workers == map[] && run[i].walk.pc.outcome != Walk.NoProgress
    ensures run[i].walk.pc.outcome.Success? ==> forall n :: n in plan.order ==> Target(n) in run[i].walk.succeeded
  {
    var c := ConfigOf(plan, b, parallelism);
    BuiltSuitsEngine(project, requested, plan, b, parallelism);
    EngineLocks.NothingLeftHeld(c, run, i);
    EngineLocks.RunInv(c, run, i);
    forall lock | lock in run[i].ses.held
      ensures exists p :: p in run[i].ses.scopes && p in plan.targets && plan.targets[p].lock == lock
    {
      EngineLocks.OnlyScopesBlockIdleWalk(c, run[i], lock);
      var p :| p in run[i].ses.scopes && S.LockOf(c.sys, p) == lock;
    }
    EngineLocks.RunRefinesWalk(c, run);
    Walk.WalkResults(c.walk, EngineLocks.WalkRun(run), i);
    forall n | n in plan.order
      ensures Target(n) in b.vertices
    {
      EveryTargetBuilt(project, requested, plan, b, n);
    }
  }

  /** If only leaf targets declare locks, Walk never waits with nothing running. */
  lemma LeafLocksAlwaysProgress(project: Project, requested: seq<Name>, plan: Plan, b: BuildSpec.B, parallelism: int,
                                run: seq<Engine.State>, i: nat)
    requires Runs(project, requested, plan, b, parallelism, run) && i < |run|
    requires forall n :: n in plan.targets && BuildSpec.HasScope(ExecutionGraph.ShapeOf(plan)[n]) ==>
      plan.targets[n].lock == NoLock
    ensures run[i].walk.pc.Wait? ==> run[i].walk.workers != map[]
  {
    var c := ConfigOf(plan, b, parallelism);
    BuiltSuitsEngine(project, requested, plan, b, parallelism);
    EngineSafety.LeafLocksNeverBlockIdleWalk(c, run, i, Nil);
  }
}
