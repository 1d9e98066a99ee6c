/** What planning, building and running promise together, told by the project, the request and what the run does. */
module ProjectLaws {
  import opened Nodes
  import opened Digraph
  import opened Wrappers
  import opened Planner
  import opened EndToEnd
  import BuildInvariant
  import BuildResults
  import BuildSpec
  import Engine
  import EngineLocks
  import ExecutionGraph
  import Outcomes
  import Walk

  // ---- The plan ----------------------------------------------------------------------------

  /** The target names k as a dependency or as a child. */
  ghost predicate Lists(spec: Spec, k: Name) {
    || k in spec.dependsOn
    || (spec.children.Listed? && exists child :: child in spec.children.list && child.target == k)
  }

  ghost predicate Earlier(order: seq<Name>, a: Name, b: Name) {
    exists i, j :: 0 <= i < j < |order| && order[i] == a && order[j] == b
  }

  lemma {:induction false} NamesHas(list: seq<Child>, k: Name)
    ensures k in ChildNames(list) <==> exists child :: child in list && child.target == k
  {
    if list != [] {
      var init, last := list[..|list| - 1], list[|list| - 1];
      InitLast(list);
      NamesHas(init, k);
      if child :| child in list && child.target == k {
        assert child in init || child == last;
      }
      assert last in list;
    }
  }

  lemma ListsIff(spec: Spec, k: Name)
    requires spec.children.Listed?
    ensures Lists(spec, k) <==> k in Kids(spec)
  {
    NamesHas(spec.children.list, k);
  }

  /** Every target of the plan is one of the project, unchanged; what it names is planned before it. */
  lemma NamedIsPlannedFirst(project: Project, requested: seq<Name>, plan: Plan, n: Name, k: Name)
    requires IsPlanFor(project, requested, plan) && n in plan.order
    ensures n in project && n in plan.targets && plan.targets[n] == project[n]
    ensures Lists(project[n], k) ==> Earlier(plan.order, k, n)
  {
    PlannedIff(project, requested, plan, n);
    ListsIff(project[n], k);
    if Lists(project[n], k) {
      KidsBefore(project, requested, plan, n, k);
      assert plan.order[Position(plan.order, k)] == k && plan.order[Position(plan.order, n)] == n;
    }
  }

  /** Exactly what was requested, or is named by something planned, is planned. */
  lemma PlannedOnlyIfNamed(project: Project, requested: seq<Name>, plan: Plan, n: Name)
    requires IsPlanFor(project, requested, plan)
    ensures n in plan.order <==> n in requested || exists m :: m in plan.order && Lists(project[m], n)
  {
    if n in plan.order && n !in requested {
      var r :| r in requested && Reach(Feeds(project), n, r);
      var m := ReachFirst(Feeds(project), n, r);
      assert m in plan.order;
      PlannedIff(project, requested, plan, m);
      ListsIff(project[m], n);
    }
    if n in requested {
      RequestedIsPlanned(project, requested, plan, n);
    }
    if m :| m in plan.order && Lists(project[m], n) {
      NamedIsPlannedFirst(project, requested, plan, m, n);
    }
  }

  // ---- The run -----------------------------------------------------------------------------

  /** What starts belongs to a planned target whose part of the graph is complete. */
  lemma StartedIsClosed(project: Project, requested: seq<Name>, plan: Plan, b: BuildSpec.B, parallelism: int,
                        run: seq<Engine.State>, i: nat, v: Node)
    requires Runs(project, requested, plan, b, parallelism, run) && Walk.StartsAt(EngineLocks.WalkRun(run), i, v)
    requires v.Target? || v.ScopeStart?
    ensures v.name in b.closed && v.name in plan.targets && v.name in plan.order
    ensures v == Target(v.name) || v == BuildSpec.Root(ExecutionGraph.ShapeOf(plan), v.name)
  {
    var c, t := ConfigOf(plan, b, parallelism), ExecutionGraph.ShapeOf(plan);
    BuiltSuitsEngine(project, requested, plan, b, parallelism);
    EngineLocks.RunRefinesWalk(c, run);
    Walk.StartFacts(c.walk, EngineLocks.WalkRun(run), i, v);
    BuiltInv(project, requested, plan, b);
    assert BuildInvariant.Known(t, b.closed, v);
    PlannedIff(project, requested, plan, v.name);
  }

  /** A target starts, and its scope opens, only after every target that it depends on has succeeded. */
  lemma DependenciesRunFirst(project: Project, requested: seq<Name>, plan: Plan, b: BuildSpec.B, parallelism: int,
                             run: seq<Engine.State>, i: nat, n: Name, d: Name, v: Node) returns (k: nat)
    requires Runs(project, requested, plan, b, parallelism, run) && n in project && d in project[n].dependsOn
    requires (v == Target(n) || v == ScopeStart(n)) && Walk.StartsAt(EngineLocks.WalkRun(run), i, v)
    ensures k < i && Walk.ReturnsAt(EngineLocks.WalkRun(run), k, Target(d), true)
  {
    StartedIsClosed(project, requested, plan, b, parallelism, run, i, v);
    NamedIsPlannedFirst(project, requested, plan, n, d);
    k := DependenciesFirst(project, requested, plan, b, parallelism, run, i, n, d, v);
  }

  lemma ChildInShape(project: Project, requested: seq<Name>, plan: Plan, n: Name, m: Name, kind: Kind)
    requires IsPlanFor(project, requested, plan) && n in plan.order && kind != OtherKind
    requires Child(m, kind) in ChildList(project[n])
    ensures n in plan.targets
    ensures kind == GroupMember ==> m in ExecutionGraph.ShapeOf(plan)[n].members
    ensures kind == PipelineStep ==> m in ExecutionGraph.ShapeOf(plan)[n].steps
  {
    PlannedIff(project, requested, plan, n);
    ChildrenInPlanOrder(project, requested, plan, n, kind);
    SameMembers(Select(plan.compositeEdges, n, kind), Declared(ChildList(project[n]), kind));
    DeclaredHas(ChildList(project[n]), Child(m, kind));
  }

  /** A group starts only after every member has succeeded. */
  lemma MembersRunFirst(project: Project, requested: seq<Name>, plan: Plan, b: BuildSpec.B, parallelism: int,
                        run: seq<Engine.State>, i: nat, g: Name, m: Name, children: seq<Child>) returns (k: nat)
    requires Runs(project, requested, plan, b, parallelism, run) && g in project
    requires project[g].children == Listed(children) && Child(m, GroupMember) in children
    requires Walk.StartsAt(EngineLocks.WalkRun(run), i, Target(g))
    ensures k < i && Walk.ReturnsAt(EngineLocks.WalkRun(run), k, Target(m), true)
  {
    StartedIsClosed(project, requested, plan, b, parallelism, run, i, Target(g));
    ChildInShape(project, requested, plan, g, m, GroupMember);
    BuildInvariant.ClSelf(ExecutionGraph.ShapeOf(plan), m);
    k := GroupRunsLast(project, requested, plan, b, parallelism, run, i, g, m, m);
  }

  /** So does a pipeline with its steps, if the plan shows that it ends last. */
  lemma StepsRunFirst(project: Project, requested: seq<Name>, plan: Plan, b: BuildSpec.B, parallelism: int,
                      run: seq<Engine.State>, i: nat, p: Name, s: Name, children: seq<Child>) returns (k: nat)
    requires Runs(project, requested, plan, b, parallelism, run) && p in project
    requires project[p].children == Listed(children) && Child(s, PipelineStep) in children
    requires Walk.StartsAt(EngineLocks.WalkRun(run), i, Target(p))
    requires p in plan.targets ==> PlannedToEndLast(ExecutionGraph.ShapeOf(plan), p)
    ensures k < i && Walk.ReturnsAt(EngineLocks.WalkRun(run), k, Target(s), true)
  {
    var t := ExecutionGraph.ShapeOf(plan);
    StartedIsClosed(project, requested, plan, b, parallelism, run, i, Target(p));
    ChildInShape(project, requested, plan, p, s, PipelineStep);
    PlannedEndsLast(project, requested, plan, b, p);
    BuildInvariant.ClSelf(t, s);
    var j :| 0 <= j < |t[p].steps| && t[p].steps[j] == s;
    assert s in BuildSpec.Cl(t, t[p].steps[j]);
    NamedIsPlannedFirst(project, requested, plan, p, s);
    NotItself(project, requested, plan, p, s);
    k := StartsAfter(project, requested, plan, b, parallelism, run, i, Target(s), Target(p));
  }

  lemma NotItself(project: Project, requested: seq<Name>, plan: Plan, p: Name, s: Name)
    requires IsPlanFor(project, requested, plan) && p in plan.order && p in project && Lists(project[p], s)
    ensures s != p
  {
    PlannedIff(project, requested, plan, p);
    ListsIff(project[p], s);
    KidsBefore(project, requested, plan, p, s);
  }

  /** On success every planned target has run and returned nil; at no time do more callbacks run than asked for. */
  lemma SuccessRunsAll(project: Project, requested: seq<Name>, plan: Plan, b: BuildSpec.B, parallelism: int,
                       run: seq<Engine.State>, i: nat, n: Name) returns (k: nat)
    requires Runs(project, requested, plan, b, parallelism, run) && KnownKinds(project) && i < |run|
    requires run[i].walk.pc == Walk.Returned(Walk.Success) && n in plan.order
    ensures k <= i && Walk.ReturnsAt(EngineLocks.WalkRun(run), k, Target(n), true)
  {
    RunEnds(project, requested, plan, b, parallelism, run, i);
    k := Outcomes.SuccessReturned(ConfigOf(plan, b, parallelism), run, i, Target(n));
  }

  lemma WorkersWithinLimit(project: Project, requested: seq<Name>, plan: Plan, b: BuildSpec.B, parallelism: int,
                           run: seq<Engine.State>, i: nat)
    requires Runs(project, requested, plan, b, parallelism, run) && i < |run|
    ensures |run[i].walk.workers| <= if parallelism <= 0 then 1 else parallelism
  {
    var c := ConfigOf(plan, b, parallelism);
    BuiltSuitsEngine(project, requested, plan, b, parallelism);
    EngineLocks.RunRefinesWalk(c, run);
    Walk.WalkResults(c.walk, EngineLocks.WalkRun(run), i);
  }

  /** When a target's body fails, nothing that depends on it starts or opens, nor any group it is a member of, and the
      run can only return an error. */
  lemma FailureStops(project: Project, requested: seq<Name>, plan: Plan, b: BuildSpec.B, parallelism: int,
                     run: seq<Engine.State>, j: nat, i: nat, d: Name, n: Name, v: Node)
    requires Runs(project, requested, plan, b, parallelism, run) && i < |run| && n in project
    requires Outcomes.BodyEndsAt(ConfigOf(plan, b, parallelism), run, j, Target(d), false)
    ensures d in project[n].dependsOn && (v == Target(n) || v == ScopeStart(n)) ==>
      !Walk.StartsAt(EngineLocks.WalkRun(run), i, v)
    ensures project[n].children.Listed? && Child(d, GroupMember) in project[n].children.list ==>
      !Walk.StartsAt(EngineLocks.WalkRun(run), i, Target(n))
    ensures j < i && run[i].walk.pc.Returned? ==> run[i].walk.pc.outcome.Failed?
  {
    var c := ConfigOf(plan, b, parallelism);
    BuiltSuitsEngine(project, requested, plan, b, parallelism);
    if d in project[n].dependsOn && (v == Target(n) || v == ScopeStart(n)) && Walk.StartsAt(EngineLocks.WalkRun(run), i, v) {
      var k := DependenciesRunFirst(project, requested, plan, b, parallelism, run, i, n, d, v);
      Outcomes.BodyDecides(c, run, j, k, Target(d), false);
    }
    if project[n].children.Listed? && Child(d, GroupMember) in project[n].children.list
      && Walk.StartsAt(EngineLocks.WalkRun(run), i, Target(n)) {
      var k := MembersRunFirst(project, requested, plan, b, parallelism, run, i, n, d, project[n].children.list);
      Outcomes.BodyDecides(c, run, j, k, Target(d), false);
    }
    if j < i && run[i].walk.pc.Returned? {
      Outcomes.FailureIsReturned(c, run, j, i, Target(d));
    }
  }
}
