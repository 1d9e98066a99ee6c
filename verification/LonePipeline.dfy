/** Plans whose only composite is one pipeline: which sequence edges the graph builder
    (internal/runner/execution_graph.go) keeps, and when the pipeline ends after all of its steps. */
module LonePipeline {
  import opened Nodes
  import opened Digraph
  import opened Wrappers
  import opened Planner
  import opened EndToEnd
  import BuildSpec
  import BuildInvariant
  import BuildResults
  import Dag
  import Engine
  import EngineLocks
  import ExecutionGraph
  import PlanOrder
  import Walk

  /** p is the only composite of the plan and declares each of its steps once. */
  ghost predicate OnlyPipeline(project: Project, plan: Plan, p: Name) {
    var t := ExecutionGraph.ShapeOf(plan);
    && p in plan.targets && p in project && t[p].members == []
    && (forall q :: q in t && q != p ==> !BuildSpec.HasScope(t[q]))
    && Distinct(Declared(ChildList(project[p]), PipelineStep))
  }

  /** Steps are listed in plan order, so none is needed by an earlier one. */
  lemma OnlyPipelineIsAlone(project: Project, requested: seq<Name>, plan: Plan, p: Name)
    requires IsPlanFor(project, requested, plan) && OnlyPipeline(project, plan, p)
    ensures BuildInvariant.Alone(ExecutionGraph.ShapeOf(plan), p)
  {
    var t := ExecutionGraph.ShapeOf(plan);
    var steps := t[p].steps;
    PlannedIff(project, requested, plan, p);
    ChildrenInPlanOrder(project, requested, plan, p, PipelineStep);
    Dag.DistinctPermutation(Declared(ChildList(project[p]), PipelineStep), steps);
    PlanIsRanked(project, requested, plan);
    forall i, j | 0 <= j < i < |steps|
      ensures steps[i] !in BuildSpec.Cl(t, steps[j])
    {
      LaterStepNotNeeded(t, plan.order, p, i, j);
    }
  }

  lemma LaterStepNotNeeded(t: BuildSpec.Shape, order: seq<Name>, p: Name, i: nat, j: nat)
    requires BuildResults.Ranked(t, order) && p in t && j < i < |t[p].steps|
    requires Distinct(t[p].steps) && InPlanOrder(order, t[p].steps)
    ensures t[p].steps[i] !in BuildSpec.Cl(t, t[p].steps[j])
  {
    var s, r := t[p].steps[i], t[p].steps[j];
    assert s in BuildSpec.Kids(t[p]) && r in BuildSpec.Kids(t[p]);
    assert BuildResults.KidFirst(t, order, p, s) && BuildResults.KidFirst(t, order, p, r);
    assert s in Elems(order) && r in Elems(order);
    if Reach(BuildSpec.Feeds(t), s, r) {
      RanksRise(t, order, s, r);
    }
  }

  /** In such a plan no sequence edge is suppressed exactly when no step that the pipeline's dependencies
      already need comes right after one that they do not. */
  lemma OnlyPipelineSequenceIff(project: Project, requested: seq<Name>, plan: Plan, b: BuildSpec.B, p: Name)
    requires Built(project, requested, plan, b) && OnlyPipeline(project, plan, p) && p in b.closed
    ensures var t := ExecutionGraph.ShapeOf(plan);
      BuildResults.NoneSuppressed(t, b.edges, p) <==>
        forall i :: 0 < i < |t[p].steps| && BuildResults.Stale(t, p, i) ==> BuildResults.Stale(t, p, i - 1)
  {
    BuiltInv(project, requested, plan, b);
    BuiltIsOrdered(project, requested, plan);
    OnlyPipelineIsAlone(project, requested, plan, p);
    BuildResults.LoneSequenceIff(ExecutionGraph.ShapeOf(plan), b, p);
  }

  /** The pipeline's own vertex comes after everything its steps need exactly when, wherever a step that the
      dependencies already need comes right after one that they do not, some later step needs the latter. */
  lemma OnlyPipelineEndsLastIff(project: Project, requested: seq<Name>, plan: Plan, b: BuildSpec.B, p: Name)
    requires Built(project, requested, plan, b) && OnlyPipeline(project, plan, p) && p in b.closed
    ensures var t := ExecutionGraph.ShapeOf(plan);
      BuildResults.EndsLast(t, b.edges, p) <==> BuildResults.GapsBridged(t, p)
  {
    BuiltInv(project, requested, plan, b);
    BuiltIsOrdered(project, requested, plan);
    OnlyPipelineIsAlone(project, requested, plan, p);
    BuildResults.LonePipelineEndsLastIff(ExecutionGraph.ShapeOf(plan), b, p);
  }

  /** Then, in every run, the pipeline's own vertex starts only after everything its steps need has
      succeeded. */
  lemma OnlyPipelineRunsLast(project: Project, requested: seq<Name>, plan: Plan, b: BuildSpec.B, parallelism: int,
                             run: seq<Engine.State>, i: nat, p: Name, s: nat, x: Name) returns (k: nat)
    requires Runs(project, requested, plan, b, parallelism, run) && OnlyPipeline(project, plan, p) && p in b.closed
    requires var t := ExecutionGraph.ShapeOf(plan);
      BuildResults.GapsBridged(t, p) && s < |t[p].steps| && x in BuildSpec.Cl(t, t[p].steps[s])
    requires Walk.StartsAt(EngineLocks.WalkRun(run), i, Target(p))
    ensures k < i && Walk.ReturnsAt(EngineLocks.WalkRun(run), k, Target(x), true)
  {
    var t := ExecutionGraph.ShapeOf(plan);
    OnlyPipelineEndsLastIff(project, requested, plan, b, p);
    BuiltIsOrdered(project, requested, plan);
    StepIsNotPipeline(t, p, s, x);
    k := StartsAfter(project, requested, plan, b, parallelism, run, i, Target(x), Target(p));
  }

  lemma StepIsNotPipeline(t: BuildSpec.Shape, p: Name, s: nat, x: Name)
    requires Acyclic(BuildSpec.Feeds(t)) && p in t && s < |t[p].steps| && x in BuildSpec.Cl(t, t[p].steps[s])
    ensures x != p
  {
    assert t[p].steps[s] in BuildSpec.Kids(t[p]) && (t[p].steps[s], p) in BuildSpec.Feeds(t);
  }

  // ---- Pipelines whose own visit comes to their steps first ----------------------------------------

  /** With known kinds only, planned targets need the same in the project and in the graph builder's view. */
  lemma SameNeeds(project: Project, requested: seq<Name>, plan: Plan, x: Name, n: Name)
    requires IsPlanFor(project, requested, plan) && KnownKinds(project) && n in plan.targets
    ensures Reach(Feeds(project), x, n) <==> Reach(BuildSpec.Feeds(ExecutionGraph.ShapeOf(plan)), x, n)
  {
    var feeds, inShape := Feeds(project), BuildSpec.Feeds(ExecutionGraph.ShapeOf(plan));
    forall u, v | (u, v) in feeds && v in plan.targets.Keys
      ensures (u, v) in inShape && u in plan.targets.Keys
    {
      PlannedIff(project, requested, plan, v);
      PlannedIff(project, requested, plan, u);
      KidsBefore(project, requested, plan, v, u);
      KidsInShape(project, requested, plan, v, u);
    }
    forall u, v | (u, v) in inShape
      ensures (u, v) in feeds && u in plan.targets.Keys
    {
      PlannedIff(project, requested, plan, v);
      PlannedIff(project, requested, plan, u);
      ShapeKids(project, requested, plan, v, u);
      KidsBefore(project, requested, plan, v, u);
    }
    if Reach(feeds, x, n) {
      ReachTransfers(feeds, inShape, plan.targets.Keys, x, n);
    }
    if Reach(inShape, x, n) {
      ReachTransfers(inShape, feeds, plan.targets.Keys, x, n);
    }
  }

  /** A step is stale exactly when, in the project, some dependency of the pipeline needs it. */
  lemma StaleIff(project: Project, requested: seq<Name>, plan: Plan, p: Name, i: nat)
    requires IsPlanFor(project, requested, plan) && KnownKinds(project) && p in plan.targets
    requires i < |ExecutionGraph.ShapeOf(plan)[p].steps|
    ensures var t := ExecutionGraph.ShapeOf(plan);
      BuildResults.Stale(t, p, i) <==> NeededBy(Feeds(project), t[p].steps[i], project[p].dependsOn)
  {
    var t := ExecutionGraph.ShapeOf(plan);
    var x := t[p].steps[i];
    assert p in Elems(plan.order) && t[p].deps == project[p].dependsOn;
    BuildInvariant.InClosures(t, t[p].deps, x);
    forall n | n in t[p].deps
      ensures x in BuildSpec.Cl(t, n) <==> Reach(Feeds(project), x, n)
    {
      KidsBefore(project, requested, plan, p, n);
      PlannedIff(project, requested, plan, n);
      SameNeeds(project, requested, plan, x, n);
    }
  }

  /** No request before p needs a step of p, unless a dependency of p needs it too. */
  ghost predicate NotTakenEarlier(project: Project, requested: seq<Name>, plan: Plan, r: nat)
    requires r < |requested| && requested[r] in plan.targets && requested[r] in project
  {
    var p := requested[r];
    forall x :: x in ExecutionGraph.ShapeOf(plan)[p].steps && NeededBy(Feeds(project), x, requested[..r]) ==>
      NeededBy(Feeds(project), x, project[p].dependsOn)
  }

  lemma StaleComeFirst(project: Project, requested: seq<Name>, plan: Plan, r: nat, i: nat)
    requires IsPlanFor(project, requested, plan) && KnownKinds(project)
    requires r < |requested| && requested[r] in plan.targets && requested[r] in project
    requires NotTakenEarlier(project, requested, plan, r)
    requires 0 < i < |ExecutionGraph.ShapeOf(plan)[requested[r]].steps|
    requires BuildResults.Stale(ExecutionGraph.ShapeOf(plan), requested[r], i)
    ensures BuildResults.Stale(ExecutionGraph.ShapeOf(plan), requested[r], i - 1)
  {
    var t, p := ExecutionGraph.ShapeOf(plan), requested[r];
    var h := i - 1;
    StaleIff(project, requested, plan, p, i);
    StaleIff(project, requested, plan, p, h);
    if !BuildResults.Stale(t, p, h) {
      var x, y := t[p].steps[i], t[p].steps[h];
      StepIsKid(project, requested, plan, p, y);
      PlanOrder.NotNeededEarlier(project, requested, r, y);
      PlanOrder.DependenciesPlannedFirst(project, requested, plan, r, x, y);
      ListedInOrder(project, requested, plan, p, h, i);
      assert false;
    }
  }

  lemma ListedInOrder(project: Project, requested: seq<Name>, plan: Plan, p: Name, h: nat, i: nat)
    requires IsPlanFor(project, requested, plan) && p in plan.targets
    requires h < i < |ExecutionGraph.ShapeOf(plan)[p].steps|
    ensures var steps := ExecutionGraph.ShapeOf(plan)[p].steps;
      Position(plan.order, steps[h]) <= Position(plan.order, steps[i])
  {
    PlannedIff(project, requested, plan, p);
    ChildrenInPlanOrder(project, requested, plan, p, PipelineStep);
  }

  lemma StepIsKid(project: Project, requested: seq<Name>, plan: Plan, p: Name, y: Name)
    requires IsPlanFor(project, requested, plan) && p in plan.targets
    requires y in ExecutionGraph.ShapeOf(plan)[p].steps
    ensures p in project && (y, p) in Feeds(project) && y in plan.order
  {
    PlannedIff(project, requested, plan, p);
    ShapeKids(project, requested, plan, p, y);
    KidsBefore(project, requested, plan, p, y);
  }

  /** If nothing requested before the pipeline needs a step that its dependencies do not need, no sequence
      edge is suppressed and the pipeline ends last. The first request always qualifies. */
  lemma FirstRequestKeepsSequence(project: Project, requested: seq<Name>, plan: Plan, b: BuildSpec.B, r: nat)
    requires Built(project, requested, plan, b) && KnownKinds(project)
    requires r < |requested| && OnlyPipeline(project, plan, requested[r])
    requires r == 0 || NotTakenEarlier(project, requested, plan, r)
    ensures var t := ExecutionGraph.ShapeOf(plan);
      && BuildResults.NoneSuppressed(t, b.edges, requested[r])
      && BuildResults.EndsLast(t, b.edges, requested[r])
  {
    var t, p := ExecutionGraph.ShapeOf(plan), requested[r];
    BuiltInv(project, requested, plan, b);
    BuiltIsOrdered(project, requested, plan);
    OnlyPipelineIsAlone(project, requested, plan, p);
    assert NotTakenEarlier(project, requested, plan, r);
    forall i | 0 < i < |t[p].steps| && BuildResults.Stale(t, p, i)
      ensures BuildResults.Stale(t, p, i - 1)
    {
      StaleComeFirst(project, requested, plan, r, i);
    }
    BuildResults.StaleFirstEndsLast(t, b, p);
  }
}
