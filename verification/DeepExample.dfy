/** A project with a group two levels inside a group with the same lock: it is planned and built, and no run of it
    succeeds. */
module DeepExample {
  import opened Nodes
  import opened Digraph
  import opened Wrappers
  import opened Planner
  import opened EndToEnd
  import opened NestedExample
  import BuildInvariant
  import BuildSpec
  import Engine
  import ExecutionGraph
  import NestedPlans
  import PlanOrder
  import Walk

  const MIDDLE := Name(2)
  const TOP := Name(3)

  /** TOP has the member MIDDLE, MIDDLE has the member INNER, INNER has the member LEAF. */
  function DeepProject(): Project {
    map[LEAF := Bare(NoLock), INNER := Group([LEAF], LOCK), MIDDLE := Group([INNER], NoLock), TOP := Group([MIDDLE], LOCK)]
  }

  /** How the four targets are declared. */
  ghost predicate IsDeep(project: Project) {
    && {LEAF, INNER, MIDDLE, TOP} <= project.Keys && project[LEAF] == Bare(NoLock)
    && project[INNER] == Group([LEAF], LOCK) && project[MIDDLE] == Group([INNER], NoLock)
    && project[TOP] == Group([MIDDLE], LOCK)
  }

  lemma DeepIsDeep()
    ensures IsDeep(DeepProject())
  {
  }

  /** A group with one member that is visited without trouble. */
  lemma OneMember(project: Project, visiting: set<Name>, name: Name, member: Name, lock: Lock, order: seq<Name>)
    requires name !in visiting && name in project && project[name] == Group([member], lock)
    requires OrderOne(project, [], visiting + {name}, member) == Some(order)
    ensures OrderOne(project, [], visiting, name) == Some(order + [name])
  {
    PlanOrder.NextVisit(project, [], visiting + {name}, [member], 0, []);
    GroupVisit(project, [], visiting, name, lock, [member], order);
  }

  lemma {:induction false} DeepOrder(project: Project, inTop: set<Name>, inMiddle: set<Name>, inInner: set<Name>)
    requires IsDeep(project)
    requires inTop == {} + {TOP} && inMiddle == inTop + {MIDDLE} && inInner == inMiddle + {INNER}
    ensures OrderOne(project, [], {}, TOP) == Some([] + [LEAF] + [INNER] + [MIDDLE] + [TOP])
  {
    PlanOrder.LeafVisit(project, [], inInner, LEAF);
    OneMember(project, inMiddle, INNER, LEAF, LOCK, [] + [LEAF]);
    OneMember(project, inTop, MIDDLE, INNER, NoLock, [] + [LEAF] + [INNER]);
    OneMember(project, {}, TOP, MIDDLE, LOCK, [] + [LEAF] + [INNER] + [MIDDLE]);
  }

  lemma DeepRequested(project: Project, order: seq<Name>)
    requires IsDeep(project) && order == [] + [LEAF] + [INNER] + [MIDDLE] + [TOP]
    ensures OrderAll(project, [], {}, [TOP], 1) == Some(order)
  {
    DeepOrder(project, {} + {TOP}, {} + {TOP} + {MIDDLE}, {} + {TOP} + {MIDDLE} + {INNER});
    PlanOrder.NextVisit(project, [], {}, [TOP], 0, []);
  }

  lemma DeepPlan(project: Project) returns (plan: Plan, g: BuildSpec.B)
    requires IsDeep(project)
    ensures Built(project, [TOP], plan, g)
  {
    var order := [] + [LEAF] + [INNER] + [MIDDLE] + [TOP];
    DeepRequested(project, order);
    plan := PlanOrder.PlanExists(project, [TOP], order);
    g := GraphOf(project, [TOP], plan);
  }

  // ---- The graph builder's view -------------------------------------------------------------

  function DeepShape(): BuildSpec.Shape {
    map[LEAF := BuildSpec.Item([], [], []), INNER := BuildSpec.Item([], [], [LEAF]),
        MIDDLE := BuildSpec.Item([], [], [INNER]), TOP := BuildSpec.Item([], [], [MIDDLE])]
  }

  lemma DeepElems(order: seq<Name>)
    requires order == [] + [LEAF] + [INNER] + [MIDDLE] + [TOP]
    ensures Elems(order) == {LEAF, INNER, MIDDLE, TOP}
  {
    assert order[0] == LEAF && order[1] == INNER && order[2] == MIDDLE && order[3] == TOP;
  }

  lemma DeepIsPlanned(project: Project, requested: seq<Name>, plan: Plan, order: seq<Name>)
    requires IsPlanFor(project, requested, plan) && OrderAll(project, [], {}, requested, |requested|) == Some(order)
    ensures plan.order == order
  {
  }

  lemma OneMemberItem(project: Project, requested: seq<Name>, plan: Plan, n: Name, member: Name, lock: Lock)
    requires IsPlanFor(project, requested, plan) && n in plan.order && project[n] == Group([member], lock)
    ensures n in plan.targets && plan.targets[n].lock == lock
    ensures ExecutionGraph.ShapeOf(plan)[n] == BuildSpec.Item([], [], [member])
  {
    assert InPlanOrder(plan.order, [member]);
    GroupItem(project, requested, plan, n, [member]);
  }

  lemma IsDeepShape(t: BuildSpec.Shape)
    requires t.Keys == {LEAF, INNER, MIDDLE, TOP} && t[LEAF] == BuildSpec.Item([], [], [])
    requires t[INNER] == BuildSpec.Item([], [], [LEAF]) && t[MIDDLE] == BuildSpec.Item([], [], [INNER])
    requires t[TOP] == BuildSpec.Item([], [], [MIDDLE])
    ensures t == DeepShape()
  {
  }

  lemma DeepShapeOf(project: Project, requested: seq<Name>, plan: Plan)
    requires IsDeep(project) && IsPlanFor(project, requested, plan) && Elems(plan.order) == {LEAF, INNER, MIDDLE, TOP}
    ensures ExecutionGraph.ShapeOf(plan) == DeepShape() && plan.targets.Keys == {LEAF, INNER, MIDDLE, TOP}
    ensures plan.targets[TOP].lock == LOCK && plan.targets[MIDDLE].lock == NoLock
    ensures plan.targets[INNER].lock == LOCK && plan.targets[LEAF].lock == NoLock
  {
    ShapeKeys(project, requested, plan);
    assert {LEAF, INNER, MIDDLE, TOP} <= Elems(plan.order);
    BareItem(project, requested, plan, LEAF);
    OneMemberItem(project, requested, plan, INNER, LEAF, LOCK);
    OneMemberItem(project, requested, plan, MIDDLE, INNER, NoLock);
    OneMemberItem(project, requested, plan, TOP, MIDDLE, LOCK);
    IsDeepShape(ExecutionGraph.ShapeOf(plan));
  }

  lemma DeepShapeFacts()
    ensures NestedPlans.OnTop(DeepShape(), TOP) && NestedPlans.Deep(DeepShape(), TOP, INNER)
  {
    var t := DeepShape();
    BuildInvariant.ClSelf(t, INNER);
    assert BuildSpec.Kids(t[MIDDLE]) == [INNER];
    BuildInvariant.ClKid(t, INNER, MIDDLE);
    assert t[TOP].members == [MIDDLE];
    assert MIDDLE in BuildInvariant.Children(t[TOP]);
  }

  lemma DeepSharesNothing(plan: Plan)
    requires ExecutionGraph.ShapeOf(plan) == DeepShape() && plan.targets.Keys == {LEAF, INNER, MIDDLE, TOP}
    requires plan.targets[TOP].lock == LOCK && plan.targets[MIDDLE].lock == NoLock
    requires plan.targets[INNER].lock == LOCK && plan.targets[LEAF].lock == NoLock
    ensures NoSharedNesting(plan)
  {
  }

  lemma DeepRun(project: Project, requested: seq<Name>, plan: Plan, g: BuildSpec.B, parallelism: int,
                run: seq<Engine.State>, i: nat, p: Name, q: Name)
    requires Runs(project, requested, plan, g, parallelism, run) && i < |run| && p in requested && NoSharedNesting(plan)
    requires NestedPlans.OnTop(ExecutionGraph.ShapeOf(plan), p) && NestedPlans.Deep(ExecutionGraph.ShapeOf(plan), p, q)
    requires ExecutionGraph.ShapeOf(plan)[p].steps == [] && plan.targets[p].lock == plan.targets[q].lock != NoLock
    ensures run[i].walk.pc != Walk.Returned(Walk.Success)
  {
    BuiltInv(project, requested, plan, g);
    NestedPlans.DeepNestingNeverSucceeds(project, requested, plan, g, parallelism, run, i, p, q);
  }

  lemma DeepRuns(project: Project, plan: Plan, g: BuildSpec.B, t: BuildSpec.Shape)
    requires Built(project, [TOP], plan, g) && ExecutionGraph.ShapeOf(plan) == t && t == DeepShape() && NoSharedNesting(plan)
    requires TOP in plan.targets && INNER in plan.targets && plan.targets[TOP].lock == plan.targets[INNER].lock == LOCK
    ensures forall parallelism: int, run: seq<Engine.State>, i: nat ::
      Runs(project, [TOP], plan, g, parallelism, run) && i < |run| ==> run[i].walk.pc != Walk.Returned(Walk.Success)
  {
    DeepShapeFacts();
    forall parallelism: int, run: seq<Engine.State>, i: nat |
      Runs(project, [TOP], plan, g, parallelism, run) && i < |run|
      ensures run[i].walk.pc != Walk.Returned(Walk.Success)
    {
      DeepRun(project, [TOP], plan, g, parallelism, run, i, TOP, INNER);
    }
  }

  /** The project is built, no composite in it is a child of one with its lock, and no run succeeds. */
  lemma DeepProjectNeverSucceeds() returns (plan: Plan, g: BuildSpec.B)
    ensures Built(DeepProject(), [TOP], plan, g) && NoSharedNesting(plan)
    ensures forall parallelism: int, run: seq<Engine.State>, i: nat ::
      Runs(DeepProject(), [TOP], plan, g, parallelism, run) && i < |run| ==> run[i].walk.pc != Walk.Returned(Walk.Success)
  {
    DeepIsDeep();
    plan, g := DeepBuilt(DeepProject());
    DeepRuns(DeepProject(), plan, g, DeepShape());
  }

  lemma DeepBuilt(project: Project) returns (plan: Plan, g: BuildSpec.B)
    requires IsDeep(project)
    ensures Built(project, [TOP], plan, g) && ExecutionGraph.ShapeOf(plan) == DeepShape() && NoSharedNesting(plan)
    ensures TOP in plan.targets && INNER in plan.targets && plan.targets[TOP].lock == plan.targets[INNER].lock == LOCK
  {
    plan, g := DeepPlan(project);
    var order := [] + [LEAF] + [INNER] + [MIDDLE] + [TOP];
    DeepRequested(project, order);
    DeepElems(order);
    DeepIsPlanned(project, [TOP], plan, order);
    DeepShapeOf(project, [TOP], plan);
    DeepSharesNothing(plan);
  }
}
