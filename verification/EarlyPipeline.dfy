/** A pipeline whose own vertex does not wait for one of its steps, from the project to the run. Targets x and b
    name nothing; p depends on b and runs the steps x, b. Requested in the order x, p, the edge that should put b
    behind x is dropped (internal/runner/execution_graph.go:180-188), and with it everything that puts p behind x. */
module EarlyPipeline {
  import opened Nodes
  import opened Digraph
  import opened Wrappers
  import opened Planner
  import opened EndToEnd
  import opened BuildResults
  import opened Schedule
  import BuildInvariant
  import BuildSpec
  import Engine
  import EngineLocks
  import EngineSafety
  import ExecutionGraph
  import PlanOrder
  import Walk
  import S = Session

  /** x and p declare the given lock. */
  function EarlyProject(x: Name, b: Name, p: Name, lock: Lock): Project {
    var leaf := Spec([], Listed([]), NoLock, Risk(false, false, false));
    map[x := leaf.(lock := lock), b := leaf,
        p := leaf.(dependsOn := [b], children := Listed([Child(x, PipelineStep), Child(b, PipelineStep)]), lock := lock)]
  }

  /** The visit of p, after that of x. */
  lemma PipelineVisit(x: Name, b: Name, p: Name, lock: Lock, inside: set<Name>)
    requires x != b && x != p && b != p && inside == {} + {p}
    ensures OrderOne(EarlyProject(x, b, p, lock), [x], {}, p) == Some([x, b, p])
  {
    var project := EarlyProject(x, b, p, lock);
    PlanOrder.LeafVisit(project, [x], inside, b);
    PlanOrder.NextVisit(project, [x], inside, [b], 0, [x]);
    assert [x] + [b] == [x, b];
    TwoSteps(x, b);
    PlanOrder.NothingNew(project, [x, b], inside, [x, b], 2);
    assert [x, b] + [p] == [x, b, p];
  }

  lemma {:induction false} EarlyOrder(x: Name, b: Name, p: Name, lock: Lock)
    requires x != b && x != p && b != p
    ensures PlannerOrder(EarlyProject(x, b, p, lock), [x, p]) == Some([x, b, p])
  {
    var project := EarlyProject(x, b, p, lock);
    PlanOrder.LeafVisit(project, [], {}, x);
    PlanOrder.NextVisit(project, [], {}, [x, p], 0, []);
    assert [] + [x] == [x];
    PlanOrder.NextVisit(project, [], {}, [x, p], 1, [x]);
    PipelineVisit(x, b, p, lock, {} + {p});
  }

  /** The order in which the planner plans the requested names. */
  function PlannerOrder(project: Project, requested: seq<Name>): Option<seq<Name>> {
    OrderAll(project, [], {}, requested, |requested|)
  }

  lemma NoSteps(a: Name, b: Name)
    ensures Declared([Child(a, PipelineStep), Child(b, PipelineStep)], GroupMember) == []
  {
    var list := [Child(a, PipelineStep), Child(b, PipelineStep)];
    assert list[..1] == [Child(a, PipelineStep)] && list[..1][..0] == [];
    assert Declared(list[..1], GroupMember) == [];
  }

  lemma PlanOrderIs(x: Name, b: Name, p: Name, lock: Lock, plan: Plan)
    requires x != b && x != p && b != p
    requires IsPlanFor(EarlyProject(x, b, p, lock), [x, p], plan)
    ensures plan.order == [x, b, p]
  {
    EarlyOrder(x, b, p, lock);
  }

  ghost predicate IsEarlyPlan(x: Name, b: Name, p: Name, lock: Lock, project: Project, plan: Plan) {
    && project == EarlyProject(x, b, p, lock) && IsPlanFor(project, [x, p], plan) && plan.order == [x, b, p]
  }

  lemma LeafItem(project: Project, requested: seq<Name>, plan: Plan, n: Name)
    requires IsPlanFor(project, requested, plan) && n in plan.order
    requires project[n].dependsOn == [] && project[n].children == Listed([])
    ensures n in plan.targets && ExecutionGraph.ShapeOf(plan)[n] == BuildSpec.Item([], [], [])
    ensures plan.targets[n].lock == project[n].lock
  {
    ItemAsDeclared(project, requested, plan, n);
  }

  lemma PipelineItem(project: Project, requested: seq<Name>, plan: Plan, n: Name, a: Name, b: Name)
    requires IsPlanFor(project, requested, plan) && n in plan.order
    requires project[n].children == Listed([Child(a, PipelineStep), Child(b, PipelineStep)])
    requires Position(plan.order, a) <= Position(plan.order, b)
    ensures n in plan.targets
    ensures ExecutionGraph.ShapeOf(plan)[n] == BuildSpec.Item(project[n].dependsOn, [a, b], [])
    ensures plan.targets[n].lock == project[n].lock
  {
    TwoSteps(a, b);
    NoSteps(a, b);
    assert InPlanOrder(plan.order, [a, b]) && InPlanOrder(plan.order, []);
    ItemAsDeclared(project, requested, plan, n);
  }

  lemma IsEarlyShape(t: BuildSpec.Shape, x: Name, b: Name, p: Name)
    requires t.Keys == {x, b, p} && x != b && x != p && b != p
    requires t[x] == BuildSpec.Item([], [], []) && t[b] == BuildSpec.Item([], [], [])
    requires t[p] == BuildSpec.Item([b], [x, b], [])
    ensures t == EarlyShape(x, b, p)
  {
  }

  /** The graph builder's view of such a plan. */
  lemma ShapeOfPlan(project: Project, requested: seq<Name>, plan: Plan, x: Name, b: Name, p: Name)
    requires x != b && x != p && b != p
    requires IsPlanFor(project, requested, plan) && plan.order == [x, b, p] && {x, b, p} <= project.Keys
    requires project[x].dependsOn == [] && project[x].children == Listed([])
    requires project[b].dependsOn == [] && project[b].children == Listed([])
    requires project[p].dependsOn == [b]
    requires project[p].children == Listed([Child(x, PipelineStep), Child(b, PipelineStep)])
    ensures ExecutionGraph.ShapeOf(plan) == EarlyShape(x, b, p) && plan.targets.Keys == {x, b, p}
    ensures forall n :: n in plan.targets ==> plan.targets[n].lock == project[n].lock
  {
    ThreePositions(x, b, p);
    ShapeKeys(project, requested, plan);
    LeafItem(project, requested, plan, x);
    LeafItem(project, requested, plan, b);
    PipelineItem(project, requested, plan, p, x, b);
    IsEarlyShape(ExecutionGraph.ShapeOf(plan), x, b, p);
  }

  lemma EarlyShapeOf(x: Name, b: Name, p: Name, lock: Lock, project: Project, plan: Plan)
    requires x != b && x != p && b != p && IsEarlyPlan(x, b, p, lock, project, plan)
    ensures ExecutionGraph.ShapeOf(plan) == EarlyShape(x, b, p) && plan.targets.Keys == {x, b, p}
    ensures plan.targets[x].lock == lock && plan.targets[b].lock == NoLock && plan.targets[p].lock == lock
  {
    ShapeOfPlan(project, [x, p], plan, x, b, p);
  }

  /** Such a project is planned and built. */
  lemma EarlyBuilt(x: Name, b: Name, p: Name, lock: Lock) returns (plan: Plan, g: BuildSpec.B)
    requires x != b && x != p && b != p
    ensures Built(EarlyProject(x, b, p, lock), [x, p], plan, g)
  {
    EarlyOrder(x, b, p, lock);
    plan := PlanOrder.PlanExists(EarlyProject(x, b, p, lock), [x, p], [x, b, p]);
    g := GraphOf(EarlyProject(x, b, p, lock), [x, p], plan);
  }

  /** Targets x and b, and a pipeline p that depends on b and runs x, then b. */
  function EarlyShape(x: Name, b: Name, p: Name): BuildSpec.Shape {
    map[x := BuildSpec.Item([], [], []), b := BuildSpec.Item([], [], []), p := BuildSpec.Item([b], [x, b], [])]
  }

  lemma EarlyClosures(x: Name, b: Name, p: Name)
    requires x != b && x != p && b != p
    ensures var t := EarlyShape(x, b, p);
      BuildSpec.Cl(t, x) == {x} && BuildSpec.Cl(t, b) == {b} && BuildInvariant.Alone(t, p) && Acyclic(BuildSpec.Feeds(t))
  {
    var t := EarlyShape(x, b, p);
    assert BuildSpec.Kids(t[p]) == [b, x, b] && BuildSpec.Kids(t[x]) == [] && BuildSpec.Kids(t[b]) == [];
    var feeds := BuildSpec.Feeds(t);
    LeafClosure(t, x);
    LeafClosure(t, b);
    assert forall u, v :: (u, v) in feeds ==> v == p && u != p;
    assert NoOut(feeds, p);
    forall u, v | (u, v) in feeds
      ensures !Reach(feeds, v, u)
    {
      if Reach(feeds, p, u) {
        NoOutReach(feeds, p, u);
      }
    }
  }

  lemma ThreePositions(x: Name, b: Name, p: Name)
    requires x != b && x != p && b != p
    ensures Elems([x, b, p]) == {x, b, p}
    ensures Position([x, b, p], x) == 0
    ensures Position([x, b, p], b) == 1
    ensures Position([x, b, p], p) == 2
  {
    assert [x, b, p][0] == x && [x, b, p][1] == b && [x, b, p][2] == p;
  }

  // ---- The graph --------------------------------------------------------------------------

  /** The graph has these vertices and bounds on the predecessors of each. */
  ghost predicate EarlyGraph(g: BuildSpec.B, x: Name, b: Name, p: Name) {
    && {Target(b), ScopeStart(p), Barrier(p, 1), Target(p), Target(x)} <= g.vertices
    && g.vertices <= {Target(b), ScopeStart(p), Barrier(p, 0), Barrier(p, 1), Target(p), Target(x)}
    && PredsIn(g.edges, Target(b), {}) && PredsIn(g.edges, ScopeStart(p), {Target(b)})
    && PredsIn(g.edges, Barrier(p, 1), {Target(b)}) && PredsIn(g.edges, Target(x), {ScopeStart(p)})
    && PredsIn(g.edges, Target(p), {Target(b), ScopeStart(p), Barrier(p, 1)})
    && (Target(b), ScopeStart(p)) in g.edges && (ScopeStart(p), Target(x)) in g.edges
    && (Target(x), Barrier(p, 0)) in g.edges && (Target(b), Barrier(p, 1)) in g.edges && (Target(b), Target(p)) in g.edges
    && (Target(x), p) in g.members
  }

  lemma EarlyPreds(g: BuildSpec.B, x: Name, b: Name, p: Name, u: Node, v: Node)
    requires x != b && x != p && b != p && BuildInvariant.Inv(EarlyShape(x, b, p), g, {}) && p in g.closed
    requires (u, v) in g.edges
    ensures v != Target(b) && (v == ScopeStart(p) || v == Barrier(p, 1) ==> u == Target(b))
    ensures v == Target(x) ==> u == ScopeStart(p)
    ensures v == Target(p) ==> u in {Target(b), ScopeStart(p), Barrier(p, 1)}
  {
    var t := EarlyShape(x, b, p);
    EarlyClosures(x, b, p);
    assert [b][..0] == [];
    assert BuildSpec.Closures(t, [b]) == {b};
    StaleStepBreaksChain(t, g, p, 1);
    assert BuildInvariant.Justified(t, g.closed, u, v) && BuildInvariant.Known(t, g.closed, u);
    assert BuildInvariant.Known(t, g.closed, v);
  }

  lemma EarlyEdgesIn(g: BuildSpec.B, x: Name, b: Name, p: Name)
    requires x != b && x != p && b != p && BuildInvariant.Inv(EarlyShape(x, b, p), g, {}) && p in g.closed
    ensures (Target(b), ScopeStart(p)) in g.edges && (ScopeStart(p), Target(x)) in g.edges
    ensures (Target(x), Barrier(p, 0)) in g.edges && (Target(b), Barrier(p, 1)) in g.edges
    ensures (Target(b), Target(p)) in g.edges && (Target(x), p) in g.members
    ensures {Target(b), ScopeStart(p), Barrier(p, 1), Target(p), Target(x)} <= g.vertices
  {
    var t := EarlyShape(x, b, p);
    EarlyClosures(x, b, p);
    assert [b][..0] == [] && [x, b][..0] == [];
    assert BuildSpec.Closures(t, [b]) == {b};
    assert BuildInvariant.Finished(t, g, p);
    assert BuildInvariant.StepDone(t, g, p, 0) && BuildInvariant.StepDone(t, g, p, 1);
    assert BuildSpec.Prev(t, p, 0) == {b};
    assert t[p].deps[0] == b && BuildInvariant.DepDone(t, g, p, 0);
    StepPrecedesBarrier(t, g, p, 0, x);
    StepPrecedesBarrier(t, g, p, 1, b);
    assert Target(x) in BuildSpec.Fresh(t, x, {b});
  }

  lemma EarlyVertices(g: BuildSpec.B, x: Name, b: Name, p: Name)
    requires x != b && x != p && b != p && BuildInvariant.Inv(EarlyShape(x, b, p), g, {})
    ensures g.vertices <= {Target(b), ScopeStart(p), Barrier(p, 0), Barrier(p, 1), Target(p), Target(x)}
  {
    var t := EarlyShape(x, b, p);
    forall v | v in g.vertices
      ensures v in {Target(b), ScopeStart(p), Barrier(p, 0), Barrier(p, 1), Target(p), Target(x)}
    {
      assert BuildInvariant.Known(t, g.closed, v);
    }
  }

  lemma IsEarlyGraph(g: BuildSpec.B, x: Name, b: Name, p: Name)
    requires x != b && x != p && b != p && BuildInvariant.Inv(EarlyShape(x, b, p), g, {}) && p in g.closed
    ensures EarlyGraph(g, x, b, p)
  {
    EarlyVertices(g, x, b, p);
    EarlyEdgesIn(g, x, b, p);
    forall u, v | (u, v) in g.edges
      ensures v != Target(b) && (v == ScopeStart(p) || v == Barrier(p, 1) ==> u == Target(b))
      ensures v == Target(x) ==> u == ScopeStart(p)
      ensures v == Target(p) ==> u in {Target(b), ScopeStart(p), Barrier(p, 1)}
    {
      EarlyPreds(g, x, b, p, u, v);
    }
  }

  /** What the engine is given: the graph, and p as the only composite. */
  ghost predicate EarlyConfig(c: Engine.Config, g: BuildSpec.B, x: Name, b: Name, p: Name, lock: Lock) {
    && EngineLocks.WellFormed(c) && c.walk.vertices == g.vertices && c.walk.edges == g.edges
    && c.sys.scopes == {p} && S.LockOf(c.sys, p) == lock && S.LockOf(c.sys, x) == lock && S.LockOf(c.sys, b) == NoLock
    && p in S.MemberScopes(c.sys, Target(x))
  }

  lemma SystemIs(plan: Plan, g: BuildSpec.B, x: Name, b: Name, p: Name, lock: Lock)
    requires x != b && x != p && b != p
    requires ExecutionGraph.ShapeOf(plan) == EarlyShape(x, b, p) && plan.targets.Keys == {x, b, p}
    requires plan.targets[x].lock == lock && plan.targets[b].lock == NoLock && plan.targets[p].lock == lock
    requires (Target(x), p) in g.members && Target(x) in g.vertices
    ensures var sys := SystemOf(plan, g);
      && sys.scopes == {p} && S.LockOf(sys, p) == lock && S.LockOf(sys, x) == lock && S.LockOf(sys, b) == NoLock
      && p in S.MemberScopes(sys, Target(x))
  {
  }

  lemma BuiltIsEarly(x: Name, b: Name, p: Name, lock: Lock, project: Project, plan: Plan, g: BuildSpec.B)
    requires x != b && x != p && b != p && IsEarlyPlan(x, b, p, lock, project, plan) && Built(project, [x, p], plan, g)
    ensures EarlyGraph(g, x, b, p) && BuildInvariant.Inv(ExecutionGraph.ShapeOf(plan), g, {}) && p in g.closed
  {
    EarlyShapeOf(x, b, p, lock, project, plan);
    BuiltInv(project, [x, p], plan, g);
    assert [x, p][1] == p;
    IsEarlyGraph(g, x, b, p);
  }

  lemma IsEarlyConfig(
    x: Name, b: Name, p: Name, lock: Lock, project: Project, plan: Plan, g: BuildSpec.B, parallelism: int)
    requires x != b && x != p && b != p && IsEarlyPlan(x, b, p, lock, project, plan) && Built(project, [x, p], plan, g)
    requires EarlyGraph(g, x, b, p)
    ensures EarlyConfig(ConfigOf(plan, g, parallelism), g, x, b, p, lock)
  {
    EarlyShapeOf(x, b, p, lock, project, plan);
    SystemIs(plan, g, x, b, p, lock);
    BuiltSuitsEngine(project, [x, p], plan, g, parallelism);
  }

  // ---- The run in which the pipeline ends beside its step -------------------------------------------

  lemma BareTarget(sys: S.System, b: Name)
    requires b !in sys.scopes && S.LockOf(sys, b) == NoLock
    ensures CanAdmit(sys, NOTHING, Target(b))
    ensures Completed(sys, Admitted(sys, NOTHING, Target(b)), Target(b)) == NOTHING
  {
  }

  /** b runs first. */
  lemma BeginWithB(c: Engine.Config, g: BuildSpec.B, x: Name, b: Name, p: Name, lock: Lock) returns (e: Engine.State)
    requires x != b && x != p && b != p && EarlyGraph(g, x, b, p) && EarlyConfig(c, g, x, b, p, lock)
    ensures Poised(c, e, {}, {}, NOTHING, Target(b))
  {
    e := Begin(c, [Target(b)]);
  }

  /** The start of p has been admitted. */
  function LockTaken(p: Name, lock: Lock): S.State {
    if lock == NoLock then NOTHING else S.State({lock}, 0, {}, map[ScopeStart(p) := lock])
  }

  lemma LockSteps(sys: S.System, x: Name, p: Name, lock: Lock)
    requires S.LockOf(sys, p) == lock
    ensures CanAdmit(sys, NOTHING, ScopeStart(p)) && Admitted(sys, NOTHING, ScopeStart(p)) == LockTaken(p, lock)
    ensures Completed(sys, LockTaken(p, lock), ScopeStart(p)) == ScopeOpen(p, lock)
  {
    assert !S.Covered(sys, NOTHING, ScopeStart(p), lock);
    assert map[ScopeStart(p) := lock] - {ScopeStart(p)} == map[];
  }

  lemma StepJoins(sys: S.System, x: Name, p: Name, lock: Lock)
    requires S.LockOf(sys, p) == lock && S.LockOf(sys, x) == lock
    requires sys.scopes == {p} && x != p && p in S.MemberScopes(sys, Target(x))
    ensures CanAdmit(sys, ScopeOpen(p, lock), Target(x)) && Admitted(sys, ScopeOpen(p, lock), Target(x)) == ScopeOpen(p, lock)
  {
    assert S.Covered(sys, ScopeOpen(p, lock), Target(x), lock);
  }

  lemma EndIsAdmitted(sys: S.System, p: Name, lock: Lock)
    requires sys.scopes == {p}
    ensures CanAdmit(sys, ScopeOpen(p, lock), Target(p)) && Admitted(sys, ScopeOpen(p, lock), Target(p)) == ScopeOpen(p, lock)
  {
  }

  lemma EndFreesLock(sys: S.System, p: Name, lock: Lock)
    requires sys.scopes == {p} && S.LockOf(sys, p) == lock
    ensures Completed(sys, ScopeOpen(p, lock), Target(p)).held == {}
  {
  }

  lemma NothingElse(c: Engine.Config, g: BuildSpec.B, x: Name, b: Name, p: Name, lock: Lock)
    requires EarlyGraph(g, x, b, p) && EarlyConfig(c, g, x, b, p, lock)
    ensures forall w :: w in c.walk.vertices && w !in {} && w != Target(b) ==> !PredsIn(c.walk.edges, w, {})
  {
  }

  lemma OnlyBReady(c: Engine.Config, g: BuildSpec.B, x: Name, b: Name, p: Name, lock: Lock, e: Engine.State)
    requires EarlyGraph(g, x, b, p) && EarlyConfig(c, g, x, b, p, lock) && Poised(c, e, {}, {}, NOTHING, Target(b))
    ensures |e.walk.ready| == 1
  {
    NothingElse(c, g, x, b, p, lock);
    OnlyReady(c, e, {}, NOTHING, Target(b));
  }

  lemma BothStartable(c: Engine.Config, g: BuildSpec.B, x: Name, b: Name, p: Name, lock: Lock)
    requires EarlyGraph(g, x, b, p) && EarlyConfig(c, g, x, b, p, lock)
    ensures Startable(c, [ScopeStart(p), Barrier(p, 1)], {Target(b)} + {}, {} + {Target(b)})
  {
  }

  /** b runs; then the start of p and the second barrier are ready. */
  lemma BothReady(c: Engine.Config, g: BuildSpec.B, x: Name, b: Name, p: Name, lock: Lock) returns (e: Engine.State)
    requires x != b && x != p && b != p && EarlyGraph(g, x, b, p) && EarlyConfig(c, g, x, b, p, lock)
    requires c.walk.parallelism == 2
    ensures Poised(c, e, {}, {Target(b)}, NOTHING, ScopeStart(p)) && |e.walk.ready| > 1 && e.walk.ready[1] == Barrier(p, 1)
  {
    var e0 := BeginWithB(c, g, x, b, p, lock);
    OnlyBReady(c, g, x, b, p, lock, e0);
    BareTarget(c.sys, b);
    BothStartable(c, g, x, b, p, lock);
    e := RunOnly(c, e0, NOTHING, NOTHING, Target(b), ScopeStart(p), Barrier(p, 1));
  }

  /** Once b and the start of p are done, x can start, and once the second barrier is, p can. */
  lemma FollowsStart(c: Engine.Config, g: BuildSpec.B, x: Name, b: Name, p: Name, lock: Lock)
    returns (s1: set<Node>, s2: set<Node>)
    requires x != b && x != p && b != p && EarlyGraph(g, x, b, p) && EarlyConfig(c, g, x, b, p, lock)
    ensures s1 == {Target(b)} + {ScopeStart(p)} && s2 == s1 + {Barrier(p, 1)}
    ensures Target(x) !in s2 && CanFollow(c, Target(x), {ScopeStart(p)} + {Barrier(p, 1)} + {Target(b)}, s1)
    ensures CanFollow(c, Target(p), {Barrier(p, 1)} + {Target(x)} + s1, s2)
  {
    s1 := {Target(b)} + {ScopeStart(p)};
    s2 := s1 + {Barrier(p, 1)};
  }

  /** What the moves below need of the session's view. */
  ghost predicate OneScope(c: Engine.Config, x: Name, p: Name, lock: Lock) {
    && EngineLocks.WellFormed(c) && c.walk.parallelism == 2 && x != p && c.sys.scopes == {p}
    && S.LockOf(c.sys, p) == lock && S.LockOf(c.sys, x) == lock && p in S.MemberScopes(c.sys, Target(x))
  }

  lemma OpenBesideBarrier(c: Engine.Config, x: Name, b: Name, p: Name, lock: Lock, s1: set<Node>, e: Engine.State)
    returns (e': Engine.State)
    requires OneScope(c, x, p, lock) && s1 == {Target(b)} + {ScopeStart(p)}
    requires CanFollow(c, Target(x), {ScopeStart(p)} + {Barrier(p, 1)} + {Target(b)}, s1)
    requires Poised(c, e, {}, {Target(b)}, NOTHING, ScopeStart(p)) && |e.walk.ready| > 1 && e.walk.ready[1] == Barrier(p, 1)
    ensures Poised(c, e', {Barrier(p, 1)}, s1, ScopeOpen(p, lock), Target(x))
  {
    LockSteps(c.sys, x, p, lock);
    e' := InPairs(c, e, {Target(b)}, NOTHING, LockTaken(p, lock), ScopeOpen(p, lock), ScopeStart(p), Barrier(p, 1),
                  Target(x), s1);
  }

  lemma StepAtWork(c: Engine.Config, x: Name, p: Name, lock: Lock, s1: set<Node>, s2: set<Node>, e: Engine.State)
    returns (e': Engine.State)
    requires OneScope(c, x, p, lock) && s2 == s1 + {Barrier(p, 1)}
    requires CanFollow(c, Target(p), {Barrier(p, 1)} + {Target(x)} + s1, s2)
    requires Poised(c, e, {Barrier(p, 1)}, s1, ScopeOpen(p, lock), Target(x))
    ensures Poised(c, e', {Target(x)}, s2, ScopeOpen(p, lock), Target(p))
  {
    StepJoins(c.sys, x, p, lock);
    e' := Swap(c, e, s1, ScopeOpen(p, lock), Target(x), Barrier(p, 1), Target(p), s2);
  }

  /** x is at work and nothing but p is ready, whatever the order in which ready vertices are tried. */
  lemma {:induction false} EndIsReady(c: Engine.Config, g: BuildSpec.B, x: Name, b: Name, p: Name, lock: Lock)
    returns (e: Engine.State, done: set<Node>)
    requires x != b && x != p && b != p && EarlyGraph(g, x, b, p) && EarlyConfig(c, g, x, b, p, lock)
    requires c.walk.parallelism == 2
    ensures Target(x) !in done && Poised(c, e, {Target(x)}, done, ScopeOpen(p, lock), Target(p))
  {
    var e0 := BothReady(c, g, x, b, p, lock);
    var s1, s2 := FollowsStart(c, g, x, b, p, lock);
    var e1 := OpenBesideBarrier(c, x, b, p, lock, s1, e0);
    e := StepAtWork(c, x, p, lock, s1, s2, e1);
    done := s2;
  }

  lemma EndsFirst(c: Engine.Config, x: Name, p: Name, lock: Lock, done: set<Node>, e: Engine.State)
    returns (e': Engine.State)
    requires OneScope(c, x, p, lock) && Target(x) !in done
    requires Poised(c, e, {Target(x)}, done, ScopeOpen(p, lock), Target(p))
    ensures Reachable(c, e') && Target(p) in e'.walk.workers && Target(x) !in e'.walk.succeeded
  {
    EndIsAdmitted(c.sys, p, lock);
    e' := Launch(c, e, {Target(x)}, done, ScopeOpen(p, lock), Target(p));
  }

  lemma RunOfEarly(c: Engine.Config, g: BuildSpec.B, x: Name, b: Name, p: Name, lock: Lock)
    returns (run: seq<Engine.State>, i: nat)
    requires x != b && x != p && b != p && EarlyGraph(g, x, b, p) && EarlyConfig(c, g, x, b, p, lock)
    requires c.walk.parallelism == 2
    ensures EngineLocks.IsRun(c, run) && Walk.StartsAt(EngineLocks.WalkRun(run), i, Target(p))
    ensures forall k: nat :: k <= i ==> !Walk.ReturnsAt(EngineLocks.WalkRun(run), k, Target(x), true)
  {
    var e0, done := EndIsReady(c, g, x, b, p, lock);
    var e := EndsFirst(c, x, p, lock, done, e0);
    var last;
    run, last := RunTo(c, e);
    i := WhenStarted(c, run, last, Target(p));
    forall k: nat | k <= i
      ensures !Walk.ReturnsAt(EngineLocks.WalkRun(run), k, Target(x), true)
    {
      NotReturnedYet(c, run, last, k, Target(x));
    }
  }

  /** From the project to the run: the pipeline's own vertex starts, and its step x has not returned. */
  lemma PipelineStartsBeforeItsStep(x: Name, b: Name, p: Name, lock: Lock)
    returns (plan: Plan, g: BuildSpec.B, run: seq<Engine.State>, i: nat)
    requires x != b && x != p && b != p
    ensures Runs(EarlyProject(x, b, p, lock), [x, p], plan, g, 2, run)
    ensures p in plan.targets && x in ExecutionGraph.ShapeOf(plan)[p].steps
    ensures Walk.StartsAt(EngineLocks.WalkRun(run), i, Target(p))
    ensures forall k: nat :: k <= i ==> !Walk.ReturnsAt(EngineLocks.WalkRun(run), k, Target(x), true)
  {
    var project := EarlyProject(x, b, p, lock);
    plan, g := EarlyBuilt(x, b, p, lock);
    PlanOrderIs(x, b, p, lock, plan);
    EarlyShapeOf(x, b, p, lock, project, plan);
    BuiltIsEarly(x, b, p, lock, project, plan, g);
    IsEarlyConfig(x, b, p, lock, project, plan, g, 2);
    run, i := RunOfEarly(ConfigOf(plan, g, 2), g, x, b, p, lock);
  }

  // ---- ... and frees the lock of the step at work -----------------------------------------------------

  lemma PipelineEndsBeside(c: Engine.Config, x: Name, p: Name, lock: Lock, done: set<Node>, e: Engine.State)
    returns (e': Engine.State)
    requires OneScope(c, x, p, lock) && lock != NoLock
    requires Poised(c, e, {Target(x)}, done, ScopeOpen(p, lock), Target(p))
    ensures Reachable(c, e') && EngineSafety.WorksUnder(c, e', Target(x), lock) && lock !in e'.ses.held
  {
    EndIsAdmitted(c.sys, p, lock);
    EndFreesLock(c.sys, p, lock);
    var ses' := Completed(c.sys, ScopeOpen(p, lock), Target(p));
    e' := PassLast(c, e, Target(x), done, ScopeOpen(p, lock), ses', Target(p));
    StillAtWork(c, e', done + {Target(p)}, x, p, lock);
  }

  lemma StillAtWork(c: Engine.Config, e: Engine.State, done: set<Node>, x: Name, p: Name, lock: Lock)
    requires OneScope(c, x, p, lock) && lock != NoLock && Resting(e, {Target(x)}, done)
    ensures EngineSafety.WorksUnder(c, e, Target(x), lock)
  {
    assert Target(x) in e.stage;
  }

  lemma {:induction false} LockLost(c: Engine.Config, g: BuildSpec.B, x: Name, b: Name, p: Name, lock: Lock)
    returns (e: Engine.State)
    requires x != b && x != p && b != p && EarlyGraph(g, x, b, p) && EarlyConfig(c, g, x, b, p, lock)
    requires c.walk.parallelism == 2 && lock != NoLock
    ensures Reachable(c, e) && EngineSafety.WorksUnder(c, e, Target(x), lock) && lock !in e.ses.held
  {
    var e0, done := EndIsReady(c, g, x, b, p, lock);
    e := PipelineEndsBeside(c, x, p, lock, done, e0);
  }

  lemma LosingRun(c: Engine.Config, g: BuildSpec.B, x: Name, b: Name, p: Name, lock: Lock)
    returns (run: seq<Engine.State>, i: nat)
    requires x != b && x != p && b != p && EarlyGraph(g, x, b, p) && EarlyConfig(c, g, x, b, p, lock)
    requires c.walk.parallelism == 2 && lock != NoLock
    ensures EngineLocks.IsRun(c, run) && i < |run|
    ensures EngineSafety.WorksUnder(c, run[i], Target(x), lock) && lock !in run[i].ses.held
  {
    var e := LockLost(c, g, x, b, p, lock);
    run, i := RunTo(c, e);
  }

  /** With its lock on the step too, the pipeline that ends first frees the lock while the step is at work: what
      is proved about exclusion does need that barriers keep their edges. */
  lemma StepLosesItsLock(x: Name, b: Name, p: Name, lock: Lock)
    returns (plan: Plan, g: BuildSpec.B, run: seq<Engine.State>, i: nat)
    requires x != b && x != p && b != p && lock != NoLock
    ensures Runs(EarlyProject(x, b, p, lock), [x, p], plan, g, 2, run) && i < |run| && (Target(x), p) in g.members
    ensures EngineSafety.WorksUnder(ConfigOf(plan, g, 2), run[i], Target(x), lock) && lock !in run[i].ses.held
  {
    var project := EarlyProject(x, b, p, lock);
    plan, g := EarlyBuilt(x, b, p, lock);
    PlanOrderIs(x, b, p, lock, plan);
    BuiltIsEarly(x, b, p, lock, project, plan, g);
    IsEarlyConfig(x, b, p, lock, project, plan, g, 2);
    EarlyShapeOf(x, b, p, lock, project, plan);
    run, i := LosingRun(ConfigOf(plan, g, 2), g, x, b, p, lock);
  }
}
