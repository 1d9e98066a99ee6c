/** A project in which a group is a member of a group with the same lock, and a run of it in which two targets with
    that lock work at the same time outside any common scope. */
module NestedExample {
  import opened Nodes
  import opened Digraph
  import opened Wrappers
  import opened Planner
  import opened EndToEnd
  import opened Schedule
  import BuildInvariant
  import BuildResults
  import BuildSpec
  import Engine
  import EngineLocks
  import EngineSafety
  import ExecutionGraph
  import NestedPlans
  import PlanOrder
  import Walk
  import S = Session

  const LEAF := Name(0)
  const INNER := Name(1)
  const MEMBER := Name(2)
  const OUTER := Name(3)
  const OUTSIDER := Name(4)
  const LOCK := Lock(0)

  function Bare(lock: Lock): Spec {
    Spec([], Listed([]), lock, Risk(false, false, false))
  }

  function Group(members: seq<Name>, lock: Lock): Spec {
    Bare(lock).(children := Listed(seq(|members|, i requires 0 <= i < |members| => Child(members[i], GroupMember))))
  }

  /** OUTER has the members INNER and MEMBER, INNER has the member LEAF; OUTSIDER depends on LEAF. */
  function NestedProject(): Project {
    map[LEAF := Bare(NoLock), INNER := Group([LEAF], LOCK), MEMBER := Bare(LOCK),
        OUTER := Group([INNER, MEMBER], LOCK), OUTSIDER := Bare(LOCK).(dependsOn := [LEAF])]
  }

  const REQUESTED := [OUTER, OUTSIDER]
  const ORDER := [LEAF, INNER, MEMBER, OUTER, OUTSIDER]

  // ---- The plan -----------------------------------------------------------------------

  lemma {:induction false} GroupNames(list: seq<Child>, members: seq<Name>)
    requires |list| == |members| && forall i :: 0 <= i < |list| ==> list[i] == Child(members[i], GroupMember)
    ensures ChildNames(list) == members
    ensures Declared(list, GroupMember) == members && Declared(list, PipelineStep) == []
    decreases |list|
  {
    if list != [] {
      GroupNames(list[..|list| - 1], members[..|members| - 1]);
      InitLast(members);
    }
  }

  /** What the visit of a group adds when its one or two members are visited first. */
  lemma GroupVisit(project: Project, was: seq<Name>, visiting: set<Name>, name: Name, lock: Lock, members: seq<Name>, order: seq<Name>)
    requires name !in was && name !in visiting && name in project && project[name] == Group(members, lock)
    requires OrderAll(project, was, visiting + {name}, members, |members|) == Some(order)
    ensures OrderOne(project, was, visiting, name) == Some(order + [name])
  {
    GroupNames(project[name].children.list, members);
  }

  lemma {:induction false} NestedOrder()
    ensures OrderAll(NestedProject(), [], {}, REQUESTED, 2) == Some(ORDER)
  {
    var project := NestedProject();
    var inOuter, inInner := {} + {OUTER}, {} + {OUTER} + {INNER};
    InnerVisit(project, inOuter, inInner);
    PlanOrder.NextVisit(project, [], inOuter, [INNER, MEMBER], 0, []);
    PlanOrder.NextVisit(project, [], inOuter, [INNER, MEMBER], 1, [LEAF, INNER]);
    PlanOrder.LeafVisit(project, [LEAF, INNER], inOuter, MEMBER);
    assert [LEAF, INNER] + [MEMBER] == [LEAF, INNER, MEMBER];
    GroupVisit(project, [], {}, OUTER, LOCK, [INNER, MEMBER], [LEAF, INNER, MEMBER]);
    var first := [LEAF, INNER, MEMBER, OUTER];
    assert [LEAF, INNER, MEMBER] + [OUTER] == first;
    PlanOrder.NextVisit(project, [], {}, REQUESTED, 0, []);
    PlanOrder.NextVisit(project, [], {}, REQUESTED, 1, first);
    OutsiderVisit(project, first);
    assert first + [OUTSIDER] == ORDER;
  }

  lemma InnerVisit(project: Project, inOuter: set<Name>, inInner: set<Name>)
    requires project == NestedProject() && inOuter == {OUTER} && inInner == inOuter + {INNER}
    ensures OrderOne(project, [], inOuter, INNER) == Some([LEAF, INNER])
  {
    PlanOrder.LeafVisit(project, [], inInner, LEAF);
    assert [] + [LEAF] == [LEAF];
    PlanOrder.NextVisit(project, [], inInner, [LEAF], 0, []);
    GroupVisit(project, [], inOuter, INNER, LOCK, [LEAF], [LEAF]);
    assert [LEAF] + [INNER] == [LEAF, INNER];
  }

  lemma OutsiderVisit(project: Project, order: seq<Name>)
    requires project == NestedProject() && LEAF in order && OUTSIDER !in order
    ensures OrderOne(project, order, {}, OUTSIDER) == Some(order + [OUTSIDER])
  {
    PlanOrder.NothingNew(project, order, {} + {OUTSIDER}, [LEAF], 1);
  }

  function NestedShape(): BuildSpec.Shape {
    map[LEAF := BuildSpec.Item([], [], []), INNER := BuildSpec.Item([], [], [LEAF]), MEMBER := BuildSpec.Item([], [], []),
        OUTER := BuildSpec.Item([], [], [INNER, MEMBER]), OUTSIDER := BuildSpec.Item([LEAF], [], [])]
  }

  lemma GroupItem(project: Project, requested: seq<Name>, plan: Plan, n: Name, members: seq<Name>)
    requires IsPlanFor(project, requested, plan) && n in plan.order && project[n].children.Listed?
    requires ChildList(project[n]) == Group(members, NoLock).children.list && InPlanOrder(plan.order, members)
    ensures n in plan.targets && plan.targets[n].lock == project[n].lock
    ensures ExecutionGraph.ShapeOf(plan)[n] == BuildSpec.Item(project[n].dependsOn, [], members)
  {
    GroupNames(ChildList(project[n]), members);
    ItemAsDeclared(project, requested, plan, n);
  }

  lemma IsNestedShape(t: BuildSpec.Shape)
    requires t.Keys == {LEAF, INNER, MEMBER, OUTER, OUTSIDER}
    requires t[LEAF] == BuildSpec.Item([], [], []) && t[INNER] == BuildSpec.Item([], [], [LEAF])
    requires t[MEMBER] == BuildSpec.Item([], [], []) && t[OUTER] == BuildSpec.Item([], [], [INNER, MEMBER])
    requires t[OUTSIDER] == BuildSpec.Item([LEAF], [], [])
    ensures t == NestedShape()
  {
  }

  /** How the five targets are declared. */
  ghost predicate IsNested(project: Project) {
    && {LEAF, INNER, MEMBER, OUTER, OUTSIDER} <= project.Keys && project[LEAF] == Bare(NoLock) && project[INNER] == Group([LEAF], LOCK)
    && project[MEMBER] == Bare(LOCK) && project[OUTER] == Group([INNER, MEMBER], LOCK)
    && project[OUTSIDER] == Bare(LOCK).(dependsOn := [LEAF])
  }

  /** What is needed of the order. */
  ghost predicate InNestedOrder(order: seq<Name>) {
    Elems(order) == {LEAF, INNER, MEMBER, OUTER, OUTSIDER} && Position(order, INNER) <= Position(order, MEMBER)
  }

  lemma NestedPositions()
    ensures InNestedOrder(ORDER)
  {
    assert ORDER[0] == LEAF && ORDER[1] == INNER && ORDER[2] == MEMBER && ORDER[3] == OUTER && ORDER[4] == OUTSIDER;
  }

  lemma BareItem(project: Project, requested: seq<Name>, plan: Plan, n: Name)
    requires IsPlanFor(project, requested, plan) && n in plan.order && project[n].children == Listed([])
    ensures n in plan.targets && plan.targets[n].lock == project[n].lock
    ensures ExecutionGraph.ShapeOf(plan)[n] == BuildSpec.Item(project[n].dependsOn, [], [])
  {
    ItemAsDeclared(project, requested, plan, n);
  }

  /** How the plan and the graph builder see one target. */
  ghost predicate PlannedAs(plan: Plan, n: Name, item: BuildSpec.Item, lock: Lock) {
    n in plan.targets && plan.targets[n].lock == lock && ExecutionGraph.ShapeOf(plan)[n] == item
  }

  lemma PlannedBare(project: Project, requested: seq<Name>, plan: Plan, n: Name, deps: seq<Name>, lock: Lock)
    requires IsPlanFor(project, requested, plan) && n in plan.order && project[n] == Bare(lock).(dependsOn := deps)
    ensures PlannedAs(plan, n, BuildSpec.Item(deps, [], []), lock)
  {
    BareItem(project, requested, plan, n);
  }

  lemma PlannedGroup(project: Project, requested: seq<Name>, plan: Plan, n: Name, members: seq<Name>, lock: Lock)
    requires IsPlanFor(project, requested, plan) && n in plan.order && project[n] == Group(members, lock)
    requires InPlanOrder(plan.order, members)
    ensures PlannedAs(plan, n, BuildSpec.Item([], [], members), lock)
  {
    GroupItem(project, requested, plan, n, members);
  }

  lemma PlannedOuter(project: Project, requested: seq<Name>, plan: Plan)
    requires IsPlanFor(project, requested, plan) && OUTER in plan.order && project[OUTER] == Group([INNER, MEMBER], LOCK)
    requires Position(plan.order, INNER) <= Position(plan.order, MEMBER)
    ensures PlannedAs(plan, OUTER, BuildSpec.Item([], [], [INNER, MEMBER]), LOCK)
  {
    assert InPlanOrder(plan.order, [INNER, MEMBER]);
    PlannedGroup(project, requested, plan, OUTER, [INNER, MEMBER], LOCK);
  }

  /** The five targets are planned as declared. */
  ghost predicate NestedPlan(plan: Plan) {
    && PlannedAs(plan, LEAF, BuildSpec.Item([], [], []), NoLock) && PlannedAs(plan, INNER, BuildSpec.Item([], [], [LEAF]), LOCK)
    && PlannedAs(plan, MEMBER, BuildSpec.Item([], [], []), LOCK)
    && PlannedAs(plan, OUTER, BuildSpec.Item([], [], [INNER, MEMBER]), LOCK)
    && PlannedAs(plan, OUTSIDER, BuildSpec.Item([LEAF], [], []), LOCK)
  }

  lemma BareOnes(project: Project, requested: seq<Name>, plan: Plan, order: seq<Name>)
    requires IsPlanFor(project, requested, plan) && IsNested(project) && plan.order == order && InNestedOrder(order)
    ensures PlannedAs(plan, LEAF, BuildSpec.Item([], [], []), NoLock)
    ensures PlannedAs(plan, MEMBER, BuildSpec.Item([], [], []), LOCK)
    ensures PlannedAs(plan, OUTSIDER, BuildSpec.Item([LEAF], [], []), LOCK)
  {
    AllOrdered(order);
    PlannedBare(project, requested, plan, LEAF, [], NoLock);
    PlannedBare(project, requested, plan, MEMBER, [], LOCK);
    PlannedBare(project, requested, plan, OUTSIDER, [LEAF], LOCK);
  }

  lemma GroupOnes(project: Project, requested: seq<Name>, plan: Plan, order: seq<Name>)
    requires IsPlanFor(project, requested, plan) && IsNested(project) && plan.order == order && InNestedOrder(order)
    ensures PlannedAs(plan, INNER, BuildSpec.Item([], [], [LEAF]), LOCK)
    ensures PlannedAs(plan, OUTER, BuildSpec.Item([], [], [INNER, MEMBER]), LOCK)
  {
    AllOrdered(order);
    PlannedGroup(project, requested, plan, INNER, [LEAF], LOCK);
    PlannedOuter(project, requested, plan);
  }

  lemma AllOrdered(order: seq<Name>)
    requires InNestedOrder(order)
    ensures LEAF in order && INNER in order && MEMBER in order && OUTER in order && OUTSIDER in order
  {
    assert LEAF in Elems(order) && INNER in Elems(order) && MEMBER in Elems(order);
    assert OUTER in Elems(order) && OUTSIDER in Elems(order);
  }

  lemma NestedPlanShape(plan: Plan)
    requires NestedPlan(plan) && ExecutionGraph.ShapeOf(plan).Keys == {LEAF, INNER, MEMBER, OUTER, OUTSIDER}
    ensures ExecutionGraph.ShapeOf(plan) == NestedShape() && plan.targets.Keys == {LEAF, INNER, MEMBER, OUTER, OUTSIDER}
    ensures plan.targets[LEAF].lock == NoLock
    ensures forall n :: n in plan.targets && n != LEAF ==> plan.targets[n].lock == LOCK
  {
    assert plan.targets.Keys == ExecutionGraph.ShapeOf(plan).Keys;
    IsNestedShape(ExecutionGraph.ShapeOf(plan));
  }

  lemma ShapeOfPlan(project: Project, requested: seq<Name>, plan: Plan, order: seq<Name>)
    requires IsPlanFor(project, requested, plan) && IsNested(project) && plan.order == order && InNestedOrder(order)
    ensures NestedPlan(plan) && ExecutionGraph.ShapeOf(plan).Keys == {LEAF, INNER, MEMBER, OUTER, OUTSIDER}
  {
    ShapeKeys(project, requested, plan);
    BareOnes(project, requested, plan, order);
    GroupOnes(project, requested, plan, order);
  }

  lemma NestedIsNested()
    ensures IsNested(NestedProject())
  {
  }

  lemma PlanOf(project: Project) returns (plan: Plan, g: BuildSpec.B)
    requires IsNested(project) && OrderAll(project, [], {}, REQUESTED, 2) == Some(ORDER)
    ensures Built(project, REQUESTED, plan, g) && InNestedOrder(plan.order)
  {
    NestedPositions();
    plan := PlanOrder.PlanExists(project, REQUESTED, ORDER);
    g := GraphOf(project, REQUESTED, plan);
  }

  /** The project is planned and built. */
  lemma NestedBuilt(project: Project) returns (plan: Plan, g: BuildSpec.B)
    requires IsNested(project) && OrderAll(project, [], {}, REQUESTED, 2) == Some(ORDER)
    ensures Built(project, REQUESTED, plan, g) && ExecutionGraph.ShapeOf(plan) == NestedShape()
    ensures plan.targets.Keys == {LEAF, INNER, MEMBER, OUTER, OUTSIDER} && plan.targets[LEAF].lock == NoLock
    ensures forall n :: n in plan.targets && n != LEAF ==> plan.targets[n].lock == LOCK
  {
    plan, g := PlanOf(project);
    ShapeOfPlan(project, REQUESTED, plan, plan.order);
    NestedPlanShape(plan);
  }

  // ---- The graph ------------------------------------------------------------------------

  lemma NestedClosures()
    ensures var t := NestedShape();
      && BuildSpec.Cl(t, LEAF) == {LEAF} && BuildSpec.Cl(t, MEMBER) == {MEMBER} && BuildSpec.Cl(t, INNER) == {INNER, LEAF}
  {
    var t := NestedShape();
    assert BuildSpec.Kids(t[LEAF]) == [] && BuildSpec.Kids(t[MEMBER]) == [] && BuildSpec.Kids(t[INNER]) == [LEAF];
    BuildResults.LeafClosure(t, LEAF);
    BuildResults.LeafClosure(t, MEMBER);
    BuildInvariant.ClSelf(t, INNER);
    BuildInvariant.ClKid(t, LEAF, INNER);
    assert PredClosed(BuildSpec.Feeds(t), {INNER, LEAF});
    forall x | x in BuildSpec.Cl(t, INNER)
      ensures x in {INNER, LEAF}
    {
      ReachComesFrom(BuildSpec.Feeds(t), {INNER, LEAF}, x, INNER);
    }
  }

  ghost predicate Bounds(g: BuildSpec.B) {
    && g.vertices <= {ScopeStart(OUTER), ScopeStart(INNER), Target(LEAF), Target(INNER), Target(MEMBER), Target(OUTER),
                      Target(OUTSIDER)}
    && PredsIn(g.edges, ScopeStart(OUTER), {}) && PredsIn(g.edges, ScopeStart(INNER), {ScopeStart(OUTER)})
    && PredsIn(g.edges, Target(LEAF), {ScopeStart(OUTER), ScopeStart(INNER)})
    && PredsIn(g.edges, Target(MEMBER), {ScopeStart(OUTER)})
    && PredsIn(g.edges, Target(INNER), {ScopeStart(OUTER), ScopeStart(INNER), Target(LEAF)})
    && PredsIn(g.edges, Target(OUTSIDER), {Target(LEAF)})
    && forall q :: (Target(OUTSIDER), q) !in g.members
  }

  lemma OuterStartPreds(closed: set<Name>, u: Node)
    ensures !BuildInvariant.Justified(NestedShape(), closed, u, ScopeStart(OUTER))
  {
  }

  lemma InnerStartPreds(closed: set<Name>, u: Node)
    requires BuildInvariant.Known(NestedShape(), closed, u)
    requires BuildInvariant.Justified(NestedShape(), closed, u, ScopeStart(INNER))
    ensures u == ScopeStart(OUTER)
  {
    NestedClosures();
  }

  lemma LeafPreds(closed: set<Name>, u: Node)
    requires BuildInvariant.Known(NestedShape(), closed, u)
    requires BuildInvariant.Justified(NestedShape(), closed, u, Target(LEAF))
    ensures u in {ScopeStart(OUTER), ScopeStart(INNER)}
  {
    NestedClosures();
  }

  lemma MemberPreds(closed: set<Name>, u: Node)
    requires BuildInvariant.Known(NestedShape(), closed, u)
    requires BuildInvariant.Justified(NestedShape(), closed, u, Target(MEMBER))
    ensures u == ScopeStart(OUTER)
  {
    NestedClosures();
  }

  lemma OutsiderPreds(closed: set<Name>, u: Node)
    requires BuildInvariant.Known(NestedShape(), closed, u)
    requires BuildInvariant.Justified(NestedShape(), closed, u, Target(OUTSIDER))
    ensures u == Target(LEAF)
  {
    NestedClosures();
  }

  lemma InnerPreds(closed: set<Name>, u: Node)
    requires BuildInvariant.Known(NestedShape(), closed, u)
    requires BuildInvariant.Justified(NestedShape(), closed, u, Target(INNER))
    ensures u in {ScopeStart(OUTER), ScopeStart(INNER), Target(LEAF)}
  {
    NestedClosures();
  }

  lemma OutsiderJoinsNothing(closed: set<Name>, q: Name)
    ensures !BuildInvariant.MemberFor(NestedShape(), closed, Target(OUTSIDER), q)
  {
    NestedClosures();
  }

  lemma NestedVertex(closed: set<Name>, v: Node)
    requires BuildInvariant.Known(NestedShape(), closed, v)
    ensures v in {ScopeStart(OUTER), ScopeStart(INNER), Target(LEAF), Target(INNER), Target(MEMBER), Target(OUTER),
                  Target(OUTSIDER)}
  {
  }

  lemma NestedPreds(g: BuildSpec.B, u: Node, v: Node)
    requires BuildInvariant.Inv(NestedShape(), g, {}) && (u, v) in g.edges
    ensures v != ScopeStart(OUTER) && (v == ScopeStart(INNER) ==> u == ScopeStart(OUTER))
    ensures v == Target(LEAF) ==> u in {ScopeStart(OUTER), ScopeStart(INNER)}
    ensures v == Target(MEMBER) ==> u == ScopeStart(OUTER)
    ensures v == Target(INNER) ==> u in {ScopeStart(OUTER), ScopeStart(INNER), Target(LEAF)}
    ensures v == Target(OUTSIDER) ==> u == Target(LEAF)
  {
    var t := NestedShape();
    assert BuildInvariant.Justified(t, g.closed, u, v) && BuildInvariant.Known(t, g.closed, u);
    OuterStartPreds(g.closed, u);
    if v == ScopeStart(INNER) {
      InnerStartPreds(g.closed, u);
    } else if v == Target(LEAF) {
      LeafPreds(g.closed, u);
    } else if v == Target(MEMBER) {
      MemberPreds(g.closed, u);
    } else if v == Target(OUTSIDER) {
      OutsiderPreds(g.closed, u);
    } else if v == Target(INNER) {
      InnerPreds(g.closed, u);
    }
  }

  lemma NestedBounds(g: BuildSpec.B)
    requires BuildInvariant.Inv(NestedShape(), g, {})
    ensures Bounds(g)
  {
    forall v | v in g.vertices
      ensures v in {ScopeStart(OUTER), ScopeStart(INNER), Target(LEAF), Target(INNER), Target(MEMBER), Target(OUTER),
                    Target(OUTSIDER)}
    {
      NestedVertex(g.closed, v);
    }
    forall u, v | (u, v) in g.edges
      ensures v != ScopeStart(OUTER) && (v == ScopeStart(INNER) ==> u == ScopeStart(OUTER))
      ensures v == Target(LEAF) ==> u in {ScopeStart(OUTER), ScopeStart(INNER)}
      ensures v == Target(MEMBER) ==> u == ScopeStart(OUTER)
      ensures v == Target(INNER) ==> u in {ScopeStart(OUTER), ScopeStart(INNER), Target(LEAF)}
      ensures v == Target(OUTSIDER) ==> u == Target(LEAF)
    {
      NestedPreds(g, u, v);
    }
    forall q
      ensures (Target(OUTSIDER), q) !in g.members
    {
      OutsiderJoinsNothing(g.closed, q);
    }
  }

  /** Every vertex but the first has a predecessor. */
  ghost predicate Behind(g: BuildSpec.B) {
    && (ScopeStart(OUTER), ScopeStart(INNER)) in g.edges && (ScopeStart(INNER), Target(LEAF)) in g.edges
    && (ScopeStart(OUTER), Target(MEMBER)) in g.edges && (Target(LEAF), Target(INNER)) in g.edges
    && (Target(LEAF), Target(OUTER)) in g.edges && (Target(LEAF), Target(OUTSIDER)) in g.edges
    && (Target(MEMBER), OUTER) in g.members && (ScopeStart(INNER), OUTER) in g.members
  }

  /** Of two ordered vertices, one without predecessors, or only one of them, comes first. */
  lemma FirstOfTwo(edges: set<(Node, Node)>, u: Node, v: Node)
    requires u != v && Comparable(edges, u, v) && PredsIn(edges, u, {})
    requires PredsIn(edges, v, {u})
    ensures (u, v) in edges
  {
    if Reach(edges, v, u) {
      var w := ReachLast(edges, v, u);
      assert false;
    }
    var w := ReachLast(edges, u, v);
  }

  /** The start of INNER and LEAF are ordered, and only the start of OUTER comes before either. */
  lemma InnerBeforeLeaf(edges: set<(Node, Node)>)
    requires Comparable(edges, ScopeStart(INNER), Target(LEAF)) && PredsIn(edges, ScopeStart(OUTER), {})
    requires PredsIn(edges, ScopeStart(INNER), {ScopeStart(OUTER)})
    requires PredsIn(edges, Target(LEAF), {ScopeStart(OUTER), ScopeStart(INNER)})
    ensures (ScopeStart(INNER), Target(LEAF)) in edges
  {
    var top := {ScopeStart(OUTER)};
    assert PredClosed(edges, top + {ScopeStart(INNER)}) && PredClosed(edges, top);
    if Reach(edges, Target(LEAF), ScopeStart(INNER)) {
      ReachComesFrom(edges, top + {ScopeStart(INNER)}, Target(LEAF), ScopeStart(INNER));
      assert false;
    }
    var w := ReachLast(edges, ScopeStart(INNER), Target(LEAF));
    if w == ScopeStart(OUTER) {
      ReachComesFrom(edges, top, ScopeStart(INNER), w);
      assert false;
    }
  }

  lemma NestedBehind(g: BuildSpec.B)
    requires BuildInvariant.Inv(NestedShape(), g, {}) && Bounds(g) && {OUTER, OUTSIDER} <= g.closed
    ensures Behind(g) && {INNER, MEMBER, LEAF} <= g.closed
    ensures {ScopeStart(OUTER), ScopeStart(INNER), Target(LEAF), Target(INNER), Target(MEMBER), Target(OUTSIDER)} <= g.vertices
  {
    var t := NestedShape();
    NestedClosures();
    AllClosed(g);
    InnerEdges(g);
    OuterEdges(g);
    BuildResults.DependencyPrecedes(t, g, OUTSIDER, LEAF);
    assert BuildInvariant.Finished(t, g, OUTER) && BuildInvariant.Finished(t, g, INNER);
    assert BuildInvariant.Finished(t, g, LEAF) && BuildInvariant.Finished(t, g, MEMBER) && BuildInvariant.Finished(t, g, OUTSIDER);
  }

  lemma NestedKids()
    ensures var t := NestedShape();
      INNER in BuildSpec.Kids(t[OUTER]) && MEMBER in BuildSpec.Kids(t[OUTER]) && LEAF in BuildSpec.Kids(t[INNER])
  {
    var t := NestedShape();
    assert BuildSpec.Kids(t[OUTER]) == [INNER, MEMBER] && BuildSpec.Kids(t[INNER]) == [LEAF];
  }

  lemma AllClosed(g: BuildSpec.B)
    requires BuildInvariant.ClosedUnderKids(NestedShape(), g.closed) && OUTER in g.closed
    ensures {INNER, MEMBER, LEAF} <= g.closed
  {
    NestedKids();
  }

  lemma InnerEdges(g: BuildSpec.B)
    requires BuildInvariant.Inv(NestedShape(), g, {}) && Bounds(g) && {INNER, OUTER} <= g.closed
    ensures (ScopeStart(INNER), Target(LEAF)) in g.edges && (Target(LEAF), Target(INNER)) in g.edges
    ensures (Target(LEAF), Target(OUTER)) in g.edges
  {
    var t := NestedShape();
    NestedClosures();
    BuildResults.ChildJoins(t, g, INNER, LEAF, LEAF);
    InnerBeforeLeaf(g.edges);
    BuildResults.GroupWaitsForMembers(t, g, INNER, LEAF, LEAF);
    BuildResults.GroupWaitsForMembers(t, g, OUTER, INNER, LEAF);
  }

  lemma OuterEdges(g: BuildSpec.B)
    requires BuildInvariant.Inv(NestedShape(), g, {}) && Bounds(g) && OUTER in g.closed
    ensures (ScopeStart(OUTER), ScopeStart(INNER)) in g.edges && (ScopeStart(OUTER), Target(MEMBER)) in g.edges
    ensures (Target(MEMBER), OUTER) in g.members && (ScopeStart(INNER), OUTER) in g.members
  {
    var t := NestedShape();
    NestedClosures();
    NestedPlans.StartsComparable(t, g, OUTER, INNER);
    FirstOfTwo(g.edges, ScopeStart(OUTER), ScopeStart(INNER));
    BuildResults.ChildJoins(t, g, OUTER, MEMBER, MEMBER);
    FirstOfTwo(g.edges, ScopeStart(OUTER), Target(MEMBER));
  }

  // ---- The engine's view ------------------------------------------------------------------

  /** OUTER and INNER are the composites; all but LEAF declare LOCK. */
  ghost predicate NestedSystem(sys: S.System) {
    && sys.scopes == {INNER, OUTER}
    && S.LockOf(sys, LEAF) == NoLock && S.LockOf(sys, INNER) == LOCK && S.LockOf(sys, MEMBER) == LOCK
    && S.LockOf(sys, OUTER) == LOCK && S.LockOf(sys, OUTSIDER) == LOCK
    && OUTER in S.MemberScopes(sys, Target(MEMBER)) && OUTER in S.MemberScopes(sys, ScopeStart(INNER))
    && S.MemberScopes(sys, Target(OUTSIDER)) == {}
  }

  ghost predicate NestedConfig(c: Engine.Config, g: BuildSpec.B) {
    && EngineLocks.WellFormed(c) && c.walk.vertices == g.vertices && c.walk.edges == g.edges && c.walk.parallelism == 2
    && NestedGraph(g) && NestedSystem(c.sys)
  }

  lemma SystemLocks(plan: Plan, g: BuildSpec.B)
    requires plan.targets.Keys == {LEAF, INNER, MEMBER, OUTER, OUTSIDER} && plan.targets[LEAF].lock == NoLock
    requires forall n :: n in plan.targets && n != LEAF ==> plan.targets[n].lock == LOCK
    ensures var sys := SystemOf(plan, g);
      && S.LockOf(sys, LEAF) == NoLock && S.LockOf(sys, INNER) == LOCK && S.LockOf(sys, MEMBER) == LOCK
      && S.LockOf(sys, OUTER) == LOCK && S.LockOf(sys, OUTSIDER) == LOCK
  {
  }

  lemma SystemMembers(plan: Plan, g: BuildSpec.B)
    requires Bounds(g) && Behind(g) && Target(MEMBER) in g.vertices && ScopeStart(INNER) in g.vertices
    requires ExecutionGraph.ShapeOf(plan).Keys == {LEAF, INNER, MEMBER, OUTER, OUTSIDER}
    ensures var sys := SystemOf(plan, g);
      && OUTER in S.MemberScopes(sys, Target(MEMBER)) && OUTER in S.MemberScopes(sys, ScopeStart(INNER))
      && S.MemberScopes(sys, Target(OUTSIDER)) == {}
  {
    forall q
      ensures q !in S.MemberScopes(SystemOf(plan, g), Target(OUTSIDER))
    {
      assert (Target(OUTSIDER), q) !in g.members;
    }
  }

  lemma SystemScopes(plan: Plan, g: BuildSpec.B)
    requires ExecutionGraph.ShapeOf(plan) == NestedShape()
    ensures SystemOf(plan, g).scopes == {INNER, OUTER}
  {
    var t := NestedShape();
    assert t[INNER].members == [LEAF] && t[OUTER].members == [INNER, MEMBER];
  }

  lemma BuiltIsNested(project: Project, requested: seq<Name>, plan: Plan, g: BuildSpec.B, t: BuildSpec.Shape)
    requires Built(project, requested, plan, g) && ExecutionGraph.ShapeOf(plan) == t
    requires OUTER in requested && OUTSIDER in requested
    ensures BuildInvariant.Inv(t, g, {}) && {OUTER, OUTSIDER} <= g.closed
  {
    BuiltInv(project, requested, plan, g);
  }

  lemma IsNestedSystem(plan: Plan, g: BuildSpec.B, t: BuildSpec.Shape)
    requires ExecutionGraph.ShapeOf(plan) == t && t == NestedShape() && Bounds(g) && Behind(g)
    requires Target(MEMBER) in g.vertices && ScopeStart(INNER) in g.vertices
    requires plan.targets.Keys == {LEAF, INNER, MEMBER, OUTER, OUTSIDER} && plan.targets[LEAF].lock == NoLock
    requires forall n :: n in plan.targets && n != LEAF ==> plan.targets[n].lock == LOCK
    ensures NestedSystem(SystemOf(plan, g))
  {
    SystemLocks(plan, g);
    SystemMembers(plan, g);
    SystemScopes(plan, g);
  }

  /** What the run needs of the graph. */
  ghost predicate NestedGraph(g: BuildSpec.B) {
    && Bounds(g) && Behind(g)
    && {ScopeStart(OUTER), ScopeStart(INNER), Target(LEAF), Target(INNER), Target(MEMBER), Target(OUTSIDER)} <= g.vertices
  }

  lemma IsNestedGraph(g: BuildSpec.B, t: BuildSpec.Shape)
    requires t == NestedShape() && BuildInvariant.Inv(t, g, {}) && {OUTER, OUTSIDER} <= g.closed
    ensures NestedGraph(g)
  {
    NestedBounds(g);
    NestedBehind(g);
  }

  lemma IsNestedConfig(project: Project, requested: seq<Name>, plan: Plan, g: BuildSpec.B, t: BuildSpec.Shape)
    requires OUTER in requested && OUTSIDER in requested
    requires Built(project, requested, plan, g) && ExecutionGraph.ShapeOf(plan) == t && t == NestedShape()
    requires plan.targets.Keys == {LEAF, INNER, MEMBER, OUTER, OUTSIDER} && plan.targets[LEAF].lock == NoLock
    requires forall n :: n in plan.targets && n != LEAF ==> plan.targets[n].lock == LOCK
    ensures NestedConfig(ConfigOf(plan, g, 2), g)
  {
    BuiltIsNested(project, requested, plan, g, t);
    IsNestedGraph(g, t);
    IsNestedSystem(plan, g, t);
    BuiltSuitsEngine(project, requested, plan, g, 2);
  }

  // ---- The run --------------------------------------------------------------------------------

  /** Both scopes open; and what is left once INNER has ended. */
  const BOTH := S.State({LOCK}, 0, {OUTER, INNER}, map[])
  const LOST := S.State({}, 1, {OUTER}, map[])

  lemma Unreserved(s: S.State, v: Node)
    requires v !in s.reserved
    ensures S.Forget(s, v) == s
  {
    assert s.reserved - {v} == s.reserved;
  }

  lemma InnerOpens(sys: S.System)
    requires NestedSystem(sys)
    ensures CanAdmit(sys, ScopeOpen(OUTER, LOCK), ScopeStart(INNER))
    ensures Completed(sys, Admitted(sys, ScopeOpen(OUTER, LOCK), ScopeStart(INNER)), ScopeStart(INNER)) == BOTH
  {
    assert S.Covered(sys, ScopeOpen(OUTER, LOCK), ScopeStart(INNER), LOCK);
    assert {OUTER} + {INNER} == {OUTER, INNER};
    Unreserved(BOTH, ScopeStart(INNER));
  }

  lemma MemberJoins(sys: S.System)
    requires NestedSystem(sys)
    ensures CanAdmit(sys, ScopeOpen(OUTER, LOCK), Target(MEMBER))
    ensures Admitted(sys, ScopeOpen(OUTER, LOCK), Target(MEMBER)) == ScopeOpen(OUTER, LOCK)
  {
    assert S.Covered(sys, ScopeOpen(OUTER, LOCK), Target(MEMBER), LOCK);
  }

  lemma LeafPasses(sys: S.System)
    requires NestedSystem(sys)
    ensures CanAdmit(sys, BOTH, Target(LEAF)) && Completed(sys, Admitted(sys, BOTH, Target(LEAF)), Target(LEAF)) == BOTH
  {
    Unreserved(BOTH, Target(LEAF));
  }

  /** The end of INNER frees the lock that OUTER still needs. */
  lemma InnerEnds(sys: S.System)
    requires NestedSystem(sys)
    ensures CanAdmit(sys, BOTH, Target(INNER)) && Completed(sys, Admitted(sys, BOTH, Target(INNER)), Target(INNER)) == LOST
  {
    assert {OUTER, INNER} - {INNER} == {OUTER};
    assert {LOCK} - {LOCK} == {};
  }

  lemma OutsiderAdmitted(sys: S.System)
    requires NestedSystem(sys)
    ensures CanAdmit(sys, LOST, Target(OUTSIDER)) && Admitted(sys, LOST, Target(OUTSIDER)).scopes == {OUTER}
  {
  }

  lemma FirstMoves(c: Engine.Config, g: BuildSpec.B)
    requires NestedConfig(c, g)
    ensures Startable(c, [ScopeStart(OUTER)], {}, {})
    ensures Startable(c, [Target(MEMBER), ScopeStart(INNER)], {ScopeStart(OUTER)} + {}, {} + {ScopeStart(OUTER)})
  {
  }

  /** Once both scopes are open, LEAF, INNER and OUTSIDER can start in turn. */
  lemma LaterMoves(c: Engine.Config, g: BuildSpec.B, s0: set<Node>) returns (s1: set<Node>, s2: set<Node>)
    requires NestedConfig(c, g) && s0 == {ScopeStart(OUTER)} + {ScopeStart(INNER)}
    ensures CanFollow(c, Target(LEAF), {Target(MEMBER)} + {ScopeStart(INNER)} + {ScopeStart(OUTER)}, s0)
    ensures s1 == s0 + {Target(LEAF)} && CanFollow(c, Target(INNER), {Target(MEMBER)} + {Target(LEAF)} + s0, s1)
    ensures s2 == s1 + {Target(INNER)} && CanFollow(c, Target(OUTSIDER), {Target(MEMBER)} + {Target(INNER)} + s1, s2)
  {
    s1 := s0 + {Target(LEAF)};
    s2 := s1 + {Target(INNER)};
  }

  lemma NothingElse(c: Engine.Config, g: BuildSpec.B)
    requires NestedConfig(c, g)
    ensures forall w :: w in c.walk.vertices && w !in {} && w != ScopeStart(OUTER) ==> !PredsIn(c.walk.edges, w, {})
  {
  }

  lemma OuterPoised(c: Engine.Config, g: BuildSpec.B) returns (e: Engine.State)
    requires NestedConfig(c, g)
    ensures Poised(c, e, {}, {}, NOTHING, ScopeStart(OUTER))
  {
    FirstMoves(c, g);
    e := Begin(c, [ScopeStart(OUTER)]);
  }

  lemma OuterAlone(c: Engine.Config, g: BuildSpec.B) returns (e: Engine.State)
    requires NestedConfig(c, g)
    ensures Poised(c, e, {}, {}, NOTHING, ScopeStart(OUTER)) && |e.walk.ready| == 1
  {
    e := OuterPoised(c, g);
    NothingElse(c, g);
    OnlyReady(c, e, {}, NOTHING, ScopeStart(OUTER));
  }

  lemma OuterRuns(c: Engine.Config, g: BuildSpec.B) returns (e: Engine.State)
    requires NestedConfig(c, g)
    ensures Poised(c, e, {}, {ScopeStart(OUTER)}, ScopeOpen(OUTER, LOCK), Target(MEMBER))
    ensures |e.walk.ready| > 1 && e.walk.ready[1] == ScopeStart(INNER)
  {
    var e0 := OuterAlone(c, g);
    FirstMoves(c, g);
    StartOpens(c.sys, OUTER);
    e := RunOnly(c, e0, NOTHING, ScopeOpen(OUTER, LOCK), ScopeStart(OUTER), Target(MEMBER), ScopeStart(INNER));
  }

  lemma InnerRuns(c: Engine.Config, done: set<Node>, e: Engine.State) returns (e': Engine.State)
    requires EngineLocks.WellFormed(c) && c.walk.parallelism == 2 && NestedSystem(c.sys)
    requires Poised(c, e, {}, {ScopeStart(OUTER)}, ScopeOpen(OUTER, LOCK), Target(MEMBER))
    requires |e.walk.ready| > 1 && e.walk.ready[1] == ScopeStart(INNER)
    requires done == {ScopeStart(OUTER)} + {ScopeStart(INNER)}
    requires CanFollow(c, Target(LEAF), {Target(MEMBER)} + {ScopeStart(INNER)} + {ScopeStart(OUTER)}, done)
    ensures Poised(c, e', {Target(MEMBER)}, done, BOTH, Target(LEAF))
  {
    MemberJoins(c.sys);
    InnerOpens(c.sys);
    e' := Beside(c, e, {ScopeStart(OUTER)}, ScopeOpen(OUTER, LOCK), ScopeOpen(OUTER, LOCK), BOTH, Target(MEMBER),
                 ScopeStart(INNER), Target(LEAF), done);
  }

  lemma LeafRuns(c: Engine.Config, done: set<Node>, done': set<Node>, e: Engine.State) returns (e': Engine.State)
    requires EngineLocks.WellFormed(c) && c.walk.parallelism == 2 && NestedSystem(c.sys)
    requires Poised(c, e, {Target(MEMBER)}, done, BOTH, Target(LEAF)) && done' == done + {Target(LEAF)}
    requires CanFollow(c, Target(INNER), {Target(MEMBER)} + {Target(LEAF)} + done, done')
    ensures Poised(c, e', {Target(MEMBER)}, done', BOTH, Target(INNER))
  {
    LeafPasses(c.sys);
    e' := Pass(c, e, Target(MEMBER), done, BOTH, BOTH, Target(LEAF), Target(INNER), done');
  }

  lemma InnerFinishes(c: Engine.Config, done: set<Node>, done': set<Node>, e: Engine.State) returns (e': Engine.State)
    requires EngineLocks.WellFormed(c) && c.walk.parallelism == 2 && NestedSystem(c.sys)
    requires Poised(c, e, {Target(MEMBER)}, done, BOTH, Target(INNER)) && done' == done + {Target(INNER)}
    requires CanFollow(c, Target(OUTSIDER), {Target(MEMBER)} + {Target(INNER)} + done, done')
    ensures Poised(c, e', {Target(MEMBER)}, done', LOST, Target(OUTSIDER))
  {
    InnerEnds(c.sys);
    e' := Pass(c, e, Target(MEMBER), done, BOTH, LOST, Target(INNER), Target(OUTSIDER), done');
  }

  /** MEMBER and OUTSIDER work under LOCK, and no open scope has both as members. */
  ghost predicate Unprotected(c: Engine.Config, e: Engine.State) {
    && EngineSafety.WorksUnder(c, e, Target(MEMBER), LOCK) && EngineSafety.WorksUnder(c, e, Target(OUTSIDER), LOCK)
    && forall p :: p in e.ses.scopes ==> p !in S.MemberScopes(c.sys, Target(OUTSIDER))
  }

  lemma IsUnprotected(c: Engine.Config, e: Engine.State, done: set<Node>)
    requires NestedSystem(c.sys) && Resting(e, {Target(MEMBER)} + {Target(OUTSIDER)}, done) && e.ses.scopes == {OUTER}
    ensures Unprotected(c, e)
  {
    assert Target(MEMBER) in e.stage && Target(OUTSIDER) in e.stage;
  }

  lemma OutsiderStarts(c: Engine.Config, done: set<Node>, e: Engine.State) returns (e': Engine.State)
    requires EngineLocks.WellFormed(c) && c.walk.parallelism == 2 && NestedSystem(c.sys)
    requires Poised(c, e, {Target(MEMBER)}, done, LOST, Target(OUTSIDER))
    ensures Reachable(c, e') && Unprotected(c, e')
  {
    OutsiderAdmitted(c.sys);
    e' := Launch(c, e, {Target(MEMBER)}, done, LOST, Target(OUTSIDER));
    IsUnprotected(c, e', done);
  }

  /** Beside MEMBER, the start of INNER, LEAF and INNER run, and OUTSIDER starts. */
  lemma LastMoves(c: Engine.Config, s0: set<Node>, s1: set<Node>, s2: set<Node>, e0: Engine.State) returns (e: Engine.State)
    requires EngineLocks.WellFormed(c) && c.walk.parallelism == 2 && NestedSystem(c.sys)
    requires Poised(c, e0, {}, {ScopeStart(OUTER)}, ScopeOpen(OUTER, LOCK), Target(MEMBER))
    requires |e0.walk.ready| > 1 && e0.walk.ready[1] == ScopeStart(INNER) && s0 == {ScopeStart(OUTER)} + {ScopeStart(INNER)}
    requires CanFollow(c, Target(LEAF), {Target(MEMBER)} + {ScopeStart(INNER)} + {ScopeStart(OUTER)}, s0)
    requires s1 == s0 + {Target(LEAF)} && CanFollow(c, Target(INNER), {Target(MEMBER)} + {Target(LEAF)} + s0, s1)
    requires s2 == s1 + {Target(INNER)} && CanFollow(c, Target(OUTSIDER), {Target(MEMBER)} + {Target(INNER)} + s1, s2)
    ensures Reachable(c, e) && Unprotected(c, e)
  {
    var e1 := InnerRuns(c, s0, e0);
    var e2 := LeafRuns(c, s0, s1, e1);
    var e3 := InnerFinishes(c, s1, s2, e2);
    e := OutsiderStarts(c, s2, e3);
  }

  lemma BothAtWork(c: Engine.Config, g: BuildSpec.B) returns (e: Engine.State)
    requires NestedConfig(c, g)
    ensures Reachable(c, e) && Unprotected(c, e)
  {
    var both := {ScopeStart(OUTER)} + {ScopeStart(INNER)};
    var e1 := OuterRuns(c, g);
    var s1, s2 := LaterMoves(c, g, both);
    e := LastMoves(c, both, s1, s2, e1);
  }

  /** From the project to the run: a group inside a group with the same lock ends, and a target outside both works
      under that lock beside a member of the outer group, whose scope is still open. */
  lemma ExclusionIsLost() returns (plan: Plan, g: BuildSpec.B, run: seq<Engine.State>, i: nat)
    ensures Runs(NestedProject(), REQUESTED, plan, g, 2, run) && i < |run|
    ensures Unprotected(ConfigOf(plan, g, 2), run[i])
  {
    NestedIsNested();
    NestedOrder();
    plan, g := NestedBuilt(NestedProject());
    IsNestedConfig(NestedProject(), REQUESTED, plan, g, NestedShape());
    var e := BothAtWork(ConfigOf(plan, g, 2), g);
    run, i := RunTo(ConfigOf(plan, g, 2), e);
  }
}
