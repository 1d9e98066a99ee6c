/** What composites that share a lock do to each other in the runs of a plan. */
module NestedPlans {
  import opened Nodes
  import opened Digraph
  import opened Wrappers
  import opened Planner
  import opened EndToEnd
  import BuildInvariant
  import BuildResults
  import BuildSpec
  import Engine
  import EngineLocks
  import EngineSafety
  import ExecutionGraph
  import NestedLocks
  import Walk
  import S = Session

  // ---- Order within a graph ------------------------------------------------------------

  /** When every pipeline ends last, everything a target needs comes before it. */
  lemma KidPrecedes(t: BuildSpec.Shape, b: BuildSpec.B, k: Name, n: Name)
    requires BuildInvariant.Inv(t, b, {}) && n in b.closed && k in BuildSpec.Kids(t[n]) && BuildResults.EndsLast(t, b.edges, n)
    ensures Reach(b.edges, Target(k), Target(n))
  {
    BuildInvariant.ClSelf(t, k);
    if k in t[n].deps {
      BuildResults.DependencyPrecedes(t, b, n, k);
      ReachEdge(b.edges, Target(k), Target(n));
    } else if k in t[n].steps {
      var i :| 0 <= i < |t[n].steps| && t[n].steps[i] == k;
      assert k in BuildSpec.Cl(t, t[n].steps[i]);
    } else {
      BuildResults.GroupWaitsForMembers(t, b, n, k, k);
      ReachEdge(b.edges, Target(k), Target(n));
    }
  }

  lemma {:induction false} NeededPrecedes(t: BuildSpec.Shape, b: BuildSpec.B, path: seq<Name>, x: Name, n: Name)
    requires BuildInvariant.Inv(t, b, {}) && n in b.closed && Joins(BuildSpec.Feeds(t), path, x, n)
    requires forall m :: m in b.closed ==> BuildResults.EndsLast(t, b.edges, m)
    ensures Reach(b.edges, Target(x), Target(n)) && x in b.closed
    decreases |path|
  {
    if |path| == 1 {
      ReachRefl(b.edges, Target(n));
    } else {
      NeededPrecedes(t, b, path[1..], path[1], n);
      assert (x, path[1]) in BuildSpec.Feeds(t);
      KidPrecedes(t, b, x, path[1]);
      ReachTrans(b.edges, Target(x), Target(path[1]), Target(n));
    }
  }

  /** What the dependencies of a composite need is done before it opens. */
  lemma DoneBeforeOpening(t: BuildSpec.Shape, b: BuildSpec.B, p: Name, x: Name)
    requires BuildInvariant.Inv(t, b, {}) && p in b.closed && BuildSpec.HasScope(t[p])
    requires forall m :: m in b.closed ==> BuildResults.EndsLast(t, b.edges, m)
    requires x in BuildSpec.Closures(t, t[p].deps)
    ensures Reach(b.edges, Target(x), ScopeStart(p))
  {
    BuildInvariant.InClosures(t, t[p].deps, x);
    var d :| d in t[p].deps && x in BuildSpec.Cl(t, d);
    assert d in BuildSpec.Kids(t[p]);
    var path :| Joins(BuildSpec.Feeds(t), path, x, d);
    NeededPrecedes(t, b, path, x, d);
    BuildResults.DependencyPrecedes(t, b, p, d);
    ReachSnoc(b.edges, Target(x), Target(d), ScopeStart(p));
  }

  /** The scope starts of a composite and of a child are ordered. */
  lemma StartsComparable(t: BuildSpec.Shape, b: BuildSpec.B, p: Name, q: Name)
    requires BuildInvariant.Inv(t, b, {}) && p in b.closed && q in BuildInvariant.Children(t[p])
    requires q in t && BuildSpec.HasScope(t[q])
    ensures Comparable(b.edges, ScopeStart(p), ScopeStart(q)) && (ScopeStart(q), p) in b.members
  {
    assert BuildInvariant.Finished(t, b, p);
    if q in t[p].steps {
      var i :| 0 <= i < |t[p].steps| && t[p].steps[i] == q;
      assert BuildInvariant.StepDone(t, b, p, i);
      assert ScopeStart(q) in BuildSpec.Fresh(t, q, BuildSpec.Prev(t, p, i));
    } else {
      var i :| 0 <= i < |t[p].members| && t[p].members[i] == q;
      assert BuildInvariant.MemberDone(t, b, p, i);
      assert ScopeStart(q) in BuildSpec.Fresh(t, q, BuildSpec.Closures(t, t[p].deps));
    }
  }

  /** A composite without dependencies that is a child of no other comes first: nothing leads to its start. */
  ghost predicate OnTop(t: BuildSpec.Shape, p: Name) {
    p in t && t[p].deps == [] && forall o :: o in t ==> p !in BuildInvariant.Children(t[o])
  }

  lemma NothingJustified(t: BuildSpec.Shape, closed: set<Name>, p: Name, w: Node)
    requires OnTop(t, p)
    ensures !BuildInvariant.Justified(t, closed, w, ScopeStart(p))
  {
  }

  lemma TopHasNoPredecessor(t: BuildSpec.Shape, b: BuildSpec.B, p: Name, u: Node)
    requires BuildInvariant.Inv(t, b, {}) && OnTop(t, p)
    ensures Reach(b.edges, u, ScopeStart(p)) ==> u == ScopeStart(p)
  {
    forall w
      ensures (w, ScopeStart(p)) !in b.edges
    {
      NothingJustified(t, b.closed, p, w);
    }
    if Reach(b.edges, u, ScopeStart(p)) && u != ScopeStart(p) {
      var w := ReachLast(b.edges, u, ScopeStart(p));
      assert false;
    }
  }

  // ---- Direct nesting --------------------------------------------------------------------

  /** q is a composite and a child of the composite p, with the same lock. */
  ghost predicate SharedNesting(plan: Plan, p: Name, q: Name) {
    var t := ExecutionGraph.ShapeOf(plan);
    && p in plan.targets && q in plan.targets && q in BuildInvariant.Children(t[p]) && BuildSpec.HasScope(t[q])
    && plan.targets[p].lock == plan.targets[q].lock != NoLock
  }

  /** No inner composite has to open before the outer one. */
  ghost predicate OuterFirst(plan: Plan, b: BuildSpec.B) {
    forall p, q :: SharedNesting(plan, p, q) && p in b.closed ==> !Reach(b.edges, ScopeStart(q), ScopeStart(p))
  }

  /** ... which is so when the outer composites are on top. */
  lemma TopIsFirst(project: Project, requested: seq<Name>, plan: Plan, b: BuildSpec.B)
    requires Built(project, requested, plan, b)
    requires forall p, q :: SharedNesting(plan, p, q) ==> OnTop(ExecutionGraph.ShapeOf(plan), p)
    ensures OuterFirst(plan, b)
  {
    BuiltInv(project, requested, plan, b);
    BuiltIsOrdered(project, requested, plan);
    forall p, q | SharedNesting(plan, p, q) && p in b.closed
      ensures !Reach(b.edges, ScopeStart(q), ScopeStart(p))
    {
      TopHasNoPredecessor(ExecutionGraph.ShapeOf(plan), b, p, ScopeStart(q));
      NotOwnChild(ExecutionGraph.ShapeOf(plan), p, q);
    }
  }

  lemma NotOwnChild(t: BuildSpec.Shape, p: Name, q: Name)
    requires Acyclic(BuildSpec.Feeds(t)) && p in t && q in BuildSpec.Kids(t[p])
    ensures p != q
  {
    assert (q, p) in BuildSpec.Feeds(t);
    ReachRefl(BuildSpec.Feeds(t), p);
  }

  lemma SharesBuilt(project: Project, requested: seq<Name>, plan: Plan, b: BuildSpec.B, parallelism: int, p: Name, q: Name)
    requires Built(project, requested, plan, b) && NestedLocks.Shares(ConfigOf(plan, b, parallelism), p, q)
    ensures SharedNesting(plan, p, q) && p in b.closed
  {
    var t := ExecutionGraph.ShapeOf(plan);
    BuiltInv(project, requested, plan, b);
    MemberPair(plan, b, ScopeStart(q), p);
    StartIsChild(t, b, p, q);
    assert BuildInvariant.Known(t, b.closed, ScopeStart(p));
  }

  lemma ChildBuilt(t: BuildSpec.Shape, b: BuildSpec.B, p: Name, q: Name)
    requires BuildInvariant.Inv(t, b, {}) && p in b.closed && q in BuildInvariant.Children(t[p])
    requires q in t && BuildSpec.HasScope(t[q])
    ensures ScopeStart(p) in b.vertices && ScopeStart(q) in b.vertices && Target(q) in b.vertices && q in b.closed
  {
    assert q in BuildSpec.Kids(t[p]) && BuildInvariant.Finished(t, b, q) && BuildInvariant.Finished(t, b, p);
  }

  lemma BuiltShares(project: Project, requested: seq<Name>, plan: Plan, b: BuildSpec.B, parallelism: int, p: Name, q: Name)
    requires Built(project, requested, plan, b) && SharedNesting(plan, p, q) && p in b.closed
    ensures NestedLocks.Shares(ConfigOf(plan, b, parallelism), p, q)
    ensures ScopeStart(p) in b.vertices && ScopeStart(q) in b.vertices && Target(q) in b.vertices && q in b.closed
    ensures Comparable(b.edges, ScopeStart(p), ScopeStart(q))
  {
    var t := ExecutionGraph.ShapeOf(plan);
    BuiltInv(project, requested, plan, b);
    StartsComparable(t, b, p, q);
    ChildBuilt(t, b, p, q);
    SystemShares(plan, b, p, q);
  }

  lemma SystemShares(plan: Plan, b: BuildSpec.B, p: Name, q: Name)
    requires p in plan.targets && q in plan.targets && plan.targets[p].lock == plan.targets[q].lock
    requires (ScopeStart(q), p) in b.members && ScopeStart(q) in b.vertices
    ensures p in S.MemberScopes(SystemOf(plan, b), ScopeStart(q))
    ensures S.LockOf(SystemOf(plan, b), p) == S.LockOf(SystemOf(plan, b), q) == plan.targets[p].lock
  {
  }

  lemma Ends(project: Project, requested: seq<Name>, plan: Plan, b: BuildSpec.B, p: Name, q: Name)
    requires Built(project, requested, plan, b) && SharedNesting(plan, p, q) && p in b.closed
    requires BuildResults.EndsLast(ExecutionGraph.ShapeOf(plan), b.edges, p)
    ensures Reach(b.edges, Target(q), Target(p)) && p != q
  {
    var t := ExecutionGraph.ShapeOf(plan);
    BuiltInv(project, requested, plan, b);
    BuiltIsOrdered(project, requested, plan);
    KidPrecedes(t, b, q, p);
    NotOwnChild(t, p, q);
  }

  /** A member of q's scope is a member of p's, or done before p opens. */
  lemma MembersAsWell(t: BuildSpec.Shape, b: BuildSpec.B, p: Name, q: Name, v: Node)
    requires BuildInvariant.Inv(t, b, {}) && p in b.closed && q in BuildInvariant.Children(t[p]) && BuildSpec.HasScope(t[p])
    requires forall m :: m in b.closed ==> BuildResults.EndsLast(t, b.edges, m)
    requires v.Target? && (v, q) in b.members
    ensures (v, p) in b.members || Reach(b.edges, v, ScopeStart(p))
  {
    assert BuildInvariant.MemberFor(t, b.closed, v, q);
    MemberNeeded(t, b.closed, q, v);
    if v.name in BuildSpec.Closures(t, t[p].deps) {
      DoneBeforeOpening(t, b, p, v.name);
    } else {
      BuildResults.ChildJoins(t, b, p, q, v.name);
    }
  }

  lemma MemberNeeded(t: BuildSpec.Shape, closed: set<Name>, q: Name, v: Node)
    requires BuildInvariant.MemberFor(t, closed, v, q) && v.Target?
    ensures v.name in BuildSpec.Cl(t, q)
  {
    var kid :| kid in BuildInvariant.Children(t[q]) && BuildInvariant.Enters(t, closed, kid, v);
    assert kid in BuildSpec.Kids(t[q]);
    BuildInvariant.ClKid(t, kid, q);
  }

  lemma EndsLastClosed(project: Project, requested: seq<Name>, plan: Plan, b: BuildSpec.B)
    requires Built(project, requested, plan, b) && AllEndLast(plan, b)
    ensures var t := ExecutionGraph.ShapeOf(plan);
      forall m :: m in b.closed ==> m in t && BuildResults.EndsLast(t, b.edges, m)
  {
    BuiltInv(project, requested, plan, b);
  }

  lemma PairEncloses(project: Project, requested: seq<Name>, plan: Plan, b: BuildSpec.B, parallelism: int, p: Name, q: Name)
    requires Built(project, requested, plan, b) && AllEndLast(plan, b) && OuterFirst(plan, b)
    requires NestedLocks.Shares(ConfigOf(plan, b, parallelism), p, q)
    ensures NestedLocks.Within(ConfigOf(plan, b, parallelism), p, q)
    ensures NestedLocks.MembersToo(ConfigOf(plan, b, parallelism), p, q)
  {
    var c := ConfigOf(plan, b, parallelism);
    BuiltInv(project, requested, plan, b);
    SharesBuilt(project, requested, plan, b, parallelism, p, q);
    BuiltShares(project, requested, plan, b, parallelism, p, q);
    Ends(project, requested, plan, b, p, q);
    EndsLastClosed(project, requested, plan, b);
    forall v | v in b.vertices && EngineSafety.SharesLock(c, v, q)
      ensures p in S.MemberScopes(c.sys, v) || Reach(b.edges, v, ScopeStart(p))
    {
      MemberPair(plan, b, v, q);
      MembersAsWell(ExecutionGraph.ShapeOf(plan), b, p, q, v);
    }
  }

  lemma PlanEncloses(project: Project, requested: seq<Name>, plan: Plan, b: BuildSpec.B, parallelism: int)
    requires Built(project, requested, plan, b) && AllEndLast(plan, b) && OuterFirst(plan, b)
    ensures NestedLocks.Enclosing(ConfigOf(plan, b, parallelism))
  {
    forall p, q | NestedLocks.Shares(ConfigOf(plan, b, parallelism), p, q)
      ensures NestedLocks.Within(ConfigOf(plan, b, parallelism), p, q)
      ensures NestedLocks.MembersToo(ConfigOf(plan, b, parallelism), p, q)
    {
      PairEncloses(project, requested, plan, b, parallelism, p, q);
    }
  }

  /** The vertex of some composite nested in one with its lock has returned. */
  ghost predicate InnerEnded(plan: Plan, b: BuildSpec.B, e: Engine.State) {
    exists p, q :: SharedNesting(plan, p, q) && p in b.closed && NestedLocks.Ended(e, q)
  }

  /** In a run of a plan, every open scope holds its lock throughout exactly when no composite that is a child of
      one with the same lock comes to its end. */
  lemma LocksHeldIff(project: Project, requested: seq<Name>, plan: Plan, b: BuildSpec.B, parallelism: int,
                     run: seq<Engine.State>)
    requires Runs(project, requested, plan, b, parallelism, run) && AllEndLast(plan, b) && OuterFirst(plan, b)
    ensures NestedLocks.AlwaysHolds(ConfigOf(plan, b, parallelism), run)
      <==> forall i :: 0 <= i < |run| ==> !InnerEnded(plan, b, run[i])
  {
    var c := ConfigOf(plan, b, parallelism);
    BuiltSuitsEngine(project, requested, plan, b, parallelism);
    PlanEncloses(project, requested, plan, b, parallelism);
    NestedLocks.ScopesKeepLocksIff(c, run);
    forall i | 0 <= i < |run|
      ensures InnerEnded(plan, b, run[i]) <==> exists q :: NestedLocks.Inner(c, q) && NestedLocks.Ended(run[i], q)
    {
      EndedIff(project, requested, plan, b, parallelism, run[i]);
    }
  }

  /** ... so scopes hold their locks in every run exactly when in no run such a composite comes to its end. */
  lemma LocksAlwaysHeldIff(project: Project, requested: seq<Name>, plan: Plan, b: BuildSpec.B, parallelism: int)
    requires Built(project, requested, plan, b) && AllEndLast(plan, b) && OuterFirst(plan, b)
    ensures (forall run :: Runs(project, requested, plan, b, parallelism, run) ==>
               NestedLocks.AlwaysHolds(ConfigOf(plan, b, parallelism), run))
      <==> (forall run, i: nat :: Runs(project, requested, plan, b, parallelism, run) && i < |run| ==>
              !InnerEnded(plan, b, run[i]))
  {
    forall run | Runs(project, requested, plan, b, parallelism, run)
      ensures NestedLocks.AlwaysHolds(ConfigOf(plan, b, parallelism), run)
        <==> forall i :: 0 <= i < |run| ==> !InnerEnded(plan, b, run[i])
    {
      LocksHeldIff(project, requested, plan, b, parallelism, run);
    }
  }

  lemma EndedIff(project: Project, requested: seq<Name>, plan: Plan, b: BuildSpec.B, parallelism: int, e: Engine.State)
    requires Built(project, requested, plan, b)
    ensures InnerEnded(plan, b, e)
      <==> exists q :: NestedLocks.Inner(ConfigOf(plan, b, parallelism), q) && NestedLocks.Ended(e, q)
  {
    var c := ConfigOf(plan, b, parallelism);
    if InnerEnded(plan, b, e) {
      var p, q :| SharedNesting(plan, p, q) && p in b.closed && NestedLocks.Ended(e, q);
      BuiltShares(project, requested, plan, b, parallelism, p, q);
      assert NestedLocks.Inner(c, q);
    }
    if q :| NestedLocks.Inner(c, q) && NestedLocks.Ended(e, q) {
      var p :| NestedLocks.Shares(c, p, q);
      SharesBuilt(project, requested, plan, b, parallelism, p, q);
    }
  }

  /** The step with which an inner composite ends leaves the outer one open without its lock. */
  lemma InnerEndFreesOuter(project: Project, requested: seq<Name>, plan: Plan, b: BuildSpec.B, parallelism: int,
                           run: seq<Engine.State>, i: nat, j: nat, p: Name, q: Name)
    requires Runs(project, requested, plan, b, parallelism, run) && i < j < |run|
    requires SharedNesting(plan, p, q) && p in b.closed && !Reach(b.edges, ScopeStart(q), ScopeStart(p))
    requires BuildResults.EndsLast(ExecutionGraph.ShapeOf(plan), b.edges, p)
    requires Engine.Next(ConfigOf(plan, b, parallelism), run[i], Engine.CloseLock(q), run[j])
    ensures p in run[j].ses.scopes && plan.targets[p].lock !in run[j].ses.held
  {
    var c := ConfigOf(plan, b, parallelism);
    BuiltSuitsEngine(project, requested, plan, b, parallelism);
    BuiltShares(project, requested, plan, b, parallelism, p, q);
    Ends(project, requested, plan, b, p, q);
    EngineLocks.RunInv(c, run, i);
    NestedLocks.ClosingFreesOuter(c, run[i], p, q, run[j]);
  }

  // ---- Deeper nesting ---------------------------------------------------------------------------

  /** q is needed by a child of p, but not by a dependency of p. */
  ghost predicate Deep(t: BuildSpec.Shape, p: Name, q: Name) {
    && p in t && q in t && BuildSpec.HasScope(t[q]) && q !in BuildSpec.Closures(t, t[p].deps)
    && exists kid :: kid in BuildInvariant.Children(t[p]) && q in BuildSpec.Cl(t, kid)
  }

  lemma DeepEnds(t: BuildSpec.Shape, b: BuildSpec.B, p: Name, q: Name)
    requires BuildInvariant.Inv(t, b, {}) && p in b.closed && Deep(t, p, q) && BuildResults.EndsLast(t, b.edges, p)
    ensures Comparable(b.edges, ScopeStart(p), Target(q)) && Reach(b.edges, Target(q), Target(p)) && q in b.closed
  {
    var kid :| kid in BuildInvariant.Children(t[p]) && q in BuildSpec.Cl(t, kid);
    BuildResults.ChildJoins(t, b, p, kid, q);
    BuildResults.MembersPrecedeEnd(t, b, p, q);
    assert kid in BuildSpec.Kids(t[p]);
    BuildInvariant.ClClosed(t, b.closed, kid);
  }

  /** A composite anywhere below a child of one with the same lock is interlocked with it, exactly if it does not
      end before the other opens. */
  lemma DeepInterlockedIff(project: Project, requested: seq<Name>, plan: Plan, b: BuildSpec.B, parallelism: int,
                           p: Name, q: Name)
    requires Built(project, requested, plan, b) && p in b.closed && Deep(ExecutionGraph.ShapeOf(plan), p, q)
    requires BuildResults.EndsLast(ExecutionGraph.ShapeOf(plan), b.edges, p)
    requires plan.targets[p].lock == plan.targets[q].lock != NoLock
    ensures EngineSafety.Interlocked(ConfigOf(plan, b, parallelism), p, q)
      <==> !Reach(b.edges, Target(q), ScopeStart(p))
  {
    BuiltInv(project, requested, plan, b);
    BuiltIsOrdered(project, requested, plan);
    DeepReaches(ExecutionGraph.ShapeOf(plan), b, p, q);
  }

  lemma DeepReaches(t: BuildSpec.Shape, b: BuildSpec.B, p: Name, q: Name)
    requires BuildInvariant.Inv(t, b, {}) && p in b.closed && Deep(t, p, q) && BuildResults.EndsLast(t, b.edges, p)
    requires Acyclic(BuildSpec.Feeds(t))
    ensures p != q && BuildSpec.HasScope(t[p]) && ScopeStart(p) in b.vertices && ScopeStart(q) in b.vertices
    ensures Reach(b.edges, ScopeStart(q), Target(p))
    ensures Reach(b.edges, ScopeStart(p), Target(q)) <==> !Reach(b.edges, Target(q), ScopeStart(p))
  {
    DeepEnds(t, b, p, q);
    var kid :| kid in BuildInvariant.Children(t[p]) && q in BuildSpec.Cl(t, kid);
    NotBelowItself(t, p, kid, q);
    assert BuildInvariant.Finished(t, b, q) && BuildInvariant.Finished(t, b, p);
    BuildResults.StartPrecedesEnd(t, b, q);
    ReachCons(b.edges, ScopeStart(q), Target(q), Target(p));
    if Reach(b.edges, ScopeStart(p), Target(q)) {
      NotBothWays(b.edges, ScopeStart(p), Target(q));
    }
  }

  lemma NotBelowItself(t: BuildSpec.Shape, p: Name, kid: Name, q: Name)
    requires Acyclic(BuildSpec.Feeds(t)) && p in t && kid in BuildSpec.Kids(t[p]) && q in BuildSpec.Cl(t, kid)
    ensures p != q
  {
    assert (kid, p) in BuildSpec.Feeds(t);
  }

  lemma NotBothWays(edges: set<(Node, Node)>, u: Node, v: Node)
    requires Acyclic(edges) && u != v && Reach(edges, u, v)
    ensures !Reach(edges, v, u)
  {
    if Reach(edges, v, u) {
      var w := ReachFirst(edges, u, v);
      ReachTrans(edges, w, v, u);
      assert false;
    }
  }

  /** It is buried, so that it never even opens, exactly if it has to wait for the other to open. */
  lemma DeepBuriedIff(project: Project, requested: seq<Name>, plan: Plan, b: BuildSpec.B, parallelism: int,
                      p: Name, q: Name)
    requires Built(project, requested, plan, b) && p in b.closed && Deep(ExecutionGraph.ShapeOf(plan), p, q)
    requires q !in BuildInvariant.Children(ExecutionGraph.ShapeOf(plan)[p])
    requires BuildResults.EndsLast(ExecutionGraph.ShapeOf(plan), b.edges, p)
    requires plan.targets[p].lock == plan.targets[q].lock != NoLock
    ensures EngineSafety.BuriedIn(ConfigOf(plan, b, parallelism), p, q)
      <==> Reach(b.edges, ScopeStart(p), ScopeStart(q))
  {
    var t := ExecutionGraph.ShapeOf(plan);
    BuiltInv(project, requested, plan, b);
    BuiltIsOrdered(project, requested, plan);
    DeepReaches(t, b, p, q);
    if p in S.MemberScopes(SystemOf(plan, b), ScopeStart(q)) {
      MemberPair(plan, b, ScopeStart(q), p);
      StartIsChild(t, b, p, q);
    }
  }

  /** A composite that is only needed by others, and needs nothing to open, is not buried, though it may be
      interlocked. */
  lemma TopIsNotBuried(project: Project, requested: seq<Name>, plan: Plan, b: BuildSpec.B, parallelism: int,
                       p: Name, q: Name)
    requires Built(project, requested, plan, b) && OnTop(ExecutionGraph.ShapeOf(plan), q)
    ensures !EngineSafety.BuriedIn(ConfigOf(plan, b, parallelism), p, q)
  {
    BuiltInv(project, requested, plan, b);
    TopHasNoPredecessor(ExecutionGraph.ShapeOf(plan), b, q, ScopeStart(p));
  }

  /** ... so no run succeeds, provided no composite is a child of one with its lock. The condition on the graph
      holds in particular for a composite on top. */
  lemma DeepNestingNeverSucceeds(project: Project, requested: seq<Name>, plan: Plan, b: BuildSpec.B, parallelism: int,
                                 run: seq<Engine.State>, i: nat, p: Name, q: Name)
    requires Runs(project, requested, plan, b, parallelism, run) && i < |run| && NoSharedNesting(plan)
    requires p in b.closed && Deep(ExecutionGraph.ShapeOf(plan), p, q)
    requires BuildResults.EndsLast(ExecutionGraph.ShapeOf(plan), b.edges, p)
    requires plan.targets[p].lock == plan.targets[q].lock != NoLock
    requires OnTop(ExecutionGraph.ShapeOf(plan), p) || !Reach(b.edges, Target(q), ScopeStart(p))
    ensures run[i].walk.pc != Walk.Returned(Walk.Success)
  {
    var c := ConfigOf(plan, b, parallelism);
    BuiltInv(project, requested, plan, b);
    BuiltSuitsEngine(project, requested, plan, b, parallelism);
    NestingIsExcluded(project, requested, plan, b, parallelism);
    if OnTop(ExecutionGraph.ShapeOf(plan), p) {
      TopHasNoPredecessor(ExecutionGraph.ShapeOf(plan), b, p, Target(q));
    }
    DeepInterlockedIff(project, requested, plan, b, parallelism, p, q);
    EngineSafety.InterlockedNeverSucceeds(c, run, i, p, q);
  }

  /** ... and one that has to wait for the other to open never opens. */
  lemma DeepNestingNeverOpens(project: Project, requested: seq<Name>, plan: Plan, b: BuildSpec.B, parallelism: int,
                              run: seq<Engine.State>, i: nat, p: Name, q: Name)
    requires Runs(project, requested, plan, b, parallelism, run) && i < |run| && NoSharedNesting(plan)
    requires p in b.closed && Deep(ExecutionGraph.ShapeOf(plan), p, q)
    requires BuildResults.EndsLast(ExecutionGraph.ShapeOf(plan), b.edges, p)
    requires plan.targets[p].lock == plan.targets[q].lock != NoLock
    requires Reach(b.edges, ScopeStart(p), ScopeStart(q))
    ensures ScopeStart(q) !in run[i].walk.started
  {
    BuiltSuitsEngine(project, requested, plan, b, parallelism);
    NestingIsExcluded(project, requested, plan, b, parallelism);
    DeepBuriedIff(project, requested, plan, b, parallelism, p, q);
    EngineSafety.BuriedNeverOpens(ConfigOf(plan, b, parallelism), run, i, p, q);
  }
}
