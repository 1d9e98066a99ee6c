/** Runs in which one vertex is at work at a time, towards a goal whose ancestors do not contend for locks; and what
    they show of composites nested directly in composites with the same lock. */
module NestedRuns {
  import opened Nodes
  import opened Digraph
  import opened Wrappers
  import opened Planner
  import opened EndToEnd
  import opened Schedule
  import BuildInvariant
  import BuildResults
  import BuildSpec
  import Engine
  import EngineLocks
  import EngineSafety
  import ExecutionGraph
  import NestedLocks
  import NestedPlans
  import Walk
  import S = Session

  /** Among the vertices that lead to the goal, those that need the lock of a composite are its members, or are done
      before it opens, or wait for its end. */
  ghost predicate Uncontended(c: Engine.Config, goal: Node) {
    forall v, r :: Reach(c.walk.edges, v, goal) && Reach(c.walk.edges, ScopeStart(r), goal) && Contends(c, v, r) ==>
      r in S.MemberScopes(c.sys, v) || Reach(c.walk.edges, v, ScopeStart(r)) || Reach(c.walk.edges, Target(r), v)
  }

  ghost predicate Contends(c: Engine.Config, v: Node, r: Name) {
    r in c.sys.scopes && v != ScopeStart(r) && S.Needed(c.sys, v) == S.LockOf(c.sys, r) != NoLock
  }

  /** With nothing at work, a held lock belongs to a composite that has begun and not ended. */
  lemma HolderIsOpen(c: Engine.Config, e: Engine.State, done: set<Node>, lock: Lock) returns (r: Name)
    requires EngineLocks.WellFormed(c) && Reachable(c, e) && Resting(e, {}, done) && lock in e.ses.held
    ensures r in c.sys.scopes && r in e.ses.scopes && S.LockOf(c.sys, r) == lock != NoLock
    ensures ScopeStart(r) in done && Target(r) !in done
  {
    ReachableInv(c, e);
    assert e.walk.workers == map[];
    EngineLocks.OnlyScopesBlockIdleWalk(c, e, lock);
    r :| r in e.ses.scopes && S.LockOf(c.sys, r) == lock;
  }

  lemma DoneIsClosed(c: Engine.Config, e: Engine.State, done: set<Node>)
    requires EngineLocks.WellFormed(c) && Reachable(c, e) && Resting(e, {}, done)
    ensures PredClosed(c.walk.edges, done) && done <= c.walk.vertices
  {
    ReachableInv(c, e);
    forall x, y | (x, y) in c.walk.edges && y in done
      ensures x in done
    {
      assert y in e.walk.started && PredsIn(c.walk.edges, y, e.walk.released);
    }
  }

  lemma NotHeldBy(c: Engine.Config, done: set<Node>, v: Node, r: Name)
    requires PredClosed(c.walk.edges, done) && PredsIn(c.walk.edges, v, done) && v !in done
    requires ScopeStart(r) in done && Target(r) !in done && v != Target(r)
    ensures !Reach(c.walk.edges, v, ScopeStart(r)) && !Reach(c.walk.edges, Target(r), v)
  {
    if Reach(c.walk.edges, v, ScopeStart(r)) {
      ReachComesFrom(c.walk.edges, done, v, ScopeStart(r));
    }
    if Reach(c.walk.edges, Target(r), v) {
      var w := ReachLast(c.walk.edges, Target(r), v);
      ReachComesFrom(c.walk.edges, done, Target(r), w);
    }
  }

  /** Then the next vertex towards the goal is admitted. */
  lemma NotBlocked(c: Engine.Config, e: Engine.State, done: set<Node>, goal: Node, v: Node)
    requires EngineLocks.WellFormed(c) && Reachable(c, e) && Resting(e, {}, done) && Uncontended(c, goal)
    requires forall u :: u in done ==> Reach(c.walk.edges, u, goal)
    requires Reach(c.walk.edges, v, goal) && v !in done && PredsIn(c.walk.edges, v, done)
    ensures CanAdmit(c.sys, e.ses, v)
  {
    var lock := S.Needed(c.sys, v);
    if !CanAdmit(c.sys, e.ses, v) {
      var r := HolderIsOpen(c, e, done, lock);
      DoneIsClosed(c, e, done);
      NotHeldBy(c, done, v, r);
      assert Contends(c, v, r);
      assert false;
    }
  }

  /** Something can come next on the way to the goal. */
  lemma NextTowards(c: Engine.Config, done: set<Node>, goal: Node) returns (v: Node)
    requires EngineLocks.WellFormed(c) && goal in c.walk.vertices && goal !in done
    ensures v in c.walk.vertices && v !in done && Reach(c.walk.edges, v, goal) && PredsIn(c.walk.edges, v, done)
  {
    var left := set u | u in c.walk.vertices && Reach(c.walk.edges, u, goal) && u !in done;
    ReachRefl(c.walk.edges, goal);
    assert goal in left;
    v := MinimalMember(c.walk.edges, left);
    forall u | (u, v) in c.walk.edges
      ensures u in done
    {
      ReachCons(c.walk.edges, u, v, goal);
    }
  }

  ghost predicate OnTheWay(c: Engine.Config, done: set<Node>, goal: Node) {
    goal !in done && forall u :: u in done ==> Reach(c.walk.edges, u, goal)
  }

  /** v runs, and something on the way to the goal is tried next. */
  lemma OneTowards(c: Engine.Config, e: Engine.State, done: set<Node>, ses: S.State, v: Node, w: Node, now: set<Node>)
    returns (e': Engine.State, ses': S.State)
    requires EngineLocks.WellFormed(c) && Poised(c, e, {}, done, ses, v) && OneSlot(c, e, {}) && CanAdmit(c.sys, ses, v)
    requires now == done + {v} && w in c.walk.vertices && w !in now && PredsIn(c.walk.edges, w, now)
    ensures Poised(c, e', {}, now, ses', w)
  {
    var none := {} + {v} - {v};
    assert none == {} && {} + {v} + done == now;
    ses' := Completed(c.sys, Admitted(c.sys, ses, v), v);
    e' := Advance(c, e, {}, done, ses, v, v, w, none, now, ses');
  }

  /** One vertex after the other runs until the goal has. */
  lemma {:induction false} RunTowards(c: Engine.Config, e: Engine.State, done: set<Node>, ses: S.State, goal: Node, v: Node)
    returns (e': Engine.State, done': set<Node>)
    requires EngineLocks.WellFormed(c) && c.walk.parallelism == 1 && goal in c.walk.vertices && Uncontended(c, goal)
    requires Poised(c, e, {}, done, ses, v) && OnTheWay(c, done, goal)
    requires v !in done && Reach(c.walk.edges, v, goal) && PredsIn(c.walk.edges, v, done) && v in c.walk.vertices
    ensures Reachable(c, e') && Resting(e', {}, done') && goal in done'
    decreases |c.walk.vertices - done|
  {
    NotBlocked(c, e, done, goal, v);
    NoneParked(c, e);
    var now := done + {v};
    if v == goal {
      e' := LastRound(c, e, done, v);
      done' := now;
    } else {
      var w := NextTowards(c, now, goal);
      var e1, ses' := OneTowards(c, e, done, ses, v, w, now);
      FewerLeft(c.walk.vertices, done, v);
      e', done' := RunTowards(c, e1, now, ses', goal, w);
    }
  }

  lemma FewerLeft(vertices: set<Node>, done: set<Node>, v: Node)
    requires v in vertices && v !in done
    ensures |vertices - (done + {v})| < |vertices - done|
  {
    assert vertices - (done + {v}) == (vertices - done) - {v};
  }

  lemma LastRound(c: Engine.Config, e: Engine.State, done: set<Node>, v: Node) returns (e': Engine.State)
    requires EngineLocks.WellFormed(c) && Poised(c, e, {}, done, e.ses, v) && OneSlot(c, e, {})
    requires CanAdmit(c.sys, e.ses, v)
    ensures Reachable(c, e') && Resting(e', {}, done + {v})
  {
    var running := {} + {v};
    e' := Round(c, e, {}, done, v, running, v, []);
    assert running - {v} == {};
  }

  lemma RunToGoal(c: Engine.Config, goal: Node) returns (e: Engine.State, done: set<Node>)
    requires EngineLocks.WellFormed(c) && c.walk.parallelism == 1 && goal in c.walk.vertices && Uncontended(c, goal)
    ensures Reachable(c, e) && Resting(e, {}, done) && goal in done
  {
    var v := NextTowards(c, {}, goal);
    var e0 := Begin(c, [v]);
    assert [v][0] == v && e0.walk.ready[0] == v;
    e, done := RunTowards(c, e0, {}, e0.ses, goal, v);
  }

  // ---- Nested composites ---------------------------------------------------------------------

  /** q is nested directly in p with its lock, opens after p and ends before it. */
  ghost predicate NestedInside(plan: Plan, b: BuildSpec.B, p: Name, q: Name) {
    && NestedPlans.SharedNesting(plan, p, q) && p in b.closed && !Reach(b.edges, ScopeStart(q), ScopeStart(p))
    && BuildResults.EndsLast(ExecutionGraph.ShapeOf(plan), b.edges, p)
  }

  /** If what the inner composite waits for does not contend for locks, some run frees the outer one's lock. */
  lemma NestingLosesLock(project: Project, requested: seq<Name>, plan: Plan, b: BuildSpec.B, p: Name, q: Name)
    returns (run: seq<Engine.State>)
    requires Built(project, requested, plan, b) && NestedInside(plan, b, p, q)
    requires Uncontended(ConfigOf(plan, b, 1), Target(q))
    ensures Runs(project, requested, plan, b, 1, run) && !NestedLocks.AlwaysHolds(ConfigOf(plan, b, 1), run)
  {
    var c := ConfigOf(plan, b, 1);
    BuiltSuitsEngine(project, requested, plan, b, 1);
    NestedPlans.BuiltShares(project, requested, plan, b, 1, p, q);
    var e, done := RunToGoal(c, Target(q));
    var i;
    run, i := RunTo(c, e);
    assert NestedLocks.Ended(run[i], q);
    EndLosesLock(project, requested, plan, b, run, i, p, q);
  }

  lemma EndLosesLock(project: Project, requested: seq<Name>, plan: Plan, b: BuildSpec.B, run: seq<Engine.State>, i: nat,
                     p: Name, q: Name)
    requires Runs(project, requested, plan, b, 1, run) && i < |run| && NestedInside(plan, b, p, q)
    requires NestedLocks.Ended(run[i], q)
    ensures !NestedLocks.AlwaysHolds(ConfigOf(plan, b, 1), run)
  {
    var c := ConfigOf(plan, b, 1);
    BuiltSuitsEngine(project, requested, plan, b, 1);
    NestedPlans.BuiltShares(project, requested, plan, b, 1, p, q);
    var j, k := NestedLocks.EndingStep(c, run, i, q);
    NestedPlans.InnerEndFreesOuter(project, requested, plan, b, 1, run, j, k, p, q);
    assert !NestedLocks.HoldsLocks(c, run[k]);
  }

  /** Without direct nesting every open scope holds its lock, in every run and with any number of workers. */
  lemma NotNestedSoHeld(project: Project, requested: seq<Name>, plan: Plan, b: BuildSpec.B, parallelism: int,
                        run: seq<Engine.State>)
    requires Runs(project, requested, plan, b, parallelism, run)
    requires forall p, q :: NestedPlans.SharedNesting(plan, p, q) ==> p !in b.closed
    ensures NestedLocks.AlwaysHolds(ConfigOf(plan, b, parallelism), run)
  {
    var c := ConfigOf(plan, b, parallelism);
    BuiltSuitsEngine(project, requested, plan, b, parallelism);
    forall q, p | p in S.MemberScopes(c.sys, ScopeStart(q)) && S.LockOf(c.sys, q) != NoLock
      ensures S.LockOf(c.sys, p) != S.LockOf(c.sys, q)
    {
      if NestedLocks.Shares(c, p, q) {
        NestedPlans.SharesBuilt(project, requested, plan, b, parallelism, p, q);
      }
    }
    forall i, p | 0 <= i < |run| && p in run[i].ses.scopes && S.LockOf(c.sys, p) != NoLock
      ensures S.LockOf(c.sys, p) in run[i].ses.held
    {
      EngineSafety.ScopeHoldsItsLock(c, run, i, p);
    }
  }

  /** What is nested directly in a composite with its lock runs within it, after nothing that contends for locks. */
  ghost predicate NestingUncontended(plan: Plan, b: BuildSpec.B) {
    forall p, q :: NestedPlans.SharedNesting(plan, p, q) && p in b.closed ==>
      NestedInside(plan, b, p, q) && Uncontended(ConfigOf(plan, b, 1), Target(q))
  }

  /** Then every open scope holds its lock in every run, however many workers there are, exactly when no composite
      is a step or member of one that declares the same lock. */
  lemma ScopesKeepLocksIffNotNested(project: Project, requested: seq<Name>, plan: Plan, b: BuildSpec.B)
    requires Built(project, requested, plan, b) && NestingUncontended(plan, b)
    ensures (forall parallelism, run :: Runs(project, requested, plan, b, parallelism, run) ==>
               NestedLocks.AlwaysHolds(ConfigOf(plan, b, parallelism), run))
      <==> forall p, q :: NestedPlans.SharedNesting(plan, p, q) ==> p !in b.closed
  {
    if p, q :| NestedPlans.SharedNesting(plan, p, q) && p in b.closed {
      var run := NestingLosesLock(project, requested, plan, b, p, q);
    } else {
      forall parallelism, run | Runs(project, requested, plan, b, parallelism, run)
        ensures NestedLocks.AlwaysHolds(ConfigOf(plan, b, parallelism), run)
      {
        NotNestedSoHeld(project, requested, plan, b, parallelism, run);
      }
    }
  }
}
