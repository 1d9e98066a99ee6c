/** When a run can stop short: only if open composites wait for each other's locks in a circle. */
module Waits {
  import opened Nodes
  import opened Digraph
  import opened Wrappers
  import opened Planner
  import opened Engine
  import opened EngineLocks
  import BuildInvariant
  import BuildResults
  import BuildSpec
  import EndToEnd
  import EngineSafety
  import ExecutionGraph
  import NestedPlans
  import NestedRuns
  import Schedule
  import Termination
  import Walk
  import S = Session

  // ---- What an idle walk has refused ---------------------------------------------------------

  ghost predicate AllRefused(c: Config, e: State, n: nat) {
    forall j :: 0 <= j < n && j < |e.walk.ready| ==> !Schedule.CanAdmit(c.sys, e.ses, e.walk.ready[j])
  }

  /** With nothing at work, what the scan has passed cannot start, and at a wait nothing can. */
  ghost predicate Refusing(c: Config, e: State) {
    e.walk.workers == map[] ==>
      && (e.walk.pc.Scan? ==> AllRefused(c, e, e.walk.pc.i))
      && (e.probed && Scanning(e) ==> !S.Covered(c.sys, e.ses, Tried(e), S.Needed(c.sys, Tried(e))))
      && (e.walk.pc.Wait? ==> AllRefused(c, e, |e.walk.ready|))
  }

  lemma WalkKeepsWorker(c: Walk.Config<Node>, w: Walk.State<Node>, ws: Walk.Step<Node>, w': Walk.State<Node>, v: Node)
    requires Walk.Next(c, w, ws, w') && (ws.RunReturns? || ws.Elsewhere?) && v in w.workers
    ensures v in w'.workers
  {
  }

  lemma WorkerIsStaged(c: Config, e: State, step: Step, e': State) returns (v: Node)
    requires Next(c, e, step, e') && ByWorker(step)
    ensures v in e.stage
  {
    v :| v in e.stage;
  }

  lemma WorkerStillThere(c: Config, e: State, step: Step, e': State)
    requires Inv(c, e) && Next(c, e, step, e') && ByWorker(step)
    ensures e'.walk.workers != map[]
  {
    var v := WorkerIsStaged(c, e, step, e');
    var ws := StepRefinesWalk(c, e, step, e');
    WalkKeepsWorker(c.walk, e.walk, ws, e'.walk, v);
  }

  lemma AdmittedIsThere(c: Config, e: State, step: Step, e': State)
    requires Next(c, e, step, e') && Admitting(step)
    ensures e'.walk.workers != map[]
  {
    assert Tried(e) in e'.walk.workers;
  }

  /** A scan that ends with nothing at work has refused everything. */
  lemma WalkRefuses(c: Config, e: State, ws: Walk.Step<Node>, e': State)
    requires Inv(c, e) && Refusing(c, e) && Next(c, e, WalkStep(ws), e')
    ensures Refusing(c, e')
  {
  }

  lemma ProbeRefuses(c: Config, e: State, e': State)
    requires Refusing(c, e) && Next(c, e, ProbeFails, e')
    ensures Refusing(c, e')
  {
  }

  lemma HeldSoRefused(sys: S.System, ses: S.State, v: Node)
    requires S.Needed(sys, v) != NoLock && S.Needed(sys, v) in ses.held && !S.Covered(sys, ses, v, S.Needed(sys, v))
    ensures !Schedule.CanAdmit(sys, ses, v)
  {
  }

  lemma RefusedOneMore(c: Config, e: State, e': State, n: nat)
    requires AllRefused(c, e, n) && n < |e.walk.ready| && !Schedule.CanAdmit(c.sys, e.ses, e.walk.ready[n])
    requires e'.walk.ready == e.walk.ready && e'.ses == e.ses
    ensures AllRefused(c, e', n + 1)
  {
  }

  lemma HeldRefuses(c: Config, e: State, e': State)
    requires Probing(c, e) && Refusing(c, e) && Next(c, e, RefuseHeld, e')
    ensures Refusing(c, e')
  {
    if e.walk.workers == map[] {
      HeldSoRefused(c.sys, e.ses, Tried(e));
      RefusedOneMore(c, e, e', e.walk.pc.i);
    }
  }

  lemma RefusingStep(c: Config, e: State, step: Step, e': State)
    requires Inv(c, e) && Refusing(c, e) && Next(c, e, step, e')
    ensures Refusing(c, e')
  {
    if ByWorker(step) {
      WorkerStillThere(c, e, step, e');
    } else if Admitting(step) {
      AdmittedIsThere(c, e, step, e');
    } else if step.WalkStep? {
      WalkRefuses(c, e, step.step, e');
    } else if step.ProbeFails? {
      ProbeRefuses(c, e, e');
    } else if step.RefuseHeld? {
      HeldRefuses(c, e, e');
    }
  }

  lemma {:induction false} RunRefusing(c: Config, run: seq<State>, i: nat)
    requires WellFormed(c) && IsRun(c, run) && i < |run|
    ensures Refusing(c, run[i])
  {
    if i > 0 {
      var j := i - 1;
      RunRefusing(c, run, j);
      var e, step, e' := Arrives(c, run, j, i);
      RefusingStep(c, e, step, e');
    }
  }

  // ---- Waiting in a circle ----------------------------------------------------------------------

  /** v has to run before r can end, after r has begun, and may find its lock held by s. */
  ghost predicate HeldUp(c: Config, r: Name, s: Name, v: Node) {
    && v in c.walk.vertices && Reach(c.walk.edges, v, Target(r)) && !Reach(c.walk.edges, v, ScopeStart(r))
    && NestedRuns.Contends(c, v, s) && s !in S.MemberScopes(c.sys, v)
    && !Reach(c.walk.edges, v, ScopeStart(s)) && !Reach(c.walk.edges, Target(s), v)
  }

  /** r and s may be open together, and r may then wait for s to end. */
  ghost predicate WaitsFor(c: Config, r: Name, s: Name) {
    && r in c.sys.scopes && s in c.sys.scopes
    && ScopeStart(r) in c.walk.vertices && ScopeStart(s) in c.walk.vertices
    && !Reach(c.walk.edges, Target(s), ScopeStart(r)) && !Reach(c.walk.edges, Target(r), ScopeStart(s))
    && exists v :: HeldUp(c, r, s, v)
  }

  ghost predicate AreWaits(c: Config, waits: set<(Name, Name)>) {
    forall s, r {:trigger (s, r) in waits} :: (s, r) in waits <==> WaitsFor(c, r, s)
  }

  ghost function WaitPairs(c: Config): (waits: set<(Name, Name)>)
    ensures AreWaits(c, waits)
  {
    assert AreWaits(c, set s, r | s in c.sys.scopes && r in c.sys.scopes && WaitsFor(c, r, s) :: (s, r));
    var waits :| AreWaits(c, waits);
    waits
  }

  /** An idle wait: nothing has failed, and what has started has succeeded. */
  lemma IdleIsSettled(c: Config, e: State)
    requires Inv(c, e) && e.walk.pc.Wait? && e.walk.workers == map[]
    ensures e.walk.ready != [] && e.stage == map[]
    ensures e.walk.started == e.walk.released == e.walk.succeeded
    ensures PredClosed(c.walk.edges, e.walk.started)
  {
    assert forall v :: v !in e.stage;
    forall x, y | (x, y) in c.walk.edges && y in e.walk.started
      ensures x in e.walk.started
    {
      assert PredsIn(c.walk.edges, y, e.walk.released);
    }
  }

  /** An open scope has begun and not ended. */
  lemma OpenIsBegun(c: Config, e: State, r: Name)
    requires WellFormed(c) && Inv(c, e) && e.stage == map[] && r in e.ses.scopes
    ensures r in c.sys.scopes && ScopeStart(r) in e.walk.succeeded && Target(r) !in e.walk.started
    ensures ScopeStart(r) in c.walk.vertices && Target(r) in c.walk.vertices
  {
    assert HasOpened(e, r) && !HasClosed(e, r);
    var w := ReachLast(c.walk.edges, ScopeStart(r), Target(r));
  }

  lemma Refused(c: Config, e: State, v: Node) returns (s: Name)
    requires Inv(c, e) && Refusing(c, e) && e.walk.pc.Wait? && e.walk.workers == map[] && v in e.walk.ready
    ensures s in e.ses.scopes && S.LockOf(c.sys, s) == S.Needed(c.sys, v) != NoLock
    ensures s !in S.MemberScopes(c.sys, v)
  {
    var j :| 0 <= j < |e.walk.ready| && e.walk.ready[j] == v;
    assert !Schedule.CanAdmit(c.sys, e.ses, e.walk.ready[j]);
    OnlyScopesBlockIdleWalk(c, e, S.Needed(c.sys, v));
    s :| s in e.ses.scopes && S.LockOf(c.sys, s) == S.Needed(c.sys, v);
    assert !S.Covered(c.sys, e.ses, v, S.Needed(c.sys, v));
  }

  lemma NotBeforeDone(edges: set<(Node, Node)>, done: set<Node>, u: Node, v: Node)
    requires PredClosed(edges, done) && v in done && u !in done
    ensures !Reach(edges, u, v)
  {
    if Reach(edges, u, v) {
      ReachComesFrom(edges, done, u, v);
    }
  }

  lemma ReadyNext(c: Config, e: State, v: Node)
    requires Inv(c, e) && v in c.walk.vertices && v !in e.walk.started && PredsIn(c.walk.edges, v, e.walk.released)
    ensures v in e.walk.ready
  {
  }

  /** In an idle wait every open scope waits for another one. */
  lemma OpenWaits(c: Config, e: State, r: Name) returns (s: Name)
    requires WellFormed(c) && Inv(c, e) && Refusing(c, e) && e.walk.pc.Wait? && e.walk.workers == map[]
    requires r in e.ses.scopes
    ensures s in e.ses.scopes && (s, r) in WaitPairs(c)
  {
    IdleIsSettled(c, e);
    OpenIsBegun(c, e, r);
    var edges, done := c.walk.edges, e.walk.started;
    var v := NestedRuns.NextTowards(c, done, Target(r));
    ReadyNext(c, e, v);
    s := Refused(c, e, v);
    OpenIsBegun(c, e, s);
    NestedRuns.NotHeldBy(c, done, v, s);
    NotBeforeDone(edges, done, v, ScopeStart(r));
    NotBeforeDone(edges, done, Target(s), ScopeStart(r));
    NotBeforeDone(edges, done, Target(r), ScopeStart(s));
    assert HeldUp(c, r, s, v);
    assert WaitsFor(c, r, s);
  }

  /** A run waits with nothing at work only if some composites wait for each other in a circle. */
  lemma IdleWaitHasCircle(c: Config, run: seq<State>, i: nat)
    requires WellFormed(c) && IsRun(c, run) && i < |run| && run[i].walk.pc.Wait? && run[i].walk.workers == map[]
    ensures !Acyclic(WaitPairs(c))
  {
    var e := run[i];
    RunInv(c, run, i);
    RunRefusing(c, run, i);
    IdleIsSettled(c, e);
    var first := Refused(c, e, e.walk.ready[0]);
    if Acyclic(WaitPairs(c)) {
      var r := MinimalMember(WaitPairs(c), e.ses.scopes);
      var s := OpenWaits(c, e, r);
      assert false;
    }
  }

  /** ... so if they do not, a run that cannot go on has returned. */
  lemma UncircularRunsReturn(c: Config, run: seq<State>, i: nat)
    requires WellFormed(c) && c.walk.notified && Acyclic(WaitPairs(c)) && IsRun(c, run) && i < |run|
    ensures run[i].walk.pc.Returned? <==> !Termination.CanGoOn(c, run[i])
  {
    RunInv(c, run, i);
    Termination.GoesOnIff(c, run[i]);
    if run[i].walk.pc.Wait? && run[i].walk.workers == map[] {
      IdleWaitHasCircle(c, run, i);
    }
  }

  // ---- Plans whose composites never wait ----------------------------------------------------------

  /** Whatever else declares the lock of a composite is inside it: a target that joins its scope, or a composite
      that is its child. */
  ghost predicate LocksStayInside(plan: Plan) {
    var t := ExecutionGraph.ShapeOf(plan);
    forall r, n :: SharedLock(plan, r, n) && BuildSpec.HasScope(t[r]) ==> Inside(t, r, n)
  }

  ghost predicate SharedLock(plan: Plan, r: Name, n: Name) {
    && r in plan.targets && n in plan.targets && n != r
    && plan.targets[n].lock == plan.targets[r].lock != NoLock
  }

  ghost predicate Inside(t: BuildSpec.Shape, r: Name, n: Name)
    requires r in t && n in t
  {
    if BuildSpec.HasScope(t[n]) then n in BuildInvariant.Children(t[r])
    else
      n !in BuildSpec.Closures(t, t[r].deps)
      && exists kid :: kid in BuildInvariant.Children(t[r]) && n in BuildSpec.Cl(t, kid)
  }

  /** What a vertex and a composite contend for is declared by both. */
  lemma ContendersDeclare(plan: Plan, b: BuildSpec.B, parallelism: int, v: Node, r: Name)
    requires NestedRuns.Contends(EndToEnd.ConfigOf(plan, b, parallelism), v, r)
    ensures r in plan.targets && BuildSpec.HasScope(ExecutionGraph.ShapeOf(plan)[r]) && (v.Target? || v.ScopeStart?)
    ensures v.name in plan.targets && v.name != r
    ensures plan.targets[v.name].lock == plan.targets[r].lock != NoLock
    ensures v.Target? ==> !BuildSpec.HasScope(ExecutionGraph.ShapeOf(plan)[v.name])
  {
  }

  lemma InsideJoins(t: BuildSpec.Shape, b: BuildSpec.B, r: Name, v: Node)
    requires BuildInvariant.Inv(t, b, {}) && r in b.closed && r in t && v in b.vertices
    requires (v.Target? || v.ScopeStart?) && v.name in t && Inside(t, r, v.name)
    requires v.Target? ==> !BuildSpec.HasScope(t[v.name])
    ensures (v, r) in b.members
  {
    if v.Target? {
      var kid :| kid in BuildInvariant.Children(t[r]) && v.name in BuildSpec.Cl(t, kid);
      BuildResults.ChildJoins(t, b, r, kid, v.name);
    } else {
      assert BuildInvariant.Known(t, b.closed, v);
      NestedPlans.StartsComparable(t, b, r, v.name);
    }
  }

  lemma JoinsScope(plan: Plan, b: BuildSpec.B, v: Node, r: Name)
    requires (v, r) in b.members && v in b.vertices
    ensures r in S.MemberScopes(EndToEnd.SystemOf(plan, b), v)
  {
  }

  /** In such a plan no composite waits for another. */
  lemma NothingHeldUp(project: Project, requested: seq<Name>, plan: Plan, b: BuildSpec.B, parallelism: int,
                      r: Name, s: Name)
    requires EndToEnd.Built(project, requested, plan, b) && LocksStayInside(plan)
    ensures !WaitsFor(EndToEnd.ConfigOf(plan, b, parallelism), r, s)
  {
    var t, c := ExecutionGraph.ShapeOf(plan), EndToEnd.ConfigOf(plan, b, parallelism);
    EndToEnd.BuiltInv(project, requested, plan, b);
    if WaitsFor(c, r, s) {
      var v :| HeldUp(c, r, s, v);
      ContendersDeclare(plan, b, parallelism, v, s);
      assert BuildInvariant.Known(t, b.closed, ScopeStart(s));
      assert Inside(t, s, v.name);
      InsideJoins(t, b, s, v);
      JoinsScope(plan, b, v, s);
    }
  }

  lemma NothingWaits(waits: set<(Name, Name)>)
    requires forall s, r :: (s, r) !in waits
    ensures Acyclic(waits)
  {
  }

  /** A plan in which the lock of each composite is declared only inside it: every run comes to its end within a
      bounded number of steps, and only by returning. */
  lemma InsideLockedPlansReturn(
    project: Project, requested: seq<Name>, plan: Plan, b: BuildSpec.B, parallelism: int, run: seq<State>, i: nat)
    requires EndToEnd.Runs(project, requested, plan, b, parallelism, run) && i < |run| && LocksStayInside(plan)
    ensures run[i].walk.pc.Returned? <==> !Termination.CanGoOn(EndToEnd.ConfigOf(plan, b, parallelism), run[i])
    ensures Termination.Moving(run) ==> |run| <= Termination.Bound(|b.vertices|) + 1
  {
    var c := EndToEnd.ConfigOf(plan, b, parallelism);
    EndToEnd.BuiltSuitsEngine(project, requested, plan, b, parallelism);
    forall s, r
      ensures (s, r) !in WaitPairs(c)
    {
      NothingHeldUp(project, requested, plan, b, parallelism, r, s);
    }
    NothingWaits(WaitPairs(c));
    UncircularRunsReturn(c, run, i);
    if Termination.Moving(run) {
      Termination.RunsAreBounded(c, run);
    }
  }
}
