/** What becomes of a body's outcome and of a cancellation, in runs of the engine: told by the labels of the steps
    and by what Walk sees, and by nothing in between. */
module Outcomes {
  import opened Nodes
  import opened Digraph
  import opened Wrappers
  import opened Planner
  import opened Engine
  import opened EngineLocks
  import BuildResults
  import BuildSpec
  import EndToEnd
  import ExecutionGraph
  import Termination
  import Walk
  import S = Session

  /** The step ends the body of v, with or without an error. A barrier has no body. */
  predicate EndsBody(step: Step, v: Node, ok: bool) {
    match step
    case OpenScope(p) => v == ScopeStart(p) && ok
    case FailOpen(p) => v == ScopeStart(p) && !ok
    case BodyDone(u, good) => v == u && ok == good
    case ScopeBodyDone(p, good) => v == Target(p) && ok == good
    case BarrierDone(u) => v == u && ok
    case _ => false
  }

  /** The body of v has ended by step j of the run. */
  ghost predicate BodyEndsAt(c: Config, run: seq<State>, j: nat, v: Node, ok: bool) {
    j + 1 < |run| && exists step :: Next(c, run[j], step, run[j + 1]) && EndsBody(step, v, ok)
  }

  // ---- From the body to Walk -----------------------------------------------------------------

  function Verdict(stage: Stage): Option<bool> {
    match stage
    case Running => None
    case Opened => Some(true)
    case Dropping(ok, _) => Some(ok)
    case Closing(ok) => Some(ok)
  }

  /** v has started, its body is over, and its worker can only return ok. */
  ghost predicate Bound(e: State, v: Node, ok: bool) {
    && v in e.walk.started
    && (v in e.stage ==> Verdict(e.stage[v]) == Some(ok))
    && (v in e.walk.workers && e.walk.workers[v].Exited? ==> e.walk.workers[v].ok == ok)
    && (v in e.walk.succeeded ==> ok)
  }

  /** Walk's own moves start nothing and change no worker they leave. */
  lemma PrivateKeeps(c: Walk.Config<Node>, w: Walk.State<Node>, ws: Walk.Step<Node>, w': Walk.State<Node>, v: Node)
    requires Walk.Next(c, w, ws, w') && (Private(ws) || ws.Refuse? || ws.Wake?)
    ensures w'.started == w.started && w'.succeeded == w.succeeded
    ensures v in w'.workers ==> v in w.workers && w'.workers[v] == w.workers[v]
  {
  }

  lemma QuietIsPrivate(c: Config, e: State, step: Step, e': State) returns (ws: Walk.Step<Node>)
    requires Next(c, e, step, e') && Quiet(step) && !step.ProbeFails?
    ensures Walk.Next(c.walk, e.walk, ws, e'.walk) && (Private(ws) || ws.Refuse? || ws.Wake?) && e'.stage == e.stage
  {
    ws := if step.WalkStep? then step.step else if step.RefuseHeld? then Walk.Refuse else Walk.Wake;
  }

  lemma BoundQuiet(c: Config, e: State, step: Step, e': State, v: Node, ok: bool)
    requires Bound(e, v, ok) && Next(c, e, step, e') && Quiet(step)
    ensures Bound(e', v, ok)
  {
    if !step.ProbeFails? {
      var ws := QuietIsPrivate(c, e, step, e');
      PrivateKeeps(c.walk, e.walk, ws, e'.walk, v);
    }
  }

  lemma BoundAdmit(c: Config, e: State, step: Step, e': State, v: Node, ok: bool)
    requires WellFormed(c) && Inv(c, e) && Bound(e, v, ok) && Next(c, e, step, e') && Admitting(step)
    ensures Bound(e', v, ok)
  {
    AdmitStep(c, e, step, e');
  }

  lemma BoundReturns(c: Config, e: State, u: Node, good: bool, ses: S.State, e': State, v: Node, ok: bool)
    requires Bound(e, v, ok) && Returns(c, e, u, good, ses, e') && (u == v ==> good == ok)
    ensures Bound(e', v, ok)
  {
  }

  lemma BoundStages(e: State, e': State, u: Node, next: Stage, v: Node, ok: bool)
    requires Bound(e, v, ok) && e'.walk == e.walk && e'.stage == e.stage[u := next] && u in e.stage && e.stage[u].Running?
    ensures Bound(e', v, ok)
  {
  }

  lemma BoundWorks(c: Config, e: State, step: Step, e': State, v: Node, ok: bool)
    requires Bound(e, v, ok) && Next(c, e, step, e') && ByWorker(step)
    ensures Bound(e', v, ok)
  {
    match step
    case OpenScope(p) => BoundStages(e, e', ScopeStart(p), Opened, v, ok);
    case FailOpen(p) => BoundStages(e, e', ScopeStart(p), e'.stage[ScopeStart(p)], v, ok);
    case BodyDone(u, _) => BoundStages(e, e', u, e'.stage[u], v, ok);
    case ScopeBodyDone(p, good) => BoundStages(e, e', Target(p), e'.stage[Target(p)], v, ok);
    case ForgetStart(p) => BoundReturns(c, e, ScopeStart(p), true, e'.ses, e', v, ok);
    case DropLock(u) => BoundReturns(c, e, u, e.stage[u].ok, e'.ses, e', v, ok);
    case BarrierDone(u) => BoundReturns(c, e, u, true, e'.ses, e', v, ok);
    case CloseLock(p) => BoundReturns(c, e, Target(p), e.stage[Target(p)].ok, e'.ses, e', v, ok);
  }

  lemma BoundStep(c: Config, e: State, step: Step, e': State, v: Node, ok: bool)
    requires WellFormed(c) && Inv(c, e) && Bound(e, v, ok) && Next(c, e, step, e')
    ensures Bound(e', v, ok)
  {
    if Quiet(step) {
      BoundQuiet(c, e, step, e', v, ok);
    } else if Admitting(step) {
      BoundAdmit(c, e, step, e', v, ok);
    } else {
      BoundWorks(c, e, step, e', v, ok);
    }
  }

  /** Before its body ends, a vertex has returned nothing; afterwards it is bound to what the body ended with. */
  lemma BodyBinds(c: Config, e: State, step: Step, e': State, v: Node, ok: bool)
    requires WellFormed(c) && Inv(c, e) && Next(c, e, step, e') && EndsBody(step, v, ok)
    ensures v in e.walk.workers && e.walk.workers[v].InRun? && v !in e.walk.succeeded
    ensures Bound(e', v, ok)
  {
    assert At(e, v, Running);
  }

  lemma {:induction false} BoundStays(c: Config, run: seq<State>, j: nat, i: nat, v: Node, ok: bool)
    requires WellFormed(c) && IsRun(c, run) && BodyEndsAt(c, run, j, v, ok) && j < i < |run|
    ensures Bound(run[i], v, ok)
    decreases i
  {
    if i == j + 1 {
      BindsNext(c, run, j, v, ok);
    } else {
      var h := i - 1;
      BoundStays(c, run, j, h, v, ok);
      var e, step, e' := Arrives(c, run, h, i);
      BoundStep(c, e, step, e', v, ok);
    }
  }

  lemma BindsNext(c: Config, run: seq<State>, j: nat, v: Node, ok: bool)
    requires WellFormed(c) && IsRun(c, run) && BodyEndsAt(c, run, j, v, ok)
    ensures Bound(run[j + 1], v, ok)
  {
    RunInv(c, run, j);
    var step :| Next(c, run[j], step, run[j + 1]) && EndsBody(step, v, ok);
    BodyBinds(c, run[j], step, run[j + 1], v, ok);
  }

  lemma NotReturnedBefore(c: Config, run: seq<State>, j: nat, i: nat, v: Node, ok: bool, good: bool)
    requires WellFormed(c) && IsRun(c, run) && BodyEndsAt(c, run, j, v, ok) && i <= j
    ensures !Walk.ReturnsAt(WalkRun(run), i, v, good)
  {
    RunInv(c, run, j);
    var step :| Next(c, run[j], step, run[j + 1]) && EndsBody(step, v, ok);
    BodyBinds(c, run[j], step, run[j + 1], v, ok);
    if Walk.ReturnsAt(WalkRun(run), i, v, good) {
      RunRefinesWalk(c, run);
      ReturnedStays(c, run, i, j, v);
      assert false;
    }
  }

  /** Once Run has returned, it is not in progress again. */
  ghost predicate Gone(e: State, v: Node) {
    v in e.walk.started && (v in e.walk.workers ==> e.walk.workers[v].Exited?)
  }

  lemma GoneStep(c: Config, e: State, step: Step, e': State, v: Node)
    requires WellFormed(c) && Inv(c, e) && Gone(e, v) && Next(c, e, step, e')
    ensures Gone(e', v)
  {
    var ws := StepRefinesWalk(c, e, step, e');
    if ws.Admit? {
      Walk.AdmitInv(c.walk, e.walk, e'.walk);
    }
    GoneWalkStep(c.walk, e.walk, ws, e'.walk, v);
  }

  lemma GoneWalkStep(c: Walk.Config<Node>, w: Walk.State<Node>, ws: Walk.Step<Node>, w': Walk.State<Node>, v: Node)
    requires Walk.Next(c, w, ws, w') && v in w.started && (v in w.workers ==> w.workers[v].Exited?)
    requires ws.Admit? ==> w.ready[w.pc.i] !in w.started
    ensures v in w'.started && (v in w'.workers ==> w'.workers[v].Exited?)
  {
  }

  lemma {:induction false} ReturnedStays(c: Config, run: seq<State>, i: nat, j: nat, v: Node)
    requires WellFormed(c) && IsRun(c, run) && i <= j < |run| && v in run[i].walk.workers && run[i].walk.workers[v].Exited?
    ensures Gone(run[j], v)
    decreases j
  {
    if i == j {
      RunInv(c, run, i);
    } else {
      var h := j - 1;
      ReturnedStays(c, run, i, h, v);
      RunInv(c, run, h);
      var step := StepFrom(c, run, h, j);
      GoneStep(c, run[h], step, run[j], v);
    }
  }

  /** Walk is told what the body ended with: if the body of v fails, Run for v never returns nil in the run, and if it
      ends well, Run never returns an error. */
  lemma BodyDecides(c: Config, run: seq<State>, j: nat, i: nat, v: Node, ok: bool)
    requires WellFormed(c) && IsRun(c, run) && BodyEndsAt(c, run, j, v, ok)
    ensures !Walk.ReturnsAt(WalkRun(run), i, v, !ok)
  {
    if i <= j {
      NotReturnedBefore(c, run, j, i, v, ok, !ok);
    } else if i < |run| {
      BoundStays(c, run, j, i, v, ok);
    }
  }

  lemma {:induction false} SuccessReturned(c: Config, run: seq<State>, i: nat, v: Node) returns (k: nat)
    requires IsRun(c, run) && i < |run| && v in run[i].walk.succeeded
    ensures k <= i && Walk.ReturnsAt(WalkRun(run), k, v, true)
  {
    RunRefinesWalk(c, run);
    k := Walk.SuccessHasWitness(c.walk, WalkRun(run), i, v);
  }

  /** A vertex whose body fails never succeeds, nothing that it leads to ever starts, and the run never returns
      success. */
  lemma FailureStopsDescendants(c: Config, run: seq<State>, j: nat, i: nat, u: Node, v: Node)
    requires WellFormed(c) && IsRun(c, run) && BodyEndsAt(c, run, j, u, false) && i < |run|
    ensures u !in run[i].walk.succeeded
    ensures Reach(c.walk.edges, u, v) && u != v ==> !Walk.StartsAt(WalkRun(run), i, v)
    ensures run[i].walk.pc != Walk.Returned(Walk.Success)
  {
    RunRefinesWalk(c, run);
    if u in run[i].walk.succeeded {
      var k := SuccessReturned(c, run, i, u);
      BodyDecides(c, run, j, k, u, false);
    }
    if Reach(c.walk.edges, u, v) && u != v && Walk.StartsAt(WalkRun(run), i, v) {
      var k := Walk.StartsAfterAncestors(c.walk, WalkRun(run), i, v, u);
      BodyDecides(c, run, j, k, u, false);
    }
    FailedIsVertex(c, run, j, u);
    Walk.WalkResults(c.walk, WalkRun(run), i);
  }

  lemma FailedIsVertex(c: Config, run: seq<State>, j: nat, u: Node)
    requires WellFormed(c) && IsRun(c, run) && BodyEndsAt(c, run, j, u, false)
    ensures u in c.walk.vertices && u in run[j].walk.workers && run[j].walk.workers[u].InRun?
  {
    RunInv(c, run, j);
    var step :| Next(c, run[j], step, run[j + 1]) && EndsBody(step, u, false);
    BodyBinds(c, run[j], step, run[j + 1], u, false);
  }

  /** A run in which some body has failed can only return an error. */
  lemma FailureIsReturned(c: Config, run: seq<State>, j: nat, i: nat, u: Node)
    requires WellFormed(c) && IsRun(c, run) && BodyEndsAt(c, run, j, u, false) && j < i < |run|
    requires run[i].walk.pc.Returned?
    ensures run[i].walk.pc.outcome.Failed?
  {
    RunRefinesWalk(c, run);
    RunInv(c, run, i);
    BoundStays(c, run, j, i, u, false);
    Walk.RunNoted(c.walk, WalkRun(run), i);
    assert u in run[i].walk.received && u !in run[i].walk.succeeded;
  }

  /** ... and then it names a vertex whose Run returned an error. */
  lemma ReturnedErrorIsReal(c: Config, run: seq<State>, i: nat) returns (v: Node, k: nat)
    requires WellFormed(c) && IsRun(c, run) && i < |run| && run[i].walk.pc.Returned? && run[i].walk.pc.outcome.Failed?
    ensures run[i].walk.pc.outcome == Walk.Failed(v) && k < i && Walk.ReturnsAt(WalkRun(run), k, v, false)
  {
    RunRefinesWalk(c, run);
    RunInv(c, run, i);
    v := run[i].walk.pc.outcome.first;
    k := Walk.FailureIsReported(c.walk, WalkRun(run), i, v);
  }

  // ---- One vertex, undisturbed ------------------------------------------------------------------

  /** The steps of a worker, taken one right after the other, leave the session as runExecutionNode run by itself
      does, and Walk is told what the body ended with: first for a target without a scope ... */
  lemma TargetAlone(c: Config, e: State, n: Name, ok: bool, e1: State, e2: State)
    requires Next(c, e, BodyDone(Target(n), ok), e1) && Next(c, e1, DropLock(Target(n)), e2)
    ensures n !in c.sys.scopes && e2.walk.workers == e.walk.workers[Target(n) := Walk.Exited(ok)]
    ensures e2.ses == S.Release(S.Forget(e.ses, Target(n)), S.Reserved(e.ses, Target(n)))
  {
  }

  /** ... for a composite's own vertex ... */
  lemma ScopeEndAlone(c: Config, e: State, p: Name, ok: bool, e1: State, e2: State)
    requires Next(c, e, ScopeBodyDone(p, ok), e1) && Next(c, e1, CloseLock(p), e2)
    ensures p in c.sys.scopes && e2.walk.workers == e.walk.workers[Target(p) := Walk.Exited(ok)]
    ensures e2.ses == S.Release(S.Close(e.ses, p), S.LockOf(c.sys, p))
  {
  }

  /** ... and for a scope start that opens its scope or fails to. */
  lemma StartAlone(c: Config, e: State, p: Name, ok: bool, e1: State, e2: State)
    requires if ok then Next(c, e, OpenScope(p), e1) && Next(c, e1, ForgetStart(p), e2)
             else Next(c, e, FailOpen(p), e1) && Next(c, e1, DropLock(ScopeStart(p)), e2)
    ensures e2.walk.workers == e.walk.workers[ScopeStart(p) := Walk.Exited(ok)]
    ensures e2.ses ==
      if ok then S.Forget(S.Open(e.ses, p), ScopeStart(p))
      else S.Release(S.Forget(e.ses, ScopeStart(p)), S.Reserved(e.ses, ScopeStart(p)))
  {
  }

  // ---- Cancellation -----------------------------------------------------------------------------

  /** In the engine, too, nothing starts once the context is done, except one vertex that is just being tried. */
  lemma CancelStopsStarts(c: Config, run: seq<State>, i: nat, j: nat, k: nat, v: Node, w: Node)
    requires IsRun(c, run) && i < |run| && run[i].walk.ctxDone && i < j <= k < |run|
    requires Walk.StartsAt(WalkRun(run), j, v) && Walk.StartsAt(WalkRun(run), k, w)
    ensures run[i].walk.pc.Scan? && j == k && v == w
  {
    RunRefinesWalk(c, run);
    if !run[i].walk.pc.Scan? {
      Walk.NothingStartsAfterCancel(c.walk, WalkRun(run), i, j, v);
    }
    Walk.OneStartAfterCancel(c.walk, WalkRun(run), i, j, k, v, w);
  }

  /** The context can be cancelled at any moment; from then on a run that cannot go on has returned. */
  lemma CancelledRunsReturn(c: Config, run: seq<State>, i: nat)
    requires WellFormed(c) && c.walk.notified && IsRun(c, run) && i < |run|
    ensures exists e' :: Next(c, run[i], WalkStep(Walk.Cancel), e') && e'.walk.ctxDone
    ensures run[i].walk.ctxDone ==> (run[i].walk.pc.Returned? <==> !Termination.CanGoOn(c, run[i]))
  {
    var e := run[i];
    assert Next(c, e, WalkStep(Walk.Cancel), e.(walk := e.walk.(ctxDone := true)));
    RunInv(c, run, i);
    Termination.GoesOnIff(c, e);
  }

  // ---- Plans ---------------------------------------------------------------------------------------

  /** In a run of a plan, when the body of a target fails, no target that depends on it starts, nor its scope if it
      has one; the target never counts as a success, and the run can only return an error. */
  lemma FailedTargetStopsDependents(
    project: Project, requested: seq<Name>, plan: Plan, b: BuildSpec.B, parallelism: int, run: seq<State>, j: nat, i: nat,
    n: Name, d: Name, v: Node)
    requires EndToEnd.Runs(project, requested, plan, b, parallelism, run)
    requires n in plan.targets && n in b.closed && d in plan.targets[n].dependsOn
    requires v == Target(n) || v == BuildSpec.Root(ExecutionGraph.ShapeOf(plan), n)
    requires BodyEndsAt(EndToEnd.ConfigOf(plan, b, parallelism), run, j, Target(d), false) && i < |run|
    ensures Target(d) !in run[i].walk.succeeded && !Walk.StartsAt(WalkRun(run), i, v)
    ensures j < i && run[i].walk.pc.Returned? ==> run[i].walk.pc.outcome.Failed?
  {
    var c := EndToEnd.ConfigOf(plan, b, parallelism);
    EndToEnd.BuiltSuitsEngine(project, requested, plan, b, parallelism);
    FailureStopsDescendants(c, run, j, i, Target(d), v);
    if Walk.StartsAt(WalkRun(run), i, v) {
      var k := EndToEnd.DependenciesFirst(project, requested, plan, b, parallelism, run, i, n, d, v);
      BodyDecides(c, run, j, k, Target(d), false);
    }
    if j < i && run[i].walk.pc.Returned? {
      FailureIsReturned(c, run, j, i, Target(d));
    }
  }
}
