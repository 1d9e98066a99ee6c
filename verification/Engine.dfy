/** runExecutionGraph (internal/runner/scheduler.go): dag.Walk over the execution graph with the
    session deciding admission. A step is one critical section or one move of the walking
    goroutine, so worker goroutines interleave anywhere between them. */
module Engine {
  import opened Nodes
  import opened Digraph
  import opened Walk
  import S = Session

  /** Where a worker is inside runExecutionNode. Opened: a scope start after startScope, before it
      forgets its reservation. Dropping: reservation deleted, lock not yet freed. Closing: scope
      deleted, its lock not yet freed. */
  datatype Stage = Running | Opened | Dropping(ok: bool, lock: Lock) | Closing(ok: bool)

  datatype Config = Config(walk: Walk.Config<Node>, sys: S.System)

  /** fetched is the channel Walk got from changed(); probed says that the member scopes of the
      node being tried were found not to cover its lock. */
  datatype State = State(
    walk: Walk.State<Node>, ses: S.State, fetched: nat, probed: bool, stage: map<Node, Stage>)

  datatype Step =
    | WalkStep(step: Walk.Step<Node>)
    | AdmitFree | AdmitCovered | ProbeFails | AdmitAcquire | RefuseHeld | WakeUp
    | OpenScope(p: Name) | FailOpen(p: Name) | ForgetStart(p: Name)
    | BodyDone(v: Node, ok: bool) | DropLock(v: Node) | BarrierDone(v: Node)
    | ScopeBodyDone(p: Name, ok: bool) | CloseLock(p: Name)

  ghost predicate Init(c: Config, e: State) {
    && Walk.Init(c.walk, e.walk)
    && e.ses == S.State({}, 0, {}, map[])
    && e.fetched == e.ses.gen && !e.probed && e.stage == map[]
  }

  /** Walk's own moves, which touch nothing of the session. */
  predicate Private(step: Walk.Step<Node>) {
    !(step.Admit? || step.Refuse? || step.Wake? || step.RunReturns? || step.Elsewhere?)
  }

  predicate Scanning(e: State) {
    e.walk.pc.Scan? && e.walk.pc.i < |e.walk.ready|
  }

  function Tried(e: State): Node
    requires Scanning(e)
  {
    e.walk.ready[e.walk.pc.i]
  }

  predicate At(e: State, v: Node, stage: Stage) {
    v in e.stage && e.stage[v] == stage
  }

  /** A worker finishes: Run returns to Walk. */
  ghost predicate Returns(c: Config, e: State, v: Node, ok: bool, ses: S.State, e': State) {
    && Walk.Next(c.walk, e.walk, RunReturns(v, ok), e'.walk)
    && e' == e.(walk := e'.walk, ses := ses, stage := e.stage - {v})
  }

  ghost predicate Admits(c: Config, e: State, ses: S.State, e': State)
    requires Scanning(e)
  {
    && Walk.Next(c.walk, e.walk, Admit, e'.walk)
    && e' == e.(walk := e'.walk, ses := ses, probed := false, stage := e.stage[Tried(e) := Running])
  }

  ghost predicate Next(c: Config, e: State, step: Step, e': State) {
    match step
    case WalkStep(ws) =>
      Private(ws) && Walk.Next(c.walk, e.walk, ws, e'.walk) && e' == e.(walk := e'.walk)
    case AdmitFree =>
      && Scanning(e) && !e.probed && S.Needed(c.sys, Tried(e)) == NoLock
      && Admits(c, e, e.ses, e')
    case AdmitCovered =>
      && Scanning(e) && !e.probed && S.Needed(c.sys, Tried(e)) != NoLock
      && S.Covered(c.sys, e.ses, Tried(e), S.Needed(c.sys, Tried(e)))
      && Admits(c, e, e.ses, e')
    case ProbeFails =>
      && Scanning(e) && !e.probed && S.Needed(c.sys, Tried(e)) != NoLock
      && !S.Covered(c.sys, e.ses, Tried(e), S.Needed(c.sys, Tried(e)))
      && e' == e.(probed := true)
    case AdmitAcquire =>
      && Scanning(e) && e.probed && S.Needed(c.sys, Tried(e)) !in e.ses.held
      && Admits(c, e, S.Acquire(e.ses, Tried(e), S.Needed(c.sys, Tried(e))), e')
    case RefuseHeld =>
      && Scanning(e) && e.probed && S.Needed(c.sys, Tried(e)) in e.ses.held
      && Walk.Next(c.walk, e.walk, Refuse, e'.walk)
      && e' == e.(walk := e'.walk, probed := false)
    case WakeUp =>
      && e.fetched < e.ses.gen && Walk.Next(c.walk, e.walk, Wake, e'.walk)
      && e' == e.(walk := e'.walk, fetched := e.ses.gen)
    case OpenScope(p) =>
      && At(e, ScopeStart(p), Running)
      && e' == e.(ses := S.Open(e.ses, p), stage := e.stage[ScopeStart(p) := Opened])
    case FailOpen(p) =>
      && At(e, ScopeStart(p), Running)
      && e' == e.(ses := S.Forget(e.ses, ScopeStart(p)),
                  stage := e.stage[ScopeStart(p) := Dropping(false, S.Reserved(e.ses, ScopeStart(p)))])
    case ForgetStart(p) =>
      && At(e, ScopeStart(p), Opened)
      && Returns(c, e, ScopeStart(p), true, S.Forget(e.ses, ScopeStart(p)), e')
    case BodyDone(v, ok) =>
      && At(e, v, Running) && v.Target? && v.name !in c.sys.scopes
      && e' == e.(ses := S.Forget(e.ses, v), stage := e.stage[v := Dropping(ok, S.Reserved(e.ses, v))])
    case DropLock(v) =>
      && v in e.stage && e.stage[v].Dropping?
      && Returns(c, e, v, e.stage[v].ok, S.Release(e.ses, e.stage[v].lock), e')
    case BarrierDone(v) =>
      At(e, v, Running) && (v.Barrier? || v.Nil?) && Returns(c, e, v, true, e.ses, e')
    case ScopeBodyDone(p, ok) =>
      && At(e, Target(p), Running) && p in c.sys.scopes
      && e' == e.(ses := S.Close(e.ses, p), stage := e.stage[Target(p) := Closing(ok)])
    case CloseLock(p) =>
      && Target(p) in e.stage && e.stage[Target(p)].Closing?
      && Returns(c, e, Target(p), e.stage[Target(p)].ok, S.Release(e.ses, S.LockOf(c.sys, p)), e')
  }

  /** The steps of the worker goroutines; all others are Walk's own. */
  predicate ByWorker(step: Step) {
    || step.OpenScope? || step.FailOpen? || step.ForgetStart? || step.BodyDone? || step.DropLock?
    || step.BarrierDone? || step.ScopeBodyDone? || step.CloseLock?
  }

  /** Every engine step is a step of dag.Walk, so Walk's guarantees carry over to every run. */
  lemma StepRefinesWalk(c: Config, e: State, step: Step, e': State) returns (ws: Walk.Step<Node>)
    requires Next(c, e, step, e')
    ensures Walk.Next(c.walk, e.walk, ws, e'.walk)
    ensures ws.Refuse? ==> step.RefuseHeld?
    ensures ws.Admit? ==> step.AdmitFree? || step.AdmitCovered? || step.AdmitAcquire?
    ensures ByWorker(step) ==> ws.RunReturns? || ws.Elsewhere?
  {
    match step
    case WalkStep(s) => ws := s;
    case AdmitFree => ws := Admit;
    case AdmitCovered => ws := Admit;
    case AdmitAcquire => ws := Admit;
    case RefuseHeld => ws := Refuse;
    case WakeUp => ws := Wake;
    case ForgetStart(p) => ws := RunReturns(ScopeStart(p), true);
    case DropLock(v) => ws := RunReturns(v, e.stage[v].ok);
    case BarrierDone(v) => ws := RunReturns(v, true);
    case CloseLock(p) => ws := RunReturns(Target(p), e.stage[Target(p)].ok);
    case _ => ws := Elsewhere;
  }
}
