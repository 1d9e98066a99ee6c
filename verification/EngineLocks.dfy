/** What the session's bookkeeping keeps over every run of the engine: which stages workers are
    in, which scopes are open, and that every held lock has an owner. */
module EngineLocks {
  import opened Nodes
  import opened Digraph
  import opened Engine
  import Walk
  import S = Session

  /** The execution graph gives each composite one scope start, before its own vertex. */
  ghost predicate WellFormed(c: Config) {
    && Walk.WellFormed(c.walk)
    && (forall p {:trigger ScopeStart(p)} :: ScopeStart(p) in c.walk.vertices ==>
          p in c.sys.scopes && Reach(c.walk.edges, ScopeStart(p), Target(p)))
    && (forall p :: p in c.sys.scopes && Target(p) in c.walk.vertices ==> ScopeStart(p) in c.walk.vertices)
  }

  /** Exactly the vertices whose Run is in progress have a stage. */
  ghost predicate Staged(e: State) {
    forall v :: v in e.stage <==> v in e.walk.workers && e.walk.workers[v].InRun?
  }

  /** Only the node being tried can have failed the cover check, and only if it needs a lock. */
  ghost predicate Probing(c: Config, e: State) {
    e.probed ==> Scanning(e) && S.Needed(c.sys, Tried(e)) != NoLock
  }

  predicate FitsStage(c: Config, v: Node, stage: Stage) {
    match stage
    case Running => true
    case Opened => v.ScopeStart?
    case Dropping(ok, lock) =>
      && ((v.ScopeStart? && !ok) || (v.Target? && v.name !in c.sys.scopes))
      && (lock == NoLock || lock == S.Needed(c.sys, v))
    case Closing(_) => v.Target? && v.name in c.sys.scopes
  }

  ghost predicate Stages(c: Config, e: State) {
    && (forall v :: v in e.stage ==> FitsStage(c, v, e.stage[v]))
    && (forall v :: v in e.ses.reserved ==>
          v in e.stage && (e.stage[v].Running? || e.stage[v].Opened?)
          && e.ses.reserved[v] == S.Needed(c.sys, v) && S.Needed(c.sys, v) != NoLock)
    && NoLock !in e.ses.held
  }

  ghost predicate HasOpened(e: State, p: Name) {
    ScopeStart(p) in e.walk.succeeded || At(e, ScopeStart(p), Opened)
  }

  ghost predicate HasClosed(e: State, p: Name) {
    Target(p) in e.walk.started && !At(e, Target(p), Running)
  }

  /** A scope is open exactly from its start until its own vertex has finished running. */
  ghost predicate Spans(c: Config, e: State) {
    forall p :: p in e.ses.scopes <==> p in c.sys.scopes && HasOpened(e, p) && !HasClosed(e, p)
  }

  // ---- Ownership -------------------------------------------------------------------

  datatype Owner = ByNode(v: Node) | ByScope(p: Name)

  ghost predicate Owns(c: Config, e: State, o: Owner, lock: Lock) {
    match o
    case ByNode(v) =>
      || (v in e.ses.reserved && e.ses.reserved[v] == lock && At(e, v, Running))
      || (v in e.stage && e.stage[v].Dropping? && e.stage[v].lock == lock)
    case ByScope(p) =>
      && S.LockOf(c.sys, p) == lock
      && (p in e.ses.scopes || (Target(p) in e.stage && e.stage[Target(p)].Closing?))
  }

  /** Every held lock is covered by a reservation, a worker about to free it, or a scope. */
  ghost predicate Accounted(c: Config, e: State) {
    forall lock :: lock in e.ses.held ==> exists o :: Owns(c, e, o, lock)
  }

  ghost predicate Inv(c: Config, e: State) {
    Walk.Inv(c.walk, e.walk) && Staged(e) && Probing(c, e) && Stages(c, e) && Spans(c, e) && Accounted(c, e)
  }

  // ---- What one step changes --------------------------------------------------------

  /** Nothing the session's bookkeeping looks at has changed. */
  ghost predicate Untouched(e: State, e': State) {
    && e'.ses == e.ses && e'.stage == e.stage
    && e'.walk.started == e.walk.started && e'.walk.succeeded == e.walk.succeeded
    && SameRunning(e.walk.workers, e'.walk.workers)
  }

  ghost predicate SameRunning(workers: map<Node, Walk.Phase>, workers': map<Node, Walk.Phase>) {
    forall v :: v in workers && workers[v].InRun? <==> v in workers' && workers'[v].InRun?
  }

  predicate Quiet(step: Step) {
    step.WalkStep? || step.ProbeFails? || step.RefuseHeld? || step.WakeUp?
  }

  /** Receiving a result takes only a worker that has exited. */
  lemma ReceivedKeepsRunning(
    c: Walk.Config<Node>, w: Walk.State<Node>, v: Node, ok: bool, next: seq<Node>, w': Walk.State<Node>)
    requires v in w.workers && w.workers[v].Exited? && Walk.Received(c, w, v, ok, next, w')
    ensures w'.started == w.started && w'.succeeded == w.succeeded && SameRunning(w.workers, w'.workers)
  {
    assert w'.workers == w.workers - {v};
  }

  lemma WalkKeepsRunning(c: Walk.Config<Node>, w: Walk.State<Node>, ws: Walk.Step<Node>, w': Walk.State<Node>)
    requires Walk.Next(c, w, ws, w') && !ws.Admit? && !ws.RunReturns?
    ensures w'.started == w.started && w'.succeeded == w.succeeded && SameRunning(w.workers, w'.workers)
  {
    if ws.Receive? {
      ReceivedKeepsRunning(c, w, ws.v, w.workers[ws.v].ok, ws.next, w');
    }
  }

  lemma QuietStep(c: Config, e: State, step: Step, e': State)
    requires Next(c, e, step, e') && Quiet(step)
    ensures Untouched(e, e')
  {
    if step.WalkStep? {
      WalkKeepsRunning(c.walk, e.walk, step.step, e'.walk);
    }
  }

  predicate Admitting(step: Step) {
    step.AdmitFree? || step.AdmitCovered? || step.AdmitAcquire?
  }

  /** The tried vertex was never started and none of its descendants was. */
  lemma AdmitStep(c: Config, e: State, step: Step, e': State)
    requires WellFormed(c) && Walk.Inv(c.walk, e.walk) && Next(c, e, step, e') && Admitting(step)
    ensures Scanning(e) && var v := Tried(e);
      && v in c.walk.vertices && v !in e.walk.started
      && e'.walk.started == e.walk.started + {v} && e'.walk.succeeded == e.walk.succeeded
      && e'.walk.workers == e.walk.workers[v := Walk.InRun]
      && e'.stage == e.stage[v := Running]
      && e'.ses == if step.AdmitAcquire? then S.Acquire(e.ses, v, S.Needed(c.sys, v)) else e.ses
  {
    assert Tried(e) in e.walk.ready;
  }

  lemma ReturnStep(c: Config, e: State, v: Node, ok: bool, ses: S.State, e': State)
    requires Returns(c, e, v, ok, ses, e')
    ensures v in e.walk.workers && e.walk.workers[v].InRun?
    ensures e'.walk.started == e.walk.started && e'.stage == e.stage - {v} && e'.ses == ses
    ensures e'.walk.succeeded == if ok then e.walk.succeeded + {v} else e.walk.succeeded
    ensures e'.walk.workers == e.walk.workers[v := Walk.Exited(ok)]
  {
  }

  predicate Returning(step: Step) {
    step.ForgetStart? || step.DropLock? || step.BarrierDone? || step.CloseLock?
  }

  lemma StagedReturn(c: Config, e: State, v: Node, ok: bool, ses: S.State, e': State)
    requires Staged(e) && Returns(c, e, v, ok, ses, e')
    ensures Staged(e')
  {
    ReturnStep(c, e, v, ok, ses, e');
  }

  lemma StagedWork(c: Config, e: State, step: Step, e': State)
    requires Staged(e) && Next(c, e, step, e') && !Quiet(step) && !Admitting(step)
    ensures Staged(e')
  {
    if step.ForgetStart? {
      StagedReturn(c, e, ScopeStart(step.p), true, e'.ses, e');
    } else if step.DropLock? {
      StagedReturn(c, e, step.v, e.stage[step.v].ok, e'.ses, e');
    } else if step.BarrierDone? {
      StagedReturn(c, e, step.v, true, e'.ses, e');
    } else if step.CloseLock? {
      StagedReturn(c, e, Target(step.p), e.stage[Target(step.p)].ok, e'.ses, e');
    } else {
      assert e'.walk == e.walk && forall v :: v in e'.stage <==> v in e.stage;
    }
  }

  lemma StagedStep(c: Config, e: State, step: Step, e': State)
    requires WellFormed(c) && Walk.Inv(c.walk, e.walk) && Staged(e) && Next(c, e, step, e')
    ensures Staged(e')
  {
    if Quiet(step) {
      QuietStep(c, e, step, e');
    } else if Admitting(step) {
      AdmitStep(c, e, step, e');
      NotStagedBefore(c, e, Tried(e));
    } else {
      StagedWork(c, e, step, e');
    }
  }

  lemma ProbingStep(c: Config, e: State, step: Step, e': State)
    requires Probing(c, e) && Next(c, e, step, e')
    ensures Probing(c, e')
  {
  }

  lemma StagesAdmit(c: Config, e: State, step: Step, e': State)
    requires WellFormed(c) && Walk.Inv(c.walk, e.walk) && Staged(e) && Probing(c, e) && Stages(c, e)
    requires Next(c, e, step, e') && Admitting(step)
    ensures Stages(c, e')
  {
    AdmitStep(c, e, step, e');
    NotStagedBefore(c, e, Tried(e));
  }

  lemma StagesWork(c: Config, e: State, step: Step, e': State)
    requires Stages(c, e) && Next(c, e, step, e') && !Quiet(step) && !Admitting(step)
    ensures Stages(c, e')
  {
    if Returning(step) {
      StagesReturn(c, e, step, e');
    }
  }

  lemma StagesReturn(c: Config, e: State, step: Step, e': State)
    requires Stages(c, e) && Next(c, e, step, e') && Returning(step)
    ensures Stages(c, e')
  {
    match step
    case ForgetStart(p) => ReturnStep(c, e, ScopeStart(p), true, e'.ses, e');
    case DropLock(v) => ReturnStep(c, e, v, e.stage[v].ok, e'.ses, e');
    case BarrierDone(v) =>
      ReturnStep(c, e, v, true, e'.ses, e');
      assert v !in e.ses.reserved;
    case CloseLock(p) => ReturnStep(c, e, Target(p), e.stage[Target(p)].ok, e'.ses, e');
  }

  lemma StagesStep(c: Config, e: State, step: Step, e': State)
    requires WellFormed(c) && Walk.Inv(c.walk, e.walk) && Staged(e) && Probing(c, e) && Stages(c, e)
    requires Next(c, e, step, e')
    ensures Stages(c, e')
  {
    if Quiet(step) {
      QuietStep(c, e, step, e');
    } else if Admitting(step) {
      StagesAdmit(c, e, step, e');
    } else {
      StagesWork(c, e, step, e');
    }
  }

  lemma NotStagedBefore(c: Config, e: State, v: Node)
    requires Walk.Inv(c.walk, e.walk) && Staged(e) && v !in e.walk.started
    ensures v !in e.stage
  {
  }

  // ---- Scope spans ------------------------------------------------------------------

  lemma SpansAdmitted(c: Config, e: State, v: Node, e': State)
    requires Spans(c, e) && v !in e.stage && v !in e.walk.started && e'.ses.scopes == e.ses.scopes
    requires e'.walk.started == e.walk.started + {v} && e'.walk.succeeded == e.walk.succeeded
    requires e'.stage == e.stage[v := Running]
    ensures Spans(c, e')
  {
    forall p
      ensures HasOpened(e', p) <==> HasOpened(e, p)
      ensures HasClosed(e', p) <==> HasClosed(e, p)
    {
    }
  }

  lemma SpansAdmit(c: Config, e: State, step: Step, e': State)
    requires WellFormed(c) && Walk.Inv(c.walk, e.walk) && Staged(e) && Spans(c, e)
    requires Next(c, e, step, e') && Admitting(step)
    ensures Spans(c, e')
  {
    AdmitStep(c, e, step, e');
    NotStagedBefore(c, e, Tried(e));
    SpansAdmitted(c, e, Tried(e), e');
  }

  /** Before a scope start has succeeded, the composite's own vertex has not started. */
  lemma EndNotStarted(c: Config, e: State, p: Name)
    requires WellFormed(c) && Walk.Inv(c.walk, e.walk) && Staged(e)
    requires ScopeStart(p) in e.stage
    ensures p in c.sys.scopes && Target(p) !in e.walk.started && ScopeStart(p) in e.walk.started
    ensures ScopeStart(p) !in e.walk.succeeded
  {
    assert ScopeStart(p) in e.walk.workers;
    if Target(p) in e.walk.started {
      Walk.AncestorReleased(c.walk, e.walk, ScopeStart(p), Target(p));
    }
  }

  /** A running composite vertex has its scope start behind it. */
  lemma StartSucceeded(c: Config, e: State, p: Name)
    requires WellFormed(c) && Walk.Inv(c.walk, e.walk)
    requires Target(p) in e.walk.started && p in c.sys.scopes
    ensures ScopeStart(p) in e.walk.succeeded
  {
    Walk.AncestorReleased(c.walk, e.walk, ScopeStart(p), Target(p));
  }

  lemma SpansOpen(c: Config, e: State, p: Name, e': State)
    requires Spans(c, e) && Next(c, e, OpenScope(p), e')
    requires p in c.sys.scopes && Target(p) !in e.walk.started
    ensures Spans(c, e')
  {
    forall q
      ensures q != p ==> (HasOpened(e', q) <==> HasOpened(e, q))
      ensures HasClosed(e', q) <==> HasClosed(e, q)
    {
    }
  }

  lemma SpansFail(c: Config, e: State, p: Name, e': State)
    requires Spans(c, e) && Next(c, e, FailOpen(p), e')
    ensures Spans(c, e')
  {
    forall q
      ensures HasOpened(e', q) <==> HasOpened(e, q)
      ensures HasClosed(e', q) <==> HasClosed(e, q)
    {
    }
  }

  lemma SpansForget(c: Config, e: State, p: Name, e': State)
    requires Spans(c, e) && Next(c, e, ForgetStart(p), e')
    ensures Spans(c, e')
  {
    ReturnStep(c, e, ScopeStart(p), true, e'.ses, e');
    forall q
      ensures HasOpened(e', q) <==> HasOpened(e, q)
      ensures HasClosed(e', q) <==> HasClosed(e, q)
    {
    }
  }

  lemma SpansEnd(c: Config, e: State, p: Name, ok: bool, e': State)
    requires WellFormed(c) && Walk.Inv(c.walk, e.walk) && Staged(e) && Spans(c, e)
    requires Next(c, e, ScopeBodyDone(p, ok), e')
    ensures Spans(c, e')
  {
    assert Target(p) in e.walk.workers;
    forall q
      ensures HasOpened(e', q) <==> HasOpened(e, q)
      ensures q != p ==> (HasClosed(e', q) <==> HasClosed(e, q))
    {
    }
  }

  /** The other worker steps move no scope boundary. */
  lemma SpansOther(c: Config, e: State, step: Step, e': State)
    requires Stages(c, e) && Spans(c, e) && Next(c, e, step, e')
    requires step.BodyDone? || step.DropLock? || step.BarrierDone? || step.CloseLock?
    ensures Spans(c, e')
  {
    forall q | q in c.sys.scopes
      ensures HasOpened(e', q) <==> HasOpened(e, q)
      ensures HasClosed(e', q) <==> HasClosed(e, q)
    {
    }
  }

  lemma SpansWork(c: Config, e: State, step: Step, e': State)
    requires WellFormed(c) && Walk.Inv(c.walk, e.walk) && Staged(e) && Stages(c, e) && Spans(c, e)
    requires Next(c, e, step, e') && !Quiet(step) && !Admitting(step)
    ensures Spans(c, e')
  {
    if step.OpenScope? {
      EndNotStarted(c, e, step.p);
      SpansOpen(c, e, step.p, e');
    } else if step.FailOpen? {
      SpansFail(c, e, step.p, e');
    } else if step.ForgetStart? {
      SpansForget(c, e, step.p, e');
    } else if step.ScopeBodyDone? {
      SpansEnd(c, e, step.p, step.ok, e');
    } else {
      SpansOther(c, e, step, e');
    }
  }

  lemma SpansStep(c: Config, e: State, step: Step, e': State)
    requires WellFormed(c) && Walk.Inv(c.walk, e.walk) && Staged(e) && Stages(c, e) && Spans(c, e)
    requires Next(c, e, step, e')
    ensures Spans(c, e')
  {
    if Quiet(step) {
      QuietStep(c, e, step, e');
    } else if Admitting(step) {
      SpansAdmit(c, e, step, e');
    } else {
      SpansWork(c, e, step, e');
    }
  }

  // ---- Owners -----------------------------------------------------------------------

  lemma AccountedAdmit(c: Config, e: State, step: Step, e': State)
    requires WellFormed(c) && Walk.Inv(c.walk, e.walk) && Staged(e) && Probing(c, e) && Stages(c, e)
    requires Accounted(c, e) && Next(c, e, step, e') && Admitting(step)
    ensures Accounted(c, e')
  {
    AdmitStep(c, e, step, e');
    var v := Tried(e);
    NotStagedBefore(c, e, v);
    forall lock | lock in e'.ses.held
      ensures exists o :: Owns(c, e', o, lock)
    {
      if lock in e.ses.held {
        var o :| Owns(c, e, o, lock);
        assert Owns(c, e', o, lock);
      } else {
        assert Owns(c, e', ByNode(v), lock);
      }
    }
  }

  /** A worker step that frees nothing hands each lock from its owner to the same owner, or from a
      scope start to its scope. */
  lemma OwnersHandOver(c: Config, e: State, step: Step, e': State, o: Owner, lock: Lock)
    requires Stages(c, e) && Next(c, e, step, e') && lock != NoLock && Owns(c, e, o, lock)
    requires step.OpenScope? || step.FailOpen? || step.BodyDone? || step.ScopeBodyDone?
    ensures Owns(c, e', if step.OpenScope? && o == ByNode(ScopeStart(step.p)) then ByScope(step.p) else o, lock)
  {
  }

  lemma AccountedHandOver(c: Config, e: State, step: Step, e': State)
    requires Stages(c, e) && Accounted(c, e) && Next(c, e, step, e')
    requires step.OpenScope? || step.FailOpen? || step.BodyDone? || step.ScopeBodyDone?
    ensures Accounted(c, e')
  {
    forall lock | lock in e'.ses.held
      ensures exists o :: Owns(c, e', o, lock)
    {
      var o :| Owns(c, e, o, lock);
      OwnersHandOver(c, e, step, e', o, lock);
    }
  }

  /** A worker that returns takes at most the lock it has just freed out of the books. */
  lemma OwnersAfterReturn(c: Config, e: State, step: Step, e': State, o: Owner, lock: Lock)
    requires Stages(c, e) && Next(c, e, step, e') && Returning(step) && Owns(c, e, o, lock)
    requires lock in e'.ses.held
    ensures Owns(c, e', o, lock)
  {
    match step
    case ForgetStart(p) => ReturnStep(c, e, ScopeStart(p), true, e'.ses, e');
    case DropLock(v) => ReturnStep(c, e, v, e.stage[v].ok, e'.ses, e');
    case BarrierDone(v) =>
      ReturnStep(c, e, v, true, e'.ses, e');
      assert v !in e.ses.reserved;
    case CloseLock(p) => ReturnStep(c, e, Target(p), e.stage[Target(p)].ok, e'.ses, e');
  }

  lemma AccountedReturn(c: Config, e: State, step: Step, e': State)
    requires Stages(c, e) && Accounted(c, e) && Next(c, e, step, e') && Returning(step)
    ensures Accounted(c, e')
  {
    forall lock | lock in e'.ses.held
      ensures exists o :: Owns(c, e', o, lock)
    {
      assert lock in e.ses.held;
      var o :| Owns(c, e, o, lock);
      OwnersAfterReturn(c, e, step, e', o, lock);
    }
  }

  lemma AccountedQuiet(c: Config, e: State, e': State)
    requires Untouched(e, e') && Accounted(c, e)
    ensures Accounted(c, e')
  {
    forall lock | lock in e'.ses.held
      ensures exists o :: Owns(c, e', o, lock)
    {
      var o :| Owns(c, e, o, lock);
      assert Owns(c, e', o, lock);
    }
  }

  lemma AccountedStep(c: Config, e: State, step: Step, e': State)
    requires WellFormed(c) && Walk.Inv(c.walk, e.walk) && Staged(e) && Probing(c, e) && Stages(c, e)
    requires Accounted(c, e) && Next(c, e, step, e')
    ensures Accounted(c, e')
  {
    if Quiet(step) {
      QuietStep(c, e, step, e');
      AccountedQuiet(c, e, e');
    } else if Admitting(step) {
      AccountedAdmit(c, e, step, e');
    } else if Returning(step) {
      AccountedReturn(c, e, step, e');
    } else {
      AccountedHandOver(c, e, step, e');
    }
  }

  // ---- Runs ---------------------------------------------------------------------------

  lemma InvInit(c: Config, e: State)
    requires WellFormed(c) && Init(c, e)
    ensures Inv(c, e)
  {
    Walk.InvInit(c.walk, e.walk);
  }

  lemma InvStep(c: Config, e: State, step: Step, e': State)
    requires WellFormed(c) && Inv(c, e) && Next(c, e, step, e')
    ensures Inv(c, e')
  {
    var ws := StepRefinesWalk(c, e, step, e');
    Walk.InvStep(c.walk, e.walk, ws, e'.walk);
    StagedStep(c, e, step, e');
    ProbingStep(c, e, step, e');
    StagesStep(c, e, step, e');
    SpansStep(c, e, step, e');
    AccountedStep(c, e, step, e');
  }

  ghost predicate Stepped(c: Config, e: State, e': State) {
    exists step :: Next(c, e, step, e')
  }

  ghost predicate SteppedTo(c: Config, run: seq<State>, i: int) {
    0 < i < |run| ==> Stepped(c, run[i - 1], run[i])
  }

  ghost predicate IsRun(c: Config, run: seq<State>) {
    |run| > 0 && Init(c, run[0]) && forall i :: SteppedTo(c, run, i)
  }

  lemma StepTo(c: Config, run: seq<State>, i: nat) returns (step: Step)
    requires IsRun(c, run) && 0 < i < |run|
    ensures Next(c, run[i - 1], step, run[i])
  {
    assert SteppedTo(c, run, i);
    step :| Next(c, run[i - 1], step, run[i]);
  }

  lemma SteppedInv(c: Config, run: seq<State>, i: nat)
    requires WellFormed(c) && IsRun(c, run) && 0 < i < |run| && Inv(c, run[i - 1])
    ensures Inv(c, run[i])
  {
    var step := StepTo(c, run, i);
    InvStep(c, run[i - 1], step, run[i]);
  }

  lemma {:induction false} RunInv(c: Config, run: seq<State>, i: nat)
    requires WellFormed(c) && IsRun(c, run) && i < |run|
    ensures Inv(c, run[i])
  {
    if i == 0 {
      InvInit(c, run[0]);
    } else {
      RunInv(c, run, i - 1);
      SteppedInv(c, run, i);
    }
  }

  /** The step into state i of a run, with what holds on either side of it. */
  lemma Arrives(c: Config, run: seq<State>, j: nat, i: nat) returns (e: State, step: Step, e': State)
    requires WellFormed(c) && IsRun(c, run) && j + 1 == i < |run|
    ensures e == run[j] && e' == run[i]
    ensures Next(c, e, step, e') && Inv(c, e) && Inv(c, e')
  {
    RunInv(c, run, j);
    RunInv(c, run, i);
    step := StepFrom(c, run, j, i);
    e, e' := run[j], run[i];
  }

  lemma StepFrom(c: Config, run: seq<State>, j: nat, i: nat) returns (step: Step)
    requires IsRun(c, run) && j + 1 == i < |run|
    ensures Next(c, run[j], step, run[i])
  {
    step := StepTo(c, run, i);
  }

  ghost function WalkRun(run: seq<State>): (r: seq<Walk.State<Node>>)
    ensures |r| == |run| && forall i :: 0 <= i < |run| ==> r[i] == run[i].walk
  {
    seq(|run|, i requires 0 <= i < |run| => run[i].walk)
  }

  /** Every run of the engine is, seen from Walk, a run of Walk. */
  lemma RunRefinesWalk(c: Config, run: seq<State>)
    requires IsRun(c, run)
    ensures Walk.IsRun(c.walk, WalkRun(run))
  {
    var w := WalkRun(run);
    forall i
      ensures Walk.SteppedTo(c.walk, w, i)
    {
      if 0 < i < |w| {
        var step := StepTo(c, run, i);
        var ws := StepRefinesWalk(c, run[i - 1], step, run[i]);
        assert Walk.Stepped(c.walk, w[i - 1], w[i]);
      }
    }
  }

  // ---- After the run --------------------------------------------------------------------

  /** However Walk returns, no reservation is left, and every lock still held belongs to a scope
      that is still open; closeActiveScopes then leaves no lock held and no scope open. */
  lemma NothingLeftHeld(c: Config, run: seq<State>, i: nat)
    requires WellFormed(c) && IsRun(c, run) && i < |run| && run[i].walk.pc.Returned?
    ensures run[i].ses.reserved == map[]
    ensures run[i].ses.held - S.LocksOf(c.sys, run[i].ses.scopes) == {}
    ensures forall lock :: lock in run[i].ses.held ==>
      exists p :: p in run[i].ses.scopes && p in c.sys.locks && c.sys.locks[p] == lock
  {
    RunInv(c, run, i);
    var e := run[i];
    assert e.stage.Keys == {} by {
      assert forall v :: v !in e.stage;
    }
    assert e.ses.reserved.Keys == {} by {
      assert forall v :: v !in e.ses.reserved;
    }
    forall lock | lock in e.ses.held
      ensures lock in S.LocksOf(c.sys, e.ses.scopes)
      ensures exists p :: p in e.ses.scopes && p in c.sys.locks && c.sys.locks[p] == lock
    {
      var o :| Owns(c, e, o, lock);
      assert o.ByScope? && o.p in e.ses.scopes;
      assert lock != NoLock;
    }
  }

  /** With all stages empty, only open scopes hold locks: an idle Walk can be blocked by nothing else. */
  lemma OnlyScopesBlockIdleWalk(c: Config, e: State, lock: Lock)
    requires Inv(c, e) && e.walk.workers == map[] && lock in e.ses.held
    ensures exists p :: p in e.ses.scopes && S.LockOf(c.sys, p) == lock
  {
    var o :| Owns(c, e, o, lock);
    assert forall v :: v !in e.stage;
    assert o.ByScope? && o.p in e.ses.scopes;
  }
}
