/** Runs end. Every step that changes anything lowers a measure, so runs have a bounded length; and a run can go on
    until Walk has returned, unless it waits, with nothing at work, for a lock that nobody is about to free. */
module Termination {
  import opened Nodes
  import opened Digraph
  import opened Wrappers
  import opened Engine
  import opened EngineLocks
  import opened Planner
  import BuildSpec
  import EndToEnd
  import EngineSafety
  import ExecutionGraph
  import Dag
  import Schedule
  import Walk
  import S = Session

  // ---- The measure -------------------------------------------------------------------------

  ghost predicate AreInBody(stage: map<Node, Stage>, r: set<Node>) {
    forall v :: v in r <==> v in stage && stage[v] == Running
  }

  /** The vertices whose body is at work. */
  ghost function InBody(stage: map<Node, Stage>): (r: set<Node>)
    ensures AreInBody(stage, r)
  {
    assert AreInBody(stage, set v | v in stage && stage[v] == Running);
    var r :| AreInBody(stage, r);
    r
  }

  /** What is left to do for the vertices: to start, to run, to return, to be received. */
  ghost function Moves(c: Config, e: State): int {
    4 * (|c.walk.vertices| - |e.walk.started|) + |InBody(e.stage)| + |e.stage| + |e.walk.workers|
  }

  /** Wait channels closed since Walk last fetched one. */
  function Missed(e: State): nat {
    if e.ses.gen > e.fetched then e.ses.gen - e.fetched else 0
  }

  /** How far Walk is from its next wait or its end. */
  function Rank(e: State): int {
    (if e.walk.ctxDone then 0 else 1)
    + match e.walk.pc
      case Loop => 2 * |e.walk.ready| + 6
      case Scan(i) => 2 * (|e.walk.ready| - i) + (if e.probed then 3 else 4)
      case Wait => 2
      case Drain => 1
      case Returned(_) => 0
  }

  /** More than any rank. */
  ghost function Top(c: Config): nat {
    2 * |c.walk.vertices| + 8
  }

  function Weigh(top: nat, moves: int, missed: int, rank: int): int {
    (2 * top) * moves + top * missed + rank
  }

  ghost function Measure(c: Config, e: State): int {
    Weigh(Top(c), Moves(c, e), Missed(e), Rank(e))
  }

  lemma Times(k: nat, d: nat)
    ensures k * d >= 0
  {
  }

  lemma Product(k: nat, a: int, b: int)
    requires a < b
    ensures k * a <= k * b - k
  {
    var d := b - 1 - a;
    Times(k, d);
    assert k * d == k * b - k - k * a;
  }

  lemma OneTimes(k: nat, a: int)
    ensures k * (a + 1) == k * a + k
  {
  }

  lemma FewerMoves(top: nat, m: int, x: nat, r: int, m': int, x': nat, r': int)
    requires m' < m && x' <= x + 1 && r >= 0 && r' < top
    ensures Weigh(top, m', x', r') < Weigh(top, m, x, r)
  {
    Product(2 * top, m', m);
    OneTimes(top, x);
    if x' < x + 1 {
      Product(top, x', x + 1);
    }
  }

  lemma FewerMissed(top: nat, m: int, x: nat, r: int, x': nat, r': int)
    requires x' < x && r >= 0 && r' < top
    ensures Weigh(top, m, x', r') < Weigh(top, m, x, r)
  {
    Product(top, x', x);
  }

  lemma ReadyIsShort(vertices: set<Node>, ready: seq<Node>)
    requires Distinct(ready) && forall v :: v in ready ==> v in vertices
    ensures |ready| <= |vertices|
  {
    DistinctSize(ready);
    SubsetSize(Elems(ready), vertices);
  }

  lemma RankBounds(c: Config, e: State)
    requires Inv(c, e)
    ensures 0 <= Rank(e) < Top(c)
  {
    ReadyIsShort(c.walk.vertices, e.walk.ready);
  }

  lemma MovesBound(c: Config, e: State)
    requires Inv(c, e)
    ensures Moves(c, e) >= 0
  {
    SubsetSize(e.walk.started, c.walk.vertices);
  }

  /** What a step lowers. */
  ghost predicate Lowers(c: Config, e: State, e': State) {
    || (Moves(c, e') < Moves(c, e) && Missed(e') <= Missed(e) + 1)
    || (Moves(c, e') == Moves(c, e) && Missed(e') < Missed(e))
    || (Moves(c, e') == Moves(c, e) && Missed(e') == Missed(e) && Rank(e') < Rank(e))
  }

  lemma LowersMeasure(c: Config, e: State, e': State)
    requires Inv(c, e) && Inv(c, e') && Lowers(c, e, e')
    ensures Measure(c, e') < Measure(c, e)
  {
    RankBounds(c, e);
    RankBounds(c, e');
    if Moves(c, e') < Moves(c, e) {
      FewerMoves(Top(c), Moves(c, e), Missed(e), Rank(e), Moves(c, e'), Missed(e'), Rank(e'));
    } else if Missed(e') < Missed(e) {
      FewerMissed(Top(c), Moves(c, e), Missed(e), Rank(e), Missed(e'), Rank(e'));
    }
  }

  // ---- Each step lowers it -------------------------------------------------------------------

  lemma TriedIsNew(c: Config, e: State)
    requires Inv(c, e) && Scanning(e)
    ensures Tried(e) !in e.walk.started && Tried(e) !in e.walk.workers && Tried(e) !in e.stage
  {
    assert Tried(e) in e.walk.ready;
  }

  lemma AdmitLowers(c: Config, e: State, ses: S.State, e': State)
    requires Inv(c, e) && Scanning(e) && Admits(c, e, ses, e') && ses.gen == e.ses.gen
    ensures Lowers(c, e, e')
  {
    var v := Tried(e);
    TriedIsNew(c, e);
    assert e'.walk.started == e.walk.started + {v};
    Walk.AddWorker(e.walk.workers, v);
    MoreStages(e.stage, v);
  }

  lemma MoreStages(stage: map<Node, Stage>, v: Node)
    requires v !in stage
    ensures |stage[v := Running]| == |stage| + 1 && |InBody(stage[v := Running])| == |InBody(stage)| + 1
  {
    StageCount(stage, v);
    MoreInBody(stage, v);
  }

  lemma StageCount(stage: map<Node, Stage>, v: Node)
    requires v !in stage
    ensures |stage[v := Running]| == |stage| + 1
  {
    var more := stage[v := Running];
    assert more.Keys == stage.Keys + {v};
    assert |more| == |more.Keys| && |stage| == |stage.Keys|;
  }

  lemma MoreInBody(stage: map<Node, Stage>, v: Node)
    requires v !in stage
    ensures |InBody(stage[v := Running])| == |InBody(stage)| + 1
  {
    var was, now := InBody(stage), InBody(stage[v := Running]);
    assert v !in was;
    assert now == was + {v};
  }

  lemma SameStages(stage: map<Node, Stage>, v: Node, next: Stage)
    requires v in stage && stage[v] == Running && next != Running
    ensures |stage[v := next]| == |stage| && |InBody(stage[v := next])| == |InBody(stage)| - 1
  {
    var same := stage[v := next];
    assert same.Keys == stage.Keys;
    assert |same| == |same.Keys| && |stage| == |stage.Keys|;
    assert InBody(same) == InBody(stage) - {v};
  }

  lemma FewerStages(stage: map<Node, Stage>, v: Node)
    requires v in stage
    ensures |stage - {v}| == |stage| - 1 && |InBody(stage - {v})| <= |InBody(stage)|
  {
    var fewer := stage - {v};
    assert fewer.Keys == stage.Keys - {v};
    assert |fewer| == |fewer.Keys| && |stage| == |stage.Keys|;
    SubsetSize(InBody(fewer), InBody(stage));
  }

  lemma ReturnLowers(c: Config, e: State, v: Node, ok: bool, ses: S.State, e': State)
    requires Inv(c, e) && v in e.stage && Returns(c, e, v, ok, ses, e') && e.ses.gen <= ses.gen <= e.ses.gen + 1
    ensures Lowers(c, e, e')
  {
    FewerStages(e.stage, v);
    Walk.SameWorkers(e.walk.workers, v, Walk.Exited(ok));
  }

  lemma BodyLowers(c: Config, e: State, v: Node, next: Stage, e': State)
    requires v in e.stage && e.stage[v] == Running && next != Running
    requires e' == e.(ses := e'.ses, stage := e.stage[v := next]) && e'.ses.gen == e.ses.gen
    ensures Lowers(c, e, e')
  {
    SameStages(e.stage, v, next);
  }

  lemma WorkerLowers(c: Config, e: State, step: Step, e': State)
    requires Inv(c, e) && Next(c, e, step, e') && ByWorker(step)
    ensures Lowers(c, e, e')
  {
    match step
    case OpenScope(p) => BodyLowers(c, e, ScopeStart(p), Opened, e');
    case FailOpen(p) => BodyLowers(c, e, ScopeStart(p), e'.stage[ScopeStart(p)], e');
    case BodyDone(v, ok) => BodyLowers(c, e, v, e'.stage[v], e');
    case ScopeBodyDone(p, ok) => BodyLowers(c, e, Target(p), Closing(ok), e');
    case ForgetStart(p) => ReturnLowers(c, e, ScopeStart(p), true, e'.ses, e');
    case DropLock(v) => ReturnLowers(c, e, v, e.stage[v].ok, e'.ses, e');
    case BarrierDone(v) => ReturnLowers(c, e, v, true, e'.ses, e');
    case CloseLock(p) => ReturnLowers(c, e, Target(p), e.stage[Target(p)].ok, e'.ses, e');
  }

  lemma TakenLowers(c: Config, e: State, v: Node, e': State)
    requires v in e.walk.workers && e' == e.(walk := e'.walk)
    requires e'.walk.workers == e.walk.workers - {v} && e'.walk.started == e.walk.started
    ensures Lowers(c, e, e')
  {
    Walk.RemoveWorker(e.walk.workers, v);
  }

  /** Moves of Walk that touch no worker. */
  predicate Turns(ws: Walk.Step<Node>) {
    !ws.Receive? && !ws.Collect? && Private(ws)
  }

  lemma TurnLowers(c: Config, e: State, ws: Walk.Step<Node>, e': State)
    requires Inv(c, e) && Next(c, e, WalkStep(ws), e') && e' != e && Turns(ws)
    ensures Lowers(c, e, e')
  {
    assert Moves(c, e') == Moves(c, e) && Missed(e') == Missed(e);
  }

  lemma QuietLowers(c: Config, e: State, step: Step, e': State)
    requires Inv(c, e) && Next(c, e, step, e') && Quiet(step) && e' != e
    ensures Lowers(c, e, e')
  {
    if step.WalkStep? {
      var ws := step.step;
      if Turns(ws) {
        TurnLowers(c, e, ws, e');
      } else {
        TakenLowers(c, e, ws.v, e');
      }
    } else {
      assert Moves(c, e') == Moves(c, e);
    }
  }

  /** Every step lowers the measure, except that the context may be cancelled a second time, which changes
      nothing. */
  lemma StepLowers(c: Config, e: State, step: Step, e': State)
    requires WellFormed(c) && Inv(c, e) && Next(c, e, step, e') && e' != e
    ensures Measure(c, e') < Measure(c, e)
  {
    InvStep(c, e, step, e');
    SomethingLowers(c, e, step, e');
    LowersMeasure(c, e, e');
  }

  lemma SomethingLowers(c: Config, e: State, step: Step, e': State)
    requires Inv(c, e) && Next(c, e, step, e') && e' != e
    ensures Lowers(c, e, e')
  {
    if ByWorker(step) {
      WorkerLowers(c, e, step, e');
    } else if Admitting(step) {
      AdmitLowers(c, e, e'.ses, e');
    } else {
      QuietLowers(c, e, step, e');
    }
  }

  ghost predicate Moving(run: seq<State>) {
    forall i :: 0 < i < |run| ==> run[i] != run[i - 1]
  }

  lemma {:induction false} RunLowers(c: Config, run: seq<State>, i: nat)
    requires WellFormed(c) && IsRun(c, run) && Moving(run) && i < |run|
    ensures Measure(c, run[i]) <= Measure(c, run[0]) - i
    decreases i
  {
    if i > 0 {
      var j := i - 1;
      RunLowers(c, run, j);
      var step := StepFrom(c, run, j, i);
      RunInv(c, run, j);
      StepLowers(c, run[j], step, run[i]);
    }
  }

  lemma InitialMeasure(c: Config, e: State)
    requires WellFormed(c) && Init(c, e)
    ensures Measure(c, e) <= Weigh(Top(c), 4 * |c.walk.vertices|, 0, Top(c) - 1)
  {
    InvInit(c, e);
    RankBounds(c, e);
    assert InBody(e.stage) == {};
    assert Moves(c, e) == 4 * |c.walk.vertices| && Missed(e) == 0;
  }

  lemma MeasureBound(c: Config, e: State)
    requires Inv(c, e)
    ensures Measure(c, e) >= 0
  {
    RankBounds(c, e);
    MovesBound(c, e);
    Times(2 * Top(c), Moves(c, e));
    Times(Top(c), Missed(e));
  }

  function Bound(n: nat): nat {
    16 * n * n + 66 * n + 7
  }

  lemma Expand(n: nat, top: nat)
    requires top == 2 * n + 8
    ensures Weigh(top, 4 * n, 0, top - 1) == Bound(n)
  {
    assert (2 * top) * (4 * n) == 16 * n * n + 64 * n;
  }

  /** The number of steps that change anything is bounded by the number of vertices of the graph. */
  lemma RunsAreBounded(c: Config, run: seq<State>)
    requires WellFormed(c) && IsRun(c, run) && Moving(run)
    ensures |run| <= Bound(|c.walk.vertices|) + 1
  {
    var last := |run| - 1;
    RunLowers(c, run, last);
    RunInv(c, run, last);
    MeasureBound(c, run[last]);
    InitialMeasure(c, run[0]);
    Expand(|c.walk.vertices|, Top(c));
  }

  // ---- Runs go on until they are done or wait in vain ------------------------------------------

  /** A step that changes something, other than a cancellation from outside. */
  ghost predicate Goes(c: Config, e: State, step: Step, e': State) {
    Next(c, e, step, e') && e' != e && step != WalkStep(Walk.Cancel)
  }

  ghost predicate CanGoOn(c: Config, e: State) {
    exists step, e' :: Goes(c, e, step, e')
  }

  /** Walk has returned, or it waits with nothing at work and no wait channel closed. */
  predicate Halted(e: State) {
    || e.walk.pc.Returned?
    || (e.walk.pc.Wait? && e.walk.workers == map[] && !e.walk.ctxDone && e.fetched >= e.ses.gen)
  }

  function Left(e: State, v: Node, ok: bool, ses: S.State): State
    requires v in e.walk.workers
  {
    e.(walk := e.walk.(workers := e.walk.workers[v := Walk.Exited(ok)],
                       succeeded := if ok then e.walk.succeeded + {v} else e.walk.succeeded),
       ses := ses, stage := e.stage - {v})
  }

  lemma LeftReturns(c: Config, e: State, v: Node, ok: bool, ses: S.State)
    requires v in e.walk.workers && e.walk.workers[v].InRun? && v in e.stage
    ensures Returns(c, e, v, ok, ses, Left(e, v, ok, ses)) && Left(e, v, ok, ses) != e
  {
    assert v !in Left(e, v, ok, ses).stage;
  }

  lemma ReturnGoesOn(c: Config, e: State, step: Step, v: Node, ok: bool, ses: S.State)
    requires Inv(c, e) && v in e.stage
    requires Next(c, e, step, Left(e, v, ok, ses)) && step != WalkStep(Walk.Cancel)
    ensures CanGoOn(c, e)
  {
    LeftReturns(c, e, v, ok, ses);
    assert Goes(c, e, step, Left(e, v, ok, ses));
  }

  lemma OpenedGoesOn(c: Config, e: State, v: Node)
    requires Inv(c, e) && v in e.stage && e.stage[v].Opened?
    ensures CanGoOn(c, e)
  {
    LeftReturns(c, e, v, true, S.Forget(e.ses, v));
    ReturnGoesOn(c, e, ForgetStart(v.name), v, true, S.Forget(e.ses, v));
  }

  lemma DroppingGoesOn(c: Config, e: State, v: Node)
    requires Inv(c, e) && v in e.stage && e.stage[v].Dropping?
    ensures CanGoOn(c, e)
  {
    var ses := S.Release(e.ses, e.stage[v].lock);
    LeftReturns(c, e, v, e.stage[v].ok, ses);
    ReturnGoesOn(c, e, DropLock(v), v, e.stage[v].ok, ses);
  }

  lemma ClosingGoesOn(c: Config, e: State, v: Node)
    requires Inv(c, e) && v in e.stage && e.stage[v].Closing?
    ensures CanGoOn(c, e)
  {
    var ses := S.Release(e.ses, S.LockOf(c.sys, v.name));
    LeftReturns(c, e, v, e.stage[v].ok, ses);
    ReturnGoesOn(c, e, CloseLock(v.name), v, e.stage[v].ok, ses);
  }

  /** A worker in its Run can do its next step. */
  lemma WorkerGoesOn(c: Config, e: State, v: Node)
    requires Inv(c, e) && v in e.stage
    ensures CanGoOn(c, e)
  {
    match e.stage[v]
    case Running => BodyGoesOn(c, e, v);
    case Opened => OpenedGoesOn(c, e, v);
    case Dropping(_, _) => DroppingGoesOn(c, e, v);
    case Closing(_) => ClosingGoesOn(c, e, v);
  }

  /** A step of a worker after which its vertex has another stage. */
  lemma StageGoesOn(c: Config, e: State, step: Step, v: Node, next: Stage, e': State)
    requires At(e, v, Running) && Next(c, e, step, e') && step != WalkStep(Walk.Cancel)
    requires e'.stage == e.stage[v := next] && next != Running
    ensures CanGoOn(c, e)
  {
    assert e'.stage[v] != e.stage[v];
    assert Goes(c, e, step, e');
  }

  lemma StartGoesOn(c: Config, e: State, p: Name)
    requires At(e, ScopeStart(p), Running)
    ensures CanGoOn(c, e)
  {
    var v := ScopeStart(p);
    StageGoesOn(c, e, OpenScope(p), v, Opened, e.(ses := S.Open(e.ses, p), stage := e.stage[v := Opened]));
  }

  lemma EndGoesOn(c: Config, e: State, n: Name)
    requires At(e, Target(n), Running) && n in c.sys.scopes
    ensures CanGoOn(c, e)
  {
    var v, next := Target(n), Closing(true);
    StageGoesOn(c, e, ScopeBodyDone(n, true), v, next, e.(ses := S.Close(e.ses, n), stage := e.stage[v := next]));
  }

  lemma LeafGoesOn(c: Config, e: State, n: Name)
    requires At(e, Target(n), Running) && n !in c.sys.scopes
    ensures CanGoOn(c, e)
  {
    var v := Target(n);
    var next := Dropping(true, S.Reserved(e.ses, v));
    StageGoesOn(c, e, BodyDone(v, true), v, next, e.(ses := S.Forget(e.ses, v), stage := e.stage[v := next]));
  }

  lemma BodyGoesOn(c: Config, e: State, v: Node)
    requires Inv(c, e) && At(e, v, Running)
    ensures CanGoOn(c, e)
  {
    match v
    case ScopeStart(p) => StartGoesOn(c, e, p);
    case Target(n) =>
      if n in c.sys.scopes {
        EndGoesOn(c, e, n);
      } else {
        LeafGoesOn(c, e, n);
      }
    case _ =>
      LeftReturns(c, e, v, true, e.ses);
      ReturnGoesOn(c, e, BarrierDone(v), v, true, e.ses);
  }

  function Taken(w: Walk.State<Node>, v: Node): Walk.State<Node>
    requires v in w.workers && w.workers[v].Exited?
  {
    w.(workers := w.workers - {v}, received := w.received + {v},
       firstErr := Walk.NoteErr(w.firstErr, v, w.workers[v].ok))
  }

  lemma TakenChanges(w: Walk.State<Node>, v: Node)
    requires v in w.workers && w.workers[v].Exited?
    ensures v !in Taken(w, v).workers
  {
  }

  lemma CollectGoesOn(c: Config, e: State, v: Node)
    requires v in e.walk.workers && e.walk.workers[v].Exited? && e.walk.pc.Drain?
    ensures CanGoOn(c, e)
  {
    TakenChanges(e.walk, v);
    assert Goes(c, e, WalkStep(Walk.Collect(v)), e.(walk := Taken(e.walk, v)));
  }

  lemma FailureGoesOn(c: Config, e: State, v: Node)
    requires v in e.walk.workers && e.walk.workers[v].Exited? && e.walk.pc.Wait?
    requires !e.walk.workers[v].ok || e.walk.firstErr.Some?
    ensures CanGoOn(c, e)
  {
    var w' := Taken(e.walk, v).(pc := Walk.Loop, completed := e.walk.completed + 1);
    TakenChanges(e.walk, v);
    assert Goes(c, e, WalkStep(Walk.Receive(v, [])), e.(walk := w'));
  }

  lemma SuccessGoesOn(c: Config, e: State, v: Node)
    requires v in e.walk.workers && e.walk.workers[v] == Walk.Exited(true) && e.walk.pc.Wait? && e.walk.firstErr.None?
    ensures CanGoOn(c, e)
  {
    var w := e.walk;
    var zeroed := Schedule.ListOf(Dag.NewlyReady(w.remaining, Succs(c.walk.edges, v)));
    var next := w.ready + zeroed;
    assert Walk.Readied(c.walk, w, v, next);
    var w' := Schedule.ReceivedBy(c, w, v, next);
    Schedule.ReceiveStep(c, w, v, next);
    assert v !in w'.workers;
    assert Goes(c, e, WalkStep(Walk.Receive(v, next)), e.(walk := w'));
  }

  /** A result that is there can be received. */
  lemma ResultGoesOn(c: Config, e: State, v: Node)
    requires v in e.walk.workers && e.walk.workers[v].Exited? && (e.walk.pc.Wait? || e.walk.pc.Drain?)
    ensures CanGoOn(c, e)
  {
    if e.walk.pc.Drain? {
      CollectGoesOn(c, e, v);
    } else if !e.walk.workers[v].ok || e.walk.firstErr.Some? {
      FailureGoesOn(c, e, v);
    } else {
      SuccessGoesOn(c, e, v);
    }
  }

  /** Walk at the head of its loop. */
  lemma LoopGoesOn(c: Config, e: State)
    requires e.walk.pc.Loop?
    ensures CanGoOn(c, e)
  {
    var w := e.walk;
    if w.completed >= |w.remaining| {
      var outcome := if w.firstErr.Some? then Walk.Failed(w.firstErr.value) else Walk.Success;
      assert Goes(c, e, WalkStep(Walk.Exit), e.(walk := w.(pc := Walk.Returned(outcome))));
    } else if Walk.MayStart(c.walk, w) {
      assert Goes(c, e, WalkStep(Walk.BeginScan), e.(walk := w.(pc := Walk.Scan(0))));
    } else {
      assert Goes(c, e, WalkStep(Walk.SkipScan), e.(walk := w.(pc := Walk.Settled(c.walk, w))));
    }
  }

  function Started(e: State, ses: S.State): State
    requires Scanning(e)
  {
    var v, w := Tried(e), e.walk;
    e.(walk := w.(pc := Walk.Loop, ready := Dag.Without(w.ready, w.pc.i), workers := w.workers[v := Walk.InRun],
                  started := w.started + {v}),
       ses := ses, probed := false, stage := e.stage[v := Running])
  }

  lemma AdmitGoesOn(c: Config, e: State, step: Step, ses: S.State)
    requires Scanning(e) && Next(c, e, step, Started(e, ses)) && step != WalkStep(Walk.Cancel)
    ensures CanGoOn(c, e)
  {
    assert Started(e, ses).walk.pc.Loop?;
    assert Goes(c, e, step, Started(e, ses));
  }

  lemma ProbedGoesOn(c: Config, e: State)
    requires Scanning(e) && e.probed
    ensures CanGoOn(c, e)
  {
    var lock, w := S.Needed(c.sys, Tried(e)), e.walk;
    if lock in e.ses.held {
      assert Goes(c, e, RefuseHeld, e.(walk := w.(pc := Walk.Scan(w.pc.i + 1)), probed := false));
    } else {
      AdmitGoesOn(c, e, AdmitAcquire, S.Acquire(e.ses, Tried(e), lock));
    }
  }

  lemma TriedGoesOn(c: Config, e: State)
    requires Scanning(e) && !e.probed
    ensures CanGoOn(c, e)
  {
    var lock := S.Needed(c.sys, Tried(e));
    if lock == NoLock {
      AdmitGoesOn(c, e, AdmitFree, e.ses);
    } else if S.Covered(c.sys, e.ses, Tried(e), lock) {
      AdmitGoesOn(c, e, AdmitCovered, e.ses);
    } else {
      assert Goes(c, e, ProbeFails, e.(probed := true));
    }
  }

  /** Walk about to try a vertex, or at the end of the list. */
  lemma ScanGoesOn(c: Config, e: State)
    requires Inv(c, e) && e.walk.pc.Scan?
    ensures CanGoOn(c, e)
  {
    var w := e.walk;
    if Scanning(e) && e.probed {
      ProbedGoesOn(c, e);
    } else if Scanning(e) {
      TriedGoesOn(c, e);
    } else {
      assert Goes(c, e, WalkStep(Walk.EndScan), e.(walk := w.(pc := Walk.Settled(c.walk, w))));
    }
  }

  /** Walk at one of its selects. */
  lemma SelectGoesOn(c: Config, e: State)
    requires Inv(c, e) && c.walk.notified && (e.walk.pc.Wait? || e.walk.pc.Drain?) && !Halted(e)
    ensures CanGoOn(c, e)
  {
    var w := e.walk;
    if v :| v in w.workers {
      if w.workers[v].InRun? {
        WorkerGoesOn(c, e, v);
      } else {
        ResultGoesOn(c, e, v);
      }
    } else if w.pc.Drain? {
      var outcome := if w.firstErr.Some? then Walk.Failed(w.firstErr.value) else Walk.Cancelled;
      assert Goes(c, e, WalkStep(Walk.Collected), e.(walk := w.(pc := Walk.Returned(outcome))));
    } else if w.ctxDone {
      assert w.workers == map[];
      assert Goes(c, e, WalkStep(Walk.NoticeCancel), e.(walk := w.(pc := Walk.Returned(Walk.Cancelled))));
    } else {
      assert w.workers == map[];
      assert Goes(c, e, WakeUp, e.(walk := w.(pc := Walk.Loop), fetched := e.ses.gen));
    }
  }

  lemma NothingMoves(c: Config, e: State, step: Step, e': State)
    requires Inv(c, e) && Halted(e)
    ensures !Goes(c, e, step, e')
  {
    assert e.walk.workers == map[];
    assert forall v :: v !in e.stage;
  }

  /** A run can go on of itself exactly until it has halted. */
  lemma GoesOnIff(c: Config, e: State)
    requires Inv(c, e) && c.walk.notified
    ensures CanGoOn(c, e) <==> !Halted(e)
  {
    if Halted(e) {
      forall step, e'
        ensures !Goes(c, e, step, e')
      {
        NothingMoves(c, e, step, e');
      }
    } else {
      match e.walk.pc
      case Loop => LoopGoesOn(c, e);
      case Scan(_) => ScanGoesOn(c, e);
      case _ => SelectGoesOn(c, e);
    }
  }

  /** If only leaf targets declare locks, a run that cannot go on has returned. */
  lemma LeafLockedRunsReturn(c: Config, run: seq<State>, i: nat)
    requires WellFormed(c) && c.walk.notified && EngineSafety.OnlyLeavesLock(c) && IsRun(c, run) && i < |run|
    ensures run[i].walk.pc.Returned? <==> !CanGoOn(c, run[i])
  {
    RunInv(c, run, i);
    GoesOnIff(c, run[i]);
    EngineSafety.LeafLocksNeverBlockIdleWalk(c, run, i, Nil);
  }

  /** A plan in which only leaf targets declare locks: every run comes to its end within a bounded number of
      steps, and only by returning. */
  lemma LeafLockedPlansReturn(
    project: Project, requested: seq<Name>, plan: Plan, b: BuildSpec.B, parallelism: int, run: seq<State>, i: nat)
    requires EndToEnd.Runs(project, requested, plan, b, parallelism, run) && i < |run|
    requires forall n :: n in plan.targets && BuildSpec.HasScope(ExecutionGraph.ShapeOf(plan)[n]) ==>
      plan.targets[n].lock == NoLock
    ensures run[i].walk.pc.Returned? <==> !CanGoOn(EndToEnd.ConfigOf(plan, b, parallelism), run[i])
    ensures Moving(run) ==> |run| <= Bound(|b.vertices|) + 1
  {
    var c := EndToEnd.ConfigOf(plan, b, parallelism);
    EndToEnd.BuiltSuitsEngine(project, requested, plan, b, parallelism);
    LeafLockedRunsReturn(c, run, i);
    if Moving(run) {
      RunsAreBounded(c, run);
    }
  }
}
