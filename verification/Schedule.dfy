/** Runs that exist: the engine can be driven through a graph one vertex at a time, with some targets left
    running. This is what shows that a bad order or a lost lock really occurs. */
module Schedule {
  import opened Nodes
  import opened Digraph
  import opened Wrappers
  import opened Engine
  import opened EngineLocks
  import Dag
  import Walk
  import S = Session

  /** Some run ends in e. */
  ghost predicate Reachable(c: Config, e: State) {
    exists run :: IsRun(c, run) && run[|run| - 1] == e
  }

  lemma RunTo(c: Config, e: State) returns (run: seq<State>, i: nat)
    requires Reachable(c, e)
    ensures IsRun(c, run) && |run| == i + 1 && run[i] == e
  {
    run :| IsRun(c, run) && run[|run| - 1] == e;
    i := |run| - 1;
  }

  lemma RunSnoc(c: Config, run: seq<State>, step: Step, e': State)
    requires IsRun(c, run) && Next(c, run[|run| - 1], step, e')
    ensures IsRun(c, run + [e'])
  {
    var more := run + [e'];
    assert Stepped(c, run[|run| - 1], e');
    forall i
      ensures SteppedTo(c, more, i)
    {
      assert SteppedTo(c, run, i);
      if 0 < i < |run| {
        assert more[i - 1] == run[i - 1] && more[i] == run[i];
      }
    }
  }

  lemma ReachableStep(c: Config, e: State, step: Step, e': State)
    requires Reachable(c, e) && Next(c, e, step, e')
    ensures Reachable(c, e')
  {
    var run :| IsRun(c, run) && run[|run| - 1] == e;
    RunSnoc(c, run, step, e');
    assert (run + [e'])[|run|] == e';
  }

  lemma ReachableInv(c: Config, e: State)
    requires WellFormed(c) && Reachable(c, e)
    ensures Inv(c, e)
  {
    var run :| IsRun(c, run) && run[|run| - 1] == e;
    RunInv(c, run, |run| - 1);
  }

  /** What is at work has started at some point of the run. */
  lemma {:induction false} WhenStarted(c: Config, run: seq<State>, i: nat, v: Node) returns (k: nat)
    requires IsRun(c, run) && i < |run| && v in run[i].walk.workers
    ensures k <= i && Walk.StartsAt(WalkRun(run), k, v)
    decreases i
  {
    var j := i - 1;
    if v in run[j].walk.workers {
      k := WhenStarted(c, run, j, v);
    } else {
      k := i;
    }
  }

  /** What has not succeeded by the end of a run has returned nil at no point of it. */
  lemma NotReturnedYet(c: Config, run: seq<State>, i: nat, k: nat, v: Node)
    requires WellFormed(c) && IsRun(c, run) && k <= i < |run| && v !in run[i].walk.succeeded
    ensures !Walk.ReturnsAt(WalkRun(run), k, v, true)
  {
    if Walk.ReturnsAt(WalkRun(run), k, v, true) {
      RunInv(c, run, k);
      SucceededStays(c, run, k, i);
      assert false;
    }
  }

  lemma {:induction false} SucceededStays(c: Config, run: seq<State>, k: nat, i: nat)
    requires IsRun(c, run) && k <= i < |run|
    ensures run[k].walk.succeeded <= run[i].walk.succeeded
    decreases i
  {
    if k < i {
      var j := i - 1;
      SucceededStays(c, run, k, j);
      var step := StepFrom(c, run, j, i);
      var ws := StepRefinesWalk(c, run[j], step, run[i]);
      Walk.HistoryStep(c.walk, run[j].walk, ws, run[i].walk);
    }
  }

  ghost predicate Crew(workers: map<Node, Walk.Phase>, parked: set<Node>, exited: set<Node>) {
    && (forall v :: v in workers <==> v in parked || v in exited)
    && (forall v :: v in parked ==> workers[v] == Walk.InRun)
    && (forall v :: v in exited ==> workers[v] == Walk.Exited(true))
  }

  ghost predicate AllRunning(stage: map<Node, Stage>, parked: set<Node>) {
    && (forall v :: v in stage <==> v in parked)
    && (forall v :: v in stage ==> stage[v] == Running)
  }

  ghost predicate History(walk: Walk.State<Node>, parked: set<Node>, exited: set<Node>, done: set<Node>) {
    && walk.firstErr.None? && !walk.ctxDone
    && walk.started == parked + exited + done && walk.succeeded == exited + done
    && walk.received == done && walk.released == done && walk.completed == |done|
    && parked !! exited && parked !! done && exited !! done
  }

  /** Walk is at pc; the parked vertices run, the exited ones have returned nil and are not yet received, and
      those done have been received. Nothing has failed. */
  ghost predicate Shape(e: State, pc: Walk.Pc<Node>, parked: set<Node>, exited: set<Node>, done: set<Node>) {
    && e.walk.pc == pc && !e.probed && Crew(e.walk.workers, parked, exited)
    && AllRunning(e.stage, parked) && History(e.walk, parked, exited, done)
  }

  /** Walk is at the head of its loop. */
  ghost predicate Resting(e: State, parked: set<Node>, done: set<Node>) {
    Shape(e, Walk.Loop, parked, {}, done)
  }

  // ---- What the session does with one vertex -------------------------------------------

  predicate CanAdmit(sys: S.System, s: S.State, v: Node) {
    var lock := S.Needed(sys, v);
    lock == NoLock || S.Covered(sys, s, v, lock) || lock !in s.held
  }

  function Admitted(sys: S.System, s: S.State, v: Node): S.State {
    var lock := S.Needed(sys, v);
    if lock == NoLock || S.Covered(sys, s, v, lock) then s else S.Acquire(s, v, lock)
  }

  /** A vertex runs to its end without an error. */
  function Completed(sys: S.System, s: S.State, u: Node): S.State {
    match u
    case ScopeStart(p) => S.Forget(S.Open(s, p), u)
    case Target(n) =>
      if n in sys.scopes then S.Release(S.Close(s, n), S.LockOf(sys, n))
      else S.Release(S.Forget(s, u), S.Reserved(s, u))
    case _ => s
  }

  /** The session before anything runs, and while the scope of p is open. */
  const NOTHING := S.State({}, 0, {}, map[])

  function ScopeOpen(p: Name, lock: Lock): S.State {
    S.State(if lock == NoLock then {} else {lock}, 0, {p}, map[])
  }

  lemma StartOpens(sys: S.System, p: Name)
    ensures CanAdmit(sys, NOTHING, ScopeStart(p))
    ensures Completed(sys, Admitted(sys, NOTHING, ScopeStart(p)), ScopeStart(p)) == ScopeOpen(p, S.LockOf(sys, p))
  {
    var v, lock := ScopeStart(p), S.LockOf(sys, p);
    assert !S.Covered(sys, NOTHING, v, lock);
    assert map[v := lock] - {v} == map[];
  }

  // ---- Single moves --------------------------------------------------------------------

  lemma WorkerCount(workers: map<Node, Walk.Phase>, parked: set<Node>)
    requires Crew(workers, parked, {})
    ensures |workers| == |parked|
  {
    assert workers.Keys == parked;
    assert |workers| == |workers.Keys|;
  }

  lemma SomethingLeft(vertices: set<Node>, remaining: map<Node, int>, done: set<Node>, v: Node)
    requires remaining.Keys == vertices && done <= vertices && v in vertices && v !in done
    ensures |done| < |remaining|
  {
    SubsetSize(done, vertices - {v});
    assert |remaining| == |remaining.Keys|;
  }

  /** Something runs or is ready: Walk goes on. */
  lemma WorkLeft(c: Config, e: State, parked: set<Node>, done: set<Node>)
    requires WellFormed(c) && Reachable(c, e) && Resting(e, parked, done)
    ensures |e.walk.workers| == |parked|
    ensures parked != {} || e.walk.ready != [] ==> e.walk.completed < |e.walk.remaining|
    ensures e.walk.ready != [] ==> e.walk.ready[0] !in parked && e.walk.ready[0] !in done
  {
    ReachableInv(c, e);
    WorkerCount(e.walk.workers, parked);
    if e.walk.ready != [] {
      assert e.walk.ready[0] in e.walk.ready;
      SomethingLeft(c.walk.vertices, e.walk.remaining, done, e.walk.ready[0]);
    } else if parked != {} {
      var v :| v in parked;
      SomethingLeft(c.walk.vertices, e.walk.remaining, done, v);
    }
  }

  /** Walk begins to try the ready vertices. */
  function Scanned(e: State): State {
    e.(walk := e.walk.(pc := Walk.Scan(0)))
  }

  function AdmittedTo(e: State, ses: S.State): State
    requires e.walk.ready != []
  {
    var v := e.walk.ready[0];
    e.(walk := e.walk.(ready := e.walk.ready[1..], workers := e.walk.workers[v := Walk.InRun],
                       started := e.walk.started + {v}),
       ses := ses, stage := e.stage[v := Running])
  }

  lemma AdmittedShape(e: State, parked: set<Node>, done: set<Node>, ses: S.State)
    requires Resting(e, parked, done) && e.walk.ready != []
    requires e.walk.ready[0] !in parked && e.walk.ready[0] !in done
    ensures Resting(AdmittedTo(e, ses), parked + {e.walk.ready[0]}, done)
  {
    var v, e' := e.walk.ready[0], AdmittedTo(e, ses);
    CrewGrows(e.walk.workers, parked, v);
    StageGrows(e.stage, parked, v);
    HistoryGrows(e.walk, parked, done, v, e'.walk);
  }

  lemma CrewGrows(workers: map<Node, Walk.Phase>, parked: set<Node>, v: Node)
    requires Crew(workers, parked, {}) && v !in parked
    ensures Crew(workers[v := Walk.InRun], parked + {v}, {})
  {
  }

  lemma StageGrows(stage: map<Node, Stage>, parked: set<Node>, v: Node)
    requires AllRunning(stage, parked)
    ensures AllRunning(stage[v := Running], parked + {v})
  {
  }

  lemma HistoryGrows(w: Walk.State<Node>, parked: set<Node>, done: set<Node>, v: Node, w': Walk.State<Node>)
    requires History(w, parked, {}, done) && v !in parked && v !in done
    requires w'.firstErr == w.firstErr && w'.ctxDone == w.ctxDone && w'.started == w.started + {v}
    requires w'.succeeded == w.succeeded && w'.received == w.received && w'.released == w.released
    requires w'.completed == w.completed
    ensures History(w', parked + {v}, {}, done)
  {
    assert parked + {} + done + {v} == parked + {v} + {} + done;
  }

  lemma CrewReturns(workers: map<Node, Walk.Phase>, parked: set<Node>, u: Node)
    requires Crew(workers, parked, {}) && u in parked
    ensures Crew(workers[u := Walk.Exited(true)], parked - {u}, {u})
  {
  }

  lemma StageShrinks(stage: map<Node, Stage>, parked: set<Node>, u: Node)
    requires AllRunning(stage, parked)
    ensures AllRunning(stage - {u}, parked - {u})
  {
  }

  lemma HistoryReturns(w: Walk.State<Node>, parked: set<Node>, done: set<Node>, u: Node, w': Walk.State<Node>)
    requires History(w, parked, {}, done) && u in parked
    requires w' == w.(workers := w'.workers, succeeded := w.succeeded + {u})
    ensures History(w', parked - {u}, {u}, done)
  {
    assert parked - {u} + {u} + done == parked + {} + done;
  }

  lemma CrewReceived(workers: map<Node, Walk.Phase>, parked: set<Node>, u: Node)
    requires Crew(workers, parked, {u}) && u !in parked
    ensures Crew(workers - {u}, parked, {})
  {
  }

  lemma HistoryReceived(c: Config, w: Walk.State<Node>, parked: set<Node>, done: set<Node>, u: Node, next: seq<Node>)
    requires History(w, parked, {u}, done)
    ensures History(ReceivedBy(c, w, u, next), parked, {}, done + {u})
  {
    assert parked + {u} + done == parked + {} + (done + {u});
    assert |done + {u}| == |done| + 1;
  }

  lemma WalkAdmits(c: Config, e: State, ses: S.State)
    requires e.walk.ready != [] && e.walk.pc.Loop?
    ensures Walk.Next(c.walk, Scanned(e).walk, Walk.Admit, AdmittedTo(e, ses).walk)
  {
    assert Dag.Without(e.walk.ready, 0) == e.walk.ready[1..];
  }

  /** The session lets the first ready vertex in. */
  lemma SessionAdmits(c: Config, e: State, e': State)
    requires Reachable(c, Scanned(e)) && e.walk.pc.Loop? && !e.probed && e.walk.ready != []
    requires CanAdmit(c.sys, e.ses, e.walk.ready[0])
    requires e' == AdmittedTo(e, Admitted(c.sys, e.ses, e.walk.ready[0]))
    ensures Reachable(c, e')
  {
    var e1, v := Scanned(e), e.walk.ready[0];
    var lock := S.Needed(c.sys, v);
    WalkAdmits(c, e, e'.ses);
    assert Tried(e1) == v;
    if lock == NoLock {
      ReachableStep(c, e1, AdmitFree, e');
    } else if S.Covered(c.sys, e.ses, v, lock) {
      ReachableStep(c, e1, AdmitCovered, e');
    } else {
      var e2 := e1.(probed := true);
      ReachableStep(c, e1, ProbeFails, e2);
      ReachableStep(c, e2, AdmitAcquire, e');
    }
  }

  /** The first ready vertex is admitted. */
  lemma AdmitFirst(c: Config, e: State, parked: set<Node>, done: set<Node>) returns (e': State)
    requires WellFormed(c) && Reachable(c, e) && Resting(e, parked, done)
    requires |parked| < Walk.Limit(c.walk) && e.walk.ready != [] && CanAdmit(c.sys, e.ses, e.walk.ready[0])
    ensures Reachable(c, e') && Resting(e', parked + {e.walk.ready[0]}, done)
    ensures e'.walk.ready == e.walk.ready[1..] && e'.ses == Admitted(c.sys, e.ses, e.walk.ready[0])
  {
    WorkLeft(c, e, parked, done);
    ReachableStep(c, e, WalkStep(Walk.BeginScan), Scanned(e));
    e' := AdmittedTo(e, Admitted(c.sys, e.ses, e.walk.ready[0]));
    SessionAdmits(c, e, e');
    AdmittedShape(e, parked, done, e'.ses);
  }

  /** With no room, or nothing ready, Walk waits for a result. */
  lemma Wait(c: Config, e: State, parked: set<Node>, done: set<Node>) returns (e': State)
    requires WellFormed(c) && Reachable(c, e) && Resting(e, parked, done) && parked != {}
    requires |parked| >= Walk.Limit(c.walk) || e.walk.ready == []
    ensures Reachable(c, e') && Shape(e', Walk.Wait, parked, {}, done)
    ensures e'.walk.ready == e.walk.ready && e'.walk.remaining == e.walk.remaining && e'.ses == e.ses
  {
    WorkLeft(c, e, parked, done);
    assert |parked| > 0;
    e' := e.(walk := e.walk.(pc := Walk.Wait));
    ReachableStep(c, e, WalkStep(Walk.SkipScan), e');
  }

  function ReturnedFrom(e: State, u: Node, ses: S.State): State {
    e.(walk := e.walk.(workers := e.walk.workers[u := Walk.Exited(true)], succeeded := e.walk.succeeded + {u}),
       ses := ses, stage := e.stage - {u})
  }

  lemma ReturnedShape(e: State, parked: set<Node>, done: set<Node>, u: Node, ses: S.State)
    requires Shape(e, Walk.Wait, parked, {}, done) && u in parked
    ensures Shape(ReturnedFrom(e, u, ses), Walk.Wait, parked - {u}, {u}, done)
  {
    CrewReturns(e.walk.workers, parked, u);
    StageShrinks(e.stage, parked, u);
    HistoryReturns(e.walk, parked, done, u, ReturnedFrom(e, u, ses).walk);
  }

  lemma ReturnStep(c: Config, e: State, u: Node, ses: S.State)
    requires u in e.walk.workers && e.walk.workers[u].InRun?
    ensures Returns(c, e, u, true, ses, ReturnedFrom(e, u, ses))
  {
  }

  /** A target without a scope does all its work and returns nil. */
  lemma WorkTarget(c: Config, e: State, u: Node, e': State)
    requires Reachable(c, e) && At(e, u, Running) && u in e.walk.workers && e.walk.workers[u].InRun?
    requires u.Target? && u.name !in c.sys.scopes && e' == ReturnedFrom(e, u, Completed(c.sys, e.ses, u))
    ensures Reachable(c, e')
  {
    var lock := S.Reserved(e.ses, u);
    var e1 := e.(ses := S.Forget(e.ses, u), stage := e.stage[u := Dropping(true, lock)]);
    ReachableStep(c, e, BodyDone(u, true), e1);
    ReturnStep(c, e1, u, S.Release(e1.ses, lock));
    assert e1.stage - {u} == e.stage - {u};
    ReachableStep(c, e1, DropLock(u), e');
  }

  lemma WorkScope(c: Config, e: State, p: Name, e': State)
    requires Reachable(c, e) && At(e, Target(p), Running)
    requires Target(p) in e.walk.workers && e.walk.workers[Target(p)].InRun?
    requires p in c.sys.scopes && e' == ReturnedFrom(e, Target(p), Completed(c.sys, e.ses, Target(p)))
    ensures Reachable(c, e')
  {
    var u := Target(p);
    var e1 := e.(ses := S.Close(e.ses, p), stage := e.stage[u := Closing(true)]);
    ReachableStep(c, e, ScopeBodyDone(p, true), e1);
    ReturnStep(c, e1, u, S.Release(e1.ses, S.LockOf(c.sys, p)));
    assert e1.stage - {u} == e.stage - {u};
    ReachableStep(c, e1, CloseLock(p), e');
  }

  lemma WorkStart(c: Config, e: State, p: Name, e': State)
    requires Reachable(c, e) && At(e, ScopeStart(p), Running)
    requires ScopeStart(p) in e.walk.workers && e.walk.workers[ScopeStart(p)].InRun?
    requires e' == ReturnedFrom(e, ScopeStart(p), Completed(c.sys, e.ses, ScopeStart(p)))
    ensures Reachable(c, e')
  {
    var u := ScopeStart(p);
    var e1 := e.(ses := S.Open(e.ses, p), stage := e.stage[u := Opened]);
    ReachableStep(c, e, OpenScope(p), e1);
    ReturnStep(c, e1, u, S.Forget(e1.ses, u));
    assert e1.stage - {u} == e.stage - {u};
    ReachableStep(c, e1, ForgetStart(p), e');
  }

  /** A running vertex does all its work and returns nil. */
  lemma Work(c: Config, e: State, parked: set<Node>, done: set<Node>, u: Node) returns (e': State)
    requires Reachable(c, e) && Shape(e, Walk.Wait, parked, {}, done) && u in parked
    ensures Reachable(c, e') && Shape(e', Walk.Wait, parked - {u}, {u}, done)
    ensures e'.walk.ready == e.walk.ready && e'.walk.remaining == e.walk.remaining
    ensures e'.ses == Completed(c.sys, e.ses, u)
  {
    e' := ReturnedFrom(e, u, Completed(c.sys, e.ses, u));
    ReturnedShape(e, parked, done, u, e'.ses);
    match u
    case ScopeStart(p) => WorkStart(c, e, p, e');
    case Target(n) =>
      if n in c.sys.scopes {
        WorkScope(c, e, n, e');
      } else {
        WorkTarget(c, e, u, e');
      }
    case _ =>
      ReturnStep(c, e, u, e.ses);
      ReachableStep(c, e, BarrierDone(u), e');
  }

  // ---- The ready list may be in any order -------------------------------------------------

  lemma {:induction false} MoveToFront(s: seq<Node>, front: seq<Node>) returns (r: seq<Node>)
    requires Distinct(front) && (forall v :: v in front ==> v in s)
    ensures multiset(r) == multiset(s) && front <= r
    decreases |front|
  {
    if front == [] {
      r := s;
    } else {
      assert front[0] in front;
      var i :| 0 <= i < |s| && s[i] == front[0];
      var rest := s[..i] + s[i + 1..];
      assert s == s[..i] + [s[i]] + s[i + 1..];
      forall v | v in front[1..]
        ensures v in rest
      {
        var k :| 0 <= k < |front[1..]| && front[1..][k] == v;
        assert front[k + 1] == v && front[k + 1] in front && v != front[0];
        assert v in s;
      }
      var r1 := MoveToFront(rest, front[1..]);
      r := [front[0]] + r1;
      assert front == [front[0]] + front[1..];
    }
  }

  lemma {:induction false} ListOf(s: set<Node>) returns (r: seq<Node>)
    ensures Distinct(r) && Elems(r) == s
    decreases |s|
  {
    if s == {} {
      r := [];
    } else {
      var v :| v in s;
      var r1 := ListOf(s - {v});
      r := r1 + [v];
      ElemsSnoc(r1, v);
      assert v !in Elems(r1);
    }
  }

  /** Vertices that may come next: not started, all predecessors done. */
  ghost predicate Startable(c: Config, front: seq<Node>, started: set<Node>, done: set<Node>) {
    && Distinct(front)
    && forall v :: v in front ==> v in c.walk.vertices && v !in started && PredsIn(c.walk.edges, v, done)
  }

  /** A result is received; the vertices in front are tried first. */
  lemma Receive(c: Config, e: State, parked: set<Node>, done: set<Node>, u: Node, front: seq<Node>) returns (e': State)
    requires WellFormed(c) && Reachable(c, e) && Shape(e, Walk.Wait, parked, {u}, done)
    requires Startable(c, front, parked + {u} + done, done + {u})
    ensures Reachable(c, e') && Resting(e', parked, done + {u}) && e'.ses == e.ses && front <= e'.walk.ready
  {
    var next := Reorder(c, e, parked, done, u, front);
    e' := e.(walk := ReceivedBy(c, e.walk, u, next));
    CrewReceived(e.walk.workers, parked, u);
    HistoryReceived(c, e.walk, parked, done, u, next);
    ReceiveStep(c, e.walk, u, next);
    ReachableStep(c, e, WalkStep(Walk.Receive(u, next)), e');
  }

  ghost function ReceivedBy(c: Config, w: Walk.State<Node>, u: Node, next: seq<Node>): Walk.State<Node> {
    w.(pc := Walk.Loop, workers := w.workers - {u}, received := w.received + {u}, completed := w.completed + 1,
       remaining := Dag.Decrement(w.remaining, Succs(c.walk.edges, u)), ready := next, released := w.released + {u})
  }

  lemma ReceiveStep(c: Config, w: Walk.State<Node>, u: Node, next: seq<Node>)
    requires w.pc.Wait? && u in w.workers && w.workers[u] == Walk.Exited(true) && w.firstErr.None?
    requires Walk.Readied(c.walk, w, u, next)
    ensures Walk.Next(c.walk, w, Walk.Receive(u, next), ReceivedBy(c, w, u, next))
  {
  }

  lemma Reorder(c: Config, e: State, parked: set<Node>, done: set<Node>, u: Node, front: seq<Node>) returns (next: seq<Node>)
    requires WellFormed(c) && Reachable(c, e) && Shape(e, Walk.Wait, parked, {u}, done)
    requires Startable(c, front, parked + {u} + done, done + {u})
    ensures Walk.Readied(c.walk, e.walk, u, next) && front <= next
  {
    ReachableInv(c, e);
    var w := e.walk;
    var zeroed := ListOf(Dag.NewlyReady(w.remaining, Succs(c.walk.edges, u)));
    Dag.CountsAfterFinish(c.walk.edges, c.walk.vertices, w.remaining, w.released, w.ready, w.started, u, zeroed, w.ready + zeroed);
    forall v | v in front
      ensures v in w.ready + zeroed
    {
      assert PredsIn(c.walk.edges, v, w.released + {u});
    }
    next := MoveToFront(w.ready + zeroed, front);
  }

  // ---- One round ----------------------------------------------------------------------------------

  /** There is room for exactly one more, or nothing else is ready. */
  ghost predicate OneSlot(c: Config, e: State, parked: set<Node>) {
    |parked| < Walk.Limit(c.walk) && (|parked| + 1 == Walk.Limit(c.walk) || |e.walk.ready| == 1)
  }

  /** The first ready vertex is admitted, and u, one of those now running, finishes. */
  lemma Round(
    c: Config, e: State, parked: set<Node>, done: set<Node>, v: Node, running: set<Node>, u: Node, front: seq<Node>)
    returns (e': State)
    requires WellFormed(c) && Reachable(c, e) && Resting(e, parked, done)
    requires e.walk.ready != [] && e.walk.ready[0] == v && running == parked + {v} && u in running
    requires OneSlot(c, e, parked) && CanAdmit(c.sys, e.ses, v)
    requires Startable(c, front, running + done, done + {u})
    ensures Reachable(c, e') && Resting(e', running - {u}, done + {u}) && front <= e'.walk.ready
    ensures e'.ses == Completed(c.sys, Admitted(c.sys, e.ses, v), u)
  {
    var e1 := Fill(c, e, parked, done, v, running);
    e' := Finish(c, e1, running, done, u, front);
  }

  lemma Fill(c: Config, e: State, parked: set<Node>, done: set<Node>, v: Node, running: set<Node>) returns (e': State)
    requires WellFormed(c) && Reachable(c, e) && Resting(e, parked, done)
    requires e.walk.ready != [] && e.walk.ready[0] == v && running == parked + {v}
    requires OneSlot(c, e, parked) && CanAdmit(c.sys, e.ses, v)
    ensures Reachable(c, e') && Shape(e', Walk.Wait, running, {}, done) && e'.ses == Admitted(c.sys, e.ses, v)
  {
    WorkLeft(c, e, parked, done);
    assert |running| == |parked| + 1;
    var e1 := AdmitFirst(c, e, parked, done);
    e' := Wait(c, e1, running, done);
  }

  lemma TakeOut(running: set<Node>, u: Node) returns (rest: set<Node>)
    requires u in running
    ensures rest == running - {u} && rest + {u} == running
  {
    rest := running - {u};
  }

  lemma Finish(c: Config, e: State, running: set<Node>, done: set<Node>, u: Node, front: seq<Node>) returns (e': State)
    requires WellFormed(c) && Reachable(c, e) && Shape(e, Walk.Wait, running, {}, done)
    requires u in running && Startable(c, front, running + done, done + {u})
    ensures Reachable(c, e') && Resting(e', running - {u}, done + {u}) && front <= e'.walk.ready
    ensures e'.ses == Completed(c.sys, e.ses, u)
  {
    var rest := TakeOut(running, u);
    var e1 := Work(c, e, running, done, u);
    e' := Receive(c, e1, rest, done, u, front);
  }

  /** A walk of the graph begins with the vertices in front. */
  lemma Begin(c: Config, front: seq<Node>) returns (e: State)
    requires WellFormed(c) && Startable(c, front, {}, {})
    ensures Reachable(c, e) && Resting(e, {}, {}) && front <= e.walk.ready
    ensures e.ses == S.State({}, 0, {}, map[])
  {
    var edges, vertices := c.walk.edges, c.walk.vertices;
    var remaining := map v | v in vertices :: |Dag.Waiting(edges, v, {})|;
    var all := ListOf(set v | v in vertices && PredsIn(edges, v, {}));
    var ready := MoveToFront(all, front);
    Dag.DistinctPermutation(all, ready);
    forall v
      ensures v in ready <==> v in vertices && v !in {} && PredsIn(edges, v, {})
    {
      assert v in ready <==> v in multiset(ready);
      assert v in all <==> v in multiset(all);
      assert v in all <==> v in Elems(all);
    }
    var walk := Walk.State(Walk.Loop, remaining, ready, map[], 0, None, false, {}, {}, {}, {});
    e := State(walk, S.State({}, 0, {}, map[]), 0, false, map[]);
    assert Init(c, e);
    assert IsRun(c, [e]);
  }

  // ---- Rounds in sequence ---------------------------------------------------------------------------

  /** Walk is at the head of its loop and will try v first. */
  ghost predicate Poised(c: Config, e: State, parked: set<Node>, done: set<Node>, ses: S.State, v: Node) {
    Reachable(c, e) && Resting(e, parked, done) && e.ses == ses && e.walk.ready != [] && e.walk.ready[0] == v
  }

  /** w has not started and all its predecessors are done. */
  ghost predicate CanFollow(c: Config, w: Node, started: set<Node>, done: set<Node>) {
    w in c.walk.vertices && w !in started && PredsIn(c.walk.edges, w, done)
  }

  /** v is admitted and u, one of those now running, finishes; then w is tried first. */
  lemma Advance(
    c: Config, e: State, parked: set<Node>, done: set<Node>, ses: S.State, v: Node, u: Node, w: Node,
    parked': set<Node>, done': set<Node>, ses': S.State) returns (e': State)
    requires WellFormed(c) && Poised(c, e, parked, done, ses, v) && OneSlot(c, e, parked) && CanAdmit(c.sys, ses, v)
    requires u in parked + {v} && parked' == parked + {v} - {u} && done' == done + {u}
    requires ses' == Completed(c.sys, Admitted(c.sys, ses, v), u)
    requires CanFollow(c, w, parked + {v} + done, done')
    ensures Poised(c, e', parked', done', ses', w)
  {
    var running := parked + {v};
    e' := Round(c, e, parked, done, v, running, u, [w]);
  }

  /** Nothing but v is ready. */
  lemma OnlyReady(c: Config, e: State, done: set<Node>, ses: S.State, v: Node)
    requires WellFormed(c) && Poised(c, e, {}, done, ses, v)
    requires forall w :: w in c.walk.vertices && w !in done && w != v ==> !PredsIn(c.walk.edges, w, done)
    ensures |e.walk.ready| == 1
  {
    ReachableInv(c, e);
    forall w | w in e.walk.ready
      ensures w == v
    {
      assert PredsIn(c.walk.edges, w, done);
    }
    DistinctSize(e.walk.ready);
    assert e.walk.ready[0] in e.walk.ready && Elems(e.walk.ready) == {v};
  }

  lemma NoneParked(c: Config, e: State)
    requires c.walk.parallelism == 1
    ensures OneSlot(c, e, {})
  {
  }

  /** v starts. */
  lemma Launch(c: Config, e: State, parked: set<Node>, done: set<Node>, ses: S.State, v: Node) returns (e': State)
    requires WellFormed(c) && Poised(c, e, parked, done, ses, v) && CanAdmit(c.sys, ses, v)
    requires |parked| < Walk.Limit(c.walk)
    ensures Reachable(c, e') && Resting(e', parked + {v}, done) && e'.ses == Admitted(c.sys, ses, v)
    ensures e'.walk.ready == e.walk.ready[1..]
  {
    e' := AdmitFirst(c, e, parked, done);
  }

  // ---- Two at work ------------------------------------------------------------------------------------

  /** v, alone ready, runs; then w1 and w2 are tried first. */
  lemma RunOnly(c: Config, e: State, ses: S.State, ses': S.State, v: Node, w1: Node, w2: Node) returns (e': State)
    requires WellFormed(c) && Poised(c, e, {}, {}, ses, v) && |e.walk.ready| == 1
    requires c.walk.parallelism == 2 && CanAdmit(c.sys, ses, v)
    requires Completed(c.sys, Admitted(c.sys, ses, v), v) == ses'
    requires Startable(c, [w1, w2], {v} + {}, {} + {v})
    ensures Poised(c, e', {}, {v}, ses', w1) && |e'.walk.ready| > 1 && e'.walk.ready[1] == w2
  {
    var running := {} + {v};
    assert running == {v};
    e' := Round(c, e, {}, {}, v, running, v, [w1, w2]);
    assert running - {v} == {};
    assert e'.walk.ready[0] == [w1, w2][0] && e'.walk.ready[1] == [w1, w2][1];
  }

  /** v starts, then v' starts and v finishes. */
  lemma InPairs(
    c: Config, e: State, done: set<Node>, ses0: S.State, ses1: S.State, ses2: S.State, v: Node, v': Node,
    w: Node, done': set<Node>) returns (e': State)
    requires WellFormed(c) && c.walk.parallelism == 2
    requires Poised(c, e, {}, done, ses0, v) && |e.walk.ready| > 1 && e.walk.ready[1] == v' && v != v'
    requires CanAdmit(c.sys, ses0, v) && ses1 == Admitted(c.sys, ses0, v)
    requires CanAdmit(c.sys, ses1, v') && Completed(c.sys, Admitted(c.sys, ses1, v'), v) == ses2
    requires done' == done + {v} && CanFollow(c, w, {v} + {v'} + done, done')
    ensures Poised(c, e', {v'}, done', ses2, w)
  {
    var e1 := Launch(c, e, {}, done, ses0, v);
    var one := {} + {v};
    assert one == {v} && {v} + {v'} - {v} == {v'};
    e' := Advance(c, e1, one, done, ses1, v', v, w, {v'}, done', ses2);
  }

  /** v starts and stays, while v' starts and finishes. */
  lemma Beside(
    c: Config, e: State, done: set<Node>, ses0: S.State, ses1: S.State, ses2: S.State, v: Node, v': Node,
    w: Node, done': set<Node>) returns (e': State)
    requires WellFormed(c) && c.walk.parallelism == 2
    requires Poised(c, e, {}, done, ses0, v) && |e.walk.ready| > 1 && e.walk.ready[1] == v' && v != v'
    requires CanAdmit(c.sys, ses0, v) && ses1 == Admitted(c.sys, ses0, v)
    requires CanAdmit(c.sys, ses1, v') && Completed(c.sys, Admitted(c.sys, ses1, v'), v') == ses2
    requires done' == done + {v'} && CanFollow(c, w, {v} + {v'} + done, done')
    ensures Poised(c, e', {v}, done', ses2, w)
  {
    var e1 := Launch(c, e, {}, done, ses0, v);
    var one := {} + {v};
    assert one == {v} && {v} + {v'} - {v'} == {v};
    e' := Advance(c, e1, one, done, ses1, v', v', w, {v}, done', ses2);
  }

  /** v starts and u finishes. */
  lemma Swap(c: Config, e: State, done: set<Node>, ses: S.State, v: Node, u: Node, w: Node, done': set<Node>)
    returns (e': State)
    requires WellFormed(c) && c.walk.parallelism == 2
    requires Poised(c, e, {u}, done, ses, v) && CanAdmit(c.sys, ses, v) && u != v
    requires Completed(c.sys, Admitted(c.sys, ses, v), u) == ses
    requires done' == done + {u} && CanFollow(c, w, {u} + {v} + done, done')
    ensures Poised(c, e', {v}, done', ses, w)
  {
    assert {u} + {v} - {u} == {v};
    e' := Advance(c, e, {u}, done, ses, v, u, w, {v}, done', ses);
  }

  /** Beside m, v starts and finishes. */
  lemma Pass(
    c: Config, e: State, m: Node, done: set<Node>, ses: S.State, ses': S.State, v: Node, w: Node, done': set<Node>)
    returns (e': State)
    requires WellFormed(c) && c.walk.parallelism == 2
    requires Poised(c, e, {m}, done, ses, v) && CanAdmit(c.sys, ses, v) && m != v
    requires Completed(c.sys, Admitted(c.sys, ses, v), v) == ses'
    requires done' == done + {v} && CanFollow(c, w, {m} + {v} + done, done')
    ensures Poised(c, e', {m}, done', ses', w)
  {
    assert {m} + {v} - {v} == {m};
    e' := Advance(c, e, {m}, done, ses, v, v, w, {m}, done', ses');
  }

  /** Beside m, v starts and finishes, whatever is tried next. */
  lemma PassLast(c: Config, e: State, m: Node, done: set<Node>, ses: S.State, ses': S.State, v: Node) returns (e': State)
    requires WellFormed(c) && c.walk.parallelism == 2
    requires Poised(c, e, {m}, done, ses, v) && CanAdmit(c.sys, ses, v) && m != v
    requires Completed(c.sys, Admitted(c.sys, ses, v), v) == ses'
    ensures Reachable(c, e') && Resting(e', {m}, done + {v}) && e'.ses == ses'
  {
    var running := {m} + {v};
    assert running - {v} == {m};
    e' := Round(c, e, {m}, done, v, running, v, []);
  }
}
