/** dag.Walk (internal/dag/dag.go) as a step system. The walking goroutine moves through the
    program points below; Run callbacks return, the context is cancelled and the blocked channel
    fires at any moment. Whether a ready vertex is admitted is left open here; the Engine module
    says how the session decides. */
module Walk {
  import opened Digraph
  import opened Dag
  import opened Wrappers

  datatype Outcome<V> = Success | Failed(first: V) | Cancelled | NoProgress | Blocked

  /** Loop: head of the outer loop, or of the start loop inside it. Scan(i): firstStartable is
      about to ask for ready[i]. Wait: at a select. Drain: collecting results after
      cancellation. */
  datatype Pc<V> = Loop | Scan(i: nat) | Wait | Drain | Returned(outcome: Outcome<V>)

  /** A started vertex whose result has not been received yet. */
  datatype Phase = InRun | Exited(ok: bool)

  datatype Config<V> = Config(vertices: set<V>, edges: set<(V, V)>, parallelism: int, notified: bool)

  /** remaining, ready, completed and firstErr are Walk's own variables and |workers| is its
      running. The last four fields record the history: the vertices started, those whose Run
      returned nil, those whose result was received, and those whose nil result was received
      before any error and so released its dependents. */
  datatype State<V> = State(
    pc: Pc<V>, remaining: map<V, int>, ready: seq<V>, workers: map<V, Phase>, completed: int,
    firstErr: Option<V>, ctxDone: bool,
    started: set<V>, succeeded: set<V>, received: set<V>, released: set<V>)

  datatype Step<V> =
    | Exit | BeginScan | SkipScan | Admit | Refuse | EndScan
    | Wake | NoticeCancel | Receive(v: V, next: seq<V>) | Collect(v: V) | Collected
    | RunReturns(v: V, ok: bool) | Cancel | Elsewhere

  function Limit<V>(c: Config<V>): int {
    if c.parallelism <= 0 then 1 else c.parallelism
  }

  /** What ValidateAcyclic has established by the time the loop is entered. */
  ghost predicate WellFormed<V(!new)>(c: Config<V>) {
    Acyclic(c.edges) && Within(c.edges, c.vertices)
  }

  ghost predicate Init<V(!new)>(c: Config<V>, s: State<V>) {
    && s.pc == Loop && s.workers == map[] && s.completed == 0 && s.firstErr == None
    && s.started == {} && s.succeeded == {} && s.received == {} && s.released == {}
    && s.remaining.Keys == c.vertices
    && Counts(c.edges, s.remaining, {})
    && ReadyList(c.edges, c.vertices, s.ready, {}, {})
  }

  predicate MayStart<V>(c: Config<V>, s: State<V>) {
    s.firstErr.None? && !s.ctxDone && |s.workers| < Limit(c) && s.ready != []
  }

  /** Where control goes once nothing more can be started. */
  function Settled<V>(c: Config<V>, s: State<V>): Pc<V> {
    if |s.workers| != 0 then Wait
    else if s.firstErr.Some? then Returned(Failed(s.firstErr.value))
    else if s.ctxDone then Returned(Cancelled)
    else if s.ready == [] then Returned(NoProgress)
    else if !c.notified then Returned(Blocked)
    else Wait
  }

  ghost predicate Next<V(!new)>(c: Config<V>, s: State<V>, step: Step<V>, s': State<V>) {
    match step
    case Exit =>
      s.pc.Loop? && s.completed >= |s.remaining|
      && s' == s.(pc := Returned(if s.firstErr.Some? then Failed(s.firstErr.value) else Success))
    case BeginScan =>
      s.pc.Loop? && s.completed < |s.remaining| && MayStart(c, s) && s' == s.(pc := Scan(0))
    case SkipScan =>
      s.pc.Loop? && s.completed < |s.remaining| && !MayStart(c, s) && s' == s.(pc := Settled(c, s))
    case Admit =>
      s.pc.Scan? && s.pc.i < |s.ready|
      && s' == s.(pc := Loop, ready := Without(s.ready, s.pc.i),
                  workers := s.workers[s.ready[s.pc.i] := InRun],
                  started := s.started + {s.ready[s.pc.i]})
    case Refuse =>
      s.pc.Scan? && s.pc.i < |s.ready| && s' == s.(pc := Scan(s.pc.i + 1))
    case EndScan =>
      s.pc.Scan? && s.pc.i == |s.ready| && s' == s.(pc := Settled(c, s))
    case Wake =>
      s.pc.Wait? && c.notified && s' == s.(pc := Loop)
    case NoticeCancel =>
      s.pc.Wait? && s.ctxDone
      && s' == s.(pc := if |s.workers| == 0 then Returned(Cancelled) else Drain)
    case Receive(v, next) =>
      s.pc.Wait? && v in s.workers && s.workers[v].Exited? && Received(c, s, v, s.workers[v].ok, next, s')
    case Collect(v) =>
      s.pc.Drain? && v in s.workers && s.workers[v].Exited?
      && s' == s.(workers := s.workers - {v}, received := s.received + {v},
                  firstErr := NoteErr(s.firstErr, v, s.workers[v].ok))
    case Collected =>
      s.pc.Drain? && |s.workers| == 0
      && s' == s.(pc := Returned(if s.firstErr.Some? then Failed(s.firstErr.value) else Cancelled))
    case RunReturns(v, ok) =>
      v in s.workers && s.workers[v].InRun?
      && s' == s.(workers := s.workers[v := Exited(ok)],
                  succeeded := if ok then s.succeeded + {v} else s.succeeded)
    case Cancel =>
      s' == s.(ctxDone := true)
    case Elsewhere =>
      s' == s
  }

  function NoteErr<V>(firstErr: Option<V>, v: V, ok: bool): Option<V> {
    if !ok && firstErr.None? then Some(v) else firstErr
  }

  /** The third select case: one result arrives. */
  ghost predicate Received<V(!new)>(c: Config<V>, s: State<V>, v: V, ok: bool, next: seq<V>, s': State<V>) {
    var s1 := s.(pc := Loop, workers := s.workers - {v}, received := s.received + {v},
                 completed := s.completed + 1, firstErr := NoteErr(s.firstErr, v, ok));
    if !ok || s.firstErr.Some? then s' == s1
    else
      && Readied(c, s, v, next)
      && s' == s1.(remaining := Decrement(s.remaining, Succs(c.edges, v)), ready := next,
                   released := s.released + {v})
  }

  /** next is the ready list plus the dependents whose counter v brings to zero, sorted somehow. */
  ghost predicate Readied<V(!new)>(c: Config<V>, s: State<V>, v: V, next: seq<V>) {
    exists zeroed: seq<V> ::
      && Distinct(zeroed) && Elems(zeroed) == NewlyReady(s.remaining, Succs(c.edges, v))
      && multiset(next) == multiset(s.ready + zeroed)
  }

  // ---- The invariant ------------------------------------------------------------

  /** Counters, ready list and history agree. */
  ghost predicate Accounts<V(!new)>(c: Config<V>, s: State<V>) {
    && s.remaining.Keys == c.vertices
    && Counts(c.edges, s.remaining, s.released)
    && ReadyList(c.edges, c.vertices, s.ready, s.started, s.released)
    && (forall v :: v in s.started ==> PredsIn(c.edges, v, s.released))
  }

  /** Workers and history agree, and the limit holds. */
  ghost predicate Crew<V(!new)>(c: Config<V>, s: State<V>) {
    && (forall v :: v in s.started <==> v in s.workers || v in s.received)
    && (forall v :: v in s.workers ==> v !in s.received)
    && (forall v :: v in s.workers ==> (v in s.succeeded <==> s.workers[v] == Exited(true)))
    && s.succeeded <= s.started <= c.vertices
    && s.released <= s.received && s.released <= s.succeeded
    && |s.workers| <= Limit(c)
    && (s.firstErr.Some? ==> s.firstErr.value in s.received && s.firstErr.value !in s.succeeded)
  }

  predicate Live<V>(pc: Pc<V>) {
    pc.Loop? || pc.Scan? || pc.Wait?
  }

  ghost predicate Control<V(!new)>(c: Config<V>, s: State<V>) {
    && (Live(s.pc) ==> s.completed == |s.received| && (s.firstErr.None? ==> s.received <= s.released))
    && (s.pc.Scan? ==>
          s.pc.i <= |s.ready| && s.ready != [] && s.firstErr.None? && |s.workers| < Limit(c)
          && s.completed < |s.remaining|)
    && (s.pc.Wait? && s.workers == map[] ==> s.firstErr.None? && s.ready != [] && c.notified)
    && (s.pc.Drain? ==> s.ctxDone)
    && (s.pc.Returned? ==> s.workers == map[] && Verdict(c, s, s.pc.outcome))
  }

  ghost predicate Verdict<V(!new)>(c: Config<V>, s: State<V>, o: Outcome<V>) {
    match o
    case Success => s.succeeded == c.vertices && s.firstErr.None?
    case Failed(v) => s.firstErr == Some(v)
    case Cancelled => s.ctxDone && s.firstErr.None?
    case NoProgress => false
    case Blocked => !c.notified && s.ready != [] && s.firstErr.None?
  }

  ghost predicate Inv<V(!new)>(c: Config<V>, s: State<V>) {
    Accounts(c, s) && Crew(c, s) && Control(c, s)
  }

  lemma InvInit<V(!new)>(c: Config<V>, s: State<V>)
    requires WellFormed(c) && Init(c, s)
    ensures Inv(c, s)
  {
  }

  /** With every started vertex done and none failed, something is ready unless all are done:
      an acyclic graph never leaves Walk without progress. */
  lemma IdleHasReady<V(!new)>(c: Config<V>, s: State<V>)
    requires WellFormed(c) && Inv(c, s) && s.pc.Loop?
    requires s.workers == map[] && s.firstErr.None? && s.completed < |s.remaining|
    ensures s.ready != []
  {
    assert |s.remaining| == |s.remaining.Keys|;
    if s.ready == [] {
      assert s.started == s.released == s.received;
      AllDrained(c.edges, c.vertices, s.started);
    }
  }

  /** When every result has been counted, nothing is in flight. */
  lemma AllCounted<V(!new)>(c: Config<V>, s: State<V>)
    requires Inv(c, s) && s.pc.Loop? && s.completed >= |s.remaining|
    ensures s.workers == map[] && s.started == c.vertices
    ensures s.firstErr.None? ==> s.succeeded == c.vertices
  {
    assert |s.remaining| == |s.remaining.Keys|;
    SubsetSize(s.received, c.vertices);
    assert forall v :: v in s.workers ==> v in s.received;
    assert s.workers.Keys == {};
  }

  lemma SettledInv<V(!new)>(c: Config<V>, s: State<V>)
    requires WellFormed(c) && Inv(c, s) && (s.pc.Loop? || s.pc.Scan?) && s.completed < |s.remaining|
    ensures Control(c, s.(pc := Settled(c, s)))
  {
    if s.workers == map[] && s.firstErr.None? && s.pc.Loop? {
      IdleHasReady(c, s);
    }
  }

  lemma AdmitInv<V(!new)>(c: Config<V>, s: State<V>, s': State<V>)
    requires Inv(c, s) && Next(c, s, Admit, s')
    ensures Inv(c, s')
    ensures s.ready[s.pc.i] !in s.started
  {
    var v := s.ready[s.pc.i];
    WithoutReady(c.edges, c.vertices, s.ready, s.started, s.released, s.pc.i);
    AddWorker(s.workers, v);
    assert Crew(c, s');
  }

  lemma AddWorker<V(!new)>(workers: map<V, Phase>, v: V)
    requires v !in workers
    ensures |workers[v := InRun]| == |workers| + 1
  {
    var more := workers[v := InRun];
    assert more.Keys == workers.Keys + {v};
    assert |more| == |more.Keys| && |workers| == |workers.Keys|;
  }

  lemma SameWorkers<V(!new)>(workers: map<V, Phase>, v: V, phase: Phase)
    requires v in workers
    ensures |workers[v := phase]| == |workers|
  {
    var same := workers[v := phase];
    assert same.Keys == workers.Keys;
    assert |same| == |same.Keys| && |workers| == |workers.Keys|;
  }

  lemma RemoveWorker<V(!new)>(workers: map<V, Phase>, v: V)
    requires v in workers
    ensures |workers - {v}| == |workers| - 1
  {
    var fewer := workers - {v};
    assert fewer.Keys == workers.Keys - {v};
    assert |fewer| == |fewer.Keys| && |workers| == |workers.Keys|;
  }

  lemma ReceiveAccounts<V(!new)>(c: Config<V>, s: State<V>, v: V, next: seq<V>, s': State<V>)
    requires Inv(c, s) && Next(c, s, Receive(v, next), s')
    ensures Accounts(c, s')
  {
    if s.workers[v].ok && s.firstErr.None? {
      var zeroed :| Distinct(zeroed) && Elems(zeroed) == NewlyReady(s.remaining, Succs(c.edges, v))
                    && multiset(next) == multiset(s.ready + zeroed);
      CountsAfterFinish(c.edges, c.vertices, s.remaining, s.released, s.ready, s.started, v, zeroed, next);
    }
  }

  lemma ReceiveCrew<V(!new)>(c: Config<V>, s: State<V>, v: V, next: seq<V>, s': State<V>)
    requires Crew(c, s) && Next(c, s, Receive(v, next), s')
    ensures Crew(c, s')
  {
    RemoveWorker(s.workers, v);
  }

  lemma ReceiveControl<V(!new)>(c: Config<V>, s: State<V>, v: V, next: seq<V>, s': State<V>)
    requires Crew(c, s) && Control(c, s) && Next(c, s, Receive(v, next), s')
    ensures Control(c, s')
  {
    assert v !in s.received;
  }

  lemma ReceiveInv<V(!new)>(c: Config<V>, s: State<V>, v: V, next: seq<V>, s': State<V>)
    requires Inv(c, s) && Next(c, s, Receive(v, next), s')
    ensures Inv(c, s')
  {
    ReceiveAccounts(c, s, v, next, s');
    ReceiveCrew(c, s, v, next, s');
    ReceiveControl(c, s, v, next, s');
  }

  lemma CollectInv<V(!new)>(c: Config<V>, s: State<V>, v: V, s': State<V>)
    requires Inv(c, s) && Next(c, s, Collect(v), s')
    ensures Inv(c, s')
  {
    RemoveWorker(s.workers, v);
    assert Crew(c, s');
  }

  lemma RunReturnsInv<V(!new)>(c: Config<V>, s: State<V>, v: V, ok: bool, s': State<V>)
    requires Inv(c, s) && Next(c, s, RunReturns(v, ok), s')
    ensures Inv(c, s')
  {
    SameWorkers(s.workers, v, Exited(ok));
    assert Crew(c, s');
  }

  /** A step that moves only the program point, or only marks the context done. */
  lemma MoveInv<V(!new)>(c: Config<V>, s: State<V>, s': State<V>)
    requires Inv(c, s) && Control(c, s')
    requires s' == s.(pc := s'.pc, ctxDone := s'.ctxDone)
    ensures Inv(c, s')
  {
  }

  lemma ExitInv<V(!new)>(c: Config<V>, s: State<V>, s': State<V>)
    requires Inv(c, s) && Next(c, s, Exit, s')
    ensures Inv(c, s')
  {
    AllCounted(c, s);
    MoveInv(c, s, s');
  }

  lemma SettleInv<V(!new)>(c: Config<V>, s: State<V>, step: Step<V>, s': State<V>)
    requires WellFormed(c) && Inv(c, s) && Next(c, s, step, s') && (step.SkipScan? || step.EndScan?)
    ensures Inv(c, s')
  {
    SettledInv(c, s);
    MoveInv(c, s, s');
  }

  lemma PlainMoveInv<V(!new)>(c: Config<V>, s: State<V>, step: Step<V>, s': State<V>)
    requires Inv(c, s) && Next(c, s, step, s')
    requires step.BeginScan? || step.Refuse? || step.Wake? || step.NoticeCancel? || step.Collected? || step.Cancel?
      || step.Elsewhere?
    ensures Inv(c, s')
  {
    assert Control(c, s');
    MoveInv(c, s, s');
  }

  lemma InvStep<V(!new)>(c: Config<V>, s: State<V>, step: Step<V>, s': State<V>)
    requires WellFormed(c) && Inv(c, s) && Next(c, s, step, s')
    ensures Inv(c, s')
  {
    match step
    case Admit => AdmitInv(c, s, s');
    case Receive(v, next) => ReceiveInv(c, s, v, next, s');
    case Collect(v) => CollectInv(c, s, v, s');
    case RunReturns(v, ok) => RunReturnsInv(c, s, v, ok, s');
    case Exit => ExitInv(c, s, s');
    case SkipScan => SettleInv(c, s, step, s');
    case EndScan => SettleInv(c, s, step, s');
    case _ => PlainMoveInv(c, s, step, s');
  }

  // ---- Runs -----------------------------------------------------------------------

  ghost predicate Stepped<V(!new)>(c: Config<V>, s: State<V>, s': State<V>) {
    exists step :: Next(c, s, step, s')
  }

  ghost predicate SteppedTo<V(!new)>(c: Config<V>, run: seq<State<V>>, i: int) {
    0 < i < |run| ==> Stepped(c, run[i - 1], run[i])
  }

  ghost predicate IsRun<V(!new)>(c: Config<V>, run: seq<State<V>>) {
    |run| > 0 && Init(c, run[0]) && forall i :: SteppedTo(c, run, i)
  }

  lemma StepTo<V(!new)>(c: Config<V>, run: seq<State<V>>, i: nat) returns (step: Step<V>)
    requires IsRun(c, run) && 0 < i < |run|
    ensures Next(c, run[i - 1], step, run[i]) && Stepped(c, run[i - 1], run[i])
  {
    assert SteppedTo(c, run, i);
    step :| Next(c, run[i - 1], step, run[i]);
  }

  lemma {:induction false} RunInv<V(!new)>(c: Config<V>, run: seq<State<V>>, i: nat)
    requires WellFormed(c) && IsRun(c, run) && i < |run|
    ensures Inv(c, run[i])
  {
    if i == 0 {
      InvInit(c, run[0]);
    } else {
      RunInv(c, run, i - 1);
      var step := StepTo(c, run, i);
      InvStep(c, run[i - 1], step, run[i]);
    }
  }

  /** Vertex v is started by the step into state i of the run. */
  ghost predicate StartsAt<V(!new)>(run: seq<State<V>>, i: nat, v: V) {
    0 < i < |run| && v !in run[i - 1].workers && v in run[i].workers
  }

  /** Run for v returns, with or without an error, by the step into state i of the run. */
  ghost predicate ReturnsAt<V(!new)>(run: seq<State<V>>, i: nat, v: V, ok: bool) {
    && 0 < i < |run|
    && v in run[i - 1].workers && run[i - 1].workers[v].InRun?
    && v in run[i].workers && run[i].workers[v] == Exited(ok)
  }

  /** Only an admitted ready vertex ever starts. */
  lemma OnlyAdmitStarts<V(!new)>(c: Config<V>, s: State<V>, step: Step<V>, s': State<V>, v: V)
    requires Next(c, s, step, s') && v !in s.workers && v in s'.workers
    ensures step.Admit? && s.ready[s.pc.i] == v
  {
  }

  lemma OnlyAdmitAdds<V(!new)>(c: Config<V>, s: State<V>, step: Step<V>, s': State<V>)
    requires Next(c, s, step, s') && !step.Admit?
    ensures s'.started == s.started
  {
  }

  /** A step that starts a vertex: what held just before it. */
  lemma StartingStep<V(!new)>(c: Config<V>, s: State<V>, s': State<V>, v: V)
    requires Inv(c, s) && Stepped(c, s, s') && v !in s.workers && v in s'.workers
    ensures v in c.vertices && v !in s.started && v in s'.started && s'.released == s.released
    ensures PredsIn(c.edges, v, s.released) && s.released <= s.succeeded && s.firstErr.None?
  {
    var step :| Next(c, s, step, s');
    OnlyAdmitStarts(c, s, step, s', v);
    assert v in s.ready;
  }

  /** History only grows, and a success enters it when Run returns nil. */
  lemma HistoryStep<V(!new)>(c: Config<V>, s: State<V>, step: Step<V>, s': State<V>)
    requires Next(c, s, step, s')
    ensures s.started <= s'.started && s.succeeded <= s'.succeeded && s.released <= s'.released
    ensures s.firstErr.Some? ==> s'.firstErr == s.firstErr
  {
  }

  lemma SuccessStep<V(!new)>(c: Config<V>, s: State<V>, step: Step<V>, s': State<V>, v: V)
    requires Next(c, s, step, s') && v in s'.succeeded && v !in s.succeeded
    ensures v in s.workers && s.workers[v].InRun? && v in s'.workers && s'.workers[v] == Exited(true)
  {
  }

  lemma ErrorStep<V(!new)>(c: Config<V>, s: State<V>, step: Step<V>, s': State<V>, v: V)
    requires Next(c, s, step, s') && s'.firstErr == Some(v) && s.firstErr != Some(v)
    ensures v in s.workers && s.workers[v] == Exited(false)
  {
  }

  lemma ExitStep<V(!new)>(c: Config<V>, s: State<V>, step: Step<V>, s': State<V>, v: V, ok: bool)
    requires Next(c, s, step, s') && v in s'.workers && s'.workers[v] == Exited(ok)
    ensures v in s.workers && (s.workers[v] == Exited(ok) || s.workers[v].InRun?)
  {
  }

  lemma {:induction false} HistoryGrows<V(!new)>(c: Config<V>, run: seq<State<V>>, i: nat, j: nat)
    requires IsRun(c, run) && i <= j < |run|
    ensures run[i].started <= run[j].started
    ensures run[i].firstErr.Some? ==> run[j].firstErr == run[i].firstErr
    decreases j
  {
    if i < j {
      HistoryGrows(c, run, i, j - 1);
      var step := StepTo(c, run, j);
      HistoryStep(c, run[j - 1], step, run[j]);
    }
  }

  lemma {:induction false} SuccessHasWitness<V(!new)>(c: Config<V>, run: seq<State<V>>, i: nat, u: V)
    returns (k: nat)
    requires IsRun(c, run) && i < |run| && u in run[i].succeeded
    ensures k <= i && ReturnsAt(run, k, u, true)
  {
    var step := StepTo(c, run, i);
    if u in run[i - 1].succeeded {
      k := SuccessHasWitness(c, run, i - 1, u);
    } else {
      SuccessStep(c, run[i - 1], step, run[i], u);
      k := i;
    }
  }

  lemma StartFacts<V(!new)>(c: Config<V>, run: seq<State<V>>, i: nat, v: V)
    requires WellFormed(c) && IsRun(c, run) && StartsAt(run, i, v)
    ensures v in c.vertices && v !in run[i - 1].started && v in run[i].started
    ensures run[i].released == run[i - 1].released <= run[i - 1].succeeded
    ensures PredsIn(c.edges, v, run[i - 1].released) && run[i - 1].firstErr.None?
  {
    RunInv(c, run, i - 1);
    var step := StepTo(c, run, i);
    StartingStep(c, run[i - 1], run[i], v);
  }

  /** A vertex starts only after Run has returned nil for each of its predecessors. */
  lemma StartsAfterPredecessors<V(!new)>(c: Config<V>, run: seq<State<V>>, i: nat, v: V, u: V) returns (k: nat)
    requires WellFormed(c) && IsRun(c, run) && StartsAt(run, i, v) && (u, v) in c.edges
    ensures k < i && ReturnsAt(run, k, u, true)
  {
    StartFacts(c, run, i, v);
    k := SuccessHasWitness(c, run, i - 1, u);
  }

  /** No vertex starts twice. */
  lemma StartsOnce<V(!new)>(c: Config<V>, run: seq<State<V>>, i: nat, j: nat, v: V)
    requires WellFormed(c) && IsRun(c, run) && StartsAt(run, i, v) && StartsAt(run, j, v)
    ensures i == j
  {
    StartFacts(c, run, i, v);
    StartFacts(c, run, j, v);
    if i < j {
      HistoryGrows(c, run, i, j - 1);
    } else if j < i {
      HistoryGrows(c, run, j, i - 1);
    }
  }

  /** Nothing starts once Walk has seen an error. */
  lemma NothingStartsAfterError<V(!new)>(c: Config<V>, run: seq<State<V>>, i: nat, j: nat, v: V)
    requires WellFormed(c) && IsRun(c, run) && i < j < |run| && run[i].firstErr.Some?
    ensures !StartsAt(run, j, v)
  {
    HistoryGrows(c, run, i, j - 1);
    if StartsAt(run, j, v) {
      StartFacts(c, run, j, v);
    }
  }

  /** At most Parallelism callbacks are in flight, and none at any return; nil is returned only
      when every vertex ran and succeeded; "made no progress" is never reported. */
  lemma WalkResults<V(!new)>(c: Config<V>, run: seq<State<V>>, i: nat)
    requires WellFormed(c) && IsRun(c, run) && i < |run|
    ensures |run[i].workers| <= if c.parallelism <= 0 then 1 else c.parallelism
    ensures run[i].pc.Returned? ==>
      && run[i].workers == map[] && run[i].pc.outcome != NoProgress
      && (run[i].pc.outcome == Success ==> run[i].succeeded == c.vertices)
      && (run[i].pc.outcome.Cancelled? ==> run[i].ctxDone)
      && (run[i].pc.outcome.Blocked? ==> !c.notified)
  {
    RunInv(c, run, i);
  }

  /** The error kept is one some callback reported before it was received. */
  lemma {:induction false} FailureIsReported<V(!new)>(c: Config<V>, run: seq<State<V>>, i: nat, v: V)
    returns (k: nat)
    requires IsRun(c, run) && i < |run| && run[i].firstErr == Some(v)
    ensures k < i && ReturnsAt(run, k, v, false)
  {
    var step := StepTo(c, run, i);
    if run[i - 1].firstErr == Some(v) {
      k := FailureIsReported(c, run, i - 1, v);
    } else {
      ErrorStep(c, run[i - 1], step, run[i], v);
      k := ExitHasWitness(c, run, i - 1, v, false);
    }
  }

  lemma {:induction false} ExitHasWitness<V(!new)>(c: Config<V>, run: seq<State<V>>, i: nat, v: V, ok: bool)
    returns (k: nat)
    requires IsRun(c, run) && i < |run| && v in run[i].workers && run[i].workers[v] == Exited(ok)
    ensures k <= i && ReturnsAt(run, k, v, ok)
  {
    var step := StepTo(c, run, i);
    ExitStep(c, run[i - 1], step, run[i], v, ok);
    if run[i - 1].workers[v] == Exited(ok) {
      k := ExitHasWitness(c, run, i - 1, v, ok);
    } else {
      k := i;
    }
  }

  /** The step from state j of a run to the next, with the invariant before it. */
  lemma Passes<V(!new)>(c: Config<V>, run: seq<State<V>>, j: nat, i: nat)
    returns (s: State<V>, step: Step<V>, s': State<V>)
    requires WellFormed(c) && IsRun(c, run) && j + 1 == i < |run|
    ensures s == run[j] && s' == run[i] && Inv(c, s) && Next(c, s, step, s')
  {
    s, s' := run[j], run[i];
    RunInv(c, run, j);
    step := StepTo(c, run, i);
  }

  // ---- Cancellation ---------------------------------------------------------------------

  ghost predicate Stopping<V>(s: State<V>) {
    s.ctxDone && !s.pc.Scan?
  }

  lemma StoppingStep<V(!new)>(c: Config<V>, s: State<V>, step: Step<V>, s': State<V>)
    requires Next(c, s, step, s') && Stopping(s)
    ensures Stopping(s') && !step.Admit?
  {
  }

  lemma {:induction false} StoppingStays<V(!new)>(c: Config<V>, run: seq<State<V>>, i: nat, j: nat)
    requires IsRun(c, run) && i <= j < |run| && Stopping(run[i])
    ensures Stopping(run[j])
    decreases j
  {
    if i < j {
      StoppingStays(c, run, i, j - 1);
      var step := StepTo(c, run, j);
      StoppingStep(c, run[j - 1], step, run[j]);
    }
  }

  /** Once the context is done, nothing starts, unless a vertex is just being tried. */
  lemma NothingStartsAfterCancel<V(!new)>(c: Config<V>, run: seq<State<V>>, i: nat, j: nat, v: V)
    requires IsRun(c, run) && i < j < |run| && run[i].ctxDone && !run[i].pc.Scan?
    ensures !StartsAt(run, j, v)
  {
    StoppingStays(c, run, i, j - 1);
    var step := StepTo(c, run, j);
    StoppingStep(c, run[j - 1], step, run[j]);
    if StartsAt(run, j, v) {
      OnlyAdmitStarts(c, run[j - 1], step, run[j], v);
    }
  }

  lemma {:induction false} CtxStaysDone<V(!new)>(c: Config<V>, run: seq<State<V>>, i: nat, j: nat)
    requires IsRun(c, run) && i <= j < |run| && run[i].ctxDone
    ensures run[j].ctxDone
    decreases j
  {
    if i < j {
      CtxStaysDone(c, run, i, j - 1);
      var step := StepTo(c, run, j);
    }
  }

  lemma StartLeavesScan<V(!new)>(c: Config<V>, run: seq<State<V>>, j: nat, v: V)
    requires IsRun(c, run) && StartsAt(run, j, v)
    ensures !run[j].pc.Scan?
    ensures forall w :: StartsAt(run, j, w) ==> w == v
  {
    var step := StepTo(c, run, j);
    OnlyAdmitStarts(c, run[j - 1], step, run[j], v);
    forall w | StartsAt(run, j, w)
      ensures w == v
    {
      OnlyAdmitStarts(c, run[j - 1], step, run[j], w);
    }
  }

  /** In any case at most one vertex starts after the context is done. */
  lemma OneStartAfterCancel<V(!new)>(c: Config<V>, run: seq<State<V>>, i: nat, j: nat, k: nat, v: V, w: V)
    requires IsRun(c, run) && i < j <= k < |run| && run[i].ctxDone && StartsAt(run, j, v) && StartsAt(run, k, w)
    ensures j == k && v == w
  {
    CtxStaysDone(c, run, i, j);
    StartLeavesScan(c, run, j, v);
    if j < k {
      NothingStartsAfterCancel(c, run, j, k, w);
    }
  }

  // ---- Errors -----------------------------------------------------------------------------

  /** An error that has been received has been noted. */
  ghost predicate Noted<V(!new)>(s: State<V>) {
    forall v :: v in s.received && v !in s.succeeded ==> s.firstErr.Some?
  }

  lemma NotedStep<V(!new)>(c: Config<V>, s: State<V>, step: Step<V>, s': State<V>)
    requires Inv(c, s) && Noted(s) && Next(c, s, step, s')
    ensures Noted(s')
  {
  }

  lemma {:induction false} RunNoted<V(!new)>(c: Config<V>, run: seq<State<V>>, i: nat)
    requires WellFormed(c) && IsRun(c, run) && i < |run|
    ensures Noted(run[i])
  {
    if i > 0 {
      var j := i - 1;
      RunNoted(c, run, j);
      var s, step, s' := Passes(c, run, j, i);
      NotedStep(c, s, step, s');
    }
  }

  /** Run for v has returned an error. */
  ghost predicate HasFailed<V(!new)>(s: State<V>, v: V) {
    v in s.started && v !in s.succeeded && (v in s.workers ==> s.workers[v] == Exited(false))
  }

  lemma FailedStep<V(!new)>(c: Config<V>, s: State<V>, step: Step<V>, s': State<V>, v: V)
    requires Inv(c, s) && HasFailed(s, v) && Next(c, s, step, s')
    ensures HasFailed(s', v)
  {
    if step.Admit? {
      AdmitInv(c, s, s');
    }
  }

  lemma JustFailed<V(!new)>(c: Config<V>, run: seq<State<V>>, k: nat, v: V)
    requires WellFormed(c) && IsRun(c, run) && ReturnsAt(run, k, v, false)
    ensures HasFailed(run[k], v)
  {
    RunInv(c, run, k);
  }

  lemma {:induction false} FailedStays<V(!new)>(c: Config<V>, run: seq<State<V>>, k: nat, i: nat, v: V)
    requires WellFormed(c) && IsRun(c, run) && k <= i < |run| && ReturnsAt(run, k, v, false)
    ensures HasFailed(run[i], v)
    decreases i
  {
    if k == i {
      JustFailed(c, run, k, v);
    } else {
      var j := i - 1;
      FailedStays(c, run, k, j, v);
      var s, step, s' := Passes(c, run, j, i);
      FailedStep(c, s, step, s', v);
    }
  }

  /** Once any callback has returned an error, Walk can only return an error: no error is lost, whenever it is
      received. */
  lemma ErrorsAreReturned<V(!new)>(c: Config<V>, run: seq<State<V>>, k: nat, i: nat, v: V)
    requires WellFormed(c) && IsRun(c, run) && k <= i < |run| && ReturnsAt(run, k, v, false) && run[i].pc.Returned?
    ensures run[i].pc.outcome.Failed?
  {
    FailedStays(c, run, k, i, v);
    RunNoted(c, run, i);
    RunInv(c, run, i);
  }

  /** What has returned nil stays a success, and never was a failure. */
  lemma {:induction false} NilStays<V(!new)>(c: Config<V>, run: seq<State<V>>, k: nat, i: nat, v: V)
    requires IsRun(c, run) && k <= i < |run| && ReturnsAt(run, k, v, true)
    ensures v in run[i].succeeded
    decreases i
  {
    var step := StepTo(c, run, i);
    if k < i {
      NilStays(c, run, k, i - 1, v);
    }
  }

  // ---- Order along paths --------------------------------------------------------------------

  /** What started has all its predecessors released, and only started vertices are released. */
  ghost predicate InOrder<V(!new)>(edges: set<(V, V)>, started: set<V>, released: set<V>) {
    released <= started && forall v :: v in started ==> PredsIn(edges, v, released)
  }

  lemma InvInOrder<V(!new)>(c: Config<V>, s: State<V>)
    requires Inv(c, s)
    ensures InOrder(c.edges, s.started, s.released)
    ensures s.released <= s.succeeded && forall v :: v in s.released ==> v !in s.workers
  {
  }

  /** Order along paths: what started has every ancestor released. */
  lemma {:induction false} AncestorsReleased<V(!new)>(
    edges: set<(V, V)>, started: set<V>, released: set<V>, p: seq<V>, u: V, v: V)
    requires InOrder(edges, started, released) && v in started && Joins(edges, p, u, v) && u != v
    ensures u in released
    decreases |p|
  {
    if p[1] != v {
      AncestorsReleased(edges, started, released, p[1..], p[1], v);
    }
    assert PredsIn(edges, p[1], released);
  }

  lemma AncestorReleased<V(!new)>(c: Config<V>, s: State<V>, u: V, v: V)
    requires Inv(c, s) && v in s.started && Reach(c.edges, u, v) && u != v
    ensures u in s.released && u in s.succeeded && u !in s.workers
  {
    InvInOrder(c, s);
    var p :| Joins(c.edges, p, u, v);
    AncestorsReleased(c.edges, s.started, s.released, p, u, v);
  }

  /** A vertex starts only after Run has returned nil for every vertex that leads to it. */
  lemma StartsAfterAncestors<V(!new)>(c: Config<V>, run: seq<State<V>>, i: nat, v: V, u: V) returns (k: nat)
    requires WellFormed(c) && IsRun(c, run) && StartsAt(run, i, v) && Reach(c.edges, u, v) && u != v
    ensures k < i && ReturnsAt(run, k, u, true)
  {
    StartFacts(c, run, i, v);
    AncestorInRun(c, run, i, u, v);
    k := SuccessHasWitness(c, run, i - 1, u);
  }

  lemma AncestorInRun<V(!new)>(c: Config<V>, run: seq<State<V>>, i: nat, u: V, v: V)
    requires WellFormed(c) && IsRun(c, run) && i < |run| && v in run[i].started
    requires Reach(c.edges, u, v) && u != v
    ensures u in run[i].released
  {
    RunInv(c, run, i);
    AncestorReleased(c, run[i], u, v);
  }
}
