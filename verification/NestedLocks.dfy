/** Composites nested directly in composites with the same lock: finishing the inner one frees the lock of the
    outer one (internal/runner/session.go:286-299), and nothing else does. */
module NestedLocks {
  import opened Nodes
  import opened Digraph
  import opened Engine
  import opened EngineLocks
  import opened EngineSafety
  import Dag
  import Schedule
  import Walk
  import S = Session

  /** q starts as a member of p, and both declare the same lock. */
  ghost predicate Shares(c: Config, p: Name, q: Name) {
    && p in S.MemberScopes(c.sys, ScopeStart(q)) && S.LockOf(c.sys, p) == S.LockOf(c.sys, q) != NoLock
  }

  ghost predicate Inner(c: Config, q: Name) {
    exists p :: Shares(c, p, q)
  }

  /** q runs within p: it opens after p has opened and ends before p does. */
  ghost predicate Within(c: Config, p: Name, q: Name) {
    && p != q && p in c.sys.scopes && q in c.sys.scopes
    && ScopeStart(p) in c.walk.vertices && ScopeStart(q) in c.walk.vertices && Target(q) in c.walk.vertices
    && Reach(c.walk.edges, ScopeStart(p), ScopeStart(q)) && Reach(c.walk.edges, Target(q), Target(p))
  }

  /** What shares the lock of an inner composite also shares that of the outer one, unless it is done before the
      outer one opens. */
  ghost predicate MembersToo(c: Config, p: Name, q: Name) {
    forall v {:trigger S.MemberScopes(c.sys, v)} ::
      v in c.walk.vertices && SharesLock(c, v, q) ==>
        p in S.MemberScopes(c.sys, v) || Reach(c.walk.edges, v, ScopeStart(p))
  }

  /** Sharing a lock comes with running within. */
  ghost predicate Enclosing(c: Config) {
    forall p, q :: Shares(c, p, q) ==> Within(c, p, q) && MembersToo(c, p, q)
  }

  // ---- Finishing the inner composite ---------------------------------------------------------

  /** While q has opened and not ended, p is open. */
  lemma OuterOpen(c: Config, e: State, p: Name, q: Name)
    requires WellFormed(c) && Inv(c, e) && Within(c, p, q)
    requires ScopeStart(q) in e.walk.started && (Target(q) !in e.walk.started || Target(q) in e.stage)
    ensures p in e.ses.scopes
  {
    Walk.AncestorReleased(c.walk, e.walk, ScopeStart(p), ScopeStart(q));
    if Target(p) in e.walk.started {
      Walk.AncestorReleased(c.walk, e.walk, Target(q), Target(p));
      assert false;
    }
    assert HasOpened(e, p) && !HasClosed(e, p);
  }

  /** The step in which q ends leaves p open without its lock. */
  lemma ClosingFreesOuter(c: Config, e: State, p: Name, q: Name, e': State)
    requires WellFormed(c) && Inv(c, e) && Shares(c, p, q) && Within(c, p, q)
    requires Next(c, e, CloseLock(q), e')
    ensures p in e'.ses.scopes && S.LockOf(c.sys, p) !in e'.ses.held
  {
    assert Target(q) in e.stage && Target(q) in e.walk.started;
    Walk.AncestorReleased(c.walk, e.walk, ScopeStart(q), Target(q));
    OuterOpen(c, e, p, q);
  }

  /** The run of q's own vertex has returned. */
  ghost predicate Ended(e: State, q: Name) {
    Target(q) in e.walk.started && Target(q) !in e.stage
  }

  lemma QuietEndsNothing(c: Config, e: State, step: Step, e': State, q: Name)
    requires Inv(c, e) && Inv(c, e') && Next(c, e, step, e') && Quiet(step) && Ended(e', q)
    ensures Ended(e, q)
  {
    QuietStep(c, e, step, e');
  }

  lemma AdmitEndsNothing(c: Config, e: State, step: Step, e': State, q: Name)
    requires WellFormed(c) && Inv(c, e) && Next(c, e, step, e') && Admitting(step) && Ended(e', q)
    ensures Ended(e, q)
  {
    AdmitStep(c, e, step, e');
  }

  lemma WorkersStartNothing(c: Config, e: State, step: Step, e': State)
    requires Next(c, e, step, e') && ByWorker(step)
    ensures e'.walk.started == e.walk.started
  {
    var ws := StepRefinesWalk(c, e, step, e');
    Walk.OnlyAdmitAdds(c.walk, e.walk, ws, e'.walk);
  }

  /** The steps with which a target's Run returns. */
  lemma TargetLeaves(c: Config, e: State, step: Step, e': State, q: Name)
    requires Next(c, e, step, e') && ByWorker(step) && Target(q) in e.stage && Target(q) !in e'.stage
    ensures step == CloseLock(q) || (step == DropLock(Target(q)) && e.stage[Target(q)].Dropping?)
  {
  }

  lemma WorkerEnds(c: Config, e: State, step: Step, e': State, q: Name)
    requires Inv(c, e) && q in c.sys.scopes && Next(c, e, step, e') && ByWorker(step) && Ended(e', q) && !Ended(e, q)
    ensures step == CloseLock(q)
  {
    WorkersStartNothing(c, e, step, e');
    TargetLeaves(c, e, step, e', q);
    assert FitsStage(c, Target(q), e.stage[Target(q)]);
  }

  /** Only the last step of finishScope ends a composite. */
  lemma EndedBy(c: Config, e: State, step: Step, e': State, q: Name)
    requires WellFormed(c) && Inv(c, e) && Inv(c, e') && q in c.sys.scopes && Next(c, e, step, e')
    requires Ended(e', q) && !Ended(e, q)
    ensures step == CloseLock(q)
  {
    if Quiet(step) {
      QuietEndsNothing(c, e, step, e', q);
    } else if Admitting(step) {
      AdmitEndsNothing(c, e, step, e', q);
    } else {
      WorkerEnds(c, e, step, e', q);
    }
  }

  // ---- The same run without the inner locks ---------------------------------------------------------

  /** Inner composites declare no lock. */
  ghost function Unlocked(c: Config): Config {
    c.(sys := c.sys.(locks := map n | n in c.sys.locks :: if Inner(c, n) then NoLock else c.sys.locks[n]))
  }

  lemma LockUnlocked(c: Config, n: Name)
    ensures S.LockOf(Unlocked(c).sys, n) == if Inner(c, n) then NoLock else S.LockOf(c.sys, n)
  {
    if n !in c.sys.locks {
      assert S.LockOf(c.sys, n) == NoLock;
    }
  }

  lemma UnlockedNotNested(c: Config)
    requires Enclosing(c)
    ensures NoNestedLock(Unlocked(c))
  {
    forall q, p | p in S.MemberScopes(c.sys, ScopeStart(q)) && S.LockOf(Unlocked(c).sys, q) != NoLock
      ensures S.LockOf(Unlocked(c).sys, p) != S.LockOf(Unlocked(c).sys, q)
    {
      LockUnlocked(c, q);
      LockUnlocked(c, p);
      assert !Shares(c, p, q);
    }
  }

  /** The vertices that come before the start of q. */
  ghost function Above(c: Config, q: Name): set<Node> {
    set u | u in c.walk.vertices && Reach(c.walk.edges, u, ScopeStart(q))
  }

  lemma AboveShrinks(c: Config, p: Name, q: Name)
    requires WellFormed(c) && Within(c, p, q)
    ensures Above(c, p) < Above(c, q)
  {
    forall u | u in Above(c, p)
      ensures u in Above(c, q)
    {
      ReachTrans(c.walk.edges, u, ScopeStart(p), ScopeStart(q));
    }
    ReachRefl(c.walk.edges, ScopeStart(q));
    if Reach(c.walk.edges, ScopeStart(q), ScopeStart(p)) {
      var b := ReachFirst(c.walk.edges, ScopeStart(q), ScopeStart(p));
      ReachTrans(c.walk.edges, b, ScopeStart(p), ScopeStart(q));
      assert false;
    }
    assert ScopeStart(q) !in Above(c, p);
  }

  lemma OpenHasStarted(c: Config, e: State, q: Name)
    requires WellFormed(c) && Inv(c, e) && q in e.ses.scopes
    ensures ScopeStart(q) in e.walk.started && (Target(q) !in e.walk.started || Target(q) in e.stage)
  {
    assert HasOpened(e, q) && !HasClosed(e, q);
  }

  /** The outermost open composite that shares the lock of an open one. */
  lemma {:induction false} Outermost(c: Config, e: State, q: Name) returns (r: Name)
    requires WellFormed(c) && Enclosing(c) && Inv(c, e) && q in e.ses.scopes && S.LockOf(c.sys, q) != NoLock
    ensures r in e.ses.scopes && !Inner(c, r) && S.LockOf(c.sys, r) == S.LockOf(c.sys, q)
    ensures forall v :: v in c.walk.vertices && v !in e.walk.started && SharesLock(c, v, q) ==> SharesLock(c, v, r)
    decreases Above(c, q)
  {
    if Inner(c, q) {
      var p :| Shares(c, p, q);
      OpenHasStarted(c, e, q);
      OuterOpen(c, e, p, q);
      AboveShrinks(c, p, q);
      r := Outermost(c, e, p);
      OpenHasStarted(c, e, p);
      forall v | v in c.walk.vertices && v !in e.walk.started && SharesLock(c, v, q)
        ensures SharesLock(c, v, p)
      {
        if Reach(c.walk.edges, v, ScopeStart(p)) {
          Walk.AncestorReleased(c.walk, e.walk, v, ScopeStart(p));
          assert false;
        }
      }
    } else {
      r := q;
    }
  }

  /** When the start of an inner composite is tried, the outer one is open. */
  lemma TriedInside(c: Config, e: State, p: Name, q: Name)
    requires WellFormed(c) && Inv(c, e) && Within(c, p, q) && Scanning(e) && Tried(e) == ScopeStart(q)
    ensures p in e.ses.scopes && ScopeStart(q) !in e.walk.started
  {
    var w := e.walk;
    var admitted := w.(pc := Walk.Loop, ready := Dag.Without(w.ready, w.pc.i),
                       workers := w.workers[w.ready[w.pc.i] := Walk.InRun], started := w.started + {w.ready[w.pc.i]});
    Walk.AdmitInv(c.walk, w, admitted);
    Walk.AncestorReleased(c.walk, admitted, ScopeStart(p), ScopeStart(q));
    if Target(p) in w.started {
      Walk.AncestorReleased(c.walk, w, Target(q), Target(p));
      Walk.AncestorReleased(c.walk, w, ScopeStart(q), Target(q));
      assert false;
    }
    assert HasOpened(e, p) && !HasClosed(e, p);
  }

  /** A vertex that was found not to be covered is not the start of an inner composite. */
  ghost predicate ProbesOuter(c: Config, e: State) {
    e.probed ==> Scanning(e) && forall q :: Tried(e) == ScopeStart(q) ==> !Inner(c, q)
  }

  lemma NeededUnlocked(c: Config, v: Node)
    ensures S.Needed(Unlocked(c).sys, v) ==
      if v.ScopeStart? && Inner(c, v.name) then NoLock
      else if v.Target? && Inner(c, v.name) then NoLock else S.Needed(c.sys, v)
  {
    if v.ScopeStart? || v.Target? {
      LockUnlocked(c, v.name);
    }
  }

  lemma CoveredUnlocked(c: Config, e: State, v: Node, lock: Lock)
    requires lock != NoLock && S.Covered(Unlocked(c).sys, e.ses, v, lock)
    ensures S.Covered(c.sys, e.ses, v, lock)
  {
    var p :| p in S.MemberScopes(c.sys, v) && p in e.ses.scopes && S.LockOf(Unlocked(c).sys, p) == lock;
    LockUnlocked(c, p);
  }

  lemma SameNeeds(c: Config, v: Node)
    requires Enclosing(c) && !(v.ScopeStart? && Inner(c, v.name))
    ensures S.Needed(Unlocked(c).sys, v) == S.Needed(c.sys, v)
  {
    NeededUnlocked(c, v);
    if v.Target? && Inner(c, v.name) {
      var p :| Shares(c, p, v.name);
      assert Within(c, p, v.name);
    }
  }

  /** What a scope covers is covered by a scope that keeps its lock. */
  lemma CoveredStays(c: Config, e: State, v: Node, lock: Lock)
    requires WellFormed(c) && Enclosing(c) && Inv(c, e) && v in c.walk.vertices && v !in e.walk.started
    requires lock != NoLock && S.Needed(c.sys, v) == lock && S.Covered(c.sys, e.ses, v, lock)
    requires !(v.ScopeStart? && Inner(c, v.name))
    ensures S.Covered(Unlocked(c).sys, e.ses, v, lock)
  {
    var q :| q in S.MemberScopes(c.sys, v) && q in e.ses.scopes && S.LockOf(c.sys, q) == lock;
    if v.ScopeStart? {
      assert Shares(c, q, v.name);
      assert false;
    }
    assert SharesLock(c, v, q);
    var r := Outermost(c, e, q);
    LockUnlocked(c, r);
    assert SharesLock(c, v, r);
  }

  lemma TriedVertex(c: Config, e: State)
    requires WellFormed(c) && Inv(c, e) && Scanning(e)
    ensures Tried(e) in c.walk.vertices && Tried(e) !in e.walk.started
  {
    assert Tried(e) in e.walk.ready;
  }

  /** The start of an inner composite is always covered. */
  lemma InnerIsCovered(c: Config, e: State)
    requires WellFormed(c) && Enclosing(c) && Inv(c, e) && Scanning(e)
    requires Tried(e).ScopeStart? && Inner(c, Tried(e).name)
    ensures S.Covered(c.sys, e.ses, Tried(e), S.Needed(c.sys, Tried(e)))
  {
    var q := Tried(e).name;
    var p :| Shares(c, p, q);
    TriedInside(c, e, p, q);
  }

  /** An admission, seen without the inner locks. */
  lemma AdmissionUnlocked(c: Config, e: State, step: Step, e': State) returns (step': Step)
    requires WellFormed(c) && Enclosing(c) && Inv(c, e) && Next(c, e, step, e') && ProbesOuter(c, e)
    requires step.AdmitFree? || step.AdmitCovered? || step.AdmitAcquire?
    ensures Next(Unlocked(c), e, step', e') && ProbesOuter(c, e')
  {
    var v := Tried(e);
    TriedVertex(c, e);
    step' := step;
    if v.ScopeStart? && Inner(c, v.name) {
      NeededUnlocked(c, v);
      InnerIsCovered(c, e);
      step' := AdmitFree;
    } else {
      SameNeeds(c, v);
      if step.AdmitCovered? {
        CoveredStays(c, e, v, S.Needed(c.sys, v));
      }
    }
  }

  lemma TryUnlocked(c: Config, e: State, step: Step, e': State)
    requires WellFormed(c) && Enclosing(c) && Inv(c, e) && Next(c, e, step, e') && ProbesOuter(c, e)
    requires step.ProbeFails? || step.RefuseHeld?
    ensures Next(Unlocked(c), e, step, e') && ProbesOuter(c, e')
  {
    var v := Tried(e);
    if v.ScopeStart? && Inner(c, v.name) {
      InnerIsCovered(c, e);
      assert false;
    }
    SameNeeds(c, v);
    if step.ProbeFails? && S.Covered(Unlocked(c).sys, e.ses, v, S.Needed(c.sys, v)) {
      CoveredUnlocked(c, e, v, S.Needed(c.sys, v));
    }
  }

  /** Every step but the end of an inner composite is a step without the inner locks too. */
  lemma StepUnlocked(c: Config, e: State, step: Step, e': State) returns (step': Step)
    requires WellFormed(c) && Enclosing(c) && Inv(c, e) && Next(c, e, step, e') && ProbesOuter(c, e)
    requires step.CloseLock? ==> !Inner(c, step.p)
    ensures Next(Unlocked(c), e, step', e') && ProbesOuter(c, e')
  {
    if step.AdmitFree? || step.AdmitCovered? || step.AdmitAcquire? {
      step' := AdmissionUnlocked(c, e, step, e');
    } else {
      step' := step;
      if step.ProbeFails? || step.RefuseHeld? {
        TryUnlocked(c, e, step, e');
      } else {
        OtherUnlocked(c, e, step, e');
      }
    }
  }

  lemma OtherUnlocked(c: Config, e: State, step: Step, e': State)
    requires Inv(c, e) && Next(c, e, step, e') && ProbesOuter(c, e)
    requires !Admitting(step) && !step.ProbeFails? && !step.RefuseHeld? && (step.CloseLock? ==> !Inner(c, step.p))
    ensures Next(Unlocked(c), e, step, e') && ProbesOuter(c, e')
  {
    SameStepUnlocked(c, e, step, e');
    ProbesOuterStay(c, e, step, e');
  }

  lemma SameStepUnlocked(c: Config, e: State, step: Step, e': State)
    requires Next(c, e, step, e')
    requires !Admitting(step) && !step.ProbeFails? && !step.RefuseHeld? && (step.CloseLock? ==> !Inner(c, step.p))
    ensures Next(Unlocked(c), e, step, e')
  {
    if step.CloseLock? {
      LockUnlocked(c, step.p);
    }
  }

  /** What is tried stays the same while it is probed. */
  lemma TriedStays(c: Config, e: State, step: Step, e': State)
    requires Probing(c, e) && Next(c, e, step, e') && e.probed
    requires !Admitting(step) && !step.ProbeFails? && !step.RefuseHeld?
    ensures Scanning(e) && Scanning(e') && Tried(e') == Tried(e)
  {
  }

  lemma ProbesOuterStay(c: Config, e: State, step: Step, e': State)
    requires Probing(c, e) && Next(c, e, step, e') && ProbesOuter(c, e)
    requires !Admitting(step) && !step.ProbeFails? && !step.RefuseHeld?
    ensures ProbesOuter(c, e')
  {
    if e.probed {
      TriedStays(c, e, step, e');
    }
    var ws := StepRefinesWalk(c, e, step, e');
    ProbeStays(c, e, ws, e');
  }

  lemma ProbeStays(c: Config, e: State, ws: Walk.Step<Node>, e': State)
    requires ProbesOuter(c, e) && e'.probed == e.probed && Walk.Next(c.walk, e.walk, ws, e'.walk)
    requires e.probed ==> Scanning(e) && Scanning(e') && Tried(e') == Tried(e)
    ensures ProbesOuter(c, e')
  {
  }

  /** No inner composite has ended by state i. */
  ghost predicate NoneEnded(c: Config, run: seq<State>, i: nat) {
    forall k, q :: 0 <= k <= i && k < |run| && Inner(c, q) ==> !Ended(run[k], q)
  }

  lemma NotClosing(c: Config, e: State, step: Step, e': State)
    requires WellFormed(c) && Inv(c, e) && Next(c, e, step, e') && step.CloseLock?
    ensures Ended(e', step.p)
  {
    assert Target(step.p) in e.stage && Target(step.p) in e.walk.started;
  }

  lemma WellFormedUnlocked(c: Config)
    requires WellFormed(c)
    ensures WellFormed(Unlocked(c))
  {
  }

  lemma InitUnlocked(c: Config, e: State)
    requires Init(c, e)
    ensures Schedule.Reachable(Unlocked(c), e) && ProbesOuter(c, e)
  {
    assert Init(Unlocked(c), e);
    assert IsRun(Unlocked(c), [e]);
  }

  lemma NextUnlocked(c: Config, e: State, step: Step, e': State)
    requires WellFormed(c) && Enclosing(c) && Inv(c, e) && Next(c, e, step, e')
    requires Schedule.Reachable(Unlocked(c), e) && ProbesOuter(c, e) && forall q :: Inner(c, q) ==> !Ended(e', q)
    ensures Schedule.Reachable(Unlocked(c), e') && ProbesOuter(c, e')
  {
    if step.CloseLock? {
      NotClosing(c, e, step, e');
    }
    var step' := StepUnlocked(c, e, step, e');
    Schedule.ReachableStep(Unlocked(c), e, step', e');
  }

  /** Until an inner composite ends, a run is a run without the inner locks. */
  lemma {:induction false} RunUnlocked(c: Config, run: seq<State>, i: nat)
    requires WellFormed(c) && Enclosing(c) && IsRun(c, run) && i < |run| && NoneEnded(c, run, i)
    ensures Schedule.Reachable(Unlocked(c), run[i]) && ProbesOuter(c, run[i])
  {
    if i == 0 {
      InitUnlocked(c, run[0]);
    } else {
      var j := i - 1;
      RunUnlocked(c, run, j);
      var e, step, e' := Arrives(c, run, j, i);
      NextUnlocked(c, e, step, e');
    }
  }

  ghost predicate HoldsLocks(c: Config, e: State) {
    forall p :: p in e.ses.scopes && S.LockOf(c.sys, p) != NoLock ==> S.LockOf(c.sys, p) in e.ses.held
  }

  /** ... so every open scope has its lock. */
  lemma LocksKept(c: Config, run: seq<State>, i: nat)
    requires WellFormed(c) && Enclosing(c) && IsRun(c, run) && i < |run| && NoneEnded(c, run, i)
    ensures HoldsLocks(c, run[i])
  {
    RunInv(c, run, i);
    RunUnlocked(c, run, i);
    WellFormedUnlocked(c);
    UnlockedNotNested(c);
    forall p | p in run[i].ses.scopes && S.LockOf(c.sys, p) != NoLock
      ensures S.LockOf(c.sys, p) in run[i].ses.held
    {
      var r := Outermost(c, run[i], p);
      LockUnlocked(c, r);
      var run', k := Schedule.RunTo(Unlocked(c), run[i]);
      ScopeHoldsItsLock(Unlocked(c), run', k, r);
    }
  }

  /** The step with which a composite ends. */
  lemma {:induction false} EndingStep(c: Config, run: seq<State>, i: nat, q: Name) returns (j: nat, k: nat)
    requires WellFormed(c) && IsRun(c, run) && i < |run| && q in c.sys.scopes && Ended(run[i], q)
    ensures j + 1 == k < |run| && Next(c, run[j], CloseLock(q), run[k])
  {
    var h := i - 1;
    if Ended(run[h], q) {
      j, k := EndingStep(c, run, h, q);
    } else {
      var e, step, e' := Arrives(c, run, h, i);
      EndedBy(c, e, step, e', q);
      j, k := h, i;
    }
  }

  /** Some scope is left open without its lock once an inner composite has ended. */
  lemma LockLost(c: Config, run: seq<State>, i: nat, q: Name) returns (k: nat)
    requires WellFormed(c) && Enclosing(c) && IsRun(c, run) && i < |run| && Inner(c, q) && Ended(run[i], q)
    ensures k < |run| && !HoldsLocks(c, run[k])
  {
    var p :| Shares(c, p, q);
    assert Within(c, p, q);
    var j;
    j, k := EndingStep(c, run, i, q);
    RunInv(c, run, j);
    ClosingFreesOuter(c, run[j], p, q, run[k]);
  }

  ghost predicate AlwaysHolds(c: Config, run: seq<State>) {
    forall i :: 0 <= i < |run| ==> HoldsLocks(c, run[i])
  }

  /** In a run every open scope holds its lock throughout exactly when no inner composite ends. */
  lemma ScopesKeepLocksIff(c: Config, run: seq<State>)
    requires WellFormed(c) && Enclosing(c) && IsRun(c, run)
    ensures AlwaysHolds(c, run) <==> NoneEnded(c, run, |run|)
  {
    if NoneEnded(c, run, |run|) {
      forall i | 0 <= i < |run|
        ensures HoldsLocks(c, run[i])
      {
        LocksKept(c, run, i);
      }
    } else {
      var i, q :| 0 <= i <= |run| && i < |run| && Inner(c, q) && Ended(run[i], q);
      var k := LockLost(c, run, i, q);
    }
  }
}
