/** The guarantees the locks are for: exclusion inside a run, no lost wake-up, and progress. */
module EngineSafety {
  import opened Nodes
  import opened Digraph
  import opened Engine
  import opened EngineLocks
  import Walk
  import S = Session

  // ---- Exclusion ---------------------------------------------------------------------

  /** No composite that locks is a direct member of a composite with the same lock. */
  ghost predicate NoNestedLock(c: Config) {
    forall q, p {:trigger S.LockOf(c.sys, p), ScopeStart(q)} ::
      p in S.MemberScopes(c.sys, ScopeStart(q)) && S.LockOf(c.sys, q) != NoLock ==>
        S.LockOf(c.sys, p) != S.LockOf(c.sys, q)
  }

  /** v is a leaf target directly inside composite p, with p's lock. */
  predicate SharesLock(c: Config, v: Node, p: Name) {
    && v.Target? && p in S.MemberScopes(c.sys, v)
    && S.Needed(c.sys, v) != NoLock && S.LockOf(c.sys, p) == S.Needed(c.sys, v)
  }

  /** A target that shares the lock of one of its scopes comes before that scope's own vertex. */
  ghost predicate MembersEnd(c: Config) {
    forall v, p {:trigger p in S.MemberScopes(c.sys, v)} | v in c.walk.vertices && SharesLock(c, v, p) ::
      v != Target(p) && Reach(c.walk.edges, v, Target(p))
  }

  predicate AtWork(e: State, v: Node) {
    v in e.stage && (e.stage[v].Running? || e.stage[v].Opened?)
  }

  /** A scope start at work has reserved its composite's lock. */
  ghost predicate StartsAcquired(c: Config, e: State) {
    forall p {:trigger ScopeStart(p)} :: AtWork(e, ScopeStart(p)) && S.LockOf(c.sys, p) != NoLock ==>
      ScopeStart(p) in e.ses.reserved
  }

  /** A target at work that did not reserve its lock is inside an open scope with that lock. */
  ghost predicate BodiesCovered(c: Config, e: State) {
    forall v :: At(e, v, Running) && v.Target? && S.Needed(c.sys, v) != NoLock && v !in e.ses.reserved ==>
      S.Covered(c.sys, e.ses, v, S.Needed(c.sys, v))
  }

  /** Every owned lock is held, and by one owner only. */
  ghost predicate Exclusive(c: Config, e: State) {
    && (forall o, lock :: lock != NoLock && Owns(c, e, o, lock) ==> lock in e.ses.held)
    && (forall o, o', lock :: lock != NoLock && Owns(c, e, o, lock) && Owns(c, e, o', lock) ==> o == o')
  }

  ghost predicate Guarded(c: Config, e: State) {
    StartsAcquired(c, e) && BodiesCovered(c, e) && Exclusive(c, e)
  }

  /** A scope start is never admitted on the strength of an enclosing scope. */
  lemma StartsAcquiredAdmit(c: Config, e: State, step: Step, e': State)
    requires WellFormed(c) && NoNestedLock(c) && Walk.Inv(c.walk, e.walk) && Probing(c, e)
    requires Next(c, e, step, e') && Admitting(step) && StartsAcquired(c, e)
    ensures StartsAcquired(c, e')
  {
    AdmitStep(c, e, step, e');
    var v := Tried(e);
    if step.AdmitCovered? {
      var p :| p in S.MemberScopes(c.sys, v) && S.LockOf(c.sys, p) == S.Needed(c.sys, v);
      assert !v.ScopeStart?;
    }
  }

  lemma StartsAcquiredWork(c: Config, e: State, step: Step, e': State)
    requires Stages(c, e) && Next(c, e, step, e') && !Quiet(step) && !Admitting(step)
    requires StartsAcquired(c, e)
    ensures StartsAcquired(c, e')
  {
    forall p | AtWork(e', ScopeStart(p)) && S.LockOf(c.sys, p) != NoLock
      ensures ScopeStart(p) in e'.ses.reserved
    {
      assert AtWork(e, ScopeStart(p)) && ScopeStart(p) in e.ses.reserved;
    }
  }

  lemma StartsAcquiredStep(c: Config, e: State, step: Step, e': State)
    requires WellFormed(c) && NoNestedLock(c) && Walk.Inv(c.walk, e.walk) && Probing(c, e) && Stages(c, e)
    requires Next(c, e, step, e') && StartsAcquired(c, e)
    ensures StartsAcquired(c, e')
  {
    if Quiet(step) {
      QuietStep(c, e, step, e');
    } else if Admitting(step) {
      StartsAcquiredAdmit(c, e, step, e');
    } else {
      StartsAcquiredWork(c, e, step, e');
    }
  }

  lemma BodiesCoveredAdmit(c: Config, e: State, step: Step, e': State)
    requires WellFormed(c) && Inv(c, e) && Next(c, e, step, e') && Admitting(step) && BodiesCovered(c, e)
    ensures BodiesCovered(c, e')
  {
    AdmitStep(c, e, step, e');
    NotStagedBefore(c, e, Tried(e));
    forall v | At(e', v, Running) && v.Target? && S.Needed(c.sys, v) != NoLock && v !in e'.ses.reserved
      ensures S.Covered(c.sys, e'.ses, v, S.Needed(c.sys, v))
    {
      if v != Tried(e) {
        assert At(e, v, Running);
      }
    }
  }

  /** When a scope closes, none of its members with its lock is still at work. */
  lemma ClosingHasNoMembers(c: Config, e: State, p: Name, v: Node)
    requires WellFormed(c) && MembersEnd(c) && Inv(c, e)
    requires At(e, Target(p), Running) && At(e, v, Running) && v.Target?
    requires S.Needed(c.sys, v) != NoLock && S.LockOf(c.sys, p) == S.Needed(c.sys, v)
    ensures p !in S.MemberScopes(c.sys, v)
  {
    assert Target(p) in e.walk.workers && v in e.walk.workers;
    if p in S.MemberScopes(c.sys, v) {
      Walk.AncestorReleased(c.walk, e.walk, v, Target(p));
    }
  }

  /** The one worker step that closes a scope. */
  lemma BodiesCoveredClose(c: Config, e: State, p: Name, ok: bool, e': State)
    requires WellFormed(c) && MembersEnd(c) && Inv(c, e) && Next(c, e, ScopeBodyDone(p, ok), e')
    requires BodiesCovered(c, e)
    ensures BodiesCovered(c, e')
  {
    forall v | At(e', v, Running) && v.Target? && S.Needed(c.sys, v) != NoLock && v !in e'.ses.reserved
      ensures S.Covered(c.sys, e'.ses, v, S.Needed(c.sys, v))
    {
      assert At(e, v, Running);
      var q :| q in S.MemberScopes(c.sys, v) && q in e.ses.scopes && S.LockOf(c.sys, q) == S.Needed(c.sys, v);
      if q == p {
        ClosingHasNoMembers(c, e, p, v);
      }
      assert q in e'.ses.scopes;
    }
  }

  lemma BodiesCoveredWork(c: Config, e: State, step: Step, e': State)
    requires Next(c, e, step, e') && BodiesCovered(c, e)
    requires !Quiet(step) && !Admitting(step) && !step.ScopeBodyDone?
    ensures BodiesCovered(c, e')
  {
    assert e.ses.scopes <= e'.ses.scopes;
    forall v | At(e', v, Running) && v.Target? && S.Needed(c.sys, v) != NoLock && v !in e'.ses.reserved
      ensures S.Covered(c.sys, e'.ses, v, S.Needed(c.sys, v))
    {
      assert At(e, v, Running) && v !in e.ses.reserved;
    }
  }

  lemma BodiesCoveredStep(c: Config, e: State, step: Step, e': State)
    requires WellFormed(c) && MembersEnd(c) && Inv(c, e) && Next(c, e, step, e') && BodiesCovered(c, e)
    ensures BodiesCovered(c, e')
  {
    if Quiet(step) {
      QuietStep(c, e, step, e');
    } else if Admitting(step) {
      BodiesCoveredAdmit(c, e, step, e');
    } else if step.ScopeBodyDone? {
      BodiesCoveredClose(c, e, step.p, step.ok, e');
    } else {
      BodiesCoveredWork(c, e, step, e');
    }
  }

  lemma OwnersBeforeAdmit(c: Config, e: State, step: Step, e': State, o: Owner, lock: Lock)
    requires WellFormed(c) && Walk.Inv(c.walk, e.walk) && Staged(e) && Stages(c, e)
    requires Next(c, e, step, e') && Admitting(step) && Owns(c, e', o, lock)
    ensures Owns(c, e, o, lock) || (step.AdmitAcquire? && o == ByNode(Tried(e)) && lock == S.Needed(c.sys, Tried(e)))
  {
    AdmitStep(c, e, step, e');
    NotStagedBefore(c, e, Tried(e));
    assert Tried(e) !in e.ses.reserved;
  }

  lemma ExclusiveAdmit(c: Config, e: State, step: Step, e': State)
    requires WellFormed(c) && Walk.Inv(c.walk, e.walk) && Staged(e) && Stages(c, e)
    requires Next(c, e, step, e') && Admitting(step) && Exclusive(c, e)
    ensures Exclusive(c, e')
  {
    AdmitStep(c, e, step, e');
    forall o, lock | lock != NoLock && Owns(c, e', o, lock)
      ensures Owns(c, e, o, lock) || (step.AdmitAcquire? && o == ByNode(Tried(e)) && lock == S.Needed(c.sys, Tried(e)))
    {
      OwnersBeforeAdmit(c, e, step, e', o, lock);
    }
  }

  /** Which owner in the old state an owner in the new state stems from. */
  function Origin(step: Step, o: Owner): Owner {
    if step.OpenScope? && o == ByScope(step.p) then ByNode(ScopeStart(step.p)) else o
  }

  lemma OwnersComeFrom(c: Config, e: State, step: Step, e': State, o: Owner, lock: Lock)
    requires Stages(c, e) && StartsAcquired(c, e) && Next(c, e, step, e')
    requires step.OpenScope? || step.FailOpen? || step.BodyDone? || step.ScopeBodyDone?
    requires step.ScopeBodyDone? ==> step.p in e.ses.scopes
    requires lock != NoLock && Owns(c, e', o, lock)
    ensures Owns(c, e, Origin(step, o), lock)
    ensures step.OpenScope? ==> o != ByNode(ScopeStart(step.p))
  {
  }

  lemma ExclusiveHandOver(c: Config, e: State, step: Step, e': State)
    requires WellFormed(c) && Inv(c, e) && StartsAcquired(c, e) && Next(c, e, step, e') && Exclusive(c, e)
    requires step.OpenScope? || step.FailOpen? || step.BodyDone? || step.ScopeBodyDone?
    ensures Exclusive(c, e')
  {
    if step.ScopeBodyDone? {
      assert Target(step.p) in e.walk.workers;
      StartSucceeded(c, e, step.p);
    }
    forall o, lock | lock != NoLock && Owns(c, e', o, lock)
      ensures Owns(c, e, Origin(step, o), lock)
      ensures step.OpenScope? ==> o != ByNode(ScopeStart(step.p))
    {
      OwnersComeFrom(c, e, step, e', o, lock);
    }
  }

  /** The lock a returning worker frees, and the owner it leaves. */
  function Freed(c: Config, e: State, step: Step): (Owner, Lock)
    requires step.DropLock? ==> step.v in e.stage && e.stage[step.v].Dropping?
  {
    match step
    case DropLock(v) => (ByNode(v), e.stage[v].lock)
    case CloseLock(p) => (ByScope(p), S.LockOf(c.sys, p))
    case _ => (ByNode(Nil), NoLock)
  }

  lemma OwnersBeforeReturn(c: Config, e: State, step: Step, e': State, o: Owner, lock: Lock)
    requires Stages(c, e) && Next(c, e, step, e') && Returning(step)
    requires step.CloseLock? ==> step.p !in e.ses.scopes
    requires lock != NoLock && Owns(c, e', o, lock)
    ensures Owns(c, e, o, lock)
    ensures Freed(c, e, step).1 != NoLock ==>
      o != Freed(c, e, step).0 && Owns(c, e, Freed(c, e, step).0, Freed(c, e, step).1)
  {
    match step
    case ForgetStart(p) => ReturnStep(c, e, ScopeStart(p), true, e'.ses, e');
    case DropLock(v) => ReturnStep(c, e, v, e.stage[v].ok, e'.ses, e');
    case BarrierDone(v) => ReturnStep(c, e, v, true, e'.ses, e');
    case CloseLock(p) => ReturnStep(c, e, Target(p), e.stage[Target(p)].ok, e'.ses, e');
  }

  lemma HeldAfterReturn(c: Config, e: State, step: Step, e': State)
    requires Next(c, e, step, e') && Returning(step)
    ensures e'.ses.held ==
      if Freed(c, e, step).1 == NoLock then e.ses.held else e.ses.held - {Freed(c, e, step).1}
  {
  }

  lemma ExclusiveReturn(c: Config, e: State, step: Step, e': State)
    requires WellFormed(c) && Inv(c, e) && Next(c, e, step, e') && Returning(step) && Exclusive(c, e)
    ensures Exclusive(c, e')
  {
    HeldAfterReturn(c, e, step, e');
    if step.CloseLock? {
      assert Target(step.p) in e.walk.workers && !At(e, Target(step.p), Running);
      assert HasClosed(e, step.p);
    }
    forall o, lock | lock != NoLock && Owns(c, e', o, lock)
      ensures Owns(c, e, o, lock) && lock in e'.ses.held
    {
      OwnersBeforeReturn(c, e, step, e', o, lock);
    }
  }

  lemma ExclusiveQuiet(c: Config, e: State, e': State)
    requires Untouched(e, e') && Exclusive(c, e)
    ensures Exclusive(c, e')
  {
    forall o, lock | Owns(c, e', o, lock)
      ensures Owns(c, e, o, lock)
    {
    }
  }

  lemma ExclusiveStep(c: Config, e: State, step: Step, e': State)
    requires WellFormed(c) && Inv(c, e) && StartsAcquired(c, e) && Next(c, e, step, e') && Exclusive(c, e)
    ensures Exclusive(c, e')
  {
    if Quiet(step) {
      QuietStep(c, e, step, e');
      ExclusiveQuiet(c, e, e');
    } else if Admitting(step) {
      ExclusiveAdmit(c, e, step, e');
    } else if Returning(step) {
      ExclusiveReturn(c, e, step, e');
    } else {
      ExclusiveHandOver(c, e, step, e');
    }
  }

  lemma GuardedStep(c: Config, e: State, step: Step, e': State)
    requires WellFormed(c) && NoNestedLock(c) && MembersEnd(c) && Inv(c, e) && Next(c, e, step, e')
    requires Guarded(c, e)
    ensures Guarded(c, e')
  {
    StartsAcquiredStep(c, e, step, e');
    BodiesCoveredStep(c, e, step, e');
    ExclusiveStep(c, e, step, e');
  }

  lemma {:induction false} RunGuarded(c: Config, run: seq<State>, i: nat)
    requires WellFormed(c) && NoNestedLock(c) && MembersEnd(c) && IsRun(c, run) && i < |run|
    ensures Guarded(c, run[i])
  {
    if i > 0 {
      var j := i - 1;
      RunGuarded(c, run, j);
      var e, step, e' := Arrives(c, run, j, i);
      GuardedStep(c, e, step, e');
    }
  }

  /** Whoever owns a lock owns it alone, even where members outlast their scope. */
  lemma {:induction false} RunExclusive(c: Config, run: seq<State>, i: nat)
    requires WellFormed(c) && NoNestedLock(c) && IsRun(c, run) && i < |run|
    ensures StartsAcquired(c, run[i]) && Exclusive(c, run[i])
  {
    if i > 0 {
      var j := i - 1;
      RunExclusive(c, run, j);
      var e, step, e' := Arrives(c, run, j, i);
      StartsAcquiredStep(c, e, step, e');
      ExclusiveStep(c, e, step, e');
    }
  }

  /** A leaf target whose own work is in progress and that declares the lock. */
  ghost predicate WorksUnder(c: Config, e: State, v: Node, lock: Lock) {
    && At(e, v, Running) && v.Target? && v.name !in c.sys.scopes
    && v.name in c.sys.locks && c.sys.locks[v.name] == lock && lock != NoLock
  }

  /** Two targets with the same lock are at work together only inside one open scope that owns it. */
  lemma MutualExclusion(c: Config, run: seq<State>, i: nat, u: Node, v: Node, lock: Lock) returns (p: Name)
    requires WellFormed(c) && NoNestedLock(c) && MembersEnd(c) && IsRun(c, run) && i < |run|
    requires u != v && WorksUnder(c, run[i], u, lock) && WorksUnder(c, run[i], v, lock)
    ensures p in run[i].ses.scopes && S.LockOf(c.sys, p) == lock
    ensures p in S.MemberScopes(c.sys, u) && p in S.MemberScopes(c.sys, v)
  {
    RunInv(c, run, i);
    RunGuarded(c, run, i);
    var e := run[i];
    var ou := OwnerFor(c, e, u, lock);
    var ov := OwnerFor(c, e, v, lock);
    assert ou == ov;
    p := ou.p;
  }

  /** The owner under which a target works: itself, or a scope it is a member of. */
  lemma OwnerFor(c: Config, e: State, v: Node, lock: Lock) returns (o: Owner)
    requires Stages(c, e) && BodiesCovered(c, e) && WorksUnder(c, e, v, lock)
    ensures Owns(c, e, o, lock)
    ensures o == ByNode(v) || (o.ByScope? && o.p in e.ses.scopes && o.p in S.MemberScopes(c.sys, v))
  {
    if v in e.ses.reserved {
      o := ByNode(v);
    } else {
      var p :| p in S.MemberScopes(c.sys, v) && p in e.ses.scopes && S.LockOf(c.sys, p) == lock;
      o := ByScope(p);
    }
  }

  /** While a scope is open its lock is held and no other open scope has it. */
  lemma ScopeHoldsItsLock(c: Config, run: seq<State>, i: nat, p: Name)
    requires WellFormed(c) && NoNestedLock(c) && IsRun(c, run) && i < |run|
    requires p in run[i].ses.scopes && S.LockOf(c.sys, p) != NoLock
    ensures OnlyScope(c, run[i], p)
  {
    RunExclusive(c, run, i);
    var e, lock := run[i], S.LockOf(c.sys, p);
    assert Owns(c, e, ByScope(p), lock);
    forall q | q in e.ses.scopes && S.LockOf(c.sys, q) == lock
      ensures q == p
    {
      assert Owns(c, e, ByScope(q), lock);
    }
  }

  /** While a scope is open its lock is held, no other open scope has it, and only its own members
      work under it. */
  lemma ScopeKeepsItsLock(c: Config, run: seq<State>, i: nat, p: Name)
    requires WellFormed(c) && NoNestedLock(c) && MembersEnd(c) && IsRun(c, run) && i < |run|
    requires p in run[i].ses.scopes && S.LockOf(c.sys, p) != NoLock
    ensures S.LockOf(c.sys, p) in run[i].ses.held
    ensures forall q :: q in run[i].ses.scopes && S.LockOf(c.sys, q) == S.LockOf(c.sys, p) ==> q == p
    ensures forall v :: WorksUnder(c, run[i], v, S.LockOf(c.sys, p)) ==> p in S.MemberScopes(c.sys, v)
  {
    RunInv(c, run, i);
    RunGuarded(c, run, i);
    ScopeHoldsItsLock(c, run, i, p);
    var e, lock := run[i], S.LockOf(c.sys, p);
    assert Owns(c, e, ByScope(p), lock);
    forall v | WorksUnder(c, e, v, lock)
      ensures p in S.MemberScopes(c.sys, v)
    {
      var o := OwnerFor(c, e, v, lock);
    }
  }

  // ---- Deeper nesting ------------------------------------------------------------------

  /** q opens inside p, needs p's lock, and is not a direct child of p. */
  ghost predicate BuriedIn(c: Config, p: Name, q: Name) {
    && p != q && S.LockOf(c.sys, p) == S.LockOf(c.sys, q) != NoLock && p !in S.MemberScopes(c.sys, ScopeStart(q))
    && ScopeStart(p) in c.walk.vertices
    && Reach(c.walk.edges, ScopeStart(p), ScopeStart(q)) && Reach(c.walk.edges, ScopeStart(q), Target(p))
  }

  /** When q could be tried, p is open. */
  lemma OuterIsOpen(c: Config, e: State, e': State, p: Name, q: Name)
    requires WellFormed(c) && Inv(c, e) && Walk.Inv(c.walk, e'.walk) && BuriedIn(c, p, q)
    requires ScopeStart(q) in e'.walk.started && e'.walk.succeeded == e.walk.succeeded
    requires ScopeStart(q) !in e.walk.started
    ensures p in e.ses.scopes
  {
    Walk.AncestorReleased(c.walk, e'.walk, ScopeStart(p), ScopeStart(q));
    if Target(p) in e.walk.started {
      Walk.AncestorReleased(c.walk, e.walk, ScopeStart(q), Target(p));
    }
    assert HasOpened(e, p) && !HasClosed(e, p);
  }

  /** While the scope that holds q's lock is open, q is not admitted. */
  lemma BuriedStays(c: Config, e: State, step: Step, e': State, p: Name, q: Name)
    requires WellFormed(c) && Inv(c, e) && Walk.Inv(c.walk, e'.walk) && Next(c, e, step, e') && BuriedIn(c, p, q)
    requires p in e.ses.scopes ==> OnlyScope(c, e, p)
    requires ScopeStart(q) !in e.walk.started
    ensures ScopeStart(q) !in e'.walk.started
  {
    var v := ScopeStart(q);
    if v in e'.walk.started {
      StartedByAdmission(c, e, step, e', v);
      AdmitStep(c, e, step, e');
      OuterIsOpen(c, e, e', p, q);
      LockRefuses(c, e, step, e', p);
    }
  }

  /** p's lock is held, and no other open scope has it. */
  ghost predicate OnlyScope(c: Config, e: State, p: Name) {
    && S.LockOf(c.sys, p) in e.ses.held
    && forall r :: r in e.ses.scopes && S.LockOf(c.sys, r) == S.LockOf(c.sys, p) ==> r == p
  }

  lemma StartedByAdmission(c: Config, e: State, step: Step, e': State, v: Node)
    requires Next(c, e, step, e') && v in e'.walk.started && v !in e.walk.started
    ensures Admitting(step)
  {
    var ws := StepRefinesWalk(c, e, step, e');
    if !ws.Admit? {
      Walk.OnlyAdmitAdds(c.walk, e.walk, ws, e'.walk);
    }
  }

  /** A node that is not a member of the one open scope holding its lock is not admitted. */
  lemma LockRefuses(c: Config, e: State, step: Step, e': State, p: Name)
    requires Probing(c, e) && Next(c, e, step, e') && Scanning(e) && S.Needed(c.sys, Tried(e)) != NoLock
    requires p !in S.MemberScopes(c.sys, Tried(e)) && S.LockOf(c.sys, p) == S.Needed(c.sys, Tried(e))
    requires OnlyScope(c, e, p)
    ensures !Admitting(step)
  {
  }

  lemma OnlyScopeInRun(c: Config, run: seq<State>, i: nat, p: Name)
    requires WellFormed(c) && NoNestedLock(c) && IsRun(c, run) && i < |run|
    requires S.LockOf(c.sys, p) != NoLock
    ensures p in run[i].ses.scopes ==> OnlyScope(c, run[i], p)
  {
    if p in run[i].ses.scopes {
      ScopeHoldsItsLock(c, run, i, p);
    }
  }

  /** A composite buried two or more levels inside another with the same lock never opens, whatever
      the schedule ... */
  lemma {:induction false} BuriedNeverOpens(c: Config, run: seq<State>, i: nat, p: Name, q: Name)
    requires WellFormed(c) && NoNestedLock(c) && IsRun(c, run) && i < |run| && BuriedIn(c, p, q)
    ensures ScopeStart(q) !in run[i].walk.started
  {
    if i > 0 {
      var j := i - 1;
      BuriedNeverOpens(c, run, j, p, q);
      OnlyScopeInRun(c, run, j, p);
      var e, step, e' := Arrives(c, run, j, i);
      BuriedStays(c, e, step, e', p, q);
    }
  }

  /** ... so no run of such a graph succeeds. */
  lemma BuriedNeverSucceeds(c: Config, run: seq<State>, i: nat, p: Name, q: Name)
    requires WellFormed(c) && NoNestedLock(c) && IsRun(c, run) && i < |run| && BuriedIn(c, p, q)
    requires ScopeStart(q) in c.walk.vertices
    ensures run[i].walk.pc != Walk.Returned(Walk.Success)
  {
    BuriedNeverOpens(c, run, i, p, q);
    RunInv(c, run, i);
  }

  // ---- Scopes that must overlap --------------------------------------------------------------

  /** Two composites with one lock, each of which must open before the other can end. */
  ghost predicate Interlocked(c: Config, p: Name, q: Name) {
    && p != q && S.LockOf(c.sys, p) == S.LockOf(c.sys, q) != NoLock
    && p in c.sys.scopes && q in c.sys.scopes
    && ScopeStart(p) in c.walk.vertices && ScopeStart(q) in c.walk.vertices
    && Reach(c.walk.edges, ScopeStart(p), Target(q)) && Reach(c.walk.edges, ScopeStart(q), Target(p))
  }

  /** The scope start of q has just returned: q is open, and so is p if it ever was. */
  lemma SecondOpens(c: Config, run: seq<State>, j: nat, i: nat, p: Name, q: Name)
    requires WellFormed(c) && NoNestedLock(c) && IsRun(c, run) && j + 1 == i < |run| && Interlocked(c, p, q)
    requires ScopeStart(q) in run[i].walk.succeeded && ScopeStart(q) !in run[j].walk.succeeded
    ensures ScopeStart(p) !in run[i].walk.succeeded
  {
    if ScopeStart(p) in run[i].walk.succeeded {
      var e, step, e' := Arrives(c, run, j, i);
      var ws := StepRefinesWalk(c, e, step, e');
      Walk.SuccessStep(c.walk, e.walk, ws, e'.walk, ScopeStart(q));
      if Target(p) in e'.walk.started {
        Walk.AncestorReleased(c.walk, e'.walk, ScopeStart(q), Target(p));
        assert false;
      }
      if Target(q) in e'.walk.started {
        var r := StartEdge(c, q);
        Walk.AncestorReleased(c.walk, e'.walk, ScopeStart(q), Target(q));
        assert false;
      }
      ScopeHoldsItsLock(c, run, i, p);
      assert false;
    }
  }

  lemma StartEdge(c: Config, q: Name) returns (u: Node)
    requires WellFormed(c) && ScopeStart(q) in c.walk.vertices
    ensures u == ScopeStart(q) && Reach(c.walk.edges, u, Target(q)) && u != Target(q)
  {
    u := ScopeStart(q);
  }

  lemma {:induction false} NeverBothOpened(c: Config, run: seq<State>, i: nat, p: Name, q: Name)
    requires WellFormed(c) && NoNestedLock(c) && IsRun(c, run) && i < |run| && Interlocked(c, p, q)
    ensures ScopeStart(p) !in run[i].walk.succeeded || ScopeStart(q) !in run[i].walk.succeeded
    decreases i
  {
    if i > 0 {
      var j := i - 1;
      NeverBothOpened(c, run, j, p, q);
      if ScopeStart(q) in run[i].walk.succeeded && ScopeStart(q) !in run[j].walk.succeeded {
        SecondOpens(c, run, j, i, p, q);
      }
      if ScopeStart(p) in run[i].walk.succeeded && ScopeStart(p) !in run[j].walk.succeeded {
        SecondOpens(c, run, j, i, q, p);
      }
    }
  }

  /** Interlocked composites never both open, so no run succeeds. */
  lemma InterlockedNeverSucceeds(c: Config, run: seq<State>, i: nat, p: Name, q: Name)
    requires WellFormed(c) && NoNestedLock(c) && IsRun(c, run) && i < |run| && Interlocked(c, p, q)
    ensures run[i].walk.pc != Walk.Returned(Walk.Success)
  {
    NeverBothOpened(c, run, i, p, q);
    RunInv(c, run, i);
  }

  // ---- Wake-ups -------------------------------------------------------------------------

  /** v needs a lock that is held now, or Walk's channel has been closed since it looked. */
  ghost predicate Refused(c: Config, e: State, v: Node) {
    S.Needed(c.sys, v) != NoLock && (S.Needed(c.sys, v) in e.ses.held || e.fetched < e.ses.gen)
  }

  ghost predicate HasRoom(c: Config, e: State) {
    e.walk.firstErr.None? && !e.walk.ctxDone && |e.walk.workers| < Walk.Limit(c.walk)
  }

  ghost predicate Wakeful(c: Config, e: State) {
    && e.fetched <= e.ses.gen
    && (e.walk.pc.Scan? ==>
          forall j :: 0 <= j < e.walk.pc.i && j < |e.walk.ready| ==> Refused(c, e, e.walk.ready[j]))
    && (e.walk.pc.Wait? && HasRoom(c, e) ==> forall v :: v in e.walk.ready ==> Refused(c, e, v))
  }

  lemma WakefulWalkStep(c: Config, e: State, ws: Walk.Step<Node>, e': State)
    requires Walk.Inv(c.walk, e.walk) && Wakeful(c, e) && Next(c, e, WalkStep(ws), e')
    ensures Wakeful(c, e')
  {
    assert forall v :: Refused(c, e', v) <==> Refused(c, e, v);
  }

  lemma WakefulFrees(c: Config, e: State, step: Step, e': State)
    requires Wakeful(c, e) && Next(c, e, step, e') && (step.DropLock? || step.CloseLock?)
    ensures Wakeful(c, e')
  {
    assert forall v :: Refused(c, e, v) ==> Refused(c, e', v);
  }

  lemma WakefulRefuse(c: Config, e: State, e': State)
    requires Probing(c, e) && Wakeful(c, e) && Next(c, e, RefuseHeld, e')
    ensures Wakeful(c, e')
  {
    assert e'.walk.ready == e.walk.ready && Refused(c, e, Tried(e));
    assert forall v :: Refused(c, e', v) <==> Refused(c, e, v);
  }

  /** An admission or a wake-up sends Walk back to the head of its loop. */
  lemma WakefulLoop(c: Config, e: State, step: Step, e': State)
    requires Wakeful(c, e) && Next(c, e, step, e') && (Admitting(step) || step.WakeUp?)
    ensures Wakeful(c, e')
  {
  }

  /** Only two worker steps free a lock. */
  lemma LocksKept(c: Config, e: State, step: Step, e': State)
    requires Next(c, e, step, e') && ByWorker(step) && !step.DropLock? && !step.CloseLock?
    ensures e'.ses.held == e.ses.held && e'.ses.gen == e.ses.gen && e'.fetched == e.fetched
  {
  }

  /** A worker step that frees no lock: what was refused still is. */
  lemma WakefulWork(c: Config, e: State, e': State)
    requires Wakeful(c, e)
    requires e'.ses.held == e.ses.held && e'.ses.gen == e.ses.gen && e'.fetched == e.fetched
    requires e'.walk.pc == e.walk.pc && e'.walk.ready == e.walk.ready && (HasRoom(c, e') <==> HasRoom(c, e))
    ensures Wakeful(c, e')
  {
    assert forall v :: Refused(c, e', v) <==> Refused(c, e, v);
  }

  lemma WorkersKept(c: Config, e: State, step: Step, e': State)
    requires Next(c, e, step, e') && ByWorker(step)
    ensures HasRoom(c, e') <==> HasRoom(c, e)
    ensures e'.walk.pc == e.walk.pc && e'.walk.ready == e.walk.ready
  {
    var ws := StepRefinesWalk(c, e, step, e');
    WalkKeepsWorkers(c.walk, e.walk, ws, e'.walk);
  }

  lemma WalkKeepsWorkers(c: Walk.Config<Node>, w: Walk.State<Node>, ws: Walk.Step<Node>, w': Walk.State<Node>)
    requires Walk.Next(c, w, ws, w') && (ws.RunReturns? || ws.Elsewhere?)
    ensures |w'.workers| == |w.workers| && w'.firstErr == w.firstErr && w'.ctxDone == w.ctxDone
    ensures w'.pc == w.pc && w'.ready == w.ready
  {
    if ws.RunReturns? {
      Walk.SameWorkers(w.workers, ws.v, Walk.Exited(ws.ok));
    }
  }

  lemma WakefulStep(c: Config, e: State, step: Step, e': State)
    requires Walk.Inv(c.walk, e.walk) && Probing(c, e) && Wakeful(c, e) && Next(c, e, step, e')
    ensures Wakeful(c, e')
  {
    if step.WalkStep? {
      WakefulWalkStep(c, e, step.step, e');
    } else if step.DropLock? || step.CloseLock? {
      WakefulFrees(c, e, step, e');
    } else if step.RefuseHeld? {
      WakefulRefuse(c, e, e');
    } else if Admitting(step) || step.WakeUp? {
      WakefulLoop(c, e, step, e');
    } else if !step.ProbeFails? {
      LocksKept(c, e, step, e');
      WorkersKept(c, e, step, e');
      WakefulWork(c, e, e');
    }
  }

  lemma {:induction false} RunWakeful(c: Config, run: seq<State>, i: nat)
    requires WellFormed(c) && IsRun(c, run) && i < |run|
    ensures Wakeful(c, run[i])
  {
    if i > 0 {
      var j := i - 1;
      RunWakeful(c, run, j);
      var e, step, e' := Arrives(c, run, j, i);
      WakefulStep(c, e, step, e');
    }
  }

  /** If Walk waits although it could start more, each ready vertex was refused for a lock, and
      that lock is still held or the channel Walk waits on has already been closed. */
  lemma NoLostWakeup(c: Config, run: seq<State>, i: nat, v: Node)
    requires WellFormed(c) && IsRun(c, run) && i < |run|
    requires run[i].walk.pc.Wait? && HasRoom(c, run[i]) && v in run[i].walk.ready
    ensures S.Needed(c.sys, v) != NoLock
    ensures S.Needed(c.sys, v) in run[i].ses.held || run[i].fetched < run[i].ses.gen
  {
    RunWakeful(c, run, i);
    assert Refused(c, run[i], v);
  }

  /** An idle wait with no wake-up pending is caused by open scopes alone. */
  lemma IdleWaitNeedsOpenScope(c: Config, run: seq<State>, i: nat, v: Node) returns (p: Name)
    requires WellFormed(c) && IsRun(c, run) && i < |run|
    requires run[i].walk.pc.Wait? && run[i].walk.workers == map[] && !run[i].walk.ctxDone
    requires run[i].fetched == run[i].ses.gen && v in run[i].walk.ready
    ensures p in run[i].ses.scopes && S.LockOf(c.sys, p) == S.Needed(c.sys, v) != NoLock
  {
    RunInv(c, run, i);
    NoLostWakeup(c, run, i, v);
    OnlyScopesBlockIdleWalk(c, run[i], S.Needed(c.sys, v));
    p :| p in run[i].ses.scopes && S.LockOf(c.sys, p) == S.Needed(c.sys, v);
  }

  // ---- Progress ---------------------------------------------------------------------------

  ghost predicate OnlyLeavesLock(c: Config) {
    forall p :: p in c.sys.scopes ==> S.LockOf(c.sys, p) == NoLock
  }

  /** With nothing running, no lock is held, so whatever is ready can start. */
  lemma NothingHeldWhenIdle(c: Config, e: State)
    requires OnlyLeavesLock(c) && Inv(c, e) && e.walk.workers == map[]
    ensures e.ses.held == {}
  {
    forall lock | lock in e.ses.held
      ensures false
    {
      OnlyScopesBlockIdleWalk(c, e, lock);
    }
  }

  ghost predicate NeverIdle(w: Walk.State<Node>) {
    && (w.pc.Scan? && w.workers == map[] ==> w.pc.i == 0)
    && (w.pc.Wait? ==> w.workers != map[])
  }

  lemma NeverIdleWalk(c: Walk.Config<Node>, w: Walk.State<Node>, ws: Walk.Step<Node>, w': Walk.State<Node>)
    requires Walk.Control(c, w) && NeverIdle(w) && Walk.Next(c, w, ws, w')
    requires ws.Refuse? ==> w.workers != map[]
    ensures NeverIdle(w')
  {
  }

  lemma NeverIdleStep(c: Config, e: State, step: Step, e': State)
    requires OnlyLeavesLock(c) && Inv(c, e) && NeverIdle(e.walk) && Next(c, e, step, e')
    ensures NeverIdle(e'.walk)
  {
    var ws := StepRefinesWalk(c, e, step, e');
    if ws.Refuse? && e.walk.workers == map[] {
      NothingHeldWhenIdle(c, e);
    }
    NeverIdleWalk(c.walk, e.walk, ws, e'.walk);
  }

  lemma {:induction false} RunNeverIdle(c: Config, run: seq<State>, i: nat)
    requires WellFormed(c) && OnlyLeavesLock(c) && IsRun(c, run) && i < |run|
    ensures NeverIdle(run[i].walk)
  {
    if i > 0 {
      var j := i - 1;
      RunNeverIdle(c, run, j);
      var e, step, e' := Arrives(c, run, j, i);
      NeverIdleStep(c, e, step, e');
    }
  }

  /** If only leaf targets declare locks, Walk never waits with nothing running, and whenever
      nothing is running any node it tries can be started. */
  lemma LeafLocksNeverBlockIdleWalk(c: Config, run: seq<State>, i: nat, v: Node)
    requires WellFormed(c) && OnlyLeavesLock(c) && IsRun(c, run) && i < |run|
    ensures run[i].walk.pc.Wait? ==> run[i].walk.workers != map[]
    ensures run[i].walk.workers == map[] ==> S.Needed(c.sys, v) !in run[i].ses.held
  {
    RunInv(c, run, i);
    RunNeverIdle(c, run, i);
    if run[i].walk.workers == map[] {
      NothingHeldWhenIdle(c, run[i]);
    }
  }
}
