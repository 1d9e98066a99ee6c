/** internal/runner/session.go and the lock manager of internal/runner/scheduler.go: who holds
    which lock, which scopes are open and which reservations are recorded. The pure functions say
    what one critical section does to that state; each method is proved to compose them. */
module Session {
  import opened Nodes

  /** What the session reads of the execution graph and the plan. */
  datatype System = System(scopes: set<Name>, locks: map<Name, Lock>, members: map<Node, set<Name>>)

  function LockOf(sys: System, name: Name): Lock {
    if name in sys.locks then sys.locks[name] else NoLock
  }

  function MemberScopes(sys: System, node: Node): set<Name> {
    if node in sys.members then sys.members[node] else {}
  }

  /** The lock that must be reserved before a node may run; scope ends and barriers need none. */
  function Needed(sys: System, node: Node): Lock {
    match node
    case ScopeStart(p) => LockOf(sys, p)
    case Target(n) => if n in sys.scopes then NoLock else LockOf(sys, n)
    case _ => NoLock
  }

  /** held and gen are the lock manager: gen numbers the current wait channel, so the channel
      numbered g is closed exactly when g < gen. */
  datatype State = State(held: set<Lock>, gen: nat, scopes: set<Name>, reserved: map<Node, Lock>)

  /** lockHeldByActiveScope for the member scopes of a node. */
  predicate Covered(sys: System, s: State, node: Node, lock: Lock) {
    exists p | p in MemberScopes(sys, node) :: p in s.scopes && LockOf(sys, p) == lock
  }

  function Acquire(s: State, node: Node, lock: Lock): State {
    s.(held := s.held + {lock}, reserved := s.reserved[node := lock])
  }

  function Release(s: State, lock: Lock): State {
    if lock == NoLock then s else s.(held := s.held - {lock}, gen := s.gen + 1)
  }

  function Forget(s: State, node: Node): State {
    s.(reserved := s.reserved - {node})
  }

  function Reserved(s: State, node: Node): Lock {
    if node in s.reserved then s.reserved[node] else NoLock
  }

  function Open(s: State, p: Name): State {
    s.(scopes := s.scopes + {p})
  }

  function Close(s: State, p: Name): State {
    s.(scopes := s.scopes - {p})
  }

  class LockManager {
    var held: set<Lock>
    var wait: nat

    constructor ()
      ensures held == {} && wait == 0
    {
      held, wait := {}, 0;
    }

    method TryAcquire(lock: Lock) returns (ok: bool)
      modifies this`held
      ensures ok <==> lock == NoLock || lock !in old(held)
      ensures held == if ok && lock != NoLock then old(held) + {lock} else old(held)
    {
      if lock == NoLock {
        return true;
      }
      if lock in held {
        return false;
      }
      held := held + {lock};
      return true;
    }

    /** Frees the lock, closes the current channel and installs a new one. */
    method Release(lock: Lock)
      modifies this
      ensures lock == NoLock ==> held == old(held) && wait == old(wait)
      ensures lock != NoLock ==> held == old(held) - {lock} && wait == old(wait) + 1
    {
      if lock == NoLock {
        return;
      }
      held := held - {lock};
      wait := wait + 1;
    }

    method Changed() returns (channel: nat)
      ensures channel == wait
    {
      return wait;
    }
  }

  class RunSession {
    const sys: System
    const locks: LockManager
    var scopeCtx: set<Name>
    var scopeCancel: set<Name>
    var reservedLock: map<Node, Lock>

    constructor (sys: System)
      ensures Valid() && this.sys == sys && fresh(locks)
      ensures View() == State({}, 0, {}, map[])
    {
      this.sys := sys;
      locks := new LockManager();
      scopeCtx, scopeCancel, reservedLock := {}, {}, map[];
    }

    /** Every open scope has its cancel function. */
    ghost predicate Valid()
      reads this
    {
      scopeCtx == scopeCancel
    }

    ghost function View(): State
      reads this, locks
    {
      State(locks.held, locks.wait, scopeCtx, reservedLock)
    }

    method LockHeldByActiveScope(lock: Lock, node: Node) returns (held: bool)
      ensures held <==> Covered(sys, View(), node, lock)
    {
      var todo := MemberScopes(sys, node);
      while todo != {}
        invariant todo <= MemberScopes(sys, node)
        invariant forall p :: p in MemberScopes(sys, node) && p !in todo ==>
          p !in scopeCtx || LockOf(sys, p) != lock
      {
        var scope :| scope in todo;
        todo := todo - {scope};
        if scope !in scopeCtx {
          continue;
        }
        if LockOf(sys, scope) == lock {
          return true;
        }
      }
      return false;
    }

    method TryReserveLock(node: Node, lock: Lock) returns (ok: bool)
      requires Valid()
      modifies this`reservedLock, locks
      ensures Valid()
      ensures ok <==> lock == NoLock || Covered(sys, old(View()), node, lock) || lock !in old(View()).held
      ensures View() ==
        if lock == NoLock || Covered(sys, old(View()), node, lock) || lock in old(View()).held
        then old(View()) else Acquire(old(View()), node, lock)
    {
      if lock == NoLock {
        return true;
      }
      var covered := LockHeldByActiveScope(lock, node);
      if covered {
        return true;
      }
      var acquired := locks.TryAcquire(lock);
      if !acquired {
        return false;
      }
      reservedLock := reservedLock[node := lock];
      return true;
    }

    method TryReserveExecutionNode(node: Node) returns (ok: bool)
      requires Valid()
      modifies this`reservedLock, locks
      ensures Valid()
      ensures var lock := Needed(sys, node);
        && (ok <==> lock == NoLock || Covered(sys, old(View()), node, lock) || lock !in old(View()).held)
        && View() ==
           if lock == NoLock || Covered(sys, old(View()), node, lock) || lock in old(View()).held
           then old(View()) else Acquire(old(View()), node, lock)
    {
      if node.ScopeStart? {
        ok := TryReserveLock(node, LockOf(sys, node.name));
        return;
      }
      if node.Barrier? || (node.Target? && node.name in sys.scopes) {
        return true;
      }
      if node.Target? {
        ok := TryReserveLock(node, LockOf(sys, node.name));
        return;
      }
      return true;
    }

    method StartScope(p: Name)
      requires Valid()
      modifies this`scopeCtx, this`scopeCancel
      ensures Valid() && View() == Open(old(View()), p)
    {
      if p in scopeCtx {
        return;
      }
      scopeCtx, scopeCancel := scopeCtx + {p}, scopeCancel + {p};
    }

    method FinishScope(p: Name)
      requires Valid()
      modifies this`scopeCtx, this`scopeCancel, locks
      ensures Valid() && View() == Release(Close(old(View()), p), LockOf(sys, p))
    {
      scopeCtx, scopeCancel := scopeCtx - {p}, scopeCancel - {p};
      locks.Release(LockOf(sys, p));
    }

    method ReleaseExecutionNode(node: Node)
      requires Valid()
      modifies this`reservedLock, locks
      ensures Valid() && View() == Release(Forget(old(View()), node), Reserved(old(View()), node))
    {
      var lock := if node in reservedLock then reservedLock[node] else NoLock;
      reservedLock := reservedLock - {node};
      locks.Release(lock);
    }

    method ForgetExecutionNodeReservation(node: Node)
      requires Valid()
      modifies this`reservedLock
      ensures Valid() && View() == Forget(old(View()), node)
    {
      reservedLock := reservedLock - {node};
    }

    /** Closes every open scope and frees its lock; nothing else is freed. */
    method CloseActiveScopes()
      requires Valid()
      modifies this`scopeCtx, this`scopeCancel, locks
      ensures Valid() && View().scopes == {} && View().reserved == old(View()).reserved
      ensures View().held == old(View()).held - LocksOf(sys, old(View()).scopes)
      ensures forall lock :: lock in View().held <==>
        lock in old(View()).held
        && !(lock != NoLock && exists p :: p in old(View()).scopes && p in sys.locks && sys.locks[p] == lock)
    {
      var names := scopeCancel;
      ghost var active := scopeCancel;
      var toFree: seq<Lock> := [];
      while names != {}
        invariant names <= active
        invariant forall l :: l in toFree <==> exists p :: p in active && p !in names && LockOf(sys, p) == l
      {
        var name :| name in names;
        names := names - {name};
        toFree := toFree + [LockOf(sys, name)];
      }
      scopeCtx, scopeCancel := {}, {};
      var i := 0;
      ghost var was := locks.held;
      while i < |toFree|
        invariant 0 <= i <= |toFree|
        invariant forall l :: l in locks.held <==> l in was && (l == NoLock || l !in toFree[..i])
        modifies locks
      {
        locks.Release(toFree[i]);
        assert toFree[..i + 1] == toFree[..i] + [toFree[i]];
        i := i + 1;
      }
      assert toFree[..i] == toFree;
    }

    /** runExecutionNode, run by itself. described stands for targetOperation succeeding and runOk
        for runOne; a scope start leaves its scope open and its lock held. */
    method RunExecutionNode(node: Node, described: bool, runOk: bool) returns (ok: bool)
      requires Valid()
      modifies this, locks
      ensures Valid()
      ensures node.ScopeStart? ==>
        && ok == described
        && View() == if described then Forget(Open(old(View()), node.name), node)
                     else Release(Forget(old(View()), node), Reserved(old(View()), node))
      ensures node.Barrier? || node.Nil? ==> ok && View() == old(View())
      ensures node.Target? && node.name in sys.scopes ==>
        ok == runOk && View() == Release(Close(old(View()), node.name), LockOf(sys, node.name))
      ensures node.Target? && node.name !in sys.scopes ==>
        ok == runOk && View() == Release(Forget(old(View()), node), Reserved(old(View()), node))
    {
      if node.ScopeStart? {
        if !described {
          ReleaseExecutionNode(node);
          return false;
        }
        StartScope(node.name);
        ForgetExecutionNodeReservation(node);
        return true;
      }
      if node.Barrier? || node.Nil? {
        return true;
      }
      if node.name in sys.scopes {
        FinishScope(node.name);
        return runOk;
      }
      ReleaseExecutionNode(node);
      return runOk;
    }
  }

  /** The locks of a set of scopes. */
  ghost function LocksOf(sys: System, scopes: set<Name>): set<Lock> {
    set p | p in scopes && LockOf(sys, p) != NoLock :: LockOf(sys, p)
  }
}
