/** What the finished execution graph guarantees. */
module BuildResults {
  import opened Nodes
  import opened Digraph
  import opened Wrappers
  import opened Insertion
  import opened BuildSpec
  import opened BuildInvariant
  import opened BuildSafety
  import Planner

  // ---- The build never fails on a plan ------------------------------------------------------

  /** What the planner establishes: everything a target names is planned, at an earlier position. */
  ghost predicate Ranked(t: Shape, order: seq<Name>) {
    t.Keys == Elems(order) && KidsFirst(t, order)
  }

  ghost predicate KidsFirst(t: Shape, order: seq<Name>) {
    forall n, k :: KidFirst(t, order, n, k)
  }

  ghost predicate KidFirst(t: Shape, order: seq<Name>, n: Name, k: Name) {
    n in t && k in Kids(t[n]) ==> k in t && Planner.Position(order, k) < Planner.Position(order, n)
  }

  /** Every target in progress comes after n in the plan. */
  ghost predicate Below(order: seq<Name>, visiting: set<Name>, n: Name) {
    forall v :: v in visiting ==> Planner.Position(order, n) < Planner.Position(order, v)
  }

  lemma {:induction false} VisitSucceeds(t: Shape, order: seq<Name>, b: B, visiting: set<Name>, n: Name)
    requires Ranked(t, order) && n in t && Below(order, visiting, n)
    ensures Visit(t, b, visiting, n).Some?
    decreases t.Keys - visiting, 0, 0
  {
    if n !in b.closed {
      var inside := visiting + {n};
      var b0 := AddTarget(b, n);
      DepsSucceed(t, order, b0, inside, n, |t[n].deps|);
      var b1 := Deps(t, b0, inside, n, |t[n].deps|).value;
      PipelineSucceeds(t, order, b1, inside, n);
      GroupSucceeds(t, order, AddPipeline(t, b1, inside, n).value, inside, n);
    }
  }

  ghost predicate Top(order: seq<Name>, visiting: set<Name>, n: Name) {
    forall v :: v in visiting ==> Planner.Position(order, n) <= Planner.Position(order, v)
  }

  lemma {:induction false} DepsSucceed(t: Shape, order: seq<Name>, b: B, visiting: set<Name>, n: Name, i: nat)
    requires Ranked(t, order) && n in t && Top(order, visiting, n) && i <= |t[n].deps|
    ensures Deps(t, b, visiting, n, i).Some?
    decreases t.Keys - visiting, 1, i
  {
    if i > 0 {
      DepsSucceed(t, order, b, visiting, n, i - 1);
      var k := t[n].deps[i - 1];
      assert k in Kids(t[n]) && KidFirst(t, order, n, k);
      VisitSucceeds(t, order, Deps(t, b, visiting, n, i - 1).value, visiting, k);
    }
  }

  lemma {:induction false} StepsSucceed(t: Shape, order: seq<Name>, b: B, visiting: set<Name>, n: Name, i: nat)
    requires Ranked(t, order) && n in t && Top(order, visiting, n) && i <= |t[n].steps|
    ensures Steps(t, b, visiting, n, i).Some?
    decreases t.Keys - visiting, 1, i
  {
    if i > 0 {
      StepsSucceed(t, order, b, visiting, n, i - 1);
      var k := t[n].steps[i - 1];
      assert k in Kids(t[n]) && KidFirst(t, order, n, k);
      VisitSucceeds(t, order, Steps(t, b, visiting, n, i - 1).value, visiting, k);
    }
  }

  lemma {:induction false} MembersSucceed(t: Shape, order: seq<Name>, b: B, visiting: set<Name>, n: Name, i: nat)
    requires Ranked(t, order) && n in t && Top(order, visiting, n) && i <= |t[n].members|
    ensures Members(t, b, visiting, n, i).Some?
    decreases t.Keys - visiting, 1, i
  {
    if i > 0 {
      MembersSucceed(t, order, b, visiting, n, i - 1);
      var k := t[n].members[i - 1];
      assert k in Kids(t[n]) && KidFirst(t, order, n, k);
      VisitSucceeds(t, order, Members(t, b, visiting, n, i - 1).value, visiting, k);
    }
  }

  lemma {:induction false} PipelineSucceeds(t: Shape, order: seq<Name>, b: B, visiting: set<Name>, n: Name)
    requires Ranked(t, order) && n in t && Top(order, visiting, n)
    ensures AddPipeline(t, b, visiting, n).Some?
    decreases t.Keys - visiting, 2, 0
  {
    StepsSucceed(t, order, OpenScope(t, b, n), visiting, n, |t[n].steps|);
  }

  lemma {:induction false} GroupSucceeds(t: Shape, order: seq<Name>, b: B, visiting: set<Name>, n: Name)
    requires Ranked(t, order) && n in t && Top(order, visiting, n)
    ensures AddGroup(t, b, visiting, n).Some?
    decreases t.Keys - visiting, 2, 0
  {
    MembersSucceed(t, order, OpenScope(t, b, n), visiting, n, |t[n].members|);
  }

  /** buildExecutionGraph never fails on a plan the planner has accepted. */
  lemma {:induction false} BuildSucceeds(t: Shape, order: seq<Name>, requested: seq<Name>)
    requires Ranked(t, order) && forall n :: n in requested ==> n in t
    ensures Build(t, requested).Some?
  {
    if requested != [] {
      var init := requested[..|requested| - 1];
      BuildSucceeds(t, order, init);
      VisitSucceeds(t, order, Build(t, init).value, {}, requested[|requested| - 1]);
    }
  }

  /** The graph after each requested target satisfies the invariant. */
  lemma {:induction false} BuildKeeps(t: Shape, requested: seq<Name>)
    requires Build(t, requested).Some?
    ensures Inv(t, Build(t, requested).value, {})
    ensures forall n :: n in requested ==> n in Build(t, requested).value.closed
  {
    if requested != [] {
      var init := requested[..|requested| - 1];
      BuildKeeps(t, init);
      VisitKeeps(t, Build(t, init).value, {}, requested[|requested| - 1]);
      InitLast(requested);
    }
  }

  // ---- Order around scopes ------------------------------------------------------------------------

  /** Dependencies come before the target, and before its scope opens. */
  lemma DependencyPrecedes(t: Shape, b: B, n: Name, d: Name)
    requires Inv(t, b, {}) && n in b.closed && d in t[n].deps
    ensures (Target(d), Target(n)) in b.edges && (Target(d), Root(t, n)) in b.edges
  {
    assert Finished(t, b, n);
    var i :| 0 <= i < |t[n].deps| && t[n].deps[i] == d;
    assert DepDone(t, b, n, i);
  }

  /** A group's vertex comes after everything any of its members needs. */
  lemma GroupWaitsForMembers(t: Shape, b: B, g: Name, m: Name, x: Name)
    requires Inv(t, b, {}) && g in b.closed && m in t[g].members && x in Cl(t, m)
    ensures (Target(x), Target(g)) in b.edges
  {
    assert Finished(t, b, g);
    var i :| 0 <= i < |t[g].members| && t[g].members[i] == m;
    assert MemberDone(t, b, g, i);
  }

  /** The scope of a composite opens before the composite's own vertex. */
  lemma StartPrecedesEnd(t: Shape, b: B, p: Name)
    requires Inv(t, b, {}) && p in b.closed && HasScope(t[p])
    ensures (ScopeStart(p), Target(p)) in b.edges
  {
    assert Finished(t, b, p);
  }

  /** The first step that needs x. */
  lemma {:induction false} FirstStep(t: Shape, p: Name, i: nat, x: Name) returns (j: nat)
    requires p in t && i < |t[p].steps| && x in Cl(t, t[p].steps[i]) && x !in Closures(t, t[p].deps)
    ensures j <= i && x in Cl(t, t[p].steps[j]) && x !in Prev(t, p, j)
    decreases i
  {
    if x in Prev(t, p, i) {
      InClosures(t, t[p].steps[..i], x);
      var n :| n in t[p].steps[..i] && x in Cl(t, n);
      var k :| 0 <= k < i && t[p].steps[..i][k] == n;
      j := FirstStep(t, p, k, x);
    } else {
      j := i;
    }
  }

  /** The members of a scope are exactly the targets that its children need and its dependencies do
      not; each is ordered with respect to the scope's start. */
  lemma MembershipExact(t: Shape, b: B, p: Name, x: Name)
    requires Inv(t, b, {}) && p in b.closed
    ensures (Target(x), p) in b.members <==>
      (exists kid :: kid in Children(t[p]) && x in Cl(t, kid)) && x !in Closures(t, t[p].deps)
    ensures (Target(x), p) in b.members ==> Comparable(b.edges, ScopeStart(p), Target(x))
  {
    if (Target(x), p) in b.members {
      var kid :| kid in Children(t[p]) && Enters(t, b.closed, kid, Target(x));
    }
    if exists kid :: kid in Children(t[p]) && x in Cl(t, kid) && x !in Closures(t, t[p].deps) {
      var kid :| kid in Children(t[p]) && x in Cl(t, kid) && x !in Closures(t, t[p].deps);
      ChildJoins(t, b, p, kid, x);
    }
  }

  lemma ChildJoins(t: Shape, b: B, p: Name, kid: Name, x: Name)
    requires Inv(t, b, {}) && p in b.closed
    requires kid in Children(t[p]) && x in Cl(t, kid) && x !in Closures(t, t[p].deps)
    ensures (Target(x), p) in b.members && Comparable(b.edges, ScopeStart(p), Target(x))
  {
    assert Finished(t, b, p);
    if kid in t[p].steps {
      var i :| 0 <= i < |t[p].steps| && t[p].steps[i] == kid;
      var j := FirstStep(t, p, i, x);
      assert StepDone(t, b, p, j);
      assert Target(x) in Fresh(t, t[p].steps[j], Prev(t, p, j));
    } else {
      var i :| 0 <= i < |t[p].members| && t[p].members[i] == kid;
      assert MemberDone(t, b, p, i);
      assert Target(x) in Fresh(t, kid, Closures(t, t[p].deps));
    }
  }

  // ---- Order along a pipeline -----------------------------------------------------------------------

  /** Everything a step needs comes before the step's barrier. */
  lemma StepPrecedesBarrier(t: Shape, b: B, p: Name, i: nat, x: Name)
    requires Inv(t, b, {}) && p in b.closed && i < |t[p].steps| && x in Cl(t, t[p].steps[i])
    ensures (Target(x), Barrier(p, i)) in b.edges
  {
    assert Finished(t, b, p) && StepDone(t, b, p, i);
  }

  /** Barrier i leads to barrier i + 1 exactly when it kept some outgoing edge. */
  lemma BarrierLink(t: Shape, b: B, p: Name, i: nat)
    requires Inv(t, b, {}) && p in b.closed && i + 1 < |t[p].steps|
    ensures Reach(b.edges, Barrier(p, i), Barrier(p, i + 1)) <==> !NoOut(b.edges, Barrier(p, i))
  {
    var here, next := Barrier(p, i), Barrier(p, i + 1);
    if Reach(b.edges, here, next) {
      var v := ReachFirst(b.edges, here, next);
    } else if !NoOut(b.edges, here) {
      var v :| (here, v) in b.edges;
      BarrierEntrant(t, b, p, i, v);
      EntrantLeadsOn(t, b, p, i + 1, v);
      ReachCons(b.edges, here, v, next);
    }
  }

  lemma BarrierEntrant(t: Shape, b: B, p: Name, i: nat, v: Node)
    requires Inv(t, b, {}) && p in t && i + 1 < |t[p].steps| && (Barrier(p, i), v) in b.edges
    ensures Enters(t, b.closed, t[p].steps[i + 1], v)
  {
    assert Justified(t, b.closed, Barrier(p, i), v);
  }

  lemma EntrantLeadsOn(t: Shape, b: B, p: Name, i: nat, v: Node)
    requires Inv(t, b, {}) && p in b.closed && i < |t[p].steps| && Enters(t, b.closed, t[p].steps[i], v)
    ensures Reach(b.edges, v, Barrier(p, i))
  {
    var step := t[p].steps[i];
    ClSelf(t, step);
    StepPrecedesBarrier(t, b, p, i, step);
    ReachEdge(b.edges, Target(step), Barrier(p, i));
    if v.Target? {
      StepPrecedesBarrier(t, b, p, i, v.name);
      ReachEdge(b.edges, v, Barrier(p, i));
    } else {
      StartPrecedesEnd(t, b, step);
      ReachCons(b.edges, v, Target(step), Barrier(p, i));
    }
  }

  /** From barrier i on, no barrier lost all its edges. */
  ghost predicate Chained(t: Shape, b: B, p: Name, i: nat)
    requires p in t
  {
    forall j :: i <= j < |t[p].steps| - 1 ==> !NoOut(b.edges, Barrier(p, j))
  }

  lemma {:induction false} ChainLeadsToEnd(t: Shape, b: B, p: Name, i: nat)
    requires Inv(t, b, {}) && p in b.closed && i < |t[p].steps| && Chained(t, b, p, i)
    ensures Reach(b.edges, Barrier(p, i), Target(p))
    decreases |t[p].steps| - i
  {
    assert Finished(t, b, p);
    if i == |t[p].steps| - 1 {
      ReachEdge(b.edges, Barrier(p, i), Target(p));
    } else {
      BarrierLink(t, b, p, i);
      ChainLeadsToEnd(t, b, p, i + 1);
      ReachTrans(b.edges, Barrier(p, i), Barrier(p, i + 1), Target(p));
    }
  }

  /** Every barrier comes before the pipeline's own vertex exactly when each but the last kept an
      outgoing edge. */
  lemma BarriersPrecedeEndIff(t: Shape, b: B, p: Name)
    requires Inv(t, b, {}) && p in b.closed
    ensures (forall i :: 0 <= i < |t[p].steps| ==> Reach(b.edges, Barrier(p, i), Target(p))) <==> Chained(t, b, p, 0)
  {
    if Chained(t, b, p, 0) {
      forall i | 0 <= i < |t[p].steps|
        ensures Reach(b.edges, Barrier(p, i), Target(p))
      {
        ChainLeadsToEnd(t, b, p, i);
      }
    }
    forall i | 0 <= i < |t[p].steps| - 1 && Reach(b.edges, Barrier(p, i), Target(p))
      ensures !NoOut(b.edges, Barrier(p, i))
    {
      var v := ReachFirst(b.edges, Barrier(p, i), Target(p));
    }
  }

  /** ... and then so does everything its steps need. */
  lemma StepsPrecedeEnd(t: Shape, b: B, p: Name, i: nat, x: Name)
    requires Inv(t, b, {}) && p in b.closed && Chained(t, b, p, 0)
    requires i < |t[p].steps| && x in Cl(t, t[p].steps[i])
    ensures Reach(b.edges, Target(x), Target(p))
  {
    StepPrecedesBarrier(t, b, p, i, x);
    ChainLeadsToEnd(t, b, p, i);
    ReachCons(b.edges, Target(x), Barrier(p, i), Target(p));
  }

  /** Other composites overlapping p only as a whole: what step i needs for the first time comes
      after everything the step before it needs. */
  lemma StepsInSequence(t: Shape, b: B, p: Name, i: nat, y: Name, x: Name)
    requires Inv(t, b, {}) && p in b.closed && Nested(t, p) && 0 < i < |t[p].steps|
    requires y in Cl(t, t[p].steps[i - 1]) && x in Cl(t, t[p].steps[i]) && x !in Prev(t, p, i)
    ensures Reach(b.edges, Target(y), Target(x))
  {
    assert Finished(t, b, p) && StepDone(t, b, p, i);
    StepPrecedesBarrier(t, b, p, i - 1, y);
    assert Target(x) in Fresh(t, t[p].steps[i], Prev(t, p, i));
    ReachEdge(b.edges, Barrier(p, i - 1), Target(x));
    ReachCons(b.edges, Target(y), Barrier(p, i - 1), Target(x));
  }

  /** If, besides, each step after the first is new, the pipeline ends after all of its steps. */
  lemma NestedPipelineEndsLast(t: Shape, b: B, p: Name, i: nat, x: Name)
    requires Inv(t, b, {}) && p in b.closed && Nested(t, p)
    requires forall j :: 0 < j < |t[p].steps| ==> t[p].steps[j] !in Prev(t, p, j)
    requires i < |t[p].steps| && x in Cl(t, t[p].steps[i])
    ensures Reach(b.edges, Target(x), Target(p))
  {
    assert Finished(t, b, p);
    forall j | 0 <= j < |t[p].steps| - 1
      ensures !NoOut(b.edges, Barrier(p, j))
    {
      assert StepDone(t, b, p, j + 1);
      ClSelf(t, t[p].steps[j + 1]);
      assert Target(t[p].steps[j + 1]) in Fresh(t, t[p].steps[j + 1], Prev(t, p, j + 1));
      assert (Barrier(p, j), Target(t[p].steps[j + 1])) in b.edges;
    }
    StepsPrecedeEnd(t, b, p, i, x);
  }

  /** With linked barriers the pipeline ends last. */
  lemma ChainedEndsLast(t: Shape, b: B, p: Name)
    requires Inv(t, b, {}) && p in b.closed && Chained(t, b, p, 0)
    ensures EndsLast(t, b.edges, p)
  {
    forall i, x | 0 <= i < |t[p].steps| && x in Cl(t, t[p].steps[i])
      ensures Reach(b.edges, Target(x), Target(p))
    {
      StepsPrecedeEnd(t, b, p, i, x);
    }
  }

  /** Members of a scope finish before its end, provided the pipeline ends last. */
  lemma MembersPrecedeEnd(t: Shape, b: B, p: Name, x: Name)
    requires Inv(t, b, {}) && p in b.closed && EndsLast(t, b.edges, p) && (Target(x), p) in b.members
    ensures Reach(b.edges, Target(x), Target(p))
  {
    var kid :| kid in Children(t[p]) && Enters(t, b.closed, kid, Target(x));
    if kid in t[p].steps {
      var i :| 0 <= i < |t[p].steps| && t[p].steps[i] == kid;
    } else {
      GroupWaitsForMembers(t, b, p, kid, x);
      ReachEdge(b.edges, Target(x), Target(p));
    }
  }

  // ---- One pipeline and no other composite --------------------------------------------------------

  /** Every sequence edge the builder asks for is in the graph. */
  ghost predicate NoneSuppressed(t: Shape, edges: set<(Node, Node)>, p: Name)
    requires p in t
  {
    forall i | 0 < i < |t[p].steps| :: forall v | v in Fresh(t, t[p].steps[i], Prev(t, p, i)) + {Root(t, t[p].steps[i])} ::
      (Barrier(p, i - 1), v) in edges
  }

  /** Step i is something the pipeline's own dependencies have already completed. */
  ghost predicate Stale(t: Shape, p: Name, i: nat)
    requires p in t && i < |t[p].steps|
  {
    t[p].steps[i] in Closures(t, t[p].deps)
  }

  lemma AloneIsNested(t: Shape, p: Name)
    requires p in t && Alone(t, p)
    ensures Nested(t, p)
  {
  }

  lemma LoneStepIsLeaf(t: Shape, p: Name, i: nat)
    requires p in t && Alone(t, p) && Acyclic(Feeds(t)) && i < |t[p].steps|
    ensures Root(t, t[p].steps[i]) == Target(t[p].steps[i]) && Start(t, t[p].steps[i]) == {}
    ensures t[p].steps[i] != p
  {
    var s := t[p].steps[i];
    assert s in Kids(t[p]) && (s, p) in Feeds(t);
    ReachRefl(Feeds(t), p);
  }

  lemma LoneEdgeKept(t: Shape, b: B, p: Name, i: nat, v: Node)
    requires Inv(t, b, {}) && p in b.closed && Alone(t, p) && Acyclic(Feeds(t)) && 0 < i < |t[p].steps|
    requires v in Fresh(t, t[p].steps[i], Prev(t, p, i)) + {Root(t, t[p].steps[i])}
    requires Stale(t, p, i) ==> Stale(t, p, i - 1)
    ensures (Barrier(p, i - 1), v) in b.edges
  {
    assert Finished(t, b, p) && StepDone(t, b, p, i);
    AloneIsNested(t, p);
    LoneStepIsLeaf(t, p, i);
    NotInPrev(t, p, i);
    ClSelf(t, t[p].steps[i]);
    if !Stale(t, p, i) {
      assert Target(t[p].steps[i]) in Fresh(t, t[p].steps[i], Prev(t, p, i));
    }
  }

  /** A sequence edge is suppressed exactly when a step that the dependencies already need comes right
      after one that they do not. */
  lemma LoneSequenceIff(t: Shape, b: B, p: Name)
    requires Inv(t, b, {}) && p in b.closed && Alone(t, p) && Acyclic(Feeds(t))
    ensures NoneSuppressed(t, b.edges, p) <==>
      forall i :: 0 < i < |t[p].steps| && Stale(t, p, i) ==> Stale(t, p, i - 1)
  {
    if NoneSuppressed(t, b.edges, p) {
      forall i | 0 < i < |t[p].steps| && Stale(t, p, i)
        ensures Stale(t, p, i - 1)
      {
        LoneStepIsLeaf(t, p, i);
        var v := Target(t[p].steps[i]);
        assert v in Fresh(t, t[p].steps[i], Prev(t, p, i)) + {Root(t, t[p].steps[i])};
        assert Justified(t, b.closed, Barrier(p, i - 1), v);
      }
    }
    if forall i :: 0 < i < |t[p].steps| && Stale(t, p, i) ==> Stale(t, p, i - 1) {
      forall i, v | 0 < i < |t[p].steps| && v in Fresh(t, t[p].steps[i], Prev(t, p, i)) + {Root(t, t[p].steps[i])}
        ensures (Barrier(p, i - 1), v) in b.edges
      {
        LoneEdgeKept(t, b, p, i, v);
      }
    }
  }

  /** When it fails at step i, the barrier before step i leads nowhere. */
  lemma StaleStepBreaksChain(t: Shape, b: B, p: Name, i: nat)
    requires Inv(t, b, {}) && p in b.closed && Alone(t, p) && Acyclic(Feeds(t)) && 0 < i < |t[p].steps|
    requires Stale(t, p, i) && !Stale(t, p, i - 1)
    ensures NoOut(b.edges, Barrier(p, i - 1))
  {
    var barrier := Barrier(p, i - 1);
    forall v
      ensures (barrier, v) !in b.edges
    {
      if (barrier, v) in b.edges {
        assert Justified(t, b.closed, barrier, v);
        LoneStepIsLeaf(t, p, i);
        DoneDown(t, p, v.name, t[p].steps[i]);
      }
    }
  }

  /** Where a step that the dependencies already need comes right after one that they do not, some later
      step needs the earlier of the two again. */
  ghost predicate GapsBridged(t: Shape, p: Name)
    requires p in t
  {
    forall i :: 0 < i < |t[p].steps| && Stale(t, p, i) && !Stale(t, p, i - 1) ==> Bridged(t, p, i)
  }

  ghost predicate Bridged(t: Shape, p: Name, i: nat)
    requires p in t && 0 < i < |t[p].steps|
  {
    exists j :: i < j < |t[p].steps| && t[p].steps[i - 1] in Cl(t, t[p].steps[j])
  }

  /** Everything that the steps of p need comes before the vertex of p. */
  ghost predicate EndsLast(t: Shape, edges: set<(Node, Node)>, p: Name)
    requires p in t
  {
    forall i, x :: 0 <= i < |t[p].steps| && x in Cl(t, t[p].steps[i]) ==> Reach(edges, Target(x), Target(p))
  }

  lemma {:induction false} BridgedEndsLast(t: Shape, b: B, p: Name, i: nat, x: Name)
    requires Inv(t, b, {}) && p in b.closed && Alone(t, p) && Acyclic(Feeds(t)) && GapsBridged(t, p)
    requires i < |t[p].steps| && x in Cl(t, t[p].steps[i])
    ensures Reach(b.edges, Target(x), Target(p))
    decreases |t[p].steps| - i
  {
    var next := i + 1;
    StepPrecedesBarrier(t, b, p, i, x);
    ReachEdge(b.edges, Target(x), Barrier(p, i));
    if next == |t[p].steps| {
      assert Finished(t, b, p);
      ReachSnoc(b.edges, Target(x), Barrier(p, i), Target(p));
    } else if Stale(t, p, next) && !Stale(t, p, i) {
      assert Bridged(t, p, next);
      var j :| next < j < |t[p].steps| && t[p].steps[i] in Cl(t, t[p].steps[j]);
      ReachTrans(Feeds(t), x, t[p].steps[i], t[p].steps[j]);
      BridgedEndsLast(t, b, p, j, x);
    } else {
      LoneStepIsLeaf(t, p, next);
      LoneEdgeKept(t, b, p, next, Root(t, t[p].steps[next]));
      ClSelf(t, t[p].steps[next]);
      BridgedEndsLast(t, b, p, next, t[p].steps[next]);
      ReachSnoc(b.edges, Target(x), Barrier(p, i), Target(t[p].steps[next]));
      ReachTrans(b.edges, Target(x), Target(t[p].steps[next]), Target(p));
    }
  }

  /** The targets that need z, other than p, and the barrier after step i - 1. */
  ghost predicate Cut(t: Shape, p: Name, i: nat, z: Name, v: Node) {
    (v.Target? && z in Cl(t, v.name) && v.name != p) || (i > 0 && v == Barrier(p, i - 1))
  }

  /** Nothing leads out of the cut, so the step before the gap does not lead to the end. */
  lemma CutIsClosed(t: Shape, b: B, p: Name, i: nat, u: Node, v: Node)
    requires Inv(t, b, {}) && p in b.closed && Alone(t, p) && Acyclic(Feeds(t)) && 0 < i < |t[p].steps|
    requires Stale(t, p, i) && !Stale(t, p, i - 1) && !Bridged(t, p, i)
    requires (u, v) in b.edges && Cut(t, p, i, t[p].steps[i - 1], u)
    ensures Cut(t, p, i, t[p].steps[i - 1], v)
  {
    var z := t[p].steps[i - 1];
    StaleStepBreaksChain(t, b, p, i);
    assert Justified(t, b.closed, u, v);
    var x := u.name;
    if v.Target? {
      DepNotNeeding(t, p, z, x);
      assert x in Kids(t[v.name]) && (x, v.name) in Feeds(t);
      ReachSnoc(Feeds(t), z, x, v.name);
    } else if v.ScopeStart? {
      assert x in t[v.name].deps;
      assert Known(t, b.closed, v);
      DepNotNeeding(t, p, z, x);
      assert false;
    } else {
      assert Known(t, b.closed, v) && v.name == p;
      ReachTrans(Feeds(t), z, x, t[p].steps[v.index]);
      OnlyThatBarrier(t, p, i, v.index);
    }
  }

  /** What the dependencies have not completed is needed by none of them. */
  lemma DepNotNeeding(t: Shape, p: Name, z: Name, x: Name)
    requires p in t && z !in Closures(t, t[p].deps) && z in Cl(t, x)
    ensures x !in t[p].deps
  {
    InClosures(t, t[p].deps, z);
  }

  lemma OnlyThatBarrier(t: Shape, p: Name, i: nat, k: nat)
    requires p in t && Alone(t, p) && 0 < i < |t[p].steps| && k < |t[p].steps|
    requires Stale(t, p, i) && !Stale(t, p, i - 1) && !Bridged(t, p, i)
    requires t[p].steps[i - 1] in Cl(t, t[p].steps[k])
    ensures k == i - 1
  {
    if k == i {
      DoneDown(t, p, t[p].steps[i - 1], t[p].steps[i]);
    }
  }

  lemma GapLosesStep(t: Shape, b: B, p: Name, i: nat)
    requires Inv(t, b, {}) && p in b.closed && Alone(t, p) && Acyclic(Feeds(t)) && 0 < i < |t[p].steps|
    requires Stale(t, p, i) && !Stale(t, p, i - 1) && !Bridged(t, p, i)
    ensures !Reach(b.edges, Target(t[p].steps[i - 1]), Target(p))
  {
    var z := t[p].steps[i - 1];
    var cut := set v | v in b.vertices && Cut(t, p, i, z, v);
    forall u, v | (u, v) in b.edges && u in cut
      ensures v in cut
    {
      CutIsClosed(t, b, p, i, u, v);
    }
    ClSelf(t, z);
    LoneStepIsLeaf(t, p, i - 1);
    assert Finished(t, b, p) && StepDone(t, b, p, i - 1);
    StepPrecedesBarrier(t, b, p, i - 1, z);
    assert Target(z) in cut;
    if Reach(b.edges, Target(z), Target(p)) {
      ReachStaysIn(b.edges, cut, Target(z), Target(p));
    }
  }

  /** A lone pipeline ends after everything its steps need exactly when every gap is bridged. */
  lemma LonePipelineEndsLastIff(t: Shape, b: B, p: Name)
    requires Inv(t, b, {}) && p in b.closed && Alone(t, p) && Acyclic(Feeds(t))
    ensures EndsLast(t, b.edges, p) <==> GapsBridged(t, p)
  {
    if GapsBridged(t, p) {
      forall i, x | 0 <= i < |t[p].steps| && x in Cl(t, t[p].steps[i])
        ensures Reach(b.edges, Target(x), Target(p))
      {
        BridgedEndsLast(t, b, p, i, x);
      }
    } else {
      var i :| 0 < i < |t[p].steps| && Stale(t, p, i) && !Stale(t, p, i - 1) && !Bridged(t, p, i);
      GapLosesStep(t, b, p, i);
      ClSelf(t, t[p].steps[i - 1]);
    }
  }

  /** In particular it does when no sequence edge is suppressed. */
  lemma StaleFirstEndsLast(t: Shape, b: B, p: Name)
    requires Inv(t, b, {}) && p in b.closed && Alone(t, p) && Acyclic(Feeds(t))
    requires forall j :: 0 < j < |t[p].steps| && Stale(t, p, j) ==> Stale(t, p, j - 1)
    ensures NoneSuppressed(t, b.edges, p) && EndsLast(t, b.edges, p)
  {
    LoneSequenceIff(t, b, p);
    LonePipelineEndsLastIff(t, b, p);
  }

  /** A target that names nothing needs only itself. */
  lemma LeafClosure(t: Shape, n: Name)
    requires n in t ==> Kids(t[n]) == []
    ensures Cl(t, n) == {n}
  {
    ClSelf(t, n);
    assert PredClosed(Feeds(t), {n});
    forall y | y in Cl(t, n)
      ensures y == n
    {
      ReachComesFrom(Feeds(t), {n}, y, n);
    }
  }
}
