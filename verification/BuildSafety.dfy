/** Every step of the graph build keeps the invariant of BuildInvariant. */
module BuildSafety {
  import opened Nodes
  import opened Digraph
  import opened Wrappers
  import opened Insertion
  import opened BuildSpec
  import opened BuildInvariant

  // ---- The two insertions ---------------------------------------------------------------

  lemma StarSound(t: Shape, b: B, visiting: set<Name>, from: Node, tos: set<Node>)
    requires Sound(t, b, visiting) && from in b.vertices && tos <= b.vertices
    requires forall v :: v in tos ==> Reach(b.edges, v, from) || Justified(t, b.closed, from, v)
    ensures Sound(t, b.(edges := Star(b.edges, from, tos)), visiting)
  {
    StarAcyclic(b.edges, from, tos);
  }

  lemma IntoSound(t: Shape, b: B, visiting: set<Name>, froms: set<Node>, to: Node)
    requires Sound(t, b, visiting) && to in b.vertices && froms <= b.vertices
    requires NoOut(b.edges, to) && to !in froms
    requires forall u :: u in froms ==> Justified(t, b.closed, u, to)
    ensures Sound(t, b.(edges := Into(b.edges, froms, to)), visiting)
  {
    IntoAcyclic(b.edges, froms, to);
  }

  lemma VertexSound(t: Shape, b: B, visiting: set<Name>, v: Node)
    requires Sound(t, b, visiting) && Known(t, b.closed + visiting, v)
    ensures Sound(t, b.(vertices := b.vertices + {v}), visiting)
  {
  }

  lemma MembersSound(t: Shape, b: B, visiting: set<Name>, vs: set<Node>, p: Name)
    requires Sound(t, b, visiting) && ScopeStart(p) in b.vertices
    requires forall v :: v in vs ==> MemberFor(t, b.closed, v, p)
    ensures Sound(t, b.(members := Joined(b, vs, p)), visiting)
  {
  }

  /** A target whose closure is not finished has no outgoing edge. */
  lemma OpenTargetIsSink(t: Shape, b: B, visiting: set<Name>, n: Name)
    requires Sound(t, b, visiting) && n !in b.closed
    ensures NoOut(b.edges, Target(n))
  {
  }

  /** The same graph with more promises kept. */
  lemma SoundKeepsInv(t: Shape, b: B, b': B, visiting: set<Name>)
    requires Inv(t, b, visiting) && Sound(t, b', visiting) && Extends(b, b') && b'.closed == b.closed
    ensures Inv(t, b', visiting)
  {
    AllFinishedGrow(t, b, b');
  }

  lemma ClosedVertices(t: Shape, b: B, visiting: set<Name>, n: Name)
    requires Inv(t, b, visiting) && n in b.closed
    ensures Targets(Cl(t, n)) <= b.vertices && Start(t, n) <= b.vertices && Root(t, n) in b.vertices
    ensures Cl(t, n) <= b.closed
  {
    ClClosed(t, b.closed, n);
    ClSelf(t, n);
    forall v | v in Targets(Cl(t, n))
      ensures v in b.vertices
    {
      assert Finished(t, b, v.name);
    }
    assert Finished(t, b, n);
  }

  // ---- Targets, dependencies and scope starts ----------------------------------------------

  /** The only vertex a target in progress has so far is its own. */
  ghost predicate Bare(b: B, n: Name) {
    Target(n) in b.vertices && forall v :: v in b.vertices && OwnedBy(v, {n}) ==> v == Target(n)
  }

  lemma AddTargetKeeps(t: Shape, b: B, visiting: set<Name>, n: Name)
    requires Inv(t, b, visiting) && n in t && n !in b.closed && n !in visiting
    ensures Inv(t, AddTarget(b, n), visiting + {n}) && Extends(b, AddTarget(b, n))
    ensures Spares(b, AddTarget(b, n), visiting) && Bare(AddTarget(b, n), n)
  {
    var b' := AddTarget(b, n);
    assert Sound(t, b', visiting + {n});
    AllFinishedGrow(t, b, b');
  }

  lemma AddDepKeeps(t: Shape, b: B, visiting: set<Name>, n: Name, i: nat)
    requires Inv(t, b, visiting) && n in visiting && Target(n) in b.vertices
    requires i < |t[n].deps| && t[n].deps[i] in b.closed
    ensures var b' := AddDep(b, n, t[n].deps[i]);
      Inv(t, b', visiting) && Extends(b, b') && DepDone(t, b', n, i) && b'.vertices == b.vertices
  {
    var d := t[n].deps[i];
    assert d in Kids(t[n]);
    ClKid(t, d, n);
    ClosedVertices(t, b, visiting, d);
    ClSelf(t, d);
    OpenTargetIsSink(t, b, visiting, n);
    IntoSound(t, b, visiting, {Target(d)}, Target(n));
    IntoGrows(b.edges, {Target(d)}, Target(n));
    SoundKeepsInv(t, b, AddDep(b, n, d), visiting);
  }

  lemma OpenScopeKeeps(t: Shape, b: B, visiting: set<Name>, p: Name)
    requires Inv(t, b, visiting) && p in visiting && HasScope(t[p])
    requires forall d :: d in t[p].deps ==> d in b.closed
    requires ScopeStart(p) !in b.vertices || Opened(t, b, p)
    ensures var b' := OpenScope(t, b, p);
      && Inv(t, b', visiting) && Extends(b, b') && Opened(t, b', p)
      && b'.vertices == b.vertices + {ScopeStart(p)}
  {
    var b1 := b.(vertices := b.vertices + {ScopeStart(p)});
    var b' := OpenScope(t, b, p);
    VertexSound(t, b, visiting, ScopeStart(p));
    var froms := Targets(Elems(t[p].deps));
    IntoGrows(b.edges, froms, ScopeStart(p));
    if ScopeStart(p) in b.vertices {
      SameEdges(b.edges, froms, ScopeStart(p));
    } else {
      forall u | u in froms
        ensures u in b1.vertices && Justified(t, b.closed, u, ScopeStart(p))
      {
        assert Finished(t, b, u.name);
      }
      IntoSound(t, b1, visiting, froms, ScopeStart(p));
    }
    SoundKeepsInv(t, b, b', visiting);
  }

  lemma SameEdges(edges: set<(Node, Node)>, froms: set<Node>, to: Node)
    requires forall u :: u in froms ==> (u, to) in edges
    ensures Into(edges, froms, to) == edges
  {
    forall e: (Node, Node)
      ensures e in Into(edges, froms, to) <==> e in edges
    {
      assert (e.0, e.1) in Into(edges, froms, to) <==> (e.0, e.1) in edges || (e.0 in froms && e.1 == to);
    }
    assert Into(edges, froms, to) == edges;
  }

  // ---- Pipeline steps -------------------------------------------------------------------------

  ghost predicate BarriersBelow(b: B, p: Name, i: nat) {
    forall v :: v in b.vertices && v.Barrier? && v.name == p ==> v.index < i
  }

  /** Steps of p before i are done and step i is about to be wired in. */
  ghost predicate Stepping(t: Shape, b: B, visiting: set<Name>, p: Name, i: nat) {
    && Inv(t, b, visiting) && p in visiting && i <= |t[p].steps| && HasScope(t[p])
    && Opened(t, b, p) && BarriersBelow(b, p, i)
    && forall j :: 0 <= j < i ==> StepDone(t, b, p, j)
  }

  lemma FreshJustified(t: Shape, b: B, visiting: set<Name>, kid: Name, done: set<Name>, p: Name)
    requires Inv(t, b, visiting) && p in t && kid in Children(t[p]) && kid in b.closed
    requires Closures(t, t[p].deps) <= done
    ensures Fresh(t, kid, done) <= b.vertices && Root(t, kid) in b.vertices
    ensures forall v :: v in Fresh(t, kid, done) ==>
      && Enters(t, b.closed, kid, v) && Justified(t, b.closed, ScopeStart(p), v) && MemberFor(t, b.closed, v, p)
    ensures Enters(t, b.closed, kid, Root(t, kid))
  {
    ClosedVertices(t, b, visiting, kid);
    ClSelf(t, kid);
    forall v | v in Fresh(t, kid, done)
      ensures Enters(t, b.closed, kid, v) && Justified(t, b.closed, ScopeStart(p), v) && MemberFor(t, b.closed, v, p)
    {
      assert Enters(t, b.closed, kid, v) && EntersScope(t, b.closed, p, v) && IsNew(t, p, v);
    }
  }

  /** The graph once the scope start's edges for step i are in. */
  ghost function Scoped(t: Shape, b: B, p: Name, i: nat): B
    requires p in t && i < |t[p].steps|
  {
    b.(edges := Star(b.edges, ScopeStart(p), Fresh(t, t[p].steps[i], Prev(t, p, i))))
  }

  lemma ScopedSound(t: Shape, b: B, visiting: set<Name>, p: Name, i: nat)
    requires Stepping(t, b, visiting, p, i) && i < |t[p].steps| && t[p].steps[i] in b.closed
    ensures Sound(t, Scoped(t, b, p, i), visiting) && b.edges <= Scoped(t, b, p, i).edges
  {
    var step, prev := t[p].steps[i], Prev(t, p, i);
    assert step in Children(t[p]);
    FreshJustified(t, b, visiting, step, prev, p);
    StarSound(t, b, visiting, ScopeStart(p), Fresh(t, step, prev));
    StarGrows(b.edges, ScopeStart(p), Fresh(t, step, prev));
  }

  /** In a lone pipeline, a step that the dependencies already needed gets an edge from the barrier
      before it only if the step before it was needed by them too. */
  ghost predicate RootGuarded(t: Shape, b: B, p: Name, i: nat)
    requires p in t && 0 < i < |t[p].steps|
  {
    var done := Closures(t, t[p].deps);
    Alone(t, p) && t[p].steps[i] in done && t[p].steps[i - 1] !in done ==>
      Reach(Scoped(t, b, p, i).edges, Target(t[p].steps[i]), Barrier(p, i - 1))
  }

  /** The scope start's edges, and those of the barrier before the step. */
  lemma StepEdgesSound(t: Shape, b: B, visiting: set<Name>, p: Name, i: nat)
    requires Stepping(t, b, visiting, p, i) && i < |t[p].steps| && t[p].steps[i] in b.closed
    requires i > 0 ==> RootGuarded(t, b, p, i)
    ensures Sound(t, b.(edges := StepEdges(t, b.edges, p, i)), visiting)
    ensures b.edges <= StepEdges(t, b.edges, p, i)
  {
    ScopedSound(t, b, visiting, p, i);
    if i > 0 {
      var b1 := Scoped(t, b, p, i);
      var step := t[p].steps[i];
      var tos := Fresh(t, step, Prev(t, p, i)) + {Root(t, step)};
      assert StepDone(t, b, p, i - 1) && step in Children(t[p]);
      FreshJustified(t, b, visiting, step, Prev(t, p, i), p);
      forall v | v in tos
        ensures Reach(b1.edges, v, Barrier(p, i - 1)) || Justified(t, b.closed, Barrier(p, i - 1), v)
      {
        assert Enters(t, b.closed, step, v);
        if Alone(t, p) && !IsNew(t, p, v) {
          assert v == Root(t, step) == Target(step);
        }
      }
      StarSound(t, b1, visiting, Barrier(p, i - 1), tos);
      StarGrows(b1.edges, Barrier(p, i - 1), tos);
    }
  }

  lemma StepEdgesComparable(t: Shape, edges: set<(Node, Node)>, p: Name, i: nat)
    requires p in t && i < |t[p].steps|
    ensures var newcomers := Fresh(t, t[p].steps[i], Prev(t, p, i));
      && AllComparable(StepEdges(t, edges, p, i), ScopeStart(p), newcomers)
      && (i > 0 ==>
            AllComparable(StepEdges(t, edges, p, i), Barrier(p, i - 1), newcomers + {Root(t, t[p].steps[i])}))
  {
    var newcomers := Fresh(t, t[p].steps[i], Prev(t, p, i));
    var scoped := Star(edges, ScopeStart(p), newcomers);
    StarAllComparable(edges, ScopeStart(p), newcomers);
    if i > 0 {
      var tos := newcomers + {Root(t, t[p].steps[i])};
      StarAllComparable(scoped, Barrier(p, i - 1), tos);
      StarGrows(scoped, Barrier(p, i - 1), tos);
      ComparableGrows(scoped, Star(scoped, Barrier(p, i - 1), tos), ScopeStart(p), newcomers);
    }
  }

  lemma StarAllComparable(edges: set<(Node, Node)>, from: Node, tos: set<Node>)
    ensures AllComparable(Star(edges, from, tos), from, tos)
  {
    forall v | v in tos
      ensures Comparable(Star(edges, from, tos), from, v)
    {
      StarComparable(edges, from, tos, v);
    }
  }

  /** Only existing barriers have edges, so the new one is still a sink. */
  lemma NewBarrierIsSink(t: Shape, b: B, visiting: set<Name>, p: Name, i: nat)
    requires Sound(t, b, visiting) && BarriersBelow(b, p, i)
    ensures NoOut(b.edges, Barrier(p, i))
  {
  }

  lemma AddStepKeeps(t: Shape, b: B, visiting: set<Name>, p: Name, i: nat)
    requires Stepping(t, b, visiting, p, i) && i < |t[p].steps| && t[p].steps[i] in b.closed
    requires i > 0 ==> RootGuarded(t, b, p, i)
    requires Nested(t, p) ==> Sequenced(t, StepEdges(t, b.edges, p, i), p, i)
    requires Alone(t, p) ==> Lone(t, StepEdges(t, b.edges, p, i), p, i)
    ensures var b' := AddStep(t, b, p, i);
      && Inv(t, b', visiting) && Extends(b, b') && StepDone(t, b', p, i)
      && b'.vertices == b.vertices + {Barrier(p, i)}
  {
    var step, prev := t[p].steps[i], Prev(t, p, i);
    var newcomers := Fresh(t, step, prev);
    assert step in Children(t[p]);
    var b1 := b.(edges := StepEdges(t, b.edges, p, i));
    var b2 := b1.(vertices := b1.vertices + {Barrier(p, i)});
    var b3 := b2.(edges := Into(b1.edges, Targets(Cl(t, step)), Barrier(p, i)));
    StepEdgesSound(t, b, visiting, p, i);
    NewBarrierIsSink(t, b1, visiting, p, i);
    VertexSound(t, b1, visiting, Barrier(p, i));
    ClosedVertices(t, b, visiting, step);
    IntoSound(t, b2, visiting, Targets(Cl(t, step)), Barrier(p, i));
    IntoGrows(b1.edges, Targets(Cl(t, step)), Barrier(p, i));
    FreshJustified(t, b, visiting, step, prev, p);
    MembersSound(t, b3, visiting, newcomers, p);
    SoundKeepsInv(t, b, AddStep(t, b, p, i), visiting);
    StepIsDone(t, b, p, i);
  }

  lemma StepIsDone(t: Shape, b: B, p: Name, i: nat)
    requires p in t && i < |t[p].steps| && t[p].steps[i] in b.closed
    requires Nested(t, p) ==> Sequenced(t, StepEdges(t, b.edges, p, i), p, i)
    requires Alone(t, p) ==> Lone(t, StepEdges(t, b.edges, p, i), p, i)
    ensures StepDone(t, AddStep(t, b, p, i), p, i)
  {
    var step := t[p].steps[i];
    var newcomers := Fresh(t, step, Prev(t, p, i));
    var edges, b' := StepEdges(t, b.edges, p, i), AddStep(t, b, p, i);
    StepEdgesComparable(t, b.edges, p, i);
    IntoGrows(edges, Targets(Cl(t, step)), Barrier(p, i));
    ComparableGrows(edges, b'.edges, ScopeStart(p), newcomers);
    if i > 0 {
      ComparableGrows(edges, b'.edges, Barrier(p, i - 1), newcomers + {Root(t, step)});
    }
  }

  // ---- Nothing in the past comes after a newcomer ------------------------------------------------

  /** What lies behind barrier i - 1 of p when step i is wired in. */
  ghost predicate Past(t: Shape, p: Name, i: nat, v: Node)
    requires p in t && i <= |t[p].steps|
  {
    !v.Nil? && (v.name in Prev(t, p, i) || v == ScopeStart(p) || (v.Barrier? && v.name == p))
  }

  lemma PrevDown(t: Shape, p: Name, i: nat, x: Name, y: Name)
    requires p in t && i <= |t[p].steps| && y in Prev(t, p, i) && x in Cl(t, y)
    ensures x in Prev(t, p, i)
  {
    var names := if y in Closures(t, t[p].deps) then t[p].deps else t[p].steps[..i];
    InClosures(t, names, y);
    var n :| n in names && y in Cl(t, n);
    ReachTrans(Feeds(t), x, y, n);
    InClosures(t, names, x);
  }

  lemma StepInPrev(t: Shape, p: Name, i: nat, j: nat, x: Name)
    requires p in t && j < i <= |t[p].steps| && x in Cl(t, t[p].steps[j])
    ensures x in Prev(t, p, i)
  {
    assert t[p].steps[..i][j] == t[p].steps[j];
    InClosures(t, t[p].steps[..i], x);
  }

  lemma DepInPrev(t: Shape, p: Name, i: nat, x: Name)
    requires p in t && i <= |t[p].steps| && x in t[p].deps
    ensures x in Prev(t, p, i)
  {
    ClSelf(t, x);
    InClosures(t, t[p].deps, x);
  }

  /** An edge out of another composite leads into the past only from inside the past. */
  lemma PastFromScope(t: Shape, b: B, p: Name, i: nat, q: Name, kid: Name, v: Node)
    requires p in t && i <= |t[p].steps| && Nested(t, p)
    requires ClosedUnderKids(t, b.closed) && p !in b.closed
    requires q in t && q != p && kid in Children(t[q]) && Enters(t, b.closed, kid, v) && Past(t, p, i, v)
    ensures q in Prev(t, p, i)
  {
    ClClosed(t, b.closed, kid);
    ClSelf(t, kid);
    assert v.name in Cl(t, kid) && v.name in Prev(t, p, i);
  }

  lemma OuterKid(t: Shape, closed: set<Name>, u: Node, v: Node) returns (kid: Name)
    requires Justified(t, closed, u, v) && !u.Target? && v != Target(u.name)
    ensures kid in Children(t[u.name]) && Enters(t, closed, kid, v)
  {
    if u.ScopeStart? {
      kid :| kid in Children(t[u.name]) && Enters(t, closed, kid, v);
    } else {
      kid := t[u.name].steps[u.index + 1];
    }
  }

  lemma PastFromTarget(t: Shape, b: B, p: Name, i: nat, x: Name, v: Node)
    requires p in t && i <= |t[p].steps| && Justified(t, b.closed, Target(x), v)
    requires Past(t, p, i, v) && v != Target(p) && (v.Barrier? && v.name == p ==> v.index < i)
    ensures Past(t, p, i, Target(x))
  {
    var y := v.name;
    if v.Target? {
      var kid := x;
      if x !in t[y].deps {
        kid :| kid in t[y].members && x in Cl(t, kid);
      }
      assert kid in Kids(t[y]);
      ClKid(t, kid, y);
      ClSelf(t, x);
      PrevDown(t, p, i, x, y);
    } else if v.ScopeStart? {
      if y == p {
        DepInPrev(t, p, i, x);
      } else {
        assert x in Kids(t[y]);
        ClKid(t, x, y);
        PrevDown(t, p, i, x, y);
      }
    } else if y == p {
      StepInPrev(t, p, i, v.index, x);
    } else {
      var step := t[y].steps[v.index];
      assert step in Kids(t[y]);
      ClKid(t, step, y);
      PrevDown(t, p, i, x, y);
    }
  }

  lemma PastIsClosed(t: Shape, b: B, visiting: set<Name>, p: Name, i: nat, past: set<Node>)
    requires Sound(t, b, visiting) && ClosedUnderKids(t, b.closed) && p in visiting && p !in b.closed
    requires p in t && i <= |t[p].steps| && Nested(t, p) && BarriersBelow(b, p, i)
    requires p !in Prev(t, p, i)
    requires forall v :: v in past <==> v in b.vertices && Past(t, p, i, v)
    ensures PredClosed(b.edges, past)
  {
    forall u, v | (u, v) in b.edges && v in past
      ensures u in past
    {
      assert Justified(t, b.closed, u, v);
      if u.Target? {
        PastFromTarget(t, b, p, i, u.name, v);
      } else if u.name != p && v != Target(u.name) {
        var kid := OuterKid(t, b.closed, u, v);
        PastFromScope(t, b, p, i, u.name, kid, v);
      }
    }
  }

  /** In a nested plan no sequence edge to a first-time vertex is ever suppressed. */
  lemma SequencedAtInsertion(t: Shape, b: B, visiting: set<Name>, p: Name, i: nat)
    requires Stepping(t, b, visiting, p, i) && i < |t[p].steps| && t[p].steps[i] in b.closed
    requires Nested(t, p) && p !in Prev(t, p, i)
    ensures Sequenced(t, StepEdges(t, b.edges, p, i), p, i)
  {
    if i > 0 {
      var step, prev := t[p].steps[i], Prev(t, p, i);
      var newcomers := Fresh(t, step, prev);
      assert step in Children(t[p]);
      FreshJustified(t, b, visiting, step, prev, p);
      ScopedSound(t, b, visiting, p, i);
      var b1 := Scoped(t, b, p, i);
      var past := set v | v in b1.vertices && Past(t, p, i, v);
      PastIsClosed(t, b1, visiting, p, i, past);
      assert StepDone(t, b, p, i - 1);
      forall v | v in newcomers && v.name !in prev
        ensures (Barrier(p, i - 1), v) in StepEdges(t, b.edges, p, i)
      {
        ClosedNotOpen(t, b, p, step, v);
        if Reach(b1.edges, v, Barrier(p, i - 1)) {
          ReachComesFrom(b1.edges, past, v, Barrier(p, i - 1));
        }
      }
    }
  }

  lemma ClosedNotOpen(t: Shape, b: B, p: Name, kid: Name, v: Node)
    requires ClosedUnderKids(t, b.closed) && p !in b.closed && Enters(t, b.closed, kid, v)
    ensures v.name != p && !v.Barrier?
  {
    ClClosed(t, b.closed, kid);
  }

  /** What p has behind it is finished, and p is not. */
  lemma PrevClosed(t: Shape, b: B, p: Name, i: nat)
    requires p in t && i <= |t[p].steps| && ClosedUnderKids(t, b.closed) && p !in b.closed
    requires forall d :: d in t[p].deps ==> d in b.closed
    requires forall j :: 0 <= j < i ==> t[p].steps[j] in b.closed
    ensures Prev(t, p, i) <= b.closed
  {
    forall x | x in Prev(t, p, i)
      ensures x in b.closed
    {
      var names := if x in Closures(t, t[p].deps) then t[p].deps else t[p].steps[..i];
      InClosures(t, names, x);
      var n :| n in names && x in Cl(t, n);
      ClClosed(t, b.closed, n);
    }
  }

  // ---- A lone pipeline ---------------------------------------------------------------------------------

  /** What a lone pipeline has behind it on account of its dependencies alone. */
  ghost predicate Settled(t: Shape, p: Name, v: Node)
    requires p in t
  {
    var done := Closures(t, t[p].deps);
    || v == ScopeStart(p) || (v.Target? && v.name in done)
    || (v.Barrier? && v.name == p && v.index < |t[p].steps| && t[p].steps[v.index] in done)
  }

  lemma DoneDown(t: Shape, p: Name, x: Name, y: Name)
    requires p in t && y in Closures(t, t[p].deps) && x in Cl(t, y)
    ensures x in Closures(t, t[p].deps)
  {
    InClosures(t, t[p].deps, y);
    var n :| n in t[p].deps && y in Cl(t, n);
    ReachTrans(Feeds(t), x, y, n);
    InClosures(t, t[p].deps, x);
  }

  lemma DepIsDone(t: Shape, p: Name, x: Name)
    requires p in t && x in t[p].deps
    ensures x in Closures(t, t[p].deps)
  {
    ClSelf(t, x);
    InClosures(t, t[p].deps, x);
  }

  /** With one composite, a target has edges from its dependencies only. */
  lemma LoneTargetEdge(t: Shape, closed: set<Name>, p: Name, x: Name, y: Name)
    requires p in t && Alone(t, p) && Justified(t, closed, Target(x), Target(y)) && y != p
    ensures x in Cl(t, y)
  {
    assert !HasScope(t[y]);
    assert x in Kids(t[y]);
    ClKid(t, x, y);
  }

  lemma SettledIsClosed(t: Shape, b: B, visiting: set<Name>, p: Name, settled: set<Node>)
    requires Sound(t, b, visiting) && p in t && Alone(t, p) && p !in Closures(t, t[p].deps) && p !in b.closed
    requires forall v :: v in settled <==> v in b.vertices && Settled(t, p, v)
    ensures PredClosed(b.edges, settled)
  {
    forall u, v | (u, v) in b.edges && v in settled
      ensures u in settled
    {
      assert Justified(t, b.closed, u, v);
      if u.Target? {
        SettledFromTarget(t, b.closed, p, u.name, v);
      } else {
        assert HasScope(t[u.name]) && u.name == p;
        assert v != Target(p);
        if u.Barrier? {
          assert Enters(t, b.closed, t[p].steps[u.index + 1], v);
          assert v.Target?;
        }
      }
    }
  }

  lemma SettledFromTarget(t: Shape, closed: set<Name>, p: Name, x: Name, v: Node)
    requires p in t && Alone(t, p) && p !in Closures(t, t[p].deps)
    requires Justified(t, closed, Target(x), v) && Settled(t, p, v)
    ensures Settled(t, p, Target(x))
  {
    if v.ScopeStart? {
      DepIsDone(t, p, x);
    } else if v.Target? {
      LoneTargetEdge(t, closed, p, x, v.name);
      DoneDown(t, p, x, v.name);
    } else {
      DoneDown(t, p, x, t[p].steps[v.index]);
    }
  }

  /** The scope start keeps its edge to each first-time target. */
  lemma LoneScopeEdge(t: Shape, b: B, visiting: set<Name>, p: Name, i: nat, x: Name)
    requires Stepping(t, b, visiting, p, i) && i < |t[p].steps| && t[p].steps[i] in b.closed && Alone(t, p)
    requires x in Cl(t, t[p].steps[i]) && x !in Prev(t, p, i)
    ensures (ScopeStart(p), Target(x)) in Scoped(t, b, p, i).edges
  {
    PrevClosed(t, b, p, 0);
    assert Prev(t, p, 0) == Closures(t, t[p].deps);
    var settled := set v | v in b.vertices && Settled(t, p, v);
    SettledIsClosed(t, b, visiting, p, settled);
    if Reach(b.edges, Target(x), ScopeStart(p)) {
      ReachComesFrom(b.edges, settled, Target(x), ScopeStart(p));
    }
  }

  /** With one composite, whatever a finished target other than it needs leads to it. */
  lemma {:induction false} LoneReach(t: Shape, b: B, visiting: set<Name>, p: Name, path: seq<Name>, x: Name, n: Name)
    requires Inv(t, b, visiting) && p in t && Alone(t, p) && p !in b.closed && n in b.closed
    requires Joins(Feeds(t), path, x, n)
    ensures Reach(b.edges, Target(x), Target(n))
    decreases |path|
  {
    if |path| == 1 {
      ReachRefl(b.edges, Target(x));
    } else {
      var y := path[1];
      LoneReach(t, b, visiting, p, path[1..], y, n);
      assert Joins(Feeds(t), path[1..], y, n);
      assert y in Cl(t, n);
      ClClosed(t, b.closed, n);
      assert Finished(t, b, y) && !HasScope(t[y]) && (x, y) in Feeds(t);
      var i :| 0 <= i < |t[y].deps| && t[y].deps[i] == x;
      assert DepDone(t, b, y, i);
      ReachCons(b.edges, Target(x), Target(y), Target(n));
    }
  }

  /** A step the dependencies needed leads, through them, the scope start and the first-time step
      before it, to that step's barrier. */
  lemma StaleAfterNew(t: Shape, b: B, visiting: set<Name>, p: Name, i: nat)
    requires Stepping(t, b, visiting, p, i) && 0 < i < |t[p].steps| && t[p].steps[i] in b.closed
    ensures RootGuarded(t, b, p, i)
  {
    var done := Closures(t, t[p].deps);
    var s, r := t[p].steps[i], t[p].steps[i - 1];
    if Alone(t, p) && s in done && r !in done {
      InClosures(t, t[p].deps, s);
      var d :| d in t[p].deps && s in Cl(t, d);
      var path :| Joins(Feeds(t), path, s, d);
      LoneReach(t, b, visiting, p, path, s, d);
      assert StepDone(t, b, p, i - 1);
      ClSelf(t, r);
      NotInPrev(t, p, i - 1);
      assert (ScopeStart(p), Target(r)) in b.edges && (Target(r), Barrier(p, i - 1)) in b.edges;
      ReachSnoc(b.edges, Target(s), Target(d), ScopeStart(p));
      ReachSnoc(b.edges, Target(s), ScopeStart(p), Target(r));
      ReachSnoc(b.edges, Target(s), Target(r), Barrier(p, i - 1));
      StarGrows(b.edges, ScopeStart(p), Fresh(t, s, Prev(t, p, i)));
      ReachMono(b.edges, Scoped(t, b, p, i).edges, Target(s), Barrier(p, i - 1));
    }
  }

  lemma NotInPrev(t: Shape, p: Name, i: nat)
    requires p in t && i < |t[p].steps| && Alone(t, p)
    ensures t[p].steps[i] in Prev(t, p, i) <==> t[p].steps[i] in Closures(t, t[p].deps)
  {
    InClosures(t, t[p].steps[..i], t[p].steps[i]);
  }

  /** The steps among the dependencies' targets, wired in before step i, and what they need. */
  ghost predicate StaleBefore(t: Shape, p: Name, i: nat, v: Node)
    requires p in t && i <= |t[p].steps|
  {
    exists j :: 0 <= j < i && t[p].steps[j] in Closures(t, t[p].deps)
      && (v == Barrier(p, j) || (v.Target? && v.name in Cl(t, t[p].steps[j])))
  }

  lemma StaleIsClosed(t: Shape, b: B, visiting: set<Name>, p: Name, i: nat, stale: set<Node>)
    requires Sound(t, b, visiting) && p in t && Alone(t, p) && p !in Closures(t, t[p].deps)
    requires i <= |t[p].steps| && BarriersBelow(b, p, i)
    requires forall v :: v in stale <==> v in b.vertices && StaleBefore(t, p, i, v)
    ensures PredClosed(b.edges, stale)
  {
    forall u, v | (u, v) in b.edges && v in stale
      ensures u in stale
    {
      assert Justified(t, b.closed, u, v);
      var j :| 0 <= j < i && t[p].steps[j] in Closures(t, t[p].deps)
        && (v == Barrier(p, j) || (v.Target? && v.name in Cl(t, t[p].steps[j])));
      if v.Target? {
        DoneDown(t, p, v.name, t[p].steps[j]);
      }
      if u.Target? {
        if v.Target? {
          LoneTargetEdge(t, b.closed, p, u.name, v.name);
          ReachTrans(Feeds(t), u.name, v.name, t[p].steps[j]);
        }
        assert StaleBefore(t, p, i, u);
      } else {
        assert HasScope(t[u.name]) && u.name == p;
        assert u.Barrier? && t[p].steps[u.index] in Closures(t, t[p].deps);
        assert StaleBefore(t, p, i, u);
      }
    }
  }

  /** Between two steps that the dependencies needed, the barrier's edge is kept. */
  lemma StaleAfterStale(t: Shape, b: B, visiting: set<Name>, p: Name, i: nat)
    requires Stepping(t, b, visiting, p, i) && 0 < i < |t[p].steps| && t[p].steps[i] in b.closed && Alone(t, p)
    requires t[p].steps[i] in Closures(t, t[p].deps) && t[p].steps[i - 1] in Closures(t, t[p].deps)
    ensures (Barrier(p, i - 1), Target(t[p].steps[i])) in StepEdges(t, b.edges, p, i)
  {
    PrevClosed(t, b, p, 0);
    assert Prev(t, p, 0) == Closures(t, t[p].deps);
    ScopedSound(t, b, visiting, p, i);
    var b1 := Scoped(t, b, p, i);
    var stale := set v | v in b1.vertices && StaleBefore(t, p, i, v);
    StaleIsClosed(t, b1, visiting, p, i, stale);
    var s := t[p].steps[i];
    assert StepDone(t, b, p, i - 1);
    assert StaleBefore(t, p, i, Barrier(p, i - 1));
    if Reach(b1.edges, Target(s), Barrier(p, i - 1)) {
      ReachComesFrom(b1.edges, stale, Target(s), Barrier(p, i - 1));
    }
    assert s != p;
    assert Root(t, s) == Target(s);
  }

  lemma LoneAtInsertion(t: Shape, b: B, visiting: set<Name>, p: Name, i: nat)
    requires Stepping(t, b, visiting, p, i) && i < |t[p].steps| && t[p].steps[i] in b.closed && Alone(t, p)
    ensures Lone(t, StepEdges(t, b.edges, p, i), p, i)
  {
    var tos := Fresh(t, t[p].steps[i], Prev(t, p, i)) + {Root(t, t[p].steps[i])};
    var b1 := Scoped(t, b, p, i);
    if i > 0 {
      StarGrows(b1.edges, Barrier(p, i - 1), tos);
    }
    assert b1.edges <= StepEdges(t, b.edges, p, i);
    forall x | x in Cl(t, t[p].steps[i]) && x !in Prev(t, p, i)
      ensures (ScopeStart(p), Target(x)) in StepEdges(t, b.edges, p, i)
    {
      LoneScopeEdge(t, b, visiting, p, i, x);
    }
    var done := Closures(t, t[p].deps);
    if i > 0 && t[p].steps[i] in done && t[p].steps[i - 1] in done {
      StaleAfterStale(t, b, visiting, p, i);
    }
  }

  // ---- Group members and scope ends ---------------------------------------------------------------

  lemma AddMemberKeeps(t: Shape, b: B, visiting: set<Name>, g: Name, i: nat)
    requires Inv(t, b, visiting) && g in visiting && Opened(t, b, g) && Target(g) in b.vertices
    requires i < |t[g].members| && t[g].members[i] in b.closed
    ensures var b' := AddMember(t, b, g, i);
      Inv(t, b', visiting) && Extends(b, b') && MemberDone(t, b', g, i) && b'.vertices == b.vertices
  {
    var member, done := t[g].members[i], Closures(t, t[g].deps);
    var newcomers := Fresh(t, member, done);
    assert member in Children(t[g]) && member in Kids(t[g]);
    var b1 := b.(edges := Star(b.edges, ScopeStart(g), newcomers));
    var b2 := b1.(edges := Into(b1.edges, Targets(Cl(t, member)), Target(g)));
    FreshJustified(t, b, visiting, member, done, g);
    StarSound(t, b, visiting, ScopeStart(g), newcomers);
    StarGrows(b.edges, ScopeStart(g), newcomers);
    OpenTargetIsSink(t, b1, visiting, g);
    ClosedVertices(t, b, visiting, member);
    ClKid(t, member, g);
    IntoSound(t, b1, visiting, Targets(Cl(t, member)), Target(g));
    IntoGrows(b1.edges, Targets(Cl(t, member)), Target(g));
    MembersSound(t, b2, visiting, newcomers, g);
    SoundKeepsInv(t, b, AddMember(t, b, g, i), visiting);
    StarAllComparable(b.edges, ScopeStart(g), newcomers);
    ComparableGrows(b1.edges, b2.edges, ScopeStart(g), newcomers);
  }

  lemma EndScopeKeeps(t: Shape, b: B, visiting: set<Name>, p: Name, steps: nat)
    requires Inv(t, b, visiting) && p in visiting && Opened(t, b, p) && Target(p) in b.vertices
    requires steps == 0 || (steps == |t[p].steps| && Barrier(p, steps - 1) in b.vertices)
    ensures var b' := EndScope(b, p, steps);
      && Inv(t, b', visiting) && Extends(b, b') && b'.vertices == b.vertices
      && (ScopeStart(p), Target(p)) in b'.edges
      && (steps > 0 ==> (Barrier(p, steps - 1), Target(p)) in b'.edges)
  {
    var froms := {ScopeStart(p)} + if steps == 0 then {} else {Barrier(p, steps - 1)};
    OpenTargetIsSink(t, b, visiting, p);
    IntoSound(t, b, visiting, froms, Target(p));
    IntoGrows(b.edges, froms, Target(p));
    SoundKeepsInv(t, b, EndScope(b, p, steps), visiting);
  }

  // ---- The recursion ----------------------------------------------------------------------------------

  lemma ExtendsTrans(b: B, b1: B, b2: B)
    requires Extends(b, b1) && Extends(b1, b2)
    ensures Extends(b, b2)
  {
  }

  lemma SparesTrans(b: B, b1: B, b2: B, names: set<Name>)
    requires Spares(b, b1, names) && Spares(b1, b2, names)
    ensures Spares(b, b2, names)
  {
  }

  ghost predicate DepsDone(t: Shape, b: B, n: Name, i: nat)
    requires n in t && i <= |t[n].deps|
  {
    forall j :: 0 <= j < i ==> DepDone(t, b, n, j)
  }

  lemma DepsDoneGrow(t: Shape, b: B, b': B, n: Name, i: nat)
    requires n in t && i <= |t[n].deps| && DepsDone(t, b, n, i) && Extends(b, b')
    ensures DepsDone(t, b', n, i)
  {
    forall j | 0 <= j < i
      ensures DepDone(t, b', n, j)
    {
      assert DepDone(t, b, n, j);
    }
  }

  lemma DepsClosed(t: Shape, b: B, n: Name)
    requires n in t && DepsDone(t, b, n, |t[n].deps|)
    ensures forall d :: d in t[n].deps ==> d in b.closed
  {
    forall d | d in t[n].deps
      ensures d in b.closed
    {
      var i :| 0 <= i < |t[n].deps| && t[n].deps[i] == d;
      assert DepDone(t, b, n, i);
    }
  }

  ghost predicate Depending(t: Shape, b: B, b': B, visiting: set<Name>, n: Name, i: nat) {
    && n in t && i <= |t[n].deps| && n in visiting && Target(n) in b.vertices
    && Inv(t, b', visiting) && Extends(b, b') && Spares(b, b', visiting) && DepsDone(t, b', n, i)
  }

  lemma {:induction false} DepsKeeps(t: Shape, b: B, visiting: set<Name>, n: Name, i: nat)
    requires n in t && i <= |t[n].deps| && Depending(t, b, b, visiting, n, 0)
    requires Deps(t, b, visiting, n, i).Some?
    ensures Depending(t, b, Deps(t, b, visiting, n, i).value, visiting, n, i)
    decreases t.Keys - visiting, 1, i
  {
    if i > 0 {
      DepsKeeps(t, b, visiting, n, i - 1);
      DepsNext(t, b, Deps(t, b, visiting, n, i - 1).value, visiting, n, i - 1);
    }
  }

  lemma {:induction false} DepsNext(t: Shape, b: B, b1: B, visiting: set<Name>, n: Name, i: nat)
    requires Depending(t, b, b1, visiting, n, i) && i < |t[n].deps|
    requires Visit(t, b1, visiting, t[n].deps[i]).Some?
    ensures Depending(t, b, AddDep(Visit(t, b1, visiting, t[n].deps[i]).value, n, t[n].deps[i]), visiting, n, i + 1)
    decreases t.Keys - visiting, 0, 1
  {
    VisitKeeps(t, b1, visiting, t[n].deps[i]);
    var b2 := Visit(t, b1, visiting, t[n].deps[i]).value;
    var b' := AddDep(b2, n, t[n].deps[i]);
    ExtendsTrans(b, b1, b2);
    AddDepKeeps(t, b2, visiting, n, i);
    ExtendsTrans(b, b2, b');
    ExtendsTrans(b1, b2, b');
    DepsDoneGrow(t, b1, b', n, i);
  }

  /** The first i steps have been wired in, starting from b. */
  ghost predicate Stepped(t: Shape, b: B, b': B, visiting: set<Name>, p: Name, i: nat) {
    p in t && Stepping(t, b', visiting, p, i) && Extends(b, b') && Spares(b, b', visiting - {p})
  }

  lemma {:induction false} StepsKeep(t: Shape, b: B, visiting: set<Name>, p: Name, i: nat)
    requires p in t && i <= |t[p].steps| && Stepped(t, b, b, visiting, p, 0)
    requires Steps(t, b, visiting, p, i).Some?
    ensures Stepped(t, b, Steps(t, b, visiting, p, i).value, visiting, p, i)
    decreases t.Keys - visiting, 1, i
  {
    if i > 0 {
      StepsKeep(t, b, visiting, p, i - 1);
      StepsNext(t, b, Steps(t, b, visiting, p, i - 1).value, visiting, p, i - 1);
    }
  }

  lemma {:induction false} StepsNext(t: Shape, b: B, b1: B, visiting: set<Name>, p: Name, i: nat)
    requires Stepped(t, b, b1, visiting, p, i) && i < |t[p].steps|
    requires Visit(t, b1, visiting, t[p].steps[i]).Some?
    ensures Stepped(t, b, AddStep(t, Visit(t, b1, visiting, t[p].steps[i]).value, p, i), visiting, p, i + 1)
    decreases t.Keys - visiting, 0, 1
  {
    VisitKeeps(t, b1, visiting, t[p].steps[i]);
    var b2 := Visit(t, b1, visiting, t[p].steps[i]).value;
    SteppingGrows(t, b1, b2, visiting, p, i);
    NextStepKeeps(t, b2, visiting, p, i);
    var b' := AddStep(t, b2, p, i);
    ExtendsTrans(b, b1, b2);
    ExtendsTrans(b, b2, b');
  }

  lemma SteppingGrows(t: Shape, b: B, b': B, visiting: set<Name>, p: Name, i: nat)
    requires Stepping(t, b, visiting, p, i) && Inv(t, b', visiting) && Extends(b, b') && Spares(b, b', visiting)
    ensures Stepping(t, b', visiting, p, i)
  {
    forall j | 0 <= j < i
      ensures StepDone(t, b', p, j)
    {
      StepDoneGrows(t, b, b', p, j);
    }
  }

  lemma NextStepKeeps(t: Shape, b: B, visiting: set<Name>, p: Name, i: nat)
    requires Stepping(t, b, visiting, p, i) && i < |t[p].steps| && t[p].steps[i] in b.closed
    ensures var b' := AddStep(t, b, p, i);
      && Stepping(t, b', visiting, p, i + 1) && Extends(b, b')
      && b'.vertices == b.vertices + {Barrier(p, i)}
  {
    forall j | 0 <= j < i
      ensures t[p].steps[j] in b.closed
    {
      assert StepDone(t, b, p, j);
    }
    PrevClosed(t, b, p, i);
    if Nested(t, p) {
      SequencedAtInsertion(t, b, visiting, p, i);
    }
    if Alone(t, p) {
      LoneAtInsertion(t, b, visiting, p, i);
    }
    if i > 0 {
      StaleAfterNew(t, b, visiting, p, i);
    }
    AddStepKeeps(t, b, visiting, p, i);
    var b' := AddStep(t, b, p, i);
    forall j | 0 <= j < i
      ensures StepDone(t, b', p, j)
    {
      StepDoneGrows(t, b, b', p, j);
    }
    OpenedGrows(t, b, b', p);
  }

  ghost predicate MembersDone(t: Shape, b: B, g: Name, i: nat)
    requires g in t && i <= |t[g].members|
  {
    forall j :: 0 <= j < i ==> MemberDone(t, b, g, j)
  }

  lemma MembersDoneGrow(t: Shape, b: B, b': B, g: Name, i: nat)
    requires g in t && i <= |t[g].members| && MembersDone(t, b, g, i) && Extends(b, b')
    ensures MembersDone(t, b', g, i)
  {
    forall j | 0 <= j < i
      ensures MemberDone(t, b', g, j)
    {
      MemberDoneGrows(t, b, b', g, j);
    }
  }

  ghost predicate Joining(t: Shape, b: B, b': B, visiting: set<Name>, g: Name, i: nat) {
    && g in t && i <= |t[g].members| && g in visiting && Opened(t, b, g) && Target(g) in b.vertices
    && Inv(t, b', visiting) && Extends(b, b') && Spares(b, b', visiting) && MembersDone(t, b', g, i)
  }

  lemma {:induction false} MembersKeep(t: Shape, b: B, visiting: set<Name>, g: Name, i: nat)
    requires g in t && i <= |t[g].members| && Joining(t, b, b, visiting, g, 0)
    requires Members(t, b, visiting, g, i).Some?
    ensures Joining(t, b, Members(t, b, visiting, g, i).value, visiting, g, i)
    decreases t.Keys - visiting, 1, i
  {
    if i > 0 {
      MembersKeep(t, b, visiting, g, i - 1);
      MembersNext(t, b, Members(t, b, visiting, g, i - 1).value, visiting, g, i - 1);
    }
  }

  lemma {:induction false} MembersNext(t: Shape, b: B, b1: B, visiting: set<Name>, g: Name, i: nat)
    requires Joining(t, b, b1, visiting, g, i) && i < |t[g].members|
    requires Visit(t, b1, visiting, t[g].members[i]).Some?
    ensures Joining(t, b, AddMember(t, Visit(t, b1, visiting, t[g].members[i]).value, g, i), visiting, g, i + 1)
    decreases t.Keys - visiting, 0, 1
  {
    VisitKeeps(t, b1, visiting, t[g].members[i]);
    var b2 := Visit(t, b1, visiting, t[g].members[i]).value;
    var b' := AddMember(t, b2, g, i);
    ExtendsTrans(b, b1, b2);
    OpenedGrows(t, b, b2, g);
    AddMemberKeeps(t, b2, visiting, g, i);
    ExtendsTrans(b, b2, b');
    ExtendsTrans(b1, b2, b');
    MembersDoneGrow(t, b1, b', g, i);
  }

  lemma {:induction false} AddPipelineKeeps(t: Shape, b: B, visiting: set<Name>, n: Name)
    requires Inv(t, b, visiting) && n in visiting && Bare(b, n) && DepsDone(t, b, n, |t[n].deps|)
    requires AddPipeline(t, b, visiting, n).Some?
    ensures var b' := AddPipeline(t, b, visiting, n).value;
      && Inv(t, b', visiting) && Extends(b, b') && Spares(b, b', visiting - {n}) && PipelineDone(t, b', n)
      && (t[n].steps == [] ==> b' == b)
    decreases t.Keys - visiting, 2, 0
  {
    if t[n].steps != [] {
      var k := |t[n].steps|;
      DepsClosed(t, b, n);
      OpenScopeKeeps(t, b, visiting, n);
      var b1 := OpenScope(t, b, n);
      StepsKeep(t, b1, visiting, n, k);
      var b2 := Steps(t, b1, visiting, n, k).value;
      assert StepDone(t, b2, n, k - 1);
      EndScopeKeeps(t, b2, visiting, n, k);
      var b3 := EndScope(b2, n, k);
      SteppingEnds(t, b2, b3, visiting, n);
      ExtendsTrans(b, b1, b2);
      ExtendsTrans(b, b2, b3);
    }
  }

  lemma SteppingEnds(t: Shape, b: B, b': B, visiting: set<Name>, p: Name)
    requires p in t && Stepping(t, b, visiting, p, |t[p].steps|) && Extends(b, b')
    ensures Opened(t, b', p) && forall j :: 0 <= j < |t[p].steps| ==> StepDone(t, b', p, j)
  {
    OpenedGrows(t, b, b', p);
    forall j | 0 <= j < |t[p].steps|
      ensures StepDone(t, b', p, j)
    {
      StepDoneGrows(t, b, b', p, j);
    }
  }

  lemma {:induction false} AddGroupKeeps(t: Shape, b: B, visiting: set<Name>, n: Name)
    requires Inv(t, b, visiting) && n in visiting && DepsDone(t, b, n, |t[n].deps|)
    requires Target(n) in b.vertices && (ScopeStart(n) in b.vertices ==> Opened(t, b, n))
    requires AddGroup(t, b, visiting, n).Some?
    ensures var b' := AddGroup(t, b, visiting, n).value;
      && Inv(t, b', visiting) && Extends(b, b') && Spares(b, b', visiting - {n}) && GroupDone(t, b', n)
    decreases t.Keys - visiting, 2, 0
  {
    if t[n].members != [] {
      var k := |t[n].members|;
      DepsClosed(t, b, n);
      OpenScopeKeeps(t, b, visiting, n);
      var b1 := OpenScope(t, b, n);
      MembersKeep(t, b1, visiting, n, k);
      var b2 := Members(t, b1, visiting, n, k).value;
      OpenedGrows(t, b1, b2, n);
      EndScopeKeeps(t, b2, visiting, n, 0);
      var b3 := EndScope(b2, n, 0);
      MembersDoneGrow(t, b2, b3, n, k);
      OpenedGrows(t, b2, b3, n);
      ExtendsTrans(b, b1, b2);
      ExtendsTrans(b, b2, b3);
    }
  }

  /** Finishing a target: everything it names is finished. */
  lemma CloseKeeps(t: Shape, b: B, visiting: set<Name>, n: Name)
    requires Inv(t, b, visiting + {n}) && n !in visiting && Finished(t, b, n)
    ensures var b' := b.(closed := b.closed + {n});
      Inv(t, b', visiting) && Extends(b, b')
  {
    var b' := b.(closed := b.closed + {n});
    KidsFinished(t, b, n);
    forall u, v | (u, v) in b.edges
      ensures Justified(t, b'.closed, u, v)
    {
      JustifiedGrows(t, b.closed, b'.closed, u, v);
    }
    forall v, p | (v, p) in b.members
      ensures MemberFor(t, b'.closed, v, p)
    {
      MemberForGrows(t, b.closed, b'.closed, v, p);
    }
    FinishedGrows(t, b, b', n);
    AllFinishedGrow(t, b, b');
  }

  lemma KidsFinished(t: Shape, b: B, n: Name)
    requires Finished(t, b, n)
    ensures forall k :: k in Kids(t[n]) ==> k in b.closed
  {
    forall k | k in Kids(t[n])
      ensures k in b.closed
    {
      if k in t[n].deps {
        var i :| 0 <= i < |t[n].deps| && t[n].deps[i] == k;
        assert DepDone(t, b, n, i);
      } else if k in t[n].steps {
        var i :| 0 <= i < |t[n].steps| && t[n].steps[i] == k;
        assert StepDone(t, b, n, i);
      } else {
        var i :| 0 <= i < |t[n].members| && t[n].members[i] == k;
        assert MemberDone(t, b, n, i);
      }
    }
  }

  lemma {:induction false} VisitKeeps(t: Shape, b: B, visiting: set<Name>, n: Name)
    requires Inv(t, b, visiting) && Visit(t, b, visiting, n).Some?
    ensures var b' := Visit(t, b, visiting, n).value;
      Inv(t, b', visiting) && Extends(b, b') && Spares(b, b', visiting) && n in b'.closed
    decreases t.Keys - visiting, 0, 0
  {
    if n !in b.closed {
      var inside := visiting + {n};
      AddTargetKeeps(t, b, visiting, n);
      var b0 := AddTarget(b, n);
      DepsKeeps(t, b0, inside, n, |t[n].deps|);
      var b1 := Deps(t, b0, inside, n, |t[n].deps|).value;
      AddPipelineKeeps(t, b1, inside, n);
      var b2 := AddPipeline(t, b1, inside, n).value;
      DepsDoneGrow(t, b1, b2, n, |t[n].deps|);
      AddGroupKeeps(t, b2, inside, n);
      var b3 := AddGroup(t, b2, inside, n).value;
      VisitFinishes(t, b, b0, b1, b2, b3, visiting, n);
    }
  }

  lemma VisitFinishes(t: Shape, b: B, b0: B, b1: B, b2: B, b3: B, visiting: set<Name>, n: Name)
    requires n in t && n !in visiting && Extends(b, b0) && Extends(b0, b1) && Extends(b1, b2) && Extends(b2, b3)
    requires Spares(b, b0, visiting) && Spares(b0, b1, visiting + {n})
    requires Spares(b1, b2, visiting + {n} - {n}) && Spares(b2, b3, visiting + {n} - {n})
    requires Inv(t, b3, visiting + {n}) && Target(n) in b0.vertices && DepsDone(t, b2, n, |t[n].deps|)
    requires PipelineDone(t, b2, n) && GroupDone(t, b3, n)
    ensures var b' := b3.(closed := b3.closed + {n});
      Inv(t, b', visiting) && Extends(b, b') && Spares(b, b', visiting)
  {
    DepsDoneGrow(t, b2, b3, n, |t[n].deps|);
    PipelineGrows(t, b2, b3, n);
    CloseKeeps(t, b3, visiting, n);
  }
}
