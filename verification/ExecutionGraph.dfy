/** internal/runner/execution_graph.go: the builder with its mutable maps and its depth-first path
    search. Each method is proved to have the effect that BuildSpec gives it, whatever order the
    closures are iterated in. */
module ExecutionGraph {
  import opened Nodes
  import opened Digraph
  import opened Wrappers
  import opened Insertion
  import opened BuildSpec
  import opened BuildInvariant
  import opened BuildSafety
  import Dag
  import Planner

  datatype EdgeKind = Dependency | Scope | Sequence | Group | Finalize

  function Any(from: Node, to: Node, kind: EdgeKind): bool {
    true
  }

  /** What the builder reads of a plan. */
  function ShapeOf(plan: Planner.Plan): Shape {
    map n | n in plan.targets ::
      Item(plan.targets[n].dependsOn,
           Planner.Select(plan.compositeEdges, n, Planner.PipelineStep),
           Planner.Select(plan.compositeEdges, n, Planner.GroupMember))
  }

  ghost predicate ArePairs(members: map<Node, seq<Name>>, r: set<(Node, Name)>) {
    forall v, p {:trigger (v, p) in r} :: (v, p) in r <==> v in members && p in members[v]
  }

  /** The membership lists as pairs. */
  ghost function Pairs(members: map<Node, seq<Name>>): (r: set<(Node, Name)>)
    ensures ArePairs(members, r)
  {
    assert ArePairs(members, set v, p | v in members && p in members[v] :: (v, p));
    var r :| ArePairs(members, r);
    r
  }

  lemma PairsAdd(members: map<Node, seq<Name>>, v: Node, p: Name, members': map<Node, seq<Name>>)
    requires var was := if v in members then members[v] else [];
      members' == if p in was then members else members[v := was + [p]]
    ensures Pairs(members') == Pairs(members) + {(v, p)}
  {
    var r, r' := Pairs(members) + {(v, p)}, Pairs(members');
    forall e: (Node, Name)
      ensures e in r <==> e in r'
    {
      assert (e.0, e.1) in Pairs(members) <==> e.0 in members && e.1 in members[e.0];
      assert (e.0, e.1) in r' <==> e.0 in members' && e.1 in members'[e.0];
    }
    assert r == r';
  }

  lemma RelAdd(triples: set<(Node, Node, EdgeKind)>, from: Node, to: Node, kind: EdgeKind)
    ensures Dag.RelOf(triples + {(from, to, kind)}, Any) == Dag.RelOf(triples, Any) + {(from, to)}
  {
    var more := triples + {(from, to, kind)};
    var r, r' := Dag.RelOf(triples, Any) + {(from, to)}, Dag.RelOf(more, Any);
    forall e: (Node, Node)
      ensures e in r <==> e in r'
    {
      assert (e.0, e.1) in Dag.RelOf(triples, Any) <==> exists k :: (e.0, e.1, k) in triples && Any(e.0, e.1, k);
      assert (e.0, e.1) in r' <==> exists k :: (e.0, e.1, k) in more && Any(e.0, e.1, k);
      assert (from, to, kind) in more;
    }
    assert r == r';
  }

  lemma NothingYet()
    ensures Dag.RelOf(Dag.Triples<Node, EdgeKind>(map[]), Any) == {}
    ensures Pairs(map[]) == {}
  {
    var none: map<Node, map<Node, set<EdgeKind>>> := map[];
    forall e: (Node, Node)
      ensures e !in Dag.RelOf(Dag.Triples(none), Any)
    {
      var (f, t) := e;
      assert forall k :: (f, t, k) !in Dag.Triples(none);
      assert (f, t) !in Dag.RelOf(Dag.Triples(none), Any);
    }
    var nobody: map<Node, seq<Name>> := map[];
    forall e: (Node, Name)
      ensures e !in Pairs(nobody)
    {
      var (v, p) := e;
      assert (v, p) !in Pairs(nobody);
    }
  }

  /** The maps beside the graph agree with what has been built. */
  ghost predicate Agree(
    t: Shape, vertices: set<Node>, closures: map<Name, set<Name>>, starts: map<Name, Node>, scopes: set<Name>)
  {
    && (forall n :: n in closures ==> closures[n] == Cl(t, n))
    && (forall n :: n in starts <==> ScopeStart(n) in vertices)
    && (forall n :: n in starts ==> starts[n] == ScopeStart(n))
    && (forall n :: n in scopes <==> n in t && Target(n) in vertices && HasScope(t[n]))
  }

  /** One guarded edge. */
  ghost function Guarded(edges: set<(Node, Node)>, from: Node, to: Node): set<(Node, Node)> {
    if Reach(edges, to, from) then edges else edges + {(from, to)}
  }

  /** seen has been searched: what lies outside seen0 leads only into seen and never to `to`. */
  ghost predicate Searched(edges: set<(Node, Node)>, seen0: set<Node>, seen: set<Node>, to: Node) {
    && seen0 <= seen && (to in seen ==> to in seen0)
    && forall x, y {:trigger (x, y) in edges} :: (x, y) in edges && x in seen && x !in seen0 ==> y in seen
  }

  class Builder {
    const plan: Planner.Plan
    const graph: Dag.Graph<Node, EdgeKind>
    var members: map<Node, seq<Name>>
    var starts: map<Name, Node>
    var visiting: set<Name>
    var closures: map<Name, set<Name>>
    var scopes: set<Name>

    constructor (plan: Planner.Plan)
      ensures this.plan == plan && fresh(graph) && graph.Valid() && graph.zero == Nil
      ensures View() == B({}, {}, {}, {}) && visiting == {} && starts == map[] && closures == map[] && scopes == {}
    {
      this.plan := plan;
      graph := new Dag.Graph<Node, EdgeKind>(Nil);
      members, starts, visiting, closures, scopes := map[], map[], {}, map[], {};
      new;
      NothingYet();
    }

    ghost function View(): B
      reads this, graph
    {
      B(graph.vertices.Keys, graph.Rel(Any), Pairs(members), closures.Keys)
    }

    // ---- Paths and single edges -----------------------------------------------------------

    /** hasPath: a depth-first search sharing one set of visited vertices. */
    method HasPath(from: Node, to: Node, seen0: set<Node>) returns (found: bool, seen: set<Node>)
      requires graph.Valid() && from in graph.vertices && seen0 <= graph.vertices.Keys
      ensures found ==> Reach(View().edges, from, to)
      ensures !found ==> Searched(View().edges, seen0, seen, to) && from in seen && seen <= graph.vertices.Keys
      decreases graph.vertices.Keys - seen0
    {
      seen := seen0;
      if from == to {
        ReachRefl(View().edges, from);
        return true, seen;
      }
      if from in seen {
        return false, seen;
      }
      seen := seen + {from};
      var nexts := graph.Successors(from, Any);
      graph.RelInVertices(Any);
      var i := 0;
      while i < |nexts|
        invariant 0 <= i <= |nexts|
        invariant seen0 + {from} <= seen <= graph.vertices.Keys
        invariant Searched(View().edges, seen0 + {from}, seen, to)
        invariant forall j :: 0 <= j < i ==> nexts[j] in seen
      {
        assert (from, nexts[i]) in View().edges;
        found, seen := HasPath(nexts[i], to, seen);
        if found {
          ReachCons(View().edges, from, nexts[i], to);
          return;
        }
        i := i + 1;
      }
      found := false;
      forall y | (from, y) in View().edges
        ensures y in seen
      {
        var j :| 0 <= j < |nexts| && nexts[j] == y;
      }
    }

    /** From an empty set of visited vertices the search decides reachability. */
    method Reaches(from: Node, to: Node) returns (found: bool)
      requires graph.Valid() && from in graph.vertices
      ensures found <==> Reach(View().edges, from, to)
    {
      var seen;
      found, seen := HasPath(from, to, {});
      if !found {
        assert SuccClosed(View().edges, seen);
        if Reach(View().edges, from, to) {
          ReachStaysIn(View().edges, seen, from, to);
        }
      }
    }

    method AddGraphEdge(from: Node, to: Node, kind: EdgeKind)
      requires graph.Valid() && graph.zero == Nil && !from.Nil? && !to.Nil? && from != to
      requires from in graph.vertices && to in graph.vertices
      modifies graph
      ensures graph.Valid()
      ensures View() == old(View()).(edges := old(View().edges) + {(from, to)})
    {
      RelAdd(graph.EdgeSet(), from, to, kind);
      graph.AddEdge(from, to, kind);
    }

    method AddExecutionEdge(from: Node, to: Node, kind: EdgeKind)
      requires graph.Valid() && graph.zero == Nil && from in graph.vertices && to in graph.vertices
      modifies graph
      ensures graph.Valid()
      ensures View() == old(View()).(edges := Guarded(old(View().edges), from, to))
    {
      if from.Nil? || to.Nil? {
        return;
      }
      var found := Reaches(to, from);
      if found {
        return;
      }
      if from == to {
        ReachRefl(View().edges, from);
      }
      AddGraphEdge(from, to, kind);
    }

    // ---- Vertices and memberships ---------------------------------------------------------

    ghost predicate Books()
      reads this, graph
    {
      && graph.Valid() && graph.zero == Nil
      && Agree(ShapeOf(plan), graph.vertices.Keys, closures, starts, scopes)
    }

    ghost predicate Valid()
      reads this, graph
    {
      Books() && Inv(ShapeOf(plan), View(), visiting)
    }

    method AddTargetVertex(name: Name)
      requires Books() && name in plan.targets
      modifies this`scopes, graph
      ensures Books() && View() == AddTarget(old(View()), name)
    {
      var scoped := Planner.HasCompositeScope(plan.compositeEdges, name);
      if scoped {
        scopes := scopes + {name};
      }
      graph.AddVertex(Target(name), "target");
    }

    method AddScopeStart(p: Name)
      requires Books()
      modifies this`starts, graph
      ensures Books() && View() == old(View()).(vertices := old(View().vertices) + {ScopeStart(p)})
    {
      graph.AddVertex(ScopeStart(p), "scope_start");
      starts := starts[p := ScopeStart(p)];
    }

    method AddBarrier(p: Name, index: nat)
      requires graph.Valid() && graph.zero == Nil
      modifies graph
      ensures graph.Valid() && View() == old(View()).(vertices := old(View().vertices) + {Barrier(p, index)})
    {
      graph.AddVertex(Barrier(p, index), "barrier");
    }

    method AddMemberScope(node: Node, scope: Name)
      modifies this`members
      ensures View() == old(View()).(members := old(View().members) + {(node, scope)})
    {
      var was := if node in members then members[node] else [];
      PairsAdd(members, node, scope, if scope in was then members else members[node := was + [scope]]);
      if scope in was {
        return;
      }
      members := members[node := was + [scope]];
    }

    function StartOrTarget(name: Name): Node
      reads this
    {
      if name in starts then starts[name] else Target(name)
    }

    method ClosuresFor(names: seq<Name>) returns (closure: set<Name>)
      requires forall n :: n in names ==> n in closures && closures[n] == Cl(ShapeOf(plan), n)
      ensures closure == Closures(ShapeOf(plan), names)
    {
      closure := {};
      var i := 0;
      while i < |names|
        invariant 0 <= i <= |names|
        invariant closure == Closures(ShapeOf(plan), names[..i])
      {
        assert names[..i + 1][..i] == names[..i];
        assert names[i] in names;
        closure := closure + closures[names[i]];
        i := i + 1;
      }
      assert names[..i] == names;
    }

    // ---- Loops over a closure -------------------------------------------------------------

    /** One vertex enters the scope of p. */
    method EnterVertex(p: Name, v: Node, ghost base: B, ghost tos: set<Node>)
      requires graph.Valid() && graph.zero == Nil && ScopeStart(p) in graph.vertices && v in graph.vertices
      requires View() == Entered(base, p, tos)
      modifies this`members, graph
      ensures graph.Valid() && View() == Entered(base, p, tos + {v})
    {
      EnteredNext(base, p, tos, v);
      AddExecutionEdge(ScopeStart(p), v, Scope);
      AddMemberScope(v, p);
    }

    /** The vertices of a closure, in any order, enter the scope of p unless they are complete. */
    method EnterScope(p: Name, closure: set<Name>, complete: set<Name>, ghost base: B, ghost tos: set<Node>)
      requires graph.Valid() && graph.zero == Nil && ScopeStart(p) in graph.vertices
      requires Targets(closure) <= graph.vertices.Keys && p !in closure
      requires View() == Entered(base, p, tos)
      modifies this`members, graph
      ensures graph.Valid() && View() == Entered(base, p, tos + Targets(closure - complete))
    {
      var todo := closure;
      assert tos + Targets(closure - todo - complete) == tos;
      while todo != {}
        invariant todo <= closure && graph.Valid()
        invariant View() == Entered(base, p, tos + Targets(closure - todo - complete))
        invariant graph.vertices.Keys == base.vertices
      {
        var node :| node in todo;
        ghost var done := closure - todo - complete;
        todo := todo - {node};
        if node == p || node in complete {
          assert closure - todo - complete == done;
          continue;
        }
        assert Target(node) in Targets(closure);
        EnterVertex(p, Target(node), base, tos + Targets(done));
        assert closure - todo - complete == done + {node};
        assert tos + Targets(done) + {Target(node)} == tos + Targets(done + {node});
      }
      assert closure - todo - complete == closure - complete;
    }

    /** Edges from a barrier to the vertices of a closure that are not complete. */
    method SequenceFrom(barrier: Node, closure: set<Name>, complete: set<Name>, ghost base: B, ghost tos: set<Node>)
      requires graph.Valid() && graph.zero == Nil && barrier in graph.vertices
      requires Targets(closure) <= graph.vertices.Keys
      requires View() == base.(edges := Star(base.edges, barrier, tos))
      modifies graph
      ensures graph.Valid()
      ensures View() == base.(edges := Star(base.edges, barrier, tos + Targets(closure - complete)))
    {
      var todo := closure;
      assert tos + Targets(closure - todo - complete) == tos;
      while todo != {}
        invariant todo <= closure && graph.Valid()
        invariant View() == base.(edges := Star(base.edges, barrier, tos + Targets(closure - todo - complete)))
        invariant graph.vertices.Keys == base.vertices
      {
        var node :| node in todo;
        ghost var done := closure - todo - complete;
        todo := todo - {node};
        if node in complete {
          assert closure - todo - complete == done;
          continue;
        }
        assert Target(node) in Targets(closure);
        GuardedNext(base.edges, barrier, tos + Targets(done), Target(node));
        AddExecutionEdge(barrier, Target(node), Sequence);
        assert closure - todo - complete == done + {node};
        assert tos + Targets(done) + {Target(node)} == tos + Targets(done + {node});
      }
      assert closure - todo - complete == closure - complete;
    }

    /** Edges from every vertex of a closure to a sink; the guard drops none of them. */
    method FinalizeInto(closure: set<Name>, to: Node)
      requires graph.Valid() && graph.zero == Nil && to in graph.vertices
      requires Targets(closure) <= graph.vertices.Keys
      requires NoOut(View().edges, to) && to !in Targets(closure)
      modifies graph
      ensures graph.Valid()
      ensures View() == old(View()).(edges := Into(old(View()).edges, Targets(closure), to))
    {
      ghost var base := View();
      var todo := closure;
      IntoNone(base.edges, to);
      assert Targets(closure - todo) == {};
      while todo != {}
        invariant todo <= closure && graph.Valid()
        invariant View() == base.(edges := Into(base.edges, Targets(closure - todo), to))
        invariant graph.vertices.Keys == base.vertices
      {
        var node :| node in todo;
        ghost var done := closure - todo;
        todo := todo - {node};
        assert Target(node) in Targets(closure);
        GuardedIntoNext(base.edges, Targets(done), to, Target(node));
        AddExecutionEdge(Target(node), to, Finalize);
        assert closure - todo == done + {node};
        assert Targets(done) + {Target(node)} == Targets(done + {node});
      }
      assert closure - todo == closure;
    }

    /** One vertex of a member's closure: it enters the scope unless it is complete, and gets an edge
        to the group's own vertex. */
    method EnterGroupVertex(g: Name, node: Name, complete: bool, ghost base: B, ghost tos: set<Node>, ghost froms: set<Node>)
      requires graph.Valid() && graph.zero == Nil && ScopeStart(g) in graph.vertices && Target(g) in graph.vertices
      requires Target(node) in graph.vertices && node != g
      requires NoOut(base.edges, Target(g)) && Target(g) !in froms
      requires View() == Grouped(base, g, tos, froms)
      modifies this`members, graph
      ensures graph.Valid()
      ensures View() == Grouped(base, g, tos + if complete then {} else {Target(node)}, froms + {Target(node)})
    {
      ghost var vs := tos + if complete then {} else {Target(node)};
      if !complete {
        GroupedEnter(base, g, tos, froms, Target(node));
        AddExecutionEdge(ScopeStart(g), Target(node), Scope);
        AddMemberScope(Target(node), g);
      } else {
        assert vs == tos;
      }
      GroupedInto(base, g, vs, froms, Target(node));
      AddExecutionEdge(Target(node), Target(g), Group);
    }

    /** The vertices of a member's closure, in any order. */
    method EnterGroup(g: Name, closure: set<Name>, complete: set<Name>, ghost base: B, ghost tos: set<Node>)
      requires graph.Valid() && graph.zero == Nil && ScopeStart(g) in graph.vertices && Target(g) in graph.vertices
      requires Targets(closure) <= graph.vertices.Keys && g !in closure && NoOut(base.edges, Target(g))
      requires View() == Entered(base, g, tos)
      modifies this`members, graph
      ensures graph.Valid()
      ensures View() == Grouped(base, g, tos + Targets(closure - complete), Targets(closure))
    {
      var todo := closure;
      assert Targets(closure - todo) == {} && tos + Targets(closure - todo - complete) == tos;
      IntoNone(Entered(base, g, tos).edges, Target(g));
      while todo != {}
        invariant todo <= closure && graph.Valid()
        invariant View() == Grouped(base, g, tos + Targets(closure - todo - complete), Targets(closure - todo))
        invariant graph.vertices.Keys == base.vertices
      {
        var node :| node in todo;
        assert Target(node) in Targets(closure);
        NextTargets(closure, todo, complete, node, tos);
        ghost var done := closure - todo;
        todo := todo - {node};
        if node != g {
          EnterGroupVertex(g, node, node in complete, base, tos + Targets(done - complete), Targets(done));
        }
      }
      assert closure - todo == closure;
    }

    // ---- One step, one member ---------------------------------------------------------------

    /** The step's root and closure enter the scope of p. */
    method WireScope(p: Name, root: Node, closure: set<Name>, complete: set<Name>)
      requires graph.Valid() && graph.zero == Nil && ScopeStart(p) in graph.vertices && root in graph.vertices
      requires Targets(closure) <= graph.vertices.Keys && p !in closure
      modifies this`members, graph
      ensures graph.Valid()
      ensures View() == Entered(old(View()), p, Newcomers(root, closure, complete))
    {
      ghost var base := View();
      EnteredNone(base, p);
      if !(root.Target? && root.name in complete) {
        EnterVertex(p, root, base, {});
        EnterScope(p, closure, complete, base, {} + {root});
        assert {} + {root} + Targets(closure - complete) == Newcomers(root, closure, complete);
      } else {
        EnterScope(p, closure, complete, base, {});
        assert {} + Targets(closure - complete) == Newcomers(root, closure, complete);
      }
    }

    /** Sequence edges from the barrier before the step. */
    method WireSequence(barrier: Node, root: Node, closure: set<Name>, complete: set<Name>)
      requires graph.Valid() && graph.zero == Nil && barrier in graph.vertices && root in graph.vertices
      requires Targets(closure) <= graph.vertices.Keys
      modifies graph
      ensures graph.Valid()
      ensures View() == old(View()).(edges :=
        Star(old(View()).edges, barrier, Newcomers(root, closure, complete) + {root}))
    {
      ghost var base := View();
      GuardedNext(base.edges, barrier, {}, root);
      StarNone(base.edges, barrier);
      AddExecutionEdge(barrier, root, Sequence);
      SequenceFrom(barrier, closure, complete, base, {} + {root});
      assert {} + {root} + Targets(closure - complete) == Newcomers(root, closure, complete) + {root};
    }

    /** The body of the loop over pipeline steps, after the step's closure has been added. */
    method WireStep(p: Name, index: nat, step: Name, closure: set<Name>, complete: set<Name>)
      requires Books() && p in ShapeOf(plan)
      requires index < |ShapeOf(plan)[p].steps| && step == ShapeOf(plan)[p].steps[index]
      requires closure == Cl(ShapeOf(plan), step) && complete == Prev(ShapeOf(plan), p, index)
      requires Rooted(ShapeOf(plan), View(), step)
      requires StepReady(View(), p, index, Root(ShapeOf(plan), step), closure)
      modifies this`members, graph
      ensures Books() && View() == AddStep(ShapeOf(plan), old(View()), p, index)
    {
      ghost var t, base := ShapeOf(plan), View();
      var root := StartOrTarget(step);
      FreshIs(t, step, complete);
      WireScope(p, root, closure, complete);
      if index > 0 {
        WireSequence(Barrier(p, index - 1), root, closure, complete);
      }
      assert View().edges == StepEdges(t, base.edges, p, index);
      StepEdgesNoOut(t, base.edges, p, index);
      AddBarrier(p, index);
      FinalizeInto(closure, Barrier(p, index));
      AgreeBarrier(t, base.vertices, closures, starts, scopes, p, index);
    }

    /** The body of the loop over group members, after the member's closure has been added. */
    method WireMember(g: Name, index: nat, member: Name, closure: set<Name>, complete: set<Name>)
      requires Books() && g in ShapeOf(plan)
      requires index < |ShapeOf(plan)[g].members| && member == ShapeOf(plan)[g].members[index]
      requires closure == Cl(ShapeOf(plan), member) && complete == Closures(ShapeOf(plan), ShapeOf(plan)[g].deps)
      requires Rooted(ShapeOf(plan), View(), member)
      requires MemberReady(View(), g, Root(ShapeOf(plan), member), closure)
      modifies this`members, graph
      ensures Books() && View() == AddMember(ShapeOf(plan), old(View()), g, index)
    {
      ghost var base := View();
      var root := StartOrTarget(member);
      FreshIs(ShapeOf(plan), member, complete);
      EnteredNone(base, g);
      if !(root.Target? && root.name in complete) {
        EnterVertex(g, root, base, {});
        EnterGroup(g, closure, complete, base, {} + {root});
        assert {} + {root} + Targets(closure - complete) == Newcomers(root, closure, complete);
      } else {
        EnterGroup(g, closure, complete, base, {});
        assert {} + Targets(closure - complete) == Newcomers(root, closure, complete);
      }
    }

    /** Edges from the dependencies to the scope start of p. */
    method AddScopeDependencies(p: Name, dependsOn: seq<Name>)
      requires graph.Valid() && graph.zero == Nil && ScopeStart(p) in graph.vertices
      requires Targets(Elems(dependsOn)) <= graph.vertices.Keys
      modifies graph
      ensures graph.Valid()
      ensures View() == old(View()).(edges := Into(old(View()).edges, Targets(Elems(dependsOn)), ScopeStart(p)))
    {
      ghost var base := View();
      IntoNone(base.edges, ScopeStart(p));
      assert Targets(Elems(dependsOn[..0])) == {};
      var i := 0;
      while i < |dependsOn|
        invariant 0 <= i <= |dependsOn| && graph.Valid()
        invariant View() == base.(edges := Into(base.edges, Targets(Elems(dependsOn[..i])), ScopeStart(p)))
        invariant graph.vertices.Keys == base.vertices
      {
        TakeSnoc(dependsOn, i);
        ElemsSnoc(dependsOn[..i], dependsOn[i]);
        IntoNext(base.edges, Targets(Elems(dependsOn[..i])), ScopeStart(p), Target(dependsOn[i]));
        assert Targets(Elems(dependsOn[..i])) + {Target(dependsOn[i])} == Targets(Elems(dependsOn[..i + 1]));
        assert dependsOn[i] in Elems(dependsOn);
        AddGraphEdge(Target(dependsOn[i]), ScopeStart(p), Dependency);
        i := i + 1;
      }
      assert dependsOn[..i] == dependsOn;
    }

    /** The scope start of p and its edges from the dependencies. */
    method OpenFor(p: Name, dependsOn: seq<Name>)
      requires Books() && p in plan.targets && dependsOn == plan.targets[p].dependsOn
      requires Targets(Elems(dependsOn)) <= graph.vertices.Keys
      modifies this`starts, graph
      ensures Books() && View() == OpenScope(ShapeOf(plan), old(View()), p)
    {
      AddScopeStart(p);
      AddScopeDependencies(p, dependsOn);
    }

    // ---- The recursion ------------------------------------------------------------------------

    /** One dependency: its closure, then its edge. */
    method AddDependency(name: Name, i: nat, next: nat, dep: Name, ghost base: B) returns (ok: bool, closure: set<Name>)
      requires Books() && name in plan.targets && i < |plan.targets[name].dependsOn|
      requires dep == plan.targets[name].dependsOn[i]
      requires Deps(ShapeOf(plan), base, visiting, name, i) == Some(View())
      requires Depending(ShapeOf(plan), base, View(), visiting, name, i)
      requires next == i + 1
      modifies this, graph
      ensures ok <==> Deps(ShapeOf(plan), base, old(visiting), name, next).Some?
      ensures ok ==> Books() && visiting == old(visiting) && closure == Cl(ShapeOf(plan), dep)
      ensures ok ==> Deps(ShapeOf(plan), base, visiting, name, next) == Some(View())
      ensures ok ==> Depending(ShapeOf(plan), base, View(), visiting, name, next)
      decreases plan.targets.Keys - visiting, 1, 0
    {
      ghost var before := View();
      ok, closure := AddClosure(dep);
      if ok {
        DepsOneMore(ShapeOf(plan), base, before, View(), visiting, name, i);
        AddGraphEdge(Target(dep), Target(name), Dependency);
      }
    }

    method AddDependencies(name: Name, dependsOn: seq<Name>) returns (ok: bool, closure: set<Name>)
      requires Valid() && name in visiting && Target(name) in graph.vertices
      requires name in plan.targets && dependsOn == plan.targets[name].dependsOn
      modifies this, graph
      ensures ok <==> Deps(ShapeOf(plan), old(View()), old(visiting), name, |dependsOn|).Some?
      ensures ok ==> Books() && visiting == old(visiting) && closure == {name} + Closures(ShapeOf(plan), dependsOn)
      ensures ok ==> Deps(ShapeOf(plan), old(View()), visiting, name, |dependsOn|) == Some(View())
      ensures ok ==> Depending(ShapeOf(plan), old(View()), View(), visiting, name, |dependsOn|)
      decreases plan.targets.Keys - visiting, 2, 0
    {
      ghost var t, base, inside := ShapeOf(plan), View(), visiting;
      closure := {name};
      var i := 0;
      while i < |dependsOn|
        invariant 0 <= i <= |dependsOn| && Books() && visiting == inside
        invariant Deps(t, base, inside, name, i) == Some(View()) && Depending(t, base, View(), inside, name, i)
        invariant closure == {name} + Closures(t, dependsOn[..i])
      {
        var depClosure;
        var next := i + 1;
        ok, depClosure := AddDependency(name, i, next, dependsOn[i], base);
        if !ok {
          DepsNone(t, base, inside, name, next, |dependsOn|);
          return;
        }
        SumTake(t, {name}, dependsOn, i);
        closure := closure + depClosure;
        i := next;
      }
      assert dependsOn[..i] == dependsOn;
      ok := true;
    }

    /** The edges of step i, once its closure has taken the build from `before` to here. */
    method FinishStep(p: Name, i: nat, step: Name, closure: set<Name>, complete: set<Name>, ghost base: B, ghost before: B)
      requires Books() && StepsWired(ShapeOf(plan), base, before, visiting, p, i)
      requires i < |ShapeOf(plan)[p].steps| && step == ShapeOf(plan)[p].steps[i]
      requires Visit(ShapeOf(plan), before, visiting, step) == Some(View())
      requires closure == Cl(ShapeOf(plan), step) && complete == Prev(ShapeOf(plan), p, i)
      modifies this`members, graph
      ensures Books() && StepsWired(ShapeOf(plan), base, View(), visiting, p, i + 1)
    {
      StepsOneMore(ShapeOf(plan), base, before, View(), visiting, p, i);
      WireStep(p, i, step, closure, complete);
    }

    /** The edges of member i, once its closure has taken the build from `before` to here. */
    method FinishMember(g: Name, i: nat, member: Name, closure: set<Name>, complete: set<Name>, ghost base: B, ghost before: B)
      requires Books() && MembersWired(ShapeOf(plan), base, before, visiting, g, i)
      requires i < |ShapeOf(plan)[g].members| && member == ShapeOf(plan)[g].members[i]
      requires Visit(ShapeOf(plan), before, visiting, member) == Some(View())
      requires closure == Cl(ShapeOf(plan), member) && complete == Closures(ShapeOf(plan), ShapeOf(plan)[g].deps)
      modifies this`members, graph
      ensures Books() && MembersWired(ShapeOf(plan), base, View(), visiting, g, i + 1)
    {
      MembersOneMore(ShapeOf(plan), base, before, View(), visiting, g, i);
      WireMember(g, i, member, closure, complete);
    }

    /** One pipeline step: its closure, then its edges. */
    method AddPipelineStep(
      p: Name, i: nat, next: nat, step: Name, closure: set<Name>, previousClosures: set<Name>,
      ghost closure0: set<Name>, ghost base: B)
      returns (ok: bool, closure': set<Name>, previousClosures': set<Name>)
      requires Books() && StepsWired(ShapeOf(plan), base, View(), visiting, p, i)
      requires next == i + 1 && i < |ShapeOf(plan)[p].steps| && step == ShapeOf(plan)[p].steps[i]
      requires Gathered(ShapeOf(plan), p, i, closure0, closure, previousClosures)
      modifies this, graph
      ensures !ok ==> Steps(ShapeOf(plan), base, old(visiting), p, next).None?
      ensures ok ==> Books() && visiting == old(visiting)
      ensures ok ==> StepsWired(ShapeOf(plan), base, View(), visiting, p, next)
      ensures ok ==> Gathered(ShapeOf(plan), p, next, closure0, closure', previousClosures')
      decreases plan.targets.Keys - visiting, 1, 0
    {
      ghost var before := View();
      var stepClosure;
      ok, stepClosure := AddClosure(step);
      closure', previousClosures' := closure + stepClosure, previousClosures + stepClosure;
      if ok {
        GatherNext(ShapeOf(plan), p, i, closure0, closure, previousClosures);
        FinishStep(p, i, step, stepClosure, previousClosures, base, before);
      }
    }

    /** One group member: its closure, then its edges. */
    method AddGroupMember(g: Name, i: nat, next: nat, member: Name, complete: set<Name>, ghost base: B)
      returns (ok: bool, closure: set<Name>)
      requires Books() && MembersWired(ShapeOf(plan), base, View(), visiting, g, i)
      requires i < |ShapeOf(plan)[g].members| && member == ShapeOf(plan)[g].members[i]
      requires complete == Closures(ShapeOf(plan), ShapeOf(plan)[g].deps)
      requires next == i + 1
      modifies this, graph
      ensures !ok ==> Members(ShapeOf(plan), base, old(visiting), g, next).None?
      ensures ok ==> Books() && visiting == old(visiting) && closure == Cl(ShapeOf(plan), member)
      ensures ok ==> MembersWired(ShapeOf(plan), base, View(), visiting, g, next)
      decreases plan.targets.Keys - visiting, 1, 0
    {
      ghost var before := View();
      ok, closure := AddClosure(member);
      if ok {
        FinishMember(g, i, member, closure, complete, base, before);
      }
    }

    /** The loop over the steps of a pipeline. */
    method AddSteps(p: Name, steps: seq<Name>, closure0: set<Name>, completed: set<Name>, ghost base: B)
      returns (ok: bool, closure: set<Name>)
      requires Books() && StepsWired(ShapeOf(plan), base, View(), visiting, p, 0)
      requires steps == ShapeOf(plan)[p].steps && completed == Closures(ShapeOf(plan), ShapeOf(plan)[p].deps)
      modifies this, graph
      ensures !ok ==> Steps(ShapeOf(plan), base, old(visiting), p, |steps|).None?
      ensures ok ==> Books() && visiting == old(visiting) && closure == closure0 + Closures(ShapeOf(plan), steps)
      ensures ok ==> StepsWired(ShapeOf(plan), base, View(), visiting, p, |steps|)
      decreases plan.targets.Keys - visiting, 2, 0
    {
      closure := closure0;
      var previousClosures := completed;
      var index := 0;
      while index < |steps|
        invariant 0 <= index <= |steps| && Books() && visiting == old(visiting)
        invariant StepsWired(ShapeOf(plan), base, View(), visiting, p, index)
        invariant Gathered(ShapeOf(plan), p, index, closure0, closure, previousClosures)
      {
        var next := index + 1;
        ok, closure, previousClosures :=
          AddPipelineStep(p, index, next, steps[index], closure, previousClosures, closure0, base);
        if !ok {
          StepsNone(ShapeOf(plan), base, old(visiting), p, next, |steps|);
          return;
        }
        index := next;
      }
      assert steps[..index] == steps;
      ok := true;
    }

    /** The loop over the members of a group. */
    method AddMembers(g: Name, targets: seq<Name>, closure0: set<Name>, completed: set<Name>, ghost base: B)
      returns (ok: bool, closure: set<Name>)
      requires Books() && MembersWired(ShapeOf(plan), base, View(), visiting, g, 0)
      requires targets == ShapeOf(plan)[g].members && completed == Closures(ShapeOf(plan), ShapeOf(plan)[g].deps)
      modifies this, graph
      ensures !ok ==> Members(ShapeOf(plan), base, old(visiting), g, |targets|).None?
      ensures ok ==> Books() && visiting == old(visiting) && closure == closure0 + Closures(ShapeOf(plan), targets)
      ensures ok ==> MembersWired(ShapeOf(plan), base, View(), visiting, g, |targets|)
      decreases plan.targets.Keys - visiting, 2, 0
    {
      closure := closure0;
      ghost var t, inside := ShapeOf(plan), visiting;
      var index := 0;
      while index < |targets|
        invariant 0 <= index <= |targets| && Books() && visiting == inside
        invariant MembersWired(t, base, View(), inside, g, index)
        invariant closure == closure0 + Closures(t, targets[..index])
      {
        var memberClosure;
        var next := index + 1;
        ok, memberClosure := AddGroupMember(g, index, next, targets[index], completed, base);
        if !ok {
          MembersNone(t, base, inside, g, next, |targets|);
          return;
        }
        SumTake(t, closure0, targets, index);
        closure := closure + memberClosure;
        index := next;
      }
      assert targets[..index] == targets;
      ok := true;
    }

    /** The edges that end a scope: from the last barrier, if there is one, and from the start. */
    method EndFor(p: Name, steps: nat)
      requires graph.Valid() && graph.zero == Nil && EndReady(View(), p, steps)
      modifies graph
      ensures graph.Valid() && View() == EndScope(old(View()), p, steps)
    {
      ghost var base := View();
      IntoNone(base.edges, Target(p));
      ghost var froms := {};
      if steps > 0 {
        GuardedIntoNext(base.edges, froms, Target(p), Barrier(p, steps - 1));
        AddExecutionEdge(Barrier(p, steps - 1), Target(p), Finalize);
        froms := froms + {Barrier(p, steps - 1)};
      }
      GuardedIntoNext(base.edges, froms, Target(p), ScopeStart(p));
      AddExecutionEdge(ScopeStart(p), Target(p), Finalize);
      assert froms + {ScopeStart(p)} == {ScopeStart(p)} + if steps == 0 then {} else {Barrier(p, steps - 1)};
    }

    /** Opens the scope of a target and collects what its dependencies have completed. */
    method StartScope(p: Name, dependsOn: seq<Name>) returns (completedBeforeScope: set<Name>)
      requires Books() && p in plan.targets && dependsOn == plan.targets[p].dependsOn
      requires Targets(Elems(dependsOn)) <= graph.vertices.Keys && forall d :: d in dependsOn ==> d in closures
      modifies this`starts, graph
      ensures Books() && View() == OpenScope(ShapeOf(plan), old(View()), p)
      ensures completedBeforeScope == Closures(ShapeOf(plan), dependsOn)
    {
      OpenFor(p, dependsOn);
      completedBeforeScope := ClosuresFor(dependsOn);
    }

    /** With every step wired, the edges that end the scope. */
    method EndPipeline(p: Name, steps: seq<Name>, ghost base: B)
      requires Books() && StepsWired(ShapeOf(plan), base, View(), visiting, p, |steps|)
      requires Target(p) in base.vertices && steps == ShapeOf(plan)[p].steps && steps != []
      modifies graph
      ensures Books()
      ensures var wired := Steps(ShapeOf(plan), base, visiting, p, |steps|);
        wired.Some? && View() == EndScope(wired.value, p, |steps|)
    {
      StepsEnd(ShapeOf(plan), View(), visiting, p);
      EndFor(p, |steps|);
    }

    method AddStepsAndEnd(p: Name, steps: seq<Name>, closure0: set<Name>, completed: set<Name>, ghost base: B)
      returns (ok: bool, closure: set<Name>)
      requires Books() && base == View() && StepsWired(ShapeOf(plan), base, base, visiting, p, 0)
      requires Target(p) in base.vertices
      requires steps == ShapeOf(plan)[p].steps && steps != []
      requires completed == Closures(ShapeOf(plan), ShapeOf(plan)[p].deps)
      modifies this, graph
      ensures !ok ==> Steps(ShapeOf(plan), base, old(visiting), p, |steps|).None?
      ensures ok ==> Books() && visiting == old(visiting) && closure == closure0 + Closures(ShapeOf(plan), steps)
      ensures ok ==> var wired := Steps(ShapeOf(plan), base, visiting, p, |steps|);
        wired.Some? && View() == EndScope(wired.value, p, |steps|)
      decreases plan.targets.Keys - visiting, 3, 0
    {
      ok, closure := AddSteps(p, steps, closure0, completed, base);
      if ok {
        EndPipeline(p, steps, base);
      }
    }

    method AddPipeline(name: Name, dependsOn: seq<Name>, steps: seq<Name>, closure0: set<Name>)
      returns (ok: bool, closure: set<Name>)
      requires Books() && ScopeReady(ShapeOf(plan), View(), visiting, name) && Bare(View(), name)
      requires dependsOn == ShapeOf(plan)[name].deps && steps == ShapeOf(plan)[name].steps && steps != []
      modifies this, graph
      ensures !ok ==> BuildSpec.AddPipeline(ShapeOf(plan), old(View()), old(visiting), name).None?
      ensures ok ==> Books() && visiting == old(visiting) && closure == closure0 + Closures(ShapeOf(plan), steps)
      ensures ok ==> BuildSpec.AddPipeline(ShapeOf(plan), old(View()), visiting, name) == Some(View())
      decreases plan.targets.Keys - visiting, 4, 0
    {
      ghost var t := ShapeOf(plan);
      PipelineOpens(t, View(), visiting, name);
      var completedBeforeScope := StartScope(name, dependsOn);
      ok, closure := AddStepsAndEnd(name, steps, closure0, completedBeforeScope, View());
    }

    method AddGroup(name: Name, dependsOn: seq<Name>, targets: seq<Name>, closure0: set<Name>)
      returns (ok: bool, closure: set<Name>)
      requires Books() && ScopeReady(ShapeOf(plan), View(), visiting, name)
      requires ScopeStart(name) in graph.vertices ==> Opened(ShapeOf(plan), View(), name)
      requires dependsOn == ShapeOf(plan)[name].deps && targets == ShapeOf(plan)[name].members && targets != []
      modifies this, graph
      ensures !ok ==> BuildSpec.AddGroup(ShapeOf(plan), old(View()), old(visiting), name).None?
      ensures ok ==> Books() && visiting == old(visiting) && closure == closure0 + Closures(ShapeOf(plan), targets)
      ensures ok ==> BuildSpec.AddGroup(ShapeOf(plan), old(View()), visiting, name) == Some(View())
      decreases plan.targets.Keys - visiting, 3, 0
    {
      ghost var t := ShapeOf(plan);
      GroupOpens(t, View(), visiting, name);
      var completedBeforeScope := StartScope(name, dependsOn);
      ok, closure := AddMembers(name, targets, closure0, completedBeforeScope, View());
      if ok {
        MembersEnd(t, View(), visiting, name);
        EndFor(name, 0);
      }
    }

    /** The children of kind pipeline_step, if there are any. */
    method AddPipelineChildren(name: Name, dependsOn: seq<Name>, closure0: set<Name>)
      returns (ok: bool, closure: set<Name>)
      requires Books() && ScopeReady(ShapeOf(plan), View(), visiting, name) && Bare(View(), name)
      requires dependsOn == ShapeOf(plan)[name].deps
      modifies this, graph
      ensures !ok ==> BuildSpec.AddPipeline(ShapeOf(plan), old(View()), old(visiting), name).None?
      ensures ok ==> Books() && visiting == old(visiting)
      ensures ok ==> closure == closure0 + Closures(ShapeOf(plan), ShapeOf(plan)[name].steps)
      ensures ok ==> BuildSpec.AddPipeline(ShapeOf(plan), old(View()), visiting, name) == Some(View())
      decreases plan.targets.Keys - visiting, 5, 0
    {
      var steps := Planner.ChildrenOfKind(plan.compositeEdges, name, Planner.PipelineStep);
      if |steps| > 0 {
        ok, closure := AddPipeline(name, dependsOn, steps, closure0);
      } else {
        ok, closure := true, closure0;
      }
    }

    /** The children of kind group_member, if there are any. */
    method AddGroupChildren(name: Name, dependsOn: seq<Name>, closure0: set<Name>)
      returns (ok: bool, closure: set<Name>)
      requires Books() && ScopeReady(ShapeOf(plan), View(), visiting, name)
      requires ScopeStart(name) in graph.vertices ==> Opened(ShapeOf(plan), View(), name)
      requires dependsOn == ShapeOf(plan)[name].deps
      modifies this, graph
      ensures !ok ==> BuildSpec.AddGroup(ShapeOf(plan), old(View()), old(visiting), name).None?
      ensures ok ==> Books() && visiting == old(visiting)
      ensures ok ==> closure == closure0 + Closures(ShapeOf(plan), ShapeOf(plan)[name].members)
      ensures ok ==> BuildSpec.AddGroup(ShapeOf(plan), old(View()), visiting, name) == Some(View())
      decreases plan.targets.Keys - visiting, 5, 0
    {
      var targets := Planner.ChildrenOfKind(plan.compositeEdges, name, Planner.GroupMember);
      if |targets| > 0 {
        ok, closure := AddGroup(name, dependsOn, targets, closure0);
      } else {
        ok, closure := true, closure0;
      }
    }

    /** Dependencies, steps and members of a target whose vertex has just been added. */
    method AddChildren(name: Name, dependsOn: seq<Name>) returns (ok: bool, closure: set<Name>)
      requires Valid() && name in visiting && Bare(View(), name)
      requires name in plan.targets && dependsOn == plan.targets[name].dependsOn
      modifies this, graph
      ensures ok <==> Inside(ShapeOf(plan), old(View()), old(visiting), name).Some?
      ensures ok ==> Books() && visiting == old(visiting) && closure == Cl(ShapeOf(plan), name)
      ensures ok ==> Inside(ShapeOf(plan), old(View()), visiting, name) == Some(View())
      decreases plan.targets.Keys - visiting, 6, 0
    {
      ghost var t, b0 := ShapeOf(plan), View();
      ok, closure := AddDependencies(name, dependsOn);
      if !ok {
        return;
      }
      ghost var b1 := View();
      StillBare(b0, b1, visiting, name);
      ok, closure := AddPipelineChildren(name, dependsOn, closure);
      if !ok {
        return;
      }
      PipelineLeavesReady(t, b1, visiting, name);
      ok, closure := AddGroupChildren(name, dependsOn, closure);
      ClosureIsUnion(t, name);
    }

    method Begin(name: Name)
      requires Valid() && name in plan.targets && name !in closures && name !in visiting
      modifies this`visiting, this`scopes, graph
      ensures Valid() && View() == AddTarget(old(View()), name)
      ensures visiting == old(visiting) + {name} && Bare(View(), name)
    {
      AddTargetKeeps(ShapeOf(plan), View(), visiting, name);
      AddTargetVertex(name);
      visiting := visiting + {name};
    }

    method Finish(name: Name, closure: set<Name>)
      requires Books() && closure == Cl(ShapeOf(plan), name)
      modifies this`closures
      ensures Books() && View() == old(View()).(closed := old(View()).closed + {name})
    {
      closures := closures[name := closure];
    }

    method AddClosure(name: Name) returns (ok: bool, closure: set<Name>)
      requires Valid()
      modifies this, graph
      ensures ok <==> Visit(ShapeOf(plan), old(View()), old(visiting), name).Some?
      ensures ok ==> Books() && visiting == old(visiting) && closure == Cl(ShapeOf(plan), name)
      ensures ok ==> View() == Visit(ShapeOf(plan), old(View()), old(visiting), name).value
      decreases plan.targets.Keys - visiting, 0, 0
    {
      if name in closures {
        return true, closures[name];
      }
      if name in visiting || name !in plan.targets {
        return false, {};
      }
      VisitInside(ShapeOf(plan), View(), visiting, name);
      Begin(name);
      ok, closure := AddChildren(name, plan.targets[name].dependsOn);
      if ok {
        Finish(name, closure);
      }
      visiting := visiting - {name};
    }
  }

  /** buildExecutionGraph. The final ValidateAcyclic never objects. */
  method BuildExecutionGraph(plan: Planner.Plan) returns (ok: bool, builder: Builder)
    ensures fresh(builder) && fresh(builder.graph) && builder.plan == plan
    ensures ok <==> Build(ShapeOf(plan), plan.requested).Some?
    ensures ok ==> builder.Valid() && builder.visiting == {}
    ensures ok ==> Build(ShapeOf(plan), plan.requested) == Some(builder.View())
  {
    builder := new Builder(plan);
    ok := AddRequested(builder);
    if !ok {
      return;
    }
    var cycle := builder.graph.ValidateAcyclic(Any);
    if cycle != [] {
      return false, builder;
    }
  }

  method AddOneRequested(builder: Builder, name: Name) returns (ok: bool)
    requires builder.Valid() && builder.visiting == {}
    modifies builder, builder.graph
    ensures ok <==> Visit(ShapeOf(builder.plan), old(builder.View()), {}, name).Some?
    ensures ok ==> builder.Valid() && builder.visiting == {}
    ensures ok ==> Visit(ShapeOf(builder.plan), old(builder.View()), {}, name) == Some(builder.View())
  {
    ghost var before := builder.View();
    var closure;
    ok, closure := builder.AddClosure(name);
    if ok {
      VisitKeeps(ShapeOf(builder.plan), before, {}, name);
    }
  }

  /** The loop over the requested targets. */
  method AddRequested(builder: Builder) returns (ok: bool)
    requires builder.View() == B({}, {}, {}, {}) && builder.visiting == {} && builder.Books()
    modifies builder, builder.graph
    ensures ok <==> Build(ShapeOf(builder.plan), builder.plan.requested).Some?
    ensures ok ==> builder.Valid() && builder.visiting == {}
    ensures ok ==> Build(ShapeOf(builder.plan), builder.plan.requested) == Some(builder.View())
  {
    ghost var t := ShapeOf(builder.plan);
    var requested := builder.plan.requested;
    var i := 0;
    while i < |requested|
      invariant 0 <= i <= |requested| && builder.Valid() && builder.visiting == {}
      invariant Build(t, requested[..i]) == Some(builder.View())
    {
      var next := i + 1;
      BuildNext(t, requested, i, next, builder.View());
      ok := AddOneRequested(builder, requested[i]);
      if !ok {
        BuildNone(t, requested, next);
        return;
      }
      i := next;
    }
    assert requested[..i] == requested;
    ok := true;
  }

  lemma BuildNext(t: Shape, requested: seq<Name>, i: nat, next: nat, b: B)
    requires next == i + 1 && i < |requested| && Build(t, requested[..i]) == Some(b)
    ensures Build(t, requested[..next]) == Visit(t, b, {}, requested[i])
  {
    assert requested[..next][..i] == requested[..i];
  }

  // ---- Insertions one at a time ------------------------------------------------------------------

  ghost function Entered(b: B, p: Name, vs: set<Node>): B {
    b.(edges := Star(b.edges, ScopeStart(p), vs), members := Joined(b, vs, p))
  }

  lemma EnteredNext(b: B, p: Name, vs: set<Node>, v: Node)
    ensures var b1 := Entered(b, p, vs);
      b1.(edges := Guarded(b1.edges, ScopeStart(p), v), members := b1.members + {(v, p)}) == Entered(b, p, vs + {v})
  {
    GuardedNext(b.edges, ScopeStart(p), vs, v);
    var r, r' := Joined(b, vs, p) + {(v, p)}, Joined(b, vs + {v}, p);
    forall e: (Node, Name)
      ensures e in r <==> e in r'
    {
      var (u, q) := e;
      assert (u, q) in r' <==> (u, q) in b.members || (u in vs + {v} && q == p);
    }
    assert r == r';
  }

  lemma EnteredNone(b: B, p: Name)
    ensures Entered(b, p, {}) == b
  {
    StarNone(b.edges, ScopeStart(p));
    var none: set<Node> := {};
    assert Joined(b, none, p) == b.members;
  }

  ghost function Grouped(b: B, g: Name, vs: set<Node>, froms: set<Node>): B {
    var b1 := Entered(b, g, vs);
    b1.(edges := Into(b1.edges, froms, Target(g)))
  }

  lemma StarNoOut(edges: set<(Node, Node)>, from: Node, tos: set<Node>, x: Node)
    requires NoOut(edges, x) && x != from
    ensures NoOut(Star(edges, from, tos), x)
  {
  }

  /** Edges into a sink do not disturb the guards of a star elsewhere. */
  lemma GroupedEnter(b: B, g: Name, vs: set<Node>, froms: set<Node>, v: Node)
    requires NoOut(b.edges, Target(g)) && Target(g) !in froms && v != Target(g)
    ensures var b1 := Grouped(b, g, vs, froms);
      b1.(edges := Guarded(b1.edges, ScopeStart(g), v), members := b1.members + {(v, g)})
        == Grouped(b, g, vs + {v}, froms)
  {
    var s, start, end := Star(b.edges, ScopeStart(g), vs), ScopeStart(g), Target(g);
    EnteredNext(b, g, vs, v);
    StarNoOut(b.edges, start, vs, end);
    IntoReach(s, froms, end, v, start);
    var r, r' := Guarded(Into(s, froms, end), start, v), Into(Guarded(s, start, v), froms, end);
    forall e: (Node, Node)
      ensures e in r <==> e in r'
    {
      var (x, y) := e;
      assert (x, y) in Into(s, froms, end) <==> (x, y) in s || (x in froms && y == end);
      assert (x, y) in r' <==> (x, y) in Guarded(s, start, v) || (x in froms && y == end);
    }
    assert r == r';
  }

  /** One more name of a closure is done. */
  lemma NextTargets(closure: set<Name>, todo: set<Name>, complete: set<Name>, node: Name, tos: set<Node>)
    requires node in todo && todo <= closure
    ensures var done, next := closure - todo, closure - (todo - {node});
      && Targets(done) + {Target(node)} == Targets(next)
      && tos + Targets(done - complete) + (if node in complete then {} else {Target(node)}) == tos + Targets(next - complete)
  {
    assert closure - (todo - {node}) == (closure - todo) + {node};
  }

  lemma GroupedInto(b: B, g: Name, vs: set<Node>, froms: set<Node>, u: Node)
    requires NoOut(b.edges, Target(g)) && Target(g) !in froms && u != Target(g)
    ensures var b1 := Grouped(b, g, vs, froms);
      b1.(edges := Guarded(b1.edges, u, Target(g))) == Grouped(b, g, vs, froms + {u})
  {
    StarNoOut(b.edges, ScopeStart(g), vs, Target(g));
    GuardedIntoNext(Entered(b, g, vs).edges, froms, Target(g), u);
  }

  // ---- The recursion, one call at a time ---------------------------------------------------------

  lemma {:induction false} DepsNone(t: Shape, b: B, visiting: set<Name>, n: Name, i: nat, j: nat)
    requires n in t && i <= j <= |t[n].deps| && Deps(t, b, visiting, n, i).None?
    ensures Deps(t, b, visiting, n, j).None?
    decreases j
  {
    if i < j {
      DepsNone(t, b, visiting, n, i, j - 1);
    }
  }

  lemma {:induction false} StepsNone(t: Shape, b: B, visiting: set<Name>, n: Name, i: nat, j: nat)
    requires n in t && i <= j <= |t[n].steps| && Steps(t, b, visiting, n, i).None?
    ensures Steps(t, b, visiting, n, j).None?
    decreases j
  {
    if i < j {
      StepsNone(t, b, visiting, n, i, j - 1);
    }
  }

  lemma {:induction false} MembersNone(t: Shape, b: B, visiting: set<Name>, n: Name, i: nat, j: nat)
    requires n in t && i <= j <= |t[n].members| && Members(t, b, visiting, n, i).None?
    ensures Members(t, b, visiting, n, j).None?
    decreases j
  {
    if i < j {
      MembersNone(t, b, visiting, n, i, j - 1);
    }
  }

  lemma {:induction false} BuildNone(t: Shape, requested: seq<Name>, i: nat)
    requires i <= |requested| && Build(t, requested[..i]).None?
    ensures Build(t, requested).None?
    decreases |requested| - i
  {
    if i < |requested| {
      assert requested[..i + 1][..i] == requested[..i];
      BuildNone(t, requested, i + 1);
    } else {
      assert requested[..i] == requested;
    }
  }

  /** What happens between a target's entry and its exit. */
  ghost function Inside(t: Shape, b: B, visiting: set<Name>, n: Name): Option<B>
    requires n in t
  {
    match Deps(t, b, visiting, n, |t[n].deps|)
    case None => None
    case Some(b1) =>
      match BuildSpec.AddPipeline(t, b1, visiting, n)
      case None => None
      case Some(b2) => BuildSpec.AddGroup(t, b2, visiting, n)
  }

  lemma VisitInside(t: Shape, b: B, visiting: set<Name>, n: Name)
    requires n in t && n !in b.closed && n !in visiting
    ensures Visit(t, b, visiting, n) ==
      match Inside(t, AddTarget(b, n), visiting + {n}, n)
      case None => None
      case Some(b3) => Some(b3.(closed := b3.closed + {n}))
  {
  }

  lemma StillBare(b: B, b': B, visiting: set<Name>, n: Name)
    requires Bare(b, n) && n in visiting && Extends(b, b') && Spares(b, b', visiting)
    ensures Bare(b', n)
  {
  }

  /** After the pipeline part, the group part can start: the scope is either open or untouched. */
  lemma PipelineLeavesReady(t: Shape, b: B, visiting: set<Name>, n: Name)
    requires ScopeReady(t, b, visiting, n) && Bare(b, n) && BuildSpec.AddPipeline(t, b, visiting, n).Some?
    ensures var b' := BuildSpec.AddPipeline(t, b, visiting, n).value;
      ScopeReady(t, b', visiting, n) && (ScopeStart(n) in b'.vertices ==> Opened(t, b', n))
  {
    AddPipelineKeeps(t, b, visiting, n);
    DepsDoneGrow(t, b, BuildSpec.AddPipeline(t, b, visiting, n).value, n, |t[n].deps|);
  }

  /** The closure collected along the way is exactly what the target needs. */
  lemma ClosureIsUnion(t: Shape, n: Name)
    requires n in t
    ensures {n} + Closures(t, t[n].deps) + Closures(t, t[n].steps) + Closures(t, t[n].members) == Cl(t, n)
  {
    var item := t[n];
    var union := {n} + Closures(t, item.deps) + Closures(t, item.steps) + Closures(t, item.members);
    forall x
      ensures x in union <==> x in Cl(t, n)
    {
      InClosures(t, item.deps, x);
      InClosures(t, item.steps, x);
      InClosures(t, item.members, x);
      ClSelf(t, n);
      forall k | k in Kids(item) && x in Cl(t, k)
        ensures x in Cl(t, n)
      {
        ClKid(t, k, n);
      }
      if x in Cl(t, n) && x != n {
        var k := ReachLast(Feeds(t), x, n);
        assert k in Kids(item) && x in Cl(t, k);
      }
    }
  }

  /** The vertices that ending a scope will join are there, and the end is a sink. */
  ghost predicate EndReady(b: B, p: Name, steps: nat) {
    && ScopeStart(p) in b.vertices && Target(p) in b.vertices && NoOut(b.edges, Target(p))
    && (steps > 0 ==> Barrier(p, steps - 1) in b.vertices)
  }

  /** A target in progress whose dependencies are done. */
  ghost predicate ScopeReady(t: Shape, b: B, visiting: set<Name>, n: Name) {
    && n in t && Inv(t, b, visiting) && n in visiting && Target(n) in b.vertices
    && DepsDone(t, b, n, |t[n].deps|)
  }

  lemma DepVertices(t: Shape, b: B, visiting: set<Name>, n: Name)
    requires ScopeReady(t, b, visiting, n)
    ensures Targets(Elems(t[n].deps)) <= b.vertices && forall d :: d in t[n].deps ==> d in b.closed
  {
    DepsClosed(t, b, n);
    forall d | d in t[n].deps
      ensures Target(d) in b.vertices
    {
      assert Finished(t, b, d);
    }
  }

  lemma PipelineOpens(t: Shape, b: B, visiting: set<Name>, n: Name)
    requires ScopeReady(t, b, visiting, n) && Bare(b, n) && t[n].steps != []
    ensures Targets(Elems(t[n].deps)) <= b.vertices && forall d :: d in t[n].deps ==> d in b.closed
    ensures StepsWired(t, OpenScope(t, b, n), OpenScope(t, b, n), visiting, n, 0)
  {
    DepVertices(t, b, visiting, n);
    OpenScopeKeeps(t, b, visiting, n);
  }

  lemma GroupOpens(t: Shape, b: B, visiting: set<Name>, n: Name)
    requires ScopeReady(t, b, visiting, n) && t[n].members != []
    requires ScopeStart(n) in b.vertices ==> Opened(t, b, n)
    ensures Targets(Elems(t[n].deps)) <= b.vertices && forall d :: d in t[n].deps ==> d in b.closed
    ensures MembersWired(t, OpenScope(t, b, n), OpenScope(t, b, n), visiting, n, 0)
  {
    DepVertices(t, b, visiting, n);
    OpenScopeKeeps(t, b, visiting, n);
  }

  lemma StepsEnd(t: Shape, b: B, visiting: set<Name>, n: Name)
    requires n in t && Stepping(t, b, visiting, n, |t[n].steps|) && t[n].steps != [] && Target(n) in b.vertices
    ensures EndReady(b, n, |t[n].steps|)
  {
    assert StepDone(t, b, n, |t[n].steps| - 1);
    OpenTargetIsSink(t, b, visiting, n);
  }

  lemma MembersEnd(t: Shape, b: B, visiting: set<Name>, n: Name)
    requires n in t && Inv(t, b, visiting) && n in visiting && Opened(t, b, n) && Target(n) in b.vertices
    ensures EndReady(b, n, 0)
  {
    OpenTargetIsSink(t, b, visiting, n);
  }

  /** What the loop over steps has collected before step i. */
  ghost predicate Gathered(
    t: Shape, p: Name, i: nat, closure0: set<Name>, closure: set<Name>, previousClosures: set<Name>)
  {
    && p in t && i <= |t[p].steps|
    && previousClosures == Prev(t, p, i) && closure == closure0 + Closures(t, t[p].steps[..i])
  }

  lemma GatherNext(t: Shape, p: Name, i: nat, closure0: set<Name>, closure: set<Name>, previousClosures: set<Name>)
    requires Gathered(t, p, i, closure0, closure, previousClosures) && i < |t[p].steps|
    ensures var next := Cl(t, t[p].steps[i]);
      Gathered(t, p, i + 1, closure0, closure + next, previousClosures + next)
  {
    ClosuresTake(t, t[p].steps, i);
  }

  lemma SumTake(t: Shape, some: set<Name>, names: seq<Name>, i: nat)
    requires i < |names|
    ensures some + Closures(t, names[..i + 1]) == some + Closures(t, names[..i]) + Cl(t, names[i])
  {
    ClosuresTake(t, names, i);
  }

  lemma ClosuresTake(t: Shape, names: seq<Name>, i: nat)
    requires i < |names|
    ensures Closures(t, names[..i + 1]) == Closures(t, names[..i]) + Cl(t, names[i])
  {
    assert names[..i + 1][..i] == names[..i];
  }

  /** A new barrier is nobody's start and nobody's target. */
  lemma AgreeBarrier(
    t: Shape, vertices: set<Node>, closures: map<Name, set<Name>>, starts: map<Name, Node>, scopes: set<Name>,
    p: Name, i: nat)
    requires Agree(t, vertices, closures, starts, scopes)
    ensures Agree(t, vertices + {Barrier(p, i)}, closures, starts, scopes)
  {
  }

  /** The builder stands after the first i steps of p. */
  ghost predicate StepsWired(t: Shape, b: B, b1: B, visiting: set<Name>, p: Name, i: nat) {
    Stepped(t, b, b1, visiting, p, i) && Steps(t, b, visiting, p, i) == Some(b1)
  }

  ghost predicate MembersWired(t: Shape, b: B, b1: B, visiting: set<Name>, g: Name, i: nat) {
    Joining(t, b, b1, visiting, g, i) && Members(t, b, visiting, g, i) == Some(b1)
  }

  lemma StepsOneMore(t: Shape, b: B, b1: B, b2: B, visiting: set<Name>, p: Name, i: nat)
    requires StepsWired(t, b, b1, visiting, p, i) && i < |t[p].steps|
    requires Visit(t, b1, visiting, t[p].steps[i]) == Some(b2)
    ensures StepReady(b2, p, i, Root(t, t[p].steps[i]), Cl(t, t[p].steps[i]))
    ensures Rooted(t, b2, t[p].steps[i])
    ensures StepsWired(t, b, AddStep(t, b2, p, i), visiting, p, i + 1)
  {
    VisitKeeps(t, b1, visiting, t[p].steps[i]);
    SteppingGrows(t, b1, b2, visiting, p, i);
    StepIsReady(t, b2, visiting, p, i);
    RootIsStart(t, b2, visiting, t[p].steps[i]);
    StepsNext(t, b, b1, visiting, p, i);
  }

  lemma MembersOneMore(t: Shape, b: B, b1: B, b2: B, visiting: set<Name>, g: Name, i: nat)
    requires MembersWired(t, b, b1, visiting, g, i) && i < |t[g].members|
    requires Visit(t, b1, visiting, t[g].members[i]) == Some(b2)
    ensures MemberReady(b2, g, Root(t, t[g].members[i]), Cl(t, t[g].members[i]))
    ensures Rooted(t, b2, t[g].members[i])
    ensures MembersWired(t, b, AddMember(t, b2, g, i), visiting, g, i + 1)
  {
    VisitKeeps(t, b1, visiting, t[g].members[i]);
    ClosedVertices(t, b2, visiting, t[g].members[i]);
    OpenTargetIsSink(t, b2, visiting, g);
    RootIsStart(t, b2, visiting, t[g].members[i]);
    MembersNext(t, b, b1, visiting, g, i);
  }

  lemma DepsOneMore(t: Shape, b: B, b1: B, b2: B, visiting: set<Name>, n: Name, i: nat)
    requires Depending(t, b, b1, visiting, n, i) && i < |t[n].deps|
    requires Deps(t, b, visiting, n, i) == Some(b1) && Visit(t, b1, visiting, t[n].deps[i]) == Some(b2)
    ensures var d := t[n].deps[i];
      && Target(d) in b2.vertices && Target(n) in b2.vertices && d != n
      && var b3 := b2.(edges := b2.edges + {(Target(d), Target(n))});
         Deps(t, b, visiting, n, i + 1) == Some(b3) && Depending(t, b, b3, visiting, n, i + 1)
  {
    var d := t[n].deps[i];
    VisitKeeps(t, b1, visiting, d);
    assert Finished(t, b2, d);
    DepsNext(t, b, b1, visiting, n, i);
    IntoNone(b2.edges, Target(n));
    IntoNext(b2.edges, {}, Target(n), Target(d));
    assert {} + {Target(d)} == {Target(d)};
  }

  // ---- Wiring one step ------------------------------------------------------------------------

  /** The vertices that wiring a step will join are there, and the new barrier is a sink. */
  ghost predicate StepReady(b: B, p: Name, index: nat, root: Node, closure: set<Name>) {
    && ScopeStart(p) in b.vertices && (index > 0 ==> Barrier(p, index - 1) in b.vertices)
    && NoOut(b.edges, Barrier(p, index))
    && Targets(closure) <= b.vertices && root in b.vertices && p !in closure
  }

  lemma StepIsReady(t: Shape, b: B, visiting: set<Name>, p: Name, i: nat)
    requires Stepping(t, b, visiting, p, i) && i < |t[p].steps| && t[p].steps[i] in b.closed
    ensures StepReady(b, p, i, Root(t, t[p].steps[i]), Cl(t, t[p].steps[i]))
  {
    ClosedVertices(t, b, visiting, t[p].steps[i]);
    NewBarrierIsSink(t, b, visiting, p, i);
    assert i > 0 ==> StepDone(t, b, p, i - 1);
  }

  ghost predicate MemberReady(b: B, g: Name, root: Node, closure: set<Name>) {
    && ScopeStart(g) in b.vertices && Target(g) in b.vertices && NoOut(b.edges, Target(g))
    && Targets(closure) <= b.vertices && root in b.vertices && g !in closure
  }

  /** startOrTarget finds the root of n. */
  ghost predicate Rooted(t: Shape, b: B, n: Name) {
    Root(t, n) == if ScopeStart(n) in b.vertices then ScopeStart(n) else Target(n)
  }

  lemma RootIsStart(t: Shape, b: B, visiting: set<Name>, n: Name)
    requires Inv(t, b, visiting) && n in b.closed
    ensures Rooted(t, b, n)
  {
    assert Finished(t, b, n);
  }

  /** What the loops over a closure enter into a scope: its root, unless that is a completed target,
      and its incomplete targets. */
  ghost function Newcomers(root: Node, closure: set<Name>, complete: set<Name>): set<Node> {
    Targets(closure - complete) + if root.Target? && root.name in complete then {} else {root}
  }

  lemma FreshIs(t: Shape, kid: Name, complete: set<Name>)
    ensures Newcomers(Root(t, kid), Cl(t, kid), complete) == Fresh(t, kid, complete)
  {
    ClSelf(t, kid);
  }

  lemma StepEdgesNoOut(t: Shape, edges: set<(Node, Node)>, p: Name, i: nat)
    requires p in t && i < |t[p].steps| && NoOut(edges, Barrier(p, i))
    ensures NoOut(StepEdges(t, edges, p, i), Barrier(p, i))
  {
    var newcomers := Fresh(t, t[p].steps[i], Prev(t, p, i));
    StarNoOut(edges, ScopeStart(p), newcomers, Barrier(p, i));
    if i > 0 {
      StarNoOut(Star(edges, ScopeStart(p), newcomers), Barrier(p, i - 1),
                newcomers + {Root(t, t[p].steps[i])}, Barrier(p, i));
    }
  }

  lemma GuardedNext(edges: set<(Node, Node)>, from: Node, tos: set<Node>, v: Node)
    ensures Guarded(Star(edges, from, tos), from, v) == Star(edges, from, tos + {v})
  {
    StarNext(edges, from, tos, v);
  }

  lemma IntoNext(edges: set<(Node, Node)>, froms: set<Node>, to: Node, u: Node)
    ensures Into(edges, froms, to) + {(u, to)} == Into(edges, froms + {u}, to)
  {
    var r, r' := Into(edges, froms, to) + {(u, to)}, Into(edges, froms + {u}, to);
    forall e: (Node, Node)
      ensures e in r <==> e in r'
    {
      var (x, y) := e;
      assert (x, y) in r' <==> (x, y) in edges || (x in froms + {u} && y == to);
    }
    assert r == r';
  }

  lemma IntoNone(edges: set<(Node, Node)>, to: Node)
    ensures Into(edges, {}, to) == edges
  {
    forall e: (Node, Node)
      ensures e in Into(edges, {}, to) <==> e in edges
    {
      var (x, y) := e;
      assert (x, y) in Into(edges, {}, to) <==> (x, y) in edges;
    }
    assert Into(edges, {}, to) == edges;
  }

  /** The guard never drops an edge into a sink. */
  lemma GuardedIntoNext(edges: set<(Node, Node)>, froms: set<Node>, to: Node, u: Node)
    requires NoOut(edges, to) && to !in froms && u != to
    ensures Guarded(Into(edges, froms, to), u, to) == Into(edges, froms + {u}, to)
  {
    var r := Into(edges, froms, to);
    assert NoOut(r, to);
    if Reach(r, to, u) {
      NoOutReach(r, to, u);
    }
    IntoNext(edges, froms, to, u);
  }
}
