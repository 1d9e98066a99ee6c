/** internal/dag/dag.go: the graph container, its cycle search and its topological order.
    The order in which Go sorts vertices, edges and ready lists is left arbitrary, so every
    result holds for whatever order the string comparison gives. */
module Dag {
  import opened Digraph

  /** remaining[v] counts the distinct predecessors of v that have not finished. */
  ghost predicate Counts<V(!new)>(edges: set<(V, V)>, remaining: map<V, int>, finished: set<V>) {
    forall v {:trigger remaining[v]} :: v in remaining ==> remaining[v] == |Waiting(edges, v, finished)|
  }

  ghost predicate AreWaiting<V(!new)>(edges: set<(V, V)>, v: V, finished: set<V>, r: set<V>) {
    forall u {:trigger u in r} {:trigger (u, v) in edges} :: u in r <==> (u, v) in edges && u !in finished
  }

  /** The predecessors of v that have not finished. */
  ghost function Waiting<V(!new)>(edges: set<(V, V)>, v: V, finished: set<V>): (r: set<V>)
    ensures forall u {:trigger u in r} {:trigger (u, v) in edges} :: u in r <==> (u, v) in edges && u !in finished
  {
    assert AreWaiting(edges, v, finished, set e | e in edges && e.1 == v && e.0 !in finished :: e.0);
    var r :| AreWaiting(edges, v, finished, r);
    r
  }

  /** ready lists, once each, the vertices whose predecessors have all finished and that
      have not been taken yet. */
  ghost predicate ReadyList<V(!new)>(
    edges: set<(V, V)>, vertices: set<V>, ready: seq<V>, taken: set<V>, finished: set<V>)
  {
    && Distinct(ready)
    && (forall v {:trigger v in ready} {:trigger PredsIn(edges, v, finished)} ::
          v in ready <==> v in vertices && v !in taken && PredsIn(edges, v, finished))
  }

  /** The counters after id finishes: one less for each distinct dependent. */
  function Decrement<V(==)>(remaining: map<V, int>, dependents: set<V>): map<V, int> {
    map v | v in remaining :: if v in dependents then remaining[v] - 1 else remaining[v]
  }

  /** The vertices whose counter has just reached zero. */
  function NewlyReady<V(==)>(remaining: map<V, int>, dependents: set<V>): set<V> {
    set v | v in dependents && v in remaining && remaining[v] == 1
  }

  lemma CountsZero<V(!new)>(edges: set<(V, V)>, remaining: map<V, int>, finished: set<V>, v: V)
    requires Counts(edges, remaining, finished) && v in remaining
    ensures remaining[v] == 0 <==> PredsIn(edges, v, finished)
  {
    assert remaining[v] == 0 <==> Waiting(edges, v, finished) == {};
    assert PredsIn(edges, v, finished) <==> forall u :: u !in Waiting(edges, v, finished);
  }

  /** Finishing one vertex keeps the counters exact and readies exactly the right vertices. */
  lemma CountsAfterFinish<V(!new)>(
    edges: set<(V, V)>, vertices: set<V>, remaining: map<V, int>, finished: set<V>,
    ready: seq<V>, taken: set<V>, id: V, zeroed: seq<V>, next: seq<V>)
    requires Counts(edges, remaining, finished) && remaining.Keys == vertices
    requires id in taken && id !in finished
    requires ReadyList(edges, vertices, ready, taken, finished)
    requires forall v :: v in taken ==> PredsIn(edges, v, finished)
    requires Distinct(zeroed)
    requires Elems(zeroed) == NewlyReady(remaining, Succs(edges, id))
    requires multiset(next) == multiset(ready + zeroed)
    ensures Counts(edges, Decrement(remaining, Succs(edges, id)), finished + {id})
    ensures ReadyList(edges, vertices, next, taken, finished + {id})
    ensures forall v :: v in taken ==> PredsIn(edges, v, finished + {id})
  {
    var remaining' := Decrement(remaining, Succs(edges, id));
    var finished' := finished + {id};
    forall v | v in remaining'
      ensures remaining'[v] == |Waiting(edges, v, finished')|
    {
      var before, after := Waiting(edges, v, finished), Waiting(edges, v, finished');
      if v in Succs(edges, id) {
        assert id in before;
        assert after == before - {id};
      } else {
        assert after == before;
      }
    }
    forall v
      ensures v in next <==> v in vertices && v !in taken && PredsIn(edges, v, finished')
    {
      assert v in next <==> v in ready + zeroed by {
        assert v in multiset(next) <==> v in multiset(ready + zeroed);
      }
      assert v in zeroed <==> v in NewlyReady(remaining, Succs(edges, id)) by {
        assert v in zeroed <==> v in Elems(zeroed);
      }
      if v in vertices {
        CountsZero(edges, remaining, finished, v);
        CountsZero(edges, remaining', finished', v);
      }
    }
    forall i, j | 0 <= i < j < |ready + zeroed|
      ensures (ready + zeroed)[i] != (ready + zeroed)[j]
    {
      var s := ready + zeroed;
      if i < |ready| <= j {
        assert s[j] in zeroed && s[j] in Elems(zeroed);
        assert s[i] in ready;
        if s[i] in vertices {
          CountsZero(edges, remaining, finished, s[i]);
        }
      }
    }
    DistinctPermutation(ready + zeroed, next);
  }

  lemma {:induction false} DistinctOccursOnce<T(!new)>(s: seq<T>, x: T)
    requires Distinct(s)
    ensures multiset(s)[x] <= 1
  {
    if s != [] {
      assert s == s[..|s| - 1] + [s[|s| - 1]];
      DistinctOccursOnce(s[..|s| - 1], x);
      assert x in multiset(s[..|s| - 1]) <==> x in s[..|s| - 1];
    }
  }

  lemma RepeatCount<T(!new)>(t: seq<T>, i: nat, j: nat)
    requires i < j < |t| && t[i] == t[j]
    ensures multiset(t)[t[i]] >= 2
  {
    assert t == t[..j] + [t[j]] + t[j + 1..];
    assert t[..j][i] == t[i];
    assert t[i] in multiset(t[..j]);
  }

  lemma DistinctPermutation<T(!new)>(s: seq<T>, t: seq<T>)
    requires Distinct(s) && multiset(s) == multiset(t)
    ensures Distinct(t)
  {
    forall i, j | 0 <= i < j < |t|
      ensures t[i] != t[j]
    {
      DistinctOccursOnce(s, t[i]);
      if t[i] == t[j] {
        RepeatCount(t, i, j);
      }
    }
  }

  ghost predicate AreTriples<V(!new), K(!new)>(edges: map<V, map<V, set<K>>>, r: set<(V, V, K)>) {
    forall f, t, k :: (f, t, k) in r <==> f in edges && t in edges[f] && k in edges[f][t]
  }

  /** The stored edges as (from, to, kind) triples. */
  ghost function Triples<V(!new), K(!new)>(edges: map<V, map<V, set<K>>>): (r: set<(V, V, K)>)
    ensures AreTriples(edges, r)
  {
    assert AreTriples(edges, set f, t, k | f in edges && t in edges[f] && k in edges[f][t] :: (f, t, k));
    var r :| AreTriples(edges, r);
    r
  }

  ghost predicate AreKept<V(!new), K(!new)>(triples: set<(V, V, K)>, keep: (V, V, K) -> bool, r: set<(V, V)>) {
    forall f, t :: (f, t) in r <==> exists k :: (f, t, k) in triples && keep(f, t, k)
  }

  /** The pairs joined by some edge that passes the filter. */
  ghost function RelOf<V(!new), K(!new)>(triples: set<(V, V, K)>, keep: (V, V, K) -> bool): (r: set<(V, V)>)
    ensures AreKept(triples, keep, r)
  {
    assert AreKept(triples, keep, set e | e in triples && keep(e.0, e.1, e.2) :: (e.0, e.1));
    var r :| AreKept(triples, keep, r);
    r
  }

  lemma TriplesInsert<V(!new), K(!new)>(
    edges: map<V, map<V, set<K>>>, from: V, to: V, kind: K, edges': map<V, map<V, set<K>>>)
    requires
      var byTo := if from in edges then edges[from] else map[];
      edges' == edges[from := byTo[to := (if to in byTo then byTo[to] else {}) + {kind}]]
    ensures Triples(edges') == Triples(edges) + {(from, to, kind)}
  {
    var added := Triples(edges) + {(from, to, kind)};
    forall e: (V, V, K)
      ensures e in Triples(edges') <==> e in added
    {
      var (f, t, k) := e;
      assert (f, t, k) in Triples(edges') <==> f in edges' && t in edges'[f] && k in edges'[f][t];
      assert (f, t, k) in Triples(edges) <==> f in edges && t in edges[f] && k in edges[f][t];
    }
    assert Triples(edges') == added;
  }

  /** One step of dependencyState: a pair not seen before adds one to its target's counter. */
  lemma CountsAfterPair<V(!new)>(seen: set<(V, V)>, remaining: map<V, int>, from: V, to: V)
    requires Counts(seen, remaining, {}) && (from, to) !in seen && to in remaining
    ensures Counts(seen + {(from, to)}, remaining[to := remaining[to] + 1], {})
  {
    var more := seen + {(from, to)};
    var next := remaining[to := remaining[to] + 1];
    forall v | v in next
      ensures next[v] == |Waiting(more, v, {})|
    {
      if v == to {
        assert Waiting(more, v, {}) == Waiting(seen, v, {}) + {from};
      } else {
        assert Waiting(more, v, {}) == Waiting(seen, v, {});
      }
    }
  }

  /** dependents lists, once each, the successors of every vertex. */
  ghost predicate Dependents<V(!new)>(edges: set<(V, V)>, dependents: map<V, seq<V>>) {
    && (forall v :: v in dependents ==> Distinct(dependents[v]) && Elems(dependents[v]) == Succs(edges, v))
    && (forall v :: v !in dependents ==> Succs(edges, v) == {})
  }

  lemma SuccsAdd<V(!new)>(seen: set<(V, V)>, from: V, to: V, v: V)
    ensures Succs(seen + {(from, to)}, v) == Succs(seen, v) + if v == from then {to} else {}
  {
  }

  lemma DependentsAfterPair<V(!new)>(seen: set<(V, V)>, dependents: map<V, seq<V>>, from: V, to: V, list: seq<V>)
    requires Dependents(seen, dependents) && (from, to) !in seen
    requires list == if from in dependents then dependents[from] else []
    ensures Dependents(seen + {(from, to)}, dependents[from := list + [to]])
  {
    var next := dependents[from := list + [to]];
    ElemsSnoc(list, to);
    forall v
      ensures v in next ==> Distinct(next[v]) && Elems(next[v]) == Succs(seen + {(from, to)}, v)
      ensures v !in next ==> Succs(seen + {(from, to)}, v) == {}
    {
      SuccsAdd(seen, from, to, v);
      assert v == from && v in dependents ==> (to in list <==> to in Elems(list));
    }
  }

  /** dependencyState: the counts of distinct predecessors and the lists of distinct dependents,
      whatever kinds join a pair of vertices. */
  method DependencyState<V(==,!new), K(!new)>(vertices: set<V>, edges: seq<(V, V, K)>)
    returns (remaining: map<V, int>, dependents: map<V, seq<V>>)
    requires forall i :: 0 <= i < |edges| ==> edges[i].0 in vertices && edges[i].1 in vertices
    ensures remaining.Keys == vertices
    ensures Counts(Ends(edges), remaining, {}) && Dependents(Ends(edges), dependents)
  {
    remaining := map v | v in vertices :: 0;
    dependents := map[];
    var seenPairs: set<(V, V)> := {};
    var i := 0;
    while i < |edges|
      invariant 0 <= i <= |edges|
      invariant seenPairs == Ends(edges[..i])
      invariant remaining.Keys == vertices
      invariant Counts(seenPairs, remaining, {}) && Dependents(seenPairs, dependents)
    {
      var from, to := edges[i].0, edges[i].1;
      assert to in vertices;
      EndsTake(edges, i);
      i := i + 1;
      if (from, to) in seenPairs {
        continue;
      }
      CountsAfterPair(seenPairs, remaining, from, to);
      remaining := remaining[to := remaining[to] + 1];
      var list := if from in dependents then dependents[from] else [];
      DependentsAfterPair(seenPairs, dependents, from, to, list);
      dependents := dependents[from := list + [to]];
      seenPairs := seenPairs + {(from, to)};
    }
    assert edges[..i] == edges;
  }

  /** The pairs joined by a list of edges. */
  ghost function Ends<V(!new), K(!new)>(edges: seq<(V, V, K)>): set<(V, V)> {
    if edges == [] then {}
    else Ends(edges[..|edges| - 1]) + {(edges[|edges| - 1].0, edges[|edges| - 1].1)}
  }

  lemma EndsTake<V(!new), K(!new)>(edges: seq<(V, V, K)>, i: nat)
    requires i < |edges|
    ensures Ends(edges[..i + 1]) == Ends(edges[..i]) + {(edges[i].0, edges[i].1)}
  {
    assert edges[..i + 1][..i] == edges[..i];
  }

  lemma {:induction false} EndsMember<V(!new), K(!new)>(edges: seq<(V, V, K)>, f: V, t: V)
    ensures (f, t) in Ends(edges) <==> exists k :: (f, t, k) in edges
  {
    if edges != [] {
      var last := edges[|edges| - 1];
      EndsMember(edges[..|edges| - 1], f, t);
      assert edges == edges[..|edges| - 1] + [last];
      assert last == (last.0, last.1, last.2);
    }
  }

  /** zeroRemaining: the vertices whose counter is zero, in some order. */
  method ZeroRemaining<V(==,!new)>(remaining: map<V, int>) returns (ready: seq<V>)
    ensures Distinct(ready)
    ensures forall v :: v in ready <==> v in remaining && remaining[v] == 0
  {
    ready := [];
    var todo := remaining.Keys;
    while todo != {}
      invariant todo <= remaining.Keys
      invariant Distinct(ready)
      invariant forall v :: v in ready <==> v in remaining && v !in todo && remaining[v] == 0
    {
      var id :| id in todo;
      if remaining[id] == 0 {
        ready := ready + [id];
      }
      todo := todo - {id};
    }
  }

  lemma ZeroRemainingReady<V(!new)>(edges: set<(V, V)>, remaining: map<V, int>, ready: seq<V>)
    requires Counts(edges, remaining, {}) && Distinct(ready)
    requires forall v :: v in ready <==> v in remaining && remaining[v] == 0
    ensures ReadyList(edges, remaining.Keys, ready, {}, {})
  {
    forall v | v in remaining
      ensures remaining[v] == 0 <==> PredsIn(edges, v, {})
    {
      CountsZero(edges, remaining, {}, v);
    }
  }

  lemma ListedRel<V(!new), K(!new)>(triples: set<(V, V, K)>, keep: (V, V, K) -> bool, list: seq<(V, V, K)>)
    requires forall e :: e in list <==> e in triples && keep(e.0, e.1, e.2)
    ensures Ends(list) == RelOf(triples, keep)
  {
    forall e: (V, V)
      ensures e in Ends(list) <==> e in RelOf(triples, keep)
    {
      var (f, t) := e;
      EndsMember(list, f, t);
      assert forall k :: (f, t, k) in list <==> (f, t, k) in triples && keep(f, t, k);
    }
    assert Ends(list) == RelOf(triples, keep);
  }

  /** The kept edges out of one vertex. */
  method EdgesFrom<V(==,!new), K(==,!new)>(from: V, byTo: map<V, set<K>>, keep: (V, V, K) -> bool)
    returns (list: seq<(V, V, K)>)
    ensures forall e :: e in list <==> e.0 == from && e.1 in byTo && e.2 in byTo[e.1] && keep(e.0, e.1, e.2)
  {
    list := [];
    var tos := byTo.Keys;
    while tos != {}
      invariant tos <= byTo.Keys
      invariant forall e :: e in list <==>
        e.0 == from && e.1 in byTo && e.1 !in tos && e.2 in byTo[e.1] && keep(e.0, e.1, e.2)
    {
      var to :| to in tos;
      var kinds := byTo[to];
      while kinds != {}
        invariant kinds <= byTo[to]
        invariant forall e :: e in list <==>
          && e.0 == from && e.1 in byTo && e.2 in byTo[e.1] && keep(e.0, e.1, e.2)
          && (e.1 !in tos || (e.1 == to && e.2 !in kinds))
      {
        var kind :| kind in kinds;
        if keep(from, to, kind) {
          list := list + [(from, to, kind)];
        }
        kinds := kinds - {kind};
      }
      tos := tos - {to};
    }
  }

  class Graph<V(==,!new), K(==,!new)> {
    const zero: V
    var vertices: map<V, string>
    var edges: map<V, map<V, set<K>>>

    constructor (zero: V)
      ensures Valid() && this.zero == zero
      ensures vertices == map[] && edges == map[]
    {
      this.zero := zero;
      vertices := map[];
      edges := map[];
    }

    ghost predicate Valid()
      reads this
    {
      && zero !in vertices
      && forall f, t, k :: (f, t, k) in EdgeSet() ==> f != t && f in vertices && t in vertices
    }

    ghost function EdgeSet(): set<(V, V, K)>
      reads this
    {
      Triples(edges)
    }

    ghost function Rel(keep: (V, V, K) -> bool): set<(V, V)>
      reads this
    {
      RelOf(EdgeSet(), keep)
    }

    lemma RelInVertices(keep: (V, V, K) -> bool)
      requires Valid()
      ensures Within(Rel(keep), vertices.Keys)
    {
    }

    /** A kind, once given, is never replaced; the zero identifier is never a vertex. */
    method AddVertex(id: V, kind: string)
      requires Valid()
      modifies this`vertices
      ensures Valid()
      ensures vertices ==
        if id == zero
           || (id in old(vertices) && (kind == "" || old(vertices)[id] !in {"", kind}))
        then old(vertices) else old(vertices)[id := kind]
    {
      if id == zero {
        return;
      }
      if id in vertices {
        if kind == "" {
          return;
        }
        if vertices[id] != "" && vertices[id] != kind {
          return;
        }
      }
      vertices := vertices[id := kind];
    }

    /** A zero endpoint or a self edge is ignored; otherwise exactly one triple is added. */
    method AddEdge(from: V, to: V, kind: K)
      requires Valid()
      modifies this
      ensures Valid()
      ensures from == zero || to == zero || from == to ==>
        vertices == old(vertices) && edges == old(edges)
      ensures from != zero && to != zero && from != to ==>
        && vertices.Keys == old(vertices.Keys) + {from, to}
        && (forall v :: v in old(vertices) ==> vertices[v] == old(vertices)[v])
        && EdgeSet() == old(EdgeSet()) + {(from, to, kind)}
    {
      if from == zero || to == zero || from == to {
        return;
      }
      AddVertex(from, "");
      AddVertex(to, "");
      var byTo := if from in edges then edges[from] else map[];
      var kinds := if to in byTo then byTo[to] else {};
      TriplesInsert(edges, from, to, kind, edges[from := byTo[to := kinds + {kind}]]);
      assert kind in kinds + {kind};
      edges := edges[from := byTo[to := kinds + {kind}]];
    }

    /** The distinct targets of the kept edges out of id, in some order. */
    method Successors(id: V, keep: (V, V, K) -> bool) returns (ids: seq<V>)
      ensures Distinct(ids)
      ensures forall t :: t in ids <==> (id, t) in Rel(keep)
    {
      ids := [];
      ghost var rel := Rel(keep);
      if id !in edges {
        return;
      }
      var todo := edges[id].Keys;
      while todo != {}
        invariant todo <= edges[id].Keys
        invariant Distinct(ids)
        invariant forall t :: t in ids <==> (id, t) in rel && t !in todo
      {
        var to :| to in todo;
        if exists k | k in edges[id][to] :: keep(id, to, k) {
          ids := ids + [to];
        }
        todo := todo - {to};
      }
    }

    // ---- ValidateAcyclic --------------------------------------------------------

    ghost predicate Searching(rel: set<(V, V)>, visiting: set<V>, visited: set<V>, stack: seq<V>)
      reads this
    {
      && visiting == Elems(stack)
      && (stack != [] ==> IsPath(rel, stack))
      && visiting !! visited
      && visiting + visited <= vertices.Keys
      && SuccClosed(rel, visited)
      && forall x :: x in visited ==> !OnCycle(rel, x)
    }

    /** One call of the recursive search; an empty cycle stands for a nil error. */
    method Visit(
      keep: (V, V, K) -> bool, id: V, visiting0: set<V>, visited0: set<V>, stack0: seq<V>)
      returns (cycle: seq<V>, visiting: set<V>, visited: set<V>, stack: seq<V>)
      requires Valid() && id in vertices
      requires Searching(Rel(keep), visiting0, visited0, stack0)
      requires stack0 != [] ==> (stack0[|stack0| - 1], id) in Rel(keep)
      ensures cycle != [] ==> IsCycle(Rel(keep), cycle)
      ensures cycle == [] ==>
        && Searching(Rel(keep), visiting, visited, stack)
        && visiting == visiting0 && stack == stack0
        && visited0 <= visited && id in visited
      decreases vertices.Keys - visiting0
    {
      visiting, visited, stack := visiting0, visited0, stack0;
      if id in visited {
        return [], visiting, visited, stack;
      }
      if id in visiting {
        cycle := CyclePath(keep, stack, id);
        return;
      }
      visiting := visiting + {id};
      stack := stack + [id];
      if stack0 != [] {
        PathSnoc(Rel(keep), stack0, id);
      }
      var nexts := Successors(id, keep);
      RelInVertices(keep);
      var i := 0;
      while i < |nexts|
        invariant 0 <= i <= |nexts|
        invariant visiting == visiting0 + {id} && stack == stack0 + [id]
        invariant visited0 <= visited
        invariant Searching(Rel(keep), visiting, visited, stack)
        invariant forall j :: 0 <= j < i ==> nexts[j] in visited
      {
        assert (id, nexts[i]) in Rel(keep);
        cycle, visiting, visited, stack := Visit(keep, nexts[i], visiting, visited, stack);
        if cycle != [] {
          return;
        }
        i := i + 1;
      }
      cycle := [];
      forall y | (id, y) in Rel(keep)
        ensures y in visited && !Reach(Rel(keep), y, id)
      {
        var j :| 0 <= j < |nexts| && nexts[j] == y;
        if Reach(Rel(keep), y, id) {
          ReachStaysIn(Rel(keep), visited, y, id);
        }
      }
      stack := stack[..|stack| - 1];
      visiting := visiting - {id};
      visited := visited + {id};
      assert visiting == visiting0 && stack == stack0;
    }

    /** cyclePath: the tail of the stack from id on, closed by id. */
    method CyclePath(ghost keep: (V, V, K) -> bool, stack: seq<V>, id: V) returns (cycle: seq<V>)
      requires id in stack && IsPath(Rel(keep), stack)
      requires (stack[|stack| - 1], id) in Rel(keep)
      ensures IsCycle(Rel(keep), cycle)
    {
      var start := 0;
      while stack[start] != id
        invariant 0 <= start < |stack|
        invariant id in stack[start..]
        decreases |stack| - start
      {
        assert stack[start..] == [stack[start]] + stack[start + 1..];
        start := start + 1;
      }
      PathDrop(Rel(keep), stack, start);
      PathSnoc(Rel(keep), stack[start..], id);
      cycle := stack[start..] + [id];
    }

    /** nil exactly on acyclic filtered graphs; otherwise the reported list is a genuine cycle. */
    method ValidateAcyclic(keep: (V, V, K) -> bool) returns (cycle: seq<V>)
      requires Valid()
      ensures cycle == [] <==> Acyclic(Rel(keep))
      ensures cycle != [] ==> IsCycle(Rel(keep), cycle)
    {
      cycle := [];
      var visiting, visited, stack: seq<V> := {}, {}, [];
      var todo := vertices.Keys;
      while todo != {}
        invariant todo <= vertices.Keys && cycle == []
        invariant visiting == {} && stack == []
        invariant vertices.Keys - todo <= visited
        invariant Searching(Rel(keep), visiting, visited, stack)
      {
        var id :| id in todo;
        cycle, visiting, visited, stack := Visit(keep, id, visiting, visited, stack);
        if cycle != [] {
          CycleRefutes(Rel(keep), cycle);
          return;
        }
        todo := todo - {id};
      }
      RelInVertices(keep);
      NoCycleAcyclic(Rel(keep), visited);
    }

    // ---- Kahn's algorithm -------------------------------------------------------

    /** The kept edges, in some order. */
    method Edges(keep: (V, V, K) -> bool) returns (list: seq<(V, V, K)>)
      ensures forall e :: e in list <==> e in EdgeSet() && keep(e.0, e.1, e.2)
    {
      list := [];
      var froms := edges.Keys;
      while froms != {}
        invariant froms <= edges.Keys
        invariant forall e :: e in list <==> e in EdgeSet() && keep(e.0, e.1, e.2) && e.0 !in froms
      {
        var from :| from in froms;
        var found := EdgesFrom(from, edges[from], keep);
        list := list + found;
        froms := froms - {from};
      }
    }

    /** A vertex order in which every kept edge points forward; an error exactly on a cycle. */
    method TopologicalOrder(keep: (V, V, K) -> bool) returns (cycle: seq<V>, order: seq<V>)
      requires Valid()
      ensures cycle == [] <==> Acyclic(Rel(keep))
      ensures cycle != [] ==> IsCycle(Rel(keep), cycle)
      ensures cycle == [] ==> Topological(Rel(keep), order) && Elems(order) == vertices.Keys
    {
      order := [];
      cycle := ValidateAcyclic(keep);
      if cycle != [] {
        return;
      }
      var list := Edges(keep);
      RelInVertices(keep);
      ListedRel(EdgeSet(), keep, list);
      var remaining, dependents := DependencyState(vertices.Keys, list);
      var ready := ZeroRemaining(remaining);
      ZeroRemainingReady(Rel(keep), remaining, ready);
      order := Drain(Rel(keep), remaining, dependents, ready);
    }
  }

  /** What the main loop of TopologicalOrder keeps. */
  ghost predicate Draining<V(!new)>(rel: set<(V, V)>, remaining: map<V, int>, ready: seq<V>, order: seq<V>) {
    && Counts(rel, remaining, Elems(order))
    && ReadyList(rel, remaining.Keys, ready, Elems(order), Elems(order))
    && Topological(rel, order)
    && Elems(order) <= remaining.Keys
  }

  ghost predicate Within<V(!new)>(rel: set<(V, V)>, vertices: set<V>) {
    forall f, t {:trigger (f, t) in rel} :: (f, t) in rel ==> f in vertices && t in vertices && f != t
  }

  /** Taking the first ready vertex and releasing its dependents keeps it all. */
  lemma DrainStep<V(!new)>(
    rel: set<(V, V)>, remaining: map<V, int>, ready: seq<V>, order: seq<V>, zeroed: seq<V>, next: seq<V>)
    requires Within(rel, remaining.Keys)
    requires Draining(rel, remaining, ready, order) && ready != []
    requires Distinct(zeroed) && Elems(zeroed) == NewlyReady(remaining, Succs(rel, ready[0]))
    requires multiset(next) == multiset(ready[1..] + zeroed)
    ensures ready[0] !in order
    ensures Draining(rel, Decrement(remaining, Succs(rel, ready[0])), next, order + [ready[0]])
  {
    TakeFirst(rel, remaining.Keys, ready, order);
    CountsAfterFinish(rel, remaining.Keys, remaining, Elems(order), ready[1..],
                      Elems(order + [ready[0]]), ready[0], zeroed, next);
  }

  lemma ListOfDependents<V(!new)>(rel: set<(V, V)>, dependents: map<V, seq<V>>, id: V, list: seq<V>)
    requires Dependents(rel, dependents) && list == if id in dependents then dependents[id] else []
    ensures Distinct(list) && Elems(list) == Succs(rel, id)
  {
  }

  /** One round of the main loop of TopologicalOrder. */
  method TakeReady<V(==,!new)>(
    ghost rel: set<(V, V)>, remaining0: map<V, int>, dependents: map<V, seq<V>>, ready0: seq<V>, order0: seq<V>)
    returns (remaining: map<V, int>, ready: seq<V>, order: seq<V>)
    requires Dependents(rel, dependents) && Within(rel, remaining0.Keys)
    requires Draining(rel, remaining0, ready0, order0) && ready0 != []
    ensures Draining(rel, remaining, ready, order)
    ensures remaining.Keys == remaining0.Keys && Elems(order0) < Elems(order)
  {
    var id := ready0[0];
    var list := if id in dependents then dependents[id] else [];
    ListOfDependents(rel, dependents, id, list);
    var zeroed;
    remaining, zeroed := LowerCounters(remaining0, list);
    ready, order := ready0[1..] + zeroed, order0 + [id];
    DrainStep(rel, remaining0, ready0, order0, zeroed, ready);
    ElemsSnoc(order0, id);
  }

  /** The main loop of TopologicalOrder. */
  method Drain<V(==,!new)>(
    ghost rel: set<(V, V)>, remaining0: map<V, int>, dependents: map<V, seq<V>>, ready0: seq<V>)
    returns (order: seq<V>)
    requires Acyclic(rel) && Dependents(rel, dependents) && Within(rel, remaining0.Keys)
    requires Counts(rel, remaining0, {}) && ReadyList(rel, remaining0.Keys, ready0, {}, {})
    ensures Topological(rel, order) && Elems(order) == remaining0.Keys
  {
    var remaining, ready := remaining0, ready0;
    order := [];
    assert Elems(order) == {};
    while ready != []
      invariant remaining.Keys == remaining0.Keys
      invariant Draining(rel, remaining, ready, order)
      decreases remaining0.Keys - Elems(order)
    {
      remaining, ready, order := TakeReady(rel, remaining, dependents, ready, order);
    }
    AllDrained(rel, remaining0.Keys, Elems(order));
  }

  /** With nothing ready in an acyclic graph, nothing is left. */
  lemma AllDrained<V(!new)>(edges: set<(V, V)>, vertices: set<V>, done: set<V>)
    requires Acyclic(edges) && ReadyList(edges, vertices, [], done, done) && done <= vertices
    requires Within(edges, vertices)
    ensures done == vertices
  {
    forall v | v in vertices
      ensures v in done
    {
      if v !in done {
        assert v in vertices - done;
        var m := MinimalMember(edges, vertices - done);
        PredsDone(edges, vertices, done, m);
        NotReady(edges, vertices, done, m);
      }
    }
  }

  lemma PredsDone<V(!new)>(edges: set<(V, V)>, vertices: set<V>, done: set<V>, m: V)
    requires Within(edges, vertices)
    requires forall x :: (x, m) in edges ==> x !in vertices - done
    ensures PredsIn(edges, m, done)
  {
  }

  lemma NotReady<V(!new)>(edges: set<(V, V)>, vertices: set<V>, done: set<V>, m: V)
    requires ReadyList(edges, vertices, [], done, done) && m in vertices && m !in done
    ensures !(PredsIn(edges, m, done))
  {
    var none: seq<V> := [];
    assert m !in none;
  }

  /** s without its i-th element. */
  function Without<T>(s: seq<T>, i: nat): seq<T>
    requires i < |s|
  {
    s[..i] + s[i + 1..]
  }

  lemma WithoutReady<V(!new)>(
    edges: set<(V, V)>, vertices: set<V>, ready: seq<V>, taken: set<V>, finished: set<V>, i: nat)
    requires ReadyList(edges, vertices, ready, taken, finished) && i < |ready|
    ensures ReadyList(edges, vertices, Without(ready, i), taken + {ready[i]}, finished)
    ensures PredsIn(edges, ready[i], finished) && ready[i] in vertices && ready[i] !in taken
  {
    var rest := Without(ready, i);
    assert ready[i] in ready;
    forall v
      ensures v in rest <==> v in ready && v != ready[i]
    {
      if v in ready && v != ready[i] {
        var k :| 0 <= k < |ready| && ready[k] == v;
        assert rest[if k < i then k else k - 1] == v;
      }
    }
  }

  /** Moving the first ready vertex to the end of the order. */
  lemma TakeFirst<V(!new)>(edges: set<(V, V)>, vertices: set<V>, ready: seq<V>, order: seq<V>)
    requires ready != [] && ReadyList(edges, vertices, ready, Elems(order), Elems(order))
    requires Topological(edges, order)
    ensures Elems(order + [ready[0]]) == Elems(order) + {ready[0]}
    ensures ready[0] in vertices && ready[0] !in order
    ensures Topological(edges, order + [ready[0]])
    ensures ReadyList(edges, vertices, ready[1..], Elems(order + [ready[0]]), Elems(order))
    ensures forall v :: v in Elems(order + [ready[0]]) ==> PredsIn(edges, v, Elems(order))
  {
    WithoutReady(edges, vertices, ready, Elems(order), Elems(order), 0);
    assert Without(ready, 0) == ready[1..];
    ElemsSnoc(order, ready[0]);
    assert (order + [ready[0]])[..|order|] == order;
    TopologicalClosed(edges, order);
  }

  lemma DecrementStep<V(!new)>(remaining: map<V, int>, done: set<V>, d: V)
    requires d in remaining && d !in done
    ensures Decrement(remaining, done)[d] == remaining[d]
    ensures Decrement(remaining, done)[d := remaining[d] - 1] == Decrement(remaining, done + {d})
    ensures NewlyReady(remaining, done + {d}) ==
      NewlyReady(remaining, done) + if remaining[d] == 1 then {d} else {}
  {
  }

  /** Lowering each dependent once, collecting those that reach zero. */
  method LowerCounters<V(==,!new)>(remaining0: map<V, int>, dependents: seq<V>)
    returns (remaining: map<V, int>, zeroed: seq<V>)
    requires Distinct(dependents) && Elems(dependents) <= remaining0.Keys
    ensures remaining == Decrement(remaining0, Elems(dependents))
    ensures Distinct(zeroed) && Elems(zeroed) == NewlyReady(remaining0, Elems(dependents))
  {
    remaining := remaining0;
    zeroed := [];
    var i := 0;
    while i < |dependents|
      invariant 0 <= i <= |dependents|
      invariant remaining == Decrement(remaining0, Elems(dependents[..i]))
      invariant Distinct(zeroed)
      invariant Elems(zeroed) == NewlyReady(remaining0, Elems(dependents[..i]))
    {
      var d := dependents[i];
      ElemsSnoc(dependents[..i], d);
      TakeSnoc(dependents, i);
      assert d in Elems(dependents);
      DecrementStep(remaining0, Elems(dependents[..i]), d);
      remaining := remaining[d := remaining[d] - 1];
      if remaining[d] == 0 {
        assert d !in Elems(zeroed);
        ElemsSnoc(zeroed, d);
        zeroed := zeroed + [d];
      }
      i := i + 1;
    }
    assert dependents[..i] == dependents;
  }
}
