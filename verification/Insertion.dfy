/** The two ways internal/runner/execution_graph.go grows its graph: guarded edges out of one
    vertex (addExecutionEdge) and edges into a vertex that has no outgoing edge yet. */
module Insertion {
  import opened Digraph

  ghost predicate IsStar<V(!new)>(edges: set<(V, V)>, from: V, tos: set<V>, r: set<(V, V)>) {
    forall u, v {:trigger (u, v) in r} {:trigger (u, v) in edges} ::
      (u, v) in r <==> (u, v) in edges || (u == from && v in tos && !Reach(edges, v, from))
  }

  /** An edge from `from` to each of tos, except those from which `from` can be reached. */
  ghost function Star<V(!new)>(edges: set<(V, V)>, from: V, tos: set<V>): (r: set<(V, V)>)
    ensures IsStar(edges, from, tos, r)
  {
    assert IsStar(edges, from, tos, edges + set v | v in tos && !Reach(edges, v, from) :: (from, v));
    var r :| IsStar(edges, from, tos, r);
    r
  }

  ghost predicate IsInto<V(!new)>(edges: set<(V, V)>, froms: set<V>, to: V, r: set<(V, V)>) {
    forall u, v {:trigger (u, v) in r} {:trigger (u, v) in edges} ::
      (u, v) in r <==> (u, v) in edges || (u in froms && v == to)
  }

  /** An edge from each of froms to `to`. */
  ghost function Into<V(!new)>(edges: set<(V, V)>, froms: set<V>, to: V): (r: set<(V, V)>)
    ensures IsInto(edges, froms, to, r)
  {
    assert IsInto(edges, froms, to, edges + set u | u in froms :: (u, to));
    var r :| IsInto(edges, froms, to, r);
    r
  }

  // ---- Stars --------------------------------------------------------------------------

  /** Edges out of `from` do not change who reaches it. */
  lemma {:induction false} PathToCentre<V(!new)>(edges: set<(V, V)>, more: set<(V, V)>, from: V, p: seq<V>, x: V)
    requires forall u, v {:trigger (u, v) in more} :: (u, v) in more ==> (u, v) in edges || u == from
    requires Joins(more, p, x, from)
    ensures Reach(edges, x, from)
    decreases |p|
  {
    if x == from {
      ReachRefl(edges, x);
    } else {
      assert (x, p[1]) in more;
      PathToCentre(edges, more, from, p[1..], p[1]);
      ReachCons(edges, x, p[1], from);
    }
  }

  lemma StarReach<V(!new)>(edges: set<(V, V)>, from: V, tos: set<V>, x: V)
    ensures Reach(Star(edges, from, tos), x, from) <==> Reach(edges, x, from)
  {
    var more := Star(edges, from, tos);
    if Reach(more, x, from) {
      var p :| Joins(more, p, x, from);
      PathToCentre(edges, more, from, p, x);
    }
    if Reach(edges, x, from) {
      StarGrows(edges, from, tos);
      ReachMono(edges, more, x, from);
    }
  }

  lemma StarGrows<V(!new)>(edges: set<(V, V)>, from: V, tos: set<V>)
    ensures edges <= Star(edges, from, tos)
  {
    forall e | e in edges
      ensures e in Star(edges, from, tos)
    {
      assert (e.0, e.1) in edges;
    }
  }

  /** Inserting the edges one at a time, each with its own guard, gives the star in any order. */
  lemma StarNext<V(!new)>(edges: set<(V, V)>, from: V, tos: set<V>, v: V)
    ensures Star(edges, from, tos + {v}) ==
      var s := Star(edges, from, tos);
      if Reach(s, v, from) then s else s + {(from, v)}
  {
    StarReach(edges, from, tos, v);
    var s := Star(edges, from, tos);
    var r := if Reach(s, v, from) then s else s + {(from, v)};
    var want := Star(edges, from, tos + {v});
    forall e: (V, V)
      ensures e in r <==> e in want
    {
      assert (e.0, e.1) in s <==> (e.0, e.1) in edges || (e.0 == from && e.1 in tos && !Reach(edges, e.1, from));
      assert (e.0, e.1) in want <==>
        (e.0, e.1) in edges || (e.0 == from && e.1 in tos + {v} && !Reach(edges, e.1, from));
    }
    assert r == want;
  }

  lemma StarNone<V(!new)>(edges: set<(V, V)>, from: V)
    ensures Star(edges, from, {}) == edges
  {
    forall e: (V, V)
      ensures e in Star(edges, from, {}) <==> e in edges
    {
      assert (e.0, e.1) in Star(edges, from, {}) <==> (e.0, e.1) in edges;
    }
    assert Star(edges, from, {}) == edges;
  }

  lemma {:induction false} StarAcyclic<V(!new)>(edges: set<(V, V)>, from: V, tos: set<V>)
    requires Acyclic(edges)
    ensures Acyclic(Star(edges, from, tos))
    decreases |tos|
  {
    if tos == {} {
      StarNone(edges, from);
    } else {
      var v :| v in tos;
      StarAcyclic(edges, from, tos - {v});
      StarNext(edges, from, tos - {v}, v);
      assert tos - {v} + {v} == tos;
      AcyclicAfterEdge(Star(edges, from, tos - {v}), from, v);
    }
  }

  /** A guarded edge leaves its two ends comparable, whether it was kept or dropped. */
  lemma StarComparable<V(!new)>(edges: set<(V, V)>, from: V, tos: set<V>, v: V)
    requires v in tos
    ensures Comparable(Star(edges, from, tos), from, v)
  {
    if Reach(edges, v, from) {
      StarReach(edges, from, tos, v);
    } else {
      assert (from, v) in Star(edges, from, tos);
      ReachEdge(Star(edges, from, tos), from, v);
    }
  }

  // ---- Edges into a sink ------------------------------------------------------------------

  lemma IntoGrows<V(!new)>(edges: set<(V, V)>, froms: set<V>, to: V)
    ensures edges <= Into(edges, froms, to)
  {
    forall e | e in edges
      ensures e in Into(edges, froms, to)
    {
      assert (e.0, e.1) in edges;
    }
  }

  /** Edges into a vertex without outgoing edges make no other vertex reachable. */
  lemma {:induction false} PathPastSink<V(!new)>(edges: set<(V, V)>, more: set<(V, V)>, to: V, p: seq<V>, a: V, b: V)
    requires forall u, v {:trigger (u, v) in more} :: (u, v) in more ==> (u, v) in edges || v == to
    requires NoOut(more, to) && b != to && Joins(more, p, a, b)
    ensures Reach(edges, a, b)
    decreases |p|
  {
    if |p| == 1 {
      ReachRefl(edges, a);
    } else {
      assert (a, p[1]) in more;
      assert Joins(more, p[1..], p[1], b);
      if p[1] == to {
        NoOutReach(more, to, b);
      }
      PathPastSink(edges, more, to, p[1..], p[1], b);
      ReachCons(edges, a, p[1], b);
    }
  }

  lemma IntoReach<V(!new)>(edges: set<(V, V)>, froms: set<V>, to: V, a: V, b: V)
    requires NoOut(edges, to) && to !in froms && b != to
    ensures Reach(Into(edges, froms, to), a, b) <==> Reach(edges, a, b)
  {
    var more := Into(edges, froms, to);
    if Reach(more, a, b) {
      var p :| Joins(more, p, a, b);
      assert NoOut(more, to);
      PathPastSink(edges, more, to, p, a, b);
    }
    if Reach(edges, a, b) {
      IntoGrows(edges, froms, to);
      ReachMono(edges, more, a, b);
    }
  }

  lemma IntoAcyclic<V(!new)>(edges: set<(V, V)>, froms: set<V>, to: V)
    requires Acyclic(edges) && NoOut(edges, to) && to !in froms
    ensures Acyclic(Into(edges, froms, to)) && NoOut(Into(edges, froms, to), to)
  {
    var more := Into(edges, froms, to);
    assert NoOut(more, to);
    forall x, y | (x, y) in more
      ensures !Reach(more, y, x)
    {
      assert x != to;
      if y == to {
        if Reach(more, to, x) {
          NoOutReach(more, to, x);
        }
      } else {
        IntoReach(edges, froms, to, y, x);
        assert (x, y) in edges;
      }
    }
  }
}
