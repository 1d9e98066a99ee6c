/** Finite directed graphs as sets of edges: paths, reachability and acyclicity.
    Every other module states its ordering guarantees in these terms. */
module Digraph {

  /** A non-empty list of vertices, each joined to the next by an edge. */
  ghost predicate IsPath<V(!new)>(edges: set<(V, V)>, p: seq<V>)
    decreases |p|
  {
    |p| > 0 && (|p| == 1 || ((p[0], p[1]) in edges && IsPath(edges, p[1..])))
  }

  ghost predicate Joins<V(!new)>(edges: set<(V, V)>, p: seq<V>, a: V, b: V) {
    IsPath(edges, p) && p[0] == a && p[|p| - 1] == b
  }

  /** Reflexive, transitive reachability. */
  ghost predicate Reach<V(!new)>(edges: set<(V, V)>, a: V, b: V) {
    exists p: seq<V> :: Joins(edges, p, a, b)
  }

  ghost predicate Acyclic<V(!new)>(edges: set<(V, V)>) {
    forall x, y {:trigger (x, y) in edges} :: (x, y) in edges ==> !Reach(edges, y, x)
  }

  /** a vertex lies on a cycle when one of its successors leads back to it. */
  ghost predicate OnCycle<V(!new)>(edges: set<(V, V)>, a: V) {
    exists b :: (a, b) in edges && Reach(edges, b, a)
  }

  /** A closed walk of at least one edge. */
  ghost predicate IsCycle<V(!new)>(edges: set<(V, V)>, c: seq<V>) {
    |c| >= 2 && IsPath(edges, c) && c[0] == c[|c| - 1]
  }

  ghost predicate SuccClosed<V(!new)>(edges: set<(V, V)>, s: set<V>) {
    forall x, y {:trigger (x, y) in edges} :: (x, y) in edges && x in s ==> y in s
  }

  ghost predicate PredClosed<V(!new)>(edges: set<(V, V)>, s: set<V>) {
    forall x, y {:trigger (x, y) in edges} :: (x, y) in edges && y in s ==> x in s
  }

  /** Every predecessor of v is in s. */
  ghost predicate PredsIn<V(!new)>(edges: set<(V, V)>, v: V, s: set<V>) {
    forall u {:trigger (u, v) in edges} :: (u, v) in edges ==> u in s
  }

  ghost predicate NoOut<V(!new)>(edges: set<(V, V)>, a: V) {
    forall y :: (a, y) !in edges
  }

  ghost predicate Comparable<V(!new)>(edges: set<(V, V)>, a: V, b: V) {
    Reach(edges, a, b) || Reach(edges, b, a)
  }

  // Neighbourhoods and element sets are described by their members alone.

  ghost predicate AreSuccs<V(!new)>(edges: set<(V, V)>, v: V, r: set<V>) {
    forall w {:trigger w in r} {:trigger (v, w) in edges} :: w in r <==> (v, w) in edges
  }

  ghost function Succs<V(!new)>(edges: set<(V, V)>, v: V): (r: set<V>)
    ensures forall w {:trigger w in r} {:trigger (v, w) in edges} :: w in r <==> (v, w) in edges
  {
    assert AreSuccs(edges, v, set e | e in edges && e.0 == v :: e.1);
    var r :| AreSuccs(edges, v, r);
    r
  }

  // ---- Paths ---------------------------------------------------------------

  lemma ReachRefl<V(!new)>(edges: set<(V, V)>, a: V)
    ensures Reach(edges, a, a)
  {
    assert Joins(edges, [a], a, a);
  }

  lemma ReachCons<V(!new)>(edges: set<(V, V)>, a: V, b: V, c: V)
    requires (a, b) in edges && Reach(edges, b, c)
    ensures Reach(edges, a, c)
  {
    var p :| Joins(edges, p, b, c);
    var q := [a] + p;
    assert q[1..] == p;
    assert Joins(edges, q, a, c);
  }

  lemma ReachEdge<V(!new)>(edges: set<(V, V)>, a: V, b: V)
    requires (a, b) in edges
    ensures Reach(edges, a, b)
  {
    ReachRefl(edges, b);
    ReachCons(edges, a, b, b);
  }

  lemma {:induction false} PathTrans<V(!new)>(edges: set<(V, V)>, p: seq<V>, a: V, b: V, c: V)
    requires Joins(edges, p, a, b) && Reach(edges, b, c)
    ensures Reach(edges, a, c)
    decreases |p|
  {
    if |p| > 1 {
      PathTrans(edges, p[1..], p[1], b, c);
      ReachCons(edges, a, p[1], c);
    }
  }

  lemma ReachTrans<V(!new)>(edges: set<(V, V)>, a: V, b: V, c: V)
    requires Reach(edges, a, b) && Reach(edges, b, c)
    ensures Reach(edges, a, c)
  {
    var p :| Joins(edges, p, a, b);
    PathTrans(edges, p, a, b, c);
  }

  lemma ReachSnoc<V(!new)>(edges: set<(V, V)>, a: V, b: V, c: V)
    requires Reach(edges, a, b) && (b, c) in edges
    ensures Reach(edges, a, c)
  {
    ReachEdge(edges, b, c);
    ReachTrans(edges, a, b, c);
  }

  /** A path that goes somewhere has a first edge. */
  lemma ReachFirst<V(!new)>(edges: set<(V, V)>, a: V, c: V) returns (b: V)
    requires Reach(edges, a, c) && a != c
    ensures (a, b) in edges && Reach(edges, b, c)
  {
    var p :| Joins(edges, p, a, c);
    b := p[1];
    assert Joins(edges, p[1..], b, c);
  }

  /** A path that goes somewhere has a last edge. */
  lemma {:induction false} PathLast<V(!new)>(edges: set<(V, V)>, p: seq<V>, a: V, c: V) returns (b: V)
    requires Joins(edges, p, a, c) && a != c
    ensures Reach(edges, a, b) && (b, c) in edges
    decreases |p|
  {
    if p[1] == c {
      ReachRefl(edges, a);
      b := a;
    } else {
      b := PathLast(edges, p[1..], p[1], c);
      ReachCons(edges, a, p[1], b);
    }
  }

  lemma ReachLast<V(!new)>(edges: set<(V, V)>, a: V, c: V) returns (b: V)
    requires Reach(edges, a, c) && a != c
    ensures Reach(edges, a, b) && (b, c) in edges
  {
    var p :| Joins(edges, p, a, c);
    b := PathLast(edges, p, a, c);
  }

  lemma {:induction false} PathMono<V(!new)>(edges: set<(V, V)>, more: set<(V, V)>, p: seq<V>)
    requires edges <= more && IsPath(edges, p)
    ensures IsPath(more, p)
    decreases |p|
  {
    if |p| > 1 {
      PathMono(edges, more, p[1..]);
    }
  }

  lemma ReachMono<V(!new)>(edges: set<(V, V)>, more: set<(V, V)>, a: V, b: V)
    requires edges <= more && Reach(edges, a, b)
    ensures Reach(more, a, b)
  {
    var p :| Joins(edges, p, a, b);
    PathMono(edges, more, p);
    assert Joins(more, p, a, b);
  }

  // ---- Closed sets ----------------------------------------------------------

  lemma {:induction false} PathStaysIn<V(!new)>(edges: set<(V, V)>, s: set<V>, p: seq<V>, a: V, b: V)
    requires SuccClosed(edges, s) && Joins(edges, p, a, b) && a in s
    ensures b in s
    decreases |p|
  {
    if |p| > 1 {
      PathStaysIn(edges, s, p[1..], p[1], b);
    }
  }

  lemma ReachStaysIn<V(!new)>(edges: set<(V, V)>, s: set<V>, a: V, b: V)
    requires SuccClosed(edges, s) && Reach(edges, a, b) && a in s
    ensures b in s
  {
    var p :| Joins(edges, p, a, b);
    PathStaysIn(edges, s, p, a, b);
  }

  lemma {:induction false} PathComesFrom<V(!new)>(edges: set<(V, V)>, s: set<V>, p: seq<V>, a: V, b: V)
    requires PredClosed(edges, s) && Joins(edges, p, a, b) && b in s
    ensures a in s
    decreases |p|
  {
    if |p| > 1 {
      PathComesFrom(edges, s, p[1..], p[1], b);
    }
  }

  lemma ReachComesFrom<V(!new)>(edges: set<(V, V)>, s: set<V>, a: V, b: V)
    requires PredClosed(edges, s) && Reach(edges, a, b) && b in s
    ensures a in s
  {
    var p :| Joins(edges, p, a, b);
    PathComesFrom(edges, s, p, a, b);
  }

  /** Seen backwards from s, the edges are also edges of another graph. */
  ghost predicate Transfers<V(!new)>(edges: set<(V, V)>, other: set<(V, V)>, s: set<V>) {
    forall x, y {:trigger (x, y) in edges} :: (x, y) in edges && y in s ==> (x, y) in other && x in s
  }

  lemma {:induction false} PathTransfers<V(!new)>(
    edges: set<(V, V)>, other: set<(V, V)>, s: set<V>, p: seq<V>, a: V, b: V)
    requires Transfers(edges, other, s) && Joins(edges, p, a, b) && b in s
    ensures Reach(other, a, b) && a in s
    decreases |p|
  {
    if |p| == 1 {
      ReachRefl(other, b);
    } else {
      PathTransfers(edges, other, s, p[1..], p[1], b);
      assert (a, p[1]) in edges;
      ReachCons(other, a, p[1], b);
    }
  }

  lemma ReachTransfers<V(!new)>(edges: set<(V, V)>, other: set<(V, V)>, s: set<V>, a: V, b: V)
    requires Transfers(edges, other, s) && Reach(edges, a, b) && b in s
    ensures Reach(other, a, b)
  {
    var p :| Joins(edges, p, a, b);
    PathTransfers(edges, other, s, p, a, b);
  }

  /** A vertex with no outgoing edge reaches only itself. */
  lemma NoOutReach<V(!new)>(edges: set<(V, V)>, a: V, b: V)
    requires NoOut(edges, a) && Reach(edges, a, b)
    ensures a == b
  {
    ReachStaysIn(edges, {a}, a, b);
  }

  // ---- Adding edges -----------------------------------------------------------

  /** In a graph grown by one edge a -> b, an old path or a detour over a -> b. */
  lemma {:induction false} PathAfterEdge<V(!new)>(edges: set<(V, V)>, a: V, b: V, p: seq<V>, x: V, y: V)
    requires !Reach(edges, b, a)
    requires Joins(edges + {(a, b)}, p, x, y)
    ensures Reach(edges, x, y) || (Reach(edges, x, a) && Reach(edges, b, y))
    decreases |p|
  {
    if |p| == 1 {
      ReachRefl(edges, x);
    } else {
      PathAfterEdge(edges, a, b, p[1..], p[1], y);
      if (x, p[1]) in edges {
        if Reach(edges, p[1], y) {
          ReachCons(edges, x, p[1], y);
        } else {
          ReachCons(edges, x, p[1], a);
        }
      } else {
        ReachRefl(edges, a);
      }
    }
  }

  lemma ReachAfterEdge<V(!new)>(edges: set<(V, V)>, a: V, b: V, x: V, y: V)
    requires !Reach(edges, b, a)
    requires Reach(edges + {(a, b)}, x, y)
    ensures Reach(edges, x, y) || (Reach(edges, x, a) && Reach(edges, b, y))
  {
    var p :| Joins(edges + {(a, b)}, p, x, y);
    PathAfterEdge(edges, a, b, p, x, y);
  }

  /** The guard of addExecutionEdge is exactly what keeps a graph acyclic. */
  lemma AcyclicAfterEdge<V(!new)>(edges: set<(V, V)>, a: V, b: V)
    requires Acyclic(edges)
    ensures Acyclic(edges + {(a, b)}) <==> (a, b) in edges || !Reach(edges, b, a)
  {
    var more := edges + {(a, b)};
    if (a, b) in edges {
      assert more == edges;
    } else if Reach(edges, b, a) {
      ReachMono(edges, more, b, a);
      assert (a, b) in more;
    } else {
      forall x, y | (x, y) in more
        ensures !Reach(more, y, x)
      {
        if Reach(more, y, x) {
          ReachAfterEdge(edges, a, b, y, x);
          if (x, y) in edges {
            if Reach(edges, y, a) && Reach(edges, b, x) {
              ReachSnoc(edges, b, x, y);
              ReachTrans(edges, b, y, a);
            }
          }
        }
      }
    }
  }

  lemma NoCycleAcyclic<V(!new)>(edges: set<(V, V)>, sources: set<V>)
    requires forall x, y {:trigger (x, y) in edges} :: (x, y) in edges ==> x in sources
    requires forall x :: x in sources ==> !OnCycle(edges, x)
    ensures Acyclic(edges)
  {
  }

  lemma AcyclicSubset<V(!new)>(edges: set<(V, V)>, more: set<(V, V)>)
    requires edges <= more && Acyclic(more)
    ensures Acyclic(edges)
  {
    forall x, y | (x, y) in edges && Reach(edges, y, x)
      ensures false
    {
      ReachMono(edges, more, y, x);
    }
  }

  /** A genuine cycle refutes acyclicity. */
  lemma CycleRefutes<V(!new)>(edges: set<(V, V)>, c: seq<V>)
    requires IsCycle(edges, c)
    ensures !Acyclic(edges) && OnCycle(edges, c[0])
  {
    assert Joins(edges, c[1..], c[1], c[0]);
    assert (c[0], c[1]) in edges;
  }

  lemma {:induction false} PathSnoc<V(!new)>(edges: set<(V, V)>, p: seq<V>, b: V)
    requires IsPath(edges, p) && (p[|p| - 1], b) in edges
    ensures IsPath(edges, p + [b])
    decreases |p|
  {
    if |p| > 1 {
      PathSnoc(edges, p[1..], b);
      assert (p + [b])[1..] == p[1..] + [b];
    } else {
      assert (p + [b])[1..] == [b];
    }
  }

  lemma {:induction false} PathDrop<V(!new)>(edges: set<(V, V)>, p: seq<V>, i: nat)
    requires IsPath(edges, p) && i < |p|
    ensures IsPath(edges, p[i..])
    decreases i
  {
    if i > 0 {
      PathDrop(edges, p[1..], i - 1);
      assert p[1..][i - 1..] == p[i..];
    }
  }

  /** Some member of a non-empty set has no predecessor inside it. */
  lemma {:induction false} MinimalMember<V(!new)>(edges: set<(V, V)>, s: set<V>) returns (m: V)
    requires Acyclic(edges) && s != {}
    ensures m in s && forall x :: (x, m) in edges ==> x !in s
    decreases |s|
  {
    var v :| v in s;
    var above := set x | x in s && x != v && Reach(edges, x, v);
    if above == {} {
      m := v;
      forall x | (x, m) in edges
        ensures x !in s
      {
        ReachEdge(edges, x, m);
        ReachRefl(edges, m);
        assert x in s ==> x == v || x in above;
      }
    } else {
      assert above <= s - {v};
      assert |above| <= |s - {v}| by { SubsetSize(above, s - {v}); }
      m := MinimalMember(edges, above);
      forall x | (x, m) in edges
        ensures x !in s
      {
        ReachCons(edges, x, m, v);
        assert x in s ==> x == v || x in above;
      }
    }
  }

  lemma {:induction false} SubsetSize<T>(a: set<T>, b: set<T>)
    requires a <= b
    ensures |a| <= |b|
    ensures |a| == |b| ==> a == b
  {
    if a != {} {
      var x :| x in a;
      SubsetSize(a - {x}, b - {x});
      assert a == (a - {x}) + {x};
      assert b == (b - {x}) + {x};
    }
  }

  // ---- Sequences without repeats --------------------------------------------------

  ghost predicate Distinct<T(!new)>(s: seq<T>) {
    forall i, j :: 0 <= i < j < |s| ==> s[i] != s[j]
  }

  ghost function Elems<T(!new)>(s: seq<T>): (r: set<T>)
    ensures forall x :: x in r <==> x in s
  {
    set x | x in s
  }

  lemma TakeSnoc<T>(s: seq<T>, i: nat)
    requires i < |s|
    ensures s[..i + 1] == s[..i] + [s[i]]
  {
  }

  lemma InitLast<T>(s: seq<T>)
    requires s != []
    ensures s == s[..|s| - 1] + [s[|s| - 1]]
  {
  }

  lemma ElemsSnoc<T(!new)>(s: seq<T>, x: T)
    ensures Elems(s + [x]) == Elems(s) + {x}
    ensures Distinct(s + [x]) <==> Distinct(s) && x !in s
  {
    forall i, j | Distinct(s + [x]) && 0 <= i < j < |s|
      ensures s[i] != s[j]
    {
      assert (s + [x])[i] == s[i] && (s + [x])[j] == s[j];
    }
    if x in s {
      var i :| 0 <= i < |s| && s[i] == x;
      assert (s + [x])[i] == (s + [x])[|s|];
    }
  }

  lemma {:induction false} DistinctSize<T(!new)>(s: seq<T>)
    requires Distinct(s)
    ensures |Elems(s)| == |s|
  {
    if s != [] {
      DistinctSize(s[1..]);
      assert Elems(s) == Elems(s[1..]) + {s[0]};
    }
  }

  /** More positions than values: some value is repeated. */
  lemma {:induction false} Pigeonhole<T(!new)>(s: seq<T>, values: set<T>) returns (i: nat, j: nat)
    requires Elems(s) <= values && |s| > |values|
    ensures i < j < |s| && s[i] == s[j]
  {
    if Distinct(s) {
      DistinctSize(s);
      SubsetSize(Elems(s), values);
      assert false;
    }
    i, j :| 0 <= i < j < |s| && s[i] == s[j];
  }

  // ---- Topological orders ----------------------------------------------------------

  /** Each vertex comes once, after all its predecessors. */
  ghost predicate Topological<V(!new)>(edges: set<(V, V)>, order: seq<V>)
    decreases |order|
  {
    order == [] ||
    var init, last := order[..|order| - 1], order[|order| - 1];
    Topological(edges, init) && last !in init && PredsIn(edges, last, Elems(init))
  }

  lemma TopologicalSnoc<V(!new)>(edges: set<(V, V)>, order: seq<V>, v: V)
    requires Topological(edges, order) && v !in order && PredsIn(edges, v, Elems(order))
    ensures Topological(edges, order + [v])
  {
    assert (order + [v])[..|order|] == order;
  }

  lemma {:induction false} TopologicalClosed<V(!new)>(edges: set<(V, V)>, order: seq<V>)
    requires Topological(edges, order)
    ensures Distinct(order) && PredClosed(edges, Elems(order))
    ensures forall v :: v in order ==> PredsIn(edges, v, Elems(order))
    decreases |order|
  {
    if order != [] {
      var init, last := order[..|order| - 1], order[|order| - 1];
      TopologicalClosed(edges, init);
      assert order == init + [last];
      ElemsSnoc(init, last);
      forall x, y | (x, y) in edges && y in Elems(order)
        ensures x in Elems(order)
      {
        assert y in order;
      }
    }
  }

  /** In a topological order no edge points backward. */
  lemma {:induction false} TopologicalForward<V(!new)>(edges: set<(V, V)>, order: seq<V>, i: nat, j: nat)
    requires Topological(edges, order) && j <= i < |order|
    ensures (order[i], order[j]) !in edges
    decreases |order|
  {
    var init, last := order[..|order| - 1], order[|order| - 1];
    if i < |init| {
      TopologicalForward(edges, init, i, j);
    } else {
      TopologicalClosed(edges, init);
      assert j < |init| ==> init[j] in Elems(init);
    }
  }

  /** ... so it exhibits acyclicity. */
  lemma {:induction false} TopologicalAcyclic<V(!new)>(edges: set<(V, V)>, order: seq<V>)
    requires Topological(edges, order)
    requires forall x, y {:trigger (x, y) in edges} :: (x, y) in edges ==> y in order
    ensures Acyclic(edges)
  {
    forall x, y | (x, y) in edges
      ensures !Reach(edges, y, x)
    {
      TopologicalOneWay(edges, order, x, y);
    }
  }

  lemma {:induction false} TopologicalOneWay<V(!new)>(edges: set<(V, V)>, order: seq<V>, x: V, y: V)
    requires Topological(edges, order) && y in order
    requires (x, y) in edges
    ensures !Reach(edges, y, x)
    decreases |order|
  {
    var init, last := order[..|order| - 1], order[|order| - 1];
    assert order == init + [last];
    TopologicalClosed(edges, init);
    if y in init {
      TopologicalOneWay(edges, init, x, y);
    } else if Reach(edges, y, x) {
      ReachComesFrom(edges, Elems(init), y, x);
    }
  }
}
