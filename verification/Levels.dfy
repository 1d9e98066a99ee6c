/** Levels of a finite relation: what can be settled in k rounds, each round taking the vertices whose
    predecessors are all settled. Used for the waves of Plans and for variable defaults. */
module Levels {
  import opened Digraph

  /** The vertices settled in k rounds, each round taking those whose predecessors are settled. */
  ghost function Settled<V(!new)>(rel: set<(V, V)>, ids: set<V>, k: nat): (r: set<V>)
    ensures r <= ids
  {
    if k == 0 then {} else set x | x in ids && PredsIn(rel, x, Settled(rel, ids, k - 1))
  }

  ghost function Level<V(!new)>(rel: set<(V, V)>, ids: set<V>, k: nat): set<V> {
    Settled(rel, ids, k + 1) - Settled(rel, ids, k)
  }

  lemma {:induction false} SettledGrows<V(!new)>(rel: set<(V, V)>, ids: set<V>, k: nat)
    ensures Settled(rel, ids, k) <= Settled(rel, ids, k + 1)
  {
    if k > 0 {
      SettledGrows(rel, ids, k - 1);
    }
  }

  lemma {:induction false} SettledMono<V(!new)>(rel: set<(V, V)>, ids: set<V>, j: nat, k: nat)
    requires j <= k
    ensures Settled(rel, ids, j) <= Settled(rel, ids, k)
  {
    if j < k {
      SettledMono(rel, ids, j, k - 1);
      SettledGrows(rel, ids, k - 1);
    }
  }

  /** A chain of n vertices, each depending on the one before, ends at x. */
  ghost predicate HasChain<V(!new)>(rel: set<(V, V)>, x: V, n: nat) {
    exists p: seq<V> :: ChainTo(rel, p, x, n)
  }

  ghost predicate ChainTo<V(!new)>(rel: set<(V, V)>, p: seq<V>, x: V, n: nat) {
    |p| == n && IsPath(rel, p) && p[n - 1] == x
  }

  lemma ChainOne<V(!new)>(rel: set<(V, V)>, x: V)
    ensures HasChain(rel, x, 1)
  {
    assert ChainTo(rel, [x], x, 1);
  }

  lemma ChainSnoc<V(!new)>(rel: set<(V, V)>, u: V, x: V, n: nat)
    requires HasChain(rel, u, n) && (u, x) in rel
    ensures HasChain(rel, x, n + 1)
  {
    var p :| ChainTo(rel, p, u, n);
    PathSnoc(rel, p, x);
    assert ChainTo(rel, p + [x], x, n + 1);
  }

  lemma {:induction false} PathInit<V(!new)>(rel: set<(V, V)>, p: seq<V>)
    requires IsPath(rel, p) && |p| > 1
    ensures IsPath(rel, p[..|p| - 1]) && (p[|p| - 2], p[|p| - 1]) in rel
    decreases |p|
  {
    if |p| > 2 {
      PathInit(rel, p[1..]);
      assert p[1..][..|p| - 2] == p[..|p| - 1][1..];
    }
  }

  lemma ChainInit<V(!new)>(rel: set<(V, V)>, x: V, n: nat) returns (u: V)
    requires HasChain(rel, x, n + 1) && n > 0
    ensures HasChain(rel, u, n) && (u, x) in rel
  {
    var p :| ChainTo(rel, p, x, n + 1);
    PathInit(rel, p);
    u := p[n - 1];
    assert ChainTo(rel, p[..n], u, n);
  }

  /** A vertex is settled in k rounds exactly when no chain of k + 1 vertices ends at it. */
  lemma {:induction false} SettledIffNoChain<V(!new)>(rel: set<(V, V)>, ids: set<V>, x: V, k: nat)
    requires x in ids && Within(rel, ids)
    ensures x in Settled(rel, ids, k) <==> !HasChain(rel, x, k + 1)
    decreases k
  {
    if k == 0 {
      ChainOne(rel, x);
    } else {
      if HasChain(rel, x, k + 1) {
        var u := ChainInit(rel, x, k);
        SettledIffNoChain(rel, ids, u, k - 1);
      }
      forall u | (u, x) in rel
        ensures u in Settled(rel, ids, k - 1) <==> !HasChain(rel, u, k)
        ensures HasChain(rel, u, k) ==> HasChain(rel, x, k + 1)
      {
        SettledIffNoChain(rel, ids, u, k - 1);
        if HasChain(rel, u, k) {
          ChainSnoc(rel, u, x, k);
        }
      }
    }
  }

  ghost predicate Within<V(!new)>(rel: set<(V, V)>, ids: set<V>) {
    forall u, v {:trigger (u, v) in rel} :: (u, v) in rel ==> u in ids && v in ids
  }

  /** The level of a vertex is the length of its longest dependency chain. */
  lemma LevelIsLongestChain<V(!new)>(rel: set<(V, V)>, ids: set<V>, x: V, k: nat)
    requires x in ids && Within(rel, ids)
    ensures x in Level(rel, ids, k) <==> HasChain(rel, x, k + 1) && !HasChain(rel, x, k + 2)
  {
    SettledIffNoChain(rel, ids, x, k);
    SettledIffNoChain(rel, ids, x, k + 1);
  }

  // ---- Cycles ---------------------------------------------------------------------------

  ghost predicate BehindCycle<V(!new)>(rel: set<(V, V)>, x: V) {
    exists y :: OnCycle(rel, y) && Reach(rel, y, x)
  }

  /** On a cycle, chains have every length. */
  lemma {:induction false} CycleHasChains<V(!new)>(rel: set<(V, V)>, y: V, n: nat)
    requires OnCycle(rel, y) && n > 0
    ensures HasChain(rel, y, n)
    decreases n
  {
    if n == 1 {
      ChainOne(rel, y);
    } else {
      var b :| (y, b) in rel && Reach(rel, b, y);
      var z := y;
      if b != y {
        z := ReachLast(rel, b, y);
        ReachCons(rel, y, b, z);
        ReachEdge(rel, z, y);
      }
      PredecessorOnCycle(rel, z, y);
      CycleHasChains(rel, z, n - 1);
      ChainSnoc(rel, z, y, n - 1);
    }
  }

  lemma PredecessorOnCycle<V(!new)>(rel: set<(V, V)>, z: V, y: V)
    requires (z, y) in rel && (z == y || Reach(rel, y, z))
    ensures OnCycle(rel, z)
  {
    ReachRefl(rel, y);
  }

  lemma {:induction false} ChainAlong<V(!new)>(rel: set<(V, V)>, p: seq<V>, y: V, x: V, n: nat)
    requires Joins(rel, p, y, x) && OnCycle(rel, y) && n > 0
    ensures HasChain(rel, x, n)
    decreases |p|
  {
    if |p| == 1 {
      CycleHasChains(rel, y, n);
    } else if n == 1 {
      ChainOne(rel, x);
    } else {
      PathInit(rel, p);
      ChainAlong(rel, p[..|p| - 1], y, p[|p| - 2], n - 1);
      ChainSnoc(rel, p[|p| - 2], x, n - 1);
    }
  }

  /** A chain with more vertices than there are runs through a cycle. */
  lemma LongChainMeetsCycle<V(!new)>(rel: set<(V, V)>, ids: set<V>, x: V)
    requires Within(rel, ids) && x in ids && HasChain(rel, x, |ids| + 1)
    ensures BehindCycle(rel, x)
  {
    var p :| ChainTo(rel, p, x, |ids| + 1);
    PathWithin(rel, ids, p);
    var i, j := Pigeonhole(p, ids);
    PathDrop(rel, p, i);
    PathDrop(rel, p, i + 1);
    PathDrop(rel, p, j);
    assert Joins(rel, p[j..], p[j], x);
    PathSegment(rel, p, i + 1, j);
    assert p[i..][1] == p[i + 1] && (p[i], p[i + 1]) in rel;
    assert OnCycle(rel, p[i]);
  }

  lemma {:induction false} PathWithin<V(!new)>(rel: set<(V, V)>, ids: set<V>, p: seq<V>)
    requires Within(rel, ids) && IsPath(rel, p) && p[|p| - 1] in ids
    ensures Elems(p) <= ids
    decreases |p|
  {
    if |p| > 1 {
      PathWithin(rel, ids, p[1..]);
      assert forall x :: x in p ==> x == p[0] || x in p[1..];
    }
  }

  lemma {:induction false} PathSegment<V(!new)>(rel: set<(V, V)>, p: seq<V>, i: nat, j: nat)
    requires i <= j < |p| && IsPath(rel, p)
    ensures Reach(rel, p[i], p[j])
    decreases j - i
  {
    if i == j {
      ReachRefl(rel, p[i]);
    } else {
      PathSegment(rel, p, i + 1, j);
      PathDrop(rel, p, i);
      assert p[i..][1] == p[i + 1];
      ReachCons(rel, p[i], p[i + 1], p[j]);
    }
  }

  /** The vertices never settled are exactly those that depend, directly or not, on a cycle; what is
      settled at all is settled in as many rounds as there are vertices. */
  lemma NeverSettledIff<V(!new)>(rel: set<(V, V)>, ids: set<V>, x: V)
    requires x in ids && Within(rel, ids)
    ensures x !in Settled(rel, ids, |ids|) <==> BehindCycle(rel, x)
    ensures BehindCycle(rel, x) ==> forall k :: x !in Settled(rel, ids, k)
  {
    SettledIffNoChain(rel, ids, x, |ids|);
    if HasChain(rel, x, |ids| + 1) {
      LongChainMeetsCycle(rel, ids, x);
    }
    if BehindCycle(rel, x) {
      var y :| OnCycle(rel, y) && Reach(rel, y, x);
      var p :| Joins(rel, p, y, x);
      forall k: nat
        ensures x !in Settled(rel, ids, k)
      {
        ChainAlong(rel, p, y, x, k + 1);
        SettledIffNoChain(rel, ids, x, k);
      }
    }
  }

  /** Everything is settled exactly when nothing depends on itself. */
  lemma AllSettledIffAcyclic<V(!new)>(rel: set<(V, V)>, ids: set<V>)
    requires Within(rel, ids)
    ensures Settled(rel, ids, |ids|) == ids <==> Acyclic(rel)
  {
    forall x | x in ids
      ensures x !in Settled(rel, ids, |ids|) <==> BehindCycle(rel, x)
    {
      NeverSettledIff(rel, ids, x);
    }
    if !Acyclic(rel) {
      var x, y :| (x, y) in rel && Reach(rel, y, x);
      assert OnCycle(rel, x);
      ReachRefl(rel, x);
      assert BehindCycle(rel, x);
    }
  }

  /** Once a round settles nothing new, no later round does. */
  lemma {:induction false} SettledStops<V(!new)>(rel: set<(V, V)>, ids: set<V>, k: nat, m: nat)
    requires Settled(rel, ids, k + 1) == Settled(rel, ids, k) && k <= m
    ensures Settled(rel, ids, m) == Settled(rel, ids, k)
  {
    if k < m {
      SettledStops(rel, ids, k, m - 1);
    }
  }
}
