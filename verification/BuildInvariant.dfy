/** What every step of the graph build keeps: the graph stays acyclic, each edge and each scope
    membership has a reason, and what has been promised about a finished target stays true. */
module BuildInvariant {
  import opened Nodes
  import opened Digraph
  import opened Wrappers
  import opened Insertion
  import opened BuildSpec

  ghost predicate OwnedBy(v: Node, names: set<Name>) {
    !v.Nil? && v.name in names
  }

  /** Which vertices may exist: those of finished targets and of targets in progress. */
  ghost predicate Known(t: Shape, names: set<Name>, v: Node) {
    && OwnedBy(v, names) && v.name in t
    && (v.ScopeStart? ==> HasScope(t[v.name]))
    && (v.Barrier? ==> v.index < |t[v.name].steps|)
  }

  function Children(item: Item): seq<Name> {
    item.steps + item.members
  }

  /** v is one of the vertices that a finished child brings along. */
  ghost predicate Enters(t: Shape, closed: set<Name>, kid: Name, v: Node) {
    kid in closed && ((v.Target? && v.name in Cl(t, kid)) || v in Start(t, kid))
  }

  /** The reason for an edge. */
  ghost predicate Justified(t: Shape, closed: set<Name>, u: Node, v: Node) {
    match u
    case Nil => false
    case Target(x) =>
      x in closed && !v.Nil? && v.name in t &&
      (match v
       case Nil => false
       case Target(y) => x in t[y].deps || exists m :: m in t[y].members && x in Cl(t, m)
       case ScopeStart(y) => x in t[y].deps
       case Barrier(y, i) => i < |t[y].steps| && x in Cl(t, t[y].steps[i]))
    case ScopeStart(p) =>
      p in t && (v == Target(p) || (EntersScope(t, closed, p, v) && IsNew(t, p, v)))
    case Barrier(p, i) =>
      && p in t && i < |t[p].steps|
      && ((i + 1 == |t[p].steps| && v == Target(p))
          || (i + 1 < |t[p].steps| && Enters(t, closed, t[p].steps[i + 1], v)
              && (Alone(t, p) && !IsNew(t, p, v) ==> t[p].steps[i] in Closures(t, t[p].deps))))
  }

  ghost predicate EntersScope(t: Shape, closed: set<Name>, p: Name, v: Node)
    requires p in t
  {
    exists kid :: kid in Children(t[p]) && Enters(t, closed, kid, v)
  }

  /** v is not a target that the dependencies of p have completed. */
  ghost predicate IsNew(t: Shape, p: Name, v: Node)
    requires p in t
  {
    v.Target? ==> v.name !in Closures(t, t[p].deps)
  }

  /** p is a pipeline, the only composite, and no step is needed by an earlier one. */
  ghost predicate Alone(t: Shape, p: Name)
    requires p in t
  {
    && t[p].members == [] && (forall q :: q in t && q != p ==> !HasScope(t[q]))
    && forall i, j :: 0 <= j < i < |t[p].steps| ==> t[p].steps[i] !in Cl(t, t[p].steps[j])
  }

  /** The reason for a membership: a child of p needs v and no dependency of p does. */
  ghost predicate MemberFor(t: Shape, closed: set<Name>, v: Node, p: Name) {
    p in t && EntersScope(t, closed, p, v) && IsNew(t, p, v)
  }

  // ---- What is promised about finished work ------------------------------------------------

  ghost predicate DepDone(t: Shape, b: B, n: Name, i: nat)
    requires n in t && i < |t[n].deps|
  {
    t[n].deps[i] in b.closed && (Target(t[n].deps[i]), Target(n)) in b.edges
  }

  ghost predicate Opened(t: Shape, b: B, p: Name)
    requires p in t
  {
    && ScopeStart(p) in b.vertices
    && forall d :: d in t[p].deps ==> d in b.closed && (Target(d), ScopeStart(p)) in b.edges
  }

  ghost predicate AllInto(edges: set<(Node, Node)>, froms: set<Node>, to: Node) {
    forall u :: u in froms ==> (u, to) in edges
  }

  ghost predicate AllComparable(edges: set<(Node, Node)>, from: Node, tos: set<Node>) {
    forall v :: v in tos ==> Comparable(edges, from, v)
  }

  ghost predicate AllMembers(b: B, vs: set<Node>, p: Name) {
    forall v :: v in vs ==> (v, p) in b.members
  }

  /** Every first-time vertex of step i comes right after barrier i - 1. */
  ghost predicate Sequenced(t: Shape, edges: set<(Node, Node)>, p: Name, i: nat)
    requires p in t && i < |t[p].steps|
  {
    i > 0 ==> forall v ::
      v in Fresh(t, t[p].steps[i], Prev(t, p, i)) && v.name !in Prev(t, p, i) ==> (Barrier(p, i - 1), v) in edges
  }

  /** Other composites reach into p only as a whole: if a child of q that does not itself need p
      shares something with what p has behind it at some step, then q is behind it as well. */
  ghost predicate Nested(t: Shape, p: Name)
    requires p in t
  {
    forall q, kid, i: nat, x {:trigger kid in Children(t[q]), x in Prev(t, p, i), x in Cl(t, kid)} ::
      && q in t && q != p && kid in Children(t[q]) && p !in Cl(t, kid)
      && i <= |t[p].steps| && x in Prev(t, p, i) && x in Cl(t, kid)
      ==> q in Prev(t, p, i)
  }

  /** In a lone pipeline, what else is certain about the edges wired in for step i. */
  ghost predicate Lone(t: Shape, edges: set<(Node, Node)>, p: Name, i: nat)
    requires p in t && i < |t[p].steps|
  {
    var done := Closures(t, t[p].deps);
    && (forall x :: x in Cl(t, t[p].steps[i]) && x !in Prev(t, p, i) ==> (ScopeStart(p), Target(x)) in edges)
    && (i > 0 && t[p].steps[i] in done && t[p].steps[i - 1] in done ==>
          (Barrier(p, i - 1), Target(t[p].steps[i])) in edges)
  }

  ghost predicate StepDone(t: Shape, b: B, p: Name, i: nat)
    requires p in t && i < |t[p].steps|
  {
    var step := t[p].steps[i];
    var newcomers := Fresh(t, step, Prev(t, p, i));
    && step in b.closed && Barrier(p, i) in b.vertices
    && AllInto(b.edges, Targets(Cl(t, step)), Barrier(p, i))
    && AllComparable(b.edges, ScopeStart(p), newcomers) && AllMembers(b, newcomers, p)
    && (i > 0 ==> AllComparable(b.edges, Barrier(p, i - 1), newcomers + {Root(t, step)}))
    && (Nested(t, p) ==> Sequenced(t, b.edges, p, i))
    && (Alone(t, p) ==> Lone(t, b.edges, p, i))
  }

  ghost predicate MemberDone(t: Shape, b: B, g: Name, i: nat)
    requires g in t && i < |t[g].members|
  {
    var member := t[g].members[i];
    var newcomers := Fresh(t, member, Closures(t, t[g].deps));
    && member in b.closed
    && AllInto(b.edges, Targets(Cl(t, member)), Target(g))
    && AllComparable(b.edges, ScopeStart(g), newcomers) && AllMembers(b, newcomers, g)
  }

  ghost predicate PipelineDone(t: Shape, b: B, p: Name)
    requires p in t
  {
    var k := |t[p].steps|;
    k > 0 ==>
      && (forall i :: 0 <= i < k ==> StepDone(t, b, p, i))
      && (Barrier(p, k - 1), Target(p)) in b.edges
      && Opened(t, b, p) && (ScopeStart(p), Target(p)) in b.edges
  }

  ghost predicate GroupDone(t: Shape, b: B, g: Name)
    requires g in t
  {
    t[g].members != [] ==>
      && (forall i :: 0 <= i < |t[g].members| ==> MemberDone(t, b, g, i))
      && Opened(t, b, g) && (ScopeStart(g), Target(g)) in b.edges
  }

  ghost predicate Finished(t: Shape, b: B, n: Name) {
    && n in t && Target(n) in b.vertices
    && (forall i :: 0 <= i < |t[n].deps| ==> DepDone(t, b, n, i))
    && PipelineDone(t, b, n) && GroupDone(t, b, n)
  }

  // ---- The invariant ----------------------------------------------------------------------

  ghost predicate ClosedUnderKids(t: Shape, closed: set<Name>) {
    && closed <= t.Keys
    && forall n, k :: n in closed && k in Kids(t[n]) ==> k in closed
  }

  /** The graph itself. */
  ghost predicate Sound(t: Shape, b: B, visiting: set<Name>) {
    && Acyclic(b.edges)
    && (forall v :: v in b.vertices ==> Known(t, b.closed + visiting, v))
    && (forall u, v {:trigger (u, v) in b.edges} :: (u, v) in b.edges ==>
          u in b.vertices && v in b.vertices && Justified(t, b.closed, u, v))
    && (forall v, p {:trigger (v, p) in b.members} :: (v, p) in b.members ==>
          ScopeStart(p) in b.vertices && MemberFor(t, b.closed, v, p))
  }

  ghost predicate Inv(t: Shape, b: B, visiting: set<Name>) {
    && ClosedUnderKids(t, b.closed) && visiting <= t.Keys && b.closed !! visiting
    && Sound(t, b, visiting)
    && forall n :: n in b.closed ==> Finished(t, b, n)
  }

  /** The build only adds. */
  ghost predicate Extends(b: B, b': B) {
    && b.vertices <= b'.vertices && b.edges <= b'.edges && b.members <= b'.members && b.closed <= b'.closed
  }

  /** No vertex of the given names has been added. */
  ghost predicate Spares(b: B, b': B, names: set<Name>) {
    forall v :: v in b'.vertices && OwnedBy(v, names) ==> v in b.vertices
  }

  // ---- Promises persist ---------------------------------------------------------------------

  lemma ComparableGrows(edges: set<(Node, Node)>, more: set<(Node, Node)>, from: Node, tos: set<Node>)
    requires edges <= more && AllComparable(edges, from, tos)
    ensures AllComparable(more, from, tos)
  {
    forall v | v in tos
      ensures Comparable(more, from, v)
    {
      if Reach(edges, from, v) {
        ReachMono(edges, more, from, v);
      } else {
        ReachMono(edges, more, v, from);
      }
    }
  }

  lemma StepDoneGrows(t: Shape, b: B, b': B, p: Name, i: nat)
    requires p in t && i < |t[p].steps| && Extends(b, b') && StepDone(t, b, p, i)
    ensures StepDone(t, b', p, i)
  {
    var step := t[p].steps[i];
    var newcomers := Fresh(t, step, Prev(t, p, i));
    ComparableGrows(b.edges, b'.edges, ScopeStart(p), newcomers);
    if i > 0 {
      ComparableGrows(b.edges, b'.edges, Barrier(p, i - 1), newcomers + {Root(t, step)});
    }
  }

  lemma MemberDoneGrows(t: Shape, b: B, b': B, g: Name, i: nat)
    requires g in t && i < |t[g].members| && Extends(b, b') && MemberDone(t, b, g, i)
    ensures MemberDone(t, b', g, i)
  {
    ComparableGrows(b.edges, b'.edges, ScopeStart(g), Fresh(t, t[g].members[i], Closures(t, t[g].deps)));
  }

  lemma OpenedGrows(t: Shape, b: B, b': B, p: Name)
    requires p in t && Extends(b, b') && Opened(t, b, p)
    ensures Opened(t, b', p)
  {
  }

  lemma PipelineGrows(t: Shape, b: B, b': B, n: Name)
    requires n in t && Extends(b, b') && PipelineDone(t, b, n)
    ensures PipelineDone(t, b', n)
  {
    if t[n].steps != [] {
      OpenedGrows(t, b, b', n);
      forall i | 0 <= i < |t[n].steps|
        ensures StepDone(t, b', n, i)
      {
        StepDoneGrows(t, b, b', n, i);
      }
    }
  }

  lemma GroupGrows(t: Shape, b: B, b': B, n: Name)
    requires n in t && Extends(b, b') && GroupDone(t, b, n)
    ensures GroupDone(t, b', n)
  {
    if t[n].members != [] {
      OpenedGrows(t, b, b', n);
      forall i | 0 <= i < |t[n].members|
        ensures MemberDone(t, b', n, i)
      {
        MemberDoneGrows(t, b, b', n, i);
      }
    }
  }

  lemma FinishedGrows(t: Shape, b: B, b': B, n: Name)
    requires Extends(b, b') && Finished(t, b, n)
    ensures Finished(t, b', n)
  {
    PipelineGrows(t, b, b', n);
    GroupGrows(t, b, b', n);
    forall i | 0 <= i < |t[n].deps|
      ensures DepDone(t, b', n, i)
    {
      assert DepDone(t, b, n, i);
    }
  }

  lemma AllFinishedGrow(t: Shape, b: B, b': B)
    requires Extends(b, b') && forall n :: n in b.closed ==> Finished(t, b, n)
    ensures forall n :: n in b.closed ==> Finished(t, b', n)
  {
    forall n | n in b.closed
      ensures Finished(t, b', n)
    {
      FinishedGrows(t, b, b', n);
    }
  }

  lemma JustifiedGrows(t: Shape, closed: set<Name>, more: set<Name>, u: Node, v: Node)
    requires closed <= more && Justified(t, closed, u, v)
    ensures Justified(t, more, u, v)
  {
    if u.ScopeStart? && v != Target(u.name) {
      EntersScopeGrows(t, closed, more, u.name, v);
    }
  }

  lemma EntersScopeGrows(t: Shape, closed: set<Name>, more: set<Name>, p: Name, v: Node)
    requires closed <= more && p in t && EntersScope(t, closed, p, v)
    ensures EntersScope(t, more, p, v)
  {
    var kid :| kid in Children(t[p]) && Enters(t, closed, kid, v);
    assert Enters(t, more, kid, v);
  }

  lemma MemberForGrows(t: Shape, closed: set<Name>, more: set<Name>, v: Node, p: Name)
    requires closed <= more && MemberFor(t, closed, v, p)
    ensures MemberFor(t, more, v, p)
  {
    EntersScopeGrows(t, closed, more, p, v);
  }

  // ---- Closures -------------------------------------------------------------------------------

  lemma ClSelf(t: Shape, n: Name)
    ensures n in Cl(t, n)
  {
    ReachRefl(Feeds(t), n);
  }

  lemma ClKid(t: Shape, kid: Name, n: Name)
    requires n in t && kid in Kids(t[n])
    ensures Cl(t, kid) <= Cl(t, n) && kid in Cl(t, n)
  {
    forall x | x in Cl(t, kid)
      ensures x in Cl(t, n)
    {
      ReachSnoc(Feeds(t), x, kid, n);
    }
    ClSelf(t, kid);
  }

  lemma ClClosed(t: Shape, closed: set<Name>, n: Name)
    requires ClosedUnderKids(t, closed) && n in closed
    ensures Cl(t, n) <= closed
  {
    assert PredClosed(Feeds(t), closed);
    forall x | x in Cl(t, n)
      ensures x in closed
    {
      ReachComesFrom(Feeds(t), closed, x, n);
    }
  }

  lemma {:induction false} InClosures(t: Shape, names: seq<Name>, x: Name)
    ensures x in Closures(t, names) <==> exists n :: n in names && x in Cl(t, n)
  {
    if names != [] {
      InClosures(t, names[..|names| - 1], x);
      InitLast(names);
    }
  }
}
