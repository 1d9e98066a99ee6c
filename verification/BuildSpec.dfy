/** What buildExecutionGraph (internal/runner/execution_graph.go) builds, as a pure function: the
    same recursion over targets, dependencies, steps and members, with each loop over a closure
    replaced by one bulk insertion. */
module BuildSpec {
  import opened Nodes
  import opened Digraph
  import opened Wrappers
  import opened Insertion

  /** One planned target: its dependencies, pipeline steps and group members. */
  datatype Item = Item(deps: seq<Name>, steps: seq<Name>, members: seq<Name>)

  type Shape = map<Name, Item>

  /** hasCompositeScope. */
  predicate HasScope(item: Item) {
    item.steps != [] || item.members != []
  }

  function Kids(item: Item): seq<Name> {
    item.deps + item.steps + item.members
  }

  /** vertices and edges are the graph, members holds (v, p) when vertex v belongs to the scope of
      p, and closed holds the targets whose closure is finished. */
  datatype B = B(
    vertices: set<Node>, edges: set<(Node, Node)>, members: set<(Node, Name)>, closed: set<Name>)

  // ---- Closures -----------------------------------------------------------------------

  ghost predicate AreFeeds(t: Shape, r: set<(Name, Name)>) {
    forall k, n {:trigger (k, n) in r} :: (k, n) in r <==> n in t && k in Kids(t[n])
  }

  /** (k, n) when n names k. */
  ghost function Feeds(t: Shape): (r: set<(Name, Name)>)
    ensures AreFeeds(t, r)
  {
    assert AreFeeds(t, set n, k | n in t && k in Kids(t[n]) :: (k, n));
    var r :| AreFeeds(t, r);
    r
  }

  ghost predicate IsCl(t: Shape, n: Name, r: set<Name>) {
    forall x :: x in r <==> Reach(Feeds(t), x, n)
  }

  lemma ClExists(t: Shape, n: Name) returns (r: set<Name>)
    ensures IsCl(t, n, r)
  {
    var feeds := Feeds(t);
    r := set x | x in (set e | e in feeds :: e.0) + {n} && Reach(feeds, x, n);
    forall x | Reach(feeds, x, n)
      ensures x in r
    {
      if x != n {
        var b := ReachFirst(feeds, x, n);
        assert (x, b) in feeds && (x, b).0 == x;
      }
    }
  }

  /** The closure of a target: everything it needs, itself included. */
  ghost function Cl(t: Shape, n: Name): (r: set<Name>)
    ensures IsCl(t, n, r)
  {
    assert exists r :: IsCl(t, n, r) by { var r := ClExists(t, n); }
    var r :| IsCl(t, n, r);
    r
  }

  ghost function Closures(t: Shape, names: seq<Name>): set<Name> {
    if names == [] then {} else Closures(t, names[..|names| - 1]) + Cl(t, names[|names| - 1])
  }

  /** What is complete before step i of p starts: the dependencies and the earlier steps. */
  ghost function Prev(t: Shape, p: Name, i: nat): set<Name>
    requires p in t && i <= |t[p].steps|
  {
    Closures(t, t[p].deps) + Closures(t, t[p].steps[..i])
  }

  ghost function Targets(names: set<Name>): (r: set<Node>)
    ensures forall v {:trigger v in r} :: v in r <==> v.Target? && v.name in names
    ensures forall x {:trigger Target(x) in r} {:trigger x in names} :: Target(x) in r <==> x in names
  {
    set x | x in names :: Target(x)
  }

  /** startOrTarget for a finished target. */
  function Root(t: Shape, n: Name): Node {
    if n in t && HasScope(t[n]) then ScopeStart(n) else Target(n)
  }

  function Start(t: Shape, n: Name): set<Node> {
    if n in t && HasScope(t[n]) then {ScopeStart(n)} else {}
  }

  /** The vertices a child brings into a scope: those of its closure not complete before, and its
      own scope start. */
  ghost function Fresh(t: Shape, kid: Name, done: set<Name>): set<Node> {
    Targets(Cl(t, kid) - done) + Start(t, kid)
  }

  // ---- The build ------------------------------------------------------------------------

  function AddTarget(b: B, n: Name): B {
    b.(vertices := b.vertices + {Target(n)})
  }

  ghost function AddDep(b: B, n: Name, d: Name): B {
    b.(edges := Into(b.edges, {Target(d)}, Target(n)))
  }

  ghost function OpenScope(t: Shape, b: B, p: Name): B
    requires p in t
  {
    b.(vertices := b.vertices + {ScopeStart(p)},
       edges := Into(b.edges, Targets(Elems(t[p].deps)), ScopeStart(p)))
  }

  ghost function Joined(b: B, vs: set<Node>, p: Name): (r: set<(Node, Name)>)
    ensures forall v, q {:trigger (v, q) in r} {:trigger (v, q) in b.members} ::
      (v, q) in r <==> (v, q) in b.members || (v in vs && q == p)
  {
    b.members + set v | v in vs :: (v, p)
  }

  /** The edges out of the scope start and out of the barrier before step i. */
  ghost function StepEdges(t: Shape, edges: set<(Node, Node)>, p: Name, i: nat): set<(Node, Node)>
    requires p in t && i < |t[p].steps|
  {
    var step := t[p].steps[i];
    var scoped := Star(edges, ScopeStart(p), Fresh(t, step, Prev(t, p, i)));
    if i == 0 then scoped
    else Star(scoped, Barrier(p, i - 1), Fresh(t, step, Prev(t, p, i)) + {Root(t, step)})
  }

  ghost function AddStep(t: Shape, b: B, p: Name, i: nat): B
    requires p in t && i < |t[p].steps|
  {
    var step := t[p].steps[i];
    b.(vertices := b.vertices + {Barrier(p, i)},
       edges := Into(StepEdges(t, b.edges, p, i), Targets(Cl(t, step)), Barrier(p, i)),
       members := Joined(b, Fresh(t, step, Prev(t, p, i)), p))
  }

  ghost function AddMember(t: Shape, b: B, g: Name, i: nat): B
    requires g in t && i < |t[g].members|
  {
    var member := t[g].members[i];
    var newcomers := Fresh(t, member, Closures(t, t[g].deps));
    b.(edges := Into(Star(b.edges, ScopeStart(g), newcomers), Targets(Cl(t, member)), Target(g)),
       members := Joined(b, newcomers, g))
  }

  /** The edges that end a scope: from its last barrier, if any, and from its start. */
  ghost function EndScope(b: B, p: Name, steps: nat): B {
    b.(edges := Into(b.edges, {ScopeStart(p)} + if steps == 0 then {} else {Barrier(p, steps - 1)}, Target(p)))
  }

  /** addClosure. visiting holds the targets whose closures are in progress. */
  ghost function Visit(t: Shape, b: B, visiting: set<Name>, n: Name): Option<B>
    decreases t.Keys - visiting, 0, 0
  {
    if n in b.closed then Some(b)
    else if n in visiting || n !in t then None
    else
      var inside := visiting + {n};
      match Deps(t, AddTarget(b, n), inside, n, |t[n].deps|)
      case None => None
      case Some(b1) =>
        match AddPipeline(t, b1, inside, n)
        case None => None
        case Some(b2) =>
          match AddGroup(t, b2, inside, n)
          case None => None
          case Some(b3) => Some(b3.(closed := b3.closed + {n}))
  }

  /** The first i dependencies of n. */
  ghost function Deps(t: Shape, b: B, visiting: set<Name>, n: Name, i: nat): Option<B>
    requires n in t && i <= |t[n].deps|
    decreases t.Keys - visiting, 1, i
  {
    if i == 0 then Some(b)
    else
      match Deps(t, b, visiting, n, i - 1)
      case None => None
      case Some(b1) =>
        match Visit(t, b1, visiting, t[n].deps[i - 1])
        case None => None
        case Some(b2) => Some(AddDep(b2, n, t[n].deps[i - 1]))
  }

  ghost function AddPipeline(t: Shape, b: B, visiting: set<Name>, n: Name): Option<B>
    requires n in t
    decreases t.Keys - visiting, 2, 0
  {
    if t[n].steps == [] then Some(b)
    else
      match Steps(t, OpenScope(t, b, n), visiting, n, |t[n].steps|)
      case None => None
      case Some(b1) => Some(EndScope(b1, n, |t[n].steps|))
  }

  ghost function Steps(t: Shape, b: B, visiting: set<Name>, p: Name, i: nat): Option<B>
    requires p in t && i <= |t[p].steps|
    decreases t.Keys - visiting, 1, i
  {
    if i == 0 then Some(b)
    else
      match Steps(t, b, visiting, p, i - 1)
      case None => None
      case Some(b1) =>
        match Visit(t, b1, visiting, t[p].steps[i - 1])
        case None => None
        case Some(b2) => Some(AddStep(t, b2, p, i - 1))
  }

  ghost function AddGroup(t: Shape, b: B, visiting: set<Name>, n: Name): Option<B>
    requires n in t
    decreases t.Keys - visiting, 2, 0
  {
    if t[n].members == [] then Some(b)
    else
      match Members(t, OpenScope(t, b, n), visiting, n, |t[n].members|)
      case None => None
      case Some(b1) => Some(EndScope(b1, n, 0))
  }

  ghost function Members(t: Shape, b: B, visiting: set<Name>, g: Name, i: nat): Option<B>
    requires g in t && i <= |t[g].members|
    decreases t.Keys - visiting, 1, i
  {
    if i == 0 then Some(b)
    else
      match Members(t, b, visiting, g, i - 1)
      case None => None
      case Some(b1) =>
        match Visit(t, b1, visiting, t[g].members[i - 1])
        case None => None
        case Some(b2) => Some(AddMember(t, b2, g, i - 1))
  }

  /** buildExecutionGraph for the first i requested targets. */
  ghost function Build(t: Shape, requested: seq<Name>): Option<B> {
    if requested == [] then Some(B({}, {}, {}, {}))
    else
      match Build(t, requested[..|requested| - 1])
      case None => None
      case Some(b) => Visit(t, b, {}, requested[|requested| - 1])
  }
}
