/** internal/runner/plan.go: the planner walks what the requested targets need and orders it, then
    lists the children of composites in that order. */
module Planner {
  import opened Nodes
  import opened Digraph
  import opened Wrappers

  datatype Kind = PipelineStep | GroupMember | OtherKind

  datatype Child = Child(target: Name, kind: Kind)

  /** A target whose type has no handler has unreadable children. */
  datatype Children = Listed(list: seq<Child>) | Unreadable

  datatype Risk = Risk(remote: bool, destructive: bool, confirm: bool)

  datatype Spec = Spec(dependsOn: seq<Name>, children: Children, lock: Lock, risk: Risk)

  type Project = map<Name, Spec>

  datatype Edge = Edge(from: Name, to: Name, kind: Kind)

  datatype Plan = Plan(
    requested: seq<Name>, targets: Project, order: seq<Name>, compositeEdges: seq<Edge>, risk: Risk)

  // ---- What a target needs ---------------------------------------------------------

  function ChildList(spec: Spec): seq<Child> {
    if spec.children.Listed? then spec.children.list else []
  }

  function ChildNames(list: seq<Child>): (names: seq<Name>)
    ensures |names| == |list| && forall i :: 0 <= i < |list| ==> names[i] == list[i].target
  {
    if list == [] then [] else ChildNames(list[..|list| - 1]) + [list[|list| - 1].target]
  }

  /** Everything a target names: what it depends on, then its children. */
  function Kids(spec: Spec): seq<Name> {
    spec.dependsOn + ChildNames(ChildList(spec))
  }

  ghost predicate AreFeeds(project: Project, r: set<(Name, Name)>) {
    forall k, n {:trigger (k, n) in r} :: (k, n) in r <==> n in project && k in Kids(project[n])
  }

  /** (k, n) when n names k as a dependency or a child. */
  ghost function Feeds(project: Project): (r: set<(Name, Name)>)
    ensures AreFeeds(project, r)
  {
    assert AreFeeds(project, set n, k | n in project && k in Kids(project[n]) :: (k, n));
    var r :| AreFeeds(project, r);
    r
  }

  /** Something the target needs, itself included, is unknown, unreadable or on a cycle. */
  ghost predicate Broken(project: Project, name: Name) {
    exists x :: Reach(Feeds(project), x, name) && Faulty(project, x)
  }

  ghost predicate Faulty(project: Project, x: Name) {
    x !in project || project[x].children.Unreadable? || OnCycle(Feeds(project), x)
  }

  /** A chain of at least one edge. */
  ghost predicate ProperReach(edges: set<(Name, Name)>, a: Name, c: Name) {
    exists b :: Reach(edges, a, b) && (b, c) in edges
  }

  lemma ProperCycle(edges: set<(Name, Name)>, a: Name)
    requires ProperReach(edges, a, a)
    ensures OnCycle(edges, a)
  {
    var b :| Reach(edges, a, b) && (b, a) in edges;
    if a == b {
      ReachRefl(edges, a);
    } else {
      var next := ReachFirst(edges, a, b);
      ReachSnoc(edges, next, b, a);
    }
  }

  lemma BrokenUp(project: Project, kid: Name, name: Name)
    requires Broken(project, kid) && (kid, name) in Feeds(project)
    ensures Broken(project, name)
  {
    var x :| Reach(Feeds(project), x, kid) && Faulty(project, x);
    ReachSnoc(Feeds(project), x, kid, name);
  }

  lemma FaultyBroken(project: Project, name: Name)
    requires Faulty(project, name)
    ensures Broken(project, name)
  {
    ReachRefl(Feeds(project), name);
  }

  /** What has been ordered is sound: nothing it needs is faulty. */
  lemma {:induction false} OrderedIsSound(project: Project, order: seq<Name>, name: Name)
    requires Topological(Feeds(project), order) && name in order
    requires forall n :: n in order ==> n in project && project[n].children.Listed?
    ensures !Broken(project, name)
  {
    var feeds := Feeds(project);
    TopologicalClosed(feeds, order);
    forall x | Reach(feeds, x, name)
      ensures !Faulty(project, x)
    {
      ReachComesFrom(feeds, Elems(order), x, name);
      if OnCycle(feeds, x) {
        var b :| (x, b) in feeds && Reach(feeds, b, x);
        ReachComesFrom(feeds, Elems(order), b, x);
        TopologicalOneWay(feeds, order, x, b);
      }
    }
  }

  /** The order has grown, by things that some name needs. */
  ghost predicate Extends(edges: set<(Name, Name)>, was: seq<Name>, order: seq<Name>, name: Name) {
    was <= order && forall x :: x in order && x !in was ==> Reach(edges, x, name)
  }

  lemma ExtendsUp(
    edges: set<(Name, Name)>, was: seq<Name>, before: seq<Name>, order: seq<Name>, kid: Name, name: Name)
    requires Extends(edges, was, before, name)
    requires Extends(edges, before, order, kid) && (kid, name) in edges
    ensures Extends(edges, was, order, name)
    ensures Elems(before) <= Elems(order)
  {
    forall x | x in order && x !in was
      ensures Reach(edges, x, name)
    {
      if x !in before {
        ReachSnoc(edges, x, kid, name);
      }
    }
  }

  /** With everything it names in the order, a target can be appended. */
  lemma AppendVisited(project: Project, was: seq<Name>, before: seq<Name>, order: seq<Name>, name: Name)
    requires var feeds := Feeds(project);
      Topological(feeds, order) && Extends(feeds, was, before, name) && Extends(feeds, before, order, name)
    requires name in project && project[name].children.Listed? && name !in Elems(order)
    requires Elems(project[name].dependsOn) <= Elems(before)
    requires Elems(ChildNames(project[name].children.list)) <= Elems(order)
    ensures Topological(Feeds(project), order + [name]) && name in order + [name]
    ensures Extends(Feeds(project), was, order + [name], name)
    ensures Elems(order + [name]) == Elems(order) + {name}
  {
    var feeds := Feeds(project);
    assert Elems(before) <= Elems(order);
    assert PredsIn(feeds, name, Elems(order));
    ElemsSnoc(order, name);
    ReachRefl(feeds, name);
    assert (order + [name])[..|order|] == order;
  }

  // ---- The order of visits --------------------------------------------------------

  /** The order once the first i of the given names have been visited, one after another. */
  function OrderAll(project: Project, order: seq<Name>, visiting: set<Name>, names: seq<Name>, i: nat): Option<seq<Name>>
    requires i <= |names|
    decreases project.Keys - visiting, 1, i
  {
    if i == 0 then Some(order)
    else
      match OrderAll(project, order, visiting, names, i - 1)
      case None => None
      case Some(o) => OrderOne(project, o, visiting, names[i - 1])
  }

  /** visit as a function: a target comes right after what its dependencies, then its children, add. */
  function OrderOne(project: Project, order: seq<Name>, visiting: set<Name>, name: Name): Option<seq<Name>>
    decreases project.Keys - visiting, 0, 0
  {
    if name in order then Some(order)
    else if name in visiting || name !in project then None
    else
      var inside, target := visiting + {name}, project[name];
      match OrderAll(project, order, inside, target.dependsOn, |target.dependsOn|)
      case None => None
      case Some(o1) =>
        if target.children.Unreadable? then None
        else
          var names := ChildNames(target.children.list);
          match OrderAll(project, o1, inside, names, |names|)
          case None => None
          case Some(o2) => Some(o2 + [name])
  }

  lemma {:induction false} OrderAllNone(
    project: Project, order: seq<Name>, visiting: set<Name>, names: seq<Name>, i: nat, j: nat)
    requires i <= j <= |names| && OrderAll(project, order, visiting, names, i).None?
    ensures OrderAll(project, order, visiting, names, j).None?
    decreases j
  {
    if i < j {
      OrderAllNone(project, order, visiting, names, i, j - 1);
    }
  }

  /** The first i names have been visited: where that has left the order. */
  ghost predicate Visited(
    project: Project, was: seq<Name>, visiting: set<Name>, names: seq<Name>, i: nat, order: seq<Name>)
  {
    && i <= |names| && OrderAll(project, was, visiting, names, i) == Some(order)
    && forall k :: 0 <= k < i ==> names[k] in Elems(order)
  }

  lemma VisitedNext(
    project: Project, was: seq<Name>, visiting: set<Name>, names: seq<Name>, i: nat, next: nat, before: seq<Name>,
    order: seq<Name>)
    requires next == i + 1 && i < |names| && Visited(project, was, visiting, names, i, before)
    requires OrderOne(project, before, visiting, names[i]) == Some(order)
    requires names[i] in order && Elems(before) <= Elems(order)
    ensures Visited(project, was, visiting, names, next, order)
  {
  }

  lemma KidFeeds(project: Project, name: Name, kids: seq<Name>, i: nat)
    requires name in project && i < |kids| && forall k :: k in kids ==> k in Kids(project[name])
    ensures (kids[i], name) in Feeds(project)
  {
    assert kids[i] in kids;
  }

  lemma AllVisited(project: Project, was: seq<Name>, visiting: set<Name>, names: seq<Name>, order: seq<Name>)
    requires Visited(project, was, visiting, names, |names|, order)
    ensures Elems(names) <= Elems(order)
  {
  }

  class RunPlanner {
    const project: Project
    var targets: Project
    var order: seq<Name>
    var visiting: set<Name>

    constructor (project: Project)
      ensures Valid() && this.project == project && order == [] && visiting == {}
    {
      this.project := project;
      targets, order, visiting := map[], [], {};
    }

    ghost predicate Valid()
      reads this
    {
      && Topological(Feeds(project), order)
      && targets.Keys == Elems(order) && visiting !! targets.Keys
      && forall n :: n in targets ==> n in project && targets[n] == project[n] && project[n].children.Listed?
    }

    /** Every name being visited needs the given name. */
    ghost predicate Under(name: Name)
      reads this
    {
      forall v :: v in visiting ==> ProperReach(Feeds(project), name, v)
    }

    /** name is being visited, on behalf of all the others. */
    ghost predicate Inside(name: Name)
      reads this
    {
      name in visiting && forall v :: v in visiting && v != name ==> ProperReach(Feeds(project), name, v)
    }

    lemma UnderKid(kid: Name, name: Name)
      requires (kid, name) in Feeds(project)
      requires Inside(name)
      ensures Under(kid)
    {
      var feeds := Feeds(project);
      ReachRefl(feeds, kid);
      forall v | v in visiting && v != name
        ensures ProperReach(feeds, kid, v)
      {
        var b :| Reach(feeds, name, b) && (b, v) in feeds;
        ReachCons(feeds, kid, name, b);
      }
    }

    /** One of the names that a target being visited lists. */
    method VisitKid(name: Name, kid: Name, ghost was: seq<Name>) returns (ok: bool)
      requires Valid() && Inside(name) && (kid, name) in Feeds(project)
      requires Extends(Feeds(project), was, order, name)
      modifies this`targets, this`order, this`visiting
      ensures ok <==> OrderOne(project, old(order), old(visiting), kid).Some?
      ensures !ok ==> Broken(project, name)
      ensures ok ==> Some(order) == OrderOne(project, old(order), old(visiting), kid)
      ensures ok ==> Valid() && visiting == old(visiting) && Extends(Feeds(project), was, order, name)
      ensures ok ==> kid in order && Elems(old(order)) <= Elems(order)
      decreases project.Keys - visiting, 1
    {
      UnderKid(kid, name);
      ghost var before := order;
      ok := Visit(kid);
      if ok {
        ExtendsUp(Feeds(project), was, before, order, kid, name);
      } else {
        BrokenUp(project, kid, name);
      }
    }

    /** The next of those names. */
    method VisitNext(name: Name, kids: seq<Name>, i: nat, ghost was: seq<Name>) returns (ok: bool)
      requires Valid() && Inside(name) && i < |kids| && (kids[i], name) in Feeds(project)
      requires Extends(Feeds(project), was, order, name) && Visited(project, was, visiting, kids, i, order)
      modifies this`targets, this`order, this`visiting
      ensures !ok ==> Broken(project, name) && OrderAll(project, was, old(visiting), kids, |kids|).None?
      ensures ok ==> Valid() && visiting == old(visiting) && Extends(Feeds(project), was, order, name)
      ensures ok ==> Visited(project, was, visiting, kids, i + 1, order)
      decreases project.Keys - visiting, 2
    {
      ghost var before, inside := order, visiting;
      ok := VisitKid(name, kids[i], was);
      if ok {
        VisitedNext(project, was, inside, kids, i, i + 1, before, order);
      } else {
        OrderAllNone(project, was, inside, kids, i + 1, |kids|);
      }
    }

    /** Visits each of the names that a target being visited lists. */
    method VisitAll(name: Name, kids: seq<Name>) returns (ok: bool)
      requires Valid() && name in project
      requires forall k :: k in kids ==> k in Kids(project[name])
      requires Inside(name)
      modifies this`targets, this`order, this`visiting
      ensures ok <==> OrderAll(project, old(order), old(visiting), kids, |kids|).Some?
      ensures !ok ==> Broken(project, name)
      ensures ok ==> Some(order) == OrderAll(project, old(order), old(visiting), kids, |kids|)
      ensures ok ==> Valid() && visiting == old(visiting) && Extends(Feeds(project), old(order), order, name)
      ensures ok ==> Elems(kids) <= Elems(order)
      decreases project.Keys - visiting, 3
    {
      ghost var was, inside := order, visiting;
      var i := 0;
      while i < |kids|
        invariant 0 <= i <= |kids| && Valid() && visiting == inside
        invariant Extends(Feeds(project), was, order, name) && Visited(project, was, inside, kids, i, order)
      {
        KidFeeds(project, name, kids, i);
        ok := VisitNext(name, kids, i, was);
        if !ok {
          return;
        }
        i := i + 1;
      }
      AllVisited(project, was, inside, kids, order);
      return true;
    }

    /** Fails only below something unknown, unreadable or on a cycle; otherwise the order grows exactly as
        OrderOne says. */
    method Visit(name: Name) returns (ok: bool)
      requires Valid() && Under(name)
      modifies this`targets, this`order, this`visiting
      ensures ok <==> OrderOne(project, old(order), old(visiting), name).Some?
      ensures !ok ==> Broken(project, name)
      ensures ok ==> Some(order) == OrderOne(project, old(order), old(visiting), name)
      ensures ok ==> Valid() && visiting == old(visiting) && Extends(Feeds(project), old(order), order, name) && name in order
      decreases project.Keys - visiting, 0
    {
      assert name in targets <==> name in order;
      if name in targets {
        return true;
      }
      if name in visiting {
        ProperCycle(Feeds(project), name);
        FaultyBroken(project, name);
        return false;
      }
      if name !in project {
        FaultyBroken(project, name);
        return false;
      }
      var target := project[name];
      visiting := visiting + {name};
      ok := VisitAll(name, target.dependsOn);
      if !ok {
        return;
      }
      if target.children.Unreadable? {
        FaultyBroken(project, name);
        return false;
      }
      ghost var before := order;
      ok := VisitAll(name, ChildNames(target.children.list));
      if !ok {
        return;
      }
      Record(name, target, old(order), before);
    }

    /** Everything the target names is in the order; now the target is. */
    method Record(name: Name, target: Spec, ghost was: seq<Name>, ghost before: seq<Name>)
      requires Valid() && name in visiting && name in project && target == project[name]
      requires target.children.Listed?
      requires Extends(Feeds(project), was, before, name) && Extends(Feeds(project), before, order, name)
      requires Elems(target.dependsOn) <= Elems(before) && Elems(ChildNames(target.children.list)) <= Elems(order)
      modifies this`targets, this`order, this`visiting
      ensures Valid() && visiting == old(visiting) - {name}
      ensures Extends(Feeds(project), was, order, name) && order == old(order) + [name]
    {
      AppendVisited(project, was, before, order, name);
      visiting := visiting - {name};
      targets := targets[name := target];
      order := order + [name];
    }
  }

  // ---- Composite edges -------------------------------------------------------------

  /** Plan.orderIndex; a name that is not planned reads as zero, as in a Go map. */
  function Position(order: seq<Name>, name: Name): (i: nat)
    ensures name in order ==> i < |order| && order[i] == name
  {
    if order == [] then 0
    else if order[|order| - 1] == name then |order| - 1
    else if name in order[..|order| - 1] then Position(order[..|order| - 1], name)
    else 0
  }

  /** The comparison of the stable sort: by target, then by child. */
  predicate NotAfter(order: seq<Name>, a: Edge, b: Edge) {
    || Position(order, a.to) < Position(order, b.to)
    || (Position(order, a.to) == Position(order, b.to) && Position(order, a.from) <= Position(order, b.from))
  }

  function Insert(order: seq<Name>, s: seq<Edge>, e: Edge): seq<Edge> {
    if s == [] || NotAfter(order, s[|s| - 1], e) then s + [e]
    else Insert(order, s[..|s| - 1], e) + [s[|s| - 1]]
  }

  /** sort.SliceStable by plan order. */
  function StableSort(order: seq<Name>, s: seq<Edge>): seq<Edge> {
    if s == [] then [] else Insert(order, StableSort(order, s[..|s| - 1]), s[|s| - 1])
  }

  /** The edges of one target's children, in declared order; unplanned children are skipped. */
  function EdgesInto(targets: Project, name: Name, list: seq<Child>): seq<Edge> {
    if list == [] then []
    else
      var last := list[|list| - 1];
      EdgesInto(targets, name, list[..|list| - 1])
      + if last.target in targets then [Edge(last.target, name, last.kind)] else []
  }

  function Collected(targets: Project, order: seq<Name>): seq<Edge>
    requires forall n :: n in order ==> n in targets
  {
    if order == [] then []
    else
      var last := order[|order| - 1];
      Collected(targets, order[..|order| - 1]) + EdgesInto(targets, last, ChildList(targets[last]))
  }

  /** compositeChildrenOfKind. */
  function Select(edges: seq<Edge>, name: Name, kind: Kind): seq<Name> {
    if edges == [] then []
    else
      var last := edges[|edges| - 1];
      Select(edges[..|edges| - 1], name, kind) + if last.to == name && last.kind == kind then [last.from] else []
  }

  /** Plan.compositeChildrenOfKind. */
  method ChildrenOfKind(edges: seq<Edge>, name: Name, kind: Kind) returns (children: seq<Name>)
    ensures children == Select(edges, name, kind)
  {
    children := [];
    var i := 0;
    while i < |edges|
      invariant 0 <= i <= |edges|
      invariant children == Select(edges[..i], name, kind)
    {
      assert edges[..i + 1][..i] == edges[..i];
      if edges[i].to == name && edges[i].kind == kind {
        children := children + [edges[i].from];
      }
      i := i + 1;
    }
    assert edges[..i] == edges;
  }

  /** Plan.hasCompositeScope. */
  method HasCompositeScope(edges: seq<Edge>, name: Name) returns (found: bool)
    ensures found <==> Select(edges, name, PipelineStep) != [] || Select(edges, name, GroupMember) != []
  {
    var i := 0;
    while i < |edges|
      invariant 0 <= i <= |edges|
      invariant Select(edges[..i], name, PipelineStep) == [] && Select(edges[..i], name, GroupMember) == []
    {
      assert edges[..i + 1][..i] == edges[..i];
      if edges[i].to == name && (edges[i].kind == PipelineStep || edges[i].kind == GroupMember) {
        SelectPrefix(edges, i + 1, name, edges[i].kind);
        return true;
      }
      i := i + 1;
    }
    assert edges[..i] == edges;
    return false;
  }

  lemma {:induction false} SelectPrefix(edges: seq<Edge>, i: nat, name: Name, kind: Kind)
    requires i <= |edges| && Select(edges[..i], name, kind) != []
    ensures Select(edges, name, kind) != []
  {
    assert edges == edges[..i] + edges[i..];
    SelectConcat(edges[..i], edges[i..], name, kind);
  }

  /** The children of one kind in the order the target declares them. */
  function Declared(list: seq<Child>, kind: Kind): seq<Name> {
    if list == [] then []
    else
      var last := list[|list| - 1];
      Declared(list[..|list| - 1], kind) + if last.kind == kind then [last.target] else []
  }

  lemma {:induction false} SelectConcat(a: seq<Edge>, b: seq<Edge>, name: Name, kind: Kind)
    ensures Select(a + b, name, kind) == Select(a, name, kind) + Select(b, name, kind)
  {
    if b == [] {
      assert a + b == a;
    } else {
      SelectConcat(a, b[..|b| - 1], name, kind);
      assert (a + b)[..|a + b| - 1] == a + b[..|b| - 1];
    }
  }

  lemma {:induction false} SelectEdgesInto(targets: Project, to: Name, list: seq<Child>, name: Name, kind: Kind)
    requires forall c :: c in list ==> c.target in targets
    ensures Select(EdgesInto(targets, to, list), name, kind) == if to == name then Declared(list, kind) else []
  {
    if list != [] {
      var init, last := list[..|list| - 1], list[|list| - 1];
      assert last in list && forall c :: c in init ==> c in list;
      SelectEdgesInto(targets, to, init, name, kind);
      SelectConcat(EdgesInto(targets, to, init), [Edge(last.target, to, last.kind)], name, kind);
      SelectOne(Edge(last.target, to, last.kind), name, kind);
    }
  }

  lemma SelectOne(e: Edge, name: Name, kind: Kind)
    ensures Select([e], name, kind) == if e.to == name && e.kind == kind then [e.from] else []
  {
    assert [e][..0] == [];
  }

  /** Every child of a planned target is planned. */
  ghost predicate ChildrenPlanned(targets: Project) {
    forall n, c :: n in targets && c in ChildList(targets[n]) ==> c.target in targets
  }

  lemma {:induction false} SelectCollected(targets: Project, order: seq<Name>, name: Name, kind: Kind)
    requires (forall n :: n in order ==> n in targets) && Distinct(order) && ChildrenPlanned(targets)
    ensures Select(Collected(targets, order), name, kind)
      == if name in order then Declared(ChildList(targets[name]), kind) else []
  {
    if order != [] {
      var init, last := order[..|order| - 1], order[|order| - 1];
      assert order == init + [last];
      ElemsSnoc(init, last);
      SelectCollected(targets, init, name, kind);
      assert last in order;
      SelectConcat(Collected(targets, init), EdgesInto(targets, last, ChildList(targets[last])), name, kind);
      SelectEdgesInto(targets, last, ChildList(targets[last]), name, kind);
    }
  }

  /** compositeChildrenOfKind up to order. */
  ghost function Bag(s: seq<Edge>, name: Name, kind: Kind): multiset<Name> {
    multiset(Select(s, name, kind))
  }

  lemma BagSnoc(s: seq<Edge>, e: Edge, name: Name, kind: Kind)
    ensures Bag(s + [e], name, kind) == Bag(s, name, kind) + Bag([e], name, kind)
  {
    SelectConcat(s, [e], name, kind);
  }

  lemma {:induction false} BagInsert(order: seq<Name>, s: seq<Edge>, e: Edge, name: Name, kind: Kind)
    ensures Bag(Insert(order, s, e), name, kind) == Bag(s, name, kind) + Bag([e], name, kind)
  {
    if s == [] || NotAfter(order, s[|s| - 1], e) {
      BagSnoc(s, e, name, kind);
    } else {
      var init, last := s[..|s| - 1], s[|s| - 1];
      BagInsert(order, init, e, name, kind);
      BagSnoc(Insert(order, init, e), last, name, kind);
      BagSnoc(init, last, name, kind);
      InitLast(s);
    }
  }

  lemma BagInsertSame(order: seq<Name>, t: seq<Edge>, s: seq<Edge>, e: Edge, name: Name, kind: Kind)
    requires Bag(t, name, kind) == Bag(s, name, kind)
    ensures Bag(Insert(order, t, e), name, kind) == Bag(s + [e], name, kind)
  {
    BagInsert(order, t, e, name, kind);
    BagSnoc(s, e, name, kind);
  }

  lemma {:induction false} BagSort(order: seq<Name>, s: seq<Edge>, name: Name, kind: Kind)
    ensures Bag(StableSort(order, s), name, kind) == Bag(s, name, kind)
  {
    if s == [] {
      assert StableSort(order, s) == s;
    } else {
      var init, last := s[..|s| - 1], s[|s| - 1];
      BagSort(order, init, name, kind);
      BagInsertSame(order, StableSort(order, init), init, last, name, kind);
      InitLast(s);
    }
  }

  ghost predicate Ordered(order: seq<Name>, s: seq<Edge>) {
    forall i, j :: 0 <= i < j < |s| ==> NotAfter(order, s[i], s[j])
  }

  lemma {:induction false} InsertOrdered(order: seq<Name>, s: seq<Edge>, e: Edge)
    requires Ordered(order, s)
    ensures Ordered(order, Insert(order, s, e))
    ensures forall x :: x in Insert(order, s, e) ==> x == e || x in s
  {
    if s != [] && !NotAfter(order, s[|s| - 1], e) {
      var init, last := s[..|s| - 1], s[|s| - 1];
      InsertOrdered(order, init, e);
      var r := Insert(order, init, e);
      forall i | 0 <= i < |r|
        ensures NotAfter(order, r[i], last)
      {
        assert r[i] in r;
      }
    }
  }

  lemma {:induction false} SortOrdered(order: seq<Name>, s: seq<Edge>)
    ensures Ordered(order, StableSort(order, s))
  {
    if s != [] {
      SortOrdered(order, s[..|s| - 1]);
      InsertOrdered(order, StableSort(order, s[..|s| - 1]), s[|s| - 1]);
    }
  }

  /** The edges at the given positions, as they are listed. */
  function Tied(order: seq<Name>, s: seq<Edge>, to: nat, from: nat): seq<Edge> {
    if s == [] then []
    else
      var last := s[|s| - 1];
      Tied(order, s[..|s| - 1], to, from)
      + if Position(order, last.to) == to && Position(order, last.from) == from then [last] else []
  }

  lemma TiedSnoc(order: seq<Name>, s: seq<Edge>, e: Edge, to: nat, from: nat)
    ensures Tied(order, s + [e], to, from) ==
      if Position(order, e.to) == to && Position(order, e.from) == from then Tied(order, s, to, from) + [e]
      else Tied(order, s, to, from)
  {
    assert (s + [e])[..|s|] == s;
  }

  lemma {:induction false} InsertKeepsTies(order: seq<Name>, s: seq<Edge>, e: Edge, to: nat, from: nat)
    requires Ordered(order, s)
    ensures Tied(order, Insert(order, s, e), to, from) == Tied(order, s + [e], to, from)
  {
    if s != [] && !NotAfter(order, s[|s| - 1], e) {
      var init, last := s[..|s| - 1], s[|s| - 1];
      InitLast(s);
      InsertKeepsTies(order, init, e, to, from);
      TiedSnoc(order, Insert(order, init, e), last, to, from);
      TiedSnoc(order, init, e, to, from);
      TiedSnoc(order, s, e, to, from);
    }
  }

  lemma {:induction false} SortKeepsTies(order: seq<Name>, s: seq<Edge>, to: nat, from: nat)
    ensures Tied(order, StableSort(order, s), to, from) == Tied(order, s, to, from)
  {
    if s != [] {
      var init, last := s[..|s| - 1], s[|s| - 1];
      InitLast(s);
      SortKeepsTies(order, init, to, from);
      SortOrdered(order, init);
      InsertKeepsTies(order, StableSort(order, init), last, to, from);
      TiedSnoc(order, StableSort(order, init), last, to, from);
    }
  }

  ghost predicate SameTies(order: seq<Name>, r: seq<Edge>, s: seq<Edge>) {
    forall to, from :: Tied(order, r, to, from) == Tied(order, s, to, from)
  }

  lemma {:induction false} TiedMember(order: seq<Name>, s: seq<Edge>, e: Edge)
    ensures e in s <==> e in Tied(order, s, Position(order, e.to), Position(order, e.from))
  {
    if s != [] {
      InitLast(s);
      TiedMember(order, s[..|s| - 1], e);
    }
  }

  /** What comes last in one of two ordered lists with the same ties comes after everything in the other. */
  lemma LastComesLast(order: seq<Name>, r: seq<Edge>, s: seq<Edge>)
    requires Ordered(order, s) && SameTies(order, r, s) && r != []
    ensures s != [] && NotAfter(order, r[|r| - 1], s[|s| - 1])
  {
    var e := r[|r| - 1];
    TiedMember(order, r, e);
    TiedMember(order, s, e);
    var i :| 0 <= i < |s| && s[i] == e;
  }

  /** A list ordered by plan positions, in which edges at the same positions keep their order, is determined. */
  lemma {:induction false} OrderedIsUnique(order: seq<Name>, r: seq<Edge>, s: seq<Edge>)
    requires Ordered(order, r) && Ordered(order, s) && SameTies(order, r, s)
    ensures r == s
    decreases |r|
  {
    if r == [] {
      if s != [] {
        LastComesLast(order, s, r);
      }
    } else {
      LastComesLast(order, r, s);
      LastComesLast(order, s, r);
      var init, init', e, f := r[..|r| - 1], s[..|s| - 1], r[|r| - 1], s[|s| - 1];
      InitLast(r);
      InitLast(s);
      LastIsSame(order, init, e, init', f);
      forall to, from
        ensures Tied(order, init, to, from) == Tied(order, init', to, from)
      {
        assert Tied(order, r, to, from) == Tied(order, s, to, from);
        TiedSnoc(order, init, e, to, from);
        TiedSnoc(order, init', f, to, from);
        SnocEqual(Tied(order, init, to, from), e, Tied(order, init', to, from), f);
      }
      OrderedIsUnique(order, init, init');
    }
  }

  lemma LastIsSame(order: seq<Name>, r: seq<Edge>, e: Edge, s: seq<Edge>, f: Edge)
    requires SameTies(order, r + [e], s + [f]) && NotAfter(order, e, f) && NotAfter(order, f, e)
    ensures e == f
  {
    var to, from := Position(order, e.to), Position(order, e.from);
    assert Tied(order, r + [e], to, from) == Tied(order, s + [f], to, from);
    TiedSnoc(order, r, e, to, from);
    TiedSnoc(order, s, f, to, from);
    SnocEqual(Tied(order, r, to, from), e, Tied(order, s, to, from), f);
  }

  lemma SnocEqual(a: seq<Edge>, e: Edge, b: seq<Edge>, f: Edge)
    ensures a + [e] == b + [f] ==> a == b && e == f
  {
    if a + [e] == b + [f] {
      assert (a + [e])[..|a|] == a && (b + [f])[..|b|] == b;
      assert (a + [e])[|a|] == e && (b + [f])[|b|] == f;
    }
  }

  /** The sort is stable, and no other list is what a stable sort may return. */
  lemma StableSortIff(order: seq<Name>, s: seq<Edge>, r: seq<Edge>)
    ensures r == StableSort(order, s) <==> Ordered(order, r) && SameTies(order, r, s)
  {
    SortOrdered(order, s);
    forall to, from
      ensures Tied(order, StableSort(order, s), to, from) == Tied(order, s, to, from)
    {
      SortKeepsTies(order, s, to, from);
    }
    if Ordered(order, r) && SameTies(order, r, s) {
      OrderedIsUnique(order, r, StableSort(order, s));
    }
  }

  /** Names listed by increasing position in the plan. */
  ghost predicate InPlanOrder(order: seq<Name>, names: seq<Name>) {
    forall i, j :: 0 <= i < j < |names| ==> Position(order, names[i]) <= Position(order, names[j])
  }

  lemma {:induction false} SelectMember(s: seq<Edge>, name: Name, kind: Kind, x: Name) returns (e: Edge)
    requires x in Select(s, name, kind)
    ensures e in s && e.to == name && e.from == x
  {
    var init, last := s[..|s| - 1], s[|s| - 1];
    if last.to == name && last.kind == kind && last.from == x {
      e := last;
    } else {
      e := SelectMember(init, name, kind, x);
    }
  }

  lemma {:induction false} SelectOrdered(order: seq<Name>, s: seq<Edge>, name: Name, kind: Kind)
    requires Ordered(order, s)
    ensures InPlanOrder(order, Select(s, name, kind))
  {
    if s != [] {
      var init, last := s[..|s| - 1], s[|s| - 1];
      SelectOrdered(order, init, name, kind);
      if last.to == name && last.kind == kind {
        forall i | 0 <= i < |Select(init, name, kind)|
          ensures Position(order, Select(init, name, kind)[i]) <= Position(order, last.from)
        {
          var e := SelectMember(init, name, kind, Select(init, name, kind)[i]);
          var j :| 0 <= j < |init| && init[j] == e;
          assert NotAfter(order, s[j], s[|s| - 1]);
        }
      }
    }
  }

  lemma SameInit<T>(a: seq<T>, b: seq<T>)
    requires a != [] && b != [] && multiset(a) == multiset(b) && a[|a| - 1] == b[|b| - 1]
    ensures multiset(a[..|a| - 1]) == multiset(b[..|b| - 1])
  {
    assert a == a[..|a| - 1] + [a[|a| - 1]] && b == b[..|b| - 1] + [b[|b| - 1]];
    assert multiset(a[..|a| - 1]) == multiset(a) - multiset{a[|a| - 1]};
    assert multiset(b[..|b| - 1]) == multiset(b) - multiset{b[|b| - 1]};
  }

  lemma SameLast(order: seq<Name>, a: seq<Name>, b: seq<Name>)
    requires a != [] && b != [] && (forall x :: x in a <==> x in b) && (forall x :: x in a ==> x in order)
    requires InPlanOrder(order, a) && InPlanOrder(order, b)
    ensures a[|a| - 1] == b[|b| - 1]
  {
    var al, bl := a[|a| - 1], b[|b| - 1];
    assert al in a && bl in b;
    var i :| 0 <= i < |b| && b[i] == al;
    var j :| 0 <= j < |a| && a[j] == bl;
    assert i < |b| - 1 ==> Position(order, b[i]) <= Position(order, bl);
    assert j < |a| - 1 ==> Position(order, a[j]) <= Position(order, al);
  }

  /** Two lists of planned names with the same entries, both in plan order, are the same list. */
  lemma {:induction false} SortedUnique(order: seq<Name>, a: seq<Name>, b: seq<Name>)
    requires multiset(a) == multiset(b) && (forall x :: x in a ==> x in order)
    requires InPlanOrder(order, a) && InPlanOrder(order, b)
    ensures a == b
  {
    assert |multiset(a)| == |a| && |multiset(b)| == |b|;
    if a != [] {
      SameMembers(a, b);
      SameLast(order, a, b);
      SameInit(a, b);
      SortedUnique(order, a[..|a| - 1], b[..|b| - 1]);
      InitLast(a);
      InitLast(b);
    }
  }

  lemma SameMembers<T>(a: seq<T>, b: seq<T>)
    requires multiset(a) == multiset(b)
    ensures forall x :: x in a <==> x in b
  {
    forall x
      ensures x in a <==> x in b
    {
      assert x in a <==> x in multiset(a);
      assert x in b <==> x in multiset(b);
    }
  }

  // ---- The whole plan ---------------------------------------------------------------

  /** The resolved names without blanks and repeats; None is a name that resolves to nothing. */
  function Canonical(names: seq<Option<Name>>): seq<Name> {
    if names == [] then []
    else
      var init, last := Canonical(names[..|names| - 1]), names[|names| - 1];
      if last.None? || last.value in init then init else init + [last.value]
  }

  /** names mentions x for the first time at p. */
  ghost predicate FirstAt(names: seq<Option<Name>>, x: Name, p: nat) {
    p < |names| && names[p] == Some(x) && forall q :: 0 <= q < p ==> names[q] != Some(x)
  }

  /** r has every name that names resolve to, once, in the order of first mention. */
  ghost predicate Mentions(names: seq<Option<Name>>, r: seq<Name>) {
    && (forall x :: x in r <==> Some(x) in names) && Distinct(r)
    && forall i, j, p, q :: 0 <= i < j < |r| && FirstAt(names, r[i], p) && FirstAt(names, r[j], q) ==> p < q
  }

  lemma FirstAtTake(names: seq<Option<Name>>, x: Name, p: nat)
    requires names != [] && FirstAt(names, x, p)
    ensures Some(x) in names[..|names| - 1] ==> FirstAt(names[..|names| - 1], x, p)
    ensures Some(x) !in names[..|names| - 1] ==> p == |names| - 1
  {
    var init := names[..|names| - 1];
    if p < |init| {
      assert init[p] == Some(x);
    }
    if Some(x) in init {
      var q :| 0 <= q < |init| && init[q] == Some(x);
      assert names[q] == Some(x);
    }
  }

  lemma MentionsNext(names: seq<Option<Name>>, init: seq<Name>, x: Name)
    requires names != [] && Mentions(names[..|names| - 1], init) && names[|names| - 1] == Some(x) && x !in init
    ensures Mentions(names, init + [x])
  {
    InitLast(names);
    ElemsSnoc(init, x);
    var r := init + [x];
    forall i, j, p, q | 0 <= i < j < |r| && FirstAt(names, r[i], p) && FirstAt(names, r[j], q)
      ensures p < q
    {
      FirstAtTake(names, r[i], p);
      FirstAtTake(names, r[j], q);
      assert r[i] in init && Some(r[i]) in names[..|names| - 1];
      if j < |init| {
        assert r[j] in init && Some(r[j]) in names[..|names| - 1];
      }
    }
  }

  lemma MentionsSame(names: seq<Option<Name>>, init: seq<Name>)
    requires names != [] && Mentions(names[..|names| - 1], init)
    requires names[|names| - 1].None? || names[|names| - 1].value in init
    ensures Mentions(names, init)
  {
    InitLast(names);
    forall i, j, p, q | 0 <= i < j < |init| && FirstAt(names, init[i], p) && FirstAt(names, init[j], q)
      ensures p < q
    {
      assert init[i] in init && init[j] in init;
      FirstAtTake(names, init[i], p);
      FirstAtTake(names, init[j], q);
    }
  }

  lemma {:induction false} CanonicalMentions(names: seq<Option<Name>>)
    ensures Mentions(names, Canonical(names))
  {
    if names != [] {
      var init, last := Canonical(names[..|names| - 1]), names[|names| - 1];
      CanonicalMentions(names[..|names| - 1]);
      if last.None? || last.value in init {
        MentionsSame(names, init);
      } else {
        MentionsNext(names, init, last.value);
      }
    }
  }

  ghost predicate NeededBy(edges: set<(Name, Name)>, x: Name, names: seq<Name>) {
    exists n :: n in names && Reach(edges, x, n)
  }

  ghost predicate IsRiskOf(project: Project, names: seq<Name>, risk: Risk)
    requires forall n :: n in names ==> n in project
  {
    && (risk.remote <==> exists n :: n in names && project[n].risk.remote)
    && (risk.destructive <==> exists n :: n in names && project[n].risk.destructive)
    && (risk.confirm <==> exists n :: n in names && project[n].risk.confirm)
  }

  ghost predicate Restricts(project: Project, order: seq<Name>, targets: Project) {
    && targets.Keys == Elems(order)
    && forall n :: n in targets ==> n in project && targets[n] == project[n] && project[n].children.Listed?
  }

  /** Order lists exactly what is needed, each target once and after everything it names, in the order of
      the visits. */
  ghost predicate IsPlanFor(project: Project, requested: seq<Name>, plan: Plan) {
    && plan.requested == requested
    && OrderAll(project, [], {}, requested, |requested|) == Some(plan.order)
    && Topological(Feeds(project), plan.order)
    && (forall x :: x in plan.order <==> NeededBy(Feeds(project), x, requested))
    && Restricts(project, plan.order, plan.targets)
    && plan.compositeEdges == StableSort(plan.order, Collected(plan.targets, plan.order))
    && IsRiskOf(plan.targets, plan.order, plan.risk)
  }

  method CanonicalNames(names: seq<Option<Name>>) returns (canonical: seq<Name>)
    ensures canonical == Canonical(names) && Mentions(names, canonical)
  {
    canonical := [];
    var seen := {};
    var i := 0;
    while i < |names|
      invariant 0 <= i <= |names|
      invariant canonical == Canonical(names[..i]) && seen == Elems(canonical)
    {
      TakeSnoc(names, i);
      assert names[..i + 1][..i] == names[..i];
      if names[i].Some? && names[i].value !in seen {
        seen := seen + {names[i].value};
        canonical := canonical + [names[i].value];
      }
      i := i + 1;
    }
    assert names[..i] == names;
    CanonicalMentions(names);
  }

  method EdgesOf(targets: Project, name: Name, children: seq<Child>) returns (edges: seq<Edge>)
    ensures edges == EdgesInto(targets, name, children)
  {
    edges := [];
    var j := 0;
    while j < |children|
      invariant 0 <= j <= |children|
      invariant edges == EdgesInto(targets, name, children[..j])
    {
      assert children[..j + 1][..j] == children[..j];
      if children[j].target in targets {
        edges := edges + [Edge(children[j].target, name, children[j].kind)];
      }
      j := j + 1;
    }
    assert children[..j] == children;
  }

  method CompositeEdges(targets: Project, order: seq<Name>) returns (edges: seq<Edge>)
    requires forall n :: n in order ==> n in targets
    ensures edges == StableSort(order, Collected(targets, order))
  {
    edges := [];
    var i := 0;
    while i < |order|
      invariant 0 <= i <= |order|
      invariant edges == Collected(targets, order[..i])
    {
      var found := EdgesOf(targets, order[i], ChildList(targets[order[i]]));
      edges := edges + found;
      assert order[..i + 1][..i] == order[..i];
      i := i + 1;
    }
    assert order[..i] == order;
    edges := StableSort(order, edges);
  }

  method EffectiveRisk(targets: Project, order: seq<Name>) returns (risk: Risk)
    requires forall n :: n in order ==> n in targets
    ensures IsRiskOf(targets, order, risk)
  {
    risk := Risk(false, false, false);
    var i := 0;
    while i < |order|
      invariant 0 <= i <= |order|
      invariant IsRiskOf(targets, order[..i], risk)
    {
      var r := targets[order[i]].risk;
      risk := Risk(risk.remote || r.remote, risk.destructive || r.destructive, risk.confirm || r.confirm);
      TakeSnoc(order, i);
      assert forall n :: n in order[..i + 1] <==> n in order[..i] || n == order[i];
      i := i + 1;
    }
    assert order[..i] == order;
  }

  /** The order holds the requested names and only what they need. */
  ghost predicate Serves(edges: set<(Name, Name)>, order: seq<Name>, names: seq<Name>) {
    && (forall n :: n in names ==> n in order)
    && (forall x :: x in order ==> NeededBy(edges, x, names))
  }

  lemma ServesNext(edges: set<(Name, Name)>, was: seq<Name>, order: seq<Name>, names: seq<Name>, name: Name)
    requires Serves(edges, was, names) && Extends(edges, was, order, name) && name in order
    ensures Serves(edges, order, names + [name])
  {
    forall x | x in order
      ensures NeededBy(edges, x, names + [name])
    {
      if x in was {
        var n :| n in names && Reach(edges, x, n);
        assert n in names + [name];
      } else {
        assert name in names + [name];
      }
    }
  }

  /** Visits every requested target. */
  method VisitRequested(planner: RunPlanner, names: seq<Name>) returns (ok: bool)
    requires planner.Valid() && planner.order == [] && planner.visiting == {}
    modifies planner
    ensures ok ==> planner.Valid() && Serves(Feeds(planner.project), planner.order, names)
    ensures ok ==> OrderAll(planner.project, [], {}, names, |names|) == Some(planner.order)
    ensures !ok ==> exists n :: n in names && Broken(planner.project, n)
  {
    var i := 0;
    while i < |names|
      invariant 0 <= i <= |names|
      invariant planner.Valid() && planner.visiting == {}
      invariant OrderAll(planner.project, [], {}, names, i) == Some(planner.order)
      invariant Serves(Feeds(planner.project), planner.order, names[..i])
    {
      var next := i + 1;
      ghost var before := planner.order;
      ok := planner.Visit(names[i]);
      if !ok {
        return;
      }
      TakeSnoc(names, i);
      ServesNext(Feeds(planner.project), before, planner.order, names[..i], names[i]);
      i := next;
    }
    assert names[..i] == names;
    return true;
  }

  lemma MentionsMembers(names: seq<Option<Name>>, r: seq<Name>)
    requires Mentions(names, r)
    ensures r != [] <==> exists n :: Some(n) in names
    ensures forall n :: n in r <==> Some(n) in names
  {
    if r != [] {
      assert r[0] in r;
    }
  }

  lemma RequestedIsPlanned(project: Project, requested: seq<Name>, plan: Plan, n: Name)
    requires IsPlanFor(project, requested, plan) && n in requested
    ensures n in plan.order
  {
    ReachRefl(Feeds(project), n);
  }

  /** The plan succeeds exactly when some name resolves and nothing that the names need is unknown, unreadable or on
      a cycle; then every name that resolves is planned. */
  method BuildPlanForTargets(project: Project, names: seq<Option<Name>>) returns (plan: Option<Plan>)
    ensures plan.Some? <==> (exists n :: Some(n) in names) && forall n :: Some(n) in names ==> !Broken(project, n)
    ensures plan.Some? ==> IsPlanFor(project, Canonical(names), plan.value)
    ensures plan.Some? ==> Mentions(names, plan.value.requested)
    ensures plan.Some? ==> forall n :: Some(n) in names ==> n in plan.value.order
  {
    var canonical := CanonicalNames(names);
    MentionsMembers(names, canonical);
    if canonical == [] {
      return None;
    }
    var planner := new RunPlanner(project);
    var ok := VisitRequested(planner, canonical);
    if !ok {
      return None;
    }
    NothingBroken(project, canonical, planner.order, planner.targets);
    var finished := FinishPlan(project, canonical, planner.order, planner.targets);
    forall n | Some(n) in names
      ensures n in finished.order
    {
      RequestedIsPlanned(project, canonical, finished, n);
    }
    return Some(finished);
  }

  method FinishPlan(ghost project: Project, requested: seq<Name>, order: seq<Name>, targets: Project)
    returns (plan: Plan)
    requires Topological(Feeds(project), order) && Restricts(project, order, targets)
    requires forall x :: x in order <==> NeededBy(Feeds(project), x, requested)
    requires OrderAll(project, [], {}, requested, |requested|) == Some(order)
    ensures IsPlanFor(project, requested, plan)
  {
    assert forall n :: n in order ==> n in Elems(order);
    var edges := CompositeEdges(targets, order);
    var risk := EffectiveRisk(targets, order);
    return Plan(requested, targets, order, edges, risk);
  }

  lemma NothingBroken(project: Project, requested: seq<Name>, order: seq<Name>, targets: Project)
    requires Topological(Feeds(project), order) && Restricts(project, order, targets)
    requires Serves(Feeds(project), order, requested)
    ensures forall x :: x in order <==> NeededBy(Feeds(project), x, requested)
    ensures forall n :: n in requested ==> !Broken(project, n)
  {
    assert forall n :: n in order ==> n in Elems(order);
    forall x | NeededBy(Feeds(project), x, requested)
      ensures x in order
    {
      var n :| n in requested && Reach(Feeds(project), x, n);
      TopologicalClosed(Feeds(project), order);
      ReachComesFrom(Feeds(project), Elems(order), x, n);
    }
    forall n | n in requested
      ensures !Broken(project, n)
    {
      OrderedIsSound(project, order, n);
    }
  }

  // ---- What a plan promises the execution graph ---------------------------------------

  /** Whatever a planned target names is planned, at an earlier position. */
  lemma KidsBefore(project: Project, requested: seq<Name>, plan: Plan, name: Name, kid: Name)
    requires IsPlanFor(project, requested, plan) && name in plan.order && kid in Kids(project[name])
    ensures kid in plan.order && Position(plan.order, kid) < Position(plan.order, name)
  {
    var feeds := Feeds(project);
    TopologicalClosed(feeds, plan.order);
    assert name in Elems(plan.order) && (kid, name) in feeds;
    assert kid in Elems(plan.order);
    if Position(plan.order, name) <= Position(plan.order, kid) {
      TopologicalForward(feeds, plan.order, Position(plan.order, kid), Position(plan.order, name));
    }
  }

  lemma PlanHasChildren(project: Project, requested: seq<Name>, plan: Plan)
    requires IsPlanFor(project, requested, plan)
    ensures ChildrenPlanned(plan.targets) && Distinct(plan.order)
  {
    TopologicalClosed(Feeds(project), plan.order);
    forall n, ch | n in plan.targets && ch in ChildList(plan.targets[n])
      ensures ch.target in plan.targets
    {
      var i :| 0 <= i < |ChildList(plan.targets[n])| && ChildList(plan.targets[n])[i] == ch;
      assert ChildNames(ChildList(plan.targets[n]))[i] == ch.target;
      assert n in Elems(plan.order);
      KidsBefore(project, requested, plan, n, ch.target);
      assert ch.target in Elems(plan.order);
    }
  }

  /** The children of one kind are those declared, listed in plan order. */
  lemma ChildrenInPlanOrder(project: Project, requested: seq<Name>, plan: Plan, name: Name, kind: Kind)
    requires IsPlanFor(project, requested, plan) && name in plan.order
    ensures multiset(Select(plan.compositeEdges, name, kind)) == multiset(Declared(ChildList(project[name]), kind))
    ensures InPlanOrder(plan.order, Select(plan.compositeEdges, name, kind))
  {
    PlanHasChildren(project, requested, plan);
    assert name in Elems(plan.order);
    var collected := Collected(plan.targets, plan.order);
    SelectCollected(plan.targets, plan.order, name, kind);
    BagSort(plan.order, collected, name, kind);
    SortOrdered(plan.order, collected);
    SelectOrdered(plan.order, plan.compositeEdges, name, kind);
  }

  lemma {:induction false} DeclaredMember(list: seq<Child>, kind: Kind, x: Name)
    requires x in Declared(list, kind)
    ensures x in ChildNames(list)
  {
    var init, last := list[..|list| - 1], list[|list| - 1];
    if !(last.kind == kind && last.target == x) {
      DeclaredMember(init, kind, x);
    }
  }

  /** Children are read back as declared if the plan lists them so. */
  lemma KeptIfInOrder(project: Project, requested: seq<Name>, plan: Plan, name: Name, kind: Kind)
    requires IsPlanFor(project, requested, plan) && name in plan.order
    requires InPlanOrder(plan.order, Declared(ChildList(project[name]), kind))
    ensures Select(plan.compositeEdges, name, kind) == Declared(ChildList(project[name]), kind)
  {
    ChildrenInPlanOrder(project, requested, plan, name, kind);
    var listed, declared := Select(plan.compositeEdges, name, kind), Declared(ChildList(project[name]), kind);
    SameMembers(listed, declared);
    forall x | x in listed
      ensures x in plan.order
    {
      DeclaredMember(ChildList(project[name]), kind, x);
      KidsBefore(project, requested, plan, name, x);
    }
    SortedUnique(plan.order, listed, declared);
  }

  lemma TwoSteps(a: Name, b: Name)
    ensures Declared([Child(a, PipelineStep), Child(b, PipelineStep)], PipelineStep) == [a, b]
    ensures ChildNames([Child(a, PipelineStep), Child(b, PipelineStep)]) == [a, b]
  {
    var list := [Child(a, PipelineStep), Child(b, PipelineStep)];
    var one := list[..1];
    assert one == [Child(a, PipelineStep)] && one[..0] == [];
    assert Declared(one[..0], PipelineStep) == [];
    assert Declared(one, PipelineStep) == [] + [a];
    assert list[1] == Child(b, PipelineStep);
    assert Declared(list, PipelineStep) == [a] + [b];
  }

  /** Three targets: a depends on b, and pipeline p declares the steps a, b. */
  function SwapProject(a: Name, b: Name, p: Name): Project {
    var leaf := Spec([], Listed([]), NoLock, Risk(false, false, false));
    map[a := leaf.(dependsOn := [b]), b := leaf,
        p := leaf.(children := Listed([Child(a, PipelineStep), Child(b, PipelineStep)]))]
  }

  lemma SwapKids(a: Name, b: Name, p: Name)
    requires a != b && a != p && b != p
    ensures var project := SwapProject(a, b, p);
      Kids(project[a]) == [b] && Kids(project[b]) == [] && Kids(project[p]) == [a, b]
  {
    TwoSteps(a, b);
  }

  lemma SwapTopological(edges: set<(Name, Name)>, a: Name, b: Name, p: Name)
    requires a != b && a != p && b != p
    requires forall k, n {:trigger (k, n) in edges} :: (k, n) in edges ==> (k == b && n in {a, p}) || (k == a && n == p)
    ensures Topological(edges, [b, a, p])
  {
    TopologicalSnoc(edges, [], b);
    assert [] + [b] == [b];
    TopologicalSnoc(edges, [b], a);
    assert [b] + [a] == [b, a];
    TopologicalSnoc(edges, [b, a], p);
    assert [b, a] + [p] == [b, a, p];
  }

  /** Such a project does get a plan, so the reordering does happen. */
  lemma {:induction false} SwapProjectIsPlanned(a: Name, b: Name, p: Name)
    requires a != b && a != p && b != p
    ensures !Broken(SwapProject(a, b, p), p)
    ensures var project := SwapProject(a, b, p);
      ChildList(project[p]) == [Child(a, PipelineStep), Child(b, PipelineStep)] && b in Kids(project[a])
  {
    var project := SwapProject(a, b, p);
    SwapKids(a, b, p);
    SwapTopological(Feeds(project), a, b, p);
    OrderedIsSound(project, [b, a, p], p);
  }
}
