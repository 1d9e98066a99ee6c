/** The order of a plan, read off the visits of the planner (internal/runner/plan.go): what comes first
    is decided by which request, dependency or child needs it first. */
module PlanOrder {
  import opened Nodes
  import opened Digraph
  import opened Wrappers
  import opened Planner

  /** Visiting the first i names has extended the order by what they need, up to themselves. */
  ghost predicate Grew(project: Project, was: seq<Name>, order: seq<Name>, names: seq<Name>, i: nat) {
    && i <= |names| && was <= order
    && (forall k :: 0 <= k < i ==> names[k] in order)
    && forall x :: x in order && x !in was ==> NeededBy(Feeds(project), x, names[..i])
  }

  lemma {:induction false} OrderAllGrows(
    project: Project, was: seq<Name>, visiting: set<Name>, names: seq<Name>, i: nat, order: seq<Name>)
    requires i <= |names| && OrderAll(project, was, visiting, names, i) == Some(order)
    ensures Grew(project, was, order, names, i)
    decreases project.Keys - visiting, 1, i
  {
    if i > 0 {
      var j := i - 1;
      var before := OrderAll(project, was, visiting, names, j).value;
      OrderAllGrows(project, was, visiting, names, j, before);
      OrderOneGrows(project, before, visiting, names[j], order);
      GrewNext(project, was, before, order, names, j, i);
    }
  }

  lemma GrewNext(
    project: Project, was: seq<Name>, before: seq<Name>, order: seq<Name>, names: seq<Name>, j: nat, i: nat)
    requires j + 1 == i <= |names| && Grew(project, was, before, names, j)
    requires Extends(Feeds(project), before, order, names[j]) && names[j] in order
    ensures Grew(project, was, order, names, i)
  {
    TakeSnoc(names, j);
    forall x | x in order && x !in was
      ensures NeededBy(Feeds(project), x, names[..i])
    {
      if x in before {
        var n :| n in names[..j] && Reach(Feeds(project), x, n);
        assert n in names[..i];
      } else {
        assert names[j] in names[..i];
      }
    }
  }

  lemma {:induction false} OrderOneGrows(project: Project, was: seq<Name>, visiting: set<Name>, name: Name, order: seq<Name>)
    requires OrderOne(project, was, visiting, name) == Some(order)
    ensures Extends(Feeds(project), was, order, name) && name in order
    decreases project.Keys - visiting, 0, 0
  {
    if name !in was {
      var o1, o2 := Inside(project, was, visiting, name, order);
      var deps, names := project[name].dependsOn, ChildNames(project[name].children.list);
      OrderAllGrows(project, was, visiting + {name}, deps, |deps|, o1);
      OrderAllGrows(project, o1, visiting + {name}, names, |names|, o2);
      forall x | x in order && x !in was
        ensures Reach(Feeds(project), x, name)
      {
        if x == name {
          ReachRefl(Feeds(project), name);
        } else {
          NeededByKids(project, x, name, if x in o1 then deps else names);
        }
      }
    }
  }

  /** The visit of a new name, opened up. */
  lemma Inside(project: Project, was: seq<Name>, visiting: set<Name>, name: Name, order: seq<Name>)
    returns (o1: seq<Name>, o2: seq<Name>)
    requires OrderOne(project, was, visiting, name) == Some(order) && name !in was
    ensures name in project && project[name].children.Listed? && name !in visiting
    ensures var deps, names := project[name].dependsOn, ChildNames(project[name].children.list);
      && OrderAll(project, was, visiting + {name}, deps, |deps|) == Some(o1)
      && OrderAll(project, o1, visiting + {name}, names, |names|) == Some(o2)
      && order == o2 + [name]
  {
    var deps := project[name].dependsOn;
    o1 := OrderAll(project, was, visiting + {name}, deps, |deps|).value;
    var names := ChildNames(project[name].children.list);
    o2 := OrderAll(project, o1, visiting + {name}, names, |names|).value;
  }

  lemma NeededByKids(project: Project, x: Name, name: Name, names: seq<Name>)
    requires name in project && (forall n :: n in names ==> n in Kids(project[name]))
    requires NeededBy(Feeds(project), x, names[..|names|])
    ensures Reach(Feeds(project), x, name)
  {
    var n :| n in names[..|names|] && Reach(Feeds(project), x, n);
    assert n in names && (n, name) in Feeds(project);
    ReachSnoc(Feeds(project), x, n, name);
  }

  /** Later visits only append. */
  lemma {:induction false} OrderAllPrefix(
    project: Project, was: seq<Name>, visiting: set<Name>, names: seq<Name>, i: nat, j: nat, order: seq<Name>)
    returns (before: seq<Name>)
    requires i <= j <= |names| && OrderAll(project, was, visiting, names, j) == Some(order)
    ensures OrderAll(project, was, visiting, names, i) == Some(before) && before <= order
    decreases j
  {
    if i == j {
      before := order;
    } else {
      var k := j - 1;
      var last := OrderAll(project, was, visiting, names, k).value;
      OrderOneGrows(project, last, visiting, names[k], order);
      before := OrderAllPrefix(project, was, visiting, names, i, k, last);
    }
  }

  lemma {:induction false} PrefixTopological(edges: set<(Name, Name)>, before: seq<Name>, order: seq<Name>)
    requires Topological(edges, order) && before <= order
    ensures Topological(edges, before)
    decreases |order|
  {
    if before != order {
      PrefixTopological(edges, before, order[..|order| - 1]);
    }
  }

  /** What is in a prefix comes before what is not. */
  lemma PrefixFirst(before: seq<Name>, order: seq<Name>, x: Name, y: Name)
    requires Distinct(order) && before <= order && x in before && y in order && y !in before
    ensures Position(order, x) < Position(order, y)
  {
    var i :| 0 <= i < |before| && before[i] == x;
    assert order[i] == x;
    assert Position(order, x) == i;
    assert forall j :: 0 <= j < |before| ==> order[j] == before[j] && before[j] in before;
  }

  /** A prefix of the plan order has, with a name, all that the name needs. */
  lemma PrefixClosed(project: Project, before: seq<Name>, order: seq<Name>, x: Name, n: Name)
    requires Topological(Feeds(project), order) && before <= order
    requires n in before && Reach(Feeds(project), x, n)
    ensures x in before
  {
    PrefixTopological(Feeds(project), before, order);
    TopologicalClosed(Feeds(project), before);
    ReachComesFrom(Feeds(project), Elems(before), x, n);
  }

  // ---- Every order is a plan ------------------------------------------------------------------

  ghost predicate Planned(project: Project, order: seq<Name>) {
    Topological(Feeds(project), order) && forall n :: n in order ==> n in project && project[n].children.Listed?
  }

  /** What is being visited is not added. */
  ghost predicate Avoids(was: seq<Name>, order: seq<Name>, visiting: set<Name>) {
    forall x :: x in order && x !in was ==> x !in visiting
  }

  lemma {:induction false} OrderAllSound(
    project: Project, was: seq<Name>, visiting: set<Name>, names: seq<Name>, i: nat, order: seq<Name>)
    requires i <= |names| && OrderAll(project, was, visiting, names, i) == Some(order) && Planned(project, was)
    ensures Planned(project, order) && Avoids(was, order, visiting)
    decreases project.Keys - visiting, 1, i
  {
    if i > 0 {
      var j := i - 1;
      var before := OrderAll(project, was, visiting, names, j).value;
      OrderAllSound(project, was, visiting, names, j, before);
      OrderOneSound(project, before, visiting, names[j], order);
    }
  }

  lemma {:induction false} OrderOneSound(project: Project, was: seq<Name>, visiting: set<Name>, name: Name, order: seq<Name>)
    requires OrderOne(project, was, visiting, name) == Some(order) && Planned(project, was)
    ensures Planned(project, order) && Avoids(was, order, visiting)
    decreases project.Keys - visiting, 0, 0
  {
    if name !in was {
      var inside := visiting + {name};
      var o1, o2 := Inside(project, was, visiting, name, order);
      var deps, names := project[name].dependsOn, ChildNames(project[name].children.list);
      OrderAllSound(project, was, inside, deps, |deps|, o1);
      OrderAllSound(project, o1, inside, names, |names|, o2);
      OrderAllGrows(project, was, inside, deps, |deps|, o1);
      OrderAllGrows(project, o1, inside, names, |names|, o2);
      AppendLast(project, o1, o2, name);
    }
  }

  lemma AppendLast(project: Project, o1: seq<Name>, o2: seq<Name>, name: Name)
    requires Planned(project, o2) && o1 <= o2 && name !in o2 && name in project && project[name].children.Listed?
    requires forall d :: d in project[name].dependsOn ==> d in o1
    requires forall k :: 0 <= k < |ChildNames(project[name].children.list)| ==> ChildNames(project[name].children.list)[k] in o2
    ensures Planned(project, o2 + [name])
  {
    assert PredsIn(Feeds(project), name, Elems(o2));
    assert (o2 + [name])[..|o2|] == o2;
  }

  lemma OrderIsNeeded(project: Project, requested: seq<Name>, order: seq<Name>)
    requires OrderAll(project, [], {}, requested, |requested|) == Some(order)
    ensures Planned(project, order) && forall x :: x in order <==> NeededBy(Feeds(project), x, requested)
  {
    OrderAllSound(project, [], {}, requested, |requested|, order);
    OrderAllGrows(project, [], {}, requested, |requested|, order);
    assert requested[..|requested|] == requested;
    forall x | NeededBy(Feeds(project), x, requested)
      ensures x in order
    {
      var n :| n in requested && Reach(Feeds(project), x, n);
      PrefixClosed(project, order, order, x, n);
    }
  }

  lemma RiskExists(project: Project, names: seq<Name>) returns (risk: Risk)
    requires forall n :: n in names ==> n in project
    ensures IsRiskOf(project, names, risk)
  {
    risk := Risk(
      exists n :: n in names && project[n].risk.remote, exists n :: n in names && project[n].risk.destructive,
      exists n :: n in names && project[n].risk.confirm);
  }

  lemma TargetsExist(project: Project, order: seq<Name>) returns (targets: Project)
    requires Planned(project, order)
    ensures Restricts(project, order, targets) && forall n :: n in order ==> n in targets
  {
    targets := map n | n in Elems(order) :: project[n];
  }

  /** Whenever all the visits succeed, there is a plan with their order. */
  lemma PlanExists(project: Project, requested: seq<Name>, order: seq<Name>) returns (plan: Plan)
    requires OrderAll(project, [], {}, requested, |requested|) == Some(order)
    ensures IsPlanFor(project, requested, plan) && plan.order == order
  {
    OrderIsNeeded(project, requested, order);
    var targets := TargetsExist(project, order);
    var risk := RiskExists(targets, order);
    plan := Plan(requested, targets, order, StableSort(order, Collected(targets, order)), risk);
  }

  // ---- Orders, worked out ------------------------------------------------------------------------

  lemma NextVisit(project: Project, was: seq<Name>, visiting: set<Name>, names: seq<Name>, i: nat, before: seq<Name>)
    requires i < |names| && OrderAll(project, was, visiting, names, i) == Some(before)
    ensures OrderAll(project, was, visiting, names, i + 1) == OrderOne(project, before, visiting, names[i])
  {
  }

  /** A target that names nothing is appended. */
  lemma LeafVisit(project: Project, was: seq<Name>, visiting: set<Name>, name: Name)
    requires name !in was && name !in visiting && name in project
    requires project[name].dependsOn == [] && project[name].children == Listed([])
    ensures OrderOne(project, was, visiting, name) == Some(was + [name])
  {
  }

  /** A target all of whose dependencies and children are in the order is appended. */
  lemma {:induction false} NothingNew(project: Project, was: seq<Name>, visiting: set<Name>, names: seq<Name>, i: nat)
    requires i <= |names| && forall n :: n in names ==> n in was
    ensures OrderAll(project, was, visiting, names, i) == Some(was)
    decreases i
  {
    if i > 0 {
      NothingNew(project, was, visiting, names, i - 1);
    }
  }

  // ---- The visit of one requested target --------------------------------------------------

  /** The orders before target r of the request is visited, after its dependencies, and after its children. */
  ghost predicate Stages(
    project: Project, requested: seq<Name>, plan: Plan, r: nat, o0: seq<Name>, o1: seq<Name>, o2: seq<Name>)
    requires r < |requested| && requested[r] in project && project[requested[r]].children.Listed?
  {
    var p := requested[r];
    var deps, names := project[p].dependsOn, ChildNames(project[p].children.list);
    && OrderAll(project, [], {}, requested, r) == Some(o0)
    && OrderAll(project, o0, {p}, deps, |deps|) == Some(o1)
    && OrderAll(project, o1, {p}, names, |names|) == Some(o2)
    && o0 <= o1 <= o2 <= plan.order && Distinct(plan.order)
  }

  lemma StagesExist(project: Project, requested: seq<Name>, plan: Plan, r: nat)
    returns (o0: seq<Name>, o1: seq<Name>, o2: seq<Name>)
    requires IsPlanFor(project, requested, plan) && r < |requested| && requested[r] in project
    requires !NeededBy(Feeds(project), requested[r], requested[..r])
    ensures project[requested[r]].children.Listed?
    ensures Stages(project, requested, plan, r, o0, o1, o2)
  {
    var p, next := requested[r], r + 1;
    var op := OrderAllPrefix(project, [], {}, requested, next, |requested|, plan.order);
    o0 := OrderAll(project, [], {}, requested, r).value;
    OrderAllGrows(project, [], {}, requested, r, o0);
    assert p !in o0;
    o1, o2 := Inside(project, o0, {}, p, op);
    assert {} + {p} == {p};
    var deps, names := project[p].dependsOn, ChildNames(project[p].children.list);
    OrderAllGrows(project, o0, {p}, deps, |deps|, o1);
    OrderAllGrows(project, o1, {p}, names, |names|, o2);
    PlanHasChildren(project, requested, plan);
  }

  /** What no earlier request needs, nothing that needs it is requested earlier. */
  lemma NotNeededEarlier(project: Project, requested: seq<Name>, r: nat, y: Name)
    requires r < |requested| && (y, requested[r]) in Feeds(project)
    requires !NeededBy(Feeds(project), y, requested[..r])
    ensures !NeededBy(Feeds(project), requested[r], requested[..r])
  {
    if NeededBy(Feeds(project), requested[r], requested[..r]) {
      var n :| n in requested[..r] && Reach(Feeds(project), requested[r], n);
      ReachCons(Feeds(project), y, requested[r], n);
    }
  }

  /** What a dependency of a requested target needs is planned before what neither its dependencies nor an
      earlier request needs. */
  lemma DependenciesPlannedFirst(project: Project, requested: seq<Name>, plan: Plan, r: nat, x: Name, y: Name)
    requires IsPlanFor(project, requested, plan) && r < |requested| && requested[r] in project
    requires !NeededBy(Feeds(project), requested[r], requested[..r])
    requires NeededBy(Feeds(project), x, project[requested[r]].dependsOn) && y in plan.order
    requires !NeededBy(Feeds(project), y, project[requested[r]].dependsOn)
    requires !NeededBy(Feeds(project), y, requested[..r])
    ensures Position(plan.order, x) < Position(plan.order, y)
  {
    var p := requested[r];
    var deps := project[p].dependsOn;
    var o0, o1, o2 := StagesExist(project, requested, plan, r);
    OrderAllGrows(project, [], {}, requested, r, o0);
    OrderAllGrows(project, o0, {p}, deps, |deps|, o1);
    assert deps[..|deps|] == deps;
    var d :| d in deps && Reach(Feeds(project), x, d);
    PrefixClosed(project, o1, plan.order, x, d);
    PrefixFirst(o1, plan.order, x, y);
  }

  // ---- Declared order ---------------------------------------------------------------------------

  /** The children of one kind are first needed when the target's own visit comes to them: no earlier
      request, no dependency and no child of another kind needs any of them. */
  ghost predicate FirstNeededHere(project: Project, requested: seq<Name>, r: nat, kind: Kind)
    requires r < |requested| && requested[r] in project
  {
    var feeds, p := Feeds(project), requested[r];
    forall x :: x in Declared(ChildList(project[p]), kind) ==>
      && !NeededBy(feeds, x, requested[..r]) && !NeededBy(feeds, x, project[p].dependsOn)
      && forall ch :: ch in ChildList(project[p]) && ch.kind != kind ==> !Reach(feeds, x, ch.target)
  }

  /** No child of the kind is needed by one declared before it. */
  ghost predicate NoneNeededEarlier(project: Project, declared: seq<Name>) {
    forall i, j :: 0 <= i < j < |declared| ==> !Reach(Feeds(project), declared[j], declared[i])
  }

  /** Where the first m children of the kind end in the list of all children. */
  lemma {:induction false} DeclaredCut(list: seq<Child>, kind: Kind, m: nat) returns (k: nat)
    requires m <= |Declared(list, kind)|
    ensures k <= |list| && Declared(list[..k], kind) == Declared(list, kind)[..m]
    decreases |list|
  {
    if m == |Declared(list, kind)| {
      k := |list|;
      assert list[..k] == list;
    } else {
      var init := list[..|list| - 1];
      k := DeclaredCut(init, kind, m);
      assert init[..k] == list[..k];
    }
  }

  lemma {:induction false} DeclaredChild(list: seq<Child>, kind: Kind, x: Name)
    ensures x in Declared(list, kind) <==> exists ch :: ch in list && ch.kind == kind && ch.target == x
  {
    if list != [] {
      InitLast(list);
      DeclaredChild(list[..|list| - 1], kind, x);
    }
  }

  lemma {:induction false} NamesTake(list: seq<Child>, k: nat, x: Name)
    requires k <= |list| && x in ChildNames(list)[..k]
    ensures exists ch :: ch in list[..k] && ch in list && ch.target == x
  {
    var m :| 0 <= m < k && ChildNames(list)[m] == x;
    assert list[..k][m] == list[m];
  }

  /** With the first m children of the kind visited, no later one has been reached. */
  lemma NotReachedYet(project: Project, list: seq<Child>, kind: Kind, k: nat, i: nat, x: Name)
    requires k <= |list| && i < |Declared(list, kind)| && Declared(list[..k], kind) == Declared(list, kind)[..i + 1]
    requires forall d :: 0 <= d <= i ==> !Reach(Feeds(project), x, Declared(list, kind)[d])
    requires forall ch :: ch in list && ch.kind != kind ==> !Reach(Feeds(project), x, ch.target)
    ensures !NeededBy(Feeds(project), x, ChildNames(list)[..k])
  {
    var declared := Declared(list, kind);
    forall n | n in ChildNames(list)[..k]
      ensures !Reach(Feeds(project), x, n)
    {
      NamesTake(list, k, n);
      var ch :| ch in list[..k] && ch in list && ch.target == n;
      if ch.kind == kind {
        DeclaredChild(list[..k], kind, n);
        var d :| 0 <= d <= i && declared[..i + 1][d] == n;
        assert declared[d] == n;
      }
    }
  }

  /** ... while they themselves have. */
  lemma ReachedNow(list: seq<Child>, kind: Kind, k: nat, i: nat)
    requires k <= |list| && i < |Declared(list, kind)| && Declared(list[..k], kind) == Declared(list, kind)[..i + 1]
    ensures exists c :: 0 <= c < k && ChildNames(list)[c] == Declared(list, kind)[i]
  {
    var x := Declared(list, kind)[i];
    assert Declared(list, kind)[..i + 1][i] == x;
    DeclaredChild(list[..k], kind, x);
    var ch :| ch in list[..k] && ch.kind == kind && ch.target == x;
    var c :| 0 <= c < k && list[..k][c] == ch;
    assert ChildNames(list)[c] == x;
  }

  lemma CutBetween(
    project: Project, o1: seq<Name>, visiting: set<Name>, list: seq<Child>, kind: Kind, declared: seq<Name>,
    o2: seq<Name>, i: nat, x: Name) returns (q: seq<Name>)
    requires declared == Declared(list, kind) && i < |declared| && x !in o1
    requires OrderAll(project, o1, visiting, ChildNames(list), |ChildNames(list)|) == Some(o2)
    requires forall d :: 0 <= d <= i ==> !Reach(Feeds(project), x, declared[d])
    requires forall ch :: ch in list && ch.kind != kind ==> !Reach(Feeds(project), x, ch.target)
    ensures q <= o2 && declared[i] in q && x !in q
  {
    var names := ChildNames(list);
    var k := DeclaredCut(list, kind, i + 1);
    q := OrderAllPrefix(project, o1, visiting, names, k, |names|, o2);
    OrderAllGrows(project, o1, visiting, names, k, q);
    ReachedNow(list, kind, k, i);
    NotReachedYet(project, list, kind, k, i, x);
  }

  lemma PlannedInTurn(
    project: Project, o1: seq<Name>, visiting: set<Name>, list: seq<Child>, kind: Kind, declared: seq<Name>,
    o2: seq<Name>, order: seq<Name>, i: nat, x: Name)
    requires declared == Declared(list, kind) && i < |declared| && x !in o1
    requires OrderAll(project, o1, visiting, ChildNames(list), |ChildNames(list)|) == Some(o2)
    requires forall d :: 0 <= d <= i ==> !Reach(Feeds(project), x, declared[d])
    requires forall ch :: ch in list && ch.kind != kind ==> !Reach(Feeds(project), x, ch.target)
    requires o2 <= order && Distinct(order) && x in order
    ensures Position(order, declared[i]) < Position(order, x)
  {
    var q := CutBetween(project, o1, visiting, list, kind, declared, o2, i, x);
    PrefixFirst(q, order, declared[i], x);
  }

  lemma StepNotInPast(
    project: Project, requested: seq<Name>, plan: Plan, r: nat, kind: Kind, o0: seq<Name>, o1: seq<Name>, o2: seq<Name>,
    x: Name)
    requires r < |requested| && requested[r] in project && project[requested[r]].children.Listed?
    requires Stages(project, requested, plan, r, o0, o1, o2) && FirstNeededHere(project, requested, r, kind)
    requires x in Declared(ChildList(project[requested[r]]), kind)
    ensures x !in o1
    ensures forall ch :: ch in ChildList(project[requested[r]]) && ch.kind != kind ==> !Reach(Feeds(project), x, ch.target)
  {
    var p := requested[r];
    var deps := project[p].dependsOn;
    OrderAllGrows(project, [], {}, requested, r, o0);
    OrderAllGrows(project, o0, {p}, deps, |deps|, o1);
    assert deps[..|deps|] == deps;
  }

  /** If a child needs one declared after it, that one is planned before it. */
  lemma NeededIsPlannedFirst(project: Project, requested: seq<Name>, plan: Plan, a: Name, b: Name)
    requires IsPlanFor(project, requested, plan) && a in plan.order && a != b && Reach(Feeds(project), b, a)
    ensures b in plan.order && Position(plan.order, b) < Position(plan.order, a)
  {
    TopologicalClosed(Feeds(project), plan.order);
    ReachComesFrom(Feeds(project), Elems(plan.order), b, a);
    var before := plan.order[..Position(plan.order, b)];
    if a in before {
      PrefixClosed(project, before, plan.order, b, a);
      assert false;
    }
    assert plan.order[Position(plan.order, a)] == a;
  }

  lemma ChildIsPlanned(project: Project, requested: seq<Name>, plan: Plan, p: Name, kind: Kind, x: Name)
    requires IsPlanFor(project, requested, plan) && p in plan.order && x in Declared(ChildList(project[p]), kind)
    ensures x in plan.order
  {
    DeclaredMember(ChildList(project[p]), kind, x);
    KidsBefore(project, requested, plan, p, x);
  }

  /** Steps run in the order in which they are declared exactly when no step is needed by one declared before
      it, provided the steps are declared once each and nothing visited before them needs them. */
  lemma DeclaredOrderIff(project: Project, requested: seq<Name>, plan: Plan, r: nat, kind: Kind)
    requires IsPlanFor(project, requested, plan) && r < |requested| && requested[r] in project
    requires Distinct(Declared(ChildList(project[requested[r]]), kind)) && FirstNeededHere(project, requested, r, kind)
    ensures Select(plan.compositeEdges, requested[r], kind) == Declared(ChildList(project[requested[r]]), kind)
      <==> NoneNeededEarlier(project, Declared(ChildList(project[requested[r]]), kind))
  {
    var p := requested[r];
    var declared := Declared(ChildList(project[p]), kind);
    ReachRefl(Feeds(project), p);
    assert NeededBy(Feeds(project), p, requested);
    if NoneNeededEarlier(project, declared) {
      KeptOrder(project, requested, plan, r, kind);
      KeptIfInOrder(project, requested, plan, p, kind);
    } else {
      var i, j :| 0 <= i < j < |declared| && Reach(Feeds(project), declared[j], declared[i]);
      ReorderedSteps(project, requested, plan, p, kind, i, j);
    }
  }

  lemma KeptOrder(project: Project, requested: seq<Name>, plan: Plan, r: nat, kind: Kind)
    requires IsPlanFor(project, requested, plan) && r < |requested| && requested[r] in project
    requires FirstNeededHere(project, requested, r, kind)
    requires NoneNeededEarlier(project, Declared(ChildList(project[requested[r]]), kind))
    ensures InPlanOrder(plan.order, Declared(ChildList(project[requested[r]]), kind))
  {
    var p := requested[r];
    var declared := Declared(ChildList(project[p]), kind);
    ReachRefl(Feeds(project), p);
    assert NeededBy(Feeds(project), p, requested);
    if declared != [] {
      NotRequestedEarlier(project, requested, r, kind);
      var o0, o1, o2 := StagesExist(project, requested, plan, r);
      forall i, j | 0 <= i < j < |declared|
        ensures Position(plan.order, declared[i]) <= Position(plan.order, declared[j])
      {
        ChildIsPlanned(project, requested, plan, p, kind, declared[j]);
        StepNotInPast(project, requested, plan, r, kind, o0, o1, o2, declared[j]);
        PlannedInTurn(project, o1, {p}, ChildList(project[p]), kind, declared, o2, plan.order, i, declared[j]);
      }
    }
  }

  lemma NotRequestedEarlier(project: Project, requested: seq<Name>, r: nat, kind: Kind)
    requires r < |requested| && requested[r] in project && FirstNeededHere(project, requested, r, kind)
    requires Declared(ChildList(project[requested[r]]), kind) != []
    ensures !NeededBy(Feeds(project), requested[r], requested[..r])
  {
    var x := Declared(ChildList(project[requested[r]]), kind)[0];
    DeclaredMember(ChildList(project[requested[r]]), kind, x);
    NotNeededEarlier(project, requested, r, x);
  }

  /** Of two names in a list in plan order, the one planned first is listed first. */
  lemma ListedFirst(order: seq<Name>, listed: seq<Name>, x: Name, y: Name)
    requires InPlanOrder(order, listed) && Position(order, y) < Position(order, x)
    ensures forall a, b :: 0 <= a < |listed| && 0 <= b < |listed| && listed[a] == x && listed[b] == y ==> b < a
  {
  }

  /** In any composite, a child that needs one declared after it is listed after it. */
  lemma ReorderedSteps(project: Project, requested: seq<Name>, plan: Plan, p: Name, kind: Kind, i: nat, j: nat)
    requires IsPlanFor(project, requested, plan) && p in plan.order
    requires i < j < |Declared(ChildList(project[p]), kind)|
    requires var declared := Declared(ChildList(project[p]), kind);
      declared[i] != declared[j] && Reach(Feeds(project), declared[j], declared[i])
    ensures var declared, listed := Declared(ChildList(project[p]), kind), Select(plan.compositeEdges, p, kind);
      && listed != declared
      && forall a, b :: 0 <= a < |listed| && 0 <= b < |listed| && listed[a] == declared[i] && listed[b] == declared[j] ==>
           b < a
  {
    var declared, listed := Declared(ChildList(project[p]), kind), Select(plan.compositeEdges, p, kind);
    ChildIsPlanned(project, requested, plan, p, kind, declared[i]);
    NeededIsPlannedFirst(project, requested, plan, declared[i], declared[j]);
    ChildrenInPlanOrder(project, requested, plan, p, kind);
    ListedFirst(plan.order, listed, declared[i], declared[j]);
  }
}
