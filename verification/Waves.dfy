/** internal/plan/graph.go: Plans are put into waves, each wave holding the Plans whose
    dependencies lie in earlier ones. IDs are numbered in the order in which sorting puts them. */
module Waves {
  import opened Digraph
  import opened Levels
  import Dag

  datatype Id = Id(value: nat)

  datatype Document = Document(id: Id, dependsOn: seq<Id>, hash: nat)

  datatype Diagnostic = DuplicatePlanId(id: Id) | MissingDependency(id: Id, dep: Id) | DependencyCycle(id: Id)

  // ---- The dependency relation -----------------------------------------------------

  ghost function Ids(docs: seq<Document>): (r: set<Id>)
    ensures forall i :: 0 <= i < |docs| ==> docs[i].id in r
    ensures forall x :: x in r ==> exists i :: 0 <= i < |docs| && docs[i].id == x
  {
    set i | 0 <= i < |docs| :: docs[i].id
  }

  ghost predicate DistinctIds(docs: seq<Document>) {
    forall i, j :: 0 <= i < j < |docs| ==> docs[i].id != docs[j].id
  }

  /** No document lists a dependency twice. */
  ghost predicate NoRepeats(docs: seq<Document>) {
    forall d :: d in docs ==> Distinct(d.dependsOn)
  }

  ghost predicate Names(docs: seq<Document>, dep: Id, id: Id) {
    exists d :: d in docs && d.id == id && dep in d.dependsOn
  }

  ghost predicate IsRelation(docs: seq<Document>, ids: set<Id>, r: set<(Id, Id)>) {
    forall dep, id {:trigger (dep, id) in r} :: (dep, id) in r <==> dep in ids && Names(docs, dep, id)
  }

  /** (dep, id) when document id depends on dep and dep is in ids. */
  ghost function Relation(docs: seq<Document>, ids: set<Id>): (r: set<(Id, Id)>)
    ensures IsRelation(docs, ids, r)
  {
    assert IsRelation(docs, ids, set d, dep | d in docs && dep in d.dependsOn && dep in ids :: (dep, d.id));
    var r :| IsRelation(docs, ids, r);
    r
  }

  ghost function Depends(docs: seq<Document>): set<(Id, Id)> {
    Relation(docs, Ids(docs))
  }

  lemma DependsWithin(docs: seq<Document>)
    ensures Within(Depends(docs), Ids(docs))
  {
    forall u, v | (u, v) in Depends(docs)
      ensures u in Ids(docs) && v in Ids(docs)
    {
      var d :| d in docs && d.id == v && u in d.dependsOn;
      var i :| 0 <= i < |docs| && docs[i] == d;
    }
  }

  // ---- The loops ---------------------------------------------------------------------------

  /** A missing key reads as the empty list, as in a Go map. */
  function At(dependents: map<Id, seq<Id>>, x: Id): seq<Id> {
    if x in dependents then dependents[x] else []
  }

  /** dependents lists the pairs of the relation. */
  ghost predicate Lists(rel: set<(Id, Id)>, dependents: map<Id, seq<Id>>) {
    forall x, y {:trigger (x, y) in rel} {:trigger y in At(dependents, x)} :: y in At(dependents, x) <==> (x, y) in rel
  }

  /** remaining holds, for each document, its dependencies outside done. */
  ghost predicate Remains(rel: set<(Id, Id)>, ids: set<Id>, remaining: map<Id, set<Id>>, done: set<Id>) {
    && remaining.Keys == ids
    && forall d, u {:trigger u in remaining[d]} {:trigger (u, d) in rel} ::
         d in ids ==> (u in remaining[d] <==> (u, d) in rel && u !in done)
  }

  /** How often y is listed under x. */
  function Listings(dependents: map<Id, seq<Id>>, x: Id, y: Id): nat {
    multiset(At(dependents, x))[y]
  }

  /** id has been listed under each dependency in ids, as often as it names it. */
  ghost predicate Listed(
    dependents0: map<Id, seq<Id>>, dependents: map<Id, seq<Id>>, id: Id, dependsOn: seq<Id>, ids: set<Id>)
  {
    forall x, y {:trigger Listings(dependents, x, y)} ::
      Listings(dependents, x, y) ==
      Listings(dependents0, x, y) + if y == id && x in ids then multiset(dependsOn)[x] else 0
  }

  lemma CountSnoc(s: seq<Id>, x: Id, y: Id)
    ensures multiset(s + [x])[y] == multiset(s)[y] + if x == y then 1 else 0
  {
  }

  /** The listings after dep has been looked at. */
  function Relisted(dependents: map<Id, seq<Id>>, id: Id, ids: set<Id>, dep: Id): map<Id, seq<Id>> {
    if dep in ids then dependents[dep := At(dependents, dep) + [id]] else dependents
  }

  lemma RelistedAt(dependents: map<Id, seq<Id>>, id: Id, ids: set<Id>, dep: Id, x: Id, y: Id)
    ensures Listings(Relisted(dependents, id, ids, dep), x, y) ==
      Listings(dependents, x, y) + if y == id && x == dep && x in ids then 1 else 0
  {
    CountSnoc(At(dependents, dep), id, y);
  }

  lemma ListOneMore(
    dependents0: map<Id, seq<Id>>, dependents: map<Id, seq<Id>>, id: Id, dependsOn: seq<Id>, ids: set<Id>, dep: Id)
    requires Listed(dependents0, dependents, id, dependsOn, ids)
    ensures Listed(dependents0, Relisted(dependents, id, ids, dep), id, dependsOn + [dep], ids)
  {
    var dependents' := Relisted(dependents, id, ids, dep);
    forall x, y
      ensures Listings(dependents', x, y) ==
        Listings(dependents0, x, y) + if y == id && x in ids then multiset(dependsOn + [dep])[x] else 0
    {
      RelistedAt(dependents, id, ids, dep, x, y);
      CountSnoc(dependsOn, dep, x);
    }
  }

  lemma ListedIff(dependents: map<Id, seq<Id>>, x: Id, y: Id)
    ensures y in At(dependents, x) <==> Listings(dependents, x, y) > 0
  {
  }

  /** One document: its in-set dependencies, and itself as a dependent of each. */
  method Register(doc: Document, byID: map<Id, Document>, dependents0: map<Id, seq<Id>>)
    returns (deps: set<Id>, dependents: map<Id, seq<Id>>)
    ensures forall x :: x in deps <==> x in doc.dependsOn && x in byID
    ensures Listed(dependents0, dependents, doc.id, doc.dependsOn, byID.Keys)
  {
    deps, dependents := {}, dependents0;
    var i := 0;
    while i < |doc.dependsOn|
      invariant 0 <= i <= |doc.dependsOn|
      invariant forall x :: x in deps <==> x in doc.dependsOn[..i] && x in byID
      invariant Listed(dependents0, dependents, doc.id, doc.dependsOn[..i], byID.Keys)
    {
      var dep := doc.dependsOn[i];
      TakeSnoc(doc.dependsOn, i);
      ListOneMore(dependents0, dependents, doc.id, doc.dependsOn[..i], byID.Keys, dep);
      if dep in byID {
        deps := deps + {dep};
        dependents := dependents[dep := At(dependents, dep) + [doc.id]];
      }
      i := i + 1;
    }
    assert doc.dependsOn[..i] == doc.dependsOn;
  }

  /** The entries of a dependents list that finishing id frees, as often as they are listed. */
  function FreedBy(id: Id, list: seq<Id>, remaining: map<Id, set<Id>>, processed: set<Id>): seq<Id>
    requires forall d :: d in list ==> d in remaining
  {
    if list == [] then []
    else
      var init, last := list[..|list| - 1], list[|list| - 1];
      assert last in list && forall d :: d in init ==> d in list;
      FreedBy(id, init, remaining, processed) + if remaining[last] - {id} == {} && last !in processed then [last] else []
  }

  lemma {:induction false} FreedCount(id: Id, list: seq<Id>, remaining: map<Id, set<Id>>, processed: set<Id>, d: Id)
    requires forall x :: x in list ==> x in remaining
    ensures multiset(FreedBy(id, list, remaining, processed))[d] ==
      if d in remaining && remaining[d] - {id} == {} && d !in processed then multiset(list)[d] else 0
  {
    if list != [] {
      var init, last := list[..|list| - 1], list[|list| - 1];
      InitLast(list);
      assert last in list && forall x :: x in init ==> x in list;
      FreedCount(id, init, remaining, processed, d);
      CountSnoc(init, last, d);
      CountSnoc(FreedBy(id, init, remaining, processed), last, d);
    }
  }

  lemma FreedAdds(
    id: Id, list: seq<Id>, remaining0: map<Id, set<Id>>, remaining: map<Id, set<Id>>, processed: set<Id>)
    requires forall x :: x in list ==> x in remaining0
    requires Strikes(id, list, remaining0, remaining)
    ensures Adds(list, remaining, processed, FreedBy(id, list, remaining0, processed))
  {
    var added := FreedBy(id, list, remaining0, processed);
    forall d
      ensures multiset(added)[d] ==
        if d in remaining && remaining[d] == {} && d !in processed then multiset(list)[d] else 0
    {
      FreedCount(id, list, remaining0, processed, d);
      assert d in list <==> multiset(list)[d] > 0;
    }
  }

  /** id is struck from what the listed documents wait for. */
  ghost predicate Strikes(id: Id, list: seq<Id>, remaining0: map<Id, set<Id>>, remaining: map<Id, set<Id>>) {
    && remaining.Keys == remaining0.Keys
    && forall d :: d in remaining ==> remaining[d] == if d in list then remaining0[d] - {id} else remaining0[d]
  }

  /** The listed documents that now wait for nothing are added, as often as they are listed. */
  ghost predicate Adds(list: seq<Id>, remaining: map<Id, set<Id>>, processed: set<Id>, added: seq<Id>) {
    forall d :: multiset(added)[d] ==
      if d in remaining && remaining[d] == {} && d !in processed then multiset(list)[d] else 0
  }

  lemma AddsMembers(list: seq<Id>, remaining: map<Id, set<Id>>, processed: set<Id>, added: seq<Id>)
    requires Adds(list, remaining, processed, added)
    ensures forall d :: d in added <==> d in list && d in remaining && remaining[d] == {} && d !in processed
  {
    forall d
      ensures d in added <==> d in list && d in remaining && remaining[d] == {} && d !in processed
    {
      assert d in added <==> multiset(added)[d] > 0;
      assert d in list <==> multiset(list)[d] > 0;
    }
  }

  /** The loop over the dependents of one finished document. */
  method ReleaseDependents(id: Id, list: seq<Id>, remaining0: map<Id, set<Id>>, processed: set<Id>)
    returns (remaining: map<Id, set<Id>>, added: seq<Id>)
    requires forall d :: d in list ==> d in remaining0
    ensures Strikes(id, list, remaining0, remaining)
    ensures added == FreedBy(id, list, remaining0, processed) && Adds(list, remaining, processed, added)
  {
    remaining, added := remaining0, [];
    var i := 0;
    while i < |list|
      invariant 0 <= i <= |list| && remaining.Keys == remaining0.Keys
      invariant forall d :: d in remaining ==>
        remaining[d] == if d in list[..i] then remaining0[d] - {id} else remaining0[d]
      invariant added == FreedBy(id, list[..i], remaining0, processed)
    {
      var dependent := list[i];
      TakeSnoc(list, i);
      assert list[..i + 1][..i] == list[..i];
      remaining := remaining[dependent := remaining[dependent] - {id}];
      if remaining[dependent] == {} && dependent !in processed {
        added := added + [dependent];
      }
      i := i + 1;
    }
    assert list[..i] == list;
    FreedAdds(id, list, remaining0, remaining, processed);
  }

  /** Nothing that depends on a member of the wave is processed or in the wave. */
  ghost predicate Ahead(wave: seq<Id>, dependents: map<Id, seq<Id>>, processed: set<Id>) {
    forall x, d :: x in wave && d in At(dependents, x) ==> d !in processed && d !in wave
  }

  ghost predicate Owed(wave: seq<Id>, dependents: map<Id, seq<Id>>, remaining: map<Id, set<Id>>) {
    forall x, d :: x in wave && d in At(dependents, x) ==> d in remaining && x in remaining[d]
  }

  ghost predicate Touched(wave: seq<Id>, dependents: map<Id, seq<Id>>, d: Id) {
    exists x :: x in wave && d in At(dependents, x)
  }

  ghost predicate Struck(
    wave: seq<Id>, dependents: map<Id, seq<Id>>, remaining0: map<Id, set<Id>>, remaining: map<Id, set<Id>>)
  {
    && remaining.Keys == remaining0.Keys
    && forall d, u {:trigger u in remaining[d]} :: d in remaining ==>
         (u in remaining[d] <==> u in remaining0[d] && !(u in wave && d in At(dependents, u)))
  }

  /** The documents the wave frees, once each if nothing is listed twice. */
  ghost predicate Frees(
    wave: seq<Id>, dependents: map<Id, seq<Id>>, remaining: map<Id, set<Id>>, next: seq<Id>)
  {
    forall d :: d in next <==> d in remaining && Touched(wave, dependents, d) && remaining[d] == {}
  }

  lemma FreesNext(
    wave: seq<Id>, i: nat, dependents: map<Id, seq<Id>>, processed: set<Id>, remaining0: map<Id, set<Id>>,
    remaining1: map<Id, set<Id>>, remaining2: map<Id, set<Id>>, next: seq<Id>, added: seq<Id>)
    requires i < |wave| && Ahead(wave, dependents, processed)
    requires forall d :: d in At(dependents, wave[i]) ==> d in remaining0
    requires Struck(wave[..i], dependents, remaining0, remaining1) && Frees(wave[..i], dependents, remaining1, next)
    requires remaining2.Keys == remaining1.Keys
    requires forall d :: d in remaining2 ==>
      remaining2[d] == if d in At(dependents, wave[i]) then remaining1[d] - {wave[i]} else remaining1[d]
    requires forall d :: d in added <==>
      d in At(dependents, wave[i]) && remaining2[d] == {} && d !in processed + Elems(wave[..i + 1])
    ensures Frees(wave[..i + 1], dependents, remaining2, next + added)
  {
    TakeSnoc(wave, i);
    assert wave[i] in wave;
    forall d
      ensures d in next + added <==> d in remaining2 && Touched(wave[..i + 1], dependents, d) && remaining2[d] == {}
    {
      if d in At(dependents, wave[i]) {
        assert Touched(wave[..i + 1], dependents, d);
        assert d !in processed && d !in wave;
        assert forall x :: x in Elems(wave[..i + 1]) ==> x in wave;
      } else {
        assert Touched(wave[..i + 1], dependents, d) <==> Touched(wave[..i], dependents, d);
      }
    }
  }

  // ---- How often a document is freed -----------------------------------------------------------

  ghost predicate InIdOrder(s: seq<Id>) {
    forall i, j :: 0 <= i < j < |s| ==> s[i].value <= s[j].value
  }

  /** last is the greatest member of the wave that d depends on. */
  ghost predicate LastTouch(wave: seq<Id>, dependents: map<Id, seq<Id>>, d: Id, last: Id) {
    last in wave && d in At(dependents, last)
    && forall x :: x in wave && d in At(dependents, x) ==> x.value <= last.value
  }

  /** A freed document is in next once for each listing under each occurrence of the last one it waited for. */
  ghost predicate Tallied(wave: seq<Id>, dependents: map<Id, seq<Id>>, remaining: map<Id, set<Id>>, next: seq<Id>) {
    forall d, last :: d in remaining && remaining[d] == {} && LastTouch(wave, dependents, d, last) ==>
      multiset(next)[d] == multiset(wave)[last] * Listings(dependents, last, d)
  }

  /** The wave is sorted, lies before all that depends on it, and is still owed to that. */
  ghost predicate InTurn(
    wave: seq<Id>, dependents: map<Id, seq<Id>>, remaining0: map<Id, set<Id>>, processed0: set<Id>)
  {
    Ahead(wave, dependents, processed0) && InIdOrder(wave) && Owed(wave, dependents, remaining0)
  }

  /** The occurrences of the greatest so far. */
  lemma LastSoFar(wave: seq<Id>, i: nat, dependents: map<Id, seq<Id>>, d: Id, last: Id)
    requires i < |wave| && InIdOrder(wave) && LastTouch(wave[..i + 1], dependents, d, last)
    ensures d in At(dependents, wave[i]) ==> last == wave[i]
    ensures d !in At(dependents, wave[i]) ==> last != wave[i] && LastTouch(wave[..i], dependents, d, last)
    ensures last == wave[i] && last in wave[..i] ==> LastTouch(wave[..i], dependents, d, last)
    ensures multiset(wave[..i + 1])[last] == multiset(wave[..i])[last] + if last == wave[i] then 1 else 0
  {
    TakeSnoc(wave, i);
    assert last in wave[..i + 1] && wave[i] in wave[..i + 1];
    var k :| 0 <= k < i + 1 && wave[k] == last;
    assert forall x :: x in wave[..i] ==> x in wave[..i + 1];
  }

  lemma OneMore(n: nat, more: nat)
    ensures (n + 1) * more == n * more + more
  {
  }

  /** d waits for nothing but the member at hand, which comes up for the first time. */
  lemma TallyFirst(
    wave: seq<Id>, i: nat, dependents: map<Id, seq<Id>>, remaining0: map<Id, set<Id>>, remaining1: map<Id, set<Id>>,
    next: seq<Id>, d: Id)
    requires i < |wave| && Owed(wave, dependents, remaining0) && wave[i] !in wave[..i] && d in At(dependents, wave[i])
    requires Struck(wave[..i], dependents, remaining0, remaining1) && Frees(wave[..i], dependents, remaining1, next)
    ensures multiset(next)[d] == 0 && multiset(wave[..i])[wave[i]] == 0
  {
    assert wave[i] in wave;
    assert wave[i] in remaining1[d] && d !in next;
  }

  /** ... or has come up before. */
  lemma TallyAgain(
    wave: seq<Id>, i: nat, dependents: map<Id, seq<Id>>, remaining0: map<Id, set<Id>>, remaining1: map<Id, set<Id>>,
    next: seq<Id>, d: Id)
    requires i < |wave| && wave[i] in wave[..i] && d in At(dependents, wave[i])
    requires Struck(wave[..i], dependents, remaining0, remaining1) && Tallied(wave[..i], dependents, remaining1, next)
    requires d in remaining1 && remaining1[d] - {wave[i]} == {} && LastTouch(wave[..i], dependents, d, wave[i])
    ensures multiset(next)[d] == multiset(wave[..i])[wave[i]] * Listings(dependents, wave[i], d)
  {
    assert wave[i] !in remaining1[d] && remaining1[d] == {};
  }

  lemma TallyOne(
    wave: seq<Id>, i: nat, dependents: map<Id, seq<Id>>, processed0: set<Id>, remaining0: map<Id, set<Id>>,
    remaining1: map<Id, set<Id>>, left: set<Id>, next: seq<Id>, d: Id, last: Id)
    requires i < |wave| && InTurn(wave, dependents, remaining0, processed0)
    requires Struck(wave[..i], dependents, remaining0, remaining1) && Frees(wave[..i], dependents, remaining1, next)
    requires Tallied(wave[..i], dependents, remaining1, next)
    requires d in remaining1 && left == {} && LastTouch(wave[..i + 1], dependents, d, last)
    requires left == if d in At(dependents, wave[i]) then remaining1[d] - {wave[i]} else remaining1[d]
    ensures multiset(next)[d] + Listings(dependents, wave[i], d) ==
      multiset(wave[..i + 1])[last] * Listings(dependents, last, d)
  {
    LastSoFar(wave, i, dependents, d, last);
    ListedIff(dependents, wave[i], d);
    if d in At(dependents, wave[i]) {
      if wave[i] in wave[..i] {
        TallyAgain(wave, i, dependents, remaining0, remaining1, next, d);
      } else {
        TallyFirst(wave, i, dependents, remaining0, remaining1, next, d);
      }
      OneMore(multiset(wave[..i])[last], Listings(dependents, last, d));
    }
  }

  lemma NotFinished(wave: seq<Id>, i: nat, dependents: map<Id, seq<Id>>, processed0: set<Id>, d: Id, last: Id)
    requires i <= |wave| && Ahead(wave, dependents, processed0) && last in wave[..i] && d in At(dependents, last)
    ensures d !in processed0 + Elems(wave[..i])
  {
    assert last in wave && d !in wave;
  }

  lemma CountConcat(s: seq<Id>, t: seq<Id>, x: Id)
    ensures multiset(s + t)[x] == multiset(s)[x] + multiset(t)[x]
  {
  }

  lemma TallyNext(
    wave: seq<Id>, i: nat, dependents: map<Id, seq<Id>>, processed0: set<Id>, remaining0: map<Id, set<Id>>,
    remaining1: map<Id, set<Id>>, remaining2: map<Id, set<Id>>, processed1: set<Id>, next: seq<Id>, added: seq<Id>)
    requires i < |wave| && InTurn(wave, dependents, remaining0, processed0) && processed1 == processed0 + Elems(wave[..i + 1])
    requires Struck(wave[..i], dependents, remaining0, remaining1) && Frees(wave[..i], dependents, remaining1, next)
    requires Tallied(wave[..i], dependents, remaining1, next)
    requires Strikes(wave[i], At(dependents, wave[i]), remaining1, remaining2)
    requires Adds(At(dependents, wave[i]), remaining2, processed1, added)
    ensures Tallied(wave[..i + 1], dependents, remaining2, next + added)
  {
    forall d, last | d in remaining2 && remaining2[d] == {} && LastTouch(wave[..i + 1], dependents, d, last)
      ensures multiset(next + added)[d] == multiset(wave[..i + 1])[last] * Listings(dependents, last, d)
    {
      NotFinished(wave, i + 1, dependents, processed0, d, last);
      CountConcat(next, added, d);
      assert multiset(added)[d] == Listings(dependents, wave[i], d);
      TallyOne(wave, i, dependents, processed0, remaining0, remaining1, remaining2[d], next, d, last);
    }
  }

  /** Where a wave stands after its first i members. */
  ghost predicate MidWave(
    wave: seq<Id>, i: nat, dependents: map<Id, seq<Id>>, remaining0: map<Id, set<Id>>, processed0: set<Id>,
    remaining: map<Id, set<Id>>, processed: set<Id>, next: seq<Id>)
    requires i <= |wave|
  {
    && processed == processed0 + Elems(wave[..i])
    && Struck(wave[..i], dependents, remaining0, remaining)
    && Elems(next) <= remaining.Keys
    && (Elems(wave) <= processed0 ==> Elems(next) !! processed0)
    && (Ahead(wave, dependents, processed0) ==> Frees(wave[..i], dependents, remaining, next))
    && (InTurn(wave, dependents, remaining0, processed0) ==> Tallied(wave[..i], dependents, remaining, next))
  }

  lemma MidWaveNext(
    wave: seq<Id>, i: nat, dependents: map<Id, seq<Id>>, remaining0: map<Id, set<Id>>, processed0: set<Id>,
    remaining1: map<Id, set<Id>>, processed1: set<Id>, next: seq<Id>, remaining2: map<Id, set<Id>>, added: seq<Id>)
    requires i < |wave| && MidWave(wave, i, dependents, remaining0, processed0, remaining1, processed1, next)
    requires forall d :: d in At(dependents, wave[i]) ==> d in remaining0
    requires Strikes(wave[i], At(dependents, wave[i]), remaining1, remaining2)
    requires Adds(At(dependents, wave[i]), remaining2, processed1 + {wave[i]}, added)
    ensures MidWave(wave, i + 1, dependents, remaining0, processed0, remaining2, processed1 + {wave[i]}, next + added)
  {
    TakeSnoc(wave, i);
    ElemsSnoc(wave[..i], wave[i]);
    AddsMembers(At(dependents, wave[i]), remaining2, processed1 + {wave[i]}, added);
    if Ahead(wave, dependents, processed0) {
      FreesNext(wave, i, dependents, processed0, remaining0, remaining1, remaining2, next, added);
      if InTurn(wave, dependents, remaining0, processed0) {
        TallyNext(wave, i, dependents, processed0, remaining0, remaining1, remaining2, processed1 + {wave[i]}, next, added);
      }
    }
  }

  lemma MidWaveInit(wave: seq<Id>, dependents: map<Id, seq<Id>>, remaining0: map<Id, set<Id>>, processed0: set<Id>)
    ensures MidWave(wave, 0, dependents, remaining0, processed0, remaining0, processed0, [])
  {
    assert wave[..0] == [];
  }

  /** One member of a wave. */
  method FinishMember(
    wave: seq<Id>, i: nat, ghost remaining0: map<Id, set<Id>>, dependents: map<Id, seq<Id>>, ghost processed0: set<Id>,
    remaining1: map<Id, set<Id>>, processed1: set<Id>, next1: seq<Id>)
    returns (remaining: map<Id, set<Id>>, processed: set<Id>, next: seq<Id>)
    requires i < |wave| && MidWave(wave, i, dependents, remaining0, processed0, remaining1, processed1, next1)
    requires forall d :: d in At(dependents, wave[i]) ==> d in remaining0
    ensures MidWave(wave, i + 1, dependents, remaining0, processed0, remaining, processed, next)
  {
    var id, added := wave[i], [];
    processed := processed1 + {id};
    remaining, added := ReleaseDependents(id, At(dependents, id), remaining1, processed);
    MidWaveNext(wave, i, dependents, remaining0, processed0, remaining1, processed1, next1, remaining, added);
    next := next1 + added;
  }

  /** One wave: every member is processed and struck from what its dependents wait for. */
  method RunWave(wave: seq<Id>, remaining0: map<Id, set<Id>>, dependents: map<Id, seq<Id>>, processed0: set<Id>)
    returns (remaining: map<Id, set<Id>>, processed: set<Id>, next: seq<Id>)
    requires forall x, d :: x in wave && d in At(dependents, x) ==> d in remaining0
    ensures MidWave(wave, |wave|, dependents, remaining0, processed0, remaining, processed, next)
  {
    remaining, processed, next := remaining0, processed0, [];
    MidWaveInit(wave, dependents, remaining0, processed0);
    var i := 0;
    while i < |wave|
      invariant 0 <= i <= |wave|
      invariant MidWave(wave, i, dependents, remaining0, processed0, remaining, processed, next)
    {
      assert wave[i] in wave;
      remaining, processed, next := FinishMember(wave, i, remaining0, dependents, processed0, remaining, processed, next);
      i := i + 1;
    }
  }

  // ---- Sorting -----------------------------------------------------------------------------------

  function Insert(s: seq<Id>, x: Id): (r: seq<Id>)
    ensures multiset(r) == multiset(s) + multiset{x}
  {
    if s == [] then [x]
    else if s[|s| - 1].value <= x.value then s + [x]
    else
      InitLast(s);
      Insert(s[..|s| - 1], x) + [s[|s| - 1]]
  }

  function Arranged(s: seq<Id>): (r: seq<Id>)
    ensures multiset(r) == multiset(s)
  {
    if s == [] then []
    else
      InitLast(s);
      Insert(Arranged(s[..|s| - 1]), s[|s| - 1])
  }

  lemma InsertMember(s: seq<Id>, x: Id, y: Id)
    requires y in Insert(s, x)
    ensures y in s || y == x
  {
    assert y in multiset(Insert(s, x));
  }

  lemma {:induction false} InsertKeepsOrder(s: seq<Id>, x: Id)
    requires InIdOrder(s)
    ensures InIdOrder(Insert(s, x))
  {
    if s != [] && s[|s| - 1].value > x.value {
      var init, last := s[..|s| - 1], s[|s| - 1];
      InsertKeepsOrder(init, x);
      forall y | y in Insert(init, x)
        ensures y.value <= last.value
      {
        InsertMember(init, x, y);
      }
    } else if s != [] {
      assert forall k :: 0 <= k < |s| ==> s[k].value <= s[|s| - 1].value;
    }
  }

  /** The sorted list. */
  lemma {:induction false} ArrangedInOrder(s: seq<Id>)
    ensures InIdOrder(Arranged(s)) && Elems(Arranged(s)) == Elems(s)
  {
    if s != [] {
      ArrangedInOrder(s[..|s| - 1]);
      InsertKeepsOrder(Arranged(s[..|s| - 1]), s[|s| - 1]);
    }
    forall x
      ensures x in Arranged(s) <==> x in s
    {
      assert x in Arranged(s) <==> x in multiset(Arranged(s));
      assert x in s <==> x in multiset(s);
    }
  }

  /** A document is listed under each selected dependency as often as it names it. */
  ghost predicate Counts(docs: seq<Document>, ids: set<Id>, dependents: map<Id, seq<Id>>) {
    forall d, x :: d in docs && x in ids ==> Listings(dependents, x, d.id) == multiset(d.dependsOn)[x]
  }

  /** The registration loop of waves, for the first i documents. */
  ghost predicate Registered(
    docs: seq<Document>, ids: set<Id>, i: nat, remaining: map<Id, set<Id>>, dependents: map<Id, seq<Id>>)
    requires i <= |docs|
  {
    && remaining.Keys == Ids(docs[..i])
    && Lists(Relation(docs[..i], ids), dependents)
    && (forall x, d :: d in At(dependents, x) ==> d in remaining)
    && (DistinctIds(docs) ==> Remains(Relation(docs[..i], ids), Ids(docs[..i]), remaining, {}))
    && (DistinctIds(docs) ==> Counts(docs[..i], ids, dependents))
  }

  lemma IdsTake(docs: seq<Document>, i: nat)
    requires i < |docs|
    ensures Ids(docs[..i + 1]) == Ids(docs[..i]) + {docs[i].id}
    ensures DistinctIds(docs) ==> docs[i].id !in Ids(docs[..i])
  {
    forall x
      ensures x in Ids(docs[..i + 1]) <==> x in Ids(docs[..i]) || x == docs[i].id
    {
      if x in Ids(docs[..i]) {
        var j :| 0 <= j < i && docs[..i][j].id == x;
        assert docs[..i + 1][j].id == x;
      }
      assert docs[..i + 1][i] == docs[i];
    }
  }

  lemma NamesTake(docs: seq<Document>, i: nat, dep: Id, id: Id)
    requires i < |docs|
    ensures Names(docs[..i + 1], dep, id) <==> Names(docs[..i], dep, id) || (id == docs[i].id && dep in docs[i].dependsOn)
  {
    TakeSnoc(docs, i);
    if Names(docs[..i], dep, id) {
      var d :| d in docs[..i] && d.id == id && dep in d.dependsOn;
      assert d in docs[..i + 1];
    }
    assert docs[i] in docs[..i + 1];
  }

  lemma NamesHasId(docs: seq<Document>, dep: Id, id: Id)
    requires Names(docs, dep, id)
    ensures id in Ids(docs)
  {
    var d :| d in docs && d.id == id;
    var i :| 0 <= i < |docs| && docs[i] == d;
  }

  /** Document i adds exactly the pairs of its own dependencies. */
  ghost predicate RelationGrows(rel: set<(Id, Id)>, rel': set<(Id, Id)>, id: Id, deps: set<Id>) {
    forall x, y {:trigger (x, y) in rel'} {:trigger (x, y) in rel} ::
      (x, y) in rel' <==> (x, y) in rel || (y == id && x in deps)
  }

  lemma RelationTake(docs: seq<Document>, ids: set<Id>, i: nat, deps: set<Id>)
    requires i < |docs| && forall x :: x in deps <==> x in docs[i].dependsOn && x in ids
    ensures RelationGrows(Relation(docs[..i], ids), Relation(docs[..i + 1], ids), docs[i].id, deps)
  {
    forall x, y
      ensures (x, y) in Relation(docs[..i + 1], ids) <==>
        (x, y) in Relation(docs[..i], ids) || (y == docs[i].id && x in deps)
    {
      NamesTake(docs, i, x, y);
    }
  }

  lemma RemainsGrows(
    rel: set<(Id, Id)>, rel': set<(Id, Id)>, ids: set<Id>, remaining: map<Id, set<Id>>, id: Id, deps: set<Id>)
    requires RelationGrows(rel, rel', id, deps) && Remains(rel, ids, remaining, {})
    requires forall x :: (x, id) !in rel
    ensures Remains(rel', ids + {id}, remaining[id := deps], {})
  {
  }

  lemma ListsGrow(
    rel: set<(Id, Id)>, rel': set<(Id, Id)>, dependents: map<Id, seq<Id>>, dependents': map<Id, seq<Id>>, doc: Document,
    ids: set<Id>, deps: set<Id>)
    requires RelationGrows(rel, rel', doc.id, deps) && Lists(rel, dependents)
    requires Listed(dependents, dependents', doc.id, doc.dependsOn, ids)
    requires forall x :: x in deps <==> x in doc.dependsOn && x in ids
    ensures Lists(rel', dependents')
  {
    forall x, y
      ensures y in At(dependents', x) <==> (x, y) in rel'
    {
      ListedIff(dependents, x, y);
      ListedIff(dependents', x, y);
      assert x in doc.dependsOn <==> multiset(doc.dependsOn)[x] > 0;
    }
  }

  lemma CountsGrow(
    docs: seq<Document>, ids: set<Id>, i: nat, rel: set<(Id, Id)>, dependents: map<Id, seq<Id>>,
    dependents': map<Id, seq<Id>>)
    requires i < |docs| && DistinctIds(docs) && Counts(docs[..i], ids, dependents)
    requires Lists(rel, dependents) && forall x :: (x, docs[i].id) !in rel
    requires Listed(dependents, dependents', docs[i].id, docs[i].dependsOn, ids)
    ensures Counts(docs[..i + 1], ids, dependents')
  {
    TakeSnoc(docs, i);
    forall d, x | d in docs[..i + 1] && x in ids
      ensures Listings(dependents', x, d.id) == multiset(d.dependsOn)[x]
    {
      ListedIff(dependents, x, docs[i].id);
      if d in docs[..i] {
        var j :| 0 <= j < i && docs[j] == d;
        assert docs[j].id != docs[i].id;
      }
    }
  }

  lemma RegisterNext(
    docs: seq<Document>, byID: map<Id, Document>, i: nat, remaining: map<Id, set<Id>>, dependents: map<Id, seq<Id>>,
    deps: set<Id>, dependents': map<Id, seq<Id>>)
    requires i < |docs| && Registered(docs, byID.Keys, i, remaining, dependents)
    requires forall x :: x in deps <==> x in docs[i].dependsOn && x in byID
    requires Listed(dependents, dependents', docs[i].id, docs[i].dependsOn, byID.Keys)
    ensures Registered(docs, byID.Keys, i + 1, remaining[docs[i].id := deps], dependents')
  {
    var rel, rel', id := Relation(docs[..i], byID.Keys), Relation(docs[..i + 1], byID.Keys), docs[i].id;
    IdsTake(docs, i);
    RelationTake(docs, byID.Keys, i, deps);
    ListsGrow(rel, rel', dependents, dependents', docs[i], byID.Keys, deps);
    StillKnown(docs, byID.Keys, i, remaining, dependents');
    if DistinctIds(docs) {
      NotNamedYet(docs, byID.Keys, i);
      RemainsGrows(rel, rel', Ids(docs[..i]), remaining, id, deps);
      CountsGrow(docs, byID.Keys, i, rel, dependents, dependents');
    }
  }

  lemma StillKnown(docs: seq<Document>, ids: set<Id>, i: nat, remaining: map<Id, set<Id>>, dependents: map<Id, seq<Id>>)
    requires i < |docs| && remaining.Keys == Ids(docs[..i]) && Lists(Relation(docs[..i + 1], ids), dependents)
    ensures forall x, d :: d in At(dependents, x) ==> d in remaining || d == docs[i].id
  {
    IdsTake(docs, i);
    forall x, d | d in At(dependents, x)
      ensures d in remaining || d == docs[i].id
    {
      NamesHasId(docs[..i + 1], x, d);
    }
  }

  lemma NotNamedYet(docs: seq<Document>, ids: set<Id>, i: nat)
    requires i < |docs| && DistinctIds(docs)
    ensures forall x :: (x, docs[i].id) !in Relation(docs[..i], ids)
  {
    IdsTake(docs, i);
    forall x
      ensures (x, docs[i].id) !in Relation(docs[..i], ids)
    {
      if Names(docs[..i], x, docs[i].id) {
        NamesHasId(docs[..i], x, docs[i].id);
      }
    }
  }

  /** remainingDeps and dependents. */
  method RegisterAll(docs: seq<Document>, byID: map<Id, Document>)
    returns (remaining: map<Id, set<Id>>, dependents: map<Id, seq<Id>>)
    ensures Registered(docs, byID.Keys, |docs|, remaining, dependents)
  {
    remaining, dependents := map[], map[];
    NothingRegistered(docs, byID.Keys);
    var i := 0;
    while i < |docs|
      invariant 0 <= i <= |docs|
      invariant Registered(docs, byID.Keys, i, remaining, dependents)
    {
      var deps, dependents' := Register(docs[i], byID, dependents);
      RegisterNext(docs, byID, i, remaining, dependents, deps, dependents');
      remaining, dependents := remaining[docs[i].id := deps], dependents';
      i := i + 1;
    }
  }

  lemma NothingRegistered(docs: seq<Document>, ids: set<Id>)
    ensures Registered(docs, ids, 0, map[], map[])
  {
    assert docs[..0] == [];
    var rel := Relation(docs[..0], ids);
    forall x, y
      ensures (x, y) !in rel
    {
      assert !Names(docs[..0], x, y);
    }
  }

  // ---- The waves -----------------------------------------------------------------------------

  /** What the outer loop keeps, for documents with distinct IDs. */
  ghost predicate Waving(
    rel: set<(Id, Id)>, ids: set<Id>, out: seq<seq<Id>>, ready: seq<Id>, remaining: map<Id, set<Id>>,
    processed: set<Id>)
  {
    && processed == Settled(rel, ids, |out|)
    && Remains(rel, ids, remaining, processed)
    && LevelsSoFar(rel, ids, out)
    && Elems(ready) == Level(rel, ids, |out|)
  }

  /** last is the greatest of the given IDs that d depends on. */
  ghost predicate LastDep(d: Document, ids: set<Id>, last: Id) {
    last in d.dependsOn && last in ids && forall x :: x in d.dependsOn && x in ids ==> x.value <= last.value
  }

  /** How often the document is in the wave: once for each time it names the last dependency it waited for, under
      each occurrence of that. */
  ghost predicate Multiplied(d: Document, wave: seq<Id>, next: seq<Id>) {
    forall last :: d.id in next && LastDep(d, Elems(wave), last) ==>
      multiset(next)[d.id] == multiset(wave)[last] * multiset(d.dependsOn)[last]
  }

  ghost predicate Multiplicities(docs: seq<Document>, out: seq<seq<Id>>) {
    && (forall k :: 0 <= k < |out| ==> InIdOrder(out[k]))
    && (out != [] ==> Distinct(out[0]))
    && forall k, d :: 0 < k < |out| && d in docs ==> Multiplied(d, out[k - 1], out[k])
  }

  lemma AheadOfWave(
    rel: set<(Id, Id)>, ids: set<Id>, k: nat, wave: seq<Id>, dependents: map<Id, seq<Id>>,
    remaining: map<Id, set<Id>>)
    requires Within(rel, ids) && Lists(rel, dependents) && Elems(wave) == Level(rel, ids, k)
    requires Remains(rel, ids, remaining, Settled(rel, ids, k))
    ensures Ahead(wave, dependents, Settled(rel, ids, k)) && Owed(wave, dependents, remaining)
  {
    SettledGrows(rel, ids, k);
    forall x, d | x in wave && d in At(dependents, x)
      ensures d !in Settled(rel, ids, k) && d !in wave && d in remaining && x in remaining[d]
    {
      assert x in Elems(wave) && (x, d) in rel;
      assert x !in Settled(rel, ids, k);
      assert d !in Settled(rel, ids, k + 1);
      assert d in wave ==> d in Elems(wave);
    }
  }

  lemma LevelAfterWave(
    rel: set<(Id, Id)>, ids: set<Id>, k: nat, wave: seq<Id>, dependents: map<Id, seq<Id>>,
    remaining0: map<Id, set<Id>>, remaining: map<Id, set<Id>>, next: seq<Id>)
    requires Within(rel, ids) && Lists(rel, dependents) && Elems(wave) == Level(rel, ids, k)
    requires Remains(rel, ids, remaining0, Settled(rel, ids, k)) && Struck(wave, dependents, remaining0, remaining)
    requires Frees(wave, dependents, remaining, next)
    ensures Remains(rel, ids, remaining, Settled(rel, ids, k + 1))
    ensures Elems(next) == Level(rel, ids, k + 1)
  {
    var settled, settled' := Settled(rel, ids, k), Settled(rel, ids, k + 1);
    SettledGrows(rel, ids, k);
    forall d, u | d in ids
      ensures u in remaining[d] <==> (u, d) in rel && u !in settled'
    {
      assert u in wave <==> u in Elems(wave);
      assert (u, d) in rel ==> u in ids;
    }
    forall d
      ensures d in Elems(next) <==> d in Level(rel, ids, k + 1)
    {
      if d in ids {
        assert remaining[d] == {} <==> forall u :: u !in remaining[d];
        assert PredsIn(rel, d, settled') <==> forall u :: (u, d) in rel ==> u in settled';
        assert Touched(wave, dependents, d) <==> exists u :: u in wave && (u, d) in rel;
        assert forall u :: u in wave <==> u in Elems(wave);
      }
    }
  }

  ghost predicate LevelsSoFar(rel: set<(Id, Id)>, ids: set<Id>, out: seq<seq<Id>>) {
    forall k :: 0 <= k < |out| ==> Elems(out[k]) == Level(rel, ids, k)
  }

  lemma LevelsSnoc(rel: set<(Id, Id)>, ids: set<Id>, out: seq<seq<Id>>, wave: seq<Id>)
    requires LevelsSoFar(rel, ids, out) && Elems(wave) == Level(rel, ids, |out|)
    ensures LevelsSoFar(rel, ids, out + [wave])
  {
  }

  lemma SettledPlusLevel(rel: set<(Id, Id)>, ids: set<Id>, k: nat)
    ensures Settled(rel, ids, k) + Level(rel, ids, k) == Settled(rel, ids, k + 1)
  {
    SettledGrows(rel, ids, k);
  }

  /** The outer loop takes one more wave. */
  lemma WavingNext(
    rel: set<(Id, Id)>, ids: set<Id>, out: seq<seq<Id>>, wave: seq<Id>, dependents: map<Id, seq<Id>>,
    remaining0: map<Id, set<Id>>, processed0: set<Id>, remaining: map<Id, set<Id>>, processed: set<Id>, next: seq<Id>)
    requires Within(rel, ids) && Lists(rel, dependents) && Waving(rel, ids, out, wave, remaining0, processed0)
    requires MidWave(wave, |wave|, dependents, remaining0, processed0, remaining, processed, next)
    ensures Waving(rel, ids, out + [wave], next, remaining, processed)
    ensures InIdOrder(wave) ==> Tallied(wave, dependents, remaining, next) && Frees(wave, dependents, remaining, next)
  {
    assert wave[..|wave|] == wave;
    AheadOfWave(rel, ids, |out|, wave, dependents, remaining0);
    LevelAfterWave(rel, ids, |out|, wave, dependents, remaining0, remaining, next);
    SettledPlusLevel(rel, ids, |out|);
    LevelsSnoc(rel, ids, out, wave);
  }

  /** The result for documents with distinct IDs: wave k holds exactly level k, and cyclic holds what
      no wave does. */
  ghost predicate AreWaves(docs: seq<Document>, out: seq<seq<Id>>, cyclic: seq<Id>) {
    var rel, ids := Depends(docs), Ids(docs);
    && (forall k :: 0 <= k < |out| ==> Elems(out[k]) == Level(rel, ids, k) && out[k] != [])
    && Settled(rel, ids, |out|) == Settled(rel, ids, |ids|)
    && Elems(cyclic) == ids - Settled(rel, ids, |out|)
  }

  lemma InitialLevel(rel: set<(Id, Id)>, ids: set<Id>, remaining: map<Id, set<Id>>, ready: seq<Id>)
    requires Remains(rel, ids, remaining, {})
    requires forall x :: x in ready <==> x in remaining && remaining[x] == {}
    ensures Waving(rel, ids, [], ready, remaining, {})
  {
    forall x
      ensures x in Elems(ready) <==> x in Level(rel, ids, 0)
    {
      if x in ids {
        assert remaining[x] == {} <==> forall u :: u !in remaining[x];
        assert PredsIn(rel, x, {}) <==> forall u :: (u, x) !in rel;
      }
    }
  }

  /** With nothing ready, every later round is the same. */
  lemma WavesStop(rel: set<(Id, Id)>, ids: set<Id>, k: nat)
    requires Within(rel, ids) && Level(rel, ids, k) == {}
    ensures Settled(rel, ids, k) == Settled(rel, ids, |ids|)
  {
    SettledGrows(rel, ids, k);
    forall x | x in Settled(rel, ids, k + 1)
      ensures x in Settled(rel, ids, k)
    {
      assert x !in Level(rel, ids, k);
    }
    if k <= |ids| {
      SettledStops(rel, ids, k, |ids|);
    } else {
      SettledMono(rel, ids, |ids|, k);
      forall x | x in Settled(rel, ids, k)
        ensures x in Settled(rel, ids, |ids|)
      {
        NeverSettledIff(rel, ids, x);
      }
    }
  }

  /** What the outer loop keeps on any list of documents. */
  ghost predicate Going(
    docs: seq<Document>, dependents: map<Id, seq<Id>>, out: seq<seq<Id>>, ready: seq<Id>,
    remaining: map<Id, set<Id>>, processed: set<Id>)
  {
    && remaining.Keys == Ids(docs) && Elems(ready) <= Ids(docs) && processed <= Ids(docs)
    && (forall x, d :: d in At(dependents, x) ==> d in remaining)
    && (forall k :: 0 <= k < |out| ==> out[k] != [])
    && (DistinctIds(docs) ==>
          Lists(Depends(docs), dependents) && Waving(Depends(docs), Ids(docs), out, ready, remaining, processed))
    && (DistinctIds(docs) ==> Counts(docs, Ids(docs), dependents) && Multiplicities(docs, out + [ready]))
  }

  lemma TallyMultiplied(
    docs: seq<Document>, dependents: map<Id, seq<Id>>, wave: seq<Id>, remaining: map<Id, set<Id>>, next: seq<Id>,
    ready: seq<Id>, d: Document)
    requires Counts(docs, Ids(docs), dependents) && d in docs && Elems(wave) <= Ids(docs)
    requires Tallied(wave, dependents, remaining, next) && Frees(wave, dependents, remaining, next)
    requires multiset(ready) == multiset(next)
    ensures Multiplied(d, wave, ready)
  {
    forall last | d.id in ready && LastDep(d, Elems(wave), last)
      ensures multiset(ready)[d.id] == multiset(wave)[last] * multiset(d.dependsOn)[last]
    {
      assert multiset(ready)[d.id] > 0;
      assert d.id in next;
      forall x | x in wave
        ensures d.id in At(dependents, x) <==> x in d.dependsOn
      {
        assert x in Elems(wave) && Listings(dependents, x, d.id) == multiset(d.dependsOn)[x];
        ListedIff(dependents, x, d.id);
        assert x in d.dependsOn <==> multiset(d.dependsOn)[x] > 0;
      }
      assert forall x :: x in wave ==> x in Elems(wave);
      assert LastTouch(wave, dependents, d.id, last);
    }
  }

  lemma MultiplicitiesSnoc(docs: seq<Document>, out: seq<seq<Id>>, wave: seq<Id>, ready: seq<Id>)
    requires Multiplicities(docs, out + [wave]) && InIdOrder(ready)
    requires forall d :: d in docs ==> Multiplied(d, wave, ready)
    ensures Multiplicities(docs, out + [wave] + [ready])
  {
    var was, now := out + [wave], out + [wave] + [ready];
    assert forall k :: 0 <= k < |was| ==> now[k] == was[k];
    forall k, d | 0 < k < |now| && d in docs
      ensures Multiplied(d, now[k - 1], now[k])
    {
      if k < |was| {
        assert Multiplied(d, was[k - 1], was[k]);
      } else {
        assert now[k - 1] == wave && now[k] == ready;
      }
    }
  }

  lemma GoingNext(
    docs: seq<Document>, dependents: map<Id, seq<Id>>, out: seq<seq<Id>>, wave: seq<Id>,
    remaining0: map<Id, set<Id>>, processed0: set<Id>, remaining: map<Id, set<Id>>, processed: set<Id>, next: seq<Id>)
    requires Going(docs, dependents, out, wave, remaining0, processed0) && wave != []
    requires MidWave(wave, |wave|, dependents, remaining0, processed0, remaining, processed, next)
    ensures Going(docs, dependents, out + [wave], Arranged(next), remaining, processed)
  {
    DependsWithin(docs);
    assert wave[..|wave|] == wave;
    ArrangedInOrder(next);
    if DistinctIds(docs) {
      WavingNext(Depends(docs), Ids(docs), out, wave, dependents, remaining0, processed0, remaining, processed, next);
      assert (out + [wave])[|out|] == wave;
      forall d | d in docs
        ensures Multiplied(d, wave, Arranged(next))
      {
        TallyMultiplied(docs, dependents, wave, remaining, next, Arranged(next), d);
      }
      MultiplicitiesSnoc(docs, out, wave, Arranged(next));
    }
  }

  /** One round of the outer loop. */
  method NextWave(
    ghost docs: seq<Document>, dependents: map<Id, seq<Id>>, ghost out: seq<seq<Id>>, wave: seq<Id>,
    remaining0: map<Id, set<Id>>, processed0: set<Id>)
    returns (remaining: map<Id, set<Id>>, processed: set<Id>, ready: seq<Id>)
    requires Going(docs, dependents, out, wave, remaining0, processed0) && wave != []
    ensures Going(docs, dependents, out + [wave], ready, remaining, processed)
    ensures processed == processed0 + Elems(wave)
    ensures Elems(wave) <= processed0 ==> Elems(ready) !! processed
  {
    var next;
    remaining, processed, next := RunWave(wave, remaining0, dependents, processed0);
    GoingNext(docs, dependents, out, wave, remaining0, processed0, remaining, processed, next);
    ready := Arranged(next);
    ArrangedInOrder(next);
    assert wave[..|wave|] == wave;
  }

  lemma GoingInit(docs: seq<Document>, dependents: map<Id, seq<Id>>, ready: seq<Id>, remaining: map<Id, set<Id>>)
    requires Registered(docs, Ids(docs), |docs|, remaining, dependents) && Distinct(ready) && InIdOrder(ready)
    requires forall x :: x in ready <==> x in remaining && remaining[x] == {}
    ensures Going(docs, dependents, [], ready, remaining, {})
  {
    assert docs[..|docs|] == docs;
    if DistinctIds(docs) {
      InitialLevel(Depends(docs), Ids(docs), remaining, ready);
      assert [] + [ready] == [ready];
    }
  }

  lemma MultiplicitiesInit(docs: seq<Document>, out: seq<seq<Id>>, ready: seq<Id>)
    requires Multiplicities(docs, out + [ready])
    ensures Multiplicities(docs, out)
  {
    var more := out + [ready];
    assert forall k :: 0 <= k < |out| ==> out[k] == more[k];
    forall k, d | 0 < k < |out| && d in docs
      ensures Multiplied(d, out[k - 1], out[k])
    {
      assert Multiplied(d, more[k - 1], more[k]);
    }
  }

  lemma GoingEnds(
    docs: seq<Document>, dependents: map<Id, seq<Id>>, out: seq<seq<Id>>, remaining: map<Id, set<Id>>,
    processed: set<Id>, cyclic: seq<Id>)
    requires Going(docs, dependents, out, [], remaining, processed) && Elems(cyclic) == remaining.Keys - processed
    ensures DistinctIds(docs) ==> AreWaves(docs, out, cyclic) && Multiplicities(docs, out)
  {
    if DistinctIds(docs) {
      MultiplicitiesInit(docs, out, []);
      DependsWithin(docs);
      var nothing: seq<Id> := [];
      assert Elems(nothing) == {};
      WavesStop(Depends(docs), Ids(docs), |out|);
    }
  }

  /** waves: total on every list of documents; for distinct IDs it computes the levels. */
  method ComputeWaves(docs: seq<Document>, byID: map<Id, Document>) returns (out: seq<seq<Id>>, cyclic: seq<Id>)
    requires byID.Keys == Ids(docs)
    ensures DistinctIds(docs) ==> AreWaves(docs, out, cyclic) && Multiplicities(docs, out)
    ensures InIdOrder(cyclic)
  {
    var remaining, dependents := RegisterAll(docs, byID);
    var ready := NothingLeft(remaining);
    GoingInit(docs, dependents, ready, remaining);
    out := [];
    var processed: set<Id> := {};
    while ready != []
      invariant Going(docs, dependents, out, ready, remaining, processed)
      decreases Ids(docs) - processed, if ready != [] && Elems(ready) <= processed then 1 else 0
    {
      var wave := ready;
      ghost var before := processed;
      remaining, processed, ready := NextWave(docs, dependents, out, wave, remaining, processed);
      out := out + [wave];
      MoreProcessed(Ids(docs), before, wave, processed, ready);
    }
    cyclic := [];
    if |processed| != |remaining| {
      cyclic := Unprocessed(remaining, processed);
      ArrangedInOrder(cyclic);
      cyclic := Arranged(cyclic);
    } else {
      SubsetSize(processed, remaining.Keys);
      assert |remaining| == |remaining.Keys|;
    }
    GoingEnds(docs, dependents, out, remaining, processed, cyclic);
  }

  /** Each round processes something new, or leaves only unprocessed documents for the next. */
  lemma MoreProcessed(ids: set<Id>, before: set<Id>, wave: seq<Id>, processed: set<Id>, ready: seq<Id>)
    requires before <= ids && Elems(wave) <= ids && processed == before + Elems(wave)
    requires Elems(wave) <= before ==> Elems(ready) !! processed
    ensures ids - processed < ids - before
      || (ids - processed == ids - before && Elems(wave) <= before && !(ready != [] && Elems(ready) <= processed))
  {
    if Elems(wave) <= before {
      assert processed == before;
      if ready != [] {
        assert ready[0] in Elems(ready);
      }
    } else {
      var x :| x in Elems(wave) && x !in before;
      assert x in ids - before && x !in ids - processed;
    }
  }

  /** The documents without dependencies, sorted. */
  method NothingLeft(remaining: map<Id, set<Id>>) returns (ready: seq<Id>)
    ensures Distinct(ready) && InIdOrder(ready) && forall x :: x in ready <==> x in remaining && remaining[x] == {}
  {
    ready := [];
    var todo := remaining.Keys;
    while todo != {}
      invariant todo <= remaining.Keys
      invariant Distinct(ready) && forall x :: x in ready <==> x in remaining && x !in todo && remaining[x] == {}
    {
      var id :| id in todo;
      if remaining[id] == {} {
        ElemsSnoc(ready, id);
        ready := ready + [id];
      }
      todo := todo - {id};
    }
    ArrangedInOrder(ready);
    Dag.DistinctPermutation(ready, Arranged(ready));
    assert forall x :: x in ready <==> x in multiset(ready);
    ready := Arranged(ready);
  }

  method Unprocessed(remaining: map<Id, set<Id>>, processed: set<Id>) returns (ids: seq<Id>)
    ensures Elems(ids) == remaining.Keys - processed
  {
    ids := [];
    var todo := remaining.Keys;
    while todo != {}
      invariant todo <= remaining.Keys
      invariant Elems(ids) == remaining.Keys - todo - processed
    {
      var id :| id in todo;
      todo := todo - {id};
      if id !in processed {
        ElemsSnoc(ids, id);
        ids := ids + [id];
      }
    }
  }

  // ---- The selection -----------------------------------------------------------------------------

  /** Every dependency of every document is among the documents. */
  ghost predicate AllPresent(docs: seq<Document>) {
    forall d, dep :: d in docs && dep in d.dependsOn ==> dep in Ids(docs)
  }

  ghost predicate IsIndex(docs: seq<Document>, byID: map<Id, Document>) {
    byID.Keys == Ids(docs) && forall x :: x in byID ==> byID[x] in docs && byID[x].id == x
  }

  lemma IndexNext(docs: seq<Document>, byID: map<Id, Document>, i: nat)
    requires i < |docs| && IsIndex(docs[..i], byID)
    ensures IsIndex(docs[..i + 1], if docs[i].id in byID then byID else byID[docs[i].id := docs[i]])
    ensures DistinctIds(docs[..i + 1]) <==> DistinctIds(docs[..i]) && docs[i].id !in byID
  {
    IdsTake(docs, i);
    TakeSnoc(docs, i);
    DistinctIdsTake(docs, i);
  }

  /** Two documents have this ID. */
  ghost predicate Repeated(docs: seq<Document>, x: Id) {
    exists i, j :: 0 <= i < j < |docs| && docs[i].id == x && docs[j].id == x
  }

  lemma RepeatedTake(docs: seq<Document>, i: nat, x: Id)
    requires i < |docs|
    ensures Repeated(docs[..i + 1], x) <==> Repeated(docs[..i], x) || (x == docs[i].id && x in Ids(docs[..i]))
  {
    var more, fewer := docs[..i + 1], docs[..i];
    assert more[i] == docs[i] && forall j :: 0 <= j < i ==> more[j] == fewer[j];
    if j, k :| 0 <= j < k < |fewer| && fewer[j].id == x && fewer[k].id == x {
      assert more[j].id == x && more[k].id == x;
    }
    if x == docs[i].id && x in Ids(fewer) {
      var j :| 0 <= j < |fewer| && fewer[j].id == x;
      assert more[j].id == x && more[i].id == x;
    }
  }

  ghost predicate Duplicates(docs: seq<Document>, diagnostics: seq<Diagnostic>) {
    forall q :: q in diagnostics <==> q.DuplicatePlanId? && Repeated(docs, q.id)
  }

  lemma DuplicatesNext(docs: seq<Document>, i: nat, diagnostics: seq<Diagnostic>, known: bool)
    requires i < |docs| && Duplicates(docs[..i], diagnostics) && (known <==> docs[i].id in Ids(docs[..i]))
    ensures Duplicates(docs[..i + 1], if known then diagnostics + [DuplicatePlanId(docs[i].id)] else diagnostics)
  {
    var next := if known then diagnostics + [DuplicatePlanId(docs[i].id)] else diagnostics;
    forall q
      ensures q in next <==> q.DuplicatePlanId? && Repeated(docs[..i + 1], q.id)
    {
      if q.DuplicatePlanId? {
        RepeatedTake(docs, i, q.id);
      }
    }
  }

  lemma NoDuplicatesIff(docs: seq<Document>, diagnostics: seq<Diagnostic>)
    requires Duplicates(docs, diagnostics)
    ensures diagnostics == [] <==> DistinctIds(docs)
  {
    if diagnostics != [] {
      assert diagnostics[0] in diagnostics;
    }
    if i, j :| 0 <= i < j < |docs| && docs[i].id == docs[j].id {
      assert Repeated(docs, docs[i].id);
      assert DuplicatePlanId(docs[i].id) in diagnostics;
    }
  }

  /** byID keeps the first document of each ID; the IDs of the others are reported. */
  method IndexDocuments(docs: seq<Document>) returns (byID: map<Id, Document>, diagnostics: seq<Diagnostic>)
    ensures IsIndex(docs, byID) && Duplicates(docs, diagnostics)
  {
    byID, diagnostics := map[], [];
    var i := 0;
    while i < |docs|
      invariant 0 <= i <= |docs|
      invariant IsIndex(docs[..i], byID) && Duplicates(docs[..i], diagnostics)
    {
      IndexNext(docs, byID, i);
      DuplicatesNext(docs, i, diagnostics, docs[i].id in byID);
      if docs[i].id in byID {
        diagnostics := diagnostics + [DuplicatePlanId(docs[i].id)];
      } else {
        byID := byID[docs[i].id := docs[i]];
      }
      i := i + 1;
    }
    assert docs[..i] == docs;
  }

  lemma DistinctIdsTake(docs: seq<Document>, i: nat)
    requires i < |docs|
    ensures DistinctIds(docs[..i + 1]) <==> DistinctIds(docs[..i]) && docs[i].id !in Ids(docs[..i])
  {
    var more, fewer := docs[..i + 1], docs[..i];
    assert more[i] == docs[i] && forall j :: 0 <= j < i ==> more[j] == fewer[j];
    if docs[i].id in Ids(fewer) {
      var j :| 0 <= j < |fewer| && fewer[j].id == docs[i].id;
      assert more[j].id == more[i].id;
    }
    if DistinctIds(more) {
      forall j, k | 0 <= j < k < |fewer|
        ensures fewer[j].id != fewer[k].id
      {
        assert more[j].id != more[k].id;
      }
    }
  }

  ghost predicate Missing(docs: seq<Document>, ids: set<Id>, diagnostics: seq<Diagnostic>) {
    forall q :: q in diagnostics <==> q.MissingDependency? && Names(docs, q.dep, q.id) && q.dep !in ids
  }

  lemma MissingNext(docs: seq<Document>, ids: set<Id>, i: nat, diagnostics: seq<Diagnostic>, found: seq<Diagnostic>)
    requires i < |docs| && Missing(docs[..i], ids, diagnostics)
    requires forall q :: q in found <==>
      q.MissingDependency? && q.id == docs[i].id && q.dep in docs[i].dependsOn && q.dep !in ids
    ensures Missing(docs[..i + 1], ids, diagnostics + found)
  {
    forall q
      ensures q in diagnostics + found <==> q.MissingDependency? && Names(docs[..i + 1], q.dep, q.id) && q.dep !in ids
    {
      if q.MissingDependency? {
        NamesTake(docs, i, q.dep, q.id);
      }
    }
  }

  lemma NoMissingIff(docs: seq<Document>, diagnostics: seq<Diagnostic>)
    requires Missing(docs, Ids(docs), diagnostics)
    ensures diagnostics == [] <==> AllPresent(docs)
  {
    if diagnostics != [] {
      assert diagnostics[0] in diagnostics;
    }
    if d, dep :| d in docs && dep in d.dependsOn && dep !in Ids(docs) {
      assert Names(docs, dep, d.id);
      assert MissingDependency(d.id, dep) in diagnostics;
    }
  }

  /** The missing dependencies of the documents. */
  method FindMissing(docs: seq<Document>, byID: map<Id, Document>) returns (diagnostics: seq<Diagnostic>)
    ensures Missing(docs, byID.Keys, diagnostics)
  {
    diagnostics := [];
    var i := 0;
    while i < |docs|
      invariant 0 <= i <= |docs| && Missing(docs[..i], byID.Keys, diagnostics)
    {
      var found := MissingOf(docs[i], byID);
      MissingNext(docs, byID.Keys, i, diagnostics, found);
      diagnostics := diagnostics + found;
      i := i + 1;
    }
    assert docs[..i] == docs;
  }

  method MissingOf(doc: Document, byID: map<Id, Document>) returns (diagnostics: seq<Diagnostic>)
    ensures forall q :: q in diagnostics <==>
      q.MissingDependency? && q.id == doc.id && q.dep in doc.dependsOn && q.dep !in byID
  {
    diagnostics := [];
    var j := 0;
    while j < |doc.dependsOn|
      invariant 0 <= j <= |doc.dependsOn|
      invariant forall q :: q in diagnostics <==>
        q.MissingDependency? && q.id == doc.id && q.dep in doc.dependsOn[..j] && q.dep !in byID
    {
      TakeSnoc(doc.dependsOn, j);
      if doc.dependsOn[j] !in byID {
        diagnostics := diagnostics + [MissingDependency(doc.id, doc.dependsOn[j])];
      }
      j := j + 1;
    }
    assert doc.dependsOn[..j] == doc.dependsOn;
  }

  function CycleDiagnostics(ids: seq<Id>): (r: seq<Diagnostic>)
    ensures |r| == |ids| && forall i :: 0 <= i < |ids| ==> r[i] == DependencyCycle(ids[i])
  {
    seq(|ids|, i requires 0 <= i < |ids| => DependencyCycle(ids[i]))
  }

  /** A selection has no diagnostics exactly when the IDs are distinct, every dependency is selected and no
      document depends on itself. Each diagnostic is there exactly when what it says is so. */
  method BuildSelection(docs: seq<Document>)
    returns (out: seq<seq<Id>>, diagnostics: seq<Diagnostic>, cyclic: seq<Id>)
    ensures diagnostics == [] <==> DistinctIds(docs) && AllPresent(docs) && Acyclic(Depends(docs))
    ensures forall x :: DuplicatePlanId(x) in diagnostics <==> Repeated(docs, x)
    ensures forall x, dep :: MissingDependency(x, dep) in diagnostics <==> Names(docs, dep, x) && dep !in Ids(docs)
    ensures forall x :: DependencyCycle(x) in diagnostics <==> x in cyclic
    ensures DistinctIds(docs) ==> AreWaves(docs, out, cyclic) && Multiplicities(docs, out)
  {
    var byID, duplicates := IndexDocuments(docs);
    NoDuplicatesIff(docs, duplicates);
    var missing := FindMissing(docs, byID);
    NoMissingIff(docs, missing);
    out, cyclic := ComputeWaves(docs, byID);
    if DistinctIds(docs) {
      NoCycleReportedIff(docs, out, cyclic);
    }
    var cycles := CycleDiagnostics(cyclic);
    CyclesReported(cyclic, cycles);
    diagnostics := duplicates + missing + cycles;
  }

  lemma CyclesReported(ids: seq<Id>, cycles: seq<Diagnostic>)
    requires cycles == CycleDiagnostics(ids)
    ensures forall q :: q in cycles <==> q.DependencyCycle? && q.id in ids
  {
    forall x | x in ids
      ensures DependencyCycle(x) in cycles
    {
      var i :| 0 <= i < |ids| && ids[i] == x;
      assert cycles[i] in cycles;
    }
  }

  // ---- What the waves mean -------------------------------------------------------------------------

  /** The wave of a document is the length of its longest chain of selected dependencies. */
  lemma WaveIsLongestChain(docs: seq<Document>, out: seq<seq<Id>>, cyclic: seq<Id>, x: Id, k: nat)
    requires DistinctIds(docs) && AreWaves(docs, out, cyclic) && x in Ids(docs)
    ensures k < |out| && x in out[k] <==> HasChain(Depends(docs), x, k + 1) && !HasChain(Depends(docs), x, k + 2)
  {
    var rel, ids := Depends(docs), Ids(docs);
    DependsWithin(docs);
    LevelIsLongestChain(rel, ids, x, k);
    if k < |out| {
      assert x in out[k] <==> x in Elems(out[k]);
    } else {
      LateLevel(rel, ids, x, k, |out|);
    }
  }

  lemma LateLevel(rel: set<(Id, Id)>, ids: set<Id>, x: Id, k: nat, n: nat)
    requires Within(rel, ids) && n <= k && Settled(rel, ids, n) == Settled(rel, ids, |ids|)
    ensures x !in Level(rel, ids, k)
  {
    SettledMono(rel, ids, n, k);
    if x in ids {
      NeverSettledIff(rel, ids, x);
    }
  }

  /** No document is in two waves. */
  lemma InOneWave(docs: seq<Document>, out: seq<seq<Id>>, cyclic: seq<Id>, x: Id, j: nat, k: nat)
    requires AreWaves(docs, out, cyclic) && j < |out| && k < |out| && x in out[j] && x in out[k]
    ensures j == k
  {
    var rel, ids := Depends(docs), Ids(docs);
    assert x in Elems(out[j]) && x in Elems(out[k]);
    if j < k {
      SettledMono(rel, ids, j + 1, k);
    } else if k < j {
      SettledMono(rel, ids, k + 1, j);
    }
  }

  /** The documents in no wave are those that depend, directly or not, on a cycle; they are the ones
      reported. */
  lemma InNoWaveIff(docs: seq<Document>, out: seq<seq<Id>>, cyclic: seq<Id>, x: Id)
    requires DistinctIds(docs) && AreWaves(docs, out, cyclic) && x in Ids(docs)
    ensures (forall k :: 0 <= k < |out| ==> x !in out[k]) <==> BehindCycle(Depends(docs), x)
    ensures x in cyclic <==> BehindCycle(Depends(docs), x)
  {
    var rel, ids := Depends(docs), Ids(docs);
    DependsWithin(docs);
    NeverSettledIff(rel, ids, x);
    assert x in cyclic <==> x in Elems(cyclic);
    if x in Settled(rel, ids, |out|) {
      var k := FirstSettled(rel, ids, x, |out|);
      assert x in Elems(out[k]);
    } else {
      forall k | 0 <= k < |out|
        ensures x !in out[k]
      {
        SettledMono(rel, ids, k + 1, |out|);
        assert x in out[k] ==> x in Elems(out[k]);
      }
    }
  }

  lemma {:induction false} FirstSettled(rel: set<(Id, Id)>, ids: set<Id>, x: Id, n: nat) returns (k: nat)
    requires x in Settled(rel, ids, n)
    ensures k < n && x in Level(rel, ids, k)
    decreases n
  {
    if x in Settled(rel, ids, n - 1) {
      k := FirstSettled(rel, ids, x, n - 1);
    } else {
      k := n - 1;
    }
  }

  /** A cycle is reported exactly when there is one. */
  lemma NoCycleReportedIff(docs: seq<Document>, out: seq<seq<Id>>, cyclic: seq<Id>)
    requires DistinctIds(docs) && AreWaves(docs, out, cyclic)
    ensures cyclic == [] <==> Acyclic(Depends(docs))
  {
    DependsWithin(docs);
    AllSettledIffAcyclic(Depends(docs), Ids(docs));
    var settled, ids := Settled(Depends(docs), Ids(docs), |out|), Ids(docs);
    if cyclic == [] {
      assert forall x :: x in ids ==> x !in ids - settled;
      assert settled == ids;
    } else {
      assert cyclic[0] in Elems(cyclic);
      assert cyclic[0] in ids && cyclic[0] !in settled;
    }
  }

  /** Every selected dependency of a document is in an earlier wave. */
  lemma DependencyInEarlierWave(docs: seq<Document>, out: seq<seq<Id>>, cyclic: seq<Id>, x: Id, k: nat, dep: Id)
    returns (j: nat)
    requires AreWaves(docs, out, cyclic) && k < |out| && x in out[k] && (dep, x) in Depends(docs)
    ensures j < k && dep in out[j]
  {
    var rel, ids := Depends(docs), Ids(docs);
    assert x in Elems(out[k]);
    assert dep in Settled(rel, ids, k);
    j := FirstSettled(rel, ids, dep, k);
    assert dep in Elems(out[j]);
  }

  lemma NotInSameWave(docs: seq<Document>, out: seq<seq<Id>>, cyclic: seq<Id>, x: Id, k: nat, dep: Id)
    requires AreWaves(docs, out, cyclic) && k < |out| && x in out[k] && Names(docs, dep, x)
    ensures dep !in out[k]
  {
    if dep in Ids(docs) {
      var j := DependencyInEarlierWave(docs, out, cyclic, x, k, dep);
      if dep in out[k] {
        InOneWave(docs, out, cyclic, dep, j, k);
      }
    }
    assert dep in Elems(out[k]) ==> dep in Ids(docs);
  }

  // ---- Plans that come up twice in a wave --------------------------------------------------------

  /** The greatest of some dependencies. */
  lemma {:induction false} GreatestOf(list: seq<Id>, ids: set<Id>, some: Id) returns (last: Id)
    requires some in list && some in ids
    ensures last in list && last in ids && forall x :: x in list && x in ids ==> x.value <= last.value
    decreases |list|
  {
    var init, end := list[..|list| - 1], list[|list| - 1];
    InitLast(list);
    if x :| x in init && x in ids {
      last := GreatestOf(init, ids, x);
      if end in ids && end.value > last.value {
        last := end;
      }
    } else {
      last := end;
    }
  }

  /** A document below the first level depends on one of the level before. */
  lemma DependsOnLevel(docs: seq<Document>, d: Document, k: nat) returns (last: Id)
    requires DistinctIds(docs) && d in docs && d.id in Level(Depends(docs), Ids(docs), k + 1)
    ensures LastDep(d, Level(Depends(docs), Ids(docs), k), last)
  {
    var rel, ids := Depends(docs), Ids(docs);
    assert d.id in ids && !PredsIn(rel, d.id, Settled(rel, ids, k)) && PredsIn(rel, d.id, Settled(rel, ids, k + 1));
    var x :| (x, d.id) in rel && x !in Settled(rel, ids, k);
    OwnDependency(docs, d, x);
    last := GreatestOf(d.dependsOn, Level(rel, ids, k), x);
  }

  lemma OwnDependency(docs: seq<Document>, d: Document, x: Id)
    requires DistinctIds(docs) && d in docs && Names(docs, x, d.id)
    ensures x in d.dependsOn
  {
    var e :| e in docs && e.id == d.id && x in e.dependsOn;
    var i :| 0 <= i < |docs| && docs[i] == d;
    var j :| 0 <= j < |docs| && docs[j] == e;
    SameDocument(docs, i, j);
  }

  lemma SameDocument(docs: seq<Document>, i: nat, j: nat)
    requires DistinctIds(docs) && i < |docs| && j < |docs| && docs[i].id == docs[j].id
    ensures i == j
  {
  }

  /** Of the dependencies on the level just before its own, the document names the greatest once. */
  ghost predicate LastNamedOnce(docs: seq<Document>, d: Document, k: nat) {
    forall last :: d.id in Level(Depends(docs), Ids(docs), k + 1) && LastDep(d, Level(Depends(docs), Ids(docs), k), last)
      ==> multiset(d.dependsOn)[last] == 1
  }

  lemma OnceEachIff(s: seq<Id>)
    ensures Distinct(s) <==> forall x :: x in s ==> multiset(s)[x] == 1
  {
    if Distinct(s) {
      forall x | x in s
        ensures multiset(s)[x] == 1
      {
        Dag.DistinctOccursOnce(s, x);
        assert x in multiset(s);
      }
    } else {
      var i, j :| 0 <= i < j < |s| && s[i] == s[j];
      Dag.RepeatCount(s, i, j);
    }
  }

  /** Wave k + 1 has no repeats, given that wave k has none. */
  lemma NextWaveDistinctIff(docs: seq<Document>, out: seq<seq<Id>>, cyclic: seq<Id>, k: nat)
    requires DistinctIds(docs) && AreWaves(docs, out, cyclic) && Multiplicities(docs, out)
    requires k + 1 < |out| && Distinct(out[k])
    ensures Distinct(out[k + 1]) <==> forall d :: d in docs ==> LastNamedOnce(docs, d, k)
  {
    var next := k + 1;
    OnceEachIff(out[k]);
    OnceEachIff(out[next]);
    assert Elems(out[k]) == Level(Depends(docs), Ids(docs), k);
    assert Elems(out[next]) == Level(Depends(docs), Ids(docs), k + 1);
    forall d, last | d in docs && d.id in out[next] && LastDep(d, Elems(out[k]), last)
      ensures multiset(out[next])[d.id] == multiset(d.dependsOn)[last]
    {
      assert Multiplied(d, out[k], out[next]);
      assert multiset(out[k])[last] == 1;
    }
    forall x | x in out[next]
      ensures exists d :: d in docs && d.id == x && exists last :: LastDep(d, Elems(out[k]), last)
    {
      assert x in Elems(out[next]);
      var i :| 0 <= i < |docs| && docs[i].id == x;
      var last := DependsOnLevel(docs, docs[i], k);
    }
    assert forall x :: x in out[next] <==> x in Elems(out[next]);
  }

  lemma DistinctWavesNameOnce(docs: seq<Document>, out: seq<seq<Id>>, cyclic: seq<Id>, d: Document, k: nat)
    requires DistinctIds(docs) && AreWaves(docs, out, cyclic) && Multiplicities(docs, out) && d in docs
    requires forall j :: 0 <= j < |out| ==> Distinct(out[j])
    ensures LastNamedOnce(docs, d, k)
  {
    if k + 1 < |out| {
      NextWaveDistinctIff(docs, out, cyclic, k);
    } else {
      DependsWithin(docs);
      LateLevel(Depends(docs), Ids(docs), d.id, k + 1, |out|);
    }
  }

  /** No wave lists a document twice exactly when each document names once the greatest of its dependencies on
      the level just before its own. */
  lemma EveryWaveDistinctIff(docs: seq<Document>, out: seq<seq<Id>>, cyclic: seq<Id>)
    requires DistinctIds(docs) && AreWaves(docs, out, cyclic) && Multiplicities(docs, out)
    ensures (forall k :: 0 <= k < |out| ==> Distinct(out[k]))
      <==> forall d, k: nat :: d in docs ==> LastNamedOnce(docs, d, k)
  {
    if forall k :: 0 <= k < |out| ==> Distinct(out[k]) {
      forall d, k: nat | d in docs
        ensures LastNamedOnce(docs, d, k)
      {
        DistinctWavesNameOnce(docs, out, cyclic, d, k);
      }
    }
    if forall d, k: nat :: d in docs ==> LastNamedOnce(docs, d, k) {
      forall k | 0 <= k < |out|
        ensures Distinct(out[k])
      {
        WaveDistinct(docs, out, cyclic, k);
      }
    }
  }

  lemma {:induction false} WaveDistinct(docs: seq<Document>, out: seq<seq<Id>>, cyclic: seq<Id>, k: nat)
    requires DistinctIds(docs) && AreWaves(docs, out, cyclic) && Multiplicities(docs, out) && k < |out|
    requires forall d, j: nat :: d in docs ==> LastNamedOnce(docs, d, j)
    ensures Distinct(out[k])
    decreases k
  {
    if k > 0 {
      WaveDistinct(docs, out, cyclic, k - 1);
      NextWaveDistinctIff(docs, out, cyclic, k - 1);
    }
  }

  /** In particular when no document names a dependency twice. */
  lemma NoRepeatsDistinct(docs: seq<Document>, out: seq<seq<Id>>, cyclic: seq<Id>)
    requires DistinctIds(docs) && NoRepeats(docs) && AreWaves(docs, out, cyclic) && Multiplicities(docs, out)
    ensures forall k :: 0 <= k < |out| ==> Distinct(out[k])
  {
    forall d, k: nat | d in docs
      ensures LastNamedOnce(docs, d, k)
    {
      forall last | LastDep(d, Level(Depends(docs), Ids(docs), k), last)
        ensures multiset(d.dependsOn)[last] == 1
      {
        OnceEachIff(d.dependsOn);
      }
    }
    EveryWaveDistinctIff(docs, out, cyclic);
  }

  /** A document that names its one dependency twice is run twice. */
  lemma NamedTwiceListedTwice(x: Id, d: Id, hash: nat, out: seq<seq<Id>>, cyclic: seq<Id>)
    requires x != d
    requires var docs := [Document(x, [], hash), Document(d, [x, x], hash)];
      AreWaves(docs, out, cyclic) && Multiplicities(docs, out)
    ensures out == [[x], [d, d]] && cyclic == []
  {
    var docs := [Document(x, [], hash), Document(d, [x, x], hash)];
    TwoLevels(docs, x, d, hash);
    TwoWaves(docs, out, cyclic, x, d);
    assert docs[1] in docs && LastDep(docs[1], Elems(out[0]), x);
    CopiesOf(out[0], x);
    CopiesOf(out[1], d);
    OnceEachIff(out[0]);
    assert x in Elems(out[0]) && d in Elems(out[1]);
    assert Multiplied(docs[1], out[0], out[1]);
    assert multiset([x, x])[x] == 2;
    assert out[0] == [x] && out[1] == [d, d];
    NonemptyHas(cyclic);
  }

  lemma NonemptyHas(s: seq<Id>)
    ensures s != [] ==> Elems(s) != {}
  {
    if s != [] {
      assert s[0] in Elems(s);
    }
  }

  lemma TwoWaves(docs: seq<Document>, out: seq<seq<Id>>, cyclic: seq<Id>, x: Id, d: Id)
    requires x != d && Ids(docs) == {x, d} && AreWaves(docs, out, cyclic)
    requires Settled(Depends(docs), Ids(docs), 1) == {x} && Settled(Depends(docs), Ids(docs), 2) == {x, d}
    ensures |out| == 2 && Elems(out[0]) == {x} && Elems(out[1]) == {d} && Elems(cyclic) == {}
  {
    var rel, ids := Depends(docs), Ids(docs);
    assert Settled(rel, ids, 0) == {};
    assert |{x, d}| == 2;
    if |out| > 2 {
      SettledMono(rel, ids, 2, 3);
      assert Elems(out[2]) == Level(rel, ids, 2) == {};
      NonemptyHas(out[2]);
      assert false;
    }
    assert |out| != 0 && |out| != 1;
    assert Elems(out[0]) == Level(rel, ids, 0) && Elems(out[1]) == Level(rel, ids, 1);
  }

  lemma TwoLevels(docs: seq<Document>, x: Id, d: Id, hash: nat)
    requires x != d && docs == [Document(x, [], hash), Document(d, [x, x], hash)]
    ensures DistinctIds(docs) && Ids(docs) == {x, d}
    ensures Settled(Depends(docs), Ids(docs), 1) == {x} && Settled(Depends(docs), Ids(docs), 2) == {x, d}
  {
    var rel := Depends(docs);
    assert docs[0].id == x && docs[1].id == d;
    forall u, v
      ensures (u, v) in rel <==> u == x && v == d
    {
      assert docs[1] in docs && x in docs[1].dependsOn;
      assert Names(docs, u, v) <==> u == x && v == d;
    }
    OnlyPair(rel, x, d);
    assert Settled(rel, Ids(docs), 0) == {};
    assert Settled(rel, Ids(docs), 1) == {x};
  }

  lemma OnlyPair(rel: set<(Id, Id)>, x: Id, d: Id)
    requires x != d && forall u, v :: (u, v) in rel <==> u == x && v == d
    ensures PredsIn(rel, x, {}) && !PredsIn(rel, d, {}) && PredsIn(rel, x, {x}) && PredsIn(rel, d, {x})
  {
    assert (x, d) in rel;
  }

  lemma {:induction false} CopiesOf(s: seq<Id>, x: Id)
    requires Elems(s) <= {x}
    ensures multiset(s)[x] == |s| && forall i :: 0 <= i < |s| ==> s[i] == x
  {
    if s != [] {
      var init := s[..|s| - 1];
      InitLast(s);
      ElemsSnoc(init, s[|s| - 1]);
      CopiesOf(init, x);
      CountSnoc(init, s[|s| - 1], x);
      assert s[|s| - 1] in Elems(s);
    }
  }
}
