/** internal/plan/status.go: the status of each Plan, derived wave by wave from the ledgers. */
module Status {
  import opened Digraph
  import opened Waves

  datatype Status =
    Ready | Planned | Blocked | InvalidLedger | Stale | Implemented | Pending | InProgress | Failed | Unknown

  datatype Evidence = Evidence(hasId: bool, hasKind: bool)

  /** hashTagged says that the hash carries the sha256 prefix. */
  datatype Ledger = Ledger(
    schemaCurrent: bool, hasId: bool, planId: Id, status: Status, hashTagged: bool, hash: nat, recorded: bool,
    evidence: seq<Evidence>)

  datatype Problem =
    | BadSchema | MissingLedgerId | PlanMismatch(planId: Id) | BadStatus | BadHash | NotRecorded
    | MissingEvidenceId(index: nat) | MissingEvidenceKind(index: nat)

  /** A status record: the Plan, its status, and what is wrong with its ledger. */
  datatype Record = Record(id: Id, status: Status, problems: seq<Problem>)

  // ---- Ledgers -------------------------------------------------------------------------

  predicate Supported(status: Status) {
    status.Pending? || status.InProgress? || status.Implemented? || status.Failed?
  }

  predicate IsValid(doc: Document, ledger: Ledger) {
    && ledger.schemaCurrent && ledger.hasId && ledger.planId == doc.id && Supported(ledger.status)
    && ledger.hashTagged && ledger.recorded
    && forall e :: e in ledger.evidence ==> e.hasId && e.hasKind
  }

  /** The ledger has this problem. */
  predicate Has(doc: Document, ledger: Ledger, problem: Problem) {
    match problem
    case BadSchema => !ledger.schemaCurrent
    case MissingLedgerId => !ledger.hasId
    case PlanMismatch(planId) => ledger.planId != doc.id && planId == ledger.planId
    case BadStatus => !Supported(ledger.status)
    case BadHash => !ledger.hashTagged
    case NotRecorded => !ledger.recorded
    case MissingEvidenceId(_) => Lacks(ledger.evidence, problem)
    case MissingEvidenceKind(_) => Lacks(ledger.evidence, problem)
  }

  predicate Lacks(evidence: seq<Evidence>, problem: Problem) {
    match problem
    case MissingEvidenceId(i) => i < |evidence| && !evidence[i].hasId
    case MissingEvidenceKind(i) => i < |evidence| && !evidence[i].hasKind
    case _ => false
  }

  lemma NoProblemIff(doc: Document, ledger: Ledger, problems: seq<Problem>)
    requires forall q :: q in problems <==> Has(doc, ledger, q)
    ensures problems == [] <==> IsValid(doc, ledger)
  {
    if problems == [] {
      assert !Has(doc, ledger, BadSchema) && !Has(doc, ledger, MissingLedgerId) && !Has(doc, ledger, BadStatus);
      assert !Has(doc, ledger, PlanMismatch(ledger.planId)) && !Has(doc, ledger, BadHash);
      assert !Has(doc, ledger, NotRecorded);
      forall e | e in ledger.evidence
        ensures e.hasId && e.hasKind
      {
        var i :| 0 <= i < |ledger.evidence| && ledger.evidence[i] == e;
        assert !Has(doc, ledger, MissingEvidenceId(i)) && !Has(doc, ledger, MissingEvidenceKind(i));
      }
    } else {
      assert Has(doc, ledger, problems[0]);
    }
  }

  /** The problems reported are those the ledger has; there are none exactly for a valid ledger. */
  method ValidateLedger(doc: Document, ledger: Ledger) returns (problems: seq<Problem>)
    ensures forall q :: q in problems <==> Has(doc, ledger, q)
    ensures problems == [] <==> IsValid(doc, ledger)
  {
    problems := [];
    if !ledger.schemaCurrent {
      problems := problems + [BadSchema];
    }
    if !ledger.hasId {
      problems := problems + [MissingLedgerId];
    }
    if ledger.planId != doc.id {
      problems := problems + [PlanMismatch(ledger.planId)];
    }
    if !Supported(ledger.status) {
      problems := problems + [BadStatus];
    }
    if !ledger.hashTagged {
      problems := problems + [BadHash];
    }
    if !ledger.recorded {
      problems := problems + [NotRecorded];
    }
    var found := ValidateEvidence(ledger.evidence);
    problems := problems + found;
    NoProblemIff(doc, ledger, problems);
  }

  method ValidateEvidence(evidence: seq<Evidence>) returns (problems: seq<Problem>)
    ensures forall q :: q in problems <==> Lacks(evidence, q)
  {
    problems := [];
    var i := 0;
    while i < |evidence|
      invariant 0 <= i <= |evidence|
      invariant forall q :: q in problems <==> Lacks(evidence[..i], q)
    {
      if !evidence[i].hasId {
        problems := problems + [MissingEvidenceId(i)];
      }
      if !evidence[i].hasKind {
        problems := problems + [MissingEvidenceKind(i)];
      }
      i := i + 1;
    }
    assert evidence[..i] == evidence;
  }

  /** The status a ledger gives its Plan. */
  function LedgerStatus(doc: Document, ledger: Ledger): Status {
    if !IsValid(doc, ledger) then InvalidLedger
    else if ledger.status.Implemented? then (if ledger.hash == doc.hash then Implemented else Stale)
    else ledger.status
  }

  // ---- Statuses without a ledger ----------------------------------------------------------

  /** A status that blocks the Plans depending on it. */
  predicate Blocks(status: Status) {
    status.Blocked? || status.InvalidLedger? || status.Stale?
  }

  ghost predicate IsChain(byID: map<Id, Document>, ledgers: map<Id, Ledger>, r: set<(Id, Id)>) {
    forall dep, id {:trigger (dep, id) in r} ::
      (dep, id) in r <==> id in byID && id !in ledgers && dep in byID && dep in byID[id].dependsOn
  }

  /** (dep, id) when id has no ledger and depends on dep. */
  ghost function Chain(byID: map<Id, Document>, ledgers: map<Id, Ledger>): (r: set<(Id, Id)>)
    ensures IsChain(byID, ledgers, r)
  {
    assert IsChain(byID, ledgers,
                   set id, dep | id in byID && id !in ledgers && dep in byID[id].dependsOn && dep in byID :: (dep, id));
    var r :| IsChain(byID, ledgers, r);
    r
  }

  /** A Plan whose own ledger is stale or invalid. */
  ghost predicate Taints(byID: map<Id, Document>, ledgers: map<Id, Ledger>, y: Id) {
    y in byID && y in ledgers && Blocks(LedgerStatus(byID[y], ledgers[y]))
  }

  /** A chain of Plans without ledgers leads from x to a Plan whose ledger is stale or invalid. */
  ghost predicate LeadsToTaint(byID: map<Id, Document>, ledgers: map<Id, Ledger>, x: Id) {
    exists y :: Taints(byID, ledgers, y) && Reach(Chain(byID, ledgers), y, x)
  }

  ghost function StatusOf(byID: map<Id, Document>, ledgers: map<Id, Ledger>, x: Id): Status
    requires x in byID
  {
    if x in ledgers then LedgerStatus(byID[x], ledgers[x])
    else if byID[x].dependsOn == [] then Ready
    else if LeadsToTaint(byID, ledgers, x) then Blocked
    else Planned
  }

  // ---- The loops ---------------------------------------------------------------------------

  /** The dependency at hand has a status that blocks; an unknown dependency has none. */
  predicate BlockedBy(statuses: map<Id, Status>, dep: Id) {
    dep in statuses && Blocks(statuses[dep])
  }

  /** The statuses known so far are right. */
  ghost predicate Derived(byID: map<Id, Document>, ledgers: map<Id, Ledger>, statuses: map<Id, Status>) {
    forall x :: x in statuses ==> x in byID && statuses[x] == StatusOf(byID, ledgers, x)
  }

  /** The status of a Plan without a ledger that has dependencies. */
  method FromDependencies(doc: Document, statuses: map<Id, Status>) returns (status: Status)
    ensures status == Blocked || status == Planned
    ensures status == Blocked <==> exists dep :: dep in doc.dependsOn && BlockedBy(statuses, dep)
  {
    status := Planned;
    var i := 0;
    while i < |doc.dependsOn|
      invariant 0 <= i <= |doc.dependsOn|
      invariant status == Planned && forall dep :: dep in doc.dependsOn[..i] ==> !BlockedBy(statuses, dep)
    {
      TakeSnoc(doc.dependsOn, i);
      if BlockedBy(statuses, doc.dependsOn[i]) {
        status := Blocked;
        return;
      }
      i := i + 1;
    }
    assert doc.dependsOn[..i] == doc.dependsOn;
  }

  /** With the statuses of all selected dependencies known, a chain to a tainted Plan shows at the
      first step. */
  lemma TaintShowsAtOnce(byID: map<Id, Document>, ledgers: map<Id, Ledger>, statuses: map<Id, Status>, x: Id)
    requires x in byID && x !in ledgers && Derived(byID, ledgers, statuses)
    requires forall dep :: dep in byID[x].dependsOn && dep in byID ==> dep in statuses
    ensures LeadsToTaint(byID, ledgers, x) <==> exists dep :: dep in byID[x].dependsOn && BlockedBy(statuses, dep)
  {
    var chain := Chain(byID, ledgers);
    if LeadsToTaint(byID, ledgers, x) {
      var y :| Taints(byID, ledgers, y) && Reach(chain, y, x);
      var dep := ReachLast(chain, y, x);
      if dep in ledgers && dep != y {
        var u := ReachLast(chain, y, dep);
      }
      assert dep in ledgers ==> dep == y;
      ReachRefl(chain, y);
      assert dep !in ledgers ==> LeadsToTaint(byID, ledgers, dep);
      NotReady(byID, ledgers, y, dep);
      assert BlockedBy(statuses, dep);
    }
    if dep :| dep in byID[x].dependsOn && BlockedBy(statuses, dep) {
      assert (dep, x) in chain;
      var y := dep;
      if dep !in ledgers {
        y :| Taints(byID, ledgers, y) && Reach(chain, y, dep);
      } else {
        ReachRefl(chain, dep);
      }
      ReachSnoc(chain, y, dep, x);
    }
  }

  /** A Plan without a ledger that is on such a chain has dependencies. */
  lemma NotReady(byID: map<Id, Document>, ledgers: map<Id, Ledger>, y: Id, x: Id)
    requires y in ledgers && Reach(Chain(byID, ledgers), y, x)
    ensures x !in ledgers ==> x in byID && byID[x].dependsOn != []
  {
    if x !in ledgers {
      var dep := ReachLast(Chain(byID, ledgers), y, x);
    }
  }

  /** The ledger of x has this problem. */
  ghost predicate ProblemOf(byID: map<Id, Document>, ledgers: map<Id, Ledger>, x: Id, problem: Problem)
    requires x in byID
  {
    x in ledgers && Has(byID[x], ledgers[x], problem)
  }

  method StatusOfOne(doc: Document, ledgers: map<Id, Ledger>, statuses: map<Id, Status>, ghost byID: map<Id, Document>)
    returns (status: Status, problems: seq<Problem>)
    requires doc.id in byID && byID[doc.id] == doc && Derived(byID, ledgers, statuses)
    requires forall dep :: dep in doc.dependsOn && dep in byID ==> dep in statuses
    ensures status == StatusOf(byID, ledgers, doc.id)
    ensures forall q :: q in problems <==> ProblemOf(byID, ledgers, doc.id, q)
    ensures status == InvalidLedger <==> problems != []
  {
    status, problems := Ready, [];
    if doc.id in ledgers {
      var ledger := ledgers[doc.id];
      problems := ValidateLedger(doc, ledger);
      if |problems| > 0 {
        status := InvalidLedger;
      } else if ledger.status == Implemented && ledger.hash == doc.hash {
        status := Implemented;
      } else if ledger.status == Implemented {
        status := Stale;
      } else if ledger.status == Pending || ledger.status == InProgress || ledger.status == Failed {
        status := ledger.status;
      } else {
        status, problems := InvalidLedger, [BadStatus];
      }
    } else if |doc.dependsOn| > 0 {
      TaintShowsAtOnce(byID, ledgers, statuses, doc.id);
      status := FromDependencies(doc, statuses);
    }
  }

  // ---- All waves ------------------------------------------------------------------------------

  ghost function Flatten(waves: seq<seq<Id>>): (r: seq<Id>)
    ensures forall x :: x in r <==> exists k :: 0 <= k < |waves| && x in waves[k]
  {
    if waves == [] then []
    else
      var init, last := waves[..|waves| - 1], waves[|waves| - 1];
      InitLast(waves);
      Flatten(init) + last
  }

  /** Every selected dependency of a listed Plan is listed in an earlier wave. */
  ghost predicate InDependencyOrder(byID: map<Id, Document>, waves: seq<seq<Id>>) {
    forall k, x, dep :: 0 <= k < |waves| && x in waves[k] && x in byID && dep in byID[x].dependsOn && dep in byID ==>
      dep in Flatten(waves[..k])
  }

  /** The record says what the ledgers imply for the Plan, and lists exactly the problems of its ledger. */
  ghost predicate IsRecord(byID: map<Id, Document>, ledgers: map<Id, Ledger>, id: Id, record: Record) {
    && id in byID && record.id == id && record.status == StatusOf(byID, ledgers, id)
    && forall q :: q in record.problems <==> ProblemOf(byID, ledgers, id, q)
  }

  ghost predicate Records(byID: map<Id, Document>, ledgers: map<Id, Ledger>, ids: seq<Id>, records: seq<Record>) {
    |records| == |ids| && forall i :: 0 <= i < |ids| ==> IsRecord(byID, ledgers, ids[i], records[i])
  }

  /** The records and statuses of the listed Plans so far. */
  ghost predicate SoFar(
    byID: map<Id, Document>, ledgers: map<Id, Ledger>, ids: seq<Id>, statuses: map<Id, Status>, records: seq<Record>)
  {
    && Records(byID, ledgers, ids, records)
    && Derived(byID, ledgers, statuses) && statuses.Keys == Elems(ids)
  }

  lemma SoFarNext(
    byID: map<Id, Document>, ledgers: map<Id, Ledger>, ids: seq<Id>, statuses: map<Id, Status>, records: seq<Record>,
    record: Record)
    requires SoFar(byID, ledgers, ids, statuses, records) && IsRecord(byID, ledgers, record.id, record)
    ensures SoFar(byID, ledgers, ids + [record.id], statuses[record.id := record.status], records + [record])
  {
    ElemsSnoc(ids, record.id);
  }

  lemma DependenciesListed(byID: map<Id, Document>, waves: seq<seq<Id>>, k: nat, ids: seq<Id>, x: Id)
    requires InDependencyOrder(byID, waves) && k < |waves| && x in waves[k] && x in byID
    requires forall y :: y in Flatten(waves[..k]) ==> y in ids
    ensures forall dep :: dep in byID[x].dependsOn && dep in byID ==> dep in ids
  {
  }

  /** One record for each listed Plan, in wave order, with the status that the ledgers imply and the problems of the
      Plan's ledger. */
  method DeriveStatuses(byID: map<Id, Document>, waves: seq<seq<Id>>, ledgers: map<Id, Ledger>)
    returns (records: seq<Record>)
    requires (forall x :: x in byID ==> byID[x].id == x) && (forall x :: x in Flatten(waves) ==> x in byID)
    requires InDependencyOrder(byID, waves)
    ensures Records(byID, ledgers, Flatten(waves), records)
  {
    records := [];
    var statuses: map<Id, Status> := map[];
    var k := 0;
    while k < |waves|
      invariant 0 <= k <= |waves|
      invariant SoFar(byID, ledgers, Flatten(waves[..k]), statuses, records)
    {
      FlattenTake(waves, k);
      statuses, records := DeriveWave(byID, waves, k, ledgers, statuses, records);
      k := k + 1;
    }
    assert waves[..k] == waves;
  }

  lemma FlattenTake(waves: seq<seq<Id>>, k: nat)
    requires k < |waves|
    ensures Flatten(waves[..k + 1]) == Flatten(waves[..k]) + waves[k]
  {
    assert waves[..k + 1][..k] == waves[..k];
  }

  method DeriveWave(
    byID: map<Id, Document>, waves: seq<seq<Id>>, k: nat, ledgers: map<Id, Ledger>, statuses0: map<Id, Status>,
    records0: seq<Record>)
    returns (statuses: map<Id, Status>, records: seq<Record>)
    requires k < |waves| && (forall x :: x in byID ==> byID[x].id == x) && (forall x :: x in waves[k] ==> x in byID)
    requires InDependencyOrder(byID, waves)
    requires SoFar(byID, ledgers, Flatten(waves[..k]), statuses0, records0)
    ensures SoFar(byID, ledgers, Flatten(waves[..k]) + waves[k], statuses, records)
  {
    statuses, records := statuses0, records0;
    ghost var before := Flatten(waves[..k]);
    var wave := waves[k];
    var i := 0;
    assert before + wave[..0] == before;
    while i < |wave|
      invariant 0 <= i <= |wave|
      invariant SoFar(byID, ledgers, before + wave[..i], statuses, records)
    {
      var id := wave[i];
      assert id in wave;
      assert before + wave[..i + 1] == before + wave[..i] + [id];
      DependenciesListed(byID, waves, k, before + wave[..i], id);
      var status, problems := StatusOfOne(byID[id], ledgers, statuses, byID);
      SoFarNext(byID, ledgers, before + wave[..i], statuses, records, Record(id, status, problems));
      statuses := statuses[id := status];
      records := records + [Record(id, status, problems)];
      i := i + 1;
    }
    assert wave[..i] == wave;
  }

  /** The waves of a selection satisfy what DeriveStatuses expects. */
  lemma WavesAreInOrder(docs: seq<Document>, byID: map<Id, Document>, waves: seq<seq<Id>>, cyclic: seq<Id>)
    requires DistinctIds(docs) && IsIndex(docs, byID) && AreWaves(docs, waves, cyclic)
    ensures InDependencyOrder(byID, waves) && forall x :: x in Flatten(waves) ==> x in byID
  {
    forall x | x in Flatten(waves)
      ensures x in byID
    {
      var k :| 0 <= k < |waves| && x in waves[k];
      assert x in Elems(waves[k]);
    }
    forall k, x, dep | 0 <= k < |waves| && x in waves[k] && x in byID && dep in byID[x].dependsOn && dep in byID
      ensures dep in Flatten(waves[..k])
    {
      assert Names(docs, dep, x);
      var j := DependencyInEarlierWave(docs, waves, cyclic, x, k, dep);
      assert waves[..k][j] == waves[j];
    }
  }

  // ---- What the statuses mean --------------------------------------------------------------------

  /** A listed Plan without a ledger is blocked exactly when a chain of Plans without ledgers leads from
      it to one whose ledger is stale or invalid. */
  lemma BlockedIff(byID: map<Id, Document>, ledgers: map<Id, Ledger>, ids: seq<Id>, records: seq<Record>, i: nat)
    requires Records(byID, ledgers, ids, records) && i < |ids| && ids[i] !in ledgers
    ensures records[i].status == Blocked <==> LeadsToTaint(byID, ledgers, ids[i])
  {
    if LeadsToTaint(byID, ledgers, ids[i]) {
      var y :| Taints(byID, ledgers, y) && Reach(Chain(byID, ledgers), y, ids[i]);
      NotReady(byID, ledgers, y, ids[i]);
    }
  }

  /** The ledger holds everything it must. */
  ghost predicate Sound(doc: Document, ledger: Ledger) {
    && ledger.schemaCurrent && ledger.hasId && ledger.planId == doc.id && ledger.hashTagged && ledger.recorded
    && (ledger.status == Pending || ledger.status == InProgress || ledger.status == Implemented || ledger.status == Failed)
    && forall e :: e in ledger.evidence ==> e.hasId && e.hasKind
  }

  /** What a Plan with a ledger is reported as: an unsound ledger is invalid; an implemented one counts if its hash is
      that of the document and is stale otherwise; any other status is passed on. */
  lemma LedgerDecides(byID: map<Id, Document>, ledgers: map<Id, Ledger>, ids: seq<Id>, records: seq<Record>, i: nat)
    requires Records(byID, ledgers, ids, records) && i < |ids| && ids[i] in ledgers
    ensures var doc, ledger := byID[ids[i]], ledgers[ids[i]];
      && (records[i].status == InvalidLedger <==> !Sound(doc, ledger))
      && (Sound(doc, ledger) ==>
            records[i].status ==
              if ledger.status != Implemented then ledger.status
              else if ledger.hash == doc.hash then Implemented else Stale)
      && (records[i].problems == [] <==> Sound(doc, ledger))
  {
    assert IsRecord(byID, ledgers, ids[i], records[i]);
    NoProblemIff(byID[ids[i]], ledgers[ids[i]], records[i].problems);
  }

  lemma HasFirst(problems: seq<Problem>)
    ensures problems != [] ==> exists q :: q in problems
  {
    if problems != [] {
      assert problems[0] in problems;
    }
  }

  /** What a Plan without a ledger is reported as, told by the other records: without dependencies it is ready; it is
      blocked exactly if a dependency is reported as blocked, invalid or stale; otherwise it is planned. */
  lemma RecordsDecide(byID: map<Id, Document>, ledgers: map<Id, Ledger>, ids: seq<Id>, records: seq<Record>, i: nat)
    requires Records(byID, ledgers, ids, records) && i < |ids| && ids[i] !in ledgers
    requires forall dep :: dep in byID[ids[i]].dependsOn && dep in byID ==> dep in ids
    ensures records[i].problems == []
    ensures byID[ids[i]].dependsOn == [] ==> records[i].status == Ready
    ensures byID[ids[i]].dependsOn != [] ==>
      records[i].status == if DependencyBlocks(ids, records, byID[ids[i]].dependsOn) then Blocked else Planned
  {
    var x := ids[i];
    assert IsRecord(byID, ledgers, x, records[i]);
    HasFirst(records[i].problems);
    var statuses := map y | y in Elems(ids) :: StatusAt(byID, ledgers, y);
    assert Derived(byID, ledgers, statuses) by {
      forall y | y in statuses
        ensures y in byID && statuses[y] == StatusOf(byID, ledgers, y)
      {
        var j :| 0 <= j < |ids| && ids[j] == y;
        assert IsRecord(byID, ledgers, ids[j], records[j]);
      }
    }
    TaintShowsAtOnce(byID, ledgers, statuses, x);
    BlocksIff(byID, ledgers, ids, records, statuses, byID[x].dependsOn);
  }

  ghost function StatusAt(byID: map<Id, Document>, ledgers: map<Id, Ledger>, x: Id): Status {
    if x in byID then StatusOf(byID, ledgers, x) else Unknown
  }

  /** Some record of a listed dependency says blocked, invalid or stale. */
  ghost predicate DependencyBlocks(ids: seq<Id>, records: seq<Record>, dependsOn: seq<Id>)
    requires |records| == |ids|
  {
    exists j :: 0 <= j < |ids| && ids[j] in dependsOn
      && (records[j].status == Blocked || records[j].status == InvalidLedger || records[j].status == Stale)
  }

  lemma BlocksIff(
    byID: map<Id, Document>, ledgers: map<Id, Ledger>, ids: seq<Id>, records: seq<Record>, statuses: map<Id, Status>,
    dependsOn: seq<Id>)
    requires Records(byID, ledgers, ids, records) && Derived(byID, ledgers, statuses) && statuses.Keys == Elems(ids)
    ensures DependencyBlocks(ids, records, dependsOn) <==> exists dep :: dep in dependsOn && BlockedBy(statuses, dep)
  {
    forall j | 0 <= j < |ids|
      ensures ids[j] in statuses && statuses[ids[j]] == records[j].status
    {
      assert IsRecord(byID, ledgers, ids[j], records[j]);
      assert ids[j] in Elems(ids);
    }
    if dep :| dep in dependsOn && BlockedBy(statuses, dep) {
      assert dep in Elems(ids);
      var j :| 0 <= j < |ids| && ids[j] == dep;
    }
  }

  /** The documentation also calls a Plan ready when all its dependencies are implemented; the code does
      so only for a Plan that depends on nothing. */
  lemma ReadyIff(byID: map<Id, Document>, ledgers: map<Id, Ledger>, ids: seq<Id>, records: seq<Record>, i: nat)
    requires Records(byID, ledgers, ids, records) && i < |ids|
    ensures records[i].status == Ready <==> ids[i] !in ledgers && byID[ids[i]].dependsOn == []
  {
  }

  /** A Plan whose only dependency is implemented is planned, not ready. */
  lemma ImplementedDependencyLeavesPlanned(a: Document, b: Document, ledger: Ledger)
    requires a.id != b.id && b.dependsOn == [a.id]
    requires IsValid(a, ledger) && ledger.status == Implemented && ledger.hash == a.hash
    ensures StatusOf(map[a.id := a, b.id := b], map[a.id := ledger], a.id) == Implemented
    ensures StatusOf(map[a.id := a, b.id := b], map[a.id := ledger], b.id) == Planned
  {
    var byID, ledgers := map[a.id := a, b.id := b], map[a.id := ledger];
    assert forall y :: !Taints(byID, ledgers, y);
  }
}
