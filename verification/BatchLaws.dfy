/** What Execute (internal/planbatch/execute.go) promises, told by its inputs, the list it returns and the calls of
    Implement it makes. */
module BatchLaws {
  import opened Digraph
  import opened Waves
  import opened Wrappers
  import opened Batch
  import Status

  /** id is listed in wave k and known to the status service. */
  ghost predicate In(job: Job, k: nat, id: Id) {
    k < |job.waves| && id in job.waves[k] && id in job.records
  }

  ghost predicate Selected(job: Job, id: Id) {
    exists k: nat :: In(job, k, id)
  }

  /** Dependencies come in earlier waves, or not at all. */
  ghost predicate Forward(job: Job) {
    forall j: nat, k: nat, id, dep :: In(job, k, id) && dep in job.records[id].dependsOn && k <= j < |job.waves| ==>
      dep !in job.waves[j]
  }

  /** The dependency ends implemented; outside the batch it has an implemented ledger. */
  ghost predicate Met(job: Job, plans: seq<(Id, State)>, dep: Id) {
    if Selected(job, dep) then (dep, Implemented) in plans || (dep, AlreadyImplemented) in plans
    else dep in job.externalStatus && job.externalStatus[dep]
  }

  ghost predicate AllMet(job: Job, plans: seq<(Id, State)>, id: Id)
    requires id in job.records
  {
    forall dep :: dep in job.records[id].dependsOn ==> Met(job, plans, dep)
  }

  /** The batch stops on failure, and a Plan of a wave before wave k has failed. */
  ghost predicate FailedBefore(job: Job, plans: seq<(Id, State)>, k: nat) {
    job.stopOnFailure && exists j: nat, x :: j < k && In(job, j, x) && (x, Failed) in plans
  }

  /** The Plan has to be run: it has no errors, is not up to date or is forced, and its dependencies are met. */
  ghost predicate NeedsRun(job: Job, plans: seq<(Id, State)>, id: Id)
    requires id in job.records
  {
    var record := job.records[id];
    !record.hasErrors && (record.upToDate ==> job.force) && AllMet(job, plans, id)
  }

  // ---- The list and the results -----------------------------------------------------------

  lemma {:induction false} ListingMember(results: map<Id, State>, ids: seq<Id>, x: Id, s: State)
    ensures (x, s) in Listing(results, ids) <==> x in ids && x in results && results[x] == s
  {
    if ids != [] {
      InitLast(ids);
      ListingMember(results, ids[..|ids| - 1], x, s);
    }
  }

  lemma FinalIff(job: Job, id: Id)
    requires WellFormed(job)
    ensures id in After(job, |job.waves|).results <==> Selected(job, id)
  {
    if Selected(job, id) {
      var k: nat :| In(job, k, id);
      EveryPlanHasResult(job, k, id);
    }
    if id in After(job, |job.waves|).results {
      var k := RecordedKnown(job, |job.waves|, id);
    }
  }

  lemma {:induction false} RecordedKnown(job: Job, k: nat, id: Id) returns (j: nat)
    requires k <= |job.waves| && id in After(job, k).results
    ensures j < k && In(job, j, id)
  {
    if id in After(job, k - 1).results {
      j := RecordedKnown(job, k - 1, id);
    } else {
      j := k - 1;
    }
  }

  lemma ListedIffFinal(job: Job, plans: seq<(Id, State)>, id: Id, s: State)
    requires WellFormed(job) && plans == Listing(After(job, |job.waves|).results, Status.Flatten(job.waves))
    ensures var final := After(job, |job.waves|).results;
      (id, s) in plans <==> Selected(job, id) && id in final && final[id] == s
  {
    FinalIff(job, id);
    ListingMember(After(job, |job.waves|).results, Status.Flatten(job.waves), id, s);
    if Selected(job, id) {
      var k: nat :| In(job, k, id);
    }
  }

  // ---- Dependencies ---------------------------------------------------------------------------

  /** What is known of a dependency when its Plan is classified is what is known in the end. */
  lemma KnownThen(job: Job, k: nat, id: Id, dep: Id)
    requires WellFormed(job) && Forward(job) && In(job, k, id) && dep in job.records[id].dependsOn
    ensures dep in After(job, k).results <==> dep in After(job, |job.waves|).results
    ensures dep in After(job, k).results ==> After(job, |job.waves|).results[dep] == After(job, k).results[dep]
  {
    if dep in After(job, k).results {
      KnownIsFinal(job, k, dep);
    } else if dep in After(job, |job.waves|).results {
      var j := RecordedKnown(job, |job.waves|, dep);
      assert j < k;
      ResultsStay(job, j, k, dep);
      ResultsStay(job, j, |job.waves|, dep);
    }
  }

  lemma ImplementedIffMet(job: Job, plans: seq<(Id, State)>, k: nat, id: Id, dep: Id)
    requires WellFormed(job) && Forward(job) && In(job, k, id) && dep in job.records[id].dependsOn
    requires plans == Listing(After(job, |job.waves|).results, Status.Flatten(job.waves))
    ensures DependencyImplemented(job, After(job, k).results, dep) <==> Met(job, plans, dep)
  {
    KnownThen(job, k, id, dep);
    FinalIff(job, dep);
    ListedIffFinal(job, plans, dep, Implemented);
    ListedIffFinal(job, plans, dep, AlreadyImplemented);
  }

  lemma ClassIffNeeds(job: Job, plans: seq<(Id, State)>, k: nat, id: Id)
    requires WellFormed(job) && Forward(job) && In(job, k, id)
    requires plans == Listing(After(job, |job.waves|).results, Status.Flatten(job.waves))
    ensures var record, found := job.records[id], Classify(job, After(job, k).results, job.records[id]);
      && (record.hasErrors ==> found == Some(Failed))
      && (!record.hasErrors && record.upToDate && !job.force ==> found == Some(AlreadyImplemented))
      && (!record.hasErrors && (record.upToDate ==> job.force) && !AllMet(job, plans, id) ==> found == Some(Blocked))
      && (NeedsRun(job, plans, id) <==> found == None)
  {
    forall dep | dep in job.records[id].dependsOn
      ensures DependencyImplemented(job, After(job, k).results, dep) <==> Met(job, plans, dep)
    {
      ImplementedIffMet(job, plans, k, id, dep);
    }
  }

  // ---- Stopping ---------------------------------------------------------------------------------

  lemma FailureIff(job: Job, plans: seq<(Id, State)>, j: nat)
    requires WellFormed(job) && j < |job.waves|
    requires plans == Listing(After(job, |job.waves|).results, Status.Flatten(job.waves))
    ensures HadFailure(After(job, j + 1).results, job.waves[j]) <==> exists x :: In(job, j, x) && (x, Failed) in plans
  {
    var next := After(job, j + 1).results;
    forall x | x in job.waves[j]
      ensures x in next && next[x] == Failed <==> In(job, j, x) && (x, Failed) in plans
    {
      if x in job.records {
        FinalIff(job, x);
        ListedIffFinal(job, plans, x, Failed);
        assert In(job, j, x);
        ResultsStay(job, j, |job.waves|, x);
      } else if x in next {
        var i := RecordedKnown(job, j + 1, x);
        assert false;
      }
    }
  }

  lemma {:induction false} StoppedIff(job: Job, plans: seq<(Id, State)>, k: nat)
    requires WellFormed(job) && k <= |job.waves|
    requires plans == Listing(After(job, |job.waves|).results, Status.Flatten(job.waves))
    ensures After(job, k).stopped <==> FailedBefore(job, plans, k)
    decreases k
  {
    if k > 0 {
      var j := k - 1;
      StoppedIff(job, plans, j);
      FailureIff(job, plans, j);
      FailedBeforeNext(job, plans, j, k);
    }
  }

  lemma FailedBeforeNext(job: Job, plans: seq<(Id, State)>, j: nat, k: nat)
    requires j + 1 == k
    ensures FailedBefore(job, plans, k) <==>
      FailedBefore(job, plans, j) || (job.stopOnFailure && exists x :: In(job, j, x) && (x, Failed) in plans)
  {
  }

  // ---- The laws -----------------------------------------------------------------------------------

  /** The state a Plan of wave k ends in. */
  ghost predicate EndsAs(job: Job, plans: seq<(Id, State)>, k: nat, id: Id, s: State)
    requires id in job.records
  {
    var record := job.records[id];
    if record.hasErrors then s == Failed
    else if record.upToDate && !job.force then s == AlreadyImplemented
    else if !AllMet(job, plans, id) then s == Blocked
    else if FailedBefore(job, plans, k) then s == Skipped
    else
      match job.outcome(id)
      case Errs => s == Failed
      case Skips => s == AlreadyImplemented
      case Fails => s == Failed
      case Succeeds => s == Implemented
  }

  lemma FinalValue(job: Job, plans: seq<(Id, State)>, k: nat, id: Id)
    requires WellFormed(job) && Forward(job) && In(job, k, id)
    requires plans == Listing(After(job, |job.waves|).results, Status.Flatten(job.waves))
    ensures EndsAs(job, plans, k, id, PlanResult(job, After(job, k).results, id, After(job, k).stopped))
  {
    ClassIffNeeds(job, plans, k, id);
    StoppedIff(job, plans, k);
  }

  lemma OneEnd(job: Job, plans: seq<(Id, State)>, k: nat, id: Id, s: State, t: State)
    requires id in job.records && EndsAs(job, plans, k, id, s)
    ensures EndsAs(job, plans, k, id, t) <==> s == t
  {
  }

  /** Every selected Plan ends in one state: failed if it has errors; already implemented if it is up to date and not
      forced; blocked exactly if some dependency does not end implemented; skipped if an earlier wave has failed and
      the batch stops on failure; and otherwise as its run ends. */
  lemma FinalState(job: Job, plans: seq<(Id, State)>, calls: seq<Id>, k: nat, id: Id, s: State)
    requires WellFormed(job) && Forward(job) && Ran(job, plans, false, calls) && In(job, k, id)
    ensures (id, s) in plans <==> EndsAs(job, plans, k, id, s)
  {
    var end := PlanResult(job, After(job, k).results, id, After(job, k).stopped);
    ListedIffFinal(job, plans, id, s);
    EveryPlanHasResult(job, k, id);
    FinalValue(job, plans, k, id);
    OneEnd(job, plans, k, id, end, s);
  }

  /** Implement is called for exactly the Plans that need a run, unless an earlier wave has failed and the batch stops
      on failure, and as often as the wave lists them. */
  lemma CallsIff(job: Job, plans: seq<(Id, State)>, calls: seq<Id>, k: nat, id: Id)
    requires WellFormed(job) && Forward(job) && Ran(job, plans, false, calls) && In(job, k, id)
    ensures multiset(calls)[id] ==
      if NeedsRun(job, plans, id) && !FailedBefore(job, plans, k) then multiset(job.waves[k])[id] else 0
  {
    ClassIffNeeds(job, plans, k, id);
    StoppedIff(job, plans, k);
    if !MayCall(job, k, id) {
      if id in calls {
        var j: nat :| j < |job.waves| && MayCall(job, j, id);
        OnlyInOneWave(job, k, j, id);
      }
      assert multiset(calls)[id] == 0;
    }
  }

  /** Nothing else is called. */
  lemma OnlySelectedCalled(job: Job, plans: seq<(Id, State)>, err: bool, calls: seq<Id>, id: Id)
    requires WellFormed(job) && Ran(job, plans, err, calls) && id in calls
    ensures Selected(job, id)
  {
    var k: nat :| k < |job.waves| && MayCall(job, k, id);
    assert In(job, k, id);
  }

  /** The list is in wave order and has every selected Plan as often as the waves do. */
  lemma ListInWaveOrder(job: Job, plans: seq<(Id, State)>, calls: seq<Id>)
    requires WellFormed(job) && Ran(job, plans, false, calls)
    requires forall k, x :: 0 <= k < |job.waves| && x in job.waves[k] ==> x in job.records
    ensures |plans| == |Status.Flatten(job.waves)|
    ensures forall i :: 0 <= i < |plans| ==> plans[i].0 == Status.Flatten(job.waves)[i]
  {
    var final, ids := After(job, |job.waves|).results, Status.Flatten(job.waves);
    forall x | x in ids
      ensures x in final
    {
      var k :| 0 <= k < |job.waves| && x in job.waves[k];
      assert In(job, k, x);
      FinalIff(job, x);
    }
    FullListing(final, ids);
  }

  lemma {:induction false} FullListing(results: map<Id, State>, ids: seq<Id>)
    requires forall x :: x in ids ==> x in results
    ensures |Listing(results, ids)| == |ids|
    ensures forall i :: 0 <= i < |ids| ==> Listing(results, ids)[i] == (ids[i], results[ids[i]])
  {
    if ids != [] {
      InitLast(ids);
      FullListing(results, ids[..|ids| - 1]);
      assert ids[|ids| - 1] in ids;
    }
  }

  // ---- Batches cut short ------------------------------------------------------------------------------

  lemma FlushedMember(results: map<Id, State>, ids: seq<Id>, x: Id)
    requires x in ids && x in results
    ensures (x, results[x]) in Flushed(results, ids)
  {
    var i :| 0 <= i < |ids| && ids[i] == x;
    assert Flushed(results, ids)[i] == (x, results[x]);
  }

  /** Whatever is known before the last wave that was begun is recorded when the batch is cut short. */
  lemma KnownIsRecorded(job: Job, j: nat, last: nat, results: map<Id, State>, x: Id, s: State)
    requires WellFormed(job) && j <= last < |job.waves| && Reached(job, last + 1, results)
    requires x in After(job, j).results && After(job, j).results[x] == s
    ensures x in results && results[x] == s
  {
    if CutDuring(job, last, results) {
      KnownInPart(job, j, last, results, x, s);
    } else {
      KnownInWhole(job, j, last + 1, results, x, s);
    }
  }

  lemma KnownInPart(job: Job, j: nat, last: nat, results: map<Id, State>, x: Id, s: State)
    requires WellFormed(job) && j <= last < |job.waves| && CutDuring(job, last, results)
    requires x in After(job, j).results && After(job, j).results[x] == s
    ensures x in results && results[x] == s
  {
    StaysKnown(job, j, last, x);
    KnownInCut(job, last, results, x);
  }

  lemma KnownInWhole(job: Job, j: nat, k: nat, results: map<Id, State>, x: Id, s: State)
    requires WellFormed(job) && j < k <= |job.waves| && results == Stage(job, k).results
    requires x in After(job, j).results && After(job, j).results[x] == s
    ensures x in results && results[x] == s
  {
    StageIsAfter(job, k);
    StaysKnown(job, j, k, x);
  }

  lemma StaysKnown(job: Job, j: nat, k: nat, x: Id)
    requires WellFormed(job) && j <= k <= |job.waves| && x in After(job, j).results
    ensures x in After(job, k).results && After(job, k).results[x] == After(job, j).results[x]
  {
    var i := RecordedIn(job, j, x);
    ResultsStay(job, i, j, x);
    ResultsStay(job, i, k, x);
  }

  lemma KnownInCut(job: Job, k: nat, results: map<Id, State>, x: Id)
    requires WellFormed(job) && k < |job.waves| && CutDuring(job, k, results) && x in After(job, k).results
    ensures x in results && results[x] == After(job, k).results[x]
  {
    var done :| CutIn(job, k, done, results);
    StageIsAfter(job, k);
    JudgeIndependent(job, After(job, k).results, job.waves[k]);
    ReadyMembers(job, After(job, k).results, job.waves[k]);
    NotYetRecorded(job, k);
    assert x !in job.waves[k] && x !in Elems(ReadyOf(job, After(job, k).results, job.waves[k]));
  }

  lemma CallIsTaken(job: Job, k: nat, calls: seq<Id>, id: Id) returns (j: nat)
    requires WellFormed(job) && k <= |job.waves| && multiset(calls) <= multiset(CallsBefore(job, k)) && id in calls
    ensures j < k && MayCall(job, j, id)
  {
    assert multiset(calls)[id] > 0;
    j := TakenIn(job, k, id);
  }

  lemma {:induction false} TakenIn(job: Job, k: nat, id: Id) returns (j: nat)
    requires k <= |job.waves| && multiset(CallsBefore(job, k))[id] > 0
    ensures j < k && MayCall(job, j, id)
    decreases k
  {
    var h := k - 1;
    CountTake(job, h, id);
    if MayCall(job, h, id) {
      j := h;
    } else {
      j := TakenIn(job, h, id);
    }
  }

  /** Also in a batch that is cut short: when Implement is called for a Plan, each of its dependencies is listed as
      implemented, or is not in the batch and has an implemented ledger. */
  lemma CalledDependenciesDone(job: Job, plans: seq<(Id, State)>, err: bool, calls: seq<Id>, id: Id, dep: Id)
    requires WellFormed(job) && Forward(job) && RanInTurn(job, plans, err, calls)
    requires id in calls && id in job.records && dep in job.records[id].dependsOn
    ensures Met(job, plans, dep)
  {
    if err {
      var k: nat, results :| CutAt(job, k, results, calls) && plans == Flushed(results, Status.Flatten(job.waves));
      TakenIsCallsBefore(job, k);
      var j := CallIsTaken(job, k, calls, id);
      CutCallMet(job, results, j, k, id, dep, plans);
    } else {
      TakenIsCallsBefore(job, |job.waves|);
      var j := CallIsTaken(job, |job.waves|, calls, id);
      StageIsAfter(job, |job.waves|);
      assert DependencyImplemented(job, After(job, j).results, dep);
      ImplementedIffMet(job, plans, j, id, dep);
    }
  }

  lemma CutCallMet(job: Job, results: map<Id, State>, j: nat, k: nat, id: Id, dep: Id, plans: seq<(Id, State)>)
    requires WellFormed(job) && Forward(job) && j < k <= |job.waves| && Reached(job, k, results) && MayCall(job, j, id)
    requires dep in job.records[id].dependsOn && plans == Flushed(results, Status.Flatten(job.waves))
    ensures Met(job, plans, dep)
  {
    assert DependencyImplemented(job, After(job, j).results, dep);
    assert In(job, j, id);
    KnownThen(job, j, id, dep);
    FinalIff(job, dep);
    if dep in After(job, j).results {
      KnownIsRecorded(job, j, k - 1, results, dep, After(job, j).results[dep]);
      var m: nat :| In(job, m, dep);
      FlushedMember(results, Status.Flatten(job.waves), dep);
    }
  }

  /** A batch that is cut short lists every Plan in wave order, each as the whole batch would have it or as skipped. */
  lemma CutAgreesWithWhole(
    job: Job, cut: seq<(Id, State)>, calls: seq<Id>, whole: seq<(Id, State)>, allCalls: seq<Id>, i: nat)
    requires WellFormed(job) && Ran(job, cut, true, calls) && Ran(job, whole, false, allCalls)
    requires i < |Status.Flatten(job.waves)|
    ensures |cut| == |Status.Flatten(job.waves)| && cut[i].0 == Status.Flatten(job.waves)[i]
    ensures cut[i].1 == Skipped || cut[i] in whole
  {
    var ids, final := Status.Flatten(job.waves), After(job, |job.waves|).results;
    var results :| PartOf(results, final) && cut == Flushed(results, ids);
    if cut[i].1 != Skipped {
      ListingMember(final, ids, ids[i], cut[i].1);
    }
  }

  // ---- Selections ---------------------------------------------------------------------------------------

  /** All of this holds for the waves of a selection with distinct IDs. */
  lemma SelectionIsForward(docs: seq<Document>, cyclic: seq<Id>, job: Job)
    requires DistinctIds(docs) && AreWaves(docs, job.waves, cyclic)
    requires forall d :: d in docs && d.id in job.records ==> job.records[d.id].dependsOn == d.dependsOn
    ensures WellFormed(job) && Forward(job)
  {
    SelectionIsWellFormed(docs, cyclic, job);
    forall j: nat, k: nat, id, dep | In(job, k, id) && dep in job.records[id].dependsOn && k <= j < |job.waves|
      ensures dep !in job.waves[j]
    {
      NotInLaterWave(docs, cyclic, job, k, j, id, dep);
    }
  }
}
