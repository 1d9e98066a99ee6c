/** internal/planbatch/execute.go: the waves of a selection are run one after another, the Plans of a
    wave by parallel workers. The functions say what the results are without mentioning workers;
    the methods, with workers interleaving in any way, are proved to produce them. */
module Batch {
  import opened Digraph
  import opened Waves
  import opened Wrappers
  import Status

  /** How Implement ends for a Plan: with an error, or with a result. */
  datatype Outcome = Errs | Skips | Fails | Succeeds

  datatype State = Implemented | AlreadyImplemented | Failed | Blocked | Skipped

  /** What the status service reports of a Plan: upToDate stands for an implemented ledger with the
      document's hash. */
  datatype Record = Record(dependsOn: seq<Id>, hasErrors: bool, upToDate: bool)

  datatype Job = Job(
    records: map<Id, Record>, waves: seq<seq<Id>>, externalStatus: map<Id, bool>, outcome: Id -> Outcome,
    force: bool, stopOnFailure: bool, parallelism: int)

  // ---- Results without a schedule ------------------------------------------------------

  predicate Achieved(state: State) {
    state.Implemented? || state.AlreadyImplemented?
  }

  predicate DependencyImplemented(job: Job, results: map<Id, State>, dep: Id) {
    if dep in results then Achieved(results[dep]) else dep in job.externalStatus && job.externalStatus[dep]
  }

  /** The result a Plan has before anything is run for it, if it has one. */
  function Classify(job: Job, results: map<Id, State>, record: Record): Option<State> {
    if record.hasErrors then Some(Failed)
    else if record.upToDate && !job.force then Some(AlreadyImplemented)
    else if exists dep | dep in record.dependsOn :: !DependencyImplemented(job, results, dep) then Some(Blocked)
    else None
  }

  function Completed(outcome: Outcome): State {
    match outcome
    case Errs => Failed
    case Skips => AlreadyImplemented
    case Fails => Failed
    case Succeeds => Implemented
  }

  function PlanResult(job: Job, results: map<Id, State>, id: Id, stopped: bool): State
    requires id in job.records
  {
    match Classify(job, results, job.records[id])
    case Some(state) => state
    case None => if stopped then Skipped else Completed(job.outcome(id))
  }

  /** Every Plan of the wave is judged by what was recorded before the wave. */
  function WaveResults(job: Job, results: map<Id, State>, wave: seq<Id>, stopped: bool): (r: map<Id, State>)
    ensures forall x :: x in r <==> x in results || (x in wave && x in job.records)
    ensures forall x :: x in r ==>
      r[x] == if x in wave && x in job.records then PlanResult(job, results, x, stopped) else results[x]
  {
    if wave == [] then results
    else
      var init, last := wave[..|wave| - 1], wave[|wave| - 1];
      InitLast(wave);
      var so := WaveResults(job, results, init, stopped);
      if last in job.records then so[last := PlanResult(job, results, last, stopped)] else so
  }

  predicate HadFailure(results: map<Id, State>, wave: seq<Id>) {
    exists id | id in wave :: id in results && results[id] == Failed
  }

  datatype Progress = Progress(results: map<Id, State>, stopped: bool)

  /** Where the batch stands after its first k waves. */
  function After(job: Job, k: nat): Progress
    requires k <= |job.waves|
  {
    if k == 0 then Progress(map[], false)
    else
      var before := After(job, k - 1);
      var results := WaveResults(job, before.results, job.waves[k - 1], before.stopped);
      Progress(results, before.stopped || (job.stopOnFailure && HadFailure(results, job.waves[k - 1])))
  }

  /** The Plans of wave k for which Implement is called, in the order of the wave. */
  function CallsIn(job: Job, k: nat): seq<Id>
    requires k < |job.waves|
  {
    if After(job, k).stopped then [] else ReadyOf(job, After(job, k).results, job.waves[k])
  }

  function CallsBefore(job: Job, k: nat): seq<Id>
    requires k <= |job.waves|
  {
    if k == 0 then [] else CallsBefore(job, k - 1) + CallsIn(job, k - 1)
  }

  /** What is recorded agrees with the whole. */
  ghost predicate PartOf(some: map<Id, State>, whole: map<Id, State>) {
    forall x :: x in some ==> x in whole && whole[x] == some[x]
  }

  /** The Plans of wave k that need a run. */
  ghost predicate MayCall(job: Job, k: nat, id: Id)
    requires k < |job.waves|
  {
    && id in job.waves[k] && id in job.records && !After(job, k).stopped
    && Classify(job, After(job, k).results, job.records[id]) == None
  }

  ghost predicate Called(job: Job, id: Id) {
    exists k :: 0 <= k < |job.waves| && MayCall(job, k, id)
  }

  /** Each Plan is in one wave, if perhaps more than once, and after the selected Plans it depends on. */
  ghost predicate WellFormed(job: Job) {
    && (forall j, k, x :: 0 <= j < k < |job.waves| && x in job.waves[j] ==> x !in job.waves[k])
    && (forall k :: 0 <= k < |job.waves| ==> Independent(job, job.waves[k]))
  }

  /** No Plan of the wave depends on another of the wave. */
  ghost predicate Independent(job: Job, wave: seq<Id>) {
    forall x, dep :: x in wave && x in job.records && dep in job.records[x].dependsOn ==> dep !in wave
  }

  // ---- The batch state -----------------------------------------------------------------------

  ghost predicate AreCompleted(job: Job, results: map<Id, State>, done: set<Id>, r: map<Id, State>) {
    && (forall x :: x in r <==> x in results || x in done)
    && forall x :: x in r ==> r[x] == if x in done then Completed(job.outcome(x)) else results[x]
  }

  /** Results have been recorded for these Plans, each with the result its outcome gives. */
  ghost function WithCompleted(job: Job, results: map<Id, State>, done: set<Id>): (r: map<Id, State>)
    ensures AreCompleted(job, results, done, r)
  {
    assert AreCompleted(job, results, done, results + map id | id in done :: Completed(job.outcome(id)));
    var r :| AreCompleted(job, results, done, r);
    r
  }

  lemma CompleteOne(job: Job, results: map<Id, State>, done: set<Id>, id: Id)
    ensures WithCompleted(job, results, done)[id := Completed(job.outcome(id))]
      == WithCompleted(job, results, done + {id})
  {
    SameMap(WithCompleted(job, results, done)[id := Completed(job.outcome(id))],
            WithCompleted(job, results, done + {id}));
  }

  // ---- Waves as they come, for any selection -----------------------------------------------

  /** readyPlans: what has been recorded, and what is left to run. */
  datatype Judged = Judged(results: map<Id, State>, ready: seq<Id>)

  /** The Plans of a wave are classified one after another, each on all that is recorded by then. */
  function Judge(job: Job, results: map<Id, State>, wave: seq<Id>): Judged {
    if wave == [] then Judged(results, [])
    else
      var so, last := Judge(job, results, wave[..|wave| - 1]), wave[|wave| - 1];
      if last !in job.records then so
      else
        match Classify(job, so.results, job.records[last])
        case Some(state) => so.(results := so.results[last := state])
        case None => so.(ready := so.ready + [last])
  }

  function Skipping(results: map<Id, State>, ready: seq<Id>): (r: map<Id, State>)
    ensures forall x :: x in r <==> x in results || x in ready
    ensures forall x :: x in r ==> r[x] == if x in ready then Skipped else results[x]
  {
    if ready == [] then results
    else
      InitLast(ready);
      Skipping(results, ready[..|ready| - 1])[ready[|ready| - 1] := Skipped]
  }

  ghost function WaveInTurn(job: Job, results: map<Id, State>, wave: seq<Id>, stopped: bool): map<Id, State> {
    var so := Judge(job, results, wave);
    if stopped then Skipping(so.results, so.ready) else WithCompleted(job, so.results, Elems(so.ready))
  }

  /** Where the batch stands after its first k waves, whatever they list. */
  ghost function Stage(job: Job, k: nat): Progress
    requires k <= |job.waves|
  {
    if k == 0 then Progress(map[], false)
    else
      var before := Stage(job, k - 1);
      var results := WaveInTurn(job, before.results, job.waves[k - 1], before.stopped);
      Progress(results, before.stopped || (job.stopOnFailure && HadFailure(results, job.waves[k - 1])))
  }

  /** What wave k leaves to run. */
  ghost function Taken(job: Job, k: nat): seq<Id>
    requires k < |job.waves|
  {
    if Stage(job, k).stopped then [] else Judge(job, Stage(job, k).results, job.waves[k]).ready
  }

  ghost function TakenBefore(job: Job, k: nat): seq<Id>
    requires k <= |job.waves|
  {
    if k == 0 then [] else TakenBefore(job, k - 1) + Taken(job, k - 1)
  }

  /** The first k waves are through. */
  ghost predicate Through(job: Job, k: nat, results: map<Id, State>, stopped: bool, calls: seq<Id>) {
    k <= |job.waves| && Stage(job, k) == Progress(results, stopped) && multiset(calls) == multiset(TakenBefore(job, k))
  }

  /** Wave k has been cut short: of what it leaves to run, done has been completed. */
  ghost predicate CutIn(job: Job, k: nat, done: set<Id>, results: map<Id, State>)
    requires k < |job.waves|
  {
    var so := Judge(job, Stage(job, k).results, job.waves[k]);
    !Stage(job, k).stopped && done <= Elems(so.ready) && results == WithCompleted(job, so.results, done)
  }

  ghost predicate CutDuring(job: Job, k: nat, results: map<Id, State>)
    requires k < |job.waves|
  {
    exists done :: CutIn(job, k, done, results)
  }

  ghost predicate Reached(job: Job, k: nat, results: map<Id, State>)
    requires k <= |job.waves|
  {
    results == Stage(job, k).results || (k > 0 && CutDuring(job, k - 1, results))
  }

  /** The batch ended before wave k, or during the wave before it. */
  ghost predicate CutAt(job: Job, k: nat, results: map<Id, State>, calls: seq<Id>) {
    k <= |job.waves| && multiset(calls) <= multiset(TakenBefore(job, k)) && Reached(job, k, results)
  }

  /** What a batch promises for any waves: the results of running them in turn, and one call for each entry that is
      left to run. Cut short, it lists every Plan with what is recorded for it, or as skipped. */
  ghost predicate RanInTurn(job: Job, plans: seq<(Id, State)>, err: bool, calls: seq<Id>) {
    if err then
      exists k: nat, results :: CutAt(job, k, results, calls) && plans == Flushed(results, Status.Flatten(job.waves))
    else
      && plans == Listing(Stage(job, |job.waves|).results, Status.Flatten(job.waves))
      && multiset(calls) == multiset(TakenBefore(job, |job.waves|))
  }

  // ---- Waves of Plans that do not depend on each other ------------------------------------------

  /** The classifications of the first i Plans of a wave. */
  function Classified(job: Job, results: map<Id, State>, wave: seq<Id>): map<Id, State> {
    map id | id in wave && id in job.records && Classify(job, results, job.records[id]).Some? ::
      Classify(job, results, job.records[id]).value
  }

  function ReadyOf(job: Job, results: map<Id, State>, wave: seq<Id>): seq<Id> {
    if wave == [] then []
    else
      var last := wave[|wave| - 1];
      ReadyOf(job, results, wave[..|wave| - 1])
      + if last in job.records && Classify(job, results, job.records[last]).None? then [last] else []
  }

  lemma {:induction false} ReadyMembers(job: Job, results: map<Id, State>, wave: seq<Id>)
    ensures forall x :: x in ReadyOf(job, results, wave) <==>
      x in wave && x in job.records && Classify(job, results, job.records[x]).None?
  {
    if wave != [] {
      InitLast(wave);
      ReadyMembers(job, results, wave[..|wave| - 1]);
    }
  }

  /** Recording the results of earlier Plans of the wave does not change a later classification. */
  lemma SameClass(job: Job, results: map<Id, State>, more: map<Id, State>, record: Record)
    requires forall dep :: dep in record.dependsOn ==>
      (dep in more <==> dep in results) && (dep in results ==> more[dep] == results[dep])
    ensures Classify(job, more, record) == Classify(job, results, record)
  {
    assert forall dep :: dep in record.dependsOn ==>
      DependencyImplemented(job, more, dep) == DependencyImplemented(job, results, dep);
  }

  /** The first i Plans of the wave have been classified. */
  ghost predicate Sorted(
    job: Job, before: map<Id, State>, wave: seq<Id>, i: nat, results: map<Id, State>, ready: seq<Id>)
  {
    i <= |wave| && results == before + Classified(job, before, wave[..i]) && ready == ReadyOf(job, before, wave[..i])
  }

  lemma NothingSorted(job: Job, before: map<Id, State>, wave: seq<Id>, results: map<Id, State>)
    requires results == before
    ensures Sorted(job, before, wave, 0, results, [])
  {
    assert wave[..0] == [];
  }

  lemma ClassifiedTake(job: Job, before: map<Id, State>, wave: seq<Id>, i: nat)
    requires i < |wave| && wave[i] in job.records
    ensures var result := Classify(job, before, job.records[wave[i]]);
      Classified(job, before, wave[..i + 1]) ==
        if result.Some? then Classified(job, before, wave[..i])[wave[i] := result.value]
        else Classified(job, before, wave[..i])
  {
    TakeSnoc(wave, i);
    assert forall x :: x in wave[..i + 1] <==> x in wave[..i] || x == wave[i];
  }

  lemma ReadyTake(job: Job, before: map<Id, State>, wave: seq<Id>, i: nat)
    requires i < |wave| && wave[i] in job.records
    ensures ReadyOf(job, before, wave[..i + 1]) == ReadyOf(job, before, wave[..i])
      + if Classify(job, before, job.records[wave[i]]).None? then [wave[i]] else []
  {
    assert wave[..i + 1][..i] == wave[..i];
  }

  lemma SortOne(
    job: Job, before: map<Id, State>, wave: seq<Id>, i: nat, results: map<Id, State>, ready: seq<Id>,
    result: Option<State>)
    requires Sorted(job, before, wave, i, results, ready) && i < |wave| && wave[i] in job.records
    requires result == Classify(job, before, job.records[wave[i]])
    ensures result.Some? ==> Sorted(job, before, wave, i + 1, results[wave[i] := result.value], ready)
    ensures result.None? ==> Sorted(job, before, wave, i + 1, results, ready + [wave[i]])
  {
    ClassifiedTake(job, before, wave, i);
    ReadyTake(job, before, wave, i);
    if result.Some? {
      UpdateSum(before, Classified(job, before, wave[..i]), wave[i], result.value);
    }
  }

  lemma UpdateSum(a: map<Id, State>, b: map<Id, State>, x: Id, state: State)
    ensures (a + b)[x := state] == a + b[x := state]
  {
  }

  lemma SortNone(job: Job, before: map<Id, State>, wave: seq<Id>, i: nat, results: map<Id, State>, ready: seq<Id>)
    requires Sorted(job, before, wave, i, results, ready) && i < |wave| && wave[i] !in job.records
    ensures Sorted(job, before, wave, i + 1, results, ready)
  {
    TakeSnoc(wave, i);
    assert wave[..i + 1][..i] == wave[..i];
    assert forall x :: x in wave[..i + 1] <==> x in wave[..i] || x == wave[i];
    assert Classified(job, before, wave[..i + 1]) == Classified(job, before, wave[..i]);
  }

  /** Of independent Plans each is classified on what was known before the wave. */
  lemma {:induction false} JudgeIndependent(job: Job, results: map<Id, State>, wave: seq<Id>)
    requires Independent(job, wave)
    ensures Judge(job, results, wave) == Judged(results + Classified(job, results, wave), ReadyOf(job, results, wave))
  {
    if wave == [] {
      NothingSorted(job, results, wave, results);
    } else {
      var i := |wave| - 1;
      var so := Judge(job, results, wave[..i]);
      IndependentInit(job, wave);
      JudgeIndependent(job, results, wave[..i]);
      assert wave[..i][..i] == wave[..i] && wave[..i + 1] == wave;
      if wave[i] in job.records {
        StillIndependent(job, wave, i, results, so.results);
        SortOne(job, results, wave, i, so.results, so.ready, Classify(job, so.results, job.records[wave[i]]));
      } else {
        SortNone(job, results, wave, i, so.results, so.ready);
      }
    }
  }

  /** Classifying a wave first and then dealing with what is left gives the wave's results. */
  lemma WaveInTurnIs(job: Job, results: map<Id, State>, wave: seq<Id>, stopped: bool)
    requires Independent(job, wave)
    ensures WaveInTurn(job, results, wave, stopped) == WaveResults(job, results, wave, stopped)
  {
    var ready := ReadyOf(job, results, wave);
    JudgeIndependent(job, results, wave);
    ReadyMembers(job, results, wave);
    if stopped {
      SkipSplits(job, results, wave, ready);
    } else {
      RunSplits(job, results, wave, Elems(ready));
    }
  }

  /** For a well-formed job the waves in turn give what each gives on its own. */
  lemma {:induction false} StageIsAfter(job: Job, k: nat)
    requires WellFormed(job) && k <= |job.waves|
    ensures Stage(job, k) == After(job, k)
    decreases k
  {
    if k > 0 {
      var j := k - 1;
      StageIsAfter(job, j);
      WaveInTurnIs(job, After(job, j).results, job.waves[j], After(job, j).stopped);
    }
  }

  lemma TakenIsCalls(job: Job, k: nat)
    requires WellFormed(job) && k < |job.waves|
    ensures Taken(job, k) == CallsIn(job, k)
  {
    StageIsAfter(job, k);
    JudgeIndependent(job, After(job, k).results, job.waves[k]);
  }

  lemma {:induction false} TakenIsCallsBefore(job: Job, k: nat)
    requires WellFormed(job) && k <= |job.waves|
    ensures TakenBefore(job, k) == CallsBefore(job, k)
    decreases k
  {
    if k > 0 {
      var j := k - 1;
      TakenIsCallsBefore(job, j);
      TakenIsCalls(job, j);
    }
  }

  /** What is recorded when a well-formed job is cut short agrees with the whole. */
  ghost predicate CutShort(job: Job, k: nat, results: map<Id, State>, calls: seq<Id>) {
    && k <= |job.waves| && PartOf(results, After(job, k).results)
    && multiset(calls) <= multiset(CallsBefore(job, k))
  }

  lemma CutInIsPart(job: Job, j: nat, done: set<Id>, results: map<Id, State>, before: map<Id, State>)
    requires WellFormed(job) && j < |job.waves| && CutIn(job, j, done, results) && before == After(job, j).results
    ensures PartOf(results, WaveResults(job, before, job.waves[j], false)) && !After(job, j).stopped
  {
    StageIsAfter(job, j);
    JudgeIndependent(job, before, job.waves[j]);
    NotYetRecorded(job, j);
    PartOfWave(job, before, job.waves[j], done);
  }

  lemma DuringIsPart(job: Job, j: nat, results: map<Id, State>, before: Progress)
    requires WellFormed(job) && j < |job.waves| && CutDuring(job, j, results) && before == After(job, j)
    ensures PartOf(results, WaveResults(job, before.results, job.waves[j], before.stopped))
  {
    var done :| CutIn(job, j, done, results);
    CutInIsPart(job, j, done, results, before.results);
  }

  lemma AfterNext(job: Job, j: nat, k: nat)
    requires j + 1 == k <= |job.waves|
    ensures After(job, k).results == WaveResults(job, After(job, j).results, job.waves[j], After(job, j).stopped)
  {
  }

  lemma WholeIsPart(job: Job, k: nat, results: map<Id, State>, after: map<Id, State>)
    requires WellFormed(job) && k <= |job.waves| && results == Stage(job, k).results && after == After(job, k).results
    ensures PartOf(results, after)
  {
    StageIsAfter(job, k);
  }

  lemma CutIsPart(job: Job, k: nat, results: map<Id, State>, calls: seq<Id>)
    requires WellFormed(job) && CutAt(job, k, results, calls)
    ensures CutShort(job, k, results, calls)
  {
    ReachedIsPart(job, k, results);
    TakenIsCallsBefore(job, k);
  }

  lemma ReachedIsPart(job: Job, k: nat, results: map<Id, State>)
    requires WellFormed(job) && k <= |job.waves| && Reached(job, k, results)
    ensures PartOf(results, After(job, k).results)
  {
    if results == Stage(job, k).results {
      WholeIsPart(job, k, results, After(job, k).results);
    } else {
      var j := k - 1;
      AfterNext(job, j, k);
      DuringIsPart(job, j, results, After(job, j));
    }
  }

  lemma StopsHere(job: Job, k: nat, results: map<Id, State>, stopped: bool, calls: seq<Id>)
    requires Through(job, k, results, stopped, calls)
    ensures CutAt(job, k, results, calls)
  {
  }

  class BatchState {
    const job: Job
    var results: map<Id, State>
    ghost var calls: seq<Id>

    constructor (job: Job)
      ensures this.job == job && results == map[] && calls == []
    {
      this.job := job;
      results, calls := map[], [];
    }

    method ClassifyRecord(record: Record) returns (result: Option<State>)
      ensures result == Classify(job, results, record)
    {
      if record.hasErrors {
        return Some(Failed);
      }
      if record.upToDate && !job.force {
        return Some(AlreadyImplemented);
      }
      var i := 0;
      while i < |record.dependsOn|
        invariant 0 <= i <= |record.dependsOn|
        invariant forall dep :: dep in record.dependsOn[..i] ==> DependencyImplemented(job, results, dep)
      {
        TakeSnoc(record.dependsOn, i);
        if !DependencyImplemented(job, results, record.dependsOn[i]) {
          return Some(Blocked);
        }
        i := i + 1;
      }
      assert record.dependsOn[..i] == record.dependsOn;
      return None;
    }

    /** Records the Plans that need no run and lists the others. */
    method ReadyPlans(wave: seq<Id>) returns (ready: seq<Id>)
      modifies this`results
      ensures Judged(results, ready) == Judge(job, old(results), wave)
    {
      ready := [];
      ghost var before := results;
      var i := 0;
      while i < |wave|
        invariant 0 <= i <= |wave| && Judged(results, ready) == Judge(job, before, wave[..i])
      {
        var id := wave[i];
        assert wave[..i + 1][..i] == wave[..i];
        if id in job.records {
          var result := ClassifyRecord(job.records[id]);
          if result.Some? {
            results := results[id := result.value];
          } else {
            ready := ready + [id];
          }
        }
        i := i + 1;
      }
      assert wave[..i] == wave;
    }

    method Complete(id: Id)
      modifies this`results
      ensures results == old(results)[id := Completed(job.outcome(id))]
    {
      results := results[id := Completed(job.outcome(id))];
    }

    method Skip(id: Id)
      modifies this`results
      ensures results == old(results)[id := Skipped]
    {
      results := results[id := Skipped];
    }

    /** Marks as skipped what a stopped batch does not start. */
    method SkipAll(ready: seq<Id>)
      modifies this`results
      ensures results == Skipping(old(results), ready)
    {
      ghost var before := results;
      var i := 0;
      while i < |ready|
        invariant 0 <= i <= |ready| && results == Skipping(before, ready[..i])
      {
        assert ready[..i + 1][..i] == ready[..i];
        Skip(ready[i]);
        i := i + 1;
      }
      assert ready[..i] == ready;
    }

    method WaveHadFailure(wave: seq<Id>) returns (failed: bool)
      ensures failed <==> HadFailure(results, wave)
    {
      var i := 0;
      while i < |wave|
        invariant 0 <= i <= |wave|
        invariant forall id :: id in wave[..i] ==> !(id in results && results[id] == Failed)
      {
        TakeSnoc(wave, i);
        if wave[i] in results && results[wave[i]] == Failed {
          return true;
        }
        i := i + 1;
      }
      assert wave[..i] == wave;
      return false;
    }

    /** One wave of the batch. */
    method DoWave(k: nat, stopped: bool, cancellable: bool) returns (err: bool)
      requires k < |job.waves| && Stage(job, k) == Progress(results, stopped)
      modifies this
      ensures !cancellable ==> !err
      ensures !err ==> results == WaveInTurn(job, old(results), job.waves[k], stopped)
      ensures err ==> CutDuring(job, k, results)
      ensures multiset(calls) <= multiset(old(calls)) + multiset(Taken(job, k))
      ensures !err ==> multiset(calls) == multiset(old(calls)) + multiset(Taken(job, k))
    {
      var ready := ReadyPlans(job.waves[k]);
      if stopped {
        SkipAll(ready);
        return false;
      }
      ghost var done;
      err, done := ExecuteWave(ready, cancellable);
      assert err ==> CutIn(job, k, done, results);
    }

    /** One pass of the loop: nothing is started once the context is done. */
    method Pass(k: nat, stopped: bool, cancellable: bool) returns (err: bool, stop: bool, ghost reached: nat)
      requires k < |job.waves| && Through(job, k, results, stopped, calls)
      modifies this
      ensures !cancellable ==> !err
      ensures err ==> CutAt(job, reached, results, calls)
      ensures !err ==> reached == k + 1 && Through(job, reached, results, stop, calls)
    {
      var ctxDone := false;
      if cancellable {
        ctxDone := *;
      }
      stop, reached := stopped, k;
      if ctxDone {
        StopsHere(job, k, results, stopped, calls);
        return true, stop, reached;
      }
      err := DoWave(k, stopped, cancellable);
      reached := k + 1;
      if err {
        return;
      }
      var failed := WaveHadFailure(job.waves[k]);
      if job.stopOnFailure && failed {
        stop := true;
      }
    }

    /** The loop over the waves. */
    method RunWaves(cancellable: bool) returns (err: bool, ghost reached: nat, ghost stopped: bool)
      requires Through(job, 0, results, false, calls)
      modifies this
      ensures !cancellable ==> !err
      ensures if err then CutAt(job, reached, results, calls) else Through(job, |job.waves|, results, stopped, calls)
    {
      var stop, k := false, 0;
      reached := 0;
      while k < |job.waves|
        invariant 0 <= k == reached <= |job.waves| && Through(job, reached, results, stop, calls)
      {
        err, stop, reached := Pass(k, stop, cancellable);
        if err {
          return true, reached, stop;
        }
        k := k + 1;
      }
      return false, reached, stop;
    }

    /** The results recorded, in wave order. */
    method SortedResults() returns (plans: seq<(Id, State)>)
      ensures plans == Listing(results, Status.Flatten(job.waves))
    {
      plans := [];
      var k := 0;
      while k < |job.waves|
        invariant 0 <= k <= |job.waves| && plans == Listing(results, Status.Flatten(job.waves[..k]))
      {
        var found := ListWave(job.waves[k]);
        Status.FlattenTake(job.waves, k);
        ListingConcat(results, Status.Flatten(job.waves[..k]), job.waves[k]);
        plans := plans + found;
        k := k + 1;
      }
      assert job.waves[..k] == job.waves;
    }

    method ListWave(wave: seq<Id>) returns (plans: seq<(Id, State)>)
      ensures plans == Listing(results, wave)
    {
      plans := [];
      var i := 0;
      while i < |wave|
        invariant 0 <= i <= |wave| && plans == Listing(results, wave[..i])
      {
        assert wave[..i + 1][..i] == wave[..i];
        if wave[i] in results {
          plans := plans + [(wave[i], results[wave[i]])];
        }
        i := i + 1;
      }
      assert wave[..i] == wave;
    }

    /** After cancellation: every Plan in wave order, skipped if nothing was recorded for it. */
    method FlushRemaining() returns (plans: seq<(Id, State)>)
      ensures plans == Flushed(results, Status.Flatten(job.waves))
    {
      plans := [];
      var k := 0;
      while k < |job.waves|
        invariant 0 <= k <= |job.waves| && plans == Flushed(results, Status.Flatten(job.waves[..k]))
      {
        var found := FlushWave(job.waves[k]);
        Status.FlattenTake(job.waves, k);
        plans := plans + found;
        k := k + 1;
      }
      assert job.waves[..k] == job.waves;
    }

    method FlushWave(wave: seq<Id>) returns (plans: seq<(Id, State)>)
      ensures plans == Flushed(results, wave)
    {
      plans := [];
      var i := 0;
      while i < |wave|
        invariant 0 <= i <= |wave| && plans == Flushed(results, wave[..i])
      {
        plans := plans + [(wave[i], if wave[i] in results then results[wave[i]] else Skipped)];
        i := i + 1;
      }
      assert wave[..i] == wave;
    }

    /** One worker moves: it leaves, takes the next Plan off the channel, or finishes the one it has. */
    method WorkerMoves(worker: nat, ready: seq<Id>, ctxDone: bool, pool0: Pool, ghost before: map<Id, State>, ghost calls0: seq<Id>)
      returns (pool: Pool)
      requires worker in pool0.alive && Working(job, ready, before, calls0, pool0, results, calls)
      requires pool0.cancelled ==> ctxDone
      modifies this
      ensures Working(job, ready, before, calls0, pool, results, calls)
      ensures pool.workers == pool0.workers && (pool.cancelled ==> pool0.cancelled || ctxDone)
      ensures Shrinks(pool0, pool)
    {
      if worker in pool0.running {
        var id := pool0.running[worker];
        CompleteOne(job, before, pool0.done, id);
        Complete(id);
        pool := pool0.(running := pool0.running - {worker}, done := pool0.done + {id});
        FinishKeeps(job, ready, before, calls0, pool0, worker, pool, calls);
      } else if pool0.queue == [] {
        pool := pool0.(alive := pool0.alive - {worker});
      } else {
        var item := pool0.queue[0];
        if ctxDone {
          DropKeeps(pool0.queue, calls);
          pool := pool0.(queue := pool0.queue[1..], alive := pool0.alive - {worker}, cancelled := true);
        } else {
          pool := pool0.(queue := pool0.queue[1..], running := pool0.running[worker := item]);
          calls := calls + [item];
          TakeKeeps(job, ready, before, calls0, pool0, worker, pool, results, calls);
        }
      }
    }

    /** The workers of a wave, interleaved in any way. Without cancellation every Plan is completed with
        its own outcome, whatever the interleaving and the number of workers. */
    method ExecuteWave(ready: seq<Id>, cancellable: bool) returns (err: bool, ghost done: set<Id>)
      modifies this
      ensures !cancellable ==> !err
      ensures done <= Elems(ready) && (!err ==> done == Elems(ready))
      ensures results == WithCompleted(job, old(results), done)
      ensures multiset(calls) <= multiset(old(calls)) + multiset(ready)
      ensures !err ==> multiset(calls) == multiset(old(calls)) + multiset(ready)
    {
      ghost var before, calls0 := results, calls;
      NothingCompleted(job, before);
      if |ready| == 0 {
        return false, {};
      }
      var limit := if job.parallelism <= 0 then 1 else job.parallelism;
      var workers: nat := if limit > |ready| then |ready| else limit;
      var pool := Pool(ready, map[], Crew(workers), {}, workers, false);
      assert 0 in pool.alive;
      var ctxDone := false;
      while pool.alive != {}
        invariant Working(job, ready, before, calls0, pool, results, calls)
        invariant (ctxDone ==> cancellable) && (pool.cancelled ==> ctxDone)
        decreases |pool.queue|, pool.running.Keys, pool.alive
      {
        if cancellable && !ctxDone {
          ctxDone := *;
        }
        var worker :| worker in pool.alive;
        pool := WorkerMoves(worker, ready, ctxDone, pool, before, calls0);
      }
      err, done := pool.cancelled, pool.done;
    }
  }

  function Crew(workers: nat): (r: set<nat>)
    ensures forall w: nat :: w in r <==> w < workers
  {
    if workers == 0 then {} else Crew(workers - 1) + {workers - 1}
  }

  /** A wave in progress: the channel, what each busy worker has, the workers left, and the Plans
      completed. cancelled says that some worker has seen the context done. */
  datatype Pool = Pool(
    queue: seq<Id>, running: map<nat, Id>, alive: set<nat>, done: set<Id>, workers: nat, cancelled: bool)

  ghost predicate Working(
    job: Job, ready: seq<Id>, before: map<Id, State>, calls0: seq<Id>, pool: Pool, results: map<Id, State>,
    calls: seq<Id>)
  {
    && results == WithCompleted(job, before, pool.done)
    && pool.done <= Elems(ready) && Elems(pool.queue) <= Elems(ready)
    && pool.running.Keys <= pool.alive && (forall w :: w in pool.running ==> pool.running[w] in ready)
    && (forall w :: w in pool.alive ==> w < pool.workers) && pool.workers > 0
    && (!pool.cancelled ==> Accounted(ready, pool))
    && (pool.alive == {} ==> pool.queue == [] || pool.cancelled)
    && Calling(ready, calls0, pool, calls)
  }

  /** Implement has been called once for each Plan taken off the channel, except those dropped. */
  ghost predicate Calling(ready: seq<Id>, calls0: seq<Id>, pool: Pool, calls: seq<Id>) {
    && multiset(calls) + multiset(pool.queue) <= multiset(calls0) + multiset(ready)
    && (!pool.cancelled ==> multiset(calls) + multiset(pool.queue) == multiset(calls0) + multiset(ready))
  }

  /** Every Plan is queued, at work or done. */
  ghost predicate Accounted(ready: seq<Id>, pool: Pool) {
    forall x :: x in ready ==> x in pool.queue || x in pool.done || exists w :: w in pool.running && pool.running[w] == x
  }

  predicate Shrinks(pool0: Pool, pool: Pool) {
    || |pool.queue| < |pool0.queue|
    || (pool.queue == pool0.queue && pool.running.Keys < pool0.running.Keys)
    || (pool.queue == pool0.queue && pool.running == pool0.running && pool.alive < pool0.alive)
  }

  lemma NothingCompleted(job: Job, results: map<Id, State>)
    ensures WithCompleted(job, results, {}) == results
  {
  }

  lemma FinishKeeps(
    job: Job, ready: seq<Id>, before: map<Id, State>, calls0: seq<Id>, pool0: Pool, worker: nat, pool: Pool, calls: seq<Id>)
    requires Working(job, ready, before, calls0, pool0, WithCompleted(job, before, pool0.done), calls)
    requires worker in pool0.running
    requires pool == pool0.(running := pool0.running - {worker}, done := pool0.done + {pool0.running[worker]})
    ensures Working(job, ready, before, calls0, pool, WithCompleted(job, before, pool.done), calls)
    ensures Shrinks(pool0, pool)
  {
    assert worker !in pool.running && pool.running.Keys < pool0.running.Keys;
    if !pool.cancelled {
      forall x | x in ready
        ensures x in pool.queue || x in pool.done || exists w :: w in pool.running && pool.running[w] == x
      {
        if w :| w in pool0.running && pool0.running[w] == x {
          if w != worker {
            assert w in pool.running && pool.running[w] == x;
          }
        }
      }
    }
  }

  lemma DropKeeps(queue: seq<Id>, calls: seq<Id>)
    requires queue != []
    ensures multiset(calls) + multiset(queue[1..]) <= multiset(calls) + multiset(queue)
  {
    assert queue == [queue[0]] + queue[1..];
  }

  lemma TakeKeeps(
    job: Job, ready: seq<Id>, before: map<Id, State>, calls0: seq<Id>, pool0: Pool, worker: nat, pool: Pool,
    results: map<Id, State>, calls: seq<Id>)
    requires calls != [] && pool0.queue != [] && calls[|calls| - 1] == pool0.queue[0]
    requires Working(job, ready, before, calls0, pool0, results, calls[..|calls| - 1])
    requires worker in pool0.alive && worker !in pool0.running
    requires pool == pool0.(queue := pool0.queue[1..], running := pool0.running[worker := pool0.queue[0]])
    ensures Working(job, ready, before, calls0, pool, results, calls)
  {
    var item := pool0.queue[0];
    assert item in Elems(pool0.queue);
    assert forall x :: x in pool0.queue <==> x == item || x in pool.queue;
    InitLast(calls);
    assert pool0.queue == [item] + pool.queue;
    assert multiset(calls) + multiset(pool.queue) == multiset(calls[..|calls| - 1]) + multiset(pool0.queue);
    if !pool.cancelled {
      forall x | x in ready
        ensures x in pool.queue || x in pool.done || exists w :: w in pool.running && pool.running[w] == x
      {
        if x == item {
          assert worker in pool.running && pool.running[worker] == x;
        } else if w :| w in pool0.running && pool0.running[w] == x {
          assert w in pool.running && pool.running[w] == x;
        }
      }
    }
  }

  lemma StillIndependent(job: Job, wave: seq<Id>, i: nat, results: map<Id, State>, now: map<Id, State>)
    requires i < |wave| && wave[i] in job.records && Independent(job, wave)
    requires now == results + Classified(job, results, wave[..i])
    ensures Classify(job, now, job.records[wave[i]]) == Classify(job, results, job.records[wave[i]])
  {
    assert wave[i] in wave;
    assert forall x :: x in wave[..i] ==> x in wave;
    SameClass(job, results, now, job.records[wave[i]]);
  }

  /** The entries of a listing that have a result. */
  function Listing(results: map<Id, State>, ids: seq<Id>): seq<(Id, State)> {
    if ids == [] then []
    else
      var last := ids[|ids| - 1];
      Listing(results, ids[..|ids| - 1]) + if last in results then [(last, results[last])] else []
  }

  lemma {:induction false} ListingConcat(results: map<Id, State>, a: seq<Id>, b: seq<Id>)
    ensures Listing(results, a + b) == Listing(results, a) + Listing(results, b)
  {
    if b == [] {
      assert a + b == a;
    } else {
      ListingConcat(results, a, b[..|b| - 1]);
      assert (a + b)[..|a + b| - 1] == a + b[..|b| - 1];
    }
  }

  function Flushed(results: map<Id, State>, ids: seq<Id>): (r: seq<(Id, State)>)
    ensures |r| == |ids|
  {
    seq(|ids|, i requires 0 <= i < |ids| => (ids[i], if ids[i] in results then results[ids[i]] else Skipped))
  }

  /** Two maps with the same entries. */
  lemma SameMap(a: map<Id, State>, b: map<Id, State>)
    requires forall x :: x in a <==> x in b
    requires forall x :: x in a ==> a[x] == b[x]
    ensures a == b
  {
  }

  lemma SkipSplits(job: Job, before: map<Id, State>, wave: seq<Id>, ready: seq<Id>)
    requires forall x :: x in ready <==>
      x in wave && x in job.records && Classify(job, before, job.records[x]).None?
    ensures Skipping(before + Classified(job, before, wave), ready) == WaveResults(job, before, wave, true)
  {
    SameMap(Skipping(before + Classified(job, before, wave), ready), WaveResults(job, before, wave, true));
  }

  lemma RunSplits(job: Job, before: map<Id, State>, wave: seq<Id>, ready: set<Id>)
    requires forall x :: x in ready <==>
      x in wave && x in job.records && Classify(job, before, job.records[x]).None?
    ensures WithCompleted(job, before + Classified(job, before, wave), ready) == WaveResults(job, before, wave, false)
  {
    SameMap(WithCompleted(job, before + Classified(job, before, wave), ready), WaveResults(job, before, wave, false));
  }

  /** Before wave k nothing is recorded for its Plans. */
  lemma NotYetRecorded(job: Job, k: nat)
    requires WellFormed(job) && k < |job.waves|
    ensures forall x :: x in job.waves[k] ==> x !in After(job, k).results
  {
    forall x | x in job.waves[k]
      ensures x !in After(job, k).results
    {
      if x in After(job, k).results {
        var j := RecordedIn(job, k, x);
        assert false;
      }
    }
  }

  lemma PartOfWave(job: Job, before: map<Id, State>, wave: seq<Id>, done: set<Id>)
    requires forall x :: x in wave ==> x !in before
    requires done <= Elems(ReadyOf(job, before, wave))
    ensures PartOf(WithCompleted(job, before + Classified(job, before, wave), done), WaveResults(job, before, wave, false))
  {
    ReadyMembers(job, before, wave);
    var some, whole := WithCompleted(job, before + Classified(job, before, wave), done), WaveResults(job, before, wave, false);
    forall x | x in some
      ensures x in whole && whole[x] == some[x]
    {
      if x in done {
        assert x in Elems(ReadyOf(job, before, wave));
      } else if x in before {
        assert x !in wave;
      }
    }
  }

  lemma KnownIsPartOfFinal(job: Job, k: nat, results: map<Id, State>)
    requires WellFormed(job) && k <= |job.waves| && PartOf(results, After(job, k).results)
    ensures PartOf(results, After(job, |job.waves|).results)
  {
    forall x | x in results
      ensures x in After(job, |job.waves|).results && After(job, |job.waves|).results[x] == results[x]
    {
      KnownIsFinal(job, k, x);
    }
  }

  /** What a batch promises. Without cancellation the results are those of After, whatever the parallelism and
      the interleaving, and Implement is called for each Plan that needs a run as often as its wave lists it. A
      cancelled batch lists every Plan, each with the result it would have had or as skipped. */
  ghost predicate Ran(job: Job, plans: seq<(Id, State)>, err: bool, calls: seq<Id>) {
    && (!err ==> plans == Listing(After(job, |job.waves|).results, Status.Flatten(job.waves)))
    && (err ==> exists results ::
          PartOf(results, After(job, |job.waves|).results) && plans == Flushed(results, Status.Flatten(job.waves)))
    && CallsAtMost(job, calls) && (!err ==> CallsAsListed(job, calls))
  }

  lemma RanPart(job: Job, k: nat, results: map<Id, State>, plans: seq<(Id, State)>, calls: seq<Id>)
    requires WellFormed(job) && CutAt(job, k, results, calls) && plans == Flushed(results, Status.Flatten(job.waves))
    ensures Ran(job, plans, true, calls)
  {
    CutIsPart(job, k, results, calls);
    KnownIsPartOfFinal(job, k, results);
    FewCalls(job, k, calls);
  }

  /** For a well-formed job that is what a batch promises. */
  lemma RanInTurnSoRan(job: Job, plans: seq<(Id, State)>, err: bool, calls: seq<Id>)
    requires WellFormed(job) && RanInTurn(job, plans, err, calls)
    ensures Ran(job, plans, err, calls)
  {
    if err {
      var k: nat, results :|
        CutAt(job, k, results, calls) && plans == Flushed(results, Status.Flatten(job.waves));
      RanPart(job, k, results, plans, calls);
    } else {
      StageIsAfter(job, |job.waves|);
      TakenIsCallsBefore(job, |job.waves|);
      FewCalls(job, |job.waves|, calls);
      AllCalls(job, calls);
    }
  }

  /** The whole batch. */
  method Execute(job: Job, cancellable: bool) returns (plans: seq<(Id, State)>, err: bool, ghost calls: seq<Id>)
    ensures !cancellable ==> !err
    ensures RanInTurn(job, plans, err, calls)
    ensures WellFormed(job) ==> Ran(job, plans, err, calls)
  {
    var state := new BatchState(job);
    ghost var k, stopped;
    err, k, stopped := state.RunWaves(cancellable);
    calls := state.calls;
    if err {
      plans := state.FlushRemaining();
    } else {
      plans := state.SortedResults();
    }
    assert RanInTurn(job, plans, err, calls);
    if WellFormed(job) {
      RanInTurnSoRan(job, plans, err, calls);
    }
  }

  lemma {:induction false} ReadyCount(job: Job, results: map<Id, State>, wave: seq<Id>, x: Id)
    ensures multiset(ReadyOf(job, results, wave))[x] ==
      if x in job.records && Classify(job, results, job.records[x]).None? then multiset(wave)[x] else 0
  {
    if wave != [] {
      var init := wave[..|wave| - 1];
      InitLast(wave);
      CountSnoc(init, wave[|wave| - 1], x);
      ReadyCount(job, results, init, x);
      CountSnoc(ReadyOf(job, results, init), wave[|wave| - 1], x);
    }
  }

  lemma CountIn(job: Job, k: nat, x: Id)
    requires k < |job.waves|
    ensures multiset(CallsIn(job, k))[x] == if MayCall(job, k, x) then multiset(job.waves[k])[x] else 0
  {
    ReadyCount(job, After(job, k).results, job.waves[k], x);
    assert x in job.waves[k] <==> multiset(job.waves[k])[x] > 0;
  }

  lemma CountTake(job: Job, k: nat, x: Id)
    requires k < |job.waves|
    ensures multiset(CallsBefore(job, k + 1))[x] ==
      multiset(CallsBefore(job, k))[x] + if MayCall(job, k, x) then multiset(job.waves[k])[x] else 0
  {
    CountIn(job, k, x);
    CountConcat(CallsBefore(job, k), CallsIn(job, k), x);
  }

  /** The calls of the first k waves, seen from one of them. */
  lemma {:induction false} CountBefore(job: Job, k: nat, j: nat, x: Id)
    requires WellFormed(job) && k <= |job.waves| && j < |job.waves| && MayCall(job, j, x)
    ensures multiset(CallsBefore(job, k))[x] == if j < k then multiset(job.waves[j])[x] else 0
    decreases k
  {
    if k > 0 {
      var i := k - 1;
      CountBefore(job, i, j, x);
      CountTake(job, i, x);
      if i != j {
        NotInBoth(job, i, j, x);
      }
    }
  }

  lemma NotInBoth(job: Job, i: nat, j: nat, x: Id)
    requires WellFormed(job) && i < |job.waves| && j < |job.waves| && i != j && x in job.waves[j]
    ensures !MayCall(job, i, x)
  {
    if x in job.waves[i] {
      OnlyInOneWave(job, i, j, x);
    }
  }

  lemma {:induction false} NeverCounted(job: Job, k: nat, x: Id)
    requires k <= |job.waves| && !Called(job, x)
    ensures multiset(CallsBefore(job, k))[x] == 0
    decreases k
  {
    if k > 0 {
      var i := k - 1;
      NeverCounted(job, i, x);
      CountTake(job, i, x);
    }
  }

  /** Implement is called for each Plan that needs a run as often as its wave lists it, and for no other. */
  ghost predicate CallsAsListed(job: Job, calls: seq<Id>) {
    && (forall x :: x in calls ==> Called(job, x))
    && forall k, x :: 0 <= k < |job.waves| && MayCall(job, k, x) ==> multiset(calls)[x] == multiset(job.waves[k])[x]
  }

  /** ... or less often. */
  ghost predicate CallsAtMost(job: Job, calls: seq<Id>) {
    && (forall x :: x in calls ==> Called(job, x))
    && forall k, x :: 0 <= k < |job.waves| && MayCall(job, k, x) ==> multiset(calls)[x] <= multiset(job.waves[k])[x]
  }

  lemma OnlyCalled(job: Job, k: nat, calls: seq<Id>, x: Id)
    requires k <= |job.waves| && multiset(calls) <= multiset(CallsBefore(job, k)) && x in calls
    ensures Called(job, x)
  {
    assert multiset(calls)[x] > 0;
    if !Called(job, x) {
      NeverCounted(job, k, x);
    }
  }

  lemma FewCalls(job: Job, k: nat, calls: seq<Id>)
    requires WellFormed(job) && k <= |job.waves| && multiset(calls) <= multiset(CallsBefore(job, k))
    ensures CallsAtMost(job, calls)
  {
    forall x | x in calls
      ensures Called(job, x)
    {
      OnlyCalled(job, k, calls, x);
    }
    forall j, x | 0 <= j < |job.waves| && MayCall(job, j, x)
      ensures multiset(calls)[x] <= multiset(job.waves[j])[x]
    {
      CountBefore(job, k, j, x);
    }
  }

  lemma AllCalls(job: Job, calls: seq<Id>)
    requires WellFormed(job) && multiset(calls) == multiset(CallsBefore(job, |job.waves|))
    ensures CallsAsListed(job, calls)
  {
    FewCalls(job, |job.waves|, calls);
    forall j, x | 0 <= j < |job.waves| && MayCall(job, j, x)
      ensures multiset(calls)[x] == multiset(job.waves[j])[x]
    {
      CountBefore(job, |job.waves|, j, x);
    }
  }

  // ---- What the results mean --------------------------------------------------------------------------

  lemma WaveIgnoresParallelism(job: Job, n: int, results: map<Id, State>, wave: seq<Id>, stopped: bool)
    ensures WaveResults(job.(parallelism := n), results, wave, stopped) == WaveResults(job, results, wave, stopped)
  {
    forall id | id in job.records
      ensures Classify(job.(parallelism := n), results, job.records[id]) == Classify(job, results, job.records[id])
    {
      ClassifyIgnoresParallelism(job, n, results, job.records[id]);
    }
    SameMap(WaveResults(job.(parallelism := n), results, wave, stopped), WaveResults(job, results, wave, stopped));
  }

  lemma {:induction false} AfterIgnoresParallelism(job: Job, n: int, k: nat)
    requires k <= |job.waves|
    ensures After(job.(parallelism := n), k) == After(job, k)
  {
    if k > 0 {
      AfterIgnoresParallelism(job, n, k - 1);
      WaveIgnoresParallelism(job, n, After(job, k - 1).results, job.waves[k - 1], After(job, k - 1).stopped);
    }
  }

  lemma CalledIgnoresParallelism(job: Job, n: int, k: nat, x: Id)
    requires k < |job.waves|
    ensures MayCall(job.(parallelism := n), k, x) <==> MayCall(job, k, x)
  {
    AfterIgnoresParallelism(job, n, k);
    if x in job.records {
      ClassifyIgnoresParallelism(job, n, After(job, k).results, job.records[x]);
    }
  }

  /** Two batches that differ in the parallelism only, neither of them cancelled, give the same results in the same
      order and make the same calls. */
  lemma ParallelismDoesNotMatter(
    job: Job, n: int, plans1: seq<(Id, State)>, calls1: seq<Id>, plans2: seq<(Id, State)>, calls2: seq<Id>)
    requires WellFormed(job) && Ran(job, plans1, false, calls1) && Ran(job.(parallelism := n), plans2, false, calls2)
    ensures plans1 == plans2 && multiset(calls1) == multiset(calls2)
  {
    var other := job.(parallelism := n);
    AfterIgnoresParallelism(job, n, |job.waves|);
    forall x
      ensures multiset(calls1)[x] == multiset(calls2)[x]
    {
      CountsAgree(job, n, calls1, calls2, x);
    }
  }

  lemma CountsAgree(job: Job, n: int, calls1: seq<Id>, calls2: seq<Id>, x: Id)
    requires CallsAsListed(job, calls1) && CallsAsListed(job.(parallelism := n), calls2)
    ensures multiset(calls1)[x] == multiset(calls2)[x]
  {
    var other := job.(parallelism := n);
    forall k | 0 <= k < |job.waves|
      ensures MayCall(other, k, x) <==> MayCall(job, k, x)
    {
      CalledIgnoresParallelism(job, n, k, x);
    }
    if k :| 0 <= k < |job.waves| && MayCall(job, k, x) {
      assert MayCall(other, k, x);
    } else {
      assert x !in calls1 && x !in calls2;
      assert multiset(calls1)[x] == 0 == multiset(calls2)[x];
    }
  }

  lemma ClassifyIgnoresParallelism(job: Job, n: int, results: map<Id, State>, record: Record)
    ensures Classify(job.(parallelism := n), results, record) == Classify(job, results, record)
  {
    assert forall dep :: DependencyImplemented(job.(parallelism := n), results, dep) == DependencyImplemented(job, results, dep);
  }

  /** One Plan at a time: each is classified on what is recorded so far and, if need be, run at once. */
  function OneByOne(job: Job, results: map<Id, State>, wave: seq<Id>, stopped: bool): map<Id, State> {
    if wave == [] then results
    else
      var so := OneByOne(job, results, wave[..|wave| - 1], stopped);
      var last := wave[|wave| - 1];
      if last in job.records then so[last := PlanResult(job, so, last, stopped)] else so
  }

  /** What the earlier Plans of the wave record does not matter to the last. */
  lemma LastIsUnaffected(job: Job, results: map<Id, State>, wave: seq<Id>, stopped: bool)
    requires wave != [] && Independent(job, wave) && wave[|wave| - 1] in job.records
    ensures var so := WaveResults(job, results, wave[..|wave| - 1], stopped);
      PlanResult(job, so, wave[|wave| - 1], stopped) == PlanResult(job, results, wave[|wave| - 1], stopped)
  {
    var init, last := wave[..|wave| - 1], wave[|wave| - 1];
    assert last in wave && forall x :: x in init ==> x in wave;
    SameClass(job, results, WaveResults(job, results, init, stopped), job.records[last]);
  }

  lemma IndependentInit(job: Job, wave: seq<Id>)
    requires wave != [] && Independent(job, wave)
    ensures Independent(job, wave[..|wave| - 1])
  {
    var init := wave[..|wave| - 1];
    forall x, dep | x in init && x in job.records && dep in job.records[x].dependsOn
      ensures dep !in init
    {
      assert x in wave && dep !in wave;
      assert dep in init ==> dep in wave;
    }
  }

  /** A parallel wave has the results of running its Plans one at a time, in any order. */
  lemma {:induction false} OneAtATime(job: Job, results: map<Id, State>, wave: seq<Id>, stopped: bool)
    requires Independent(job, wave)
    ensures OneByOne(job, results, wave, stopped) == WaveResults(job, results, wave, stopped)
  {
    if wave == [] {
      SameMap(results, WaveResults(job, results, wave, stopped));
    } else {
      var init := wave[..|wave| - 1];
      IndependentInit(job, wave);
      OneAtATime(job, results, init, stopped);
      if wave[|wave| - 1] in job.records {
        LastIsUnaffected(job, results, wave, stopped);
      }
    }
  }

  /** A result, once recorded, stays. */
  lemma {:induction false} ResultsStay(job: Job, j: nat, k: nat, id: Id)
    requires WellFormed(job) && j < k <= |job.waves| && id in job.waves[j]
    ensures id in After(job, k).results <==> id in After(job, j + 1).results
    ensures id in After(job, k).results ==> After(job, k).results[id] == After(job, j + 1).results[id]
    decreases k
  {
    if k > j + 1 {
      ResultsStay(job, j, k - 1, id);
      assert id !in job.waves[k - 1];
    }
  }

  /** Every listed Plan that the status service knows ends with exactly one result. */
  lemma EveryPlanHasResult(job: Job, j: nat, id: Id)
    requires WellFormed(job) && j < |job.waves| && id in job.waves[j] && id in job.records
    ensures id in After(job, |job.waves|).results
    ensures After(job, |job.waves|).results[id] ==
      PlanResult(job, After(job, j).results, id, After(job, j).stopped)
  {
    ResultsStay(job, j, |job.waves|, id);
  }

  /** The results known before a wave are final. */
  lemma {:induction false} KnownIsFinal(job: Job, k: nat, dep: Id)
    requires WellFormed(job) && k <= |job.waves| && dep in After(job, k).results
    ensures dep in After(job, |job.waves|).results
    ensures After(job, |job.waves|).results[dep] == After(job, k).results[dep]
    decreases |job.waves| - k
  {
    var j := RecordedIn(job, k, dep);
    ResultsStay(job, j, k, dep);
    ResultsStay(job, j, |job.waves|, dep);
  }

  lemma {:induction false} RecordedIn(job: Job, k: nat, dep: Id) returns (j: nat)
    requires k <= |job.waves| && dep in After(job, k).results
    ensures j < k && dep in job.waves[j]
  {
    if dep in After(job, k - 1).results {
      j := RecordedIn(job, k - 1, dep);
    } else {
      j := k - 1;
    }
  }

  /** Implement is called only for a Plan all of whose dependencies end implemented, or are not in the
      batch and have an implemented ledger. */
  lemma CalledOnlyWhenReady(job: Job, id: Id, dep: Id)
    requires WellFormed(job) && Called(job, id) && dep in job.records[id].dependsOn
    requires forall j, k :: 0 <= k <= j < |job.waves| && id in job.waves[k] ==> dep !in job.waves[j]
    ensures var final := After(job, |job.waves|).results;
      if dep in final then final[dep] == Implemented || final[dep] == AlreadyImplemented
      else dep in job.externalStatus && job.externalStatus[dep]
  {
    var k :| 0 <= k < |job.waves| && MayCall(job, k, id);
    var results, final := After(job, k).results, After(job, |job.waves|).results;
    assert DependencyImplemented(job, results, dep);
    if dep in results {
      KnownIsFinal(job, k, dep);
    } else if dep in final {
      var j := RecordedIn(job, |job.waves|, dep);
      assert j < k;
      ResultsStay(job, j, k, dep);
      ResultsStay(job, j, |job.waves|, dep);
    }
  }

  lemma {:induction false} StoppedStays(job: Job, j: nat, k: nat)
    requires j <= k <= |job.waves| && After(job, j).stopped
    ensures After(job, k).stopped
    decreases k
  {
    if j < k {
      StoppedStays(job, j, k - 1);
    }
  }

  lemma OnlyInOneWave(job: Job, k: nat, m: nat, id: Id)
    requires WellFormed(job) && k < |job.waves| && m < |job.waves| && id in job.waves[k] && id in job.waves[m]
    ensures k == m
  {
  }

  /** When the batch stops on failure, nothing is called after a wave with a failure. */
  lemma NoCallAfterFailure(job: Job, j: nat, k: nat, id: Id)
    requires WellFormed(job) && job.stopOnFailure && j < k < |job.waves| && id in job.waves[k]
    requires HadFailure(After(job, j + 1).results, job.waves[j])
    ensures !Called(job, id)
  {
    StoppedStays(job, j + 1, k);
    forall m | 0 <= m < |job.waves|
      ensures !MayCall(job, m, id)
    {
      if id in job.waves[m] {
        OnlyInOneWave(job, k, m, id);
      }
    }
  }

  /** The waves of a selection with distinct IDs make a well-formed job. */
  lemma SelectionIsWellFormed(docs: seq<Document>, cyclic: seq<Id>, job: Job)
    requires DistinctIds(docs) && AreWaves(docs, job.waves, cyclic)
    requires forall d :: d in docs && d.id in job.records ==> job.records[d.id].dependsOn == d.dependsOn
    ensures WellFormed(job)
  {
    forall j, k, x | 0 <= j < k < |job.waves| && x in job.waves[j]
      ensures x !in job.waves[k]
    {
      if x in job.waves[k] {
        InOneWave(docs, job.waves, cyclic, x, j, k);
      }
    }
    forall k | 0 <= k < |job.waves|
      ensures Independent(job, job.waves[k])
    {
      WaveIsIndependent(docs, cyclic, job, k);
    }
  }

  lemma WaveIsIndependent(docs: seq<Document>, cyclic: seq<Id>, job: Job, k: nat)
    requires DistinctIds(docs) && AreWaves(docs, job.waves, cyclic) && k < |job.waves|
    requires forall d :: d in docs && d.id in job.records ==> job.records[d.id].dependsOn == d.dependsOn
    ensures Independent(job, job.waves[k])
  {
    var wave := job.waves[k];
    forall x, dep | x in wave && x in job.records && dep in job.records[x].dependsOn
      ensures dep !in wave
    {
      assert x in Elems(wave);
      var i :| 0 <= i < |docs| && docs[i].id == x;
      assert docs[i] in docs && Names(docs, dep, x);
      NotInSameWave(docs, job.waves, cyclic, x, k, dep);
    }
  }

  /** In a batch over a selection, Implement is called only for a Plan each of whose dependencies ends
      implemented, or is not selected and has an implemented ledger. */
  lemma SelectedPlansWait(docs: seq<Document>, cyclic: seq<Id>, job: Job, id: Id, dep: Id)
    requires DistinctIds(docs) && AreWaves(docs, job.waves, cyclic) && WellFormed(job)
    requires forall d :: d in docs && d.id in job.records ==> job.records[d.id].dependsOn == d.dependsOn
    requires Called(job, id) && dep in job.records[id].dependsOn
    ensures var final := After(job, |job.waves|).results;
      if dep in final then final[dep] == Implemented || final[dep] == AlreadyImplemented
      else dep in job.externalStatus && job.externalStatus[dep]
  {
    forall j, k | 0 <= k <= j < |job.waves| && id in job.waves[k]
      ensures dep !in job.waves[j]
    {
      NotInLaterWave(docs, cyclic, job, k, j, id, dep);
    }
    CalledOnlyWhenReady(job, id, dep);
  }

  lemma NotInLaterWave(docs: seq<Document>, cyclic: seq<Id>, job: Job, k: nat, j: nat, id: Id, dep: Id)
    requires DistinctIds(docs) && AreWaves(docs, job.waves, cyclic) && k <= j < |job.waves| && id in job.waves[k]
    requires forall d :: d in docs && d.id in job.records ==> job.records[d.id].dependsOn == d.dependsOn
    requires id in job.records && dep in job.records[id].dependsOn
    ensures dep !in job.waves[j]
  {
    if dep in job.waves[j] {
      assert id in Elems(job.waves[k]) && dep in Elems(job.waves[j]);
      var i :| 0 <= i < |docs| && docs[i].id == id;
      assert docs[i] in docs && Names(docs, dep, id);
      var m := DependencyInEarlierWave(docs, job.waves, cyclic, id, k, dep);
      InOneWave(docs, job.waves, cyclic, dep, m, j);
      assert false;
    }
  }
}
