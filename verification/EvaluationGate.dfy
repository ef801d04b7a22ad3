/**
 The gate in front of published metrics (`scripts/benchmark_contract/evaluation.py`):
 coverage of the scheduled jobs, contract failures, counts, and the final withdrawal.
 */
module EvaluationGate {
  import opened Wrappers
  import opened FirstSeen

  /** A classification of the failure taxonomy, or a name outside it. */
  datatype Class = Completed | NotApplicable | Failed(kind: string) | Unknown(name: string)

  /** `mutating` are the jobs with declared native operations. */
  datatype Suite = Suite(ids: seq<string>, mutating: set<string>, retrieval: bool)

  datatype Contexts = Omitted | Malformed | Ranked

  datatype RawJob = RawJob(id: string, classification: Class, contexts: Contexts, missingOperations: bool)

  datatype RawPhase = RawPhase(status: Option<Class>, jobs: seq<RawJob>)

  datatype Unit = Unit(
    schemaMatches: bool, targetMatches: bool, resultClass: Class, ingestCount: int, warmReusedState: bool,
    eligible: bool, cold: Option<RawPhase>, warm: Option<RawPhase>)

  datatype Failure =
    | OmittedContexts(id: string)
    | MalformedContexts(id: string)
    | OmittedOperations(id: string)
    | PhaseNotCompleted(warm: bool)
    | InexactCoverage(warm: bool)
    | RowsNotCompleted(warm: bool)

  datatype Row = Row(id: string, classification: Class)

  datatype Coverage = Coverage(missing: set<string>, unexpected: set<string>, duplicates: set<string>, passed: bool)

  /** `metrics` says whether the phase publishes metrics; what they are is not part of the gate. */
  datatype PhaseReport = PhaseReport(
    classification: Class, denominator: bool, coverage: Coverage, rows: seq<Row>,
    completed: nat, failed: nat, notApplicable: nat, scored: nat, metrics: bool)

  datatype Report = Report(classification: Class, failures: seq<Failure>, cold: PhaseReport, warm: PhaseReport)

  datatype Invalid =
    | InvalidSuite | WrongSchema | WrongTarget | UnknownResultClass | NotIngestedOnce | StateNotReused
    | EligibilityDiffers | UnknownClassification

  // --------------------------------------------------------------- one phase's rows

  /** An opaque job id is mapped back to the suite's own; any other name stands for itself. */
  function Normal(ids: seq<string>, opaqueId: string -> string, raw: string): string {
    if ids == [] then raw
    else if opaqueId(ids[|ids| - 1]) == raw then ids[|ids| - 1]
    else Normal(ids[..|ids| - 1], opaqueId, raw)
  }

  function NormalIds(suite: Suite, opaqueId: string -> string, jobs: seq<RawJob>): seq<string> {
    if jobs == [] then []
    else NormalIds(suite, opaqueId, jobs[..|jobs| - 1]) + [Normal(suite.ids, opaqueId, jobs[|jobs| - 1].id)]
  }

  /** Only scheduled jobs become rows. */
  function RowsOf(suite: Suite, opaqueId: string -> string, jobs: seq<RawJob>): seq<Row> {
    if jobs == [] then []
    else
      var job := jobs[|jobs| - 1];
      var id := Normal(suite.ids, opaqueId, job.id);
      RowsOf(suite, opaqueId, jobs[..|jobs| - 1]) + if id in suite.ids then [Row(id, job.classification)] else []
  }

  function JobFailures(suite: Suite, warm: bool, id: string, job: RawJob): seq<Failure> {
    if !warm || id !in suite.ids then []
    else
      (if id !in suite.mutating then []
       else match job.contexts
         case Omitted => [OmittedContexts(id)]
         case Malformed => [MalformedContexts(id)]
         case Ranked => [])
      + if job.missingOperations then [OmittedOperations(id)] else []
  }

  function NativeFailures(suite: Suite, warm: bool, opaqueId: string -> string, jobs: seq<RawJob>): seq<Failure> {
    if jobs == [] then []
    else
      var job := jobs[|jobs| - 1];
      NativeFailures(suite, warm, opaqueId, jobs[..|jobs| - 1])
      + JobFailures(suite, warm, Normal(suite.ids, opaqueId, job.id), job)
  }

  /** Opaque names stand for the suite's ids, every other name for itself. */
  lemma {:induction false} NormalMeans(ids: seq<string>, opaqueId: string -> string, raw: string)
    requires forall x, y :: x in ids && y in ids && opaqueId(x) == opaqueId(y) ==> x == y
    ensures forall id :: id in ids && opaqueId(id) == raw ==> Normal(ids, opaqueId, raw) == id
    ensures (forall id :: id in ids ==> opaqueId(id) != raw) ==> Normal(ids, opaqueId, raw) == raw
  {
    if ids != [] {
      var front, last := ids[..|ids| - 1], ids[|ids| - 1];
      assert ids == front + [last];
      NormalMeans(front, opaqueId, raw);
    }
  }

  predicate Scheduled(suite: Suite, opaqueId: string -> string, job: RawJob) {
    Normal(suite.ids, opaqueId, job.id) in suite.ids
  }

  /** A scheduled job reported all its operations and, if it mutates, a well-formed ranked readback. */
  predicate ReadBack(suite: Suite, opaqueId: string -> string, job: RawJob) {
    !job.missingOperations && (Normal(suite.ids, opaqueId, job.id) in suite.mutating ==> job.contexts == Ranked)
  }

  lemma {:induction false} NoNativeFailuresIff(suite: Suite, opaqueId: string -> string, jobs: seq<RawJob>)
    ensures NativeFailures(suite, true, opaqueId, jobs) == [] <==>
            forall i :: 0 <= i < |jobs| && Scheduled(suite, opaqueId, jobs[i]) ==> ReadBack(suite, opaqueId, jobs[i])
  {
    if jobs != [] {
      var front, last := jobs[..|jobs| - 1], jobs[|jobs| - 1];
      assert jobs == front + [last];
      NoNativeFailuresIff(suite, opaqueId, front);
    }
  }

  lemma {:induction false} AllCompletedIff(suite: Suite, opaqueId: string -> string, jobs: seq<RawJob>)
    ensures AllCompleted(RowsOf(suite, opaqueId, jobs)) <==>
            forall i :: 0 <= i < |jobs| && Scheduled(suite, opaqueId, jobs[i]) ==> jobs[i].classification == Completed
  {
    if jobs != [] {
      var front, last := jobs[..|jobs| - 1], jobs[|jobs| - 1];
      assert jobs == front + [last];
      AllCompletedIff(suite, opaqueId, front);
      assert forall i :: 0 <= i < |front| ==> front[i] == jobs[i];
      AllCompletedSnoc(RowsOf(suite, opaqueId, front), Row(Normal(suite.ids, opaqueId, last.id), last.classification));
      assert RowsOf(suite, opaqueId, front) + [] == RowsOf(suite, opaqueId, front);
    }
  }

  lemma AllCompletedSnoc(rows: seq<Row>, row: Row)
    ensures AllCompleted(rows + [row]) <==> AllCompleted(rows) && row.classification == Completed
  {
    var all := rows + [row];
    assert all[|rows|] == row && forall i :: 0 <= i < |rows| ==> all[i] == rows[i];
  }

  lemma {:induction false} NormalIdsAt(suite: Suite, opaqueId: string -> string, jobs: seq<RawJob>)
    ensures |NormalIds(suite, opaqueId, jobs)| == |jobs|
    ensures forall i :: 0 <= i < |jobs| ==>
              NormalIds(suite, opaqueId, jobs)[i] == Normal(suite.ids, opaqueId, jobs[i].id)
  {
    if jobs != [] { NormalIdsAt(suite, opaqueId, jobs[..|jobs| - 1]); }
  }

  /** Every row is the classification of a scheduled job, and every scheduled job has its row, in order. */
  lemma {:induction false} RowsMean(suite: Suite, opaqueId: string -> string, jobs: seq<RawJob>)
    ensures |RowsOf(suite, opaqueId, jobs)| <= |jobs|
    ensures forall row :: row in RowsOf(suite, opaqueId, jobs) <==>
              exists i :: 0 <= i < |jobs| && jobs[i].classification == row.classification
                          && row.id == Normal(suite.ids, opaqueId, jobs[i].id) && row.id in suite.ids
    ensures (forall i :: 0 <= i < |jobs| ==> Normal(suite.ids, opaqueId, jobs[i].id) in suite.ids) ==>
              && |RowsOf(suite, opaqueId, jobs)| == |jobs|
              && forall i :: 0 <= i < |jobs| ==>
                   RowsOf(suite, opaqueId, jobs)[i]
                   == Row(Normal(suite.ids, opaqueId, jobs[i].id), jobs[i].classification)
  {
    hide Normal;
    if jobs != [] {
      var front, last := jobs[..|jobs| - 1], jobs[|jobs| - 1];
      assert jobs == front + [last];
      RowsMean(suite, opaqueId, front);
      forall row ensures row in RowsOf(suite, opaqueId, jobs) <==>
                         || row in RowsOf(suite, opaqueId, front)
                         || (&& last.classification == row.classification && row.id in suite.ids
                             && row.id == Normal(suite.ids, opaqueId, last.id)) {}
    }
  }

  /** What a job must report for a failure of a kind: only scheduled jobs of the warm phase can fail natively. */
  ghost predicate Causes(suite: Suite, opaqueId: string -> string, job: RawJob, failure: Failure) {
    && Scheduled(suite, opaqueId, job)
    && match failure
       case OmittedContexts(id) =>
         id == Normal(suite.ids, opaqueId, job.id) && id in suite.mutating && job.contexts == Omitted
       case MalformedContexts(id) =>
         id == Normal(suite.ids, opaqueId, job.id) && id in suite.mutating && job.contexts == Malformed
       case OmittedOperations(id) => id == Normal(suite.ids, opaqueId, job.id) && job.missingOperations
       case _ => false
  }

  lemma JobCauses(suite: Suite, opaqueId: string -> string, job: RawJob, f: Failure)
    ensures f in JobFailures(suite, true, Normal(suite.ids, opaqueId, job.id), job) <==> Causes(suite, opaqueId, job, f)
  {
    hide Normal;
  }

  lemma {:induction false} NativeFailuresMean(suite: Suite, opaqueId: string -> string, jobs: seq<RawJob>, f: Failure)
    ensures f in NativeFailures(suite, true, opaqueId, jobs) <==>
            exists i :: 0 <= i < |jobs| && Causes(suite, opaqueId, jobs[i], f)
  {
    if jobs != [] {
      var front, last := jobs[..|jobs| - 1], jobs[|jobs| - 1];
      assert jobs == front + [last];
      NativeFailuresMean(suite, opaqueId, front, f);
      JobCauses(suite, opaqueId, last, f);
      hide Causes, JobFailures, Normal;
      assert forall i :: 0 <= i < |front| ==> jobs[i] == front[i];
    }
  }

  predicate KnownJobs(jobs: seq<RawJob>) { forall i :: 0 <= i < |jobs| ==> !jobs[i].classification.Unknown? }

  predicate AllCompleted(rows: seq<Row>) { forall i :: 0 <= i < |rows| ==> rows[i].classification == Completed }

  function StatusOf(raw: Option<RawPhase>, resultClass: Class): Class {
    if raw.Some? && raw.value.status.Some? then raw.value.status.value else resultClass
  }

  function JobsOf(raw: Option<RawPhase>): seq<RawJob> { if raw.Some? then raw.value.jobs else [] }

  // --------------------------------------------------------------------- coverage

  /** The reported ids are a permutation of the suite's. */
  predicate Exact(suite: Suite, reported: seq<string>) { multiset(reported) == multiset(suite.ids) }

  lemma {:induction false} DistinctMultiplicity(xs: seq<string>, x: string)
    requires NoDuplicates(xs)
    ensures multiset(xs)[x] == if x in xs then 1 else 0
  {
    if xs != [] {
      var front, last := xs[..|xs| - 1], xs[|xs| - 1];
      assert xs == front + [last];
      DistinctMultiplicity(front, x);
    }
  }

  lemma CoverageIsPermutation(suite: Suite, reported: seq<string>, expected: set<string>, actual: set<string>,
          duplicates: set<string>)
    requires NoDuplicates(suite.ids)
    requires forall x :: x in expected <==> x in suite.ids
    requires forall x :: x in actual <==> x in reported
    requires forall x :: x in duplicates <==> multiset(reported)[x] > 1
    ensures expected == actual && duplicates == {} && |reported| == |suite.ids| <==> Exact(suite, reported)
  {
    forall x ensures multiset(suite.ids)[x] == if x in suite.ids then 1 else 0 { DistinctMultiplicity(suite.ids, x); }
    if expected == actual && duplicates == {} {
      forall x ensures multiset(reported)[x] == multiset(suite.ids)[x] {
        assert x in expected <==> x in actual;
        assert x !in duplicates;
      }
    }
    if Exact(suite, reported) {
      assert |multiset(reported)| == |reported| && |multiset(suite.ids)| == |suite.ids|;
      forall x ensures x in expected <==> x in actual {
        assert x in multiset(reported) <==> x in multiset(suite.ids);
      }
    }
  }

  // -------------------------------------------------------------------- one phase

  /** Everything a phase reports, before a later contract failure may withdraw its metrics. */
  ghost predicate Reports(suite: Suite, warm: bool, opaqueId: string -> string, raw: Option<RawPhase>, unit: Unit,
          r: PhaseReport)
  {
    var jobs := JobsOf(raw);
    var rows := RowsOf(suite, opaqueId, jobs);
    && r.classification == StatusOf(raw, unit.resultClass)
    && r.rows == rows && r.completed + r.failed + r.notApplicable == |rows|
    && (r.completed == |rows| <==> AllCompleted(rows))
    && (r.coverage.passed <==> Exact(suite, NormalIds(suite, opaqueId, jobs)))
    && (forall x :: x in r.coverage.missing <==> x in suite.ids && x !in NormalIds(suite, opaqueId, jobs))
    && (forall x :: x in r.coverage.unexpected <==> x !in suite.ids && x in NormalIds(suite, opaqueId, jobs))
    && (forall x :: x in r.coverage.duplicates <==> multiset(NormalIds(suite, opaqueId, jobs))[x] > 1)
    && (r.denominator <==>
          && unit.resultClass == Completed && unit.eligible && r.classification == Completed
          && r.coverage.passed && AllCompleted(rows) && (warm || suite.retrieval))
    && (r.metrics <==> r.denominator && rows != [])
    && r.scored == (if r.metrics then r.completed else 0)
  }

  /** What a completed unit may not report about a phase. */
  function PhaseFailures(warm: bool, unit: Unit, r: PhaseReport): seq<Failure> {
    if unit.resultClass != Completed then []
    else
      (if r.classification != Completed then [PhaseNotCompleted(warm)] else [])
      + (if !r.coverage.passed then [InexactCoverage(warm)] else [])
      + if r.completed != |r.rows| then [RowsNotCompleted(warm)] else []
  }

  method CollectRows(suite: Suite, warm: bool, opaqueId: string -> string, jobs: seq<RawJob>)
    returns (known: bool, ids: seq<string>, rows: seq<Row>, failures: seq<Failure>)
    ensures known <==> KnownJobs(jobs)
    ensures known ==> ids == NormalIds(suite, opaqueId, jobs) && rows == RowsOf(suite, opaqueId, jobs)
    ensures known ==> failures == NativeFailures(suite, warm, opaqueId, jobs)
  {
    known, ids, rows, failures := true, [], [], [];
    for i := 0 to |jobs|
      invariant KnownJobs(jobs[..i])
      invariant ids == NormalIds(suite, opaqueId, jobs[..i]) && rows == RowsOf(suite, opaqueId, jobs[..i])
      invariant failures == NativeFailures(suite, warm, opaqueId, jobs[..i])
    {
      var job := jobs[i];
      assert jobs[..i + 1][..i] == jobs[..i];
      if job.classification.Unknown? {
        return false, [], [], [];
      }
      var id := Normal(suite.ids, opaqueId, job.id);
      ids := ids + [id];
      if id in suite.ids {
        var more := CheckJob(suite, warm, id, job);
        failures := failures + more;
        rows := rows + [Row(id, job.classification)];
      }
    }
    assert jobs[..|jobs|] == jobs;
  }

  method CheckJob(suite: Suite, warm: bool, id: string, job: RawJob) returns (failures: seq<Failure>)
    requires id in suite.ids
    ensures failures == JobFailures(suite, warm, id, job)
  {
    failures := [];
    if warm && id in suite.mutating {
      if job.contexts == Omitted {
        failures := failures + [OmittedContexts(id)];
      } else if job.contexts == Malformed {
        failures := failures + [MalformedContexts(id)];
      }
    }
    if warm && job.missingOperations {
      failures := failures + [OmittedOperations(id)];
    }
  }

  function Tally(rows: seq<Row>, classification: Class): nat {
    if rows == [] then 0
    else Tally(rows[..|rows| - 1], classification) + if rows[|rows| - 1].classification == classification then 1 else 0
  }

  method Count(rows: seq<Row>) returns (completed: nat, failed: nat, notApplicable: nat)
    ensures completed + failed + notApplicable == |rows|
    ensures completed == |rows| <==> AllCompleted(rows)
    ensures completed == Tally(rows, Completed) && notApplicable == Tally(rows, NotApplicable)
  {
    completed, failed, notApplicable := 0, 0, 0;
    for i := 0 to |rows|
      invariant completed + failed + notApplicable == i
      invariant completed == i <==> forall k :: 0 <= k < i ==> rows[k].classification == Completed
      invariant completed == Tally(rows[..i], Completed) && notApplicable == Tally(rows[..i], NotApplicable)
    {
      assert rows[..i + 1][..i] == rows[..i];
      match rows[i].classification {
        case Completed => completed := completed + 1;
        case NotApplicable => notApplicable := notApplicable + 1;
        case _ => failed := failed + 1;
      }
    }
    assert rows[..|rows|] == rows;
  }

  method Cover(suite: Suite, ids: seq<string>) returns (coverage: Coverage)
    requires NoDuplicates(suite.ids)
    ensures coverage.passed <==> Exact(suite, ids)
    ensures forall x :: x in coverage.missing <==> x in suite.ids && x !in ids
    ensures forall x :: x in coverage.unexpected <==> x !in suite.ids && x in ids
    ensures forall x :: x in coverage.duplicates <==> multiset(ids)[x] > 1
  {
    var expected := set x | x in suite.ids;
    var actual := set x | x in ids;
    var duplicates := set x | x in ids && multiset(ids)[x] > 1;
    CoverageIsPermutation(suite, ids, expected, actual, duplicates);
    coverage := Coverage(expected - actual, actual - expected, duplicates,
      expected == actual && duplicates == {} && |ids| == |suite.ids|);
  }

  method EvaluatePhase(suite: Suite, warm: bool, opaqueId: string -> string, raw: Option<RawPhase>, unit: Unit)
    returns (known: bool, report: PhaseReport, failures: seq<Failure>)
    requires NoDuplicates(suite.ids)
    ensures known <==> KnownJobs(JobsOf(raw))
    ensures known ==> Reports(suite, warm, opaqueId, raw, unit, report)
    ensures known && raw.Some? && raw.value.status.Some? ==> report.classification == raw.value.status.value
    ensures known && (raw.None? || raw.value.status.None?) ==> report.classification == unit.resultClass
    ensures known && raw.None? ==> report.rows == [] && (suite.ids != [] ==> !report.coverage.passed)
    ensures known ==> failures == NativeFailures(suite, warm, opaqueId, JobsOf(raw)) + PhaseFailures(warm, unit, report)
  {
    var jobs := JobsOf(raw);
    var ids, rows;
    known, ids, rows, failures := CollectRows(suite, warm, opaqueId, jobs);
    var coverage := Cover(suite, ids);
    var completed, failed, notApplicable := Count(rows);
    var status := StatusOf(raw, unit.resultClass);
    var denominator :=
      && unit.resultClass == Completed && unit.eligible && status == Completed
      && coverage.passed && completed == |rows| && (warm || suite.retrieval);
    var scored := if denominator then completed else 0;
    report := PhaseReport(status, denominator, coverage, rows, completed, failed, notApplicable, scored, scored > 0);
    failures := failures + PhaseFailures(warm, unit, report);
    if known && raw.None? {
      assert |multiset(suite.ids)| == |suite.ids|;
    }
  }

  // ------------------------------------------------------------------- the unit

  function Withdrawn(r: PhaseReport): PhaseReport { r.(denominator := false, metrics := false, scored := 0) }

  /** Both phases cover the suite exactly and every row of either is completed. */
  ghost predicate BothPhasesComplete(suite: Suite, opaqueId: string -> string, unit: Unit) {
    && PhaseComplete(suite, opaqueId, unit.cold, unit.resultClass)
    && PhaseComplete(suite, opaqueId, unit.warm, unit.resultClass)
  }

  ghost predicate PhaseComplete(suite: Suite, opaqueId: string -> string, raw: Option<RawPhase>, resultClass: Class) {
    && StatusOf(raw, resultClass) == Completed
    && Exact(suite, NormalIds(suite, opaqueId, JobsOf(raw)))
    && forall i :: 0 <= i < |JobsOf(raw)| && Scheduled(suite, opaqueId, JobsOf(raw)[i]) ==>
          JobsOf(raw)[i].classification == Completed
  }

  /** Every operation of the suite was reported and every mutated job read back. */
  ghost predicate NativelyClean(suite: Suite, opaqueId: string -> string, unit: Unit) {
    forall i :: 0 <= i < |JobsOf(unit.warm)| && Scheduled(suite, opaqueId, JobsOf(unit.warm)[i]) ==>
        ReadBack(suite, opaqueId, JobsOf(unit.warm)[i])
  }

  lemma {:induction false} ColdHasNoNativeFailures(suite: Suite, opaqueId: string -> string, jobs: seq<RawJob>)
    ensures NativeFailures(suite, false, opaqueId, jobs) == []
  {
    if jobs != [] { ColdHasNoNativeFailures(suite, opaqueId, jobs[..|jobs| - 1]); }
  }

  lemma {:induction false} ExactMeansRows(suite: Suite, opaqueId: string -> string, jobs: seq<RawJob>)
    ensures jobs != [] && (forall x :: x in NormalIds(suite, opaqueId, jobs) ==> x in suite.ids) ==>
              RowsOf(suite, opaqueId, jobs) != []
    ensures |NormalIds(suite, opaqueId, jobs)| == |jobs|
  {
    if jobs != [] {
      ExactMeansRows(suite, opaqueId, jobs[..|jobs| - 1]);
      assert Normal(suite.ids, opaqueId, jobs[|jobs| - 1].id) in NormalIds(suite, opaqueId, jobs);
    }
  }

  lemma ExactHasRows(suite: Suite, opaqueId: string -> string, jobs: seq<RawJob>)
    requires suite.ids != [] && Exact(suite, NormalIds(suite, opaqueId, jobs))
    ensures RowsOf(suite, opaqueId, jobs) != []
  {
    var ids := NormalIds(suite, opaqueId, jobs);
    ExactMeansRows(suite, opaqueId, jobs);
    assert |multiset(ids)| == |ids| && |multiset(suite.ids)| == |suite.ids|;
    forall x | x in ids ensures x in suite.ids { assert x in multiset(ids); }
  }

  /**
   Which contract failures a completed unit has, told from its phases themselves: a status
   other than completed, jobs that are not the suite's, a scheduled job that is not completed.
   A phase without a status counts as the unit does; an absent phase has no jobs.
   */
  ghost predicate FailsAs(suite: Suite, opaqueId: string -> string, warm: bool, raw: Option<RawPhase>,
    failures: seq<Failure>)
  {
    && (PhaseNotCompleted(warm) in failures <==>
          raw.Some? && raw.value.status.Some? && raw.value.status.value != Completed)
    && (InexactCoverage(warm) in failures <==>
          raw.None? || multiset(NormalIds(suite, opaqueId, raw.value.jobs)) != multiset(suite.ids))
    && (RowsNotCompleted(warm) in failures <==>
          && raw.Some?
          && exists i :: 0 <= i < |raw.value.jobs| && raw.value.jobs[i].classification != Completed
                         && Normal(suite.ids, opaqueId, raw.value.jobs[i].id) in suite.ids)
  }

  /** What the warm phase was to report of its scheduled jobs and did not; the cold phase never fails natively. */
  ghost predicate FailsNatively(suite: Suite, opaqueId: string -> string, warm: Option<RawPhase>,
    failures: seq<Failure>)
  {
    forall f: Failure :: f.OmittedContexts? || f.MalformedContexts? || f.OmittedOperations? ==>
      (f in failures <==>
         warm.Some? && exists i :: 0 <= i < |warm.value.jobs| && Causes(suite, opaqueId, warm.value.jobs[i], f))
  }

  /**
   Metrics are published exactly when the unit completed, is eligible, and is clean in both
   phases; the cold phase publishes them for retrieval suites only. A completed unit with
   any contract failure is reported as an adapter failure and publishes nothing.
   */
  method EvaluateUnit(suite: Suite, unit: Unit, targetEligible: bool, opaqueId: string -> string)
    returns (r: Result<Report, Invalid>)
    ensures r.Ok? <==>
              && NoDuplicates(suite.ids) && suite.ids != []
              && unit.schemaMatches && unit.targetMatches && !unit.resultClass.Unknown?
              && (unit.resultClass == Completed ==> unit.ingestCount == 1 && unit.warmReusedState)
              && unit.eligible == targetEligible
              && (unit.cold.Some? ==> KnownJobs(unit.cold.value.jobs))
              && (unit.warm.Some? ==> KnownJobs(unit.warm.value.jobs))
    ensures r == Err(WrongSchema) ==> !unit.schemaMatches
    ensures r == Err(WrongTarget) ==> !unit.targetMatches
    ensures r == Err(UnknownResultClass) ==> unit.resultClass.Unknown?
    ensures r == Err(NotIngestedOnce) ==> unit.resultClass == Completed && unit.ingestCount != 1
    ensures r == Err(StateNotReused) ==> unit.resultClass == Completed && !unit.warmReusedState
    ensures r == Err(EligibilityDiffers) ==> unit.eligible != targetEligible
    ensures r == Err(InvalidSuite) ==> suite.ids == [] || !NoDuplicates(suite.ids)
    ensures r.Ok? && unit.resultClass == Completed ==> FailsAs(suite, opaqueId, false, unit.cold, r.value.failures)
    ensures r.Ok? && unit.resultClass == Completed ==> FailsAs(suite, opaqueId, true, unit.warm, r.value.failures)
    ensures r.Ok? ==> FailsNatively(suite, opaqueId, unit.warm, r.value.failures)
    ensures r.Ok? && (unit.resultClass != Completed || r.value.failures != []) ==>
              && !r.value.cold.metrics && !r.value.cold.denominator && r.value.cold.scored == 0
              && !r.value.warm.metrics && !r.value.warm.denominator && r.value.warm.scored == 0
    ensures r.Ok? ==>
              var clean := BothPhasesComplete(suite, opaqueId, unit) && NativelyClean(suite, opaqueId, unit);
              && (r.value.warm.metrics <==> unit.resultClass == Completed && unit.eligible && clean)
              && (r.value.cold.metrics <==> unit.resultClass == Completed && unit.eligible && clean && suite.retrieval)
              && (unit.resultClass == Completed ==> (r.value.failures == [] <==> clean))
    ensures r.Ok? ==>
              r.value.classification ==
              if unit.resultClass == Completed && r.value.failures != [] then Failed("adapter_failed")
              else unit.resultClass
    ensures r.Ok? && (r.value.cold.metrics || r.value.warm.metrics) ==>
              && r.value.failures == []
              && r.value.cold.coverage.passed && r.value.warm.coverage.passed
              && r.value.cold.completed == |r.value.cold.rows| && r.value.warm.completed == |r.value.warm.rows|
    ensures r.Ok? ==>
              && r.value.cold.completed + r.value.cold.failed + r.value.cold.notApplicable == |r.value.cold.rows|
              && r.value.warm.completed + r.value.warm.failed + r.value.warm.notApplicable == |r.value.warm.rows|
  {
    hide FailsAs, FailsNatively, Causes, NormalIds, Normal, NativeFailures, Exact, RowsOf;
    if suite.ids == [] || !NoDuplicates(suite.ids) {
      return Err(InvalidSuite);
    }
    if !unit.schemaMatches {
      return Err(WrongSchema);
    }
    if !unit.targetMatches {
      return Err(WrongTarget);
    }
    if unit.resultClass.Unknown? {
      return Err(UnknownResultClass);
    }
    if unit.resultClass == Completed && unit.ingestCount != 1 {
      return Err(NotIngestedOnce);
    }
    if unit.resultClass == Completed && !unit.warmReusedState {
      return Err(StateNotReused);
    }
    if unit.eligible != targetEligible {
      return Err(EligibilityDiffers);
    }
    var known, cold, failures := EvaluatePhase(suite, false, opaqueId, unit.cold, unit);
    if !known {
      return Err(UnknownClassification);
    }
    var warm, more;
    known, warm, more := EvaluatePhase(suite, true, opaqueId, unit.warm, unit);
    if !known {
      return Err(UnknownClassification);
    }
    ColdHasNoNativeFailures(suite, opaqueId, JobsOf(unit.cold));
    NoNativeFailuresIff(suite, opaqueId, JobsOf(unit.warm));
    FailuresMean(suite, opaqueId, unit, cold, warm);
    FailuresOf(suite, opaqueId, unit, cold, warm, failures, more);
    failures := failures + more;
    var classification := unit.resultClass;
    if classification == Completed && failures != [] {
      classification := Failed("adapter_failed");
      cold, warm := Withdrawn(cold), Withdrawn(warm);
    }
    r := Ok(Report(classification, failures, cold, warm));
  }

  lemma FailuresMean(suite: Suite, opaqueId: string -> string, unit: Unit, cold: PhaseReport, warm: PhaseReport)
    requires suite.ids != [] && Reports(suite, false, opaqueId, unit.cold, unit, cold)
    requires Reports(suite, true, opaqueId, unit.warm, unit, warm)
    ensures unit.resultClass == Completed ==>
              (PhaseFailures(false, unit, cold) == [] && PhaseFailures(true, unit, warm) == []
               <==> BothPhasesComplete(suite, opaqueId, unit))
    ensures BothPhasesComplete(suite, opaqueId, unit) ==> cold.rows != [] && warm.rows != []
  {
    AllCompletedIff(suite, opaqueId, JobsOf(unit.cold));
    AllCompletedIff(suite, opaqueId, JobsOf(unit.warm));
    if PhaseComplete(suite, opaqueId, unit.cold, unit.resultClass) { ExactHasRows(suite, opaqueId, JobsOf(unit.cold)); }
    if PhaseComplete(suite, opaqueId, unit.warm, unit.resultClass) { ExactHasRows(suite, opaqueId, JobsOf(unit.warm)); }
  }

  lemma FailuresOf(suite: Suite, opaqueId: string -> string, unit: Unit, cold: PhaseReport, warm: PhaseReport,
          first: seq<Failure>, more: seq<Failure>)
    requires suite.ids != [] && Reports(suite, false, opaqueId, unit.cold, unit, cold)
    requires Reports(suite, true, opaqueId, unit.warm, unit, warm)
    requires first == PhaseFailures(false, unit, cold)
    requires more == NativeFailures(suite, true, opaqueId, JobsOf(unit.warm)) + PhaseFailures(true, unit, warm)
    ensures unit.resultClass == Completed ==> FailsAs(suite, opaqueId, false, unit.cold, first + more)
    ensures unit.resultClass == Completed ==> FailsAs(suite, opaqueId, true, unit.warm, first + more)
    ensures FailsNatively(suite, opaqueId, unit.warm, first + more)
  {
    hide FailsAs, Causes, NativeFailures, Reports, PhaseFailures;
    var native, last := NativeFailures(suite, true, opaqueId, JobsOf(unit.warm)), PhaseFailures(true, unit, warm);
    assert first + more == first + native + last;
    PhaseKinds(false, unit, cold);
    PhaseKinds(true, unit, warm);
    NativeKinds(suite, opaqueId, JobsOf(unit.warm));
    if unit.resultClass == Completed {
      PhaseFailsAs(suite, opaqueId, false, unit.cold, unit, cold);
      PhaseFailsAs(suite, opaqueId, true, unit.warm, unit, warm);
      FailsAsWithin(suite, opaqueId, false, unit.cold, first, first + more);
      FailsAsWithin(suite, opaqueId, true, unit.warm, last, first + more);
    }
    forall f: Failure | f.OmittedContexts? || f.MalformedContexts? || f.OmittedOperations?
      ensures f in first + more <==>
              && unit.warm.Some?
              && exists i :: 0 <= i < |unit.warm.value.jobs| && Causes(suite, opaqueId, unit.warm.value.jobs[i], f)
    {
      NativeFailuresMean(suite, opaqueId, JobsOf(unit.warm), f);
      assert f in first + more <==> f in native;
    }
  }

  lemma PhaseKinds(warm: bool, unit: Unit, r: PhaseReport)
    ensures forall f :: f in PhaseFailures(warm, unit, r) ==>
              f in [PhaseNotCompleted(warm), InexactCoverage(warm), RowsNotCompleted(warm)]
  {}

  lemma {:induction false} NativeKinds(suite: Suite, opaqueId: string -> string, jobs: seq<RawJob>)
    ensures forall f :: f in NativeFailures(suite, true, opaqueId, jobs) ==>
              f.OmittedContexts? || f.MalformedContexts? || f.OmittedOperations?
  {
    if jobs != [] { NativeKinds(suite, opaqueId, jobs[..|jobs| - 1]); }
  }

  lemma FailsAsWithin(suite: Suite, opaqueId: string -> string, warm: bool, raw: Option<RawPhase>,
          part: seq<Failure>, whole: seq<Failure>)
    requires FailsAs(suite, opaqueId, warm, raw, part)
    requires PhaseNotCompleted(warm) in whole <==> PhaseNotCompleted(warm) in part
    requires InexactCoverage(warm) in whole <==> InexactCoverage(warm) in part
    requires RowsNotCompleted(warm) in whole <==> RowsNotCompleted(warm) in part
    ensures FailsAs(suite, opaqueId, warm, raw, whole)
  {
    hide NormalIds, Normal;
  }

  lemma PhaseMembers(warm: bool, unit: Unit, r: PhaseReport)
    requires unit.resultClass == Completed
    ensures PhaseNotCompleted(warm) in PhaseFailures(warm, unit, r) <==> r.classification != Completed
    ensures InexactCoverage(warm) in PhaseFailures(warm, unit, r) <==> !r.coverage.passed
    ensures RowsNotCompleted(warm) in PhaseFailures(warm, unit, r) <==> r.completed != |r.rows|
  {
    var a := if r.classification != Completed then [PhaseNotCompleted(warm)] else [];
    var b := if !r.coverage.passed then [InexactCoverage(warm)] else [];
    var c := if r.completed != |r.rows| then [RowsNotCompleted(warm)] else [];
    assert PhaseFailures(warm, unit, r) == a + b + c;
  }

  lemma PhaseFailsAs(suite: Suite, opaqueId: string -> string, warm: bool, raw: Option<RawPhase>, unit: Unit,
          r: PhaseReport)
    requires suite.ids != [] && Reports(suite, warm, opaqueId, raw, unit, r) && unit.resultClass == Completed
    ensures FailsAs(suite, opaqueId, warm, raw, PhaseFailures(warm, unit, r))
  {
    hide PhaseFailures;
    PhaseMembers(warm, unit, r);
    if raw.Some? {
      hide NormalIds, Normal, RowsOf, AllCompleted;
      AllCompletedIff(suite, opaqueId, raw.value.jobs);
      assert Exact(suite, NormalIds(suite, opaqueId, raw.value.jobs)) <==> r.coverage.passed;
    } else {
      assert |multiset(suite.ids)| == |suite.ids|;
    }
  }
}
