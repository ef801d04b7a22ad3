/**
 The bounded case scheduler (`scripts/benchmark_agent/schedule.py`). Jobs are known by
 their position; an absent job stands for a `None` in the iterable. Which of the
 pending jobs have completed when `wait` returns is left to chance.
 */
module JobSchedule {
  import opened Wrappers

  type Jobs = seq<Option<string>>

  datatype Event = Submitted(job: nat) | Observed(job: nat, good: bool)

  datatype Outcome = Returned | Failed(job: nat) | InvalidWorkers

  /** The positions of the real jobs among the first `n`. */
  function RealJobs(jobs: Jobs, n: nat): seq<nat>
    requires n <= |jobs|
  {
    if n == 0 then [] else RealJobs(jobs, n - 1) + (if jobs[n - 1].Some? then [n - 1] else [])
  }

  function Gaps(jobs: Jobs, n: nat): nat
    requires n <= |jobs|
  {
    if n == 0 then 0 else Gaps(jobs, n - 1) + (if jobs[n - 1].None? then 1 else 0)
  }

  /** How far two workers get: an absent job uses up a worker slot for good. */
  function Reach(jobs: Jobs, n: nat, slots: nat): (r: nat)
    requires n <= |jobs|
    ensures n <= r <= |jobs|
    decreases |jobs| - n
  {
    if n == |jobs| || slots == 0 then n
    else Reach(jobs, n + 1, if jobs[n].None? then slots - 1 else slots)
  }

  function SubmittedIn(log: seq<Event>): seq<nat> {
    if log == [] then []
    else SubmittedIn(log[..|log| - 1]) + (if log[|log| - 1].Submitted? then [log[|log| - 1].job] else [])
  }

  /** Submitted and not yet observed. */
  function PendingIn(log: seq<Event>): set<nat> {
    if log == [] then {}
    else
      match log[|log| - 1]
      case Submitted(job) => PendingIn(log[..|log| - 1]) + {job}
      case Observed(job, _) => PendingIn(log[..|log| - 1]) - {job}
  }

  predicate FailureIn(log: seq<Event>) {
    exists k :: 0 <= k < |log| && log[k].Observed? && !log[k].good
  }

  /** What may come next: a new job while no failure was seen and a slot is free, or the end of a pending one. */
  predicate Allowed(log: seq<Event>, event: Event) {
    match event
    case Submitted(job) => !FailureIn(log) && |PendingIn(log)| < 2 && job !in SubmittedIn(log)
    case Observed(job, _) => job in PendingIn(log) && !FailureIn(log)
  }

  predicate Bounded(log: seq<Event>) {
    log == [] || (Bounded(log[..|log| - 1]) && Allowed(log[..|log| - 1], log[|log| - 1]))
  }

  lemma AppendEvent(log: seq<Event>, event: Event)
    ensures SubmittedIn(log + [event]) == SubmittedIn(log) + (if event.Submitted? then [event.job] else [])
    ensures PendingIn(log + [event]) ==
            if event.Submitted? then PendingIn(log) + {event.job} else PendingIn(log) - {event.job}
    ensures FailureIn(log + [event]) <==> FailureIn(log) || (event.Observed? && !event.good)
    ensures Bounded(log) && Allowed(log, event) ==> Bounded(log + [event])
  {
    var longer := log + [event];
    assert longer[..|log|] == log && longer[|log|] == event;
    assert forall k :: 0 <= k < |log| ==> longer[k] == log[k];
  }

  lemma {:induction false} RealJobsBelow(jobs: Jobs, n: nat)
    requires n <= |jobs|
    ensures forall i :: i in RealJobs(jobs, n) <==> 0 <= i < n && jobs[i].Some?
    ensures forall j, k :: 0 <= j < k < |RealJobs(jobs, n)| ==> RealJobs(jobs, n)[j] < RealJobs(jobs, n)[k]
  {
    if n > 0 {
      RealJobsBelow(jobs, n - 1);
      var earlier := RealJobs(jobs, n - 1);
      assert forall k :: 0 <= k < |earlier| ==> earlier[k] in earlier;
    }
  }

  /** The single-worker branch: call each job in turn, stop at the first failure. */
  method RunSerial(jobs: Jobs, good: nat -> bool) returns (outcome: Outcome, called: nat)
    ensures called <= |jobs|
    ensures outcome.Returned? <==> forall i :: 0 <= i < |jobs| ==> good(i)
    ensures outcome.Returned? ==> called == |jobs|
    ensures !outcome.Returned? ==> called > 0 && outcome == Failed(called - 1) && !good(called - 1)
    ensures !outcome.Returned? ==> forall i :: 0 <= i < called - 1 ==> good(i)
  {
    called := 0;
    while called < |jobs|
      invariant called <= |jobs| && forall i :: 0 <= i < called ==> good(i)
    {
      called := called + 1;
      if !good(called - 1) {
        return Failed(called - 1), called;
      }
    }
    outcome := Returned;
  }

  lemma {:induction false} PendingWasSubmitted(log: seq<Event>)
    ensures forall i :: i in PendingIn(log) ==> i in SubmittedIn(log)
  {
    if log != [] { PendingWasSubmitted(log[..|log| - 1]); }
  }

  /** The indices that two workers submit, whatever completes first. */
  function Scheduled(jobs: Jobs): seq<nat> { RealJobs(jobs, Reach(jobs, 0, 2)) }

  lemma {:induction false} ReachStops(jobs: Jobs, n: nat, slots: nat)
    requires n <= |jobs|
    ensures Gaps(jobs, Reach(jobs, n, slots)) <= Gaps(jobs, n) + slots
    ensures Reach(jobs, n, slots) < |jobs| ==> Gaps(jobs, Reach(jobs, n, slots)) == Gaps(jobs, n) + slots
    decreases |jobs| - n
  {
    if n < |jobs| && slots > 0 {
      ReachStops(jobs, n + 1, if jobs[n].None? then slots - 1 else slots);
    }
  }

  /** Everything the two-worker scheduler relies on between two steps, with `free` slots to refill. */
  ghost predicate Steady(jobs: Jobs, good: nat -> bool, at: nat, pending: set<nat>, log: seq<Event>, free: nat) {
    && at <= |jobs| && SubmittedIn(log) == RealJobs(jobs, at) && PendingIn(log) == pending
    && Bounded(log) && !FailureIn(log)
    && |pending| + free <= 2
    && Gaps(jobs, at) <= 2 && Reach(jobs, 0, 2) == Reach(jobs, at, 2 - Gaps(jobs, at))
    && (at < |jobs| ==> |pending| + free + Gaps(jobs, at) == 2)
    && (forall i :: i in SubmittedIn(log) ==> i in pending || good(i))
  }

  lemma SubmitKeepsSteady(jobs: Jobs, good: nat -> bool, at: nat, pending: set<nat>, log: seq<Event>, free: nat)
    requires Steady(jobs, good, at, pending, log, free) && free > 0 && at < |jobs| && jobs[at].Some?
    ensures Steady(jobs, good, at + 1, pending + {at}, log + [Submitted(at)], free - 1)
    ensures |pending + {at}| == |pending| + 1
  {
    assert at !in SubmittedIn(log) by { RealJobsBelow(jobs, at); }
    assert at !in pending by { PendingWasSubmitted(log); }
    AppendEvent(log, Submitted(at));
  }

  lemma SkipKeepsSteady(jobs: Jobs, good: nat -> bool, at: nat, pending: set<nat>, log: seq<Event>, free: nat)
    requires Steady(jobs, good, at, pending, log, free) && free > 0 && at < |jobs| && jobs[at].None?
    ensures Steady(jobs, good, at + 1, pending, log, free - 1)
  {}

  lemma ObserveKeepsSteady(jobs: Jobs, good: nat -> bool, at: nat, pending: set<nat>, log: seq<Event>, free: nat,
          job: nat)
    requires Steady(jobs, good, at, pending, log, free) && job in pending
    ensures Bounded(log + [Observed(job, good(job))])
    ensures SubmittedIn(log + [Observed(job, good(job))]) == SubmittedIn(log)
    ensures good(job) ==> Steady(jobs, good, at, pending - {job}, log + [Observed(job, true)], free + 1)
    ensures job in SubmittedIn(log)
  {
    PendingWasSubmitted(log);
    AppendEvent(log, Observed(job, good(job)));
  }

  method Take(jobs: Jobs, ghost good: nat -> bool, start: nat, before: set<nat>, past: seq<Event>, ghost free: nat)
    returns (at: nat, pending: set<nat>, log: seq<Event>)
    requires Steady(jobs, good, start, before, past, free) && free > 0
    ensures Steady(jobs, good, at, pending, log, free - 1)
    ensures start <= at && |pending| - |before| <= at - start
  {
    at, pending, log := start, before, past;
    if at < |jobs| {
      if jobs[at].None? {
        SkipKeepsSteady(jobs, good, at, pending, log, free);
      } else {
        SubmitKeepsSteady(jobs, good, at, pending, log, free);
        pending := pending + {at};
        log := log + [Submitted(at)];
      }
      at := at + 1;
    }
  }

  /** Take up to `free` further items from the iterable; an absent one is taken and not submitted. */
  method Refill(jobs: Jobs, ghost good: nat -> bool, start: nat, before: set<nat>, past: seq<Event>, free: nat)
    returns (at: nat, pending: set<nat>, log: seq<Event>)
    requires Steady(jobs, good, start, before, past, free)
    ensures Steady(jobs, good, at, pending, log, 0)
    ensures start <= at && |pending| - |before| <= at - start
  {
    at, pending, log := start, before, past;
    for k := 0 to free
      invariant Steady(jobs, good, at, pending, log, free - k)
      invariant start <= at && |pending| - |before| <= at - start
    {
      at, pending, log := Take(jobs, good, at, pending, log, free - k);
    }
  }

  /** Look at the results of the completed jobs, in any order, up to the first failure. */
  method Observe(jobs: Jobs, good: nat -> bool, ghost at: nat, done: set<nat>, before: set<nat>, past: seq<Event>)
    returns (failed: Option<nat>, pending: set<nat>, log: seq<Event>)
    requires Steady(jobs, good, at, before, past, 0) && done <= before
    ensures failed.None? ==> Steady(jobs, good, at, pending, log, |done|) && |pending| == |before| - |done|
    ensures failed.Some? ==>
              && Bounded(log) && SubmittedIn(log) == SubmittedIn(past)
              && failed.value in SubmittedIn(log) && !good(failed.value)
              && log != [] && log[|log| - 1] == Observed(failed.value, false)
  {
    pending, log := before, past;
    var todo := done;
    ghost var freed := 0;
    while todo != {}
      invariant todo <= pending && Steady(jobs, good, at, pending, log, freed)
      invariant freed + |todo| == |done| && |pending| + freed == |before| && SubmittedIn(log) == SubmittedIn(past)
      decreases todo
    {
      var job :| job in todo;
      ObserveKeepsSteady(jobs, good, at, pending, log, freed, job);
      log := log + [Observed(job, good(job))];
      if !good(job) {
        return Some(job), pending, log;
      }
      pending, todo, freed := pending - {job}, todo - {job}, freed + 1;
    }
    failed := None;
  }

  method RunTwo(jobs: Jobs, good: nat -> bool) returns (outcome: Outcome, log: seq<Event>)
    ensures Bounded(log)
    ensures exists n :: 0 <= n <= Reach(jobs, 0, 2) && SubmittedIn(log) == RealJobs(jobs, n)
    ensures outcome.Returned? ==> SubmittedIn(log) == Scheduled(jobs) && PendingIn(log) == {} && !FailureIn(log)
    ensures outcome.Returned? ==> forall i :: i in Scheduled(jobs) ==> good(i)
    ensures !outcome.Returned? ==> outcome.Failed? && outcome.job in SubmittedIn(log) && !good(outcome.job)
    ensures !outcome.Returned? ==> log != [] && log[|log| - 1] == Observed(outcome.job, false)
  {
    var at, pending;
    at, pending, log := Refill(jobs, good, 0, {}, [], 2);
    while pending != {}
      invariant Steady(jobs, good, at, pending, log, 0)
      decreases 2 * (|jobs| - at) + |pending|
    {
      var done: set<nat> :| done != {} && done <= pending;
      var failed;
      failed, pending, log := Observe(jobs, good, at, done, pending, log);
      if failed.Some? {
        return Failed(failed.value), log;
      }
      at, pending, log := Refill(jobs, good, at, pending, log, |done|);
    }
    ReachStops(jobs, at, 2 - Gaps(jobs, at));
    outcome := Returned;
  }

  method RunJobs(jobs: Jobs, good: nat -> bool, workers: nat) returns (outcome: Outcome)
    ensures workers != 1 && workers != 2 <==> outcome.InvalidWorkers?
    ensures workers == 1 ==> (outcome.Returned? <==> forall i :: 0 <= i < |jobs| ==> good(i))
    ensures workers == 2 ==> (outcome.Returned? <==> forall i :: i in Scheduled(jobs) ==> good(i))
    ensures outcome.Failed? ==> !good(outcome.job)
  {
    if workers == 1 {
      var called;
      outcome, called := RunSerial(jobs, good);
    } else if workers == 2 {
      var log;
      outcome, log := RunTwo(jobs, good);
      ghost var n :| 0 <= n <= Reach(jobs, 0, 2) && SubmittedIn(log) == RealJobs(jobs, n);
      RealJobsBelow(jobs, n);
      RealJobsBelow(jobs, Reach(jobs, 0, 2));
    } else {
      outcome := InvalidWorkers;
    }
  }

  // ------------------------------------------------- what a bounded log implies

  /** In every run at most two jobs are in flight, none is submitted twice, and nothing follows a failure. */
  lemma {:induction false} BoundedLogMeans(log: seq<Event>)
    requires Bounded(log)
    ensures |PendingIn(log)| <= 2
    ensures forall j, k :: 0 <= j < k < |log| && log[j].Submitted? && log[k].Submitted? ==> log[j].job != log[k].job
    ensures forall j :: 0 <= j < |log| - 1 ==> log[j].Submitted? || log[j].good
  {
    if log != [] {
      var past, last := log[..|log| - 1], log[|log| - 1];
      BoundedLogMeans(past);
      assert forall k :: 0 <= k < |past| ==> past[k] == log[k];
      SubmittedAreLogged(past);
    }
  }

  lemma {:induction false} SubmittedAreLogged(log: seq<Event>)
    ensures forall k :: 0 <= k < |log| && log[k].Submitted? ==> log[k].job in SubmittedIn(log)
  {
    if log != [] {
      SubmittedAreLogged(log[..|log| - 1]);
      assert forall k :: 0 <= k < |log| - 1 ==> log[k] == log[..|log| - 1][k];
    }
  }

  lemma {:induction false} NoGapsMeansAll(jobs: Jobs, n: nat, slots: nat)
    requires n <= |jobs| && slots > 0 && forall i :: n <= i < |jobs| ==> jobs[i].Some?
    ensures Reach(jobs, n, slots) == |jobs|
    decreases |jobs| - n
  {
    if n < |jobs| { NoGapsMeansAll(jobs, n + 1, slots); }
  }

  /** Two workers call exactly the jobs that the serial loop would call if and only if no job is absent. */
  lemma TwoWorkersCallAllIff(jobs: Jobs)
    ensures (forall i :: 0 <= i < |jobs| ==> i in Scheduled(jobs)) <==> (forall i :: 0 <= i < |jobs| ==> jobs[i].Some?)
  {
    RealJobsBelow(jobs, Reach(jobs, 0, 2));
    if forall i :: 0 <= i < |jobs| ==> jobs[i].Some? {
      NoGapsMeansAll(jobs, 0, 2);
    } else {
      var gap :| 0 <= gap < |jobs| && !jobs[gap].Some?;
      assert gap !in Scheduled(jobs);
    }
  }

  /**
   One absent job is merely skipped; whatever stands after a second one is never called, though the scheduler
   returns normally.
   */
  lemma SecondGapEndsSchedule(jobs: Jobs, i: nat)
    requires i < |jobs| && jobs[i].Some?
    ensures i in Scheduled(jobs) <==> Gaps(jobs, i) < 2
  {
    var r := Reach(jobs, 0, 2);
    RealJobsBelow(jobs, r);
    ReachStops(jobs, 0, 2);
    if i < r {
      GapsBeforeReach(jobs, 0, 2, i);
    } else {
      GapsGrow(jobs, r, i);
    }
  }

  lemma {:induction false} GapsBeforeReach(jobs: Jobs, n: nat, slots: nat, i: nat)
    requires n <= |jobs| && n <= i < Reach(jobs, n, slots)
    ensures Gaps(jobs, i) < Gaps(jobs, n) + slots
    decreases |jobs| - n
  {
    if n < i { GapsBeforeReach(jobs, n + 1, if jobs[n].None? then slots - 1 else slots, i); }
  }

  lemma {:induction false} GapsGrow(jobs: Jobs, n: nat, m: nat)
    requires n <= m <= |jobs|
    ensures Gaps(jobs, n) <= Gaps(jobs, m)
  {
    if n < m { GapsGrow(jobs, n, m - 1); }
  }
}
