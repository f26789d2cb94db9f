/** Running a pipeline: its jobs in priority order, each job retried on
    failure, with a separate budget and back-off for database deadlocks.
    What one execution of a job's script does (reading the file, the
    database) is a parameter: `run(job, attempt)` is the error the
    `attempt`-th execution reports, `None` when it succeeds. Sleeping is
    recorded as the list of delays slept, and the random jitter is a
    parameter. */
module Runner {
  import opened Wrappers
  import opened Text
  import opened Sorting
  import opened Settings
  import opened Jobs

  // ---------------------------------------------------------------------
  // Errors
  // ---------------------------------------------------------------------

  /** The errors `RunJobWithRetry` returns, each wrapping its cause. */
  datatype JobError =
    | DeadlockGaveUp(jobType: string, deadlockRetries: int, cause: string)
    | RetriesExhausted(jobType: string, maxRetries: int, lastCause: Option<string>)

  /** The error texts; Go renders a wrapped nil error as `%!w(<nil>)`. */
  function JobErrorText(e: JobError): string {
    match e
    case DeadlockGaveUp(t, n, c) => "job " + t + " failed after " + Itoa(n) + " deadlock retries: " + c
    case RetriesExhausted(t, n, c) =>
      "job " + t + " failed after " + Itoa(n) + " retries: " + (if c.Some? then c.value else "%!w(<nil>)")
  }

  /** The error `RunPipeline` returns: the job that failed and its error. */
  datatype PipelineError = PipelineFailed(jobType: string, cause: JobError)

  function PipelineErrorText(e: PipelineError): string {
    "pipeline failed at job " + e.jobType + ": " + JobErrorText(e.cause)
  }

  // ---------------------------------------------------------------------
  // isDeadlockError
  // ---------------------------------------------------------------------

  const DeadlockDetected := "deadlock detected"
  const DeadlockSqlState := "sqlstate 40p01"

  /** `isDeadlockError`: no error is not a deadlock; otherwise the lower-cased
      text mentions `deadlock detected` or SQLSTATE `40P01`. */
  predicate IsDeadlockError(err: Option<string>) {
    err.Some? && (Contains(ToLower(err.value), DeadlockDetected) || Contains(ToLower(err.value), DeadlockSqlState))
  }

  lemma ToLowerUpper(s: string)
    ensures ToLower(ToUpper(s)) == ToLower(s)
  {
  }

  /** Detection ignores letter case: an error shouted in capitals is
      classified like the original. */
  lemma DeadlockCaseInsensitive(e: string)
    ensures IsDeadlockError(Some(ToUpper(e))) <==> IsDeadlockError(Some(e))
  {
    ToLowerUpper(e);
  }

  lemma {:induction false} ContainsMiddle(a: string, sub: string, b: string)
    ensures Contains(a + sub + b, sub)
    decreases |a|
  {
    if a == [] {
      assert (a + sub + b)[..|sub|] == sub;
    } else {
      assert (a + sub + b)[1..] == a[1..] + sub + b;
      ContainsMiddle(a[1..], sub, b);
    }
  }

  lemma {:induction false} ContainsLower(s: string, sub: string)
    requires Contains(s, sub)
    ensures Contains(ToLower(s), ToLower(sub))
    decreases |s|
  {
    if HasPrefix(s, sub) {
      assert ToLower(s)[..|sub|] == ToLower(s[..|sub|]);
    } else {
      assert ToLower(s)[1..] == ToLower(s[1..]);
      ContainsLower(s[1..], sub);
    }
  }

  /** An error whose text contains `deadlock detected`, in any letter
      case, is a deadlock. */
  lemma DeadlockMentioned(pre: string, phrase: string, post: string)
    requires ToLower(phrase) == DeadlockDetected
    ensures IsDeadlockError(Some(pre + phrase + post))
  {
    ContainsMiddle(pre, phrase, post);
    ContainsLower(pre + phrase + post, phrase);
  }

  /** An error without a deadlock phrase is an ordinary failure. */
  lemma NoDeadlockWithoutPhrase(e: string)
    requires !Contains(ToLower(e), DeadlockDetected) && !Contains(ToLower(e), DeadlockSqlState)
    ensures !IsDeadlockError(Some(e)) && !IsDeadlockError(None)
  {
  }

  // ---------------------------------------------------------------------
  // Delays (nanoseconds)
  // ---------------------------------------------------------------------

  /** `c · b^n`, the initial delay scaled by `n` factors of `b`. */
  function Backoff(c: real, b: real, n: nat): real {
    if n == 0 then c else Backoff(c, b, n - 1) * b
  }

  /** Go's conversion of a float to an integer: toward zero. */
  function Trunc(x: real): int {
    if x >= 0.0 then x.Floor else -((-x).Floor)
  }

  /** `calculateRetryDelay`: `InitialDelay · BackoffFactor^attempt`, capped
      at `MaxDelay`, truncated to whole nanoseconds. */
  function RetryDelay(attempt: nat, cfg: RetryConfig): int {
    Trunc(Cap(Backoff(cfg.initialDelay as real, cfg.backoffFactor, attempt), cfg.maxDelay as real))
  }

  function Cap(x: real, m: real): real {
    if x > m then m else x
  }

  lemma TruncBelow(x: real, m: int)
    requires x <= m as real
    ensures Trunc(x) <= m
  {
  }

  lemma TruncMonotone(x: real, y: real)
    requires x <= y
    ensures Trunc(x) <= Trunc(y)
  {
  }

  /** No retry waits longer than `MaxDelay`. */
  lemma RetryDelayCapped(attempt: nat, cfg: RetryConfig)
    ensures RetryDelay(attempt, cfg) <= cfg.maxDelay
  {
    TruncBelow(Cap(Backoff(cfg.initialDelay as real, cfg.backoffFactor, attempt), cfg.maxDelay as real), cfg.maxDelay);
  }

  lemma {:induction false} BackoffMonotone(c: real, b: real, m: nat, n: nat)
    requires c >= 0.0 && b >= 1.0 && m <= n
    ensures 0.0 <= Backoff(c, b, m) <= Backoff(c, b, n)
    decreases n
  {
    if n > m {
      BackoffMonotone(c, b, m, n - 1);
      var x := Backoff(c, b, n - 1);
      assert x * b >= x * 1.0;
    } else if n > 0 {
      BackoffMonotone(c, b, 0, n - 1);
      var x := Backoff(c, b, n - 1);
      assert x * b >= 0.0;
    }
  }

  lemma TruncCapMonotone(x: real, y: real, m: real)
    requires x <= y
    ensures Trunc(Cap(x, m)) <= Trunc(Cap(y, m))
  {
    TruncMonotone(Cap(x, m), Cap(y, m));
  }

  /** With a non-negative initial delay and a factor of at least 1, later
      retries never wait less than earlier ones. */
  lemma RetryDelayMonotone(a: nat, b: nat, cfg: RetryConfig)
    requires a <= b && cfg.initialDelay >= 0 && cfg.backoffFactor >= 1.0
    ensures RetryDelay(a, cfg) <= RetryDelay(b, cfg)
  {
    var c := cfg.initialDelay as real;
    BackoffMonotone(c, cfg.backoffFactor, a, b);
    TruncCapMonotone(Backoff(c, cfg.backoffFactor, a), Backoff(c, cfg.backoffFactor, b), cfg.maxDelay as real);
  }

  /** The default configuration waits 100 ms, 200 ms and 400 ms before its
      three retries. */
  lemma DefaultRetryDelays()
    ensures RetryDelay(0, DefaultRetryConfig()) == 100 * Millisecond
    ensures RetryDelay(1, DefaultRetryConfig()) == 200 * Millisecond
    ensures RetryDelay(2, DefaultRetryConfig()) == 400 * Millisecond
  {
    var c := DefaultRetryConfig().initialDelay as real;
    assert Backoff(c, 2.0, 1) == c * 2.0;
    assert Backoff(c, 2.0, 2) == c * 4.0;
  }

  const MaxDeadlockDelay := 2 * Second

  /** `calculateDeadlockDelay`: `(50 + 25·attempt) ms` plus the jitter (in
      milliseconds), capped at 2 s. */
  function DeadlockDelay(attempt: int, jitterMs: int): int {
    var total := (50 + attempt * 25) * Millisecond + jitterMs * Millisecond;
    if total > MaxDeadlockDelay then MaxDeadlockDelay else total
  }

  /** With jitter drawn from [0, 100) ms, a deadlock retry waits between
      50 ms and 2 s; attempts 0 to 74 are never capped and from
      attempt 78 on the wait is exactly 2 s. */
  lemma DeadlockDelayBounds(attempt: int, jitterMs: int)
    requires attempt >= 0 && 0 <= jitterMs < 100
    ensures 50 * Millisecond <= DeadlockDelay(attempt, jitterMs) <= MaxDeadlockDelay
    ensures attempt <= 74 ==> DeadlockDelay(attempt, jitterMs) == (50 + 25 * attempt + jitterMs) * Millisecond
    ensures attempt >= 78 ==> DeadlockDelay(attempt, jitterMs) == MaxDeadlockDelay
  {
  }

  // ---------------------------------------------------------------------
  // RunJobWithRetry
  // ---------------------------------------------------------------------

  /** What retrying a job came to: its error (none on success), how many
      times its script was executed, and the delays slept in between. */
  datatype Attempts = Attempts(err: Option<JobError>, calls: nat, delays: seq<int>)

  /** `calls` earlier executions and `delays` sleeps, followed by `rest`. */
  function After(calls: nat, delays: seq<int>, rest: Attempts): Attempts {
    Attempts(rest.err, calls + rest.calls, delays + rest.delays)
  }

  lemma AfterAfter(c: nat, d: seq<int>, c2: nat, d2: seq<int>, rest: Attempts)
    ensures After(c, d, After(c2, d2, rest)) == After(c + c2, d + d2, rest)
  {
    assert d + (d2 + rest.delays) == (d + d2) + rest.delays;
  }

  /** The retry loop from attempt `attempt` on, `lastErr` being the error of
      the attempt before. */
  function RetryFrom(jobType: string, cfg: RetryConfig, run: nat -> Option<string>, jitter: nat -> int,
                     attempt: nat, lastErr: Option<string>): Attempts
    decreases if attempt <= cfg.maxRetries then cfg.maxRetries + 1 - attempt else 0
  {
    if attempt > cfg.maxRetries then Attempts(Some(RetriesExhausted(jobType, cfg.maxRetries, lastErr)), 0, [])
    else match run(attempt)
      case None => Attempts(None, 1, [])
      case Some(e) =>
        if GivesUp(e, attempt, cfg) then Attempts(Some(DeadlockGaveUp(jobType, cfg.deadlockRetries, e)), 1, [])
        else After(1, SleepAfter(e, attempt, cfg, jitter), RetryFrom(jobType, cfg, run, jitter, attempt + 1, Some(e)))
  }

  /** A deadlock from attempt `DeadlockRetries` on ends the job. */
  predicate GivesUp(e: string, attempt: nat, cfg: RetryConfig) {
    IsDeadlockError(Some(e)) && attempt >= cfg.deadlockRetries
  }

  /** The wait after a failed attempt that is retried: the deadlock delay
      after a deadlock, the back-off delay after any other error, and none
      after the last attempt. */
  function SleepAfter(e: string, attempt: nat, cfg: RetryConfig, jitter: nat -> int): seq<int> {
    if IsDeadlockError(Some(e)) then [DeadlockDelay(attempt, jitter(attempt))]
    else if attempt < cfg.maxRetries then [RetryDelay(attempt, cfg)]
    else []
  }

  /** What `RunJobWithRetry` does after a failed execution: give up on a
      deadlock that is no longer retried, otherwise choose the wait. */
  method AfterFailure(e: string, attempt: nat, cfg: RetryConfig, jitter: nat -> int) returns (giveUp: bool, delay: seq<int>)
    ensures giveUp == GivesUp(e, attempt, cfg)
    ensures !giveUp ==> delay == SleepAfter(e, attempt, cfg, jitter)
  {
    giveUp, delay := false, [];
    if IsDeadlockError(Some(e)) {
      if attempt < cfg.deadlockRetries {
        delay := [DeadlockDelay(attempt, jitter(attempt))];
      } else {
        giveUp := true;
      }
    } else if attempt < cfg.maxRetries {
      delay := [RetryDelay(attempt, cfg)];
    }
  }

  /** One failed execution that is not a final deadlock: the delay slept
      after it, then the rest of the loop. */
  lemma RetryStep(jobType: string, cfg: RetryConfig, run: nat -> Option<string>, jitter: nat -> int,
                  attempt: nat, lastErr: Option<string>, delay: seq<int>)
    requires attempt <= cfg.maxRetries && run(attempt).Some?
    requires !GivesUp(run(attempt).value, attempt, cfg) && delay == SleepAfter(run(attempt).value, attempt, cfg, jitter)
    ensures RetryFrom(jobType, cfg, run, jitter, attempt, lastErr)
         == After(1, delay, RetryFrom(jobType, cfg, run, jitter, attempt + 1, run(attempt)))
  {
  }

  /** One failed attempt that the loop retries: the executions and sleeps
      so far followed by the loop from the next attempt are still the loop
      from the start. */
  lemma RetryAdvance(jobType: string, cfg: RetryConfig, run: nat -> Option<string>, jitter: nat -> int,
                     attempt: nat, lastErr: Option<string>, before: seq<int>, delay: seq<int>, spec: Attempts)
    requires attempt <= cfg.maxRetries && run(attempt).Some?
    requires !GivesUp(run(attempt).value, attempt, cfg) && delay == SleepAfter(run(attempt).value, attempt, cfg, jitter)
    requires After(attempt, before, RetryFrom(jobType, cfg, run, jitter, attempt, lastErr)) == spec
    ensures After(attempt + 1, before + delay, RetryFrom(jobType, cfg, run, jitter, attempt + 1, run(attempt))) == spec
  {
    RetryStep(jobType, cfg, run, jitter, attempt, lastErr, delay);
    AfterAfter(attempt, before, 1, delay, RetryFrom(jobType, cfg, run, jitter, attempt + 1, run(attempt)));
  }

  /** An attempt that succeeds, or deadlocks once deadlocks are no longer
      retried, ends the loop after that execution. */
  lemma RetryStops(jobType: string, cfg: RetryConfig, run: nat -> Option<string>, jitter: nat -> int,
                   attempt: nat, lastErr: Option<string>, delays: seq<int>, spec: Attempts)
    requires attempt <= cfg.maxRetries
    requires run(attempt).None? || GivesUp(run(attempt).value, attempt, cfg)
    requires After(attempt, delays, RetryFrom(jobType, cfg, run, jitter, attempt, lastErr)) == spec
    ensures spec == Attempts(if run(attempt).None? then None
                             else Some(DeadlockGaveUp(jobType, cfg.deadlockRetries, run(attempt).value)),
                             attempt + 1, delays)
  {
    assert delays + [] == delays;
  }

  /** Past the last attempt the loop reports the last error. */
  lemma RetryRunsOut(jobType: string, cfg: RetryConfig, run: nat -> Option<string>, jitter: nat -> int,
                     attempt: nat, lastErr: Option<string>, delays: seq<int>, spec: Attempts)
    requires attempt > cfg.maxRetries
    requires After(attempt, delays, RetryFrom(jobType, cfg, run, jitter, attempt, lastErr)) == spec
    ensures spec == Attempts(Some(RetriesExhausted(jobType, cfg.maxRetries, lastErr)), attempt, delays)
  {
    assert delays + [] == delays;
  }

  /** `RunJobWithRetry`: up to `MaxRetries + 1` executions; a deadlock
      before attempt `DeadlockRetries` is retried after the deadlock delay,
      one from that attempt on ends the job at once, and any other error is
      retried after the back-off delay. */
  method RunJobWithRetry(job: Job, cfg: RetryConfig, run: nat -> Option<string>, jitter: nat -> int)
    returns (err: Option<JobError>, calls: nat, delays: seq<int>)
    ensures Attempts(err, calls, delays) == RetryFrom(job.jobType, cfg, run, jitter, 0, None)
  {
    ghost var spec := RetryFrom(job.jobType, cfg, run, jitter, 0, None);
    var lastErr: Option<string> := None;
    calls := 0;
    delays := [];
    var attempt: nat := 0;
    while attempt <= cfg.maxRetries
      invariant calls == attempt
      invariant After(calls, delays, RetryFrom(job.jobType, cfg, run, jitter, attempt, lastErr)) == spec
      decreases cfg.maxRetries + 1 - attempt
    {
      var e := run(attempt);
      calls := calls + 1;
      if e.None? {
        RetryStops(job.jobType, cfg, run, jitter, attempt, lastErr, delays, spec);
        return None, calls, delays;
      }
      ghost var lastErr0 := lastErr;
      lastErr := e;
      var giveUp, delay := AfterFailure(e.value, attempt, cfg, jitter);
      if giveUp {
        RetryStops(job.jobType, cfg, run, jitter, attempt, lastErr0, delays, spec);
        return Some(DeadlockGaveUp(job.jobType, cfg.deadlockRetries, e.value)), calls, delays;
      }
      RetryAdvance(job.jobType, cfg, run, jitter, attempt, lastErr0, delays, delay, spec);
      delays := delays + delay;
      attempt := attempt + 1;
    }
    RetryRunsOut(job.jobType, cfg, run, jitter, attempt, lastErr, delays, spec);
    return Some(RetriesExhausted(job.jobType, cfg.maxRetries, lastErr)), calls, delays;
  }

  /** The retry loop from attempt `k`: it makes at most the executions left
      in the budget, every execution but the last failed, it succeeds
      exactly when the last one did, it gives up on a deadlock only at an
      attempt of at least `DeadlockRetries`, and it sleeps at most once per
      execution. */
  lemma {:induction false} RetryFromFacts(jobType: string, cfg: RetryConfig, run: nat -> Option<string>,
                                          jitter: nat -> int, k: nat, lastErr: Option<string>)
    ensures var o := RetryFrom(jobType, cfg, run, jitter, k, lastErr);
      && (k > cfg.maxRetries ==> o.calls == 0 && o.err == Some(RetriesExhausted(jobType, cfg.maxRetries, lastErr)))
      && (k <= cfg.maxRetries ==> 1 <= o.calls && k + o.calls <= cfg.maxRetries + 1)
      && (o.err.None? <==> o.calls >= 1 && run(k + o.calls - 1).None?)
      && (forall a :: k <= a < k + o.calls - 1 ==> run(a).Some?)
      && (o.err.Some? && o.err.value.DeadlockGaveUp? ==>
            o.calls >= 1 && cfg.deadlockRetries <= k + o.calls - 1
            && run(k + o.calls - 1) == Some(o.err.value.cause) && IsDeadlockError(run(k + o.calls - 1)))
      && (o.err.Some? && o.err.value.RetriesExhausted? && o.calls >= 1 ==> o.err.value.lastCause == run(k + o.calls - 1))
      && |o.delays| <= o.calls
    decreases if k <= cfg.maxRetries then cfg.maxRetries + 1 - k else 0
  {
    if k <= cfg.maxRetries && run(k).Some? {
      var e := run(k).value;
      if !(IsDeadlockError(Some(e)) && k >= cfg.deadlockRetries) {
        RetryFromFacts(jobType, cfg, run, jitter, k + 1, Some(e));
      }
    }
  }

  /** `RunJobWithRetry` executes the job at most `MaxRetries + 1` times (at
      least once when that budget is positive), and returns no error exactly
      when some execution succeeded, which is then the last one. */
  lemma RetryContract(jobType: string, cfg: RetryConfig, run: nat -> Option<string>, jitter: nat -> int)
    ensures var o := RetryFrom(jobType, cfg, run, jitter, 0, None);
      && (cfg.maxRetries >= 0 ==> 1 <= o.calls <= cfg.maxRetries + 1)
      && (cfg.maxRetries < 0 ==> o.calls == 0 && o.err.Some?)
      && (o.err.None? <==> exists a :: 0 <= a < o.calls && run(a).None?)
      && (o.err.None? ==> run(o.calls - 1).None?)
  {
    RetryFromFacts(jobType, cfg, run, jitter, 0, None);
    var o := RetryFrom(jobType, cfg, run, jitter, 0, None);
    if o.err.None? {
      assert run(o.calls - 1).None?;
    }
  }

  /** When every execution within the budget fails, so does the job. */
  lemma RetryAllFail(jobType: string, cfg: RetryConfig, run: nat -> Option<string>, jitter: nat -> int)
    requires forall a: nat :: a <= cfg.maxRetries ==> run(a).Some?
    ensures RetryFrom(jobType, cfg, run, jitter, 0, None).err.Some?
  {
    RetryFromFacts(jobType, cfg, run, jitter, 0, None);
  }

  /** A deadlock at an attempt of at least `DeadlockRetries` ends the job
      there, without sleeping or executing again. */
  lemma DeadlockStopsAtOnce(jobType: string, cfg: RetryConfig, run: nat -> Option<string>, jitter: nat -> int,
                            k: nat, lastErr: Option<string>)
    requires k <= cfg.maxRetries && cfg.deadlockRetries <= k
    requires IsDeadlockError(run(k))
    ensures RetryFrom(jobType, cfg, run, jitter, k, lastErr)
         == Attempts(Some(DeadlockGaveUp(jobType, cfg.deadlockRetries, run(k).value)), 1, [])
  {
  }

  /** When the deadlock budget is larger than the retry budget (as in the
      default configuration: 5 against 3) the deadlock error is never
      returned: deadlocks are retried like any failure until `MaxRetries`
      runs out. */
  lemma DeadlockBudgetUnused(jobType: string, cfg: RetryConfig, run: nat -> Option<string>, jitter: nat -> int)
    requires cfg.deadlockRetries > cfg.maxRetries
    ensures var o := RetryFrom(jobType, cfg, run, jitter, 0, None);
      o.err.Some? ==> o.err.value.RetriesExhausted?
  {
    RetryFromFacts(jobType, cfg, run, jitter, 0, None);
  }

  // ---------------------------------------------------------------------
  // runSingleJob: the level and ids a job's script runs with
  // ---------------------------------------------------------------------

  /** The level a job's script is run with: 3 when its type mentions
      `LOD3` (even if it also mentions `LOD2`), else 2 when it mentions
      `LOD2`, else 0. */
  function ScriptLod(jobType: string): int {
    if Contains(jobType, "LOD3") then 3 else if Contains(jobType, "LOD2") then 2 else 0
  }

  /** The ids a job's script is run with: the job's own for a level job,
      none otherwise. */
  function ScriptIds(job: Job): seq<int> {
    if Contains(job.jobType, "LOD2") || Contains(job.jobType, "LOD3") then job.params.buildingIds else []
  }

  /** `runSingleJob`, given what reading the job's file gave and what
      executing the script with a level and ids reports: the read error
      and the execution error are each wrapped with the file name. */
  function RunSingleJob(job: Job, read: Result<string, string>, exec: (string, int, seq<int>) -> Option<string>): (r: Option<string>)
    ensures r.None? <==> read.Success? && exec(read.value, ScriptLod(job.jobType), ScriptIds(job)).None?
  {
    match read
    case Failure(e) => Some("failed to read SQL file " + job.sqlFile + ": " + e)
    case Success(script) =>
      match exec(script, ScriptLod(job.jobType), ScriptIds(job))
      case None => None
      case Some(e) => Some("job " + job.jobType + " failed (SQL file: " + job.sqlFile + "): " + e)
  }

  /** A job whose type names no level runs its script at level 0 with no
      ids, whatever ids it carries. */
  lemma PlainJobRunsWithoutIds(job: Job)
    requires !Contains(job.jobType, "LOD2") && !Contains(job.jobType, "LOD3")
    ensures ScriptLod(job.jobType) == 0 && ScriptIds(job) == []
  {
  }

  // ---------------------------------------------------------------------
  // RunPipeline
  // ---------------------------------------------------------------------

  /** The order `RunPipeline` sorts by: lower priority numbers first. */
  predicate ByPriority(a: Job, b: Job) {
    a.priority <= b.priority
  }

  lemma ByPriorityPreorder()
    ensures TotalPreorder(ByPriority)
  {
  }

  /** The executions of one job, as seen by the retry loop. */
  function RunOf(run: (Job, nat) -> Option<string>, job: Job): nat -> Option<string> {
    (a: nat) => run(job, a)
  }

  function JitterOf(jitter: (Job, nat) -> int, job: Job): nat -> int {
    (a: nat) => jitter(job, a)
  }

  function JobAttempts(job: Job, cfg: RetryConfig, run: (Job, nat) -> Option<string>, jitter: (Job, nat) -> int): Attempts {
    RetryFrom(job.jobType, cfg, RunOf(run, job), JitterOf(jitter, job), 0, None)
  }

  /** What running a list of jobs came to: the error, and how many jobs
      were started. */
  datatype PipelineRun = PipelineRun(err: Option<PipelineError>, started: nat)

  /** The jobs in order until the first one that fails. */
  function RunJobs(jobs: seq<Job>, cfg: RetryConfig, run: (Job, nat) -> Option<string>, jitter: (Job, nat) -> int): PipelineRun {
    if jobs == [] then PipelineRun(None, 0)
    else match JobAttempts(jobs[0], cfg, run, jitter).err
      case Some(e) => PipelineRun(Some(PipelineFailed(jobs[0].jobType, e)), 1)
      case None =>
        var rest := RunJobs(jobs[1..], cfg, run, jitter);
        PipelineRun(rest.err, rest.started + 1)
  }

  /** The first failing job stops the pipeline: every job before it
      succeeded and none after it is started; with no failing job every
      job runs and the pipeline succeeds. */
  lemma {:induction false} RunJobsStopsAtFirstFailure(jobs: seq<Job>, cfg: RetryConfig,
                                                      run: (Job, nat) -> Option<string>, jitter: (Job, nat) -> int)
    ensures var r := RunJobs(jobs, cfg, run, jitter);
      && r.started <= |jobs|
      && (forall k :: 0 <= k < r.started - 1 ==> JobAttempts(jobs[k], cfg, run, jitter).err.None?)
      && (r.err.None? <==> r.started == |jobs| && forall k :: 0 <= k < |jobs| ==> JobAttempts(jobs[k], cfg, run, jitter).err.None?)
      && (r.err.Some? ==>
            (&& r.started >= 1
             && JobAttempts(jobs[r.started - 1], cfg, run, jitter).err.Some?
             && r.err.value == PipelineFailed(jobs[r.started - 1].jobType, JobAttempts(jobs[r.started - 1], cfg, run, jitter).err.value)))
  {
    if jobs != [] && JobAttempts(jobs[0], cfg, run, jitter).err.None? {
      RunJobsStopsAtFirstFailure(jobs[1..], cfg, run, jitter);
      var r := RunJobs(jobs[1..], cfg, run, jitter);
      assert forall k :: 1 <= k < |jobs| ==> jobs[k] == jobs[1..][k - 1];
    }
  }

  /** `rest`, after `n` jobs that succeeded. */
  function Shifted(n: nat, rest: PipelineRun): PipelineRun {
    PipelineRun(rest.err, rest.started + n)
  }

  lemma RunJobsStep(jobs: seq<Job>, i: nat, cfg: RetryConfig, run: (Job, nat) -> Option<string>, jitter: (Job, nat) -> int)
    requires i < |jobs| && JobAttempts(jobs[i], cfg, run, jitter).err.None?
    ensures Shifted(i, RunJobs(jobs[i..], cfg, run, jitter)) == Shifted(i + 1, RunJobs(jobs[i + 1..], cfg, run, jitter))
  {
    assert jobs[i..][0] == jobs[i] && jobs[i..][1..] == jobs[i + 1..];
  }

  /** The `sort.Slice` call of `RunPipeline`: the jobs are put in
      priority order in place (unstably: some priority-ordered
      permutation), and nothing else about the pipeline changes. */
  method SortJobs(p: Pipeline)
    modifies p
    ensures SortedBy(p.jobs, ByPriority) && multiset(p.jobs) == multiset(old(p.jobs))
    ensures p.pipelineId == old(p.pipelineId) && p.buildingIds == old(p.buildingIds)
    ensures p.enqueuedAt == old(p.enqueuedAt) && p.createdAt == old(p.createdAt)
  {
    ByPriorityPreorder();
    SortSorted(p.jobs, ByPriority);
    p.jobs := Sort(p.jobs, ByPriority);
  }

  /** `RunPipeline`: the jobs are sorted by priority, then run in that
      order until the first failure. */
  method RunPipeline(p: Pipeline, cfg: RetryConfig, run: (Job, nat) -> Option<string>, jitter: (Job, nat) -> int)
    returns (err: Option<PipelineError>, started: nat)
    modifies p
    ensures SortedBy(p.jobs, ByPriority) && multiset(p.jobs) == multiset(old(p.jobs))
    ensures p.pipelineId == old(p.pipelineId) && p.buildingIds == old(p.buildingIds)
    ensures p.enqueuedAt == old(p.enqueuedAt) && p.createdAt == old(p.createdAt)
    ensures PipelineRun(err, started) == RunJobs(p.jobs, cfg, run, jitter)
  {
    SortJobs(p);
    var jobs := p.jobs;
    assert jobs[0..] == jobs;
    var i := 0;
    while i < |jobs|
      invariant 0 <= i <= |jobs| && p.jobs == jobs
      invariant p.pipelineId == old(p.pipelineId) && p.buildingIds == old(p.buildingIds)
      invariant p.enqueuedAt == old(p.enqueuedAt) && p.createdAt == old(p.createdAt)
      invariant Shifted(i, RunJobs(jobs[i..], cfg, run, jitter)) == RunJobs(jobs, cfg, run, jitter)
    {
      var job := jobs[i];
      var e, calls, delays := RunJobWithRetry(job, cfg, RunOf(run, job), JitterOf(jitter, job));
      if e.Some? {
        assert jobs[i..][0] == job;
        return Some(PipelineFailed(job.jobType, e.value)), i + 1;
      }
      RunJobsStep(jobs, i, cfg, run, jitter);
      i := i + 1;
    }
    return None, i;
  }

  lemma TailMultiset<T>(a: seq<T>, b: seq<T>)
    requires a != [] && b != [] && a[0] == b[0] && multiset(a) == multiset(b)
    ensures multiset(a[1..]) == multiset(b[1..])
  {
    assert a == [a[0]] + a[1..] && b == [b[0]] + b[1..];
    assert multiset(a) == multiset{a[0]} + multiset(a[1..]);
    assert multiset(b) == multiset{b[0]} + multiset(b[1..]);
    assert multiset(a[1..]) == multiset(a) - multiset{a[0]};
    assert multiset(b[1..]) == multiset(b) - multiset{b[0]};
  }

  predicate DistinctPriorities(a: seq<Job>) {
    forall i, j :: 0 <= i < j < |a| ==> a[i].priority != a[j].priority
  }

  /** Two priority-ordered permutations start with the same job when
      priorities are distinct: the one of least priority. */
  lemma SameFirst(a: seq<Job>, b: seq<Job>)
    requires a != [] && SortedBy(a, ByPriority) && SortedBy(b, ByPriority) && multiset(a) == multiset(b)
    requires DistinctPriorities(a)
    ensures b != [] && a[0] == b[0]
  {
    assert a[0] in multiset(b);
    var k :| 0 <= k < |b| && b[k] == a[0];
    assert b[0] in multiset(a);
    var m :| 0 <= m < |a| && a[m] == b[0];
    assert ByPriority(a[0], a[m]) || m == 0;
    assert ByPriority(b[0], b[k]) || k == 0;
  }

  /** Distinct priorities fix the order completely: however the unstable
      sort breaks ties, there are none to break, so any two priority-ordered
      permutations of the jobs are equal. */
  lemma {:induction false} DistinctPrioritiesFixOrder(a: seq<Job>, b: seq<Job>)
    requires SortedBy(a, ByPriority) && SortedBy(b, ByPriority) && multiset(a) == multiset(b)
    requires DistinctPriorities(a)
    ensures a == b
    decreases |a|
  {
    if a == [] {
      assert |multiset(b)| == 0;
    } else {
      SameFirst(a, b);
      TailMultiset(a, b);
      assert SortedBy(a[1..], ByPriority) && SortedBy(b[1..], ByPriority);
      assert DistinctPriorities(a[1..]);
      DistinctPrioritiesFixOrder(a[1..], b[1..]);
      assert a == [a[0]] + a[1..] && b == [b[0]] + b[1..];
    }
  }
}
