/** Building the queues of pipelines the workers run: one pipeline per
    batch of building ids for feature extraction (LOD2 batches first, then
    LOD3), one pipeline that sets up the database, and one that runs the
    supplementary scripts. Every job and pipeline gets a fresh UUID and the
    current time in the program; here those are parameters (`jobId`,
    `pipelineId`, `createdAt`, `now`), the same for every object built by
    one call. */
module Orchestrator {
  import opened Wrappers
  import opened Text
  import opened Sorting
  import opened Jobs
  import opened PipelineQueues
  import opened SqlConfig
  import opened Runner

  // ---------------------------------------------------------------------
  // Job types and job lists
  // ---------------------------------------------------------------------

  /** How a job is named after its file: `LOD<n> <file>` for feature
      extraction, a fixed text for the table scripts, and a prefix before
      the file's base name for function and supplementary scripts. */
  datatype Label = Lod(lod: int) | Fixed(text: string) | Prefixed(prefix: string)

  function LodLabel(lod: int, file: string): string {
    "LOD" + Itoa(lod) + " " + file
  }

  function JobType(kind: Label, file: string): string {
    match kind
    case Lod(lod) => LodLabel(lod, file)
    case Fixed(text) => text
    case Prefixed(prefix) => prefix + Base(file)
  }

  /** The job type of each file. */
  function JobTypes(kind: Label, files: seq<string>): (r: seq<string>)
    ensures |r| == |files|
  {
    seq(|files|, i requires 0 <= i < |files| => JobType(kind, files[i]))
  }

  /** The jobs for `files` with the given job types, in order, with
      priorities counting up from `first`. */
  function JobsWith(types: seq<string>, files: seq<string>, params: Params, first: int, jobId: string, now: Time)
    : (r: seq<Job>)
    requires |types| == |files|
    ensures |r| == |files|
    ensures forall i :: 0 <= i < |files| ==> r[i] == NewJob(types[i], params, files[i], first + i, jobId, now)
  {
    seq(|files|, i requires 0 <= i < |files| => NewJob(types[i], params, files[i], first + i, jobId, now))
  }

  /** The jobs for `files` in order, with priorities counting up from
      `first`. */
  function JobsFor(kind: Label, files: seq<string>, params: Params, first: int, jobId: string, now: Time): (r: seq<Job>)
    ensures |r| == |files|
  {
    JobsWith(JobTypes(kind, files), files, params, first, jobId, now)
  }

  /** Job `i` is the job for file `i`, typed by its label, with priority
      `first + i`. */
  lemma JobsForAt(kind: Label, files: seq<string>, params: Params, first: int, jobId: string, now: Time, i: int)
    requires 0 <= i < |files|
    ensures JobsFor(kind, files, params, first, jobId, now)[i]
      == NewJob(JobType(kind, files[i]), params, files[i], first + i, jobId, now)
  {
    assert JobTypes(kind, files)[i] == JobType(kind, files[i]);
  }

  lemma JobsWithSnoc(types: seq<string>, files: seq<string>, params: Params, first: int, jobId: string, now: Time, i: nat)
    requires |types| == |files| && i < |files|
    ensures JobsWith(types[..i + 1], files[..i + 1], params, first, jobId, now)
      == JobsWith(types[..i], files[..i], params, first, jobId, now)
         + [NewJob(types[i], params, files[i], first + i, jobId, now)]
  {
    var a := JobsWith(types[..i + 1], files[..i + 1], params, first, jobId, now);
    var b := JobsWith(types[..i], files[..i], params, first, jobId, now);
    var x := NewJob(types[i], params, files[i], first + i, jobId, now);
    forall j | 0 <= j <= i ensures a[j] == (b + [x])[j] {
      if j < i {
        assert files[..i + 1][j] == files[..i][j] && types[..i + 1][j] == types[..i][j];
      } else {
        assert files[..i + 1][j] == files[i] && types[..i + 1][j] == types[i];
      }
    }
    assert |a| == |b + [x]|;
  }

  lemma AppendAssoc<T>(a: seq<T>, b: seq<T>, c: seq<T>)
    ensures (a + b) + c == a + (b + c)
  {
  }

  /** The `AddJob` loop with its `jobPriority` counter, given each file's
      job type: one job per file, appended in file order, and the counter
      is left one past the last priority used. */
  method AddJobs(p: Pipeline, types: seq<string>, files: seq<string>, params: Params, first: int, jobId: string, now: Time)
    returns (next: int)
    requires |types| == |files|
    modifies p
    ensures p.jobs == old(p.jobs) + JobsWith(types, files, params, first, jobId, now)
    ensures next == first + |files|
    ensures p.pipelineId == old(p.pipelineId) && p.buildingIds == old(p.buildingIds)
    ensures p.enqueuedAt == old(p.enqueuedAt) && p.createdAt == old(p.createdAt)
  {
    next := first;
    ghost var start := p.jobs;
    assert start + JobsWith(types[..0], files[..0], params, first, jobId, now) == start;
    for i := 0 to |files|
      invariant p.jobs == start + JobsWith(types[..i], files[..i], params, first, jobId, now)
      invariant next == first + i
      invariant p.pipelineId == old(p.pipelineId) && p.buildingIds == old(p.buildingIds)
      invariant p.enqueuedAt == old(p.enqueuedAt) && p.createdAt == old(p.createdAt)
    {
      var job := NewJob(types[i], params, files[i], next, jobId, now);
      JobsWithSnoc(types, files, params, first, jobId, now, i);
      AppendAssoc(start, JobsWith(types[..i], files[..i], params, first, jobId, now), [job]);
      p.AddJob(job);
      next := next + 1;
    }
    assert types[..|files|] == types && files[..|files|] == files;
  }

  function LoadErrorMessage(err: string): string {
    "failed to load SQL scripts: " + err
  }

  // ---------------------------------------------------------------------
  // BuildFeatureExtractionQueue
  // ---------------------------------------------------------------------

  /** The `createPipeline` helper: a new pipeline for the batch holding one
      `LOD<lod> <file>` job per main script with priorities 1, 2, ...,
      enqueued at the back of `q`. */
  method CreatePipeline(q: PipelineQueue, batch: seq<int>, lod: int, mainScripts: seq<string>,
                        jobId: string, pipelineId: string, createdAt: string, now: Time)
    returns (p: Pipeline)
    modifies q
    ensures fresh(p)
    ensures q.pipelines == old(q.pipelines) + [p]
    ensures p.buildingIds == batch && p.pipelineId == pipelineId && p.createdAt == createdAt && p.enqueuedAt == now
    ensures p.jobs == JobsFor(Lod(lod), mainScripts, Params(batch), 1, jobId, now)
  {
    p := new Pipeline(batch, [], pipelineId, createdAt);
    var _ := AddJobs(p, JobTypes(Lod(lod), mainScripts), mainScripts, Params(batch), 1, jobId, now);
    q.Enqueue(p, now);
  }

  /** `p` is the pipeline for `batch` at level `lod`. */
  ghost predicate FeaturePipeline(p: Pipeline, batch: seq<int>, lod: int, mainScripts: seq<string>,
                                  jobId: string, pipelineId: string, createdAt: string, now: Time)
    reads p
  {
    && p.buildingIds == batch && p.pipelineId == pipelineId && p.createdAt == createdAt && p.enqueuedAt == now
    && p.jobs == JobsFor(Lod(lod), mainScripts, Params(batch), 1, jobId, now)
  }

  /** The pipelines of `q` are distinct objects. */
  ghost predicate Distinct(q: PipelineQueue)
    reads q
  {
    forall i, j :: 0 <= i < j < |q.pipelines| ==> q.pipelines[i] != q.pipelines[j]
  }

  /** `BuildFeatureExtractionQueue`: when the scripts load, a new queue
      with one pipeline per batch, the LOD2 batches first and then the LOD3
      batches, each in batch order; otherwise the load error, wrapped. */
  method BuildFeatureExtractionQueue(scripts: Result<SQLScripts, string>, lod2Batches: seq<seq<int>>, lod3Batches: seq<seq<int>>,
                                     jobId: string, pipelineId: string, createdAt: string, now: Time)
    returns (r: Result<PipelineQueue, string>)
    ensures scripts.Failure? ==> r == Failure(LoadErrorMessage(scripts.error))
    ensures scripts.Success? ==> r.Success? && fresh(r.value)
    ensures r.Success? ==>
      var q := r.value;
      var main := scripts.value.mainScripts;
      && |q.pipelines| == |lod2Batches| + |lod3Batches|
      && Distinct(q)
      && (forall k :: 0 <= k < |lod2Batches| ==>
            fresh(q.pipelines[k]) && FeaturePipeline(q.pipelines[k], lod2Batches[k], 2, main, jobId, pipelineId, createdAt, now))
      && (forall k :: 0 <= k < |lod3Batches| ==>
            fresh(q.pipelines[|lod2Batches| + k])
            && FeaturePipeline(q.pipelines[|lod2Batches| + k], lod3Batches[k], 3, main, jobId, pipelineId, createdAt, now))
  {
    if scripts.Failure? {
      return Failure(LoadErrorMessage(scripts.error));
    }
    var main := scripts.value.mainScripts;
    var q := new PipelineQueue();
    for i := 0 to |lod2Batches|
      invariant fresh(q) && |q.pipelines| == i && Distinct(q)
      invariant forall k :: 0 <= k < i ==>
        fresh(q.pipelines[k]) && FeaturePipeline(q.pipelines[k], lod2Batches[k], 2, main, jobId, pipelineId, createdAt, now)
    {
      var p := CreatePipeline(q, lod2Batches[i], 2, main, jobId, pipelineId, createdAt, now);
    }
    var n := |lod2Batches|;
    for i := 0 to |lod3Batches|
      invariant fresh(q) && |q.pipelines| == n + i && Distinct(q)
      invariant forall k :: 0 <= k < n ==>
        fresh(q.pipelines[k]) && FeaturePipeline(q.pipelines[k], lod2Batches[k], 2, main, jobId, pipelineId, createdAt, now)
      invariant forall k :: n <= k < n + i ==>
        fresh(q.pipelines[k]) && FeaturePipeline(q.pipelines[k], lod3Batches[k - n], 3, main, jobId, pipelineId, createdAt, now)
    {
      var p := CreatePipeline(q, lod3Batches[i], 3, main, jobId, pipelineId, createdAt, now);
    }
    forall k | 0 <= k < |lod3Batches|
      ensures fresh(q.pipelines[n + k]) && FeaturePipeline(q.pipelines[n + k], lod3Batches[k], 3, main, jobId, pipelineId, createdAt, now)
    {
      assert n <= n + k < n + |lod3Batches|;
    }
    return Success(q);
  }

  // ---------------------------------------------------------------------
  // DBSetupPipelineQueue and SupplementaryPipelineQueue
  // ---------------------------------------------------------------------

  const FunctionPrefix := "FUNCTION: "
  const SupplementaryPrefix := "SUPPLEMENTARY: "

  /** The jobs of the database set-up pipeline: every table script as a
      `LOD2` job, then every table script again as a `LOD3` job, then every
      function script, priorities running on from 1. */
  function SetupJobs(s: SQLScripts, jobId: string, now: Time): seq<Job> {
    var t := |s.tableScripts|;
    JobsFor(Fixed("LOD2"), s.tableScripts, Params([]), 1, jobId, now)
    + JobsFor(Fixed("LOD3"), s.tableScripts, Params([]), 1 + t, jobId, now)
    + JobsFor(Prefixed(FunctionPrefix), s.functionScripts, Params([]), 1 + 2 * t, jobId, now)
  }

  /** `DBSetupPipelineQueue`: a new queue holding exactly one pipeline,
      with no building ids and the set-up jobs. */
  method DBSetupPipelineQueue(scripts: Result<SQLScripts, string>, jobId: string, pipelineId: string, createdAt: string, now: Time)
    returns (r: Result<PipelineQueue, string>)
    ensures scripts.Failure? ==> r == Failure(LoadErrorMessage(scripts.error))
    ensures scripts.Success? ==> r.Success? && fresh(r.value)
    ensures r.Success? ==>
      && |r.value.pipelines| == 1
      && fresh(r.value.pipelines[0])
      && r.value.pipelines[0].buildingIds == []
      && r.value.pipelines[0].enqueuedAt == now
      && r.value.pipelines[0].jobs == SetupJobs(scripts.value, jobId, now)
  {
    if scripts.Failure? {
      return Failure(LoadErrorMessage(scripts.error));
    }
    var s := scripts.value;
    var q := new PipelineQueue();
    var p := new Pipeline([], [], pipelineId, createdAt);
    var params := Params([]);
    var t := |s.tableScripts|;
    ghost var a := JobsFor(Fixed("LOD2"), s.tableScripts, params, 1, jobId, now);
    ghost var b := JobsFor(Fixed("LOD3"), s.tableScripts, params, 1 + t, jobId, now);
    ghost var c := JobsFor(Prefixed(FunctionPrefix), s.functionScripts, params, 1 + 2 * t, jobId, now);
    var priority := AddJobs(p, JobTypes(Fixed("LOD2"), s.tableScripts), s.tableScripts, params, 1, jobId, now);
    assert p.jobs == a && priority == 1 + t;
    priority := AddJobs(p, JobTypes(Fixed("LOD3"), s.tableScripts), s.tableScripts, params, priority, jobId, now);
    assert p.jobs == a + b && priority == 1 + 2 * t;
    priority := AddJobs(p, JobTypes(Prefixed(FunctionPrefix), s.functionScripts), s.functionScripts, params, priority, jobId, now);
    assert p.jobs == a + b + c == SetupJobs(s, jobId, now);
    q.Enqueue(p, now);
    return Success(q);
  }

  /** `SupplementaryPipelineQueue`: a new queue holding exactly one
      pipeline, with no building ids and one `SUPPLEMENTARY: <base name>`
      job per supplementary script, priorities 1, 2, .... */
  method SupplementaryPipelineQueue(scripts: Result<SQLScripts, string>, jobId: string, pipelineId: string, createdAt: string, now: Time)
    returns (r: Result<PipelineQueue, string>)
    ensures scripts.Failure? ==> r == Failure(LoadErrorMessage(scripts.error))
    ensures scripts.Success? ==> r.Success? && fresh(r.value)
    ensures r.Success? ==>
      && |r.value.pipelines| == 1
      && fresh(r.value.pipelines[0])
      && r.value.pipelines[0].buildingIds == []
      && r.value.pipelines[0].enqueuedAt == now
      && r.value.pipelines[0].jobs
         == JobsFor(Prefixed(SupplementaryPrefix), scripts.value.supplementaryScripts, Params([]), 1, jobId, now)
  {
    if scripts.Failure? {
      return Failure(LoadErrorMessage(scripts.error));
    }
    var q := new PipelineQueue();
    var p := new Pipeline([], [], pipelineId, createdAt);
    var _ := AddJobs(p, JobTypes(Prefixed(SupplementaryPrefix), scripts.value.supplementaryScripts), scripts.value.supplementaryScripts, Params([]), 1, jobId, now);
    q.Enqueue(p, now);
    return Success(q);
  }

  // ---------------------------------------------------------------------
  // What the runner makes of these pipelines
  // ---------------------------------------------------------------------

  /** Priorities that count up by one from position to position. */
  predicate Consecutive(jobs: seq<Job>, first: int) {
    forall i :: 0 <= i < |jobs| ==> jobs[i].priority == first + i
  }

  lemma ConsecutiveAppend(a: seq<Job>, b: seq<Job>, first: int)
    requires Consecutive(a, first) && Consecutive(b, first + |a|)
    ensures Consecutive(a + b, first)
  {
  }

  /** The set-up jobs are numbered 1, 2, ..., n without gaps. */
  lemma SetupJobsConsecutive(s: SQLScripts, jobId: string, now: Time)
    ensures |SetupJobs(s, jobId, now)| == 2 * |s.tableScripts| + |s.functionScripts|
    ensures Consecutive(SetupJobs(s, jobId, now), 1)
  {
    var t := |s.tableScripts|;
    var a := JobsFor(Fixed("LOD2"), s.tableScripts, Params([]), 1, jobId, now);
    var b := JobsFor(Fixed("LOD3"), s.tableScripts, Params([]), 1 + t, jobId, now);
    var c := JobsFor(Prefixed(FunctionPrefix), s.functionScripts, Params([]), 1 + 2 * t, jobId, now);
    ConsecutiveAppend(a, b, 1);
    ConsecutiveAppend(a + b, c, 1);
  }

  /** Jobs numbered consecutively are run in exactly the order they were
      added: the only priority-ordered permutation of them is themselves,
      whatever the unstable sort in `RunPipeline` does with ties. */
  lemma {:induction false} ConsecutiveRunInOrder(jobs: seq<Job>, first: int, sorted: seq<Job>)
    requires Consecutive(jobs, first)
    requires SortedBy(sorted, ByPriority) && multiset(sorted) == multiset(jobs)
    ensures sorted == jobs
  {
    assert SortedBy(jobs, ByPriority);
    assert DistinctPriorities(jobs);
    DistinctPrioritiesFixOrder(jobs, sorted);
  }

  lemma {:induction false} NotContainsAfter(p: string, s: string, sub: string)
    requires forall i :: 0 <= i < |p| ==> !HasPrefix(p[i..] + s, sub)
    requires !Contains(s, sub)
    ensures !Contains(p + s, sub)
    decreases |p|
  {
    if p == [] {
      assert p + s == s;
    } else {
      assert !HasPrefix(p[0..] + s, sub);
      assert p[0..] == p;
      assert (p + s)[1..] == p[1..] + s;
      forall i | 0 <= i < |p[1..]| ensures !HasPrefix(p[1..][i..] + s, sub) {
        assert p[1..][i..] == p[i + 1..];
      }
      NotContainsAfter(p[1..], s, sub);
    }
  }

  lemma LodTwoText(file: string)
    ensures LodLabel(2, file) == "LOD2 " + file
  {
    assert Itoa(2) == "2";
  }

  lemma LodThreeText(file: string)
    ensures LodLabel(3, file) == "LOD3 " + file
  {
    assert Itoa(3) == "3";
  }

  /** A feature-extraction job's type names its level, and the runner
      reads the same level back from it (as long as the file name itself
      mentions neither level). */
  lemma LodLabelRoundTrip(lod: int, file: string)
    requires lod == 2 || lod == 3
    requires !Contains(file, "LOD2") && !Contains(file, "LOD3")
    ensures ScriptLod(LodLabel(lod, file)) == lod
  {
    if lod == 2 {
      LodTwoText(file);
      var p := "LOD2 ";
      forall i | 0 <= i < |p| ensures !HasPrefix(p[i..] + file, "LOD3") {
        if i == 0 {
          assert |p[i..] + file| >= 4 ==> (p[i..] + file)[3] == '2';
        } else {
          assert (p[i..] + file)[0] == p[i];
        }
      }
      NotContainsAfter(p, file, "LOD3");
      ContainsMiddle([], "LOD2", " " + file);
      assert [] + "LOD2" + (" " + file) == p + file;
    } else {
      LodThreeText(file);
      ContainsMiddle([], "LOD3", " " + file);
      assert [] + "LOD3" + (" " + file) == "LOD3 " + file;
    }
  }

  /** Text before a match keeps it a match. */
  lemma {:induction false} ContainsAfter(p: string, s: string, sub: string)
    requires Contains(s, sub)
    ensures Contains(p + s, sub)
    decreases |p|
  {
    if p == [] {
      assert p + s == s;
    } else {
      assert (p + s)[1..] == p[1..] + s;
      ContainsAfter(p[1..], s, sub);
    }
  }

  /** The precondition of `LodLabelRoundTrip` is needed: a level-2 job
      whose file name mentions `LOD3` has its script run at level 3. */
  lemma LodThreeInFileWins(file: string)
    requires Contains(file, "LOD3")
    ensures ScriptLod(LodLabel(2, file)) == 3
  {
    LodTwoText(file);
    ContainsAfter("LOD2 ", file, "LOD3");
  }

  /** One feature-extraction job runs its script at its level and with
      its batch of ids. */
  lemma FeatureJobRunsAtItsLevel(lod: int, file: string, batch: seq<int>, priority: int, jobId: string, now: Time)
    requires lod == 2 || lod == 3
    requires !Contains(file, "LOD2") && !Contains(file, "LOD3")
    ensures var job := NewJob(JobType(Lod(lod), file), Params(batch), file, priority, jobId, now);
      ScriptLod(job.jobType) == lod && ScriptIds(job) == batch
  {
    LodLabelRoundTrip(lod, file);
  }

  /** Every job of a feature-extraction pipeline runs its script at the
      pipeline's level and with the pipeline's batch of ids. */
  lemma FeatureJobsRunAtTheirLevel(lod: int, mainScripts: seq<string>, batch: seq<int>, jobId: string, now: Time)
    requires lod == 2 || lod == 3
    requires forall f :: f in mainScripts ==> !Contains(f, "LOD2") && !Contains(f, "LOD3")
    ensures forall job :: job in JobsFor(Lod(lod), mainScripts, Params(batch), 1, jobId, now) ==>
      ScriptLod(job.jobType) == lod && ScriptIds(job) == batch
  {
    var jobs := JobsFor(Lod(lod), mainScripts, Params(batch), 1, jobId, now);
    forall job | job in jobs ensures ScriptLod(job.jobType) == lod && ScriptIds(job) == batch {
      var i :| 0 <= i < |jobs| && jobs[i] == job;
      FeatureJobRunsAtItsLevel(lod, mainScripts[i], batch, 1 + i, jobId, now);
    }
  }
}
