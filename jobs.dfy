/** Jobs and pipelines: a job names one SQL file to run with its building
    ids; a pipeline is the ordered list of jobs one worker runs for one
    batch. Identifiers and clock readings come from outside (a UUID
    generator and the wall clock) and are parameters here. */
module Jobs {

  /** A wall-clock reading; `ZeroTime` is Go's zero `time.Time`. */
  type Time = int
  const ZeroTime: Time := 0

  /** The parameters every SQL job takes. */
  datatype Params = Params(buildingIds: seq<int>)

  /** A job. A lower `priority` number runs earlier. */
  datatype Job = Job(
    jobId: string,
    jobType: string,
    params: Params,
    sqlFile: string,
    priority: int,
    createdAt: Time)

  /** `NewJob`: every given field is stored as given — any priority,
      including zero and negative ones, and any file name, including the
      empty one; the id and the creation time are the fresh values passed
      in. */
  function NewJob(jobType: string, params: Params, sqlFile: string, priority: int, jobId: string, now: Time): (j: Job)
    ensures j.jobType == jobType && j.params == params && j.sqlFile == sqlFile && j.priority == priority
    ensures j.jobId == jobId && j.createdAt == now
  {
    Job(jobId, jobType, params, sqlFile, priority, now)
  }

  class Pipeline {
    var pipelineId: string
    var buildingIds: seq<int>
    var jobs: seq<Job>
    var enqueuedAt: Time
    var createdAt: string

    /** `NewPipeline`: the building ids and jobs are stored unchanged (the
        jobs are not sorted), and the pipeline has not been enqueued. */
    constructor (buildingIds: seq<int>, jobs: seq<Job>, pipelineId: string, createdAt: string)
      ensures this.buildingIds == buildingIds && this.jobs == jobs
      ensures this.pipelineId == pipelineId && this.createdAt == createdAt
      ensures enqueuedAt == ZeroTime
    {
      this.pipelineId := pipelineId;
      this.buildingIds := buildingIds;
      this.jobs := jobs;
      this.enqueuedAt := ZeroTime;
      this.createdAt := createdAt;
    }

    /** `AddJob` appends: the earlier jobs keep their places and the new
        job is last. */
    method AddJob(job: Job)
      modifies this
      ensures jobs == old(jobs) + [job]
      ensures |jobs| == |old(jobs)| + 1 && jobs[..|old(jobs)|] == old(jobs) && jobs[|jobs| - 1] == job
      ensures buildingIds == old(buildingIds) && pipelineId == old(pipelineId)
      ensures enqueuedAt == old(enqueuedAt) && createdAt == old(createdAt)
    {
      jobs := jobs + [job];
    }
  }
}
