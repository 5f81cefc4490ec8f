/** The "order-processing" queue (be/src/queue/orderQueue.ts): its job payload,
    the worker's view of a job, and the `add` call the order manager makes. */
module OrderQueue {
  import opened Types

  /** `defaultJobOptions.attempts` of the queue. */
  const DefaultAttempts: int := 3

  /** The payload of a job. */
  datatype JobData = JobData(orderId: OrderId, tokenPair: string, amount: real)

  /** A job as the processor receives it: the payload, how many earlier runs
      of it failed (`attemptsMade`) and `opts.attempts`, which may be absent. */
  datatype Job = Job(data: JobData, attemptsMade: nat, attempts: Option<int>)

  /** A job as it sits in the queue. */
  datatype QueuedJob = QueuedJob(name: string, data: JobData, jobId: string, attempts: int)

  /** The processor's view of a queued job after `attemptsMade` failed runs. */
  function Delivered(q: QueuedJob, attemptsMade: nat): Job {
    Job(q.data, attemptsMade, Some(q.attempts))
  }

  class JobQueue {
    var jobs: seq<QueuedJob>

    constructor ()
      ensures jobs == []
    {
      jobs := [];
    }

    /** `orderQueue.add(name, data, {jobId})`: the job takes the queue's default attempts. */
    method Add(name: string, data: JobData, jobId: string)
      modifies this
      ensures jobs == old(jobs) + [QueuedJob(name, data, jobId, DefaultAttempts)]
    {
      jobs := jobs + [QueuedJob(name, data, jobId, DefaultAttempts)];
    }
  }
}
