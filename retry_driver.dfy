/** The re-delivery of a failing job. The queue library is not part of this
    model: this driver states the assumption that a job whose processor
    throws is run again, with `attemptsMade` one higher, until a run
    resolves or `opts.attempts` runs (at least one) have been made. */
module RetryDriver {
  import opened Types
  import opened OrderQueue
  import opened OrderWorker

  /** What one run of the job sees: the quote the router returns, the
      generated transaction hash, and the step that throws, if any. */
  datatype Attempt = Attempt(quote: Quote, txHash: string, fault: Option<Fault>)

  /** How many runs a job gets: `opts.attempts || 1`, and never fewer than one. */
  function Budget(attempts: Option<int>): (n: nat)
    ensures n >= 1 && n >= MaxAttempts(attempts)
    ensures MaxAttempts(attempts) >= 1 ==> n == MaxAttempts(attempts)
  {
    if MaxAttempts(attempts) < 1 then 1 else MaxAttempts(attempts)
  }

  /** A job the order manager queued reaches the processor with its payload
      and the queue's default of three runs. */
  lemma QueuedJobBudget(q: QueuedJob, attemptsMade: nat)
    requires q.attempts == DefaultAttempts
    ensures Delivered(q, attemptsMade).data == q.data
    ensures Delivered(q, attemptsMade).attemptsMade == attemptsMade
    ensures Budget(Delivered(q, attemptsMade).attempts) == 3
  {
  }

  /** A run the driver does not follow with another ends the row as
      `confirmed` when it succeeded and as `failed` when it threw. */
  lemma LastRunStatus(job: Job, fault: Option<Fault>)
    requires fault.None? || job.attemptsMade + 1 == Budget(job.attempts)
    ensures FinalStatus(job, fault) == if fault.None? then Confirmed else Failed
  {
    if fault.Some? {
      assert job.attemptsMade + 1 >= MaxAttempts(job.attempts);
    }
  }

  /** A run the driver follows with another leaves the row `pending`. */
  lemma RetriedRunStatus(job: Job, f: Fault)
    requires job.attemptsMade + 1 < Budget(job.attempts)
    ensures FinalStatus(job, Some(f)) == Pending
  {
    assert MaxAttempts(job.attempts) >= 1;
  }

  /** Run the job from its first attempt. `runs` is how many runs were made.
      The job succeeds exactly when one of its first `Budget` runs meets no
      fault on an existing row, and it stops at the first such run; the row
      is then `confirmed`, and `failed` when every run threw. */
  method RunJob(w: Worker, job: Job, attempts: seq<Attempt>) returns (r: JobOutcome, runs: nat)
    requires job.attemptsMade == 0
    requires |attempts| >= Budget(job.attempts)
    requires w.db.Valid()
    modifies w`outbox, w.db
    ensures w.db.Valid()
    ensures 1 <= runs <= Budget(job.attempts)
    ensures job.data.orderId in w.db.orders <==> job.data.orderId in old(w.db.orders)
    ensures r.Succeeded? <==> job.data.orderId in old(w.db.orders) && attempts[runs - 1].fault.None?
    ensures forall k | 0 <= k < runs - 1 :: attempts[k].fault.Some? || job.data.orderId !in old(w.db.orders)
    ensures r.Threw? ==> runs == Budget(job.attempts)
    ensures job.data.orderId in old(w.db.orders) ==>
      (r.Succeeded? <==> exists k | 0 <= k < Budget(job.attempts) :: attempts[k].fault.None?)
    ensures job.data.orderId in old(w.db.orders) ==>
      w.db.orders[job.data.orderId].status == if r.Succeeded? then Confirmed else Failed
    ensures job.data.orderId !in old(w.db.orders) ==> w.db.orders == old(w.db.orders) && w.outbox == old(w.outbox)
  {
    var id := job.data.orderId;
    var budget := Budget(job.attempts);
    ghost var present := id in w.db.orders;
    runs := 0;
    r := Threw(RecordNotFound(id));
    while runs < budget
      invariant 0 <= runs <= budget
      invariant (id in w.db.orders) == present
      invariant w.db.Valid()
      invariant runs == 0 || r.Threw?
      invariant forall k | 0 <= k < runs :: attempts[k].fault.Some? || !present
      invariant runs > 0 && present ==>
        w.db.orders[id].status == FinalStatus(job.(attemptsMade := runs - 1), attempts[runs - 1].fault)
      invariant !present ==> w.db.orders == old(w.db.orders) && w.outbox == old(w.outbox)
      invariant runs > 0 ==> r == RunOutcome(job.(attemptsMade := runs - 1), attempts[runs - 1].fault, present)
      decreases budget - runs
    {
      var a := attempts[runs];
      r := RunOnce(w, job.(attemptsMade := runs), a);
      runs := runs + 1;
      if r.Succeeded? {
        break;
      }
    }
    if present {
      LastRunStatus(job.(attemptsMade := runs - 1), attempts[runs - 1].fault);
    }
    Verdict(attempts, budget, runs, r.Succeeded?, present);
  }

  /** One delivery of the job: the processor's outcome and the status it
      leaves the row with; a missing row stays missing and nothing changes. */
  method RunOnce(w: Worker, job: Job, a: Attempt) returns (r: JobOutcome)
    requires w.db.Valid()
    modifies w`outbox, w.db
    ensures w.db.Valid()
    ensures r == RunOutcome(job, a.fault, job.data.orderId in old(w.db.orders))
    ensures job.data.orderId in w.db.orders <==> job.data.orderId in old(w.db.orders)
    ensures job.data.orderId in old(w.db.orders) ==> w.db.orders[job.data.orderId].status == FinalStatus(job, a.fault)
    ensures job.data.orderId !in old(w.db.orders) ==> w.db.orders == old(w.db.orders) && w.outbox == old(w.outbox)
  {
    r := w.Process(job, a.quote, a.txHash, a.fault);
  }

  /** The job succeeds exactly when some run within the budget meets no
      fault: the runs before the last all met one, and the driver stops
      early only on success. */
  lemma Verdict(attempts: seq<Attempt>, budget: nat, runs: nat, succeeded: bool, present: bool)
    requires 1 <= runs <= budget <= |attempts|
    requires forall k | 0 <= k < runs - 1 :: attempts[k].fault.Some? || !present
    requires succeeded <==> present && attempts[runs - 1].fault.None?
    requires !succeeded ==> runs == budget
    ensures present ==> (succeeded <==> exists k | 0 <= k < budget :: attempts[k].fault.None?)
  {
    if present && !succeeded {
      forall k | 0 <= k < budget
        ensures attempts[k].fault.Some?
      {
      }
    }
  }
}
