/** How the repository changes a job object, and what a session flush writes back to its row. */
module JobRows {
  import opened Domain

  /** The row `create` inserts. */
  function NewJob(source: Source, created: Time): Job {
    Job(source, Pending, 0, None, None, created, None, None)
  }

  function MarkRunning(job: Job, now: Time): Job {
    job.(status := Running, startedAt := Some(now), attempts := job.attempts + 1, error := None)
  }

  function MarkCompleted(job: Job, records: nat, now: Time): Job {
    job.(status := Completed, records := Some(records), finishedAt := Some(now))
  }

  function MarkFailed(job: Job, error: JobError, now: Time): Job {
    job.(status := Failed, error := Some(error), finishedAt := Some(now))
  }

  function MarkPendingRetry(job: Job, error: JobError): Job {
    job.(status := Pending, error := Some(error))
  }

  /**
   * The UPDATE a session emits for a job it loaded as `base` and changed to `job`: only columns
   * whose value differs from the loaded one are written, the others keep what `row` holds now.
   * No code path assigns `source` or `created_at` after the insert.
   */
  function Flush(row: Job, base: Job, job: Job): Job {
    row.(status := if job.status != base.status then job.status else row.status,
         attempts := if job.attempts != base.attempts then job.attempts else row.attempts,
         records := if job.records != base.records then job.records else row.records,
         error := if job.error != base.error then job.error else row.error,
         startedAt := if job.startedAt != base.startedAt then job.startedAt else row.startedAt,
         finishedAt := if job.finishedAt != base.finishedAt then job.finishedAt else row.finishedAt)
  }
}
