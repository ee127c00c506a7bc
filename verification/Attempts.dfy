/** How many attempts a job can have, exactly, and that one which has failed may run again. */
module Attempts {
  import opened Domain
  import opened Tables
  import opened JobRows
  import opened Protocol
  import opened Messages
  import opened Ledger
  import opened Invariant
  import opened Guarantees
  import opened Faults

  /** The only worker has just been given the only message, after `n` interruptions and `a` attempts. */
  ghost predicate Waiting(cfg: Config, s: State, m: Message, row: Job, a: nat, n: nat) {
    && Reachable(cfg, s) && At(s, m, row, Received) && s.workers.Keys == {0} && s.api == map[0 := Done(m)]
    && row.source == Hockey && row.status != Completed && row.attempts == a
    && Count(s.log, Interrupted(m)) == n
  }

  /** It has committed the start of its next attempt. */
  ghost predicate Underway(cfg: Config, s: State, m: Message, job: Job, n: nat) {
    && Reachable(cfg, s) && At(s, m, job, Crawling(JobCopy(job, job), 0, 0, []))
    && s.workers.Keys == {0} && s.api == map[0 := Done(m)]
    && job.source == Hockey && job.status == Running && job.error == None
    && Count(s.log, Interrupted(m)) == n
  }

  lemma Begin(cfg: Config) returns (s: State, m: Message)
    ensures Waiting(cfg, s, m, NewJob(Hockey, 0), 0, 0)
  {
    s, m := FirstDelivery(cfg, {0}, false);
  }

  lemma SameInterruptions(log: seq<Event>, events: seq<Event>, m: Message)
    requires forall e | e in events :: e != Interrupted(m)
    ensures Count(log + events, Interrupted(m)) == Count(log, Interrupted(m))
  {
    CountConcat(log, events, Interrupted(m));
    CountAbsent(events, Interrupted(m));
  }

  lemma StartNow(cfg: Config, s: State, m: Message, row: Job, a: nat, n: nat) returns (s': State, job: Job)
    requires Waiting(cfg, s, m, row, a, n)
    ensures Underway(cfg, s', m, job, n) && job.attempts == a + 1
  {
    job := MarkRunning(row, s.now);
    var s1, e1 := Work1(cfg, s, m, row, Received, Read);
    assert At(s1, m, row, Loaded(JobCopy(row, job)));
    var s2, e2 := Work1(cfg, s1, m, row, Loaded(JobCopy(row, job)), CommitStart);
    SameInterruptions(s.log, e1.events, m);
    SameInterruptions(s1.log, e2.events, m);
    s' := s2;
  }

  /** The message is back in the queue and the worker idle. */
  ghost predicate Queued(cfg: Config, s: State, m: Message, row: Job, n: nat) {
    && Reachable(cfg, s) && s.workers == map[0 := Idle] && s.api == map[0 := Done(m)]
    && m in s.broker.ready && s.broker.unacked == map[] && m.body == Valid(0, Hockey)
    && s.db.jobs == map[0 := row] && Count(s.log, Interrupted(m)) == n
  }

  lemma DeliverAgain(cfg: Config, s: State, m: Message, row: Job, n: nat) returns (s': State)
    requires Queued(cfg, s, m, row, n) && row.source == Hockey && row.status != Completed
    ensures Waiting(cfg, s', m, row, row.attempts, n)
  {
    SoleWorkerNeverOverlaps(cfg, s, Deliver(0, m), 0);
    s' := Apply(cfg, s, Deliver(0, m));
    ReachableStep(cfg, s, Deliver(0, m));
    SameInterruptions(s.log, [Delivered(m)], m);
  }

  /** A crash anywhere, and the redelivery that follows. */
  lemma CrashNow(cfg: Config, s: State, m: Message, row: Job, pc: Pc, n: nat) returns (s': State)
    requires Reachable(cfg, s) && At(s, m, row, pc) && s.workers.Keys == {0} && s.api == map[0 := Done(m)]
    requires row.source == Hockey && row.status != Completed && Count(s.log, Interrupted(m)) == n
    ensures Waiting(cfg, s', m, row, row.attempts, n + 1)
  {
    var s1 := Apply(cfg, s, Abort(0, WorkerCrash));
    ReachableStep(cfg, s, Abort(0, WorkerCrash));
    assert s1.log == s.log + [Interrupted(m)];
    CountConcat(s.log, [Interrupted(m)], Interrupted(m));
    s' := DeliverAgain(cfg, s1, m, row, n + 1);
  }

  function Errors(): seq<CrawlError> {
    [CrawlError(Hockey, "")]
  }

  /** The crawler raises with attempts left: the job is marked for a retry. */
  lemma RetryMarked(cfg: Config, s: State, m: Message, job: Job, n: nat) returns (s': State)
    requires Underway(cfg, s, m, job, n) && job.attempts < cfg.maxAttempts
    ensures Reachable(cfg, s') && s'.workers.Keys == {0} && s'.api == s.api && s'.log == s.log
    ensures At(s', m, job, Marked(JobCopy(job, MarkPendingRetry(job, CrawlFailed(Errors()))), RetryOutcome))
  {
    var ses := JobCopy(job, job);
    var s1, e1 := Work1(cfg, s, m, job, Crawling(ses, 0, 0, []), CrawlerReturns(Raised("")));
    assert e1.pc == Crawling(ses, 1, 0, Errors()) && s1.log == s.log;
    var s2, e2 := Work1(cfg, s1, m, job, Crawling(ses, 1, 0, Errors()), MarkOutcome);
    assert s2.log == s1.log;
    s' := s2;
  }

  /** The retry is committed. */
  lemma RetryCommitted(cfg: Config, s: State, m: Message, job: Job, n: nat) returns (s': State, row: Job)
    requires Underway(cfg, s, m, job, n) && job.attempts < cfg.maxAttempts
    ensures Reachable(cfg, s') && At(s', m, row, Settling(Requeue)) && s'.workers.Keys == {0} && s'.api == s.api
    ensures row.source == Hockey && row.status == Pending && row.attempts == job.attempts
    ensures Count(s'.log, Interrupted(m)) == n
  {
    row := MarkPendingRetry(job, CrawlFailed(Errors()));
    var s1 := RetryMarked(cfg, s, m, job, n);
    var s2, e := Work1(cfg, s1, m, job, Marked(JobCopy(job, row), RetryOutcome), CommitOutcome);
    SameInterruptions(s.log, e.events, m);
    s' := s2;
  }

  /** The retried message is requeued and delivered again. */
  lemma RequeueNow(cfg: Config, s: State, m: Message, row: Job, n: nat) returns (s': State)
    requires Reachable(cfg, s) && At(s, m, row, Settling(Requeue)) && s.workers.Keys == {0}
    requires s.api == map[0 := Done(m)]
    requires row.source == Hockey && row.status == Pending && Count(s.log, Interrupted(m)) == n
    ensures Waiting(cfg, s', m, row, row.attempts, n)
  {
    var s1 := Apply(cfg, s, Settle(0));
    ReachableStep(cfg, s, Settle(0));
    assert s1.log == s.log + [Requeued(m)];
    SameInterruptions(s.log, [Requeued(m)], m);
    s' := DeliverAgain(cfg, s1, m, row, n);
  }

  /** Retries alone use up all attempts but the last. */
  lemma {:induction false} Retried(cfg: Config, a: nat) returns (s: State, m: Message, row: Job)
    requires a < AttemptLimit(cfg)
    ensures Waiting(cfg, s, m, row, a, 0)
  {
    if a == 0 {
      s, m := Begin(cfg);
      row := NewJob(Hockey, 0);
    } else {
      var s0, row0;
      s0, m, row0 := Retried(cfg, a - 1);
      var s1, job := StartNow(cfg, s0, m, row0, a - 1, 0);
      var s2;
      s2, row := RetryCommitted(cfg, s1, m, job, 0);
      s := RequeueNow(cfg, s2, m, row, 0);
    }
  }

  /** Crashes before the start cost a delivery, crashes after it an attempt too. */
  lemma {:induction false} CrashedRepeatedly(cfg: Config, s: State, m: Message, row: Job, a: nat, n: nat,
          after: nat, before: nat)
    returns (s': State, row': Job)
    requires Waiting(cfg, s, m, row, a, n)
    ensures Waiting(cfg, s', m, row', a + after, n + after + before)
    decreases after + before
  {
    if after > 0 {
      var s1, job := StartNow(cfg, s, m, row, a, n);
      var s2 := CrashNow(cfg, s1, m, job, Crawling(JobCopy(job, job), 0, 0, []), n);
      s', row' := CrashedRepeatedly(cfg, s2, m, job, a + 1, n + 1, after - 1, before);
    } else if before > 0 {
      var s2 := CrashNow(cfg, s, m, row, Received, n);
      s', row' := CrashedRepeatedly(cfg, s2, m, row, a, n + 1, after, before - 1);
    } else {
      s', row' := s, row;
    }
  }

  /** Some reachable job has `a` attempts after `n` interruptions of its message. */
  ghost predicate Occurs(cfg: Config, s: State, j: JobId, m: Message, a: nat, n: nat) {
    && Reachable(cfg, s) && j in s.db.jobs && j in s.api && Sent(s.api[j]) == Some(m)
    && s.db.jobs[j].attempts == a && Count(s.log, Interrupted(m)) == n
  }

  lemma AttemptsOccur(cfg: Config, a: nat, n: nat) returns (s: State, m: Message)
    requires a <= AttemptLimit(cfg) + n
    ensures Occurs(cfg, s, 0, m, a, n)
  {
    if a == 0 {
      var s0;
      s0, m := Begin(cfg);
      var s1, _ := CrashedRepeatedly(cfg, s0, m, NewJob(Hockey, 0), 0, 0, 0, n);
      s := s1;
    } else {
      var retries := if a <= AttemptLimit(cfg) then a - 1 else AttemptLimit(cfg) - 1;
      var crashes := a - 1 - retries;
      var s0, row0;
      s0, m, row0 := Retried(cfg, retries);
      var s1, row1 := CrashedRepeatedly(cfg, s0, m, row0, retries, 0, crashes, n - crashes);
      var s2, _ := StartNow(cfg, s1, m, row1, a - 1, n);
      s := s2;
    }
  }

  /**
   * Exactly which attempt counts can occur after `n` interruptions: those up to `max(1, max_attempts) + n`,
   * every one of them.
   */
  lemma AttemptsExactly(cfg: Config, a: nat, n: nat)
    ensures (exists s, j, m :: Occurs(cfg, s, j, m, a, n)) <==> a <= AttemptLimit(cfg) + n
  {
    if s, j, m :| Occurs(cfg, s, j, m, a, n) {
      AttemptBound(cfg, s, j);
    }
    if a <= AttemptLimit(cfg) + n {
      var s, m := AttemptsOccur(cfg, a, n);
    }
  }

  /** Whatever the maximum, a failed job whose dead-lettering is lost runs again. */
  lemma FailedIsNotFinal(cfg: Config)
    ensures exists s, step :: Reachable(cfg, s) && Enabled(cfg, s, step) && !Overlaps(s, step)
              && 0 in s.db.jobs && s.db.jobs[0].status == Failed
              && Apply(cfg, s, step).db.jobs[0].status == Running
  {
    var s0, m, row0 := Retried(cfg, AttemptLimit(cfg) - 1);
    var s1, job := StartNow(cfg, s0, m, row0, AttemptLimit(cfg) - 1, 0);
    var s2, row := FailRun(cfg, s1, m, job);
    var s := Redeliver(cfg, s2, m, row, Settling(DeadLetter));
    RestartsAt(cfg, s, m, row);
  }

  lemma RestartsAt(cfg: Config, s: State, m: Message, row: Job)
    requires Reachable(cfg, s) && At(s, m, row, Received) && row.status == Failed
    ensures exists s', step :: Reachable(cfg, s') && Enabled(cfg, s', step) && !Overlaps(s', step)
              && 0 in s'.db.jobs && s'.db.jobs[0].status == Failed
              && Apply(cfg, s', step).db.jobs[0].status == Running
  {
    var s1, e := Work1(cfg, s, m, row, Received, Read);
    var step := Advance(0, CommitStart);
    assert s1.db == s.db && e.pc == Loaded(JobCopy(row, MarkRunning(row, s.now)));
    assert Enabled(cfg, s1, step) && Apply(cfg, s1, step).db.jobs[0].status == Running;
  }
}
