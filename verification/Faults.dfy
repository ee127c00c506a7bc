/**
 * Claims that look natural and are false of the code: for each, a run that breaks it. The exact
 * conditions under which they hold are in Guarantees.
 */
module Faults {
  import opened Domain
  import opened Tables
  import opened JobRows
  import opened Protocol
  import opened Messages
  import opened Sessions
  import opened Invariant
  import opened Guarantees

  lemma ReachableInit(cfg: Config, ws: set<WorkerId>)
    ensures Reachable(cfg, Init(ws))
  {
    assert ReachableWith(cfg, ws, [], Init(ws));
  }

  lemma ReachableStep(cfg: Config, s: State, step: Step)
    requires Reachable(cfg, s) && Enabled(cfg, s, step) && !Overlaps(s, step)
    ensures Reachable(cfg, Apply(cfg, s, step))
  {
    var s' := Apply(cfg, s, step);
    assert IsRun(cfg, s', []) && NoOverlap(cfg, s', []) && Final(cfg, s', []) == s';
    assert [step][1..] == [];
    ReachableExtends(cfg, s, [step]);
    assert Final(cfg, s, [step]) == s';
  }

  /** A job created, published and delivered: the start of every example. */
  lemma FirstDelivery(cfg: Config, ws: set<WorkerId>, ambiguous: bool) returns (s: State, m: Message)
    requires 0 in ws
    ensures Reachable(cfg, s) && m == Message(1, Valid(0, Hockey))
    ensures At(s, m, NewJob(Hockey, 0), Received) && s.db.hockey == []
    ensures s.api == map[0 := if ambiguous then PublishRaised(Some(m)) else Done(m)] && s.log == [Delivered(m)]
    ensures s.workers.Keys == ws && forall w | w in ws && w != 0 :: s.workers[w] == Idle
  {
    var s0 := Init(ws);
    ReachableInit(cfg, ws);
    var s1 := Apply(cfg, s0, Enqueue(0, Create(Hockey)));
    ReachableStep(cfg, s0, Enqueue(0, Create(Hockey)));
    m := Message(1, Valid(0, Hockey));
    var s2 := Published(cfg, s1, m, ambiguous);
    s := Apply(cfg, s2, Deliver(0, m));
    ReachableStep(cfg, s2, Deliver(0, m));
  }

  lemma Published(cfg: Config, s: State, m: Message, ambiguous: bool) returns (s': State)
    requires Reachable(cfg, s) && s.now == 1 && s.api == map[0 := Created] && s.db.jobs == map[0 := NewJob(Hockey, 0)]
    requires m == Message(1, Valid(0, Hockey))
    ensures Reachable(cfg, s') && s'.db == s.db && s'.workers == s.workers && s'.log == s.log
    ensures s'.broker == Accept(s.broker, m)
    ensures s'.api == map[0 := if ambiguous then PublishRaised(Some(m)) else Done(m)]
  {
    var publish := Enqueue(0, if ambiguous then AmbiguousPublish else Publish);
    s' := Apply(cfg, s, publish);
    ReachableStep(cfg, s, publish);
  }

  /** Worker 0 is at `pc` with the only job's message, and the job's row is `row`. */
  predicate At(s: State, m: Message, row: Job, pc: Pc) {
    && s.db.jobs == map[0 := row]
    && 0 in s.workers && s.workers[0] == Busy(m, pc)
    && s.broker.unacked == map[m := 0] && m.body == Valid(0, Hockey)
  }

  lemma Work1(cfg: Config, s: State, m: Message, row: Job, pc: Pc, work: Work) returns (s': State, e: Effect)
    requires Reachable(cfg, s) && At(s, m, row, pc) && WorkEnabled(s.db, m.body, pc, work)
    ensures e == Worked(cfg, s.db, s.now, m.body, pc, work)
    ensures Reachable(cfg, s') && s'.db == e.db && s'.workers == s.workers[0 := Busy(m, e.pc)]
    ensures s'.broker == s.broker && s'.api == s.api && s'.log == s.log + e.events
  {
    e := Worked(cfg, s.db, s.now, m.body, pc, work);
    s' := Apply(cfg, s, Advance(0, work));
    ReachableStep(cfg, s, Advance(0, work));
  }

  /** `mark_running` and its commit. */
  lemma StartJob(cfg: Config, s: State, m: Message, row: Job) returns (s': State, running: Job)
    requires Reachable(cfg, s) && At(s, m, row, Received) && row.status != Completed && row.source == Hockey
    ensures Reachable(cfg, s') && At(s', m, running, Crawling(JobCopy(running, running), 0, 0, []))
    ensures running == MarkRunning(row, s.now) && s'.db.hockey == s.db.hockey
    ensures s'.workers.Keys == s.workers.Keys && s'.api == s.api
  {
    running := MarkRunning(row, s.now);
    var s1, _ := Work1(cfg, s, m, row, Received, Read);
    var s2, _ := Work1(cfg, s1, m, row, Loaded(JobCopy(row, running)), CommitStart);
    s' := s2;
  }

  /** The crawler raises; the outcome is committed. */
  lemma FailRun(cfg: Config, s: State, m: Message, job: Job) returns (s': State, row: Job)
    requires Reachable(cfg, s) && At(s, m, job, Crawling(JobCopy(job, job), 0, 0, []))
    requires job.source == Hockey && job.status == Running && job.error == None && job.attempts >= cfg.maxAttempts
    ensures Reachable(cfg, s') && At(s', m, row, Settling(DeadLetter))
    ensures row.status == Failed && row.attempts == job.attempts && row.source == Hockey
    ensures s'.api == s.api && s'.workers.Keys == s.workers.Keys
  {
    var errors := [CrawlError(Hockey, "")];
    var ses := JobCopy(job, job);
    var s1, _ := Work1(cfg, s, m, job, Crawling(ses, 0, 0, []), CrawlerReturns(Raised("")));
    assert s1.workers[0].pc == Crawling(ses, 1, 0, errors);
    var s2, e := Work1(cfg, s1, m, job, Crawling(ses, 1, 0, errors), MarkOutcome);
    row := e.pc.ses.job;
    var s3, _ := Work1(cfg, s2, m, job, e.pc, CommitOutcome);
    s' := s3;
  }

  /** The crawler succeeds and its section is committed. */
  lemma StoreRun(cfg: Config, s: State, m: Message, job: Job, rows: seq<HockeyRow>) returns (s': State)
    requires Reachable(cfg, s) && At(s, m, job, Crawling(JobCopy(job, job), 0, 0, [])) && job.source == Hockey
    ensures Reachable(cfg, s') && At(s', m, job, Crawling(JobCopy(job, job), 1, |rows|, []))
    ensures s'.db == Persist(s.db, 0, CrawlResult(rows, []))
    ensures s'.workers.Keys == s.workers.Keys && s'.api == s.api
  {
    var ses, result := JobCopy(job, job), CrawlResult(rows, []);
    var pc := Persisting(ses, 0, 0, [], result);
    var s1, e1 := Work1(cfg, s, m, job, Crawling(ses, 0, 0, []), CrawlerReturns(Crawled(result)));
    assert e1.pc == pc && At(s1, m, job, pc);
    var s2, e2 := Work1(cfg, s1, m, job, pc, CommitSection);
    assert e2.pc == Crawling(ses, 1, |rows|, []);
    s' := s2;
  }

  lemma CompleteRun(cfg: Config, s: State, m: Message, job: Job, records: nat) returns (s': State, row: Job)
    requires Reachable(cfg, s) && At(s, m, job, Crawling(JobCopy(job, job), 1, records, []))
    requires job.source == Hockey && job.status == Running && job.records == None
    ensures Reachable(cfg, s') && At(s', m, row, Settling(Ack))
    ensures row.status == Completed && row.source == Hockey && row.records == Some(records)
    ensures s'.db.hockey == s.db.hockey && s'.db.oscar == s.db.oscar && s'.api == s.api
    ensures s'.workers.Keys == s.workers.Keys
  {
    var s1, e := Work1(cfg, s, m, job, Crawling(JobCopy(job, job), 1, records, []), MarkOutcome);
    row := e.pc.ses.job.(finishedAt := Some(s.now));
    var s2, _ := Work1(cfg, s1, m, job, e.pc, CommitOutcome);
    s' := s2;
  }

  /** A crash of the only worker, and the redelivery that follows. */
  lemma Redeliver(cfg: Config, s: State, m: Message, row: Job, pc: Pc) returns (s': State)
    requires Reachable(cfg, s) && At(s, m, row, pc) && s.workers.Keys == {0}
    ensures Reachable(cfg, s') && At(s', m, row, Received) && s'.db == s.db && s'.api == s.api
    ensures s'.workers.Keys == {0}
  {
    var s1 := Crashed(cfg, s, m, row, pc);
    SoleWorkerNeverOverlaps(cfg, s1, Deliver(0, m), 0);
    s' := Apply(cfg, s1, Deliver(0, m));
    ReachableStep(cfg, s1, Deliver(0, m));
  }

  lemma Crashed(cfg: Config, s: State, m: Message, row: Job, pc: Pc) returns (s': State)
    requires Reachable(cfg, s) && At(s, m, row, pc) && s.workers.Keys == {0}
    ensures Reachable(cfg, s') && s'.db == s.db && s'.api == s.api && s'.workers.Keys == {0}
    ensures s'.workers[0] == Idle && m in s'.broker.ready && s'.broker.unacked == map[]
  {
    s' := Apply(cfg, s, Abort(0, WorkerCrash));
    ReachableStep(cfg, s, Abort(0, WorkerCrash));
  }

  // ----- the examples -----

  /** If the API dies between its two writes, the job is pending for ever with no message. */
  lemma OrphanExists(cfg: Config)
    ensures exists s, j :: Reachable(cfg, s) && j in s.db.jobs && j in s.api && s.api[j] == Died(None)
  {
    var s0 := Init({});
    ReachableInit(cfg, {});
    var s1 := Apply(cfg, s0, Enqueue(0, Create(Hockey)));
    ReachableStep(cfg, s0, Enqueue(0, Create(Hockey)));
    var s2 := Apply(cfg, s1, Enqueue(0, Die));
    ReachableStep(cfg, s1, Enqueue(0, Die));
    assert s2.api[0] == Died(None) && 0 in s2.db.jobs;
  }

  /** Two workers, one of them cut off from the broker but still working: exclusion is lost. */
  lemma OverlapExists(cfg: Config)
    ensures exists s, step ::
              Reachable(cfg, s) && Enabled(cfg, s, step) && Overlaps(s, step) && Clash(Apply(cfg, s, step))
  {
    var s, m := FirstDelivery(cfg, {0, 1}, false);
    var s' := Apply(cfg, s, LoseConnection(0));
    ReachableStep(cfg, s, LoseConnection(0));
    assert InProcess(s', 0) && s'.workers[1] == Idle;
    ExclusionIffNoOverlap(cfg, s', Deliver(1, m));
  }

  /** A retry that comes back empty keeps the old rows and counts none of them. */
  lemma CountCanDisagree(cfg: Config, row: HockeyRow)
    ensures exists s :: Reachable(cfg, s) && 0 in s.db.jobs && s.db.jobs[0].status == Completed
              && s.db.jobs[0].records == Some(0) && RowsOf(s.db.hockey, 0) == [row]
  {
    var s1, m := FirstDelivery(cfg, {0}, false);
    var s2, r2 := StartJob(cfg, s1, m, NewJob(Hockey, 0));
    var s3 := StoreRun(cfg, s2, m, r2, [row]);
    PersistEffect(s2.db, 0, CrawlResult([row], []), 0);
    var s4 := Redeliver(cfg, s3, m, r2, Crawling(JobCopy(r2, r2), 1, 1, []));
    var s5, r5 := StartJob(cfg, s4, m, r2);
    var s6 := StoreRun(cfg, s5, m, r5, []);
    var s7, _ := CompleteRun(cfg, s6, m, r5, 0);
    assert RowsOf(s7.db.hockey, 0) == [row] && s7.db.jobs[0].records == Some(0);
  }

  /** A publish that raises although the broker took the message can overwrite a completed job. */
  lemma AmbiguousPublishOverwrites(cfg: Config)
    ensures exists s, step :: Reachable(cfg, s) && Enabled(cfg, s, step) && !Overlaps(s, step)
              && 0 in s.db.jobs && s.db.jobs[0].status == Completed
              && Apply(cfg, s, step).db.jobs[0].status == Failed
  {
    var s1, m := FirstDelivery(cfg, {0}, true);
    var s2, r2 := StartJob(cfg, s1, m, NewJob(Hockey, 0));
    var s3 := StoreRun(cfg, s2, m, r2, []);
    var s4, _ := CompleteRun(cfg, s3, m, r2, 0);
    var step := Enqueue(0, MarkPublishFailure(""));
    assert Enabled(cfg, s4, step) && s4.db.jobs[0].status == Completed;
    assert Apply(cfg, s4, step).db.jobs[0].status == Failed;
  }
}
