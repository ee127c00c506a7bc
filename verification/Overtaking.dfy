/** Two workers: the job whose completion is committed last need not become the snapshot. */
module Overtaking {
  import opened Domain
  import opened Tables
  import opened JobRows
  import opened Protocol
  import opened Messages
  import opened Sessions
  import opened Snapshot
  import opened Invariant
  import opened Guarantees
  import opened Plan
  import Faults

  lemma Enqueued(cfg: Config, s: State, j: JobId) returns (s': State, m: Message)
    requires Reachable(cfg, s) && RequestEnabled(s, j, Create(Hockey))
    ensures Reachable(cfg, s') && m == Message(s.now + 1, Valid(j, Hockey))
    ensures s'.workers == s.workers && s'.api == s.api[j := Done(m)]
    ensures s'.db.jobs == s.db.jobs[j := NewJob(Hockey, s.now)] && s'.broker == Accept(s.broker, m)
  {
    var s1 := Apply(cfg, s, Enqueue(j, Create(Hockey)));
    Faults.ReachableStep(cfg, s, Enqueue(j, Create(Hockey)));
    m := Message(s1.now, Valid(j, Hockey));
    s' := Apply(cfg, s1, Enqueue(j, Publish));
    Faults.ReachableStep(cfg, s1, Enqueue(j, Publish));
  }

  /** A message nobody has seen yet is not being processed. */
  lemma FreshNeverOverlaps(s: State, s': State, w: WorkerId, m: Message)
    requires MessageInv(s) && m !in s.broker.published && s'.workers == s.workers
    ensures !Overlaps(s', Deliver(w, m))
  {
  }

  /** A hockey job is enqueued and its message delivered to an idle worker. */
  lemma EnqueueAndDeliver(cfg: Config, s: State, w: WorkerId, j: JobId) returns (s': State, m: Message)
    requires Reachable(cfg, s) && w in s.workers && s.workers[w] == Idle && RequestEnabled(s, j, Create(Hockey))
    ensures Reachable(cfg, s') && m == Message(s.now + 1, Valid(j, Hockey))
    ensures s'.workers == s.workers[w := Busy(m, Received)]
    ensures s'.db.jobs == s.db.jobs[j := NewJob(Hockey, s.now)] && s'.api == s.api[j := Done(m)]
    ensures s'.broker.published == s.broker.published + {m}
  {
    var s1;
    s1, m := Enqueued(cfg, s, j);
    assert !Overlaps(s1, Deliver(w, m)) by {
      ReachableInv(cfg, s);
      FreshNeverOverlaps(s, s1, w, m);
    }
    s' := Apply(cfg, s1, Deliver(w, m));
    Faults.ReachableStep(cfg, s1, Deliver(w, m));
  }

  lemma FirstOfTwo(cfg: Config) returns (s: State, m0: Message)
    ensures Reachable(cfg, s) && m0.body == Valid(0, Hockey)
    ensures s.workers == map[0 := Busy(m0, Received), 1 := Idle]
    ensures s.db.jobs == map[0 := NewJob(Hockey, 0)] && RequestEnabled(s, 1, Create(Hockey))
  {
    var s0 := Init({0, 1});
    Faults.ReachableInit(cfg, {0, 1});
    s, m0 := EnqueueAndDeliver(cfg, s0, 0, 0);
    assert s.broker.published == {m0};
  }

  /** Two hockey jobs, each just delivered to its own worker. */
  lemma TwoDeliveries(cfg: Config) returns (s: State, m0: Message, m1: Message)
    ensures Reachable(cfg, s)
    ensures m0.body == Valid(0, Hockey) && m1.body == Valid(1, Hockey)
    ensures s.workers == map[0 := Busy(m0, Received), 1 := Busy(m1, Received)]
    ensures s.db.jobs.Keys == {0, 1}
    ensures forall j | j in s.db.jobs :: s.db.jobs[j] == NewJob(Hockey, s.db.jobs[j].createdAt)
  {
    var s1;
    s1, m0 := FirstOfTwo(cfg);
    s, m1 := EnqueueAndDeliver(cfg, s1, 1, 1);
  }

  /** A worker at `pc` takes a step; the other worker is where it was. */
  lemma WorkOf(cfg: Config, s0: State, s: State, w: WorkerId, m: Message, pc: Pc, work: Work) returns (s': State)
    requires Reachable(cfg, s) && w in s0.workers && WorkerAt(s0, s, w, m, pc, s.db)
    requires WorkEnabled(s.db, m.body, pc, work)
    ensures var e := Worked(cfg, s.db, s.now, m.body, pc, work);
            Reachable(cfg, s') && WorkerAt(s0, s', w, m, e.pc, e.db) && s'.now == s.now + 1
  {
    OneStep(cfg, s0, s, w, m, pc, work);
    Faults.ReachableStep(cfg, s, Advance(w, work));
    s' := Apply(cfg, s, Advance(w, work));
    assert [Advance(w, work)][1..] == [];
  }

  lemma StartOf(cfg: Config, s: State, w: WorkerId, m: Message, j: JobId) returns (s': State)
    requires Reachable(cfg, s) && w in s.workers && s.workers[w] == Busy(m, Received)
    requires m.body == Valid(j, Hockey) && j in s.db.jobs && s.db.jobs[j].status == Pending
    ensures var running := MarkRunning(s.db.jobs[j], s.now);
            && Reachable(cfg, s') && s'.now == s.now + 2
            && WorkerAt(s, s', w, m, Crawling(JobCopy(running, running), 0, 0, []), SetRow(s.db, j, running))
  {
    var s1 := WorkOf(cfg, s, s, w, m, Received, Read);
    s' := WorkOf(cfg, s, s1, w, m, s1.workers[w].pc, CommitStart);
  }

  function JustStarted(job: Job): Pc {
    Crawling(JobCopy(job, job), 0, 0, [])
  }

  function Holding(job: Job): Pc {
    Persisting(JobCopy(job, job), 0, 0, [], CrawlResult([], []))
  }

  lemma ReturnOf(cfg: Config, s0: State, s: State, w: WorkerId, m: Message, j: JobId, job: Job) returns (s': State)
    requires Reachable(cfg, s) && w in s0.workers && m.body == Valid(j, Hockey) && j in s.db.jobs
    requires job.source == Hockey
    requires WorkerAt(s0, s, w, m, JustStarted(job), s.db)
    ensures Reachable(cfg, s') && s'.now == s.now + 1
    ensures WorkerAt(s0, s', w, m, Holding(job), s.db)
  {
    s' := WorkOf(cfg, s0, s, w, m, JustStarted(job), CrawlerReturns(Crawled(CrawlResult([], []))));
  }

  /** The crawl comes back empty and is committed. */
  lemma CrawlOf(cfg: Config, s0: State, s: State, w: WorkerId, m: Message, j: JobId, job: Job) returns (s': State)
    requires Reachable(cfg, s) && w in s0.workers && m.body == Valid(j, Hockey) && j in s.db.jobs
    requires job.source == Hockey
    requires WorkerAt(s0, s, w, m, JustStarted(job), s.db)
    ensures Reachable(cfg, s') && s'.now == s.now + 2 && s'.db == s.db
    ensures WorkerAt(s0, s', w, m, Crawling(JobCopy(job, job), 1, 0, []), s.db)
  {
    var s1 := ReturnOf(cfg, s0, s, w, m, j, job);
    s' := StoreOf(cfg, s0, s1, w, m, j, job);
  }

  lemma StoreOf(cfg: Config, s0: State, s: State, w: WorkerId, m: Message, j: JobId, job: Job) returns (s': State)
    requires Reachable(cfg, s) && w in s0.workers && m.body == Valid(j, Hockey) && j in s.db.jobs
    requires job.source == Hockey
    requires WorkerAt(s0, s, w, m, Holding(job), s.db)
    ensures Reachable(cfg, s') && s'.now == s.now + 1
    ensures WorkerAt(s0, s', w, m, Crawling(JobCopy(job, job), 1, 0, []), s.db)
  {
    EmptyPersist(s.db, j);
    var e := Worked(cfg, s.db, s.now, m.body, Holding(job), CommitSection);
    assert e.pc == Crawling(JobCopy(job, job), 1, 0, []) && e.db == s.db;
    s' := WorkOf(cfg, s0, s, w, m, Holding(job), CommitSection);
  }

  lemma EmptyPersist(db: Db, j: JobId)
    ensures Persist(db, j, CrawlResult([], [])) == db
  {
  }

  /** A running job and the same job marked completed. */
  predicate Completing(ses: JobCopy) {
    && ses.base.status == Running && ses.base.source == Hockey && ses.job.finishedAt.Some?
    && ses.job == MarkCompleted(ses.base, 0, ses.job.finishedAt.value)
  }

  /** A worker takes its fresh hockey job up to `mark_completed`. */
  lemma MarkOf(cfg: Config, s: State, w: WorkerId, m: Message, j: JobId) returns (s': State, ses: JobCopy)
    requires Reachable(cfg, s) && w in s.workers && s.workers[w] == Busy(m, Received) && m.body == Valid(j, Hockey)
    requires j in s.db.jobs && s.db.jobs[j].source == Hockey && s.db.jobs[j].status == Pending
    ensures Reachable(cfg, s') && s'.workers == s.workers[w := Busy(m, Marked(ses, CompletedOutcome))]
    ensures s'.db.jobs == s.db.jobs[j := ses.base] && Completing(ses)
    ensures s.now <= ses.job.finishedAt.value < s'.now
  {
    var running := MarkRunning(s.db.jobs[j], s.now);
    var s1 := StartOf(cfg, s, w, m, j);
    var s2 := CrawlOf(cfg, s, s1, w, m, j, running);
    s' := WorkOf(cfg, s, s2, w, m, Crawling(JobCopy(running, running), 1, 0, []), MarkOutcome);
    ses := JobCopy(running, MarkCompleted(running, 0, s2.now));
  }

  lemma CommitOf(cfg: Config, s: State, w: WorkerId, m: Message, j: JobId, ses: JobCopy) returns (s': State)
    requires Reachable(cfg, s) && w in s.workers && s.workers[w] == Busy(m, Marked(ses, CompletedOutcome))
    requires m.body == Valid(j, Hockey) && j in s.db.jobs && s.db.jobs[j] == ses.base && Completing(ses)
    ensures Reachable(cfg, s') && s'.workers == s.workers[w := Busy(m, Settling(Ack))]
    ensures s'.db.jobs == s.db.jobs[j := ses.job]
  {
    s' := WorkOf(cfg, s, s, w, m, Marked(ses, CompletedOutcome), CommitOutcome);
  }

  /** Job 1 has completed; worker 0 is about to commit job 0, which was marked before. */
  predicate Overtaken(s: State, m: Message, first: JobCopy, second: JobCopy) {
    && Completing(first) && Completing(second) && first.job.finishedAt.value < second.job.finishedAt.value
    && m.body == Valid(0, Hockey)
    && 0 in s.workers && s.workers[0] == Busy(m, Marked(first, CompletedOutcome))
    && s.db.jobs == map[0 := first.base, 1 := second.job]
  }

  lemma OvertakenExists(cfg: Config) returns (s: State, m: Message, first: JobCopy, second: JobCopy)
    ensures Reachable(cfg, s) && Overtaken(s, m, first, second)
  {
    var s1, m1;
    s1, m, m1 := TwoDeliveries(cfg);
    var s2, s3;
    s2, first := MarkOf(cfg, s1, 0, m, 0);
    s3, second := MarkOf(cfg, s2, 1, m1, 1);
    s := CommitOf(cfg, s3, 1, m1, 1, second);
  }

  lemma OnlyCandidate(jobs: map<JobId, Job>, first: Job, second: Job, k: JobId)
    requires jobs == map[0 := first, 1 := second] && first.status != Completed
    requires second.status == Completed && second.source == Hockey && second.finishedAt.Some?
    ensures Candidate(jobs, HOCKEY_SOURCES, k) <==> k == 1
    ensures IsLatest(jobs, HOCKEY_SOURCES, k) <==> k == 1
  {
  }

  lemma OvertakenStep(cfg: Config, s: State, m: Message, first: JobCopy, second: JobCopy)
    requires Overtaken(s, m, first, second)
    ensures Enabled(cfg, s, Advance(0, CommitOutcome)) && Completes(s, Advance(0, CommitOutcome), 0)
  {
  }

  lemma OvertakenStays(cfg: Config, s: State, m: Message, first: JobCopy, second: JobCopy, k: JobId)
    requires MessageInv(s) && SessionInv(cfg, s) && TimesInv(s) && Overtaken(s, m, first, second)
    requires Enabled(cfg, s, Advance(0, CommitOutcome)) && Completes(s, Advance(0, CommitOutcome), 0)
    ensures IsLatest(Apply(cfg, s, Advance(0, CommitOutcome)).db.jobs, HOCKEY_SOURCES, k) <==> k == 1
  {
    OnlyCandidate(s.db.jobs, first.base, second.job, 1);
    OnlyCandidate(s.db.jobs, first.base, second.job, k);
    assert 1 in s.db.jobs && s.db.jobs[1].finishedAt.value > first.job.finishedAt.value;
    SnapshotAdvances(cfg, s, 0, 0, HOCKEY_SOURCES);
  }

  /** With two workers what counts is when a completion was marked, not when it was committed. */
  lemma LastToCompleteMayNotBeLatest(cfg: Config)
    ensures exists s, step :: Reachable(cfg, s) && Enabled(cfg, s, step) && Completes(s, step, 0)
              && 0 in s.db.jobs && s.db.jobs[0].source in HOCKEY_SOURCES
              && forall k: JobId :: IsLatest(Apply(cfg, s, step).db.jobs, HOCKEY_SOURCES, k) <==> k == 1
  {
    var s, m, first, second := OvertakenExists(cfg);
    OvertakenStep(cfg, s, m, first, second);
    ReachableInv(cfg, s);
    forall k: JobId
      ensures IsLatest(Apply(cfg, s, Advance(0, CommitOutcome)).db.jobs, HOCKEY_SOURCES, k) <==> k == 1
    {
      OvertakenStays(cfg, s, m, first, second, k);
    }
    assert s.db.jobs[0].source in HOCKEY_SOURCES;
  }
}
