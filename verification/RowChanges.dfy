/** What each step does to a job's row, column by column, and when the times in it were read. */
module RowChanges {
  import opened Domain
  import opened Tables
  import opened JobRows
  import opened Protocol
  import opened Messages
  import opened Sessions
  import opened Lifecycle
  import opened Snapshot
  import opened Invariant
  import opened Guarantees
  import opened Finality
  import opened Faults

  // ----- start times -----

  predicate Before(time: Option<Time>, now: Time) {
    time.Some? ==> time.value < now
  }

  /** The start times a session holds lie in the past; one about to be committed is the latest. */
  predicate StartsWorker(worker: Worker, now: Time) {
    worker.Busy? && HasSession(worker.pc) ==>
      var ses := worker.pc.ses;
      && Before(ses.base.startedAt, now) && Before(ses.job.startedAt, now)
      && (worker.pc.Loaded? ==> ses.job.startedAt.Some? && Before(ses.base.startedAt, ses.job.startedAt.value))
  }

  predicate StartsInv(s: State) {
    && (forall j | j in s.db.jobs :: Before(s.db.jobs[j].startedAt, s.now))
    && (forall w | w in s.workers :: StartsWorker(s.workers[w], s.now))
  }

  lemma StartsLater(worker: Worker, now: Time)
    requires StartsWorker(worker, now)
    ensures StartsWorker(worker, now + 1)
  {
  }

  lemma StartsWork(cfg: Config, db: Db, now: Time, m: Message, pc: Pc, work: Work)
    requires WorkEnabled(db, m.body, pc, work) && StartsWorker(Busy(m, pc), now)
    requires forall j | j in db.jobs :: Before(db.jobs[j].startedAt, now)
    ensures var e := Worked(cfg, db, now, m.body, pc, work);
            && StartsWorker(Busy(m, e.pc), now + 1)
            && forall j | j in e.db.jobs :: Before(e.db.jobs[j].startedAt, now + 1)
  {
    WorkFrame(cfg, db, now, m.body, pc, work);
  }

  lemma StartsStep(cfg: Config, s: State, step: Step)
    requires StartsInv(s) && Enabled(cfg, s, step)
    ensures StartsInv(Apply(cfg, s, step))
  {
    var s' := Apply(cfg, s, step);
    if step.Advance? {
      StartsWork(cfg, s.db, s.now, s.workers[step.w].msg, s.workers[step.w].pc, step.work);
    }
    forall w | w in s'.workers && !(step.Advance? && w == step.w) ensures StartsWorker(s'.workers[w], s'.now) {
      assert StartsWorker(s.workers[w], s.now);
      StartsLater(s.workers[w], s.now);
    }
  }

  lemma {:induction false} StartsRun(cfg: Config, s: State, steps: seq<Step>)
    requires StartsInv(s) && IsRun(cfg, s, steps)
    ensures StartsInv(Final(cfg, s, steps))
    decreases |steps|
  {
    if steps != [] {
      StartsStep(cfg, s, steps[0]);
      StartsRun(cfg, Apply(cfg, s, steps[0]), steps[1..]);
    }
  }

  lemma ReachableStarts(cfg: Config, s: State)
    requires Reachable(cfg, s)
    ensures StartsInv(s)
  {
    var ws, steps :| ReachableWith(cfg, ws, steps, s);
    StartsRun(cfg, Init(ws), steps);
  }

  // ----- the row after each step -----

  /** A start counts an attempt and brings a new start time; results of earlier attempts stay. */
  predicate StartedRow(row: Job, row': Job, api: ApiPc, started: Time) {
    && row'.startedAt == Some(started) && Before(row.startedAt, started)
    && row'.attempts == row.attempts + 1
    && row'.records == row.records && row'.finishedAt == row.finishedAt
    && row'.source == row.source && row'.createdAt == row.createdAt
    && (Clean(api) ==> row'.status == Running && row'.error == None)
  }

  /** What the end of an attempt with this tally writes; all other columns stay. */
  predicate ConcludedRow(cfg: Config, row: Job, row': Job, records: nat, errors: seq<CrawlError>, marked: Time) {
    if errors == [] then
      row' == row.(status := Completed, records := Some(records), finishedAt := Some(marked))
    else if row.attempts >= cfg.maxAttempts then
      row' == row.(status := Failed, error := Some(CrawlFailed(errors)), finishedAt := Some(marked))
    else
      row' == row.(status := Pending, error := Some(CrawlFailed(errors)))
  }

  lemma CommitsStart(cfg: Config, s: State, w: WorkerId, j: JobId)
    requires SessionInv(cfg, s) && StartsInv(s)
    requires Enabled(cfg, s, Advance(w, CommitStart)) && Mentions(s.workers[w].msg, j)
    ensures s.workers[w].pc.ses.job.startedAt.Some? && j in s.db.jobs && j in s.api
    ensures StartedRow(s.db.jobs[j], Apply(cfg, s, Advance(w, CommitStart)).db.jobs[j], s.api[j],
                       s.workers[w].pc.ses.job.startedAt.value)
  {
    assert WorkerInv(cfg, s.db.jobs, s.api, s.workers[w]) && StartsWorker(s.workers[w], s.now);
  }

  /** What committing an outcome writes, all other columns staying; `job` is the session's marked object. */
  predicate OutcomeRow(row: Job, row': Job, job: Job, outcome: Outcome) {
    match outcome
    case CompletedOutcome => row' == row.(status := Completed, records := job.records, finishedAt := job.finishedAt)
    case FailedOutcome => row' == row.(status := Failed, error := job.error, finishedAt := job.finishedAt)
    case RetryOutcome => row' == row.(status := Pending, error := job.error)
    case SkippedOutcome => false
  }

  lemma CommitsOutcome(cfg: Config, s: State, w: WorkerId, j: JobId)
    requires SessionInv(cfg, s) && TimesInv(s)
    requires Enabled(cfg, s, Advance(w, CommitOutcome)) && Mentions(s.workers[w].msg, j)
    ensures j in s.db.jobs
    ensures OutcomeRow(s.db.jobs[j], Apply(cfg, s, Advance(w, CommitOutcome)).db.jobs[j], s.workers[w].pc.ses.job,
                       s.workers[w].pc.outcome)
  {
    assert WorkerInv(cfg, s.db.jobs, s.api, s.workers[w]);
    assert StampedWorker(s.stamps, s.workers[w]);
  }

  /** The compensating write of an enqueue fails the job; the columns only workers write stay. */
  predicate CompensatedRow(row: Job, row': Job, detail: string, now: Time) {
    row' == row.(status := Failed, error := Some(PublishFailed(detail)), finishedAt := Some(now))
  }

  lemma AdvanceColumns(cfg: Config, s: State, w: WorkerId, work: Work, j: JobId)
    requires SessionInv(cfg, s) && StartsInv(s) && TimesInv(s) && Enabled(cfg, s, Advance(w, work)) && j in s.db.jobs
    requires j in s.api && !Starts(s, Advance(w, work), j) && !Concludes(s, Advance(w, work), j)
    ensures j in Apply(cfg, s, Advance(w, work)).db.jobs
    ensures Apply(cfg, s, Advance(w, work)).db.jobs[j] == s.db.jobs[j]
  {
    WorkFrame(cfg, s.db, s.now, s.workers[w].msg.body, s.workers[w].pc, work);
  }

  lemma EnqueueColumns(cfg: Config, s: State, i: JobId, request: Request, j: JobId)
    requires RequestEnabled(s, i, request) && j in s.db.jobs
    ensures j in Requested(s, i, request).db.jobs
    ensures var row, row' := s.db.jobs[j], Requested(s, i, request).db.jobs[j];
            if i == j && request.MarkPublishFailure? then CompensatedRow(row, row', request.detail, s.now)
            else row' == row
  {
  }

  /**
   * The row of a job after any step. A start, an outcome and the compensating write change these columns
   * and no others; nothing else changes the row.
   */
  lemma RowColumns(cfg: Config, s: State, step: Step, j: JobId)
    requires Reachable(cfg, s) && Enabled(cfg, s, step) && j in s.db.jobs
    ensures j in s.api && j in Apply(cfg, s, step).db.jobs
    ensures var row, row' := s.db.jobs[j], Apply(cfg, s, step).db.jobs[j];
            if Starts(s, step, j) then
              && s.workers[step.w].pc.ses.job.startedAt.Some?
              && StartedRow(row, row', s.api[j], s.workers[step.w].pc.ses.job.startedAt.value)
            else if Concludes(s, step, j) then
              OutcomeRow(row, row', s.workers[step.w].pc.ses.job, s.workers[step.w].pc.outcome)
            else if Compensates(step, j) then CompensatedRow(row, row', step.request.detail, s.now)
            else row' == row
  {
    ReachableInv(cfg, s);
    ReachableStarts(cfg, s);
    ColumnsStep(cfg, s, step, j);
  }

  lemma ColumnsStep(cfg: Config, s: State, step: Step, j: JobId)
    requires SessionInv(cfg, s) && StartsInv(s) && TimesInv(s) && Enabled(cfg, s, step)
    requires j in s.db.jobs && j in s.api
    ensures j in Apply(cfg, s, step).db.jobs
    ensures var row, row' := s.db.jobs[j], Apply(cfg, s, step).db.jobs[j];
            if Starts(s, step, j) then
              && s.workers[step.w].pc.ses.job.startedAt.Some?
              && StartedRow(row, row', s.api[j], s.workers[step.w].pc.ses.job.startedAt.value)
            else if Concludes(s, step, j) then
              OutcomeRow(row, row', s.workers[step.w].pc.ses.job, s.workers[step.w].pc.outcome)
            else if Compensates(step, j) then CompensatedRow(row, row', step.request.detail, s.now)
            else row' == row
  {
    if Starts(s, step, j) {
      CommitsStart(cfg, s, step.w, j);
    } else if Concludes(s, step, j) {
      CommitsOutcome(cfg, s, step.w, j);
    } else if step.Advance? {
      AdvanceColumns(cfg, s, step.w, step.work, j);
    } else if step.Enqueue? {
      EnqueueColumns(cfg, s, step.j, step.request, j);
    } else {
      assert Apply(cfg, s, step).db == s.db;
    }
  }

  /** A new job is pending, without attempts, results or error, and created now. */
  lemma CreatedRow(cfg: Config, s: State, j: JobId, source: Source)
    requires Enabled(cfg, s, Enqueue(j, Create(source)))
    ensures j !in s.db.jobs
    ensures Apply(cfg, s, Enqueue(j, Create(source))).db.jobs
         == s.db.jobs[j := Job(source, Pending, 0, None, None, s.now, None, None)]
  {
  }

  // ----- when the times were read -----

  /** Worker `w` does nothing; others do, the connection may be lost, and requests come in. */
  predicate Waits(steps: seq<Step>, w: WorkerId) {
    forall step | step in steps ::
      match step
      case Advance(v, _) => v != w
      case Deliver(v, _) => v != w
      case Settle(v) => v != w
      case Abort(v, _) => v != w
      case _ => true
  }

  lemma {:induction false} WaitingKeeps(cfg: Config, s: State, steps: seq<Step>, w: WorkerId)
    requires w in s.workers && IsRun(cfg, s, steps) && Waits(steps, w)
    ensures w in Final(cfg, s, steps).workers && Final(cfg, s, steps).workers[w] == s.workers[w]
    decreases |steps|
  {
    if steps != [] {
      assert steps[0] in steps && forall step | step in steps[1..] :: step in steps;
      WaitingKeeps(cfg, Apply(cfg, s, steps[0]), steps[1..], w);
    }
  }

  /** One more step of `w`, and then a stretch in which it waits. */
  lemma StepsThenWaits(cfg: Config, s: State, w: WorkerId, work: Work, between: seq<Step>)
    requires Reachable(cfg, s) && Enabled(cfg, s, Advance(w, work)) && Waits(between, w)
    requires IsRun(cfg, Apply(cfg, s, Advance(w, work)), between)
    requires NoOverlap(cfg, Apply(cfg, s, Advance(w, work)), between)
    ensures var s1 := Apply(cfg, s, Advance(w, work));
            var t := Final(cfg, s1, between);
            Reachable(cfg, t) && w in s1.workers && w in t.workers && t.workers[w] == s1.workers[w]
  {
    var s1 := Apply(cfg, s, Advance(w, work));
    ReachableStep(cfg, s, Advance(w, work));
    ReachableExtends(cfg, s1, between);
    WaitingKeeps(cfg, s1, between, w);
  }

  /**
   * The start committed for a job carries the time at which its delivery read the job, which is later
   * than any start time the row held until then, whatever else happens between the read and the commit.
   */
  lemma StartIsTimeOfRead(cfg: Config, s: State, w: WorkerId, j: JobId, between: seq<Step>)
    requires Reachable(cfg, s) && Enabled(cfg, s, Advance(w, Read)) && Mentions(s.workers[w].msg, j)
    requires j in s.db.jobs && s.db.jobs[j].status != Completed && Waits(between, w)
    requires var s1 := Apply(cfg, s, Advance(w, Read)); IsRun(cfg, s1, between) && NoOverlap(cfg, s1, between)
    ensures var t := Final(cfg, Apply(cfg, s, Advance(w, Read)), between);
            && Enabled(cfg, t, Advance(w, CommitStart)) && j in t.db.jobs && j in t.api
            && StartedRow(t.db.jobs[j], Apply(cfg, t, Advance(w, CommitStart)).db.jobs[j], t.api[j], s.now)
  {
    var t := Final(cfg, Apply(cfg, s, Advance(w, Read)), between);
    StepsThenWaits(cfg, s, w, Read, between);
    ReachableInv(cfg, t);
    ReachableStarts(cfg, t);
    assert WorkerInv(cfg, t.db.jobs, t.api, t.workers[w]);
    CommitsStart(cfg, t, w, j);
  }

  lemma MarkedColumns(cfg: Config, s: State, t: State, w: WorkerId, j: JobId)
    requires SessionInv(cfg, s) && Enabled(cfg, s, Advance(w, MarkOutcome)) && Mentions(s.workers[w].msg, j)
    requires SessionInv(cfg, t) && w in t.workers && t.workers[w] == Apply(cfg, s, Advance(w, MarkOutcome)).workers[w]
    ensures Enabled(cfg, t, Advance(w, CommitOutcome)) && j in t.db.jobs
    ensures var job, pc := t.workers[w].pc.ses.job, s.workers[w].pc;
            && job.attempts == t.db.jobs[j].attempts
            && t.workers[w].pc.outcome == (if pc.errors == [] then CompletedOutcome
                                           else if job.attempts >= cfg.maxAttempts then FailedOutcome else RetryOutcome)
            && (pc.errors == [] ==> job.records == Some(pc.records))
            && (pc.errors != [] ==> job.error == Some(CrawlFailed(pc.errors)))
            && (t.workers[w].pc.outcome != RetryOutcome ==> job.finishedAt == Some(s.now))
  {
    assert WorkerInv(cfg, s.db.jobs, s.api, s.workers[w]) && WorkerInv(cfg, t.db.jobs, t.api, t.workers[w]);
  }

  /**
   * The end of an attempt, decided at one moment and committed at a later one, writes the tally of its
   * crawlers and, unless the job goes back to pending, the time of the decision.
   */
  lemma OutcomeIsTimeOfMark(cfg: Config, s: State, w: WorkerId, j: JobId, between: seq<Step>)
    requires Reachable(cfg, s) && Enabled(cfg, s, Advance(w, MarkOutcome)) && Mentions(s.workers[w].msg, j)
    requires Waits(between, w)
    requires var s1 := Apply(cfg, s, Advance(w, MarkOutcome)); IsRun(cfg, s1, between) && NoOverlap(cfg, s1, between)
    ensures var t := Final(cfg, Apply(cfg, s, Advance(w, MarkOutcome)), between);
            && Enabled(cfg, t, Advance(w, CommitOutcome)) && j in t.db.jobs
            && ConcludedRow(cfg, t.db.jobs[j], Apply(cfg, t, Advance(w, CommitOutcome)).db.jobs[j],
                            s.workers[w].pc.records, s.workers[w].pc.errors, s.now)
  {
    var t := Final(cfg, Apply(cfg, s, Advance(w, MarkOutcome)), between);
    ReachableInv(cfg, s);
    StepsThenWaits(cfg, s, w, MarkOutcome, between);
    ReachableInv(cfg, t);
    MarkedColumns(cfg, s, t, w, j);
    CommitsOutcome(cfg, t, w, j);
  }
}
