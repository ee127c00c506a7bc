/** Per-job mutual exclusion, and what it buys: a session's job object never goes stale. */
module Sessions {
  import opened Domain
  import opened Tables
  import opened JobRows
  import opened Protocol
  import opened Messages

  /** The worker may still change the job or settle the message. */
  predicate Active(s: State, w: WorkerId) {
    InProcess(s, w) || Attached(s, w)
  }

  predicate Exclusive(s: State) {
    && (forall w1, w2 | w1 in s.workers && w2 in s.workers ::
          Active(s, w1) && Active(s, w2) && s.workers[w1].msg == s.workers[w2].msg && s.workers[w1].msg.body.Valid?
          ==> w1 == w2)
    && (forall w | w in s.workers && InProcess(s, w) && s.workers[w].msg.body.Valid? ::
          s.workers[w].msg !in s.broker.acked && s.workers[w].msg !in s.broker.dead)
  }

  lemma ExclusiveWork(s: State, s': State, w: WorkerId)
    requires Exclusive(s) && InProcess(s, w)
    requires s'.broker == s.broker && s'.workers.Keys == s.workers.Keys && IsBusy(s', w)
    requires s'.workers == s.workers[w := Busy(s.workers[w].msg, s'.workers[w].pc)]
    ensures Exclusive(s')
  {
  }

  lemma ExclusiveDeliver(cfg: Config, s: State, w: WorkerId, m: Message)
    requires MessageInv(s) && Exclusive(s) && Enabled(cfg, s, Deliver(w, m)) && !Overlaps(s, Deliver(w, m))
    ensures Exclusive(Apply(cfg, s, Deliver(w, m)))
  {
    var s' := Apply(cfg, s, Deliver(w, m));
    forall v | v in s.workers && v != w ensures Active(s', v) && s'.workers[v].msg == m ==> !m.body.Valid? {
      assert s'.workers[v] == s.workers[v];
    }
    forall v | v in s.workers && v != w ensures Active(s', v) ==> Active(s, v) {
      assert s'.workers[v] == s.workers[v];
    }
  }

  /** Whoever is still active was so before, with the same message, and nobody processes a settled one. */
  lemma ExclusiveShrinks(s: State, s': State)
    requires Exclusive(s) && s'.workers.Keys == s.workers.Keys
    requires forall v | v in s'.workers && Active(s', v) :: Active(s, v) && s'.workers[v] == s.workers[v]
    requires forall v | v in s'.workers && InProcess(s', v) && s'.workers[v].msg.body.Valid? ::
      s'.workers[v].msg !in s'.broker.acked && s'.workers[v].msg !in s'.broker.dead
    ensures Exclusive(s')
  {
  }

  lemma ExclusiveRelease(cfg: Config, s: State, step: Step)
    requires MessageInv(s) && Exclusive(s) && Enabled(cfg, s, step)
    requires step.Settle? || step.Abort? || step.LoseConnection?
    ensures Exclusive(Apply(cfg, s, step))
  {
    var s' := Apply(cfg, s, step);
    forall v | v in s'.workers && Active(s', v) ensures Active(s, v) && s'.workers[v] == s.workers[v] {
    }
    forall v | v in s'.workers && InProcess(s', v) && s'.workers[v].msg.body.Valid?
      ensures s'.workers[v].msg !in s'.broker.acked && s'.workers[v].msg !in s'.broker.dead
    {
      assert Active(s', v) && Active(s, v);
    }
    ExclusiveShrinks(s, s');
  }

  lemma ExclusiveFrame(s: State, s': State)
    requires Exclusive(s)
    requires s'.workers == s.workers && s'.broker.unacked == s.broker.unacked
    requires s'.broker.acked == s.broker.acked && s'.broker.dead == s.broker.dead
    ensures Exclusive(s')
  {
    forall w | w in s.workers ensures Active(s', w) == Active(s, w) && InProcess(s', w) == InProcess(s, w) {
    }
  }

  lemma ExclusiveStep(cfg: Config, s: State, step: Step)
    requires MessageInv(s) && Exclusive(s) && Enabled(cfg, s, step) && !Overlaps(s, step)
    ensures Exclusive(Apply(cfg, s, step))
  {
    match step
    case Enqueue(_, _) => ExclusiveFrame(s, Apply(cfg, s, step));
    case Stray(_) => ExclusiveFrame(s, Apply(cfg, s, step));
    case Deliver(w, m) => ExclusiveDeliver(cfg, s, w, m);
    case Advance(w, _) => ExclusiveWork(s, Apply(cfg, s, step), w);
    case Settle(_) => ExclusiveRelease(cfg, s, step);
    case Abort(_, _) => ExclusiveRelease(cfg, s, step);
    case LoseConnection(_) => ExclusiveRelease(cfg, s, step);
  }

  // ----- the session's job object -----

  /** The enqueue's compensating write has not hit a job whose message the broker had taken. */
  predicate Clean(pc: ApiPc) {
    !(pc.MarkedFailed? && pc.taken.Some?)
  }

  predicate RunningJob(job: Job) {
    job.status == Running && job.error == None && job.startedAt.Some? && job.attempts >= 1
  }

  /** `Decide` as a relation between the running job and the marked one. */
  predicate MarkedJob(cfg: Config, base: Job, job: Job, outcome: Outcome) {
    match outcome
    case CompletedOutcome =>
      job.records.Some? && job.finishedAt.Some? && job == MarkCompleted(base, job.records.value, job.finishedAt.value)
    case RetryOutcome =>
      && base.attempts < cfg.maxAttempts
      && job.error.Some? && job.error.value.CrawlFailed?
      && job == MarkPendingRetry(base, job.error.value)
    case FailedOutcome =>
      && base.attempts >= cfg.maxAttempts
      && job.error.Some? && job.error.value.CrawlFailed? && job.finishedAt.Some?
      && job == MarkFailed(base, job.error.value, job.finishedAt.value)
    case SkippedOutcome => false
  }

  /** What a worker knows by itself at each point of `process`. */
  predicate PcInv(cfg: Config, pc: Pc) {
    match pc
    case Received => true
    case Settling(_) => true
    case Loaded(ses) =>
      && ses.base.status != Completed
      && ses.job.startedAt.Some?
      && ses.job == MarkRunning(ses.base, ses.job.startedAt.value)
    case Crawling(ses, done, _, errors) =>
      ses.job == ses.base && RunningJob(ses.base) && |errors| <= done <= |Crawlers(pc)|
    case Persisting(ses, done, _, errors, result) =>
      && ses.job == ses.base && RunningJob(ses.base) && |errors| <= done < |Crawlers(pc)|
      && FillsOwnSection(Crawlers(pc)[done], result)
    case Marked(ses, outcome) => RunningJob(ses.base) && MarkedJob(cfg, ses.base, ses.job, outcome)
  }

  /**
   * The committed row against the values the session last saw: columns only workers write always
   * agree, and the whole row agrees unless the enqueue overwrote it.
   */
  predicate Coherent(row: Job, api: ApiPc, ses: JobCopy) {
    && row.status != Completed
    && (row.status == ses.base.status || row.status == Failed)
    && ses.base.(status := row.status, error := row.error, finishedAt := row.finishedAt) == row
    && (Clean(api) ==> ses.base == row)
  }

  predicate WorkerInv(cfg: Config, jobs: map<JobId, Job>, api: map<JobId, ApiPc>, worker: Worker) {
    worker.Busy? && HasSession(worker.pc) ==>
      && worker.msg.body.Valid?
      && worker.msg.body.job in jobs
      && worker.msg.body.job in api
      && PcInv(cfg, worker.pc)
      && Coherent(jobs[worker.msg.body.job], api[worker.msg.body.job], worker.pc.ses)
  }

  predicate SessionInv(cfg: Config, s: State) {
    forall w | w in s.workers :: WorkerInv(cfg, s.db.jobs, s.api, s.workers[w])
  }

  /** A step of a worker keeps its own session coherent. */
  lemma WorkKeepsSession(cfg: Config, db: Db, api: map<JobId, ApiPc>, now: Time, m: Message, pc: Pc, work: Work)
    requires WorkEnabled(db, m.body, pc, work) && api.Keys == db.jobs.Keys
    requires WorkerInv(cfg, db.jobs, api, Busy(m, pc))
    ensures var e := Worked(cfg, db, now, m.body, pc, work); WorkerInv(cfg, e.db.jobs, api, Busy(m, e.pc))
  {
  }

  lemma OneWorkerPerJob(s: State, w1: WorkerId, w2: WorkerId)
    requires MessageInv(s) && Exclusive(s)
    requires w1 in s.workers && w2 in s.workers && Active(s, w1) && Active(s, w2)
    requires s.workers[w1].msg.body.Valid? && s.workers[w2].msg.body.Valid?
    requires s.workers[w1].msg.body.job == s.workers[w2].msg.body.job && s.workers[w1].msg.body.job in s.db.jobs
    ensures w1 == w2
  {
  }

  lemma SessionAdvance(cfg: Config, s: State, w: WorkerId, work: Work)
    requires MessageInv(s) && Exclusive(s) && SessionInv(cfg, s) && Enabled(cfg, s, Advance(w, work))
    ensures SessionInv(cfg, Apply(cfg, s, Advance(w, work)))
  {
    var s' := Apply(cfg, s, Advance(w, work));
    var Busy(m, pc) := s.workers[w];
    WorkKeepsSession(cfg, s.db, s.api, s.now, m, pc, work);
    WorkFrame(cfg, s.db, s.now, m.body, pc, work);
    forall v | v in s.workers && v != w ensures WorkerInv(cfg, s'.db.jobs, s'.api, s'.workers[v]) {
      assert WorkerInv(cfg, s.db.jobs, s.api, s.workers[v]);
      if s.workers[v].Busy? && HasSession(s.workers[v].pc) && m.body.Valid? && m.body.job == s.workers[v].msg.body.job {
        OneWorkerPerJob(s, v, w);
      }
    }
  }

  lemma SessionEnqueue(cfg: Config, s: State, j: JobId, request: Request)
    requires MessageInv(s) && SessionInv(cfg, s) && RequestEnabled(s, j, request)
    ensures SessionInv(cfg, Requested(s, j, request))
  {
    var s' := Requested(s, j, request);
    forall w | w in s.workers ensures WorkerInv(cfg, s'.db.jobs, s'.api, s'.workers[w]) {
      assert WorkerInv(cfg, s.db.jobs, s.api, s.workers[w]);
    }
  }

  lemma SessionStep(cfg: Config, s: State, step: Step)
    requires MessageInv(s) && Exclusive(s) && SessionInv(cfg, s) && Enabled(cfg, s, step)
    ensures SessionInv(cfg, Apply(cfg, s, step))
  {
    match step
    case Enqueue(j, request) => SessionEnqueue(cfg, s, j, request);
    case Stray(_) =>
    case Deliver(_, _) =>
    case Advance(w, work) => SessionAdvance(cfg, s, w, work);
    case Settle(_) =>
    case Abort(_, _) =>
    case LoseConnection(_) =>
  }
}
