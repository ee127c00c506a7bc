/** The "latest completed" snapshot: which steps can change it, and to what. */
module Snapshot {
  import opened Domain
  import opened Tables
  import opened JobRows
  import opened Protocol
  import opened Messages
  import opened Sessions
  import opened Lifecycle

  // ----- finish times -----

  /** A finish time was read from the clock earlier, and for this job. */
  predicate Stamped(stamps: map<Time, JobId>, j: JobId, finished: Option<Time>) {
    finished.Some? ==> finished.value in stamps && stamps[finished.value] == j
  }

  predicate StampedPc(stamps: map<Time, JobId>, j: JobId, pc: Pc) {
    HasSession(pc) ==>
      && Stamped(stamps, j, pc.ses.base.finishedAt)
      && Stamped(stamps, j, pc.ses.job.finishedAt)
      && (pc.Marked? && pc.outcome != RetryOutcome ==> pc.ses.job.finishedAt != pc.ses.base.finishedAt)
  }

  predicate StampedWorker(stamps: map<Time, JobId>, worker: Worker) {
    worker.Busy? && worker.msg.body.Valid? ==> StampedPc(stamps, worker.msg.body.job, worker.pc)
  }

  predicate TimesInv(s: State) {
    && (forall t | t in s.stamps :: t < s.now)
    && (forall j | j in s.db.jobs ::
          Stamped(s.stamps, j, s.db.jobs[j].finishedAt)
          && (s.db.jobs[j].status == Completed ==> s.db.jobs[j].finishedAt.Some?))
    && (forall w | w in s.workers :: StampedWorker(s.stamps, s.workers[w]))
  }

  function StampsAfter(stamps: map<Time, JobId>, now: Time, body: Body, work: Work): map<Time, JobId>
    requires work == MarkOutcome ==> body.Valid?
  {
    if work == MarkOutcome then stamps[now := body.job] else stamps
  }

  lemma WorkStamps(cfg: Config, db: Db, api: map<JobId, ApiPc>, now: Time, m: Message, pc: Pc, work: Work,
          stamps: map<Time, JobId>)
    requires WorkEnabled(db, m.body, pc, work) && m.body.Valid? && m.body.job in db.jobs
    requires WorkerInv(cfg, db.jobs, api, Busy(m, pc))
    requires forall t | t in stamps :: t < now
    requires StampedPc(stamps, m.body.job, pc) && Stamped(stamps, m.body.job, db.jobs[m.body.job].finishedAt)
    requires db.jobs[m.body.job].status == Completed ==> db.jobs[m.body.job].finishedAt.Some?
    ensures var e, stamps' := Worked(cfg, db, now, m.body, pc, work), StampsAfter(stamps, now, m.body, work);
            && StampedPc(stamps', m.body.job, e.pc)
            && Stamped(stamps', m.body.job, e.db.jobs[m.body.job].finishedAt)
            && (e.db.jobs[m.body.job].status == Completed ==> e.db.jobs[m.body.job].finishedAt.Some?)
  {
  }

  lemma TimesUpdate(s: State, s': State, w: WorkerId)
    requires TimesInv(s) && w in s.workers && s'.workers.Keys == s.workers.Keys
    requires forall t | t in s.stamps :: t in s'.stamps && s'.stamps[t] == s.stamps[t]
    requires forall t | t in s'.stamps :: t < s'.now
    requires forall v | v in s.workers && v != w :: s'.workers[v] == s.workers[v]
    requires StampedWorker(s'.stamps, s'.workers[w])
    requires s'.db.jobs.Keys == s.db.jobs.Keys
    requires forall k | k in s.db.jobs && s'.db.jobs[k] != s.db.jobs[k] ::
      && Stamped(s'.stamps, k, s'.db.jobs[k].finishedAt)
      && (s'.db.jobs[k].status == Completed ==> s'.db.jobs[k].finishedAt.Some?)
    ensures TimesInv(s')
  {
    forall v | v in s.workers && v != w ensures StampedWorker(s'.stamps, s'.workers[v]) {
      assert StampedWorker(s.stamps, s.workers[v]);
    }
  }

  lemma WorkKeepsTimes(cfg: Config, s: State, w: WorkerId, work: Work)
    requires MessageInv(s) && SessionInv(cfg, s) && TimesInv(s) && Enabled(cfg, s, Advance(w, work))
    ensures TimesInv(Apply(cfg, s, Advance(w, work)))
  {
    var s' := Apply(cfg, s, Advance(w, work));
    var Busy(m, pc) := s.workers[w];
    WorkFrame(cfg, s.db, s.now, m.body, pc, work);
    assert WorkerInv(cfg, s.db.jobs, s.api, s.workers[w]) && StampedWorker(s.stamps, s.workers[w]);
    if m.body.Valid? && m.body.job in s.db.jobs {
      WorkStamps(cfg, s.db, s.api, s.now, m, pc, work, s.stamps);
    }
    assert s'.stamps == StampsAfter(s.stamps, s.now, m.body, work);
    TimesUpdate(s, s', w);
  }

  lemma TimesEnqueue(cfg: Config, s: State, j: JobId, request: Request)
    requires TimesInv(s) && RequestEnabled(s, j, request)
    ensures TimesInv(Apply(cfg, s, Enqueue(j, request)))
  {
    var s' := Apply(cfg, s, Enqueue(j, request));
    forall v | v in s'.workers ensures StampedWorker(s'.stamps, s'.workers[v]) {
      assert StampedWorker(s.stamps, s.workers[v]);
    }
  }

  lemma TimesStep(cfg: Config, s: State, step: Step)
    requires MessageInv(s) && SessionInv(cfg, s) && TimesInv(s) && Enabled(cfg, s, step)
    ensures TimesInv(Apply(cfg, s, step))
  {
    match step
    case Advance(w, work) => WorkKeepsTimes(cfg, s, w, work);
    case Enqueue(j, request) => TimesEnqueue(cfg, s, j, request);
    case _ =>
      var s' := Apply(cfg, s, step);
      forall v | v in s'.workers ensures StampedWorker(s'.stamps, s'.workers[v]) {
        assert StampedWorker(s.stamps, s.workers[v]);
      }
  }

  // ----- the latest completed job -----

  /** The jobs `_latest_completed_job` selects from. */
  predicate Candidate(jobs: map<JobId, Job>, sources: set<Source>, j: JobId) {
    j in jobs && jobs[j].status == Completed && jobs[j].source in sources && jobs[j].finishedAt.Some?
  }

  /** A first row of `ORDER BY finished_at DESC`. */
  predicate IsLatest(jobs: map<JobId, Job>, sources: set<Source>, j: JobId) {
    && Candidate(jobs, sources, j)
    && forall k | k in jobs && Candidate(jobs, sources, k) :: jobs[k].finishedAt.value <= jobs[j].finishedAt.value
  }

  /** With a strictly increasing clock the snapshot is unambiguous. */
  lemma LatestUnique(s: State, sources: set<Source>, j: JobId, k: JobId)
    requires TimesInv(s) && IsLatest(s.db.jobs, sources, j) && IsLatest(s.db.jobs, sources, k)
    ensures j == k
  {
  }

  /** The step commits `mark_completed` on `j`. */
  predicate Completes(s: State, step: Step, j: JobId) {
    && step.Advance? && step.work == CommitOutcome
    && IsBusy(s, step.w) && s.workers[step.w].pc.Marked?
    && s.workers[step.w].pc.outcome == CompletedOutcome
    && Mentions(s.workers[step.w].msg, j)
  }

  /** The enqueue's compensating write hits a job that has completed meanwhile. */
  predicate Overwrites(s: State, step: Step, j: JobId) {
    && step.Enqueue? && step.request.MarkPublishFailure? && step.j == j
    && j in s.db.jobs && s.db.jobs[j].status == Completed
  }

  /** Every row `j` that is completed before or after went unchanged, unless the step itself is about `j`. */
  predicate CompletedKept(jobs: map<JobId, Job>, jobs': map<JobId, Job>, j: JobId, completes: bool, overwrites: bool) {
    && (j in jobs && jobs[j].status == Completed && !overwrites ==> j in jobs' && jobs'[j] == jobs[j] && !completes)
    && (j in jobs' && jobs'[j].status == Completed ==> completes || (j in jobs && jobs'[j] == jobs[j]))
  }

  lemma CompletedWork(cfg: Config, db: Db, api: map<JobId, ApiPc>, now: Time, m: Message, pc: Pc, work: Work, j: JobId)
    requires WorkEnabled(db, m.body, pc, work) && WorkerInv(cfg, db.jobs, api, Busy(m, pc))
    ensures var completes := work == CommitOutcome && pc.Marked? && pc.outcome == CompletedOutcome && Mentions(m, j);
            CompletedKept(db.jobs, Worked(cfg, db, now, m.body, pc, work).db.jobs, j, completes, false)
  {
    WorkFrame(cfg, db, now, m.body, pc, work);
  }

  /** What any step does to the rows of completed jobs. */
  lemma CompletedRows(cfg: Config, s: State, step: Step, j: JobId)
    requires SessionInv(cfg, s) && Enabled(cfg, s, step)
    ensures CompletedKept(s.db.jobs, Apply(cfg, s, step).db.jobs, j, Completes(s, step, j), Overwrites(s, step, j))
  {
    match step
    case Advance(w, work) =>
      assert WorkerInv(cfg, s.db.jobs, s.api, s.workers[w]);
      CompletedWork(cfg, s.db, s.api, s.now, s.workers[w].msg, s.workers[w].pc, work, j);
    case Enqueue(_, _) =>
    case _ =>
  }

  /** No step changes the stored results of a completed job. */
  lemma CompletedResults(cfg: Config, s: State, step: Step, j: JobId)
    requires SessionInv(cfg, s) && Enabled(cfg, s, step)
    requires j in s.db.jobs && s.db.jobs[j].status == Completed
    ensures var db' := Apply(cfg, s, step).db;
            RowsOf(db'.hockey, j) == RowsOf(s.db.hockey, j) && RowsOf(db'.oscar, j) == RowsOf(s.db.oscar, j)
  {
    if step.Advance? && step.work == CommitSection {
      var Busy(m, pc) := s.workers[step.w];
      assert WorkerInv(cfg, s.db.jobs, s.api, s.workers[step.w]);
      PersistEffect(s.db, m.body.job, pc.result, j);
    }
  }

  /**
   * Only committing `mark_completed` for a job of these sources changes which job is the snapshot,
   * its row or its rows; the one exception is an enqueue overwriting a completed job.
   */
  lemma SnapshotUnchanged(cfg: Config, s: State, step: Step, sources: set<Source>, j: JobId)
    requires MessageInv(s) && SessionInv(cfg, s) && Enabled(cfg, s, step)
    requires forall k | k in s.db.jobs && s.db.jobs[k].source in sources ::
      !Completes(s, step, k) && !Overwrites(s, step, k)
    ensures var db' := Apply(cfg, s, step).db;
            && (IsLatest(db'.jobs, sources, j) <==> IsLatest(s.db.jobs, sources, j))
            && (IsLatest(s.db.jobs, sources, j) ==>
                  && db'.jobs[j] == s.db.jobs[j]
                  && RowsOf(db'.hockey, j) == RowsOf(s.db.hockey, j)
                  && RowsOf(db'.oscar, j) == RowsOf(s.db.oscar, j))
  {
    var jobs' := Apply(cfg, s, step).db.jobs;
    forall k: JobId ensures Candidate(jobs', sources, k) <==> Candidate(s.db.jobs, sources, k)
      ensures Candidate(s.db.jobs, sources, k) ==> jobs'[k] == s.db.jobs[k]
    {
      CompletedRows(cfg, s, step, k);
      CompletingHasRow(cfg, s, step, k);
    }
    if IsLatest(s.db.jobs, sources, j) {
      CompletedResults(cfg, s, step, j);
    }
  }

  lemma CompletingHasRow(cfg: Config, s: State, step: Step, k: JobId)
    requires MessageInv(s) && Enabled(cfg, s, step)
    ensures Completes(s, step, k) ==> k in s.db.jobs && Apply(cfg, s, step).db.jobs[k].source == s.db.jobs[k].source
  {
    if Completes(s, step, k) {
      var Busy(m, pc) := s.workers[step.w];
      WorkFrame(cfg, s.db, s.now, m.body, pc, step.work);
    }
  }

  /** The row a completing commit leaves. */
  lemma CompletingRow(cfg: Config, s: State, w: WorkerId, j: JobId)
    requires SessionInv(cfg, s) && TimesInv(s)
    requires Enabled(cfg, s, Advance(w, CommitOutcome)) && Completes(s, Advance(w, CommitOutcome), j)
    ensures var row := Apply(cfg, s, Advance(w, CommitOutcome)).db.jobs[j];
            && row.status == Completed
            && row.finishedAt == s.workers[w].pc.ses.job.finishedAt && row.finishedAt.Some?
            && row.source == s.db.jobs[j].source
            && s.db.jobs[j].status != Completed
  {
    assert WorkerInv(cfg, s.db.jobs, s.api, s.workers[w]) && StampedWorker(s.stamps, s.workers[w]);
  }

  /**
   * A completing commit makes its job the snapshot exactly when it was marked completed after every
   * completed job of these sources; otherwise the snapshot stays as it was.
   */
  lemma SnapshotAdvances(cfg: Config, s: State, w: WorkerId, j: JobId, sources: set<Source>)
    requires MessageInv(s) && SessionInv(cfg, s) && TimesInv(s)
    requires Enabled(cfg, s, Advance(w, CommitOutcome)) && Completes(s, Advance(w, CommitOutcome), j)
    requires j in s.db.jobs && s.db.jobs[j].source in sources
    ensures var db', marked := Apply(cfg, s, Advance(w, CommitOutcome)).db, s.workers[w].pc.ses.job.finishedAt;
            var newest := forall k | k in s.db.jobs && Candidate(s.db.jobs, sources, k) ::
                            s.db.jobs[k].finishedAt.value < marked.value;
            && marked.Some?
            && (IsLatest(db'.jobs, sources, j) <==> newest)
            && (newest ==> forall k: JobId :: IsLatest(db'.jobs, sources, k) <==> k == j)
            && (!newest ==> forall k: JobId :: IsLatest(db'.jobs, sources, k) <==> IsLatest(s.db.jobs, sources, k))
  {
    var step := Advance(w, CommitOutcome);
    var jobs' := Apply(cfg, s, step).db.jobs;
    CompletingRow(cfg, s, w, j);
    forall k: JobId | k != j ensures Candidate(jobs', sources, k) <==> Candidate(s.db.jobs, sources, k)
      ensures Candidate(s.db.jobs, sources, k) ==> jobs'[k] == s.db.jobs[k]
    {
      CompletedRows(cfg, s, step, k);
    }
    assert StampedWorker(s.stamps, s.workers[w]);
    assert Candidate(jobs', sources, j);
    assert forall k | k in s.db.jobs && Candidate(s.db.jobs, sources, k) :: k != j && Candidate(jobs', sources, k)
             && jobs'[k].finishedAt.value != jobs'[j].finishedAt.value;
  }

  /** A job marked completed is newer than everything completed so far. */
  predicate NewestMarked(s: State, w: WorkerId) {
    IsBusy(s, w) && s.workers[w].pc.Marked? && s.workers[w].pc.outcome == CompletedOutcome ==>
      && s.workers[w].pc.ses.job.finishedAt.Some?
      && forall k | k in s.db.jobs && s.db.jobs[k].status == Completed && s.db.jobs[k].finishedAt.Some? ::
           s.db.jobs[k].finishedAt.value < s.workers[w].pc.ses.job.finishedAt.value
  }

  /** The step touches no completed job, and the worker keeps what it has marked. */
  lemma NewestKept(s: State, s': State, w: WorkerId)
    requires NewestMarked(s, w) && w in s.workers && w in s'.workers
    requires s'.workers[w] == s.workers[w]
    requires forall k | k in s'.db.jobs && s'.db.jobs[k].status == Completed ::
      k in s.db.jobs && s'.db.jobs[k] == s.db.jobs[k]
    ensures NewestMarked(s', w)
  {
  }

  lemma SoleWorkerWorks(cfg: Config, s: State, w: WorkerId, work: Work)
    requires SessionInv(cfg, s) && TimesInv(s) && NewestMarked(s, w) && Enabled(cfg, s, Advance(w, work))
    ensures NewestMarked(Apply(cfg, s, Advance(w, work)), w)
  {
    assert WorkerInv(cfg, s.db.jobs, s.api, s.workers[w]);
    if work == MarkOutcome {
      assert forall k | k in s.db.jobs :: Stamped(s.stamps, k, s.db.jobs[k].finishedAt);
    }
  }

  /** With one worker nothing completes between a job's mark and its commit. */
  lemma SoleWorkerMarksNewest(cfg: Config, s: State, step: Step, w: WorkerId)
    requires MessageInv(s) && SessionInv(cfg, s) && TimesInv(s) && Enabled(cfg, s, step)
    requires s.workers.Keys == {w} && NewestMarked(s, w)
    ensures Apply(cfg, s, step).workers.Keys == {w} && NewestMarked(Apply(cfg, s, step), w)
  {
    var s' := Apply(cfg, s, step);
    match step
    case Advance(v, work) =>
      assert v == w;
      SoleWorkerWorks(cfg, s, w, work);
    case Enqueue(j, request) =>
      forall k | k in s'.db.jobs && s'.db.jobs[k].status == Completed
        ensures k in s.db.jobs && s'.db.jobs[k] == s.db.jobs[k]
      {
        CompletedRows(cfg, s, step, k);
      }
      NewestKept(s, s', w);
    case _ => assert s'.db == s.db;
  }
}
