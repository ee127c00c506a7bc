/** The job row over a whole run: what each status means and what a settled message guarantees. */
module Lifecycle {
  import opened Domain
  import opened Tables
  import opened JobRows
  import opened Protocol
  import opened Messages
  import opened Sessions

  /** What each status means for a job whose message the broker took and whose row is clean. */
  predicate LifecycleRow(cfg: Config, row: Job) {
    match row.status
    case Pending =>
      || row == NewJob(row.source, row.createdAt)
      || (1 <= row.attempts < cfg.maxAttempts && row.error.Some? && row.error.value.CrawlFailed?)
    case Running => RunningJob(row)
    case Completed =>
      && row.attempts >= 1 && row.records.Some? && row.error == None
      && row.startedAt.Some? && row.finishedAt.Some?
    case Failed =>
      && row.attempts >= 1 && row.attempts >= cfg.maxAttempts
      && row.error.Some? && row.error.value.CrawlFailed? && row.finishedAt.Some?
  }

  /** A job whose publish failed before the broker took the message never ran. */
  predicate PublishFailedRow(row: Job) {
    && row.error.Some? && row.error.value.PublishFailed? && row.finishedAt.Some?
    && row == MarkFailed(NewJob(row.source, row.createdAt), row.error.value, row.finishedAt.value)
  }

  predicate PublishError(error: Option<JobError>) {
    error.Some? && error.value.PublishFailed?
  }

  /** What each status means for a job an ambiguous publish has overwritten. */
  predicate OverwrittenRow(cfg: Config, row: Job) {
    match row.status
    case Pending => 1 <= row.attempts < cfg.maxAttempts && row.error.Some? && row.error.value.CrawlFailed?
    case Running => row.attempts >= 1 && row.startedAt.Some? && (row.error == None || PublishError(row.error))
    case Completed =>
      && row.attempts >= 1 && row.records.Some? && row.startedAt.Some? && row.finishedAt.Some?
      && (row.error == None || PublishError(row.error))
    case Failed =>
      && row.error.Some? && row.finishedAt.Some?
      && (row.error.value.CrawlFailed? ==> row.attempts >= 1 && row.attempts >= cfg.maxAttempts)
  }

  predicate RowInv(cfg: Config, row: Job, api: ApiPc) {
    && (Sent(api).None? && !api.MarkedFailed? ==> row == NewJob(row.source, row.createdAt))
    && (Sent(api).None? && api.MarkedFailed? ==> PublishFailedRow(row))
    && (Sent(api).Some? && Clean(api) ==> LifecycleRow(cfg, row))
    && (!Clean(api) ==> OverwrittenRow(cfg, row))
  }

  predicate RowsInv(cfg: Config, s: State) {
    forall j | j in s.db.jobs :: j in s.api && RowInv(cfg, s.db.jobs[j], s.api[j])
  }

  // ----- what a session has not seen -----

  /** A status or error the session did not see was written by an overwriting enqueue. */
  predicate Unseen(row: Job, ses: JobCopy) {
    && (row.status != ses.base.status ==>
          PublishError(row.error) && (ses.base.status == Running ==> ses.base.error == None))
    && (row.error != ses.base.error ==> PublishError(row.error))
    && (ses.base.finishedAt.Some? ==> row.finishedAt.Some?)
  }

  predicate UnseenWorker(jobs: map<JobId, Job>, worker: Worker) {
    worker.Busy? && HasSession(worker.pc) && worker.msg.body.Valid? && worker.msg.body.job in jobs ==>
      Unseen(jobs[worker.msg.body.job], worker.pc.ses)
  }

  predicate UnseenInv(s: State) {
    forall w | w in s.workers :: UnseenWorker(s.db.jobs, s.workers[w])
  }

  lemma WorkUnseen(cfg: Config, db: Db, api: map<JobId, ApiPc>, now: Time, m: Message, pc: Pc, work: Work)
    requires WorkEnabled(db, m.body, pc, work) && WorkerInv(cfg, db.jobs, api, Busy(m, pc))
    requires UnseenWorker(db.jobs, Busy(m, pc))
    ensures var e := Worked(cfg, db, now, m.body, pc, work); UnseenWorker(e.db.jobs, Busy(m, e.pc))
  {
  }

  lemma UnseenAdvance(cfg: Config, s: State, w: WorkerId, work: Work)
    requires MessageInv(s) && Exclusive(s) && SessionInv(cfg, s) && UnseenInv(s) && Enabled(cfg, s, Advance(w, work))
    ensures UnseenInv(Apply(cfg, s, Advance(w, work)))
  {
    var s' := Apply(cfg, s, Advance(w, work));
    var Busy(m, pc) := s.workers[w];
    assert WorkerInv(cfg, s.db.jobs, s.api, s.workers[w]) && UnseenWorker(s.db.jobs, s.workers[w]);
    WorkUnseen(cfg, s.db, s.api, s.now, m, pc, work);
    WorkFrame(cfg, s.db, s.now, m.body, pc, work);
    forall v | v in s.workers && v != w ensures UnseenWorker(s'.db.jobs, s'.workers[v]) {
      assert UnseenWorker(s.db.jobs, s.workers[v]) && WorkerInv(cfg, s.db.jobs, s.api, s.workers[v]);
      if s.workers[v].Busy? && HasSession(s.workers[v].pc) && m.body.Valid? && m.body.job == s.workers[v].msg.body.job {
        OneWorkerPerJob(s, v, w);
      }
    }
  }

  /** The overwriting write finds every session of the job in agreement with the row. */
  lemma UnseenCompensation(cfg: Config, row: Job, api: ApiPc, ses: JobCopy, pc: Pc, detail: string, now: Time)
    requires api.PublishRaised? && RowInv(cfg, row, api) && Coherent(row, api, ses)
    ensures Unseen(PublishFailureRow(row, detail, now), ses)
  {
  }

  lemma UnseenEnqueue(cfg: Config, s: State, j: JobId, request: Request)
    requires MessageInv(s) && SessionInv(cfg, s) && RowsInv(cfg, s) && UnseenInv(s) && RequestEnabled(s, j, request)
    ensures UnseenInv(Requested(s, j, request))
  {
    var s' := Requested(s, j, request);
    RequestFrame(s, j, request);
    forall w | w in s.workers ensures UnseenWorker(s'.db.jobs, s.workers[w]) {
      assert UnseenWorker(s.db.jobs, s.workers[w]) && WorkerInv(cfg, s.db.jobs, s.api, s.workers[w]);
      if s.workers[w].Busy? && HasSession(s.workers[w].pc) && s.workers[w].msg.body.job == j {
        if request.MarkPublishFailure? {
          UnseenCompensation(cfg, s.db.jobs[j], s.api[j], s.workers[w].pc.ses, s.workers[w].pc, request.detail, s.now);
        }
      }
    }
  }

  lemma UnseenStep(cfg: Config, s: State, step: Step)
    requires MessageInv(s) && Exclusive(s) && SessionInv(cfg, s) && RowsInv(cfg, s) && UnseenInv(s)
    requires Enabled(cfg, s, step)
    ensures UnseenInv(Apply(cfg, s, step))
  {
    match step
    case Enqueue(j, request) => UnseenEnqueue(cfg, s, j, request);
    case Stray(_) =>
    case Deliver(_, _) =>
    case Advance(w, work) => UnseenAdvance(cfg, s, w, work);
    case Settle(_) =>
    case Abort(_, _) =>
    case LoseConnection(_) =>
  }

  // ----- the rows -----

  lemma WorkKeepsRow(cfg: Config, db: Db, api: map<JobId, ApiPc>, now: Time, m: Message, pc: Pc, work: Work)
    requires WorkEnabled(db, m.body, pc, work) && m.body.Valid? && m.body.job in db.jobs && api.Keys == db.jobs.Keys
    requires WorkerInv(cfg, db.jobs, api, Busy(m, pc)) && UnseenWorker(db.jobs, Busy(m, pc))
    requires Sent(api[m.body.job]) == Some(m) && RowInv(cfg, db.jobs[m.body.job], api[m.body.job])
    ensures RowInv(cfg, Worked(cfg, db, now, m.body, pc, work).db.jobs[m.body.job], api[m.body.job])
  {
  }

  lemma OwnRowEnqueue(cfg: Config, s: State, j: JobId, request: Request)
    requires RequestEnabled(s, j, request) && s.api.Keys == s.db.jobs.Keys
    requires j in s.db.jobs ==> RowInv(cfg, s.db.jobs[j], s.api[j])
    ensures var s' := Requested(s, j, request);
            j in s'.db.jobs ==> j in s'.api && RowInv(cfg, s'.db.jobs[j], s'.api[j])
  {
  }

  lemma RowsEnqueue(cfg: Config, s: State, j: JobId, request: Request)
    requires MessageInv(s) && RowsInv(cfg, s) && RequestEnabled(s, j, request)
    ensures RowsInv(cfg, Requested(s, j, request))
  {
    RequestFrame(s, j, request);
    OwnRowEnqueue(cfg, s, j, request);
  }

  lemma RowsAdvance(cfg: Config, s: State, w: WorkerId, work: Work)
    requires MessageInv(s) && SessionInv(cfg, s) && UnseenInv(s) && RowsInv(cfg, s)
    requires Enabled(cfg, s, Advance(w, work))
    ensures RowsInv(cfg, Apply(cfg, s, Advance(w, work)))
  {
    var Busy(m, pc) := s.workers[w];
    WorkFrame(cfg, s.db, s.now, m.body, pc, work);
    if m.body.Valid? && m.body.job in s.db.jobs {
      assert UnseenWorker(s.db.jobs, s.workers[w]);
      WorkKeepsRow(cfg, s.db, s.api, s.now, m, pc, work);
    }
  }

  lemma RowsStep(cfg: Config, s: State, step: Step)
    requires MessageInv(s) && SessionInv(cfg, s) && UnseenInv(s) && RowsInv(cfg, s) && Enabled(cfg, s, step)
    ensures RowsInv(cfg, Apply(cfg, s, step))
  {
    match step
    case Enqueue(j, request) => RowsEnqueue(cfg, s, j, request);
    case Stray(_) =>
    case Deliver(_, _) =>
    case Advance(w, work) => RowsAdvance(cfg, s, w, work);
    case Settle(_) =>
    case Abort(_, _) =>
    case LoseConnection(_) =>
  }

  // ----- settlement -----

  /** The committed row a settlement promises. */
  predicate FinalRow(cfg: Config, row: Job, api: ApiPc, how: Settlement) {
    match how
    case Ack => row.status == Completed || (row.status == Failed && !Clean(api))
    case DeadLetter => row.status == Failed && row.attempts >= 1 && row.attempts >= cfg.maxAttempts
    case Requeue => true
  }

  predicate SettledMessage(cfg: Config, s: State, m: Message)
    requires m.body.Valid? && m.body.job in s.db.jobs && m.body.job in s.api
  {
    var row, api := s.db.jobs[m.body.job], s.api[m.body.job];
    && (m in s.broker.acked ==> FinalRow(cfg, row, api, Ack))
    && (m in s.broker.dead ==> FinalRow(cfg, row, api, DeadLetter))
    && (forall how | how in {Ack, DeadLetter} :: HeldAt(s, m, Settling(how)) ==> FinalRow(cfg, row, api, how))
  }

  predicate SettledInv(cfg: Config, s: State) {
    && s.api.Keys == s.db.jobs.Keys
    && forall m | m in s.broker.published && m.body.Valid? && m.body.job in s.db.jobs :: SettledMessage(cfg, s, m)
  }

  /** A worker reaches its settlement only with the row that settlement promises. */
  lemma WorkReachesFinalRow(cfg: Config, db: Db, api: map<JobId, ApiPc>, now: Time, m: Message, pc: Pc, work: Work)
    requires WorkEnabled(db, m.body, pc, work) && m.body.Valid? && m.body.job in db.jobs && api.Keys == db.jobs.Keys
    requires WorkerInv(cfg, db.jobs, api, Busy(m, pc))
    ensures var e := Worked(cfg, db, now, m.body, pc, work);
            e.pc.Settling? ==> FinalRow(cfg, e.db.jobs[m.body.job], api[m.body.job], e.pc.how)
  {
  }

  /** The message being worked on is not settled, and will be only as its row promises. */
  lemma OwnSettlement(cfg: Config, s: State, w: WorkerId, work: Work)
    requires Outstanding(s.broker, s.workers) && Exclusive(s) && SessionInv(cfg, s) && s.api.Keys == s.db.jobs.Keys
    requires Enabled(cfg, s, Advance(w, work))
    requires var m := s.workers[w].msg; m.body.Valid? && m.body.job in s.db.jobs
    ensures var s', m := Apply(cfg, s, Advance(w, work)), s.workers[w].msg;
            m.body.job in s'.db.jobs && SettledMessage(cfg, s', m)
  {
    var Busy(m, pc) := s.workers[w];
    assert InProcess(s, w) && Active(s, w) && WorkerInv(cfg, s.db.jobs, s.api, s.workers[w]);
    assert m in s.broker.unacked ==> Active(s, s.broker.unacked[m]);
    WorkFrame(cfg, s.db, s.now, m.body, pc, work);
    WorkReachesFinalRow(cfg, s.db, s.api, s.now, m, pc, work);
  }

  lemma OtherHeld(cfg: Config, s: State, w: WorkerId, work: Work, m: Message, pc: Pc)
    requires Outstanding(s.broker, s.workers) && Enabled(cfg, s, Advance(w, work)) && m != s.workers[w].msg
    ensures HeldAt(Apply(cfg, s, Advance(w, work)), m, pc) == HeldAt(s, m, pc)
  {
  }

  lemma OtherSettlement(cfg: Config, s: State, w: WorkerId, work: Work, m: Message)
    requires MessageInv(s) && Enabled(cfg, s, Advance(w, work)) && m != s.workers[w].msg
    requires m in s.broker.published && m.body.Valid? && m.body.job in s.db.jobs && SettledMessage(cfg, s, m)
    ensures var s' := Apply(cfg, s, Advance(w, work)); m.body.job in s'.db.jobs && SettledMessage(cfg, s', m)
  {
    var Busy(n, pc) := s.workers[w];
    WorkFrame(cfg, s.db, s.now, n.body, pc, work);
    assert !(n.body.Valid? && n.body.job == m.body.job);
    OtherHeld(cfg, s, w, work, m, Settling(Ack));
    OtherHeld(cfg, s, w, work, m, Settling(DeadLetter));
  }

  lemma SettledAdvance(cfg: Config, s: State, w: WorkerId, work: Work)
    requires MessageInv(s) && Exclusive(s) && SessionInv(cfg, s) && SettledInv(cfg, s)
    requires Enabled(cfg, s, Advance(w, work))
    ensures SettledInv(cfg, Apply(cfg, s, Advance(w, work)))
  {
    var s' := Apply(cfg, s, Advance(w, work));
    WorkFrame(cfg, s.db, s.now, s.workers[w].msg.body, s.workers[w].pc, work);
    forall m | m in s.broker.published && m.body.Valid? && m.body.job in s.db.jobs ensures SettledMessage(cfg, s', m) {
      assert SettledMessage(cfg, s, m);
      if m == s.workers[w].msg {
        OwnSettlement(cfg, s, w, work);
      } else {
        OtherSettlement(cfg, s, w, work, m);
      }
    }
  }

  lemma SettledEnqueue(cfg: Config, s: State, j: JobId, request: Request)
    requires MessageInv(s) && SettledInv(cfg, s) && RequestEnabled(s, j, request)
    ensures SettledInv(cfg, Apply(cfg, s, Enqueue(j, request)))
  {
    var s' := Apply(cfg, s, Enqueue(j, request));
    MessageInvStep(cfg, s, Enqueue(j, request));
    forall m | m in s'.broker.published && m.body.Valid? && m.body.job in s'.db.jobs
      ensures SettledMessage(cfg, s', m)
    {
      if m in s.broker.published && m.body.job in s.db.jobs {
        assert SettledMessage(cfg, s, m);
      }
    }
  }

  /** Moving a message about changes what it promises only as its settlement says. */
  lemma SettledMoved(cfg: Config, s: State, s': State, m: Message)
    requires m.body.Valid? && m.body.job in s.db.jobs && m.body.job in s.api && SettledMessage(cfg, s, m)
    requires s'.db == s.db && s'.api == s.api
    requires m in s'.broker.acked ==> m in s.broker.acked || HeldAt(s, m, Settling(Ack))
    requires m in s'.broker.dead ==> m in s.broker.dead || HeldAt(s, m, Settling(DeadLetter))
    requires forall how | how in {Ack, DeadLetter} :: HeldAt(s', m, Settling(how)) ==> HeldAt(s, m, Settling(how))
    ensures SettledMessage(cfg, s', m)
  {
  }

  lemma SettledBroker(cfg: Config, s: State, step: Step)
    requires MessageInv(s) && SettledInv(cfg, s) && Enabled(cfg, s, step) && !step.Enqueue? && !step.Advance?
    ensures SettledInv(cfg, Apply(cfg, s, step))
  {
    var s' := Apply(cfg, s, step);
    forall m | m in s'.broker.published && m.body.Valid? && m.body.job in s'.db.jobs
      ensures SettledMessage(cfg, s', m)
    {
      if m in s.broker.published {
        assert SettledMessage(cfg, s, m);
        SettledMoved(cfg, s, s', m);
      }
    }
  }

  lemma SettledStep(cfg: Config, s: State, step: Step)
    requires MessageInv(s) && Exclusive(s) && SessionInv(cfg, s) && SettledInv(cfg, s) && Enabled(cfg, s, step)
    ensures SettledInv(cfg, Apply(cfg, s, step))
  {
    match step
    case Enqueue(j, request) => SettledEnqueue(cfg, s, j, request);
    case Advance(w, work) => SettledAdvance(cfg, s, w, work);
    case _ => SettledBroker(cfg, s, step);
  }
}
