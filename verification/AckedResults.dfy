/** What an acked message guarantees of its job's results, even if its row has been overwritten. */
module AckedResults {
  import opened Domain
  import opened Tables
  import opened JobRows
  import opened Protocol
  import opened Messages
  import opened Sessions
  import opened Lifecycle
  import opened Ledger
  import opened Results

  /** The latest attempt ran every registered crawler with success, and the row counts what it collected. */
  predicate FullPass(row: Job, a: seq<Collected>) {
    Names(a) == Registry(row.source) && row.records == Some(Total(a))
  }

  predicate AckedMessage(s: State, m: Message)
    requires m.body.Valid? && m.body.job in s.db.jobs
  {
    m in s.broker.acked || HeldAt(s, m, Settling(Ack)) ==>
      FullPass(s.db.jobs[m.body.job], Attempt(s.log, m.body.job))
  }

  predicate AckedInv(s: State) {
    forall m | m in s.broker.published && m.body.Valid? && m.body.job in s.db.jobs :: AckedMessage(s, m)
  }

  /** A worker comes to ack only after such an attempt. */
  lemma WorkReachesFullPass(cfg: Config, db: Db, api: map<JobId, ApiPc>, now: Time, m: Message, pc: Pc, work: Work,
          a: seq<Collected>)
    requires WorkEnabled(db, m.body, pc, work) && WorkerInv(cfg, db.jobs, api, Busy(m, pc))
    requires m.body.Valid? && m.body.job in db.jobs && TallyPc(pc, a) && ResultJob(db.jobs[m.body.job], a)
    ensures var e := Worked(cfg, db, now, m.body, pc, work);
            m.body.job in e.db.jobs
            && (e.pc == Settling(Ack) ==> FullPass(e.db.jobs[m.body.job], AttemptAfter(pc, work, a)))
  {
  }

  lemma OwnAcked(cfg: Config, s: State, w: WorkerId, work: Work)
    requires MessageInv(s) && Exclusive(s) && SessionInv(cfg, s) && ResultInv(s) && Enabled(cfg, s, Advance(w, work))
    requires var m := s.workers[w].msg; m.body.Valid? && m.body.job in s.db.jobs
    ensures var s', m := Apply(cfg, s, Advance(w, work)), s.workers[w].msg;
            m.body.job in s'.db.jobs && AckedMessage(s', m)
  {
    var Busy(m, pc) := s.workers[w];
    assert InProcess(s, w) && Active(s, w);
    assert m in s.broker.unacked ==> Active(s, s.broker.unacked[m]);
    assert WorkerInv(cfg, s.db.jobs, s.api, s.workers[w]) && TallyWorker(s.db.jobs, s.log, s.workers[w]);
    WorkHistory(cfg, s.db, s.now, m.body, pc, work, s.log, m.body.job);
    WorkReachesFullPass(cfg, s.db, s.api, s.now, m, pc, work, Attempt(s.log, m.body.job));
  }

  lemma OtherAcked(cfg: Config, s: State, w: WorkerId, work: Work, m: Message)
    requires MessageInv(s) && Enabled(cfg, s, Advance(w, work)) && m != s.workers[w].msg
    requires m in s.broker.published && m.body.Valid? && m.body.job in s.db.jobs && AckedMessage(s, m)
    ensures var s' := Apply(cfg, s, Advance(w, work)); m.body.job in s'.db.jobs && AckedMessage(s', m)
  {
    var Busy(n, pc) := s.workers[w];
    WorkFrame(cfg, s.db, s.now, n.body, pc, work);
    assert !(n.body.Valid? && n.body.job == m.body.job);
    WorkHistory(cfg, s.db, s.now, n.body, pc, work, s.log, m.body.job);
    OtherHeld(cfg, s, w, work, m, Settling(Ack));
  }

  lemma AckedAdvance(cfg: Config, s: State, w: WorkerId, work: Work)
    requires MessageInv(s) && Exclusive(s) && SessionInv(cfg, s) && ResultInv(s) && AckedInv(s)
    requires Enabled(cfg, s, Advance(w, work))
    ensures AckedInv(Apply(cfg, s, Advance(w, work)))
  {
    var s' := Apply(cfg, s, Advance(w, work));
    WorkFrame(cfg, s.db, s.now, s.workers[w].msg.body, s.workers[w].pc, work);
    forall m | m in s.broker.published && m.body.Valid? && m.body.job in s.db.jobs ensures AckedMessage(s', m) {
      assert AckedMessage(s, m);
      if m == s.workers[w].msg {
        OwnAcked(cfg, s, w, work);
      } else {
        OtherAcked(cfg, s, w, work, m);
      }
    }
  }

  /** A request leaves the counts of existing jobs alone, and no message names a job before its enqueue. */
  lemma AckedEnqueue(cfg: Config, s: State, j: JobId, request: Request)
    requires MessageInv(s) && AckedInv(s) && RequestEnabled(s, j, request)
    ensures AckedInv(Requested(s, j, request))
  {
    var s' := Requested(s, j, request);
    RequestFrame(s, j, request);
    RecordsKept(s, j, request);
    forall m | m in s'.broker.published && m.body.Valid? && m.body.job in s'.db.jobs ensures AckedMessage(s', m) {
      if m in s.broker.published {
        assert m.body.job in s.db.jobs && AckedMessage(s, m);
      }
    }
  }

  lemma RecordsKept(s: State, j: JobId, request: Request)
    requires RequestEnabled(s, j, request)
    ensures j in s.db.jobs ==> Requested(s, j, request).db.jobs[j].records == s.db.jobs[j].records
  {
  }

  /** An event about a message is no part of any attempt. */
  lemma NoteKeepsAttempt(log: seq<Event>, event: Event, j: JobId)
    requires AboutMessage(event)
    ensures Attempt(log + [event], j) == Attempt(log, j)
  {
    Snoc(log, event, j);
  }

  lemma AckedMoved(s: State, s': State, m: Message)
    requires m.body.Valid? && m.body.job in s.db.jobs && AckedMessage(s, m) && s'.db == s.db
    requires Attempt(s'.log, m.body.job) == Attempt(s.log, m.body.job)
    requires m in s'.broker.acked ==> m in s.broker.acked || HeldAt(s, m, Settling(Ack))
    requires HeldAt(s', m, Settling(Ack)) ==> HeldAt(s, m, Settling(Ack))
    ensures AckedMessage(s', m)
  {
  }

  lemma AckedRelease(s: State, w: WorkerId, how: Settlement, note: Event, s': State)
    requires MessageInv(s) && AckedInv(s) && Releases(s, w, how, s') && AboutMessage(note)
    requires s'.log == s.log + ReleaseEvents(s, w, how, note) && s'.broker.published == s.broker.published
    requires how == Requeue || s.workers[w].pc == Settling(how)
    ensures AckedInv(s')
  {
    forall m | m in s'.broker.published && m.body.Valid? && m.body.job in s'.db.jobs ensures AckedMessage(s', m) {
      assert AckedMessage(s, m);
      NoteKeepsAttempt(s.log, note, m.body.job);
      assert s.log + [] == s.log;
      AckedMoved(s, s', m);
    }
  }

  lemma AckedDeliver(cfg: Config, s: State, w: WorkerId, m: Message)
    requires MessageInv(s) && AckedInv(s) && Enabled(cfg, s, Deliver(w, m))
    ensures AckedInv(Apply(cfg, s, Deliver(w, m)))
  {
    var s' := Apply(cfg, s, Deliver(w, m));
    forall n | n in s'.broker.published && n.body.Valid? && n.body.job in s'.db.jobs ensures AckedMessage(s', n) {
      assert AckedMessage(s, n);
      NoteKeepsAttempt(s.log, Delivered(m), n.body.job);
      AckedMoved(s, s', n);
    }
  }

  lemma AckedStep(cfg: Config, s: State, step: Step)
    requires MessageInv(s) && Exclusive(s) && SessionInv(cfg, s) && ResultInv(s) && AckedInv(s)
    requires Enabled(cfg, s, step)
    ensures AckedInv(Apply(cfg, s, step))
  {
    var s' := Apply(cfg, s, step);
    match step
    case Enqueue(j, request) => AckedEnqueue(cfg, s, j, request);
    case Stray(body) => AckedStray(cfg, s, body);
    case Deliver(w, m) => AckedDeliver(cfg, s, w, m);
    case Advance(w, work) => AckedAdvance(cfg, s, w, work);
    case Settle(w) =>
      SettleReleases(cfg, s, w);
      AckedRelease(s, w, s.workers[w].pc.how, Requeued(s.workers[w].msg), s');
    case Abort(w, cause) =>
      AbortReleases(cfg, s, w, cause);
      AckedRelease(s, w, Requeue, Interrupted(s.workers[w].msg), s');
    case LoseConnection(w) =>
      LoseReleases(cfg, s, w);
      AckedRelease(s, w, Requeue, Interrupted(s.workers[w].msg), s');
  }

  lemma AckedStray(cfg: Config, s: State, body: Body)
    requires AckedInv(s) && Enabled(cfg, s, Stray(body))
    ensures AckedInv(Apply(cfg, s, Stray(body)))
  {
    var s' := Apply(cfg, s, Stray(body));
    forall m | m in s'.broker.published && m.body.Valid? && m.body.job in s'.db.jobs ensures AckedMessage(s', m) {
      assert AckedMessage(s, m);
    }
  }
}
