/** Counting over whole runs: deliveries, starts, retries and interruptions. */
module Ledger {
  import opened Domain
  import opened Tables
  import opened JobRows
  import opened Protocol
  import opened Messages
  import opened Sessions
  import opened Lifecycle

  function Count(log: seq<Event>, event: Event): nat {
    multiset(log)[event]
  }

  lemma CountConcat(a: seq<Event>, b: seq<Event>, event: Event)
    ensures Count(a + b, event) == Count(a, event) + Count(b, event)
  {
    assert multiset(a + b) == multiset(a) + multiset(b);
  }

  lemma CountAbsent(events: seq<Event>, event: Event)
    ensures Count(events, event) == 0 <==> event !in events
  {
    assert event in events <==> event in multiset(events);
  }

  function Indicator(b: bool): nat {
    if b then 1 else 0
  }

  // ----- deliveries -----

  /** Every delivery was requeued, interrupted, settled for good, or is still outstanding. */
  predicate DeliveryLedger(b: Broker, log: seq<Event>, m: Message) {
    Count(log, Delivered(m)) ==
    Count(log, Requeued(m)) + Count(log, Interrupted(m))
      + Indicator(m in b.unacked) + Indicator(m in b.acked || m in b.dead)
  }

  ghost predicate DeliveriesBalance(b: Broker, log: seq<Event>) {
    forall m: Message :: DeliveryLedger(b, log, m)
  }

  predicate AboutMessage(event: Event) {
    event.Delivered? || event.Requeued? || event.Interrupted?
  }

  lemma BalanceDeliver(b: Broker, now: Time, log: seq<Event>, m: Message, w: WorkerId)
    requires Conserved(b, now) && DeliveriesBalance(b, log) && m in b.ready
    ensures DeliveriesBalance(Deliverance(b, m, w), log + [Delivered(m)])
  {
    forall n: Message ensures DeliveryLedger(Deliverance(b, m, w), log + [Delivered(m)], n) {
      assert DeliveryLedger(b, log, n);
    }
  }

  lemma BalanceSettle(b: Broker, now: Time, log: seq<Event>, m: Message, how: Settlement, events: seq<Event>)
    requires Conserved(b, now) && DeliveriesBalance(b, log) && m in b.unacked
    requires how == Requeue ==> events == [Requeued(m)] || events == [Interrupted(m)]
    requires how != Requeue ==> events == []
    ensures DeliveriesBalance(SettleMessage(b, m, how), log + events)
  {
    forall n: Message ensures DeliveryLedger(SettleMessage(b, m, how), log + events, n) {
      assert DeliveryLedger(b, log, n);
    }
  }

  lemma BalanceFrame(b: Broker, b': Broker, log: seq<Event>, events: seq<Event>)
    requires DeliveriesBalance(b, log) && b'.unacked == b.unacked && b'.acked == b.acked && b'.dead == b.dead
    requires forall e | e in events :: !AboutMessage(e)
    ensures DeliveriesBalance(b', log + events)
  {
    forall m: Message ensures DeliveryLedger(b', log + events, m) {
      assert DeliveryLedger(b, log, m);
      CountConcat(log, events, Delivered(m));
      CountConcat(log, events, Requeued(m));
      CountConcat(log, events, Interrupted(m));
      CountAbsent(events, Delivered(m));
      CountAbsent(events, Requeued(m));
      CountAbsent(events, Interrupted(m));
    }
  }

  /** The worker gives its message back or settles it, and that is noted if the message comes back. */
  lemma BalanceRelease(s: State, w: WorkerId, how: Settlement, note: Event)
    requires MessageInv(s) && DeliveriesBalance(s.broker, s.log) && IsBusy(s, w)
    requires note == Requeued(s.workers[w].msg) || note == Interrupted(s.workers[w].msg)
    ensures DeliveriesBalance(SettleBroker(s, w, how), if how == Requeue then Note(s, w, note) else s.log)
  {
    if Attached(s, w) {
      BalanceSettle(s.broker, s.now, s.log, s.workers[w].msg, how, if how == Requeue then [note] else []);
      assert s.log + [] == s.log;
    }
  }

  lemma DeliveriesStep(cfg: Config, s: State, step: Step)
    requires MessageInv(s) && DeliveriesBalance(s.broker, s.log) && Enabled(cfg, s, step)
    ensures DeliveriesBalance(Apply(cfg, s, step).broker, Apply(cfg, s, step).log)
  {
    var b, log := s.broker, s.log;
    match step
    case Enqueue(j, request) =>
      RequestFrame(s, j, request);
      BalanceFrame(b, Requested(s, j, request).broker, log, []);
      assert log + [] == log;
    case Stray(body) =>
      BalanceFrame(b, Accept(b, Message(s.now, body)), log, []);
      assert log + [] == log;
    case Deliver(w, m) => BalanceDeliver(b, s.now, log, m, w);
    case Advance(w, work) =>
      BalanceFrame(b, b, log, Worked(cfg, s.db, s.now, s.workers[w].msg.body, s.workers[w].pc, work).events);
    case Settle(w) => BalanceRelease(s, w, s.workers[w].pc.how, Requeued(s.workers[w].msg));
    case Abort(w, _) => BalanceRelease(s, w, Requeue, Interrupted(s.workers[w].msg));
    case LoseConnection(w) => BalanceRelease(s, w, Requeue, Interrupted(s.workers[w].msg));
  }

  // ----- starts and retries -----

  /** `max(0, max_attempts - 1)`. */
  function RetryLimit(cfg: Config): nat {
    if cfg.maxAttempts <= 1 then 0 else cfg.maxAttempts - 1
  }

  function Retries(log: seq<Event>, j: JobId): nat {
    Count(log, RetriedEvent(j))
  }

  /** The attempt counter counts committed starts; the worker gives up only with it exhausted. */
  predicate JobLedger(cfg: Config, row: Job, log: seq<Event>, j: JobId) {
    && row.attempts == Count(log, Started(j))
    && Retries(log, j) <= row.attempts
    && Retries(log, j) <= RetryLimit(cfg)
    && (FailedEvent(j) in log ==> row.attempts >= 1 && row.attempts >= cfg.maxAttempts)
  }

  predicate JobsLedger(cfg: Config, jobs: map<JobId, Job>, log: seq<Event>) {
    forall j | j in jobs :: JobLedger(cfg, jobs[j], log, j)
  }

  /** An attempt under way has not spent its retry yet, and a delivery starts at most one attempt. */
  predicate WorkerLedger(jobs: map<JobId, Job>, log: seq<Event>, worker: Worker) {
    worker.Busy? && worker.msg.body.Valid? && worker.msg.body.job in jobs ==>
      var j := worker.msg.body.job;
      && (worker.pc.Crawling? || worker.pc.Persisting? || worker.pc.Marked? ==> Retries(log, j) < jobs[j].attempts)
      && (worker.pc.Received? || worker.pc.Loaded? ==> jobs[j].attempts < Count(log, Delivered(worker.msg)))
  }

  predicate WorkersLedger(s: State) {
    forall w | w in s.workers :: WorkerLedger(s.db.jobs, s.log, s.workers[w])
  }

  /** A message is requeued only by the retry its worker committed. */
  predicate MessageLedger(s: State, m: Message) {
    var retries := if m.body.Valid? then Retries(s.log, m.body.job) else 0;
    && Count(s.log, Requeued(m)) + Indicator(HeldAt(s, m, Settling(Requeue))) <= retries
    && (m.body.Valid? && m.body.job in s.db.jobs ==> s.db.jobs[m.body.job].attempts <= Count(s.log, Delivered(m)))
  }

  predicate MessagesLedger(s: State) {
    forall m | m in s.broker.published :: MessageLedger(s, m)
  }

  /** Only published messages and jobs with a row have history. */
  predicate NoForeignEvents(published: set<Message>, jobs: map<JobId, Job>, log: seq<Event>) {
    forall e | e in log :: if AboutMessage(e) then e.msg in published else e.job in jobs
  }

  predicate LedgerInv(cfg: Config, s: State) {
    && NoForeignEvents(s.broker.published, s.db.jobs, s.log)
    && JobsLedger(cfg, s.db.jobs, s.log)
    && WorkersLedger(s)
    && MessagesLedger(s)
  }

  /** The three counters of a job a worker's step can move. */
  lemma WorkCounts(cfg: Config, db: Db, api: map<JobId, ApiPc>, now: Time, m: Message, pc: Pc, work: Work,
          log: seq<Event>, k: JobId)
    requires WorkEnabled(db, m.body, pc, work) && WorkerInv(cfg, db.jobs, api, Busy(m, pc))
    requires k in db.jobs
    ensures var e := Worked(cfg, db, now, m.body, pc, work);
            var mine := m.body.Valid? && m.body.job == k;
            && Count(log + e.events, Started(k)) == Count(log, Started(k)) + Indicator(mine && work == CommitStart)
            && e.db.jobs[k].attempts == db.jobs[k].attempts + Indicator(mine && work == CommitStart)
            && Retries(log + e.events, k)
               == Retries(log, k) + Indicator(mine && work == CommitOutcome && pc.outcome == RetryOutcome)
            && (FailedEvent(k) in log + e.events <==>
                  FailedEvent(k) in log || (mine && work == CommitOutcome && pc.outcome == FailedOutcome))
  {
    var e := Worked(cfg, db, now, m.body, pc, work);
    CountConcat(log, e.events, Started(k));
    CountConcat(log, e.events, RetriedEvent(k));
  }

  lemma WorkMessageCounts(cfg: Config, db: Db, now: Time, body: Body, pc: Pc, work: Work, log: seq<Event>, n: Message)
    requires WorkEnabled(db, body, pc, work)
    ensures var events := Worked(cfg, db, now, body, pc, work).events;
            && Count(log + events, Delivered(n)) == Count(log, Delivered(n))
            && Count(log + events, Requeued(n)) == Count(log, Requeued(n))
  {
    var events := Worked(cfg, db, now, body, pc, work).events;
    CountConcat(log, events, Delivered(n));
    CountConcat(log, events, Requeued(n));
  }

  lemma NoForeignAdvance(cfg: Config, s: State, w: WorkerId, work: Work)
    requires NoForeignEvents(s.broker.published, s.db.jobs, s.log) && Enabled(cfg, s, Advance(w, work))
    ensures var e := Worked(cfg, s.db, s.now, s.workers[w].msg.body, s.workers[w].pc, work);
            NoForeignEvents(s.broker.published, e.db.jobs, s.log + e.events)
  {
    var Busy(m, pc) := s.workers[w];
    var e := Worked(cfg, s.db, s.now, m.body, pc, work);
    WorkFrame(cfg, s.db, s.now, m.body, pc, work);
    assert forall x | x in e.events :: !AboutMessage(x) && x.job in s.db.jobs;
  }

  lemma JobsLedgerAdvance(cfg: Config, s: State, w: WorkerId, work: Work)
    requires MessageInv(s) && SessionInv(cfg, s) && LedgerInv(cfg, s) && Enabled(cfg, s, Advance(w, work))
    ensures var s' := Apply(cfg, s, Advance(w, work)); JobsLedger(cfg, s'.db.jobs, s'.log)
  {
    var s' := Apply(cfg, s, Advance(w, work));
    var Busy(m, pc) := s.workers[w];
    assert WorkerLedger(s.db.jobs, s.log, s.workers[w]);
    WorkFrame(cfg, s.db, s.now, m.body, pc, work);
    forall k | k in s.db.jobs ensures JobLedger(cfg, s'.db.jobs[k], s'.log, k) {
      assert JobLedger(cfg, s.db.jobs[k], s.log, k);
      WorkCounts(cfg, s.db, s.api, s.now, m, pc, work, s.log, k);
    }
  }

  lemma OwnLedger(cfg: Config, db: Db, api: map<JobId, ApiPc>, now: Time, m: Message, pc: Pc, work: Work,
          log: seq<Event>)
    requires WorkEnabled(db, m.body, pc, work) && WorkerInv(cfg, db.jobs, api, Busy(m, pc))
    requires WorkerLedger(db.jobs, log, Busy(m, pc)) && JobsLedger(cfg, db.jobs, log)
    ensures var e := Worked(cfg, db, now, m.body, pc, work);
            WorkerLedger(e.db.jobs, log + e.events, Busy(m, e.pc))
  {
    WorkMessageCounts(cfg, db, now, m.body, pc, work, log, m);
    if m.body.Valid? && m.body.job in db.jobs {
      assert JobLedger(cfg, db.jobs[m.body.job], log, m.body.job);
      WorkCounts(cfg, db, api, now, m, pc, work, log, m.body.job);
    }
  }

  lemma OtherLedger(cfg: Config, db: Db, api: map<JobId, ApiPc>, now: Time, m: Message, pc: Pc, work: Work,
          log: seq<Event>, other: Worker)
    requires WorkEnabled(db, m.body, pc, work) && WorkerInv(cfg, db.jobs, api, Busy(m, pc))
    requires WorkerLedger(db.jobs, log, other)
    requires other.Busy? && other.msg.body.Valid? && m.body.Valid?
             && other.msg.body.job == m.body.job && m.body.job in db.jobs
             ==> other.pc.Settling?
    ensures var e := Worked(cfg, db, now, m.body, pc, work); WorkerLedger(e.db.jobs, log + e.events, other)
  {
    WorkFrame(cfg, db, now, m.body, pc, work);
    if other.Busy? && other.msg.body.Valid? && other.msg.body.job in db.jobs {
      WorkMessageCounts(cfg, db, now, m.body, pc, work, log, other.msg);
      WorkCounts(cfg, db, api, now, m, pc, work, log, other.msg.body.job);
    }
  }

  lemma WorkersLedgerAdvance(cfg: Config, s: State, w: WorkerId, work: Work)
    requires MessageInv(s) && Exclusive(s) && SessionInv(cfg, s) && LedgerInv(cfg, s)
    requires Enabled(cfg, s, Advance(w, work))
    ensures WorkersLedger(Apply(cfg, s, Advance(w, work)))
  {
    var s' := Apply(cfg, s, Advance(w, work));
    var Busy(m, pc) := s.workers[w];
    assert WorkerInv(cfg, s.db.jobs, s.api, s.workers[w]);
    forall v | v in s.workers ensures WorkerLedger(s'.db.jobs, s'.log, s'.workers[v]) {
      if v == w {
        OwnLedger(cfg, s.db, s.api, s.now, m, pc, work, s.log);
      } else {
        if InProcess(s, v) && s.workers[v].msg.body.Valid? && m.body.Valid? && s.workers[v].msg.body.job == m.body.job {
          if m.body.job in s.db.jobs {
            OneWorkerPerJob(s, v, w);
          }
        }
        OtherLedger(cfg, s.db, s.api, s.now, m, pc, work, s.log, s.workers[v]);
      }
    }
  }

  /** A worker comes to hold a message for requeueing only by committing its retry. */
  lemma HeldAfterWork(cfg: Config, s: State, w: WorkerId, work: Work, n: Message)
    requires Outstanding(s.broker, s.workers) && Enabled(cfg, s, Advance(w, work))
    ensures var pc := s.workers[w].pc;
            HeldAt(Apply(cfg, s, Advance(w, work)), n, Settling(Requeue)) ==>
              || HeldAt(s, n, Settling(Requeue))
              || (n == s.workers[w].msg && n.body.Valid? && work == CommitOutcome && pc.outcome == RetryOutcome)
  {
  }

  lemma MessageLedgerAdvance(cfg: Config, s: State, w: WorkerId, work: Work, n: Message)
    requires MessageInv(s) && SessionInv(cfg, s) && Enabled(cfg, s, Advance(w, work))
    requires MessageLedger(s, n) && WorkerLedger(s.db.jobs, s.log, s.workers[w]) && n in s.broker.published
    ensures MessageLedger(Apply(cfg, s, Advance(w, work)), n)
  {
    var Busy(m, pc) := s.workers[w];
    assert WorkerInv(cfg, s.db.jobs, s.api, s.workers[w]);
    WorkFrame(cfg, s.db, s.now, m.body, pc, work);
    WorkMessageCounts(cfg, s.db, s.now, m.body, pc, work, s.log, n);
    HeldAfterWork(cfg, s, w, work, n);
    if n.body.Valid? && n.body.job in s.db.jobs {
      WorkCounts(cfg, s.db, s.api, s.now, m, pc, work, s.log, n.body.job);
      assert m.body.Valid? && m.body.job == n.body.job ==> m == n;
    } else if n.body.Valid? {
      CountConcat(s.log, Worked(cfg, s.db, s.now, m.body, pc, work).events, RetriedEvent(n.body.job));
    }
  }

  lemma MessagesLedgerAdvance(cfg: Config, s: State, w: WorkerId, work: Work)
    requires MessageInv(s) && SessionInv(cfg, s) && LedgerInv(cfg, s) && Enabled(cfg, s, Advance(w, work))
    ensures MessagesLedger(Apply(cfg, s, Advance(w, work)))
  {
    forall n | n in s.broker.published ensures MessageLedger(Apply(cfg, s, Advance(w, work)), n) {
      assert MessageLedger(s, n) && WorkerLedger(s.db.jobs, s.log, s.workers[w]);
      MessageLedgerAdvance(cfg, s, w, work, n);
    }
  }

  lemma JobsLedgerEnqueue(cfg: Config, s: State, j: JobId, request: Request)
    requires NoForeignEvents(s.broker.published, s.db.jobs, s.log) && JobsLedger(cfg, s.db.jobs, s.log)
    requires RequestEnabled(s, j, request)
    ensures JobsLedger(cfg, Requested(s, j, request).db.jobs, s.log)
  {
    var s' := Requested(s, j, request);
    RequestFrame(s, j, request);
    CountAbsent(s.log, Started(j));
    CountAbsent(s.log, RetriedEvent(j));
    forall k | k in s'.db.jobs ensures JobLedger(cfg, s'.db.jobs[k], s.log, k) {
      if k in s.db.jobs {
        assert JobLedger(cfg, s.db.jobs[k], s.log, k);
      }
    }
  }

  lemma LedgerEnqueue(cfg: Config, s: State, j: JobId, request: Request)
    requires MessageInv(s) && RowsInv(cfg, s) && LedgerInv(cfg, s) && RequestEnabled(s, j, request)
    ensures LedgerInv(cfg, Requested(s, j, request))
  {
    var s' := Requested(s, j, request);
    RequestFrame(s, j, request);
    JobsLedgerEnqueue(cfg, s, j, request);
    forall w | w in s.workers ensures WorkerLedger(s'.db.jobs, s.log, s.workers[w]) {
      assert WorkerLedger(s.db.jobs, s.log, s.workers[w]);
    }
    forall m | m in s'.broker.published ensures MessageLedger(s', m) {
      if m in s.broker.published {
        assert MessageLedger(s, m);
      } else {
        NewMessageLedger(cfg, s, j, request, m);
      }
    }
  }

  lemma NewMessageLedger(cfg: Config, s: State, j: JobId, request: Request, m: Message)
    requires MessageInv(s) && RowsInv(cfg, s) && LedgerInv(cfg, s) && RequestEnabled(s, j, request)
    requires m in Requested(s, j, request).broker.published && m !in s.broker.published
    ensures MessageLedger(Requested(s, j, request), m)
  {
    CountAbsent(s.log, Requeued(m));
  }

  /** An event about a message moves no job counter. */
  lemma NoteKeepsJobs(cfg: Config, jobs: map<JobId, Job>, log: seq<Event>, event: Event)
    requires JobsLedger(cfg, jobs, log) && AboutMessage(event)
    ensures JobsLedger(cfg, jobs, log + [event])
  {
    forall j | j in jobs ensures JobLedger(cfg, jobs[j], log + [event], j) {
      assert JobLedger(cfg, jobs[j], log, j);
    }
  }

  lemma NoteKeepsWorker(jobs: map<JobId, Job>, log: seq<Event>, event: Event, worker: Worker)
    requires WorkerLedger(jobs, log, worker) && AboutMessage(event)
    ensures WorkerLedger(jobs, log + [event], worker)
  {
  }

  lemma LedgerStray(cfg: Config, s: State, body: Body)
    requires MessageInv(s) && LedgerInv(cfg, s) && Enabled(cfg, s, Stray(body))
    ensures LedgerInv(cfg, Apply(cfg, s, Stray(body)))
  {
    var s' := Apply(cfg, s, Stray(body));
    CountAbsent(s.log, Requeued(Message(s.now, body)));
    forall m | m in s'.broker.published ensures MessageLedger(s', m) {
      if m in s.broker.published {
        assert MessageLedger(s, m);
      }
    }
  }

  lemma LedgerDeliver(cfg: Config, s: State, w: WorkerId, m: Message)
    requires MessageInv(s) && LedgerInv(cfg, s) && Enabled(cfg, s, Deliver(w, m))
    ensures LedgerInv(cfg, Apply(cfg, s, Deliver(w, m)))
  {
    var s' := Apply(cfg, s, Deliver(w, m));
    NoteKeepsJobs(cfg, s.db.jobs, s.log, Delivered(m));
    assert MessageLedger(s, m);
    forall v | v in s'.workers ensures WorkerLedger(s'.db.jobs, s'.log, s'.workers[v]) {
      if v != w {
        NoteKeepsWorker(s.db.jobs, s.log, Delivered(m), s.workers[v]);
      }
    }
    forall n | n in s'.broker.published ensures MessageLedger(s', n) {
      assert MessageLedger(s, n);
    }
  }

  lemma NoForeignNote(published: set<Message>, jobs: map<JobId, Job>, log: seq<Event>, event: Event)
    requires NoForeignEvents(published, jobs, log) && AboutMessage(event) && event.msg in published
    ensures NoForeignEvents(published, jobs, log + [event])
  {
  }

  /** The worker gives its message up: to the broker's settled sets, or back to the queue. */
  predicate Releases(s: State, w: WorkerId, how: Settlement, s': State) {
    && IsBusy(s, w)
    && s'.broker == SettleBroker(s, w, how)
    && s'.workers.Keys == s.workers.Keys
    && (forall v | v in s.workers && v != w :: s'.workers[v] == s.workers[v])
    && (s'.workers[w].Busy? ==> s'.workers[w] == s.workers[w])
    && s'.db == s.db
  }

  lemma ReleaseWorkers(s: State, w: WorkerId, how: Settlement, note: Event, s': State)
    requires WorkersLedger(s) && Releases(s, w, how, s') && AboutMessage(note)
    requires s'.log == s.log + [note] || s'.log == s.log
    ensures WorkersLedger(s')
  {
    forall v | v in s'.workers ensures WorkerLedger(s'.db.jobs, s'.log, s'.workers[v]) {
      NoteKeepsWorker(s.db.jobs, s.log, note, s.workers[v]);
    }
  }

  lemma ReleaseMessage(s: State, w: WorkerId, how: Settlement, events: seq<Event>, s': State, n: Message)
    requires Outstanding(s.broker, s.workers) && MessageLedger(s, n) && Releases(s, w, how, s')
    requires s'.log == s.log + events
    requires events == [] || events == [Interrupted(s.workers[w].msg)]
          || (events == [Requeued(s.workers[w].msg)] && Attached(s, w) && s.workers[w].pc == Settling(Requeue))
    ensures MessageLedger(s', n)
  {
    CountConcat(s.log, events, Requeued(n));
    CountConcat(s.log, events, Delivered(n));
    if n.body.Valid? {
      CountConcat(s.log, events, RetriedEvent(n.body.job));
    }
  }

  lemma LedgerRelease(cfg: Config, s: State, w: WorkerId, how: Settlement, events: seq<Event>, s': State)
    requires MessageInv(s) && LedgerInv(cfg, s) && Releases(s, w, how, s')
    requires s'.log == s.log + events
    requires events == [] || events == [Interrupted(s.workers[w].msg)]
          || (events == [Requeued(s.workers[w].msg)] && Attached(s, w) && s.workers[w].pc == Settling(Requeue))
    ensures LedgerInv(cfg, s')
  {
    if events == [] {
      assert s'.log == s.log;
      ReleaseWorkers(s, w, how, Interrupted(s.workers[w].msg), s');
    } else {
      NoForeignNote(s.broker.published, s.db.jobs, s.log, events[0]);
      NoteKeepsJobs(cfg, s.db.jobs, s.log, events[0]);
      ReleaseWorkers(s, w, how, events[0], s');
    }
    forall n | n in s'.broker.published ensures MessageLedger(s', n) {
      ReleaseMessage(s, w, how, events, s', n);
    }
  }

  function ReleaseEvents(s: State, w: WorkerId, how: Settlement, note: Event): seq<Event> {
    if Attached(s, w) && how == Requeue then [note] else []
  }

  lemma SettleReleases(cfg: Config, s: State, w: WorkerId)
    requires Enabled(cfg, s, Settle(w))
    ensures var s', how := Apply(cfg, s, Settle(w)), s.workers[w].pc.how;
            && Releases(s, w, how, s')
            && s'.log == s.log + ReleaseEvents(s, w, how, Requeued(s.workers[w].msg))
  {
  }

  lemma AbortReleases(cfg: Config, s: State, w: WorkerId, cause: Cause)
    requires Enabled(cfg, s, Abort(w, cause))
    ensures var s' := Apply(cfg, s, Abort(w, cause));
            && Releases(s, w, Requeue, s')
            && s'.log == s.log + ReleaseEvents(s, w, Requeue, Interrupted(s.workers[w].msg))
  {
  }

  lemma LoseReleases(cfg: Config, s: State, w: WorkerId)
    requires Enabled(cfg, s, LoseConnection(w))
    ensures var s' := Apply(cfg, s, LoseConnection(w));
            && Releases(s, w, Requeue, s')
            && s'.log == s.log + ReleaseEvents(s, w, Requeue, Interrupted(s.workers[w].msg))
  {
  }

  lemma LedgerLetGo(cfg: Config, s: State, step: Step)
    requires MessageInv(s) && LedgerInv(cfg, s) && Enabled(cfg, s, step)
    requires step.Settle? || step.Abort? || step.LoseConnection?
    ensures LedgerInv(cfg, Apply(cfg, s, step))
  {
    var m := s.workers[step.w].msg;
    match step
    case Settle(w) =>
      SettleReleases(cfg, s, w);
      var how := s.workers[w].pc.how;
      LedgerRelease(cfg, s, w, how, ReleaseEvents(s, w, how, Requeued(m)), Apply(cfg, s, step));
    case Abort(w, cause) =>
      AbortReleases(cfg, s, w, cause);
      LedgerRelease(cfg, s, w, Requeue, ReleaseEvents(s, w, Requeue, Interrupted(m)), Apply(cfg, s, step));
    case LoseConnection(w) =>
      LoseReleases(cfg, s, w);
      LedgerRelease(cfg, s, w, Requeue, ReleaseEvents(s, w, Requeue, Interrupted(m)), Apply(cfg, s, step));
  }

  lemma LedgerAdvance(cfg: Config, s: State, w: WorkerId, work: Work)
    requires MessageInv(s) && Exclusive(s) && SessionInv(cfg, s) && LedgerInv(cfg, s)
    requires Enabled(cfg, s, Advance(w, work))
    ensures LedgerInv(cfg, Apply(cfg, s, Advance(w, work)))
  {
    NoForeignAdvance(cfg, s, w, work);
    JobsLedgerAdvance(cfg, s, w, work);
    WorkersLedgerAdvance(cfg, s, w, work);
    MessagesLedgerAdvance(cfg, s, w, work);
  }

  lemma LedgerStep(cfg: Config, s: State, step: Step)
    requires MessageInv(s) && Exclusive(s) && SessionInv(cfg, s) && RowsInv(cfg, s) && LedgerInv(cfg, s)
    requires Enabled(cfg, s, step)
    ensures LedgerInv(cfg, Apply(cfg, s, step))
  {
    match step
    case Enqueue(j, request) => LedgerEnqueue(cfg, s, j, request);
    case Stray(body) => LedgerStray(cfg, s, body);
    case Deliver(w, m) => LedgerDeliver(cfg, s, w, m);
    case Advance(w, work) => LedgerAdvance(cfg, s, w, work);
    case _ => LedgerLetGo(cfg, s, step);
  }
}
