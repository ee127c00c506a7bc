/** What every step keeps about messages: where they are, who holds them, which job they are for. */
module Messages {
  import opened Domain
  import opened Tables
  import opened JobRows
  import opened Protocol

  /** Every published message is in exactly one of ready, unacked, acked and dead-lettered. */
  predicate Conserved(b: Broker, now: Time) {
    && b.published == b.ready + b.unacked.Keys + b.acked + b.dead
    && b.ready !! b.unacked.Keys !! b.acked !! b.dead
    && forall m | m in b.published :: m.tag < now
  }

  /** Prefetch 1: an unacked message is the one its worker is busy with. */
  predicate Outstanding(b: Broker, workers: map<WorkerId, Worker>) {
    && (forall m | m in b.unacked ::
          b.unacked[m] in workers && workers[b.unacked[m]].Busy? && workers[b.unacked[m]].msg == m)
    && (forall w | w in workers && workers[w].Busy? :: workers[w].msg in b.published)
  }

  /** The message of an enqueue names its job and source, and no other message names that job. */
  predicate Routed(published: set<Message>, api: map<JobId, ApiPc>, jobs: map<JobId, Job>) {
    && api.Keys == jobs.Keys
    && (forall m | m in published && m.body.Valid? && m.body.job in jobs ::
          Sent(api[m.body.job]) == Some(m) && m.body.source == jobs[m.body.job].source)
    && (forall j | j in api && Sent(api[j]).Some? ::
          Sent(api[j]).value in published && Mentions(Sent(api[j]).value, j))
  }

  predicate MessageInv(s: State) {
    && Conserved(s.broker, s.now)
    && Outstanding(s.broker, s.workers)
    && Routed(s.broker.published, s.api, s.db.jobs)
  }

  lemma AcceptConserves(b: Broker, now: Time, body: Body)
    requires Conserved(b, now)
    ensures Conserved(Accept(b, Message(now, body)), now + 1)
  {
  }

  lemma DeliveranceConserves(b: Broker, now: Time, m: Message, w: WorkerId)
    requires Conserved(b, now) && m in b.ready
    ensures Conserved(Deliverance(b, m, w), now + 1)
  {
  }

  lemma SettleConserves(b: Broker, now: Time, m: Message, how: Settlement)
    requires Conserved(b, now) && m in b.unacked
    ensures Conserved(SettleMessage(b, m, how), now + 1)
  {
  }

  lemma ConservedStep(cfg: Config, s: State, step: Step)
    requires Conserved(s.broker, s.now) && Enabled(cfg, s, step)
    ensures Conserved(Apply(cfg, s, step).broker, s.now + 1)
  {
    var b := s.broker;
    match step
    case Enqueue(j, request) =>
      if j in s.db.jobs {
        AcceptConserves(b, s.now, Valid(j, s.db.jobs[j].source));
      }
    case Stray(body) => AcceptConserves(b, s.now, body);
    case Deliver(w, m) => DeliveranceConserves(b, s.now, m, w);
    case Advance(_, _) =>
    case Settle(w) =>
      if Attached(s, w) {
        SettleConserves(b, s.now, s.workers[w].msg, s.workers[w].pc.how);
      }
    case Abort(w, _) =>
      if Attached(s, w) {
        SettleConserves(b, s.now, s.workers[w].msg, Requeue);
      }
    case LoseConnection(w) => SettleConserves(b, s.now, s.workers[w].msg, Requeue);
  }

  lemma OutstandingWorker(b: Broker, workers: map<WorkerId, Worker>, w: WorkerId, m: Message, pc: Pc)
    requires Outstanding(b, workers) && w in workers && workers[w].Busy? && workers[w].msg == m
    ensures Outstanding(b, workers[w := Busy(m, pc)])
  {
  }

  lemma OutstandingDelivery(b: Broker, now: Time, workers: map<WorkerId, Worker>, w: WorkerId, m: Message)
    requires Conserved(b, now) && Outstanding(b, workers) && w in workers && workers[w].Idle? && m in b.ready
    ensures Outstanding(Deliverance(b, m, w), workers[w := Busy(m, Received)])
  {
  }

  lemma OutstandingRelease(b: Broker, workers: map<WorkerId, Worker>, w: WorkerId, how: Settlement)
    requires Outstanding(b, workers) && w in workers && workers[w].Busy?
    ensures var m := workers[w].msg;
            var b' := if m in b.unacked && b.unacked[m] == w then SettleMessage(b, m, how) else b;
            Outstanding(b', workers) && Outstanding(b', workers[w := Idle])
  {
  }

  lemma OutstandingStep(cfg: Config, s: State, step: Step)
    requires Conserved(s.broker, s.now) && Outstanding(s.broker, s.workers) && Enabled(cfg, s, step)
    ensures Outstanding(Apply(cfg, s, step).broker, Apply(cfg, s, step).workers)
  {
    match step
    case Enqueue(_, _) =>
    case Stray(_) =>
    case Deliver(w, m) => OutstandingDelivery(s.broker, s.now, s.workers, w, m);
    case Advance(w, work) =>
      OutstandingWorker(s.broker, s.workers, w, s.workers[w].msg, Apply(cfg, s, step).workers[w].pc);
    case Settle(w) => OutstandingRelease(s.broker, s.workers, w, s.workers[w].pc.how);
    case Abort(w, _) => OutstandingRelease(s.broker, s.workers, w, Requeue);
    case LoseConnection(w) => OutstandingRelease(s.broker, s.workers, w, Requeue);
  }

  /** A request changes its own job's row and progress and adds at most that job's message. */
  lemma RequestFrame(s: State, j: JobId, request: Request)
    requires RequestEnabled(s, j, request)
    ensures var s' := Requested(s, j, request);
            && s'.workers == s.workers && s'.log == s.log
            && s'.db.hockey == s.db.hockey && s'.db.oscar == s.db.oscar
            && s'.db.jobs.Keys == s.db.jobs.Keys + (if request.Create? then {j} else {})
            && (forall k | k in s.db.jobs && k != j :: s'.db.jobs[k] == s.db.jobs[k])
            && (j in s.db.jobs ==>
                  s'.db.jobs[j].attempts == s.db.jobs[j].attempts && s'.db.jobs[j].source == s.db.jobs[j].source)
            && (forall k | k in s.api && k != j :: k in s'.api && s'.api[k] == s.api[k])
            && s'.broker.unacked == s.broker.unacked
            && s'.broker.acked == s.broker.acked && s'.broker.dead == s.broker.dead
            && (s'.broker.published == s.broker.published
                || (j in s.db.jobs
                    && s'.broker.published == s.broker.published + {Message(s.now, Valid(j, s.db.jobs[j].source))}))
  {
  }

  /** A worker's step changes at most the row of its own job, and never that row's source. */
  lemma WorkFrame(cfg: Config, db: Db, now: Time, body: Body, pc: Pc, work: Work)
    requires WorkEnabled(db, body, pc, work)
    ensures var jobs := Worked(cfg, db, now, body, pc, work).db.jobs;
            && jobs.Keys == db.jobs.Keys
            && (forall k | k in db.jobs :: jobs[k].source == db.jobs[k].source)
            && (forall k | k in db.jobs && !(body.Valid? && k == body.job) :: jobs[k] == db.jobs[k])
  {
  }

  lemma RoutedFrame(published: set<Message>, api: map<JobId, ApiPc>, jobs: map<JobId, Job>, jobs': map<JobId, Job>)
    requires Routed(published, api, jobs)
    requires jobs'.Keys == jobs.Keys && forall k | k in jobs :: jobs'[k].source == jobs[k].source
    ensures Routed(published, api, jobs')
  {
  }

  lemma RoutedRequest(s: State, j: JobId, request: Request)
    requires Routed(s.broker.published, s.api, s.db.jobs) && RequestEnabled(s, j, request)
    ensures var s' := Requested(s, j, request); Routed(s'.broker.published, s'.api, s'.db.jobs)
  {
  }

  lemma RoutedStep(cfg: Config, s: State, step: Step)
    requires MessageInv(s) && Enabled(cfg, s, step)
    ensures var s' := Apply(cfg, s, step); Routed(s'.broker.published, s'.api, s'.db.jobs)
  {
    match step
    case Enqueue(j, request) => RoutedRequest(s, j, request);
    case Stray(_) =>
    case Deliver(_, _) =>
    case Advance(w, work) =>
      var worker := s.workers[w];
      WorkFrame(cfg, s.db, s.now, worker.msg.body, worker.pc, work);
      RoutedFrame(s.broker.published, s.api, s.db.jobs, Apply(cfg, s, step).db.jobs);
    case Settle(_) =>
    case Abort(_, _) =>
    case LoseConnection(_) =>
  }

  lemma MessageInvStep(cfg: Config, s: State, step: Step)
    requires MessageInv(s) && Enabled(cfg, s, step)
    ensures MessageInv(Apply(cfg, s, step))
  {
    ConservedStep(cfg, s, step);
    OutstandingStep(cfg, s, step);
    RoutedStep(cfg, s, step);
  }
}
