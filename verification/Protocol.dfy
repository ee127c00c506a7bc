/**
 * The crawl-job protocol as a state machine: API requests that enqueue jobs, the broker, and any
 * number of workers, each step as small as the code's own commits and broker calls.
 */
module Protocol {
  import opened Domain
  import opened Tables
  import opened JobRows

  /** `settings.crawl_max_attempts`. */
  datatype Config = Config(maxAttempts: int)

  /**
   * The queue and its dead-letter queue. `unacked` records which worker's connection a delivered
   * message is outstanding on.
   */
  datatype Broker = Broker(
    ready: set<Message>,
    unacked: map<Message, WorkerId>,
    acked: set<Message>,
    dead: set<Message>,
    published: set<Message>)

  /** The job object a session holds, and the values it last loaded or flushed. */
  datatype JobCopy = JobCopy(base: Job, job: Job)

  /** Where a worker is inside `_on_message` and `process`. */
  datatype Pc =
    | Received
    | Loaded(ses: JobCopy)
    | Crawling(ses: JobCopy, done: nat, records: nat, errors: seq<CrawlError>)
    | Persisting(ses: JobCopy, done: nat, records: nat, errors: seq<CrawlError>, result: CrawlResult)
    | Marked(ses: JobCopy, outcome: Outcome)
    | Settling(how: Settlement)

  datatype Worker = Idle | Busy(msg: Message, pc: Pc)

  /** Where the request that created a job is; `taken` is the message the broker accepted, if any. */
  datatype ApiPc =
    | Created
    | Done(msg: Message)
    | PublishRaised(taken: Option<Message>)
    | MarkedFailed(taken: Option<Message>)
    | Died(taken: Option<Message>)

  /** History: what was committed for a job or happened to a message, in order. */
  datatype Event =
    | Started(job: JobId)
    | Stored(job: JobId, crawler: Source, result: CrawlResult)
    | CompletedEvent(job: JobId)
    | RetriedEvent(job: JobId)
    | FailedEvent(job: JobId)
    | Delivered(msg: Message)
    | Requeued(msg: Message)
    | Interrupted(msg: Message)

  /** `log` and `stamps` are history; `stamps` says for which job a finish time was read when. */
  datatype State = State(
    db: Db,
    broker: Broker,
    workers: map<WorkerId, Worker>,
    api: map<JobId, ApiPc>,
    now: Time,
    log: seq<Event>,
    stamps: map<Time, JobId>)

  /** The steps of one enqueue request. */
  datatype Request =
    | Create(source: Source)
    | Publish
    | RejectPublish
    | AmbiguousPublish
    | MarkPublishFailure(detail: string)
    | Die

  /** The steps of `_on_message` up to its settlement. */
  datatype Work =
    | Read
    | CommitStart
    | CrawlerReturns(o: CrawlOutcome)
    | CommitSection
    | MarkOutcome
    | CommitOutcome

  datatype Cause = WorkerCrash | UnexpectedError

  datatype Step =
    | Enqueue(j: JobId, request: Request)
    | Stray(body: Body)
    | Deliver(w: WorkerId, m: Message)
    | Advance(w: WorkerId, work: Work)
    | Settle(w: WorkerId)
    | Abort(w: WorkerId, cause: Cause)
    | LoseConnection(w: WorkerId)

  function Init(ws: set<WorkerId>): State {
    State(Db(map[], [], []), Broker({}, map[], {}, {}, {}), map w | w in ws :: Idle, map[], 0, [], map[])
  }

  // ----- the enqueue request -----

  /** The broker message of an enqueue, when the broker took one. */
  function Sent(pc: ApiPc): Option<Message> {
    match pc
    case Created => None
    case Done(m) => Some(m)
    case PublishRaised(t) => t
    case MarkedFailed(t) => t
    case Died(t) => t
  }

  predicate Mentions(m: Message, j: JobId) {
    m.body.Valid? && m.body.job == j
  }

  predicate RequestEnabled(s: State, j: JobId, request: Request) {
    match request
    case Create(_) =>
      j !in s.db.jobs && j !in s.api && forall m | m in s.broker.published :: !Mentions(m, j)
    case Publish => j in s.api && s.api[j].Created? && j in s.db.jobs
    case RejectPublish => j in s.api && s.api[j].Created?
    case AmbiguousPublish => j in s.api && s.api[j].Created? && j in s.db.jobs
    case MarkPublishFailure(_) => j in s.api && s.api[j].PublishRaised? && j in s.db.jobs
    case Die => j in s.api && (s.api[j].Created? || s.api[j].PublishRaised?)
  }

  function Accept(b: Broker, m: Message): Broker {
    b.(ready := b.ready + {m}, published := b.published + {m})
  }

  function SetRow(db: Db, j: JobId, row: Job): Db {
    db.(jobs := db.jobs[j := row])
  }

  /** The API session still holds the job as it created it, so only three columns are written. */
  function PublishFailureRow(row: Job, detail: string, now: Time): Job {
    var base := NewJob(row.source, row.createdAt);
    Flush(row, base, MarkFailed(base, PublishFailed(detail), now))
  }

  /** `enqueue`: the pending row is committed before the message is published. */
  function Requested(s: State, j: JobId, request: Request): State
    requires RequestEnabled(s, j, request)
  {
    match request
    case Create(source) => s.(db := SetRow(s.db, j, NewJob(source, s.now)), api := s.api[j := Created])
    case Publish =>
      var m := Message(s.now, Valid(j, s.db.jobs[j].source));
      s.(broker := Accept(s.broker, m), api := s.api[j := Done(m)])
    case RejectPublish => s.(api := s.api[j := PublishRaised(None)])
    case AmbiguousPublish =>
      var m := Message(s.now, Valid(j, s.db.jobs[j].source));
      s.(broker := Accept(s.broker, m), api := s.api[j := PublishRaised(Some(m))])
    case MarkPublishFailure(detail) =>
      s.(db := SetRow(s.db, j, PublishFailureRow(s.db.jobs[j], detail, s.now)),
         api := s.api[j := MarkedFailed(s.api[j].taken)],
         stamps := s.stamps[s.now := j])
    case Die => s.(api := s.api[j := Died(Sent(s.api[j]))])
  }

  // ----- the worker -----

  predicate HasSession(pc: Pc) {
    pc.Loaded? || pc.Crawling? || pc.Persisting? || pc.Marked?
  }

  function Crawlers(pc: Pc): seq<Source>
    requires HasSession(pc)
  {
    Registry(pc.ses.job.source)
  }

  predicate WorkEnabled(db: Db, body: Body, pc: Pc, work: Work) {
    if work.Read? then pc.Received?
    else
      && body.Valid?
      && body.job in db.jobs
      && match work
         case Read => false
         case CommitStart => pc.Loaded?
         case CrawlerReturns(o) =>
           && pc.Crawling?
           && pc.done < |Crawlers(pc)|
           && (o.Crawled? ==> FillsOwnSection(Crawlers(pc)[pc.done], o.result))
         case CommitSection => pc.Persisting? && pc.done < |Crawlers(pc)|
         case MarkOutcome => pc.Crawling? && pc.done == |Crawlers(pc)|
         case CommitOutcome => pc.Marked?
  }

  /** What a step of `_on_message` does: where it leads, what it commits, what it records. */
  datatype Effect = Effect(pc: Pc, db: Db, events: seq<Event>)

  /** Validation, `jobs.get`, the two skip branches, and `mark_running` on the loaded object. */
  function ReadPc(db: Db, body: Body, now: Time): Pc {
    if body.Invalid? then Settling(DeadLetter)
    else if body.job !in db.jobs || db.jobs[body.job].status == Completed then
      Settling(SettlementOf(SkippedOutcome))
    else
      var row := db.jobs[body.job];
      Loaded(JobCopy(row, MarkRunning(row, now)))
  }

  /** `session.commit()` for a session whose job object changed. */
  function FlushJob(db: Db, j: JobId, ses: JobCopy): Db
    requires j in db.jobs
  {
    SetRow(db, j, Flush(db.jobs[j], ses.base, ses.job))
  }

  /** `process` after the crawler loop, and the retry decision of `_handle_failure`. */
  function Decide(cfg: Config, job: Job, records: nat, errors: seq<CrawlError>, now: Time): (Outcome, Job) {
    if errors == [] then (CompletedOutcome, MarkCompleted(job, records, now))
    else if job.attempts >= cfg.maxAttempts then (FailedOutcome, MarkFailed(job, CrawlFailed(errors), now))
    else (RetryOutcome, MarkPendingRetry(job, CrawlFailed(errors)))
  }

  function OutcomeEvents(outcome: Outcome, j: JobId): seq<Event> {
    match outcome
    case CompletedOutcome => [CompletedEvent(j)]
    case RetryOutcome => [RetriedEvent(j)]
    case FailedOutcome => [FailedEvent(j)]
    case SkippedOutcome => []
  }

  function Worked(cfg: Config, db: Db, now: Time, body: Body, pc: Pc, work: Work): Effect
    requires WorkEnabled(db, body, pc, work)
  {
    match work
    case Read => Effect(ReadPc(db, body, now), db, [])
    case CommitStart =>
      var job := pc.ses.job;
      Effect(Crawling(JobCopy(job, job), 0, 0, []), FlushJob(db, body.job, pc.ses), [Started(body.job)])
    case CrawlerReturns(Crawled(result)) =>
      Effect(Persisting(pc.ses, pc.done, pc.records, pc.errors, result), db, [])
    case CrawlerReturns(Raised(detail)) =>
      var error := CrawlError(Crawlers(pc)[pc.done], detail);
      Effect(Crawling(pc.ses, pc.done + 1, pc.records, pc.errors + [error]), db, [])
    case CommitSection =>
      var records := pc.records + |pc.result.hockey| + |pc.result.oscar|;
      Effect(Crawling(pc.ses, pc.done + 1, records, pc.errors),
             Persist(db, body.job, pc.result),
             [Stored(body.job, Crawlers(pc)[pc.done], pc.result)])
    case MarkOutcome =>
      var (outcome, job) := Decide(cfg, pc.ses.job, pc.records, pc.errors, now);
      Effect(Marked(JobCopy(pc.ses.base, job), outcome), db, [])
    case CommitOutcome =>
      Effect(Settling(SettlementOf(pc.outcome)),
             FlushJob(db, body.job, pc.ses),
             OutcomeEvents(pc.outcome, body.job))
  }

  // ----- the broker -----

  predicate IsBusy(s: State, w: WorkerId) {
    w in s.workers && s.workers[w].Busy?
  }

  /** The worker still owns the delivery: its connection has not been lost. */
  predicate Attached(s: State, w: WorkerId) {
    IsBusy(s, w) && s.workers[w].msg in s.broker.unacked && s.broker.unacked[s.workers[w].msg] == w
  }

  /** The message is outstanding on a worker that has reached `pc`. */
  predicate HeldAt(s: State, m: Message, pc: Pc) {
    m in s.broker.unacked && IsBusy(s, s.broker.unacked[m]) && s.workers[s.broker.unacked[m]].pc == pc
  }

  predicate InProcess(s: State, w: WorkerId) {
    IsBusy(s, w) && !s.workers[w].pc.Settling?
  }

  function Deliverance(b: Broker, m: Message, w: WorkerId): Broker {
    b.(ready := b.ready - {m}, unacked := b.unacked[m := w])
  }

  function SettleMessage(b: Broker, m: Message, how: Settlement): Broker {
    var unacked := b.unacked - {m};
    match how
    case Ack => b.(unacked := unacked, acked := b.acked + {m})
    case Requeue => b.(unacked := unacked, ready := b.ready + {m})
    case DeadLetter => b.(unacked := unacked, dead := b.dead + {m})
  }

  /** A settlement on a lost connection raises and changes nothing at the broker. */
  function SettleBroker(s: State, w: WorkerId, how: Settlement): Broker
    requires IsBusy(s, w)
  {
    if Attached(s, w) then SettleMessage(s.broker, s.workers[w].msg, how) else s.broker
  }

  function Note(s: State, w: WorkerId, event: Event): seq<Event> {
    if Attached(s, w) then s.log + [event] else s.log
  }

  // ----- steps and runs -----

  predicate Enabled(cfg: Config, s: State, step: Step) {
    match step
    case Enqueue(j, request) => RequestEnabled(s, j, request)
    case Stray(body) => body.Valid? ==> body.job !in s.db.jobs
    case Deliver(w, m) => w in s.workers && s.workers[w].Idle? && m in s.broker.ready
    case Advance(w, work) => IsBusy(s, w) && WorkEnabled(s.db, s.workers[w].msg.body, s.workers[w].pc, work)
    case Settle(w) => IsBusy(s, w) && s.workers[w].pc.Settling?
    case Abort(w, cause) =>
      IsBusy(s, w) && (cause.UnexpectedError? ==> InProcess(s, w) && s.workers[w].msg.body.Valid?)
    case LoseConnection(w) => Attached(s, w)
  }

  function Act(cfg: Config, s: State, step: Step): State
    requires Enabled(cfg, s, step)
  {
    match step
    case Enqueue(j, request) => Requested(s, j, request)
    case Stray(body) => s.(broker := Accept(s.broker, Message(s.now, body)))
    case Deliver(w, m) =>
      s.(broker := Deliverance(s.broker, m, w),
         workers := s.workers[w := Busy(m, Received)],
         log := s.log + [Delivered(m)])
    case Advance(w, work) =>
      var m := s.workers[w].msg;
      var e := Worked(cfg, s.db, s.now, m.body, s.workers[w].pc, work);
      s.(workers := s.workers[w := Busy(m, e.pc)],
         db := e.db,
         log := s.log + e.events,
         stamps := if work == MarkOutcome then s.stamps[s.now := m.body.job] else s.stamps)
    case Settle(w) =>
      var how := s.workers[w].pc.how;
      s.(broker := SettleBroker(s, w, how),
         workers := s.workers[w := Idle],
         log := if how == Requeue then Note(s, w, Requeued(s.workers[w].msg)) else s.log)
    case Abort(w, _) =>
      s.(broker := SettleBroker(s, w, Requeue),
         workers := s.workers[w := Idle],
         log := Note(s, w, Interrupted(s.workers[w].msg)))
    case LoseConnection(w) =>
      s.(broker := SettleBroker(s, w, Requeue),
         log := Note(s, w, Interrupted(s.workers[w].msg)))
  }

  /** One step; the clock is strictly increasing. */
  function Apply(cfg: Config, s: State, step: Step): State
    requires Enabled(cfg, s, step)
  {
    Act(cfg, s, step).(now := s.now + 1)
  }

  /** A delivery overlaps when a worker that lost its connection is still processing the message. */
  predicate Overlaps(s: State, step: Step) {
    && step.Deliver?
    && step.m.body.Valid?
    && exists w | w in s.workers :: InProcess(s, w) && s.workers[w].msg == step.m
  }

  predicate IsRun(cfg: Config, s: State, steps: seq<Step>)
    decreases |steps|
  {
    steps == [] || (Enabled(cfg, s, steps[0]) && IsRun(cfg, Apply(cfg, s, steps[0]), steps[1..]))
  }

  function Final(cfg: Config, s: State, steps: seq<Step>): State
    requires IsRun(cfg, s, steps)
    decreases |steps|
  {
    if steps == [] then s else Final(cfg, Apply(cfg, s, steps[0]), steps[1..])
  }

  /** A run in which no delivery overlaps. */
  predicate NoOverlap(cfg: Config, s: State, steps: seq<Step>)
    requires IsRun(cfg, s, steps)
    decreases |steps|
  {
    steps == [] || (!Overlaps(s, steps[0]) && NoOverlap(cfg, Apply(cfg, s, steps[0]), steps[1..]))
  }
}
