/** What every reachable state and every run of the crawl-job protocol guarantees. */
module Guarantees {
  import opened Domain
  import opened Tables
  import opened JobRows
  import opened Protocol
  import opened Messages
  import opened Sessions
  import opened Lifecycle
  import opened Ledger
  import opened Results
  import opened Snapshot
  import opened Invariant

  // ----- messages -----

  /** No message is lost or duplicated in any run, however often it is requeued, redelivered or overlaps. */
  lemma MessageConservation(cfg: Config, ws: set<WorkerId>, steps: seq<Step>, m: Message)
    requires IsRun(cfg, Init(ws), steps)
    ensures var s := Final(cfg, Init(ws), steps);
            && (m in s.broker.published <==>
                  m in s.broker.ready || m in s.broker.unacked || m in s.broker.acked || m in s.broker.dead)
            && Indicator(m in s.broker.published) ==
                 Indicator(m in s.broker.ready) + Indicator(m in s.broker.unacked)
                   + Indicator(m in s.broker.acked) + Indicator(m in s.broker.dead)
            && (m in s.broker.unacked ==>
                  forall w | w in s.workers :: Attached(s, w) && s.workers[w].msg == m <==> w == s.broker.unacked[m])
  {
    InitInv(cfg, ws);
    AnyRun(cfg, Init(ws), steps);
  }

  /** In any run, the one message that names a job is the one its enqueue got accepted, with the job's source. */
  lemma OneMessagePerJob(cfg: Config, ws: set<WorkerId>, steps: seq<Step>, j: JobId, m: Message)
    requires IsRun(cfg, Init(ws), steps) && j in Final(cfg, Init(ws), steps).db.jobs
    ensures var s := Final(cfg, Init(ws), steps);
            && j in s.api
            && (m in s.broker.published && Mentions(m, j) <==> Sent(s.api[j]) == Some(m))
            && (Sent(s.api[j]) == Some(m) ==> m.body == Valid(j, s.db.jobs[j].source))
  {
    InitInv(cfg, ws);
    AnyRun(cfg, Init(ws), steps);
  }

  /** At most one worker can change a job or settle its message. */
  lemma MutualExclusion(cfg: Config, s: State, w1: WorkerId, w2: WorkerId, j: JobId)
    requires Reachable(cfg, s)
    requires j in s.db.jobs && w1 in s.workers && w2 in s.workers
    requires Active(s, w1) && Mentions(s.workers[w1].msg, j)
    requires Active(s, w2) && Mentions(s.workers[w2].msg, j)
    ensures w1 == w2
  {
    ReachableInv(cfg, s);
  }

  /** Two workers inside `process` for the same message. */
  ghost predicate Clash(s: State) {
    exists w1, w2 :: w1 != w2 && InProcess(s, w1) && InProcess(s, w2)
      && s.workers[w1].msg == s.workers[w2].msg && s.workers[w1].msg.body.Valid?
  }

  /** Mutual exclusion survives a step exactly when the step is not an overlapping delivery. */
  lemma ExclusionIffNoOverlap(cfg: Config, s: State, step: Step)
    requires Reachable(cfg, s) && Enabled(cfg, s, step)
    ensures Clash(Apply(cfg, s, step)) <==> Overlaps(s, step)
  {
    ReachableInv(cfg, s);
    var s' := Apply(cfg, s, step);
    if Overlaps(s, step) {
      var w :| w in s.workers && InProcess(s, w) && s.workers[w].msg == step.m;
      assert InProcess(s', step.w) && InProcess(s', w) && w != step.w;
    } else {
      ExclusiveStep(cfg, s, step);
    }
  }

  // ----- no job is lost -----

  predicate InsideEnqueue(pc: ApiPc) {
    pc.Created? || pc.PublishRaised?
  }

  predicate Unfinished(row: Job) {
    row.status == Pending || row.status == Running
  }

  /** Some message that will still be processed names the job. */
  predicate HasLiveMessage(s: State, j: JobId) {
    exists m | m in s.broker.ready + s.broker.unacked.Keys :: Mentions(m, j)
  }

  /**
   * An unfinished job outside its enqueue is stranded exactly when the API died between creating it
   * and publishing its message; then it stays as created.
   */
  lemma LostIffApiDied(cfg: Config, s: State, j: JobId)
    requires Reachable(cfg, s) && j in s.db.jobs
    ensures j in s.api
    ensures Unfinished(s.db.jobs[j]) && !InsideEnqueue(s.api[j]) && !HasLiveMessage(s, j) <==> s.api[j] == Died(None)
    ensures s.api[j] == Died(None) ==> s.db.jobs[j] == NewJob(s.db.jobs[j].source, s.db.jobs[j].createdAt)
  {
    ReachableInv(cfg, s);
    LostIff(cfg, s, j);
  }

  lemma LostIff(cfg: Config, s: State, j: JobId)
    requires MessageInv(s) && RowsInv(cfg, s) && SettledInv(cfg, s) && j in s.db.jobs
    ensures j in s.api
    ensures Unfinished(s.db.jobs[j]) && !InsideEnqueue(s.api[j]) && !HasLiveMessage(s, j) <==> s.api[j] == Died(None)
    ensures s.api[j] == Died(None) ==> s.db.jobs[j] == NewJob(s.db.jobs[j].source, s.db.jobs[j].createdAt)
  {
    assert RowInv(cfg, s.db.jobs[j], s.api[j]);
    if Sent(s.api[j]).Some? {
      SentIsLiveOrSettled(cfg, s, j);
    } else {
      UnsentHasNoMessage(s, j);
    }
  }

  lemma SentIsLiveOrSettled(cfg: Config, s: State, j: JobId)
    requires MessageInv(s) && SettledInv(cfg, s) && j in s.db.jobs && Sent(s.api[j]).Some?
    ensures HasLiveMessage(s, j) || !Unfinished(s.db.jobs[j])
  {
    var m := Sent(s.api[j]).value;
    assert SettledMessage(cfg, s, m);
    assert Mentions(m, j);
  }

  lemma UnsentHasNoMessage(s: State, j: JobId)
    requires MessageInv(s) && j in s.db.jobs && Sent(s.api[j]).None?
    ensures !HasLiveMessage(s, j)
  {
    forall m | m in s.broker.published ensures !Mentions(m, j) {
    }
  }

  /** With the queue drained and no request in progress, every job whose API did not die is finished. */
  lemma DrainedMeansFinished(cfg: Config, s: State, j: JobId)
    requires Reachable(cfg, s) && j in s.db.jobs
    requires s.broker.ready == {} && s.broker.unacked == map[]
    requires j in s.api && !InsideEnqueue(s.api[j]) && s.api[j] != Died(None)
    ensures s.db.jobs[j].status == Completed || s.db.jobs[j].status == Failed
  {
    LostIffApiDied(cfg, s, j);
  }

  // ----- settlement -----

  /** An acked message has a completed job, a dead-lettered one a job that failed with its attempts exhausted. */
  lemma SettledMeansFinal(cfg: Config, s: State, m: Message)
    requires Reachable(cfg, s) && m.body.Valid? && m.body.job in s.db.jobs
    ensures m.body.job in s.api
    ensures m in s.broker.acked && Clean(s.api[m.body.job]) ==> s.db.jobs[m.body.job].status == Completed
    ensures m in s.broker.acked && !Clean(s.api[m.body.job]) ==> s.db.jobs[m.body.job].status in {Completed, Failed}
    ensures m in s.broker.dead ==>
            var row := s.db.jobs[m.body.job];
            row.status == Failed && row.attempts >= 1 && row.attempts >= cfg.maxAttempts
  {
    ReachableInv(cfg, s);
    assert s.db.jobs.Keys == s.api.Keys;
    if m in s.broker.published {
      assert SettledMessage(cfg, s, m);
    }
  }

  /** Everything the API reports about a job. */
  predicate SameJob(db: Db, db': Db, j: JobId) {
    && j in db.jobs && j in db'.jobs && db'.jobs[j] == db.jobs[j]
    && RowsOf(db'.hockey, j) == RowsOf(db.hockey, j)
    && RowsOf(db'.oscar, j) == RowsOf(db.oscar, j)
  }

  /** The message of `j` has left the queue for good and its enqueue cannot write any more. */
  predicate SettledJob(s: State, j: JobId) {
    && j in s.db.jobs && j in s.api && !s.api[j].PublishRaised?
    && Sent(s.api[j]).Some?
    && (Sent(s.api[j]).value in s.broker.acked || Sent(s.api[j]).value in s.broker.dead)
  }

  /** The enqueue of `j` is past publishing, no live message names `j`, and nobody is processing one that does. */
  predicate Dormant(s: State, j: JobId) {
    && j in s.db.jobs && j in s.api && !s.api[j].Created?
    && (forall m | m in s.broker.ready :: !Mentions(m, j))
    && (forall m | m in s.broker.unacked :: !Mentions(m, j))
    && (forall w | w in s.workers && InProcess(s, w) :: !Mentions(s.workers[w].msg, j))
  }

  /** The step is the compensating write of the enqueue of `j`. */
  predicate Compensates(step: Step, j: JobId) {
    step.Enqueue? && step.request.MarkPublishFailure? && step.j == j
  }

  lemma WorkSameJob(cfg: Config, db: Db, now: Time, m: Message, pc: Pc, work: Work, j: JobId)
    requires WorkEnabled(db, m.body, pc, work) && j in db.jobs && !Mentions(m, j)
    ensures SameJob(db, Worked(cfg, db, now, m.body, pc, work).db, j)
  {
    WorkFrame(cfg, db, now, m.body, pc, work);
    if work == CommitSection {
      PersistEffect(db, m.body.job, pc.result, j);
    }
  }

  lemma DormantRequest(s: State, i: JobId, request: Request, j: JobId)
    requires Dormant(s, j) && RequestEnabled(s, i, request)
    ensures Dormant(Requested(s, i, request), j)
    ensures i != j ==> Requested(s, i, request).api[j] == s.api[j]
    ensures SameJob(s.db, Requested(s, i, request).db, j) || (i == j && request.MarkPublishFailure?)
  {
  }

  lemma DormantRelease(s: State, w: WorkerId, how: Settlement, j: JobId)
    requires Dormant(s, j) && IsBusy(s, w)
    ensures var b := SettleBroker(s, w, how);
            (forall m | m in b.ready :: !Mentions(m, j)) && (forall m | m in b.unacked :: !Mentions(m, j))
  {
  }

  lemma DormantAdvance(cfg: Config, s: State, w: WorkerId, work: Work, j: JobId)
    requires Dormant(s, j) && Enabled(cfg, s, Advance(w, work))
    ensures Dormant(Apply(cfg, s, Advance(w, work)), j)
    ensures SameJob(s.db, Apply(cfg, s, Advance(w, work)).db, j)
  {
    assert InProcess(s, w);
    WorkSameJob(cfg, s.db, s.now, s.workers[w].msg, s.workers[w].pc, work, j);
  }

  /** Only the compensating write touches a dormant job, and nothing wakes it. */
  lemma DormantStep(cfg: Config, s: State, step: Step, j: JobId)
    requires Dormant(s, j) && Enabled(cfg, s, step)
    ensures Dormant(Apply(cfg, s, step), j)
    ensures SameJob(s.db, Apply(cfg, s, step).db, j) || (Compensates(step, j) && s.api[j].PublishRaised?)
    ensures !s.api[j].PublishRaised? ==> Apply(cfg, s, step).api[j] == s.api[j]
  {
    match step
    case Enqueue(i, request) => DormantRequest(s, i, request, j);
    case Stray(_) =>
    case Deliver(_, _) =>
    case Advance(w, work) => DormantAdvance(cfg, s, w, work, j);
    case Settle(w) => DormantRelease(s, w, s.workers[w].pc.how, j);
    case Abort(w, _) => DormantRelease(s, w, Requeue, j);
    case LoseConnection(w) => DormantRelease(s, w, Requeue, j);
  }

  lemma {:induction false} DormantAlongRun(cfg: Config, s: State, steps: seq<Step>, j: JobId)
    requires Dormant(s, j) && IsRun(cfg, s, steps)
    ensures Dormant(Final(cfg, s, steps), j)
    ensures !s.api[j].PublishRaised? ==> SameJob(s.db, Final(cfg, s, steps).db, j)
    decreases |steps|
  {
    if steps != [] {
      DormantStep(cfg, s, steps[0], j);
      DormantAlongRun(cfg, Apply(cfg, s, steps[0]), steps[1..], j);
    }
  }

  lemma SettledIsDormant(s: State, j: JobId)
    requires MessageInv(s) && Exclusive(s) && SettledJob(s, j)
    ensures Dormant(s, j)
  {
  }

  /** Past publishing and without a live message a job is dormant. */
  lemma NotLiveIsDormant(s: State, j: JobId)
    requires MessageInv(s) && Exclusive(s)
    requires j in s.db.jobs && j in s.api && !s.api[j].Created? && !HasLiveMessage(s, j)
    ensures Dormant(s, j)
  {
    assert forall m | m in s.broker.ready || m in s.broker.unacked :: m in s.broker.ready + s.broker.unacked.Keys;
  }

  /** Once a message is settled, its job's row and results never change again, whatever overlaps from then on. */
  lemma SettledForever(cfg: Config, s: State, steps: seq<Step>, j: JobId)
    requires Reachable(cfg, s) && SettledJob(s, j) && IsRun(cfg, s, steps)
    ensures SameJob(s.db, Final(cfg, s, steps).db, j)
  {
    ReachableInv(cfg, s);
    SettledIsDormant(s, j);
    DormantAlongRun(cfg, s, steps, j);
  }

  // ----- bounded retries -----

  /** `max(1, max_attempts)`. */
  function AttemptLimit(cfg: Config): nat {
    if cfg.maxAttempts <= 1 then 1 else cfg.maxAttempts
  }

  /**
   * A message is delivered at most `max(1, max_attempts)` times plus once per interruption, and the
   * persisted counter, which crashes do not reset, never exceeds its deliveries.
   */
  lemma DeliveryBound(cfg: Config, s: State, m: Message)
    requires Reachable(cfg, s) && m in s.broker.published
    ensures Count(s.log, Delivered(m)) <= AttemptLimit(cfg) + Count(s.log, Interrupted(m))
    ensures m.body.Invalid? || m.body.job !in s.db.jobs ==>
            Count(s.log, Delivered(m)) <= 1 + Count(s.log, Interrupted(m))
  {
    ReachableInv(cfg, s);
    assert DeliveryLedger(s.broker, s.log, m);
    assert MessageLedger(s, m);
    if m.body.Valid? {
      if m.body.job in s.db.jobs {
        assert JobLedger(cfg, s.db.jobs[m.body.job], s.log, m.body.job);
      } else {
        CountAbsent(s.log, RetriedEvent(m.body.job));
      }
    }
  }

  lemma AttemptBound(cfg: Config, s: State, j: JobId)
    requires Reachable(cfg, s) && j in s.db.jobs
    ensures Retries(s.log, j) <= RetryLimit(cfg)
    ensures s.db.jobs[j].attempts == Count(s.log, Started(j))
    ensures j in s.api
    ensures match Sent(s.api[j])
            case None => s.db.jobs[j].attempts == 0
            case Some(m) => s.db.jobs[j].attempts <= AttemptLimit(cfg) + Count(s.log, Interrupted(m))
  {
    ReachableInv(cfg, s);
    assert JobLedger(cfg, s.db.jobs[j], s.log, j);
    assert RowInv(cfg, s.db.jobs[j], s.api[j]);
    if Sent(s.api[j]).Some? {
      var m := Sent(s.api[j]).value;
      DeliveryBound(cfg, s, m);
      assert MessageLedger(s, m);
    }
  }

  // ----- the job row -----

  /**
   * What each status means for every job. One that an ambiguous publish has overwritten may carry that
   * publish's error in any status but pending, and may have failed with attempts left.
   */
  lemma LifecycleInvariant(cfg: Config, s: State, j: JobId)
    requires Reachable(cfg, s) && j in s.db.jobs
    ensures j in s.api
    ensures var row, api := s.db.jobs[j], s.api[j];
            match row.status
            case Pending =>
              || (row == NewJob(row.source, row.createdAt) && Clean(api))
              || (1 <= row.attempts < cfg.maxAttempts && row.error.Some? && row.error.value.CrawlFailed?)
            case Running =>
              && row.attempts >= 1 && row.startedAt.Some?
              && (row.error == None || (PublishError(row.error) && !Clean(api)))
            case Completed =>
              && row.attempts >= 1 && row.startedAt.Some? && row.finishedAt.Some? && row.records.Some?
              && (row.error == None || (PublishError(row.error) && !Clean(api)))
            case Failed =>
              && row.error.Some? && row.finishedAt.Some?
              && (|| (row.error.value.CrawlFailed? && row.attempts >= 1 && row.attempts >= cfg.maxAttempts)
                  || (PublishError(row.error) && row.attempts == 0 && api == MarkedFailed(None)
                      && !HasLiveMessage(s, j))
                  || (PublishError(row.error) && !Clean(api)))
  {
    ReachableInv(cfg, s);
    assert RowInv(cfg, s.db.jobs[j], s.api[j]);
    if Sent(s.api[j]).None? {
      UnsentHasNoMessage(s, j);
    }
  }

  /** The step commits a start of `j`. */
  predicate Starts(s: State, step: Step, j: JobId) {
    step.Advance? && step.work == CommitStart && IsBusy(s, step.w) && Mentions(s.workers[step.w].msg, j)
  }

  lemma WorkMovesRow(cfg: Config, db: Db, api: map<JobId, ApiPc>, now: Time, m: Message, pc: Pc, work: Work, j: JobId)
    requires WorkEnabled(db, m.body, pc, work) && WorkerInv(cfg, db.jobs, api, Busy(m, pc)) && j in db.jobs
    ensures var jobs' := Worked(cfg, db, now, m.body, pc, work).db.jobs;
            && j in jobs'
            && jobs'[j].attempts == db.jobs[j].attempts + Indicator(work == CommitStart && Mentions(m, j))
            && jobs'[j].source == db.jobs[j].source && jobs'[j].createdAt == db.jobs[j].createdAt
  {
    WorkFrame(cfg, db, now, m.body, pc, work);
  }

  predicate Counted(row: Job, row': Job, starts: bool) {
    && row'.attempts == row.attempts + Indicator(starts)
    && row'.source == row.source && row'.createdAt == row.createdAt
  }

  lemma StepCounts(cfg: Config, s: State, step: Step, j: JobId)
    requires SessionInv(cfg, s) && Enabled(cfg, s, step) && j in s.db.jobs
    ensures var jobs' := Apply(cfg, s, step).db.jobs;
            j in jobs' && Counted(s.db.jobs[j], jobs'[j], Starts(s, step, j))
  {
    match step
    case Advance(w, work) =>
      assert WorkerInv(cfg, s.db.jobs, s.api, s.workers[w]);
      WorkMovesRow(cfg, s.db, s.api, s.now, s.workers[w].msg, s.workers[w].pc, work, j);
    case Enqueue(_, _) =>
    case _ =>
  }

  /** The counter rises by one exactly at a committed start; source and creation time never change. */
  lemma AttemptsCountStarts(cfg: Config, s: State, step: Step, j: JobId)
    requires Reachable(cfg, s) && Enabled(cfg, s, step) && j in s.db.jobs
    ensures var jobs' := Apply(cfg, s, step).db.jobs;
            j in jobs' && Counted(s.db.jobs[j], jobs'[j], Starts(s, step, j))
  {
    ReachableInv(cfg, s);
    StepCounts(cfg, s, step, j);
  }

  /** Completed is final, row and results, unless an ambiguous publish overwrites it. */
  lemma CompletedIsFinal(cfg: Config, s: State, step: Step, j: JobId)
    requires Reachable(cfg, s) && Enabled(cfg, s, step)
    requires j in s.db.jobs && s.db.jobs[j].status == Completed
    ensures SameJob(s.db, Apply(cfg, s, step).db, j) <==> !Overwrites(s, step, j)
  {
    ReachableInv(cfg, s);
    if Overwrites(s, step, j) {
      assert Apply(cfg, s, step).db.jobs[j].status == Failed;
    } else {
      CompletedRows(cfg, s, step, j);
      CompletedResults(cfg, s, step, j);
    }
  }

  /** A job the worker has once given up is never pending again. */
  lemma GivenUpNeverPending(cfg: Config, s: State, j: JobId)
    requires Reachable(cfg, s) && j in s.db.jobs && FailedEvent(j) in s.log
    ensures s.db.jobs[j].status != Pending
  {
    ReachableInv(cfg, s);
    assert RowInv(cfg, s.db.jobs[j], s.api[j]) && JobLedger(cfg, s.db.jobs[j], s.log, j);
  }

  // ----- results -----

  /** Stored rows are those of the last committed crawl that had any, in any run. */
  lemma StoredRowsAreLastGoodCrawl(cfg: Config, ws: set<WorkerId>, steps: seq<Step>, j: JobId)
    requires IsRun(cfg, Init(ws), steps)
    ensures var s := Final(cfg, Init(ws), steps);
            RowsOf(s.db.hockey, j) == LastHockey(s.log, j) && RowsOf(s.db.oscar, j) == LastOscar(s.log, j)
  {
    InitInv(cfg, ws);
    AnyRun(cfg, Init(ws), steps);
  }

  /** A completed job's counter adds up one attempt in which every registered crawler succeeded. */
  lemma CompletedCountsItsAttempt(cfg: Config, s: State, j: JobId)
    requires Reachable(cfg, s) && j in s.db.jobs && s.db.jobs[j].status == Completed
    ensures s.db.jobs[j].records == Some(Total(Attempt(s.log, j)))
    ensures Names(Attempt(s.log, j)) == Registry(s.db.jobs[j].source)
    ensures Names(Attempt(s.log, j)) == match s.db.jobs[j].source
                                        case Hockey => [Hockey]
                                        case Oscar => [Oscar]
                                        case All => [Hockey, Oscar]
    ensures OwnSections(Attempt(s.log, j))
  {
    ReachableInv(cfg, s);
    assert ResultJob(s.db.jobs[j], Attempt(s.log, j));
  }

  /** A crawl error on a job names exactly the crawlers that did not succeed in its latest attempt. */
  lemma ErrorNamesFailedCrawlers(cfg: Config, s: State, j: JobId)
    requires Reachable(cfg, s) && j in s.db.jobs
    requires s.db.jobs[j].error.Some? && s.db.jobs[j].error.value.CrawlFailed?
    ensures var errors := s.db.jobs[j].error.value.errors;
            && errors != []
            && Splits(Registry(s.db.jobs[j].source), Names(Attempt(s.log, j)), ErrorNames(errors))
  {
    ReachableInv(cfg, s);
    assert RowInv(cfg, s.db.jobs[j], s.api[j]);
    assert ResultJob(s.db.jobs[j], Attempt(s.log, j));
  }

  // ----- do the counts agree with what is stored -----

  /** The hockey section the attempt collected. */
  function HockeyOf(a: seq<Collected>): seq<HockeyRow> {
    if a == [] then []
    else if a[|a| - 1].result.hockey != [] then a[|a| - 1].result.hockey
    else HockeyOf(a[..|a| - 1])
  }

  function OscarOf(a: seq<Collected>): seq<OscarRow> {
    if a == [] then []
    else if a[|a| - 1].result.oscar != [] then a[|a| - 1].result.oscar
    else OscarOf(a[..|a| - 1])
  }

  /** What the latest attempt collected is what is stored, unless it collected nothing. */
  lemma {:induction false} AttemptIsLast(log: seq<Event>, j: JobId)
    ensures HockeyOf(Attempt(log, j)) != [] ==> LastHockey(log, j) == HockeyOf(Attempt(log, j))
    ensures OscarOf(Attempt(log, j)) != [] ==> LastOscar(log, j) == OscarOf(Attempt(log, j))
  {
    if log != [] {
      var front, last := log[..|log| - 1], log[|log| - 1];
      AttemptIsLast(front, j);
      if last.Stored? && last.job == j {
        var a, c := Attempt(front, j), Collected(last.crawler, last.result);
        assert (a + [c])[..|a|] == a;
      }
    }
  }

  lemma TotalIsSections(source: Source, a: seq<Collected>)
    requires Names(a) == Registry(source) && OwnSections(a)
    ensures Total(a) == |HockeyOf(a)| + |OscarOf(a)|
  {
    assert |a| == |Registry(source)|;
    assert forall i | 0 <= i < |a| :: a[i] in a && a[i].crawler == Registry(source)[i];
    if source == All {
      assert a[..1] == [a[0]] && [a[0]][..0] == [];
      TotalOfOne(a[0]);
      assert a[0].crawler == Hockey && a[1].crawler == Oscar;
    } else {
      assert a == [a[0]];
      TotalOfOne(a[0]);
    }
  }

  lemma TotalOfOne(c: Collected)
    ensures Total([c]) == Size(c.result) && HockeyOf([c]) == c.result.hockey && OscarOf([c]) == c.result.oscar
  {
    assert [c][..0] == [];
  }

  /**
   * `records_collected` equals the rows stored for the job exactly when the completing attempt
   * returned no empty section where an earlier attempt had left rows.
   */
  lemma CountAgreement(cfg: Config, s: State, j: JobId)
    requires Reachable(cfg, s) && j in s.db.jobs && s.db.jobs[j].status == Completed
    ensures var a, hockey, oscar := Attempt(s.log, j), RowsOf(s.db.hockey, j), RowsOf(s.db.oscar, j);
            && s.db.jobs[j].records.Some?
            && (s.db.jobs[j].records.value == |hockey| + |oscar| <==>
                  (HockeyOf(a) == [] ==> hockey == []) && (OscarOf(a) == [] ==> oscar == []))
            && s.db.jobs[j].records.value <= |hockey| + |oscar|
            && (HockeyOf(a) != [] ==> hockey == HockeyOf(a)) && (OscarOf(a) != [] ==> oscar == OscarOf(a))
  {
    ReachableInv(cfg, s);
    CompletedCountsItsAttempt(cfg, s, j);
    AttemptIsLast(s.log, j);
    TotalIsSections(s.db.jobs[j].source, Attempt(s.log, j));
  }

  // ----- the snapshot -----

  /** The sources whose jobs can be the snapshot of a section. */
  const HOCKEY_SOURCES := {Hockey, All}
  const OSCAR_SOURCES := {Oscar, All}

  /** The unfiltered snapshot: whose it is and its rows, as seen by a client. */
  predicate SameSnapshot(db: Db, db': Db, sources: set<Source>, j: JobId) {
    && (IsLatest(db'.jobs, sources, j) <==> IsLatest(db.jobs, sources, j))
    && (IsLatest(db.jobs, sources, j) ==> SameJob(db, db', j))
  }

  /** Work that is partial, retried or failed is never visible in a snapshot. */
  lemma SnapshotNonInterference(cfg: Config, s: State, step: Step, sources: set<Source>, j: JobId)
    requires Reachable(cfg, s) && Enabled(cfg, s, step)
    requires forall k | k in s.db.jobs && s.db.jobs[k].source in sources ::
      !Completes(s, step, k) && !Overwrites(s, step, k)
    ensures SameSnapshot(s.db, Apply(cfg, s, step).db, sources, j)
  {
    ReachableInv(cfg, s);
    SnapshotUnchanged(cfg, s, step, sources, j);
  }

  /** Among the completed jobs of these sources other than `j`, `k` finished last. */
  predicate IsLatestWithout(jobs: map<JobId, Job>, sources: set<Source>, j: JobId, k: JobId) {
    && k != j && Candidate(jobs, sources, k)
    && forall i | i in jobs && i != j && Candidate(jobs, sources, i) ::
         jobs[i].finishedAt.value <= jobs[k].finishedAt.value
  }

  lemma LatestWithout(jobs: map<JobId, Job>, sources: set<Source>, j: JobId, row: Job, k: JobId)
    requires j in jobs && jobs[j].status == Completed && jobs[j].finishedAt.Some? && row.status == Failed
    ensures IsLatest(jobs[j := row], sources, k) <==> IsLatestWithout(jobs, sources, j, k)
    ensures !IsLatest(jobs, sources, j) ==> (IsLatest(jobs[j := row], sources, k) <==> IsLatest(jobs, sources, k))
  {
    var jobs' := jobs[j := row];
    assert forall i: JobId :: Candidate(jobs', sources, i) <==> i != j && Candidate(jobs, sources, i);
  }

  /**
   * An enqueue that overwrites a completed job takes it out of the snapshot, which goes back to the
   * latest of the others; if the job was not the latest, the snapshot stays.
   */
  lemma OverwriteMovesSnapshot(cfg: Config, s: State, step: Step, j: JobId, sources: set<Source>, k: JobId)
    requires Reachable(cfg, s) && Enabled(cfg, s, step) && Overwrites(s, step, j)
    ensures var jobs' := Apply(cfg, s, step).db.jobs;
            && (IsLatest(jobs', sources, k) <==> IsLatestWithout(s.db.jobs, sources, j, k))
            && (!IsLatest(s.db.jobs, sources, j) ==> (IsLatest(jobs', sources, k) <==> IsLatest(s.db.jobs, sources, k)))
  {
    ReachableInv(cfg, s);
    var row := PublishFailureRow(s.db.jobs[j], step.request.detail, s.now);
    assert Apply(cfg, s, step).db.jobs == s.db.jobs[j := row];
    LatestWithout(s.db.jobs, sources, j, row, k);
  }

  /** The job worker `w` is about to commit was marked completed after every completed job of these sources. */
  predicate MarkedNewest(s: State, w: WorkerId, sources: set<Source>)
    requires IsBusy(s, w) && s.workers[w].pc.Marked?
  {
    s.workers[w].pc.ses.job.finishedAt.Some?
    && forall k | k in s.db.jobs && Candidate(s.db.jobs, sources, k) ::
         s.db.jobs[k].finishedAt.value < s.workers[w].pc.ses.job.finishedAt.value
  }

  /** Committing a completion makes its job the snapshot exactly if it was marked newest; else the snapshot stays. */
  lemma CompletionMovesSnapshot(cfg: Config, s: State, w: WorkerId, j: JobId, sources: set<Source>, k: JobId)
    requires Reachable(cfg, s)
    requires Enabled(cfg, s, Advance(w, CommitOutcome)) && Completes(s, Advance(w, CommitOutcome), j)
    requires j in s.db.jobs && s.db.jobs[j].source in sources
    ensures var jobs' := Apply(cfg, s, Advance(w, CommitOutcome)).db.jobs;
            && (IsLatest(jobs', sources, j) <==> MarkedNewest(s, w, sources))
            && (IsLatest(jobs', sources, k) <==>
                  if MarkedNewest(s, w, sources) then k == j else IsLatest(s.db.jobs, sources, k))
  {
    ReachableInv(cfg, s);
    SnapshotAdvances(cfg, s, w, j, sources);
  }
}
