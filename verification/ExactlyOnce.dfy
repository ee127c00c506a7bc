/** At-least-once delivery with an exactly-once effect, and the snapshot a single worker produces. */
module ExactlyOnce {
  import opened Domain
  import opened Tables
  import opened JobRows
  import opened Protocol
  import opened Messages
  import opened Sessions
  import opened Lifecycle
  import opened Ledger
  import opened Results
  import opened AckedResults
  import opened Snapshot
  import opened Invariant
  import opened Guarantees
  import opened Plan

  /** What each crawler returns when it always succeeds with the same output. */
  function Out(site: CrawlResult, crawler: Source): CrawlResult {
    CrawlResult(if crawler == Hockey then site.hockey else [], if crawler == Oscar then site.oscar else [])
  }

  /** What one successful pass over the registered crawlers stores. */
  function Expected(site: CrawlResult, source: Source): CrawlResult {
    CrawlResult(if source == Oscar then [] else site.hockey, if source == Hockey then [] else site.oscar)
  }

  /** If the step is a crawler returning, it returns the fixed output. */
  predicate Faithful(site: CrawlResult, s: State, step: Step) {
    step.Advance? && step.work.CrawlerReturns? && IsBusy(s, step.w) ==>
      var pc := s.workers[step.w].pc;
      && pc.Crawling? && pc.done < |Crawlers(pc)|
      && step.work.o == Crawled(Out(site, Crawlers(pc)[pc.done]))
  }

  predicate FaithfulRun(cfg: Config, site: CrawlResult, s: State, steps: seq<Step>)
    requires IsRun(cfg, s, steps)
    decreases |steps|
  {
    steps == [] || (Faithful(site, s, steps[0]) && FaithfulRun(cfg, site, Apply(cfg, s, steps[0]), steps[1..]))
  }

  predicate FaithfulPc(site: CrawlResult, pc: Pc) {
    match pc
    case Crawling(_, _, _, errors) => errors == []
    case Persisting(_, done, _, errors, result) =>
      errors == [] && done < |Crawlers(pc)| && result == Out(site, Crawlers(pc)[done])
    case Marked(_, outcome) => outcome == CompletedOutcome
    case Settling(how) => how != Requeue
    case _ => true
  }

  predicate FaithfulEvent(site: CrawlResult, jobs: map<JobId, Job>, e: Event) {
    match e
    case Stored(j, crawler, result) =>
      j in jobs && crawler in Registry(jobs[j].source) && result == Out(site, crawler)
    case RetriedEvent(_) => false
    case FailedEvent(_) => false
    case _ => true
  }

  predicate FaithfulInv(site: CrawlResult, s: State) {
    && (forall w | w in s.workers && s.workers[w].Busy? ::
          FaithfulPc(site, s.workers[w].pc)
          && (s.workers[w].pc == Settling(DeadLetter) ==> s.workers[w].msg.body.Invalid?))
    && (forall e | e in s.log :: FaithfulEvent(site, s.db.jobs, e))
    && (forall m | m in s.broker.dead :: m.body.Invalid?)
  }

  lemma WorkIsFaithful(cfg: Config, site: CrawlResult, db: Db, api: map<JobId, ApiPc>, now: Time, m: Message, pc: Pc,
          work: Work)
    requires WorkEnabled(db, m.body, pc, work) && WorkerInv(cfg, db.jobs, api, Busy(m, pc)) && FaithfulPc(site, pc)
    requires work.CrawlerReturns? ==> work.o == Crawled(Out(site, Crawlers(pc)[pc.done]))
    ensures var e := Worked(cfg, db, now, m.body, pc, work);
            && FaithfulPc(site, e.pc)
            && (e.pc == Settling(DeadLetter) ==> m.body.Invalid?)
            && (forall x | x in e.events :: FaithfulEvent(site, e.db.jobs, x))
  {
  }

  lemma FaithfulEvents(site: CrawlResult, jobs: map<JobId, Job>, jobs': map<JobId, Job>, log: seq<Event>)
    requires forall e | e in log :: FaithfulEvent(site, jobs, e)
    requires forall j | j in jobs :: j in jobs' && jobs'[j].source == jobs[j].source
    ensures forall e | e in log :: FaithfulEvent(site, jobs', e)
  {
  }

  lemma FaithfulAdvance(cfg: Config, site: CrawlResult, s: State, w: WorkerId, work: Work)
    requires SessionInv(cfg, s) && FaithfulInv(site, s)
    requires Enabled(cfg, s, Advance(w, work)) && Faithful(site, s, Advance(w, work))
    ensures FaithfulInv(site, Apply(cfg, s, Advance(w, work)))
  {
    var Busy(m, pc) := s.workers[w];
    assert WorkerInv(cfg, s.db.jobs, s.api, s.workers[w]);
    WorkFrame(cfg, s.db, s.now, m.body, pc, work);
    WorkIsFaithful(cfg, site, s.db, s.api, s.now, m, pc, work);
    FaithfulEvents(site, s.db.jobs, Worked(cfg, s.db, s.now, m.body, pc, work).db.jobs, s.log);
  }

  /** A worker that lets its message go: what is dead-lettered is invalid, and nothing is stored. */
  lemma FaithfulRelease(site: CrawlResult, s: State, w: WorkerId, how: Settlement, note: Event, s': State)
    requires FaithfulInv(site, s) && Releases(s, w, how, s') && AboutMessage(note)
    requires how == DeadLetter ==> s.workers[w].pc == Settling(DeadLetter)
    requires s'.log == s.log + ReleaseEvents(s, w, how, note)
    ensures FaithfulInv(site, s')
  {
  }

  lemma FaithfulStep(cfg: Config, site: CrawlResult, s: State, step: Step)
    requires MessageInv(s) && SessionInv(cfg, s) && FaithfulInv(site, s)
    requires Enabled(cfg, s, step) && Faithful(site, s, step)
    ensures FaithfulInv(site, Apply(cfg, s, step))
  {
    match step
    case Advance(w, work) => FaithfulAdvance(cfg, site, s, w, work);
    case Enqueue(j, request) =>
      RequestFrame(s, j, request);
      FaithfulEvents(site, s.db.jobs, Requested(s, j, request).db.jobs, s.log);
    case Stray(_) =>
    case Deliver(_, _) =>
    case Settle(w) =>
      SettleReleases(cfg, s, w);
      FaithfulRelease(site, s, w, s.workers[w].pc.how, Requeued(s.workers[w].msg), Apply(cfg, s, step));
    case Abort(w, cause) =>
      AbortReleases(cfg, s, w, cause);
      FaithfulRelease(site, s, w, Requeue, Interrupted(s.workers[w].msg), Apply(cfg, s, step));
    case LoseConnection(w) =>
      LoseReleases(cfg, s, w);
      FaithfulRelease(site, s, w, Requeue, Interrupted(s.workers[w].msg), Apply(cfg, s, step));
  }

  lemma {:induction false} FaithfulAlongRun(cfg: Config, site: CrawlResult, s: State, steps: seq<Step>)
    requires Inv(cfg, s) && FaithfulInv(site, s)
    requires IsRun(cfg, s, steps) && NoOverlap(cfg, s, steps) && FaithfulRun(cfg, site, s, steps)
    ensures FaithfulInv(site, Final(cfg, s, steps))
    decreases |steps|
  {
    if steps != [] {
      FaithfulStep(cfg, site, s, steps[0]);
      InvStep(cfg, s, steps[0]);
      FaithfulAlongRun(cfg, site, Apply(cfg, s, steps[0]), steps[1..]);
    }
  }

  /** Stored sections are empty or the fixed output; a section the job's source lacks is empty. */
  lemma {:induction false} FaithfulRows(site: CrawlResult, jobs: map<JobId, Job>, log: seq<Event>, j: JobId)
    requires j in jobs && forall e | e in log :: FaithfulEvent(site, jobs, e)
    ensures LastHockey(log, j) == [] || LastHockey(log, j) == Expected(site, jobs[j].source).hockey
    ensures LastOscar(log, j) == [] || LastOscar(log, j) == Expected(site, jobs[j].source).oscar
    ensures forall c | c in Attempt(log, j) :: c.result == Out(site, c.crawler)
  {
    if log != [] {
      assert FaithfulEvent(site, jobs, log[|log| - 1]);
      FaithfulRows(site, jobs, log[..|log| - 1], j);
    }
  }

  lemma FaithfulSections(site: CrawlResult, source: Source, a: seq<Collected>)
    requires Names(a) == Registry(source) && forall c | c in a :: c.result == Out(site, c.crawler)
    ensures HockeyOf(a) == Expected(site, source).hockey && OscarOf(a) == Expected(site, source).oscar
    ensures OwnSections(a)
  {
    assert |a| == |Registry(source)|;
    assert forall i | 0 <= i < |a| :: a[i] in a && a[i].crawler == Registry(source)[i];
    TotalOfOne(a[0]);
    if source == All {
      assert a[..1] == [a[0]];
      assert a[0].result == Out(site, Hockey) && a[1].result == Out(site, Oscar);
    } else {
      assert a == [a[0]] && a[0].result == Out(site, source);
    }
  }

  /** The stored effect of a completed job, from the history alone. */
  lemma FaithfulEffect(site: CrawlResult, jobs: map<JobId, Job>, log: seq<Event>, j: JobId)
    requires j in jobs && forall e | e in log :: FaithfulEvent(site, jobs, e)
    requires Names(Attempt(log, j)) == Registry(jobs[j].source)
    ensures var expected := Expected(site, jobs[j].source);
            && Total(Attempt(log, j)) == Size(expected)
            && LastHockey(log, j) == expected.hockey
            && LastOscar(log, j) == expected.oscar
  {
    FaithfulRows(site, jobs, log, j);
    FaithfulSections(site, jobs[j].source, Attempt(log, j));
    AttemptIsLast(log, j);
    TotalIsSections(jobs[j].source, Attempt(log, j));
  }

  lemma NoFaithfulDeadLetter(cfg: Config, ws: set<WorkerId>, steps: seq<Step>, s: State, site: CrawlResult)
    requires ReachableWith(cfg, ws, steps, s) && FaithfulRun(cfg, site, Init(ws), steps)
    ensures FaithfulInv(site, s)
  {
    InitInv(cfg, ws);
    FaithfulAlongRun(cfg, site, Init(ws), steps);
  }

  lemma {:induction false} SplitsLength(crawlers: seq<Source>, succeeded: seq<Source>, failed: seq<Source>)
    requires Splits(crawlers, succeeded, failed)
    ensures |crawlers| == |succeeded| + |failed|
  {
    if crawlers != [] {
      var last, front := crawlers[|crawlers| - 1], crawlers[..|crawlers| - 1];
      if succeeded != [] && succeeded[|succeeded| - 1] == last && Splits(front, succeeded[..|succeeded| - 1], failed) {
        SplitsLength(front, succeeded[..|succeeded| - 1], failed);
      } else {
        SplitsLength(front, succeeded, failed[..|failed| - 1]);
      }
    }
  }

  /** After a full pass no crawl error is left. */
  lemma FullPassHasNoCrawlError(cfg: Config, s: State, j: JobId)
    requires Reachable(cfg, s) && j in s.db.jobs && FullPass(s.db.jobs[j], Attempt(s.log, j))
    ensures s.db.jobs[j].error.Some? ==> PublishError(s.db.jobs[j].error)
  {
    if s.db.jobs[j].error.Some? && s.db.jobs[j].error.value.CrawlFailed? {
      ErrorNamesFailedCrawlers(cfg, s, j);
      var errors := s.db.jobs[j].error.value.errors;
      SplitsLength(Registry(s.db.jobs[j].source), Names(Attempt(s.log, j)), ErrorNames(errors));
      assert false;
    }
  }

  /**
   * If every crawler always succeeds with a fixed output, then in any run of deliveries, crashes and
   * lost settlements a job whose message ends acked has exactly the effect of one pass: the same count
   * and rows, and the same status and error unless an ambiguous publish has overwritten those two. No
   * valid message is dead-lettered.
   */
  lemma ExactlyOnceEffect(cfg: Config, ws: set<WorkerId>, steps: seq<Step>, s: State, site: CrawlResult, m: Message)
    requires ReachableWith(cfg, ws, steps, s) && FaithfulRun(cfg, site, Init(ws), steps)
    requires m.body.Valid? && m.body.job in s.db.jobs
    ensures m.body.job in s.api
    ensures m !in s.broker.dead
    ensures m in s.broker.acked ==>
            var row, expected := s.db.jobs[m.body.job], Expected(site, s.db.jobs[m.body.job].source);
            && row.records == Some(Size(expected))
            && RowsOf(s.db.hockey, m.body.job) == expected.hockey
            && RowsOf(s.db.oscar, m.body.job) == expected.oscar
            && ((row.status == Completed && row.error == None)
                || (!Clean(s.api[m.body.job]) && row.status in {Completed, Failed} && PublishError(row.error)))
  {
    var j := m.body.job;
    ReachableInv(cfg, s);
    NoFaithfulDeadLetter(cfg, ws, steps, s, site);
    if m in s.broker.acked {
      assert m in s.broker.published && AckedMessage(s, m);
      SettledMeansFinal(cfg, s, m);
      LifecycleInvariant(cfg, s, j);
      FullPassHasNoCrawlError(cfg, s, j);
      StoredRowsAreLastGoodCrawl(cfg, ws, steps, j);
      FaithfulEffect(site, s.db.jobs, s.log, j);
    }
  }

  // ----- one uninterrupted pass -----

  /** Every registered crawler returns the fixed output. */
  function SiteOutcomes(site: CrawlResult, source: Source): seq<CrawlOutcome> {
    match source
    case Hockey => [Crawled(Out(site, Hockey))]
    case Oscar => [Crawled(Out(site, Oscar))]
    case All => [Crawled(Out(site, Hockey)), Crawled(Out(site, Oscar))]
  }

  lemma OnePassLoop(db: Db, j: JobId, site: CrawlResult, source: Source)
    requires RowsOf(db.hockey, j) == [] && RowsOf(db.oscar, j) == []
    ensures var loop := Loop(db, j, Registry(source), SiteOutcomes(site, source), |Registry(source)|);
            && loop.errors == [] && loop.records == Size(Expected(site, source))
            && RowsOf(loop.db.hockey, j) == Expected(site, source).hockey
            && RowsOf(loop.db.oscar, j) == Expected(site, source).oscar
  {
    var outcomes, crawlers := SiteOutcomes(site, source), Registry(source);
    PersistEffect(db, j, outcomes[0].result, j);
    var first := Loop(db, j, crawlers, outcomes, 1);
    assert first == Iterate(Loop(db, j, crawlers, outcomes, 0), j, crawlers[0], outcomes[0]);
    if source == All {
      PersistEffect(first.db, j, outcomes[1].result, j);
      assert Loop(db, j, crawlers, outcomes, 2) == Iterate(first, j, crawlers[1], outcomes[1]);
    }
  }

  /** What one uninterrupted `process` of a job without results commits last, its crawlers all succeeding. */
  function OnePass(cfg: Config, db: Db, j: JobId, site: CrawlResult, started: Time, finished: Time): Db
    requires j in db.jobs && db.jobs[j].status != Completed
  {
    var commits := Process(cfg, db, j, SiteOutcomes(site, db.jobs[j].source), started, finished).commits;
    commits[|commits| - 1]
  }

  lemma OnePassEffect(cfg: Config, db: Db, j: JobId, site: CrawlResult, started: Time, finished: Time)
    requires j in db.jobs && db.jobs[j].status != Completed
    requires RowsOf(db.hockey, j) == [] && RowsOf(db.oscar, j) == []
    ensures var after, expected := OnePass(cfg, db, j, site, started, finished), Expected(site, db.jobs[j].source);
            && j in after.jobs && after.jobs[j].status == Completed && after.jobs[j].error == None
            && after.jobs[j].records == Some(Size(expected))
            && RowsOf(after.hockey, j) == expected.hockey && RowsOf(after.oscar, j) == expected.oscar
  {
    OnePassLoop(StartDb(db, j, started), j, site, db.jobs[j].source);
  }

  /** The count and rows the API shows for a job. */
  predicate SameCollected(a: Db, b: Db, j: JobId) {
    && j in a.jobs && j in b.jobs && a.jobs[j].records == b.jobs[j].records
    && RowsOf(a.hockey, j) == RowsOf(b.hockey, j) && RowsOf(a.oscar, j) == RowsOf(b.oscar, j)
  }

  /** And its status and error. */
  predicate SameEffect(a: Db, b: Db, j: JobId) {
    SameCollected(a, b, j) && a.jobs[j].status == b.jobs[j].status && a.jobs[j].error == b.jobs[j].error
  }

  /**
   * Any run of deliveries, crashes and lost settlements in which the job's message ends acked leaves
   * the job as one uninterrupted `process` of it would have, from any database in which it was fresh; an
   * ambiguous publish can have overwritten no more than its status and error.
   */
  lemma ExactlyOnceAsOnePass(cfg: Config, ws: set<WorkerId>, steps: seq<Step>, s: State, site: CrawlResult, m: Message,
                             db: Db, started: Time, finished: Time)
    requires ReachableWith(cfg, ws, steps, s) && FaithfulRun(cfg, site, Init(ws), steps)
    requires m.body.Valid? && m.body.job in s.db.jobs && m in s.broker.acked
    requires m.body.job in db.jobs
    requires db.jobs[m.body.job] == NewJob(s.db.jobs[m.body.job].source, s.db.jobs[m.body.job].createdAt)
    requires RowsOf(db.hockey, m.body.job) == [] && RowsOf(db.oscar, m.body.job) == []
    ensures var once := OnePass(cfg, db, m.body.job, site, started, finished);
            && m.body.job in s.api
            && SameCollected(s.db, once, m.body.job)
            && (Clean(s.api[m.body.job]) ==> SameEffect(s.db, once, m.body.job))
  {
    ExactlyOnceEffect(cfg, ws, steps, s, site, m);
    OnePassEffect(cfg, db, m.body.job, site, started, finished);
  }

  /** A step touches the row and results of at most the one job it works on. */
  lemma OtherJobsUntouched(cfg: Config, s: State, step: Step, k: JobId)
    requires Enabled(cfg, s, step) && k in s.db.jobs
    requires step.Enqueue? ==> step.j != k
    requires step.Advance? ==> !Mentions(s.workers[step.w].msg, k)
    ensures SameJob(s.db, Apply(cfg, s, step).db, k)
  {
    match step
    case Advance(w, work) => WorkSameJob(cfg, s.db, s.now, s.workers[w].msg, s.workers[w].pc, work, k);
    case Enqueue(_, _) =>
    case _ =>
  }

  // ----- the snapshot of a single worker -----

  lemma {:induction false} SoleWorkerAlongRun(cfg: Config, s: State, steps: seq<Step>, w: WorkerId)
    requires Inv(cfg, s) && s.workers.Keys == {w} && NewestMarked(s, w)
    requires IsRun(cfg, s, steps) && NoOverlap(cfg, s, steps)
    ensures Final(cfg, s, steps).workers.Keys == {w} && NewestMarked(Final(cfg, s, steps), w)
    decreases |steps|
  {
    if steps != [] {
      SoleWorkerMarksNewest(cfg, s, steps[0], w);
      InvStep(cfg, s, steps[0]);
      SoleWorkerAlongRun(cfg, Apply(cfg, s, steps[0]), steps[1..], w);
    }
  }

  /**
   * With the one worker of the deployment, whatever happens to its connection, every completing
   * commit makes exactly its job the snapshot of each of its sections, holding the rows stored for it.
   */
  lemma SoleWorkerSnapshot(cfg: Config, w: WorkerId, steps: seq<Step>, j: JobId, sources: set<Source>, k: JobId)
    requires IsRun(cfg, Init({w}), steps)
    requires var s := Final(cfg, Init({w}), steps);
             && Enabled(cfg, s, Advance(w, CommitOutcome)) && Completes(s, Advance(w, CommitOutcome), j)
             && j in s.db.jobs && s.db.jobs[j].source in sources
    ensures var s := Final(cfg, Init({w}), steps);
            var db' := Apply(cfg, s, Advance(w, CommitOutcome)).db;
            && (IsLatest(db'.jobs, sources, k) <==> k == j)
            && RowsOf(db'.hockey, j) == LastHockey(s.log, j)
            && RowsOf(db'.oscar, j) == LastOscar(s.log, j)
  {
    var s := Final(cfg, Init({w}), steps);
    SoleWorkerRun(cfg, Init({w}), steps, w);
    InitInv(cfg, {w});
    InvRun(cfg, Init({w}), steps);
    SoleWorkerAlongRun(cfg, Init({w}), steps, w);
    SnapshotAdvances(cfg, s, w, j, sources);
  }
}
