/** What is stored for a job, read off the history of commits. */
module Results {
  import opened Domain
  import opened Tables
  import opened JobRows
  import opened Protocol
  import opened Messages
  import opened Sessions
  import opened Lifecycle
  import opened Ledger

  /** One crawler's committed output. */
  datatype Collected = Collected(crawler: Source, result: CrawlResult)

  /** The hockey section of the job's last committed crawl that had one. */
  function LastHockey(log: seq<Event>, j: JobId): seq<HockeyRow> {
    if log == [] then []
    else
      var last := log[|log| - 1];
      if last.Stored? && last.job == j && last.result.hockey != [] then last.result.hockey
      else LastHockey(log[..|log| - 1], j)
  }

  function LastOscar(log: seq<Event>, j: JobId): seq<OscarRow> {
    if log == [] then []
    else
      var last := log[|log| - 1];
      if last.Stored? && last.job == j && last.result.oscar != [] then last.result.oscar
      else LastOscar(log[..|log| - 1], j)
  }

  /** What the job's latest started attempt has committed so far. */
  function Attempt(log: seq<Event>, j: JobId): seq<Collected> {
    if log == [] then []
    else
      var last, rest := log[|log| - 1], Attempt(log[..|log| - 1], j);
      if last == Started(j) then []
      else if last.Stored? && last.job == j then rest + [Collected(last.crawler, last.result)]
      else rest
  }

  function Size(result: CrawlResult): nat {
    |result.hockey| + |result.oscar|
  }

  function Total(a: seq<Collected>): nat {
    if a == [] then 0 else Total(a[..|a| - 1]) + Size(a[|a| - 1].result)
  }

  function Names(a: seq<Collected>): seq<Source> {
    seq(|a|, i requires 0 <= i < |a| => a[i].crawler)
  }

  function ErrorNames(errors: seq<CrawlError>): seq<Source> {
    seq(|errors|, i requires 0 <= i < |errors| => errors[i].crawler)
  }

  /** `crawlers` is an order-preserving shuffle of those that succeeded and those that failed. */
  predicate Splits(crawlers: seq<Source>, succeeded: seq<Source>, failed: seq<Source>) {
    if crawlers == [] then succeeded == [] && failed == []
    else
      var last, front := crawlers[|crawlers| - 1], crawlers[..|crawlers| - 1];
      || (succeeded != [] && succeeded[|succeeded| - 1] == last && Splits(front, succeeded[..|succeeded| - 1], failed))
      || (failed != [] && failed[|failed| - 1] == last && Splits(front, succeeded, failed[..|failed| - 1]))
  }

  lemma SplitsSucceeded(crawlers: seq<Source>, succeeded: seq<Source>, failed: seq<Source>, c: Source)
    requires Splits(crawlers, succeeded, failed)
    ensures Splits(crawlers + [c], succeeded + [c], failed)
  {
    assert (crawlers + [c])[..|crawlers|] == crawlers;
    assert (succeeded + [c])[..|succeeded|] == succeeded;
  }

  lemma SplitsFailed(crawlers: seq<Source>, succeeded: seq<Source>, failed: seq<Source>, c: Source)
    requires Splits(crawlers, succeeded, failed)
    ensures Splits(crawlers + [c], succeeded, failed + [c])
  {
    assert (crawlers + [c])[..|crawlers|] == crawlers;
    assert (failed + [c])[..|failed|] == failed;
  }

  lemma {:induction false} SplitsAll(crawlers: seq<Source>, succeeded: seq<Source>)
    requires Splits(crawlers, succeeded, [])
    ensures succeeded == crawlers
  {
    if crawlers != [] {
      SplitsAll(crawlers[..|crawlers| - 1], succeeded[..|succeeded| - 1]);
      assert succeeded == succeeded[..|succeeded| - 1] + [succeeded[|succeeded| - 1]];
    }
  }

  // ----- how one more event changes the history -----

  lemma Snoc(log: seq<Event>, e: Event, j: JobId)
    ensures LastHockey(log + [e], j)
         == if e.Stored? && e.job == j && e.result.hockey != [] then e.result.hockey else LastHockey(log, j)
    ensures LastOscar(log + [e], j)
         == if e.Stored? && e.job == j && e.result.oscar != [] then e.result.oscar else LastOscar(log, j)
    ensures Attempt(log + [e], j)
         == if e == Started(j) then []
            else if e.Stored? && e.job == j then Attempt(log, j) + [Collected(e.crawler, e.result)]
            else Attempt(log, j)
  {
    assert (log + [e])[..|log|] == log;
  }

  // ----- what the invariant says -----

  /** The stored rows of every job are those of its last committed non-empty crawl. */
  ghost predicate StoredRows(db: Db, log: seq<Event>) {
    forall j: JobId ::
      RowsOf(db.hockey, j) == LastHockey(log, j) && RowsOf(db.oscar, j) == LastOscar(log, j)
  }

  /** The loop variables against what the attempt has committed. */
  predicate Tallied(source: Source, done: nat, records: nat, errors: seq<CrawlError>, a: seq<Collected>) {
    && done <= |Registry(source)|
    && records == Total(a)
    && Splits(Registry(source)[..done], Names(a), ErrorNames(errors))
  }

  /** A finished attempt: every registered crawler succeeded, or the error names those that did not. */
  predicate ResultRow(row: Job, a: seq<Collected>) {
    match row.status
    case Completed => row.records == Some(Total(a)) && Names(a) == Registry(row.source)
    case Failed => row.error.Some? && row.error.value.CrawlFailed? ==> ErrorExact(row, a)
    case Pending => row.error.Some? && row.error.value.CrawlFailed? ==> ErrorExact(row, a)
    case Running => true
  }

  predicate ErrorExact(row: Job, a: seq<Collected>)
    requires row.error.Some? && row.error.value.CrawlFailed?
  {
    var errors := row.error.value.errors;
    errors != [] && Splits(Registry(row.source), Names(a), ErrorNames(errors))
  }

  predicate TallyPc(pc: Pc, a: seq<Collected>) {
    match pc
    case Crawling(ses, done, records, errors) => Tallied(ses.job.source, done, records, errors, a)
    case Persisting(ses, done, records, errors, _) => Tallied(ses.job.source, done, records, errors, a)
    case Marked(ses, _) => ResultRow(ses.job, a)
    case _ => true
  }

  predicate OwnSections(a: seq<Collected>) {
    forall c | c in a :: FillsOwnSection(c.crawler, c.result)
  }

  predicate ResultJob(row: Job, a: seq<Collected>) {
    OwnSections(a) && ResultRow(row, a)
  }

  predicate TallyWorker(jobs: map<JobId, Job>, log: seq<Event>, worker: Worker) {
    worker.Busy? && worker.msg.body.Valid? && worker.msg.body.job in jobs ==>
      TallyPc(worker.pc, Attempt(log, worker.msg.body.job))
  }

  ghost predicate ResultInv(s: State) {
    && StoredRows(s.db, s.log)
    && s.api.Keys == s.db.jobs.Keys
    && (forall j | j in s.db.jobs :: ResultJob(s.db.jobs[j], Attempt(s.log, j)))
    && (forall w | w in s.workers :: TallyWorker(s.db.jobs, s.log, s.workers[w]))
  }

  // ----- a worker's step -----

  lemma WorkHistory(cfg: Config, db: Db, now: Time, body: Body, pc: Pc, work: Work, log: seq<Event>, k: JobId)
    requires WorkEnabled(db, body, pc, work)
    ensures var events := Worked(cfg, db, now, body, pc, work).events;
            var mine := body.Valid? && body.job == k;
            && Attempt(log + events, k) == (
                 if work == CommitStart && mine then []
                 else if work == CommitSection && mine then
                   Attempt(log, k) + [Collected(Crawlers(pc)[pc.done], pc.result)]
                 else Attempt(log, k))
            && LastHockey(log + events, k) == (
                 if work == CommitSection && mine && pc.result.hockey != [] then pc.result.hockey
                 else LastHockey(log, k))
            && LastOscar(log + events, k) == (
                 if work == CommitSection && mine && pc.result.oscar != [] then pc.result.oscar
                 else LastOscar(log, k))
  {
    var events := Worked(cfg, db, now, body, pc, work).events;
    if events == [] {
      assert log + events == log;
    } else {
      Snoc(log, events[0], k);
      assert events == [events[0]];
    }
  }

  lemma WorkStores(cfg: Config, db: Db, now: Time, body: Body, pc: Pc, work: Work, log: seq<Event>)
    requires WorkEnabled(db, body, pc, work) && StoredRows(db, log)
    ensures var e := Worked(cfg, db, now, body, pc, work); StoredRows(e.db, log + e.events)
  {
    var e := Worked(cfg, db, now, body, pc, work);
    forall k: JobId
      ensures RowsOf(e.db.hockey, k) == LastHockey(log + e.events, k)
      ensures RowsOf(e.db.oscar, k) == LastOscar(log + e.events, k)
    {
      WorkHistory(cfg, db, now, body, pc, work, log, k);
      if work == CommitSection {
        PersistEffect(db, body.job, pc.result, k);
      }
    }
  }

  lemma TallySucceeded(source: Source, done: nat, records: nat, errors: seq<CrawlError>, a: seq<Collected>,
          result: CrawlResult)
    requires Tallied(source, done, records, errors, a) && done < |Registry(source)|
    ensures Tallied(source, done + 1, records + Size(result), errors, a + [Collected(Registry(source)[done], result)])
  {
    var c := Collected(Registry(source)[done], result);
    SplitsSucceeded(Registry(source)[..done], Names(a), ErrorNames(errors), c.crawler);
    assert Registry(source)[..done + 1] == Registry(source)[..done] + [c.crawler];
    assert Names(a + [c]) == Names(a) + [c.crawler];
    assert (a + [c])[..|a|] == a;
  }

  lemma TallyFailed(source: Source, done: nat, records: nat, errors: seq<CrawlError>, a: seq<Collected>, detail: string)
    requires Tallied(source, done, records, errors, a) && done < |Registry(source)|
    ensures Tallied(source, done + 1, records, errors + [CrawlError(Registry(source)[done], detail)], a)
  {
    var e := CrawlError(Registry(source)[done], detail);
    SplitsFailed(Registry(source)[..done], Names(a), ErrorNames(errors), e.crawler);
    assert Registry(source)[..done + 1] == Registry(source)[..done] + [e.crawler];
    assert ErrorNames(errors + [e]) == ErrorNames(errors) + [e.crawler];
  }

  /** The loop's tally decides the outcome the job is marked with. */
  lemma TallyDecides(cfg: Config, job: Job, records: nat, errors: seq<CrawlError>, a: seq<Collected>, now: Time)
    requires Tallied(job.source, |Registry(job.source)|, records, errors, a)
    ensures ResultRow(Decide(cfg, job, records, errors, now).1, a)
  {
    assert Registry(job.source)[..|Registry(job.source)|] == Registry(job.source);
    if errors == [] {
      SplitsAll(Registry(job.source), Names(a));
    }
  }

  lemma WorkTallies(cfg: Config, db: Db, api: map<JobId, ApiPc>, now: Time, m: Message, pc: Pc, work: Work,
          log: seq<Event>)
    requires WorkEnabled(db, m.body, pc, work) && WorkerInv(cfg, db.jobs, api, Busy(m, pc))
    requires TallyWorker(db.jobs, log, Busy(m, pc))
    ensures var e := Worked(cfg, db, now, m.body, pc, work); TallyWorker(e.db.jobs, log + e.events, Busy(m, e.pc))
  {
    WorkFrame(cfg, db, now, m.body, pc, work);
    if m.body.Valid? && m.body.job in db.jobs {
      WorkHistory(cfg, db, now, m.body, pc, work, log, m.body.job);
      WorkTally(cfg, db, now, m.body, pc, work, Attempt(log, m.body.job));
    }
  }

  /** What the attempt has collected once `work` is done. */
  function AttemptAfter(pc: Pc, work: Work, a: seq<Collected>): seq<Collected>
    requires work == CommitSection ==> pc.Persisting? && pc.done < |Crawlers(pc)|
  {
    if work == CommitStart then []
    else if work == CommitSection then a + [Collected(Crawlers(pc)[pc.done], pc.result)]
    else a
  }

  lemma WorkTally(cfg: Config, db: Db, now: Time, body: Body, pc: Pc, work: Work, a: seq<Collected>)
    requires WorkEnabled(db, body, pc, work) && body.Valid? && body.job in db.jobs && TallyPc(pc, a)
    ensures TallyPc(Worked(cfg, db, now, body, pc, work).pc, AttemptAfter(pc, work, a))
  {
    match work
    case Read =>
    case CommitStart =>
      assert Registry(pc.ses.job.source)[..0] == [];
    case CrawlerReturns(Raised(detail)) =>
      TallyFailed(pc.ses.job.source, pc.done, pc.records, pc.errors, a, detail);
    case CrawlerReturns(Crawled(_)) =>
    case CommitSection =>
      TallySucceeded(pc.ses.job.source, pc.done, pc.records, pc.errors, a, pc.result);
    case MarkOutcome =>
      TallyDecides(cfg, pc.ses.job, pc.records, pc.errors, a, now);
    case CommitOutcome =>
  }

  /** Committing the marked job commits its result. */
  lemma FlushedResult(cfg: Config, row: Job, api: ApiPc, ses: JobCopy, outcome: Outcome, a: seq<Collected>)
    requires Coherent(row, api, ses) && PcInv(cfg, Marked(ses, outcome)) && ResultRow(ses.job, a)
    requires OwnSections(a)
    ensures ResultJob(Flush(row, ses.base, ses.job), a)
  {
  }

  lemma OwnResult(cfg: Config, db: Db, api: map<JobId, ApiPc>, now: Time, m: Message, pc: Pc, work: Work,
          a: seq<Collected>)
    requires WorkEnabled(db, m.body, pc, work) && WorkerInv(cfg, db.jobs, api, Busy(m, pc))
    requires m.body.Valid? && m.body.job in db.jobs && m.body.job in api
    requires UnseenWorker(db.jobs, Busy(m, pc)) && TallyPc(pc, a) && ResultJob(db.jobs[m.body.job], a)
    ensures var e := Worked(cfg, db, now, m.body, pc, work);
            ResultJob(e.db.jobs[m.body.job], AttemptAfter(pc, work, a))
  {
    match work
    case CommitSection =>
      assert forall c | c in AttemptAfter(pc, work, a) :: c in a || c == Collected(Crawlers(pc)[pc.done], pc.result);
    case CommitOutcome => FlushedResult(cfg, db.jobs[m.body.job], api[m.body.job], pc.ses, pc.outcome, a);
    case _ =>
  }

  lemma WorkKeepsResult(cfg: Config, db: Db, api: map<JobId, ApiPc>, now: Time, m: Message, pc: Pc, work: Work,
          log: seq<Event>, k: JobId)
    requires WorkEnabled(db, m.body, pc, work) && WorkerInv(cfg, db.jobs, api, Busy(m, pc))
    requires TallyWorker(db.jobs, log, Busy(m, pc))
    requires k in db.jobs && k in api && UnseenWorker(db.jobs, Busy(m, pc)) && ResultJob(db.jobs[k], Attempt(log, k))
    ensures var e := Worked(cfg, db, now, m.body, pc, work);
            k in e.db.jobs && ResultJob(e.db.jobs[k], Attempt(log + e.events, k))
  {
    WorkFrame(cfg, db, now, m.body, pc, work);
    WorkHistory(cfg, db, now, m.body, pc, work, log, k);
    if m.body.Valid? && m.body.job == k {
      OwnResult(cfg, db, api, now, m, pc, work, Attempt(log, k));
    }
  }

  lemma ResultAdvance(cfg: Config, s: State, w: WorkerId, work: Work)
    requires MessageInv(s) && Exclusive(s) && SessionInv(cfg, s) && UnseenInv(s) && ResultInv(s)
    requires Enabled(cfg, s, Advance(w, work))
    ensures ResultInv(Apply(cfg, s, Advance(w, work)))
  {
    var s' := Apply(cfg, s, Advance(w, work));
    var Busy(m, pc) := s.workers[w];
    assert WorkerInv(cfg, s.db.jobs, s.api, s.workers[w]) && TallyWorker(s.db.jobs, s.log, s.workers[w]);
    assert UnseenWorker(s.db.jobs, s.workers[w]);
    WorkFrame(cfg, s.db, s.now, m.body, pc, work);
    WorkStores(cfg, s.db, s.now, m.body, pc, work, s.log);
    forall j | j in s'.db.jobs ensures ResultJob(s'.db.jobs[j], Attempt(s'.log, j)) {
      WorkKeepsResult(cfg, s.db, s.api, s.now, m, pc, work, s.log, j);
    }
    forall v | v in s.workers ensures TallyWorker(s'.db.jobs, s'.log, s'.workers[v]) {
      if v == w {
        WorkTallies(cfg, s.db, s.api, s.now, m, pc, work, s.log);
      } else {
        TallyOther(cfg, s, w, work, v);
      }
    }
  }

  lemma TallyOther(cfg: Config, s: State, w: WorkerId, work: Work, v: WorkerId)
    requires MessageInv(s) && Exclusive(s) && Enabled(cfg, s, Advance(w, work)) && v in s.workers && v != w
    requires TallyWorker(s.db.jobs, s.log, s.workers[v])
    ensures var s' := Apply(cfg, s, Advance(w, work)); TallyWorker(s'.db.jobs, s'.log, s.workers[v])
  {
    var Busy(m, pc) := s.workers[w];
    WorkFrame(cfg, s.db, s.now, m.body, pc, work);
    if s.workers[v].Busy? && s.workers[v].msg.body.Valid? && s.workers[v].msg.body.job in s.db.jobs {
      var k := s.workers[v].msg.body.job;
      WorkHistory(cfg, s.db, s.now, m.body, pc, work, s.log, k);
      if InProcess(s, v) && m.body.Valid? && m.body.job == k {
        OneWorkerPerJob(s, v, w);
      }
    }
  }

  /** A job no event names has stored nothing. */
  lemma {:induction false} NoHistory(log: seq<Event>, j: JobId)
    requires forall e | e in log :: AboutMessage(e) || e.job != j
    ensures Attempt(log, j) == [] && LastHockey(log, j) == [] && LastOscar(log, j) == []
  {
    if log != [] {
      assert log[|log| - 1] in log;
      NoHistory(log[..|log| - 1], j);
    }
  }

  /** The row a request leaves for its own job. */
  lemma ResultOwnJob(s: State, j: JobId, request: Request)
    requires RequestEnabled(s, j, request) && s.api.Keys == s.db.jobs.Keys
    requires if j in s.db.jobs then ResultJob(s.db.jobs[j], Attempt(s.log, j)) else Attempt(s.log, j) == []
    ensures var s' := Requested(s, j, request);
            j in s'.db.jobs ==> j in s'.api && ResultJob(s'.db.jobs[j], Attempt(s.log, j))
  {
  }

  lemma ResultEnqueue(cfg: Config, s: State, j: JobId, request: Request)
    requires MessageInv(s) && ResultInv(s) && LedgerInv(cfg, s) && RequestEnabled(s, j, request)
    ensures ResultInv(Requested(s, j, request))
  {
    var s' := Requested(s, j, request);
    RequestFrame(s, j, request);
    if request.Create? {
      NoHistory(s.log, j);
    }
    ResultOwnJob(s, j, request);
    assert s'.api.Keys == s'.db.jobs.Keys by {
      RoutedRequest(s, j, request);
    }
    forall k | k in s'.db.jobs ensures ResultJob(s'.db.jobs[k], Attempt(s'.log, k)) {
      if k != j {
        assert ResultJob(s.db.jobs[k], Attempt(s.log, k));
      }
    }
    forall w | w in s.workers ensures TallyWorker(s'.db.jobs, s.log, s.workers[w]) {
      assert TallyWorker(s.db.jobs, s.log, s.workers[w]);
    }
  }

  lemma NoteKeepsResults(db: Db, log: seq<Event>, events: seq<Event>)
    requires StoredRows(db, log) && (events == [] || (|events| == 1 && AboutMessage(events[0])))
    ensures StoredRows(db, log + events)
    ensures forall j: JobId :: Attempt(log + events, j) == Attempt(log, j)
  {
    if events == [] {
      assert log + events == log;
    } else {
      assert events == [events[0]];
      forall j: JobId
        ensures Attempt(log + events, j) == Attempt(log, j)
        ensures RowsOf(db.hockey, j) == LastHockey(log + events, j) && RowsOf(db.oscar, j) == LastOscar(log + events, j)
      {
        Snoc(log, events[0], j);
      }
    }
  }

  /** Delivering, settling or losing a message touches no job. */
  lemma ResultBroker(cfg: Config, s: State, step: Step)
    requires ResultInv(s) && Enabled(cfg, s, step) && !step.Enqueue? && !step.Advance?
    ensures ResultInv(Apply(cfg, s, step))
  {
    var s' := Apply(cfg, s, step);
    var events := s'.log[|s.log|..];
    assert s'.log == s.log + events;
    NoteKeepsResults(s.db, s.log, events);
    forall w | w in s'.workers ensures TallyWorker(s'.db.jobs, s'.log, s'.workers[w]) {
      assert TallyWorker(s.db.jobs, s.log, s.workers[w]);
    }
  }

  /** The stored rows follow the history of commits in every step, whoever else works on the job. */
  lemma StoredRowsStep(cfg: Config, s: State, step: Step)
    requires StoredRows(s.db, s.log) && Enabled(cfg, s, step)
    ensures var s' := Apply(cfg, s, step); StoredRows(s'.db, s'.log)
  {
    var s' := Apply(cfg, s, step);
    match step
    case Advance(w, work) =>
      WorkStores(cfg, s.db, s.now, s.workers[w].msg.body, s.workers[w].pc, work, s.log);
    case Enqueue(j, request) => RequestFrame(s, j, request);
    case _ =>
      var events := s'.log[|s.log|..];
      assert s'.log == s.log + events;
      NoteKeepsResults(s.db, s.log, events);
  }

  lemma ResultStep(cfg: Config, s: State, step: Step)
    requires MessageInv(s) && Exclusive(s) && SessionInv(cfg, s) && UnseenInv(s) && ResultInv(s) && LedgerInv(cfg, s)
    requires Enabled(cfg, s, step)
    ensures ResultInv(Apply(cfg, s, step))
  {
    match step
    case Enqueue(j, request) => ResultEnqueue(cfg, s, j, request);
    case Advance(w, work) => ResultAdvance(cfg, s, w, work);
    case _ => ResultBroker(cfg, s, step);
  }
}
