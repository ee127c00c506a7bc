/** `JobProcessor` and `CrawlConsumer` as the objects they are. */
module Worker {
  import opened Domain
  import opened Tables
  import JobRows
  import opened Store
  import opened Repositories
  import Protocol
  import Plan

  /** A crawler; what its `n`-th call does is up to the site it collects. */
  class Crawler {
    const source: Source
    const site: nat -> CrawlOutcome
    var calls: nat

    constructor (source: Source, site: nat -> CrawlOutcome)
      ensures this.source == source && this.site == site && calls == 0
    {
      this.source := source;
      this.site := site;
      calls := 0;
    }

    method Crawl() returns (outcome: CrawlOutcome)
      modifies this
      ensures outcome == site(old(calls)) && calls == old(calls) + 1
    {
      outcome := site(calls);
      calls := calls + 1;
    }
  }

  /** Of the databases `planned`, the first `done` were committed, starting from `before`. */
  predicate Progressed(before: Db, after: Db, commits: seq<Db>, commits': seq<Db>, planned: seq<Db>, done: nat) {
    && done <= |planned|
    && commits' == commits + planned[..done]
    && after == if done == 0 then before else planned[done - 1]
  }

  lemma ProgressThen(a: Db, b: Db, c: Db, old0: seq<Db>, old1: seq<Db>, old2: seq<Db>, first: seq<Db>,
          second: seq<Db>, done: nat)
    requires Progressed(a, b, old0, old1, first, |first|) && Progressed(b, c, old1, old2, second, done)
    ensures Progressed(a, c, old0, old2, first + second, |first| + done)
  {
    assert (first + second)[..|first| + done] == first + second[..done];
  }

  lemma ProgressPart(a: Db, b: Db, old0: seq<Db>, old1: seq<Db>, first: seq<Db>, second: seq<Db>, done: nat)
    requires Progressed(a, b, old0, old1, first, done)
    ensures Progressed(a, b, old0, old1, first + second, done)
  {
    assert (first + second)[..done] == first[..done];
  }

  /** `process` returns an outcome, or a failing commit raises out of it. */
  datatype ProcessResult = Returned(outcome: Outcome) | RaisedError

  class JobProcessor {
    const database: Database
    const clock: Clock
    const hockey: Crawler
    const oscar: Crawler
    const maxAttempts: int

    constructor (database: Database, clock: Clock, hockey: Crawler, oscar: Crawler, maxAttempts: int)
      requires hockey != oscar && hockey.source == Hockey && oscar.source == Oscar
      ensures this.database == database && this.clock == clock && this.maxAttempts == maxAttempts
      ensures this.hockey == hockey && this.oscar == oscar && Valid()
    {
      this.database := database;
      this.clock := clock;
      this.hockey := hockey;
      this.oscar := oscar;
      this.maxAttempts := maxAttempts;
    }

    predicate Valid() {
      hockey != oscar && hockey.source == Hockey && oscar.source == Oscar
    }

    /** `build_crawler_registry`. */
    function Registered(source: Source): (crawlers: seq<Crawler>)
      ensures |crawlers| == |Registry(source)|
      ensures forall i | 0 <= i < |crawlers| :: crawlers[i] == hockey || crawlers[i] == oscar
      ensures Valid() ==> forall i | 0 <= i < |crawlers| :: crawlers[i].source == Registry(source)[i]
    {
      match source
      case Hockey => [hockey]
      case Oscar => [oscar]
      case All => [hockey, oscar]
    }

    /** What the registered crawlers will do when they are next called. */
    function Outcomes(source: Source): (outcomes: seq<CrawlOutcome>)
      reads hockey, oscar
      ensures |outcomes| == |Registry(source)|
    {
      match source
      case Hockey => [hockey.site(hockey.calls)]
      case Oscar => [oscar.site(oscar.calls)]
      case All => [hockey.site(hockey.calls), oscar.site(oscar.calls)]
    }

    /** `_persist`. */
    method PersistResult(results: ResultRepository, j: JobId, result: CrawlResult) returns (records: nat)
      requires results.session.Valid()
      modifies results.session
      ensures results.session.Valid()
      ensures results.session.job == old(results.session.job) && results.session.base == old(results.session.base)
      ensures results.session.statements == old(results.session.statements) + PersistStatements(j, result)
      ensures records == |result.hockey| + |result.oscar|
    {
      records := 0;
      if result.hockey != [] {
        var count := results.ReplaceHockey(j, result.hockey);
        records := records + count;
      }
      if result.oscar != [] {
        var count := results.ReplaceOscar(j, result.oscar);
        records := records + count;
      }
    }

    /** The session is between transactions: nothing pending, its job as committed. */
    predicate AtRest(session: Session, job: JobObject)
      reads session, session.database, job
    {
      && session.Valid() && session.database == database
      && session.job == job && session.base == Some(job.Value()) && session.statements == []
      && job.id in database.db.jobs && database.db.jobs[job.id] == job.Value()
    }

    /** One successful crawler: its rows are replaced and committed. */
    method CommitResult(session: Session, job: JobObject, result: CrawlResult) returns (ok: bool, records: nat)
      requires AtRest(session, job)
      modifies session, database
      ensures ok ==> AtRest(session, job)
      ensures var next := Persist(old(database.db), job.id, result);
              && ok == !database.outage(old(database.requests))
              && database.requests == old(database.requests) + 1
              && database.db == (if ok then next else old(database.db))
              && database.commits == old(database.commits) + (if ok then [next] else [])
      ensures records == |result.hockey| + |result.oscar|
    {
      var results := new ResultRepository(session);
      records := PersistResult(results, job.id, result);
      PersistExecutes(database.db, job.id, result);
      assert session.statements == PersistStatements(job.id, result);
      ghost var db := database.db;
      assert session.Pending() == Persist(db, job.id, result) by {
        assert Persist(db, job.id, result).jobs == db.jobs;
        assert db.jobs[job.id := db.jobs[job.id]] == db.jobs;
      }
      ok := session.Commit();
    }

    /** One turn of the crawler loop, from the tally `state` so far. */
    method RunOne(session: Session, job: JobObject, crawler: Crawler, ghost state: Plan.LoopState)
      returns (ok: bool, records: nat, errors: seq<CrawlError>)
      requires AtRest(session, job) && database.db == state.db
      modifies session, database, crawler
      ensures crawler.calls == old(crawler.calls) + 1
      ensures ok ==> AtRest(session, job)
      ensures var outcome := crawler.site(old(crawler.calls));
              var next := Plan.Iterate(state, job.id, crawler.source, outcome);
              && (ok ==>
                    && database.db == next.db && state.records + records == next.records
                    && state.errors + errors == next.errors)
              && (!ok ==> outcome.Crawled? && database.db == state.db && exists n :: database.outage(n))
              && database.commits == old(database.commits) + (if ok && outcome.Crawled? then [next.db] else [])
    {
      var outcome := crawler.Crawl();
      match outcome {
        case Raised(detail) =>
          ok, records, errors := true, 0, [CrawlError(crawler.source, detail)];
        case Crawled(result) =>
          ok, records := CommitResult(session, job, result);
          errors := [];
          assert state.errors + errors == state.errors;
      }
    }

    /**
     * `_run_crawlers`. `done` counts the commits it got through; without a failing commit it leaves
     * the tally and the databases of `Plan.Loop`, with one it leaves a proper prefix of them.
     */
    method RunCrawlers(session: Session, job: JobObject)
      returns (ok: bool, records: nat, errors: seq<CrawlError>, ghost done: nat)
      requires Valid() && AtRest(session, job)
      modifies session, database, hockey, oscar
      ensures ok ==> AtRest(session, job)
      ensures var names := Registry(job.source);
              var loop := Plan.Loop(old(database.db), job.id, names, old(Outcomes(job.source)), |names|);
              && Progressed(old(database.db), database.db, old(database.commits), database.commits, loop.commits, done)
              && (ok <==> done == |loop.commits|)
              && (ok ==> records == loop.records && errors == loop.errors && database.db == loop.db)
      ensures (forall n :: !database.outage(n)) ==> ok
    {
      var crawlers := Registered(job.source);
      ghost var names, outcomes := Registry(job.source), Outcomes(job.source);
      records, errors, ok, done := 0, [], true, 0;
      for i := 0 to |crawlers|
        invariant ok && AtRest(session, job)
        invariant forall k | i <= k < |crawlers| :: crawlers[k].site(crawlers[k].calls) == outcomes[k]
        invariant var loop := Plan.Loop(old(database.db), job.id, names, outcomes, i);
                  && records == loop.records && errors == loop.errors && database.db == loop.db
                  && database.commits == old(database.commits) + loop.commits && done == |loop.commits|
      {
        ghost var loop := Plan.Loop(old(database.db), job.id, names, outcomes, i);
        var count, raised;
        ok, count, raised := RunOne(session, job, crawlers[i], loop);
        if !ok {
          LaterCommits(old(database.db), job.id, names, outcomes, i);
          LoopProgress(old(database.db), job.id, names, outcomes, i, old(database.commits));
          return;
        }
        LoopCommits(old(database.db), job.id, names, outcomes, i);
        records, errors := records + count, errors + raised;
        done := done + if outcomes[i].Crawled? then 1 else 0;
      }
      LoopProgress(old(database.db), job.id, names, outcomes, |names|, old(database.commits));
    }

    /** The commit of a marked job, which raises out of `process` when it fails. */
    method CommitMarked(session: Session, job: JobObject, outcome: Outcome) returns (result: ProcessResult)
      requires session.Valid() && session.database == database && session.job == job && session.statements == []
      requires job.id in database.db.jobs && session.base == Some(database.db.jobs[job.id])
      modifies session, database
      ensures result == (if database.outage(old(database.requests)) then RaisedError else Returned(outcome))
      ensures var committed := JobRows.Flush(old(database.db.jobs[job.id]), old(database.db.jobs[job.id]), job.Value());
              Progressed(old(database.db), database.db, old(database.commits), database.commits,
                         [Protocol.SetRow(old(database.db), job.id, committed)], if result.Returned? then 1 else 0)
    {
      var ok := session.Commit();
      result := if ok then Returned(outcome) else RaisedError;
    }

    /**
     * `_handle_failure`: with its attempts exhausted the job fails, and otherwise goes back to pending
     * for another delivery; either is committed with the errors before it is reported.
     */
    method HandleFailure(session: Session, jobs: JobRepository, job: JobObject, errors: seq<CrawlError>)
      returns (result: ProcessResult)
      requires AtRest(session, job) && errors != [] && jobs.clock == clock
      modifies session, job, database, clock
      ensures result.Returned? ==>
                result.outcome == if old(job.attempts) >= maxAttempts then FailedOutcome else RetryOutcome
      ensures var marked := if old(job.attempts) >= maxAttempts
                            then JobRows.MarkFailed(old(job.Value()), CrawlFailed(errors), old(clock.now))
                            else JobRows.MarkPendingRetry(old(job.Value()), CrawlFailed(errors));
              && result.Returned? == !database.outage(old(database.requests))
              && Progressed(old(database.db), database.db, old(database.commits), database.commits,
                            [Protocol.SetRow(old(database.db), job.id, marked)], if result.Returned? then 1 else 0)
    {
      if job.attempts >= maxAttempts {
        jobs.MarkFailed(job, CrawlFailed(errors));
        result := CommitMarked(session, job, FailedOutcome);
      } else {
        jobs.MarkPendingRetry(job, CrawlFailed(errors));
        result := CommitMarked(session, job, RetryOutcome);
      }
    }

    /** The end of `process`: marks the job by what the crawlers did and commits it. */
    method Conclude(session: Session, jobs: JobRepository, job: JobObject, records: nat, errors: seq<CrawlError>)
      returns (result: ProcessResult)
      requires AtRest(session, job) && jobs.clock == clock
      modifies session, job, database, clock
      ensures var (outcome, marked) :=
                Protocol.Decide(Protocol.Config(maxAttempts), old(job.Value()), records, errors, old(clock.now));
              && result == (if database.outage(old(database.requests)) then RaisedError else Returned(outcome))
              && Progressed(old(database.db), database.db, old(database.commits), database.commits,
                            [Protocol.SetRow(old(database.db), job.id, marked)], if result.Returned? then 1 else 0)
    {
      if errors != [] {
        result := HandleFailure(session, jobs, job, errors);
      } else {
        jobs.MarkCompleted(job, records);
        result := CommitMarked(session, job, CompletedOutcome);
      }
    }

    /** `mark_running` and the commit that makes the attempt count. */
    method Start(session: Session, jobs: JobRepository, job: JobObject) returns (ok: bool)
      requires AtRest(session, job) && jobs.clock == clock
      modifies session, job, database, clock
      ensures ok ==> AtRest(session, job)
      ensures job.Value() == JobRows.MarkRunning(old(job.Value()), old(clock.now)) && clock.now == old(clock.now) + 1
      ensures ok == !database.outage(old(database.requests))
      ensures Progressed(old(database.db), database.db, old(database.commits), database.commits,
                         [Plan.StartDb(old(database.db), job.id, old(clock.now))], if ok then 1 else 0)
    {
      jobs.MarkRunning(job);
      assert session.Pending() == Plan.StartDb(database.db, job.id, old(clock.now));
      ok := session.Commit();
    }

    /** `process` from the committed start of the job on. */
    method Execute(session: Session, jobs: JobRepository, job: JobObject)
      returns (result: ProcessResult, ghost done: nat)
      requires Valid() && AtRest(session, job) && jobs.clock == clock
      modifies session, job, database, clock, hockey, oscar
      ensures var plan := Plan.Executed(Protocol.Config(maxAttempts), old(database.db), job.id, old(job.Value()),
                                        old(Outcomes(job.source)), old(clock.now));
              && Progressed(old(database.db), database.db, old(database.commits), database.commits, plan.commits, done)
              && result == (if done == |plan.commits| then Returned(plan.outcome) else RaisedError)
      ensures (forall n :: !database.outage(n)) ==> result.Returned?
    {
      ghost var names := Registry(job.source);
      ghost var loop := Plan.Loop(database.db, job.id, names, Outcomes(job.source), |names|);
      var ok, records, errors, looped := RunCrawlers(session, job);
      if !ok {
        ghost var (_, marked) :=
          Protocol.Decide(Protocol.Config(maxAttempts), job.Value(), loop.records, loop.errors, clock.now);
        ProgressPart(old(database.db), database.db, old(database.commits), database.commits,
                     loop.commits, [Protocol.SetRow(loop.db, job.id, marked)], looped);
        return RaisedError, looped;
      }
      label ran:
      result := Conclude(session, jobs, job, records, errors);
      ghost var (_, marked) :=
        Protocol.Decide(Protocol.Config(maxAttempts), old@ran(job.Value()), records, errors, old@ran(clock.now));
      ghost var concluded := if result.Returned? then 1 else 0;
      ProgressThen(old(database.db), old@ran(database.db), database.db,
                   old(database.commits), old@ran(database.commits), database.commits,
                   loop.commits, [Protocol.SetRow(loop.db, job.id, marked)], concluded);
      done := looped + concluded;
    }

    /** `process` for a job that is there and not completed: the committed start, then the rest. */
    method RunJob(session: Session, jobs: JobRepository, job: JobObject)
      returns (result: ProcessResult, ghost done: nat)
      requires Valid() && AtRest(session, job) && jobs.clock == clock
      modifies session, job, database, clock, hockey, oscar
      ensures var started := Plan.StartDb(old(database.db), job.id, old(clock.now));
              var rest := Plan.Executed(Protocol.Config(maxAttempts), started, job.id,
                                        JobRows.MarkRunning(old(job.Value()), old(clock.now)),
                                        old(Outcomes(job.source)), old(clock.now) + 1);
              && Progressed(old(database.db), database.db, old(database.commits), database.commits,
                            [started] + rest.commits, done)
              && result == (if done == |[started] + rest.commits| then Returned(rest.outcome) else RaisedError)
      ensures (forall n :: !database.outage(n)) ==> result.Returned?
    {
      ghost var outcomes := Outcomes(job.source);
      var ok := Start(session, jobs, job);
      if !ok {
        return RaisedError, 0;
      }
      label started:
      ghost var executed;
      result, executed := Execute(session, jobs, job);
      done := 1 + executed;
      ghost var rest := Plan.Executed(Protocol.Config(maxAttempts), old@started(database.db), job.id,
                                      old@started(job.Value()), outcomes, old@started(clock.now));
      ProgressThen(old(database.db), old@started(database.db), database.db,
                   old(database.commits), old@started(database.commits), database.commits,
                   [old@started(database.db)], rest.commits, executed);
    }

    /**
     * `process`, for a valid message: it commits the databases of `Plan.Process` in order and returns
     * its outcome, or a commit raises and what is committed is a proper prefix of them.
     */
    method Process(j: JobId) returns (result: ProcessResult, ghost done: nat)
      requires Valid()
      modifies database, clock, hockey, oscar
      ensures var before := old(database.db);
              var outcomes := if j in before.jobs then old(Outcomes(before.jobs[j].source)) else [];
              var cfg, started := Protocol.Config(maxAttempts), old(clock.now);
              var plan := Plan.Process(cfg, before, j, outcomes, started, started + 1);
              && Progressed(before, database.db, old(database.commits), database.commits, plan.commits, done)
              && result == (if done == |plan.commits| then Returned(plan.outcome) else RaisedError)
      ensures (forall n :: !database.outage(n)) ==> result.Returned?
    {
      var session := new Session(database);
      var jobs := new JobRepository(session, clock);
      var job := session.Get(j);
      if job == null || job.status == Completed {
        return Returned(SkippedOutcome), 0;
      }
      result, done := RunJob(session, jobs, job);
    }
  }

  /**
   * The worker's channel to the broker. Its connection may have been lost by the time of a settlement:
   * the broker has then taken the message back, and the call raises.
   */
  class Channel {
    const lost: nat -> bool
    var broker: Protocol.Broker
    var calls: nat

    constructor (broker: Protocol.Broker, lost: nat -> bool)
      ensures this.broker == broker && this.lost == lost && calls == 0
    {
      this.broker := broker;
      this.lost := lost;
      calls := 0;
    }

    /** Whether the next settlement of `m` goes through. */
    predicate Holds(m: Message)
      reads this
    {
      m in broker.unacked && !lost(calls)
    }

    /** The broker after the next settlement of `m` is attempted. */
    function Settled(m: Message, how: Settlement): Protocol.Broker
      reads this
    {
      if m in broker.unacked then Protocol.SettleMessage(broker, m, if lost(calls) then Requeue else how) else broker
    }

    method BasicAck(m: Message) returns (ok: bool)
      modifies this
      ensures ok == old(Holds(m)) && broker == old(Settled(m, Ack)) && calls == old(calls) + 1
    {
      ok := TakesBack(m);
      if ok {
        broker := broker.(unacked := broker.unacked - {m}, acked := broker.acked + {m});
      }
    }

    method BasicNack(m: Message, requeue: bool) returns (ok: bool)
      modifies this
      ensures ok == old(Holds(m)) && calls == old(calls) + 1
      ensures broker == old(Settled(m, if requeue then Requeue else DeadLetter))
    {
      ok := TakesBack(m);
      if ok {
        if requeue {
          broker := broker.(unacked := broker.unacked - {m}, ready := broker.ready + {m});
        } else {
          broker := broker.(unacked := broker.unacked - {m}, dead := broker.dead + {m});
        }
      }
    }

    /** A lost connection returns its message to the queue; the answer is whether there is one to settle. */
    method TakesBack(m: Message) returns (ok: bool)
      modifies this
      ensures ok == old(Holds(m)) && calls == old(calls) + 1
      ensures broker == if !ok then old(Settled(m, Requeue)) else old(broker)
    {
      ok := m in broker.unacked && !lost(calls);
      if m in broker.unacked && lost(calls) {
        broker := broker.(unacked := broker.unacked - {m}, ready := broker.ready + {m});
      }
      calls := calls + 1;
    }
  }

  class CrawlConsumer {
    const processor: JobProcessor

    constructor (processor: JobProcessor)
      ensures this.processor == processor
    {
      this.processor := processor;
    }

    /**
     * `_on_message`: an invalid payload is dead-lettered unprocessed; otherwise the message is settled
     * by the outcome of `process`, and requeued when `process` raised with its work half committed. On a
     * lost connection the settlement itself raises, and the message is back in the queue.
     */
    method OnMessage(channel: Channel, m: Message) returns (ok: bool, ghost done: nat)
      requires processor.Valid()
      modifies channel, processor.database, processor.clock, processor.hockey, processor.oscar
      ensures ok == old(channel.Holds(m))
      ensures var database := processor.database;
              var before := old(database.db);
              m.body.Invalid? ==>
                && database.db == before && database.commits == old(database.commits)
                && channel.broker == old(channel.Settled(m, DeadLetter))
      ensures var database := processor.database;
              var before := old(database.db);
              m.body.Valid? ==>
                var j, cfg := m.body.job, Protocol.Config(processor.maxAttempts);
                var outcomes := if j in before.jobs then old(processor.Outcomes(before.jobs[j].source)) else [];
                var started := old(processor.clock.now);
                var plan := Plan.Process(cfg, before, j, outcomes, started, started + 1);
                && Progressed(before, database.db, old(database.commits), database.commits, plan.commits, done)
                && channel.broker == (if done == |plan.commits| then old(channel.Settled(m, SettlementOf(plan.outcome)))
                                      else old(channel.Settled(m, Requeue)))
    {
      if m.body.Invalid? {
        ok := channel.BasicNack(m, false);
        return ok, 0;
      }
      var result;
      result, done := processor.Process(m.body.job);
      match result {
        case RaisedError => ok := channel.BasicNack(m, true);
        case Returned(outcome) =>
          if outcome == CompletedOutcome || outcome == SkippedOutcome {
            ok := channel.BasicAck(m);
          } else if outcome == RetryOutcome {
            ok := channel.BasicNack(m, true);
          } else {
            ok := channel.BasicNack(m, false);
          }
      }
    }
  }

  /** The loop leaves the last database it committed, or the one it started from. */
  lemma {:induction false} LastCommit(db: Db, j: JobId, names: seq<Source>, outcomes: seq<CrawlOutcome>, n: nat)
    requires n <= |names| == |outcomes|
    ensures var loop := Plan.Loop(db, j, names, outcomes, n);
            loop.db == if loop.commits == [] then db else loop.commits[|loop.commits| - 1]
  {
    if n != 0 {
      LastCommit(db, j, names, outcomes, n - 1);
    }
  }

  lemma IterateCommits(state: Plan.LoopState, j: JobId, crawler: Source, outcome: CrawlOutcome)
    ensures var next := Plan.Iterate(state, j, crawler, outcome);
            next.commits == state.commits + (if outcome.Crawled? then [next.db] else [])
  {
  }

  lemma LoopCommits(db: Db, j: JobId, names: seq<Source>, outcomes: seq<CrawlOutcome>, n: nat)
    requires n < |names| == |outcomes|
    ensures var before, after := Plan.Loop(db, j, names, outcomes, n), Plan.Loop(db, j, names, outcomes, n + 1);
            && before.commits <= after.commits
            && |after.commits| == |before.commits| + (if outcomes[n].Crawled? then 1 else 0)
  {
    IterateCommits(Plan.Loop(db, j, names, outcomes, n), j, names[n], outcomes[n]);
  }

  lemma PrefixTransitive<T>(a: seq<T>, b: seq<T>, c: seq<T>)
    requires a < b && b <= c
    ensures a < c
  {
  }

  /** A crawler that succeeds after the first `n` adds a commit after theirs; no source has more than two. */
  lemma LaterCommits(db: Db, j: JobId, names: seq<Source>, outcomes: seq<CrawlOutcome>, n: nat)
    requires n < |names| == |outcomes| <= 2 && outcomes[n].Crawled?
    ensures Plan.Loop(db, j, names, outcomes, n).commits < Plan.Loop(db, j, names, outcomes, |names|).commits
  {
    LoopCommits(db, j, names, outcomes, n);
    if n + 1 < |names| {
      LoopCommits(db, j, names, outcomes, n + 1);
      PrefixTransitive(Plan.Loop(db, j, names, outcomes, n).commits, Plan.Loop(db, j, names, outcomes, n + 1).commits,
                       Plan.Loop(db, j, names, outcomes, n + 2).commits);
    }
  }

  /** The first crawlers' commits are the first of all the commits of the loop. */
  lemma LoopProgress(db: Db, j: JobId, names: seq<Source>, outcomes: seq<CrawlOutcome>, n: nat, commits: seq<Db>)
    requires n <= |names| == |outcomes|
    requires Plan.Loop(db, j, names, outcomes, n).commits <= Plan.Loop(db, j, names, outcomes, |names|).commits
    ensures var loop := Plan.Loop(db, j, names, outcomes, n);
            Progressed(db, loop.db, commits, commits + loop.commits,
                       Plan.Loop(db, j, names, outcomes, |names|).commits, |loop.commits|)
  {
    LastCommit(db, j, names, outcomes, n);
  }
}
