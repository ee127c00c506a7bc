/** One uninterrupted call of `process` as a function, and the protocol run it corresponds to. */
module Plan {
  import opened Domain
  import opened Tables
  import opened JobRows
  import opened Protocol
  import opened Messages
  import opened Invariant

  /** The variables of `_run_crawlers` after some crawlers, with every database committed so far. */
  datatype LoopState = LoopState(db: Db, commits: seq<Db>, records: nat, errors: seq<CrawlError>)

  /** One turn of the loop: a result is stored and committed, an exception noted; no job row changes. */
  function Iterate(state: LoopState, j: JobId, crawler: Source, outcome: CrawlOutcome): (next: LoopState)
    ensures next.db.jobs == state.db.jobs
  {
    match outcome
    case Raised(detail) => state.(errors := state.errors + [CrawlError(crawler, detail)])
    case Crawled(result) =>
      var db := Persist(state.db, j, result);
      state.(db := db, commits := state.commits + [db], records := state.records + |result.hockey| + |result.oscar|)
  }

  /** The loop after the first `n` crawlers. */
  function Loop(db: Db, j: JobId, crawlers: seq<Source>, outcomes: seq<CrawlOutcome>, n: nat): (state: LoopState)
    requires n <= |crawlers| == |outcomes|
    ensures state.db.jobs == db.jobs
  {
    if n == 0 then LoopState(db, [], 0, [])
    else Iterate(Loop(db, j, crawlers, outcomes, n - 1), j, crawlers[n - 1], outcomes[n - 1])
  }

  /** How many of the first `n` crawlers raise. */
  function Raising(outcomes: seq<CrawlOutcome>, n: nat): (count: nat)
    requires n <= |outcomes|
    ensures count <= n
  {
    if n == 0 then 0 else Raising(outcomes, n - 1) + if outcomes[n - 1].Raised? then 1 else 0
  }

  function Returned(outcome: CrawlOutcome): nat {
    match outcome
    case Raised(_) => 0
    case Crawled(result) => |result.hockey| + |result.oscar|
  }

  /** The rows the succeeding ones of the first `n` crawlers returned. */
  function RowsReturned(outcomes: seq<CrawlOutcome>, n: nat): nat
    requires n <= |outcomes|
  {
    if n == 0 then 0 else RowsReturned(outcomes, n - 1) + Returned(outcomes[n - 1])
  }

  /** What the loop holds for crawler `i`, `raised` of those before it having raised. */
  predicate Noted(loop: LoopState, before: Db, j: JobId, i: nat, raised: nat, crawler: Source, outcome: CrawlOutcome)
    requires raised <= i
  {
    match outcome
    case Raised(detail) => raised < |loop.errors| && loop.errors[raised] == CrawlError(crawler, detail)
    case Crawled(result) => i - raised < |loop.commits| && loop.commits[i - raised] == Persist(before, j, result)
  }

  lemma IterateNotes(loop: LoopState, j: JobId, crawler: Source, outcome: CrawlOutcome)
    ensures Noted(Iterate(loop, j, crawler, outcome), loop.db, j, |loop.errors| + |loop.commits|, |loop.errors|,
                  crawler, outcome)
  {
  }

  lemma IterateKeepsNoted(loop: LoopState, j: JobId, crawler: Source, outcome: CrawlOutcome,
                          before: Db, i: nat, raised: nat, earlier: Source, earlierOutcome: CrawlOutcome)
    requires raised <= i && Noted(loop, before, j, i, raised, earlier, earlierOutcome)
    ensures Noted(Iterate(loop, j, crawler, outcome), before, j, i, raised, earlier, earlierOutcome)
  {
  }

  /**
   * The loop partitions the crawlers: each that raises has one error, in registry order; each that
   * succeeds has one commit, in registry order, made on top of those before it whatever comes later; the
   * count adds up the rows of those that succeeded.
   */
  lemma {:induction false} LoopPartition(db: Db, j: JobId, crawlers: seq<Source>, outcomes: seq<CrawlOutcome>,
          n: nat, i: nat)
    requires i < n <= |crawlers| == |outcomes|
    ensures var loop := Loop(db, j, crawlers, outcomes, n);
            && |loop.errors| == Raising(outcomes, n) && |loop.errors| + |loop.commits| == n
            && loop.records == RowsReturned(outcomes, n)
            && Noted(loop, Loop(db, j, crawlers, outcomes, i).db, j, i, Raising(outcomes, i), crawlers[i], outcomes[i])
  {
    LoopCounts(db, j, crawlers, outcomes, n);
    LoopCounts(db, j, crawlers, outcomes, n - 1);
    var loop := Loop(db, j, crawlers, outcomes, n - 1);
    if i < n - 1 {
      LoopPartition(db, j, crawlers, outcomes, n - 1, i);
      IterateKeepsNoted(loop, j, crawlers[n - 1], outcomes[n - 1],
                        Loop(db, j, crawlers, outcomes, i).db, i, Raising(outcomes, i), crawlers[i], outcomes[i]);
    } else {
      IterateNotes(loop, j, crawlers[i], outcomes[i]);
    }
  }

  lemma {:induction false} LoopCounts(db: Db, j: JobId, crawlers: seq<Source>, outcomes: seq<CrawlOutcome>, n: nat)
    requires n <= |crawlers| == |outcomes|
    ensures var loop := Loop(db, j, crawlers, outcomes, n);
            && |loop.errors| == Raising(outcomes, n) && |loop.errors| + |loop.commits| == n
            && loop.records == RowsReturned(outcomes, n)
  {
    if n != 0 {
      LoopCounts(db, j, crawlers, outcomes, n - 1);
    }
  }

  /** What `process` returns and the databases it commits, in order, when nothing interrupts it. */
  datatype Processed = Processed(outcome: Outcome, commits: seq<Db>)

  function StartDb(db: Db, j: JobId, started: Time): Db
    requires j in db.jobs
  {
    SetRow(db, j, MarkRunning(db.jobs[j], started))
  }

  /** `process` from the committed start on, `db` being what that start committed. */
  function Executed(cfg: Config, db: Db, j: JobId, running: Job, outcomes: seq<CrawlOutcome>, finished: Time): Processed
    requires |outcomes| == |Registry(running.source)|
  {
    var loop := Loop(db, j, Registry(running.source), outcomes, |outcomes|);
    var (outcome, job) := Decide(cfg, running, loop.records, loop.errors, finished);
    Processed(outcome, loop.commits + [SetRow(loop.db, j, job)])
  }

  function Process(cfg: Config, db: Db, j: JobId, outcomes: seq<CrawlOutcome>, started: Time, finished: Time): Processed
    requires j in db.jobs ==> |outcomes| == |Registry(db.jobs[j].source)|
  {
    if j !in db.jobs || db.jobs[j].status == Completed then Processed(SkippedOutcome, [])
    else
      var rest := Executed(cfg, StartDb(db, j, started), j, MarkRunning(db.jobs[j], started), outcomes, finished);
      Processed(rest.outcome, [StartDb(db, j, started)] + rest.commits)
  }

  // ----- the protocol run of one delivery -----

  function IterationSteps(w: WorkerId, outcome: CrawlOutcome): seq<Step> {
    [Advance(w, CrawlerReturns(outcome))] + if outcome.Crawled? then [Advance(w, CommitSection)] else []
  }

  function LoopSteps(w: WorkerId, outcomes: seq<CrawlOutcome>, n: nat): seq<Step>
    requires n <= |outcomes|
  {
    if n == 0 then [] else LoopSteps(w, outcomes, n - 1) + IterationSteps(w, outcomes[n - 1])
  }

  /** The databases committed by the steps of a run, in order. */
  function Commits(cfg: Config, s: State, steps: seq<Step>): seq<Db>
    requires IsRun(cfg, s, steps)
    decreases |steps|
  {
    if steps == [] then []
    else
      var s', step := Apply(cfg, s, steps[0]), steps[0];
      (if Committing(step) then [s'.db] else []) + Commits(cfg, s', steps[1..])
  }

  predicate WorkerSteps(steps: seq<Step>, w: WorkerId) {
    forall step | step in steps :: step.Advance? && step.w == w
  }

  lemma {:induction false} WorkerStepsNeverOverlap(cfg: Config, s: State, steps: seq<Step>, w: WorkerId)
    requires IsRun(cfg, s, steps) && WorkerSteps(steps, w)
    ensures NoOverlap(cfg, s, steps)
    decreases |steps|
  {
    if steps != [] {
      WorkerStepsNeverOverlap(cfg, Apply(cfg, s, steps[0]), steps[1..], w);
    }
  }

  predicate Committing(step: Step) {
    step.Advance? && step.work in {CommitStart, CommitSection, CommitOutcome}
  }

  lemma CommitsFirst(cfg: Config, s: State, step: Step, rest: seq<Step>)
    requires Enabled(cfg, s, step) && IsRun(cfg, Apply(cfg, s, step), rest)
    ensures IsRun(cfg, s, [step] + rest)
    ensures var s' := Apply(cfg, s, step);
            Commits(cfg, s, [step] + rest) == (if Committing(step) then [s'.db] else []) + Commits(cfg, s', rest)
  {
    assert ([step] + rest)[1..] == rest;
  }

  lemma Regroup<T>(a: seq<T>, b: seq<T>, c: seq<T>)
    ensures a + (b + c) == (a + b) + c
  {
  }

  lemma {:induction false} ConcatCommits(cfg: Config, s: State, a: seq<Step>, b: seq<Step>)
    requires IsRun(cfg, s, a) && IsRun(cfg, Final(cfg, s, a), b) && IsRun(cfg, s, a + b)
    ensures Commits(cfg, s, a + b) == Commits(cfg, s, a) + Commits(cfg, Final(cfg, s, a), b)
    decreases |a|
  {
    if a == [] {
      assert a + b == b;
    } else {
      var s', rest := Apply(cfg, s, a[0]), a[1..];
      assert a == [a[0]] + rest && a + b == [a[0]] + (rest + b);
      ConcatFinal(cfg, s', rest, b);
      ConcatCommits(cfg, s', rest, b);
      CommitsFirst(cfg, s, a[0], rest);
      CommitsFirst(cfg, s, a[0], rest + b);
      Regroup(if Committing(a[0]) then [s'.db] else [], Commits(cfg, s', rest), Commits(cfg, Final(cfg, s', rest), b));
    }
  }

  /** Worker `w` is at `pc` with message `m`; everything but its own progress is as in `s0`. */
  predicate WorkerAt(s0: State, s: State, w: WorkerId, m: Message, pc: Pc, db: Db) {
    && IsBusy(s, w) && s.workers == s0.workers[w := Busy(m, pc)]
    && s.broker == s0.broker && s.api == s0.api && s.db == db
  }

  lemma OneStep(cfg: Config, s0: State, s: State, w: WorkerId, m: Message, pc: Pc, work: Work)
    requires w in s0.workers && WorkerAt(s0, s, w, m, pc, s.db) && WorkEnabled(s.db, m.body, pc, work)
    ensures var step := Advance(w, work);
            var e := Worked(cfg, s.db, s.now, m.body, pc, work);
            && IsRun(cfg, s, [step])
            && WorkerAt(s0, Final(cfg, s, [step]), w, m, e.pc, e.db)
            && Final(cfg, s, [step]).now == s.now + 1
            && Commits(cfg, s, [step]) == if Committing(step) then [e.db] else []
  {
    var step := Advance(w, work);
    var s' := Apply(cfg, s, step);
    assert [step][1..] == [];
    assert IsRun(cfg, s', []) && Final(cfg, s', []) == s' && Commits(cfg, s', []) == [];
  }

  /** Running two stretches of worker steps one after the other. */
  lemma Then(cfg: Config, s: State, a: seq<Step>, b: seq<Step>)
    requires IsRun(cfg, s, a) && IsRun(cfg, Final(cfg, s, a), b)
    ensures IsRun(cfg, s, a + b) && Final(cfg, s, a + b) == Final(cfg, Final(cfg, s, a), b)
    ensures Commits(cfg, s, a + b) == Commits(cfg, s, a) + Commits(cfg, Final(cfg, s, a), b)
  {
    ConcatFinal(cfg, s, a, b);
    ConcatCommits(cfg, s, a, b);
  }

  function CrawlingPc(job: Job, done: nat, loop: LoopState): Pc {
    Crawling(JobCopy(job, job), done, loop.records, loop.errors)
  }

  /** One turn of the crawler loop. */
  lemma IterationRun(cfg: Config, s0: State, s: State, w: WorkerId, m: Message, job: Job, done: nat, loop: LoopState,
          outcome: CrawlOutcome)
    requires w in s0.workers && m.body.Valid? && m.body.job in s.db.jobs && s.db == loop.db
    requires WorkerAt(s0, s, w, m, CrawlingPc(job, done, loop), s.db) && done < |Registry(job.source)|
    requires outcome.Crawled? ==> FillsOwnSection(Registry(job.source)[done], outcome.result)
    ensures var steps := IterationSteps(w, outcome);
            var next := Iterate(loop, m.body.job, Registry(job.source)[done], outcome);
            && IsRun(cfg, s, steps)
            && WorkerAt(s0, Final(cfg, s, steps), w, m, CrawlingPc(job, done + 1, next), next.db)
            && next.commits == loop.commits + Commits(cfg, s, steps)
  {
    var pc := CrawlingPc(job, done, loop);
    var first := [Advance(w, CrawlerReturns(outcome))];
    OneStep(cfg, s0, s, w, m, pc, CrawlerReturns(outcome));
    if outcome.Crawled? {
      var s1 := Final(cfg, s, first);
      var held := Persisting(JobCopy(job, job), done, loop.records, loop.errors, outcome.result);
      OneStep(cfg, s0, s1, w, m, held, CommitSection);
      Then(cfg, s, first, [Advance(w, CommitSection)]);
    } else {
      assert first + [] == first;
      assert loop.commits + [] == loop.commits;
    }
  }

  predicate OutcomesFit(crawlers: seq<Source>, outcomes: seq<CrawlOutcome>) {
    && |outcomes| == |crawlers|
    && forall i | 0 <= i < |outcomes| :: outcomes[i].Crawled? ==> FillsOwnSection(crawlers[i], outcomes[i].result)
  }

  lemma {:induction false} LoopRun(cfg: Config, s0: State, s: State, w: WorkerId, m: Message, job: Job,
          outcomes: seq<CrawlOutcome>, n: nat)
    requires w in s0.workers && m.body.Valid? && m.body.job in s.db.jobs
    requires OutcomesFit(Registry(job.source), outcomes) && n <= |outcomes|
    requires WorkerAt(s0, s, w, m, CrawlingPc(job, 0, LoopState(s.db, [], 0, [])), s.db)
    ensures var steps, loop := LoopSteps(w, outcomes, n), Loop(s.db, m.body.job, Registry(job.source), outcomes, n);
            && IsRun(cfg, s, steps)
            && WorkerAt(s0, Final(cfg, s, steps), w, m, CrawlingPc(job, n, loop), loop.db)
            && loop.commits == Commits(cfg, s, steps)
  {
    if n != 0 {
      LoopRun(cfg, s0, s, w, m, job, outcomes, n - 1);
      var before := LoopSteps(w, outcomes, n - 1);
      var loop := Loop(s.db, m.body.job, Registry(job.source), outcomes, n - 1);
      IterationRun(cfg, s0, Final(cfg, s, before), w, m, job, n - 1, loop, outcomes[n - 1]);
      Then(cfg, s, before, IterationSteps(w, outcomes[n - 1]));
    }
  }

  lemma StartRun(cfg: Config, s: State, w: WorkerId, m: Message)
    requires IsBusy(s, w) && s.workers[w] == Busy(m, Received) && m.body.Valid?
    requires m.body.job in s.db.jobs && s.db.jobs[m.body.job].status != Completed
    ensures var steps, j := [Advance(w, Read)] + [Advance(w, CommitStart)], m.body.job;
            var running, db := MarkRunning(s.db.jobs[j], s.now), StartDb(s.db, j, s.now);
            && IsRun(cfg, s, steps)
            && WorkerAt(s, Final(cfg, s, steps), w, m, CrawlingPc(running, 0, LoopState(db, [], 0, [])), db)
            && Commits(cfg, s, steps) == [db]
  {
    var j := m.body.job;
    OneStep(cfg, s, s, w, m, Received, Read);
    var s1 := Final(cfg, s, [Advance(w, Read)]);
    OneStep(cfg, s, s1, w, m, s1.workers[w].pc, CommitStart);
    Then(cfg, s, [Advance(w, Read)], [Advance(w, CommitStart)]);
  }

  lemma FinishRun(cfg: Config, s0: State, s: State, w: WorkerId, m: Message, job: Job, loop: LoopState)
    requires w in s0.workers && m.body.Valid? && m.body.job in s.db.jobs && s.db.jobs[m.body.job] == job
    requires job.status == Running
    requires WorkerAt(s0, s, w, m, CrawlingPc(job, |Registry(job.source)|, loop), s.db)
    ensures var steps := [Advance(w, MarkOutcome)] + [Advance(w, CommitOutcome)];
            var (outcome, marked) := Decide(cfg, job, loop.records, loop.errors, s.now);
            var db := SetRow(s.db, m.body.job, marked);
            && IsRun(cfg, s, steps)
            && WorkerAt(s0, Final(cfg, s, steps), w, m, Settling(SettlementOf(outcome)), db)
            && Commits(cfg, s, steps) == [db]
  {
    var pc := CrawlingPc(job, |Registry(job.source)|, loop);
    OneStep(cfg, s0, s, w, m, pc, MarkOutcome);
    var s1 := Final(cfg, s, [Advance(w, MarkOutcome)]);
    OneStep(cfg, s0, s1, w, m, s1.workers[w].pc, CommitOutcome);
    Then(cfg, s, [Advance(w, MarkOutcome)], [Advance(w, CommitOutcome)]);
  }

  /** The steps of one whole delivery of a job that is there and not completed. */
  function DeliverySteps(w: WorkerId, outcomes: seq<CrawlOutcome>): seq<Step> {
    ([Advance(w, Read)] + [Advance(w, CommitStart)])
    + LoopSteps(w, outcomes, |outcomes|)
    + ([Advance(w, MarkOutcome)] + [Advance(w, CommitOutcome)])
  }

  /**
   * An uninterrupted `process` is a run of the protocol: it commits the same databases in the same
   * order and leaves the worker about to settle with the same outcome, at the times the run reads.
   */
  lemma ProcessIsARun(cfg: Config, s: State, w: WorkerId, m: Message, outcomes: seq<CrawlOutcome>)
    requires IsBusy(s, w) && s.workers[w] == Busy(m, Received) && m.body.Valid?
    requires m.body.job in s.db.jobs && s.db.jobs[m.body.job].status != Completed
    requires OutcomesFit(Registry(s.db.jobs[m.body.job].source), outcomes)
    ensures var steps := DeliverySteps(w, outcomes);
            && IsRun(cfg, s, steps) && NoOverlap(cfg, s, steps)
            && exists finished ::
                 var plan := Process(cfg, s.db, m.body.job, outcomes, s.now, finished);
                 && Commits(cfg, s, steps) == plan.commits
                 && IsBusy(Final(cfg, s, steps), w)
                 && Final(cfg, s, steps).workers[w] == Busy(m, Settling(SettlementOf(plan.outcome)))
                 && Final(cfg, s, steps).db == plan.commits[|plan.commits| - 1]
  {
    var j := m.body.job;
    var running := MarkRunning(s.db.jobs[j], s.now);
    var start, loopSteps := [Advance(w, Read)] + [Advance(w, CommitStart)], LoopSteps(w, outcomes, |outcomes|);
    StartRun(cfg, s, w, m);
    var s1 := Final(cfg, s, start);
    LoopRun(cfg, s, s1, w, m, running, outcomes, |outcomes|);
    Then(cfg, s, start, loopSteps);
    var s2 := Final(cfg, s1, loopSteps);
    var loop := Loop(s1.db, j, Registry(running.source), outcomes, |outcomes|);
    FinishRun(cfg, s, s2, w, m, running, loop);
    var finish := [Advance(w, MarkOutcome)] + [Advance(w, CommitOutcome)];
    Then(cfg, s, start + loopSteps, finish);
    DeliveryNeverOverlaps(cfg, s, w, outcomes);
    var plan := Process(cfg, s.db, j, outcomes, s.now, s2.now);
    assert plan.commits == [s1.db] + loop.commits + Commits(cfg, s2, finish);
  }

  lemma DeliveryNeverOverlaps(cfg: Config, s: State, w: WorkerId, outcomes: seq<CrawlOutcome>)
    requires IsRun(cfg, s, DeliverySteps(w, outcomes))
    ensures NoOverlap(cfg, s, DeliverySteps(w, outcomes))
  {
    LoopStepsAreWorkerSteps(w, outcomes, |outcomes|);
    WorkerStepsNeverOverlap(cfg, s, DeliverySteps(w, outcomes), w);
  }

  /** So is one that skips: it only reads, commits nothing, and acks. */
  lemma SkipIsARun(cfg: Config, s: State, w: WorkerId, m: Message)
    requires IsBusy(s, w) && s.workers[w] == Busy(m, Received) && m.body.Valid?
    requires m.body.job in s.db.jobs ==> s.db.jobs[m.body.job].status == Completed
    ensures var steps := [Advance(w, Read)];
            && IsRun(cfg, s, steps) && IsBusy(Final(cfg, s, steps), w)
            && Final(cfg, s, steps).workers[w] == Busy(m, Settling(SettlementOf(SkippedOutcome)))
            && Commits(cfg, s, steps) == []
  {
    OneStep(cfg, s, s, w, m, Received, Read);
  }

  lemma {:induction false} LoopStepsAreWorkerSteps(w: WorkerId, outcomes: seq<CrawlOutcome>, n: nat)
    requires n <= |outcomes|
    ensures WorkerSteps(LoopSteps(w, outcomes, n), w)
  {
    if n != 0 {
      LoopStepsAreWorkerSteps(w, outcomes, n - 1);
    }
  }
}
