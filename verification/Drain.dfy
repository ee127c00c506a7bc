/** The queue drains: total delivery bound, progress, and termination without interruptions. */
module Drain {
  import opened Domain
  import opened Tables
  import opened Protocol
  import opened Messages
  import opened Sessions
  import opened Lifecycle
  import opened Ledger
  import opened Invariant
  import opened Guarantees
  import opened Budgets

  // ----- the total number of deliveries -----

  /** Deliveries recorded for the messages of `ms`. */
  function DeliveriesOf(log: seq<Event>, ms: set<Message>): nat {
    if log == [] then 0
    else
      var last := log[|log| - 1];
      DeliveriesOf(log[..|log| - 1], ms) + Indicator(last.Delivered? && last.msg in ms)
  }

  function InterruptionsOf(log: seq<Event>, ms: set<Message>): nat {
    if log == [] then 0
    else
      var last := log[|log| - 1];
      InterruptionsOf(log[..|log| - 1], ms) + Indicator(last.Interrupted? && last.msg in ms)
  }

  lemma {:induction false} SplitOffMessage(log: seq<Event>, ms: set<Message>, m: Message)
    requires m in ms
    ensures DeliveriesOf(log, ms) == DeliveriesOf(log, ms - {m}) + Count(log, Delivered(m))
    ensures InterruptionsOf(log, ms) == InterruptionsOf(log, ms - {m}) + Count(log, Interrupted(m))
  {
    if log != [] {
      var front, last := log[..|log| - 1], log[|log| - 1];
      SplitOffMessage(front, ms, m);
      assert log == front + [last];
      CountConcat(front, [last], Delivered(m));
      CountConcat(front, [last], Interrupted(m));
    }
  }

  lemma {:induction false} NoMessages(log: seq<Event>)
    ensures DeliveriesOf(log, {}) == 0 && InterruptionsOf(log, {}) == 0
  {
    if log != [] {
      NoMessages(log[..|log| - 1]);
    }
  }

  lemma {:induction false} SumDeliveries(log: seq<Event>, ms: set<Message>, limit: nat)
    requires forall m | m in ms :: Count(log, Delivered(m)) <= limit + Count(log, Interrupted(m))
    ensures DeliveriesOf(log, ms) <= |ms| * limit + InterruptionsOf(log, ms)
    decreases |ms|
  {
    if ms == {} {
      NoMessages(log);
    } else {
      var m :| m in ms;
      var rest := ms - {m};
      SplitOffMessage(log, ms, m);
      assert DeliveriesOf(log, rest) <= |rest| * limit + InterruptionsOf(log, rest) by {
        SumDeliveries(log, rest, limit);
      }
      OneMoreLimit(|rest|, limit);
      assert |ms| == |rest| + 1;
    }
  }

  /**
   * `k` messages are delivered at most `k * max(1, max_attempts)` times, plus once per interruption.
   */
  lemma TotalDeliveryBound(cfg: Config, s: State)
    requires Reachable(cfg, s)
    ensures DeliveriesOf(s.log, s.broker.published)
         <= |s.broker.published| * AttemptLimit(cfg) + InterruptionsOf(s.log, s.broker.published)
  {
    forall m | m in s.broker.published
      ensures Count(s.log, Delivered(m)) <= AttemptLimit(cfg) + Count(s.log, Interrupted(m))
    {
      DeliveryBound(cfg, s, m);
    }
    SumDeliveries(s.log, s.broker.published, AttemptLimit(cfg));
  }

  // ----- the work left in a delivery -----

  /** A step of the worker or the broker that is neither a new request nor an interruption. */
  predicate Quiet(step: Step) {
    step.Deliver? || step.Advance? || step.Settle?
  }

  /** How many steps a worker needs at most until it is idle again. */
  function Rank(worker: Worker): nat {
    if worker.Idle? then 0
    else
      match worker.pc
      case Received => 9
      case Loaded(_) => 8
      case Crawling(ses, done, _, _) => 3 + 2 * CrawlersLeft(ses.job.source, done)
      case Persisting(ses, done, _, _, _) => 2 + 2 * CrawlersLeft(ses.job.source, done)
      case Marked(_, _) => 2
      case Settling(_) => 1
  }

  /** Crawlers the loop has not run yet. */
  function CrawlersLeft(source: Source, done: nat): nat {
    if done <= |Registry(source)| then |Registry(source)| - done else 0
  }

  lemma WorkLowersRank(cfg: Config, db: Db, now: Time, m: Message, pc: Pc, work: Work)
    requires WorkEnabled(db, m.body, pc, work)
    ensures Rank(Busy(m, Worked(cfg, db, now, m.body, pc, work).pc)) < Rank(Busy(m, pc))
  {
  }

  /** Ranks of the workers with ids below `n`. */
  function SumRank(workers: map<WorkerId, Worker>, n: nat): nat {
    if n == 0 then 0
    else SumRank(workers, n - 1) + if n - 1 in workers then Rank(workers[n - 1]) else 0
  }

  lemma {:induction false} SumRankUpdate(workers: map<WorkerId, Worker>, w: WorkerId, worker: Worker, n: nat)
    requires w in workers
    ensures SumRank(workers[w := worker], n)
         == SumRank(workers, n) + if w < n then Rank(worker) - Rank(workers[w]) else 0
  {
    if n != 0 {
      SumRankUpdate(workers, w, worker, n - 1);
    }
  }

  lemma WorkLowers(cfg: Config, s: State, w: WorkerId, work: Work, n: nat)
    requires Enabled(cfg, s, Advance(w, work)) && w < n
    ensures SumRank(Apply(cfg, s, Advance(w, work)).workers, n) < SumRank(s.workers, n)
  {
    var Busy(m, pc) := s.workers[w];
    var e := Worked(cfg, s.db, s.now, m.body, pc, work);
    WorkLowersRank(cfg, s.db, s.now, m, pc, work);
    SumRankUpdate(s.workers, w, Busy(m, e.pc), n);
  }

  /** The steps still possible: the work in hand, and ten for each delivery left. */
  ghost function StepsLeft(cfg: Config, s: State, n: nat): nat {
    SumRank(s.workers, n) + 10 * LiveBudget(cfg, s)
  }

  /** Every quiet step leaves fewer. */
  lemma QuietStep(cfg: Config, s: State, step: Step, n: nat)
    requires MessageInv(s) && Exclusive(s) && SessionInv(cfg, s)
    requires Enabled(cfg, s, step) && Quiet(step) && forall w | w in s.workers :: w < n
    ensures StepsLeft(cfg, Apply(cfg, s, step), n) < StepsLeft(cfg, s, n)
    ensures Apply(cfg, s, step).workers.Keys == s.workers.Keys
  {
    BudgetStep(cfg, s, step);
    match step
    case Deliver(w, m) => SumRankUpdate(s.workers, w, Busy(m, Received), n);
    case Advance(w, work) => WorkLowers(cfg, s, w, work, n);
    case Settle(w) => SumRankUpdate(s.workers, w, Idle, n);
  }

  lemma {:induction false} QuietRun(cfg: Config, s: State, steps: seq<Step>, n: nat)
    requires Inv(cfg, s) && IsRun(cfg, s, steps) && NoOverlap(cfg, s, steps)
    requires (forall step | step in steps :: Quiet(step)) && forall w | w in s.workers :: w < n
    ensures |steps| + StepsLeft(cfg, Final(cfg, s, steps), n) <= StepsLeft(cfg, s, n)
    decreases |steps|
  {
    if steps != [] {
      QuietStep(cfg, s, steps[0], n);
      InvStep(cfg, s, steps[0]);
      QuietRun(cfg, Apply(cfg, s, steps[0]), steps[1..], n);
    }
  }

  /**
   * Without new requests and interruptions the system stops: a quiet run is no longer than the work in
   * hand plus ten steps for each delivery the live messages have left.
   */
  lemma DrainTerminates(cfg: Config, s: State, steps: seq<Step>, n: nat)
    requires Reachable(cfg, s) && IsRun(cfg, s, steps) && NoOverlap(cfg, s, steps)
    requires (forall step | step in steps :: Quiet(step)) && forall w | w in s.workers :: w < n
    ensures |steps| <= SumRank(s.workers, n) + 10 * LiveBudget(cfg, s)
  {
    ReachableInv(cfg, s);
    QuietRun(cfg, s, steps, n);
  }

  /** The step a busy worker can take next, whatever its crawlers do. */
  function NextStep(s: State, w: WorkerId): Step
    requires IsBusy(s, w)
  {
    match s.workers[w].pc
    case Received => Advance(w, Read)
    case Loaded(_) => Advance(w, CommitStart)
    case Crawling(ses, done, _, _) =>
      Advance(w, if done < |Registry(ses.job.source)| then CrawlerReturns(Raised("")) else MarkOutcome)
    case Persisting(_, _, _, _, _) => Advance(w, CommitSection)
    case Marked(_, _) => Advance(w, CommitOutcome)
    case Settling(_) => Settle(w)
  }

  lemma NextStepEnabled(cfg: Config, s: State, w: WorkerId)
    requires IsBusy(s, w) && WorkerInv(cfg, s.db.jobs, s.api, s.workers[w])
    ensures Quiet(NextStep(s, w)) && !NextStep(s, w).Deliver? && Enabled(cfg, s, NextStep(s, w))
  {
  }

  /** Nothing blocks: until the queue is empty and every worker idle, some quiet step can be taken. */
  lemma Progress(cfg: Config, s: State) returns (step: Step)
    requires Reachable(cfg, s) && s.workers != map[]
    requires s.broker.ready != {} || exists w | w in s.workers :: IsBusy(s, w)
    ensures Quiet(step) && Enabled(cfg, s, step) && !Overlaps(s, step)
  {
    ReachableInv(cfg, s);
    if w :| w in s.workers && IsBusy(s, w) {
      step := NextStep(s, w);
      NextStepEnabled(cfg, s, w);
    } else {
      var w :| w in s.workers;
      var m :| m in s.broker.ready;
      step := Deliver(w, m);
    }
  }

  /** A state in which no quiet step is left has drained, and every job the API completed enqueueing is finished. */
  lemma StoppedMeansFinished(cfg: Config, s: State, j: JobId)
    requires Reachable(cfg, s) && s.workers != map[]
    requires forall step :: Quiet(step) && Enabled(cfg, s, step) ==> Overlaps(s, step)
    ensures s.broker.ready == {} && s.broker.unacked == map[]
    ensures j in s.db.jobs && j in s.api && !InsideEnqueue(s.api[j]) && s.api[j] != Died(None) ==>
            s.db.jobs[j].status == Completed || s.db.jobs[j].status == Failed
  {
    ReachableInv(cfg, s);
    if s.broker.ready != {} || exists w | w in s.workers :: IsBusy(s, w) {
      var step := Progress(cfg, s);
      assert false;
    }
    forall m ensures m !in s.broker.unacked {
    }
    if j in s.db.jobs && j in s.api && !InsideEnqueue(s.api[j]) && s.api[j] != Died(None) {
      DrainedMeansFinished(cfg, s, j);
    }
  }
}
