/** The deliveries that live messages have left, as a quantity every step moves by what it should. */
module Budgets {
  import opened Domain
  import opened Tables
  import opened Protocol
  import opened Messages
  import opened Sessions
  import opened Lifecycle
  import opened Ledger
  import opened Invariant
  import opened Guarantees

  // ----- one message -----

  /** `max(1, max_attempts - attempts)`, and 1 if the job is missing or completed or the payload invalid. */
  function Budget(cfg: Config, jobs: map<JobId, Job>, body: Body): nat {
    if body.Valid? && body.job in jobs && jobs[body.job].status != Completed
       && cfg.maxAttempts - jobs[body.job].attempts > 1
    then cfg.maxAttempts - jobs[body.job].attempts
    else 1
  }

  /** Attempts left once the current one is counted. */
  function AttemptsLeft(cfg: Config, jobs: map<JobId, Job>, body: Body): nat {
    if body.Valid? && body.job in jobs && cfg.maxAttempts > jobs[body.job].attempts
    then cfg.maxAttempts - jobs[body.job].attempts
    else 0
  }

  /** The deliveries left after the one under way, which has reached `pc`. */
  function BudgetAt(cfg: Config, jobs: map<JobId, Job>, body: Body, pc: Pc): nat {
    match pc
    case Received => Budget(cfg, jobs, body) - 1
    case Loaded(_) => Budget(cfg, jobs, body) - 1
    case Crawling(_, _, _, _) => AttemptsLeft(cfg, jobs, body)
    case Persisting(_, _, _, _, _) => AttemptsLeft(cfg, jobs, body)
    case Marked(_, _) => AttemptsLeft(cfg, jobs, body)
    case Settling(how) => if how == Requeue then Budget(cfg, jobs, body) else Budget(cfg, jobs, body) - 1
  }

  /** The deliveries a message has left when nothing interrupts them; a settled one has none. */
  function Remaining(cfg: Config, s: State, m: Message): nat {
    if m in s.broker.ready then Budget(cfg, s.db.jobs, m.body)
    else if m in s.broker.unacked && IsBusy(s, s.broker.unacked[m]) then
      BudgetAt(cfg, s.db.jobs, m.body, s.workers[s.broker.unacked[m]].pc)
    else 0
  }

  lemma WorkBudget(cfg: Config, db: Db, api: map<JobId, ApiPc>, now: Time, m: Message, pc: Pc, work: Work)
    requires WorkEnabled(db, m.body, pc, work) && WorkerInv(cfg, db.jobs, api, Busy(m, pc))
    ensures var e := Worked(cfg, db, now, m.body, pc, work);
            && BudgetAt(cfg, e.db.jobs, m.body, e.pc) <= BudgetAt(cfg, db.jobs, m.body, pc)
            && Budget(cfg, e.db.jobs, m.body) <= Budget(cfg, db.jobs, m.body)
  {
  }

  lemma HeldByItsWorker(s: State, w: WorkerId)
    requires MessageInv(s) && Exclusive(s) && InProcess(s, w)
    ensures var m := s.workers[w].msg;
            m in s.broker.unacked && m.body.Valid? ==> s.broker.unacked[m] == w
  {
    var m := s.workers[w].msg;
    assert Active(s, w);
    if m in s.broker.unacked {
      assert Active(s, s.broker.unacked[m]);
    }
  }

  lemma OwnRemaining(cfg: Config, s: State, w: WorkerId, work: Work)
    requires MessageInv(s) && Exclusive(s) && SessionInv(cfg, s) && Enabled(cfg, s, Advance(w, work))
    ensures var m := s.workers[w].msg; Remaining(cfg, Apply(cfg, s, Advance(w, work)), m) <= Remaining(cfg, s, m)
  {
    var Busy(m, pc) := s.workers[w];
    assert WorkerInv(cfg, s.db.jobs, s.api, s.workers[w]);
    WorkBudget(cfg, s.db, s.api, s.now, m, pc, work);
    HeldByItsWorker(s, w);
  }

  lemma OtherRemaining(cfg: Config, s: State, w: WorkerId, work: Work, n: Message)
    requires MessageInv(s) && Enabled(cfg, s, Advance(w, work)) && n in s.broker.published && n != s.workers[w].msg
    ensures Remaining(cfg, Apply(cfg, s, Advance(w, work)), n) == Remaining(cfg, s, n)
  {
    var Busy(m, pc) := s.workers[w];
    WorkFrame(cfg, s.db, s.now, m.body, pc, work);
    assert n.body.Valid? && m.body.Valid? && n.body.job == m.body.job ==> n.body.job !in s.db.jobs;
  }

  /** A worker's steps change no budget but its own message's, and that one only downwards. */
  lemma AdvanceRemaining(cfg: Config, s: State, w: WorkerId, work: Work, n: Message)
    requires MessageInv(s) && Exclusive(s) && SessionInv(cfg, s) && Enabled(cfg, s, Advance(w, work))
    requires n in s.broker.published
    ensures Remaining(cfg, Apply(cfg, s, Advance(w, work)), n) <= Remaining(cfg, s, n)
  {
    if n == s.workers[w].msg {
      OwnRemaining(cfg, s, w, work);
    } else {
      OtherRemaining(cfg, s, w, work, n);
    }
  }

  lemma DeliverRemaining(cfg: Config, s: State, w: WorkerId, m: Message, n: Message)
    requires MessageInv(s) && Enabled(cfg, s, Deliver(w, m)) && n in s.broker.published
    ensures Remaining(cfg, Apply(cfg, s, Deliver(w, m)), n) + (if n == m then 1 else 0) == Remaining(cfg, s, n)
  {
  }

  /** Settling costs nothing more; giving the message back uninvited makes up for at most the delivery it cuts short. */
  lemma ReleaseRemaining(cfg: Config, s: State, w: WorkerId, how: Settlement, s': State, n: Message)
    requires MessageInv(s) && Releases(s, w, how, s') && n in s.broker.published
    ensures Remaining(cfg, s', n) <= Remaining(cfg, s, n) + (if n == s.workers[w].msg && how == Requeue then 1 else 0)
    ensures s.workers[w].pc == Settling(how) ==> Remaining(cfg, s', n) <= Remaining(cfg, s, n)
  {
  }

  // ----- all messages -----

  ghost function Sum(f: Message -> nat, ms: set<Message>): nat
  {
    if ms == {} then 0
    else
      var m :| m in ms;
      f(m) + Sum(f, ms - {m})
  }

  lemma {:induction false} SumSplits(f: Message -> nat, ms: set<Message>, m: Message)
    requires m in ms
    ensures Sum(f, ms) == f(m) + Sum(f, ms - {m})
    decreases |ms|
  {
    var x :| x in ms && Sum(f, ms) == f(x) + Sum(f, ms - {x});
    if x != m {
      SumSplits(f, ms - {x}, m);
      SumSplits(f, ms - {m}, x);
      assert ms - {x} - {m} == ms - {m} - {x};
    }
  }

  lemma {:induction false} SumMonotone(f: Message -> nat, g: Message -> nat, ms: set<Message>)
    requires forall m | m in ms :: g(m) <= f(m)
    ensures Sum(g, ms) <= Sum(f, ms)
    decreases |ms|
  {
    if ms != {} {
      var m :| m in ms;
      SumSplits(f, ms, m);
      SumSplits(g, ms, m);
      SumMonotone(f, g, ms - {m});
    }
  }

  /** One summand may move by up to `up` and must move by at least `down`; the others do not grow. */
  lemma SumMoves(f: Message -> nat, g: Message -> nat, ms: set<Message>, m: Message, down: nat, up: nat)
    requires m in ms && g(m) + down <= f(m) + up && forall n | n in ms && n != m :: g(n) <= f(n)
    ensures Sum(g, ms) + down <= Sum(f, ms) + up
  {
    SumSplits(f, ms, m);
    SumSplits(g, ms, m);
    SumMonotone(f, g, ms - {m});
  }

  lemma {:induction false} SumBound(f: Message -> nat, ms: set<Message>, live: set<Message>, limit: nat)
    requires forall m | m in ms :: f(m) <= if m in live then limit else 0
    ensures Sum(f, ms) <= |ms * live| * limit
    decreases |ms|
  {
    if ms != {} {
      var m :| m in ms;
      SumSplits(f, ms, m);
      SumBound(f, ms - {m}, live, limit);
      var rest := (ms - {m}) * live;
      if m in live {
        assert ms * live == rest + {m};
        OneMoreLimit(|rest|, limit);
      } else {
        assert ms * live == rest;
      }
    }
  }

  lemma OneMoreLimit(n: nat, limit: nat)
    ensures (n + 1) * limit == n * limit + limit
  {
  }

  ghost function Left(cfg: Config, s: State): Message -> nat {
    (m: Message) => Remaining(cfg, s, m)
  }

  /** The deliveries left to all messages. */
  ghost function LiveBudget(cfg: Config, s: State): nat {
    Sum(Left(cfg, s), s.broker.published)
  }

  lemma RemainingBound(cfg: Config, s: State, m: Message)
    ensures Remaining(cfg, s, m) <= AttemptLimit(cfg)
    ensures m !in s.broker.ready && m !in s.broker.unacked ==> Remaining(cfg, s, m) == 0
  {
  }

  /** At most `max(1, max_attempts)` for each live message. */
  lemma LiveBudgetBound(cfg: Config, s: State)
    requires Conserved(s.broker, s.now)
    ensures LiveBudget(cfg, s) <= |s.broker.ready + s.broker.unacked.Keys| * AttemptLimit(cfg)
  {
    var live := s.broker.ready + s.broker.unacked.Keys;
    var f := Left(cfg, s);
    forall m | m in s.broker.published ensures f(m) <= if m in live then AttemptLimit(cfg) else 0 {
      RemainingBound(cfg, s, m);
    }
    SumBound(f, s.broker.published, live, AttemptLimit(cfg));
    assert s.broker.published * live == live;
  }

  // ----- runs -----

  /** Neither a new request nor a stray message. */
  predicate NoNews(step: Step) {
    !step.Enqueue? && !step.Stray?
  }

  predicate Interrupts(step: Step) {
    step.Abort? || step.LoseConnection?
  }

  lemma PublishedStays(cfg: Config, s: State, step: Step)
    requires Enabled(cfg, s, step) && NoNews(step)
    ensures Apply(cfg, s, step).broker.published == s.broker.published
  {
  }

  /** A delivery uses up one of the budget, an interruption gives back at most one, nothing else adds any. */
  lemma BudgetStep(cfg: Config, s: State, step: Step)
    requires MessageInv(s) && Exclusive(s) && SessionInv(cfg, s) && Enabled(cfg, s, step) && NoNews(step)
    ensures LiveBudget(cfg, Apply(cfg, s, step)) + (if step.Deliver? then 1 else 0)
         <= LiveBudget(cfg, s) + (if Interrupts(step) then 1 else 0)
  {
    var s' := Apply(cfg, s, step);
    var f, g, ms := Left(cfg, s), Left(cfg, s'), s.broker.published;
    PublishedStays(cfg, s, step);
    match step
    case Deliver(w, m) =>
      forall n | n in ms ensures g(n) + (if n == m then 1 else 0) == f(n) {
        DeliverRemaining(cfg, s, w, m, n);
      }
      SumMoves(f, g, ms, m, 1, 0);
    case Advance(w, work) =>
      forall n | n in ms ensures g(n) <= f(n) {
        AdvanceRemaining(cfg, s, w, work, n);
      }
      SumMonotone(f, g, ms);
    case Settle(w) =>
      SettleReleases(cfg, s, w);
      forall n | n in ms ensures g(n) <= f(n) {
        ReleaseRemaining(cfg, s, w, s.workers[w].pc.how, s', n);
      }
      SumMonotone(f, g, ms);
    case Abort(w, cause) =>
      AbortReleases(cfg, s, w, cause);
      InterruptionStep(cfg, s, w, s');
    case LoseConnection(w) =>
      LoseReleases(cfg, s, w);
      InterruptionStep(cfg, s, w, s');
  }

  lemma InterruptionStep(cfg: Config, s: State, w: WorkerId, s': State)
    requires MessageInv(s) && Releases(s, w, Requeue, s') && s'.broker.published == s.broker.published
    ensures LiveBudget(cfg, s') <= LiveBudget(cfg, s) + 1
  {
    var f, g, m := Left(cfg, s), Left(cfg, s'), s.workers[w].msg;
    forall n | n in s.broker.published ensures g(n) <= f(n) + (if n == m then 1 else 0) {
      ReleaseRemaining(cfg, s, w, Requeue, s', n);
    }
    SumMoves(f, g, s.broker.published, m, 0, 1);
  }

  function Deliveries(steps: seq<Step>): nat {
    if steps == [] then 0 else (if steps[0].Deliver? then 1 else 0) + Deliveries(steps[1..])
  }

  function Interruptions(steps: seq<Step>): nat {
    if steps == [] then 0 else (if Interrupts(steps[0]) then 1 else 0) + Interruptions(steps[1..])
  }

  lemma {:induction false} BudgetRun(cfg: Config, s: State, steps: seq<Step>)
    requires Inv(cfg, s) && IsRun(cfg, s, steps) && NoOverlap(cfg, s, steps)
    requires forall step | step in steps :: NoNews(step)
    ensures Deliveries(steps) + LiveBudget(cfg, Final(cfg, s, steps)) <= LiveBudget(cfg, s) + Interruptions(steps)
    decreases |steps|
  {
    if steps != [] {
      BudgetStep(cfg, s, steps[0]);
      InvStep(cfg, s, steps[0]);
      BudgetRun(cfg, Apply(cfg, s, steps[0]), steps[1..]);
    }
  }

  /**
   * From any reachable state, with any number of workers, the deliveries still made without new messages
   * are at most the sum of `max(1, max_attempts - attempts)` over the live messages, less what is under
   * way, plus one for each interruption; what is then left is what they did not use.
   */
  lemma DeliveriesLeft(cfg: Config, s: State, steps: seq<Step>)
    requires Reachable(cfg, s) && IsRun(cfg, s, steps) && NoOverlap(cfg, s, steps)
    requires forall step | step in steps :: NoNews(step)
    ensures Deliveries(steps) + LiveBudget(cfg, Final(cfg, s, steps)) <= LiveBudget(cfg, s) + Interruptions(steps)
    ensures LiveBudget(cfg, s) <= |s.broker.ready + s.broker.unacked.Keys| * AttemptLimit(cfg)
  {
    ReachableInv(cfg, s);
    BudgetRun(cfg, s, steps);
    LiveBudgetBound(cfg, s);
  }
}
