/** When a failed job stays failed: step by step, and over every continuation. */
module Finality {
  import opened Domain
  import opened Tables
  import opened JobRows
  import opened Protocol
  import opened Messages
  import opened Sessions
  import opened Lifecycle
  import opened Snapshot
  import opened Invariant
  import opened Guarantees
  import opened Plan

  // ----- one step -----

  lemma StartChangesRow(cfg: Config, s: State, w: WorkerId, j: JobId)
    requires SessionInv(cfg, s) && Enabled(cfg, s, Advance(w, CommitStart)) && Mentions(s.workers[w].msg, j)
    ensures j in s.db.jobs && Apply(cfg, s, Advance(w, CommitStart)).db.jobs[j] != s.db.jobs[j]
  {
    assert WorkerInv(cfg, s.db.jobs, s.api, s.workers[w]);
  }

  /** The step commits a section of `j` that differs from the one stored. */
  predicate StoresAnew(s: State, step: Step, j: JobId) {
    && step.Advance? && step.work == CommitSection && IsBusy(s, step.w) && Mentions(s.workers[step.w].msg, j)
    && s.workers[step.w].pc.Persisting?
    && var result := s.workers[step.w].pc.result;
       || (result.hockey != [] && result.hockey != RowsOf(s.db.hockey, j))
       || (result.oscar != [] && result.oscar != RowsOf(s.db.oscar, j))
  }

  /** The step commits the outcome of an attempt of `j`. */
  predicate Concludes(s: State, step: Step, j: JobId) {
    step.Advance? && step.work == CommitOutcome && IsBusy(s, step.w) && Mentions(s.workers[step.w].msg, j)
  }

  lemma SectionStores(cfg: Config, s: State, w: WorkerId, j: JobId)
    requires Enabled(cfg, s, Advance(w, CommitSection)) && Mentions(s.workers[w].msg, j)
    ensures j in s.db.jobs
    ensures var step := Advance(w, CommitSection);
            SameJob(s.db, Apply(cfg, s, step).db, j) <==> !StoresAnew(s, step, j)
  {
    PersistEffect(s.db, j, s.workers[w].pc.result, j);
  }

  /** An outcome committed over a failed row, which then was overwritten, changes its status or its error. */
  lemma OutcomeChangesRow(cfg: Config, s: State, w: WorkerId, j: JobId)
    requires SessionInv(cfg, s) && UnseenInv(s) && Enabled(cfg, s, Advance(w, CommitOutcome))
    requires Mentions(s.workers[w].msg, j) && j in s.db.jobs && s.db.jobs[j].status == Failed
    ensures Apply(cfg, s, Advance(w, CommitOutcome)).db.jobs[j] != s.db.jobs[j]
  {
    assert WorkerInv(cfg, s.db.jobs, s.api, s.workers[w]) && UnseenWorker(s.db.jobs, s.workers[w]);
  }

  /** A failed job is being worked on past its start only if it was overwritten during the attempt. */
  lemma FailedAndWorkedOn(cfg: Config, s: State, w: WorkerId, j: JobId)
    requires SessionInv(cfg, s) && IsBusy(s, w) && Mentions(s.workers[w].msg, j) && j in s.db.jobs && j in s.api
    requires s.workers[w].pc.Persisting? || s.workers[w].pc.Marked?
    ensures s.db.jobs[j].status == Failed ==> !Clean(s.api[j])
  {
    assert WorkerInv(cfg, s.db.jobs, s.api, s.workers[w]);
  }

  lemma CompensationChangesRow(cfg: Config, s: State, step: Step, j: JobId)
    requires TimesInv(s) && Enabled(cfg, s, step) && Compensates(step, j)
    ensures j in s.db.jobs && Apply(cfg, s, step).db.jobs[j] != s.db.jobs[j]
  {
    var row := s.db.jobs[j];
    assert Stamped(s.stamps, j, row.finishedAt);
    assert PublishFailureRow(row, step.request.detail, s.now).finishedAt == Some(s.now);
  }

  lemma FailedAdvance(cfg: Config, s: State, w: WorkerId, work: Work, j: JobId)
    requires SessionInv(cfg, s) && UnseenInv(s) && Enabled(cfg, s, Advance(w, work))
    requires j in s.db.jobs && j in s.api && s.db.jobs[j].status == Failed
    ensures var step := Advance(w, work);
            SameJob(s.db, Apply(cfg, s, step).db, j) <==>
              !Starts(s, step, j) && !StoresAnew(s, step, j) && !Concludes(s, step, j)
  {
    if !Mentions(s.workers[w].msg, j) {
      WorkSameJob(cfg, s.db, s.now, s.workers[w].msg, s.workers[w].pc, work, j);
    } else {
      match work
      case CommitStart => StartChangesRow(cfg, s, w, j);
      case CommitSection => SectionStores(cfg, s, w, j);
      case CommitOutcome => OutcomeChangesRow(cfg, s, w, j);
      case _ => assert Apply(cfg, s, Advance(w, work)).db == s.db;
    }
  }

  lemma FailedRequest(cfg: Config, s: State, i: JobId, request: Request, j: JobId)
    requires TimesInv(s) && RequestEnabled(s, i, request) && j in s.db.jobs
    ensures SameJob(s.db, Requested(s, i, request).db, j) <==> !Compensates(Enqueue(i, request), j)
  {
    RequestFrame(s, i, request);
    if Compensates(Enqueue(i, request), j) {
      CompensationChangesRow(cfg, s, Enqueue(i, request), j);
    }
  }

  lemma FailedStep(cfg: Config, s: State, step: Step, j: JobId)
    requires SessionInv(cfg, s) && UnseenInv(s) && TimesInv(s) && Enabled(cfg, s, step)
    requires j in s.db.jobs && j in s.api && s.db.jobs[j].status == Failed
    ensures SameJob(s.db, Apply(cfg, s, step).db, j) <==>
              !Starts(s, step, j) && !Compensates(step, j) && !StoresAnew(s, step, j) && !Concludes(s, step, j)
  {
    match step
    case Advance(w, work) => FailedAdvance(cfg, s, w, work, j);
    case Enqueue(i, request) => FailedRequest(cfg, s, i, request, j);
    case _ => assert Apply(cfg, s, step).db == s.db;
  }

  /**
   * A step leaves a failed job's row and results alone if and only if it neither commits a new start of
   * the job, nor is its enqueue's compensating write, nor commits a new section or the outcome of an
   * attempt; the last two can only happen to a job that an ambiguous publish has overwritten.
   */
  lemma FailedIsFinal(cfg: Config, s: State, step: Step, j: JobId)
    requires Reachable(cfg, s) && Enabled(cfg, s, step)
    requires j in s.db.jobs && s.db.jobs[j].status == Failed
    ensures j in s.api
    ensures SameJob(s.db, Apply(cfg, s, step).db, j) <==>
              !Starts(s, step, j) && !Compensates(step, j) && !StoresAnew(s, step, j) && !Concludes(s, step, j)
    ensures StoresAnew(s, step, j) || Concludes(s, step, j) ==> !Clean(s.api[j])
  {
    ReachableInv(cfg, s);
    FailedStep(cfg, s, step, j);
    if StoresAnew(s, step, j) || Concludes(s, step, j) {
      FailedAndWorkedOn(cfg, s, step.w, j);
    }
  }

  // ----- every continuation -----

  /** Some run without an overlapping delivery leads from `s` to `t`. */
  ghost predicate Leads(cfg: Config, s: State, t: State) {
    exists steps :: IsRun(cfg, s, steps) && NoOverlap(cfg, s, steps) && Final(cfg, s, steps) == t
  }

  lemma LeadsToItself(cfg: Config, s: State)
    ensures Leads(cfg, s, s)
  {
    assert IsRun(cfg, s, []) && NoOverlap(cfg, s, []) && Final(cfg, s, []) == s;
  }

  lemma LeadsOn(cfg: Config, s: State, t: State, step: Step)
    requires Leads(cfg, s, t) && Enabled(cfg, t, step) && !Overlaps(t, step)
    ensures Leads(cfg, s, Apply(cfg, t, step))
  {
    var steps :| IsRun(cfg, s, steps) && NoOverlap(cfg, s, steps) && Final(cfg, s, steps) == t;
    var t' := Apply(cfg, t, step);
    assert [step][1..] == [] && IsRun(cfg, t', []) && NoOverlap(cfg, t', []) && Final(cfg, t', []) == t';
    assert IsRun(cfg, t, [step]) && NoOverlap(cfg, t, [step]) && Final(cfg, t, [step]) == t';
    ConcatFinal(cfg, s, steps, [step]);
    ConcatNoOverlap(cfg, s, steps, [step]);
  }

  /** A worker that could take the message next, after crashing if it is busy. */
  predicate Candidates(s: State, m: Message, w: WorkerId) {
    && w in s.workers
    && (m in s.broker.unacked ==> w == s.broker.unacked[m])
    && (forall v | v in s.workers && v != w && InProcess(s, v) :: s.workers[v].msg != m)
  }

  lemma SomeCandidate(s: State, m: Message) returns (w: WorkerId)
    requires MessageInv(s) && Exclusive(s) && s.workers != map[] && m.body.Valid?
    requires m in s.broker.ready || m in s.broker.unacked
    ensures Candidates(s, m, w)
  {
    if m in s.broker.unacked {
      w := s.broker.unacked[m];
      assert Active(s, w);
      assert forall v | v in s.workers && InProcess(s, v) :: Active(s, v);
    } else if v :| v in s.workers && InProcess(s, v) && s.workers[v].msg == m {
      w := v;
      assert forall u | u in s.workers && InProcess(s, u) :: Active(s, u);
    } else {
      w :| w in s.workers;
    }
  }

  lemma FreeWorker(cfg: Config, s: State, m: Message, w: WorkerId) returns (t: State)
    requires MessageInv(s) && Candidates(s, m, w) && (m in s.broker.ready || m in s.broker.unacked)
    ensures Leads(cfg, s, t) && t.db == s.db && Enabled(cfg, t, Deliver(w, m)) && !Overlaps(t, Deliver(w, m))
  {
    LeadsToItself(cfg, s);
    if s.workers[w].Idle? {
      t := s;
    } else {
      t := Apply(cfg, s, Abort(w, WorkerCrash));
      LeadsOn(cfg, s, s, Abort(w, WorkerCrash));
      assert forall v | v in t.workers && InProcess(t, v) :: v != w && InProcess(s, v) && t.workers[v] == s.workers[v];
    }
  }

  /** Worker `w` has committed a start of `j` and is about to call its first crawler. */
  predicate BeginsCrawling(t: State, w: WorkerId, m: Message, j: JobId) {
    && Mentions(m, j) && j in t.db.jobs && w in t.workers
    && t.workers[w] == Busy(m, Crawling(JobCopy(t.db.jobs[j], t.db.jobs[j]), 0, 0, []))
  }

  /** A job with a live message, not completed, can be started again. */
  lemma LiveCanStart(cfg: Config, s: State, m: Message, j: JobId) returns (t: State, w: WorkerId)
    requires Inv(cfg, s) && s.workers != map[] && (m in s.broker.ready || m in s.broker.unacked) && Mentions(m, j)
    requires j in s.db.jobs && s.db.jobs[j].status != Completed
    ensures Leads(cfg, s, t) && BeginsCrawling(t, w, m, j)
    ensures t.db.jobs[j].status == Running && t.db.jobs[j].source == s.db.jobs[j].source
  {
    w := SomeCandidate(s, m);
    var t0 := FreeWorker(cfg, s, m, w);
    var t1 := Apply(cfg, t0, Deliver(w, m));
    LeadsOn(cfg, s, t0, Deliver(w, m));
    t := StartedFrom(cfg, s, t1, w, m, j);
  }

  lemma StartedFrom(cfg: Config, s: State, t1: State, w: WorkerId, m: Message, j: JobId) returns (t: State)
    requires Leads(cfg, s, t1) && w in t1.workers && t1.workers[w] == Busy(m, Received) && Mentions(m, j)
    requires j in t1.db.jobs && t1.db.jobs[j].status != Completed
    ensures Leads(cfg, s, t) && BeginsCrawling(t, w, m, j)
    ensures t.db.jobs[j].status == Running && t.db.jobs[j].source == t1.db.jobs[j].source
  {
    var row := t1.db.jobs[j];
    var t2 := Apply(cfg, t1, Advance(w, Read));
    LeadsOn(cfg, s, t1, Advance(w, Read));
    assert t2.workers[w] == Busy(m, Loaded(JobCopy(row, MarkRunning(row, t1.now)))) && t2.db == t1.db;
    t := Apply(cfg, t2, Advance(w, CommitStart));
    LeadsOn(cfg, s, t2, Advance(w, CommitStart));
  }

  lemma {:induction false} DormantStaysFailed(cfg: Config, s: State, steps: seq<Step>, j: JobId)
    requires Dormant(s, j) && IsRun(cfg, s, steps) && s.db.jobs[j].status == Failed
    ensures j in Final(cfg, s, steps).db.jobs && Final(cfg, s, steps).db.jobs[j].status == Failed
    decreases |steps|
  {
    if steps != [] {
      DormantStep(cfg, s, steps[0], j);
      CompensationFails(cfg, s, steps[0], j);
      DormantStaysFailed(cfg, Apply(cfg, s, steps[0]), steps[1..], j);
    }
  }

  lemma CompensationFails(cfg: Config, s: State, step: Step, j: JobId)
    requires Enabled(cfg, s, step)
    ensures Compensates(step, j) ==> Apply(cfg, s, step).db.jobs[j].status == Failed
  {
  }

  /**
   * A failed job leaves that status in some continuation if and only if a live message still names it;
   * without one it stays failed whatever happens, overlapping deliveries included.
   */
  lemma FailedRestartsIffLive(cfg: Config, s: State, j: JobId)
    requires Reachable(cfg, s) && j in s.db.jobs && s.db.jobs[j].status == Failed && s.workers != map[]
    ensures HasLiveMessage(s, j) <==> exists t :: Leads(cfg, s, t) && j in t.db.jobs && t.db.jobs[j].status != Failed
    ensures HasLiveMessage(s, j) <==> exists t :: Leads(cfg, s, t) && j in t.db.jobs && t.db.jobs[j].status == Running
    ensures !HasLiveMessage(s, j) ==>
              forall steps | IsRun(cfg, s, steps) ::
                j in Final(cfg, s, steps).db.jobs && Final(cfg, s, steps).db.jobs[j].status == Failed
  {
    ReachableInv(cfg, s);
    if m :| m in s.broker.ready + s.broker.unacked.Keys && Mentions(m, j) {
      var t, _ := LiveCanStart(cfg, s, m, j);
    } else {
      assert RowInv(cfg, s.db.jobs[j], s.api[j]);
      NotLiveIsDormant(s, j);
      forall steps | IsRun(cfg, s, steps)
        ensures j in Final(cfg, s, steps).db.jobs && Final(cfg, s, steps).db.jobs[j].status == Failed
      {
        DormantStaysFailed(cfg, s, steps, j);
      }
    }
  }
}
