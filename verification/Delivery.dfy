/** One whole delivery, however far it gets and however it ends, is a run of the protocol. */
module Delivery {
  import opened Domain
  import opened Tables
  import opened JobRows
  import opened Protocol
  import opened Messages
  import opened Invariant
  import opened Plan

  /** The run leads from `s` to `t` without an overlapping delivery and makes these commits. */
  predicate Runs(cfg: Config, s: State, steps: seq<Step>, t: State, commits: seq<Db>) {
    && IsRun(cfg, s, steps) && NoOverlap(cfg, s, steps)
    && Final(cfg, s, steps) == t && Commits(cfg, s, steps) == commits
  }

  lemma RunsThen(cfg: Config, s: State, a: seq<Step>, t: State, c: seq<Db>, b: seq<Step>, u: State, d: seq<Db>)
    requires Runs(cfg, s, a, t, c) && Runs(cfg, t, b, u, d)
    ensures Runs(cfg, s, a + b, u, c + d)
  {
    Then(cfg, s, a, b);
    ConcatNoOverlap(cfg, s, a, b);
  }

  lemma RunsOne(cfg: Config, s: State, step: Step)
    requires Enabled(cfg, s, step) && !Overlaps(s, step) && !Committing(step)
    ensures Runs(cfg, s, [step], Apply(cfg, s, step), [])
  {
    var t := Apply(cfg, s, step);
    assert [step][1..] == [];
    assert IsRun(cfg, t, []) && NoOverlap(cfg, t, []) && Final(cfg, t, []) == t && Commits(cfg, t, []) == [];
  }

  // ----- a stretch of a worker's steps -----

  /** The worker's own steps move nothing but the worker and the database. */
  lemma {:induction false} WorkerFrame(cfg: Config, s: State, steps: seq<Step>, w: WorkerId)
    requires IsRun(cfg, s, steps) && WorkerSteps(steps, w) && IsBusy(s, w)
    ensures var t := Final(cfg, s, steps);
            && t.broker == s.broker && t.api == s.api && IsBusy(t, w)
            && t.workers[w].msg == s.workers[w].msg && t.workers == s.workers[w := t.workers[w]]
    decreases |steps|
  {
    if steps != [] {
      var s' := Apply(cfg, s, steps[0]);
      assert steps[0] in steps && steps[0] == Advance(w, steps[0].work);
      AdvanceFrame(cfg, s, w, steps[0].work);
      WorkerFrame(cfg, s', steps[1..], w);
      var last := Final(cfg, s', steps[1..]).workers[w];
      assert s'.workers[w := last] == s.workers[w := last];
    }
  }

  lemma AdvanceFrame(cfg: Config, s: State, w: WorkerId, work: Work)
    requires Enabled(cfg, s, Advance(w, work))
    ensures var t := Apply(cfg, s, Advance(w, work));
            && t.broker == s.broker && t.api == s.api && IsBusy(t, w)
            && t.workers[w].msg == s.workers[w].msg && t.workers == s.workers[w := t.workers[w]]
  {
  }

  /** Right before its `done + 1`-st commit a run has made the first `done` of its commits. */
  lemma {:induction false} CutBefore(cfg: Config, s: State, steps: seq<Step>, done: nat) returns (k: nat)
    requires IsRun(cfg, s, steps) && done < |Commits(cfg, s, steps)|
    ensures k < |steps| && IsRun(cfg, s, steps[..k]) && Committing(steps[k])
    ensures Enabled(cfg, Final(cfg, s, steps[..k]), steps[k])
    ensures Commits(cfg, s, steps[..k]) == Commits(cfg, s, steps)[..done]
    decreases |steps|
  {
    var s' := Apply(cfg, s, steps[0]);
    if Committing(steps[0]) && done == 0 {
      k := 0;
    } else {
      var rest := CutBefore(cfg, s', steps[1..], if Committing(steps[0]) then done - 1 else done);
      k := rest + 1;
      assert steps[..k] == [steps[0]] + steps[1..][..rest];
      CommitsFirst(cfg, s, steps[0], steps[1..][..rest]);
      assert steps == [steps[0]] + steps[1..];
      CommitsFirst(cfg, s, steps[0], steps[1..]);
      FinalFirst(cfg, s, steps[0], steps[1..][..rest]);
    }
  }

  lemma FinalFirst(cfg: Config, s: State, step: Step, rest: seq<Step>)
    requires Enabled(cfg, s, step) && IsRun(cfg, Apply(cfg, s, step), rest)
    ensures IsRun(cfg, s, [step] + rest) && Final(cfg, s, [step] + rest) == Final(cfg, Apply(cfg, s, step), rest)
  {
    assert ([step] + rest)[1..] == rest;
  }

  /** What a stretch commits last is what it leaves. */
  lemma {:induction false} LastCommitted(cfg: Config, s: State, steps: seq<Step>, w: WorkerId)
    requires IsRun(cfg, s, steps) && WorkerSteps(steps, w)
    ensures var commits := Commits(cfg, s, steps);
            Final(cfg, s, steps).db == if commits == [] then s.db else commits[|commits| - 1]
    decreases |steps|
  {
    if steps != [] {
      LastCommitted(cfg, Apply(cfg, s, steps[0]), steps[1..], w);
    }
  }

  // ----- how a delivery ends -----

  /** The connection may be lost first; then the worker settles, or the exception handler requeues. */
  function Ending(w: WorkerId, lost: bool, raised: bool): seq<Step> {
    (if lost then [LoseConnection(w)] else []) + [if raised then Abort(w, UnexpectedError) else Settle(w)]
  }

  lemma EndsAttached(cfg: Config, s: State, w: WorkerId, raised: bool)
    requires IsBusy(s, w)
    requires if raised then InProcess(s, w) && s.workers[w].msg.body.Valid? else s.workers[w].pc.Settling?
    ensures var step := if raised then Abort(w, UnexpectedError) else Settle(w);
            && Enabled(cfg, s, step)
            && var t := Apply(cfg, s, step);
               && t.workers == s.workers[w := Idle] && t.db == s.db && t.api == s.api
               && t.broker == SettleBroker(s, w, if raised then Requeue else s.workers[w].pc.how)
  {
  }

  lemma EndOfDelivery(cfg: Config, s: State, w: WorkerId, lost: bool, raised: bool) returns (t: State)
    requires Attached(s, w)
    requires if raised then InProcess(s, w) && s.workers[w].msg.body.Valid? else s.workers[w].pc.Settling?
    ensures Runs(cfg, s, Ending(w, lost, raised), t, [])
    ensures t.workers == s.workers[w := Idle] && t.db == s.db && t.api == s.api
    ensures t.broker == SettleMessage(s.broker, s.workers[w].msg,
                                      if lost || raised then Requeue else s.workers[w].pc.how)
  {
    var last := if raised then Abort(w, UnexpectedError) else Settle(w);
    if lost {
      var s1 := Apply(cfg, s, LoseConnection(w));
      RunsOne(cfg, s, LoseConnection(w));
      assert s1.workers == s.workers && s1.db == s.db && s1.api == s.api && !Attached(s1, w);
      EndsAttached(cfg, s1, w, raised);
      t := Apply(cfg, s1, last);
      RunsOne(cfg, s1, last);
      RunsThen(cfg, s, [LoseConnection(w)], s1, [], [last], t, []);
    } else {
      EndsAttached(cfg, s, w, raised);
      t := Apply(cfg, s, last);
      RunsOne(cfg, s, last);
      assert Ending(w, lost, raised) == [last];
    }
  }

  // ----- the whole delivery -----

  /** How the message leaves the worker after `done` of the planned commits. */
  function How(plan: Processed, done: nat, lost: bool): Settlement {
    if lost || done < |plan.commits| then Requeue else SettlementOf(plan.outcome)
  }

  /** The delivery of `m` to `w` in which `done` of the planned commits are made. */
  predicate DeliveryRun(cfg: Config, s: State, w: WorkerId, m: Message, plan: Processed, done: nat, lost: bool,
          steps: seq<Step>)
    requires done <= |plan.commits|
  {
    && IsRun(cfg, s, steps) && NoOverlap(cfg, s, steps) && [Deliver(w, m)] <= steps
    && Commits(cfg, s, steps) == plan.commits[..done]
    && var t := Final(cfg, s, steps);
       && t.workers == s.workers[w := Idle] && t.api == s.api
       && t.db == (if done == 0 then s.db else plan.commits[done - 1])
       && t.broker == SettleMessage(Deliverance(s.broker, m, w), m, How(plan, done, lost))
  }

  /** What the steps of `process` make of a delivered message when nothing interrupts them. */
  lemma WholePass(cfg: Config, s: State, w: WorkerId, m: Message, outcomes: seq<CrawlOutcome>)
    returns (steps: seq<Step>, finished: Time)
    requires IsBusy(s, w) && s.workers[w] == Busy(m, Received) && m.body.Valid?
    requires m.body.job in s.db.jobs ==> OutcomesFit(Registry(s.db.jobs[m.body.job].source), outcomes)
    ensures var plan := Process(cfg, s.db, m.body.job, outcomes, s.now, finished);
            && IsRun(cfg, s, steps) && WorkerSteps(steps, w) && Commits(cfg, s, steps) == plan.commits
            && IsBusy(Final(cfg, s, steps), w)
            && Final(cfg, s, steps).workers[w] == Busy(m, Settling(SettlementOf(plan.outcome)))
  {
    if m.body.job in s.db.jobs && s.db.jobs[m.body.job].status != Completed {
      steps := DeliverySteps(w, outcomes);
      ProcessIsARun(cfg, s, w, m, outcomes);
      LoopStepsAreWorkerSteps(w, outcomes, |outcomes|);
      finished :| var plan := Process(cfg, s.db, m.body.job, outcomes, s.now, finished);
                  && Commits(cfg, s, steps) == plan.commits
                  && Final(cfg, s, steps).workers[w] == Busy(m, Settling(SettlementOf(plan.outcome)));
    } else {
      steps, finished := [Advance(w, Read)], 0;
      SkipIsARun(cfg, s, w, m);
    }
  }

  /** The stretch of a pass that makes its first `done` commits; only the whole pass reaches the settlement. */
  lemma PartOfPass(cfg: Config, s: State, w: WorkerId, m: Message, whole: seq<Step>, commits: seq<Db>,
          how: Settlement, done: nat)
    returns (part: seq<Step>, t: State)
    requires IsBusy(s, w) && s.workers[w].msg == m && m.body.Valid? && IsRun(cfg, s, whole) && WorkerSteps(whole, w)
    requires Commits(cfg, s, whole) == commits && done <= |commits|
    requires IsBusy(Final(cfg, s, whole), w) && Final(cfg, s, whole).workers[w] == Busy(m, Settling(how))
    ensures Runs(cfg, s, part, t, commits[..done])
    ensures t.broker == s.broker && t.api == s.api && IsBusy(t, w)
    ensures t.workers[w].msg == m && t.workers == s.workers[w := t.workers[w]]
    ensures t.db == if done == 0 then s.db else commits[done - 1]
    ensures if done == |commits| then t.workers[w].pc == Settling(how) else InProcess(t, w)
  {
    if done == |commits| {
      part := whole;
      assert commits[..done] == commits;
    } else {
      var k := CutBefore(cfg, s, whole, done);
      part := whole[..k];
      assert whole[k] in whole;
    }
    t := Final(cfg, s, part);
    WorkerFrame(cfg, s, part, w);
    WorkerStepsNeverOverlap(cfg, s, part, w);
    LastCommitted(cfg, s, part, w);
  }

  /**
   * For every number of commits that a delivery gets through, and whether or not its connection holds,
   * there is a run of the protocol that makes those commits of the plan, in order, and leaves the broker
   * and the worker as `_on_message` does: settled by the outcome after the last commit, requeued by the
   * exception handler before it, and back in the queue if the connection was lost.
   */
  lemma DeliveryIsARun(cfg: Config, s: State, w: WorkerId, m: Message, outcomes: seq<CrawlOutcome>, done: nat,
          lost: bool)
    returns (steps: seq<Step>, finished: Time)
    requires Enabled(cfg, s, Deliver(w, m)) && !Overlaps(s, Deliver(w, m)) && m.body.Valid?
    requires m.body.job in s.db.jobs ==> OutcomesFit(Registry(s.db.jobs[m.body.job].source), outcomes)
    requires done <= |Process(cfg, s.db, m.body.job, outcomes, s.now + 1, 0).commits|
    ensures var plan := Process(cfg, s.db, m.body.job, outcomes, s.now + 1, finished);
            done <= |plan.commits| && DeliveryRun(cfg, s, w, m, plan, done, lost, steps)
  {
    var s1 := Apply(cfg, s, Deliver(w, m));
    RunsOne(cfg, s, Deliver(w, m));
    var whole;
    whole, finished := WholePass(cfg, s1, w, m, outcomes);
    var plan := Process(cfg, s.db, m.body.job, outcomes, s1.now, finished);
    var part, t := PartOfPass(cfg, s1, w, m, whole, plan.commits, SettlementOf(plan.outcome), done);
    var u := EndOfDelivery(cfg, t, w, lost, done < |plan.commits|);
    steps := [Deliver(w, m)] + part + Ending(w, lost, done < |plan.commits|);
    RunsAround(cfg, s, Deliver(w, m), s1, part, t, plan.commits[..done], Ending(w, lost, done < |plan.commits|), u);
    EndsAsPlanned(cfg, s, s1, t, u, w, m, plan, done, lost);
  }

  lemma RunsAround(cfg: Config, s: State, first: Step, s1: State, part: seq<Step>, t: State, commits: seq<Db>,
          last: seq<Step>, u: State)
    requires Runs(cfg, s, [first], s1, []) && Runs(cfg, s1, part, t, commits) && Runs(cfg, t, last, u, [])
    ensures Runs(cfg, s, [first] + part + last, u, commits)
  {
    RunsThen(cfg, s, [first], s1, [], part, t, commits);
    RunsThen(cfg, s, [first] + part, t, [] + commits, last, u, []);
    assert [] + commits + [] == commits;
  }

  lemma EndsAsPlanned(cfg: Config, s: State, s1: State, t: State, u: State, w: WorkerId, m: Message, plan: Processed,
          done: nat, lost: bool)
    requires Enabled(cfg, s, Deliver(w, m)) && s1 == Apply(cfg, s, Deliver(w, m)) && done <= |plan.commits|
    requires t.broker == s1.broker && t.api == s1.api && w in t.workers && t.workers == s1.workers[w := t.workers[w]]
    requires t.db == if done == 0 then s1.db else plan.commits[done - 1]
    requires u.workers == t.workers[w := Idle] && u.db == t.db && u.api == t.api
    requires u.broker == SettleMessage(t.broker, m, How(plan, done, lost))
    ensures u.workers == s.workers[w := Idle] && u.api == s.api
    ensures u.db == if done == 0 then s.db else plan.commits[done - 1]
    ensures u.broker == SettleMessage(Deliverance(s.broker, m, w), m, How(plan, done, lost))
  {
  }

  /** An invalid payload is read, commits nothing and is dead-lettered, unless the connection is lost. */
  lemma InvalidDeliveryIsARun(cfg: Config, s: State, w: WorkerId, m: Message, lost: bool) returns (steps: seq<Step>)
    requires Enabled(cfg, s, Deliver(w, m)) && m.body.Invalid?
    ensures DeliveryRun(cfg, s, w, m, Processed(FailedOutcome, []), 0, lost, steps)
  {
    var s1 := Apply(cfg, s, Deliver(w, m));
    RunsOne(cfg, s, Deliver(w, m));
    var s2 := Apply(cfg, s1, Advance(w, Read));
    RunsOne(cfg, s1, Advance(w, Read));
    assert s2.workers == s1.workers[w := Busy(m, Settling(DeadLetter))];
    var u := EndOfDelivery(cfg, s2, w, lost, false);
    RunsThen(cfg, s, [Deliver(w, m)], s1, [], [Advance(w, Read)], s2, []);
    RunsThen(cfg, s, [Deliver(w, m)] + [Advance(w, Read)], s2, [], Ending(w, lost, false), u, []);
    steps := [Deliver(w, m)] + [Advance(w, Read)] + Ending(w, lost, false);
    assert u.workers == s.workers[w := Idle];
  }
}
