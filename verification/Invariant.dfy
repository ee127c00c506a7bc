/** The whole inductive invariant, and reachability from the empty system. */
module Invariant {
  import opened Domain
  import opened Tables
  import opened JobRows
  import opened Protocol
  import opened Messages
  import opened Sessions
  import opened Lifecycle
  import opened Ledger
  import opened Results
  import opened AckedResults
  import opened Snapshot

  ghost predicate Inv(cfg: Config, s: State) {
    && MessageInv(s)
    && Exclusive(s)
    && SessionInv(cfg, s)
    && UnseenInv(s)
    && RowsInv(cfg, s)
    && SettledInv(cfg, s)
    && DeliveriesBalance(s.broker, s.log)
    && LedgerInv(cfg, s)
    && ResultInv(s)
    && AckedInv(s)
    && TimesInv(s)
  }

  lemma InitInv(cfg: Config, ws: set<WorkerId>)
    ensures Inv(cfg, Init(ws))
  {
    var s := Init(ws);
    forall m: Message ensures DeliveryLedger(s.broker, s.log, m) {
    }
  }

  lemma InvStep(cfg: Config, s: State, step: Step)
    requires Inv(cfg, s) && Enabled(cfg, s, step) && !Overlaps(s, step)
    ensures Inv(cfg, Apply(cfg, s, step))
  {
    MessageInvStep(cfg, s, step);
    ExclusiveStep(cfg, s, step);
    SessionStep(cfg, s, step);
    UnseenStep(cfg, s, step);
    RowsStep(cfg, s, step);
    SettledStep(cfg, s, step);
    DeliveriesStep(cfg, s, step);
    LedgerStep(cfg, s, step);
    ResultStep(cfg, s, step);
    AckedStep(cfg, s, step);
    TimesStep(cfg, s, step);
  }

  lemma {:induction false} InvRun(cfg: Config, s: State, steps: seq<Step>)
    requires Inv(cfg, s) && IsRun(cfg, s, steps) && NoOverlap(cfg, s, steps)
    ensures Inv(cfg, Final(cfg, s, steps))
    decreases |steps|
  {
    if steps != [] {
      InvStep(cfg, s, steps[0]);
      InvRun(cfg, Apply(cfg, s, steps[0]), steps[1..]);
    }
  }

  /** A state some run without overlapping deliveries leads to, from no jobs and idle workers `ws`. */
  ghost predicate ReachableWith(cfg: Config, ws: set<WorkerId>, steps: seq<Step>, s: State) {
    IsRun(cfg, Init(ws), steps) && NoOverlap(cfg, Init(ws), steps) && Final(cfg, Init(ws), steps) == s
  }

  ghost predicate Reachable(cfg: Config, s: State) {
    exists ws, steps :: ReachableWith(cfg, ws, steps, s)
  }

  lemma ReachableInv(cfg: Config, s: State)
    requires Reachable(cfg, s)
    ensures Inv(cfg, s)
  {
    var ws, steps :| ReachableWith(cfg, ws, steps, s);
    InitInv(cfg, ws);
    InvRun(cfg, Init(ws), steps);
  }

  lemma {:induction false} ConcatFinal(cfg: Config, s: State, a: seq<Step>, b: seq<Step>)
    requires IsRun(cfg, s, a) && IsRun(cfg, Final(cfg, s, a), b)
    ensures IsRun(cfg, s, a + b) && Final(cfg, s, a + b) == Final(cfg, Final(cfg, s, a), b)
    decreases |a|
  {
    if a == [] {
      assert a + b == b;
    } else {
      ConcatFinal(cfg, Apply(cfg, s, a[0]), a[1..], b);
      assert (a + b)[0] == a[0] && (a + b)[1..] == a[1..] + b;
    }
  }

  lemma {:induction false} ConcatNoOverlap(cfg: Config, s: State, a: seq<Step>, b: seq<Step>)
    requires IsRun(cfg, s, a) && NoOverlap(cfg, s, a) && IsRun(cfg, s, a + b)
    requires IsRun(cfg, Final(cfg, s, a), b) && NoOverlap(cfg, Final(cfg, s, a), b)
    ensures NoOverlap(cfg, s, a + b)
    decreases |a|
  {
    if a == [] {
      assert a + b == b;
    } else {
      assert (a + b)[0] == a[0] && (a + b)[1..] == a[1..] + b;
      ConcatNoOverlap(cfg, Apply(cfg, s, a[0]), a[1..], b);
    }
  }

  lemma ReachableExtends(cfg: Config, s: State, steps: seq<Step>)
    requires Reachable(cfg, s) && IsRun(cfg, s, steps) && NoOverlap(cfg, s, steps)
    ensures Reachable(cfg, Final(cfg, s, steps))
  {
    var ws, before :| ReachableWith(cfg, ws, before, s);
    ConcatFinal(cfg, Init(ws), before, steps);
    ConcatNoOverlap(cfg, Init(ws), before, steps);
    assert ReachableWith(cfg, ws, before + steps, Final(cfg, s, steps));
  }

  // ----- what needs no exclusion -----

  /** Message routing and stored rows stay sound even while deliveries overlap. */
  lemma {:induction false} AnyRun(cfg: Config, s: State, steps: seq<Step>)
    requires MessageInv(s) && StoredRows(s.db, s.log) && IsRun(cfg, s, steps)
    ensures var s' := Final(cfg, s, steps); MessageInv(s') && StoredRows(s'.db, s'.log)
    decreases |steps|
  {
    if steps != [] {
      MessageInvStep(cfg, s, steps[0]);
      StoredRowsStep(cfg, s, steps[0]);
      AnyRun(cfg, Apply(cfg, s, steps[0]), steps[1..]);
    }
  }

  // ----- runs without an overlapping delivery -----

  /** One worker, as deployed, never overlaps: it takes a delivery only when it is idle. */
  lemma SoleWorkerNeverOverlaps(cfg: Config, s: State, step: Step, w: WorkerId)
    requires Enabled(cfg, s, step) && s.workers.Keys == {w}
    ensures !Overlaps(s, step)
    ensures Apply(cfg, s, step).workers.Keys == {w}
  {
  }

  lemma {:induction false} SoleWorkerRun(cfg: Config, s: State, steps: seq<Step>, w: WorkerId)
    requires IsRun(cfg, s, steps) && s.workers.Keys == {w}
    ensures NoOverlap(cfg, s, steps)
    decreases |steps|
  {
    if steps != [] {
      SoleWorkerNeverOverlaps(cfg, s, steps[0], w);
      SoleWorkerRun(cfg, Apply(cfg, s, steps[0]), steps[1..], w);
    }
  }

  /** Every busy worker still owns its delivery. */
  predicate AllAttached(s: State) {
    forall w | w in s.workers && IsBusy(s, w) :: Attached(s, w)
  }

  lemma AttachedStep(cfg: Config, s: State, step: Step)
    requires MessageInv(s) && AllAttached(s) && Enabled(cfg, s, step) && !step.LoseConnection?
    ensures !Overlaps(s, step)
    ensures AllAttached(Apply(cfg, s, step))
  {
    var s' := Apply(cfg, s, step);
    forall v | v in s'.workers && IsBusy(s', v) ensures Attached(s', v) {
      if step.Deliver? && v == step.w {
      } else {
        assert Attached(s, v);
      }
    }
  }

  /** Any number of workers never overlap when a worker that loses its connection dies with it. */
  lemma {:induction false} FailStopRun(cfg: Config, s: State, steps: seq<Step>)
    requires MessageInv(s) && AllAttached(s) && IsRun(cfg, s, steps)
    requires forall step | step in steps :: !step.LoseConnection?
    ensures NoOverlap(cfg, s, steps)
    decreases |steps|
  {
    if steps != [] {
      AttachedStep(cfg, s, steps[0]);
      MessageInvStep(cfg, s, steps[0]);
      FailStopRun(cfg, Apply(cfg, s, steps[0]), steps[1..]);
    }
  }
}
