/** Listing the results of one job: when its total and its page, read by two statements, must agree. */
module Listings {
  import opened Domain
  import opened Tables
  import opened JobRows
  import opened Protocol
  import opened Messages
  import opened Sessions
  import opened Lifecycle
  import opened Snapshot
  import opened Invariant
  import opened Guarantees
  import opened Finality
  import opened Faults
  import opened Paging
  import opened Sequences

  predicate SameResults(db: Db, db': Db, j: JobId) {
    RowsOf(db'.hockey, j) == RowsOf(db.hockey, j) && RowsOf(db'.oscar, j) == RowsOf(db.oscar, j)
  }

  /**
   * Nothing more can be stored for `j`: its enqueue is past publishing, and if a live message names it,
   * it has completed and its enqueue will not write again.
   */
  predicate Closed(s: State, j: JobId) {
    && j in s.db.jobs && j in s.api && !s.api[j].Created?
    && (HasLiveMessage(s, j) ==> s.db.jobs[j].status == Completed && !s.api[j].PublishRaised?)
  }

  // ----- a closed job's results stay -----

  lemma PastPublishing(cfg: Config, s: State, step: Step, j: JobId)
    requires Enabled(cfg, s, step) && j in s.api && !s.api[j].Created? && !s.api[j].PublishRaised?
    requires j in s.db.jobs
    ensures j in Apply(cfg, s, step).api && Apply(cfg, s, step).api[j] == s.api[j]
  {
  }

  lemma DormantIsClosed(s: State, j: JobId)
    requires Dormant(s, j)
    ensures Closed(s, j)
  {
  }

  lemma CompensationKeepsResults(cfg: Config, s: State, step: Step, j: JobId)
    requires Enabled(cfg, s, step) && Compensates(step, j)
    ensures SameResults(s.db, Apply(cfg, s, step).db, j)
  {
  }

  lemma ClosedStep(cfg: Config, s: State, step: Step, j: JobId)
    requires MessageInv(s) && Exclusive(s) && SessionInv(cfg, s) && Enabled(cfg, s, step) && Closed(s, j)
    ensures Closed(Apply(cfg, s, step), j) && SameResults(s.db, Apply(cfg, s, step).db, j)
  {
    if HasLiveMessage(s, j) {
      PastPublishing(cfg, s, step, j);
      CompletedRows(cfg, s, step, j);
      CompletedResults(cfg, s, step, j);
    } else {
      NotLiveIsDormant(s, j);
      DormantStep(cfg, s, step, j);
      DormantIsClosed(Apply(cfg, s, step), j);
      if Compensates(step, j) {
        CompensationKeepsResults(cfg, s, step, j);
      }
    }
  }

  lemma {:induction false} ClosedRun(cfg: Config, s: State, steps: seq<Step>, j: JobId)
    requires Inv(cfg, s) && IsRun(cfg, s, steps) && NoOverlap(cfg, s, steps) && Closed(s, j)
    ensures SameResults(s.db, Final(cfg, s, steps).db, j)
    decreases |steps|
  {
    if steps != [] {
      ClosedStep(cfg, s, steps[0], j);
      InvStep(cfg, s, steps[0]);
      ClosedRun(cfg, Apply(cfg, s, steps[0]), steps[1..], j);
    }
  }

  // ----- a section no crawler of the job fills stays -----

  /** The sections the crawlers registered for the job do not fill are the same in both databases. */
  predicate SameUnfilled(db: Db, db': Db, j: JobId) {
    && j in db.jobs && j in db'.jobs && db'.jobs[j].source == db.jobs[j].source
    && (db.jobs[j].source !in HOCKEY_SOURCES ==> RowsOf(db'.hockey, j) == RowsOf(db.hockey, j))
    && (db.jobs[j].source !in OSCAR_SOURCES ==> RowsOf(db'.oscar, j) == RowsOf(db.oscar, j))
  }

  lemma UnfilledStep(cfg: Config, s: State, step: Step, j: JobId)
    requires SessionInv(cfg, s) && Enabled(cfg, s, step) && j in s.db.jobs
    ensures SameUnfilled(s.db, Apply(cfg, s, step).db, j)
  {
    StepCounts(cfg, s, step, j);
    if step.Advance? && step.work == CommitSection {
      var Busy(m, pc) := s.workers[step.w];
      assert WorkerInv(cfg, s.db.jobs, s.api, s.workers[step.w]);
      PersistEffect(s.db, m.body.job, pc.result, j);
    }
  }

  lemma {:induction false} UnfilledRun(cfg: Config, s: State, steps: seq<Step>, j: JobId)
    requires Inv(cfg, s) && IsRun(cfg, s, steps) && NoOverlap(cfg, s, steps) && j in s.db.jobs
    ensures SameUnfilled(s.db, Final(cfg, s, steps).db, j)
    decreases |steps|
  {
    if steps != [] {
      UnfilledStep(cfg, s, steps[0], j);
      InvStep(cfg, s, steps[0]);
      UnfilledRun(cfg, Apply(cfg, s, steps[0]), steps[1..], j);
    }
  }

  // ----- anything else can be replaced -----

  lemma LeadsThrough(cfg: Config, s: State, t: State, u: State)
    requires Leads(cfg, s, t) && Leads(cfg, t, u)
    ensures Leads(cfg, s, u)
  {
    var a :| IsRun(cfg, s, a) && NoOverlap(cfg, s, a) && Final(cfg, s, a) == t;
    var b :| IsRun(cfg, t, b) && NoOverlap(cfg, t, b) && Final(cfg, t, b) == u;
    ConcatFinal(cfg, s, a, b);
    ConcatNoOverlap(cfg, s, a, b);
  }

  /** A live message names `j`, which has not completed. */
  predicate CanBeCrawled(t: State, m: Message, j: JobId, source: Source) {
    && (m in t.broker.ready || m in t.broker.unacked) && Mentions(m, j)
    && j in t.db.jobs && t.db.jobs[j].status != Completed && t.db.jobs[j].source == source
  }

  lemma OneStepLeads(cfg: Config, s: State, step: Step)
    requires Inv(cfg, s) && Enabled(cfg, s, step) && !Overlaps(s, step)
    ensures Leads(cfg, s, Apply(cfg, s, step)) && Inv(cfg, Apply(cfg, s, step))
  {
    LeadsToItself(cfg, s);
    LeadsOn(cfg, s, s, step);
    InvStep(cfg, s, step);
  }

  lemma PublishedCanBeCrawled(cfg: Config, s: State, j: JobId)
    requires RowsInv(cfg, s) && RequestEnabled(s, j, Publish)
    ensures var m := Message(s.now, Valid(j, s.db.jobs[j].source));
            CanBeCrawled(Apply(cfg, s, Enqueue(j, Publish)), m, j, s.db.jobs[j].source)
  {
    assert RowInv(cfg, s.db.jobs[j], s.api[j]);
  }

  lemma OverwrittenCanBeCrawled(cfg: Config, s: State, m: Message, j: JobId, detail: string)
    requires RequestEnabled(s, j, MarkPublishFailure(detail)) && Mentions(m, j)
    requires m in s.broker.ready || m in s.broker.unacked
    ensures CanBeCrawled(Apply(cfg, s, Enqueue(j, MarkPublishFailure(detail))), m, j, s.db.jobs[j].source)
  {
  }

  /** At most one step of its enqueue leads from a job that is not closed to one that can be crawled. */
  lemma NotClosedLeads(cfg: Config, s: State, j: JobId) returns (t: State, m: Message)
    requires Inv(cfg, s) && j in s.db.jobs && !Closed(s, j)
    ensures Leads(cfg, s, t) && Inv(cfg, t) && t.workers == s.workers && CanBeCrawled(t, m, j, s.db.jobs[j].source)
  {
    if s.api[j].Created? {
      m := Message(s.now, Valid(j, s.db.jobs[j].source));
      t := Apply(cfg, s, Enqueue(j, Publish));
      OneStepLeads(cfg, s, Enqueue(j, Publish));
      PublishedCanBeCrawled(cfg, s, j);
    } else {
      m :| m in s.broker.ready + s.broker.unacked.Keys && Mentions(m, j);
      if s.db.jobs[j].status == Completed {
        t := Apply(cfg, s, Enqueue(j, MarkPublishFailure("")));
        OneStepLeads(cfg, s, Enqueue(j, MarkPublishFailure("")));
        OverwrittenCanBeCrawled(cfg, s, m, j, "");
      } else {
        t := s;
        LeadsToItself(cfg, s);
      }
    }
  }

  /** Worker `w` is about to call a crawler of `j`. */
  predicate AboutToCrawl(t: State, w: WorkerId, m: Message, j: JobId, crawler: Source) {
    && Mentions(m, j) && j in t.db.jobs && w in t.workers && t.workers[w].Busy? && t.workers[w].msg == m
    && var pc := t.workers[w].pc;
       pc.Crawling? && pc.done < |Crawlers(pc)| && Crawlers(pc)[pc.done] == crawler
  }

  /** The crawler succeeds and its section is committed. */
  lemma StoreSection(cfg: Config, s: State, t: State, w: WorkerId, m: Message, j: JobId, crawler: Source,
          result: CrawlResult) returns (u: State)
    requires Leads(cfg, s, t) && AboutToCrawl(t, w, m, j, crawler) && FillsOwnSection(crawler, result)
    ensures Leads(cfg, s, u) && u.db == Persist(t.db, j, result)
  {
    var returned := Advance(w, CrawlerReturns(Crawled(result)));
    var t' := Apply(cfg, t, returned);
    LeadsOn(cfg, s, t, returned);
    u := Apply(cfg, t', Advance(w, CommitSection));
    LeadsOn(cfg, s, t', Advance(w, CommitSection));
  }

  /** With both crawlers registered, the first one may raise. */
  lemma NextCrawler(cfg: Config, s: State, t: State, w: WorkerId, m: Message, j: JobId) returns (u: State)
    requires Leads(cfg, s, t) && BeginsCrawling(t, w, m, j) && t.db.jobs[j].source == All
    ensures Leads(cfg, s, u) && AboutToCrawl(u, w, m, j, Oscar)
  {
    var raised := Advance(w, CrawlerReturns(Raised("")));
    u := Apply(cfg, t, raised);
    LeadsOn(cfg, s, t, raised);
  }

  lemma StoreFromStart(cfg: Config, s: State, t: State, w: WorkerId, m: Message, j: JobId, crawler: Source,
          result: CrawlResult) returns (u: State)
    requires Leads(cfg, s, t) && BeginsCrawling(t, w, m, j)
    requires crawler in Registry(t.db.jobs[j].source) && FillsOwnSection(crawler, result)
    ensures Leads(cfg, s, u)
    ensures result.hockey != [] ==> RowsOf(u.db.hockey, j) == result.hockey
    ensures result.oscar != [] ==> RowsOf(u.db.oscar, j) == result.oscar
  {
    var t' := t;
    if t.db.jobs[j].source == All && crawler == Oscar {
      t' := NextCrawler(cfg, s, t, w, m, j);
    }
    u := StoreSection(cfg, s, t', w, m, j, crawler, result);
    PersistEffect(t'.db, j, result, j);
  }

  /** Whatever one of its crawlers may return can end up stored for a job that is not closed. */
  lemma CanStore(cfg: Config, s: State, j: JobId, crawler: Source, result: CrawlResult) returns (u: State)
    requires Inv(cfg, s) && s.workers != map[] && j in s.db.jobs && !Closed(s, j)
    requires crawler in Registry(s.db.jobs[j].source) && FillsOwnSection(crawler, result)
    ensures Leads(cfg, s, u)
    ensures result.hockey != [] ==> RowsOf(u.db.hockey, j) == result.hockey
    ensures result.oscar != [] ==> RowsOf(u.db.oscar, j) == result.oscar
  {
    var t0, m := NotClosedLeads(cfg, s, j);
    var t, w := LiveCanStart(cfg, t0, m, j);
    u := StoreFromStart(cfg, t0, t, w, m, j, crawler, result);
    LeadsThrough(cfg, s, t0, u);
  }

  // ----- when the results are fixed -----

  ghost predicate ResultsFixed(cfg: Config, s: State, j: JobId) {
    forall t | Leads(cfg, s, t) :: SameResults(s.db, t.db, j)
  }

  /** Not even the numbers of rows change. */
  ghost predicate NumbersFixed(cfg: Config, s: State, j: JobId) {
    forall t | Leads(cfg, s, t) ::
      |RowsOf(t.db.hockey, j)| == |RowsOf(s.db.hockey, j)| && |RowsOf(t.db.oscar, j)| == |RowsOf(s.db.oscar, j)|
  }

  function Copies<T>(x: T, n: nat): (xs: seq<T>)
    ensures |xs| == n
  {
    if n == 0 then [] else [x] + Copies(x, n - 1)
  }

  const ANY_TEAM := HockeyRow("", 0, 0, 0, None, 0.0, 0, 0, 0)
  const ANY_FILM := OscarRow(0, "", 0, 0, false)

  lemma ClosedStays(cfg: Config, s: State, t: State, j: JobId)
    requires Inv(cfg, s) && Leads(cfg, s, t) && Closed(s, j)
    ensures SameResults(s.db, t.db, j)
  {
    var steps :| IsRun(cfg, s, steps) && NoOverlap(cfg, s, steps) && Final(cfg, s, steps) == t;
    ClosedRun(cfg, s, steps, j);
  }

  lemma NumbersCanChange(cfg: Config, s: State, j: JobId)
    requires Inv(cfg, s) && s.workers != map[] && j in s.db.jobs && !Closed(s, j)
    ensures !NumbersFixed(cfg, s, j)
  {
    if s.db.jobs[j].source == Oscar {
      var films := Copies(ANY_FILM, |RowsOf(s.db.oscar, j)| + 1);
      var t := CanStore(cfg, s, j, Oscar, CrawlResult([], films));
    } else {
      var teams := Copies(ANY_TEAM, |RowsOf(s.db.hockey, j)| + 1);
      var t := CanStore(cfg, s, j, Hockey, CrawlResult(teams, []));
    }
  }

  /**
   * What is stored for a job can no longer change, in any continuation, if and only if the job is closed;
   * otherwise even the number of its rows can.
   */
  lemma ResultsFixedIffClosed(cfg: Config, s: State, j: JobId)
    requires Reachable(cfg, s) && j in s.db.jobs && s.workers != map[]
    ensures ResultsFixed(cfg, s, j) <==> Closed(s, j)
    ensures NumbersFixed(cfg, s, j) <==> Closed(s, j)
  {
    ReachableInv(cfg, s);
    if Closed(s, j) {
      forall t | Leads(cfg, s, t) ensures SameResults(s.db, t.db, j) {
        ClosedStays(cfg, s, t, j);
      }
    } else {
      NumbersCanChange(cfg, s, j);
    }
  }

  // ----- total and page -----

  lemma {:induction false} WhereCopies<T>(x: T, n: nat, keep: T -> bool)
    requires keep(x)
    ensures Where(Copies(x, n), keep) == Copies(x, n)
  {
    if n != 0 {
      WhereCopies(x, n - 1, keep);
      assert Copies(x, n)[1..] == Copies(x, n - 1);
    }
  }

  /** The total read at some moment from `s` on agrees with every page read at that moment or later. */
  ghost predicate HockeyTotalsAgree(cfg: Config, s: State, j: JobId, collate: string -> real, keep: HockeyRow -> bool) {
    forall t, u | Leads(cfg, s, t) && Leads(cfg, t, u) ::
      Agrees(HockeyOrder(collate), RowsOf(t.db.hockey, j), RowsOf(u.db.hockey, j), keep)
  }

  ghost predicate OscarTotalsAgree(cfg: Config, s: State, j: JobId, collate: string -> real, keep: OscarRow -> bool) {
    forall t, u | Leads(cfg, s, t) && Leads(cfg, t, u) ::
      Agrees(OscarOrder(collate), RowsOf(t.db.oscar, j), RowsOf(u.db.oscar, j), keep)
  }

  lemma UnfilledStays(cfg: Config, s: State, t: State, j: JobId)
    requires Inv(cfg, s) && Leads(cfg, s, t) && j in s.db.jobs
    ensures SameUnfilled(s.db, t.db, j)
  {
    var steps :| IsRun(cfg, s, steps) && NoOverlap(cfg, s, steps) && Final(cfg, s, steps) == t;
    UnfilledRun(cfg, s, steps, j);
  }

  lemma {:induction false} NothingKept<T(!new)>(rows: seq<T>, keep: T -> bool)
    requires forall row :: !keep(row)
    ensures Where(rows, keep) == []
  {
    if rows != [] {
      NothingKept(rows[1..], keep);
    }
  }

  lemma HockeyAgreesAt(cfg: Config, s: State, t: State, u: State, j: JobId, collate: string -> real,
          keep: HockeyRow -> bool)
    requires Inv(cfg, s) && j in s.db.jobs && Leads(cfg, s, t) && Leads(cfg, t, u)
    requires Closed(s, j) || s.db.jobs[j].source !in HOCKEY_SOURCES || forall row :: !keep(row)
    ensures Agrees(HockeyOrder(collate), RowsOf(t.db.hockey, j), RowsOf(u.db.hockey, j), keep)
  {
    LeadsThrough(cfg, s, t, u);
    if Closed(s, j) {
      ClosedStays(cfg, s, t, j);
      ClosedStays(cfg, s, u, j);
    } else if s.db.jobs[j].source !in HOCKEY_SOURCES {
      UnfilledStays(cfg, s, t, j);
      UnfilledStays(cfg, s, u, j);
    } else {
      NothingKept(RowsOf(t.db.hockey, j), keep);
      NothingKept(RowsOf(u.db.hockey, j), keep);
    }
    HockeyPreorder(collate);
    AgreesIffAsMany(HockeyOrder(collate), RowsOf(t.db.hockey, j), RowsOf(u.db.hockey, j), keep);
  }

  lemma OscarAgreesAt(cfg: Config, s: State, t: State, u: State, j: JobId, collate: string -> real,
          keep: OscarRow -> bool)
    requires Inv(cfg, s) && j in s.db.jobs && Leads(cfg, s, t) && Leads(cfg, t, u)
    requires Closed(s, j) || s.db.jobs[j].source !in OSCAR_SOURCES || forall row :: !keep(row)
    ensures Agrees(OscarOrder(collate), RowsOf(t.db.oscar, j), RowsOf(u.db.oscar, j), keep)
  {
    LeadsThrough(cfg, s, t, u);
    if Closed(s, j) {
      ClosedStays(cfg, s, t, j);
      ClosedStays(cfg, s, u, j);
    } else if s.db.jobs[j].source !in OSCAR_SOURCES {
      UnfilledStays(cfg, s, t, j);
      UnfilledStays(cfg, s, u, j);
    } else {
      NothingKept(RowsOf(t.db.oscar, j), keep);
      NothingKept(RowsOf(u.db.oscar, j), keep);
    }
    OscarPreorder(collate);
    AgreesIffAsMany(OscarOrder(collate), RowsOf(t.db.oscar, j), RowsOf(u.db.oscar, j), keep);
  }

  lemma OneMoreDisagrees<T(!new)>(le: (T, T) -> bool, counted: seq<T>, keep: T -> bool, row: T)
    requires TotalPreorder(le) && keep(row)
    ensures !Agrees(le, counted, Copies(row, |Where(counted, keep)| + 1), keep)
  {
    var rows := Copies(row, |Where(counted, keep)| + 1);
    WhereCopies(row, |rows|, keep);
    AgreesIffAsMany(le, counted, rows, keep);
  }

  lemma HockeyCanDisagree(cfg: Config, s: State, j: JobId, collate: string -> real, keep: HockeyRow -> bool,
          row: HockeyRow) returns (u: State)
    requires Inv(cfg, s) && j in s.db.jobs && s.workers != map[]
    requires !Closed(s, j) && s.db.jobs[j].source in HOCKEY_SOURCES && keep(row)
    ensures Leads(cfg, s, u) && !Agrees(HockeyOrder(collate), RowsOf(s.db.hockey, j), RowsOf(u.db.hockey, j), keep)
  {
    var n := |Where(RowsOf(s.db.hockey, j), keep)| + 1;
    u := CanStore(cfg, s, j, Hockey, CrawlResult(Copies(row, n), []));
    HockeyPreorder(collate);
    OneMoreDisagrees(HockeyOrder(collate), RowsOf(s.db.hockey, j), keep, row);
  }

  lemma OscarCanDisagree(cfg: Config, s: State, j: JobId, collate: string -> real, keep: OscarRow -> bool,
          row: OscarRow) returns (u: State)
    requires Inv(cfg, s) && j in s.db.jobs && s.workers != map[]
    requires !Closed(s, j) && s.db.jobs[j].source in OSCAR_SOURCES && keep(row)
    ensures Leads(cfg, s, u) && !Agrees(OscarOrder(collate), RowsOf(s.db.oscar, j), RowsOf(u.db.oscar, j), keep)
  {
    var n := |Where(RowsOf(s.db.oscar, j), keep)| + 1;
    u := CanStore(cfg, s, j, Oscar, CrawlResult([], Copies(row, n)));
    OscarPreorder(collate);
    OneMoreDisagrees(OscarOrder(collate), RowsOf(s.db.oscar, j), keep, row);
  }

  /**
   * From `s` on, the total and the page of a hockey listing of `j`, whenever their statements run, always
   * agree if and only if the job is closed, its source collects no hockey, or the filter keeps nothing.
   */
  lemma HockeyTotalsAgreeIff(cfg: Config, s: State, j: JobId, collate: string -> real, keep: HockeyRow -> bool)
    requires Reachable(cfg, s) && j in s.db.jobs && s.workers != map[]
    ensures HockeyTotalsAgree(cfg, s, j, collate, keep) <==>
              Closed(s, j) || s.db.jobs[j].source !in HOCKEY_SOURCES || forall row :: !keep(row)
  {
    ReachableInv(cfg, s);
    if Closed(s, j) || s.db.jobs[j].source !in HOCKEY_SOURCES || forall row :: !keep(row) {
      forall t, u | Leads(cfg, s, t) && Leads(cfg, t, u)
        ensures Agrees(HockeyOrder(collate), RowsOf(t.db.hockey, j), RowsOf(u.db.hockey, j), keep)
      {
        HockeyAgreesAt(cfg, s, t, u, j, collate, keep);
      }
    } else {
      var row :| keep(row);
      var u := HockeyCanDisagree(cfg, s, j, collate, keep, row);
      LeadsToItself(cfg, s);
    }
  }

  lemma OscarTotalsAgreeIff(cfg: Config, s: State, j: JobId, collate: string -> real, keep: OscarRow -> bool)
    requires Reachable(cfg, s) && j in s.db.jobs && s.workers != map[]
    ensures OscarTotalsAgree(cfg, s, j, collate, keep) <==>
              Closed(s, j) || s.db.jobs[j].source !in OSCAR_SOURCES || forall row :: !keep(row)
  {
    ReachableInv(cfg, s);
    if Closed(s, j) || s.db.jobs[j].source !in OSCAR_SOURCES || forall row :: !keep(row) {
      forall t, u | Leads(cfg, s, t) && Leads(cfg, t, u)
        ensures Agrees(OscarOrder(collate), RowsOf(t.db.oscar, j), RowsOf(u.db.oscar, j), keep)
      {
        OscarAgreesAt(cfg, s, t, u, j, collate, keep);
      }
    } else {
      var row :| keep(row);
      var u := OscarCanDisagree(cfg, s, j, collate, keep, row);
      LeadsToItself(cfg, s);
    }
  }

  /** A completed job, as the snapshot is, is closed unless its enqueue can still overwrite it and it run again. */
  lemma CompletedIsClosedIff(cfg: Config, s: State, j: JobId)
    requires Reachable(cfg, s) && j in s.db.jobs && s.db.jobs[j].status == Completed
    ensures j in s.api && (Closed(s, j) <==> !s.api[j].PublishRaised? || !HasLiveMessage(s, j))
  {
    ReachableInv(cfg, s);
    assert RowInv(cfg, s.db.jobs[j], s.api[j]);
  }

  lemma NothingStoredYet(cfg: Config) returns (s: State)
    ensures Reachable(cfg, s) && s.workers != map[] && 0 in s.db.jobs && s.db.jobs[0].source == Hockey
    ensures !Closed(s, 0) && s.db.hockey == []
  {
    var m;
    s, m := FirstDelivery(cfg, {0}, false);
    assert m in s.broker.unacked && m in s.broker.ready + s.broker.unacked.Keys && Mentions(m, 0);
  }

  lemma OneRowPage<T(!new)>(le: (T, T) -> bool, row: T, keep: T -> bool)
    requires keep(row)
    ensures Paginates(le, [], [row], keep, 20, 0, [row], 0)
  {
    assert [row][0..] == [row] && Where([row], keep) == [row];
    assert IsOrdering(le, Where([row], keep), [row]) && Slice([row], 20, 0) == [row];
  }

  /** A listing that reports no rows and shows one: a job's first rows are committed between its two statements. */
  lemma TotalAndPageCanDisagree(cfg: Config, collate: string -> real, keep: HockeyRow -> bool, row: HockeyRow)
    requires keep(row)
    ensures exists s, t :: Reachable(cfg, s) && Leads(cfg, s, t)
              && Paginates(HockeyOrder(collate), RowsOf(s.db.hockey, 0), RowsOf(t.db.hockey, 0), keep, 20, 0, [row], 0)
  {
    var s := NothingStoredYet(cfg);
    ReachableInv(cfg, s);
    var t := CanStore(cfg, s, 0, Hockey, CrawlResult([row], []));
    OneRowPage(HockeyOrder(collate), row, keep);
    assert RowsOf(s.db.hockey, 0) == [] && RowsOf(t.db.hockey, 0) == [row];
  }
}
