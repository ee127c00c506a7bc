/** `latest_hockey` and `latest_oscar`: what a reader paging through the snapshot sees while workers run. */
module SnapshotReads {
  import opened Domain
  import opened Tables
  import opened Protocol
  import opened Messages
  import opened Sessions
  import opened Lifecycle
  import opened Snapshot
  import opened Invariant
  import opened Guarantees
  import opened Paging
  import opened Sequences

  /**
   * One call of `latest_hockey`: three statements, which may find three states of the database. `job` is
   * the snapshot's, `keep` the filters.
   */
  ghost predicate LatestHockey(first: Db, second: Db, third: Db, collate: string -> real, keep: HockeyRow -> bool,
          limit: nat, offset: nat, job: Option<JobId>, items: seq<HockeyRow>, total: nat)
  {
    match job
    case None => (forall j: JobId :: !IsLatest(first.jobs, HOCKEY_SOURCES, j)) && items == [] && total == 0
    case Some(j) =>
      && IsLatest(first.jobs, HOCKEY_SOURCES, j)
      && Paginates(HockeyOrder(collate), RowsOf(second.hockey, j), RowsOf(third.hockey, j), keep, limit, offset,
                   items, total)
  }

  ghost predicate LatestOscar(first: Db, second: Db, third: Db, collate: string -> real, keep: OscarRow -> bool,
          limit: nat, offset: nat, job: Option<JobId>, items: seq<OscarRow>, total: nat)
  {
    match job
    case None => (forall j: JobId :: !IsLatest(first.jobs, OSCAR_SOURCES, j)) && items == [] && total == 0
    case Some(j) =>
      && IsLatest(first.jobs, OSCAR_SOURCES, j)
      && Paginates(OscarOrder(collate), RowsOf(second.oscar, j), RowsOf(third.oscar, j), keep, limit, offset,
                   items, total)
  }

  /** Some completed job of these sources finished last, if there is any. */
  lemma {:induction false} LatestExists(jobs: map<JobId, Job>, sources: set<Source>, among: set<JobId>)
    returns (latest: JobId)
    requires among != {} && forall j | j in among :: Candidate(jobs, sources, j)
    ensures latest in among && Candidate(jobs, sources, latest)
    ensures forall j | j in among ::
              Candidate(jobs, sources, j) && jobs[j].finishedAt.value <= jobs[latest].finishedAt.value
    decreases |among|
  {
    var j :| j in among;
    if among == {j} {
      latest := j;
    } else {
      var rest := LatestExists(jobs, sources, among - {j});
      latest := if jobs[j].finishedAt.value <= jobs[rest].finishedAt.value then rest else j;
    }
  }

  lemma SomeLatest(jobs: map<JobId, Job>, sources: set<Source>, j: JobId)
    requires Candidate(jobs, sources, j)
    ensures exists k: JobId :: IsLatest(jobs, sources, k)
  {
    var among := set k | k in jobs && Candidate(jobs, sources, k);
    assert j in among;
    var latest := LatestExists(jobs, sources, among);
    assert IsLatest(jobs, sources, latest);
  }

  /** There is a snapshot exactly when a job of these sources has completed, and then only one. */
  lemma SnapshotExists(cfg: Config, s: State, sources: set<Source>)
    requires Reachable(cfg, s)
    ensures (exists j: JobId :: IsLatest(s.db.jobs, sources, j))
       <==> (exists j :: j in s.db.jobs && s.db.jobs[j].status == Completed && s.db.jobs[j].source in sources)
    ensures forall j: JobId, k: JobId :: IsLatest(s.db.jobs, sources, j) && IsLatest(s.db.jobs, sources, k) ==> j == k
  {
    ReachableInv(cfg, s);
    if j :| j in s.db.jobs && s.db.jobs[j].status == Completed && s.db.jobs[j].source in sources {
      SomeLatest(s.db.jobs, sources, j);
    }
    forall j: JobId, k: JobId | IsLatest(s.db.jobs, sources, j) && IsLatest(s.db.jobs, sources, k) ensures j == k {
      LatestUnique(s, sources, j, k);
    }
  }

  /** A completed job of these sources, and no other completed one finished later. */
  predicate LastFinished(jobs: map<JobId, Job>, sources: set<Source>, j: JobId) {
    && j in jobs && jobs[j].status == Completed && jobs[j].source in sources && jobs[j].finishedAt.Some?
    && forall k | k in jobs && jobs[k].status == Completed && jobs[k].source in sources ::
         jobs[k].finishedAt.Some? && jobs[k].finishedAt.value <= jobs[j].finishedAt.value
  }

  lemma SnapshotIsLastFinished(cfg: Config, s: State, sources: set<Source>)
    requires Reachable(cfg, s)
    ensures forall j: JobId :: IsLatest(s.db.jobs, sources, j) ==> LastFinished(s.db.jobs, sources, j)
    ensures (exists j: JobId :: IsLatest(s.db.jobs, sources, j)) <==>
              exists k :: k in s.db.jobs && s.db.jobs[k].status == Completed && s.db.jobs[k].source in sources
  {
    ReachableInv(cfg, s);
    SnapshotExists(cfg, s, sources);
    CandidatesFinished(s, sources);
  }

  lemma CandidatesFinished(s: State, sources: set<Source>)
    requires TimesInv(s)
    ensures forall j: JobId :: IsLatest(s.db.jobs, sources, j) ==> LastFinished(s.db.jobs, sources, j)
  {
    assert forall k | k in s.db.jobs && s.db.jobs[k].status == Completed && s.db.jobs[k].source in sources ::
        Candidate(s.db.jobs, sources, k);
  }

  /** The snapshot of hockey is the hockey or combined job that finished last; before there is one it is empty. */
  lemma HockeySnapshotJob(cfg: Config, s: State, second: Db, third: Db, collate: string -> real,
          keep: HockeyRow -> bool, limit: nat, offset: nat, job: Option<JobId>, items: seq<HockeyRow>, total: nat)
    requires Reachable(cfg, s) && LatestHockey(s.db, second, third, collate, keep, limit, offset, job, items, total)
    ensures job == None <==>
              forall k | k in s.db.jobs :: s.db.jobs[k].status == Completed ==> s.db.jobs[k].source !in {Hockey, All}
    ensures job == None ==> items == [] && total == 0
    ensures job.Some? ==> LastFinished(s.db.jobs, {Hockey, All}, job.value)
  {
    SnapshotIsLastFinished(cfg, s, HOCKEY_SOURCES);
  }

  lemma OscarSnapshotJob(cfg: Config, s: State, second: Db, third: Db, collate: string -> real,
          keep: OscarRow -> bool, limit: nat, offset: nat, job: Option<JobId>, items: seq<OscarRow>, total: nat)
    requires Reachable(cfg, s) && LatestOscar(s.db, second, third, collate, keep, limit, offset, job, items, total)
    ensures job == None <==>
              forall k | k in s.db.jobs :: s.db.jobs[k].status == Completed ==> s.db.jobs[k].source !in {Oscar, All}
    ensures job == None ==> items == [] && total == 0
    ensures job.Some? ==> LastFinished(s.db.jobs, {Oscar, All}, job.value)
  {
    SnapshotIsLastFinished(cfg, s, OSCAR_SOURCES);
  }

  // ----- a snapshot read page by page while the system runs -----

  /** No job of these sources completes on the way, and none that has is overwritten. */
  predicate Stable(cfg: Config, s: State, steps: seq<Step>, sources: set<Source>)
    requires IsRun(cfg, s, steps)
    decreases |steps|
  {
    steps == []
    || ((forall k | k in s.db.jobs && s.db.jobs[k].source in sources ::
           !Completes(s, steps[0], k) && !Overwrites(s, steps[0], k))
        && Stable(cfg, Apply(cfg, s, steps[0]), steps[1..], sources))
  }

  lemma {:induction false} StableSnapshot(cfg: Config, s: State, steps: seq<Step>, sources: set<Source>, j: JobId)
    requires Inv(cfg, s) && IsRun(cfg, s, steps) && NoOverlap(cfg, s, steps) && Stable(cfg, s, steps, sources)
    ensures SameSnapshot(s.db, Final(cfg, s, steps).db, sources, j)
    decreases |steps|
  {
    if steps != [] {
      SnapshotUnchanged(cfg, s, steps[0], sources, j);
      InvStep(cfg, s, steps[0]);
      StableSnapshot(cfg, Apply(cfg, s, steps[0]), steps[1..], sources, j);
    }
  }

  /** After a stable stretch the same job is the one latest, with the same rows. */
  lemma StillLatest(cfg: Config, s: State, steps: seq<Step>, sources: set<Source>, j: JobId)
    requires Reachable(cfg, s) && IsLatest(s.db.jobs, sources, j)
    requires IsRun(cfg, s, steps) && NoOverlap(cfg, s, steps) && Stable(cfg, s, steps, sources)
    ensures var db' := Final(cfg, s, steps).db;
            && (forall k: JobId :: IsLatest(db'.jobs, sources, k) <==> k == j)
            && RowsOf(db'.hockey, j) == RowsOf(s.db.hockey, j) && RowsOf(db'.oscar, j) == RowsOf(s.db.oscar, j)
  {
    ReachableInv(cfg, s);
    ReachableExtends(cfg, s, steps);
    StableSnapshot(cfg, s, steps, sources, j);
    SnapshotExists(cfg, Final(cfg, s, steps), sources);
  }

  /** The moments of one read: what has happened since `s` when each of its three statements runs. */
  datatype Moments = Moments(job: seq<Step>, count: seq<Step>, page: seq<Step>)

  ghost predicate StableRun(cfg: Config, s: State, steps: seq<Step>, sources: set<Source>) {
    IsRun(cfg, s, steps) && NoOverlap(cfg, s, steps) && Stable(cfg, s, steps, sources)
  }

  ghost predicate StableMoments(cfg: Config, s: State, at: Moments, sources: set<Source>) {
    StableRun(cfg, s, at.job, sources) && StableRun(cfg, s, at.count, sources) && StableRun(cfg, s, at.page, sources)
  }

  /** Reading the snapshot while it is stable reads the same rows of the same job, whatever else has changed. */
  lemma HockeyRead(cfg: Config, s: State, at: Moments, collate: string -> real, keep: HockeyRow -> bool,
          limit: nat, offset: nat, j: JobId, job: Option<JobId>, items: seq<HockeyRow>, total: nat)
    requires Reachable(cfg, s) && IsLatest(s.db.jobs, HOCKEY_SOURCES, j) && StableMoments(cfg, s, at, HOCKEY_SOURCES)
    requires LatestHockey(Final(cfg, s, at.job).db, Final(cfg, s, at.count).db, Final(cfg, s, at.page).db,
                          collate, keep, limit, offset, job, items, total)
    ensures job == Some(j)
    ensures var rows := RowsOf(s.db.hockey, j);
            Paginates(HockeyOrder(collate), rows, rows, keep, limit, offset, items, total)
  {
    StillLatest(cfg, s, at.job, HOCKEY_SOURCES, j);
    StillLatest(cfg, s, at.count, HOCKEY_SOURCES, j);
    StillLatest(cfg, s, at.page, HOCKEY_SOURCES, j);
    assert IsLatest(Final(cfg, s, at.job).db.jobs, HOCKEY_SOURCES, j);
  }

  lemma OscarRead(cfg: Config, s: State, at: Moments, collate: string -> real, keep: OscarRow -> bool,
          limit: nat, offset: nat, j: JobId, job: Option<JobId>, items: seq<OscarRow>, total: nat)
    requires Reachable(cfg, s) && IsLatest(s.db.jobs, OSCAR_SOURCES, j) && StableMoments(cfg, s, at, OSCAR_SOURCES)
    requires LatestOscar(Final(cfg, s, at.job).db, Final(cfg, s, at.count).db, Final(cfg, s, at.page).db,
                         collate, keep, limit, offset, job, items, total)
    ensures job == Some(j)
    ensures var rows := RowsOf(s.db.oscar, j);
            Paginates(OscarOrder(collate), rows, rows, keep, limit, offset, items, total)
  {
    StillLatest(cfg, s, at.job, OSCAR_SOURCES, j);
    StillLatest(cfg, s, at.count, OSCAR_SOURCES, j);
    StillLatest(cfg, s, at.page, OSCAR_SOURCES, j);
    assert IsLatest(Final(cfg, s, at.job).db.jobs, OSCAR_SOURCES, j);
  }

  /** The snapshot is stable at every moment of these reads. */
  ghost predicate StableReads(cfg: Config, s: State, at: seq<Moments>, sources: set<Source>) {
    forall k | 0 <= k < |at| :: StableMoments(cfg, s, at[k], sources)
  }

  /**
   * Whatever else is crawled, retried, failed or lost between the reads and between their statements,
   * the pages of the snapshot show each of its rows that passes the filter exactly once, in order, as
   * long as no two tie, and every total is their number.
   */
  lemma HockeySnapshotPages(cfg: Config, s: State, at: seq<Moments>, collate: string -> real, keep: HockeyRow -> bool,
          limit: nat, j: JobId, read: seq<Option<JobId>>, pages: seq<seq<HockeyRow>>, totals: seq<nat>)
    requires Reachable(cfg, s) && IsLatest(s.db.jobs, HOCKEY_SOURCES, j) && StableReads(cfg, s, at, HOCKEY_SOURCES)
    requires |read| == |pages| == |totals| == |at|
    requires forall k | 0 <= k < |at| ::
      LatestHockey(Final(cfg, s, at[k].job).db, Final(cfg, s, at[k].count).db, Final(cfg, s, at[k].page).db,
                   collate, keep, limit, Offset(k, limit), read[k], pages[k], totals[k])
    requires var kept := Where(RowsOf(s.db.hockey, j), keep);
             NoTies(HockeyOrder(collate), kept) && Offset(|pages|, limit) >= |kept|
    ensures forall k | 0 <= k < |at| :: read[k] == Some(j) && totals[k] == |Where(RowsOf(s.db.hockey, j), keep)|
    ensures Flatten(pages) == Sort(HockeyOrder(collate), Where(RowsOf(s.db.hockey, j), keep))
    ensures var rows := Flatten(pages);
            && multiset(rows) == multiset(Where(RowsOf(s.db.hockey, j), keep))
            && forall i: nat, k: nat | i < k < |rows| ::
                 rows[i].year < rows[k].year
                 || (rows[i].year == rows[k].year && collate(rows[i].teamName) <= collate(rows[k].teamName))
  {
    var rows, order := RowsOf(s.db.hockey, j), HockeyOrder(collate);
    forall k | 0 <= k < |at|
      ensures read[k] == Some(j) && Paginates(order, rows, rows, keep, limit, Offset(k, limit), pages[k], totals[k])
    {
      HockeyRead(cfg, s, at[k], collate, keep, limit, Offset(k, limit), j, read[k], pages[k], totals[k]);
    }
    HockeyPreorder(collate);
    ListingPages(order, rows, keep, limit, pages, totals);
    SortOrders(order, Where(rows, keep));
    forall i: nat, k: nat | i < k < |Flatten(pages)|
      ensures Flatten(pages)[i].year < Flatten(pages)[k].year
              || (Flatten(pages)[i].year == Flatten(pages)[k].year
                  && collate(Flatten(pages)[i].teamName) <= collate(Flatten(pages)[k].teamName))
    {
      HockeySorted(collate, Flatten(pages), i, k);
    }
  }

  lemma OscarSnapshotPages(cfg: Config, s: State, at: seq<Moments>, collate: string -> real, keep: OscarRow -> bool,
          limit: nat, j: JobId, read: seq<Option<JobId>>, pages: seq<seq<OscarRow>>, totals: seq<nat>)
    requires Reachable(cfg, s) && IsLatest(s.db.jobs, OSCAR_SOURCES, j) && StableReads(cfg, s, at, OSCAR_SOURCES)
    requires |read| == |pages| == |totals| == |at|
    requires forall k | 0 <= k < |at| ::
      LatestOscar(Final(cfg, s, at[k].job).db, Final(cfg, s, at[k].count).db, Final(cfg, s, at[k].page).db,
                  collate, keep, limit, Offset(k, limit), read[k], pages[k], totals[k])
    requires var kept := Where(RowsOf(s.db.oscar, j), keep);
             NoTies(OscarOrder(collate), kept) && Offset(|pages|, limit) >= |kept|
    ensures forall k | 0 <= k < |at| :: read[k] == Some(j) && totals[k] == |Where(RowsOf(s.db.oscar, j), keep)|
    ensures Flatten(pages) == Sort(OscarOrder(collate), Where(RowsOf(s.db.oscar, j), keep))
    ensures var rows := Flatten(pages);
            && multiset(rows) == multiset(Where(RowsOf(s.db.oscar, j), keep))
            && forall i: nat, k: nat | i < k < |rows| ::
                 rows[i].year > rows[k].year
                 || (rows[i].year == rows[k].year && collate(rows[i].title) <= collate(rows[k].title))
  {
    var rows, order := RowsOf(s.db.oscar, j), OscarOrder(collate);
    forall k | 0 <= k < |at|
      ensures read[k] == Some(j) && Paginates(order, rows, rows, keep, limit, Offset(k, limit), pages[k], totals[k])
    {
      OscarRead(cfg, s, at[k], collate, keep, limit, Offset(k, limit), j, read[k], pages[k], totals[k]);
    }
    OscarPreorder(collate);
    ListingPages(order, rows, keep, limit, pages, totals);
    SortOrders(order, Where(rows, keep));
    forall i: nat, k: nat | i < k < |Flatten(pages)|
      ensures Flatten(pages)[i].year > Flatten(pages)[k].year
              || (Flatten(pages)[i].year == Flatten(pages)[k].year
                  && collate(Flatten(pages)[i].title) <= collate(Flatten(pages)[k].title))
    {
      OscarSorted(collate, Flatten(pages), i, k);
    }
  }

  // ----- the results of one job -----

  /** No compensating write hits the job after it has completed. */
  predicate Kept(cfg: Config, s: State, steps: seq<Step>, j: JobId)
    requires IsRun(cfg, s, steps)
    decreases |steps|
  {
    steps == [] || (!Overwrites(s, steps[0], j) && Kept(cfg, Apply(cfg, s, steps[0]), steps[1..], j))
  }

  lemma {:induction false} CompletedStays(cfg: Config, s: State, steps: seq<Step>, j: JobId)
    requires Inv(cfg, s) && IsRun(cfg, s, steps) && NoOverlap(cfg, s, steps) && Kept(cfg, s, steps, j)
    requires j in s.db.jobs && s.db.jobs[j].status == Completed
    ensures SameJob(s.db, Final(cfg, s, steps).db, j)
    decreases |steps|
  {
    if steps != [] {
      CompletedRows(cfg, s, steps[0], j);
      CompletedResults(cfg, s, steps[0], j);
      InvStep(cfg, s, steps[0]);
      CompletedStays(cfg, Apply(cfg, s, steps[0]), steps[1..], j);
    }
  }

  /**
   * Once a job has completed, the total and the page of one `list_hockey_for_job`, and all such pages,
   * come from the same rows, however far apart their statements run.
   */
  lemma CompletedJobRead(cfg: Config, s: State, count: seq<Step>, page: seq<Step>, j: JobId)
    requires Reachable(cfg, s) && j in s.db.jobs && s.db.jobs[j].status == Completed
    requires IsRun(cfg, s, count) && NoOverlap(cfg, s, count) && Kept(cfg, s, count, j)
    requires IsRun(cfg, s, page) && NoOverlap(cfg, s, page) && Kept(cfg, s, page, j)
    ensures var second, third := Final(cfg, s, count).db, Final(cfg, s, page).db;
            && RowsOf(second.hockey, j) == RowsOf(third.hockey, j) == RowsOf(s.db.hockey, j)
            && RowsOf(second.oscar, j) == RowsOf(third.oscar, j) == RowsOf(s.db.oscar, j)
  {
    ReachableInv(cfg, s);
    CompletedStays(cfg, s, count, j);
    CompletedStays(cfg, s, page, j);
  }
}
