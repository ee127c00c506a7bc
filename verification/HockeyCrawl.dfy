/** The hockey crawl: retried fetches, a bounded pool, and the sequential crawl it must equal. */
module HockeyCrawl {
  import opened Domain
  import opened Html
  import opened HockeyParser
  import opened Sequences

  /** How one request ends: a page, an `httpx.HTTPError`, or any other exception. */
  datatype Response = Good(page: Page) | HttpError | OtherError

  /** What the site answers to the `attempt`-th request for a page. */
  type Site = (nat, nat) -> Response

  const MAX_REQUESTS: nat := 3

  /** Retries exhausted, an exception that is not retried, a malformed row, or no pool for `concurrency <= 0`. */
  datatype Failure = FetchFailed(page: nat) | FetchCrashed(page: nat) | RowMalformed(page: nat) | NoWorkers

  datatype Fetch = Fetched(page: Page) | Failed(failure: Failure)

  /** The first request for the page that is not answered by an `HTTPError` is the `k`-th. */
  predicate FirstAnswer(site: Site, page: nat, k: nat) {
    site(page, k) != HttpError && forall i | 1 <= i < k :: site(page, i) == HttpError
  }

  /** One of the three requests a page is worth brings this content, after nothing but `HTTPError`s. */
  ghost predicate Answers(site: Site, page: nat, content: Page) {
    exists k: nat | 1 <= k <= 3 :: FirstAnswer(site, page, k) && site(page, k) == Good(content)
  }

  /** How a page's last request ends its fetch. */
  function Answered(site: Site, page: nat, attempt: nat): Fetch {
    match site(page, attempt)
    case Good(content) => Fetched(content)
    case OtherError => Fetch.Failed(FetchCrashed(page))
    case HttpError => Fetch.Failed(FetchFailed(page))
  }

  /** `_fetch_page` from its `attempt`-th request on: only `HTTPError` is retried, at most three requests in all. */
  function FetchFrom(site: Site, page: nat, attempt: nat): Fetch
    requires 1 <= attempt <= MAX_REQUESTS
    decreases MAX_REQUESTS - attempt
  {
    if site(page, attempt) == HttpError && attempt < MAX_REQUESTS then FetchFrom(site, page, attempt + 1)
    else Answered(site, page, attempt)
  }

  /** The requests this takes. */
  function RequestsFrom(site: Site, page: nat, attempt: nat): nat
    requires 1 <= attempt <= MAX_REQUESTS
    decreases MAX_REQUESTS - attempt
  {
    if site(page, attempt) != HttpError || attempt == MAX_REQUESTS then attempt
    else RequestsFrom(site, page, attempt + 1)
  }

  /** Within the budget, all but the last request failed transiently, and the last one decides. */
  lemma {:induction false} FetchBudget(site: Site, page: nat, attempt: nat)
    requires 1 <= attempt <= MAX_REQUESTS
    ensures var n := RequestsFrom(site, page, attempt);
            && attempt <= n <= MAX_REQUESTS
            && (forall k | attempt <= k < n :: site(page, k) == HttpError)
            && (FetchFrom(site, page, attempt).Fetched? <==> site(page, n).Good?)
            && (site(page, n).Good? ==> FetchFrom(site, page, attempt) == Fetched(site(page, n).page))
            && (site(page, n) == HttpError ==>
                  n == MAX_REQUESTS && FetchFrom(site, page, attempt) == Fetch.Failed(FetchFailed(page)))
            && (site(page, n) == OtherError ==> FetchFrom(site, page, attempt) == Fetch.Failed(FetchCrashed(page)))
    decreases MAX_REQUESTS - attempt
  {
    if site(page, attempt) == HttpError && attempt < MAX_REQUESTS {
      FetchBudget(site, page, attempt + 1);
    }
  }

  lemma FirstAnswerUnique(site: Site, page: nat, j: nat, k: nat)
    requires 1 <= j && 1 <= k && FirstAnswer(site, page, j) && FirstAnswer(site, page, k)
    ensures j == k
  {
  }

  /** A page is fetched, given up or crashed on by the first of three requests not answered by an `HTTPError`. */
  lemma FetchExact(site: Site, page: nat)
    ensures var fetch := FetchFrom(site, page, 1);
            && (fetch.Fetched? <==> exists k: nat | 1 <= k <= 3 :: FirstAnswer(site, page, k) && site(page, k).Good?)
            && (fetch.Fetched? ==> Answers(site, page, fetch.page))
            && (fetch == Fetch.Failed(FetchFailed(page)) <==>
                  site(page, 1) == site(page, 2) == site(page, 3) == HttpError)
            && (fetch == Fetch.Failed(FetchCrashed(page)) <==>
                  exists k: nat | 1 <= k <= 3 :: FirstAnswer(site, page, k) && site(page, k) == OtherError)
            && (fetch.Failed? ==> fetch.failure == FetchFailed(page) || fetch.failure == FetchCrashed(page))
  {
    var n := RequestsFrom(site, page, 1);
    FetchBudget(site, page, 1);
    if site(page, n) != HttpError {
      assert FirstAnswer(site, page, n);
      forall k: nat | 1 <= k <= 3 && FirstAnswer(site, page, k) ensures k == n {
        FirstAnswerUnique(site, page, k, n);
      }
    }
  }

  /** `_fetch_page` with its retry policy. */
  method FetchPage(site: Site, page: nat) returns (result: Fetch, requests: nat)
    ensures result == FetchFrom(site, page, 1) && requests == RequestsFrom(site, page, 1)
    ensures 1 <= requests <= 3 && forall k: nat | 1 <= k < requests :: site(page, k) == HttpError
    ensures requests < 3 ==> site(page, requests) != HttpError
    ensures result.Fetched? <==> exists k: nat | 1 <= k <= 3 :: FirstAnswer(site, page, k) && site(page, k).Good?
    ensures result.Fetched? ==> Answers(site, page, result.page)
    ensures result == Fetch.Failed(FetchFailed(page)) <==> site(page, 1) == site(page, 2) == site(page, 3) == HttpError
    ensures result == Fetch.Failed(FetchCrashed(page)) <==>
              exists k: nat | 1 <= k <= 3 :: FirstAnswer(site, page, k) && site(page, k) == OtherError
  {
    requests := 1;
    while site(page, requests) == HttpError && requests < MAX_REQUESTS
      invariant 1 <= requests <= MAX_REQUESTS
      invariant forall k | 1 <= k < requests :: site(page, k) == HttpError
      invariant FetchFrom(site, page, 1) == FetchFrom(site, page, requests)
      invariant RequestsFrom(site, page, 1) == RequestsFrom(site, page, requests)
    {
      requests := requests + 1;
    }
    result := Answered(site, page, requests);
    FetchExact(site, page);
  }

  // ----- the sequential crawl -----

  datatype Teams = Teams(rows: seq<HockeyRow>) | Raises(failure: Failure)

  /** A fetched page's rows, or why the page fails. */
  function PageTeams(page: nat, fetch: Fetch): Teams {
    match fetch
    case Failed(failure) => Raises(failure)
    case Fetched(content) =>
      match ParseTeams(content)
      case Malformed => Raises(RowMalformed(page))
      case Ok(rows) => Teams(rows)
  }

  function Prepend(rows: seq<HockeyRow>, teams: Teams): Teams {
    match teams
    case Teams(more) => Teams(rows + more)
    case Raises(failure) => Raises(failure)
  }

  /** Reading pages one after the other, stopping at the first that fails. */
  function InOrder(outcomes: nat -> Teams, page: nat, last: nat): Teams
    decreases last + 1 - page
  {
    if page > last then Teams([])
    else
      match outcomes(page)
      case Raises(failure) => Raises(failure)
      case Teams(rows) => Prepend(rows, InOrder(outcomes, page + 1, last))
  }

  /** Fetching and parsing each page. */
  function Pages(site: Site): nat -> Teams {
    (p: nat) => PageTeams(p, FetchFrom(site, p, 1))
  }

  /** The crawl without a pool. */
  function Sequential(site: Site, page: nat, last: nat): Teams {
    InOrder(Pages(site), page, last)
  }

  /** It raises exactly when some page fails, and then what the lowest failing page raises. */
  lemma {:induction false} LowestFailure(outcomes: nat -> Teams, page: nat, last: nat, p: nat)
    requires page <= p <= last && outcomes(p).Raises?
    requires forall q | page <= q < p :: outcomes(q).Teams?
    ensures InOrder(outcomes, page, last) == outcomes(p)
    decreases p - page
  {
    if page < p {
      LowestFailure(outcomes, page + 1, last, p);
    }
  }

  lemma {:induction false} SomePageFails(outcomes: nat -> Teams, page: nat, last: nat, p: nat)
    requires page <= p <= last && outcomes(p).Raises?
    ensures InOrder(outcomes, page, last).Raises?
    decreases p - page
  {
    if page < p {
      SomePageFails(outcomes, page + 1, last, p);
    }
  }

  lemma {:induction false} InOrderSplits(outcomes: nat -> Teams, page: nat, last: nat, p: nat)
    requires 1 <= page <= p <= last + 1 && InOrder(outcomes, page, last).Teams?
    ensures InOrder(outcomes, page, p - 1).Teams? && InOrder(outcomes, p, last).Teams?
    ensures InOrder(outcomes, page, last).rows == InOrder(outcomes, page, p - 1).rows + InOrder(outcomes, p, last).rows
    decreases p - page
  {
    if page < p {
      InOrderSplits(outcomes, page + 1, last, p);
      var first := outcomes(page).rows;
      var before, after := InOrder(outcomes, page + 1, p - 1).rows, InOrder(outcomes, p, last).rows;
      assert first + (before + after) == first + before + after;
    }
  }

  /** Every page's rows come once, after those of the pages before it and before those of the pages after it. */
  lemma PageOrderKept(outcomes: nat -> Teams, page: nat, last: nat, p: nat)
    requires 1 <= page <= p <= last && InOrder(outcomes, page, last).Teams?
    ensures outcomes(p).Teams? && InOrder(outcomes, page, p - 1).Teams? && InOrder(outcomes, p + 1, last).Teams?
    ensures InOrder(outcomes, page, last).rows
         == InOrder(outcomes, page, p - 1).rows + (outcomes(p).rows + InOrder(outcomes, p + 1, last).rows)
  {
    InOrderSplits(outcomes, page, last, p);
  }

  // ----- what the sequential crawl returns -----

  /** One team for each row, in order, each parsed from its row. */
  predicate Parses(raw: seq<RawRow>, teams: seq<HockeyRow>) {
    |raw| == |teams| && forall r | 0 <= r < |raw| :: ParseRow(raw[r]) == Ok(teams[r])
  }

  /** The page can be fetched and every row of it parsed. */
  ghost predicate PageGood(site: Site, page: nat) {
    exists content: Page :: Answers(site, page, content)
      && forall r | 0 <= r < |content.rows| :: ParseRow(content.rows[r]).Ok?
  }

  /** Why a page cannot: three `HTTPError`s, another exception before that, or a row that does not parse. */
  ghost predicate FailsWith(site: Site, page: nat, failure: Failure) {
    match failure
    case FetchFailed(p) => p == page && site(page, 1) == site(page, 2) == site(page, 3) == HttpError
    case FetchCrashed(p) =>
      p == page && exists k: nat | 1 <= k <= 3 :: FirstAnswer(site, page, k) && site(page, k) == OtherError
    case RowMalformed(p) =>
      && p == page
      && exists content: Page :: Answers(site, page, content)
           && exists r :: 0 <= r < |content.rows| && ParseRow(content.rows[r]).Malformed?
    case NoWorkers => false
  }

  /** The teams of pages `first`, `first + 1`, ..., those of each page as one part. */
  ghost predicate Reads(site: Site, first: nat, pages: seq<Page>, parts: seq<seq<HockeyRow>>) {
    && |pages| == |parts|
    && forall i | 0 <= i < |pages| :: Answers(site, first + i, pages[i]) && Parses(pages[i].rows, parts[i])
  }

  lemma AnswersUnique(site: Site, page: nat, a: Page, b: Page)
    requires Answers(site, page, a) && Answers(site, page, b)
    ensures a == b
  {
    var j: nat :| 1 <= j <= 3 && FirstAnswer(site, page, j) && site(page, j) == Good(a);
    var k: nat :| 1 <= k <= 3 && FirstAnswer(site, page, k) && site(page, k) == Good(b);
    FirstAnswerUnique(site, page, j, k);
  }

  lemma FetchedAnswers(site: Site, page: nat, content: Page)
    ensures Answers(site, page, content) <==> FetchFrom(site, page, 1) == Fetched(content)
  {
    FetchExact(site, page);
    if Answers(site, page, content) {
      AnswersUnique(site, page, content, FetchFrom(site, page, 1).page);
    }
  }

  lemma PageExact(site: Site, page: nat)
    ensures Pages(site)(page).Teams? <==> PageGood(site, page)
    ensures Pages(site)(page).Teams? ==>
              && FetchFrom(site, page, 1).Fetched? && Answers(site, page, FetchFrom(site, page, 1).page)
              && Parses(FetchFrom(site, page, 1).page.rows, Pages(site)(page).rows)
    ensures Pages(site)(page).Raises? ==> FailsWith(site, page, Pages(site)(page).failure)
  {
    FetchExact(site, page);
    var fetch := FetchFrom(site, page, 1);
    if fetch.Fetched? {
      FetchedAnswers(site, page, fetch.page);
      ParseAllOrNothing(fetch.page.rows, ParseRow);
      forall content | Answers(site, page, content) ensures content == fetch.page {
        AnswersUnique(site, page, content, fetch.page);
      }
    }
  }

  /** It succeeds exactly when every page is good. */
  lemma {:induction false} SequentialSucceeds(site: Site, page: nat, last: nat)
    ensures Sequential(site, page, last).Teams? <==> forall p | page <= p <= last :: PageGood(site, p)
    decreases last + 1 - page
  {
    if page <= last {
      PageExact(site, page);
      SequentialSucceeds(site, page + 1, last);
    }
  }

  lemma OneMorePage(site: Site, first: nat, pages: seq<Page>, parts: seq<seq<HockeyRow>>, content: Page,
          rows: seq<HockeyRow>)
    requires Reads(site, first, pages, parts)
    requires Answers(site, first + |pages|, content) && Parses(content.rows, rows)
    ensures Reads(site, first, pages + [content], parts + [rows])
  {
  }

  lemma OnePageAlone(outcomes: nat -> Teams, page: nat)
    ensures InOrder(outcomes, page, page) == outcomes(page)
  {
    if outcomes(page).Teams? {
      assert outcomes(page).rows + [] == outcomes(page).rows;
    }
  }

  /** Then it returns one parsed team for each row of each page, in page and row order. */
  lemma {:induction false} SequentialRows(site: Site, page: nat, last: nat)
    returns (pages: seq<Page>, parts: seq<seq<HockeyRow>>)
    requires 1 <= page <= last + 1 && Sequential(site, page, last).Teams?
    ensures |pages| == last + 1 - page && Reads(site, page, pages, parts)
    ensures Sequential(site, page, last).rows == Flatten(parts)
    decreases last + 1 - page
  {
    if page == last + 1 {
      pages, parts := [], [];
    } else {
      InOrderSplits(Pages(site), page, last, last);
      pages, parts := SequentialRows(site, page, last - 1);
      PageExact(site, last);
      var content, rows := FetchFrom(site, last, 1).page, Pages(site)(last).rows;
      OnePageAlone(Pages(site), last);
      FlattenOneMore(parts, rows);
      OneMorePage(site, page, pages, parts, content, rows);
      pages, parts := pages + [content], parts + [rows];
    }
  }

  /** Otherwise it raises what the lowest page that is not good fails with. */
  lemma {:induction false} SequentialFails(site: Site, page: nat, last: nat) returns (p: nat)
    requires Sequential(site, page, last).Raises?
    ensures page <= p <= last && !PageGood(site, p) && forall q | page <= q < p :: PageGood(site, q)
    ensures FailsWith(site, p, Sequential(site, page, last).failure)
    decreases last + 1 - page
  {
    PageExact(site, page);
    if Pages(site)(page).Raises? {
      p := page;
    } else {
      p := SequentialFails(site, page + 1, last);
    }
  }

  // ----- the pool -----

  /**
   * The executor fetching pages 2..`last` and the main thread reading its results in order: pages
   * from `next` on are queued, `running` maps a page to the request it is at, `requests` counts the
   * requests sent for each started page, and pages below `reading` have been read.
   */
  datatype Pool = Pool(
    next: nat,
    running: map<nat, nat>,
    finished: map<nat, Fetch>,
    requests: map<nat, nat>,
    reading: nat,
    rows: seq<HockeyRow>,
    failure: Option<Failure>,
    cancelled: bool)

  datatype PoolStep = StartNext | Respond(page: nat) | ReadNext | Cancel

  const INITIAL: Pool := Pool(2, map[], map[], map[], 2, [], None, false)

  /** A failed fetch ends `pool.map`, which cancels what is queued; a malformed row lets the queue run dry. */
  predicate PoolEnabled(last: nat, workers: nat, pool: Pool, step: PoolStep) {
    match step
    case StartNext => pool.next <= last && |pool.running| < workers && !pool.cancelled
    case Respond(p) => p in pool.running && p in pool.requests && 1 <= pool.running[p] <= MAX_REQUESTS
    case ReadNext => pool.reading <= last && pool.failure.None? && pool.reading in pool.finished
    case Cancel => pool.failure.Some? && !pool.failure.value.RowMalformed? && !pool.cancelled
  }

  function PoolApply(site: Site, last: nat, workers: nat, pool: Pool, step: PoolStep): Pool
    requires PoolEnabled(last, workers, pool, step)
  {
    match step
    case StartNext =>
      pool.(next := pool.next + 1, running := pool.running[pool.next := 1], requests := pool.requests[pool.next := 1])
    case Respond(p) =>
      var attempt := pool.running[p];
      if site(p, attempt) == HttpError && attempt < MAX_REQUESTS then
        pool.(running := pool.running[p := attempt + 1], requests := pool.requests[p := pool.requests[p] + 1])
      else
        pool.(running := pool.running - {p}, finished := pool.finished[p := Answered(site, p, attempt)])
    case ReadNext =>
      (match PageTeams(pool.reading, pool.finished[pool.reading])
       case Raises(failure) => pool.(failure := Some(failure))
       case Teams(rows) => pool.(reading := pool.reading + 1, rows := pool.rows + rows))
    case Cancel => pool.(cancelled := true)
  }

  /** The `with` block is left: nothing runs or is queued, and the results are read or a failure was raised. */
  predicate PoolDone(last: nat, pool: Pool) {
    && |pool.running| == 0
    && (pool.reading > last || (pool.failure.Some? && (pool.cancelled || pool.next > last)))
  }

  function PoolOutcome(pool: Pool): Teams {
    if pool.failure.Some? then Raises(pool.failure.value) else Teams(pool.rows)
  }

  /** A page that runs has only met transient failures so far; a finished one has its fetch's result. */
  predicate PageInv(site: Site, pool: Pool, p: nat) {
    && (p in pool.running ==>
          && p in pool.requests && pool.requests[p] == pool.running[p] && 1 <= pool.running[p] <= MAX_REQUESTS
          && FetchFrom(site, p, pool.running[p]) == FetchFrom(site, p, 1)
          && RequestsFrom(site, p, pool.running[p]) == RequestsFrom(site, p, 1))
    && (p in pool.finished ==>
          && pool.finished[p] == FetchFrom(site, p, 1)
          && p in pool.requests && pool.requests[p] == RequestsFrom(site, p, 1))
  }

  /** Started pages run or are finished, at most `workers` of them run, and reading never overtakes. */
  ghost predicate QueueInv(last: nat, workers: nat, pool: Pool) {
    && 2 <= pool.reading <= pool.next <= last + 1
    && |pool.running| <= workers
    && pool.running.Keys !! pool.finished.Keys
    && (forall p: nat :: p in pool.running || p in pool.finished <==> 2 <= p < pool.next)
    && (pool.cancelled ==> pool.failure.Some? && !pool.failure.value.RowMalformed?)
    && (pool.failure.Some? ==> pool.reading <= last && !pool.failure.value.NoWorkers?)
  }

  /** What has been read, followed by the rest read in order, is the whole read in order. */
  predicate ReadSoFar(outcomes: nat -> Teams, last: nat, reading: nat, rows: seq<HockeyRow>, failure: Option<Failure>) {
    InOrder(outcomes, 2, last) ==
      if failure.Some? then Raises(failure.value) else Prepend(rows, InOrder(outcomes, reading, last))
  }

  predicate ReadInv(site: Site, last: nat, pool: Pool) {
    ReadSoFar(Pages(site), last, pool.reading, pool.rows, pool.failure)
  }

  ghost predicate PoolInv(site: Site, last: nat, workers: nat, pool: Pool) {
    QueueInv(last, workers, pool) && ReadInv(site, last, pool) && forall p: nat :: PageInv(site, pool, p)
  }

  lemma PoolInitial(site: Site, last: nat, workers: nat)
    requires last >= 1
    ensures PoolInv(site, last, workers, INITIAL)
  {
    if Sequential(site, 2, last).Teams? {
      assert [] + Sequential(site, 2, last).rows == Sequential(site, 2, last).rows;
    }
  }

  lemma OneMore(running: map<nat, nat>, p: nat, attempt: nat)
    requires p !in running
    ensures |running[p := attempt]| == |running| + 1
  {
    assert running[p := attempt].Keys == running.Keys + {p};
  }

  lemma QueueStart(site: Site, last: nat, workers: nat, pool: Pool)
    requires QueueInv(last, workers, pool) && PoolEnabled(last, workers, pool, StartNext)
    ensures QueueInv(last, workers, PoolApply(site, last, workers, pool, StartNext))
  {
    assert pool.next !in pool.running && pool.next !in pool.finished;
    OneMore(pool.running, pool.next, 1);
    var pool' := PoolApply(site, last, workers, pool, StartNext);
    forall p: nat ensures p in pool'.running || p in pool'.finished <==> 2 <= p < pool'.next {
      assert p in pool.running || p in pool.finished <==> 2 <= p < pool.next;
    }
  }

  lemma QueueRespond(site: Site, last: nat, workers: nat, pool: Pool, p: nat)
    requires QueueInv(last, workers, pool) && PoolEnabled(last, workers, pool, Respond(p))
    ensures QueueInv(last, workers, PoolApply(site, last, workers, pool, Respond(p)))
  {
    var pool' := PoolApply(site, last, workers, pool, Respond(p));
    assert pool'.running.Keys == pool.running.Keys || pool'.running.Keys == pool.running.Keys - {p};
  }

  lemma QueueRead(site: Site, last: nat, workers: nat, pool: Pool)
    requires QueueInv(last, workers, pool) && PoolEnabled(last, workers, pool, ReadNext)
    requires PageInv(site, pool, pool.reading)
    ensures QueueInv(last, workers, PoolApply(site, last, workers, pool, ReadNext))
  {
    FetchFailure(site, pool.reading, 1);
    assert 2 <= pool.reading < pool.next;
  }

  lemma {:induction false} FetchFailure(site: Site, page: nat, attempt: nat)
    requires 1 <= attempt <= MAX_REQUESTS
    ensures var fetch := FetchFrom(site, page, attempt);
            fetch.Failed? ==> fetch.failure == FetchCrashed(page) || fetch.failure == FetchFailed(page)
    decreases MAX_REQUESTS - attempt
  {
    if site(page, attempt) == HttpError && attempt < MAX_REQUESTS {
      FetchFailure(site, page, attempt + 1);
    }
  }

  lemma ReadOne(outcomes: nat -> Teams, last: nat, reading: nat, rows: seq<HockeyRow>)
    requires reading <= last && ReadSoFar(outcomes, last, reading, rows, None)
    ensures match outcomes(reading)
            case Raises(failure) => ReadSoFar(outcomes, last, reading, rows, Some(failure))
            case Teams(more) => ReadSoFar(outcomes, last, reading + 1, rows + more, None)
  {
    var rest := InOrder(outcomes, reading + 1, last);
    if outcomes(reading).Teams? && rest.Teams? {
      assert rows + (outcomes(reading).rows + rest.rows) == (rows + outcomes(reading).rows) + rest.rows;
    }
  }

  lemma ReadStep(site: Site, last: nat, workers: nat, pool: Pool)
    requires ReadInv(site, last, pool) && PoolEnabled(last, workers, pool, ReadNext)
    requires PageInv(site, pool, pool.reading)
    ensures ReadInv(site, last, PoolApply(site, last, workers, pool, ReadNext))
  {
    assert Pages(site)(pool.reading) == PageTeams(pool.reading, pool.finished[pool.reading]);
    ReadOne(Pages(site), last, pool.reading, pool.rows);
  }

  lemma PageStep(site: Site, last: nat, workers: nat, pool: Pool, step: PoolStep, p: nat)
    requires PageInv(site, pool, p) && PoolEnabled(last, workers, pool, step)
    requires p in pool.running || p in pool.finished ==> p < pool.next
    ensures PageInv(site, PoolApply(site, last, workers, pool, step), p)
  {
  }

  lemma PoolInvStep(site: Site, last: nat, workers: nat, pool: Pool, step: PoolStep)
    requires PoolInv(site, last, workers, pool) && PoolEnabled(last, workers, pool, step)
    ensures PoolInv(site, last, workers, PoolApply(site, last, workers, pool, step))
  {
    match step {
      case StartNext => QueueStart(site, last, workers, pool);
      case Respond(p) => QueueRespond(site, last, workers, pool, p);
      case ReadNext =>
        QueueRead(site, last, workers, pool);
        ReadStep(site, last, workers, pool);
      case Cancel =>
    }
    forall p: nat ensures PageInv(site, PoolApply(site, last, workers, pool, step), p) {
      assert PageInv(site, pool, p);
      PageStep(site, last, workers, pool, step, p);
    }
  }

  // ----- budget and progress -----

  /** The requests sent for pages `2..next`. */
  function Sent(requests: map<nat, nat>, next: nat): nat {
    if next <= 2 then 0
    else Sent(requests, next - 1) + if next - 1 in requests then requests[next - 1] else 0
  }

  lemma {:induction false} SentUpdate(requests: map<nat, nat>, p: nat, n: nat, next: nat)
    ensures Sent(requests[p := n], next)
         == if 2 <= p < next then Sent(requests, next) - (if p in requests then requests[p] else 0) + n
            else Sent(requests, next)
    decreases next
  {
    if next > 2 {
      SentUpdate(requests, p, n, next - 1);
    }
  }

  lemma {:induction false} SentBound(site: Site, pool: Pool, next: nat)
    requires forall p: nat :: PageInv(site, pool, p)
    requires next >= 2 && forall p | 2 <= p < next :: p in pool.running || p in pool.finished
    ensures next - 2 <= Sent(pool.requests, next) <= MAX_REQUESTS * (next - 2)
    decreases next
  {
    if next > 2 {
      assert PageInv(site, pool, next - 1);
      FetchBudget(site, next - 1, 1);
      SentBound(site, pool, next - 1);
    }
  }

  function Measure(last: nat, pool: Pool): int {
    2 * (MAX_REQUESTS * (last - 1) - Sent(pool.requests, pool.next)) + |pool.running| + (last + 1 - pool.reading)
    + (if pool.failure.None? then 1 else 0) + (if pool.cancelled then 0 else 1)
  }

  lemma StartMeasure(site: Site, last: nat, workers: nat, pool: Pool)
    requires QueueInv(last, workers, pool) && PoolEnabled(last, workers, pool, StartNext)
    ensures Measure(last, PoolApply(site, last, workers, pool, StartNext)) == Measure(last, pool) - 1
  {
    assert pool.next !in pool.running;
    OneMore(pool.running, pool.next, 1);
    SentUpdate(pool.requests, pool.next, 1, pool.next);
  }

  lemma RespondMeasure(site: Site, last: nat, workers: nat, pool: Pool, p: nat)
    requires QueueInv(last, workers, pool) && PoolEnabled(last, workers, pool, Respond(p))
    ensures Measure(last, PoolApply(site, last, workers, pool, Respond(p))) < Measure(last, pool)
  {
    var pool' := PoolApply(site, last, workers, pool, Respond(p));
    SentUpdate(pool.requests, p, pool.requests[p] + 1, pool.next);
    assert pool'.running.Keys == pool.running.Keys || pool'.running.Keys == pool.running.Keys - {p};
    assert pool'.requests == pool.requests || pool'.running.Keys == pool.running.Keys;
  }

  /** The pool winds down: whatever is scheduled, a bounded number of steps is left. */
  lemma PoolTerminates(site: Site, last: nat, workers: nat, pool: Pool, step: PoolStep)
    requires PoolInv(site, last, workers, pool) && PoolEnabled(last, workers, pool, step)
    ensures Measure(last, PoolApply(site, last, workers, pool, step)) < Measure(last, pool)
  {
    match step
    case StartNext => StartMeasure(site, last, workers, pool);
    case Respond(p) => RespondMeasure(site, last, workers, pool, p);
    case ReadNext =>
    case Cancel =>
  }

  lemma MeasureBounded(site: Site, last: nat, workers: nat, pool: Pool)
    requires PoolInv(site, last, workers, pool)
    ensures Measure(last, pool) >= 0
  {
    SentBound(site, pool, pool.next);
  }

  /** It never hangs: until the block is left some step can be taken. */
  lemma PoolProgress(site: Site, last: nat, workers: nat, pool: Pool) returns (step: PoolStep)
    requires PoolInv(site, last, workers, pool) && workers >= 1 && !PoolDone(last, pool)
    ensures PoolEnabled(last, workers, pool, step)
  {
    if |pool.running| > 0 {
      var p :| p in pool.running;
      assert PageInv(site, pool, p);
      step := Respond(p);
    } else if pool.failure.Some? {
      step := if pool.failure.value.RowMalformed? then StartNext else Cancel;
    } else {
      step := if pool.reading == pool.next then StartNext else ReadNext;
    }
  }

  // ----- runs of the pool -----

  predicate IsPoolRun(site: Site, last: nat, workers: nat, pool: Pool, steps: seq<PoolStep>)
    decreases |steps|
  {
    steps == []
    || (PoolEnabled(last, workers, pool, steps[0])
        && IsPoolRun(site, last, workers, PoolApply(site, last, workers, pool, steps[0]), steps[1..]))
  }

  function PoolFinal(site: Site, last: nat, workers: nat, pool: Pool, steps: seq<PoolStep>): Pool
    requires IsPoolRun(site, last, workers, pool, steps)
    decreases |steps|
  {
    if steps == [] then pool
    else PoolFinal(site, last, workers, PoolApply(site, last, workers, pool, steps[0]), steps[1..])
  }

  lemma {:induction false} PoolInvRun(site: Site, last: nat, workers: nat, pool: Pool, steps: seq<PoolStep>)
    requires PoolInv(site, last, workers, pool) && IsPoolRun(site, last, workers, pool, steps)
    ensures var final := PoolFinal(site, last, workers, pool, steps);
            && PoolInv(site, last, workers, final)
            && 0 <= Measure(last, final) <= Measure(last, pool) - |steps|
    decreases |steps|
  {
    MeasureBounded(site, last, workers, pool);
    if steps != [] {
      var next := PoolApply(site, last, workers, pool, steps[0]);
      PoolInvStep(site, last, workers, pool, steps[0]);
      PoolTerminates(site, last, workers, pool, steps[0]);
      PoolInvRun(site, last, workers, next, steps[1..]);
    }
  }

  /** Whatever the completion order, the pool ends as the sequential loop over pages 2..`last` does. */
  lemma PoolRefinesSequential(site: Site, last: nat, workers: nat, steps: seq<PoolStep>)
    requires last >= 1 && IsPoolRun(site, last, workers, INITIAL, steps)
    requires PoolDone(last, PoolFinal(site, last, workers, INITIAL, steps))
    ensures PoolOutcome(PoolFinal(site, last, workers, INITIAL, steps)) == Sequential(site, 2, last)
  {
    PoolInitial(site, last, workers);
    PoolInvRun(site, last, workers, INITIAL, steps);
    DoneOutcome(site, last, workers, PoolFinal(site, last, workers, INITIAL, steps));
  }

  lemma DoneOutcome(site: Site, last: nat, workers: nat, pool: Pool)
    requires PoolInv(site, last, workers, pool) && PoolDone(last, pool)
    ensures PoolOutcome(pool) == Sequential(site, 2, last)
  {
    if pool.failure.None? {
      assert pool.rows + [] == pool.rows;
    }
  }

  /**
   * At every moment: at most `workers` pages are in flight, no page has been asked for more than
   * three times, and the run is at most seven steps for each page after the first plus two long.
   */
  lemma PoolBudget(site: Site, last: nat, workers: nat, steps: seq<PoolStep>, p: nat)
    requires last >= 1 && IsPoolRun(site, last, workers, INITIAL, steps)
    ensures var pool := PoolFinal(site, last, workers, INITIAL, steps);
            && |pool.running| <= workers
            && (p in pool.running || p in pool.finished ==>
                  2 <= p <= last && p in pool.requests && 1 <= pool.requests[p] <= 3)
            && Sent(pool.requests, pool.next) <= 3 * (last - 1)
            && |steps| <= 7 * (last - 1) + 2
  {
    PoolInitial(site, last, workers);
    PoolInvRun(site, last, workers, INITIAL, steps);
    var pool := PoolFinal(site, last, workers, INITIAL, steps);
    SentBound(site, pool, pool.next);
    assert PageInv(site, pool, p);
    FetchBudget(site, p, 1);
  }

  /** All workers can be busy at once: the pool fetches as many pages together as it has workers for. */
  lemma {:induction false} PoolFills(site: Site, last: nat, workers: nat, n: nat) returns (steps: seq<PoolStep>)
    requires n <= workers && n < last
    ensures IsPoolRun(site, last, workers, INITIAL, steps)
    ensures var pool := PoolFinal(site, last, workers, INITIAL, steps);
            |pool.running| == n && pool.next == n + 2 && !pool.cancelled && QueueInv(last, workers, pool)
  {
    if n == 0 {
      steps := [];
      PoolInitial(site, last, workers);
    } else {
      var before := PoolFills(site, last, workers, n - 1);
      var pool := PoolFinal(site, last, workers, INITIAL, before);
      steps := before + [StartNext];
      PoolRunOneMore(site, last, workers, INITIAL, before, StartNext);
      assert pool.next !in pool.running;
      OneMore(pool.running, pool.next, 1);
      QueueStart(site, last, workers, pool);
    }
  }

  lemma {:induction false} PoolRunOneMore(site: Site, last: nat, workers: nat, pool: Pool, steps: seq<PoolStep>,
          step: PoolStep)
    requires IsPoolRun(site, last, workers, pool, steps)
    requires PoolEnabled(last, workers, PoolFinal(site, last, workers, pool, steps), step)
    ensures IsPoolRun(site, last, workers, pool, steps + [step])
    ensures PoolFinal(site, last, workers, pool, steps + [step])
         == PoolApply(site, last, workers, PoolFinal(site, last, workers, pool, steps), step)
    decreases |steps|
  {
    if steps == [] {
      var pool' := PoolApply(site, last, workers, pool, step);
      assert [] + [step] == [step] && [step][1..] == [];
      assert IsPoolRun(site, last, workers, pool', []) && PoolFinal(site, last, workers, pool', []) == pool';
    } else {
      PoolRunOneMore(site, last, workers, PoolApply(site, last, workers, pool, steps[0]), steps[1..], step);
      assert (steps + [step])[0] == steps[0] && (steps + [step])[1..] == steps[1..] + [step];
    }
  }

  /** A successful pool has, for every page, failures that were retried and then exactly one good response. */
  lemma OneGoodResponsePerPage(site: Site, last: nat, workers: nat, steps: seq<PoolStep>, p: nat)
    requires last >= 1 && IsPoolRun(site, last, workers, INITIAL, steps)
    requires var pool := PoolFinal(site, last, workers, INITIAL, steps);
             PoolDone(last, pool) && PoolOutcome(pool).Teams?
    requires 2 <= p <= last
    ensures var pool := PoolFinal(site, last, workers, INITIAL, steps);
            && p in pool.requests
            && site(p, pool.requests[p]).Good?
            && (forall k | 1 <= k < pool.requests[p] :: site(p, k) == HttpError)
  {
    PoolInitial(site, last, workers);
    PoolInvRun(site, last, workers, INITIAL, steps);
    var pool := PoolFinal(site, last, workers, INITIAL, steps);
    assert PageInv(site, pool, p);
    FetchBudget(site, p, 1);
    if FetchFrom(site, p, 1).Failed? {
      assert Pages(site)(p).Raises?;
      SomePageFails(Pages(site), 2, last, p);
      DoneOutcome(site, last, workers, pool);
    }
  }

  /** A malformed row is found outside the pool, which by then fetches what is left of its queue. */
  lemma MalformedRunsDry(site: Site, last: nat, workers: nat, steps: seq<PoolStep>, p: nat)
    requires last >= 1 && IsPoolRun(site, last, workers, INITIAL, steps)
    requires var pool := PoolFinal(site, last, workers, INITIAL, steps);
             PoolDone(last, pool) && pool.failure.Some? && pool.failure.value.RowMalformed?
    ensures 2 <= p <= last ==> p in PoolFinal(site, last, workers, INITIAL, steps).finished
  {
    PoolInitial(site, last, workers);
    PoolInvRun(site, last, workers, INITIAL, steps);
    var pool := PoolFinal(site, last, workers, INITIAL, steps);
    assert pool.running == map[] && pool.next == last + 1;
  }

  // ----- the crawl -----

  function Min(a: int, b: int): int {
    if a < b then a else b
  }

  /**
   * The executor at work: each iteration is any one thing that can happen next, so the result holds
   * for every order in which responses arrive.
   */
  method RunPool(site: Site, last: nat, workers: nat) returns (outcome: Teams, requests: nat, ghost peak: nat)
    requires last >= 2 && workers >= 1
    ensures outcome == Sequential(site, 2, last)
    ensures requests <= 3 * (last - 1)
    ensures outcome.Teams? ==> requests >= last - 1
    ensures peak <= workers
  {
    var pool := INITIAL;
    peak := 0;
    PoolInitial(site, last, workers);
    while !PoolDone(last, pool)
      invariant PoolInv(site, last, workers, pool) && |pool.running| <= peak <= workers
      decreases Measure(last, pool)
    {
      var step := SomeStep(site, last, workers, pool);
      MeasureBounded(site, last, workers, pool);
      PoolInvStep(site, last, workers, pool, step);
      PoolTerminates(site, last, workers, pool, step);
      pool := PoolApply(site, last, workers, pool, step);
      if peak < |pool.running| {
        peak := |pool.running|;
      }
    }
    DoneOutcome(site, last, workers, pool);
    SentBound(site, pool, pool.next);
    outcome, requests := PoolOutcome(pool), Sent(pool.requests, pool.next);
  }

  /** Any thing that can happen next; that there is one means the pool never hangs. */
  method SomeStep(site: Site, last: nat, workers: nat, pool: Pool) returns (step: PoolStep)
    requires PoolInv(site, last, workers, pool) && workers >= 1 && !PoolDone(last, pool)
    ensures PoolEnabled(last, workers, pool, step)
  {
    ghost var possible := PoolProgress(site, last, workers, pool);
    if
    case PoolEnabled(last, workers, pool, StartNext) => step := StartNext;
    case pool.running != map[] =>
      var p :| p in pool.running;
      assert PageInv(site, pool, p);
      step := Respond(p);
    case PoolEnabled(last, workers, pool, ReadNext) => step := ReadNext;
    case PoolEnabled(last, workers, pool, Cancel) => step := Cancel;
  }

  /** `_fetch_remaining_pages`. */
  method FetchRemainingPages(site: Site, total: nat, concurrency: int)
    returns (outcome: Teams, requests: nat, ghost peak: nat)
    ensures outcome == if total > 1 && concurrency <= 0 then Raises(NoWorkers) else Sequential(site, 2, total)
    ensures requests <= if total > 1 then 3 * (total - 1) else 0
    ensures outcome.Teams? && total > 1 ==> requests >= total - 1
    ensures total <= 1 || concurrency <= 0 ==> requests == 0
    ensures peak <= (if concurrency > 0 then concurrency else 0) && peak <= (if total > 1 then total - 1 else 0)
  {
    if total <= 1 {
      return Teams([]), 0, 0;
    }
    if concurrency <= 0 {
      return Raises(NoWorkers), 0, 0;
    }
    outcome, requests, peak := RunPool(site, total, Min(concurrency, total - 1));
  }

  /** Reading pages 1..N one after the other, N being what page 1 says; a pool of no workers is refused. */
  function CrawlResultOf(site: Site, concurrency: int): Teams {
    match FetchFrom(site, 1, 1)
    case Failed(failure) => Raises(failure)
    case Fetched(first) =>
      var pages := if TotalPages(first) > 1 then TotalPages(first) else 1;
      if concurrency <= 0 && pages > 1 && Sequential(site, 1, 1).Teams? then Raises(NoWorkers)
      else Sequential(site, 1, pages)
  }

  /** How many pages there are, by what the first one says. */
  function LastPage(first: Page): (last: nat)
    ensures last == if TotalPages(first) > 1 then TotalPages(first) else 1
  {
    if TotalPages(first) > 1 then TotalPages(first) else 1
  }

  /** Page `p` is the first one, or one the first one says there is. */
  ghost predicate Listed(site: Site, p: nat) {
    p == 1 || (1 < p && exists first: Page :: Answers(site, 1, first) && p <= LastPage(first))
  }

  /** There is more to fetch than the first page and nobody to fetch it. */
  ghost predicate Refused(site: Site, concurrency: int) {
    concurrency <= 0 && Listed(site, 2) && PageGood(site, 1)
  }

  lemma ListedExact(site: Site, p: nat)
    ensures FetchFrom(site, 1, 1).Fetched? ==>
              (Listed(site, p) <==> 1 <= p <= LastPage(FetchFrom(site, 1, 1).page))
    ensures FetchFrom(site, 1, 1).Failed? ==> (Listed(site, p) <==> p == 1) && !PageGood(site, 1)
  {
    forall first: Page ensures Answers(site, 1, first) <==> FetchFrom(site, 1, 1) == Fetched(first) {
      FetchedAnswers(site, 1, first);
    }
  }

  lemma CrawlSucceeds(site: Site, concurrency: int)
    ensures CrawlResultOf(site, concurrency).Teams? <==>
              !Refused(site, concurrency) && forall p: nat | Listed(site, p) :: PageGood(site, p)
    ensures CrawlResultOf(site, concurrency) == Raises(NoWorkers) <==> Refused(site, concurrency)
  {
    ListedExact(site, 1);
    ListedExact(site, 2);
    if FetchFrom(site, 1, 1).Fetched? {
      forall p: nat ensures Listed(site, p) <==> 1 <= p <= LastPage(FetchFrom(site, 1, 1).page) {
        ListedExact(site, p);
      }
      SequentialSucceeds(site, 1, 1);
      SequentialSucceeds(site, 1, LastPage(FetchFrom(site, 1, 1).page));
      if Sequential(site, 1, LastPage(FetchFrom(site, 1, 1).page)).Raises? {
        var p := SequentialFails(site, 1, LastPage(FetchFrom(site, 1, 1).page));
      }
    } else {
      FetchExact(site, 1);
    }
  }

  lemma CrawlRows(site: Site, concurrency: int) returns (pages: seq<Page>, parts: seq<seq<HockeyRow>>)
    requires CrawlResultOf(site, concurrency).Teams?
    ensures Reads(site, 1, pages, parts) && |pages| >= 1 && |pages| == LastPage(pages[0])
    ensures CrawlResultOf(site, concurrency).rows == Flatten(parts)
  {
    var first := FetchFrom(site, 1, 1).page;
    pages, parts := SequentialRows(site, 1, LastPage(first));
    assert Answers(site, 1 + 0, pages[0]);
    FetchedAnswers(site, 1, pages[0]);
  }

  lemma CrawlFails(site: Site, concurrency: int) returns (p: nat)
    requires CrawlResultOf(site, concurrency).Raises? && !Refused(site, concurrency)
    ensures Listed(site, p) && !PageGood(site, p) && forall q: nat | Listed(site, q) && q < p :: PageGood(site, q)
    ensures FailsWith(site, p, CrawlResultOf(site, concurrency).failure)
  {
    CrawlSucceeds(site, concurrency);
    if FetchFrom(site, 1, 1).Failed? {
      p := 1;
      PageExact(site, 1);
    } else {
      var last := LastPage(FetchFrom(site, 1, 1).page);
      p := SequentialFails(site, 1, last);
      ListedExact(site, p);
      forall q: nat | Listed(site, q) ensures 1 <= q {
      }
    }
  }

  /**
   * The crawl succeeds exactly when every listed page is good, and then has every row of every page in
   * order; otherwise it raises what the lowest listed page that is not good fails with.
   */
  lemma CrawlExact(site: Site, concurrency: int)
    ensures var outcome := CrawlResultOf(site, concurrency);
            && (outcome.Teams? <==>
                  !Refused(site, concurrency) && forall p: nat | Listed(site, p) :: PageGood(site, p))
            && (outcome.Teams? ==>
                  exists pages: seq<Page>, parts: seq<seq<HockeyRow>> ::
                    && Reads(site, 1, pages, parts) && |pages| >= 1 && |pages| == LastPage(pages[0])
                    && outcome.rows == Flatten(parts))
            && (outcome == Raises(NoWorkers) <==> Refused(site, concurrency))
            && (outcome.Raises? && outcome.failure != NoWorkers ==>
                  exists p: nat ::
                    && Listed(site, p) && !PageGood(site, p) && FailsWith(site, p, outcome.failure)
                    && forall q: nat | Listed(site, q) && q < p :: PageGood(site, q))
  {
    CrawlSucceeds(site, concurrency);
    if CrawlResultOf(site, concurrency).Teams? {
      var pages, parts := CrawlRows(site, concurrency);
    } else if !Refused(site, concurrency) {
      var p := CrawlFails(site, concurrency);
    }
  }

  /** What the processor sees of a crawl: its teams as the result's only section, or an exception. */
  function AsOutcome(teams: Teams): (outcome: CrawlOutcome)
    ensures outcome.Crawled? <==> teams.Teams?
    ensures outcome.Crawled? ==> FillsOwnSection(Hockey, outcome.result) && outcome.result.hockey == teams.rows
  {
    match teams
    case Teams(rows) => Crawled(CrawlResult(rows, []))
    case Raises(_) => Raised("hockey crawl failed")
  }

  /** `crawl`: the rows of all pages in page order, or the error of the lowest page that fails. */
  method Crawl(site: Site, concurrency: int) returns (outcome: Teams, requests: nat)
    ensures outcome == CrawlResultOf(site, concurrency)
    ensures outcome.Teams? <==>
              !Refused(site, concurrency) && forall p: nat | Listed(site, p) :: PageGood(site, p)
    ensures outcome.Teams? ==>
              exists pages: seq<Page>, parts: seq<seq<HockeyRow>> ::
                && Reads(site, 1, pages, parts) && |pages| >= 1 && |pages| == LastPage(pages[0])
                && outcome.rows == Flatten(parts)
    ensures outcome == Raises(NoWorkers) <==> Refused(site, concurrency)
    ensures outcome.Raises? && outcome.failure != NoWorkers ==>
              exists p: nat ::
                && Listed(site, p) && !PageGood(site, p) && FailsWith(site, p, outcome.failure)
                && forall q: nat | Listed(site, q) && q < p :: PageGood(site, q)
    ensures FetchFrom(site, 1, 1).Fetched? ==>
              var total := TotalPages(FetchFrom(site, 1, 1).page);
              var pages := if total > 1 then total else 1;
              requests <= 3 * pages && (outcome.Teams? ==> requests >= pages)
    ensures !PageGood(site, 1) || Refused(site, concurrency) ==> 1 <= requests <= 3
  {
    CrawlExact(site, concurrency);
    PageExact(site, 1);
    var first, sent := FetchPage(site, 1);
    requests := sent;
    if first.Failed? {
      return Raises(first.failure), requests;
    }
    match ParseTeams(first.page) {
      case Malformed => outcome := Raises(RowMalformed(1));
      case Ok(teams) =>
        var rest, more, peak := FetchRemainingPages(site, TotalPages(first.page), concurrency);
        requests := requests + more;
        outcome := Prepend(teams, rest);
        assert teams + [] == teams;
    }
  }
}
