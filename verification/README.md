# Crawl jobs: a verified model

This project models the part of the crawler service that turns an at-least-once queue into bounded
retries with an exactly-once effect on the database, the two crawlers, and the paginated reads of what
they collect. `dafny verify dfyconfig.toml` checks all of it.

## What is modelled

**The protocol.** `Protocol` is a state machine whose steps are as small as the code's own commits and
broker calls. An API request creates a job row and commits it, publishes its message, and writes a
compensating failure when publishing raises (`Enqueue`, with the publish confirmed, refused, or raising
although the broker took the message, and the API dying at either point). The broker keeps messages
ready, unacked on a worker's connection, acked or dead-lettered. Any number of workers take deliveries
with prefetch 1 and go through validation, the skip branches, the committed start, one commit per
successful crawler, the retry decision and the settlement (`Deliver`, `Advance`, `Settle`). A worker can
crash, raise an unexpected error, or lose its connection while it keeps working (`Abort`,
`LoseConnection`); a settlement on a lost connection changes nothing. A session writes back only the
columns it changed (`JobRows.Flush`), so a stale job object is modelled too. `log` and `stamps` are
history: they record commits and deliveries and decide nothing.

`Invariant.Inv` is the inductive invariant, built up in `Messages`, `Sessions`, `Lifecycle`, `Ledger`,
`Results`, `AckedResults` and `Snapshot`; `Guarantees`, `RowChanges`, `Finality`, `Budgets`, `Drain` and
`ExactlyOnce` state what follows for every reachable state and every run.

**The objects.** `Store`, `Repositories`, `Worker` and `Service` are the classes as they are in the
code: a session that holds a job object and pending statements over a database whose commits may raise,
the two repositories, `JobProcessor`, `CrawlConsumer` and `JobService`. Their methods are proved against
`Plan.Process` and the functions of `Protocol`. `Delivery.DeliveryIsARun` shows that what they commit and
what they leave at the broker is what a run of the state machine does, for every commit at which `process`
can raise and whether or not the connection holds until the settlement; `Service.EnqueueIsARun` shows the
same of a request.

**The crawlers.** `HockeyCrawl` is the page crawl: three-request retries, a bounded pool in which any
page may answer next, and the sequential crawl it must equal. `OscarPage` and `OscarCrawl` are the
browser crawl over a page that changes on its own between any two driver commands.

**The reads.** `Paging`, `Listings` and `SnapshotReads` are the filtered, sorted, paginated listings of a
job's results and the "latest completed" snapshot, read by several statements, page by page, while the
protocol runs.

## Where the obvious claim is false

* `attempts <= max_attempts` does not hold: nothing checks the counter before a run, so each
  interruption can add one. The counts that can occur after n interruptions are exactly those up to
  `max(1, max_attempts) + n` (`Attempts.AttemptsExactly`). The repository's README says that the limit
  survives worker crashes: the number of retries and the decision to give up do, the number of attempts
  does not.
* A failed job is not final, whatever the maximum (`Attempts.FailedIsNotFinal`). A step leaves its row and
  results alone exactly if it neither commits a new start of it, nor is its enqueue's compensating write,
  nor commits a non-empty section other than the one stored, nor the outcome of an attempt; the last two
  can hit only a job that an ambiguous publish has overwritten (`Finality.FailedIsFinal`). It can leave
  that status again exactly if a live message names it (`Finality.FailedRestartsIffLive`).
* A job is stranded exactly when the API dies after creating it with no message taken by the broker:
  before publishing, or after a refused publish and before the compensating write (`Faults.OrphanExists`,
  `Guarantees.LostIffApiDied`).
* A publish that raises after the broker took the message can overwrite a completed job
  (`Faults.AmbiguousPublishOverwrites`); that is the only step that changes one
  (`Guarantees.CompletedIsFinal`).
* Per-job mutual exclusion is lost exactly by a delivery that overlaps a worker which has lost its
  connection and is still processing the message (`Faults.OverlapExists`,
  `Guarantees.ExclusionIffNoOverlap`). `Reachable` therefore means reachable without such a delivery;
  message conservation and what is stored need no such restriction.
  The deployment's single worker never overlaps (`Invariant.SoleWorkerRun`), and neither do any number
  of workers when one whose connection is lost is dead (`Invariant.FailStopRun`).
* `records_collected` can be less than the rows stored (`Faults.CountCanDisagree`), exactly when the
  completing attempt came back empty where an earlier one had left rows (`Guarantees.CountAgreement`).
* With several workers the job whose completion is committed last need not become the snapshot
  (`Overtaking.LastToCompleteMayNotBeLatest`); it does exactly when it was marked last
  (`Guarantees.CompletionMovesSnapshot`), which is always so with one worker
  (`ExactlyOnce.SoleWorkerSnapshot`).
* Pages of a listing partition it exactly when no two different rows have equal sort keys
  (`Paging.PagesPartitionIffNoTies`); the queries have no tie-breaker.
* The three readiness signals guarantee the whole table exactly if a row was on screen before the click
  or the clicked year has at most one (`OscarPage.ReadyMeansComplete`). Otherwise, if rows can appear one
  by one under the spinner, every nonempty front of the table can be taken for it
  (`OscarPage.AnyFrontCanBeTaken`); that concerns the first year, the later ones have a row before them.
* The total and the page of a listing are read by two statements, and can disagree: a listing can report
  no rows and show one (`Listings.TotalAndPageCanDisagree`). From a given moment on they always agree
  exactly if the job is closed, its source does not collect that section, or the filter keeps nothing
  (`Listings.HockeyTotalsAgreeIff`, `Listings.OscarTotalsAgreeIff`). Closed means that the enqueue is past
  publishing and that, if a live message still names the job, the job has completed and its enqueue will
  not write again; exactly then its stored results can no longer change (`Listings.ResultsFixedIffClosed`).
  A completed job, and so the snapshot's, is closed unless its publish raised and its message is live
  (`Listings.CompletedIsClosedIff`).
* The three readiness signals are not each needed for every table: the first is exactly if a row was there
  before the click, the second exactly if the clicked year has two rows or more, the third exactly if
  there was no row before or the clicked year has none (`OscarPage.WhenEachSignalIsNeeded`).

## Model

| member | source | states |
|---|---|---|
| Invariant.InvStep | src/app/worker/processor.py:46-118 | every step of requests, workers and broker that is not an overlapping delivery keeps the whole invariant linking job rows, result rows, sessions, messages and history |
| Invariant.SoleWorkerRun | src/app/worker/consumer.py:53-66 | a run with one worker, as deployed, never delivers a message that is still being processed, whatever connections are lost |
| Invariant.FailStopRun | src/app/worker/consumer.py:44-71 | neither does a run with any number of workers in which a worker that loses its connection dies with it |
| Guarantees.MessageConservation | src/app/messaging/topology.py:17-35 | in any run, overlapping deliveries included, a published message is in exactly one of ready, unacked, acked and dead-lettered, and unacked on exactly one worker |
| Guarantees.OneMessagePerJob | src/app/services/jobs.py:27-30 | in any run, the one message that names a job is the one the broker took from its enqueue, if any, and it carries the job's source |
| Guarantees.MutualExclusion | src/app/worker/consumer.py:61-64 | at most one worker is processing a job or about to settle its message |
| Guarantees.ExclusionIffNoOverlap | src/app/worker/consumer.py:44-71 | a step puts two workers inside `process` for one message if and only if it is an overlapping delivery |
| Guarantees.LostIffApiDied | src/app/services/jobs.py:20-45 | a pending or running job outside its enqueue has no live message if and only if the API died after creating it with no message taken by the broker, and then it stays as created |
| Guarantees.DrainedMeansFinished | src/app/services/jobs.py:20-45 | with the queue drained and no request in progress every other job is completed or failed |
| Guarantees.SettledMeansFinal | src/app/worker/consumer.py:89-95 | an acked message has a committed completed job, a dead-lettered one a committed failed job with its attempts exhausted |
| Guarantees.SettledForever | src/app/worker/processor.py:57-62 | after settlement the job's row and results never change again, in any run from there, overlapping deliveries included |
| Finality.FailedIsFinal | src/app/worker/processor.py:57-65 | a step leaves a failed job's row and results alone if and only if it commits no new start of it, is not its enqueue's compensating write, and commits neither a non-empty section of it that differs from the stored one nor the outcome of an attempt; the last two only ever hit a job that an ambiguous publish has overwritten |
| Finality.FailedRestartsIffLive | src/app/worker/processor.py:57-65 | a failed job can leave that status in some continuation, by running again, if and only if a live message names it; without one it stays failed in every run |
| Guarantees.DeliveryBound | src/app/worker/processor.py:106-118 | a message is delivered at most `max(1, max_attempts)` times plus once per interruption |
| Guarantees.AttemptBound | src/app/db/repositories/jobs.py:44-49 | `attempts` counts committed starts and is at most `max(1, max_attempts)` plus interruptions; at most `max(0, max_attempts - 1)` retries are ever committed |
| Guarantees.LifecycleInvariant | src/app/db/repositories/jobs.py:44-64 | what each status implies about attempts, error, timestamps and count, for every job in every reachable state; one that an ambiguous publish has overwritten may carry that publish's error while running, completed or failed, and may have failed with attempts left |
| Guarantees.AttemptsCountStarts | src/app/db/repositories/jobs.py:44-49 | `attempts` rises by one exactly at a committed start of that job; source and creation time never change |
| RowChanges.RowColumns | src/app/db/repositories/jobs.py:44-64 | column by column, what a start, the outcome of an attempt and the compensating write change in a job's row in any reachable state; no other step changes it, and what they do not name stays |
| RowChanges.StartIsTimeOfRead | src/app/worker/processor.py:57-65 | a committed start sets `started_at` to the time its delivery read the job, later than any start time before, counts one attempt, clears the error and keeps the rest, whatever happens between read and commit |
| RowChanges.OutcomeIsTimeOfMark | src/app/worker/processor.py:73-118 | the end of an attempt writes completed with the count and the time of the decision, or failed with the errors and that time if its attempts are exhausted, or pending with the errors alone |
| RowChanges.CreatedRow | src/app/db/repositories/jobs.py:15-19 | a new job is pending with no attempts, count, error or times but its creation |
| Guarantees.CompletedIsFinal | src/app/worker/processor.py:60-62 | a step leaves a completed job's row and results alone if and only if it is not an enqueue overwriting it |
| Guarantees.GivenUpNeverPending | src/app/worker/processor.py:109-118 | a job the worker has once failed is never pending again |
| Guarantees.StoredRowsAreLastGoodCrawl | src/app/worker/processor.py:120-127 | in any run, overlapping deliveries included, the rows stored for a job and section are those of its last committed crawl that had any, across retries, rollbacks and partial failures |
| Guarantees.CompletedCountsItsAttempt | src/app/worker/processor.py:73-104 | a completed job counts one attempt in which every registered crawler succeeded, in order: hockey, oscar, or hockey before oscar |
| Guarantees.ErrorNamesFailedCrawlers | src/app/worker/processor.py:88-99 | a crawl error on a job names, in order, exactly the registered crawlers whose results its latest attempt did not commit, in any status and also for overwritten jobs |
| Guarantees.CountAgreement | src/app/worker/processor.py:120-127 | `records_collected` equals the rows stored if and only if the completing attempt had no empty section where older rows remain; each non-empty section of that attempt is what is stored |
| Guarantees.SnapshotNonInterference | src/app/db/repositories/results.py:61-72 | a step that completes or overwrites no job of these sources leaves the snapshot, its row and its rows as they were |
| Guarantees.CompletionMovesSnapshot | src/app/db/repositories/results.py:100-106 | a completing commit makes its job the one snapshot if and only if it was marked after every completed job of these sources; otherwise the snapshot stays |
| Guarantees.OverwriteMovesSnapshot | src/app/services/jobs.py:43-45 | an enqueue that overwrites a completed job leaves as snapshot the latest of the other completed jobs, so it moves the snapshot only if the job was it |
| ExactlyOnce.ExactlyOnceEffect | src/app/worker/processor.py:46-104 | with crawlers that always succeed, a job whose message ends acked has the count and rows of the fixed output, after any crashes, lost settlements and redeliveries, and is completed without an error unless an ambiguous publish has overwritten status and error; no valid message is dead-lettered |
| ExactlyOnce.ExactlyOnceAsOnePass | src/app/worker/processor.py:46-104 | that count and those rows are the ones of a single uninterrupted `process` of the fresh job, and so are status and error unless an ambiguous publish has overwritten them |
| ExactlyOnce.OnePassEffect | src/app/worker/processor.py:46-81 | what one uninterrupted pass over the registered crawlers leaves stored and counted |
| ExactlyOnce.OtherJobsUntouched | src/app/db/repositories/results.py:16-34 | a step changes the row and results of no job but the one it works on |
| ExactlyOnce.SoleWorkerSnapshot | src/app/db/repositories/results.py:61-72 | with one worker every completing commit makes exactly its job the snapshot, holding the rows last stored for it |
| Budgets.BudgetStep | src/app/worker/processor.py:106-118 | with any number of workers, a delivery lowers the sum of `max(1, max_attempts - attempts)` over the live messages by at least one, an interruption raises it by at most one, and nothing else raises it |
| Budgets.DeliveriesLeft | src/app/worker/consumer.py:89-95 | from any reachable state the deliveries made without new messages are at most that sum, lowered by what is under way or settled, plus one for each interruption; it is at most `max(1, max_attempts)` for each live message |
| Drain.TotalDeliveryBound | src/app/worker/consumer.py:89-95 | k messages are delivered at most `k * max(1, max_attempts)` times plus once per interruption |
| Drain.DrainTerminates | src/app/worker/processor.py:106-118 | a run without requests and interruptions is no longer than the work in hand plus ten steps for each delivery the live messages have left |
| Drain.Progress | src/app/worker/consumer.py:73-95 | until the queue is empty and every worker idle some such step can be taken |
| Drain.StoppedMeansFinished | src/app/worker/consumer.py:73-95 | where none can be taken the queue is empty and every job properly enqueued is finished |
| Attempts.AttemptsExactly | src/app/worker/processor.py:57-65 | for every maximum, the attempt counts that occur after n interruptions are exactly those up to `max(1, max_attempts) + n` |
| Attempts.FailedIsNotFinal | src/app/worker/processor.py:57-65 | for every maximum, a failed job whose dead-lettering was lost runs again |
| Faults.OrphanExists | src/app/services/jobs.py:27-30 | the API dying between create and publish strands a job |
| Faults.OverlapExists | src/app/worker/consumer.py:44-71 | a worker cut off from the broker and the next one process one message at once |
| Faults.CountCanDisagree | src/app/worker/processor.py:123-126 | an empty retry leaves an older row stored and counts nothing |
| Faults.AmbiguousPublishOverwrites | src/app/services/jobs.py:31-45 | the compensating write fails a job that has completed meanwhile |
| Overtaking.LastToCompleteMayNotBeLatest | src/app/db/repositories/results.py:100-106 | two workers: the later completing commit leaves the other job the snapshot |
| Tables.ReplaceRowsEffect | src/app/db/repositories/results.py:16-34 | delete and insert replace exactly one job's rows, in order and without duplicates |
| Tables.PersistEffect | src/app/worker/processor.py:120-127 | persisting replaces a section only if the result's is non-empty, and touches no other job |
| Plan.LoopPartition | src/app/worker/processor.py:83-104 | after the crawler loop there is one error per raising crawler and one commit per succeeding one, each in registry order and made whatever comes later, and the count is the sum of the rows of those that succeeded |
| Plan.ProcessIsARun | src/app/worker/processor.py:46-118 | an uninterrupted `process` is a run of the protocol with the same commits in the same order and the same outcome |
| Plan.SkipIsARun | src/app/worker/processor.py:57-62 | so is one that skips an unknown or completed job: it commits nothing and acks |
| Delivery.DeliveryIsARun | src/app/worker/consumer.py:73-95 | for every number of commits a delivery gets through and for a connection that holds or is lost, a run of the protocol makes those commits of the plan in order and leaves the broker as `_on_message` does: settled by the outcome, requeued by the exception handler, or back in the queue |
| Delivery.InvalidDeliveryIsARun | src/app/worker/consumer.py:73-79 | so is the delivery of an invalid payload: no commit, dead-lettered or back in the queue |
| Store.Session.Commit | src/app/db/session.py:11-12 | a commit applies all pending statements and changed columns at once, or raises and changes nothing; the objects stay loaded |
| Repositories.JobRepository.Create | src/app/db/repositories/jobs.py:15-19 | a new pending row with no attempts, count, error or times but its creation, added to the session and not yet committed |
| Repositories.JobRepository.MarkRunning | src/app/db/repositories/jobs.py:44-49 | status running, start time now whatever it was, one attempt more, no error; count and finish time stay |
| Repositories.JobRepository.MarkCompleted | src/app/db/repositories/jobs.py:51-54 | status completed, the count, finish time now; attempts, error and start time stay |
| Repositories.JobRepository.MarkFailed | src/app/db/repositories/jobs.py:56-59 | status failed, the error, finish time now whatever it was; attempts, count and start time stay |
| Repositories.JobRepository.MarkPendingRetry | src/app/db/repositories/jobs.py:61-64 | status pending and the error; everything else stays |
| Repositories.ResultRepository.ReplaceHockey | src/app/db/repositories/results.py:16-24 | the statements run, in order, and the number of rows |
| Repositories.ResultRepository.ReplaceOscar | src/app/db/repositories/results.py:26-34 | the statements run, in order, and the number of rows |
| Repositories.PersistExecutes | src/app/worker/processor.py:120-127 | executing the statements of a persist replaces the non-empty sections of that job and nothing else |
| Worker.JobProcessor.RunCrawlers | src/app/worker/processor.py:83-104 | records, errors and commits are those of the crawler loop, or of a proper prefix of it when a commit raises |
| Worker.JobProcessor.HandleFailure | src/app/worker/processor.py:106-118 | commits the job as failed exactly when its attempts are exhausted and otherwise as pending, with the errors, and reports which; raises with nothing committed when the commit does |
| Worker.JobProcessor.Process | src/app/worker/processor.py:46-81 | the databases committed are those of one uninterrupted pass, in order, and the outcome is its outcome; when a commit raises, a proper prefix of them |
| Worker.CrawlConsumer.OnMessage | src/app/worker/consumer.py:73-95 | an invalid payload is dead-lettered and commits nothing; a valid one is settled by its outcome, and requeued when `process` raised; on a lost connection the settlement raises and the message is back in the queue |
| Service.JobService.Enqueue | src/app/services/jobs.py:20-45 | what is committed, published and returned for each way the publish and the two commits can end |
| Service.EnqueueIsARun | src/app/services/jobs.py:20-45 | an enqueue is a run of the protocol leading to the same database and broker |
| SnapshotReads.SnapshotExists | src/app/db/repositories/results.py:61-63 | there is a snapshot if and only if a job of these sources has completed, and then only one |
| SnapshotReads.HockeySnapshotJob | src/app/db/repositories/results.py:61-72 | the snapshot read is the completed hockey or combined job that finished last; exactly while there is none, no job, no rows and a total of 0 are returned |
| SnapshotReads.OscarSnapshotJob | src/app/db/repositories/results.py:87-106 | the same for the Oscar snapshot |
| SnapshotReads.CompletedJobRead | src/app/db/repositories/results.py:36-46 | once a job has completed, statements run at any later moments before an overwriting enqueue find the same rows for it |
| SnapshotReads.HockeySnapshotPages | src/app/db/repositories/results.py:48-72 | pages of the snapshot, each read by three statements at different moments of a run, show every row that passes the filter once when no two tie, oldest year first and within a year by team, with the right total, however much else is crawled, retried or failed meanwhile |
| SnapshotReads.OscarSnapshotPages | src/app/db/repositories/results.py:74-98 | the same for the Oscar snapshot, newest year first and within a year by title |
| Paging.PageContents | src/app/db/repositories/results.py:108-115 | a page is sorted and has `min(limit, max(0, n - offset))` rows, all among the n that pass the filter when it is read; n is the total when both statements find as many |
| Paging.PagePosition | src/app/db/repositories/results.py:108-124 | a page comes right after the `offset` first rows of the sorted listing, or after all of a shorter one, and stops at `limit` rows only if there are more |
| Paging.HockeyPageSorted | src/app/db/repositories/results.py:112-115 | hockey rows on a page come oldest year first and within a year by team |
| Paging.OscarPageSorted | src/app/db/repositories/results.py:121-124 | films on a page come newest year first and within a year by title |
| Paging.AgreesIffAsMany | src/app/db/repositories/results.py:108-124 | every page that can be asked for has the rows due from the total if and only if the two statements find as many rows that pass the filter |
| Listings.ResultsFixedIffClosed | src/app/services/jobs.py:27-45 | what is stored for a job, and even how many rows, can no longer change in any continuation if and only if its enqueue is past publishing and, while a live message names it, it has completed with no compensating write to come |
| Listings.CanStore | src/app/worker/processor.py:88-104 | otherwise anything one of its crawlers may return can still end up stored for it |
| Listings.HockeyTotalsAgreeIff | src/app/db/repositories/results.py:36-40 | from a reachable state on, the total of a hockey listing of a job and any page read with it or later always agree if and only if the job is closed in that sense, its source collects no hockey, or the filter keeps nothing |
| Listings.OscarTotalsAgreeIff | src/app/db/repositories/results.py:42-46 | the same for Oscar listings |
| Listings.CompletedIsClosedIff | src/app/services/jobs.py:31-45 | a completed job is closed if and only if its publish has not raised with the compensating write to come, or no live message names it |
| Listings.TotalAndPageCanDisagree | src/app/db/repositories/results.py:108-115 | a first page can show a row while the total is zero |
| Paging.ListingPages | src/app/db/repositories/results.py:108-124 | without ties the pages at offsets 0, L, 2L, ... concatenate to the whole filtered sorted list, and each reports its length as total |
| Paging.PagesPartitionIffNoTies | src/app/db/repositories/results.py:112-124 | every reading of enough pages shows every row exactly once if and only if no two different rows have equal keys |
| Paging.HockeyPages | src/app/db/repositories/results.py:108-115 | for hockey rows that is: no team twice in a year, up to collation |
| Paging.OscarPages | src/app/db/repositories/results.py:117-124 | for films: no title twice in a year, up to collation |
| Html.ParseAllOrNothing | src/app/crawlers/hockey/parser.py:11-19 | parsing gives every row in order, or fails exactly when some row is malformed |
| HockeyParser.ParseRowExact | src/app/crawlers/hockey/parser.py:37-62 | a row parses if and only if every cell is there and numeric where due, only OT losses may be empty, and each value comes from its own cell |
| HockeyParser.TotalPagesIsLargestLink | src/app/crawlers/hockey/parser.py:22-34 | the page count is the largest number a pagination link carries, 1 without one |
| HockeyCrawl.FetchPage | src/app/crawlers/hockey/crawler.py:70-81 | a page is fetched if and only if the first of three requests not answered by an `HTTPError` brings it, and the page is that answer; three `HTTPError`s give it up, another exception first ends the fetch at once |
| HockeyCrawl.FetchBudget | src/app/crawlers/hockey/crawler.py:70-81 | the same of the recursive form, from any request on |
| HockeyCrawl.LowestFailure | src/app/crawlers/hockey/crawler.py:58-68 | reading in order raises what the lowest-numbered failing page raises |
| HockeyCrawl.PageOrderKept | src/app/crawlers/hockey/crawler.py:66-68 | otherwise every page's rows come once, after those of the pages before it and before those of the pages after it |
| HockeyCrawl.SequentialSucceeds | src/app/crawlers/hockey/crawler.py:58-68 | reading in order succeeds if and only if each page is brought by one of three requests and every row of it parses |
| HockeyCrawl.SequentialRows | src/app/crawlers/hockey/crawler.py:68 | and then returns one parsed team for each row of each page, in page and row order |
| HockeyCrawl.SequentialFails | src/app/crawlers/hockey/crawler.py:68 | otherwise it raises what the lowest page that cannot be fetched or parsed fails with |
| HockeyCrawl.PoolInvStep | src/app/crawlers/hockey/crawler.py:58-68 | what every step of the pool keeps: running pages have met only transient failures, finished ones have their fetch's result, and what is read plus the rest read in order is the whole |
| HockeyCrawl.PoolRefinesSequential | src/app/crawlers/hockey/crawler.py:58-68 | whatever the completion order, a finished pool's result is that of the sequential loop |
| HockeyCrawl.PoolTerminates | src/app/crawlers/hockey/crawler.py:66-68 | every step of the pool lowers a bounded measure |
| HockeyCrawl.PoolProgress | src/app/crawlers/hockey/crawler.py:66-68 | until it is finished some step can be taken |
| HockeyCrawl.PoolBudget | src/app/crawlers/hockey/crawler.py:65-81 | at every moment at most `workers` pages are in flight and no page has been asked for more than three times |
| HockeyCrawl.PoolFills | src/app/crawlers/hockey/crawler.py:65-67 | as many pages as the pool has workers for can be in flight at once |
| HockeyCrawl.MalformedRunsDry | src/app/crawlers/hockey/crawler.py:66-68 | after a malformed row the pool still fetches every page of its queue |
| HockeyCrawl.OneGoodResponsePerPage | src/app/crawlers/hockey/crawler.py:70-81 | a successful pool has for every page retried failures and then exactly one good response |
| HockeyCrawl.RunPool | src/app/crawlers/hockey/crawler.py:65-68 | the executor, taking any possible step each time, ends with the sequential result, never more than `workers` pages in flight, within three requests a page |
| HockeyCrawl.FetchRemainingPages | src/app/crawlers/hockey/crawler.py:58-68 | no pool for a single page, none to be had for no workers, otherwise the sequential result with at most `concurrency` pages in flight, and no more than there are |
| HockeyCrawl.Crawl | src/app/crawlers/hockey/crawler.py:39-56 | succeeds if and only if every page of 1..N, N read from page 1, is brought by one of three requests and parses, with one parsed team for each row of each page in order; otherwise, never with partial rows, raises what the lowest page that is not so fails with: three `HTTPError`s, another exception, or a malformed row; refused with no workers for more pages; N to 3N requests |
| OscarPage.ReadyMeansClickedYear | src/app/crawlers/oscar/crawler.py:83-104 | when the three signals, read one after the other from a changing page, say ready, rows of the clicked year are on screen and stay |
| OscarPage.ReadyMeansComplete | src/app/crawlers/oscar/crawler.py:83-96 | ready always means that the whole table is there if and only if a row was on screen before the click or the year has at most one |
| OscarPage.WhenEachSignalIsNeeded | src/app/crawlers/oscar/crawler.py:83-96 | without staleness an old table passes the other two signals exactly if a row was on screen before the click; without the spinner part of the table does exactly if the year has two rows or more; without the row test an empty page does exactly if there was no row before or the year has none |
| OscarPage.AnyFrontCanBeTaken | src/app/crawlers/oscar/crawler.py:92-96 | without a row before the click every nonempty front of the table can pass all three signals |
| OscarPage.ParseFilmExact | src/app/crawlers/oscar/parser.py:19-43 | a film row parses if and only if its cells are there and numeric where due; each value comes from its own cell |
| OscarPage.FilmsCarryYear | src/app/crawlers/oscar/parser.py:7-43 | one film for each row, each with the year given, or failure exactly when a row is malformed |
| OscarCrawl.CheckTable | src/app/crawlers/oscar/crawler.py:83-104 | the answer is that of the three signals on the states its commands saw; a missing element means not yet, a driver error raises, and nothing else does |
| OscarCrawl.WaitForTable | src/app/crawlers/oscar/crawler.py:78-79 | when the wait succeeds the clicked year's table is on screen, whole if there was a row before; it raises exactly at a driver error, and does succeed whenever the driver's commands work and the table of a year with rows stands by the last poll |
| OscarCrawl.ShowTable | src/app/crawlers/oscar/crawler.py:72-79 | the same from the look at the table before and the click on |
| OscarCrawl.CollectYear | src/app/crawlers/oscar/crawler.py:72-81 | the films parsed from that table with that year, or the reason there are none, a driver error never being passed over; on a page that renders in time it never times out, and collects exactly the year's films if there was a row before or no part of a table is shown |
| OscarCrawl.CollectYears | src/app/crawlers/oscar/crawler.py:67-70 | one table for each year link, in order, every one but the first certainly whole; nothing when any year fails; all years' films, or the first failure to parse, on a page that renders in time and shows no part of a table |
| OscarCrawl.YearIdsAt | src/app/crawlers/oscar/crawler.py:60-64 | the years are exactly the ids of the links that have one, each at its place and as often as linked |
| OscarCrawl.FindYears | src/app/crawlers/oscar/crawler.py:55-64 | the wait for the year links and the years then linked, in order; it succeeds whenever commands work and links appear by the last poll |
| OscarCrawl.Crawl | src/app/crawlers/oscar/crawler.py:39-70 | on success one table for each link with an id, in link order, for the links then on the page; all years' films, or the first failure to parse, on a page whose links and tables come in time; the session closed in any case |
| OscarCrawl.EveryFilmIsTagged | src/app/crawlers/oscar/crawler.py:67-81 | a film is collected if and only if it comes from a row of some year's table, tagged with the year of the link that table was shown for |

## Left out

* FastAPI routes and schemas, health check, dashboard, logging, settings, migrations, Docker.
* Internals of pika, aio-pika, SQLAlchemy, httpx, tenacity, Selenium and BeautifulSoup: only what the code relies on is modelled (atomic commit or error, redelivery of unacked messages, dead-lettering, retry up to three, rows as cells by selector).
* JSON encoding of messages: a body is a valid payload or an invalid one.
* `run`, `request_stop`, reconnection and back-off delays: when a worker connects or stops is left to the steps that can happen; that a stop request ends the loop is not claimed.
* Broker delivery order: any ready message may be delivered to any idle worker.
* Wall clocks: time is an abstract strictly increasing counter, so `finished_at` values never tie.
* The text of error messages, beyond which crawlers they name, and float parsing of `win_pct`.
* `ILIKE`: filters are arbitrary predicates; `%` and `_` typed by a user act as wildcards in the code.
* `JobRepository.list`: its pages are an instance of the generic listing in `Paging`, ordered by creation time.
* Runs with an overlapping delivery: beyond conservation, routing, stored rows and what is settled, the guarantees are for runs without one, also for jobs whose own message does not overlap.
* Rows inside a transaction that is never committed, and locks between concurrent transactions: sessions meet only at commits, where statements take effect together.
* A failed second commit of an enqueue is modelled as the request dying there.
* `HockeyCrawl.RunPool` stands for `ThreadPoolExecutor` under every schedule; threads themselves are not modelled.
* `OscarPage` assumes the order old table, cleared table with spinner, clicked year's table, and that a click supersedes a rendering in progress; the start of the browser and its failure are not part of it.
