/** The entities shared by the API and the worker: jobs, collected rows, queue messages. */
module Domain {

  type JobId = nat
  type WorkerId = nat
  type Time = nat

  datatype Option<+T> = None | Some(value: T)

  /** `JobSource`; a crawler is identified by the one source it collects. */
  datatype Source = Hockey | Oscar | All

  datatype Status = Pending | Running | Completed | Failed

  datatype CrawlError = CrawlError(crawler: Source, detail: string)

  /** `Job.error_message`, kept structured: which crawlers failed, or why publishing did. */
  datatype JobError = CrawlFailed(errors: seq<CrawlError>) | PublishFailed(detail: string)

  /** One row of the `jobs` table. */
  datatype Job = Job(
    source: Source,
    status: Status,
    attempts: nat,
    records: Option<nat>,
    error: Option<JobError>,
    createdAt: Time,
    startedAt: Option<Time>,
    finishedAt: Option<Time>)

  datatype HockeyRow = HockeyRow(
    teamName: string,
    year: int,
    wins: int,
    losses: int,
    otLosses: Option<int>,
    winPct: real,
    goalsFor: int,
    goalsAgainst: int,
    goalDiff: int)

  datatype OscarRow = OscarRow(
    year: int,
    title: string,
    nominations: int,
    awards: int,
    bestPicture: bool)

  datatype CrawlResult = CrawlResult(hockey: seq<HockeyRow>, oscar: seq<OscarRow>)

  /** What one call of `Crawler.crawl` does: return a result, or raise. */
  datatype CrawlOutcome = Crawled(result: CrawlResult) | Raised(detail: string)

  /** The crawlers registered for a source, in the order the processor runs them. */
  function Registry(source: Source): seq<Source> {
    match source
    case Hockey => [Hockey]
    case Oscar => [Oscar]
    case All => [Hockey, Oscar]
  }

  /** Each crawler fills only its own section of the result. */
  predicate FillsOwnSection(crawler: Source, result: CrawlResult) {
    && (crawler != Hockey ==> result.hockey == [])
    && (crawler != Oscar ==> result.oscar == [])
  }

  /** A queue payload; `Invalid` stands for a body that fails validation. */
  datatype Body = Invalid | Valid(job: JobId, source: Source)

  /** A message in the broker; the tag tells equal payloads apart. */
  datatype Message = Message(tag: nat, body: Body)

  datatype Outcome = CompletedOutcome | RetryOutcome | FailedOutcome | SkippedOutcome

  /** `basic_ack`, `basic_nack(requeue=True)`, `basic_nack(requeue=False)`. */
  datatype Settlement = Ack | Requeue | DeadLetter

  function SettlementOf(outcome: Outcome): Settlement {
    match outcome
    case CompletedOutcome => Ack
    case SkippedOutcome => Ack
    case RetryOutcome => Requeue
    case FailedOutcome => DeadLetter
  }
}
