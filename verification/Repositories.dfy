/** The two repositories: methods that change a job object or run statements in a session. */
module Repositories {
  import opened Domain
  import opened Tables
  import JobRows
  import opened Store

  class JobRepository {
    const session: Session
    const clock: Clock

    constructor (session: Session, clock: Clock)
      ensures this.session == session && this.clock == clock
    {
      this.session := session;
      this.clock := clock;
    }

    /** `id` is the fresh uuid the row gets; creation time comes from the clock. */
    method Create(id: JobId, source: Source) returns (job: JobObject)
      requires session.Valid() && session.job == null
      modifies session, clock
      ensures fresh(job) && job.id == id && job.Value() == JobRows.NewJob(source, old(clock.now))
      ensures job.Value() == Job(source, Pending, 0, None, None, old(clock.now), None, None)
      ensures session.Valid() && session.job == job && session.base == None
      ensures session.statements == old(session.statements) && clock.now == old(clock.now) + 1
    {
      var created := clock.Read();
      job := new JobObject(id, JobRows.NewJob(source, created));
      session.Add(job);
    }

    method MarkRunning(job: JobObject)
      modifies job, clock
      ensures job.Value() == JobRows.MarkRunning(old(job.Value()), old(clock.now))
      ensures job.status == Running && job.startedAt == Some(old(clock.now))
      ensures job.attempts == old(job.attempts) + 1 && job.error == None
      ensures job.records == old(job.records) && job.finishedAt == old(job.finishedAt)
      ensures clock.now == old(clock.now) + 1
    {
      job.status := Running;
      job.startedAt := Some(clock.now);
      var _ := clock.Read();
      job.attempts := job.attempts + 1;
      job.error := None;
    }

    method MarkCompleted(job: JobObject, recordsCollected: nat)
      modifies job, clock
      ensures job.Value() == JobRows.MarkCompleted(old(job.Value()), recordsCollected, old(clock.now))
      ensures job.status == Completed && job.records == Some(recordsCollected) && job.finishedAt == Some(old(clock.now))
      ensures job.attempts == old(job.attempts) && job.error == old(job.error) && job.startedAt == old(job.startedAt)
      ensures clock.now == old(clock.now) + 1
    {
      job.status := Completed;
      job.records := Some(recordsCollected);
      var now := clock.Read();
      job.finishedAt := Some(now);
    }

    method MarkFailed(job: JobObject, error: JobError)
      modifies job, clock
      ensures job.Value() == JobRows.MarkFailed(old(job.Value()), error, old(clock.now))
      ensures job.status == Failed && job.error == Some(error) && job.finishedAt == Some(old(clock.now))
      ensures job.attempts == old(job.attempts) && job.records == old(job.records)
      ensures job.startedAt == old(job.startedAt)
      ensures clock.now == old(clock.now) + 1
    {
      job.status := Failed;
      job.error := Some(error);
      var now := clock.Read();
      job.finishedAt := Some(now);
    }

    method MarkPendingRetry(job: JobObject, error: JobError)
      modifies job
      ensures job.Value() == JobRows.MarkPendingRetry(old(job.Value()), error)
      ensures job.status == Pending && job.error == Some(error)
      ensures job.attempts == old(job.attempts) && job.records == old(job.records)
      ensures job.startedAt == old(job.startedAt) && job.finishedAt == old(job.finishedAt)
    {
      job.status := Pending;
      job.error := Some(error);
    }
  }

  class ResultRepository {
    const session: Session

    constructor (session: Session)
      ensures this.session == session
    {
      this.session := session;
    }

    method ReplaceHockey(j: JobId, rows: seq<HockeyRow>) returns (count: nat)
      requires session.Valid()
      modifies session
      ensures session.Valid() && session.job == old(session.job) && session.base == old(session.base)
      ensures count == |rows|
      ensures session.statements == old(session.statements) + ReplaceHockeyStatements(j, rows)
    {
      session.Run(DeleteHockey(j));
      if rows != [] {
        session.Run(InsertHockey(j, rows));
      }
      count := |rows|;
    }

    method ReplaceOscar(j: JobId, rows: seq<OscarRow>) returns (count: nat)
      requires session.Valid()
      modifies session
      ensures session.Valid() && session.job == old(session.job) && session.base == old(session.base)
      ensures count == |rows|
      ensures session.statements == old(session.statements) + ReplaceOscarStatements(j, rows)
    {
      session.Run(DeleteOscar(j));
      if rows != [] {
        session.Run(InsertOscar(j, rows));
      }
      count := |rows|;
    }
  }

  function ReplaceHockeyStatements(j: JobId, rows: seq<HockeyRow>): seq<Statement> {
    if rows == [] then [DeleteHockey(j)] else [DeleteHockey(j), InsertHockey(j, rows)]
  }

  function ReplaceOscarStatements(j: JobId, rows: seq<OscarRow>): seq<Statement> {
    if rows == [] then [DeleteOscar(j)] else [DeleteOscar(j), InsertOscar(j, rows)]
  }

  lemma OneAfterTheOther<T>(before: seq<T>, first: T, second: T)
    ensures before + [first, second] == before + [first] + [second]
  {
  }

  lemma ExecuteTwoMore(db: Db, before: seq<Statement>, first: Statement, second: Statement)
    ensures ExecuteAll(db, before + [first, second]) == Execute(Execute(ExecuteAll(db, before), first), second)
  {
    var one := before + [first];
    OneAfterTheOther(before, first, second);
    ExecuteOneMore(db, before, first);
    ExecuteOneMore(db, one, second);
  }

  /** The delete and insert of one replacement, executed on any transaction, replace exactly that job's rows. */
  lemma ReplaceHockeyExecutes(db: Db, before: seq<Statement>, j: JobId, rows: seq<HockeyRow>)
    ensures var db0 := ExecuteAll(db, before);
            ExecuteAll(db, before + ReplaceHockeyStatements(j, rows))
              == db0.(hockey := ReplaceRows(db0.hockey, j, rows))
  {
    if rows == [] {
      ExecuteOneMore(db, before, DeleteHockey(j));
    } else {
      ExecuteTwoMore(db, before, DeleteHockey(j), InsertHockey(j, rows));
    }
  }

  lemma ReplaceOscarExecutes(db: Db, before: seq<Statement>, j: JobId, rows: seq<OscarRow>)
    ensures var db0 := ExecuteAll(db, before);
            ExecuteAll(db, before + ReplaceOscarStatements(j, rows))
              == db0.(oscar := ReplaceRows(db0.oscar, j, rows))
  {
    if rows == [] {
      ExecuteOneMore(db, before, DeleteOscar(j));
    } else {
      ExecuteTwoMore(db, before, DeleteOscar(j), InsertOscar(j, rows));
    }
  }

  /** `_persist`: only sections that came back non-empty are replaced. */
  function PersistStatements(j: JobId, result: CrawlResult): seq<Statement> {
    (if result.hockey == [] then [] else ReplaceHockeyStatements(j, result.hockey))
    + (if result.oscar == [] then [] else ReplaceOscarStatements(j, result.oscar))
  }

  lemma PersistExecutes(db: Db, j: JobId, result: CrawlResult)
    ensures ExecuteAll(db, PersistStatements(j, result)) == Persist(db, j, result)
  {
    var hockey := if result.hockey == [] then [] else ReplaceHockeyStatements(j, result.hockey);
    if result.hockey != [] {
      ReplaceHockeyExecutes(db, [], j, result.hockey);
      assert [] + hockey == hockey;
    }
    assert ExecuteAll(db, hockey) == Persist(db, j, result.(oscar := []));
    if result.oscar != [] {
      ReplaceOscarExecutes(db, hockey, j, result.oscar);
    } else {
      assert PersistStatements(j, result) == hockey;
    }
  }
}
