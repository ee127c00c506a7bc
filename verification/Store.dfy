/** The database and its sessions as objects: what is in memory, what is pending, what is committed. */
module Store {
  import opened Domain
  import opened Tables
  import opened JobRows

  class Clock {
    var now: Time

    constructor (start: Time)
      ensures now == start
    {
      now := start;
    }

    /** Reads the clock, which never gives the same time twice. */
    method Read() returns (t: Time)
      modifies this
      ensures t == old(now) && now == old(now) + 1
    {
      t := now;
      now := now + 1;
    }
  }

  /** The committed state. A commit either happens as a whole or raises and leaves nothing behind. */
  class Database {
    var db: Db
    var requests: nat
    const outage: nat -> bool
    ghost var commits: seq<Db>

    constructor (outage: nat -> bool)
      ensures db == Db(map[], [], []) && requests == 0 && this.outage == outage && commits == []
    {
      db := Db(map[], [], []);
      requests := 0;
      this.outage := outage;
      commits := [];
    }

    method Write(next: Db) returns (ok: bool)
      modifies this
      ensures requests == old(requests) + 1 && ok == !outage(old(requests))
      ensures db == (if ok then next else old(db))
      ensures commits == old(commits) + (if ok then [next] else [])
    {
      ok := !outage(requests);
      requests := requests + 1;
      if ok {
        db := next;
        commits := commits + [next];
      }
    }
  }

  /** The mapped job object whose attributes the repository assigns. */
  class JobObject {
    const id: JobId
    const source: Source
    const createdAt: Time
    var status: Status
    var attempts: nat
    var records: Option<nat>
    var error: Option<JobError>
    var startedAt: Option<Time>
    var finishedAt: Option<Time>

    function Value(): Job
      reads this
    {
      Job(source, status, attempts, records, error, createdAt, startedAt, finishedAt)
    }

    constructor (id: JobId, row: Job)
      ensures this.id == id && Value() == row
    {
      this.id := id;
      source := row.source;
      createdAt := row.createdAt;
      status := row.status;
      attempts := row.attempts;
      records := row.records;
      error := row.error;
      startedAt := row.startedAt;
      finishedAt := row.finishedAt;
    }
  }

  /** A statement executed in the open transaction. */
  datatype Statement =
    | DeleteHockey(job: JobId)
    | InsertHockey(job: JobId, hockeyRows: seq<HockeyRow>)
    | DeleteOscar(job: JobId)
    | InsertOscar(job: JobId, oscarRows: seq<OscarRow>)

  function Execute(db: Db, statement: Statement): Db {
    match statement
    case DeleteHockey(j) => db.(hockey := DeleteJob(db.hockey, j))
    case InsertHockey(j, rows) => db.(hockey := InsertRows(db.hockey, j, rows))
    case DeleteOscar(j) => db.(oscar := DeleteJob(db.oscar, j))
    case InsertOscar(j, rows) => db.(oscar := InsertRows(db.oscar, j, rows))
  }

  function ExecuteAll(db: Db, statements: seq<Statement>): Db {
    if statements == [] then db
    else Execute(ExecuteAll(db, statements[..|statements| - 1]), statements[|statements| - 1])
  }

  lemma ExecuteOneMore(db: Db, statements: seq<Statement>, statement: Statement)
    ensures ExecuteAll(db, statements + [statement]) == Execute(ExecuteAll(db, statements), statement)
  {
    assert (statements + [statement])[..|statements|] == statements;
  }

  lemma {:induction false} ExecuteKeepsJobs(db: Db, statements: seq<Statement>)
    ensures ExecuteAll(db, statements).jobs == db.jobs
  {
    if statements != [] {
      ExecuteKeepsJobs(db, statements[..|statements| - 1]);
    }
  }

  /** A session holding the one job its caller works on, and what its transaction has not committed. */
  class Session {
    const database: Database
    var job: JobObject?
    var base: Option<Job>
    var statements: seq<Statement>

    constructor (database: Database)
      ensures this.database == database && job == null && base == None && statements == []
    {
      this.database := database;
      job := null;
      base := None;
      statements := [];
    }

    /** The loaded job still has its row; a job added but not yet committed has none. */
    predicate Valid()
      reads this, database
    {
      job != null && base.Some? ==> job.id in database.db.jobs
    }

    /** The database a commit of this session would leave. */
    function Pending(): Db
      requires Valid()
      reads this, database, job
    {
      var db := ExecuteAll(database.db, statements);
      ExecuteKeepsJobs(database.db, statements);
      if job == null then db
      else if base.None? then db.(jobs := db.jobs[job.id := job.Value()])
      else db.(jobs := db.jobs[job.id := Flush(db.jobs[job.id], base.value, job.Value())])
    }

    method Get(j: JobId) returns (found: JobObject?)
      requires Valid() && job == null
      modifies this
      ensures Valid() && statements == old(statements) && found == job
      ensures found == null <==> j !in database.db.jobs
      ensures found != null ==>
                fresh(found) && found.id == j && found.Value() == database.db.jobs[j] && base == Some(found.Value())
    {
      found := null;
      if j in database.db.jobs {
        found := new JobObject(j, database.db.jobs[j]);
        base := Some(database.db.jobs[j]);
      }
      job := found;
    }

    method Add(added: JobObject)
      requires Valid() && job == null
      modifies this
      ensures Valid() && job == added && base == None && statements == old(statements)
    {
      job := added;
      base := None;
    }

    method Run(statement: Statement)
      requires Valid()
      modifies this
      ensures Valid() && job == old(job) && base == old(base) && statements == old(statements) + [statement]
    {
      statements := statements + [statement];
    }

    /** Commits, or raises; the objects stay loaded (`expire_on_commit=False`). */
    method Commit() returns (ok: bool)
      requires Valid()
      modifies this, database
      ensures database.requests == old(database.requests) + 1 && ok == !database.outage(old(database.requests))
      ensures database.db == (if ok then old(Pending()) else old(database.db))
      ensures database.commits == old(database.commits) + (if ok then [old(Pending())] else [])
      ensures job == old(job)
      ensures ok ==> Valid() && statements == [] && base == (if job == null then None else Some(job.Value()))
    {
      var next := Pending();
      ok := database.Write(next);
      if ok {
        statements := [];
        base := if job == null then None else Some(job.Value());
      }
    }
  }
}
