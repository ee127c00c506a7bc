/** The result tables: rows of every job share one table and carry the id of their job. */
module Tables {
  import opened Domain

  datatype Entry<T> = Entry(job: JobId, row: T)

  type Table<T> = seq<Entry<T>>

  datatype Db = Db(
    jobs: map<JobId, Job>,
    hockey: Table<HockeyRow>,
    oscar: Table<OscarRow>)

  /** `DELETE ... WHERE job_id = j`. */
  function DeleteJob<T>(table: Table<T>, j: JobId): Table<T> {
    if table == [] then []
    else if table[0].job == j then DeleteJob(table[1..], j)
    else [table[0]] + DeleteJob(table[1..], j)
  }

  /** Bulk `INSERT` of the rows of one job. */
  function InsertRows<T>(table: Table<T>, j: JobId, rows: seq<T>): Table<T> {
    table + seq(|rows|, i requires 0 <= i < |rows| => Entry(j, rows[i]))
  }

  /** `SELECT ... WHERE job_id = j`. */
  function RowsOf<T>(table: Table<T>, j: JobId): seq<T> {
    if table == [] then []
    else (if table[0].job == j then [table[0].row] else []) + RowsOf(table[1..], j)
  }

  function ReplaceRows<T>(table: Table<T>, j: JobId, rows: seq<T>): Table<T> {
    var deleted := DeleteJob(table, j);
    if rows == [] then deleted else InsertRows(deleted, j, rows)
  }

  /** Deletion empties the job's rows and leaves the rows of every other job alone. */
  lemma {:induction false} DeleteJobRows<T>(table: Table<T>, j: JobId, k: JobId)
    ensures RowsOf(DeleteJob(table, j), k) == if k == j then [] else RowsOf(table, k)
  {
    if table == [] {
    } else {
      DeleteJobRows(table[1..], j, k);
      if table[0].job != j {
        var rest := DeleteJob(table[1..], j);
        assert ([table[0]] + rest)[1..] == rest;
      }
    }
  }

  lemma {:induction false} RowsOfConcat<T>(a: Table<T>, b: Table<T>, k: JobId)
    ensures RowsOf(a + b, k) == RowsOf(a, k) + RowsOf(b, k)
  {
    if a == [] {
      assert a + b == b;
    } else {
      RowsOfConcat(a[1..], b, k);
      assert (a + b)[1..] == a[1..] + b;
    }
  }

  lemma {:induction false} RowsOfInserted<T>(j: JobId, rows: seq<T>, k: JobId)
    ensures RowsOf(InsertRows([], j, rows), k) == if k == j then rows else []
  {
    var table := InsertRows([], j, rows);
    if rows == [] {
    } else {
      RowsOfInserted(j, rows[1..], k);
      assert table[1..] == InsertRows([], j, rows[1..]);
    }
  }

  /** Delete followed by insert replaces exactly one job's rows, order kept, no duplicates left. */
  lemma {:induction false} ReplaceRowsEffect<T>(table: Table<T>, j: JobId, rows: seq<T>, k: JobId)
    ensures RowsOf(ReplaceRows(table, j, rows), k) == if k == j then rows else RowsOf(table, k)
  {
    DeleteJobRows(table, j, k);
    if rows != [] {
      var deleted := DeleteJob(table, j);
      RowsOfInserted(j, rows, k);
      RowsOfConcat(deleted, InsertRows([], j, rows), k);
      assert InsertRows(deleted, j, rows) == deleted + InsertRows([], j, rows);
    }
  }

  /** `_persist`: a section that came back empty is skipped, its old rows stay. */
  function Persist(db: Db, j: JobId, result: CrawlResult): Db {
    var hockey := if result.hockey == [] then db.hockey else ReplaceRows(db.hockey, j, result.hockey);
    var oscar := if result.oscar == [] then db.oscar else ReplaceRows(db.oscar, j, result.oscar);
    db.(hockey := hockey, oscar := oscar)
  }

  lemma PersistEffect(db: Db, j: JobId, result: CrawlResult, k: JobId)
    ensures Persist(db, j, result).jobs == db.jobs
    ensures RowsOf(Persist(db, j, result).hockey, k)
         == if k == j && result.hockey != [] then result.hockey else RowsOf(db.hockey, k)
    ensures RowsOf(Persist(db, j, result).oscar, k)
         == if k == j && result.oscar != [] then result.oscar else RowsOf(db.oscar, k)
  {
    ReplaceRowsEffect(db.hockey, j, result.hockey, k);
    ReplaceRowsEffect(db.oscar, j, result.oscar, k);
  }
}
