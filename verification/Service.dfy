/** `JobService.enqueue`: commit, publish, and the compensating write, as the object it is. */
module Service {
  import opened Domain
  import opened Tables
  import opened JobRows
  import opened Store
  import opened Repositories
  import Protocol

  /** How a publish with confirms ends: the broker may have the message although the call raised. */
  datatype Report = Confirmed | Refused | Unconfirmed

  class Publisher {
    var broker: Protocol.Broker
    var tag: nat
    const reports: nat -> Report

    constructor (broker: Protocol.Broker, tag: nat, reports: nat -> Report)
      ensures this.broker == broker && this.tag == tag && this.reports == reports
    {
      this.broker := broker;
      this.tag := tag;
      this.reports := reports;
    }

    /** A result is the text of the `PublishError` raised. */
    method Publish(body: Body) returns (error: Option<string>)
      modifies this
      ensures tag == old(tag) + 1
      ensures var report := reports(old(tag));
              && error.Some? == (report != Confirmed)
              && broker == (if report == Refused then old(broker)
                            else Protocol.Accept(old(broker), Message(old(tag), body)))
    {
      var report := reports(tag);
      if report != Refused {
        broker := Protocol.Accept(broker, Message(tag, body));
      }
      error := if report == Confirmed then None else Some("publish failed");
      tag := tag + 1;
    }
  }

  datatype EnqueueResult = Enqueued(job: JobObject) | PublishError(detail: string) | DatabaseError

  class JobService {
    const session: Session
    const publisher: Publisher
    const clock: Clock

    constructor (session: Session, publisher: Publisher, clock: Clock)
      ensures this.session == session && this.publisher == publisher && this.clock == clock
    {
      this.session := session;
      this.publisher := publisher;
      this.clock := clock;
    }

    /** The created job is loaded, committed and unchanged since. */
    predicate Holds(job: JobObject)
      reads session, session.database, job
    {
      && session.Valid() && session.job == job && session.base == Some(job.Value()) && session.statements == []
      && job.id in session.database.db.jobs && session.database.db.jobs[job.id] == job.Value()
    }

    /** `_create_job`. */
    method CreateJob(id: JobId, source: Source) returns (job: JobObject, ok: bool)
      requires session.Valid() && session.job == null && session.statements == []
      requires id !in session.database.db.jobs
      modifies session, session.database, clock
      ensures fresh(job) && job.id == id && job.Value() == NewJob(source, old(clock.now))
      ensures clock.now == old(clock.now) + 1
      ensures ok == !session.database.outage(old(session.database.requests))
      ensures session.database.requests == old(session.database.requests) + 1
      ensures ok ==> Holds(job)
      ensures var created := Protocol.SetRow(old(session.database.db), id, job.Value());
              && session.database.db == (if ok then created else old(session.database.db))
              && session.database.commits == old(session.database.commits) + (if ok then [created] else [])
    {
      var jobs := new JobRepository(session, clock);
      job := jobs.Create(id, source);
      assert session.Pending() == Protocol.SetRow(session.database.db, id, job.Value());
      ok := session.Commit();
    }

    /** `_mark_publish_failure`, with the job object the request created. */
    method MarkPublishFailure(job: JobObject, detail: string) returns (ok: bool)
      requires Holds(job) && job.Value() == NewJob(job.source, job.createdAt)
      modifies session, session.database, clock, job
      ensures ok == !session.database.outage(old(session.database.requests))
      ensures var before := old(session.database.db);
              var failed := Protocol.SetRow(before, job.id,
                              Protocol.PublishFailureRow(before.jobs[job.id], detail, old(clock.now)));
              && session.database.db == (if ok then failed else before)
              && session.database.commits == old(session.database.commits) + (if ok then [failed] else [])
    {
      var jobs := new JobRepository(session, clock);
      jobs.MarkFailed(job, PublishFailed(detail));
      ghost var before := session.database.db;
      assert session.Pending() == Protocol.SetRow(before, job.id,
               Protocol.PublishFailureRow(before.jobs[job.id], detail, old(clock.now)));
      ok := session.Commit();
    }

    /**
     * The job is committed before it is published. A failing first commit leaves no trace; a raising
     * publish is compensated in a second commit; if that fails too, the job stays as created.
     */
    method Enqueue(id: JobId, source: Source) returns (result: EnqueueResult)
      requires session.Valid() && session.job == null && session.statements == []
      requires id !in session.database.db.jobs
      modifies session, session.database, clock, publisher
      ensures var database, broker := session.database, old(publisher.broker);
              var requests, report := old(session.database.requests), publisher.reports(old(publisher.tag));
              var created := Protocol.SetRow(old(session.database.db), id, NewJob(source, old(clock.now)));
              var accepted := Protocol.Accept(broker, Message(old(publisher.tag), Valid(id, source)));
              && (database.outage(requests) ==>
                    && result == DatabaseError && publisher.broker == broker
                    && database.db == old(session.database.db) && database.commits == old(session.database.commits))
              && (!database.outage(requests) ==>
                    && publisher.broker == (if report == Refused then broker else accepted)
                    && (result.Enqueued? <==> report == Confirmed)
                    && (result == DatabaseError <==> report != Confirmed && database.outage(requests + 1))
                    && (if result.PublishError? then
                          var failed := Protocol.SetRow(created, id,
                            Protocol.PublishFailureRow(created.jobs[id], result.detail, old(clock.now) + 1));
                          database.db == failed && database.commits == old(session.database.commits) + [created, failed]
                        else
                          database.db == created && database.commits == old(session.database.commits) + [created]))
      ensures result.Enqueued? ==> result.job.id == id && result.job.Value() == session.database.db.jobs[id]
    {
      var job, ok := CreateJob(id, source);
      if !ok {
        return DatabaseError;
      }
      var error := publisher.Publish(Valid(job.id, job.source));
      match error {
        case None =>
          result := Enqueued(job);
        case Some(detail) =>
          ok := MarkPublishFailure(job, detail);
          result := if ok then PublishError(detail) else DatabaseError;
      }
    }
  }

  // ----- an enqueue is a run of the protocol -----

  function PublishStep(report: Report): Protocol.Request {
    match report
    case Confirmed => Protocol.Publish
    case Refused => Protocol.RejectPublish
    case Unconfirmed => Protocol.AmbiguousPublish
  }

  function Compensation(j: JobId, report: Report, marked: bool, detail: string): seq<Protocol.Step> {
    if report == Confirmed then []
    else [Protocol.Enqueue(j, if marked then Protocol.MarkPublishFailure(detail) else Protocol.Die)]
  }

  /** Where the request stands after its last step, `m` being the message the broker may have taken. */
  function Ended(report: Report, marked: bool, m: Message): Protocol.ApiPc {
    match report
    case Confirmed => Protocol.Done(m)
    case Refused => if marked then Protocol.MarkedFailed(None) else Protocol.Died(None)
    case Unconfirmed => if marked then Protocol.MarkedFailed(Some(m)) else Protocol.Died(Some(m))
  }

  /** The protocol steps of a request that gets past its first commit. */
  function EnqueueSteps(j: JobId, source: Source, report: Report, marked: bool, detail: string): seq<Protocol.Step> {
    [Protocol.Enqueue(j, Protocol.Create(source))]
    + ([Protocol.Enqueue(j, PublishStep(report))] + Compensation(j, report, marked, detail))
  }

  /** They lead to the database and broker `Enqueue` leaves, at the times the run reads. */
  lemma EnqueueIsARun(cfg: Protocol.Config, s: Protocol.State, j: JobId, source: Source, report: Report,
          marked: bool, detail: string)
    requires Protocol.RequestEnabled(s, j, Protocol.Create(source))
    ensures var steps := EnqueueSteps(j, source, report, marked, detail);
            var created := Protocol.SetRow(s.db, j, NewJob(source, s.now));
            var m := Message(s.now + 1, Valid(j, source));
            && Protocol.IsRun(cfg, s, steps)
            && var s' := Protocol.Final(cfg, s, steps);
               && s'.broker == (if report == Refused then s.broker else Protocol.Accept(s.broker, m))
               && s'.db == (if report == Confirmed || !marked then created
                            else
                              var row := Protocol.PublishFailureRow(created.jobs[j], detail, s.now + 2);
                              Protocol.SetRow(created, j, row))
               && s'.workers == s.workers
               && s'.api == s.api[j := Ended(report, marked, m)]
  {
    var create := Protocol.Enqueue(j, Protocol.Create(source));
    var publish := Protocol.Enqueue(j, PublishStep(report));
    var s1 := Protocol.Apply(cfg, s, create);
    var s2 := Protocol.Apply(cfg, s1, publish);
    var rest := Compensation(j, report, marked, detail);
    Compensates(cfg, s2, j, report, marked, detail, Message(s1.now, Valid(j, source)));
    FirstStep(cfg, s1, publish, rest);
    FirstStep(cfg, s, create, [publish] + rest);
  }

  /** After the publish: nothing more, the compensating write, or the request dying before it. */
  lemma Compensates(cfg: Protocol.Config, s: Protocol.State, j: JobId, report: Report, marked: bool, detail: string,
          m: Message)
    requires j in s.api && j in s.db.jobs
    requires s.api[j] == match report
                         case Confirmed => Protocol.Done(m)
                         case Refused => Protocol.PublishRaised(None)
                         case Unconfirmed => Protocol.PublishRaised(Some(m))
    ensures var steps := Compensation(j, report, marked, detail);
            && Protocol.IsRun(cfg, s, steps)
            && var s' := Protocol.Final(cfg, s, steps);
               && s'.broker == s.broker && s'.workers == s.workers
               && s'.db == (if report == Confirmed || !marked then s.db
                            else Protocol.SetRow(s.db, j, Protocol.PublishFailureRow(s.db.jobs[j], detail, s.now)))
               && s'.api == s.api[j := Ended(report, marked, m)]
  {
    var steps := Compensation(j, report, marked, detail);
    if report != Confirmed {
      assert Protocol.IsRun(cfg, Protocol.Apply(cfg, s, steps[0]), []);
      FirstStep(cfg, s, steps[0], []);
      assert steps == [steps[0]] + [];
    }
  }

  lemma FirstStep(cfg: Protocol.Config, s: Protocol.State, step: Protocol.Step, rest: seq<Protocol.Step>)
    requires Protocol.Enabled(cfg, s, step) && Protocol.IsRun(cfg, Protocol.Apply(cfg, s, step), rest)
    ensures Protocol.IsRun(cfg, s, [step] + rest)
    ensures Protocol.Final(cfg, s, [step] + rest) == Protocol.Final(cfg, Protocol.Apply(cfg, s, step), rest)
  {
    assert ([step] + rest)[1..] == rest;
  }
}
