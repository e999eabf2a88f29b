/**
 The two tables every integration flow writes together: the evidence of what a provider
 said, and the projection jobs that apply it. A row is identified by its declared unique
 key, so a job is named by its evidence and its handler.
 */
module EvidenceTables {
  import opened Common

  datatype Outcome = Succeeded | NotApplied | Ambiguous | FailedLocal

  /** What the normalized_result column can hold, as far as the scrub looks at it. */
  datatype Normalized =
    | NullResult
    | OrderPage(orders: seq<string>, nextToken: string)
    | ValidationFailure(code: string)
    | PageSummary(rowCount: nat, hasNextPage: bool)
    | FailureSummary(validationCode: string)
    | OtherDocument(body: string)

  /** The command attempt an evidence row points at; inbox evidence has none. */
  datatype AttemptRef = AttemptRef(operationKey: string, attemptNo: nat)

  datatype Evidence = Evidence(
    source: Option<AttemptRef>,
    evidenceType: string,
    outcome: Outcome,
    raw: Option<string>,
    normalized: Normalized,
    createdAt: Instant)

  datatype JobKey = JobKey(evidenceId: Id, handlerKey: string)

  datatype JobStatus = Pending | Processing | Done | Failed

  datatype Job = Job(
    status: JobStatus,
    lease: Option<Token>,
    generation: nat,
    lockedUntil: Option<Instant>,
    attemptCount: nat,
    createdAt: Instant)

  datatype Tables = Tables(evidences: map<Id, Evidence>, jobs: map<JobKey, Job>)

  function NewJob(now: Instant): Job {
    Job(Pending, None, 0, None, 0, now)
  }

  /** `[...new Set(values.filter(Boolean))]`: handler keys without blanks and repeats, first occurrence kept. */
  function HandlerKeys(values: seq<string>): (r: seq<string>)
    ensures forall h :: h in r <==> h in values && h != ""
    ensures forall i, j :: 0 <= i < j < |r| ==> r[i] != r[j]
  {
    if values == [] then []
    else
      var rest := HandlerKeys(values[..|values| - 1]);
      var last := values[|values| - 1];
      if last == "" || last in rest then rest else rest + [last]
  }

  /** One waiting job for each handler of a piece of evidence. */
  function JobsFor(id: Id, handlers: seq<string>, now: Instant): map<JobKey, Job> {
    map h | h in handlers :: JobKey(id, h) := NewJob(now)
  }

  lemma JobsForOneMore(jobs: map<JobKey, Job>, id: Id, handlers: seq<string>, i: nat, now: Instant)
    requires i < |handlers|
    ensures jobs + JobsFor(id, handlers[..i + 1], now) == (jobs + JobsFor(id, handlers[..i], now))[JobKey(id, handlers[i]) := NewJob(now)]
  {
    var shorter, longer := handlers[..i], handlers[..i + 1];
    assert forall h :: h in longer <==> h in shorter || h == handlers[i];
  }

  /** One projection job per handler key, created in turn. */
  method CreateJobs(jobs: map<JobKey, Job>, id: Id, handlers: seq<string>, now: Instant) returns (r: map<JobKey, Job>)
    ensures r == jobs + JobsFor(id, handlers, now)
  {
    r := jobs;
    var i := 0;
    while i < |handlers|
      invariant 0 <= i <= |handlers|
      invariant r == jobs + JobsFor(id, handlers[..i], now)
    {
      JobsForOneMore(jobs, id, handlers, i, now);
      r := r[JobKey(id, handlers[i]) := NewJob(now)];
      i := i + 1;
    }
    assert handlers[..i] == handlers;
  }

  /** The rows one recording transaction adds. */
  function WithEvidence(t: Tables, id: Id, row: Evidence, handlers: seq<string>): Tables {
    Tables(t.evidences[id := row],
           t.jobs + JobsFor(id, handlers, row.createdAt))
  }

  lemma NoHandlersNoJobs(t: Tables, id: Id, row: Evidence)
    ensures WithEvidence(t, id, row, []) == Tables(t.evidences[id := row], t.jobs)
  {
    var none: seq<string> := [];
    assert JobsFor(id, none, row.createdAt) == map[];
    assert t.jobs + map[] == t.jobs;
  }
}
