/**
 Applying evidence: projection jobs are claimed under a generation-fenced lease, run in one
 transaction with a domain operation key, and retried after failures and expired leases.
 The same tables are scrubbed of order-sheet payloads once nothing is left to project.
 */
module ProjectionProtocol {
  import opened Common
  import opened EvidenceTables

  const COUPANG_ORDERSHEET := "COUPANG_ORDERSHEET_PAGE"

  /** `keys` is the INTEGRATION_PROJECTION scope of domain_operation_keys, with the job that reserved each key. */
  datatype Db = Db(tables: Tables, keys: map<JobKey, JobKey>)

  datatype Claim = Claim(job: JobKey, lease: Token, generation: nat)

  datatype TxError = NothingToClaim | OwnershipLost | KeyConflict | HandlerFailed | DuplicateId | NotEligible

  // ---- transactions ----

  /** The one way evidence comes into being: a finalized command or a received inbox payload. */
  function Record(db: Db, id: Id, row: Evidence, handlers: seq<string>): Result<Db, TxError> {
    if id in db.tables.evidences then Err(DuplicateId)
    else Ok(db.(tables := WithEvidence(db.tables, id, row, if row.outcome == Succeeded then handlers else [])))
  }

  predicate Claimable(db: Db, key: JobKey, now: Instant) {
    && key in db.tables.jobs
    && var j := db.tables.jobs[key];
    (j.status == Pending || j.status == Failed
     || (j.status == Processing && j.lockedUntil.Some? && j.lockedUntil.value <= now))
  }

  function ClaimedJob(j: Job, token: Token, until: Instant): Job {
    j.(status := Processing, attemptCount := j.attemptCount + 1, lease := Some(token),
       generation := j.generation + 1, lockedUntil := Some(until))
  }

  function SetJob(db: Db, key: JobKey, j: Job): Db {
    db.(tables := db.tables.(jobs := db.tables.jobs[key := j]))
  }

  function ClaimJob(db: Db, key: JobKey, token: Token, until: Instant, now: Instant): Result<Db, TxError> {
    if !Claimable(db, key, now) then Err(NothingToClaim)
    else Ok(SetJob(db, key, ClaimedJob(db.tables.jobs[key], token, until)))
  }

  predicate Owns(db: Db, claim: Claim) {
    && claim.job in db.tables.jobs
    && var j := db.tables.jobs[claim.job];
    && j.status == Processing && j.lease == Some(claim.lease) && j.generation == claim.generation
  }

  function Released(j: Job, status: JobStatus): Job {
    j.(status := status, lease := None, lockedUntil := None)
  }

  /** True when applying would run the handler, false when the operation key is already there. */
  predicate RunsHandler(db: Db, claim: Claim) {
    Owns(db, claim) && claim.job.evidenceId in db.tables.evidences && claim.job !in db.keys
  }

  /** The apply transaction: reserve the key, run the handler if the key is new, mark the job done. */
  function Apply(db: Db, claim: Claim, handlerSucceeds: bool): Result<Db, TxError> {
    if !Owns(db, claim) || claim.job.evidenceId !in db.tables.evidences then Err(OwnershipLost)
    else if claim.job in db.keys && db.keys[claim.job] != claim.job then Err(KeyConflict)
    else if claim.job !in db.keys && !handlerSucceeds then Err(HandlerFailed)
    else Ok(SetJob(db, claim.job, Released(db.tables.jobs[claim.job], Done)).(keys := db.keys[claim.job := claim.job]))
  }

  function MarkFailure(db: Db, claim: Claim): Result<Db, TxError> {
    if !Owns(db, claim) then Err(OwnershipLost)
    else Ok(SetJob(db, claim.job, Released(db.tables.jobs[claim.job], Failed)))
  }

  // ---- scrubbing ----

  predicate IsCurrentSummary(n: Normalized) {
    n.PageSummary? || n.FailureSummary?
  }

  function Minimized(outcome: Outcome, n: Normalized): Normalized {
    if outcome != Succeeded then
      FailureSummary(if n.ValidationFailure? then n.code[..Min(|n.code|, 128)]
                     else if n.FailureSummary? then n.validationCode[..Min(|n.validationCode|, 128)]
                     else "VALIDATION_FAILED")
    else if n.OrderPage? then PageSummary(|n.orders|, n.nextToken != "")
    else PageSummary(0, false)
  }

  predicate AllJobsDone(t: Tables, id: Id) {
    forall j :: j in t.jobs && j.evidenceId == id ==> t.jobs[j].status == Done
  }

  predicate Eligible(t: Tables, id: Id) {
    && id in t.evidences
    && var e := t.evidences[id];
    && e.evidenceType == COUPANG_ORDERSHEET
    && (e.raw.Some? || !IsCurrentSummary(e.normalized))
    && AllJobsDone(t, id)
  }

  function Scrubbed(e: Evidence): Evidence {
    e.(raw := None, normalized := Minimized(e.outcome, e.normalized))
  }

  /** One candidate of a scrub pass; a candidate that is no longer eligible is skipped. */
  function ScrubOne(t: Tables, id: Id): Tables {
    if Eligible(t, id) then t.(evidences := t.evidences[id := Scrubbed(t.evidences[id])]) else t
  }

  // ---- runs ----

  /** What a handler saw when its effect committed. */
  datatype Effect = Effect(job: JobKey, seen: Evidence)

  /** `original` remembers each evidence row as it was recorded. */
  datatype World = World(db: Db, issued: set<Claim>, effects: seq<Effect>, original: map<Id, Evidence>)

  datatype Action =
    | DoRecord(id: Id, row: Evidence, handlers: seq<string>)
    | DoClaim(job: JobKey, token: Token, until: Instant, now: Instant)
    | DoApply(claim: Claim, handlerSucceeds: bool)
    | DoMarkFailure(claim: Claim)
    | DoScrub(id: Id)

  const EmptyWorld := World(Db(Tables(map[], map[]), map[]), {}, [], map[])

  function Step(w: World, a: Action): World {
    match a
    case DoRecord(id, row, handlers) =>
      var tx := Record(w.db, id, row, handlers);
      if tx.Err? then w else w.(db := tx.value, original := w.original[id := row])
    case DoClaim(job, token, until, now) =>
      var tx := ClaimJob(w.db, job, token, until, now);
      if tx.Err? then w
      else w.(db := tx.value, issued := w.issued + {Claim(job, token, tx.value.tables.jobs[job].generation)})
    case DoApply(claim, ok) =>
      var tx := Apply(w.db, claim, ok);
      if claim !in w.issued || tx.Err? then w
      else w.(db := tx.value,
              effects := if RunsHandler(w.db, claim)
                         then w.effects + [Effect(claim.job, w.db.tables.evidences[claim.job.evidenceId])]
                         else w.effects)
    case DoMarkFailure(claim) =>
      var tx := MarkFailure(w.db, claim);
      if claim !in w.issued || tx.Err? then w else w.(db := tx.value)
    case DoScrub(id) => w.(db := w.db.(tables := ScrubOne(w.db.tables, id)))
  }

  function Run(w: World, actions: seq<Action>): World
    decreases |actions|
  {
    if actions == [] then w else Run(Step(w, actions[0]), actions[1..])
  }
}
