/**
 The outgoing command protocol: commands are registered, claimed under a lease, marked as
 dispatched, sent to a provider outside any transaction, finalized with evidence, and
 recovered when a lease expires. Every transaction is one total function on the tables;
 a transaction that throws is rolled back, which leaves the tables as they were.
 */
module CommandProtocol {
  import opened Common
  import opened EvidenceTables

  datatype CommandStatus = Waiting | Dispatching | Closed(outcome: Outcome)

  datatype Command = Command(
    provider: string,
    operationType: string,
    digest: string,
    status: CommandStatus,
    lease: Option<Token>,
    generation: nat,
    lockedUntil: Option<Instant>,
    createdAt: Instant)

  datatype AttemptStatus = Created | Dispatched | ResponseReceived | ConnectionLost | LocalFailure

  /** Attempts are grouped by command and ordered by attempt_no, which starts at 1. */
  datatype Db = Db(commands: map<string, Command>, attempts: map<string, seq<AttemptStatus>>, tables: Tables)

  datatype Claim = Claim(operationKey: string, attemptNo: nat, lease: Token, generation: nat)

  datatype TxError = InvalidInput | KeyConflict | OwnershipLost | StateInvalid | DuplicateId | NothingToClaim

  type DispatchOutcome = o: Outcome | o != FailedLocal witness Ambiguous

  datatype FinalInput = FinalInput(
    outcome: DispatchOutcome,
    responseReceived: bool,
    raw: Option<string>,
    normalized: Normalized,
    evidenceType: Option<string>,
    handlerKeys: seq<string>)

  function Attempts(db: Db, key: string): seq<AttemptStatus> {
    if key in db.attempts then db.attempts[key] else []
  }

  function Release(c: Command, status: CommandStatus): Command {
    c.(status := status, lease := None, lockedUntil := None)
  }

  // ---- transactions ----

  function Register(db: Db, key: string, provider: string, operationType: string, digest: string, now: Instant)
    : Result<Db, TxError>
  {
    if key == "" || provider == "" || operationType == "" then Err(InvalidInput)
    else if key !in db.commands then
      Ok(db.(commands := db.commands[key := Command(provider, operationType, digest, Waiting, None, 0, None, now)]))
    else if db.commands[key].provider != provider
         || db.commands[key].operationType != operationType
         || db.commands[key].digest != digest then Err(KeyConflict)
    else Ok(db)
  }

  function ClaimOf(db: Db, key: string, token: Token): Claim
    requires key in db.commands
  {
    Claim(key, |Attempts(db, key)| + 1, token, db.commands[key].generation + 1)
  }

  function ClaimCommand(db: Db, key: string, token: Token, until: Instant): Result<Db, TxError> {
    if key !in db.commands || db.commands[key].status != Waiting then Err(NothingToClaim)
    else
      var c := db.commands[key];
      Ok(db.(commands := db.commands[key := c.(status := Dispatching, lease := Some(token),
                                              generation := c.generation + 1, lockedUntil := Some(until))],
             attempts := db.attempts[key := Attempts(db, key) + [Created]]))
  }

  predicate Owns(db: Db, claim: Claim) {
    && claim.operationKey in db.commands
    && var c := db.commands[claim.operationKey];
    && c.status == Dispatching
    && c.lease == Some(claim.lease)
    && c.generation == claim.generation
  }

  predicate HasAttempt(db: Db, claim: Claim) {
    1 <= claim.attemptNo <= |Attempts(db, claim.operationKey)|
  }

  function AttemptStatusOf(db: Db, claim: Claim): AttemptStatus
    requires HasAttempt(db, claim)
  {
    Attempts(db, claim.operationKey)[claim.attemptNo - 1]
  }

  function SetAttempt(db: Db, key: string, attemptNo: nat, status: AttemptStatus): Db
    requires 1 <= attemptNo <= |Attempts(db, key)|
  {
    db.(attempts := db.attempts[key := Attempts(db, key)[attemptNo - 1 := status]])
  }

  function MarkDispatched(db: Db, claim: Claim): Result<Db, TxError> {
    if !Owns(db, claim) || !HasAttempt(db, claim) then Err(OwnershipLost)
    else if AttemptStatusOf(db, claim) != Created then Err(StateInvalid)
    else Ok(SetAttempt(db, claim.operationKey, claim.attemptNo, Dispatched))
  }

  /** Moves the attempt and the command to their last state and records the evidence. */
  function Close(db: Db, key: string, attemptNo: nat, attemptStatus: AttemptStatus, id: Id, row: Evidence, handlers: seq<string>): Db
    requires key in db.commands && 1 <= attemptNo <= |Attempts(db, key)|
  {
    SetAttempt(db, key, attemptNo, attemptStatus).(
      commands := db.commands[key := Release(db.commands[key], Closed(row.outcome))],
      tables := WithEvidence(db.tables, id, row, handlers))
  }

  function FinalEvidence(claim: Claim, input: FinalInput, now: Instant): Evidence {
    Evidence(
      Some(AttemptRef(claim.operationKey, claim.attemptNo)),
      if input.evidenceType.Some? then input.evidenceType.value
      else if input.responseReceived then "COMMAND_RESPONSE"
      else "COMMAND_TRANSPORT_UNCERTAIN",
      input.outcome, input.raw, input.normalized, now)
  }

  predicate FinalInputAllowed(input: FinalInput) {
    && (input.outcome != Succeeded ==> HandlerKeys(input.handlerKeys) == [])
    && (input.outcome == Succeeded || input.outcome == NotApplied ==> input.responseReceived)
  }

  function Finalize(db: Db, claim: Claim, input: FinalInput, id: Id, now: Instant): Result<Db, TxError> {
    if !FinalInputAllowed(input) then Err(StateInvalid)
    else if !Owns(db, claim) || !HasAttempt(db, claim) then Err(OwnershipLost)
    else if AttemptStatusOf(db, claim) != Dispatched then Err(StateInvalid)
    else if id in db.tables.evidences then Err(DuplicateId)
    else Ok(Close(db, claim.operationKey, claim.attemptNo,
                  if input.responseReceived then ResponseReceived else ConnectionLost,
                  id, FinalEvidence(claim, input, now), HandlerKeys(input.handlerKeys)))
  }

  function LocalFailureEvidence(claim: Claim, now: Instant): Evidence {
    Evidence(Some(AttemptRef(claim.operationKey, claim.attemptNo)), "COMMAND_LOCAL_FAILURE", FailedLocal, None, NullResult, now)
  }

  function FailBeforeDispatch(db: Db, claim: Claim, id: Id, now: Instant): Result<Db, TxError> {
    if !Owns(db, claim) || !HasAttempt(db, claim) then Err(OwnershipLost)
    else if AttemptStatusOf(db, claim) != Created then Err(StateInvalid)
    else if id in db.tables.evidences then Err(DuplicateId)
    else Ok(Close(db, claim.operationKey, claim.attemptNo, LocalFailure, id, LocalFailureEvidence(claim, now), []))
  }

  predicate Expired(db: Db, key: string, now: Instant) {
    && key in db.commands
    && db.commands[key].status == Dispatching
    && db.commands[key].lockedUntil.Some?
    && db.commands[key].lockedUntil.value <= now
  }

  /** The recovery branch that puts a command back instead of closing it. */
  predicate Requeues(db: Db, key: string) {
    var a := Attempts(db, key);
    a == [] || a[|a| - 1] == Created || a[|a| - 1] == LocalFailure
  }

  function Requeue(db: Db, key: string): Db
    requires key in db.commands
  {
    var a := Attempts(db, key);
    var failed := if a != [] && a[|a| - 1] == Created then SetAttempt(db, key, |a|, LocalFailure) else db;
    failed.(commands := db.commands[key := Release(db.commands[key], Waiting)])
  }

  function ExpiryEvidence(key: string, attemptNo: nat, now: Instant): Evidence {
    Evidence(Some(AttemptRef(key, attemptNo)), "COMMAND_TRANSPORT_UNCERTAIN", Ambiguous, None,
             OtherDocument("CLAIM_EXPIRED_AFTER_DISPATCH"), now)
  }

  /** One turn of the recovery loop. */
  function RecoverOne(db: Db, key: string, id: Id, now: Instant): Result<Db, TxError> {
    if !Expired(db, key, now) then Err(NothingToClaim)
    else if Requeues(db, key) then Ok(Requeue(db, key))
    else if id in db.tables.evidences then Err(DuplicateId)
    else Ok(Close(db, key, |Attempts(db, key)|, ConnectionLost, id, ExpiryEvidence(key, |Attempts(db, key)|, now), []))
  }

  // ---- workers and the outside world ----

  /** Where one execution of a claimed command stands. A crashed worker simply never moves again. */
  datatype Worker = Preparing(claim: Claim) | Marked(claim: Claim) | Answered(claim: Claim) | Stopped

  /** `calls` is the history of requests that reached the provider. */
  datatype World = World(db: Db, issued: set<Claim>, workers: map<Id, Worker>, calls: seq<Claim>)

  datatype Action =
    | DoRegister(key: string, provider: string, operationType: string, digest: string, now: Instant)
    | DoClaim(key: string, token: Token, until: Instant)
    | Start(worker: Id, claim: Claim)
    | PrepareFails(worker: Id, id: Id, now: Instant)
    | MarkByWorker(worker: Id)
    | CallProvider(worker: Id)
    | FinalizeByWorker(worker: Id, input: FinalInput, id: Id, now: Instant)
    | MarkDirectly(claim: Claim)
    | FinalizeDirectly(claim: Claim, input: FinalInput, id: Id, now: Instant)
    | FailDirectly(claim: Claim, id: Id, now: Instant)
    | Recover(key: string, id: Id, now: Instant)

  const EmptyDb := Db(map[], map[], Tables(map[], map[]))
  const EmptyWorld := World(EmptyDb, {}, map[], [])

  function Commit(w: World, tx: Result<Db, TxError>): World {
    if tx.Ok? then w.(db := tx.value) else w
  }

  /** One atomic step; an action that does not apply changes nothing. */
  function Step(w: World, a: Action): World {
    match a
    case DoRegister(key, provider, operationType, digest, now) =>
      Commit(w, Register(w.db, key, provider, operationType, digest, now))
    case DoClaim(key, token, until) =>
      var tx := ClaimCommand(w.db, key, token, until);
      if tx.Err? then w else w.(db := tx.value, issued := w.issued + {ClaimOf(w.db, key, token)})
    case Start(worker, claim) =>
      if claim !in w.issued || worker in w.workers then w
      else w.(workers := w.workers[worker := Preparing(claim)])
    case PrepareFails(worker, id, now) =>
      if worker !in w.workers || !w.workers[worker].Preparing? then w
      else Commit(w, FailBeforeDispatch(w.db, w.workers[worker].claim, id, now)).(workers := w.workers[worker := Stopped])
    case MarkByWorker(worker) =>
      if worker !in w.workers || !w.workers[worker].Preparing? then w
      else
        var claim := w.workers[worker].claim;
        var tx := MarkDispatched(w.db, claim);
        Commit(w, tx).(workers := w.workers[worker := if tx.Ok? then Marked(claim) else Stopped])
    case CallProvider(worker) =>
      if worker !in w.workers || !w.workers[worker].Marked? then w
      else w.(workers := w.workers[worker := Answered(w.workers[worker].claim)], calls := w.calls + [w.workers[worker].claim])
    case FinalizeByWorker(worker, input, id, now) =>
      if worker !in w.workers || !w.workers[worker].Answered? then w
      else Commit(w, Finalize(w.db, w.workers[worker].claim, input, id, now)).(workers := w.workers[worker := Stopped])
    case MarkDirectly(claim) =>
      if claim !in w.issued then w else Commit(w, MarkDispatched(w.db, claim))
    case FinalizeDirectly(claim, input, id, now) =>
      if claim !in w.issued then w else Commit(w, Finalize(w.db, claim, input, id, now))
    case FailDirectly(claim, id, now) =>
      if claim !in w.issued then w else Commit(w, FailBeforeDispatch(w.db, claim, id, now))
    case Recover(key, id, now) =>
      Commit(w, RecoverOne(w.db, key, id, now))
  }

  function Run(w: World, actions: seq<Action>): World
    decreases |actions|
  {
    if actions == [] then w else Run(Step(w, actions[0]), actions[1..])
  }
}
