/**
 What the command transactions answer and how far they get: a key stands for one request, only the
 holder of the newest claim acts, a lease protects its holder until it ends, and no command is stuck.
 */
module CommandAnswers {
  import opened Common
  import opened EvidenceTables
  import opened CommandProtocol
  import opened CommandInvariant
  import opened CommandResults
  import E = CommandExecution

  lemma {:induction false} RunConcat(w: World, a: seq<Action>, b: seq<Action>)
    ensures Run(w, a + b) == Run(Run(w, a), b)
    decreases |a|
  {
    if a == [] {
      assert a + b == b;
    } else {
      assert (a + b)[1..] == a[1..] + b;
      RunConcat(Step(w, a[0]), a[1..], b);
    }
  }

  // ---- registration ----

  datatype Request = Request(provider: string, operationType: string, digest: string)

  predicate Names(a: Action, key: string) {
    a.DoRegister? && a.key == key != "" && a.provider != "" && a.operationType != ""
  }

  /** The request that first came under this key. */
  function FirstRequest(actions: seq<Action>, key: string): Option<Request> {
    if actions == [] then None
    else if Names(actions[0], key) then Some(Request(actions[0].provider, actions[0].operationType, actions[0].digest))
    else FirstRequest(actions[1..], key)
  }

  function RequestOf(db: Db, key: string): Option<Request> {
    if key in db.commands then Some(Request(db.commands[key].provider, db.commands[key].operationType, db.commands[key].digest)) else None
  }

  lemma StepRegisters(w: World, a: Action, key: string)
    requires key !in w.db.commands
    ensures RequestOf(Step(w, a).db, key) == FirstRequest([a], key)
  {
    assert [a][1..] == [];
    if a.DoRegister? {
    } else {
      hide Release, WithEvidence, FinalEvidence, HandlerKeys, FinalInputAllowed;
      assert key !in Step(w, a).db.commands;
    }
  }

  lemma {:induction false} RequestStays(w: World, actions: seq<Action>, key: string)
    requires WorldOk(w)
    ensures RequestOf(Run(w, actions).db, key) == if key in w.db.commands then RequestOf(w.db, key) else FirstRequest(actions, key)
    decreases |actions|
  {
    if key in w.db.commands {
      RunKeeps(w, actions);
      assert KeyEvolves(w.db, Run(w, actions).db, key);
    } else if actions != [] {
      StepKeeps(w, actions[0]);
      StepRegisters(w, actions[0], key);
      assert [actions[0]][1..] == [];
      hide Step, WorldOk;
      RequestStays(Step(w, actions[0]), actions[1..], key);
    }
  }

  /**
   Over every run a registration with its fields filled in is accepted if and only if its key is new or
   it is the very request that first came under the key; any other is a conflict.
   */
  lemma {:induction false} RegistrationAcceptedIff(actions: seq<Action>, key: string, request: Request, now: Instant)
    ensures var tx := Register(Run(EmptyWorld, actions).db, key, request.provider, request.operationType, request.digest, now);
            if key == "" || request.provider == "" || request.operationType == "" then tx == Err(InvalidInput)
            else match FirstRequest(actions, key)
              case None => tx.Ok? && RequestOf(tx.value, key) == Some(request) && tx.value.commands[key].status == Waiting && tx.value.commands[key].createdAt == now
              case Some(first) => if request == first then tx == Ok(Run(EmptyWorld, actions).db) else tx == Err(KeyConflict)
  {
    RequestStays(EmptyWorld, actions, key);
  }

  /** The registration at index i of the list was accepted when its turn came. */
  predicate AcceptedAt(actions: seq<Action>, i: nat) {
    && i < |actions| && actions[i].DoRegister?
    && Register(Run(EmptyWorld, actions[..i]).db, actions[i].key, actions[i].provider, actions[i].operationType, actions[i].digest, actions[i].now).Ok?
  }

  lemma {:induction false} FirstRequestOfPrefix(actions: seq<Action>, i: nat, key: string)
    requires i <= |actions| && FirstRequest(actions[..i], key).Some?
    ensures FirstRequest(actions, key) == FirstRequest(actions[..i], key)
  {
    if !Names(actions[0], key) {
      assert actions[..i][1..] == actions[1..][..i - 1];
      FirstRequestOfPrefix(actions[1..], i - 1, key);
    }
  }

  lemma {:induction false} AcceptedIsFirst(actions: seq<Action>, i: nat)
    requires AcceptedAt(actions, i)
    ensures FirstRequest(actions, actions[i].key) == Some(Request(actions[i].provider, actions[i].operationType, actions[i].digest))
  {
    var key, request := actions[i].key, Request(actions[i].provider, actions[i].operationType, actions[i].digest);
    RegistrationAcceptedIff(actions[..i], key, request, actions[i].now);
    FirstOfStep(actions[..i], actions[i], key);
    assert actions[..i + 1] == actions[..i] + [actions[i]];
    FirstRequestOfPrefix(actions, i + 1, key);
  }

  lemma {:induction false} FirstOfStep(actions: seq<Action>, a: Action, key: string)
    ensures FirstRequest(actions + [a], key) == if FirstRequest(actions, key).Some? then FirstRequest(actions, key) else FirstRequest([a], key)
  {
    if actions == [] {
      assert actions + [a] == [a];
    } else {
      assert (actions + [a])[1..] == actions[1..] + [a];
      FirstOfStep(actions[1..], a, key);
    }
  }

  /** Any two accepted registrations of one key ask for the same. */
  lemma AcceptedAgree(actions: seq<Action>, i: nat, j: nat)
    requires AcceptedAt(actions, i) && AcceptedAt(actions, j) && actions[i].key == actions[j].key
    ensures actions[i].provider == actions[j].provider && actions[i].operationType == actions[j].operationType && actions[i].digest == actions[j].digest
  {
    AcceptedIsFirst(actions, i);
    AcceptedIsFirst(actions, j);
  }

  // ---- where a command stands, and the moves from there ----

  /** Waiting; claimed; claimed and gone out; closed. */
  datatype Stage = Absent | Queued | Held | Gone | Over(outcome: Outcome)

  function StageOf(db: Db, key: string): Stage {
    if key !in db.commands then Absent
    else match db.commands[key].status
      case Waiting => Queued
      case Dispatching => if Attempts(db, key) != [] && Attempts(db, key)[|Attempts(db, key)| - 1] == Dispatched then Gone else Held
      case Closed(o) => Over(o)
  }

  /** FAILED_LOCAL is reached only before the request went out, every other outcome only after it. */
  predicate Move(x: Stage, y: Stage) {
    || x == y
    || (x == Absent && y == Queued) || (x == Queued && y == Held)
    || (x == Held && (y == Queued || y == Gone || y == Over(FailedLocal)))
    || (x == Gone && y.Over? && y.outcome != FailedLocal)
  }

  lemma RegisterMoves(db: Db, key: string, provider: string, operationType: string, digest: string, now: Instant, k: string)
    requires DbOk(db)
    ensures var tx := Register(db, key, provider, operationType, digest, now); tx.Ok? ==> Move(StageOf(db, k), StageOf(tx.value, k))
  {
  }

  lemma ClaimMoves(db: Db, key: string, token: Token, until: Instant, k: string)
    requires DbOk(db)
    ensures var tx := ClaimCommand(db, key, token, until); tx.Ok? ==> Move(StageOf(db, k), StageOf(tx.value, k))
  {
  }

  lemma MarkMoves(db: Db, claim: Claim, k: string)
    requires DbOk(db) && ClaimOk(db, claim)
    ensures var tx := MarkDispatched(db, claim); tx.Ok? ==> Move(StageOf(db, k), StageOf(tx.value, k))
  {
    if MarkDispatched(db, claim).Ok? {
      OwnedIsNewest(db, claim);
    }
  }

  lemma CloseMoves(db: Db, key: string, attemptNo: nat, status: AttemptStatus, id: Id, row: Evidence, handlers: seq<string>, k: string)
    requires key in db.commands && 1 <= attemptNo <= |Attempts(db, key)|
    ensures StageOf(Close(db, key, attemptNo, status, id, row, handlers), k) == if k == key then Over(row.outcome) else StageOf(db, k)
  {
    hide WithEvidence;
  }

  lemma FinalizeMoves(db: Db, claim: Claim, input: FinalInput, id: Id, now: Instant, k: string)
    requires DbOk(db) && ClaimOk(db, claim)
    ensures var tx := Finalize(db, claim, input, id, now); tx.Ok? ==> Move(StageOf(db, k), StageOf(tx.value, k))
  {
    if Finalize(db, claim, input, id, now).Ok? {
      OwnedIsNewest(db, claim);
      CloseMoves(db, claim.operationKey, claim.attemptNo, if input.responseReceived then ResponseReceived else ConnectionLost,
                 id, FinalEvidence(claim, input, now), HandlerKeys(input.handlerKeys), k);
      hide Close, DbOk, HandlerKeys, FinalInputAllowed;
    }
  }

  lemma FailMoves(db: Db, claim: Claim, id: Id, now: Instant, k: string)
    requires DbOk(db) && ClaimOk(db, claim)
    ensures var tx := FailBeforeDispatch(db, claim, id, now); tx.Ok? ==> Move(StageOf(db, k), StageOf(tx.value, k))
  {
    if FailBeforeDispatch(db, claim, id, now).Ok? {
      OwnedIsNewest(db, claim);
      CloseMoves(db, claim.operationKey, claim.attemptNo, LocalFailure, id, LocalFailureEvidence(claim, now), [], k);
      hide Close, DbOk;
    }
  }

  lemma RecoverMoves(db: Db, key: string, id: Id, now: Instant, k: string)
    requires DbOk(db)
    ensures var tx := RecoverOne(db, key, id, now); tx.Ok? ==> Move(StageOf(db, k), StageOf(tx.value, k))
  {
    hide EvidenceOk, WithEvidence;
    if Expired(db, key, now) {
      RecoverySees(db, key, now);
    }
  }

  lemma StepMoves(w: World, a: Action, key: string)
    requires WorldOk(w)
    ensures Move(StageOf(w.db, key), StageOf(Step(w, a).db, key))
  {
    hide Register, ClaimCommand, MarkDispatched, Finalize, FailBeforeDispatch, RecoverOne, StageOf, DbOk, CallsOk;
    match a
    case DoRegister(k, provider, operationType, digest, now) => RegisterMoves(w.db, k, provider, operationType, digest, now, key);
    case DoClaim(k, token, until) => ClaimMoves(w.db, k, token, until, key);
    case PrepareFails(worker, id, now) =>
      if worker in w.workers && w.workers[worker].Preparing? { FailMoves(w.db, w.workers[worker].claim, id, now, key); }
    case MarkByWorker(worker) =>
      if worker in w.workers && w.workers[worker].Preparing? { MarkMoves(w.db, w.workers[worker].claim, key); }
    case FinalizeByWorker(worker, input, id, now) =>
      if worker in w.workers && w.workers[worker].Answered? { FinalizeMoves(w.db, w.workers[worker].claim, input, id, now, key); }
    case MarkDirectly(claim) => if claim in w.issued { MarkMoves(w.db, claim, key); }
    case FinalizeDirectly(claim, input, id, now) => if claim in w.issued { FinalizeMoves(w.db, claim, input, id, now, key); }
    case FailDirectly(claim, id, now) => if claim in w.issued { FailMoves(w.db, claim, id, now, key); }
    case Recover(k, id, now) => RecoverMoves(w.db, k, id, now, key);
    case _ =>
  }

  /** In every run a command only moves along these lines. */
  lemma {:induction false} StagesInOrder(actions: seq<Action>, a: Action, key: string)
    ensures Move(StageOf(Run(EmptyWorld, actions).db, key), StageOf(Step(Run(EmptyWorld, actions), a).db, key))
  {
    hide Run, Step, StageOf, Move, WorldOk;
    RunKeeps(EmptyWorld, actions);
    StepMoves(Run(EmptyWorld, actions), a, key);
  }

  /** A command that waits, is merely claimed or ended as FAILED_LOCAL was never sent to the provider. */
  lemma {:induction false} NotSentBefore(actions: seq<Action>, key: string)
    requires var s := StageOf(Run(EmptyWorld, actions).db, key); s.Absent? || s.Queued? || s.Held? || s == Over(FailedLocal)
    ensures CallsFor(Run(EmptyWorld, actions).calls, key) == 0
  {
    hide Run, EvidenceOk, CallsFor;
    AtMostOneCall(actions, key);
    RunKeeps(EmptyWorld, actions);
    var db := Run(EmptyWorld, actions).db;
    if key in db.commands {
      assert CommandOk(db.commands[key], Attempts(db, key));
    }
  }

  // ---- only issued claims act ----

  /** The claim a command is held under. */
  function Holder(db: Db, key: string): Option<Claim> {
    if key in db.commands && db.commands[key].status == Dispatching && db.commands[key].lease.Some?
    then Some(Claim(key, db.commands[key].generation, db.commands[key].lease.value, db.commands[key].generation))
    else None
  }

  ghost predicate HoldersIssued(w: World) {
    forall key :: Holder(w.db, key).Some? ==> Holder(w.db, key).value in w.issued
  }

  /** All transactions but a claim leave holders or release them. */
  ghost predicate HoldersStay(a: Db, b: Db) {
    forall key :: Holder(b, key).Some? ==> Holder(a, key) == Holder(b, key)
  }

  lemma RegisterHolders(db: Db, key: string, provider: string, operationType: string, digest: string, now: Instant)
    ensures var tx := Register(db, key, provider, operationType, digest, now); tx.Ok? ==> HoldersStay(db, tx.value)
  {
  }

  lemma MarkHolders(db: Db, claim: Claim)
    ensures var tx := MarkDispatched(db, claim); tx.Ok? ==> HoldersStay(db, tx.value)
  {
  }

  lemma CloseHolders(db: Db, claim: Claim, input: FinalInput, id: Id, now: Instant)
    ensures var tx := Finalize(db, claim, input, id, now); tx.Ok? ==> HoldersStay(db, tx.value)
    ensures var tx := FailBeforeDispatch(db, claim, id, now); tx.Ok? ==> HoldersStay(db, tx.value)
  {
  }

  lemma RecoverHolders(db: Db, key: string, id: Id, now: Instant)
    ensures var tx := RecoverOne(db, key, id, now); tx.Ok? ==> HoldersStay(db, tx.value)
  {
  }

  lemma ClaimHolders(w: World, key: string, token: Token, until: Instant)
    requires WorldOk(w) && HoldersIssued(w)
    ensures HoldersIssued(Step(w, DoClaim(key, token, until)))
  {
    if ClaimCommand(w.db, key, token, until).Ok? {
      assert CommandOk(w.db.commands[key], Attempts(w.db, key));
      var next := Step(w, DoClaim(key, token, until));
      forall k | Holder(next.db, k).Some?
        ensures Holder(next.db, k).value in next.issued
      {
        assert k != key ==> Holder(next.db, k) == Holder(w.db, k);
      }
    }
  }

  lemma StepHolders(w: World, a: Action)
    requires WorldOk(w) && HoldersIssued(w)
    ensures HoldersIssued(Step(w, a))
  {
    var input := FinalInput(Ambiguous, false, None, NullResult, None, []);
    hide Register, ClaimCommand, MarkDispatched, Finalize, FailBeforeDispatch, RecoverOne, Holder, WorldOk;
    match a
    case DoRegister(k, provider, operationType, digest, now) => RegisterHolders(w.db, k, provider, operationType, digest, now);
    case DoClaim(k, token, until) => ClaimHolders(w, k, token, until);
    case PrepareFails(worker, id, now) =>
      if worker in w.workers && w.workers[worker].Preparing? { CloseHolders(w.db, w.workers[worker].claim, input, id, now); }
    case MarkByWorker(worker) =>
      if worker in w.workers && w.workers[worker].Preparing? { MarkHolders(w.db, w.workers[worker].claim); }
    case FinalizeByWorker(worker, given, id, now) =>
      if worker in w.workers && w.workers[worker].Answered? { CloseHolders(w.db, w.workers[worker].claim, given, id, now); }
    case MarkDirectly(claim) => MarkHolders(w.db, claim);
    case FinalizeDirectly(claim, given, id, now) => CloseHolders(w.db, claim, given, id, now);
    case FailDirectly(claim, id, now) => CloseHolders(w.db, claim, input, id, now);
    case Recover(k, id, now) => RecoverHolders(w.db, k, id, now);
    case _ =>
  }

  lemma {:induction false} RunHolders(w: World, actions: seq<Action>)
    requires WorldOk(w) && HoldersIssued(w)
    ensures HoldersIssued(Run(w, actions))
    decreases |actions|
  {
    if actions != [] {
      StepKeeps(w, actions[0]);
      StepHolders(w, actions[0]);
      hide WorldOk, HoldersIssued, Step;
      RunHolders(Step(w, actions[0]), actions[1..]);
    }
  }

  /** A claim that was not issued, whatever it says of attempt, lease and generation, can do nothing. */
  lemma {:induction false} OnlyIssuedClaimsAct(actions: seq<Action>, claim: Claim, input: FinalInput, id: Id, now: Instant)
    requires claim !in Run(EmptyWorld, actions).issued
    ensures var db := Run(EmptyWorld, actions).db;
            MarkDispatched(db, claim).Err? && Finalize(db, claim, input, id, now).Err? && FailBeforeDispatch(db, claim, id, now).Err?
  {
    RunKeeps(EmptyWorld, actions);
    RunHolders(EmptyWorld, actions);
    var db := Run(EmptyWorld, actions).db;
    if Owns(db, claim) && HasAttempt(db, claim) {
      assert CommandOk(db.commands[claim.operationKey], Attempts(db, claim.operationKey));
      assert Holder(db, claim.operationKey).Some? && Holder(db, claim.operationKey).value != claim;
      assert claim.attemptNo != claim.generation && AttemptStatusOf(db, claim) == LocalFailure;
    }
  }

  // ---- a lease protects its holder until it ends ----

  /** The command has not been taken from this claim: it is still held under it, until then, or was closed under it. */
  predicate KeptFor(db: Db, key: string, token: Token, generation: nat, until: Instant) {
    && key in db.commands && db.commands[key].generation == generation && db.commands[key].status != Waiting
    && (db.commands[key].status == Dispatching ==> db.commands[key].lease == Some(token) && db.commands[key].lockedUntil == Some(until))
  }

  lemma StepKeptFor(w: World, a: Action, key: string, token: Token, generation: nat, until: Instant)
    requires KeptFor(w.db, key, token, generation, until)
    requires a.Recover? && a.key == key ==> a.now < until
    ensures KeptFor(Step(w, a).db, key, token, generation, until)
  {
    hide WithEvidence, FinalEvidence, LocalFailureEvidence, ExpiryEvidence, HandlerKeys, FinalInputAllowed;
  }

  lemma {:induction false} RunKeptFor(w: World, actions: seq<Action>, key: string, token: Token, generation: nat, until: Instant)
    requires KeptFor(w.db, key, token, generation, until)
    requires forall i :: 0 <= i < |actions| && actions[i].Recover? && actions[i].key == key ==> actions[i].now < until
    ensures KeptFor(Run(w, actions).db, key, token, generation, until)
    decreases |actions|
  {
    if actions != [] {
      StepKeptFor(w, actions[0], key, token, generation, until);
      hide Step, KeptFor;
      RunKeptFor(Step(w, actions[0]), actions[1..], key, token, generation, until);
    }
  }

  /**
   After a claim nobody else gets the command before the lease ends, whatever other workers and
   recoveries do until then: it stays held under this claim until it is closed.
   */
  lemma LeaseProtects(w: World, key: string, token: Token, until: Instant, more: seq<Action>)
    requires ClaimCommand(w.db, key, token, until).Ok?
    requires forall i :: 0 <= i < |more| && more[i].Recover? && more[i].key == key ==> more[i].now < until
    ensures var claim := ClaimOf(w.db, key, token); var later := Run(Step(w, DoClaim(key, token, until)), more).db;
            key in later.commands && (Owns(later, claim) || (later.commands[key].status.Closed? && later.commands[key].generation == claim.generation))
  {
    RunKeptFor(Step(w, DoClaim(key, token, until)), more, key, token, w.db.commands[key].generation + 1, until);
  }

  /** From here the command can go on: by a claim, or by recovery once its lease has ended. */
  predicate CanGoOn(db: Db, key: string, token: Token, until: Instant, id: Id, now: Instant) {
    match StageOf(db, key)
    case Queued => var tx := ClaimCommand(db, key, token, until); tx.Ok? && Owns(tx.value, ClaimOf(db, key, token))
    case Held => LeaseEnds(db, key, now, RecoverOne(db, key, id, now), Queued)
    case Gone => LeaseEnds(db, key, now, RecoverOne(db, key, id, now), Over(Ambiguous))
    case _ => false
  }

  predicate LeaseEnds(db: Db, key: string, now: Instant, recovered: Result<Db, TxError>, stage: Stage) {
    && key in db.commands && db.commands[key].lockedUntil.Some?
    && (now >= db.commands[key].lockedUntil.value ==> recovered.Ok? && StageOf(recovered.value, key) == stage)
  }

  lemma RecoveryGoesOn(db: Db, key: string, id: Id, now: Instant)
    requires DbOk(db) && Expired(db, key, now) && id !in db.tables.evidences
    ensures var tx := RecoverOne(db, key, id, now); tx.Ok? && StageOf(tx.value, key) == if StageOf(db, key) == Held then Queued else Over(Ambiguous)
  {
    RecoverySees(db, key, now);
    hide DbOk, WithEvidence;
  }

  /**
   No command is stuck: in every reachable state a command that is not closed can be claimed when it
   waits, and when it is held, recovery from the end of its lease on puts it back, or, once it had gone
   out, closes it as AMBIGUOUS.
   */
  lemma {:induction false} NoCommandIsStuck(actions: seq<Action>, key: string, token: Token, until: Instant, id: Id, now: Instant)
    requires var db := Run(EmptyWorld, actions).db; key in db.commands && !db.commands[key].status.Closed? && id !in db.tables.evidences
    ensures CanGoOn(Run(EmptyWorld, actions).db, key, token, until, id, now)
  {
    hide Run, EvidenceOk, RecoverOne;
    RunKeeps(EmptyWorld, actions);
    var db := Run(EmptyWorld, actions).db;
    assert CommandOk(db.commands[key], Attempts(db, key));
    if Expired(db, key, now) {
      RecoveryGoesOn(db, key, id, now);
    }
  }

  // ---- a whole execution ----

  /** What a row of evidence says. */
  predicate Tells(db: Db, id: Id, claim: Claim, evidenceType: string, outcome: Outcome, raw: Option<string>, normalized: Normalized, now: Instant) {
    && id in db.tables.evidences
    && db.tables.evidences[id] == Evidence(Some(AttemptRef(claim.operationKey, claim.attemptNo)), evidenceType, outcome, raw, normalized, now)
  }

  /** The jobs of this evidence are waiting jobs, one for each of the handlers that is not blank, and all other jobs are as before. */
  ghost predicate JobsAre(before: map<JobKey, Job>, after: map<JobKey, Job>, id: Id, handlers: seq<string>, now: Instant) {
    && (forall h :: JobKey(id, h) in after <==> JobKey(id, h) in before || (h in handlers && h != ""))
    && (forall h :: h in handlers && h != "" ==> after[JobKey(id, h)] == Job(Pending, None, 0, None, 0, now))
    && (forall j: JobKey :: j.evidenceId != id ==> (j in after <==> j in before) && (j in before ==> after[j] == before[j]))
  }

  /** What the finalization of an owner leaves. */
  lemma FinalizeRecords(db: Db, claim: Claim, input: FinalInput, id: Id, now: Instant)
    requires Finalize(db, claim, input, id, now).Ok?
    ensures var next := Finalize(db, claim, input, id, now).value;
            && StageOf(next, claim.operationKey) == Over(input.outcome)
            && Tells(next, id, claim,
                     match input.evidenceType case Some(t) => t case None => if input.responseReceived then "COMMAND_RESPONSE" else "COMMAND_TRANSPORT_UNCERTAIN",
                     input.outcome, input.raw, input.normalized, now)
            && JobsAre(db.tables.jobs, next.tables.jobs, id, input.handlerKeys, now)
            && AttemptStatusOf(next, claim) == (if input.responseReceived then ResponseReceived else ConnectionLost)
  {
    var next := Finalize(db, claim, input, id, now).value;
    var handlers := HandlerKeys(input.handlerKeys);
    assert next.tables.jobs == db.tables.jobs + JobsFor(id, handlers, now);
  }

  /** What came back from the provider, if anything did. */
  function ResponseOf(r: E.DispatchResult): Option<string> {
    match r
    case Answer(raw, _) => Some(raw)
    case Threw(verdict) => if verdict.Some? then verdict.value.response else None
  }

  /** SUCCEEDED needs a classified success, NOT_APPLIED a response that says so; all else is AMBIGUOUS. */
  function OutcomeOf(r: E.DispatchResult): Outcome {
    match r
    case Answer(_, classified) => if classified.Some? then classified.value.outcome else Ambiguous
    case Threw(verdict) => if verdict.Some? && verdict.value.outcome == NotApplied && ResponseOf(r).Some? then NotApplied else Ambiguous
  }

  function HandlersOf(r: E.DispatchResult): seq<string> {
    if r.Answer? && r.classified.Some? then r.classified.value.handlerKeys else []
  }

  function NormalizedOf(r: E.DispatchResult): Normalized {
    if r.Answer? && r.classified.Some? then r.classified.value.normalized else NullResult
  }

  lemma InputTells(r: E.DispatchResult)
    ensures var input := E.FinalInputOf(r);
            && input.outcome == OutcomeOf(r) && input.responseReceived == ResponseOf(r).Some? && input.raw == ResponseOf(r)
            && input.normalized == NormalizedOf(r) && input.evidenceType == None && input.handlerKeys == HandlersOf(r)
  {
  }

  function Execution(worker: Id, claim: Claim, token: Token, until: Instant, r: E.DispatchResult, id: Id, now: Instant): seq<Action> {
    [DoClaim(claim.operationKey, token, until), Start(worker, claim), MarkByWorker(worker), CallProvider(worker),
     FinalizeByWorker(worker, E.FinalInputOf(r), id, now)]
  }

  lemma RunFirst(w: World, a: Action, rest: seq<Action>)
    ensures Run(w, [a] + rest) == Run(Step(w, a), rest)
  {
    hide Step;
    assert ([a] + rest)[1..] == rest;
  }

  lemma FiveSteps(w: World, a: Action, b: Action, c: Action, d: Action, e: Action)
    ensures Run(w, [a, b, c, d, e]) == Step(Step(Step(Step(Step(w, a), b), c), d), e)
  {
    RunFirst(w, a, [b, c, d, e]);
    var one := Step(w, a);
    RunFirst(one, b, [c, d, e]);
    var two := Step(one, b);
    RunFirst(two, c, [d, e]);
    var three := Step(two, c);
    RunFirst(three, d, [e]);
    RunFirst(Step(three, d), e, []);
    hide Step;
    assert [a, b, c, d, e] == [a] + [b, c, d, e] && [b, c, d, e] == [b] + [c, d, e] && [c, d, e] == [c] + [d, e];
    assert [d, e] == [d] + [e] && [e] == [e] + [];
  }

  /** The claim is the newest one and its attempt stands so. */
  predicate Stands(db: Db, claim: Claim, status: AttemptStatus) {
    Owns(db, claim) && claim.attemptNo == |Attempts(db, claim.operationKey)| >= 1 && AttemptStatusOf(db, claim) == status
  }

  lemma ClaimStands(db: Db, key: string, token: Token, until: Instant)
    requires DbOk(db) && key in db.commands && db.commands[key].status == Waiting
    ensures var tx := ClaimCommand(db, key, token, until); tx.Ok? && Stands(tx.value, ClaimOf(db, key, token), Created) && tx.value.tables == db.tables
  {
    hide EvidenceOk;
    assert CommandOk(db.commands[key], Attempts(db, key));
  }

  lemma MarkStands(db: Db, claim: Claim)
    requires Stands(db, claim, Created)
    ensures var tx := MarkDispatched(db, claim); tx.Ok? && Stands(tx.value, claim, Dispatched) && tx.value.tables == db.tables
  {
  }

  /** A worker up to its call. */
  lemma CalledOnce(w: World, key: string, token: Token, until: Instant, worker: Id)
    requires DbOk(w.db) && key in w.db.commands && w.db.commands[key].status == Waiting && worker !in w.workers
    ensures var claim := ClaimOf(w.db, key, token);
            var v := Step(Step(Step(Step(w, DoClaim(key, token, until)), Start(worker, claim)), MarkByWorker(worker)), CallProvider(worker));
            && v.calls == w.calls + [claim] && worker in v.workers && v.workers[worker] == Answered(claim) && v.db.tables == w.db.tables
            && Stands(v.db, claim, Dispatched)
  {
    var claim := ClaimOf(w.db, key, token);
    ClaimStands(w.db, key, token, until);
    hide DbOk, ClaimOf, ClaimCommand, MarkDispatched, Stands;
    MarkStands(ClaimCommand(w.db, key, token, until).value, claim);
  }

  /** The command ended as the provider's answer says, and evidence and jobs say the same. */
  ghost predicate Reported(before: map<JobKey, Job>, after: Db, claim: Claim, r: E.DispatchResult, id: Id, now: Instant) {
    && StageOf(after, claim.operationKey) == Over(OutcomeOf(r))
    && Tells(after, id, claim, if ResponseOf(r).Some? then "COMMAND_RESPONSE" else "COMMAND_TRANSPORT_UNCERTAIN",
             OutcomeOf(r), ResponseOf(r), NormalizedOf(r), now)
    && JobsAre(before, after.tables.jobs, id, if OutcomeOf(r) == Succeeded then HandlersOf(r) else [], now)
  }

  lemma BlankMeansNone(before: map<JobKey, Job>, after: map<JobKey, Job>, id: Id, handlers: seq<string>, now: Instant)
    requires JobsAre(before, after, id, handlers, now) && HandlerKeys(handlers) == []
    ensures JobsAre(before, after, id, [], now)
  {
    assert forall h :: h in HandlerKeys(handlers) <==> h in handlers && h != "";
  }

  lemma ReportRecorded(v: World, worker: Id, claim: Claim, r: E.DispatchResult, id: Id, now: Instant)
    requires worker in v.workers && v.workers[worker] == Answered(claim) && id !in v.db.tables.evidences
    requires Stands(v.db, claim, Dispatched)
    ensures var next := Step(v, FinalizeByWorker(worker, E.FinalInputOf(r), id, now));
            && next.calls == v.calls
            && if E.Contradictory(r) then next.db == v.db && StageOf(next.db, claim.operationKey) == Gone
               else Reported(v.db.tables.jobs, next.db, claim, r, id, now)
  {
    E.RefusedIffContradictory(r);
    InputTells(r);
    hide JobsAre, HandlerKeys, Close, FinalEvidence, Tells, OutcomeOf, ResponseOf, NormalizedOf, HandlersOf, E.FinalInputOf, E.Contradictory;
    var input := E.FinalInputOf(r);
    var tx := Finalize(v.db, claim, input, id, now);
    if tx.Ok? {
      FinalizeRecords(v.db, claim, input, id, now);
      if OutcomeOf(r) != Succeeded {
        BlankMeansNone(v.db.tables.jobs, tx.value.tables.jobs, id, HandlersOf(r), now);
      }
    }
  }

  lemma ExecutionReports(w: World, key: string, token: Token, until: Instant, worker: Id, r: E.DispatchResult, id: Id, now: Instant)
    requires DbOk(w.db) && key in w.db.commands && w.db.commands[key].status == Waiting && worker !in w.workers && id !in w.db.tables.evidences
    ensures var claim := ClaimOf(w.db, key, token);
            var next := Run(w, Execution(worker, claim, token, until, r, id, now));
            && next.calls == w.calls + [claim]
            && if E.Contradictory(r) then StageOf(next.db, key) == Gone && next.db.tables == w.db.tables
               else Reported(w.db.tables.jobs, next.db, claim, r, id, now)
  {
    var claim := ClaimOf(w.db, key, token);
    CalledOnce(w, key, token, until, worker);
    assert claim.operationKey == key;
    hide Run, Step, StageOf, Reported, Stands, ClaimOf, E.Contradictory, DbOk;
    FiveSteps(w, DoClaim(key, token, until), Start(worker, claim), MarkByWorker(worker), CallProvider(worker), FinalizeByWorker(worker, E.FinalInputOf(r), id, now));
    ReportRecorded(Step(Step(Step(Step(w, DoClaim(key, token, until)), Start(worker, claim)), MarkByWorker(worker)), CallProvider(worker)),
                   worker, claim, r, id, now);
  }

  /**
   In every reachable state a waiting command can be executed: the one call goes out, the command ends as
   the provider's answer says, the evidence keeps that answer word for word, and the jobs of a success are
   those of the classified handler keys. Only an answer that contradicts itself is refused.
   */
  lemma {:induction false} WaitingCommandRuns(actions: seq<Action>, key: string, token: Token, until: Instant, worker: Id, r: E.DispatchResult, id: Id, now: Instant)
    requires var w := Run(EmptyWorld, actions); key in w.db.commands && w.db.commands[key].status == Waiting && worker !in w.workers && id !in w.db.tables.evidences
    ensures var w := Run(EmptyWorld, actions); var claim := ClaimOf(w.db, key, token);
            var next := Run(w, Execution(worker, claim, token, until, r, id, now));
            && next.calls == w.calls + [claim]
            && if E.Contradictory(r) then StageOf(next.db, key) == Gone && next.db.tables == w.db.tables
               else Reported(w.db.tables.jobs, next.db, claim, r, id, now)
  {
    hide Run, Execution, StageOf, Reported, ClaimOf, E.Contradictory, DbOk;
    RunKeeps(EmptyWorld, actions);
    ExecutionReports(Run(EmptyWorld, actions), key, token, until, worker, r, id, now);
  }

  lemma FailRecords(db: Db, claim: Claim, id: Id, now: Instant)
    requires Owns(db, claim) && HasAttempt(db, claim) && AttemptStatusOf(db, claim) == Created && id !in db.tables.evidences
    ensures var tx := FailBeforeDispatch(db, claim, id, now);
            && tx.Ok? && StageOf(tx.value, claim.operationKey) == Over(FailedLocal)
            && Tells(tx.value, id, claim, "COMMAND_LOCAL_FAILURE", FailedLocal, None, NullResult, now)
            && tx.value.tables.jobs == db.tables.jobs
  {
    NoHandlersNoJobs(db.tables, id, LocalFailureEvidence(claim, now));
  }

  lemma FailureReports(w: World, key: string, token: Token, until: Instant, id: Id, now: Instant)
    requires DbOk(w.db) && key in w.db.commands && w.db.commands[key].status == Waiting && id !in w.db.tables.evidences
    ensures var claim := ClaimOf(w.db, key, token); var next := Step(Step(w, DoClaim(key, token, until)), FailDirectly(claim, id, now));
            && StageOf(next.db, key) == Over(FailedLocal) && next.calls == w.calls
            && Tells(next.db, id, claim, "COMMAND_LOCAL_FAILURE", FailedLocal, None, NullResult, now)
            && next.db.tables.jobs == w.db.tables.jobs
  {
    var claim := ClaimOf(w.db, key, token);
    ClaimStands(w.db, key, token, until);
    hide DbOk, ClaimCommand, Owns, StageOf, Tells, FailBeforeDispatch;
    FailRecords(Step(w, DoClaim(key, token, until)).db, claim, id, now);
  }

  /** A worker whose preparation fails closes the command as FAILED_LOCAL without a call, without a payload and without jobs. */
  lemma {:induction false} PreparationFails(actions: seq<Action>, key: string, token: Token, until: Instant, id: Id, now: Instant)
    requires var w := Run(EmptyWorld, actions); key in w.db.commands && w.db.commands[key].status == Waiting && id !in w.db.tables.evidences
    ensures var w := Run(EmptyWorld, actions); var claim := ClaimOf(w.db, key, token);
            var next := Step(Step(w, DoClaim(key, token, until)), FailDirectly(claim, id, now));
            && StageOf(next.db, key) == Over(FailedLocal) && next.calls == w.calls
            && Tells(next.db, id, claim, "COMMAND_LOCAL_FAILURE", FailedLocal, None, NullResult, now)
            && next.db.tables.jobs == w.db.tables.jobs
  {
    hide Run, Step, StageOf, Tells, ClaimOf, DbOk;
    RunKeeps(EmptyWorld, actions);
    FailureReports(Run(EmptyWorld, actions), key, token, until, id, now);
  }

  /** A command given up after it had gone out says so. */
  lemma {:induction false} GivenUpSaysSo(actions: seq<Action>, key: string, id: Id, now: Instant)
    requires var db := Run(EmptyWorld, actions).db; Expired(db, key, now) && StageOf(db, key) == Gone && id !in db.tables.evidences
    ensures var db := Run(EmptyWorld, actions).db; var tx := RecoverOne(db, key, id, now);
            && tx.Ok? && Tells(tx.value, id, Claim(key, |Attempts(db, key)|, 0, 0), "COMMAND_TRANSPORT_UNCERTAIN", Ambiguous, None, OtherDocument("CLAIM_EXPIRED_AFTER_DISPATCH"), now)
            && tx.value.tables.jobs == db.tables.jobs
  {
    RunKeeps(EmptyWorld, actions);
    hide Run, EvidenceOk, WorkersOk, CallsOk;
    var db := Run(EmptyWorld, actions).db;
    NoHandlersNoJobs(db.tables, id, ExpiryEvidence(key, |Attempts(db, key)|, now));
  }
}
