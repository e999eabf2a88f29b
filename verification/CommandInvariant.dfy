/** What every step of the command protocol keeps. */
module CommandInvariant {
  import opened Common
  import opened EvidenceTables
  import opened CommandProtocol

  predicate WentOut(s: AttemptStatus) {
    s == Dispatched || s == ResponseReceived || s == ConnectionLost
  }

  predicate Agrees(o: Outcome, s: AttemptStatus) {
    match o
    case Succeeded => s == ResponseReceived
    case NotApplied => s == ResponseReceived
    case Ambiguous => s == ResponseReceived || s == ConnectionLost
    case FailedLocal => s == LocalFailure
  }

  /** One command row against its attempts: only the newest attempt can be anything but a local failure. */
  predicate CommandOk(c: Command, a: seq<AttemptStatus>) {
    && |a| == c.generation
    && (forall i :: 0 <= i < |a| - 1 ==> a[i] == LocalFailure)
    && match c.status
       case Waiting => c.lease == None && c.lockedUntil == None && (a != [] ==> a[|a| - 1] == LocalFailure)
       case Dispatching => c.lease.Some? && c.lockedUntil.Some? && a != [] && (a[|a| - 1] == Created || a[|a| - 1] == Dispatched)
       case Closed(o) => c.lease == None && c.lockedUntil == None && a != [] && Agrees(o, a[|a| - 1])
  }

  predicate EvidenceFor(t: Tables, id: Id, key: string) {
    id in t.evidences && t.evidences[id].source.Some? && t.evidences[id].source.value.operationKey == key
  }

  /** Exactly one evidence row for a closed command, none for an open one. */
  ghost predicate EvidenceOk(db: Db, key: string)
    requires key in db.commands
  {
    match db.commands[key].status
    case Closed(o) =>
      exists id ::
        && EvidenceFor(db.tables, id, key)
        && db.tables.evidences[id].outcome == o
        && db.tables.evidences[id].source.value.attemptNo == |Attempts(db, key)|
        && forall other :: EvidenceFor(db.tables, other, key) ==> other == id
    case _ => forall id :: !EvidenceFor(db.tables, id, key)
  }

  ghost predicate DbOk(db: Db) {
    && (forall key :: key in db.attempts ==> key in db.commands)
    && (forall key :: key in db.commands ==> CommandOk(db.commands[key], Attempts(db, key)))
    && (forall key :: key in db.commands ==> EvidenceOk(db, key))
    && (forall id :: id in db.tables.evidences && db.tables.evidences[id].source.Some?
                     ==> db.tables.evidences[id].source.value.operationKey in db.commands)
    && (forall j :: j in db.tables.jobs ==> j.evidenceId in db.tables.evidences
                                            && db.tables.evidences[j.evidenceId].outcome == Succeeded)
  }

  predicate ClaimOk(db: Db, claim: Claim) {
    && claim.operationKey in db.commands
    && claim.attemptNo == claim.generation
    && 1 <= claim.generation <= db.commands[claim.operationKey].generation
  }

  predicate Sent(db: Db, claim: Claim) {
    && ClaimOk(db, claim)
    && HasAttempt(db, claim)
    && WentOut(AttemptStatusOf(db, claim))
  }

  predicate InFlight(w: Worker) {
    w.Marked? || w.Answered?
  }

  /** Executions hold issued claims; those past marking hold attempts that went out, one per command. */
  ghost predicate WorkersOk(db: Db, issued: set<Claim>, workers: map<Id, Worker>) {
    && (forall claim :: claim in issued ==> ClaimOk(db, claim))
    && (forall k :: k in workers && !workers[k].Stopped? ==> workers[k].claim in issued)
    && (forall k :: k in workers && InFlight(workers[k]) ==> Sent(db, workers[k].claim))
    && (forall j, k :: j in workers && k in workers && j != k && InFlight(workers[j]) && InFlight(workers[k])
                       ==> workers[j].claim.operationKey != workers[k].claim.operationKey)
  }

  /** Calls are for distinct commands whose attempt went out; a worker still to call has not been preceded. */
  ghost predicate CallsOk(db: Db, workers: map<Id, Worker>, calls: seq<Claim>) {
    && (forall i :: 0 <= i < |calls| ==> Sent(db, calls[i]))
    && (forall i, j :: 0 <= i < j < |calls| ==> calls[i].operationKey != calls[j].operationKey)
    && (forall i, k :: 0 <= i < |calls| && k in workers && workers[k].Marked?
                       ==> workers[k].claim.operationKey != calls[i].operationKey)
  }

  ghost predicate WorldOk(w: World) {
    DbOk(w.db) && WorkersOk(w.db, w.issued, w.workers) && CallsOk(w.db, w.workers, w.calls)
  }

  /**
   What no transaction takes back: rows stay, a closed command and its evidence are frozen,
   an attempt that went out still counts as gone out, and evidence is never rewritten.
   */
  ghost predicate Evolves(a: Db, b: Db) {
    && (forall key :: key in a.commands ==> key in b.commands && KeyEvolves(a, b, key))
    && (forall key :: key !in a.commands ==> Attempts(a, key) == [])
    && (forall id :: id in a.tables.evidences ==> id in b.tables.evidences && b.tables.evidences[id] == a.tables.evidences[id])
    && (forall j :: j in a.tables.jobs ==> j in b.tables.jobs && b.tables.jobs[j] == a.tables.jobs[j])
  }

  ghost predicate KeyEvolves(a: Db, b: Db, key: string)
    requires key in a.commands && key in b.commands
  {
    && a.commands[key].generation <= b.commands[key].generation
    && a.commands[key].provider == b.commands[key].provider
    && a.commands[key].operationType == b.commands[key].operationType
    && a.commands[key].digest == b.commands[key].digest
    && (a.commands[key].status.Closed? ==> a.commands[key] == b.commands[key] && Attempts(a, key) == Attempts(b, key))
    && AttemptsEvolve(Attempts(a, key), Attempts(b, key))
  }

  predicate AttemptsEvolve(a: seq<AttemptStatus>, b: seq<AttemptStatus>) {
    |a| <= |b| && forall i :: 0 <= i < |a| && WentOut(a[i]) ==> WentOut(b[i])
  }

  /** A transaction on one command: every other command, its attempts and its evidence are as before. */
  ghost predicate TouchesOnly(a: Db, b: Db, key: string) {
    && key in b.commands
    && (forall k :: k in b.attempts ==> k in b.commands)
    && (forall k :: k in a.commands ==> k in b.commands)
    && (forall k :: k in b.commands && k != key ==>
          k in a.commands && b.commands[k] == a.commands[k] && Attempts(b, k) == Attempts(a, k))
    && (forall id :: id in a.tables.evidences ==> id in b.tables.evidences && b.tables.evidences[id] == a.tables.evidences[id])
    && (forall id :: id in b.tables.evidences && id !in a.tables.evidences ==> EvidenceFor(b.tables, id, key))
    && (forall j :: j in a.tables.jobs ==> j in b.tables.jobs && b.tables.jobs[j] == a.tables.jobs[j])
    && (forall j :: j in b.tables.jobs && j !in a.tables.jobs ==>
          j.evidenceId in b.tables.evidences && b.tables.evidences[j.evidenceId].outcome == Succeeded)
  }

  lemma OtherEvidenceKept(a: Db, b: Db, key: string, k: string)
    requires TouchesOnly(a, b, key) && k in b.commands && k != key && EvidenceOk(a, k)
    ensures EvidenceOk(b, k)
  {
    assert forall id :: EvidenceFor(b.tables, id, k) <==> EvidenceFor(a.tables, id, k);
  }

  lemma TouchKeeps(a: Db, b: Db, key: string)
    requires DbOk(a) && TouchesOnly(a, b, key)
    requires CommandOk(b.commands[key], Attempts(b, key)) && EvidenceOk(b, key)
    requires key in a.commands ==> KeyEvolves(a, b, key)
    ensures DbOk(b) && Evolves(a, b)
  {
    forall k | k in b.commands && k != key
      ensures EvidenceOk(b, k)
    {
      OtherEvidenceKept(a, b, key, k);
    }
    forall k | k in a.commands
      ensures KeyEvolves(a, b, k)
    {
    }
  }

  lemma SameEvidence(a: Db, b: Db, key: string)
    requires DbOk(a) && key in b.commands && b.tables == a.tables && !b.commands[key].status.Closed?
    requires key in a.commands ==> !a.commands[key].status.Closed?
    ensures EvidenceOk(b, key)
  {
    if key in a.commands {
      assert EvidenceOk(a, key);
    }
  }

  lemma RegisterKeeps(db: Db, key: string, provider: string, operationType: string, digest: string, now: Instant)
    requires DbOk(db)
    ensures var tx := Register(db, key, provider, operationType, digest, now);
            tx.Ok? ==> DbOk(tx.value) && Evolves(db, tx.value)
  {
    var tx := Register(db, key, provider, operationType, digest, now);
    if tx.Ok? && key !in db.commands {
      SameEvidence(db, tx.value, key);
      TouchKeeps(db, tx.value, key);
    }
  }

  lemma ClaimTouches(db: Db, key: string, token: Token, until: Instant)
    requires DbOk(db) && ClaimCommand(db, key, token, until).Ok?
    ensures var b := ClaimCommand(db, key, token, until).value;
            && TouchesOnly(db, b, key) && key in db.commands && CommandOk(b.commands[key], Attempts(b, key)) && KeyEvolves(db, b, key)
            && b.tables == db.tables && !b.commands[key].status.Closed? && !db.commands[key].status.Closed?
            && ClaimOk(b, ClaimOf(db, key, token))
  {
    assert CommandOk(db.commands[key], Attempts(db, key));
  }

  lemma ClaimKeeps(db: Db, key: string, token: Token, until: Instant)
    requires DbOk(db)
    ensures var tx := ClaimCommand(db, key, token, until);
            tx.Ok? ==> DbOk(tx.value) && Evolves(db, tx.value) && ClaimOk(tx.value, ClaimOf(db, key, token))
  {
    var tx := ClaimCommand(db, key, token, until);
    if tx.Ok? {
      ClaimTouches(db, key, token, until);
      SameEvidence(db, tx.value, key);
      hide ClaimCommand, CommandOk, KeyEvolves, Evolves, TouchesOnly;
      TouchKeeps(db, tx.value, key);
    }
  }

  /** An owned claim is the newest one, so its attempt is the last attempt of its command. */
  lemma OwnedIsNewest(db: Db, claim: Claim)
    requires DbOk(db) && ClaimOk(db, claim) && Owns(db, claim)
    ensures HasAttempt(db, claim) && claim.attemptNo == |Attempts(db, claim.operationKey)|
    ensures AttemptStatusOf(db, claim) == Created || AttemptStatusOf(db, claim) == Dispatched
    ensures forall i :: 0 <= i < |Attempts(db, claim.operationKey)| - 1 ==> Attempts(db, claim.operationKey)[i] == LocalFailure
  {
    assert CommandOk(db.commands[claim.operationKey], Attempts(db, claim.operationKey));
  }

  lemma MarkTouches(db: Db, claim: Claim)
    requires DbOk(db) && ClaimOk(db, claim) && MarkDispatched(db, claim).Ok?
    ensures var b := MarkDispatched(db, claim).value; var key := claim.operationKey;
            && TouchesOnly(db, b, key) && key in db.commands && CommandOk(b.commands[key], Attempts(b, key)) && KeyEvolves(db, b, key)
            && b.tables == db.tables && !b.commands[key].status.Closed? && !db.commands[key].status.Closed?
            && HasAttempt(b, claim) && WentOut(AttemptStatusOf(b, claim))
    ensures forall other: Claim :: other.operationKey == claim.operationKey ==> !Sent(db, other)
  {
    OwnedIsNewest(db, claim);
  }

  /** Marking is possible only while no attempt of the command has ever gone out. */
  lemma MarkKeeps(db: Db, claim: Claim)
    requires DbOk(db) && ClaimOk(db, claim)
    ensures var tx := MarkDispatched(db, claim);
            tx.Ok? ==> DbOk(tx.value) && Evolves(db, tx.value) && Sent(tx.value, claim)
                       && forall other: Claim :: other.operationKey == claim.operationKey ==> !Sent(db, other)
  {
    var tx := MarkDispatched(db, claim);
    if tx.Ok? {
      MarkTouches(db, claim);
      SameEvidence(db, tx.value, claim.operationKey);
      hide MarkDispatched, CommandOk, KeyEvolves, Evolves, TouchesOnly;
      TouchKeeps(db, tx.value, claim.operationKey);
      EvolvesKeepsClaims(db, tx.value);
    }
  }

  lemma CloseKeeps(db: Db, key: string, status: AttemptStatus, id: Id, row: Evidence, handlers: seq<string>)
    requires DbOk(db) && key in db.commands && db.commands[key].status == Dispatching
    requires id !in db.tables.evidences && Agrees(row.outcome, status)
    requires row.source == Some(AttemptRef(key, |Attempts(db, key)|))
    requires row.outcome != Succeeded ==> handlers == []
    requires forall i :: 0 <= i < |Attempts(db, key)| && WentOut(Attempts(db, key)[i]) ==> WentOut(status)
    ensures |Attempts(db, key)| >= 1
    ensures var b := Close(db, key, |Attempts(db, key)|, status, id, row, handlers);
            DbOk(b) && Evolves(db, b) && b.commands[key].status == Closed(row.outcome)
  {
    assert CommandOk(db.commands[key], Attempts(db, key));
    var b := Close(db, key, |Attempts(db, key)|, status, id, row, handlers);
    ClosedEvidence(db, key, status, id, row, handlers);
    TouchKeeps(db, b, key);
  }

  lemma ClosedEvidence(db: Db, key: string, status: AttemptStatus, id: Id, row: Evidence, handlers: seq<string>)
    requires DbOk(db) && key in db.commands && db.commands[key].status == Dispatching
    requires id !in db.tables.evidences && |Attempts(db, key)| >= 1
    requires row.source == Some(AttemptRef(key, |Attempts(db, key)|))
    ensures EvidenceOk(Close(db, key, |Attempts(db, key)|, status, id, row, handlers), key)
  {
    var b := Close(db, key, |Attempts(db, key)|, status, id, row, handlers);
    assert EvidenceOk(db, key);
    assert EvidenceFor(b.tables, id, key);
    assert forall other :: EvidenceFor(b.tables, other, key) && other != id ==> EvidenceFor(db.tables, other, key);
  }

  lemma FinalizeKeeps(db: Db, claim: Claim, input: FinalInput, id: Id, now: Instant)
    requires DbOk(db) && ClaimOk(db, claim)
    ensures var tx := Finalize(db, claim, input, id, now);
            tx.Ok? ==> DbOk(tx.value) && Evolves(db, tx.value)
  {
    if Finalize(db, claim, input, id, now).Ok? {
      OwnedIsNewest(db, claim);
      CloseKeeps(db, claim.operationKey, if input.responseReceived then ResponseReceived else ConnectionLost,
                 id, FinalEvidence(claim, input, now), HandlerKeys(input.handlerKeys));
    }
  }

  lemma FailKeeps(db: Db, claim: Claim, id: Id, now: Instant)
    requires DbOk(db) && ClaimOk(db, claim)
    ensures var tx := FailBeforeDispatch(db, claim, id, now);
            tx.Ok? ==> DbOk(tx.value) && Evolves(db, tx.value)
  {
    if FailBeforeDispatch(db, claim, id, now).Ok? {
      OwnedIsNewest(db, claim);
      CloseKeeps(db, claim.operationKey, LocalFailure, id, LocalFailureEvidence(claim, now), []);
    }
  }

  /** Past its requeue branch, recovery only ever meets a DISPATCHED attempt, and requeues only a CREATED one. */
  lemma RecoverySees(db: Db, key: string, now: Instant)
    requires DbOk(db) && Expired(db, key, now)
    ensures var a := Attempts(db, key);
            a != [] && a[|a| - 1] == (if Requeues(db, key) then Created else Dispatched)
  {
    assert CommandOk(db.commands[key], Attempts(db, key));
  }

  lemma RecoverKeeps(db: Db, key: string, id: Id, now: Instant)
    requires DbOk(db)
    ensures var tx := RecoverOne(db, key, id, now);
            tx.Ok? ==> DbOk(tx.value) && Evolves(db, tx.value)
  {
    var tx := RecoverOne(db, key, id, now);
    if tx.Ok? {
      RecoverySees(db, key, now);
      assert CommandOk(db.commands[key], Attempts(db, key));
      if Requeues(db, key) {
        SameEvidence(db, tx.value, key);
        TouchKeeps(db, tx.value, key);
      } else {
        CloseKeeps(db, key, ConnectionLost, id, ExpiryEvidence(key, |Attempts(db, key)|, now), []);
      }
    }
  }

  lemma EvolvesKeepsClaims(a: Db, b: Db)
    requires DbOk(a) && Evolves(a, b)
    ensures forall claim: Claim :: ClaimOk(a, claim) ==> ClaimOk(b, claim)
    ensures forall claim: Claim :: Sent(a, claim) ==> Sent(b, claim)
  {
  }

  /** A committed transaction carries the whole world invariant along. */
  lemma CommitKeeps(w: World, tx: Result<Db, TxError>)
    requires WorldOk(w)
    requires tx.Ok? ==> DbOk(tx.value) && Evolves(w.db, tx.value)
    ensures WorldOk(Commit(w, tx)) && Evolves(w.db, Commit(w, tx).db)
  {
    if tx.Ok? {
      EvolvesKeepsClaims(w.db, tx.value);
    }
  }

  lemma StopKeeps(db: Db, issued: set<Claim>, workers: map<Id, Worker>, calls: seq<Claim>, worker: Id)
    requires WorkersOk(db, issued, workers) && CallsOk(db, workers, calls)
    ensures var next := workers[worker := Stopped]; WorkersOk(db, issued, next) && CallsOk(db, next, calls)
  {
  }

  /** A worker whose mark committed joins the ones in flight, and no other was there for its command. */
  lemma JoinFlight(db: Db, issued: set<Claim>, workers: map<Id, Worker>, calls: seq<Claim>, worker: Id, claim: Claim)
    requires WorkersOk(db, issued, workers) && CallsOk(db, workers, calls)
    requires claim in issued && Sent(db, claim)
    requires forall k :: k in workers && InFlight(workers[k]) ==> workers[k].claim.operationKey != claim.operationKey
    requires forall i :: 0 <= i < |calls| ==> calls[i].operationKey != claim.operationKey
    ensures var next := workers[worker := Marked(claim)]; WorkersOk(db, issued, next) && CallsOk(db, next, calls)
  {
  }

  /** A worker that marks its attempt is the first ever to be in flight for that command. */
  lemma WorkerMarkKeeps(w: World, worker: Id)
    requires WorldOk(w) && worker in w.workers && w.workers[worker].Preparing?
    requires MarkDispatched(w.db, w.workers[worker].claim).Ok?
    ensures var next := Step(w, MarkByWorker(worker)); WorldOk(next) && Evolves(w.db, next.db)
  {
    hide DbOk, Evolves;
    var claim := w.workers[worker].claim;
    var tx := MarkDispatched(w.db, claim);
    MarkKeeps(w.db, claim);
    NobodyOutYet(w.db, w.issued, w.workers, w.calls, claim.operationKey);
    CommitKeeps(w, tx);
    JoinFlight(tx.value, w.issued, w.workers, w.calls, worker, claim);
  }

  lemma NobodyOutYet(db: Db, issued: set<Claim>, workers: map<Id, Worker>, calls: seq<Claim>, key: string)
    requires WorkersOk(db, issued, workers) && CallsOk(db, workers, calls)
    requires forall other: Claim :: other.operationKey == key ==> !Sent(db, other)
    ensures forall k :: k in workers && InFlight(workers[k]) ==> workers[k].claim.operationKey != key
    ensures forall i :: 0 <= i < |calls| ==> calls[i].operationKey != key
  {
  }

  lemma CallKeeps(db: Db, issued: set<Claim>, workers: map<Id, Worker>, calls: seq<Claim>, worker: Id)
    requires WorkersOk(db, issued, workers) && CallsOk(db, workers, calls)
    requires worker in workers && workers[worker].Marked?
    ensures var claim := workers[worker].claim;
            var next := workers[worker := Answered(claim)];
            WorkersOk(db, issued, next) && CallsOk(db, next, calls + [claim])
  {
  }

  lemma StartKeeps(db: Db, issued: set<Claim>, workers: map<Id, Worker>, calls: seq<Claim>, worker: Id, claim: Claim)
    requires WorkersOk(db, issued, workers) && CallsOk(db, workers, calls) && claim in issued
    requires worker !in workers
    ensures var next := workers[worker := Preparing(claim)]; WorkersOk(db, issued, next) && CallsOk(db, next, calls)
  {
  }

  lemma EvolvesRefl(a: Db)
    requires DbOk(a)
    ensures Evolves(a, a)
  {
  }

  lemma EvolvesTrans(a: Db, b: Db, c: Db)
    requires Evolves(a, b) && Evolves(b, c)
    ensures Evolves(a, c)
  {
    forall key | key in a.commands
      ensures KeyEvolves(a, c, key)
    {
      assert KeyEvolves(a, b, key) && KeyEvolves(b, c, key);
    }
  }

  /** A worker that ends: its last transaction, if it commits, and then it stops. */
  lemma EndKeeps(w: World, worker: Id, tx: Result<Db, TxError>)
    requires WorldOk(w)
    requires tx.Ok? ==> DbOk(tx.value) && Evolves(w.db, tx.value)
    ensures var next := Commit(w, tx).(workers := w.workers[worker := Stopped]); WorldOk(next) && Evolves(w.db, next.db)
  {
    CommitKeeps(w, tx);
    StopKeeps(Commit(w, tx).db, w.issued, w.workers, w.calls, worker);
  }

  predicate ByWorker(a: Action) {
    a.Start? || a.PrepareFails? || a.MarkByWorker? || a.CallProvider? || a.FinalizeByWorker?
  }

  lemma WorkerStepKeeps(w: World, a: Action)
    requires WorldOk(w) && ByWorker(a)
    ensures WorldOk(Step(w, a)) && Evolves(w.db, Step(w, a).db)
  {
    EvolvesRefl(w.db);
    match a
    case Start(worker, claim) =>
      if claim in w.issued && worker !in w.workers { StartKeeps(w.db, w.issued, w.workers, w.calls, worker, claim); }
    case PrepareFails(worker, id, now) =>
      if worker in w.workers && w.workers[worker].Preparing? {
        FailKeeps(w.db, w.workers[worker].claim, id, now);
        EndKeeps(w, worker, FailBeforeDispatch(w.db, w.workers[worker].claim, id, now));
      }
    case MarkByWorker(worker) =>
      if worker in w.workers && w.workers[worker].Preparing? {
        if MarkDispatched(w.db, w.workers[worker].claim).Ok? {
          WorkerMarkKeeps(w, worker);
        } else {
          StopKeeps(w.db, w.issued, w.workers, w.calls, worker);
        }
      }
    case CallProvider(worker) =>
      if worker in w.workers && w.workers[worker].Marked? { CallKeeps(w.db, w.issued, w.workers, w.calls, worker); }
    case FinalizeByWorker(worker, input, id, now) =>
      if worker in w.workers && w.workers[worker].Answered? {
        FinalizeKeeps(w.db, w.workers[worker].claim, input, id, now);
        EndKeeps(w, worker, Finalize(w.db, w.workers[worker].claim, input, id, now));
      }
  }

  lemma DirectStepKeeps(w: World, a: Action)
    requires WorldOk(w) && !ByWorker(a)
    ensures WorldOk(Step(w, a)) && Evolves(w.db, Step(w, a).db)
  {
    hide Register, ClaimCommand, MarkDispatched, Finalize, FailBeforeDispatch, RecoverOne, DbOk, Evolves;
    EvolvesRefl(w.db);
    match a
    case DoRegister(key, provider, operationType, digest, now) =>
      RegisterKeeps(w.db, key, provider, operationType, digest, now);
      CommitKeeps(w, Register(w.db, key, provider, operationType, digest, now));
    case DoClaim(key, token, until) =>
      ClaimKeeps(w.db, key, token, until);
      CommitKeeps(w, ClaimCommand(w.db, key, token, until));
    case MarkDirectly(claim) =>
      if claim in w.issued {
        MarkKeeps(w.db, claim);
        CommitKeeps(w, MarkDispatched(w.db, claim));
      }
    case FinalizeDirectly(claim, input, id, now) =>
      if claim in w.issued {
        FinalizeKeeps(w.db, claim, input, id, now);
        CommitKeeps(w, Finalize(w.db, claim, input, id, now));
      }
    case FailDirectly(claim, id, now) =>
      if claim in w.issued {
        FailKeeps(w.db, claim, id, now);
        CommitKeeps(w, FailBeforeDispatch(w.db, claim, id, now));
      }
    case Recover(key, id, now) =>
      RecoverKeeps(w.db, key, id, now);
      CommitKeeps(w, RecoverOne(w.db, key, id, now));
  }

  /** Every action keeps the invariant and takes nothing back. */
  lemma StepKeeps(w: World, a: Action)
    requires WorldOk(w)
    ensures WorldOk(Step(w, a)) && Evolves(w.db, Step(w, a).db)
  {
    if ByWorker(a) {
      WorkerStepKeeps(w, a);
    } else {
      DirectStepKeeps(w, a);
    }
  }

  lemma {:induction false} RunKeeps(w: World, actions: seq<Action>)
    requires WorldOk(w)
    ensures WorldOk(Run(w, actions)) && Evolves(w.db, Run(w, actions).db)
    decreases |actions|
  {
    if actions == [] {
      EvolvesRefl(w.db);
    } else {
      var mid := Step(w, actions[0]);
      StepKeeps(w, actions[0]);
      RunKeeps(mid, actions[1..]);
      EvolvesTrans(w.db, mid.db, Run(mid, actions[1..]).db);
    }
  }
}
