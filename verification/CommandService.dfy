/**
 The command service on its tables: each method is one database transaction, written step by
 step, and its postcondition names the protocol function whose result the tables then hold.
 */
module CommandService {
  import opened Common
  import opened EvidenceTables
  import P = CommandProtocol

  /** Recovery of a batch, one candidate after the other; a failure fails the whole transaction. */
  function RecoverAll(db: P.Db, batch: seq<string>, ids: seq<Id>, now: Instant): Result<P.Db, P.TxError>
    requires |ids| == |batch|
  {
    if batch == [] then Ok(db)
    else
      var n := |batch| - 1;
      var before := RecoverAll(db, batch[..n], ids[..n], now);
      if before.Err? then before else P.RecoverOne(before.value, batch[n], ids[n], now)
  }

  function WithStatus(db: P.Db, keys: seq<string>, status: P.CommandStatus): nat {
    if keys == [] then 0
    else
      var n := |keys| - 1;
      WithStatus(db, keys[..n], status)
      + (if keys[n] in db.commands && db.commands[keys[n]].status == status then 1 else 0)
  }

  predicate Distinct(keys: seq<string>) {
    forall i, j :: 0 <= i < j < |keys| ==> keys[i] != keys[j]
  }

  lemma {:induction false} WithStatusSame(a: P.Db, b: P.Db, keys: seq<string>, status: P.CommandStatus)
    requires forall i :: 0 <= i < |keys| ==> (keys[i] in a.commands <==> keys[i] in b.commands)
    requires forall i :: 0 <= i < |keys| && keys[i] in a.commands ==> a.commands[keys[i]] == b.commands[keys[i]]
    ensures WithStatus(a, keys, status) == WithStatus(b, keys, status)
  {
    if keys != [] {
      WithStatusSame(a, b, keys[..|keys| - 1], status);
    }
  }

  lemma RecoverOneTouches(db: P.Db, key: string, id: Id, now: Instant)
    ensures var tx := P.RecoverOne(db, key, id, now);
            tx.Ok? ==>
              && tx.value.commands.Keys == db.commands.Keys
              && (forall k :: k in db.commands && k != key ==> tx.value.commands[k] == db.commands[k])
              && tx.value.commands[key].status == (if P.Requeues(db, key) then P.Waiting else P.Closed(Ambiguous))
  {
  }

  lemma {:induction false} RecoverAllTouches(db: P.Db, batch: seq<string>, ids: seq<Id>, now: Instant)
    requires |ids| == |batch|
    ensures var tx := RecoverAll(db, batch, ids, now);
            tx.Ok? ==>
              && tx.value.commands.Keys == db.commands.Keys
              && (forall k :: k in db.commands && k !in batch ==> tx.value.commands[k] == db.commands[k])
  {
    if batch != [] {
      var n := |batch| - 1;
      RecoverAllTouches(db, batch[..n], ids[..n], now);
      var before := RecoverAll(db, batch[..n], ids[..n], now);
      if before.Ok? {
        RecoverOneTouches(before.value, batch[n], ids[n], now);
      }
    }
  }

  /** A recovery transaction that commits is the run of its candidates' single recoveries. */
  lemma {:induction false} RecoverAllIsRun(w: P.World, batch: seq<string>, ids: seq<Id>, now: Instant)
    requires |ids| == |batch| && RecoverAll(w.db, batch, ids, now).Ok?
    ensures P.Run(w, seq(|batch|, i requires 0 <= i < |batch| => P.Recover(batch[i], ids[i], now)))
            == w.(db := RecoverAll(w.db, batch, ids, now).value)
  {
    hide P.RecoverOne;
    var actions := seq(|batch|, i requires 0 <= i < |batch| => P.Recover(batch[i], ids[i], now));
    if batch != [] {
      var n := |batch| - 1;
      RecoverAllIsRun(w, batch[..n], ids[..n], now);
      var shorter := seq(n, i requires 0 <= i < n => P.Recover(batch[..n][i], ids[..n][i], now));
      assert actions == shorter + [actions[n]];
      RunSplits(w, shorter, actions[n]);
    }
  }

  lemma {:induction false} RunSplits(w: P.World, first: seq<P.Action>, last: P.Action)
    ensures P.Run(w, first + [last]) == P.Step(P.Run(w, first), last)
    decreases |first|
  {
    if first == [] {
      assert P.Run(P.Step(w, last), []) == P.Step(w, last);
      assert ([last])[1..] == [];
    } else {
      assert (first + [last])[1..] == first[1..] + [last];
      RunSplits(P.Step(w, first[0]), first[1..], last);
    }
  }

  /** What one more turn of the loop adds to the recovery so far. */
  lemma RecoverTurn(db: P.Db, batch: seq<string>, ids: seq<Id>, i: nat, before: P.Db, now: Instant)
    requires i < |batch| <= |ids| && Distinct(batch) && P.Expired(db, batch[i], now)
    requires RecoverAll(db, batch[..i], ids[..i], now) == Ok(before)
    ensures P.Expired(before, batch[i], now)
    ensures ids[..|batch|][..i + 1] == ids[..i + 1]
    ensures var tx := P.RecoverOne(before, batch[i], ids[i], now);
            && RecoverAll(db, batch[..i + 1], ids[..i + 1], now) == tx
            && (tx.Ok? ==>
                  && WithStatus(tx.value, batch[..i + 1], P.Waiting)
                     == WithStatus(before, batch[..i], P.Waiting) + (if P.Requeues(before, batch[i]) then 1 else 0)
                  && WithStatus(tx.value, batch[..i + 1], P.Closed(Ambiguous))
                     == WithStatus(before, batch[..i], P.Closed(Ambiguous)) + (if P.Requeues(before, batch[i]) then 0 else 1))
  {
    RecoverAllTouches(db, batch[..i], ids[..i], now);
    assert batch[i] !in batch[..i];
    var one, rows := batch[..i + 1], ids[..i + 1];
    assert one[..i] == batch[..i] && rows[..i] == ids[..i] && |one| - 1 == i;
    var tx := P.RecoverOne(before, batch[i], ids[i], now);
    assert RecoverAll(db, one, rows, now) == tx;
    if tx.Ok? {
      RecoverOneTouches(before, batch[i], ids[i], now);
      WithStatusSame(before, tx.value, batch[..i], P.Waiting);
      WithStatusSame(before, tx.value, batch[..i], P.Closed(Ambiguous));
    }
  }

  /** When the lease of a command runs out; commands without a lease sort first. */
  function LeaseEnd(commands: map<string, P.Command>, key: string): Instant {
    if key in commands && commands[key].lockedUntil.Some? then commands[key].lockedUntil.value else 0
  }

  class Service {
    var commands: map<string, P.Command>
    var attempts: map<string, seq<P.AttemptStatus>>
    var evidences: map<Id, Evidence>
    var jobs: map<JobKey, Job>

    function Db(): P.Db
      reads this
    {
      P.Db(commands, attempts, Tables(evidences, jobs))
    }

    constructor ()
      ensures Db() == P.EmptyDb
    {
      commands, attempts, evidences, jobs := map[], map[], map[], map[];
    }

    method Register(key: string, provider: string, operationType: string, digest: string, now: Instant)
      returns (r: Result<bool, P.TxError>)
      modifies this
      ensures var tx := P.Register(old(Db()), key, provider, operationType, digest, now);
              && (r.Ok? <==> tx.Ok?)
              && Db() == (if tx.Ok? then tx.value else old(Db()))
              && (r.Ok? ==> r.value == (key !in old(commands)))
              && (r.Err? ==> r.error == tx.error)
    {
      if provider == "" || operationType == "" || key == "" {
        return Err(P.InvalidInput);
      }
      var inserted := key !in commands;
      if inserted {
        commands := commands[key := P.Command(provider, operationType, digest, P.Waiting, None, 0, None, now)];
      }
      var row := commands[key];
      if row.provider != provider || row.operationType != operationType || row.digest != digest {
        return Err(P.KeyConflict);
      }
      return Ok(inserted);
    }

    predicate Claimable(key: string, provider: Option<string>, operationTypes: seq<string>, locked: set<string>)
      reads this
    {
      && key in commands && key !in locked
      && commands[key].status == P.Waiting
      && (provider.Some? ==> commands[key].provider == provider.value)
      && (operationTypes != [] ==> commands[key].operationType in operationTypes)
    }

    /** Takes the oldest waiting command that matches the filters and that no other transaction holds locked. */
    method ClaimNext(provider: Option<string>, operationTypes: seq<string>, locked: set<string>, token: Token, until: Instant)
      returns (r: Option<P.Claim>)
      modifies this
      ensures r.None? <==> forall key :: key in old(commands) ==> !old(Claimable(key, provider, operationTypes, locked))
      ensures r.None? ==> Db() == old(Db())
      ensures r.None? ==> forall key :: key in old(commands) && old(commands)[key].status == P.Waiting && key !in locked ==>
                || (provider.Some? && old(commands)[key].provider != provider.value)
                || (operationTypes != [] && old(commands)[key].operationType !in operationTypes)
      ensures r.Some? ==>
        && r.value.operationKey in old(commands) && r.value.operationKey !in locked
        && var row := old(commands)[r.value.operationKey];
        && row.status == P.Waiting
        && (provider.Some? ==> row.provider == provider.value) && (operationTypes != [] ==> row.operationType in operationTypes)
      ensures r.Some? ==>
        && var key := r.value.operationKey;
        && old(Claimable(key, provider, operationTypes, locked))
        && (forall other :: other in old(commands) && old(Claimable(other, provider, operationTypes, locked))
              ==> old(commands)[key].createdAt <= old(commands)[other].createdAt)
        && r.value == P.ClaimOf(old(Db()), key, token)
        && P.ClaimCommand(old(Db()), key, token, until) == Ok(Db())
    {
      var candidates := set key | key in commands && Claimable(key, provider, operationTypes, locked);
      if candidates == {} {
        assert forall key :: key in commands && Claimable(key, provider, operationTypes, locked) ==> key in candidates;
        return None;
      }
      LeastExists(commands, candidates, (c: P.Command) => c.createdAt);
      var key :| key in candidates && forall other :: other in candidates ==> commands[key].createdAt <= commands[other].createdAt;
      var generation := commands[key].generation + 1;
      commands := commands[key := commands[key].(status := P.Dispatching, lease := Some(token),
                                                 generation := generation, lockedUntil := Some(until))];
      var previous := if key in attempts then attempts[key] else [];
      attempts := attempts[key := previous + [P.Created]];
      return Some(P.Claim(key, |previous| + 1, token, generation));
    }

    /** lockOwnedCommand and lockClaimAttempt: the attempt's status, or that ownership was lost. */
    method LockOwned(claim: P.Claim) returns (r: Result<P.AttemptStatus, P.TxError>)
      ensures r.Ok? <==> P.Owns(Db(), claim) && P.HasAttempt(Db(), claim)
      ensures r.Ok? ==> r.value == P.AttemptStatusOf(Db(), claim)
      ensures r.Err? ==> r.error == P.OwnershipLost
    {
      if claim.operationKey !in commands { return Err(P.OwnershipLost); }
      var row := commands[claim.operationKey];
      if row.status != P.Dispatching || row.lease != Some(claim.lease) || row.generation != claim.generation {
        return Err(P.OwnershipLost);
      }
      if claim.operationKey !in attempts || claim.attemptNo < 1 || |attempts[claim.operationKey]| < claim.attemptNo {
        return Err(P.OwnershipLost);
      }
      return Ok(attempts[claim.operationKey][claim.attemptNo - 1]);
    }

    method MarkDispatched(claim: P.Claim) returns (r: Result<(), P.TxError>)
      modifies this
      ensures var tx := P.MarkDispatched(old(Db()), claim);
              && (r.Ok? <==> tx.Ok?) && (r.Err? ==> r.error == tx.error)
              && Db() == (if tx.Ok? then tx.value else old(Db()))
    {
      var status := LockOwned(claim);
      if status.Err? { return Err(status.error); }
      if status.value != P.Created { return Err(P.StateInvalid); }
      attempts := attempts[claim.operationKey := attempts[claim.operationKey][claim.attemptNo - 1 := P.Dispatched]];
      return Ok(());
    }

    method Finalize(claim: P.Claim, input: P.FinalInput, id: Id, now: Instant) returns (r: Result<(), P.TxError>)
      modifies this
      ensures var tx := P.Finalize(old(Db()), claim, input, id, now);
              && (r.Ok? <==> tx.Ok?) && (r.Err? ==> r.error == tx.error)
              && Db() == (if tx.Ok? then tx.value else old(Db()))
    {
      var handlers := HandlerKeys(input.handlerKeys);
      if input.outcome != Succeeded && |handlers| > 0 { return Err(P.StateInvalid); }
      if (input.outcome == Succeeded || input.outcome == NotApplied) && !input.responseReceived {
        return Err(P.StateInvalid);
      }
      var status := LockOwned(claim);
      if status.Err? { return Err(status.error); }
      if status.value != P.Dispatched { return Err(P.StateInvalid); }
      if id in evidences { return Err(P.DuplicateId); }

      var key := claim.operationKey;
      evidences := evidences[id := P.FinalEvidence(claim, input, now)];
      var next := if input.responseReceived then P.ResponseReceived else P.ConnectionLost;
      attempts := attempts[key := attempts[key][claim.attemptNo - 1 := next]];
      jobs := CreateJobs(jobs, id, handlers, now);
      commands := commands[key := P.Release(commands[key], P.Closed(input.outcome))];
      return Ok(());
    }

    method FailBeforeDispatch(claim: P.Claim, id: Id, now: Instant) returns (r: Result<(), P.TxError>)
      modifies this
      ensures var tx := P.FailBeforeDispatch(old(Db()), claim, id, now);
              && (r.Ok? <==> tx.Ok?) && (r.Err? ==> r.error == tx.error)
              && Db() == (if tx.Ok? then tx.value else old(Db()))
    {
      var status := LockOwned(claim);
      if status.Err? { return Err(status.error); }
      if status.value != P.Created { return Err(P.StateInvalid); }
      if id in evidences { return Err(P.DuplicateId); }
      var key := claim.operationKey;
      attempts := attempts[key := attempts[key][claim.attemptNo - 1 := P.LocalFailure]];
      evidences := evidences[id := P.LocalFailureEvidence(claim, now)];
      commands := commands[key := P.Release(commands[key], P.Closed(FailedLocal))];
      NoHandlersNoJobs(old(Db()).tables, id, P.LocalFailureEvidence(claim, now));
      return Ok(());
    }

    /** The expired commands not locked elsewhere, earliest lease first, at most `limit` of them. */
    method SelectExpired(now: Instant, locked: set<string>, limit: nat) returns (batch: seq<string>)
      ensures Distinct(batch) && |batch| <= limit
      ensures forall i :: 0 <= i < |batch| ==> P.Expired(Db(), batch[i], now) && batch[i] !in locked
      ensures forall i, j :: 0 <= i < j < |batch| ==> LeaseEnd(commands, batch[i]) <= LeaseEnd(commands, batch[j])
      ensures forall i :: 0 <= i < |batch| ==> batch[i] in commands && commands[batch[i]].lockedUntil == Some(LeaseEnd(commands, batch[i]))
      ensures forall key :: P.Expired(Db(), key, now) && key !in locked && key !in batch ==>
                |batch| == limit && forall i :: 0 <= i < |batch| ==> LeaseEnd(commands, batch[i]) <= LeaseEnd(commands, key)
    {
      var candidates := set key | key in commands && P.Expired(Db(), key, now) && key !in locked;
      batch := [];
      while candidates != {} && |batch| < limit
        invariant Distinct(batch) && |batch| <= limit
        invariant forall i :: 0 <= i < |batch| ==> P.Expired(Db(), batch[i], now) && batch[i] !in locked
        invariant forall i, j :: 0 <= i < j < |batch| ==> LeaseEnd(commands, batch[i]) <= LeaseEnd(commands, batch[j])
        invariant forall key :: key in candidates <==> P.Expired(Db(), key, now) && key !in locked && key !in batch
        invariant forall i, key :: 0 <= i < |batch| && key in candidates ==>
                    LeaseEnd(commands, batch[i]) <= LeaseEnd(commands, key)
        decreases candidates
      {
        LeastExists(commands, candidates, (c: P.Command) => if c.lockedUntil.Some? then c.lockedUntil.value else 0);
        var key :| key in candidates && forall other :: other in candidates ==>
          LeaseEnd(commands, key) <= LeaseEnd(commands, other);
        batch := batch + [key];
        candidates := candidates - {key};
      }
    }

    /** One turn of the recovery loop: true when the command was requeued. */
    method RecoverCandidate(key: string, id: Id, now: Instant) returns (r: Result<bool, P.TxError>)
      requires P.Expired(Db(), key, now)
      modifies this
      ensures var tx := P.RecoverOne(old(Db()), key, id, now);
              && (r.Ok? <==> tx.Ok?) && (r.Ok? ==> r.value == P.Requeues(old(Db()), key))
              && Db() == (if tx.Ok? then tx.value else old(Db()))
    {
      var rows := if key in attempts then attempts[key] else [];
      if rows == [] || rows[|rows| - 1] == P.Created || rows[|rows| - 1] == P.LocalFailure {
        if rows != [] && rows[|rows| - 1] == P.Created {
          attempts := attempts[key := rows[|rows| - 1 := P.LocalFailure]];
        }
        commands := commands[key := P.Release(commands[key], P.Waiting)];
        return Ok(true);
      }
      if id in evidences { return Err(P.DuplicateId); }
      attempts := attempts[key := rows[|rows| - 1 := P.ConnectionLost]];
      evidences := evidences[id := P.ExpiryEvidence(key, |rows|, now)];
      commands := commands[key := P.Release(commands[key], P.Closed(Ambiguous))];
      NoHandlersNoJobs(old(Db()).tables, id, P.ExpiryEvidence(key, |rows|, now));
      return Ok(false);
    }

    /** The recovery transaction: counts what it requeued and what it closed as ambiguous. */
    method RecoverExpired(now: Instant, locked: set<string>, limit: int, ids: seq<Id>)
      returns (r: Result<(nat, nat), P.TxError>, batch: seq<string>)
      requires |ids| >= 100
      modifies this
      ensures |batch| <= Max(1, Min(100, limit)) && Distinct(batch)
      ensures forall i :: 0 <= i < |batch| ==> P.Expired(old(Db()), batch[i], now) && batch[i] !in locked
      ensures forall key :: P.Expired(old(Db()), key, now) && key !in locked && key !in batch ==> |batch| == Max(1, Min(100, limit))
      ensures var tx := RecoverAll(old(Db()), batch, ids[..|batch|], now);
              (r.Ok? <==> tx.Ok?) && Db() == (if tx.Ok? then tx.value else old(Db()))
      ensures r.Ok? ==>
        && |batch| == r.value.0 + r.value.1
        && r.value.0 == WithStatus(Db(), batch, P.Waiting)
        && r.value.1 == WithStatus(Db(), batch, P.Closed(Ambiguous))
    {
      hide P.RecoverOne, P.Expired;
      var savedCommands, savedAttempts, savedEvidences, savedJobs := commands, attempts, evidences, jobs;
      batch := SelectExpired(now, locked, Max(1, Min(100, limit)));
      var requeued, ambiguous := 0, 0;
      var i := 0;
      while i < |batch|
        invariant 0 <= i <= |batch|
        invariant RecoverAll(old(Db()), batch[..i], ids[..i], now) == Ok(Db())
        invariant requeued == WithStatus(Db(), batch[..i], P.Waiting)
        invariant ambiguous == WithStatus(Db(), batch[..i], P.Closed(Ambiguous))
        invariant requeued + ambiguous == i
      {
        RecoverTurn(old(Db()), batch, ids, i, Db(), now);
        var wentBack := RecoverCandidate(batch[i], ids[i], now);
        if wentBack.Err? {
          RecoverAllStops(old(Db()), batch, ids[..|batch|], i + 1, now);
          commands, attempts, evidences, jobs := savedCommands, savedAttempts, savedEvidences, savedJobs;
          return Err(wentBack.error), batch;
        }
        if wentBack.value { requeued := requeued + 1; } else { ambiguous := ambiguous + 1; }
        i := i + 1;
      }
      assert batch[..i] == batch;
      return Ok((requeued, ambiguous)), batch;
    }
  }

  lemma {:induction false} RecoverAllStops(db: P.Db, batch: seq<string>, ids: seq<Id>, n: nat, now: Instant)
    requires n <= |batch| == |ids| && RecoverAll(db, batch[..n], ids[..n], now).Err?
    ensures RecoverAll(db, batch, ids, now).Err?
    decreases |batch|
  {
    if n == |batch| {
      assert batch[..n] == batch && ids[..n] == ids;
    } else {
      var m := |batch| - 1;
      assert batch[..m][..n] == batch[..n] && ids[..m][..n] == ids[..n];
      RecoverAllStops(db, batch[..m], ids[..m], n, now);
    }
  }
}
