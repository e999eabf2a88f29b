/** The projection and inbox services on their tables, one method per database transaction. */
module ProjectionService {
  import opened Common
  import opened EvidenceTables
  import B = ScrubBacklog
  import P = ProjectionProtocol

  /** The evidence an inbox payload becomes: what was validated, or why validation failed, as the storage policy keeps it. */
  function InboxRow(evidenceType: string, raw: string, validation: Result<Normalized, string>,
                    retainRaw: bool, minimize: bool, now: Instant): Evidence
  {
    var outcome := if validation.Ok? then Succeeded else FailedLocal;
    var result := if validation.Ok? then validation.value else ValidationFailure(validation.error);
    Evidence(None, evidenceType, outcome, if retainRaw then Some(raw) else None,
             if minimize then P.Minimized(outcome, result) else result, now)
  }

  /** A stored payload keeps its text and result word for word, and minimizing it at once is scrubbing it later. */
  lemma InboxRowKeeps(evidenceType: string, raw: string, validation: Result<Normalized, string>, now: Instant)
    ensures var row := InboxRow(evidenceType, raw, validation, true, false, now);
            && row == Evidence(None, evidenceType, if validation.Ok? then Succeeded else FailedLocal, Some(raw),
                               match validation case Ok(result) => result case Err(code) => ValidationFailure(code), now)
            && InboxRow(evidenceType, raw, validation, false, true, now) == P.Scrubbed(row)
  {
  }

  class Service {
    var evidences: map<Id, Evidence>
    var jobs: map<JobKey, Job>
    var keys: map<JobKey, JobKey>

    function Db(): P.Db
      reads this
    {
      P.Db(Tables(evidences, jobs), keys)
    }

    constructor ()
      ensures Db() == P.EmptyWorld.db
    {
      evidences, jobs, keys := map[], map[], map[];
    }

    /**
     Stores a received payload: valid payloads enqueue their projection jobs, invalid ones are
     kept as FAILED_LOCAL evidence without any job and reported to the caller.
     */
    method RecordInbox(id: Id, evidenceType: string, raw: string, validation: Result<Normalized, string>,
                       handlerKeys: seq<string>, retainRaw: bool, minimize: bool, now: Instant)
      returns (r: Result<(), string>)
      modifies this`evidences, this`jobs
      ensures var row := InboxRow(evidenceType, raw, validation, retainRaw, minimize, now);
              var tx := P.Record(old(Db()), id, row, HandlerKeys(handlerKeys));
              && Db() == (if tx.Ok? then tx.value else old(Db()))
              && (r.Ok? <==> tx.Ok? && validation.Ok?)
      ensures validation.Err? ==> jobs == old(jobs)
    {
      if id in evidences { return Err("DUPLICATE_ID"); }
      var row := InboxRow(evidenceType, raw, validation, retainRaw, minimize, now);
      evidences := evidences[id := row];
      if validation.Err? {
        NoHandlersNoJobs(old(Db()).tables, id, row);
        return Err(validation.error);
      }
      jobs := CreateJobs(jobs, id, HandlerKeys(handlerKeys), now);
      return Ok(());
    }

    method ClaimById(job: JobKey, token: Token, until: Instant, now: Instant) returns (r: Option<P.Claim>)
      modifies this`jobs
      ensures var tx := P.ClaimJob(old(Db()), job, token, until, now);
              && (r.Some? <==> tx.Ok?)
              && Db() == (if tx.Ok? then tx.value else old(Db()))
              && (r.Some? ==> r.value == P.Claim(job, token, Db().tables.jobs[job].generation))
    {
      if job !in jobs { return None; }
      var row := jobs[job];
      if row.status == Pending || row.status == Failed
         || (row.status == Processing && row.lockedUntil.Some? && row.lockedUntil.value <= now)
      {
        jobs := jobs[job := row.(status := Processing, attemptCount := row.attemptCount + 1, lease := Some(token),
                                 generation := row.generation + 1, lockedUntil := Some(until))];
        return Some(P.Claim(job, token, row.generation + 1));
      }
      return None;
    }

    predicate Candidate(job: JobKey, handlerKeys: seq<string>, locked: set<JobKey>, now: Instant)
      reads this
    {
      P.Claimable(Db(), job, now) && job !in locked && (handlerKeys != [] ==> job.handlerKey in handlerKeys)
    }

    /** Takes the oldest job that may be claimed, matches the handlers and is not locked elsewhere. */
    method ClaimNext(handlerKeys: seq<string>, locked: set<JobKey>, token: Token, until: Instant, now: Instant)
      returns (r: Option<P.Claim>)
      modifies this`jobs
      ensures r.None? <==> forall job :: job in old(jobs) ==> !old(Candidate(job, handlerKeys, locked, now))
      ensures r.None? ==> Db() == old(Db())
      ensures r.None? ==> forall job :: job in old(jobs) && job !in locked && (handlerKeys != [] ==> job.handlerKey in handlerKeys) ==>
                !P.Claimable(old(Db()), job, now)
      ensures r.Some? ==> r.value.job !in locked && (handlerKeys != [] ==> r.value.job.handlerKey in handlerKeys)
      ensures r.Some? ==>
        && old(Candidate(r.value.job, handlerKeys, locked, now))
        && (forall other :: other in old(jobs) && old(Candidate(other, handlerKeys, locked, now))
              ==> old(jobs)[r.value.job].createdAt <= old(jobs)[other].createdAt)
        && P.ClaimJob(old(Db()), r.value.job, token, until, now) == Ok(Db())
        && r.value == P.Claim(r.value.job, token, Db().tables.jobs[r.value.job].generation)
    {
      var candidates := set job | job in jobs && Candidate(job, handlerKeys, locked, now);
      if candidates == {} {
        assert forall job :: job in jobs && Candidate(job, handlerKeys, locked, now) ==> job in candidates;
        return None;
      }
      LeastExists(jobs, candidates, (j: Job) => j.createdAt);
      var job :| job in candidates && forall other :: other in candidates ==> jobs[job].createdAt <= jobs[other].createdAt;
      r := ClaimById(job, token, until, now);
    }

    method LockOwned(claim: P.Claim) returns (owned: bool)
      ensures owned == P.Owns(Db(), claim)
    {
      if claim.job !in jobs { return false; }
      var row := jobs[claim.job];
      return row.status == Processing && row.lease == Some(claim.lease) && row.generation == claim.generation;
    }

    /** The apply transaction; `ran` tells whether the handler ran. A handler that fails rolls everything back. */
    method Apply(claim: P.Claim, handlerSucceeds: bool) returns (r: Result<(), P.TxError>, ran: bool)
      modifies this
      ensures var tx := P.Apply(old(Db()), claim, handlerSucceeds);
              && (r.Ok? <==> tx.Ok?) && (r.Err? ==> r.error == tx.error)
              && Db() == (if tx.Ok? then tx.value else old(Db()))
      ensures r.Ok? ==> (ran <==> P.RunsHandler(old(Db()), claim))
    {
      ran := false;
      var savedKeys := keys;
      var owned := LockOwned(claim);
      if !owned || claim.job.evidenceId !in evidences { return Err(P.OwnershipLost), ran; }
      var reserved := claim.job !in keys;
      if reserved {
        keys := keys[claim.job := claim.job];
      }
      if keys[claim.job] != claim.job { return Err(P.KeyConflict), ran; }
      if reserved {
        ran := true;
        if !handlerSucceeds {
          keys := savedKeys;
          return Err(P.HandlerFailed), ran;
        }
      }
      jobs := jobs[claim.job := jobs[claim.job].(status := Done, lease := None, lockedUntil := None)];
      return Ok(()), ran;
    }

    method MarkFailure(claim: P.Claim) returns (r: Result<(), P.TxError>)
      modifies this`jobs
      ensures var tx := P.MarkFailure(old(Db()), claim);
              && (r.Ok? <==> tx.Ok?) && (r.Err? ==> r.error == tx.error)
              && Db() == (if tx.Ok? then tx.value else old(Db()))
    {
      var owned := LockOwned(claim);
      if !owned { return Err(P.OwnershipLost); }
      jobs := jobs[claim.job := jobs[claim.job].(status := Failed, lease := None, lockedUntil := None)];
      return Ok(());
    }

    /** The scrub transaction over a batch selected earlier; rows that are no longer eligible are skipped. */
    method Scrub(candidates: seq<Id>) returns (changed: nat, skipped: nat)
      modifies this`evidences
      ensures Db().tables == B.ScrubAll(old(Db()).tables, candidates)
      ensures changed + skipped == |candidates|
      ensures changed == |B.EligibleSet(old(Db()).tables)| - |B.EligibleSet(Db().tables)|
    {
      changed, skipped := 0, 0;
      var i := 0;
      while i < |candidates|
        invariant 0 <= i <= |candidates| && changed + skipped == i
        invariant Db().tables == B.ScrubAll(old(Db()).tables, candidates[..i])
        invariant changed == |B.EligibleSet(old(Db()).tables)| - |B.EligibleSet(Db().tables)|
      {
        var id := candidates[i];
        ghost var before := Db().tables;
        B.ScrubOneShrinks(before, id);
        assert candidates[..i + 1][..i] == candidates[..i];
        var openJobs := set j | j in jobs && j.evidenceId == id && jobs[j].status != Done;
        if id !in evidences
           || evidences[id].evidenceType != P.COUPANG_ORDERSHEET
           || openJobs != {}
           || (evidences[id].raw.None? && P.IsCurrentSummary(evidences[id].normalized))
        {
          SkippedIsIneligible(before, id, openJobs);
          skipped := skipped + 1;
        } else {
          assert forall j :: j in jobs && j.evidenceId == id && jobs[j].status != Done ==> j in openJobs;
          assert P.Eligible(before, id);
          var current := evidences[id];
          evidences := evidences[id := current.(raw := None, normalized := P.Minimized(current.outcome, current.normalized))];
          assert id in B.EligibleSet(before);
          changed := changed + 1;
        }
        i := i + 1;
      }
      assert candidates[..i] == candidates;
    }
  }

  lemma SkippedIsIneligible(t: Tables, id: Id, openJobs: set<JobKey>)
    requires openJobs == set j | j in t.jobs && j.evidenceId == id && t.jobs[j].status != Done
    requires id !in t.evidences || t.evidences[id].evidenceType != P.COUPANG_ORDERSHEET || openJobs != {}
             || (t.evidences[id].raw.None? && P.IsCurrentSummary(t.evidences[id].normalized))
    ensures !P.Eligible(t, id) && P.ScrubOne(t, id) == t && B.EligibleSet(t) - {id} == B.EligibleSet(t)
  {
    if openJobs != {} {
      var j :| j in openJobs;
    }
  }
}
