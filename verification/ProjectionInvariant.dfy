/** What every step of the projection protocol keeps. */
module ProjectionInvariant {
  import opened Common
  import opened EvidenceTables
  import opened ProjectionProtocol

  predicate JobOk(db: Db, key: JobKey)
    requires key in db.tables.jobs
  {
    var j := db.tables.jobs[key];
    && key.evidenceId in db.tables.evidences
    && db.tables.evidences[key.evidenceId].outcome == Succeeded
    && (j.status == Done <==> key in db.keys)
    && (j.status == Processing <==> j.lease.Some?)
    && (j.status == Processing <==> j.lockedUntil.Some?)
    && j.attemptCount == j.generation
  }

  ghost predicate DbOk(db: Db) {
    && (forall key :: key in db.tables.jobs ==> JobOk(db, key))
    && (forall key :: key in db.keys ==> key in db.tables.jobs && db.keys[key] == key)
  }

  ghost predicate ContentOk(db: Db, original: map<Id, Evidence>) {
    && original.Keys == db.tables.evidences.Keys
    && (forall id :: id in original ==>
          db.tables.evidences[id] == original[id]
          || (AllJobsDone(db.tables, id) && original[id].evidenceType == COUPANG_ORDERSHEET
              && db.tables.evidences[id] == Scrubbed(original[id])))
  }

  ghost predicate EffectsOk(db: Db, effects: seq<Effect>, original: map<Id, Evidence>) {
    && (forall i, j :: 0 <= i < j < |effects| ==> effects[i].job != effects[j].job)
    && (forall i :: 0 <= i < |effects| ==> effects[i].job in db.keys)
    && (forall i :: 0 <= i < |effects| ==>
          effects[i].job.evidenceId in original && effects[i].seen == original[effects[i].job.evidenceId])
    && (forall key :: key in db.keys ==> exists i :: 0 <= i < |effects| && effects[i].job == key)
  }

  ghost predicate WorldOk(w: World) {
    && DbOk(w.db)
    && ContentOk(w.db, w.original)
    && EffectsOk(w.db, w.effects, w.original)
    && (forall c :: c in w.issued ==> c.job in w.db.tables.jobs && 1 <= c.generation <= w.db.tables.jobs[c.job].generation)
  }

  /** Nothing is taken back: an evidence's job set is fixed, done jobs stay done, generations only grow. */
  ghost predicate Evolves(a: World, b: World) {
    && (forall id :: id in a.original ==> id in b.original && b.original[id] == a.original[id])
    && (forall key: JobKey :: key.evidenceId in a.original ==> (key in a.db.tables.jobs <==> key in b.db.tables.jobs))
    && (forall key :: key in a.db.tables.jobs ==>
          && key in b.db.tables.jobs
          && a.db.tables.jobs[key].generation <= b.db.tables.jobs[key].generation
          && (a.db.tables.jobs[key].status == Done ==> b.db.tables.jobs[key] == a.db.tables.jobs[key]))
    && a.effects <= b.effects
  }

  // ---- preservation, one transaction at a time ----

  lemma RecordKeepsDb(db: Db, id: Id, row: Evidence, handlers: seq<string>)
    requires DbOk(db) && Record(db, id, row, handlers).Ok?
    ensures DbOk(Record(db, id, row, handlers).value)
  {
    var next := Record(db, id, row, handlers).value;
    forall key | key in next.tables.jobs
      ensures JobOk(next, key)
    {
      if key in db.tables.jobs {
        assert JobOk(db, key);
      }
    }
  }

  lemma RecordKeepsContent(db: Db, id: Id, row: Evidence, handlers: seq<string>, original: map<Id, Evidence>)
    requires ContentOk(db, original) && Record(db, id, row, handlers).Ok?
    ensures ContentOk(Record(db, id, row, handlers).value, original[id := row])
  {
    var next := Record(db, id, row, handlers).value;
    forall other | other in original
      ensures AllJobsDone(db.tables, other) ==> AllJobsDone(next.tables, other)
    {
    }
  }

  lemma RecordKeeps(w: World, id: Id, row: Evidence, handlers: seq<string>)
    requires WorldOk(w)
    ensures var next := Step(w, DoRecord(id, row, handlers)); WorldOk(next) && Evolves(w, next)
  {
    var tx := Record(w.db, id, row, handlers);
    if tx.Ok? {
      RecordKeepsDb(w.db, id, row, handlers);
      RecordKeepsContent(w.db, id, row, handlers, w.original);
      NewRowsOnly(w.db, id, row, handlers);
    }
  }

  lemma NewRowsOnly(db: Db, id: Id, row: Evidence, handlers: seq<string>)
    requires DbOk(db) && Record(db, id, row, handlers).Ok?
    ensures var next := Record(db, id, row, handlers).value;
            && next.keys == db.keys
            && (forall key: JobKey :: key.evidenceId != id ==> (key in next.tables.jobs <==> key in db.tables.jobs))
            && (forall key :: key in db.tables.jobs ==> key in next.tables.jobs && next.tables.jobs[key] == db.tables.jobs[key])
  {
    assert forall key :: key in db.tables.jobs ==> JobOk(db, key);
  }

  /** A transaction that only rewrites one job row, keeping it consistent and its generation from falling. */
  lemma JobUpdateKeeps(db: Db, key: JobKey, j: Job, original: map<Id, Evidence>, effects: seq<Effect>)
    requires DbOk(db) && ContentOk(db, original) && EffectsOk(db, effects, original)
    requires key in db.tables.jobs && db.tables.jobs[key].status != Done && j.status != Done
    requires (j.status == Processing <==> j.lease.Some?) && (j.status == Processing <==> j.lockedUntil.Some?)
    requires j.attemptCount == j.generation
    ensures var next := SetJob(db, key, j);
            DbOk(next) && ContentOk(next, original) && EffectsOk(next, effects, original)
  {
    var next := SetJob(db, key, j);
    assert JobOk(db, key);
    forall k | k in next.tables.jobs
      ensures JobOk(next, k)
    {
      assert JobOk(db, k);
    }
    forall id | AllJobsDone(db.tables, id)
      ensures AllJobsDone(next.tables, id)
    {
    }
  }

  lemma ClaimKeeps(w: World, job: JobKey, token: Token, until: Instant, now: Instant)
    requires WorldOk(w)
    ensures var next := Step(w, DoClaim(job, token, until, now)); WorldOk(next) && Evolves(w, next)
  {
    if Claimable(w.db, job, now) {
      assert JobOk(w.db, job);
      JobUpdateKeeps(w.db, job, ClaimedJob(w.db.tables.jobs[job], token, until), w.original, w.effects);
    }
  }

  lemma FailureKeeps(w: World, claim: Claim)
    requires WorldOk(w)
    ensures var next := Step(w, DoMarkFailure(claim)); WorldOk(next) && Evolves(w, next)
  {
    if claim in w.issued && Owns(w.db, claim) {
      assert JobOk(w.db, claim.job);
      JobUpdateKeeps(w.db, claim.job, Released(w.db.tables.jobs[claim.job], Failed), w.original, w.effects);
      hide DbOk, ContentOk, EffectsOk;
    }
  }

  /** The owner of an unfinished job always meets a fresh operation key and the evidence as it was recorded. */
  lemma OwnerMeetsOriginal(w: World, claim: Claim)
    requires WorldOk(w) && Owns(w.db, claim)
    ensures RunsHandler(w.db, claim) && claim.job.evidenceId in w.original
    ensures w.db.tables.evidences[claim.job.evidenceId] == w.original[claim.job.evidenceId]
  {
    assert JobOk(w.db, claim.job);
  }

  lemma ApplyKeepsDb(db: Db, claim: Claim)
    requires DbOk(db) && Apply(db, claim, true).Ok?
    ensures DbOk(Apply(db, claim, true).value)
  {
    var next := Apply(db, claim, true).value;
    forall k | k in next.tables.jobs
      ensures JobOk(next, k)
    {
      assert JobOk(db, k);
    }
  }

  lemma ApplyKeepsContent(db: Db, claim: Claim, original: map<Id, Evidence>)
    requires ContentOk(db, original) && Apply(db, claim, true).Ok?
    ensures ContentOk(Apply(db, claim, true).value, original)
  {
    var next := Apply(db, claim, true).value;
    forall id | AllJobsDone(db.tables, id)
      ensures AllJobsDone(next.tables, id)
    {
    }
  }

  lemma ApplyKeepsEffects(db: Db, key: JobKey, next: Db, effects: seq<Effect>, original: map<Id, Evidence>, seen: Evidence)
    requires EffectsOk(db, effects, original) && key !in db.keys && next.keys == db.keys[key := key]
    requires key.evidenceId in original && seen == original[key.evidenceId]
    ensures EffectsOk(next, effects + [Effect(key, seen)], original)
  {
    var after := effects + [Effect(key, seen)];
    assert after[|effects|].job == key;
    forall k | k in next.keys
      ensures exists i :: 0 <= i < |after| && after[i].job == k
    {
      if k != key {
        var i :| 0 <= i < |effects| && effects[i].job == k;
        assert after[i].job == k;
      }
    }
  }

  lemma ApplyEvolves(w: World, claim: Claim, ok: bool)
    ensures Evolves(w, Step(w, DoApply(claim, ok)))
  {
  }

  lemma ApplyKeepsClaims(db: Db, claim: Claim, issued: set<Claim>)
    requires Apply(db, claim, true).Ok?
    requires forall c :: c in issued ==> c.job in db.tables.jobs && 1 <= c.generation <= db.tables.jobs[c.job].generation
    ensures var t := Apply(db, claim, true).value.tables;
            forall c :: c in issued ==> c.job in t.jobs && 1 <= c.generation <= t.jobs[c.job].generation
  {
  }

  lemma ApplyKeeps(w: World, claim: Claim, ok: bool)
    requires WorldOk(w)
    ensures var next := Step(w, DoApply(claim, ok)); WorldOk(next) && Evolves(w, next)
  {
    ApplyEvolves(w, claim, ok);
    var tx := Apply(w.db, claim, ok);
    if claim in w.issued && tx.Ok? {
      var next := Step(w, DoApply(claim, ok));
      OwnerMeetsOriginal(w, claim);
      var seen := w.db.tables.evidences[claim.job.evidenceId];
      assert tx == Apply(w.db, claim, true) && next.db == tx.value && next.issued == w.issued && next.original == w.original;
      assert next.effects == w.effects + [Effect(claim.job, seen)];
      ApplyKeepsDb(w.db, claim);
      ApplyKeepsContent(w.db, claim, w.original);
      ApplyKeepsClaims(w.db, claim, w.issued);
      ApplyKeepsEffects(w.db, claim.job, tx.value, w.effects, w.original, seen);
    }
  }

  lemma ScrubKeeps(w: World, id: Id)
    requires WorldOk(w)
    ensures var next := Step(w, DoScrub(id)); WorldOk(next) && Evolves(w, next)
  {
    var next := Step(w, DoScrub(id));
    if Eligible(w.db.tables, id) {
      forall k | k in next.db.tables.jobs
        ensures JobOk(next.db, k)
      {
        assert JobOk(w.db, k);
      }
      forall other | AllJobsDone(w.db.tables, other)
        ensures AllJobsDone(next.db.tables, other)
      {
      }
    }
  }

  lemma StepKeeps(w: World, a: Action)
    requires WorldOk(w)
    ensures WorldOk(Step(w, a)) && Evolves(w, Step(w, a))
  {
    match a
    case DoRecord(id, row, handlers) => RecordKeeps(w, id, row, handlers);
    case DoClaim(job, token, until, now) => ClaimKeeps(w, job, token, until, now);
    case DoApply(claim, ok) => ApplyKeeps(w, claim, ok);
    case DoMarkFailure(claim) => FailureKeeps(w, claim);
    case DoScrub(id) => ScrubKeeps(w, id);
  }

  lemma EvolvesTrans(a: World, b: World, c: World)
    requires Evolves(a, b) && Evolves(b, c)
    ensures Evolves(a, c)
  {
  }

  lemma {:induction false} RunKeeps(w: World, actions: seq<Action>)
    requires WorldOk(w)
    ensures WorldOk(Run(w, actions)) && Evolves(w, Run(w, actions))
    decreases |actions|
  {
    if actions != [] {
      var mid := Step(w, actions[0]);
      StepKeeps(w, actions[0]);
      RunKeeps(mid, actions[1..]);
      EvolvesTrans(w, mid, Run(mid, actions[1..]));
    }
  }
}
