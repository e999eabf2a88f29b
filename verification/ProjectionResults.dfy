/** What holds of every run of the projection protocol from empty tables. */
module ProjectionResults {
  import opened Common
  import opened EvidenceTables
  import opened ProjectionInvariant
  import opened ProjectionProtocol

  function EffectsFor(effects: seq<Effect>, key: JobKey): nat {
    if effects == [] then 0
    else EffectsFor(effects[..|effects| - 1], key) + (if effects[|effects| - 1].job == key then 1 else 0)
  }

  lemma {:induction false} DistinctEffectsCount(effects: seq<Effect>, key: JobKey)
    requires forall i, j :: 0 <= i < j < |effects| ==> effects[i].job != effects[j].job
    ensures EffectsFor(effects, key) <= 1
    ensures EffectsFor(effects, key) == 1 <==> exists i :: 0 <= i < |effects| && effects[i].job == key
  {
    if effects != [] {
      DistinctEffectsCount(effects[..|effects| - 1], key);
    }
  }

  /**
   Exactly once: over every run with expired leases, reclaims, failures and stale owners, a
   handler's effect commits at most once per evidence and handler, and the job is SUCCEEDED
   exactly when that effect and its operation key are committed.
   */
  lemma {:induction false} ExactlyOnce(actions: seq<Action>, key: JobKey)
    ensures var w := Run(EmptyWorld, actions);
            && EffectsFor(w.effects, key) <= 1
            && (EffectsFor(w.effects, key) == 1 <==> key in w.db.keys)
            && (key in w.db.keys <==> key in w.db.tables.jobs && w.db.tables.jobs[key].status == Done)
  {
    RunKeeps(EmptyWorld, actions);
    var w := Run(EmptyWorld, actions);
    DistinctEffectsCount(w.effects, key);
    if key in w.db.tables.jobs {
      assert JobOk(w.db, key);
    }
  }

  /** Every handler whose effect committed read its evidence as it was recorded, never a scrubbed row. */
  lemma {:induction false} HandlersReadOriginals(actions: seq<Action>, i: nat)
    requires i < |Run(EmptyWorld, actions).effects|
    ensures var w := Run(EmptyWorld, actions);
            var e := w.effects[i];
            e.job.evidenceId in w.original && e.seen == w.original[e.job.evidenceId] && e.seen.outcome == Succeeded
  {
    RunKeeps(EmptyWorld, actions);
    var w := Run(EmptyWorld, actions);
    var e := w.effects[i];
    assert JobOk(w.db, e.job);
    assert w.db.tables.evidences[e.job.evidenceId].outcome == w.original[e.job.evidenceId].outcome;
  }

  /** Within the protocol the replay branch of the operation key is never taken: an owner always runs its handler. */
  lemma {:induction false} OwnerAlwaysRunsHandler(actions: seq<Action>, claim: Claim, handlerSucceeds: bool)
    requires Owns(Run(EmptyWorld, actions).db, claim)
    ensures var db := Run(EmptyWorld, actions).db;
            RunsHandler(db, claim) && (Apply(db, claim, handlerSucceeds).Ok? <==> handlerSucceeds)
  {
    RunKeeps(EmptyWorld, actions);
    OwnerMeetsOriginal(Run(EmptyWorld, actions), claim);
  }

  /** Only the holder of the newest generation can change a job, and only while it is being processed. */
  lemma {:induction false} OnlyNewestGenerationActs(actions: seq<Action>, claim: Claim, handlerSucceeds: bool)
    requires var db := Run(EmptyWorld, actions).db;
             claim.job in db.tables.jobs
             && (db.tables.jobs[claim.job].generation != claim.generation || db.tables.jobs[claim.job].status != Processing)
    ensures var w := Run(EmptyWorld, actions);
            Step(w, DoApply(claim, handlerSucceeds)) == w && Step(w, DoMarkFailure(claim)) == w
  {
  }

  /** A claim once superseded stays powerless for the rest of the run. */
  lemma {:induction false} SupersededForever(actions: seq<Action>, more: seq<Action>, claim: Claim)
    requires var db := Run(EmptyWorld, actions).db;
             claim.job in db.tables.jobs && claim.generation < db.tables.jobs[claim.job].generation
    ensures !Owns(Run(Run(EmptyWorld, actions), more).db, claim)
  {
    RunKeeps(EmptyWorld, actions);
    RunKeeps(Run(EmptyWorld, actions), more);
  }

  // ---- scrubbing is safe, and repeated passes finish ----

  lemma EffectIffKey(w: World, key: JobKey)
    requires WorldOk(w)
    ensures EffectsFor(w.effects, key) == if key in w.db.keys then 1 else 0
  {
    DistinctEffectsCount(w.effects, key);
  }

  /** Evidence that differs from what was recorded is order-sheet evidence, minimized, with every job finished for good. */
  lemma {:induction false} ScrubIsSafe(actions: seq<Action>, more: seq<Action>, id: Id)
    requires var w := Run(EmptyWorld, actions);
             id in w.original && id in w.db.tables.evidences && w.db.tables.evidences[id] != w.original[id]
    ensures var w := Run(EmptyWorld, actions);
            var later := Run(w, more);
            && w.original[id].evidenceType == COUPANG_ORDERSHEET
            && w.db.tables.evidences[id].raw.None? && IsCurrentSummary(w.db.tables.evidences[id].normalized)
            && AllJobsDone(w.db.tables, id) && AllJobsDone(later.db.tables, id)
            && (forall key: JobKey :: key.evidenceId == id ==> EffectsFor(later.effects, key) == EffectsFor(w.effects, key))
  {
    RunKeeps(EmptyWorld, actions);
    var w := Run(EmptyWorld, actions);
    RunKeeps(w, more);
    var later := Run(w, more);
    assert AllJobsDone(later.db.tables, id);
    forall key: JobKey | key.evidenceId == id
      ensures EffectsFor(later.effects, key) == EffectsFor(w.effects, key)
    {
      EffectIffKey(w, key);
      EffectIffKey(later, key);
      if key in w.db.tables.jobs {
        assert JobOk(w.db, key) && JobOk(later.db, key);
      }
    }
  }
}
