/**
 How far a projection job gets: it is made for its handler when evidence succeeds, a lease protects
 its holder, no unfinished job is stuck, and scrubbing leaves what it should of the evidence.
 */
module ProjectionAnswers {
  import opened Common
  import opened EvidenceTables
  import opened ProjectionInvariant
  import opened ProjectionProtocol
  import opened ProjectionResults

  // ---- no job is stuck ----

  /** The claim a claim transaction gives out. */
  function ClaimOf(db: Db, job: JobKey, token: Token): Claim
    requires job in db.tables.jobs
  {
    Claim(job, token, db.tables.jobs[job].generation + 1)
  }

  lemma Claims(db: Db, job: JobKey, token: Token, until: Instant, now: Instant)
    requires DbOk(db) && job in db.tables.jobs
    ensures var j := db.tables.jobs[job]; var tx := ClaimJob(db, job, token, until, now);
            && (tx.Ok? <==> j.status != Done && (j.status == Processing ==> j.lockedUntil.Some? && now >= j.lockedUntil.value))
            && (j.status == Processing ==> j.lockedUntil.Some?)
            && (tx.Ok? ==> Owns(tx.value, ClaimOf(db, job, token)) && tx.value.tables.jobs[job].lockedUntil == Some(until)
                           && tx.value.tables.jobs[job].attemptCount == j.attemptCount + 1)
  {
    assert JobOk(db, job);
  }

  /**
   No unfinished job is stuck. In every reachable state a job that is not SUCCEEDED can be claimed at
   once when it waits or has failed, and from the end of the lease when it is held, and no sooner; a
   finished one never again. Whoever claims it and whose handler succeeds finishes it with its one effect.
   */
  lemma {:induction false} NoJobIsStuck(actions: seq<Action>, job: JobKey, token: Token, until: Instant, now: Instant)
    requires job in Run(EmptyWorld, actions).db.tables.jobs
    ensures var w := Run(EmptyWorld, actions); var j := w.db.tables.jobs[job]; var claim := ClaimOf(w.db, job, token);
            && (ClaimJob(w.db, job, token, until, now).Ok? <==>
                  || j.status == Pending || j.status == Failed
                  || (j.status == Processing && j.lockedUntil.Some? && now >= j.lockedUntil.value))
            && (j.status == Processing ==> j.lockedUntil.Some?)
            && (ClaimJob(w.db, job, token, until, now).Ok? ==>
                  var next := Step(Step(w, DoClaim(job, token, until, now)), DoApply(claim, true));
                  && job in next.db.tables.jobs && next.db.tables.jobs[job].status == Done
                  && next.effects == w.effects + [Effect(job, w.db.tables.evidences[job.evidenceId])]
                  && EffectsFor(next.effects, job) == 1)
  {
    RunKeeps(EmptyWorld, actions);
    var w := Run(EmptyWorld, actions);
    Claims(w.db, job, token, until, now);
    assert JobOk(w.db, job);
    if ClaimJob(w.db, job, token, until, now).Ok? {
      ClaimedRuns(w, job, token, until, now);
    }
  }

  lemma ClaimedApplies(db: Db, job: JobKey, token: Token, until: Instant, now: Instant)
    requires DbOk(db) && ClaimJob(db, job, token, until, now).Ok?
    ensures var claim := ClaimOf(db, job, token); var mid := ClaimJob(db, job, token, until, now).value;
            && mid.tables.jobs[job].generation == claim.generation && mid.tables.evidences == db.tables.evidences
            && RunsHandler(mid, claim) && job.evidenceId in db.tables.evidences
            && var tx := Apply(mid, claim, true);
               tx.Ok? && job in tx.value.tables.jobs && tx.value.tables.jobs[job].status == Done && job in tx.value.keys
  {
    assert JobOk(db, job);
  }

  lemma ClaimedRuns(w: World, job: JobKey, token: Token, until: Instant, now: Instant)
    requires WorldOk(w) && ClaimJob(w.db, job, token, until, now).Ok?
    ensures var claim := ClaimOf(w.db, job, token); var next := Step(Step(w, DoClaim(job, token, until, now)), DoApply(claim, true));
            && job.evidenceId in w.db.tables.evidences
            && job in next.db.tables.jobs && next.db.tables.jobs[job].status == Done
            && next.effects == w.effects + [Effect(job, w.db.tables.evidences[job.evidenceId])]
            && EffectsFor(next.effects, job) == 1
  {
    var claim := ClaimOf(w.db, job, token);
    ClaimedApplies(w.db, job, token, until, now);
    ClaimKeeps(w, job, token, until, now);
    var mid := Step(w, DoClaim(job, token, until, now));
    MidOf(w, job, token, until, now);
    ApplyKeeps(mid, claim, true);
    hide WorldOk, Evolves, ClaimJob, Apply, RunsHandler, EffectsFor, ClaimOf, Step;
    EffectOf(mid, claim);
    EffectIffKey(Step(mid, DoApply(claim, true)), job);
  }

  lemma MidOf(w: World, job: JobKey, token: Token, until: Instant, now: Instant)
    requires ClaimJob(w.db, job, token, until, now).Ok?
    ensures var mid := Step(w, DoClaim(job, token, until, now));
            mid.db == ClaimJob(w.db, job, token, until, now).value && ClaimOf(w.db, job, token) in mid.issued && mid.effects == w.effects
  {
  }

  lemma EffectOf(w: World, claim: Claim)
    requires claim in w.issued && RunsHandler(w.db, claim) && Apply(w.db, claim, true).Ok?
    ensures var next := Step(w, DoApply(claim, true));
            next.db == Apply(w.db, claim, true).value && next.effects == w.effects + [Effect(claim.job, w.db.tables.evidences[claim.job.evidenceId])]
  {
    hide Apply;
  }

  /** A handler that fails leaves no trace but a job that can be claimed again at once. */
  lemma {:induction false} FailureIsRetried(actions: seq<Action>, claim: Claim, token: Token, until: Instant, now: Instant)
    requires Owns(Run(EmptyWorld, actions).db, claim)
    ensures var w := Run(EmptyWorld, actions);
            && Apply(w.db, claim, false) == Err(HandlerFailed)
            && var tx := MarkFailure(w.db, claim);
               && tx.Ok? && tx.value.keys == w.db.keys && tx.value.tables.evidences == w.db.tables.evidences
               && claim.job in tx.value.tables.jobs && tx.value.tables.jobs[claim.job].status == Failed
               && tx.value.tables.jobs[claim.job].lease == None
               && (forall other :: other in w.db.tables.jobs && other != claim.job ==> other in tx.value.tables.jobs && tx.value.tables.jobs[other] == w.db.tables.jobs[other])
               && ClaimJob(tx.value, claim.job, token, until, now).Ok?
  {
    RunKeeps(EmptyWorld, actions);
    OwnerMeetsOriginal(Run(EmptyWorld, actions), claim);
  }

  // ---- a lease protects its holder until it ends ----

  predicate ActsUnder(a: Action, claim: Claim) {
    (a.DoApply? || a.DoMarkFailure?) && a.claim == claim
  }

  predicate HeldUntil(db: Db, claim: Claim, until: Instant) {
    Owns(db, claim) && db.tables.jobs[claim.job].lockedUntil == Some(until)
  }

  lemma StepHeld(w: World, a: Action, claim: Claim, until: Instant)
    requires WorldOk(w) && HeldUntil(w.db, claim, until) && !ActsUnder(a, claim)
    requires a.DoClaim? && a.job == claim.job ==> a.now < until
    ensures HeldUntil(Step(w, a).db, claim, until)
  {
    assert JobOk(w.db, claim.job);
    hide EffectsOk, ContentOk;
  }

  /** Until the lease of a claim ends, nobody else gets the job and nothing others do changes it. */
  lemma {:induction false} LeaseProtects(w: World, more: seq<Action>, claim: Claim, until: Instant)
    requires WorldOk(w) && HeldUntil(w.db, claim, until)
    requires forall i :: 0 <= i < |more| ==> !ActsUnder(more[i], claim) && (more[i].DoClaim? && more[i].job == claim.job ==> more[i].now < until)
    ensures Owns(Run(w, more).db, claim)
    decreases |more|
  {
    if more != [] {
      StepKeeps(w, more[0]);
      StepHeld(w, more[0], claim, until);
      hide WorldOk, HeldUntil, Step;
      LeaseProtects(Step(w, more[0]), more[1..], claim, until);
    }
  }

  /** So from every reachable state. */
  lemma {:induction false} ClaimIsProtected(actions: seq<Action>, job: JobKey, token: Token, until: Instant, now: Instant, more: seq<Action>)
    requires ClaimJob(Run(EmptyWorld, actions).db, job, token, until, now).Ok?
    requires var claim := ClaimOf(Run(EmptyWorld, actions).db, job, token);
             forall i :: 0 <= i < |more| ==> !ActsUnder(more[i], claim) && (more[i].DoClaim? && more[i].job == job ==> more[i].now < until)
    ensures var w := Run(EmptyWorld, actions); Owns(Run(Step(w, DoClaim(job, token, until, now)), more).db, ClaimOf(w.db, job, token))
  {
    RunKeeps(EmptyWorld, actions);
    hide Run, EffectsOk, ContentOk, Evolves;
    var w := Run(EmptyWorld, actions);
    ClaimKeeps(w, job, token, until, now);
    LeaseProtects(Step(w, DoClaim(job, token, until, now)), more, ClaimOf(w.db, job, token), until);
  }

  // ---- which jobs there are ----

  /** The recording that made this evidence, with its handlers. */
  function Recorded(actions: seq<Action>, id: Id): Option<(Evidence, seq<string>)> {
    if actions == [] then None
    else if actions[0].DoRecord? && actions[0].id == id then Some((actions[0].row, actions[0].handlers))
    else Recorded(actions[1..], id)
  }

  /** The jobs of this evidence are those of its handlers when it succeeded, and none otherwise. */
  ghost predicate JobsMatch(w: World, id: Id, recorded: Option<(Evidence, seq<string>)>) {
    match recorded
    case None => id !in w.original && forall h :: JobKey(id, h) !in w.db.tables.jobs
    case Some((row, handlers)) =>
      && id in w.original && w.original[id] == row
      && forall h :: JobKey(id, h) in w.db.tables.jobs <==> row.outcome == Succeeded && h in handlers
  }

  lemma NoJobsWithout(db: Db, id: Id)
    requires DbOk(db) && id !in db.tables.evidences
    ensures forall h :: JobKey(id, h) !in db.tables.jobs
  {
    assert forall j :: j in db.tables.jobs ==> JobOk(db, j);
  }

  lemma StepMatches(w: World, a: Action, id: Id)
    requires WorldOk(w) && id !in w.original
    ensures JobsMatch(Step(w, a), id, Recorded([a], id))
  {
    assert [a][1..] == [];
    NoJobsWithout(w.db, id);
    hide EffectsOk, ContentOk;
  }

  lemma {:induction false} MatchFrom(w: World, actions: seq<Action>, id: Id, recorded: Option<(Evidence, seq<string>)>)
    requires WorldOk(w) && JobsMatch(w, id, recorded)
    ensures JobsMatch(Run(w, actions), id, if recorded.Some? then recorded else Recorded(actions, id))
    decreases |actions|
  {
    if recorded.Some? {
      RunKeeps(w, actions);
    } else if actions != [] {
      StepKeeps(w, actions[0]);
      StepMatches(w, actions[0], id);
      assert [actions[0]][1..] == [];
      hide WorldOk, Step, JobsMatch;
      MatchFrom(Step(w, actions[0]), actions[1..], id, Recorded([actions[0]], id));
    }
  }

  /** In every run evidence is kept as it was first recorded, and its jobs are those of its handlers if it succeeded. */
  lemma {:induction false} JobsAreTheHandlers(actions: seq<Action>, id: Id)
    ensures JobsMatch(Run(EmptyWorld, actions), id, Recorded(actions, id))
  {
    MatchFrom(EmptyWorld, actions, id, None);
  }

  // ---- what scrubbing leaves ----

  /** A page of orders leaves the number of its rows and whether another followed; a failed reading leaves its code, cut at 128 characters. */
  function SummaryOf(e: Evidence): Normalized {
    if e.outcome == Succeeded then
      match e.normalized
      case OrderPage(orders, nextToken) => PageSummary(|orders|, nextToken != "")
      case _ => PageSummary(0, false)
    else
      match e.normalized
      case ValidationFailure(code) => FailureSummary(if |code| <= 128 then code else code[..128])
      case FailureSummary(code) => FailureSummary(if |code| <= 128 then code else code[..128])
      case _ => FailureSummary("VALIDATION_FAILED")
  }

  lemma CodeCut(code: string)
    ensures code[..Min(|code|, 128)] == if |code| <= 128 then code else code[..128]
  {
  }

  lemma ScrubbedIs(e: Evidence)
    ensures Scrubbed(e) == Evidence(e.source, e.evidenceType, e.outcome, None, SummaryOf(e), e.createdAt)
  {
    match e.normalized
    case ValidationFailure(code) => CodeCut(code);
    case FailureSummary(code) => CodeCut(code);
    case _ =>
  }

  /**
   However often scrubbing runs, a row that differs from what was recorded has lost its payload and kept
   everything else: source, type, outcome, time, and of the result the summary of the recorded one.
   */
  lemma {:induction false} ScrubKeepsTheSummary(actions: seq<Action>, id: Id)
    requires var w := Run(EmptyWorld, actions); id in w.original && id in w.db.tables.evidences && w.db.tables.evidences[id] != w.original[id]
    ensures var w := Run(EmptyWorld, actions); var e := w.original[id];
            w.db.tables.evidences[id] == Evidence(e.source, e.evidenceType, e.outcome, None, SummaryOf(e), e.createdAt)
  {
    RunKeeps(EmptyWorld, actions);
    ScrubbedIs(Run(EmptyWorld, actions).original[id]);
  }

  /** An order sheet whose payload or orders are still there loses them by scrubbing exactly when all its jobs are finished. */
  lemma FinishedIsScrubbed(w: World, id: Id)
    requires id in w.db.tables.evidences && w.db.tables.evidences[id].evidenceType == COUPANG_ORDERSHEET
    requires w.db.tables.evidences[id].raw.Some? || w.db.tables.evidences[id].normalized.OrderPage?
    ensures var before, after := w.db.tables, Step(w, DoScrub(id)).db.tables;
            && after.jobs == before.jobs && id in after.evidences
            && if forall j :: j in before.jobs && j.evidenceId == id ==> before.jobs[j].status == Done
               then after.evidences[id].raw.None? && !after.evidences[id].normalized.OrderPage?
               else after == before
  {
    var before, after := w.db.tables, Step(w, DoScrub(id)).db.tables;
    assert Eligible(before, id) <==> AllJobsDone(before, id);
    assert after == ScrubOne(before, id);
    if AllJobsDone(before, id) {
      assert after.evidences[id] == Scrubbed(before.evidences[id]);
    }
  }
}
