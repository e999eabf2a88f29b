/**
 What one execution of a claimed command reports after the provider was called: the adapter's
 answer, its classification, or an exception, turned into the arguments of the finalization.
 */
module CommandExecution {
  import opened Common
  import opened EvidenceTables
  import opened CommandInvariant
  import opened CommandProtocol
  import Projection = ProjectionProtocol

  type AnswerOutcome = o: Outcome | o == Succeeded || o == NotApplied witness Succeeded

  type ErrorOutcome = o: Outcome | o == NotApplied || o == Ambiguous witness Ambiguous

  datatype Classified = Classified(outcome: AnswerOutcome, normalized: Normalized, handlerKeys: seq<string>)

  datatype ErrorVerdict = ErrorVerdict(outcome: ErrorOutcome, response: Option<string>)

  /** `Answer` without a classification is a classifier that threw; so is `Threw` without a verdict. */
  datatype DispatchResult =
    | Answer(raw: string, classified: Option<Classified>)
    | Threw(verdict: Option<ErrorVerdict>)

  function FinalInputOf(r: DispatchResult): FinalInput {
    match r
    case Answer(raw, None) => FinalInput(Ambiguous, true, Some(raw), NullResult, None, [])
    case Answer(raw, Some(c)) => FinalInput(c.outcome, true, Some(raw), c.normalized, None, c.handlerKeys)
    case Threw(verdict) =>
      var v := if verdict.Some? then verdict.value else ErrorVerdict(Ambiguous, None);
      var outcome: DispatchOutcome := if v.outcome == NotApplied && v.response.Some? then NotApplied else Ambiguous;
      FinalInput(outcome, v.response.Some?, v.response, NullResult, None, [])
  }

  /** The one answer the finalization refuses: "not applied" together with work to project. */
  predicate Contradictory(r: DispatchResult) {
    r.Answer? && r.classified.Some? && r.classified.value.outcome == NotApplied
    && exists h :: h in r.classified.value.handlerKeys && h != ""
  }

  lemma RefusedIffContradictory(r: DispatchResult)
    ensures FinalInputAllowed(FinalInputOf(r)) <==> !Contradictory(r)
  {
    var handlers := HandlerKeys(FinalInputOf(r).handlerKeys);
    if handlers != [] {
      assert handlers[0] in handlers;
    }
  }

  /** Success is only ever reported from a classified answer, and "not applied" only with a response in hand. */
  lemma OutcomeNeedsEvidence(r: DispatchResult)
    ensures FinalInputOf(r).outcome == Succeeded <==>
              r.Answer? && r.classified.Some? && r.classified.value.outcome == Succeeded
    ensures FinalInputOf(r).outcome == NotApplied ==> FinalInputOf(r).responseReceived && FinalInputOf(r).raw.Some?
  {
  }

  /**
   A command whose attempt went out always gets closed: by its owner with the reported
   outcome, or, when the owner's report is refused, by any recovery after the lease has run
   out, and then as ambiguous.
   */
  lemma DispatchedCommandCloses(db: Db, claim: Claim, r: DispatchResult, id: Id, now: Instant)
    requires DbOk(db) && ClaimOk(db, claim) && Owns(db, claim) && HasAttempt(db, claim)
    requires AttemptStatusOf(db, claim) == Dispatched && id !in db.tables.evidences
    ensures var key := claim.operationKey;
            if Contradictory(r) then
              && Finalize(db, claim, FinalInputOf(r), id, now) == Err(StateInvalid)
              && (Expired(db, key, now) ==>
                    var tx := RecoverOne(db, key, id, now);
                    tx.Ok? && tx.value.commands[key].status == Closed(Ambiguous))
            else
              var tx := Finalize(db, claim, FinalInputOf(r), id, now);
              tx.Ok? && tx.value.commands[key].status == Closed(FinalInputOf(r).outcome)
  {
    RefusedIffContradictory(r);
    OwnedIsNewest(db, claim);
  }

  /**
   Every transaction that closes a command records its evidence exactly as the projection
   protocol assumes, so that protocol's results hold of the jobs commands create; no other
   command transaction touches the evidence or the jobs.
   */
  lemma ClosingRecordsEvidence(db: Db, claim: Claim, input: FinalInput, id: Id, now: Instant, keys: map<JobKey, JobKey>)
    ensures var tx := Finalize(db, claim, input, id, now);
            tx.Ok? ==> Projection.Record(Projection.Db(db.tables, keys), id, FinalEvidence(claim, input, now), HandlerKeys(input.handlerKeys))
                       == Ok(Projection.Db(tx.value.tables, keys))
    ensures var tx := FailBeforeDispatch(db, claim, id, now);
            tx.Ok? ==> Projection.Record(Projection.Db(db.tables, keys), id, LocalFailureEvidence(claim, now), [])
                       == Ok(Projection.Db(tx.value.tables, keys))
    ensures var key := claim.operationKey;
            var tx := RecoverOne(db, key, id, now);
            tx.Ok? ==> if Requeues(db, key) then tx.value.tables == db.tables
                       else Projection.Record(Projection.Db(db.tables, keys), id, ExpiryEvidence(key, |Attempts(db, key)|, now), [])
                            == Ok(Projection.Db(tx.value.tables, keys))
    ensures var tx := MarkDispatched(db, claim); tx.Ok? ==> tx.value.tables == db.tables
  {
  }
}
