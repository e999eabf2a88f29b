/** What holds of every run of the command protocol from empty tables. */
module CommandResults {
  import opened Common
  import opened EvidenceTables
  import opened CommandProtocol
  import opened CommandInvariant

  function CallsFor(calls: seq<Claim>, key: string): nat {
    if calls == [] then 0 else CallsFor(calls[..|calls| - 1], key) + (if calls[|calls| - 1].operationKey == key then 1 else 0)
  }

  lemma {:induction false} DistinctCallsCount(calls: seq<Claim>, key: string)
    requires forall i, j :: 0 <= i < j < |calls| ==> calls[i].operationKey != calls[j].operationKey
    ensures CallsFor(calls, key) <= 1
    ensures CallsFor(calls, key) == 1 <==> exists i :: 0 <= i < |calls| && calls[i].operationKey == key
  {
    if calls != [] {
      DistinctCallsCount(calls[..|calls| - 1], key);
    }
  }

  /**
   The provider is called at most once per operation key, whatever the interleaving of
   claims, crashes, lease expiry, recovery and late workers; and a call that did happen is
   one whose attempt the tables record as gone out.
   */
  lemma {:induction false} AtMostOneCall(actions: seq<Action>, key: string)
    ensures var w := Run(EmptyWorld, actions);
            && CallsFor(w.calls, key) <= 1
            && (CallsFor(w.calls, key) == 1 ==>
                  exists i :: 0 <= i < |Attempts(w.db, key)| && WentOut(Attempts(w.db, key)[i]))
  {
    RunKeeps(EmptyWorld, actions);
    var w := Run(EmptyWorld, actions);
    DistinctCallsCount(w.calls, key);
    if CallsFor(w.calls, key) == 1 {
      var i :| 0 <= i < |w.calls| && w.calls[i].operationKey == key;
      assert Sent(w.db, w.calls[i]);
    }
  }

  /** At most one attempt of a command ever goes out, and it is the last one the command gets. */
  lemma {:induction false} AtMostOneDispatchedAttempt(actions: seq<Action>, key: string, i: nat)
    requires var a := Attempts(Run(EmptyWorld, actions).db, key); i < |a| && WentOut(a[i])
    ensures var w := Run(EmptyWorld, actions);
            i == |Attempts(w.db, key)| - 1 && key in w.db.commands && w.db.commands[key].status != Waiting
  {
    RunKeeps(EmptyWorld, actions);
    var w := Run(EmptyWorld, actions);
    assert CommandOk(w.db.commands[key], Attempts(w.db, key));
  }

  /** Once an attempt went out, no later action ever makes the command claimable again. */
  lemma {:induction false} NeverRequeuedAfterDispatch(actions: seq<Action>, more: seq<Action>, key: string, i: nat)
    requires var a := Attempts(Run(EmptyWorld, actions).db, key); i < |a| && WentOut(a[i])
    ensures var w := Run(Run(EmptyWorld, actions), more);
            key in w.db.commands && w.db.commands[key].status != Waiting && |Attempts(w.db, key)| == i + 1
  {
    RunKeeps(EmptyWorld, actions);
    var u := Run(EmptyWorld, actions);
    RunKeeps(u, more);
    var w := Run(u, more);
    assert KeyEvolves(u.db, w.db, key);
    assert CommandOk(w.db.commands[key], Attempts(w.db, key));
  }

  /** A command carries one evidence row if it is closed, with the command's outcome, and none otherwise. */
  lemma {:induction false} EvidenceAgreesWithState(actions: seq<Action>, key: string)
    requires key in Run(EmptyWorld, actions).db.commands
    ensures var db := Run(EmptyWorld, actions).db; EvidenceOk(db, key) && CommandOk(db.commands[key], Attempts(db, key))
  {
    RunKeeps(EmptyWorld, actions);
  }

  /** A projection job never hangs on anything but SUCCEEDED evidence. */
  lemma {:induction false} JobsHangOnSuccess(actions: seq<Action>, j: JobKey)
    requires j in Run(EmptyWorld, actions).db.tables.jobs
    ensures var t := Run(EmptyWorld, actions).db.tables;
            j.evidenceId in t.evidences && t.evidences[j.evidenceId].outcome == Succeeded
  {
    RunKeeps(EmptyWorld, actions);
  }

  /** A closed command, its attempts and every evidence row stay exactly as they are, whatever happens later. */
  lemma {:induction false} ClosedIsFinal(actions: seq<Action>, more: seq<Action>, key: string)
    requires var db := Run(EmptyWorld, actions).db; key in db.commands && db.commands[key].status.Closed?
    ensures var a := Run(EmptyWorld, actions).db;
            var b := Run(Run(EmptyWorld, actions), more).db;
            && key in b.commands && b.commands[key] == a.commands[key] && Attempts(b, key) == Attempts(a, key)
            && (forall id :: EvidenceFor(a.tables, id, key) <==> EvidenceFor(b.tables, id, key))
            && (forall id :: EvidenceFor(a.tables, id, key) ==> b.tables.evidences[id] == a.tables.evidences[id])
  {
    RunKeeps(EmptyWorld, actions);
    var u := Run(EmptyWorld, actions);
    RunKeeps(u, more);
    var w := Run(u, more);
    assert KeyEvolves(u.db, w.db, key);
    assert EvidenceOk(u.db, key) && EvidenceOk(w.db, key);
    var id :| EvidenceFor(u.db.tables, id, key);
    assert EvidenceFor(w.db.tables, id, key);
  }

  /** A worker whose claim is no longer the newest can change nothing. */
  lemma StaleClaimChangesNothing(db: Db, claim: Claim, input: FinalInput, id: Id, now: Instant)
    requires claim.operationKey in db.commands && claim.generation < db.commands[claim.operationKey].generation
    ensures MarkDispatched(db, claim).Err? && Finalize(db, claim, input, id, now).Err? && FailBeforeDispatch(db, claim, id, now).Err?
  {
  }
}
