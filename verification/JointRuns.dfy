/**
 Commands, projections and scrubbing at work on the same evidence and jobs. Seen from either side a
 joint run is a run of that side alone, so the results about each hold of both together.
 */
module JointRuns {
  import opened Common
  import opened EvidenceTables
  import C = CommandProtocol
  import CR = CommandResults
  import I = CommandInvariant
  import P = ProjectionProtocol
  import PI = ProjectionInvariant
  import PR = ProjectionResults

  /** Both sides hold the shared tables. */
  datatype World = World(cmd: C.World, prj: P.World)

  datatype Action = OnCommand(c: C.Action) | OnProjection(p: P.Action)

  const EmptyWorld := World(C.EmptyWorld, P.EmptyWorld)

  function Added(prior: map<Id, Evidence>, next: map<Id, Evidence>): map<Id, Evidence> {
    map id | id in next && id !in prior :: next[id]
  }

  function Step(w: World, a: Action): World {
    match a
    case OnCommand(c) =>
      var cmd := C.Step(w.cmd, c);
      World(cmd, w.prj.(db := w.prj.db.(tables := cmd.db.tables),
                        original := w.prj.original + Added(w.cmd.db.tables.evidences, cmd.db.tables.evidences)))
    case OnProjection(p) =>
      // What comes from the inbox has no command behind it.
      var prj := if p.DoRecord? && p.row.source.Some? then w.prj else P.Step(w.prj, p);
      World(w.cmd.(db := w.cmd.db.(tables := prj.db.tables)), prj)
  }

  function Run(w: World, actions: seq<Action>): World
    decreases |actions|
  {
    if actions == [] then w else Run(Step(w, actions[0]), actions[1..])
  }

  predicate Shared(w: World) {
    w.cmd.db.tables == w.prj.db.tables
  }

  // ---- the projection side ----

  /** One command step records one row with its jobs, or leaves the shared tables. */
  predicate Records(before: Tables, after: Tables, id: Id, row: Evidence, handlers: seq<string>) {
    id !in before.evidences && (row.outcome != Succeeded ==> handlers == []) && after == WithEvidence(before, id, row, handlers)
  }

  lemma CommandRecords(w: C.World, a: C.Action)
    ensures var next := C.Step(w, a).db.tables;
            next == w.db.tables || exists id, row, handlers :: Records(w.db.tables, next, id, row, handlers)
  {
    var before, after := w.db.tables, C.Step(w, a).db.tables;
    if after != before {
      match a
      case PrepareFails(worker, id, now) =>
        assert Records(before, after, id, C.LocalFailureEvidence(w.workers[worker].claim, now), []);
      case FinalizeByWorker(worker, input, id, now) =>
        assert Records(before, after, id, C.FinalEvidence(w.workers[worker].claim, input, now), HandlerKeys(input.handlerKeys));
      case FinalizeDirectly(claim, input, id, now) =>
        assert Records(before, after, id, C.FinalEvidence(claim, input, now), HandlerKeys(input.handlerKeys));
      case FailDirectly(claim, id, now) =>
        assert Records(before, after, id, C.LocalFailureEvidence(claim, now), []);
      case Recover(key, id, now) =>
        assert Records(before, after, id, C.ExpiryEvidence(key, |C.Attempts(w.db, key)|, now), []);
      case _ =>
    }
  }

  lemma RecordStep(prj: P.World, after: Tables, id: Id, row: Evidence, handlers: seq<string>)
    requires Records(prj.db.tables, after, id, row, handlers)
    ensures P.Step(prj, P.DoRecord(id, row, handlers))
            == prj.(db := prj.db.(tables := after), original := prj.original + Added(prj.db.tables.evidences, after.evidences))
  {
    assert Added(prj.db.tables.evidences, after.evidences) == map[id := row];
    assert prj.original + map[id := row] == prj.original[id := row];
  }

  lemma NothingAdded(m: map<Id, Evidence>, original: map<Id, Evidence>)
    ensures original + Added(m, m) == original
  {
  }

  /** A joint step is at most one step of the projection side. */
  lemma ProjectionStep(w: World, a: Action) returns (ps: seq<P.Action>)
    requires Shared(w)
    ensures Shared(Step(w, a)) && |ps| <= 1 && Step(w, a).prj == (if ps == [] then w.prj else P.Step(w.prj, ps[0]))
  {
    match a
    case OnProjection(p) => ps := if p.DoRecord? && p.row.source.Some? then [] else [p];
    case OnCommand(c) =>
      CommandRecords(w.cmd, c);
      var after := C.Step(w.cmd, c).db.tables;
      if after == w.cmd.db.tables {
        NothingAdded(after.evidences, w.prj.original);
        ps := [];
      } else {
        var id, row, handlers :| Records(w.cmd.db.tables, after, id, row, handlers);
        RecordStep(w.prj, after, id, row, handlers);
        ps := [P.DoRecord(id, row, handlers)];
      }
  }

  lemma {:induction false} ProjectionSide(w: World, actions: seq<Action>) returns (ps: seq<P.Action>)
    requires Shared(w)
    ensures Shared(Run(w, actions)) && Run(w, actions).prj == P.Run(w.prj, ps)
    decreases |actions|
  {
    if actions == [] {
      ps := [];
    } else {
      var first := ProjectionStep(w, actions[0]);
      hide Step, P.Step, Shared;
      var more := ProjectionSide(Step(w, actions[0]), actions[1..]);
      ps := first + more;
      if first != [] {
        assert ps[0] == first[0] && ps[1..] == more;
      } else {
        assert ps == more;
      }
    }
  }

  // ---- the command side ----

  /** The same commands, attempts, claims and calls; executions that stopped early in the joint run may still stand here. */
  predicate Follows(pure: C.World, joint: C.World) {
    && DbFollows(pure.db, joint.db)
    && pure.issued == joint.issued && pure.calls == joint.calls
    && pure.workers.Keys == joint.workers.Keys
    && (forall k :: k in joint.workers ==> joint.workers[k] == pure.workers[k] || joint.workers[k].Stopped?)
  }

  /** The evidence of commands is the same, whole or scrubbed: its source and its outcome. */
  predicate RowsFollow(pure: map<Id, Evidence>, joint: map<Id, Evidence>) {
    && (forall id :: id in pure ==> id in joint && joint[id].source == pure[id].source && joint[id].outcome == pure[id].outcome)
    && (forall id :: id in joint && joint[id].source.Some? ==> id in pure)
  }

  predicate DbFollows(pure: C.Db, joint: C.Db) {
    pure.commands == joint.commands && pure.attempts == joint.attempts && RowsFollow(pure.tables.evidences, joint.tables.evidences)
  }

  /** What the joint run does, the command side does too, or stands still when an id was taken by the other side. */
  ghost predicate StepFollows(pure: C.World, joint: C.World, a: C.Action) {
    Follows(C.Step(pure, a), C.Step(joint, a)) || Follows(pure, C.Step(joint, a))
  }

  predicate TxFollows(x: Result<C.Db, C.TxError>, y: Result<C.Db, C.TxError>) {
    y.Ok? ==> x.Ok? && DbFollows(x.value, y.value)
  }

  lemma FinalizeFollows(pure: C.Db, joint: C.Db, claim: C.Claim, input: C.FinalInput, id: Id, now: Instant)
    requires DbFollows(pure, joint)
    ensures TxFollows(C.Finalize(pure, claim, input, id, now), C.Finalize(joint, claim, input, id, now))
  {
  }

  lemma FailFollows(pure: C.Db, joint: C.Db, claim: C.Claim, id: Id, now: Instant)
    requires DbFollows(pure, joint)
    ensures TxFollows(C.FailBeforeDispatch(pure, claim, id, now), C.FailBeforeDispatch(joint, claim, id, now))
  {
  }

  lemma RecoverFollows(pure: C.Db, joint: C.Db, key: string, id: Id, now: Instant)
    requires DbFollows(pure, joint)
    ensures TxFollows(C.RecoverOne(pure, key, id, now), C.RecoverOne(joint, key, id, now))
  {
  }

  lemma ClosingFollows(pure: C.World, joint: C.World, a: C.Action)
    requires Follows(pure, joint)
    requires a.PrepareFails? || a.FinalizeByWorker? || a.FinalizeDirectly? || a.FailDirectly? || a.Recover?
    ensures StepFollows(pure, joint, a)
  {
    match a
    case PrepareFails(worker, id, now) =>
      if worker in joint.workers && joint.workers[worker].Preparing? {
        FailFollows(pure.db, joint.db, joint.workers[worker].claim, id, now);
      }
    case FinalizeByWorker(worker, input, id, now) =>
      if worker in joint.workers && joint.workers[worker].Answered? {
        FinalizeFollows(pure.db, joint.db, joint.workers[worker].claim, input, id, now);
      }
    case FinalizeDirectly(claim, input, id, now) => FinalizeFollows(pure.db, joint.db, claim, input, id, now);
    case FailDirectly(claim, id, now) => FailFollows(pure.db, joint.db, claim, id, now);
    case Recover(key, id, now) => RecoverFollows(pure.db, joint.db, key, id, now);
  }

  lemma CommandStepFollows(pure: C.World, joint: C.World, a: C.Action)
    requires Follows(pure, joint)
    ensures StepFollows(pure, joint, a)
  {
    if a.PrepareFails? || a.FinalizeByWorker? || a.FinalizeDirectly? || a.FailDirectly? || a.Recover? {
      ClosingFollows(pure, joint, a);
    }
  }

  lemma ProjectionKeepsRows(pure: map<Id, Evidence>, prj: P.World, p: P.Action)
    requires RowsFollow(pure, prj.db.tables.evidences) && (p.DoRecord? ==> p.row.source.None?)
    ensures RowsFollow(pure, P.Step(prj, p).db.tables.evidences)
  {
  }

  /** A joint step is at most one step of the command side. */
  lemma CommandStep(pure: C.World, w: World, a: Action) returns (cs: seq<C.Action>)
    requires Shared(w) && Follows(pure, w.cmd)
    ensures |cs| <= 1 && Follows(if cs == [] then pure else C.Step(pure, cs[0]), Step(w, a).cmd)
  {
    match a
    case OnProjection(p) =>
      if !(p.DoRecord? && p.row.source.Some?) {
        ProjectionKeepsRows(pure.db.tables.evidences, w.prj, p);
      }
      cs := [];
    case OnCommand(c) =>
      CommandStepFollows(pure, w.cmd, c);
      cs := if Follows(pure, C.Step(w.cmd, c)) then [] else [c];
  }

  lemma {:induction false} CommandSide(pure: C.World, w: World, actions: seq<Action>) returns (cs: seq<C.Action>)
    requires Shared(w) && Follows(pure, w.cmd)
    ensures Shared(Run(w, actions)) && Follows(C.Run(pure, cs), Run(w, actions).cmd)
    decreases |actions|
  {
    if actions == [] {
      cs := [];
    } else {
      var first := CommandStep(pure, w, actions[0]);
      var _ := ProjectionStep(w, actions[0]);
      hide Step, C.Step, Shared, Follows;
      var next := if first == [] then pure else C.Step(pure, first[0]);
      var more := CommandSide(next, Step(w, actions[0]), actions[1..]);
      cs := first + more;
      if first != [] {
        assert cs[0] == first[0] && cs[1..] == more;
      } else {
        assert cs == more;
      }
    }
  }

  // ---- the results, together ----

  /** At most one call per operation key, and one behind an attempt that went out, whatever projections and scrubbing do meanwhile. */
  lemma {:induction false} AtMostOneCall(actions: seq<Action>, key: string)
    ensures var w := Run(EmptyWorld, actions).cmd;
            && CR.CallsFor(w.calls, key) <= 1
            && (CR.CallsFor(w.calls, key) == 1 ==> exists i :: 0 <= i < |C.Attempts(w.db, key)| && I.WentOut(C.Attempts(w.db, key)[i]))
  {
    var cs := CommandSide(C.EmptyWorld, EmptyWorld, actions);
    CR.AtMostOneCall(cs, key);
    assert C.Attempts(C.Run(C.EmptyWorld, cs).db, key) == C.Attempts(Run(EmptyWorld, actions).cmd.db, key);
  }

  /** Once an attempt went out the command is never requeued, and a closed command stays as it is. */
  lemma {:induction false} DispatchAndClosureLast(actions: seq<Action>, more: seq<Action>, key: string)
    requires key in Run(EmptyWorld, actions).cmd.db.commands
    ensures var a, b := Run(EmptyWorld, actions).cmd.db, Run(Run(EmptyWorld, actions), more).cmd.db;
            && key in b.commands
            && (a.commands[key].status.Closed? ==> b.commands[key] == a.commands[key] && C.Attempts(b, key) == C.Attempts(a, key))
            && forall i :: 0 <= i < |C.Attempts(a, key)| && I.WentOut(C.Attempts(a, key)[i]) ==>
                 b.commands[key].status != C.Waiting && |C.Attempts(b, key)| == i + 1
  {
    var w := Run(EmptyWorld, actions);
    var cs := CommandSide(C.EmptyWorld, EmptyWorld, actions);
    var pure := C.Run(C.EmptyWorld, cs);
    var ds := CommandSide(pure, w, more);
    I.RunKeeps(C.EmptyWorld, cs);
    I.RunKeeps(pure, ds);
    forall i | 0 <= i < |C.Attempts(w.cmd.db, key)| && I.WentOut(C.Attempts(w.cmd.db, key)[i])
      ensures var b := C.Run(pure, ds).db; key in b.commands && b.commands[key].status != C.Waiting && |C.Attempts(b, key)| == i + 1
    {
      CR.NeverRequeuedAfterDispatch(cs, ds, key, i);
    }
    if w.cmd.db.commands[key].status.Closed? {
      CR.ClosedIsFinal(cs, ds, key);
    }
  }

  /** Effects commit exactly once for the jobs of commands and inbox alike, whatever commands do meanwhile. */
  lemma {:induction false} ExactlyOnce(actions: seq<Action>, key: JobKey)
    ensures var w := Run(EmptyWorld, actions).prj;
            && PR.EffectsFor(w.effects, key) <= 1
            && (PR.EffectsFor(w.effects, key) == 1 <==> key in w.db.keys)
            && (key in w.db.keys <==> key in w.db.tables.jobs && w.db.tables.jobs[key].status == Done)
  {
    var ps := ProjectionSide(EmptyWorld, actions);
    PR.ExactlyOnce(ps, key);
  }

  /** A command carries one evidence row, scrubbed or not, if it is closed, with the command's outcome, and none otherwise. */
  lemma {:induction false} EvidenceAgreesWithState(actions: seq<Action>, key: string)
    requires key in Run(EmptyWorld, actions).cmd.db.commands
    ensures var db := Run(EmptyWorld, actions).cmd.db; I.EvidenceOk(db, key) && I.CommandOk(db.commands[key], C.Attempts(db, key))
  {
    var cs := CommandSide(C.EmptyWorld, EmptyWorld, actions);
    CR.EvidenceAgreesWithState(cs, key);
    EvidenceFollows(C.Run(C.EmptyWorld, cs), Run(EmptyWorld, actions).cmd, key);
  }

  lemma EvidenceFollows(pure: C.World, joint: C.World, key: string)
    requires Follows(pure, joint) && key in pure.db.commands && I.EvidenceOk(pure.db, key) && I.CommandOk(pure.db.commands[key], C.Attempts(pure.db, key))
    ensures I.EvidenceOk(joint.db, key) && I.CommandOk(joint.db.commands[key], C.Attempts(joint.db, key))
  {
    assert C.Attempts(pure.db, key) == C.Attempts(joint.db, key);
    assert forall id :: I.EvidenceFor(pure.db.tables, id, key) <==> I.EvidenceFor(joint.db.tables, id, key);
  }

  /** Every job hangs on SUCCEEDED evidence. */
  lemma {:induction false} JobsHangOnSuccess(actions: seq<Action>, j: JobKey)
    requires j in Run(EmptyWorld, actions).cmd.db.tables.jobs
    ensures var t := Run(EmptyWorld, actions).cmd.db.tables; j.evidenceId in t.evidences && t.evidences[j.evidenceId].outcome == Succeeded
  {
    var ps := ProjectionSide(EmptyWorld, actions);
    PI.RunKeeps(P.EmptyWorld, ps);
  }

  /** Evidence that differs from what was recorded is a minimized order sheet with every job finished for good. */
  lemma {:induction false} ScrubIsSafe(actions: seq<Action>, more: seq<Action>, id: Id)
    requires var w := Run(EmptyWorld, actions).prj;
             id in w.original && id in w.db.tables.evidences && w.db.tables.evidences[id] != w.original[id]
    ensures var w, later := Run(EmptyWorld, actions).prj, Run(Run(EmptyWorld, actions), more).prj;
            && w.original[id].evidenceType == P.COUPANG_ORDERSHEET
            && w.db.tables.evidences[id].raw.None? && P.IsCurrentSummary(w.db.tables.evidences[id].normalized)
            && P.AllJobsDone(w.db.tables, id) && P.AllJobsDone(later.db.tables, id)
            && (forall key: JobKey :: key.evidenceId == id ==> PR.EffectsFor(later.effects, key) == PR.EffectsFor(w.effects, key))
  {
    var ps := ProjectionSide(EmptyWorld, actions);
    var qs := ProjectionSide(Run(EmptyWorld, actions), more);
    PR.ScrubIsSafe(ps, qs, id);
  }
}
