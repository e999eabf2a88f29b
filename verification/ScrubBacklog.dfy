/** Repeated scrubbing passes over unchanging evidence finish. */
module ScrubBacklog {
  import opened Common
  import opened EvidenceTables
  import opened ProjectionProtocol

  function EligibleSet(t: Tables): set<Id> {
    set id | id in t.evidences && Eligible(t, id)
  }

  function SetOf(ids: seq<Id>): set<Id> {
    set c | c in ids
  }

  function ScrubAll(t: Tables, candidates: seq<Id>): Tables {
    if candidates == [] then t else ScrubOne(ScrubAll(t, candidates[..|candidates| - 1]), candidates[|candidates| - 1])
  }

  /** Scrubbing one candidate removes it from the eligible rows and touches no other. */
  lemma ScrubOneShrinks(t: Tables, id: Id)
    ensures EligibleSet(ScrubOne(t, id)) == EligibleSet(t) - {id}
    ensures ScrubOne(t, id).jobs == t.jobs
  {
    var next := ScrubOne(t, id);
    forall other | other in next.evidences
      ensures Eligible(next, other) <==> Eligible(t, other) && other != id
    {
      assert AllJobsDone(next, other) <==> AllJobsDone(t, other);
    }
  }

  /** A pass leaves exactly the eligible rows it did not reach. */
  lemma {:induction false} PassShrinks(t: Tables, candidates: seq<Id>)
    ensures EligibleSet(ScrubAll(t, candidates)) == EligibleSet(t) - SetOf(candidates)
    ensures ScrubAll(t, candidates).jobs == t.jobs
  {
    if candidates != [] {
      var n := |candidates| - 1;
      PassShrinks(t, candidates[..n]);
      ScrubOneShrinks(ScrubAll(t, candidates[..n]), candidates[n]);
      assert SetOf(candidates) == SetOf(candidates[..n]) + {candidates[n]};
    }
  }

  predicate Distinct(ids: seq<Id>) {
    forall i, j :: 0 <= i < j < |ids| ==> ids[i] != ids[j]
  }

  /** A batch a scrub pass may select: different eligible rows, as many as the limit allows. */
  predicate IsPass(t: Tables, candidates: seq<Id>, limit: nat) {
    && Distinct(candidates)
    && (forall i :: 0 <= i < |candidates| ==> candidates[i] in EligibleSet(t))
    && |candidates| == Min(limit, |EligibleSet(t)|)
  }

  lemma {:induction false} DistinctCardinality(ids: seq<Id>)
    requires Distinct(ids)
    ensures |SetOf(ids)| == |ids|
  {
    if ids != [] {
      var n := |ids| - 1;
      DistinctCardinality(ids[..n]);
      var front := SetOf(ids[..n]);
      assert ids[n] !in front && SetOf(ids) == front + {ids[n]};
    }
  }

  lemma PassCount(t: Tables, candidates: seq<Id>, limit: nat)
    requires IsPass(t, candidates, limit)
    ensures |EligibleSet(ScrubAll(t, candidates))| == Max(0, |EligibleSet(t)| - limit)
  {
    PassShrinks(t, candidates);
    DistinctCardinality(candidates);
    var taken := SetOf(candidates);
    var left := EligibleSet(t) - taken;
    assert EligibleSet(t) == left + taken && left !! taken;
  }

  function ScrubPasses(t: Tables, passes: seq<seq<Id>>): Tables
    decreases |passes|
  {
    if passes == [] then t else ScrubPasses(ScrubAll(t, passes[0]), passes[1..])
  }

  ghost predicate ArePasses(t: Tables, passes: seq<seq<Id>>, limit: nat)
    decreases |passes|
  {
    passes == [] || (IsPass(t, passes[0], limit) && ArePasses(ScrubAll(t, passes[0]), passes[1..], limit))
  }

  /** With no new evidence, n passes lower the backlog by n times the batch size, down to an empty backlog. */
  lemma {:induction false} BacklogAfterPasses(t: Tables, passes: seq<seq<Id>>, limit: nat)
    requires ArePasses(t, passes, limit)
    ensures |EligibleSet(ScrubPasses(t, passes))| == Max(0, |EligibleSet(t)| - |passes| * limit)
    decreases |passes|
  {
    if passes != [] {
      PassCount(t, passes[0], limit);
      BacklogAfterPasses(ScrubAll(t, passes[0]), passes[1..], limit);
      var rest := |passes[1..]|;
      assert (rest + 1) * limit == limit + rest * limit && rest * limit >= 0;
    }
  }
}
