/**
 What a login is answered, told from the logins before it alone: for each key the failures since its
 last success, cut into counts that end when they are full or when five minutes have passed since
 they began. No buckets, no deletes.
 */
module LoginAnswers {
  import opened Common
  import opened LoginAttempts

  /** For every key, when a failure was counted since the last success under that key. */
  type History = map<string, seq<Instant>>

  function Of(h: History, key: string): seq<Instant> {
    if key in h then h[key] else []
  }

  /** Where the present count of failures begins: a failure begins anew five minutes after the first of a count, or when that was full. */
  function CountFrom(f: seq<Instant>, max: nat): (r: nat)
    ensures f != [] ==> r < |f|
    ensures f == [] ==> r == 0
  {
    if |f| <= 1 then 0
    else
      var n := |f| - 1;
      var s := CountFrom(f[..n], max);
      if f[n] - f[s] >= 300_000 || n - s == max then n else s
  }

  /** The present count is full. */
  predicate Full(f: seq<Instant>, max: nat) {
    f != [] && |f| - CountFrom(f, max) == max
  }

  /** A full count keeps out for ten minutes from its last failure; seconds are rounded up. */
  function Wait(f: seq<Instant>, max: nat, now: Instant): nat {
    if Full(f, max) && now < f[|f| - 1] + 600_000 then (f[|f| - 1] + 600_000 - now + 999) / 1000 else 0
  }

  /** Five failures of an address and name, or twenty of an address. */
  function WaitOf(h: History, id: Identity, now: Instant): nat {
    Max(Wait(Of(h, CredentialKey(id)), 5, now), Wait(Of(h, ClientKey(id)), 20, now))
  }

  function Told(h: History, l: Login): Answer {
    if WaitOf(h, l.id, l.now) > 0 then Blocked(WaitOf(h, l.id, l.now)) else if l.succeeds then Succeeded else Failed
  }

  function Next(h: History, l: Login): History {
    match Told(h, l)
    case Blocked(_) => h
    case Succeeded => h[CredentialKey(l.id) := []]
    case Failed => h[CredentialKey(l.id) := Of(h, CredentialKey(l.id)) + [l.now]][ClientKey(l.id) := Of(h, ClientKey(l.id)) + [l.now]]
  }

  function HistoryOf(logins: seq<Login>): History {
    if logins == [] then map[] else Next(HistoryOf(logins[..|logins| - 1]), logins[|logins| - 1])
  }

  // ---- buckets follow the history ----

  /** A bucket counts the present count; one that is missing was never made, deleted by a success, or deleted when nothing depended on it. */
  predicate Tracks(bs: Buckets, key: string, f: seq<Instant>, max: nat, now: Instant) {
    && (forall i :: 0 <= i < |f| ==> f[i] <= f[|f| - 1] <= now)
    && if key in bs then
         && f != []
         && bs[key].failedCount == |f| - CountFrom(f, max) <= max
         && bs[key].firstAt == f[CountFrom(f, max)]
         && bs[key].updatedAt == f[|f| - 1]
         && bs[key].blockedUntil == (if Full(f, max) then Some(f[|f| - 1] + BLOCK) else None)
       else f != [] ==> f[|f| - 1] <= now - (WINDOW + BLOCK)
  }

  lemma Waits(bs: Buckets, key: string, f: seq<Instant>, max: nat, now: Instant)
    requires Tracks(bs, key, f, max, now)
    ensures RemainingSeconds(bs, key, now) == Wait(f, max, now)
  {
  }

  lemma FailureTracked(bs: Buckets, key: string, ip: string, f: seq<Instant>, max: nat, now: Instant)
    requires max > 1 && Tracks(bs, key, f, max, now) && RemainingSeconds(bs, key, now) == 0
    ensures Tracks(CountFailure(bs, key, ip, max, now), key, f + [now], max, now)
  {
    var g := f + [now];
    assert g[..|f|] == f;
    if f != [] {
      var s := CountFrom(f, max);
      assert f[s] <= now && f[|f| - 1] <= now;
      if key in bs {
        assert StartsOver(bs, key, now) <==> now - f[s] >= 300_000 || |f| - s == max;
      } else {
        StaleCount(f, max, now);
      }
    }
  }

  /** Long after its last failure a count begins anew. */
  lemma {:induction false} StaleCount(f: seq<Instant>, max: nat, now: Instant)
    requires f != [] && f[|f| - 1] <= now - (WINDOW + BLOCK)
    requires f[CountFrom(f, max)] <= f[|f| - 1]
    ensures CountFrom(f + [now], max) == |f|
  {
    assert (f + [now])[..|f|] == f;
  }

  /** The key is one of the two of a login. */
  predicate KeyOf(key: string, id: Identity) {
    key == CredentialKey(id) || key == ClientKey(id)
  }

  lemma CleanupTracked(bs: Buckets, id: Identity, chosen: set<string>, key: string, f: seq<Instant>, max: nat, now: Instant)
    requires Tracks(bs, key, f, max, now)
    ensures Tracks(Without(bs, StaleAmong(bs, id, now, chosen)), key, f, max, now)
  {
  }

  lemma OtherTracked(bs: Buckets, other: string, ip: string, m: nat, key: string, f: seq<Instant>, max: nat, now: Instant)
    requires other != key && Tracks(bs, key, f, max, now)
    ensures Tracks(CountFailure(bs, other, ip, m, now), key, f, max, now)
    ensures RemainingSeconds(CountFailure(bs, other, ip, m, now), key, now) == RemainingSeconds(bs, key, now)
  {
  }

  lemma FailureTrackedBoth(bs: Buckets, h: History, l: Login, key: string)
    requires RemainingSeconds(bs, CredentialKey(l.id), l.now) == 0 && RemainingSeconds(bs, ClientKey(l.id), l.now) == 0
    requires Tracks(bs, key, Of(h, key), MaxFailures(key), l.now)
    ensures var one := CountFailure(bs, CredentialKey(l.id), l.id.ip, MAX_CREDENTIAL, l.now);
            Tracks(CountFailure(one, ClientKey(l.id), l.id.ip, MAX_CLIENT, l.now), key,
                   if KeyOf(key, l.id) then Of(h, key) + [l.now] else Of(h, key), MaxFailures(key), l.now)
  {
    var id, f := l.id, Of(h, key);
    var credential, client := CredentialKey(id), ClientKey(id);
    MaxOfKeys(id);
    KeysDiffer(id, id);
    hide CredentialKey, ClientKey, Of, Tracks, CountFailure, MaxFailures, RemainingSeconds;
    var one := CountFailure(bs, credential, id.ip, MAX_CREDENTIAL, l.now);
    if key == credential {
      FailureTracked(bs, key, id.ip, f, MAX_CREDENTIAL, l.now);
      OtherTracked(one, client, id.ip, MAX_CLIENT, key, f + [l.now], MAX_CREDENTIAL, l.now);
    } else {
      OtherTracked(bs, credential, id.ip, MAX_CREDENTIAL, key, f, MaxFailures(key), l.now);
      if key == client {
        FailureTracked(one, key, id.ip, f, MAX_CLIENT, l.now);
      } else {
        OtherTracked(one, client, id.ip, MAX_CLIENT, key, f, MaxFailures(key), l.now);
      }
    }
  }

  lemma LaterTracked(bs: Buckets, key: string, f: seq<Instant>, max: nat, now: Instant, later: Instant)
    requires Tracks(bs, key, f, max, now) && now <= later
    ensures Tracks(bs, key, f, max, later)
  {
  }

  ghost predicate AllTracked(bs: Buckets, h: History, now: Instant) {
    forall key :: Tracks(bs, key, Of(h, key), MaxFailures(key), now)
  }

  /** One login, given that the buckets stand as the history says. */
  lemma AnswerFollows(bs: Buckets, h: History, l: Login)
    requires AllTracked(bs, h, l.now)
    ensures BlockedSeconds(bs, l.id, l.now) == WaitOf(h, l.id, l.now)
  {
    MaxOfKeys(l.id);
    Waits(bs, CredentialKey(l.id), Of(h, CredentialKey(l.id)), MAX_CREDENTIAL, l.now);
    Waits(bs, ClientKey(l.id), Of(h, ClientKey(l.id)), MAX_CLIENT, l.now);
  }

  lemma NextOf(h: History, l: Login, key: string)
    ensures Of(Next(h, l), key) ==
      match Told(h, l)
      case Blocked(_) => Of(h, key)
      case Succeeded => if key == CredentialKey(l.id) then [] else Of(h, key)
      case Failed => if KeyOf(key, l.id) then Of(h, key) + [l.now] else Of(h, key)
  {
    KeysDiffer(l.id, l.id);
  }

  lemma BucketFollows(bs: Buckets, h: History, l: Login, key: string)
    requires BlockedSeconds(bs, l.id, l.now) == WaitOf(h, l.id, l.now) && Tracks(bs, key, Of(h, key), MaxFailures(key), l.now)
    ensures Tracks(Attempt(bs, l.id, l.succeeds, l.now, l.chosen).0, key, Of(Next(h, l), key), MaxFailures(key), l.now)
  {
    NextOf(h, l, key);
    hide Next, Tracks, CountFailure, MaxFailures, Wait, StaleAmong, CredentialKey, ClientKey;
    if WaitOf(h, l.id, l.now) == 0 {
      var cleaned := Without(bs, StaleAmong(bs, l.id, l.now, l.chosen));
      CleanupTracked(bs, l.id, l.chosen, key, Of(h, key), MaxFailures(key), l.now);
      if l.succeeds {
        SuccessTracked(cleaned, l.id, key, Of(h, key), MaxFailures(key), l.now);
      } else {
        NotBlocked(bs, l.id, l.now, CredentialKey(l.id), l.chosen);
        NotBlocked(bs, l.id, l.now, ClientKey(l.id), l.chosen);
        FailureTrackedBoth(cleaned, h, l, key);
      }
    }
  }

  lemma SuccessTracked(bs: Buckets, id: Identity, key: string, f: seq<Instant>, max: nat, now: Instant)
    requires Tracks(bs, key, f, max, now)
    ensures Tracks(Without(bs, {CredentialKey(id)}), key, if key == CredentialKey(id) then [] else f, max, now)
  {
  }

  lemma {:induction false} RunFollows(logins: seq<Login>, now: Instant)
    requires Monotone(logins) && (logins != [] ==> logins[|logins| - 1].now <= now)
    ensures AllTracked(Run(EmptyWorld, logins).buckets, HistoryOf(logins), now)
  {
    if logins != [] {
      var n := |logins| - 1;
      RunFollows(logins[..n], logins[n].now);
      var bs, h := Run(EmptyWorld, logins[..n]).buckets, HistoryOf(logins[..n]);
      AnswerFollows(bs, h, logins[n]);
      forall key
        ensures Tracks(Run(EmptyWorld, logins).buckets, key, Of(HistoryOf(logins), key), MaxFailures(key), now)
      {
        BucketFollows(bs, h, logins[n], key);
        LaterTracked(Run(EmptyWorld, logins).buckets, key, Of(HistoryOf(logins), key), MaxFailures(key), logins[n].now, now);
      }
    }
  }

  // ---- main results ----

  /**
   Every login of a run is answered as the history says: Blocked, with the seconds that are left, while
   a full count of either key keeps out, whatever verification would say, and as verification says otherwise.
   A blocked login changes no bucket.
   */
  lemma AnswerIsTold(logins: seq<Login>, l: Login)
    requires Monotone(logins + [l])
    ensures var bs := Run(EmptyWorld, logins).buckets; var (after, answer) := Attempt(bs, l.id, l.succeeds, l.now, l.chosen);
            answer == Told(HistoryOf(logins), l) && (answer.Blocked? ==> after == bs)
  {
    Shorter(logins, l);
    RunFollows(logins, l.now);
    AnswerFollows(Run(EmptyWorld, logins).buckets, HistoryOf(logins), l);
  }

  lemma Shorter(logins: seq<Login>, l: Login)
    requires Monotone(logins + [l])
    ensures Monotone(logins) && (logins != [] ==> logins[|logins| - 1].now <= l.now)
  {
    var all := logins + [l];
    assert forall i :: 0 <= i < |logins| ==> all[i] == logins[i];
    assert all[|logins|] == l;
  }

  /** The count of this key is full, and ten minutes have not passed since. */
  predicate KeepsOut(f: seq<Instant>, max: nat, now: Instant) {
    Full(f, max) && now < f[|f| - 1] + 600_000
  }

  lemma FullBlocks(h: History, l: Login, key: string)
    requires KeepsOut(Of(h, key), MaxFailures(key), l.now)
    ensures KeyOf(key, l.id) ==> Told(h, l).Blocked?
    ensures Of(Next(h, l), key) == Of(h, key)
  {
    MaxOfKeys(l.id);
    NextOf(h, l, key);
    if KeyOf(key, l.id) {
      assert Wait(Of(h, key), MaxFailures(key), l.now) > 0;
    }
  }

  lemma Earlier(f: seq<Instant>, max: nat, earlier: Instant, now: Instant)
    requires KeepsOut(f, max, now) && earlier <= now
    ensures KeepsOut(f, max, earlier)
  {
  }

  lemma HistoryStep(logins: seq<Login>, more: seq<Login>)
    requires more != []
    ensures HistoryOf(logins + more) == Next(HistoryOf(logins + more[..|more| - 1]), more[|more| - 1])
  {
    hide Next;
    var all := logins + more;
    assert all[..|all| - 1] == logins + more[..|more| - 1] && all[|all| - 1] == more[|more| - 1];
  }

  /** While a full count keeps out, nothing is added to it or taken from it. */
  lemma {:induction false} FullStays(logins: seq<Login>, more: seq<Login>, key: string, now: Instant)
    requires KeepsOut(Of(HistoryOf(logins), key), MaxFailures(key), now) && forall i :: 0 <= i < |more| ==> more[i].now <= now
    ensures Of(HistoryOf(logins + more), key) == Of(HistoryOf(logins), key)
    decreases |more|
  {
    if more == [] {
      assert logins + more == logins;
    } else {
      var n := |more| - 1;
      HistoryStep(logins, more);
      hide HistoryOf, Next, KeepsOut, MaxFailures, Of;
      FullStays(logins, more[..n], key, now);
      Earlier(Of(HistoryOf(logins), key), MaxFailures(key), more[n].now, now);
      FullBlocks(HistoryOf(logins + more[..n]), more[n], key);
    }
  }

  /**
   From the failure that fills a count until ten minutes later, every login under that key is answered
   Blocked and changes no bucket, whatever verification would say and whatever else goes on.
   */
  lemma {:induction false} FullKeepsOut(logins: seq<Login>, more: seq<Login>, l: Login, key: string)
    requires Monotone(logins + more + [l]) && KeyOf(key, l.id) && KeepsOut(Of(HistoryOf(logins), key), MaxFailures(key), l.now)
    ensures var bs := Run(EmptyWorld, logins + more).buckets; var (after, answer) := Attempt(bs, l.id, l.succeeds, l.now, l.chosen);
            answer.Blocked? && after == bs
  {
    var all := logins + more + [l];
    assert forall i :: 0 <= i < |more| ==> all[|logins| + i] == more[i] && all[|all| - 1] == l;
    FullStays(logins, more, key, l.now);
    FullBlocks(HistoryOf(logins + more), l, key);
    hide Attempt, Run, Told, Full, HistoryOf;
    AnswerIsTold(logins + more, l);
  }
}
