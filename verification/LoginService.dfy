/** The service on its table: one method per step of the transaction. */
module LoginService {
  import opened Common
  import opened LoginAttempts

  function StaleKeys(rows: Buckets, id: Identity, now: Instant): (r: set<string>)
    ensures r <= rows.Keys
    ensures forall k :: k in r <==> Stale(rows, id, k, now)
  {
    set k | k in rows && Stale(rows, id, k, now)
  }

  /** These are stale rows, and no stale row left is older than one of them. */
  ghost predicate Picked(rows: Buckets, stale: set<string>, removed: set<string>) {
    && removed <= stale <= rows.Keys
    && forall k, other :: k in removed && other in stale - removed ==> rows[k].updatedAt <= rows[other].updatedAt
  }

  lemma PickOneMore(rows: Buckets, stale: set<string>, removed: set<string>, k: string)
    requires Picked(rows, stale, removed) && k in stale - removed
    requires forall other :: other in stale - removed ==> rows[k].updatedAt <= rows[other].updatedAt
    ensures Picked(rows, stale, removed + {k})
  {
  }

  lemma WithoutOneMore(rows: Buckets, removed: set<string>, k: string)
    ensures Without(rows, removed) - {k} == Without(rows, removed + {k})
  {
  }

  /** The bucket whose latest failure is longest ago. */
  method Stalest(rows: Buckets, stale: set<string>) returns (k: string)
    requires stale != {} && stale <= rows.Keys
    ensures k in stale && forall other :: other in stale ==> rows[k].updatedAt <= rows[other].updatedAt
  {
    LeastExists(rows, stale, (b: Bucket) => b.updatedAt);
    k :| k in stale && forall other :: other in stale ==> rows[k].updatedAt <= rows[other].updatedAt;
  }

  class Service {
    var rows: Buckets

    constructor ()
      ensures rows == map[]
    {
      rows := map[];
    }

    method RemainingBlockedSeconds(keys: seq<string>, now: Instant) returns (maximum: nat)
      ensures forall i :: 0 <= i < |keys| ==> RemainingSeconds(rows, keys[i], now) <= maximum
      ensures maximum == 0 || exists i :: 0 <= i < |keys| && RemainingSeconds(rows, keys[i], now) == maximum
    {
      maximum := 0;
      for n := 0 to |keys|
        invariant forall i :: 0 <= i < n ==> RemainingSeconds(rows, keys[i], now) <= maximum
        invariant maximum == 0 || exists i :: 0 <= i < n && RemainingSeconds(rows, keys[i], now) == maximum
      {
        maximum := Max(maximum, RemainingSeconds(rows, keys[n], now));
      }
    }

    /** Deletes the stalest buckets of the address, at most CLEANUP_LIMIT of them. */
    method Cleanup(id: Identity, now: Instant) returns (ghost removed: set<string>)
      modifies this
      ensures Picked(old(rows), StaleKeys(old(rows), id, now), removed)
      ensures |removed| <= 32
      ensures |removed| < 32 ==> removed == StaleKeys(old(rows), id, now)
      ensures forall k :: k in removed ==> k in old(rows) && old(rows)[k].ip == id.ip && old(rows)[k].updatedAt <= now - 900_000
      ensures forall k :: k in old(rows) && (old(rows)[k].ip != id.ip || k == CredentialKey(id) || k == ClientKey(id)) ==> k in rows && rows[k] == old(rows)[k]
      ensures |removed| < 32 ==>
                forall k :: k in rows && rows[k].ip == id.ip && k != CredentialKey(id) && k != ClientKey(id) ==> rows[k].updatedAt > now - 900_000
      ensures forall k, other ::
                k in removed && other in rows && rows[other].ip == id.ip && other != CredentialKey(id) && other != ClientKey(id) && rows[other].updatedAt <= now - 900_000
                ==> k in old(rows) && old(rows)[k].updatedAt <= rows[other].updatedAt
      ensures rows == Without(old(rows), removed)
    {
      ghost var all := StaleKeys(rows, id, now);
      var stale := StaleKeys(rows, id, now);
      removed := {};
      var deleted := 0;
      assert rows == Without(rows, {});
      while stale != {} && deleted < CLEANUP_LIMIT
        invariant stale == all - removed && deleted == |removed| <= CLEANUP_LIMIT
        invariant Picked(old(rows), all, removed)
        invariant rows == Without(old(rows), removed)
        decreases stale
      {
        var k := Stalest(rows, stale);
        PickOneMore(old(rows), all, removed, k);
        WithoutOneMore(old(rows), removed, k);
        rows := rows - {k};
        stale := stale - {k};
        removed := removed + {k};
        deleted := deleted + 1;
      }
    }

    method UpdateFailureBucket(key: string, ip: string, maximumFailures: nat, now: Instant)
      modifies this
      ensures rows == CountFailure(old(rows), key, ip, maximumFailures, now)
    {
      var shouldReset := true;
      if key in rows {
        var current := rows[key];
        shouldReset := current.firstAt <= now - WINDOW || (current.blockedUntil.Some? && current.blockedUntil.value <= now);
      }
      var failedCount := if shouldReset then 1 else Min(maximumFailures, rows[key].failedCount + 1);
      var blockedUntil := if failedCount >= maximumFailures then Some(now + BLOCK) else None;
      rows := rows[key := Bucket(ip, failedCount, if shouldReset then now else rows[key].firstAt, blockedUntil, now)];
    }

    /** One login, `succeeds` being what verification says. */
    method Execute(id: Identity, succeeds: bool, now: Instant) returns (answer: Answer, ghost removed: set<string>)
      modifies this
      ensures (rows, answer) == Attempt(old(rows), id, succeeds, now, removed)
      ensures |removed| <= 32
    {
      removed := {};
      var credential, client := CredentialKey(id), ClientKey(id);
      var keys := [credential, client];
      var seconds := RemainingBlockedSeconds(keys, now);
      assert keys[0] == credential && keys[1] == client;
      assert seconds == BlockedSeconds(rows, id, now);
      if seconds > 0 {
        return Blocked(seconds), removed;
      }
      removed := Cleanup(id, now);
      assert StaleAmong(old(rows), id, now, removed) == removed;
      if succeeds {
        ghost var cleaned := rows;
        rows := rows - {credential};
        assert rows == Without(cleaned, {credential});
        return Succeeded, removed;
      }
      UpdateFailureBucket(credential, id.ip, MAX_CREDENTIAL, now);
      UpdateFailureBucket(client, id.ip, MAX_CLIENT, now);
      return Failed, removed;
    }
  }
}
