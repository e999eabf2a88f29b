/**
 Login attempts: failures are counted in buckets, one for the credential and one for the client
 address; a full bucket blocks, and stale buckets of the address are deleted on the way.
 */
module LoginAttempts {
  import opened Common

  const WINDOW: int := 300_000
  const BLOCK: int := 600_000
  const MAX_CREDENTIAL: nat := 5
  const MAX_CLIENT: nat := 20
  const CLEANUP_LIMIT: nat := 32

  datatype Identity = Identity(ip: string, username: string)

  datatype Bucket = Bucket(ip: string, failedCount: nat, firstAt: Instant, blockedUntil: Option<Instant>, updatedAt: Instant)

  type Buckets = map<string, Bucket>

  datatype Answer = Blocked(seconds: nat) | Failed | Succeeded

  function CredentialKey(id: Identity): string {
    CREDENTIAL + id.ip + ":" + id.username
  }

  function ClientKey(id: Identity): string {
    "client:" + id.ip
  }

  lemma KeysDiffer(id: Identity, other: Identity)
    ensures CredentialKey(id) != ClientKey(other)
  {
    assert CredentialKey(id)[1] == 'r' && ClientKey(other)[1] == 'l';
  }

  const CREDENTIAL := "credential:"

  /** How many failures fill the bucket of a key. */
  function MaxFailures(key: string): nat {
    if CREDENTIAL <= key then MAX_CREDENTIAL else MAX_CLIENT
  }

  lemma MaxOfKeys(id: Identity)
    ensures MaxFailures(CredentialKey(id)) == MAX_CREDENTIAL && MaxFailures(ClientKey(id)) == MAX_CLIENT
  {
    var rest := id.ip + ":" + id.username;
    assert CredentialKey(id) == CREDENTIAL + rest;
    assert CREDENTIAL <= CREDENTIAL + rest;
    assert CREDENTIAL[1] == 'r';
    assert CredentialKey(id)[1] == 'r' && ClientKey(id)[1] == 'l';
  }

  function CeilSeconds(ms: int): int {
    (ms + 999) / 1000
  }

  function RemainingSeconds(bs: Buckets, key: string, now: Instant): nat {
    if key in bs && bs[key].blockedUntil.Some? && bs[key].blockedUntil.value > now
    then CeilSeconds(bs[key].blockedUntil.value - now)
    else 0
  }

  /** The longer of the two blocks, 0 when neither bucket blocks. */
  function BlockedSeconds(bs: Buckets, id: Identity, now: Instant): nat {
    Max(RemainingSeconds(bs, CredentialKey(id), now), RemainingSeconds(bs, ClientKey(id), now))
  }

  predicate StartsOver(bs: Buckets, key: string, now: Instant) {
    key !in bs
    || bs[key].firstAt <= now - WINDOW
    || (bs[key].blockedUntil.Some? && bs[key].blockedUntil.value <= now)
  }

  function CountFailure(bs: Buckets, key: string, ip: string, max: nat, now: Instant): Buckets {
    var over := StartsOver(bs, key, now);
    var count := if over then 1 else Min(max, bs[key].failedCount + 1);
    bs[key := Bucket(ip, count, if over then now else bs[key].firstAt, if count >= max then Some(now + BLOCK) else None, now)]
  }

  /** The rows cleanup may delete: stale buckets of the same address under other keys. */
  predicate Stale(bs: Buckets, id: Identity, key: string, now: Instant) {
    && key in bs && bs[key].ip == id.ip
    && key != CredentialKey(id) && key != ClientKey(id)
    && bs[key].updatedAt <= now - (WINDOW + BLOCK)
  }

  function Without(bs: Buckets, keys: set<string>): Buckets {
    map k | k in bs && k !in keys :: bs[k]
  }

  function StaleAmong(bs: Buckets, id: Identity, now: Instant, chosen: set<string>): set<string> {
    set k | k in chosen && Stale(bs, id, k, now)
  }

  /** One login, with `chosen` the stale buckets the bounded delete picks. */
  function Attempt(bs: Buckets, id: Identity, succeeds: bool, now: Instant, chosen: set<string>): (Buckets, Answer) {
    var seconds := BlockedSeconds(bs, id, now);
    if seconds > 0 then (bs, Blocked(seconds))
    else
      var cleaned := Without(bs, StaleAmong(bs, id, now, chosen));
      if succeeds then (Without(cleaned, {CredentialKey(id)}), Succeeded)
      else
        var one := CountFailure(cleaned, CredentialKey(id), id.ip, MAX_CREDENTIAL, now);
        (CountFailure(one, ClientKey(id), id.ip, MAX_CLIENT, now), Failed)
  }

  // ---- runs ----

  datatype Login = Login(id: Identity, succeeds: bool, now: Instant, chosen: set<string>)

  /** `failures` records, for every key, when a failure was counted since the last success under that key. */
  datatype World = World(buckets: Buckets, failures: map<string, seq<Instant>>, clock: Option<Instant>)

  const EmptyWorld := World(map[], map[], None)

  function FailuresOf(w: World, key: string): seq<Instant> {
    if key in w.failures then w.failures[key] else []
  }

  function Noted(failures: map<string, seq<Instant>>, key: string, now: Instant): map<string, seq<Instant>> {
    failures[key := (if key in failures then failures[key] else []) + [now]]
  }

  function Step(w: World, l: Login): World {
    var (after, answer) := Attempt(w.buckets, l.id, l.succeeds, l.now, l.chosen);
    World(after,
          match answer {
            case Blocked(_) => w.failures
            case Succeeded => w.failures[CredentialKey(l.id) := []]
            case Failed => Noted(Noted(w.failures, CredentialKey(l.id), l.now), ClientKey(l.id), l.now)
          },
          Some(l.now))
  }

  function Run(w: World, logins: seq<Login>): World {
    if logins == [] then w else Step(Run(w, logins[..|logins| - 1]), logins[|logins| - 1])
  }

  predicate Monotone(logins: seq<Login>) {
    forall i, j :: 0 <= i < j < |logins| ==> logins[i].now <= logins[j].now
  }

  // ---- one bucket against its failures ----

  predicate SortedUpTo(f: seq<Instant>, now: Instant) {
    (forall i, j :: 0 <= i < j < |f| ==> f[i] <= f[j]) && (forall i :: 0 <= i < |f| ==> f[i] <= now)
  }

  /** No interval shorter than the window holds more than 2*max-2 failures. */
  predicate Bounded(f: seq<Instant>, max: nat) {
    forall i, j :: 0 <= i <= j < |f| && f[j] - f[i] < WINDOW ==> j - i + 1 <= 2 * max - 2
  }

  /** Of the failures before the r-th, those less than a window before `t` are at most max-2. */
  predicate FewBefore(f: seq<Instant>, r: nat, t: Instant, max: nat) {
    r <= |f| && forall i :: 0 <= i < r && t - f[i] < WINDOW ==> r - i <= max - 2
  }

  /** A bucket counts the last failures; it blocks exactly when it is full. */
  predicate BucketOk(b: Bucket, f: seq<Instant>, max: nat) {
    && 1 <= b.failedCount <= max && b.failedCount <= |f|
    && b.firstAt == f[|f| - b.failedCount]
    && b.updatedAt == f[|f| - 1]
    && b.blockedUntil == (if b.failedCount == max then Some(b.updatedAt + BLOCK) else None)
    && FewBefore(f, |f| - b.failedCount, b.firstAt, max)
  }

  /** A key without a bucket has had no failure for longer than the window. */
  predicate KeyOk(bs: Buckets, key: string, f: seq<Instant>, max: nat, now: Instant) {
    && SortedUpTo(f, now) && Bounded(f, max)
    && (if key in bs then BucketOk(bs[key], f, max) else forall i :: 0 <= i < |f| ==> f[i] <= now - WINDOW)
  }

  lemma KeyOkLater(bs: Buckets, key: string, f: seq<Instant>, max: nat, now: Instant, later: Instant)
    requires KeyOk(bs, key, f, max, now) && now <= later
    ensures KeyOk(bs, key, f, max, later)
  {
  }

  lemma StartedOver(f: seq<Instant>, max: nat, now: Instant)
    requires max >= 2 && SortedUpTo(f, now) && Bounded(f, max) && FewBefore(f, |f|, now, max)
    ensures SortedUpTo(f + [now], now) && Bounded(f + [now], max)
    ensures FewBefore(f + [now], |f|, now, max)
  {
    var g := f + [now];
    forall i, j | 0 <= i <= j < |g| && g[j] - g[i] < WINDOW
      ensures j - i + 1 <= 2 * max - 2
    {
      if j < |f| {
        assert f[j] - f[i] < WINDOW;
      } else if i < |f| {
        assert now - f[i] < WINDOW;
      }
    }
  }

  lemma WentOn(f: seq<Instant>, count: nat, max: nat, now: Instant)
    requires max >= 2 && SortedUpTo(f, now) && Bounded(f, max)
    requires 1 <= count < max && count <= |f| && FewBefore(f, |f| - count, f[|f| - count], max)
    ensures SortedUpTo(f + [now], now) && Bounded(f + [now], max)
    ensures FewBefore(f + [now], |f| - count, f[|f| - count], max)
  {
    var g, r := f + [now], |f| - count;
    forall i, j | 0 <= i <= j < |g| && g[j] - g[i] < WINDOW
      ensures j - i + 1 <= 2 * max - 2
    {
      if j < |f| {
        assert f[j] - f[i] < WINDOW;
      } else if i < r {
        assert f[r] - f[i] < WINDOW;
      }
    }
  }

  /** When a bucket starts over, hardly any failure of its run is less than a window ago. */
  lemma FewWhenOver(bs: Buckets, key: string, f: seq<Instant>, max: nat, now: Instant)
    requires max >= 2 && KeyOk(bs, key, f, max, now) && StartsOver(bs, key, now) && RemainingSeconds(bs, key, now) == 0
    ensures FewBefore(f, |f|, now, max)
  {
    if key in bs {
      var b := bs[key];
      var r := |f| - b.failedCount;
      forall i | 0 <= i < |f| && now - f[i] < WINDOW
        ensures |f| - i <= max - 2
      {
        SortedAt(f, i, r, now);
        SortedAt(f, i, |f| - 1, now);
      }
    }
  }

  lemma SortedAt(f: seq<Instant>, i: nat, j: nat, now: Instant)
    requires SortedUpTo(f, now) && i < |f| && j < |f|
    ensures i <= j ==> f[i] <= f[j]
  {
  }

  /** Counting a failure on a bucket that does not block keeps everything, and min() never cuts the count. */
  lemma CountKeeps(bs: Buckets, key: string, ip: string, f: seq<Instant>, max: nat, now: Instant)
    requires max >= 2 && KeyOk(bs, key, f, max, now) && RemainingSeconds(bs, key, now) == 0
    ensures KeyOk(CountFailure(bs, key, ip, max, now), key, f + [now], max, now)
    ensures !StartsOver(bs, key, now) ==> bs[key].failedCount + 1 <= max
  {
    if StartsOver(bs, key, now) {
      FewWhenOver(bs, key, f, max, now);
      StartedOver(f, max, now);
    } else {
      WentOn(f, bs[key].failedCount, max, now);
    }
  }

  // ---- the whole table ----

  ghost predicate WorldOk(w: World) {
    && (w.clock.None? ==> w.buckets == map[] && w.failures == map[])
    && (w.clock.Some? ==> forall key :: KeyOk(w.buckets, key, FailuresOf(w, key), MaxFailures(key), w.clock.value))
  }

  /** A deleted bucket was stale, so its failures are out of every window. */
  lemma CleanupKeeps(bs: Buckets, id: Identity, chosen: set<string>, key: string, f: seq<Instant>, max: nat, now: Instant)
    requires KeyOk(bs, key, f, max, now)
    ensures KeyOk(Without(bs, StaleAmong(bs, id, now, chosen)), key, f, max, now)
  {
    if key in StaleAmong(bs, id, now, chosen) {
      forall i | 0 <= i < |f|
        ensures f[i] <= now - WINDOW
      {
        assert f[i] <= f[|f| - 1];
      }
    }
  }

  lemma OtherKeyKept(bs: Buckets, key: string, ip: string, max: nat, now: Instant, other: string, f: seq<Instant>, m: nat)
    requires key != other && KeyOk(bs, other, f, m, now)
    ensures KeyOk(CountFailure(bs, key, ip, max, now), other, f, m, now)
  {
  }

  lemma NotBlocked(bs: Buckets, id: Identity, now: Instant, key: string, chosen: set<string>)
    requires BlockedSeconds(bs, id, now) == 0 && (key == CredentialKey(id) || key == ClientKey(id))
    ensures RemainingSeconds(Without(bs, StaleAmong(bs, id, now, chosen)), key, now) == 0
  {
  }

  lemma FailureKeeps(bs: Buckets, id: Identity, now: Instant, key: string, f: seq<Instant>)
    requires RemainingSeconds(bs, CredentialKey(id), now) == 0 && RemainingSeconds(bs, ClientKey(id), now) == 0
    requires KeyOk(bs, key, f, MaxFailures(key), now)
    ensures var one := CountFailure(bs, CredentialKey(id), id.ip, MAX_CREDENTIAL, now);
            var two := CountFailure(one, ClientKey(id), id.ip, MAX_CLIENT, now);
            KeyOk(two, key, if key == CredentialKey(id) || key == ClientKey(id) then f + [now] else f, MaxFailures(key), now)
  {
    MaxOfKeys(id);
    KeysDiffer(id, id);
    var one := CountFailure(bs, CredentialKey(id), id.ip, MAX_CREDENTIAL, now);
    if key == CredentialKey(id) {
      CountKeeps(bs, key, id.ip, f, MAX_CREDENTIAL, now);
      OtherKeyKept(one, ClientKey(id), id.ip, MAX_CLIENT, now, key, f + [now], MAX_CREDENTIAL);
    } else {
      OtherKeyKept(bs, CredentialKey(id), id.ip, MAX_CREDENTIAL, now, key, f, MaxFailures(key));
      if key == ClientKey(id) {
        CountKeeps(one, key, id.ip, f, MAX_CLIENT, now);
      } else {
        OtherKeyKept(one, ClientKey(id), id.ip, MAX_CLIENT, now, key, f, MaxFailures(key));
      }
    }
  }

  lemma StepKeepsKey(w: World, l: Login, key: string)
    requires KeyOk(w.buckets, key, FailuresOf(w, key), MaxFailures(key), l.now)
    ensures KeyOk(Step(w, l).buckets, key, FailuresOf(Step(w, l), key), MaxFailures(key), l.now)
  {
    var f := FailuresOf(w, key);
    if BlockedSeconds(w.buckets, l.id, l.now) == 0 {
      var cleaned := Without(w.buckets, StaleAmong(w.buckets, l.id, l.now, l.chosen));
      CleanupKeeps(w.buckets, l.id, l.chosen, key, f, MaxFailures(key), l.now);
      if !l.succeeds {
        NotBlocked(w.buckets, l.id, l.now, CredentialKey(l.id), l.chosen);
        NotBlocked(w.buckets, l.id, l.now, ClientKey(l.id), l.chosen);
        FailureKeeps(cleaned, l.id, l.now, key, f);
        KeysDiffer(l.id, l.id);
      }
    }
  }

  lemma StepKeeps(w: World, l: Login)
    requires WorldOk(w) && (w.clock.Some? ==> w.clock.value <= l.now)
    ensures WorldOk(Step(w, l)) && Step(w, l).clock == Some(l.now)
  {
    forall key
      ensures KeyOk(Step(w, l).buckets, key, FailuresOf(Step(w, l), key), MaxFailures(key), l.now)
    {
      if w.clock.Some? {
        KeyOkLater(w.buckets, key, FailuresOf(w, key), MaxFailures(key), w.clock.value, l.now);
      }
      StepKeepsKey(w, l, key);
    }
  }

  lemma {:induction false} RunKeeps(logins: seq<Login>)
    requires Monotone(logins)
    ensures WorldOk(Run(EmptyWorld, logins))
    ensures logins != [] ==> Run(EmptyWorld, logins).clock == Some(logins[|logins| - 1].now)
  {
    if logins != [] {
      RunKeeps(logins[..|logins| - 1]);
      StepKeeps(Run(EmptyWorld, logins[..|logins| - 1]), logins[|logins| - 1]);
    }
  }

  // ---- main results ----

  /**
   Between successes under a key and with a clock that does not run backwards, any interval
   shorter than five minutes holds at most 2*max-2 counted failures.
   */
  lemma {:induction false} FailureBound(logins: seq<Login>, key: string, i: nat, j: nat)
    requires Monotone(logins)
    requires var f := FailuresOf(Run(EmptyWorld, logins), key); i <= j < |f| && f[j] - f[i] < WINDOW
    ensures j - i + 1 <= 2 * MaxFailures(key) - 2
  {
    RunKeeps(logins);
    var w := Run(EmptyWorld, logins);
    assert KeyOk(w.buckets, key, FailuresOf(w, key), MaxFailures(key), w.clock.value);
  }

  /** A bucket never counts past its maximum, and it blocks exactly when it is full, for ten minutes from the last failure. */
  lemma {:induction false} FullMeansBlocked(logins: seq<Login>, key: string)
    requires Monotone(logins) && key in Run(EmptyWorld, logins).buckets
    ensures var b := Run(EmptyWorld, logins).buckets[key];
            && 1 <= b.failedCount <= MaxFailures(key)
            && b.blockedUntil == (if b.failedCount == MaxFailures(key) then Some(b.updatedAt + BLOCK) else None)
            && var f := FailuresOf(Run(EmptyWorld, logins), key); f != [] && b.updatedAt == f[|f| - 1]
  {
    RunKeeps(logins);
    var w := Run(EmptyWorld, logins);
    assert KeyOk(w.buckets, key, FailuresOf(w, key), MaxFailures(key), w.clock.value);
  }

  /** When a failure is counted the cap on the count never binds: the bucket was not full, or it starts over. */
  lemma {:induction false} CapNeverBinds(logins: seq<Login>, l: Login, key: string)
    requires Monotone(logins + [l]) && (key == CredentialKey(l.id) || key == ClientKey(l.id))
    requires var bs := Run(EmptyWorld, logins).buckets; BlockedSeconds(bs, l.id, l.now) == 0 && !StartsOver(bs, key, l.now)
    ensures Run(EmptyWorld, logins).buckets[key].failedCount + 1 <= MaxFailures(key)
  {
    var all := logins + [l];
    assert forall i, j :: 0 <= i < j < |logins| ==> all[i] == logins[i] && all[j] == logins[j];
    RunKeeps(logins);
    var w := Run(EmptyWorld, logins);
    assert all[|logins| - 1] == logins[|logins| - 1] && all[|logins|] == l;
    KeyOkLater(w.buckets, key, FailuresOf(w, key), MaxFailures(key), w.clock.value, l.now);
    CountKeeps(w.buckets, key, l.id.ip, FailuresOf(w, key), MaxFailures(key), l.now);
  }

  // ---- the delete of stale buckets cannot be noticed ----

  /** `a` lacks only buckets that are stale in `b`. */
  predicate OnlyStaleMissing(a: Buckets, b: Buckets, now: Instant) {
    && (forall k :: k in a ==> k in b && a[k] == b[k])
    && (forall k :: k in b && k !in a ==> b[k].updatedAt <= now - (WINDOW + BLOCK))
  }

  /** A bucket was begun, and blocked, no later than its last update allows. */
  predicate Timely(b: Buckets) {
    forall k :: k in b ==> b[k].firstAt <= b[k].updatedAt
                           && (b[k].blockedUntil.Some? ==> b[k].blockedUntil.value <= b[k].updatedAt + BLOCK)
  }

  lemma MissingDoesNotBlock(a: Buckets, b: Buckets, key: string, now: Instant)
    requires OnlyStaleMissing(a, b, now) && Timely(b)
    ensures RemainingSeconds(a, key, now) == RemainingSeconds(b, key, now)
  {
  }

  lemma MissingStartsOver(a: Buckets, b: Buckets, key: string, ip: string, max: nat, now: Instant)
    requires OnlyStaleMissing(a, b, now) && Timely(b)
    requires b == map[] || forall k :: k in b ==> b[k].firstAt <= now
    ensures var x, y := CountFailure(a, key, ip, max, now), CountFailure(b, key, ip, max, now);
            OnlyStaleMissing(x, y, now) && Timely(y) && forall k :: k in y ==> y[k].firstAt <= now
  {
  }

  lemma MissingAfterCleanup(a: Buckets, b: Buckets, id: Identity, now: Instant, chosen: set<string>)
    requires OnlyStaleMissing(a, b, now)
    ensures OnlyStaleMissing(Without(a, StaleAmong(a, id, now, chosen)), b, now)
    ensures Without(b, StaleAmong(b, id, now, {})) == b
  {
  }

  lemma SameAnswer(a: Buckets, b: Buckets, l: Login)
    requires OnlyStaleMissing(a, b, l.now) && Timely(b) && forall k :: k in b ==> b[k].firstAt <= l.now
    ensures var (x, r) := Attempt(a, l.id, l.succeeds, l.now, l.chosen);
            var (y, q) := Attempt(b, l.id, l.succeeds, l.now, {});
            r == q && OnlyStaleMissing(x, y, l.now) && Timely(y) && forall k :: k in y ==> y[k].firstAt <= l.now
  {
    MissingDoesNotBlock(a, b, CredentialKey(l.id), l.now);
    MissingDoesNotBlock(a, b, ClientKey(l.id), l.now);
    MissingAfterCleanup(a, b, l.id, l.now, l.chosen);
    if BlockedSeconds(b, l.id, l.now) == 0 && !l.succeeds {
      var cleaned := Without(a, StaleAmong(a, l.id, l.now, l.chosen));
      MissingStartsOver(cleaned, b, CredentialKey(l.id), l.id.ip, MAX_CREDENTIAL, l.now);
      MissingStartsOver(CountFailure(cleaned, CredentialKey(l.id), l.id.ip, MAX_CREDENTIAL, l.now),
                        CountFailure(b, CredentialKey(l.id), l.id.ip, MAX_CREDENTIAL, l.now),
                        ClientKey(l.id), l.id.ip, MAX_CLIENT, l.now);
    }
  }

  function AnswersFrom(bs: Buckets, logins: seq<Login>): seq<Answer>
    decreases |logins|
  {
    if logins == [] then []
    else
      var (after, answer) := Attempt(bs, logins[0].id, logins[0].succeeds, logins[0].now, logins[0].chosen);
      [answer] + AnswersFrom(after, logins[1..])
  }

  function NoDeletes(logins: seq<Login>): seq<Login> {
    if logins == [] then [] else [logins[0].(chosen := {})] + NoDeletes(logins[1..])
  }

  lemma {:induction false} SameAnswersFrom(a: Buckets, b: Buckets, logins: seq<Login>)
    requires Monotone(logins)
    requires logins != [] ==> OnlyStaleMissing(a, b, logins[0].now) && Timely(b) && forall k :: k in b ==> b[k].firstAt <= logins[0].now
    ensures AnswersFrom(a, logins) == AnswersFrom(b, NoDeletes(logins))
    decreases |logins|
  {
    if logins != [] {
      var l := logins[0];
      SameAnswer(a, b, l);
      var x := Attempt(a, l.id, l.succeeds, l.now, l.chosen).0;
      var y := Attempt(b, l.id, l.succeeds, l.now, {}).0;
      if |logins| > 1 {
        assert logins[1..][0] == logins[1] && l.now <= logins[1].now;
      }
      SameAnswersFrom(x, y, logins[1..]);
      assert NoDeletes(logins)[1..] == NoDeletes(logins[1..]);
    }
  }

  /** Whatever stale buckets the delete picks at each login, every answer is the one without any deletes. */
  lemma {:induction false} CleanupIsInvisible(logins: seq<Login>)
    requires Monotone(logins)
    ensures AnswersFrom(map[], logins) == AnswersFrom(map[], NoDeletes(logins))
  {
    SameAnswersFrom(map[], map[], logins);
  }

  // ---- who shares a credential bucket ----

  /** The part of b's address behind a's address and a colon, as a's name begins with it. */
  predicate SharesBy(a: Identity, b: Identity, m: string) {
    b.ip == a.ip + ":" + m && a.username == m + ":" + b.username
  }

  /** Two identities have one credential key exactly when the longer address and the longer name overlap in the middle. */
  lemma SameKeyIff(a: Identity, b: Identity)
    requires a != b && |a.ip| <= |b.ip|
    ensures CredentialKey(a) == CredentialKey(b) <==> exists m :: SharesBy(a, b, m)
  {
    var x, y := a.ip + ":" + a.username, b.ip + ":" + b.username;
    assert CredentialKey(a) == CREDENTIAL + x && CredentialKey(b) == CREDENTIAL + y;
    assert (CREDENTIAL + x)[|CREDENTIAL|..] == x && (CREDENTIAL + y)[|CREDENTIAL|..] == y;
    if x == y {
      assert a.ip == x[..|a.ip|] && b.ip == x[..|b.ip|];
      assert a.username == x[|a.ip| + 1..] && b.username == x[|b.ip| + 1..];
      Overlap(x, |a.ip|, |b.ip|);
      var m := x[|a.ip| + 1..|b.ip|];
      assert b.ip == a.ip + ":" + m && a.username == m + ":" + b.username;
      assert SharesBy(a, b, m);
    }
    if m :| SharesBy(a, b, m) {
      assert x == a.ip + ":" + m + ":" + b.username;
      assert y == a.ip + ":" + m + ":" + b.username;
    }
  }

  lemma Overlap(x: string, i: nat, j: nat)
    requires i < j < |x| && x[i] == ':' && x[j] == ':'
    ensures x[..j] == x[..i] + ":" + x[i + 1..j] && x[i + 1..] == x[i + 1..j] + ":" + x[j + 1..]
  {
  }

  lemma SplitAt(s: string, i: nat)
    requires i < |s| && s[i] == ':'
    ensures s == s[..i] + ":" + s[i + 1..]
  {
  }

  predicate SharesBucket(a: Identity, b: Identity) {
    b != a && CredentialKey(b) == CredentialKey(a)
  }

  /** The identity that reads the address up to its colon at i as the whole address. */
  function CutAddress(a: Identity, i: nat): Identity
    requires i < |a.ip|
  {
    Identity(a.ip[..i], a.ip[i + 1..] + ":" + a.username)
  }

  /** The identity that reads the name up to its colon at i as part of the address. */
  function CutName(a: Identity, i: nat): Identity
    requires i < |a.username|
  {
    Identity(a.ip + ":" + a.username[..i], a.username[i + 1..])
  }

  predicate CutAt(a: Identity, b: Identity, i: nat) {
    || (i < |a.ip| && a.ip[i] == ':' && b == CutAddress(a, i))
    || (i < |a.username| && a.username[i] == ':' && b == CutName(a, i))
  }

  /** Whoever shares the bucket of an identity is that identity cut at one of its colons. */
  lemma SharesBucketIffCut(a: Identity, b: Identity)
    ensures SharesBucket(a, b) <==> exists i: nat :: CutAt(a, b, i)
  {
    if SharesBucket(a, b) {
      if |a.ip| <= |b.ip| {
        SameKeyIff(a, b);
        var m :| SharesBy(a, b, m);
        assert CutAt(a, b, |m|);
      } else {
        SameKeyIff(b, a);
        var m :| SharesBy(b, a, m);
        assert CutAt(a, b, |b.ip|);
      }
    }
    if i: nat :| CutAt(a, b, i) {
      if i < |a.ip| && a.ip[i] == ':' && b == CutAddress(a, i) {
        SplitAt(a.ip, i);
        PartnerShares(b, a, a.ip[i + 1..]);
      } else {
        SplitAt(a.username, i);
        PartnerShares(a, b, a.username[..i]);
      }
    }
  }

  /**
   Among the identities a server admits, whichever they are, an identity shares its credential bucket
   with another exactly when one of its cuts at a colon is admitted too.
   */
  lemma HasPartnerIff(a: Identity, admitted: Identity -> bool)
    ensures (exists b :: admitted(b) && SharesBucket(a, b)) <==>
            || (exists i :: 0 <= i < |a.ip| && a.ip[i] == ':' && admitted(CutAddress(a, i)))
            || (exists i :: 0 <= i < |a.username| && a.username[i] == ':' && admitted(CutName(a, i)))
  {
    if b :| admitted(b) && SharesBucket(a, b) {
      SharesBucketIffCut(a, b);
      var i: nat :| CutAt(a, b, i);
    }
    if i :| 0 <= i < |a.ip| && a.ip[i] == ':' && admitted(CutAddress(a, i)) {
      assert CutAt(a, CutAddress(a, i), i);
      SharesBucketIffCut(a, CutAddress(a, i));
    }
    if i :| 0 <= i < |a.username| && a.username[i] == ':' && admitted(CutName(a, i)) {
      assert CutAt(a, CutName(a, i), i);
      SharesBucketIffCut(a, CutName(a, i));
    }
  }

  lemma PartnerShares(a: Identity, b: Identity, m: string)
    requires SharesBy(a, b, m)
    ensures a != b && CredentialKey(a) == CredentialKey(b)
  {
    assert |a.ip| < |b.ip|;
    SameKeyIff(a, b);
  }

  /** Such a pair: an IPv6 address and a name with a colon. */
  lemma KeysCanCollide()
    ensures var a, b := Identity("::1", "5:ada"), Identity("::1:5", "ada"); a != b && CredentialKey(a) == CredentialKey(b)
  {
    PartnerShares(Identity("::1", "5:ada"), Identity("::1:5", "ada"), "5");
  }

  // ---- the bound is met ----

  function FailAt(id: Identity, now: Instant): Login {
    Login(id, false, now, {})
  }

  /** A failure of an address and name nobody else uses, in terms of its two buckets. */
  lemma FailStep(w: World, id: Identity, now: Instant)
    requires RemainingSeconds(w.buckets, CredentialKey(id), now) == 0 && RemainingSeconds(w.buckets, ClientKey(id), now) == 0
    ensures var next := Step(w, FailAt(id, now));
            var one := CountFailure(w.buckets, CredentialKey(id), id.ip, MAX_CREDENTIAL, now);
            && next.buckets == CountFailure(one, ClientKey(id), id.ip, MAX_CLIENT, now)
            && FailuresOf(next, CredentialKey(id)) == FailuresOf(w, CredentialKey(id)) + [now]
            && FailuresOf(next, ClientKey(id)) == FailuresOf(w, ClientKey(id)) + [now]
  {
    KeysDiffer(id, id);
    assert StaleAmong(w.buckets, id, now, {}) == {};
    assert Without(w.buckets, {}) == w.buckets;
  }

  /** Where a run of failures of one credential stands. */
  ghost predicate Stands(w: World, id: Identity, count: nat, first: Instant, clientCount: nat, clientFirst: Instant, f: seq<Instant>) {
    && CredentialKey(id) in w.buckets && ClientKey(id) in w.buckets
    && var c, d := w.buckets[CredentialKey(id)], w.buckets[ClientKey(id)];
    && c.failedCount == count && c.firstAt == first && (count < MAX_CREDENTIAL ==> c.blockedUntil == None)
    && d.failedCount == clientCount && d.firstAt == clientFirst && (clientCount < MAX_CLIENT ==> d.blockedUntil == None)
    && FailuresOf(w, CredentialKey(id)) == f
  }

  lemma FailAgain(w: World, id: Identity, count: nat, first: Instant, clientCount: nat, clientFirst: Instant, f: seq<Instant>, now: Instant)
    requires Stands(w, id, count, first, clientCount, clientFirst, f) && 0 < count < MAX_CREDENTIAL && 0 < clientCount < MAX_CLIENT - 1
    ensures var over, clientOver := first <= now - WINDOW, clientFirst <= now - WINDOW;
            Stands(Step(w, FailAt(id, now)), id,
                   if over then 1 else count + 1, if over then now else first,
                   if clientOver then 1 else clientCount + 1, if clientOver then now else clientFirst, f + [now])
  {
    KeysDiffer(id, id);
    FailStep(w, id, now);
  }

  /** Four failures before a window ends, one of them early, and five in the next: eight within little more than a second. */
  function TightTime(i: nat): Instant {
    if i == 0 then 0 else if i < 4 then 299_000 else 300_000
  }

  function Tight(n: nat): (f: seq<Instant>)
    ensures |f| == n && forall i :: 0 <= i < n ==> f[i] == TightTime(i)
  {
    seq(n, (i: nat) => TightTime(i))
  }

  function TightLogins(id: Identity, n: nat): (r: seq<Login>)
    ensures |r| == n && forall i :: 0 <= i < n ==> r[i] == FailAt(id, TightTime(i))
  {
    seq(n, (i: nat) => FailAt(id, TightTime(i)))
  }

  lemma TightStep(id: Identity, n: nat)
    ensures Run(EmptyWorld, TightLogins(id, n + 1)) == Step(Run(EmptyWorld, TightLogins(id, n)), FailAt(id, TightTime(n)))
    ensures Tight(n + 1) == Tight(n) + [TightTime(n)]
  {
    assert TightLogins(id, n + 1)[..n] == TightLogins(id, n);
  }

  /** Where that run stands after n > 0 failures. */
  ghost predicate TightStands(w: World, id: Identity, n: nat)
    requires n > 0
  {
    var count, first := if n <= 4 then n else n - 4, if n <= 4 then 0 else 300_000;
    Stands(w, id, count, first, count, first, Tight(n))
  }

  lemma TightBegins(id: Identity)
    ensures TightStands(Run(EmptyWorld, TightLogins(id, 1)), id, 1)
  {
    TightStep(id, 0);
    FailStep(EmptyWorld, id, 0);
    KeysDiffer(id, id);
  }

  lemma TightGoesOn(w: World, id: Identity, n: nat)
    requires 0 < n < 9 && TightStands(w, id, n)
    ensures Stands(Step(w, FailAt(id, TightTime(n))), id, if n < 4 then n + 1 else n - 3, if n < 4 then 0 else 300_000,
                   if n < 4 then n + 1 else n - 3, if n < 4 then 0 else 300_000, Tight(n) + [TightTime(n)])
  {
    var count, first := if n <= 4 then n else n - 4, if n <= 4 then 0 else 300_000;
    FailAgain(w, id, count, first, count, first, Tight(n), TightTime(n));
  }

  lemma {:induction false} TightRun(id: Identity, n: nat)
    requires 0 < n <= 9
    ensures TightStands(Run(EmptyWorld, TightLogins(id, n)), id, n)
  {
    if n == 1 {
      TightBegins(id);
    } else {
      TightRun(id, n - 1);
      TightStep(id, n - 1);
      TightGoesOn(Run(EmptyWorld, TightLogins(id, n - 1)), id, n - 1);
    }
  }

  /** The bound is met: eight counted failures of one credential within an interval shorter than the window. */
  lemma BoundIsMet(id: Identity)
    ensures var logins := TightLogins(id, 9);
            var f := FailuresOf(Run(EmptyWorld, logins), CredentialKey(id));
            Monotone(logins) && |f| == 9 && f[8] - f[1] < WINDOW && 8 - 1 + 1 == 2 * MaxFailures(CredentialKey(id)) - 2
  {
    TightRun(id, 9);
    MaxOfKeys(id);
  }

  // ---- and by the bucket of an address, with a new name each time ----

  function NameOf(i: nat): string {
    seq(i, (k: nat) => 'x')
  }

  function Nth(ip: string, i: nat): Identity {
    Identity(ip, NameOf(i))
  }

  lemma NamesDiffer(ip: string, i: nat, j: nat)
    requires i != j
    ensures CredentialKey(Nth(ip, i)) != CredentialKey(Nth(ip, j))
  {
    assert |CredentialKey(Nth(ip, i))| - |CredentialKey(Nth(ip, j))| == i - j;
  }

  /** Nineteen failures before a window ends, one of them early, and twenty in the next. */
  function CrowdTime(i: nat): Instant {
    if i == 0 then 0 else if i < 19 then 299_000 else 300_000
  }

  function CrowdTimes(n: nat): (f: seq<Instant>)
    ensures |f| == n && forall i :: 0 <= i < n ==> f[i] == CrowdTime(i)
  {
    seq(n, (i: nat) => CrowdTime(i))
  }

  function CrowdLogins(ip: string, n: nat): (r: seq<Login>)
    ensures |r| == n && forall i :: 0 <= i < n ==> r[i] == FailAt(Nth(ip, i), CrowdTime(i))
  {
    seq(n, (i: nat) => FailAt(Nth(ip, i), CrowdTime(i)))
  }

  function ClientBucket(w: World, ip: string): Option<Bucket> {
    var key := ClientKey(Nth(ip, 0));
    if key in w.buckets then Some(w.buckets[key]) else None
  }

  ghost predicate NamesUnused(w: World, ip: string, n: nat) {
    forall i: nat :: i >= n ==> CredentialKey(Nth(ip, i)) !in w.buckets
  }

  /** Where that run stands after n > 0 failures. */
  ghost predicate CrowdStands(w: World, ip: string, n: nat)
    requires n > 0
  {
    var count := if n <= 19 then n else n - 19;
    && ClientBucket(w, ip).Some?
    && var b := ClientBucket(w, ip).value;
    && b.failedCount == count && b.firstAt == (if n <= 19 then 0 else 300_000) && (count < MAX_CLIENT ==> b.blockedUntil == None)
    && FailuresOf(w, ClientKey(Nth(ip, 0))) == CrowdTimes(n)
    && NamesUnused(w, ip, n)
  }

  lemma CrowdStep(ip: string, n: nat)
    ensures Run(EmptyWorld, CrowdLogins(ip, n + 1)) == Step(Run(EmptyWorld, CrowdLogins(ip, n)), FailAt(Nth(ip, n), CrowdTime(n)))
    ensures CrowdTimes(n + 1) == CrowdTimes(n) + [CrowdTime(n)]
  {
    assert CrowdLogins(ip, n + 1)[..n] == CrowdLogins(ip, n);
  }

  lemma NamesStayUnused(w: World, ip: string, n: nat, now: Instant)
    requires NamesUnused(w, ip, n)
    requires RemainingSeconds(w.buckets, CredentialKey(Nth(ip, n)), now) == 0 && RemainingSeconds(w.buckets, ClientKey(Nth(ip, n)), now) == 0
    ensures NamesUnused(Step(w, FailAt(Nth(ip, n), now)), ip, n + 1)
  {
    FailStep(w, Nth(ip, n), now);
    forall i: nat | i >= n + 1
      ensures CredentialKey(Nth(ip, i)) !in Step(w, FailAt(Nth(ip, n), now)).buckets
    {
      NamesDiffer(ip, i, n);
      KeysDiffer(Nth(ip, i), Nth(ip, n));
    }
  }

  lemma CrowdBegins(ip: string)
    ensures CrowdStands(Run(EmptyWorld, CrowdLogins(ip, 1)), ip, 1)
  {
    CrowdStep(ip, 0);
    FailStep(EmptyWorld, Nth(ip, 0), 0);
    NamesStayUnused(EmptyWorld, ip, 0, 0);
    KeysDiffer(Nth(ip, 0), Nth(ip, 0));
  }

  lemma CrowdGoesOn(w: World, ip: string, n: nat)
    requires 0 < n < 39 && CrowdStands(w, ip, n)
    ensures CrowdStands(Step(w, FailAt(Nth(ip, n), CrowdTime(n))), ip, n + 1)
  {
    var id, now := Nth(ip, n), CrowdTime(n);
    assert ClientKey(id) == ClientKey(Nth(ip, 0));
    FailStep(w, id, now);
    NamesStayUnused(w, ip, n, now);
    KeysDiffer(id, id);
    assert CrowdTimes(n + 1) == CrowdTimes(n) + [now];
  }

  lemma {:induction false} CrowdRun(ip: string, n: nat)
    requires 0 < n <= 39
    ensures CrowdStands(Run(EmptyWorld, CrowdLogins(ip, n)), ip, n)
  {
    if n == 1 {
      CrowdBegins(ip);
    } else {
      CrowdRun(ip, n - 1);
      CrowdStep(ip, n - 1);
      CrowdGoesOn(Run(EmptyWorld, CrowdLogins(ip, n - 1)), ip, n - 1);
    }
  }

  /** Thirty-eight counted failures of one address within an interval shorter than the window. */
  lemma BoundIsMetByAddress(ip: string)
    ensures var logins, key := CrowdLogins(ip, 39), ClientKey(Nth(ip, 0));
            var f := FailuresOf(Run(EmptyWorld, logins), key);
            Monotone(logins) && |f| == 39 && f[38] - f[1] < WINDOW && 38 - 1 + 1 == 2 * MaxFailures(key) - 2
  {
    CrowdRun(ip, 39);
    MaxOfKeys(Nth(ip, 0));
  }
}
