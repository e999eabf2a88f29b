/** The services on their tables. */
module PgService {
  import opened Common
  import opened PgReservations

  method GenerateRandomPgNo(d: Draw) returns (value: Pg)
    ensures value == PgOf(d)
  {
    value := "";
    for index := 0 to 2
      invariant value == PgOf(d)[..index]
    {
      value := value + [Letter(d[index])];
    }
    for index := 0 to 10
      invariant value == PgOf(d)[..2 + index]
    {
      value := value + [Digit(d[2 + index])];
    }
  }

  /** These overdue rows, and no others, were abandoned one after the other; none left is overdue for longer. */
  ghost predicate Swept(before: Db, after: Db, abandoned: seq<ClientId>, now: Instant) {
    && after == Run(before, Sweep(abandoned, now))
    && after.devices == before.devices && after.saves == before.saves
    && after.reservations.Keys == before.reservations.Keys
    && (forall c :: c in before.reservations ==>
          after.reservations[c] == (if c in abandoned then before.reservations[c].(status := Abandoned) else before.reservations[c]))
    && (forall c :: c in abandoned ==> Overdue(before, c, now))
    && (forall c, d :: c in abandoned && Overdue(after, d, now) ==> before.reservations[c].expiresAt <= before.reservations[d].expiresAt)
  }

  lemma SweptOneMore(before: Db, after: Db, abandoned: seq<ClientId>, c: ClientId, now: Instant)
    requires Swept(before, after, abandoned, now) && Overdue(after, c, now)
    requires forall d :: Overdue(after, d, now) ==> after.reservations[c].expiresAt <= after.reservations[d].expiresAt
    ensures Swept(before, SetStatus(after, c, Abandoned), abandoned + [c], now)
  {
    SweepOneMore(before, abandoned, c, now);
    assert c !in abandoned;
  }

  method LongestOverdue(reservations: map<ClientId, Reservation>, overdue: set<ClientId>) returns (c: ClientId)
    requires overdue != {} && overdue <= reservations.Keys
    ensures c in overdue && forall other :: other in overdue ==> reservations[c].expiresAt <= reservations[other].expiresAt
  {
    LeastExists(reservations, overdue, (r: Reservation) => r.expiresAt);
    c :| c in overdue && forall other :: other in overdue ==> reservations[c].expiresAt <= reservations[other].expiresAt;
  }

  class Service {
    var reservations: map<ClientId, Reservation>
    var devices: set<Pg>
    var saves: seq<Save>

    function State(): Db
      reads this
    {
      Db(reservations, devices, saves)
    }

    constructor ()
      ensures State() == EmptyDb
    {
      reservations, devices, saves := map[], {}, [];
    }

    method Reserve(client: ClientId, kind: Kind, draws: seq<Draw>, now: Instant) returns (r: Result<Granted, PgError>)
      requires |draws| >= ATTEMPTS
      modifies this
      ensures var tx := PgReservations.Reserve(old(State()), client, kind, draws, now);
              && State() == (if tx.Ok? then tx.value.0 else old(State()))
              && r == (if tx.Ok? then Ok(tx.value.1) else Err(tx.error))
    {
      if !ValidId(client) {
        return Err(ClientRecordRequired);
      }
      if client in reservations {
        var existing := reservations[client];
        if existing.kind != kind {
          return Err(IdConflict);
        }
        if existing.status == Reserved && existing.expiresAt <= now {
          reservations := reservations[client := existing.(status := Abandoned)];
          return Ok(Granted(existing.pg, Abandoned, true));
        }
        return Ok(Granted(existing.pg, existing.status, true));
      }
      var attempt := 0;
      while attempt < ATTEMPTS
        invariant attempt <= ATTEMPTS && State() == old(State())
        invariant FirstFree(State(), draws, ATTEMPTS) == FirstFree(State(), draws[attempt..], ATTEMPTS - attempt)
      {
        var pg := GenerateRandomPgNo(draws[attempt]);
        assert draws[attempt..][0] == draws[attempt] && draws[attempt..][1..] == draws[attempt + 1..];
        if !Taken(State(), pg) {
          reservations := reservations[client := Reservation(pg, kind, Reserved, now + TTL)];
          return Ok(Granted(pg, Reserved, false));
        }
        attempt := attempt + 1;
      }
      return Err(Exhausted);
    }

    method Abandon(client: ClientId) returns (r: Result<Granted, PgError>)
      modifies this
      ensures var tx := PgReservations.Abandon(old(State()), client);
              && State() == (if tx.Ok? then tx.value.0 else old(State()))
              && r == (if tx.Ok? then Ok(tx.value.1) else Err(tx.error))
    {
      if !ValidId(client) {
        return Err(ClientRecordRequired);
      }
      if client !in reservations {
        return Err(NotFound);
      }
      var row := reservations[client];
      if row.status.Consumed? {
        return Err(AlreadyConsumed);
      }
      if row.status == Abandoned {
        return Ok(Granted(row.pg, Abandoned, true));
      }
      reservations := reservations[client := row.(status := Abandoned)];
      return Ok(Granted(row.pg, Abandoned, false));
    }

    /** The sweep: the rows longest overdue, at most `limit` of them, are abandoned, and no other row is touched. */
    method ExpireReservations(limit: nat, now: Instant) returns (abandoned: seq<ClientId>)
      modifies this
      ensures Swept(old(State()), State(), abandoned, now)
      ensures |abandoned| <= limit
      ensures |abandoned| < limit ==> forall c :: !Overdue(State(), c, now)
    {
      abandoned := [];
      var more := true;
      while more && |abandoned| < limit
        invariant |abandoned| <= limit && Swept(old(State()), State(), abandoned, now)
        invariant !more ==> forall c :: !Overdue(State(), c, now)
        decreases limit - |abandoned|, more
      {
        var overdue := set c | c in reservations && Overdue(State(), c, now);
        if overdue == {} {
          assert forall c :: Overdue(State(), c, now) ==> c in overdue;
          more := false;
        } else {
          var c := LongestOverdue(reservations, overdue);
          SweptOneMore(old(State()), State(), abandoned, c, now);
          reservations := reservations[c := reservations[c].(status := Abandoned)];
          abandoned := abandoned + [c];
        }
      }
    }

    method SaveInspection(pg: Pg, kind: Kind, row: Option<(ClientId, Kind)>, now: Instant) returns (r: Result<Saved, PgError>)
      modifies this
      ensures var tx := PgReservations.SaveInspection(old(State()), pg, kind, row, now);
              && State() == (if tx.Ok? then tx.value.0 else old(State()))
              && r == (if tx.Ok? then Ok(tx.value.1) else Err(tx.error))
    {
      if !ValidPg(pg) {
        return Err(InvalidPg);
      }
      var reservation: Option<Reservation> := None;
      if row.Some? {
        if !ValidId(row.value.0) {
          return Err(ClientRecordRequired);
        }
        if row.value.0 in reservations {
          reservation := Some(reservations[row.value.0]);
        }
      }
      if reservation.Some? {
        var res := reservation.value;
        if res.status.Consumed? {
          return Ok(res.status.result);
        }
        if res.status != Reserved {
          return Err(NotActive);
        }
        if res.expiresAt <= now {
          return Err(Expired);
        }
        if res.pg != pg || res.kind != row.value.1 || kind != row.value.1 {
          return Err(Mismatch);
        }
      } else if ReservedFor(State(), pg) {
        return Err(ReservedForOther);
      }
      if row.Some? && reservation.None? && pg !in devices {
        return Err(NotFound);
      }
      var saved := Saved(pg, NumberOfSaves(saves, pg));
      devices := devices + {pg};
      saves := saves + [Save(pg, if reservation.Some? then Some(row.value.0) else None)];
      if reservation.Some? {
        reservations := reservations[row.value.0 := reservation.value.(status := Consumed(saved))];
      }
      return Ok(saved);
    }
  }

  function Sweep(clients: seq<ClientId>, now: Instant): seq<Action> {
    seq(|clients|, i requires 0 <= i < |clients| => DoExpire(clients[i], now))
  }

  lemma {:induction false} RunSplits(db: Db, first: seq<Action>, last: Action)
    ensures Run(db, first + [last]) == Step(Run(db, first), last)
    decreases |first|
  {
    if first == [] {
      assert ([last])[1..] == [];
      assert Run(db, [] + [last]) == Run(Step(db, last), []);
    } else {
      assert (first + [last])[1..] == first[1..] + [last];
      RunSplits(Step(db, first[0]), first[1..], last);
    }
  }

  lemma SweepOneMore(db: Db, clients: seq<ClientId>, c: ClientId, now: Instant)
    ensures Run(db, Sweep(clients + [c], now)) == Expire(Run(db, Sweep(clients, now)), c, now)
  {
    assert Sweep(clients + [c], now) == Sweep(clients, now) + [DoExpire(c, now)];
    RunSplits(db, Sweep(clients, now), DoExpire(c, now));
  }
}
