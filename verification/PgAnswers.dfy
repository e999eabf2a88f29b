/**
 How long a reservation holds: from the moment it is made it can be saved for a day, unless it is given
 up, and never after; once given up it stays so. And which saves go through at all.
 */
module PgAnswers {
  import opened Common
  import opened PgReservations

  const DAY: int := 86_400_000

  // ---- which number is drawn ----

  /** The first free one of twelve draws. */
  lemma {:induction false} FirstFreeIs(db: Db, draws: seq<Draw>, attempts: nat)
    ensures match FirstFree(db, draws, attempts)
            case None => forall i :: 0 <= i < |draws| && i < attempts ==> Taken(db, PgOf(draws[i]))
            case Some(pg) => exists i :: 0 <= i < |draws| && i < attempts && PgOf(draws[i]) == pg && !Taken(db, pg)
                                         && forall k :: 0 <= k < i ==> Taken(db, PgOf(draws[k]))
    decreases |draws|
  {
    if attempts > 0 && draws != [] {
      if Taken(db, PgOf(draws[0])) {
        FirstFreeIs(db, draws[1..], attempts - 1);
        var r := FirstFree(db, draws[1..], attempts - 1);
        if r.None? {
          assert forall i :: 0 < i < |draws| ==> draws[i] == draws[1..][i - 1];
        } else {
          var i :| 0 <= i < |draws[1..]| && i < attempts - 1 && PgOf(draws[1..][i]) == r.value && forall k :: 0 <= k < i ==> Taken(db, PgOf(draws[1..][k]));
          assert forall k :: 0 < k < i + 1 ==> draws[k] == draws[1..][k - 1];
          assert PgOf(draws[i + 1]) == r.value;
        }
      } else {
        assert PgOf(draws[0]) == FirstFree(db, draws, attempts).value;
      }
    }
  }

  /**
   What a reservation answers, in every reachable state: a new record gets the first free number of twelve
   draws for a day, and an old one its number again, given up when its day is over, or a conflict of kinds.
   */
  lemma {:induction false} ReserveAnswers(actions: seq<Action>, client: ClientId, kind: Kind, draws: seq<Draw>, now: Instant)
    requires client != "" && |client| <= 200
    ensures var db := Run(EmptyDb, actions); var tx := Reserve(db, client, kind, draws, now);
            if client !in db.reservations then
              if forall i :: 0 <= i < |draws| && i < 12 ==> Taken(db, PgOf(draws[i])) then tx == Err(Exhausted)
              else
                && tx.Ok? && tx.value.1 == Granted(tx.value.1.pg, Reserved, false)
                && (exists i :: 0 <= i < |draws| && i < 12 && PgOf(draws[i]) == tx.value.1.pg && forall k :: 0 <= k < i ==> Taken(db, PgOf(draws[k])))
                && !Taken(db, tx.value.1.pg)
                && tx.value.0 == db.(reservations := db.reservations[client := Reservation(tx.value.1.pg, kind, Reserved, now + DAY)])
            else if db.reservations[client].kind != kind then tx == Err(IdConflict)
            else
              var r := db.reservations[client];
              var lapsed := r.status == Reserved && now >= r.expiresAt;
              && tx.Ok? && tx.value.1 == Granted(r.pg, if lapsed then Abandoned else r.status, true)
              && tx.value.0 == (if lapsed then db.(reservations := db.reservations[client := r.(status := Abandoned)]) else db)
  {
    hide Run;
    FirstFreeIs(Run(EmptyDb, actions), draws, 12);
  }

  // ---- a reservation holds its day ----

  /** This action does not end the reservation: it is no abandonment, and no one looks at it after its time. */
  predicate Leaves(a: Action, client: ClientId, expiresAt: Instant) {
    match a
    case DoAbandon(c) => c != client
    case DoReserve(c, _, _, now) => c != client || now < expiresAt
    case DoExpire(c, now) => c != client || now < expiresAt
    case DoSave(_, _, _, _) => true
  }

  predicate StillThere(db: Db, client: ClientId, r: Reservation) {
    && client in db.reservations && db.reservations[client].pg == r.pg && db.reservations[client].kind == r.kind
    && db.reservations[client].expiresAt == r.expiresAt && db.reservations[client].status != Abandoned
  }

  lemma StepLeaves(db: Db, a: Action, client: ClientId, r: Reservation)
    requires StillThere(db, client, r) && Leaves(a, client, r.expiresAt)
    ensures StillThere(Step(db, a), client, r)
  {
  }

  lemma {:induction false} RunLeaves(db: Db, more: seq<Action>, client: ClientId, r: Reservation)
    requires StillThere(db, client, r) && forall i :: 0 <= i < |more| ==> Leaves(more[i], client, r.expiresAt)
    ensures StillThere(Run(db, more), client, r)
    decreases |more|
  {
    if more != [] {
      StepLeaves(db, more[0], client, r);
      hide Step, StillThere, Leaves;
      RunLeaves(Step(db, more[0]), more[1..], client, r);
    }
  }

  /** What the save of a row for its own reservation does: the device is there, the save is counted, the result is kept. */
  predicate SavedFor(before: Db, tx: Result<(Db, Saved), PgError>, client: ClientId, pg: Pg) {
    && tx.Ok? && client in before.reservations && client in tx.value.0.reservations
    && tx.value.1.pg == pg && pg in tx.value.0.devices
    && tx.value.0.saves == before.saves + [Save(pg, Some(client))]
    && tx.value.0.reservations == before.reservations[client := before.reservations[client].(status := Consumed(tx.value.1))]
  }

  lemma SavesItsOwn(db: Db, client: ClientId, r: Reservation, t: Instant)
    requires StillThere(db, client, r) && db.reservations[client].status == Reserved && t < r.expiresAt && ValidPg(r.pg) && ValidId(client)
    ensures SavedFor(db, SaveInspection(db, r.pg, r.kind, Some((client, r.kind)), t), client, r.pg)
  {
    hide NumberOfSaves, ValidPg, ValidId;
  }

  lemma GrantStands(db: Db, client: ClientId, kind: Kind, draws: seq<Draw>, now: Instant)
    requires DbOk(db) && client !in db.reservations && Reserve(db, client, kind, draws, now).Ok?
    ensures var (next, granted) := Reserve(db, client, kind, draws, now).value;
            && DbOk(next) && StillThere(next, client, Reservation(granted.pg, kind, Reserved, now + DAY))
            && ValidPg(granted.pg) && ValidId(client)
  {
    ReserveKeeps(db, client, kind, draws, now);
    hide SavedOnce, Apart, DevicesFit, Taken, ValidPg;
  }

  /**
   A new reservation holds for a day: unless it is given up, and whatever else goes on, at any time
   before its end its row can be saved under its number, if that has not been done yet.
   */
  lemma {:induction false} ReservationHoldsItsDay(actions: seq<Action>, client: ClientId, kind: Kind, draws: seq<Draw>, now: Instant, more: seq<Action>, t: Instant)
    requires var db := Run(EmptyDb, actions); client !in db.reservations && Reserve(db, client, kind, draws, now).Ok?
    requires forall i :: 0 <= i < |more| ==> Leaves(more[i], client, now + DAY)
    requires t < now + DAY
    ensures var (next, granted) := Reserve(Run(EmptyDb, actions), client, kind, draws, now).value; var later := Run(next, more);
            && client in later.reservations && later.reservations[client].pg == granted.pg
            && (later.reservations[client].status == Reserved || later.reservations[client].status.Consumed?)
            && (later.reservations[client].status == Reserved ==>
                  SavedFor(later, SaveInspection(later, granted.pg, kind, Some((client, kind)), t), client, granted.pg))
  {
    RunKeeps(EmptyDb, actions);
    hide Run, Leaves, DbOk, Evolves, Reserve, StillThere, SavedFor, SaveInspection, ValidPg, ValidId;
    var (next, granted) := Reserve(Run(EmptyDb, actions), client, kind, draws, now).value;
    var r := Reservation(granted.pg, kind, Reserved, now + DAY);
    GrantStands(Run(EmptyDb, actions), client, kind, draws, now);
    RunLeaves(next, more, client, r);
    WhatStillThereSays(Run(next, more), client, r);
    if Run(next, more).reservations[client].status == Reserved {
      SavesItsOwn(Run(next, more), client, r, t);
    }
  }

  lemma WhatStillThereSays(db: Db, client: ClientId, r: Reservation)
    requires StillThere(db, client, r)
    ensures client in db.reservations && db.reservations[client].pg == r.pg && db.reservations[client].status != Abandoned
  {
  }

  /** When its day is over nothing is saved under it any more, and whoever looks at it gives it up. */
  lemma OverAfterItsDay(db: Db, client: ClientId, pg: Pg, kind: Kind, rowKind: Kind, draws: seq<Draw>, t: Instant)
    requires client in db.reservations && db.reservations[client].status == Reserved && t >= db.reservations[client].expiresAt
    requires ValidId(client) && ValidPg(pg)
    ensures SaveInspection(db, pg, kind, Some((client, rowKind)), t) == Err(PgError.Expired)
    ensures Expire(db, client, t) == db.(reservations := db.reservations[client := db.reservations[client].(status := Abandoned)])
    ensures Step(db, DoReserve(client, db.reservations[client].kind, draws, t)) == Expire(db, client, t)
  {
  }

  // ---- what is given up stays given up ----

  /**
   An abandonment that is accepted is final: in every continuation the reservation is ABANDONED, its row
   is never saved, and its number is not given out again. It is refused only for a row that was saved.
   */
  lemma {:induction false} AbandonedForGood(actions: seq<Action>, client: ClientId, more: seq<Action>, pg: Pg, kind: Kind, rowKind: Kind, t: Instant)
    requires client in Run(EmptyDb, actions).reservations && ValidId(client) && ValidPg(pg)
    ensures var db := Run(EmptyDb, actions); var tx := Abandon(db, client);
            if db.reservations[client].status.Consumed? then tx == Err(AlreadyConsumed)
            else
              && tx.Ok? && tx.value.1 == Granted(db.reservations[client].pg, Abandoned, db.reservations[client].status == Abandoned)
              && var later := Run(tx.value.0, more);
                 && client in later.reservations && later.reservations[client].status == Abandoned
                 && SavesBy(later.saves, client) == 0
                 && SaveInspection(later, pg, kind, Some((client, rowKind)), t) == Err(NotActive)
                 && Taken(later, db.reservations[client].pg)
  {
    RunKeeps(EmptyDb, actions);
    var db := Run(EmptyDb, actions);
    if !db.reservations[client].status.Consumed? {
      StepKeeps(db, DoAbandon(client));
      RunKeeps(Abandon(db, client).value.0, more);
    }
  }

  /**
   While a reservation is RESERVED its row is saved exactly when the number is the reserved one, row and
   inspection are of the reserved kind and the day is not over.
   */
  lemma ReservedSavedIff(db: Db, client: ClientId, pg: Pg, kind: Kind, rowKind: Kind, t: Instant)
    requires client in db.reservations && db.reservations[client].status == Reserved && ValidId(client) && ValidPg(pg)
    ensures var r := db.reservations[client]; var tx := SaveInspection(db, pg, kind, Some((client, rowKind)), t);
            if t >= r.expiresAt then tx == Err(PgError.Expired)
            else if pg == r.pg && rowKind == r.kind && kind == r.kind then SavedFor(db, tx, client, pg)
            else tx == Err(Mismatch)
  {
    hide NumberOfSaves, ValidPg, ValidId;
  }

  // ---- saves without a reservation ----

  /** Without a reservation of its own a save goes through unless the number is reserved for a row, or a row without a device asks for it. */
  lemma {:induction false} UnreservedSavedIff(actions: seq<Action>, pg: Pg, kind: Kind, row: Option<(ClientId, Kind)>, t: Instant)
    requires row.Some? ==> ValidId(row.value.0) && row.value.0 !in Run(EmptyDb, actions).reservations
    ensures var db := Run(EmptyDb, actions); var tx := SaveInspection(db, pg, kind, row, t);
            && (tx.Ok? <==>
                  && ValidPg(pg)
                  && (forall c :: c in db.reservations && db.reservations[c].pg == pg ==> db.reservations[c].status != Reserved)
                  && (row.Some? ==> pg in db.devices))
            && (tx.Ok? ==> tx.value.0 == db.(devices := db.devices + {pg}, saves := db.saves + [Save(pg, None)]) && tx.value.1.pg == pg)
  {
  }
}
