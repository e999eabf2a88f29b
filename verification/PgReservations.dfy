/**
 Reserved device numbers: a client record reserves a random PG for a day, may abandon it, and
 consumes it by saving its inspection. Every transaction is one total function; one that throws
 changes nothing.
 */
module PgReservations {
  import opened Common

  type Pg = string
  type ClientId = string

  const TTL: int := 24 * 60 * 60 * 1000
  const ATTEMPTS: nat := 12
  const MAX_ID_LENGTH: nat := 200

  datatype Kind = Appearance | Function

  /** What saving an inspection answers: the device number and which of its saves it was. */
  datatype Saved = Saved(pg: Pg, number: nat)

  datatype Status = Reserved | Consumed(result: Saved) | Abandoned

  datatype Reservation = Reservation(pg: Pg, kind: Kind, status: Status, expiresAt: Instant)

  /** One row per saved inspection; `owner` is the reservation it consumed. */
  datatype Save = Save(pg: Pg, owner: Option<ClientId>)

  datatype Db = Db(reservations: map<ClientId, Reservation>, devices: set<Pg>, saves: seq<Save>)

  datatype PgError =
    | ClientRecordRequired | IdConflict | Exhausted | NotFound | AlreadyConsumed
    | NotActive | Expired | Mismatch | ReservedForOther | InvalidPg

  datatype Granted = Granted(pg: Pg, status: Status, replayed: bool)

  // ---- the numbers ----

  /** Twelve draws: two below 26, ten below 10. */
  type Draw = d: seq<nat> | |d| == 12 && d[0] < 26 && d[1] < 26 && forall i :: 2 <= i < 12 ==> d[i] < 10
    witness [0, 0, 0, 0, 0, 0, 0, 0, 0, 0, 0, 0]

  function Letter(n: nat): char
    requires n < 26
  {
    ('A' as int + n) as char
  }

  function Digit(n: nat): char
    requires n < 10
  {
    ('0' as int + n) as char
  }

  function PgOf(d: Draw): (pg: Pg)
    ensures |pg| == 12
  {
    seq(12, i requires 0 <= i < 12 => if i < 2 then Letter(d[i]) else Digit(d[i]))
  }

  /** Two letters and ten digits. */
  predicate ValidPg(pg: Pg) {
    && |pg| == 12 && 'A' <= pg[0] <= 'Z' && 'A' <= pg[1] <= 'Z'
    && forall i :: 2 <= i < 12 ==> '0' <= pg[i] <= '9'
  }

  lemma GeneratedIsValid(d: Draw)
    ensures ValidPg(PgOf(d))
  {
  }

  /** Every valid number can be drawn. */
  lemma ValidIsGenerated(pg: Pg)
    requires ValidPg(pg)
    ensures exists d: Draw :: PgOf(d) == pg
  {
    var d: seq<nat> := seq(12, i requires 0 <= i < 12 => if i < 2 then pg[i] as int - 'A' as int else pg[i] as int - '0' as int);
    var draw: Draw := d;
    assert PgOf(draw) == pg;
  }

  // ---- transactions ----

  predicate Taken(db: Db, pg: Pg) {
    pg in db.devices || exists c :: c in db.reservations && db.reservations[c].pg == pg
  }

  predicate ValidId(client: ClientId) {
    client != "" && |client| <= MAX_ID_LENGTH
  }

  /** The first drawn number that is free, within the allowed attempts. */
  function FirstFree(db: Db, draws: seq<Draw>, attempts: nat): (r: Option<Pg>)
    ensures r.Some? ==> !Taken(db, r.value) && ValidPg(r.value)
  {
    if attempts == 0 || draws == [] then None
    else if !Taken(db, PgOf(draws[0])) then Some(PgOf(draws[0]))
    else FirstFree(db, draws[1..], attempts - 1)
  }

  function SetStatus(db: Db, client: ClientId, status: Status): Db
    requires client in db.reservations
  {
    db.(reservations := db.reservations[client := db.reservations[client].(status := status)])
  }

  function Reserve(db: Db, client: ClientId, kind: Kind, draws: seq<Draw>, now: Instant): Result<(Db, Granted), PgError> {
    if !ValidId(client) then Err(ClientRecordRequired)
    else if client in db.reservations then
      var r := db.reservations[client];
      if r.kind != kind then Err(IdConflict)
      else if r.status == Reserved && r.expiresAt <= now then Ok((SetStatus(db, client, Abandoned), Granted(r.pg, Abandoned, true)))
      else Ok((db, Granted(r.pg, r.status, true)))
    else
      var pg := FirstFree(db, draws, ATTEMPTS);
      if pg.None? then Err(Exhausted)
      else Ok((db.(reservations := db.reservations[client := Reservation(pg.value, kind, Reserved, now + TTL)]),
               Granted(pg.value, Reserved, false)))
  }

  function Abandon(db: Db, client: ClientId): Result<(Db, Granted), PgError> {
    if !ValidId(client) then Err(ClientRecordRequired)
    else if client !in db.reservations then Err(NotFound)
    else
      var r := db.reservations[client];
      match r.status
      case Consumed(_) => Err(AlreadyConsumed)
      case Abandoned => Ok((db, Granted(r.pg, Abandoned, true)))
      case Reserved => Ok((SetStatus(db, client, Abandoned), Granted(r.pg, Abandoned, false)))
  }

  predicate Overdue(db: Db, client: ClientId, now: Instant) {
    client in db.reservations && db.reservations[client].status == Reserved && db.reservations[client].expiresAt <= now
  }

  /** One turn of the sweep. */
  function Expire(db: Db, client: ClientId, now: Instant): Db {
    if Overdue(db, client, now) then SetStatus(db, client, Abandoned) else db
  }

  function NumberOfSaves(saves: seq<Save>, pg: Pg): nat {
    if saves == [] then 0 else NumberOfSaves(saves[..|saves| - 1], pg) + if saves[|saves| - 1].pg == pg then 1 else 0
  }

  function Stored(db: Db, pg: Pg, owner: Option<ClientId>): (Db, Saved) {
    (db.(devices := db.devices + {pg}, saves := db.saves + [Save(pg, owner)]), Saved(pg, NumberOfSaves(db.saves, pg)))
  }

  /** The reservation that saving `pg` for this row would have to respect. */
  predicate ReservedFor(db: Db, pg: Pg) {
    exists c :: c in db.reservations && db.reservations[c].pg == pg && db.reservations[c].status == Reserved
  }

  /** Saves an inspection; `row` names the client record and its kind when the number was reserved for it. */
  function SaveInspection(db: Db, pg: Pg, kind: Kind, row: Option<(ClientId, Kind)>, now: Instant): Result<(Db, Saved), PgError> {
    if !ValidPg(pg) then Err(InvalidPg)
    else if row.Some? && !ValidId(row.value.0) then Err(ClientRecordRequired)
    else if row.Some? && row.value.0 in db.reservations then
      var client := row.value.0;
      var r := db.reservations[client];
      match r.status
      case Consumed(result) => Ok((db, result))
      case Abandoned => Err(NotActive)
      case Reserved =>
        if r.expiresAt <= now then Err(Expired)
        else if r.pg != pg || r.kind != row.value.1 || kind != row.value.1 then Err(Mismatch)
        else
          var (next, saved) := Stored(db, pg, Some(client));
          Ok((SetStatus(next, client, Consumed(saved)), saved))
    else if ReservedFor(db, pg) then Err(ReservedForOther)
    else if row.Some? && pg !in db.devices then Err(NotFound)
    else Ok(Stored(db, pg, None))
  }

  // ---- runs ----

  datatype Action =
    | DoReserve(client: ClientId, kind: Kind, draws: seq<Draw>, now: Instant)
    | DoAbandon(client: ClientId)
    | DoExpire(client: ClientId, now: Instant)
    | DoSave(pg: Pg, kind: Kind, row: Option<(ClientId, Kind)>, now: Instant)

  const EmptyDb := Db(map[], {}, [])

  function Step(db: Db, a: Action): Db {
    match a
    case DoReserve(client, kind, draws, now) =>
      var r := Reserve(db, client, kind, draws, now); if r.Ok? then r.value.0 else db
    case DoAbandon(client) =>
      var r := Abandon(db, client); if r.Ok? then r.value.0 else db
    case DoExpire(client, now) => Expire(db, client, now)
    case DoSave(pg, kind, row, now) =>
      var r := SaveInspection(db, pg, kind, row, now); if r.Ok? then r.value.0 else db
  }

  function Run(db: Db, actions: seq<Action>): Db
    decreases |actions|
  {
    if actions == [] then db else Run(Step(db, actions[0]), actions[1..])
  }

  // ---- what every reachable state keeps ----

  /** No two client records hold the same number. */
  predicate Apart(reservations: map<ClientId, Reservation>) {
    forall c, d :: c in reservations && d in reservations && c != d ==> reservations[c].pg != reservations[d].pg
  }

  /** A reserved number has no device yet; a consumed one does. */
  predicate DevicesFit(db: Db) {
    forall c :: c in db.reservations ==>
      match db.reservations[c].status
      case Reserved => db.reservations[c].pg !in db.devices
      case Consumed(result) => db.reservations[c].pg in db.devices && result.pg == db.reservations[c].pg
      case Abandoned => true
  }

  function SavesBy(saves: seq<Save>, client: ClientId): nat {
    if saves == [] then 0 else SavesBy(saves[..|saves| - 1], client) + if saves[|saves| - 1].owner == Some(client) then 1 else 0
  }

  /** A client record has saved once when its reservation is consumed, and never otherwise. */
  ghost predicate SavedOnce(db: Db) {
    forall c: ClientId :: SavesBy(db.saves, c) == (if c in db.reservations && db.reservations[c].status.Consumed? then 1 else 0)
  }

  ghost predicate DbOk(db: Db) {
    Apart(db.reservations) && DevicesFit(db) && SavedOnce(db) && forall c :: c in db.reservations ==> ValidPg(db.reservations[c].pg)
  }

  /** What no later action takes back: the row, its number and kind, and a final status. */
  ghost predicate Evolves(a: Db, b: Db) {
    && a.devices <= b.devices
    && a.saves <= b.saves
    && forall c :: c in a.reservations ==>
         && c in b.reservations
         && b.reservations[c].pg == a.reservations[c].pg && b.reservations[c].kind == a.reservations[c].kind
         && b.reservations[c].expiresAt == a.reservations[c].expiresAt
         && (a.reservations[c].status != Reserved ==> b.reservations[c].status == a.reservations[c].status)
  }

  lemma SavesByOneMore(saves: seq<Save>, s: Save, client: ClientId)
    ensures SavesBy(saves + [s], client) == SavesBy(saves, client) + if s.owner == Some(client) then 1 else 0
  {
    assert (saves + [s])[..|saves|] == saves;
  }

  lemma SetStatusKeeps(db: Db, client: ClientId)
    requires DbOk(db) && client in db.reservations && db.reservations[client].status == Reserved
    ensures DbOk(SetStatus(db, client, Abandoned)) && Evolves(db, SetStatus(db, client, Abandoned))
  {
  }

  lemma ReserveKeeps(db: Db, client: ClientId, kind: Kind, draws: seq<Draw>, now: Instant)
    requires DbOk(db) && Reserve(db, client, kind, draws, now).Ok?
    ensures DbOk(Reserve(db, client, kind, draws, now).value.0) && Evolves(db, Reserve(db, client, kind, draws, now).value.0)
  {
    if client in db.reservations {
      if Overdue(db, client, now) {
        SetStatusKeeps(db, client);
      }
    } else {
      GrantKeeps(db, client, Reservation(FirstFree(db, draws, ATTEMPTS).value, kind, Reserved, now + TTL));
    }
  }

  lemma GrantKeeps(db: Db, client: ClientId, r: Reservation)
    requires DbOk(db) && client !in db.reservations && r.status == Reserved && !Taken(db, r.pg) && ValidPg(r.pg)
    ensures var next := db.(reservations := db.reservations[client := r]); DbOk(next) && Evolves(db, next)
  {
    assert forall c :: c in db.reservations ==> db.reservations[c].pg != r.pg;
  }

  lemma StoreKeeps(db: Db, pg: Pg)
    requires DbOk(db) && !ReservedFor(db, pg)
    ensures DbOk(Stored(db, pg, None).0) && Evolves(db, Stored(db, pg, None).0)
  {
    forall c: ClientId
      ensures SavesBy(Stored(db, pg, None).0.saves, c) == SavesBy(db.saves, c)
    {
      SavesByOneMore(db.saves, Save(pg, None), c);
    }
  }

  lemma ConsumeKeeps(db: Db, client: ClientId)
    requires DbOk(db) && client in db.reservations && db.reservations[client].status == Reserved
    ensures var (next, saved) := Stored(db, db.reservations[client].pg, Some(client));
            var after := SetStatus(next, client, Consumed(saved));
            DbOk(after) && Evolves(db, after)
  {
    var pg := db.reservations[client].pg;
    forall c: ClientId
      ensures SavesBy(db.saves + [Save(pg, Some(client))], c) == SavesBy(db.saves, c) + if c == client then 1 else 0
    {
      SavesByOneMore(db.saves, Save(pg, Some(client)), c);
    }
  }

  lemma SaveKeeps(db: Db, pg: Pg, kind: Kind, row: Option<(ClientId, Kind)>, now: Instant)
    requires DbOk(db) && SaveInspection(db, pg, kind, row, now).Ok?
    ensures DbOk(SaveInspection(db, pg, kind, row, now).value.0) && Evolves(db, SaveInspection(db, pg, kind, row, now).value.0)
  {
    if row.Some? && row.value.0 in db.reservations {
      if db.reservations[row.value.0].status == Reserved {
        ConsumeKeeps(db, row.value.0);
      }
    } else {
      StoreKeeps(db, pg);
    }
  }

  lemma StepKeeps(db: Db, a: Action)
    requires DbOk(db)
    ensures DbOk(Step(db, a)) && Evolves(db, Step(db, a))
  {
    match a
    case DoReserve(client, kind, draws, now) =>
      if Reserve(db, client, kind, draws, now).Ok? { ReserveKeeps(db, client, kind, draws, now); }
    case DoAbandon(client) =>
      if client in db.reservations && db.reservations[client].status == Reserved { SetStatusKeeps(db, client); }
    case DoExpire(client, now) =>
      if Overdue(db, client, now) { SetStatusKeeps(db, client); }
    case DoSave(pg, kind, row, now) =>
      if SaveInspection(db, pg, kind, row, now).Ok? { SaveKeeps(db, pg, kind, row, now); }
  }

  lemma EvolvesTrans(a: Db, b: Db, c: Db)
    requires Evolves(a, b) && Evolves(b, c)
    ensures Evolves(a, c)
  {
  }

  lemma {:induction false} RunKeeps(db: Db, actions: seq<Action>)
    requires DbOk(db)
    ensures DbOk(Run(db, actions)) && Evolves(db, Run(db, actions))
    decreases |actions|
  {
    if actions != [] {
      var next := Step(db, actions[0]);
      StepKeeps(db, actions[0]);
      RunKeeps(next, actions[1..]);
      EvolvesTrans(db, next, Run(next, actions[1..]));
    }
  }

  // ---- main results ----

  /** A client record is bound to one number forever, and to a number no other record has. */
  lemma {:induction false} BoundForever(actions: seq<Action>, more: seq<Action>, client: ClientId)
    requires client in Run(EmptyDb, actions).reservations
    ensures var a, b := Run(EmptyDb, actions), Run(Run(EmptyDb, actions), more);
            && client in b.reservations && b.reservations[client].pg == a.reservations[client].pg && ValidPg(a.reservations[client].pg)
            && forall other :: other in b.reservations && other != client ==> b.reservations[other].pg != a.reservations[client].pg
  {
    RunKeeps(EmptyDb, actions);
    RunKeeps(Run(EmptyDb, actions), more);
  }

  /** RESERVED is left only for CONSUMED or ABANDONED, and both are final, the stored result included. */
  lemma {:induction false} FinalStaysFinal(actions: seq<Action>, more: seq<Action>, client: ClientId)
    requires client in Run(EmptyDb, actions).reservations && Run(EmptyDb, actions).reservations[client].status != Reserved
    ensures var a, b := Run(EmptyDb, actions), Run(Run(EmptyDb, actions), more);
            client in b.reservations && b.reservations[client] == a.reservations[client]
  {
    RunKeeps(EmptyDb, actions);
    RunKeeps(Run(EmptyDb, actions), more);
  }

  /** Saving a consumed row again returns the stored result, whatever is sent, and changes nothing at all. */
  lemma {:induction false} ReplayChangesNothing(actions: seq<Action>, more: seq<Action>, client: ClientId, pg: Pg, kind: Kind, rowKind: Kind, now: Instant)
    requires client in Run(EmptyDb, actions).reservations && Run(EmptyDb, actions).reservations[client].status.Consumed?
    requires ValidPg(pg) && ValidId(client)
    ensures var a, b := Run(EmptyDb, actions), Run(Run(EmptyDb, actions), more);
            SaveInspection(b, pg, kind, Some((client, rowKind)), now) == Ok((b, a.reservations[client].status.result))
  {
    FinalStaysFinal(actions, more, client);
  }

  /** A client record's inspection is saved once if its reservation was consumed, never otherwise. */
  lemma {:induction false} SavedExactlyOnce(actions: seq<Action>, client: ClientId)
    ensures var db := Run(EmptyDb, actions);
            SavesBy(db.saves, client) == (if client in db.reservations && db.reservations[client].status.Consumed? then 1 else 0)
  {
    RunKeeps(EmptyDb, actions);
  }

  /** A number reserved for one row never has a device before that row is saved, and no other save can make one. */
  lemma {:induction false} NoDeviceUnderForeignReservation(actions: seq<Action>, pg: Pg, kind: Kind, row: Option<(ClientId, Kind)>, now: Instant, owner: ClientId)
    requires var db := Run(EmptyDb, actions);
             owner in db.reservations && db.reservations[owner].status == Reserved && db.reservations[owner].pg == pg
    ensures var db := Run(EmptyDb, actions);
            && pg !in db.devices
            && var r := SaveInspection(db, pg, kind, row, now);
               (r.Ok? && pg in r.value.0.devices ==> row == Some((owner, db.reservations[owner].kind)) && now < db.reservations[owner].expiresAt)
  {
    RunKeeps(EmptyDb, actions);
  }

  /** A reservation answers every later request of the same record and kind with its one number. */
  lemma {:induction false} ReserveAgainIsReplay(actions: seq<Action>, more: seq<Action>, client: ClientId, draws: seq<Draw>, now: Instant)
    requires client in Run(EmptyDb, actions).reservations && ValidId(client)
    ensures var a, b := Run(EmptyDb, actions), Run(Run(EmptyDb, actions), more);
            var r := Reserve(b, client, a.reservations[client].kind, draws, now);
            r.Ok? && r.value.1.replayed && r.value.1.pg == a.reservations[client].pg
  {
    RunKeeps(EmptyDb, actions);
    RunKeeps(Run(EmptyDb, actions), more);
  }
}
