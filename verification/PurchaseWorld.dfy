/**
 Purchases among everything else that writes their rows: inspections open inbounds, revise them and
 name devices, corrections edit devices and their numbers, devices come and go by hand, and other
 operations move stock. Each source of writes is one action; one that throws changes nothing.
 */
module PurchaseWorld {
  import opened Common
  import M = ModelSequence
  import Q = QuantityLedger
  import R = LedgerRuns
  import opened PurchaseItems
  import opened Purchase

  /** Inbound ids are drawn from a sequence. */
  datatype World = World(state: State, nextId: nat)

  datatype Action =
    | Request(rows: seq<Row>, db: Lookups)
    | Open(pg: Pg, model: string, status: InboundStatus, price: Option<nat>)
    | Revise(pg: Pg, status: InboundStatus, price: Option<nat>)
    | Rename(pg: Pg, model: string)
    | Correct(pg: Pg, newModel: Option<string>, newSeq: Option<Option<nat>>)
    | AddByHand(pg: Pg, model: string, modelSeq: Option<nat>, price: Option<nat>, stockStatus: Q.Status, c: Q.Context, catalog: Q.Catalog)
    | Forget(pg: Pg, c: Q.Context)
    | MoveStock(a: R.Action)

  const EmptyWorld := World(State(map[], map[], R.EmptyStock, map[]), 0)

  predicate Begins(key: string) {
    |PREFIX| <= |key| && key[..|PREFIX|] == PREFIX
  }

  /** A key that another operation drew at random: not one of purchases, and nothing recorded under it. */
  predicate Drawn(stock: Q.Stock, c: Q.Context, suffix: Q.Suffix) {
    !Begins(c.operationKey) && Q.Find(stock.ledger.movements, c.operationKey, suffix).None?
  }

  /** The unique index on model and number lets this device row be. */
  predicate Free(s: State, pg: Pg, d: M.Device) {
    d.modelSeq.Some? ==> !M.Taken(s.devices, pg, d.model, d.modelSeq.value)
  }

  /** An inspection opens an inbound, and the device with it when there is none. */
  function Opened(w: World, pg: Pg, model: string, status: InboundStatus, price: Option<nat>): World {
    var s := w.state;
    var latest := s.latest[pg := Inbound(w.nextId, status, price, None, 0)];
    if pg in s.devices then World(s.(latest := latest), w.nextId + 1)
    else
      var named := if M.Trim(model) == "" then "UNKNOWN" else M.Trim(model);
      World(State(s.devices[pg := M.Device(named, None, 0)], latest, R.Step(s.stock, R.Receive(pg)), s.lastSeq), w.nextId + 1)
  }

  /** Inspections and corrections revise an inbound; a purchased one keeps its status. */
  function Revised(s: State, pg: Pg, status: InboundStatus, price: Option<nat>): State {
    if pg !in s.latest then s
    else
      var inbound := s.latest[pg];
      s.(latest := s.latest[pg := inbound.(status := if inbound.status == Purchased then Purchased else status, price := price, revision := inbound.revision + 1)])
  }

  /** An inspection names the device anew, if it names it at all; the number goes along. */
  function Renamed(s: State, pg: Pg, model: string): State {
    if pg !in s.devices then s
    else
      var device := s.devices[pg];
      var next := device.(model := if M.Trim(model) == "" then device.model else M.Trim(model), revision := device.revision + 1);
      if Free(s, pg, next) then s.(devices := s.devices[pg := next]) else s
  }

  /** A correction of model, number or both raises the row of the model to the number. */
  function Corrected(s: State, pg: Pg, model: Option<string>, modelSeq: Option<Option<nat>>): State {
    if pg !in s.devices || (model.Some? && M.Trim(model.value) == "") then s
    else
      var device := s.devices[pg];
      var next := M.Device(if model.Some? then M.Trim(model.value) else device.model,
                           if modelSeq.Some? then modelSeq.value else device.modelSeq, device.revision + 1);
      var rows := if model.None? && modelSeq.None? then Ok(s.lastSeq) else M.RaiseFloor(s.lastSeq, next.model, next.modelSeq);
      if rows.Ok? && Free(s, pg, next) then s.(devices := s.devices[pg := next], lastSeq := rows.value) else s
  }

  /** A device entered by hand comes purchased and stocked, with a number if one is given. */
  function AddedByHand(w: World, pg: Pg, model: string, modelSeq: Option<nat>, price: Option<nat>, status: Q.Status, c: Q.Context, catalog: Q.Catalog): World {
    var s := w.state;
    var device := M.Device(M.Trim(model), modelSeq, 0);
    var rows := M.RaiseFloor(s.lastSeq, model, modelSeq);
    var stock := Q.Create(R.Step(s.stock, R.Receive(pg)), pg, status, c, catalog);
    if pg in s.devices || device.model == "" || rows.Err? || !Free(s, pg, device) || stock.Err? || !Drawn(s.stock, c, Q.IN) then w
    else World(State(s.devices[pg := device], s.latest[pg := Inbound(w.nextId, Purchased, price, None, 0)], stock.value, rows.value), w.nextId + 1)
  }

  /** A deletion by hand takes the device with its inbounds and its inventory row. */
  function Forgotten(s: State, pg: Pg, c: Q.Context): State {
    var stock := Q.Remove(s.stock, pg, c);
    if pg !in s.devices || stock.Err? || !Drawn(s.stock, c, Q.OUT) then s
    else State(s.devices - {pg}, s.latest - {pg}, stock.value, s.lastSeq)
  }

  /** Any other operation changes statuses and SKUs of rows. */
  function Moved(s: State, a: R.Action): State {
    if (a.DoTransition? || (a.DoReclassify? && R.KeyIsNew(s.stock, a))) && !Begins(a.c.operationKey)
    then s.(stock := R.Step(s.stock, a))
    else s
  }

  ghost function Step(w: World, a: Action): World {
    match a
    case Request(rows, db) =>
      var tx := ConfirmBatch(w.state, rows, db);
      if tx.Ok? then w.(state := tx.value.0) else w
    case Open(pg, model, status, price) => Opened(w, pg, model, status, price)
    case Revise(pg, status, price) => w.(state := Revised(w.state, pg, status, price))
    case Rename(pg, model) => w.(state := Renamed(w.state, pg, model))
    case Correct(pg, model, modelSeq) => w.(state := Corrected(w.state, pg, model, modelSeq))
    case AddByHand(pg, model, modelSeq, price, status, c, catalog) => AddedByHand(w, pg, model, modelSeq, price, status, c, catalog)
    case Forget(pg, c) => w.(state := Forgotten(w.state, pg, c))
    case MoveStock(a) => w.(state := Moved(w.state, a))
  }

  ghost function Run(actions: seq<Action>): World {
    if actions == [] then EmptyWorld else Step(Run(actions[..|actions| - 1]), actions[|actions| - 1])
  }
}
