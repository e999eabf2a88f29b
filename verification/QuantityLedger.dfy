/**
 The inventory quantity ledger: a balance for every SKU and status, movements that explain it,
 and the four operations that change inventory rows together with the ledger. A transaction that
 throws leaves everything as it was.
 */
module QuantityLedger {
  import opened Common

  type Pg = string
  type Sku = n: int | n > 0 witness 1
  type Status = string

  datatype Key = Key(sku: Sku, status: Status)

  datatype MovementType = InventoryCreated | StatusTransfer | SkuReclassification | InventoryRemoved | OtherType(name: string)

  datatype Suffix = IN | OUT | OldSkuOut | NewSkuIn

  datatype Context = Context(operationKey: string, sourceType: string, sourceId: Option<string>)

  /** The idempotency key of a movement is its operation key and its suffix. */
  datatype Movement = Movement(
    key: Key, operationKey: string, suffix: Suffix, movementType: MovementType, pg: Option<Pg>,
    delta: int, before: nat, after: nat, sourceType: string, sourceId: Option<string>)

  datatype Ledger = Ledger(balances: map<Key, nat>, movements: seq<Movement>)

  /** Devices know their SKU, inventory rows their status. */
  datatype Stock = Stock(devices: map<Pg, Option<Sku>>, inventory: map<Pg, Status>, ledger: Ledger)

  datatype LedgerError =
    | InvalidInput | KeyCollision | NoBalance | NegativeQuantity | SkuIncomplete | NotFound
    | UnknownStatus | StateConflict | EditNotAllowed | NotReady | AlreadyExists

  const KNOWN_STATUSES: set<Status> := {
    "SELLABLE", "RESERVED", "PACKING", "PACKED", "DEPARTURE", "DELIVERING", "FINAL_DELIVERY",
    "NONE_TRACKING", "HOLD", "DEFECTIVE", "RETURN_REQUESTED", "EXCHANGE_REQUESTED", "RETURN_CHECK"
  }

  predicate Known(status: Status) {
    status in KNOWN_STATUSES
  }

  predicate SkuEditable(status: Status) {
    status == "HOLD" || status == "DEFECTIVE" || status == "RETURN_CHECK"
  }

  // ---- one movement ----

  /** The movement recorded under an idempotency key, if any. */
  function Find(ms: seq<Movement>, operationKey: string, suffix: Suffix): (r: Option<Movement>)
    ensures r.Some? ==> r.value in ms && r.value.operationKey == operationKey && r.value.suffix == suffix
    ensures r.None? ==> forall m :: m in ms ==> !(m.operationKey == operationKey && m.suffix == suffix)
  {
    if ms == [] then None
    else if ms[0].operationKey == operationKey && ms[0].suffix == suffix then Some(ms[0])
    else Find(ms[1..], operationKey, suffix)
  }

  function Balance(l: Ledger, key: Key): nat {
    if key in l.balances then l.balances[key] else 0
  }

  predicate SameRequest(m: Movement, key: Key, c: Context, t: MovementType, pg: Option<Pg>, delta: int) {
    m.movementType == t && m.pg == pg && m.delta == delta && m.sourceType == c.sourceType && m.sourceId == c.sourceId && m.key == key
  }

  function Posted(l: Ledger, key: Key, c: Context, t: MovementType, pg: Option<Pg>, delta: int, suffix: Suffix): Ledger
    requires Balance(l, key) + delta >= 0
  {
    var after := Balance(l, key) + delta;
    Ledger(l.balances[key := after],
           l.movements + [Movement(key, c.operationKey, suffix, t, pg, delta, Balance(l, key), after, c.sourceType, c.sourceId)])
  }

  /** Posts one movement, or finds that this very movement was posted before. */
  function ApplyDelta(l: Ledger, key: Key, c: Context, t: MovementType, pg: Option<Pg>, delta: int, suffix: Suffix): Result<Ledger, LedgerError> {
    if c.operationKey == "" || key.status == "" || c.sourceType == "" || delta == 0 then Err(InvalidInput)
    else
      var existing := Find(l.movements, c.operationKey, suffix);
      if existing.Some? then (if SameRequest(existing.value, key, c, t, pg, delta) then Ok(l) else Err(KeyCollision))
      else if key !in l.balances && delta < 0 then Err(NoBalance)
      else if Balance(l, key) + delta < 0 then Err(NegativeQuantity)
      else Ok(Posted(l, key, c, t, pg, delta, suffix))
  }

  // ---- the SKU of a device ----

  /** What the catalog says: whether the device is described completely, its linked SKU is usable, and which SKU its description leads to. */
  datatype Catalog = Catalog(complete: bool, linkedActive: bool, resolved: Option<Sku>)

  /** Keeps the linked SKU unless the description changed. */
  function AssignSku(s: Stock, pg: Pg, catalog: Catalog, mustResolve: bool): Result<Sku, LedgerError> {
    if pg !in s.devices then Err(NotFound)
    else if !catalog.complete then Err(SkuIncomplete)
    else if s.devices[pg].Some? && !mustResolve then
      (if !catalog.linkedActive && pg !in s.inventory then Err(StateConflict) else Ok(s.devices[pg].value))
    else if catalog.resolved.None? then Err(StateConflict)
    else Ok(catalog.resolved.value)
  }

  // ---- the four operations, each with the change of rows its callers make in the same transaction ----

  /** A new inventory row for a device that has none. */
  function Create(s: Stock, pg: Pg, status: Status, c: Context, catalog: Catalog): Result<Stock, LedgerError> {
    if pg !in s.devices then Err(NotFound)
    else if pg in s.inventory then Err(AlreadyExists)
    else if !Known(status) then Err(UnknownStatus)
    else
      var stocked := s.(inventory := s.inventory[pg := status]);
      var sku := AssignSku(stocked, pg, catalog, false);
      if sku.Err? then Err(sku.error)
      else
        var l := ApplyDelta(s.ledger, Key(sku.value, status), c, InventoryCreated, Some(pg), 1, IN);
        if l.Err? then Err(l.error)
        else Ok(stocked.(devices := s.devices[pg := Some(sku.value)], ledger := l.value))
  }

  /** A manually created device leaves together with its inventory row. */
  function Remove(s: Stock, pg: Pg, c: Context): Result<Stock, LedgerError> {
    if pg !in s.devices then Err(NotFound)
    else if pg !in s.inventory then Ok(s.(devices := s.devices - {pg}))
    else if s.devices[pg].None? then Err(StateConflict)
    else
      var l := ApplyDelta(s.ledger, Key(s.devices[pg].value, s.inventory[pg]), c, InventoryRemoved, Some(pg), -1, OUT);
      if l.Err? then Err(l.error)
      else Ok(Stock(s.devices - {pg}, s.inventory - {pg}, l.value))
  }

  /** The two movements of a transition that was made before under this key. */
  predicate MatchesTransition(outM: Movement, inM: Movement, pg: Pg, target: Status, expectedFrom: Option<Status>, c: Context) {
    && outM.movementType == StatusTransfer && inM.movementType == StatusTransfer
    && outM.sourceType == c.sourceType && inM.sourceType == c.sourceType
    && outM.sourceId == c.sourceId && inM.sourceId == c.sourceId
    && outM.pg == Some(pg) && inM.pg == Some(pg)
    && outM.delta == -1 && inM.delta == 1
    && outM.key.sku == inM.key.sku && inM.key.status == target
    && (expectedFrom.Some? ==> outM.key.status == expectedFrom.value)
  }

  /** Moves a row to another status; `policy` says which moves the caller may make. */
  function Transition(s: Stock, pg: Pg, target: Status, expectedFrom: Option<Status>, policy: (Status, Status) -> bool, c: Context, catalog: Catalog)
    : Result<Stock, LedgerError>
  {
    if pg == "" || target == "" || c.operationKey == "" then Err(InvalidInput)
    else if pg !in s.inventory then Err(NotFound)
    else if !Known(s.inventory[pg]) || !Known(target) then Err(UnknownStatus)
    else
      var from := s.inventory[pg];
      var outM, inM := Find(s.ledger.movements, c.operationKey, OUT), Find(s.ledger.movements, c.operationKey, IN);
      if outM.Some? || inM.Some? then
        (if outM.None? || inM.None? || !MatchesTransition(outM.value, inM.value, pg, target, expectedFrom, c) then Err(KeyCollision)
         else if outM.value.key.status != target && !policy(outM.value.key.status, target) then Err(StateConflict)
         else Ok(s))
      else if expectedFrom.Some? && from != expectedFrom.value then Err(StateConflict)
      else if from == target then Ok(s)
      else if !policy(from, target) then Err(StateConflict)
      else
        var sku := AssignSku(s, pg, catalog, false);
        if sku.Err? then Err(sku.error)
        else
          var l1 := ApplyDelta(s.ledger, Key(sku.value, from), c, StatusTransfer, Some(pg), -1, OUT);
          if l1.Err? then Err(l1.error)
          else
            var l2 := ApplyDelta(l1.value, Key(sku.value, target), c, StatusTransfer, Some(pg), 1, IN);
            if l2.Err? then Err(l2.error)
            else Ok(Stock(s.devices[pg := Some(sku.value)], s.inventory[pg := target], l2.value))
  }

  /** A device's description changed: its SKU, and the ledger when it has an inventory row. */
  function Reclassify(s: Stock, pg: Pg, c: Context, catalog: Catalog, mustResolve: bool): Result<Stock, LedgerError> {
    var sku := AssignSku(s, pg, catalog, mustResolve);
    if sku.Err? then Err(sku.error)
    else
      var previous := s.devices[pg];
      var relinked := s.(devices := s.devices[pg := Some(sku.value)]);
      if pg !in s.inventory || previous == Some(sku.value) then Ok(relinked)
      else if !SkuEditable(s.inventory[pg]) then Err(EditNotAllowed)
      else if previous.None? then
        if s.ledger.movements == [] then Err(NotReady)
        else
          var l := ApplyDelta(s.ledger, Key(sku.value, s.inventory[pg]), c, SkuReclassification, Some(pg), 1, NewSkuIn);
          if l.Err? then Err(l.error) else Ok(relinked.(ledger := l.value))
      else
        var l1 := ApplyDelta(s.ledger, Key(previous.value, s.inventory[pg]), c, SkuReclassification, Some(pg), -1, OldSkuOut);
        if l1.Err? then Err(l1.error)
        else
          var l2 := ApplyDelta(l1.value, Key(sku.value, s.inventory[pg]), c, SkuReclassification, Some(pg), 1, NewSkuIn);
          if l2.Err? then Err(l2.error) else Ok(relinked.(ledger := l2.value))
  }

  // ---- what a sound ledger is ----

  function SumOf(ms: seq<Movement>, key: Key): int {
    if ms == [] then 0
    else SumOf(ms[..|ms| - 1], key) + if ms[|ms| - 1].key == key then ms[|ms| - 1].delta else 0
  }

  /** after_quantity of the latest movement of a balance. */
  function LastAfter(ms: seq<Movement>, key: Key): Option<nat> {
    if ms == [] then None
    else if ms[|ms| - 1].key == key then Some(ms[|ms| - 1].after)
    else LastAfter(ms[..|ms| - 1], key)
  }

  function RowsAt(s: Stock, key: Key): set<Pg> {
    set pg | pg in s.inventory && pg in s.devices && s.devices[pg] == Some(key.sku) && s.inventory[pg] == key.status
  }

  /** A balance is the sum of its movements and what the last of them left; without a balance there is no movement. */
  predicate KeyBalanced(l: Ledger, key: Key) {
    && SumOf(l.movements, key) == Balance(l, key)
    && LastAfter(l.movements, key) == (if key in l.balances then Some(l.balances[key]) else None)
  }

  ghost predicate Balanced(l: Ledger) {
    forall key :: KeyBalanced(l, key)
  }

  /** A balance is the number of inventory rows with that SKU and status. */
  ghost predicate CountsRows(s: Stock) {
    forall key :: Balance(s.ledger, key) == |RowsAt(s, key)|
  }

  /** Every inventory row belongs to a device with a SKU and has a known status. */
  predicate Classified(s: Stock) {
    forall pg :: pg in s.inventory ==> pg in s.devices && s.devices[pg].Some? && Known(s.inventory[pg])
  }

  ghost predicate Sound(s: Stock) {
    Balanced(s.ledger) && CountsRows(s) && Classified(s) && (forall key :: key in s.ledger.balances ==> Known(key.status))
  }

  // ---- posting keeps the ledger balanced ----

  lemma PostedBalanced(l: Ledger, key: Key, c: Context, t: MovementType, pg: Option<Pg>, delta: int, suffix: Suffix)
    requires Balanced(l) && Balance(l, key) + delta >= 0
    ensures Balanced(Posted(l, key, c, t, pg, delta, suffix))
  {
    var next := Posted(l, key, c, t, pg, delta, suffix);
    assert next.movements[..|next.movements| - 1] == l.movements;
    forall k
      ensures KeyBalanced(next, k)
    {
      assert KeyBalanced(l, k);
    }
  }

  /** With a key that was not used before, a movement that is accepted is posted. */
  lemma ApplyPosts(l: Ledger, key: Key, c: Context, t: MovementType, pg: Option<Pg>, delta: int, suffix: Suffix)
    requires Balanced(l) && ApplyDelta(l, key, c, t, pg, delta, suffix).Ok? && Find(l.movements, c.operationKey, suffix).None?
    ensures Balance(l, key) + delta >= 0
    ensures var next := ApplyDelta(l, key, c, t, pg, delta, suffix).value;
            next == Posted(l, key, c, t, pg, delta, suffix) && Balanced(next)
  {
    PostedBalanced(l, key, c, t, pg, delta, suffix);
  }

  // ---- rows and balances move together ----

  lemma RowsCount(before: Stock, after: Stock, key: Key, pg: Pg)
    requires forall p :: p != pg ==> (p in before.inventory <==> p in after.inventory) && (p in before.devices <==> p in after.devices)
    requires forall p :: p != pg && p in before.inventory ==> before.inventory[p] == after.inventory[p]
    requires forall p :: p != pg && p in before.devices ==> before.devices[p] == after.devices[p]
    ensures |RowsAt(after, key)| == |RowsAt(before, key)| + (if pg in RowsAt(after, key) then 1 else 0) - (if pg in RowsAt(before, key) then 1 else 0)
  {
    assert RowsAt(after, key) - {pg} == RowsAt(before, key) - {pg};
    assert |RowsAt(after, key) - {pg}| == |RowsAt(after, key)| - (if pg in RowsAt(after, key) then 1 else 0);
  }

  /** Two stocks that differ only in the rows of one device. */
  ghost predicate OnlyRow(before: Stock, after: Stock, pg: Pg) {
    && (forall p :: p != pg ==> (p in before.inventory <==> p in after.inventory) && (p in before.devices <==> p in after.devices))
    && (forall p :: p != pg && p in before.inventory ==> before.inventory[p] == after.inventory[p])
    && (forall p :: p != pg && p in before.devices ==> before.devices[p] == after.devices[p])
  }

  /** Where a device is counted, if anywhere. */
  function PlaceOf(s: Stock, pg: Pg): Option<Key> {
    if pg in s.inventory && pg in s.devices && s.devices[pg].Some? then Some(Key(s.devices[pg].value, s.inventory[pg])) else None
  }

  function At(place: Option<Key>, key: Key): int {
    if place == Some(key) then 1 else 0
  }

  /** The balances count the rows after a change exactly when they moved as the one row did. */
  lemma CountsFollow(before: Stock, after: Stock, pg: Pg)
    requires CountsRows(before) && OnlyRow(before, after, pg)
    ensures CountsRows(after) <==>
      forall key :: Balance(after.ledger, key) == Balance(before.ledger, key) + At(PlaceOf(after, pg), key) - At(PlaceOf(before, pg), key)
  {
    forall key
      ensures |RowsAt(after, key)| == |RowsAt(before, key)| + At(PlaceOf(after, pg), key) - At(PlaceOf(before, pg), key)
    {
      RowsCount(before, after, key, pg);
    }
  }
}
