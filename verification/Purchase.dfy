/**
 Purchase confirmation: an inspected inbound becomes a purchase with a sellable inventory row and a
 model number; a purchase left half done is completed; anything else is skipped or a conflict.
 A batch is one transaction, so a step that throws undoes all of it.
 */
module Purchase {
  import opened Common
  import M = ModelSequence
  import Q = QuantityLedger
  import opened PurchaseItems

  datatype InboundStatus = Inspected | Purchased | SupplierReturn | Other(name: string)

  /** What the purchase price rests on. */
  datatype Evidence = Manual | ByRate(rateId: nat, amount: nat) | Override(rateId: nat, amount: nat)

  datatype Inbound = Inbound(id: nat, status: InboundStatus, price: Option<nat>, evidence: Option<Evidence>, revision: nat)

  /** Of the inbounds only the latest of each device takes part. */
  datatype State = State(devices: map<Pg, M.Device>, latest: map<Pg, Inbound>, stock: Q.Stock, lastSeq: map<string, nat>)

  datatype Rate = Rate(revision: nat, price: nat)

  /** The tables a confirmation only reads: rates, whether a rate fits the device and the query, and the catalog. */
  datatype Lookups = Lookups(rates: map<nat, Rate>, fits: Item -> bool, catalog: Pg -> Q.Catalog)

  datatype Mode = Confirmed | Recovered | Skipped | Conflict

  datatype Reason =
    | PurchaseConfirmed | InventoryRecovered | ModelSequenceRecovered | AlreadyConfirmed
    | DeviceNotFound | InboundNotFound | InboundIdMismatch | InboundRevisionMismatch | SupplierReturned
    | InboundStatusConflict | PriceMismatch | InventoryStatusConflict

  datatype Outcome = Outcome(mode: Mode, reason: Reason, pg: Pg, price: Option<nat>, modelSeq: Option<nat>)

  datatype PurchaseError = RateStale | Ledger(l: Q.LedgerError) | Sequence(m: M.SequenceError) | InputInvalid | BadField(f: ParseError)

  const SELLABLE: Q.Status := "SELLABLE"

  function Decimal(n: nat): string {
    (if n < 10 then "" else Decimal(n / 10)) + [(n % 10 + 48) as char]
  }

  const PREFIX := "PURCHASE_CONFIRM:"

  function PurchaseKey(id: nat, pg: Pg, action: string): string {
    PREFIX + Decimal(id) + ":" + pg + ":" + action
  }

  function KeyOf(item: Item, inbound: Inbound, action: string): string {
    PurchaseKey(inbound.id, item.pg, action)
  }

  function ContextOf(item: Item, inbound: Inbound, action: string): Q.Context {
    Q.Context(KeyOf(item, inbound, action), "PURCHASE_CONFIRM", Some(Decimal(inbound.id)))
  }

  predicate PurchasePolicy(from: Q.Status, target: Q.Status) {
    from in {"SELLABLE", "HOLD", "DEFECTIVE", "RETURN_CHECK"} && target == SELLABLE
  }

  function ConflictOf(item: Item, reason: Reason): Outcome {
    Outcome(Conflict, reason, item.pg, Some(item.price), None)
  }

  function EvidenceOf(item: Item, db: Lookups): Result<Evidence, PurchaseError> {
    if item.rateId.None? then Ok(Manual)
    else if item.rateId.value !in db.rates || item.rateRevision != Some(db.rates[item.rateId.value].revision) || !db.fits(item) then Err(RateStale)
    else
      var rate := db.rates[item.rateId.value];
      Ok(if rate.price == item.price then ByRate(item.rateId.value, rate.price) else Override(item.rateId.value, rate.price))
  }

  function SetSellable(stock: Q.Stock, item: Item, inbound: Inbound, db: Lookups): Result<Q.Stock, PurchaseError> {
    var r := if item.pg !in stock.inventory
             then Q.Create(stock, item.pg, SELLABLE, ContextOf(item, inbound, "CREATE"), db.catalog(item.pg))
             else Q.Transition(stock, item.pg, SELLABLE, None, PurchasePolicy, ContextOf(item, inbound, "STATUS"), db.catalog(item.pg));
    if r.Err? then Err(Ledger(r.error)) else Ok(r.value)
  }

  ghost function WithNumber(s: State, item: Item, mode: Mode, reason: Reason, price: Option<nat>): Result<(State, Outcome), PurchaseError>
    requires item.pg in s.devices
  {
    var n := M.Assign(s.devices, s.lastSeq, item.pg);
    if n.Err? then Err(Sequence(n.error))
    else Ok((s.(devices := n.value.1, lastSeq := n.value.2), Outcome(mode, reason, item.pg, price, Some(n.value.0))))
  }

  function Bought(inbound: Inbound, item: Item, evidence: Evidence): Inbound {
    inbound.(status := Purchased, price := Some(item.price), evidence := Some(evidence), revision := inbound.revision + 1)
  }

  ghost function ConfirmInspected(s: State, item: Item, db: Lookups): Result<(State, Outcome), PurchaseError>
    requires item.pg in s.devices && item.pg in s.latest
  {
    var inbound := s.latest[item.pg];
    var evidence := EvidenceOf(item, db);
    if evidence.Err? then Err(evidence.error)
    else
      var stock := SetSellable(s.stock, item, inbound, db);
      if stock.Err? then Err(stock.error)
      else WithNumber(s.(latest := s.latest[item.pg := Bought(inbound, item, evidence.value)], stock := stock.value),
                      item, Confirmed, PurchaseConfirmed, Some(item.price))
  }

  ghost function ConfirmPurchased(s: State, item: Item, db: Lookups): Result<(State, Outcome), PurchaseError>
    requires item.pg in s.devices && item.pg in s.latest
  {
    var inbound := s.latest[item.pg];
    if inbound.price != Some(item.price) then Ok((s, ConflictOf(item, PriceMismatch)))
    else if item.pg !in s.stock.inventory then
      var created := Q.Create(s.stock, item.pg, SELLABLE, ContextOf(item, inbound, "CREATE"), db.catalog(item.pg));
      if created.Err? then Err(Ledger(created.error))
      else WithNumber(s.(stock := created.value), item, Recovered, InventoryRecovered, inbound.price)
    else if s.stock.inventory[item.pg] != SELLABLE then Ok((s, ConflictOf(item, InventoryStatusConflict)))
    else if s.devices[item.pg].modelSeq.None? then WithNumber(s, item, Recovered, ModelSequenceRecovered, inbound.price)
    else Ok((s, Outcome(Skipped, AlreadyConfirmed, item.pg, inbound.price, s.devices[item.pg].modelSeq)))
  }

  ghost function ConfirmOne(s: State, item: Item, db: Lookups): Result<(State, Outcome), PurchaseError> {
    if item.pg !in s.devices then Ok((s, ConflictOf(item, DeviceNotFound)))
    else if item.pg !in s.latest then Ok((s, ConflictOf(item, InboundNotFound)))
    else
      var inbound := s.latest[item.pg];
      if inbound.id != item.inboundId then Ok((s, ConflictOf(item, InboundIdMismatch)))
      else if inbound.status == Inspected && inbound.revision != item.revision then Ok((s, ConflictOf(item, InboundRevisionMismatch)))
      else match inbound.status
        case SupplierReturn => Ok((s, ConflictOf(item, SupplierReturned)))
        case Inspected => ConfirmInspected(s, item, db)
        case Purchased => ConfirmPurchased(s, item, db)
        case Other(_) => Ok((s, ConflictOf(item, InboundStatusConflict)))
  }

  /** The items one after the other, or the error of the first that throws. */
  ghost function ConfirmAll(s: State, items: seq<Item>, db: Lookups): Result<(State, seq<Outcome>), PurchaseError> {
    if items == [] then Ok((s, []))
    else
      var before := ConfirmAll(s, items[..|items| - 1], db);
      if before.Err? then before
      else
        var one := ConfirmOne(before.value.0, items[|items| - 1], db);
        if one.Err? then Err(one.error) else Ok((one.value.0, before.value.1 + [one.value.1]))
  }

  ghost function ConfirmBatch(s: State, rows: seq<Row>, db: Lookups): Result<(State, seq<Outcome>), PurchaseError> {
    var items := Parsed(rows);
    if items.Err? then Err(BadField(items.error))
    else if items.value == [] then Err(InputInvalid)
    else ConfirmAll(s, items.value, db)
  }

  // ---- one item touches one device ----

  /** The rows a confirmation of this device looks at are the same in both states. */
  predicate SameRows(a: State, b: State, pg: Pg) {
    && (pg in a.devices <==> pg in b.devices) && (pg in a.devices ==> a.devices[pg] == b.devices[pg])
    && (pg in a.latest <==> pg in b.latest) && (pg in a.latest ==> a.latest[pg] == b.latest[pg])
    && (pg in a.stock.inventory <==> pg in b.stock.inventory) && (pg in a.stock.inventory ==> a.stock.inventory[pg] == b.stock.inventory[pg])
  }

  lemma SetSellableTouchesOne(stock: Q.Stock, item: Item, inbound: Inbound, db: Lookups, pg: Pg)
    requires pg != item.pg && SetSellable(stock, item, inbound, db).Ok?
    ensures var next := SetSellable(stock, item, inbound, db).value;
            (pg in stock.inventory <==> pg in next.inventory) && (pg in stock.inventory ==> stock.inventory[pg] == next.inventory[pg])
  {
  }

  lemma InspectedTouchesOne(s: State, item: Item, db: Lookups, pg: Pg)
    requires item.pg in s.devices && item.pg in s.latest && pg != item.pg && ConfirmInspected(s, item, db).Ok?
    ensures SameRows(s, ConfirmInspected(s, item, db).value.0, pg)
  {
    SetSellableTouchesOne(s.stock, item, s.latest[item.pg], db, pg);
  }

  lemma PurchasedTouchesOne(s: State, item: Item, db: Lookups, pg: Pg)
    requires item.pg in s.devices && item.pg in s.latest && pg != item.pg && ConfirmPurchased(s, item, db).Ok?
    ensures SameRows(s, ConfirmPurchased(s, item, db).value.0, pg)
  {
  }

  lemma OneItemTouchesOneDevice(s: State, item: Item, db: Lookups, pg: Pg)
    requires pg != item.pg && ConfirmOne(s, item, db).Ok?
    ensures SameRows(s, ConfirmOne(s, item, db).value.0, pg)
  {
    if item.pg in s.devices && item.pg in s.latest {
      if ConfirmInspected(s, item, db).Ok? {
        InspectedTouchesOne(s, item, db, pg);
      }
      if ConfirmPurchased(s, item, db).Ok? {
        PurchasedTouchesOne(s, item, db, pg);
      }
    }
  }

  // ---- the same request again ----

  /** A transition recorded under this key stays as it is, and the row keeps the status it has now. */
  predicate KeyIsUsed(s: State, item: Item) {
    && item.pg in s.latest && item.pg in s.stock.inventory && s.stock.inventory[item.pg] != SELLABLE
    && Q.Find(s.stock.ledger.movements, KeyOf(item, s.latest[item.pg], "STATUS"), Q.OUT).Some?
  }

  lemma SetSellableSells(s: State, item: Item, db: Lookups)
    requires item.pg in s.latest && SetSellable(s.stock, item, s.latest[item.pg], db).Ok?
    ensures var next := SetSellable(s.stock, item, s.latest[item.pg], db).value;
            && item.pg in next.inventory
            && (next.inventory[item.pg] == SELLABLE <==> !KeyIsUsed(s, item))
  {
  }

  /** What the rerun of an item answers. */
  function Again(s: State, item: Item, first: Outcome): Outcome {
    match first.mode
    case Conflict => first
    case Confirmed => if KeyIsUsed(s, item) then ConflictOf(item, InventoryStatusConflict) else Outcome(Skipped, AlreadyConfirmed, item.pg, first.price, first.modelSeq)
    case _ => Outcome(Skipped, AlreadyConfirmed, item.pg, first.price, first.modelSeq)
  }

  lemma InspectedAgain(s: State, item: Item, db: Lookups)
    requires item.pg in s.devices && item.pg in s.latest && ConfirmInspected(s, item, db).Ok?
    ensures var (next, first) := ConfirmInspected(s, item, db).value;
            && first.mode == Confirmed && first.price == Some(item.price)
            && item.pg in next.devices && item.pg in next.latest && item.pg in next.stock.inventory
            && next.latest[item.pg].status == Purchased && next.latest[item.pg].price == Some(item.price)
            && next.latest[item.pg].id == s.latest[item.pg].id
            && first.modelSeq.Some? && next.devices[item.pg].modelSeq == first.modelSeq
            && (next.stock.inventory[item.pg] == SELLABLE <==> !KeyIsUsed(s, item))
  {
    SetSellableSells(s, item, db);
  }

  lemma PurchasedAgain(s: State, item: Item, db: Lookups)
    requires item.pg in s.devices && item.pg in s.latest && ConfirmPurchased(s, item, db).Ok?
    ensures var (next, first) := ConfirmPurchased(s, item, db).value;
            && item.pg in next.devices && next.latest == s.latest
            && (first.mode == Conflict ==> next == s)
            && (first.mode != Conflict ==>
                  && first.mode != Confirmed && first.price == s.latest[item.pg].price == Some(item.price)
                  && item.pg in next.stock.inventory && next.stock.inventory[item.pg] == SELLABLE
                  && first.modelSeq.Some? && next.devices[item.pg].modelSeq == first.modelSeq)
            && (first.mode == Skipped ==> first == Outcome(Skipped, AlreadyConfirmed, item.pg, first.price, first.modelSeq))
  {
  }

  /** An item that is purchased, sellable and numbered is skipped, whatever the rates and the catalog say. */
  lemma DoneIsSkipped(s: State, item: Item, db: Lookups)
    requires item.pg in s.devices && item.pg in s.latest && s.latest[item.pg].id == item.inboundId
    requires s.latest[item.pg].status == Purchased && s.latest[item.pg].price == Some(item.price)
    requires item.pg in s.stock.inventory && s.devices[item.pg].modelSeq.Some?
    ensures ConfirmOne(s, item, db) == Ok((s, if s.stock.inventory[item.pg] == SELLABLE
                                              then Outcome(Skipped, AlreadyConfirmed, item.pg, Some(item.price), s.devices[item.pg].modelSeq)
                                              else ConflictOf(item, InventoryStatusConflict)))
  {
  }

  /** A conflict depends on the rows of the device alone. */
  lemma ConflictComesAgain(s: State, item: Item, db: Lookups, later: State, laterDb: Lookups)
    requires ConfirmOne(s, item, db).Ok? && ConfirmOne(s, item, db).value.1.mode == Conflict && SameRows(s, later, item.pg)
    ensures ConfirmOne(s, item, db).value.0 == s
    ensures ConfirmOne(later, item, laterDb) == Ok((later, ConfirmOne(s, item, db).value.1))
  {
  }

  /**
   An item that went through changes nothing the second time, whatever the rates and the catalog say
   by then: a conflict comes again, everything else is skipped, except a confirmation whose status
   change had been recorded before.
   */
  lemma SecondTimeIsQuiet(s: State, item: Item, db: Lookups, later: State, laterDb: Lookups)
    requires ConfirmOne(s, item, db).Ok? && SameRows(ConfirmOne(s, item, db).value.0, later, item.pg)
    ensures ConfirmOne(later, item, laterDb) == Ok((later, Again(s, item, ConfirmOne(s, item, db).value.1)))
  {
    if ConfirmOne(s, item, db).value.1.mode == Conflict {
      ConflictComesAgain(s, item, db, later, laterDb);
    } else {
      if s.latest[item.pg].status == Inspected {
        InspectedAgain(s, item, db);
      } else {
        PurchasedAgain(s, item, db);
      }
      DoneIsSkipped(later, item, laterDb);
    }
  }
}
