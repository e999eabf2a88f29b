/**
 What each answer of a confirmation means: which rows it was given on, and which rows it leaves. No two
 answers go with the same rows, so an answer also tells which rows there were.
 */
module PurchaseAnswers {
  import opened Common
  import M = ModelSequence
  import Q = QuantityLedger
  import opened PurchaseItems
  import opened Purchase

  // ---- reading a row ----

  predicate BadId(f: Field) {
    f == Malformed || f == Number(0)
  }

  /** The target of a row is named wrongly: a bad inbound id, a bad or missing revision, or no inbound id for a device with a price. */
  predicate TargetWrong(row: Row) {
    row.Row? && (BadId(row.inboundId) || row.revision == Blank || row.revision == Malformed
                 || (row.pg != "" && row.price.Some? && row.inboundId == Blank))
  }

  /** A row that asks for nothing: no object, no device, no readable price. */
  predicate AsksNothing(row: Row) {
    row.NotAnObject? || row.pg == "" || row.price.None?
  }

  predicate RateWrong(row: Row) {
    row.Row? && (BadId(row.rateId) || row.rateRevision == Malformed)
  }

  function NumberIn(f: Field): Option<nat> {
    if f.Number? then Some(f.n) else None
  }

  /** Of a row the target is looked at first, then whether it asks for anything, then the rate. */
  lemma RowReads(row: Row)
    ensures ReadRow(row) ==
      if TargetWrong(row) then Err(TargetInvalid)
      else if AsksNothing(row) then Ok(None)
      else if RateWrong(row) then Err(RateEvidenceInvalid)
      else Ok(Some(Item(row.pg, row.inboundId.n, row.revision.n, row.price.value, NumberIn(row.rateId), NumberIn(row.rateRevision))))
  {
  }

  /** What the rows ask for, in order. */
  function Asked(rows: seq<Row>): seq<Item> {
    if rows == [] then []
    else (match ReadRow(rows[0]) case Ok(Some(item)) => [item] case _ => []) + Asked(rows[1..])
  }

  /** The error of the first row that has one. */
  function FirstError(rows: seq<Row>): Option<ParseError> {
    if rows == [] then None
    else match ReadRow(rows[0]) case Err(e) => Some(e) case Ok(_) => FirstError(rows[1..])
  }

  lemma {:induction false} AskedOneMore(rows: seq<Row>, row: Row)
    ensures FirstError(rows + [row]) == if FirstError(rows).Some? then FirstError(rows) else FirstError([row])
    ensures Asked(rows + [row]) == Asked(rows) + Asked([row])
  {
    if rows == [] {
      assert rows + [row] == [row];
    } else {
      assert (rows + [row])[1..] == rows[1..] + [row] && (rows + [row])[0] == rows[0];
      AskedOneMore(rows[1..], row);
    }
  }

  lemma OneRow(row: Row)
    ensures FirstError([row]) == match ReadRow(row) case Err(e) => Some(e) case Ok(_) => None
    ensures Asked([row]) == if ReadRow(row).Ok? && ReadRow(row).value.Some? then [ReadRow(row).value.value] else []
  {
    assert [row][1..] == [];
  }

  lemma {:induction false} RowsRead(rows: seq<Row>)
    ensures ReadRows(rows) == match FirstError(rows) case Some(e) => Err(e) case None => Ok(Asked(rows))
  {
    if rows != [] {
      var n := |rows| - 1;
      RowsRead(rows[..n]);
      AskedOneMore(rows[..n], rows[n]);
      assert rows == rows[..n] + [rows[n]];
      OneRow(rows[n]);
    }
  }

  predicate FirstAt(items: seq<Item>, pg: Pg, k: int) {
    0 <= k < |items| && items[k].pg == pg && forall j :: 0 <= j < k ==> items[j].pg != pg
  }

  /** The devices come in the order in which they were first asked for. */
  lemma {:induction false} FirstsInOrder(items: seq<Item>, i: nat, j: nat, k: int, l: int)
    requires i < j < |Firsts(items)| && FirstAt(items, Firsts(items)[i], k) && FirstAt(items, Firsts(items)[j], l)
    ensures k < l
  {
    var n := |items| - 1;
    var before := Firsts(items[..n]);
    if j < |before| {
      assert before[j] in before && before[i] in before;
      EarlierFirst(items, before[i], k);
      EarlierFirst(items, before[j], l);
      FirstsInOrder(items[..n], i, j, k, l);
    } else {
      assert before[i] in before;
      EarlierFirst(items, before[i], k);
      assert Firsts(items)[j] == items[n].pg && items[n].pg !in before;
      assert forall m :: 0 <= m < n ==> items[..n][m] == items[m];
    }
  }

  lemma EarlierFirst(items: seq<Item>, pg: Pg, k: int)
    requires items != [] && pg in Firsts(items[..|items| - 1]) && FirstAt(items, pg, k)
    ensures k < |items| - 1 && FirstAt(items[..|items| - 1], pg, k)
  {
    var m :| 0 <= m < |items[..|items| - 1]| && items[..|items| - 1][m].pg == pg;
    assert items[m].pg == pg;
  }

  /**
   What a request reads as: the error of its first bad row; or a rate named by half; or one item for each
   device, the last one asked for, in the order in which the devices were first asked for.
   */
  lemma RequestReads(rows: seq<Row>)
    ensures match Parsed(rows)
            case Err(e) =>
              if FirstError(rows).Some? then FirstError(rows) == Some(e)
              else e == RateEvidenceInvalid && exists item :: item in Asked(rows) && (item.rateId.Some? != item.rateRevision.Some?)
            case Ok(kept) =>
              && FirstError(rows) == None && (forall item :: item in Asked(rows) ==> item.rateId.Some? == item.rateRevision.Some?)
              && DistinctDevices(kept)
              && (forall item :: item in kept <==> exists k :: IsLast(Asked(rows), k) && Asked(rows)[k] == item)
              && (forall i, j, k, l :: 0 <= i < j < |kept| && FirstAt(Asked(rows), kept[i].pg, k) && FirstAt(Asked(rows), kept[j].pg, l) ==> k < l)
  {
    RowsRead(rows);
    if Parsed(rows).Ok? {
      var items, kept := Asked(rows), Parsed(rows).value;
      LastItemCounts(items);
      forall i, j, k, l | 0 <= i < j < |kept| && FirstAt(items, kept[i].pg, k) && FirstAt(items, kept[j].pg, l)
        ensures k < l
      {
        FirstsInOrder(items, i, j, k, l);
      }
    }
  }

  // ---- one item ----

  /** The rows an item met when it was answered so. */
  predicate Met(s: State, item: Item, reason: Reason) {
    if reason == DeviceNotFound then item.pg !in s.devices
    else if reason == InboundNotFound then item.pg in s.devices && item.pg !in s.latest
    else
      && item.pg in s.devices && item.pg in s.latest
      && var inbound := s.latest[item.pg];
      if reason == InboundIdMismatch then inbound.id != item.inboundId
      else
        && inbound.id == item.inboundId
        && match reason
           case InboundRevisionMismatch => inbound.status == Inspected && inbound.revision != item.revision
           case PurchaseConfirmed => inbound.status == Inspected && inbound.revision == item.revision
           case SupplierReturned => inbound.status == SupplierReturn
           case InboundStatusConflict => inbound.status.Other?
           case PriceMismatch => inbound.status == Purchased && inbound.price != Some(item.price)
           case InventoryRecovered => inbound.status == Purchased && inbound.price == Some(item.price) && item.pg !in s.stock.inventory
           case InventoryStatusConflict =>
             inbound.status == Purchased && inbound.price == Some(item.price) && item.pg in s.stock.inventory && s.stock.inventory[item.pg] != "SELLABLE"
           case ModelSequenceRecovered =>
             && inbound.status == Purchased && inbound.price == Some(item.price) && item.pg in s.stock.inventory && s.stock.inventory[item.pg] == "SELLABLE"
             && s.devices[item.pg].modelSeq.None?
           case AlreadyConfirmed =>
             && inbound.status == Purchased && inbound.price == Some(item.price) && item.pg in s.stock.inventory && s.stock.inventory[item.pg] == "SELLABLE"
             && s.devices[item.pg].modelSeq.Some?
           case _ => false
  }

  function ModeOf(reason: Reason): Mode {
    match reason
    case PurchaseConfirmed => Confirmed
    case InventoryRecovered => Recovered
    case ModelSequenceRecovered => Recovered
    case AlreadyConfirmed => Skipped
    case _ => Conflict
  }

  /** What the price of a purchase rests on: the rate it names, and whether the price departs from it. */
  predicate RestsOn(item: Item, db: Lookups, e: Evidence) {
    match item.rateId
    case None => e == Manual
    case Some(id) =>
      && id in db.rates && item.rateRevision == Some(db.rates[id].revision) && db.fits(item)
      && match e
         case ByRate(rateId, amount) => rateId == id && amount == db.rates[id].price == item.price
         case Override(rateId, amount) => rateId == id && amount == db.rates[id].price != item.price
         case Manual => false
  }

  /** The device has its number: the one it had, or one it did not have before, in a row written anew. */
  predicate NumberedIn(s: State, next: State, pg: Pg, number: Option<nat>) {
    && pg in s.devices && pg in next.devices && number.Some? && next.devices[pg].modelSeq == number
    && next.devices[pg].model == s.devices[pg].model
    && (s.devices[pg].modelSeq.Some? ==> next.devices[pg] == s.devices[pg] && next.lastSeq == s.lastSeq)
    && (s.devices[pg].modelSeq.None? ==> next.devices[pg].revision == s.devices[pg].revision + 1)
    && next.devices == s.devices[pg := next.devices[pg]]
  }

  /** The rows an item leaves that was answered so. */
  predicate Left(s: State, next: State, item: Item, db: Lookups, answer: Outcome) {
    match answer.reason
    case PurchaseConfirmed =>
      && item.pg in s.latest && item.pg in next.latest && item.pg in next.stock.inventory
      && var x, y := s.latest[item.pg], next.latest[item.pg];
      && y.id == x.id && y.status == Purchased && y.price == Some(item.price) && y.revision == x.revision + 1
      && y.evidence.Some? && RestsOn(item, db, y.evidence.value)
      && next.latest == s.latest[item.pg := y]
      && next.stock.inventory == s.stock.inventory[item.pg := next.stock.inventory[item.pg]]
      && (item.pg in s.stock.inventory && next.stock.inventory[item.pg] != s.stock.inventory[item.pg] ==>
            s.stock.inventory[item.pg] in {"HOLD", "DEFECTIVE", "RETURN_CHECK"})
      && NumberedIn(s, next, item.pg, answer.modelSeq) && answer.price == Some(item.price)
    case InventoryRecovered =>
      && next.latest == s.latest && next.stock.inventory == s.stock.inventory[item.pg := "SELLABLE"]
      && NumberedIn(s, next, item.pg, answer.modelSeq) && answer.price == Some(item.price)
    case ModelSequenceRecovered =>
      next.latest == s.latest && next.stock == s.stock && NumberedIn(s, next, item.pg, answer.modelSeq) && answer.price == Some(item.price)
    case AlreadyConfirmed => next == s && item.pg in s.devices && answer.modelSeq == s.devices[item.pg].modelSeq && answer.price == Some(item.price)
    case _ => next == s && answer.modelSeq == None && answer.price == Some(item.price)
  }

  lemma NumberGiven(s: State, item: Item, mode: Mode, reason: Reason, price: Option<nat>)
    requires item.pg in s.devices && WithNumber(s, item, mode, reason, price).Ok?
    ensures var (next, answer) := WithNumber(s, item, mode, reason, price).value;
            && next.latest == s.latest && next.stock == s.stock && answer == Outcome(mode, reason, item.pg, price, answer.modelSeq)
            && NumberedIn(s, next, item.pg, answer.modelSeq)
  {
  }

  lemma RestIs(item: Item, db: Lookups)
    ensures var e := EvidenceOf(item, db);
            && (e.Ok? ==> RestsOn(item, db, e.value))
            && (e.Err? ==> e.error == RateStale && forall given :: !RestsOn(item, db, given))
  {
  }

  lemma StockIs(stock: Q.Stock, item: Item, inbound: Inbound, db: Lookups)
    requires SetSellable(stock, item, inbound, db).Ok?
    ensures var next := SetSellable(stock, item, inbound, db).value;
            && item.pg in next.inventory && next.inventory == stock.inventory[item.pg := next.inventory[item.pg]]
            && (item.pg !in stock.inventory ==> next.inventory[item.pg] == "SELLABLE")
            && (item.pg in stock.inventory && next.inventory[item.pg] != stock.inventory[item.pg] ==>
                  stock.inventory[item.pg] in {"HOLD", "DEFECTIVE", "RETURN_CHECK"} && next.inventory[item.pg] == "SELLABLE")
  {
    hide Q.ApplyDelta, Q.AssignSku, Q.Known;
  }

  lemma InspectedLeaves(s: State, item: Item, db: Lookups)
    requires item.pg in s.devices && item.pg in s.latest && ConfirmInspected(s, item, db).Ok?
    ensures var (next, answer) := ConfirmInspected(s, item, db).value; answer.reason == PurchaseConfirmed && answer.mode == Confirmed && answer.pg == item.pg && Left(s, next, item, db, answer)
  {
    hide SetSellable, WithNumber, EvidenceOf, NumberedIn, RestsOn;
    RestIs(item, db);
    var inbound := s.latest[item.pg];
    StockIs(s.stock, item, inbound, db);
    var mid := s.(latest := s.latest[item.pg := Bought(inbound, item, EvidenceOf(item, db).value)], stock := SetSellable(s.stock, item, inbound, db).value);
    NumberGiven(mid, item, Confirmed, PurchaseConfirmed, Some(item.price));
    SameDevices(s, mid, ConfirmInspected(s, item, db).value.0, item.pg, ConfirmInspected(s, item, db).value.1.modelSeq);
  }

  lemma SameDevices(s: State, mid: State, next: State, pg: Pg, number: Option<nat>)
    requires NumberedIn(mid, next, pg, number) && mid.devices == s.devices && mid.lastSeq == s.lastSeq
    ensures NumberedIn(s, next, pg, number)
  {
  }

  lemma CreatedRow(stock: Q.Stock, pg: Pg, status: Q.Status, c: Q.Context, catalog: Q.Catalog)
    requires Q.Create(stock, pg, status, c, catalog).Ok?
    ensures Q.Create(stock, pg, status, c, catalog).value.inventory == stock.inventory[pg := status]
  {
  }

  lemma PurchasedLeaves(s: State, item: Item, db: Lookups)
    requires item.pg in s.devices && item.pg in s.latest && ConfirmPurchased(s, item, db).Ok? && s.latest[item.pg].status == Purchased && s.latest[item.pg].id == item.inboundId
    ensures var (next, answer) := ConfirmPurchased(s, item, db).value;
            Met(s, item, answer.reason) && answer.mode == ModeOf(answer.reason) && answer.pg == item.pg && Left(s, next, item, db, answer)
  {
    hide WithNumber, NumberedIn, Q.Create;
    var inbound := s.latest[item.pg];
    if inbound.price == Some(item.price) {
      if item.pg !in s.stock.inventory {
        var created := Q.Create(s.stock, item.pg, SELLABLE, ContextOf(item, inbound, "CREATE"), db.catalog(item.pg));
        CreatedRow(s.stock, item.pg, SELLABLE, ContextOf(item, inbound, "CREATE"), db.catalog(item.pg));
        var mid := s.(stock := created.value);
        NumberGiven(mid, item, Recovered, InventoryRecovered, inbound.price);
        SameDevices(s, mid, ConfirmPurchased(s, item, db).value.0, item.pg, ConfirmPurchased(s, item, db).value.1.modelSeq);
      } else if s.stock.inventory[item.pg] == SELLABLE && s.devices[item.pg].modelSeq.None? {
        NumberGiven(s, item, Recovered, ModelSequenceRecovered, inbound.price);
      }
    }
  }

  /**
   What an answer means. A stale revision of an inspected inbound, or any other mismatch, is a conflict
   that writes nothing; CONFIRMED is answered on an inspected inbound at the expected revision alone, and
   leaves it purchased at the requested price with the evidence of its rate, in stock and numbered.
   */
  lemma AnswerMeans(s: State, item: Item, db: Lookups)
    requires ConfirmOne(s, item, db).Ok?
    ensures var (next, answer) := ConfirmOne(s, item, db).value;
            Met(s, item, answer.reason) && answer.mode == ModeOf(answer.reason) && answer.pg == item.pg && Left(s, next, item, db, answer)
  {
    hide ConfirmInspected, ConfirmPurchased;
    if item.pg in s.devices && item.pg in s.latest {
      if s.latest[item.pg].status == Inspected && ConfirmInspected(s, item, db).Ok? {
        InspectedLeaves(s, item, db);
      }
      if s.latest[item.pg].status == Purchased && s.latest[item.pg].id == item.inboundId && ConfirmPurchased(s, item, db).Ok? {
        PurchasedLeaves(s, item, db);
      }
    }
  }

  /** An item meets the rows of one answer only. */
  lemma OneMeaning(s: State, item: Item, a: Reason, b: Reason)
    requires Met(s, item, a) && Met(s, item, b)
    ensures a == b
  {
  }

  /** A rate that is gone, changed or does not fit makes the request throw, exactly when the item would have been confirmed. */
  lemma StaleRateThrowsIff(s: State, item: Item, db: Lookups)
    ensures ConfirmOne(s, item, db) == Err(RateStale) <==> Met(s, item, PurchaseConfirmed) && forall e :: !RestsOn(item, db, e)
  {
    RestIs(item, db);
    hide RestsOn, EvidenceOf, Q.Create, Q.Transition, M.Assign;
  }

  // ---- a request ----

  /** Item k throws when its turn comes. */
  ghost predicate ThrowsAt(s: State, items: seq<Item>, db: Lookups, k: nat, error: PurchaseError) {
    k < |items| && ConfirmAll(s, items[..k], db).Ok? && ConfirmOne(ConfirmAll(s, items[..k], db).value.0, items[k], db) == Err(error)
  }

  lemma {:induction false} BatchThrows(s: State, items: seq<Item>, db: Lookups)
    requires ConfirmAll(s, items, db).Err?
    ensures exists k: nat :: ThrowsAt(s, items, db, k, ConfirmAll(s, items, db).error)
  {
    hide ConfirmOne;
    var n, error := |items| - 1, ConfirmAll(s, items, db).error;
    if ConfirmAll(s, items[..n], db).Ok? {
      assert ThrowsAt(s, items, db, n, error);
    } else {
      BatchThrows(s, items[..n], db);
      var k: nat :| ThrowsAt(s, items[..n], db, k, error);
      assert items[..n][..k] == items[..k];
      assert ThrowsAt(s, items, db, k, error);
    }
  }

  lemma {:induction false} BatchAnswersEach(s: State, items: seq<Item>, db: Lookups)
    requires ConfirmAll(s, items, db).Ok?
    ensures var answers := ConfirmAll(s, items, db).value.1;
            |answers| == |items| && forall k :: 0 <= k < |items| ==> answers[k].pg == items[k].pg && answers[k].mode == ModeOf(answers[k].reason)
  {
    hide ConfirmOne, ModeOf;
    if items != [] {
      var n := |items| - 1;
      BatchAnswersEach(s, items[..n], db);
      AnswerMeans(ConfirmAll(s, items[..n], db).value.0, items[n], db);
    }
  }

  /**
   What a request answers: a field that cannot be read and a request for nothing are refused; otherwise it
   has an answer for each device in turn, unless one of them throws on its turn, and then it throws that.
   */
  lemma RequestAnswers(s: State, rows: seq<Row>, db: Lookups)
    ensures var tx := ConfirmBatch(s, rows, db);
            match Parsed(rows)
            case Err(e) => tx == Err(BadField(e))
            case Ok(items) =>
              if items == [] then tx == Err(InputInvalid)
              else if tx.Err? then exists k: nat :: ThrowsAt(s, items, db, k, tx.error)
              else |tx.value.1| == |items| && forall k :: 0 <= k < |items| ==> tx.value.1[k].pg == items[k].pg
  {
    hide Parsed, ConfirmAll, ThrowsAt, ModeOf;
    if Parsed(rows).Ok? {
      var items := Parsed(rows).value;
      if ConfirmAll(s, items, db).Ok? {
        BatchAnswersEach(s, items, db);
      } else {
        BatchThrows(s, items, db);
      }
    }
  }
}
