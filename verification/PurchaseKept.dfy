/** What every run of purchases and the writes around them keeps. */
module PurchaseKept {
  import opened Common
  import M = ModelSequence
  import Q = QuantityLedger
  import R = LedgerRuns
  import opened PurchaseItems
  import opened Purchase
  import opened PurchaseKeys
  import opened PurchaseRuns
  import opened PurchaseWorld

  predicate Recorded(s: State, id: nat, pg: Pg, action: string, suffix: Q.Suffix) {
    Q.Find(s.stock.ledger.movements, PurchaseKey(id, pg, action), suffix).Some?
  }

  /** A status change recorded for a purchase belongs to an inbound that was opened, and one still at hand is purchased. */
  predicate StatusOk(s: State, nextId: nat, id: nat, pg: Pg) {
    Recorded(s, id, pg, "STATUS", Q.OUT) ==> id < nextId && (pg in s.latest && s.latest[pg].id == id ==> s.latest[pg].status == Purchased)
  }

  /** A creation recorded for a purchase belongs to an inbound that was opened, and one still at hand has its row. */
  predicate CreationOk(s: State, nextId: nat, id: nat, pg: Pg) {
    Recorded(s, id, pg, "CREATE", Q.IN) ==> id < nextId && (pg in s.latest && s.latest[pg].id == id ==> pg in s.stock.inventory)
  }

  ghost predicate RecordsOk(s: State, nextId: nat) {
    && (forall pg :: pg in s.latest ==> s.latest[pg].id < nextId)
    && (forall id: nat, pg: Pg :: StatusOk(s, nextId, id, pg) && CreationOk(s, nextId, id, pg))
  }

  /** Models are named and have no outer blanks, and no two devices of one model share a number. */
  predicate DevicesOk(devices: map<Pg, M.Device>) {
    M.Plain(devices) && forall p, q :: p in devices && q in devices && p != q ==> NumbersDiffer(devices[p], devices[q])
  }

  predicate NumbersDiffer(d: M.Device, e: M.Device) {
    d.model == e.model && d.modelSeq.Some? && e.modelSeq.Some? ==> d.modelSeq != e.modelSeq
  }

  ghost predicate StockOk(s: State) {
    R.Good(s.stock) && s.stock.devices.Keys == s.devices.Keys
  }

  ghost predicate StateOk(s: State, nextId: nat) {
    RecordsOk(s, nextId) && DevicesOk(s.devices) && StockOk(s)
  }

  // ---- one item ----

  /** Confirming an item leaves the id of every latest inbound, takes no purchase back and no row away. */
  lemma RowsAfter(s: State, item: Item, db: Lookups)
    requires ConfirmOne(s, item, db).Ok?
    ensures var next := ConfirmOne(s, item, db).value.0;
            && next.latest.Keys == s.latest.Keys
            && (forall pg :: pg in s.latest ==> next.latest[pg].id == s.latest[pg].id && (s.latest[pg].status == Purchased ==> next.latest[pg].status == Purchased))
            && (next.stock != s.stock ==> item.pg in next.latest && next.latest[item.pg].status == Purchased)
  {
    hide SetSellable, M.Assign, Q.Create;
  }

  lemma StockRowsAfter(s: State, item: Item, db: Lookups)
    requires ConfirmOne(s, item, db).Ok?
    ensures var next := ConfirmOne(s, item, db).value.0.stock;
            && s.stock.inventory.Keys <= next.inventory.Keys && next.devices.Keys == s.stock.devices.Keys
            && (next != s.stock ==> item.pg in next.inventory)
  {
    StockAfter(s, item, db);
    hide ConfirmOne;
  }

  lemma FoundAfter(s: State, item: Item, db: Lookups, id: nat, pg: Pg, action: string, suffix: Q.Suffix)
    requires ConfirmOne(s, item, db).Ok? && |action| == 6
    ensures var next := ConfirmOne(s, item, db).value.0;
            Recorded(next, id, pg, action, suffix) ==>
              Recorded(s, id, pg, action, suffix) || (next.stock != s.stock && item.pg in s.latest && pg == item.pg && id == s.latest[pg].id)
  {
    var next := ConfirmOne(s, item, db).value.0;
    StockAfter(s, item, db);
    hide ConfirmOne;
    if next.stock != s.stock {
      var mine := s.latest[item.pg];
      SetSellableGrows(s.stock, item, mine, db);
      if PurchaseKey(id, pg, action) in KeysOf(item, mine) {
        KeyNamesAll(id, pg, action, mine.id, item.pg, if PurchaseKey(id, pg, action) == KeyOf(item, mine, "CREATE") then "CREATE" else "STATUS");
      } else {
        FindInGrown(s.stock.ledger.movements, next.stock.ledger.movements, KeysOf(item, mine), PurchaseKey(id, pg, action), suffix);
      }
    }
  }

  lemma ItemKeepsRecords(s: State, item: Item, db: Lookups, nextId: nat)
    requires RecordsOk(s, nextId) && ConfirmOne(s, item, db).Ok?
    ensures RecordsOk(ConfirmOne(s, item, db).value.0, nextId)
  {
    var next := ConfirmOne(s, item, db).value.0;
    RowsAfter(s, item, db);
    StockRowsAfter(s, item, db);
    hide ConfirmOne;
    forall id: nat, pg: Pg
      ensures StatusOk(next, nextId, id, pg) && CreationOk(next, nextId, id, pg)
    {
      assert StatusOk(s, nextId, id, pg) && CreationOk(s, nextId, id, pg);
      FoundAfter(s, item, db, id, pg, "STATUS", Q.OUT);
      FoundAfter(s, item, db, id, pg, "CREATE", Q.IN);
    }
  }

  lemma PlainIsNumberedState(s: State)
    requires DevicesOk(s.devices)
    ensures Numbered(s)
  {
    M.PlainIsCovered(s.devices, s.lastSeq);
  }

  lemma ItemKeepsDevices(s: State, item: Item, db: Lookups)
    requires DevicesOk(s.devices) && ConfirmOne(s, item, db).Ok?
    ensures DevicesOk(ConfirmOne(s, item, db).value.0.devices)
  {
    var (next, answer) := ConfirmOne(s, item, db).value;
    PlainIsNumberedState(s);
    NumberingOne(s, item, db);
    forall p | p in s.devices && p != item.pg
      ensures next.devices[p] == s.devices[p]
    {
      OneItemTouchesOneDevice(s, item, db, p);
    }
    UnnumberedStays(s, item, db);
    hide ConfirmOne, Numbered;
    forall p | p in next.devices
      ensures M.PlainModel(next.devices[p])
    {
      assert M.PlainModel(s.devices[p]);
    }
    forall p, q | p in next.devices && q in next.devices && p != q
      ensures NumbersDiffer(next.devices[p], next.devices[q])
    {
      assert NumbersDiffer(s.devices[p], s.devices[q]) && M.PlainModel(s.devices[p]) && M.PlainModel(s.devices[q]);
    }
  }

  /** A device gets a number only together with an answer that carries it. */
  lemma UnnumberedStays(s: State, item: Item, db: Lookups)
    requires ConfirmOne(s, item, db).Ok?
    ensures var (next, answer) := ConfirmOne(s, item, db).value;
            item.pg in s.devices ==> item.pg in next.devices && (answer.modelSeq.None? ==> next.devices[item.pg] == s.devices[item.pg])
  {
    hide SetSellable, Q.Create;
  }

  lemma ItemKeepsStock(s: State, item: Item, db: Lookups, nextId: nat)
    requires RecordsOk(s, nextId) && StockOk(s) && ConfirmOne(s, item, db).Ok?
    ensures StockOk(ConfirmOne(s, item, db).value.0)
  {
    OneItemKeepsLedgerIff(s, item, db);
    StockRowsAfter(s, item, db);
    DeviceKeysAfter(s, item, db);
    hide ConfirmOne, R.Good;
    if item.pg in s.latest {
      assert CreationOk(s, nextId, s.latest[item.pg].id, item.pg);
    }
  }

  lemma DeviceKeysAfter(s: State, item: Item, db: Lookups)
    requires ConfirmOne(s, item, db).Ok?
    ensures ConfirmOne(s, item, db).value.0.devices.Keys == s.devices.Keys
  {
    hide SetSellable, Q.Create;
  }

  lemma ItemKeeps(s: State, item: Item, db: Lookups, nextId: nat)
    requires StateOk(s, nextId) && ConfirmOne(s, item, db).Ok?
    ensures StateOk(ConfirmOne(s, item, db).value.0, nextId)
  {
    hide ConfirmOne, RecordsOk, DevicesOk, StockOk;
    ItemKeepsRecords(s, item, db, nextId);
    ItemKeepsDevices(s, item, db);
    ItemKeepsStock(s, item, db, nextId);
  }

  lemma {:induction false} ItemsKeep(s: State, items: seq<Item>, db: Lookups, nextId: nat)
    requires StateOk(s, nextId) && ConfirmAll(s, items, db).Ok?
    ensures StateOk(ConfirmAll(s, items, db).value.0, nextId)
  {
    hide ConfirmOne, StateOk;
    if items != [] {
      var n := |items| - 1;
      ItemsKeep(s, items[..n], db, nextId);
      ItemKeeps(ConfirmAll(s, items[..n], db).value.0, items[n], db, nextId);
    }
  }

  // ---- the writes around purchases ----

  /** The keys of purchases find what they found before. */
  ghost predicate SameFinds(a: Q.Stock, b: Q.Stock) {
    forall id: nat, pg: Pg ::
      && Q.Find(b.ledger.movements, PurchaseKey(id, pg, "STATUS"), Q.OUT) == Q.Find(a.ledger.movements, PurchaseKey(id, pg, "STATUS"), Q.OUT)
      && Q.Find(b.ledger.movements, PurchaseKey(id, pg, "CREATE"), Q.IN) == Q.Find(a.ledger.movements, PurchaseKey(id, pg, "CREATE"), Q.IN)
  }

  lemma KeyBegins(id: nat, pg: Pg, action: string)
    ensures Begins(PurchaseKey(id, pg, action))
  {
    var rest := Decimal(id) + ":" + pg + ":" + action;
    assert PurchaseKey(id, pg, action) == PREFIX + rest;
    assert (PREFIX + rest)[..|PREFIX|] == PREFIX;
  }

  lemma ForeignKeyFinds(a: Q.Stock, b: Q.Stock, key: string)
    requires GrownBy(a.ledger.movements, b.ledger.movements, {key}) && !Begins(key)
    ensures SameFinds(a, b)
  {
    forall id: nat, pg: Pg
      ensures Q.Find(b.ledger.movements, PurchaseKey(id, pg, "STATUS"), Q.OUT) == Q.Find(a.ledger.movements, PurchaseKey(id, pg, "STATUS"), Q.OUT)
      ensures Q.Find(b.ledger.movements, PurchaseKey(id, pg, "CREATE"), Q.IN) == Q.Find(a.ledger.movements, PurchaseKey(id, pg, "CREATE"), Q.IN)
    {
      KeyBegins(id, pg, "STATUS");
      KeyBegins(id, pg, "CREATE");
      FindInGrown(a.ledger.movements, b.ledger.movements, {key}, PurchaseKey(id, pg, "STATUS"), Q.OUT);
      FindInGrown(a.ledger.movements, b.ledger.movements, {key}, PurchaseKey(id, pg, "CREATE"), Q.IN);
    }
  }

  /** An inbound from before is still that inbound, purchased if it was, and with its row. */
  predicate Lasts(s: State, t: State, pg: Pg, nextId: nat) {
    pg in t.latest && t.latest[pg].id < nextId ==>
      && pg in s.latest && t.latest[pg].id == s.latest[pg].id
      && (s.latest[pg].status == Purchased ==> t.latest[pg].status == Purchased)
      && (pg in s.stock.inventory ==> pg in t.stock.inventory)
  }

  lemma RecordsLast(s: State, t: State, nextId: nat, later: nat)
    requires RecordsOk(s, nextId) && nextId <= later && SameFinds(s.stock, t.stock)
    requires forall pg :: pg in t.latest ==> t.latest[pg].id < later
    requires forall pg :: pg in t.latest ==> Lasts(s, t, pg, nextId)
    ensures RecordsOk(t, later)
  {
    forall id: nat, pg: Pg
      ensures StatusOk(t, later, id, pg) && CreationOk(t, later, id, pg)
    {
      assert StatusOk(s, nextId, id, pg) && CreationOk(s, nextId, id, pg);
      assert pg in t.latest ==> Lasts(s, t, pg, nextId);
    }
  }

  lemma PutKeeps(s: State, pg: Pg, d: M.Device)
    requires DevicesOk(s.devices) && M.PlainModel(d) && Free(s, pg, d)
    ensures DevicesOk(s.devices[pg := d])
  {
    var after := s.devices[pg := d];
    forall p, q | p in after && q in after && p != q
      ensures NumbersDiffer(after[p], after[q])
    {
      if p != pg && q != pg {
        assert NumbersDiffer(s.devices[p], s.devices[q]);
      }
    }
  }

  lemma TrimmedIsPlain(model: string, d: M.Device)
    requires d.model != "" && d.model == M.Trim(model)
    ensures M.PlainModel(d)
  {
    M.TrimTwice(model);
  }

  lemma UnknownIsPlain(d: M.Device)
    requires d.model == "UNKNOWN"
    ensures M.PlainModel(d)
  {
  }

  lemma ReceiveKeeps(stock: Q.Stock, pg: Pg)
    requires R.Good(stock) && pg !in stock.devices
    ensures var next := R.Step(stock, R.Receive(pg));
            R.Good(next) && next.devices.Keys == stock.devices.Keys + {pg} && next.ledger == stock.ledger && next.inventory == stock.inventory
  {
    R.StepKeepsIff(stock, R.Receive(pg));
  }

  lemma OpenKeeps(w: World, pg: Pg, model: string, status: InboundStatus, price: Option<nat>)
    requires StateOk(w.state, w.nextId)
    ensures var next := Opened(w, pg, model, status, price); StateOk(next.state, next.nextId)
  {
    var s, next := w.state, Opened(w, pg, model, status, price);
    if pg !in s.devices {
      ReceiveKeeps(s.stock, pg);
      var d := next.state.devices[pg];
      if d.model == "UNKNOWN" {
        UnknownIsPlain(d);
      } else {
        TrimmedIsPlain(model, d);
      }
      PutKeeps(s, pg, d);
    }
    RecordsLast(s, next.state, w.nextId, next.nextId);
  }

  lemma ReviseKeeps(s: State, nextId: nat, pg: Pg, status: InboundStatus, price: Option<nat>)
    requires StateOk(s, nextId)
    ensures StateOk(Revised(s, pg, status, price), nextId)
  {
    RecordsLast(s, Revised(s, pg, status, price), nextId, nextId);
  }

  /** Writes to device rows alone. */
  lemma EditKeeps(s: State, t: State, nextId: nat, pg: Pg, d: M.Device)
    requires StateOk(s, nextId) && pg in s.devices && M.PlainModel(d) && Free(s, pg, d)
    requires t.devices == s.devices[pg := d] && t.latest == s.latest && t.stock == s.stock
    ensures StateOk(t, nextId)
  {
    PutKeeps(s, pg, d);
    RecordsLast(s, t, nextId, nextId);
  }

  lemma RenameKeeps(s: State, nextId: nat, pg: Pg, model: string)
    requires StateOk(s, nextId)
    ensures StateOk(Renamed(s, pg, model), nextId)
  {
    var t := Renamed(s, pg, model);
    hide RecordsOk, StockOk;
    if t != s {
      assert M.PlainModel(s.devices[pg]);
      if M.Trim(model) != "" {
        TrimmedIsPlain(model, t.devices[pg]);
      }
      EditKeeps(s, t, nextId, pg, t.devices[pg]);
    }
  }

  lemma CorrectKeeps(s: State, nextId: nat, pg: Pg, model: Option<string>, modelSeq: Option<Option<nat>>)
    requires StateOk(s, nextId)
    ensures StateOk(Corrected(s, pg, model, modelSeq), nextId)
  {
    var t := Corrected(s, pg, model, modelSeq);
    hide RecordsOk, StockOk, M.RaiseFloor;
    if t != s {
      assert M.PlainModel(s.devices[pg]);
      if model.Some? {
        TrimmedIsPlain(model.value, t.devices[pg]);
      }
      EditKeeps(s, t, nextId, pg, t.devices[pg]);
    }
  }

  lemma HandKeepsStock(stock: Q.Stock, pg: Pg, status: Q.Status, c: Q.Context, catalog: Q.Catalog)
    requires R.Good(stock) && pg !in stock.devices && Drawn(stock, c, Q.IN)
    requires Q.Create(R.Step(stock, R.Receive(pg)), pg, status, c, catalog).Ok?
    ensures var next := Q.Create(R.Step(stock, R.Receive(pg)), pg, status, c, catalog).value;
            R.Good(next) && next.devices.Keys == stock.devices.Keys + {pg} && SameFinds(stock, next) && stock.inventory.Keys <= next.inventory.Keys
  {
    var received := R.Step(stock, R.Receive(pg));
    ReceiveKeeps(stock, pg);
    R.CreateKeepsIffKeyIsNew(received, pg, status, c, catalog);
    CreateGrows(received, pg, status, c, catalog);
    ForeignKeyFinds(stock, Q.Create(received, pg, status, c, catalog).value, c.operationKey);
  }

  lemma HandKeeps(w: World, pg: Pg, model: string, modelSeq: Option<nat>, price: Option<nat>, status: Q.Status, c: Q.Context, catalog: Q.Catalog)
    requires StateOk(w.state, w.nextId)
    ensures var next := AddedByHand(w, pg, model, modelSeq, price, status, c, catalog); StateOk(next.state, next.nextId)
  {
    var s, next := w.state, AddedByHand(w, pg, model, modelSeq, price, status, c, catalog);
    hide R.Good, R.Step, Q.Create, M.RaiseFloor, SameFinds;
    if next != w {
      HandKeepsStock(s.stock, pg, status, c, catalog);
      TrimmedIsPlain(model, next.state.devices[pg]);
      PutKeeps(s, pg, next.state.devices[pg]);
      RecordsLast(s, next.state, w.nextId, next.nextId);
    }
  }

  lemma ForgetKeepsStock(stock: Q.Stock, pg: Pg, c: Q.Context)
    requires R.Good(stock) && Drawn(stock, c, Q.OUT) && Q.Remove(stock, pg, c).Ok?
    ensures var next := Q.Remove(stock, pg, c).value;
            R.Good(next) && next.devices.Keys == stock.devices.Keys - {pg} && SameFinds(stock, next) && next.inventory.Keys == stock.inventory.Keys - {pg}
  {
    if pg in stock.inventory {
      R.RemoveKeepsIffKeyIsNew(stock, pg, c);
    } else {
      R.RemoveDeviceKeeps(stock, pg, c);
    }
    RemoveGrows(stock, pg, c);
    ForeignKeyFinds(stock, Q.Remove(stock, pg, c).value, c.operationKey);
  }

  lemma ForgetKeeps(s: State, nextId: nat, pg: Pg, c: Q.Context)
    requires StateOk(s, nextId)
    ensures StateOk(Forgotten(s, pg, c), nextId)
  {
    var t := Forgotten(s, pg, c);
    hide R.Good, Q.Remove, SameFinds;
    if t != s {
      ForgetKeepsStock(s.stock, pg, c);
      FewerDevices(s.devices, t.devices);
      RecordsLast(s, t, nextId, nextId);
    }
  }

  lemma FewerDevices(a: map<Pg, M.Device>, b: map<Pg, M.Device>)
    requires DevicesOk(a) && b.Keys <= a.Keys && forall p :: p in b ==> b[p] == a[p]
    ensures DevicesOk(b)
  {
    forall p | p in b
      ensures M.PlainModel(b[p])
    {
      assert M.PlainModel(a[p]);
    }
    forall p, q | p in b && q in b && p != q
      ensures NumbersDiffer(b[p], b[q])
    {
      assert NumbersDiffer(a[p], a[q]);
    }
  }

  lemma MoveKeepsStock(stock: Q.Stock, a: R.Action)
    requires R.Good(stock) && (a.DoTransition? || (a.DoReclassify? && R.KeyIsNew(stock, a))) && !Begins(a.c.operationKey)
    ensures var next := R.Step(stock, a);
            R.Good(next) && next.devices.Keys == stock.devices.Keys && next.inventory.Keys == stock.inventory.Keys && SameFinds(stock, next)
  {
    R.StepKeepsIff(stock, a);
    MoveGrows(stock, a);
    ForeignKeyFinds(stock, R.Step(stock, a), a.c.operationKey);
  }

  lemma MoveGrows(stock: Q.Stock, a: R.Action)
    requires a.DoTransition? || a.DoReclassify?
    ensures var next := R.Step(stock, a);
            && GrownBy(stock.ledger.movements, next.ledger.movements, {a.c.operationKey})
            && next.devices.Keys == stock.devices.Keys && next.inventory.Keys == stock.inventory.Keys
  {
    if R.Result(stock, a).Ok? {
      match a
      case DoTransition(pg, target, expectedFrom, policy, c, catalog) => TransitionGrows(stock, pg, target, expectedFrom, policy, c, catalog);
      case DoReclassify(pg, c, catalog, mustResolve) => ReclassifyGrows(stock, pg, c, catalog, mustResolve);
    }
  }

  lemma MoveKeeps(s: State, nextId: nat, a: R.Action)
    requires StateOk(s, nextId)
    ensures StateOk(Moved(s, a), nextId)
  {
    var t := Moved(s, a);
    hide R.Good, R.Step, SameFinds, R.KeyIsNew;
    if t != s {
      MoveKeepsStock(s.stock, a);
      RecordsLast(s, t, nextId, nextId);
    }
  }

  // ---- every step and every run ----

  lemma StepKeeps(w: World, a: Action)
    requires StateOk(w.state, w.nextId)
    ensures StateOk(Step(w, a).state, Step(w, a).nextId)
  {
    hide StateOk, Opened, Revised, Renamed, Corrected, AddedByHand, Forgotten, Moved, ConfirmAll;
    match a
    case Request(rows, db) =>
      if ConfirmBatch(w.state, rows, db).Ok? { ItemsKeep(w.state, Parsed(rows).value, db, w.nextId); }
    case Open(pg, model, status, price) => OpenKeeps(w, pg, model, status, price);
    case Revise(pg, status, price) => ReviseKeeps(w.state, w.nextId, pg, status, price);
    case Rename(pg, model) => RenameKeeps(w.state, w.nextId, pg, model);
    case Correct(pg, model, modelSeq) => CorrectKeeps(w.state, w.nextId, pg, model, modelSeq);
    case AddByHand(pg, model, modelSeq, price, status, c, catalog) => HandKeeps(w, pg, model, modelSeq, price, status, c, catalog);
    case Forget(pg, c) => ForgetKeeps(w.state, w.nextId, pg, c);
    case MoveStock(m) => MoveKeeps(w.state, w.nextId, m);
  }

  lemma EmptyOk()
    ensures StateOk(EmptyWorld.state, EmptyWorld.nextId)
  {
    R.EmptyIsGood();
  }

  /**
   In every run: purchase keys recorded in the ledger belong to inbounds that were opened, with their
   purchase and row while they last; models are named and trimmed, and no two devices of one model share
   a number; and the quantity ledger is sound.
   */
  lemma {:induction false} RunKeeps(actions: seq<Action>)
    ensures StateOk(Run(actions).state, Run(actions).nextId)
  {
    hide StateOk, Step;
    if actions == [] {
      EmptyOk();
    } else {
      RunKeeps(actions[..|actions| - 1]);
      StepKeeps(Run(actions[..|actions| - 1]), actions[|actions| - 1]);
    }
  }
}
