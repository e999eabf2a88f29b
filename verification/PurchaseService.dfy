/** The purchase service on its tables. */
module PurchaseService {
  import opened Common
  import M = ModelSequence
  import Q = QuantityLedger
  import opened PurchaseItems
  import opened Purchase

  /** The aggregate of the query: the highest number stored under this spelling, or zero. */
  method HighestNumber(devices: map<Pg, M.Device>, model: string) returns (r: nat)
    ensures r == M.Highest(M.NumbersOf(devices, model))
  {
    r := 0;
    var left := devices.Keys;
    ghost var seen: set<Pg> := {};
    while left != {}
      invariant left + seen == devices.Keys
      invariant r == 0 || r in M.NumbersOf(devices, model)
      invariant forall pg :: pg in seen && devices[pg].model == model && devices[pg].modelSeq.Some? ==> devices[pg].modelSeq.value <= r
      decreases |left|
    {
      var pg :| pg in left;
      left, seen := left - {pg}, seen + {pg};
      var device := devices[pg];
      if device.model == model && device.modelSeq.Some? && device.modelSeq.value > r {
        r := device.modelSeq.value;
      }
    }
    assert seen == devices.Keys;
  }

  class Service {
    var devices: map<Pg, M.Device>
    var latest: map<Pg, Inbound>
    var stock: Q.Stock
    var lastSeq: map<string, nat>

    function State(): State
      reads this
    {
      Purchase.State(devices, latest, stock, lastSeq)
    }

    constructor (devices: map<Pg, M.Device>, latest: map<Pg, Inbound>, stock: Q.Stock, lastSeq: map<string, nat>)
      ensures State() == Purchase.State(devices, latest, stock, lastSeq)
    {
      this.devices, this.latest, this.stock, this.lastSeq := devices, latest, stock, lastSeq;
    }

    method AllocateNextModelSequence(model: string) returns (r: Result<nat, M.SequenceError>)
      modifies this`lastSeq
      ensures var tx := M.Allocate(devices, old(lastSeq), model);
              && lastSeq == (if tx.Ok? then tx.value.1 else old(lastSeq))
              && r == (if tx.Ok? then Ok(tx.value.0) else Err(tx.error))
    {
      var key := M.Trim(model);
      if key == "" {
        return Err(M.ModelRequired);
      }
      var inserted := HighestNumber(devices, key);
      inserted := inserted + 1;
      var next := if key in lastSeq then Max(lastSeq[key], inserted - 1) + 1 else inserted;
      lastSeq := lastSeq[key := next];
      return Ok(next);
    }

    method RaiseModelSequenceFloor(model: string, floor: Option<nat>) returns (error: Option<M.SequenceError>)
      modifies this`lastSeq
      ensures var tx := M.RaiseFloor(old(lastSeq), model, floor);
              && lastSeq == (if tx.Ok? then tx.value else old(lastSeq))
              && error == (if tx.Ok? then None else Some(tx.error))
    {
      if floor.None? {
        return None;
      }
      var key := M.Trim(model);
      if key == "" || floor.value <= 0 {
        return Some(M.FloorRequired);
      }
      lastSeq := lastSeq[key := if key in lastSeq then Max(lastSeq[key], floor.value) else floor.value];
      return None;
    }

    method AssignModelSeqIfMissing(pg: Pg) returns (r: Result<nat, M.SequenceError>)
      requires pg in devices
      modifies this`devices, this`lastSeq
      ensures var tx := M.Assign(old(devices), old(lastSeq), pg);
              && r == (if tx.Ok? then Ok(tx.value.0) else Err(tx.error))
              && (tx.Ok? ==> devices == tx.value.1 && lastSeq == tx.value.2)
    {
      var device := devices[pg];
      if device.modelSeq.Some? {
        return Ok(device.modelSeq.value);
      }
      var next := AllocateNextModelSequence(device.model);
      if next.Err? {
        return Err(next.error);
      }
      if M.Taken(devices, pg, device.model, next.value) {
        return Err(M.NumberTaken);
      }
      devices := devices[pg := device.(modelSeq := Some(next.value), revision := device.revision + 1)];
      return Ok(next.value);
    }

    /** What a committed or throwing step leaves; after a throw only the caller's rollback counts. */
    ghost predicate Answers(before: State, tx: Result<(State, Outcome), PurchaseError>, r: Result<Outcome, PurchaseError>)
      reads this
    {
      && r == (if tx.Ok? then Ok(tx.value.1) else Err(tx.error))
      && (tx.Ok? ==> State() == tx.value.0)
    }

    method Number(item: Item, mode: Mode, reason: Reason, price: Option<nat>) returns (r: Result<Outcome, PurchaseError>)
      requires item.pg in devices
      modifies this
      ensures Answers(old(State()), WithNumber(old(State()), item, mode, reason, price), r)
    {
      var n := AssignModelSeqIfMissing(item.pg);
      return if n.Ok? then Ok(Outcome(mode, reason, item.pg, price, Some(n.value))) else Err(Sequence(n.error));
    }

    method ConfirmInspectedPurchase(item: Item, db: Lookups) returns (r: Result<Outcome, PurchaseError>)
      requires item.pg in devices && item.pg in latest
      modifies this
      ensures Answers(old(State()), ConfirmInspected(old(State()), item, db), r)
    {
      var inbound := latest[item.pg];
      var evidence := EvidenceOf(item, db);
      if evidence.Err? {
        return Err(evidence.error);
      }
      latest := latest[item.pg := Bought(inbound, item, evidence.value)];
      var sellable := SetSellable(stock, item, inbound, db);
      if sellable.Err? {
        return Err(sellable.error);
      }
      stock := sellable.value;
      r := Number(item, Confirmed, PurchaseConfirmed, Some(item.price));
    }

    method RecoverOrSkip(item: Item, db: Lookups) returns (r: Result<Outcome, PurchaseError>)
      requires item.pg in devices && item.pg in latest
      modifies this
      ensures Answers(old(State()), ConfirmPurchased(old(State()), item, db), r)
    {
      var inbound := latest[item.pg];
      if inbound.price != Some(item.price) {
        return Ok(ConflictOf(item, PriceMismatch));
      }
      if item.pg !in stock.inventory {
        var created := Q.Create(stock, item.pg, SELLABLE, ContextOf(item, inbound, "CREATE"), db.catalog(item.pg));
        if created.Err? {
          return Err(Ledger(created.error));
        }
        stock := created.value;
        r := Number(item, Recovered, InventoryRecovered, inbound.price);
        return;
      }
      if stock.inventory[item.pg] != SELLABLE {
        return Ok(ConflictOf(item, InventoryStatusConflict));
      }
      if devices[item.pg].modelSeq.None? {
        r := Number(item, Recovered, ModelSequenceRecovered, inbound.price);
        return;
      }
      return Ok(Outcome(Skipped, AlreadyConfirmed, item.pg, inbound.price, devices[item.pg].modelSeq));
    }

    method ConfirmOnePurchase(item: Item, db: Lookups) returns (r: Result<Outcome, PurchaseError>)
      modifies this
      ensures Answers(old(State()), ConfirmOne(old(State()), item, db), r)
    {
      if item.pg !in devices {
        return Ok(ConflictOf(item, DeviceNotFound));
      }
      if item.pg !in latest {
        return Ok(ConflictOf(item, InboundNotFound));
      }
      var inbound := latest[item.pg];
      if inbound.id != item.inboundId {
        return Ok(ConflictOf(item, InboundIdMismatch));
      }
      if inbound.status == Inspected && inbound.revision != item.revision {
        return Ok(ConflictOf(item, InboundRevisionMismatch));
      }
      if inbound.status == SupplierReturn {
        return Ok(ConflictOf(item, SupplierReturned));
      }
      if inbound.status == Inspected {
        r := ConfirmInspectedPurchase(item, db);
      } else if inbound.status != Purchased {
        return Ok(ConflictOf(item, InboundStatusConflict));
      } else {
        r := RecoverOrSkip(item, db);
      }
    }

    /** One transaction: the first item that throws takes back all of them. */
    method ConfirmInboundPurchases(rows: seq<Row>, db: Lookups) returns (r: Result<seq<Outcome>, PurchaseError>)
      modifies this
      ensures var tx := ConfirmBatch(old(State()), rows, db);
              && State() == (if tx.Ok? then tx.value.0 else old(State()))
              && r == (if tx.Ok? then Ok(tx.value.1) else Err(tx.error))
    {
      hide ConfirmOne;
      var parsed := ParseItems(rows);
      if parsed.Err? {
        return Err(BadField(parsed.error));
      }
      var items := parsed.value;
      if items == [] {
        return Err(InputInvalid);
      }
      var oldDevices, oldLatest, oldStock, oldLastSeq := devices, latest, stock, lastSeq;
      var results: seq<Outcome> := [];
      var k := 0;
      while k < |items|
        invariant 0 <= k <= |items|
        invariant ConfirmAll(old(State()), items[..k], db) == Ok((State(), results))
      {
        assert items[..k + 1][..k] == items[..k];
        var one := ConfirmOnePurchase(items[k], db);
        if one.Err? {
          ErrorEnds(old(State()), items, db, k + 1);
          devices, latest, stock, lastSeq := oldDevices, oldLatest, oldStock, oldLastSeq;
          return Err(one.error);
        }
        results := results + [one.value];
        k := k + 1;
      }
      assert items[..k] == items;
      return Ok(results);
    }
  }

  lemma {:induction false} ErrorEnds(s: State, items: seq<Item>, db: Lookups, k: nat)
    requires k <= |items| && ConfirmAll(s, items[..k], db).Err?
    ensures ConfirmAll(s, items, db) == ConfirmAll(s, items[..k], db)
    decreases |items|
  {
    if k == |items| {
      assert items[..k] == items;
    } else {
      assert items[..|items| - 1][..k] == items[..k];
      ErrorEnds(s, items[..|items| - 1], db, k);
    }
  }
}
