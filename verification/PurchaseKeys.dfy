/** The operation keys of purchases: one names a device and an action, so items of a batch never meet in the ledger. */
module PurchaseKeys {
  import opened Common
  import Q = QuantityLedger
  import R = LedgerRuns
  import opened PurchaseItems
  import opened Purchase

  lemma {:induction false} DecimalHasNoColon(n: nat)
    ensures ':' !in Decimal(n)
  {
    if n >= 10 {
      DecimalHasNoColon(n / 10);
    }
  }

  function AfterColon(s: string): string {
    if s == "" then ""
    else if s[0] == ':' then s[1..]
    else AfterColon(s[1..])
  }

  lemma {:induction false} FirstColon(d: string, r: string)
    requires ':' !in d
    ensures AfterColon(d + (":" + r)) == r
  {
    if d == "" {
      assert d + (":" + r) == ":" + r;
    } else {
      assert (d + (":" + r))[1..] == d[1..] + (":" + r);
      FirstColon(d[1..], r);
    }
  }

  function UpToColon(s: string): string {
    if s == "" || s[0] == ':' then "" else [s[0]] + UpToColon(s[1..])
  }

  lemma {:induction false} ColonEnds(d: string, r: string)
    requires ':' !in d
    ensures UpToColon(d + (":" + r)) == d
  {
    if d == "" {
      assert d + (":" + r) == ":" + r;
    } else {
      assert (d + (":" + r))[1..] == d[1..] + (":" + r);
      ColonEnds(d[1..], r);
    }
  }

  lemma {:induction false} DecimalIsInjective(m: nat, n: nat)
    requires Decimal(m) == Decimal(n)
    ensures m == n
  {
    var dm, dn := Decimal(m), Decimal(n);
    assert dm[|dm| - 1] == ((m % 10 + 48) as char) && dn[|dn| - 1] == ((n % 10 + 48) as char);
    assert dm[..|dm| - 1] == dn[..|dn| - 1];
    if m >= 10 && n >= 10 {
      assert dm[..|dm| - 1] == Decimal(m / 10) && dn[..|dn| - 1] == Decimal(n / 10);
      DecimalIsInjective(m / 10, n / 10);
    }
  }

  /** A key tells which inbound, which device and which action it is for. */
  lemma KeyNamesAll(idA: nat, pgA: Pg, actA: string, idB: nat, pgB: Pg, actB: string)
    requires |actA| == |actB| && PurchaseKey(idA, pgA, actA) == PurchaseKey(idB, pgB, actB)
    ensures idA == idB && pgA == pgB && actA == actB
  {
    var ra, rb := pgA + ":" + actA, pgB + ":" + actB;
    var ka, kb := Decimal(idA) + (":" + ra), Decimal(idB) + (":" + rb);
    assert PurchaseKey(idA, pgA, actA) == PREFIX + ka && PurchaseKey(idB, pgB, actB) == PREFIX + kb;
    assert (PREFIX + ka)[|PREFIX|..] == ka && (PREFIX + kb)[|PREFIX|..] == kb;
    DecimalHasNoColon(idA);
    DecimalHasNoColon(idB);
    FirstColon(Decimal(idA), ra);
    FirstColon(Decimal(idB), rb);
    ColonEnds(Decimal(idA), ra);
    ColonEnds(Decimal(idB), rb);
    DecimalIsInjective(idA, idB);
    assert ra[|ra| - |actA|..] == actA && rb[|rb| - |actB|..] == actB;
    assert pgA == ra[..|ra| - |actA| - 1] && pgB == rb[..|rb| - |actB| - 1];
  }

  // ---- what an item posts ----

  /** Movements are only added, and only under the keys of this purchase. */
  ghost predicate GrownBy(ms: seq<Q.Movement>, next: seq<Q.Movement>, keys: set<string>) {
    |ms| <= |next| && next[..|ms|] == ms && forall k :: |ms| <= k < |next| ==> next[k].operationKey in keys
  }

  lemma {:induction false} FindInGrown(ms: seq<Q.Movement>, next: seq<Q.Movement>, keys: set<string>, key: string, suffix: Q.Suffix)
    requires GrownBy(ms, next, keys) && key !in keys
    ensures Q.Find(next, key, suffix) == Q.Find(ms, key, suffix)
    decreases |next|
  {
    if ms == [] {
      if next != [] {
        FindInGrown([], next[1..], keys, key, suffix);
      }
    } else {
      assert next[0] == ms[0] && next[1..][..|ms| - 1] == ms[1..];
      FindInGrown(ms[1..], next[1..], keys, key, suffix);
    }
  }

  function KeysOf(item: Item, inbound: Inbound): set<string> {
    {KeyOf(item, inbound, "CREATE"), KeyOf(item, inbound, "STATUS")}
  }

  lemma DeltaGrows(l: Q.Ledger, key: Q.Key, c: Q.Context, t: Q.MovementType, pg: Option<Q.Pg>, delta: int, suffix: Q.Suffix)
    requires Q.ApplyDelta(l, key, c, t, pg, delta, suffix).Ok?
    ensures GrownBy(l.movements, Q.ApplyDelta(l, key, c, t, pg, delta, suffix).value.movements, {c.operationKey})
  {
  }

  lemma GrownTwice(a: seq<Q.Movement>, b: seq<Q.Movement>, c: seq<Q.Movement>, keys: set<string>)
    requires GrownBy(a, b, keys) && GrownBy(b, c, keys)
    ensures GrownBy(a, c, keys)
  {
    assert c[..|b|][..|a|] == c[..|a|];
    forall k | |a| <= k < |c|
      ensures c[k].operationKey in keys
    {
      assert k < |b| ==> c[..|b|][k] == b[k];
    }
  }

  lemma CreateGrows(stock: Q.Stock, pg: Pg, status: Q.Status, c: Q.Context, catalog: Q.Catalog)
    requires Q.Create(stock, pg, status, c, catalog).Ok?
    ensures GrownBy(stock.ledger.movements, Q.Create(stock, pg, status, c, catalog).value.ledger.movements, {c.operationKey})
  {
    var next := Q.Create(stock, pg, status, c, catalog).value;
    DeltaGrows(stock.ledger, Q.Key(next.devices[pg].value, status), c, Q.InventoryCreated, Some(pg), 1, Q.IN);
  }

  lemma TransitionGrows(stock: Q.Stock, pg: Pg, target: Q.Status, expectedFrom: Option<Q.Status>, policy: (Q.Status, Q.Status) -> bool, c: Q.Context, catalog: Q.Catalog)
    requires Q.Transition(stock, pg, target, expectedFrom, policy, c, catalog).Ok?
    ensures GrownBy(stock.ledger.movements, Q.Transition(stock, pg, target, expectedFrom, policy, c, catalog).value.ledger.movements, {c.operationKey})
  {
    var next := Q.Transition(stock, pg, target, expectedFrom, policy, c, catalog).value;
    if next != stock {
      var sku := Q.AssignSku(stock, pg, catalog, false).value;
      PairGrows(stock.ledger, Q.Key(sku, stock.inventory[pg]), Q.Key(sku, target), c, Q.StatusTransfer, Some(pg), Q.OUT, Q.IN);
    }
  }

  lemma PairGrows(l: Q.Ledger, out: Q.Key, into: Q.Key, c: Q.Context, t: Q.MovementType, pg: Option<Q.Pg>, outSuffix: Q.Suffix, inSuffix: Q.Suffix)
    requires Q.ApplyDelta(l, out, c, t, pg, -1, outSuffix).Ok?
    requires Q.ApplyDelta(Q.ApplyDelta(l, out, c, t, pg, -1, outSuffix).value, into, c, t, pg, 1, inSuffix).Ok?
    ensures GrownBy(l.movements, Q.ApplyDelta(Q.ApplyDelta(l, out, c, t, pg, -1, outSuffix).value, into, c, t, pg, 1, inSuffix).value.movements, {c.operationKey})
  {
    var mid := Q.ApplyDelta(l, out, c, t, pg, -1, outSuffix).value;
    DeltaGrows(l, out, c, t, pg, -1, outSuffix);
    DeltaGrows(mid, into, c, t, pg, 1, inSuffix);
    GrownTwice(l.movements, mid.movements, Q.ApplyDelta(mid, into, c, t, pg, 1, inSuffix).value.movements, {c.operationKey});
  }

  lemma RemoveGrows(stock: Q.Stock, pg: Pg, c: Q.Context)
    requires Q.Remove(stock, pg, c).Ok?
    ensures GrownBy(stock.ledger.movements, Q.Remove(stock, pg, c).value.ledger.movements, {c.operationKey})
  {
    if pg in stock.inventory {
      DeltaGrows(stock.ledger, Q.Key(stock.devices[pg].value, stock.inventory[pg]), c, Q.InventoryRemoved, Some(pg), -1, Q.OUT);
    }
  }

  lemma ReclassifyGrows(stock: Q.Stock, pg: Pg, c: Q.Context, catalog: Q.Catalog, mustResolve: bool)
    requires Q.Reclassify(stock, pg, c, catalog, mustResolve).Ok?
    ensures GrownBy(stock.ledger.movements, Q.Reclassify(stock, pg, c, catalog, mustResolve).value.ledger.movements, {c.operationKey})
  {
    if Q.Reclassify(stock, pg, c, catalog, mustResolve).value.ledger != stock.ledger {
      var into := Q.Key(Q.AssignSku(stock, pg, catalog, mustResolve).value, stock.inventory[pg]);
      if stock.devices[pg].None? {
        DeltaGrows(stock.ledger, into, c, Q.SkuReclassification, Some(pg), 1, Q.NewSkuIn);
      } else {
        PairGrows(stock.ledger, Q.Key(stock.devices[pg].value, stock.inventory[pg]), into, c, Q.SkuReclassification, Some(pg), Q.OldSkuOut, Q.NewSkuIn);
      }
    }
  }

  lemma SetSellableGrows(stock: Q.Stock, item: Item, inbound: Inbound, db: Lookups)
    requires SetSellable(stock, item, inbound, db).Ok?
    ensures GrownBy(stock.ledger.movements, SetSellable(stock, item, inbound, db).value.ledger.movements, KeysOf(item, inbound))
  {
    if item.pg !in stock.inventory {
      CreateGrows(stock, item.pg, SELLABLE, ContextOf(item, inbound, "CREATE"), db.catalog(item.pg));
    } else {
      TransitionGrows(stock, item.pg, SELLABLE, None, PurchasePolicy, ContextOf(item, inbound, "STATUS"), db.catalog(item.pg));
    }
  }

  /** The ledger after an item: untouched, or what SetSellable makes of it, or a creation. */
  lemma StockAfter(s: State, item: Item, db: Lookups)
    requires ConfirmOne(s, item, db).Ok?
    ensures var next := ConfirmOne(s, item, db).value.0.stock;
            next == s.stock || (item.pg in s.latest && SetSellable(s.stock, item, s.latest[item.pg], db) == Ok(next))
  {
  }

  /** The keys of another device find what they found before. */
  lemma OthersFindTheSame(s: State, item: Item, db: Lookups, other: Item, inbound: Inbound, action: string, suffix: Q.Suffix)
    requires ConfirmOne(s, item, db).Ok? && other.pg != item.pg && |action| == 6
    ensures Q.Find(ConfirmOne(s, item, db).value.0.stock.ledger.movements, KeyOf(other, inbound, action), suffix)
         == Q.Find(s.stock.ledger.movements, KeyOf(other, inbound, action), suffix)
  {
    var next := ConfirmOne(s, item, db).value.0.stock;
    StockAfter(s, item, db);
    if next != s.stock {
      var mine := s.latest[item.pg];
      SetSellableGrows(s.stock, item, mine, db);
      if KeyOf(other, inbound, action) in KeysOf(item, mine) {
        var a := if KeyOf(other, inbound, action) == KeyOf(item, mine, "CREATE") then "CREATE" else "STATUS";
        KeyNamesAll(inbound.id, other.pg, action, mine.id, item.pg, a);
      }
      FindInGrown(s.stock.ledger.movements, next.ledger.movements, KeysOf(item, mine), KeyOf(other, inbound, action), suffix);
    }
  }

  // ---- the ledger stays sound ----

  /** The key under which a missing row of this item would be created. */
  predicate CreateKeyIsNew(s: State, item: Item) {
    item.pg in s.latest ==> Q.Find(s.stock.ledger.movements, KeyOf(item, s.latest[item.pg], "CREATE"), Q.IN).None?
  }

  /** Confirming this item would create the inventory row of its device. */
  predicate Creates(s: State, item: Item) {
    && item.pg in s.devices && item.pg in s.latest && item.pg !in s.stock.inventory
    && var inbound := s.latest[item.pg];
    && inbound.id == item.inboundId
    && ((inbound.status == Inspected && inbound.revision == item.revision) || (inbound.status == Purchased && inbound.price == Some(item.price)))
  }

  /** The row comes from a creation under the key of the purchase, or nothing was posted, or there was a row before. */
  lemma StockCreated(s: State, item: Item, db: Lookups)
    requires ConfirmOne(s, item, db).Ok?
    ensures var next := ConfirmOne(s, item, db).value.0.stock;
            if Creates(s, item) then Q.Create(s.stock, item.pg, SELLABLE, ContextOf(item, s.latest[item.pg], "CREATE"), db.catalog(item.pg)) == Ok(next)
            else next == s.stock || item.pg in s.stock.inventory
  {
    hide Q.Create, Q.Transition;
  }

  /** A confirmed item keeps a sound quantity ledger sound exactly when it creates no row or its creation key is new. */
  lemma OneItemKeepsLedgerIff(s: State, item: Item, db: Lookups)
    requires R.Good(s.stock) && ConfirmOne(s, item, db).Ok?
    ensures R.Good(ConfirmOne(s, item, db).value.0.stock) <==> (Creates(s, item) ==> CreateKeyIsNew(s, item))
  {
    StockAfter(s, item, db);
    StockCreated(s, item, db);
    hide ConfirmOne, Q.Create, Q.Transition, R.Good, Creates;
    if Creates(s, item) {
      R.CreateKeepsIffKeyIsNew(s.stock, item.pg, SELLABLE, ContextOf(item, s.latest[item.pg], "CREATE"), db.catalog(item.pg));
    } else if ConfirmOne(s, item, db).value.0.stock != s.stock {
      R.TransitionKeeps(s.stock, item.pg, SELLABLE, None, PurchasePolicy, ContextOf(item, s.latest[item.pg], "STATUS"), db.catalog(item.pg));
    }
  }
}
