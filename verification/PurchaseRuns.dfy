/** Whole batches: a committed batch can be sent again, and the numbers it gives out rise. */
module PurchaseRuns {
  import opened Common
  import M = ModelSequence
  import opened PurchaseItems
  import Q = QuantityLedger
  import R = LedgerRuns
  import opened Purchase
  import opened PurchaseKeys

  /** What the batch looked like before item k. */
  ghost function Before(s: State, items: seq<Item>, db: Lookups, k: nat): State
    requires k <= |items| && ConfirmAll(s, items, db).Ok?
  {
    PrefixOk(s, items, db, k);
    ConfirmAll(s, items[..k], db).value.0
  }

  lemma {:induction false} OneAnswerEach(s: State, items: seq<Item>, db: Lookups)
    requires ConfirmAll(s, items, db).Ok?
    ensures |ConfirmAll(s, items, db).value.1| == |items|
  {
    if items != [] {
      OneAnswerEach(s, items[..|items| - 1], db);
    }
  }

  lemma {:induction false} PrefixOk(s: State, items: seq<Item>, db: Lookups, k: nat)
    requires k <= |items| && ConfirmAll(s, items, db).Ok?
    ensures ConfirmAll(s, items[..k], db).Ok?
    ensures |ConfirmAll(s, items, db).value.1| == |items| && ConfirmAll(s, items[..k], db).value.1 == ConfirmAll(s, items, db).value.1[..k]
    decreases |items|
  {
    hide ConfirmOne;
    OneAnswerEach(s, items, db);
    if k == |items| {
      assert items[..k] == items;
    } else {
      var shorter := items[..|items| - 1];
      assert shorter[..k] == items[..k];
      PrefixOk(s, shorter, db, k);
      assert ConfirmAll(s, items, db).value.1[..|shorter|] == ConfirmAll(s, shorter, db).value.1;
    }
  }

  /** One item of a batch, seen from the state before it. */
  lemma StepOf(s: State, items: seq<Item>, db: Lookups, k: nat)
    requires k < |items| && ConfirmAll(s, items, db).Ok?
    ensures |ConfirmAll(s, items, db).value.1| == |items|
    ensures ConfirmOne(Before(s, items, db, k), items[k], db) == Ok((Before(s, items, db, k + 1), ConfirmAll(s, items, db).value.1[k]))
  {
    hide ConfirmOne;
    PrefixOk(s, items, db, |items|);
    PrefixOk(s, items, db, k);
    PrefixOk(s, items, db, k + 1);
    assert items[..|items|] == items;
    assert items[..k + 1][..k] == items[..k];
  }

  /** From item i on, the rows of a device that comes no more stay as they are. */
  lemma {:induction false} RowsStay(s: State, items: seq<Item>, db: Lookups, i: nat, k: nat, pg: Pg)
    requires i <= k <= |items| && ConfirmAll(s, items, db).Ok?
    requires forall j :: i <= j < k ==> items[j].pg != pg
    ensures SameRows(Before(s, items, db, i), Before(s, items, db, k), pg)
    decreases k
  {
    if i < k {
      RowsStay(s, items, db, i, k - 1, pg);
      StepOf(s, items, db, k - 1);
      OneItemTouchesOneDevice(Before(s, items, db, k - 1), items[k - 1], db, pg);
    }
  }

  lemma RowsAtTheEnd(s: State, items: seq<Item>, db: Lookups, k: nat)
    requires k < |items| && DistinctDevices(items) && ConfirmAll(s, items, db).Ok?
    ensures SameRows(Before(s, items, db, k + 1), ConfirmAll(s, items, db).value.0, items[k].pg)
  {
    RowsStay(s, items, db, k + 1, |items|, items[k].pg);
    assert items[..|items|] == items;
  }

  /** The answers of the second time. */
  ghost function SecondAnswers(s: State, items: seq<Item>, db: Lookups): (r: seq<Outcome>)
    requires ConfirmAll(s, items, db).Ok?
    ensures |r| == |items|
  {
    PrefixOk(s, items, db, |items|);
    assert items[..|items|] == items;
    seq(|items|, k requires 0 <= k < |items| => Again(Before(s, items, db, k), items[k], ConfirmAll(s, items, db).value.1[k]))
  }

  lemma {:induction false} RerunPrefix(s: State, items: seq<Item>, db: Lookups, laterDb: Lookups, k: nat)
    requires k <= |items| && DistinctDevices(items) && ConfirmAll(s, items, db).Ok?
    ensures ConfirmAll(ConfirmAll(s, items, db).value.0, items[..k], laterDb)
         == Ok((ConfirmAll(s, items, db).value.0, SecondAnswers(s, items, db)[..k]))
    decreases k
  {
    hide ConfirmOne, Again, Parsed, SameRows, Before, DistinctDevices;
    if k > 0 {
      var done := ConfirmAll(s, items, db).value.0;
      RerunPrefix(s, items, db, laterDb, k - 1);
      StepOf(s, items, db, k - 1);
      RowsAtTheEnd(s, items, db, k - 1);
      SecondTimeIsQuiet(Before(s, items, db, k - 1), items[k - 1], db, done, laterDb);
      assert items[..k][..k - 1] == items[..k - 1];
      assert SecondAnswers(s, items, db)[..k] == SecondAnswers(s, items, db)[..k - 1] + [SecondAnswers(s, items, db)[k - 1]];
    }
  }

  /**
   A committed request sent again, even when rates and catalog changed meanwhile, writes no row, repeats
   every conflict and skips every other item, except where the first run had found its key used.
   */
  lemma RerunChangesNothing(s: State, rows: seq<Row>, db: Lookups, laterDb: Lookups)
    requires ConfirmBatch(s, rows, db).Ok?
    ensures var items := Parsed(rows).value; var first := ConfirmBatch(s, rows, db).value;
            ConfirmBatch(first.0, rows, laterDb) == Ok((first.0, SecondAnswers(s, items, db)))
  {
    var items := Parsed(rows).value;
    LastItemCounts(ReadRows(rows).value);
    RerunPrefix(s, items, db, laterDb, |items|);
    assert items[..|items|] == items && SecondAnswers(s, items, db)[..|items|] == SecondAnswers(s, items, db);
  }

  /** Items of other devices leave the keys of a device alone. */
  lemma {:induction false} KeysStay(s: State, items: seq<Item>, db: Lookups, k: nat, item: Item, inbound: Inbound, action: string, suffix: Q.Suffix)
    requires k <= |items| && ConfirmAll(s, items, db).Ok? && |action| == 6
    requires forall j :: 0 <= j < k ==> items[j].pg != item.pg
    ensures Q.Find(Before(s, items, db, k).stock.ledger.movements, KeyOf(item, inbound, action), suffix)
         == Q.Find(s.stock.ledger.movements, KeyOf(item, inbound, action), suffix)
    decreases k
  {
    if k > 0 {
      KeysStay(s, items, db, k - 1, item, inbound, action, suffix);
      StepOf(s, items, db, k - 1);
      OthersFindTheSame(Before(s, items, db, k - 1), items[k - 1], db, item, inbound, action, suffix);
    }
  }

  /** When an item's turn comes it finds its rows and keys as the request did. */
  lemma TurnFindsTheSame(s: State, items: seq<Item>, db: Lookups, k: nat)
    requires k < |items| && ConfirmAll(s, items, db).Ok? && DistinctDevices(items)
    ensures SameRows(s, Before(s, items, db, k), items[k].pg)
    ensures KeyIsUsed(Before(s, items, db, k), items[k]) <==> KeyIsUsed(s, items[k])
    ensures CreateKeyIsNew(Before(s, items, db, k), items[k]) <==> CreateKeyIsNew(s, items[k])
  {
    RowsStay(s, items, db, 0, k, items[k].pg);
    if items[k].pg in s.latest {
      KeysStay(s, items, db, k, items[k], s.latest[items[k].pg], "STATUS", Q.OUT);
      KeysStay(s, items, db, k, items[k], s.latest[items[k].pg], "CREATE", Q.IN);
    }
  }

  /** An item that creates a row does so under a new key. */
  predicate CreatesUnderNewKey(s: State, item: Item) {
    Creates(s, item) ==> CreateKeyIsNew(s, item)
  }

  lemma {:induction false} LedgerGoodUntil(s: State, items: seq<Item>, db: Lookups, k: nat)
    requires k <= |items| && ConfirmAll(s, items, db).Ok? && DistinctDevices(items) && R.Good(s.stock)
    requires forall i :: 0 <= i < k ==> CreatesUnderNewKey(s, items[i])
    ensures R.Good(Before(s, items, db, k).stock)
    decreases k
  {
    if k > 0 {
      LedgerGoodUntil(s, items, db, k - 1);
      LedgerTurn(s, items, db, k - 1);
      assert CreatesUnderNewKey(s, items[k - 1]);
    }
  }

  lemma LedgerTurn(s: State, items: seq<Item>, db: Lookups, k: nat)
    requires k < |items| && ConfirmAll(s, items, db).Ok? && DistinctDevices(items) && R.Good(Before(s, items, db, k).stock)
    ensures R.Good(Before(s, items, db, k + 1).stock) <==> CreatesUnderNewKey(s, items[k])
  {
    hide R.Good, ConfirmOne, ConfirmAll;
    StepOf(s, items, db, k);
    TurnFindsTheSame(s, items, db, k);
    OneItemKeepsLedgerIff(Before(s, items, db, k), items[k], db);
  }

  /**
   All along a committed batch the quantity ledger stays sound if and only if every row the batch
   creates is created under a new key. Items that create none, as in a rerun, may repeat theirs.
   */
  lemma BatchKeepsLedgerIff(s: State, items: seq<Item>, db: Lookups)
    requires ConfirmAll(s, items, db).Ok? && DistinctDevices(items) && R.Good(s.stock)
    ensures (forall k :: 0 <= k <= |items| ==> R.Good(Before(s, items, db, k).stock))
            <==> (forall k :: 0 <= k < |items| ==> CreatesUnderNewKey(s, items[k]))
  {
    if forall k :: 0 <= k < |items| ==> CreatesUnderNewKey(s, items[k]) {
      forall k | 0 <= k <= |items|
        ensures R.Good(Before(s, items, db, k).stock)
      {
        LedgerGoodUntil(s, items, db, k);
      }
    }
    if forall k :: 0 <= k <= |items| ==> R.Good(Before(s, items, db, k).stock) {
      forall k | 0 <= k < |items|
        ensures CreatesUnderNewKey(s, items[k])
      {
        assert R.Good(Before(s, items, db, k).stock) && R.Good(Before(s, items, db, k + 1).stock);
        LedgerTurn(s, items, db, k);
      }
    }
  }

  // ---- model numbers ----

  /** The number an item gave to a device that had none. */
  predicate NewlyNumbered(s: State, items: seq<Item>, answers: seq<Outcome>, k: int) {
    && 0 <= k < |items| == |answers| && items[k].pg in s.devices
    && s.devices[items[k].pg].modelSeq.None? && answers[k].modelSeq.Some?
  }

  ghost predicate Numbered(s: State) {
    M.Covered(s.devices, s.lastSeq)
  }

  /** Models never change, and a number once given stays. */
  predicate NumbersKept(a: State, b: State) {
    && a.devices.Keys == b.devices.Keys
    && forall pg :: pg in a.devices ==>
         b.devices[pg].model == a.devices[pg].model && (a.devices[pg].modelSeq.Some? ==> b.devices[pg].modelSeq == a.devices[pg].modelSeq)
  }

  /** A new number tops every number of its model. */
  predicate Tops(s: State, pg: Pg, number: nat) {
    pg in s.devices && forall p :: p in s.devices && M.InClass(s.devices[p], M.Trim(s.devices[pg].model)) ==> s.devices[p].modelSeq.value < number
  }

  /** What one item may do to the numbers. */
  ghost predicate NumberingStep(s: State, next: State, item: Item, answer: Outcome) {
    && Numbered(next) && NumbersKept(s, next)
    && (answer.modelSeq.Some? ==> item.pg in s.devices && next.devices[item.pg].modelSeq == answer.modelSeq)
    && (answer.modelSeq.Some? && s.devices[item.pg].modelSeq.None? ==> Tops(s, item.pg, answer.modelSeq.value))
    && M.NotLower(s.lastSeq, next.lastSeq)
    && (answer.modelSeq.Some? && s.devices[item.pg].modelSeq.None? ==> RowRaised(s, next, item.pg, answer.modelSeq.value))
  }

  /** The new number is above what the row of the model said, and the row says it then. */
  predicate RowRaised(s: State, next: State, pg: Pg, number: nat)
    requires pg in s.devices
  {
    var key := M.Trim(s.devices[pg].model);
    key in next.lastSeq && next.lastSeq[key] == number && (key in s.lastSeq ==> s.lastSeq[key] < number)
  }

  lemma WithNumberSteps(s: State, item: Item, mode: Mode, reason: Reason, price: Option<nat>)
    requires Numbered(s) && item.pg in s.devices && WithNumber(s, item, mode, reason, price).Ok?
    ensures var (next, answer) := WithNumber(s, item, mode, reason, price).value; NumberingStep(s, next, item, answer)
  {
    M.AssignKeepsCovered(s.devices, s.lastSeq, item.pg);
    if s.devices[item.pg].modelSeq.None? {
      M.CoveredNumberIsHighest(s.devices, s.lastSeq, item.pg);
      M.AssignRaisesRow(s.devices, s.lastSeq, item.pg);
    }
  }

  lemma InspectedSteps(s: State, item: Item, db: Lookups)
    requires Numbered(s) && item.pg in s.devices && item.pg in s.latest && ConfirmInspected(s, item, db).Ok?
    ensures var (next, answer) := ConfirmInspected(s, item, db).value; NumberingStep(s, next, item, answer)
  {
    var inbound := s.latest[item.pg];
    var sold := s.(latest := s.latest[item.pg := Bought(inbound, item, EvidenceOf(item, db).value)], stock := SetSellable(s.stock, item, inbound, db).value);
    WithNumberSteps(sold, item, Confirmed, PurchaseConfirmed, Some(item.price));
  }

  lemma PurchasedSteps(s: State, item: Item, db: Lookups)
    requires Numbered(s) && item.pg in s.devices && item.pg in s.latest && ConfirmPurchased(s, item, db).Ok?
    ensures var (next, answer) := ConfirmPurchased(s, item, db).value; NumberingStep(s, next, item, answer)
  {
    var inbound := s.latest[item.pg];
    if inbound.price == Some(item.price) {
      if item.pg !in s.stock.inventory {
        var created := Q.Create(s.stock, item.pg, SELLABLE, ContextOf(item, inbound, "CREATE"), db.catalog(item.pg));
        WithNumberSteps(s.(stock := created.value), item, Recovered, InventoryRecovered, inbound.price);
      } else if s.stock.inventory[item.pg] == SELLABLE && s.devices[item.pg].modelSeq.None? {
        WithNumberSteps(s, item, Recovered, ModelSequenceRecovered, inbound.price);
      }
    }
  }

  lemma NumberingOne(s: State, item: Item, db: Lookups)
    requires Numbered(s) && ConfirmOne(s, item, db).Ok?
    ensures var (next, answer) := ConfirmOne(s, item, db).value; NumberingStep(s, next, item, answer)
  {
    hide WithNumber, ConfirmInspected, ConfirmPurchased;
    if item.pg in s.devices && item.pg in s.latest {
      if ConfirmInspected(s, item, db).Ok? {
        InspectedSteps(s, item, db);
      }
      if ConfirmPurchased(s, item, db).Ok? {
        PurchasedSteps(s, item, db);
      }
    }
  }

  lemma {:induction false} NumberingKept(s: State, items: seq<Item>, db: Lookups, i: nat, k: nat)
    requires i <= k <= |items| && Numbered(s) && ConfirmAll(s, items, db).Ok?
    ensures Numbered(Before(s, items, db, i)) && Numbered(Before(s, items, db, k))
    ensures NumbersKept(Before(s, items, db, i), Before(s, items, db, k))
    decreases k
  {
    hide ConfirmOne, Numbered;
    if i < k {
      NumberingKept(s, items, db, i, k - 1);
      StepOf(s, items, db, k - 1);
      NumberingOne(Before(s, items, db, k - 1), items[k - 1], db);
    } else if k > 0 {
      NumberingKept(s, items, db, k - 1, k - 1);
      StepOf(s, items, db, k - 1);
      NumberingOne(Before(s, items, db, k - 1), items[k - 1], db);
    }
  }

  /** At its turn a device of the batch has the number it had at the start. */
  lemma NumberAtTurn(s: State, items: seq<Item>, db: Lookups, k: nat)
    requires k < |items| && Numbered(s) && DistinctDevices(items) && ConfirmAll(s, items, db).Ok?
    requires NewlyNumbered(s, items, ConfirmAll(s, items, db).value.1, k)
    ensures Tops(Before(s, items, db, k), items[k].pg, ConfirmAll(s, items, db).value.1[k].modelSeq.value)
    ensures items[k].pg in Before(s, items, db, k + 1).devices
    ensures Before(s, items, db, k + 1).devices[items[k].pg].modelSeq == ConfirmAll(s, items, db).value.1[k].modelSeq
  {
    StepOf(s, items, db, k);
    TurnFindsTheSame(s, items, db, k);
    NumberingKept(s, items, db, 0, k);
    NumberingOne(Before(s, items, db, k), items[k], db);
  }

  predicate SameModel(s: State, a: Pg, b: Pg) {
    a in s.devices && b in s.devices && M.Trim(s.devices[a].model) == M.Trim(s.devices[b].model)
  }

  /**
   Within a batch the new numbers of one model strictly increase, and each is higher than every
   number the model had before the batch.
   */
  lemma NumbersRise(s: State, items: seq<Item>, db: Lookups)
    requires Numbered(s) && DistinctDevices(items) && ConfirmAll(s, items, db).Ok?
    ensures var answers := ConfirmAll(s, items, db).value.1;
            && (forall k :: NewlyNumbered(s, items, answers, k) ==> Tops(s, items[k].pg, answers[k].modelSeq.value))
            && (forall i, k :: i < k && NewlyNumbered(s, items, answers, i) && NewlyNumbered(s, items, answers, k) && SameModel(s, items[i].pg, items[k].pg)
                  ==> answers[i].modelSeq.value < answers[k].modelSeq.value)
    ensures Numbered(ConfirmAll(s, items, db).value.0)
  {
    var answers := ConfirmAll(s, items, db).value.1;
    NumberingKept(s, items, db, 0, |items|);
    assert items[..|items|] == items;
    forall k | NewlyNumbered(s, items, answers, k)
      ensures Tops(s, items[k].pg, answers[k].modelSeq.value)
    {
      NumberAtTurn(s, items, db, k);
      NumberingKept(s, items, db, 0, k);
      TopsEarlier(s, Before(s, items, db, k), items[k].pg, answers[k].modelSeq.value);
    }
    forall i, k | i < k && NewlyNumbered(s, items, answers, i) && NewlyNumbered(s, items, answers, k) && SameModel(s, items[i].pg, items[k].pg)
      ensures answers[i].modelSeq.value < answers[k].modelSeq.value
    {
      NumberAtTurn(s, items, db, i);
      NumberAtTurn(s, items, db, k);
      NumberingKept(s, items, db, i + 1, k);
      NumberingKept(s, items, db, 0, k);
      assert M.InClass(Before(s, items, db, k).devices[items[i].pg], M.Trim(s.devices[items[k].pg].model));
    }
  }

  lemma TopsEarlier(a: State, b: State, pg: Pg, number: nat)
    requires NumbersKept(a, b) && Tops(b, pg, number)
    ensures Tops(a, pg, number)
  {
    forall p | p in a.devices && M.InClass(a.devices[p], M.Trim(a.devices[pg].model))
      ensures a.devices[p].modelSeq.value < number
    {
      assert M.InClass(b.devices[p], M.Trim(b.devices[pg].model));
    }
  }
}
