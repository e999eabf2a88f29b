/** What holds of purchases in every run, among all the writes around them. */
module PurchaseResults {
  import opened Common
  import M = ModelSequence
  import Q = QuantityLedger
  import R = LedgerRuns
  import opened PurchaseItems
  import opened Purchase
  import opened PurchaseKeys
  import opened PurchaseRuns
  import opened PurchaseWorld
  import opened PurchaseKept

  // ---- sent again ----

  /** The answer of the second time: a conflict again, everything else skipped. */
  function OnceMore(first: Outcome): Outcome {
    if first.mode == Conflict then first else Outcome(Skipped, AlreadyConfirmed, first.pg, first.price, first.modelSeq)
  }

  lemma ConfirmedWasInspected(s: State, item: Item, db: Lookups)
    requires ConfirmOne(s, item, db).Ok?
    ensures ConfirmOne(s, item, db).value.1.pg == item.pg
    ensures ConfirmOne(s, item, db).value.1.mode == Confirmed ==> item.pg in s.latest && s.latest[item.pg].status == Inspected
  {
    hide SetSellable, M.Assign;
  }

  lemma SecondAnswerIs(s: State, items: seq<Item>, db: Lookups, k: nat, nextId: nat)
    requires k < |items| && ConfirmAll(s, items, db).Ok? && DistinctDevices(items) && RecordsOk(s, nextId)
    ensures |ConfirmAll(s, items, db).value.1| == |items|
    ensures SecondAnswers(s, items, db)[k] == OnceMore(ConfirmAll(s, items, db).value.1[k])
  {
    StepOf(s, items, db, k);
    TurnFindsTheSame(s, items, db, k);
    ConfirmedWasInspected(Before(s, items, db, k), items[k], db);
    hide ConfirmOne, ConfirmAll;
    if items[k].pg in s.latest {
      assert StatusOk(s, nextId, s.latest[items[k].pg].id, items[k].pg);
    }
  }

  /**
   After any run, a request that was committed can be sent again: no device, inbound, inventory,
   ledger or sequence row changes, every conflict comes again, and every other item is skipped,
   with the price and the number of the first time.
   */
  lemma {:induction false} RerunSkipsWhatWasHandled(actions: seq<Action>, rows: seq<Row>, db: Lookups, laterDb: Lookups)
    requires ConfirmBatch(Run(actions).state, rows, db).Ok?
    ensures var first := ConfirmBatch(Run(actions).state, rows, db).value;
            && ConfirmBatch(first.0, rows, laterDb).Ok?
            && var second := ConfirmBatch(first.0, rows, laterDb).value;
               && second.0 == first.0 && |second.1| == |first.1|
               && forall k :: 0 <= k < |first.1| ==> second.1[k] == OnceMore(first.1[k])
  {
    var s, items := Run(actions).state, Parsed(rows).value;
    RunKeeps(actions);
    RerunChangesNothing(s, rows, db, laterDb);
    LastItemCounts(ReadRows(rows).value);
    hide RecordsOk, ConfirmAll, Run, DistinctDevices;
    forall k | 0 <= k < |items|
      ensures |ConfirmAll(s, items, db).value.1| == |items| && SecondAnswers(s, items, db)[k] == OnceMore(ConfirmAll(s, items, db).value.1[k])
    {
      SecondAnswerIs(s, items, db, k, Run(actions).nextId);
    }
  }

  // ---- the ledger ----

  /** The quantity ledger is sound after every run, and after every batch committed then, under whatever keys. */
  lemma {:induction false} LedgerStaysSound(actions: seq<Action>, rows: seq<Row>, db: Lookups)
    ensures R.Good(Run(actions).state.stock)
    ensures ConfirmBatch(Run(actions).state, rows, db).Ok? ==> R.Good(ConfirmBatch(Run(actions).state, rows, db).value.0.stock)
  {
    hide R.Good, ConfirmAll, Run, RecordsOk, DevicesOk;
    RunKeeps(actions);
    if ConfirmBatch(Run(actions).state, rows, db).Ok? {
      ItemsKeep(Run(actions).state, Parsed(rows).value, db, Run(actions).nextId);
    }
  }

  // ---- model numbers ----

  /** An item never fails for its number. */
  lemma ItemIsNumbered(s: State, item: Item, db: Lookups)
    requires DevicesOk(s.devices) && ConfirmOne(s, item, db).Err?
    ensures !ConfirmOne(s, item, db).error.Sequence?
  {
    if item.pg in s.devices {
      assert M.PlainModel(s.devices[item.pg]);
      M.PlainIsNumbered(s.devices, s.lastSeq, item.pg);
    }
    hide M.Assign, SetSellable, Q.Create;
  }

  lemma {:induction false} ItemsAreNumbered(s: State, items: seq<Item>, db: Lookups, nextId: nat)
    requires StateOk(s, nextId) && ConfirmAll(s, items, db).Err?
    ensures !ConfirmAll(s, items, db).error.Sequence?
  {
    hide ConfirmOne, RecordsOk, DevicesOk, StockOk;
    if items != [] {
      var n := |items| - 1;
      if ConfirmAll(s, items[..n], db).Err? {
        ItemsAreNumbered(s, items[..n], db, nextId);
      } else {
        ItemsKeep(s, items[..n], db, nextId);
        ItemIsNumbered(ConfirmAll(s, items[..n], db).value.0, items[n], db);
      }
    }
  }

  /** After any run, no request fails for a model number: there is always one to give, and the unique index never refuses it. */
  lemma {:induction false} NumbersAreNeverRefused(actions: seq<Action>, rows: seq<Row>, db: Lookups)
    ensures var tx := ConfirmBatch(Run(actions).state, rows, db); tx.Err? ==> !tx.error.Sequence?
  {
    hide ConfirmAll, Run, StateOk;
    RunKeeps(actions);
    var tx := ConfirmBatch(Run(actions).state, rows, db);
    if Parsed(rows).Ok? && ConfirmAll(Run(actions).state, Parsed(rows).value, db).Err? {
      ItemsAreNumbered(Run(actions).state, Parsed(rows).value, db, Run(actions).nextId);
    }
  }

  lemma {:induction false} ReachedIsNumbered(actions: seq<Action>)
    ensures Numbered(Run(actions).state)
  {
    RunKeeps(actions);
    hide Run, RecordsOk, StockOk, Numbered;
    PlainIsNumberedState(Run(actions).state);
  }

  /**
   After any run, the new numbers a committed request gives to devices of one model strictly increase,
   and each is higher than every number the model has.
   */
  lemma {:induction false} NumbersRiseInEveryRun(actions: seq<Action>, rows: seq<Row>, db: Lookups)
    requires ConfirmBatch(Run(actions).state, rows, db).Ok?
    ensures var s, items := Run(actions).state, Parsed(rows).value;
            var answers := ConfirmBatch(s, rows, db).value.1;
            && (forall k :: NewlyNumbered(s, items, answers, k) ==> Tops(s, items[k].pg, answers[k].modelSeq.value))
            && (forall i, k :: i < k && NewlyNumbered(s, items, answers, i) && NewlyNumbered(s, items, answers, k) && SameModel(s, items[i].pg, items[k].pg)
                  ==> answers[i].modelSeq.value < answers[k].modelSeq.value)
  {
    ReachedIsNumbered(actions);
    LastItemCounts(ReadRows(rows).value);
    hide Run, ConfirmAll, DistinctDevices, Numbered;
    NumbersRise(Run(actions).state, Parsed(rows).value, db);
  }

  // ---- numbers given earlier ----

  lemma NotLowerTwice(a: map<string, nat>, b: map<string, nat>, c: map<string, nat>)
    requires M.NotLower(a, b) && M.NotLower(b, c)
    ensures M.NotLower(a, c)
  {
  }

  lemma TurnKeepsRows(s: State, items: seq<Item>, db: Lookups, k: nat)
    requires k < |items| && Numbered(s) && ConfirmAll(s, items, db).Ok?
    ensures M.NotLower(Before(s, items, db, k).lastSeq, Before(s, items, db, k + 1).lastSeq)
  {
    hide ConfirmOne, ConfirmAll, Before, Numbered, M.NotLower, NumbersKept, Tops, RowRaised;
    StepOf(s, items, db, k);
    NumberingKept(s, items, db, 0, k);
    NumberingOne(Before(s, items, db, k), items[k], db);
  }

  lemma {:induction false} RowsKept(s: State, items: seq<Item>, db: Lookups, i: nat, k: nat)
    requires i <= k <= |items| && Numbered(s) && ConfirmAll(s, items, db).Ok?
    ensures M.NotLower(Before(s, items, db, i).lastSeq, Before(s, items, db, k).lastSeq)
    decreases k
  {
    hide ConfirmAll, Before, Numbered;
    if i < k {
      RowsKept(s, items, db, i, k - 1);
      TurnKeepsRows(s, items, db, k - 1);
      NotLowerTwice(Before(s, items, db, i).lastSeq, Before(s, items, db, k - 1).lastSeq, Before(s, items, db, k).lastSeq);
    }
  }

  lemma TurnRaises(s: State, items: seq<Item>, db: Lookups, k: nat)
    requires k < |items| && Numbered(s) && DistinctDevices(items) && ConfirmAll(s, items, db).Ok?
    requires NewlyNumbered(s, items, ConfirmAll(s, items, db).value.1, k)
    ensures var before := Before(s, items, db, k);
            && items[k].pg in before.devices && before.devices[items[k].pg] == s.devices[items[k].pg]
            && RowRaised(before, Before(s, items, db, k + 1), items[k].pg, ConfirmAll(s, items, db).value.1[k].modelSeq.value)
  {
    hide ConfirmOne, ConfirmAll, Before, Numbered, DistinctDevices, M.NotLower, NumbersKept, Tops, RowRaised, KeyIsUsed, CreateKeyIsNew;
    StepOf(s, items, db, k);
    TurnFindsTheSame(s, items, db, k);
    NumberingKept(s, items, db, 0, k);
    NumberingOne(Before(s, items, db, k), items[k], db);
  }

  lemma EndsOf(s: State, items: seq<Item>, db: Lookups)
    requires ConfirmAll(s, items, db).Ok?
    ensures Before(s, items, db, 0) == s && Before(s, items, db, |items|) == ConfirmAll(s, items, db).value.0
  {
    hide ConfirmOne;
    assert items[..|items|] == items && items[..0] == [];
  }

  /** A new number is above the row of its model before the batch, and not above it after. */
  lemma NumberAndRow(s: State, items: seq<Item>, db: Lookups, k: nat)
    requires k < |items| && Numbered(s) && DistinctDevices(items) && ConfirmAll(s, items, db).Ok?
    requires NewlyNumbered(s, items, ConfirmAll(s, items, db).value.1, k)
    ensures var (after, answers) := ConfirmAll(s, items, db).value; var key := M.Trim(s.devices[items[k].pg].model);
            && key in after.lastSeq && answers[k].modelSeq.value <= after.lastSeq[key]
            && (key in s.lastSeq ==> s.lastSeq[key] < answers[k].modelSeq.value)
  {
    hide ConfirmOne, ConfirmAll, Before, Numbered, DistinctDevices, M.Trim;
    TurnRaises(s, items, db, k);
    EndsOf(s, items, db);
    RowsKept(s, items, db, 0, k);
    RowsKept(s, items, db, k + 1, |items|);
  }

  lemma StepRaisesRows(w: World, a: Action)
    requires DevicesOk(w.state.devices)
    ensures M.NotLower(w.state.lastSeq, Step(w, a).state.lastSeq)
  {
    if a.Request? {
      if ConfirmBatch(w.state, a.rows, a.db).Ok? {
        var items := Parsed(a.rows).value;
        PlainIsNumberedState(w.state);
        RowsKept(w.state, items, a.db, 0, |items|);
        assert items[..|items|] == items && items[..0] == [];
      }
    } else {
      hide M.Trim, Q.Create, Q.Remove, R.Step;
    }
  }

  lemma {:induction false} RunRaisesRows(actions: seq<Action>, more: seq<Action>)
    ensures M.NotLower(Run(actions).state.lastSeq, Run(actions + more).state.lastSeq)
    decreases |more|
  {
    if more == [] {
      assert actions + more == actions;
    } else {
      var all := actions + more;
      assert all[..|all| - 1] == actions + more[..|more| - 1];
      RunRaisesRows(actions, more[..|more| - 1]);
      RunKeeps(all[..|all| - 1]);
      StepRaisesRows(Run(all[..|all| - 1]), all[|all| - 1]);
      hide Step, RecordsOk, StockOk, DevicesOk;
      NotLowerTwice(Run(actions).state.lastSeq, Run(all[..|all| - 1]).state.lastSeq, Run(all).state.lastSeq);
    }
  }

  /** The state after a request, whatever came before. */
  lemma RunRequest(actions: seq<Action>, rows: seq<Row>, db: Lookups)
    requires ConfirmBatch(Run(actions).state, rows, db).Ok?
    ensures Run(actions + [Request(rows, db)]).state == ConfirmBatch(Run(actions).state, rows, db).value.0
  {
    assert (actions + [Request(rows, db)])[..|actions|] == actions;
  }

  /**
   Over whole runs: whatever happened in between, a number given to a device of a model is higher than
   every number that an earlier request gave to a device of that model, even one that was deleted,
   renamed or renumbered since.
   */
  lemma {:induction false} NumbersAreNeverGivenTwice(actions: seq<Action>, rows: seq<Row>, db: Lookups, i: nat,
                                                     more: seq<Action>, laterRows: seq<Row>, laterDb: Lookups, k: nat)
    requires ConfirmBatch(Run(actions).state, rows, db).Ok?
    requires ConfirmBatch(Run(actions + [Request(rows, db)] + more).state, laterRows, laterDb).Ok?
    requires NewlyNumbered(Run(actions).state, Parsed(rows).value, ConfirmBatch(Run(actions).state, rows, db).value.1, i)
    requires var later := Run(actions + [Request(rows, db)] + more).state;
             && NewlyNumbered(later, Parsed(laterRows).value, ConfirmBatch(later, laterRows, laterDb).value.1, k)
             && M.Trim(later.devices[Parsed(laterRows).value[k].pg].model) == M.Trim(Run(actions).state.devices[Parsed(rows).value[i].pg].model)
    ensures ConfirmBatch(Run(actions).state, rows, db).value.1[i].modelSeq.value
            < ConfirmBatch(Run(actions + [Request(rows, db)] + more).state, laterRows, laterDb).value.1[k].modelSeq.value
  {
    hide Run, ConfirmAll, Numbered, DistinctDevices, M.Trim;
    var s, later := Run(actions).state, Run(actions + [Request(rows, db)] + more).state;
    ReachedIsNumbered(actions);
    ReachedIsNumbered(actions + [Request(rows, db)] + more);
    LastItemCounts(ReadRows(rows).value);
    LastItemCounts(ReadRows(laterRows).value);
    NumberAndRow(s, Parsed(rows).value, db, i);
    NumberAndRow(later, Parsed(laterRows).value, laterDb, k);
    RunRequest(actions, rows, db);
    RunRaisesRows(actions + [Request(rows, db)], more);
  }

  /** In every run models are stored named and without outer blanks, and no two devices of one model share a number. */
  lemma {:induction false} DevicesDiffer(actions: seq<Action>, p: Pg, q: Pg)
    requires p in Run(actions).state.devices && q in Run(actions).state.devices && p != q
    ensures var d, e := Run(actions).state.devices[p], Run(actions).state.devices[q];
            && d.model != "" && M.Trim(d.model) == d.model
            && (d.model == e.model && d.modelSeq.Some? ==> e.modelSeq != d.modelSeq)
  {
    RunKeeps(actions);
    hide Run, RecordsOk, StockOk;
    var devices := Run(actions).state.devices;
    assert M.PlainModel(devices[p]) && NumbersDiffer(devices[p], devices[q]);
  }
}
