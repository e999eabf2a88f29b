/**
 What the ledger's operations answer: in a sound ledger a balance never stands in the way, so each
 succeeds exactly when rows, statuses, policy and SKU allow it; and a key stands for one movement for good.
 */
module LedgerAnswers {
  import opened Common
  import opened QuantityLedger
  import opened LedgerRuns

  /** All the texts a movement must have. */
  predicate Named(c: Context) {
    c.operationKey != "" && c.sourceType != ""
  }

  predicate Unused(s: Stock, c: Context) {
    forall m :: m in s.ledger.movements ==> m.operationKey != c.operationKey
  }

  lemma UnusedIsNotFound(s: Stock, c: Context, suffix: Suffix)
    requires Unused(s, c)
    ensures Find(s.ledger.movements, c.operationKey, suffix).None?
  {
  }

  /** A row that is counted has a balance to be taken from. */
  lemma CountedHasBalance(s: Stock, pg: Pg)
    requires Good(s) && pg in s.inventory
    ensures pg in s.devices && s.devices[pg].Some?
    ensures var key := Key(s.devices[pg].value, s.inventory[pg]); key in s.ledger.balances && Balance(s.ledger, key) >= 1 && Known(key.status)
  {
    var key := Key(s.devices[pg].value, s.inventory[pg]);
    assert pg in RowsAt(s, key);
    assert Balance(s.ledger, key) == |RowsAt(s, key)|;
  }

  /** The two postings of a move out of one balance into another are accepted under an unused key. */
  lemma PairAccepted(s: Stock, pg: Pg, out: Key, into: Key, c: Context, t: MovementType, outSuffix: Suffix, inSuffix: Suffix)
    requires Named(c) && Unused(s, c) && outSuffix != inSuffix && out != into
    requires out in s.ledger.balances && s.ledger.balances[out] >= 1 && out.status != "" && into.status != ""
    ensures var l1 := ApplyDelta(s.ledger, out, c, t, Some(pg), -1, outSuffix);
            && l1.Ok?
            && var l2 := ApplyDelta(l1.value, into, c, t, Some(pg), 1, inSuffix);
               && l2.Ok?
               && l2.value.balances == s.ledger.balances[out := Balance(s.ledger, out) - 1][into := Balance(s.ledger, into) + 1]
               && |l2.value.movements| == |s.ledger.movements| + 2 && s.ledger.movements <= l2.value.movements
  {
    UnusedIsNotFound(s, c, outSuffix);
    UnusedIsNotFound(s, c, inSuffix);
    var mid := Posted(s.ledger, out, c, t, Some(pg), -1, outSuffix);
    FindAppend(s.ledger.movements, mid.movements[|s.ledger.movements|], c.operationKey, inSuffix);
  }

  /** The row stands here now, and of the balances one moved with it. */
  predicate MovedTo(s: Stock, next: Stock, pg: Pg, sku: Sku, status: Status)
    requires pg in s.inventory && pg in s.devices && s.devices[pg].Some?
  {
    var out, into := Key(s.devices[pg].value, s.inventory[pg]), Key(sku, status);
    && Balance(s.ledger, out) >= 1
    && next.devices == s.devices[pg := Some(sku)] && next.inventory == s.inventory[pg := status]
    && next.ledger.balances == s.ledger.balances[out := Balance(s.ledger, out) - 1][into := Balance(s.ledger, into) + 1]
    && |next.ledger.movements| == |s.ledger.movements| + 2 && s.ledger.movements <= next.ledger.movements
  }

  lemma KnownIsNamed(status: Status)
    requires Known(status)
    ensures status != ""
  {
  }

  /**
   In a sound ledger a transition under an unused key moves the row, with its balances, exactly when it
   may: the row is there, both statuses are known, it has the status the caller expects, the policy allows
   the move and the device is described completely. To where it already stands it moves nothing.
   */
  lemma TransitionAnswers(s: Stock, pg: Pg, target: Status, expectedFrom: Option<Status>, policy: (Status, Status) -> bool, c: Context, catalog: Catalog)
    requires Good(s) && Named(c) && Unused(s, c) && pg != "" && target != ""
    ensures pg in s.inventory ==> pg in s.devices && s.devices[pg].Some?
    ensures var tx := Transition(s, pg, target, expectedFrom, policy, c, catalog);
            if pg !in s.inventory then tx == Err(NotFound)
            else if !Known(target) then tx == Err(UnknownStatus)
            else if expectedFrom.Some? && expectedFrom.value != s.inventory[pg] then tx == Err(StateConflict)
            else if target == s.inventory[pg] then tx == Ok(s)
            else if !policy(s.inventory[pg], target) then tx == Err(StateConflict)
            else if !catalog.complete then tx == Err(SkuIncomplete)
            else tx.Ok? && MovedTo(s, tx.value, pg, s.devices[pg].value, target)
  {
    UnusedIsNotFound(s, c, OUT);
    UnusedIsNotFound(s, c, IN);
    if pg in s.inventory {
      CountedHasBalance(s, pg);
      var out, into := Key(s.devices[pg].value, s.inventory[pg]), Key(s.devices[pg].value, target);
      if out != into && Known(target) {
        KnownIsNamed(out.status);
        PairAccepted(s, pg, out, into, c, StatusTransfer, OUT, IN);
      }
      hide Good, Unused, ApplyDelta, Find, Known;
    }
  }

  /** A creation puts the row in and adds one to the balance of its SKU and status, exactly when the device is there, has no row and leads to a SKU. */
  lemma CreateAnswers(s: Stock, pg: Pg, status: Status, c: Context, catalog: Catalog)
    requires Good(s) && Named(c) && Unused(s, c)
    ensures var tx := Create(s, pg, status, c, catalog);
            if pg !in s.devices then tx == Err(NotFound)
            else if pg in s.inventory then tx == Err(AlreadyExists)
            else if !Known(status) then tx == Err(UnknownStatus)
            else if !catalog.complete then tx == Err(SkuIncomplete)
            else if s.devices[pg].None? && catalog.resolved.None? then tx == Err(StateConflict)
            else
              var sku := if s.devices[pg].Some? then s.devices[pg].value else catalog.resolved.value;
              && tx.Ok? && tx.value.devices == s.devices[pg := Some(sku)] && tx.value.inventory == s.inventory[pg := status]
              && tx.value.ledger.balances == s.ledger.balances[Key(sku, status) := Balance(s.ledger, Key(sku, status)) + 1]
              && |tx.value.ledger.movements| == |s.ledger.movements| + 1 && s.ledger.movements <= tx.value.ledger.movements
  {
    UnusedIsNotFound(s, c, IN);
    if Known(status) {
      KnownIsNamed(status);
    }
    hide Good, Known;
  }

  /** A removal takes device and row out, and one from the balance; a device without a row just goes. */
  lemma RemoveAnswers(s: Stock, pg: Pg, c: Context)
    requires Good(s) && Named(c) && Unused(s, c)
    ensures pg in s.inventory ==> pg in s.devices && s.devices[pg].Some?
    ensures var tx := Remove(s, pg, c);
            if pg !in s.devices then tx == Err(NotFound)
            else if pg !in s.inventory then tx == Ok(s.(devices := s.devices - {pg}))
            else
              var key := Key(s.devices[pg].value, s.inventory[pg]);
              && tx.Ok? && tx.value.devices == s.devices - {pg} && tx.value.inventory == s.inventory - {pg}
              && tx.value.ledger.balances == s.ledger.balances[key := Balance(s.ledger, key) - 1]
              && |tx.value.ledger.movements| == |s.ledger.movements| + 1 && s.ledger.movements <= tx.value.ledger.movements
  {
    UnusedIsNotFound(s, c, OUT);
    if pg in s.inventory {
      CountedHasBalance(s, pg);
      KnownIsNamed(s.inventory[pg]);
    }
    hide Good, Known;
  }

  /** The SKU a device's description leads to: the linked one, unless the description changed. */
  function LeadsTo(s: Stock, pg: Pg, catalog: Catalog, mustResolve: bool): Option<Sku>
    requires pg in s.devices
  {
    if s.devices[pg].Some? && !mustResolve then s.devices[pg] else catalog.resolved
  }

  lemma AssignedIs(s: Stock, pg: Pg, catalog: Catalog, mustResolve: bool)
    requires pg in s.devices
    ensures var sku := LeadsTo(s, pg, catalog, mustResolve);
            AssignSku(s, pg, catalog, mustResolve) ==
              if !catalog.complete then Err(SkuIncomplete)
              else if sku.None? then Err(StateConflict)
              else if pg !in s.inventory && s.devices[pg].Some? && !mustResolve && !catalog.linkedActive then Err(StateConflict)
              else Ok(sku.value)
  {
  }

  /**
   A new description moves a stocked device to its new SKU, with its balances, exactly when its status may
   be edited; a device without a row just gets the SKU, unless its linked one is out of use, and the same SKU moves nothing.
   */
  lemma ReclassifyAnswers(s: Stock, pg: Pg, c: Context, catalog: Catalog, mustResolve: bool)
    requires Good(s) && Named(c) && Unused(s, c) && pg in s.devices
    ensures pg in s.inventory ==> s.devices[pg].Some?
    ensures var tx := Reclassify(s, pg, c, catalog, mustResolve); var sku := LeadsTo(s, pg, catalog, mustResolve);
            if !catalog.complete then tx == Err(SkuIncomplete)
            else if sku.None? then tx == Err(StateConflict)
            else if pg !in s.inventory && s.devices[pg].Some? && !mustResolve && !catalog.linkedActive then tx == Err(StateConflict)
            else if pg !in s.inventory || sku == s.devices[pg] then tx == Ok(s.(devices := s.devices[pg := sku]))
            else if s.inventory[pg] !in {"HOLD", "DEFECTIVE", "RETURN_CHECK"} then tx == Err(EditNotAllowed)
            else tx.Ok? && MovedTo(s, tx.value, pg, sku.value, s.inventory[pg])
  {
    AssignedIs(s, pg, catalog, mustResolve);
    hide AssignSku;
    if pg in s.inventory {
      CountedHasBalance(s, pg);
      KnownIsNamed(s.inventory[pg]);
      var sku := LeadsTo(s, pg, catalog, mustResolve);
      if sku.Some? && sku != s.devices[pg] {
        PairAccepted(s, pg, Key(s.devices[pg].value, s.inventory[pg]), Key(sku.value, s.inventory[pg]), c, SkuReclassification, OldSkuOut, NewSkuIn);
      }
      hide Good, Unused, ApplyDelta, Find, Known;
    }
  }

  // ---- a key stands for one movement for good ----

  /** No two movements share operation key and suffix. */
  ghost predicate KeysDiffer(ms: seq<Movement>) {
    forall i, j :: 0 <= i < j < |ms| ==> !(ms[i].operationKey == ms[j].operationKey && ms[i].suffix == ms[j].suffix)
  }

  /** Movements are only added, and under keys of their own. */
  ghost predicate Appends(a: Ledger, b: Ledger) {
    a.movements <= b.movements && (KeysDiffer(a.movements) ==> KeysDiffer(b.movements))
  }

  lemma DeltaAppends(l: Ledger, key: Key, c: Context, t: MovementType, pg: Option<Pg>, delta: int, suffix: Suffix)
    requires ApplyDelta(l, key, c, t, pg, delta, suffix).Ok?
    ensures Appends(l, ApplyDelta(l, key, c, t, pg, delta, suffix).value)
  {
    if Find(l.movements, c.operationKey, suffix).None? {
      assert forall i :: 0 <= i < |l.movements| ==> l.movements[i] in l.movements;
    }
  }

  lemma PairAppends(l: Ledger, out: Key, into: Key, c: Context, t: MovementType, pg: Option<Pg>, outSuffix: Suffix, inSuffix: Suffix)
    requires ApplyDelta(l, out, c, t, pg, -1, outSuffix).Ok?
    requires ApplyDelta(ApplyDelta(l, out, c, t, pg, -1, outSuffix).value, into, c, t, pg, 1, inSuffix).Ok?
    ensures Appends(l, ApplyDelta(ApplyDelta(l, out, c, t, pg, -1, outSuffix).value, into, c, t, pg, 1, inSuffix).value)
  {
    DeltaAppends(l, out, c, t, pg, -1, outSuffix);
    DeltaAppends(ApplyDelta(l, out, c, t, pg, -1, outSuffix).value, into, c, t, pg, 1, inSuffix);
  }

  lemma StepAppends(s: Stock, a: Action)
    ensures Appends(s.ledger, Step(s, a).ledger)
  {
    hide Appends, ApplyDelta, Find, KeysDiffer;
    SameAppends(s.ledger);
    if LedgerRuns.Result(s, a).Ok? && Step(s, a).ledger != s.ledger {
      match a
      case Receive(_) =>
      case DoCreate(pg, status, c, catalog) =>
        DeltaAppends(s.ledger, Key(Step(s, a).devices[pg].value, status), c, InventoryCreated, Some(pg), 1, IN);
      case DoRemove(pg, c) => DeltaAppends(s.ledger, Key(s.devices[pg].value, s.inventory[pg]), c, InventoryRemoved, Some(pg), -1, OUT);
      case DoTransition(pg, target, _, _, c, _) =>
        var sku := Step(s, a).devices[pg].value;
        PairAppends(s.ledger, Key(sku, s.inventory[pg]), Key(sku, target), c, StatusTransfer, Some(pg), OUT, IN);
      case DoReclassify(pg, c, _, _) =>
        var sku := Step(s, a).devices[pg].value;
        if s.devices[pg].None? {
          DeltaAppends(s.ledger, Key(sku, s.inventory[pg]), c, SkuReclassification, Some(pg), 1, NewSkuIn);
        } else {
          PairAppends(s.ledger, Key(s.devices[pg].value, s.inventory[pg]), Key(sku, s.inventory[pg]), c, SkuReclassification, Some(pg), OldSkuOut, NewSkuIn);
        }
    }
  }

  lemma SameAppends(l: Ledger)
    ensures Appends(l, l)
  {
  }

  /** In every run movements are only added, none is changed, and no two have the same operation key and suffix. */
  lemma {:induction false} MovementsAreForGood(actions: seq<Action>, more: seq<Action>)
    ensures Run(actions).ledger.movements <= Run(actions + more).ledger.movements && KeysDiffer(Run(actions + more).ledger.movements)
    decreases |actions + more|
  {
    hide Step;
    if more != [] {
      var n := |more| - 1;
      var all := actions + more;
      assert all[..|all| - 1] == actions + more[..n] && all[|all| - 1] == more[n];
      MovementsAreForGood(actions, more[..n]);
      StepAppends(Run(actions + more[..n]), more[n]);
    } else if actions != [] {
      var n := |actions| - 1;
      assert actions + more == actions && actions[..n] + [] == actions[..n];
      MovementsAreForGood(actions[..n], []);
      StepAppends(Run(actions[..n]), actions[n]);
    } else {
      assert actions + more == [];
    }
  }

  lemma {:induction false} FoundStays(a: seq<Movement>, b: seq<Movement>, operationKey: string, suffix: Suffix)
    requires a <= b && Find(a, operationKey, suffix).Some?
    ensures Find(b, operationKey, suffix) == Find(a, operationKey, suffix)
  {
    if !(a[0].operationKey == operationKey && a[0].suffix == suffix) {
      assert a[1..] <= b[1..];
      FoundStays(a[1..], b[1..], operationKey, suffix);
    }
  }

  /**
   A posting under a key that was used is accepted if and only if it is the very movement that stands
   there, with its balance, type, device, amount and source, and then it posts nothing.
   */
  lemma {:induction false} RepeatedPostingIff(actions: seq<Action>, more: seq<Action>, m: Movement, key: Key, c: Context, t: MovementType, pg: Option<Pg>, delta: int)
    requires m in Run(actions).ledger.movements && m.operationKey == c.operationKey
    requires Named(c) && key.status != "" && delta != 0
    ensures var l := Run(actions + more).ledger; var tx := ApplyDelta(l, key, c, t, pg, delta, m.suffix);
            if m.key == key && m.movementType == t && m.pg == pg && m.delta == delta && m.sourceType == c.sourceType && m.sourceId == c.sourceId
            then tx == Ok(l) else tx == Err(KeyCollision)
  {
    MovementsAreForGood(actions, more);
    var ms := Run(actions + more).ledger.movements;
    assert m in ms;
    FoundIsIt(ms, m);
  }

  lemma FoundIsIt(ms: seq<Movement>, m: Movement)
    requires KeysDiffer(ms) && m in ms
    ensures Find(ms, m.operationKey, m.suffix) == Some(m)
  {
    var found := Find(ms, m.operationKey, m.suffix);
    assert found.Some?;
    var i :| 0 <= i < |ms| && ms[i] == m;
    var j :| 0 <= j < |ms| && ms[j] == found.value;
    assert i == j;
  }

  /**
   A transition that moved its row can be sent again at any later time, wherever the row has gone since:
   it is accepted and moves nothing. The same key for another row, another target or from another source is refused.
   */
  lemma {:induction false} TransitionSentAgain(actions: seq<Action>, more: seq<Action>, first: Action, again: Action)
    requires first.DoTransition? && LedgerRuns.Result(Run(actions), first).Ok? && Step(Run(actions), first) != Run(actions)
    requires again.DoTransition? && again.c.operationKey == first.c.operationKey && again.pg in Run(actions + [first] + more).inventory
    requires Known(Run(actions + [first] + more).inventory[again.pg]) && Known(again.target) && again.pg != ""
    requires forall m :: m in Run(actions).ledger.movements ==> m.operationKey != first.c.operationKey
    requires first.pg in Run(actions).inventory
    ensures var from := Run(actions).inventory[first.pg]; var s := Run(actions + [first] + more); var tx := LedgerRuns.Result(s, again);
            if again.pg == first.pg && again.target == first.target && again.c == first.c && (again.expectedFrom.Some? ==> again.expectedFrom.value == from)
            then (if again.policy(from, first.target) then tx == Ok(s) else tx == Err(StateConflict))
            else tx == Err(KeyCollision)
  {
    var s, mid := Run(actions), Run(actions + [first]);
    assert (actions + [first])[..|actions|] == actions;
    assert mid == Step(s, first);
    var outM, inM := TransitionPosts(s, first);
    MovementsAreForGood(actions + [first], more);
    var ms := Run(actions + [first] + more).ledger.movements;
    assert outM in ms && inM in ms;
    FoundIsIt(ms, outM);
    FoundIsIt(ms, inM);
  }

  /** The two movements of a transition under an unused key. */
  lemma TransitionPosts(s: Stock, a: Action) returns (o: Movement, i: Movement)
    requires a.DoTransition? && LedgerRuns.Result(s, a).Ok? && Step(s, a) != s && Unused(s, a.c)
    ensures a.pg in s.inventory && s.inventory[a.pg] != a.target && a.policy(s.inventory[a.pg], a.target)
    ensures o in Step(s, a).ledger.movements && i in Step(s, a).ledger.movements
    ensures o.operationKey == i.operationKey == a.c.operationKey && o.suffix == OUT && i.suffix == IN
    ensures o.movementType == i.movementType == StatusTransfer && o.pg == i.pg == Some(a.pg) && o.delta == -1 && i.delta == 1
    ensures o.sourceType == i.sourceType == a.c.sourceType && o.sourceId == i.sourceId == a.c.sourceId
    ensures o.key.sku == i.key.sku && o.key.status == s.inventory[a.pg] && i.key.status == a.target
  {
    UnusedIsNotFound(s, a.c, OUT);
    UnusedIsNotFound(s, a.c, IN);
    var ms := Step(s, a).ledger.movements;
    var n := |s.ledger.movements|;
    var sku := Step(s, a).devices[a.pg].value;
    var mid := Posted(s.ledger, Key(sku, s.inventory[a.pg]), a.c, StatusTransfer, Some(a.pg), -1, OUT);
    FindAppend(s.ledger.movements, mid.movements[n], a.c.operationKey, IN);
    o, i := ms[n], ms[n + 1];
  }
}
