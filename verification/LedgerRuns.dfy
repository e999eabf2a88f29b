/**
 Conservation: over every run of the ledger's operations each balance is the sum of its
 movements, what the last of them left, and the number of inventory rows it stands for.
 */
module LedgerRuns {
  import opened Common
  import opened QuantityLedger

  // ---- movement groups ----

  /** The movements of one operation and type, oldest first. */
  function Group(ms: seq<Movement>, operationKey: string, t: MovementType): (r: seq<Movement>)
    ensures forall m :: m in r ==> m in ms && m.operationKey == operationKey && m.movementType == t
  {
    if ms == [] then []
    else
      var m := ms[|ms| - 1];
      Group(ms[..|ms| - 1], operationKey, t) + if m.operationKey == operationKey && m.movementType == t then [m] else []
  }

  function SumOfDeltas(g: seq<Movement>): int {
    if g == [] then 0 else SumOfDeltas(g[..|g| - 1]) + g[|g| - 1].delta
  }

  function CountOfDelta(g: seq<Movement>, delta: int): nat {
    if g == [] then 0 else CountOfDelta(g[..|g| - 1], delta) + if g[|g| - 1].delta == delta then 1 else 0
  }

  /** The shapes an operation of each type may leave. */
  predicate LegalGroup(g: seq<Movement>, t: MovementType) {
    match t
    case InventoryCreated => |g| == 1 && SumOfDeltas(g) == 1
    case InventoryRemoved => |g| == 1 && SumOfDeltas(g) == -1
    case OtherType(_) => true
    case _ => |g| == 2 && SumOfDeltas(g) == 0 && CountOfDelta(g, -1) == 1 && CountOfDelta(g, 1) == 1
  }

  /** A creation is one movement of plus one, a removal one of minus one, a transfer or reclassification one of each. */
  lemma LegalGroupIs(g: seq<Movement>, t: MovementType)
    ensures LegalGroup(g, t) <==>
      match t
      case InventoryCreated => |g| == 1 && g[0].delta == 1
      case InventoryRemoved => |g| == 1 && g[0].delta == -1
      case OtherType(_) => true
      case _ => |g| == 2 && ((g[0].delta == -1 && g[1].delta == 1) || (g[0].delta == 1 && g[1].delta == -1))
  {
    if |g| == 1 {
      OneDelta(g, -1);
    }
    if |g| == 2 {
      OneDelta(g[..1], -1);
      OneDelta(g[..1], 1);
      assert SumOfDeltas(g) == g[0].delta + g[1].delta;
      assert CountOfDelta(g, 1) == (if g[0].delta == 1 then 1 else 0) + (if g[1].delta == 1 then 1 else 0);
      assert CountOfDelta(g, -1) == (if g[0].delta == -1 then 1 else 0) + (if g[1].delta == -1 then 1 else 0);
    }
  }

  lemma OneDelta(g: seq<Movement>, delta: int)
    requires |g| == 1
    ensures SumOfDeltas(g) == g[0].delta && CountOfDelta(g, delta) == if g[0].delta == delta then 1 else 0
  {
    assert g[..0] == [];
  }

  ghost predicate GroupsLegal(ms: seq<Movement>) {
    forall operationKey, t :: GroupLegal(ms, operationKey, t)
  }

  /** Which suffix a movement of each type carries. */
  predicate SuffixFits(t: MovementType, suffix: Suffix) {
    match t
    case InventoryCreated => suffix == IN
    case InventoryRemoved => suffix == OUT
    case StatusTransfer => suffix == IN || suffix == OUT
    case SkuReclassification => suffix == OldSkuOut || suffix == NewSkuIn
    case OtherType(_) => false
  }

  predicate SuffixesFit(ms: seq<Movement>) {
    forall m :: m in ms ==> SuffixFits(m.movementType, m.suffix)
  }

  ghost predicate Shaped(ms: seq<Movement>) {
    GroupsLegal(ms) && SuffixesFit(ms)
  }

  lemma GroupAppend(ms: seq<Movement>, m: Movement, operationKey: string, t: MovementType)
    ensures m.operationKey == operationKey && m.movementType == t ==> Group(ms + [m], operationKey, t) == Group(ms, operationKey, t) + [m]
    ensures !(m.operationKey == operationKey && m.movementType == t) ==> Group(ms + [m], operationKey, t) == Group(ms, operationKey, t)
  {
    assert (ms + [m])[..|ms|] == ms;
  }

  lemma {:induction false} NoSuchGroup(ms: seq<Movement>, operationKey: string, t: MovementType)
    requires forall m :: m in ms ==> !(m.operationKey == operationKey && m.movementType == t)
    ensures Group(ms, operationKey, t) == []
  {
    if ms != [] {
      NoSuchGroup(ms[..|ms| - 1], operationKey, t);
    }
  }

  /** No movement of this type can have been recorded when none of its suffixes is taken. */
  lemma GroupIsEmpty(ms: seq<Movement>, operationKey: string, t: MovementType)
    requires SuffixesFit(ms)
    requires forall suffix :: SuffixFits(t, suffix) ==> Find(ms, operationKey, suffix).None?
    ensures Group(ms, operationKey, t) == []
  {
    forall m | m in ms
      ensures !(m.operationKey == operationKey && m.movementType == t)
    {
      assert SuffixFits(m.movementType, m.suffix);
      assert m.movementType == t ==> Find(ms, operationKey, m.suffix).None?;
    }
    NoSuchGroup(ms, operationKey, t);
  }

  predicate GroupLegal(ms: seq<Movement>, operationKey: string, t: MovementType) {
    Group(ms, operationKey, t) != [] ==> LegalGroup(Group(ms, operationKey, t), t)
  }

  lemma OneMovementLegal(ms: seq<Movement>, m: Movement, operationKey: string, t: MovementType)
    requires GroupLegal(ms, operationKey, t) && Group(ms, m.operationKey, m.movementType) == [] && LegalGroup([m], m.movementType)
    ensures GroupLegal(ms + [m], operationKey, t)
  {
    GroupAppend(ms, m, operationKey, t);
    assert [] + [m] == [m];
  }

  lemma TwoMovementsLegal(ms: seq<Movement>, a: Movement, b: Movement, operationKey: string, t: MovementType)
    requires a.operationKey == b.operationKey && a.movementType == b.movementType
    requires GroupLegal(ms, operationKey, t) && Group(ms, a.operationKey, a.movementType) == [] && LegalGroup([a, b], a.movementType)
    ensures GroupLegal(ms + [a] + [b], operationKey, t)
  {
    GroupAppend(ms, a, operationKey, t);
    GroupAppend(ms + [a], b, operationKey, t);
    assert [] + [a] + [b] == [a, b];
  }

  lemma OneMovementShaped(ms: seq<Movement>, m: Movement)
    requires Shaped(ms) && SuffixFits(m.movementType, m.suffix) && Group(ms, m.operationKey, m.movementType) == []
    requires LegalGroup([m], m.movementType)
    ensures Shaped(ms + [m])
  {
    forall operationKey, t
      ensures GroupLegal(ms + [m], operationKey, t)
    {
      OneMovementLegal(ms, m, operationKey, t);
    }
  }

  lemma TwoMovementsShaped(ms: seq<Movement>, a: Movement, b: Movement)
    requires Shaped(ms) && a.operationKey == b.operationKey && a.movementType == b.movementType
    requires SuffixFits(a.movementType, a.suffix) && SuffixFits(b.movementType, b.suffix) && Group(ms, a.operationKey, a.movementType) == []
    requires LegalGroup([a, b], a.movementType)
    ensures Shaped(ms + [a] + [b])
  {
    forall operationKey, t
      ensures GroupLegal(ms + [a] + [b], operationKey, t)
    {
      TwoMovementsLegal(ms, a, b, operationKey, t);
    }
  }

  lemma PairIsLegal(a: Movement, b: Movement, t: MovementType)
    requires a.delta == -1 && b.delta == 1 && (t == StatusTransfer || t == SkuReclassification)
    ensures LegalGroup([a, b], t)
  {
    var g := [a, b];
    assert g[..1] == [a] && [a][..0] == [];
    assert SumOfDeltas([a]) == -1 && CountOfDelta([a], -1) == 1 && CountOfDelta([a], 1) == 0;
  }

  lemma SingleIsLegal(m: Movement, t: MovementType)
    requires (t == InventoryCreated && m.delta == 1) || (t == InventoryRemoved && m.delta == -1)
    ensures LegalGroup([m], t)
  {
    assert [m][..0] == [];
  }

  // ---- operations ----

  ghost predicate Good(s: Stock) {
    Sound(s) && Shaped(s.ledger.movements)
  }

  /** Ledger facts of a step: what it means for the balances, apart from the rows. */
  ghost predicate LedgerStep(a: Ledger, b: Ledger) {
    Balanced(b) && Shaped(b.movements) && forall key :: key in b.balances ==> key in a.balances || Known(key.status)
  }

  lemma SinglePosted(l: Ledger, key: Key, c: Context, t: MovementType, pg: Option<Pg>, delta: int, suffix: Suffix)
    requires Balanced(l) && Shaped(l.movements) && Known(key.status)
    requires ApplyDelta(l, key, c, t, pg, delta, suffix).Ok? && Find(l.movements, c.operationKey, suffix).None?
    requires (t == InventoryCreated && delta == 1 && suffix == IN) || (t == InventoryRemoved && delta == -1 && suffix == OUT)
    ensures var next := ApplyDelta(l, key, c, t, pg, delta, suffix).value;
            && LedgerStep(l, next)
            && forall k :: Balance(next, k) == Balance(l, k) + (if k == key then delta else 0)
  {
    ApplyPosts(l, key, c, t, pg, delta, suffix);
    var m := Movement(key, c.operationKey, suffix, t, pg, delta, Balance(l, key), Balance(l, key) + delta, c.sourceType, c.sourceId);
    GroupIsEmpty(l.movements, c.operationKey, t);
    SingleIsLegal(m, t);
    OneMovementShaped(l.movements, m);
  }

  lemma {:induction false} FindAppend(ms: seq<Movement>, m: Movement, operationKey: string, suffix: Suffix)
    requires Find(ms, operationKey, suffix).None? && m.suffix != suffix
    ensures Find(ms + [m], operationKey, suffix).None?
  {
    if ms == [] {
      assert ([m])[1..] == [];
    } else {
      assert (ms + [m])[1..] == ms[1..] + [m];
      FindAppend(ms[1..], m, operationKey, suffix);
    }
  }

  /** The two movements of a transfer, posted one after the other. */
  lemma PairApplied(l: Ledger, out: Key, into: Key, c: Context, t: MovementType, pg: Option<Pg>, outSuffix: Suffix, inSuffix: Suffix)
    requires Balanced(l) && outSuffix != inSuffix
    requires Find(l.movements, c.operationKey, outSuffix).None? && Find(l.movements, c.operationKey, inSuffix).None?
    requires ApplyDelta(l, out, c, t, pg, -1, outSuffix).Ok?
    requires ApplyDelta(ApplyDelta(l, out, c, t, pg, -1, outSuffix).value, into, c, t, pg, 1, inSuffix).Ok?
    ensures Balance(l, out) >= 1
    ensures var mid := Posted(l, out, c, t, pg, -1, outSuffix);
            && ApplyDelta(l, out, c, t, pg, -1, outSuffix).value == mid
            && ApplyDelta(mid, into, c, t, pg, 1, inSuffix).value == Posted(mid, into, c, t, pg, 1, inSuffix)
            && Balanced(Posted(mid, into, c, t, pg, 1, inSuffix))
  {
    ApplyPosts(l, out, c, t, pg, -1, outSuffix);
    var mid := Posted(l, out, c, t, pg, -1, outSuffix);
    FindAppend(l.movements, mid.movements[|l.movements|], c.operationKey, inSuffix);
    ApplyPosts(mid, into, c, t, pg, 1, inSuffix);
  }

  lemma PairShaped(l: Ledger, out: Key, into: Key, c: Context, t: MovementType, pg: Option<Pg>, outSuffix: Suffix, inSuffix: Suffix)
    requires Shaped(l.movements) && Balance(l, out) >= 1
    requires (t == StatusTransfer && outSuffix == OUT && inSuffix == IN)
             || (t == SkuReclassification && outSuffix == OldSkuOut && inSuffix == NewSkuIn)
    requires Find(l.movements, c.operationKey, outSuffix).None? && Find(l.movements, c.operationKey, inSuffix).None?
    ensures Shaped(Posted(Posted(l, out, c, t, pg, -1, outSuffix), into, c, t, pg, 1, inSuffix).movements)
  {
    var mid := Posted(l, out, c, t, pg, -1, outSuffix);
    var next := Posted(mid, into, c, t, pg, 1, inSuffix);
    var a, b := next.movements[|l.movements|], next.movements[|l.movements| + 1];
    GroupIsEmpty(l.movements, c.operationKey, t);
    PairIsLegal(a, b, t);
    TwoMovementsShaped(l.movements, a, b);
    assert next.movements == l.movements + [a] + [b];
  }

  lemma PairPosted(l: Ledger, out: Key, into: Key, c: Context, t: MovementType, pg: Option<Pg>, outSuffix: Suffix, inSuffix: Suffix)
    requires Balanced(l) && Shaped(l.movements) && Known(out.status) && Known(into.status)
    requires (t == StatusTransfer && outSuffix == OUT && inSuffix == IN)
             || (t == SkuReclassification && outSuffix == OldSkuOut && inSuffix == NewSkuIn)
    requires Find(l.movements, c.operationKey, outSuffix).None? && Find(l.movements, c.operationKey, inSuffix).None?
    requires ApplyDelta(l, out, c, t, pg, -1, outSuffix).Ok?
    requires ApplyDelta(ApplyDelta(l, out, c, t, pg, -1, outSuffix).value, into, c, t, pg, 1, inSuffix).Ok?
    ensures var next := ApplyDelta(ApplyDelta(l, out, c, t, pg, -1, outSuffix).value, into, c, t, pg, 1, inSuffix).value;
            && LedgerStep(l, next)
            && forall k :: Balance(next, k) == Balance(l, k) - (if k == out then 1 else 0) + (if k == into then 1 else 0)
  {
    PairApplied(l, out, into, c, t, pg, outSuffix, inSuffix);
    PairShaped(l, out, into, c, t, pg, outSuffix, inSuffix);
  }

  lemma RowMoved(before: Stock, after: Stock, pg: Pg)
    requires Good(before) && OnlyRow(before, after, pg) && LedgerStep(before.ledger, after.ledger)
    requires pg in after.inventory ==> pg in after.devices && after.devices[pg].Some? && Known(after.inventory[pg])
    requires forall key :: Balance(after.ledger, key) == Balance(before.ledger, key) + At(PlaceOf(after, pg), key) - At(PlaceOf(before, pg), key)
    ensures Good(after)
  {
    CountsFollow(before, after, pg);
  }

  /** A creation keeps the ledger sound exactly when its operation key is new; a reused one adds a row and posts nothing. */
  lemma CreateKeepsIffKeyIsNew(s: Stock, pg: Pg, status: Status, c: Context, catalog: Catalog)
    requires Good(s) && Create(s, pg, status, c, catalog).Ok?
    ensures Good(Create(s, pg, status, c, catalog).value) <==> Find(s.ledger.movements, c.operationKey, IN).None?
    ensures CountsRows(Create(s, pg, status, c, catalog).value) <==> Find(s.ledger.movements, c.operationKey, IN).None?
  {
    var after := Create(s, pg, status, c, catalog).value;
    var key := Key(after.devices[pg].value, status);
    assert OnlyRow(s, after, pg) && PlaceOf(s, pg) == None && PlaceOf(after, pg) == Some(key);
    CountsFollow(s, after, pg);
    if Find(s.ledger.movements, c.operationKey, IN).None? {
      SinglePosted(s.ledger, key, c, InventoryCreated, Some(pg), 1, IN);
      RowMoved(s, after, pg);
    } else {
      assert Balance(after.ledger, key) == Balance(s.ledger, key);
    }
  }

  /** So does the removal of a row. */
  lemma RemoveKeepsIffKeyIsNew(s: Stock, pg: Pg, c: Context)
    requires Good(s) && Remove(s, pg, c).Ok? && pg in s.inventory
    ensures Good(Remove(s, pg, c).value) <==> Find(s.ledger.movements, c.operationKey, OUT).None?
    ensures CountsRows(Remove(s, pg, c).value) <==> Find(s.ledger.movements, c.operationKey, OUT).None?
  {
    var after := Remove(s, pg, c).value;
    var key := Key(s.devices[pg].value, s.inventory[pg]);
    assert OnlyRow(s, after, pg) && PlaceOf(s, pg) == Some(key) && PlaceOf(after, pg) == None;
    CountsFollow(s, after, pg);
    if Find(s.ledger.movements, c.operationKey, OUT).None? {
      SinglePosted(s.ledger, key, c, InventoryRemoved, Some(pg), -1, OUT);
      RowMoved(s, after, pg);
    } else {
      assert Balance(after.ledger, key) == Balance(s.ledger, key);
    }
  }

  lemma RemoveDeviceKeeps(s: Stock, pg: Pg, c: Context)
    requires Good(s) && Remove(s, pg, c).Ok? && pg !in s.inventory
    ensures Good(Remove(s, pg, c).value)
  {
    RowMoved(s, Remove(s, pg, c).value, pg);
  }

  /** A transition keeps the ledger sound under any operation key: one that was used before changes nothing or is refused. */
  lemma TransitionKeeps(s: Stock, pg: Pg, target: Status, expectedFrom: Option<Status>, policy: (Status, Status) -> bool, c: Context, catalog: Catalog)
    requires Good(s) && Transition(s, pg, target, expectedFrom, policy, c, catalog).Ok?
    ensures Good(Transition(s, pg, target, expectedFrom, policy, c, catalog).value)
    ensures var r := Transition(s, pg, target, expectedFrom, policy, c, catalog).value;
            r == s || (pg in s.inventory && pg in s.devices && policy(s.inventory[pg], target)
                       && r.inventory == s.inventory[pg := target] && r.devices == s.devices)
  {
    var after := Transition(s, pg, target, expectedFrom, policy, c, catalog).value;
    if after != s {
      var sku := s.devices[pg].value;
      assert AssignSku(s, pg, catalog, false) == Ok(sku);
      assert s.devices[pg := Some(sku)] == s.devices;
      PairPosted(s.ledger, Key(sku, s.inventory[pg]), Key(sku, target), c, StatusTransfer, Some(pg), OUT, IN);
      RowMoved(s, after, pg);
    }
  }

  /** A reclassification that touches the ledger. */
  predicate Reclassifies(s: Stock, pg: Pg, catalog: Catalog, mustResolve: bool) {
    && AssignSku(s, pg, catalog, mustResolve).Ok?
    && pg in s.inventory && s.devices[pg] != Some(AssignSku(s, pg, catalog, mustResolve).value)
  }

  lemma ReclassifyKeepsIffKeyIsNew(s: Stock, pg: Pg, c: Context, catalog: Catalog, mustResolve: bool)
    requires Good(s) && Reclassify(s, pg, c, catalog, mustResolve).Ok?
    ensures var used := Find(s.ledger.movements, c.operationKey, OldSkuOut).Some? || Find(s.ledger.movements, c.operationKey, NewSkuIn).Some?;
            && (Good(Reclassify(s, pg, c, catalog, mustResolve).value) <==> !(Reclassifies(s, pg, catalog, mustResolve) && used))
            && (CountsRows(Reclassify(s, pg, c, catalog, mustResolve).value) <==> !(Reclassifies(s, pg, catalog, mustResolve) && used))
  {
    var after := Reclassify(s, pg, c, catalog, mustResolve).value;
    assert OnlyRow(s, after, pg);
    if !Reclassifies(s, pg, catalog, mustResolve) {
      RowMoved(s, after, pg);
    } else {
      ReclassifiedKeepsIff(s, pg, c, catalog, mustResolve);
    }
  }

  lemma ReclassifiedKeepsIff(s: Stock, pg: Pg, c: Context, catalog: Catalog, mustResolve: bool)
    requires Good(s) && Reclassify(s, pg, c, catalog, mustResolve).Ok? && Reclassifies(s, pg, catalog, mustResolve)
    ensures Good(Reclassify(s, pg, c, catalog, mustResolve).value) <==>
            Find(s.ledger.movements, c.operationKey, OldSkuOut).None? && Find(s.ledger.movements, c.operationKey, NewSkuIn).None?
    ensures CountsRows(Reclassify(s, pg, c, catalog, mustResolve).value) <==>
            Find(s.ledger.movements, c.operationKey, OldSkuOut).None? && Find(s.ledger.movements, c.operationKey, NewSkuIn).None?
  {
    var after := Reclassify(s, pg, c, catalog, mustResolve).value;
    var prior, next := Key(s.devices[pg].value, s.inventory[pg]), Key(after.devices[pg].value, s.inventory[pg]);
    assert OnlyRow(s, after, pg) && PlaceOf(s, pg) == Some(prior) && PlaceOf(after, pg) == Some(next) && prior != next;
    CountsFollow(s, after, pg);
    if Find(s.ledger.movements, c.operationKey, OldSkuOut).None? && Find(s.ledger.movements, c.operationKey, NewSkuIn).None? {
      PairPosted(s.ledger, prior, next, c, SkuReclassification, Some(pg), OldSkuOut, NewSkuIn);
      RowMoved(s, after, pg);
    } else if Find(s.ledger.movements, c.operationKey, OldSkuOut).Some? {
      assert Balance(after.ledger, prior) == Balance(s.ledger, prior);
    } else {
      OnlyOldPosted(s.ledger, prior, next, c, Some(pg));
      assert Balance(after.ledger, next) == Balance(s.ledger, next);
    }
  }

  lemma OnlyOldPosted(l: Ledger, prior: Key, next: Key, c: Context, pg: Option<Pg>)
    requires prior != next && Find(l.movements, c.operationKey, OldSkuOut).None? && Find(l.movements, c.operationKey, NewSkuIn).Some?
    requires ApplyDelta(l, prior, c, SkuReclassification, pg, -1, OldSkuOut).Ok?
    ensures var mid := ApplyDelta(l, prior, c, SkuReclassification, pg, -1, OldSkuOut).value;
            Find(mid.movements, c.operationKey, NewSkuIn).Some? && Balance(mid, next) == Balance(l, next)
  {
    var mid := ApplyDelta(l, prior, c, SkuReclassification, pg, -1, OldSkuOut).value;
    var m := Find(l.movements, c.operationKey, NewSkuIn).value;
    assert m in mid.movements;
  }

  // ---- runs ----

  datatype Action =
    | Receive(pg: Pg)
    | DoCreate(pg: Pg, status: Status, c: Context, catalog: Catalog)
    | DoRemove(pg: Pg, c: Context)
    | DoTransition(pg: Pg, target: Status, expectedFrom: Option<Status>, policy: (Status, Status) -> bool, c: Context, catalog: Catalog)
    | DoReclassify(pg: Pg, c: Context, catalog: Catalog, mustResolve: bool)

  const EmptyStock := Stock(map[], map[], Ledger(map[], []))

  function Result(s: Stock, a: Action): Common.Result<Stock, LedgerError> {
    match a
    case Receive(pg) => if pg in s.devices then Err(AlreadyExists) else Ok(s.(devices := s.devices[pg := None]))
    case DoCreate(pg, status, c, catalog) => Create(s, pg, status, c, catalog)
    case DoRemove(pg, c) => Remove(s, pg, c)
    case DoTransition(pg, target, expectedFrom, policy, c, catalog) => Transition(s, pg, target, expectedFrom, policy, c, catalog)
    case DoReclassify(pg, c, catalog, mustResolve) => Reclassify(s, pg, c, catalog, mustResolve)
  }

  function Step(s: Stock, a: Action): Stock {
    if Result(s, a).Ok? then Result(s, a).value else s
  }

  function Run(actions: seq<Action>): Stock {
    if actions == [] then EmptyStock else Step(Run(actions[..|actions| - 1]), actions[|actions| - 1])
  }

  /** An action that succeeds and creates, removes or reclassifies an inventory row. */
  predicate Effective(s: Stock, a: Action) {
    Result(s, a).Ok? &&
    match a
    case DoCreate(_, _, _, _) => true
    case DoRemove(pg, _) => pg in s.inventory
    case DoReclassify(pg, _, catalog, mustResolve) => Reclassifies(s, pg, catalog, mustResolve)
    case _ => false
  }

  /** Nothing was recorded under the operation key and the suffixes of a creation, removal or reclassification. */
  predicate KeyIsNew(s: Stock, a: Action) {
    match a
    case DoCreate(_, _, c, _) => Find(s.ledger.movements, c.operationKey, IN).None?
    case DoRemove(_, c) => Find(s.ledger.movements, c.operationKey, OUT).None?
    case DoReclassify(_, c, _, _) =>
      Find(s.ledger.movements, c.operationKey, OldSkuOut).None? && Find(s.ledger.movements, c.operationKey, NewSkuIn).None?
    case _ => true
  }

  /** A step keeps a sound ledger sound exactly when its key is new or it has no need of one; otherwise the count of rows is lost. */
  lemma StepKeepsIff(s: Stock, a: Action)
    requires Good(s)
    ensures Good(Step(s, a)) <==> (Effective(s, a) ==> KeyIsNew(s, a))
    ensures CountsRows(Step(s, a)) <==> (Effective(s, a) ==> KeyIsNew(s, a))
  {
    if Result(s, a).Ok? {
      match a
      case Receive(pg) => RowMoved(s, Step(s, a), pg);
      case DoCreate(pg, status, c, catalog) => CreateKeepsIffKeyIsNew(s, pg, status, c, catalog);
      case DoRemove(pg, c) =>
        if pg in s.inventory { RemoveKeepsIffKeyIsNew(s, pg, c); } else { RemoveDeviceKeeps(s, pg, c); }
      case DoTransition(pg, target, expectedFrom, policy, c, catalog) => TransitionKeeps(s, pg, target, expectedFrom, policy, c, catalog);
      case DoReclassify(pg, c, catalog, mustResolve) => ReclassifyKeepsIffKeyIsNew(s, pg, c, catalog, mustResolve);
    }
  }

  lemma EmptyIsGood()
    ensures Good(EmptyStock)
  {
    assert forall key :: RowsAt(EmptyStock, key) == {};
  }

  /** No row was created, removed or reclassified under a key that had been used; refused and idle actions may repeat theirs. */
  predicate KeysAreNew(actions: seq<Action>) {
    forall i :: 0 <= i < |actions| ==> KeyIsNewAt(actions, i)
  }

  predicate KeyIsNewAt(actions: seq<Action>, i: nat)
    requires i < |actions|
  {
    Effective(Run(actions[..i]), actions[i]) ==> KeyIsNew(Run(actions[..i]), actions[i])
  }

  lemma RunStep(actions: seq<Action>, i: nat)
    requires i < |actions|
    ensures Run(actions[..i + 1]) == Step(Run(actions[..i]), actions[i])
  {
    assert actions[..i + 1][..i] == actions[..i];
  }

  lemma {:induction false} GoodUntil(actions: seq<Action>, n: nat)
    requires n <= |actions| && forall i :: 0 <= i < n ==> KeyIsNewAt(actions, i)
    ensures Good(Run(actions[..n]))
  {
    if n == 0 {
      EmptyIsGood();
    } else {
      GoodUntil(actions, n - 1);
      RunStep(actions, n - 1);
      assert KeyIsNewAt(actions, n - 1);
      StepKeepsIff(Run(actions[..n - 1]), actions[n - 1]);
    }
  }

  /**
   Conservation over runs: balances are the sums of their movements and the numbers of their rows,
   and every movement group is legal, all along a run if and only if no row is created, removed or
   reclassified under a used key. The first used key loses the count of rows.
   */
  lemma {:induction false} RunsStayGoodIff(actions: seq<Action>)
    ensures (forall n :: 0 <= n <= |actions| ==> Good(Run(actions[..n]))) <==> KeysAreNew(actions)
    ensures (forall n :: 0 <= n <= |actions| ==> CountsRows(Run(actions[..n]))) <==> KeysAreNew(actions)
  {
    if KeysAreNew(actions) {
      forall n | 0 <= n <= |actions|
        ensures Good(Run(actions[..n]))
      {
        GoodUntil(actions, n);
      }
    } else {
      var i := FirstUsed(actions, 0);
      GoodUntil(actions, i);
      RunStep(actions, i);
      StepKeepsIff(Run(actions[..i]), actions[i]);
      assert !CountsRows(Run(actions[..i + 1]));
    }
  }

  lemma {:induction false} FirstUsed(actions: seq<Action>, n: nat) returns (i: nat)
    requires n <= |actions| && !KeysAreNew(actions) && forall j :: 0 <= j < n ==> KeyIsNewAt(actions, j)
    ensures i < |actions| && !KeyIsNewAt(actions, i) && forall j :: 0 <= j < i ==> KeyIsNewAt(actions, j)
    decreases |actions| - n
  {
    if !KeyIsNewAt(actions, n) {
      i := n;
    } else {
      i := FirstUsed(actions, n + 1);
    }
  }

  // ---- what holds whatever the keys ----

  /** Each movement starts where the latest one of its balance ended, and ends where its delta leads. */
  predicate Chained(ms: seq<Movement>) {
    forall i :: 0 <= i < |ms| ==> ChainedAt(ms, i)
  }

  function Tail(ms: seq<Movement>, key: Key): nat {
    if LastAfter(ms, key).Some? then LastAfter(ms, key).value else 0
  }

  predicate ChainedAt(ms: seq<Movement>, i: nat)
    requires i < |ms|
  {
    ms[i].before == Tail(ms[..i], ms[i].key) && ms[i].after == ms[i].before + ms[i].delta
  }

  /** Balanced, and every movement in its place. */
  ghost predicate Linked(l: Ledger) {
    Balanced(l) && Chained(l.movements)
  }

  lemma ChainOneMore(ms: seq<Movement>, m: Movement)
    requires Chained(ms) && m.before == Tail(ms, m.key) && m.after == m.before + m.delta
    ensures Chained(ms + [m])
  {
    forall i | 0 <= i < |ms| + 1
      ensures ChainedAt(ms + [m], i)
    {
      if i < |ms| {
        assert ChainedAt(ms, i) && (ms + [m])[..i] == ms[..i];
      } else {
        assert (ms + [m])[..i] == ms;
      }
    }
  }

  lemma DeltaKeepsLinked(l: Ledger, key: Key, c: Context, t: MovementType, pg: Option<Pg>, delta: int, suffix: Suffix)
    requires Linked(l) && ApplyDelta(l, key, c, t, pg, delta, suffix).Ok?
    ensures Linked(ApplyDelta(l, key, c, t, pg, delta, suffix).value)
  {
    var next := ApplyDelta(l, key, c, t, pg, delta, suffix).value;
    if next != l {
      PostedBalanced(l, key, c, t, pg, delta, suffix);
      assert KeyBalanced(l, key);
      ChainOneMore(l.movements, next.movements[|l.movements|]);
    }
  }

  lemma PairKeepsLinked(l: Ledger, out: Key, into: Key, c: Context, t: MovementType, pg: Option<Pg>, outSuffix: Suffix, inSuffix: Suffix)
    requires Linked(l) && ApplyDelta(l, out, c, t, pg, -1, outSuffix).Ok?
    requires ApplyDelta(ApplyDelta(l, out, c, t, pg, -1, outSuffix).value, into, c, t, pg, 1, inSuffix).Ok?
    ensures Linked(ApplyDelta(ApplyDelta(l, out, c, t, pg, -1, outSuffix).value, into, c, t, pg, 1, inSuffix).value)
  {
    DeltaKeepsLinked(l, out, c, t, pg, -1, outSuffix);
    DeltaKeepsLinked(ApplyDelta(l, out, c, t, pg, -1, outSuffix).value, into, c, t, pg, 1, inSuffix);
  }

  lemma TransitionKeepsLinked(s: Stock, pg: Pg, target: Status, expectedFrom: Option<Status>, policy: (Status, Status) -> bool, c: Context, catalog: Catalog)
    requires Linked(s.ledger) && Transition(s, pg, target, expectedFrom, policy, c, catalog).Ok?
    ensures Linked(Transition(s, pg, target, expectedFrom, policy, c, catalog).value.ledger)
  {
    hide Linked;
    if Transition(s, pg, target, expectedFrom, policy, c, catalog).value != s {
      var sku := AssignSku(s, pg, catalog, false).value;
      PairKeepsLinked(s.ledger, Key(sku, s.inventory[pg]), Key(sku, target), c, StatusTransfer, Some(pg), OUT, IN);
    }
  }

  lemma ReclassifyKeepsLinked(s: Stock, pg: Pg, c: Context, catalog: Catalog, mustResolve: bool)
    requires Linked(s.ledger) && Reclassify(s, pg, c, catalog, mustResolve).Ok?
    ensures Linked(Reclassify(s, pg, c, catalog, mustResolve).value.ledger)
  {
    hide Linked;
    if Reclassify(s, pg, c, catalog, mustResolve).value.ledger != s.ledger {
      var into := Key(AssignSku(s, pg, catalog, mustResolve).value, s.inventory[pg]);
      if s.devices[pg].None? {
        DeltaKeepsLinked(s.ledger, into, c, SkuReclassification, Some(pg), 1, NewSkuIn);
      } else {
        PairKeepsLinked(s.ledger, Key(s.devices[pg].value, s.inventory[pg]), into, c, SkuReclassification, Some(pg), OldSkuOut, NewSkuIn);
      }
    }
  }

  lemma StepKeepsLinked(s: Stock, a: Action)
    requires Linked(s.ledger)
    ensures Linked(Step(s, a).ledger)
  {
    hide Linked;
    if Result(s, a).Ok? {
      match a
      case Receive(pg) =>
      case DoCreate(pg, status, c, catalog) =>
        DeltaKeepsLinked(s.ledger, Key(Step(s, a).devices[pg].value, status), c, InventoryCreated, Some(pg), 1, IN);
      case DoRemove(pg, c) =>
        if pg in s.inventory {
          DeltaKeepsLinked(s.ledger, Key(s.devices[pg].value, s.inventory[pg]), c, InventoryRemoved, Some(pg), -1, OUT);
        }
      case DoTransition(pg, target, expectedFrom, policy, c, catalog) => TransitionKeepsLinked(s, pg, target, expectedFrom, policy, c, catalog);
      case DoReclassify(pg, c, catalog, mustResolve) => ReclassifyKeepsLinked(s, pg, c, catalog, mustResolve);
    }
  }

  /** In every run whatsoever, reused keys included, each balance is the sum of its movements and what the last of them left, and the movements chain up. */
  lemma {:induction false} RunIsBalanced(actions: seq<Action>)
    ensures Balanced(Run(actions).ledger) && Chained(Run(actions).ledger.movements)
  {
    if actions != [] {
      RunIsBalanced(actions[..|actions| - 1]);
      StepKeepsLinked(Run(actions[..|actions| - 1]), actions[|actions| - 1]);
    }
  }

  // ---- rows outside the ledger ----

  /**
   A transition that succeeds keeps the count of rows exactly when it changed nothing or its device
   had a SKU. A row whose device has none is outside the ledger: the transition assigns the SKU but
   takes the row out of a balance it was never in.
   */
  lemma TransitionCountsIffClassified(s: Stock, pg: Pg, target: Status, expectedFrom: Option<Status>, policy: (Status, Status) -> bool, c: Context, catalog: Catalog)
    requires CountsRows(s) && Transition(s, pg, target, expectedFrom, policy, c, catalog).Ok?
    ensures var after := Transition(s, pg, target, expectedFrom, policy, c, catalog).value;
            CountsRows(after) <==> after == s || (pg in s.devices && s.devices[pg].Some?)
  {
    var after := Transition(s, pg, target, expectedFrom, policy, c, catalog).value;
    if after != s {
      var sku := AssignSku(s, pg, catalog, false).value;
      var out, into := Key(sku, s.inventory[pg]), Key(sku, target);
      var mid := ApplyDelta(s.ledger, out, c, StatusTransfer, Some(pg), -1, OUT).value;
      FindAppend(s.ledger.movements, mid.movements[|s.ledger.movements|], c.operationKey, IN);
      assert forall key :: Balance(after.ledger, key) == Balance(s.ledger, key) + (if key == into then 1 else 0) - (if key == out then 1 else 0);
      assert OnlyRow(s, after, pg) && PlaceOf(after, pg) == Some(into);
      CountsFollow(s, after, pg);
      assert PlaceOf(s, pg) == (if s.devices[pg].Some? then Some(out) else None);
      assert At(PlaceOf(after, pg), out) == 0 && At(Some(out), out) == 1;
    }
  }
}
