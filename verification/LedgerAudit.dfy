/** The audit of the quantity ledger: what it counts as violations, and what a clean audit means. */
module LedgerAudit {
  import opened Common
  import opened QuantityLedger
  import opened LedgerRuns

  // ---- the six counts ----

  function Unclassified(s: Stock): set<Pg> {
    set pg | pg in s.inventory && (pg !in s.devices || s.devices[pg].None?)
  }

  function UnknownRows(s: Stock): set<Pg> {
    set pg | pg in s.inventory && !Known(s.inventory[pg])
  }

  function UnknownBalances(s: Stock): set<Key> {
    set key | key in s.ledger.balances && !Known(key.status)
  }

  /** Keys that occur on a classified row. */
  function RowKeys(s: Stock): set<Key> {
    set pg | pg in s.inventory && PlaceOf(s, pg).Some? :: PlaceOf(s, pg).value
  }

  function Mismatches(s: Stock): set<Key> {
    set key | key in RowKeys(s) + s.ledger.balances.Keys && |RowsAt(s, key)| != Balance(s.ledger, key)
  }

  datatype GroupName = GroupName(operationKey: string, movementType: MovementType)

  function GroupNames(ms: seq<Movement>): set<GroupName> {
    set m | m in ms :: GroupName(m.operationKey, m.movementType)
  }

  function InvalidGroups(ms: seq<Movement>): set<GroupName> {
    set g | g in GroupNames(ms) && !LegalGroup(Group(ms, g.operationKey, g.movementType), g.movementType)
  }

  function TailMismatches(l: Ledger): set<Key> {
    set key | key in l.balances && LastAfter(l.movements, key) != Some(l.balances[key])
  }

  function UnknownTypes(ms: seq<Movement>): nat {
    if ms == [] then 0 else UnknownTypes(ms[..|ms| - 1]) + if ms[|ms| - 1].movementType.OtherType? then 1 else 0
  }

  function Violations(s: Stock): nat {
    |Unclassified(s)| + (|UnknownRows(s)| + |UnknownBalances(s)|) + |Mismatches(s)|
    + |InvalidGroups(s.ledger.movements)| + |TailMismatches(s.ledger)| + UnknownTypes(s.ledger.movements)
  }

  // ---- every violation is counted once ----

  datatype Violation =
    | RowWithoutSku(pg: Pg) | RowOfUnknownStatus(pg: Pg) | BalanceOfUnknownStatus(key: Key) | CountIsOff(key: Key)
    | GroupIsIllegal(g: GroupName) | TailIsOff(key: Key) | TypeIsUnknown(i: nat)

  /** What is wrong with the tables. */
  ghost predicate Violates(s: Stock, v: Violation) {
    var ms := s.ledger.movements;
    match v
    case RowWithoutSku(pg) => pg in s.inventory && !(pg in s.devices && s.devices[pg].Some?)
    case RowOfUnknownStatus(pg) => pg in s.inventory && !Known(s.inventory[pg])
    case BalanceOfUnknownStatus(key) => key in s.ledger.balances && !Known(key.status)
    case CountIsOff(key) => |RowsAt(s, key)| != Balance(s.ledger, key)
    case GroupIsIllegal(g) =>
      (exists m :: m in ms && m.operationKey == g.operationKey && m.movementType == g.movementType) && !LegalGroup(Group(ms, g.operationKey, g.movementType), g.movementType)
    case TailIsOff(key) => key in s.ledger.balances && LastAfter(ms, key) != Some(s.ledger.balances[key])
    case TypeIsUnknown(i) => i < |ms| && ms[i].movementType.OtherType?
  }

  function UnknownTypeAt(ms: seq<Movement>): set<nat> {
    set i: nat | i < |ms| && ms[i].movementType.OtherType?
  }

  lemma {:induction false} UnknownTypesCounted(ms: seq<Movement>)
    ensures UnknownTypes(ms) == |UnknownTypeAt(ms)|
  {
    if ms == [] {
      assert UnknownTypeAt(ms) == {};
    } else {
      var n := |ms| - 1;
      UnknownTypesCounted(ms[..n]);
      if ms[n].movementType.OtherType? {
        assert UnknownTypeAt(ms) == UnknownTypeAt(ms[..n]) + {n};
      } else {
        assert UnknownTypeAt(ms) == UnknownTypeAt(ms[..n]);
      }
    }
  }

  /** As many names as things named, when different things have different names. */
  lemma NamedOnce<A(!new), B(!new)>(things: set<A>, name: A -> B) returns (names: set<B>)
    requires forall a, b :: a in things && b in things && name(a) == name(b) ==> a == b
    ensures |names| == |things| && forall b :: b in names <==> exists a :: a in things && name(a) == b
  {
    if things == {} {
      names := {};
    } else {
      var a :| a in things;
      var rest := NamedOnce(things - {a}, name);
      names := rest + {name(a)};
      assert name(a) !in rest;
      forall b
        ensures b in names <==> exists x :: x in things && name(x) == b
      {
        if b in rest {
          var x :| x in things - {a} && name(x) == b;
        }
        if x :| x in things && name(x) == b {
          assert x == a || x in things - {a};
        }
      }
    }
  }

  lemma Together(a: set<Violation>, b: set<Violation>)
    requires a !! b
    ensures |a + b| == |a| + |b|
  {
  }

  lemma MismatchIsOff(s: Stock, key: Key)
    ensures key in Mismatches(s) <==> |RowsAt(s, key)| != Balance(s.ledger, key)
  {
    if RowsAt(s, key) != {} {
      var pg :| pg in RowsAt(s, key);
      assert PlaceOf(s, pg) == Some(key);
    }
  }

  lemma RowsWithoutSku(s: Stock) returns (r: set<Violation>)
    ensures |r| == |Unclassified(s)| && forall v :: v in r <==> v.RowWithoutSku? && Violates(s, v)
  {
    var name := x => RowWithoutSku(x);
    r := NamedOnce(Unclassified(s), name);
    forall v
      ensures v in r <==> v.RowWithoutSku? && Violates(s, v)
    {
      if v.RowWithoutSku? {
        assert name(v.pg) == v;
      }
    }
  }

  lemma RowsOfUnknownStatus(s: Stock) returns (r: set<Violation>)
    ensures |r| == |UnknownRows(s)| && forall v :: v in r <==> v.RowOfUnknownStatus? && Violates(s, v)
  {
    var name := x => RowOfUnknownStatus(x);
    r := NamedOnce(UnknownRows(s), name);
    forall v
      ensures v in r <==> v.RowOfUnknownStatus? && Violates(s, v)
    {
      if v.RowOfUnknownStatus? {
        assert name(v.pg) == v;
      }
    }
  }

  lemma BalancesOfUnknownStatus(s: Stock) returns (r: set<Violation>)
    ensures |r| == |UnknownBalances(s)| && forall v :: v in r <==> v.BalanceOfUnknownStatus? && Violates(s, v)
  {
    var name := x => BalanceOfUnknownStatus(x);
    r := NamedOnce(UnknownBalances(s), name);
    forall v
      ensures v in r <==> v.BalanceOfUnknownStatus? && Violates(s, v)
    {
      if v.BalanceOfUnknownStatus? {
        assert name(v.key) == v;
      }
    }
  }

  lemma CountsOff(s: Stock) returns (r: set<Violation>)
    ensures |r| == |Mismatches(s)| && forall v :: v in r <==> v.CountIsOff? && Violates(s, v)
  {
    var name := x => CountIsOff(x);
    r := NamedOnce(Mismatches(s), name);
    forall v
      ensures v in r <==> v.CountIsOff? && Violates(s, v)
    {
      if v.CountIsOff? {
        MismatchIsOff(s, v.key);
      }
      if v.CountIsOff? {
        assert name(v.key) == v;
      }
    }
  }

  lemma IllegalGroups(s: Stock) returns (r: set<Violation>)
    ensures |r| == |InvalidGroups(s.ledger.movements)| && forall v :: v in r <==> v.GroupIsIllegal? && Violates(s, v)
  {
    var name := x => GroupIsIllegal(x);
    r := NamedOnce(InvalidGroups(s.ledger.movements), name);
    forall v
      ensures v in r <==> v.GroupIsIllegal? && Violates(s, v)
    {
      if v.GroupIsIllegal? {
        assert name(v.g) == v;
      }
    }
  }

  lemma TailsOff(s: Stock) returns (r: set<Violation>)
    ensures |r| == |TailMismatches(s.ledger)| && forall v :: v in r <==> v.TailIsOff? && Violates(s, v)
  {
    var name := x => TailIsOff(x);
    r := NamedOnce(TailMismatches(s.ledger), name);
    forall v
      ensures v in r <==> v.TailIsOff? && Violates(s, v)
    {
      if v.TailIsOff? {
        assert name(v.key) == v;
      }
    }
  }

  lemma UnknownTypesAt(s: Stock) returns (r: set<Violation>)
    ensures |r| == |UnknownTypeAt(s.ledger.movements)| && forall v :: v in r <==> v.TypeIsUnknown? && Violates(s, v)
  {
    var name := x => TypeIsUnknown(x);
    r := NamedOnce(UnknownTypeAt(s.ledger.movements), name);
    forall v
      ensures v in r <==> v.TypeIsUnknown? && Violates(s, v)
    {
      if v.TypeIsUnknown? {
        assert name(v.i) == v;
      }
    }
  }

  /** The audit's number is the number of things that are wrong. */
  lemma EachCountedOnce(s: Stock) returns (all: set<Violation>)
    ensures |all| == Violations(s) && forall v :: v in all <==> Violates(s, v)
  {
    var a := RowsWithoutSku(s);
    var b := RowsOfUnknownStatus(s);
    var c := BalancesOfUnknownStatus(s);
    var d := CountsOff(s);
    var e := IllegalGroups(s);
    var f := TailsOff(s);
    var g := UnknownTypesAt(s);
    UnknownTypesCounted(s.ledger.movements);
    hide Violates, Unclassified, UnknownRows, UnknownBalances, Mismatches, InvalidGroups, TailMismatches, UnknownTypes, UnknownTypeAt;
    Together(a, b);
    Together(a + b, c);
    Together(a + b + c, d);
    Together(a + b + c + d, e);
    Together(a + b + c + d + e, f);
    Together(a + b + c + d + e + f, g);
    all := a + b + c + d + e + f + g;
  }

  // ---- what no violation means ----

  lemma {:induction false} TypesAreKnown(ms: seq<Movement>)
    ensures UnknownTypes(ms) == 0 <==> forall m :: m in ms ==> !m.movementType.OtherType?
  {
    if ms != [] {
      var n := |ms| - 1;
      TypesAreKnown(ms[..n]);
      assert ms == ms[..n] + [ms[n]];
    }
  }

  lemma {:induction false} MovementIsInGroup(ms: seq<Movement>, m: Movement)
    requires m in ms
    ensures m in Group(ms, m.operationKey, m.movementType)
  {
    var n := |ms| - 1;
    if m != ms[n] {
      assert ms == ms[..n] + [ms[n]];
      MovementIsInGroup(ms[..n], m);
    }
  }

  lemma NoInvalidGroups(ms: seq<Movement>)
    ensures InvalidGroups(ms) == {} <==> GroupsLegal(ms)
  {
    if InvalidGroups(ms) == {} {
      forall operationKey, t
        ensures GroupLegal(ms, operationKey, t)
      {
        LegalWhenNoneInvalid(ms, operationKey, t);
      }
    }
    if GroupsLegal(ms) {
      forall m | m in ms
        ensures LegalGroup(Group(ms, m.operationKey, m.movementType), m.movementType)
      {
        MovementIsInGroup(ms, m);
        assert GroupLegal(ms, m.operationKey, m.movementType);
      }
    }
  }

  lemma LegalWhenNoneInvalid(ms: seq<Movement>, operationKey: string, t: MovementType)
    requires InvalidGroups(ms) == {}
    ensures GroupLegal(ms, operationKey, t)
  {
    var g := Group(ms, operationKey, t);
    if g != [] {
      assert g[0] in ms && GroupName(g[0].operationKey, g[0].movementType) == GroupName(operationKey, t);
      assert GroupName(operationKey, t) in GroupNames(ms);
      assert GroupName(operationKey, t) !in InvalidGroups(ms);
    }
  }

  lemma NoMismatches(s: Stock)
    ensures Mismatches(s) == {} <==> CountsRows(s)
  {
    forall key
      ensures key in Mismatches(s) <==> |RowsAt(s, key)| != Balance(s.ledger, key)
    {
      if key !in RowKeys(s) && key !in s.ledger.balances {
        assert RowsAt(s, key) == {} by {
          forall pg | pg in s.inventory
            ensures pg !in RowsAt(s, key)
          {
            assert PlaceOf(s, pg).Some? ==> PlaceOf(s, pg).value in RowKeys(s);
          }
        }
      }
    }
  }

  lemma NoneUnclassified(s: Stock)
    ensures Unclassified(s) == {} && UnknownRows(s) == {} <==> Classified(s)
  {
    if Unclassified(s) == {} && UnknownRows(s) == {} {
      forall pg | pg in s.inventory
        ensures pg in s.devices && s.devices[pg].Some? && Known(s.inventory[pg])
      {
        assert pg !in Unclassified(s) && pg !in UnknownRows(s);
      }
    }
  }

  /** The last movement of every balance left what the balance says. */
  predicate TailsMatch(l: Ledger) {
    forall key :: key in l.balances ==> LastAfter(l.movements, key) == Some(l.balances[key])
  }

  lemma NoTailMismatches(l: Ledger)
    ensures TailMismatches(l) == {} <==> TailsMatch(l)
  {
    if TailMismatches(l) == {} {
      forall key | key in l.balances
        ensures LastAfter(l.movements, key) == Some(l.balances[key])
      {
        assert key !in TailMismatches(l);
      }
    }
  }

  lemma NoUnknownBalances(s: Stock)
    ensures UnknownBalances(s) == {} <==> forall key :: key in s.ledger.balances ==> Known(key.status)
  {
    if UnknownBalances(s) == {} {
      forall key | key in s.ledger.balances
        ensures Known(key.status)
      {
        assert key !in UnknownBalances(s);
      }
    }
  }

  /** What the audit establishes when it reports no violation. */
  ghost predicate Clean(s: Stock) {
    && Classified(s) && (forall key :: key in s.ledger.balances ==> Known(key.status))
    && CountsRows(s) && TailsMatch(s.ledger)
    && GroupsLegal(s.ledger.movements) && (forall m :: m in s.ledger.movements ==> !m.movementType.OtherType?)
  }

  /** The audit reports zero violations exactly when every one of its conditions holds everywhere. */
  lemma NoViolationsIffClean(s: Stock)
    ensures Violations(s) == 0 <==> Clean(s)
  {
    NoneUnclassified(s);
    NoUnknownBalances(s);
    NoMismatches(s);
    NoTailMismatches(s.ledger);
    NoInvalidGroups(s.ledger.movements);
    TypesAreKnown(s.ledger.movements);
  }

  lemma GoodIsClean(s: Stock)
    requires Good(s)
    ensures Clean(s)
  {
    forall key | key in s.ledger.balances
      ensures LastAfter(s.ledger.movements, key) == Some(s.ledger.balances[key])
    {
      assert KeyBalanced(s.ledger, key);
    }
  }

  /**
   All along a run the audit has nothing to report if and only if no row was created, removed or
   reclassified under a used key.
   */
  lemma {:induction false} AuditPassesIffKeysAreNew(actions: seq<Action>)
    ensures (forall n :: 0 <= n <= |actions| ==> Violations(Run(actions[..n])) == 0) <==> KeysAreNew(actions)
  {
    hide Violations, Run, KeysAreNew, Good, CountsRows;
    RunsStayGoodIff(actions);
    forall n | 0 <= n <= |actions|
      ensures Good(Run(actions[..n])) ==> Violations(Run(actions[..n])) == 0
      ensures Violations(Run(actions[..n])) == 0 ==> CountsRows(Run(actions[..n]))
    {
      GoodPasses(Run(actions[..n]));
    }
  }

  lemma GoodPasses(s: Stock)
    ensures Good(s) ==> Violations(s) == 0
    ensures Violations(s) == 0 ==> CountsRows(s)
  {
    hide Violations, Good;
    NoViolationsIffClean(s);
    if Good(s) {
      GoodIsClean(s);
    }
  }

  // ---- what the audit does not see, and what it reports wrongly ----

  /** The foreign key: a movement belongs to a balance that exists. */
  predicate Referenced(l: Ledger) {
    forall m :: m in l.movements ==> m.key in l.balances
  }

  predicate SumMatches(ms: seq<Movement>, key: Key) {
    SumOf(ms, key) == Tail(ms, key)
  }

  /** After n movements the sum of the deltas of every balance is its last after_quantity. */
  ghost predicate SumsMatch(ms: seq<Movement>, n: nat)
    requires n <= |ms|
  {
    forall key :: SumMatches(ms[..n], key)
  }

  /** One movement more keeps the sums right exactly when it adds its delta to what was there. */
  lemma SumsOneMore(ms: seq<Movement>, n: nat)
    requires n < |ms| && SumsMatch(ms, n)
    ensures SumsMatch(ms, n + 1) <==> ms[n].after == Tail(ms[..n], ms[n].key) + ms[n].delta
  {
    assert ms[..n + 1][..n] == ms[..n] && ms[..n + 1][n] == ms[n];
    forall key
      ensures SumOf(ms[..n + 1], key) == SumOf(ms[..n], key) + (if key == ms[n].key then ms[n].delta else 0)
      ensures Tail(ms[..n + 1], key) == (if key == ms[n].key then ms[n].after else Tail(ms[..n], key))
    {
    }
    assert SumMatches(ms[..n], ms[n].key);
    if SumsMatch(ms, n + 1) {
      assert SumMatches(ms[..n + 1], ms[n].key);
    }
    if ms[n].after == Tail(ms[..n], ms[n].key) + ms[n].delta {
      var longer := ms[..n + 1];
      forall key
        ensures SumMatches(longer, key)
      {
        assert SumMatches(ms[..n], key);
      }
    }
  }

  /**
   Movements that add up by themselves form chains exactly when after each of them every sum of
   deltas is the last after_quantity.
   */
  lemma ChainedIffSumsMatch(ms: seq<Movement>)
    ensures Chained(ms) <==>
              (forall n :: 0 <= n <= |ms| ==> SumsMatch(ms, n)) && (forall m :: m in ms ==> m.after == m.before + m.delta)
  {
    if Chained(ms) {
      forall n | 0 <= n <= |ms|
        ensures SumsMatch(ms, n)
      {
        ChainedSums(ms, n);
      }
      forall m | m in ms
        ensures m.after == m.before + m.delta
      {
        var i :| 0 <= i < |ms| && ms[i] == m;
        assert ChainedAt(ms, i);
      }
    }
    if (forall n :: 0 <= n <= |ms| ==> SumsMatch(ms, n)) && (forall m :: m in ms ==> m.after == m.before + m.delta) {
      forall i | 0 <= i < |ms|
        ensures ChainedAt(ms, i)
      {
        assert SumsMatch(ms, i) && SumsMatch(ms, i + 1);
        SumsOneMore(ms, i);
        assert ms[i] in ms;
      }
    }
  }

  lemma {:induction false} ChainedSums(ms: seq<Movement>, n: nat)
    requires n <= |ms| && Chained(ms)
    ensures SumsMatch(ms, n)
    decreases n
  {
    if n > 0 {
      ChainedSums(ms, n - 1);
      assert ChainedAt(ms, n - 1);
      SumsOneMore(ms, n - 1);
    }
  }

  lemma {:induction false} NoMovementsNoTail(ms: seq<Movement>, key: Key)
    requires forall m :: m in ms ==> m.key != key
    ensures LastAfter(ms, key) == None && SumOf(ms, key) == 0
  {
    if ms != [] {
      NoMovementsNoTail(ms[..|ms| - 1], key);
    }
  }

  /**
   The audit compares balances with the last movement, never with the sum of the movements. A ledger
   without violations is balanced exactly when the sums match at its end, and so whenever its
   movements chain up.
   */
  lemma CleanIsBalancedIffSumsMatch(s: Stock)
    requires Violations(s) == 0 && Referenced(s.ledger)
    ensures var ms := s.ledger.movements; Balanced(s.ledger) <==> SumsMatch(ms, |ms|)
    ensures Chained(s.ledger.movements) ==> Balanced(s.ledger)
  {
    var l := s.ledger;
    assert l.movements[..|l.movements|] == l.movements;
    CleanTails(s);
    forall key
      ensures KeyBalanced(l, key) <==> SumMatches(l.movements, key)
    {
      if key !in l.balances {
        NoMovementsNoTail(l.movements, key);
      }
    }
    if Chained(l.movements) {
      ChainedSums(l.movements, |l.movements|);
    }
  }

  lemma CleanTails(s: Stock)
    requires Violations(s) == 0
    ensures TailsMatch(s.ledger)
  {
    NoViolationsIffClean(s);
  }

  /** A ledger without violations whose sums do not match. */
  lemma CleanNeedNotBeBalanced()
    ensures exists s :: Violations(s) == 0 && Referenced(s.ledger) && !Balanced(s.ledger)
  {
    var key := Key(1, "HOLD");
    var m := Movement(key, "op", IN, InventoryCreated, Some("a"), 1, 1, 2, "S", None);
    var s := Stock(map["a" := Some(1), "b" := Some(1)], map["a" := "HOLD", "b" := "HOLD"], Ledger(map[key := 2], [m]));
    assert [m][..0] == [];
    assert SumOf([m], key) == 1 && LastAfter([m], key) == Some(2);
    assert !KeyBalanced(s.ledger, key);
    OneGroup(m);
    TwoRows(s, key);
    assert Clean(s);
    NoViolationsIffClean(s);
  }

  lemma OneGroup(m: Movement)
    requires m.movementType == InventoryCreated && m.delta == 1
    ensures GroupsLegal([m])
  {
    SingleIsLegal(m, InventoryCreated);
    forall operationKey, t
      ensures GroupLegal([] + [m], operationKey, t)
    {
      OneMovementLegal([], m, operationKey, t);
    }
    assert [] + [m] == [m];
  }

  lemma TwoRows(s: Stock, key: Key)
    requires key == Key(1, "HOLD") && s.ledger.balances == map[key := 2]
    requires s.devices == map["a" := Some(1), "b" := Some(1)] && s.inventory == map["a" := "HOLD", "b" := "HOLD"]
    ensures CountsRows(s) && Classified(s)
  {
    assert RowsAt(s, key) == {"a", "b"};
    forall k | k != key
      ensures RowsAt(s, k) == {}
    {
    }
    assert Known("HOLD");
  }

  lemma InvalidGroupIsViolation(s: Stock, g: GroupName)
    requires g in InvalidGroups(s.ledger.movements)
    ensures Violations(s) > 0
  {
    assert InvalidGroups(s.ledger.movements) != {};
  }

  /** A single movement of a type that takes two makes an invalid group. */
  lemma LoneReclassification(ms: seq<Movement>, m: Movement)
    requires m.movementType == SkuReclassification && Group(ms, m.operationKey, SkuReclassification) == []
    ensures GroupName(m.operationKey, SkuReclassification) in InvalidGroups(ms + [m])
  {
    GroupAppend(ms, m, m.operationKey, SkuReclassification);
    assert [] + [m] == [m] && m in ms + [m];
    assert GroupName(m.operationKey, m.movementType) in GroupNames(ms + [m]);
  }

  /** A reclassification of a row without a SKU. */
  lemma FirstClassification(s: Stock, pg: Pg, c: Context, catalog: Catalog, mustResolve: bool)
    requires pg in s.inventory && pg in s.devices && s.devices[pg].None?
    requires Reclassify(s, pg, c, catalog, mustResolve).Ok? && Find(s.ledger.movements, c.operationKey, NewSkuIn).None?
    ensures var after := Reclassify(s, pg, c, catalog, mustResolve).value;
            after.devices[pg].Some? && OnlyRow(s, after, pg) && after.inventory == s.inventory
            && after.ledger == Posted(s.ledger, Key(after.devices[pg].value, s.inventory[pg]), c, SkuReclassification, Some(pg), 1, NewSkuIn)
  {
  }

  /**
   Giving a row its first SKU through a reclassification posts a single movement, which the audit
   then reports as an incomplete reclassification, although the balances are right.
   */
  lemma FirstClassificationIsReported(s: Stock, pg: Pg, c: Context, catalog: Catalog, mustResolve: bool)
    requires pg in s.inventory && pg in s.devices && s.devices[pg].None?
    requires Reclassify(s, pg, c, catalog, mustResolve).Ok? && Find(s.ledger.movements, c.operationKey, NewSkuIn).None?
    requires Group(s.ledger.movements, c.operationKey, SkuReclassification) == []
    ensures Violations(Reclassify(s, pg, c, catalog, mustResolve).value) > 0
    ensures CountsRows(s) ==> CountsRows(Reclassify(s, pg, c, catalog, mustResolve).value)
  {
    FirstClassification(s, pg, c, catalog, mustResolve);
    var after := Reclassify(s, pg, c, catalog, mustResolve).value;
    LoneReclassification(s.ledger.movements, after.ledger.movements[|s.ledger.movements|]);
    InvalidGroupIsViolation(after, GroupName(c.operationKey, SkuReclassification));
    if CountsRows(s) {
      CountsFollow(s, after, pg);
    }
  }

  // ---- the loop over the rows ----

  lemma OneMore(all: set<Pg>, seen: set<Pg>, pg: Pg)
    requires pg !in seen
    ensures |all * (seen + {pg})| == |all * seen| + (if pg in all then 1 else 0)
  {
    if pg in all {
      assert all * (seen + {pg}) == all * seen + {pg};
    } else {
      assert all * (seen + {pg}) == all * seen;
    }
  }

  lemma InPlace(s: Stock, key: Key, pg: Pg)
    requires pg in s.inventory
    ensures pg in RowsAt(s, key) <==> PlaceOf(s, pg) == Some(key)
  {
  }

  /** Rows among `seen` with this SKU and status. */
  function SeenAt(s: Stock, seen: set<Pg>, key: Key): set<Pg> {
    RowsAt(s, key) * seen
  }

  ghost predicate Tallied(s: Stock, seen: set<Pg>, actual: map<Key, nat>) {
    forall key :: (if key in actual then actual[key] else 0) == |SeenAt(s, seen, key)|
  }

  lemma TallyOne(s: Stock, seen: set<Pg>, actual: map<Key, nat>, pg: Pg)
    requires Tallied(s, seen, actual) && pg in s.inventory && pg !in seen
    ensures var place := PlaceOf(s, pg);
            Tallied(s, seen + {pg}, if place.None? then actual
                                    else actual[place.value := (if place.value in actual then actual[place.value] else 0) + 1])
  {
    hide RowsAt, PlaceOf;
    forall key
      ensures |SeenAt(s, seen + {pg}, key)| == |SeenAt(s, seen, key)| + (if PlaceOf(s, pg) == Some(key) then 1 else 0)
    {
      InPlace(s, key, pg);
      OneMore(RowsAt(s, key), seen, pg);
    }
  }

  /** What the loop has counted after these rows. */
  ghost predicate Counted(s: Stock, seen: set<Pg>, actual: map<Key, nat>, unclassifiedCount: nat, unknownStatusCount: nat) {
    && Tallied(s, seen, actual)
    && unclassifiedCount == |Unclassified(s) * seen|
    && unknownStatusCount == |UnknownRows(s) * seen|
  }

  lemma CountsStart(s: Stock)
    ensures Counted(s, {}, map[], 0, 0)
  {
    assert Unclassified(s) * {} == {} && UnknownRows(s) * {} == {};
    assert forall key :: SeenAt(s, {}, key) == {};
  }

  lemma CountsOne(s: Stock, seen: set<Pg>, actual: map<Key, nat>, u: nat, k: nat, pg: Pg)
    requires Counted(s, seen, actual, u, k) && pg in s.inventory && pg !in seen
    ensures var unknown := if Known(s.inventory[pg]) then k else k + 1;
            if pg !in s.devices || s.devices[pg].None? then Counted(s, seen + {pg}, actual, u + 1, unknown)
            else
              var key := Key(s.devices[pg].value, s.inventory[pg]);
              Counted(s, seen + {pg}, actual[key := (if key in actual then actual[key] else 0) + 1], u, unknown)
  {
    TallyOne(s, seen, actual, pg);
    OneMore(Unclassified(s), seen, pg);
    OneMore(UnknownRows(s), seen, pg);
  }

  lemma CountsEnd(s: Stock, actual: map<Key, nat>, u: nat, k: nat)
    requires Counted(s, s.inventory.Keys, actual, u, k)
    ensures forall key :: (if key in actual then actual[key] else 0) == |RowsAt(s, key)|
    ensures u == |Unclassified(s)| && k == |UnknownRows(s)|
  {
    assert Unclassified(s) * s.inventory.Keys == Unclassified(s) && UnknownRows(s) * s.inventory.Keys == UnknownRows(s);
    assert forall key :: SeenAt(s, s.inventory.Keys, key) == RowsAt(s, key);
  }

  /** One turn of the counting loop. */
  method CountRow(s: Stock, ghost seen: set<Pg>, actual: map<Key, nat>, unclassified: nat, unknown: nat, pg: Pg)
    returns (next: map<Key, nat>, unclassifiedCount: nat, unknownStatusCount: nat)
    requires Counted(s, seen, actual, unclassified, unknown) && pg in s.inventory && pg !in seen
    ensures Counted(s, seen + {pg}, next, unclassifiedCount, unknownStatusCount)
  {
    CountsOne(s, seen, actual, unclassified, unknown, pg);
    hide Counted;
    next, unclassifiedCount, unknownStatusCount := actual, unclassified, unknown;
    if !Known(s.inventory[pg]) {
      unknownStatusCount := unknownStatusCount + 1;
    }
    if pg !in s.devices || s.devices[pg].None? {
      unclassifiedCount := unclassifiedCount + 1;
    } else {
      var key := Key(s.devices[pg].value, s.inventory[pg]);
      next := next[key := (if key in next then next[key] else 0) + 1];
    }
  }

  /** Counts the rows by SKU and status, the unclassified ones and those of unknown status. */
  method CountRows(s: Stock) returns (actual: map<Key, nat>, unclassifiedCount: nat, unknownStatusCount: nat)
    ensures forall key :: (if key in actual then actual[key] else 0) == |RowsAt(s, key)|
    ensures unclassifiedCount == |Unclassified(s)| && unknownStatusCount == |UnknownRows(s)|
  {
    hide Counted, RowsAt;
    actual, unclassifiedCount, unknownStatusCount := map[], 0, 0;
    var left := s.inventory.Keys;
    ghost var seen: set<Pg> := {};
    CountsStart(s);
    while left != {}
      invariant left + seen == s.inventory.Keys && left !! seen
      invariant Counted(s, seen, actual, unclassifiedCount, unknownStatusCount)
      decreases left
    {
      var pg :| pg in left;
      actual, unclassifiedCount, unknownStatusCount := CountRow(s, seen, actual, unclassifiedCount, unknownStatusCount, pg);
      left, seen := left - {pg}, seen + {pg};
    }
    assert seen == s.inventory.Keys;
    CountsEnd(s, actual, unclassifiedCount, unknownStatusCount);
  }

  /** The whole audit. */
  method Audit(s: Stock) returns (violations: nat)
    ensures violations == Violations(s)
    ensures violations == 0 <==> Clean(s)
  {
    var actual, unclassifiedCount, unknownStatusCount := CountRows(s);
    var unknown := unknownStatusCount + |set key | key in s.ledger.balances && !Known(key.status)|;
    var mismatches := set key | key in actual.Keys + s.ledger.balances.Keys
                                && (if key in actual then actual[key] else 0) != Balance(s.ledger, key);
    assert mismatches == Mismatches(s) by {
      forall key
        ensures key in mismatches <==> key in Mismatches(s)
      {
        SameMismatch(s, actual, key);
      }
    }
    violations := unclassifiedCount + unknown + |mismatches|
                  + |InvalidGroups(s.ledger.movements)| + |TailMismatches(s.ledger)| + UnknownTypes(s.ledger.movements);
    NoViolationsIffClean(s);
  }

  lemma SameMismatch(s: Stock, actual: map<Key, nat>, key: Key)
    requires forall k :: (if k in actual then actual[k] else 0) == |RowsAt(s, k)|
    ensures (key in actual.Keys + s.ledger.balances.Keys && (if key in actual then actual[key] else 0) != Balance(s.ledger, key))
            <==> key in Mismatches(s)
  {
    if RowsAt(s, key) != {} {
      var pg :| pg in RowsAt(s, key);
      assert PlaceOf(s, pg) == Some(key);
    }
  }
}
