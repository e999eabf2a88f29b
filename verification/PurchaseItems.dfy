/** Reading the items of a purchase confirmation: bad fields refuse the request, and the last item for a device counts. */
module PurchaseItems {
  import opened Common

  type Pg = string

  /** A field as its pattern leaves it. */
  datatype Field = Blank | Malformed | Number(n: nat)

  /** One element of the items array; the device number is trimmed and in upper case. */
  datatype Row = NotAnObject | Row(pg: Pg, price: Option<nat>, inboundId: Field, revision: Field, rateId: Field, rateRevision: Field)

  datatype Item = Item(pg: Pg, inboundId: nat, revision: nat, price: nat, rateId: Option<nat>, rateRevision: Option<nat>)

  datatype ParseError = TargetInvalid | RateEvidenceInvalid

  function PositiveId(f: Field, error: ParseError): Result<Option<nat>, ParseError> {
    match f
    case Blank => Ok(None)
    case Malformed => Err(error)
    case Number(n) => if n == 0 then Err(error) else Ok(Some(n))
  }

  function OptionalRevision(f: Field): Result<Option<nat>, ParseError> {
    match f
    case Blank => Ok(None)
    case Malformed => Err(RateEvidenceInvalid)
    case Number(n) => Ok(Some(n))
  }

  /** A row without a device or a readable price is skipped, but only after its target was checked. */
  function ReadRow(row: Row): Result<Option<Item>, ParseError> {
    if row.NotAnObject? then Ok(None)
    else
      var id := PositiveId(row.inboundId, TargetInvalid);
      if id.Err? then Err(id.error)
      else if !row.revision.Number? then Err(TargetInvalid)
      else if row.pg == "" || row.price.None? then Ok(None)
      else if id.value.None? then Err(TargetInvalid)
      else
        var rateId := PositiveId(row.rateId, RateEvidenceInvalid);
        if rateId.Err? then Err(rateId.error)
        else
          var rateRevision := OptionalRevision(row.rateRevision);
          if rateRevision.Err? then Err(rateRevision.error)
          else Ok(Some(Item(row.pg, id.value.value, row.revision.n, row.price.value, rateId.value, rateRevision.value)))
  }

  /** The items of the rows, or the error of the first bad one. */
  function ReadRows(rows: seq<Row>): Result<seq<Item>, ParseError> {
    if rows == [] then Ok([])
    else
      var before := ReadRows(rows[..|rows| - 1]);
      if before.Err? then before
      else
        var row := ReadRow(rows[|rows| - 1]);
        if row.Err? then Err(row.error)
        else Ok(before.value + if row.value.Some? then [row.value.value] else [])
  }

  predicate RatePaired(item: Item) {
    item.rateId.None? == item.rateRevision.None?
  }

  // ---- one item per device ----

  /** The devices in the order of their first item. */
  function Firsts(items: seq<Item>): (r: seq<Pg>)
    ensures forall pg :: pg in r <==> exists k :: 0 <= k < |items| && items[k].pg == pg
    ensures forall i, j :: 0 <= i < j < |r| ==> r[i] != r[j]
  {
    if items == [] then []
    else
      var n := |items| - 1;
      var before := Firsts(items[..n]);
      assert forall k :: 0 <= k < |items| ==> k == n || items[k] == items[..n][k];
      if items[n].pg in before then before else before + [items[n].pg]
  }

  /** The last item of a device. */
  function LastOf(items: seq<Item>, pg: Pg): (r: Item)
    requires exists k :: 0 <= k < |items| && items[k].pg == pg
    ensures exists k :: 0 <= k < |items| && items[k] == r && r.pg == pg && forall j :: k < j < |items| ==> items[j].pg != pg
  {
    var n := |items| - 1;
    if items[n].pg == pg then items[n]
    else
      assert forall k :: 0 <= k < n ==> items[k] == items[..n][k];
      LastOf(items[..n], pg)
  }

  function OnePerDevice(items: seq<Item>): (r: seq<Item>)
    ensures |r| == |Firsts(items)| && forall i :: 0 <= i < |r| ==> r[i].pg == Firsts(items)[i]
  {
    var order := Firsts(items);
    seq(|order|, i requires 0 <= i < |order| => assert order[i] in order; LastOf(items, order[i]))
  }

  predicate DistinctDevices(items: seq<Item>) {
    forall i, j :: 0 <= i < j < |items| ==> items[i].pg != items[j].pg
  }

  predicate IsLast(items: seq<Item>, k: int) {
    0 <= k < |items| && forall j :: k < j < |items| ==> items[j].pg != items[k].pg
  }

  /** Every device of the request is confirmed once, as its last item says. */
  lemma LastItemCounts(items: seq<Item>)
    ensures DistinctDevices(OnePerDevice(items))
    ensures forall item :: item in OnePerDevice(items) <==> exists k :: IsLast(items, k) && items[k] == item
  {
    var order, kept := Firsts(items), OnePerDevice(items);
    forall i | 0 <= i < |kept|
      ensures exists k :: IsLast(items, k) && items[k] == kept[i]
    {
      assert order[i] in order && kept[i] == LastOf(items, order[i]);
      var m :| 0 <= m < |items| && items[m] == kept[i] && forall j :: m < j < |items| ==> items[j].pg != order[i];
      assert IsLast(items, m);
    }
    forall k | IsLast(items, k)
      ensures items[k] in kept
    {
      assert items[k].pg in order;
      var i :| 0 <= i < |order| && order[i] == items[k].pg;
      var m :| IsLast(items, m) && items[m] == kept[i];
      assert m == k;
    }
  }

  function Parsed(rows: seq<Row>): Result<seq<Item>, ParseError> {
    var items := ReadRows(rows);
    if items.Err? then items
    else if exists item :: item in items.value && !RatePaired(item) then Err(RateEvidenceInvalid)
    else Ok(OnePerDevice(items.value))
  }

  /** `rows.map(...).filter(Boolean)`: the items, or the exception of the first bad row. */
  method ReadItems(rows: seq<Row>) returns (r: Result<seq<Item>, ParseError>)
    ensures r == ReadRows(rows)
  {
    hide ReadRow;
    var items: seq<Item> := [];
    var k := 0;
    while k < |rows|
      invariant 0 <= k <= |rows| && ReadRows(rows[..k]) == Ok(items)
    {
      assert rows[..k + 1][..k] == rows[..k];
      var row := ReadRow(rows[k]);
      if row.Err? {
        ErrorStays(rows, k + 1);
        return Err(row.error);
      }
      assert ReadRows(rows[..k + 1]) == Ok(items + if row.value.Some? then [row.value.value] else []);
      items := items + if row.value.Some? then [row.value.value] else [];
      k := k + 1;
    }
    assert rows[..k] == rows;
    return Ok(items);
  }

  method AllPaired(items: seq<Item>) returns (paired: bool)
    ensures paired <==> forall item :: item in items ==> RatePaired(item)
  {
    var k := 0;
    while k < |items|
      invariant 0 <= k <= |items| && forall item :: item in items[..k] ==> RatePaired(item)
    {
      if !RatePaired(items[k]) {
        return false;
      }
      k := k + 1;
    }
    return true;
  }

  /** `new Map(items.map(item => [item.pgNo, item])).values()`: a later item replaces an earlier one in its place. */
  method KeepLast(items: seq<Item>) returns (kept: seq<Item>)
    ensures kept == OnePerDevice(items)
  {
    var order: seq<Pg>, byPg: map<Pg, Item> := [], map[];
    var k := 0;
    while k < |items|
      invariant 0 <= k <= |items| && order == Firsts(items[..k])
      invariant forall pg :: pg in byPg <==> pg in order
      invariant forall pg :: pg in order ==> byPg[pg] == LastOf(items[..k], pg)
    {
      assert items[..k + 1][..k] == items[..k];
      if items[k].pg !in order {
        order := order + [items[k].pg];
      }
      byPg := byPg[items[k].pg := items[k]];
      k := k + 1;
    }
    assert items[..k] == items;
    kept := seq(|order|, i requires 0 <= i < |order| => byPg[order[i]]);
  }

  /** The rows in, one item per device out. */
  method ParseItems(rows: seq<Row>) returns (r: Result<seq<Item>, ParseError>)
    ensures r == Parsed(rows)
  {
    var items := ReadItems(rows);
    if items.Err? {
      return items;
    }
    var paired := AllPaired(items.value);
    if !paired {
      return Err(RateEvidenceInvalid);
    }
    var kept := KeepLast(items.value);
    return Ok(kept);
  }

  lemma {:induction false} ErrorStays(rows: seq<Row>, k: nat)
    requires k <= |rows| && ReadRows(rows[..k]).Err?
    ensures ReadRows(rows) == ReadRows(rows[..k])
  {
    if k < |rows| {
      assert rows[..|rows| - 1][..k] == rows[..k];
      ErrorStays(rows[..|rows| - 1], k);
    } else {
      assert rows[..k] == rows;
    }
  }
}
