/**
 The device list: rows ordered by null rank, sort value in the chosen direction and descending
 device id, read page by page through a cursor whose sort value went through a text codec.
 */
module DeviceList {
  import opened Common
  import opened Keyset

  datatype Pos<V> = Pos(nullRank: nat, value: V, deviceId: nat)

  /** How a list is sorted and how a cursor value comes back: the value order, the direction, the codec. */
  datatype Spec<!V> = Spec(less: (V, V) -> bool, ascending: bool, codec: V -> V)

  type Device<V, D> = Row<Pos<V>, D>

  /** ORDER BY nullRank ASC, expression <direction>, device_id DESC. */
  predicate Precedes<V(==)>(spec: Spec<V>, a: Pos<V>, b: Pos<V>) {
    a.nullRank < b.nullRank
    || (a.nullRank == b.nullRank
        && ((if spec.ascending then spec.less(a.value, b.value) else spec.less(b.value, a.value))
            || (a.value == b.value && a.deviceId > b.deviceId)))
  }

  function Order<V(==)>(spec: Spec<V>): (Pos<V>, Pos<V>) -> bool {
    (a: Pos<V>, b: Pos<V>) => Precedes(spec, a, b)
  }

  function Cursor<V>(spec: Spec<V>, last: Pos<V>): Pos<V> {
    last.(value := spec.codec(last.value))
  }

  /** The predicate the cursor adds to WHERE. */
  predicate AfterCursor<V(==)>(spec: Spec<V>, cursor: Pos<V>, r: Pos<V>) {
    r.nullRank > cursor.nullRank
    || (r.nullRank == cursor.nullRank
        && ((if spec.ascending then spec.less(cursor.value, r.value) else spec.less(r.value, cursor.value))
            || (r.value == cursor.value && r.deviceId < cursor.deviceId)))
  }

  function Remaining<V(==, !new), D(!new)>(spec: Spec<V>, rows: seq<Device<V, D>>, cursor: Option<Pos<V>>): seq<Device<V, D>> {
    match cursor
    case None => rows
    case Some(c) => Select(rows, (r: Device<V, D>) => AfterCursor(spec, c, r.pos))
  }

  function Listing<V(==, !new), D(!new)>(spec: Spec<V>, rows: seq<Device<V, D>>): seq<Device<V, D>> {
    Sort(rows, Order(spec))
  }

  /** What a request finds, in order, before the limit; `rows` are the rows that match the filters. */
  function Found<V(==, !new), D(!new)>(spec: Spec<V>, rows: seq<Device<V, D>>, cursor: Option<Pos<V>>): seq<Device<V, D>> {
    Sort(Remaining(spec, rows, cursor), Order(spec))
  }

  /** Keep what the limit allows; the next cursor is the last row kept, sent through the codec. */
  function Finish<V, D>(spec: Spec<V>, found: seq<Device<V, D>>, limit: nat): Answer<Pos<V>, D, Pos<V>>
    requires limit > 0
  {
    var page := Cut(Take(found, limit + 1), limit);
    Answer(page.items, page.hasMore, if page.next.Some? then Some(Cursor(spec, page.next.value)) else None)
  }

  function ReadPage<V(==, !new), D(!new)>(spec: Spec<V>, rows: seq<Device<V, D>>, cursor: Option<Pos<V>>, limit: nat)
    : Answer<Pos<V>, D, Pos<V>>
    requires limit > 0
  {
    Finish(spec, Found(spec, rows, cursor), limit)
  }

  /** The table does not change between requests. */
  function ListReader<V(==, !new), D(!new)>(spec: Spec<V>, rows: seq<Device<V, D>>): Reader<Pos<V>, D, Pos<V>> {
    (n: nat, cursor, limit: nat) => if limit == 0 then Answer([], false, None) else ReadPage(spec, rows, cursor, limit)
  }

  /** Every row read by following nextCursor from the first page with the given page sizes. */
  function Pages<V(==, !new), D(!new)>(spec: Spec<V>, rows: seq<Device<V, D>>, limits: seq<nat>): seq<Device<V, D>>
    requires Positive(limits)
  {
    Follow(ListReader(spec, rows), 0, None, limits)
  }

  lemma FinishAt<V, D>(spec: Spec<V>, all: seq<Device<V, D>>, i: nat, limit: nat)
    requires limit > 0 && i <= |all|
    ensures Finish(spec, all[i..], limit)
            == AnswerAt(all, i, limit, if i + limit <= |all| then Some(Cursor(spec, all[i + limit - 1].pos)) else None)
  {
    CutOfList(all[i..], limit);
  }

  lemma OrderIsTotal<V(!new)>(spec: Spec<V>)
    requires StrictTotal(spec.less)
    ensures StrictTotal(Order(spec))
  {
    forall x: Pos<V>, y: Pos<V>, z: Pos<V>
      ensures !Precedes(spec, x, x)
      ensures Precedes(spec, x, y) && Precedes(spec, y, z) ==> Precedes(spec, x, z)
      ensures x != y ==> Precedes(spec, x, y) || Precedes(spec, y, x)
    {
      ValueOrder(spec, x.value, y.value, z.value);
    }
  }

  lemma ValueOrder<V(!new)>(spec: Spec<V>, a: V, b: V, c: V)
    requires StrictTotal(spec.less)
    ensures !spec.less(a, a)
    ensures spec.less(a, b) && spec.less(b, c) ==> spec.less(a, c)
    ensures spec.less(c, b) && spec.less(b, a) ==> spec.less(c, a)
    ensures a != b ==> spec.less(a, b) || spec.less(b, a)
  {
  }

  /** A page cut after row i of the list leads to exactly the rows that follow it. */
  ghost predicate CutOk<V(!new), D(!new)>(spec: Spec<V>, rows: seq<Device<V, D>>, i: nat)
    requires i < |Listing(spec, rows)|
  {
    var last := Listing(spec, rows)[i].pos;
    forall r :: r in rows ==> (AfterCursor(spec, Cursor(spec, last), r.pos) <==> Order(spec)(last, r.pos))
  }

  lemma CutResumes<V(!new), D(!new)>(spec: Spec<V>, rows: seq<Device<V, D>>, i: nat)
    requires StrictTotal(spec.less) && Unique(rows) && i < |Listing(spec, rows)| && CutOk(spec, rows, i)
    ensures Found(spec, rows, Some(Cursor(spec, Listing(spec, rows)[i].pos))) == Listing(spec, rows)[i + 1..]
  {
    OrderIsTotal(spec);
    var c := Cursor(spec, Listing(spec, rows)[i].pos);
    RestAfter(rows, Order(spec), i, (r: Device<V, D>) => AfterCursor(spec, c, r.pos));
  }

  /** The cursors of a reading, by the number of rows read. */
  function Cursors<V(==, !new), D(!new)>(spec: Spec<V>, rows: seq<Device<V, D>>): (r: seq<Option<Pos<V>>>)
    ensures |r| == |Listing(spec, rows)| + 1 && r[0] == None
    ensures forall j :: 0 < j < |r| ==> r[j] == Some(Cursor(spec, Listing(spec, rows)[j - 1].pos))
  {
    [None] + seq(|Listing(spec, rows)|, i requires 0 <= i < |Listing(spec, rows)| => Some(Cursor(spec, Listing(spec, rows)[i].pos)))
  }

  /** The request after i rows finds the rows that follow them. */
  lemma FoundAfter<V(!new), D(!new)>(spec: Spec<V>, rows: seq<Device<V, D>>, i: nat)
    requires StrictTotal(spec.less) && Unique(rows) && (i < |Listing(spec, rows)| || i == 0)
    requires i > 0 ==> CutOk(spec, rows, i - 1)
    ensures Found(spec, rows, Cursors(spec, rows)[i]) == Listing(spec, rows)[i..]
  {
    if i > 0 {
      CutResumes(spec, rows, i - 1);
    } else {
      assert Listing(spec, rows)[0..] == Listing(spec, rows);
    }
  }

  lemma ReadingAnswers<V(!new), D(!new)>(spec: Spec<V>, rows: seq<Device<V, D>>, n: nat, i: nat, limit: nat)
    requires StrictTotal(spec.less) && Unique(rows) && limit > 0
    requires i < |Listing(spec, rows)| || i == 0
    requires i > 0 ==> CutOk(spec, rows, i - 1)
    ensures Answers(ListReader(spec, rows), Listing(spec, rows), Cursors(spec, rows), n, i, limit)
  {
    FoundAfter(spec, rows, i);
    hide Unique, StrictTotal, Found, Listing, CutOk, Finish, AnswerAt;
    FinishAt(spec, Listing(spec, rows), i, limit);
  }

  lemma CutsOkMeansPagesAreTheList<V(!new), D(!new)>(spec: Spec<V>, rows: seq<Device<V, D>>, limits: seq<nat>)
    requires StrictTotal(spec.less) && Unique(rows) && Positive(limits)
    requires forall i :: 0 <= i < |Listing(spec, rows)| - 1 ==> CutOk(spec, rows, i)
    ensures Pages(spec, rows, limits) == Take(Listing(spec, rows), Sum(limits))
  {
    var all, read, cursors := Listing(spec, rows), ListReader(spec, rows), Cursors(spec, rows);
    forall n: nat, i, limit | (0 <= i < |all| || i == 0) && limit > 0
      ensures Answers(read, all, cursors, n, i, limit)
    {
      ReadingAnswers(spec, rows, n, i, limit);
    }
    FollowReadsOn(read, all, cursors, 0, 0, limits);
    assert all[0..] == all;
  }

  /**
   Paging refines sorting exactly when every cut is sound: then, whatever the page sizes, the
   pages are the sorted list of all matching rows, each row once; otherwise some choice of two
   page sizes goes wrong.
   */
  lemma PagesAreTheListIffCutsOk<V(!new), D(!new)>(spec: Spec<V>, rows: seq<Device<V, D>>)
    requires StrictTotal(spec.less) && Unique(rows)
    ensures (forall limits :: Positive(limits) ==> Pages(spec, rows, limits) == Take(Listing(spec, rows), Sum(limits)))
            <==> (forall i :: 0 <= i < |Listing(spec, rows)| - 1 ==> CutOk(spec, rows, i))
  {
    var all := Listing(spec, rows);
    if forall i :: 0 <= i < |all| - 1 ==> CutOk(spec, rows, i) {
      forall limits | Positive(limits)
        ensures Pages(spec, rows, limits) == Take(all, Sum(limits))
      {
        CutsOkMeansPagesAreTheList(spec, rows, limits);
      }
    }
    if forall limits :: Positive(limits) ==> Pages(spec, rows, limits) == Take(all, Sum(limits)) {
      forall i | 0 <= i < |all| - 1
        ensures CutOk(spec, rows, i)
      {
        TwoPagesRightMeansCutOk(spec, rows, i);
      }
    }
  }

  lemma WholeRest<V(!new), D(!new)>(spec: Spec<V>, rows: seq<Device<V, D>>, cursor: Pos<V>)
    requires rows != []
    ensures ReadPage(spec, rows, Some(cursor), |rows|) == Answer(Found(spec, rows, Some(cursor)), false, None)
  {
    SelectShrinks(rows, (r: Device<V, D>) => AfterCursor(spec, cursor, r.pos));
  }

  lemma TwoPages<V(!new), D(!new)>(spec: Spec<V>, rows: seq<Device<V, D>>, i: nat)
    requires i < |Listing(spec, rows)| - 1
    ensures var cursor := Some(Cursor(spec, Listing(spec, rows)[i].pos));
            Pages(spec, rows, [i + 1, |rows|]) == Listing(spec, rows)[..i + 1] + Found(spec, rows, cursor)
  {
    var read, all := ListReader(spec, rows), Listing(spec, rows);
    var cursor := Cursor(spec, all[i].pos);
    assert all[0..] == all;
    FinishAt(spec, all, 0, i + 1);
    WholeRest(spec, rows, cursor);
    var limits := [i + 1, |rows|];
    assert limits[1..] == [|rows|];
    assert read(0, None, i + 1) == Answer(all[..i + 1], true, Some(cursor));
    assert Follow(read, 1, Some(cursor), [|rows|]) == Found(spec, rows, Some(cursor)) + [];
  }

  lemma TwoPagesRightMeansCutOk<V(!new), D(!new)>(spec: Spec<V>, rows: seq<Device<V, D>>, i: nat)
    requires StrictTotal(spec.less) && Unique(rows) && i < |Listing(spec, rows)| - 1
    requires forall limits :: Positive(limits) ==> Pages(spec, rows, limits) == Take(Listing(spec, rows), Sum(limits))
    ensures CutOk(spec, rows, i)
  {
    var all := Listing(spec, rows);
    var cursor := Some(Cursor(spec, all[i].pos));
    var rest := Found(spec, rows, cursor);
    TwoPages(spec, rows, i);
    var limits := [i + 1, |rows|];
    assert Positive(limits) && limits[1..] == [|rows|] && Sum(limits) >= |all|;
    assert all[..i + 1] + rest == all;
    assert rest == all[i + 1..];
    OrderIsTotal(spec);
    SortSorted(rows, Order(spec));
    forall r | r in rows
      ensures AfterCursor(spec, Cursor(spec, all[i].pos), r.pos) <==> Order(spec)(all[i].pos, r.pos)
    {
      MembersAfter(all, Order(spec), i, r);
      assert r in rest <==> r in Remaining(spec, rows, cursor);
    }
  }

  /**
   Text and number sorts: their cursor values come back as they were sent, so in either
   direction and with any page sizes the pages are the sorted list, each matching row once.
   */
  lemma ExactCursorPagesAreTheList<V(!new), D(!new)>(spec: Spec<V>, rows: seq<Device<V, D>>, limits: seq<nat>)
    requires StrictTotal(spec.less) && Unique(rows) && Positive(limits)
    requires forall r :: r in rows ==> spec.codec(r.pos.value) == r.pos.value
    ensures Pages(spec, rows, limits) == Take(Listing(spec, rows), Sum(limits))
    ensures Sorted(Listing(spec, rows), Order(spec)) && |Listing(spec, rows)| == |rows|
    ensures forall r :: r in Listing(spec, rows) <==> r in rows
  {
    OrderIsTotal(spec);
    SortSorted(rows, Order(spec));
    forall i | 0 <= i < |Listing(spec, rows)| - 1
      ensures CutOk(spec, rows, i)
    {
      assert Listing(spec, rows)[i] in rows;
    }
    PagesAreTheListIffCutsOk(spec, rows);
  }

  /**
   The list holds every matching row once: rows with a value before rows without one, by value in the
   direction asked for, and devices of one value by descending id.
   */
  lemma ListingIsOrdered<V(!new), D(!new)>(spec: Spec<V>, rows: seq<Device<V, D>>, i: nat, j: nat)
    requires StrictTotal(spec.less) && Unique(rows) && i < j < |Listing(spec, rows)|
    ensures |Listing(spec, rows)| == |rows| && forall r :: r in Listing(spec, rows) <==> r in rows
    ensures var a, b := Listing(spec, rows)[i].pos, Listing(spec, rows)[j].pos;
            && a.nullRank <= b.nullRank
            && (a.nullRank == b.nullRank && a.value != b.value ==> if spec.ascending then spec.less(a.value, b.value) else spec.less(b.value, a.value))
            && (a.nullRank == b.nullRank && a.value == b.value ==> a.deviceId > b.deviceId)
  {
    OrderIsTotal(spec);
    SortSorted(rows, Order(spec));
    var a, b := Listing(spec, rows)[i].pos, Listing(spec, rows)[j].pos;
    assert Order(spec)(a, b);
    if a.nullRank == b.nullRank {
      ValueOrder(spec, a.value, b.value, a.value);
    }
  }

  // ---- the updatedAt sort: stored to the millisecond, sent as a time of whole seconds ----

  const SECOND := 1000

  function WholeSecond(t: int): int {
    t / SECOND * SECOND
  }

  function Before(a: int, b: int): bool {
    a < b
  }

  function UpdatedAt(ascending: bool): Spec<int> {
    Spec(Before, ascending, WholeSecond)
  }

  /**
   What the data must look like for updatedAt paging to be right. Ascending: every row that
   another follows was stored at a whole second. Descending: a row that follows another of the
   same second was stored exactly at that second, under a smaller device id.
   */
  ghost predicate SafeForUpdatedAt<D>(ascending: bool, rows: seq<Device<int, D>>) {
    forall a, r :: a in rows && r in rows && Order(UpdatedAt(ascending))(a.pos, r.pos) ==> SafePair(ascending, a.pos, r.pos)
  }

  /** The order and the cursor predicate of one pair of rows, in plain arithmetic. */
  lemma UpdatedAtPair(ascending: bool, a: Pos<int>, r: Pos<int>)
    requires a.nullRank == 0 && r.nullRank == 0
    ensures var spec := UpdatedAt(ascending);
            && (Order(spec)(a, r) <==> (if ascending then a.value < r.value else r.value < a.value)
                                       || (a.value == r.value && a.deviceId > r.deviceId))
            && (AfterCursor(spec, Cursor(spec, a), r) <==>
                  (if ascending then WholeSecond(a.value) < r.value else r.value < WholeSecond(a.value))
                  || (r.value == WholeSecond(a.value) && r.deviceId < a.deviceId))
  {
  }

  lemma WholeSecondFacts(a: int, r: int)
    ensures WholeSecond(a) <= a < WholeSecond(a) + SECOND
    ensures WholeSecond(a) <= r <= a ==> WholeSecond(r) == WholeSecond(a)
    ensures WholeSecond(a) == WholeSecond(r) ==> WholeSecond(a) <= r
  {
  }

  /** The demand a cut after row `a` makes on a row `r` that follows it. */
  predicate SafePair(ascending: bool, a: Pos<int>, r: Pos<int>) {
    if ascending then a.value == WholeSecond(a.value)
    else WholeSecond(a.value) == WholeSecond(r.value) ==> r.value == WholeSecond(r.value) && r.deviceId < a.deviceId
  }

  /** The cut treats r as it should, given that another row follows a in the ascending case. */
  lemma PairCut(ascending: bool, a: Pos<int>, r: Pos<int>)
    requires a.nullRank == 0 && r.nullRank == 0
    ensures var spec := UpdatedAt(ascending);
            var right := AfterCursor(spec, Cursor(spec, a), r) <==> Order(spec)(a, r);
            && (ascending && a.value == WholeSecond(a.value) ==> right)
            && (ascending && a == r && a.value != WholeSecond(a.value) ==> !right)
            && (!ascending && Order(spec)(a, r) ==> (right <==> SafePair(false, a, r)))
            && (!ascending && !Order(spec)(a, r) ==> right)
  {
    UpdatedAtPair(ascending, a, r);
    WholeSecondFacts(a.value, r.value);
    WholeSecondFacts(r.value, a.value);
  }

  lemma UpdatedAtCut<D(!new)>(ascending: bool, rows: seq<Device<int, D>>, i: nat)
    requires forall r :: r in rows ==> r.pos.nullRank == 0
    requires i < |Listing(UpdatedAt(ascending), rows)|
    ensures var spec := UpdatedAt(ascending);
            var a := Listing(spec, rows)[i];
            CutOk(spec, rows, i) <==>
              if ascending then a.pos.value == WholeSecond(a.pos.value)
              else forall r :: r in rows && Order(spec)(a.pos, r.pos) ==> SafePair(false, a.pos, r.pos)
  {
    var spec := UpdatedAt(ascending);
    var a := Listing(spec, rows)[i];
    assert a in rows;
    PairCut(ascending, a.pos, a.pos);
    forall r | r in rows
      ensures var right := AfterCursor(spec, Cursor(spec, a.pos), r.pos) <==> Order(spec)(a.pos, r.pos);
              && (ascending && a.pos.value == WholeSecond(a.pos.value) ==> right)
              && (!ascending && Order(spec)(a.pos, r.pos) ==> (right <==> SafePair(false, a.pos, r.pos)))
              && (!ascending && !Order(spec)(a.pos, r.pos) ==> right)
    {
      PairCut(ascending, a.pos, r.pos);
    }
  }

  lemma SafeMeansCutsOk<D(!new)>(ascending: bool, rows: seq<Device<int, D>>, i: nat)
    requires Unique(rows) && forall r :: r in rows ==> r.pos.nullRank == 0
    requires i < |Listing(UpdatedAt(ascending), rows)| - 1 && SafeForUpdatedAt(ascending, rows)
    ensures CutOk(UpdatedAt(ascending), rows, i)
  {
    var spec := UpdatedAt(ascending);
    var all := Listing(spec, rows);
    OrderIsTotal(spec);
    SortSorted(rows, Order(spec));
    UpdatedAtCut(ascending, rows, i);
    assert all[i] in rows && all[i + 1] in rows && Order(spec)(all[i].pos, all[i + 1].pos);
  }

  lemma CutsOkMeansSafe<D(!new)>(ascending: bool, rows: seq<Device<int, D>>, a: Device<int, D>, r: Device<int, D>)
    requires Unique(rows) && forall r :: r in rows ==> r.pos.nullRank == 0
    requires forall i :: 0 <= i < |Listing(UpdatedAt(ascending), rows)| - 1 ==> CutOk(UpdatedAt(ascending), rows, i)
    requires a in rows && r in rows && Order(UpdatedAt(ascending))(a.pos, r.pos)
    ensures SafePair(ascending, a.pos, r.pos)
  {
    var spec := UpdatedAt(ascending);
    var all := Listing(spec, rows);
    OrderIsTotal(spec);
    SortSorted(rows, Order(spec));
    assert a in all && r in all;
    var i :| 0 <= i < |all| && all[i] == a;
    var j :| 0 <= j < |all| && all[j] == r;
    OrderIsIndexOrder(all, Order(spec), i, j);
    UpdatedAtCut(ascending, rows, i);
  }

  /**
   The default sort does not keep the paging law in general: its cursor loses the
   milliseconds. Its pages are the sorted list, for every choice of page sizes, if and only if
   the stored times are safe in the sense above.
   */
  lemma UpdatedAtPagesIffSafe<D(!new)>(ascending: bool, rows: seq<Device<int, D>>)
    requires Unique(rows) && forall r :: r in rows ==> r.pos.nullRank == 0
    ensures var spec := UpdatedAt(ascending);
            (forall limits :: Positive(limits) ==> Pages(spec, rows, limits) == Take(Listing(spec, rows), Sum(limits)))
            <==> SafeForUpdatedAt(ascending, rows)
  {
    var spec := UpdatedAt(ascending);
    PagesAreTheListIffCutsOk(spec, rows);
    if SafeForUpdatedAt(ascending, rows) {
      forall i | 0 <= i < |Listing(spec, rows)| - 1
        ensures CutOk(spec, rows, i)
      {
        SafeMeansCutsOk(ascending, rows, i);
      }
    }
    if forall i :: 0 <= i < |Listing(spec, rows)| - 1 ==> CutOk(spec, rows, i) {
      forall a, r | a in rows && r in rows && Order(spec)(a.pos, r.pos)
        ensures SafePair(ascending, a.pos, r.pos)
      {
        CutsOkMeansSafe(ascending, rows, a, r);
      }
    }
  }

  /** Newest first, two devices saved within one second, pages of one: the older device is never shown. */
  lemma DescendingLosesARow()
    ensures var rows := [Row(Pos(0, 1500, 2), ()), Row(Pos(0, 1200, 1), ())];
            Listing(UpdatedAt(false), rows) == rows && Pages(UpdatedAt(false), rows, [1, 1, 1]) == [rows[0]]
  {
    var rows := [Row(Pos(0, 1500, 2), ()), Row(Pos(0, 1200, 1), ())];
    var spec := UpdatedAt(false);
    assert rows[1..][1..] == [];
    assert Sort(rows[1..], Order(spec)) == [rows[1]];
    assert Sort(rows, Order(spec)) == rows;
    var next := Cursor(spec, rows[0].pos);
    assert next == Pos(0, 1000, 2);
    var keep := (r: Device<int, ()>) => AfterCursor(spec, next, r.pos);
    assert Select(rows[1..], keep) == [] && Select(rows, keep) == [];
    assert ReadPage(spec, rows, None, 1) == Answer([rows[0]], true, Some(next));
    assert ReadPage(spec, rows, Some(next), 1) == Answer([], false, None);
    var limits: seq<nat> := [1, 1, 1];
    assert limits[1..][0] == 1;
    assert Follow(ListReader(spec, rows), 1, Some(next), limits[1..]) == [];
  }

  /** Oldest first, when a whole list was saved within one second: every next page is the first page again. */
  lemma AscendingRepeatsForever<D(!new)>(rows: seq<Device<int, D>>, limit: nat, second: int)
    requires 0 < limit < |rows|
    requires forall r :: r in rows ==> r.pos.nullRank == 0 && second < r.pos.value < second + SECOND && second % SECOND == 0
    ensures var first := ReadPage(UpdatedAt(true), rows, None, limit);
            first.next.Some? && ReadPage(UpdatedAt(true), rows, first.next, limit) == first
  {
    var spec := UpdatedAt(true);
    var all := Listing(spec, rows);
    assert all[0..] == all;
    FinishAt(spec, all, 0, limit);
    assert all[limit - 1] in rows;
    AllAfterTheirSecond(rows, Cursor(spec, all[limit - 1].pos), second);
  }

  lemma AllAfterTheirSecond<D(!new)>(rows: seq<Device<int, D>>, next: Pos<int>, second: int)
    requires forall r :: r in rows ==> r.pos.nullRank == 0 && second < r.pos.value
    requires next.nullRank == 0 && next.value == second
    ensures Found(UpdatedAt(true), rows, Some(next)) == Found(UpdatedAt(true), rows, None)
  {
    SelectAll(rows, (r: Device<int, D>) => AfterCursor(UpdatedAt(true), next, r.pos));
  }
}
