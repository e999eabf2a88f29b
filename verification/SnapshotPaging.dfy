/**
 Snapshot paging: the first request fixes the largest id it sees and every later request reads
 below it, so rows that arrive between two requests never disturb the pages of this reading.
 Used by the two admin logs, their CSV export and the device history.
 */
module SnapshotPaging {
  import opened Common
  import opened Keyset

  /**
   How a list is read. `scope` are the rows whose largest id becomes the snapshot, `filter` the
   remaining conditions, `before` the ORDER BY and `afterCursor` the condition a cursor adds.
   */
  datatype View<!P, !D> = View(
    before: (P, P) -> bool,
    afterCursor: (P, P) -> bool,
    idOf: P -> nat,
    scope: Row<P, D> -> bool,
    filter: Row<P, D> -> bool)

  /** A cursor carries the snapshot of the first request and the last row kept. */
  datatype Cursor<P> = Cursor(maxId: nat, totalCount: nat, pos: P)

  datatype Reply<P, D> = Reply(items: seq<Row<P, D>>, hasMore: bool, totalCount: nat, next: Option<Cursor<P>>)

  /** The table as the n-th request finds it. */
  type Tables<P, D> = nat -> seq<Row<P, D>>

  ghost predicate Sound<P(!new), D>(view: View<P, D>) {
    && StrictTotal(view.before)
    && forall c, r :: view.afterCursor(c, r) <==> view.before(c, r)
  }

  predicate Matches<P, D>(view: View<P, D>, r: Row<P, D>) {
    view.scope(r) && view.filter(r)
  }

  function Matching<P(!new), D(!new)>(view: View<P, D>, table: seq<Row<P, D>>): seq<Row<P, D>> {
    Select(table, (r: Row<P, D>) => Matches(view, r))
  }

  /** The largest id in scope, 0 on none. */
  function MaxId<P(!new), D(!new)>(view: View<P, D>, table: seq<Row<P, D>>): (m: nat)
    ensures forall r :: r in table && view.scope(r) ==> view.idOf(r.pos) <= m
    ensures m == 0 || exists r :: r in table && view.scope(r) && view.idOf(r.pos) == m
  {
    if table == [] then 0
    else
      var m := MaxId(view, table[1..]);
      if view.scope(table[0]) && view.idOf(table[0].pos) > m then view.idOf(table[0].pos) else m
  }

  function Snapshot<P(!new), D(!new)>(view: View<P, D>, table: seq<Row<P, D>>, maxId: nat): seq<Row<P, D>> {
    Select(table, (r: Row<P, D>) => Matches(view, r) && view.idOf(r.pos) <= maxId)
  }

  function Remaining<P(!new), D(!new)>(view: View<P, D>, rows: seq<Row<P, D>>, last: Option<P>): seq<Row<P, D>> {
    match last
    case None => rows
    case Some(p) => Select(rows, (r: Row<P, D>) => view.afterCursor(p, r.pos))
  }

  function SnapshotId<P(!new), D(!new)>(view: View<P, D>, table: seq<Row<P, D>>, cursor: Option<Cursor<P>>): nat {
    if cursor.Some? then cursor.value.maxId else MaxId(view, table)
  }

  function TotalCount<P(!new), D(!new)>(view: View<P, D>, table: seq<Row<P, D>>, cursor: Option<Cursor<P>>): nat {
    if cursor.Some? then cursor.value.totalCount else |Snapshot(view, table, MaxId(view, table))|
  }

  /** What a request finds, in order, before the limit. */
  function Found<P(!new), D(!new)>(view: View<P, D>, table: seq<Row<P, D>>, cursor: Option<Cursor<P>>): seq<Row<P, D>> {
    var last := if cursor.Some? then Some(cursor.value.pos) else None;
    Sort(Remaining(view, Snapshot(view, table, SnapshotId(view, table, cursor)), last), view.before)
  }

  /** Cut at the limit; the next cursor repeats the snapshot. */
  function Finish<P, D>(found: seq<Row<P, D>>, maxId: nat, totalCount: nat, limit: nat): Reply<P, D>
    requires limit > 0
  {
    var page := Cut(Take(found, limit + 1), limit);
    Reply(page.items, page.hasMore, totalCount,
          if page.next.Some? then Some(Cursor(maxId, totalCount, page.next.value)) else None)
  }

  /** One request: take the snapshot, or the one the cursor carries, read one row more than asked for, cut. */
  function ReadPage<P(!new), D(!new)>(view: View<P, D>, table: seq<Row<P, D>>, cursor: Option<Cursor<P>>, limit: nat): Reply<P, D>
    requires limit > 0
  {
    Finish(Found(view, table, cursor), SnapshotId(view, table, cursor), TotalCount(view, table, cursor), limit)
  }

  function AsAnswer<P, D>(page: Reply<P, D>): Answer<P, D, Cursor<P>> {
    Answer(page.items, page.hasMore, page.next)
  }

  function ViewReader<P(!new), D(!new)>(view: View<P, D>, tables: Tables<P, D>): Reader<P, D, Cursor<P>> {
    (n: nat, cursor, limit: nat) =>
      if limit == 0 then Answer([], false, None)
      else AsAnswer(ReadPage(view, tables(n), cursor, limit))
  }

  /** Following cursors from the first page of the view. */
  function ReadPages<P(!new), D(!new)>(view: View<P, D>, tables: Tables<P, D>, limits: seq<nat>): seq<Row<P, D>> {
    Follow(ViewReader(view, tables), 0, None, limits)
  }

  /** Between requests rows are only added, and every added row that matters has a larger id. */
  ghost predicate Grows<P(!new), D(!new)>(view: View<P, D>, tables: Tables<P, D>) {
    && (forall n: nat :: Unique(tables(n)))
    && (forall n: nat, r :: r in tables(0) ==> r in tables(n))
    && (forall n: nat, r :: r in tables(n) && r !in tables(0) && Matches(view, r) ==> view.idOf(r.pos) > MaxId(view, tables(0)))
  }

  /** The list a reading stands for: what matched when it began. */
  function Listing<P(!new), D(!new)>(view: View<P, D>, table: seq<Row<P, D>>): seq<Row<P, D>> {
    Sort(Matching(view, table), view.before)
  }

  lemma SnapshotIsListing<P(!new), D(!new)>(view: View<P, D>, tables: Tables<P, D>, n: nat)
    requires Sound(view) && Grows(view, tables)
    ensures var rows := Snapshot(view, tables(n), MaxId(view, tables(0)));
            Unique(rows) && Sort(rows, view.before) == Listing(view, tables(0))
    ensures |Snapshot(view, tables(n), MaxId(view, tables(0)))| == |Listing(view, tables(0))|
  {
    var maxId := MaxId(view, tables(0));
    var keep := (r: Row<P, D>) => Matches(view, r) && view.idOf(r.pos) <= maxId;
    SelectUnique(tables(n), keep);
    SelectUnique(tables(0), (r: Row<P, D>) => Matches(view, r));
    SortSorted(Snapshot(view, tables(n), maxId), view.before);
    SortSorted(Matching(view, tables(0)), view.before);
    SortedIsUnique(Sort(Snapshot(view, tables(n), maxId), view.before), Listing(view, tables(0)), view.before);
  }

  /** A cursor after row i of the listing finds the rest of the listing, whatever was added meanwhile. */
  lemma CursorResumes<P(!new), D(!new)>(view: View<P, D>, tables: Tables<P, D>, n: nat, i: nat)
    requires Sound(view) && Grows(view, tables) && i < |Listing(view, tables(0))|
    ensures var all := Listing(view, tables(0));
            Sort(Remaining(view, Snapshot(view, tables(n), MaxId(view, tables(0))), Some(all[i].pos)), view.before) == all[i + 1..]
  {
    SnapshotIsListing(view, tables, n);
    var p := Listing(view, tables(0))[i].pos;
    RestAfter(Snapshot(view, tables(n), MaxId(view, tables(0))), view.before, i, (r: Row<P, D>) => view.afterCursor(p, r.pos));
  }

  /** The cursor a reading holds after `i` rows. */
  function CursorAt<P(!new), D(!new)>(view: View<P, D>, table: seq<Row<P, D>>, i: nat): Option<Cursor<P>>
    requires i <= |Listing(view, table)|
  {
    if i == 0 then None
    else Some(Cursor(MaxId(view, table), |Listing(view, table)|, Listing(view, table)[i - 1].pos))
  }

  /** The request after `i` rows, on the n-th table, finds the rest of the listing and keeps the snapshot. */
  ghost predicate FindsRest<P(!new), D(!new)>(view: View<P, D>, first: seq<Row<P, D>>, table: seq<Row<P, D>>, i: nat)
    requires i <= |Listing(view, first)|
  {
    var cursor := CursorAt(view, first, i);
    && Found(view, table, cursor) == Listing(view, first)[i..]
    && SnapshotId(view, table, cursor) == MaxId(view, first)
    && TotalCount(view, table, cursor) == |Listing(view, first)|
  }

  lemma FirstFinds<P(!new), D(!new)>(view: View<P, D>, tables: Tables<P, D>)
    requires Sound(view) && Grows(view, tables)
    ensures FindsRest(view, tables(0), tables(0), 0)
  {
    SnapshotIsListing(view, tables, 0);
  }

  lemma LaterFinds<P(!new), D(!new)>(view: View<P, D>, tables: Tables<P, D>, n: nat, i: nat)
    requires Sound(view) && Grows(view, tables)
    requires 0 < i <= |Listing(view, tables(0))|
    ensures FindsRest(view, tables(0), tables(n), i)
  {
    hide Sound, Grows, Snapshot, Listing, Sort, Remaining, MaxId;
    CursorResumes(view, tables, n, i - 1);
  }

  /** Every request that a reading can make finds the rest of the listing; only the first has no cursor. */
  ghost predicate Steady<P(!new), D(!new)>(view: View<P, D>, tables: Tables<P, D>) {
    && FindsRest(view, tables(0), tables(0), 0)
    && forall n: nat, i :: 0 < i < |Listing(view, tables(0))| && n <= i ==> FindsRest(view, tables(0), tables(n), i)
  }

  lemma GrowsIsSteady<P(!new), D(!new)>(view: View<P, D>, tables: Tables<P, D>)
    requires Sound(view) && Grows(view, tables)
    ensures Steady(view, tables)
    ensures forall n: nat, i :: 0 < i <= |Listing(view, tables(0))| ==> FindsRest(view, tables(0), tables(n), i)
  {
    FirstFinds(view, tables);
    forall n: nat, i | 0 < i <= |Listing(view, tables(0))|
      ensures FindsRest(view, tables(0), tables(n), i)
    {
      LaterFinds(view, tables, n, i);
    }
  }

  lemma FinishAt<P, D>(all: seq<Row<P, D>>, i: nat, maxId: nat, totalCount: nat, limit: nat)
    requires limit > 0 && i <= |all|
    ensures Finish(all[i..], maxId, totalCount, limit)
            == Reply(Take(all[i..], limit), |all| > i + limit, totalCount,
                     if |all| > i + limit then Some(Cursor(maxId, totalCount, all[i + limit - 1].pos)) else None)
  {
    CutOfList(all[i..], limit);
  }

  /**
   What the request after `i` rows answers: the next rows of the listing, and the number of rows of
   the whole reading. The first request reads the first table; any later one finds any table.
   */
  lemma PageOfListing<P(!new), D(!new)>(view: View<P, D>, tables: Tables<P, D>, n: nat, i: nat, limit: nat)
    requires limit > 0 && i <= |Listing(view, tables(0))| && FindsRest(view, tables(0), tables(n), i)
    ensures var all := Listing(view, tables(0));
            ReadPage(view, tables(n), CursorAt(view, tables(0), i), limit)
            == ReplyAt(all, i, limit, if i + limit <= |all| then CursorAt(view, tables(0), i + limit) else None)
  {
    assert FindsRest(view, tables(0), tables(n), i);
    FinishAt(Listing(view, tables(0)), i, MaxId(view, tables(0)), |Listing(view, tables(0))|, limit);
  }

  /** The answer a list of rows gives after `i` of them. */
  function ReplyAt<P, D>(all: seq<Row<P, D>>, i: nat, limit: nat, next: Option<Cursor<P>>): Reply<P, D>
    requires i <= |all|
  {
    Reply(Take(all[i..], limit), |all| > i + limit, |all|, if |all| > i + limit then next else None)
  }

  /** The cursors of a reading, by the number of rows read. */
  function Cursors<P(!new), D(!new)>(view: View<P, D>, table: seq<Row<P, D>>): (r: seq<Option<Cursor<P>>>)
    ensures |r| == |Listing(view, table)| + 1 && r[0] == None
    ensures forall j :: 0 < j < |r| ==> r[j].Some?
  {
    seq(|Listing(view, table)| + 1, i requires 0 <= i <= |Listing(view, table)| => CursorAt(view, table, i))
  }

  lemma ReadingAnswers<P(!new), D(!new)>(view: View<P, D>, tables: Tables<P, D>, n: nat, i: nat, limit: nat)
    requires limit > 0 && i <= |Listing(view, tables(0))| && FindsRest(view, tables(0), tables(n), i)
    ensures Answers(ViewReader(view, tables), Listing(view, tables(0)), Cursors(view, tables(0)), n, i, limit)
  {
    PageOfListing(view, tables, n, i, limit);
  }

  lemma SteadyPages<P(!new), D(!new)>(view: View<P, D>, tables: Tables<P, D>, limits: seq<nat>)
    requires Steady(view, tables) && Positive(limits)
    ensures ReadPages(view, tables, limits) == Take(Listing(view, tables(0)), Sum(limits))
  {
    var all, read, cursors := Listing(view, tables(0)), ViewReader(view, tables), Cursors(view, tables(0));
    forall m: nat, j, limit | (j == m == 0 || (0 < j < |all| && m <= j)) && limit > 0
      ensures Answers(read, all, cursors, m, j, limit)
    {
      ReadingAnswers(view, tables, m, j, limit);
    }
    FollowReadsOn(read, all, cursors, 0, 0, limits);
    assert all[0..] == all;
  }

  /** Whatever rows with larger ids arrive between the requests and whatever the page sizes, the pages are the listing of the first request. */
  lemma PagesAreTheSnapshot<P(!new), D(!new)>(view: View<P, D>, tables: Tables<P, D>, limits: seq<nat>)
    requires Sound(view) && Grows(view, tables) && Positive(limits)
    ensures ReadPages(view, tables, limits) == Take(Listing(view, tables(0)), Sum(limits))
  {
    GrowsIsSteady(view, tables);
    SteadyPages(view, tables, limits);
  }

  /**
   The condition on added rows is needed: a matching row that appears late under a smaller id, as
   when a transaction that drew its id earlier commits after the first request, is read although
   it was not in the table the reading stands for.
   */
  lemma LateSmallIdIsRead<P(!new), D(!new)>(view: View<P, D>, before: seq<Row<P, D>>, after: seq<Row<P, D>>, late: Row<P, D>, i: nat)
    requires Sound(view) && Unique(after) && i < |Listing(view, before)|
    requires late in after && late !in before && Matches(view, late) && view.idOf(late.pos) <= MaxId(view, before)
    requires view.before(Listing(view, before)[i].pos, late.pos)
    ensures late !in Listing(view, before)
    ensures late in ReadPage(view, after, CursorAt(view, before, i + 1), |after| + 1).items
  {
    var maxId, last := MaxId(view, before), Listing(view, before)[i].pos;
    var rows := Snapshot(view, after, maxId);
    SelectShrinks(after, (r: Row<P, D>) => Matches(view, r) && view.idOf(r.pos) <= maxId);
    SelectShrinks(rows, (r: Row<P, D>) => view.afterCursor(last, r.pos));
    assert late in rows && late in Remaining(view, rows, Some(last));
  }
}
