/** The admin logs: newest first, ties by descending id, with the CSV export of a whole list. */
module AdminLog {
  import opened Common
  import opened Keyset
  import opened SnapshotPaging

  const MAX_LIMIT: nat := 200

  datatype LogPos = LogPos(timestamp: Instant, id: nat)

  type Entry<D> = Row<LogPos, D>

  /** ORDER BY timestamp DESC, id DESC. */
  predicate NewestFirst(a: LogPos, b: LogPos) {
    a.timestamp > b.timestamp || (a.timestamp == b.timestamp && a.id > b.id)
  }

  /** The condition a cursor adds to WHERE. */
  predicate CursorWhere(cursor: LogPos, r: LogPos) {
    r.timestamp < cursor.timestamp || (r.timestamp == cursor.timestamp && r.id < cursor.id)
  }

  /** The snapshot is the largest id of the whole log; the filters only select what is shown. */
  function LogView<D>(filter: Entry<D> -> bool): View<LogPos, D> {
    View((a: LogPos, b: LogPos) => NewestFirst(a, b), (c: LogPos, r: LogPos) => CursorWhere(c, r), (p: LogPos) => p.id,
         (r: Entry<D>) => true, filter)
  }

  lemma LogViewIsSound<D>(filter: Entry<D> -> bool)
    ensures Sound(LogView(filter))
  {
    var view := LogView(filter);
    assert forall x, y :: view.before(x, y) <==> NewestFirst(x, y);
  }

  /** An append-only log: added rows have ids above every id of the first request. */
  ghost predicate Appends<D(!new)>(tables: Tables<LogPos, D>) {
    && (forall n: nat :: Unique(tables(n)))
    && (forall n: nat, r :: r in tables(0) ==> r in tables(n))
    && (forall n: nat, r, s :: r in tables(n) && r !in tables(0) && s in tables(0) ==> r.pos.id > s.pos.id)
    && (forall n: nat, r :: r in tables(n) ==> r.pos.id > 0)
  }

  lemma AppendsGrows<D(!new)>(tables: Tables<LogPos, D>, filter: Entry<D> -> bool)
    requires Appends(tables)
    ensures Grows(LogView(filter), tables)
  {
  }

  lemma LogPagesAreTheSnapshot<D(!new)>(tables: Tables<LogPos, D>, filter: Entry<D> -> bool, limits: seq<nat>)
    requires Appends(tables) && Positive(limits)
    ensures ReadPages(LogView(filter), tables, limits) == Take(Listing(LogView(filter), tables(0)), Sum(limits))
  {
    LogViewIsSound(filter);
    AppendsGrows(tables, filter);
    PagesAreTheSnapshot(LogView(filter), tables, limits);
  }

  /** The list of a log holds the entries that pass the filters, each once, newest first, those of one instant by descending id. */
  lemma LogIsNewestFirst<D(!new)>(table: seq<Entry<D>>, filter: Entry<D> -> bool, i: nat, j: nat)
    requires Unique(table) && i < j < |Listing(LogView(filter), table)|
    ensures var a, b := Listing(LogView(filter), table)[i].pos, Listing(LogView(filter), table)[j].pos;
            a.timestamp > b.timestamp || (a.timestamp == b.timestamp && a.id > b.id)
    ensures forall r :: r in Listing(LogView(filter), table) <==> r in table && filter(r)
  {
    var view := LogView(filter);
    LogViewIsSound(filter);
    SelectUnique(table, (r: Entry<D>) => Matches(view, r));
    SortSorted(Matching(view, table), view.before);
    assert view.before(Listing(view, table)[i].pos, Listing(view, table)[j].pos);
  }

  // ---- CSV export ----

  const BOM := "\U{FEFF}"
  const CRLF := "\r\n"

  /** How rows become text: the header row and one CSV row for each item, without line ends. */
  datatype Format<!D> = Format(header: string, row: Entry<D> -> string)

  function Lines<D>(rows: seq<Entry<D>>, format: Format<D>): string {
    if rows == [] then "" else format.row(rows[0]) + CRLF + Lines(rows[1..], format)
  }

  function JoinedRows<D>(rows: seq<Entry<D>>, format: Format<D>): string
    requires rows != []
  {
    if |rows| == 1 then format.row(rows[0]) else format.row(rows[0]) + CRLF + JoinedRows(rows[1..], format)
  }

  lemma {:induction false} JoinedIsLines<D>(rows: seq<Entry<D>>, format: Format<D>)
    requires rows != []
    ensures JoinedRows(rows, format) + CRLF == Lines(rows, format)
  {
    if |rows| == 1 {
      assert Lines(rows[1..], format) == "";
    } else {
      JoinedIsLines(rows[1..], format);
      assert JoinedRows(rows, format) + CRLF == format.row(rows[0]) + CRLF + (JoinedRows(rows[1..], format) + CRLF);
    }
  }

  lemma {:induction false} LinesConcat<D>(a: seq<Entry<D>>, b: seq<Entry<D>>, format: Format<D>)
    ensures Lines(a + b, format) == Lines(a, format) + Lines(b, format)
  {
    if a == [] {
      assert a + b == b;
    } else {
      var line, x, y := format.row(a[0]) + CRLF, Lines(a[1..], format), Lines(b, format);
      LinesConcat(a[1..], b, format);
      assert (a + b)[1..] == a[1..] + b;
      assert line + (x + y) == line + x + y;
    }
  }

  /** The file an export of these rows should be. */
  function File<D>(rows: seq<Entry<D>>, format: Format<D>): string {
    BOM + format.header + CRLF + Lines(rows, format)
  }

  /** A byte order mark and the header line, and then a line for each entry, every line ended by CR LF. */
  lemma LineByLine<D>(rows: seq<Entry<D>>, r: Entry<D>, format: Format<D>)
    ensures var none: seq<Entry<D>> := []; File(none, format) == "\U{FEFF}" + format.header + "\r\n"
    ensures File(rows + [r], format) == File(rows, format) + format.row(r) + "\r\n"
  {
    LinesConcat(rows, [r], format);
    var rest: seq<Entry<D>> := [r][1..];
    assert rest == [] && Lines(rest, format) == "";
    assert Lines([r], format) == format.row(r) + CRLF;
  }

  lemma FileGrows<D>(all: seq<Entry<D>>, i: nat, items: seq<Entry<D>>, format: Format<D>)
    requires i <= |all| && items == Take(all[i..], MAX_LIMIT)
    ensures File(Take(all, i + MAX_LIMIT), format) == File(Take(all, i), format) + Lines(items, format)
  {
    TakeSplits(all, i, MAX_LIMIT);
    LinesConcat(all[..i], items, format);
  }

  /** The stream behind a CSV download; each pull sends the next page. */
  class CsvStream<D(!new)> {
    const view: View<LogPos, D>
    const format: Format<D>
    var cursor: Option<Cursor<LogPos>>
    var started: bool
    var done: bool
    var sent: string

    constructor (filter: Entry<D> -> bool, format: Format<D>)
      ensures view == LogView(filter) && this.format == format
      ensures cursor == None && !started && !done && sent == ""
    {
      view, this.format := LogView(filter), format;
      cursor, started, done, sent := None, false, false, "";
    }

    /** Where a stream over these rows stands after reading `i` of them. */
    ghost predicate At(all: seq<Entry<D>>, cursors: seq<Option<Cursor<LogPos>>>, i: nat)
      requires |cursors| == |all| + 1
      reads this
    {
      && started == (i > 0)
      && done == (i > 0 && i >= |all|)
      && sent == (if i == 0 then "" else File(Take(all, i), format))
      && (!done ==> i <= |all| && cursor == cursors[i])
    }

    /** Sends one page, after the header when it is the first, and closes behind the last. */
    method Send(page: Reply<LogPos, D>)
      modifies this
      ensures started && done == (old(done) || !page.hasMore || page.next.None?) && cursor == page.next
      ensures sent == old(sent) + (if old(started) then "" else File([], format)) + Lines(page.items, format)
    {
      if !started {
        sent := sent + BOM + format.header + CRLF;
        started := true;
      }
      if |page.items| > 0 {
        JoinedIsLines(page.items, format);
        sent := sent + (JoinedRows(page.items, format) + CRLF);
      }
      cursor := page.next;
      if !page.hasMore || cursor.None? {
        done := true;
      }
    }

    /** `read` is the reader of this stream's view whose next request finds `table`. */
    method Pull(table: seq<Entry<D>>, ghost read: Reader<LogPos, D, Cursor<LogPos>>, ghost all: seq<Entry<D>>,
                ghost cursors: seq<Option<Cursor<LogPos>>>, ghost n: nat, ghost i: nat)
      requires |cursors| == |all| + 1 && (forall j :: 0 < j < |cursors| ==> cursors[j].Some?)
      requires read(n, cursor, MAX_LIMIT) == AsAnswer(ReadPage(view, table, cursor, MAX_LIMIT))
      requires i <= |all| ==> Answers(read, all, cursors, n, i, MAX_LIMIT)
      requires At(all, cursors, i)
      modifies this
      ensures At(all, cursors, i + MAX_LIMIT)
    {
      if !done {
        var page := ReadPage(view, table, cursor, MAX_LIMIT);
        FileGrows(all, i, page.items, format);
        Send(page);
      }
    }

    /** Pulls until the stream closes; the n-th pull finds the n-th table. */
    method Drain(tables: Tables<LogPos, D>, ghost read: Reader<LogPos, D, Cursor<LogPos>>, ghost all: seq<Entry<D>>, ghost cursors: seq<Option<Cursor<LogPos>>>)
      requires |cursors| == |all| + 1 && (forall j :: 0 < j < |cursors| ==> cursors[j].Some?)
      requires forall n: nat, c :: read(n, c, MAX_LIMIT) == AsAnswer(ReadPage(view, tables(n), c, MAX_LIMIT))
      requires forall n: nat, i :: 0 <= i <= |all| && (i == 0 ==> n == 0) ==> Answers(read, all, cursors, n, i, MAX_LIMIT)
      requires At(all, cursors, 0)
      modifies this
      ensures done && sent == File(all, format)
    {
      var n: nat := 0;
      ghost var i: nat := 0;
      while !done
        invariant At(all, cursors, i) && (i == 0 ==> n == 0)
        decreases if done then 0 else |all| + 1 - i
      {
        Pull(tables(n), read, all, cursors, n, i);
        n, i := n + 1, i + MAX_LIMIT;
      }
    }
  }

  /**
   A download: pulling until the stream closes sends exactly the file of the entries that matched
   when it began, in order, whatever the log gained meanwhile.
   */
  method Download<D(!new)>(tables: Tables<LogPos, D>, filter: Entry<D> -> bool, format: Format<D>) returns (file: string)
    requires Appends(tables)
    ensures file == File(Listing(LogView(filter), tables(0)), format)
  {
    var stream := new CsvStream(filter, format);
    LogAnswers(tables, filter);
    stream.Drain(tables, ViewReader(LogView(filter), tables), Listing(LogView(filter), tables(0)), Cursors(LogView(filter), tables(0)));
    file := stream.sent;
  }

  lemma LogAnswers<D(!new)>(tables: Tables<LogPos, D>, filter: Entry<D> -> bool)
    requires Appends(tables)
    ensures var view := LogView(filter);
            forall n: nat, i :: 0 <= i <= |Listing(view, tables(0))| && (i == 0 ==> n == 0)
              ==> Answers(ViewReader(view, tables), Listing(view, tables(0)), Cursors(view, tables(0)), n, i, MAX_LIMIT)
  {
    var view := LogView(filter);
    LogViewIsSound(filter);
    AppendsGrows(tables, filter);
    GrowsIsSteady(view, tables);
    forall n: nat, i | 0 <= i <= |Listing(view, tables(0))| && (i == 0 ==> n == 0)
      ensures Answers(ViewReader(view, tables), Listing(view, tables(0)), Cursors(view, tables(0)), n, i, MAX_LIMIT)
    {
      ReadingAnswers(view, tables, n, i, MAX_LIMIT);
    }
  }
}
