/**
 When a snapshot reading is disturbed: exactly when a matching row appears late under an id below the
 snapshot, behind a row that has been read by then.
 */
module LateRows {
  import opened Common
  import opened Keyset
  import opened SnapshotPaging

  /** Between requests rows are only added, with whatever ids. */
  ghost predicate Gains<P(!new), D(!new)>(tables: Tables<P, D>) {
    forall n: nat :: Unique(tables(n)) && forall r :: r in tables(0) ==> r in tables(n)
  }

  ghost predicate Late<P(!new), D(!new)>(view: View<P, D>, first: seq<Row<P, D>>, table: seq<Row<P, D>>, r: Row<P, D>) {
    r in table && r !in first && Matches(view, r) && view.idOf(r.pos) <= MaxId(view, first)
  }

  /** No late row of this table sorts behind row i of the listing. */
  ghost predicate NoneBehind<P(!new), D(!new)>(view: View<P, D>, first: seq<Row<P, D>>, table: seq<Row<P, D>>, i: nat)
    requires i < |Listing(view, first)|
  {
    forall r :: Late(view, first, table, r) ==> !view.before(Listing(view, first)[i].pos, r.pos)
  }

  /** Request number n has read n rows at least; none of the late rows it finds sorts behind the n-th. */
  ghost predicate Undisturbed<P(!new), D(!new)>(view: View<P, D>, tables: Tables<P, D>) {
    forall n: nat :: 0 < n < |Listing(view, tables(0))| ==> NoneBehind(view, tables(0), tables(n), n - 1)
  }

  lemma ListingIs<P(!new), D(!new)>(view: View<P, D>, first: seq<Row<P, D>>)
    requires Sound(view) && Unique(first)
    ensures Sorted(Listing(view, first), view.before) && Unique(Matching(view, first))
    ensures forall r :: r in Listing(view, first) <==> r in first && Matches(view, r)
  {
    SelectUnique(first, (r: Row<P, D>) => Matches(view, r));
    SortSorted(Matching(view, first), view.before);
  }

  /** The first request finds the whole listing. */
  lemma FirstRequest<P(!new), D(!new)>(view: View<P, D>, first: seq<Row<P, D>>)
    requires Sound(view) && Unique(first)
    ensures FindsRest(view, first, first, 0)
  {
    FirstFinds(view, (n: nat) => first);
  }

  /** What a request after i + 1 rows finds: the snapshot rows of its table behind row i, in order. */
  lemma FoundRows<P(!new), D(!new)>(view: View<P, D>, first: seq<Row<P, D>>, table: seq<Row<P, D>>, i: nat)
    requires Sound(view) && Unique(table) && i < |Listing(view, first)|
    ensures var found := Found(view, table, CursorAt(view, first, i + 1));
            && Sorted(found, view.before)
            && forall r :: r in found <==>
                 r in table && Matches(view, r) && view.idOf(r.pos) <= MaxId(view, first) && view.before(Listing(view, first)[i].pos, r.pos)
  {
    var maxId, last := MaxId(view, first), Listing(view, first)[i].pos;
    SelectUnique(table, (r: Row<P, D>) => Matches(view, r) && view.idOf(r.pos) <= maxId);
    var rows := Snapshot(view, table, maxId);
    SelectUnique(rows, (r: Row<P, D>) => view.afterCursor(last, r.pos));
    SortSorted(Remaining(view, rows, Some(last)), view.before);
  }

  /** A request finds the rest of the listing exactly when no late row sorts behind what was read. */
  lemma FindsRestIffNoneBehind<P(!new), D(!new)>(view: View<P, D>, first: seq<Row<P, D>>, table: seq<Row<P, D>>, i: nat)
    requires Sound(view) && Unique(first) && Unique(table) && (forall r :: r in first ==> r in table) && i < |Listing(view, first)|
    ensures FindsRest(view, first, table, i + 1) <==> NoneBehind(view, first, table, i)
  {
    var all, found := Listing(view, first), Found(view, table, CursorAt(view, first, i + 1));
    ListingIs(view, first);
    FoundRows(view, first, table, i);
    forall r
      ensures r in all[i + 1..] <==> r in first && Matches(view, r) && view.before(all[i].pos, r.pos)
    {
      MembersAfter(all, view.before, i, r);
    }
    hide Found, Listing, Matches, Sound;
    if NoneBehind(view, first, table, i) {
      forall r
        ensures r in found <==> r in all[i + 1..]
      {
        assert r in found && r !in first ==> Late(view, first, table, r);
      }
      TailSorted(all, view.before, i + 1);
      SoundIsTotal(view);
      SortedIsUnique(found, all[i + 1..], view.before);
    }
    if found == all[i + 1..] {
      forall r | Late(view, first, table, r)
        ensures !view.before(all[i].pos, r.pos)
      {
        assert r !in all[i + 1..];
      }
    }
  }

  lemma SoundIsTotal<P(!new), D(!new)>(view: View<P, D>)
    requires Sound(view)
    ensures StrictTotal(view.before)
  {
  }

  lemma TailSorted<P(!new), D(!new)>(all: seq<Row<P, D>>, before: (P, P) -> bool, i: nat)
    requires Sorted(all, before) && i <= |all|
    ensures Sorted(all[i..], before)
  {
  }

  /** A late row behind a later row of the listing is behind every earlier one. */
  lemma BehindEarlier<P(!new), D(!new)>(view: View<P, D>, first: seq<Row<P, D>>, table: seq<Row<P, D>>, i: nat, j: nat)
    requires Sound(view) && Unique(first) && i <= j < |Listing(view, first)| && NoneBehind(view, first, table, i)
    ensures NoneBehind(view, first, table, j)
  {
    var all := Listing(view, first);
    ListingIs(view, first);
    if i < j {
      OrderIsIndexOrder(all, view.before, i, j);
    }
  }

  lemma UndisturbedIsSteady<P(!new), D(!new)>(view: View<P, D>, tables: Tables<P, D>)
    requires Sound(view) && Gains(tables) && Undisturbed(view, tables)
    ensures Steady(view, tables)
  {
    var first := tables(0);
    FirstRequest(view, first);
    hide Listing, FindsRest, NoneBehind, Sound;
    forall n: nat, i | 0 < i < |Listing(view, first)| && n <= i
      ensures FindsRest(view, first, tables(n), i)
    {
      if n == 0 {
        NothingLate(view, first, i - 1);
      } else {
        BehindEarlier(view, first, tables(n), n - 1, i - 1);
      }
      FindsRestIffNoneBehind(view, first, tables(n), i - 1);
    }
  }

  lemma NothingLate<P(!new), D(!new)>(view: View<P, D>, first: seq<Row<P, D>>, i: nat)
    requires i < |Listing(view, first)|
    ensures NoneBehind(view, first, first, i)
  {
  }

  // ---- pages of one up to the disturbed request ----

  function Ones(n: nat, last: nat): (r: seq<nat>)
    requires last > 0
    ensures Positive(r) && |r| == n + 1
  {
    if n == 0 then [last] else [1] + Ones(n - 1, last)
  }

  lemma OneOfList<P, D, C>(all: seq<Row<P, D>>, k: nat, next: Option<C>)
    requires k < |all|
    ensures AnswerAt(all, k, 1, next) == Answer([all[k]], |all| > k + 1, if |all| > k + 1 then next else None)
  {
  }

  /** Pages of one as long as the answers are right, then a page of `last`. */
  lemma {:induction false} FollowOnes<P(!new), D(!new), C(!new)>(read: Reader<P, D, C>, all: seq<Row<P, D>>, cursors: seq<Option<C>>,
                                                                 k: nat, n: nat, last: nat)
    requires k <= n < |all| && |cursors| == |all| + 1 && last > 0
    requires forall j :: 0 < j < |cursors| ==> cursors[j].Some?
    requires forall m: nat :: m < n ==> Answers(read, all, cursors, m, m, 1)
    ensures Follow(read, k, cursors[k], Ones(n - k, last)) == all[k..n] + read(n, cursors[n], last).items
    decreases n - k
  {
    var limits := Ones(n - k, last);
    if k == n {
      assert limits[1..] == [] && all[k..n] == [];
    } else {
      assert Answers(read, all, cursors, k, k, 1);
      OneOfList(all, k, cursors[k + 1]);
      assert read(k, cursors[k], 1) == Answer([all[k]], true, cursors[k + 1]);
      assert limits[0] == 1 && limits[1..] == Ones(n - k - 1, last);
      hide Answers, AnswerAt, Take;
      FollowOnes(read, all, cursors, k + 1, n, last);
      assert all[k..n] == [all[k]] + all[k + 1..n];
      assert [all[k]] + (all[k + 1..n] + read(n, cursors[n], last).items) == all[k..n] + read(n, cursors[n], last).items;
    }
  }

  lemma {:induction false} FirstDisturbed<P(!new), D(!new)>(view: View<P, D>, tables: Tables<P, D>, n: nat) returns (m: nat)
    requires 0 < n < |Listing(view, tables(0))| && !NoneBehind(view, tables(0), tables(n), n - 1)
    ensures 0 < m <= n && !NoneBehind(view, tables(0), tables(m), m - 1)
    ensures forall k: nat :: 0 < k < m ==> NoneBehind(view, tables(0), tables(k), k - 1)
  {
    if k: nat :| 0 < k < n && !NoneBehind(view, tables(0), tables(k), k - 1) {
      m := FirstDisturbed(view, tables, k);
    } else {
      m := n;
    }
  }

  lemma CursorsAt<P(!new), D(!new)>(view: View<P, D>, first: seq<Row<P, D>>, n: nat)
    requires n <= |Listing(view, first)|
    ensures Cursors(view, first)[n] == CursorAt(view, first, n) && Cursors(view, first)[0] == None
  {
  }

  lemma OnesRead<P(!new), D(!new)>(view: View<P, D>, tables: Tables<P, D>, n: nat, last: nat)
    requires n < |Listing(view, tables(0))| && last > 0
    requires FindsRest(view, tables(0), tables(0), 0) && forall m: nat :: 0 < m < n ==> FindsRest(view, tables(0), tables(m), m)
    ensures ReadPages(view, tables, Ones(n, last)) == Listing(view, tables(0))[..n] + ReadPage(view, tables(n), CursorAt(view, tables(0), n), last).items
  {
    hide Listing, ReadPage, FindsRest, Answers, CursorAt, Follow;
    var all, read, cursors := Listing(view, tables(0)), ViewReader(view, tables), Cursors(view, tables(0));
    forall m: nat | m < n
      ensures Answers(read, all, cursors, m, m, 1)
    {
      ReadingAnswers(view, tables, m, m, 1);
    }
    CursorsAt(view, tables(0), n);
    FollowOnes(read, all, cursors, 0, n, last);
    assert all[0..n] == all[..n];
  }

  lemma SteadyUntil<P(!new), D(!new)>(view: View<P, D>, tables: Tables<P, D>, n: nat)
    requires Sound(view) && Gains(tables) && 0 < n < |Listing(view, tables(0))|
    requires forall k: nat :: 0 < k < n ==> NoneBehind(view, tables(0), tables(k), k - 1)
    ensures FindsRest(view, tables(0), tables(0), 0) && forall m: nat :: 0 < m < n ==> FindsRest(view, tables(0), tables(m), m)
  {
    var first := tables(0);
    FirstRequest(view, first);
    forall m: nat | 0 < m < n
      ensures FindsRest(view, first, tables(m), m)
    {
      FindsRestIffNoneBehind(view, first, tables(m), m - 1);
    }
  }

  lemma DisturbingRow<P(!new), D(!new)>(view: View<P, D>, first: seq<Row<P, D>>, table: seq<Row<P, D>>, i: nat) returns (late: Row<P, D>)
    requires Sound(view) && Unique(table) && i < |Listing(view, first)| && !NoneBehind(view, first, table, i)
    ensures late !in Listing(view, first) && late in ReadPage(view, table, CursorAt(view, first, i + 1), |table| + 1).items
  {
    late :| Late(view, first, table, late) && view.before(Listing(view, first)[i].pos, late.pos);
    hide Listing, ReadPage, CursorAt;
    LateSmallIdIsRead(view, first, table, late, i);
  }

  lemma EachUnique<P(!new), D(!new)>(tables: Tables<P, D>, n: nat)
    requires Gains(tables)
    ensures Unique(tables(n))
  {
  }

  lemma NotThePrefix<T>(pages: seq<T>, all: seq<T>, n: nat, tail: seq<T>, late: T, m: nat)
    requires n <= |all| && pages == all[..n] + tail && late in tail && late !in all
    ensures pages != Take(all, m)
  {
    assert late in pages;
  }

  /** A reading whose first disturbed request is number n reads a row it should not, with pages of one and then a large one. */
  lemma DisturbedGoesWrong<P(!new), D(!new)>(view: View<P, D>, tables: Tables<P, D>, n: nat)
    requires Sound(view) && Gains(tables) && 0 < n < |Listing(view, tables(0))|
    requires !NoneBehind(view, tables(0), tables(n), n - 1)
    requires forall k: nat :: 0 < k < n ==> NoneBehind(view, tables(0), tables(k), k - 1)
    ensures var limits := Ones(n, |tables(n)| + 1);
            ReadPages(view, tables, limits) != Take(Listing(view, tables(0)), Sum(limits))
  {
    hide Listing, ReadPage, ReadPages, FindsRest, CursorAt, NoneBehind, Sound, Gains, Unique, Sum, Ones, Take;
    var limits := Ones(n, |tables(n)| + 1);
    EachUnique(tables, n);
    SteadyUntil(view, tables, n);
    OnesRead(view, tables, n, |tables(n)| + 1);
    var late := DisturbingRow(view, tables(0), tables(n), n - 1);
    NotThePrefix(ReadPages(view, tables, limits), Listing(view, tables(0)), n,
                 ReadPage(view, tables(n), CursorAt(view, tables(0), n), |tables(n)| + 1).items, late, Sum(limits));
  }

  /**
   On tables that only gain rows, the pages are the listing of the first request for all page sizes if
   and only if no request finds a matching row that came late, under an id below the snapshot, and
   sorts behind what must have been read by then.
   */
  lemma PagesAreTheSnapshotIffUndisturbed<P(!new), D(!new)>(view: View<P, D>, tables: Tables<P, D>)
    requires Sound(view) && Gains(tables)
    ensures (forall limits :: Positive(limits) ==> ReadPages(view, tables, limits) == Take(Listing(view, tables(0)), Sum(limits)))
            <==> Undisturbed(view, tables)
  {
    if Undisturbed(view, tables) {
      UndisturbedIsSteady(view, tables);
      forall limits | Positive(limits)
        ensures ReadPages(view, tables, limits) == Take(Listing(view, tables(0)), Sum(limits))
      {
        SteadyPages(view, tables, limits);
      }
    } else {
      var n: nat :| 0 < n < |Listing(view, tables(0))| && !NoneBehind(view, tables(0), tables(n), n - 1);
      var m := FirstDisturbed(view, tables, n);
      DisturbedGoesWrong(view, tables, m);
      assert Positive(Ones(m, |tables(m)| + 1));
    }
  }
}
