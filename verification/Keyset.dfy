/**
 Keyset paging in general: rows are ordered by a position, a page is the first rows after a
 position, and following pages must add up to the one sorted list they stand for.
 */
module Keyset {
  import opened Common

  datatype Row<P, D> = Row(pos: P, data: D)

  ghost predicate StrictTotal<P(!new)>(before: (P, P) -> bool) {
    && (forall x :: !before(x, x))
    && (forall x, y, z :: before(x, y) && before(y, z) ==> before(x, z))
    && (forall x, y :: x != y ==> before(x, y) || before(y, x))
  }

  predicate Unique<P(==), D>(rows: seq<Row<P, D>>) {
    forall i, j :: 0 <= i < j < |rows| ==> rows[i].pos != rows[j].pos
  }

  predicate Sorted<P, D>(rows: seq<Row<P, D>>, before: (P, P) -> bool) {
    forall i, j :: 0 <= i < j < |rows| ==> before(rows[i].pos, rows[j].pos)
  }

  function Select<P(!new), D(!new)>(rows: seq<Row<P, D>>, keep: Row<P, D> -> bool): (r: seq<Row<P, D>>)
    ensures forall x :: x in r <==> x in rows && keep(x)
  {
    if rows == [] then []
    else if keep(rows[0]) then [rows[0]] + Select(rows[1..], keep)
    else Select(rows[1..], keep)
  }

  lemma {:induction false} SelectUnique<P(!new), D(!new)>(rows: seq<Row<P, D>>, keep: Row<P, D> -> bool)
    requires Unique(rows)
    ensures Unique(Select(rows, keep))
  {
    if rows != [] {
      SelectUnique(rows[1..], keep);
      var rest := Select(rows[1..], keep);
      assert forall i :: 0 <= i < |rest| ==> rest[i] in rest && rest[i] in rows[1..];
    }
  }

  function Insert<P(!new), D(!new)>(x: Row<P, D>, rows: seq<Row<P, D>>, before: (P, P) -> bool): (r: seq<Row<P, D>>)
    ensures forall y :: y in r <==> y == x || y in rows
    ensures |r| == |rows| + 1
  {
    if rows == [] then [x]
    else if before(x.pos, rows[0].pos) then [x] + rows
    else [rows[0]] + Insert(x, rows[1..], before)
  }

  /** ORDER BY. */
  function Sort<P(!new), D(!new)>(rows: seq<Row<P, D>>, before: (P, P) -> bool): (r: seq<Row<P, D>>)
    ensures forall y :: y in r <==> y in rows
    ensures |r| == |rows|
  {
    if rows == [] then [] else Insert(rows[0], Sort(rows[1..], before), before)
  }

  lemma {:induction false} InsertSorted<P(!new), D(!new)>(x: Row<P, D>, rows: seq<Row<P, D>>, before: (P, P) -> bool)
    requires StrictTotal(before) && Sorted(rows, before)
    requires forall i :: 0 <= i < |rows| ==> rows[i].pos != x.pos
    ensures Sorted(Insert(x, rows, before), before)
  {
    if rows != [] && !before(x.pos, rows[0].pos) {
      InsertSorted(x, rows[1..], before);
      var rest := Insert(x, rows[1..], before);
      forall j | 0 <= j < |rest|
        ensures before(rows[0].pos, rest[j].pos)
      {
        assert rest[j] in rest;
        if rest[j] != x {
          var k :| 0 <= k < |rows[1..]| && rows[1..][k] == rest[j];
          assert rows[k + 1] == rest[j];
        }
      }
    }
  }

  lemma {:induction false} SortSorted<P(!new), D(!new)>(rows: seq<Row<P, D>>, before: (P, P) -> bool)
    requires StrictTotal(before) && Unique(rows)
    ensures Sorted(Sort(rows, before), before)
  {
    if rows != [] {
      SortSorted(rows[1..], before);
      var rest := Sort(rows[1..], before);
      forall i | 0 <= i < |rest|
        ensures rest[i].pos != rows[0].pos
      {
        assert rest[i] in rows[1..];
        var k :| 0 <= k < |rows[1..]| && rows[1..][k] == rest[i];
        assert rows[k + 1] == rest[i];
      }
      InsertSorted(rows[0], rest, before);
    }
  }

  lemma OrderIsIndexOrder<P(!new), D>(a: seq<Row<P, D>>, before: (P, P) -> bool, i: nat, j: nat)
    requires StrictTotal(before) && Sorted(a, before) && i < |a| && j < |a|
    ensures before(a[i].pos, a[j].pos) <==> i < j
  {
    if j < i {
      assert before(a[j].pos, a[i].pos);
    }
  }

  /** A strictly sorted list is determined by its elements. */
  lemma {:induction false} SortedIsUnique<P(!new), D(!new)>(a: seq<Row<P, D>>, b: seq<Row<P, D>>, before: (P, P) -> bool)
    requires StrictTotal(before) && Sorted(a, before) && Sorted(b, before)
    requires forall x :: x in a <==> x in b
    ensures a == b
  {
    if a != [] || b != [] {
      if a != [] { assert a[0] in b; }
      if b != [] { assert b[0] in a; }
      var i :| 0 <= i < |b| && b[i] == a[0];
      var j :| 0 <= j < |a| && a[j] == b[0];
      OrderIsIndexOrder(b, before, 0, i);
      OrderIsIndexOrder(a, before, 0, j);
      forall x
        ensures x in a[1..] <==> x in b[1..]
      {
        TailMembers(a, before, x);
        TailMembers(b, before, x);
      }
      SortedIsUnique(a[1..], b[1..], before);
      assert a == [a[0]] + a[1..] && b == [b[0]] + b[1..];
    }
  }

  lemma TailMembers<P(!new), D(!new)>(a: seq<Row<P, D>>, before: (P, P) -> bool, x: Row<P, D>)
    requires StrictTotal(before) && Sorted(a, before) && a != []
    ensures x in a[1..] <==> x in a && x != a[0]
  {
    if x in a[1..] {
      var k :| 0 <= k < |a[1..]| && a[1..][k] == x;
      assert a[k + 1] == x && before(a[0].pos, x.pos);
    }
    if x in a && x != a[0] {
      var k :| 0 <= k < |a| && a[k] == x;
      assert a[1..][k - 1] == x;
    }
  }

  lemma MembersAfter<P(!new), D>(all: seq<Row<P, D>>, before: (P, P) -> bool, i: nat, x: Row<P, D>)
    requires StrictTotal(before) && Sorted(all, before) && i < |all|
    ensures x in all[i + 1..] <==> x in all && before(all[i].pos, x.pos)
  {
    if x in all[i + 1..] {
      var k :| 0 <= k < |all[i + 1..]| && all[i + 1..][k] == x;
      assert all[i + 1 + k] == x;
    }
    if x in all && before(all[i].pos, x.pos) {
      var k :| 0 <= k < |all| && all[k] == x;
      OrderIsIndexOrder(all, before, i, k);
      assert all[i + 1..][k - i - 1] == x;
    }
  }

  /** Keeping what lies after row i of the sorted list keeps exactly the rest of that list. */
  lemma RestAfter<P(!new), D(!new)>(rows: seq<Row<P, D>>, before: (P, P) -> bool, i: nat, keep: Row<P, D> -> bool)
    requires StrictTotal(before) && Unique(rows) && i < |Sort(rows, before)|
    requires forall r :: r in rows ==> (keep(r) <==> before(Sort(rows, before)[i].pos, r.pos))
    ensures Sort(Select(rows, keep), before) == Sort(rows, before)[i + 1..]
  {
    var all := Sort(rows, before);
    var kept := Select(rows, keep);
    SortSorted(rows, before);
    SelectUnique(rows, keep);
    SortSorted(kept, before);
    forall x
      ensures x in Sort(kept, before) <==> x in all[i + 1..]
    {
      MembersAfter(all, before, i, x);
    }
    SortedIsUnique(Sort(kept, before), all[i + 1..], before);
  }

  // ---- the page cut ----

  datatype Page<P, D> = Page(items: seq<Row<P, D>>, hasMore: bool, next: Option<P>)

  function Take<T>(s: seq<T>, n: nat): seq<T> {
    if |s| <= n then s else s[..n]
  }

  /** One row more than the limit was fetched: keep `limit`, and continue after the last one kept. */
  function Cut<P, D>(fetched: seq<Row<P, D>>, limit: nat): Page<P, D>
    requires limit > 0
  {
    var items := Take(fetched, limit);
    var more := |fetched| > limit;
    Page(items, more, if more then Some(items[|items| - 1].pos) else None)
  }

  lemma CutOfList<P, D>(list: seq<Row<P, D>>, limit: nat)
    requires limit > 0
    ensures var page := Cut(Take(list, limit + 1), limit);
            && page.items == Take(list, limit)
            && page.hasMore == (|list| > limit)
            && page.next == (if |list| > limit then Some(list[limit - 1].pos) else None)
  {
  }

  function Sum(limits: seq<nat>): nat {
    if limits == [] then 0 else limits[0] + Sum(limits[1..])
  }

  predicate Positive(limits: seq<nat>) {
    forall i :: 0 <= i < |limits| ==> limits[i] > 0
  }

  lemma TakeSplits<T>(s: seq<T>, n: nat, m: nat)
    requires n <= |s|
    ensures Take(s, n + m) == s[..n] + Take(s[n..], m)
  {
  }

  lemma {:induction false} SelectShrinks<P(!new), D(!new)>(rows: seq<Row<P, D>>, keep: Row<P, D> -> bool)
    ensures |Select(rows, keep)| <= |rows|
  {
    if rows != [] {
      SelectShrinks(rows[1..], keep);
    }
  }

  lemma {:induction false} SelectAll<P(!new), D(!new)>(rows: seq<Row<P, D>>, keep: Row<P, D> -> bool)
    requires forall r :: r in rows ==> keep(r)
    ensures Select(rows, keep) == rows
  {
    if rows != [] {
      SelectAll(rows[1..], keep);
    }
  }

  // ---- following cursors ----

  datatype Answer<P, D, C> = Answer(items: seq<Row<P, D>>, hasMore: bool, next: Option<C>)

  /** How a client reads: request number, cursor and limit to an answer. */
  type Reader<P, D, !C> = (nat, Option<C>, nat) -> Answer<P, D, C>

  /** The rows a client gathers by following cursors with the given page sizes, until there is no cursor. */
  function Follow<P, D, C>(read: Reader<P, D, C>, n: nat, cursor: Option<C>, limits: seq<nat>): seq<Row<P, D>>
    decreases |limits|
  {
    if limits == [] then []
    else
      var page := read(n, cursor, limits[0]);
      page.items + if page.next.None? then [] else Follow(read, n + 1, page.next, limits[1..])
  }

  /** The answer a list gives after `i` of its rows. */
  function AnswerAt<P, D, C>(all: seq<Row<P, D>>, i: nat, limit: nat, next: Option<C>): Answer<P, D, C>
    requires i <= |all|
  {
    Answer(Take(all[i..], limit), |all| > i + limit, if |all| > i + limit then next else None)
  }

  predicate Answers<P(==), D(==), C(==)>(read: Reader<P, D, C>, all: seq<Row<P, D>>, cursors: seq<Option<C>>, n: nat, i: nat, limit: nat)
    requires i <= |all| && |cursors| == |all| + 1
  {
    read(n, cursors[i], limit) == AnswerAt(all, i, limit, if i + limit <= |all| then cursors[i + limit] else None)
  }

  lemma TakeSteps<T>(all: seq<T>, i: nat, limit: nat, rest: nat)
    requires i <= |all|
    ensures |all| <= i + limit ==> Take(all[i..], limit + rest) == Take(all[i..], limit)
    ensures |all| > i + limit ==> Take(all[i..], limit + rest) == Take(all[i..], limit) + Take(all[i + limit..], rest)
  {
    if |all| > i + limit {
      TakeSplits(all[i..], limit, rest);
      assert all[i..][limit..] == all[i + limit..];
    }
  }

  lemma FollowStep<P(!new), D(!new), C(!new)>(read: Reader<P, D, C>, all: seq<Row<P, D>>, n: nat, cursor: Option<C>, i: nat,
                                              limits: seq<nat>, next: Option<C>)
    requires limits != [] && i <= |all| && read(n, cursor, limits[0]) == AnswerAt(all, i, limits[0], next)
    requires |all| > i + limits[0] ==> next.Some? && Follow(read, n + 1, next, limits[1..]) == Take(all[i + limits[0]..], Sum(limits[1..]))
    ensures Follow(read, n, cursor, limits) == Take(all[i..], Sum(limits))
  {
    TakeSteps(all, i, limits[0], Sum(limits[1..]));
  }

  /**
   When every request after i rows answers with the rows that follow them, whenever a reader can make
   it, following cursors reads the list without gap or repetition. Each page holds a row at least, so
   after i rows at most i requests were made.
   */
  lemma {:induction false} FollowReadsOn<P(!new), D(!new), C(!new)>(read: Reader<P, D, C>, all: seq<Row<P, D>>, cursors: seq<Option<C>>,
                                                                    n: nat, i: nat, limits: seq<nat>)
    requires Positive(limits) && |cursors| == |all| + 1 && (i < |all| || i == 0) && n <= i
    requires forall j :: 0 < j < |cursors| ==> cursors[j].Some?
    requires forall m: nat, j, limit :: 0 < j < |all| && m <= j && limit > 0 ==> Answers(read, all, cursors, m, j, limit)
    requires forall limit :: limit > 0 ==> Answers(read, all, cursors, 0, 0, limit)
    ensures Follow(read, n, cursors[i], limits) == Take(all[i..], Sum(limits))
    decreases |limits|
  {
    if limits != [] {
      var j := i + limits[0];
      assert Answers(read, all, cursors, n, i, limits[0]);
      if |all| > j {
        FollowReadsOn(read, all, cursors, n + 1, j, limits[1..]);
      }
      FollowStep(read, all, n, cursors[i], i, limits, if j <= |all| then cursors[j] else None);
    }
  }
}
