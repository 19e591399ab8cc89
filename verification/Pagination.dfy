/** Cursor pagination of the job store (internal/store/sqlite/sqlite.go, ListJobs). The order is the
    byte order of the stored updated_at strings. */
module Pagination {
  import opened Sorting

  datatype Row = Row(id: string, repo: string, status: string, updated: string)

  datatype Query = Query(repo: string, status: string, limit: int, cursor: string)

  datatype Page = Page(jobs: seq<Row>, next: string)

  /** A limit the query does not accept stands for 50. */
  function Limit(q: Query): (n: nat)
    ensures 1 <= n <= 200
  {
    if q.limit <= 0 || q.limit > 200 then 50 else q.limit
  }

  predicate Matches(q: Query, r: Row) { (q.repo == "" || r.repo == q.repo) && (q.status == "" || r.status == q.status) }

  /** The rows of the table the WHERE clause selects, in table order. */
  function Where(table: seq<Row>, q: Query): seq<Row> {
    if table == [] then []
    else if Matches(q, table[0]) && (q.cursor == "" || Less(table[0].updated, q.cursor))
    then [table[0]] + Where(table[1..], q)
    else Where(table[1..], q)
  }

  /** In decreasing order of updated_at, equal ones allowed. */
  ghost predicate Ordered(rows: seq<Row>) {
    forall i, j :: 0 <= i < j < |rows| ==> AtMost(rows[j].updated, rows[i].updated)
  }

  /** ORDER BY updated_at DESC: every row put before the first one with a lesser updated_at. */
  function Descending(rows: seq<Row>): seq<Row> {
    if rows == [] then [] else Place(rows[0], Descending(rows[1..]))
  }

  function Place(r: Row, rows: seq<Row>): seq<Row> {
    if rows == [] || Less(rows[0].updated, r.updated) then [r] + rows else [rows[0]] + Place(r, rows[1..])
  }

  /** The result set: LIMIT rows of the ordered selection. */
  function Select(table: seq<Row>, q: Query, limit: nat): seq<Row> {
    var rows := Descending(Where(table, q));
    if |rows| <= limit then rows else rows[..limit]
  }

  method ListJobs(table: seq<Row>, q: Query) returns (page: Page)
    ensures page == PageOf(Descending(Where(table, q)), Limit(q))
  {
    var limit: nat := if q.limit <= 0 || q.limit > 200 then 50 else q.limit;
    var rows := Select(table, q, limit + 1);
    var jobs := [];
    for i := 0 to |rows|
      invariant jobs == rows[..i]
    {
      jobs := jobs + [rows[i]];
    }
    var next := "";
    if |jobs| > limit {
      next := jobs[limit - 1].updated;
      jobs := jobs[..limit];
    }
    return Page(jobs, next);
  }

  /** The first `limit` rows, and the cursor behind them if there are more. */
  function PageOf(rows: seq<Row>, limit: nat): Page
    requires limit >= 1
  {
    if |rows| > limit then Page(rows[..limit], rows[limit - 1].updated) else Page(rows, "")
  }

  // ----- the ordered selection -----

  lemma {:induction false} PlaceMembers(r: Row, rows: seq<Row>)
    ensures multiset(Place(r, rows)) == multiset{r} + multiset(rows)
    ensures |Place(r, rows)| == |rows| + 1
  {
    if rows != [] && !Less(rows[0].updated, r.updated) {
      PlaceMembers(r, rows[1..]);
      assert rows == [rows[0]] + rows[1..];
    }
  }

  lemma PlaceMember(r: Row, rows: seq<Row>, x: Row)
    ensures x in Place(r, rows) <==> x == r || x in rows
  {
    PlaceMembers(r, rows);
    assert x in Place(r, rows) <==> x in multiset(Place(r, rows));
    assert x in rows <==> x in multiset(rows);
  }

  lemma {:induction false} PlaceOrdered(r: Row, rows: seq<Row>)
    requires Ordered(rows)
    ensures Ordered(Place(r, rows))
  {
    if rows == [] {
    } else if Less(rows[0].updated, r.updated) {
      forall j | 0 <= j < |rows| ensures AtMost(rows[j].updated, r.updated) {
        if rows[j].updated != rows[0].updated {
          LessTransitive(rows[j].updated, rows[0].updated, r.updated);
        }
      }
    } else {
      var rest := Place(r, rows[1..]);
      PlaceOrdered(r, rows[1..]);
      LessTotal(rows[0].updated, r.updated);
      forall j | 0 <= j < |rest| ensures AtMost(rest[j].updated, rows[0].updated) {
        PlaceMember(r, rows[1..], rest[j]);
        if rest[j] != r {
          assert rest[j] in rows[1..];
          var k :| 0 <= k < |rows[1..]| && rows[1..][k] == rest[j];
          assert rows[k + 1] == rest[j];
        }
      }
    }
  }

  lemma {:induction false} WhereMembers(table: seq<Row>, q: Query, x: Row)
    ensures x in Where(table, q) <==> x in table && Matches(q, x) && (q.cursor == "" || Less(x.updated, q.cursor))
  {
    if table != [] {
      WhereMembers(table[1..], q, x);
      assert table == [table[0]] + table[1..];
    }
  }

  lemma {:induction false} DescendingOrdered(rows: seq<Row>)
    ensures Ordered(Descending(rows)) && multiset(Descending(rows)) == multiset(rows)
    ensures |Descending(rows)| == |rows|
  {
    if rows != [] {
      DescendingOrdered(rows[1..]);
      PlaceOrdered(rows[0], Descending(rows[1..]));
      PlaceMembers(rows[0], Descending(rows[1..]));
      assert rows == [rows[0]] + rows[1..];
    }
  }

  lemma DescendingMembers(rows: seq<Row>, x: Row)
    ensures x in Descending(rows) <==> x in rows
  {
    DescendingOrdered(rows);
    assert x in Descending(rows) <==> x in multiset(Descending(rows));
    assert x in rows <==> x in multiset(rows);
  }

  /** What a query without a cursor selects, in order. */
  function All(table: seq<Row>, q: Query): seq<Row> { Descending(Where(table, q.(cursor := ""))) }

  /** The matching rows, each as often as the table holds it, in decreasing order. */
  lemma AllIsTheMatchingRows(table: seq<Row>, q: Query)
    ensures Ordered(All(table, q))
    ensures multiset(All(table, q)) == multiset(Where(table, q.(cursor := "")))
    ensures forall x :: x in All(table, q) <==> x in table && Matches(q, x)
  {
    var q' := q.(cursor := "");
    DescendingOrdered(Where(table, q'));
    forall x ensures x in All(table, q) <==> x in table && Matches(q, x) {
      DescendingMembers(Where(table, q'), x);
      WhereMembers(table, q', x);
    }
  }

  /** The rows with a lesser updated_at than the cursor. */
  function Below(rows: seq<Row>, c: string): seq<Row> {
    if rows == [] then []
    else if Less(rows[0].updated, c) then [rows[0]] + Below(rows[1..], c)
    else Below(rows[1..], c)
  }

  lemma {:induction false} WhereBelow(table: seq<Row>, q: Query)
    requires q.cursor != ""
    ensures Where(table, q) == Below(Where(table, q.(cursor := "")), q.cursor)
  {
    if table != [] {
      WhereBelow(table[1..], q);
      assert Matches(q, table[0]) == Matches(q.(cursor := ""), table[0]);
      if Matches(q, table[0]) {
        assert ([table[0]] + Where(table[1..], q.(cursor := "")))[1..] == Where(table[1..], q.(cursor := ""));
      }
    }
  }

  lemma {:induction false} BelowPlace(r: Row, rows: seq<Row>, c: string)
    ensures Below(Place(r, rows), c) == if Less(r.updated, c) then Place(r, Below(rows, c)) else Below(rows, c)
  {
    if rows == [] || Less(rows[0].updated, r.updated) {
      assert ([r] + rows)[1..] == rows;
      if rows != [] && Less(r.updated, c) {
        LessTransitive(rows[0].updated, r.updated, c);
      }
    } else {
      BelowPlace(r, rows[1..], c);
      var rest := Place(r, rows[1..]);
      assert ([rows[0]] + rest)[1..] == rest;
      if Less(rows[0].updated, c) {
        assert ([rows[0]] + Below(rows[1..], c))[1..] == Below(rows[1..], c);
      } else if Less(r.updated, c) {
        NotBelow(r, rows[0], c);
      }
    }
  }

  lemma NotBelow(r: Row, x: Row, c: string)
    requires Less(r.updated, c) && !Less(x.updated, c)
    ensures !Less(x.updated, r.updated)
  {
    if Less(x.updated, r.updated) {
      LessTransitive(x.updated, r.updated, c);
    }
  }

  /** Selecting behind a cursor and ordering can be done in either order. */
  lemma {:induction false} DescendingBelow(rows: seq<Row>, c: string)
    ensures Descending(Below(rows, c)) == Below(Descending(rows), c)
  {
    if rows != [] {
      DescendingBelow(rows[1..], c);
      BelowPlace(rows[0], Descending(rows[1..]), c);
      if Less(rows[0].updated, c) {
        assert ([rows[0]] + Below(rows[1..], c))[1..] == Below(rows[1..], c);
      }
    }
  }

  /** The first place after k that does not tie with it. */
  function AfterTies(rows: seq<Row>, k: nat): (m: nat)
    requires k < |rows|
    ensures k < m <= |rows|
    ensures forall i :: k <= i < m ==> rows[i].updated == rows[k].updated
    ensures m < |rows| ==> rows[m].updated != rows[k].updated
    decreases |rows| - k
  {
    if k + 1 < |rows| && rows[k + 1].updated == rows[k].updated then AfterTies(rows, k + 1) else k + 1
  }

  lemma {:induction false} BelowNone(rows: seq<Row>, c: string, m: nat)
    requires m <= |rows| && forall i :: 0 <= i < m ==> !Less(rows[i].updated, c)
    ensures Below(rows, c) == Below(rows[m..], c)
  {
    if m > 0 {
      BelowNone(rows[1..], c, m - 1);
      assert rows[1..][m - 1..] == rows[m..];
    } else {
      assert rows[0..] == rows;
    }
  }

  lemma {:induction false} BelowAll(rows: seq<Row>, c: string)
    requires forall i :: 0 <= i < |rows| ==> Less(rows[i].updated, c)
    ensures Below(rows, c) == rows
  {
    if rows != [] {
      BelowAll(rows[1..], c);
      assert rows == [rows[0]] + rows[1..];
    }
  }

  lemma BelowIsSuffix(all: seq<Row>, k: nat)
    requires Ordered(all) && k < |all|
    ensures Below(all, all[k].updated) == all[AfterTies(all, k)..]
  {
    var c, m := all[k].updated, AfterTies(all, k);
    forall i | 0 <= i < m ensures !Less(all[i].updated, c) {
      if Less(all[i].updated, c) {
        LessStrict(all[i].updated, c);
      }
    }
    forall i | m <= i < |all| ensures Less(all[i].updated, c) {
      assert AtMost(all[m].updated, all[k].updated);
      if i > m && all[i].updated != all[m].updated {
        LessTransitive(all[i].updated, all[m].updated, c);
      }
    }
    BelowNone(all, c, m);
    BelowAll(all[m..], c);
  }

  /** Behind the cursor of row k come exactly the rows after it that do not tie with it. */
  lemma BehindCursor(table: seq<Row>, q: Query, k: nat)
    requires k < |All(table, q)| && All(table, q)[k].updated != ""
    ensures Descending(Where(table, q.(cursor := All(table, q)[k].updated))) == All(table, q)[AfterTies(All(table, q), k)..]
  {
    var c := All(table, q)[k].updated;
    AllIsTheMatchingRows(table, q);
    WhereBelow(table, q.(cursor := c));
    DescendingBelow(Where(table, q.(cursor := "")), c);
    BelowIsSuffix(All(table, q), k);
  }

  /** What one page holds: rows of the table with the asked repository and status, behind the cursor, in
      decreasing order and at most as many as asked for (50 unless that is from 1 to 200); and all such
      rows, unless there are more than that. */
  lemma PageExact(table: seq<Row>, q: Query)
    ensures var page, limit := PageOf(Descending(Where(table, q)), Limit(q)), if 1 <= q.limit <= 200 then q.limit else 50;
            && Ordered(page.jobs)
            && (forall r :: r in page.jobs ==> r in table && Asked(q, r))
            && (if |Where(table, q)| > limit then |page.jobs| == limit && page.next == page.jobs[limit - 1].updated
                else page.next == "" && forall r :: r in table && Asked(q, r) ==> r in page.jobs)
  {
    var rows := Descending(Where(table, q));
    DescendingOrdered(Where(table, q));
    forall r ensures r in rows <==> r in table && Asked(q, r) {
      DescendingMembers(Where(table, q), r);
      WhereMembers(table, q, r);
    }
  }

  /** The row has the asked repository and status, if any, and is behind the cursor. */
  predicate Asked(q: Query, r: Row) {
    && (q.repo != "" ==> r.repo == q.repo) && (q.status != "" ==> r.status == q.status)
    && (q.cursor != "" ==> Less(r.updated, q.cursor))
  }

  // ----- following the cursors -----

  /** A cursor that is a selected row's updated_at selects fewer rows. */
  lemma {:induction false} CursorShrinks(table: seq<Row>, q: Query, x: Row)
    requires x.updated != "" && (q.cursor == "" || Less(x.updated, q.cursor))
    ensures |Where(table, q.(cursor := x.updated))| <= |Where(table, q)|
    ensures x in table && Matches(q, x) ==> |Where(table, q.(cursor := x.updated))| < |Where(table, q)|
  {
    if table != [] {
      CursorShrinks(table[1..], q, x);
      assert table == [table[0]] + table[1..];
      if Less(table[0].updated, x.updated) && q.cursor != "" {
        LessTransitive(table[0].updated, x.updated, q.cursor);
      }
      if table[0] == x && Less(x.updated, x.updated) {
        LessStrict(x.updated, x.updated);
      }
    }
  }

  lemma NextShrinks(table: seq<Row>, q: Query)
    requires var page := PageOf(Descending(Where(table, q)), Limit(q)); page.next != ""
    ensures var page := PageOf(Descending(Where(table, q)), Limit(q));
            |Where(table, q.(cursor := page.next))| < |Where(table, q)|
  {
    var rows := Descending(Where(table, q));
    var x := rows[Limit(q) - 1];
    assert x in rows;
    DescendingMembers(Where(table, q), x);
    WhereMembers(table, q, x);
    CursorShrinks(table, q, x);
  }

  /** The pages a client sees who follows NextCursor. */
  function Follow(table: seq<Row>, q: Query): seq<Page>
    decreases |Where(table, q)|
  {
    var page := PageOf(Descending(Where(table, q)), Limit(q));
    if page.next == "" then [page]
    else
      NextShrinks(table, q);
      [page] + Follow(table, q.(cursor := page.next))
  }

  function Rows(pages: seq<Page>): seq<Row> {
    if pages == [] then [] else pages[0].jobs + Rows(pages[1..])
  }

  lemma RowsCons(page: Page, rest: seq<Page>)
    ensures Rows([page] + rest) == page.jobs + Rows(rest)
  {
    assert ([page] + rest)[1..] == rest;
  }

  /** The ordered rows as the client gets to see them: page by page, each time leaving out the rows
      that tie with the last one of a page. */
  function Seen(rows: seq<Row>, limit: nat): seq<Page>
    requires limit >= 1
    decreases |rows|
  {
    var page := PageOf(rows, limit);
    if page.next == "" then [page] else [page] + Seen(rows[AfterTies(rows, limit - 1)..], limit)
  }

  /** The query selects the rows from the i-th on. */
  ghost predicate SelectsFrom(table: seq<Row>, q: Query, all: seq<Row>, i: nat) {
    all == All(table, q) && i <= |all| && Descending(Where(table, q)) == all[i..]
  }

  /** The query behind the k-th row. */
  lemma SelectsBehind(table: seq<Row>, q: Query, all: seq<Row>, k: nat) returns (next: Query)
    requires all == All(table, q) && k < |all| && all[k].updated != ""
    ensures next == q.(cursor := all[k].updated) && SelectsFrom(table, next, all, AfterTies(all, k))
  {
    next := q.(cursor := all[k].updated);
    BehindCursor(table, q, k);
    assert next.(cursor := "") == q.(cursor := "");
  }

  lemma NextSelects(table: seq<Row>, q: Query, all: seq<Row>, i: nat) returns (next: Query, m: nat)
    requires SelectsFrom(table, q, all, i) && PageOf(all[i..], Limit(q)).next != ""
    ensures next == q.(cursor := PageOf(all[i..], Limit(q)).next)
    ensures SelectsFrom(table, next, all, m) && m > i && all[m..] == all[i..][AfterTies(all[i..], Limit(q) - 1)..]
  {
    var j := Limit(q) - 1;
    assert all[i..][j] == all[i + j];
    next := SelectsBehind(table, q, all, i + j);
    m := AfterTies(all, i + j);
    TiesShift(all, i, j);
  }

  lemma {:induction false} TiesShift(all: seq<Row>, i: nat, k: nat)
    requires i + k < |all|
    ensures AfterTies(all, i + k) == i + AfterTies(all[i..], k)
    decreases |all| - k
  {
    if i + k + 1 < |all| {
      assert all[i..][k] == all[i + k] && all[i..][k + 1] == all[i + k + 1];
      if all[i + k + 1].updated == all[i + k].updated {
        TiesShift(all, i, k + 1);
      }
    }
  }

  lemma SeenStep(rows: seq<Row>, limit: nat)
    requires limit >= 1
    ensures var page := PageOf(rows, limit);
            Seen(rows, limit) == if page.next == "" then [page] else [page] + Seen(rows[AfterTies(rows, limit - 1)..], limit)
  {
  }

  lemma FollowStep(table: seq<Row>, q: Query, rows: seq<Row>)
    requires rows == Descending(Where(table, q))
    ensures var page := PageOf(rows, Limit(q));
            Follow(table, q) == if page.next == "" then [page] else [page] + Follow(table, q.(cursor := page.next))
  {
  }

  /** A page that is not the last, and what follows it. */
  lemma SeesStep(table: seq<Row>, q: Query, rows: seq<Row>, next: Query, after: seq<Row>)
    requires rows == Descending(Where(table, q)) && PageOf(rows, Limit(q)).next != ""
    requires next == q.(cursor := PageOf(rows, Limit(q)).next) && after == rows[AfterTies(rows, Limit(q) - 1)..]
    requires Follow(table, next) == Seen(after, Limit(next))
    ensures Follow(table, q) == Seen(rows, Limit(q))
  {
    FollowStep(table, q, rows);
    SeenStep(rows, Limit(q));
  }

  lemma {:induction false} FollowSees(table: seq<Row>, q: Query, all: seq<Row>, i: nat)
    requires SelectsFrom(table, q, all, i)
    ensures Follow(table, q) == Seen(all[i..], Limit(q))
    decreases |all| - i
  {
    if PageOf(all[i..], Limit(q)).next == "" {
      FollowStep(table, q, all[i..]);
    } else {
      var next, m := NextSelects(table, q, all, i);
      FollowSees(table, next, all, m);
      SeesStep(table, q, all[i..], next, all[m..]);
    }
  }

  /** One page even for no rows, otherwise the number of rows over the limit, rounded up. */
  function PageCount(n: nat, limit: nat): (k: nat)
    requires limit >= 1
    ensures k >= 1
    decreases n
  {
    if n <= limit then 1 else 1 + PageCount(n - limit, limit)
  }

  lemma {:induction false} PageCountIsCeiling(n: nat, limit: nat)
    requires limit >= 1
    ensures var k := PageCount(n, limit); k >= 1 && n <= k * limit && (k == 1 || (k - 1) * limit < n)
    decreases n
  {
    if n > limit {
      PageCountIsCeiling(n - limit, limit);
      var k := PageCount(n - limit, limit);
      assert (k + 1) * limit == k * limit + limit;
      assert k * limit == (k - 1) * limit + limit;
    }
  }

  /** No two rows tie across the boundary between one page and the next. */
  predicate Untied(rows: seq<Row>, limit: nat)
    requires limit >= 1
    decreases |rows|
  {
    |rows| > limit ==> rows[limit - 1].updated != rows[limit].updated && Untied(rows[limit..], limit)
  }

  lemma {:induction false} SeenAtMost(rows: seq<Row>, limit: nat)
    requires limit >= 1
    ensures |Rows(Seen(rows, limit))| <= |rows|
    decreases |rows|
  {
    var page := PageOf(rows, limit);
    if page.next == "" {
      RowsCons(page, []);
    } else {
      var rest := rows[AfterTies(rows, limit - 1)..];
      SeenAtMost(rest, limit);
      RowsCons(page, Seen(rest, limit));
    }
  }

  /** At an untied boundary the next page begins where this one ends. */
  lemma UntiedStep(rows: seq<Row>, limit: nat)
    requires 1 <= limit < |rows| && Ordered(rows) && rows[limit - 1].updated != rows[limit].updated
    ensures Seen(rows, limit) == [PageOf(rows, limit)] + Seen(rows[limit..], limit)
  {
    assert AtMost(rows[limit].updated, rows[limit - 1].updated);
    assert AfterTies(rows, limit - 1) == limit;
  }

  /** At a tied one rows are lost. */
  lemma TiedStep(rows: seq<Row>, limit: nat)
    requires 1 <= limit < |rows| && rows[limit - 1].updated == rows[limit].updated
    ensures |Rows(Seen(rows, limit))| < |rows|
  {
    var page, m := PageOf(rows, limit), AfterTies(rows, limit - 1);
    if page.next == "" {
      RowsCons(page, []);
    } else {
      assert m > limit;
      SeenAtMost(rows[m..], limit);
      RowsCons(page, Seen(rows[m..], limit));
    }
  }

  /** The client sees all of the rows, on as many pages as it takes. */
  predicate AllSeen(rows: seq<Row>, limit: nat)
    requires limit >= 1
  {
    Rows(Seen(rows, limit)) == rows
  }

  lemma SeenMore(rows: seq<Row>, limit: nat)
    requires 1 <= limit < |rows| && Ordered(rows) && rows[limit - 1].updated != rows[limit].updated
    ensures AllSeen(rows, limit) <==> AllSeen(rows[limit..], limit)
    ensures |Seen(rows, limit)| == 1 + |Seen(rows[limit..], limit)|
  {
    UntiedStep(rows, limit);
    var page, rest := PageOf(rows, limit), Seen(rows[limit..], limit);
    RowsCons(page, rest);
    SameAfterPage(rows, Rows(rest), limit);
  }

  lemma SeenAtOnce(rows: seq<Row>, limit: nat)
    requires |rows| <= limit && limit >= 1
    ensures AllSeen(rows, limit) && |Seen(rows, limit)| == 1
  {
    RowsCons(PageOf(rows, limit), []);
  }

  /** The client sees all the rows if and only if no tie crosses a page boundary; then the pages are
      as many as it takes. */
  lemma {:induction false} SeenExact(rows: seq<Row>, limit: nat)
    requires limit >= 1 && Ordered(rows)
    ensures AllSeen(rows, limit) <==> Untied(rows, limit)
    ensures Untied(rows, limit) ==> |Seen(rows, limit)| == PageCount(|rows|, limit)
    decreases |rows|
  {
    if |rows| <= limit {
      SeenAtOnce(rows, limit);
    } else if rows[limit - 1].updated == rows[limit].updated {
      TiedStep(rows, limit);
    } else {
      var rest := rows[limit..];
      SeenMore(rows, limit);
      assert Ordered(rest);
      SeenExact(rest, limit);
      assert PageCount(|rows|, limit) == 1 + PageCount(|rest|, limit);
      assert Untied(rows, limit) <==> Untied(rest, limit);
    }
  }

  lemma SameAfterPage(rows: seq<Row>, rest: seq<Row>, limit: nat)
    requires limit <= |rows|
    ensures rows[..limit] + rest == rows <==> rest == rows[limit..]
  {
    assert (rows[..limit] + rest)[limit..] == rest;
    assert rows[..limit] + rows[limit..] == rows;
  }

  lemma {:induction false} LastPage(rows: seq<Row>, limit: nat)
    requires limit >= 1
    ensures Seen(rows, limit) != [] && Seen(rows, limit)[|Seen(rows, limit)| - 1].next == ""
    decreases |rows|
  {
    if PageOf(rows, limit).next != "" {
      LastPage(rows[AfterTies(rows, limit - 1)..], limit);
    }
  }

  /** For any table: following NextCursor from the empty cursor ends, and visits all the matching rows,
      each once and in decreasing stored order, if and only if no two rows with the same updated_at
      come to lie on either side of a page boundary. Then it takes ceil(n / limit) pages, one for none. */
  lemma FollowingExact(table: seq<Row>, q: Query)
    requires q.cursor == ""
    ensures var pages, all := Follow(table, q), All(table, q);
            && pages != [] && pages[|pages| - 1].next == ""
            && (Rows(pages) == all <==> Untied(all, Limit(q)))
            && (Untied(all, Limit(q)) ==> |pages| == PageCount(|all|, Limit(q)))
  {
    var all := All(table, q);
    assert q.(cursor := "") == q && all[0..] == all;
    FollowSees(table, q, all, 0);
    AllIsTheMatchingRows(table, q);
    SeenExact(all, Limit(q));
    LastPage(all, Limit(q));
  }

  /** No two rows have the same updated_at. */
  ghost predicate Distinct(table: seq<Row>) {
    forall a, b :: a in table && b in table && a.updated == b.updated ==> a == b
  }

  lemma {:induction false} WhereWithin(table: seq<Row>, q: Query)
    ensures multiset(Where(table, q)) <= multiset(table)
  {
    if table != [] {
      WhereWithin(table[1..], q);
      assert table == [table[0]] + table[1..];
    }
  }

  lemma Within(some: seq<Row>, rows: seq<Row>)
    requires multiset(some) <= multiset(rows) && NoDuplicates(rows) && Distinct(rows)
    ensures NoDuplicates(some) && Distinct(some)
  {
    NoMore(some, rows);
  }

  lemma {:induction false} DistinctUntied(rows: seq<Row>, limit: nat)
    requires limit >= 1 && NoDuplicates(rows) && Distinct(rows)
    ensures Untied(rows, limit)
    decreases |rows|
  {
    if |rows| > limit {
      assert rows[limit - 1] != rows[limit];
      assert rows == rows[..limit] + rows[limit..];
      Within(rows[limit..], rows);
      DistinctUntied(rows[limit..], limit);
    }
  }

  /** So with pairwise distinct times every matching row is visited exactly once. */
  lemma FollowingVisitsAll(table: seq<Row>, q: Query)
    requires q.cursor == "" && NoDuplicates(table) && Distinct(table)
    ensures var pages := Follow(table, q);
            && Ordered(Rows(pages)) && NoDuplicates(Rows(pages))
            && (forall x :: x in Rows(pages) <==> x in table && Matches(q, x))
            && |pages| == PageCount(|Rows(pages)|, Limit(q))
  {
    AllIsTheMatchingRows(table, q);
    WhereWithin(table, q.(cursor := ""));
    Within(All(table, q), table);
    DistinctUntied(All(table, q), Limit(q));
    FollowingExact(table, q);
  }
}
