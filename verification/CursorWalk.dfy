/** The cursor pages of session events, and what following the cursor to its end returns. */
module CursorWalk {
  import opened Models

  datatype Row = Row(id: int, sessionId: string)

  datatype Page = Page(data: seq<Row>, nextId: int, hasMore: bool)

  const MAX_CURSOR_COUNT: nat := 100

  predicate Increasing(rows: seq<Row>) {
    forall i, j :: 0 <= i < j < |rows| ==> rows[i].id < rows[j].id
  }

  predicate Matches(row: Row, session: Option<string>, start: int) {
    row.id > start && (session.Some? ==> row.sessionId == session.value)
  }

  /** `SELECT ... WHERE [session_id = $1 AND] id > $2 ORDER BY id ASC`, on a table listed by its primary key. */
  function Matching(table: seq<Row>, session: Option<string>, start: int): seq<Row> {
    if table == [] then []
    else
      Matching(table[..|table| - 1], session, start) +
      if Matches(table[|table| - 1], session, start) then [table[|table| - 1]] else []
  }

  lemma {:induction false} MatchingMembers(table: seq<Row>, session: Option<string>, start: int, row: Row)
    ensures row in Matching(table, session, start) <==> row in table && Matches(row, session, start)
  {
    if table == [] {
    } else {
      var front := table[..|table| - 1];
      MatchingMembers(front, session, start, row);
      assert table == front + [table[|table| - 1]];
    }
  }

  lemma {:induction false} MatchingIncreasing(table: seq<Row>, session: Option<string>, start: int)
    requires Increasing(table)
    ensures Increasing(Matching(table, session, start))
  {
    if table == [] {
    } else {
      var front, last := table[..|table| - 1], table[|table| - 1];
      var rows := Matching(front, session, start);
      MatchingIncreasing(front, session, start);
      forall i | 0 <= i < |rows| ensures rows[i].id < last.id {
        MatchingMembers(front, session, start, rows[i]);
      }
    }
  }

  function Clamp(count: int): nat {
    if count < 1 then 1 else if count > MAX_CURSOR_COUNT then MAX_CURSOR_COUNT else count
  }

  /** A page holds 1 to 100 rows. */
  lemma ClampInNumbers(count: int)
    ensures 1 <= count <= 100 ==> Clamp(count) == count
    ensures count < 1 ==> Clamp(count) == 1
    ensures count > 100 ==> Clamp(count) == 100
  {
  }

  function From(start: int): nat {
    if start < 0 then 0 else start
  }

  /** A page in terms of all the rows that match behind its cursor. */
  function FirstPage(all: seq<Row>, from: nat, limit: nat): Page {
    var data := if |all| > limit then all[..limit] else all;
    Page(data, if data == [] then from else data[|data| - 1].id, |all| > limit)
  }

  function PageOf(table: seq<Row>, session: Option<string>, start: int, count: int): Page {
    FirstPage(Matching(table, session, From(start)), From(start), Clamp(count))
  }

  /** The query fetches one row more than the page holds, only to learn whether there is one. */
  method ListSessionEvents(table: seq<Row>, session: Option<string>, start: int, count: int) returns (page: Page)
    ensures |page.data| <= 100 && (1 <= count <= 100 ==> |page.data| <= count)
    ensures page.hasMore ==> |page.data| == if count < 1 then 1 else if count > 100 then 100 else count
    ensures page.data != [] ==> page.nextId == page.data[|page.data| - 1].id
    ensures page.data == [] ==> page.nextId == if start < 0 then 0 else start
    ensures page == PageOf(table, session, start, count)
  {
    var from, limit := From(start), Clamp(count);
    var all := Matching(table, session, from);
    var events := if |all| > limit + 1 then all[..limit + 1] else all;
    var hasMore := |events| > limit;
    if hasMore {
      events := events[..limit];
    }
    var nextId := if events == [] then from else events[|events| - 1].id;
    return Page(events, nextId, hasMore);
  }

  /** The page holds exactly the matching rows up to its `nextId`, all of them when nothing follows. */
  lemma PageHolds(table: seq<Row>, session: Option<string>, start: int, count: int, row: Row)
    requires Increasing(table)
    ensures var page := PageOf(table, session, start, count);
      && page.nextId >= From(start)
      && (row in page.data <==>
          row in table && Matches(row, session, From(start)) && (page.hasMore ==> row.id <= page.nextId))
      && (row in page.data ==> row.id <= page.nextId)
  {
    var all, limit := Matching(table, session, From(start)), Clamp(count);
    var page := PageOf(table, session, start, count);
    MatchingIncreasing(table, session, From(start));
    MatchingMembers(table, session, From(start), row);
    if page.data != [] {
      MatchingMembers(table, session, From(start), page.data[|page.data| - 1]);
    }
    if row in all {
      var i :| 0 <= i < |all| && all[i] == row;
      if page.hasMore && i < limit {
        assert page.data[i] == row;
      }
    }
  }

  /** A row that matches lies behind the start and is of the session asked for; it is on the page or after it. */
  lemma PageHoldsInItsFields(table: seq<Row>, session: Option<string>, start: int, count: int, row: Row)
    requires Increasing(table)
    ensures var page := PageOf(table, session, start, count);
      && (row in page.data ==> row.id > start && row.id > 0 && (session.Some? ==> row.sessionId == session.value))
      && (row in table && row.id > start && row.id > 0 && (session.Some? ==> row.sessionId == session.value) ==>
            row in page.data || (page.hasMore && row.id > page.nextId))
  {
    PageHolds(table, session, start, count, row);
  }

  lemma PageIncreasing(table: seq<Row>, session: Option<string>, start: int, count: int)
    requires Increasing(table)
    ensures Increasing(PageOf(table, session, start, count).data)
  {
    MatchingIncreasing(table, session, From(start));
  }

  // ---------------------------------------------------------------- following the cursor

  /**
   The pages a client reads by following `next_id` while there is more. Each page sees its own
   snapshot of the table; a walk that runs out of snapshots is not finished.
   */
  ghost function Walk(tables: seq<seq<Row>>, session: Option<string>, start: int, count: int): seq<Page> {
    if tables == [] then []
    else
      var page := PageOf(tables[0], session, start, count);
      [page] + if page.hasMore then Walk(tables[1..], session, page.nextId, count) else []
  }

  ghost predicate Finished(pages: seq<Page>) {
    pages != [] && !pages[|pages| - 1].hasMore
  }

  function Collected(pages: seq<Page>): seq<Row> {
    if pages == [] then [] else pages[0].data + Collected(pages[1..])
  }

  lemma PrependPage(page: Page, rest: seq<Page>)
    ensures Collected([page] + rest) == page.data + Collected(rest)
    ensures Finished([page] + rest) <==> if rest == [] then !page.hasMore else Finished(rest)
  {
    assert ([page] + rest)[1..] == rest;
  }

  lemma WalkUnfolds(tables: seq<seq<Row>>, session: Option<string>, start: int, count: int)
    requires tables != []
    ensures var page := PageOf(tables[0], session, start, count);
      var rest := if page.hasMore then Walk(tables[1..], session, page.nextId, count) else [];
      && Walk(tables, session, start, count) == [page] + rest
      && Collected(Walk(tables, session, start, count)) == page.data + Collected(rest)
      && (Finished(Walk(tables, session, start, count)) <==> !page.hasMore || Finished(rest))
      && |Walk(tables, session, start, count)| == 1 + |rest|
  {
    var page := PageOf(tables[0], session, start, count);
    var rest := if page.hasMore then Walk(tables[1..], session, page.nextId, count) else [];
    PrependPage(page, rest);
  }

  ghost predicate AllIncreasing(tables: seq<seq<Row>>) {
    forall i :: 0 <= i < |tables| ==> Increasing(tables[i])
  }

  /** Whatever happens to the table, a walk returns rows in id order, none twice, all behind the start. */
  lemma {:induction false} CollectedInOrder(tables: seq<seq<Row>>, session: Option<string>, start: int, count: int)
    requires AllIncreasing(tables)
    ensures Increasing(Collected(Walk(tables, session, start, count)))
    ensures forall r :: r in Collected(Walk(tables, session, start, count)) ==> Matches(r, session, From(start))
    decreases |tables|
  {
    if tables == [] {
    } else {
      var page := PageOf(tables[0], session, start, count);
      WalkUnfolds(tables, session, start, count);
      PageIncreasing(tables[0], session, start, count);
      forall r | r in page.data {
        PageHolds(tables[0], session, start, count, r);
      }
      if page.hasMore {
        CollectedInOrder(tables[1..], session, page.nextId, count);
        var rest := Collected(Walk(tables[1..], session, page.nextId, count));
        forall i, j | 0 <= i < |page.data| && 0 <= j < |rest| ensures page.data[i].id < rest[j].id {
          assert page.data[i] in page.data && rest[j] in rest;
        }
      }
    }
  }

  /** The page whose range of ids covers the row saw the row. */
  ghost predicate SeenInTime(tables: seq<seq<Row>>, session: Option<string>, start: int, count: int, row: Row)
    requires tables != []
    decreases |tables|
  {
    var page := PageOf(tables[0], session, start, count);
    if page.hasMore && row.id > page.nextId && |tables| > 1
    then SeenInTime(tables[1..], session, page.nextId, count, row)
    else row in tables[0]
  }

  /** A finished walk returns a row if and only if it matches and was there when the page covering its id was read. */
  lemma {:induction false} ReturnedIffSeenInTime(tables: seq<seq<Row>>, session: Option<string>, start: int,
                                                 count: int, row: Row)
    requires AllIncreasing(tables) && Finished(Walk(tables, session, start, count))
    ensures row in Collected(Walk(tables, session, start, count)) <==>
            Matches(row, session, From(start)) && SeenInTime(tables, session, start, count, row)
    decreases |tables|
  {
    var page := PageOf(tables[0], session, start, count);
    WalkUnfolds(tables, session, start, count);
    PageHolds(tables[0], session, start, count, row);
    if page.hasMore {
      ReturnedIffSeenInTime(tables[1..], session, page.nextId, count, row);
    }
  }

  lemma MatchingAppend(front: seq<Row>, last: Row, session: Option<string>, start: int)
    ensures Matching(front + [last], session, start) ==
            Matching(front, session, start) + if Matches(last, session, start) then [last] else []
  {
    assert (front + [last])[..|front|] == front;
  }

  lemma FirstOfTwo(row2: Row, row3: Row)
    requires row2.id == 2 && row3.id == 3
    ensures PageOf([row2, row3], None, 0, 1) == Page([row2], 2, true)
  {
    assert [] + [row2] == [row2] && [row2] + [row3] == [row2, row3];
    MatchingAppend([], row2, None, 0);
    MatchingAppend([row2], row3, None, 0);
  }

  lemma LastOfThree(row1: Row, row2: Row, row3: Row)
    requires row1.id == 1 && row2.id == 2 && row3.id == 3
    ensures PageOf([row1, row2, row3], None, 2, 1) == Page([row3], 3, false)
  {
    assert [row1, row2] + [row3] == [row1, row2, row3];
    NothingBehindLast([row1, row2], None, 2);
    MatchingAppend([row1, row2], row3, None, 2);
  }

  /**
   A row that appears behind the cursor is never returned: with pages of one row, the first page
   ends at row 2; row 1 is committed only then, and the finished walk has rows 2 and 3.
   */
  lemma LateRowIsSkipped(row1: Row, row2: Row, row3: Row)
    requires row1.id == 1 && row2.id == 2 && row3.id == 3
    ensures var pages := Walk([[row2, row3], [row1, row2, row3]], None, 0, 1);
            Finished(pages) && |pages| == 2 && Collected(pages) == [row2, row3]
    ensures row1 in [row1, row2, row3] && Matches(row1, None, 0)
  {
    var full := [row1, row2, row3];
    var tables := [[row2, row3], full];
    FirstOfTwo(row2, row3);
    LastOfThree(row1, row2, row3);
    WalkUnfolds(tables, None, 0, 1);
    assert tables[1..] == [full];
    WalkUnfolds([full], None, 2, 1);
    assert Collected([]) == [];
  }

  /** Rows are only ever added, with larger ids than those present. */
  ghost predicate AppendOnly(tables: seq<seq<Row>>) {
    forall i, j :: 0 <= i <= j < |tables| ==> tables[i] <= tables[j]
  }

  /** A row that the page covers and that an extension of its table holds was there already. */
  lemma CoveredRowWasThere(table: seq<Row>, later: seq<Row>, session: Option<string>, start: int, count: int, row: Row)
    requires Increasing(table) && Increasing(later) && table <= later && row in later
    requires PageOf(table, session, start, count).hasMore
    requires row.id <= PageOf(table, session, start, count).nextId
    ensures row in table
  {
    var page := PageOf(table, session, start, count);
    var cursor := page.data[|page.data| - 1];
    PageHolds(table, session, start, count, cursor);
    CoveredByPrefix(table, later, row, cursor);
  }

  /** Rows appended during a walk make it skip nothing: every matching row of the last snapshot read is returned. */
  lemma {:induction false} AppendsSkipNothing(tables: seq<seq<Row>>, session: Option<string>, start: int, count: int,
                                              row: Row)
    requires AllIncreasing(tables) && AppendOnly(tables) && Finished(Walk(tables, session, start, count))
    requires |Walk(tables, session, start, count)| <= |tables|
    requires row in tables[|Walk(tables, session, start, count)| - 1]
    ensures row in Collected(Walk(tables, session, start, count)) <==> Matches(row, session, From(start))
    decreases |tables|
  {
    var page := PageOf(tables[0], session, start, count);
    WalkUnfolds(tables, session, start, count);
    PageHolds(tables[0], session, start, count, row);
    if page.hasMore {
      if row.id > page.nextId {
        AppendsSkipNothing(tables[1..], session, page.nextId, count, row);
      } else {
        CoveredRowWasThere(tables[0], tables[|Walk(tables, session, start, count)| - 1], session, start, count, row);
      }
      CollectedInOrder(tables[1..], session, page.nextId, count);
    }
  }

  lemma CoveredByPrefix(earlier: seq<Row>, later: seq<Row>, row: Row, cursor: Row)
    requires Increasing(later) && earlier <= later && row in later && cursor in earlier && row.id <= cursor.id
    ensures row in earlier
  {
    var i :| 0 <= i < |later| && later[i] == row;
    var j :| 0 <= j < |earlier| && earlier[j] == cursor;
    assert later[j] == cursor;
  }

  // ---------------------------------------------------------------- a table at rest

  ghost function Unchanged(table: seq<Row>, n: nat): seq<seq<Row>> {
    if n == 0 then [] else [table] + Unchanged(table, n - 1)
  }

  lemma {:induction false} NothingBehindLast(table: seq<Row>, session: Option<string>, start: int)
    requires forall i :: 0 <= i < |table| ==> table[i].id <= start
    ensures Matching(table, session, start) == []
  {
    if table == [] {
    } else {
      NothingBehindLast(table[..|table| - 1], session, start);
    }
  }

  /** What matches behind the `k`-th matching row is what matched before, without the first `k` rows. */
  lemma {:induction false} BehindCursor(table: seq<Row>, session: Option<string>, start: int, k: nat)
    requires Increasing(table) && 0 < k <= |Matching(table, session, start)|
    ensures Matching(table, session, Matching(table, session, start)[k - 1].id) == Matching(table, session, start)[k..]
  {
    var front, last := table[..|table| - 1], table[|table| - 1];
    var rows := Matching(front, session, start);
    if k <= |rows| {
      BehindCursor(front, session, start, k);
      MatchingMembers(front, session, start, rows[k - 1]);
      assert rows[k - 1].id < last.id;
    } else {
      NothingBehindLast(table, session, last.id);
    }
  }

  lemma NextPageContinues(table: seq<Row>, session: Option<string>, start: int, count: int)
    requires Increasing(table) && PageOf(table, session, start, count).hasMore
    ensures Matching(table, session, From(PageOf(table, session, start, count).nextId)) ==
            Matching(table, session, From(start))[Clamp(count)..]
  {
    var from, limit := From(start), Clamp(count);
    BehindCursor(table, session, from, limit);
    CursorBehindStart(table, session, from, limit);
  }

  lemma CursorBehindStart(table: seq<Row>, session: Option<string>, from: nat, limit: nat)
    requires 0 < limit <= |Matching(table, session, from)|
    ensures Matching(table, session, from)[limit - 1].id > from
  {
    MatchingMembers(table, session, from, Matching(table, session, from)[limit - 1]);
  }

  /** The pages needed for `n` rows: a last page that is full is followed by no empty one. */
  function PagesFor(n: nat, limit: nat): nat
    requires limit > 0
    decreases n
  {
    if n <= limit then 1 else 1 + PagesFor(n - limit, limit)
  }

  lemma SplitAt<T>(s: seq<T>, k: nat)
    requires k <= |s|
    ensures s[..k] + s[k..] == s
  {
  }

  /** The walk over a table at rest ends after the pages needed and has returned every matching row once, in order. */
  ghost predicate ReturnsEverything(pages: seq<Page>, all: seq<Row>, limit: nat)
    requires limit > 0
  {
    Finished(pages) && |pages| == PagesFor(|all|, limit) && Collected(pages) == all
  }

  lemma LastPageReturnsEverything(page: Page, all: seq<Row>, limit: nat)
    requires limit > 0 && |all| <= limit && page.data == all && !page.hasMore
    ensures ReturnsEverything([page], all, limit)
  {
    assert Collected([page]) == page.data + Collected([]);
  }

  lemma NextPageReturnsEverything(page: Page, rest: seq<Page>, all: seq<Row>, remaining: seq<Row>, limit: nat)
    requires 0 < limit < |all| && page.data == all[..limit] && remaining == all[limit..]
    requires ReturnsEverything(rest, remaining, limit)
    ensures ReturnsEverything([page] + rest, all, limit)
  {
    SplitAt(all, limit);
    assert ([page] + rest)[1..] == rest;
  }

  lemma {:induction false} WalkReturnsEverything(table: seq<Row>, session: Option<string>, start: int, count: int,
                                                 n: nat)
    requires Increasing(table) && n >= PagesFor(|Matching(table, session, From(start))|, Clamp(count))
    ensures ReturnsEverything(Walk(Unchanged(table, n), session, start, count), Matching(table, session, From(start)),
        Clamp(count))
    decreases n
  {
    var all, page := Matching(table, session, From(start)), PageOf(table, session, start, count);
    WalkUnfolds(Unchanged(table, n), session, start, count);
    UnchangedUnfolds(table, n);
    if |all| <= Clamp(count) {
      LastPageReturnsEverything(page, all, Clamp(count));
    } else {
      NextPageContinues(table, session, start, count);
      WalkReturnsEverything(table, session, page.nextId, count, n - 1);
      var rest := Walk(Unchanged(table, n - 1), session, page.nextId, count);
      NextPageReturnsEverything(page, rest, all, Matching(table, session, From(page.nextId)), Clamp(count));
    }
  }

  lemma UnchangedUnfolds(table: seq<Row>, n: nat)
    requires n > 0
    ensures Unchanged(table, n) != [] && Unchanged(table, n)[0] == table &&
        Unchanged(table, n)[1..] == Unchanged(table, n - 1)
  {
  }
}
