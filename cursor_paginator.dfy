/**
 * `query_cursor_paginator`
 * (src/database/query/pagination/query_cursor_paginator.php): keyset
 * pagination over a `moodle_query`. Each page is fetched from a clone
 * ordered by the cursor field, restricted to keys above the cursor, with
 * one lookahead row beyond the page size.
 */
module CursorPagination {
  import opened Wrappers
  import opened Strings
  import opened Php
  import opened Database
  import opened Errors
  import opened Query
  import opened Fixtures

  const CursorParam := "pagination_cursor"

  /** The clone `paginate_query` returns. */
  function Paginated(q: QueryState, cursorField: string, cursor: Value): (p: QueryState)
    ensures p.orderBy == [cursorField + " ASC"]
    ensures cursor == Null ==> p.where == q.where && p.params == q.params
    ensures cursor != Null ==>
      p.where == q.where + [cursorField + " > :" + CursorParam]
      && p.params == q.params[CursorParam := cursor]
    ensures p.(where := q.where, params := q.params, orderBy := q.orderBy) == q
  {
    var ordered := q.(orderBy := [] + [cursorField + " ASC"]);
    if cursor != Null then
      ordered.(where := ordered.where + [cursorField + " > :" + CursorParam],
               params := ordered.params + map[CursorParam := cursor])
    else ordered
  }

  /** The query `get_generator` fetches: the page size plus one lookahead row, from offset 0. */
  function FetchQuery(q: QueryState, cursorField: string, cursor: Value): QueryState
  {
    Paginated(q, cursorField, cursor).(limit := q.limit + 1, offset := 0)
  }

  /** The rows the generator yields: the first `limit` fetched rows (none for a limit below 1). */
  function PageRows(rows: seq<Row>, limit: int): (r: seq<Row>)
    ensures |r| <= |rows| && r == rows[..|r|]
    ensures |r| == if limit <= 0 then 0 else if limit < |rows| then limit else |rows|
  {
    if limit <= 0 then [] else if limit < |rows| then rows[..limit] else rows
  }

  /** `next_cursor` once the stream ends: the key of the last row examined, if there were more rows than the limit. */
  function NextCursor(rows: seq<Row>, limit: int, property: string): Value
  {
    if |rows| > limit && rows != [] then Prop(rows[|rows| - 1], property) else Null
  }

  /** The yielded rows (or the exception) and the `next_cursor` left behind. */
  function CursorOutcome(q: QueryState, cursorField: string, cursor: Value, db: Db): (Result<seq<Row>, Failure>, Value)
  {
    match RecordsetOf(FetchQuery(q, cursorField, cursor), db)
    case Err(e) => (Err(e), Null)
    case Ok(rows) => (Ok(PageRows(rows, q.limit)), NextCursor(rows, q.limit, LastSegment(cursorField, '.')))
  }

  /**
   * The loop of `get_generator` over the fetched rows: it counts them,
   * yields those seen while the count is below the limit and remembers
   * the cursor property of the last one.
   */
  method Stream(rows: seq<Row>, limit: int, property: string) returns (yielded: seq<Row>, lastCursor: Value, counter: int)
    ensures yielded == PageRows(rows, limit)
    ensures counter == |rows|
    ensures lastCursor == if rows == [] then Null else Prop(rows[|rows| - 1], property)
  {
    yielded, lastCursor, counter := [], Null, 0;
    while counter < |rows|
      invariant 0 <= counter <= |rows|
      invariant yielded == PageRows(rows[..counter], limit)
      invariant lastCursor == if counter == 0 then Null else Prop(rows[counter - 1], property)
    {
      if counter < limit {
        yielded := yielded + [rows[counter]];
      }
      lastCursor := Prop(rows[counter], property);
      counter := counter + 1;
    }
    assert rows[..counter] == rows;
  }

  class QueryCursorPaginator {
    var query: MoodleQuery
    var cursor: Value
    var cursorField: string
    var nextCursor: Value

    constructor(q: MoodleQuery, field: string)
      ensures query == q && cursorField == field && cursor == Null && nextCursor == Null
    {
      query, cursorField := q, field;
      cursor, nextCursor := Null, Null;
    }

    /** `set_limit`: the wrapped query's limit, with its offset reset to 0. */
    method SetLimit(n: int)
      modifies query
      ensures query.State() == old(query.State()).(limit := n, offset := 0)
      ensures GetLimit() == n
    {
      query.Limit(n);
    }

    function GetLimit(): int
      reads this, query
    {
      query.limit
    }

    method SetCursorField(field: string)
      modifies this
      ensures cursorField == field
      ensures query == old(query) && cursor == old(cursor) && nextCursor == old(nextCursor)
    {
      cursorField := field;
    }

    method SetCursor(c: Value)
      modifies this
      ensures cursor == c
      ensures query == old(query) && cursorField == old(cursorField) && nextCursor == old(nextCursor)
    {
      cursor := c;
    }

    function GetNextCursor(): Value
      reads this
    {
      nextCursor
    }

    /** `paginate_query`: works on a clone, so the wrapped query keeps its ORDER BY and WHERE. */
    method PaginateQuery() returns (p: MoodleQuery)
      ensures fresh(p) && p.State() == Paginated(query.State(), cursorField, cursor)
    {
      p := query.Clone();
      p.ResetOrderBy();
      p.OrderBy(cursorField, "ASC");
      assert cursorField + " " + "ASC" == cursorField + " ASC";
      if cursor != Null {
        p.Where(cursorField + " > :" + CursorParam, map[CursorParam := cursor]);
      }
    }

    /**
     * `get_generator`, with the stream collected into a sequence: the loop
     * counts the rows, yields those below the limit and remembers the
     * last key it saw.
     */
    method GetGenerator(db: Db) returns (r: Result<seq<Row>, Failure>)
      modifies this`nextCursor
      ensures (r, nextCursor) == CursorOutcome(query.State(), cursorField, cursor, db)
    {
      ghost var qs := query.State();
      var p := PaginateQuery();
      nextCursor := Null;
      var property := LastSegment(cursorField, '.');
      p.Limit(GetLimit() + 1, 0);
      assert query.State() == qs;
      assert p.State() == FetchQuery(qs, cursorField, cursor);
      var fetched := p.GetRecordset(db);
      if fetched.Err? {
        return Err(fetched.error);
      }
      var yielded, lastCursor, counter := Stream(fetched.value, query.limit, property);
      if counter > query.limit {
        nextCursor := lastCursor;
      }
      return Ok(yielded);
    }
  }

  // ---------------------------------------------------------------------
  // Properties
  // ---------------------------------------------------------------------

  /** The record property read is the part of the cursor field after its last dot. */
  lemma CursorPropertyDropsAlias(alias: string, column: string)
    requires '.' !in column
    ensures LastSegment(alias + "." + column, '.') == column
  {
    LastSegmentDropsQualifier(alias, column, '.');
  }

  /** No lookahead row, no next cursor: the cursor is null exactly when at most `limit` rows came back. */
  lemma NextCursorNullOnLastPage(rows: seq<Row>, limit: int, property: string)
    requires limit >= 0
    ensures NextCursor(rows, limit, property) == Null <==>
      |rows| <= limit || Prop(rows[|rows| - 1], property) == Null
  {
  }

  /**
   * Keyset pagination over a table keyed 1..size: with the cursor at key
   * k (or null for k = 0), the page holds the keys k+1 .. k+min(limit, size-k)
   * and the next cursor is the key of the lookahead row, k+limit+1, when
   * that row exists.
   */
  lemma {:induction false} CursorPageOnKeyedTable(q: QueryState, size: nat, limit: nat, k: nat, cursor: Value)
    requires !IsFalsy(q.from) && q.limit == limit && limit >= 1
    requires k <= size
    requires (k == 0 && cursor == Null) || cursor == Int(k)
    requires CursorParam !in q.params
    ensures CursorOutcome(q, "id", cursor, KeyedTable(size)).0
      == Ok(KeyRows(k, if k + limit <= size then limit else size - k))
    ensures CursorOutcome(q, "id", cursor, KeyedTable(size)).1
      == if k + limit < size then Int(k + limit + 1) else Null
  {
    var f := FetchQuery(q, "id", cursor);
    assert !IsFalsy(f.from);
    assert After(f.params) == k;
    var all := KeyRows(k, size - k);
    assert all[0..] == all;
    var rows := TableRows(size, f.params, 0, limit + 1);
    assert rows == if limit + 1 < |all| then all[..limit + 1] else all;
    assert RecordsetOf(f, KeyedTable(size)) == Ok(rows);
    LastSegmentOfPlain("id", '.');
    var page := PageRows(rows, limit);
    if k + limit + 1 <= size {
      KeyRowsPrefix(k, size - k, limit + 1);
      KeyRowsPrefix(k, size - k, limit);
      assert rows == KeyRows(k, limit + 1);
      assert page == rows[..limit] == KeyRows(k, limit);
    } else {
      assert rows == all;
      assert page == all;
    }
    assert CursorOutcome(q, "id", cursor, KeyedTable(size)) == (Ok(page), NextCursor(rows, limit, "id"));
  }

  /** How many keys a page of `limit` after key k holds on a table keyed 1..size. */
  function PageSize(size: nat, k: nat, limit: nat): nat
    requires k <= size
  {
    if k + limit <= size then limit else size - k
  }

  /** A key outside lo+1..lo+n is not among `KeyRows(lo, n)`. */
  lemma KeyRowOutside(lo: int, n: nat, j: int)
    requires j <= lo || j > lo + n
    ensures KeyRow(j) !in KeyRows(lo, n)
  {
    var rows := KeyRows(lo, n);
    forall i | 0 <= i < n
      ensures rows[i] != KeyRow(j)
    {
      assert rows[i].props["id"] == Int(lo + i + 1);
    }
  }

  lemma KeyRowsAppend(lo: int, a: nat, b: nat)
    ensures KeyRows(lo, a) + KeyRows(lo + a, b) == KeyRows(lo, a + b)
  {
    var x, y, z := KeyRows(lo, a), KeyRows(lo + a, b), KeyRows(lo, a + b);
    forall i | 0 <= i < a + b
      ensures (x + y)[i] == z[i]
    {
      if i >= a {
        assert (x + y)[i] == y[i - a];
      }
    }
  }

  /**
   * Passing the next cursor back in skips a row: the next cursor is the
   * key of the lookahead row, and the following page starts after it, so
   * that row is in neither page.
   */
  lemma CursorChainSkipsLookahead(q: QueryState, size: nat, limit: nat, k: nat, cursor: Value)
    requires !IsFalsy(q.from) && q.limit == limit && limit >= 1
    requires k + limit < size
    requires (k == 0 && cursor == Null) || cursor == Int(k)
    requires CursorParam !in q.params
    ensures CursorOutcome(q, "id", cursor, KeyedTable(size)).1 == Int(k + limit + 1)
    ensures CursorOutcome(q, "id", cursor, KeyedTable(size)).0.Ok?
    ensures KeyRow(k + limit + 1) !in CursorOutcome(q, "id", cursor, KeyedTable(size)).0.value
    ensures CursorOutcome(q, "id", Int(k + limit + 1), KeyedTable(size)).0.Ok?
    ensures KeyRow(k + limit + 1) !in CursorOutcome(q, "id", Int(k + limit + 1), KeyedTable(size)).0.value
  {
    var j := k + limit + 1;
    var m := if j + limit <= size then limit else size - j;
    var t := KeyedTable(size);
    CursorPageOnKeyedTable(q, size, limit, k, cursor);
    ghost var o1 := CursorOutcome(q, "id", cursor, t);
    assert o1 == (Ok(KeyRows(k, limit)), Int(j));
    CursorPageOnKeyedTable(q, size, limit, j, Int(j));
    ghost var o2 := CursorOutcome(q, "id", Int(j), t);
    assert o2.0 == Ok(KeyRows(j, m));
    KeyRowOutside(k, limit, j);
    KeyRowOutside(j, m, j);
  }

  /**
   * Resuming instead from the key of the last yielded row continues
   * where a full page stopped: that page holds the keys k+1..k+limit
   * (`CursorPageOnKeyedTable`), its last row carries the key k+limit, and
   * the page after that key starts at k+limit+1.
   */
  lemma CursorResumeFromLastYielded(q: QueryState, size: nat, limit: nat, k: nat)
    requires !IsFalsy(q.from) && q.limit == limit && limit >= 1
    requires k + limit <= size
    requires CursorParam !in q.params
    ensures Prop(KeyRows(k, limit)[limit - 1], "id") == Int(k + limit)
    ensures CursorOutcome(q, "id", Int(k + limit), KeyedTable(size)).0
      == Ok(KeyRows(k + limit, PageSize(size, k + limit, limit)))
    ensures KeyRows(k, limit) + KeyRows(k + limit, PageSize(size, k + limit, limit))
      == KeyRows(k, limit + PageSize(size, k + limit, limit))
  {
    var j := k + limit;
    assert KeyRows(k, limit)[limit - 1] == KeyRow(j);
    CursorPageOnKeyedTable(q, size, limit, j, Int(j));
    KeyRowsAppend(k, limit, PageSize(size, j, limit));
  }

  /**
   * The pages of the 15-row example table; the next cursor 6 of the
   * first page, passed back in, yields 7..11.
   */
  lemma CursorExamples(q: QueryState)
    requires !IsFalsy(q.from) && CursorParam !in q.params
    ensures q.limit == 5 ==>
      CursorOutcome(q, "id", Null, KeyedTable(15)) == (Ok(KeyRows(0, 5)), Int(6))
    ensures q.limit == 5 ==>
      CursorOutcome(q, "id", Int(5), KeyedTable(15)) == (Ok(KeyRows(5, 5)), Int(11))
    ensures q.limit == 5 ==>
      CursorOutcome(q, "id", Int(6), KeyedTable(15)) == (Ok(KeyRows(6, 5)), Int(12))
    ensures q.limit == 10 ==>
      CursorOutcome(q, "id", Int(10), KeyedTable(15)) == (Ok(KeyRows(10, 5)), Null)
  {
    if q.limit == 5 {
      CursorPageOnKeyedTable(q, 15, 5, 0, Null);
      CursorPageOnKeyedTable(q, 15, 5, 5, Int(5));
      CursorPageOnKeyedTable(q, 15, 5, 6, Int(6));
    } else if q.limit == 10 {
      CursorPageOnKeyedTable(q, 15, 10, 10, Int(10));
    }
  }
}
