/**
 * `query_page_paginator`
 * (src/database/query/pagination/query_page_paginator.php): offset
 * pagination. The generator moves the wrapped query itself to the
 * requested page, yields its rows and then records the total.
 */
module PagePagination {
  import opened Wrappers
  import opened Strings
  import opened Php
  import opened Database
  import opened Errors
  import opened Query
  import opened Fixtures

  /** `ceil($total / $limit)` for a non-zero limit of either sign, in exact arithmetic. */
  function CeilDiv(total: int, limit: int): (r: int)
    requires limit != 0
    ensures limit > 0 ==> (r - 1) * limit < total <= r * limit
    ensures limit < 0 ==> r * limit <= total < (r - 1) * limit
  {
    if limit > 0 then -((-total) / limit) else -(total / (-limit))
  }

  /** `get_total_pages()`: no pages without a limit. */
  function TotalPages(total: int, limit: int): (r: int)
    ensures limit == 0 ==> r == 0
    ensures limit > 0 && total >= 0 ==> r >= 0 && r * limit >= total && (r == 0 || (r - 1) * limit < total)
  {
    if limit == 0 then 0 else CeilDiv(total, limit)
  }

  /** The offset of a page: `($page - 1) * $limit`. */
  function PageQuery(q: QueryState, page: int): QueryState
  {
    q.(offset := (page - 1) * q.limit)
  }

  /**
   * The yielded rows (or the exception) and the new `total`, from the
   * query before the call. When `count()` throws after the rows were
   * yielded, the outcome is that exception and the total is unchanged.
   */
  function PageOutcome(q: QueryState, page: int, total: int, db: Db): (Result<seq<Row>, Failure>, int)
  {
    var p := PageQuery(q, page);
    match RecordsetOf(p, db)
    case Err(e) => (Err(e), total)
    case Ok(rows) =>
      if page == 1 && rows == [] then (Ok(rows), 0)
      else match CountOf(p, db)
        case Err(e) => (Err(e), total)
        case Ok(n) => (Ok(rows), n)
  }

  class QueryPagePaginator {
    var query: MoodleQuery
    var page: int
    var total: int

    constructor(q: MoodleQuery)
      ensures query == q && page == 1 && total == 0
    {
      query, page, total := q, 1, 0;
    }

    method SetLimit(n: int)
      modifies query
      ensures query.State() == old(query.State()).(limit := n, offset := 0)
      ensures GetLimit() == n
    {
      query.Limit(n);
    }

    function GetLimit(): int
      reads this, query
    {
      query.limit
    }

    method SetPage(p: int)
      modifies this`page
      ensures GetPage() == p
    {
      page := p;
    }

    function GetPage(): int
      reads this
    {
      page
    }

    function GetTotal(): int
      reads this
    {
      total
    }

    function GetTotalPages(): int
      reads this, query
    {
      TotalPages(total, GetLimit())
    }

    /**
     * `get_generator`, with the stream collected into a sequence. The
     * wrapped query itself, not a clone, is moved to the page's offset.
     */
    method GetGenerator(db: Db) returns (r: Result<seq<Row>, Failure>)
      modifies query, this`total
      ensures query.State() == PageQuery(old(query.State()), page)
      ensures (r, total) == PageOutcome(old(query.State()), page, old(total), db)
    {
      query.Limit(GetLimit(), (page - 1) * GetLimit());
      var fetched := query.GetRecordset(db);
      if fetched.Err? {
        return Err(fetched.error);
      }
      var rows := fetched.value;
      var hasRecords := rows != [];
      var yielded: seq<Row> := [];
      for i := 0 to |rows|
        invariant yielded == rows[..i]
      {
        yielded := yielded + [rows[i]];
      }
      assert yielded == rows;
      if page == 1 && !hasRecords {
        total := 0;
      } else {
        var n := query.Count(db);
        if n.Err? {
          return Err(n.error);
        }
        total := n.value;
      }
      return Ok(yielded);
    }
  }

  // ---------------------------------------------------------------------
  // Properties
  // ---------------------------------------------------------------------

  /** An empty first page sets the total to 0 without consulting the count. */
  lemma EmptyFirstPageSkipsCount(q: QueryState, total: int, db: Db, count: (string, Params) -> Option<int>)
    requires RecordsetOf(PageQuery(q, 1), db) == Ok([])
    ensures PageOutcome(q, 1, total, db) == (Ok([]), 0)
    ensures PageOutcome(q, 1, total, db.(countRecords := count)) == (Ok([]), 0)
  {
    assert RecordsetOf(PageQuery(q, 1), db.(countRecords := count)) == Ok([]);
  }

  /**
   * Otherwise the total is what `count()` reports for the query, which
   * does not depend on the page: every matching row is counted.
   */
  lemma TotalIsCountOfAllRows(q: QueryState, page: int, total: int, db: Db)
    requires RecordsetOf(PageQuery(q, page), db).Ok?
    requires !(page == 1 && RecordsetOf(PageQuery(q, page), db).value == [])
    ensures CountOf(q, db).Ok? ==>
      PageOutcome(q, page, total, db) == (RecordsetOf(PageQuery(q, page), db), CountOf(q, db).value)
    ensures CountOf(q, db).Err? ==> PageOutcome(q, page, total, db) == (Err(CountOf(q, db).error), total)
  {
    CountIgnoresPaging(q, db, q.limit, (page - 1) * q.limit);
    assert PageQuery(q, page) == q.(limit := q.limit, offset := (page - 1) * q.limit);
  }

  /** On the keyed table, the count clone of a query with a FROM clause and no cursor counts every row. */
  lemma CountOnKeyedTable(q: QueryState, size: nat)
    requires !IsFalsy(q.from) && !q.distinct && "pagination_cursor" !in q.params
    ensures CountOf(q, KeyedTable(size)) == Ok(size)
  {
    var c := CountQuery(q);
    SqlBeginsWithSelectLine(c);
    CountSelectsCountOnly(q);
    var sql := SqlOf(c).value;
    assert sql[..16] == "SELECT COUNT(1)\n";
    assert After(c.params) == 0;
  }

  /**
   * As written, the same count on the same table fails: its statement
   * opens `SELECT *, COUNT(1)`, so the first field is not the count.
   */
  lemma CountAsWrittenOnKeyedTable(q: QueryState, size: nat)
    requires !IsFalsy(q.from) && !q.distinct && q.fields == ["*"]
    ensures CountRecordsOf(CountQueryAsWritten(q), KeyedTable(size)) == Err(CountFailed)
  {
    var c := CountQueryAsWritten(q);
    SqlBeginsWithSelectLine(c);
    CountAsWrittenKeepsStar(q);
    var sql := SqlOf(c).value;
    assert sql[7] == '*';
    assert !SelectsCountOnly(sql);
  }

  /**
   * On the 25-row table with a limit of 10, page 2 yields the keys 11..20,
   * the total is 25 and there are 3 pages.
   */
  lemma PageExample(q: QueryState)
    requires !IsFalsy(q.from) && !q.distinct && q.limit == 10 && "pagination_cursor" !in q.params
    ensures PageOutcome(q, 2, 0, KeyedTable(25)) == (Ok(KeyRows(10, 10)), 25)
    ensures TotalPages(25, 10) == 3
  {
    var p := PageQuery(q, 2);
    assert p.offset == 10 && !IsFalsy(p.from);
    assert After(p.params) == 0;
    var all := KeyRows(0, 25);
    KeyRowsSlice(0, 25, 10, 25);
    KeyRowsPrefix(10, 15, 10);
    assert TableRows(25, p.params, 10, 10) == KeyRows(10, 10);
    assert RecordsetOf(p, KeyedTable(25)) == Ok(KeyRows(10, 10));
    CountOnKeyedTable(p, 25);
  }
}
