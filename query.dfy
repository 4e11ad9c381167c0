/**
 * The `moodle_query` builder (src/database/query/moodle_query.php): a
 * mutable record of clause lists that fluent methods extend in place,
 * rendered to SQL by `to_sql` and executed against the database oracle.
 */
module Query {
  import opened Wrappers
  import opened Strings
  import opened Php
  import opened Database
  import opened Errors

  /** Everything a builder holds, as a value. */
  datatype QueryState = QueryState(
    distinct: bool,
    fields: seq<string>,
    from: string,
    joins: seq<string>,
    where: seq<string>,
    groupBy: seq<string>,
    having: seq<string>,
    orderBy: seq<string>,
    limit: int,
    offset: int,
    params: Params)

  /** The property defaults of a new builder. */
  const Initial := QueryState(false, ["*"], "", [], [], [], [], [], 0, 0, map[])

  /** The FROM text `from($table, $alias)` stores; a PHP-empty alias is dropped. */
  function FromText(table: string, alias: string): string
  {
    if IsFalsy(alias) then "{" + table + "}" else "{" + table + "} " + alias
  }

  /** One join line. */
  function JoinLine(joinType: string, table: string, on: string): string
  {
    joinType + " JOIN {" + table + "} ON (" + on + ")"
  }

  function SelectLine(q: QueryState): string
  {
    "SELECT " + (if q.distinct then "DISTINCT " else "") + Join(q.fields, ", ")
  }

  /** A clause line, omitted when its list is empty. */
  function Clause(head: string, items: seq<string>, sep: string): (r: seq<string>)
    ensures |r| == (if items == [] then 0 else 1)
  {
    if items == [] then [] else [head + Join(items, sep)]
  }

  /** The lines of the statement, in the fixed clause order. */
  function SqlLines(q: QueryState): seq<string>
  {
    [SelectLine(q), "FROM " + q.from] + q.joins
      + Clause("WHERE ", q.where, " AND ")
      + Clause("GROUP BY ", q.groupBy, ", ")
      + Clause("HAVING ", q.having, " AND ")
      + Clause("ORDER BY ", q.orderBy, ", ")
  }

  const MissingFrom := Failure(Configuration, NoContext)

  /** What `to_sql()` returns, or the exception it throws without a FROM clause. */
  function SqlOf(q: QueryState): Result<string, Failure>
  {
    if IsFalsy(q.from) then Err(MissingFrom) else Ok(Join(SqlLines(q), "\n"))
  }

  /**
   * The clone `count()` renders as intended: `select('COUNT(1)', true)`
   * replacing the fields by `COUNT(1)`, no limit or offset.
   */
  function CountQuery(q: QueryState): QueryState
  {
    q.(fields := ["COUNT(1)"], limit := 0, offset := 0)
  }

  /**
   * The clone `count()` renders as written: `select` takes one argument,
   * so the `true` is dropped and `COUNT(1)` is appended to the fields.
   */
  function CountQueryAsWritten(q: QueryState): QueryState
  {
    q.(fields := q.fields + ["COUNT(1)"], limit := 0, offset := 0)
  }

  /** The clone `exists()` renders: `1` appended to the fields, limit 1, offset 0. */
  function ExistsQuery(q: QueryState): QueryState
  {
    q.(fields := q.fields + ["1"], limit := 1, offset := 0)
  }

  /** The clone `first()` fetches from: limit 1, offset 0. */
  function FirstQuery(q: QueryState): QueryState
  {
    q.(limit := 1, offset := 0)
  }

  function RecordsetOf(q: QueryState, db: Db): Result<seq<Row>, Failure>
  {
    var sql :- SqlOf(q);
    Ok(db.recordset(sql, q.params, q.offset, q.limit))
  }

  const CountFailed := Failure(DatabaseFailure, NoContext)

  /** `count_records_sql` on the statement of a count clone `c`. */
  function CountRecordsOf(c: QueryState, db: Db): Result<int, Failure>
  {
    var sql :- SqlOf(c);
    match db.countRecords(sql, c.params)
    case None => Err(CountFailed)
    case Some(n) => Ok(n)
  }

  function CountOf(q: QueryState, db: Db): Result<int, Failure>
  {
    CountRecordsOf(CountQuery(q), db)
  }

  function ExistsOf(q: QueryState, db: Db): Result<bool, Failure>
  {
    var e := ExistsQuery(q);
    var sql :- SqlOf(e);
    Ok(db.recordExists(sql, e.params))
  }

  function FirstOf(q: QueryState, db: Db): Result<Option<Row>, Failure>
  {
    var rows :- RecordsetOf(FirstQuery(q), db);
    Ok(if rows == [] then None else Some(rows[0]))
  }

  class MoodleQuery {
    var distinct: bool
    var fields: seq<string>
    var from: string
    var joins: seq<string>
    var where: seq<string>
    var groupBy: seq<string>
    var having: seq<string>
    var orderBy: seq<string>
    var limit: int
    var offset: int
    var params: Params

    function State(): QueryState
      reads this
    {
      QueryState(distinct, fields, from, joins, where, groupBy, having, orderBy, limit, offset, params)
    }

    constructor()
      ensures State() == Initial
    {
      distinct, fields, from := false, ["*"], "";
      joins, where, groupBy, having, orderBy := [], [], [], [], [];
      limit, offset, params := 0, 0, map[];
    }

    /** A query holding the given state, field by field: what `clone` produces. */
    constructor Copy(s: QueryState)
      ensures State() == s
    {
      distinct, fields, from := s.distinct, s.fields, s.from;
      joins, where, groupBy, having, orderBy := s.joins, s.where, s.groupBy, s.having, s.orderBy;
      limit, offset, params := s.limit, s.offset, s.params;
    }

    method Distinct(d: bool := true)
      modifies this
      ensures State() == old(State()).(distinct := d)
    {
      distinct := d;
    }

    /** `select($fields)`: appends (the default `*` stays unless reset). */
    method Select(fs: seq<string>)
      modifies this
      ensures State() == old(State()).(fields := old(fields) + fs)
    {
      fields := fields + fs;
    }

    method ResetSelect()
      modifies this
      ensures State() == old(State()).(fields := [])
    {
      fields := [];
    }

    method From(table: string, alias: string := "")
      modifies this
      ensures State() == old(State()).(from := FromText(table, alias))
    {
      if IsFalsy(alias) {
        from := "{" + table + "}";
      } else {
        from := "{" + table + "} " + alias;
      }
    }

    /** The protected `join`: refuses to join before FROM is set. */
    method AddJoin(joinType: string, table: string, on: string) returns (r: Outcome<Failure>)
      modifies this
      ensures IsFalsy(old(from)) ==> r == Fail(MissingFrom) && State() == old(State())
      ensures !IsFalsy(old(from)) ==>
        r == Pass && State() == old(State()).(joins := old(joins) + [JoinLine(joinType, table, on)])
    {
      if IsFalsy(from) {
        return Fail(MissingFrom);
      }
      joins := joins + [joinType + " JOIN {" + table + "} ON (" + on + ")"];
      return Pass;
    }

    method InnerJoin(table: string, on: string) returns (r: Outcome<Failure>)
      modifies this
      ensures IsFalsy(old(from)) ==> r == Fail(MissingFrom) && State() == old(State())
      ensures !IsFalsy(old(from)) ==>
        r == Pass && State() == old(State()).(joins := old(joins) + [JoinLine("INNER", table, on)])
    {
      r := AddJoin("INNER", table, on);
    }

    method LeftJoin(table: string, on: string) returns (r: Outcome<Failure>)
      modifies this
      ensures IsFalsy(old(from)) ==> r == Fail(MissingFrom) && State() == old(State())
      ensures !IsFalsy(old(from)) ==>
        r == Pass && State() == old(State()).(joins := old(joins) + [JoinLine("LEFT", table, on)])
    {
      r := AddJoin("LEFT", table, on);
    }

    method RightJoin(table: string, on: string) returns (r: Outcome<Failure>)
      modifies this
      ensures IsFalsy(old(from)) ==> r == Fail(MissingFrom) && State() == old(State())
      ensures !IsFalsy(old(from)) ==>
        r == Pass && State() == old(State()).(joins := old(joins) + [JoinLine("RIGHT", table, on)])
    {
      r := AddJoin("RIGHT", table, on);
    }

    /** `set_params`: `array_merge`, so the new values win on shared keys. */
    method SetParams(ps: Params)
      modifies this
      ensures State() == old(State()).(params := old(params) + ps)
      ensures forall k :: k in ps ==> params[k] == ps[k]
      ensures forall k :: k in old(params) && k !in ps ==> k in params && params[k] == old(params)[k]
    {
      params := params + ps;
    }

    method SetParam(key: string, v: Value)
      modifies this
      ensures State() == old(State()).(params := old(params)[key := v])
    {
      params := params[key := v];
    }

    method Where(condition: string, ps: Params := map[])
      modifies this
      ensures State() == old(State()).(where := old(where) + [condition], params := old(params) + ps)
    {
      where := where + [condition];
      SetParams(ps);
    }

    /** `or_where`: ORs the condition into the last WHERE fragment, or adds it if there is none. */
    method OrWhere(condition: string, ps: Params := map[])
      modifies this
      ensures old(where) == [] ==>
        State() == old(State()).(where := [condition], params := old(params) + ps)
      ensures old(where) != [] ==>
        |where| == |old(where)| && where[..|where| - 1] == old(where)[..|where| - 1]
        && State() == old(State()).(
          where := old(where)[|old(where)| - 1 := "(" + old(where)[|old(where)| - 1] + " OR " + condition + ")"],
          params := old(params) + ps)
    {
      if where == [] {
        Where(condition, ps);
        return;
      }
      var last := |where| - 1;
      where := where[last := "(" + where[last] + " OR " + condition + ")"];
      SetParams(ps);
    }

    method GroupBy(fs: seq<string>)
      modifies this
      ensures State() == old(State()).(groupBy := old(groupBy) + fs)
    {
      groupBy := groupBy + fs;
    }

    method ResetGroupBy()
      modifies this
      ensures State() == old(State()).(groupBy := [])
    {
      groupBy := [];
    }

    method Having(condition: string, ps: Params := map[])
      modifies this
      ensures State() == old(State()).(having := old(having) + [condition], params := old(params) + ps)
    {
      having := having + [condition];
      SetParams(ps);
    }

    method OrderBy(field: string, direction: string := "ASC")
      modifies this
      ensures State() == old(State()).(orderBy := old(orderBy) + [field + " " + direction])
    {
      orderBy := orderBy + [field + " " + direction];
    }

    method ResetOrderBy()
      modifies this
      ensures State() == old(State()).(orderBy := [])
    {
      orderBy := [];
    }

    /** `limit($limit, $offset = 0)`: a call without an offset resets it to 0. */
    method Limit(n: int, off: int := 0)
      modifies this
      ensures State() == old(State()).(limit := n, offset := off)
    {
      limit, offset := n, off;
    }

    /** `to_sql()`, assembling the line list clause by clause. */
    method ToSql() returns (r: Result<string, Failure>)
      ensures r == SqlOf(State())
    {
      if IsFalsy(from) {
        return Err(MissingFrom);
      }
      var select := "SELECT ";
      if distinct {
        select := select + "DISTINCT ";
      }
      select := select + Join(fields, ", ");
      assert select == SelectLine(State());
      var sql := [select, "FROM " + from];
      if joins != [] {
        sql := sql + joins;
      }
      ghost var expected := [select, "FROM " + from] + joins;
      assert sql == expected;
      if where != [] {
        sql := sql + ["WHERE " + Join(where, " AND ")];
      }
      expected := expected + Clause("WHERE ", where, " AND ");
      assert sql == expected;
      if groupBy != [] {
        sql := sql + ["GROUP BY " + Join(groupBy, ", ")];
      }
      expected := expected + Clause("GROUP BY ", groupBy, ", ");
      assert sql == expected;
      if having != [] {
        sql := sql + ["HAVING " + Join(having, " AND ")];
      }
      expected := expected + Clause("HAVING ", having, " AND ");
      assert sql == expected;
      if orderBy != [] {
        sql := sql + ["ORDER BY " + Join(orderBy, ", ")];
      }
      expected := expected + Clause("ORDER BY ", orderBy, ", ");
      assert sql == expected == SqlLines(State());
      return Ok(Join(sql, "\n"));
    }

    /** `clone $this`: a new builder with the same properties. */
    method Clone() returns (c: MoodleQuery)
      ensures fresh(c) && c.State() == State()
    {
      c := new MoodleQuery.Copy(State());
    }

    method GetRecordset(db: Db) returns (r: Result<seq<Row>, Failure>)
      ensures r == RecordsetOf(State(), db)
    {
      var sql := ToSql();
      if sql.Err? {
        return Err(sql.error);
      }
      return Ok(db.recordset(sql.value, params, offset, limit));
    }

    /**
     * `count()`: runs on a clone, so this builder is not changed; the
     * clone's fields are replaced by `COUNT(1)` (see `CountQuery`).
     */
    method Count(db: Db) returns (r: Result<int, Failure>)
      ensures r == CountOf(State(), db)
    {
      var query := Clone();
      query.ResetSelect();
      query.Select(["COUNT(1)"]);
      query.Limit(0, 0);
      assert query.State() == CountQuery(State());
      var sql := query.ToSql();
      if sql.Err? {
        return Err(sql.error);
      }
      var n := db.countRecords(sql.value, query.params);
      if n.None? {
        return Err(CountFailed);
      }
      return Ok(n.value);
    }

    /** `exists()`: runs on a clone. */
    method Exists(db: Db) returns (r: Result<bool, Failure>)
      ensures r == ExistsOf(State(), db)
    {
      var query := Clone();
      query.Select(["1"]);
      query.Limit(1);
      assert query.State() == ExistsQuery(State());
      var sql := query.ToSql();
      if sql.Err? {
        return Err(sql.error);
      }
      return Ok(db.recordExists(sql.value, query.params));
    }

    /** `first()`: the first row of a clone limited to one row, or null. */
    method First(db: Db) returns (r: Result<Option<Row>, Failure>)
      ensures r == FirstOf(State(), db)
    {
      var query := Clone();
      query.Limit(1);
      assert query.State() == FirstQuery(State());
      var rows := query.GetRecordset(db);
      if rows.Err? {
        return Err(rows.error);
      }
      if rows.value == [] {
        return Ok(None);
      }
      return Ok(Some(rows.value[0]));
    }
  }

  // ---------------------------------------------------------------------
  // Properties of the rendering
  // ---------------------------------------------------------------------

  /** The rendering fails exactly when FROM is PHP-empty. */
  lemma SqlFailsIffNoFrom(q: QueryState)
    ensures SqlOf(q).Err? <==> IsFalsy(q.from)
    ensures SqlOf(q).Err? ==> SqlOf(q).error.kind == Configuration
  {
  }

  /** A new builder with only a FROM renders `SELECT *` and the FROM line. */
  lemma InitialWithFromSql(table: string)
    ensures SqlOf(Initial.(from := FromText(table, ""))) == Ok("SELECT *\nFROM {" + table + "}")
  {
    var q := Initial.(from := FromText(table, ""));
    assert Join(q.fields, ", ") == "*";
    assert SelectLine(q) == "SELECT " + "" + "*" == "SELECT *";
    assert "FROM " + q.from == "FROM {" + table + "}";
    var lines := ["SELECT *", "FROM {" + table + "}"];
    assert SqlLines(q) == lines;
    assert lines[1..] == ["FROM {" + table + "}"];
    assert Join(lines, "\n") == "SELECT *" + "\n" + ("FROM {" + table + "}");
    assert "SELECT *" + "\n" + "FROM {" == "SELECT *\nFROM {";
    assert q.from[0] == '{' && |q.from| >= 2;
    assert !IsFalsy(q.from);
    assert Join(lines, "\n") == "SELECT *\nFROM {" + table + "}";
    assert SqlOf(q) == Ok(Join(lines, "\n"));
  }

  /** Limit, offset and parameters never appear in the SQL text. */
  lemma SqlIgnoresPaging(q: QueryState, limit: int, offset: int, params: Params)
    ensures SqlOf(q.(limit := limit, offset := offset, params := params)) == SqlOf(q)
  {
    assert SqlLines(q.(limit := limit, offset := offset, params := params)) == SqlLines(q);
  }

  /** `count()` counts every matching row: the builder's own limit and offset are irrelevant. */
  lemma CountIgnoresPaging(q: QueryState, db: Db, limit: int, offset: int)
    ensures CountOf(q.(limit := limit, offset := offset), db) == CountOf(q, db)
  {
    assert CountQuery(q.(limit := limit, offset := offset)) == CountQuery(q);
  }

  predicate SingleLine(s: string) { '\n' !in s }

  predicate ClausesSingleLine(q: QueryState)
  {
    && (forall i :: 0 <= i < |q.fields| ==> SingleLine(q.fields[i]))
    && SingleLine(q.from)
    && (forall i :: 0 <= i < |q.joins| ==> SingleLine(q.joins[i]))
    && (forall i :: 0 <= i < |q.where| ==> SingleLine(q.where[i]))
    && (forall i :: 0 <= i < |q.groupBy| ==> SingleLine(q.groupBy[i]))
    && (forall i :: 0 <= i < |q.having| ==> SingleLine(q.having[i]))
    && (forall i :: 0 <= i < |q.orderBy| ==> SingleLine(q.orderBy[i]))
  }

  lemma ClauseSingleLine(head: string, items: seq<string>, sep: string)
    requires SingleLine(head) && SingleLine(sep)
    requires forall i :: 0 <= i < |items| ==> SingleLine(items[i])
    ensures forall i :: 0 <= i < |Clause(head, items, sep)| ==> SingleLine(Clause(head, items, sep)[i])
  {
    if items != [] {
      JoinNotContains(items, sep, '\n');
    }
  }

  /**
   * When no fragment spans several lines, the statement splits at line
   * breaks into exactly the SELECT line, the FROM line, the joins and the
   * non-empty clauses, in that order.
   */
  lemma SqlLinesRecovered(q: QueryState)
    requires !IsFalsy(q.from)
    requires ClausesSingleLine(q)
    ensures Split(SqlOf(q).value, '\n') == SqlLines(q)
  {
    JoinNotContains(q.fields, ", ", '\n');
    assert SingleLine(SelectLine(q));
    ClauseSingleLine("WHERE ", q.where, " AND ");
    ClauseSingleLine("GROUP BY ", q.groupBy, ", ");
    ClauseSingleLine("HAVING ", q.having, " AND ");
    ClauseSingleLine("ORDER BY ", q.orderBy, ", ");
    var lines := SqlLines(q);
    forall i | 0 <= i < |lines|
      ensures '\n' !in lines[i]
    {
    }
    SplitJoin(lines, '\n');
  }

  /** Clause order: a query with a WHERE and an ORDER BY puts them after the joins. */
  lemma SqlLinesOrder(q: QueryState)
    requires q.where != [] && q.orderBy != [] && q.groupBy == [] && q.having == []
    ensures SqlLines(q) == [SelectLine(q), "FROM " + q.from] + q.joins
      + ["WHERE " + Join(q.where, " AND "), "ORDER BY " + Join(q.orderBy, ", ")]
  {
  }

  /**
   * `select('name')` on a new builder keeps the default `*`: the statement
   * begins `SELECT *, name`, not `SELECT name`.
   */
  lemma SelectAppendsToStar(table: string, field: string)
    ensures SelectLine(Initial.(fields := Initial.fields + [field], from := FromText(table, "")))
      == "SELECT *, " + field
  {
    var q := Initial.(fields := Initial.fields + [field], from := FromText(table, ""));
    assert q.fields == ["*", field];
    assert Join(q.fields, ", ") == "*, " + field;
  }

  /** The statement opens with its SELECT line and a line break. */
  lemma SqlBeginsWithSelectLine(q: QueryState)
    requires !IsFalsy(q.from)
    ensures SqlOf(q).value == SelectLine(q) + "\n" + Join(SqlLines(q)[1..], "\n")
  {
  }

  /** The intended count clone selects `COUNT(1)` alone, whatever the fields were. */
  lemma CountSelectsCountOnly(q: QueryState)
    requires !q.distinct
    ensures SelectLine(CountQuery(q)) == "SELECT COUNT(1)"
  {
    assert Join(["COUNT(1)"], ", ") == "COUNT(1)";
  }

  /**
   * As written, `count()` on a builder with the default fields selects
   * `*` before the count: the first field `count_records_sql` reads is
   * a column of the table, not the count.
   */
  lemma CountAsWrittenKeepsStar(q: QueryState)
    requires q.fields == ["*"] && !q.distinct
    ensures SelectLine(CountQueryAsWritten(q)) == "SELECT *, COUNT(1)"
  {
    assert CountQueryAsWritten(q).fields == ["*", "COUNT(1)"];
    assert Join(["*", "COUNT(1)"], ", ") == "*, COUNT(1)";
  }

  /** `or_where` after `where` renders the two conditions ORed in parentheses. */
  lemma OrWhereRendering(q: QueryState, a: string, b: string)
    requires !IsFalsy(q.from) && q.where == ["(" + a + " OR " + b + ")"]
    ensures "WHERE (" + a + " OR " + b + ")" in SqlLines(q)
  {
    var lines := SqlLines(q);
    assert lines[2 + |q.joins|] == "WHERE (" + a + " OR " + b + ")";
  }
}
