/**
 * A database fixture for the paginator properties: a table whose rows
 * carry the integer keys 1..size in ascending order, answering the
 * keyset predicate `id > :pagination_cursor`, the offset and the limit
 * the way the paginated SELECT asks for them.
 */
module Fixtures {
  import opened Wrappers
  import opened Php
  import opened Database

  function KeyRow(k: int): Row
  {
    Row(map["id" := Int(k)])
  }

  /** The `n` rows with the keys lo+1, ..., lo+n. */
  function KeyRows(lo: int, n: nat): (r: seq<Row>)
    ensures |r| == n
    ensures forall i :: 0 <= i < n ==> r[i] == KeyRow(lo + i + 1)
  {
    seq(n, i requires 0 <= i < n => KeyRow(lo + i + 1))
  }

  function Clamp(x: int, lo: int, hi: int): int
    requires lo <= hi
  {
    if x < lo then lo else if x > hi then hi else x
  }

  /** The key after which rows are returned: the cursor parameter when it is an integer. */
  function After(ps: Params): int
  {
    if "pagination_cursor" in ps && ps["pagination_cursor"].Int? then ps["pagination_cursor"].i else 0
  }

  /** Rows after the cursor, skipping `from` of them and keeping at most `num` (0: all). */
  function TableRows(size: nat, ps: Params, from: int, num: int): seq<Row>
  {
    var start := Clamp(After(ps), 0, size);
    var rows := KeyRows(start, size - start);
    var rest := rows[Clamp(from, 0, |rows|)..];
    if 0 < num < |rest| then rest[..num] else rest
  }

  /** A statement whose select list is exactly `COUNT(1)`. */
  predicate SelectsCountOnly(sql: string)
  {
    |sql| >= 16 && sql[..16] == "SELECT COUNT(1)\n"
  }

  /**
   * The count answers a statement selecting only `COUNT(1)` with the
   * number of rows after the cursor, and fails on any other select list,
   * as a strict engine refuses a column selected beside an aggregate
   * without GROUP BY.
   */
  function TableCount(size: nat, sql: string, ps: Params): Option<int>
  {
    if SelectsCountOnly(sql) then Some(size - Clamp(After(ps), 0, size)) else None
  }

  function KeyedTable(size: nat): Db
  {
    Db(
      (sql: string, ps: Params, from: int, num: int) => TableRows(size, ps, from, num),
      (sql: string, ps: Params) => TableCount(size, sql, ps),
      (sql: string, ps: Params) => size > 0,
      (field: string, param: string, caseSensitive: bool, accentSensitive: bool, notLike: bool) => field,
      (keys: seq<string>) => "")
  }

  lemma KeyRowsSlice(lo: int, n: nat, a: nat, b: nat)
    requires a <= b <= n
    ensures KeyRows(lo, n)[a..b] == KeyRows(lo + a, b - a)
  {
  }

  lemma KeyRowsPrefix(lo: int, n: nat, m: nat)
    requires m <= n
    ensures KeyRows(lo, n)[..m] == KeyRows(lo, m)
  {
  }
}
