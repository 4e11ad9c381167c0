/**
 * The parts of Moodle's `moodle_database` the library calls, as an
 * abstract oracle: nothing about their results is assumed beyond their
 * types. Rows are records whose properties are looked up by name.
 */
module Database {
  import opened Wrappers
  import opened Strings
  import opened Php

  /** Named parameters of a prepared statement (`:name` placeholders). */
  type Params = map<string, Value>

  /** A fetched record; a missing property reads as null. */
  datatype Row = Row(props: map<string, Value>)

  function Prop(r: Row, name: string): Value
  {
    if name in r.props then r.props[name] else Null
  }

  datatype Db = Db(
    /** `get_recordset_sql($sql, $params, $limitfrom, $limitnum)`. */
    recordset: (string, Params, int, int) -> seq<Row>,
    /**
     * `count_records_sql($sql, $params)`: the first field of the first
     * row, or None where it throws instead (that field is not a
     * non-negative number, or the engine refuses the statement).
     */
    countRecords: (string, Params) -> Option<int>,
    /** `record_exists_sql($sql, $params)`. */
    recordExists: (string, Params) -> bool,
    /** `sql_like($field, $param, $casesensitive, $accentsensitive, $notlike)`. */
    sqlLike: (string, string, bool, bool, bool) -> string,
    /** The SQL fragment `get_in_or_equal` renders for the given placeholder names. */
    inOrEqual: seq<string> -> string
  )

  /**
   * The placeholder names `get_in_or_equal($items, SQL_PARAMS_NAMED, $prefix)`
   * generates for `n` items: the prefix followed by 1, 2, ..., n.
   */
  function InKeys(prefix: string, n: nat): (r: seq<string>)
    ensures |r| == n
    ensures forall i :: 0 <= i < n ==> r[i] == prefix + NatToString(i + 1)
  {
    seq(n, i requires 0 <= i < n => prefix + NatToString(i + 1))
  }

  /** The generated names are pairwise different. */
  lemma InKeysDistinct(prefix: string, n: nat, i: nat, j: nat)
    requires i < n && j < n && i != j
    ensures InKeys(prefix, n)[i] != InKeys(prefix, n)[j]
  {
    var ks := InKeys(prefix, n);
    if ks[i] == ks[j] {
      var a, b := NatToString(i + 1), NatToString(j + 1);
      assert ks[i][|prefix|..] == a;
      assert ks[j][|prefix|..] == b;
      NatToStringInjective(i + 1, j + 1);
    }
  }
}
