/**
 * The SQL condition classes of the LHS-bracket filter
 * (src/http/filters/lhs/conditions/): `abstract_sql_condition` and its
 * variants. The variants differ only in their alias, their operator, how
 * their constructor stores the value and how they render; one datatype of
 * kinds stands for the class hierarchy, and one class holds the mutable
 * fields every variant shares.
 */
module Conditions {
  import opened Wrappers
  import opened Strings
  import opened Php
  import opened Database
  import opened Errors
  import opened Wildcards

  /** The condition variants. */
  datatype Kind = Eq | Neq | Gt | Gte | Lt | Lte | IsNull | NotNull | Like | NotLike | In

  /** `get_alias()`: the operator name used in request parameters and keys. */
  function Alias(k: Kind): string
  {
    match k
    case Eq => "eq"
    case Neq => "neq"
    case Gt => "gt"
    case Gte => "gte"
    case Lt => "lt"
    case Lte => "lte"
    case IsNull => "isnull"
    case NotNull => "notnull"
    case Like => "like"
    case NotLike => "notlike"
    case In => "in"
  }

  /** `get_operator()`: the SQL operator. */
  function Operator(k: Kind): string
  {
    match k
    case Eq => "="
    case Neq => "<>"
    case Gt => ">"
    case Gte => ">="
    case Lt => "<"
    case Lte => "<="
    case IsNull => "IS NULL"
    case NotNull => "IS NOT NULL"
    case Like => "LIKE"
    case NotLike => "NOT LIKE"
    case In => "IN"
  }

  /** The variants that inherit the base constructor and `to_sql`. */
  predicate IsComparison(k: Kind)
  {
    k.Eq? || k.Neq? || k.Gt? || k.Gte? || k.Lt? || k.Lte?
  }

  predicate IsNullTest(k: Kind)
  {
    k.IsNull? || k.NotNull?
  }

  predicate IsPattern(k: Kind)
  {
    k.Like? || k.NotLike?
  }

  /** The parameter key: `$field . '__' . get_alias()`. */
  function KeyOf(field: string, k: Kind): string
  {
    field + "__" + Alias(k)
  }

  /**
   * The fields of a condition object. `sql` is None until the first
   * `to_sql`; `elements` is the `$params` array of `in_sql_condition`
   * (empty for the other variants).
   */
  datatype CondState = CondState(
    kind: Kind,
    key: string,
    field: string,
    value: Value,
    sql: Option<string>,
    elements: seq<(string, Value)>)

  /**
   * Moodle's parameter routines, as an oracle: `validate_param($value,
   * $type, $allownull)` (None when it throws invalid_parameter_exception),
   * `clean_param($value, $type)`, and PHP's loose `==` as `in_array` uses it.
   */
  datatype Coercion = Coercion(
    validate: (Value, string, bool) -> Option<Value>,
    clean: (Value, string) -> Value,
    looseEquals: (Value, Value) -> bool)

  const ParamBool := "bool"
  const ParamCleanHtml := "cleanhtml"

  /** The arguments of `validate_param($type, $required, $default, $choices)`. */
  datatype Rule = Rule(paramType: string, required: bool, default: Value, choices: seq<Value>)

  /** The exception a call to the undefined `get_context()` raises. */
  const UndefinedContext := Failure(UndefinedMethod, NoContext)

  /** The filter context an invalid value of a variant reports. */
  function ContextOf(field: string, k: Kind): FilterContext
  {
    NewFilterContext(field, Alias(k))
  }

  // ---------------------------------------------------------------------
  // Construction
  // ---------------------------------------------------------------------

  function Fresh(kind: Kind, field: string, value: Value, elements: seq<(string, Value)>): CondState
  {
    CondState(kind, KeyOf(field, kind), field, value, None, elements)
  }

  function TrimmedPieces(pieces: seq<string>): (r: seq<Value>)
    ensures |r| == |pieces|
    ensures forall i :: 0 <= i < |pieces| ==> r[i] == Str(Trim(pieces[i]))
  {
    seq(|pieces|, i requires 0 <= i < |pieces| => Str(Trim(pieces[i])))
  }

  /** `array_map('trim', explode(',', $value))`. */
  function InElements(s: string): seq<(string, Value)>
  {
    ListOf(TrimmedPieces(Split(s, ',')))
  }

  /** `in_sql_condition::__construct`: a string or an array, nothing else. */
  function ConstructIn(field: string, value: Value): Result<CondState, Failure>
  {
    match value
    case Str(s) => Ok(Fresh(In, field, value, InElements(s)))
    case Arr(entries) => Ok(Fresh(In, field, Str(Implode(",", ValuesOf(entries))), entries))
    case _ => Err(Failure(InvalidValue, Filter(ContextOf(field, In))))
  }

  function NullableValue(n: NullableString): Value
  {
    match n
    case NullString => Null
    case SomeString(s) => Str(s)
  }

  /** `str_contains($value, '%')`, where a null haystack reads as "". */
  predicate HasPercent(n: NullableString)
  {
    n.SomeString? && Contains(n.s, '%')
  }

  /**
   * The LIKE / NOT LIKE constructors: the value is passed to
   * `normalize_wildcards(?string)` and must then contain `%`.
   */
  function ConstructPattern(kind: Kind, field: string, value: Value): Result<CondState, Failure>
    requires IsPattern(kind)
  {
    match ToNullableString(value)
    case None => Err(Failure(TypeMismatch, NoContext))
    case Some(ns) =>
      var n := NormalizeWildcards(ns);
      if !HasPercent(n) then Err(Failure(InvalidValue, Filter(ContextOf(field, kind))))
      else Ok(Fresh(kind, field, NullableValue(n), []))
  }

  /** `new <variant>_sql_condition($field, $value)`, with the invalid-value context the variants intend. */
  function Construct(kind: Kind, field: string, value: Value): Result<CondState, Failure>
  {
    if kind.In? then ConstructIn(field, value)
    else if IsPattern(kind) then ConstructPattern(kind, field, value)
    else if IsNullTest(kind) then Ok(Fresh(kind, field, Null, []))
    else Ok(Fresh(kind, field, value, []))
  }

  /**
   * The constructors as written: `in_sql_condition` and
   * `notlike_sql_condition` build their invalid-value exception from
   * `$this->get_context()`, which no class defines, so the call itself fails.
   */
  function ConstructAsWritten(kind: Kind, field: string, value: Value): Result<CondState, Failure>
  {
    var r := Construct(kind, field, value);
    if (kind.In? || kind.NotLike?) && r.Err? && r.error.kind == InvalidValue then Err(UndefinedContext) else r
  }

  // ---------------------------------------------------------------------
  // Rendering and parameters
  // ---------------------------------------------------------------------

  /** `$DB->get_in_or_equal($items, SQL_PARAMS_NAMED, $key)`'s params: the items under prefix1..prefixN. */
  function Numbered(prefix: string, elements: seq<(string, Value)>): (r: seq<(string, Value)>)
    ensures |r| == |elements|
    ensures forall i :: 0 <= i < |r| ==> r[i] == (InKeys(prefix, |elements|)[i], elements[i].1)
  {
    var keys := InKeys(prefix, |elements|);
    seq(|elements|, i requires 0 <= i < |elements| => (keys[i], elements[i].1))
  }

  /** The unprefixed SQL a variant renders the first time. */
  function Body(st: CondState, db: Db): Result<string, Failure>
  {
    match st.kind
    case In =>
      if st.elements == [] then Err(Failure(Configuration, NoContext))
      else Ok(st.field + " " + db.inOrEqual(InKeys(st.key, |st.elements|)))
    case Like => Ok(db.sqlLike(st.field, ":" + st.key, false, false, false))
    case NotLike => Ok(db.sqlLike(st.field, ":" + st.key, false, false, true))
    case IsNull => Ok(st.field + " " + Operator(st.kind))
    case NotNull => Ok(st.field + " " + Operator(st.kind))
    case _ => Ok(st.field + " " + Operator(st.kind) + " :" + st.key)
  }

  /** `empty($table) ? $sql : $table . "." . $sql`. */
  function Prefix(table: string, sql: string): string
  {
    if IsFalsy(table) then sql else table + "." + sql
  }

  /** The state after the first successful render: the SQL memoised, IN's elements renamed. */
  function Memoised(st: CondState, body: string): CondState
  {
    if st.kind.In? then st.(sql := Some(body), elements := Numbered(st.key, st.elements))
    else st.(sql := Some(body))
  }

  /** `to_sql($table)`: its result and the condition's new state. */
  function Render(st: CondState, db: Db, table: string): (Result<string, Failure>, CondState)
  {
    if st.sql.Some? then (Ok(Prefix(table, st.sql.value)), st)
    else
      match Body(st, db)
      case Err(e) => (Err(e), st)
      case Ok(b) => (Ok(Prefix(table, b)), Memoised(st, b))
  }

  /** `foreach ($entries as $key => $value) $params[$key] = $value;` */
  function AppendEntries(params: Params, entries: seq<(string, Value)>): Params
    decreases |entries|
  {
    if entries == [] then params
    else AppendEntries(params[entries[0].0 := entries[0].1], entries[1..])
  }

  /** `append_param(&$params)`. */
  function Appended(st: CondState, params: Params): Params
  {
    if st.kind.In? then AppendEntries(params, st.elements) else params[st.key := st.value]
  }

  // ---------------------------------------------------------------------
  // Validation
  // ---------------------------------------------------------------------

  /** `in_array($value, $choices)` with loose comparison. */
  predicate LooseIn(co: Coercion, v: Value, choices: seq<Value>)
  {
    exists i :: 0 <= i < |choices| && co.looseEquals(v, choices[i])
  }

  predicate MissingValue(v: Value, rule: Rule)
  {
    v == Null && rule.required && rule.default == Null
  }

  /** The default substitution, the PARAM_BOOL fix-up and the HTML cleaning, in that order. */
  function Prepared(co: Coercion, v: Value, rule: Rule): Value
  {
    var defaulted := if v == Null && rule.required && rule.default != Null then rule.default else v;
    var fixed := if rule.paramType == ParamBool && defaulted == Bool(false) then Int(0) else defaulted;
    if rule.paramType == ParamCleanHtml then co.clean(fixed, rule.paramType) else fixed
  }

  /** The base `validate_param`, on a single value. */
  function ValidateValue(co: Coercion, field: string, v: Value, rule: Rule): Result<Value, Failure>
  {
    if MissingValue(v, rule) then Err(Failure(MissingRequired, FieldOnly(field)))
    else
      var p := Prepared(co, v, rule);
      if rule.choices != [] && !LooseIn(co, p, rule.choices) then
        Err(Failure(InvalidChoice, FieldChoices(field, Implode(", ", rule.choices))))
      else
        match co.validate(p, rule.paramType, !rule.required)
        case None => Err(Failure(Validation, NoContext))
        case Some(c) => Ok(c)
  }

  /**
   * One iteration of `in_sql_condition::validate_param`: the element's
   * new value (it is a reference, so it keeps what was done to it before
   * a failure) and the failure, if any. A null coercion result falls back
   * to the default.
   */
  function ValidateElement(co: Coercion, field: string, v: Value, rule: Rule): (Value, Option<Failure>)
  {
    if MissingValue(v, rule) then (v, Some(Failure(MissingRequired, Filter(ContextOf(field, In)))))
    else
      var p := Prepared(co, v, rule);
      if rule.choices != [] && !LooseIn(co, p, rule.choices) then
        (p, Some(Failure(InvalidChoice, Filter(NewFilterContext(field, Alias(In), AcceptsText(""))))))
      else
        match co.validate(p, rule.paramType, !rule.required)
        case None => (p, Some(Failure(Validation, NoContext)))
        case Some(c) => (if c == Null then rule.default else c, None)
  }

  /** The state after element i passed: that element rewritten in place, the value re-joined. */
  function Advanced(co: Coercion, st: CondState, i: nat, rule: Rule): (r: CondState)
    requires i < |st.elements|
    ensures r.kind == st.kind && r.key == st.key && r.field == st.field && r.sql == st.sql
    ensures |r.elements| == |st.elements|
    ensures r.elements[i] == (st.elements[i].0, ValidateElement(co, st.field, st.elements[i].1, rule).0)
    ensures forall k :: 0 <= k < |st.elements| && k != i ==> r.elements[k] == st.elements[k]
    ensures r.value == Str(Implode(",", ValuesOf(r.elements)))
  {
    var elements := st.elements[i := (st.elements[i].0, ValidateElement(co, st.field, st.elements[i].1, rule).0)];
    st.(elements := elements, value := Str(Implode(",", ValuesOf(elements))))
  }

  /** The loop over the elements from index i on; the value is re-joined after each success. */
  function ValidateElementsFrom(co: Coercion, st: CondState, i: nat, rule: Rule): (CondState, Outcome<Failure>)
    requires i <= |st.elements|
    decreases |st.elements| - i
  {
    if i == |st.elements| then (st, Pass)
    else
      var step := ValidateElement(co, st.field, st.elements[i].1, rule);
      if step.1.Some? then (st.(elements := st.elements[i := (st.elements[i].0, step.0)]), Fail(step.1.value))
      else ValidateElementsFrom(co, Advanced(co, st, i, rule), i + 1, rule)
  }

  /** `validate_param` of any variant: the new state and whether it threw. */
  function Validated(co: Coercion, st: CondState, rule: Rule): (CondState, Outcome<Failure>)
  {
    if st.kind.In? then ValidateElementsFrom(co, st, 0, rule)
    else
      match ValidateValue(co, st.field, st.value, rule)
      case Err(e) => (st, Fail(e))
      case Ok(v) => (st.(value := v), Pass)
  }

  /**
   * `in_sql_condition::validate_param` as written: a required element that
   * is null with a null default reaches `$this->get_context()`, which no
   * class defines.
   */
  function ValidatedAsWritten(co: Coercion, st: CondState, rule: Rule): (CondState, Outcome<Failure>)
  {
    var r := Validated(co, st, rule);
    if st.kind.In? && r.1.Fail? && r.1.error.kind == MissingRequired then (r.0, Fail(UndefinedContext)) else r
  }

  // ---------------------------------------------------------------------
  // The condition object
  // ---------------------------------------------------------------------

  class SqlCondition {
    const kind: Kind
    const key: string
    var field: string
    var value: Value
    var sql: Option<string>
    var elements: seq<(string, Value)>

    function State(): CondState
      reads this
    {
      CondState(kind, key, field, value, sql, elements)
    }

    /** Allocates an object holding the fields a constructor computed. */
    constructor Init(st: CondState)
      ensures State() == st
    {
      kind, key := st.kind, st.key;
      field, value, sql, elements := st.field, st.value, st.sql, st.elements;
    }

    /** `to_sql($table)`: memoises the unprefixed SQL, prefixes it on every call. */
    method ToSql(db: Db, table: string := "") returns (r: Result<string, Failure>)
      modifies this
      ensures (r, State()) == Render(old(State()), db, table)
    {
      if sql.None? {
        var body := Body(State(), db);
        if body.Err? {
          return Err(body.error);
        }
        if kind.In? {
          elements := Numbered(key, elements);
        }
        sql := Some(body.value);
      }
      return Ok(Prefix(table, sql.value));
    }

    /** `append_param(&$params)`, returning the updated array. */
    method AppendParam(params: Params) returns (r: Params)
      ensures r == Appended(State(), params)
    {
      if !kind.In? {
        return params[key := value];
      }
      r := params;
      for i := 0 to |elements|
        invariant AppendEntries(r, elements[i..]) == AppendEntries(params, elements)
      {
        assert elements[i..][1..] == elements[i + 1..];
        r := r[elements[i].0 := elements[i].1];
      }
    }

    method SetField(f: string)
      modifies this
      ensures State() == old(State()).(field := f)
    {
      field := f;
    }

    /** `validate_param($type, $required, $default, $choices)`. */
    method ValidateParam(co: Coercion, rule: Rule) returns (r: Outcome<Failure>)
      modifies this
      ensures (State(), r) == Validated(co, old(State()), rule)
    {
      if !kind.In? {
        var v := ValidateValue(co, field, value, rule);
        if v.Err? {
          return Fail(v.error);
        }
        value := v.value;
        return Pass;
      }
      var i := 0;
      while i < |elements|
        invariant i <= |elements| == |old(elements)|
        invariant ValidateElementsFrom(co, State(), i, rule) == Validated(co, old(State()), rule)
        decreases |elements| - i
      {
        var step := ValidateElement(co, field, elements[i].1, rule);
        elements := elements[i := (elements[i].0, step.0)];
        if step.1.Some? {
          return Fail(step.1.value);
        }
        value := Str(Implode(",", ValuesOf(elements)));
        i := i + 1;
      }
      return Pass;
    }
  }

  /** `new <variant>_sql_condition($field, $value)`: a fresh object, or the constructor's exception. */
  method NewCondition(kind: Kind, field: string, value: Value) returns (r: Result<SqlCondition, Failure>)
    ensures Construct(kind, field, value).Err? ==> r == Err(Construct(kind, field, value).error)
    ensures Construct(kind, field, value).Ok? ==>
      r.Ok? && fresh(r.value) && r.value.State() == Construct(kind, field, value).value
  {
    var st := Construct(kind, field, value);
    if st.Err? {
      return Err(st.error);
    }
    var c := new SqlCondition.Init(st.value);
    return Ok(c);
  }
}
