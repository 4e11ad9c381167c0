/**
 * `lhs_filter` (src/http/filters/lhs/lhs_filter.php): turns LHS-bracket
 * query parameters (`field=value`, `field[op]=value`) into SQL conditions,
 * checked against a field schema that each subclass declares and that is
 * resolved once per subclass into a shared cache.
 */
module Lhs {
  import opened Wrappers
  import opened Strings
  import opened Php
  import opened Database
  import opened Errors
  import opened Conditions
  import opened Factory

  /** `define_default_operator()`: the alias of `eq_sql_condition`. */
  const DefaultOperator := "eq"

  /**
   * A field as `define_fields()` declares it. None stands for a key that
   * is absent or null; an empty operator list for one that is absent or
   * PHP-empty.
   */
  datatype FieldDecl = FieldDecl(
    paramType: Option<string>,
    required: Option<bool>,
    default: Value,
    choices: Option<seq<Value>>,
    operators: seq<string>)

  /** A field after `get_fields_definition()` filled in the defaults. */
  datatype FieldDef = FieldDef(
    paramType: Option<string>,
    required: bool,
    default: Value,
    choices: seq<Value>,
    operators: seq<string>)

  type Schema = map<string, FieldDef>

  /** The defaulting applied to each declared field. */
  function Resolve(d: FieldDecl): FieldDef
  {
    FieldDef(
      d.paramType,
      if d.required.Some? then d.required.value else false,
      d.default,
      if d.choices.Some? then d.choices.value else [],
      if d.operators == [] then [DefaultOperator] else d.operators)
  }

  /** The resolved schema of a declaration list; a field declared twice keeps its last declaration. */
  function ResolveAll(decls: seq<(string, FieldDecl)>): Schema
    decreases |decls|
  {
    if decls == [] then map[]
    else ResolveAll(decls[..|decls| - 1])[decls[|decls| - 1].0 := Resolve(decls[|decls| - 1].1)]
  }

  /** Resolving one more declaration adds (or overrides) that one field. */
  lemma ResolveAllSnoc(decls: seq<(string, FieldDecl)>, i: nat)
    requires i < |decls|
    ensures ResolveAll(decls[..i + 1]) == ResolveAll(decls[..i])[decls[i].0 := Resolve(decls[i].1)]
  {
    assert decls[..i + 1][..i] == decls[..i];
  }

  /** `accepts_field`: every field when nothing is declared, otherwise the declared ones. */
  predicate FieldAccepted(schema: Schema, field: string)
  {
    schema == map[] || field in schema
  }

  /** The position of the condition stored under a key, or -1. */
  function KeyIndex(sts: seq<CondState>, key: string): (r: int)
    ensures -1 <= r < |sts|
    ensures r >= 0 ==> sts[r].key == key
    ensures r < 0 ==> forall j :: 0 <= j < |sts| ==> sts[j].key != key
  {
    if sts == [] then -1
    else if sts[0].key == key then 0
    else
      var k := KeyIndex(sts[1..], key);
      if k < 0 then -1 else k + 1
  }

  /** `$this->conditions[$key] = $condition`: a key already present keeps its position. */
  function Upsert(sts: seq<CondState>, st: CondState): seq<CondState>
  {
    var i := KeyIndex(sts, st.key);
    if i < 0 then sts + [st] else sts[i := st]
  }

  function RuleOf(d: FieldDef): Rule
    requires d.paramType.Some?
  {
    Rule(d.paramType.value, d.required, d.default, d.choices)
  }

  /** The checks `set_condition` makes for a declared field: the operator list, then the parameter's rule. */
  function Checked(d: FieldDef, co: Coercion, st: CondState, alias: string, field: string): (CondState, Outcome<Failure>)
  {
    if alias !in d.operators then
      (st, Fail(Failure(ForbiddenOperator, Filter(NewFilterContext(field, alias, AcceptsList(d.operators))))))
    else if d.paramType.None? then (st, Fail(Failure(TypeMismatch, NoContext)))
    else Validated(co, st, RuleOf(d))
  }

  /** The condition `set_condition` stores for an accepted field, or the exception it throws. */
  function Admitted(schema: Schema, co: Coercion, alias: string, field: string, value: Value): Result<CondState, Failure>
  {
    match Make(alias, field, value)
    case Err(e) => Err(e)
    case Ok(st) =>
      if field !in schema then Ok(st)
      else
        var checked := Checked(schema[field], co, st, alias, field);
        if checked.1.Fail? then Err(checked.1.error) else Ok(checked.0)
  }

  /** `set_condition($operator_alias, $field, $value)`: the stored conditions afterwards and whether it threw. */
  function SetConditionSpec(schema: Schema, co: Coercion, sts: seq<CondState>, alias: string, field: string, value: Value)
    : (seq<CondState>, Outcome<Failure>)
  {
    if !FieldAccepted(schema, field) then (sts, Pass)
    else
      match Admitted(schema, co, alias, field, value)
      case Err(e) => (sts, Fail(e))
      case Ok(st) => (Upsert(sts, st), Pass)
  }

  /** The inner loop of the constructor: one `set_condition` per (operator, value), stopping at the first exception. */
  function ApplyOps(schema: Schema, co: Coercion, sts: seq<CondState>, field: string, ops: seq<(string, Value)>)
    : (seq<CondState>, Outcome<Failure>)
    decreases |ops|
  {
    if ops == [] then (sts, Pass)
    else
      var s := SetConditionSpec(schema, co, sts, ops[0].0, field, ops[0].1);
      if s.1.Fail? then s else ApplyOps(schema, co, s.0, field, ops[1..])
  }

  /** A scalar is an `eq` condition; an array is a map from operators to values. */
  function ApplyField(schema: Schema, co: Coercion, sts: seq<CondState>, field: string, values: Value)
    : (seq<CondState>, Outcome<Failure>)
  {
    if values.Arr? then ApplyOps(schema, co, sts, field, values.entries)
    else SetConditionSpec(schema, co, sts, DefaultOperator, field, values)
  }

  /** The outer loop of the constructor over the query parameters. */
  function ApplyAll(schema: Schema, co: Coercion, sts: seq<CondState>, queryParams: seq<(string, Value)>)
    : (seq<CondState>, Outcome<Failure>)
    decreases |queryParams|
  {
    if queryParams == [] then (sts, Pass)
    else
      var s := ApplyField(schema, co, sts, queryParams[0].0, queryParams[0].1);
      if s.1.Fail? then s else ApplyAll(schema, co, s.0, queryParams[1..])
  }

  /** Rendering the conditions from index i on, after `texts` were rendered. */
  function RenderFrom(sts: seq<CondState>, i: nat, texts: seq<string>, db: Db, table: string)
    : (Result<seq<string>, Failure>, seq<CondState>)
    requires i <= |sts|
    decreases |sts| - i
  {
    if i == |sts| then (Ok(texts), sts)
    else
      var r := Render(sts[i], db, table);
      if r.0.Err? then (Err(r.0.error), sts[i := r.1])
      else RenderFrom(sts[i := r.1], i + 1, texts + [r.0.value], db, table)
  }

  /** `get_conditions($table)`: the rendered conditions joined by AND, and the conditions' new states. */
  function RenderedConditions(sts: seq<CondState>, db: Db, table: string): (Result<string, Failure>, seq<CondState>)
  {
    var r := RenderFrom(sts, 0, [], db, table);
    (if r.0.Ok? then Ok(Join(r.0.value, " AND ")) else Err(r.0.error), r.1)
  }

  function AppendFrom(sts: seq<CondState>, i: nat, params: Params): Params
    requires i <= |sts|
    decreases |sts| - i
  {
    if i == |sts| then params else AppendFrom(sts, i + 1, Appended(sts[i], params))
  }

  /** `get_parameters()`: every condition's `append_param`, in order, into an empty array. */
  function Parameters(sts: seq<CondState>): Params
  {
    AppendFrom(sts, 0, map[])
  }

  function StatesOf(cs: seq<SqlCondition>): (r: seq<CondState>)
    reads cs
    ensures |r| == |cs|
    ensures forall i :: 0 <= i < |cs| ==> r[i] == cs[i].State()
  {
    if cs == [] then [] else [cs[0].State()] + StatesOf(cs[1..])
  }

  /**
   * What `get_fields_definition()` returns for a subclass: the cached
   * entry when there is one, whatever declarations produced it, and
   * otherwise the given declarations resolved.
   */
  function CachedSchema(entries: map<string, Schema>, subclass: string, declared: seq<(string, FieldDecl)>): (r: Schema)
    ensures subclass in entries ==> r == entries[subclass]
    ensures subclass !in entries ==> r == ResolveAll(declared)
  {
    if subclass in entries then entries[subclass] else ResolveAll(declared)
  }

  /** The static `$definition_cache`, shared by every filter: resolved schemas by subclass. */
  class DefinitionCache {
    var entries: map<string, Schema>

    constructor()
      ensures entries == map[]
    {
      entries := map[];
    }
  }

  class LhsFilter {
    /** `static::class` and what its `define_fields()` returns. */
    const subclass: string
    const declared: seq<(string, FieldDecl)>
    const cache: DefinitionCache
    /** The `$conditions` array, in insertion order; its keys are the conditions' keys. */
    var conditions: seq<SqlCondition>

    /** An array has one entry per key. */
    ghost predicate Valid()
      reads this
    {
      forall i, j :: 0 <= i < j < |conditions| ==> conditions[i].key != conditions[j].key
    }

    /** The schema this filter works with: the cache's entry for its subclass, once there is one. */
    function Definitions(): Schema
      reads this, cache
    {
      CachedSchema(cache.entries, subclass, declared)
    }

    function States(): seq<CondState>
      reads this, conditions
    {
      StatesOf(conditions)
    }

    /**
     * The cache, against its contents `before`, has gained at most this
     * subclass's entry, and this filter still sees `schema`.
     */
    ghost predicate CacheKeeps(before: map<string, Schema>, schema: Schema)
      reads this, cache
    {
      cache.entries - {subclass} == before - {subclass} && Definitions() == schema
      && (subclass in before ==> cache.entries == before)
    }

    constructor Init(subclass: string, declared: seq<(string, FieldDecl)>, cache: DefinitionCache)
      ensures this.subclass == subclass && this.declared == declared && this.cache == cache
      ensures conditions == [] && Valid()
    {
      this.subclass, this.declared, this.cache := subclass, declared, cache;
      conditions := [];
    }

    /**
     * `get_fields_definition()`: resolves the declarations into the cache
     * the first time the subclass asks, and afterwards serves the cached
     * entry, even to an instance whose declarations differ.
     */
    method GetFieldsDefinition() returns (defs: Schema)
      modifies cache
      ensures subclass in old(cache.entries) ==> defs == old(cache.entries)[subclass] && cache.entries == old(cache.entries)
      ensures subclass !in old(cache.entries) ==>
        defs == ResolveAll(declared) && cache.entries == old(cache.entries)[subclass := ResolveAll(declared)]
    {
      if subclass !in cache.entries {
        FillCache();
      }
      defs := cache.entries[subclass];
    }

    /** The first call of `get_fields_definition()`: each declared field, defaulted, into the cache. */
    method FillCache()
      modifies cache
      ensures cache.entries == old(cache.entries)[subclass := ResolveAll(declared)]
    {
      ghost var before := cache.entries;
      var decls, key := declared, subclass;
      cache.entries := cache.entries[key := map[]];
      for i := 0 to |decls|
        invariant cache.entries == before[key := ResolveAll(decls[..i])]
      {
        ResolveAllSnoc(decls, i);
        var field, d := decls[i].0, decls[i].1;
        cache.entries := cache.entries[key := cache.entries[key][field := Resolve(d)]];
      }
      assert decls[..|decls|] == decls;
    }

    method AcceptsField(field: string) returns (b: bool)
      modifies cache
      ensures b == FieldAccepted(old(Definitions()), field)
      ensures cache.entries == old(cache.entries)[subclass := old(Definitions())]
    {
      var defs := GetFieldsDefinition();
      if defs == map[] {
        return true;
      }
      return field in defs;
    }

    /** Stores a condition under its key, in place when the key is already there. */
    method Store(c: SqlCondition)
      requires Valid()
      modifies this
      ensures Valid()
      ensures States() == Upsert(old(States()), c.State())
    {
      var i := KeyIndex(States(), c.key);
      if i < 0 {
        conditions := conditions + [c];
      } else {
        conditions := conditions[i := c];
      }
    }

    /** `set_condition($operator_alias, $field, $value)`. */
    method SetCondition(co: Coercion, alias: string, field: string, value: Value) returns (r: Outcome<Failure>)
      requires Valid()
      modifies this, cache
      ensures Valid()
      ensures (States(), r) == SetConditionSpec(old(Definitions()), co, old(States()), alias, field, value)
      ensures cache.entries == old(cache.entries)[subclass := old(Definitions())]
    {
      ghost var sts := States();
      var accepted := AcceptsField(field);
      assert States() == sts;
      if !accepted {
        return Pass;
      }
      var defs := GetFieldsDefinition();
      assert States() == sts;
      var made := AdmitCondition(defs, co, alias, field, value);
      assert States() == sts;
      if made.Err? {
        return Fail(made.error);
      }
      var c := made.value;
      Store(c);
      return Pass;
    }

    /** The loop over one field's operators in `__construct`. */
    method ApplyOperators(co: Coercion, field: string, ops: seq<(string, Value)>) returns (r: Outcome<Failure>)
      requires Valid()
      modifies this, cache
      ensures Valid()
      ensures (States(), r) == ApplyOps(old(Definitions()), co, old(States()), field, ops)
      ensures CacheKeeps(old(cache.entries), old(Definitions()))
    {
      ghost var schema := Definitions();
      var j := 0;
      while j < |ops|
        invariant j <= |ops|
        invariant Valid() && CacheKeeps(old(cache.entries), schema)
        invariant ApplyOps(schema, co, States(), field, ops[j..]) == ApplyOps(schema, co, old(States()), field, ops)
      {
        assert ops[j..][1..] == ops[j + 1..];
        r := SetCondition(co, ops[j].0, field, ops[j].1);
        if r.Fail? {
          return;
        }
        j := j + 1;
      }
      return Pass;
    }

    /** The body of the loop over the query parameters in `__construct`. */
    method ApplyValue(co: Coercion, field: string, values: Value) returns (r: Outcome<Failure>)
      requires Valid()
      modifies this, cache
      ensures Valid()
      ensures (States(), r) == ApplyField(old(Definitions()), co, old(States()), field, values)
      ensures CacheKeeps(old(cache.entries), old(Definitions()))
    {
      if !values.Arr? {
        r := SetCondition(co, DefaultOperator, field, values);
      } else {
        r := ApplyOperators(co, field, values.entries);
      }
    }

    /** The loop over the query parameters in `__construct($query_params)`. */
    method Apply(co: Coercion, queryParams: seq<(string, Value)>) returns (r: Outcome<Failure>)
      requires Valid()
      modifies this, cache
      ensures Valid()
      ensures (States(), r) == ApplyAll(old(Definitions()), co, old(States()), queryParams)
      ensures CacheKeeps(old(cache.entries), old(Definitions()))
    {
      ghost var schema := Definitions();
      var i := 0;
      while i < |queryParams|
        invariant i <= |queryParams|
        invariant Valid() && CacheKeeps(old(cache.entries), schema)
        invariant ApplyAll(schema, co, States(), queryParams[i..]) == ApplyAll(schema, co, old(States()), queryParams)
      {
        assert queryParams[i..][1..] == queryParams[i + 1..];
        r := ApplyValue(co, queryParams[i].0, queryParams[i].1);
        if r.Fail? {
          return;
        }
        i := i + 1;
      }
      return Pass;
    }

    /** `$condition->to_sql($table)` on the i-th stored condition; the others are untouched. */
    method RenderAt(i: nat, db: Db, table: string) returns (t: Result<string, Failure>)
      requires Valid() && i < |conditions|
      modifies conditions[i]
      ensures t == Render(old(States())[i], db, table).0
      ensures States() == old(States())[i := Render(old(States())[i], db, table).1]
    {
      ghost var before := States();
      var c := conditions[i];
      t := c.ToSql(db, table);
      forall j | 0 <= j < |conditions| && j != i
        ensures conditions[j].State() == before[j]
      {
        assert conditions[j].key != c.key;
      }
    }

    /** The `array_map` of `get_conditions($table)`: every condition's `to_sql($table)`, in order. */
    method RenderAll(db: Db, table: string) returns (r: Result<seq<string>, Failure>)
      requires Valid()
      modifies conditions
      ensures (r, States()) == RenderFrom(old(States()), 0, [], db, table)
    {
      var texts: seq<string> := [];
      ghost var sts := States();
      var i := 0;
      while i < |conditions|
        invariant i <= |conditions| == |sts|
        invariant States() == sts
        invariant RenderFrom(sts, i, texts, db, table) == RenderFrom(old(States()), 0, [], db, table)
      {
        var t := RenderAt(i, db, table);
        sts := sts[i := Render(sts[i], db, table).1];
        if t.Err? {
          return Err(t.error);
        }
        texts := texts + [t.value];
        i := i + 1;
      }
      return Ok(texts);
    }

    /** `get_conditions($table)`: the rendered conditions joined by AND. */
    method GetConditions(db: Db, table: string := "") returns (r: Result<string, Failure>)
      requires Valid()
      modifies conditions
      ensures Valid()
      ensures (r, States()) == RenderedConditions(old(States()), db, table)
    {
      var texts := RenderAll(db, table);
      if texts.Err? {
        return Err(texts.error);
      }
      return Ok(Join(texts.value, " AND "));
    }

    /** `get_parameters()`. */
    method GetParameters() returns (r: Params)
      ensures r == Parameters(States())
    {
      ghost var sts := States();
      r := map[];
      for i := 0 to |conditions|
        invariant AppendFrom(sts, i, r) == Parameters(sts)
      {
        r := conditions[i].AppendParam(r);
      }
    }

    /** `has_conditions()`: whether any condition was stored. */
    function HasConditions(): (b: bool)
      reads this, conditions
      ensures b <==> States() != []
    {
      |conditions| > 0
    }
  }

  /** `make`, then the checks of `set_condition` for a declared field. */
  method AdmitCondition(defs: Schema, co: Coercion, alias: string, field: string, value: Value) returns (r: Result<SqlCondition, Failure>)
    ensures Admitted(defs, co, alias, field, value).Err? ==> r == Err(Admitted(defs, co, alias, field, value).error)
    ensures Admitted(defs, co, alias, field, value).Ok? ==>
      r.Ok? && fresh(r.value) && r.value.State() == Admitted(defs, co, alias, field, value).value
  {
    var made := MakeCondition(alias, field, value);
    if made.Err? {
      return Err(made.error);
    }
    var c := made.value;
    if defs != map[] && field in defs {
      var checked := CheckField(c, defs[field], co, alias, field);
      if checked.Fail? {
        return Err(checked.error);
      }
    }
    return Ok(c);
  }

  /** The checks of `set_condition` for a declared field, on the condition `make` returned. */
  method CheckField(c: SqlCondition, d: FieldDef, co: Coercion, alias: string, field: string) returns (r: Outcome<Failure>)
    modifies c
    ensures (c.State(), r) == Checked(d, co, old(c.State()), alias, field)
  {
    if alias !in d.operators {
      return Fail(Failure(ForbiddenOperator, Filter(NewFilterContext(field, alias, AcceptsList(d.operators)))));
    }
    if d.paramType.None? {
      return Fail(Failure(TypeMismatch, NoContext));
    }
    r := c.ValidateParam(co, RuleOf(d));
  }

  /** `new <subclass>($query_params)`: the filter, or the first exception a condition raised. */
  method NewFilter(subclass: string, declared: seq<(string, FieldDecl)>, cache: DefinitionCache,
                   co: Coercion, queryParams: seq<(string, Value)>) returns (r: Result<LhsFilter, Failure>)
    modifies cache
    ensures ApplyAll(CachedSchema(old(cache.entries), subclass, declared), co, [], queryParams).1.Fail? ==>
      r == Err(ApplyAll(CachedSchema(old(cache.entries), subclass, declared), co, [], queryParams).1.error)
    ensures ApplyAll(CachedSchema(old(cache.entries), subclass, declared), co, [], queryParams).1 == Pass ==>
      r.Ok? && fresh(r.value) && r.value.Valid()
      && r.value.subclass == subclass && r.value.declared == declared && r.value.cache == cache
      && r.value.States() == ApplyAll(CachedSchema(old(cache.entries), subclass, declared), co, [], queryParams).0
    ensures cache.entries - {subclass} == old(cache.entries) - {subclass}
    ensures CachedSchema(cache.entries, subclass, declared) == CachedSchema(old(cache.entries), subclass, declared)
  {
    var f := new LhsFilter.Init(subclass, declared, cache);
    var applied := f.Apply(co, queryParams);
    if applied.Fail? {
      return Err(applied.error);
    }
    return Ok(f);
  }
}
