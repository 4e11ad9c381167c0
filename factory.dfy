/**
 * `sql_conditions_factory`
 * (src/http/filters/lhs/conditions/sql_conditions_factory.php): the
 * alias-to-variant table and `make`.
 */
module Factory {
  import opened Wrappers
  import opened Php
  import opened Database
  import opened Errors
  import opened Conditions
  import opened ConditionProperties

  /** The `match` of `make`: nine variants, in the order the table lists them. */
  function KindOf(alias: string): Option<Kind>
  {
    if alias == Alias(Gt) then Some(Gt)
    else if alias == Alias(Gte) then Some(Gte)
    else if alias == Alias(Lt) then Some(Lt)
    else if alias == Alias(Lte) then Some(Lte)
    else if alias == Alias(Eq) then Some(Eq)
    else if alias == Alias(Neq) then Some(Neq)
    else if alias == Alias(IsNull) then Some(IsNull)
    else if alias == Alias(NotNull) then Some(NotNull)
    else if alias == Alias(Like) then Some(Like)
    else None
  }

  /** `make($operator_alias, $field, $value)`: an unknown alias is an invalid operator for (field, alias). */
  function Make(alias: string, field: string, value: Value): Result<CondState, Failure>
  {
    match KindOf(alias)
    case None => Err(Failure(InvalidOperator, Filter(NewFilterContext(field, alias))))
    case Some(k) => Construct(k, field, value)
  }

  /** `make`, allocating the condition object. */
  method MakeCondition(alias: string, field: string, value: Value) returns (r: Result<SqlCondition, Failure>)
    ensures Make(alias, field, value).Err? ==> r == Err(Make(alias, field, value).error)
    ensures Make(alias, field, value).Ok? ==>
      r.Ok? && fresh(r.value) && r.value.State() == Make(alias, field, value).value
  {
    var kind := KindOf(alias);
    if kind.None? {
      return Err(Failure(InvalidOperator, Filter(NewFilterContext(field, alias))));
    }
    r := NewCondition(kind.value, field, value);
  }

  // ---------------------------------------------------------------------
  // Properties
  // ---------------------------------------------------------------------

  /** The table maps an alias to a variant exactly when it is that variant's alias, for every variant but IN and NOT LIKE. */
  lemma KindOfIff(alias: string, k: Kind)
    ensures KindOf(alias) == Some(k) <==> alias == Alias(k) && !k.In? && !k.NotLike?
  {
  }

  /** The aliases the table accepts, and the two variants it leaves out. */
  lemma KnownAliases()
    ensures forall a :: KindOf(a).Some? <==> a in ["gt", "gte", "lt", "lte", "eq", "neq", "isnull", "notnull", "like"]
    ensures KindOf("in") == None && KindOf("notlike") == None
  {
  }

  /** Whatever `make` returns carries the key `field__alias` of the alias it was asked for. */
  lemma MakeKey(alias: string, field: string, value: Value)
    requires Make(alias, field, value).Ok?
    ensures KindOf(alias).Some?
    ensures Make(alias, field, value).value.kind == KindOf(alias).value
    ensures Make(alias, field, value).value.key == field + "__" + alias
    ensures Make(alias, field, value).value.field == field
  {
    var k := KindOf(alias).value;
    KindOfIff(alias, k);
    ConstructIdentity(k, field, value);
  }

  /** `make` fails only for an unknown alias or a value the variant's constructor refuses. */
  lemma MakeFailure(alias: string, field: string, value: Value)
    ensures Make(alias, field, value).Err? <==>
      KindOf(alias).None? || Construct(KindOf(alias).value, field, value).Err?
    ensures KindOf(alias).None? ==>
      Make(alias, field, value) == Err(Failure(InvalidOperator, Filter(FilterContext(field, alias, ""))))
  {
  }

  /** `make('eq', 'field', 'value')` renders `field = :field__eq`. */
  lemma MakeEqExample(db: Db)
    ensures Make("eq", "field", Str("value")).Ok?
    ensures Render(Make("eq", "field", Str("value")).value, db, "").0 == Ok("field = :field__eq")
  {
    assert KindOf("eq") == Some(Eq);
    ComparisonCondition(Eq, "field", Str("value"), db, "", map[]);
    assert "field" + "__" + "eq" == "field__eq";
    assert "field" + " " + "=" + " :" + "field__eq" == "field = :field__eq";
  }

  /** `make('invalid', 'field', 'value')` is an invalid operator. */
  lemma MakeInvalidExample()
    ensures Make("invalid", "field", Str("value")) == Err(Failure(InvalidOperator, Filter(FilterContext("field", "invalid", ""))))
  {
    InvalidIsUnknown();
    MakeFailure("invalid", "field", Str("value"));
  }

  lemma InvalidIsUnknown()
    ensures KindOf("invalid") == None
  {
    KnownAliases();
    assert "invalid" !in ["gt", "gte", "lt", "lte", "eq", "neq", "isnull", "notnull", "like"];
  }
}
