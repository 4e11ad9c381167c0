/** What `lhs_filter` promises: schema defaulting, acceptance, the operator check, storage by key, rendering and parameters. */
module LhsProperties {
  import opened Wrappers
  import opened Strings
  import opened Php
  import opened Database
  import opened Errors
  import opened Conditions
  import opened ConditionProperties
  import opened Factory
  import opened Lhs

  // ---------------------------------------------------------------------
  // The schema
  // ---------------------------------------------------------------------

  /** Supplied values are kept; absent ones become false, [] and ['eq']. */
  lemma ResolveDefaults(d: FieldDecl)
    ensures Resolve(d).paramType == d.paramType && Resolve(d).default == d.default
    ensures Resolve(d).required <==> d.required == Some(true)
    ensures Resolve(d).choices == (if d.choices.Some? then d.choices.value else [])
    ensures Resolve(d).operators != []
    ensures d.operators != [] ==> Resolve(d).operators == d.operators
    ensures d.operators == [] ==> Resolve(d).operators == [Alias(Eq)]
  {
  }

  /** The declaration a resolved field amounts to. */
  function Redeclared(f: FieldDef): FieldDecl
  {
    FieldDecl(f.paramType, Some(f.required), f.default, Some(f.choices), f.operators)
  }

  /** Defaulting a field that is already complete changes nothing. */
  lemma ResolveIdempotent(d: FieldDecl)
    ensures Resolve(Redeclared(Resolve(d))) == Resolve(d)
  {
  }

  function DeclaredNames(decls: seq<(string, FieldDecl)>): set<string>
  {
    set i | 0 <= i < |decls| :: decls[i].0
  }

  /** The schema has exactly the declared fields. */
  lemma {:induction false} ResolveAllKeys(decls: seq<(string, FieldDecl)>)
    ensures ResolveAll(decls).Keys == DeclaredNames(decls)
    decreases |decls|
  {
    if decls != [] {
      var init := decls[..|decls| - 1];
      ResolveAllKeys(init);
      assert DeclaredNames(decls) == DeclaredNames(init) + {decls[|decls| - 1].0} by {
        forall k | k in DeclaredNames(decls)
          ensures k in DeclaredNames(init) + {decls[|decls| - 1].0}
        {
          var i :| 0 <= i < |decls| && decls[i].0 == k;
          if i < |decls| - 1 {
            assert init[i].0 == k;
          }
        }
        forall k | k in DeclaredNames(init)
          ensures k in DeclaredNames(decls)
        {
          var i :| 0 <= i < |init| && init[i].0 == k;
          assert decls[i].0 == k;
        }
      }
    }
  }

  /** Each field is resolved from its last declaration. */
  lemma {:induction false} ResolveAllLookup(decls: seq<(string, FieldDecl)>, i: nat)
    requires i < |decls|
    requires forall j :: i < j < |decls| ==> decls[j].0 != decls[i].0
    ensures decls[i].0 in ResolveAll(decls)
    ensures ResolveAll(decls)[decls[i].0] == Resolve(decls[i].1)
    decreases |decls|
  {
    if i < |decls| - 1 {
      var init := decls[..|decls| - 1];
      ResolveAllLookup(init, i);
    }
  }

  // ---------------------------------------------------------------------
  // set_condition
  // ---------------------------------------------------------------------

  /** An unaccepted field is ignored: nothing is stored and nothing is thrown. */
  lemma UnacceptedFieldIgnored(schema: Schema, co: Coercion, sts: seq<CondState>, alias: string, field: string, value: Value)
    requires schema != map[] && field !in schema
    ensures SetConditionSpec(schema, co, sts, alias, field, value) == (sts, Pass)
  {
  }

  /** With no schema every field is accepted and stored as `make` built it, without validation. */
  lemma EmptySchemaUnvalidated(co: Coercion, sts: seq<CondState>, alias: string, field: string, value: Value)
    ensures Admitted(map[], co, alias, field, value) == Make(alias, field, value)
    ensures SetConditionSpec(map[], co, sts, alias, field, value)
      == if Make(alias, field, value).Ok? then (Upsert(sts, Make(alias, field, value).value), Pass)
         else (sts, Fail(Make(alias, field, value).error))
  {
  }

  /**
   * For a declared field, the operator check comes first: an operator
   * outside its list is a forbidden operator whose context carries the
   * field, the alias and the allowed list; and that is the only way to get one.
   */
  lemma ForbiddenOperatorIff(schema: Schema, co: Coercion, alias: string, field: string, value: Value)
    ensures (Admitted(schema, co, alias, field, value).Err? && Admitted(schema, co, alias, field, value).error.kind == ForbiddenOperator)
      <==> Make(alias, field, value).Ok? && field in schema && alias !in schema[field].operators
    ensures Make(alias, field, value).Ok? && field in schema && alias !in schema[field].operators ==>
      Admitted(schema, co, alias, field, value)
        == Err(Failure(ForbiddenOperator, Filter(FilterContext(field, alias, Join(schema[field].operators, ",")))))
  {
    if Make(alias, field, value).Ok? && field in schema && alias in schema[field].operators && schema[field].paramType.Some? {
      ValidatedFailureKinds(co, Make(alias, field, value).value, RuleOf(schema[field]));
    }
  }

  /** A declared field with an allowed operator is validated with its own type, required flag, default and choices. */
  lemma DeclaredFieldValidated(schema: Schema, co: Coercion, alias: string, field: string, value: Value)
    requires Make(alias, field, value).Ok? && field in schema && alias in schema[field].operators
    ensures schema[field].paramType.None? ==> Admitted(schema, co, alias, field, value) == Err(Failure(TypeMismatch, NoContext))
    ensures schema[field].paramType.Some? ==>
      var v := Validated(co, Make(alias, field, value).value,
                         Rule(schema[field].paramType.value, schema[field].required, schema[field].default, schema[field].choices));
      Admitted(schema, co, alias, field, value) == if v.1 == Pass then Ok(v.0) else Err(v.1.error)
  {
  }

  /** What is stored carries the key `field__alias`, the field and the variant of the alias. */
  lemma AdmittedKey(schema: Schema, co: Coercion, alias: string, field: string, value: Value)
    requires Admitted(schema, co, alias, field, value).Ok?
    ensures KindOf(alias).Some?
    ensures Admitted(schema, co, alias, field, value).value.key == field + "__" + alias
    ensures Admitted(schema, co, alias, field, value).value.field == field
    ensures Admitted(schema, co, alias, field, value).value.kind == KindOf(alias).value
  {
    MakeKey(alias, field, value);
    var st := Make(alias, field, value).value;
    if field in schema && schema[field].paramType.Some? {
      var rule := RuleOf(schema[field]);
      if st.kind.In? {
        ElementsFromFrame(co, st, 0, rule);
      } else {
        ValidatedSingle(co, st, rule);
      }
    }
  }

  // ---------------------------------------------------------------------
  // The condition array, keyed by field__alias
  // ---------------------------------------------------------------------

  predicate DistinctKeys(sts: seq<CondState>)
  {
    forall i, j :: 0 <= i < j < |sts| ==> sts[i].key != sts[j].key
  }

  function KeySet(sts: seq<CondState>): set<string>
  {
    set i | 0 <= i < |sts| :: sts[i].key
  }

  /** The filter's invariant is that of a PHP array: one condition per key. */
  lemma ValidIsDistinctKeys(f: LhsFilter)
    ensures f.Valid() <==> DistinctKeys(f.States())
  {
  }

  /**
   * Storing under a key that is new appends; storing under a key already
   * present replaces that entry in its position. The keys stay distinct
   * and every other entry is kept.
   */
  lemma UpsertReplacesInPlace(sts: seq<CondState>, st: CondState)
    requires DistinctKeys(sts)
    ensures DistinctKeys(Upsert(sts, st))
    ensures KeySet(Upsert(sts, st)) == KeySet(sts) + {st.key}
    ensures st.key !in KeySet(sts) ==> Upsert(sts, st) == sts + [st]
    ensures st.key in KeySet(sts) ==>
      |Upsert(sts, st)| == |sts| && exists i :: 0 <= i < |sts| && sts[i].key == st.key && Upsert(sts, st) == sts[i := st]
    ensures forall j :: 0 <= j < |sts| && sts[j].key != st.key ==> Upsert(sts, st)[j] == sts[j]
  {
    var i := KeyIndex(sts, st.key);
    var r := Upsert(sts, st);
    if i < 0 {
      assert KeySet(r) == KeySet(sts) + {st.key} by {
        forall k | k in KeySet(r) ensures k in KeySet(sts) + {st.key} {
          var j :| 0 <= j < |r| && r[j].key == k;
          if j < |sts| { assert sts[j].key == k; }
        }
        forall k | k in KeySet(sts) ensures k in KeySet(r) {
          var j :| 0 <= j < |sts| && sts[j].key == k;
          assert r[j].key == k;
        }
        assert r[|sts|].key == st.key;
      }
    } else {
      assert KeySet(r) == KeySet(sts) by {
        forall k | k in KeySet(r) ensures k in KeySet(sts) {
          var j :| 0 <= j < |r| && r[j].key == k;
          assert sts[j].key == k;
        }
        forall k | k in KeySet(sts) ensures k in KeySet(r) {
          var j :| 0 <= j < |sts| && sts[j].key == k;
          assert r[j].key == k;
        }
      }
    }
  }

  /** `set_condition` keeps the keys distinct; when it throws, nothing was stored. */
  lemma SetConditionEffect(schema: Schema, co: Coercion, sts: seq<CondState>, alias: string, field: string, value: Value)
    requires DistinctKeys(sts)
    ensures DistinctKeys(SetConditionSpec(schema, co, sts, alias, field, value).0)
    ensures SetConditionSpec(schema, co, sts, alias, field, value).1.Fail? ==>
      SetConditionSpec(schema, co, sts, alias, field, value).0 == sts
    ensures FieldAccepted(schema, field) && Admitted(schema, co, alias, field, value).Ok? ==>
      SetConditionSpec(schema, co, sts, alias, field, value).1 == Pass
      && (field + "__" + alias) in KeySet(SetConditionSpec(schema, co, sts, alias, field, value).0)
  {
    if FieldAccepted(schema, field) && Admitted(schema, co, alias, field, value).Ok? {
      AdmittedKey(schema, co, alias, field, value);
      UpsertReplacesInPlace(sts, Admitted(schema, co, alias, field, value).value);
    }
  }

  // ---------------------------------------------------------------------
  // The constructor
  // ---------------------------------------------------------------------

  lemma {:induction false} ApplyOpsDistinct(schema: Schema, co: Coercion, sts: seq<CondState>, field: string, ops: seq<(string, Value)>)
    requires DistinctKeys(sts)
    ensures DistinctKeys(ApplyOps(schema, co, sts, field, ops).0)
    decreases |ops|
  {
    if ops != [] {
      SetConditionEffect(schema, co, sts, ops[0].0, field, ops[0].1);
      var s := SetConditionSpec(schema, co, sts, ops[0].0, field, ops[0].1);
      if s.1 == Pass {
        ApplyOpsDistinct(schema, co, s.0, field, ops[1..]);
      }
    }
  }

  /** Whatever the query parameters, the stored conditions have distinct keys. */
  lemma {:induction false} ApplyAllDistinct(schema: Schema, co: Coercion, sts: seq<CondState>, queryParams: seq<(string, Value)>)
    requires DistinctKeys(sts)
    ensures DistinctKeys(ApplyAll(schema, co, sts, queryParams).0)
    decreases |queryParams|
  {
    if queryParams != [] {
      var field, values := queryParams[0].0, queryParams[0].1;
      if values.Arr? {
        ApplyOpsDistinct(schema, co, sts, field, values.entries);
      } else {
        SetConditionEffect(schema, co, sts, DefaultOperator, field, values);
      }
      var s := ApplyField(schema, co, sts, field, values);
      if s.1 == Pass {
        ApplyAllDistinct(schema, co, s.0, queryParams[1..]);
      }
    }
  }

  /** The parameters are applied in order: a prefix runs first, then the rest on its result, unless it threw. */
  lemma {:induction false} ApplyAllAppend(schema: Schema, co: Coercion, sts: seq<CondState>, front: seq<(string, Value)>, back: seq<(string, Value)>)
    ensures ApplyAll(schema, co, sts, front + back) ==
      var s := ApplyAll(schema, co, sts, front);
      if s.1.Fail? then s else ApplyAll(schema, co, s.0, back)
    decreases |front|
  {
    if front == [] {
      assert front + back == back;
    } else {
      assert (front + back)[0] == front[0];
      assert (front + back)[1..] == front[1..] + back;
      var s := ApplyField(schema, co, sts, front[0].0, front[0].1);
      if s.1 == Pass {
        ApplyAllAppend(schema, co, s.0, front[1..], back);
      }
    }
  }

  /** A scalar value is an `eq` condition; a map of values is one condition per operator, in order. */
  lemma ScalarIsEq(schema: Schema, co: Coercion, sts: seq<CondState>, field: string, value: Value)
    ensures !value.Arr? ==>
      ApplyAll(schema, co, sts, [(field, value)]) == SetConditionSpec(schema, co, sts, "eq", field, value)
    ensures value.Arr? ==>
      ApplyAll(schema, co, sts, [(field, value)]) == ApplyOps(schema, co, sts, field, value.entries)
  {
    var s := ApplyField(schema, co, sts, field, value);
    assert [(field, value)][1..] == [];
    if s.1 == Pass {
      assert ApplyAll(schema, co, s.0, []) == (s.0, Pass);
    }
  }

  /** Two operators on one field: the second is applied to what the first stored. */
  lemma {:induction false} TwoOperators(schema: Schema, co: Coercion, sts: seq<CondState>, field: string, a: (string, Value), b: (string, Value))
    ensures ApplyOps(schema, co, sts, field, [a, b]) ==
      var s := SetConditionSpec(schema, co, sts, a.0, field, a.1);
      if s.1.Fail? then s else SetConditionSpec(schema, co, s.0, b.0, field, b.1)
  {
    assert [a, b][1..] == [b];
    assert [b][1..] == [];
    var s := SetConditionSpec(schema, co, sts, a.0, field, a.1);
    if s.1 == Pass {
      var t := SetConditionSpec(schema, co, s.0, b.0, field, b.1);
      assert ApplyOps(schema, co, s.0, field, [b]) == (if t.1.Fail? then t else ApplyOps(schema, co, t.0, field, []));
    }
  }

  // ---------------------------------------------------------------------
  // get_conditions, get_parameters, has_conditions
  // ---------------------------------------------------------------------

  /** The conditions' own renderings, in order (empty where a condition failed). */
  function Texts(sts: seq<CondState>, db: Db, table: string): (r: seq<string>)
    ensures |r| == |sts|
    ensures forall k :: 0 <= k < |sts| && Render(sts[k], db, table).0.Ok? ==> r[k] == Render(sts[k], db, table).0.value
    decreases |sts|
  {
    if sts == [] then []
    else
      var t := Render(sts[0], db, table).0;
      [if t.Ok? then t.value else ""] + Texts(sts[1..], db, table)
  }

  predicate AllRender(sts: seq<CondState>, db: Db, table: string)
  {
    forall k :: 0 <= k < |sts| ==> Render(sts[k], db, table).0.Ok?
  }

  /** Every condition from index i on renders. */
  predicate AllRenderFrom(sts: seq<CondState>, i: nat, db: Db, table: string)
  {
    forall k :: i <= k < |sts| ==> Render(sts[k], db, table).0.Ok?
  }

  /** r has the length of sts and the same conditions before index i. */
  predicate RenderFrame(r: seq<CondState>, sts: seq<CondState>, i: nat)
  {
    |r| == |sts| && forall k :: 0 <= k < i && k < |sts| ==> r[k] == sts[k]
  }

  lemma {:induction false} RenderFromFrame(sts: seq<CondState>, i: nat, texts: seq<string>, db: Db, table: string)
    requires i <= |sts|
    ensures RenderFrame(RenderFrom(sts, i, texts, db, table).1, sts, i)
    decreases |sts| - i
  {
    if i < |sts| {
      var r := Render(sts[i], db, table);
      if r.0.Ok? {
        var next := sts[i := r.1];
        RenderFromFrame(next, i + 1, texts + [r.0.value], db, table);
        assert forall k :: 0 <= k < i ==> next[k] == sts[k];
      }
    }
  }

  lemma {:induction false} RenderFromOkIff(sts: seq<CondState>, i: nat, texts: seq<string>, db: Db, table: string)
    requires i <= |sts|
    ensures RenderFrom(sts, i, texts, db, table).0.Ok? <==> AllRenderFrom(sts, i, db, table)
    decreases |sts| - i
  {
    if i < |sts| {
      var r := Render(sts[i], db, table);
      if r.0.Ok? {
        var next := sts[i := r.1];
        RenderFromOkIff(next, i + 1, texts + [r.0.value], db, table);
        assert forall k :: i < k < |sts| ==> next[k] == sts[k];
      }
    }
  }

  lemma TextsAt(sts: seq<CondState>, i: nat, db: Db, table: string)
    requires i < |sts| && Render(sts[i], db, table).0.Ok?
    ensures Texts(sts[i..], db, table) == [Render(sts[i], db, table).0.value] + Texts(sts[i + 1..], db, table)
  {
    assert sts[i..][1..] == sts[i + 1..];
  }

  lemma {:induction false} RenderFromTexts(sts: seq<CondState>, i: nat, texts: seq<string>, db: Db, table: string)
    requires i <= |sts|
    requires RenderFrom(sts, i, texts, db, table).0.Ok?
    ensures RenderFrom(sts, i, texts, db, table).0.value == texts + Texts(sts[i..], db, table)
    decreases |sts| - i
  {
    if i < |sts| {
      var r := Render(sts[i], db, table);
      var next := sts[i := r.1];
      RenderFromTexts(next, i + 1, texts + [r.0.value], db, table);
      assert next[i + 1..] == sts[i + 1..];
      TextsAt(sts, i, db, table);
    } else {
      assert sts[i..] == [];
    }
  }

  lemma {:induction false} RenderFromStates(sts: seq<CondState>, i: nat, texts: seq<string>, db: Db, table: string)
    requires i <= |sts|
    requires RenderFrom(sts, i, texts, db, table).0.Ok?
    ensures |RenderFrom(sts, i, texts, db, table).1| == |sts|
    ensures forall k :: i <= k < |sts| ==> RenderFrom(sts, i, texts, db, table).1[k] == Render(sts[k], db, table).1
    decreases |sts| - i
  {
    RenderFromFrame(sts, i, texts, db, table);
    if i < |sts| {
      var r := Render(sts[i], db, table);
      var next := sts[i := r.1];
      var rest := RenderFrom(next, i + 1, texts + [r.0.value], db, table);
      RenderFromStates(next, i + 1, texts + [r.0.value], db, table);
      RenderFromFrame(next, i + 1, texts + [r.0.value], db, table);
      assert rest.1[i] == r.1;
      assert forall k :: i < k < |sts| ==> next[k] == sts[k];
    }
  }


  /**
   * `get_conditions($table)` is the conditions' `to_sql($table)` joined with
   * " AND ", in insertion order, and leaves each condition memoised; one
   * condition that cannot render fails the call.
   */
  lemma RenderedConditionsJoin(sts: seq<CondState>, db: Db, table: string)
    ensures RenderedConditions(sts, db, table).0.Ok? <==> AllRender(sts, db, table)
    ensures AllRender(sts, db, table) ==>
      RenderedConditions(sts, db, table).0 == Ok(Join(Texts(sts, db, table), " AND "))
      && |RenderedConditions(sts, db, table).1| == |sts|
      && forall k :: 0 <= k < |sts| ==> RenderedConditions(sts, db, table).1[k] == Render(sts[k], db, table).1
  {
    RenderFromFrame(sts, 0, [], db, table);
    RenderFromOkIff(sts, 0, [], db, table);
    if AllRender(sts, db, table) {
      RenderFromTexts(sts, 0, [], db, table);
      RenderFromStates(sts, 0, [], db, table);
    }
    assert sts[0..] == sts;
    assert [] + Texts(sts, db, table) == Texts(sts, db, table);
  }

  predicate AllScalar(sts: seq<CondState>)
  {
    forall k :: 0 <= k < |sts| ==> !sts[k].kind.In?
  }

  function KeysFrom(sts: seq<CondState>, i: nat): set<string>
  {
    set k | i <= k < |sts| :: sts[k].key
  }

  lemma {:induction false} AppendFromScalar(sts: seq<CondState>, i: nat, params: Params)
    requires i <= |sts| && AllScalar(sts) && DistinctKeys(sts)
    ensures AppendFrom(sts, i, params).Keys == params.Keys + KeysFrom(sts, i)
    ensures forall k :: i <= k < |sts| ==> AppendFrom(sts, i, params)[sts[k].key] == sts[k].value
    ensures forall key :: key in params && key !in KeysFrom(sts, i) ==> AppendFrom(sts, i, params)[key] == params[key]
    decreases |sts| - i
  {
    if i < |sts| {
      var next := Appended(sts[i], params);
      assert next == params[sts[i].key := sts[i].value];
      AppendFromScalar(sts, i + 1, next);
      assert KeysFrom(sts, i) == KeysFrom(sts, i + 1) + {sts[i].key};
      assert sts[i].key !in KeysFrom(sts, i + 1);
    }
  }

  /** For conditions with one parameter each, `get_parameters()` maps every key to its condition's value. */
  lemma ParametersOfScalars(sts: seq<CondState>)
    requires AllScalar(sts) && DistinctKeys(sts)
    ensures Parameters(sts).Keys == KeySet(sts)
    ensures forall k :: 0 <= k < |sts| ==> Parameters(sts)[sts[k].key] == sts[k].value
  {
    AppendFromScalar(sts, 0, map[]);
    assert KeysFrom(sts, 0) == KeySet(sts);
  }

  /** A filter built from no parameters has no conditions, renders "" and has no parameters. */
  lemma EmptyFilter(schema: Schema, co: Coercion, db: Db, table: string)
    ensures ApplyAll(schema, co, [], []) == ([], Pass)
    ensures RenderedConditions([], db, table) == (Ok(""), [])
    ensures Parameters([]) == map[]
  {
  }

  // ---------------------------------------------------------------------
  // The test filter: age (int, required, gt/eq) and status (text, draft/published, eq)
  // ---------------------------------------------------------------------

  function TestDecls(): seq<(string, FieldDecl)>
  {
    [("age", FieldDecl(Some("int"), Some(true), Null, None, ["gt", "eq"])),
     ("status", FieldDecl(Some("text"), None, Null, Some([Str("draft"), Str("published")]), ["eq"]))]
  }

  const AgeDef := FieldDef(Some("int"), true, Null, [], ["gt", "eq"])
  const StatusDef := FieldDef(Some("text"), false, Null, [Str("draft"), Str("published")], ["eq"])
  const TestSchema: Schema := map["age" := AgeDef, "status" := StatusDef]

  lemma TestSchemaResolved()
    ensures ResolveAll(TestDecls()) == TestSchema
  {
    var decls := TestDecls();
    assert decls[..1][..0] == [];
    assert ResolveAll(decls[..1]) == map["age" := AgeDef];
    assert decls[..|decls| - 1] == decls[..1];
  }

  /** `['age' => ['gt' => 30]]`, with a coercion that keeps 30: `u.age > :age__gt` and `age__gt => 30`. */
  lemma AgeGtStored(co: Coercion)
    requires co.validate(Int(30), "int", false) == Some(Int(30))
    ensures ApplyAll(TestSchema, co, [], [("age", Arr([("gt", Int(30))]))])
      == ([CondState(Gt, "age__gt", "age", Int(30), None, [])], Pass)
  {
    assert KindOf("gt") == Some(Gt);
    assert "age" + "__" + "gt" == "age__gt";
    var st := CondState(Gt, "age__gt", "age", Int(30), None, []);
    assert Make("gt", "age", Int(30)) == Ok(st);
    assert Validated(co, st, RuleOf(AgeDef)) == (st, Pass);
    assert Admitted(TestSchema, co, "gt", "age", Int(30)) == Ok(st);
    assert FieldAccepted(TestSchema, "age") && Upsert([], st) == [st];
    TwoStepApply(TestSchema, co, "age", [("gt", Int(30))]);
  }

  /** One field with its operators, on an empty filter. */
  lemma TwoStepApply(schema: Schema, co: Coercion, field: string, ops: seq<(string, Value)>)
    requires |ops| == 1
    ensures ApplyAll(schema, co, [], [(field, Arr(ops))]) == SetConditionSpec(schema, co, [], ops[0].0, field, ops[0].1)
  {
    ScalarIsEq(schema, co, [], field, Arr(ops));
    assert ops[1..] == [];
    var s := SetConditionSpec(schema, co, [], ops[0].0, field, ops[0].1);
    if s.1 == Pass {
      assert ApplyOps(schema, co, s.0, field, []) == (s.0, Pass);
    }
  }

  lemma AgeGtRenderedAlone(db: Db)
    ensures Render(CondState(Gt, "age__gt", "age", Int(30), None, []), db, "u").0 == Ok("u.age > :age__gt")
  {
    var st := CondState(Gt, "age__gt", "age", Int(30), None, []);
    assert Body(st, db) == Ok("age" + " " + ">" + " :" + "age__gt");
    assert "age" + " " + ">" + " :" + "age__gt" == "age > :age__gt";
    assert "u" + "." + "age > :age__gt" == "u.age > :age__gt";
  }

  lemma AgeGtRendered(db: Db)
    ensures RenderedConditions([CondState(Gt, "age__gt", "age", Int(30), None, [])], db, "u").0 == Ok("u.age > :age__gt")
    ensures Parameters([CondState(Gt, "age__gt", "age", Int(30), None, [])]) == map["age__gt" := Int(30)]
  {
    var st := CondState(Gt, "age__gt", "age", Int(30), None, []);
    AgeGtRenderedAlone(db);
    RenderedConditionsJoin([st], db, "u");
    assert Texts([st], db, "u") == ["u.age > :age__gt"];
    ParametersOfScalars([st]);
  }

  /** `['status' => ['eq' => 'draft']]` under a coercion that keeps 'draft': `t.status = :status__eq`, `status__eq => 'draft'`. */
  lemma StatusEqStored(co: Coercion)
    requires co.looseEquals(Str("draft"), Str("draft"))
    requires co.validate(Str("draft"), "text", true) == Some(Str("draft"))
    ensures ApplyAll(TestSchema, co, [], [("status", Arr([("eq", Str("draft"))]))])
      == ([CondState(Eq, "status__eq", "status", Str("draft"), None, [])], Pass)
  {
    assert KindOf("eq") == Some(Eq);
    assert "status" + "__" + "eq" == "status__eq";
    var st := CondState(Eq, "status__eq", "status", Str("draft"), None, []);
    assert Make("eq", "status", Str("draft")) == Ok(st);
    assert LooseIn(co, Str("draft"), StatusDef.choices) by {
      assert co.looseEquals(Str("draft"), StatusDef.choices[0]);
    }
    assert Validated(co, st, RuleOf(StatusDef)) == (st, Pass);
    assert Admitted(TestSchema, co, "eq", "status", Str("draft")) == Ok(st);
    assert FieldAccepted(TestSchema, "status") && Upsert([], st) == [st];
    TwoStepApply(TestSchema, co, "status", [("eq", Str("draft"))]);
  }

  lemma StatusEqRenderedAlone(db: Db)
    ensures Render(CondState(Eq, "status__eq", "status", Str("draft"), None, []), db, "t").0 == Ok("t.status = :status__eq")
  {
    var st := CondState(Eq, "status__eq", "status", Str("draft"), None, []);
    assert Body(st, db) == Ok("status" + " " + "=" + " :" + "status__eq");
    assert "status" + " " + "=" + " :" + "status__eq" == "status = :status__eq";
    assert "t" + "." + "status = :status__eq" == "t.status = :status__eq";
  }

  lemma StatusEqRendered(db: Db)
    ensures RenderedConditions([CondState(Eq, "status__eq", "status", Str("draft"), None, [])], db, "t").0 == Ok("t.status = :status__eq")
    ensures Parameters([CondState(Eq, "status__eq", "status", Str("draft"), None, [])]) == map["status__eq" := Str("draft")]
  {
    var st := CondState(Eq, "status__eq", "status", Str("draft"), None, []);
    StatusEqRenderedAlone(db);
    RenderedConditionsJoin([st], db, "t");
    assert Texts([st], db, "t") == ["t.status = :status__eq"];
    ParametersOfScalars([st]);
  }

  /** `['age' => null]`: the required field without a default is missing. */
  lemma AgeNullMissing(co: Coercion)
    ensures ApplyAll(TestSchema, co, [], [("age", Null)]).1 == Fail(Failure(MissingRequired, FieldOnly("age")))
  {
    assert KindOf("eq") == Some(Eq);
    var st := CondState(Eq, "age" + "__" + "eq", "age", Null, None, []);
    assert Make("eq", "age", Null) == Ok(st);
    assert Validated(co, st, RuleOf(AgeDef)).1 == Fail(Failure(MissingRequired, FieldOnly("age")));
    ScalarIsEq(TestSchema, co, [], "age", Null);
  }

  /** `['status' => ['eq' => 'archived']]`: not one of the choices. */
  lemma StatusArchivedInvalid(co: Coercion)
    requires !co.looseEquals(Str("archived"), Str("draft")) && !co.looseEquals(Str("archived"), Str("published"))
    ensures ApplyAll(TestSchema, co, [], [("status", Arr([("eq", Str("archived"))]))]).1
      == Fail(Failure(InvalidChoice, FieldChoices("status", "draft, published")))
  {
    StatusArchivedRejected(co);
    TwoStepApply(TestSchema, co, "status", [("eq", Str("archived"))]);
  }

  lemma StatusArchivedRejected(co: Coercion)
    requires !co.looseEquals(Str("archived"), Str("draft")) && !co.looseEquals(Str("archived"), Str("published"))
    ensures Admitted(TestSchema, co, "eq", "status", Str("archived"))
      == Err(Failure(InvalidChoice, FieldChoices("status", "draft, published")))
  {
    assert KindOf("eq") == Some(Eq);
    var st := CondState(Eq, "status" + "__" + "eq", "status", Str("archived"), None, []);
    assert Make("eq", "status", Str("archived")) == Ok(st);
    assert !LooseIn(co, Str("archived"), StatusDef.choices);
    StatusChoicesText();
    assert Validated(co, st, RuleOf(StatusDef)).1 == Fail(Failure(InvalidChoice, FieldChoices("status", "draft, published")));
  }

  lemma StatusChoicesText()
    ensures Implode(", ", StatusDef.choices) == "draft, published"
  {
    assert StrVals([Str("draft"), Str("published")]) == ["draft", "published"];
    assert Join(["draft", "published"], ", ") == "draft, published";
  }


  /** `['status' => ['gt' => 'draft']]`: gt is a known operator but not one of status's. */
  lemma StatusGtForbidden(co: Coercion)
    ensures ApplyAll(TestSchema, co, [], [("status", Arr([("gt", Str("draft"))]))]).1
      == Fail(Failure(ForbiddenOperator, Filter(FilterContext("status", "gt", "eq"))))
  {
    assert KindOf("gt") == Some(Gt);
    assert Make("gt", "status", Str("draft")).Ok?;
    assert Join(["eq"], ",") == "eq";
    TwoStepApply(TestSchema, co, "status", [("gt", Str("draft"))]);
  }

  /** `['status' => ['invalid' => 'abc']]`: no condition has that alias. */
  lemma StatusInvalidOperator(co: Coercion)
    ensures ApplyAll(TestSchema, co, [], [("status", Arr([("invalid", Str("abc"))]))]).1
      == Fail(Failure(InvalidOperator, Filter(FilterContext("status", "invalid", ""))))
  {
    assert KindOf("invalid") == None;
    TwoStepApply(TestSchema, co, "status", [("invalid", Str("abc"))]);
  }

  /** `['age' => 99]`: a flat value is an `eq` condition, `age = :age__eq` with `age__eq => 99`. */
  lemma AgeFlatStored(co: Coercion)
    requires co.validate(Int(99), "int", false) == Some(Int(99))
    ensures ApplyAll(TestSchema, co, [], [("age", Int(99))])
      == ([CondState(Eq, "age__eq", "age", Int(99), None, [])], Pass)
  {
    assert KindOf("eq") == Some(Eq);
    assert "age" + "__" + "eq" == "age__eq";
    var st := CondState(Eq, "age__eq", "age", Int(99), None, []);
    assert Make("eq", "age", Int(99)) == Ok(st);
    assert Validated(co, st, RuleOf(AgeDef)) == (st, Pass);
    assert Admitted(TestSchema, co, "eq", "age", Int(99)) == Ok(st);
    assert FieldAccepted(TestSchema, "age") && Upsert([], st) == [st];
    ScalarIsEq(TestSchema, co, [], "age", Int(99));
  }

  lemma AgeFlatRendered(db: Db)
    ensures RenderedConditions([CondState(Eq, "age__eq", "age", Int(99), None, [])], db, "").0 == Ok("age = :age__eq")
    ensures Parameters([CondState(Eq, "age__eq", "age", Int(99), None, [])]) == map["age__eq" := Int(99)]
  {
    var st := CondState(Eq, "age__eq", "age", Int(99), None, []);
    assert Render(st, db, "").0 == Ok("age = :age__eq") by {
      assert Body(st, db) == Ok("age" + " " + "=" + " :" + "age__eq");
      assert "age" + " " + "=" + " :" + "age__eq" == "age = :age__eq";
    }
    RenderedConditionsJoin([st], db, "");
    assert Texts([st], db, "") == ["age = :age__eq"];
    ParametersOfScalars([st]);
  }
}
