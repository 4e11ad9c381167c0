/**
 * What the condition classes promise: keys, rendering and its memo,
 * parameter maps, the LIKE/NOT LIKE and IN constructors, and the order of
 * the validation steps.
 */
module ConditionProperties {
  import opened Wrappers
  import opened Strings
  import opened Php
  import opened Database
  import opened Errors
  import opened Wildcards
  import opened Conditions

  // ---------------------------------------------------------------------
  // Keys, rendering, memo
  // ---------------------------------------------------------------------

  /**
   * A comparison variant keeps the value it was given, is keyed
   * `field__alias`, renders `field OP :key` under the table prefix and
   * contributes exactly that key to the parameters.
   */
  lemma ComparisonCondition(kind: Kind, field: string, value: Value, db: Db, table: string, params: Params)
    requires IsComparison(kind)
    ensures Construct(kind, field, value) == Ok(CondState(kind, field + "__" + Alias(kind), field, value, None, []))
    ensures Render(Construct(kind, field, value).value, db, table).0
      == Ok(Prefix(table, field + " " + Operator(kind) + " :" + (field + "__" + Alias(kind))))
    ensures Appended(Construct(kind, field, value).value, params) == params[field + "__" + Alias(kind) := value]
  {
  }

  /** The table prefix is applied on every call, in front of the same unprefixed SQL. */
  lemma RenderWithTable(st: CondState, db: Db, table: string)
    requires !IsFalsy(table)
    requires Render(st, db, "").0.Ok?
    ensures Render(st, db, table).0 == Ok(table + "." + Render(st, db, "").0.value)
    ensures Render(st, db, table).1 == Render(st, db, "").1
  {
  }

  /**
   * Once rendered, a condition renders the same unprefixed SQL forever:
   * a later `set_field`, another database or another table changes only
   * the prefix.
   */
  lemma MemoSurvivesSetField(st: CondState, db: Db, db2: Db, t1: string, t2: string, f: string)
    requires Render(st, db, t1).0.Ok?
    ensures Render(Render(st, db, t1).1.(field := f), db2, t2)
      == (Render(st, db, t2).0, Render(st, db, t1).1.(field := f))
  {
  }

  /** Before the first render, `set_field` changes the rendered field but never the key. */
  lemma SetFieldKeepsKey(kind: Kind, field: string, value: Value, f: string, db: Db, table: string)
    requires IsComparison(kind)
    ensures Construct(kind, field, value).value.(field := f).key == KeyOf(field, kind)
    ensures Render(Construct(kind, field, value).value.(field := f), db, table).0
      == Ok(Prefix(table, f + " " + Operator(kind) + " :" + (field + "__" + Alias(kind))))
  {
  }

  /** `append_param` of a single-valued variant touches its own key only. */
  lemma AppendKeepsOthers(st: CondState, params: Params, k: string)
    requires !st.kind.In? && k != st.key
    ensures st.key in Appended(st, params) && Appended(st, params)[st.key] == st.value
    ensures k in Appended(st, params) <==> k in params
    ensures k in params ==> Appended(st, params)[k] == params[k]
  {
  }

  /** The null tests ignore their argument and render without a placeholder. */
  lemma NullTestCondition(kind: Kind, field: string, value: Value, db: Db, table: string, params: Params)
    requires IsNullTest(kind)
    ensures Construct(kind, field, value) == Ok(CondState(kind, field + "__" + Alias(kind), field, Null, None, []))
    ensures Render(Construct(kind, field, value).value, db, table).0 == Ok(Prefix(table, field + " " + Operator(kind)))
    ensures Appended(Construct(kind, field, value).value, params) == params[field + "__" + Alias(kind) := Null]
  {
  }

  // ---------------------------------------------------------------------
  // IN: constructor, render, parameters
  // ---------------------------------------------------------------------

  /** Only strings and arrays make an IN condition; anything else is an invalid value for (field, "in"). */
  lemma InRejectsScalars(field: string, value: Value)
    ensures Construct(In, field, value).Err? <==> !(value.Str? || value.Arr?)
    ensures Construct(In, field, value).Err? ==>
      Construct(In, field, value).error == Failure(InvalidValue, Filter(FilterContext(field, "in", "")))
  {
  }

  /** A list is stored as its comma join and kept, entries and keys, as the element list. */
  lemma InFromList(field: string, entries: seq<(string, Value)>)
    ensures Construct(In, field, Arr(entries))
      == Ok(CondState(In, field + "__in", field, Str(Implode(",", ValuesOf(entries))), None, entries))
  {
    assert field + "__" + "in" == field + "__in";
  }

  /**
   * A string is stored verbatim, and when it is a comma join of pieces
   * without commas or surrounding blanks, the element list gives those
   * pieces back, in order.
   */
  lemma {:induction false} InFromString(field: string, items: seq<string>)
    requires |items| >= 1
    requires forall i :: 0 <= i < |items| ==> ',' !in items[i]
    requires forall i :: 0 <= i < |items| && items[i] != [] ==>
      !IsTrimmed(items[i][0]) && !IsTrimmed(items[i][|items[i]| - 1])
    ensures Construct(In, field, Str(Join(items, ","))).Ok?
    ensures Construct(In, field, Str(Join(items, ","))).value.value == Str(Join(items, ","))
    ensures ValuesOf(Construct(In, field, Str(Join(items, ","))).value.elements)
      == seq(|items|, i requires 0 <= i < |items| => Str(items[i]))
  {
    var s := Join(items, ",");
    var pieces := StringPieces(items);
    ValuesOfListOf(pieces);
    assert Construct(In, field, Str(s)) == Ok(Fresh(In, field, Str(s), ListOf(pieces)));
  }

  /** The trimmed comma split of a join gives the pieces back. */
  lemma StringPieces(items: seq<string>) returns (pieces: seq<Value>)
    requires |items| >= 1
    requires forall i :: 0 <= i < |items| ==> ',' !in items[i]
    requires forall i :: 0 <= i < |items| && items[i] != [] ==>
      !IsTrimmed(items[i][0]) && !IsTrimmed(items[i][|items[i]| - 1])
    ensures pieces == TrimmedPieces(Split(Join(items, ","), ','))
    ensures pieces == seq(|items|, i requires 0 <= i < |items| => Str(items[i]))
  {
    SplitJoin(items, ',');
    assert Split(Join(items, [',']), ',') == items;
    pieces := TrimmedPieces(items);
    PiecesAlreadyTrimmed(items);
  }

  lemma PiecesAlreadyTrimmed(items: seq<string>)
    requires forall i :: 0 <= i < |items| && items[i] != [] ==>
      !IsTrimmed(items[i][0]) && !IsTrimmed(items[i][|items[i]| - 1])
    ensures TrimmedPieces(items) == seq(|items|, i requires 0 <= i < |items| => Str(items[i]))
  {
    forall i | 0 <= i < |items|
      ensures TrimmedPieces(items)[i] == Str(items[i])
    {
      TrimOfTrimmed(items[i]);
    }
  }

  function EntryKeys(entries: seq<(string, Value)>): set<string>
  {
    set i | 0 <= i < |entries| :: entries[i].0
  }

  lemma {:induction false} AppendEntriesKeys(params: Params, entries: seq<(string, Value)>)
    ensures AppendEntries(params, entries).Keys == params.Keys + EntryKeys(entries)
    decreases |entries|
  {
    if entries != [] {
      AppendEntriesKeys(params[entries[0].0 := entries[0].1], entries[1..]);
      var rest := EntryKeys(entries[1..]);
      assert EntryKeys(entries) == {entries[0].0} + rest by {
        forall k | k in EntryKeys(entries) ensures k in {entries[0].0} + rest {
          var i :| 0 <= i < |entries| && entries[i].0 == k;
          if i > 0 {
            assert entries[1..][i - 1] == entries[i];
          }
        }
        forall k | k in rest ensures k in EntryKeys(entries) {
          var i :| 0 <= i < |entries[1..]| && entries[1..][i].0 == k;
          assert entries[i + 1].0 == k;
        }
      }
    }
  }

  /** The last write to a key wins; keys written once keep their entry's value. */
  lemma {:induction false} AppendEntriesValue(params: Params, entries: seq<(string, Value)>, i: nat)
    requires i < |entries|
    requires forall j :: i < j < |entries| ==> entries[j].0 != entries[i].0
    ensures entries[i].0 in AppendEntries(params, entries)
    ensures AppendEntries(params, entries)[entries[i].0] == entries[i].1
    decreases |entries|
  {
    var next := params[entries[0].0 := entries[0].1];
    if i == 0 {
      AppendEntriesOutside(next, entries[1..], entries[0].0);
    } else {
      assert entries[1..][i - 1] == entries[i];
      AppendEntriesValue(next, entries[1..], i - 1);
    }
  }

  /** Keys no entry writes keep their value. */
  lemma {:induction false} AppendEntriesOutside(params: Params, entries: seq<(string, Value)>, k: string)
    requires k in params
    requires forall j :: 0 <= j < |entries| ==> entries[j].0 != k
    ensures k in AppendEntries(params, entries) && AppendEntries(params, entries)[k] == params[k]
    decreases |entries|
  {
    if entries != [] {
      AppendEntriesOutside(params[entries[0].0 := entries[0].1], entries[1..], k);
    }
  }

  /** An IN condition with no elements cannot be rendered. */
  lemma InEmptyFails(st: CondState, db: Db, table: string)
    requires st.kind.In? && st.sql.None? && st.elements == []
    ensures Render(st, db, table) == (Err(Failure(Configuration, NoContext)), st)
  {
  }

  /**
   * The first render of an IN condition asks the database for a fragment
   * over the names key1..keyN, and afterwards `append_param` writes the
   * i-th element under key(i+1), adding no other key.
   */
  lemma InRenderParams(st: CondState, db: Db, table: string, params: Params)
    requires st.kind.In? && st.sql.None? && st.elements != []
    ensures Render(st, db, table).0
      == Ok(Prefix(table, st.field + " " + db.inOrEqual(InKeys(st.key, |st.elements|))))
    ensures Appended(Render(st, db, table).1, params).Keys
      == params.Keys + set i | 0 <= i < |st.elements| :: InKeys(st.key, |st.elements|)[i]
    ensures forall i :: 0 <= i < |st.elements| ==>
      InKeys(st.key, |st.elements|)[i] in Appended(Render(st, db, table).1, params)
      && Appended(Render(st, db, table).1, params)[InKeys(st.key, |st.elements|)[i]] == st.elements[i].1
  {
    var after := Render(st, db, table).1;
    assert after.kind.In? && after.elements == Numbered(st.key, st.elements);
    NumberedParams(params, st.key, st.elements);
  }

  /** The numbered entries of an IN condition add one parameter per element, under its own key. */
  lemma NumberedParams(params: Params, prefix: string, elements: seq<(string, Value)>)
    ensures AppendEntries(params, Numbered(prefix, elements)).Keys
      == params.Keys + set i | 0 <= i < |elements| :: InKeys(prefix, |elements|)[i]
    ensures forall i :: 0 <= i < |elements| ==>
      InKeys(prefix, |elements|)[i] in AppendEntries(params, Numbered(prefix, elements))
      && AppendEntries(params, Numbered(prefix, elements))[InKeys(prefix, |elements|)[i]] == elements[i].1
  {
    var n := |elements|;
    var keys := InKeys(prefix, n);
    var numbered := Numbered(prefix, elements);
    AppendEntriesKeys(params, numbered);
    assert EntryKeys(numbered) == set i | 0 <= i < n :: keys[i];
    forall i | 0 <= i < n
      ensures keys[i] in AppendEntries(params, numbered)
      ensures AppendEntries(params, numbered)[keys[i]] == elements[i].1
    {
      forall j | i < j < n ensures numbered[j].0 != numbered[i].0 {
        InKeysDistinct(prefix, n, i, j);
      }
      AppendEntriesValue(params, numbered, i);
    }
  }

  // ---------------------------------------------------------------------
  // LIKE / NOT LIKE
  // ---------------------------------------------------------------------

  /** Whatever a constructor returns has its variant, its field and the key `field__alias`. */
  lemma ConstructIdentity(kind: Kind, field: string, value: Value)
    requires Construct(kind, field, value).Ok?
    ensures Construct(kind, field, value).value.kind == kind
    ensures Construct(kind, field, value).value.key == field + "__" + Alias(kind)
    ensures Construct(kind, field, value).value.field == field
  {
  }

  /**
   * A pattern condition accepts a string exactly when it is not PHP-empty
   * and holds a `*` or a `%`; it then stores the normalised pattern.
   */
  lemma PatternAcceptsIff(kind: Kind, field: string, s: string)
    requires IsPattern(kind)
    ensures Construct(kind, field, Str(s)).Ok? <==> !IsFalsy(s) && ('*' in s || '%' in s)
    ensures Construct(kind, field, Str(s)).Ok? ==>
      Construct(kind, field, Str(s)).value == CondState(kind, field + "__" + Alias(kind), field, Str(EscapeEach(s)), None, [])
    ensures Construct(kind, field, Str(s)).Err? ==>
      Construct(kind, field, Str(s)).error == Failure(InvalidValue, Filter(FilterContext(field, Alias(kind), "")))
  {
    if !IsFalsy(s) {
      NormalizeCharwise(s);
      NormalizePercent(s);
    }
  }

  /** A LIKE or NOT LIKE pattern with neither `*` nor `%` in it is refused as an invalid value. */
  lemma PlainPatternRefused(kind: Kind, field: string, s: string)
    requires IsPattern(kind) && '*' !in s && '%' !in s
    ensures Construct(kind, field, Str(s)) == Err(Failure(InvalidValue, Filter(FilterContext(field, Alias(kind), ""))))
  {
    PatternAcceptsIff(kind, field, s);
  }

  /** Null normalises to null, which holds no `%`; an array is a type error. */
  lemma PatternRejectsNullAndArrays(kind: Kind, field: string, entries: seq<(string, Value)>)
    requires IsPattern(kind)
    ensures Construct(kind, field, Null) == Err(Failure(InvalidValue, Filter(FilterContext(field, Alias(kind), ""))))
    ensures Construct(kind, field, Arr(entries)) == Err(Failure(TypeMismatch, NoContext))
  {
  }

  /** Pattern conditions render through `sql_like`, NOT LIKE with its negation flag set. */
  lemma PatternRender(st: CondState, db: Db, table: string)
    requires IsPattern(st.kind) && st.sql.None?
    ensures Render(st, db, table).0
      == Ok(Prefix(table, db.sqlLike(st.field, ":" + st.key, false, false, st.kind.NotLike?)))
  {
  }

  /** "doe" holds no wildcard and is refused. */
  lemma PatternPlainExample(kind: Kind)
    requires IsPattern(kind)
    ensures Construct(kind, "name", Str("doe")) == Err(Failure(InvalidValue, Filter(FilterContext("name", Alias(kind), ""))))
  {
    PatternAcceptsIff(kind, "name", "doe");
    assert '*' !in "doe" && '%' !in "doe";
  }

  lemma EscapeStarDoeStar()
    ensures EscapeEach("*doe*") == "%doe%"
  {
    EscapeEachCons('*', "doe*");
    EscapeEachCons('d', "oe*");
    EscapeEachCons('o', "e*");
    EscapeEachCons('e', "*");
    EscapeEachCons('*', "");
  }

  /** "*doe*" is accepted and stored as "%doe%". */
  lemma PatternWildcardExample(kind: Kind)
    requires IsPattern(kind)
    ensures Construct(kind, "name", Str("*doe*")).Ok?
    ensures Construct(kind, "name", Str("*doe*")).value.value == Str("%doe%")
  {
    PatternAcceptsIff(kind, "name", "*doe*");
    assert '*' == "*doe*"[0];
    EscapeStarDoeStar();
  }

  lemma EscapeFivePercent()
    ensures EscapeEach("5%") == "5\\%"
  {
    EscapeEachCons('5', "%");
    EscapeEachCons('%', "");
  }

  /** A literal "5%" without any `*` still passes, stored as "5\%". */
  lemma PatternLiteralPercentExample(kind: Kind)
    requires IsPattern(kind)
    ensures Construct(kind, "name", Str("5%")).Ok?
    ensures Construct(kind, "name", Str("5%")).value.value == Str("5\\%")
  {
    PatternAcceptsIff(kind, "name", "5%");
    assert '%' == "5%"[1];
    EscapeFivePercent();
  }

  // ---------------------------------------------------------------------
  // Validation
  // ---------------------------------------------------------------------

  /** The missing-required error is raised exactly for a null, required value without a default. */
  lemma MissingRequiredIff(co: Coercion, field: string, v: Value, rule: Rule)
    ensures (ValidateValue(co, field, v, rule).Err? && ValidateValue(co, field, v, rule).error.kind == MissingRequired)
      <==> v == Null && rule.required && rule.default == Null
    ensures v == Null && rule.required && rule.default == Null ==>
      ValidateValue(co, field, v, rule) == Err(Failure(MissingRequired, FieldOnly(field)))
  {
  }

  /** A null that is required is validated as though the default had been given. */
  lemma RequiredNullTakesDefault(co: Coercion, field: string, rule: Rule)
    requires rule.required && rule.default != Null
    ensures ValidateValue(co, field, Null, rule) == ValidateValue(co, field, rule.default, rule)
  {
  }

  /** A field that is not required never sees its default. */
  lemma DefaultIgnoredUnlessRequired(co: Coercion, field: string, v: Value, rule: Rule, d: Value)
    requires !rule.required
    ensures ValidateValue(co, field, v, rule) == ValidateValue(co, field, v, rule.(default := d))
    ensures Prepared(co, v, rule) == Prepared(co, v, rule.(default := d))
  {
  }

  /** `false` reaches PARAM_BOOL coercion as 0. */
  lemma BoolFalseBecomesZero(co: Coercion, rule: Rule)
    requires rule.paramType == ParamBool
    ensures Prepared(co, Bool(false), rule) == Int(0)
  {
  }

  /**
   * The choice check runs before coercion: a value outside a non-empty
   * choice list is refused whatever the coercion would have done.
   */
  lemma ChoiceBeforeCoercion(co: Coercion, field: string, v: Value, rule: Rule,
                             validate: (Value, string, bool) -> Option<Value>)
    requires !MissingValue(v, rule)
    requires rule.choices != [] && !LooseIn(co, Prepared(co, v, rule), rule.choices)
    ensures ValidateValue(co, field, v, rule) == Err(Failure(InvalidChoice, FieldChoices(field, Implode(", ", rule.choices))))
    ensures ValidateValue(co.(validate := validate), field, v, rule) == ValidateValue(co, field, v, rule)
  {
  }

  /**
   * Validation succeeds exactly when no earlier step refuses the value and
   * the coercion (with null allowed unless required) accepts it; the stored
   * value is then the coerced one.
   */
  lemma ValidateValueSucceedsIff(co: Coercion, field: string, v: Value, rule: Rule)
    ensures ValidateValue(co, field, v, rule).Ok? <==>
      !MissingValue(v, rule)
      && (rule.choices == [] || LooseIn(co, Prepared(co, v, rule), rule.choices))
      && co.validate(Prepared(co, v, rule), rule.paramType, !rule.required).Some?
    ensures ValidateValue(co, field, v, rule).Ok? ==>
      Some(ValidateValue(co, field, v, rule).value) == co.validate(Prepared(co, v, rule), rule.paramType, !rule.required)
    ensures ValidateValue(co, field, v, rule).Err? && ValidateValue(co, field, v, rule).error.kind == Validation <==>
      !MissingValue(v, rule)
      && (rule.choices == [] || LooseIn(co, Prepared(co, v, rule), rule.choices))
      && co.validate(Prepared(co, v, rule), rule.paramType, !rule.required).None?
  {
  }

  /** A single-valued condition changes only its value, and only when validation passes. */
  lemma ValidatedSingle(co: Coercion, st: CondState, rule: Rule)
    requires !st.kind.In?
    ensures Validated(co, st, rule).1.Fail? ==> Validated(co, st, rule).0 == st
    ensures Validated(co, st, rule).1 == Pass <==> ValidateValue(co, st.field, st.value, rule).Ok?
    ensures Validated(co, st, rule).1 == Pass ==>
      Validated(co, st, rule).0 == st.(value := ValidateValue(co, st.field, st.value, rule).value)
  {
  }

  predicate ElementPasses(co: Coercion, field: string, v: Value, rule: Rule)
  {
    ValidateElement(co, field, v, rule).1.None?
  }

  lemma ElementsFromStep(co: Coercion, st: CondState, i: nat, rule: Rule)
    requires i < |st.elements|
    ensures ElementPasses(co, st.field, st.elements[i].1, rule) ==>
      ValidateElementsFrom(co, st, i, rule) == ValidateElementsFrom(co, Advanced(co, st, i, rule), i + 1, rule)
    ensures !ElementPasses(co, st.field, st.elements[i].1, rule) ==>
      ValidateElementsFrom(co, st, i, rule).1.Fail?
      && ValidateElementsFrom(co, st, i, rule).0
        == st.(elements := st.elements[i := (st.elements[i].0, ValidateElement(co, st.field, st.elements[i].1, rule).0)])
  {
  }

  /** r is st with, at most, the values of the elements from index i on changed. */
  predicate FrameFrom(r: CondState, st: CondState, i: nat)
  {
    r.kind == st.kind && r.key == st.key && r.field == st.field && r.sql == st.sql
    && |r.elements| == |st.elements|
    && (forall k :: 0 <= k < i && k < |st.elements| ==> r.elements[k] == st.elements[k])
    && (forall k :: i <= k < |st.elements| ==> r.elements[k].0 == st.elements[k].0)
  }

  lemma FrameFromTrans(r: CondState, next: CondState, st: CondState, i: nat)
    requires i < |st.elements|
    requires FrameFrom(r, next, i + 1) && FrameFrom(next, st, i)
    ensures FrameFrom(r, st, i)
  {
  }

  /** Advancing past element i, or failing on it, changes only that element's value. */
  lemma StepFrame(co: Coercion, st: CondState, i: nat, rule: Rule, v: Value)
    requires i < |st.elements|
    ensures FrameFrom(Advanced(co, st, i, rule), st, i)
    ensures FrameFrom(st.(elements := st.elements[i := (st.elements[i].0, v)]), st, i)
  {
  }

  /** The element loop from index i keeps the object's identity, length and keys, and the elements before i. */
  lemma {:induction false} ElementsFromFrame(co: Coercion, st: CondState, i: nat, rule: Rule)
    requires i <= |st.elements|
    ensures FrameFrom(ValidateElementsFrom(co, st, i, rule).0, st, i)
    decreases |st.elements| - i
  {
    if i < |st.elements| {
      if ElementPasses(co, st.field, st.elements[i].1, rule) {
        ElementsFromFrame(co, Advanced(co, st, i, rule), i + 1, rule);
        FramePassStep(co, st, i, rule);
      } else {
        ElementsFromStep(co, st, i, rule);
        StepFrame(co, st, i, rule, ValidateElement(co, st.field, st.elements[i].1, rule).0);
      }
    }
  }

  lemma FramePassStep(co: Coercion, st: CondState, i: nat, rule: Rule)
    requires i < |st.elements| && ElementPasses(co, st.field, st.elements[i].1, rule)
    requires FrameFrom(ValidateElementsFrom(co, Advanced(co, st, i, rule), i + 1, rule).0, Advanced(co, st, i, rule), i + 1)
    ensures FrameFrom(ValidateElementsFrom(co, st, i, rule).0, st, i)
  {
    var next := Advanced(co, st, i, rule);
    ElementsFromStep(co, st, i, rule);
    StepFrame(co, st, i, rule, Null);
    FrameFromTrans(ValidateElementsFrom(co, next, i + 1, rule).0, next, st, i);
  }

  /** Every element of st from index i on passes on its own. */
  predicate AllPassFrom(co: Coercion, st: CondState, i: nat, rule: Rule)
  {
    forall k :: i <= k < |st.elements| ==> ElementPasses(co, st.field, st.elements[k].1, rule)
  }

  lemma AllPassStep(co: Coercion, st: CondState, i: nat, rule: Rule)
    requires i < |st.elements|
    ensures AllPassFrom(co, st, i, rule) <==>
      ElementPasses(co, st.field, st.elements[i].1, rule) && AllPassFrom(co, Advanced(co, st, i, rule), i + 1, rule)
  {
    var next := Advanced(co, st, i, rule);
    assert forall k :: i < k < |st.elements| ==> next.elements[k] == st.elements[k];
  }

  /** The element loop from index i passes exactly when each remaining element passes on its own. */
  lemma {:induction false} ElementsFromPasses(co: Coercion, st: CondState, i: nat, rule: Rule)
    requires i <= |st.elements|
    ensures ValidateElementsFrom(co, st, i, rule).1 == Pass <==> AllPassFrom(co, st, i, rule)
    decreases |st.elements| - i
  {
    if i < |st.elements| {
      ElementsFromStep(co, st, i, rule);
      AllPassStep(co, st, i, rule);
      if ElementPasses(co, st.field, st.elements[i].1, rule) {
        ElementsFromPasses(co, Advanced(co, st, i, rule), i + 1, rule);
      }
    }
  }

  /** r holds st's elements with, from index i on, each value replaced by its validated value. */
  predicate RewrittenFrom(co: Coercion, r: CondState, st: CondState, i: nat, rule: Rule)
  {
    |r.elements| == |st.elements|
    && forall k :: i <= k < |st.elements| ==>
      r.elements[k].1 == ValidateElement(co, st.field, st.elements[k].1, rule).0
  }

  lemma RewrittenStep(co: Coercion, r: CondState, st: CondState, i: nat, rule: Rule)
    requires i < |st.elements|
    requires RewrittenFrom(co, r, Advanced(co, st, i, rule), i + 1, rule)
    requires r.elements[i] == Advanced(co, st, i, rule).elements[i]
    ensures RewrittenFrom(co, r, st, i, rule)
  {
    var next := Advanced(co, st, i, rule);
    forall k | i < k < |st.elements|
      ensures r.elements[k].1 == ValidateElement(co, st.field, st.elements[k].1, rule).0
    {
      assert next.elements[k] == st.elements[k];
    }
  }

  /** When it passes, the loop from index i rewrites each remaining element with its validated value. */
  lemma {:induction false} ElementsFromValues(co: Coercion, st: CondState, i: nat, rule: Rule)
    requires i <= |st.elements|
    requires ValidateElementsFrom(co, st, i, rule).1 == Pass
    ensures RewrittenFrom(co, ValidateElementsFrom(co, st, i, rule).0, st, i, rule)
    decreases |st.elements| - i
  {
    if i < |st.elements| {
      ElementsFromStep(co, st, i, rule);
      var next := Advanced(co, st, i, rule);
      var r := ValidateElementsFrom(co, next, i + 1, rule).0;
      ElementsFromFrame(co, next, i + 1, rule);
      ElementsFromValues(co, next, i + 1, rule);
      RewrittenStep(co, r, st, i, rule);
    }
  }

  /** When it passes over at least one element, the loop leaves the comma join of the element values as the value. */
  lemma {:induction false} ElementsFromJoined(co: Coercion, st: CondState, i: nat, rule: Rule)
    requires i < |st.elements|
    requires ValidateElementsFrom(co, st, i, rule).1 == Pass
    ensures ValidateElementsFrom(co, st, i, rule).0.value == Str(Implode(",", ValuesOf(ValidateElementsFrom(co, st, i, rule).0.elements)))
    decreases |st.elements| - i
  {
    ElementsFromStep(co, st, i, rule);
    var next := Advanced(co, st, i, rule);
    if i + 1 < |st.elements| {
      ElementsFromJoined(co, next, i + 1, rule);
    } else {
      assert ValidateElementsFrom(co, next, i + 1, rule).0 == next;
    }
  }

  /**
   * IN validation passes exactly when every element passes on its own;
   * it then rewrites each element's value in place, keeps the keys, and
   * stores the comma join of the results. One failing element fails the call.
   */
  lemma ValidatedIn(co: Coercion, st: CondState, rule: Rule)
    requires st.kind.In?
    ensures Validated(co, st, rule).1 == Pass <==>
      forall k :: 0 <= k < |st.elements| ==> ElementPasses(co, st.field, st.elements[k].1, rule)
    ensures Validated(co, st, rule).1 == Pass ==>
      |Validated(co, st, rule).0.elements| == |st.elements|
      && (forall k :: 0 <= k < |st.elements| ==>
            Validated(co, st, rule).0.elements[k] == (st.elements[k].0, ValidateElement(co, st.field, st.elements[k].1, rule).0))
    ensures Validated(co, st, rule).1 == Pass && st.elements != [] ==>
      Validated(co, st, rule).0.value == Str(Implode(",", ValuesOf(Validated(co, st, rule).0.elements)))
  {
    ElementsFromFrame(co, st, 0, rule);
    ElementsFromPasses(co, st, 0, rule);
    if Validated(co, st, rule).1 == Pass {
      ElementsFromValues(co, st, 0, rule);
      if st.elements != [] {
        ElementsFromJoined(co, st, 0, rule);
      }
    }
  }

  /** The errors `validate_param` raises. */
  predicate ValidationKind(k: ErrorKind)
  {
    k == MissingRequired || k == InvalidChoice || k == Validation
  }

  lemma {:induction false} ElementsFromFailure(co: Coercion, st: CondState, i: nat, rule: Rule)
    requires i <= |st.elements|
    ensures ValidateElementsFrom(co, st, i, rule).1.Fail? ==>
      ValidationKind(ValidateElementsFrom(co, st, i, rule).1.error.kind)
    decreases |st.elements| - i
  {
    if i < |st.elements| {
      ElementsFromStep(co, st, i, rule);
      if ElementPasses(co, st.field, st.elements[i].1, rule) {
        ElementsFromFailure(co, Advanced(co, st, i, rule), i + 1, rule);
      }
    }
  }

  /** Validation of any variant fails only with a missing-required, invalid-choice or validation error. */
  lemma ValidatedFailureKinds(co: Coercion, st: CondState, rule: Rule)
    ensures Validated(co, st, rule).1.Fail? ==> ValidationKind(Validated(co, st, rule).1.error.kind)
  {
    if st.kind.In? {
      ElementsFromFailure(co, st, 0, rule);
    }
  }

  /** A null element that is required takes the default; a null coercion result does too. */
  lemma ElementDefaults(co: Coercion, field: string, rule: Rule, v: Value)
    requires rule.required && rule.default != Null
    ensures ValidateElement(co, field, Null, rule) == ValidateElement(co, field, rule.default, rule)
    ensures !MissingValue(v, rule) && (rule.choices == [] || LooseIn(co, Prepared(co, v, rule), rule.choices))
      && co.validate(Prepared(co, v, rule), rule.paramType, !rule.required) == Some(Null)
      ==> ValidateElement(co, field, v, rule) == (rule.default, None)
  {
  }

  // ---------------------------------------------------------------------
  // Examples
  // ---------------------------------------------------------------------

  /** "name" = "john": `name = :name__eq`, with the prefix `u.name = :name__eq`. */
  lemma EqExample(db: Db)
    ensures Render(Construct(Eq, "name", Str("john")).value, db, "").0 == Ok("name = :name__eq")
    ensures Render(Construct(Eq, "name", Str("john")).value, db, "u").0 == Ok("u.name = :name__eq")
    ensures Appended(Construct(Eq, "name", Str("john")).value, map[]) == map["name__eq" := Str("john")]
  {
    var st := CondState(Eq, "name__eq", "name", Str("john"), None, []);
    EqNameTexts();
    ComparisonCondition(Eq, "name", Str("john"), db, "", map[]);
    assert Construct(Eq, "name", Str("john")) == Ok(st);
    assert Render(st, db, "").0 == Ok("name = :name__eq");
    assert Render(st, db, "u").0 == Ok(Prefix("u", "name = :name__eq"));
  }

  lemma EqNameTexts()
    ensures "name" + "__" + "eq" == "name__eq"
    ensures "name" + " " + "=" + " :" + "name__eq" == "name = :name__eq"
    ensures Prefix("u", "name = :name__eq") == "u.name = :name__eq"
  {
  }

  /** A condition on created_at moved to timestamp before rendering: `timestamp > :created_at__gt`. */
  lemma SetFieldExample(db: Db)
    ensures Render(Construct(Gt, "created_at", Int(10)).value.(field := "timestamp"), db, "").0
      == Ok("timestamp > :created_at__gt")
  {
    SetFieldKeepsKey(Gt, "created_at", Int(10), "timestamp", db, "");
    CreatedAtTexts();
  }

  lemma CreatedAtTexts()
    ensures "created_at" + "__" + "gt" == "created_at__gt"
    ensures Prefix("", "timestamp" + " " + ">" + " :" + "created_at__gt") == "timestamp > :created_at__gt"
  {
  }

  /** The null tests on deleted_at and updated_at. */
  lemma NullTestExamples(db: Db)
    ensures Render(Construct(IsNull, "deleted_at", Null).value, db, "").0 == Ok("deleted_at IS NULL")
    ensures Render(Construct(NotNull, "updated_at", Null).value, db, "").0 == Ok("updated_at IS NOT NULL")
  {
    NullTestCondition(IsNull, "deleted_at", Null, db, "", map[]);
    NullTestCondition(NotNull, "updated_at", Null, db, "", map[]);
    NullTestTexts();
  }

  lemma NullTestTexts()
    ensures Prefix("", "deleted_at" + " " + Operator(IsNull)) == "deleted_at IS NULL"
    ensures Prefix("", "updated_at" + " " + Operator(NotNull)) == "updated_at IS NOT NULL"
  {
  }

  lemma StatusJoin()
    ensures Implode(",", [Str("todo"), Str("open"), Str("inprogress")]) == "todo,open,inprogress"
  {
    assert StrVals([Str("todo"), Str("open"), Str("inprogress")]) == ["todo", "open", "inprogress"];
    assert Join(["inprogress"], ",") == "inprogress";
    assert Join(["open", "inprogress"], ",") == "open,inprogress";
  }

  lemma StatusKeys()
    ensures InKeys("status__in", 3) == ["status__in1", "status__in2", "status__in3"]
  {
    var keys := InKeys("status__in", 3);
    assert NatToString(1) == "1" && NatToString(2) == "2" && NatToString(3) == "3";
    assert keys[0] == "status__in" + "1" == "status__in1";
    assert keys[1] == "status__in" + "2" == "status__in2";
    assert keys[2] == "status__in" + "3" == "status__in3";
  }

  lemma InStatusStored()
    ensures Construct(In, "status", Arr(ListOf([Str("todo"), Str("open"), Str("inprogress")]))).value
      == CondState(In, "status__in", "status", Str("todo,open,inprogress"), None, ListOf([Str("todo"), Str("open"), Str("inprogress")]))
  {
    var vs := [Str("todo"), Str("open"), Str("inprogress")];
    ValuesOfListOf(vs);
    StatusJoin();
    InFromList("status", ListOf(vs));
    assert "status" + "__in" == "status__in";
  }

  lemma ThreeParams(st: CondState, db: Db, k0: string, k1: string, k2: string)
    requires st.kind.In? && st.sql.None? && |st.elements| == 3
    requires InKeys(st.key, 3) == [k0, k1, k2]
    ensures var p := Appended(Render(st, db, "").1, map[]);
      p.Keys == {k0, k1, k2}
      && p[k0] == st.elements[0].1 && p[k1] == st.elements[1].1 && p[k2] == st.elements[2].1
  {
    var keys := InKeys(st.key, 3);
    InRenderParams(st, db, "", map[]);
    assert (set i | 0 <= i < 3 :: keys[i]) == {k0, k1, k2} by {
      assert keys[0] == k0 && keys[1] == k1 && keys[2] == k2;
    }
  }

  lemma StatusParams(db: Db, entries: seq<(string, Value)>)
    requires |entries| == 3
    ensures var st := CondState(In, "status__in", "status", Str("todo,open,inprogress"), None, entries);
      var p := Appended(Render(st, db, "").1, map[]);
      p.Keys == {"status__in1", "status__in2", "status__in3"}
      && p["status__in1"] == entries[0].1 && p["status__in2"] == entries[1].1 && p["status__in3"] == entries[2].1
  {
    var st := CondState(In, "status__in", "status", Str("todo,open,inprogress"), None, entries);
    StatusKeys();
    ThreeParams(st, db, "status__in1", "status__in2", "status__in3");
  }

  /** ["todo", "open", "inprogress"] on status: stored as their join, the params are status__in1..3. */
  lemma InStatusExample(db: Db)
    ensures Construct(In, "status", Arr(ListOf([Str("todo"), Str("open"), Str("inprogress")]))).value.value
      == Str("todo,open,inprogress")
    ensures var st := Construct(In, "status", Arr(ListOf([Str("todo"), Str("open"), Str("inprogress")]))).value;
      var p := Appended(Render(st, db, "").1, map[]);
      p.Keys == {"status__in1", "status__in2", "status__in3"}
      && p["status__in1"] == Str("todo") && p["status__in2"] == Str("open") && p["status__in3"] == Str("inprogress")
  {
    var entries := ListOf([Str("todo"), Str("open"), Str("inprogress")]);
    InStatusStored();
    StatusParams(db, entries);
  }

  /** [true, false] under PARAM_BOOL: false reaches the coercion as 0, giving "1,0". */
  lemma InBoolExample(co: Coercion)
    requires co.validate(Bool(true), ParamBool, true) == Some(Int(1))
    requires co.validate(Int(0), ParamBool, true) == Some(Int(0))
    ensures var st := Construct(In, "flags", Arr(ListOf([Bool(true), Bool(false)]))).value;
      Validated(co, st, Rule(ParamBool, false, Null, [])).1 == Pass
      && Validated(co, st, Rule(ParamBool, false, Null, [])).0.value == Str("1,0")
  {
    var rule := Rule(ParamBool, false, Null, []);
    var entries := ListOf([Bool(true), Bool(false)]);
    InFromList("flags", entries);
    var st := Construct(In, "flags", Arr(entries)).value;
    assert st.elements == entries && st.kind == In && st.field == "flags";
    BoolElementsPass(co, rule);
    ValidatedIn(co, st, rule);
    var r := Validated(co, st, rule).0;
    assert ValuesOf(r.elements) == [Int(1), Int(0)];
    OneZeroJoined();
  }

  lemma BoolElementsPass(co: Coercion, rule: Rule)
    requires rule == Rule(ParamBool, false, Null, [])
    requires co.validate(Bool(true), ParamBool, true) == Some(Int(1))
    requires co.validate(Int(0), ParamBool, true) == Some(Int(0))
    ensures ValidateElement(co, "flags", Bool(true), rule) == (Int(1), None)
    ensures ValidateElement(co, "flags", Bool(false), rule) == (Int(0), None)
  {
    assert Prepared(co, Bool(true), rule) == Bool(true);
    assert Prepared(co, Bool(false), rule) == Int(0);
  }

  lemma OneZeroJoined()
    ensures Implode(",", [Int(1), Int(0)]) == "1,0"
  {
    assert IntToString(1) == "1" && IntToString(0) == "0";
    assert StrVals([Int(1), Int(0)]) == ["1", "0"];
  }

  /** [null], required, default "default_value": the element and the value become the default. */
  lemma InDefaultExample(co: Coercion)
    requires co.validate(Str("default_value"), "text", false) == Some(Str("default_value"))
    ensures var st := Construct(In, "value", Arr(ListOf([Null]))).value;
      Validated(co, st, Rule("text", true, Str("default_value"), [])) .1 == Pass
      && Validated(co, st, Rule("text", true, Str("default_value"), [])).0.value == Str("default_value")
  {
    var rule := Rule("text", true, Str("default_value"), []);
    var st := Construct(In, "value", Arr(ListOf([Null]))).value;
    ValidatedIn(co, st, rule);
    assert ValidateElement(co, "value", Null, rule) == (Str("default_value"), None);
    var r := Validated(co, st, rule).0;
    assert ValuesOf(r.elements) == [Str("default_value")];
  }

  /** 50 on score under PARAM_INT, with a coercion that keeps it: validation passes and the value stays 50. */
  lemma GtIntExample(co: Coercion)
    requires co.validate(Int(50), "int", true) == Some(Int(50))
    ensures Validated(co, Construct(Gt, "score", Int(50)).value, Rule("int", false, Null, []))
      == (Construct(Gt, "score", Int(50)).value, Pass)
  {
  }

  /** "archived" against the choices draft and published (compared strictly) is refused. */
  lemma ChoiceExample(co: Coercion)
    requires forall a, b :: co.looseEquals(a, b) <==> a == b
    ensures ValidateValue(co, "status", Str("archived"), Rule("text", false, Null, [Str("draft"), Str("published")]))
      == Err(Failure(InvalidChoice, FieldChoices("status", "draft, published")))
  {
    var rule := Rule("text", false, Null, [Str("draft"), Str("published")]);
    assert Prepared(co, Str("archived"), rule) == Str("archived");
    assert !co.looseEquals(Str("archived"), Str("draft")) && !co.looseEquals(Str("archived"), Str("published"));
    assert StrVals([Str("draft"), Str("published")]) == ["draft", "published"];
    assert Join(["draft", "published"], ", ") == "draft, published";
  }

  // ---------------------------------------------------------------------
  // The undefined get_context()
  // ---------------------------------------------------------------------

  /**
   * As written, refusing a null IN value raises "call to undefined
   * method" instead of the invalid-value exception the tests expect; the
   * corrected constructor raises that exception with the (field, "in") context.
   */
  lemma InNullUndefinedContext(field: string)
    ensures ConstructAsWritten(In, field, Null) == Err(UndefinedContext)
    ensures Construct(In, field, Null) == Err(Failure(InvalidValue, Filter(FilterContext(field, "in", ""))))
  {
  }

  /**
   * As written, a NOT LIKE value without wildcards reaches the same
   * undefined call; the corrected constructor refuses it with the
   * (field, "notlike") context.
   */
  lemma NotLikePlainUndefinedContext(field: string, s: string)
    requires '*' !in s && '%' !in s
    ensures ConstructAsWritten(NotLike, field, Str(s)) == Err(UndefinedContext)
    ensures Construct(NotLike, field, Str(s)) == Err(Failure(InvalidValue, Filter(FilterContext(field, "notlike", ""))))
  {
    PlainPatternRefused(NotLike, field, s);
  }

  /** The same undefined call stands where a required IN element is null without a default. */
  lemma InMissingRequiredUndefined(co: Coercion)
    ensures var st := Construct(In, "value", Arr(ListOf([Null]))).value;
      ValidatedAsWritten(co, st, Rule("text", true, Null, [])).1 == Fail(UndefinedContext)
      && Validated(co, st, Rule("text", true, Null, [])).1
        == Fail(Failure(MissingRequired, Filter(FilterContext("value", "in", ""))))
  {
  }
}
