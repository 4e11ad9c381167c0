# moodle-dev-utils: query builder, paginators and LHS-bracket filters

This project is a Dafny model of the core of `moodle-dev-utils`, a PHP
library of helpers for Moodle plugins. The model covers three things:

- **`moodle_query`.** A fluent SQL builder. Its methods append to clause
  lists held in the object. `to_sql` assembles the clauses in a fixed order.
  `get_recordset`, `count`, `exists` and `first` run it against Moodle's
  `$DB`.
- **The paginators.** Both wrap a `moodle_query`:
  - `query_cursor_paginator` does keyset pagination. It clones the query,
    orders it by the cursor field, adds a lookahead row and remembers the
    next cursor.
  - `query_page_paginator` does offset pagination. It moves the wrapped
    query itself to the requested page and records the total.
- **The LHS-bracket filter.** `lhs_filter` turns request parameters such as
  `age[gt]=30` or `status=draft` into SQL conditions. It checks them against
  a field schema that each subclass declares. The schema is defaulted once
  and kept in a cache shared by all filters. The filter is built from:
  - `sql_conditions_factory`, which maps an operator alias to a condition
    variant;
  - the condition classes (`abstract_sql_condition`, `in`, `notlike`,
    `notnull`, `neq`, `gt`, `lte`, and the variants the factory names);
  - `wildcard_trait`, which normalises `*` patterns for LIKE;
  - `filter_context`, the context attached to filter exceptions.

## How the code is modelled

**Modules.** Each source file is one module or a group of modules:

| Module | What it models |
|---|---|
| `Query` | `moodle_query` |
| `CursorPagination` | the keyset paginator |
| `PagePagination` | the offset paginator |
| `Conditions` | the condition classes |
| `ConditionProperties` | the properties of the condition classes |
| `Factory` | the factory |
| `Wildcards` | the trait |
| `Errors` | `filter_context` and the exception kinds |
| `Lhs` | `lhs_filter` |
| `LhsProperties` | the properties of `lhs_filter` |
| `Strings` | PHP's string functions |
| `Php` | PHP values |
| `Database` | the database oracle |
| `Fixtures` | keyed test tables |

**Objects.** The source updates these objects in place, so they are Dafny
classes with the same fields. Their methods state the whole new state
through a function on values:

- `moodle_query` is `Query.MoodleQuery`, a `ToSql` result is
  `== SqlOf(State())`, and mutating calls are stated as
  `State() == old(State()).(...)`.
- The two paginators are separate classes.
- The condition objects are `Conditions.SqlCondition`, with `Render` and
  `Validated` as their specification.
- `lhs_filter` and its static definition cache are separate classes. The
  filter's condition array is a sequence of condition objects, specified by
  `SetConditionSpec`, `ApplyAll` and `RenderedConditions`.

**Loops.** The source's loops are `while` and `for` loops with invariants,
each proved against its specification function:

- `Stream` (`while`) is the generator loop of the cursor paginator, and the
  `for` loop of the page paginator's `GetGenerator` is its `foreach`. That
  loop only yields the fetched rows one by one; its invariant says it
  copies them, and it adds nothing to `PageOutcome`.
- `AppendParam` (`for`) and `ValidateParam` (`while`) are the `foreach`
  loops of the conditions.
- `FillCache` (`for`) is the loop of `get_fields_definition`.
- `RenderAll` (`while`) is the `array_map` of `get_conditions`, and
  `GetParameters` (`for`) is the `foreach` over `append_param` of
  `get_parameters`.
- `Apply` and `ApplyOperators` (`while`) are the two loops of the filter
  constructor.

**PHP values and arrays.** PHP values become the datatype `Php.Value`. A PHP
array is an ordered sequence of (key, value) pairs with string keys. PHP
treats the key `0` and `"0"` as one key, so lookups lose nothing. The
`$conditions` array of a filter keeps one entry per key, in insertion order:
a key stored again is replaced in place. PHP's "empty string" test (`""` and
`"0"`) is `Strings.IsFalsy`.

**Exceptions.** Exceptions become `Errors.Failure`, which carries an
`ErrorKind` and the context attached to it. An operation that can throw
returns a `Result` or an `Outcome`.

**Oracles.** Moodle's API enters as two records of functions, and nothing is
assumed about their results:

- `Database.Db`: `get_recordset_sql`, `count_records_sql`,
  `record_exists_sql`, `sql_like` and the fragment of `get_in_or_equal`.
- `Conditions.Coercion`: `validate_param`, `clean_param` and PHP's loose
  `==` as `in_array` uses it.

The placeholder names `get_in_or_equal` generates are modelled as
`prefix1..prefixN` for every call (`Database.InKeys`); see "## Left out" for
Moodle's per-connection counter. `Fixtures.KeyedTable` is a concrete `Db`: a
table keyed `1..n` that answers the keyset predicate, the offset and the
limit. Its count reads the SQL it is sent: it answers only a statement whose
select list is exactly `COUNT(1)`, and fails on any other. It models a
strict engine, which refuses a column selected beside an aggregate without
GROUP BY. The paginator test vectors are proved on it.

**Where the code and its tests or documentation disagree, the model follows
the code, except for the defects listed under "## Findings".** For each of
those the model holds the code as written and the corrected behaviour, and
the rest of the model uses the corrected one:

- `count()` uses the corrected clone `Query.CountQuery` (`COUNT(1)`
  replacing the fields); `Query.CountQueryAsWritten` is the code as written.
- The condition objects (`Conditions.NewCondition`,
  `Conditions.SqlCondition.ValidateParam`) are built on the corrected
  `Conditions.Construct` and `Conditions.Validated`. On three paths these
  differ from the code as written, which calls an undefined
  `get_context()` there: a null or scalar IN value
  (`in_sql_condition.php:25`), a plain NOT LIKE pattern
  (`notlike_sql_condition.php:18`) and a missing required IN element
  (`in_sql_condition.php:94`). The code as written is
  `Conditions.ConstructAsWritten` and `Conditions.ValidatedAsWritten`.

Elsewhere the model follows the code:

- `select()` appends to the field list, and the default `*` stays unless
  `reset_select()` is called. So `select('name')` on a new builder renders
  `SELECT *, name`, although the test at
  `tests/testcases/moodle_query_test.php:50` expects `SELECT name`
  (`Query.SelectAppendsToStar`).
- `exists()` calls `select('1', true)`. The second argument does not
  exist, so `1` is appended to the fields rather than replacing them; this
  is harmless, because `record_exists_sql` only asks whether a row comes
  back. (The same call in `count()` is a finding.)
- `inner_join` takes a table and an ON condition only. The alias `t2` that
  the test at `tests/testcases/moodle_query_test.php:94` passes as a third
  argument is dropped. The join line is therefore
  `INNER JOIN {devutils_test} ON (...)`, without the `t2` that line 98
  expects.
- `abstract_sql_condition::validate_param` substitutes the default only for
  a required field. The test at `tests/testcases/sql_conditions_test.php:90-95`
  expects the default for a field that is not required
  (`ConditionProperties.DefaultIgnoredUnlessRequired`).
- `query_page_paginator::get_generator` changes the caller's query: its
  limit and offset are left at the page's values.
- `query_cursor_paginator`'s next cursor is the key of the lookahead row,
  and the next page starts strictly after it, so passing the next cursor
  back in skips that row: on 15 rows with a limit of 5 the first page is
  1..5 with next cursor 6, and the page from 6 is 7..11
  (`CursorPagination.CursorChainSkipsLookahead`,
  `CursorPagination.CursorExamples`). The test at
  `tests/testcases/query_cursor_paginator_test.php:44` expects the next
  cursor 6, while its second-page test at line 51 resumes from 5, the last
  yielded key (`CursorPagination.CursorResumeFromLastYielded`).

## Model

| member | source | states |
|---|---|---|
| Query.MoodleQuery.constructor | src/database/query/moodle_query.php:14-58 | a new builder holds the property defaults: fields `['*']`, no FROM, empty clause lists, limit and offset 0, no params |
| Query.MoodleQuery.Copy | src/database/query/moodle_query.php:347 | a clone holds exactly the given properties |
| Query.MoodleQuery.Distinct | src/database/query/moodle_query.php:76-79 | sets the DISTINCT flag and changes nothing else |
| Query.MoodleQuery.Select | src/database/query/moodle_query.php:87-90 | appends the fields to the existing list (the default `*` stays) and changes nothing else |
| Query.MoodleQuery.ResetSelect | src/database/query/moodle_query.php:97-100 | empties the field list only |
| Query.MoodleQuery.From | src/database/query/moodle_query.php:109-112 | stores `{table}` followed by an alias unless the alias is PHP-empty; nothing else changes |
| Query.MoodleQuery.AddJoin | src/database/query/moodle_query.php:123-129 | without a FROM it throws a coding exception and the builder is unchanged; otherwise it appends `TYPE JOIN {table} ON (cond)` |
| Query.MoodleQuery.InnerJoin | src/database/query/moodle_query.php:138-140 | the protected join with type INNER, including its error case |
| Query.MoodleQuery.LeftJoin | src/database/query/moodle_query.php:149-151 | the protected join with type LEFT, including its error case |
| Query.MoodleQuery.RightJoin | src/database/query/moodle_query.php:160-162 | the protected join with type RIGHT, including its error case |
| Query.MoodleQuery.SetParams | src/database/query/moodle_query.php:286-288 | `array_merge`: every new key maps to its new value, every other old key keeps its value, and nothing else changes |
| Query.MoodleQuery.SetParam | src/database/query/moodle_query.php:277-279 | sets one parameter, leaving the others |
| Query.MoodleQuery.Where | src/database/query/moodle_query.php:171-175 | appends the condition to WHERE and merges its parameters |
| Query.MoodleQuery.OrWhere | src/database/query/moodle_query.php:189-198 | with no WHERE it adds the condition; otherwise it replaces only the last fragment with `(last OR cond)`, keeps the earlier fragments, and merges the parameters |
| Query.MoodleQuery.GroupBy | src/database/query/moodle_query.php:206-210 | appends to GROUP BY only |
| Query.MoodleQuery.ResetGroupBy | src/database/query/moodle_query.php:217-220 | empties GROUP BY only |
| Query.MoodleQuery.Having | src/database/query/moodle_query.php:229-233 | appends to HAVING and merges the parameters |
| Query.MoodleQuery.OrderBy | src/database/query/moodle_query.php:243-246 | appends `field direction`, ASC by default |
| Query.MoodleQuery.ResetOrderBy | src/database/query/moodle_query.php:253-256 | empties ORDER BY only |
| Query.MoodleQuery.Limit | src/database/query/moodle_query.php:265-269 | sets the limit and the offset; a call without an offset resets it to 0 |
| Query.MoodleQuery.ToSql | src/database/query/moodle_query.php:296-330 | the statement assembled clause by clause by the method equals the value specification `SqlOf` of the builder's state |
| Query.MoodleQuery.Clone | src/database/query/moodle_query.php:347 | a fresh builder with the same state |
| Query.MoodleQuery.GetRecordset | src/database/query/moodle_query.php:337-339 | the recordset of the rendered SQL with the builder's params, offset and limit, or the missing-FROM exception |
| Query.MoodleQuery.Count | src/database/query/moodle_query.php:346-351 | counts through a clone whose fields are replaced by `COUNT(1)` (the corrected `CountQuery`, see "## Findings"), with no limit or offset; a `count_records_sql` that throws is an exception; the builder itself is not changed |
| Query.MoodleQuery.Exists | src/database/query/moodle_query.php:358-363 | checks existence through a clone with `1` appended and limit 1; the builder is not changed |
| Query.MoodleQuery.First | src/database/query/moodle_query.php:370-376 | the first row of a clone limited to one row, or null; the builder is not changed |
| Query.SqlFailsIffNoFrom | src/database/query/moodle_query.php:296-299 | rendering fails exactly when FROM is PHP-empty, and then with a coding (configuration) error |
| Query.InitialWithFromSql | tests/testcases/moodle_query_test.php:37-43 | a new builder with only a FROM renders `SELECT *` and `FROM {table}` on two lines |
| Query.SqlIgnoresPaging | src/database/query/moodle_query.php:296-330 | limit, offset and parameters never affect the SQL text |
| Query.CountIgnoresPaging | src/database/query/moodle_query.php:346-351 | the count does not depend on the builder's limit or offset |
| Query.SqlBeginsWithSelectLine | src/database/query/moodle_query.php:300-329 | the statement opens with its SELECT line and a line break |
| Query.CountSelectsCountOnly | src/database/query/moodle_query.php:346-351 | the corrected count clone selects `COUNT(1)` alone, whatever the builder's fields were |
| Query.CountAsWrittenKeepsStar | src/database/query/moodle_query.php:87-88 | as written, `count()` on a builder with the default fields selects `*, COUNT(1)`: the first field is a table column |
| Query.SqlLinesRecovered | src/database/query/moodle_query.php:307-329 | when no fragment contains a line break, splitting the SQL at line breaks gives back exactly the SELECT line, the FROM line, the joins and the non-empty clauses in order |
| Query.SqlLinesOrder | src/database/query/moodle_query.php:307-327 | WHERE and ORDER BY follow the joins, in that order |
| Query.SelectAppendsToStar | tests/testcases/moodle_query_test.php:45-52 | `select('name')` on a new builder renders `SELECT *, name` |
| Query.OrWhereRendering | tests/testcases/moodle_query_test.php:54-62 | an ORed WHERE fragment appears as the line `WHERE (a OR b)` |
| CursorPagination.Paginated | src/database/query/pagination/query_cursor_paginator.php:50-60 | the clone is ordered by exactly `[field ASC]`; with a cursor it gains `field > :pagination_cursor` and that parameter; without one WHERE and the params are unchanged; every other property is the original's |
| CursorPagination.PageRows | src/database/query/pagination/query_cursor_paginator.php:74-81 | the yielded rows are the first `min(limit, n)` fetched rows (none for a limit below 1) |
| CursorPagination.Stream | src/database/query/pagination/query_cursor_paginator.php:74-81 | the loop yields exactly `PageRows`, counts every fetched row, and leaves the cursor property of the last row it saw |
| CursorPagination.QueryCursorPaginator.constructor | src/database/query/pagination/query_cursor_paginator.php:19-22 | wraps the query and field, with no cursor and no next cursor |
| CursorPagination.QueryCursorPaginator.SetLimit | src/database/query/pagination/query_cursor_paginator.php:24-31 | sets the wrapped query's limit and resets its offset to 0; `get_limit` then reads it back |
| CursorPagination.QueryCursorPaginator.SetCursorField | src/database/query/pagination/query_cursor_paginator.php:33-36 | sets the cursor field only |
| CursorPagination.QueryCursorPaginator.SetCursor | src/database/query/pagination/query_cursor_paginator.php:38-41 | sets the cursor only |
| CursorPagination.QueryCursorPaginator.PaginateQuery | src/database/query/pagination/query_cursor_paginator.php:50-60 | a fresh clone in the `Paginated` state; the wrapped query is untouched |
| CursorPagination.QueryCursorPaginator.GetGenerator | src/database/query/pagination/query_cursor_paginator.php:62-88 | the yielded rows and the new `next_cursor` are `CursorOutcome`: at most `limit` rows of the clone fetched with `limit + 1`, and the next cursor set only when the lookahead row came back |
| CursorPagination.CursorPropertyDropsAlias | src/database/query/pagination/query_cursor_paginator.php:68-69 | the row property read is the column after the last dot of `alias.column` |
| CursorPagination.NextCursorNullOnLastPage | src/database/query/pagination/query_cursor_paginator.php:85-87 | the next cursor is null exactly when at most `limit` rows came back, or the last row has no key |
| CursorPagination.CursorPageOnKeyedTable | src/database/query/pagination/query_cursor_paginator.php:62-88 | on a table keyed 1..n, from cursor k a page holds keys k+1..k+min(limit, n-k), and the next cursor is k+limit+1 when that row exists, null otherwise |
| CursorPagination.CursorChainSkipsLookahead | src/database/query/pagination/query_cursor_paginator.php:50-88 | when a lookahead row exists, the next cursor is its key k+limit+1, and that row is in neither the page just yielded nor the page fetched from that cursor |
| CursorPagination.CursorResumeFromLastYielded | tests/testcases/query_cursor_paginator_test.php:47-58 | after a full page the last yielded row carries the key k+limit, and the page after that key holds k+limit+1 onwards, so the two pages together are consecutive keys |
| CursorPagination.CursorExamples | tests/testcases/query_cursor_paginator_test.php:34-69 | on 15 rows: the first page of 5 gives 1..5 with next cursor 6; the page after 5 gives 6..10 with next cursor 11; the page after the next cursor 6 gives 7..11; the page after 10 with limit 10 gives 11..15 and no next cursor |
| PagePagination.CeilDiv | src/database/query/pagination/query_page_paginator.php:38-43 | `ceil(total / limit)` in exact arithmetic, for a limit of either sign |
| PagePagination.TotalPages | src/database/query/pagination/query_page_paginator.php:38-43 | no pages without a limit; otherwise the least page count covering the total |
| PagePagination.QueryPagePaginator.constructor | src/database/query/pagination/query_page_paginator.php:8-14 | wraps the query, on page 1 with total 0 |
| PagePagination.QueryPagePaginator.SetLimit | src/database/query/pagination/query_page_paginator.php:16-23 | sets the wrapped query's limit, resets its offset, and reads it back |
| PagePagination.QueryPagePaginator.SetPage | src/database/query/pagination/query_page_paginator.php:25-32 | sets the page only |
| PagePagination.QueryPagePaginator.GetGenerator | src/database/query/pagination/query_page_paginator.php:45-60 | moves the wrapped query itself to offset `(page-1)*limit`; the yielded rows and the new total are `PageOutcome` of the original query, which ends in the exception when `count()` throws and then leaves the total unchanged |
| PagePagination.EmptyFirstPageSkipsCount | src/database/query/pagination/query_page_paginator.php:55-57 | an empty first page sets the total to 0, whatever the count would say |
| PagePagination.TotalIsCountOfAllRows | src/database/query/pagination/query_page_paginator.php:57-59 | otherwise the rows are yielded and the total is `count()` of the query, which ignores the page; when that count throws, the outcome is its exception and the total is unchanged |
| PagePagination.PageExample | tests/testcases/query_page_paginator_test.php:44-53 | on 25 rows with limit 10, page 2 holds keys 11..20, the total the corrected count reports is 25, and there are 3 pages |
| PagePagination.CountOnKeyedTable | src/database/query/moodle_query.php:346-351 | on the keyed table the corrected count of a query without a cursor is the number of rows |
| PagePagination.CountAsWrittenOnKeyedTable | src/database/query/moodle_query.php:346-351 | the count as written fails on the same table, because its first field is not the count |
| Database.InKeys | src/http/filters/lhs/conditions/in_sql_condition.php:39 | the placeholder names `get_in_or_equal` generates for one call are `prefix1..prefixN` (numbering restarted per call; see "## Left out") |
| Database.InKeysDistinct | src/http/filters/lhs/conditions/in_sql_condition.php:39 | those names are pairwise different |
| Errors.NewFilterContext | src/http/filters/exceptions/context/filter_context.php:8-16 | keeps the field and the operator; a list of accepted values is stored as its comma join |
| Errors.FilterContextAcceptsRoundTrip | src/http/filters/exceptions/context/filter_context.php:8-16 | splitting the stored accepts text at commas gives the list back when no entry contains a comma |
| Wildcards.EscapePassesIsCharwise | src/http/filters/lhs/conditions/traits/wildcard_trait.php:26-28 | the three `str_replace` passes, in their order, act character by character: `\` doubles, `_` and `%` are escaped, `*` becomes `%` |
| Wildcards.EscapeEachLength | src/http/filters/lhs/conditions/traits/wildcard_trait.php:26-28 | the output grows by one character per escaped character |
| Wildcards.EscapeEachPercent | src/http/filters/lhs/conditions/traits/wildcard_trait.php:26-28 | the output holds `%` exactly when the input held `*` or `%` |
| Wildcards.NormalizeKeepsEmpty | src/http/filters/lhs/conditions/traits/wildcard_trait.php:22-24 | null, `""` and `"0"` are returned unchanged |
| Wildcards.NormalizeKeepsPlain | tests/testcases/sql_conditions_test.php:49 | a string without `\`, `_`, `%` or `*` is unchanged |
| Wildcards.NormalizeCharwise | src/http/filters/lhs/conditions/traits/wildcard_trait.php:21-31 | every other string is normalised character by character |
| Wildcards.NormalizeLength | src/http/filters/lhs/conditions/traits/wildcard_trait.php:21-31 | the normalised length is the input length plus the number of `\`, `_` and `%` |
| Wildcards.NormalizePercent | src/http/filters/lhs/conditions/traits/wildcard_trait.php:21-31 | the normalised string holds `%` exactly when the input held `*` or `%` |
| Wildcards.NormalizeOrderVector | src/http/filters/lhs/conditions/traits/wildcard_trait.php:26-28 | `\_*` becomes `\\\_%`: the inserted backslash is not doubled again and `*` is not escaped |
| Wildcards.NormalizeMixedVector | tests/testcases/sql_conditions_test.php:55 | `a*b_c%d\e` becomes `a%b\_c\%d\\e` |
| Strings.SplitJoin | src/http/filters/lhs/conditions/in_sql_condition.php:20-22 | `explode` undoes `implode` for pieces without the separator |
| Strings.LastSegmentDropsQualifier | src/database/query/pagination/query_cursor_paginator.php:68-69 | `end(explode('.', q.name))` is the name |
| Strings.NatToStringInjective | src/http/filters/lhs/conditions/in_sql_condition.php:39 | different numbers render differently, which keeps the IN placeholder names distinct |
| Conditions.TrimmedPieces | src/http/filters/lhs/conditions/in_sql_condition.php:20 | `array_map('trim', ...)` trims each piece, keeping the length and the order |
| Conditions.Numbered | src/http/filters/lhs/conditions/in_sql_condition.php:39-41 | the i-th element's value goes under the i-th generated name |
| Conditions.Advanced | src/http/filters/lhs/conditions/in_sql_condition.php:91-121 | one passing iteration rewrites only element i in place and stores the comma join of all element values |
| Conditions.SqlCondition.Init | src/http/filters/lhs/conditions/abstract_sql_condition.php:15-19 | the object holds the fields a constructor computed |
| Conditions.SqlCondition.ToSql | src/http/filters/lhs/conditions/abstract_sql_condition.php:27-32 | the result and the new state are `Render`: the unprefixed SQL memoised on the first call, the table prefix applied on every call |
| Conditions.SqlCondition.AppendParam | src/http/filters/lhs/conditions/in_sql_condition.php:52-56 | the loop writes the condition's entries into the array, giving `Appended` |
| Conditions.SqlCondition.SetField | src/http/filters/lhs/conditions/abstract_sql_condition.php:57-60 | changes the field only, and not the key |
| Conditions.SqlCondition.ValidateParam | src/http/filters/lhs/conditions/in_sql_condition.php:90-123 | the new state and the outcome are the corrected `Validated`: a required IN element that is missing gives the missing-required exception with its filter context, where the code as written (`ValidatedAsWritten`, line 94) calls an undefined `get_context()`; for IN the element loop is proved against `ValidateElementsFrom` |
| Conditions.NewCondition | src/http/filters/lhs/conditions/in_sql_condition.php:14-27 | a fresh object in the state the corrected `Construct` gives, or that constructor's exception: a null or scalar IN value (line 25) and a plain NOT LIKE pattern (`notlike_sql_condition.php:18`) give the invalid-value exception with its filter context, where the code as written (`ConstructAsWritten`) calls an undefined `get_context()` |
| ConditionProperties.ComparisonCondition | src/http/filters/lhs/conditions/abstract_sql_condition.php:15-32 | a comparison variant keeps its value, is keyed `field__alias`, renders `field OP :key` under the prefix, and adds exactly that key to the params |
| ConditionProperties.RenderWithTable | src/http/filters/lhs/conditions/abstract_sql_condition.php:31 | a non-empty table prefixes `table.` to the same unprefixed SQL |
| ConditionProperties.MemoSurvivesSetField | src/http/filters/lhs/conditions/abstract_sql_condition.php:28-31 | once rendered, a later `set_field`, database or table changes only the prefix |
| ConditionProperties.SetFieldKeepsKey | src/http/filters/lhs/conditions/abstract_sql_condition.php:57-60 | before the first render `set_field` changes the rendered field but never the key |
| ConditionProperties.AppendKeepsOthers | src/http/filters/lhs/conditions/abstract_sql_condition.php:77-79 | `append_param` of a single-valued variant sets its own key and keeps every other one |
| ConditionProperties.NullTestCondition | src/http/filters/lhs/conditions/notnull_sql_condition.php:5-22 | the null tests drop their argument and render `field IS [NOT] NULL` without a placeholder |
| ConditionProperties.InRejectsScalars | src/http/filters/lhs/conditions/in_sql_condition.php:18-26 | IN accepts exactly strings and arrays; anything else is an invalid value with the (field, in) context |
| ConditionProperties.InFromList | src/http/filters/lhs/conditions/in_sql_condition.php:21-23 | an array is stored as its comma join and kept, keys and values, as the element list |
| ConditionProperties.InFromString | src/http/filters/lhs/conditions/in_sql_condition.php:18-20 | a string is stored verbatim, and a comma join of trimmed pieces gives those pieces back as its elements |
| ConditionProperties.InEmptyFails | src/http/filters/lhs/conditions/in_sql_condition.php:38-42 | an IN with no elements cannot render, and its state is unchanged |
| ConditionProperties.InRenderParams | src/http/filters/lhs/conditions/in_sql_condition.php:35-56 | the first render asks for a fragment over `key1..keyN`, and `append_param` then writes the i-th element under key(i+1) and no other key |
| ConditionProperties.NumberedParams | src/http/filters/lhs/conditions/in_sql_condition.php:52-56 | the numbered entries add one parameter per element, under its own key |
| ConditionProperties.ConstructIdentity | src/http/filters/lhs/conditions/abstract_sql_condition.php:15-19 | whatever a constructor returns has its variant, its field and the key `field__alias` |
| ConditionProperties.PatternAcceptsIff | src/http/filters/lhs/conditions/notlike_sql_condition.php:10-20 | a pattern is accepted exactly when it is non-empty and holds `*` or `%`, and is then stored normalised; otherwise it is an invalid value |
| ConditionProperties.PlainPatternRefused | src/http/filters/lhs/conditions/notlike_sql_condition.php:17-19 | a pattern without wildcards is refused with the (field, alias) context |
| ConditionProperties.PatternRejectsNullAndArrays | src/http/filters/lhs/conditions/notlike_sql_condition.php:11-19 | null normalises to null and is refused; an array is a type error |
| ConditionProperties.PatternRender | src/http/filters/lhs/conditions/notlike_sql_condition.php:28-35 | renders through `sql_like(field, :key, false, false, notlike)` |
| ConditionProperties.PatternPlainExample | tests/testcases/sql_conditions_test.php:123-126 | `doe` is refused |
| ConditionProperties.PatternWildcardExample | tests/testcases/sql_conditions_test.php:135-145 | `*doe*` is stored as `%doe%` |
| ConditionProperties.PatternLiteralPercentExample | src/http/filters/lhs/conditions/notlike_sql_condition.php:17-19 | `5%` passes the check although it has no `*`, stored as `5\%` |
| ConditionProperties.MissingRequiredIff | src/http/filters/lhs/conditions/abstract_sql_condition.php:112-114 | the missing-required error is raised exactly for a null required value without a default |
| ConditionProperties.RequiredNullTakesDefault | src/http/filters/lhs/conditions/abstract_sql_condition.php:116-118 | a required null is validated as its default |
| ConditionProperties.DefaultIgnoredUnlessRequired | src/http/filters/lhs/conditions/abstract_sql_condition.php:116-118 | a field that is not required never sees its default |
| ConditionProperties.BoolFalseBecomesZero | src/http/filters/lhs/conditions/abstract_sql_condition.php:120-122 | `false` reaches PARAM_BOOL coercion as 0 |
| ConditionProperties.ChoiceBeforeCoercion | src/http/filters/lhs/conditions/abstract_sql_condition.php:128-136 | a value outside a non-empty choice list is refused with the field and the choices, whatever the coercion would do |
| ConditionProperties.ValidateValueSucceedsIff | src/http/filters/lhs/conditions/abstract_sql_condition.php:108-141 | validation succeeds exactly when no earlier step refuses and the coercion accepts, storing its result; a coercion failure is exactly a validation error |
| ConditionProperties.ValidatedSingle | src/http/filters/lhs/conditions/abstract_sql_condition.php:108-141 | a single-valued condition changes only its value, and only when validation passes |
| ConditionProperties.ElementsFromFrame | src/http/filters/lhs/conditions/in_sql_condition.php:91-122 | the element loop keeps the condition's identity, the length, the keys and the elements already passed; it rewrites at most the values from the current index on |
| ConditionProperties.ElementsFromPasses | src/http/filters/lhs/conditions/in_sql_condition.php:91-122 | the loop passes exactly when each remaining element passes on its own |
| ConditionProperties.ValidatedIn | src/http/filters/lhs/conditions/in_sql_condition.php:90-123 | IN validation passes exactly when every element passes; each element is then rewritten in place with its validated value, keys kept, and the value is their comma join |
| ConditionProperties.ValidatedFailureKinds | src/http/filters/lhs/conditions/abstract_sql_condition.php:108-141 | validation fails only with missing-required, invalid-choice or validation errors |
| ConditionProperties.ElementDefaults | src/http/filters/lhs/conditions/in_sql_condition.php:98-115 | a required null element takes the default, and so does a null coercion result (`?? $default`) |
| ConditionProperties.EqExample | tests/testcases/sql_conditions_test.php:58-73 | `name = :name__eq`, `u.name = :name__eq`, params `[name__eq => john]` |
| ConditionProperties.SetFieldExample | tests/testcases/sql_conditions_test.php:75-81 | moved to `timestamp` it renders `timestamp > :created_at__gt` |
| ConditionProperties.NullTestExamples | tests/testcases/sql_conditions_test.php:111-121 | `deleted_at IS NULL` and `updated_at IS NOT NULL` |
| ConditionProperties.InStatusExample | tests/testcases/sql_conditions_test.php:169-193 | the list todo, open, inprogress is stored as its join, with params `status__in1..3` mapped to the three values |
| ConditionProperties.InBoolExample | tests/testcases/sql_conditions_test.php:225-230 | `[true, false]` under PARAM_BOOL validates to `1,0` |
| ConditionProperties.InDefaultExample | tests/testcases/sql_conditions_test.php:253-258 | a required `[null]` with a default validates to the default |
| ConditionProperties.GtIntExample | tests/testcases/sql_conditions_test.php:83-88 | 50 under PARAM_INT passes and is kept |
| ConditionProperties.ChoiceExample | tests/testcases/sql_conditions_test.php:104-109 | `archived` against draft and published is an invalid choice listing `draft, published` |
| ConditionProperties.InNullUndefinedContext | src/http/filters/lhs/conditions/in_sql_condition.php:24-26 | as written, a null IN value ends in the undefined `get_context()`; corrected, it is an invalid value for (field, in) |
| ConditionProperties.NotLikePlainUndefinedContext | src/http/filters/lhs/conditions/notlike_sql_condition.php:17-19 | as written, a NOT LIKE value without wildcards ends in the undefined call; corrected, it is an invalid value for (field, notlike) |
| ConditionProperties.InMissingRequiredUndefined | src/http/filters/lhs/conditions/in_sql_condition.php:93-95 | as written, a required null element without a default ends in the undefined call; corrected, it is a missing-required error for (field, in) |
| Factory.MakeCondition | src/http/filters/lhs/conditions/sql_conditions_factory.php:26-46 | a fresh condition of the alias's variant, or an invalid operator with the (field, alias) context for an unknown alias |
| Factory.KindOfIff | src/http/filters/lhs/conditions/sql_conditions_factory.php:27-38 | an alias maps to a variant exactly when it is that variant's alias, for every variant but IN and NOT LIKE |
| Factory.KnownAliases | src/http/filters/lhs/conditions/sql_conditions_factory.php:27-38 | exactly the nine aliases gt..like are known; in and notlike are not |
| Factory.MakeKey | src/http/filters/lhs/conditions/sql_conditions_factory.php:45 | what `make` returns is keyed `field__alias`, on that field, of that alias's variant |
| Factory.MakeFailure | src/http/filters/lhs/conditions/sql_conditions_factory.php:40-45 | `make` fails exactly for an unknown alias or a value the constructor refuses |
| Factory.MakeEqExample | tests/testcases/sql_conditions_test.php:158-167 | `make('eq', 'field', 'value')` renders `field = :field__eq` |
| Factory.MakeInvalidExample | tests/testcases/sql_conditions_test.php:128-132 | `make('invalid', ...)` is an invalid operator |
| Lhs.KeyIndex | src/http/filters/lhs/lhs_filter.php:115 | the position of the condition under a key, or -1 when no condition has it |
| Lhs.DefinitionCache.constructor | src/http/filters/lhs/lhs_filter.php:17 | the shared definition cache starts empty |
| Lhs.LhsFilter.Init | src/http/filters/lhs/lhs_filter.php:16 | a new filter has no conditions, for its subclass's declarations and the shared cache |
| Lhs.LhsFilter.GetFieldsDefinition | src/http/filters/lhs/lhs_filter.php:50-69 | the first call for a subclass resolves this instance's declarations into the shared cache and returns them; afterwards any instance of that subclass gets the cached entry, even one whose declarations differ, and the cache is unchanged |
| Lhs.LhsFilter.FillCache | src/http/filters/lhs/lhs_filter.php:55-68 | the loop puts every declared field, defaulted, into the cache entry of the subclass |
| Lhs.LhsFilter.AcceptsField | src/http/filters/lhs/lhs_filter.php:81-88 | every field when the schema the cache serves is empty, otherwise exactly its fields; the cache then holds that schema for the subclass |
| Lhs.LhsFilter.Store | src/http/filters/lhs/lhs_filter.php:115 | stores a condition under its key, in place when the key exists, keeping one entry per key |
| Lhs.LhsFilter.SetCondition | src/http/filters/lhs/lhs_filter.php:90-117 | the stored conditions and the outcome are `SetConditionSpec` on the schema the cache serves; the array keeps one entry per key |
| Lhs.LhsFilter.ApplyOperators | src/http/filters/lhs/lhs_filter.php:139-141 | the inner constructor loop is `ApplyOps` on the served schema: one `set_condition` per operator, stopping at the first exception; the cache gains at most this subclass's entry |
| Lhs.LhsFilter.ApplyValue | src/http/filters/lhs/lhs_filter.php:134-141 | a scalar is an `eq` condition, an array one condition per operator, on the served schema |
| Lhs.LhsFilter.Apply | src/http/filters/lhs/lhs_filter.php:128-143 | the outer constructor loop is `ApplyAll` on the served schema |
| Lhs.LhsFilter.RenderAt | src/http/filters/lhs/lhs_filter.php:150-152 | renders the i-th condition and changes no other |
| Lhs.LhsFilter.RenderAll | src/http/filters/lhs/lhs_filter.php:150-152 | the `array_map` renders every condition in order, as `RenderFrom` |
| Lhs.LhsFilter.GetConditions | src/http/filters/lhs/lhs_filter.php:149-155 | the result and the new states are `RenderedConditions` |
| Lhs.LhsFilter.GetParameters | src/http/filters/lhs/lhs_filter.php:157-163 | every condition's `append_param`, in order, into an empty array |
| Lhs.LhsFilter.HasConditions | src/http/filters/lhs/lhs_filter.php:165-167 | true exactly when some condition is stored |
| Lhs.AdmitCondition | src/http/filters/lhs/lhs_filter.php:97-111 | `make`, then the operator check and validation of a declared field |
| Lhs.CheckField | src/http/filters/lhs/lhs_filter.php:101-111 | the operator check first, then `validate_param` with the field's rule |
| Lhs.NewFilter | src/http/filters/lhs/lhs_filter.php:128-143 | the constructed filter holds `ApplyAll` of the query parameters, on the cached schema of the subclass when there is one and on its own declarations otherwise, with one entry per key, or the first exception; only the subclass's cache entry can change |
| LhsProperties.ResolveDefaults | src/http/filters/lhs/lhs_filter.php:55-63 | supplied schema values are kept; absent ones become false, `[]` and `['eq']` |
| LhsProperties.ResolveIdempotent | src/http/filters/lhs/lhs_filter.php:55-63 | defaulting a complete field changes nothing |
| LhsProperties.ResolveAllKeys | src/http/filters/lhs/lhs_filter.php:55-68 | the schema has exactly the declared fields |
| LhsProperties.ResolveAllLookup | src/http/filters/lhs/lhs_filter.php:55-68 | each field is resolved from its last declaration |
| LhsProperties.UnacceptedFieldIgnored | src/http/filters/lhs/lhs_filter.php:92-94 | an unaccepted field stores nothing and throws nothing |
| LhsProperties.EmptySchemaUnvalidated | src/http/filters/lhs/lhs_filter.php:97-99 | with no schema, what `make` builds is stored without validation |
| LhsProperties.ForbiddenOperatorIff | src/http/filters/lhs/lhs_filter.php:101-105 | a forbidden operator is raised exactly for a known alias outside a declared field's operator list, with field, alias and the allowed list as context |
| LhsProperties.DeclaredFieldValidated | src/http/filters/lhs/lhs_filter.php:107-111 | an allowed operator on a declared field is validated with its own type, required flag, default and choices |
| LhsProperties.AdmittedKey | src/http/filters/lhs/lhs_filter.php:97-115 | what is stored is keyed `field__alias`, on that field, with the alias's variant |
| LhsProperties.ValidIsDistinctKeys | src/http/filters/lhs/lhs_filter.php:115 | the filter's invariant is one condition per key |
| LhsProperties.UpsertReplacesInPlace | src/http/filters/lhs/lhs_filter.php:115 | a new key appends; an existing key is replaced in its position; keys stay distinct; every other entry is kept |
| LhsProperties.SetConditionEffect | src/http/filters/lhs/lhs_filter.php:90-117 | keys stay distinct, a throw stores nothing, and an admitted condition ends up stored under `field__alias` |
| LhsProperties.ApplyOpsDistinct | src/http/filters/lhs/lhs_filter.php:139-141 | the operator loop keeps the keys distinct |
| LhsProperties.ApplyAllDistinct | src/http/filters/lhs/lhs_filter.php:128-143 | whatever the query parameters, the stored keys are distinct |
| LhsProperties.ApplyAllAppend | src/http/filters/lhs/lhs_filter.php:133-142 | the parameters are applied in order, stopping at the first exception |
| LhsProperties.ScalarIsEq | src/http/filters/lhs/lhs_filter.php:134-141 | a scalar is `set_condition('eq', ...)`; an array is one call per operator |
| LhsProperties.TwoOperators | src/http/filters/lhs/lhs_filter.php:139-141 | the second operator sees what the first stored |
| LhsProperties.Texts | src/http/filters/lhs/lhs_filter.php:150-152 | the conditions' own renderings, in order |
| LhsProperties.RenderedConditionsJoin | src/http/filters/lhs/lhs_filter.php:149-155 | `get_conditions` succeeds exactly when every condition renders; it is then their renderings joined by ` AND `, in order, each condition left memoised |
| LhsProperties.ParametersOfScalars | src/http/filters/lhs/lhs_filter.php:157-163 | for single-valued conditions, the parameters map exactly their keys to their values |
| LhsProperties.EmptyFilter | tests/testcases/lhs_filter_test.php:101-104 | no parameters: no conditions, empty SQL, no params |
| LhsProperties.TestSchemaResolved | tests/testcases/lhs_filter_test.php:23-41 | the test filter's declarations resolve to the age and status definitions |
| LhsProperties.AgeGtStored | tests/testcases/lhs_filter_test.php:43-51 | `age[gt]=30` stores one gt condition on age with value 30 |
| LhsProperties.AgeGtRendered | tests/testcases/lhs_filter_test.php:43-51 | it renders `u.age > :age__gt` with `age__gt => 30` |
| LhsProperties.StatusEqStored | tests/testcases/lhs_filter_test.php:53-61 | `status[eq]=draft` stores one eq condition with value draft |
| LhsProperties.StatusEqRendered | tests/testcases/lhs_filter_test.php:53-61 | it renders `t.status = :status__eq` with `status__eq => draft` |
| LhsProperties.AgeNullMissing | tests/testcases/lhs_filter_test.php:63-67 | `age = null` is a missing required field |
| LhsProperties.StatusArchivedInvalid | tests/testcases/lhs_filter_test.php:69-73 | `status[eq]=archived` is an invalid choice |
| LhsProperties.StatusGtForbidden | tests/testcases/lhs_filter_test.php:75-79 | `status[gt]` is a forbidden operator with the allowed list `eq` |
| LhsProperties.StatusInvalidOperator | tests/testcases/lhs_filter_test.php:81-85 | `status[invalid]` is an invalid operator |
| LhsProperties.AgeFlatStored | tests/testcases/lhs_filter_test.php:106-114 | a flat `age=99` stores an eq condition with value 99 |
| LhsProperties.AgeFlatRendered | tests/testcases/lhs_filter_test.php:106-114 | it renders `age = :age__eq` with `age__eq => 99` |

## Left out

- The real database and Moodle's parameter routines. They are the
  `Database.Db` and `Conditions.Coercion` oracles. The test vectors that need
  concrete behaviour state it as a precondition on the oracle, for example
  that `validate_param(30, PARAM_INT)` returns 30.
- The global `$DB`, `use_database` and the magic `__get` of `moodle_query`.
  Only the database a query is given is modelled.
- `lhs_filter::from_request` and the PSR-7 request. The filter's constructor
  is modelled from the already-parsed parameters, so the `from_request` test
  is not modelled.
- The `before_validation` hook: it is empty in the base class.
- The external structures, the interfaces and the exception classes. The
  exceptions are reduced to `ErrorKind` and their context, and an
  exception's message is not modelled.
- Positional `?` parameters and `array_merge`'s renumbering of integer keys.
  Parameters are named only.
- An empty IN list. Moodle's `get_in_or_equal` throws on it; it is modelled
  as a configuration error.
- Generator laziness and `recordset->close()`. A generator is modelled as the
  sequence it yields, produced in one call.
- The float that `ceil` returns: `PagePagination.CeilDiv` is exact integer
  arithmetic.
- The getters `get_limit`, `get_page`, `get_total` and `get_total_pages`.
  They are plain reads of the fields (`GetLimit`, `GetPage`, `GetTotal`,
  `GetTotalPages`) and need no contract of their own.
- `get_next_cursor`: a plain read (`GetNextCursor`).
- The unused `$limit` field of `query_page_paginator`.
- The condition variants `eq`, `gte`, `lt`, `isnull` and `like`. Their
  files are not part of this model, so their aliases and operators are
  taken from the factory and the tests:
  - `like` is `notlike` with the negation flag off, and with the intended
    invalid-value refusal of a plain pattern. Only `notlike` as written
    makes the undefined `get_context()` call there
    (`Conditions.ConstructAsWritten`);
  - `isnull` is `notnull` with `IS NULL`.
- `clean_param` and how it throws. It is an oracle function and cannot
  fail in the model.
- The operator check of `set_condition` uses loose `in_array`. It is
  modelled as strict membership, which is the same on string aliases.
- The `define_default_operator()` hook (`lhs_filter.php:71-73`). A
  subclass may override it; the model fixes it to `eq`
  (`Lhs.DefaultOperator`), the base class's value, both where an empty
  operator list is defaulted (line 61) and where a scalar parameter is
  applied (line 129).
- Floating-point values. `Php.Value` has no float case, so `PARAM_FLOAT`
  values and float results of the oracles are not modelled.
- Moodle's per-connection placeholder counter. `get_in_or_equal` numbers
  its placeholders from a counter on the database connection, so the
  names continue across calls. `Database.InKeys` restarts at `prefix1` on
  every call; the names stay distinct within one rendered condition.
- PHP integer overflow. `($this->page - 1) * $this->get_limit()`
  (`query_page_paginator.php:46`) and `$this->get_limit() + 1`
  (`query_cursor_paginator.php:71`) become floats when they overflow, and
  the typed `limit(int $limit, int $offset)` (`moodle_query.php:265`) then
  throws a TypeError. Dafny's unbounded `int` leaves this edge out.
- Engines that accept `SELECT *, COUNT(1)` without a GROUP BY. There the
  count as written returns a table column of some row instead of failing;
  the keyed fixture models the engines that fail.
- The not-required default test at `sql_conditions_test.php:90-95` is
  not proved, because the code disagrees with it.
  `DefaultIgnoredUnlessRequired` states what the code does.

## Findings

| source | as written | input that shows it | evidently intended | confidence | as-written member | corrected member |
|---|---|---|---|---|---|---|
| src/http/filters/lhs/conditions/in_sql_condition.php:24-26 | the constructor builds its invalid-value exception from `$this->get_context()`, which no class defines | `new in_sql_condition('field', null)` | an invalid-value exception with the (field, `in`) filter context | not executed | Conditions.ConstructAsWritten, ConditionProperties.InNullUndefinedContext | Conditions.Construct, ConditionProperties.InRejectsScalars |
| src/http/filters/lhs/conditions/notlike_sql_condition.php:17-19 | the same undefined call when the normalised value has no `%` | `new notlike_sql_condition('name', 'doe')` | an invalid-value exception with the (field, `notlike`) context | not executed | Conditions.ConstructAsWritten, ConditionProperties.NotLikePlainUndefinedContext | Conditions.Construct, ConditionProperties.PlainPatternRefused |
| src/database/query/moodle_query.php:346-351 | `count()` calls `select('COUNT(1)', true)`, but `select` takes one argument, so `COUNT(1)` is appended after `*` and `count_records_sql` reads a table column as the count, or the engine refuses the statement | `(new moodle_query())->from('devutils_page_test')->count()`, as in the test at `tests/testcases/moodle_query_test.php:64-70`, and reached from the page paginator's `get_generator` | `COUNT(1)` replacing the select list, so the first field is the count | not executed | Query.CountQueryAsWritten, Query.CountAsWrittenKeepsStar, PagePagination.CountAsWrittenOnKeyedTable | Query.CountQuery, Query.MoodleQuery.Count, PagePagination.CountOnKeyedTable, PagePagination.PageExample |
| src/http/filters/lhs/conditions/in_sql_condition.php:93-95 | a required null element without a default reaches the same undefined call | `validate_param` with `PARAM_TEXT`, required, no default, on `new in_sql_condition('value', [null])` | a missing-required exception with the (field, `in`) context | not executed | Conditions.ValidatedAsWritten, ConditionProperties.InMissingRequiredUndefined | Conditions.Validated, ConditionProperties.InMissingRequiredUndefined |
