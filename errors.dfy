/**
 * The exceptions the library throws, reduced to their kind and the
 * context attached to them, and `filter_context`
 * (src/http/filters/exceptions/context/filter_context.php).
 */
module Errors {
  import opened Strings

  datatype ErrorKind =
    | Configuration      // coding_exception (missing FROM, empty IN list)
    | InvalidOperator    // invalid_operator_exception
    | ForbiddenOperator  // forbidden_operator_exception
    | InvalidValue       // invalid_condition_value_exception
    | MissingRequired    // missing_required_field_exception
    | InvalidChoice      // invalid_condition_choice_exception
    | Validation         // validation_exception
    | TypeMismatch       // a PHP TypeError
    | UndefinedMethod    // a PHP Error: call to an undefined method
    | DatabaseFailure    // any exception the database layer raises (a refused statement, a failed check)

  /** The `accepts` argument of `filter_context`: a string or a list. */
  datatype Accepts = AcceptsText(text: string) | AcceptsList(items: seq<string>)

  datatype FilterContext = FilterContext(field: string, operator: string, accepts: string)

  /** What `set_context` attached to an exception. */
  datatype Context =
    | NoContext
    | Filter(filter: FilterContext)
    | FieldOnly(field: string)                  // ['field' => ...]
    | FieldChoices(field: string, choices: string)  // ['field' => ..., 'choices' => ...]

  datatype Failure = Failure(kind: ErrorKind, context: Context)

  /** `new filter_context($field, $operator = '', $accepts = '')`. */
  function NewFilterContext(field: string, operator: string := "", accepts: Accepts := AcceptsText("")): (c: FilterContext)
    ensures c.field == field && c.operator == operator
    ensures accepts.AcceptsText? ==> c.accepts == accepts.text
    ensures accepts.AcceptsList? ==> c.accepts == Join(accepts.items, ",")
  {
    var text := match accepts
      case AcceptsText(t) => t
      case AcceptsList(items) => Join(items, ",");
    FilterContext(field, operator, text)
  }

  /**
   * The comma join loses nothing: if no accepted entry contains a comma,
   * splitting the stored text at commas gives the list back.
   */
  lemma FilterContextAcceptsRoundTrip(field: string, operator: string, items: seq<string>)
    requires |items| >= 1
    requires forall i :: 0 <= i < |items| ==> ',' !in items[i]
    ensures Split(NewFilterContext(field, operator, AcceptsList(items)).accepts, ',') == items
  {
    SplitJoin(items, ',');
  }
}
