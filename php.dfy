/**
 * PHP values as the filter engine sees them: the scalars a request or a
 * caller can supply, and PHP arrays as ordered key/value lists. Array keys
 * are kept as strings; PHP itself treats the key 0 and the key "0" as one
 * key, so nothing is lost for lookups.
 */
module Php {
  import opened Wrappers
  import opened Strings

  datatype Value =
    | Null
    | Bool(b: bool)
    | Int(i: int)
    | Str(s: string)
    | Arr(entries: seq<(string, Value)>)

  /** `(string) $v` as `implode` performs it; an array becomes "Array". */
  function StrVal(v: Value): string
  {
    match v
    case Null => ""
    case Bool(b) => if b then "1" else ""
    case Int(i) => IntToString(i)
    case Str(s) => s
    case Arr(_) => "Array"
  }

  function StrVals(vs: seq<Value>): (r: seq<string>)
    ensures |r| == |vs|
    ensures forall i :: 0 <= i < |vs| ==> r[i] == StrVal(vs[i])
  {
    if vs == [] then [] else [StrVal(vs[0])] + StrVals(vs[1..])
  }

  /** `implode($sep, $values)`. */
  function Implode(sep: string, vs: seq<Value>): string
  {
    Join(StrVals(vs), sep)
  }

  /** The values of an array, in order (`array_values`). */
  function ValuesOf(entries: seq<(string, Value)>): (r: seq<Value>)
    ensures |r| == |entries|
    ensures forall i :: 0 <= i < |entries| ==> r[i] == entries[i].1
  {
    if entries == [] then [] else [entries[0].1] + ValuesOf(entries[1..])
  }

  /** A PHP list: the values under the keys 0, 1, 2, ... */
  function ListOf(vs: seq<Value>): (r: seq<(string, Value)>)
    ensures |r| == |vs|
    ensures forall i :: 0 <= i < |vs| ==> r[i] == (IntToString(i), vs[i])
  {
    seq(|vs|, i requires 0 <= i < |vs| => (IntToString(i), vs[i]))
  }

  lemma ValuesOfListOf(vs: seq<Value>)
    ensures ValuesOf(ListOf(vs)) == vs
  {
  }

  /**
   * A scalar passed where PHP expects `?string` (without strict types):
   * null stays null, the other scalars are converted, an array is a
   * TypeError (None).
   */
  datatype NullableString = NullString | SomeString(s: string)

  function ToNullableString(v: Value): Option<NullableString>
  {
    match v
    case Null => Some(NullString)
    case Arr(_) => None
    case _ => Some(SomeString(StrVal(v)))
  }
}
