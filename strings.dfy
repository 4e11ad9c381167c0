/**
 * The PHP string primitives the library leans on: `implode`, `explode`
 * with a one-character delimiter, `trim`, `str_contains`, a one-character
 * `str_replace`, integer-to-string conversion and PHP's notion of an
 * "empty" (falsy) string.
 */
module Strings {

  /** PHP's `empty($s)` / `!$s` on a string: only "" and "0" are falsy. */
  predicate IsFalsy(s: string) {
    s == "" || s == "0"
  }

  /** `implode($sep, $parts)`. */
  function Join(parts: seq<string>, sep: string): string
  {
    if |parts| == 0 then ""
    else if |parts| == 1 then parts[0]
    else parts[0] + sep + Join(parts[1..], sep)
  }

  /** `explode($sep, $s)` for a one-character separator: never empty. */
  function Split(s: string, sep: char): (r: seq<string>)
    ensures |r| >= 1
  {
    if s == [] then [""]
    else
      var rest := Split(s[1..], sep);
      if s[0] == sep then [""] + rest
      else [[s[0]] + rest[0]] + rest[1..]
  }

  /** `end(explode($sep, $s))`: the text after the last separator. */
  function LastSegment(s: string, sep: char): string
  {
    var parts := Split(s, sep);
    parts[|parts| - 1]
  }

  /** `str_contains($s, $c)` for a one-character needle. */
  predicate Contains(s: string, c: char) {
    c in s
  }

  /** `str_replace($c, $rep, $s)` for a one-character search string. */
  function ReplaceChar(s: string, c: char, rep: string): string
  {
    if s == [] then []
    else (if s[0] == c then rep else [s[0]]) + ReplaceChar(s[1..], c, rep)
  }

  /** The characters PHP's `trim` strips by default. */
  predicate IsTrimmed(c: char) {
    c == ' ' || c == '\t' || c == '\n' || c == '\r' || c == '\0' || c == '\U{000B}'
  }

  function TrimLeft(s: string): (r: string)
    ensures |r| <= |s|
    ensures r == s[|s| - |r|..]
    ensures r != [] ==> !IsTrimmed(r[0])
    ensures forall i :: 0 <= i < |s| - |r| ==> IsTrimmed(s[i])
  {
    if s != [] && IsTrimmed(s[0]) then TrimLeft(s[1..]) else s
  }

  function TrimRight(s: string): (r: string)
    ensures |r| <= |s|
    ensures r == s[..|r|]
    ensures r != [] ==> !IsTrimmed(r[|r| - 1])
    ensures forall i :: |r| <= i < |s| ==> IsTrimmed(s[i])
  {
    if s != [] && IsTrimmed(s[|s| - 1]) then TrimRight(s[..|s| - 1]) else s
  }

  /** `trim($s)`: the longest infix with no strippable character at either end. */
  function Trim(s: string): (r: string)
    ensures r != [] ==> !IsTrimmed(r[0]) && !IsTrimmed(r[|r| - 1])
  {
    TrimRight(TrimLeft(s))
  }

  function Digit(d: nat): char
    requires d < 10
  {
    "0123456789"[d]
  }

  /** PHP's decimal rendering of a non-negative integer. */
  function NatToString(n: nat): (r: string)
    ensures |r| >= 1
    ensures n >= 10 ==> |r| >= 2
    ensures forall i :: 0 <= i < |r| ==> '0' <= r[i] <= '9'
  {
    if n < 10 then [Digit(n)] else NatToString(n / 10) + [Digit(n % 10)]
  }

  /** `(string) $i`. */
  function IntToString(i: int): string
  {
    if i < 0 then "-" + NatToString(-i) else NatToString(i)
  }

  // ---------------------------------------------------------------------
  // Properties
  // ---------------------------------------------------------------------

  lemma DigitInjective(a: nat, b: nat)
    requires a < 10 && b < 10 && Digit(a) == Digit(b)
    ensures a == b
  {
  }

  /** Different numbers are rendered differently. */
  lemma {:induction false} NatToStringInjective(a: nat, b: nat)
    requires NatToString(a) == NatToString(b)
    ensures a == b
  {
    var sa, sb := NatToString(a), NatToString(b);
    if a >= 10 && b >= 10 {
      assert sa == NatToString(a / 10) + [Digit(a % 10)];
      assert sb == NatToString(b / 10) + [Digit(b % 10)];
      assert sa[|sa| - 1] == Digit(a % 10) && sb[|sb| - 1] == Digit(b % 10);
      DigitInjective(a % 10, b % 10);
      assert sa[..|sa| - 1] == NatToString(a / 10);
      assert sb[..|sb| - 1] == NatToString(b / 10);
      NatToStringInjective(a / 10, b / 10);
    } else if a < 10 && b < 10 {
      assert sa[0] == Digit(a) && sb[0] == Digit(b);
      DigitInjective(a, b);
    }
  }

  /** A string without the separator is not split. */
  lemma {:induction false} SplitNoSeparator(s: string, c: char)
    requires c !in s
    ensures Split(s, c) == [s]
  {
    if s != [] {
      SplitNoSeparator(s[1..], c);
      assert [s[0]] + s[1..] == s;
    }
  }

  lemma SplitCons(a: char, t: string, c: char)
    ensures Split([a] + t, c) == ConsPiece(a, c, Split(t, c))
  {
    assert ([a] + t)[0] == a && ([a] + t)[1..] == t;
  }

  /** The first step of `Split`, as a function of the split of the rest. */
  function ConsPiece(a: char, c: char, rest: seq<string>): seq<string>
    requires |rest| >= 1
  {
    if a == c then [""] + rest else [[a] + rest[0]] + rest[1..]
  }

  lemma ConsPieceAppend(a: char, c: char, rx: seq<string>, ry: seq<string>)
    requires |rx| >= 1
    ensures ConsPiece(a, c, rx + ry) == ConsPiece(a, c, rx) + ry
  {
    if a != c {
      assert (rx + ry)[0] == rx[0];
      assert (rx + ry)[1..] == rx[1..] + ry;
    }
  }

  /** Splitting at a separator splits the two sides independently. */
  lemma {:induction false} SplitAround(x: string, c: char, y: string)
    ensures Split(x + [c] + y, c) == Split(x, c) + Split(y, c)
  {
    if x == [] {
      assert x + [c] + y == [c] + y;
      SplitCons(c, y, c);
    } else {
      var t := x[1..] + [c] + y;
      assert x + [c] + y == [x[0]] + t;
      assert x == [x[0]] + x[1..];
      SplitAround(x[1..], c, y);
      SplitCons(x[0], t, c);
      SplitCons(x[0], x[1..], c);
      ConsPieceAppend(x[0], c, Split(x[1..], c), Split(y, c));
    }
  }

  lemma JoinNotContains(parts: seq<string>, sep: string, c: char)
    requires forall i :: 0 <= i < |parts| ==> c !in parts[i]
    requires c !in sep
    ensures c !in Join(parts, sep)
  {
    if |parts| > 1 {
      JoinNotContains(parts[1..], sep, c);
    }
  }

  /**
   * Round trip of `implode` and `explode`: joining pieces that do not
   * contain the one-character separator and splitting again gives the
   * pieces back.
   */
  lemma {:induction false} SplitJoin(parts: seq<string>, c: char)
    requires |parts| >= 1
    requires forall i :: 0 <= i < |parts| ==> c !in parts[i]
    ensures Split(Join(parts, [c]), c) == parts
  {
    if |parts| == 1 {
      SplitNoSeparator(parts[0], c);
    } else {
      SplitJoin(parts[1..], c);
      SplitAround(parts[0], c, Join(parts[1..], [c]));
      SplitNoSeparator(parts[0], c);
    }
  }

  /** `end(explode('.', "alias.column"))` drops the qualifier. */
  lemma LastSegmentDropsQualifier(qualifier: string, name: string, c: char)
    requires c !in name
    ensures LastSegment(qualifier + [c] + name, c) == name
  {
    SplitAround(qualifier, c, name);
    SplitNoSeparator(name, c);
  }

  /** An unqualified name is its own last segment. */
  lemma LastSegmentOfPlain(name: string, c: char)
    requires c !in name
    ensures LastSegment(name, c) == name
  {
    SplitNoSeparator(name, c);
  }

  /** `trim` leaves a string alone when neither end is strippable. */
  lemma TrimOfTrimmed(s: string)
    requires s != [] ==> !IsTrimmed(s[0]) && !IsTrimmed(s[|s| - 1])
    ensures Trim(s) == s
  {
  }
}
