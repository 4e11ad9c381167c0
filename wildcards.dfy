/**
 * Wildcard normalisation shared by the LIKE and NOT LIKE conditions
 * (src/http/filters/lhs/conditions/traits/wildcard_trait.php): literal
 * backslashes, underscores and percent signs are escaped, then every
 * asterisk becomes the SQL wildcard `%`.
 */
module Wildcards {
  import opened Strings
  import opened Php

  /** The three `str_replace` passes, in the order the trait runs them. */
  function EscapePasses(s: string): string
  {
    var doubled := ReplaceChar(s, '\\', "\\\\");
    var escaped := ReplaceChar(ReplaceChar(doubled, '_', "\\_"), '%', "\\%");
    ReplaceChar(escaped, '*', "%")
  }

  /** `normalize_wildcards(?string $value)`: null and PHP-empty strings pass through. */
  function NormalizeWildcards(value: NullableString): NullableString
  {
    match value
    case NullString => value
    case SomeString(s) => if IsFalsy(s) then value else SomeString(EscapePasses(s))
  }

  // ---------------------------------------------------------------------
  // Reference definition: what happens to each character
  // ---------------------------------------------------------------------

  predicate IsEscaped(c: char) {
    c == '\\' || c == '_' || c == '%'
  }

  function EscapeChar(c: char): string
  {
    if IsEscaped(c) then ['\\', c] else if c == '*' then "%" else [c]
  }

  function EscapeEach(s: string): string
  {
    if s == [] then [] else EscapeChar(s[0]) + EscapeEach(s[1..])
  }

  /** The number of characters the normalisation escapes. */
  function EscapedCount(s: string): nat
  {
    if s == [] then 0 else (if IsEscaped(s[0]) then 1 else 0) + EscapedCount(s[1..])
  }

  lemma {:induction false} ReplaceCharAppend(a: string, b: string, c: char, rep: string)
    ensures ReplaceChar(a + b, c, rep) == ReplaceChar(a, c, rep) + ReplaceChar(b, c, rep)
  {
    if a != [] {
      assert (a + b)[0] == a[0];
      assert (a + b)[1..] == a[1..] + b;
      ReplaceCharAppend(a[1..], b, c, rep);
    } else {
      assert a + b == b;
    }
  }

  lemma EscapePassesAppend(a: string, b: string)
    ensures EscapePasses(a + b) == EscapePasses(a) + EscapePasses(b)
  {
    var d1, d2 := ReplaceChar(a, '\\', "\\\\"), ReplaceChar(b, '\\', "\\\\");
    ReplaceCharAppend(a, b, '\\', "\\\\");
    var u1, u2 := ReplaceChar(d1, '_', "\\_"), ReplaceChar(d2, '_', "\\_");
    ReplaceCharAppend(d1, d2, '_', "\\_");
    var p1, p2 := ReplaceChar(u1, '%', "\\%"), ReplaceChar(u2, '%', "\\%");
    ReplaceCharAppend(u1, u2, '%', "\\%");
    ReplaceCharAppend(p1, p2, '*', "%");
  }

  lemma ReplaceCharSingle(x: char, c: char, rep: string)
    ensures ReplaceChar([x], c, rep) == if x == c then rep else [x]
  {
    assert [x][1..] == [];
  }

  lemma ReplaceCharAbsent(s: string, c: char, rep: string)
    requires c !in s
    ensures ReplaceChar(s, c, rep) == s
  {
    if s != [] {
      ReplaceCharAbsent(s[1..], c, rep);
      assert s == [s[0]] + s[1..];
    }
  }

  lemma EscapePassesChar(c: char)
    ensures EscapePasses([c]) == EscapeChar(c)
  {
    ReplaceCharSingle(c, '\\', "\\\\");
    var d := ReplaceChar([c], '\\', "\\\\");
    if c == '\\' {
      ReplaceCharAbsent(d, '_', "\\_");
      ReplaceCharAbsent(d, '%', "\\%");
      ReplaceCharAbsent(d, '*', "%");
    } else {
      ReplaceCharSingle(c, '_', "\\_");
      var u := ReplaceChar(d, '_', "\\_");
      if c == '_' {
        ReplaceCharAbsent(u, '%', "\\%");
        ReplaceCharAbsent(u, '*', "%");
      } else {
        ReplaceCharSingle(c, '%', "\\%");
        var p := ReplaceChar(u, '%', "\\%");
        if c == '%' {
          ReplaceCharAbsent(p, '*', "%");
        } else {
          ReplaceCharSingle(c, '*', "%");
        }
      }
    }
  }

  lemma EscapeEachCons(c: char, s: string)
    ensures EscapeEach([c] + s) == EscapeChar(c) + EscapeEach(s)
  {
    assert ([c] + s)[0] == c && ([c] + s)[1..] == s;
  }

  /**
   * Because backslashes are doubled first, the backslashes the later
   * passes insert are never doubled, and asterisks are never escaped:
   * the three passes act on each character independently.
   */
  lemma {:induction false} EscapePassesIsCharwise(s: string)
    ensures EscapePasses(s) == EscapeEach(s)
  {
    if s != [] {
      assert s == [s[0]] + s[1..];
      EscapePassesAppend([s[0]], s[1..]);
      EscapePassesChar(s[0]);
      EscapePassesIsCharwise(s[1..]);
    }
  }

  lemma {:induction false} EscapeEachLength(s: string)
    ensures |EscapeEach(s)| == |s| + EscapedCount(s)
  {
    if s != [] {
      EscapeEachLength(s[1..]);
    }
  }

  lemma {:induction false} EscapeEachPlain(s: string)
    requires forall i :: 0 <= i < |s| ==> !IsEscaped(s[i]) && s[i] != '*'
    ensures EscapeEach(s) == s
  {
    if s != [] {
      EscapeEachPlain(s[1..]);
      assert s == [s[0]] + s[1..];
    }
  }

  lemma {:induction false} EscapeEachPercent(s: string)
    ensures '%' in EscapeEach(s) <==> '%' in s || '*' in s
  {
    if s != [] {
      EscapeEachPercent(s[1..]);
      assert s == [s[0]] + s[1..];
    }
  }

  // ---------------------------------------------------------------------
  // The trait's promises
  // ---------------------------------------------------------------------

  /** Null, "" and "0" are returned unchanged. */
  lemma NormalizeKeepsEmpty(value: NullableString)
    requires value.NullString? || IsFalsy(value.s)
    ensures NormalizeWildcards(value) == value
  {
  }

  /** A non-empty string without `\`, `_`, `%` or `*` is returned unchanged. */
  lemma NormalizeKeepsPlain(s: string)
    requires forall i :: 0 <= i < |s| ==> s[i] !in "\\_%*"
    ensures NormalizeWildcards(SomeString(s)) == SomeString(s)
  {
    EscapePassesIsCharwise(s);
    EscapeEachPlain(s);
  }

  /** Every other string is normalised character by character. */
  lemma NormalizeCharwise(s: string)
    requires !IsFalsy(s)
    ensures NormalizeWildcards(SomeString(s)) == SomeString(EscapeEach(s))
  {
    EscapePassesIsCharwise(s);
  }

  /** Output length is input length plus the number of `\`, `_` and `%`. */
  lemma NormalizeLength(s: string)
    requires !IsFalsy(s)
    ensures |NormalizeWildcards(SomeString(s)).s| == |s| + EscapedCount(s)
  {
    EscapePassesIsCharwise(s);
    EscapeEachLength(s);
  }

  /** The result holds a `%` exactly when the input held a `*` or a `%`. */
  lemma NormalizePercent(s: string)
    requires !IsFalsy(s)
    ensures '%' in NormalizeWildcards(SomeString(s)).s <==> '*' in s || '%' in s
  {
    EscapePassesIsCharwise(s);
    EscapeEachPercent(s);
  }

  /**
   * The order of the passes matters: a literal backslash is doubled once,
   * the backslash added in front of `_` is not doubled again, and `*`
   * becomes a bare `%` that is not escaped.
   */
  lemma NormalizeOrderVector()
    ensures NormalizeWildcards(SomeString("\\_*")) == SomeString("\\\\\\_%")
  {
    var s := "\\_*";
    assert s == ['\\'] + (['_'] + (['*'] + []));
    EscapeEachCons('*', []);
    EscapeEachCons('_', ['*']);
    EscapeEachCons('\\', "_*");
    assert EscapeEach(s) == "\\\\\\_%";
    NormalizeCharwise(s);
  }

  /**
   * The mixed vector: `a*b_c%d\e` becomes `a%b\_c\%d\\e` (the
   * asterisk a wildcard, the underscore, percent sign and backslash escaped).
   */
  lemma NormalizeMixedVector()
    ensures NormalizeWildcards(SomeString("a*b_c%d\\e")) == SomeString("a%b\\_c\\%d\\\\e")
  {
    MixedEscaped("a*b_c%d\\e");
    NormalizeCharwise("a*b_c%d\\e");
  }

  lemma MixedEscaped(s: string)
    requires s == "a*b_c%d\\e"
    ensures EscapeEach(s) == "a%b\\_c\\%d\\\\e"
  {
    var x, y, z := s[..3], s[3..6], s[6..];
    assert s == x + y + z;
    assert x == ['a', '*', 'b'] && y == ['_', 'c', '%'] && z == ['d', '\\', 'e'];
    EscapeEachAppend(x + y, z);
    EscapeEachAppend(x, y);
    EscapeEachThree('a', '*', 'b');
    EscapeEachThree('_', 'c', '%');
    EscapeEachThree('d', '\\', 'e');
    MixedPieces();
  }

  lemma MixedPieces()
    ensures EscapeChar('a') + EscapeChar('*') + EscapeChar('b')
      + (EscapeChar('_') + EscapeChar('c') + EscapeChar('%'))
      + (EscapeChar('d') + EscapeChar('\\') + EscapeChar('e')) == "a%b\\_c\\%d\\\\e"
  {
  }

  lemma {:induction false} EscapeEachAppend(x: string, y: string)
    ensures EscapeEach(x + y) == EscapeEach(x) + EscapeEach(y)
  {
    if x != [] {
      assert (x + y)[1..] == x[1..] + y;
      EscapeEachAppend(x[1..], y);
    } else {
      assert x + y == y;
    }
  }

  lemma EscapeEachThree(a: char, b: char, c: char)
    ensures EscapeEach([a, b, c]) == EscapeChar(a) + EscapeChar(b) + EscapeChar(c)
  {
    assert [a, b, c] == [a] + ([b] + ([c] + []));
    EscapeEachCons(c, []);
    EscapeEachCons(b, [c]);
    EscapeEachCons(a, [b, c]);
  }
}
