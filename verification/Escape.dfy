/** Escaping of values inside FFmpeg filter options, against plain backslash
    unescaping. */
module Escape {

  function Replace(s: string, c: char, text: string): string {
    if s == [] then []
    else (if s[0] == c then text else [s[0]]) + Replace(s[1..], c, text)
  }

  function EscapeFilterValue(value: string): string {
    Replace(Replace(Replace(value, '\\', "\\\\"), ':', "\\:"), '\'', "\\'")
  }

  function EscapeDrawtextText(value: string): string {
    Replace(EscapeFilterValue(value), '%', "\\%")
  }

  /** For a value that is unescaped twice, as an option and as an expansion. */
  function EscapeDrawtextExpansionFormat(value: string): string {
    Replace(Replace(Replace(value, '\\', "\\\\\\\\"), ':', "\\\\\\:"), '\'', "\\'")
  }

  // ------------------------------------------------------------------
  // Reading escaped text
  // ------------------------------------------------------------------

  /** A backslash stands for the character after it. */
  function Unescape(s: string): string {
    if s == [] then []
    else if s[0] == '\\' && |s| > 1 then [s[1]] + Unescape(s[2..])
    else [s[0]] + Unescape(s[1..])
  }

  /** No character of `special` stands without a backslash of its own. */
  predicate Guarded(s: string, special: set<char>) {
    s == [] ||
    if s[0] == '\\' then |s| > 1 && Guarded(s[2..], special)
    else s[0] !in special && Guarded(s[1..], special)
  }

  /** Each special character behind a backslash. */
  function Escaped(value: string, special: set<char>): string {
    if value == [] then []
    else (if value[0] in special then ['\\', value[0]] else [value[0]]) + Escaped(value[1..], special)
  }

  const OPTION: set<char> := {'\\', ':', '\''}

  lemma {:induction false} ReplaceAppend(a: string, b: string, c: char, text: string)
    ensures Replace(a + b, c, text) == Replace(a, c, text) + Replace(b, c, text)
    decreases |a|
  {
    if a == [] {
      assert a + b == b;
    } else {
      assert (a + b)[1..] == a[1..] + b;
      ReplaceAppend(a[1..], b, c, text);
    }
  }

  lemma ReplaceOne(x: char, c: char, text: string)
    ensures Replace([x], c, text) == if x == c then text else [x]
  {
  }

  lemma ReplaceTwo(x: char, y: char, c: char, text: string)
    ensures Replace([x, y], c, text) == (if x == c then text else [x]) + (if y == c then text else [y])
  {
    assert [x, y] == [x] + [y];
    ReplaceAppend([x], [y], c, text);
  }

  lemma FilterValueOfOne(x: char)
    ensures EscapeFilterValue([x]) == if x in OPTION then ['\\', x] else [x]
  {
    ReplaceOne(x, '\\', "\\\\");
    ReplaceOne(x, ':', "\\:");
    ReplaceOne(x, '\'', "\\'");
    ReplaceTwo('\\', '\\', ':', "\\:");
    ReplaceTwo('\\', '\\', '\'', "\\'");
    ReplaceTwo('\\', ':', '\'', "\\'");
  }

  lemma FilterValueAppend(a: string, b: string)
    ensures EscapeFilterValue(a + b) == EscapeFilterValue(a) + EscapeFilterValue(b)
  {
    ReplaceAppend(a, b, '\\', "\\\\");
    var a1, b1 := Replace(a, '\\', "\\\\"), Replace(b, '\\', "\\\\");
    ReplaceAppend(a1, b1, ':', "\\:");
    ReplaceAppend(Replace(a1, ':', "\\:"), Replace(b1, ':', "\\:"), '\'', "\\'");
  }

  /** The replacements one after the other do not disturb each other. */
  lemma {:induction false} FilterValueIsEscaped(value: string)
    ensures EscapeFilterValue(value) == Escaped(value, OPTION)
  {
    if value == [] {
    } else {
      assert value == [value[0]] + value[1..];
      FilterValueAppend([value[0]], value[1..]);
      FilterValueOfOne(value[0]);
      FilterValueIsEscaped(value[1..]);
    }
  }

  lemma {:induction false} DrawtextTextIsEscaped(value: string)
    ensures EscapeDrawtextText(value) == Escaped(value, OPTION + {'%'})
  {
    if value == [] {
    } else {
      assert value == [value[0]] + value[1..];
      FilterValueAppend([value[0]], value[1..]);
      ReplaceAppend(EscapeFilterValue([value[0]]), EscapeFilterValue(value[1..]), '%', "\\%");
      FilterValueOfOne(value[0]);
      ReplaceOne(value[0], '%', "\\%");
      ReplaceTwo('\\', value[0], '%', "\\%");
      DrawtextTextIsEscaped(value[1..]);
    }
  }

  lemma {:induction false} UnescapeEscaped(value: string, special: set<char>)
    requires '\\' in special
    ensures Unescape(Escaped(value, special)) == value
    ensures Guarded(Escaped(value, special), special)
  {
    if value == [] {
    } else {
      var rest := Escaped(value[1..], special);
      UnescapeEscaped(value[1..], special);
      if value[0] in special {
        assert (['\\', value[0]] + rest)[2..] == rest;
      } else {
        assert ([value[0]] + rest)[1..] == rest;
      }
    }
  }

  /** Unescaping gives the value back, and no colon, quote or (in drawtext
      text) percent sign of the value ends up bare. */
  lemma EscapedValuesReadBack(value: string)
    ensures Unescape(EscapeFilterValue(value)) == value
    ensures Guarded(EscapeFilterValue(value), OPTION)
    ensures Unescape(EscapeDrawtextText(value)) == value
    ensures Guarded(EscapeDrawtextText(value), OPTION + {'%'})
  {
    FilterValueIsEscaped(value);
    UnescapeEscaped(value, OPTION);
    DrawtextTextIsEscaped(value);
    UnescapeEscaped(value, OPTION + {'%'});
  }

  // ------------------------------------------------------------------
  // The doubly escaped format
  // ------------------------------------------------------------------

  function FormatUnit(x: char): string {
    if x == '\\' then "\\\\\\\\" else if x == ':' then "\\\\\\:" else if x == '\'' then "\\'" else [x]
  }

  lemma FormatAppend(a: string, b: string)
    ensures EscapeDrawtextExpansionFormat(a + b) == EscapeDrawtextExpansionFormat(a) + EscapeDrawtextExpansionFormat(b)
  {
    ReplaceAppend(a, b, '\\', "\\\\\\\\");
    var a1, b1 := Replace(a, '\\', "\\\\\\\\"), Replace(b, '\\', "\\\\\\\\");
    ReplaceAppend(a1, b1, ':', "\\\\\\:");
    ReplaceAppend(Replace(a1, ':', "\\\\\\:"), Replace(b1, ':', "\\\\\\:"), '\'', "\\'");
  }

  lemma ReplaceInPairs(a: char, b: char, x: char, y: char, c: char, text: string)
    requires c != a && c != b && c != x && c != y
    ensures Replace([a, b, x, y], c, text) == [a, b, x, y]
  {
    assert [a, b, x, y] == [a, b] + [x, y];
    ReplaceAppend([a, b], [x, y], c, text);
    ReplaceTwo(a, b, c, text);
    ReplaceTwo(x, y, c, text);
  }

  lemma FormatOfOne(x: char)
    ensures EscapeDrawtextExpansionFormat([x]) == FormatUnit(x)
  {
    ReplaceOne(x, '\\', "\\\\\\\\");
    ReplaceOne(x, ':', "\\\\\\:");
    ReplaceOne(x, '\'', "\\'");
    ReplaceInPairs('\\', '\\', '\\', '\\', ':', "\\\\\\:");
    ReplaceInPairs('\\', '\\', '\\', '\\', '\'', "\\'");
    ReplaceInPairs('\\', '\\', '\\', ':', '\'', "\\'");
  }

  lemma UnescapeUnit(x: char, rest: string)
    ensures Unescape(FormatUnit(x) + rest) == (if x in {'\\', ':'} then ['\\', x] else [x]) + Unescape(rest)
  {
    var s := FormatUnit(x) + rest;
    if x == '\\' || x == ':' {
      assert s[2..] == ['\\', x] + rest;
      assert s[2..][2..] == rest;
    } else if x == '\'' {
      assert s[2..] == rest;
    } else {
      assert s[1..] == rest;
    }
  }

  lemma {:induction false} FormatUnescapesOnce(value: string)
    ensures Unescape(EscapeDrawtextExpansionFormat(value)) == Escaped(value, {'\\', ':'})
  {
    if value == [] {
    } else {
      assert value == [value[0]] + value[1..];
      FormatAppend([value[0]], value[1..]);
      FormatOfOne(value[0]);
      UnescapeUnit(value[0], EscapeDrawtextExpansionFormat(value[1..]));
      FormatUnescapesOnce(value[1..]);
    }
  }

  /** The first unescaping still guards backslashes and colons, and the second
      gives the format back. */
  lemma FormatReadsBackInTwo(value: string)
    ensures var once := Unescape(EscapeDrawtextExpansionFormat(value));
      Guarded(once, {'\\', ':'}) && Unescape(once) == value
  {
    FormatUnescapesOnce(value);
    UnescapeEscaped(value, {'\\', ':'});
  }
}
