/** A reader of filter chains, and how it reads a chain piece by piece.  A
    backslash guards the character after it, quotes guard what is between them,
    and only unguarded commas, colons and equals signs separate. */
module FilterReader {
  import opened Common
  import opened Escape

  /** A character with its guards removed, and whether it had none. */
  datatype Tok = Tok(c: char, bare: bool)

  function Lex(s: string, quoted: bool): seq<Tok>
    decreases |s|
  {
    if s == [] then []
    else if s[0] == '\\' && |s| > 1 then [Tok(s[1], false)] + Lex(s[2..], quoted)
    else if s[0] == '\'' then Lex(s[1..], !quoted)
    else [Tok(s[0], !quoted)] + Lex(s[1..], quoted)
  }

  function Chars(toks: seq<Tok>): string {
    if toks == [] then [] else [toks[0].c] + Chars(toks[1..])
  }

  /** Where the first separator c is, or the end. */
  function Before(toks: seq<Tok>, c: char): (n: nat)
    ensures n <= |toks|
  {
    if toks == [] || toks[0] == Tok(c, true) then 0 else 1 + Before(toks[1..], c)
  }

  function SplitToks(toks: seq<Tok>, c: char): (parts: seq<seq<Tok>>)
    ensures parts != []
  {
    if toks == [] then [[]]
    else
      var rest := SplitToks(toks[1..], c);
      if toks[0] == Tok(c, true) then [[]] + rest else [[toks[0]] + rest[0]] + rest[1..]
  }

  /** An option of a filter; the key is empty when only a value is given. */
  datatype Setting = Setting(key: string, value: string)

  datatype Filter = Filter(name: string, settings: seq<Setting>)

  function ReadSetting(toks: seq<Tok>): Setting {
    var n := Before(toks, '=');
    if n == |toks| then Setting([], Chars(toks)) else Setting(Chars(toks[..n]), Chars(toks[n + 1..]))
  }

  function ReadSettings(parts: seq<seq<Tok>>): seq<Setting> {
    if parts == [] then [] else [ReadSetting(parts[0])] + ReadSettings(parts[1..])
  }

  function ReadFilter(toks: seq<Tok>): Filter {
    var n := Before(toks, '=');
    if n == |toks| then Filter(Chars(toks), [])
    else Filter(Chars(toks[..n]), ReadSettings(SplitToks(toks[n + 1..], ':')))
  }

  function ReadFilters(parts: seq<seq<Tok>>): seq<Filter> {
    if parts == [] then [] else [ReadFilter(parts[0])] + ReadFilters(parts[1..])
  }

  /** The filters of a chain. */
  function ReadChain(s: string): seq<Filter> {
    ReadFilters(SplitToks(Lex(s, false), ','))
  }

  // ------------------------------------------------------------------
  // Separators
  // ------------------------------------------------------------------

  predicate NoBare(toks: seq<Tok>, c: char) {
    forall i :: 0 <= i < |toks| ==> toks[i] != Tok(c, true)
  }

  lemma NoBareAppend(a: seq<Tok>, b: seq<Tok>, c: char)
    ensures NoBare(a + b, c) <==> NoBare(a, c) && NoBare(b, c)
  {
    if NoBare(a + b, c) {
      assert forall i :: 0 <= i < |a| ==> a[i] == (a + b)[i];
      assert forall i :: 0 <= i < |b| ==> b[i] == (a + b)[|a| + i];
    }
  }

  lemma {:induction false} SplitNoBare(toks: seq<Tok>, c: char)
    ensures |SplitToks(toks, c)| == 1 <==> NoBare(toks, c)
    ensures NoBare(toks, c) ==> SplitToks(toks, c) == [toks]
  {
    if toks == [] {
    } else {
      SplitNoBare(toks[1..], c);
      NoBareAppend([toks[0]], toks[1..], c);
      assert toks == [toks[0]] + toks[1..];
      assert NoBare([toks[0]], c) <==> [toks[0]][0] != Tok(c, true);
    }
  }

  /** Parts behind the last separator. */
  lemma {:induction false} SplitLast(a: seq<Tok>, b: seq<Tok>, c: char)
    requires NoBare(b, c)
    ensures SplitToks(a + ([Tok(c, true)] + b), c) == SplitToks(a, c) + [b]
    decreases |a|
  {
    var end := [Tok(c, true)] + b;
    if a == [] {
      assert a + end == end && end[1..] == b;
      SplitNoBare(b, c);
    } else {
      assert (a + end)[1..] == a[1..] + end;
      SplitLast(a[1..], b, c);
    }
  }

  lemma {:induction false} BeforeFirst(a: seq<Tok>, b: seq<Tok>, c: char)
    ensures Before(a, c) < |a| ==> Before(a + b, c) == Before(a, c)
    ensures NoBare(a, c) ==> Before(a, c) == |a| && Before(a + b, c) == |a| + Before(b, c)
    decreases |a|
  {
    if a == [] {
      assert a + b == b;
    } else {
      assert (a + b)[1..] == a[1..] + b;
      BeforeFirst(a[1..], b, c);
    }
  }

  lemma BeforeSeparator(front: seq<Tok>, back: seq<Tok>, c: char)
    requires NoBare(front, c)
    ensures var toks := front + ([Tok(c, true)] + back);
      Before(toks, c) == |front| && toks[..|front|] == front && toks[|front| + 1..] == back
  {
    var end := [Tok(c, true)] + back;
    BeforeFirst(front, end, c);
    assert end[0] == Tok(c, true);
    assert end[1..] == back;
    assert (front + end)[|front|..] == end;
  }

  lemma {:induction false} SettingsAppend(a: seq<seq<Tok>>, b: seq<Tok>)
    ensures ReadSettings(a + [b]) == ReadSettings(a) + [ReadSetting(b)]
  {
    if a == [] {
      assert a + [b] == [b];
    } else {
      assert (a + [b])[1..] == a[1..] + [b];
      SettingsAppend(a[1..], b);
    }
  }

  lemma {:induction false} FiltersAppend(a: seq<seq<Tok>>, b: seq<Tok>)
    ensures ReadFilters(a + [b]) == ReadFilters(a) + [ReadFilter(b)]
  {
    if a == [] {
      assert a + [b] == [b];
    } else {
      assert (a + [b])[1..] == a[1..] + [b];
      FiltersAppend(a[1..], b);
    }
  }

  lemma {:induction false} FilterCount(parts: seq<seq<Tok>>)
    ensures |ReadFilters(parts)| == |parts|
  {
    if parts == [] {
    } else {
      FilterCount(parts[1..]);
    }
  }

  // ------------------------------------------------------------------
  // Pieces of text
  // ------------------------------------------------------------------

  /** Whether a text ends inside quotes; None when it ends with a backslash that
      guards nothing. */
  function End(s: string, quoted: bool): Option<bool>
    decreases |s|
  {
    if s == [] then Some(quoted)
    else if s[0] == '\\' then (if |s| == 1 then None else End(s[2..], quoted))
    else if s[0] == '\'' then End(s[1..], !quoted)
    else End(s[1..], quoted)
  }

  lemma {:induction false} EndAppend(a: string, b: string, quoted: bool)
    requires End(a, quoted).Some?
    ensures End(a + b, quoted) == End(b, End(a, quoted).value)
    decreases |a|
  {
    if a == [] {
      assert a + b == b;
    } else if a[0] == '\\' {
      assert (a + b)[2..] == a[2..] + b;
      EndAppend(a[2..], b, quoted);
    } else {
      assert (a + b)[1..] == a[1..] + b;
      EndAppend(a[1..], b, if a[0] == '\'' then !quoted else quoted);
    }
  }

  lemma {:induction false} LexAppend(a: string, b: string, quoted: bool)
    requires End(a, quoted).Some?
    ensures Lex(a + b, quoted) == Lex(a, quoted) + Lex(b, End(a, quoted).value)
    decreases |a|
  {
    if a == [] {
      assert a + b == b;
    } else if a[0] == '\\' {
      assert (a + b)[2..] == a[2..] + b;
      LexAppend(a[2..], b, quoted);
      assert Lex(a + b, quoted) == [Tok(a[1], false)] + Lex(a[2..] + b, quoted);
    } else {
      assert (a + b)[1..] == a[1..] + b;
      LexAppend(a[1..], b, if a[0] == '\'' then !quoted else quoted);
    }
  }

  /** Text whose backslashes and quotes are all guarded reads as its unescaping. */
  lemma {:induction false} LexGuarded(g: string, special: set<char>, quoted: bool)
    requires '\'' in special && Guarded(g, special)
    ensures End(g, quoted) == Some(quoted) && Chars(Lex(g, quoted)) == Unescape(g)
    ensures forall c :: c in special || quoted ==> NoBare(Lex(g, quoted), c)
    decreases |g|
  {
    if g == [] {
    } else {
      var first := if g[0] == '\\' then Tok(g[1], false) else Tok(g[0], !quoted);
      var rest := if g[0] == '\\' then g[2..] else g[1..];
      LexGuarded(rest, special, quoted);
      assert Lex(g, quoted) == [first] + Lex(rest, quoted);
      forall c | c in special || quoted ensures NoBare(Lex(g, quoted), c) {
        NoBareAppend([first], Lex(rest, quoted), c);
      }
    }
  }

  /** A text that stands by itself and is read as v. */
  predicate Value(s: string, v: string) {
    End(s, false) == Some(false) && Chars(Lex(s, false)) == v && NoBare(Lex(s, false), ':')
  }

  predicate NoComma(s: string) {
    NoBare(Lex(s, false), ',')
  }

  /** Between quotes, nothing separates. */
  lemma QuotedValue(g: string, special: set<char>)
    requires '\'' in special && Guarded(g, special)
    ensures Value("'" + g + "'", Unescape(g))
    ensures forall c :: NoBare(Lex("'" + g + "'", false), c)
  {
    var s := "'" + g + "'";
    LexGuarded(g, special, true);
    assert s[0] == '\'' && s[1..] == g + "'";
    LexAppend(g, "'", true);
    EndAppend(g, "'", true);
    assert Lex("'", true) == [] && End("'", true) == Some(false);
    assert Lex(s, false) == Lex(g, true);
  }

  lemma {:induction false} LexPlain(t: string)
    requires forall i :: 0 <= i < |t| ==> t[i] != '\\' && t[i] != '\''
    ensures End(t, false) == Some(false) && Chars(Lex(t, false)) == t && |Lex(t, false)| == |t|
    ensures forall c :: NoBare(Lex(t, false), c) <==> c !in t
  {
    if t == [] {
    } else {
      LexPlain(t[1..]);
      assert t == [t[0]] + t[1..];
      var first, rest := [Tok(t[0], true)], Lex(t[1..], false);
      assert Lex(t, false) == first + rest;
      forall c ensures NoBare(Lex(t, false), c) <==> c !in t {
        NoBareAppend(first, rest, c);
        assert NoBare(first, c) <==> first[0] != Tok(c, true);
      }
    }
  }

  /** A name without any of the characters that the reader looks at. */
  predicate Word(s: string) {
    forall i :: 0 <= i < |s| ==> s[i] !in {'\\', '\'', ',', ':', '='}
  }

  lemma WordValue(s: string)
    requires Word(s)
    ensures Value(s, s) && NoComma(s) && NoBare(Lex(s, false), '=')
  {
    LexPlain(s);
  }

  lemma LexTwo(a: string, b: string)
    requires End(a, false) == Some(false)
    ensures Lex(a + b, false) == Lex(a, false) + Lex(b, false) && End(a + b, false) == End(b, false)
  {
    LexAppend(a, b, false);
    EndAppend(a, b, false);
  }

  /** A value put together from two. */
  lemma ValueAppend(s: string, v: string, t: string, w: string)
    requires Value(s, v) && Value(t, w)
    ensures Value(s + t, v + w) && (NoComma(s + t) <==> NoComma(s) && NoComma(t))
  {
    LexTwo(s, t);
    CharsAppend(Lex(s, false), Lex(t, false));
    NoBareAppend(Lex(s, false), Lex(t, false), ':');
    NoBareAppend(Lex(s, false), Lex(t, false), ',');
  }

  lemma {:induction false} CharsAppend(a: seq<Tok>, b: seq<Tok>)
    ensures Chars(a + b) == Chars(a) + Chars(b)
  {
    if a == [] {
      assert a + b == b;
    } else {
      assert (a + b)[1..] == a[1..] + b;
      CharsAppend(a[1..], b);
    }
  }

  predicate Separator(c: char) {
    c == ',' || c == ':' || c == '='
  }

  lemma LexSeparated(a: string, c: char, b: string)
    requires End(a, false) == Some(false) && Separator(c)
    ensures Lex(a + ([c] + b), false) == Lex(a, false) + ([Tok(c, true)] + Lex(b, false))
    ensures End(a + ([c] + b), false) == End(b, false)
  {
    LexTwo(a, [c] + b);
    assert ([c] + b)[1..] == b;
  }

  // ------------------------------------------------------------------
  // Options
  // ------------------------------------------------------------------

  function Keyed(key: string, value: string): string {
    key + (['='] + value)
  }

  lemma NoBareSeparated(a: seq<Tok>, sep: char, b: seq<Tok>, c: char)
    requires c != sep
    ensures NoBare(a + ([Tok(sep, true)] + b), c) <==> NoBare(a, c) && NoBare(b, c)
  {
    NoBareAppend([Tok(sep, true)], b, c);
    NoBareAppend(a, [Tok(sep, true)] + b, c);
    assert NoBare([Tok(sep, true)], c);
  }

  /** An option as read. */
  predicate Given(s: string, setting: Setting) {
    End(s, false) == Some(false) && ReadSetting(Lex(s, false)) == setting && NoBare(Lex(s, false), ':')
  }

  lemma KeyedOption(key: string, s: string, v: string)
    requires Word(key) && Value(s, v)
    ensures Given(Keyed(key, s), Setting(key, v)) && (NoComma(Keyed(key, s)) <==> NoComma(s))
  {
    WordValue(key);
    LexSeparated(key, '=', s);
    var front, back := Lex(key, false), Lex(s, false);
    NoBareSeparated(front, '=', back, ':');
    NoBareSeparated(front, '=', back, ',');
    KeyAndValue(front, back);
  }

  lemma KeyAndValue(front: seq<Tok>, back: seq<Tok>)
    requires NoBare(front, '=')
    ensures ReadSetting(front + ([Tok('=', true)] + back)) == Setting(Chars(front), Chars(back))
  {
    BeforeSeparator(front, back, '=');
  }

  lemma PositionalOption(s: string, v: string)
    requires Value(s, v) && NoBare(Lex(s, false), '=')
    ensures Given(s, Setting([], v))
  {
    BeforeFirst(Lex(s, false), [], '=');
  }

  // ------------------------------------------------------------------
  // Filters
  // ------------------------------------------------------------------

  /** A filter with its options so far. */
  predicate Wrote(s: string, filter: Filter) {
    && End(s, false) == Some(false)
    && Before(Lex(s, false), '=') < |Lex(s, false)|
    && ReadFilter(Lex(s, false)) == filter
  }

  lemma FirstOption(name: string, s: string, setting: Setting)
    requires Word(name) && Given(s, setting)
    ensures Wrote(Keyed(name, s), Filter(name, [setting])) && (NoComma(Keyed(name, s)) <==> NoComma(s))
  {
    WordValue(name);
    LexSeparated(name, '=', s);
    NoBareSeparated(Lex(name, false), '=', Lex(s, false), ',');
    OnlyOption(Lex(name, false), Lex(s, false));
  }

  lemma OnlyOption(front: seq<Tok>, back: seq<Tok>)
    requires NoBare(front, '=') && NoBare(back, ':')
    ensures var toks := front + ([Tok('=', true)] + back);
      Before(toks, '=') < |toks| && ReadFilter(toks) == Filter(Chars(front), [ReadSetting(back)])
  {
    BeforeSeparator(front, back, '=');
    SplitNoBare(back, ':');
    assert ReadSettings([back]) == [ReadSetting(back)];
  }

  lemma OneMoreOption(front: seq<Tok>, back: seq<Tok>)
    requires Before(front, '=') < |front| && NoBare(back, ':')
    ensures var toks := front + ([Tok(':', true)] + back);
      && Before(toks, '=') < |toks|
      && ReadFilter(toks) == Filter(ReadFilter(front).name, ReadFilter(front).settings + [ReadSetting(back)])
  {
    var more := [Tok(':', true)] + back;
    var toks, n := front + more, Before(front, '=');
    BeforeFirst(front, more, '=');
    assert toks[..n] == front[..n] && toks[n + 1..] == front[n + 1..] + more;
    SplitLast(front[n + 1..], back, ':');
    SettingsAppend(SplitToks(front[n + 1..], ':'), back);
  }

  lemma NextOption(s: string, filter: Filter, t: string, setting: Setting)
    requires Wrote(s, filter) && Given(t, setting)
    ensures Wrote(s + ([':'] + t), Filter(filter.name, filter.settings + [setting]))
    ensures NoComma(s + ([':'] + t)) <==> NoComma(s) && NoComma(t)
  {
    LexSeparated(s, ':', t);
    OneMoreOption(Lex(s, false), Lex(t, false));
    NoBareSeparated(Lex(s, false), ':', Lex(t, false), ',');
  }

  /** A filter of a name alone. */
  lemma NameAlone(name: string)
    requires Word(name)
    ensures End(name, false) == Some(false) && ReadFilter(Lex(name, false)) == Filter(name, []) && NoComma(name)
  {
    WordValue(name);
    BeforeFirst(Lex(name, false), [], '=');
  }

  /** One filter is read, if and only if no comma is left bare. */
  lemma OneFilter(s: string)
    ensures |ReadChain(s)| == 1 <==> NoComma(s)
    ensures NoComma(s) ==> ReadChain(s) == [ReadFilter(Lex(s, false))]
  {
    SplitNoBare(Lex(s, false), ',');
    FilterCount(SplitToks(Lex(s, false), ','));
    if NoComma(s) {
      var toks := Lex(s, false);
      assert ReadFilters([toks]) == [ReadFilter(toks)];
    }
  }

  lemma NextFilter(s: string, t: string)
    requires End(s, false) == Some(false) && NoComma(t)
    ensures ReadChain(s + ([','] + t)) == ReadChain(s) + [ReadFilter(Lex(t, false))]
    ensures End(s + ([','] + t), false) == End(t, false)
  {
    LexSeparated(s, ',', t);
    SplitLast(Lex(s, false), Lex(t, false), ',');
    FiltersAppend(SplitToks(Lex(s, false), ','), Lex(t, false));
  }

  lemma NameRead(name: string)
    requires Word(name)
    ensures ReadChain(name) == [Filter(name, [])]
  {
    NameAlone(name);
    OneFilter(name);
  }

  /** A filter with one value and no key. */
  lemma OneWord(name: string, value: string)
    requires Word(name) && Word(value)
    ensures var s := Keyed(name, value);
      && Wrote(s, Filter(name, [Setting([], value)])) && NoComma(s)
      && ReadChain(s) == [Filter(name, [Setting([], value)])]
  {
    WordValue(value);
    PositionalOption(value, value);
    FirstOption(name, value, Setting([], value));
    OneFilter(Keyed(name, value));
  }
}
