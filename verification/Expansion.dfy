/** The time expansion that a drawing filter replaces by the clock: how it reads
    back once the option it stands in has been read. */
module Expansion {
  import opened Common
  import opened Escape
  import opened FilterReader

  /** A function with its arguments, and the text behind it. */
  datatype Call = Call(name: string, arguments: seq<string>, rest: string)

  function CharsOfAll(parts: seq<seq<Tok>>): seq<string> {
    if parts == [] then [] else [Chars(parts[0])] + CharsOfAll(parts[1..])
  }

  /** What stands between `%{` and the next bare brace, cut at bare colons. */
  function ReadCall(s: string): Option<Call> {
    if |s| < 2 || s[0] != '%' || s[1] != '{' then None
    else
      var toks := Lex(s[2..], false);
      var n := Before(toks, '}');
      if n == |toks| then None
      else
        var parts := SplitToks(toks[..n], ':');
        Some(Call(Chars(parts[0]), CharsOfAll(parts[1..]), Chars(toks[n + 1..])))
  }

  const TWICE: set<char> := {'\\', ':'}

  /** The expansion as it is once its option has been read. */
  function ClockText(clock: string, format: string): string {
    "%{" + (clock + ([':'] + (Escaped(format, TWICE) + "}")))
  }

  /** The format's characters; backslashes and colons are guarded. */
  function Marked(format: string): seq<Tok> {
    if format == [] then [] else [Tok(format[0], format[0] !in TWICE)] + Marked(format[1..])
  }

  lemma {:induction false} LexMarked(format: string)
    requires '\'' !in format
    ensures Lex(Escaped(format, TWICE) + "}", false) == Marked(format) + [Tok('}', true)]
  {
    if format == [] {
      assert "}"[1..] == [];
      assert Escaped(format, TWICE) + "}" == "}";
    } else {
      var rest := Escaped(format[1..], TWICE) + "}";
      LexMarked(format[1..]);
      assert format == [format[0]] + format[1..];
      var s := Escaped(format, TWICE) + "}";
      if format[0] in TWICE {
        assert s == ['\\', format[0]] + rest && s[2..] == rest;
      } else {
        assert s == [format[0]] + rest && s[1..] == rest;
      }
    }
  }

  lemma {:induction false} MarkedAt(format: string)
    ensures |Marked(format)| == |format|
    ensures forall i :: 0 <= i < |format| ==> Marked(format)[i] == Tok(format[i], format[i] !in TWICE)
  {
    if format == [] {
    } else {
      MarkedAt(format[1..]);
    }
  }

  lemma {:induction false} MarkedChars(format: string)
    ensures Chars(Marked(format)) == format
  {
    if format == [] {
    } else {
      MarkedChars(format[1..]);
    }
  }

  lemma MarkedBare(format: string)
    ensures NoBare(Marked(format), ':')
    ensures '}' !in format ==> NoBare(Marked(format), '}')
  {
    MarkedAt(format);
  }

  function Quotes(s: string): nat {
    if s == [] then 0 else (if s[0] == '\'' then 1 else 0) + Quotes(s[1..])
  }

  lemma {:induction false} QuotesThere(s: string)
    ensures Quotes(s) == 0 <==> '\'' !in s
  {
    if s == [] {
    } else {
      QuotesThere(s[1..]);
      assert s == [s[0]] + s[1..];
    }
  }

  /** Quotes leave no character behind. */
  lemma {:induction false} QuotesVanish(format: string, quoted: bool)
    ensures |Lex(Escaped(format, TWICE) + "}", quoted)| + Quotes(format) == |format| + 1
  {
    if format == [] {
      assert "}"[1..] == [];
      assert Escaped(format, TWICE) + "}" == "}";
    } else {
      var rest := Escaped(format[1..], TWICE) + "}";
      var s := Escaped(format, TWICE) + "}";
      if format[0] in TWICE {
        QuotesVanish(format[1..], quoted);
        assert s == ['\\', format[0]] + rest && s[2..] == rest;
      } else {
        QuotesVanish(format[1..], if format[0] == '\'' then !quoted else quoted);
        assert s == [format[0]] + rest && s[1..] == rest;
      }
    }
  }

  lemma {:induction false} BeforeAtMost(toks: seq<Tok>, c: char, i: nat)
    requires i < |toks| && toks[i] == Tok(c, true)
    ensures Before(toks, c) <= i
  {
    if toks[0] != Tok(c, true) {
      BeforeAtMost(toks[1..], c, i - 1);
    }
  }

  lemma {:induction false} CharsLength(toks: seq<Tok>)
    ensures |Chars(toks)| == |toks|
  {
    if toks == [] {
    } else {
      CharsLength(toks[1..]);
    }
  }

  /** Two parts and their separator are the whole. */
  lemma {:induction false} LengthOfTwo(toks: seq<Tok>, c: char)
    requires |SplitToks(toks, c)| == 2
    ensures |SplitToks(toks, c)[0]| + 1 + |SplitToks(toks, c)[1]| == |toks|
  {
    var rest := SplitToks(toks[1..], c);
    if toks[0] == Tok(c, true) {
      SplitNoBare(toks[1..], c);
    } else {
      LengthOfTwo(toks[1..], c);
    }
  }

  lemma {:induction false} LengthOfAll(parts: seq<seq<Tok>>)
    ensures |CharsOfAll(parts)| == |parts|
  {
    if parts == [] {
    } else {
      LengthOfAll(parts[1..]);
    }
  }

  /** The tokens behind `%{`. */
  lemma LexClock(clock: string, format: string)
    requires Word(clock)
    ensures Lex(ClockText(clock, format)[2..], false)
         == Lex(clock, false) + ([Tok(':', true)] + Lex(Escaped(format, TWICE) + "}", false))
  {
    WordValue(clock);
    LexSeparated(clock, ':', Escaped(format, TWICE) + "}");
    assert ClockText(clock, format)[2..] == clock + ([':'] + (Escaped(format, TWICE) + "}"));
  }

  /** A call with one argument ends behind its name, colon and argument. */
  lemma CallLength(s: string, clock: string, format: string)
    requires ReadCall(s) == Some(Call(clock, [format], []))
    ensures var toks := Lex(s[2..], false); Before(toks, '}') == |clock| + 1 + |format| == |toks| - 1
  {
    var toks := Lex(s[2..], false);
    var n := Before(toks, '}');
    var parts := SplitToks(toks[..n], ':');
    CharsLength(toks[n + 1..]);
    LengthOfAll(parts[1..]);
    LengthOfTwo(toks[..n], ':');
    CharsLength(parts[0]);
    CharsLength(parts[1]);
    assert CharsOfAll(parts[1..])[0] == Chars(parts[1]);
  }

  lemma CallOfTwo(name: seq<Tok>, argument: seq<Tok>)
    requires NoBare(name, ':') && NoBare(argument, ':')
    ensures var parts := SplitToks(name + ([Tok(':', true)] + argument), ':');
      Chars(parts[0]) == Chars(name) && CharsOfAll(parts[1..]) == [Chars(argument)]
  {
    SplitNoBare(name, ':');
    SplitLast(name, argument, ':');
    var parts := SplitToks(name + ([Tok(':', true)] + argument), ':');
    assert parts == [name] + [argument];
    assert parts[1..] == [argument];
    assert CharsOfAll([]) == [];
  }

  lemma PlainFormat(clock: string, format: string)
    requires Word(clock) && '}' !in clock && '\'' !in format && '}' !in format
    ensures ReadCall(ClockText(clock, format)) == Some(Call(clock, [format], []))
  {
    WordValue(clock);
    LexPlain(clock);
    LexClock(clock, format);
    LexMarked(format);
    MarkedBare(format);
    MarkedChars(format);
    var name, argument := Lex(clock, false), Marked(format);
    var front := name + ([Tok(':', true)] + argument);
    var toks := Lex(ClockText(clock, format)[2..], false);
    assert toks == front + ([Tok('}', true)] + []);
    NoBareSeparated(name, ':', argument, '}');
    BeforeSeparator(front, [], '}');
    CallOfTwo(name, argument);
    assert ClockText(clock, format)[0] == '%' && ClockText(clock, format)[1] == '{';
  }

  lemma SpecialFormat(clock: string, format: string)
    requires Word(clock) && ('\'' in format || '}' in format)
    ensures ReadCall(ClockText(clock, format)) != Some(Call(clock, [format], []))
  {
    var s := ClockText(clock, format);
    var toks := Lex(s[2..], false);
    LexPlain(clock);
    LexClock(clock, format);
    QuotesVanish(format, false);
    QuotesThere(format);
    if ReadCall(s) == Some(Call(clock, [format], [])) {
      CallLength(s, clock, format);
      LexMarked(format);
      MarkedAt(format);
      var i :| 0 <= i < |format| && format[i] == '}';
      assert toks[|clock| + 1 + i] == Marked(format)[i];
      BeforeAtMost(toks, '}', |clock| + 1 + i);
    }
  }

  /** The expansion names its clock and its format, if and only if the format
      has neither a quote nor a closing brace. */
  lemma ClockReadsBack(clock: string, format: string)
    requires Word(clock) && '}' !in clock
    ensures ReadCall(ClockText(clock, format)) == Some(Call(clock, [format], []))
       <==> '\'' !in format && '}' !in format
  {
    if '\'' !in format && '}' !in format {
      PlainFormat(clock, format);
    } else {
      SpecialFormat(clock, format);
    }
  }
}
