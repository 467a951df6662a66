/** What a drawn layer's filter says, read back from its text. */
module FilterMeaning {
  import opened Common
  import opened Overlay
  import opened Escape
  import opened FilterGraph
  import opened FilterReader
  import opened FilterValues
  import opened Expansion

  // ------------------------------------------------------------------
  // Values
  // ------------------------------------------------------------------

  /** Escaping guards no comma. */
  lemma {:induction false} EscapedComma(value: string, special: set<char>)
    requires special == OPTION
    ensures NoComma(Escaped(value, special)) <==> ',' !in value
  {
    if value == [] {
    } else {
      var rest, s := Escaped(value[1..], special), Escaped(value, special);
      EscapedComma(value[1..], special);
      assert value == [value[0]] + value[1..];
      var first := Tok(value[0], value[0] !in special);
      if value[0] in special {
        assert s[2..] == rest;
      } else {
        assert s[1..] == rest;
      }
      assert Lex(s, false) == [first] + Lex(rest, false);
      NoBareAppend([first], Lex(rest, false), ',');
      assert NoBare([first], ',') <==> [first][0] != Tok(',', true);
    }
  }

  /** A value escaped outside quotes. */
  lemma EscapedValue(value: string)
    ensures Value(EscapeFilterValue(value), value)
    ensures NoComma(EscapeFilterValue(value)) <==> ',' !in value
  {
    EscapedValuesReadBack(value);
    LexGuarded(EscapeFilterValue(value), OPTION, false);
    FilterValueIsEscaped(value);
    EscapedComma(value, OPTION);
  }

  /** And one between quotes. */
  lemma EscapedInQuotes(value: string)
    ensures Value("'" + EscapeFilterValue(value) + "'", value) && NoComma("'" + EscapeFilterValue(value) + "'")
    ensures NoBare(Lex("'" + EscapeFilterValue(value) + "'", false), '=')
  {
    EscapedValuesReadBack(value);
    QuotedValue(EscapeFilterValue(value), OPTION);
  }

  lemma BoxColor(color: string, value: Byte)
    ensures var s := EscapeFilterValue(color) + "@" + AlphaPercentToDecimal(value);
      Value(s, color + "@" + AlphaPercentToDecimal(value)) && (NoComma(s) <==> ',' !in color)
  {
    var alpha := AlphaPercentToDecimal(value);
    EscapedValue(color);
    AlphaRead(value);
    WordValue("@");
    WordValue(alpha);
    ValueAppend(EscapeFilterValue(color), color, "@", "@");
    ValueAppend(EscapeFilterValue(color) + "@", color + "@", alpha, alpha);
  }

  lemma PositionWords(position: Position, margin: nat)
    ensures var (x, y) := DrawtextPosition(position, margin); Word(x) && Word(y)
    ensures Word(OverlayX(position, margin)) && Word(OverlayY(position, margin))
  {
    DecimalRead(margin);
  }

  // ------------------------------------------------------------------
  // Options one by one
  // ------------------------------------------------------------------

  function WithOption(s: string, key: string, value: string): string {
    s + ([':'] + Keyed(key, value))
  }

  function WithSetting(filter: Filter, key: string, value: string): Filter {
    Filter(filter.name, filter.settings + [Setting(key, value)])
  }

  lemma NextWrote(s: string, filter: Filter, key: string, t: string, v: string)
    requires Wrote(s, filter) && Word(key) && Value(t, v)
    ensures Wrote(WithOption(s, key, t), WithSetting(filter, key, v)) && (NoComma(WithOption(s, key, t)) <==> NoComma(s) && NoComma(t))
  {
    KeyedOption(key, t, v);
    NextOption(s, filter, Keyed(key, t), Setting(key, v));
  }

  lemma NextWord(s: string, filter: Filter, key: string, t: string)
    requires Wrote(s, filter) && Word(key) && Word(t)
    ensures Wrote(WithOption(s, key, t), WithSetting(filter, key, t)) && (NoComma(WithOption(s, key, t)) <==> NoComma(s))
  {
    WordValue(t);
    NextWrote(s, filter, key, t, t);
  }

  lemma FirstWrote(name: string, key: string, t: string, v: string)
    requires Word(name) && Word(key) && Value(t, v)
    ensures Wrote(Keyed(name, Keyed(key, t)), Filter(name, [Setting(key, v)]))
    ensures NoComma(Keyed(name, Keyed(key, t))) <==> NoComma(t)
  {
    KeyedOption(key, t, v);
    FirstOption(name, Keyed(key, t), Setting(key, v));
  }

  /** The text written so far, and one more option behind it. */
  lemma NextShape(s: string, literal: string, key: string, value: string)
    requires literal == [':'] + key + ['=']
    ensures s + literal + value == WithOption(s, key, value)
  {
  }

  // ------------------------------------------------------------------
  // Drawn text
  // ------------------------------------------------------------------

  /** The drawing filter up to its text, its position, its font and its box. */
  function ToText(font: string, text: string): string {
    WithOption(Keyed("drawtext", Keyed("fontfile", "'" + EscapeFilterValue(font) + "'")), "text", "'" + text + "'")
  }

  function ToPosition(front: string, x: string, y: string): string {
    WithOption(WithOption(front, "x", x), "y", y)
  }

  function ToFont(front: string, size: string, color: string): string {
    WithOption(WithOption(front, "fontsize", size), "fontcolor", color)
  }

  function ToBox(front: string, color: string, padding: string): string {
    WithOption(WithOption(WithOption(front, "box", "1"), "boxcolor", color), "boxborderw", padding)
  }

  lemma TextShape(font: string, text: string, x: string)
    ensures "drawtext=fontfile='" + EscapeFilterValue(font) + "':text='" + text + "':x=" + x == WithOption(ToText(font, text), "x", x)
  {
    var f := EscapeFilterValue(font);
    var first := Keyed("drawtext", Keyed("fontfile", "'" + f + "'"));
    assert "drawtext=fontfile='" == "drawtext" + ['='] + "fontfile" + ['='] + "'";
    assert "drawtext=fontfile='" + f + "'" == first;
    assert "':text='" == "'" + ":text=" + "'";
    NextShape(first, ":text=", "text", "'" + text + "'");
    assert "drawtext=fontfile='" + f + "':text='" + text + "'" == ToText(font, text);
    assert "':x=" == "'" + ":x=";
    NextShape(ToText(font, text), ":x=", "x", x);
  }

  lemma BoxShape(front: string, color: string, alpha: string, padding: string)
    ensures front + ":box=1:boxcolor=" + color + "@" + alpha + ":boxborderw=" + padding
         == ToBox(front, color + "@" + alpha, padding)
  {
    assert ":box=1:boxcolor=" == ":box=" + "1" + ":boxcolor=";
    NextShape(front, ":box=", "box", "1");
    NextShape(WithOption(front, "box", "1"), ":boxcolor=", "boxcolor", color + "@" + alpha);
    NextShape(WithOption(WithOption(front, "box", "1"), "boxcolor", color + "@" + alpha), ":boxborderw=", "boxborderw", padding);
  }

  lemma DrawtextShape(font: string, text: string, style: Style)
    ensures var (x, y) := DrawtextPosition(style.position, style.margin);
      DrawtextFilter(font, text, style)
      == ToBox(ToFont(ToPosition(ToText(font, text), x, y), Decimal(style.fontSize), EscapeFilterValue(style.fontColor)),
               EscapeFilterValue(style.backgroundColor) + "@" + AlphaPercentToDecimal(style.backgroundAlpha),
               Decimal(style.padding))
  {
    var (x, y) := DrawtextPosition(style.position, style.margin);
    var size, color := Decimal(style.fontSize), EscapeFilterValue(style.fontColor);
    var front := ToText(font, text);
    TextShape(font, text, x);
    NextShape(WithOption(front, "x", x), ":y=", "y", y);
    NextShape(ToPosition(front, x, y), ":fontsize=", "fontsize", size);
    NextShape(WithOption(ToPosition(front, x, y), "fontsize", size), ":fontcolor=", "fontcolor", color);
    BoxShape(ToFont(ToPosition(front, x, y), size, color), EscapeFilterValue(style.backgroundColor),
             AlphaPercentToDecimal(style.backgroundAlpha), Decimal(style.padding));
  }

  lemma TextWrote(font: string, text: string, v: string)
    requires Value("'" + text + "'", v) && NoComma("'" + text + "'")
    ensures Wrote(ToText(font, text), Filter("drawtext", [Setting("fontfile", font), Setting("text", v)]))
    ensures NoComma(ToText(font, text))
  {
    var f := "'" + EscapeFilterValue(font) + "'";
    EscapedInQuotes(font);
    FirstWrote("drawtext", "fontfile", f, font);
    NextWrote(Keyed("drawtext", Keyed("fontfile", f)), Filter("drawtext", [Setting("fontfile", font)]),
              "text", "'" + text + "'", v);
  }

  lemma PositionWrote(s: string, filter: Filter, x: string, y: string)
    requires Wrote(s, filter) && Word(x) && Word(y)
    ensures Wrote(ToPosition(s, x, y), WithSetting(WithSetting(filter, "x", x), "y", y)) && (NoComma(ToPosition(s, x, y)) <==> NoComma(s))
  {
    NextWord(s, filter, "x", x);
    NextWord(WithOption(s, "x", x), WithSetting(filter, "x", x), "y", y);
  }

  lemma FontWrote(s: string, filter: Filter, size: string, color: string)
    requires Wrote(s, filter) && Word(size)
    ensures var t := ToFont(s, size, EscapeFilterValue(color));
      && Wrote(t, WithSetting(WithSetting(filter, "fontsize", size), "fontcolor", color))
      && (NoComma(t) <==> NoComma(s) && ',' !in color)
  {
    NextWord(s, filter, "fontsize", size);
    EscapedValue(color);
    NextWrote(WithOption(s, "fontsize", size), WithSetting(filter, "fontsize", size), "fontcolor", EscapeFilterValue(color), color);
  }

  lemma BoxWrote(s: string, filter: Filter, color: string, alpha: Byte, padding: string)
    requires Wrote(s, filter) && Word(padding)
    ensures var t := ToBox(s, EscapeFilterValue(color) + "@" + AlphaPercentToDecimal(alpha), padding);
      && Wrote(t, WithSetting(WithSetting(WithSetting(filter, "box", "1"), "boxcolor", color + "@" + AlphaPercentToDecimal(alpha)), "boxborderw", padding))
      && (NoComma(t) <==> NoComma(s) && ',' !in color)
  {
    var box := EscapeFilterValue(color) + "@" + AlphaPercentToDecimal(alpha);
    var read := color + "@" + AlphaPercentToDecimal(alpha);
    NextWord(s, filter, "box", "1");
    BoxColor(color, alpha);
    NextWrote(WithOption(s, "box", "1"), WithSetting(filter, "box", "1"), "boxcolor", box, read);
    NextWord(WithOption(WithOption(s, "box", "1"), "boxcolor", box), WithSetting(WithSetting(filter, "box", "1"), "boxcolor", read), "boxborderw", padding);
  }

  /** A filter with its options one behind the other. */
  lemma SevenMore(filter: Filter, x: string, y: string, size: string, color: string, box: string, padding: string)
    requires |filter.settings| == 2
    ensures var front := WithSetting(WithSetting(WithSetting(WithSetting(filter, "x", x), "y", y), "fontsize", size), "fontcolor", color);
      WithSetting(WithSetting(WithSetting(front, "box", "1"), "boxcolor", box), "boxborderw", padding)
      == Filter(filter.name, [filter.settings[0], filter.settings[1], Setting("x", x), Setting("y", y), Setting("fontsize", size),
                              Setting("fontcolor", color), Setting("box", "1"), Setting("boxcolor", box), Setting("boxborderw", padding)])
  {
  }

  /** The options as they are read, in order. */
  function DrawnFilter(font: string, text: string, style: Style): Filter {
    var (x, y) := DrawtextPosition(style.position, style.margin);
    Filter("drawtext", [Setting("fontfile", font), Setting("text", text), Setting("x", x), Setting("y", y),
                        Setting("fontsize", Decimal(style.fontSize)), Setting("fontcolor", style.fontColor), Setting("box", "1"),
                        Setting("boxcolor", style.backgroundColor + "@" + AlphaPercentToDecimal(style.backgroundAlpha)),
                        Setting("boxborderw", Decimal(style.padding))])
  }

  lemma DrawtextWrote(font: string, text: string, v: string, style: Style)
    requires Value("'" + text + "'", v) && NoComma("'" + text + "'")
    ensures Wrote(DrawtextFilter(font, text, style), DrawnFilter(font, v, style))
    ensures NoComma(DrawtextFilter(font, text, style)) <==> ',' !in style.fontColor && ',' !in style.backgroundColor
  {
    var (x, y) := DrawtextPosition(style.position, style.margin);
    var size, padding := Decimal(style.fontSize), Decimal(style.padding);
    var front := ToText(font, text);
    var start := Filter("drawtext", [Setting("fontfile", font), Setting("text", v)]);
    TextWrote(font, text, v);
    PositionWords(style.position, style.margin);
    PositionWrote(front, start, x, y);
    DecimalRead(style.fontSize);
    FontWrote(ToPosition(front, x, y), WithSetting(WithSetting(start, "x", x), "y", y), size, style.fontColor);
    DecimalRead(style.padding);
    BoxWrote(ToFont(ToPosition(front, x, y), size, EscapeFilterValue(style.fontColor)),
             WithSetting(WithSetting(WithSetting(WithSetting(start, "x", x), "y", y), "fontsize", size), "fontcolor", style.fontColor),
             style.backgroundColor, style.backgroundAlpha, padding);
    SevenMore(start, x, y, size, style.fontColor,
              style.backgroundColor + "@" + AlphaPercentToDecimal(style.backgroundAlpha), padding);
    DrawtextShape(font, text, style);
  }

  /** A drawing filter that draws with this font and style, whatever the sizes of
      the frame and of the text. */
  ghost predicate Draws(f: Filter, font: string, style: Style) {
    && f.name == "drawtext" && |f.settings| == 9
    && f.settings[0] == Setting("fontfile", font)
    && f.settings[1].key == "text"
    && f.settings[2].key == "x" && f.settings[3].key == "y"
    && (forall frameWidth, frameHeight, width, height ::
         var sizes := TextSizes(frameWidth, frameHeight, width, height);
         InCorner(Eval(f.settings[2].value, sizes), Eval(f.settings[3].value, sizes),
                  style.position, style.margin, frameWidth, frameHeight, width, height))
    && f.settings[4].key == "fontsize" && ReadNumber(f.settings[4].value) == Some(style.fontSize)
    && f.settings[5] == Setting("fontcolor", style.fontColor)
    && f.settings[6] == Setting("box", "1")
    && f.settings[7].key == "boxcolor"
    && ReadColor(f.settings[7].value) == Some((style.backgroundColor, style.backgroundAlpha as nat))
    && f.settings[8].key == "boxborderw" && ReadNumber(f.settings[8].value) == Some(style.padding)
  }

  lemma DrawnFilterDraws(font: string, text: string, style: Style)
    ensures Draws(DrawnFilter(font, text, style), font, style)
  {
    var f := DrawnFilter(font, text, style);
    DecimalRead(style.fontSize);
    DecimalRead(style.padding);
    ColorRead(style.backgroundColor, style.backgroundAlpha);
    forall frameWidth, frameHeight, width, height
      ensures var sizes := TextSizes(frameWidth, frameHeight, width, height);
        InCorner(Eval(f.settings[2].value, sizes), Eval(f.settings[3].value, sizes),
                 style.position, style.margin, frameWidth, frameHeight, width, height)
    {
      TextInCorner(style.position, style.margin, frameWidth, frameHeight, width, height);
    }
  }

  lemma OneDrawtext(font: string, text: string, v: string, style: Style)
    requires Value("'" + text + "'", v) && NoComma("'" + text + "'")
    ensures var chain := ReadChain(DrawtextFilter(font, text, style));
      && (|chain| == 1 <==> ',' !in style.fontColor && ',' !in style.backgroundColor)
      && (|chain| == 1 ==> Draws(chain[0], font, style) && chain[0].settings[1].value == v)
  {
    DrawtextWrote(font, text, v, style);
    OneFilter(DrawtextFilter(font, text, style));
    DrawnFilterDraws(font, v, style);
  }

  /** A text layer reads back as one drawing filter of its text in its style, if
      and only if its colours have no comma. */
  lemma TextReadsBack(font: string, text: string, style: Style)
    ensures var chain := ReadChain(ChainText(font, Lay(Layer.Text(text, style))));
      && (|chain| == 1 <==> ',' !in style.fontColor && ',' !in style.backgroundColor)
      && (|chain| == 1 ==> Draws(chain[0], font, style) && chain[0].settings[1].value == text)
  {
    EscapedValuesReadBack(text);
    QuotedValue(EscapeDrawtextText(text), OPTION + {'%'});
    OneDrawtext(font, EscapeDrawtextText(text), text, style);
  }

  // ------------------------------------------------------------------
  // The time
  // ------------------------------------------------------------------

  lemma {:induction false} StillGuarded(a: string, b: string, special: set<char>)
    requires Guarded(a, special)
    ensures Guarded(a + b, special) <==> Guarded(b, special)
    decreases |a|
  {
    if a == [] {
      assert a + b == b;
    } else if a[0] == '\\' {
      assert (a + b)[2..] == a[2..] + b;
      StillGuarded(a[2..], b, special);
    } else {
      assert (a + b)[1..] == a[1..] + b;
      StillGuarded(a[1..], b, special);
    }
  }

  lemma {:induction false} UnescapeAppend(a: string, b: string, special: set<char>)
    requires Guarded(a, special)
    ensures Unescape(a + b) == Unescape(a) + Unescape(b)
    decreases |a|
  {
    if a == [] {
      assert a + b == b;
    } else if a[0] == '\\' {
      assert (a + b)[2..] == a[2..] + b;
      UnescapeAppend(a[2..], b, special);
    } else {
      assert (a + b)[1..] == a[1..] + b;
      UnescapeAppend(a[1..], b, special);
    }
  }

  lemma GuardedAppend(a: string, b: string, special: set<char>)
    requires Guarded(a, special)
    ensures Guarded(a + b, special) <==> Guarded(b, special)
    ensures Unescape(a + b) == Unescape(a) + Unescape(b)
  {
    StillGuarded(a, b, special);
    UnescapeAppend(a, b, special);
  }

  const QUOTE: set<char> := {'\''}

  lemma UnitGuarded(x: char)
    ensures Guarded(FormatUnit(x), QUOTE)
  {
    var s := FormatUnit(x);
    if x == '\\' || x == ':' {
      assert s[2..] == ['\\', x] && s[2..][2..] == [];
    } else if x == '\'' {
      assert s[2..] == [];
    } else {
      assert s[1..] == [];
    }
  }

  lemma {:induction false} FormatGuarded(format: string)
    ensures Guarded(EscapeDrawtextExpansionFormat(format), QUOTE)
  {
    if format == [] {
    } else {
      assert format == [format[0]] + format[1..];
      FormatAppend([format[0]], format[1..]);
      FormatOfOne(format[0]);
      UnitGuarded(format[0]);
      FormatGuarded(format[1..]);
      GuardedAppend(FormatUnit(format[0]), EscapeDrawtextExpansionFormat(format[1..]), QUOTE);
    }
  }

  lemma {:induction false} PlainGuarded(s: string)
    requires forall i :: 0 <= i < |s| ==> s[i] != '\\' && s[i] != '\''
    ensures Guarded(s, QUOTE) && Unescape(s) == s
  {
    if s == [] {
    } else {
      PlainGuarded(s[1..]);
    }
  }

  /** The expansion as the filter writes it, and as its option reads. */
  lemma ClockIsRead(clock: string, format: string)
    requires Word(clock)
    ensures var s := "%{" + clock + "\\:" + EscapeDrawtextExpansionFormat(format) + "}";
      Guarded(s, QUOTE) && Unescape(s) == ClockText(clock, format)
  {
    var escaped, colon := EscapeDrawtextExpansionFormat(format), "\\:";
    PlainGuarded("%{" + clock);
    GuardedAppend("%{" + clock, colon, QUOTE);
    assert colon[2..] == [];
    assert Unescape(colon) == [':'];
    GuardedAppend("%{" + clock + colon, escaped, QUOTE);
    FormatGuarded(format);
    FormatUnescapesOnce(format);
    GuardedAppend("%{" + clock + colon + escaped, "}", QUOTE);
    PlainGuarded("}");
    assert "%{" + clock + [':'] + Escaped(format, TWICE) + "}" == ClockText(clock, format);
  }

  /** A timestamp layer reads back as one drawing filter in its style; its text is
      the clock of its timezone in its format, if and only if the format has
      neither a quote nor a closing brace. */
  lemma TimestampReadsBack(font: string, format: string, timezone: Timezone, style: Style)
    ensures var chain := ReadChain(ChainText(font, Lay(Timestamp(format, timezone, style))));
      var clock := if timezone.Utc? then "gmtime" else "localtime";
      && (|chain| == 1 <==> ',' !in style.fontColor && ',' !in style.backgroundColor)
      && (|chain| == 1 ==>
          && Draws(chain[0], font, style)
          && (ReadCall(chain[0].settings[1].value) == Some(Call(clock, [format], []))
              <==> '\'' !in format && '}' !in format))
  {
    if timezone.Utc? {
      ClockDrawn(font, "gmtime", format, style);
    } else {
      ClockDrawn(font, "localtime", format, style);
    }
  }

  lemma ClockDrawn(font: string, clock: string, format: string, style: Style)
    requires Word(clock) && '}' !in clock
    ensures var chain := ReadChain(DrawtextFilter(font, "%{" + clock + "\\:" + EscapeDrawtextExpansionFormat(format) + "}", style));
      && (|chain| == 1 <==> ',' !in style.fontColor && ',' !in style.backgroundColor)
      && (|chain| == 1 ==>
          && Draws(chain[0], font, style)
          && (ReadCall(chain[0].settings[1].value) == Some(Call(clock, [format], []))
              <==> '\'' !in format && '}' !in format))
  {
    var text := "%{" + clock + "\\:" + EscapeDrawtextExpansionFormat(format) + "}";
    ClockIsRead(clock, format);
    QuotedValue(text, QUOTE);
    OneDrawtext(font, text, ClockText(clock, format), style);
    ClockReadsBack(clock, format);
  }
}
