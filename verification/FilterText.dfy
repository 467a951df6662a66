/** Reading a filter-graph description back: at semicolons into segments, and at
    brackets into labels and chains. */
module FilterText {
  import opened Common
  import opened Overlay
  import opened Escape
  import opened FilterGraph

  // ------------------------------------------------------------------
  // Segments
  // ------------------------------------------------------------------

  function SplitAt(s: string, c: char): (parts: seq<string>)
    ensures parts != []
  {
    if s == [] then [[]]
    else
      var rest := SplitAt(s[1..], c);
      if s[0] == c then [[]] + rest else [[s[0]] + rest[0]] + rest[1..]
  }

  function Count(s: string, c: char): nat {
    if s == [] then 0 else (if s[0] == c then 1 else 0) + Count(s[1..], c)
  }

  lemma {:induction false} PartsOfSplit(s: string, c: char)
    ensures |SplitAt(s, c)| == Count(s, c) + 1
  {
    if s == [] {
    } else {
      PartsOfSplit(s[1..], c);
    }
  }

  lemma {:induction false} CountAppend(a: string, b: string, c: char)
    ensures Count(a + b, c) == Count(a, c) + Count(b, c)
  {
    if a == [] {
      assert a + b == b;
    } else {
      assert (a + b)[1..] == a[1..] + b;
      CountAppend(a[1..], b, c);
    }
  }

  lemma {:induction false} CountPositive(s: string, c: char)
    ensures Count(s, c) > 0 <==> c in s
  {
    if s == [] {
    } else {
      CountPositive(s[1..], c);
      assert s == [s[0]] + s[1..];
    }
  }

  lemma {:induction false} SplitFirst(a: string, b: string, c: char)
    requires c !in a
    ensures SplitAt(a + [c] + b, c) == [a] + SplitAt(b, c)
  {
    var s := a + [c] + b;
    if a == [] {
      assert s == [c] + b && s[1..] == b;
    } else {
      assert s[1..] == a[1..] + [c] + b;
      assert a == [a[0]] + a[1..];
      SplitFirst(a[1..], b, c);
    }
  }

  lemma {:induction false} SplitNone(a: string, c: char)
    requires c !in a
    ensures SplitAt(a, c) == [a]
  {
    if a == [] {
    } else {
      SplitNone(a[1..], c);
      assert a == [a[0]] + a[1..];
    }
  }

  function CountAll(parts: seq<string>, c: char): nat {
    if parts == [] then 0 else Count(parts[0], c) + CountAll(parts[1..], c)
  }

  lemma {:induction false} CountJoined(parts: seq<string>)
    requires parts != []
    ensures Count(Joined(parts), ';') == CountAll(parts, ';') + |parts| - 1
  {
    if |parts| == 1 {
      assert CountAll(parts[1..], ';') == 0;
    } else {
      CountJoined(parts[1..]);
      CountAppend(parts[0] + ";", Joined(parts[1..]), ';');
      CountAppend(parts[0], ";", ';');
      assert Count(";", ';') == 1;
    }
  }

  lemma JoinedMore(parts: seq<string>)
    requires |parts| > 1
    ensures Joined(parts) == parts[0] + [';'] + Joined(parts[1..])
  {
    assert ";" == [';'];
  }

  /** Splitting undoes joining when no part has a semicolon. */
  lemma {:induction false} SplitJoined(parts: seq<string>)
    requires parts != [] && forall i :: 0 <= i < |parts| ==> ';' !in parts[i]
    ensures SplitAt(Joined(parts), ';') == parts
  {
    if |parts| == 1 {
      SplitNone(parts[0], ';');
    } else {
      SplitJoined(parts[1..]);
      JoinedMore(parts);
      SplitFirst(parts[0], Joined(parts[1..]), ';');
      assert parts == [parts[0]] + parts[1..];
    }
  }

  lemma {:induction false} CountAllZero(parts: seq<string>, c: char)
    ensures CountAll(parts, c) == 0 <==> forall i :: 0 <= i < |parts| ==> c !in parts[i]
  {
    if parts == [] {
    } else {
      CountAllZero(parts[1..], c);
      CountPositive(parts[0], c);
      assert forall i :: 0 < i < |parts| ==> parts[i] == parts[1..][i - 1];
    }
  }

  lemma MorePartsThanJoined(parts: seq<string>)
    requires parts != [] && exists i :: 0 <= i < |parts| && ';' in parts[i]
    ensures |SplitAt(Joined(parts), ';')| > |parts|
  {
    PartsOfSplit(Joined(parts), ';');
    CountJoined(parts);
    CountAllZero(parts, ';');
  }

  // ------------------------------------------------------------------
  // Labels and chains
  // ------------------------------------------------------------------

  function Until(s: string, c: char): (n: nat)
    ensures n <= |s| && c !in s[..n] && (n < |s| ==> s[n] == c)
  {
    if s == [] || s[0] == c then 0
    else
      var n := 1 + Until(s[1..], c);
      assert s[..n] == [s[0]] + s[1..][..n - 1];
      n
  }

  /** The names in brackets at the front, and what follows them. */
  function Tags(s: string): (seq<string>, string)
    decreases |s|
  {
    if s == [] || s[0] != '[' then ([], s)
    else
      var n := Until(s[1..], ']');
      if n == |s[1..]| then ([], s)
      else
        var (names, rest) := Tags(s[n + 2..]);
        ([s[1..1 + n]] + names, rest)
  }

  /** A segment as it is read: labels, chain, labels. */
  datatype Part = Part(inputs: seq<string>, chain: string, outputs: seq<string>)

  function ReadPart(s: string): Part {
    var (inputs, rest) := Tags(s);
    var n := Until(rest, '[');
    Part(inputs, rest[..n], Tags(rest[n..]).0)
  }

  function ReadBack(spec: string): seq<Part> {
    var parts := SplitAt(spec, ';');
    seq(|parts|, i requires 0 <= i < |parts| => ReadPart(parts[i]))
  }

  function Names(labels: seq<Label>): seq<string> {
    if labels == [] then [] else [Name(labels[0])] + Names(labels[1..])
  }

  function PartOf(font: string, s: Segment): Part {
    Part(Names(s.inputs), ChainText(font, s.chain), [Name(s.output)])
  }

  predicate Plain(c: char) {
    c != ';' && c != '[' && c != ']'
  }

  lemma {:induction false} DecimalIsPlain(n: nat)
    ensures forall c :: c in Decimal(n) ==> Plain(c)
  {
    if n < 10 {
      assert Decimal(n) == [Digit(n)];
      DigitIsPlain(n);
    } else {
      DecimalIsPlain(n / 10);
      DigitIsPlain(n % 10);
      assert Decimal(n) == Decimal(n / 10) + [Digit(n % 10)];
    }
  }

  lemma DigitIsPlain(n: nat)
    requires n < 10
    ensures Plain(Digit(n))
  {
  }

  lemma NameIsPlain(name: Label)
    ensures forall c :: c in Name(name) ==> Plain(c)
  {
    if name.Stage? || name.Mark? {
      DecimalIsPlain(name.index);
    }
  }

  lemma OneTag(name: string, rest: string)
    requires ']' !in name
    ensures Tags(Tag(name) + rest) == (var more := Tags(rest); ([name] + more.0, more.1))
  {
    var s := Tag(name) + rest;
    assert s[0] == '[' && s[1..] == name + "]" + rest;
    UntilPast(name, rest, ']');
    assert s[1..1 + |name|] == name && s[|name| + 2..] == rest;
  }

  lemma {:induction false} UntilPast(a: string, b: string, c: char)
    requires c !in a
    ensures Until(a + [c] + b, c) == |a|
  {
    if a == [] {
      assert a + [c] + b == [c] + b;
    } else {
      assert (a + [c] + b)[1..] == a[1..] + [c] + b;
      assert a == [a[0]] + a[1..];
      UntilPast(a[1..], b, c);
    }
  }

  lemma NextTag(labels: seq<Label>, rest: string)
    requires labels != []
    ensures Bracketed(labels) + rest == Tag(Name(labels[0])) + (Bracketed(labels[1..]) + rest)
  {
    Associative(Tag(Name(labels[0])), Bracketed(labels[1..]), rest);
  }

  lemma Associative(a: string, b: string, c: string)
    ensures (a + b) + c == a + (b + c)
  {
  }

  lemma {:induction false} TagsOfLabels(labels: seq<Label>, rest: string)
    requires rest == [] || rest[0] != '['
    ensures Tags(Bracketed(labels) + rest) == (Names(labels), rest)
  {
    if labels == [] {
      assert [] + rest == rest;
    } else {
      NameIsPlain(labels[0]);
      TagsOfLabels(labels[1..], rest);
      NextTag(labels, rest);
      OneTag(Name(labels[0]), Bracketed(labels[1..]) + rest);
    }
  }

  lemma ChainIsThere(font: string, chain: Chain)
    ensures ChainText(font, chain) != []
  {
    match chain
    case Rotate(rotation) => assert |FilterSpec(rotation)| > 0;
    case Movie(_, _, _) =>
    case Lay(layer) => LayerFilterIsThere(font, layer);
    case Pass =>
  }

  lemma LayerFilterIsThere(font: string, layer: Layer)
    ensures LayerFilter(font, layer) != []
  {
  }

  /** A segment is read back exactly when its chain has no opening bracket. */
  lemma ReadsBackPart(font: string, s: Segment)
    ensures ReadPart(Written(font, s)) == PartOf(font, s) <==> '[' !in ChainText(font, s.chain)
  {
    var chain, name := ChainText(font, s.chain), Name(s.output);
    if '[' !in chain {
      ChainIsThere(font, s.chain);
      NameIsPlain(s.output);
      WrittenForm(font, s);
      ReadsChain(s.inputs, chain, name);
    }
  }

  lemma WrittenForm(font: string, s: Segment)
    ensures Written(font, s) == Bracketed(s.inputs) + (ChainText(font, s.chain) + Tag(Name(s.output)))
  {
    assert Bracketed([s.output]) == Tag(Name(s.output));
  }

  lemma AfterChain(chain: string, name: string)
    requires chain != [] && '[' !in chain
    ensures var rest := chain + Tag(name);
      && rest[0] != '[' && Until(rest, '[') == |chain|
      && rest[..|chain|] == chain && rest[|chain|..] == Tag(name)
  {
    var rest, tail := chain + Tag(name), name + "]";
    assert rest[0] == chain[0] && chain[0] in chain;
    assert Tag(name) == ['['] + tail;
    assert rest == chain + ['['] + tail;
    UntilPast(chain, tail, '[');
  }

  lemma TagAlone(name: string)
    requires ']' !in name
    ensures Tags(Tag(name)) == ([name], [])
  {
    assert Tag(name) + [] == Tag(name);
    OneTag(name, []);
    assert [name] + [] == [name];
  }

  lemma ReadsChain(inputs: seq<Label>, chain: string, name: string)
    requires chain != [] && '[' !in chain && ']' !in name
    ensures ReadPart(Bracketed(inputs) + (chain + Tag(name))) == Part(Names(inputs), chain, [name])
  {
    AfterChain(chain, name);
    TagsOfLabels(inputs, chain + Tag(name));
    TagAlone(name);
  }

  /** The text holds a character that would be read as the end of a segment or
      the beginning of a label. */
  predicate Breaks(text: string) {
    ';' in text || '[' in text
  }

  ghost predicate Readable(font: string, segments: seq<Segment>) {
    forall i :: 0 <= i < |segments| ==> !Breaks(ChainText(font, segments[i].chain))
  }

  lemma {:induction false} NoBreakInTags(labels: seq<Label>)
    ensures ';' !in Bracketed(labels)
  {
    if labels == [] {
    } else {
      NameIsPlain(labels[0]);
      NoBreakInTags(labels[1..]);
    }
  }

  lemma SemicolonInWritten(font: string, s: Segment)
    ensures ';' in Written(font, s) <==> ';' in ChainText(font, s.chain)
  {
    NoBreakInTags(s.inputs);
    NoBreakInTags([s.output]);
  }

  function Parts(font: string, segments: seq<Segment>): seq<Part> {
    seq(|segments|, i requires 0 <= i < |segments| => PartOf(font, segments[i]))
  }

  /** The text reads back as its segments exactly when no chain in it holds a
      semicolon or an opening bracket. */
  lemma ReadsBackExactly(font: string, segments: seq<Segment>)
    requires segments != []
    ensures ReadBack(Joined(AllWritten(font, segments))) == Parts(font, segments) <==> Readable(font, segments)
  {
    var written := AllWritten(font, segments);
    forall i | 0 <= i < |segments|
      ensures ';' in written[i] <==> ';' in ChainText(font, segments[i].chain)
      ensures ReadPart(written[i]) == PartOf(font, segments[i]) <==> '[' !in ChainText(font, segments[i].chain)
    {
      SemicolonInWritten(font, segments[i]);
      ReadsBackPart(font, segments[i]);
    }
    if exists i :: 0 <= i < |written| && ';' in written[i] {
      MorePartsThanJoined(written);
    } else {
      SplitJoined(written);
      var read, parts := ReadBack(Joined(written)), Parts(font, segments);
      if read == parts {
        forall i | 0 <= i < |segments| ensures ReadPart(written[i]) == PartOf(font, segments[i]) {
          assert read[i] == parts[i];
        }
      }
    }
  }

  // ------------------------------------------------------------------
  // The values that go into a chain
  // ------------------------------------------------------------------

  /** One of the strings that a manifest or the installation puts into the
      chain holds such a character. */
  predicate ValuesBreak(font: string, chain: Chain) {
    match chain
    case Movie(imagePath, _, _) => Breaks(imagePath)
    case Lay(Timestamp(format, _, style)) => Breaks(font) || Breaks(format) || StyleBreaks(style)
    case Lay(Text(text, style)) => Breaks(font) || Breaks(text) || StyleBreaks(style)
    case _ => false
  }

  predicate StyleBreaks(style: Style) {
    Breaks(style.fontColor) || Breaks(style.backgroundColor)
  }

  lemma {:induction false} EscapedHolds(value: string, special: set<char>, c: char)
    requires c != '\\'
    ensures c in Escaped(value, special) <==> c in value
  {
    if value == [] {
    } else {
      EscapedHolds(value[1..], special, c);
      assert value == [value[0]] + value[1..];
    }
  }

  lemma EscapedBreaks(value: string)
    ensures Breaks(EscapeFilterValue(value)) <==> Breaks(value)
    ensures Breaks(EscapeDrawtextText(value)) <==> Breaks(value)
  {
    FilterValueIsEscaped(value);
    DrawtextTextIsEscaped(value);
    EscapedHolds(value, OPTION, ';');
    EscapedHolds(value, OPTION, '[');
    EscapedHolds(value, OPTION + {'%'}, ';');
    EscapedHolds(value, OPTION + {'%'}, '[');
  }

  lemma {:induction false} FormatBreaks(value: string)
    ensures Breaks(EscapeDrawtextExpansionFormat(value)) <==> Breaks(value)
  {
    if value == [] {
    } else {
      var rest := EscapeDrawtextExpansionFormat(value[1..]);
      assert value == [value[0]] + value[1..];
      FormatAppend([value[0]], value[1..]);
      FormatOfOne(value[0]);
      FormatBreaks(value[1..]);
      UnitBreaks(value[0]);
    }
  }

  lemma UnitBreaks(c: char)
    ensures Breaks(FormatUnit(c)) <==> c == ';' || c == '['
  {
  }

  lemma DecimalHolds(n: nat)
    ensures !Breaks(Decimal(n))
  {
    DecimalIsPlain(n);
  }

  lemma AlphaHolds(value: Byte)
    ensures !Breaks(AlphaPercentToDecimal(value))
  {
    DecimalHolds(value / 100);
    DigitIsPlain(value / 10 % 10);
    DigitIsPlain(value % 10);
  }

  lemma PositionHolds(position: Position, margin: nat)
    ensures !Breaks(DrawtextPosition(position, margin).0) && !Breaks(DrawtextPosition(position, margin).1)
    ensures !Breaks(OverlayPosition(position, margin))
  {
    DecimalHolds(margin);
  }

  lemma BreaksAppend(a: string, b: string)
    ensures Breaks(a + b) <==> Breaks(a) || Breaks(b)
  {
  }

  /** A fixed piece of text and a value behind what there is. */
  lemma BreaksMore(a: string, fixed: string, value: string)
    requires !Breaks(fixed)
    ensures Breaks(a + fixed + value) <==> Breaks(a) || Breaks(value)
  {
    BreaksAppend(a + fixed, value);
    BreaksAppend(a, fixed);
  }

  /** The first half of a drawtext filter, and what comes behind it. */
  lemma FrontBreaks(font: string, text: string, x: string, y: string)
    requires !Breaks(x) && !Breaks(y)
    ensures Breaks("drawtext=fontfile='" + font + "':text='" + text + "':x=" + x + ":y=" + y)
       <==> Breaks(font) || Breaks(text)
  {
    var a := "drawtext=fontfile='" + font;
    BreaksAppend("drawtext=fontfile='", font);
    var b := a + "':text='" + text;
    BreaksMore(a, "':text='", text);
    var c := b + "':x=" + x;
    BreaksMore(b, "':x=", x);
    BreaksMore(c, ":y=", y);
  }

  lemma BackBreaks(front: string, size: string, color: string, background: string, alpha: string, padding: string)
    requires !Breaks(size) && !Breaks(alpha) && !Breaks(padding)
    ensures Breaks(front + ":fontsize=" + size + ":fontcolor=" + color + ":box=1:boxcolor=" + background + "@" + alpha
                   + ":boxborderw=" + padding)
       <==> Breaks(front) || Breaks(color) || Breaks(background)
  {
    var a := front + ":fontsize=" + size;
    BreaksMore(front, ":fontsize=", size);
    var b := a + ":fontcolor=" + color;
    BreaksMore(a, ":fontcolor=", color);
    var c := b + ":box=1:boxcolor=" + background;
    BreaksMore(b, ":box=1:boxcolor=", background);
    var d := c + "@" + alpha;
    BreaksMore(c, "@", alpha);
    BreaksMore(d, ":boxborderw=", padding);
  }

  lemma DrawtextBreaks(font: string, text: string, style: Style)
    ensures Breaks(DrawtextFilter(font, text, style)) <==> Breaks(font) || Breaks(text) || StyleBreaks(style)
  {
    var (x, y) := DrawtextPosition(style.position, style.margin);
    PositionHolds(style.position, style.margin);
    DecimalHolds(style.fontSize);
    DecimalHolds(style.padding);
    AlphaHolds(style.backgroundAlpha);
    EscapedBreaks(font);
    EscapedBreaks(style.fontColor);
    EscapedBreaks(style.backgroundColor);
    var front := "drawtext=fontfile='" + EscapeFilterValue(font) + "':text='" + text + "':x=" + x + ":y=" + y;
    FrontBreaks(EscapeFilterValue(font), text, x, y);
    BackBreaks(front, Decimal(style.fontSize), EscapeFilterValue(style.fontColor), EscapeFilterValue(style.backgroundColor),
               AlphaPercentToDecimal(style.backgroundAlpha), Decimal(style.padding));
  }

  lemma TimestampBreaks(font: string, format: string, timezone: Timezone, style: Style)
    ensures Breaks(TimestampFilter(font, format, timezone, style)) <==> Breaks(font) || Breaks(format) || StyleBreaks(style)
  {
    var clock := if timezone == Utc then "gmtime" else "localtime";
    var text := "%{" + clock + "\\:" + EscapeDrawtextExpansionFormat(format) + "}";
    FormatBreaks(format);
    DrawtextBreaks(font, text, style);
    assert Breaks(text) <==> Breaks(format);
  }

  lemma WatermarkBreaks(imagePath: string, maxWidth: Option<nat>, opacity: Byte)
    ensures Breaks(WatermarkChain(imagePath, maxWidth, opacity)) <==> Breaks(imagePath)
  {
    var movie := "movie='" + EscapeFilterValue(imagePath) + "'";
    var scale := if maxWidth.Some? then ",scale=w=" + Decimal(maxWidth.value) + ":h=-1:force_original_aspect_ratio=decrease" else "";
    var mixer := if opacity < 100 then ",format=rgba" + ",colorchannelmixer=aa=" + AlphaPercentToDecimal(opacity) else "";
    EscapedBreaks(imagePath);
    BreaksAppend("movie='", EscapeFilterValue(imagePath));
    BreaksAppend("movie='" + EscapeFilterValue(imagePath), "'");
    ScaleHolds(maxWidth);
    MixerHolds(opacity);
    BreaksAppend(movie, scale);
    BreaksAppend(movie + scale, mixer);
  }

  lemma ScaleHolds(maxWidth: Option<nat>)
    ensures !Breaks(if maxWidth.Some? then ",scale=w=" + Decimal(maxWidth.value) + ":h=-1:force_original_aspect_ratio=decrease" else "")
  {
    if maxWidth.Some? {
      DecimalHolds(maxWidth.value);
      BreaksMore(",scale=w=", Decimal(maxWidth.value), ":h=-1:force_original_aspect_ratio=decrease");
    }
  }

  lemma MixerHolds(opacity: Byte)
    ensures !Breaks(if opacity < 100 then ",format=rgba" + ",colorchannelmixer=aa=" + AlphaPercentToDecimal(opacity) else "")
  {
    AlphaHolds(opacity);
    BreaksMore(",format=rgba", ",colorchannelmixer=aa=", AlphaPercentToDecimal(opacity));
  }

  lemma LayBreaks(font: string, layer: Layer)
    ensures Breaks(LayerFilter(font, layer)) <==> ValuesBreak(font, Lay(layer))
  {
    match layer
    case Timestamp(format, timezone, style) => TimestampBreaks(font, format, timezone, style);
    case Text(text, style) =>
      EscapedBreaks(text);
      DrawtextBreaks(font, EscapeDrawtextText(text), style);
    case Watermark(_, position, _, _, margin) => PositionHolds(position, margin);
  }

  lemma ChainBreaks(font: string, chain: Chain)
    ensures Breaks(ChainText(font, chain)) <==> ValuesBreak(font, chain)
  {
    match chain
    case Rotate(_) =>
    case Movie(imagePath, maxWidth, opacity) => WatermarkBreaks(imagePath, maxWidth, opacity);
    case Lay(layer) => LayBreaks(font, layer);
    case Pass =>
  }

  // ------------------------------------------------------------------
  // Whole overlays
  // ------------------------------------------------------------------

  /** A value of the layer holds such a character. */
  predicate LayerBreaks(font: string, layer: Layer) {
    if layer.Watermark? then Breaks(layer.imagePath) else ValuesBreak(font, Lay(layer))
  }

  ghost predicate Clean(font: string, segments: seq<Segment>) {
    forall i :: 0 <= i < |segments| ==> !ValuesBreak(font, segments[i].chain)
  }

  lemma CleanAppend(font: string, a: seq<Segment>, b: seq<Segment>)
    ensures Clean(font, a + b) <==> Clean(font, a) && Clean(font, b)
  {
    var all := a + b;
    if Clean(font, all) {
      assert forall i :: 0 <= i < |a| ==> a[i] == all[i];
      assert forall i :: 0 <= i < |b| ==> b[i] == all[|a| + i];
    }
  }

  lemma LayerClean(font: string, layer: Layer, index: nat)
    ensures Clean(font, LayerSegments(layer, index)) <==> !LayerBreaks(font, layer)
  {
    var segments := LayerSegments(layer, index);
    if layer.Watermark? {
      assert segments[0].chain == Movie(layer.imagePath, layer.maxWidth, layer.opacity) && segments[1].chain == Lay(layer);
    } else {
      assert segments[0].chain == Lay(layer);
    }
  }

  lemma {:induction false} FirstClean(font: string, rotation: Rotation, layers: seq<Layer>, n: nat)
    requires n <= |layers|
    ensures Clean(font, FirstSegments(rotation, layers, n)) <==> forall i :: 0 <= i < n ==> !LayerBreaks(font, layers[i])
  {
    if n == 0 {
      NoLayerSegments(rotation, layers);
    } else {
      var k := n - 1;
      FirstClean(font, rotation, layers, k);
      MoreSegments(rotation, layers, k);
      CleanAppend(font, FirstSegments(rotation, layers, k), LayerSegments(layers[k], k));
      LayerClean(font, layers[k], k);
    }
  }

  lemma ReadableIsClean(font: string, segments: seq<Segment>)
    ensures Readable(font, segments) <==> Clean(font, segments)
  {
    forall i | 0 <= i < |segments|
      ensures Breaks(ChainText(font, segments[i].chain)) <==> ValuesBreak(font, segments[i].chain)
    {
      ChainBreaks(font, segments[i].chain);
    }
  }

  /** The description of an overlay reads back as the labels and chains of its
      layers in order, exactly when no path, format, text or colour that goes
      into it holds a semicolon or an opening bracket, which escaping leaves as
      they are. */
  lemma OverlayReadsBackExactly(font: string, rotation: Rotation, layers: seq<Layer>)
    ensures var segments := Segments(rotation, Some(layers));
      ReadBack(Joined(AllWritten(font, segments))) == Parts(font, segments)
      <==> forall i :: 0 <= i < |layers| ==> !LayerBreaks(font, layers[i])
  {
    var first, last := FirstSegments(rotation, layers, |layers|), Segment([Stage(|layers|)], Pass, Out);
    ReadsBackExactly(font, first + [last]);
    ReadableIsClean(font, first + [last]);
    CleanAppend(font, first, [last]);
    assert [last][0].chain == Pass;
    FirstClean(font, rotation, layers, |layers|);
  }

  // ------------------------------------------------------------------
  // The ends of the description
  // ------------------------------------------------------------------

  predicate EndsWith(s: string, t: string) {
    |t| <= |s| && s[|s| - |t|..] == t
  }

  lemma {:induction false} JoinedEnds(parts: seq<string>, first: string, last: string)
    requires parts != [] && first <= parts[0] && EndsWith(parts[|parts| - 1], last)
    ensures first <= Joined(parts) && EndsWith(Joined(parts), last)
  {
    if |parts| == 1 {
    } else {
      var rest := parts[1..];
      assert rest[|rest| - 1] == parts[|parts| - 1];
      JoinedEnds(rest, [], last);
      assert Joined(parts) == parts[0] + ";" + Joined(rest);
    }
  }

  lemma {:induction false} FirstOfFirst(rotation: Rotation, layers: seq<Layer>, n: nat)
    requires n <= |layers|
    ensures FirstSegments(rotation, layers, n) != []
    ensures FirstSegments(rotation, layers, n)[0] == Segment([In], Rotate(rotation), Stage(0))
  {
    if n == 0 {
      NoLayerSegments(rotation, layers);
    } else {
      FirstOfFirst(rotation, layers, n - 1);
      MoreSegments(rotation, layers, n - 1);
    }
  }

  lemma EndsOfSegments(rotation: Rotation, overlay: Option<seq<Layer>>)
    ensures var segments := Segments(rotation, overlay);
      && segments != [] && segments[0].inputs == [In] && segments[|segments| - 1].output == Out
  {
    if overlay.Some? {
      FirstOfFirst(rotation, overlay.value, |overlay.value|);
    }
  }

  /** The description takes the pad called in and gives the pad called out. */
  lemma FromInToOut(font: string, rotation: Rotation, overlay: Option<seq<Layer>>)
    ensures var spec := Joined(AllWritten(font, Segments(rotation, overlay)));
      "[in]" <= spec && EndsWith(spec, "[out]")
  {
    var segments := Segments(rotation, overlay);
    EndsOfSegments(rotation, overlay);
    var last := segments[|segments| - 1];
    assert Bracketed([In]) == Tag("in") == "[in]";
    assert Bracketed([Out]) == Tag("out") == "[out]";
    var parts := AllWritten(font, segments);
    assert parts[0] == Bracketed([In]) + ChainText(font, segments[0].chain) + Bracketed([segments[0].output]);
    assert parts[|parts| - 1] == (Bracketed(last.inputs) + ChainText(font, last.chain)) + "[out]";
    JoinedEnds(parts, "[in]", "[out]");
  }
}
