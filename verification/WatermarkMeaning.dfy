/** What a watermark's two chains say, read back from their texts. */
module WatermarkMeaning {
  import opened Common
  import opened Overlay
  import opened Escape
  import opened FilterGraph
  import opened FilterReader
  import opened FilterValues
  import opened FilterMeaning

  // ------------------------------------------------------------------
  // The image
  // ------------------------------------------------------------------

  function ImageText(imagePath: string): string {
    Keyed("movie", "'" + EscapeFilterValue(imagePath) + "'")
  }

  function ScaleText(maxWidth: nat): string {
    WithOption(WithOption(Keyed("scale", Keyed("w", Decimal(maxWidth))), "h", "-1"), "force_original_aspect_ratio", "decrease")
  }

  function MixerText(opacity: Byte): string {
    Keyed("colorchannelmixer", Keyed("aa", AlphaPercentToDecimal(opacity)))
  }

  function ScaleFilter(maxWidth: nat): Filter {
    Filter("scale", [Setting("w", Decimal(maxWidth)), Setting("h", "-1"), Setting("force_original_aspect_ratio", "decrease")])
  }

  function MixerFilter(opacity: Byte): Filter {
    Filter("colorchannelmixer", [Setting("aa", AlphaPercentToDecimal(opacity))])
  }

  lemma ImageRead(imagePath: string)
    ensures var s := ImageText(imagePath);
      && End(s, false) == Some(false) && NoComma(s)
      && ReadChain(s) == [Filter("movie", [Setting([], imagePath)])]
  {
    var value := "'" + EscapeFilterValue(imagePath) + "'";
    EscapedInQuotes(imagePath);
    PositionalOption(value, imagePath);
    FirstOption("movie", value, Setting([], imagePath));
    OneFilter(ImageText(imagePath));
  }

  lemma ScaleRead(maxWidth: nat)
    ensures var s := ScaleText(maxWidth); Wrote(s, ScaleFilter(maxWidth)) && NoComma(s)
  {
    var w := Decimal(maxWidth);
    DecimalRead(maxWidth);
    WordValue(w);
    FirstWrote("scale", "w", w, w);
    var first, filter := Keyed("scale", Keyed("w", w)), Filter("scale", [Setting("w", w)]);
    NextWord(first, filter, "h", "-1");
    NextWord(WithOption(first, "h", "-1"), WithSetting(filter, "h", "-1"), "force_original_aspect_ratio", "decrease");
  }

  lemma MixerRead(opacity: Byte)
    ensures var s := MixerText(opacity); Wrote(s, MixerFilter(opacity)) && NoComma(s)
  {
    var alpha := AlphaPercentToDecimal(opacity);
    AlphaRead(opacity);
    WordValue(alpha);
    FirstWrote("colorchannelmixer", "aa", alpha, alpha);
  }

  lemma FormatRead()
    ensures var s := "format=rgba"; Wrote(s, Filter("format", [Setting([], "rgba")])) && NoComma(s)
  {
    OneWord("format", "rgba");
    assert Keyed("format", "rgba") == "format=rgba";
  }

  /** One more filter behind a chain. */
  lemma BehindChain(s: string, chain: seq<Filter>, t: string, filter: Filter)
    requires End(s, false) == Some(false) && ReadChain(s) == chain && Wrote(t, filter) && NoComma(t)
    ensures ReadChain(s + ([','] + t)) == chain + [filter] && End(s + ([','] + t), false) == Some(false)
  {
    NextFilter(s, t);
  }

  lemma KeyedTwice(name: string, literal: string, key: string, value: string)
    requires literal == name + ['='] + key + ['=']
    ensures literal + value == Keyed(name, Keyed(key, value))
  {
  }

  lemma BehindComma(front: string, literal: string, start: string, value: string, end: string)
    requires literal == [','] + start
    ensures front + (literal + value + end) == front + ([','] + (start + value + end))
  {
  }

  lemma TailLiteral()
    ensures ":h=-1:force_original_aspect_ratio=decrease" == ":h=" + "-1" + ":force_original_aspect_ratio=" + "decrease"
  {
  }

  lemma TwoMore(s: string, literal: string, keys: (string, string), values: (string, string))
    requires literal == [':'] + keys.0 + ['='] + values.0 + ([':'] + keys.1 + ['=']) + values.1
    ensures s + literal == WithOption(WithOption(s, keys.0, values.0), keys.1, values.1)
  {
    var a, b := [':'] + keys.0 + ['='], [':'] + keys.1 + ['='];
    NextShape(s, a, keys.0, values.0);
    NextShape(s + a + values.0, b, keys.1, values.1);
    assert s + (a + values.0 + b + values.1) == s + a + values.0 + b + values.1;
  }

  lemma ScaleTail(first: string)
    ensures first + ":h=-1:force_original_aspect_ratio=decrease"
         == WithOption(WithOption(first, "h", "-1"), "force_original_aspect_ratio", "decrease")
  {
    TailLiteral();
    assert ":h=" == [':'] + "h" + ['='];
    assert ":force_original_aspect_ratio=" == [':'] + "force_original_aspect_ratio" + ['='];
    TwoMore(first, ":h=-1:force_original_aspect_ratio=decrease", ("h", "force_original_aspect_ratio"), ("-1", "decrease"));
  }

  lemma ScaleShape(front: string, maxWidth: nat)
    ensures front + (",scale=w=" + Decimal(maxWidth) + ":h=-1:force_original_aspect_ratio=decrease")
         == front + ([','] + ScaleText(maxWidth))
  {
    var w := Decimal(maxWidth);
    KeyedTwice("scale", "scale=w=", "w", w);
    ScaleTail(Keyed("scale", Keyed("w", w)));
    assert ",scale=w=" == [','] + "scale=w=";
    BehindComma(front, ",scale=w=", "scale=w=", w, ":h=-1:force_original_aspect_ratio=decrease");
  }

  lemma MixerShape(front: string, opacity: Byte)
    ensures front + (",format=rgba" + ",colorchannelmixer=aa=" + AlphaPercentToDecimal(opacity))
         == front + ([','] + "format=rgba") + ([','] + MixerText(opacity))
  {
    var alpha := AlphaPercentToDecimal(opacity);
    assert ",format=rgba" == [','] + "format=rgba";
    assert ",colorchannelmixer=aa=" == [','] + ("colorchannelmixer" + ['='] + ("aa" + ['=']));
    assert ",colorchannelmixer=aa=" + alpha == [','] + MixerText(opacity);
  }

  /** The image's chain, with its limit of width or without. */
  function ScaledText(imagePath: string, maxWidth: Option<nat>): string {
    ImageText(imagePath) + (if maxWidth.Some? then [','] + ScaleText(maxWidth.value) else [])
  }

  function ScaledFilters(imagePath: string, maxWidth: Option<nat>): seq<Filter> {
    [Filter("movie", [Setting([], imagePath)])] + (if maxWidth.Some? then [ScaleFilter(maxWidth.value)] else [])
  }

  lemma ScaledRead(imagePath: string, maxWidth: Option<nat>)
    ensures var s := ScaledText(imagePath, maxWidth);
      End(s, false) == Some(false) && ReadChain(s) == ScaledFilters(imagePath, maxWidth)
  {
    ImageRead(imagePath);
    if maxWidth.Some? {
      ScaleRead(maxWidth.value);
      BehindChain(ImageText(imagePath), [Filter("movie", [Setting([], imagePath)])], ScaleText(maxWidth.value), ScaleFilter(maxWidth.value));
    } else {
      assert ImageText(imagePath) + [] == ImageText(imagePath);
    }
  }

  lemma ImageShape(imagePath: string)
    ensures "movie='" + EscapeFilterValue(imagePath) + "'" == ImageText(imagePath)
  {
    assert "movie='" == "movie" + ['='] + "'";
  }

  lemma WatermarkShape(imagePath: string, maxWidth: Option<nat>, opacity: Byte)
    ensures WatermarkChain(imagePath, maxWidth, opacity)
         == if opacity < 100 then ScaledText(imagePath, maxWidth) + ([','] + "format=rgba") + ([','] + MixerText(opacity))
            else ScaledText(imagePath, maxWidth)
  {
    ImageShape(imagePath);
    if maxWidth.Some? {
      ScaleShape(ImageText(imagePath), maxWidth.value);
    }
    if opacity < 100 {
      MixerShape(ScaledText(imagePath, maxWidth), opacity);
    }
  }

  lemma MixedRead(front: string, chain: seq<Filter>, opacity: Byte)
    requires End(front, false) == Some(false) && ReadChain(front) == chain
    ensures ReadChain(front + ([','] + "format=rgba") + ([','] + MixerText(opacity)))
         == chain + [Filter("format", [Setting([], "rgba")])] + [MixerFilter(opacity)]
  {
    FormatRead();
    BehindChain(front, chain, "format=rgba", Filter("format", [Setting([], "rgba")]));
    MixerRead(opacity);
    BehindChain(front + ([','] + "format=rgba"), chain + [Filter("format", [Setting([], "rgba")])], MixerText(opacity), MixerFilter(opacity));
  }

  predicate Scales(f: Filter, maxWidth: nat) {
    && f.name == "scale" && |f.settings| == 3
    && f.settings[0].key == "w" && ReadNumber(f.settings[0].value) == Some(maxWidth)
    && f.settings[1] == Setting("h", "-1")
    && f.settings[2] == Setting("force_original_aspect_ratio", "decrease")
  }

  predicate Fades(format: Filter, mixer: Filter, opacity: nat) {
    && format == Filter("format", [Setting([], "rgba")])
    && mixer.name == "colorchannelmixer" && |mixer.settings| == 1
    && mixer.settings[0].key == "aa" && ReadHundredths(mixer.settings[0].value) == Some(opacity)
  }

  /** The image's chain reads back as its file, then its width if it is limited,
      then its opacity if that is below 100 hundredths, whatever the path holds. */
  lemma ImageReadsBack(font: string, imagePath: string, maxWidth: Option<nat>, opacity: Byte)
    ensures var chain := ReadChain(ChainText(font, Movie(imagePath, maxWidth, opacity)));
      && |chain| == 1 + (if maxWidth.Some? then 1 else 0) + (if opacity < 100 then 2 else 0)
      && chain[0] == Filter("movie", [Setting([], imagePath)])
      && (maxWidth.Some? ==> Scales(chain[1], maxWidth.value))
      && (opacity < 100 ==> Fades(chain[|chain| - 2], chain[|chain| - 1], opacity as nat))
  {
    ScaledRead(imagePath, maxWidth);
    WatermarkShape(imagePath, maxWidth, opacity);
    AlphaRead(opacity);
    if maxWidth.Some? {
      DecimalRead(maxWidth.value);
    }
    if opacity < 100 {
      MixedRead(ScaledText(imagePath, maxWidth), ScaledFilters(imagePath, maxWidth), opacity);
    }
  }

  // ------------------------------------------------------------------
  // The place
  // ------------------------------------------------------------------

  lemma PlaceText(position: Position, margin: nat)
    ensures OverlayPosition(position, margin) == "x=" + OverlayX(position, margin) + ":y=" + OverlayY(position, margin)
  {
    var m := Decimal(margin);
    assert "x=W-w-" == "x=" + "W-w-";
    assert ":y=H-h-" == ":y=" + "H-h-";
    FarText("x=", "W-w-", m);
    FarText("x=" + OverlayX(position, margin) + ":y=", "H-h-", m);
    assert position.TopLeft? || position.BottomLeft? ==> OverlayX(position, margin) == m;
  }

  lemma FarText(front: string, far: string, margin: string)
    ensures front + far + margin == front + (far + margin)
  {
  }

  lemma PlaceShape(position: Position, margin: nat)
    ensures "overlay=" + OverlayPosition(position, margin)
         == WithOption(Keyed("overlay", Keyed("x", OverlayX(position, margin))), "y", OverlayY(position, margin))
  {
    var x, y := OverlayX(position, margin), OverlayY(position, margin);
    PlaceText(position, margin);
    assert "overlay=" + ("x=" + x + ":y=" + y) == ("overlay=" + "x=") + x + ":y=" + y;
    KeyedTwice("overlay", "overlay=" + "x=", "x", x);
    NextShape(Keyed("overlay", Keyed("x", x)), ":y=", "y", y);
  }

  ghost predicate Places(f: Filter, position: Position, margin: nat) {
    && f.name == "overlay" && |f.settings| == 2 && f.settings[0].key == "x" && f.settings[1].key == "y"
    && forall frameWidth, frameHeight, width, height ::
         var sizes := OverlaySizes(frameWidth, frameHeight, width, height);
         InCorner(Eval(f.settings[0].value, sizes), Eval(f.settings[1].value, sizes),
                  position, margin, frameWidth, frameHeight, width, height)
  }

  lemma PlacesThere(position: Position, margin: nat)
    ensures Places(Filter("overlay", [Setting("x", OverlayX(position, margin)), Setting("y", OverlayY(position, margin))]), position, margin)
  {
    forall frameWidth, frameHeight, width, height
      ensures var sizes := OverlaySizes(frameWidth, frameHeight, width, height);
        InCorner(Eval(OverlayX(position, margin), sizes), Eval(OverlayY(position, margin), sizes),
                 position, margin, frameWidth, frameHeight, width, height)
    {
      ImageInCorner(position, margin, frameWidth, frameHeight, width, height);
    }
  }

  /** The chain that lays the image reads back as its corner and its margin. */
  lemma PlaceReadsBack(font: string, layer: Layer)
    requires layer.Watermark?
    ensures var chain := ReadChain(ChainText(font, Lay(layer)));
      |chain| == 1 && Places(chain[0], layer.position, layer.margin)
  {
    var x, y := OverlayX(layer.position, layer.margin), OverlayY(layer.position, layer.margin);
    PlaceShape(layer.position, layer.margin);
    PositionWords(layer.position, layer.margin);
    WordValue(x);
    FirstWrote("overlay", "x", x, x);
    NextWord(Keyed("overlay", Keyed("x", x)), Filter("overlay", [Setting("x", x)]), "y", y);
    OneFilter("overlay=" + OverlayPosition(layer.position, layer.margin));
    PlacesThere(layer.position, layer.margin);
  }
}
