/** What is drawn for an overlay layer of the manifest, from its settings to the
    text of its filters read back. */
module OverlayMeaning {
  import opened Common
  import opened Manifest
  import opened Compiler
  import opened FilterGraph
  import opened FilterReader
  import opened FilterValues
  import opened FilterMeaning
  import opened WatermarkMeaning
  import opened Expansion
  import Overlay

  /** The filter draws as the manifest asks, and where it says nothing in white of
      size 18 on black of 60 hundredths, padded by 6 and 12 off the corner. */
  ghost predicate DrawsAsAsked(f: Filter, font: string, position: Overlay.Position, style: TextStyle) {
    Draws(f, font, Overlay.Style(
      position,
      if style.fontSize.Some? then style.fontSize.value else 18,
      if style.fontColor.Some? then style.fontColor.value else "white",
      if style.backgroundColor.Some? then style.backgroundColor.value else "black",
      if style.backgroundAlpha.Some? then style.backgroundAlpha.value else 60,
      if style.padding.Some? then style.padding.value else 6,
      if style.margin.Some? then style.margin.value else 12))
  }

  predicate NoCommaIn(color: Option<string>) {
    color.Some? ==> ',' !in color.value
  }

  lemma StyleCommas(position: Overlay.Position, style: TextStyle)
    ensures var compiled := CompileStyle(position, style);
      && (',' !in compiled.fontColor <==> NoCommaIn(style.fontColor))
      && (',' !in compiled.backgroundColor <==> NoCommaIn(style.backgroundColor))
  {
    assert ',' !in "white" && ',' !in "black";
  }

  /** A text layer that compiles is drawn as its manifest asks, if and only if its
      colours have no comma. */
  lemma TextDrawnAsAsked(font: string, layer: OverlayLayer, variables: Variables)
    requires layer.Text? && CompileLayer(layer, variables).Ok?
    ensures var compiled := CompileLayer(layer, variables).value;
      var chain := ReadChain(ChainText(font, Lay(compiled)));
      && compiled.Text?
      && (|chain| == 1 <==> NoCommaIn(layer.style.fontColor) && NoCommaIn(layer.style.backgroundColor))
      && (|chain| == 1 ==> DrawsAsAsked(chain[0], font, layer.position, layer.style)
                           && chain[0].settings[1].value == compiled.text)
  {
    var compiled := CompileLayer(layer, variables).value;
    TextReadsBack(font, compiled.text, compiled.style);
    StyleCommas(layer.position, layer.style);
  }

  predicate Speakable(format: string) {
    '\'' !in format && '}' !in format
  }

  lemma DefaultsSpeakable()
    ensures Speakable("%Y-%m-%d %H:%M:%S UTC") && Speakable("%Y-%m-%d %H:%M:%S")
  {
  }

  /** A timestamp is drawn as its manifest asks; without a format it shows the
      date and the time to the second, with the name of the zone for UTC. */
  lemma TimestampDrawnAsAsked(font: string, layer: OverlayLayer, variables: Variables)
    requires layer.Timestamp?
    ensures CompileLayer(layer, variables).Ok?
    ensures var chain := ReadChain(ChainText(font, Lay(CompileLayer(layer, variables).value)));
      && (|chain| == 1 <==> NoCommaIn(layer.style.fontColor) && NoCommaIn(layer.style.backgroundColor))
      && (|chain| == 1 ==> DrawsAsAsked(chain[0], font, layer.position, layer.style))
      && (|chain| == 1 && layer.timezone == Overlay.Utc && layer.format == None ==>
          ReadCall(chain[0].settings[1].value) == Some(Call("gmtime", ["%Y-%m-%d %H:%M:%S UTC"], [])))
      && (|chain| == 1 && layer.timezone == Overlay.Local && layer.format == None ==>
          ReadCall(chain[0].settings[1].value) == Some(Call("localtime", ["%Y-%m-%d %H:%M:%S"], [])))
      && (|chain| == 1 && layer.format.Some? ==>
          (ReadCall(chain[0].settings[1].value)
             == Some(Call(if layer.timezone == Overlay.Utc then "gmtime" else "localtime", [layer.format.value], []))
           <==> Speakable(layer.format.value)))
  {
    var compiled := CompileLayer(layer, variables).value;
    TimestampReadsBack(font, compiled.format, compiled.timezone, compiled.style);
    StyleCommas(layer.position, layer.style);
    DefaultsSpeakable();
  }

  /** A watermark is read from its file, no wider than asked, faded exactly if
      asked to be below 100 hundredths, and laid in its corner, 12 off it where
      the manifest says nothing. */
  lemma WatermarkDrawnAsAsked(font: string, layer: OverlayLayer, variables: Variables)
    requires layer.Watermark?
    ensures CompileLayer(layer, variables).Ok? && CompileLayer(layer, variables).value.Watermark?
    ensures var compiled := CompileLayer(layer, variables).value;
      var image := ReadChain(ChainText(font, Movie(compiled.imagePath, compiled.maxWidth, compiled.opacity)));
      var place := ReadChain(ChainText(font, Lay(compiled)));
      var faded := layer.opacity.Some? && layer.opacity.value < 100;
      && |image| == 1 + (if layer.maxWidth.Some? then 1 else 0) + (if faded then 2 else 0)
      && image[0] == Filter("movie", [Setting([], layer.imagePath)])
      && (layer.maxWidth.Some? ==> Scales(image[1], layer.maxWidth.value))
      && (faded ==> Fades(image[|image| - 2], image[|image| - 1], layer.opacity.value as nat))
      && |place| == 1
      && Places(place[0], layer.position, if layer.margin.Some? then layer.margin.value else 12)
  {
    var compiled := CompileLayer(layer, variables).value;
    ImageReadsBack(font, compiled.imagePath, compiled.maxWidth, compiled.opacity);
    PlaceReadsBack(font, compiled);
  }
}
