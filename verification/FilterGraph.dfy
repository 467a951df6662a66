/** The filter graph of a transcoded pipeline: a description in FFmpeg's syntax
    of segments joined by labels, from `in` through every overlay layer to
    `out`. */
module FilterGraph {
  import opened Common
  import opened Overlay
  import opened Escape

  datatype Rotation = Unrotated | Clockwise | HalfTurn | CounterClockwise

  /** What a segment does: turn the video, read a watermark image, draw or lay a
      layer over the video, or nothing. */
  datatype Chain =
    | Rotate(rotation: Rotation)
    | Movie(imagePath: string, maxWidth: Option<nat>, opacity: Byte)
    | Lay(layer: Layer)
    | Pass

  datatype Label = In | Out | Stage(index: nat) | Mark(index: nat)

  /** A filter chain, the labels it reads and the label it writes. */
  datatype Segment = Segment(inputs: seq<Label>, chain: Chain, output: Label)

  // ------------------------------------------------------------------
  // Text
  // ------------------------------------------------------------------

  function Digit(n: nat): char
    requires n < 10
  {
    "0123456789"[n]
  }

  function Decimal(n: nat): (s: string)
    ensures s != []
  {
    if n < 10 then [Digit(n)] else Decimal(n / 10) + [Digit(n % 10)]
  }

  /** A percentage as a fraction with two decimals. */
  function AlphaPercentToDecimal(value: Byte): string {
    Decimal(value / 100) + "." + [Digit(value / 10 % 10), Digit(value % 10)]
  }

  function FilterSpec(rotation: Rotation): string {
    match rotation
    case Unrotated => "null"
    case Clockwise => "transpose=clock"
    case HalfTurn => "hflip,vflip"
    case CounterClockwise => "transpose=cclock"
  }

  function DrawtextPosition(position: Position, margin: nat): (string, string) {
    var m := Decimal(margin);
    match position
    case TopLeft => (m, m)
    case TopRight => ("w-text_w-" + m, m)
    case BottomLeft => (m, "h-text_h-" + m)
    case BottomRight => ("w-text_w-" + m, "h-text_h-" + m)
  }

  function OverlayPosition(position: Position, margin: nat): string {
    var m := Decimal(margin);
    match position
    case TopLeft => "x=" + m + ":y=" + m
    case TopRight => "x=W-w-" + m + ":y=" + m
    case BottomLeft => "x=" + m + ":y=H-h-" + m
    case BottomRight => "x=W-w-" + m + ":y=H-h-" + m
  }

  function DrawtextFilter(font: string, text: string, style: Style): string {
    var (x, y) := DrawtextPosition(style.position, style.margin);
    "drawtext=fontfile='" + EscapeFilterValue(font) + "':text='" + text + "':x=" + x + ":y=" + y
    + ":fontsize=" + Decimal(style.fontSize) + ":fontcolor=" + EscapeFilterValue(style.fontColor)
    + ":box=1:boxcolor=" + EscapeFilterValue(style.backgroundColor) + "@" + AlphaPercentToDecimal(style.backgroundAlpha)
    + ":boxborderw=" + Decimal(style.padding)
  }

  function TimestampFilter(font: string, format: string, timezone: Timezone, style: Style): string {
    var clock := if timezone == Utc then "gmtime" else "localtime";
    DrawtextFilter(font, "%{" + clock + "\\:" + EscapeDrawtextExpansionFormat(format) + "}", style)
  }

  function WatermarkChain(imagePath: string, maxWidth: Option<nat>, opacity: Byte): string {
    "movie='" + EscapeFilterValue(imagePath) + "'"
    + (if maxWidth.Some? then ",scale=w=" + Decimal(maxWidth.value) + ":h=-1:force_original_aspect_ratio=decrease" else "")
    + (if opacity < 100 then ",format=rgba" + ",colorchannelmixer=aa=" + AlphaPercentToDecimal(opacity) else "")
  }

  /** The filter that draws a text layer, or lays a watermark over the video. */
  function LayerFilter(font: string, layer: Layer): string {
    match layer
    case Timestamp(format, timezone, style) => TimestampFilter(font, format, timezone, style)
    case Text(text, style) => DrawtextFilter(font, EscapeDrawtextText(text), style)
    case Watermark(_, position, _, _, margin) => "overlay=" + OverlayPosition(position, margin)
  }

  function ChainText(font: string, chain: Chain): string {
    match chain
    case Rotate(rotation) => FilterSpec(rotation)
    case Movie(imagePath, maxWidth, opacity) => WatermarkChain(imagePath, maxWidth, opacity)
    case Lay(layer) => LayerFilter(font, layer)
    case Pass => "null"
  }

  // ------------------------------------------------------------------
  // Segments
  // ------------------------------------------------------------------

  function Name(name: Label): string {
    match name
    case In => "in"
    case Out => "out"
    case Stage(i) => "stage" + Decimal(i)
    case Mark(i) => "wm" + Decimal(i)
  }

  function LayerSegments(layer: Layer, index: nat): seq<Segment> {
    match layer
    case Watermark(imagePath, _, maxWidth, opacity, _) =>
      [Segment([], Movie(imagePath, maxWidth, opacity), Mark(index)),
       Segment([Stage(index), Mark(index)], Lay(layer), Stage(index + 1))]
    case _ => [Segment([Stage(index)], Lay(layer), Stage(index + 1))]
  }

  /** The rotation's segment, and then the segments of every layer. */
  function Parts(rotation: Rotation, layers: seq<Layer>): seq<seq<Segment>> {
    seq(|layers| + 1, i requires 0 <= i <= |layers| =>
      if i == 0 then [Segment([In], Rotate(rotation), Stage(0))] else LayerSegments(layers[i - 1], i - 1))
  }

  function Flattened<T>(parts: seq<seq<T>>, n: nat): seq<T>
    requires n <= |parts|
  {
    if n == 0 then [] else Flattened(parts, n - 1) + parts[n - 1]
  }

  /** The segments of the rotation and the first n layers. */
  function FirstSegments(rotation: Rotation, layers: seq<Layer>, n: nat): seq<Segment>
    requires n <= |layers|
  {
    Flattened(Parts(rotation, layers), n + 1)
  }

  function Segments(rotation: Rotation, overlay: Option<seq<Layer>>): seq<Segment> {
    match overlay
    case None => [Segment([In], Rotate(rotation), Out)]
    case Some(layers) =>
      FirstSegments(rotation, layers, |layers|) + [Segment([Stage(|layers|)], Pass, Out)]
  }

  function Tag(name: string): string {
    "[" + name + "]"
  }

  function Bracketed(labels: seq<Label>): string {
    if labels == [] then [] else Tag(Name(labels[0])) + Bracketed(labels[1..])
  }

  function Written(font: string, segment: Segment): string {
    Bracketed(segment.inputs) + ChainText(font, segment.chain) + Bracketed([segment.output])
  }

  function AllWritten(font: string, segments: seq<Segment>): seq<string> {
    seq(|segments|, i requires 0 <= i < |segments| => Written(font, segments[i]))
  }

  function Joined(parts: seq<string>): string {
    if parts == [] then [] else if |parts| == 1 then parts[0] else parts[0] + ";" + Joined(parts[1..])
  }

  lemma WrittenOne(font: string, input: Label, chain: Chain, output: Label)
    ensures Written(font, Segment([input], chain, output)) == Tag(Name(input)) + ChainText(font, chain) + Tag(Name(output))
  {
    assert Bracketed([input]) == Tag(Name(input));
    assert Bracketed([output]) == Tag(Name(output));
  }

  lemma WrittenTwo(font: string, a: Label, b: Label, chain: Chain, output: Label)
    ensures Written(font, Segment([a, b], chain, output))
         == Tag(Name(a)) + Tag(Name(b)) + ChainText(font, chain) + Tag(Name(output))
  {
    assert [a, b][1..] == [b];
    assert Bracketed([b]) == Tag(Name(b));
    assert Bracketed([a, b]) == Tag(Name(a)) + Tag(Name(b));
    assert Bracketed([output]) == Tag(Name(output));
  }

  lemma WrittenNone(font: string, chain: Chain, output: Label)
    ensures Written(font, Segment([], chain, output)) == ChainText(font, chain) + Tag(Name(output))
  {
    assert Bracketed([output]) == Tag(Name(output));
  }

  lemma AllWrittenAppend(font: string, a: seq<Segment>, b: seq<Segment>)
    ensures AllWritten(font, a + b) == AllWritten(font, a) + AllWritten(font, b)
  {
  }

  /** What the builder writes for a layer, given the names of its labels. */
  function LayerText(font: string, layer: Layer, current: string, mark: string, next: string): seq<string> {
    match layer
    case Watermark(imagePath, position, maxWidth, opacity, margin) =>
      [WatermarkChain(imagePath, maxWidth, opacity) + Tag(mark),
       Tag(current) + Tag(mark) + LayerFilter(font, layer) + Tag(next)]
    case _ => [Tag(current) + LayerFilter(font, layer) + Tag(next)]
  }

  lemma AllWrittenOne(font: string, a: Segment)
    ensures AllWritten(font, [a]) == [Written(font, a)]
  {
  }

  lemma AllWrittenTwo(font: string, a: Segment, b: Segment)
    ensures AllWritten(font, [a, b]) == [Written(font, a), Written(font, b)]
  {
  }

  lemma WatermarkWritten(font: string, layer: Layer, index: nat)
    requires layer.Watermark?
    ensures AllWritten(font, LayerSegments(layer, index)) == LayerText(font, layer, Name(Stage(index)), Name(Mark(index)), Name(Stage(index + 1)))
  {
    var movie := Segment([], Movie(layer.imagePath, layer.maxWidth, layer.opacity), Mark(index));
    var laid := Segment([Stage(index), Mark(index)], Lay(layer), Stage(index + 1));
    AllWrittenTwo(font, movie, laid);
    WrittenNone(font, movie.chain, movie.output);
    WrittenTwo(font, Stage(index), Mark(index), laid.chain, laid.output);
  }

  lemma DrawtextWritten(font: string, layer: Layer, index: nat)
    requires !layer.Watermark?
    ensures AllWritten(font, LayerSegments(layer, index)) == LayerText(font, layer, Name(Stage(index)), Name(Mark(index)), Name(Stage(index + 1)))
  {
    var drawn := Segment([Stage(index)], Lay(layer), Stage(index + 1));
    AllWrittenOne(font, drawn);
    WrittenOne(font, Stage(index), drawn.chain, drawn.output);
  }

  lemma LayerWritten(font: string, layer: Layer, index: nat)
    ensures AllWritten(font, LayerSegments(layer, index)) == LayerText(font, layer, Name(Stage(index)), Name(Mark(index)), Name(Stage(index + 1)))
  {
    if layer.Watermark? {
      WatermarkWritten(font, layer, index);
    } else {
      DrawtextWritten(font, layer, index);
    }
  }

  lemma MoreSegments(rotation: Rotation, layers: seq<Layer>, n: nat)
    requires n < |layers|
    ensures FirstSegments(rotation, layers, n + 1) == FirstSegments(rotation, layers, n) + LayerSegments(layers[n], n)
  {
    assert Parts(rotation, layers)[n + 1] == LayerSegments(layers[n], n);
  }

  lemma NoLayerSegments(rotation: Rotation, layers: seq<Layer>)
    ensures FirstSegments(rotation, layers, 0) == [Segment([In], Rotate(rotation), Stage(0))]
  {
    var parts := Parts(rotation, layers);
    assert Flattened(parts, 1) == Flattened(parts, 0) + parts[0];
    assert [] + parts[0] == parts[0];
  }

  lemma MoreWritten(font: string, rotation: Rotation, layers: seq<Layer>, n: nat)
    requires n < |layers|
    ensures AllWritten(font, FirstSegments(rotation, layers, n + 1)) == AllWritten(font, FirstSegments(rotation, layers, n))
      + LayerText(font, layers[n], Name(Stage(n)), Name(Mark(n)), Name(Stage(n + 1)))
  {
    MoreSegments(rotation, layers, n);
    LayerWritten(font, layers[n], n);
    AllWrittenAppend(font, FirstSegments(rotation, layers, n), LayerSegments(layers[n], n));
  }

  lemma FirstWritten(font: string, rotation: Rotation, layers: seq<Layer>)
    ensures AllWritten(font, FirstSegments(rotation, layers, 0)) == [Tag(Name(In)) + FilterSpec(rotation) + Tag(Name(Stage(0)))]
  {
    var first := Segment([In], Rotate(rotation), Stage(0));
    NoLayerSegments(rotation, layers);
    AllWrittenOne(font, first);
    WrittenOne(font, In, Rotate(rotation), Stage(0));
  }

  /** What the builder has written after the rotation and n layers. */
  function WrittenUpTo(font: string, rotation: Rotation, layers: seq<Layer>, n: nat): seq<string>
    requires n <= |layers|
  {
    if n == 0 then [Tag(Name(In)) + FilterSpec(rotation) + Tag(Name(Stage(0)))]
    else WrittenUpTo(font, rotation, layers, n - 1)
         + LayerText(font, layers[n - 1], Name(Stage(n - 1)), Name(Mark(n - 1)), Name(Stage(n)))
  }

  lemma WrittenNext(font: string, rotation: Rotation, layers: seq<Layer>, n: nat)
    requires n < |layers|
    ensures WrittenUpTo(font, rotation, layers, n + 1) == WrittenUpTo(font, rotation, layers, n)
      + LayerText(font, layers[n], Name(Stage(n)), Name(Mark(n)), Name(Stage(n + 1)))
  {
  }

  lemma {:induction false} WrittenIs(font: string, rotation: Rotation, layers: seq<Layer>, n: nat)
    requires n <= |layers|
    ensures WrittenUpTo(font, rotation, layers, n) == AllWritten(font, FirstSegments(rotation, layers, n))
  {
    if n == 0 {
      FirstWritten(font, rotation, layers);
    } else {
      var k := n - 1;
      WrittenIs(font, rotation, layers, k);
      MoreWritten(font, rotation, layers, k);
      var text := LayerText(font, layers[k], Name(Stage(k)), Name(Mark(k)), Name(Stage(k + 1)));
      calc {
        WrittenUpTo(font, rotation, layers, n);
        WrittenUpTo(font, rotation, layers, k) + text;
        AllWritten(font, FirstSegments(rotation, layers, k)) + text;
        AllWritten(font, FirstSegments(rotation, layers, n));
      }
    }
  }

  lemma LastWritten(font: string, rotation: Rotation, layers: seq<Layer>)
    ensures AllWritten(font, Segments(rotation, Some(layers)))
         == AllWritten(font, FirstSegments(rotation, layers, |layers|)) + [Tag(Name(Stage(|layers|))) + "null" + Tag(Name(Out))]
  {
    var last := Segment([Stage(|layers|)], Pass, Out);
    AllWrittenAppend(font, FirstSegments(rotation, layers, |layers|), [last]);
    AllWrittenOne(font, last);
    WrittenOne(font, Stage(|layers|), Pass, Out);
  }

  lemma PassThroughWritten(font: string, rotation: Rotation)
    ensures Joined(AllWritten(font, Segments(rotation, None))) == Tag("in") + FilterSpec(rotation) + Tag("out")
  {
    var only := Segment([In], Rotate(rotation), Out);
    AllWrittenOne(font, only);
    WrittenOne(font, In, Rotate(rotation), Out);
  }

  lemma PushTwo(parts: seq<string>, a: string, b: string)
    ensures parts + [a] + [b] == parts + [a, b]
  {
  }

  /** The description is that of the segments, joined by semicolons.  `font` is
      the fixed path of the font file. */
  method BuildFilterSpec(font: string, rotation: Rotation, overlay: Option<seq<Layer>>) returns (spec: string)
    ensures spec == Joined(AllWritten(font, Segments(rotation, overlay)))
  {
    if overlay.None? {
      PassThroughWritten(font, rotation);
      return Tag("in") + FilterSpec(rotation) + Tag("out");
    }
    var layers := overlay.value;
    var segments, current := BuildLayers(font, rotation, layers);
    WrittenIs(font, rotation, layers, |layers|);
    LastWritten(font, rotation, layers);
    segments := segments + [Tag(current) + "null" + Tag("out")];
    return Joined(segments);
  }

  /** The loop over the layers. */
  method BuildLayers(font: string, rotation: Rotation, layers: seq<Layer>) returns (segments: seq<string>, current: string)
    ensures segments == WrittenUpTo(font, rotation, layers, |layers|) && current == Name(Stage(|layers|))
  {
    current := "stage" + Decimal(0);
    segments := [Tag("in") + FilterSpec(rotation) + Tag(current)];
    var index := 0;
    while index < |layers|
      invariant index <= |layers| && current == Name(Stage(index))
      invariant segments == WrittenUpTo(font, rotation, layers, index)
    {
      segments, current := PushLayer(font, rotation, layers, index, segments, current);
      index := index + 1;
    }
  }

  /** One turn of it: the segments of the next layer, and the next label. */
  method PushLayer(font: string, rotation: Rotation, layers: seq<Layer>, index: nat, segments: seq<string>, current: string)
    returns (more: seq<string>, next: string)
    requires index < |layers| && current == Name(Stage(index))
    requires segments == WrittenUpTo(font, rotation, layers, index)
    ensures more == WrittenUpTo(font, rotation, layers, index + 1) && next == Name(Stage(index + 1))
  {
    WrittenNext(font, rotation, layers, index);
    next := "stage" + Decimal(index + 1);
    var mark := "wm" + Decimal(index);
    assert mark == Name(Mark(index)) && next == Name(Stage(index + 1));
    more := WriteLayer(font, layers[index], current, mark, next, segments);
  }

  method WriteLayer(font: string, layer: Layer, current: string, mark: string, next: string, segments: seq<string>)
    returns (more: seq<string>)
    ensures more == segments + LayerText(font, layer, current, mark, next)
  {
    if layer.Watermark? {
      var chain := BuildWatermarkChain(layer.imagePath, layer.maxWidth, layer.opacity);
      var movie, laid := chain + Tag(mark), Tag(current) + Tag(mark) + LayerFilter(font, layer) + Tag(next);
      more := segments + [movie];
      more := more + [laid];
      PushTwo(segments, movie, laid);
    } else {
      more := segments + [Tag(current) + LayerFilter(font, layer) + Tag(next)];
    }
  }

  method BuildWatermarkChain(imagePath: string, maxWidth: Option<nat>, opacity: Byte) returns (chain: string)
    ensures chain == WatermarkChain(imagePath, maxWidth, opacity)
  {
    chain := "movie='" + EscapeFilterValue(imagePath) + "'";
    if maxWidth.Some? {
      chain := chain + (",scale=w=" + Decimal(maxWidth.value) + ":h=-1:force_original_aspect_ratio=decrease");
    }
    if opacity < 100 {
      chain := chain + ",format=rgba";
      chain := chain + (",colorchannelmixer=aa=" + AlphaPercentToDecimal(opacity));
    }
  }
}
