/** How the segments of a filter graph are joined, and what video comes out. */
module FilterWiring {
  import opened Common
  import opened Overlay
  import opened FilterGraph

  // ------------------------------------------------------------------
  // Labels
  // ------------------------------------------------------------------

  function Place(c: char): nat {
    if '0' <= c <= '9' then c as int - '0' as int else 0
  }

  function Number(s: string): nat {
    if s == [] then 0 else 10 * Number(s[..|s| - 1]) + Place(s[|s| - 1])
  }

  lemma {:induction false} NumberOfDecimal(n: nat)
    ensures Number(Decimal(n)) == n
  {
    if n >= 10 {
      NumberOfDecimal(n / 10);
      assert Decimal(n)[..|Decimal(n)| - 1] == Decimal(n / 10);
    } else {
      assert Number([]) == 0;
    }
  }

  lemma SameDecimal(a: nat, b: nat)
    ensures Decimal(a) == Decimal(b) <==> a == b
  {
    NumberOfDecimal(a);
    NumberOfDecimal(b);
  }

  /** Different labels have different names. */
  lemma NamesDiffer(a: Label, b: Label)
    ensures Name(a) == Name(b) <==> a == b
  {
    if Name(a) == Name(b) {
      FirstLetters(a);
      FirstLetters(b);
      match a
      case In =>
      case Out =>
      case Stage(i) =>
        assert Name(a)[5..] == Decimal(i) && Name(b)[5..] == Decimal(b.index);
        SameDecimal(i, b.index);
      case Mark(i) =>
        assert Name(a)[2..] == Decimal(i) && Name(b)[2..] == Decimal(b.index);
        SameDecimal(i, b.index);
    }
  }

  lemma FirstLetters(a: Label)
    ensures Name(a) != []
    ensures Name(a)[0] == match a case In => 'i' case Out => 'o' case Stage(_) => 's' case Mark(_) => 'w'
  {
  }

  // ------------------------------------------------------------------
  // Uses of a label
  // ------------------------------------------------------------------

  function Same(a: Label, b: Label): nat {
    if a == b then 1 else 0
  }

  function Occurrences(labels: seq<Label>, name: Label): nat {
    if labels == [] then 0 else Same(labels[0], name) + Occurrences(labels[1..], name)
  }

  /** The labels that segments write, and those they read. */
  function Outputs(segments: seq<Segment>): seq<Label> {
    if segments == [] then [] else [segments[0].output] + Outputs(segments[1..])
  }

  function Inputs(segments: seq<Segment>): seq<Label> {
    if segments == [] then [] else segments[0].inputs + Inputs(segments[1..])
  }

  lemma {:induction false} OccurrencesAppend(a: seq<Label>, b: seq<Label>, name: Label)
    ensures Occurrences(a + b, name) == Occurrences(a, name) + Occurrences(b, name)
    decreases |a|
  {
    if a == [] {
      assert a + b == b;
    } else {
      assert (a + b)[1..] == a[1..] + b;
      OccurrencesAppend(a[1..], b, name);
    }
  }

  lemma {:induction false} LabelsAppend(a: seq<Segment>, b: seq<Segment>, name: Label)
    ensures Occurrences(Outputs(a + b), name) == Occurrences(Outputs(a), name) + Occurrences(Outputs(b), name)
    ensures Occurrences(Inputs(a + b), name) == Occurrences(Inputs(a), name) + Occurrences(Inputs(b), name)
    decreases |a|
  {
    if a == [] {
      assert a + b == b;
    } else {
      assert (a + b)[1..] == a[1..] + b;
      LabelsAppend(a[1..], b, name);
      OccurrencesAppend(a[0].inputs, Inputs(a[1..] + b), name);
      OccurrencesAppend(a[0].inputs, Inputs(a[1..]), name);
    }
  }

  lemma OccurrencesOfTwo(a: Label, b: Label, name: Label)
    ensures Occurrences([a], name) == Same(a, name)
    ensures Occurrences([a, b], name) == Same(a, name) + Same(b, name)
  {
    assert [a, b][1..] == [b];
    assert Occurrences([b], name) == Same(b, name);
  }

  lemma LabelsOfOne(s: Segment)
    ensures Outputs([s]) == [s.output] && Inputs([s]) == s.inputs
  {
  }

  lemma LabelsOfTwo(s: Segment, t: Segment)
    ensures Outputs([s, t]) == [s.output, t.output] && Inputs([s, t]) == s.inputs + t.inputs
  {
    assert [s, t][1..] == [t];
    LabelsOfOne(t);
  }

  lemma LabelsOfLayer(layer: Layer, index: nat, name: Label)
    ensures var more := if layer.Watermark? then Same(Mark(index), name) else 0;
      && Occurrences(Outputs(LayerSegments(layer, index)), name) == Same(Stage(index + 1), name) + more
      && Occurrences(Inputs(LayerSegments(layer, index)), name) == Same(Stage(index), name) + more
  {
    var more := LayerSegments(layer, index);
    OccurrencesOfTwo(Mark(index), Stage(index + 1), name);
    OccurrencesOfTwo(Stage(index), Mark(index), name);
    OccurrencesOfTwo(Stage(index + 1), Mark(index), name);
    if layer.Watermark? {
      LabelsOfTwo(more[0], more[1]);
      assert [] + more[1].inputs == more[1].inputs;
    } else {
      LabelsOfOne(more[0]);
    }
  }

  /** How many of the first n stages, and of the first n watermarks, have this label. */
  function StageCount(name: Label, n: nat): nat {
    if name.Stage? && name.index < n then 1 else 0
  }

  function MarkCount(name: Label, layers: seq<Layer>, n: nat): nat
    requires n <= |layers|
  {
    if name.Mark? && name.index < n && layers[name.index].Watermark? then 1 else 0
  }

  /** How often a label should occur in the i-th part, and in the first n. */
  function MarkTerm(layers: seq<Layer>, i: nat, name: Label): nat
    requires i <= |layers|
  {
    if i > 0 && layers[i - 1].Watermark? then Same(Mark(i - 1), name) else 0
  }

  function InputTerm(i: nat, name: Label): nat {
    if i == 0 then Same(In, name) else Same(Stage(i - 1), name)
  }

  function Sum(terms: seq<nat>, n: nat): nat
    requires n <= |terms|
  {
    if n == 0 then 0 else Sum(terms, n - 1) + terms[n - 1]
  }

  function OutputTerms(layers: seq<Layer>, name: Label): seq<nat> {
    seq(|layers| + 1, i requires 0 <= i <= |layers| => Same(Stage(i), name) + MarkTerm(layers, i, name))
  }

  function InputTerms(layers: seq<Layer>, name: Label): seq<nat> {
    seq(|layers| + 1, i requires 0 <= i <= |layers| => InputTerm(i, name) + MarkTerm(layers, i, name))
  }

  lemma PartCounts(rotation: Rotation, layers: seq<Layer>, i: nat, name: Label)
    requires i <= |layers|
    ensures var part := Parts(rotation, layers)[i];
      && Occurrences(Outputs(part), name) == OutputTerms(layers, name)[i]
      && Occurrences(Inputs(part), name) == InputTerms(layers, name)[i]
  {
    if i == 0 {
      LabelsOfOne(Segment([In], Rotate(rotation), Stage(0)));
      OccurrencesOfTwo(Stage(0), In, name);
      OccurrencesOfTwo(In, In, name);
    } else {
      LabelsOfLayer(layers[i - 1], i - 1, name);
    }
  }

  lemma {:induction false} FlattenedOutputs(parts: seq<seq<Segment>>, terms: seq<nat>, n: nat, name: Label)
    requires n <= |parts| == |terms|
    requires forall i :: 0 <= i < |parts| ==> Occurrences(Outputs(parts[i]), name) == terms[i]
    ensures Occurrences(Outputs(Flattened(parts, n)), name) == Sum(terms, n)
  {
    if n == 0 {
    } else {
      var k := n - 1;
      FlattenedOutputs(parts, terms, k, name);
      LabelsAppend(Flattened(parts, k), parts[k], name);
      calc {
        Occurrences(Outputs(Flattened(parts, n)), name);
        Occurrences(Outputs(Flattened(parts, k) + parts[k]), name);
        Sum(terms, k) + terms[k];
        Sum(terms, n);
      }
    }
  }

  lemma {:induction false} FlattenedInputs(parts: seq<seq<Segment>>, terms: seq<nat>, n: nat, name: Label)
    requires n <= |parts| == |terms|
    requires forall i :: 0 <= i < |parts| ==> Occurrences(Inputs(parts[i]), name) == terms[i]
    ensures Occurrences(Inputs(Flattened(parts, n)), name) == Sum(terms, n)
  {
    if n == 0 {
    } else {
      var k := n - 1;
      FlattenedInputs(parts, terms, k, name);
      LabelsAppend(Flattened(parts, k), parts[k], name);
      calc {
        Occurrences(Inputs(Flattened(parts, n)), name);
        Occurrences(Inputs(Flattened(parts, k) + parts[k]), name);
        Sum(terms, k) + terms[k];
        Sum(terms, n);
      }
    }
  }

  lemma {:induction false} OutputSum(layers: seq<Layer>, n: nat, name: Label)
    requires n <= |layers|
    ensures Sum(OutputTerms(layers, name), n + 1) == StageCount(name, n + 1) + MarkCount(name, layers, n)
  {
    if n == 0 {
    } else {
      OutputSum(layers, n - 1, name);
    }
  }

  lemma {:induction false} InputSum(layers: seq<Layer>, n: nat, name: Label)
    requires n <= |layers|
    ensures Sum(InputTerms(layers, name), n + 1) == Same(In, name) + StageCount(name, n) + MarkCount(name, layers, n)
  {
    if n == 0 {
    } else {
      InputSum(layers, n - 1, name);
    }
  }

  lemma FirstCounts(rotation: Rotation, layers: seq<Layer>, name: Label)
    ensures var segments, n := FirstSegments(rotation, layers, |layers|), |layers|;
      && Occurrences(Outputs(segments), name) == StageCount(name, n + 1) + MarkCount(name, layers, n)
      && Occurrences(Inputs(segments), name) == Same(In, name) + StageCount(name, n) + MarkCount(name, layers, n)
  {
    var parts := Parts(rotation, layers);
    forall i | 0 <= i < |parts|
      ensures Occurrences(Outputs(parts[i]), name) == OutputTerms(layers, name)[i]
      ensures Occurrences(Inputs(parts[i]), name) == InputTerms(layers, name)[i]
    {
      PartCounts(rotation, layers, i, name);
    }
    FlattenedOutputs(parts, OutputTerms(layers, name), |parts|, name);
    FlattenedInputs(parts, InputTerms(layers, name), |parts|, name);
    OutputSum(layers, |layers|, name);
    InputSum(layers, |layers|, name);
  }

  /** The labels inside the graph: a stage after the rotation and after every
      layer, and one label for each watermark. */
  predicate Internal(name: Label, layers: seq<Layer>) {
    match name
    case Stage(i) => i <= |layers|
    case Mark(i) => i < |layers| && layers[i].Watermark?
    case _ => false
  }

  /** Every internal label is written once and read once, `in` is read once,
      `out` is written once, and there are no other labels. */
  lemma EachLabelOnce(rotation: Rotation, layers: seq<Layer>, name: Label)
    ensures var segments := Segments(rotation, Some(layers));
      && Occurrences(Outputs(segments), name) == (if Internal(name, layers) || name == Out then 1 else 0)
      && Occurrences(Inputs(segments), name) == (if Internal(name, layers) || name == In then 1 else 0)
  {
    var n := |layers|;
    var last := Segment([Stage(n)], Pass, Out);
    FirstCounts(rotation, layers, name);
    LabelsAppend(FirstSegments(rotation, layers, n), [last], name);
    LabelsOfOne(last);
    OccurrencesOfTwo(Out, In, name);
    OccurrencesOfTwo(Stage(n), In, name);
  }

  function NameOccurrences(labels: seq<Label>, text: string): nat {
    if labels == [] then 0
    else (if Name(labels[0]) == text then 1 else 0) + NameOccurrences(labels[1..], text)
  }

  lemma {:induction false} NamesOccurAsLabels(labels: seq<Label>, name: Label)
    ensures NameOccurrences(labels, Name(name)) == Occurrences(labels, name)
  {
    if labels == [] {
    } else {
      NamesOccurAsLabels(labels[1..], name);
      NamesDiffer(labels[0], name);
    }
  }

  /** The same of the names as they are written. */
  lemma EachNameOnce(rotation: Rotation, layers: seq<Layer>, name: Label)
    ensures var segments := Segments(rotation, Some(layers));
      && NameOccurrences(Outputs(segments), Name(name)) == (if Internal(name, layers) || name == Out then 1 else 0)
      && NameOccurrences(Inputs(segments), Name(name)) == (if Internal(name, layers) || name == In then 1 else 0)
  {
    var segments := Segments(rotation, Some(layers));
    EachLabelOnce(rotation, layers, name);
    NamesOccurAsLabels(Outputs(segments), name);
    NamesOccurAsLabels(Inputs(segments), name);
  }

  // ------------------------------------------------------------------
  // The video that comes out
  // ------------------------------------------------------------------

  datatype Video =
    | Source
    | Generated(chain: Chain)
    | Filtered(chain: Chain, video: Video)
    | Combined(chain: Chain, base: Video, mark: Video)

  type Links = map<Label, Video>

  function Read(s: Segment): set<Label> {
    set i | 0 <= i < |s.inputs| :: s.inputs[i]
  }

  /** A segment takes what is on its input labels and puts its result on a label
      that is not in use. */
  function Connect(links: Links, s: Segment): Option<Links> {
    if |s.inputs| > 2 || (|s.inputs| == 2 && s.inputs[0] == s.inputs[1]) then None
    else if !(Read(s) <= links.Keys) then None
    else
      var rest := links - Read(s);
      if s.output in rest then None
      else Some(rest[s.output :=
        if |s.inputs| == 0 then Generated(s.chain)
        else if |s.inputs| == 1 then Filtered(s.chain, links[s.inputs[0]])
        else Combined(s.chain, links[s.inputs[0]], links[s.inputs[1]])])
  }

  function Connected(links: Links, segments: seq<Segment>): Option<Links> {
    if segments == [] then Some(links)
    else
      match Connected(links, segments[..|segments| - 1])
      case None => None
      case Some(before) => Connect(before, segments[|segments| - 1])
  }

  /** A layer drawn or laid over a video. */
  function Over(below: Video, layer: Layer): Video {
    match layer
    case Watermark(imagePath, _, maxWidth, opacity, _) =>
      Combined(Lay(layer), below, Generated(Movie(imagePath, maxWidth, opacity)))
    case _ => Filtered(Lay(layer), below)
  }

  /** The first n layers over a video, in order. */
  function Layered(video: Video, layers: seq<Layer>, n: nat): Video
    requires n <= |layers|
  {
    if n == 0 then video else Over(Layered(video, layers, n - 1), layers[n - 1])
  }

  lemma ConnectedOneMore(links: Links, segments: seq<Segment>, s: Segment)
    requires Connected(links, segments).Some?
    ensures Connected(links, segments + [s]) == Connect(Connected(links, segments).value, s)
  {
    assert (segments + [s])[..|segments|] == segments;
  }

  lemma ConnectFilter(a: Label, b: Label, chain: Chain, video: Video)
    ensures Connect(map[a := video], Segment([a], chain, b)) == Some(map[b := Filtered(chain, video)])
  {
    var s := Segment([a], chain, b);
    assert s.inputs[0] == a;
    assert Read(s) == {a};
    assert map[a := video] - {a} == map[];
  }

  lemma ConnectMark(a: Label, m: Label, chain: Chain, video: Video)
    requires a != m
    ensures Connect(map[a := video], Segment([], chain, m)) == Some(map[a := video, m := Generated(chain)])
  {
    assert Read(Segment([], chain, m)) == {};
    assert map[a := video] - {} == map[a := video];
  }

  lemma ConnectOverlay(a: Label, m: Label, b: Label, chain: Chain, video: Video, mark: Video)
    requires a != m
    ensures Connect(map[a := video, m := mark], Segment([a, m], chain, b)) == Some(map[b := Combined(chain, video, mark)])
  {
    var s := Segment([a, m], chain, b);
    assert s.inputs[0] == a && s.inputs[1] == m;
    assert Read(s) == {a, m};
    assert map[a := video, m := mark] - {a, m} == map[];
  }

  function Rotated(rotation: Rotation): Video {
    Filtered(Rotate(rotation), Source)
  }

  lemma NoLayerConnected(rotation: Rotation, layers: seq<Layer>)
    ensures Connected(map[In := Source], FirstSegments(rotation, layers, 0)) == Some(map[Stage(0) := Rotated(rotation)])
  {
    var start, first := map[In := Source], Segment([In], Rotate(rotation), Stage(0));
    ConnectFilter(In, Stage(0), Rotate(rotation), Source);
    ConnectedOneMore(start, [], first);
    assert [] + [first] == [first];
    NoLayerSegments(rotation, layers);
  }

  lemma OneMoreLayerConnected(rotation: Rotation, layers: seq<Layer>, n: nat, below: Video)
    requires n < |layers|
    requires Connected(map[In := Source], FirstSegments(rotation, layers, n)) == Some(map[Stage(n) := below])
    ensures Connected(map[In := Source], FirstSegments(rotation, layers, n + 1))
         == Some(map[Stage(n + 1) := Over(below, layers[n])])
  {
    MoreSegments(rotation, layers, n);
    LayerConnected(map[In := Source], FirstSegments(rotation, layers, n), layers[n], n, below);
  }

  lemma {:induction false} FirstConnected(rotation: Rotation, layers: seq<Layer>, n: nat)
    requires n <= |layers|
    ensures Connected(map[In := Source], FirstSegments(rotation, layers, n))
         == Some(map[Stage(n) := Layered(Rotated(rotation), layers, n)])
  {
    if n == 0 {
      NoLayerConnected(rotation, layers);
    } else {
      FirstConnected(rotation, layers, n - 1);
      OneMoreLayerConnected(rotation, layers, n - 1, Layered(Rotated(rotation), layers, n - 1));
    }
  }

  lemma WatermarkConnected(start: Links, segments: seq<Segment>, layer: Layer, index: nat, below: Video)
    requires layer.Watermark? && Connected(start, segments) == Some(map[Stage(index) := below])
    ensures Connected(start, segments + LayerSegments(layer, index)) == Some(map[Stage(index + 1) := Over(below, layer)])
  {
    var more, chain := LayerSegments(layer, index), Movie(layer.imagePath, layer.maxWidth, layer.opacity);
    assert segments + more == (segments + [more[0]]) + [more[1]];
    ConnectMark(Stage(index), Mark(index), chain, below);
    ConnectedOneMore(start, segments, more[0]);
    ConnectOverlay(Stage(index), Mark(index), Stage(index + 1), Lay(layer), below, Generated(chain));
    ConnectedOneMore(start, segments + [more[0]], more[1]);
  }

  lemma LayerConnected(start: Links, segments: seq<Segment>, layer: Layer, index: nat, below: Video)
    requires Connected(start, segments) == Some(map[Stage(index) := below])
    ensures Connected(start, segments + LayerSegments(layer, index)) == Some(map[Stage(index + 1) := Over(below, layer)])
  {
    if layer.Watermark? {
      WatermarkConnected(start, segments, layer, index, below);
    } else {
      ConnectFilter(Stage(index), Stage(index + 1), Lay(layer), below);
      ConnectedOneMore(start, segments, LayerSegments(layer, index)[0]);
    }
  }

  /** From the input alone on `in`, the segments connect without clash, and end
      with nothing but `out`: the rotated input under the layers in manifest
      order. */
  lemma OneChainFromInToOut(rotation: Rotation, overlay: Option<seq<Layer>>)
    ensures var rotated := Rotated(rotation);
      Connected(map[In := Source], Segments(rotation, overlay)) == Some(map[Out :=
        if overlay.None? then rotated else Filtered(Pass, Layered(rotated, overlay.value, |overlay.value|))])
  {
    var start := map[In := Source];
    if overlay.None? {
      ConnectFilter(In, Out, Rotate(rotation), Source);
      ConnectedOneMore(start, [], Segment([In], Rotate(rotation), Out));
      assert [] + Segments(rotation, None) == Segments(rotation, None);
    } else {
      var n := |overlay.value|;
      FirstConnected(rotation, overlay.value, n);
      var below := Layered(Rotated(rotation), overlay.value, n);
      ConnectFilter(Stage(n), Out, Pass, below);
      ConnectedOneMore(start, FirstSegments(rotation, overlay.value, n), Segment([Stage(n)], Pass, Out));
    }
  }
}
