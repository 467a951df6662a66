/** What the host can do, found out by several probes whose answers are folded
    into one. */
module Capabilities {
  import opened Common
  import opened Manifest

  datatype PiModel = Pi4 | Pi5

  datatype Requirement =
    | NeedsFfmpeg
    | NeedsV4l2
    | NeedsLibcamera
    | NeedsRtpPacketization
    | NeedsPi4HardwareEncoder
    | NeedsPi5StatelessDecoder
    | NeedsDrawText
    | NeedsOverlay
    | NeedsScale
    | NeedsColorChannelMixer

  datatype Host = Host(ffmpeg: bool, v4l2: bool, libcamera: bool, rtpPacketization: bool, piModel: Option<PiModel>,
                       pi4H264Encoder: bool, pi5StatelessDecoder: bool, drawtextFilter: bool, overlayFilter: bool,
                       scaleFilter: bool, colorChannelMixerFilter: bool)

  const NOTHING: Host := Host(false, false, false, false, None, false, false, false, false, false, false)

  type Answer = Result<Host, CompileError>

  function Merge(a: Host, b: Host): Answer {
    if a.piModel.Some? && b.piModel.Some? && a.piModel != b.piModel then Err(ProbeFailure)
    else Ok(Host(a.ffmpeg || b.ffmpeg, a.v4l2 || b.v4l2, a.libcamera || b.libcamera,
                 a.rtpPacketization || b.rtpPacketization,
                 if a.piModel.Some? then a.piModel else b.piModel,
                 a.pi4H264Encoder || b.pi4H264Encoder, a.pi5StatelessDecoder || b.pi5StatelessDecoder,
                 a.drawtextFilter || b.drawtextFilter, a.overlayFilter || b.overlayFilter,
                 a.scaleFilter || b.scaleFilter, a.colorChannelMixerFilter || b.colorChannelMixerFilter))
  }

  /** The answers folded into what is known so far, up to the first failure. */
  function Folded(merged: Host, answers: seq<Answer>): Answer
    decreases |answers|
  {
    if answers == [] then Ok(merged)
    else if answers[0].Err? then answers[0]
    else
      match Merge(merged, answers[0].value)
      case Err(e) => Err(e)
      case Ok(more) => Folded(more, answers[1..])
  }

  method FoldProbes(answers: seq<Answer>) returns (r: Answer)
    ensures r == Folded(NOTHING, answers)
  {
    var merged := NOTHING;
    var i := 0;
    assert answers[0..] == answers;
    while i < |answers|
      invariant i <= |answers|
      invariant Folded(merged, answers[i..]) == Folded(NOTHING, answers)
    {
      assert answers[i..][0] == answers[i] && answers[i..][1..] == answers[i + 1..];
      if answers[i].Err? {
        return answers[i];
      }
      var more := Merge(merged, answers[i].value);
      if more.Err? {
        return more;
      }
      merged := more.value;
      i := i + 1;
    }
    return Ok(merged);
  }

  // ------------------------------------------------------------------
  // What the fold finds out
  // ------------------------------------------------------------------

  /** Whether a host meets a requirement. */
  predicate Has(host: Host, requirement: Requirement) {
    match requirement
    case NeedsFfmpeg => host.ffmpeg
    case NeedsV4l2 => host.v4l2
    case NeedsLibcamera => host.libcamera
    case NeedsRtpPacketization => host.rtpPacketization
    case NeedsPi4HardwareEncoder => host.pi4H264Encoder
    case NeedsPi5StatelessDecoder => host.pi5StatelessDecoder
    case NeedsDrawText => host.drawtextFilter
    case NeedsOverlay => host.overlayFilter
    case NeedsScale => host.scaleFilter
    case NeedsColorChannelMixer => host.colorChannelMixerFilter
  }

  lemma SameHost(a: Host, b: Host)
    requires a.piModel == b.piModel && forall r :: Has(a, r) == Has(b, r)
    ensures a == b
  {
    assert Has(a, NeedsFfmpeg) == Has(b, NeedsFfmpeg);
    assert Has(a, NeedsV4l2) == Has(b, NeedsV4l2);
    assert Has(a, NeedsLibcamera) == Has(b, NeedsLibcamera);
    assert Has(a, NeedsRtpPacketization) == Has(b, NeedsRtpPacketization);
    assert Has(a, NeedsPi4HardwareEncoder) == Has(b, NeedsPi4HardwareEncoder);
    assert Has(a, NeedsPi5StatelessDecoder) == Has(b, NeedsPi5StatelessDecoder);
    assert Has(a, NeedsDrawText) == Has(b, NeedsDrawText);
    assert Has(a, NeedsOverlay) == Has(b, NeedsOverlay);
    assert Has(a, NeedsScale) == Has(b, NeedsScale);
    assert Has(a, NeedsColorChannelMixer) == Has(b, NeedsColorChannelMixer);
  }

  lemma MergeHas(a: Host, b: Host, r: Requirement)
    requires Merge(a, b).Ok?
    ensures Has(Merge(a, b).value, r) <==> Has(a, r) || Has(b, r)
  {
  }

  /** Some answer, or what was known before, says that the requirement is met. */
  ghost predicate SomeHas(merged: Host, answers: seq<Answer>, r: Requirement) {
    Has(merged, r) || exists x :: x in answers && x.Ok? && Has(x.value, r)
  }

  ghost predicate SomeModel(merged: Host, answers: seq<Answer>, m: PiModel) {
    merged.piModel == Some(m) || exists x :: x in answers && x.Ok? && x.value.piModel == Some(m)
  }

  ghost predicate AllAnswer(answers: seq<Answer>) {
    forall x :: x in answers ==> x.Ok?
  }

  ghost predicate Disagree(merged: Host, answers: seq<Answer>) {
    SomeModel(merged, answers, Pi4) && SomeModel(merged, answers, Pi5)
  }

  lemma ModelCases(o: Option<PiModel>)
    ensures o == None || o == Some(Pi4) || o == Some(Pi5)
  {
    if o.Some? {
      assert o.value == Pi4 || o.value == Pi5;
    }
  }

  lemma InFirst(answers: seq<Answer>, x: Answer)
    requires answers != []
    ensures x in answers <==> x == answers[0] || x in answers[1..]
  {
    assert answers == [answers[0]] + answers[1..];
  }

  lemma FirstHas(merged: Host, answers: seq<Answer>, more: Host, r: Requirement)
    requires answers != [] && answers[0].Ok? && Merge(merged, answers[0].value) == Ok(more)
    ensures SomeHas(merged, answers, r) <==> SomeHas(more, answers[1..], r)
  {
    MergeHas(merged, answers[0].value, r);
    assert answers[0] in answers;
    forall x: Answer ensures x in answers <==> x == answers[0] || x in answers[1..] {
      InFirst(answers, x);
    }
  }

  lemma FirstModel(merged: Host, answers: seq<Answer>, more: Host, m: PiModel)
    requires answers != [] && answers[0].Ok? && Merge(merged, answers[0].value) == Ok(more)
    ensures SomeModel(merged, answers, m) <==> SomeModel(more, answers[1..], m)
  {
    assert more.piModel == Some(m) <==> merged.piModel == Some(m) || answers[0].value.piModel == Some(m);
    assert answers[0] in answers;
    forall x: Answer ensures x in answers <==> x == answers[0] || x in answers[1..] {
      InFirst(answers, x);
    }
  }

  /** The fold succeeds exactly when no probe fails and no two of them name
      different models, and then finds what any of them finds. */
  lemma {:induction false} FoldFinds(merged: Host, answers: seq<Answer>, r: Requirement, m: PiModel)
    ensures Folded(merged, answers).Ok? <==> AllAnswer(answers) && !Disagree(merged, answers)
    ensures Folded(merged, answers).Ok? ==>
      && (Has(Folded(merged, answers).value, r) <==> SomeHas(merged, answers, r))
      && (Folded(merged, answers).value.piModel == Some(m) <==> SomeModel(merged, answers, m))
    decreases |answers|
  {
    if answers == [] {
    } else if answers[0].Err? {
      assert answers[0] in answers;
    } else if Merge(merged, answers[0].value).Err? {
      assert answers[0] in answers;
      ModelCases(merged.piModel);
      ModelCases(answers[0].value.piModel);
      assert SomeModel(merged, answers, Pi4) && SomeModel(merged, answers, Pi5);
    } else {
      var more := Merge(merged, answers[0].value).value;
      FoldFinds(more, answers[1..], r, m);
      FirstHas(merged, answers, more, r);
      FirstModel(merged, answers, more, m);
      FirstModel(merged, answers, more, Pi4);
      FirstModel(merged, answers, more, Pi5);
      assert answers == [answers[0]] + answers[1..];
    }
  }

  /** Two answers that name different models. */
  predicate Clash(x: Answer, y: Answer) {
    && x.Ok? && x.value.piModel.Some?
    && y.Ok? && y.value.piModel.Some?
    && x.value.piModel != y.value.piModel
  }

  /** Folding fails exactly when a probe fails or two name different models. */
  lemma FoldSucceedsExactly(answers: seq<Answer>)
    ensures Folded(NOTHING, answers).Ok? <==>
      && AllAnswer(answers)
      && forall x, y :: x in answers && y in answers ==> !Clash(x, y)
  {
    FoldFinds(NOTHING, answers, NeedsFfmpeg, Pi4);
    if Disagree(NOTHING, answers) {
      var x :| x in answers && x.Ok? && x.value.piModel == Some(Pi4);
      var y :| y in answers && y.Ok? && y.value.piModel == Some(Pi5);
      assert Clash(x, y);
    } else {
      forall x, y | x in answers && y in answers ensures !Clash(x, y) {
        if Clash(x, y) {
          ModelCases(x.value.piModel);
          ModelCases(y.value.piModel);
          assert false;
        }
      }
    }
  }

  /** The order of the probes does not matter, nor does asking one twice. */
  lemma FoldOrderIrrelevant(a: seq<Answer>, b: seq<Answer>)
    requires forall x :: x in a <==> x in b
    ensures Folded(NOTHING, a).Ok? <==> Folded(NOTHING, b).Ok?
    ensures Folded(NOTHING, a).Ok? ==> Folded(NOTHING, a) == Folded(NOTHING, b)
  {
    FoldSucceedsExactly(a);
    FoldSucceedsExactly(b);
    if Folded(NOTHING, a).Ok? {
      var x, y := Folded(NOTHING, a).value, Folded(NOTHING, b).value;
      forall r ensures Has(x, r) == Has(y, r) {
        FoldFinds(NOTHING, a, r, Pi4);
        FoldFinds(NOTHING, b, r, Pi4);
        assert SomeHas(NOTHING, a, r) == SomeHas(NOTHING, b, r);
      }
      SameModel(a, b, Pi4);
      SameModel(a, b, Pi5);
      ModelCases(x.piModel);
      ModelCases(y.piModel);
      SameHost(x, y);
    }
  }

  lemma SameModel(a: seq<Answer>, b: seq<Answer>, m: PiModel)
    requires forall x :: x in a <==> x in b
    requires Folded(NOTHING, a).Ok? && Folded(NOTHING, b).Ok?
    ensures Folded(NOTHING, a).value.piModel == Some(m) <==> Folded(NOTHING, b).value.piModel == Some(m)
  {
    FoldFinds(NOTHING, a, NeedsFfmpeg, m);
    FoldFinds(NOTHING, b, NeedsFfmpeg, m);
    assert SomeModel(NOTHING, a, m) == SomeModel(NOTHING, b, m);
  }

  lemma PermutedProbes(a: seq<Answer>, b: seq<Answer>)
    requires multiset(a) == multiset(b)
    ensures Folded(NOTHING, a).Ok? <==> Folded(NOTHING, b).Ok?
    ensures Folded(NOTHING, a).Ok? ==> Folded(NOTHING, a) == Folded(NOTHING, b)
  {
    forall x ensures x in a <==> x in b {
      assert x in a <==> x in multiset(a);
      assert x in b <==> x in multiset(b);
    }
    FoldOrderIrrelevant(a, b);
  }
}
