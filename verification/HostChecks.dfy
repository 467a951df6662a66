/** Which hosts a manifest compiles on, field by field of what probes report. */
module HostChecks {
  import opened Common
  import opened Manifest
  import opened Capabilities
  import opened Compiler
  import opened CompilerResults
  import Template
  import Text

  // ------------------------------------------------------------------
  // What the probes report together
  // ------------------------------------------------------------------

  ghost predicate Reported(answers: seq<Answer>, field: Host -> bool) {
    exists x :: x in answers && x.Ok? && field(x.value)
  }

  lemma ReportedHas(answers: seq<Answer>, r: Requirement, field: Host -> bool)
    requires forall host :: field(host) == Has(host, r)
    requires Folded(NOTHING, answers).Ok?
    ensures Has(Folded(NOTHING, answers).value, r) <==> Reported(answers, field)
  {
    FoldFinds(NOTHING, answers, r, Pi4);
    assert !Has(NOTHING, r);
    if Reported(answers, field) {
      var x :| x in answers && x.Ok? && field(x.value);
      assert Has(x.value, r);
    }
    if SomeHas(NOTHING, answers, r) {
      var x :| x in answers && x.Ok? && Has(x.value, r);
      assert field(x.value);
    }
  }

  /** The folded host can do exactly what some probe reports. */
  lemma FoldedFields(answers: seq<Answer>)
    requires Folded(NOTHING, answers).Ok?
    ensures var host := Folded(NOTHING, answers).value;
      && (host.ffmpeg <==> Reported(answers, (h: Host) => h.ffmpeg))
      && (host.v4l2 <==> Reported(answers, (h: Host) => h.v4l2))
      && (host.libcamera <==> Reported(answers, (h: Host) => h.libcamera))
      && (host.rtpPacketization <==> Reported(answers, (h: Host) => h.rtpPacketization))
      && (host.pi4H264Encoder <==> Reported(answers, (h: Host) => h.pi4H264Encoder))
      && (host.pi5StatelessDecoder <==> Reported(answers, (h: Host) => h.pi5StatelessDecoder))
      && (host.drawtextFilter <==> Reported(answers, (h: Host) => h.drawtextFilter))
      && (host.overlayFilter <==> Reported(answers, (h: Host) => h.overlayFilter))
      && (host.scaleFilter <==> Reported(answers, (h: Host) => h.scaleFilter))
      && (host.colorChannelMixerFilter <==> Reported(answers, (h: Host) => h.colorChannelMixerFilter))
      && (host.piModel == Some(Pi4) <==> Reported(answers, (h: Host) => h.piModel == Some(Pi4)))
      && (host.piModel == Some(Pi5) <==> Reported(answers, (h: Host) => h.piModel == Some(Pi5)))
  {
    ReportedHas(answers, NeedsFfmpeg, (h: Host) => h.ffmpeg);
    ReportedHas(answers, NeedsV4l2, (h: Host) => h.v4l2);
    ReportedHas(answers, NeedsLibcamera, (h: Host) => h.libcamera);
    ReportedHas(answers, NeedsRtpPacketization, (h: Host) => h.rtpPacketization);
    ReportedHas(answers, NeedsPi4HardwareEncoder, (h: Host) => h.pi4H264Encoder);
    ReportedHas(answers, NeedsPi5StatelessDecoder, (h: Host) => h.pi5StatelessDecoder);
    ReportedHas(answers, NeedsDrawText, (h: Host) => h.drawtextFilter);
    ReportedHas(answers, NeedsOverlay, (h: Host) => h.overlayFilter);
    ReportedHas(answers, NeedsScale, (h: Host) => h.scaleFilter);
    ReportedHas(answers, NeedsColorChannelMixer, (h: Host) => h.colorChannelMixerFilter);
    ReportedModel(answers, Pi4, (h: Host) => h.piModel == Some(Pi4));
    ReportedModel(answers, Pi5, (h: Host) => h.piModel == Some(Pi5));
  }

  lemma ReportedModel(answers: seq<Answer>, model: PiModel, field: Host -> bool)
    requires forall host :: field(host) <==> host.piModel == Some(model)
    requires Folded(NOTHING, answers).Ok?
    ensures Folded(NOTHING, answers).value.piModel == Some(model) <==> Reported(answers, field)
  {
    FoldFinds(NOTHING, answers, NeedsFfmpeg, model);
    if Reported(answers, field) {
      var x :| x in answers && x.Ok? && field(x.value);
      assert x.value.piModel == Some(model);
    }
    if SomeModel(NOTHING, answers, model) {
      var x :| x in answers && x.Ok? && x.value.piModel == Some(model);
      assert field(x.value);
    }
  }

  // ------------------------------------------------------------------
  // Hosts a manifest compiles on
  // ------------------------------------------------------------------

  /** The host is known to be the other Raspberry Pi. */
  predicate OtherPi(target: HardwareTarget, host: Host) {
    || (target == RaspberryPi4 && host.piModel == Some(Pi5))
    || (target == RaspberryPi5 && host.piModel == Some(Pi4))
  }

  predicate SendsRtp(p: PipelineNode) {
    exists output :: output in p.outputs && output.WebrtcRtp?
  }

  /** The overlay has a watermark, or a layer of text. */
  predicate HasLayer(p: PipelineNode, watermark: bool) {
    p.overlay.Some? && exists layer :: layer in p.overlay.value && layer.Watermark? == watermark
  }

  lemma LayersUsed(p: PipelineNode)
    ensures (UsesWatermark(p) <==> HasLayer(p, true)) && (UsesText(p) <==> HasLayer(p, false))
  {
    if HasLayer(p, false) {
      var layer :| layer in p.overlay.value && layer.Watermark? == false;
      assert layer.Timestamp? || layer.Text?;
    }
    if UsesText(p) {
      var layer :| layer in p.overlay.value && (layer.Timestamp? || layer.Text?);
      assert layer.Watermark? == false;
    }
    if HasLayer(p, true) {
      var layer :| layer in p.overlay.value && layer.Watermark? == true;
    }
    if UsesWatermark(p) {
      var layer :| layer in p.overlay.value && layer.Watermark?;
      assert layer.Watermark? == true;
    }
  }

  /** The host has all that the pipeline uses. */
  predicate Provides(target: HardwareTarget, p: PipelineNode, host: Host) {
    && (p.inputType == Rtsp || p.backend == Some(Ffmpeg) ==> host.ffmpeg)
    && (p.inputType == Device && p.backend == Some(V4l2) ==> host.v4l2)
    && (p.inputType == Device && p.backend == Some(Libcamera) ==> host.libcamera)
    && (SendsRtp(p) ==> host.rtpPacketization)
    && (p.strategy == HardwareDecode ==> host.pi5StatelessDecoder)
    && (HasLayer(p, false) ==> host.drawtextFilter)
    && (HasLayer(p, true) ==> host.overlayFilter && host.scaleFilter && host.colorChannelMixerFilter)
    && (AsksForHardwareEncoder(p) && (p.strategy == Transcode || target == RaspberryPi4) ==> host.pi4H264Encoder)
  }

  lemma ProvidesIsServes(target: HardwareTarget, p: PipelineNode, host: Host)
    ensures Provides(target, p, host) <==> Serves(target, p, host)
  {
    forall r ensures r in RequirementsFor(p) <==> Needs(p, r) {
      RequirementsExactly(p, r);
    }
    assert Serves(target, p, host) ==> forall r :: Needs(p, r) ==> Has(host, r);
    if Serves(target, p, host) {
      ServesProvides(target, p, host);
    }
    if Provides(target, p, host) {
      ProvidesNeeds(target, p, host);
    }
  }

  /** A requirement that is needed is met. */
  predicate Met(p: PipelineNode, host: Host, r: Requirement) {
    Needs(p, r) ==> Has(host, r)
  }

  lemma ServesProvides(target: HardwareTarget, p: PipelineNode, host: Host)
    requires Serves(target, p, host) && forall r :: Needs(p, r) ==> Has(host, r)
    ensures Provides(target, p, host)
  {
    LayersUsed(p);
    assert Met(p, host, NeedsFfmpeg) && Met(p, host, NeedsV4l2) && Met(p, host, NeedsLibcamera);
    assert Met(p, host, NeedsRtpPacketization) && Met(p, host, NeedsDrawText);
    assert Met(p, host, NeedsPi4HardwareEncoder) && Met(p, host, NeedsPi5StatelessDecoder);
    assert Met(p, host, NeedsOverlay) && Met(p, host, NeedsScale) && Met(p, host, NeedsColorChannelMixer);
  }

  lemma ProvidesNeeds(target: HardwareTarget, p: PipelineNode, host: Host)
    requires Provides(target, p, host)
    ensures forall r :: Needs(p, r) ==> Has(host, r)
  {
    LayersUsed(p);
  }

  /** A manifest compiles on a host exactly when it compiles unchecked, the host
      is not the other Raspberry Pi, and it has all that each pipeline uses;
      and then to the same graph. */
  lemma CompilesExactly(m: Manifest, host: Host, variables: Variables, g: Graph)
    ensures Compiled(m, Some(host), variables) == Ok(g) <==>
      && Compiled(m, None, variables) == Ok(g)
      && !OtherPi(m.target, host)
      && forall i :: 0 <= i < |m.pipelines| ==> Provides(m.target, m.pipelines[i], host)
  {
    ProbedExactly(m, host, variables, g);
    forall i | 0 <= i < |m.pipelines|
      ensures Provides(m.target, m.pipelines[i], host) <==> Serves(m.target, m.pipelines[i], host)
    {
      ProvidesIsServes(m.target, m.pipelines[i], host);
    }
  }

  /** A host that names no model, or the target's own, is never the reason for
      a manifest not to compile, and neither is any model for a generic target. */
  lemma OwnModelCompiles(m: Manifest, host: Host, variables: Variables, g: Graph)
    requires Compiled(m, None, variables) == Ok(g)
    requires || m.target == GenericLinux || host.piModel == None
             || (m.target == RaspberryPi4 && host.piModel == Some(Pi4))
             || (m.target == RaspberryPi5 && host.piModel == Some(Pi5))
    requires forall i :: 0 <= i < |m.pipelines| ==> Provides(m.target, m.pipelines[i], host)
    ensures Compiled(m, Some(host), variables) == Ok(g)
  {
    CompilesExactly(m, host, variables, g);
  }

  /** On the other Raspberry Pi nothing compiles. */
  lemma OtherModelNever(m: Manifest, host: Host, variables: Variables)
    requires || (m.target == RaspberryPi4 && host.piModel == Some(Pi5))
             || (m.target == RaspberryPi5 && host.piModel == Some(Pi4))
    ensures Compiled(m, Some(host), variables) == Err(UnsupportedCapability)
  {
  }

  // ------------------------------------------------------------------
  // Errors
  // ------------------------------------------------------------------

  /** What is there of a pipeline does not fit its strategy. */
  predicate Inconsistent(p: PipelineNode) {
    if p.strategy == Passthrough then p.processing.Some? || p.network.None? || p.overlay.Some? else p.processing.None?
  }

  predicate SameIdBefore(m: Manifest, i: nat)
    requires i < |m.pipelines|
  {
    exists j :: 0 <= j < i && m.pipelines[j].id == m.pipelines[i].id
  }

  /** Each error of a pipeline has one cause, and the causes come in this order:
      an id used before, parts that do not fit the strategy, a hardware encoder
      on a Raspberry Pi 5, a host without something the pipeline uses, and a
      template that does not expand. */
  lemma ErrorOfPipelineExactly(m: Manifest, host: Option<Host>, variables: Variables, i: nat)
    requires i < |m.pipelines|
    ensures var p, r := m.pipelines[i], CompileOne(m, host, variables, i);
      var encodes := m.target == RaspberryPi5 && AsksForHardwareEncoder(p);
      var lacks := host.Some? && !Provides(m.target, p, host.value);
      var fits := !SameIdBefore(m, i) && !Inconsistent(p);
      && (r == Err(DuplicatePipelineId(p.id)) <==> SameIdBefore(m, i))
      && (r == Err(InvalidConfiguration) <==> !SameIdBefore(m, i) && Inconsistent(p))
      && (r == Err(HardwareMismatch) <==> fits && encodes)
      && (r == Err(UnsupportedCapability) <==> fits && !encodes && lacks)
      && (r.Err? && r.error.InvalidTemplate? <==> fits && !encodes && !lacks && CompileOverlay(p, variables).Err?)
  {
    var p := m.pipelines[i];
    assert p.id in SeenIds(m, i) <==> SameIdBefore(m, i);
    assert Misconfigured(p) <==> Inconsistent(p);
    OverlayErrors(p, variables);
    if host.Some? {
      ProvidesIsServes(m.target, p, host.value);
      RequirementsExactly(p, NeedsPi5StatelessDecoder);
    }
  }

  lemma OverlayErrors(p: PipelineNode, variables: Variables)
    ensures CompileOverlay(p, variables).Err? ==> CompileOverlay(p, variables).error.InvalidTemplate?
  {
    if p.overlay.Some? {
      LayerErrors(p.overlay.value, Template.VariablesFor(p.id, variables));
    }
  }

  // ------------------------------------------------------------------
  // Names of encoders
  // ------------------------------------------------------------------

  /** The same word but for the case of ASCII letters, against lower case. */
  predicate SameWord(word: string, lower: string) {
    && |word| == |lower|
    && forall i :: 0 <= i < |word| ==>
         word[i] == lower[i] || ('A' <= word[i] <= 'Z' && word[i] as int + 32 == lower[i] as int)
  }

  lemma SameWordIsLower(word: string, lower: string)
    requires forall i :: 0 <= i < |lower| ==> !('A' <= lower[i] <= 'Z')
    ensures SameWord(word, lower) <==> Text.Lower(word) == lower
  {
    if Text.Lower(word) == lower {
      forall i | 0 <= i < |word|
        ensures word[i] == lower[i] || ('A' <= word[i] <= 'Z' && word[i] as int + 32 == lower[i] as int)
      {
        assert Text.Lower(word)[i] == Text.LowerChar(word[i]);
      }
    }
  }

  /** Hardware encoders go by two names, in any case and with any white space
      around them. */
  lemma HardwareEncoderNames(before: string, word: string, after: string)
    requires Text.AllSpace(before) && Text.AllSpace(after) && Text.Trimmed(word)
    ensures IsHardwareEncoder(before + word + after) <==> SameWord(word, "hardware") || SameWord(word, "v4l2m2m")
  {
    Text.TrimIgnoresPadding(before, word, after);
    SameWordIsLower(word, "hardware");
    SameWordIsLower(word, "v4l2m2m");
  }
}
