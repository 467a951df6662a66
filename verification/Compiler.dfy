/** The manifest compiler: checks every pipeline, compiles it, and plans the
    memory of the whole graph against the configured limit. */
module Compiler {
  import opened Common
  import opened Manifest
  import opened Capabilities
  import Overlay
  import Template
  import Text
  import Supervisor

  datatype ResolvedBackend = FfmpegRtsp | V4l2Device | LibcameraDevice | AutoDevice

  datatype ExecutionMode = EncodedPackets | DecodedFrames

  datatype CodecPath = PassthroughPath | SoftwareTranscode | HardwareTranscode | HardwareDecodePath

  datatype RecoveryClass = NetworkFailure | DeviceFailure | HardwareFailure

  datatype CompiledPipeline = CompiledPipeline(
    id: string, inputType: InputType, input: string, strategy: Strategy,
    network: Option<NetworkProfile>, processing: Option<ProcessingProfile>, overlay: Option<seq<Overlay.Layer>>,
    bufferSize: nat, bufferCount: nat, watchdogTimeout: nat,
    backend: ResolvedBackend, mode: ExecutionMode, codecPath: CodecPath,
    recoveryClass: RecoveryClass, recovery: Supervisor.RecoveryPolicy,
    requirements: seq<Requirement>, outputs: seq<OutputProfile>)

  datatype PoolPlan = PoolPlan(pipelineId: string, bufferSize: nat, bufferCount: nat, bytes: nat)

  datatype ResourcePlan = ResourcePlan(limit: nat, poolBytes: nat, backendBytes: nat, pools: seq<PoolPlan>,
                                       highMemoryUsage: bool)

  datatype Graph = Graph(target: HardwareTarget, limit: nat, plan: ResourcePlan, pipelines: seq<CompiledPipeline>)

  type Variables = Template.Variables

  const DEFAULT_PACKET_BUFFER_SIZE: nat := 2_048
  const DEFAULT_STALL_TIMEOUT: nat := 10_000
  const DEFAULT_MARGIN: nat := 12

  // ------------------------------------------------------------------
  // One pipeline
  // ------------------------------------------------------------------

  predicate IsHardwareEncoder(encoder: string) {
    var name := Text.Lower(Text.Trim(encoder));
    name == "hardware" || name == "v4l2m2m"
  }

  predicate AsksForHardwareEncoder(p: PipelineNode) {
    p.processing.Some? && IsHardwareEncoder(p.processing.value.encoder)
  }

  function BackendOf(p: PipelineNode): Backend {
    if p.backend.Some? then p.backend.value else Auto
  }

  function ResolveBackend(p: PipelineNode): ResolvedBackend {
    match p.inputType
    case Rtsp => FfmpegRtsp
    case Device =>
      match BackendOf(p)
      case V4l2 => V4l2Device
      case Libcamera => LibcameraDevice
      case _ => AutoDevice
  }

  function ResolveCodecPath(p: PipelineNode): CodecPath {
    match p.strategy
    case Passthrough => PassthroughPath
    case HardwareDecode => HardwareDecodePath
    case Transcode => if AsksForHardwareEncoder(p) then HardwareTranscode else SoftwareTranscode
  }

  function RecoveryClassOf(p: PipelineNode): RecoveryClass {
    if p.strategy == HardwareDecode then HardwareFailure
    else if p.inputType == Rtsp then NetworkFailure
    else DeviceFailure
  }

  /** Times are milliseconds. */
  function RecoveryPolicyFor(p: PipelineNode): Supervisor.RecoveryPolicy {
    match RecoveryClassOf(p)
    case NetworkFailure => Supervisor.RecoveryPolicy(5, 250, 5_000, 2.0, 30_000)
    case DeviceFailure => Supervisor.RecoveryPolicy(3, 1_000, 30_000, 2.0, 60_000)
    case HardwareFailure => Supervisor.RecoveryPolicy(3, 2_000, 60_000, 2.0, 120_000)
  }

  function InputRequirements(p: PipelineNode): seq<Requirement> {
    match p.inputType
    case Rtsp => [NeedsFfmpeg]
    case Device =>
      match BackendOf(p)
      case Auto => []
      case Ffmpeg => [NeedsFfmpeg]
      case V4l2 => [NeedsV4l2]
      case Libcamera => [NeedsLibcamera]
  }

  /** One requirement for each WebRTC output. */
  function OutputRequirements(outputs: seq<OutputProfile>): seq<Requirement> {
    if outputs == [] then []
    else OutputRequirements(outputs[..|outputs| - 1])
         + if outputs[|outputs| - 1].WebrtcRtp? then [NeedsRtpPacketization] else []
  }

  predicate UsesText(p: PipelineNode) {
    p.overlay.Some? && exists layer :: layer in p.overlay.value && (layer.Timestamp? || layer.Text?)
  }

  predicate UsesWatermark(p: PipelineNode) {
    p.overlay.Some? && exists layer :: layer in p.overlay.value && layer.Watermark?
  }

  function RequirementsFor(p: PipelineNode): seq<Requirement> {
    InputRequirements(p) + OutputRequirements(p.outputs)
    + (if ResolveCodecPath(p) == HardwareTranscode then [NeedsPi4HardwareEncoder] else [])
    + (if p.strategy == HardwareDecode then [NeedsPi5StatelessDecoder] else [])
    + (if UsesText(p) then [NeedsDrawText] else [])
    + (if UsesWatermark(p) then [NeedsOverlay, NeedsScale, NeedsColorChannelMixer] else [])
  }

  method CapabilityRequirementsFor(p: PipelineNode) returns (requirements: seq<Requirement>)
    ensures requirements == RequirementsFor(p)
  {
    requirements := InputRequirements(p);
    var i := 0;
    while i < |p.outputs|
      invariant i <= |p.outputs|
      invariant requirements == InputRequirements(p) + OutputRequirements(p.outputs[..i])
    {
      assert p.outputs[..i + 1][..i] == p.outputs[..i];
      if p.outputs[i].WebrtcRtp? {
        requirements := requirements + [NeedsRtpPacketization];
      }
      i := i + 1;
    }
    assert p.outputs[..i] == p.outputs;
    if ResolveCodecPath(p) == HardwareTranscode {
      requirements := requirements + [NeedsPi4HardwareEncoder];
    }
    if p.strategy == HardwareDecode {
      requirements := requirements + [NeedsPi5StatelessDecoder];
    }
    if UsesText(p) {
      requirements := requirements + [NeedsDrawText];
    }
    if UsesWatermark(p) {
      requirements := requirements + [NeedsOverlay, NeedsScale, NeedsColorChannelMixer];
    }
  }

  /** The configuration errors, in the order they are looked for; none of them
      depends on the host. */
  predicate Misconfigured(p: PipelineNode) {
    || (p.strategy == Passthrough && p.processing.Some?)
    || (p.strategy == Passthrough && p.network.None?)
    || (p.strategy == Passthrough && p.overlay.Some?)
    || (p.strategy == Transcode && p.processing.None?)
    || (p.strategy == HardwareDecode && p.processing.None?)
  }

  function ValidatePipeline(target: HardwareTarget, p: PipelineNode, host: Option<Host>): Option<CompileError> {
    if Misconfigured(p) then Some(InvalidConfiguration)
    else if target == RaspberryPi5 && AsksForHardwareEncoder(p) then Some(HardwareMismatch)
    else if target == RaspberryPi4 && AsksForHardwareEncoder(p) && host.Some? && !host.value.pi4H264Encoder then
      Some(UnsupportedCapability)
    else if p.strategy == HardwareDecode && target == RaspberryPi5 && host.Some? && !host.value.pi5StatelessDecoder then
      Some(UnsupportedCapability)
    else if host.Some? && exists r :: r in RequirementsFor(p) && !Has(host.value, r) then Some(UnsupportedCapability)
    else None
  }

  function OrElse<T>(o: Option<T>, default: T): T {
    if o.Some? then o.value else default
  }

  function CompileStyle(position: Overlay.Position, style: TextStyle): Overlay.Style {
    Overlay.Style(position, OrElse(style.fontSize, 18), OrElse(style.fontColor, "white"),
                  OrElse(style.backgroundColor, "black"), OrElse(style.backgroundAlpha, 60),
                  OrElse(style.padding, 6), OrElse(style.margin, DEFAULT_MARGIN))
  }

  function DefaultTimestampFormat(timezone: Overlay.Timezone): string {
    match timezone
    case Utc => "%Y-%m-%d %H:%M:%S UTC"
    case Local => "%Y-%m-%d %H:%M:%S"
  }

  function CompileLayer(layer: OverlayLayer, variables: Variables): Result<Overlay.Layer, CompileError> {
    match layer
    case Timestamp(position, timezone, format, style) =>
      Ok(Overlay.Timestamp(OrElse(format, DefaultTimestampFormat(timezone)), timezone, CompileStyle(position, style)))
    case Text(text, position, style) => (
      match Template.Expanded(text, variables)
      case Ok(expanded) => Ok(Overlay.Layer.Text(expanded, CompileStyle(position, style)))
      case Err(cause) => Err(InvalidTemplate(cause)))
    case Watermark(imagePath, position, maxWidth, opacity, margin) =>
      Ok(Overlay.Watermark(imagePath, position, maxWidth, OrElse(opacity, 100), OrElse(margin, DEFAULT_MARGIN)))
  }

  function CompileLayers(layers: seq<OverlayLayer>, variables: Variables): Result<seq<Overlay.Layer>, CompileError> {
    if layers == [] then Ok([])
    else
      match CompileLayer(layers[0], variables)
      case Err(e) => Err(e)
      case Ok(first) =>
        match CompileLayers(layers[1..], variables)
        case Err(e) => Err(e)
        case Ok(rest) => Ok([first] + rest)
  }

  function CompileOverlay(p: PipelineNode, variables: Variables): Result<Option<seq<Overlay.Layer>>, CompileError> {
    if p.overlay.None? then Ok(None)
    else
      match CompileLayers(p.overlay.value, Template.VariablesFor(p.id, variables))
      case Err(e) => Err(e)
      case Ok(layers) => Ok(Some(layers))
  }

  function BufferCount(strategy: Strategy): nat {
    match strategy
    case Passthrough => 100
    case Transcode => 64
    case HardwareDecode => 32
  }

  function CompilePipeline(p: PipelineNode, variables: Variables): Result<CompiledPipeline, CompileError> {
    match CompileOverlay(p, variables)
    case Err(e) => Err(e)
    case Ok(overlay) => Ok(CompiledPipeline(
      p.id, p.inputType, p.input, p.strategy, p.network, p.processing, overlay,
      if p.network.Some? then p.network.value.packetSizeLimit else DEFAULT_PACKET_BUFFER_SIZE,
      BufferCount(p.strategy),
      if p.network.Some? then p.network.value.stallTimeout else DEFAULT_STALL_TIMEOUT,
      ResolveBackend(p), if p.strategy == Passthrough then EncodedPackets else DecodedFrames, ResolveCodecPath(p),
      RecoveryClassOf(p), RecoveryPolicyFor(p), RequirementsFor(p), p.outputs))
  }

  // ------------------------------------------------------------------
  // The whole manifest
  // ------------------------------------------------------------------

  predicate WrongModel(target: HardwareTarget, host: Host) {
    || (target == RaspberryPi4 && host.piModel == Some(Pi5))
    || (target == RaspberryPi5 && host.piModel == Some(Pi4))
  }

  function SeenIds(m: Manifest, n: nat): set<string>
    requires n <= |m.pipelines|
  {
    set i | 0 <= i < n :: m.pipelines[i].id
  }

  /** What becomes of the i-th pipeline when those before it are fine. */
  function CompileOne(m: Manifest, host: Option<Host>, variables: Variables, i: nat): Result<CompiledPipeline, CompileError>
    requires i < |m.pipelines|
  {
    var p := m.pipelines[i];
    if p.id in SeenIds(m, i) then Err(DuplicatePipelineId(p.id))
    else
      match ValidatePipeline(m.target, p, host)
      case Some(e) => Err(e)
      case None => CompilePipeline(p, variables)
  }

  /** The values of the first n results, or the first error among them. */
  function Collected<T, E>(results: seq<Result<T, E>>, n: nat): Result<seq<T>, E>
    requires n <= |results|
  {
    if n == 0 then Ok([])
    else
      match Collected(results, n - 1)
      case Err(e) => Err(e)
      case Ok(done) =>
        match results[n - 1]
        case Err(e) => Err(e)
        case Ok(value) => Ok(done + [value])
  }

  function Outcomes(m: Manifest, host: Option<Host>, variables: Variables)
    : (outcomes: seq<Result<CompiledPipeline, CompileError>>)
    ensures |outcomes| == |m.pipelines|
  {
    seq(|m.pipelines|, i requires 0 <= i < |m.pipelines| => CompileOne(m, host, variables, i))
  }

  /** The compiled pipelines, or the first error among them. */
  function CompiledPipelines(m: Manifest, host: Option<Host>, variables: Variables)
    : Result<seq<CompiledPipeline>, CompileError>
  {
    Collected(Outcomes(m, host, variables), |m.pipelines|)
  }

  function LimitOf(m: Manifest): nat {
    if m.cmaLimit.Some? then m.cmaLimit.value else if m.mediaLimit.Some? then m.mediaLimit.value else 0
  }

  /** The result of 64-bit saturating arithmetic; `max` is U64_MAX. */
  function Clamp(n: nat, max: nat): nat {
    if n <= max then n else max
  }

  const FRAME_SIZE: nat := 1920 * 1080 * 3 / 2

  /** What one pipeline's buffers outside the pool are taken to need. */
  function BackendEstimate(p: CompiledPipeline, max: nat): nat {
    match p.backend
    case FfmpegRtsp => Clamp(128 * p.bufferSize, max)
    case LibcameraDevice => 8 * FRAME_SIZE + 8 * FRAME_SIZE
    case _ => 128 * 1200 + 8 * FRAME_SIZE + 32 * 256_000
  }

  function PoolPlanOf(p: CompiledPipeline, max: nat): PoolPlan {
    PoolPlan(p.id, p.bufferSize, p.bufferCount, Clamp(p.bufferSize * p.bufferCount, max))
  }

  function PoolPlans(pipelines: seq<CompiledPipeline>, max: nat): seq<PoolPlan> {
    seq(|pipelines|, i requires 0 <= i < |pipelines| => PoolPlanOf(pipelines[i], max))
  }

  /** The running sum of the first n terms, saturating at every step. */
  function SaturatingSum(terms: seq<nat>, n: nat, max: nat): nat
    requires n <= |terms|
  {
    if n == 0 then 0 else Clamp(SaturatingSum(terms, n - 1, max) + terms[n - 1], max)
  }

  function PoolTerms(pipelines: seq<CompiledPipeline>, max: nat): seq<nat> {
    seq(|pipelines|, i requires 0 <= i < |pipelines| => PoolPlanOf(pipelines[i], max).bytes)
  }

  function BackendTerms(pipelines: seq<CompiledPipeline>, max: nat): seq<nat> {
    seq(|pipelines|, i requires 0 <= i < |pipelines| => BackendEstimate(pipelines[i], max))
  }

  function Planned(m: Manifest, pipelines: seq<CompiledPipeline>, max: nat): Result<Graph, CompileError> {
    var limit, n := LimitOf(m), |pipelines|;
    var pool, backend := SaturatingSum(PoolTerms(pipelines, max), n, max), SaturatingSum(BackendTerms(pipelines, max), n, max);
    if pool > limit then Err(ResourceLimitExceeded(limit, pool))
    else Ok(Graph(m.target, limit,
                  ResourcePlan(limit, pool, backend, PoolPlans(pipelines, max), Clamp(pool + backend, max) > limit),
                  pipelines))
  }

  function Compiled(m: Manifest, host: Option<Host>, variables: Variables): Result<Graph, CompileError> {
    if host.Some? && WrongModel(m.target, host.value) then Err(UnsupportedCapability)
    else
      match CompiledPipelines(m, host, variables)
      case Err(e) => Err(e)
      case Ok(pipelines) => Planned(m, pipelines, U64_MAX)
  }

  /** The first error decides. */
  lemma {:induction false} FirstErrorStays<T, E>(results: seq<Result<T, E>>, i: nat, n: nat)
    requires i < n <= |results| && Collected(results, i).Ok? && results[i].Err?
    ensures Collected(results, n) == Err(results[i].error)
    decreases n
  {
    if i == n - 1 {
    } else {
      FirstErrorStays(results, i, n - 1);
    }
  }

  lemma PoolPlansMore(pipelines: seq<CompiledPipeline>, i: nat, max: nat)
    requires i < |pipelines|
    ensures PoolPlans(pipelines[..i + 1], max) == PoolPlans(pipelines[..i], max) + [PoolPlanOf(pipelines[i], max)]
  {
  }

  method CompileInternal(m: Manifest, host: Option<Host>, variables: Variables) returns (r: Result<Graph, CompileError>)
    ensures r == Compiled(m, host, variables)
  {
    if host.Some? && WrongModel(m.target, host.value) {
      return Err(UnsupportedCapability);
    }
    var pipelines := CompileAll(m, host, variables);
    match pipelines
    case Err(e) => return Err(e);
    case Ok(all) => r := Plan(m, all, U64_MAX);
  }

  method CompileAll(m: Manifest, host: Option<Host>, variables: Variables)
    returns (r: Result<seq<CompiledPipeline>, CompileError>)
    ensures r == CompiledPipelines(m, host, variables)
  {
    ghost var outcomes := Outcomes(m, host, variables);
    var seen: set<string>, pipelines: seq<CompiledPipeline> := {}, [];
    var i := 0;
    while i < |m.pipelines|
      invariant i <= |m.pipelines| && seen == SeenIds(m, i)
      invariant Collected(outcomes, i) == Ok(pipelines)
    {
      var one := CompileNext(m, host, variables, i, seen);
      assert outcomes[i] == one;
      if one.Err? {
        FirstErrorStays(outcomes, i, |m.pipelines|);
        return Err(one.error);
      }
      seen := seen + {m.pipelines[i].id};
      assert seen == SeenIds(m, i + 1);
      pipelines := pipelines + [one.value];
      i := i + 1;
    }
    return Ok(pipelines);
  }

  /** One turn of the loop, on the pipeline's id, its validity and its parts. */
  method CompileNext(m: Manifest, host: Option<Host>, variables: Variables, i: nat, seen: set<string>)
    returns (r: Result<CompiledPipeline, CompileError>)
    requires i < |m.pipelines| && seen == SeenIds(m, i)
    ensures r == CompileOne(m, host, variables, i)
  {
    var p := m.pipelines[i];
    if p.id in seen {
      return Err(DuplicatePipelineId(p.id));
    }
    var problem := ValidatePipeline(m.target, p, host);
    if problem.Some? {
      return Err(problem.value);
    }
    return CompilePipeline(p, variables);
  }

  method EstimatePools(pipelines: seq<CompiledPipeline>, max: nat) returns (pools: seq<PoolPlan>, total: nat)
    ensures pools == PoolPlans(pipelines, max) && total == SaturatingSum(PoolTerms(pipelines, max), |pipelines|, max)
  {
    pools, total := [], 0;
    var i := 0;
    while i < |pipelines|
      invariant i <= |pipelines|
      invariant total == SaturatingSum(PoolTerms(pipelines, max), i, max) && pools == PoolPlans(pipelines[..i], max)
    {
      var plan := PoolPlanOf(pipelines[i], max);
      pools := pools + [plan];
      total := Clamp(total + plan.bytes, max);
      PoolPlansMore(pipelines, i, max);
      i := i + 1;
    }
    assert pipelines[..i] == pipelines;
  }

  method EstimateBackends(pipelines: seq<CompiledPipeline>, max: nat) returns (total: nat)
    ensures total == SaturatingSum(BackendTerms(pipelines, max), |pipelines|, max)
  {
    total := 0;
    var i := 0;
    while i < |pipelines|
      invariant i <= |pipelines|
      invariant total == SaturatingSum(BackendTerms(pipelines, max), i, max)
    {
      total := Clamp(total + BackendEstimate(pipelines[i], max), max);
      i := i + 1;
    }
  }

  method Plan(m: Manifest, pipelines: seq<CompiledPipeline>, max: nat) returns (r: Result<Graph, CompileError>)
    ensures r == Planned(m, pipelines, max)
  {
    var limit := LimitOf(m);
    var pools, pool := EstimatePools(pipelines, max);
    if pool > limit {
      return Err(ResourceLimitExceeded(limit, pool));
    }
    var backend := EstimateBackends(pipelines, max);
    return Ok(Graph(m.target, limit, ResourcePlan(limit, pool, backend, pools, Clamp(pool + backend, max) > limit),
                    pipelines));
  }
}
