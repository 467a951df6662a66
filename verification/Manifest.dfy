/** The manifest as parsed and checked for syntax, and compile errors without
    their message texts. */
module Manifest {
  import opened Common
  import Overlay
  import Template

  type U64 = n: nat | n <= U64_MAX

  datatype HardwareTarget = RaspberryPi4 | RaspberryPi5 | GenericLinux

  datatype InputType = Rtsp | Device

  datatype Strategy = Passthrough | Transcode | HardwareDecode

  datatype Backend = Auto | Ffmpeg | V4l2 | Libcamera

  datatype NetworkProfile = NetworkProfile(tcp: bool, packetSizeLimit: U64, stallTimeout: nat)

  datatype ProcessingProfile = ProcessingProfile(codec: string, encoder: string, preset: string, tune: string,
                                                 frameRate: nat, bitrate: nat, rotation: Option<int>)

  datatype TextStyle = TextStyle(fontSize: Option<nat>, fontColor: Option<string>, backgroundColor: Option<string>,
                                 backgroundAlpha: Option<Byte>, padding: Option<nat>, margin: Option<nat>)

  datatype OverlayLayer =
    | Timestamp(position: Overlay.Position, timezone: Overlay.Timezone, format: Option<string>, style: TextStyle)
    | Text(text: string, position: Overlay.Position, style: TextStyle)
    | Watermark(imagePath: string, position: Overlay.Position, maxWidth: Option<nat>, opacity: Option<Byte>, margin: Option<nat>)

  datatype OutputProfile = WebrtcRtp(queueLimit: Option<nat>, policy: DropPolicy)
                         | Recording(queueLimit: Option<nat>, policy: DropPolicy)

  datatype PipelineNode = PipelineNode(id: string, input: string, inputType: InputType, strategy: Strategy,
                                       backend: Option<Backend>, network: Option<NetworkProfile>,
                                       processing: Option<ProcessingProfile>, overlay: Option<seq<OverlayLayer>>,
                                       outputs: seq<OutputProfile>)

  datatype Manifest = Manifest(target: HardwareTarget, cmaLimit: Option<U64>, mediaLimit: Option<U64>,
                               pipelines: seq<PipelineNode>)

  /** InvalidTemplate is an invalid configuration too, with its cause. */
  datatype CompileError =
    | HardwareMismatch
    | InvalidConfiguration
    | InvalidTemplate(cause: Template.TemplateError)
    | DuplicatePipelineId(id: string)
    | UnsupportedCapability
    | ProbeFailure
    | ResourceLimitExceeded(limit: nat, usage: nat)
}
