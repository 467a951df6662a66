/** Overlay layers as the compiler hands them to the filter-graph builder. */
module Overlay {
  import opened Common

  datatype Position = TopLeft | TopRight | BottomLeft | BottomRight

  datatype Timezone = Local | Utc

  datatype Style = Style(position: Position, fontSize: nat, fontColor: string, backgroundColor: string,
                         backgroundAlpha: Byte, padding: nat, margin: nat)

  datatype Layer =
    | Timestamp(format: string, timezone: Timezone, style: Style)
    | Text(text: string, style: Style)
    | Watermark(imagePath: string, position: Position, maxWidth: Option<nat>, opacity: Byte, margin: nat)
}
