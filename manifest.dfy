/** The parsed Smooth Streaming manifest, as typed values instead of an XML
    tree. Attribute values stay strings, as ElementTree hands them over,
    except the chunk duration, which the checker only ever reads through
    `int(...)`. */
module SmoothManifest {
  import opened Wrappers

  /** One `CustomAttributes/Attribute` element of a quality level. */
  datatype Attribute = Attribute(name: string, value: string)

  /** A `QualityLevel` element. Only the attributes that take part in
      building chunk URLs are kept. */
  datatype QualityLevel = QualityLevel(bitrate: string, fourCC: string, customAttributes: seq<Attribute>)

  /** A `c` element: the optional start-time token `t` and the duration `d`. */
  datatype Chunk = Chunk(t: Option<string>, d: int)

  /** A `StreamIndex` element: its `Type`, its `Url` template, its quality
      levels and the chunk timeline they all share. */
  datatype StreamIndex = StreamIndex(kind: string, url: string, qualities: seq<QualityLevel>, chunks: seq<Chunk>)

  /** The root element's `MajorVersion` (absent when the attribute is
      missing), the `Url` of the root's first `Clip` child when that child
      exists and has one (a later `Clip` is never looked at), and every `StreamIndex` in document order. */
  datatype Manifest = Manifest(majorVersion: Option<string>, clipUrl: Option<string>, streams: seq<StreamIndex>)
}
