/** The section table of ffprobe: names, kinds, and which section may be opened inside which. */
module Sections {
  datatype SectionId =
    | Chapter | ChapterTags | Chapters | Error | Format | FormatTags | Frame | FrameSideData
    | FrameSideDataList | FrameTags | Frames | LibraryVersion | LibraryVersions | Packet | PacketSideData
    | PacketSideDataList | Packets | PacketsAndFrames | PixelFormat | PixelFormatComponent | PixelFormatComponents
    | PixelFormatFlags | PixelFormats | Program | ProgramStream | ProgramStreamDisposition | ProgramStreamTags
    | ProgramStreams | ProgramTags | ProgramVersion | Programs | Root | Stream | StreamDisposition
    | StreamSideData | StreamSideDataList | StreamTags | Streams | Subtitle

  datatype Kind = Wrapper | Array | Object

  function Name(id: SectionId): string {
    match id
    case Chapter => "chapter"
    case ChapterTags => "tags"
    case Chapters => "chapters"
    case Error => "error"
    case Format => "format"
    case FormatTags => "tags"
    case Frame => "frame"
    case FrameSideData => "side_data"
    case FrameSideDataList => "side_data_list"
    case FrameTags => "tags"
    case Frames => "frames"
    case LibraryVersion => "library_version"
    case LibraryVersions => "library_versions"
    case Packet => "packet"
    case PacketSideData => "side_data"
    case PacketSideDataList => "side_data_list"
    case Packets => "packets"
    case PacketsAndFrames => "packets_and_frames"
    case PixelFormat => "pixel_format"
    case PixelFormatComponent => "component"
    case PixelFormatComponents => "components"
    case PixelFormatFlags => "flags"
    case PixelFormats => "pixel_formats"
    case Program => "program"
    case ProgramStream => "stream"
    case ProgramStreamDisposition => "disposition"
    case ProgramStreamTags => "tags"
    case ProgramStreams => "streams"
    case ProgramTags => "tags"
    case ProgramVersion => "program_version"
    case Programs => "programs"
    case Root => "root"
    case Stream => "stream"
    case StreamDisposition => "disposition"
    case StreamSideData => "side_data"
    case StreamSideDataList => "side_data_list"
    case StreamTags => "tags"
    case Streams => "streams"
    case Subtitle => "subtitle"
  }

  function KindOf(id: SectionId): Kind {
    match id
    case Root => Wrapper
    case Chapters => Array
    case Frames => Array
    case FrameSideDataList => Array
    case LibraryVersions => Array
    case Packets => Array
    case PacketsAndFrames => Array
    case PacketSideDataList => Array
    case PixelFormats => Array
    case PixelFormatComponents => Array
    case Programs => Array
    case ProgramStreams => Array
    case Streams => Array
    case StreamSideDataList => Array
    case _ => Object
  }

  /** The children listed in the table. */
  predicate Listed(parent: SectionId, child: SectionId) {
    match parent
    case Chapter =>
      child.ChapterTags?
    case Chapters =>
      child.Chapter?
    case Format =>
      child.FormatTags?
    case Frame =>
      child.FrameTags? || child.FrameSideDataList?
    case Frames =>
      child.Frame? || child.Subtitle?
    case FrameSideDataList =>
      child.FrameSideData?
    case LibraryVersions =>
      child.LibraryVersion?
    case Packet =>
      child.PacketSideDataList?
    case Packets =>
      child.Packet?
    case PacketsAndFrames =>
      child.Packet?
    case PacketSideDataList =>
      child.PacketSideData?
    case PixelFormat =>
      child.PixelFormatFlags? || child.PixelFormatComponents?
    case PixelFormats =>
      child.PixelFormat?
    case PixelFormatComponents =>
      child.PixelFormatComponent?
    case Program =>
      child.ProgramTags? || child.ProgramStreams?
    case Programs =>
      child.Program?
    case ProgramStream =>
      child.ProgramStreamDisposition? || child.ProgramStreamTags?
    case ProgramStreams =>
      child.ProgramStream?
    case Root =>
      || child.Chapters? || child.Format? || child.Frames? || child.Programs? || child.Streams? || child.Packets?
      || child.Error? || child.ProgramVersion? || child.LibraryVersions? || child.PixelFormats?
    case Stream =>
      child.StreamDisposition? || child.StreamTags? || child.StreamSideDataList?
    case Streams =>
      child.Stream?
    case StreamSideDataList =>
      child.StreamSideData?
    case _ => false
  }

  /** The table leaves out packets_and_frames, which -show_packets -show_frames opens inside the root. */
  predicate Child(parent: SectionId, child: SectionId) {
    || Listed(parent, child)
    || (parent.Root? && child.PacketsAndFrames?)
    || (parent.PacketsAndFrames? && (child.Packet? || child.Frame? || child.Subtitle?))
  }

  /** One row of the table. */
  datatype Section = Section(id: SectionId, name: string, kind: Kind)

  function Row(id: SectionId): Section { Section(id, Name(id), KindOf(id)) }

  /** Whether a section of one kind may stand inside one of another for the output to be JSON. */
  predicate Fits(parent: Section, child: Section) {
    !child.kind.Wrapper? && (parent.kind.Array? ==> child.kind.Object?)
  }

  /** Arrays hold objects only, and the wrapper is never nested. */
  lemma TableFits(parent: SectionId, child: SectionId)
    requires Child(parent, child)
    ensures Fits(Row(parent), Row(child))
  {
  }

  /** A level no occurrence of the section can lie above; the root is at level 0. */
  function Depth(id: SectionId): nat {
    match id
    case Root => 0
    case Chapters => 1 case Format => 1 case Frames => 1 case Programs => 1 case Streams => 1 case Packets => 1
    case Error => 1 case ProgramVersion => 1 case LibraryVersions => 1 case PixelFormats => 1 case PacketsAndFrames => 1
    case ProgramStreams => 3 case ProgramTags => 3
    case ProgramStream => 4
    case ProgramStreamDisposition => 5 case ProgramStreamTags => 5
    case Chapter => 2 case Frame => 2 case Subtitle => 2 case Program => 2 case Stream => 2 case Packet => 2
    case LibraryVersion => 2 case PixelFormat => 2 case FormatTags => 2
    case FrameSideData => 4 case PacketSideData => 4 case StreamSideData => 4 case PixelFormatComponent => 4
    case _ => 3
  }

  lemma ListedDepth(parent: SectionId, child: SectionId)
    requires Listed(parent, child)
    ensures Depth(parent) < Depth(child)
  {
  }

  lemma DepthGrows(parent: SectionId, child: SectionId)
    requires Child(parent, child)
    ensures Depth(parent) < Depth(child)
  {
    if Listed(parent, child) {
      ListedDepth(parent, child);
    }
  }
}
