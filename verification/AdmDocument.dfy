/** The ADM document as a tree of elements, and the tree the exporter builds for a plan. */
module AdmDocument {
  import opened Wrappers
  import opened Text
  import opened AdmIds
  import opened AdmTimes
  import opened AdmTracks

  datatype Tag =
    | EbuCoreMain | CoreMetadata | Format | AudioFormatExtended
    | AudioProgramme | AudioContent | AudioObject | AudioPackFormat | AudioChannelFormat
    | AudioBlockFormat | AudioStreamFormat | AudioTrackFormat | AudioTrackUid
    | ContentRef | ObjectRef | PackRef | TrackUidRef | ChannelRef | StreamRef | TrackFormatRef
    | Dialogue | SpeakerLabel | Cartesian | Position | JumpPosition
    | OtherTag(name: string)

  datatype Attribute =
    | Id  // audioProgrammeID, audioContentID, …, UID: each element's own identifier attribute
    | FormatName  // audioChannelFormatName, audioStreamFormatName, audioTrackFormatName
    | Start | End | Duration | Rtime
    | TypeLabel | TypeDefinition | FormatLabel | FormatDefinition
    | SampleRate | BitDepth | TrackIndex | PackRefAttribute | ChannelRefAttribute
    | MixedContentKind | Coordinate | InterpolationLength
    | OtherAttribute(name: string)

  datatype Element = Element(tag: Tag, attributes: map<Attribute, string>, text: Option<string>,
      children: seq<Element>) {
    function Attr(a: Attribute): Option<string> {
      if a in attributes then Some(attributes[a]) else None
    }
  }

  datatype Namespace = EbuCore2014 | EbuCore2016 | OtherNamespace

  datatype Document = Document(namespace: Namespace, root: Element)

  // ---------------------------------------------------------------- navigation

  /** Children with a given tag, in order. */
  function Named(es: seq<Element>, tag: Tag): seq<Element> {
    if es == [] then [] else (if es[0].tag == tag then [es[0]] else []) + Named(es[1..], tag)
  }

  /** All elements with a given tag in a forest, in document order. */
  function Found(es: seq<Element>, tag: Tag): seq<Element> {
    if es == [] then []
    else (if es[0].tag == tag then [es[0]] else []) + Found(es[0].children, tag) + Found(es[1..], tag)
  }

  /** Trimmed nonempty texts of the children with a given tag. */
  function RefValues(es: seq<Element>, tag: Tag): seq<string> {
    if es == [] then []
    else
      var rest := RefValues(es[1..], tag);
      if es[0].tag == tag && es[0].text.Some? && Trim(es[0].text.value) != ""
      then [Trim(es[0].text.value)] + rest
      else rest
  }

  /** The first child with a given tag and identifier. */
  function FindById(es: seq<Element>, tag: Tag, id: string): Option<Element> {
    if es == [] then None
    else if es[0].tag == tag && es[0].Attr(Id) == Some(id) then Some(es[0])
    else FindById(es[1..], tag, id)
  }

  // ---------------------------------------------------------------- make_xml

  const PROGRAMME_ID := "APR_1001"
  const CONTENT_ID := "ACO_1001"
  const TIME_ZERO := "00:00:00.00000"
  const BED_OBJECT: nat := 0x1001
  const SMOOTHING_SAMPLES := "250"

  function Leaf(tag: Tag, text: string): Element {
    Element(tag, map[], Some(text), [])
  }

  function Refs(tag: Tag, ids: seq<string>): (es: seq<Element>)
    ensures |es| == |ids|
  {
    seq(|ids|, i requires 0 <= i < |ids| => Leaf(tag, ids[i]))
  }

  function BedTracks(tracks: seq<TrackDescriptor>): seq<TrackDescriptor> {
    if tracks == [] then []
    else (if tracks[0].kind.Bed? then [tracks[0]] else []) + BedTracks(tracks[1..])
  }

  function ObjectTracks(tracks: seq<TrackDescriptor>): seq<TrackDescriptor> {
    if tracks == [] then []
    else (if tracks[0].kind.Reconstruction? then [tracks[0]] else []) + ObjectTracks(tracks[1..])
  }

  function Uids(tracks: seq<TrackDescriptor>): (ids: seq<string>)
    ensures |ids| == |tracks|
  {
    seq(|tracks|, i requires 0 <= i < |tracks| => tracks[i].uid)
  }

  function ChannelIds(tracks: seq<TrackDescriptor>): (ids: seq<string>)
    ensures |ids| == |tracks|
  {
    seq(|tracks|, i requires 0 <= i < |tracks| => tracks[i].channelId)
  }

  function ProgrammeElement(end: string): Element {
    Element(AudioProgramme, map[Id := PROGRAMME_ID, Start := TIME_ZERO, End := end], None,
      [Leaf(ContentRef, CONTENT_ID)])
  }

  function ObjectIds(bed: bool, objects: nat): seq<string> {
    (if bed then [ObjectId(BED_OBJECT)] else []) + seq(objects, i requires 0 <= i => ObjectId(OBJECT_BASE + i))
  }

  function ContentElement(bed: bool, objects: nat): Element {
    Element(AudioContent, map[Id := CONTENT_ID], None,
            Refs(ObjectRef, ObjectIds(bed, objects)) + [Element(Dialogue, map[MixedContentKind := "0"], Some("2"), [])])
  }

  function ObjectElement(number: nat, packId: string, uids: seq<string>, duration: string): Element {
    Element(AudioObject, map[Id := ObjectId(number), Start := TIME_ZERO, Duration := duration], None,
            [Leaf(PackRef, packId)] + Refs(TrackUidRef, uids))
  }

  function PackElement(packId: string, t: FormatType, channelIds: seq<string>): Element {
    Element(AudioPackFormat, map[Id := packId, TypeLabel := t.Label(), TypeDefinition := t.Definition()], None,
            Refs(ChannelRef, channelIds))
  }

  function PositionElement(axis: string, text: string): Element {
    Element(Position, map[Coordinate := axis], Some(text), [])
  }

  function Positions(x: string, y: string, z: string): seq<Element> {
    [PositionElement("X", x), PositionElement("Y", y), PositionElement("Z", z)]
  }

  function IntegerText(n: int): string {
    if n < 0 then "-" + Natural(-n, 10) else Natural(n, 10)
  }

  /** `{:.6}`: six decimals, ties to even. */
  function SixDecimals(x: real): string {
    var scaled := (if x < 0.0 then -x else x) * 1_000_000.0;
    var low := scaled.Floor;
    var gap := scaled - low as real;
    var rounded: nat := if gap > 0.5 || (gap == 0.5 && low % 2 == 1) then low + 1 else low;
    (if x < 0.0 then "-" else "") + Natural(rounded / 1_000_000, 10) + "." + Padded(rounded % 1_000_000, 6, 10)
  }

  function BlockPrefix(channelId: string): string {
    "AB_" + (if |channelId| >= 3 then channelId[3..] else "")
  }

  function BlockNumberedId(channelId: string, number: nat): string {
    BlockPrefix(channelId) + "_" + Padded(number, 8, 16)
  }

  function BedBlock(channelId: string, channel: BedChannel): Element {
    var (x, y, z) := channel.Position();
    Element(AudioBlockFormat, map[Id := BlockNumberedId(channelId, 1)], None,
            [Leaf(SpeakerLabel, channel.SpeakerLabel()), Leaf(Cartesian, "1")] +
            Positions(IntegerText(x), IntegerText(y), IntegerText(z)))
  }

  function ObjectBlock(channelId: string, number: nat, rtime: string, duration: string, p: AdmPosition,
      jump: string): Element {
    Element(AudioBlockFormat, map[Id := BlockNumberedId(channelId, number), Rtime := rtime, Duration := duration], None,
            [Leaf(Cartesian, "1")] + Positions(SixDecimals(p.x), SixDecimals(p.y), SixDecimals(p.z)) +
            [Element(JumpPosition, map[InterpolationLength := jump], Some("1"), [])])
  }

  function Jump(index: nat): string {
    if index == 0 then "0" else SMOOTHING_SAMPLES
  }

  /** The blocks of one channel: a bed position, one neutral block, or the bound dynamic blocks. */
  function Blocks(t: TrackDescriptor, rate: nat, programme: string): (es: seq<Element>)
    requires rate > 0
    ensures |es| == if t.kind.Reconstruction? && t.blocks != [] then |t.blocks| else 1
  {
    if t.kind.Bed? then [BedBlock(t.channelId, t.kind.channel)]
    else if t.blocks == [] then
      [ObjectBlock(t.channelId, 1, TIME_ZERO, programme, AdmPosition(0.0, 0.0, 0.0), Jump(0))]
    else
      seq(|t.blocks|, k requires 0 <= k < |t.blocks| =>
        ObjectBlock(t.channelId, k + 1, FormatTime(t.blocks[k].start, rate), FormatTime(t.blocks[k].duration, rate),
                    t.blocks[k].position, Jump(k)))
  }

  function ChannelElement(t: TrackDescriptor, rate: nat, programme: string): Element
    requires rate > 0
  {
    var kind := t.kind.Type();
    Element(AudioChannelFormat,
            map[Id := t.channelId, FormatName := t.ChannelFormatName(), TypeLabel := kind.Label(),
              TypeDefinition := kind.Definition()],
            None, Blocks(t, rate, programme))
  }

  function PcmName(t: TrackDescriptor): string {
    "PCM_" + t.ChannelFormatName()
  }

  function StreamElement(t: TrackDescriptor): Element {
    Element(AudioStreamFormat,
      map[Id := t.streamId, FormatName := PcmName(t), FormatLabel := "0001", FormatDefinition := "PCM"], None,
            [Leaf(ChannelRef, t.channelId), Leaf(PackRef, t.packId), Leaf(TrackFormatRef, t.trackId)])
  }

  function TrackFormatElement(t: TrackDescriptor): Element {
    Element(AudioTrackFormat,
      map[Id := t.trackId, FormatName := PcmName(t), FormatLabel := "0001", FormatDefinition := "PCM"], None,
            [Leaf(StreamRef, t.streamId)])
  }

  function UidElement(t: TrackDescriptor, rate: nat): Element {
    Element(AudioTrackUid, map[Id := t.uid, SampleRate := Natural(rate, 10), BitDepth := "24"], None,
            [Leaf(TrackFormatRef, t.trackId), Leaf(PackRef, t.packId)])
  }

  function ObjectElements(tracks: seq<TrackDescriptor>, duration: string): seq<Element> {
    ObjectSection(BedTracks(tracks), ObjectTracks(tracks), duration)
  }

  function ObjectSection(beds: seq<TrackDescriptor>, objects: seq<TrackDescriptor>, duration: string): seq<Element> {
    (if beds == [] then []
      else [ObjectElement(BED_OBJECT, FormatId(Pack, DirectSpeakers, COUNTER_BASE), Uids(beds), duration)]) +
    seq(|objects|, i requires 0 <= i < |objects| =>
      ObjectElement(OBJECT_BASE + i, objects[i].packId, [objects[i].uid], duration))
  }

  function PackElements(tracks: seq<TrackDescriptor>): seq<Element> {
    PackSection(BedTracks(tracks), ObjectTracks(tracks))
  }

  function PackSection(beds: seq<TrackDescriptor>, objects: seq<TrackDescriptor>): seq<Element> {
    (if beds == [] then []
      else [PackElement(FormatId(Pack, DirectSpeakers, COUNTER_BASE), DirectSpeakers, ChannelIds(beds))]) +
    seq(|objects|, i requires 0 <= i < |objects| => PackElement(objects[i].packId, Objects, [objects[i].channelId]))
  }

  function ChannelElements(tracks: seq<TrackDescriptor>, rate: nat, programme: string): seq<Element>
    requires rate > 0
  {
    seq(|tracks|, i requires 0 <= i < |tracks| => ChannelElement(tracks[i], rate, programme))
  }

  function StreamElements(tracks: seq<TrackDescriptor>): seq<Element> {
    seq(|tracks|, i requires 0 <= i < |tracks| => StreamElement(tracks[i]))
  }

  function TrackFormatElements(tracks: seq<TrackDescriptor>): seq<Element> {
    seq(|tracks|, i requires 0 <= i < |tracks| => TrackFormatElement(tracks[i]))
  }

  function UidElements(tracks: seq<TrackDescriptor>, rate: nat): seq<Element> {
    seq(|tracks|, i requires 0 <= i < |tracks| => UidElement(tracks[i], rate))
  }

  /** The eight sections of `audioFormatExtended`, one tag each. */
  function Sections(rate: nat, duration: nat, tracks: seq<TrackDescriptor>): (s: seq<seq<Element>>)
    requires rate > 0
    ensures |s| == 8
  {
    var time := FormatAdmTime(duration, rate);
    [ [ProgrammeElement(time)],
      [ContentElement(BedTracks(tracks) != [], |ObjectTracks(tracks)|)],
      ObjectElements(tracks, time),
      PackElements(tracks),
      ChannelElements(tracks, rate, time),
      StreamElements(tracks),
      TrackFormatElements(tracks),
      UidElements(tracks, rate) ]
  }

  function Concat(sections: seq<seq<Element>>): seq<Element> {
    if sections == [] then [] else sections[0] + Concat(sections[1..])
  }

  function Extended(rate: nat, duration: nat, tracks: seq<TrackDescriptor>): Element
    requires rate > 0
  {
    Element(AudioFormatExtended, map[], None, Concat(Sections(rate, duration, tracks)))
  }

  function MakeDocument(rate: nat, duration: nat, tracks: seq<TrackDescriptor>): Document
    requires rate > 0
  {
    Document(EbuCore2016,
      Element(EbuCoreMain, map[], None, [
        Element(CoreMetadata, map[], None, [
          Element(Format, map[], None, [Extended(rate, duration, tracks)])])]))
  }
}
