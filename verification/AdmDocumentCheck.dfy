/** The cross-reference checks a validated ADM document passes. */
module AdmDocumentCheck {
  import opened Wrappers
  import opened Bytes
  import opened Text
  import opened AdmIds
  import opened AdmTimes
  import opened AdmTracks
  import opened AdmDocument
  import opened Chna

  // ---------------------------------------------------------------- placement

  datatype Placed = Placed(node: Element, parent: Option<Tag>, grandparent: Option<Tag>)

  /** Every `audioFormatExtended` of a forest with the tags of its two ancestors. */
  function ExtendedNodes(es: seq<Element>, parent: Option<Tag>, grandparent: Option<Tag>): seq<Placed> {
    if es == [] then []
    else
      (if es[0].tag == AudioFormatExtended then [Placed(es[0], parent, grandparent)] else []) +
      ExtendedNodes(es[0].children, Some(es[0].tag), parent) +
      ExtendedNodes(es[1..], parent, grandparent)
  }

  /** The unique, properly placed `audioFormatExtended` of a document with a supported root. */
  function ExtendedOf(doc: Document): Option<Element> {
    var nodes := ExtendedNodes([doc.root], None, None);
    if doc.root.tag == EbuCoreMain && doc.namespace != OtherNamespace
       && |nodes| == 1 && nodes[0].parent == Some(Format) && nodes[0].grandparent == Some(CoreMetadata)
    then Some(nodes[0].node)
    else None
  }

  // ---------------------------------------------------------------- identifiers

  function TagOf(kind: IdKind): Tag {
    match kind
    case Programme => AudioProgramme
    case Content => AudioContent
    case Object => AudioObject
    case Pack => AudioPackFormat
    case Channel => AudioChannelFormat
    case Block => AudioBlockFormat
    case Stream => AudioStreamFormat
    case TrackFormat => AudioTrackFormat
    case TrackUid => AudioTrackUid
  }

  /** `e` carries a well-formed identifier of its kind. */
  predicate Identified(e: Element, kind: IdKind) {
    e.Attr(Id).Some? && IsAdmId(e.Attr(Id).value, kind)
  }

  predicate DistinctIds(es: seq<Element>, kind: IdKind) {
    && (forall i :: 0 <= i < |es| ==> Identified(es[i], kind))
    && (forall i, j :: 0 <= i < j < |es| ==> es[i].Attr(Id) != es[j].Attr(Id))
  }

  function IdSet(es: seq<Element>): set<string> {
    set i | 0 <= i < |es| && es[i].Attr(Id).Some? :: es[i].Attr(Id).value
  }

  /** All elements of one kind anywhere below `scope`. */
  function Members(scope: Element, kind: IdKind): seq<Element> {
    Found(scope.children, TagOf(kind))
  }

  function IdsOf(scope: Element, kind: IdKind): set<string> {
    IdSet(Members(scope, kind))
  }

  /** The counters of `ids` are exactly `first, first + 1, …` without gap or repetition. */
  ghost predicate Contiguous(ids: set<string>, first: nat, kind: CounterKind) {
    && (forall id :: id in ids ==> Counter(id, kind).Some?)
    && (forall c :: first <= c < first + |ids| ==> HasCounter(ids, c, kind))
  }

  ghost predicate HasCounter(ids: set<string>, c: nat, kind: CounterKind) {
    exists id :: id in ids && Counter(id, kind) == Some(c)
  }

  ghost predicate IdentifiersOk(scope: Element, uids: nat) {
    && (forall kind: IdKind :: DistinctIds(Members(scope, kind), kind))
    && |Members(scope, Programme)| == 1
    && |Members(scope, Content)| > 0 && |Members(scope, Object)| > 0
    && |Members(scope, Pack)| > 0 && |Members(scope, Block)| > 0
    && |Members(scope, Channel)| == uids && |Members(scope, Stream)| == uids
    && |Members(scope, TrackFormat)| == uids && |Members(scope, TrackUid)| == uids
    && PROGRAMME_ID in IdsOf(scope, Programme)
    && Contiguous(IdsOf(scope, Content), COUNTER_BASE, ContentCounter)
    && Contiguous(IdsOf(scope, Pack), COUNTER_BASE, FormatCounter)
    && Contiguous(IdsOf(scope, Channel), COUNTER_BASE, FormatCounter)
    && Contiguous(IdsOf(scope, Stream), COUNTER_BASE, FormatCounter)
    && Contiguous(IdsOf(scope, TrackFormat), COUNTER_BASE, FormatCounter)
    && Contiguous(IdsOf(scope, TrackUid), 1, UidCounter)
  }

  // ---------------------------------------------------------------- one element at a time

  /** At least one reference, and none dangling. */
  predicate RefsOk(e: Element, tag: Tag, targets: set<string>) {
    var refs := RefValues(e.children, tag);
    refs != [] && forall i :: 0 <= i < |refs| ==> refs[i] in targets
  }

  function TimeOf(e: Element, a: Attribute): Option<real> {
    if e.Attr(a).Some? then ParseAdmTimeSeconds(e.Attr(a).value) else None
  }

  predicate CloseTo(seconds: real, rate: nat, samples: nat)
    requires rate > 0
  {
    var d := seconds - samples as real / rate as real;
    -DurationTolerance(rate) <= d <= DurationTolerance(rate)
  }

  predicate ProgrammeOk(scope: Element, e: Element, rate: nat, samples: nat)
    requires rate > 0
  {
    && RefsOk(e, ContentRef, IdsOf(scope, Content))
    && TimeOf(e, Start).Some? && TimeOf(e, End).Some?
    && TimeOf(e, End).value >= TimeOf(e, Start).value
    && CloseTo(TimeOf(e, End).value - TimeOf(e, Start).value, rate, samples)
  }

  predicate ContentOk(scope: Element, e: Element) {
    var dialogue := Named(e.children, Dialogue);
    && RefsOk(e, ObjectRef, IdsOf(scope, Object))
    && |dialogue| == 1
    && dialogue[0].Attr(MixedContentKind) == Some("0")
    && dialogue[0].text.Some? && Trim(dialogue[0].text.value) == "2"
  }

  /** The hexadecimal number of an object identifier. */
  function ObjectNumber(e: Element): Option<nat> {
    var id := e.Attr(Id);
    if id.Some? && Prefix(Object) <= id.value then ParseUnsigned(id.value[3..], 16, U16_LIMIT) else None
  }

  predicate ObjectOk(scope: Element, e: Element, rate: nat, samples: nat)
    requires rate > 0
  {
    var packRefs, uidRefs := RefValues(e.children, PackRef), RefValues(e.children, TrackUidRef);
    && RefsOk(e, PackRef, IdsOf(scope, Pack))
    && RefsOk(e, TrackUidRef, IdsOf(scope, TrackUid))
    && |packRefs| == 1
    && TimeOf(e, Start) == Some(0.0)
    && TimeOf(e, Duration).Some? && CloseTo(TimeOf(e, Duration).value, rate, samples)
    && ObjectNumber(e).Some?
    && (var pack := FindById(scope.children, AudioPackFormat, packRefs[0]);
        pack.Some? && ObjectRangeOk(pack.value, ObjectNumber(e).value, |uidRefs|))
  }

  /** A bed object has number 0x1001..=0x1080 and two to ten tracks, a dynamic object has number
      0x100B..=0x1080 and one track. */
  predicate ObjectRangeOk(pack: Element, number: nat, uids: nat) {
    var definition := pack.Attr(TypeDefinition);
    || (definition == Some(DirectSpeakers.Definition()) && BED_OBJECT <= number <= OBJECT_LAST && 2 <= uids <= 10)
    || (definition == Some(Objects.Definition()) && OBJECT_BASE <= number <= OBJECT_LAST && uids == 1)
  }

  /** Type label, definition and identifier agree on one of the two supported types. */
  predicate TypeConsistent(e: Element) {
    var id, family, definition := e.Attr(Id), e.Attr(TypeLabel), e.Attr(TypeDefinition);
    && id.Some? && |id.value| >= 7 && family.Some? && definition.Some?
    && EqualIgnoringCase(id.value[3..7], family.value)
    && ((family.value == DirectSpeakers.Label() && definition.value == DirectSpeakers.Definition())
        || (family.value == Objects.Label() && definition.value == Objects.Definition()))
  }

  const ALLOWED_BEDS: seq<seq<string>> := [
    ["RC_L", "RC_R"],
    ["RC_L", "RC_R", "RC_C"],
    ["RC_L", "RC_R", "RC_C", "RC_Ls", "RC_Rs"],
    ["RC_L", "RC_R", "RC_C", "RC_LFE", "RC_Ls", "RC_Rs"],
    ["RC_L", "RC_R", "RC_C", "RC_Lss", "RC_Rss", "RC_Lrs", "RC_Rrs"],
    ["RC_L", "RC_R", "RC_C", "RC_LFE", "RC_Lss", "RC_Rss", "RC_Lrs", "RC_Rrs"],
    ["RC_L", "RC_R", "RC_C", "RC_Lss", "RC_Rss", "RC_Lrs", "RC_Rrs", "RC_Lts", "RC_Rts"],
    ["RC_L", "RC_R", "RC_C", "RC_LFE", "RC_Lss", "RC_Rss", "RC_Lrs", "RC_Rrs", "RC_Lts", "RC_Rts"]]

  /** The speaker label of a channel's first block. */
  function ChannelLabel(scope: Element, channelId: string): Option<string> {
    var channel := FindById(scope.children, AudioChannelFormat, channelId);
    if channel.None? then None
    else
      var blocks := Named(channel.value.children, AudioBlockFormat);
      if blocks == [] then None
      else
        var labels := RefValues(blocks[0].children, SpeakerLabel);
        if |labels| == 1 then Some(labels[0]) else None
  }

  predicate BedConfigurationOk(scope: Element, channelIds: seq<string>) {
    exists k :: 0 <= k < |ALLOWED_BEDS| && |ALLOWED_BEDS[k]| == |channelIds| &&
      forall i :: 0 <= i < |channelIds| ==> ChannelLabel(scope, channelIds[i]) == Some(ALLOWED_BEDS[k][i])
  }

  predicate PackOk(scope: Element, e: Element) {
    var channelRefs := RefValues(e.children, ChannelRef);
    && TypeConsistent(e)
    && RefsOk(e, ChannelRef, IdsOf(scope, Channel))
    && (if e.Attr(TypeDefinition) == Some(DirectSpeakers.Definition())
        then BedConfigurationOk(scope, channelRefs)
        else |channelRefs| == 1)
  }

  /** The room-centric name and position a speaker label stands for. */
  function SpeakerDefinition(speaker: string): Option<(string, real, real, real)> {
    if speaker == "RC_L" then Some(("RoomCentricLeft", -1.0, 1.0, 0.0))
    else if speaker == "RC_R" then Some(("RoomCentricRight", 1.0, 1.0, 0.0))
    else if speaker == "RC_C" then Some(("RoomCentricCenter", 0.0, 1.0, 0.0))
    else if speaker == "RC_LFE" then Some(("RoomCentricLFE", -1.0, 1.0, -1.0))
    else if speaker == "RC_Lss" then Some(("RoomCentricLeftSideSurround", -1.0, 0.0, 0.0))
    else if speaker == "RC_Rss" then Some(("RoomCentricRightSideSurround", 1.0, 0.0, 0.0))
    else if speaker == "RC_Lrs" then Some(("RoomCentricLeftRearSurround", -1.0, -1.0, 0.0))
    else if speaker == "RC_Rrs" then Some(("RoomCentricRightRearSurround", 1.0, -1.0, 0.0))
    else if speaker == "RC_Lts" then Some(("RoomCentricLeftTopSurround", -1.0, 0.0, 1.0))
    else if speaker == "RC_Rts" then Some(("RoomCentricRightTopSurround", 1.0, 0.0, 1.0))
    else if speaker == "RC_Ls" then Some(("RoomCentricLeftSurround", -1.0, -1.0, 0.0))
    else if speaker == "RC_Rs" then Some(("RoomCentricRightSurround", 1.0, -1.0, 0.0))
    else None
  }

  const EPSILON := 1.0 / 4503599627370496.0

  function PositionText(es: seq<Element>, axis: string): Option<string> {
    if es == [] then None
    else if es[0].tag == Position && es[0].Attr(Coordinate) == Some(axis) then es[0].text
    else PositionText(es[1..], axis)
  }

  function PositionValue(block: Element, axis: string): Option<real> {
    var text := PositionText(block.children, axis);
    if text.Some? then ParseFloat(Trim(text.value)) else None
  }

  predicate PositionIs(block: Element, axis: string, expected: real) {
    var value := PositionValue(block, axis);
    if value.None? then expected == 0.0 else -EPSILON <= value.value - expected <= EPSILON
  }

  predicate SpeakerBlockOk(channel: Element, block: Element, speaker: string) {
    var definition := SpeakerDefinition(speaker);
    && definition.Some?
    && channel.Attr(FormatName) == Some(definition.value.0)
    && RefValues(block.children, Cartesian) == ["1"]
    && PositionIs(block, "X", definition.value.1)
    && PositionIs(block, "Y", definition.value.2)
    && PositionIs(block, "Z", definition.value.3)
  }

  predicate HasCoordinate(block: Element, axis: string) {
    var positions := Named(block.children, Position);
    exists i :: 0 <= i < |positions| && positions[i].Attr(Coordinate) == Some(axis)
  }

  /** The first block jumps at once, every later one over 250 samples. */
  predicate JumpOk(block: Element, index: nat) {
    var jumps := Named(block.children, JumpPosition);
    && |jumps| == 1
    && jumps[0].text.Some? && Trim(jumps[0].text.value) == "1"
    && jumps[0].Attr(InterpolationLength).Some?
    && ParseFloat(jumps[0].Attr(InterpolationLength).value) == Some(if index == 0 then 0.0 else 250.0)
  }

  predicate TimeAttributeOk(block: Element, a: Attribute) {
    block.Attr(a).Some? ==> IsAdmTime(block.Attr(a).value)
  }

  predicate BlockOk(channel: Element, block: Element, index: nat) {
    var channelId, blockId, definition := channel.Attr(Id), block.Attr(Id), channel.Attr(TypeDefinition);
    && channelId.Some? && blockId.Some? && |channelId.value| >= 11 && |blockId.value| >= 11
    && EqualIgnoringCase(blockId.value[3..11], channelId.value[3..11])
    && TimeAttributeOk(block, Rtime) && TimeAttributeOk(block, Duration)
    && HasCoordinate(block, "X") && HasCoordinate(block, "Y")
    && (if definition == Some(DirectSpeakers.Definition()) then SpeakerOnlyOk(channel, block)
        else definition == Some(Objects.Definition()) && TimedOk(block, index))
  }

  predicate SpeakerOnlyOk(channel: Element, block: Element) {
    var labels := RefValues(block.children, SpeakerLabel);
    |labels| == 1 && block.Attr(Rtime) == None && block.Attr(Duration) == None &&
      SpeakerBlockOk(channel, block, labels[0])
  }

  predicate TimedOk(block: Element, index: nat) {
    block.Attr(Rtime).Some? && block.Attr(Duration).Some? && JumpOk(block, index)
  }

  predicate ChannelOk(e: Element) {
    var blocks := Named(e.children, AudioBlockFormat);
    && TypeConsistent(e)
    && blocks != []
    && forall k :: 0 <= k < |blocks| ==> BlockOk(e, blocks[k], k)
  }

  predicate SameFormatCounter(a: string, b: string) {
    |a| >= 11 && |b| >= 11 && EqualIgnoringCase(a[3..11], b[3..11])
  }

  predicate IsPcm(e: Element) {
    e.Attr(FormatDefinition) == Some("PCM") && e.Attr(FormatLabel) == Some("0001")
  }

  predicate StreamOk(scope: Element, e: Element) {
    var channelRefs, packRefs, trackRefs :=
      RefValues(e.children, ChannelRef), RefValues(e.children, PackRef), RefValues(e.children, TrackFormatRef);
    && IsPcm(e)
    && RefsOk(e, ChannelRef, IdsOf(scope, Channel))
    && RefsOk(e, PackRef, IdsOf(scope, Pack))
    && RefsOk(e, TrackFormatRef, IdsOf(scope, TrackFormat))
    && |channelRefs| == 1 && |packRefs| == 1 && |trackRefs| == 1
    && e.Attr(Id).Some?
    && SameFormatCounter(e.Attr(Id).value, channelRefs[0]) && SameFormatCounter(e.Attr(Id).value, trackRefs[0])
    && (var channel := FindById(scope.children, AudioChannelFormat, channelRefs[0]);
        && channel.Some? && channel.value.Attr(FormatName).Some?
        && e.Attr(FormatName) == Some("PCM_" + channel.value.Attr(FormatName).value))
  }

  predicate TrackFormatOk(scope: Element, e: Element) {
    var streamRefs := RefValues(e.children, StreamRef);
    && IsPcm(e)
    && RefsOk(e, StreamRef, IdsOf(scope, Stream))
    && |streamRefs| == 1
    && (var stream := FindById(scope.children, AudioStreamFormat, streamRefs[0]);
        stream.Some? && e.Attr(FormatName) == stream.value.Attr(FormatName))
  }

  /** The track or channel format and the pack a UID element names. */
  function Link(e: Element): Option<(string, string)> {
    var signalRefs := RefValues(e.children, TrackFormatRef) + RefValues(e.children, ChannelRef);
    var packRefs := RefValues(e.children, PackRef);
    if |signalRefs| == 1 && |packRefs| == 1 then Some((signalRefs[0], packRefs[0])) else None
  }

  predicate UidOk(scope: Element, e: Element, rate: nat) {
    && e.Attr(Id).Some?
    && e.Attr(TrackIndex) == None && e.Attr(PackRefAttribute) == None && e.Attr(ChannelRefAttribute) == None
    && e.Attr(SampleRate).Some? && ParseUnsigned(e.Attr(SampleRate).value, 10, U32_LIMIT) == Some(rate)
    && e.Attr(BitDepth) == Some("24")
    && Link(e).Some?
    && (forall i :: 0 <= i < |RefValues(e.children, TrackFormatRef)| ==>
          RefValues(e.children, TrackFormatRef)[i] in IdsOf(scope, TrackFormat))
    && (forall i :: 0 <= i < |RefValues(e.children, ChannelRef)| ==>
          RefValues(e.children, ChannelRef)[i] in IdsOf(scope, Channel))
    && RefsOk(e, PackRef, IdsOf(scope, Pack))
  }

  /** The UID element of a `chna` record exists and names the record's references. */
  predicate RecordLinked(scope: Element, record: ChnaRecord) {
    var uid := FindById(scope.children, AudioTrackUid, record.uid);
    uid.Some? && Link(uid.value) == Some((record.trackRef, record.packRef))
  }

  /** Children of the format element with one tag, each checked by its own rule. */
  function Children(scope: Element, kind: IdKind): seq<Element> {
    Named(scope.children, TagOf(kind))
  }

  ghost predicate RelationsOk(scope: Element, rate: nat, samples: nat)
    requires rate > 0
  {
    && (forall i :: 0 <= i < |Children(scope, Programme)| ==>
      ProgrammeOk(scope, Children(scope, Programme)[i], rate, samples))
    && (forall i :: 0 <= i < |Children(scope, Content)| ==> ContentOk(scope, Children(scope, Content)[i]))
    && (forall i :: 0 <= i < |Children(scope, Object)| ==> ObjectOk(scope, Children(scope, Object)[i], rate, samples))
    && (forall i :: 0 <= i < |Children(scope, Pack)| ==> PackOk(scope, Children(scope, Pack)[i]))
    && (forall i :: 0 <= i < |Children(scope, Channel)| ==> ChannelOk(Children(scope, Channel)[i]))
    && (forall i :: 0 <= i < |Children(scope, Stream)| ==> StreamOk(scope, Children(scope, Stream)[i]))
    && (forall i :: 0 <= i < |Children(scope, TrackFormat)| ==> TrackFormatOk(scope, Children(scope, TrackFormat)[i]))
    && (forall i :: 0 <= i < |Children(scope, TrackUid)| ==> UidOk(scope, Children(scope, TrackUid)[i], rate))
  }

  ghost predicate LinksOk(scope: Element, chna: seq<ChnaRecord>) {
    && |Children(scope, TrackUid)| == |chna|
    && forall i :: 0 <= i < |chna| ==> RecordLinked(scope, chna[i])
  }

  /** The documents `validate_adm_xml` accepts for a file's sample rate, length and `chna` records. */
  ghost predicate DocumentAccepted(doc: Document, rate: nat, samples: nat, chna: seq<ChnaRecord>)
    requires rate > 0
  {
    var scope := ExtendedOf(doc);
    && scope.Some?
    && IdentifiersOk(scope.value, |chna|)
    && RelationsOk(scope.value, rate, samples)
    && LinksOk(scope.value, chna)
  }
}
