/** What a document is that the validator accepts: a description by its elements, proved equivalent to the checks. */
module AdmConformance {
  import opened Wrappers
  import opened Bytes
  import opened Text
  import opened AdmIds
  import opened AdmTimes
  import opened AdmDocument
  import opened AdmDocumentCheck
  import opened AdmDocumentSections
  import opened AdmSearches
  import opened Chna

  // ---------------------------------------------------------------- the format element

  ghost predicate Carries(f: Element, n: Element) {
    f.tag == Format && n in f.children
  }

  ghost predicate Leads(c: Element, n: Element) {
    c.tag == CoreMetadata && exists f :: f in c.children && Carries(f, n)
  }

  /** Some `coreMetadata` of the forest has a `format` child that has `n` as a child. */
  ghost predicate Chained(es: seq<Element>, n: Element) {
    exists c :: c in Everything(es) && Leads(c, n)
  }

  /** The document has a supported root and namespace, and `scope` is its only `audioFormatExtended`, in a `format`
      in a `coreMetadata`. */
  ghost predicate ScopeOf(doc: Document, scope: Element) {
    && doc.root.tag == EbuCoreMain && (doc.namespace == EbuCore2014 || doc.namespace == EbuCore2016)
    && Found([doc.root], AudioFormatExtended) == [scope] && Chained([doc.root], scope)
  }

  // ---------------------------------------------------------------- identifiers

  ghost predicate HasId(e: Element, kind: IdKind) {
    exists id :: e.Attr(Id) == Some(id) && IsAdmId(id, kind)
  }

  ghost predicate Counted(e: Element, c: nat, kind: CounterKind) {
    exists id :: e.Attr(Id) == Some(id) && Counter(id, kind) == Some(c)
  }

  ghost predicate SomeCounted(es: seq<Element>, c: nat, kind: CounterKind) {
    exists e :: e in es && Counted(e, c, kind)
  }

  /** The elements with a tag are numbered from `first` on without a gap. */
  ghost predicate NumberedFrom(scope: Element, tag: Tag, first: nat, kind: CounterKind) {
    var es := Found(scope.children, tag);
    && (forall e :: e in es ==> exists c: nat :: Counted(e, c, kind))
    && forall c: nat :: first <= c < first + |es| ==> SomeCounted(es, c, kind)
  }

  ghost predicate FamilyIdentified(es: seq<Element>, kind: IdKind) {
    && (forall e :: e in es ==> HasId(e, kind))
    && forall i, j :: 0 <= i < j < |es| ==> es[i].Attr(Id) != es[j].Attr(Id)
  }

  /** Elements of every kind are identified, no two of a kind alike. */
  ghost predicate AllIdentified(scope: Element) {
    forall kind: IdKind :: FamilyIdentified(Found(scope.children, TagOf(kind)), kind)
  }

  /** There is one programme, there are as many formats and UIDs as records, and nothing else is missing. */
  ghost predicate SizesConform(scope: Element, uids: nat) {
    && |Found(scope.children, AudioProgramme)| == 1
    && Found(scope.children, AudioProgramme)[0].Attr(Id) == Some("APR_1001")
    && Found(scope.children, AudioContent) != [] && Found(scope.children, AudioObject) != []
    && Found(scope.children, AudioPackFormat) != [] && Found(scope.children, AudioBlockFormat) != []
    && |Found(scope.children, AudioChannelFormat)| == uids && |Found(scope.children, AudioStreamFormat)| == uids
    && |Found(scope.children, AudioTrackFormat)| == uids && |Found(scope.children, AudioTrackUid)| == uids
  }

  ghost predicate AllNumbered(scope: Element) {
    && NumberedFrom(scope, AudioContent, 0x1001, ContentCounter)
    && NumberedFrom(scope, AudioPackFormat, 0x1001, FormatCounter)
    && NumberedFrom(scope, AudioChannelFormat, 0x1001, FormatCounter)
    && NumberedFrom(scope, AudioStreamFormat, 0x1001, FormatCounter)
    && NumberedFrom(scope, AudioTrackFormat, 0x1001, FormatCounter)
    && NumberedFrom(scope, AudioTrackUid, 1, UidCounter)
  }

  ghost predicate IdentifiersConform(scope: Element, uids: nat) {
    AllIdentified(scope) && SizesConform(scope, uids) && AllNumbered(scope)
  }

  // ---------------------------------------------------------------- references and times

  /** `e` refers to something under this tag, and only to identifiers that elements of the kind carry. */
  ghost predicate RefsResolve(scope: Element, e: Element, tag: Tag, kind: IdKind) {
    && (exists text :: Refers(e, tag, text))
    && forall text :: Refers(e, tag, text) ==> Present(scope, kind, text)
  }

  ghost predicate TimeIs(e: Element, a: Attribute, seconds: real) {
    e.Attr(a).Some? && ParseAdmTimeSeconds(e.Attr(a).value) == Some(seconds)
  }

  /** The time is that of the samples, to one sample and ten microseconds. */
  ghost predicate Lasts(seconds: real, rate: nat, samples: nat) {
    var error := seconds * rate as real - samples as real;
    -1.0 - 0.00001 * rate as real <= error <= 1.0 + 0.00001 * rate as real
  }

  // ---------------------------------------------------------------- one element of each kind

  ghost predicate ProgrammeConforms(scope: Element, e: Element, rate: nat, samples: nat) {
    && RefsResolve(scope, e, ContentRef, Content)
    && exists start, end ::
         TimeIs(e, Start, start) && TimeIs(e, End, end) && start <= end && Lasts(end - start, rate, samples)
  }

  ghost predicate ContentConforms(scope: Element, e: Element) {
    && RefsResolve(scope, e, ObjectRef, Object)
    && exists c :: OnlyChild(e, Dialogue, c) && c.Attr(MixedContentKind) == Some("0") && Reads(c, "2")
  }

  /** The text of `c`, without the white space around it. */
  ghost predicate Reads(c: Element, text: string) {
    c.text.Some? && Trim(c.text.value) == text
  }

  ghost predicate ObjectNumbered(e: Element, n: nat) {
    exists id :: e.Attr(Id) == Some(id) && "AO_" <= id && ParseUnsigned(id[3..], 16, 0x1_0000) == Some(n)
  }

  /** A bed object has two to ten tracks and any number of the range, a dynamic one has one track and a number from
      0x100B on. */
  ghost predicate RangeConforms(pack: Element, n: nat, uids: nat) {
    || (pack.Attr(TypeDefinition) == Some("DirectSpeakers") && 0x1001 <= n <= 0x1080 && 2 <= uids <= 10)
    || (pack.Attr(TypeDefinition) == Some("Objects") && 0x100B <= n <= 0x1080 && uids == 1)
  }

  ghost predicate ObjectConforms(scope: Element, e: Element, rate: nat, samples: nat) {
    && RefsResolve(scope, e, PackRef, Pack) && RefsResolve(scope, e, TrackUidRef, TrackUid)
    && TimeIs(e, Start, 0.0) && (exists duration :: TimeIs(e, Duration, duration) && Lasts(duration, rate, samples))
    && exists packId, pack, n: nat ::
         && RefersOnly(e, PackRef, packId) && Child(scope, AudioPackFormat, packId, pack)
         && ObjectNumbered(e, n) && RangeConforms(pack, n, |RefPlaces(e.children, TrackUidRef)|)
  }

  /** Label, definition and the type columns of the identifier name the same of the two types. */
  ghost predicate TypeConforms(e: Element) {
    exists id :: e.Attr(Id) == Some(id) && |id| >= 7 &&
      ((e.Attr(TypeLabel) == Some("0001") && e.Attr(TypeDefinition) == Some("DirectSpeakers") && id[3..7] == "0001") ||
       (e.Attr(TypeLabel) == Some("0003") && e.Attr(TypeDefinition) == Some("Objects") && id[3..7] == "0003"))
  }

  /** The surrounds a bed of five, seven or nine full-range channels adds to the front. */
  ghost predicate AreSurrounds(labels: seq<string>) {
    || labels == ["RC_Ls", "RC_Rs"]
    || labels == ["RC_Lss", "RC_Rss", "RC_Lrs", "RC_Rrs"]
    || labels == ["RC_Lss", "RC_Rss", "RC_Lrs", "RC_Rrs", "RC_Lts", "RC_Rts"]
  }

  /** The speakers of a bed, in order: stereo, or three in front, alone or with surrounds and perhaps an LFE. */
  ghost predicate IsBed(labels: seq<string>) {
    || labels == ["RC_L", "RC_R"]
    || labels == ["RC_L", "RC_R", "RC_C"]
    || exists surrounds ::
         && AreSurrounds(surrounds)
         && (labels == ["RC_L", "RC_R", "RC_C"] + surrounds || labels == ["RC_L", "RC_R", "RC_C", "RC_LFE"] + surrounds)
  }

  /** The channel with this identifier is labelled in its first block. */
  ghost predicate Labelled(scope: Element, id: string, speaker: string) {
    exists channel, b ::
      && Child(scope, AudioChannelFormat, id, channel) && FirstChild(channel, AudioBlockFormat, b)
      && RefersOnly(b, SpeakerLabel, speaker)
  }

  ghost predicate BedConforms(scope: Element, ids: seq<string>) {
    exists labels ::
      && IsBed(labels) && |labels| == |ids|
      && forall i :: 0 <= i < |ids| ==> Labelled(scope, ids[i], labels[i])
  }

  ghost predicate PackConforms(scope: Element, e: Element) {
    && TypeConforms(e) && RefsResolve(scope, e, ChannelRef, Channel)
    && (if e.Attr(TypeDefinition) == Some("DirectSpeakers") then BedConforms(scope, RefValues(e.children, ChannelRef))
        else exists id :: RefersOnly(e, ChannelRef, id))
  }

  /** Type and counter columns of two format identifiers agree. */
  ghost predicate SameColumns(a: string, b: string) {
    |a| >= 11 && |b| >= 11 && EqualIgnoringCase(a[3..11], b[3..11])
  }

  ghost predicate LegalTime(b: Element, a: Attribute) {
    forall text :: b.Attr(a) == Some(text) ==> IsAdmTime(text)
  }

  /** The first position of an axis reads as `value`; one that is absent or unreadable counts as zero. */
  ghost predicate StandsAt(b: Element, axis: string, value: real) {
    || (exists text, read ::
          && AxisText(b, axis, Some(text)) && ParseFloat(Trim(text)) == Some(read)
          && -1.0 / 4503599627370496.0 <= read - value <= 1.0 / 4503599627370496.0)
    || (value == 0.0 && !exists text :: AxisText(b, axis, Some(text)) && ParseFloat(Trim(text)).Some?)
  }

  datatype Side = Leftward | Rightward {
    function Letter(): string {
      if Leftward? then "L" else "R"
    }

    function Word(): string {
      if Leftward? then "Left" else "Right"
    }

    function X(): real {
      if Leftward? then -1.0 else 1.0
    }
  }

  /** Where a pair of loudspeakers stands: in front, at the sides, in the rear or at the top. */
  datatype Ring = FrontRing | SurroundRing | SideRing | RearRing | TopRing {
    function Suffix(): string {
      match this
      case FrontRing => ""
      case SurroundRing => "s"
      case SideRing => "ss"
      case RearRing => "rs"
      case TopRing => "ts"
    }

    function Word(): string {
      match this
      case FrontRing => ""
      case SurroundRing => "Surround"
      case SideRing => "SideSurround"
      case RearRing => "RearSurround"
      case TopRing => "TopSurround"
    }

    function Y(): real {
      match this
      case FrontRing => 1.0
      case SideRing => 0.0
      case TopRing => 0.0
      case SurroundRing => -1.0
      case RearRing => -1.0
    }

    function Z(): real {
      if TopRing? then 1.0 else 0.0
    }
  }

  function PairLabel(side: Side, ring: Ring): string {
    "RC_" + side.Letter() + ring.Suffix()
  }

  function PairPlace(side: Side, ring: Ring): (string, real, real, real) {
    ("RoomCentric" + side.Word() + ring.Word(), side.X(), ring.Y(), ring.Z())
  }

  /** The name and the place a label stands for: the centre, the LFE, or one of a pair. */
  ghost predicate StandsFor(speaker: string, place: (string, real, real, real)) {
    || (speaker == "RC_C" && place == ("RoomCentricCenter", 0.0, 1.0, 0.0))
    || (speaker == "RC_LFE" && place == ("RoomCentricLFE", -1.0, 1.0, -1.0))
    || exists side, ring :: speaker == PairLabel(side, ring) && place == PairPlace(side, ring)
  }

  /** A block that plays its channel from the loudspeaker of its label. */
  ghost predicate SpeakerConforms(channel: Element, b: Element) {
    && b.Attr(Rtime) == None && b.Attr(Duration) == None && RefersOnly(b, Cartesian, "1")
    && exists speaker, place ::
         && RefersOnly(b, SpeakerLabel, speaker) && StandsFor(speaker, place)
         && channel.Attr(FormatName) == Some(place.0)
         && StandsAt(b, "X", place.1) && StandsAt(b, "Y", place.2) && StandsAt(b, "Z", place.3)
  }

  /** A block that moves its object: at once when it is the first, else over 250 samples. */
  ghost predicate MovingConforms(b: Element, first: bool) {
    && b.Attr(Rtime).Some? && b.Attr(Duration).Some?
    && exists jump, length ::
         && OnlyChild(b, JumpPosition, jump) && Reads(jump, "1")
         && jump.Attr(InterpolationLength) == Some(length) && ParseFloat(length) == Some(if first then 0.0 else 250.0)
  }

  ghost predicate BlockConforms(channel: Element, b: Element, first: bool) {
    && (exists id, own :: channel.Attr(Id) == Some(id) && b.Attr(Id) == Some(own) && SameColumns(own, id))
    && LegalTime(b, Rtime) && LegalTime(b, Duration) && HasAxis(b, "X") && HasAxis(b, "Y")
    && ((channel.Attr(TypeDefinition) == Some("DirectSpeakers") && SpeakerConforms(channel, b)) ||
        (channel.Attr(TypeDefinition) == Some("Objects") && MovingConforms(b, first)))
  }

  ghost predicate ChannelConforms(e: Element) {
    && TypeConforms(e) && (exists b :: b in e.children && b.tag == AudioBlockFormat)
    && forall i: nat :: i < |e.children| && e.children[i].tag == AudioBlockFormat ==>
      BlockConforms(e, e.children[i], NoneBefore(e.children, AudioBlockFormat, i))
  }

  ghost predicate PcmConforms(e: Element) {
    e.Attr(FormatDefinition) == Some("PCM") && e.Attr(FormatLabel) == Some("0001")
  }

  /** The stream is named after its channel. */
  ghost predicate NamedAfter(scope: Element, e: Element, channelId: string) {
    exists channel, name ::
      && Child(scope, AudioChannelFormat, channelId, channel)
      && channel.Attr(FormatName) == Some(name) && e.Attr(FormatName) == Some("PCM_" + name)
  }

  /** `e` refers once under this tag, to an element of the kind. */
  ghost predicate OneResolves(scope: Element, e: Element, tag: Tag, kind: IdKind, text: string) {
    RefersOnly(e, tag, text) && Present(scope, kind, text)
  }

  ghost predicate StreamConforms(scope: Element, e: Element) {
    && PcmConforms(e) && (exists packId :: OneResolves(scope, e, PackRef, Pack, packId))
    && exists id, channelId, trackId ::
         && e.Attr(Id) == Some(id)
         && OneResolves(scope, e, ChannelRef, Channel, channelId) && SameColumns(id, channelId)
         && OneResolves(scope, e, TrackFormatRef, TrackFormat, trackId) && SameColumns(id, trackId)
         && NamedAfter(scope, e, channelId)
  }

  ghost predicate TrackFormatConforms(scope: Element, e: Element) {
    && PcmConforms(e)
    && exists streamId, stream ::
         && OneResolves(scope, e, StreamRef, Stream, streamId) && Child(scope, AudioStreamFormat, streamId, stream)
         && e.Attr(FormatName) == stream.Attr(FormatName)
  }

  /** `e` refers once, either to a track format or to a channel. */
  ghost predicate Signals(e: Element, signal: string) {
    || (RefersOnly(e, TrackFormatRef, signal) && forall text :: !Refers(e, ChannelRef, text))
    || (RefersOnly(e, ChannelRef, signal) && forall text :: !Refers(e, TrackFormatRef, text))
  }

  ghost predicate UidConforms(scope: Element, e: Element, rate: nat) {
    && e.Attr(Id).Some?
    && e.Attr(TrackIndex) == None && e.Attr(PackRefAttribute) == None && e.Attr(ChannelRefAttribute) == None
    && (exists text :: e.Attr(SampleRate) == Some(text) && ParseUnsigned(text, 10, 0x1_0000_0000) == Some(rate))
    && e.Attr(BitDepth) == Some("24")
    && (exists signal :: Signals(e, signal)) && (exists packId :: OneResolves(scope, e, PackRef, Pack, packId))
    && (forall text :: Refers(e, TrackFormatRef, text) ==> Present(scope, TrackFormat, text))
    && (forall text :: Refers(e, ChannelRef, text) ==> Present(scope, Channel, text))
  }

  // ---------------------------------------------------------------- the document

  ghost predicate ElementConforms(scope: Element, e: Element, rate: nat, samples: nat) {
    match e.tag
    case AudioProgramme => ProgrammeConforms(scope, e, rate, samples)
    case AudioContent => ContentConforms(scope, e)
    case AudioObject => ObjectConforms(scope, e, rate, samples)
    case AudioPackFormat => PackConforms(scope, e)
    case AudioChannelFormat => ChannelConforms(e)
    case AudioStreamFormat => StreamConforms(scope, e)
    case AudioTrackFormat => TrackFormatConforms(scope, e)
    case AudioTrackUid => UidConforms(scope, e, rate)
    case _ => true
  }

  /** A UID element with the record's identifier refers to the signal and the pack of the record. */
  ghost predicate RecordConforms(scope: Element, record: ChnaRecord) {
    exists uid ::
      && Child(scope, AudioTrackUid, record.uid, uid)
      && Signals(uid, record.trackRef) && RefersOnly(uid, PackRef, record.packRef)
  }

  ghost predicate LinksConform(scope: Element, chna: seq<ChnaRecord>) {
    && |Places(scope.children, AudioTrackUid)| == |chna|
    && forall i :: 0 <= i < |chna| ==> RecordConforms(scope, chna[i])
  }

  ghost predicate ScopeConforms(scope: Element, rate: nat, samples: nat, chna: seq<ChnaRecord>) {
    && IdentifiersConform(scope, |chna|)
    && (forall e :: e in scope.children ==> ElementConforms(scope, e, rate, samples))
    && LinksConform(scope, chna)
  }

  ghost predicate Conforms(doc: Document, rate: nat, samples: nat, chna: seq<ChnaRecord>) {
    exists scope :: ScopeOf(doc, scope) && ScopeConforms(scope, rate, samples, chna)
  }

  // ---------------------------------------------------------------- the format element is found

  lemma {:induction false} NodesAreFound(es: seq<Element>, parent: Option<Tag>, grandparent: Option<Tag>)
    ensures |ExtendedNodes(es, parent, grandparent)| == |Found(es, AudioFormatExtended)|
    ensures forall i :: 0 <= i < |Found(es, AudioFormatExtended)| ==>
      ExtendedNodes(es, parent, grandparent)[i].node == Found(es, AudioFormatExtended)[i]
  {
    if es != [] {
      NodesAreFound(es[0].children, Some(es[0].tag), parent);
      NodesAreFound(es[1..], parent, grandparent);
    }
  }

  /** `n` lies in a `format` in a `coreMetadata`, given the tags above the forest. */
  ghost predicate Fits(es: seq<Element>, parent: Option<Tag>, grandparent: Option<Tag>, n: Element) {
    || (n in es && parent == Some(Format) && grandparent == Some(CoreMetadata))
    || (parent == Some(CoreMetadata) && exists f :: f in es && Carries(f, n))
    || Chained(es, n)
  }

  lemma ChainedStep(es: seq<Element>, n: Element)
    ensures es == [] ==> !Chained(es, n)
    ensures es != [] ==> (Chained(es, n) <==> Leads(es[0], n) || Chained(es[0].children, n) || Chained(es[1..], n))
  {
    hide Leads, Everything;
    EverythingStep(es);
    if es != [] {
      assert forall c :: c in Everything(es) <==>
        c == es[0] || c in Everything(es[0].children) || c in Everything(es[1..]);
    }
  }

  lemma FitsStep(es: seq<Element>, parent: Option<Tag>, grandparent: Option<Tag>, n: Element)
    ensures es == [] ==> !Fits(es, parent, grandparent, n)
    ensures es != [] ==> (Fits(es, parent, grandparent, n) <==>
      || (n == es[0] && parent == Some(Format) && grandparent == Some(CoreMetadata))
      || Fits(es[0].children, Some(es[0].tag), parent, n) || Fits(es[1..], parent, grandparent, n))
  {
    hide Chained, Carries;
    ChainedStep(es, n);
    if es != [] {
      CarriesStep(es, n);
    }
  }

  lemma CarriesStep(es: seq<Element>, n: Element)
    requires es != []
    ensures (exists f :: f in es && Carries(f, n)) <==> Carries(es[0], n) || exists f :: f in es[1..] && Carries(f, n)
    ensures Carries(es[0], n) <==> es[0].tag == Format && n in es[0].children
  {
    assert forall f :: f in es <==> f == es[0] || f in es[1..];
  }

  lemma {:induction false} NodePlaced(es: seq<Element>, parent: Option<Tag>, grandparent: Option<Tag>, n: Element)
    ensures Placed(n, Some(Format), Some(CoreMetadata)) in ExtendedNodes(es, parent, grandparent) <==>
      n.tag == AudioFormatExtended && Fits(es, parent, grandparent, n)
  {
    hide Fits;
    FitsStep(es, parent, grandparent, n);
    if es != [] {
      NodePlaced(es[0].children, Some(es[0].tag), parent, n);
      NodePlaced(es[1..], parent, grandparent, n);
    }
  }

  /** The search for the format element finds it exactly where it may be. */
  lemma ScopeMeans(doc: Document, scope: Element)
    ensures ExtendedOf(doc) == Some(scope) <==> ScopeOf(doc, scope)
  {
    hide Found, ExtendedNodes, Chained, Named, Everything;
    var nodes, found := ExtendedNodes([doc.root], None, None), Found([doc.root], AudioFormatExtended);
    NodesAreFound([doc.root], None, None);
    NodePlaced([doc.root], None, None, scope);
    FoundMeans([doc.root], AudioFormatExtended);
    NamedMeans(Everything([doc.root]), AudioFormatExtended, scope);
    if |found| == 1 {
      assert found == [found[0]] && nodes == [nodes[0]];
    }
  }
}
