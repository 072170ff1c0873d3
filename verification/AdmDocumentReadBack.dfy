/** What a reader gets back from a generated document: the object graph and the dynamic metadata. */
module AdmDocumentReadBack {
  import opened Wrappers
  import opened Bytes
  import opened Text
  import opened AdmIds
  import opened AdmTimes
  import opened AdmTracks
  import opened AdmDocument
  import opened AdmDocumentCheck
  import opened AdmDocumentSections
  import opened AdmDocumentIds
  import opened AdmDocumentAccepted
  import opened AdmDocumentFormats

  // ---------------------------------------------------------------- decimals

  lemma SixDigits(n: nat)
    requires n < 1_000_000
    ensures |Padded(n, 6, 10)| == 6 && Value(Padded(n, 6, 10), 10) == n && AllDigits(Padded(n, 6, 10), 10)
    ensures Power(10, 6) as real == 1_000_000.0
  {
    assert Power(10, 6) == 1_000_000 by { DecimalPowers(); }
    ValueOfPadded(n, 6, 10);
  }

  /** Six decimals of a nonnegative number of millionths. */
  function Millionths(n: nat): string {
    Natural(n / 1_000_000, 10) + "." + Padded(n % 1_000_000, 6, 10)
  }

  lemma MillionthsRead(n: nat)
    ensures ParseFloat(Millionths(n)) == Some(n as real / 1_000_000.0)
    ensures Millionths(n) != "" && DigitAt(Millionths(n), 0, 10) && DigitAt(Millionths(n), |Millionths(n)| - 1, 10)
  {
    hide *;
    var whole, fraction := Natural(n / 1_000_000, 10), Padded(n % 1_000_000, 6, 10);
    NaturalIsNumeral(n / 1_000_000);
    SixDigits(n % 1_000_000);
    PointParseAs(whole, fraction, n / 1_000_000, n % 1_000_000, 1_000_000.0);
    SumOfParts(n, ParseFloat(whole + "." + fraction), 1_000_000.0);
    MillionthsIs(n);
    EndsInDigits(whole, fraction);
  }

  lemma MillionthsIs(n: nat)
    ensures Millionths(n) == Natural(n / 1_000_000, 10) + "." + Padded(n % 1_000_000, 6, 10)
  {
    hide Natural, Padded;
  }

  lemma EndsInDigits(whole: string, fraction: string)
    requires AllDigits(whole, 10) && AllDigits(fraction, 10) && whole != "" && fraction != ""
    ensures var s := whole + "." + fraction; DigitAt(s, 0, 10) && DigitAt(s, |s| - 1, 10)
  {
    var s := whole + "." + fraction;
    assert DigitAt(whole, 0, 10) && DigitAt(fraction, |fraction| - 1, 10);
    assert s[0] == whole[0] && s[|s| - 1] == fraction[|fraction| - 1];
  }

  lemma SumOfParts(n: nat, parsed: Option<real>, scale: real)
    requires scale == 1_000_000.0 && parsed == Some((n / 1_000_000) as real + (n % 1_000_000) as real / scale)
    ensures parsed == Some(n as real / 1_000_000.0)
  {
    assert n == n / 1_000_000 * 1_000_000 + n % 1_000_000;
  }

  /** Millionths a coordinate is rounded to. */
  function Rounded(x: real): nat {
    var scaled := (if x < 0.0 then -x else x) * 1_000_000.0;
    var low := scaled.Floor;
    var gap := scaled - low as real;
    if gap > 0.5 || (gap == 0.5 && low % 2 == 1) then low + 1 else low
  }

  lemma SixDecimalsIs(x: real)
    ensures SixDecimals(x) == (if x < 0.0 then "-" else "") + Millionths(Rounded(x))
  {
    hide Natural, Padded;
  }

  lemma RoundedIsClose(x: real)
    ensures var r := (if x < 0.0 then -1.0 else 1.0) * Rounded(x) as real / 1_000_000.0;
      -0.0000005 <= r - x <= 0.0000005
  {
    var magnitude := if x < 0.0 then -x else x;
    var error := Rounded(x) as real - magnitude * 1_000_000.0;
    assert -0.5 <= error <= 0.5;
    assert Rounded(x) as real / 1_000_000.0 - magnitude == error / 1_000_000.0;
  }

  /** Half a millionth goes to the even neighbour. */
  lemma TiesGoToEven(x: real, n: nat)
    requires (if x < 0.0 then -x else x) * 1_000_000.0 == n as real + 0.5
    ensures Rounded(x) % 2 == 0 && (Rounded(x) == n || Rounded(x) == n + 1)
  {
    assert (n as real + 0.5).Floor == n;
  }

  /** A printed coordinate reads back to within half a millionth. */
  lemma SixDecimalsRead(x: real)
    ensures var read := ParseFloat(Trim(SixDecimals(x)));
      read.Some? && -0.0000005 <= read.value - x <= 0.0000005
  {
    hide Millionths, Rounded, ParseFloat, SixDecimals;
    var n := Rounded(x);
    SixDecimalsIs(x);
    MillionthsRead(n);
    RoundedIsClose(x);
    if x < 0.0 {
      NegativeRead(Millionths(n), n as real / 1_000_000.0);
      NoSpaces("-" + Millionths(n));
    } else {
      assert "" + Millionths(n) == Millionths(n);
      NoSpaces(Millionths(n));
    }
  }

  lemma NegativeRead(s: string, value: real)
    requires s != "" && DigitAt(s, 0, 10) && ParseFloat(s) == Some(value)
    ensures ParseFloat("-" + s) == Some(-value)
  {
    UnsignedParse(s, s[0]);
    hide ParsePlain;
    assert ("-" + s)[1..] == s;
  }

  lemma NoSpaces(s: string)
    requires s != "" && (s[0] == '-' || DigitAt(s, 0, 10)) && DigitAt(s, |s| - 1, 10)
    ensures Trim(s) == s
  {
  }

  // ---------------------------------------------------------------- dynamic blocks

  lemma Coordinates(channelId: string, number: nat, rtime: string, duration: string, p: AdmPosition, jump: string)
    ensures var e := ObjectBlock(channelId, number, rtime, duration, p, jump);
      && e.Attr(Rtime) == Some(rtime) && e.Attr(Duration) == Some(duration)
      && PositionText(e.children, "X") == Some(SixDecimals(p.x))
      && PositionText(e.children, "Y") == Some(SixDecimals(p.y))
      && PositionText(e.children, "Z") == Some(SixDecimals(p.z))
  {
    var x, y, z := SixDecimals(p.x), SixDecimals(p.y), SixDecimals(p.z);
    var e := ObjectBlock(channelId, number, rtime, duration, p, jump);
    var before := [Leaf(Cartesian, "1")];
    var last := Element(JumpPosition, map[InterpolationLength := jump], Some("1"), []);
    hide SixDecimals, BlockNumberedId;
    assert e.children == before + Positions(x, y, z) + [last];
    hide Positions, ObjectBlock;
    AxesFound(before, x, y, z);
    TextBefore(before + Positions(x, y, z), [last], "X");
    TextBefore(before + Positions(x, y, z), [last], "Y");
    TextBefore(before + Positions(x, y, z), [last], "Z");
  }

  lemma {:induction false} TextBefore(a: seq<Element>, b: seq<Element>, axis: string)
    requires PositionText(a, axis).Some?
    ensures PositionText(a + b, axis) == PositionText(a, axis)
  {
    assert (a + b)[0] == a[0] && (a + b)[1..] == a[1..] + b;
    if !(a[0].tag == Position && a[0].Attr(Coordinate) == Some(axis)) {
      TextBefore(a[1..], b, axis);
    }
  }

  /** `e` denotes the block `b`: its times are the exact sample counts, its coordinates those of the position
      to within half a millionth. */
  ghost predicate Denotes(e: Element, b: DynamicBlock, rate: nat)
    requires rate > 0
  {
    && TimeOf(e, Rtime).Some? && SamplesOf(TimeOf(e, Rtime).value, rate) == b.start
    && TimeOf(e, Duration).Some? && SamplesOf(TimeOf(e, Duration).value, rate) == b.duration
    && Near(PositionValue(e, "X"), b.position.x)
    && Near(PositionValue(e, "Y"), b.position.y)
    && Near(PositionValue(e, "Z"), b.position.z)
  }

  predicate Near(read: Option<real>, x: real) {
    read.Some? && -0.0000005 <= read.value - x <= 0.0000005
  }

  /** `e` moves its object to the new place over this many samples. */
  ghost predicate JumpsOver(e: Element, samples: real) {
    var jumps := Named(e.children, JumpPosition);
    && |jumps| == 1 && jumps[0].Attr(InterpolationLength).Some?
    && ParseFloat(jumps[0].Attr(InterpolationLength).value) == Some(samples)
  }

  lemma JumpMeans(e: Element, k: nat)
    requires JumpOk(e, k)
    ensures JumpsOver(e, if k == 0 then 0.0 else 250.0)
  {
    hide Named, ParseFloat, Trim;
  }

  /** The blocks of a bound track read back as its dynamic metadata, one element per block in order. */
  lemma DynamicBlocksReadBack(t: TrackDescriptor, rate: nat, programme: string, k: nat)
    requires rate == 48_000 || rate == 96_000
    requires t.kind.Reconstruction? && k < |t.blocks|
    ensures |Blocks(t, rate, programme)| == |t.blocks|
    ensures Denotes(Blocks(t, rate, programme)[k], t.blocks[k], rate)
    ensures JumpsOver(Blocks(t, rate, programme)[k], if k == 0 then 0.0 else 250.0)
  {
    hide FormatTime, ParseAdmTimeSeconds, SamplesOf, SixDecimals, ParseFloat, Trim, ObjectBlock, PositionText, JumpOk,
      JumpsOver, Jump, HasCoordinate;
    var b := t.blocks[k];
    Coordinates(t.channelId, k + 1, FormatTime(b.start, rate), FormatTime(b.duration, rate), b.position, Jump(k));
    TimeRoundTrip(b.start, rate);
    TimeRoundTrip(b.duration, rate);
    SixDecimalsRead(b.position.x);
    SixDecimalsRead(b.position.y);
    SixDecimalsRead(b.position.z);
    ObjectBlockParts(t.channelId, k + 1, FormatTime(b.start, rate), FormatTime(b.duration, rate), b.position, k);
    JumpMeans(ObjectBlock(t.channelId, k + 1, FormatTime(b.start, rate), FormatTime(b.duration, rate), b.position,
      Jump(k)), k);
    assert Blocks(t, rate, programme)[k] ==
      ObjectBlock(t.channelId, k + 1, FormatTime(b.start, rate), FormatTime(b.duration, rate), b.position, Jump(k));
  }

  // ---------------------------------------------------------------- names

  /** The name of a signal's channel says what it carries and ends in the signal's number, counted from one. */
  lemma SignalNamesTheNumber(t: TrackDescriptor)
    requires t.kind.Reconstruction?
    ensures exists digits ::
      && |digits| >= 2 && AllDigits(digits, 10) && Value(digits, 10) == t.kind.index + 1
      && t.ChannelFormatName() ==
           (if t.bound then "OpenJOC Reconstructed JOC Object " else "OpenJOC Reconstructed Signal ") + digits
  {
    hide AllDigits, Value, Padded;
    ValueOfPadded(t.kind.index + 1, 2, 10);
    NumeralOfTwo(t.kind.index + 1);
    var digits := Padded(t.kind.index + 1, 2, 10);
    assert t.ChannelFormatName() ==
      (if t.bound then "OpenJOC Reconstructed JOC Object " else "OpenJOC Reconstructed Signal ") + digits;
  }

  lemma NumeralOfTwo(n: nat)
    ensures |Padded(n, 2, 10)| >= 2 && AllDigits(Padded(n, 2, 10), 10)
  {
    hide AllDigits;
  }

  // ---------------------------------------------------------------- the other blocks

  lemma ZeroReads()
    ensures ParseFloat(Trim(SixDecimals(0.0))) == Some(0.0)
  {
    hide Millionths, ParseFloat, SixDecimals;
    SixDecimalsIs(0.0);
    MillionthsRead(0);
    assert Rounded(0.0) == 0;
    assert "" + Millionths(0) == Millionths(0);
    NoSpaces(Millionths(0));
  }

  /** `e` holds its object in the middle of the room for the whole programme. */
  ghost predicate StandsStill(e: Element, duration: nat, rate: nat)
    requires rate > 0
  {
    && TimeOf(e, Rtime) == Some(0.0) && TimeOf(e, Duration) == Some(TimeUnits(duration, rate) as real / 100_000.0)
    && PositionValue(e, "X") == PositionValue(e, "Y") == PositionValue(e, "Z") == Some(0.0)
    && JumpsOver(e, 0.0)
  }

  /** A signal without dynamic metadata has one block, in the middle of the room from the first sample to the end. */
  lemma NeutralBlockReadsBack(t: TrackDescriptor, rate: nat, duration: nat)
    requires rate > 0 && duration < U64_LIMIT && t.kind.Reconstruction? && t.blocks == []
    ensures var es := Blocks(t, rate, FormatAdmTime(duration, rate)); |es| == 1 && StandsStill(es[0], duration, rate)
  {
    hide FormatAdmTime, ParseAdmTimeSeconds, TimeUnits, SixDecimals, ParseFloat, Trim, ObjectBlock, PositionText,
         JumpOk,
      JumpsOver, Jump, HasCoordinate, TIME_ZERO, IsAdmTime;
    var origin, time := AdmPosition(0.0, 0.0, 0.0), FormatAdmTime(duration, rate);
    var e := ObjectBlock(t.channelId, 1, TIME_ZERO, time, origin, Jump(0));
    Coordinates(t.channelId, 1, TIME_ZERO, time, origin, Jump(0));
    ZeroTime();
    ParseOfFormatAdmTime(duration, rate);
    ZeroReads();
    ObjectBlockParts(t.channelId, 1, TIME_ZERO, time, origin, 0);
    JumpMeans(e, 0);
    assert Blocks(t, rate, time)[0] == e;
  }

  /** `e` plays its channel from a loudspeaker, at all times. */
  ghost predicate PlaysFrom(e: Element, channel: BedChannel) {
    var (x, y, z) := channel.Position();
    && RefValues(e.children, SpeakerLabel) == [channel.SpeakerLabel()]
    && e.Attr(Rtime) == None && e.Attr(Duration) == None
    && PositionValue(e, "X") == Some(x as real)
    && PositionValue(e, "Y") == Some(y as real)
    && PositionValue(e, "Z") == Some(z as real)
  }

  /** A bed channel has one block: its loudspeaker, exactly in its place. */
  lemma BedBlockReadsBack(t: TrackDescriptor, rate: nat, programme: string)
    requires rate > 0 && t.kind.Bed?
    ensures var es := Blocks(t, rate, programme); |es| == 1 && PlaysFrom(es[0], t.kind.channel)
  {
    hide ParseFloat, Trim, IntegerText, PositionText, RefValues, BedBlock, HasCoordinate, BedChannel.SpeakerLabel,
      BedChannel.Position, IsUnit;
    var (x, y, z) := t.kind.channel.Position();
    BedBlockParts(t.channelId, t.kind.channel);
    BedAttributes(t.channelId, t.kind.channel);
    UnitPosition(t.kind.channel);
    UnitReads(x);
    UnitReads(y);
    UnitReads(z);
    assert Blocks(t, rate, programme)[0] == BedBlock(t.channelId, t.kind.channel);
  }

  // ---------------------------------------------------------------- the object graph

  /** Following the references of one object leads to its own UID, track format, pack, channel and blocks. */
  ghost predicate LeadsTo(scope: Element, element: Element, t: TrackDescriptor, blocks: seq<Element>) {
    var uid, pack := FindById(scope.children, AudioTrackUid, t.uid),
      FindById(scope.children, AudioPackFormat, t.packId);
    var channel := FindById(scope.children, AudioChannelFormat, t.channelId);
    && RefValues(element.children, TrackUidRef) == [t.uid] && RefValues(element.children, PackRef) == [t.packId]
    && uid.Some? && Link(uid.value) == Some((t.trackId, t.packId))
    && pack.Some? && RefValues(pack.value.children, ChannelRef) == [t.channelId]
    && channel.Some? && Named(channel.value.children, AudioBlockFormat) == blocks
  }

  /** The generated graph closes over every signal: object `j` leads to the track, pack, channel and blocks
      of signal `j`. */
  lemma SignalGraphCloses(rate: nat, duration: nat, tracks: seq<TrackDescriptor>, signals: nat, lfe: bool, j: nat)
    requires Planned(rate, duration, tracks, signals, lfe) && j < signals
    ensures rate > 0 && BedSize(lfe) + j < |tracks|
    ensures j + (if lfe then 1 else 0) < |SectionOf(Object, rate, duration, tracks)|
    ensures var t := tracks[BedSize(lfe) + j];
      LeadsTo(Extended(rate, duration, tracks),
        SectionOf(Object, rate, duration, tracks)[j + (if lfe then 1 else 0)], t,
              Blocks(t, rate, FormatAdmTime(duration, rate)))
  {
    hide *;
    SignalAt(rate, duration, tracks, signals, lfe, j);
    var i, place := BedSize(lfe) + j, j + if lfe then 1 else 0;
    var t, scope, time := tracks[i], Extended(rate, duration, tracks), FormatAdmTime(duration, rate);
    var element := SectionOf(Object, rate, duration, tracks)[place];
    TrackTargets(rate, duration, tracks, signals, lfe, i);
    UidLinks(rate, duration, tracks, signals, lfe, i);
    SignalPack(rate, duration, tracks, signals, lfe, j);
    SignalChannel(rate, duration, tracks, signals, lfe, i);
    OneUid(OBJECT_BASE + j, t.packId, t.uid, time);
    Closes(scope, element, t, Blocks(t, rate, time));
  }

  lemma Closes(scope: Element, element: Element, t: TrackDescriptor, blocks: seq<Element>)
    requires RefValues(element.children, TrackUidRef) == [t.uid] && RefValues(element.children, PackRef) == [t.packId]
    requires var uid := FindById(scope.children, AudioTrackUid, t.uid);
      uid.Some? && Link(uid.value) == Some((t.trackId, t.packId))
    requires var pack := FindById(scope.children, AudioPackFormat, t.packId);
      pack.Some? && RefValues(pack.value.children, ChannelRef) == [t.channelId]
    requires var channel := FindById(scope.children, AudioChannelFormat, t.channelId);
      channel.Some? && Named(channel.value.children, AudioBlockFormat) == blocks
    ensures LeadsTo(scope, element, t, blocks)
  {
    hide FindById, RefValues, Link, Named;
  }

  lemma OneUid(number: nat, packId: string, uid: string, time: string)
    requires Word(packId) && Word(uid)
    ensures var e := ObjectElement(number, packId, [uid], time);
      RefValues(e.children, PackRef) == [packId] && RefValues(e.children, TrackUidRef) == [uid]
  {
    hide Word;
    ObjectRefs(number, packId, [uid], time);
  }

  /** The object element of signal `j` and the track it is made from. */
  lemma SignalAt(rate: nat, duration: nat, tracks: seq<TrackDescriptor>, signals: nat, lfe: bool, j: nat)
    requires Planned(rate, duration, tracks, signals, lfe) && j < signals
    ensures rate > 0 && BedSize(lfe) + j < |tracks|
    ensures j + (if lfe then 1 else 0) < |SectionOf(Object, rate, duration, tracks)|
    ensures var t := tracks[BedSize(lfe) + j];
      SectionOf(Object, rate, duration, tracks)[j + (if lfe then 1 else 0)] ==
        ObjectElement(OBJECT_BASE + j, t.packId, [t.uid], FormatAdmTime(duration, rate))
  {
    hide *;
    PlannedFacts(rate, duration, tracks, signals, lfe);
    SectionNames(rate, duration, tracks);
    TableSize(tracks, signals, lfe);
    SignalObjectAt(tracks, FormatAdmTime(duration, rate), signals, lfe, j);
  }

  lemma SignalObjectAt(tracks: seq<TrackDescriptor>, time: string, signals: nat, lfe: bool, j: nat)
    requires IsTrackTable(tracks, signals, lfe) && j < signals && |tracks| == signals + BedSize(lfe)
    ensures j + (if lfe then 1 else 0) < |ObjectElements(tracks, time)|
    ensures var t := tracks[BedSize(lfe) + j];
      ObjectElements(tracks, time)[j + (if lfe then 1 else 0)] ==
        ObjectElement(OBJECT_BASE + j, t.packId, [t.uid], time)
  {
    hide *;
    TableTracks(tracks, signals, lfe);
    BedSizes(tracks, lfe);
    var beds, objects, place := BedTracks(tracks), ObjectTracks(tracks), j + if lfe then 1 else 0;
    ObjectPlace(beds, objects, time, place);
    ElementOfSignal(beds, objects, time, j);
    ObjectElementsAre(tracks, time);
  }

  lemma ObjectElementsAre(tracks: seq<TrackDescriptor>, time: string)
    ensures ObjectElements(tracks, time) == ObjectSection(BedTracks(tracks), ObjectTracks(tracks), time)
  {
    hide BedTracks, ObjectTracks, ObjectSection;
  }

  lemma ElementOfSignal(beds: seq<TrackDescriptor>, objects: seq<TrackDescriptor>, time: string, j: nat)
    requires j < |objects|
    ensures ObjectElementAt(beds, objects, time, j + (if beds == [] then 0 else 1)) ==
      ObjectElement(OBJECT_BASE + j, objects[j].packId, [objects[j].uid], time)
  {
    hide ObjectElement, Uids, FormatId;
  }

  lemma UidLinks(rate: nat, duration: nat, tracks: seq<TrackDescriptor>, signals: nat, lfe: bool, i: nat)
    requires Planned(rate, duration, tracks, signals, lfe) && i < |tracks|
    ensures rate > 0
    ensures var uid := FindById(Extended(rate, duration, tracks).children, AudioTrackUid, tracks[i].uid);
      uid.Some? && Link(uid.value) == Some((tracks[i].trackId, tracks[i].packId))
  {
    RecordAccepted(rate, duration, tracks, signals, lfe, i);
    PlannedFacts(rate, duration, tracks, signals, lfe);
    hide Extended, FindById, Link, Planned;
  }

  lemma SignalPack(rate: nat, duration: nat, tracks: seq<TrackDescriptor>, signals: nat, lfe: bool, j: nat)
    requires Planned(rate, duration, tracks, signals, lfe) && j < signals
    ensures rate > 0 && BedSize(lfe) + j < |tracks|
    ensures var t := tracks[BedSize(lfe) + j];
      var pack := FindById(Extended(rate, duration, tracks).children, AudioPackFormat, t.packId);
      pack.Some? && RefValues(pack.value.children, ChannelRef) == [t.channelId]
  {
    hide *;
    PlannedFacts(rate, duration, tracks, signals, lfe);
    TableSize(tracks, signals, lfe);
    TableTracks(tracks, signals, lfe);
    BedSizes(tracks, lfe);
    var place := j + if lfe then 1 else 0;
    PackFound(rate, duration, tracks, signals, lfe, place);
    var t := tracks[BedSize(lfe) + j];
    TrackTargets(rate, duration, tracks, signals, lfe, BedSize(lfe) + j);
    SignalPackElement(BedTracks(tracks), ObjectTracks(tracks), place, t);
  }

  lemma SignalPackElement(beds: seq<TrackDescriptor>, objects: seq<TrackDescriptor>, place: nat, t: TrackDescriptor)
    requires (if beds == [] then 0 else 1) <= place < |objects| + (if beds == [] then 0 else 1)
    requires objects[place - (if beds == [] then 0 else 1)] == t && Word(t.channelId)
    ensures var e := PackElementAt(beds, objects, place);
      e.Attr(Id) == Some(t.packId) && RefValues(e.children, ChannelRef) == [t.channelId]
  {
    hide Word;
    AllRefsRead(ChannelRef, [t.channelId]);
    hide RefValues, Refs;
  }

  lemma SignalChannel(rate: nat, duration: nat, tracks: seq<TrackDescriptor>, signals: nat, lfe: bool, i: nat)
    requires Planned(rate, duration, tracks, signals, lfe) && i < |tracks|
    ensures rate > 0
    ensures var channel := FindById(Extended(rate, duration, tracks).children, AudioChannelFormat, tracks[i].channelId);
      channel.Some? && Named(channel.value.children, AudioBlockFormat) ==
        Blocks(tracks[i], rate, FormatAdmTime(duration, rate))
  {
    hide *;
    PlannedFacts(rate, duration, tracks, signals, lfe);
    var t, time := tracks[i], FormatAdmTime(duration, rate);
    TrackSectionAt(rate, duration, tracks, i);
    SectionsDistinct(rate, duration, tracks, signals, lfe, Channel);
    FindInSection(rate, duration, tracks, Channel, i);
    ChannelParts(t, rate, time);
    BlocksAreShallow(t, rate, time);
    NamedUniform(Blocks(t, rate, time), AudioBlockFormat, AudioBlockFormat);
  }

  lemma ChannelParts(t: TrackDescriptor, rate: nat, time: string)
    requires rate > 0
    ensures TagOf(Channel) == AudioChannelFormat
    ensures ChannelElement(t, rate, time).Attr(Id) == Some(t.channelId)
    ensures ChannelElement(t, rate, time).children == Blocks(t, rate, time)
  {
    hide Blocks;
  }
}
