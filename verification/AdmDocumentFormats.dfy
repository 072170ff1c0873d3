/** Packs, channels, streams, track formats and UIDs of a generated document pass their checks. */
module AdmDocumentFormats {
  import opened Wrappers
  import opened Bytes
  import opened Text
  import opened AdmIds
  import opened AdmTimes
  import opened AdmTracks
  import opened AdmDocument
  import opened AdmDocumentCheck
  import opened AdmDocumentSections
  import opened AdmDocumentIds
  import opened AdmDocumentAccepted
  import opened Chna

  // ---------------------------------------------------------------- blocks

  lemma SmallNumbers()
    ensures ParseFloat("0") == Some(0.0) && ParseFloat("250") == Some(250.0)
    ensures ParseFloat("1") == Some(1.0) && ParseFloat("-1") == Some(-1.0)
  {
    assert DigitAt("0", 0, 10) && DigitAt("1", 0, 10);
    WholeParse("0");
    WholeParse("1");
    assert Value("0", 10) == 0 && Value("1", 10) == 1;
    TwoHundredFifty();
    assert "-1"[1..] == "1";
    UnsignedParse("1", '1');
    hide ParsePlain, Value, AllDigits;
    assert ParsePlain("1") == Some(1.0);
  }

  lemma TwoHundredFifty()
    ensures ParseFloat("250") == Some(250.0)
  {
    var s := "250";
    assert DigitAt(s, 0, 10) && DigitAt(s, 1, 10) && DigitAt(s, 2, 10);
    WholeParse(s);
    assert s[..2] == "25" && "25"[..1] == "2" && "2"[..0] == "";
    assert Value("2", 10) == 2;
    assert Value("25", 10) == 25;
    assert Value(s, 10) == 250;
  }

  lemma UnitTexts()
    ensures IntegerText(0) == "0" && IntegerText(1) == "1" && IntegerText(-1) == "-1"
    ensures Trim("0") == "0" && Trim("1") == "1" && Trim("-1") == "-1"
  {
    assert Natural(0, 10) == "0" && Natural(1, 10) == "1";
  }

  predicate IsUnit(n: int) {
    n == -1 || n == 0 || n == 1
  }

  lemma UnitReads(n: int)
    requires IsUnit(n)
    ensures ParseFloat(Trim(IntegerText(n))) == Some(n as real)
  {
    SmallNumbers();
    UnitTexts();
    hide ParseFloat, IntegerText, Trim;
  }

  lemma {:induction false} RefValuesAppend(a: seq<Element>, b: seq<Element>, tag: Tag)
    ensures RefValues(a + b, tag) == RefValues(a, tag) + RefValues(b, tag)
  {
    hide Trim;
    if a == [] {
      assert a + b == b;
    } else {
      assert (a + b)[1..] == a[1..] + b;
      RefValuesAppend(a[1..], b, tag);
    }
  }

  lemma {:induction false} NoRefs(es: seq<Element>, tag: Tag)
    requires Uniform(es, Position) && tag != Position
    ensures RefValues(es, tag) == []
  {
    if es != [] {
      NoRefs(es[1..], tag);
    }
  }

  lemma PositionsRead(x: string, y: string, z: string)
    ensures var es := Positions(x, y, z);
      && Uniform(es, Position)
      && RefValues(es, SpeakerLabel) == [] && RefValues(es, Cartesian) == []
      && Named(es, JumpPosition) == [] && Named(es, Position) == es
  {
    var es := Positions(x, y, z);
    NoRefs(es, SpeakerLabel);
    NoRefs(es, Cartesian);
    NamedUniform(es, Position, JumpPosition);
    NamedUniform(es, Position, Position);
  }

  /** Three axes found behind a prefix that holds no position. */
  lemma AxesFound(before: seq<Element>, x: string, y: string, z: string)
    requires forall i :: 0 <= i < |before| ==> before[i].tag != Position
    ensures var es := before + Positions(x, y, z);
      PositionText(es, "X") == Some(x) && PositionText(es, "Y") == Some(y) && PositionText(es, "Z") == Some(z)
  {
    var es := before + Positions(x, y, z);
    if before == [] {
      assert es == Positions(x, y, z);
      var second, third := [PositionElement("Y", y), PositionElement("Z", z)], [PositionElement("Z", z)];
      assert es[1..] == second && second[1..] == third;
      assert PositionText(third, "Z") == Some(z);
      assert PositionText(second, "Z") == Some(z) && PositionText(second, "Y") == Some(y);
    } else {
      assert es[1..] == before[1..] + Positions(x, y, z);
      AxesFound(before[1..], x, y, z);
    }
  }

  lemma CoordinateFound(b: Element, i: nat, axis: string)
    requires i < |Named(b.children, Position)| && Named(b.children, Position)[i].Attr(Coordinate) == Some(axis)
    ensures HasCoordinate(b, axis)
  {
  }

  lemma BothCoordinates(b: Element, x: string, y: string, z: string)
    requires Named(b.children, Position) == Positions(x, y, z)
    ensures HasCoordinate(b, "X") && HasCoordinate(b, "Y")
  {
    CoordinateFound(b, 0, "X");
    CoordinateFound(b, 1, "Y");
  }

  lemma BedWords(channel: BedChannel)
    ensures Word(channel.SpeakerLabel()) && Word("1")
  {
  }

  /** What the validator finds among the children of a generated bed block. */
  lemma BedBlockParts(channelId: string, channel: BedChannel)
    ensures var b, (x, y, z) := BedBlock(channelId, channel), channel.Position();
      && RefValues(b.children, SpeakerLabel) == [channel.SpeakerLabel()]
      && RefValues(b.children, Cartesian) == ["1"]
      && PositionText(b.children, "X") == Some(IntegerText(x))
      && PositionText(b.children, "Y") == Some(IntegerText(y))
      && PositionText(b.children, "Z") == Some(IntegerText(z))
      && HasCoordinate(b, "X") && HasCoordinate(b, "Y")
  {
    BedWords(channel);
    var (x, y, z) := channel.Position();
    BedChildren(channel.SpeakerLabel(), IntegerText(x), IntegerText(y), IntegerText(z));
    hide Trim, IntegerText, BlockNumberedId, Named, RefValues, PositionText, Positions, HasCoordinate;
    BothCoordinates(BedBlock(channelId, channel), IntegerText(x), IntegerText(y), IntegerText(z));
  }

  lemma BedChildren(speaker: string, x: string, y: string, z: string)
    requires Word(speaker) && Word("1")
    ensures var es := [Leaf(SpeakerLabel, speaker), Leaf(Cartesian, "1")] + Positions(x, y, z);
      && RefValues(es, SpeakerLabel) == [speaker] && RefValues(es, Cartesian) == ["1"]
      && PositionText(es, "X") == Some(x) && PositionText(es, "Y") == Some(y) && PositionText(es, "Z") == Some(z)
      && Named(es, Position) == Positions(x, y, z)
  {
    hide Trim;
    var head := [Leaf(SpeakerLabel, speaker), Leaf(Cartesian, "1")];
    assert head[1..] == [Leaf(Cartesian, "1")];
    PositionsRead(x, y, z);
    AxesFound(head, x, y, z);
    RefValuesAppend(head, Positions(x, y, z), SpeakerLabel);
    RefValuesAppend(head, Positions(x, y, z), Cartesian);
    NamedAppend(head, Positions(x, y, z), Position);
    hide Positions, PositionText;
  }

  lemma ObjectChildren(x: string, y: string, z: string, jump: Element)
    requires jump.tag == JumpPosition
    ensures var es := [Leaf(Cartesian, "1")] + Positions(x, y, z) + [jump];
      Named(es, JumpPosition) == [jump] && Named(es, Position) == Positions(x, y, z)
  {
    PositionsRead(x, y, z);
    var head := [Leaf(Cartesian, "1")];
    NamedAppend(head + Positions(x, y, z), [jump], JumpPosition);
    NamedAppend(head + Positions(x, y, z), [jump], Position);
    NamedAppend(head, Positions(x, y, z), JumpPosition);
    NamedAppend(head, Positions(x, y, z), Position);
    hide Positions;
  }

  lemma ReflexiveCase(s: string)
    ensures EqualIgnoringCase(s, s)
  {
  }

  lemma BedBlockAccepted(channelElement: Element, channelId: string, channel: BedChannel, block: Element)
    requires block == BedBlock(channelId, channel)
    requires channelElement.Attr(Id) == Some(channelId)
    requires channelElement.Attr(TypeDefinition) == Some(DirectSpeakers.Definition())
    requires channelElement.Attr(FormatName) == Some(channel.ChannelName())
    requires |channelId| >= 11 && |BlockNumberedId(channelId, 1)| >= 20 &&
      BlockNumberedId(channelId, 1)[3..11] == channelId[3..11]
    ensures BlockOk(channelElement, block, 0)
  {
    hide *;
    BedBlockParts(channelId, channel);
    BedSpeaker(channelElement, channel, block);
    BedAttributes(channelId, channel);
    ReflexiveCase(channelId[3..11]);
    SpeakerRelations(channelElement, block, channelId, BlockNumberedId(channelId, 1), channel.SpeakerLabel());
  }

  lemma SpeakerRelations(channel: Element, block: Element, channelId: string, blockId: string, speaker: string)
    requires channel.Attr(Id) == Some(channelId) && channel.Attr(TypeDefinition) == Some(DirectSpeakers.Definition())
    requires block.Attr(Id) == Some(blockId) && block.Attr(Rtime) == None && block.Attr(Duration) == None
    requires |channelId| >= 11 && |blockId| >= 11 && blockId[3..11] == channelId[3..11]
    requires HasCoordinate(block, "X") && HasCoordinate(block, "Y")
    requires RefValues(block.children, SpeakerLabel) == [speaker] && SpeakerBlockOk(channel, block, speaker)
    requires EqualIgnoringCase(channelId[3..11], channelId[3..11])
    ensures BlockOk(channel, block, 0)
  {
    hide HasCoordinate, EqualIgnoringCase, SpeakerBlockOk, RefValues, FormatType.Definition;
  }

  lemma BedAttributes(channelId: string, channel: BedChannel)
    ensures var b := BedBlock(channelId, channel);
      b.Attr(Id) == Some(BlockNumberedId(channelId, 1)) && b.Attr(Rtime) == None && b.Attr(Duration) == None
  {
    hide BlockNumberedId, Positions, IntegerText;
  }

  lemma UnitPosition(channel: BedChannel)
    ensures var (x, y, z) := channel.Position(); IsUnit(x) && IsUnit(y) && IsUnit(z)
  {
  }

  lemma BedSpeaker(channelElement: Element, channel: BedChannel, block: Element)
    requires channelElement.Attr(FormatName) == Some(channel.ChannelName())
    requires RefValues(block.children, Cartesian) == ["1"]
    requires var (x, y, z) := channel.Position();
      && PositionText(block.children, "X") == Some(IntegerText(x))
      && PositionText(block.children, "Y") == Some(IntegerText(y))
      && PositionText(block.children, "Z") == Some(IntegerText(z))
    ensures SpeakerBlockOk(channelElement, block, channel.SpeakerLabel())
  {
    var (x, y, z) := channel.Position();
    UnitPosition(channel);
    UnitReads(x);
    UnitReads(y);
    UnitReads(z);
    BedDefinition(channel);
    assert EPSILON >= 0.0;
    hide ParseFloat, Trim, IntegerText, RefValues, PositionText, SpeakerDefinition, EPSILON;
  }

  /** The validator's room-centric table agrees with the exporter's bed. */
  lemma BedDefinition(channel: BedChannel)
    ensures var (x, y, z) := channel.Position();
      SpeakerDefinition(channel.SpeakerLabel()) == Some((channel.ChannelName(), x as real, y as real, z as real))
  {
    match channel
    case Left =>
    case Right =>
    case Center =>
    case Lfe =>
    case LeftSurround => SurroundLabels();
    case RightSurround => SurroundLabels();
  }

  lemma SurroundLabels()
    ensures "RC_Ls" != "RC_Lss" && |"RC_Ls"| == 5 && "RC_Rs"[3] == 'R' && "RC_Ls"[3] == 'L'
  {
  }

  lemma JumpReads(k: nat)
    ensures ParseFloat(Jump(k)) == Some(if k == 0 then 0.0 else 250.0)
  {
    SmallNumbers();
    hide ParseFloat;
  }

  lemma ObjectBlockAttributes(channelId: string, number: nat, rtime: string, duration: string, p: AdmPosition,
      jump: string)
    ensures var b := ObjectBlock(channelId, number, rtime, duration, p, jump);
      b.Attr(Id) == Some(BlockNumberedId(channelId, number)) && b.Attr(Rtime) == Some(rtime) &&
        b.Attr(Duration) == Some(duration)
  {
    hide BlockNumberedId, Positions, SixDecimals;
  }

  lemma ObjectBlockParts(channelId: string, number: nat, rtime: string, duration: string, p: AdmPosition, k: nat)
    ensures var b := ObjectBlock(channelId, number, rtime, duration, p, Jump(k));
      HasCoordinate(b, "X") && HasCoordinate(b, "Y") && JumpOk(b, k)
  {
    var b := ObjectBlock(channelId, number, rtime, duration, p, Jump(k));
    var x, y, z := SixDecimals(p.x), SixDecimals(p.y), SixDecimals(p.z);
    var jump := Element(JumpPosition, map[InterpolationLength := Jump(k)], Some("1"), []);
    assert Trim("1") == "1";
    JumpReads(k);
    hide SixDecimals, Positions, Named, BlockNumberedId, HasCoordinate, ParseFloat, Jump, Trim;
    assert b.children == [Leaf(Cartesian, "1")] + Positions(x, y, z) + [jump];
    ObjectChildren(x, y, z, jump);
    BothCoordinates(b, x, y, z);
  }

  lemma ObjectBlockAccepted(channelElement: Element, channelId: string, rtime: string, duration: string,
      p: AdmPosition, k: nat)
    requires channelElement.Attr(Id) == Some(channelId)
    requires channelElement.Attr(TypeDefinition) == Some(Objects.Definition())
    requires IsAdmTime(rtime) && IsAdmTime(duration)
    requires |channelId| >= 11 && |BlockNumberedId(channelId, k + 1)| >= 20
    requires BlockNumberedId(channelId, k + 1)[3..11] == channelId[3..11]
    ensures BlockOk(channelElement, ObjectBlock(channelId, k + 1, rtime, duration, p, Jump(k)), k)
  {
    hide *;
    var block := ObjectBlock(channelId, k + 1, rtime, duration, p, Jump(k));
    ObjectBlockParts(channelId, k + 1, rtime, duration, p, k);
    ObjectBlockAttributes(channelId, k + 1, rtime, duration, p, Jump(k));
    ReflexiveCase(channelId[3..11]);
    DefinitionsDiffer();
    TimedRelations(channelElement, block, channelId, BlockNumberedId(channelId, k + 1), rtime, duration, k);
  }

  lemma TimedRelations(channel: Element, block: Element, channelId: string, blockId: string, rtime: string,
      duration: string, k: nat)
    requires channel.Attr(Id) == Some(channelId) && channel.Attr(TypeDefinition) == Some(Objects.Definition())
    requires block.Attr(Id) == Some(blockId) && block.Attr(Rtime) == Some(rtime) &&
      block.Attr(Duration) == Some(duration)
    requires IsAdmTime(rtime) && IsAdmTime(duration)
    requires |channelId| >= 11 && |blockId| >= 11 && blockId[3..11] == channelId[3..11]
    requires HasCoordinate(block, "X") && HasCoordinate(block, "Y") && JumpOk(block, k)
    requires EqualIgnoringCase(channelId[3..11], channelId[3..11])
    requires DirectSpeakers.Definition() != Objects.Definition()
    ensures BlockOk(channel, block, k)
  {
    hide HasCoordinate, JumpOk, EqualIgnoringCase, IsAdmTime, FormatType.Definition;
  }

  lemma DefinitionsDiffer()
    ensures DirectSpeakers.Definition() != Objects.Definition()
    ensures DirectSpeakers.Label() != Objects.Label()
  {
    assert DirectSpeakers.Definition()[0] != Objects.Definition()[0];
    assert DirectSpeakers.Label()[3] != Objects.Label()[3];
  }

  // ---------------------------------------------------------------- channels

  lemma ChannelAttributes(t: TrackDescriptor, rate: nat, time: string)
    requires rate > 0
    ensures var e := ChannelElement(t, rate, time);
      && e.Attr(Id) == Some(t.channelId) && e.Attr(FormatName) == Some(t.ChannelFormatName())
      && e.Attr(TypeLabel) == Some(t.kind.Type().Label()) && e.Attr(TypeDefinition) == Some(t.kind.Type().Definition())
      && e.children == Blocks(t, rate, time)
  {
    hide Blocks, FormatType.Label, FormatType.Definition, TrackDescriptor.ChannelFormatName;
  }

  lemma TypeAgrees(e: Element, id: string, t: FormatType)
    requires e.Attr(Id) == Some(id) && |id| >= 7 && id[3..7] == t.Label()
    requires e.Attr(TypeLabel) == Some(t.Label()) && e.Attr(TypeDefinition) == Some(t.Definition())
    ensures TypeConsistent(e)
  {
    ReflexiveCase(t.Label());
    hide EqualIgnoringCase, FormatType.Label, FormatType.Definition;
  }

  /** The `k`-th block of a track in each of the three shapes. */
  ghost predicate BlocksOk(channel: Element, es: seq<Element>) {
    forall k :: 0 <= k < |es| ==> BlockOk(channel, es[k], k)
  }

  lemma TrackBlocksAccepted(t: TrackDescriptor, i: nat, lfe: bool, rate: nat, duration: nat)
    requires t.Neutral() == PlannedTrack(i, lfe) && i < 0x1000
    requires (rate == 48_000 || rate == 96_000) && duration < U64_LIMIT
    ensures BlocksOk(ChannelElement(t, rate, FormatAdmTime(duration, rate)),
      Blocks(t, rate, FormatAdmTime(duration, rate)))
  {
    hide *;
    RatesPrint(rate);
    var time := FormatAdmTime(duration, rate);
    var e, es := ChannelElement(t, rate, time), Blocks(t, rate, time);
    ParseOfFormatAdmTime(duration, rate);
    forall k | 0 <= k < |es|
      ensures BlockOk(e, es[k], k)
    {
      BlockKeys(t, i, lfe, k + 1);
      OneBlockAccepted(t, rate, time, k, e, es[k]);
    }
    AllBlocksOk(e, es);
  }

  lemma AllBlocksOk(e: Element, es: seq<Element>)
    requires forall k :: 0 <= k < |es| ==> BlockOk(e, es[k], k)
    ensures BlocksOk(e, es)
  {
    hide BlockOk;
  }

  lemma OneBlockAccepted(t: TrackDescriptor, rate: nat, time: string, k: nat, e: Element, block: Element)
    requires rate > 0 && (rate - 1) * 1_000_000_000_000 < U64_LIMIT && IsAdmTime(time)
    requires e == ChannelElement(t, rate, time) && k < |Blocks(t, rate, time)| && block == Blocks(t, rate, time)[k]
    requires var id := BlockNumberedId(t.channelId, k + 1);
      |id| >= 20 && |t.channelId| >= 11 && id[3..11] == t.channelId[3..11]
    ensures BlockOk(e, block, k)
  {
    hide *;
    TypeOfTrack(t);
    ChannelAttributes(t, rate, time);
    BlockShape(t, rate, time, k);
    if t.kind.Bed? {
      BedBlockAccepted(e, t.channelId, t.kind.channel, block);
    } else if t.blocks == [] {
      ZeroTime();
      ObjectBlockAccepted(e, t.channelId, TIME_ZERO, time, AdmPosition(0.0, 0.0, 0.0), 0);
    } else {
      var b := t.blocks[k];
      ParseOfFormatTime(b.start, rate);
      ParseOfFormatTime(b.duration, rate);
      ObjectBlockAccepted(e, t.channelId, FormatTime(b.start, rate), FormatTime(b.duration, rate), b.position, k);
    }
  }

  lemma RatesPrint(rate: nat)
    requires rate == 48_000 || rate == 96_000
    ensures 0 < rate && (rate - 1) * 1_000_000_000_000 < U64_LIMIT
  {
  }

  lemma TypeOfTrack(t: TrackDescriptor)
    ensures t.kind.Bed? ==> t.kind.Type() == DirectSpeakers && t.ChannelFormatName() == t.kind.channel.ChannelName()
    ensures t.kind.Reconstruction? ==> t.kind.Type() == Objects
  {
    hide Padded;
  }

  lemma ChannelAccepted(t: TrackDescriptor, i: nat, lfe: bool, rate: nat, duration: nat)
    requires t.Neutral() == PlannedTrack(i, lfe) && i < 0x1000
    requires (rate == 48_000 || rate == 96_000) && duration < U64_LIMIT
    ensures ChannelOk(ChannelElement(t, rate, FormatAdmTime(duration, rate)))
  {
    assert rate > 0;
    hide *;
    var time := FormatAdmTime(duration, rate);
    var e := ChannelElement(t, rate, time);
    TrackIds(t, i, lfe);
    StreamLengths(t);
    ChannelAttributes(t, rate, time);
    TypeAgrees(e, t.channelId, t.kind.Type());
    BlocksAreShallow(t, rate, time);
    NamedUniform(Blocks(t, rate, time), AudioBlockFormat, AudioBlockFormat);
    BlockCount(t, rate, time);
    TrackBlocksAccepted(t, i, lfe, rate, duration);
    ChannelRelations(e);
  }

  lemma ChannelRelations(e: Element)
    requires TypeConsistent(e) && Named(e.children, AudioBlockFormat) == e.children && |e.children| > 0
    requires BlocksOk(e, e.children)
    ensures ChannelOk(e)
  {
    hide TypeConsistent, BlockOk, Named;
  }

  // ---------------------------------------------------------------- packs

  lemma PackAttributes(packId: string, t: FormatType, channelIds: seq<string>)
    requires forall i :: 0 <= i < |channelIds| ==> Word(channelIds[i])
    ensures var e := PackElement(packId, t, channelIds);
      && e.Attr(Id) == Some(packId) && e.Attr(TypeLabel) == Some(t.Label()) &&
        e.Attr(TypeDefinition) == Some(t.Definition())
      && RefValues(e.children, ChannelRef) == channelIds
  {
    hide FormatType.Label, FormatType.Definition, Word, RefValues, Refs;
    AllRefsRead(ChannelRef, channelIds);
  }

  lemma PackShape(scope: Element, packId: string, t: FormatType, channelIds: seq<string>)
    requires |packId| >= 7 && packId[3..7] == t.Label() && channelIds != []
    requires forall i :: 0 <= i < |channelIds| ==> Word(channelIds[i]) && channelIds[i] in IdsOf(scope, Channel)
    requires if t.DirectSpeakers? then BedConfigurationOk(scope, channelIds) else |channelIds| == 1
    ensures PackOk(scope, PackElement(packId, t, channelIds))
  {
    var e := PackElement(packId, t, channelIds);
    DefinitionsDiffer();
    hide FormatType.Label, FormatType.Definition, Word, RefValues, PackElement, IdsOf, BedConfigurationOk,
         TypeConsistent;
    PackAttributes(packId, t, channelIds);
    TypeAgrees(e, packId, t);
  }

  /** The label the validator reads for bed channel `i`. */
  lemma BedLabel(rate: nat, duration: nat, tracks: seq<TrackDescriptor>, signals: nat, i: nat)
    requires Planned(rate, duration, tracks, signals, true) && i < BedSize(true)
    ensures i < |tracks|
    ensures ChannelLabel(Extended(rate, duration, tracks), tracks[i].channelId) == Some(BED_CHANNELS[i].SpeakerLabel())
  {
    SignalBounds(rate, duration, tracks, signals, true, 0);
    TableTracks(tracks, signals, true);
    assert i < |tracks|;
    BedKind(i);
    hide *;
    var t, time := tracks[i], FormatAdmTime(duration, rate);
    TrackSectionAt(rate, duration, tracks, i);
    ChannelAttributes(t, rate, time);
    SectionsDistinct(rate, duration, tracks, signals, true, Channel);
    FindInSection(rate, duration, tracks, Channel, i);
    PackTag();
    BlockCount(t, rate, time);
    BlockShape(t, rate, time, 0);
    BlocksAreShallow(t, rate, time);
    NamedUniform(Blocks(t, rate, time), AudioBlockFormat, AudioBlockFormat);
    BedBlockParts(t.channelId, t.kind.channel);
    LabelOf(Extended(rate, duration, tracks), t.channelId, ChannelElement(t, rate, time),
      BedBlock(t.channelId, t.kind.channel), t.kind.channel.SpeakerLabel());
  }

  lemma BedKind(i: nat)
    requires i < BedSize(true)
    ensures PlannedTrack(i, true).kind == Bed(BED_CHANNELS[i])
  {
    hide FormatId, TrackFormatId, UidOf;
  }

  lemma LabelOf(scope: Element, channelId: string, channel: Element, block: Element, speaker: string)
    requires FindById(scope.children, AudioChannelFormat, channelId) == Some(channel)
    requires |Named(channel.children, AudioBlockFormat)| > 0 && Named(channel.children, AudioBlockFormat)[0] == block
    requires RefValues(block.children, SpeakerLabel) == [speaker]
    ensures ChannelLabel(scope, channelId) == Some(speaker)
  {
    hide FindById, Named, RefValues;
  }

  lemma BedConfiguration(rate: nat, duration: nat, tracks: seq<TrackDescriptor>, signals: nat)
    requires Planned(rate, duration, tracks, signals, true)
    ensures BedConfigurationOk(Extended(rate, duration, tracks), ChannelIds(BedTracks(tracks)))
  {
    hide *;
    BedIds(rate, duration, tracks, signals);
    var scope, ids := Extended(rate, duration, tracks), ChannelIds(BedTracks(tracks));
    BedCount();
    forall i | 0 <= i < |ids|
      ensures ChannelLabel(scope, ids[i]) == Some(BED_CHANNELS[i].SpeakerLabel())
    {
      BedLabel(rate, duration, tracks, signals, i);
    }
    FourthBed(scope, ids);
  }

  lemma BedCount()
    ensures |BED_CHANNELS| == 6 == BedSize(true)
  {
  }

  lemma FourthBed(scope: Element, ids: seq<string>)
    requires |ids| == 6
    requires forall i :: 0 <= i < 6 ==> ChannelLabel(scope, ids[i]) == Some(BED_CHANNELS[i].SpeakerLabel())
    ensures BedConfigurationOk(scope, ids)
  {
    hide ChannelLabel;
    assert |ALLOWED_BEDS| == 8 && |ALLOWED_BEDS[3]| == 6;
    forall i | 0 <= i < 6
      ensures ALLOWED_BEDS[3][i] == BED_CHANNELS[i].SpeakerLabel()
    {
    }
  }

  lemma BedPackAccepted(rate: nat, duration: nat, tracks: seq<TrackDescriptor>, signals: nat)
    requires Planned(rate, duration, tracks, signals, true)
    ensures PackOk(Extended(rate, duration, tracks),
      PackElement(FormatId(Pack, DirectSpeakers, COUNTER_BASE), DirectSpeakers, ChannelIds(BedTracks(tracks))))
  {
    hide *;
    BedIds(rate, duration, tracks, signals);
    FirstFormat();
    var scope, ids, packId :=
      Extended(rate, duration, tracks), ChannelIds(BedTracks(tracks)), FormatId(Pack, DirectSpeakers, COUNTER_BASE);
    FormatIdFacts(Pack, DirectSpeakers, COUNTER_BASE);
    IdLength(packId);
    BedConfiguration(rate, duration, tracks, signals);
    forall i | 0 <= i < |ids|
      ensures Word(ids[i]) && ids[i] in IdsOf(scope, Channel)
    {
      TrackTargets(rate, duration, tracks, signals, true, i);
    }
    PackShape(scope, packId, DirectSpeakers, ids);
  }

  /** The channels of the bed are those of the first tracks. */
  lemma BedIds(rate: nat, duration: nat, tracks: seq<TrackDescriptor>, signals: nat)
    requires Planned(rate, duration, tracks, signals, true)
    ensures rate > 0
    ensures var ids := ChannelIds(BedTracks(tracks));
      |ids| == 6 <= |tracks| && forall i :: 0 <= i < |ids| ==> ids[i] == tracks[i].channelId
  {
    hide *;
    PlannedCounts(rate, duration, tracks, signals, true);
    TableTracks(tracks, signals, true);
    BedSizes(tracks, true);
    var beds := BedTracks(tracks);
    forall i | 0 <= i < |beds|
      ensures ChannelIds(beds)[i] == beds[i].channelId
    {
      ChannelIdAt(beds, i);
    }
    ChannelIdCount(beds);
  }

  lemma ChannelIdAt(tracks: seq<TrackDescriptor>, i: nat)
    requires i < |tracks|
    ensures i < |ChannelIds(tracks)| && ChannelIds(tracks)[i] == tracks[i].channelId
  {
  }

  lemma ChannelIdCount(tracks: seq<TrackDescriptor>)
    ensures |ChannelIds(tracks)| == |tracks|
  {
  }

  lemma PlannedCounts(rate: nat, duration: nat, tracks: seq<TrackDescriptor>, signals: nat, lfe: bool)
    requires Planned(rate, duration, tracks, signals, lfe)
    ensures rate > 0 && IsTrackTable(tracks, signals, lfe) && |tracks| == BedSize(lfe) + signals
  {
    hide InPlace, BedSize;
  }

  lemma IdLength(packId: string)
    requires IsAdmId(packId, Pack)
    ensures |packId| == 11
  {
  }

  lemma SignalPackAccepted(rate: nat, duration: nat, tracks: seq<TrackDescriptor>, signals: nat, lfe: bool, j: nat)
    requires Planned(rate, duration, tracks, signals, lfe) && BedSize(lfe) <= j < |tracks|
    ensures PackOk(Extended(rate, duration, tracks), PackElement(tracks[j].packId, Objects, [tracks[j].channelId]))
  {
    hide *;
    var t := tracks[j];
    TrackOfTable(rate, duration, tracks, signals, lfe, j);
    TrackIds(t, j, lfe);
    IdLength(t.packId);
    TrackTargets(rate, duration, tracks, signals, lfe, j);
    PackShape(Extended(rate, duration, tracks), t.packId, Objects, [t.channelId]);
  }

  lemma TrackOfTable(rate: nat, duration: nat, tracks: seq<TrackDescriptor>, signals: nat, lfe: bool, j: nat)
    requires Planned(rate, duration, tracks, signals, lfe) && j < |tracks|
    ensures rate > 0 && duration < U64_LIMIT && j < 0x1000 && tracks[j].Neutral() == PlannedTrack(j, lfe)
    ensures j >= BedSize(lfe) ==> tracks[j].kind == Reconstruction(j - BedSize(lfe)) && tracks[j].kind.Type() == Objects
  {
    assert InPlace(tracks, j, lfe);
    assert tracks[j].Neutral().kind == KindAt(j, lfe);
    hide FormatId, TrackFormatId, UidOf;
  }

  lemma PackAccepted(rate: nat, duration: nat, tracks: seq<TrackDescriptor>, signals: nat, lfe: bool, i: nat)
    requires Planned(rate, duration, tracks, signals, lfe) && i < |SectionOf(Pack, rate, duration, tracks)|
    ensures PackOk(Extended(rate, duration, tracks), SectionOf(Pack, rate, duration, tracks)[i])
  {
    hide *;
    PlannedCounts(rate, duration, tracks, signals, lfe);
    TableTracks(tracks, signals, lfe);
    BedSizes(tracks, lfe);
    SectionNames(rate, duration, tracks);
    PacksNumbered(tracks, signals, lfe);
    PackFound(rate, duration, tracks, signals, lfe, i);
    if lfe && i == 0 {
      BedPackAccepted(rate, duration, tracks, signals);
    } else {
      SignalPackAccepted(rate, duration, tracks, signals, lfe, BedSize(lfe) + i - (if lfe then 1 else 0));
    }
    PackElementIs(BedTracks(tracks), ObjectTracks(tracks), i);
  }

  lemma PackElementIs(beds: seq<TrackDescriptor>, objects: seq<TrackDescriptor>, i: nat)
    requires i < |objects| + (if beds == [] then 0 else 1)
    ensures beds != [] && i == 0 ==>
      PackElementAt(beds, objects, i) ==
        PackElement(FormatId(Pack, DirectSpeakers, COUNTER_BASE), DirectSpeakers, ChannelIds(beds))
    ensures !(beds != [] && i == 0) ==>
      var t := objects[i - (if beds == [] then 0 else 1)];
      PackElementAt(beds, objects, i) == PackElement(t.packId, Objects, [t.channelId])
  {
    hide PackElement, FormatId, ChannelIds;
  }

  // ---------------------------------------------------------------- streams, track formats and UIDs

  lemma StreamParts(t: TrackDescriptor)
    requires Word(t.channelId) && Word(t.packId) && Word(t.trackId)
    ensures var e := StreamElement(t);
      && e.Attr(Id) == Some(t.streamId) && e.Attr(FormatName) == Some(PcmName(t)) && IsPcm(e)
      && RefValues(e.children, ChannelRef) == [t.channelId]
      && RefValues(e.children, PackRef) == [t.packId]
      && RefValues(e.children, TrackFormatRef) == [t.trackId]
  {
    ThreeRefs(ChannelRef, t.channelId, PackRef, t.packId, TrackFormatRef, t.trackId);
    hide PcmName, Word, RefValues, Trim;
  }

  lemma ThreeRefs(a: Tag, x: string, b: Tag, y: string, c: Tag, z: string)
    requires Word(x) && Word(y) && Word(z) && a != b && b != c && a != c
    ensures var es := [Leaf(a, x), Leaf(b, y), Leaf(c, z)];
      RefValues(es, a) == [x] && RefValues(es, b) == [y] && RefValues(es, c) == [z]
  {
    hide Trim;
    var es, tail, last := [Leaf(a, x), Leaf(b, y), Leaf(c, z)], [Leaf(b, y), Leaf(c, z)], [Leaf(c, z)];
    assert es == [Leaf(a, x)] + tail && tail == [Leaf(b, y)] + last && last == [Leaf(c, z)] + [];
    forall tag | tag == a || tag == b || tag == c
      ensures RefValues(es, tag) ==
        (if a == tag then [x] else []) + ((if b == tag then [y] else []) + (if c == tag then [z] else []))
    {
      LeafRead(a, x, tail, tag);
      LeafRead(b, y, last, tag);
      LeafRead(c, z, [], tag);
    }
  }

  lemma TwoRefs(a: Tag, x: string, b: Tag, y: string, other: Tag)
    requires Word(x) && Word(y) && a != b && other != a && other != b
    ensures var es := [Leaf(a, x), Leaf(b, y)];
      RefValues(es, a) == [x] && RefValues(es, b) == [y] && RefValues(es, other) == []
  {
    hide Trim;
    var es, last := [Leaf(a, x), Leaf(b, y)], [Leaf(b, y)];
    assert es == [Leaf(a, x)] + last && last == [Leaf(b, y)] + [];
    forall tag | tag == a || tag == b || tag == other
      ensures RefValues(es, tag) == (if a == tag then [x] else []) + (if b == tag then [y] else [])
    {
      LeafRead(a, x, last, tag);
      LeafRead(b, y, [], tag);
    }
  }

  lemma StreamAccepted(rate: nat, duration: nat, tracks: seq<TrackDescriptor>, signals: nat, lfe: bool, i: nat)
    requires Planned(rate, duration, tracks, signals, lfe) && i < |tracks|
    ensures StreamOk(Extended(rate, duration, tracks), StreamElement(tracks[i]))
  {
    hide *;
    TrackOfTable(rate, duration, tracks, signals, lfe, i);
    var t, scope := tracks[i], Extended(rate, duration, tracks);
    TrackIds(t, i, lfe);
    StreamLengths(t);
    TrackTargets(rate, duration, tracks, signals, lfe, i);
    PackTarget(rate, duration, tracks, signals, lfe, i);
    StreamParts(t);
    TrackSectionAt(rate, duration, tracks, i);
    ChannelAttributes(t, rate, FormatAdmTime(duration, rate));
    SectionsDistinct(rate, duration, tracks, signals, lfe, Channel);
    FindInSection(rate, duration, tracks, Channel, i);
    PackTag();
    StreamRelations(scope, StreamElement(t), t, ChannelElement(t, rate, FormatAdmTime(duration, rate)));
  }

  lemma StreamLengths(t: TrackDescriptor)
    requires IsAdmId(t.streamId, Stream) && IsAdmId(t.channelId, Channel) && IsAdmId(t.trackId, TrackFormat)
    ensures |t.streamId| >= 11 && |t.channelId| >= 11 && |t.trackId| >= 11
  {
  }

  lemma StreamRelations(scope: Element, e: Element, t: TrackDescriptor, channel: Element)
    requires IsPcm(e) && e.Attr(Id) == Some(t.streamId) && e.Attr(FormatName) == Some(PcmName(t))
    requires RefValues(e.children, ChannelRef) == [t.channelId] && t.channelId in IdsOf(scope, Channel)
    requires RefValues(e.children, PackRef) == [t.packId] && t.packId in IdsOf(scope, Pack)
    requires RefValues(e.children, TrackFormatRef) == [t.trackId] && t.trackId in IdsOf(scope, TrackFormat)
    requires |t.streamId| >= 11 && |t.channelId| >= 11 && |t.trackId| >= 11
    requires t.streamId[3..11] == t.channelId[3..11] == t.trackId[3..11]
    requires FindById(scope.children, AudioChannelFormat, t.channelId) == Some(channel)
    requires channel.Attr(FormatName) == Some(t.ChannelFormatName())
    ensures StreamOk(scope, e)
  {
    ReflexiveCase(t.streamId[3..11]);
    assert PcmName(t) == "PCM_" + t.ChannelFormatName();
    hide IdsOf, FindById, RefValues, EqualIgnoringCase, IsPcm, TrackDescriptor.ChannelFormatName, PcmName;
  }

  lemma TrackFormatParts(t: TrackDescriptor)
    requires Word(t.streamId)
    ensures var e := TrackFormatElement(t);
      && e.Attr(FormatName) == Some(PcmName(t)) && IsPcm(e) && RefValues(e.children, StreamRef) == [t.streamId]
  {
    hide PcmName, Trim;
    LeafRead(StreamRef, t.streamId, [], StreamRef);
    assert TrackFormatElement(t).children == [Leaf(StreamRef, t.streamId)] + [];
  }

  lemma TrackFormatAccepted(rate: nat, duration: nat, tracks: seq<TrackDescriptor>, signals: nat, lfe: bool, i: nat)
    requires Planned(rate, duration, tracks, signals, lfe) && i < |tracks|
    ensures TrackFormatOk(Extended(rate, duration, tracks), TrackFormatElement(tracks[i]))
  {
    hide *;
    TrackOfTable(rate, duration, tracks, signals, lfe, i);
    var t, scope := tracks[i], Extended(rate, duration, tracks);
    TrackTargets(rate, duration, tracks, signals, lfe, i);
    TrackFormatParts(t);
    StreamParts(t);
    TrackSectionAt(rate, duration, tracks, i);
    SectionsDistinct(rate, duration, tracks, signals, lfe, Stream);
    FindInSection(rate, duration, tracks, Stream, i);
    PackTag();
    TrackFormatRelations(scope, TrackFormatElement(t), t, StreamElement(t));
  }

  lemma TrackFormatRelations(scope: Element, e: Element, t: TrackDescriptor, stream: Element)
    requires IsPcm(e) && e.Attr(FormatName) == Some(PcmName(t)) && stream.Attr(FormatName) == Some(PcmName(t))
    requires RefValues(e.children, StreamRef) == [t.streamId] && t.streamId in IdsOf(scope, Stream)
    requires FindById(scope.children, AudioStreamFormat, t.streamId) == Some(stream)
    ensures TrackFormatOk(scope, e)
  {
    hide IdsOf, FindById, RefValues, IsPcm, PcmName;
  }

  lemma UidParts(t: TrackDescriptor, rate: nat)
    requires Word(t.trackId) && Word(t.packId)
    ensures var e := UidElement(t, rate);
      && e.Attr(Id) == Some(t.uid) && e.Attr(SampleRate) == Some(Natural(rate, 10)) && e.Attr(BitDepth) == Some("24")
      && e.Attr(TrackIndex) == None && e.Attr(PackRefAttribute) == None && e.Attr(ChannelRefAttribute) == None
      && RefValues(e.children, TrackFormatRef) == [t.trackId] && RefValues(e.children, PackRef) == [t.packId]
      && RefValues(e.children, ChannelRef) == []
  {
    TwoRefs(TrackFormatRef, t.trackId, PackRef, t.packId, ChannelRef);
    hide Natural, Word, RefValues;
  }

  lemma RateReads(rate: nat)
    requires rate < U32_LIMIT
    ensures ParseUnsigned(Natural(rate, 10), 10, U32_LIMIT) == Some(rate)
  {
    hide ParseUnsigned;
    ParseDigits(Natural(rate, 10), 10, U32_LIMIT);
  }

  lemma UidAccepted(rate: nat, duration: nat, tracks: seq<TrackDescriptor>, signals: nat, lfe: bool, i: nat)
    requires Planned(rate, duration, tracks, signals, lfe) && i < |tracks|
    ensures UidOk(Extended(rate, duration, tracks), UidElement(tracks[i], rate), rate)
    ensures Link(UidElement(tracks[i], rate)) == Some((tracks[i].trackId, tracks[i].packId))
  {
    assert rate < U32_LIMIT;
    hide *;
    TrackOfTable(rate, duration, tracks, signals, lfe, i);
    var t, scope := tracks[i], Extended(rate, duration, tracks);
    TrackTargets(rate, duration, tracks, signals, lfe, i);
    PackTarget(rate, duration, tracks, signals, lfe, i);
    UidParts(t, rate);
    RateReads(rate);
    UidRelations(scope, UidElement(t, rate), t, rate);
  }

  lemma UidRelations(scope: Element, e: Element, t: TrackDescriptor, rate: nat)
    requires e.Attr(Id) == Some(t.uid) && e.Attr(SampleRate) == Some(Natural(rate, 10)) &&
      e.Attr(BitDepth) == Some("24")
    requires e.Attr(TrackIndex) == None && e.Attr(PackRefAttribute) == None && e.Attr(ChannelRefAttribute) == None
    requires RefValues(e.children, TrackFormatRef) == [t.trackId] && RefValues(e.children, PackRef) == [t.packId]
    requires RefValues(e.children, ChannelRef) == []
    requires t.trackId in IdsOf(scope, TrackFormat) && t.packId in IdsOf(scope, Pack)
    requires ParseUnsigned(Natural(rate, 10), 10, U32_LIMIT) == Some(rate)
    ensures UidOk(scope, e, rate) && Link(e) == Some((t.trackId, t.packId))
  {
    hide IdsOf, RefValues, ParseUnsigned, Natural;
  }

  lemma RecordAccepted(rate: nat, duration: nat, tracks: seq<TrackDescriptor>, signals: nat, lfe: bool, i: nat)
    requires Planned(rate, duration, tracks, signals, lfe) && i < |tracks|
    ensures RecordLinked(Extended(rate, duration, tracks), RecordFor(tracks[i]))
  {
    hide *;
    TrackOfTable(rate, duration, tracks, signals, lfe, i);
    var t, scope := tracks[i], Extended(rate, duration, tracks);
    UidAccepted(rate, duration, tracks, signals, lfe, i);
    TrackTargets(rate, duration, tracks, signals, lfe, i);
    UidParts(t, rate);
    TrackSectionAt(rate, duration, tracks, i);
    SectionsDistinct(rate, duration, tracks, signals, lfe, TrackUid);
    FindInSection(rate, duration, tracks, TrackUid, i);
    PackTag();
    RecordRelations(scope, t, UidElement(t, rate));
  }

  lemma RecordRelations(scope: Element, t: TrackDescriptor, e: Element)
    requires FindById(scope.children, AudioTrackUid, t.uid) == Some(e) && Link(e) == Some((t.trackId, t.packId))
    ensures RecordLinked(scope, RecordFor(t))
  {
    hide FindById, Link;
  }
}
