/** Every document the exporter builds passes the validator's cross-reference checks. */
module AdmDocumentAccepted {
  import opened Wrappers
  import opened Bytes
  import opened Text
  import opened AdmIds
  import opened AdmTimes
  import opened AdmTracks
  import opened AdmDocument
  import opened AdmDocumentCheck
  import opened AdmDocumentSections
  import opened AdmDocumentIds

  // ---------------------------------------------------------------- reading references back

  predicate Word(s: string) {
    s != "" && Trim(s) == s
  }

  lemma IdIsWord(id: string, kind: IdKind)
    requires IsAdmId(id, kind)
    ensures Word(id)
  {
    hide IsAdmId;
    IdsAreAsciiWords(id, kind);
  }

  lemma {:induction false} RefsRead(tag: Tag, ids: seq<string>, rest: seq<Element>, wanted: Tag)
    requires forall i :: 0 <= i < |ids| ==> Word(ids[i])
    ensures RefValues(Refs(tag, ids) + rest, wanted) ==
      (if tag == wanted then ids else []) + RefValues(rest, wanted)
  {
    var es := Refs(tag, ids);
    if ids == [] {
      assert es + rest == rest;
    } else {
      assert (es + rest)[0] == Leaf(tag, ids[0]);
      assert (es + rest)[1..] == Refs(tag, ids[1..]) + rest;
      assert Word(ids[0]);
      assert forall i :: 0 <= i < |ids| - 1 ==>
        Word(ids[1..][i]) by { assert forall i :: 0 <= i < |ids| - 1 ==> ids[1..][i] == ids[i + 1]; }
      RefsRead(tag, ids[1..], rest, wanted);
    }
  }

  lemma AllRefsRead(tag: Tag, ids: seq<string>)
    requires forall i :: 0 <= i < |ids| ==> Word(ids[i])
    ensures RefValues(Refs(tag, ids), tag) == ids
  {
    RefsRead(tag, ids, [], tag);
    assert Refs(tag, ids) + [] == Refs(tag, ids);
  }

  lemma LeafRead(tag: Tag, text: string, rest: seq<Element>, wanted: Tag)
    requires Word(text)
    ensures RefValues([Leaf(tag, text)] + rest, wanted) ==
      (if tag == wanted then [text] else []) + RefValues(rest, wanted)
  {
    assert ([Leaf(tag, text)] + rest)[1..] == rest;
  }

  /** Every element has an identifier and no two share one. */
  ghost predicate Keyed(es: seq<Element>) {
    && (forall j :: 0 <= j < |es| ==> es[j].Attr(Id).Some?)
    && (forall j, k :: 0 <= j < k < |es| ==> es[j].Attr(Id) != es[k].Attr(Id))
  }

  lemma KeyedTail(e: Element, es: seq<Element>)
    requires Keyed([e] + es)
    ensures Keyed(es) && e.Attr(Id).Some? && forall i :: 0 <= i < |es| ==> es[i].Attr(Id) != e.Attr(Id)
  {
    var all := [e] + es;
    assert all[0] == e;
    forall j | 0 <= j < |es|
      ensures es[j] == all[j + 1] && es[j].Attr(Id).Some? && es[j].Attr(Id) != e.Attr(Id)
    {
      assert all[j + 1].Attr(Id).Some? && all[0].Attr(Id) != all[j + 1].Attr(Id);
    }
  }

  lemma {:induction false} FindNamed(es: seq<Element>, tag: Tag, i: nat)
    requires i < |Named(es, tag)| && Keyed(Named(es, tag))
    ensures Named(es, tag)[i].Attr(Id).Some?
    ensures FindById(es, tag, Named(es, tag)[i].Attr(Id).value) == Some(Named(es, tag)[i])
  {
    var all, rest := Named(es, tag), Named(es[1..], tag);
    if es[0].tag == tag {
      assert all == [es[0]] + rest;
      KeyedTail(es[0], rest);
      if i > 0 {
        assert all[i] == rest[i - 1];
        FindNamed(es[1..], tag, i - 1);
      }
    } else {
      assert all == rest;
      FindNamed(es[1..], tag, i);
    }
  }

  /** In a generated document, an identifier finds its own section's element. */
  lemma FindInSection(rate: nat, duration: nat, tracks: seq<TrackDescriptor>, kind: IdKind, i: nat)
    requires rate > 0
    requires DistinctIds(SectionOf(kind, rate, duration, tracks), kind) && i < |SectionOf(kind, rate, duration, tracks)|
    ensures SectionOf(kind, rate, duration, tracks)[i].Attr(Id).Some?
    ensures FindById(Extended(rate, duration, tracks).children, TagOf(kind),
      SectionOf(kind, rate, duration, tracks)[i].Attr(Id).value)
      == Some(SectionOf(kind, rate, duration, tracks)[i])
  {
    hide SectionOf, Extended, IsAdmId;
    ChildrenAreSections(rate, duration, tracks, kind);
    FindNamed(Extended(rate, duration, tracks).children, TagOf(kind), i);
  }

  // ---------------------------------------------------------------- the generated scope

  /** The plans a document is built for. */
  ghost predicate Planned(rate: nat, duration: nat, tracks: seq<TrackDescriptor>, signals: nat, lfe: bool) {
    && (rate == 48_000 || rate == 96_000)
    && duration < U64_LIMIT
    && IsTrackTable(tracks, signals, lfe)
  }

  lemma PlannedFacts(rate: nat, duration: nat, tracks: seq<TrackDescriptor>, signals: nat, lfe: bool)
    requires Planned(rate, duration, tracks, signals, lfe)
    ensures rate > 0 && IsTrackTable(tracks, signals, lfe) && duration < U64_LIMIT
  {
  }

  lemma SectionNames(rate: nat, duration: nat, tracks: seq<TrackDescriptor>)
    requires rate > 0
    ensures var time := FormatAdmTime(duration, rate);
      && SectionOf(Programme, rate, duration, tracks) == [ProgrammeElement(time)]
      && SectionOf(Content, rate, duration, tracks) == [ContentElement(BedTracks(tracks) != [], |ObjectTracks(tracks)|)]
      && SectionOf(Object, rate, duration, tracks) == ObjectElements(tracks, time)
      && SectionOf(Pack, rate, duration, tracks) == PackElements(tracks)
      && SectionOf(Channel, rate, duration, tracks) == ChannelElements(tracks, rate, time)
      && SectionOf(Stream, rate, duration, tracks) == StreamElements(tracks)
      && SectionOf(TrackFormat, rate, duration, tracks) == TrackFormatElements(tracks)
      && SectionOf(TrackUid, rate, duration, tracks) == UidElements(tracks, rate)
  {
    hide FormatAdmTime, ProgrammeElement, ContentElement, BedTracks, ObjectTracks, PackElements, ObjectElements,
         ChannelElements, StreamElements, TrackFormatElements, UidElements;
  }

  lemma SingletonSections(rate: nat, duration: nat, tracks: seq<TrackDescriptor>)
    requires rate > 0
    ensures DistinctIds(SectionOf(Programme, rate, duration, tracks), Programme)
    ensures DistinctIds(SectionOf(Content, rate, duration, tracks), Content)
    ensures IdSet(SectionOf(Programme, rate, duration, tracks)) == {PROGRAMME_ID}
    ensures Numbered(SectionOf(Content, rate, duration, tracks), Content, ContentCounter, COUNTER_BASE)
  {
    hide *;
    SectionNames(rate, duration, tracks);
    SingletonIds();
    ProgrammeParts(FormatAdmTime(duration, rate));
    SingletonSection(ProgrammeElement(FormatAdmTime(duration, rate)), Programme, PROGRAMME_ID);
    var content := ContentElement(BedTracks(tracks) != [], |ObjectTracks(tracks)|);
    ContentId(BedTracks(tracks) != [], |ObjectTracks(tracks)|);
    SingletonSection(content, Content, CONTENT_ID);
    OneNumbered(content);
  }

  lemma SingletonSection(e: Element, kind: IdKind, id: string)
    requires e.Attr(Id) == Some(id) && IsAdmId(id, kind)
    ensures DistinctIds([e], kind) && IdSet([e]) == {id}
  {
    hide IsAdmId;
    assert [e][0].Attr(Id) == Some(id);
  }

  lemma ContentId(bed: bool, objects: nat)
    ensures ContentElement(bed, objects).Attr(Id) == Some(CONTENT_ID)
  {
    hide CONTENT_ID, Refs, ObjectIds;
  }

  lemma OneNumbered(e: Element)
    requires e.Attr(Id) == Some(CONTENT_ID) && IsAdmId(CONTENT_ID, Content)
    requires Counter(CONTENT_ID, ContentCounter) == Some(COUNTER_BASE)
    ensures Numbered([e], Content, ContentCounter, COUNTER_BASE)
  {
    hide IsAdmId, Counter, CONTENT_ID;
  }

  lemma SectionsDistinct(rate: nat, duration: nat, tracks: seq<TrackDescriptor>, signals: nat, lfe: bool, kind: IdKind)
    requires Planned(rate, duration, tracks, signals, lfe) && kind != Block
    ensures DistinctIds(SectionOf(kind, rate, duration, tracks), kind)
  {
    hide *;
    PlannedFacts(rate, duration, tracks, signals, lfe);
    var time := FormatAdmTime(duration, rate);
    SectionNames(rate, duration, tracks);
    match kind
    case Programme => SingletonSections(rate, duration, tracks);
    case Content => SingletonSections(rate, duration, tracks);
    case Object => ObjectsDistinct(tracks, time, signals, lfe);
    case Pack =>
      PacksNumbered(tracks, signals, lfe);
      NumberedIsContiguous(PackElements(tracks), Pack, FormatCounter, COUNTER_BASE);
    case Channel =>
      TrackSectionsNumbered(rate, time, tracks, signals, lfe);
      NumberedIsContiguous(ChannelElements(tracks, rate, time), Channel, FormatCounter, COUNTER_BASE);
    case Stream =>
      TrackSectionsNumbered(rate, time, tracks, signals, lfe);
      NumberedIsContiguous(StreamElements(tracks), Stream, FormatCounter, COUNTER_BASE);
    case TrackFormat =>
      TrackSectionsNumbered(rate, time, tracks, signals, lfe);
      NumberedIsContiguous(TrackFormatElements(tracks), TrackFormat, FormatCounter, COUNTER_BASE);
    case TrackUid =>
      TrackSectionsNumbered(rate, time, tracks, signals, lfe);
      NumberedIsContiguous(UidElements(tracks, rate), TrackUid, UidCounter, 1);
  }

  /** The identifier of the `i`-th element of a section is a valid reference target. */
  lemma Target(rate: nat, duration: nat, tracks: seq<TrackDescriptor>, kind: IdKind, i: nat)
    requires rate > 0 && kind != Block && i < |SectionOf(kind, rate, duration, tracks)|
    requires SectionOf(kind, rate, duration, tracks)[i].Attr(Id).Some?
    ensures SectionOf(kind, rate, duration, tracks)[i].Attr(Id).value in IdsOf(Extended(rate, duration, tracks), kind)
  {
    hide SectionOf, Extended;
    MembersAreSections(rate, duration, tracks, kind);
    IdInSet(SectionOf(kind, rate, duration, tracks), i);
  }

  /** The elements of track `i` in the four per-track sections. */
  lemma TrackSectionAt(rate: nat, duration: nat, tracks: seq<TrackDescriptor>, i: nat)
    requires rate > 0 && i < |tracks|
    ensures |SectionOf(Channel, rate, duration, tracks)| == |tracks| == |SectionOf(Stream, rate, duration, tracks)|
    ensures |SectionOf(TrackFormat, rate, duration, tracks)| == |tracks| ==
      |SectionOf(TrackUid, rate, duration, tracks)|
    ensures SectionOf(Channel, rate, duration, tracks)[i] ==
      ChannelElement(tracks[i], rate, FormatAdmTime(duration, rate))
    ensures SectionOf(Stream, rate, duration, tracks)[i] == StreamElement(tracks[i])
    ensures SectionOf(TrackFormat, rate, duration, tracks)[i] == TrackFormatElement(tracks[i])
    ensures SectionOf(TrackUid, rate, duration, tracks)[i] == UidElement(tracks[i], rate)
  {
    hide ChannelElement, StreamElement, TrackFormatElement, UidElement, FormatAdmTime, PackElements, ObjectElements;
  }

  /** Every identifier of a track can be referenced, and is a plain word. */
  lemma TrackTargets(rate: nat, duration: nat, tracks: seq<TrackDescriptor>, signals: nat, lfe: bool, i: nat)
    requires Planned(rate, duration, tracks, signals, lfe) && i < |tracks|
    ensures var scope, t := Extended(rate, duration, tracks), tracks[i];
      && t.channelId in IdsOf(scope, Channel) && t.streamId in IdsOf(scope, Stream)
      && t.trackId in IdsOf(scope, TrackFormat) && t.uid in IdsOf(scope, TrackUid)
      && Word(t.channelId) && Word(t.streamId) && Word(t.trackId) && Word(t.uid) && Word(t.packId)
  {
    var t, time := tracks[i], FormatAdmTime(duration, rate);
    assert InPlace(tracks, i, lfe);
    hide SectionOf, Extended, IdsOf, IsAdmId, Counter, PlannedTrack, Word, ChannelElement, StreamElement,
         TrackFormatElement, UidElement;
    TrackIds(t, i, lfe);
    IdIsWord(t.channelId, Channel);
    IdIsWord(t.streamId, Stream);
    IdIsWord(t.trackId, TrackFormat);
    IdIsWord(t.uid, TrackUid);
    IdIsWord(t.packId, Pack);
    TrackSectionAt(rate, duration, tracks, i);
    ElementIds(t, rate, time);
    Target(rate, duration, tracks, Channel, i);
    Target(rate, duration, tracks, Stream, i);
    Target(rate, duration, tracks, TrackFormat, i);
    Target(rate, duration, tracks, TrackUid, i);
  }

  /** The position of a track's pack among the packs: the whole bed shares the first. */
  function PackIndex(i: nat, lfe: bool): nat {
    if lfe && i < BedSize(lfe) then 0 else i - BedSize(lfe) + (if lfe then 1 else 0)
  }

  lemma PackTarget(rate: nat, duration: nat, tracks: seq<TrackDescriptor>, signals: nat, lfe: bool, i: nat)
    requires Planned(rate, duration, tracks, signals, lfe) && i < |tracks|
    ensures tracks[i].packId in IdsOf(Extended(rate, duration, tracks), Pack)
  {
    hide *;
    var k := PackIndex(i, lfe);
    PlannedFacts(rate, duration, tracks, signals, lfe);
    PackOfTrack(tracks, signals, lfe, i);
    SectionNames(rate, duration, tracks);
    Target(rate, duration, tracks, Pack, k);
  }

  lemma PackOfTrack(tracks: seq<TrackDescriptor>, signals: nat, lfe: bool, i: nat)
    requires IsTrackTable(tracks, signals, lfe) && i < |tracks|
    ensures PackIndex(i, lfe) < |PackElements(tracks)|
    ensures PackElements(tracks)[PackIndex(i, lfe)].Attr(Id) == Some(tracks[i].packId)
  {
    hide *;
    TableBounds(tracks, signals, lfe, i);
    TableTracks(tracks, signals, lfe);
    BedSizes(tracks, lfe);
    PackAt(tracks, signals, lfe, PackIndex(i, lfe));
    if i < BedSize(lfe) {
      BedPackId(i);
      BedPackElement(BedTracks(tracks), ObjectTracks(tracks));
    } else {
      ObjectPackElement(BedTracks(tracks), ObjectTracks(tracks), PackIndex(i, lfe));
    }
  }

  lemma TableBounds(tracks: seq<TrackDescriptor>, signals: nat, lfe: bool, i: nat)
    requires IsTrackTable(tracks, signals, lfe) && i < |tracks|
    ensures i < signals + BedSize(lfe) && PackIndex(i, lfe) < signals + (if lfe then 1 else 0)
    ensures PackIndex(i, lfe) == if i < BedSize(lfe) then 0 else i - BedSize(lfe) + (if lfe then 1 else 0)
  {
  }

  lemma BedPackId(i: nat)
    requires i < BedSize(true)
    ensures PlannedTrack(i, true).packId == FormatId(Pack, DirectSpeakers, COUNTER_BASE)
  {
    hide FormatId, TrackFormatId, UidOf;
  }

  // ---------------------------------------------------------------- times

  lemma ZeroTime()
    ensures ParseAdmTimeSeconds(TIME_ZERO) == Some(0.0) && IsAdmTime(TIME_ZERO)
  {
    hide ParseAdmTimeSeconds, IsAdmTime, Clock;
    ClockZero();
    ClockFields(0, 0, 0, 0);
  }

  lemma ClockZero()
    ensures Clock(0, 0, 0, 0) == TIME_ZERO
  {
    hide Padded;
    ZeroFields();
  }

  lemma ZeroFields()
    ensures Padded(0, 2, 10) == "00" && Padded(0, 5, 10) == "00000"
  {
    assert Power(10, 2) == 100 && Power(10, 5) == 100_000 by { DecimalPowers(); }
    assert Fixed(0, 1, 10) == Fixed(0, 0, 10) + ['0'];
    assert Fixed(0, 2, 10) == Fixed(0, 1, 10) + ['0'];
    assert Fixed(0, 3, 10) == Fixed(0, 2, 10) + ['0'];
    assert Fixed(0, 4, 10) == Fixed(0, 3, 10) + ['0'];
    assert Fixed(0, 5, 10) == Fixed(0, 4, 10) + ['0'];
  }

  /** The printed programme time reads back inside the validator's tolerance of the PCM duration. */
  lemma ProgrammeTime(duration: nat, rate: nat)
    requires rate > 0 && duration < U64_LIMIT
    ensures var t := ParseAdmTimeSeconds(FormatAdmTime(duration, rate));
      t.Some? && t.value >= 0.0 && CloseTo(t.value, rate, duration) && CloseTo(t.value - 0.0, rate, duration)
  {
    ParseOfFormatAdmTime(duration, rate);
    PrintedTimeIsClose(duration, rate);
    hide ParseAdmTimeSeconds, FormatAdmTime, TimeUnits, DurationTolerance;
  }

  // ---------------------------------------------------------------- programme, content, objects

  lemma ProgrammeAccepted(rate: nat, duration: nat, tracks: seq<TrackDescriptor>)
    requires rate > 0 && duration < U64_LIMIT
    ensures ProgrammeOk(Extended(rate, duration, tracks), ProgrammeElement(FormatAdmTime(duration, rate)), rate,
      duration)
  {
    hide *;
    var time := FormatAdmTime(duration, rate);
    ContentTarget(rate, duration, tracks);
    ProgrammeParts(time);
    ProgrammeRelations(Extended(rate, duration, tracks), ProgrammeElement(time), time, rate, duration);
  }

  lemma ProgrammeRelations(scope: Element, e: Element, time: string, rate: nat, duration: nat)
    requires rate > 0 && duration < U64_LIMIT && time == FormatAdmTime(duration, rate)
    requires e.Attr(Start) == Some(TIME_ZERO) && e.Attr(End) == Some(time)
    requires RefValues(e.children, ContentRef) == [CONTENT_ID] && CONTENT_ID in IdsOf(scope, Content)
    ensures ProgrammeOk(scope, e, rate, duration)
  {
    hide IdsOf, ParseAdmTimeSeconds, FormatAdmTime, CloseTo, RefValues, TIME_ZERO, CONTENT_ID;
    ZeroTime();
    ProgrammeTime(duration, rate);
  }

  lemma ProgrammeParts(end: string)
    ensures var e := ProgrammeElement(end);
      && e.Attr(Id) == Some(PROGRAMME_ID) && e.Attr(Start) == Some(TIME_ZERO) && e.Attr(End) == Some(end)
      && RefValues(e.children, ContentRef) == [CONTENT_ID]
  {
    SingletonWords();
    hide Trim, Word, CONTENT_ID, PROGRAMME_ID, TIME_ZERO;
    LeafRead(ContentRef, CONTENT_ID, [], ContentRef);
    assert ProgrammeElement(end).children == [Leaf(ContentRef, CONTENT_ID)] + [];
  }

  lemma SingletonWords()
    ensures Word(CONTENT_ID) && Word(PROGRAMME_ID)
  {
    SingletonIds();
    IdIsWord(CONTENT_ID, Content);
    IdIsWord(PROGRAMME_ID, Programme);
  }

  lemma ContentTarget(rate: nat, duration: nat, tracks: seq<TrackDescriptor>)
    requires rate > 0
    ensures CONTENT_ID in IdsOf(Extended(rate, duration, tracks), Content)
  {
    SectionNames(rate, duration, tracks);
    hide Extended, IdsOf, SectionOf, Refs;
    Target(rate, duration, tracks, Content, 0);
  }

  lemma ObjectTarget(rate: nat, duration: nat, tracks: seq<TrackDescriptor>, signals: nat, lfe: bool, i: nat)
    requires Planned(rate, duration, tracks, signals, lfe) && i < signals + (if lfe then 1 else 0)
    ensures Word(ObjectId(ObjectNumberAt(i, lfe)))
    ensures ObjectId(ObjectNumberAt(i, lfe)) in IdsOf(Extended(rate, duration, tracks), Object)
  {
    assert ObjectNumberAt(i, lfe) < U16_LIMIT;
    hide *;
    PlannedFacts(rate, duration, tracks, signals, lfe);
    ObjectIdFacts(ObjectNumberAt(i, lfe));
    IdIsWord(ObjectId(ObjectNumberAt(i, lfe)), Object);
    SectionNames(rate, duration, tracks);
    ObjectAt(tracks, FormatAdmTime(duration, rate), signals, lfe, i);
    Target(rate, duration, tracks, Object, i);
  }

  lemma ContentAccepted(rate: nat, duration: nat, tracks: seq<TrackDescriptor>, signals: nat, lfe: bool)
    requires Planned(rate, duration, tracks, signals, lfe)
    ensures ContentOk(Extended(rate, duration, tracks), ContentElement(lfe, signals))
  {
    var ids := ObjectIds(lfe, signals);
    ObjectIdList(lfe, signals);
    assert signals >= 1;
    hide *;
    forall i | 0 <= i < |ids|
      ensures Word(ids[i]) && ids[i] in IdsOf(Extended(rate, duration, tracks), Object)
    {
      ObjectTarget(rate, duration, tracks, signals, lfe, i);
    }
    ContentShape(Extended(rate, duration, tracks), lfe, signals, ids);
  }

  lemma ObjectIdList(lfe: bool, signals: nat)
    ensures |ObjectIds(lfe, signals)| == signals + (if lfe then 1 else 0)
    ensures forall i :: 0 <= i < |ObjectIds(lfe, signals)| ==>
      ObjectIds(lfe, signals)[i] == ObjectId(ObjectNumberAt(i, lfe))
  {
    hide ObjectId;
  }

  lemma ContentShape(scope: Element, lfe: bool, signals: nat, ids: seq<string>)
    requires ids == ObjectIds(lfe, signals) && ids != []
    requires forall i :: 0 <= i < |ids| ==> Word(ids[i]) && ids[i] in IdsOf(scope, Object)
    ensures ContentOk(scope, ContentElement(lfe, signals))
  {
    hide *;
    var dialogue := DialogueElement();
    var e := ContentElement(lfe, signals);
    RefsRead(ObjectRef, ids, [dialogue], ObjectRef);
    NamedAppend(Refs(ObjectRef, ids), [dialogue], Dialogue);
    RefsAreUniform(ObjectRef, ids);
    NamedUniform(Refs(ObjectRef, ids), ObjectRef, Dialogue);
    ContentChildren(lfe, signals, ids);
    DialogueReads();
    ContentRelations(scope, e, ids, dialogue);
  }

  function DialogueElement(): Element {
    Element(Dialogue, map[MixedContentKind := "0"], Some("2"), [])
  }

  lemma RefsAreUniform(tag: Tag, ids: seq<string>)
    ensures Uniform(Refs(tag, ids), tag)
  {
  }

  lemma ContentChildren(lfe: bool, signals: nat, ids: seq<string>)
    requires ids == ObjectIds(lfe, signals)
    ensures ContentElement(lfe, signals).children == Refs(ObjectRef, ids) + [DialogueElement()]
  {
    hide ObjectIds, Refs;
  }

  lemma DialogueReads()
    ensures RefValues([DialogueElement()], ObjectRef) == [] &&
      Named([DialogueElement()], Dialogue) == [DialogueElement()]
    ensures DialogueElement().Attr(MixedContentKind) == Some("0")
    ensures DialogueElement().text.Some? && Trim(DialogueElement().text.value) == "2"
  {
    assert [DialogueElement()][1..] == [];
  }

  lemma ContentRelations(scope: Element, e: Element, ids: seq<string>, dialogue: Element)
    requires RefValues(e.children, ObjectRef) == ids + [] && ids != []
    requires forall i :: 0 <= i < |ids| ==> ids[i] in IdsOf(scope, Object)
    requires Named(e.children, Dialogue) == [] + [dialogue] && dialogue.Attr(MixedContentKind) == Some("0")
    requires dialogue.text.Some? && Trim(dialogue.text.value) == "2"
    ensures ContentOk(scope, e)
  {
    hide IdsOf, RefValues, Named, Trim;
    assert ids + [] == ids;
  }

  /** An object element whose pack and UID references resolve inside its range is accepted. */
  lemma ObjectShape(scope: Element, number: nat, packId: string, uids: seq<string>, rate: nat, duration: nat,
      pack: Element)
    requires rate > 0 && duration < U64_LIMIT && number < U16_LIMIT
    requires Word(packId) && packId in IdsOf(scope, Pack)
    requires uids != [] && forall i :: 0 <= i < |uids| ==> Word(uids[i]) && uids[i] in IdsOf(scope, TrackUid)
    requires FindById(scope.children, AudioPackFormat, packId) == Some(pack)
    requires ObjectRangeOk(pack, number, |uids|)
    ensures ObjectOk(scope, ObjectElement(number, packId, uids, FormatAdmTime(duration, rate)), rate, duration)
  {
    hide *;
    var time := FormatAdmTime(duration, rate);
    var e := ObjectElement(number, packId, uids, time);
    ObjectAttributes(number, packId, uids, time);
    ObjectElementNumber(number, e);
    ObjectRefs(number, packId, uids, time);
    ObjectTimes(e, time, rate, duration);
    ObjectRelations(scope, e, number, packId, uids, pack, rate, duration);
  }

  lemma ObjectTimes(e: Element, time: string, rate: nat, duration: nat)
    requires rate > 0 && duration < U64_LIMIT && time == FormatAdmTime(duration, rate)
    requires e.Attr(Start) == Some(TIME_ZERO) && e.Attr(Duration) == Some(time)
    ensures TimeOf(e, Start) == Some(0.0)
    ensures TimeOf(e, Duration).Some? && CloseTo(TimeOf(e, Duration).value, rate, duration)
  {
    hide ParseAdmTimeSeconds, FormatAdmTime, CloseTo, TIME_ZERO;
    ZeroTime();
    ProgrammeTime(duration, rate);
  }

  lemma ObjectRelations(scope: Element, e: Element, number: nat, packId: string, uids: seq<string>, pack: Element,
      rate: nat, duration: nat)
    requires rate > 0
    requires RefValues(e.children, PackRef) == [packId] && packId in IdsOf(scope, Pack)
    requires RefValues(e.children, TrackUidRef) == uids && uids != []
    requires forall i :: 0 <= i < |uids| ==> uids[i] in IdsOf(scope, TrackUid)
    requires TimeOf(e, Start) == Some(0.0)
    requires TimeOf(e, Duration).Some? && CloseTo(TimeOf(e, Duration).value, rate, duration)
    requires ObjectNumber(e) == Some(number)
    requires FindById(scope.children, AudioPackFormat, packId) == Some(pack) && ObjectRangeOk(pack, number, |uids|)
    ensures ObjectOk(scope, e, rate, duration)
  {
    hide IdsOf, FindById, ObjectRangeOk, TimeOf, CloseTo, ObjectNumber, RefValues;
  }

  lemma ObjectAttributes(number: nat, packId: string, uids: seq<string>, time: string)
    ensures var e := ObjectElement(number, packId, uids, time);
      e.Attr(Id) == Some(ObjectId(number)) && e.Attr(Start) == Some(TIME_ZERO) && e.Attr(Duration) == Some(time)
  {
    hide ObjectId, Refs;
  }

  lemma ObjectRefs(number: nat, packId: string, uids: seq<string>, time: string)
    requires Word(packId) && forall i :: 0 <= i < |uids| ==> Word(uids[i])
    ensures var e := ObjectElement(number, packId, uids, time);
      RefValues(e.children, PackRef) == [packId] && RefValues(e.children, TrackUidRef) == uids
  {
    hide Word, ObjectId;
    LeafRead(PackRef, packId, Refs(TrackUidRef, uids), PackRef);
    LeafRead(PackRef, packId, Refs(TrackUidRef, uids), TrackUidRef);
    RefsRead(TrackUidRef, uids, [], PackRef);
    AllRefsRead(TrackUidRef, uids);
    assert Refs(TrackUidRef, uids) + [] == Refs(TrackUidRef, uids);
    assert RefValues([], PackRef) == [];
    hide Refs, RefValues;
  }

  /** A pack identifier finds the pack at its own position. */
  lemma PackFound(rate: nat, duration: nat, tracks: seq<TrackDescriptor>, signals: nat, lfe: bool, i: nat)
    requires Planned(rate, duration, tracks, signals, lfe) && i < signals + (if lfe then 1 else 0)
    ensures |SectionOf(Pack, rate, duration, tracks)| == signals + (if lfe then 1 else 0)
    ensures var e := SectionOf(Pack, rate, duration, tracks)[i];
      && i < |ObjectTracks(tracks)| + (if BedTracks(tracks) == [] then 0 else 1)
      && e == PackElementAt(BedTracks(tracks), ObjectTracks(tracks), i)
      && e.Attr(Id).Some?
      && FindById(Extended(rate, duration, tracks).children, AudioPackFormat, e.Attr(Id).value) == Some(e)
  {
    hide *;
    PlannedFacts(rate, duration, tracks, signals, lfe);
    SectionNames(rate, duration, tracks);
    TableTracks(tracks, signals, lfe);
    BedSizes(tracks, lfe);
    PackAt(tracks, signals, lfe, i);
    SectionsDistinct(rate, duration, tracks, signals, lfe, Pack);
    FindInSection(rate, duration, tracks, Pack, i);
    PackTag();
  }

  lemma PackTag()
    ensures TagOf(Pack) == AudioPackFormat && TagOf(Channel) == AudioChannelFormat
    ensures TagOf(Stream) == AudioStreamFormat && TagOf(TrackUid) == AudioTrackUid
  {
  }

  lemma BedObjectAccepted(rate: nat, duration: nat, tracks: seq<TrackDescriptor>, signals: nat)
    requires Planned(rate, duration, tracks, signals, true)
    ensures ObjectOk(Extended(rate, duration, tracks),
      ObjectElement(BED_OBJECT, FormatId(Pack, DirectSpeakers, COUNTER_BASE), Uids(BedTracks(tracks)),
        FormatAdmTime(duration, rate)), rate, duration)
  {
    hide *;
    PlannedFacts(rate, duration, tracks, signals, true);
    TableSize(tracks, signals, true);
    TableTracks(tracks, signals, true);
    BedSizes(tracks, true);
    var scope, beds := Extended(rate, duration, tracks), BedTracks(tracks);
    var uids := Uids(beds);
    PackFound(rate, duration, tracks, signals, true, 0);
    var pack := SectionOf(Pack, rate, duration, tracks)[0];
    BedPackElement(beds, ObjectTracks(tracks));
    PackTarget(rate, duration, tracks, signals, true, 0);
    FirstFormat();
    FormatIdFacts(Pack, DirectSpeakers, COUNTER_BASE);
    IdIsWord(FormatId(Pack, DirectSpeakers, COUNTER_BASE), Pack);
    Target(rate, duration, tracks, Pack, 0);
    forall k | 0 <= k < |uids|
      ensures Word(uids[k]) && uids[k] in IdsOf(scope, TrackUid)
    {
      UidAt(beds, k);
      TrackTargets(rate, duration, tracks, signals, true, k);
    }
    UidCount(beds);
    DurationFits(rate, duration, tracks, signals, true);
    BedObjectNumber();
    SixBedTracks(pack, BED_OBJECT);
    ObjectShape(scope, BED_OBJECT, FormatId(Pack, DirectSpeakers, COUNTER_BASE), uids, rate, duration, pack);
  }

  lemma BedObjectNumber()
    ensures BED_OBJECT < U16_LIMIT
  {
  }

  lemma UidAt(tracks: seq<TrackDescriptor>, i: nat)
    requires i < |Uids(tracks)|
    ensures i < |tracks| && Uids(tracks)[i] == tracks[i].uid
  {
  }

  lemma UidCount(tracks: seq<TrackDescriptor>)
    ensures |Uids(tracks)| == |tracks|
  {
  }

  lemma SixBedTracks(pack: Element, number: nat)
    requires pack.Attr(TypeDefinition) == Some(DirectSpeakers.Definition()) && number == BED_OBJECT
    ensures ObjectRangeOk(pack, number, 6)
  {
  }

  lemma DurationFits(rate: nat, duration: nat, tracks: seq<TrackDescriptor>, signals: nat, lfe: bool)
    requires Planned(rate, duration, tracks, signals, lfe)
    ensures rate > 0 && duration < U64_LIMIT && BED_OBJECT < U16_LIMIT
  {
  }

  lemma BedPackElement(beds: seq<TrackDescriptor>, objects: seq<TrackDescriptor>)
    requires beds != []
    ensures var e := PackElementAt(beds, objects, 0);
      && e.Attr(Id) == Some(FormatId(Pack, DirectSpeakers, COUNTER_BASE))
      && e.Attr(TypeDefinition) == Some(DirectSpeakers.Definition())
  {
    hide FormatId, ChannelIds;
  }

  lemma ObjectPackElement(beds: seq<TrackDescriptor>, objects: seq<TrackDescriptor>, i: nat)
    requires i < |objects| + (if beds == [] then 0 else 1) && (beds == [] || i > 0)
    ensures var e := PackElementAt(beds, objects, i);
      && e.Attr(Id) == Some(objects[i - (if beds == [] then 0 else 1)].packId)
      && e.Attr(TypeDefinition) == Some(Objects.Definition())
  {
  }

  lemma SignalObjectAccepted(rate: nat, duration: nat, tracks: seq<TrackDescriptor>, signals: nat, lfe: bool, k: nat)
    requires Planned(rate, duration, tracks, signals, lfe) && k < signals
    ensures k < |ObjectTracks(tracks)|
    ensures var t := ObjectTracks(tracks)[k];
      ObjectOk(Extended(rate, duration, tracks),
        ObjectElement(OBJECT_BASE + k, t.packId, [t.uid], FormatAdmTime(duration, rate)), rate, duration)
  {
    hide *;
    SignalBounds(rate, duration, tracks, signals, lfe, k);
    TableTracks(tracks, signals, lfe);
    BedSizes(tracks, lfe);
    var j, i := BedSize(lfe) + k, k + (if lfe then 1 else 0);
    var t := tracks[j];
    PackFound(rate, duration, tracks, signals, lfe, i);
    var pack := SectionOf(Pack, rate, duration, tracks)[i];
    ObjectPackElement(BedTracks(tracks), ObjectTracks(tracks), i);
    PackTarget(rate, duration, tracks, signals, lfe, j);
    TrackTargets(rate, duration, tracks, signals, lfe, j);
    SignalRange(pack, k);
    ObjectShape(Extended(rate, duration, tracks), OBJECT_BASE + k, t.packId, [t.uid], rate, duration, pack);
  }

  lemma SignalBounds(rate: nat, duration: nat, tracks: seq<TrackDescriptor>, signals: nat, lfe: bool, k: nat)
    requires Planned(rate, duration, tracks, signals, lfe) && k < signals
    ensures rate > 0 && duration < U64_LIMIT && IsTrackTable(tracks, signals, lfe)
    ensures |tracks| == BedSize(lfe) + signals && k < MAX_SIGNALS && OBJECT_BASE + k < U16_LIMIT
  {
  }

  lemma SignalRange(pack: Element, k: nat)
    requires pack.Attr(TypeDefinition) == Some(Objects.Definition()) && k < MAX_SIGNALS
    ensures ObjectRangeOk(pack, OBJECT_BASE + k, 1)
  {
  }

  lemma ObjectAccepted(rate: nat, duration: nat, tracks: seq<TrackDescriptor>, signals: nat, lfe: bool, i: nat)
    requires Planned(rate, duration, tracks, signals, lfe) && i < |SectionOf(Object, rate, duration, tracks)|
    ensures ObjectOk(Extended(rate, duration, tracks), SectionOf(Object, rate, duration, tracks)[i], rate, duration)
  {
    hide *;
    PlannedFacts(rate, duration, tracks, signals, lfe);
    var time := FormatAdmTime(duration, rate);
    SectionNames(rate, duration, tracks);
    TableTracks(tracks, signals, lfe);
    BedSizes(tracks, lfe);
    ObjectsIdentified(tracks, time, signals, lfe);
    ObjectAt(tracks, time, signals, lfe, i);
    ObjectElementIs(BedTracks(tracks), ObjectTracks(tracks), time, i);
    if lfe && i == 0 {
      BedObjectAccepted(rate, duration, tracks, signals);
    } else {
      SignalObjectAccepted(rate, duration, tracks, signals, lfe, i - (if lfe then 1 else 0));
    }
  }

  lemma ObjectElementIs(beds: seq<TrackDescriptor>, objects: seq<TrackDescriptor>, time: string, i: nat)
    requires i < |objects| + (if beds == [] then 0 else 1)
    ensures beds != [] && i == 0 ==>
      ObjectElementAt(beds, objects, time, i) ==
        ObjectElement(BED_OBJECT, FormatId(Pack, DirectSpeakers, COUNTER_BASE), Uids(beds), time)
    ensures !(beds != [] && i == 0) ==>
      var k := i - (if beds == [] then 0 else 1);
      ObjectElementAt(beds, objects, time, i) ==
        ObjectElement(OBJECT_BASE + k, objects[k].packId, [objects[k].uid], time)
  {
    hide ObjectElement, FormatId, Uids;
  }
}
