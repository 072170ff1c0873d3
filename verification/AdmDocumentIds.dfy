/** Identifiers of a generated document: well formed, distinct and contiguous. */
module AdmDocumentIds {
  import opened Wrappers
  import opened Bytes
  import opened Text
  import opened AdmIds
  import opened AdmTimes
  import opened AdmTracks
  import opened AdmDocument
  import opened AdmDocumentCheck
  import opened AdmDocumentSections

  /** Element `i` has a legal identifier numbered `first + i`. */
  ghost predicate Numbered(es: seq<Element>, kind: IdKind, counter: CounterKind, first: nat) {
    forall i :: 0 <= i < |es| ==>
      Identified(es[i], kind) && Counter(es[i].Attr(Id).value, counter) == Some(first + i)
  }

  lemma {:induction false} IdSetSize(es: seq<Element>)
    ensures |IdSet(es)| <= |es|
  {
    if es == [] {
      assert IdSet(es) == {};
    } else {
      var n := |es| - 1;
      IdSetSize(es[..n]);
      var last := if es[n].Attr(Id).Some? then {es[n].Attr(Id).value} else {};
      assert IdSet(es) == IdSet(es[..n]) + last;
    }
  }

  lemma IdInSet(es: seq<Element>, i: nat)
    requires i < |es| && es[i].Attr(Id).Some?
    ensures es[i].Attr(Id).value in IdSet(es)
  {
  }

  lemma NumberedIsContiguous(es: seq<Element>, kind: IdKind, counter: CounterKind, first: nat)
    requires Numbered(es, kind, counter, first)
    ensures DistinctIds(es, kind)
    ensures Contiguous(IdSet(es), first, counter)
  {
    hide IsAdmId, Counter;
    var ids := IdSet(es);
    IdSetSize(es);
    forall c | first <= c < first + |ids|
      ensures HasCounter(ids, c, counter)
    {
      IdInSet(es, c - first);
      assert Counter(es[c - first].Attr(Id).value, counter) == Some(c);
    }
    forall id | id in ids
      ensures Counter(id, counter).Some?
    {
      var i :| 0 <= i < |es| && es[i].Attr(Id).Some? && es[i].Attr(Id).value == id;
    }
  }

  // ---------------------------------------------------------------- per-track sections

  lemma ElementIds(t: TrackDescriptor, rate: nat, time: string)
    requires rate > 0
    ensures ChannelElement(t, rate, time).Attr(Id) == Some(t.channelId)
    ensures StreamElement(t).Attr(Id) == Some(t.streamId)
    ensures TrackFormatElement(t).Attr(Id) == Some(t.trackId)
    ensures UidElement(t, rate).Attr(Id) == Some(t.uid)
  {
    hide Blocks, Natural, PcmName;
  }

  lemma TrackSectionsNumbered(rate: nat, time: string, tracks: seq<TrackDescriptor>, signals: nat, lfe: bool)
    requires rate > 0 && IsTrackTable(tracks, signals, lfe)
    ensures Numbered(ChannelElements(tracks, rate, time), Channel, FormatCounter, COUNTER_BASE)
    ensures Numbered(StreamElements(tracks), Stream, FormatCounter, COUNTER_BASE)
    ensures Numbered(TrackFormatElements(tracks), TrackFormat, FormatCounter, COUNTER_BASE)
    ensures Numbered(UidElements(tracks, rate), TrackUid, UidCounter, 1)
  {
    forall i | 0 <= i < |tracks|
      ensures tracks[i].Neutral() == PlannedTrack(i, lfe)
    {
      assert InPlace(tracks, i, lfe);
    }
    hide IsTrackTable, PlannedTrack;
    forall i | 0 <= i < |tracks|
      ensures Identified(ChannelElement(tracks[i], rate, time), Channel)
      ensures Counter(tracks[i].channelId, FormatCounter) == Some(COUNTER_BASE + i)
      ensures Identified(StreamElement(tracks[i]), Stream)
      ensures Counter(tracks[i].streamId, FormatCounter) == Some(COUNTER_BASE + i)
      ensures Identified(TrackFormatElement(tracks[i]), TrackFormat)
      ensures Counter(tracks[i].trackId, FormatCounter) == Some(COUNTER_BASE + i)
      ensures Identified(UidElement(tracks[i], rate), TrackUid)
      ensures Counter(tracks[i].uid, UidCounter) == Some(1 + i)
      ensures ChannelElement(tracks[i], rate, time).Attr(Id) == Some(tracks[i].channelId)
      ensures StreamElement(tracks[i]).Attr(Id) == Some(tracks[i].streamId)
      ensures TrackFormatElement(tracks[i]).Attr(Id) == Some(tracks[i].trackId)
      ensures UidElement(tracks[i], rate).Attr(Id) == Some(tracks[i].uid)
    {
      hide IsAdmId, Counter, ChannelElement, StreamElement, TrackFormatElement, UidElement;
      TrackIds(tracks[i], i, lfe);
      ElementIds(tracks[i], rate, time);
    }
    hide Identified, Counter, ChannelElement, StreamElement, TrackFormatElement, UidElement, IsAdmId;
  }

  // ---------------------------------------------------------------- packs and objects

  lemma TableTracks(tracks: seq<TrackDescriptor>, signals: nat, lfe: bool)
    requires IsTrackTable(tracks, signals, lfe)
    ensures |BedTracks(tracks)| == BedSize(lfe) && |ObjectTracks(tracks)| == signals
    ensures forall i :: 0 <= i < BedSize(lfe) ==> BedTracks(tracks)[i] == tracks[i] == PlannedTrack(i, lfe)
    ensures forall i :: 0 <= i < signals ==>
      && ObjectTracks(tracks)[i] == tracks[BedSize(lfe) + i]
      && tracks[BedSize(lfe) + i].kind == Reconstruction(i)
  {
    TableSplit(tracks, signals, lfe);
    forall i | 0 <= i < BedSize(lfe)
      ensures tracks[i] == PlannedTrack(i, lfe)
    {
      assert InPlace(tracks, i, lfe) && tracks[i].Neutral().kind == KindAt(i, lfe);
    }
    forall i | 0 <= i < signals
      ensures tracks[BedSize(lfe) + i].kind == Reconstruction(i)
    {
      assert InPlace(tracks, BedSize(lfe) + i, lfe);
      assert tracks[BedSize(lfe) + i].Neutral().kind == KindAt(BedSize(lfe) + i, lfe);
    }
  }

  lemma BedSizes(tracks: seq<TrackDescriptor>, lfe: bool)
    requires |BedTracks(tracks)| == BedSize(lfe)
    ensures BedTracks(tracks) == [] <==> !lfe
    ensures BedSize(lfe) == if lfe then 6 else 0
  {
    hide BedTracks;
  }

  lemma PacksNumbered(tracks: seq<TrackDescriptor>, signals: nat, lfe: bool)
    requires IsTrackTable(tracks, signals, lfe)
    ensures Numbered(PackElements(tracks), Pack, FormatCounter, COUNTER_BASE)
    ensures |PackElements(tracks)| == signals + (if lfe then 1 else 0)
  {
    TableTracks(tracks, signals, lfe);
    hide IsAdmId, Counter, BedTracks, ObjectTracks, IsTrackTable, FormatId, ChannelIds, PackElement;
    var es := PackElements(tracks);
    forall i | 0 <= i < |es|
      ensures Identified(es[i], Pack) && Counter(es[i].Attr(Id).value, FormatCounter) == Some(COUNTER_BASE + i)
    {
      PackAt(tracks, signals, lfe, i);
    }
  }

  /** The pack element at position `i` and the number in its identifier. */
  lemma PackAt(tracks: seq<TrackDescriptor>, signals: nat, lfe: bool, i: nat)
    requires IsTrackTable(tracks, signals, lfe) && i < signals + (if lfe then 1 else 0)
    ensures |PackElements(tracks)| == signals + (if lfe then 1 else 0)
    ensures var e := PackElements(tracks)[i];
      && Identified(e, Pack) && Counter(e.Attr(Id).value, FormatCounter) == Some(COUNTER_BASE + i)
      && e == PackElementAt(BedTracks(tracks), ObjectTracks(tracks), i)
  {
    hide *;
    TableTracks(tracks, signals, lfe);
    BedSizes(tracks, lfe);
    var beds, objects := BedTracks(tracks), ObjectTracks(tracks);
    PackPlace(beds, objects, i);
    PackElementsAre(tracks);
    if lfe && i == 0 {
      FirstFormat();
      FormatIdFacts(Pack, DirectSpeakers, COUNTER_BASE);
      NumberedPack(beds, objects, i, FormatId(Pack, DirectSpeakers, COUNTER_BASE));
    } else {
      var k := i - (if lfe then 1 else 0);
      PlannedPack(objects[k], tracks, signals, lfe, k);
      NumberedPack(beds, objects, i, objects[k].packId);
    }
  }

  lemma PackElementsAre(tracks: seq<TrackDescriptor>)
    ensures PackElements(tracks) == PackSection(BedTracks(tracks), ObjectTracks(tracks))
  {
    hide BedTracks, ObjectTracks, PackSection;
  }

  lemma FirstFormat()
    ensures COUNTER_BASE < U16_LIMIT
  {
  }

  lemma NumberedPack(beds: seq<TrackDescriptor>, objects: seq<TrackDescriptor>, i: nat, packId: string)
    requires i < |objects| + (if beds == [] then 0 else 1) && IsAdmId(packId, Pack)
    requires packId == if beds != [] && i == 0 then FormatId(Pack, DirectSpeakers, COUNTER_BASE)
                       else objects[i - (if beds == [] then 0 else 1)].packId
    ensures Identified(PackElementAt(beds, objects, i), Pack)
    ensures PackElementAt(beds, objects, i).Attr(Id) == Some(packId)
  {
    hide IsAdmId, FormatId, ChannelIds;
  }

  lemma PlannedPack(t: TrackDescriptor, tracks: seq<TrackDescriptor>, signals: nat, lfe: bool, k: nat)
    requires IsTrackTable(tracks, signals, lfe) && k < signals && t == tracks[BedSize(lfe) + k]
    ensures IsAdmId(t.packId, Pack)
    ensures Counter(t.packId, FormatCounter) == Some(COUNTER_BASE + k + (if lfe then 1 else 0))
  {
    hide *;
    var j := BedSize(lfe) + k;
    TableSize(tracks, signals, lfe);
    TableTracks(tracks, signals, lfe);
    PlaceOf(tracks, signals, lfe, j);
    SignalPackNumber(t.kind, lfe, k);
    TrackIds(t, j, lfe);
  }

  lemma TableSize(tracks: seq<TrackDescriptor>, signals: nat, lfe: bool)
    requires IsTrackTable(tracks, signals, lfe)
    ensures 1 <= signals <= MAX_SIGNALS && |tracks| == signals + BedSize(lfe) < 0x1000
  {
    hide InPlace;
  }

  lemma PlaceOf(tracks: seq<TrackDescriptor>, signals: nat, lfe: bool, i: nat)
    requires IsTrackTable(tracks, signals, lfe) && i < |tracks|
    ensures tracks[i].Neutral() == PlannedTrack(i, lfe)
  {
    assert InPlace(tracks, i, lfe);
    hide PlannedTrack;
  }

  lemma SignalPackNumber(kind: TrackKind, lfe: bool, k: nat)
    requires kind == Reconstruction(k)
    ensures PackNumber(kind, lfe) == COUNTER_BASE + k + (if lfe then 1 else 0)
  {
  }

  function PackElementAt(beds: seq<TrackDescriptor>, objects: seq<TrackDescriptor>, i: nat): Element
    requires i < |objects| + (if beds == [] then 0 else 1)
  {
    if beds != [] && i == 0
      then PackElement(FormatId(Pack, DirectSpeakers, COUNTER_BASE), DirectSpeakers, ChannelIds(beds))
    else
      var t := objects[i - (if beds == [] then 0 else 1)];
      PackElement(t.packId, Objects, [t.channelId])
  }

  lemma PackPlace(beds: seq<TrackDescriptor>, objects: seq<TrackDescriptor>, i: nat)
    requires i < |objects| + (if beds == [] then 0 else 1)
    ensures |PackSection(beds, objects)| == |objects| + (if beds == [] then 0 else 1)
    ensures PackSection(beds, objects)[i] == PackElementAt(beds, objects, i)
  {
    hide FormatId, ChannelIds, PackElement;
  }

  lemma ObjectsIdentified(tracks: seq<TrackDescriptor>, time: string, signals: nat, lfe: bool)
    requires IsTrackTable(tracks, signals, lfe)
    ensures |ObjectElements(tracks, time)| == signals + (if lfe then 1 else 0)
    ensures forall i :: 0 <= i < |ObjectElements(tracks, time)| ==>
      && Identified(ObjectElements(tracks, time)[i], Object)
      && ObjectNumber(ObjectElements(tracks, time)[i]) == Some(ObjectNumberAt(i, lfe))
  {
    TableTracks(tracks, signals, lfe);
    hide IsTrackTable, BedTracks, ObjectTracks, FormatId, Uids, ObjectElement, Identified, ObjectNumber;
    var es := ObjectElements(tracks, time);
    forall i | 0 <= i < |es|
      ensures Identified(es[i], Object) && ObjectNumber(es[i]) == Some(ObjectNumberAt(i, lfe))
    {
      ObjectAt(tracks, time, signals, lfe, i);
      ObjectElementNumber(ObjectNumberAt(i, lfe), es[i]);
    }
  }

  lemma ObjectElementNumber(number: nat, e: Element)
    requires number < U16_LIMIT && e.Attr(Id) == Some(ObjectId(number))
    ensures Identified(e, Object) && ObjectNumber(e) == Some(number)
  {
    ObjectIdFacts(number);
    hide IsAdmId, ParseUnsigned, ObjectId;
  }

  /** The object element at position `i`: the generated bed first, then one object per signal. */
  lemma ObjectAt(tracks: seq<TrackDescriptor>, time: string, signals: nat, lfe: bool, i: nat)
    requires IsTrackTable(tracks, signals, lfe) && i < signals + (if lfe then 1 else 0)
    ensures |ObjectElements(tracks, time)| == signals + (if lfe then 1 else 0)
    ensures var e := ObjectElements(tracks, time)[i];
      && e.Attr(Id) == Some(ObjectId(ObjectNumberAt(i, lfe)))
      && e == ObjectElementAt(BedTracks(tracks), ObjectTracks(tracks), time, i)
  {
    TableTracks(tracks, signals, lfe);
    var beds, objects := BedTracks(tracks), ObjectTracks(tracks);
    ObjectPlace(beds, objects, time, i);
    assert ObjectElements(tracks, time) == ObjectSection(beds, objects, time);
    assert ObjectNumberAt(i, lfe) == if beds != [] && i == 0 then BED_OBJECT
      else OBJECT_BASE + i - (if beds == [] then 0 else 1);
    ObjectIdAt(beds, objects, time, i);
    hide *;
  }

  lemma ObjectIdAt(beds: seq<TrackDescriptor>, objects: seq<TrackDescriptor>, time: string, i: nat)
    requires i < |objects| + (if beds == [] then 0 else 1)
    ensures ObjectElementAt(beds, objects, time, i).Attr(Id) ==
      Some(ObjectId(if beds != [] && i == 0 then BED_OBJECT else OBJECT_BASE + i - (if beds == [] then 0 else 1)))
  {
    hide ObjectId, FormatId, Uids;
  }

  function ObjectElementAt(beds: seq<TrackDescriptor>, objects: seq<TrackDescriptor>, time: string, i: nat): Element
    requires i < |objects| + (if beds == [] then 0 else 1)
  {
    if beds != [] && i == 0
      then ObjectElement(BED_OBJECT, FormatId(Pack, DirectSpeakers, COUNTER_BASE), Uids(beds), time)
    else
      var k := i - (if beds == [] then 0 else 1);
      ObjectElement(OBJECT_BASE + k, objects[k].packId, [objects[k].uid], time)
  }

  lemma ObjectPlace(beds: seq<TrackDescriptor>, objects: seq<TrackDescriptor>, time: string, i: nat)
    requires i < |objects| + (if beds == [] then 0 else 1)
    ensures |ObjectSection(beds, objects, time)| == |objects| + (if beds == [] then 0 else 1)
    ensures ObjectSection(beds, objects, time)[i] == ObjectElementAt(beds, objects, time, i)
  {
    hide FormatId, Uids, ObjectElement;
  }

  /** The bed object takes the first bed number, the reconstruction objects follow from 0x100B. */
  function ObjectNumberAt(i: nat, lfe: bool): nat {
    if lfe && i == 0 then BED_OBJECT else OBJECT_BASE + i - (if lfe then 1 else 0)
  }

  /** The object numbers stay inside the profile's range exactly because of the 118-signal cap. */
  lemma ObjectRangeIsTheCap(signals: nat, lfe: bool)
    requires signals >= 1
    ensures signals <= MAX_SIGNALS <==>
      forall i :: (if lfe then 1 else 0) <= i < signals + (if lfe then 1 else 0) ==>
        OBJECT_BASE <= ObjectNumberAt(i, lfe) <= OBJECT_LAST
  {
    var last := signals - 1 + (if lfe then 1 else 0);
    assert ObjectNumberAt(last, lfe) == OBJECT_BASE + signals - 1;
  }

  lemma ObjectsDistinct(tracks: seq<TrackDescriptor>, time: string, signals: nat, lfe: bool)
    requires IsTrackTable(tracks, signals, lfe)
    ensures DistinctIds(ObjectElements(tracks, time), Object)
  {
    hide ObjectElements, IsAdmId, ParseUnsigned, IsTrackTable;
    ObjectsIdentified(tracks, time, signals, lfe);
    var es := ObjectElements(tracks, time);
    forall i, j | 0 <= i < j < |es|
      ensures es[i].Attr(Id) != es[j].Attr(Id)
    {
      assert ObjectNumber(es[i]) != ObjectNumber(es[j]);
    }
  }

  // ---------------------------------------------------------------- blocks

  /** A block of track `i`: the format counter and the block number are both readable from the ID. */
  lemma BlockIdOf(t: TrackDescriptor, i: nat, lfe: bool, number: nat)
    requires t.Neutral() == PlannedTrack(i, lfe) && i < 0x1000
    ensures BlockNumberedId(t.channelId, number) == BlockId(t.kind.Type(), COUNTER_BASE + i, number)
  {
    var body := FormatBody(t.kind.Type(), COUNTER_BASE + i);
    assert t.channelId == Prefix(Channel) + body;
    assert t.channelId[3..] == body;
  }

  lemma BlockKeys(t: TrackDescriptor, i: nat, lfe: bool, number: nat)
    requires t.Neutral() == PlannedTrack(i, lfe) && i < 0x1000
    ensures var id := BlockNumberedId(t.channelId, number);
      && (IsAdmId(id, Block) <==> number < U32_LIMIT)
      && Counter(id, FormatCounter) == Some(COUNTER_BASE + i)
      && |id| >= 20 && |t.channelId| >= 11 && id[3..11] == t.channelId[3..11]
      && Value(id[12..], 16) == number
  {
    var kind, n := t.kind.Type(), COUNTER_BASE + i;
    BlockIdOf(t, i, lfe, number);
    BlockIdSyntax(kind, n, number);
    BlockIdColumns(kind, n, number);
    FormatBodyFacts(kind, n);
    var id := BlockId(kind, n, number);
    Columns(id, FormatBody(kind, n));
    FixedCounter(n, 4);
    ValueOfPadded(number, 8, 16);
    TrackIds(t, i, lfe);
    hide IsAdmId, ParseUnsigned, BlockId, FormatBody, Padded, Value, PlannedTrack, BlockNumberedId;
    assert id[7..11] == Fixed(n, 4, 16);
  }

  lemma BlockAt(t: TrackDescriptor, rate: nat, time: string, k: nat)
    requires rate > 0 && k < |Blocks(t, rate, time)|
    ensures Blocks(t, rate, time)[k].Attr(Id) == Some(BlockNumberedId(t.channelId, k + 1))
  {
    hide FormatTime, SixDecimals, IntegerText, BlockNumberedId;
  }

  /** All blocks of the first tracks have legal distinct identifiers with format counters below `n`. */
  ghost predicate BlocksDistinct(es: seq<Element>, n: nat) {
    && DistinctIds(es, Block)
    && forall i :: 0 <= i < |es| ==>
         (var c := Counter(es[i].Attr(Id).value, FormatCounter); c.Some? && c.value < COUNTER_BASE + n)
  }

  lemma OwnBlocksDistinct(t: TrackDescriptor, i: nat, lfe: bool, rate: nat, time: string)
    requires rate > 0 && t.Neutral() == PlannedTrack(i, lfe) && i < 0x1000 && |t.blocks| < U32_LIMIT
    ensures DistinctIds(Blocks(t, rate, time), Block)
    ensures forall k :: 0 <= k < |Blocks(t, rate, time)| ==>
      Counter(Blocks(t, rate, time)[k].Attr(Id).value, FormatCounter) == Some(COUNTER_BASE + i)
  {
    hide *;
    var es := Blocks(t, rate, time);
    forall k | 0 <= k < |es|
      ensures NumberedBlock(es[k], COUNTER_BASE + i, k + 1)
    {
      FewBlocks(t, rate, time);
      BlockAt(t, rate, time, k);
      BlockKeys(t, i, lfe, k + 1);
      BlockIsNumbered(es[k], BlockNumberedId(t.channelId, k + 1), COUNTER_BASE + i, k + 1);
    }
    NumberedBlocksDistinct(es, COUNTER_BASE + i);
  }

  /** A block with a legal identifier that carries these two numbers. */
  ghost predicate NumberedBlock(e: Element, counter: nat, number: nat) {
    && Identified(e, Block) && Counter(e.Attr(Id).value, FormatCounter) == Some(counter)
    && |e.Attr(Id).value| >= 20 && Value(e.Attr(Id).value[12..], 16) == number
  }

  lemma BlockIsNumbered(e: Element, id: string, counter: nat, number: nat)
    requires e.Attr(Id) == Some(id) && IsAdmId(id, Block) && Counter(id, FormatCounter) == Some(counter)
    requires |id| >= 20 && Value(id[12..], 16) == number
    ensures NumberedBlock(e, counter, number)
  {
    hide IsAdmId, Counter, Value;
  }

  lemma FewBlocks(t: TrackDescriptor, rate: nat, time: string)
    requires rate > 0 && |t.blocks| < U32_LIMIT
    ensures |Blocks(t, rate, time)| < U32_LIMIT
  {
    hide BedBlock, ObjectBlock, FormatTime;
  }

  lemma NumberedBlocksDistinct(es: seq<Element>, counter: nat)
    requires forall k :: 0 <= k < |es| ==> NumberedBlock(es[k], counter, k + 1)
    ensures DistinctIds(es, Block)
    ensures forall k :: 0 <= k < |es| ==>
      es[k].Attr(Id).Some? && Counter(es[k].Attr(Id).value, FormatCounter) == Some(counter)
  {
    hide IsAdmId, Counter, Value;
  }

  lemma {:induction false} AllBlocksDistinct(tracks: seq<TrackDescriptor>, lfe: bool, rate: nat, time: string)
    requires rate > 0 && |tracks| < 0x1000
    requires forall i :: 0 <= i < |tracks| ==>
      tracks[i].Neutral() == PlannedTrack(i, lfe) && |tracks[i].blocks| < U32_LIMIT
    ensures BlocksDistinct(AllBlocks(tracks, rate, time), |tracks|)
  {
    hide Blocks, IsAdmId, Counter, PlannedTrack;
    if tracks != [] {
      var n := |tracks| - 1;
      AllBlocksDistinct(tracks[..n], lfe, rate, time);
      OwnBlocksDistinct(tracks[n], n, lfe, rate, time);
      var a, b := AllBlocks(tracks[..n], rate, time), Blocks(tracks[n], rate, time);
      JoinDistinct(a, b, n);
    }
  }

  lemma JoinDistinct(a: seq<Element>, b: seq<Element>, n: nat)
    requires BlocksDistinct(a, n) && DistinctIds(b, Block)
    requires forall k :: 0 <= k < |b| ==> Counter(b[k].Attr(Id).value, FormatCounter) == Some(COUNTER_BASE + n)
    ensures BlocksDistinct(a + b, n + 1)
  {
    hide IsAdmId, Counter;
    var es := a + b;
    forall i | 0 <= i < |es|
      ensures Identified(es[i], Block)
      ensures Counter(es[i].Attr(Id).value, FormatCounter).Some?
      ensures Counter(es[i].Attr(Id).value, FormatCounter).value < COUNTER_BASE + n + 1
      ensures i < |a| <==> Counter(es[i].Attr(Id).value, FormatCounter).value < COUNTER_BASE + n
    {
      assert if i < |a| then es[i] == a[i] else es[i] == b[i - |a|];
    }
    forall i, j | 0 <= i < j < |es|
      ensures es[i].Attr(Id) != es[j].Attr(Id)
    {
      if j < |a| {
        assert es[i] == a[i] && es[j] == a[j];
      } else if i >= |a| {
        assert es[i] == b[i - |a|] && es[j] == b[j - |a|];
      }
    }
  }

  lemma BlockCount(t: TrackDescriptor, rate: nat, time: string)
    requires rate > 0
    ensures |Blocks(t, rate, time)| == if t.kind.Reconstruction? && t.blocks != [] then |t.blocks| else 1
  {
  }

  lemma IllegalBlock(t: TrackDescriptor, i: nat, lfe: bool, rate: nat, time: string)
    requires rate > 0 && t.Neutral() == PlannedTrack(i, lfe) && i < 0x1000
    requires |t.blocks| >= U32_LIMIT && t.kind.Reconstruction?
    ensures !DistinctIds(Blocks(t, rate, time), Block)
  {
    hide Blocks, PlannedTrack, BlockNumberedId, IsAdmId, Counter, Value;
    BlockCount(t, rate, time);
    BlockAt(t, rate, time, |t.blocks| - 1);
    BlockKeys(t, i, lfe, |t.blocks|);
    NotAllIdentified(Blocks(t, rate, time), |t.blocks| - 1);
  }

  lemma NotAllIdentified(es: seq<Element>, k: nat)
    requires k < |es| && !Identified(es[k], Block)
    ensures !DistinctIds(es, Block)
  {
    hide Identified;
  }

  lemma DistinctParts(a: seq<Element>, b: seq<Element>, kind: IdKind)
    requires DistinctIds(a + b, kind)
    ensures DistinctIds(a, kind) && DistinctIds(b, kind)
  {
    hide Identified;
    var es := a + b;
    assert forall i :: 0 <= i < |a| ==> es[i] == a[i];
    assert forall i :: 0 <= i < |b| ==> es[|a| + i] == b[i];
  }

  /** A track with more blocks than eight hexadecimal digits can number has an illegal block. */
  lemma {:induction false} OverlongTrackIsIllegal(tracks: seq<TrackDescriptor>, lfe: bool, rate: nat, time: string,
      i: nat)
    requires rate > 0 && |tracks| < 0x1000 && i < |tracks|
    requires tracks[i].Neutral() == PlannedTrack(i, lfe)
    requires |tracks[i].blocks| >= U32_LIMIT && tracks[i].kind.Reconstruction?
    ensures !DistinctIds(AllBlocks(tracks, rate, time), Block)
  {
    hide Blocks, DistinctIds, PlannedTrack;
    var n := |tracks| - 1;
    var a, b := AllBlocks(tracks[..n], rate, time), Blocks(tracks[n], rate, time);
    if DistinctIds(a + b, Block) {
      DistinctParts(a, b, Block);
    }
    if i < n {
      OverlongTrackIsIllegal(tracks[..n], lfe, rate, time, i);
    } else {
      IllegalBlock(tracks[n], n, lfe, rate, time);
    }
  }

  // ---------------------------------------------------------------- all kinds together

  lemma SingletonIds()
    ensures IsAdmId(PROGRAMME_ID, Programme) && IsAdmId(CONTENT_ID, Content)
    ensures Counter(CONTENT_ID, ContentCounter) == Some(COUNTER_BASE)
  {
    var digits := Padded(COUNTER_BASE, 4, 16);
    HexField(COUNTER_BASE, 4);
    FixedCounter(COUNTER_BASE, 4);
    ThousandAndOne();
    hide Fixed, Padded, Value, ParseUnsigned;
    IdParts(digits, Programme);
    IdParts(digits, Content);
    assert CONTENT_ID[4..8] == digits;
  }

  lemma ThousandAndOne()
    ensures Fixed(COUNTER_BASE, 4, 16) == "1001"
  {
    assert Fixed(0x1001, 1, 16) == Fixed(0x100, 0, 16) + ['1'];
    assert Fixed(0x10, 2, 16) == Fixed(1, 1, 16) + ['0'];
  }
}
