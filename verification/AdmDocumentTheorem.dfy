/** The main result about documents: what the exporter builds, the validator accepts. */
module AdmDocumentTheorem {
  import opened Wrappers
  import opened Bytes
  import opened AdmIds
  import opened AdmTimes
  import opened AdmTracks
  import opened AdmDocument
  import opened AdmDocumentCheck
  import opened AdmDocumentSections
  import opened AdmDocumentIds
  import opened AdmDocumentAccepted
  import opened AdmDocumentFormats
  import opened Chna

  /** Every block of every track can be numbered in eight hexadecimal digits. */
  ghost predicate BlocksNumberable(tracks: seq<TrackDescriptor>) {
    forall i :: 0 <= i < |tracks| ==> |tracks[i].blocks| < U32_LIMIT
  }

  // ---------------------------------------------------------------- placement

  lemma {:induction false} NoExtendedInside(es: seq<Element>, parent: Option<Tag>, grandparent: Option<Tag>)
    requires forall i :: 0 <= i < |es| ==> es[i].tag != AudioFormatExtended
    requires forall i :: 0 <= i < |es| ==> NoExtendedBelow(es[i])
    ensures ExtendedNodes(es, parent, grandparent) == []
  {
    if es != [] {
      assert NoExtendedBelow(es[0]);
      assert forall i :: 0 <= i < |es| - 1 ==> es[1..][i] == es[i + 1];
      NoExtendedInside(es[1..], parent, grandparent);
    }
  }

  ghost predicate NoExtendedBelow(e: Element) {
    forall parent, grandparent :: ExtendedNodes(e.children, parent, grandparent) == []
  }

  lemma MinorHoldsNothing(es: seq<Element>)
    requires AllMinor(es)
    ensures forall parent, grandparent :: ExtendedNodes(es, parent, grandparent) == []
  {
    forall parent, grandparent
      ensures ExtendedNodes(es, parent, grandparent) == []
    {
      forall i | 0 <= i < |es|
        ensures es[i].tag != AudioFormatExtended && NoExtendedBelow(es[i])
      {
        assert IsMinor(es[i]);
      }
      NoExtendedInside(es, parent, grandparent);
    }
  }

  lemma SectionHoldsNothing(rate: nat, duration: nat, tracks: seq<TrackDescriptor>, kind: IdKind)
    requires rate > 0
    ensures forall i :: 0 <= i < |SectionOf(kind, rate, duration, tracks)| ==>
      SectionOf(kind, rate, duration, tracks)[i].tag != AudioFormatExtended &&
        NoExtendedBelow(SectionOf(kind, rate, duration, tracks)[i])
  {
    var es := SectionOf(kind, rate, duration, tracks);
    SectionIsUniform(rate, duration, tracks, kind);
    if kind == Channel {
      ChannelsHoldNothing(rate, duration, tracks);
    } else {
      OtherSectionsAreShallow(rate, duration, tracks, kind);
    }
    hide SectionOf, ExtendedNodes;
    if kind != Channel {
      forall i | 0 <= i < |es|
        ensures NoExtendedBelow(es[i])
      {
        MinorHoldsNothing(es[i].children);
      }
    }
  }

  lemma ChannelsHoldNothing(rate: nat, duration: nat, tracks: seq<TrackDescriptor>)
    requires rate > 0
    ensures forall i :: 0 <= i < |SectionOf(Channel, rate, duration, tracks)| ==>
      NoExtendedBelow(SectionOf(Channel, rate, duration, tracks)[i])
  {
    hide *;
    SectionNames(rate, duration, tracks);
    var time := FormatAdmTime(duration, rate);
    ChannelCount(tracks, rate, time);
    forall i | 0 <= i < |SectionOf(Channel, rate, duration, tracks)|
      ensures NoExtendedBelow(SectionOf(Channel, rate, duration, tracks)[i])
    {
      TrackSectionAt(rate, duration, tracks, i);
      ChannelHoldsNothing(tracks[i], rate, time);
    }
  }

  lemma ChannelCount(tracks: seq<TrackDescriptor>, rate: nat, time: string)
    requires rate > 0
    ensures |ChannelElements(tracks, rate, time)| == |tracks|
  {
    hide ChannelElement;
  }

  lemma ChannelHoldsNothing(t: TrackDescriptor, rate: nat, time: string)
    requires rate > 0
    ensures NoExtendedBelow(ChannelElement(t, rate, time))
  {
    hide ChannelElement, Blocks, ExtendedNodes;
    ChannelAttributes(t, rate, time);
    BlocksAreShallow(t, rate, time);
    var blocks := Blocks(t, rate, time);
    forall k | 0 <= k < |blocks|
      ensures NoExtendedBelow(blocks[k])
    {
      MinorHoldsNothing(blocks[k].children);
    }
    forall parent, grandparent
      ensures ExtendedNodes(blocks, parent, grandparent) == []
    {
      NoExtendedInside(blocks, parent, grandparent);
    }
  }

  lemma {:induction false} ConcatHoldsNothing(sections: seq<seq<Element>>)
    requires forall k, i :: 0 <= k < |sections| && 0 <= i < |sections[k]| ==>
      sections[k][i].tag != AudioFormatExtended && NoExtendedBelow(sections[k][i])
    ensures forall i :: 0 <= i < |Concat(sections)| ==>
      Concat(sections)[i].tag != AudioFormatExtended && NoExtendedBelow(Concat(sections)[i])
  {
    hide NoExtendedBelow;
    if sections != [] {
      assert forall k :: 0 <= k < |sections| - 1 ==> sections[1..][k] == sections[k + 1];
      ConcatHoldsNothing(sections[1..]);
    }
  }

  /** The generated document has exactly one, properly placed, `audioFormatExtended`. */
  lemma ScopeFound(rate: nat, duration: nat, tracks: seq<TrackDescriptor>)
    requires rate > 0
    ensures ExtendedOf(MakeDocument(rate, duration, tracks)) == Some(Extended(rate, duration, tracks))
  {
    hide Sections, SectionOf, NoExtendedBelow;
    var s: seq<seq<Element>> := Sections(rate, duration, tracks);
    var scope := Extended(rate, duration, tracks);
    forall k, i | 0 <= k < |s| && 0 <= i < |s[k]|
      ensures s[k][i].tag != AudioFormatExtended && NoExtendedBelow(s[k][i])
    {
      SectionAt(rate, duration, tracks, k);
      SectionHoldsNothing(rate, duration, tracks, SECTION_KINDS[k]);
    }
    hide Sections;
    ConcatHoldsNothing(s);
    assert scope.children == Concat(s);
    hide Concat, Extended;
    NoExtendedInside(scope.children, Some(AudioFormatExtended), Some(Format));
    Nested(scope);
  }

  lemma Nested(scope: Element)
    requires scope.tag == AudioFormatExtended
    requires ExtendedNodes(scope.children, Some(AudioFormatExtended), Some(Format)) == []
    ensures ExtendedNodes([Element(EbuCoreMain, map[], None,
      [Element(CoreMetadata, map[], None, [Element(Format, map[], None, [scope])])])], None, None)
      == [Placed(scope, Some(Format), Some(CoreMetadata))]
  {
    var format := Element(Format, map[], None, [scope]);
    var core := Element(CoreMetadata, map[], None, [format]);
    assert ExtendedNodes([], Some(Format), Some(CoreMetadata)) == [];
    assert ExtendedNodes([scope], Some(Format), Some(CoreMetadata)) ==
      [Placed(scope, Some(Format), Some(CoreMetadata))];
    assert ExtendedNodes([format], Some(CoreMetadata), Some(EbuCoreMain)) ==
      [Placed(scope, Some(Format), Some(CoreMetadata))];
    assert ExtendedNodes([core], Some(EbuCoreMain), None) == [Placed(scope, Some(Format), Some(CoreMetadata))];
  }

  // ---------------------------------------------------------------- the three groups of checks

  lemma SectionSizes(rate: nat, duration: nat, tracks: seq<TrackDescriptor>, signals: nat, lfe: bool)
    requires Planned(rate, duration, tracks, signals, lfe)
    ensures |SectionOf(Programme, rate, duration, tracks)| == 1 == |SectionOf(Content, rate, duration, tracks)|
    ensures |SectionOf(Object, rate, duration, tracks)| > 0 && |SectionOf(Pack, rate, duration, tracks)| > 0
    ensures |tracks| > 0
    ensures |SectionOf(Channel, rate, duration, tracks)| == |SectionOf(Stream, rate, duration, tracks)| == |tracks|
    ensures |SectionOf(TrackFormat, rate, duration, tracks)| == |SectionOf(TrackUid, rate, duration, tracks)| ==
      |tracks|
    ensures |AllBlocks(tracks, rate, FormatAdmTime(duration, rate))| > 0
  {
    SignalBounds(rate, duration, tracks, signals, lfe, 0);
    var time := FormatAdmTime(duration, rate);
    assert |tracks| > 0;
    BlockCount(tracks[|tracks| - 1], rate, time);
    hide SectionOf, Blocks, FormatAdmTime, PackElements, ObjectElements, IsTrackTable, Planned, Identified,
         ObjectNumber, Counter;
    SectionNames(rate, duration, tracks);
    TrackSectionAt(rate, duration, tracks, 0);
    PacksNumbered(tracks, signals, lfe);
    ObjectsIdentified(tracks, time, signals, lfe);
  }

  lemma AllContiguous(rate: nat, duration: nat, tracks: seq<TrackDescriptor>, signals: nat, lfe: bool)
    requires Planned(rate, duration, tracks, signals, lfe)
    ensures Contiguous(IdSet(SectionOf(Content, rate, duration, tracks)), COUNTER_BASE, ContentCounter)
    ensures Contiguous(IdSet(SectionOf(Pack, rate, duration, tracks)), COUNTER_BASE, FormatCounter)
    ensures Contiguous(IdSet(SectionOf(Channel, rate, duration, tracks)), COUNTER_BASE, FormatCounter)
    ensures Contiguous(IdSet(SectionOf(Stream, rate, duration, tracks)), COUNTER_BASE, FormatCounter)
    ensures Contiguous(IdSet(SectionOf(TrackFormat, rate, duration, tracks)), COUNTER_BASE, FormatCounter)
    ensures Contiguous(IdSet(SectionOf(TrackUid, rate, duration, tracks)), 1, UidCounter)
  {
    hide *;
    PlannedFacts(rate, duration, tracks, signals, lfe);
    var time := FormatAdmTime(duration, rate);
    SectionNames(rate, duration, tracks);
    SingletonSections(rate, duration, tracks);
    NumberedIsContiguous(SectionOf(Content, rate, duration, tracks), Content, ContentCounter, COUNTER_BASE);
    PacksNumbered(tracks, signals, lfe);
    NumberedIsContiguous(PackElements(tracks), Pack, FormatCounter, COUNTER_BASE);
    TrackSectionsNumbered(rate, time, tracks, signals, lfe);
    NumberedIsContiguous(ChannelElements(tracks, rate, time), Channel, FormatCounter, COUNTER_BASE);
    NumberedIsContiguous(StreamElements(tracks), Stream, FormatCounter, COUNTER_BASE);
    NumberedIsContiguous(TrackFormatElements(tracks), TrackFormat, FormatCounter, COUNTER_BASE);
    NumberedIsContiguous(UidElements(tracks, rate), TrackUid, UidCounter, 1);
  }

  lemma BlocksDecide(rate: nat, duration: nat, tracks: seq<TrackDescriptor>, signals: nat, lfe: bool)
    requires Planned(rate, duration, tracks, signals, lfe)
    ensures DistinctIds(AllBlocks(tracks, rate, FormatAdmTime(duration, rate)), Block) <==> BlocksNumberable(tracks)
  {
    SignalBounds(rate, duration, tracks, signals, lfe, 0);
    assert |tracks| < 0x1000;
    hide PlannedTrack, FormatAdmTime, AllBlocks, DistinctIds, Planned;
    var time := FormatAdmTime(duration, rate);
    forall i | 0 <= i < |tracks|
      ensures tracks[i].Neutral() == PlannedTrack(i, lfe)
      ensures tracks[i].blocks != [] ==> tracks[i].kind.Reconstruction?
    {
      TrackOfTable(rate, duration, tracks, signals, lfe, i);
      BlocksOnlyOnObjects(tracks, signals, lfe, i);
    }
    if BlocksNumberable(tracks) {
      AllBlocksDistinct(tracks, lfe, rate, time);
    } else {
      var i :| 0 <= i < |tracks| && |tracks[i].blocks| >= U32_LIMIT;
      OverlongTrackIsIllegal(tracks, lfe, rate, time, i);
    }
  }

  lemma BlocksOnlyOnObjects(tracks: seq<TrackDescriptor>, signals: nat, lfe: bool, i: nat)
    requires IsTrackTable(tracks, signals, lfe) && i < |tracks|
    ensures tracks[i].blocks != [] ==> tracks[i].kind.Reconstruction?
  {
    assert InPlace(tracks, i, lfe);
    hide FormatId, TrackFormatId, UidOf;
  }

  /** All identifier checks pass exactly when the blocks are numberable. */
  lemma IdentifiersDecide(rate: nat, duration: nat, tracks: seq<TrackDescriptor>, signals: nat, lfe: bool)
    requires Planned(rate, duration, tracks, signals, lfe)
    ensures IdentifiersOk(Extended(rate, duration, tracks), |tracks|) <==> BlocksNumberable(tracks)
  {
    hide *;
    PlannedFacts(rate, duration, tracks, signals, lfe);
    var scope := Extended(rate, duration, tracks);
    forall kind: IdKind | kind != Block
      ensures Members(scope, kind) == SectionOf(kind, rate, duration, tracks) && DistinctIds(Members(scope, kind), kind)
      ensures IdsOf(scope, kind) == IdSet(SectionOf(kind, rate, duration, tracks))
    {
      MembersAreSections(rate, duration, tracks, kind);
      SectionsDistinct(rate, duration, tracks, signals, lfe, kind);
      IdsAreMembers(scope, kind);
    }
    BlockMembers(rate, duration, tracks);
    BlocksDecide(rate, duration, tracks, signals, lfe);
    SectionSizes(rate, duration, tracks, signals, lfe);
    AllContiguous(rate, duration, tracks, signals, lfe);
    SingletonSections(rate, duration, tracks);
    BlocksAreLeft(scope, |tracks|);
  }

  lemma IdsAreMembers(scope: Element, kind: IdKind)
    ensures IdsOf(scope, kind) == IdSet(Members(scope, kind))
  {
    hide Members, IdSet;
  }

  /** When everything else is right, the identifiers of the blocks decide. */
  lemma BlocksAreLeft(scope: Element, uids: nat)
    requires forall kind: IdKind :: kind != Block ==> DistinctIds(Members(scope, kind), kind)
    requires |Members(scope, Programme)| == 1 && |Members(scope, Content)| > 0 && |Members(scope, Object)| > 0
    requires |Members(scope, Pack)| > 0 && |Members(scope, Block)| > 0
    requires |Members(scope, Channel)| == |Members(scope, Stream)| == uids
    requires |Members(scope, TrackFormat)| == |Members(scope, TrackUid)| == uids
    requires IdsOf(scope, Programme) == {PROGRAMME_ID}
    requires Contiguous(IdsOf(scope, Content), COUNTER_BASE, ContentCounter)
    requires Contiguous(IdsOf(scope, Pack), COUNTER_BASE, FormatCounter)
    requires Contiguous(IdsOf(scope, Channel), COUNTER_BASE, FormatCounter)
    requires Contiguous(IdsOf(scope, Stream), COUNTER_BASE, FormatCounter)
    requires Contiguous(IdsOf(scope, TrackFormat), COUNTER_BASE, FormatCounter)
    requires Contiguous(IdsOf(scope, TrackUid), 1, UidCounter)
    ensures IdentifiersOk(scope, uids) <==> DistinctIds(Members(scope, Block), Block)
  {
    hide Members, IdsOf, DistinctIds, Contiguous, PROGRAMME_ID, COUNTER_BASE;
  }

  lemma SmallClauses(rate: nat, duration: nat, tracks: seq<TrackDescriptor>, signals: nat, lfe: bool)
    requires Planned(rate, duration, tracks, signals, lfe)
    ensures rate > 0
    ensures var scope := Extended(rate, duration, tracks);
      && (forall i :: 0 <= i < |Children(scope, Programme)| ==>
        ProgrammeOk(scope, Children(scope, Programme)[i], rate, duration))
      && (forall i :: 0 <= i < |Children(scope, Content)| ==> ContentOk(scope, Children(scope, Content)[i]))
      && (forall i :: 0 <= i < |Children(scope, Object)| ==>
        ObjectOk(scope, Children(scope, Object)[i], rate, duration))
      && (forall i :: 0 <= i < |Children(scope, Pack)| ==> PackOk(scope, Children(scope, Pack)[i]))
  {
    hide *;
    PlannedFacts(rate, duration, tracks, signals, lfe);
    var scope := Extended(rate, duration, tracks);
    SectionNames(rate, duration, tracks);
    ChildrenAreSections(rate, duration, tracks, Programme);
    ChildrenAreSections(rate, duration, tracks, Content);
    ChildrenAreSections(rate, duration, tracks, Object);
    ChildrenAreSections(rate, duration, tracks, Pack);
    ProgrammeAccepted(rate, duration, tracks);
    TableTracks(tracks, signals, lfe);
    BedSizes(tracks, lfe);
    ContentAccepted(rate, duration, tracks, signals, lfe);
    forall i | 0 <= i < |SectionOf(Object, rate, duration, tracks)|
      ensures ObjectOk(scope, SectionOf(Object, rate, duration, tracks)[i], rate, duration)
    {
      ObjectAccepted(rate, duration, tracks, signals, lfe, i);
    }
    forall i | 0 <= i < |SectionOf(Pack, rate, duration, tracks)|
      ensures PackOk(scope, SectionOf(Pack, rate, duration, tracks)[i])
    {
      PackAccepted(rate, duration, tracks, signals, lfe, i);
    }
  }

  lemma TrackClauses(rate: nat, duration: nat, tracks: seq<TrackDescriptor>, signals: nat, lfe: bool)
    requires Planned(rate, duration, tracks, signals, lfe)
    ensures rate > 0
    ensures var scope := Extended(rate, duration, tracks);
      && (forall i :: 0 <= i < |Children(scope, Channel)| ==> ChannelOk(Children(scope, Channel)[i]))
      && (forall i :: 0 <= i < |Children(scope, Stream)| ==> StreamOk(scope, Children(scope, Stream)[i]))
      && (forall i :: 0 <= i < |Children(scope, TrackFormat)| ==> TrackFormatOk(scope, Children(scope, TrackFormat)[i]))
      && (forall i :: 0 <= i < |Children(scope, TrackUid)| ==> UidOk(scope, Children(scope, TrackUid)[i], rate))
  {
    hide *;
    PlannedFacts(rate, duration, tracks, signals, lfe);
    var scope := Extended(rate, duration, tracks);
    SectionSizes(rate, duration, tracks, signals, lfe);
    ChildrenAreSections(rate, duration, tracks, Channel);
    ChildrenAreSections(rate, duration, tracks, Stream);
    ChildrenAreSections(rate, duration, tracks, TrackFormat);
    ChildrenAreSections(rate, duration, tracks, TrackUid);
    forall i | 0 <= i < |tracks|
      ensures ChannelOk(SectionOf(Channel, rate, duration, tracks)[i])
      ensures StreamOk(scope, SectionOf(Stream, rate, duration, tracks)[i])
      ensures TrackFormatOk(scope, SectionOf(TrackFormat, rate, duration, tracks)[i])
      ensures UidOk(scope, SectionOf(TrackUid, rate, duration, tracks)[i], rate)
    {
      TrackSectionAt(rate, duration, tracks, i);
      TrackOfTable(rate, duration, tracks, signals, lfe, i);
      RateIsPlanned(rate, duration, tracks, signals, lfe);
      ChannelAccepted(tracks[i], i, lfe, rate, duration);
      StreamAccepted(rate, duration, tracks, signals, lfe, i);
      TrackFormatAccepted(rate, duration, tracks, signals, lfe, i);
      UidAccepted(rate, duration, tracks, signals, lfe, i);
    }
  }

  lemma RelationsHold(rate: nat, duration: nat, tracks: seq<TrackDescriptor>, signals: nat, lfe: bool)
    requires Planned(rate, duration, tracks, signals, lfe)
    ensures rate > 0 && RelationsOk(Extended(rate, duration, tracks), rate, duration)
  {
    hide Extended, Children, Planned, ProgrammeOk, ContentOk, ObjectOk, PackOk, ChannelOk, StreamOk, TrackFormatOk,
         UidOk;
    SmallClauses(rate, duration, tracks, signals, lfe);
    TrackClauses(rate, duration, tracks, signals, lfe);
  }

  lemma RateIsPlanned(rate: nat, duration: nat, tracks: seq<TrackDescriptor>, signals: nat, lfe: bool)
    requires Planned(rate, duration, tracks, signals, lfe)
    ensures rate == 48_000 || rate == 96_000
  {
  }

  lemma LinksHold(rate: nat, duration: nat, tracks: seq<TrackDescriptor>, signals: nat, lfe: bool)
    requires Planned(rate, duration, tracks, signals, lfe)
    ensures rate > 0 && LinksOk(Extended(rate, duration, tracks), RecordsFor(tracks))
  {
    hide Extended, SectionOf, Children, Planned, RecordLinked;
    PlannedFacts(rate, duration, tracks, signals, lfe);
    ChildrenAreSections(rate, duration, tracks, TrackUid);
    SectionSizes(rate, duration, tracks, signals, lfe);
    forall i | 0 <= i < |tracks|
      ensures RecordLinked(Extended(rate, duration, tracks), RecordsFor(tracks)[i])
    {
      RecordAccepted(rate, duration, tracks, signals, lfe, i);
    }
  }

  /** A plan's document, in any binding state, passes every check of the validator against the plan's
      own `chna` records if and only if no track has more blocks than eight hexadecimal digits number. */
  lemma DocumentAcceptance(rate: nat, duration: nat, tracks: seq<TrackDescriptor>, signals: nat, lfe: bool)
    requires Planned(rate, duration, tracks, signals, lfe)
    ensures rate > 0
    ensures DocumentAccepted(MakeDocument(rate, duration, tracks), rate, duration, RecordsFor(tracks)) <==>
      BlocksNumberable(tracks)
  {
    hide Planned, MakeDocument, Extended, IdentifiersOk, RelationsOk, LinksOk, BlocksNumberable, RecordFor;
    PlannedFacts(rate, duration, tracks, signals, lfe);
    ScopeFound(rate, duration, tracks);
    IdentifiersDecide(rate, duration, tracks, signals, lfe);
    RelationsHold(rate, duration, tracks, signals, lfe);
    LinksHold(rate, duration, tracks, signals, lfe);
  }
}
