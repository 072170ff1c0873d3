/** How the sections of a generated document are found again by the validator's searches. */
module AdmDocumentSections {
  import opened AdmIds
  import opened AdmTimes
  import opened AdmTracks
  import opened AdmDocument
  import opened AdmDocumentCheck

  ghost predicate Uniform(es: seq<Element>, tag: Tag) {
    forall i :: 0 <= i < |es| ==> es[i].tag == tag
  }

  lemma NamedStep(es: seq<Element>, tag: Tag)
    ensures es == [] ==> Named(es, tag) == []
    ensures es != [] ==> Named(es, tag) == (if es[0].tag == tag then [es[0]] else []) + Named(es[1..], tag)
  {
  }

  lemma {:induction false} NamedAppend(a: seq<Element>, b: seq<Element>, tag: Tag)
    ensures Named(a + b, tag) == Named(a, tag) + Named(b, tag)
  {
    hide Named;
    NamedStep(a, tag);
    if a == [] {
      assert a + b == b;
    } else {
      NamedStep(a + b, tag);
      assert (a + b)[1..] == a[1..] + b;
      NamedAppend(a[1..], b, tag);
    }
  }

  lemma {:induction false} NamedUniform(es: seq<Element>, own: Tag, tag: Tag)
    requires Uniform(es, own)
    ensures Named(es, tag) == if own == tag then es else []
  {
    hide Named;
    NamedStep(es, tag);
    if es != [] {
      assert es == [es[0]] + es[1..];
      NamedUniform(es[1..], own, tag);
    }
  }

  lemma {:induction false} FoundAppend(a: seq<Element>, b: seq<Element>, tag: Tag)
    ensures Found(a + b, tag) == Found(a, tag) + Found(b, tag)
  {
    if a == [] {
      assert a + b == b;
    } else {
      assert (a + b)[1..] == a[1..] + b;
      FoundAppend(a[1..], b, tag);
    }
  }

  /** Nothing below these elements has the tag. */
  ghost predicate NoneBelow(es: seq<Element>, tag: Tag) {
    forall i :: 0 <= i < |es| ==> Found(es[i].children, tag) == []
  }

  lemma {:induction false} FoundIsNamed(es: seq<Element>, tag: Tag)
    requires NoneBelow(es, tag)
    ensures Found(es, tag) == Named(es, tag)
  {
    if es != [] {
      assert forall i :: 0 <= i < |es[1..]| ==> es[1..][i] == es[i + 1];
      FoundIsNamed(es[1..], tag);
    }
  }

  /** Reference-like elements: childless and of no identified kind. */
  predicate IsMinor(e: Element) {
    && e.children == []
    && e.tag in {ContentRef, ObjectRef, PackRef, TrackUidRef, ChannelRef, StreamRef, TrackFormatRef,
                 Dialogue, SpeakerLabel, Cartesian, Position, JumpPosition}
  }

  ghost predicate AllMinor(es: seq<Element>) {
    forall i :: 0 <= i < |es| ==> IsMinor(es[i])
  }

  lemma MinorHidesNothing(es: seq<Element>, kind: IdKind)
    requires AllMinor(es)
    ensures Found(es, TagOf(kind)) == []
  {
    if es != [] {
      assert IsMinor(es[0]);
      assert forall i :: 0 <= i < |es[1..]| ==> es[1..][i] == es[i + 1];
      MinorHidesNothing(es[1..], kind);
    }
  }

  // ---------------------------------------------------------------- sections by kind

  const SECTION_KINDS: seq<IdKind> := [Programme, Content, Object, Pack, Channel, Stream, TrackFormat, TrackUid]

  ghost predicate SectionsUniform(sections: seq<seq<Element>>, kinds: seq<IdKind>) {
    && |sections| == |kinds|
    && forall k :: 0 <= k < |kinds| ==> Uniform(sections[k], TagOf(kinds[k]))
  }

  lemma {:induction false} NamedSection(sections: seq<seq<Element>>, kinds: seq<IdKind>, kind: IdKind)
    requires SectionsUniform(sections, kinds)
    requires forall i, j :: 0 <= i < j < |kinds| ==> kinds[i] != kinds[j]
    ensures forall k :: 0 <= k < |kinds| && kinds[k] == kind ==> Named(Concat(sections), TagOf(kind)) == sections[k]
    ensures kind !in kinds ==> Named(Concat(sections), TagOf(kind)) == []
  {
    hide Named, TagOf, Uniform;
    NamedStep([], TagOf(kind));
    if sections != [] {
      NamedAppend(sections[0], Concat(sections[1..]), TagOf(kind));
      assert forall k :: 0 <= k < |sections| - 1 ==>
        sections[1..][k] == sections[k + 1] && kinds[1..][k] == kinds[k + 1];
      NamedSection(sections[1..], kinds[1..], kind);
      assert Uniform(sections[0], TagOf(kinds[0]));
      NamedUniform(sections[0], TagOf(kinds[0]), TagOf(kind));
      TagsDiffer(kinds[0], kind);
    }
  }

  lemma TagsDiffer(a: IdKind, b: IdKind)
    ensures a != b ==> TagOf(a) != TagOf(b)
  {
  }

  /** The section holding the elements of one identified kind. */
  function SectionOf(kind: IdKind, rate: nat, duration: nat, tracks: seq<TrackDescriptor>): seq<Element>
    requires rate > 0
  {
    var s := Sections(rate, duration, tracks);
    match kind
    case Programme => s[0]
    case Content => s[1]
    case Object => s[2]
    case Pack => s[3]
    case Channel => s[4]
    case Stream => s[5]
    case TrackFormat => s[6]
    case TrackUid => s[7]
    case Block => []
  }

  lemma SectionIsUniform(rate: nat, duration: nat, tracks: seq<TrackDescriptor>, kind: IdKind)
    requires rate > 0
    ensures Uniform(SectionOf(kind, rate, duration, tracks), TagOf(kind))
  {
    hide FormatAdmTime, ObjectTracks, BedTracks, Uniform, ProgrammeElement, ContentElement, ObjectElements,
         PackElements;
    hide ChannelElements, StreamElements, TrackFormatElements, UidElements;
    var time := FormatAdmTime(duration, rate);
    match kind
    case Programme => SingletonsAreUniform(time, BedTracks(tracks) != [], |ObjectTracks(tracks)|);
    case Content => SingletonsAreUniform(time, BedTracks(tracks) != [], |ObjectTracks(tracks)|);
    case Object => ObjectsAreUniform(tracks, time);
    case Pack => PacksAreUniform(tracks);
    case Channel => TracksAreUniform(tracks, rate, time);
    case Stream => TracksAreUniform(tracks, rate, time);
    case TrackFormat => TracksAreUniform(tracks, rate, time);
    case TrackUid => TracksAreUniform(tracks, rate, time);
    case Block => NothingIsUniform(AudioBlockFormat);
  }

  lemma SingletonsAreUniform(time: string, bed: bool, objects: nat)
    ensures Uniform([ProgrammeElement(time)], AudioProgramme) && Uniform([ContentElement(bed, objects)], AudioContent)
  {
    hide Refs, ObjectIds;
  }

  lemma ObjectsAreUniform(tracks: seq<TrackDescriptor>, time: string)
    ensures Uniform(ObjectElements(tracks, time), AudioObject)
  {
    hide ObjectTracks, BedTracks, FormatId, Uids;
  }

  lemma PacksAreUniform(tracks: seq<TrackDescriptor>)
    ensures Uniform(PackElements(tracks), AudioPackFormat)
  {
    hide ObjectTracks, BedTracks, FormatId, ChannelIds;
  }

  lemma TracksAreUniform(tracks: seq<TrackDescriptor>, rate: nat, time: string)
    requires rate > 0
    ensures Uniform(ChannelElements(tracks, rate, time), AudioChannelFormat)
    ensures Uniform(StreamElements(tracks), AudioStreamFormat)
    ensures Uniform(TrackFormatElements(tracks), AudioTrackFormat)
    ensures Uniform(UidElements(tracks, rate), AudioTrackUid)
  {
    hide Blocks;
  }

  lemma NothingIsUniform(tag: Tag)
    ensures Uniform([], tag)
  {
  }

  lemma SectionAt(rate: nat, duration: nat, tracks: seq<TrackDescriptor>, k: nat)
    requires rate > 0 && k < 8
    ensures |SECTION_KINDS| == 8 &&
      Sections(rate, duration, tracks)[k] == SectionOf(SECTION_KINDS[k], rate, duration, tracks)
    ensures SECTION_KINDS[k] != Block && (SECTION_KINDS[k] == Channel <==> k == 4)
  {
    hide Sections;
  }

  lemma GeneratedSectionsUniform(rate: nat, duration: nat, tracks: seq<TrackDescriptor>)
    requires rate > 0
    ensures SectionsUniform(Sections(rate, duration, tracks), SECTION_KINDS)
  {
    hide Sections, SectionOf;
    forall k | 0 <= k < 8
      ensures Uniform(Sections(rate, duration, tracks)[k], TagOf(SECTION_KINDS[k]))
    {
      SectionAt(rate, duration, tracks, k);
      SectionIsUniform(rate, duration, tracks, SECTION_KINDS[k]);
    }
  }

  lemma ChildrenAreSections(rate: nat, duration: nat, tracks: seq<TrackDescriptor>, kind: IdKind)
    requires rate > 0
    ensures Children(Extended(rate, duration, tracks), kind) == SectionOf(kind, rate, duration, tracks)
  {
    hide Sections, Named;
    GeneratedSectionsUniform(rate, duration, tracks);
    NamedSection(Sections(rate, duration, tracks), SECTION_KINDS, kind);
    var k := KindIndex(kind);
    assert kind != Block ==> SECTION_KINDS[k] == kind;
  }

  function KindIndex(kind: IdKind): (k: nat)
    ensures k < 8
  {
    match kind
    case Programme => 0
    case Content => 1
    case Object => 2
    case Pack => 3
    case Channel => 4
    case Stream => 5
    case TrackFormat => 6
    case TrackUid => 7
    case Block => 0
  }

  // ---------------------------------------------------------------- searching at any depth

  /** Block `k` of a channel. */
  lemma BlockShape(t: TrackDescriptor, rate: nat, time: string, k: nat)
    requires rate > 0 && k < |Blocks(t, rate, time)|
    ensures t.kind.Bed? ==> k == 0 && Blocks(t, rate, time)[k] == BedBlock(t.channelId, t.kind.channel)
    ensures !t.kind.Bed? && t.blocks == [] ==>
      && k == 0
      && Blocks(t, rate, time)[k] == ObjectBlock(t.channelId, 1, TIME_ZERO, time, AdmPosition(0.0, 0.0, 0.0), Jump(0))
    ensures !t.kind.Bed? && t.blocks != [] ==>
      && k < |t.blocks|
      && Blocks(t, rate, time)[k] == ObjectBlock(t.channelId, k + 1, FormatTime(t.blocks[k].start, rate),
                                                 FormatTime(t.blocks[k].duration, rate), t.blocks[k].position, Jump(k))
  {
    hide BedBlock, ObjectBlock, FormatTime, Jump, TIME_ZERO;
  }

  lemma BlocksAreShallow(t: TrackDescriptor, rate: nat, time: string)
    requires rate > 0
    ensures Uniform(Blocks(t, rate, time), AudioBlockFormat)
    ensures forall k :: 0 <= k < |Blocks(t, rate, time)| ==> AllMinor(Blocks(t, rate, time)[k].children)
  {
    hide *;
    var es := Blocks(t, rate, time);
    forall k | 0 <= k < |es|
      ensures es[k].tag == AudioBlockFormat && AllMinor(es[k].children)
    {
      BlockShape(t, rate, time, k);
      if t.kind.Bed? {
        BedBlockIsShallow(t.channelId, t.kind.channel);
      } else if t.blocks == [] {
        ObjectBlockIsShallow(t.channelId, 1, TIME_ZERO, time, AdmPosition(0.0, 0.0, 0.0), Jump(0));
      } else {
        var b := t.blocks[k];
        ObjectBlockIsShallow(t.channelId, k + 1, FormatTime(b.start, rate), FormatTime(b.duration, rate), b.position,
          Jump(k));
      }
    }
    UniformMeans(es, AudioBlockFormat);
  }

  lemma UniformMeans(es: seq<Element>, tag: Tag)
    ensures Uniform(es, tag) <==> forall i :: 0 <= i < |es| ==> es[i].tag == tag
  {
  }

  lemma NoneBelowMeans(es: seq<Element>, tag: Tag)
    ensures NoneBelow(es, tag) <==> forall i :: 0 <= i < |es| ==> Found(es[i].children, tag) == []
  {
    hide Found;
  }

  lemma BedBlockIsShallow(channelId: string, channel: BedChannel)
    ensures BedBlock(channelId, channel).tag == AudioBlockFormat && AllMinor(BedBlock(channelId, channel).children)
  {
    hide IntegerText;
  }

  lemma ObjectBlockIsShallow(channelId: string, number: nat, rtime: string, duration: string, p: AdmPosition,
      jump: string)
    ensures var block := ObjectBlock(channelId, number, rtime, duration, p, jump);
      block.tag == AudioBlockFormat && AllMinor(block.children)
  {
    hide SixDecimals;
  }

  lemma FoundBelowChannel(t: TrackDescriptor, rate: nat, time: string, kind: IdKind)
    requires rate > 0
    ensures Found(ChannelElement(t, rate, time).children, TagOf(kind)) == if kind == Block then Blocks(t, rate, time)
      else []
  {
    hide *;
    var blocks := Blocks(t, rate, time);
    BlocksAreShallow(t, rate, time);
    forall k | 0 <= k < |blocks|
      ensures Found(blocks[k].children, TagOf(kind)) == []
    {
      MinorHidesNothing(blocks[k].children, kind);
    }
    NoneBelowMeans(blocks, TagOf(kind));
    FoundIsNamed(blocks, TagOf(kind));
    NamedUniform(blocks, AudioBlockFormat, TagOf(kind));
    BlockTag(kind);
    ChannelChildren(t, rate, time);
  }

  lemma BlockTag(kind: IdKind)
    ensures TagOf(kind) == AudioBlockFormat <==> kind == Block
  {
  }

  lemma ChannelChildren(t: TrackDescriptor, rate: nat, time: string)
    requires rate > 0
    ensures ChannelElement(t, rate, time).tag == AudioChannelFormat &&
      ChannelElement(t, rate, time).children == Blocks(t, rate, time)
  {
    hide Blocks;
  }

  ghost predicate SectionShallow(es: seq<Element>) {
    forall i :: 0 <= i < |es| ==> AllMinor(es[i].children)
  }

  lemma OtherSectionsAreShallow(rate: nat, duration: nat, tracks: seq<TrackDescriptor>, kind: IdKind)
    requires rate > 0 && kind != Channel
    ensures SectionShallow(SectionOf(kind, rate, duration, tracks))
  {
    var es := SectionOf(kind, rate, duration, tracks);
    hide FormatAdmTime, StreamElement, TrackFormatElement, UidElement, ObjectElements, PackElements;
    match kind
    case Object => ObjectsAreShallow(tracks, FormatAdmTime(duration, rate));
    case Pack => PacksAreShallow(tracks);
    case Programme =>
    case Content =>
    case Block =>
    case Stream | TrackFormat | TrackUid =>
      forall i | 0 <= i < |es|
        ensures AllMinor(es[i].children)
      {
        TrackElementsAreShallow(tracks[i], rate);
      }
  }

  lemma ObjectsAreShallow(tracks: seq<TrackDescriptor>, time: string)
    ensures SectionShallow(ObjectElements(tracks, time))
  {
    hide ObjectTracks, BedTracks, FormatId;
  }

  lemma PacksAreShallow(tracks: seq<TrackDescriptor>)
    ensures SectionShallow(PackElements(tracks))
  {
    hide ObjectTracks, BedTracks, FormatId;
  }

  lemma TrackElementsAreShallow(t: TrackDescriptor, rate: nat)
    ensures AllMinor(StreamElement(t).children)
    ensures AllMinor(TrackFormatElement(t).children)
    ensures AllMinor(UidElement(t, rate).children)
  {
  }

  lemma {:induction false} NoneBelowConcat(sections: seq<seq<Element>>, tag: Tag)
    requires forall k :: 0 <= k < |sections| ==> NoneBelow(sections[k], tag)
    ensures NoneBelow(Concat(sections), tag)
  {
    hide Found;
    if sections != [] {
      assert NoneBelow(sections[0], tag);
      assert forall k :: 0 <= k < |sections[1..]| ==> sections[1..][k] == sections[k + 1];
      NoneBelowConcat(sections[1..], tag);
    }
  }

  lemma SectionHidesNothing(rate: nat, duration: nat, tracks: seq<TrackDescriptor>, k: nat, kind: IdKind)
    requires rate > 0 && k < 8 && kind != Block
    ensures NoneBelow(Sections(rate, duration, tracks)[k], TagOf(kind))
  {
    hide *;
    var es, time := Sections(rate, duration, tracks)[k], FormatAdmTime(duration, rate);
    SectionAt(rate, duration, tracks, k);
    if k == 4 {
      ChannelSection(rate, duration, tracks);
    } else {
      OtherSectionsAreShallow(rate, duration, tracks, SECTION_KINDS[k]);
      ShallowMeans(es);
    }
    forall i | 0 <= i < |es|
      ensures Found(es[i].children, TagOf(kind)) == []
    {
      if k == 4 {
        ChannelAt(tracks, rate, time, i);
        FoundBelowChannel(tracks[i], rate, time, kind);
      } else {
        MinorHidesNothing(es[i].children, kind);
      }
    }
    NoneBelowMeans(es, TagOf(kind));
  }

  lemma ShallowMeans(es: seq<Element>)
    ensures SectionShallow(es) <==> forall i :: 0 <= i < |es| ==> AllMinor(es[i].children)
  {
    hide AllMinor;
  }

  lemma ChannelAt(tracks: seq<TrackDescriptor>, rate: nat, time: string, i: nat)
    requires rate > 0 && i < |ChannelElements(tracks, rate, time)|
    ensures i < |tracks| && ChannelElements(tracks, rate, time)[i] == ChannelElement(tracks[i], rate, time)
  {
    hide ChannelElement;
  }

  /** Every identified kind except blocks is found exactly in its own section. */
  lemma MembersAreSections(rate: nat, duration: nat, tracks: seq<TrackDescriptor>, kind: IdKind)
    requires rate > 0 && kind != Block
    ensures Members(Extended(rate, duration, tracks), kind) == SectionOf(kind, rate, duration, tracks)
  {
    hide Sections;
    var s := Sections(rate, duration, tracks);
    forall k | 0 <= k < |s|
      ensures NoneBelow(s[k], TagOf(kind))
    {
      SectionHidesNothing(rate, duration, tracks, k, kind);
    }
    NoneBelowConcat(s, TagOf(kind));
    FoundIsNamed(Concat(s), TagOf(kind));
    ChildrenAreSections(rate, duration, tracks, kind);
  }

  /** The blocks of all channels, in track order. */
  function AllBlocks(tracks: seq<TrackDescriptor>, rate: nat, time: string): seq<Element>
    requires rate > 0
  {
    if tracks == [] then []
    else AllBlocks(tracks[..|tracks| - 1], rate, time) + Blocks(tracks[|tracks| - 1], rate, time)
  }

  lemma FoundInChannel(t: TrackDescriptor, rate: nat, time: string)
    requires rate > 0
    ensures Found([ChannelElement(t, rate, time)], AudioBlockFormat) == Blocks(t, rate, time)
  {
    hide *;
    FoundBelowChannel(t, rate, time, Block);
    BlockTag(Block);
    ChannelChildren(t, rate, time);
    FoundSingle(ChannelElement(t, rate, time), AudioBlockFormat);
  }

  lemma FoundSingle(e: Element, tag: Tag)
    requires e.tag != tag
    ensures Found([e], tag) == Found(e.children, tag)
  {
    hide Found;
    FoundStep([e], tag);
    FoundNothing([e][1..], tag);
  }

  lemma FoundStep(es: seq<Element>, tag: Tag)
    requires es != []
    ensures Found(es, tag) ==
      (if es[0].tag == tag then [es[0]] else []) + Found(es[0].children, tag) + Found(es[1..], tag)
  {
  }

  lemma FoundNothing(es: seq<Element>, tag: Tag)
    requires es == []
    ensures Found(es, tag) == []
  {
  }

  lemma {:induction false} FoundInChannels(tracks: seq<TrackDescriptor>, rate: nat, time: string)
    requires rate > 0
    ensures Found(ChannelElements(tracks, rate, time), AudioBlockFormat) == AllBlocks(tracks, rate, time)
  {
    hide *;
    ChannelSteps(tracks, rate, time);
    if tracks == [] {
      FoundNothing(ChannelElements(tracks, rate, time), AudioBlockFormat);
    } else {
      var n := |tracks| - 1;
      FoundAppend(ChannelElements(tracks[..n], rate, time), [ChannelElement(tracks[n], rate, time)], AudioBlockFormat);
      FoundInChannels(tracks[..n], rate, time);
      FoundInChannel(tracks[n], rate, time);
    }
  }

  lemma ChannelSteps(tracks: seq<TrackDescriptor>, rate: nat, time: string)
    requires rate > 0
    ensures tracks == [] ==> ChannelElements(tracks, rate, time) == [] == AllBlocks(tracks, rate, time)
    ensures tracks != [] ==>
      var n := |tracks| - 1;
      && ChannelElements(tracks, rate, time) ==
        ChannelElements(tracks[..n], rate, time) + [ChannelElement(tracks[n], rate, time)]
      && AllBlocks(tracks, rate, time) == AllBlocks(tracks[..n], rate, time) + Blocks(tracks[n], rate, time)
  {
    hide ChannelElement, Blocks;
  }

  lemma ShallowHasNoBlocks(es: seq<Element>, own: IdKind)
    requires Uniform(es, TagOf(own)) && own != Block && SectionShallow(es)
    ensures Found(es, AudioBlockFormat) == []
  {
    hide *;
    BlockTag(Block);
    BlockTag(own);
    ShallowMeans(es);
    forall i | 0 <= i < |es|
      ensures Found(es[i].children, AudioBlockFormat) == []
    {
      MinorHidesNothing(es[i].children, Block);
    }
    NoneBelowMeans(es, AudioBlockFormat);
    FoundIsNamed(es, AudioBlockFormat);
    NamedUniform(es, TagOf(own), AudioBlockFormat);
  }

  lemma {:induction false} FoundConcat(sections: seq<seq<Element>>, k: nat, tag: Tag)
    requires k < |sections|
    requires forall j :: 0 <= j < |sections| && j != k ==> Found(sections[j], tag) == []
    ensures Found(Concat(sections), tag) == Found(sections[k], tag)
  {
    FoundAppend(sections[0], Concat(sections[1..]), tag);
    assert forall j :: 0 <= j < |sections[1..]| ==> sections[1..][j] == sections[j + 1];
    if k == 0 {
      FoundNowhere(sections[1..], tag);
    } else {
      FoundConcat(sections[1..], k - 1, tag);
    }
  }

  lemma {:induction false} FoundNowhere(sections: seq<seq<Element>>, tag: Tag)
    requires forall j :: 0 <= j < |sections| ==> Found(sections[j], tag) == []
    ensures Found(Concat(sections), tag) == []
  {
    if sections != [] {
      FoundAppend(sections[0], Concat(sections[1..]), tag);
      assert forall j :: 0 <= j < |sections[1..]| ==> sections[1..][j] == sections[j + 1];
      FoundNowhere(sections[1..], tag);
    }
  }

  /** The block members of a generated document are its channels' blocks. */
  lemma BlockMembers(rate: nat, duration: nat, tracks: seq<TrackDescriptor>)
    requires rate > 0
    ensures Members(Extended(rate, duration, tracks), Block) == AllBlocks(tracks, rate, FormatAdmTime(duration, rate))
  {
    hide Sections, SectionOf, Found, Concat, AllBlocks, ChannelElements;
    var s, time := Sections(rate, duration, tracks), FormatAdmTime(duration, rate);
    forall j | 0 <= j < |s| && j != 4
      ensures Found(s[j], AudioBlockFormat) == []
    {
      SectionAt(rate, duration, tracks, j);
      NoBlocksIn(rate, duration, tracks, SECTION_KINDS[j]);
    }
    FoundConcat(s, 4, AudioBlockFormat);
    ChannelSection(rate, duration, tracks);
    FoundInChannels(tracks, rate, time);
  }

  lemma ChannelSection(rate: nat, duration: nat, tracks: seq<TrackDescriptor>)
    requires rate > 0
    ensures Sections(rate, duration, tracks)[4] == ChannelElements(tracks, rate, FormatAdmTime(duration, rate))
  {
    hide ChannelElements;
  }

  lemma NoBlocksIn(rate: nat, duration: nat, tracks: seq<TrackDescriptor>, kind: IdKind)
    requires rate > 0 && kind != Channel && kind != Block
    ensures Found(SectionOf(kind, rate, duration, tracks), AudioBlockFormat) == []
  {
    hide SectionOf;
    SectionIsUniform(rate, duration, tracks, kind);
    OtherSectionsAreShallow(rate, duration, tracks, kind);
    ShallowHasNoBlocks(SectionOf(kind, rate, duration, tracks), kind);
  }

  // ---------------------------------------------------------------- bed and object tracks of a table

  lemma {:induction false} SplitByKind(tracks: seq<TrackDescriptor>, beds: nat)
    requires beds <= |tracks|
    requires forall i :: 0 <= i < |tracks| ==> (tracks[i].kind.Bed? <==> i < beds)
    ensures BedTracks(tracks) == tracks[..beds] && ObjectTracks(tracks) == tracks[beds..]
  {
    if tracks != [] {
      var rest := if beds == 0 then 0 else beds - 1;
      assert forall i :: 0 <= i < |tracks| - 1 ==> tracks[1..][i] == tracks[i + 1];
      SplitByKind(tracks[1..], rest);
      if beds > 0 {
        assert tracks[..beds] == [tracks[0]] + tracks[1..][..rest];
        assert tracks[beds..] == tracks[1..][rest..];
      } else {
        assert tracks[0..] == [tracks[0]] + tracks[1..][0..];
      }
    }
  }

  lemma TableSplit(tracks: seq<TrackDescriptor>, signals: nat, lfe: bool)
    requires IsTrackTable(tracks, signals, lfe)
    ensures BedTracks(tracks) == tracks[..BedSize(lfe)] && ObjectTracks(tracks) == tracks[BedSize(lfe)..]
  {
    forall i | 0 <= i < |tracks|
      ensures tracks[i].kind.Bed? <==> i < BedSize(lfe)
    {
      assert InPlace(tracks, i, lfe) && tracks[i].Neutral().kind == KindAt(i, lfe);
    }
    SplitByKind(tracks, BedSize(lfe));
  }
}
