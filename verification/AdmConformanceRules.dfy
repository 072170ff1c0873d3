/** Each check of the validator holds exactly of the elements its description in `AdmConformance` describes. */
module AdmConformanceRules {
  import opened Wrappers
  import opened Bytes
  import opened Text
  import opened AdmIds
  import opened AdmTimes
  import opened AdmDocument
  import opened AdmDocumentCheck
  import opened AdmDocumentSections
  import opened AdmDocumentFormats
  import opened AdmSearches
  import opened AdmConformance
  import opened Chna

  // ---------------------------------------------------------------- identifiers

  lemma HasIdMeans(e: Element, kind: IdKind)
    ensures Identified(e, kind) <==> HasId(e, kind)
  {
    hide IsAdmId;
  }

  lemma DistinctMeans(es: seq<Element>, kind: IdKind)
    ensures DistinctIds(es, kind) <==> FamilyIdentified(es, kind)
  {
    hide Identified, HasId;
    forall e | e in es
      ensures Identified(e, kind) <==> HasId(e, kind)
    {
      HasIdMeans(e, kind);
    }
  }

  lemma {:induction false} DistinctSize(es: seq<Element>, kind: IdKind)
    requires DistinctIds(es, kind)
    ensures |IdSet(es)| == |es|
  {
    hide IsAdmId;
    if es == [] {
      assert IdSet(es) == {};
    } else {
      var n := |es| - 1;
      assert forall i :: 0 <= i < n ==> es[..n][i] == es[i];
      DistinctSize(es[..n], kind);
      assert Identified(es[n], kind);
      assert IdSet(es) == IdSet(es[..n]) + {es[n].Attr(Id).value};
    }
  }

  lemma IdSetMeans(es: seq<Element>, id: string)
    ensures id in IdSet(es) <==> exists e :: e in es && e.Attr(Id) == Some(id)
  {
    if id in IdSet(es) {
      var i :| 0 <= i < |es| && es[i].Attr(Id) == Some(id);
      assert es[i] in es;
    }
    if e :| e in es && e.Attr(Id) == Some(id) {
      var i :| 0 <= i < |es| && es[i] == e;
      assert es[i].Attr(Id).Some?;
    }
  }

  lemma HasCounterMeans(es: seq<Element>, c: nat, kind: CounterKind)
    ensures HasCounter(IdSet(es), c, kind) <==> SomeCounted(es, c, kind)
  {
    hide IdSet, Counter;
    if HasCounter(IdSet(es), c, kind) {
      var id :| id in IdSet(es) && Counter(id, kind) == Some(c);
      IdSetMeans(es, id);
      var e :| e in es && e.Attr(Id) == Some(id);
      assert Counted(e, c, kind);
    }
    if e :| e in es && Counted(e, c, kind) {
      var id :| e.Attr(Id) == Some(id) && Counter(id, kind) == Some(c);
      IdSetMeans(es, id);
    }
  }

  lemma AllCountedMeans(es: seq<Element>, kind: IdKind, counter: CounterKind)
    requires DistinctIds(es, kind)
    ensures (forall id :: id in IdSet(es) ==> Counter(id, counter).Some?) <==>
      forall e :: e in es ==> exists c: nat :: Counted(e, c, counter)
  {
    hide IdSet, Counter, IsAdmId;
    if forall id :: id in IdSet(es) ==> Counter(id, counter).Some? {
      forall e | e in es
        ensures exists c: nat :: Counted(e, c, counter)
      {
        assert Identified(e, kind);
        var id := e.Attr(Id).value;
        IdSetMeans(es, id);
        assert Counted(e, Counter(id, counter).value, counter);
      }
    }
    if forall e :: e in es ==> exists c: nat :: Counted(e, c, counter) {
      forall id | id in IdSet(es)
        ensures Counter(id, counter).Some?
      {
        IdSetMeans(es, id);
        var e :| e in es && e.Attr(Id) == Some(id);
        var c: nat :| Counted(e, c, counter);
      }
    }
  }

  lemma NumbersMean(scope: Element, kind: IdKind, first: nat, counter: CounterKind)
    requires DistinctIds(Members(scope, kind), kind)
    ensures Contiguous(IdsOf(scope, kind), first, counter) <==> NumberedFrom(scope, TagOf(kind), first, counter)
  {
    hide IdSet, Counter, HasCounter, SomeCounted, Counted, DistinctIds, Found, TagOf;
    var es := Members(scope, kind);
    DistinctSize(es, kind);
    AllCountedMeans(es, kind, counter);
    forall c: nat
      ensures HasCounter(IdSet(es), c, counter) <==> SomeCounted(es, c, counter)
    {
      HasCounterMeans(es, c, counter);
    }
  }

  /** The identifier checks. */
  lemma IdentifiersMean(scope: Element, uids: nat)
    ensures IdentifiersOk(scope, uids) <==> IdentifiersConform(scope, uids)
  {
    hide IdsOf, Members, Contiguous, DistinctIds, AllIdentified, SizesConform, AllNumbered;
    AllIdentifiedMeans(scope);
    SizesMean(scope, uids);
    if AllIdentified(scope) {
      AllNumberedMeans(scope);
    }
  }

  lemma AllIdentifiedMeans(scope: Element)
    ensures (forall kind: IdKind :: DistinctIds(Members(scope, kind), kind)) <==> AllIdentified(scope)
  {
    hide DistinctIds, Found, FamilyIdentified, TagOf;
    forall kind: IdKind
      ensures DistinctIds(Members(scope, kind), kind) <==>
        FamilyIdentified(Found(scope.children, TagOf(kind)), kind)
    {
      DistinctMeans(Found(scope.children, TagOf(kind)), kind);
    }
  }

  lemma SizesMean(scope: Element, uids: nat)
    ensures SizesConform(scope, uids) <==>
      && |Members(scope, Programme)| == 1
      && |Members(scope, Content)| > 0 && |Members(scope, Object)| > 0
      && |Members(scope, Pack)| > 0 && |Members(scope, Block)| > 0
      && |Members(scope, Channel)| == uids && |Members(scope, Stream)| == uids
      && |Members(scope, TrackFormat)| == uids && |Members(scope, TrackUid)| == uids
      && PROGRAMME_ID in IdsOf(scope, Programme)
  {
    hide Found, IdsOf;
    ProgrammeIdMeans(scope);
  }

  lemma ProgrammeIdMeans(scope: Element)
    ensures var es := Found(scope.children, AudioProgramme);
      |es| == 1 ==> (PROGRAMME_ID in IdsOf(scope, Programme) <==> es[0].Attr(Id) == Some("APR_1001"))
  {
    hide Found, IdSet;
    var es := Members(scope, Programme);
    IdSetMeans(es, PROGRAMME_ID);
  }

  lemma AllNumberedMeans(scope: Element)
    requires forall kind: IdKind :: DistinctIds(Members(scope, kind), kind)
    ensures AllNumbered(scope) <==>
      && Contiguous(IdsOf(scope, Content), COUNTER_BASE, ContentCounter)
      && Contiguous(IdsOf(scope, Pack), COUNTER_BASE, FormatCounter)
      && Contiguous(IdsOf(scope, Channel), COUNTER_BASE, FormatCounter)
      && Contiguous(IdsOf(scope, Stream), COUNTER_BASE, FormatCounter)
      && Contiguous(IdsOf(scope, TrackFormat), COUNTER_BASE, FormatCounter)
      && Contiguous(IdsOf(scope, TrackUid), 1, UidCounter)
  {
    hide Members, DistinctIds, Contiguous, NumberedFrom, IdsOf;
    NumbersMean(scope, Content, COUNTER_BASE, ContentCounter);
    NumbersMean(scope, Pack, COUNTER_BASE, FormatCounter);
    NumbersMean(scope, Channel, COUNTER_BASE, FormatCounter);
    NumbersMean(scope, Stream, COUNTER_BASE, FormatCounter);
    NumbersMean(scope, TrackFormat, COUNTER_BASE, FormatCounter);
    NumbersMean(scope, TrackUid, 1, UidCounter);
  }

  // ---------------------------------------------------------------- references and times

  lemma RefsMean(scope: Element, e: Element, tag: Tag, kind: IdKind)
    ensures RefsOk(e, tag, IdsOf(scope, kind)) <==> RefsResolve(scope, e, tag, kind)
  {
    hide RefValues, Refers, IdsOf, Present;
    var refs := RefValues(e.children, tag);
    NoRefMeans(e, tag);
    forall text
      ensures text in refs <==> Refers(e, tag, text)
      ensures text in IdsOf(scope, kind) <==> Present(scope, kind, text)
    {
      RefMeans(e, tag, text);
      PresentMeans(scope, kind, text);
    }
  }

  lemma OneMeans(scope: Element, e: Element, tag: Tag, kind: IdKind, text: string)
    ensures OneResolves(scope, e, tag, kind, text) <==>
      RefValues(e.children, tag) == [text] && RefsOk(e, tag, IdsOf(scope, kind))
  {
    hide RefValues, Refers, RefsOk, IdsOf, Present, RefPlaces;
    OnlyRefMeans(e, tag, text);
    RefsMean(scope, e, tag, kind);
    if RefValues(e.children, tag) == [text] {
      forall other
        ensures Refers(e, tag, other) <==> other == text
      {
        RefMeans(e, tag, other);
      }
    }
  }

  lemma SingleRef(e: Element, tag: Tag)
    ensures |RefValues(e.children, tag)| == 1 <==> exists text :: RefersOnly(e, tag, text)
  {
    hide RefValues, RefersOnly;
    var refs := RefValues(e.children, tag);
    if |refs| == 1 {
      assert refs == [refs[0]];
      OnlyRefMeans(e, tag, refs[0]);
    }
    if text :| RefersOnly(e, tag, text) {
      OnlyRefMeans(e, tag, text);
    }
  }

  lemma TimeMeans(e: Element, a: Attribute, seconds: real)
    ensures TimeOf(e, a) == Some(seconds) <==> TimeIs(e, a, seconds)
  {
    hide ParseAdmTimeSeconds;
  }

  /** The tolerance, in samples. */
  lemma LastsMeans(seconds: real, rate: nat, samples: nat)
    requires rate > 0
    ensures CloseTo(seconds, rate, samples) <==> Lasts(seconds, rate, samples)
  {
    var r, x := rate as real, samples as real;
    InSamples(seconds, r, x, x / r, 1.0 / r);
  }

  lemma InSamples(s: real, r: real, x: real, q: real, p: real)
    requires r > 0.0 && q * r == x && p * r == 1.0
    ensures -(0.00001 + p) <= s - q <= 0.00001 + p <==>
      -(1.0 + 0.00001 * r) <= s * r - x <= 1.0 + 0.00001 * r
  {
    var d, t := s - q, 0.00001 + p;
    ProductOfDifference(s, q, r, d, x);
    ProductOfSum(p, r, t);
    BothSides(d, t, -t, r, s * r - x, 1.0 + 0.00001 * r);
  }

  lemma ProductOfDifference(s: real, q: real, r: real, d: real, x: real)
    requires d == s - q && q * r == x
    ensures d * r == s * r - x
  {
  }

  lemma ProductOfSum(p: real, r: real, t: real)
    requires t == 0.00001 + p && p * r == 1.0
    ensures t * r == 1.0 + 0.00001 * r
  {
  }

  lemma OppositeProduct(t: real, r: real, n: real)
    requires n == -t
    ensures n * r == -(t * r)
  {
  }

  lemma BothSides(d: real, t: real, n: real, r: real, error: real, bound: real)
    requires r > 0.0 && n == -t && d * r == error && t * r == bound
    ensures n <= d <= t <==> -bound <= error <= bound
  {
    OppositeProduct(t, r, n);
    Scaled(d, t, r);
    Scaled(n, d, r);
  }

  lemma Scaled(a: real, b: real, r: real)
    requires r > 0.0
    ensures a <= b <==> a * r <= b * r
  {
  }

  lemma ProgrammeMeans(scope: Element, e: Element, rate: nat, samples: nat)
    requires rate > 0
    ensures ProgrammeOk(scope, e, rate, samples) <==> ProgrammeConforms(scope, e, rate, samples)
  {
    hide RefsOk, RefsResolve, TimeOf, TimeIs, CloseTo, Lasts, IdsOf;
    RefsMean(scope, e, ContentRef, Content);
    forall start, end
      ensures TimeOf(e, Start) == Some(start) <==> TimeIs(e, Start, start)
      ensures TimeOf(e, End) == Some(end) <==> TimeIs(e, End, end)
      ensures CloseTo(end - start, rate, samples) <==> Lasts(end - start, rate, samples)
    {
      TimeMeans(e, Start, start);
      TimeMeans(e, End, end);
      LastsMeans(end - start, rate, samples);
    }
  }

  lemma ContentMeans(scope: Element, e: Element)
    ensures ContentOk(scope, e) <==> ContentConforms(scope, e)
  {
    hide RefsOk, RefsResolve, IdsOf, Named, OnlyChild, Trim;
    RefsMean(scope, e, ObjectRef, Object);
    var found := Named(e.children, Dialogue);
    forall c
      ensures OnlyChild(e, Dialogue, c) <==> found == [c]
    {
      OnlyMeans(e, Dialogue, c);
    }
    if |found| == 1 {
      assert found == [found[0]];
    }
  }

  lemma NumberMeans(e: Element, n: nat)
    ensures ObjectNumber(e) == Some(n) <==> ObjectNumbered(e, n)
  {
    hide ParseUnsigned;
  }

  lemma RangeMeans(pack: Element, n: nat, uids: nat)
    ensures ObjectRangeOk(pack, n, uids) <==> RangeConforms(pack, n, uids)
  {
  }

  lemma ObjectMeans(scope: Element, e: Element, rate: nat, samples: nat)
    requires rate > 0 && DistinctIds(Named(scope.children, TagOf(Pack)), Pack)
    ensures ObjectOk(scope, e, rate, samples) <==> ObjectConforms(scope, e, rate, samples)
  {
    hide *;
    RefsMean(scope, e, PackRef, Pack);
    RefsMean(scope, e, TrackUidRef, TrackUid);
    RefCount(e.children, TrackUidRef);
    SingleRef(e, PackRef);
    TimeMeans(e, Start, 0.0);
    PackTagIs();
    forall duration
      ensures TimeOf(e, Duration) == Some(duration) <==> TimeIs(e, Duration, duration)
      ensures CloseTo(duration, rate, samples) <==> Lasts(duration, rate, samples)
    {
      TimeMeans(e, Duration, duration);
      LastsMeans(duration, rate, samples);
    }
    forall id
      ensures RefValues(e.children, PackRef) == [id] <==> RefersOnly(e, PackRef, id)
    {
      OnlyRefMeans(e, PackRef, id);
    }
    forall id, pack
      ensures FindById(scope.children, AudioPackFormat, id) == Some(pack) <==> Child(scope, AudioPackFormat, id, pack)
    {
      FindMeans(scope, Pack, id, pack);
    }
    forall n: nat
      ensures ObjectNumber(e) == Some(n) <==> ObjectNumbered(e, n)
    {
      NumberMeans(e, n);
    }
    forall n: nat, pack
      ensures var uids := |RefValues(e.children, TrackUidRef)|;
        ObjectRangeOk(pack, n, uids) <==> RangeConforms(pack, n, uids)
    {
      RangeMeans(pack, n, |RefValues(e.children, TrackUidRef)|);
    }
    ObjectParts(scope, e, rate, samples);
  }

  lemma PackTagIs()
    ensures TagOf(Pack) == AudioPackFormat
  {
  }

  lemma ObjectParts(scope: Element, e: Element, rate: nat, samples: nat)
    requires rate > 0
    requires RefsOk(e, PackRef, IdsOf(scope, Pack)) <==> RefsResolve(scope, e, PackRef, Pack)
    requires RefsOk(e, TrackUidRef, IdsOf(scope, TrackUid)) <==> RefsResolve(scope, e, TrackUidRef, TrackUid)
    requires |RefValues(e.children, TrackUidRef)| == |RefPlaces(e.children, TrackUidRef)|
    requires |RefValues(e.children, PackRef)| == 1 <==> exists text :: RefersOnly(e, PackRef, text)
    requires TimeOf(e, Start) == Some(0.0) <==> TimeIs(e, Start, 0.0)
    requires forall d :: TimeOf(e, Duration) == Some(d) <==> TimeIs(e, Duration, d)
    requires forall d :: CloseTo(d, rate, samples) <==> Lasts(d, rate, samples)
    requires forall id :: RefValues(e.children, PackRef) == [id] <==> RefersOnly(e, PackRef, id)
    requires forall id, pack ::
      FindById(scope.children, AudioPackFormat, id) == Some(pack) <==> Child(scope, AudioPackFormat, id, pack)
    requires forall n: nat :: ObjectNumber(e) == Some(n) <==> ObjectNumbered(e, n)
    requires var uids := |RefValues(e.children, TrackUidRef)|;
      forall n: nat, pack :: ObjectRangeOk(pack, n, uids) <==> RangeConforms(pack, n, uids)
    ensures ObjectOk(scope, e, rate, samples) <==> ObjectConforms(scope, e, rate, samples)
  {
    hide RefsOk, RefsResolve, IdsOf, RefValues, RefPlaces, RefersOnly, TimeOf, TimeIs, CloseTo, Lasts, FindById, Child,
      ObjectNumber, ObjectNumbered, ObjectRangeOk, RangeConforms;
    var refs := RefValues(e.children, PackRef);
    if |refs| == 1 {
      assert refs == [refs[0]];
    }
  }

  // ---------------------------------------------------------------- types and packs

  lemma DigitsHaveNoCase(s: string, t: string)
    requires forall i :: 0 <= i < |t| ==> '0' <= t[i] <= '9'
    ensures EqualIgnoringCase(s, t) <==> s == t
  {
    if EqualIgnoringCase(s, t) {
      assert forall i :: 0 <= i < |s| ==> UpperCase(s[i]) == t[i];
    }
  }

  lemma TypeMeans(e: Element)
    ensures TypeConsistent(e) <==> TypeConforms(e)
  {
    hide EqualIgnoringCase;
    if e.Attr(Id).Some? && |e.Attr(Id).value| >= 7 {
      DigitsHaveNoCase(e.Attr(Id).value[3..7], "0001");
      DigitsHaveNoCase(e.Attr(Id).value[3..7], "0003");
    }
  }

  lemma LabelMeans(scope: Element, id: string, speaker: string)
    requires DistinctIds(Named(scope.children, TagOf(Channel)), Channel)
    ensures ChannelLabel(scope, id) == Some(speaker) <==> Labelled(scope, id, speaker)
  {
    hide DistinctIds, FindById, Named, RefValues, FirstChild, RefersOnly, Child;
    ChannelTagIs();
    var found := FindById(scope.children, AudioChannelFormat, id);
    forall channel
      ensures found == Some(channel) <==> Child(scope, AudioChannelFormat, id, channel)
    {
      FindMeans(scope, Channel, id, channel);
    }
    if found.Some? {
      var blocks := Named(found.value.children, AudioBlockFormat);
      forall b
        ensures FirstChild(found.value, AudioBlockFormat, b) <==> blocks != [] && blocks[0] == b
      {
        FirstMeans(found.value, AudioBlockFormat, b);
      }
      if blocks != [] {
        OnlyRefMeans(blocks[0], SpeakerLabel, speaker);
        LabelIsSingle(RefValues(blocks[0].children, SpeakerLabel), speaker);
      }
    }
  }

  lemma LabelIsSingle(labels: seq<string>, speaker: string)
    ensures labels == [speaker] <==> |labels| == 1 && labels[0] == speaker
  {
  }

  lemma ChannelTagIs()
    ensures TagOf(Channel) == AudioChannelFormat && TagOf(Stream) == AudioStreamFormat
    ensures TagOf(TrackUid) == AudioTrackUid
  {
  }

  /** The validator's list of speaker configurations. */
  lemma BedsAre(labels: seq<string>)
    ensures IsBed(labels) <==> labels in ALLOWED_BEDS
  {
    var front, front4 := ["RC_L", "RC_R", "RC_C"], ["RC_L", "RC_R", "RC_C", "RC_LFE"];
    var five, seven := ["RC_Ls", "RC_Rs"], ["RC_Lss", "RC_Rss", "RC_Lrs", "RC_Rrs"];
    var nine := ["RC_Lss", "RC_Rss", "RC_Lrs", "RC_Rrs", "RC_Lts", "RC_Rts"];
    assert AreSurrounds(five) && AreSurrounds(seven) && AreSurrounds(nine);
    assert ALLOWED_BEDS[0] == ["RC_L", "RC_R"] && ALLOWED_BEDS[1] == front;
    assert ALLOWED_BEDS[2] == front + five && ALLOWED_BEDS[3] == front4 + five;
    assert ALLOWED_BEDS[4] == front + seven && ALLOWED_BEDS[5] == front4 + seven;
    assert ALLOWED_BEDS[6] == front + nine && ALLOWED_BEDS[7] == front4 + nine;
  }

  lemma BedMeans(scope: Element, ids: seq<string>)
    requires DistinctIds(Named(scope.children, TagOf(Channel)), Channel)
    ensures BedConfigurationOk(scope, ids) <==> BedConforms(scope, ids)
  {
    hide DistinctIds, Named, ChannelLabel, Labelled, IsBed, ALLOWED_BEDS;
    forall id, speaker
      ensures ChannelLabel(scope, id) == Some(speaker) <==> Labelled(scope, id, speaker)
    {
      LabelMeans(scope, id, speaker);
    }
    forall labels
      ensures IsBed(labels) <==> labels in ALLOWED_BEDS
    {
      BedsAre(labels);
    }
    if BedConforms(scope, ids) {
      var labels :| && IsBed(labels) && |labels| == |ids|
        && forall i :: 0 <= i < |ids| ==> Labelled(scope, ids[i], labels[i]);
      var k :| 0 <= k < |ALLOWED_BEDS| && ALLOWED_BEDS[k] == labels;
    }
    if BedConfigurationOk(scope, ids) {
      var k :| 0 <= k < |ALLOWED_BEDS| && |ALLOWED_BEDS[k]| == |ids| &&
        forall i :: 0 <= i < |ids| ==> ChannelLabel(scope, ids[i]) == Some(ALLOWED_BEDS[k][i]);
      assert IsBed(ALLOWED_BEDS[k]);
    }
  }

  lemma PackMeans(scope: Element, e: Element)
    requires DistinctIds(Named(scope.children, TagOf(Channel)), Channel)
    ensures PackOk(scope, e) <==> PackConforms(scope, e)
  {
    hide DistinctIds, Named, RefValues, RefersOnly, RefsOk, RefsResolve, IdsOf, TypeConsistent, TypeConforms,
      BedConfigurationOk, BedConforms;
    TypeMeans(e);
    RefsMean(scope, e, ChannelRef, Channel);
    SingleRef(e, ChannelRef);
    BedMeans(scope, RefValues(e.children, ChannelRef));
  }

  // ---------------------------------------------------------------- blocks

  lemma StandsMeans(b: Element, axis: string, value: real)
    ensures PositionIs(b, axis, value) <==> StandsAt(b, axis, value)
  {
    hide PositionText, AxisText, ParseFloat, Trim;
    forall text
      ensures AxisText(b, axis, Some(text)) <==> PositionText(b.children, axis) == Some(text)
    {
      AxisTextMeans(b, axis, text);
    }
  }

  lemma PairIsKnown(side: Side, ring: Ring)
    ensures SpeakerDefinition(PairLabel(side, ring)) == Some(PairPlace(side, ring))
  {
    hide *;
    PairLabels();
    match ring
    case FrontRing => FrontPlaces(); FrontRows();
    case SurroundRing => SurroundPlaces(); SurroundRows();
    case SideRing => SidePlaces(); SideRows();
    case RearRing => RearPlaces(); RearRows();
    case TopRing => TopPlaces(); TopRows();
  }

  lemma FrontPlaces()
    ensures PairPlace(Leftward, FrontRing) == ("RoomCentricLeft", -1.0, 1.0, 0.0)
    ensures PairPlace(Rightward, FrontRing) == ("RoomCentricRight", 1.0, 1.0, 0.0)
  {
    assert PairPlace(Leftward, FrontRing).0 == "RoomCentricLeft";
    assert PairPlace(Rightward, FrontRing).0 == "RoomCentricRight";
  }

  lemma FrontRows()
    ensures SpeakerDefinition("RC_L") == Some(("RoomCentricLeft", -1.0, 1.0, 0.0))
    ensures SpeakerDefinition("RC_R") == Some(("RoomCentricRight", 1.0, 1.0, 0.0))
  {
  }

  lemma SurroundPlaces()
    ensures PairPlace(Leftward, SurroundRing) == ("RoomCentricLeftSurround", -1.0, -1.0, 0.0)
    ensures PairPlace(Rightward, SurroundRing) == ("RoomCentricRightSurround", 1.0, -1.0, 0.0)
  {
    assert PairPlace(Leftward, SurroundRing).0 == "RoomCentricLeftSurround";
    assert PairPlace(Rightward, SurroundRing).0 == "RoomCentricRightSurround";
  }

  lemma SurroundRows()
    ensures SpeakerDefinition("RC_Ls") == Some(("RoomCentricLeftSurround", -1.0, -1.0, 0.0))
    ensures SpeakerDefinition("RC_Rs") == Some(("RoomCentricRightSurround", 1.0, -1.0, 0.0))
  {
  }

  lemma SidePlaces()
    ensures PairPlace(Leftward, SideRing) == ("RoomCentricLeftSideSurround", -1.0, 0.0, 0.0)
    ensures PairPlace(Rightward, SideRing) == ("RoomCentricRightSideSurround", 1.0, 0.0, 0.0)
  {
    assert PairPlace(Leftward, SideRing).0 == "RoomCentricLeftSideSurround";
    assert PairPlace(Rightward, SideRing).0 == "RoomCentricRightSideSurround";
  }

  lemma SideRows()
    ensures SpeakerDefinition("RC_Lss") == Some(("RoomCentricLeftSideSurround", -1.0, 0.0, 0.0))
    ensures SpeakerDefinition("RC_Rss") == Some(("RoomCentricRightSideSurround", 1.0, 0.0, 0.0))
  {
  }

  lemma RearPlaces()
    ensures PairPlace(Leftward, RearRing) == ("RoomCentricLeftRearSurround", -1.0, -1.0, 0.0)
    ensures PairPlace(Rightward, RearRing) == ("RoomCentricRightRearSurround", 1.0, -1.0, 0.0)
  {
    assert PairPlace(Leftward, RearRing).0 == "RoomCentricLeftRearSurround";
    assert PairPlace(Rightward, RearRing).0 == "RoomCentricRightRearSurround";
  }

  lemma RearRows()
    ensures SpeakerDefinition("RC_Lrs") == Some(("RoomCentricLeftRearSurround", -1.0, -1.0, 0.0))
    ensures SpeakerDefinition("RC_Rrs") == Some(("RoomCentricRightRearSurround", 1.0, -1.0, 0.0))
  {
  }

  lemma TopPlaces()
    ensures PairPlace(Leftward, TopRing) == ("RoomCentricLeftTopSurround", -1.0, 0.0, 1.0)
    ensures PairPlace(Rightward, TopRing) == ("RoomCentricRightTopSurround", 1.0, 0.0, 1.0)
  {
    assert PairPlace(Leftward, TopRing).0 == "RoomCentricLeftTopSurround";
    assert PairPlace(Rightward, TopRing).0 == "RoomCentricRightTopSurround";
  }

  lemma TopRows()
    ensures SpeakerDefinition("RC_Lts") == Some(("RoomCentricLeftTopSurround", -1.0, 0.0, 1.0))
    ensures SpeakerDefinition("RC_Rts") == Some(("RoomCentricRightTopSurround", 1.0, 0.0, 1.0))
  {
  }

  lemma SinglesAreKnown()
    ensures SpeakerDefinition("RC_C") == Some(("RoomCentricCenter", 0.0, 1.0, 0.0))
    ensures SpeakerDefinition("RC_LFE") == Some(("RoomCentricLFE", -1.0, 1.0, -1.0))
  {
  }

  lemma PairLabels()
    ensures PairLabel(Leftward, FrontRing) == "RC_L" && PairLabel(Rightward, FrontRing) == "RC_R"
    ensures PairLabel(Leftward, SurroundRing) == "RC_Ls" && PairLabel(Rightward, SurroundRing) == "RC_Rs"
    ensures PairLabel(Leftward, SideRing) == "RC_Lss" && PairLabel(Rightward, SideRing) == "RC_Rss"
    ensures PairLabel(Leftward, RearRing) == "RC_Lrs" && PairLabel(Rightward, RearRing) == "RC_Rrs"
    ensures PairLabel(Leftward, TopRing) == "RC_Lts" && PairLabel(Rightward, TopRing) == "RC_Rts"
  {
  }

  /** The table knows exactly these labels. */
  lemma KnownLabels(speaker: string)
    ensures SpeakerDefinition(speaker).Some? ==>
      speaker == "RC_C" || speaker == "RC_LFE" || exists side, ring :: speaker == PairLabel(side, ring)
  {
    PairLabels();
    hide PairLabel;
  }

  /** The table follows the naming of the labels. */
  lemma TableFollowsNames(speaker: string, place: (string, real, real, real))
    ensures SpeakerDefinition(speaker) == Some(place) <==> StandsFor(speaker, place)
  {
    hide SpeakerDefinition, PairLabel, PairPlace;
    SinglesAreKnown();
    KnownLabels(speaker);
    forall side, ring
      ensures SpeakerDefinition(PairLabel(side, ring)) == Some(PairPlace(side, ring))
    {
      PairIsKnown(side, ring);
    }
  }

  lemma SpeakerMeans(channel: Element, b: Element)
    ensures SpeakerOnlyOk(channel, b) <==> SpeakerConforms(channel, b)
  {
    hide RefValues, RefersOnly, SpeakerDefinition, PositionIs, StandsAt, StandsFor;
    var labels := RefValues(b.children, SpeakerLabel);
    OnlyRefMeans(b, Cartesian, "1");
    forall speaker
      ensures RefersOnly(b, SpeakerLabel, speaker) <==> |labels| == 1 && labels[0] == speaker
    {
      OnlyRefMeans(b, SpeakerLabel, speaker);
      LabelIsSingle(labels, speaker);
    }
    forall speaker, place
      ensures SpeakerDefinition(speaker) == Some(place) <==> StandsFor(speaker, place)
    {
      TableFollowsNames(speaker, place);
    }
    forall axis, value
      ensures PositionIs(b, axis, value) <==> StandsAt(b, axis, value)
    {
      StandsMeans(b, axis, value);
    }
  }

  lemma MovingMeans(b: Element, index: nat)
    ensures TimedOk(b, index) <==> MovingConforms(b, index == 0)
  {
    hide Named, OnlyChild, Trim, ParseFloat;
    var jumps := Named(b.children, JumpPosition);
    forall jump
      ensures OnlyChild(b, JumpPosition, jump) <==> |jumps| == 1 && jumps[0] == jump
    {
      OnlyMeans(b, JumpPosition, jump);
      if |jumps| == 1 {
        assert jumps == [jumps[0]];
      }
    }
  }

  lemma LegalMeans(b: Element, a: Attribute)
    ensures TimeAttributeOk(b, a) <==> LegalTime(b, a)
  {
    hide IsAdmTime;
  }

  lemma BlockMeans(channel: Element, b: Element, index: nat)
    ensures BlockOk(channel, b, index) <==> BlockConforms(channel, b, index == 0)
  {
    hide EqualIgnoringCase, TimeAttributeOk, LegalTime, HasCoordinate, HasAxis, SpeakerOnlyOk, SpeakerConforms, TimedOk,
      MovingConforms;
    LegalMeans(b, Rtime);
    LegalMeans(b, Duration);
    HasAxisMeans(b, "X");
    HasAxisMeans(b, "Y");
    SpeakerMeans(channel, b);
    MovingMeans(b, index);
    DefinitionsDiffer();
  }

  lemma ChannelMeans(e: Element)
    ensures ChannelOk(e) <==> ChannelConforms(e)
  {
    hide Named, NoneBefore, TypeConsistent, TypeConforms, BlockOk, BlockConforms;
    TypeMeans(e);
    var blocks := Named(e.children, AudioBlockFormat);
    AnyBlock(e);
    if ChannelOk(e) {
      forall i: nat | i < |e.children| && e.children[i].tag == AudioBlockFormat
        ensures BlockConforms(e, e.children[i], NoneBefore(e.children, AudioBlockFormat, i))
      {
        var k := NamedRank(e.children, AudioBlockFormat, i);
        BlockMeans(e, blocks[k], k);
      }
    }
    if ChannelConforms(e) {
      forall k | 0 <= k < |blocks|
        ensures BlockOk(e, blocks[k], k)
      {
        var i := NamedPlace(e.children, AudioBlockFormat, k);
        BlockMeans(e, blocks[k], k);
      }
    }
  }

  lemma AnyBlock(e: Element)
    ensures Named(e.children, AudioBlockFormat) != [] <==> exists b :: b in e.children && b.tag == AudioBlockFormat
  {
    hide Named;
    var blocks := Named(e.children, AudioBlockFormat);
    forall b
      ensures b in blocks <==> b in e.children && b.tag == AudioBlockFormat
    {
      NamedMeans(e.children, AudioBlockFormat, b);
    }
    if blocks != [] {
      assert blocks[0] in blocks;
    }
  }

  // ---------------------------------------------------------------- streams, track formats and UIDs

  lemma PcmMeans(e: Element)
    ensures IsPcm(e) <==> PcmConforms(e)
  {
  }

  lemma ColumnsMean(a: string, b: string)
    ensures SameFormatCounter(a, b) <==> SameColumns(a, b)
  {
    hide EqualIgnoringCase;
  }

  lemma NameMeans(scope: Element, e: Element, channelId: string)
    requires DistinctIds(Named(scope.children, TagOf(Channel)), Channel)
    ensures NamedAfter(scope, e, channelId) <==>
      var channel := FindById(scope.children, AudioChannelFormat, channelId);
      channel.Some? && channel.value.Attr(FormatName).Some? &&
        e.Attr(FormatName) == Some("PCM_" + channel.value.Attr(FormatName).value)
  {
    hide DistinctIds, FindById, Named, Child;
    ChannelTagIs();
    forall channel
      ensures FindById(scope.children, AudioChannelFormat, channelId) == Some(channel) <==>
        Child(scope, AudioChannelFormat, channelId, channel)
    {
      FindMeans(scope, Channel, channelId, channel);
    }
  }

  /** A single reference that resolves. */
  ghost predicate OneRefAgrees(scope: Element, e: Element, tag: Tag, kind: IdKind) {
    && (|RefValues(e.children, tag)| == 1 && RefsOk(e, tag, IdsOf(scope, kind)) ==>
      OneResolves(scope, e, tag, kind, RefValues(e.children, tag)[0]))
    && forall text :: OneResolves(scope, e, tag, kind, text) ==>
      RefValues(e.children, tag) == [text] && RefsOk(e, tag, IdsOf(scope, kind))
  }

  lemma OneRefMeans(scope: Element, e: Element, tag: Tag, kind: IdKind)
    ensures OneRefAgrees(scope, e, tag, kind)
  {
    hide RefValues, RefsOk, IdsOf, OneResolves;
    var refs := RefValues(e.children, tag);
    if |refs| == 1 {
      assert refs == [refs[0]];
      OneMeans(scope, e, tag, kind, refs[0]);
    }
    forall text
      ensures OneResolves(scope, e, tag, kind, text) ==>
        RefValues(e.children, tag) == [text] && RefsOk(e, tag, IdsOf(scope, kind))
    {
      OneMeans(scope, e, tag, kind, text);
    }
  }

  lemma StreamMeans(scope: Element, e: Element)
    requires DistinctIds(Named(scope.children, TagOf(Channel)), Channel)
    ensures StreamOk(scope, e) <==> StreamConforms(scope, e)
  {
    hide *;
    PcmMeans(e);
    OneRefMeans(scope, e, ChannelRef, Channel);
    OneRefMeans(scope, e, PackRef, Pack);
    OneRefMeans(scope, e, TrackFormatRef, TrackFormat);
    forall a, b
      ensures SameFormatCounter(a, b) <==> SameColumns(a, b)
    {
      ColumnsMean(a, b);
    }
    forall id
      ensures NamedAfter(scope, e, id) <==> StreamName(scope, e, id)
    {
      NameMeans(scope, e, id);
      StreamNameIs(scope, e, id);
    }
    StreamParts(scope, e);
  }

  predicate StreamName(scope: Element, e: Element, channelId: string) {
    var channel := FindById(scope.children, AudioChannelFormat, channelId);
    channel.Some? && channel.value.Attr(FormatName).Some? &&
      e.Attr(FormatName) == Some("PCM_" + channel.value.Attr(FormatName).value)
  }

  lemma StreamNameIs(scope: Element, e: Element, channelId: string)
    ensures StreamName(scope, e, channelId) <==>
      var channel := FindById(scope.children, AudioChannelFormat, channelId);
      channel.Some? && channel.value.Attr(FormatName).Some? &&
        e.Attr(FormatName) == Some("PCM_" + channel.value.Attr(FormatName).value)
  {
    hide FindById;
  }

  lemma StreamParts(scope: Element, e: Element)
    requires IsPcm(e) <==> PcmConforms(e)
    requires OneRefAgrees(scope, e, ChannelRef, Channel) && OneRefAgrees(scope, e, PackRef, Pack)
    requires OneRefAgrees(scope, e, TrackFormatRef, TrackFormat)
    requires forall a, b :: SameFormatCounter(a, b) <==> SameColumns(a, b)
    requires forall id :: NamedAfter(scope, e, id) <==> StreamName(scope, e, id)
    ensures StreamOk(scope, e) <==> StreamConforms(scope, e)
  {
    hide IsPcm, PcmConforms, RefValues, RefsOk, IdsOf, OneResolves, SameFormatCounter, SameColumns, NamedAfter,
         FindById;
  }

  lemma TrackFormatMeans(scope: Element, e: Element)
    requires DistinctIds(Named(scope.children, TagOf(Stream)), Stream)
    ensures TrackFormatOk(scope, e) <==> TrackFormatConforms(scope, e)
  {
    hide DistinctIds, Named, IsPcm, PcmConforms, RefValues, RefsOk, IdsOf, OneResolves, FindById, Child;
    ChannelTagIs();
    PcmMeans(e);
    OneRefMeans(scope, e, StreamRef, Stream);
    forall id, stream
      ensures FindById(scope.children, AudioStreamFormat, id) == Some(stream) <==>
        Child(scope, AudioStreamFormat, id, stream)
    {
      FindMeans(scope, Stream, id, stream);
    }
  }

  /** The signal and the pack a UID element names. */
  lemma LinkMeans(e: Element, signal: string, packId: string)
    ensures Link(e) == Some((signal, packId)) <==> Signals(e, signal) && RefersOnly(e, PackRef, packId)
  {
    hide RefValues, Refers, RefersOnly;
    var formats, channels, packs :=
      RefValues(e.children, TrackFormatRef), RefValues(e.children, ChannelRef), RefValues(e.children, PackRef);
    NoRefMeans(e, TrackFormatRef);
    NoRefMeans(e, ChannelRef);
    OnlyRefMeans(e, TrackFormatRef, signal);
    OnlyRefMeans(e, ChannelRef, signal);
    OnlyRefMeans(e, PackRef, packId);
    LabelIsSingle(packs, packId);
    JoinIsSingle(formats, channels, signal);
  }

  lemma JoinIsSingle(a: seq<string>, b: seq<string>, text: string)
    ensures |a + b| == 1 && (a + b)[0] == text <==> (a == [text] && b == []) || (a == [] && b == [text])
  {
    if |a + b| == 1 {
      assert a == [] || b == [];
      assert a == [] ==> a + b == b;
      assert b == [] ==> a + b == a;
    }
  }

  lemma AllIn(refs: seq<string>, ids: set<string>)
    ensures (forall i :: 0 <= i < |refs| ==> refs[i] in ids) <==> forall text :: text in refs ==> text in ids
  {
    if forall text :: text in refs ==> text in ids {
      forall i | 0 <= i < |refs|
        ensures refs[i] in ids
      {
        assert refs[i] in refs;
      }
    }
  }

  lemma AllPresent(scope: Element, e: Element, tag: Tag, kind: IdKind)
    ensures (forall text :: text in RefValues(e.children, tag) ==> text in IdsOf(scope, kind)) <==>
      (forall text :: Refers(e, tag, text) ==> Present(scope, kind, text))
  {
    hide RefValues, Refers, IdsOf, Present;
    var refs, ids := RefValues(e.children, tag), IdsOf(scope, kind);
    forall text
      ensures (text in refs <==> Refers(e, tag, text)) && (text in ids <==> Present(scope, kind, text))
    {
      RefMeans(e, tag, text);
      PresentMeans(scope, kind, text);
    }
  }

  lemma LinkExists(scope: Element, e: Element)
    ensures Link(e).Some? && RefsOk(e, PackRef, IdsOf(scope, Pack)) <==>
      (exists signal :: Signals(e, signal)) && exists packId :: OneResolves(scope, e, PackRef, Pack, packId)
  {
    hide RefValues, RefsOk, IdsOf, OneResolves, Signals, Link, RefersOnly;
    OneRefMeans(scope, e, PackRef, Pack);
    if Link(e).Some? {
      LinkMeans(e, Link(e).value.0, Link(e).value.1);
      OnlyRefMeans(e, PackRef, Link(e).value.1);
    }
    if signal, packId :| Signals(e, signal) && OneResolves(scope, e, PackRef, Pack, packId) {
      OnlyRefMeans(e, PackRef, packId);
      LinkMeans(e, signal, packId);
    }
  }

  lemma UidMeans(scope: Element, e: Element, rate: nat)
    ensures UidOk(scope, e, rate) <==> UidConforms(scope, e, rate)
  {
    hide RefValues, RefsOk, IdsOf, OneResolves, Signals, Link, Refers, Present, ParseUnsigned;
    LinkExists(scope, e);
    AllPresent(scope, e, TrackFormatRef, TrackFormat);
    AllPresent(scope, e, ChannelRef, Channel);
    AllIn(RefValues(e.children, TrackFormatRef), IdsOf(scope, TrackFormat));
    AllIn(RefValues(e.children, ChannelRef), IdsOf(scope, Channel));
  }

  // ---------------------------------------------------------------- records

  lemma RecordMeans(scope: Element, record: ChnaRecord)
    requires DistinctIds(Named(scope.children, TagOf(TrackUid)), TrackUid)
    ensures RecordLinked(scope, record) <==> RecordConforms(scope, record)
  {
    hide DistinctIds, Named, FindById, Child, Link, Signals, RefersOnly;
    ChannelTagIs();
    forall uid
      ensures FindById(scope.children, AudioTrackUid, record.uid) == Some(uid) <==>
        Child(scope, AudioTrackUid, record.uid, uid)
      ensures Link(uid) == Some((record.trackRef, record.packRef)) <==>
        Signals(uid, record.trackRef) && RefersOnly(uid, PackRef, record.packRef)
    {
      FindMeans(scope, TrackUid, record.uid, uid);
      LinkMeans(uid, record.trackRef, record.packRef);
    }
  }

  lemma LinksMean(scope: Element, chna: seq<ChnaRecord>)
    requires DistinctIds(Named(scope.children, TagOf(TrackUid)), TrackUid)
    ensures LinksOk(scope, chna) <==> LinksConform(scope, chna)
  {
    hide DistinctIds, Named, Places, RecordLinked, RecordConforms;
    ChannelTagIs();
    NamedCount(scope.children, AudioTrackUid);
    forall record
      ensures RecordLinked(scope, record) <==> RecordConforms(scope, record)
    {
      RecordMeans(scope, record);
    }
  }
}
