/** Acceptance is conformance; a reference to nothing is never accepted. */
module AdmConformanceTheorem {
  import opened Wrappers
  import opened Text
  import opened AdmIds
  import opened AdmTracks
  import opened AdmDocument
  import opened AdmDocumentCheck
  import opened AdmDocumentAccepted
  import opened AdmDocumentTheorem
  import opened AdmSearches
  import opened AdmConformance
  import opened AdmConformanceRules
  import opened Chna

  // ---------------------------------------------------------------- acceptance

  /** What a validator pass asks of a child, by its tag. */
  ghost predicate Passes(scope: Element, e: Element, rate: nat, samples: nat)
    requires rate > 0
  {
    match e.tag
    case AudioProgramme => ProgrammeOk(scope, e, rate, samples)
    case AudioContent => ContentOk(scope, e)
    case AudioObject => ObjectOk(scope, e, rate, samples)
    case AudioPackFormat => PackOk(scope, e)
    case AudioChannelFormat => ChannelOk(e)
    case AudioStreamFormat => StreamOk(scope, e)
    case AudioTrackFormat => TrackFormatOk(scope, e)
    case AudioTrackUid => UidOk(scope, e, rate)
    case _ => true
  }

  ghost predicate KindPasses(scope: Element, kind: IdKind, rate: nat, samples: nat)
    requires rate > 0
  {
    forall i :: 0 <= i < |Children(scope, kind)| ==> Passes(scope, Children(scope, kind)[i], rate, samples)
  }

  /** The children of a kind are those with its tag. */
  lemma KindMeans(scope: Element, kind: IdKind, rate: nat, samples: nat)
    requires rate > 0
    ensures KindPasses(scope, kind, rate, samples) <==>
      forall e :: e in scope.children && e.tag == TagOf(kind) ==> Passes(scope, e, rate, samples)
  {
    hide Passes, Named, TagOf;
    var es := Children(scope, kind);
    forall e
      ensures e in es <==> e in scope.children && e.tag == TagOf(kind)
    {
      NamedMeans(scope.children, TagOf(kind), e);
    }
    if forall e :: e in scope.children && e.tag == TagOf(kind) ==> Passes(scope, e, rate, samples) {
      forall i | 0 <= i < |es|
        ensures Passes(scope, es[i], rate, samples)
      {
        assert es[i] in es;
      }
    }
  }

  lemma ChildTag(scope: Element, kind: IdKind)
    ensures forall i :: 0 <= i < |Children(scope, kind)| ==> Children(scope, kind)[i].tag == TagOf(kind)
  {
    hide Named, TagOf;
    var es := Children(scope, kind);
    forall i | 0 <= i < |es|
      ensures es[i].tag == TagOf(kind)
    {
      NamedMeans(scope.children, TagOf(kind), es[i]);
    }
  }

  lemma PassesMean(scope: Element, rate: nat, samples: nat)
    requires rate > 0
    ensures RelationsOk(scope, rate, samples) <==> forall e :: e in scope.children ==> Passes(scope, e, rate, samples)
  {
    hide *;
    FirstHalf(scope, rate, samples);
    SecondHalf(scope, rate, samples);
    RelationsAreHalves(scope, rate, samples);
    KindsMean(scope, rate, samples);
  }

  ghost predicate FirstPasses(scope: Element, rate: nat, samples: nat)
    requires rate > 0
  {
    && (forall i :: 0 <= i < |Children(scope, Programme)| ==>
      ProgrammeOk(scope, Children(scope, Programme)[i], rate, samples))
    && (forall i :: 0 <= i < |Children(scope, Content)| ==> ContentOk(scope, Children(scope, Content)[i]))
    && (forall i :: 0 <= i < |Children(scope, Object)| ==> ObjectOk(scope, Children(scope, Object)[i], rate, samples))
    && (forall i :: 0 <= i < |Children(scope, Pack)| ==> PackOk(scope, Children(scope, Pack)[i]))
  }

  ghost predicate SecondPasses(scope: Element, rate: nat) {
    && (forall i :: 0 <= i < |Children(scope, Channel)| ==> ChannelOk(Children(scope, Channel)[i]))
    && (forall i :: 0 <= i < |Children(scope, Stream)| ==> StreamOk(scope, Children(scope, Stream)[i]))
    && (forall i :: 0 <= i < |Children(scope, TrackFormat)| ==> TrackFormatOk(scope, Children(scope, TrackFormat)[i]))
    && (forall i :: 0 <= i < |Children(scope, TrackUid)| ==> UidOk(scope, Children(scope, TrackUid)[i], rate))
  }

  lemma RelationsAreHalves(scope: Element, rate: nat, samples: nat)
    requires rate > 0
    ensures RelationsOk(scope, rate, samples) <==> FirstPasses(scope, rate, samples) && SecondPasses(scope, rate)
  {
    hide Children, ProgrammeOk, ContentOk, ObjectOk, PackOk, ChannelOk, StreamOk, TrackFormatOk, UidOk;
  }

  lemma FirstHalf(scope: Element, rate: nat, samples: nat)
    requires rate > 0
    ensures FirstPasses(scope, rate, samples) <==>
      && KindPasses(scope, Programme, rate, samples) && KindPasses(scope, Content, rate, samples)
      && KindPasses(scope, Object, rate, samples) && KindPasses(scope, Pack, rate, samples)
  {
    hide Children, ProgrammeOk, ContentOk, ObjectOk, PackOk, ChannelOk, StreamOk, TrackFormatOk, UidOk;
    ChildTag(scope, Programme);
    ChildTag(scope, Content);
    ChildTag(scope, Object);
    ChildTag(scope, Pack);
  }

  lemma SecondHalf(scope: Element, rate: nat, samples: nat)
    requires rate > 0
    ensures SecondPasses(scope, rate) <==>
      && KindPasses(scope, Channel, rate, samples) && KindPasses(scope, Stream, rate, samples)
      && KindPasses(scope, TrackFormat, rate, samples) && KindPasses(scope, TrackUid, rate, samples)
  {
    hide Children, ProgrammeOk, ContentOk, ObjectOk, PackOk, ChannelOk, StreamOk, TrackFormatOk, UidOk;
    ChildTag(scope, Channel);
    ChildTag(scope, Stream);
    ChildTag(scope, TrackFormat);
    ChildTag(scope, TrackUid);
  }

  lemma KindsMean(scope: Element, rate: nat, samples: nat)
    requires rate > 0
    ensures (forall e :: e in scope.children ==> Passes(scope, e, rate, samples)) <==>
      && KindPasses(scope, Programme, rate, samples) && KindPasses(scope, Content, rate, samples)
      && KindPasses(scope, Object, rate, samples) && KindPasses(scope, Pack, rate, samples)
      && KindPasses(scope, Channel, rate, samples) && KindPasses(scope, Stream, rate, samples)
      && KindPasses(scope, TrackFormat, rate, samples) && KindPasses(scope, TrackUid, rate, samples)
  {
    hide KindPasses, Passes;
    forall kind: IdKind
      ensures KindPasses(scope, kind, rate, samples) <==>
        forall e :: e in scope.children && e.tag == TagOf(kind) ==> Passes(scope, e, rate, samples)
    {
      KindMeans(scope, kind, rate, samples);
    }
    forall e
      ensures Passes(scope, e, rate, samples) || exists kind: IdKind :: kind != Block && TagOf(kind) == e.tag
    {
      OthersPass(scope, e, rate, samples);
    }
  }

  lemma OthersPass(scope: Element, e: Element, rate: nat, samples: nat)
    requires rate > 0
    ensures Passes(scope, e, rate, samples) || exists kind: IdKind :: kind != Block && TagOf(kind) == e.tag
  {
    hide ProgrammeOk, ContentOk, ObjectOk, PackOk, ChannelOk, StreamOk, TrackFormatOk, UidOk;
    match e.tag
    case AudioProgramme => assert TagOf(Programme) == e.tag;
    case AudioContent => assert TagOf(Content) == e.tag;
    case AudioObject => assert TagOf(Object) == e.tag;
    case AudioPackFormat => assert TagOf(Pack) == e.tag;
    case AudioChannelFormat => assert TagOf(Channel) == e.tag;
    case AudioStreamFormat => assert TagOf(Stream) == e.tag;
    case AudioTrackFormat => assert TagOf(TrackFormat) == e.tag;
    case AudioTrackUid => assert TagOf(TrackUid) == e.tag;
    case _ =>
  }

  /** Children of every kind have distinct identifiers. */
  ghost predicate ChildrenDistinct(scope: Element) {
    forall kind: IdKind :: DistinctIds(Named(scope.children, TagOf(kind)), kind)
  }

  lemma IdentifiedChildren(scope: Element, uids: nat)
    requires IdentifiersOk(scope, uids)
    ensures ChildrenDistinct(scope)
  {
    hide DistinctIds, Found, Named, TagOf, Contiguous, IdsOf;
    forall kind: IdKind
      ensures DistinctIds(Named(scope.children, TagOf(kind)), kind)
    {
      assert DistinctIds(Members(scope, kind), kind);
      NamedAreDistinct(scope.children, kind);
    }
  }

  lemma ElementMeans(scope: Element, e: Element, rate: nat, samples: nat)
    requires rate > 0 && ChildrenDistinct(scope)
    ensures Passes(scope, e, rate, samples) <==> ElementConforms(scope, e, rate, samples)
  {
    hide ProgrammeOk, ContentOk, ObjectOk, PackOk, ChannelOk, StreamOk, TrackFormatOk, UidOk, ProgrammeConforms,
      ContentConforms, ObjectConforms, PackConforms, ChannelConforms, StreamConforms, TrackFormatConforms, UidConforms,
      DistinctIds, Named, TagOf;
    match e.tag
    case AudioProgramme => ProgrammeMeans(scope, e, rate, samples);
    case AudioContent => ContentMeans(scope, e);
    case AudioObject => ObjectMeans(scope, e, rate, samples);
    case AudioPackFormat => PackMeans(scope, e);
    case AudioChannelFormat => ChannelMeans(e);
    case AudioStreamFormat => StreamMeans(scope, e);
    case AudioTrackFormat => TrackFormatMeans(scope, e);
    case AudioTrackUid => UidMeans(scope, e, rate);
    case _ =>
  }

  lemma RelationsConform(scope: Element, rate: nat, samples: nat)
    requires rate > 0
    ensures ChildrenDistinct(scope) ==>
      (RelationsOk(scope, rate, samples) <==>
        forall e :: e in scope.children ==> ElementConforms(scope, e, rate, samples))
  {
    hide RelationsOk, Passes, ElementConforms, ChildrenDistinct;
    PassesMean(scope, rate, samples);
    if ChildrenDistinct(scope) {
      forall e
        ensures Passes(scope, e, rate, samples) <==> ElementConforms(scope, e, rate, samples)
      {
        ElementMeans(scope, e, rate, samples);
      }
    }
  }

  lemma ScopeAccepted(scope: Element, rate: nat, samples: nat, chna: seq<ChnaRecord>)
    requires rate > 0
    ensures IdentifiersOk(scope, |chna|) && RelationsOk(scope, rate, samples) && LinksOk(scope, chna) <==>
      ScopeConforms(scope, rate, samples, chna)
  {
    hide IdentifiersOk, IdentifiersConform, RelationsOk, ElementConforms, LinksOk, LinksConform, DistinctIds;
    IdentifiersMean(scope, |chna|);
    if IdentifiersOk(scope, |chna|) {
      IdentifiedChildren(scope, |chna|);
      RelationsConform(scope, rate, samples);
      LinksMean(scope, chna);
    }
  }

  /** The validator accepts exactly the conforming documents. */
  lemma AcceptanceIsConformance(doc: Document, rate: nat, samples: nat, chna: seq<ChnaRecord>)
    requires rate > 0
    ensures DocumentAccepted(doc, rate, samples, chna) <==> Conforms(doc, rate, samples, chna)
  {
    hide ExtendedOf, ScopeOf, IdentifiersOk, RelationsOk, LinksOk, ScopeConforms;
    forall scope
      ensures ExtendedOf(doc) == Some(scope) <==> ScopeOf(doc, scope)
      ensures IdentifiersOk(scope, |chna|) && RelationsOk(scope, rate, samples) && LinksOk(scope, chna) <==>
        ScopeConforms(scope, rate, samples, chna)
    {
      ScopeMeans(doc, scope);
      ScopeAccepted(scope, rate, samples, chna);
    }
  }

  // ---------------------------------------------------------------- dangling references

  /** The kind that references under `tag` from elements tagged `from` have to name. */
  function Target(from: Tag, tag: Tag): Option<IdKind> {
    match (from, tag)
    case (AudioProgramme, ContentRef) => Some(Content)
    case (AudioContent, ObjectRef) => Some(Object)
    case (AudioObject, PackRef) => Some(Pack)
    case (AudioObject, TrackUidRef) => Some(TrackUid)
    case (AudioPackFormat, ChannelRef) => Some(Channel)
    case (AudioStreamFormat, ChannelRef) => Some(Channel)
    case (AudioStreamFormat, PackRef) => Some(Pack)
    case (AudioStreamFormat, TrackFormatRef) => Some(TrackFormat)
    case (AudioTrackFormat, StreamRef) => Some(Stream)
    case (AudioTrackUid, TrackFormatRef) => Some(TrackFormat)
    case (AudioTrackUid, ChannelRef) => Some(Channel)
    case (AudioTrackUid, PackRef) => Some(Pack)
    case _ => None
  }

  /** No reference of a conforming element is dangling. */
  lemma ReferencesResolve(scope: Element, e: Element, rate: nat, samples: nat, tag: Tag, text: string)
    requires ElementConforms(scope, e, rate, samples) && Target(e.tag, tag).Some? && Refers(e, tag, text)
    ensures Present(scope, Target(e.tag, tag).value, text)
  {
    hide Refers, Present, RefersOnly, TimeIs, Lasts, BedConforms, TypeConforms, NamedAfter, SameColumns, Child,
      ObjectNumbered, RangeConforms, OnlyChild;
    if e.tag == AudioStreamFormat || e.tag == AudioTrackFormat || e.tag == AudioTrackUid {
      forall one
        ensures RefersOnly(e, tag, one) ==> one == text
      {
        OnlyOne(e, tag, one, text);
      }
    }
  }

  lemma OnlyOne(e: Element, tag: Tag, one: string, text: string)
    requires Refers(e, tag, text)
    ensures RefersOnly(e, tag, one) ==> one == text
  {
    hide RefersOnly, Refers;
    if RefersOnly(e, tag, one) {
      OnlyRefMeans(e, tag, one);
      RefMeans(e, tag, text);
    }
  }

  /** A document in which some reference that has to name an element of the document names none is rejected. */
  lemma DanglingIsRejected(doc: Document, rate: nat, samples: nat, chna: seq<ChnaRecord>, extended: Element, e: Element,
      tag: Tag, text: string)
    requires rate > 0 && extended in Everything([doc.root]) && extended.tag == AudioFormatExtended
    requires e in extended.children && Target(e.tag, tag).Some? && Refers(e, tag, text)
    requires forall x :: x in Everything([doc.root]) ==> x.Attr(Id) != Some(text)
    ensures !DocumentAccepted(doc, rate, samples, chna)
  {
    hide DocumentAccepted, ScopeOf, ElementConforms, Refers, Target, Everything, Present, IdentifiersConform,
         LinksConform;
    AcceptanceIsConformance(doc, rate, samples, chna);
    forall scope | ScopeOf(doc, scope) && ScopeConforms(scope, rate, samples, chna)
      ensures false
    {
      OnlyScope(doc, scope, extended);
      ReferencesResolve(scope, e, rate, samples, tag, text);
      NothingPresent(doc, scope, Target(e.tag, tag).value, text);
    }
  }

  lemma OnlyScope(doc: Document, scope: Element, extended: Element)
    requires ScopeOf(doc, scope) && extended in Everything([doc.root]) && extended.tag == AudioFormatExtended
    ensures extended == scope && scope in Everything([doc.root])
  {
    hide Found, Everything, Named, Chained;
    FoundMeans([doc.root], AudioFormatExtended);
    NamedMeans(Everything([doc.root]), AudioFormatExtended, extended);
  }

  lemma NothingPresent(doc: Document, scope: Element, kind: IdKind, text: string)
    requires scope in Everything([doc.root])
    requires forall x :: x in Everything([doc.root]) ==> x.Attr(Id) != Some(text)
    ensures !Present(scope, kind, text)
  {
    hide Found, Everything, Named, TagOf;
    if x :| x in Found(scope.children, TagOf(kind)) && x.Attr(Id) == Some(text) {
      FoundMeans(scope.children, TagOf(kind));
      NamedMeans(Everything(scope.children), TagOf(kind), x);
      InsideIsInside([doc.root], scope, x);
    }
  }

  // ---------------------------------------------------------------- one renamed reference

  function Wrapped(scope: Element): Document {
    Document(EbuCore2016,
      Element(EbuCoreMain, map[], None, [
        Element(CoreMetadata, map[], None, [
          Element(Format, map[], None, [scope])])]))
  }

  /** Child `j` of child `i` refers to something else. */
  function Renamed(scope: Element, i: nat, j: nat, text: string): Element
    requires i < |scope.children| && j < |scope.children[i].children|
  {
    var e := scope.children[i];
    scope.(children := scope.children[i := e.(children := e.children[j := Leaf(e.children[j].tag, text)])])
  }

  lemma {:induction false} InsideReplaced(es: seq<Element>, i: nat, e: Element, x: Element)
    requires i < |es| && x in Everything(es[i := e])
    ensures x in Everything(es) || x == e || x in Everything(e.children)
  {
    hide *;
    EverythingStep(es);
    EverythingStep(es[i := e]);
    if i == 0 {
      assert es[0 := e][1..] == es[1..];
    } else {
      assert es[i := e][1..] == es[1..][i - 1 := e];
      if x in Everything(es[1..][i - 1 := e]) {
        InsideReplaced(es[1..], i - 1, e, x);
      }
    }
  }

  lemma LeafIsAlone(tag: Tag, text: string, x: Element)
    requires x in Everything([Leaf(tag, text)])
    ensures x == Leaf(tag, text)
  {
    assert [Leaf(tag, text)][1..] == [];
  }

  /** Renaming a reference adds no identifier. */
  lemma RenamedIds(scope: Element, i: nat, j: nat, text: string, x: Element)
    requires i < |scope.children| && j < |scope.children[i].children|
    requires forall y :: y in Everything(scope.children) ==> y.Attr(Id) != Some(text)
    requires x in Everything(Renamed(scope, i, j, text).children)
    ensures x.Attr(Id) != Some(text)
  {
    hide Everything;
    var e, leaf := scope.children[i], Leaf(scope.children[i].children[j].tag, text);
    var renamed := e.(children := e.children[j := leaf]);
    InsideReplaced(scope.children, i, renamed, x);
    TopIsInside(scope.children, e);
    if x in Everything(renamed.children) {
      InsideReplaced(e.children, j, leaf, x);
      EverythingStep(leaf.children);
      if x in Everything(e.children) {
        InsideIsInside(scope.children, e, x);
      }
    }
  }

  lemma WrappedMeans(scope: Element, x: Element)
    ensures scope in Everything([Wrapped(scope).root])
    ensures x in Everything([Wrapped(scope).root]) ==>
      x == scope || x in Everything(scope.children) || x.Attr(Id) == None
  {
    var root := Wrapped(scope).root;
    var core := root.children[0];
    var format := core.children[0];
    SingleInside(scope, x);
    SingleInside(format, x);
    SingleInside(core, x);
    SingleInside(root, x);
    hide Everything;
    SingleInside(scope, scope);
    SingleInside(format, scope);
    SingleInside(core, scope);
    SingleInside(root, scope);
  }

  lemma SingleInside(e: Element, x: Element)
    ensures x in Everything([e]) <==> x == e || x in Everything(e.children)
  {
    hide Everything;
    EverythingStep([e]);
    EverythingStep([e][1..]);
  }

  /** Whatever document a plan has, renaming any one of its references to an identifier that no element carries makes
      the validator reject it. */
  lemma RenamedIsRejected(rate: nat, duration: nat, tracks: seq<TrackDescriptor>, signals: nat, lfe: bool, i: nat,
      j: nat,
      text: string)
    requires Planned(rate, duration, tracks, signals, lfe) && rate > 0
    requires var scope := Extended(rate, duration, tracks);
      && i < |scope.children| && j < |scope.children[i].children|
      && Target(scope.children[i].tag, scope.children[i].children[j].tag).Some?
    requires Trim(text) == text && text != ""
    requires forall x :: x in Everything([MakeDocument(rate, duration, tracks).root]) ==> x.Attr(Id) != Some(text)
    ensures BlocksNumberable(tracks) ==>
      DocumentAccepted(MakeDocument(rate, duration, tracks), rate, duration, RecordsFor(tracks))
    ensures !DocumentAccepted(Wrapped(Renamed(Extended(rate, duration, tracks), i, j, text)), rate, duration,
      RecordsFor(tracks))
  {
    hide *;
    var scope := Extended(rate, duration, tracks);
    DocumentAcceptance(rate, duration, tracks, signals, lfe);
    MakeDocumentIs(rate, duration, tracks);
    WrappedMeans(scope, scope);
    ScopeTag(rate, duration, tracks);
    OnlyChildrenMatter(scope, text);
    RenamedScopeRejected(scope, i, j, text, rate, duration, RecordsFor(tracks));
  }

  lemma MakeDocumentIs(rate: nat, duration: nat, tracks: seq<TrackDescriptor>)
    requires rate > 0
    ensures MakeDocument(rate, duration, tracks) == Wrapped(Extended(rate, duration, tracks))
  {
    hide Extended;
  }

  lemma ScopeTag(rate: nat, duration: nat, tracks: seq<TrackDescriptor>)
    requires rate > 0
    ensures var scope := Extended(rate, duration, tracks); scope.tag == AudioFormatExtended && scope.Attr(Id) == None
  {
    hide Sections, Concat;
  }

  lemma OnlyChildrenMatter(scope: Element, text: string)
    requires forall x :: x in Everything([Wrapped(scope).root]) ==> x.Attr(Id) != Some(text)
    ensures forall x :: x in Everything(scope.children) ==> x.Attr(Id) != Some(text)
  {
    hide Everything, Wrapped;
    WrappedMeans(scope, scope);
    forall x | x in Everything(scope.children)
      ensures x.Attr(Id) != Some(text)
    {
      InsideIsInside([Wrapped(scope).root], scope, x);
    }
  }

  /** The same for any format element without an identifier of its own. */
  lemma RenamedScopeRejected(scope: Element, i: nat, j: nat, text: string, rate: nat, samples: nat,
      chna: seq<ChnaRecord>)
    requires rate > 0 && scope.tag == AudioFormatExtended && scope.Attr(Id) == None
    requires i < |scope.children| && j < |scope.children[i].children|
    requires Target(scope.children[i].tag, scope.children[i].children[j].tag).Some?
    requires Trim(text) == text && text != ""
    requires forall x :: x in Everything(scope.children) ==> x.Attr(Id) != Some(text)
    ensures !DocumentAccepted(Wrapped(Renamed(scope, i, j, text)), rate, samples, chna)
  {
    hide DocumentAccepted, Everything, Target, Wrapped, Trim;
    var e, tag := scope.children[i], scope.children[i].children[j].tag;
    var renamed := Renamed(scope, i, j, text);
    var other, doc := renamed.children[i], Wrapped(renamed);
    assert IsRef(other.children[j], tag, text);
    WrappedMeans(renamed, renamed);
    forall x | x in Everything([doc.root])
      ensures x.Attr(Id) != Some(text)
    {
      WrappedMeans(renamed, x);
      if x in Everything(renamed.children) {
        RenamedIds(scope, i, j, text, x);
      }
    }
    DanglingIsRejected(doc, rate, samples, chna, renamed, other, tag, text);
  }
}
